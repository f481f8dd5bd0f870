/** The interrupt-driven SPI driver, updated in place, over scatter/gather lists. Every
    method is proved equal to a function of SpiTransfer on the state it finds; what a
    transfer promises is proved there, about all runs of the engine and the handler. */
module SpiAsync {
  import opened Prelude
  import opened SpiBuffers
  import opened SpiTransfer

  datatype Answer = Invalid | Busy | Accepted

  class Spi {
    const memory: array<Byte>
    var tx: List
    var rx: List
    var len: nat
    var index: nat
    var callback: Option<int>
    var active: bool
    var select: int
    var busy: bool
    var done: bool
    var rxData: Byte
    ghost var log: Record

    ghost function State(): Transfer
      reads this, memory
    {
      Transfer(len, index, callback, active, select, busy, done, rxData, memory[..], log)
    }

    // The record is of the lists the driver holds, which lie in memory.
    ghost predicate Valid()
      reads `tx, `rx, `log
    {
      && log.tx == CellsOf(tx) && log.rx == CellsOf(rx)
      && Inside(tx, memory.Length) && Inside(rx, memory.Length)
    }

    // DONE may be set or clear at first.
    constructor (memory: array<Byte>, done: bool)
      ensures Valid() && Good(State()) && !active && log.fired == [] && this.memory == memory
    {
      this.memory := memory;
      tx, rx, len, index, callback, active := None, None, 0, 0, None, false;
      select, busy, this.done, rxData := 0xf, false, done, 0;
      log := Record(0, [], [], memory[..], [], [], None, [], []);
      new;
    }

    method WriteData(b: Byte)
      modifies `busy, `done, `log
      ensures State() == WriteTxData(old(State()), b)
    {
      if !busy {
        busy, done, log := true, false, log.(sent := log.sent + [b]);
      }
    }

    /** Starts a transfer, unless it is invalid or empty or another one is active. */
    method TransceiveAsync(valid: bool, slave: int, tx: List, rx: List, callback: Option<int>) returns (r: Answer)
      requires Valid() && Inside(tx, memory.Length) && Inside(rx, memory.Length) && (valid ==> 0 <= slave < 4)
      modifies this
      ensures r == Invalid <==> !valid || Longer(|CellsOf(tx)|, |CellsOf(rx)|) == 0
      ensures r == Busy <==> r != Invalid && old(active)
      ensures State() == if r == Accepted then Start(old(State()), slave, CellsOf(tx), CellsOf(rx), callback)
                         else old(State())
      ensures Valid()
    {
      var txLen := TotalLength(tx);
      var rxLen := TotalLength(rx);
      var n := Longer(txLen, rxLen);
      if !valid || n == 0 {
        return Invalid;
      }
      if active {
        return Busy;
      }
      Begin(slave, tx, rx, n, callback);
      r := Accepted;
    }

    // Sets the fields for a new transfer and sends its first byte.
    method Begin(slave: int, tx: List, rx: List, n: nat, callback: Option<int>)
      requires n == Longer(|CellsOf(tx)|, |CellsOf(rx)|) && Inside(tx, memory.Length) && Inside(rx, memory.Length)
      modifies this
      ensures Valid() && State() == Start(old(State()), slave, CellsOf(tx), CellsOf(rx), callback)
    {
      Set(slave, tx, rx, n, callback, CellsOf(tx), CellsOf(rx));
      var b := TxByte(memory, tx, 0);
      WriteData(b);
    }

    method Set(slave: int, tx: List, rx: List, n: nat, callback: Option<int>, ghost from: seq<int>, ghost to: seq<int>)
      requires n == Longer(|from|, |to|)
      modifies this
      ensures State() == Fresh(old(State()), slave, from, to, callback) && this.rx == rx && this.tx == tx
    {
      this.tx, this.rx, len, index := tx, rx, n, 0;
      this.callback, active := callback, true;
      select := SelectLines(slave);
      log := Record(slave, from, to, memory[..], [], [], callback, log.fired, log.fired);
    }

    /** The engine finishes the byte in flight, if there is one. */
    method Shift(value: Byte)
      requires Valid()
      modifies `busy, `done, `rxData, `log
      ensures Valid() && State() == ShiftDone(old(State()), value)
    {
      if busy {
        busy, done, rxData, log := false, true, value, log.(arrived := log.arrived + [value]);
      }
    }

    /** The interrupt handler. */
    method Isr()
      requires Valid()
      modifies this, memory
      ensures Valid() && State() == SpiTransfer.Isr(old(State())) && rx == old(rx) && tx == old(tx)
    {
      if !active || !done {
        return;
      }
      TakeByte();
      Proceed();
    }

    // Ends the transfer or sends the next byte.
    method Proceed()
      requires Valid()
      modifies `select, `active, `callback, `busy, `done, `log
      ensures var t := old(State());
        State() == if t.index == t.len then Complete(t) else WriteTxData(t, ByteAt(t.memory, t.log.tx, t.index))
      ensures Valid()
    {
      if index == len {
        Finish();
      } else {
        var b := TxByte(memory, tx, index);
        WriteData(b);
      }
    }

    // Clears DONE and stores the byte that has arrived.
    method TakeByte()
      requires Valid()
      modifies `done, `index, memory
      ensures Valid() && State() == Take(old(State()))
    {
      done := false;
      RxByte(memory, rx, index, rxData);
      index := index + 1;
    }

    method Finish()
      modifies `select, `active, `callback, `log
      ensures State() == Complete(old(State()))
    {
      var f := callback;
      select, active, callback := 0xf, false, None;
      if f.Some? {
        log := log.(fired := log.fired + [f.value]);
      }
      assert log.fired == old(log.fired) + if f.Some? then [f.value] else [];
    }
  }
}
