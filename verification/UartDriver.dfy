/** The UART driver's statics, updated in place. */
module UartDriver {
  import opened Prelude
  import opened BootWords
  import opened UartRings

  // Byte memory, as the driver's word accesses see it.
  type Memory = int -> Byte

  const ADDRESSES: int := 0x1_0000_0000

  // The bytes from an address on; after the last address comes the first.
  function Bytes(memory: Memory, from: int, n: nat): (bytes: seq<Byte>)
    ensures |bytes| == n && forall i :: 0 <= i < n ==> bytes[i] == memory((from + i) % ADDRESSES)
  {
    seq(n, i => memory((from + i) % ADDRESSES))
  }

  // A byte of a word, by shift and mask.
  function ByteOf(word: nat, lane: nat): Byte
    decreases lane
  {
    if lane == 0 then word % 256 else ByteOf(word / 256, lane - 1)
  }

  lemma {:induction false} ByteOfJoin(bytes: seq<Byte>, lane: nat)
    requires lane < |bytes|
    ensures ByteOf(Join(bytes), lane) == bytes[lane]
  {
    if lane > 0 {
      ByteOfJoin(bytes[1..], lane - 1);
    }
  }

  /** Loads one byte through the aligned word that holds it. */
  method LoadByte(memory: Memory, data: int, index: nat) returns (b: Byte)
    ensures b == memory((data + index) % ADDRESSES)
  {
    var address := (data + index) % ADDRESSES;
    var base := address - address % 4;
    var word := Join(Bytes(memory, base, 4));
    ByteOfJoin(Bytes(memory, base, 4), address % 4);
    b := ByteOf(word, address % 4);
  }

  class Driver {
    const txBuffer: array<Byte>
    const rxBuffer: array<Byte>
    var txHead: int
    var txTail: int
    var rxHead: int
    var rxTail: int
    var dropped: int
    var txIrq: bool
    ghost var log: Record

    ghost predicate Sized() {
      txBuffer.Length == rxBuffer.Length == SIZE && txBuffer != rxBuffer
    }

    ghost function State(): Uart
      reads this, txBuffer, rxBuffer
    {
      Uart(txBuffer[..], txHead, txTail, rxBuffer[..], rxHead, rxTail, dropped, txIrq, log)
    }

    // The arrays are not initialised, and neither are the statics until the first call.
    constructor (tx: array<Byte>, rx: array<Byte>)
      requires tx.Length == rx.Length == SIZE && tx != rx
      ensures Sized() && txBuffer == tx && rxBuffer == rx
    {
      txBuffer, rxBuffer := tx, rx;
    }

    method AsyncInit()
      requires Sized()
      modifies this
      ensures Initial(State())
    {
      txHead, txTail, rxHead, rxTail, dropped, txIrq := 0, 0, 0, 0, 0, false;
      log := Record([], [], [], [], [], []);
    }

    /** Writes queued bytes while TXDATA is ready, then enables or disables the transmit
        interrupt. */
    method TxService(ready: nat)
      requires Sized() && Shape(State())
      modifies `txTail, `txIrq, `log
      ensures State() == UartRings.TxService(old(State()), ready)
    {
      ghost var start := State();
      var left := ready;
      while txTail != txHead && left > 0
        invariant Shape(State()) && SendAll(State(), left) == SendAll(start, ready)
        decreases left
      {
        log := log.(txQueue := Rest(log.txQueue), written := log.written + [txBuffer[txTail]]);
        txTail := RingNext(txTail);
        left := left - 1;
      }
      txIrq := txTail != txHead;
    }

    // One pass of the receive loop.
    method TakeByte(value: Byte)
      requires Sized() && Shape(State())
      modifies `rxHead, `dropped, `log, rxBuffer
      ensures State() == Receive(old(State()), value)
    {
      ghost var before := State();
      var next := RingNext(rxHead);
      if next == rxTail {
        dropped := (dropped + 1) % COUNTER;
        log := log.(arrivals := log.arrivals + [Arrival(value, false)]);
      } else {
        rxBuffer[rxHead] := value;
        rxHead := next;
        log := log.(arrivals := log.arrivals + [Arrival(value, true)], rxQueue := log.rxQueue + [value]);
        assert rxBuffer[..] == before.rxBuffer[before.rxHead := value];
      }
    }

    /** Takes every byte the hardware holds; `values` are those it comes to hold. */
    method RxService(values: seq<Byte>)
      requires Sized() && Shape(State())
      modifies `rxHead, `dropped, `log, rxBuffer
      ensures State() == UartRings.RxService(old(State()), values)
    {
      ghost var start := State();
      assert values[0..] == values;
      for k := 0 to |values|
        invariant Shape(State())
        invariant UartRings.RxService(State(), values[k..]) == UartRings.RxService(start, values)
      {
        assert values[k..][1..] == values[k + 1..];
        TakeByte(values[k]);
      }
      assert values[|values|..] == [];
    }

    // A byte enters the transmit ring.
    method Enter(b: Byte)
      requires Sized() && Shape(State())
      modifies `txHead, `log, txBuffer
      ensures State() == Push(old(State()), b)
    {
      ghost var before := State();
      txBuffer[txHead] := b;
      txHead := RingNext(txHead);
      log := log.(txQueue := log.txQueue + [b], accepted := log.accepted + [b]);
      assert txBuffer[..] == before.txBuffer[before.txHead := b];
    }

    method AsyncPutc(ch: int, ready: nat) returns (accepted: bool)
      requires Sized() && Shape(State())
      modifies this, txBuffer
      ensures (State(), accepted) == Putc(old(State()), ch % 256, ready)
    {
      accepted := false;
      if RingNext(txHead) != txTail {
        Enter(ch % 256);
        TxService(ready);
        accepted := true;
      }
    }

    method AsyncWrite(memory: Memory, data: nat, length: nat, ready: nat) returns (written: nat)
      requires Sized() && Shape(State())
      modifies this, txBuffer
      ensures (State(), written) == Write(old(State()), Bytes(memory, data, length), ready)
    {
      written := FillRing(memory, data, length);
      TxService(ready);
    }

    // The fill loop.
    method FillRing(memory: Memory, data: nat, length: nat) returns (written: nat)
      requires Sized() && Shape(State())
      modifies `txHead, `log, txBuffer
      ensures (State(), written) == Fill(old(State()), Bytes(memory, data, length))
    {
      written := 0;
      ghost var bytes := Bytes(memory, data, length);
      ghost var end := Fill(State(), bytes);
      assert bytes[0..] == bytes;
      while written < length && RingNext(txHead) != txTail
        invariant 0 <= written <= length && Shape(State())
        invariant var rest := Fill(State(), bytes[written..]); rest.0 == end.0 && rest.1 + written == end.1
      {
        assert bytes[written..][1..] == bytes[written + 1..];
        var b := LoadByte(memory, data, written);
        Enter(b);
        written := written + 1;
      }
    }

    method AsyncGetc() returns (value: int)
      requires Sized() && Shape(State())
      modifies `rxTail, `log
      ensures (State(), value) == Getc(old(State()))
    {
      value := -1;
      if rxTail != rxHead {
        value := rxBuffer[rxTail];
        log := log.(rxQueue := Rest(log.rxQueue), delivered := log.delivered + [rxBuffer[rxTail]]);
        rxTail := RingNext(rxTail);
      }
    }

    method RxDropped() returns (count: int)
      requires Sized() && Inv(State())
      ensures count == Lost(log.arrivals) % COUNTER
    {
      count := dropped;
    }

    method IrqHandler(p: Pending)
      requires Sized() && Shape(State())
      modifies this, rxBuffer
      ensures State() == Irq(old(State()), p)
    {
      if p.rxWatermark {
        RxService(p.values);
      }
      if p.txWatermark {
        TxService(p.ready);
      }
    }
  }
}
