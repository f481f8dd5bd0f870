/** An SPI transfer over memory in which any of the buffers may overlap. */
module SpiTransfer {
  import opened Prelude
  import opened SpiBuffers

  /** The record of the current or last transfer: its slave, the cells of its two lists, what
      memory held at the start, the bytes the engine has begun to shift out and those it has
      shifted in, the callback, the callbacks made before, and all callbacks made. */
  datatype Record = Record(slave: int, tx: seq<int>, rx: seq<int>, start: seq<Byte>,
                           sent: seq<Byte>, arrived: seq<Byte>, given: Option<int>, earlier: seq<int>, fired: seq<int>)

  // The driver's fields, the registers, memory, and the record.
  datatype Transfer = Transfer(len: int, index: int, callback: Option<int>, active: bool,
                               select: int, busy: bool, done: bool, rxData: Byte, memory: seq<Byte>, log: Record)

  // The four select lines with one of them low.
  function SelectLines(slave: int): int {
    if slave == 0 then 0xe else if slave == 1 then 0xd else if slave == 2 then 0xb else 0x7
  }

  // Writing TXDATA starts the engine, which also clears DONE, unless it is busy.
  function WriteTxData(t: Transfer, b: Byte): Transfer {
    if t.busy then t else t.(busy := true, done := false, log := t.log.(sent := t.log.sent + [b]))
  }

  function Longer(a: int, b: int): int {
    if a > b then a else b
  }

  // The fields as a new transfer sets them.
  function Fresh(t: Transfer, slave: int, tx: seq<int>, rx: seq<int>, callback: Option<int>): Transfer {
    t.(len := Longer(|tx|, |rx|), index := 0, callback := callback, active := true, select := SelectLines(slave),
       log := Record(slave, tx, rx, t.memory, [], [], callback, t.log.fired, t.log.fired))
  }

  function Start(t: Transfer, slave: int, tx: seq<int>, rx: seq<int>, callback: Option<int>): Transfer {
    WriteTxData(Fresh(t, slave, tx, rx, callback), ByteAt(t.memory, tx, 0))
  }

  // The engine finishes the byte in flight, if there is one.
  function ShiftDone(t: Transfer, value: Byte): Transfer {
    if !t.busy then t
    else t.(busy := false, done := true, rxData := value, log := t.log.(arrived := t.log.arrived + [value]))
  }

  function Take(t: Transfer): Transfer {
    t.(done := false, index := t.index + 1, memory := Store(t.memory, t.log.rx, t.index, t.rxData))
  }

  function Complete(t: Transfer): Transfer {
    t.(select := 0xf, active := false, callback := None,
       log := t.log.(fired := t.log.fired + if t.callback.Some? then [t.callback.value] else []))
  }

  // The interrupt handler.
  function Isr(t: Transfer): Transfer {
    if !t.active || !t.done then t
    else
      var u := Take(t);
      if u.index == u.len then Complete(u) else WriteTxData(u, ByteAt(u.memory, u.log.tx, u.index))
  }

  // Memory after some bytes have been received.
  function Stored(memory: seq<Byte>, rx: seq<int>, values: seq<Byte>): (after: seq<Byte>)
    ensures |after| == |memory|
  {
    if values == [] then memory
    else
      var last := |values| - 1;
      Store(Stored(memory, rx, values[..last]), rx, last, values[last])
  }

  /** What is sent at a position: what is in the cell of the transmit list once the bytes
      before that position have been received, and 0xff after the end of the list. */
  function Sends(log: Record, i: int): Byte
    requires 0 <= i <= |log.arrived|
  {
    ByteAt(Stored(log.start, log.rx, log.arrived[..i]), log.tx, i)
  }

  ghost predicate Good(t: Transfer) {
    && t.len == Longer(|t.log.tx|, |t.log.rx|) && 0 <= t.index <= t.len
    && t.index <= |t.log.arrived| && |t.log.sent| <= t.len && |t.log.sent| <= |t.log.arrived| + 1
    && t.memory == Stored(t.log.start, t.log.rx, t.log.arrived[..t.index])
    && (forall i :: 0 <= i < |t.log.sent| ==> t.log.sent[i] == Sends(t.log, i))
    && if t.active then InFlight(t) else Ended(t)
  }

  // One byte has been sent and its answer not yet been taken.
  ghost predicate InFlight(t: Transfer) {
    && 0 <= t.index < t.len && |t.log.sent| == t.index + 1 && t.busy != t.done
    && 0 <= t.log.slave < 4 && t.select == SelectLines(t.log.slave)
    && |t.log.arrived| == t.index + (if t.done then 1 else 0) && (t.done ==> t.log.arrived[t.index] == t.rxData)
    && t.callback == t.log.given && t.log.fired == t.log.earlier
  }

  ghost predicate Ended(t: Transfer) {
    && t.index == |t.log.sent| == |t.log.arrived| == t.len && !t.busy && t.select == 0xf && t.callback == None
    && t.log.fired == t.log.earlier + if t.log.given.Some? then [t.log.given.value] else []
  }

  lemma StartGood(t: Transfer, slave: int, tx: seq<int>, rx: seq<int>, callback: Option<int>)
    requires Good(t) && !t.active && 0 <= slave < 4 && Longer(|tx|, |rx|) > 0
    ensures var u := Start(t, slave, tx, rx, callback); Good(u) && u.active
  {
    var u := Start(t, slave, tx, rx, callback);
    assert u.log.arrived[..0] == [];
    assert Sends(u.log, 0) == ByteAt(t.memory, tx, 0);
  }

  lemma ShiftDoneGood(t: Transfer, value: Byte)
    requires Good(t)
    ensures Good(ShiftDone(t, value))
  {
    if t.busy {
      var u := ShiftDone(t, value);
      assert forall i :: 0 <= i <= |t.log.arrived| ==> u.log.arrived[..i] == t.log.arrived[..i];
    }
  }

  lemma TakeStores(t: Transfer)
    requires Good(t) && t.active && t.done
    ensures Take(t).memory == Stored(t.log.start, t.log.rx, t.log.arrived)
  {
    var values := t.log.arrived;
    assert values[..|values| - 1] == values[..t.index];
  }

  lemma IsrGood(t: Transfer)
    requires Good(t)
    ensures Good(Isr(t))
  {
    if t.active && t.done {
      var u, v := Take(t), Isr(t);
      TakeStores(t);
      assert t.log.arrived[..u.index] == t.log.arrived;
      assert forall i :: 0 <= i <= |t.log.arrived| ==> Sends(v.log, i) == Sends(t.log, i);
    }
  }

  // Anything that happens while a transfer is active.
  datatype Event = Shifted(value: Byte) | Interrupt

  ghost function Run(t: Transfer, events: seq<Event>): (u: Transfer)
    requires Good(t)
    ensures Good(u)
    decreases |events|
  {
    if events == [] then t else
    var before := Run(t, events[..|events| - 1]);
    if events[|events| - 1].Interrupt? then
      IsrGood(before);
      Isr(before)
    else
      ShiftDoneGood(before, events[|events| - 1].value);
      ShiftDone(before, events[|events| - 1].value)
  }

  // What a run does not touch.
  ghost predicate SameTransfer(t: Transfer, u: Transfer) {
    && u.log.tx == t.log.tx && u.log.rx == t.log.rx && u.len == t.len && u.log.slave == t.log.slave
    && u.log.start == t.log.start && u.log.given == t.log.given && u.log.earlier == t.log.earlier
  }

  lemma {:induction false} RunSame(t: Transfer, events: seq<Event>)
    requires Good(t)
    ensures SameTransfer(t, Run(t, events))
    decreases |events|
  {
    if events != [] {
      RunSame(t, events[..|events| - 1]);
    }
  }

  /** Every run of engine steps and interrupts, in any order, from the start of a transfer,
      however the buffers overlap: while it is active the slave stays selected and no
      callback is made; each byte sent is the one its cell held once the bytes before it had
      been received, and 0xff after the end of the list; and when it has ended, as many bytes
      as the longer list has were sent and received, memory is what storing them one after
      the other makes it, and the callback has been made exactly once. */
  lemma TransferRun(t: Transfer, slave: int, tx: seq<int>, rx: seq<int>, callback: Option<int>, events: seq<Event>)
    requires Good(t) && !t.active && 0 <= slave < 4 && Longer(|tx|, |rx|) > 0
    ensures Good(Start(t, slave, tx, rx, callback))
    ensures var u := Run(Start(t, slave, tx, rx, callback), events);
      && (u.active ==> u.select == SelectLines(slave) && u.log.fired == t.log.fired)
      && |u.log.sent| <= |u.log.arrived| + 1
      && (forall i :: 0 <= i < |u.log.sent| ==>
            u.log.sent[i] == ByteAt(Stored(t.memory, rx, u.log.arrived[..i]), tx, i))
      && (!u.active ==>
            && |u.log.sent| == |u.log.arrived| == Longer(|tx|, |rx|) && u.select == 0xf
            && u.memory == Stored(t.memory, rx, u.log.arrived)
            && u.log.fired == t.log.fired + if callback.Some? then [callback.value] else [])
  {
    StartGood(t, slave, tx, rx, callback);
    var first: Transfer := Start(t, slave, tx, rx, callback);
    RunSame(first, events);
    var u := Run(first, events);
    assert SameTransfer(first, u) && Good(u);
    assert u.log.arrived[..|u.log.arrived|] == u.log.arrived;
    forall i | 0 <= i < |u.log.sent| ensures u.log.sent[i] == ByteAt(Stored(t.memory, rx, u.log.arrived[..i]), tx, i) {
      assert u.log.sent[i] == Sends(u.log, i);
    }
  }

  // Engine step and interrupt in turn, for each of the values.
  function Rounds(values: seq<Byte>): seq<Event> {
    if values == [] then [] else Rounds(values[..|values| - 1]) + [Shifted(values[|values| - 1]), Interrupt]
  }

  lemma RunTwo(t: Transfer, events: seq<Event>, value: Byte)
    requires Good(t)
    ensures Run(t, events + [Shifted(value), Interrupt]) == Isr(ShiftDone(Run(t, events), value))
  {
    var all, half := events + [Shifted(value), Interrupt], events + [Shifted(value)];
    assert all[..|all| - 1] == half && half[..|half| - 1] == events;
    ShiftDoneGood(Run(t, events), value);
  }

  lemma RoundStep(t: Transfer, value: Byte)
    requires Good(t) && t.active && t.busy
    ensures var u := Isr(ShiftDone(t, value));
      && u.index == t.index + 1 && u.log.arrived == t.log.arrived + [value] && u.len == t.len
      && (u.active <==> u.index < u.len) && (u.active ==> u.busy)
  {
  }

  // After the rounds for some values.
  ghost predicate After(t: Transfer, u: Transfer, values: seq<Byte>) {
    && Good(u) && u.index == |values| && u.log.arrived == values && u.len == t.len
    && (u.active <==> |values| < t.len) && (u.active ==> u.busy)
  }

  lemma AfterNext(t: Transfer, u: Transfer, before: seq<Byte>, value: Byte)
    requires After(t, u, before) && |before| < t.len
    ensures After(t, Isr(ShiftDone(u, value)), before + [value])
  {
    ShiftDoneGood(u, value);
    IsrGood(ShiftDone(u, value));
    RoundStep(u, value);
  }

  /** One engine step and one interrupt for each byte of the longer list end the transfer,
      and not before. */
  lemma {:induction false} RoundsEnd(t: Transfer, values: seq<Byte>)
    requires Good(t) && t.active && t.busy && t.index == 0 && |values| <= t.len
    ensures After(t, Run(t, Rounds(values)), values)
    decreases |values|
  {
    if values != [] {
      var before, value := values[..|values| - 1], values[|values| - 1];
      assert values == before + [value];
      RoundsEnd(t, before);
      RunTwo(t, Rounds(before), value);
      AfterNext(t, Run(t, Rounds(before)), before, value);
    }
  }
}
