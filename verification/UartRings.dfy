/** The interrupt-driven UART's two rings as queues: what the service routines and the
    calls do to them, whatever the hardware answers, and what every sequence of calls and
    interrupts keeps, in order and in number, with every lost byte counted. */
module UartRings {
  import opened Prelude

  const SIZE: int := 128
  const ROOM: int := SIZE - 1
  const COUNTER: int := 0x1_0000_0000

  // A received byte, and whether it was kept.
  datatype Arrival = Arrival(value: Byte, kept: bool)

  /** What has happened since the start: the transmit queue, the bytes accepted for it and
      those written to TXDATA; the receive queue, all arrivals, and the bytes delivered. */
  datatype Record = Record(txQueue: seq<Byte>, accepted: seq<Byte>, written: seq<Byte>,
                           rxQueue: seq<Byte>, arrivals: seq<Arrival>, delivered: seq<Byte>)

  // The statics, TX_IRQ_EN, and the record.
  datatype Uart = Uart(txBuffer: seq<Byte>, txHead: int, txTail: int, rxBuffer: seq<Byte>, rxHead: int, rxTail: int,
                       dropped: int, txIrq: bool, log: Record)

  function RingNext(index: int): (next: int)
    requires 0 <= index < SIZE
    ensures 0 <= next < SIZE && next == (index + 1) % SIZE
  {
    if index == SIZE - 1 then 0 else index + 1
  }

  function Slot(tail: int, i: int): (slot: int)
    requires 0 <= tail < SIZE && 0 <= i < SIZE
    ensures 0 <= slot < SIZE
  {
    if tail + i < SIZE then tail + i else tail + i - SIZE
  }

  ghost predicate Shape(u: Uart) {
    && |u.txBuffer| == |u.rxBuffer| == SIZE && 0 <= u.txHead < SIZE && 0 <= u.txTail < SIZE
    && 0 <= u.rxHead < SIZE && 0 <= u.rxTail < SIZE && 0 <= u.dropped < COUNTER
  }

  // The ring from tail to head holds the queue.
  ghost predicate Queued(buffer: seq<Byte>, head: int, tail: int, queue: seq<Byte>) {
    && |buffer| == SIZE && 0 <= tail < SIZE && |queue| <= ROOM && head == Slot(tail, |queue|)
    && forall i :: 0 <= i < |queue| ==> buffer[Slot(tail, i)] == queue[i]
  }

  lemma QueuedEmpty(buffer: seq<Byte>, head: int, tail: int, queue: seq<Byte>)
    requires Queued(buffer, head, tail, queue)
    ensures head == tail <==> queue == []
    ensures RingNext(head) == tail <==> |queue| == ROOM
  {
  }

  lemma QueuedPop(buffer: seq<Byte>, head: int, tail: int, queue: seq<Byte>)
    requires Queued(buffer, head, tail, queue) && queue != []
    ensures buffer[tail] == queue[0] && Queued(buffer, head, RingNext(tail), queue[1..])
  {
    assert Slot(tail, 0) == tail;
    forall i | 0 <= i < |queue| - 1 ensures buffer[Slot(RingNext(tail), i)] == queue[1..][i] {
      assert Slot(RingNext(tail), i) == Slot(tail, i + 1);
    }
  }

  lemma QueuedPush(buffer: seq<Byte>, head: int, tail: int, queue: seq<Byte>, b: Byte)
    requires Queued(buffer, head, tail, queue) && |queue| < ROOM
    ensures Queued(buffer[head := b], RingNext(head), tail, queue + [b])
  {
  }

  function Rest(queue: seq<Byte>): seq<Byte> {
    if queue == [] then [] else queue[1..]
  }

  // One byte goes from the ring to TXDATA.
  function Send(u: Uart): (v: Uart)
    requires Shape(u)
    ensures Shape(v)
  {
    u.(txTail := RingNext(u.txTail),
       log := u.log.(txQueue := Rest(u.log.txQueue), written := u.log.written + [u.txBuffer[u.txTail]]))
  }

  // The transmit loop, while TXDATA is ready, at most `ready` times.
  function SendAll(u: Uart, ready: nat): (v: Uart)
    requires Shape(u)
    ensures Shape(v)
    decreases ready
  {
    if u.txTail == u.txHead || ready == 0 then u else SendAll(Send(u), ready - 1)
  }

  function SetIrq(u: Uart): Uart {
    u.(txIrq := u.txTail != u.txHead)
  }

  function TxService(u: Uart, ready: nat): (v: Uart)
    requires Shape(u)
    ensures Shape(v)
  {
    SetIrq(SendAll(u, ready))
  }

  // One byte arrives; the ring keeps it unless it is full.
  function Receive(u: Uart, value: Byte): (v: Uart)
    requires Shape(u)
    ensures Shape(v)
  {
    if RingNext(u.rxHead) == u.rxTail then
      u.(dropped := (u.dropped + 1) % COUNTER, log := u.log.(arrivals := u.log.arrivals + [Arrival(value, false)]))
    else
      u.(rxBuffer := u.rxBuffer[u.rxHead := value], rxHead := RingNext(u.rxHead),
         log := u.log.(arrivals := u.log.arrivals + [Arrival(value, true)], rxQueue := u.log.rxQueue + [value]))
  }

  function RxService(u: Uart, values: seq<Byte>): (v: Uart)
    requires Shape(u)
    ensures Shape(v)
    decreases |values|
  {
    if values == [] then u else RxService(Receive(u, values[0]), values[1..])
  }

  // A byte enters the transmit ring.
  function Push(u: Uart, b: Byte): (v: Uart)
    requires Shape(u)
    ensures Shape(v)
  {
    u.(txBuffer := u.txBuffer[u.txHead := b], txHead := RingNext(u.txHead),
       log := u.log.(txQueue := u.log.txQueue + [b], accepted := u.log.accepted + [b]))
  }

  // The fill loop of a write: how many bytes went in.
  function Fill(u: Uart, data: seq<Byte>): (r: (Uart, nat))
    requires Shape(u)
    ensures Shape(r.0) && r.1 <= |data|
    decreases |data|
  {
    if data == [] || RingNext(u.txHead) == u.txTail then (u, 0)
    else
      var (v, n) := Fill(Push(u, data[0]), data[1..]);
      (v, n + 1)
  }

  function Write(u: Uart, data: seq<Byte>, ready: nat): (r: (Uart, nat))
    requires Shape(u)
    ensures Shape(r.0)
  {
    var (v, n) := Fill(u, data);
    (TxService(v, ready), n)
  }

  function Putc(u: Uart, b: Byte, ready: nat): (r: (Uart, bool))
    requires Shape(u)
    ensures Shape(r.0)
  {
    if RingNext(u.txHead) == u.txTail then (u, false) else (TxService(Push(u, b), ready), true)
  }

  function Getc(u: Uart): (r: (Uart, int))
    requires Shape(u)
    ensures Shape(r.0)
  {
    if u.rxTail == u.rxHead then
      var none: int := -1;
      (u, none)
    else
      var value: int := u.rxBuffer[u.rxTail];
      (u.(rxTail := RingNext(u.rxTail),
          log := u.log.(rxQueue := Rest(u.log.rxQueue), delivered := u.log.delivered + [value])), value)
  }

  // What the hardware shows an interrupt handler.
  datatype Pending = Pending(rxWatermark: bool, txWatermark: bool, values: seq<Byte>, ready: nat)

  function Irq(u: Uart, p: Pending): (v: Uart)
    requires Shape(u)
    ensures Shape(v)
  {
    var r := if p.rxWatermark then RxService(u, p.values) else u;
    if p.txWatermark then TxService(r, p.ready) else r
  }

  // The values of the arrivals that were kept.
  ghost function Kept(arrivals: seq<Arrival>): seq<Byte> {
    if arrivals == [] then []
    else
      var last := arrivals[|arrivals| - 1];
      Kept(arrivals[..|arrivals| - 1]) + if last.kept then [last.value] else []
  }

  ghost function Lost(arrivals: seq<Arrival>): nat {
    if arrivals == [] then 0
    else Lost(arrivals[..|arrivals| - 1]) + if arrivals[|arrivals| - 1].kept then 0 else 1
  }

  /** The transmit side: the ring holds the queue, and what was accepted is what was
      written followed by the queue. */
  ghost predicate TxInv(u: Uart) {
    && Queued(u.txBuffer, u.txHead, u.txTail, u.log.txQueue) && u.log.accepted == u.log.written + u.log.txQueue
  }

  /** The receive side: the ring holds the queue, what was kept is what was delivered
      followed by the queue, and the counter counts what was lost. */
  ghost predicate RxInv(u: Uart) {
    && Queued(u.rxBuffer, u.rxHead, u.rxTail, u.log.rxQueue)
    && Kept(u.log.arrivals) == u.log.delivered + u.log.rxQueue && u.dropped == Lost(u.log.arrivals) % COUNTER
  }

  ghost predicate Inv(u: Uart) {
    Shape(u) && TxInv(u) && RxInv(u) && (u.txIrq <==> u.log.txQueue != [])
  }

  // The receive side is not touched.
  ghost predicate SameRx(u: Uart, v: Uart) {
    && v.rxBuffer == u.rxBuffer && v.rxHead == u.rxHead && v.rxTail == u.rxTail && v.dropped == u.dropped
    && v.log.rxQueue == u.log.rxQueue && v.log.arrivals == u.log.arrivals && v.log.delivered == u.log.delivered
  }

  ghost predicate SameTx(u: Uart, v: Uart) {
    && v.txBuffer == u.txBuffer && v.txHead == u.txHead && v.txTail == u.txTail && v.txIrq == u.txIrq
    && v.log.txQueue == u.log.txQueue && v.log.accepted == u.log.accepted && v.log.written == u.log.written
  }

  lemma SendKeeps(u: Uart)
    requires Shape(u) && TxInv(u) && u.log.txQueue != []
    ensures TxInv(Send(u)) && SameRx(u, Send(u))
    ensures Send(u).log.written == u.log.written + u.log.txQueue[..1]
  {
    QueuedPop(u.txBuffer, u.txHead, u.txTail, u.log.txQueue);
    assert u.log.written + u.log.txQueue == (u.log.written + [u.log.txQueue[0]]) + u.log.txQueue[1..];
  }

  function Least(a: int, b: int): int {
    if a < b then a else b
  }

  lemma TakeMore(written: seq<Byte>, queue: seq<Byte>, k: nat)
    requires queue != [] && k < |queue|
    ensures queue[1..][k..] == queue[k + 1..]
    ensures (written + queue[..1]) + queue[1..][..k] == written + queue[..k + 1]
  {
    assert queue[..1] + queue[1..][..k] == queue[..k + 1];
  }

  /** The transmit service writes the oldest bytes, as many as TXDATA takes. */
  lemma {:induction false} SendAllEffect(u: Uart, ready: nat)
    requires Shape(u) && TxInv(u)
    ensures var v, k := SendAll(u, ready), Least(ready, |u.log.txQueue|);
      && TxInv(v) && SameRx(u, v) && v.log.accepted == u.log.accepted
      && v.log.txQueue == u.log.txQueue[k..] && v.log.written == u.log.written + u.log.txQueue[..k]
    decreases ready
  {
    QueuedEmpty(u.txBuffer, u.txHead, u.txTail, u.log.txQueue);
    if u.log.txQueue != [] && ready > 0 {
      SendKeeps(u);
      SendAllEffect(Send(u), ready - 1);
      TakeMore(u.log.written, u.log.txQueue, Least(ready, |u.log.txQueue|) - 1);
    }
  }

  lemma TxServiceEffect(u: Uart, ready: nat)
    requires Shape(u) && TxInv(u)
    ensures var v, k := TxService(u, ready), Least(ready, |u.log.txQueue|);
      && TxInv(v) && SameRx(u, v) && v.log.accepted == u.log.accepted
      && v.log.txQueue == u.log.txQueue[k..] && v.log.written == u.log.written + u.log.txQueue[..k]
      && (v.txIrq <==> v.log.txQueue != [])
  {
    SendAllEffect(u, ready);
    var v := SendAll(u, ready);
    QueuedEmpty(v.txBuffer, v.txHead, v.txTail, v.log.txQueue);
  }

  lemma PushKeeps(u: Uart, b: Byte)
    requires Shape(u) && TxInv(u) && |u.log.txQueue| < ROOM
    ensures TxInv(Push(u, b)) && SameRx(u, Push(u, b))
  {
    QueuedPush(u.txBuffer, u.txHead, u.txTail, u.log.txQueue, b);
    assert (u.log.written + u.log.txQueue) + [b] == u.log.written + (u.log.txQueue + [b]);
  }

  /** The fill loop takes as many bytes as there is room for, from the first on. */
  lemma {:induction false} FillEffect(u: Uart, data: seq<Byte>)
    requires Shape(u) && TxInv(u)
    ensures var (v, n) := Fill(u, data);
      && TxInv(v) && SameRx(u, v) && n == Least(|data|, ROOM - |u.log.txQueue|)
      && v.log.accepted == u.log.accepted + data[..n] && v.log.txQueue == u.log.txQueue + data[..n]
      && v.log.written == u.log.written
    decreases |data|
  {
    QueuedEmpty(u.txBuffer, u.txHead, u.txTail, u.log.txQueue);
    if data != [] && |u.log.txQueue| < ROOM {
      PushKeeps(u, data[0]);
      FillEffect(Push(u, data[0]), data[1..]);
      var n := Fill(u, data).1;
      PutMore(u.log.accepted, data, n - 1);
      PutMore(u.log.txQueue, data, n - 1);
    }
  }

  lemma PutMore(s: seq<Byte>, data: seq<Byte>, k: nat)
    requires data != [] && k < |data|
    ensures (s + [data[0]]) + data[1..][..k] == s + data[..k + 1]
  {
    assert [data[0]] + data[1..][..k] == data[..k + 1];
  }

  lemma ReceiveKeeps(u: Uart, value: Byte)
    requires Shape(u) && RxInv(u)
    ensures var v := Receive(u, value);
      && RxInv(v) && SameTx(u, v) && |v.log.arrivals| == |u.log.arrivals| + 1
      && v.log.arrivals == u.log.arrivals + [Arrival(value, |u.log.rxQueue| < ROOM)]
  {
    var kept := |u.log.rxQueue| < ROOM;
    QueuedEmpty(u.rxBuffer, u.rxHead, u.rxTail, u.log.rxQueue);
    ArrivalsNext(u.log.arrivals, Arrival(value, kept));
    if kept {
      QueuedPush(u.rxBuffer, u.rxHead, u.rxTail, u.log.rxQueue, value);
      assert (u.log.delivered + u.log.rxQueue) + [value] == u.log.delivered + (u.log.rxQueue + [value]);
    }
  }

  lemma ArrivalsNext(arrivals: seq<Arrival>, a: Arrival)
    ensures Kept(arrivals + [a]) == Kept(arrivals) + if a.kept then [a.value] else []
    ensures Lost(arrivals + [a]) == Lost(arrivals) + if a.kept then 0 else 1
  {
    assert (arrivals + [a])[..|arrivals|] == arrivals;
  }

  lemma {:induction false} RxServiceKeeps(u: Uart, values: seq<Byte>)
    requires Shape(u) && RxInv(u)
    ensures RxInv(RxService(u, values)) && SameTx(u, RxService(u, values))
    decreases |values|
  {
    if values != [] {
      ReceiveKeeps(u, values[0]);
      RxServiceKeeps(Receive(u, values[0]), values[1..]);
    }
  }

  /** A read takes the oldest byte of the receive queue, and -1 means there is none. */
  lemma GetcEffect(u: Uart)
    requires Shape(u) && RxInv(u)
    ensures var (v, c) := Getc(u);
      && RxInv(v) && SameTx(u, v)
      && (c == -1 <==> u.log.rxQueue == [])
      && (c != -1 ==> c == u.log.rxQueue[0] && v.log.delivered == u.log.delivered + u.log.rxQueue[..1]
                      && v.log.rxQueue == u.log.rxQueue[1..])
  {
    QueuedEmpty(u.rxBuffer, u.rxHead, u.rxTail, u.log.rxQueue);
    if u.log.rxQueue != [] {
      QueuedPop(u.rxBuffer, u.rxHead, u.rxTail, u.log.rxQueue);
      assert u.log.delivered + u.log.rxQueue == (u.log.delivered + [u.log.rxQueue[0]]) + u.log.rxQueue[1..];
    }
  }

  // The calls and the interrupt; each runs with interrupts off.
  datatype Event =
    | WriteCall(data: seq<Byte>, ready: nat)
    | PutcCall(b: Byte, ready: nat)
    | GetcCall
    | Interrupt(pending: Pending)

  function Apply(u: Uart, e: Event): (v: Uart)
    requires Shape(u)
    ensures Shape(v)
  {
    match e
    case WriteCall(data, ready) => Write(u, data, ready).0
    case PutcCall(b, ready) => Putc(u, b, ready).0
    case GetcCall => Getc(u).0
    case Interrupt(p) => Irq(u, p)
  }

  lemma SameRxKeeps(u: Uart, v: Uart)
    requires RxInv(u) && SameRx(u, v)
    ensures RxInv(v)
  {
  }

  lemma SameTxKeeps(u: Uart, v: Uart)
    requires TxInv(u) && SameTx(u, v)
    ensures TxInv(v)
  {
  }

  /** A write accepts as many bytes as there is room for, and returns their number. */
  lemma WriteEffect(u: Uart, data: seq<Byte>, ready: nat)
    requires Inv(u)
    ensures var (v, n) := Write(u, data, ready);
      && Inv(v) && n == Least(|data|, ROOM - |u.log.txQueue|) && v.log.accepted == u.log.accepted + data[..n]
      && SameRx(u, v)
  {
    FillEffect(u, data);
    var filled: Uart := Fill(u, data).0;
    TxServiceEffect(filled, ready);
    SameRxKeeps(u, TxService(filled, ready));
  }

  lemma PutcEffect(u: Uart, b: Byte, ready: nat)
    requires Inv(u)
    ensures var (v, taken) := Putc(u, b, ready);
      && Inv(v) && (taken <==> |u.log.txQueue| < ROOM) && SameRx(u, v)
      && v.log.accepted == u.log.accepted + if taken then [b] else []
  {
    QueuedEmpty(u.txBuffer, u.txHead, u.txTail, u.log.txQueue);
    if |u.log.txQueue| < ROOM {
      PushKeeps(u, b);
      TxServiceEffect(Push(u, b), ready);
      SameRxKeeps(u, TxService(Push(u, b), ready));
    }
  }

  lemma IrqKeeps(u: Uart, p: Pending)
    requires Inv(u)
    ensures Inv(Irq(u, p))
  {
    var r: Uart := if p.rxWatermark then RxService(u, p.values) else u;
    RxServiceKeeps(u, p.values);
    SameTxKeeps(u, r);
    if p.txWatermark {
      TxServiceEffect(r, p.ready);
      SameRxKeeps(r, TxService(r, p.ready));
    }
  }

  lemma ApplyKeeps(u: Uart, e: Event)
    requires Inv(u)
    ensures Inv(Apply(u, e))
  {
    match e
    case WriteCall(data, ready) => WriteEffect(u, data, ready);
    case PutcCall(b, ready) => PutcEffect(u, b, ready);
    case GetcCall =>
      GetcEffect(u);
      SameTxKeeps(u, Getc(u).0);
    case Interrupt(p) => IrqKeeps(u, p);
  }

  ghost predicate Initial(u: Uart) {
    && Shape(u) && u.txHead == u.txTail == u.rxHead == u.rxTail == u.dropped == 0 && !u.txIrq
    && u.log == Record([], [], [], [], [], [])
  }

  ghost function History(u: Uart, events: seq<Event>): (v: Uart)
    requires Shape(u)
    ensures Shape(v)
    decreases |events|
  {
    if events == [] then u else Apply(History(u, events[..|events| - 1]), events[|events| - 1])
  }

  lemma {:induction false} HistoryKeeps(u: Uart, events: seq<Event>)
    requires Initial(u)
    ensures Inv(History(u, events))
    decreases |events|
  {
    if events != [] {
      HistoryKeeps(u, events[..|events| - 1]);
      ApplyKeeps(History(u, events[..|events| - 1]), events[|events| - 1]);
    }
  }

  /** Over every sequence of calls and interrupts: what was accepted is what was written to
      TXDATA followed by the transmit queue; what arrived and was kept is what was
      delivered followed by the receive queue; the counter counts what was not kept; the
      transmit interrupt is enabled exactly when the transmit queue is not empty; and both
      queues hold at most 127 bytes. */
  lemma UartHistory(u: Uart, events: seq<Event>)
    requires Initial(u)
    ensures var v := History(u, events);
      && v.log.accepted == v.log.written + v.log.txQueue
      && Kept(v.log.arrivals) == v.log.delivered + v.log.rxQueue
      && v.dropped == Lost(v.log.arrivals) % COUNTER
      && (v.txIrq <==> v.log.txQueue != []) && |v.log.txQueue| <= ROOM && |v.log.rxQueue| <= ROOM
  {
    HistoryKeeps(u, events);
  }
}
