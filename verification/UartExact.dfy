/** The service routines and the interrupt handler with the numbers written out: what each
    arrival and each cause does to the two queues. */
module UartExact {
  import opened Prelude
  import opened UartRings

  // The values of the arrivals, kept or not.
  function Values(arrivals: seq<Arrival>): (values: seq<Byte>)
    ensures |values| == |arrivals| && forall i :: 0 <= i < |values| ==> values[i] == arrivals[i].value
  {
    seq(|arrivals|, i requires 0 <= i < |arrivals| => arrivals[i].value)
  }

  // How many bytes a receive queue of this length still takes.
  function Room(queued: int, more: int): (n: int)
    requires 0 <= queued <= 127 && more >= 0
    ensures 0 <= n <= more && queued + n <= 127 && (n < more ==> queued + n == 127)
  {
    if queued + more <= 127 then more else 127 - queued
  }

  // u becomes v by the arrival of these bytes.
  ghost predicate Arrived(u: Uart, v: Uart, values: seq<Byte>)
    requires |u.log.rxQueue| <= 127
  {
    var n := Room(|u.log.rxQueue|, |values|);
    && Values(v.log.arrivals) == Values(u.log.arrivals) + values
    && v.log.rxQueue == u.log.rxQueue + values[..n] && v.log.delivered == u.log.delivered
    && v.dropped == (u.dropped + (|values| - n)) % 0x1_0000_0000
  }

  lemma OneArrives(u: Uart, value: Byte)
    requires Shape(u) && RxInv(u)
    ensures Arrived(u, Receive(u, value), [value])
  {
    QueuedEmpty(u.rxBuffer, u.rxHead, u.rxTail, u.log.rxQueue);
    assert [value][..1] == [value];
    assert u.log.rxQueue + [] == u.log.rxQueue;
  }

  lemma ArrivedMore(u: Uart, s: Uart, v: Uart, values: seq<Byte>)
    requires values != [] && |u.log.rxQueue| <= 127 && |s.log.rxQueue| <= 127
    requires Arrived(u, s, values[..1]) && Arrived(s, v, values[1..])
    ensures Arrived(u, v, values)
  {
    var q := u.log.rxQueue;
    QueueMore(q, values, Room(|q|, 1), Room(|s.log.rxQueue|, |values| - 1), Room(|q|, |values|));
    ValuesMore(Values(u.log.arrivals), Values(s.log.arrivals), Values(v.log.arrivals), values);
  }

  lemma ValuesMore(a: seq<Byte>, b: seq<Byte>, c: seq<Byte>, values: seq<Byte>)
    requires values != [] && b == a + values[..1] && c == b + values[1..]
    ensures c == a + values
  {
  }

  // Behind the queue, first at most one value and then n more; if the first is not taken none is.
  lemma QueueMore(queue: seq<Byte>, values: seq<Byte>, first: nat, n: nat, m: nat)
    requires values != [] && first <= 1 && n < |values| && m == first + n && (first == 0 ==> n == 0)
    ensures queue + values[..1][..first] + values[1..][..n] == queue + values[..m]
  {
    assert values[..1][..first] + values[1..][..n] == values[..m];
  }

  /** The receive service takes every byte there is: each one counts as an arrival, the first
      of them enter the queue until it has 127, and the counter grows by the others. */
  lemma {:induction false} ServiceArrives(u: Uart, values: seq<Byte>)
    requires Shape(u) && RxInv(u)
    ensures Arrived(u, UartRings.RxService(u, values), values)
    decreases |values|
  {
    if values == [] {
      assert u.log.rxQueue + values[..0] == u.log.rxQueue;
      assert Values(u.log.arrivals) + values == Values(u.log.arrivals);
    } else {
      var s := Receive(u, values[0]);
      OneArrives(u, values[0]);
      assert values[..1] == [values[0]];
      ReceiveKeeps(u, values[0]);
      ServiceArrives(s, values[1..]);
      ArrivedMore(u, s, UartRings.RxService(s, values[1..]), values);
    }
  }

  // u becomes v by TXDATA taking at most `ready` bytes.
  ghost predicate Sent(u: Uart, v: Uart, ready: nat) {
    var k := if ready < |u.log.txQueue| then ready else |u.log.txQueue|;
    && v.log.written == u.log.written + u.log.txQueue[..k] && v.log.txQueue == u.log.txQueue[k..]
    && v.log.accepted == u.log.accepted && (v.txIrq <==> v.log.txQueue != [])
  }

  /** The interrupt handler: a receive watermark has every byte there is taken, a transmit
      watermark has queued bytes written, and without its cause a side is left alone. */
  lemma IrqEffect(u: Uart, p: Pending)
    requires Inv(u)
    ensures var v := Irq(u, p);
      && (p.rxWatermark ==> Arrived(u, v, p.values)) && (!p.rxWatermark ==> SameRx(u, v))
      && (p.txWatermark ==> Sent(u, v, p.ready)) && (!p.txWatermark ==> SameTx(u, v))
  {
    var r: Uart := if p.rxWatermark then UartRings.RxService(u, p.values) else u;
    RxServiceKeeps(u, p.values);
    ServiceArrives(u, p.values);
    SameTxKeeps(u, r);
    if p.txWatermark {
      TxServiceEffect(r, p.ready);
    }
  }

  /** A write puts what fits behind the queue, and has queued bytes written from the oldest on. */
  lemma WriteSends(u: Uart, data: seq<Byte>, ready: nat)
    requires Inv(u)
    ensures var (v, n) := Write(u, data, ready);
      var queue := u.log.txQueue + data[..n];
      var k := if ready < |queue| then ready else |queue|;
      && n == Room(|u.log.txQueue|, |data|) && v.log.accepted == u.log.accepted + data[..n]
      && v.log.written == u.log.written + queue[..k] && v.log.txQueue == queue[k..]
  {
    FillEffect(u, data);
    TxServiceEffect(Fill(u, data).0, ready);
  }
}
