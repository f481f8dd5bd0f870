/** The transmit side: the descriptor engine, the reclaim and the transmit call as functions
    of the ring, whatever the engine does in between; and what every history of calls, polls
    and engine steps keeps, in order and in number. */
module EthTx {
  import opened Prelude
  import opened EthRings

  // How a transmit call ends; the first and the last return NETDEV_TX_OK.
  datatype Outcome = Dropped | NoMemory | RingFull | Accepted

  datatype Move = WriteDone(error: bool) | AdvanceHead

  /** The driver's transmit fields and descriptors, the TX_HEAD register, what the
      kernel holds for the driver, and the history: the buffers in the ring, oldest
      first, all ever accepted, and all released. `pending` counts calls that hold a
      mapped bounce buffer not yet in the ring. */
  datatype Tx = Tx(
    slots: seq<Option<Skb>>, blocks: seq<Option<Block>>, desc: seq<Status>,
    prod: int, clean: int, head: int, stopped: bool,
    maps: int, bounces: int, pending: int,
    queue: seq<Skb>, accepted: seq<Skb>, released: seq<Skb>)

  /** Occupied slots are exactly those from clean up to prod, at most `most` of them,
      and hold the queue in order; each has one mapping and one bounce buffer; and
      what was accepted is what was released followed by what is queued. */
  ghost predicate Ring(t: Tx, most: int) {
    && Holds(t.slots, t.clean, t.queue) && |t.queue| <= most
    && t.prod == Wrap(t.clean, |t.queue|)
    && |t.blocks| == RING && (forall i :: 0 <= i < RING ==> (t.blocks[i].Some? <==> t.slots[i].Some?))
    && Count(t.slots) == Count(t.blocks) == |t.queue|
    && t.maps == t.bounces == |t.queue| + t.pending
    && t.accepted == t.released + t.queue
  }

  /** HEAD lies among the occupied slots, and every slot before it is done. */
  ghost predicate Contract(t: Tx) {
    && |t.desc| == RING && 0 <= t.clean < RING && 0 <= t.head < RING && Ahead(t.clean, t.head) <= |t.queue|
    && forall i :: 0 <= i < RING && Ahead(t.clean, i) < Ahead(t.clean, t.head) ==> t.desc[i].done
  }

  ghost predicate Inv(t: Tx) {
    Ring(t, RING - 1) && Contract(t)
  }

  // The same, with the one slot that should stay empty possibly taken.
  ghost predicate Overrun(t: Tx) {
    Ring(t, RING) && Contract(t)
  }

  ghost function Empty(): (t: Tx)
    ensures |t.slots| == |t.blocks| == |t.desc| == RING
  {
    Tx(seq(RING, i => None), seq(RING, i => None), seq(RING, i => NO_STATUS), 0, 0, 0, false, 0, 0, 0, [], [], [])
  }

  // What the driver's arrays and indices always satisfy.
  ghost predicate Shape(t: Tx) {
    && |t.slots| == |t.blocks| == |t.desc| == RING
    && 0 <= t.prod < RING && 0 <= t.clean < RING && 0 <= t.head < RING
  }

  /** The engine writes DONE for the descriptor at HEAD, and moves HEAD on only after
      that; with HEAD at TAIL it does nothing. The write is taken to succeed: on an error
      response the engine moves HEAD on as well, and DONE may not be in memory. */
  ghost function Device(t: Tx, move: Move): (u: Tx)
    requires Shape(t)
    ensures Shape(u) && DriverSame(t, u)
  {
    if t.head == t.prod then t
    else match move
      case WriteDone(error) => t.(desc := t.desc[t.head := Status(true, error, 0)])
      case AdvanceHead => if t.desc[t.head].done then t.(head := RingNext(t.head)) else t
  }

  // Only the engine's own words and TX_HEAD change.
  ghost predicate DriverSame(t: Tx, u: Tx) {
    u.(desc := t.desc, head := t.head) == t
  }

  lemma DeviceKeeps(t: Tx, move: Move)
    requires Overrun(t)
    ensures var u := Device(t, move);
      && Overrun(u) && (Inv(t) ==> Inv(u))
      && (|t.queue| < RING ==> Ahead(t.clean, u.head) >= Ahead(t.clean, t.head))
  {
    if t.head != t.prod {
      HeadAdvances(t.clean, t.head, |t.queue|);
    }
  }

  ghost function Moves(t: Tx, moves: seq<Move>): (u: Tx)
    requires Shape(t)
    ensures Shape(u) && DriverSame(t, u)
    decreases |moves|
  {
    if moves == [] then t else Device(Moves(t, moves[..|moves| - 1]), moves[|moves| - 1])
  }

  lemma {:induction false} MovesKeep(t: Tx, moves: seq<Move>)
    requires Overrun(t)
    ensures var u := Moves(t, moves);
      && Overrun(u) && (Inv(t) ==> Inv(u))
      && (|t.queue| < RING ==> Ahead(t.clean, u.head) >= Ahead(t.clean, t.head))
    decreases |moves|
  {
    if moves != [] {
      MovesKeep(t, moves[..|moves| - 1]);
      DeviceKeeps(Moves(t, moves[..|moves| - 1]), moves[|moves| - 1]);
    }
  }

  ghost predicate Full(t: Tx, head: int)
    requires 0 <= t.prod < RING
  {
    RingNext(t.prod) == head
  }

  function Rest(queue: seq<Skb>): seq<Skb> {
    if queue == [] then [] else queue[1..]
  }

  function Buffer(slot: Option<Skb>): seq<Skb> {
    if slot.Some? then [slot.value] else []
  }

  // One turn of the reclaim loop: the oldest slot goes back to the kernel.
  ghost function ReleaseOldest(t: Tx): (u: Tx)
    requires Shape(t)
    ensures Shape(u)
  {
    t.(slots := t.slots[t.clean := None], blocks := t.blocks[t.clean := None], desc := t.desc[t.clean := NO_STATUS],
       clean := RingNext(t.clean), maps := t.maps - 1, bounces := t.bounces - 1,
       queue := Rest(t.queue), released := t.released + Buffer(t.slots[t.clean]))
  }

  lemma ReleaseKeepsRing(t: Tx)
    requires Overrun(t) && |t.queue| > 0
    ensures Buffer(t.slots[t.clean]) == t.queue[..1] && Ring(ReleaseOldest(t), RING - 1)
  {
    Taken(t.slots, t.clean, t.queue);
    CountUpdate(t.slots, t.clean, None);
    CountUpdate(t.blocks, t.clean, None);
    assert t.accepted == (t.released + t.queue[..1]) + t.queue[1..];
  }

  // Even from an overfull ring.
  lemma ReleaseKeeps(t: Tx)
    requires Overrun(t) && t.clean != t.head
    ensures |t.queue| > 0 && t.desc[t.clean].done && Buffer(t.slots[t.clean]) == t.queue[..1]
    ensures var u := ReleaseOldest(t);
      Inv(u) && Overrun(u) && Ahead(u.clean, u.head) == Ahead(t.clean, t.head) - 1
  {
    assert Ahead(t.clean, t.clean) == 0;
    ReleaseKeepsRing(t);
    OldestLeaves(t.clean, t.head);
  }

  /** The reclaim loop, which stops at a descriptor that is not done. */
  ghost function Reclaim(t: Tx): (u: Tx)
    requires Shape(t)
    ensures Shape(u)
    decreases Ahead(t.clean, t.head)
  {
    if t.clean == t.head || !t.desc[t.clean].done then t
    else
      OldestLeaves(t.clean, t.head);
      Reclaim(ReleaseOldest(t))
  }

  // Releasing the oldest buffer and then a - 1 more is releasing the a oldest.
  lemma Released(released: seq<Skb>, queue: seq<Skb>, a: int)
    requires 1 <= a <= |queue|
    ensures queue[1..][a - 1..] == queue[a..]
    ensures (released + queue[..1]) + queue[1..][..a - 1] == released + queue[..a]
  {
    assert queue[..1] + queue[1..][..a - 1] == queue[..a];
  }

  // What the reclaim leaves behind when the `a` oldest buffers go.
  ghost predicate Drained(t: Tx, u: Tx, a: int) {
    && 0 <= a <= |t.queue| && u.queue == t.queue[a..] && u.released == t.released + t.queue[..a]
    && u.clean == u.head == t.head && u.prod == t.prod && u.accepted == t.accepted && u.pending == t.pending
    && u.stopped == t.stopped
  }

  // What HEAD had passed goes, and the ring stays in order.
  ghost predicate Drains(t: Tx, u: Tx)
    requires Shape(t)
  {
    Drained(t, u, Ahead(t.clean, t.head)) && Overrun(u) && (Inv(t) ==> Inv(u))
  }

  lemma DrainsStep(t: Tx, u: Tx)
    requires Overrun(t) && t.clean != t.head && Drains(ReleaseOldest(t), u)
    ensures Drains(t, u)
  {
    ReleaseKeeps(t);
    Released(t.released, t.queue, Ahead(t.clean, t.head));
  }

  lemma ReclaimTurn(t: Tx)
    requires Shape(t)
    ensures t.clean == t.head ==> Reclaim(t) == t
    ensures t.clean != t.head && t.desc[t.clean].done ==> Reclaim(t) == Reclaim(ReleaseOldest(t))
  {
  }

  lemma DrainsNone(t: Tx)
    requires Overrun(t) && t.clean == t.head
    ensures Drains(t, t)
  {
  }

  lemma {:induction false} ReclaimDrains(t: Tx)
    requires Overrun(t)
    ensures Drains(t, Reclaim(t))
    decreases Ahead(t.clean, t.head)
  {
    ReclaimTurn(t);
    if t.clean == t.head {
      DrainsNone(t);
    } else {
      ReleaseKeeps(t);
      ReclaimDrains(ReleaseOldest(t));
      DrainsStep(t, Reclaim(t));
    }
  }

  /** The reclaim releases, oldest first, exactly what HEAD had passed. */
  lemma ReclaimReleases(t: Tx)
    requires Overrun(t)
    ensures Drained(t, Reclaim(t), Ahead(t.clean, t.head))
    ensures Overrun(Reclaim(t)) && (Inv(t) ==> Inv(Reclaim(t)))
  {
    ReclaimDrains(t);
  }

  // The reclaim with its wake-up; the device may move before the second reading of HEAD.
  ghost function ReclaimAndWake(t: Tx, wake: seq<Move>): (u: Tx)
    requires Shape(t)
    ensures Shape(u)
  {
    var r := Moves(Reclaim(t), wake);
    if r.stopped && !Full(r, r.head) then r.(stopped := false) else r
  }

  /** The reclaim keeps the ring in order, and leaves the queue stopped only if it was
      stopped and there is no room. */
  lemma WakeEffect(t: Tx, wake: seq<Move>)
    requires Inv(t)
    ensures var u := ReclaimAndWake(t, wake);
      Inv(u) && u.pending == t.pending && (u.stopped <==> t.stopped && Full(u, u.head))
  {
    ReclaimReleases(t);
    MovesKeep(Reclaim(t), wake);
  }

  // The buffer enters the slot at the producer index.
  ghost function Enqueue(t: Tx, skb: Skb): (u: Tx)
    requires Shape(t)
    ensures Shape(u)
  {
    t.(slots := t.slots[t.prod := Some(skb)], blocks := t.blocks[t.prod := Some(Block)],
       desc := t.desc[t.prod := NO_STATUS], prod := RingNext(t.prod), pending := t.pending - 1,
       queue := t.queue + [skb], accepted := t.accepted + [skb])
  }

  lemma EnqueueKeeps(t: Tx, skb: Skb)
    requires Inv(t)
    ensures Overrun(Enqueue(t, skb))
    ensures Inv(Enqueue(t, skb)) <==> |t.queue| < RING - 1
  {
    Put(t.slots, t.clean, t.queue, skb);
    CountUpdate(t.slots, t.prod, Some(skb));
    CountUpdate(t.blocks, t.prod, Some(Block));
    assert Ahead(t.clean, t.prod) == |t.queue|;
  }

  ghost function Stop(t: Tx): (u: Tx)
    requires Shape(t)
    ensures Shape(u)
  {
    if Full(t, t.head) then t.(stopped := true) else t
  }

  // What the device does between the readings of TX_HEAD in one call.
  datatype Timing = Timing(first: seq<Move>, wake: seq<Move>, second: seq<Move>, third: seq<Move>)

  // The ring as the fullness test finds it.
  ghost function Tested(t: Tx, w: Timing): (u: Tx)
    requires Shape(t)
    ensures Shape(u)
  {
    Moves(ReclaimAndWake(t, w.wake), w.second)
  }

  lemma TestedEffect(t: Tx, w: Timing)
    requires Inv(t)
    ensures var u, a := Tested(t, w), Ahead(t.clean, t.head);
      && Inv(u) && u.accepted == t.accepted && u.pending == t.pending && u.clean == t.head
      && u.queue == t.queue[a..] && u.released == t.released + t.queue[..a]
      && (w.wake == [] && w.second == [] ==> u.head == u.clean)
  {
    ReclaimReleases(t);
    WakeEffect(t, w.wake);
    MovesKeep(ReclaimAndWake(t, w.wake), w.second);
  }

  lemma FullTest(t: Tx)
    requires Inv(t)
    ensures |t.queue| == RING - 1 ==> (Full(t, t.head) <==> t.head == t.clean)
  {
  }

  // The buffer is placed in the ring, or turned away if the ring is full.
  ghost function Place(t: Tx, skb: Skb, third: seq<Move>): (r: (Tx, Outcome))
    requires Shape(t)
    ensures Shape(r.0)
  {
    if Full(t, t.head) then
      (t.(stopped := true, maps := t.maps - 1, bounces := t.bounces - 1, pending := t.pending - 1), RingFull)
    else
      (Stop(Moves(Enqueue(t, skb), third)), Accepted)
  }

  /** The part of a transmit call under the lock, from a mapped bounce buffer on. */
  ghost function Locked(t: Tx, skb: Skb, w: Timing): (r: (Tx, Outcome))
    requires Shape(t)
    ensures Shape(r.0)
  {
    Place(Tested(t, w), skb, w.third)
  }

  datatype Packet = Packet(skb: Skb, linear: bool, length: nat)

  // The call gets as far as the lock.
  predicate Mappable(p: Packet, memory: bool, mapping: Mapping) {
    p.linear && p.length <= 1536 && memory && mapping == Mapped
  }

  // A call that has allocated and mapped its bounce buffer.
  ghost function WithMapping(t: Tx): (u: Tx)
    requires Shape(t)
    ensures Shape(u)
  {
    t.(maps := t.maps + 1, bounces := t.bounces + 1, pending := t.pending + 1)
  }

  // The ring as a call that gets there finds it under the lock.
  ghost function Arrived(t: Tx, w: Timing): (u: Tx)
    requires Shape(t)
    ensures Shape(u)
  {
    Moves(WithMapping(t), w.first)
  }

  ghost function Xmit(t: Tx, p: Packet, memory: bool, mapping: Mapping, w: Timing): (r: (Tx, Outcome))
    requires Shape(t)
    ensures Shape(r.0)
  {
    if !p.linear || p.length > 1536 then (t, Dropped)
    else if !memory then (t, NoMemory)
    else if mapping != Mapped then (t, Dropped)
    else Locked(Arrived(t, w), p.skb, w)
  }

  lemma ArrivedKeeps(t: Tx, w: Timing)
    requires Inv(t)
    ensures var u := Arrived(t, w);
      Inv(u) && u.queue == t.queue && u.accepted == t.accepted && u.released == t.released && u.pending == t.pending + 1
  {
    assert Inv(WithMapping(t));
    MovesKeep(WithMapping(t), w.first);
  }

  lemma EnqueuedEffect(t: Tx, skb: Skb, third: seq<Move>)
    requires Inv(t)
    ensures var u := Stop(Moves(Enqueue(t, skb), third));
      && Overrun(u) && u.pending == t.pending - 1 && u.released == t.released
      && u.queue == t.queue + [skb] && u.accepted == t.accepted + [skb]
      && (Inv(u) <==> |t.queue| < RING - 1)
  {
    EnqueueKeeps(t, skb);
    MovesKeep(Enqueue(t, skb), third);
  }

  lemma PlaceEffect(t: Tx, skb: Skb, third: seq<Move>)
    requires Inv(t)
    ensures var (u, outcome) := Place(t, skb, third);
      && Overrun(u) && u.pending == t.pending - 1 && u.released == t.released
      && u.queue == t.queue + (if outcome == Accepted then [skb] else [])
      && u.accepted == t.accepted + (if outcome == Accepted then [skb] else [])
      && outcome == (if Full(t, t.head) then RingFull else Accepted) && (outcome == RingFull ==> u.stopped)
      && (Inv(u) <==> !(|t.queue| == RING - 1 && t.head != t.clean))
  {
    FullTest(t);
    if !Full(t, t.head) {
      EnqueuedEffect(t, skb, third);
    }
  }

  /** The exact condition under which a call overfills the ring: it holds 63 buffers, the
      reclaim finds none of them completed, and HEAD has moved by the fullness test. */
  ghost predicate Overfills(t: Tx, w: Timing)
    requires Shape(t)
  {
    |t.queue| == RING - 1 && t.head == t.clean && Tested(t, w).head != t.clean
  }

  lemma LockedEffect(t: Tx, skb: Skb, w: Timing)
    requires Inv(t)
    ensures var (u, outcome) := Locked(t, skb, w);
      var a := Ahead(t.clean, t.head);
      && Overrun(u) && u.pending == t.pending - 1 && u.released == t.released + t.queue[..a]
      && u.queue == t.queue[a..] + (if outcome == Accepted then [skb] else [])
      && u.accepted == t.accepted + (if outcome == Accepted then [skb] else [])
      && (outcome == RingFull ==> u.stopped) && (outcome == Accepted || outcome == RingFull)
      && (Inv(u) <==> !Overfills(t, w)) && (w.wake == [] && w.second == [] ==> Inv(u))
      && (Overfills(t, w) ==> outcome == Accepted)
  {
    TestedEffect(t, w);
    FullTest(Tested(t, w));
    PlaceEffect(Tested(t, w), skb, w.third);
  }

  /** How many completions the reclaim of a call sees. */
  ghost function Seen(t: Tx, w: Timing): int
    requires Shape(t)
  {
    Ahead(Arrived(t, w).clean, Arrived(t, w).head)
  }

  /** One transmit call, for every packet, every answer of the allocator and the DMA
      layer, and every timing of the device. The ring overflows to 64 occupied slots
      exactly when it held 63 buffers, the reclaim found none of them completed, and HEAD
      moved before the fullness test. */
  lemma XmitEffect(t: Tx, p: Packet, memory: bool, mapping: Mapping, w: Timing)
    requires Inv(t)
    ensures var (u, outcome) := Xmit(t, p, memory, mapping, w);
      var a := if Mappable(p, memory, mapping) then Seen(t, w) else 0;
      && Overrun(u) && u.pending == t.pending && 0 <= a <= |t.queue| && u.released == t.released + t.queue[..a]
      && u.queue == t.queue[a..] + (if outcome == Accepted then [p.skb] else [])
      && u.accepted == t.accepted + (if outcome == Accepted then [p.skb] else [])
      && (Mappable(p, memory, mapping) <==> outcome == Accepted || outcome == RingFull)
      && (outcome == RingFull ==> u.stopped)
      && (Inv(u) <==> !(Mappable(p, memory, mapping) && Overfills(Arrived(t, w), w)))
      && (w.wake == [] && w.second == [] ==> Inv(u))
  {
    if Mappable(p, memory, mapping) {
      ArrivedKeeps(t, w);
      LockedEffect(Arrived(t, w), p.skb, w);
    }
  }

  /** Anything that happens to the transmit side between opening and closing. A
      transmit call that gets past its checks is two events: it maps its bounce buffer,
      and later takes the lock; polls and the engine may come in between. */
  datatype Event =
    | Engine(move: Move)
    | Poll(wake: seq<Move>)
    | Begin
    | Finish(skb: Skb, timing: Timing)

  // HEAD does not move between the readings that the fullness test relies on.
  predicate HeadStable(e: Event) {
    e.Finish? ==> e.timing.wake == [] && e.timing.second == []
  }

  ghost function Apply(t: Tx, e: Event): (u: Tx)
    requires Shape(t)
    ensures Shape(u)
  {
    match e
    case Engine(move) => Device(t, move)
    case Poll(wake) => ReclaimAndWake(t, wake)
    case Begin => WithMapping(t)
    case Finish(skb, w) => if t.pending <= 0 then t else Locked(t, skb, w).0
  }

  ghost function From(t: Tx, events: seq<Event>): (u: Tx)
    requires Shape(t)
    ensures Shape(u)
    decreases |events|
  {
    if events == [] then t else Apply(From(t, events[..|events| - 1]), events[|events| - 1])
  }

  lemma {:induction false} FromAppend(t: Tx, events: seq<Event>, more: seq<Event>)
    requires Shape(t)
    ensures From(t, events + more) == From(From(t, events), more)
    decreases |more|
  {
    if more == [] {
      assert events + more == events;
    } else {
      assert (events + more)[..|events + more| - 1] == events + more[..|more| - 1];
      FromAppend(t, events, more[..|more| - 1]);
    }
  }

  ghost function History(events: seq<Event>): (t: Tx)
    ensures Shape(t)
  {
    From(Empty(), events)
  }

  // u has t's record, possibly with more added at the end.
  ghost predicate Extends(t: Tx, u: Tx) {
    t.released <= u.released && t.accepted <= u.accepted
  }

  // A stopped queue has a buffer outstanding, whose completion will wake it.
  ghost predicate Live(t: Tx) {
    t.stopped ==> |t.queue| > 0
  }

  ghost predicate Good(t: Tx) {
    Inv(t) && Live(t) && t.pending >= 0
  }

  lemma FinishKeeps(t: Tx, skb: Skb, w: Timing)
    requires Good(t) && t.pending > 0 && HeadStable(Finish(skb, w))
    ensures var u := Locked(t, skb, w).0; Good(u) && Extends(t, u)
  {
    LockedEffect(t, skb, w);
    TestedEffect(t, w);
    FullTest(Tested(t, w));
    WakeEffect(t, w.wake);
  }

  lemma PollKeeps(t: Tx, wake: seq<Move>)
    requires Good(t)
    ensures var u := ReclaimAndWake(t, wake); Good(u) && Extends(t, u)
  {
    ReclaimReleases(t);
    WakeEffect(t, wake);
  }

  lemma ApplyKeeps(t: Tx, e: Event)
    requires Good(t) && HeadStable(e)
    ensures Good(Apply(t, e)) && Extends(t, Apply(t, e))
  {
    match e
    case Engine(move) => DeviceKeeps(t, move);
    case Poll(wake) => PollKeeps(t, wake);
    case Begin =>
    case Finish(skb, w) =>
      if t.pending > 0 {
        FinishKeeps(t, skb, w);
      }
  }

  lemma {:induction false} FromKeeps(t: Tx, events: seq<Event>)
    requires Good(t) && forall k :: 0 <= k < |events| ==> HeadStable(events[k])
    ensures Good(From(t, events)) && Extends(t, From(t, events))
    decreases |events|
  {
    if events != [] {
      var s := From(t, events[..|events| - 1]);
      FromKeeps(t, events[..|events| - 1]);
      ApplyKeeps(s, events[|events| - 1]);
      ExtendsTransitive(t, s, From(t, events));
    }
  }

  lemma ExtendsTransitive(t: Tx, u: Tx, v: Tx)
    requires Extends(t, u) && Extends(u, v)
    ensures Extends(t, v)
  {
  }

  lemma EmptyGood()
    ensures Good(Empty())
  {
    CountNone(Empty().slots);
    CountNone(Empty().blocks);
  }

  /** Released and accepted buffers stay on record. */
  lemma HistoryExtends(events: seq<Event>, k: nat)
    requires forall i :: 0 <= i < |events| ==> HeadStable(events[i])
    requires k <= |events|
    ensures Extends(History(events[..k]), History(events))
  {
    EmptyGood();
    FromKeeps(Empty(), events[..k]);
    FromKeeps(History(events[..k]), events[k..]);
    FromAppend(Empty(), events[..k], events[k..]);
    assert events[..k] + events[k..] == events;
  }

  // A queue whose ring has no room is stopped.
  ghost predicate StopsWhenFull(t: Tx) {
    (t.prod + 1) % 64 == t.head ==> t.stopped
  }

  lemma DeviceStops(t: Tx, move: Move)
    requires Shape(t) && StopsWhenFull(t)
    ensures StopsWhenFull(Device(t, move))
  {
  }

  lemma {:induction false} MovesStop(t: Tx, moves: seq<Move>)
    requires Shape(t) && StopsWhenFull(t)
    ensures StopsWhenFull(Moves(t, moves))
    decreases |moves|
  {
    if moves != [] {
      MovesStop(t, moves[..|moves| - 1]);
      DeviceStops(Moves(t, moves[..|moves| - 1]), moves[|moves| - 1]);
    }
  }

  lemma {:induction false} ReclaimSame(t: Tx)
    requires Shape(t)
    ensures var u := Reclaim(t);
      u.prod == t.prod && u.head == t.head && u.stopped == t.stopped
    decreases Ahead(t.clean, t.head)
  {
    if t.clean != t.head && t.desc[t.clean].done {
      OldestLeaves(t.clean, t.head);
      ReclaimSame(ReleaseOldest(t));
    }
  }

  lemma WakeStops(t: Tx, wake: seq<Move>)
    requires Shape(t) && StopsWhenFull(t)
    ensures StopsWhenFull(ReclaimAndWake(t, wake))
  {
    ReclaimSame(t);
    MovesStop(Reclaim(t), wake);
  }

  lemma PlaceStops(t: Tx, skb: Skb, third: seq<Move>)
    requires Shape(t)
    ensures StopsWhenFull(Place(t, skb, third).0)
  {
  }

  lemma {:induction false} FromStops(t: Tx, events: seq<Event>)
    requires Shape(t) && StopsWhenFull(t)
    ensures StopsWhenFull(From(t, events))
    decreases |events|
  {
    if events != [] {
      var s := From(t, events[..|events| - 1]);
      FromStops(t, events[..|events| - 1]);
      match events[|events| - 1]
      case Engine(move) => DeviceStops(s, move);
      case Poll(wake) => WakeStops(s, wake);
      case Begin =>
      case Finish(skb, w) => PlaceStops(Tested(s, w), skb, w.third);
    }
  }

  /** A ring with no room for another packet has its queue stopped: over every history,
      whatever HEAD does between the readings of a call. */
  lemma FullMeansStopped(events: seq<Event>)
    ensures var t := History(events);
      (t.prod + 1) % 64 == t.head ==> t.stopped
  {
    FromStops(Empty(), events);
  }

  /** Over every history: the occupied slots are exactly those from tx_clean up to
      tx_prod, at most 63, with HEAD among them; every accepted buffer is released
      exactly once, in order; outstanding mappings and bounce buffers are as many as
      the occupied slots and the calls under way; a ring without room has its queue stopped;
      and a stopped queue always has a buffer outstanding. */
  lemma TxHistory(events: seq<Event>)
    requires forall i :: 0 <= i < |events| ==> HeadStable(events[i])
    ensures var t := History(events);
      && t.accepted == t.released + t.queue && |t.queue| <= RING - 1
      && t.maps == t.bounces == Count(t.slots) + t.pending && Count(t.slots) == |t.queue|
      && Holds(t.slots, t.clean, t.queue) && t.prod == Wrap(t.clean, |t.queue|)
      && Ahead(t.clean, t.head) <= |t.queue| && (t.stopped ==> |t.queue| > 0)
      && ((t.prod + 1) % 64 == t.head ==> t.stopped)
  {
    EmptyGood();
    FullMeansStopped(events);
    FromKeeps(Empty(), events);
  }
}
