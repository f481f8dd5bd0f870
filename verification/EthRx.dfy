/** The receive side: the descriptor engine, one turn of the poll loop and the whole poll as
    functions of the ring, whatever the engine and the allocator do in between; and what every
    history of polls and engine steps keeps, in order and in number. */
module EthRx {
  import opened Prelude
  import opened EthRings

  // One slot stays empty when the ring is filled.
  const POSTED: int := RING - 1
  const BUFFER: int := 2048

  datatype Frame = Frame(skb: Skb, length: int)

  /** The driver's receive fields and descriptors, the RX_TAIL register, the engine's
      next descriptor, and the history. Buffers are numbered in the order in which they
      are allocated. `posted` and `consumed` list the buffers as they enter and leave
      the ring; `reposts` and `failures` count the turns that did and did not put a
      buffer back; `stale` says that a slot without a buffer has been consumed. `on` is
      the receive enable bit of CTRL, and `writing` says that the engine is writing a
      completion. */
  datatype Rx = Rx(
    slots: seq<Option<Skb>>, desc: seq<Status>, cons: int, prod: int, tail: int, next: int,
    maps: int, issued: nat,
    queue: seq<Skb>, posted: seq<Skb>, consumed: seq<Skb>,
    delivered: seq<Frame>, freed: seq<Skb>,
    errors: int, dropped: int, reposts: int, failures: int, stale: bool,
    on: bool, writing: bool)

  ghost function Buffers(frames: seq<Frame>): multiset<Skb> {
    if frames == [] then multiset{}
    else Buffers(frames[..|frames| - 1]) + multiset{frames[|frames| - 1].skb}
  }

  /** Slots from cons up to prod hold the queue, one slot each, and all others are
      empty; a slot is lost with each failed repost; `away` more are being refilled. */
  ghost predicate Ring(r: Rx, away: int) {
    && Holds(r.slots, r.cons, r.queue) && r.prod == Wrap(r.cons, |r.queue|)
    && |r.queue| + r.failures + away == POSTED && r.failures >= 0 && r.reposts >= 0 && 0 <= away <= 1
    && r.maps == Count(r.slots) == |r.queue|
    && r.posted == r.consumed + r.queue && |r.consumed| == r.reposts + r.failures + away
  }

  // What the driver's arrays and indices always satisfy.
  ghost predicate Shape(r: Rx) {
    && |r.slots| == |r.desc| == RING
    && 0 <= r.cons < RING && 0 <= r.prod < RING && 0 <= r.tail < RING && 0 <= r.next < RING
  }

  // How often a buffer is in the ring, freed or delivered.
  ghost function Places(r: Rx, skb: Skb): int {
    multiset(r.queue)[skb] + multiset(r.freed)[skb] + Buffers(r.delivered)[skb]
  }

  /** Every allocated buffer is in exactly one place: in the ring, freed, delivered, or
      in the driver's hands. */
  ghost predicate Owned(r: Rx, hand: multiset<Skb>) {
    forall skb :: Places(r, skb) + hand[skb] == if 0 <= skb < r.issued then 1 else 0
  }

  // A failed repost is counted as a dropped frame on top of what its frame counted as.
  ghost predicate Tallied(r: Rx, open: int) {
    |r.consumed| + r.failures == |r.delivered| + r.errors + r.dropped + open
  }

  /** The engine has written back the first descriptors of the queue and no others, and
      lies no further than RX_TAIL. An empty slot keeps the DONE mark of its last use;
      only the slot that is left out at the start has none. */
  ghost predicate Engine(r: Rx) {
    && |r.desc| == RING && 0 <= r.cons < RING && 0 <= r.next < RING && 0 <= r.tail < RING
    && Ahead(r.cons, r.next) <= Ahead(r.cons, r.tail) <= |r.queue|
    && (forall i :: 0 <= i < RING && Ahead(r.cons, i) < |r.queue| ==>
          (r.desc[i].done <==> Ahead(r.cons, i) < Ahead(r.cons, r.next)))
    && (forall i :: 0 <= i < RING && Ahead(r.cons, i) >= |r.queue| ==>
          (r.desc[i].done <==> r.reposts > 0 || i != POSTED))
    && (r.reposts == 0 ==> r.prod == POSTED) && (r.writing ==> r.next != r.tail)
  }

  ghost predicate Inv(r: Rx) {
    Ring(r, 0) && Owned(r, multiset{}) && Tallied(r, 0) && Engine(r)
  }

  // The engine begins to write a completion, and finishes it.
  datatype Move = Take | WriteBack(error: bool, actual: int)

  /** With the receive side off the engine begins nothing, but a completion it has begun
      to write is finished. The write is taken to succeed, as in EthTx. */
  ghost function Device(r: Rx, move: Move): (u: Rx)
    requires Shape(r)
    ensures Shape(u)
  {
    match move
    case Take => if r.on && r.next != r.tail then r.(writing := true) else r
    case WriteBack(error, actual) =>
      if !r.writing then r
      else r.(desc := r.desc[r.next := Status(true, error, actual)], next := RingNext(r.next), writing := false)
  }

  lemma DeviceKeeps(r: Rx, move: Move)
    requires Inv(r)
    ensures Inv(Device(r, move))
  {
    if r.writing {
      HeadAdvances(r.cons, r.next, |r.queue|);
    }
  }

  // Only the engine's own words and flags change.
  ghost predicate DriverSame(r: Rx, u: Rx) {
    u.(desc := r.desc, next := r.next, writing := r.writing) == r
  }

  ghost function Moves(r: Rx, moves: seq<Move>): (u: Rx)
    requires Shape(r)
    ensures Shape(u) && DriverSame(r, u)
    decreases |moves|
  {
    if moves == [] then r else Device(Moves(r, moves[..|moves| - 1]), moves[|moves| - 1])
  }

  lemma {:induction false} MovesKeep(r: Rx, moves: seq<Move>)
    requires Inv(r)
    ensures Inv(Moves(r, moves))
    decreases |moves|
  {
    if moves != [] {
      MovesKeep(r, moves[..|moves| - 1]);
      DeviceKeeps(Moves(r, moves[..|moves| - 1]), moves[|moves| - 1]);
    }
  }

  function Tail(queue: seq<Skb>): seq<Skb> {
    if queue == [] then [] else queue[1..]
  }

  // The buffer leaves its slot and the slot leaves the ring.
  ghost function Consume(r: Rx, skb: Skb): (u: Rx)
    requires Shape(r)
    ensures Shape(u)
  {
    r.(slots := r.slots[r.cons := None], cons := RingNext(r.cons), maps := r.maps - 1,
       queue := Tail(r.queue), consumed := r.consumed + [skb])
  }

  // What the environment answers in one turn, after what the engine did before it.
  datatype Turn = Turn(moves: seq<Move>, first: bool, second: bool, mapping: Mapping)

  predicate Bad(status: Status) {
    status.error || status.actual > BUFFER
  }

  /** What becomes of a consumed buffer, and the buffer to be put back, if there is
      one. A good frame is delivered only if another buffer can take its place. */
  ghost function Dispose(r: Rx, skb: Skb, status: Status, turn: Turn): (d: (Rx, Option<Skb>))
    ensures Shape(r) ==> Shape(d.0)
  {
    if Bad(status) then
      var s := r.(errors := r.errors + 1, freed := r.freed + [skb]);
      if turn.first || turn.second then (s.(issued := s.issued + 1), Some(s.issued)) else (s, None)
    else if turn.first then
      (r.(issued := r.issued + 1, delivered := r.delivered + [Frame(skb, status.actual)]), Some(r.issued))
    else
      (r.(dropped := r.dropped + 1), Some(skb))
  }

  // The buffer enters the slot at the producer index.
  ghost function Post(r: Rx, skb: Skb): (u: Rx)
    requires Shape(r)
    ensures Shape(u)
  {
    r.(slots := r.slots[r.prod := Some(skb)], desc := r.desc[r.prod := NO_STATUS], prod := RingNext(r.prod),
       maps := r.maps + 1, queue := r.queue + [skb], posted := r.posted + [skb], reposts := r.reposts + 1)
  }

  // No buffer could be put back; the driver writes zero to CTRL.
  ghost function Fail(r: Rx, skb: Option<Skb>): Rx {
    r.(dropped := r.dropped + 1, failures := r.failures + 1, on := false,
       freed := r.freed + if skb.Some? then [skb.value] else [])
  }

  datatype Verdict = Nothing | Reposted | Failed | Stale

  ghost function One(r: Rx, turn: Turn): (o: (Rx, Verdict))
    requires Shape(r)
    ensures Shape(o.0)
  {
    if !r.desc[r.cons].done then (r, Nothing)
    else if r.slots[r.cons].None? then (r.(stale := true), Stale)
    else
      var (s, skb) := Dispose(Consume(r, r.slots[r.cons].value), r.slots[r.cons].value, r.desc[r.cons], turn);
      if skb.None? || turn.mapping != Mapped then (Fail(s, skb), Failed) else (Post(s, skb.value), Reposted)
  }

  ghost function Hand(skb: Option<Skb>): multiset<Skb> {
    if skb.Some? then multiset{skb.value} else multiset{}
  }

  lemma ConsumeKeepsRing(r: Rx)
    requires Shape(r) && Ring(r, 0) && |r.queue| > 0
    ensures r.slots[r.cons] == Some(r.queue[0]) && Ring(Consume(r, r.queue[0]), 1)
  {
    Taken(r.slots, r.cons, r.queue);
    CountUpdate(r.slots, r.cons, None);
    assert r.posted == (r.consumed + [r.queue[0]]) + r.queue[1..];
  }

  lemma ConsumeKeepsOwned(r: Rx)
    requires Owned(r, multiset{}) && Shape(r) && |r.queue| > 0
    ensures Owned(Consume(r, r.queue[0]), multiset{r.queue[0]})
  {
    var s := Consume(r, r.queue[0]);
    assert r.queue == [r.queue[0]] + r.queue[1..];
    forall x ensures Places(s, x) + multiset{r.queue[0]}[x] == Places(r, x) {
    }
  }

  lemma ConsumeKeeps(r: Rx)
    requires Inv(r) && |r.queue| > 0 && r.desc[r.cons].done
    ensures r.slots[r.cons] == Some(r.queue[0])
    ensures var s := Consume(r, r.queue[0]);
      Ring(s, 1) && Owned(s, multiset{r.queue[0]}) && Tallied(s, 1) && Engine(s)
  {
    ConsumeKeepsRing(r);
    ConsumeKeepsOwned(r);
    ConsumeKeepsEngine(r);
  }

  lemma ConsumeKeepsEngine(r: Rx)
    requires Inv(r) && |r.queue| > 0 && r.desc[r.cons].done
    ensures Engine(Consume(r, r.queue[0]))
  {
    assert Ahead(r.cons, r.cons) == 0;
    OldestLeaves(r.cons, r.next);
    OldestLeaves(r.cons, r.tail);
  }

  lemma DisposeKeepsRing(r: Rx, skb: Skb, status: Status, turn: Turn)
    requires Ring(r, 1)
    ensures Ring(Dispose(r, skb, status, turn).0, 1)
  {
  }

  lemma DisposeKeepsEngine(r: Rx, skb: Skb, status: Status, turn: Turn)
    requires Engine(r)
    ensures Engine(Dispose(r, skb, status, turn).0)
  {
  }

  lemma DisposeTallies(r: Rx, skb: Skb, status: Status, turn: Turn)
    requires Tallied(r, 1)
    ensures Tallied(Dispose(r, skb, status, turn).0, 0)
  {
  }

  lemma DisposeSettles(r: Rx, skb: Skb, status: Status, turn: Turn)
    requires Owned(r, multiset{skb})
    ensures var (s, back) := Dispose(r, skb, status, turn); Owned(s, Hand(back))
  {
    if Bad(status) {
      DisposeBad(r, skb, status, turn);
    } else if turn.first {
      var s := r.(delivered := r.delivered + [Frame(skb, status.actual)]);
      Delivered(r, s, Frame(skb, status.actual));
      Issued(s);
    }
  }

  lemma DisposeBad(r: Rx, skb: Skb, status: Status, turn: Turn)
    requires Owned(r, multiset{skb}) && Bad(status)
    ensures var (s, back) := Dispose(r, skb, status, turn); Owned(s, Hand(back))
  {
    var s := r.(errors := r.errors + 1, freed := r.freed + [skb]);
    Freed(r, s, skb);
    Issued(s);
  }

  lemma Freed(r: Rx, s: Rx, skb: Skb)
    requires Owned(r, multiset{skb}) && s == r.(errors := s.errors, freed := r.freed + [skb])
    ensures Owned(s, multiset{})
  {
    forall x ensures Places(s, x) == Places(r, x) + multiset{skb}[x] {
    }
  }

  lemma Delivered(r: Rx, s: Rx, frame: Frame)
    requires Owned(r, multiset{frame.skb}) && s == r.(delivered := r.delivered + [frame])
    ensures Owned(s, multiset{})
  {
    DeliveredBuffers(r.delivered, frame);
    forall x ensures Places(s, x) == Places(r, x) + multiset{frame.skb}[x] {
    }
  }

  lemma Issued(r: Rx)
    requires Owned(r, multiset{})
    ensures Owned(r.(issued := r.issued + 1), multiset{r.issued})
  {
    var s := r.(issued := r.issued + 1);
    forall x ensures Places(s, x) == Places(r, x) {
    }
  }

  lemma DeliveredBuffers(frames: seq<Frame>, frame: Frame)
    ensures Buffers(frames + [frame]) == Buffers(frames) + multiset{frame.skb}
  {
    assert (frames + [frame])[..|frames|] == frames;
  }

  lemma PostKeeps(r: Rx, skb: Skb)
    requires Ring(r, 1) && Owned(r, multiset{skb}) && Tallied(r, 0) && Engine(r)
    ensures Inv(Post(r, skb))
  {
    Put(r.slots, r.cons, r.queue, skb);
    CountUpdate(r.slots, r.prod, Some(skb));
    PostKeepsEngine(r, skb);
  }

  lemma PostKeepsEngine(r: Rx, skb: Skb)
    requires Ring(r, 1) && Engine(r)
    ensures Engine(Post(r, skb))
  {
    assert Ahead(r.cons, r.prod) == |r.queue|;
  }

  lemma FailKeeps(r: Rx, skb: Option<Skb>)
    requires Ring(r, 1) && Owned(r, Hand(skb)) && Tallied(r, 0) && Engine(r)
    ensures Inv(Fail(r, skb))
  {
  }

  lemma OneKeeps(r: Rx, turn: Turn)
    requires Inv(r)
    ensures Inv(One(r, turn).0)
  {
    if r.desc[r.cons].done && r.slots[r.cons].Some? {
      ConsumeKeeps(r);
      DisposeKeepsRing(Consume(r, r.queue[0]), r.queue[0], r.desc[r.cons], turn);
      DisposeKeepsEngine(Consume(r, r.queue[0]), r.queue[0], r.desc[r.cons], turn);
      DisposeTallies(Consume(r, r.queue[0]), r.queue[0], r.desc[r.cons], turn);
      DisposeSettles(Consume(r, r.queue[0]), r.queue[0], r.desc[r.cons], turn);
      var (s, skb) := Dispose(Consume(r, r.queue[0]), r.queue[0], r.desc[r.cons], turn);
      if skb.None? || turn.mapping != Mapped {
        FailKeeps(s, skb);
      } else {
        PostKeeps(s, skb.value);
      }
    }
  }

  // All 63 slots have been lost, and at least one buffer had been put back before.
  ghost predicate Stranded(r: Rx) {
    r.failures == POSTED && r.reposts > 0
  }

  // A turn that consumes the oldest buffer, in which the environment answers as given.
  ghost predicate Consumes(r: Rx, u: Rx, turn: Turn, verdict: Verdict)
    requires Shape(r)
  {
    var status := r.desc[r.cons];
    && |r.queue| > 0 && u.consumed == r.consumed + [r.queue[0]]
    && u.delivered == r.delivered + (if !Bad(status) && turn.first then [Frame(r.queue[0], status.actual)] else [])
    && (verdict == Failed <==> turn.mapping != Mapped || (Bad(status) && !turn.first && !turn.second))
    && u.failures == r.failures + (if verdict == Failed then 1 else 0)
    && u.reposts == r.reposts + (if verdict == Failed then 0 else 1)
    && |u.queue| == |r.queue| - (if verdict == Failed then 1 else 0)
    && u.prod == (if verdict == Failed then r.prod else RingNext(r.prod)) && u.cons == RingNext(r.cons)
    && u.on == (r.on && verdict != Failed)
  }

  lemma OneVerdict(r: Rx, turn: Turn)
    requires Inv(r)
    ensures var verdict := One(r, turn).1;
      && (verdict == Stale <==> Stranded(r)) && (verdict == Nothing <==> r.next == r.cons && !Stranded(r))
  {
    assert Ahead(r.cons, r.cons) == 0;
    if |r.queue| > 0 {
      assert r.slots[r.cons] == Some(r.queue[0]);
    }
  }

  lemma OneConsumes(r: Rx, turn: Turn)
    requires Inv(r) && r.desc[r.cons].done && r.slots[r.cons].Some?
    ensures var (u, verdict) := One(r, turn);
      (verdict == Reposted || verdict == Failed) && Consumes(r, u, turn, verdict)
  {
    assert Ahead(r.cons, r.cons) == 0;
    assert |r.queue| > 0 && r.slots[r.cons] == Some(r.queue[0]);
  }

  /** One turn, exactly. A completion is consumed in queue order; its frame is delivered
      with the length the engine wrote, unless it is bad or no buffer can replace it; the
      slot is lost and the engine switched off when no buffer is to be had or it cannot be
      mapped. A slot without a buffer is consumed exactly when all 63 slots have been lost
      and at least one buffer had been put back before. */
  lemma OneEffect(r: Rx, turn: Turn)
    requires Inv(r)
    ensures var (u, verdict) := One(r, turn);
      && (verdict == Stale <==> Stranded(r)) && (verdict == Nothing <==> r.next == r.cons && !Stranded(r))
      && (verdict == Reposted || verdict == Failed ==> Consumes(r, u, turn, verdict))
  {
    OneVerdict(r, turn);
    if r.desc[r.cons].done && r.slots[r.cons].Some? {
      OneConsumes(r, turn);
    }
  }

  // What one turn leaves as it is.
  lemma OneLeaves(r: Rx, turn: Turn)
    requires Shape(r)
    ensures var (u, verdict) := One(r, turn);
      && u.next == r.next && u.tail == r.tail && u.writing == r.writing
      && (verdict == Nothing ==> u == r) && (verdict == Stale ==> u == r.(stale := true))
      && (verdict != Stale ==> u.stale == r.stale)
  {
    if r.desc[r.cons].done && r.slots[r.cons].Some? {
      var skb := r.slots[r.cons].value;
      DisposeLeaves(Consume(r, skb), skb, r.desc[r.cons], turn);
    }
  }

  lemma DisposeLeaves(r: Rx, skb: Skb, status: Status, turn: Turn)
    ensures var s := Dispose(r, skb, status, turn).0;
      s.next == r.next && s.tail == r.tail && s.writing == r.writing && s.stale == r.stale
  {
  }

  // A slot without a buffer has been consumed only with all slots lost.
  ghost predicate Lost(r: Rx) {
    r.stale ==> Stranded(r)
  }

  // One turn with what the engine does just before it.
  ghost function Step(r: Rx, turn: Turn): (s: (Rx, Verdict))
    requires Shape(r)
    ensures Shape(s.0)
  {
    One(Moves(r, turn.moves), turn)
  }

  // u follows r by some turns that consumed `work` completions and published no tail.
  ghost predicate Follows(r: Rx, u: Rx, work: int, advanced: bool, lost: int) {
    && (Lost(r) ==> Lost(u)) && u.tail == r.tail && (!advanced ==> u.prod == r.prod)
    && r.failures <= u.failures <= r.failures + lost && |u.consumed| == |r.consumed| + work
  }

  lemma StepKeeps(r: Rx, turn: Turn)
    requires Inv(r)
    ensures Inv(Step(r, turn).0)
  {
    MovesKeep(r, turn.moves);
    OneKeeps(Moves(r, turn.moves), turn);
  }

  lemma StepEffect(r: Rx, turn: Turn)
    requires Inv(r)
    ensures var (u, verdict) := Step(r, turn);
      Follows(r, u, if verdict == Reposted || verdict == Failed then 1 else 0, verdict == Reposted,
              if verdict == Failed then 1 else 0)
  {
    MovesKeep(r, turn.moves);
    OneEffect(Moves(r, turn.moves), turn);
    OneLeaves(Moves(r, turn.moves), turn);
  }

  // The poll loop from its `work`-th turn on; `advanced` says that a buffer was put back.
  ghost function Loop(r: Rx, work: int, advanced: bool, budget: int, turns: int -> Turn): (l: (Rx, int, bool))
    requires Shape(r)
    ensures Shape(l.0)
    decreases budget - work
  {
    if work >= budget then (r, work, advanced) else
    var (u, verdict) := Step(r, turns(work));
    match verdict
    case Reposted => Loop(u, work + 1, true, budget, turns)
    case Failed => (u, work + 1, advanced)
    case _ => (u, work, advanced)
  }

  // Publishing the new tail, if there is one.
  ghost function Publish(r: Rx, advanced: bool): Rx {
    if advanced then r.(tail := r.prod) else r
  }

  ghost function Poll(r: Rx, budget: int, turns: int -> Turn): (u: (Rx, int))
    requires Shape(r)
    ensures Shape(u.0)
  {
    var (s, work, advanced) := Loop(r, 0, false, budget, turns);
    (Publish(s, advanced), work)
  }

  lemma PublishKeeps(r: Rx, advanced: bool)
    requires Inv(r)
    ensures Inv(Publish(r, advanced))
  {
    assert Ahead(r.cons, r.prod) == |r.queue|;
  }

  // Between calls the published tail is the producer index.
  ghost predicate Rest(r: Rx) {
    Inv(r) && r.tail == r.prod && Lost(r)
  }

  // How a loop that stood at `work` ends, relative to the ring r it had then.
  ghost predicate Ends(r: Rx, work: int, advanced: bool, budget: int, end: (Rx, int, bool)) {
    && work <= end.1 <= budget && (advanced ==> end.2) && Follows(r, end.0, end.1 - work, end.2, 1)
  }

  lemma EndsLater(r: Rx, s: Rx, work: int, advanced: bool, budget: int, end: (Rx, int, bool))
    requires Follows(r, s, 1, true, 0) && Ends(s, work + 1, true, budget, end)
    ensures Ends(r, work, advanced, budget, end)
  {
  }

  lemma EndsHere(r: Rx, u: Rx, work: int, advanced: bool, budget: int, k: int)
    requires Follows(r, u, k, false, k) && 0 <= k <= 1 && work + k <= budget
    ensures Ends(r, work, advanced, budget, (u, work + k, advanced))
  {
  }

  lemma {:induction false} LoopKeeps(r: Rx, work: int, advanced: bool, budget: int, turns: int -> Turn)
    requires Inv(r)
    ensures Inv(Loop(r, work, advanced, budget, turns).0)
    decreases budget - work
  {
    if work < budget {
      StepKeeps(r, turns(work));
      if Step(r, turns(work)).1 == Reposted {
        LoopKeeps(Step(r, turns(work)).0, work + 1, true, budget, turns);
      }
    }
  }

  lemma {:induction false} LoopEffect(r: Rx, work: int, advanced: bool, budget: int, turns: int -> Turn)
    requires Inv(r) && work <= budget
    ensures Ends(r, work, advanced, budget, Loop(r, work, advanced, budget, turns))
    decreases budget - work
  {
    if work < budget {
      StepKeeps(r, turns(work));
      StepEffect(r, turns(work));
      var (s, verdict) := Step(r, turns(work));
      if verdict == Reposted {
        LoopEffect(s, work + 1, true, budget, turns);
        LoopGoesOn(r, s, work, advanced, budget, turns);
        EndsLater(r, s, work, advanced, budget, Loop(s, work + 1, true, budget, turns));
      } else {
        LoopStops(r, work, advanced, budget, turns);
        EndsHere(r, s, work, advanced, budget, if verdict == Failed then 1 else 0);
      }
    }
  }

  lemma LoopGoesOn(r: Rx, s: Rx, work: int, advanced: bool, budget: int, turns: int -> Turn)
    requires Shape(r) && work < budget && Step(r, turns(work)) == (s, Reposted)
    ensures Loop(r, work, advanced, budget, turns) == Loop(s, work + 1, true, budget, turns)
  {
  }

  lemma LoopStops(r: Rx, work: int, advanced: bool, budget: int, turns: int -> Turn)
    requires Shape(r) && work < budget && Step(r, turns(work)).1 != Reposted
    ensures var (s, verdict) := Step(r, turns(work));
      Loop(r, work, advanced, budget, turns) == (s, work + (if verdict == Failed then 1 else 0), advanced)
  {
  }

  /** A poll reports as many completions as it consumed, at most its budget, loses at most
      one slot, and leaves RX_TAIL at the producer index. */
  lemma PollEffect(r: Rx, budget: int, turns: int -> Turn)
    requires Rest(r) && budget >= 0
    ensures var (u, work) := Poll(r, budget, turns);
      && Rest(u) && 0 <= work <= budget && |u.consumed| == |r.consumed| + work && u.failures <= r.failures + 1
  {
    LoopKeeps(r, 0, false, budget, turns);
    LoopEffect(r, 0, false, budget, turns);
    var (s, work, advanced) := Loop(r, 0, false, budget, turns);
    PublishKeeps(s, advanced);
  }

  // Switching the engine off keeps the ring.
  lemma OffRest(r: Rx)
    requires Rest(r)
    ensures Rest(r.(on := false))
  {
    var u := r.(on := false);
    forall x ensures Places(u, x) == Places(r, x) {
    }
  }

  lemma MovesRest(r: Rx, moves: seq<Move>)
    requires Rest(r) && Shape(r)
    ensures Rest(Moves(r, moves))
  {
    MovesKeep(r, moves);
  }

  lemma RestShape(r: Rx)
    requires Rest(r)
    ensures Shape(r)
  {
  }

  // The first n buffers in the first n slots.
  ghost function Placed(n: int): (slots: seq<Option<Skb>>)
    requires 0 <= n <= RING
    ensures |slots| == RING && forall i :: 0 <= i < RING ==> slots[i] == if i < n then Some(i) else None
  {
    seq(RING, i => if i < n then Some(i) else None)
  }

  ghost function Numbers(n: int): (ids: seq<Skb>)
    requires 0 <= n
    ensures |ids| == n && forall i :: 0 <= i < n ==> ids[i] == i
  {
    seq(n, i => i)
  }

  ghost function Clear(): (desc: seq<Status>)
    ensures |desc| == RING && forall i :: 0 <= i < RING ==> desc[i] == NO_STATUS
  {
    seq(RING, i => NO_STATUS)
  }

  // The ring as opening fills it: the first 63 buffers in the first 63 slots.
  ghost function Filled(): Rx {
    Rx(Placed(POSTED), Clear(), 0, POSTED, POSTED, 0,
       POSTED, POSTED, Numbers(POSTED), Numbers(POSTED), [], [], [], 0, 0, 0, 0, false, true, false)
  }

  // Every buffer of the filling can be had and mapped.
  ghost predicate Granted(memory: int -> bool, mapping: int -> Mapping) {
    forall k :: 0 <= k < POSTED ==> memory(k) && mapping(k) == Mapped
  }

  datatype Event = Engine(move: Move) | PollCall(budget: nat, turns: int -> Turn)

  ghost function Apply(r: Rx, e: Event): (u: Rx)
    requires Shape(r)
    ensures Shape(u)
  {
    match e
    case Engine(move) => Device(r, move)
    case PollCall(budget, turns) => Poll(r, budget, turns).0
  }

  lemma ApplyKeeps(r: Rx, e: Event)
    requires Rest(r)
    ensures Rest(Apply(r, e)) && Apply(r, e).failures <= r.failures + 1
  {
    match e
    case Engine(move) => DeviceKeeps(r, move);
    case PollCall(budget, turns) => PollEffect(r, budget, turns);
  }

  // What a sequence of events makes of a ring.
  ghost function From(r: Rx, events: seq<Event>): (u: Rx)
    requires Shape(r)
    ensures Shape(u)
    decreases |events|
  {
    if events == [] then r else Apply(From(r, events[..|events| - 1]), events[|events| - 1])
  }

  lemma {:induction false} FromKeeps(r: Rx, events: seq<Event>)
    requires Rest(r)
    ensures Rest(From(r, events))
    decreases |events|
  {
    if events != [] {
      FromKeeps(r, events[..|events| - 1]);
      ApplyKeeps(From(r, events[..|events| - 1]), events[|events| - 1]);
    }
  }

  lemma {:induction false} FromAppend(r: Rx, events: seq<Event>, more: seq<Event>)
    requires Shape(r)
    ensures From(r, events + more) == From(From(r, events), more)
    decreases |more|
  {
    if more == [] {
      assert events + more == events;
    } else {
      assert (events + more)[..|events + more| - 1] == events + more[..|more| - 1];
      FromAppend(r, events, more[..|more| - 1]);
    }
  }

  ghost function History(events: seq<Event>): (r: Rx)
    ensures Shape(r)
  {
    From(Filled(), events)
  }

  // The slots, the account and the buffers of a ring between calls.
  ghost predicate InOrder(r: Rx) {
    && Holds(r.slots, r.cons, r.queue) && r.prod == Wrap(r.cons, |r.queue|) && r.tail == r.prod
    && |r.queue| == POSTED - r.failures && r.maps == Count(r.slots) == |r.queue|
    && r.posted == r.consumed + r.queue && Owned(r, multiset{}) && Tallied(r, 0)
    && (forall i, j :: 0 <= i < j < |r.queue| ==> r.queue[i] != r.queue[j])
    && (r.failures < POSTED ==> !r.stale)
  }

  lemma RestInOrder(r: Rx)
    requires Rest(r)
    ensures InOrder(r)
  {
    forall i, j | 0 <= i < j < |r.queue| ensures r.queue[i] != r.queue[j] {
      Distinct(r, i, j);
    }
  }

  /** Over every history: the slots from rx_cons up to rx_prod hold the posted buffers,
      one each and all different, and all others hold none; a slot is lost with each
      failed repost and in no other way; each buffer is in exactly one place; and unless
      all 63 slots are lost no slot without a buffer is ever consumed. */
  lemma RxHistory(events: seq<Event>)
    ensures InOrder(History(events))
  {
    FilledRest();
    FromKeeps(Filled(), events);
    RestInOrder(History(events));
  }

  lemma Distinct(r: Rx, i: int, j: int)
    requires Owned(r, multiset{}) && 0 <= i < j < |r.queue|
    ensures r.queue[i] != r.queue[j]
  {
    assert Places(r, r.queue[i]) <= 1;
    assert r.queue == r.queue[..j] + r.queue[j..];
    assert r.queue[..j][i] in multiset(r.queue[..j]);
    assert r.queue[j..][0] in multiset(r.queue[j..]);
  }

  lemma {:induction false} NumbersOnce(n: nat)
    ensures forall x {:trigger multiset(Numbers(n))[x]} :: multiset(Numbers(n))[x] == if 0 <= x < n then 1 else 0
  {
    if n > 0 {
      NumbersOnce(n - 1);
      assert Numbers(n) == Numbers(n - 1) + [n - 1];
    }
  }

  lemma {:induction false} PlacedCount(slots: seq<Option<Skb>>, n: int)
    requires 0 <= n <= |slots| <= RING && slots == Placed(n)[..|slots|]
    ensures Count(slots) == n
    decreases |slots|
  {
    if |slots| > n {
      PlacedCount(slots[..|slots| - 1], n);
    } else if n > 0 {
      assert slots[..n - 1] == Placed(n - 1)[..n - 1];
      PlacedCount(slots[..n - 1], n - 1);
    }
  }

  lemma FilledOwned()
    ensures Owned(Filled(), multiset{})
  {
    NumbersOnce(POSTED);
    forall x ensures Places(Filled(), x) == if 0 <= x < POSTED then 1 else 0 {
      assert Places(Filled(), x) == multiset(Numbers(POSTED))[x];
    }
  }

  lemma FilledRing()
    ensures Ring(Filled(), 0)
  {
    assert Holds(Placed(POSTED), 0, Numbers(POSTED));
    PlacedCount(Placed(POSTED), POSTED);
  }

  lemma FilledEngine()
    ensures Engine(Filled())
  {
  }

  lemma FilledTallied()
    ensures Tallied(Filled(), 0)
  {
  }

  lemma FilledRest()
    ensures Rest(Filled())
  {
    FilledTallied();
    FilledRing();
    FilledOwned();
    FilledEngine();
  }
}
