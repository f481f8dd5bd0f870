/** One turn of the receive poll field by field, with the driver's constants written out:
    64 slots, and buffers of 2048 bytes. */
module EthRxExact {
  import opened Prelude
  import opened EthRings
  import opened EthRx

  // A turn that finds a completion and a buffer in its slot.
  ghost predicate Takes(r: Rx)
    requires Shape(r)
  {
    r.desc[r.cons].done && r.slots[r.cons].Some?
  }

  /** A frame received in error, or longer than its buffer, is counted in rx_errors, and
      nothing is delivered; any other leaves rx_errors alone, and is delivered with the
      length the engine wrote, or kept out when no other buffer is to be had. rx_dropped
      counts the frames kept out and the buffers that could not be put back. */
  lemma FrameFate(r: Rx, turn: Turn)
    requires Shape(r) && Takes(r)
    ensures var (u, verdict) := One(r, turn);
      var status, skb := r.desc[r.cons], r.slots[r.cons].value;
      var bad := status.error || status.actual > 2048;
      && (bad ==> u.errors == r.errors + 1 && u.delivered == r.delivered)
      && (!bad ==> u.errors == r.errors)
      && (!bad && turn.first ==> u.delivered == r.delivered + [Frame(skb, status.actual)])
      && (!bad && !turn.first ==> u.delivered == r.delivered)
      && u.dropped == r.dropped + (if !bad && !turn.first then 1 else 0) + (if verdict == Failed then 1 else 0)
  {
  }

  // The buffer that a turn wants to put back: a new one, or the one it kept.
  ghost function Back(r: Rx, turn: Turn): Option<Skb>
    requires Shape(r) && Takes(r)
  {
    var status := r.desc[r.cons];
    var bad := status.error || status.actual > 2048;
    if turn.first || (bad && turn.second) then Some(r.issued)
    else if bad then None
    else r.slots[r.cons]
  }

  /** Which buffer goes back, into which slot, and what is freed. A second allocation is
      tried only for a bad frame whose first one failed. */
  lemma BufferFate(r: Rx, turn: Turn)
    requires Shape(r) && Takes(r)
    ensures var (u, verdict) := One(r, turn);
      var status, skb := r.desc[r.cons], r.slots[r.cons].value;
      var bad := status.error || status.actual > 2048;
      var back, freed := Back(r, turn), if bad then [skb] else [];
      && (verdict == Failed <==> turn.mapping != Mapped || (bad && !turn.first && !turn.second))
      && (verdict == Reposted <==> verdict != Failed)
      && u.issued == r.issued + (if turn.first || (bad && turn.second) then 1 else 0)
      && (verdict == Reposted ==> u.freed == r.freed + freed)
      && (verdict == Failed ==> u.freed == r.freed + freed + (if back.Some? then [back.value] else []))
  {
  }

  // The fields of the ring after a turn that put `skb` back.
  lemma RepostFields(r: Rx, turn: Turn)
    requires Shape(r) && Takes(r) && One(r, turn).1 == Reposted
    ensures var u, back := One(r, turn).0, Back(r, turn);
      && back.Some? && u.slots == r.slots[r.cons := None][r.prod := back]
      && u.desc == r.desc[r.prod := Status(false, false, 0)]
      && u.cons == (r.cons + 1) % 64 && u.prod == (r.prod + 1) % 64
      && u.maps == r.maps && u.on == r.on && u.posted == r.posted + [back.value]
  {
  }

  // The fields of the ring after a turn that put no buffer back.
  lemma FailFields(r: Rx, turn: Turn)
    requires Shape(r) && Takes(r) && One(r, turn).1 == Failed
    ensures var u := One(r, turn).0;
      && u.slots == r.slots[r.cons := None] && u.desc == r.desc
      && u.cons == (r.cons + 1) % 64 && u.prod == r.prod
      && u.maps == r.maps - 1 && !u.on && u.posted == r.posted
  {
  }

  // When a turn does nothing.
  lemma TurnStops(r: Rx, turn: Turn)
    requires Shape(r)
    ensures var (u, verdict) := One(r, turn);
      && (verdict == Nothing <==> !r.desc[r.cons].done) && (verdict == Nothing ==> u == r)
      && (verdict == Stale <==> r.desc[r.cons].done && r.slots[r.cons].None?)
      && (verdict == Stale ==> u == r.(stale := true))
  {
  }

  // A poll with part of its budget left, no failed repost and no stale slot has found a
  // descriptor that is not done.
  ghost predicate RanOut(r: Rx, u: Rx, work: int, budget: int) {
    0 <= u.cons < |u.desc| && (work < budget && u.failures == r.failures && u.stale == r.stale ==> !u.desc[u.cons].done)
  }

  lemma StepCounts(r: Rx, turn: Turn)
    requires Shape(r)
    ensures var (u, verdict) := Step(r, turn);
      && u.failures == r.failures + (if verdict == Failed then 1 else 0)
      && (verdict == Stale ==> u.stale) && (r.stale ==> u.stale) && (verdict == Reposted ==> u.stale == r.stale)
      && (verdict == Nothing ==> !u.desc[u.cons].done)
  {
  }

  lemma {:induction false} LoopRanOut(r: Rx, work: int, advanced: bool, budget: int, turns: int -> Turn)
    requires Shape(r) && !r.stale
    ensures var (u, done, _) := Loop(r, work, advanced, budget, turns);
      u.failures >= r.failures && RanOut(r, u, done, budget)
    decreases budget - work
  {
    if work < budget {
      var (s, verdict) := Step(r, turns(work));
      StepCounts(r, turns(work));
      if verdict == Reposted {
        LoopRanOut(s, work + 1, true, budget, turns);
        LoopGoesOn(r, s, work, advanced, budget, turns);
      } else {
        LoopStops(r, work, advanced, budget, turns);
      }
    }
  }

  lemma LoopIsPoll(r: Rx, budget: int, turns: int -> Turn)
    requires Shape(r)
    ensures var (u, work), (s, done, advanced) := Poll(r, budget, turns), Loop(r, 0, false, budget, turns);
      work == done && u.failures == s.failures && u.stale == s.stale && u.cons == s.cons && u.desc == s.desc
  {
  }

  /** A poll does not stop early: with budget left, it has come to a descriptor that the
      engine has not written back, or it could put no buffer back, or all slots are lost. */
  lemma PollRunsOut(r: Rx, budget: int, turns: int -> Turn)
    requires Rest(r) && !r.stale && budget >= 0
    ensures var (u, work) := Poll(r, budget, turns);
      work < budget && u.failures == r.failures && !u.stale ==> !u.desc[u.cons].done && u.next == u.cons
  {
    var (u, work) := Poll(r, budget, turns);
    LoopRanOut(r, 0, false, budget, turns);
    LoopIsPoll(r, budget, turns);
    PollEffect(r, budget, turns);
    if !u.desc[u.cons].done {
      Unwritten(u);
    }
  }

  // A descriptor that is not done is the next one the engine writes.
  lemma Unwritten(u: Rx)
    requires Inv(u) && !u.desc[u.cons].done
    ensures u.next == u.cons
  {
    assert Ahead(u.cons, u.cons) == 0;
  }
}
