/** A run that overfills the transmit ring, and what becomes of an overfull ring. Nothing
    but the two readings of TX_HEAD in one call is needed: the calls before it fill the ring
    while no buffer completes. */
module EthTxOverfill {
  import opened EthRings
  import opened EthTx

  // Nothing happens on the device's side.
  const QUIET := Timing([], [], [], [])

  // The oldest buffer completes between the two readings of TX_HEAD.
  const LATE := Timing([], [], [WriteDone(false), AdvanceHead], [])

  // With HEAD at tx_clean the reclaim has nothing to do.
  lemma QuietTested(t: Tx)
    requires Shape(t) && t.head == t.clean
    ensures var u := Tested(t, QUIET); u.(stopped := t.stopped) == t
  {
  }

  // A call while nothing completes and there is room.
  lemma QuietFinish(t: Tx, skb: Skb)
    requires Inv(t) && t.head == t.clean && |t.queue| < RING - 1 && t.pending > 0
    ensures var u := Apply(t, Finish(skb, QUIET));
      u.head == u.clean && |u.queue| == |t.queue| + 1 && u.pending == t.pending - 1
  {
    QuietTested(t);
    EnqueuedEffect(Tested(t, QUIET), skb, []);
  }

  // k calls, one after the other, with no completion.
  function Loading(k: nat): (events: seq<Event>)
    ensures forall i :: 0 <= i < |events| ==> HeadStable(events[i])
  {
    if k == 0 then [] else Loading(k - 1) + [Begin, Finish(k - 1, QUIET)]
  }

  // One transmit call.
  lemma OneCall(t: Tx, skb: Skb, w: Timing)
    requires Shape(t)
    ensures From(t, [Begin, Finish(skb, w)]) == Apply(WithMapping(t), Finish(skb, w))
  {
    var both, first := [Begin, Finish(skb, w)], [Begin];
    assert both[..|both| - 1] == first && first[..|first| - 1] == [];
  }

  // k buffers are queued, none completed, and no call is under way.
  ghost predicate Loaded(t: Tx, k: int) {
    |t.queue| == k && t.head == t.clean && t.pending == 0
  }

  lemma LoadedMore(t: Tx, k: nat)
    requires Inv(t) && Loaded(t, k) && k < RING - 1
    ensures Loaded(From(t, [Begin, Finish(k, QUIET)]), k + 1)
  {
    OneCall(t, k, QUIET);
    QuietFinish(WithMapping(t), k);
  }

  lemma LoadedStep(t: Tx, u: Tx, before: seq<Event>, k: nat)
    requires Shape(t) && u == From(t, before) && Inv(u) && Loaded(u, k) && k < RING - 1
    ensures Loaded(From(t, before + [Begin, Finish(k, QUIET)]), k + 1)
  {
    LoadedMore(u, k);
    FromAppend(t, before, [Begin, Finish(k, QUIET)]);
  }

  lemma {:induction false} LoadedFrom(t: Tx, k: nat)
    requires Good(t) && Loaded(t, 0) && k <= RING - 1
    ensures Good(From(t, Loading(k))) && Loaded(From(t, Loading(k)), k)
    decreases k
  {
    FromKeeps(t, Loading(k));
    if k > 0 {
      LoadedFrom(t, k - 1);
      LoadedStep(t, From(t, Loading(k - 1)), Loading(k - 1), k - 1);
    }
  }

  lemma LoadedRing(k: nat)
    requires k <= RING - 1
    ensures Inv(History(Loading(k))) && Loaded(History(Loading(k)), k)
  {
    EmptyGood();
    LoadedFrom(Empty(), k);
  }

  // One buffer completes.
  lemma OneCompletion(t: Tx)
    requires Shape(t) && t.head != t.prod
    ensures var u := Moves(t, [WriteDone(false), AdvanceHead]);
      u.(desc := t.desc) == t.(head := RingNext(t.head))
  {
    var half, moves := [WriteDone(false)], [WriteDone(false), AdvanceHead];
    assert moves[..|moves| - 1] == half && half[..|half| - 1] == [];
    assert Moves(t, half) == Device(t, WriteDone(false));
  }

  // The late completion is seen by the fullness test only.
  lemma LateOverfills(t: Tx)
    requires Shape(t) && t.prod != t.head == t.clean && |t.queue| == RING - 1
    ensures Overfills(t, LATE)
  {
    OneCompletion(ReclaimAndWake(t, []));
  }

  // A full ring, and the call during which its oldest buffer completes.
  function OverfillRun(): seq<Event> {
    Loading(RING - 1) + [Begin, Finish(RING - 1, LATE)]
  }

  lemma LateCall(t: Tx)
    requires Inv(t) && Loaded(t, RING - 1)
    ensures var u := From(t, [Begin, Finish(RING - 1, LATE)]);
      |u.queue| == RING && Overrun(u) && !Inv(u) && u.accepted == t.accepted + [RING - 1]
  {
    OneCall(t, RING - 1, LATE);
    LateOverfills(WithMapping(t));
    LockedEffect(WithMapping(t), RING - 1, LATE);
  }

  /** There is a run that overfills the ring: after 63 calls with no completion, one more
      call during which the oldest buffer completes is accepted, and all 64 slots are
      occupied. */
  lemma OverfillReached()
    ensures var u := History(OverfillRun());
      && |u.queue| == RING && Overrun(u) && !Inv(u) && Count(u.slots) == RING
      && u.accepted == History(Loading(RING - 1)).accepted + [RING - 1]
  {
    LoadedRing(RING - 1);
    LateCall(History(Loading(RING - 1)));
    FromAppend(Empty(), Loading(RING - 1), [Begin, Finish(RING - 1, LATE)]);
  }

  // n buffers complete.
  function Completing(n: nat): seq<Move> {
    if n == 0 then [] else Completing(n - 1) + [WriteDone(false), AdvanceHead]
  }

  lemma MovesAppend(t: Tx, moves: seq<Move>)
    requires Shape(t)
    ensures Moves(t, moves + [WriteDone(false), AdvanceHead])
         == Moves(Moves(t, moves), [WriteDone(false), AdvanceHead])
  {
    var half, all := moves + [WriteDone(false)], moves + [WriteDone(false), AdvanceHead];
    assert half[..|half| - 1] == moves && all[..|all| - 1] == half;
    var two := [WriteDone(false), AdvanceHead];
    assert two[..1] == [WriteDone(false)] && two[..1][..0] == [];
    var s: Tx := Moves(t, moves);
    assert Moves(s, two[..1]) == Device(s, WriteDone(false));
  }

  // HEAD has moved on by n, and the driver has done nothing.
  ghost predicate Completed(t: Tx, u: Tx, n: int)
    requires 0 <= t.head < RING && 0 <= t.prod < RING
  {
    && u.(desc := t.desc, head := t.head) == t && 0 <= u.head < RING
    && Ahead(u.head, u.prod) == Ahead(t.head, t.prod) - n
  }

  lemma CompletedMore(t: Tx, s: Tx, u: Tx, n: nat)
    requires 0 <= t.head < RING && 0 <= t.prod < RING
    requires Completed(t, s, n) && s.head != s.prod && u.(desc := s.desc) == s.(head := RingNext(s.head))
    ensures Completed(t, u, n + 1)
  {
    OldestLeaves(s.head, s.prod);
  }

  lemma {:induction false} EngineCompletes(t: Tx, n: nat)
    requires Shape(t) && n <= Ahead(t.head, t.prod)
    ensures Completed(t, Moves(t, Completing(n)), n)
    decreases n
  {
    if n > 0 {
      var s: Tx := Moves(t, Completing(n - 1));
      EngineCompletes(t, n - 1);
      MovesAppend(t, Completing(n - 1));
      OneCompletion(s);
      CompletedMore(t, s, Moves(t, Completing(n)), n - 1);
    }
  }

  /** Any overfull ring, once the engine has completed what it has, looks empty: HEAD equals
      tx_clean and tx_prod, the reclaim releases none of the 64 buffers, and the fullness
      test passes although the slot at tx_prod is occupied. */
  lemma FullLooksEmpty(t: Tx)
    requires Overrun(t) && |t.queue| == RING
    ensures var u := Moves(t, Completing(Ahead(t.head, t.prod)));
      && u.head == u.clean == u.prod && u.queue == t.queue
      && Reclaim(u) == u && !Full(u, u.head) && u.slots[u.prod].Some?
  {
    EngineCompletes(t, Ahead(t.head, t.prod));
    MovesKeep(t, Completing(Ahead(t.head, t.prod)));
    var u: Tx := Moves(t, Completing(Ahead(t.head, t.prod)));
    assert Ahead(u.clean, u.clean) == 0;
    assert Holds(u.slots, u.clean, u.queue);
  }

  /** The run as a whole: after the overfilling call and its completions, a reclaim
      releases nothing while 64 buffers are queued. */
  lemma OverfullRingForgotten()
    ensures var u := History(OverfillRun());
      var v := Moves(u, Completing(Ahead(u.head, u.prod)));
      v.head == v.clean && |v.queue| == RING && Reclaim(v) == v && Reclaim(v).released == u.released
  {
    OverfillReached();
    FullLooksEmpty(History(OverfillRun()));
  }
}
