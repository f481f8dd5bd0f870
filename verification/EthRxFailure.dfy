/** What failed reposts lead to: the first switches the receive engine off, which finishes
    at most the completion it was writing; and when all slots are lost a completion can be
    consumed a second time. */
module EthRxFailure {
  import opened Prelude
  import opened EthRings
  import opened EthRx

  /** The receive engine is off, and has written back nothing since r but a completion it
      was writing then. */
  ghost predicate Silent(r: Rx, u: Rx)
    requires Shape(r)
  {
    && !u.on
    && ((u.next == r.next && u.writing == r.writing) || (r.writing && u.next == RingNext(r.next) && !u.writing))
  }

  lemma SilentTransitive(r: Rx, s: Rx, u: Rx)
    requires Shape(r) && Shape(s) && Silent(r, s) && Silent(s, u)
    ensures Silent(r, u)
  {
  }

  lemma {:induction false} MovesSilent(r: Rx, moves: seq<Move>)
    requires Shape(r) && !r.on
    ensures Silent(r, Moves(r, moves))
    decreases |moves|
  {
    if moves != [] {
      MovesSilent(r, moves[..|moves| - 1]);
    }
  }

  lemma StepSilent(r: Rx, turn: Turn)
    requires Inv(r) && !r.on
    ensures Silent(r, Step(r, turn).0)
  {
    MovesKeep(r, turn.moves);
    MovesSilent(r, turn.moves);
    var s: Rx := Moves(r, turn.moves);
    OneEffect(s, turn);
    OneLeaves(s, turn);
  }

  lemma {:induction false} LoopSilent(r: Rx, work: int, advanced: bool, budget: int, turns: int -> Turn)
    requires Inv(r) && !r.on
    ensures Silent(r, Loop(r, work, advanced, budget, turns).0)
    decreases budget - work
  {
    if work < budget {
      StepKeeps(r, turns(work));
      StepSilent(r, turns(work));
      var (s, verdict) := Step(r, turns(work));
      if verdict == Reposted {
        LoopSilent(s, work + 1, true, budget, turns);
        LoopGoesOn(r, s, work, advanced, budget, turns);
        SilentTransitive(r, s, Loop(s, work + 1, true, budget, turns).0);
      } else {
        LoopStops(r, work, advanced, budget, turns);
      }
    }
  }

  lemma ApplySilent(r: Rx, e: Event)
    requires Rest(r) && !r.on
    ensures Silent(r, Apply(r, e))
  {
    match e
    case Engine(move) =>
    case PollCall(budget, turns) => LoopSilent(r, 0, false, budget, turns);
  }

  /** Once a repost has failed nothing but opening the device again gets the engine going:
      whatever polls and engine steps follow, at most the completion that was being written
      at the time is still written back. */
  lemma {:induction false} OffForGood(r: Rx, events: seq<Event>)
    requires Rest(r) && !r.on
    ensures Silent(r, From(r, events))
    decreases |events|
  {
    if events != [] {
      var before := From(r, events[..|events| - 1]);
      OffForGood(r, events[..|events| - 1]);
      FromKeeps(r, events[..|events| - 1]);
      ApplySilent(before, events[|events| - 1]);
      SilentTransitive(r, before, From(r, events));
    }
  }

  // The same answer at every turn.
  function Always(turn: Turn): int -> Turn {
    (k: int) => turn
  }

  const GRANTED := Turn([], true, true, Mapped)

  // No engine step, and the buffer that is to be put back cannot be mapped.
  ghost predicate Refuses(turn: Turn) {
    turn.moves == [] && turn.mapping != Mapped
  }

  // A poll with a budget of one, and no engine step during it.
  lemma PollOnce(r: Rx, turn: Turn)
    requires Inv(r) && turn.moves == []
    ensures var (u, verdict) := One(r, turn);
      Poll(r, 1, Always(turn)).0 == if verdict == Reposted then Publish(u, true) else u
  {
    var turns := Always(turn);
    assert turns(0) == turn && Step(r, turns(0)) == One(r, turn);
    OneVerdict(r, turn);
    if One(r, turn).1 == Reposted {
      LoopGoesOn(r, One(r, turn).0, 0, false, 1, turns);
    } else {
      LoopStops(r, 0, false, 1, turns);
    }
  }

  // k frames of a length, one after the other.
  ghost function Fills(k: nat, length: int): seq<Event>
    decreases k, length
  {
    if k == 0 then [] else Fills(k - 1, length) + [Engine(Take), Engine(WriteBack(false, length))]
  }

  // How many completions wait.
  ghost function Waiting(r: Rx): int
    requires Shape(r)
  {
    Ahead(r.cons, r.next)
  }

  // One frame is received.
  ghost function Received(r: Rx, length: int): (u: Rx)
    requires Shape(r)
    ensures Shape(u)
  {
    Device(Device(r, Take), WriteBack(false, length))
  }

  lemma FillWaits(r: Rx, length: int)
    requires Rest(r) && r.on && !r.writing && Waiting(r) < |r.queue|
    ensures var u := Received(r, length); DriverSame(r, u) && !u.writing && Waiting(u) == Waiting(r) + 1
  {
    assert Ahead(r.cons, r.prod) == |r.queue|;
    HeadAdvances(r.cons, r.next, |r.queue|);
  }

  lemma EngineFills(r: Rx, length: int)
    requires Shape(r)
    ensures From(r, [Engine(Take), Engine(WriteBack(false, length))]) == Received(r, length)
  {
    var events := [Engine(Take), Engine(WriteBack(false, length))];
    assert events[..1] == [Engine(Take)] && events[..1][..0] == [];
    assert From(r, events[..1]) == Device(r, Take);
  }

  // k more completions wait, and the driver has done nothing.
  ghost predicate Waits(r: Rx, u: Rx, k: int)
    requires Shape(r)
  {
    Shape(u) && DriverSame(r, u) && !u.writing && Waiting(u) == Waiting(r) + k
  }

  lemma FillsMore(r: Rx, s: Rx, k: nat, length: int)
    requires Shape(r) && Rest(s) && Waits(r, s, k) && r.on && Waiting(r) + k < |r.queue|
    ensures Waits(r, Received(s, length), k + 1)
  {
    FillWaits(s, length);
  }

  lemma {:induction false} FillsEffect(r: Rx, k: nat, length: int)
    requires Rest(r) && Shape(r) && r.on && !r.writing && Waiting(r) + k <= |r.queue|
    ensures Waits(r, From(r, Fills(k, length)), k)
    decreases k
  {
    if k > 0 {
      var s := From(r, Fills(k - 1, length));
      FillsEffect(r, k - 1, length);
      FromKeeps(r, Fills(k - 1, length));
      FillsMore(r, s, k - 1, length);
      EngineFills(s, length);
      FromAppend(r, Fills(k - 1, length), [Engine(Take), Engine(WriteBack(false, length))]);
    }
  }

  // k polls, none of which can put a buffer back.
  ghost function Fails(k: nat, turn: Turn): seq<Event>
    decreases k, turn
  {
    if k == 0 then [] else Fails(k - 1, turn) + [PollCall(1, Always(turn))]
  }

  // k completions were consumed and no buffer was put back.
  ghost predicate LostSlots(r: Rx, u: Rx, k: int)
    requires Shape(r)
  {
    && Shape(u) && u.failures == r.failures + k && u.reposts == r.reposts && Waiting(u) == Waiting(r) - k
    && u.stale == r.stale && (k > 0 ==> !u.on)
  }

  lemma LostMore(r: Rx, s: Rx, u: Rx, k: nat)
    requires Shape(r) && LostSlots(r, s, k) && LostSlots(s, u, 1)
    ensures LostSlots(r, u, k + 1)
  {
  }

  lemma PollFails(r: Rx, turn: Turn)
    requires Rest(r) && Shape(r) && Waiting(r) > 0 && Refuses(turn)
    ensures LostSlots(r, From(r, [PollCall(1, Always(turn))]), 1)
  {
    assert [PollCall(1, Always(turn))][..0] == [];
    PollOnce(r, turn);
    OneEffect(r, turn);
    OneLeaves(r, turn);
    OldestLeaves(r.cons, r.next);
  }

  lemma PollFailsToo(r: Rx, s: Rx, k: nat, turn: Turn)
    requires Shape(r) && Rest(s) && Shape(s) && LostSlots(r, s, k) && Waiting(r) > k && Refuses(turn)
    ensures LostSlots(r, From(s, [PollCall(1, Always(turn))]), k + 1)
  {
    PollFails(s, turn);
    LostMore(r, s, From(s, [PollCall(1, Always(turn))]), k);
  }

  lemma {:induction false} FailsEffect(r: Rx, k: nat, turn: Turn)
    requires Rest(r) && Shape(r) && Waiting(r) >= k && Refuses(turn)
    ensures LostSlots(r, From(r, Fails(k, turn)), k)
    decreases k
  {
    if k > 0 {
      FailsEffect(r, k - 1, turn);
      FromKeeps(r, Fails(k - 1, turn));
      PollFailsToo(r, From(r, Fails(k - 1, turn)), k - 1, turn);
      FromAppend(r, Fails(k - 1, turn), [PollCall(1, Always(turn))]);
    }
  }

  lemma PollReposts(r: Rx)
    requires Rest(r) && Waiting(r) == 1 && r.on && !r.writing && r.failures == 0 && r.reposts == 0 && !r.stale
    ensures var u := From(r, [PollCall(1, Always(GRANTED))]);
      && Shape(u) && u.failures == 0 && u.reposts == 1 && Waiting(u) == 0 && u.on && !u.writing && !u.stale
  {
    assert [PollCall(1, Always(GRANTED))][..0] == [];
    PollOnce(r, GRANTED);
    OneEffect(r, GRANTED);
    OneLeaves(r, GRANTED);
    OldestLeaves(r.cons, r.next);
  }

  // One frame that is replaced.
  ghost function Replacement(length: int): seq<Event> {
    Fills(1, length) + [PollCall(1, Always(GRANTED))]
  }

  // n frames that wait together, and n polls without a buffer.
  ghost function Losses(n: nat, length: int, turn: Turn): seq<Event> {
    Fills(n, length) + Fails(n, turn)
  }

  // Some buffers have been put back, and no repost has failed.
  ghost predicate Replaced(r: Rx, reposts: int) {
    Rest(r) && r.on && !r.writing && r.failures == 0 && r.reposts == reposts && !r.stale && Waiting(r) == 0
  }

  lemma FilledReplaced()
    ensures Replaced(Filled(), 0)
  {
    FilledRest();
  }

  lemma ReplacementEffect(r: Rx, length: int)
    requires Replaced(r, 0)
    ensures Replaced(From(r, Replacement(length)), 1)
  {
    FillsEffect(r, 1, length);
    FromKeeps(r, Fills(1, length));
    PollReposts(From(r, Fills(1, length)));
    FromAppend(r, Fills(1, length), [PollCall(1, Always(GRANTED))]);
    FromKeeps(r, Replacement(length));
  }

  lemma LossesEffect(r: Rx, n: nat, length: int, turn: Turn)
    requires Replaced(r, 1) && n == |r.queue| && Refuses(turn)
    ensures var u := From(r, Losses(n, length, turn));
      Rest(u) && Stranded(u) && u.failures == POSTED && !u.on && !u.stale
  {
    FillsEffect(r, n, length);
    FromKeeps(r, Fills(n, length));
    FailsEffect(From(r, Fills(n, length)), n, turn);
    FromAppend(r, Fills(n, length), Fails(n, turn));
    FromKeeps(r, Losses(n, length, turn));
  }

  lemma RunStrands(r: Rx, n: nat, length: int, turn: Turn)
    requires Replaced(r, 0) && n == POSTED && Refuses(turn)
    ensures var u := From(r, Replacement(length) + Losses(n, length, turn));
      Rest(u) && Stranded(u) && u.failures == POSTED && !u.on && !u.stale
  {
    ReplacementEffect(r, length);
    LossesEffect(From(r, Replacement(length)), n, length, turn);
    FromAppend(r, Replacement(length), Losses(n, length, turn));
  }

  lemma StrandedPoll(r: Rx, turn: Turn)
    requires Rest(r) && Stranded(r) && Refuses(turn)
    ensures r.desc[r.cons].done && r.slots[r.cons] == None
    ensures From(r, [PollCall(1, Always(turn))]).stale
  {
    assert [PollCall(1, Always(turn))][..0] == [];
    PollOnce(r, turn);
    OneEffect(r, turn);
    OneLeaves(r, turn);
  }

  // One frame that is replaced, 63 that wait together, and 63 polls without a buffer.
  ghost function LossRun(length: int, turn: Turn): seq<Event> {
    Replacement(length) + Losses(POSTED, length, turn)
  }

  // After the run all slots are lost and the next poll takes a descriptor a second time.
  ghost predicate StaleNext(r: Rx, run: seq<Event>, turn: Turn)
    requires Shape(r)
  {
    var u := From(r, run);
    && u.failures == POSTED && !u.on && !u.stale && u.desc[u.cons].done && u.slots[u.cons] == None
    && From(r, run + [PollCall(1, Always(turn))]).stale
  }

  lemma RunStale(r: Rx, run: seq<Event>, length: int, turn: Turn)
    requires Replaced(r, 0) && run == LossRun(length, turn) && Refuses(turn)
    ensures StaleNext(r, run, turn)
  {
    RunStrands(r, POSTED, length, turn);
    StrandedPoll(From(r, run), turn);
    FromAppend(r, run, [PollCall(1, Always(turn))]);
  }

  /** There is a run in which a completion is consumed a second time. From its first
      failed repost on the engine is off and the run has polls only; when all 63 slots are
      lost, the descriptor of the first frame is still marked DONE at rx_cons, and the next
      poll takes it for a new frame in a slot without a buffer. */
  lemma StaleReached(run: seq<Event>, length: int, turn: Turn)
    requires run == LossRun(length, turn) && Refuses(turn)
    ensures StaleNext(Filled(), run, turn)
  {
    FilledReplaced();
    RunStale(Filled(), run, length, turn);
  }
}
