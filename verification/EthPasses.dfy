/** How many passes of the poll function the driver's own scheduling makes, and that a
    failed repost with nothing else announced is the last of them. */
module EthPasses {
  import opened EthHandshake

  // The steps that are left when CTRL is zero: a completion that is owed a cause gets it,
  // and nothing new becomes visible.
  predicate Owing(s: State, t: State) {
    s.owed && exists c: nat :: c < 4 && t == s.(owed := false, status := s.status + {c})
  }

  predicate AnyStep(s: State, t: State, budget: nat) {
    Step(s, t, budget) || FailedRepost(s, t, budget)
  }

  predicate OffStep(s: State, t: State, budget: nat) {
    || Owing(s, t) || HandlerStep(s, t) || PollStep(s, t, budget) || TailStep(s, t) || TransmitStep(s, t)
    || FailedRepost(s, t, budget)
  }

  ghost predicate AnyRun(states: seq<State>, budget: nat) {
    states != [] && forall k :: 0 < k < |states| ==> AnyStep(states[k - 1], states[k], budget)
  }

  ghost predicate OffRun(states: seq<State>, budget: nat) {
    states != [] && forall k :: 0 < k < |states| ==> OffStep(states[k - 1], states[k], budget)
  }

  // What a step may be: a pass begins; the handler is entered; a check finds IRQ_STATUS
  // set; a pass ends with its budget used up and keeps the schedule bit; a completion
  // becomes visible.
  datatype Kind = Begins | Enters | Finds | Exhausts | Appears

  predicate Is(s: State, t: State, kind: Kind) {
    match kind
    case Begins => s.poll == Waiting && t.poll == ReadHead
    case Enters => s.handler == Quiet && t.handler != Quiet
    case Finds => t.disabling > s.disabling
    case Exhausts => s.poll.Receive? && t.poll == Waiting
    case Appears => t.rxDone > s.rxDone || t.txHead > s.txHead
  }

  function Tally(s: State, t: State, kind: Kind): nat {
    One(Is(s, t, kind))
  }

  // How many steps of a run are of a kind.
  function Times(states: seq<State>, kind: Kind): nat {
    if |states| <= 1 then 0
    else Times(states[..|states| - 1], kind) + Tally(states[|states| - 2], states[|states| - 1], kind)
  }

  function One(b: bool): nat {
    if b then 1 else 0
  }

  // Passes that are due: announced or about to be.
  function Due(s: State): nat {
    One(s.scheduled && s.poll == Waiting) + One(s.missed) + One(s.handler != Quiet) + s.disabling + s.scheduling
  }

  // What a step pays with.
  function Pay(s: State, t: State): nat {
    Tally(s, t, Enters) + Tally(s, t, Finds) + Tally(s, t, Exhausts)
  }

  lemma PollDue(s: State, t: State, budget: nat)
    requires PollStep(s, t, budget)
    ensures Tally(s, t, Begins) + Due(t) <= Due(s) + Pay(s, t)
  {
  }

  lemma FailedDue(s: State, t: State, budget: nat)
    requires FailedRepost(s, t, budget)
    ensures Tally(s, t, Begins) + Due(t) <= Due(s) + Pay(s, t)
  {
  }

  lemma HandlerDue(s: State, t: State)
    requires HandlerStep(s, t)
    ensures Tally(s, t, Begins) + Due(t) <= Due(s) + Pay(s, t)
  {
  }

  lemma ScheduleDue(s: State)
    ensures var t := Schedule(s);
      t.poll == s.poll && t.handler == s.handler && t.disabling == s.disabling && t.scheduling == s.scheduling
      && Due(t) <= Due(s) + 1
  {
  }

  lemma TailDue(s: State, t: State)
    requires TailStep(s, t)
    ensures Tally(s, t, Begins) + Due(t) <= Due(s) + Pay(s, t)
  {
    if s.scheduling > 0 && t == Schedule(s.(scheduling := s.scheduling - 1)) {
      ScheduleDue(s.(scheduling := s.scheduling - 1));
    }
  }

  lemma DuePays(s: State, t: State, budget: nat)
    requires AnyStep(s, t, budget)
    ensures Tally(s, t, Begins) + Due(t) <= Due(s) + Pay(s, t)
  {
    if PollStep(s, t, budget) {
      PollDue(s, t, budget);
    } else if FailedRepost(s, t, budget) {
      FailedDue(s, t, budget);
    } else if HandlerStep(s, t) {
      HandlerDue(s, t);
    } else if TailStep(s, t) {
      TailDue(s, t);
    }
  }

  /** Over every run: each pass was due at the start, or is paid for by an entry of the
      handler, by a check that finds IRQ_STATUS set, or by a pass that used up its budget. */
  lemma {:induction false} PassesPaid(states: seq<State>, budget: nat)
    requires AnyRun(states, budget)
    ensures Times(states, Begins) + Due(states[|states| - 1])
         <= Due(states[0]) + Times(states, Enters) + Times(states, Finds) + Times(states, Exhausts)
    decreases |states|
  {
    if |states| > 1 {
      PassesPaid(states[..|states| - 1], budget);
      DuePays(states[|states| - 2], states[|states| - 1], budget);
    }
  }

  // What a pass has consumed so far.
  function InHand(s: State): nat {
    if s.poll.Receive? then s.poll.work else 0
  }

  // What the passes consumed that used up their budget.
  function Spent(states: seq<State>, budget: nat): nat {
    if |states| <= 1 then 0
    else
      var used := if Is(states[|states| - 2], states[|states| - 1], Exhausts) then budget else 0;
      Spent(states[..|states| - 1], budget) + used
  }

  lemma {:induction false} SpentIs(states: seq<State>, budget: nat)
    ensures Spent(states, budget) == budget * Times(states, Exhausts)
    decreases |states|
  {
    if |states| > 1 {
      SpentIs(states[..|states| - 1], budget);
      var n := Times(states[..|states| - 1], Exhausts);
      assert budget * (n + 1) == budget * n + budget;
    }
  }

  lemma BudgetPays(s: State, t: State, budget: nat)
    requires AnyStep(s, t, budget)
    ensures t.rxCons >= s.rxCons
    ensures InHand(t) + (if Is(s, t, Exhausts) then budget else 0) <= InHand(s) + (t.rxCons - s.rxCons)
  {
    if PollStep(s, t, budget) || FailedRepost(s, t, budget) {
      PollConsumes(s, t, budget);
    } else {
      assert t.poll == s.poll && t.rxCons == s.rxCons;
    }
  }

  lemma PollConsumes(s: State, t: State, budget: nat)
    requires PollStep(s, t, budget) || FailedRepost(s, t, budget)
    ensures t.rxCons >= s.rxCons
    ensures InHand(t) + (if Is(s, t, Exhausts) then budget else 0) <= InHand(s) + (t.rxCons - s.rxCons)
  {
  }

  lemma {:induction false} BudgetsHeld(states: seq<State>, budget: nat)
    requires AnyRun(states, budget)
    ensures states[0].rxCons <= states[|states| - 1].rxCons
    ensures InHand(states[|states| - 1]) + Spent(states, budget)
         <= InHand(states[0]) + states[|states| - 1].rxCons - states[0].rxCons
    decreases |states|
  {
    if |states| > 1 {
      BudgetsHeld(states[..|states| - 1], budget);
      BudgetPays(states[|states| - 2], states[|states| - 1], budget);
    }
  }

  /** A pass that uses up its budget has consumed that many completions. */
  lemma BudgetsPaid(states: seq<State>, budget: nat)
    requires AnyRun(states, budget)
    ensures states[0].rxCons <= states[|states| - 1].rxCons
    ensures budget * Times(states, Exhausts) <= InHand(states[0]) + states[|states| - 1].rxCons - states[0].rxCons
  {
    BudgetsHeld(states, budget);
    SpentIs(states, budget);
  }

  // Causes that the handler has read and not yet cleared.
  function Reading(s: State): Causes {
    if s.handler.Read? then s.handler.cause else {}
  }

  // Entries of the handler that are due.
  function Raised(s: State): nat {
    One(s.status - Reading(s) != {}) + One(s.owed)
  }

  lemma HandlerRaised(s: State, t: State)
    requires HandlerStep(s, t)
    ensures Tally(s, t, Enters) + Raised(t) <= Raised(s)
  {
    assert s.handler.Read? ==> t.status - {} == s.status - s.handler.cause;
  }

  lemma DeviceRaised(s: State, t: State)
    requires DeviceStep(s, t)
    ensures Tally(s, t, Enters) + Raised(t) <= Raised(s) + Tally(s, t, Appears)
  {
  }

  // Causes, the handler and the rings' completions are the same.
  predicate SameRaised(s: State, t: State) {
    t.handler == s.handler && t.status == s.status && t.owed == s.owed && t.rxDone == s.rxDone && t.txHead == s.txHead
  }

  lemma PollRaised(s: State, t: State, budget: nat)
    requires PollStep(s, t, budget) || FailedRepost(s, t, budget)
    ensures SameRaised(s, t)
  {
  }

  lemma TailRaised(s: State, t: State)
    requires TailStep(s, t) || TransmitStep(s, t)
    ensures SameRaised(s, t)
  {
  }

  lemma OthersRaised(s: State, t: State, budget: nat)
    requires PollStep(s, t, budget) || TailStep(s, t) || TransmitStep(s, t) || FailedRepost(s, t, budget)
    ensures SameRaised(s, t)
  {
    if PollStep(s, t, budget) || FailedRepost(s, t, budget) {
      PollRaised(s, t, budget);
    } else {
      TailRaised(s, t);
    }
  }

  lemma RaisedPays(s: State, t: State, budget: nat)
    requires AnyStep(s, t, budget)
    ensures Tally(s, t, Enters) + Raised(t) <= Raised(s) + Tally(s, t, Appears)
  {
    if HandlerStep(s, t) {
      HandlerRaised(s, t);
    } else if DeviceStep(s, t) {
      DeviceRaised(s, t);
    } else {
      OthersRaised(s, t, budget);
    }
  }

  /** The handler is entered for what was raised at the start, and once for each completion
      that becomes visible. */
  lemma {:induction false} EntriesPaid(states: seq<State>, budget: nat)
    requires AnyRun(states, budget)
    ensures Times(states, Enters) + Raised(states[|states| - 1]) <= Raised(states[0]) + Times(states, Appears)
    decreases |states|
  {
    if |states| > 1 {
      EntriesPaid(states[..|states| - 1], budget);
      RaisedPays(states[|states| - 2], states[|states| - 1], budget);
    }
  }

  lemma OffStepIsStep(s: State, t: State, budget: nat)
    requires OffStep(s, t, budget)
    ensures AnyStep(s, t, budget) && !Is(s, t, Appears)
  {
    if Owing(s, t) {
      assert DeviceStep(s, t);
    } else if !HandlerStep(s, t) {
      OthersRaised(s, t, budget);
    }
  }

  lemma {:induction false} NothingAppears(states: seq<State>, budget: nat)
    requires OffRun(states, budget)
    ensures AnyRun(states, budget) && Times(states, Appears) == 0
    decreases |states|
  {
    if |states| > 1 {
      NothingAppears(states[..|states| - 1], budget);
      OffStepIsStep(states[|states| - 2], states[|states| - 1], budget);
      forall k | 0 < k < |states| ensures AnyStep(states[k - 1], states[k], budget) {
        OffStepIsStep(states[k - 1], states[k], budget);
      }
    }
  }

  predicate Silent(s: State) {
    s.status == {} && !s.owed
  }

  lemma SilentStays(s: State, t: State, budget: nat)
    requires OffStep(s, t, budget) && Silent(s)
    ensures Silent(t) && !Is(s, t, Finds)
  {
    if HandlerStep(s, t) {
      assert s.handler.Read? ==> t.status == {} - s.handler.cause;
    } else {
      OthersRaised(s, t, budget);
    }
  }

  lemma {:induction false} NothingFound(states: seq<State>, budget: nat)
    requires OffRun(states, budget) && Silent(states[0])
    ensures Silent(states[|states| - 1]) && Times(states, Finds) == 0
    decreases |states|
  {
    if |states| > 1 {
      NothingFound(states[..|states| - 1], budget);
      SilentStays(states[|states| - 2], states[|states| - 1], budget);
    }
  }

  /** With CTRL zero, whatever is reposted and whatever is not: the driver's own scheduling
      makes no more passes than were due, two for what had been raised, one for each check
      that finds IRQ_STATUS still set, and one for each budget's worth of completions that
      it consumes; and when nothing is raised no check finds it set. */
  lemma OffPasses(states: seq<State>, budget: nat)
    requires OffRun(states, budget)
    ensures Times(states, Begins)
         <= Due(states[0]) + Raised(states[0]) + Times(states, Finds) + Times(states, Exhausts)
    ensures budget * Times(states, Exhausts) <= InHand(states[0]) + states[|states| - 1].rxCons - states[0].rxCons
    ensures Silent(states[0]) ==> Raised(states[0]) == Times(states, Finds) == 0
  {
    NothingAppears(states, budget);
    PassesPaid(states, budget);
    EntriesPaid(states, budget);
    BudgetsPaid(states, budget);
    if Silent(states[0]) {
      NothingFound(states, budget);
    }
  }

  // The pass is over or about to be, and nothing will begin another.
  predicate Finished(s: State) {
    Silent(s) && Due(s) == 0 && (s.poll == Complete || s.poll == Waiting)
  }

  lemma FinishedStays(s: State, t: State, budget: nat)
    requires OffStep(s, t, budget) && Finished(s)
    ensures Finished(t) && t.rxCons == s.rxCons && t.rxDone == s.rxDone
  {
  }

  /** A failed repost that leaves budget, while nothing else is announced, ends the last
      pass: with CTRL zero no completion is consumed after it, whether or not any waits. */
  lemma {:induction false} LastPass(s: State, states: seq<State>, budget: nat)
    requires OffRun(states, budget) && FailedRepost(s, states[0], budget)
    requires s.poll.work + 1 < budget && !Alerted(s)
    ensures Finished(states[|states| - 1]) && states[|states| - 1].rxCons == states[0].rxCons
    decreases |states|
  {
    if |states| > 1 {
      LastPass(s, states[..|states| - 1], budget);
      FinishedStays(states[|states| - 2], states[|states| - 1], budget);
    }
  }

  lemma TimesMore(states: seq<State>, t: State, kind: Kind)
    requires states != []
    ensures Times(states + [t], kind) == Times(states, kind) + Tally(states[|states| - 1], t, kind)
  {
    assert (states + [t])[..|states|] == states;
  }

  // One more step of a run.
  lemma Further(states: seq<State>, t: State, budget: nat)
    requires OffRun(states, budget) && OffStep(states[|states| - 1], t, budget)
    ensures OffRun(states + [t], budget)
    ensures Times(states + [t], Begins) == Times(states, Begins) + Tally(states[|states| - 1], t, Begins)
  {
    TimesMore(states, t, Begins);
    var all := states + [t];
    forall k | 0 < k < |all| ensures OffStep(all[k - 1], all[k], budget) {
      if k < |states| {
        assert all[k - 1] == states[k - 1] && all[k] == states[k];
      } else {
        assert all[k - 1] == states[|states| - 1] && all[k] == t;
      }
    }
  }

  // A run in which n passes have each failed to repost one buffer.
  ghost predicate Failing(s: State, states: seq<State>, n: nat) {
    && OffRun(states, 1) && states[0] == s && Times(states, Begins) == n
    && var t := states[|states| - 1];
       t.poll == Waiting && t.scheduled && t.rxCons == s.rxCons + n && t.rxDone == s.rxDone
  }

  // One such pass.
  lemma FailingPass(t: State) returns (a: State, b: State, c: State, d: State)
    requires t.poll == Waiting && t.scheduled && t.rxCons < t.rxDone
    ensures OffStep(t, a, 1) && OffStep(a, b, 1) && OffStep(b, c, 1) && OffStep(c, d, 1)
    ensures Is(t, a, Begins) && a.poll != Waiting && b.poll != Waiting && c.poll != Waiting
    ensures d.poll == Waiting && d.scheduled && d.rxCons == t.rxCons + 1 && d.rxDone == t.rxDone
  {
    a := t.(poll := ReadHead);
    b := a.(poll := Reclaim(a.txHead));
    c := b.(poll := Receive(0), txClean := if b.txClean < a.txHead then a.txHead else b.txClean);
    d := c.(poll := Waiting, rxCons := c.rxCons + 1);
    assert FailedRepost(c, d, 1);
  }

  lemma FailingMore(s: State, states: seq<State>, n: nat) returns (more: seq<State>)
    requires Failing(s, states, n) && s.rxCons + n < s.rxDone
    ensures Failing(s, more, n + 1)
  {
    var a, b, c, d := FailingPass(states[|states| - 1]);
    Further(states, a, 1);
    Further(states + [a], b, 1);
    Further(states + [a] + [b], c, 1);
    Further(states + [a] + [b] + [c], d, 1);
    more := states + [a] + [b] + [c] + [d];
  }

  /** The bound is met: with a budget of one every waiting completion can cost a pass, each
      with a failed repost that leaves the schedule bit set. */
  lemma {:induction false} BudgetOfOne(s: State, n: nat) returns (states: seq<State>)
    requires s.poll == Waiting && s.scheduled && s.rxCons + n <= s.rxDone
    ensures Failing(s, states, n)
  {
    if n == 0 {
      states := [s];
    } else {
      states := BudgetOfOne(s, n - 1);
      states := FailingMore(s, states, n - 1);
    }
  }
}
