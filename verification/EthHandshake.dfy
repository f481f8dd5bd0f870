/** Interrupts, NAPI and the descriptor engine, one step at a time. */
module EthHandshake {

  // Interrupt causes: TX_DONE, TX_ERR, RX_DONE, RX_ERR.
  type Causes = set<nat>

  // Where the poll function of the instance that owns the schedule bit stands.
  datatype Poll =
    | Waiting                // scheduled or idle, not running
    | ReadHead               // about to read TX_HEAD in the reclaim
    | Reclaim(head: nat)     // has read TX_HEAD
    | Receive(work: nat)     // in the receive loop
    | Complete               // about to call napi_complete_done

  // Where the interrupt handler stands.
  datatype Handler =
    | Quiet
    | Read(cause: Causes)    // has read a non-zero IRQ_STATUS
    | Cleared                // has written the cause back
    | Disabled               // has written IRQ_ENABLE = 0, about to schedule

  /** Rings count completions from the start, so an index is the count modulo the
      ring size. A poll function that has given up the schedule bit may still be in
      its last four register accesses while a new one runs: `enabling`, `checking`,
      `disabling` and `scheduling` count such tails. */
  datatype State = State(
    txHead: nat,             // transmit descriptors TX_HEAD has passed
    txClean: nat,            // transmit descriptors reclaimed
    rxDone: nat,             // receive descriptors written back with DONE
    rxCons: nat,             // receive descriptors consumed
    owed: bool,              // a completion is visible, its IRQ_STATUS bit not yet set
    status: Causes,          // IRQ_STATUS
    enabled: bool,           // IRQ_ENABLE is all ones rather than zero
    scheduled: bool,         // the NAPI schedule bit
    missed: bool,            // napi_schedule was called while it was set
    poll: Poll,
    handler: Handler,
    enabling: nat, checking: nat, disabling: nat, scheduling: nat)

  function Schedule(s: State): State {
    if s.scheduled then s.(missed := true) else s.(scheduled := true)
  }

  predicate Initial(s: State) {
    && s.txHead == s.txClean == s.rxDone == s.rxCons == 0
    && !s.owed && s.status == {} && s.enabled && !s.scheduled && !s.missed
    && s.poll == Waiting && s.handler == Quiet
    && s.enabling == s.checking == s.disabling == s.scheduling == 0
  }

  // The descriptor engine: a completion becomes visible, then its cause is raised.
  predicate DeviceStep(s: State, t: State) {
    || t == s.(txHead := s.txHead + 1, owed := true)
    || t == s.(rxDone := s.rxDone + 1, owed := true)
    || (s.owed && exists c: nat :: c < 4 && t == s.(owed := false, status := s.status + {c}))
  }

  predicate HandlerStep(s: State, t: State) {
    match s.handler
    case Quiet => s.status != {} && t == s.(handler := Read(s.status))
    case Read(cause) => t == s.(handler := Cleared, status := s.status - cause)
    case Cleared => t == s.(handler := Disabled, enabled := false)
    case Disabled => t == Schedule(s.(handler := Quiet))
  }

  predicate PollStep(s: State, t: State, budget: nat) {
    match s.poll
    case Waiting => s.scheduled && t == s.(poll := ReadHead)
    case ReadHead => t == s.(poll := Reclaim(s.txHead))
    case Reclaim(head) => t == s.(poll := Receive(0), txClean := if s.txClean < head then head else s.txClean)
    case Receive(work) =>
      if work >= budget then t == s.(poll := Waiting)
      else if s.rxCons < s.rxDone then t == s.(poll := Receive(work + 1), rxCons := s.rxCons + 1)
      else t == s.(poll := Complete)
    case Complete =>
      if s.missed then t == s.(poll := Waiting, missed := false)
      else t == s.(poll := Waiting, scheduled := false, enabling := s.enabling + 1)
  }

  // A poll function past napi_complete_done.
  predicate TailStep(s: State, t: State) {
    || (s.enabling > 0 && t == s.(enabling := s.enabling - 1, enabled := true, checking := s.checking + 1))
    || (s.checking > 0 && s.status == {} && t == s.(checking := s.checking - 1))
    || (s.checking > 0 && s.status != {} && t == s.(checking := s.checking - 1, disabling := s.disabling + 1))
    || (s.disabling > 0 && t == s.(disabling := s.disabling - 1, enabled := false, scheduling := s.scheduling + 1))
    || (s.scheduling > 0 && t == Schedule(s.(scheduling := s.scheduling - 1)))
  }

  // The transmit path reclaims too; the lock keeps it out of the poll's reclaim.
  predicate TransmitStep(s: State, t: State) {
    !s.poll.Reclaim? && s.txClean <= s.txHead && t == s.(txClean := s.txHead)
  }

  predicate Step(s: State, t: State, budget: nat) {
    || DeviceStep(s, t) || HandlerStep(s, t) || PollStep(s, t, budget) || TailStep(s, t) || TransmitStep(s, t)
  }

  /** A receive buffer that could not be reposted ends the receive loop, whether or
      not more completions are waiting. */
  predicate FailedRepost(s: State, t: State, budget: nat) {
    && s.poll.Receive? && s.poll.work < budget && s.rxCons < s.rxDone
    && t == s.(rxCons := s.rxCons + 1, poll := if s.poll.work + 1 < budget then Complete else Waiting)
  }

  // Something will lead to another full pass of the poll function.
  predicate Alerted(s: State) {
    s.status != {} || s.owed || s.missed || s.handler != Quiet || s.disabling > 0 || s.scheduling > 0
  }

  // The running pass has yet to look at TX completions numbered from here on.
  predicate TxUnwatched(s: State) {
    match s.poll
    case Waiting => !s.scheduled && s.txClean < s.txHead
    case ReadHead => false
    case Reclaim(head) => head < s.txHead
    case _ => s.txClean < s.txHead
  }

  predicate RxUnwatched(s: State) {
    s.rxCons < s.rxDone && (s.poll == Complete || (s.poll == Waiting && !s.scheduled))
  }

  predicate Safe(s: State) {
    && (s.poll != Waiting ==> s.scheduled)
    && (s.missed ==> s.scheduled)
    && s.txClean <= s.txHead && s.rxCons <= s.rxDone
    && (s.poll.Reclaim? ==> s.txClean <= s.poll.head <= s.txHead)
    && (TxUnwatched(s) || RxUnwatched(s) ==> Alerted(s))
    && (!s.enabled ==> s.scheduled || s.handler == Disabled || s.enabling > 0 || s.scheduling > 0)
  }

  lemma InitialSafe(s: State)
    requires Initial(s)
    ensures Safe(s)
  {
  }

  lemma DeviceKeepsSafe(s: State, t: State)
    requires Safe(s) && DeviceStep(s, t)
    ensures Safe(t)
  {
    assert t.owed || t.status != {};
  }

  lemma HandlerKeepsSafe(s: State, t: State)
    requires Safe(s) && HandlerStep(s, t)
    ensures Safe(t)
  {
  }

  lemma PollKeepsSafe(s: State, t: State, budget: nat)
    requires Safe(s) && PollStep(s, t, budget)
    ensures Safe(t)
  {
  }

  lemma TailKeepsSafe(s: State, t: State)
    requires Safe(s) && TailStep(s, t)
    ensures Safe(t)
  {
  }

  lemma StepKeepsSafe(s: State, t: State, budget: nat)
    requires Safe(s) && Step(s, t, budget)
    ensures Safe(t)
  {
    if DeviceStep(s, t) {
      DeviceKeepsSafe(s, t);
    } else if HandlerStep(s, t) {
      HandlerKeepsSafe(s, t);
    } else if PollStep(s, t, budget) {
      PollKeepsSafe(s, t, budget);
    } else if TailStep(s, t) {
      TailKeepsSafe(s, t);
    }
  }

  predicate Steps(states: seq<State>, budget: nat) {
    |states| > 0 && forall k :: 0 < k < |states| ==> Step(states[k - 1], states[k], budget)
  }

  lemma {:induction false} StepsSafe(states: seq<State>, budget: nat, k: nat)
    requires Steps(states, budget) && Safe(states[0]) && k < |states|
    ensures Safe(states[k])
    decreases k
  {
    if k > 0 {
      StepsSafe(states, budget, k - 1);
      StepKeepsSafe(states[k - 1], states[k], budget);
    }
  }

  predicate Unconsumed(s: State) {
    s.txClean < s.txHead || s.rxCons < s.rxDone
  }

  // No driver code is running and none is due to run.
  predicate AtRest(s: State) {
    !s.scheduled && s.handler == Quiet && s.enabling == s.checking == s.disabling == s.scheduling == 0
  }

  /** Over every interleaving without a failed repost: an unconsumed completion means
      that NAPI is scheduled or running, that someone is about to schedule it, that
      IRQ_STATUS is set, or that the device is about to set it; and when the driver is
      at rest its interrupts are enabled. */
  lemma NoLostCompletion(states: seq<State>, budget: nat, k: nat)
    requires Steps(states, budget) && Initial(states[0]) && k < |states|
    ensures var s := states[k];
      && (Unconsumed(s) ==> s.scheduled || Alerted(s))
      && (AtRest(s) ==> s.enabled && (Unconsumed(s) ==> s.status != {} || s.owed))
  {
    InitialSafe(states[0]);
    StepsSafe(states, budget, k);
  }

  // A completion waits and nothing the driver or the device has begun will announce it.
  predicate Lost(s: State) {
    AtRest(s) && Unconsumed(s) && s.status == {} && !s.owed
  }

  predicate EndsLost(states: seq<State>, start: State, budget: nat) {
    Steps(states, budget) && states[0] == start && Lost(states[|states| - 1])
  }

  lemma FailedRepostSafe(s: State, t: State, budget: nat)
    requires Safe(s) && FailedRepost(s, t, budget)
    requires s.poll.work + 1 >= budget || s.rxCons + 1 == s.rxDone || Alerted(s)
    ensures Safe(t)
  {
    assert Alerted(t) <==> Alerted(s);
    assert TxUnwatched(t) ==> TxUnwatched(s);
  }

  // One step ahead of a sequence of steps.
  lemma StepAhead(s: State, rest: seq<State>, budget: nat) returns (states: seq<State>)
    requires Steps(rest, budget) && Step(s, rest[0], budget)
    ensures Steps(states, budget) && states[0] == s && states[|states| - 1] == rest[|rest| - 1]
  {
    states := [s] + rest;
    forall k | 0 < k < |states| ensures Step(states[k - 1], states[k], budget) {
      assert states[k] == rest[k - 1];
    }
  }

  /** Poll functions past napi_complete_done that find IRQ_STATUS empty end one by
      one, and none of them looks at the rings again. */
  lemma {:induction false} TailsEnd(s: State, budget: nat) returns (states: seq<State>)
    requires !s.scheduled && s.handler == Quiet && s.disabling == s.scheduling == 0
    requires Unconsumed(s) && s.status == {} && !s.owed
    ensures EndsLost(states, s, budget)
    decreases 2 * s.enabling + s.checking
  {
    if s.enabling > 0 {
      var t := s.(enabling := s.enabling - 1, enabled := true, checking := s.checking + 1);
      assert TailStep(s, t);
      var rest := TailsEnd(t, budget);
      states := StepAhead(s, rest, budget);
    } else if s.checking > 0 {
      var t := s.(checking := s.checking - 1);
      assert TailStep(s, t);
      var rest := TailsEnd(t, budget);
      states := StepAhead(s, rest, budget);
    } else {
      states := [s];
    }
  }

  lemma FailedRepostLoses(s: State, t: State, budget: nat) returns (states: seq<State>)
    requires Safe(s) && FailedRepost(s, t, budget)
    requires s.poll.work + 1 < budget && s.rxCons + 1 < s.rxDone && !Alerted(s)
    ensures EndsLost(states, t, budget)
  {
    var u := t.(poll := Waiting, scheduled := false, enabling := t.enabling + 1);
    assert PollStep(t, u, budget);
    var rest := TailsEnd(u, budget);
    states := StepAhead(t, rest, budget);
  }

  /** After a failed repost some run loses a completion, exactly when the repost
      neither used up the budget, nor took the last waiting completion, nor came
      while another pass was already announced. */
  lemma FailedRepostLosesIff(s: State, t: State, budget: nat)
    requires Safe(s) && FailedRepost(s, t, budget)
    ensures (exists states :: EndsLost(states, t, budget))
       <==> s.poll.work + 1 < budget && s.rxCons + 1 < s.rxDone && !Alerted(s)
  {
    if s.poll.work + 1 < budget && s.rxCons + 1 < s.rxDone && !Alerted(s) {
      var states := FailedRepostLoses(s, t, budget);
      assert EndsLost(states, t, budget);
    } else {
      FailedRepostSafe(s, t, budget);
      forall states | Steps(states, budget) && states[0] == t ensures !Lost(states[|states| - 1]) {
        StepsSafe(states, budget, |states| - 1);
      }
    }
  }

  // Two frames arrive, the first cannot be reposted, and nothing else happens.
  function Stuck(k: nat): State {
    var s := State(0, 0, 0, 0, false, {}, true, false, false, Waiting, Quiet, 0, 0, 0, 0);
    if k == 0 then s
    else if k == 1 then s.(rxDone := 1, owed := true)
    else if k == 2 then s.(rxDone := 2, owed := true)
    else if k == 3 then s.(rxDone := 2, status := {2})
    else if k == 4 then s.(rxDone := 2, status := {2}, handler := Read({2}))
    else if k == 5 then s.(rxDone := 2, handler := Cleared)
    else if k == 6 then s.(rxDone := 2, handler := Disabled, enabled := false)
    else if k == 7 then s.(rxDone := 2, enabled := false, scheduled := true)
    else if k == 8 then s.(rxDone := 2, enabled := false, scheduled := true, poll := ReadHead)
    else if k == 9 then s.(rxDone := 2, enabled := false, scheduled := true, poll := Reclaim(0))
    else if k == 10 then s.(rxDone := 2, enabled := false, scheduled := true, poll := Receive(0))
    else if k == 11 then s.(rxDone := 2, rxCons := 1, enabled := false, scheduled := true, poll := Complete)
    else if k == 12 then s.(rxDone := 2, rxCons := 1, enabled := false, enabling := 1)
    else if k == 13 then s.(rxDone := 2, rxCons := 1, checking := 1)
    else s.(rxDone := 2, rxCons := 1)
  }

  lemma StuckDevice(k: nat)
    requires k < 3
    ensures DeviceStep(Stuck(k), Stuck(k + 1))
  {
    if k == 2 {
      var cause: nat := 2;
      assert Stuck(3) == Stuck(2).(owed := false, status := Stuck(2).status + {cause});
    }
  }

  lemma StuckHandler(k: nat)
    requires 3 <= k < 7
    ensures HandlerStep(Stuck(k), Stuck(k + 1))
  {
    assert k == 4 ==> Stuck(5).status == Stuck(4).status - {2};
  }

  lemma StuckDriver(k: nat)
    requires 7 <= k < 14
    ensures if k == 10 then FailedRepost(Stuck(k), Stuck(k + 1), 64)
            else PollStep(Stuck(k), Stuck(k + 1), 64) || TailStep(Stuck(k), Stuck(k + 1))
  {
  }

  /** With one failed repost the promise is broken: a run of 14 steps ends at rest
      with a frame in the ring and nothing left to announce it. */
  lemma FailedRepostStrandsFrame()
    ensures Initial(Stuck(0))
    ensures forall k: nat :: k < 14 ==>
      if k == 10 then FailedRepost(Stuck(k), Stuck(k + 1), 64) else Step(Stuck(k), Stuck(k + 1), 64)
    ensures Lost(Stuck(14))
  {
    forall k: nat | k < 14
      ensures if k == 10 then FailedRepost(Stuck(k), Stuck(k + 1), 64) else Step(Stuck(k), Stuck(k + 1), 64)
    {
      if k < 3 {
        StuckDevice(k);
      } else if k < 7 {
        StuckHandler(k);
      } else {
        StuckDriver(k);
      }
    }
  }
}
