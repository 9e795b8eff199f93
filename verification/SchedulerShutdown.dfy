/** The cancellation protocol: what each thread knows of the others, and how fast the worker stops. */
module SchedulerShutdown {
  import opened Wrappers
  import opened Scheduler
  import opened SchedulerSlots

  predicate Flags(s: State) {
    && s.shared.cancelled == !s.shutdown.Running?
    && s.shared.senderAlive == (s.shutdown.Running? || s.shutdown.Cancelled?)
    && (!s.worker.connected ==> !s.shared.senderAlive)
    && (s.worker.at.Exited? ==> s.shared.cancelled)
    && (s.shutdown.Joined? ==> s.worker.at.Exited?)
    && (s.shutdown.Unparked? ==> s.shared.token || s.worker.at.Top? || s.worker.at.Exited?)
    && (s.worker.at.InFlight? ==> s.worker.at.held.expiresAt.Some?)
  }

  /** A submission never meets a shutdown, and never fails once it holds a slot. */
  predicate Submissions(s: State) {
    && (s.shared.cancelled ==> s.submitter.Idle? || (s.shutdown.Joined? && s.submitter.Timed?))
    && !s.submitter.Releasing?
    && forall i | 0 <= i < |s.log.answers| ::
         && !s.log.answers[i].ExitedUnexpectedly?
         && (s.log.answers[i].ShutDown? ==> s.shutdown.Joined?)
  }

  /** The owner's side, which the worker does not touch. */
  predicate SameOwner(s: State, t: State) {
    && t.submitter == s.submitter && t.shutdown == s.shutdown
    && t.shared.cancelled == s.shared.cancelled && t.log.answers == s.log.answers
  }

  lemma {:induction false} PeekKeepsFlags(s: State)
    requires Flags(s) && s.worker.at.Peeking?
    ensures Flags(PeekStep(s)) && SameOwner(s, PeekStep(s))
  {
  }

  lemma {:induction false} ResultKeepsFlags(s: State, result: IoctlResult)
    requires Flags(s) && s.worker.at.InFlight?
    ensures var t := ResultStep(s, s.worker.at.held, s.worker.at.attemptedAt, result);
            Flags(t) && SameOwner(s, t)
  {
  }

  lemma {:induction false} WorkKeepsFlags(s: State, result: IoctlResult, early: bool, t: State)
    requires Flags(s) && WorkStep(s, result, early) == Some(t)
    ensures Flags(t) && SameOwner(s, t)
  {
    match s.worker.at
    case Peeking => PeekKeepsFlags(s);
    case InFlight(_, _) => ResultKeepsFlags(s, result);
    case _ =>
  }

  lemma {:induction false} SubmitKeepsFlags(s: State, offer: Offer, t: State)
    requires Slots(s) && Flags(s) && Submissions(s) && SubmitStep(s, offer) == Some(t)
    ensures Flags(t) && Submissions(t)
  {
  }

  lemma {:induction false} StepKeepsFlags(s: State, action: Action, t: State)
    requires Slots(s) && Flags(s) && Submissions(s) && Step(s, action) == Some(t)
    ensures Flags(t) && Submissions(t)
  {
    match action
    case Submit(offer) => SubmitKeepsFlags(s, offer, t);
    case Work(result, early) => WorkKeepsFlags(s, result, early, t);
    case _ =>
  }

  lemma {:induction false} FlagsAreKept(states: seq<State>, actions: seq<Action>, i: nat)
    requires IsRun(states, actions) && i < |states|
    ensures Flags(states[i]) && Submissions(states[i])
  {
    if i > 0 {
      FlagsAreKept(states, actions, i - 1);
      assert StepAt(states, actions, i - 1);
      SlotsAreKept(states, actions, i - 1);
      StepKeepsFlags(states[i - 1], actions[i - 1], states[i]);
    }
  }

  /** Whoever finds the channel disconnected, or the worker gone, is too late to be told of a cancellation. */
  lemma {:induction false} DisconnectedIsCancelled(states: seq<State>, actions: seq<Action>, i: nat)
    requires IsRun(states, actions) && i < |states|
    ensures !states[i].shared.senderAlive || !states[i].worker.connected || states[i].worker.at.Exited? ==>
            states[i].shared.cancelled
  {
    FlagsAreKept(states, actions, i);
  }

  // ---------- After the flag is stored ----------

  /** Ioctls a cancelled worker may still make, events it may still report, and steps it may still take. */
  function AttemptsLeft(s: State): nat {
    One(s.worker.at.Draining? || s.worker.at.Peeking? || s.worker.at.Popped?)
  }

  function ReportsLeft(s: State): nat {
    One(AttemptsLeft(s) > 0 || s.worker.at.InFlight? || s.worker.at.Finishing? || s.worker.at.Reporting?)
  }

  function StepsLeft(s: State): nat {
    match s.worker.at
    case Exited => 0
    case Top => 1
    case Receiving => 2
    case ReceivingUntil(_, _) => 2
    case Parked(_, _) => 2
    case Entering(_, _) => 3
    case Reporting(_, _) => 2
    case Finishing(_, _) => 3
    case InFlight(_, _) => 4
    case Popped(_) => 5
    case Peeking => 6
    case Draining => 7 + |s.shared.channel|
  }

  function WorkerSteps(actions: seq<Action>): nat {
    if actions == [] then 0
    else WorkerSteps(actions[..|actions| - 1]) + One(actions[|actions| - 1].Work?)
  }

  /** From s to t, in so many steps, the worker spends no more than it had left. */
  predicate Spends(s: State, t: State, steps: nat) {
    && t.log.ioctls + AttemptsLeft(t) <= s.log.ioctls + AttemptsLeft(s)
    && |t.log.reports| + ReportsLeft(t) <= |s.log.reports| + ReportsLeft(s)
    && StepsLeft(t) + steps <= StepsLeft(s)
  }

  lemma {:induction false} CancelledWork(s: State, result: IoctlResult, early: bool, t: State)
    requires s.shared.cancelled && WorkStep(s, result, early) == Some(t)
    ensures Spends(s, t, 1)
  {
    match s.worker.at
    case Peeking => PeekSpends(s);
    case InFlight(held, attemptedAt) => ResultSpends(s, result);
    case _ =>
  }

  lemma {:induction false} PeekSpends(s: State)
    requires s.worker.at.Peeking?
    ensures Spends(s, PeekStep(s), 1)
  {
  }

  lemma {:induction false} ResultSpends(s: State, result: IoctlResult)
    requires s.worker.at.InFlight? && s.worker.at.held.expiresAt.Some?
    ensures Spends(s, ResultStep(s, s.worker.at.held, s.worker.at.attemptedAt, result), 1)
  {
  }

  lemma {:induction false} CancelledStep(s: State, action: Action, t: State)
    requires Flags(s) && Submissions(s) && s.shared.cancelled && Step(s, action) == Some(t)
    ensures t.shared.cancelled && Spends(s, t, One(action.Work?))
  {
    match action
    case Work(result, early) =>
      CancelledWork(s, result, early, t);
      WorkKeepsFlags(s, result, early, t);
    case _ =>
  }

  lemma SpendsAddUp(s: State, t: State, u: State, m: nat, n: nat)
    requires Spends(s, t, m) && Spends(t, u, n)
    ensures Spends(s, u, m + n)
  {
  }

  lemma {:induction false} WorkerStepsGrow(actions: seq<Action>, i: nat, j: nat)
    requires i <= j < |actions|
    ensures WorkerSteps(actions[i..j + 1]) == WorkerSteps(actions[i..j]) + One(actions[j].Work?)
  {
    assert actions[i..j + 1][..j - i] == actions[i..j];
  }

  lemma {:induction false} CancelledRun(states: seq<State>, actions: seq<Action>, i: nat, j: nat)
    requires IsRun(states, actions) && i <= j < |states| && states[i].shared.cancelled
    ensures states[j].shared.cancelled && Spends(states[i], states[j], WorkerSteps(actions[i..j]))
  {
    if i < j {
      CancelledRun(states, actions, i, j - 1);
      assert StepAt(states, actions, j - 1);
      FlagsAreKept(states, actions, j - 1);
      CancelledStep(states[j - 1], actions[j - 1], states[j]);
      SpendsAddUp(states[i], states[j - 1], states[j], WorkerSteps(actions[i..j - 1]), One(actions[j - 1].Work?));
      WorkerStepsGrow(actions, i, j - 1);
    } else {
      assert actions[i..j] == [];
    }
  }

  /**
   After the flag is stored the worker makes at most one more ioctl, reports at
   most one more event, and takes at most seven steps more than the channel can
   hold.
   */
  lemma {:induction false} CancellationIsPrompt(states: seq<State>, actions: seq<Action>, i: nat, j: nat)
    requires IsRun(states, actions) && i <= j < |states| && states[i].shared.cancelled
    ensures states[j].log.ioctls <= states[i].log.ioctls + 1
    ensures |states[j].log.reports| <= |states[i].log.reports| + 1
    ensures WorkerSteps(actions[i..j]) <= 7 + states[i].capacity
    ensures WorkerSteps(actions[i..j]) == StepsLeft(states[i]) ==> states[j].worker.at.Exited?
  {
    CancelledRun(states, actions, i, j);
    SlotsAreKept(states, actions, i);
  }

  /** From the unpark on nothing blocks the worker, so it exits within those steps and the join returns. */
  lemma {:induction false} NothingBlocksAfterUnpark(
    states: seq<State>, actions: seq<Action>, i: nat, result: IoctlResult)
    requires IsRun(states, actions) && i < |states| && states[i].shutdown.Unparked?
    ensures states[i].worker.at.Exited? || WorkStep(states[i], result, false).Some?
    ensures states[i].worker.at.Exited? ==> ShutStep(states[i]).Some?
  {
    FlagsAreKept(states, actions, i);
  }
}
