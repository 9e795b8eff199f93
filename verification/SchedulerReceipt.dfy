/** A sent job is received soon: the worker never sleeps on the channel, and reaches it in a bounded number of steps. */
module SchedulerReceipt {
  import opened Wrappers
  import opened Scheduler
  import opened SchedulerSlots
  import opened SchedulerShutdown
  import opened SchedulerProgress

  // ---------- The worker listens ----------

  /** The worker stops listening only when nothing is left to be received. */
  predicate Listens(s: State) {
    && (!s.worker.connected ==> s.shared.channel == [])
    && (s.worker.at.Parked? ==> !s.worker.connected)
  }

  lemma {:induction false} WorkListens(s: State, result: IoctlResult, early: bool, t: State)
    requires Flags(s) && Listens(s) && WorkStep(s, result, early) == Some(t)
    ensures Listens(t)
  {
    match s.worker.at
    case Peeking =>
    case InFlight(_, _) =>
    case _ =>
  }

  lemma {:induction false} OthersListen(s: State, action: Action, t: State)
    requires Flags(s) && Submissions(s) && Listens(s) && Step(s, action) == Some(t) && !action.Work?
    ensures Listens(t)
  {
    OthersKeepTheWorker(s, action, t);
  }

  lemma {:induction false} ListeningIsKept(states: seq<State>, actions: seq<Action>, i: nat)
    requires IsRun(states, actions) && i < |states|
    ensures Listens(states[i])
  {
    if i > 0 {
      ListeningIsKept(states, actions, i - 1);
      FlagsAreKept(states, actions, i - 1);
      assert StepAt(states, actions, i - 1);
      match actions[i - 1]
      case Work(result, early) => WorkListens(states[i - 1], result, early, states[i]);
      case _ => OthersListen(states[i - 1], actions[i - 1], states[i]);
    }
  }

  /** While a job waits to be received nothing blocks the worker. */
  lemma {:induction false} SentIsNotSleptOn(states: seq<State>, actions: seq<Action>, i: nat, result: IoctlResult)
    requires IsRun(states, actions) && i < |states| && states[i].shared.channel != []
    ensures states[i].worker.at.Exited? || WorkStep(states[i], result, false).Some?
  {
    ListeningIsKept(states, actions, i);
    FlagsAreKept(states, actions, i);
  }

  // ---------- Soon enough ----------

  /** How far the worker is from the channel. */
  function ToChannel(at: Worker): nat {
    match at
    case Draining => 0
    case Top => 1
    case Reporting(_, _) => 2
    case Receiving => 2
    case ReceivingUntil(_, _) => 2
    case Entering(_, _) => 3
    case Finishing(_, _) => 3
    case InFlight(_, _) => 4
    case Popped(_) => 5
    case _ => 6
  }

  predicate Unreceived(s: State, k: nat) {
    s.worker.order <= k < |s.log.sent|
  }

  /** Steps the worker may still take before it receives job k. */
  function StepsToReceipt(s: State, k: nat): int {
    ToChannel(s.worker.at) + k - s.worker.order + 1
  }

  lemma {:induction false} WorkNearsReceipt(s: State, result: IoctlResult, early: bool, t: State, k: nat)
    requires Slots(s) && Flags(s) && Listens(s) && !s.shared.cancelled && Unreceived(s, k)
    requires WorkStep(s, result, early) == Some(t)
    ensures t.log.sent == s.log.sent && StepsToReceipt(t, k) < StepsToReceipt(s, k)
  {
    assert s.shared.channel != [];
    match s.worker.at
    case Peeking =>
    case InFlight(_, _) =>
    case _ =>
  }

  lemma {:induction false} OthersAwaitReceipt(s: State, action: Action, t: State, k: nat)
    requires Unreceived(s, k) && Step(s, action) == Some(t) && !action.Work?
    ensures Unreceived(t, k) && StepsToReceipt(t, k) == StepsToReceipt(s, k)
    ensures s.shared.cancelled ==> t.shared.cancelled
  {
    OthersKeepTheWorker(s, action, t);
  }

  lemma {:induction false} StepNearsReceipt(states: seq<State>, actions: seq<Action>, i: nat, k: nat)
    requires IsRun(states, actions) && i < |actions|
    requires !states[i + 1].shared.cancelled && Unreceived(states[i], k)
    ensures StepsToReceipt(states[i + 1], k) + One(actions[i].Work?) <= StepsToReceipt(states[i], k)
  {
    assert Step(states[i], actions[i]) == Some(states[i + 1]) by {
      assert StepAt(states, actions, i);
    }
    StepBefore(states[i], actions[i], states[i + 1]);
    match actions[i]
    case Work(result, early) =>
      SlotsAreKept(states, actions, i);
      FlagsAreKept(states, actions, i);
      ListeningIsKept(states, actions, i);
      WorkNearsReceipt(states[i], result, early, states[i + 1], k);
    case _ => OthersAwaitReceipt(states[i], actions[i], states[i + 1], k);
  }

  lemma {:induction false} ReceiptNears(states: seq<State>, actions: seq<Action>, i: nat, j: nat, k: nat)
    requires IsRun(states, actions) && i <= j < |states|
    requires !states[j].shared.cancelled && Unreceived(states[i], k) && Unreceived(states[j], k)
    ensures StepsToReceipt(states[j], k) + WorkerSteps(actions[i..j]) <= StepsToReceipt(states[i], k)
  {
    if i == j {
      assert actions[i..j] == [];
    } else {
      assert StepAt(states, actions, j - 1);
      StepBefore(states[j - 1], actions[j - 1], states[j]);
      SentGrows(states, actions, i, j - 1);
      ReceiptNears(states, actions, i, j - 1, k);
      WorkerStepsGrow(actions, i, j - 1);
      StepNearsReceipt(states, actions, j - 1, k);
    }
  }

  lemma {:induction false} StepBefore(s: State, action: Action, t: State)
    requires Step(s, action) == Some(t)
    ensures s.shared.cancelled ==> t.shared.cancelled
    ensures s.worker.order <= t.worker.order && |s.log.sent| <= |t.log.sent|
  {
    match action
    case Work(result, early) =>
      if s.worker.at.InFlight? || s.worker.at.Peeking? {
        assert t.shared == s.shared && t.log == s.log;
      }
    case _ => OthersKeepTheWorker(s, action, t);
  }

  lemma {:induction false} SentGrows(states: seq<State>, actions: seq<Action>, i: nat, j: nat)
    requires IsRun(states, actions) && i <= j < |states|
    ensures |states[i].log.sent| <= |states[j].log.sent| && states[i].worker.order <= states[j].worker.order
  {
    if i < j {
      SentGrows(states, actions, i, j - 1);
      assert StepAt(states, actions, j - 1);
      StepBefore(states[j - 1], actions[j - 1], states[j]);
    }
  }

  /** Unless the scheduler is cancelled first, a sent job is received within 6 + capacity of the worker's steps. */
  lemma {:induction false} ReceivedSoon(states: seq<State>, actions: seq<Action>, i: nat, j: nat, k: nat)
    requires IsRun(states, actions) && i <= j < |states|
    requires !states[j].shared.cancelled && Unreceived(states[i], k) && Unreceived(states[j], k)
    ensures WorkerSteps(actions[i..j]) < 6 + states[i].capacity
  {
    ReceiptNears(states, actions, i, j, k);
    SlotsAreKept(states, actions, i);
  }
}
