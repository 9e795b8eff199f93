/** A due commit is attempted soon: how long the worker can sleep on it, and in how many steps it reaches it. */
module SchedulerProgress {
  import opened Wrappers
  import opened Scheduler
  import opened SchedulerSlots
  import opened SchedulerShutdown
  import opened SchedulerFairness

  // ---------- Not asleep for long ----------

  /**
   How long a sleeping worker sleeps: a wait runs from when it is begun, so it
   ends as long after the earliest deadline in the queue as it was begun after
   the clock was read.
   */
  predicate Sleeps(at: Worker, queue: Queue, now: nat) {
    match at
    case Receiving => queue == map[]
    case Entering(length, readAt) => readAt <= now && IsEarliest(queue, readAt + length)
    case ReceivingUntil(deadline, lag) => lag <= deadline && IsEarliest(queue, deadline - lag)
    case Parked(deadline, lag) => lag <= deadline && IsEarliest(queue, deadline - lag)
    case _ => true
  }

  predicate IsEarliest(queue: Queue, readyAt: nat) {
    && (exists k | k in queue :: queue[k].readyAt == readyAt)
    && (forall k | k in queue :: readyAt <= queue[k].readyAt)
  }

  lemma {:induction false} PeekKeepsSleeps(s: State)
    requires s.worker.at.Peeking?
    ensures Sleeps(PeekStep(s).worker.at, PeekStep(s).worker.queue, s.now)
  {
    if s.worker.queue != map[] {
      var k := Next(s.worker.queue);
      assert s.worker.queue[k].readyAt == s.worker.queue[k].readyAt;
    }
  }

  lemma {:induction false} WorkKeepsSleeps(s: State, result: IoctlResult, early: bool, t: State)
    requires Sleeps(s.worker.at, s.worker.queue, s.now) && WorkStep(s, result, early) == Some(t)
    ensures Sleeps(t.worker.at, t.worker.queue, t.now)
  {
    match s.worker.at
    case Peeking => PeekKeepsSleeps(s);
    case _ =>
  }

  lemma {:induction false} OthersKeepTheWorker(s: State, action: Action, t: State)
    requires Step(s, action) == Some(t) && !action.Work?
    ensures t.worker == s.worker && s.now <= t.now
  {
  }

  lemma {:induction false} SleepsAreKept(states: seq<State>, actions: seq<Action>, i: nat)
    requires IsRun(states, actions) && i < |states|
    ensures Sleeps(states[i].worker.at, states[i].worker.queue, states[i].now)
  {
    if i > 0 {
      SleepsAreKept(states, actions, i - 1);
      assert StepAt(states, actions, i - 1);
      match actions[i - 1]
      case Work(result, early) => WorkKeepsSleeps(states[i - 1], result, early, states[i]);
      case _ => OthersKeepTheWorker(states[i - 1], actions[i - 1], states[i]);
    }
  }

  /** The worker is in a wait for a deadline that nothing has ended and that has not run out. */
  predicate Asleep(s: State) {
    || (s.worker.at.ReceivingUntil? && s.shared.channel == [] && s.shared.senderAlive && s.now < s.worker.at.deadline)
    || (s.worker.at.Parked? && !s.shared.token && s.now < s.worker.at.deadline)
  }

  /**
   While a commit is due, exactly such a wait blocks the worker, and it blocks
   it for less than the wait was begun late: once the earliest deadline in the
   queue lies that lag back, the worker is awake.
   */
  lemma {:induction false} DueIsSleptOnWithinTheLag(
    states: seq<State>, actions: seq<Action>, i: nat, k: nat, readyAt: nat, result: IoctlResult)
    requires IsRun(states, actions) && i < |states| && Due(states[i], k, readyAt)
    ensures WorkStep(states[i], result, false).None? <==> states[i].worker.at.Exited? || Asleep(states[i])
    ensures Asleep(states[i]) ==> states[i].now < readyAt + states[i].worker.at.lag
    ensures states[i].worker.at.ReceivingUntil? || states[i].worker.at.Parked? ==>
              && states[i].worker.at.lag <= states[i].worker.at.deadline
              && IsEarliest(states[i].worker.queue, states[i].worker.at.deadline - states[i].worker.at.lag)
  {
    SleepsAreKept(states, actions, i);
    FlagsAreKept(states, actions, i);
  }

  // ---------- Soon enough ----------

  /** How far the worker is from its next attempt, jobs still to be received left aside. */
  function Distance(at: Worker): nat {
    match at
    case Exited => 0
    case Popped(_) => 1
    case Peeking => 2
    case Draining => 3
    case Top => 4
    case InFlight(_, _) => 8
    case Finishing(_, _) => 7
    case Entering(_, _) => 6
    case _ => 5
  }

  /** Every job received from now on takes up a slot that is free now or becomes so. */
  function Load(s: State): int {
    Distance(s.worker.at) + s.capacity - |s.worker.queue| - WorkerSlots(s.worker.at)
  }

  lemma {:induction false} ReceiveLightens(s: State, at: Worker)
    requires Slots(s) && Places(s) && s.shared.channel != [] && Hand(s.worker.at).None? && Hand(at).None?
    requires Distance(at) <= Distance(s.worker.at)
    ensures Load(Receive(s, at)) < Load(s)
  {
    ReceivesNext(s);
    LocatedReceive(s.log.sent, s.worker.order, s.worker.queue, None, s.log.reports);
  }

  lemma {:induction false} PeekLightens(s: State, k: nat, readyAt: nat)
    requires s.worker.at.Peeking? && Due(s, k, readyAt)
    ensures Load(PeekStep(s)) < Load(s) && PeekStep(s).log == s.log
  {
    RemoveShrinks(s.worker.queue, Next(s.worker.queue));
  }

  lemma {:induction false} ResultLightens(s: State, result: IoctlResult)
    requires Places(s) && s.worker.at.InFlight? && s.worker.at.held.expiresAt.Some?
    ensures Load(ResultStep(s, s.worker.at.held, s.worker.at.attemptedAt, result)) < Load(s)
    ensures ResultStep(s, s.worker.at.held, s.worker.at.attemptedAt, result).log == s.log
  {
    assert s.worker.at.held.order !in s.worker.queue;
  }

  lemma {:induction false} AttemptLightens(s: State)
    requires s.worker.at.Popped?
    ensures Load(AttemptStep(s, s.worker.at.held)) == Load(s) + 7
    ensures AttemptStep(s, s.worker.at.held).log.ioctls == s.log.ioctls + 1
  {
  }

  /** The worker's steps while it holds no commit and takes none from its queue. */
  lemma {:induction false} WaitLightens(s: State, result: IoctlResult, early: bool, t: State)
    requires Slots(s) && Places(s) && WorkStep(s, result, early) == Some(t)
    requires Hand(s.worker.at).None? && s.worker.at != Peeking
    ensures Load(t) < Load(s) && t.log == s.log
  {
    if t.worker.order > s.worker.order {
      ReceiveLightens(s, t.worker.at);
    }
  }

  /** While a commit is due, every step of the worker brings an attempt closer or makes one. */
  lemma {:induction false} WorkLightens(s: State, result: IoctlResult, early: bool, t: State, k: nat, readyAt: nat)
    requires Slots(s) && Places(s) && Due(s, k, readyAt) && WorkStep(s, result, early) == Some(t)
    ensures Load(t) < Load(s) + 8 * (t.log.ioctls - s.log.ioctls)
  {
    match s.worker.at
    case Peeking => PeekLightens(s, k, readyAt);
    case Popped(_) => AttemptLightens(s);
    case InFlight(_, _) => ResultLightens(s, result);
    case Finishing(_, _) =>
    case Reporting(_, _) =>
    case _ => WaitLightens(s, result, early, t);
  }

  /** Upper bound on the worker's steps before it is k's turn. */
  function StepsToTurn(s: State, k: nat, readyAt: nat): int {
    Load(s) + 8 * Overtakers(s, k, readyAt)
  }

  lemma {:induction false} StepsToTurnShrink(s: State, action: Action, t: State, k: nat, readyAt: nat)
    requires Slots(s) && Places(s) && Due(s, k, readyAt) && Step(s, action) == Some(t)
    ensures HasTurn(t, k) || (Due(t, k, readyAt)
            && StepsToTurn(t, k, readyAt) + One(action.Work?) <= StepsToTurn(s, k, readyAt))
  {
    StepIsFair(s, action, t, k, readyAt);
    match action
    case Work(result, early) => WorkLightens(s, result, early, t, k, readyAt);
    case _ => OthersAreLight(s, action, t);
  }

  lemma {:induction false} OthersAreLight(s: State, action: Action, t: State)
    requires Step(s, action) == Some(t) && !action.Work?
    ensures Load(t) == Load(s) && t.log.ioctls == s.log.ioctls
  {
  }

  /** No state from i on, up to j, in which it was k's turn. */
  predicate NoTurn(states: seq<State>, i: nat, j: nat, k: nat)
    requires j < |states|
  {
    forall m | i <= m <= j :: !HasTurn(states[m], k)
  }

  /** From s to t the worker took so many of the steps that were left before k's turn. */
  predicate Approaches(s: State, t: State, k: nat, readyAt: nat, steps: nat) {
    Due(t, k, readyAt) && StepsToTurn(t, k, readyAt) + steps <= StepsToTurn(s, k, readyAt)
  }

  lemma {:induction false} ApproachesFurther(
    s: State, t: State, action: Action, u: State, k: nat, readyAt: nat, steps: nat)
    requires Slots(t) && Places(t) && Step(t, action) == Some(u)
    requires Approaches(s, t, k, readyAt, steps) && !HasTurn(u, k)
    ensures Approaches(s, u, k, readyAt, steps + One(action.Work?))
  {
    StepsToTurnShrink(t, action, u, k, readyAt);
  }

  lemma {:induction false} ApproachesFromItself(s: State, k: nat, readyAt: nat)
    requires Due(s, k, readyAt)
    ensures Approaches(s, s, k, readyAt, 0)
  {
  }

  lemma {:induction false} StillDue(
    states: seq<State>, actions: seq<Action>, i: nat, j: nat, k: nat, readyAt: nat)
    requires IsRun(states, actions) && i <= j < |states| && Due(states[i], k, readyAt) && NoTurn(states, i, j, k)
    ensures Approaches(states[i], states[j], k, readyAt, WorkerSteps(actions[i..j]))
  {
    if i == j {
      assert actions[i..j] == [];
      ApproachesFromItself(states[i], k, readyAt);
    } else {
      var steps := WorkerSteps(actions[i..j - 1]);
      StillDue(states, actions, i, j - 1, k, readyAt);
      var t, action, u := states[j - 1], actions[j - 1], states[j];
      assert Step(t, action) == Some(u) by {
        assert StepAt(states, actions, j - 1);
      }
      WorkerStepsGrow(actions, i, j - 1);
      SlotsAreKept(states, actions, j - 1);
      ApproachesFurther(states[i], t, action, u, k, readyAt, steps);
    }
  }

  /**
   Until it is a due commit's turn the worker takes a bounded number of steps,
   linear in the capacity and independent of how long any output stays busy.
   Between them it is blocked only by a wait it was in, or about to begin, when
   the commit became due, and by that only for the lag with which it began it.
   */
  lemma {:induction false} TurnComesSoon(
    states: seq<State>, actions: seq<Action>, i: nat, j: nat, k: nat, readyAt: nat)
    requires IsRun(states, actions) && i <= j < |states| && Due(states[i], k, readyAt) && NoTurn(states, i, j, k)
    ensures WorkerSteps(actions[i..j]) <= 8 + 9 * states[i].capacity
  {
    StillDue(states, actions, i, j, k, readyAt);
    SlotsAreKept(states, actions, i);
    SlotsAreKept(states, actions, j);
    CapacityIsKept(states, actions, i, j);
    OvertakersHoldSlots(states[i], k, readyAt);
  }

  lemma {:induction false} CapacityIsKept(states: seq<State>, actions: seq<Action>, i: nat, j: nat)
    requires IsRun(states, actions) && i <= j < |states|
    ensures states[j].capacity == states[i].capacity
  {
    if i < j {
      CapacityIsKept(states, actions, i, j - 1);
      assert StepAt(states, actions, j - 1);
      StepKeepsCapacity(states[j - 1], actions[j - 1], states[j]);
    }
  }

  lemma {:induction false} StepKeepsCapacity(s: State, action: Action, t: State)
    requires Step(s, action) == Some(t)
    ensures t.capacity == s.capacity
  {
  }
}
