/** When commits are attempted: never early, never in a hurry, and a bounded number of times. */
module SchedulerTiming {
  import opened Wrappers
  import opened Scheduler
  import opened SchedulerSlots

  // ---------- The attempts on one commit ----------

  /** All attempts but the last were made before the wait begun by the first had run out. */
  predicate InWait(times: seq<nat>) {
    |times| >= 2 ==> times[|times| - 2] < times[0] + MAX_WAIT
  }

  /** No attempt before the commit is ready, and a retry interval between attempts. */
  predicate Paced(times: seq<nat>, notBefore: nat) {
    && (times != [] ==> notBefore <= times[0])
    && (forall i | 0 < i < |times| :: times[i - 1] + RETRY_INTERVAL <= times[i])
    && InWait(times)
  }

  lemma {:induction false} GapsAddUp(times: seq<nat>, notBefore: nat, i: nat)
    requires Paced(times, notBefore) && i < |times|
    ensures times[0] + i * RETRY_INTERVAL <= times[i]
  {
    if i > 0 {
      GapsAddUp(times, notBefore, i - 1);
    }
  }

  /** A hundred milliseconds at a hundred microseconds each, and one more. */
  lemma {:induction false} PacedIsBounded(times: seq<nat>, notBefore: nat)
    requires Paced(times, notBefore)
    ensures |times| <= MAX_WAIT / RETRY_INTERVAL + 1 == 1001
  {
    if |times| >= 2 {
      GapsAddUp(times, notBefore, |times| - 2);
    }
  }

  // ---------- The invariant ----------

  /** What the expiry and the deadline of a waiting commit say of its attempts so far. */
  predicate Waiting(e: Scheduled, times: seq<nat>) {
    if times == [] then e.expiresAt.None? && e.readyAt == e.job.notBefore
    else
      && e.expiresAt == Some(times[0] + MAX_WAIT)
      && e.readyAt == times[|times| - 1] + RETRY_INTERVAL
      && times[|times| - 1] < times[0] + MAX_WAIT
  }

  /**
   How a commit ends. It is submitted after its last attempt; a retryable error
   stalls it only when its wait has run out; and it fails exactly on an error
   that is neither retryable nor recoverable.
   */
  predicate EndsInTime(event: Event, times: seq<nat>) {
    && times != []
    && (event.Submitted? ==> times[|times| - 1] <= event.submittedAt)
    && (event.Stalled? ==> !event.cause.Other?)
    && (event.Stalled? && event.cause.Retryable? ==> times[0] + MAX_WAIT <= times[|times| - 1])
    && (event.Failed? ==> event.cause.Other?)
  }

  type History = map<nat, seq<nat>>

  predicate QueueTimed(queue: Queue, attempts: History) {
    forall k | k in queue :: Waiting(queue[k], Times(attempts, k))
  }

  predicate HandTimed(at: Worker, attempts: History, now: nat) {
    match at
    case Popped(e) => Waiting(e, Times(attempts, e.order)) && e.readyAt <= now
    case InFlight(e, attemptedAt) =>
      var times := Times(attempts, e.order);
      && times != [] && attemptedAt == times[|times| - 1] <= now
      && e.expiresAt == Some(times[0] + MAX_WAIT)
    case Finishing(e, event) => EndsInTime(event, Times(attempts, e.order))
    case Reporting(e, event) => EndsInTime(event, Times(attempts, e.order))
    case _ => true
  }

  predicate AttemptsTimed(attempts: History, sent: seq<Job>, order: nat) {
    forall k | k in attempts :: k < order && k < |sent| && Paced(attempts[k], sent[k].notBefore)
  }

  predicate ReportsTimed(reports: seq<Report>, attempts: History) {
    forall i | 0 <= i < |reports| :: EndsInTime(reports[i].event, Times(attempts, reports[i].order))
  }

  predicate OnTime(job: Job) {
    job.target <= job.notBefore + LEAD
  }

  predicate JobsTimed(sent: seq<Job>, submitter: Submitter) {
    && (forall k | 0 <= k < |sent| :: OnTime(sent[k]))
    && (submitter.Timed? || submitter.Reserved? ==> OnTime(submitter.job))
  }

  predicate Timing(s: State) {
    && QueueTimed(s.worker.queue, s.log.attempts)
    && HandTimed(s.worker.at, s.log.attempts, s.now)
    && AttemptsTimed(s.log.attempts, s.log.sent, s.worker.order)
    && ReportsTimed(s.log.reports, s.log.attempts)
    && JobsTimed(s.log.sent, s.submitter)
  }

  // ---------- Every step keeps it ----------

  lemma {:induction false} ReceiveKeepsTiming(s: State, at: Worker)
    requires Slots(s) && Places(s) && Timing(s) && s.shared.channel != [] && Hand(at).None?
    ensures Timing(Receive(s, at))
  {
    ReceivesNext(s);
    assert Times(s.log.attempts, s.worker.order) == [];
  }

  lemma {:induction false} PeekKeepsTiming(s: State)
    requires Places(s) && Timing(s) && s.worker.at == Peeking
    ensures Timing(PeekStep(s))
  {
    if s.worker.queue != map[] {
      var k := Next(s.worker.queue);
      assert OwnEntry(s.log.sent, s.worker.order, s.worker.queue[k], k);
    }
  }

  lemma {:induction false} AttemptIsPaced(e: Scheduled, times: seq<nat>, now: nat)
    requires Waiting(e, times) && Paced(times, e.job.notBefore) && e.readyAt <= now
    ensures Paced(times + [now], e.job.notBefore)
  {
  }

  /** One more attempt on commit k leaves the others' waiting and reports as they were. */
  lemma {:induction false} OthersUnattempted(
    attempts: History, k: nat, times: seq<nat>, queue: Queue, reports: seq<Report>)
    requires QueueTimed(queue, attempts) && k !in queue
    requires ReportsTimed(reports, attempts) && forall i | 0 <= i < |reports| :: reports[i].order != k
    ensures QueueTimed(queue, attempts[k := times]) && ReportsTimed(reports, attempts[k := times])
  {
    forall l | l != k ensures Times(attempts[k := times], l) == Times(attempts, l) {
    }
  }

  lemma {:induction false} HeldIsUnreported(s: State)
    requires Places(s) && Hand(s.worker.at).Some?
    ensures s.worker.at.held.order !in s.worker.queue
    ensures forall i | 0 <= i < |s.log.reports| :: s.log.reports[i].order != s.worker.at.held.order
  {
    forall i | 0 <= i < |s.log.reports| ensures s.log.reports[i].order != s.worker.at.held.order {
      assert Names(s.log.sent, s.worker.order, s.worker.queue, Hand(s.worker.at), s.log.reports[i]);
    }
  }

  lemma {:induction false} AttemptKeepsTiming(s: State)
    requires Places(s) && Timing(s) && s.worker.at.Popped?
    ensures Timing(AttemptStep(s, s.worker.at.held))
  {
    var e := s.worker.at.held;
    var times := Times(s.log.attempts, e.order);
    AttemptIsPaced(e, times, s.now);
    HeldIsUnreported(s);
    OthersUnattempted(s.log.attempts, e.order, times + [s.now], s.worker.queue, s.log.reports);
  }

  /** What the disposition of a refused attempt means for the commit: it may wait on, or ends in time. */
  lemma {:induction false} DispositionIsTimed(e: Scheduled, times: seq<nat>, error: ErrorClass)
    requires times != [] && e.expiresAt == Some(times[0] + MAX_WAIT)
    ensures var attemptedAt := times[|times| - 1];
            match FailureDisposition(error, attemptedAt, e.expiresAt.value)
            case Retry => error.Retryable? && Waiting(e.(readyAt := attemptedAt + RETRY_INTERVAL), times)
            case Recover => EndsInTime(Stalled(e.job.instance, e.job.commit, error), times)
            case Fail => EndsInTime(Failed(e.job.instance, e.job.commit, error), times)
  {
  }

  lemma {:induction false} ReinsertKeepsTiming(s: State, e: Scheduled, readyAt: nat)
    requires Timing(s) && Waiting(e.(readyAt := readyAt), Times(s.log.attempts, e.order))
    ensures Timing(Reinsert(s, e, readyAt))
  {
  }

  lemma {:induction false} FinishKeepsTiming(s: State, e: Scheduled, event: Event)
    requires Timing(s) && EndsInTime(event, Times(s.log.attempts, e.order))
    ensures Timing(Goto(s, Finishing(e, event)))
  {
  }

  lemma {:induction false} ResultKeepsTiming(s: State, result: IoctlResult)
    requires Timing(s) && s.worker.at.InFlight? && s.worker.at.held.expiresAt.Some?
    ensures Timing(ResultStep(s, s.worker.at.held, s.worker.at.attemptedAt, result))
  {
    var e, attemptedAt := s.worker.at.held, s.worker.at.attemptedAt;
    match result
    case Accepted => FinishKeepsTiming(s, e, Submitted(e.job.instance, e.job.commit, s.now));
    case Refused(error) =>
      DispositionIsTimed(e, Times(s.log.attempts, e.order), error);
      match FailureDisposition(error, attemptedAt, e.expiresAt.value)
      case Retry => ReinsertKeepsTiming(s, e, attemptedAt + RETRY_INTERVAL);
      case Recover => FinishKeepsTiming(s, e, Stalled(e.job.instance, e.job.commit, error));
      case Fail => FinishKeepsTiming(s, e, Failed(e.job.instance, e.job.commit, error));
  }

  lemma {:induction false} WorkKeepsTiming(s: State, result: IoctlResult, early: bool, t: State)
    requires Slots(s) && Places(s) && Timing(s) && WorkStep(s, result, early) == Some(t)
    ensures Timing(t)
  {
    match s.worker.at
    case Peeking => PeekKeepsTiming(s);
    case Popped(_) => AttemptKeepsTiming(s);
    case InFlight(_, _) => ResultKeepsTiming(s, result);
    case _ =>
      if t.worker.order > s.worker.order {
        ReceiveKeepsTiming(s, t.worker.at);
      }
  }

  lemma {:induction false} SendKeepsTiming(attempts: History, sent: seq<Job>, order: nat, job: Job)
    requires AttemptsTimed(attempts, sent, order)
    ensures AttemptsTimed(attempts, sent + [job], order)
  {
  }

  lemma {:induction false} SubmitKeepsTiming(s: State, offer: Offer, t: State)
    requires Timing(s) && SubmitStep(s, offer) == Some(t)
    ensures Timing(t)
  {
    if s.submitter.Reserved? {
      SendKeepsTiming(s.log.attempts, s.log.sent, s.worker.order, s.submitter.job);
    }
  }

  lemma {:induction false} ShutKeepsTiming(s: State, t: State)
    requires Timing(s) && ShutStep(s) == Some(t)
    ensures Timing(t)
  {
  }

  lemma {:induction false} TickKeepsTiming(s: State, later: nat, t: State)
    requires Timing(s) && TickStep(s, later) == Some(t)
    ensures Timing(t)
  {
  }

  lemma {:induction false} StepKeepsTiming(s: State, action: Action, t: State)
    requires Slots(s) && Places(s) && Timing(s) && Step(s, action) == Some(t)
    ensures Timing(t)
  {
    match action
    case Tick(later) => TickKeepsTiming(s, later, t);
    case Submit(offer) => SubmitKeepsTiming(s, offer, t);
    case Shut => ShutKeepsTiming(s, t);
    case Work(result, early) => WorkKeepsTiming(s, result, early, t);
  }

  lemma {:induction false} TimingIsKept(states: seq<State>, actions: seq<Action>, i: nat)
    requires IsRun(states, actions) && i < |states|
    ensures Timing(states[i])
  {
    if i > 0 {
      TimingIsKept(states, actions, i - 1);
      assert StepAt(states, actions, i - 1);
      SlotsAreKept(states, actions, i - 1);
      StepKeepsTiming(states[i - 1], actions[i - 1], states[i]);
    }
  }

  // ---------- What follows at every moment of every run ----------

  /**
   The attempts on a commit: none before it may start, so none more than the
   lead before its presentation target; a retry interval between any two; and
   1001 at most.
   */
  lemma {:induction false} AttemptsAreTimely(states: seq<State>, actions: seq<Action>, i: nat, k: nat)
    requires IsRun(states, actions) && i < |states| && Times(states[i].log.attempts, k) != []
    ensures k < |states[i].log.sent|
    ensures var job, times := states[i].log.sent[k], Times(states[i].log.attempts, k);
            && Paced(times, job.notBefore)
            && job.target <= times[0] + 2_000_000
            && |times| <= 1001
  {
    TimingIsKept(states, actions, i);
    assert OnTime(states[i].log.sent[k]);
    PacedIsBounded(Times(states[i].log.attempts, k), states[i].log.sent[k].notBefore);
  }

  /**
   What a report says of its commit: submitted no earlier than its last attempt,
   so no more than the lead before its target; given up on a retryable error
   only when its attempts span the full wait; and failed exactly on an error
   that is neither retryable nor recoverable.
   */
  lemma {:induction false} ReportsAreTimely(states: seq<State>, actions: seq<Action>, i: nat, m: nat)
    requires IsRun(states, actions) && i < |states| && m < |states[i].log.reports|
    ensures var r := states[i].log.reports[m];
            EndsInTime(r.event, Times(states[i].log.attempts, r.order))
    ensures var r := states[i].log.reports[m];
            && r.order < |states[i].log.sent|
            && (r.event.Submitted? ==> states[i].log.sent[r.order].target <= r.event.submittedAt + LEAD)
  {
    TimingIsKept(states, actions, i);
    var r := states[i].log.reports[m];
    assert EndsInTime(r.event, Times(states[i].log.attempts, r.order));
    AttemptsAreTimely(states, actions, i, r.order);
    GapsAddUp(Times(states[i].log.attempts, r.order), states[i].log.sent[r.order].notBefore,
              |Times(states[i].log.attempts, r.order)| - 1);
  }
}
