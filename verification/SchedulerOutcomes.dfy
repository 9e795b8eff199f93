/** What becomes of a commit: which answers of the kernel end it, how, and which have it tried again. */
module SchedulerOutcomes {
  import opened Wrappers
  import opened Scheduler
  import opened SchedulerSlots
  import opened SchedulerTiming
  import opened SchedulerProgress

  // ---------- Attempts and replies ----------

  predicate InFlightOf(worker: Worker, k: nat) {
    worker.InFlight? && worker.held.order == k
  }

  /** The attempts on k that have ended. */
  function Ended(s: State, k: nat): int {
    |Times(s.log.attempts, k)| - One(InFlightOf(s.worker.at, k))
  }

  lemma {:induction false} WorkCountsAttempts(s: State, result: IoctlResult, early: bool, t: State, k: nat)
    requires WorkStep(s, result, early) == Some(t)
    ensures Ended(t, k) == Ended(s, k) + One(InFlightOf(s.worker.at, k))
  {
    match s.worker.at
    case Popped(held) =>
    case _ =>
  }

  /** An attempt begins when its time is read, and reaches the device when it ends. */
  lemma {:induction false} StepCountsAttempts(s: State, action: Action, t: State, k: nat)
    requires Step(s, action) == Some(t)
    ensures Ended(t, k) == Ended(s, k) + One(action.Work? && InFlightOf(s.worker.at, k))
  {
    match action
    case Work(result, early) => WorkCountsAttempts(s, result, early, t, k);
    case _ =>
      OthersKeepTheWorker(s, action, t);
      assert t.log.attempts == s.log.attempts;
  }

  /** The clock readings of the attempts on k. */
  function Readings(states: seq<State>, actions: seq<Action>, i: nat, k: nat): seq<nat>
    requires i <= |actions| < |states|
  {
    if i == 0 then []
    else
      var s := states[i - 1];
      Readings(states, actions, i - 1, k)
      + if actions[i - 1].Work? && s.worker.at.Popped? && s.worker.at.held.order == k then [s.now] else []
  }

  lemma {:induction false} StepReads(s: State, action: Action, t: State, k: nat)
    requires Step(s, action) == Some(t)
    ensures Times(t.log.attempts, k)
         == Times(s.log.attempts, k)
            + if action.Work? && s.worker.at.Popped? && s.worker.at.held.order == k then [s.now] else []
  {
    match action
    case Work(result, early) => WorkReads(s, result, early, t, k);
    case _ => assert t.log.attempts == s.log.attempts;
  }

  lemma {:induction false} WorkReads(s: State, result: IoctlResult, early: bool, t: State, k: nat)
    requires WorkStep(s, result, early) == Some(t)
    ensures Times(t.log.attempts, k)
         == Times(s.log.attempts, k)
            + if s.worker.at.Popped? && s.worker.at.held.order == k then [s.now] else []
  {
    match s.worker.at
    case Popped(held) =>
    case _ =>
  }

  /** The times on record are what the clock read when the attempts were made. */
  lemma {:induction false} TimesAreReadings(states: seq<State>, actions: seq<Action>, i: nat, k: nat)
    requires IsRun(states, actions) && i < |states|
    ensures Times(states[i].log.attempts, k) == Readings(states, actions, i, k)
  {
    if i > 0 {
      TimesAreReadings(states, actions, i - 1, k);
      assert StepAt(states, actions, i - 1);
      StepReads(states[i - 1], actions[i - 1], states[i], k);
    }
  }

  /** The kernel's answer to an attempt, and when it came. */
  datatype Reply = Reply(result: IoctlResult, at: nat)

  /** The answers to the attempts on k. */
  function Replies(states: seq<State>, actions: seq<Action>, i: nat, k: nat): seq<Reply>
    requires i <= |actions| < |states|
  {
    if i == 0 then []
    else
      Replies(states, actions, i - 1, k)
      + if actions[i - 1].Work? && InFlightOf(states[i - 1].worker.at, k)
        then [Reply(actions[i - 1].result, states[i - 1].now)] else []
  }

  /** Every attempt is answered, but for one in flight. */
  lemma {:induction false} AttemptsAreAnswered(states: seq<State>, actions: seq<Action>, i: nat, k: nat)
    requires IsRun(states, actions) && i < |states|
    ensures |Replies(states, actions, i, k)| == Ended(states[i], k)
  {
    if i > 0 {
      AttemptsAreAnswered(states, actions, i - 1, k);
      assert StepAt(states, actions, i - 1);
      StepCountsAttempts(states[i - 1], actions[i - 1], states[i], k);
    }
  }

  // ---------- How a commit ends ----------

  predicate EndsIn(reports: seq<Report>, k: nat, event: Event) {
    exists n | 0 <= n < |reports| :: reports[n] == Report(k, event)
  }

  /** Commit k is reported with this event, or is about to be. */
  predicate Ends(s: State, k: nat, event: Event) {
    || EndsIn(s.log.reports, k, event)
    || ((s.worker.at.Finishing? || s.worker.at.Reporting?)
        && s.worker.at.held.order == k && s.worker.at.event == event)
  }

  /**
   The event that the last answer calls for, given the first and the last
   attempt: none while a retryable refusal comes less than 100 ms after the first.
   */
  predicate CallsFor(reply: Reply, first: nat, last: nat, job: Job, event: Event) {
    match reply.result
    case Accepted => event == Submitted(job.instance, job.commit, reply.at)
    case Refused(Retryable) => first + 100_000_000 <= last && event == Stalled(job.instance, job.commit, Retryable)
    case Refused(Recoverable) => event == Stalled(job.instance, job.commit, Recoverable)
    case Refused(Other) => event == Failed(job.instance, job.commit, Other)
  }

  lemma {:induction false} EndsInGrows(reports: seq<Report>, r: Report, k: nat, event: Event)
    ensures EndsIn(reports + [r], k, event) <==> EndsIn(reports, k, event) || r == Report(k, event)
  {
    var all := reports + [r];
    assert all[|reports|] == r && forall n | 0 <= n < |reports| :: all[n] == reports[n];
  }

  lemma {:induction false} UnreportedInHand(s: State, k: nat, event: Event)
    requires Places(s) && Hand(s.worker.at).Some? && s.worker.at.held.order == k
    ensures !EndsIn(s.log.reports, k, event)
  {
    HeldIsUnreported(s);
  }

  lemma {:induction false} ResultEnds(s: State, result: IoctlResult, k: nat, event: Event)
    requires Places(s) && Timing(s) && InFlightOf(s.worker.at, k)
    ensures s.worker.at.held.expiresAt.Some? && Times(s.log.attempts, k) != []
    ensures var times := Times(s.log.attempts, k);
            Ends(ResultStep(s, s.worker.at.held, s.worker.at.attemptedAt, result), k, event) <==>
            CallsFor(Reply(result, s.now), times[0], times[|times| - 1], s.worker.at.held.job, event)
  {
    UnreportedInHand(s, k, event);
  }

  lemma {:induction false} WorkEnds(s: State, result: IoctlResult, early: bool, t: State, k: nat, event: Event)
    requires WorkStep(s, result, early) == Some(t) && !InFlightOf(s.worker.at, k)
    ensures Ends(t, k, event) <==> Ends(s, k, event)
  {
    match s.worker.at
    case Reporting(held, reported) => EndsInGrows(s.log.reports, Report(held.order, reported), k, event);
    case _ =>
  }

  lemma {:induction false} StepEnds(s: State, action: Action, t: State, k: nat, event: Event)
    requires Step(s, action) == Some(t) && !(action.Work? && InFlightOf(s.worker.at, k))
    ensures Ends(t, k, event) <==> Ends(s, k, event)
  {
    match action
    case Work(result, early) => WorkEnds(s, result, early, t, k, event);
    case _ =>
      OthersKeepTheWorker(s, action, t);
      assert t.log.reports == s.log.reports;
  }

  lemma {:induction false} SentIsKept(s: State, action: Action, t: State)
    requires Step(s, action) == Some(t)
    ensures s.log.sent <= t.log.sent
  {
  }

  /** The event that commit k's last answer calls for, by the times of its first and its last answered attempt. */
  predicate Called(replies: seq<Reply>, times: seq<nat>, sent: seq<Job>, k: nat, event: Event) {
    && 0 < |replies| <= |times| && k < |sent|
    && CallsFor(replies[|replies| - 1], times[0], times[|replies| - 1], sent[k], event)
  }

  /** The first and the last answered attempt stay what they are as attempts are added. */
  lemma {:induction false} CalledIsKept(
    replies: seq<Reply>, times: seq<nat>, sent: seq<Job>, k: nat, event: Event, after: seq<nat>, more: seq<Job>)
    requires |replies| <= |times| && times <= after && sent <= more && (replies != [] ==> k < |sent|)
    ensures Called(replies, after, more, k, event) <==> Called(replies, times, sent, k, event)
  {
  }

  lemma {:induction false} ReplyCalls(
    s: State, result: IoctlResult, early: bool, t: State, k: nat, event: Event,
    replies: seq<Reply>, after: seq<Reply>)
    requires Places(s) && Timing(s) && WorkStep(s, result, early) == Some(t) && InFlightOf(s.worker.at, k)
    requires |replies| == Ended(s, k) && after == replies + [Reply(result, s.now)]
    ensures Ends(t, k, event) <==> Called(after, Times(t.log.attempts, k), t.log.sent, k, event)
  {
    ResultEnds(s, result, k, event);
  }

  lemma {:induction false} NoReplyCalls(
    s: State, action: Action, t: State, k: nat, event: Event, replies: seq<Reply>)
    requires Step(s, action) == Some(t) && !(action.Work? && InFlightOf(s.worker.at, k))
    requires |replies| <= |Times(s.log.attempts, k)| && (replies != [] ==> k < |s.log.sent|)
    requires Ends(s, k, event) <==> Called(replies, Times(s.log.attempts, k), s.log.sent, k, event)
    ensures Ends(t, k, event) <==> Called(replies, Times(t.log.attempts, k), t.log.sent, k, event)
  {
    StepEnds(s, action, t, k, event);
    StepReads(s, action, t, k);
    SentIsKept(s, action, t);
    CalledIsKept(replies, Times(s.log.attempts, k), s.log.sent, k, event, Times(t.log.attempts, k), t.log.sent);
  }

  lemma {:induction false} RepliesAreSent(states: seq<State>, actions: seq<Action>, i: nat, k: nat)
    requires IsRun(states, actions) && i < |states| && Replies(states, actions, i, k) != []
    ensures k < |states[i].log.sent| && Ended(states[i], k) <= |Times(states[i].log.attempts, k)|
  {
    AttemptsAreAnswered(states, actions, i, k);
    AttemptsAreTimely(states, actions, i, k);
  }

  predicate CalledAt(states: seq<State>, actions: seq<Action>, i: nat, k: nat, event: Event)
    requires i <= |actions| < |states|
  {
    Called(Replies(states, actions, i, k), Times(states[i].log.attempts, k), states[i].log.sent, k, event)
  }

  lemma {:induction false} CallIsAnswered(states: seq<State>, actions: seq<Action>, i: nat, k: nat, event: Event)
    requires IsRun(states, actions) && i < |actions|
    requires Ends(states[i], k, event) <==> CalledAt(states, actions, i, k, event)
    ensures Ends(states[i + 1], k, event) <==> CalledAt(states, actions, i + 1, k, event)
  {
    var s, action, t, replies := states[i], actions[i], states[i + 1], Replies(states, actions, i, k);
    assert Step(s, action) == Some(t) by {
      assert StepAt(states, actions, i);
    }
    AttemptsAreAnswered(states, actions, i, k);
    if action.Work? && InFlightOf(s.worker.at, k) {
      SlotsAreKept(states, actions, i);
      TimingIsKept(states, actions, i);
      ReplyCalls(s, action.result, action.early, t, k, event, replies, Replies(states, actions, i + 1, k));
    } else {
      if replies != [] {
        RepliesAreSent(states, actions, i, k);
      }
      assert Replies(states, actions, i + 1, k) == replies;
      NoReplyCalls(s, action, t, k, event, replies);
    }
  }

  /**
   Over any run a commit ends, and ends with this event, exactly if the kernel's
   last answer to it calls for it: the acceptance at the moment it came, a
   recoverable or fatal refusal at once and with its cause, and a retryable one
   only when 100 ms lie between the first attempt and the last.
   */
  lemma {:induction false} EndsAsAnswered(
    states: seq<State>, actions: seq<Action>, i: nat, k: nat, event: Event)
    requires IsRun(states, actions) && i < |states|
    ensures Ends(states[i], k, event) <==> CalledAt(states, actions, i, k, event)
  {
    if i > 0 {
      EndsAsAnswered(states, actions, i - 1, k, event);
      CallIsAnswered(states, actions, i - 1, k, event);
    }
  }

  /** A commit is tried again only when its last answer was retryable, and its wait not over. */
  lemma {:induction false} OnlyRetryableIsRetried(
    states: seq<State>, actions: seq<Action>, i: nat, k: nat, m: nat)
    requires IsRun(states, actions) && i < |states| && m + 1 < |Times(states[i].log.attempts, k)|
    ensures var replies, times := Replies(states, actions, i, k), Times(states[i].log.attempts, k);
            m < |replies| && replies[m].result == Refused(Retryable) && times[m] < times[0] + 100_000_000
  {
    if i > 0 {
      assert Step(states[i - 1], actions[i - 1]) == Some(states[i]) by {
        assert StepAt(states, actions, i - 1);
      }
      StepReads(states[i - 1], actions[i - 1], states[i], k);
      if m + 1 < |Times(states[i - 1].log.attempts, k)| {
        OnlyRetryableIsRetried(states, actions, i - 1, k, m);
      } else {
        AttemptsAreAnswered(states, actions, i - 1, k);
        Unended(states, actions, i - 1, k);
      }
    }
  }

  /** A commit popped once more has not ended, so its last answer did not call for an event. */
  lemma {:induction false} Unended(states: seq<State>, actions: seq<Action>, i: nat, k: nat)
    requires IsRun(states, actions) && i < |states| && Replies(states, actions, i, k) != []
    requires states[i].worker.at.Popped? && states[i].worker.at.held.order == k
    ensures var replies, times := Replies(states, actions, i, k), Times(states[i].log.attempts, k);
            && |replies| == |times|
            && replies[|replies| - 1].result == Refused(Retryable)
            && times[|times| - 1] < times[0] + 100_000_000
  {
    SlotsAreKept(states, actions, i);
    AttemptsAreAnswered(states, actions, i, k);
    var replies, times, job := Replies(states, actions, i, k), Times(states[i].log.attempts, k), states[i].log.sent[k];
    var reply := replies[|replies| - 1];
    var event := match reply.result
      case Accepted => Submitted(job.instance, job.commit, reply.at)
      case Refused(Other) => Failed(job.instance, job.commit, Other)
      case Refused(error) => Stalled(job.instance, job.commit, error);
    EndsAsAnswered(states, actions, i, k, event);
    UnreportedInHand(states[i], k, event);
  }

  /** Any answer but a retryable refusal is a commit's last, and the commit ends with it. */
  lemma {:induction false} FinalAnswerEnds(states: seq<State>, actions: seq<Action>, i: nat, k: nat, m: nat)
    requires IsRun(states, actions) && i < |states| && m < |Replies(states, actions, i, k)|
    requires Replies(states, actions, i, k)[m].result != Refused(Retryable)
    ensures |Times(states[i].log.attempts, k)| == |Replies(states, actions, i, k)| == m + 1
    ensures k < |states[i].log.sent|
    ensures var job, reply := states[i].log.sent[k], Replies(states, actions, i, k)[m];
            match reply.result
            case Accepted => Ends(states[i], k, Submitted(job.instance, job.commit, reply.at))
            case Refused(Other) => Ends(states[i], k, Failed(job.instance, job.commit, Other))
            case Refused(cause) => Ends(states[i], k, Stalled(job.instance, job.commit, cause))
  {
    AttemptsAreAnswered(states, actions, i, k);
    RepliesAreSent(states, actions, i, k);
    if m + 1 < |Times(states[i].log.attempts, k)| {
      OnlyRetryableIsRetried(states, actions, i, k, m);
    }
    var job, reply := states[i].log.sent[k], Replies(states, actions, i, k)[m];
    match reply.result
    case Accepted => EndsAsAnswered(states, actions, i, k, Submitted(job.instance, job.commit, reply.at));
    case Refused(Other) => EndsAsAnswered(states, actions, i, k, Failed(job.instance, job.commit, Other));
    case Refused(cause) => EndsAsAnswered(states, actions, i, k, Stalled(job.instance, job.commit, cause));
  }

  /** A waiting commit is due when it may first start, or 100 microseconds after its last, retryably refused attempt. */
  lemma {:induction false} DeadlinesAreExact(states: seq<State>, actions: seq<Action>, i: nat, k: nat)
    requires IsRun(states, actions) && i < |states| && k in states[i].worker.queue
    ensures var readyAt, times := states[i].worker.queue[k].readyAt, Times(states[i].log.attempts, k);
            && k < |states[i].log.sent|
            && readyAt == if times == [] then states[i].log.sent[k].notBefore else times[|times| - 1] + 100_000
  {
    SlotsAreKept(states, actions, i);
    TimingIsKept(states, actions, i);
    assert OwnEntry(states[i].log.sent, states[i].worker.order, states[i].worker.queue[k], k);
    assert Waiting(states[i].worker.queue[k], Times(states[i].log.attempts, k));
  }
}
