/** Slots and places: where every submitted commit is, and how many slots are taken, at every moment. */
module SchedulerSlots {
  import opened Wrappers
  import opened Scheduler

  // ---------- Places ----------

  /** The commit in the worker's hands. */
  function Hand(worker: Worker): Option<Scheduled> {
    if worker.Popped? || worker.InFlight? || worker.Finishing? || worker.Reporting? then Some(worker.held) else None
  }

  /** Entry e is commit k: it carries its own arrival number and job. */
  predicate OwnEntry(sent: seq<Job>, order: nat, e: Scheduled, k: nat) {
    e.order == k && k < order && k < |sent| && e.job == sent[k]
  }

  predicate InQueue(sent: seq<Job>, order: nat, queue: Queue) {
    forall k | k in queue :: OwnEntry(sent, order, queue[k], k)
  }

  predicate InHand(sent: seq<Job>, order: nat, queue: Queue, hand: Option<Scheduled>) {
    hand.Some? ==> OwnEntry(sent, order, hand.value, hand.value.order) && hand.value.order !in queue
  }

  /** A report names its commit, which is received and in no other place. */
  predicate Names(sent: seq<Job>, order: nat, queue: Queue, hand: Option<Scheduled>, r: Report) {
    && r.order < order && r.order < |sent|
    && r.order !in queue
    && (hand.Some? ==> hand.value.order != r.order)
    && EventOf(r.event, sent[r.order])
  }

  predicate EventOf(event: Event, job: Job) {
    event.instance == job.instance && event.commit == job.commit
  }

  predicate Reported(sent: seq<Job>, order: nat, queue: Queue, hand: Option<Scheduled>, reports: seq<Report>) {
    && (forall i | 0 <= i < |reports| :: Names(sent, order, queue, hand, reports[i]))
    && (forall i, j | 0 <= i < j < |reports| :: reports[i].order != reports[j].order)
  }

  predicate Somewhere(queue: Queue, hand: Option<Scheduled>, reports: seq<Report>, k: nat) {
    || k in queue
    || (hand.Some? && hand.value.order == k)
    || exists i | 0 <= i < |reports| :: reports[i].order == k
  }

  /** Every received commit in exactly one place: the queue, the worker's hands, or a report of its own. */
  predicate Located(sent: seq<Job>, order: nat, queue: Queue, hand: Option<Scheduled>, reports: seq<Report>) {
    && InQueue(sent, order, queue)
    && InHand(sent, order, queue, hand)
    && Reported(sent, order, queue, hand, reports)
    && forall k: nat | k < order :: Somewhere(queue, hand, reports, k)
  }

  lemma {:induction false} LocatedSend(
    sent: seq<Job>, order: nat, queue: Queue, hand: Option<Scheduled>, reports: seq<Report>, job: Job)
    requires Located(sent, order, queue, hand, reports)
    ensures Located(sent + [job], order, queue, hand, reports)
  {
    forall i | 0 <= i < |reports| ensures Names(sent + [job], order, queue, hand, reports[i]) {
      assert Names(sent, order, queue, hand, reports[i]);
    }
  }

  lemma {:induction false} LocatedReceive(
    sent: seq<Job>, order: nat, queue: Queue, hand: Option<Scheduled>, reports: seq<Report>)
    requires Located(sent, order, queue, hand, reports) && order < |sent|
    ensures Located(sent, order + 1, queue[order := Arrival(sent[order], order)], hand, reports)
    ensures order !in queue
  {
    var after := queue[order := Arrival(sent[order], order)];
    assert order !in queue;
    forall k | k in after ensures OwnEntry(sent, order + 1, after[k], k) {
      assert k != order ==> OwnEntry(sent, order, queue[k], k);
    }
    forall i | 0 <= i < |reports| ensures Names(sent, order + 1, after, hand, reports[i]) {
      assert Names(sent, order, queue, hand, reports[i]);
    }
    forall k: nat | k < order + 1 ensures Somewhere(after, hand, reports, k) {
      assert k < order ==> Somewhere(queue, hand, reports, k);
    }
  }

  lemma {:induction false} LocatedPop(sent: seq<Job>, order: nat, queue: Queue, reports: seq<Report>, k: nat)
    requires Located(sent, order, queue, None, reports) && k in queue
    ensures Located(sent, order, queue - {k}, Some(queue[k]), reports)
  {
    assert OwnEntry(sent, order, queue[k], k);
    forall i | 0 <= i < |reports| ensures Names(sent, order, queue - {k}, Some(queue[k]), reports[i]) {
      assert Names(sent, order, queue, None, reports[i]);
    }
    forall l: nat | l < order ensures Somewhere(queue - {k}, Some(queue[k]), reports, l) {
      assert Somewhere(queue, None, reports, l);
    }
  }

  /** Deadlines and expiries play no part in where a commit is. */
  lemma {:induction false} LocatedHold(
    sent: seq<Job>, order: nat, queue: Queue, held: Scheduled, reports: seq<Report>, after: Scheduled)
    requires Located(sent, order, queue, Some(held), reports)
    requires after.order == held.order && after.job == held.job
    ensures Located(sent, order, queue, Some(after), reports)
  {
    forall i | 0 <= i < |reports| ensures Names(sent, order, queue, Some(after), reports[i]) {
      assert Names(sent, order, queue, Some(held), reports[i]);
    }
    forall k: nat | k < order ensures Somewhere(queue, Some(after), reports, k) {
      assert Somewhere(queue, Some(held), reports, k);
    }
  }

  lemma {:induction false} LocatedReinsert(
    sent: seq<Job>, order: nat, queue: Queue, held: Scheduled, reports: seq<Report>, after: Scheduled)
    requires Located(sent, order, queue, Some(held), reports)
    requires after.order == held.order && after.job == held.job
    ensures Located(sent, order, queue[held.order := after], None, reports)
    ensures held.order !in queue
  {
    forall i | 0 <= i < |reports| ensures Names(sent, order, queue[held.order := after], None, reports[i]) {
      assert Names(sent, order, queue, Some(held), reports[i]);
    }
    var requeued := queue[held.order := after];
    forall k: nat | k < order ensures Somewhere(requeued, None, reports, k) {
      assert Somewhere(queue, Some(held), reports, k);
    }
  }

  lemma {:induction false} LocatedReport(
    sent: seq<Job>, order: nat, queue: Queue, held: Scheduled, reports: seq<Report>, event: Event)
    requires Located(sent, order, queue, Some(held), reports) && EventOf(event, held.job)
    ensures Located(sent, order, queue, None, reports + [Report(held.order, event)])
  {
    var after := reports + [Report(held.order, event)];
    forall i | 0 <= i < |after| ensures Names(sent, order, queue, None, after[i]) {
      assert i < |reports| ==> Names(sent, order, queue, Some(held), reports[i]);
    }
    forall i, j | 0 <= i < j < |after| ensures after[i].order != after[j].order {
      assert Names(sent, order, queue, Some(held), reports[i]);
    }
    forall k: nat | k < order ensures Somewhere(queue, None, after, k) {
      assert Somewhere(queue, Some(held), reports, k);
      assert after[|reports|].order == held.order && forall i | 0 <= i < |reports| :: after[i] == reports[i];
    }
  }

  predicate Places(s: State) {
    && Located(s.log.sent, s.worker.order, s.worker.queue, Hand(s.worker.at), s.log.reports)
    && (s.worker.at.Finishing? || s.worker.at.Reporting? ==> EventOf(s.worker.at.event, s.worker.at.held.job))
  }

  lemma {:induction false} PeekKeepsPlaces(s: State)
    requires Places(s) && s.worker.at == Peeking
    ensures Places(PeekStep(s))
  {
    if s.worker.queue != map[] {
      LocatedPop(s.log.sent, s.worker.order, s.worker.queue, s.log.reports, Next(s.worker.queue));
    }
  }

  lemma {:induction false} AttemptKeepsPlaces(s: State)
    requires Places(s) && s.worker.at.Popped?
    ensures Places(AttemptStep(s, s.worker.at.held))
  {
    LocatedHold(s.log.sent, s.worker.order, s.worker.queue, s.worker.at.held, s.log.reports,
                AttemptStep(s, s.worker.at.held).worker.at.held);
  }

  lemma {:induction false} ResultKeepsPlaces(s: State, result: IoctlResult)
    requires Places(s) && s.worker.at.InFlight? && s.worker.at.held.expiresAt.Some?
    ensures Places(ResultStep(s, s.worker.at.held, s.worker.at.attemptedAt, result))
  {
    var held := s.worker.at.held;
    LocatedReinsert(s.log.sent, s.worker.order, s.worker.queue, held, s.log.reports,
                    held.(readyAt := s.worker.at.attemptedAt + RETRY_INTERVAL));
  }

  lemma {:induction false} ReceiveKeepsPlaces(s: State, at: Worker)
    requires Slots(s) && Places(s) && s.shared.channel != [] && Hand(s.worker.at).None? && Hand(at).None?
    ensures Places(Receive(s, at))
  {
    ReceivesNext(s);
    LocatedReceive(s.log.sent, s.worker.order, s.worker.queue, None, s.log.reports);
  }

  lemma {:induction false} WorkKeepsPlaces(s: State, result: IoctlResult, early: bool, t: State)
    requires Slots(s) && Places(s) && WorkStep(s, result, early) == Some(t)
    ensures Places(t)
  {
    match s.worker.at
    case Peeking => PeekKeepsPlaces(s);
    case Popped(_) => AttemptKeepsPlaces(s);
    case InFlight(_, _) => ResultKeepsPlaces(s, result);
    case Reporting(held, event) =>
      LocatedReport(s.log.sent, s.worker.order, s.worker.queue, held, s.log.reports, event);
    case Finishing(_, _) =>
    case _ =>
      if t.log == s.log && t.worker.order > s.worker.order {
        ReceiveKeepsPlaces(s, t.worker.at);
      }
  }

  lemma {:induction false} ReceivesNext(s: State)
    requires Slots(s) && s.shared.channel != []
    ensures s.worker.order < |s.log.sent| && s.shared.channel[0] == s.log.sent[s.worker.order]
    ensures s.shared.channel[1..] == s.log.sent[s.worker.order + 1..]
  {
  }

  lemma {:induction false} SubmitKeepsPlaces(s: State, offer: Offer, t: State)
    requires Places(s) && SubmitStep(s, offer) == Some(t)
    ensures Places(t)
  {
    if s.submitter.Reserved? {
      LocatedSend(s.log.sent, s.worker.order, s.worker.queue, Hand(s.worker.at), s.log.reports, s.submitter.job);
    }
  }

  lemma {:induction false} ShutKeepsPlaces(s: State, t: State)
    requires Places(s) && ShutStep(s) == Some(t)
    ensures Places(t)
  {
  }

  lemma {:induction false} StepKeepsPlaces(s: State, action: Action, t: State)
    requires Slots(s) && Places(s) && Step(s, action) == Some(t)
    ensures Places(t)
  {
    match action
    case Tick(_) =>
    case Submit(offer) => SubmitKeepsPlaces(s, offer, t);
    case Shut => ShutKeepsPlaces(s, t);
    case Work(result, early) => WorkKeepsPlaces(s, result, early, t);
  }

  // ---------- Slots ----------

  /** Slots the submitter holds without having sent anything. */
  function SubmitterSlots(submitter: Submitter): nat {
    One(submitter.Reserved? || submitter.Releasing?)
  }

  /** The worker gives up a commit's slot before it reports the event. */
  function WorkerSlots(at: Worker): nat {
    One(at.Popped? || at.InFlight? || at.Finishing?)
  }

  /**
   The pending counter is exactly the slots reserved, in the channel, in the
   queue and in the worker's hands, and never exceeds the capacity. The channel
   holds what is sent but not received; what is received is waiting, in hand or
   reported.
   */
  predicate Slots(s: State) {
    && s.shared.pending == SubmitterSlots(s.submitter) + |s.shared.channel| + |s.worker.queue|
                           + WorkerSlots(s.worker.at)
    && s.shared.pending <= s.capacity
    && s.worker.order <= |s.log.sent| && s.shared.channel == s.log.sent[s.worker.order..]
    && s.worker.order == |s.worker.queue| + One(Hand(s.worker.at).Some?) + |s.log.reports|
  }

  lemma {:induction false} RemoveShrinks(queue: Queue, k: nat)
    requires k in queue
    ensures |queue - {k}| == |queue| - 1
  {
    assert (queue - {k})[k := queue[k]] == queue;
  }

  lemma {:induction false} ReceiveKeepsSlots(s: State, at: Worker)
    requires Slots(s) && Places(s) && s.shared.channel != [] && Hand(s.worker.at).None? && Hand(at).None?
    ensures Slots(Receive(s, at))
  {
    ReceivesNext(s);
    LocatedReceive(s.log.sent, s.worker.order, s.worker.queue, None, s.log.reports);
  }

  lemma {:induction false} PeekKeepsSlots(s: State)
    requires Slots(s) && s.worker.at == Peeking
    ensures Slots(PeekStep(s))
  {
    if s.worker.queue != map[] {
      RemoveShrinks(s.worker.queue, Next(s.worker.queue));
    }
  }

  lemma {:induction false} ResultKeepsSlots(s: State, result: IoctlResult)
    requires Slots(s) && Places(s) && s.worker.at.InFlight? && s.worker.at.held.expiresAt.Some?
    ensures Slots(ResultStep(s, s.worker.at.held, s.worker.at.attemptedAt, result))
  {
    assert s.worker.at.held.order !in s.worker.queue;
  }

  /** A step that moves no commit. */
  lemma {:induction false} QuietKeepsSlots(s: State, t: State)
    requires Slots(s) && WorkerSlots(t.worker.at) == WorkerSlots(s.worker.at)
    requires Hand(t.worker.at).Some? == Hand(s.worker.at).Some?
    requires t.capacity == s.capacity && t.submitter == s.submitter && t.log == s.log
    requires t.shared.pending == s.shared.pending && t.shared.channel == s.shared.channel
    requires t.worker.queue == s.worker.queue && t.worker.order == s.worker.order
    ensures Slots(t)
  {
  }

  lemma {:induction false} DrainKeepsSlots(s: State, result: IoctlResult, early: bool, t: State)
    requires Slots(s) && Places(s) && WorkStep(s, result, early) == Some(t)
    requires s.worker.at.Top? || s.worker.at.Draining?
    ensures Slots(t)
  {
    if s.worker.at.Draining? && s.shared.channel != [] {
      ReceiveKeepsSlots(s, Draining);
    } else {
      QuietKeepsSlots(s, t);
    }
  }

  lemma {:induction false} SleepKeepsSlots(s: State, result: IoctlResult, early: bool, t: State)
    requires Slots(s) && Places(s) && WorkStep(s, result, early) == Some(t)
    requires s.worker.at.Receiving? || s.worker.at.Entering? || s.worker.at.ReceivingUntil? || s.worker.at.Parked?
    ensures Slots(t)
  {
    if t.worker.order > s.worker.order {
      ReceiveKeepsSlots(s, Top);
    } else {
      QuietKeepsSlots(s, t);
    }
  }

  lemma {:induction false} WorkKeepsSlots(s: State, result: IoctlResult, early: bool, t: State)
    requires Slots(s) && Places(s) && WorkStep(s, result, early) == Some(t)
    ensures Slots(t)
  {
    match s.worker.at
    case Top => DrainKeepsSlots(s, result, early, t);
    case Draining => DrainKeepsSlots(s, result, early, t);
    case Peeking => PeekKeepsSlots(s);
    case Popped(_) =>
    case InFlight(_, _) => ResultKeepsSlots(s, result);
    case Finishing(_, _) =>
    case Reporting(_, _) =>
    case _ => SleepKeepsSlots(s, result, early, t);
  }

  lemma {:induction false} SendKeepsSlots(s: State, job: Job)
    requires Slots(s) && s.submitter == Reserved(job)
    ensures Slots(Answered(Send(s, job), Queued))
  {
    assert (s.log.sent + [job])[s.worker.order..] == s.log.sent[s.worker.order..] + [job];
  }

  lemma {:induction false} SubmitKeepsSlots(s: State, offer: Offer, t: State)
    requires Slots(s) && SubmitStep(s, offer) == Some(t)
    ensures Slots(t)
  {
    if s.submitter.Reserved? {
      SendKeepsSlots(s, s.submitter.job);
    }
  }

  lemma {:induction false} ShutKeepsSlots(s: State, t: State)
    requires Slots(s) && ShutStep(s) == Some(t)
    ensures Slots(t)
  {
    QuietKeepsSlots(s, t);
  }

  lemma {:induction false} StepKeepsSlots(s: State, action: Action, t: State)
    requires Slots(s) && Places(s) && Step(s, action) == Some(t)
    ensures Slots(t)
  {
    match action
    case Tick(_) =>
    case Submit(offer) => SubmitKeepsSlots(s, offer, t);
    case Shut => ShutKeepsSlots(s, t);
    case Work(result, early) => WorkKeepsSlots(s, result, early, t);
  }

  lemma {:induction false} StartHasSlots(s: State)
    requires Initial(s)
    ensures Slots(s) && Places(s)
  {
  }

  lemma {:induction false} SlotsAreKept(states: seq<State>, actions: seq<Action>, i: nat)
    requires IsRun(states, actions) && i < |states|
    ensures Slots(states[i]) && Places(states[i])
  {
    if i == 0 {
      StartHasSlots(states[0]);
    } else {
      var s, action, t := states[i - 1], actions[i - 1], states[i];
      SlotsAreKept(states, actions, i - 1);
      assert Step(s, action) == Some(t) by {
        assert StepAt(states, actions, i - 1);
      }
      StepKeepsSlots(s, action, t);
      StepKeepsPlaces(s, action, t);
    }
  }

  // ---------- What follows at every moment of every run ----------

  /** The channel has room for every reservation, and a slot is only given back while one is taken. */
  lemma {:induction false} SendsFitAndReleasesAreCovered(states: seq<State>, actions: seq<Action>, i: nat)
    requires IsRun(states, actions) && i < |states|
    ensures states[i].submitter.Reserved? ==> |states[i].shared.channel| < states[i].capacity
    ensures states[i].submitter.Releasing? || states[i].worker.at.Finishing? ==> states[i].shared.pending > 0
  {
    SlotsAreKept(states, actions, i);
  }

  function CountQueued(answers: seq<Answer>): nat {
    if answers == [] then 0 else CountQueued(answers[..|answers| - 1]) + One(answers[|answers| - 1].Queued?)
  }

  /** Jobs sent and answers Queued agree, and no failing submission is about to answer Queued. */
  predicate QueuedCounted(submitter: Submitter, log: Log) {
    && CountQueued(log.answers) == |log.sent|
    && (submitter.Releasing? ==> !submitter.answer.Queued?)
  }

  lemma {:induction false} AnswerCounts(answers: seq<Answer>, answer: Answer)
    ensures CountQueued(answers + [answer]) == CountQueued(answers) + One(answer.Queued?)
  {
    assert (answers + [answer])[..|answers|] == answers;
  }

  lemma {:induction false} StepCountsQueued(s: State, action: Action, t: State)
    requires Step(s, action) == Some(t) && QueuedCounted(s.submitter, s.log)
    ensures QueuedCounted(t.submitter, t.log)
  {
    match action
    case Submit(_) =>
      forall answer {
        AnswerCounts(s.log.answers, answer);
      }
    case _ => OthersKeepTheAnswers(s, action, t);
  }

  lemma {:induction false} OthersKeepTheAnswers(s: State, action: Action, t: State)
    requires Step(s, action) == Some(t) && !action.Submit?
    ensures t.log.answers == s.log.answers && t.log.sent == s.log.sent && t.submitter == s.submitter
  {
  }

  lemma {:induction false} QueuedAnswersAreSent(states: seq<State>, actions: seq<Action>, i: nat)
    requires IsRun(states, actions) && i < |states|
    ensures QueuedCounted(states[i].submitter, states[i].log)
  {
    if i > 0 {
      QueuedAnswersAreSent(states, actions, i - 1);
      assert StepAt(states, actions, i - 1);
      StepCountsQueued(states[i - 1], actions[i - 1], states[i]);
    }
  }

  /** Once sends and reports settle, submissions answered Queued are the events plus the pending commits. */
  lemma {:induction false} QueuedAreReportedOrPending(states: seq<State>, actions: seq<Action>, i: nat)
    requires IsRun(states, actions) && i < |states|
    requires SubmitterSlots(states[i].submitter) == 0 && !states[i].worker.at.Reporting?
    ensures CountQueued(states[i].log.answers) == |states[i].log.reports| + states[i].shared.pending
  {
    SlotsAreKept(states, actions, i);
    QueuedAnswersAreSent(states, actions, i);
  }

  /** Every event is the only one of its commit, and carries that commit's instance and identifier. */
  lemma {:induction false} EventsAreTheirCommits(
    states: seq<State>, actions: seq<Action>, i: nat, m: nat, n: nat)
    requires IsRun(states, actions) && i < |states| && m < |states[i].log.reports|
    ensures states[i].log.reports[m].order < |states[i].log.sent|
    ensures EventOf(states[i].log.reports[m].event, states[i].log.sent[states[i].log.reports[m].order])
    ensures n < |states[i].log.reports| && states[i].log.reports[n].order == states[i].log.reports[m].order ==> n == m
  {
    SlotsAreKept(states, actions, i);
    assert Names(states[i].log.sent, states[i].worker.order, states[i].worker.queue,
                 Hand(states[i].worker.at), states[i].log.reports[m]);
  }
}
