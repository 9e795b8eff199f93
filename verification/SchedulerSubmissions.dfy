/** What becomes of a submission: how it is answered, and what the job it sends hands over. */
module SchedulerSubmissions {
  import opened Wrappers
  import opened Scheduler
  import opened SchedulerSlots
  import opened SchedulerShutdown

  /** What a caller offered, and when the submission read its clock. */
  datatype Submission = Submission(offer: Offer, readAt: nat)

  /** The submissions begun so far. */
  function Begun(states: seq<State>, actions: seq<Action>, i: nat): seq<Submission>
    requires i <= |actions| < |states|
  {
    if i == 0 then []
    else
      Begun(states, actions, i - 1)
      + if actions[i - 1].Submit? && states[i - 1].submitter.Idle?
        then [Submission(actions[i - 1].offer, states[i - 1].now)] else []
  }

  /** Those among them that were answered Queued. */
  function Queueds(begun: seq<Submission>, answers: seq<Answer>): seq<Submission>
    requires |answers| <= |begun|
  {
    if answers == [] then []
    else
      var last := |answers| - 1;
      Queueds(begun, answers[..last]) + if answers[last].Queued? then [begun[last]] else []
  }

  lemma {:induction false} QueuedsAreKept(begun: seq<Submission>, next: Submission, answers: seq<Answer>)
    requires |answers| <= |begun|
    ensures Queueds(begun + [next], answers) == Queueds(begun, answers)
  {
    if answers != [] {
      QueuedsAreKept(begun, next, answers[..|answers| - 1]);
    }
  }

  lemma {:induction false} QueuedsGrow(begun: seq<Submission>, answers: seq<Answer>, answer: Answer)
    requires |answers| < |begun|
    ensures Queueds(begun, answers + [answer])
         == Queueds(begun, answers) + if answer.Queued? then [begun[|answers|]] else []
  {
    assert (answers + [answer])[..|answers|] == answers;
  }

  /** Neither in the past nor more than two milliseconds before the target. */
  predicate MayStart(sub: Submission, t: nat) {
    sub.readAt <= t && sub.offer.target <= t + 2_000_000
  }

  /** The job hands over what was offered, under the scheduler's instance, to be started as early as it may be. */
  predicate HandsOver(job: Job, sub: Submission, instance: U64) {
    && job.instance == instance
    && job.commit == sub.offer.commit && job.target == sub.offer.target && job.payload == sub.offer.payload
    && MayStart(sub, job.notBefore) && forall t: nat | MayStart(sub, t) :: job.notBefore <= t
  }

  predicate HandOver(jobs: seq<Job>, subs: seq<Submission>, instance: U64) {
    |jobs| == |subs| && forall k | 0 <= k < |jobs| :: HandsOver(jobs[k], subs[k], instance)
  }

  /** Every submission but the one under way is answered, and the jobs sent hand over those answered Queued. */
  predicate Answers(begun: seq<Submission>, submitter: Submitter, log: Log, instance: U64) {
    && |begun| == |log.answers| + One(!submitter.Idle?)
    && HandOver(log.sent, Queueds(begun, log.answers), instance)
    && (submitter.Timed? || submitter.Reserved? ==> HandsOver(submitter.job, begun[|log.answers|], instance))
    && (submitter.Releasing? ==> !submitter.answer.Queued?)
  }

  lemma {:induction false} JobHandsOver(s: State, offer: Offer)
    ensures HandsOver(JobFor(s, offer), Submission(offer, s.now), s.instance)
  {
  }

  lemma {:induction false} SubmitKeepsAnswers(
    s: State, offer: Offer, t: State, begun: seq<Submission>, after: seq<Submission>)
    requires SubmitStep(s, offer) == Some(t) && Answers(begun, s.submitter, s.log, s.instance)
    requires after == begun + if s.submitter.Idle? then [Submission(offer, s.now)] else []
    ensures Answers(after, t.submitter, t.log, t.instance)
  {
    if s.submitter.Idle? {
      JobHandsOver(s, offer);
      QueuedsAreKept(begun, Submission(offer, s.now), s.log.answers);
    } else {
      assert after == begun;
      if t.submitter.Idle? {
        QueuedsGrow(begun, s.log.answers, t.log.answers[|s.log.answers|]);
      }
    }
  }

  lemma {:induction false} StepKeepsInstance(s: State, action: Action, t: State)
    requires Step(s, action) == Some(t)
    ensures t.instance == s.instance
  {
  }

  lemma {:induction false} AnswersAreKept(states: seq<State>, actions: seq<Action>, i: nat)
    requires IsRun(states, actions) && i < |states|
    ensures Answers(Begun(states, actions, i), states[i].submitter, states[i].log, states[0].instance)
    ensures states[i].instance == states[0].instance
  {
    if i > 0 {
      AnswersAreKept(states, actions, i - 1);
      assert StepAt(states, actions, i - 1);
      StepKeepsInstance(states[i - 1], actions[i - 1], states[i]);
      var begun, after := Begun(states, actions, i - 1), Begun(states, actions, i);
      match actions[i - 1]
      case Submit(offer) => SubmitKeepsAnswers(states[i - 1], offer, states[i], begun, after);
      case _ =>
        OthersKeepTheAnswers(states[i - 1], actions[i - 1], states[i]);
        assert after == begun;
    }
  }

  /**
   The jobs sent are the submissions answered Queued, each once and in their
   order: the k-th hands over exactly what its caller offered, under the one
   instance of the run, to be started at the earliest moment that is neither past
   nor more than two milliseconds before its target.
   */
  lemma {:induction false} SentAreTheQueued(states: seq<State>, actions: seq<Action>, i: nat)
    requires IsRun(states, actions) && i < |states|
    ensures |states[i].log.answers| <= |Begun(states, actions, i)|
    ensures HandOver(states[i].log.sent, Queueds(Begun(states, actions, i), states[i].log.answers), states[0].instance)
  {
    AnswersAreKept(states, actions, i);
  }

  /** What the next step of a submission answers, from the counter and the sender alone. */
  lemma {:induction false} AnswersAreExact(states: seq<State>, actions: seq<Action>, i: nat)
    requires IsRun(states, actions) && i < |actions| && actions[i].Submit? && !states[i].submitter.Idle?
    ensures var s, t := states[i], states[i + 1];
            var answered := |t.log.answers| > |s.log.answers|;
            && (s.submitter.Timed? ==>
                && (answered <==> !s.shared.senderAlive || s.shared.pending == s.capacity)
                && (answered ==> t.log.answers
                                 == s.log.answers + [if s.shared.senderAlive then Backpressured else ShutDown])
                && (!answered ==> t.shared.pending == s.shared.pending + 1))
            && (!s.submitter.Timed? ==>
                && s.submitter.Reserved?
                && t.log.answers == s.log.answers + [Queued]
                && t.shared.channel == s.shared.channel + [s.submitter.job])
  {
    assert StepAt(states, actions, i);
    SlotsAreKept(states, actions, i);
    FlagsAreKept(states, actions, i);
  }
}
