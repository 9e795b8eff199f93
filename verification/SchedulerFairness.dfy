/** Bounded overtaking: how many other attempts can come before a commit that is due. */
module SchedulerFairness {
  import opened Wrappers
  import opened Scheduler
  import opened SchedulerSlots

  // ---------- Who may still go first ----------

  /** A received or sent commit that can be attempted before commit k, whose deadline is readyAt. */
  predicate Threatens(worker: WorkerState, sent: seq<Job>, l: nat, k: nat, readyAt: nat) {
    || (l in worker.queue && Before(worker.queue[l].readyAt, l, readyAt, k))
    || (worker.at.Popped? && worker.at.held.order == l)
    || (worker.at.InFlight? && worker.at.held.order == l
        && Before(worker.at.attemptedAt + RETRY_INTERVAL, l, readyAt, k))
    || (worker.order <= l < |sent| && sent[l].notBefore < readyAt)
  }

  function Threats(worker: WorkerState, sent: seq<Job>, k: nat, readyAt: nat): set<nat> {
    set l: nat | l < |sent| && l != k && Threatens(worker, sent, l, k, readyAt)
  }

  /**
   A commit that is not sent yet can come first only if its clock was read early
   enough, and, if it holds no slot, only if there are slots besides the due
   commit's own.
   */
  predicate Comes(capacity: nat, submitter: Submitter, readyAt: nat) {
    && (submitter.Reserved? || (submitter.Timed? && capacity > 1))
    && submitter.job.notBefore < readyAt
  }

  function Overtakers(s: State, k: nat, readyAt: nat): nat {
    |Threats(s.worker, s.log.sent, k, readyAt)| + One(Comes(s.capacity, s.submitter, readyAt))
  }

  predicate Due(s: State, k: nat, readyAt: nat) {
    k in s.worker.queue && s.worker.queue[k].readyAt == readyAt && readyAt <= s.now
  }

  lemma {:induction false} FewerThreats(
    worker: WorkerState, sent: seq<Job>, after: WorkerState, k: nat, readyAt: nat)
    requires forall l: nat | l < |sent| && l != k && Threatens(after, sent, l, k, readyAt) ::
               Threatens(worker, sent, l, k, readyAt)
    ensures |Threats(after, sent, k, readyAt)| <= |Threats(worker, sent, k, readyAt)|
  {
    SubsetIsSmaller(Threats(after, sent, k, readyAt), Threats(worker, sent, k, readyAt));
  }

  lemma {:induction false} SubsetIsSmaller(a: set<nat>, b: set<nat>)
    requires a <= b
    ensures |a| <= |b|
  {
    assert b == a + (b - a);
  }

  // ---------- How a step changes that ----------

  lemma {:induction false} ReceiveIsFair(s: State, at: Worker, k: nat, readyAt: nat)
    requires Slots(s) && Places(s) && Due(s, k, readyAt)
    requires s.shared.channel != [] && Hand(s.worker.at).None? && Hand(at).None?
    ensures Due(Receive(s, at), k, readyAt)
    ensures Overtakers(Receive(s, at), k, readyAt) <= Overtakers(s, k, readyAt)
  {
    ReceivesNext(s);
    assert OwnEntry(s.log.sent, s.worker.order, s.worker.queue[k], k);
    FewerThreats(s.worker, s.log.sent, Receive(s, at).worker, k, readyAt);
  }

  /** The commit a pop takes is k, or one of those counted. */
  lemma {:induction false} PopIsFair(s: State, n: nat, k: nat, readyAt: nat)
    requires Places(s) && Due(s, k, readyAt) && IsNext(s.worker.queue, n) && n != k && Hand(s.worker.at).None?
    ensures Due(Pop(s, n), k, readyAt)
    ensures Overtakers(Pop(s, n), k, readyAt) <= Overtakers(s, k, readyAt)
  {
    assert OwnEntry(s.log.sent, s.worker.order, s.worker.queue[n], n);
    FewerThreats(s.worker, s.log.sent, Pop(s, n).worker, k, readyAt);
  }

  /** An attempt uses up one of them: its commit, if retried, comes back behind k. */
  lemma {:induction false} AttemptIsFair(s: State, k: nat, readyAt: nat)
    requires Places(s) && Due(s, k, readyAt) && s.worker.at.Popped?
    ensures Due(AttemptStep(s, s.worker.at.held), k, readyAt)
    ensures Overtakers(AttemptStep(s, s.worker.at.held), k, readyAt) + 1 <= Overtakers(s, k, readyAt)
  {
    var n, t := s.worker.at.held.order, AttemptStep(s, s.worker.at.held);
    var threats := Threats(s.worker, s.log.sent, k, readyAt);
    assert OwnEntry(s.log.sent, s.worker.order, s.worker.at.held, n);
    assert n in threats;
    assert Threats(t.worker, t.log.sent, k, readyAt) <= threats - {n};
    SubsetIsSmaller(Threats(t.worker, t.log.sent, k, readyAt), threats - {n});
  }

  lemma {:induction false} ResultIsFair(s: State, result: IoctlResult, k: nat, readyAt: nat)
    requires Places(s) && Due(s, k, readyAt) && s.worker.at.InFlight? && s.worker.at.held.expiresAt.Some?
    ensures var t := ResultStep(s, s.worker.at.held, s.worker.at.attemptedAt, result);
            && Due(t, k, readyAt)
            && Overtakers(t, k, readyAt) <= Overtakers(s, k, readyAt)
            && t.log.ioctls == s.log.ioctls
  {
    var t := ResultStep(s, s.worker.at.held, s.worker.at.attemptedAt, result);
    FewerThreats(s.worker, s.log.sent, t.worker, k, readyAt);
  }

  /** Steps of the worker that move no commit. */
  lemma {:induction false} WaitIsFair(s: State, t: State, k: nat, readyAt: nat)
    requires Due(s, k, readyAt) && t.now == s.now
    requires t.worker.queue == s.worker.queue && t.worker.order == s.worker.order
    requires !t.worker.at.Popped? && !t.worker.at.InFlight?
    requires t.log.sent == s.log.sent && t.submitter == s.submitter && t.capacity == s.capacity
    ensures Due(t, k, readyAt) && Overtakers(t, k, readyAt) <= Overtakers(s, k, readyAt)
  {
    FewerThreats(s.worker, s.log.sent, t.worker, k, readyAt);
  }

  /** After a step k is still due with no more ahead of it than were left, or it is k's turn. */
  predicate StillFair(s: State, t: State, k: nat, readyAt: nat) {
    || (Due(t, k, readyAt) && t.log.ioctls + Overtakers(t, k, readyAt) <= s.log.ioctls + Overtakers(s, k, readyAt))
    || (t.worker.at.Popped? && t.worker.at.held.order == k && t.log.ioctls == s.log.ioctls)
  }

  lemma {:induction false} PeekIsFair(s: State, k: nat, readyAt: nat)
    requires Places(s) && Due(s, k, readyAt) && s.worker.at.Peeking?
    ensures StillFair(s, PeekStep(s), k, readyAt)
  {
    var n := Next(s.worker.queue);
    assert OwnEntry(s.log.sent, s.worker.order, s.worker.queue[n], n);
    if n != k {
      PopIsFair(s, n, k, readyAt);
    }
  }

  lemma {:induction false} WorkIsFair(s: State, result: IoctlResult, early: bool, t: State, k: nat, readyAt: nat)
    requires Slots(s) && Places(s) && Due(s, k, readyAt) && WorkStep(s, result, early) == Some(t)
    ensures StillFair(s, t, k, readyAt)
  {
    match s.worker.at
    case Peeking => PeekIsFair(s, k, readyAt);
    case Popped(_) => AttemptIsFair(s, k, readyAt);
    case InFlight(_, _) => ResultIsFair(s, result, k, readyAt);
    case _ =>
      if t.worker.order > s.worker.order {
        ReceiveIsFair(s, t.worker.at, k, readyAt);
      } else {
        WaitIsFair(s, t, k, readyAt);
      }
  }

  /** A job sent now is behind k, unless it was counted while it was coming. */
  lemma {:induction false} SendIsFair(worker: WorkerState, sent: seq<Job>, job: Job, k: nat, readyAt: nat)
    requires worker.order <= |sent|
    requires InQueue(sent, worker.order, worker.queue)
    requires InHand(sent, worker.order, worker.queue, Hand(worker.at))
    ensures |Threats(worker, sent + [job], k, readyAt)|
         <= |Threats(worker, sent, k, readyAt)| + One(job.notBefore < readyAt)
  {
    var before, after := Threats(worker, sent, k, readyAt), Threats(worker, sent + [job], k, readyAt);
    assert after <= before + if job.notBefore < readyAt then {|sent|} else {};
    SubsetIsSmaller(after, before + if job.notBefore < readyAt then {|sent|} else {});
  }

  lemma {:induction false} SubmitIsFair(s: State, offer: Offer, t: State, k: nat, readyAt: nat)
    requires Slots(s) && Places(s) && Due(s, k, readyAt) && SubmitStep(s, offer) == Some(t)
    ensures StillFair(s, t, k, readyAt)
  {
    if s.submitter.Reserved? {
      SendIsFair(s.worker, s.log.sent, s.submitter.job, k, readyAt);
    }
  }

  lemma {:induction false} StepIsFair(s: State, action: Action, t: State, k: nat, readyAt: nat)
    requires Slots(s) && Places(s) && Due(s, k, readyAt) && Step(s, action) == Some(t)
    ensures StillFair(s, t, k, readyAt)
  {
    match action
    case Submit(offer) => SubmitIsFair(s, offer, t, k, readyAt);
    case Work(result, early) => WorkIsFair(s, result, early, t, k, readyAt);
    case _ =>
  }

  // ---------- How many there can be ----------

  function Range(from: nat, length: nat): (range: set<nat>)
    ensures forall l: nat :: l in range <==> from <= l < from + length
    ensures |range| == length
  {
    if length == 0 then {} else Range(from, length - 1) + {from + length - 1}
  }

  lemma {:induction false} KeysAreCounted(queue: Queue, k: nat)
    requires k in queue
    ensures |queue.Keys - {k}| == |queue| - 1
  {
    assert queue.Keys == (queue.Keys - {k}) + {k};
  }

  /** A submission that has read its clock early enough, but holds no slot, while there are others than the due one. */
  predicate Latecomer(s: State, readyAt: nat) {
    s.submitter.Timed? && Comes(s.capacity, s.submitter, readyAt)
  }

  lemma {:induction false} ThreatsHoldSlots(s: State, k: nat, readyAt: nat)
    requires Slots(s) && Places(s) && k in s.worker.queue
    ensures |Threats(s.worker, s.log.sent, k, readyAt)|
         <= |s.shared.channel| + |s.worker.queue| - 1 + WorkerSlots(s.worker.at)
  {
    var others := s.worker.queue.Keys - {k};
    var hand := if WorkerSlots(s.worker.at) == 1 then {s.worker.at.held.order} else {};
    var inChannel := Range(s.worker.order, |s.shared.channel|);
    var threats := Threats(s.worker, s.log.sent, k, readyAt);
    KeysAreCounted(s.worker.queue, k);
    assert threats <= others + hand + inChannel;
    SubsetIsSmaller(threats, others + hand + inChannel);
    assert |others + hand + inChannel| <= |others| + |hand| + |inChannel|;
  }

  /** Whoever is counted holds a slot, except such a submission. */
  lemma {:induction false} OvertakersHoldSlots(s: State, k: nat, readyAt: nat)
    requires Slots(s) && Places(s) && k in s.worker.queue
    ensures Overtakers(s, k, readyAt) <= s.capacity - 1 + One(Latecomer(s, readyAt))
  {
    ThreatsHoldSlots(s, k, readyAt);
  }

  // ---------- Over whole runs ----------

  /** It is k's turn: the worker holds it and attempts nothing else before it. */
  predicate HasTurn(s: State, k: nat) {
    s.worker.at.Popped? && s.worker.at.held.order == k
  }

  lemma {:induction false} TurnIsTaken(s: State, action: Action, t: State, k: nat)
    requires HasTurn(s, k) && Step(s, action) == Some(t)
    ensures (HasTurn(t, k) && t.log.ioctls == s.log.ioctls)
         || |Times(t.log.attempts, k)| > |Times(s.log.attempts, k)|
  {
  }

  lemma {:induction false} AttemptsGrow(s: State, action: Action, t: State, k: nat)
    requires Step(s, action) == Some(t)
    ensures |Times(s.log.attempts, k)| <= |Times(t.log.attempts, k)|
  {
  }

  /** Where commit k can be after it was due: attempted since, in the worker's hand, or still due. */
  predicate Progress(s: State, t: State, k: nat, readyAt: nat) {
    var before, after := |Times(s.log.attempts, k)|, |Times(t.log.attempts, k)|;
    var limit := s.log.ioctls + Overtakers(s, k, readyAt);
    || before < after
    || (before == after && HasTurn(t, k) && t.log.ioctls <= limit)
    || (before == after && Due(t, k, readyAt) && t.log.ioctls + Overtakers(t, k, readyAt) <= limit)
  }

  lemma {:induction false} ProgressIsKept(s: State, t: State, action: Action, u: State, k: nat, readyAt: nat)
    requires Slots(t) && Places(t) && Progress(s, t, k, readyAt) && Step(t, action) == Some(u)
    ensures Progress(s, u, k, readyAt)
  {
    AttemptsGrow(t, action, u, k);
    if HasTurn(t, k) {
      TurnIsTaken(t, action, u, k);
    } else if Due(t, k, readyAt) {
      StepIsFair(t, action, u, k, readyAt);
    }
  }

  lemma {:induction false} RunProgresses(
    states: seq<State>, actions: seq<Action>, i: nat, j: nat, k: nat, readyAt: nat)
    requires IsRun(states, actions) && i <= j < |states| && Due(states[i], k, readyAt)
    ensures Progress(states[i], states[j], k, readyAt)
  {
    if i < j {
      RunProgresses(states, actions, i, j - 1, k, readyAt);
      assert StepAt(states, actions, j - 1);
      SlotsAreKept(states, actions, j - 1);
      ProgressIsKept(states[i], states[j - 1], actions[j - 1], states[j], k, readyAt);
    }
  }

  /** Along a run commit k is due at state i and has not been attempted since at state j. */
  ghost predicate Waits(states: seq<State>, actions: seq<Action>, i: nat, j: nat, k: nat, readyAt: nat) {
    && IsRun(states, actions) && i <= j < |states|
    && Due(states[i], k, readyAt)
    && |Times(states[j].log.attempts, k)| == |Times(states[i].log.attempts, k)|
  }

  /**
   Bounded overtaking: from the moment a waiting commit is due, until it is
   attempted, there are no more other attempts than commits that may still come
   first: fewer than there are slots, and one more only if there is a second
   slot and a submission had at that moment read its clock before the deadline
   without yet taking a slot.
   */
  lemma {:induction false} OvertakingIsBounded(
    states: seq<State>, actions: seq<Action>, i: nat, j: nat, k: nat, readyAt: nat)
    requires Waits(states, actions, i, j, k, readyAt)
    ensures states[j].log.ioctls - states[i].log.ioctls <= Overtakers(states[i], k, readyAt)
         <= states[i].capacity - 1 + One(Latecomer(states[i], readyAt))
  {
    RunProgresses(states, actions, i, j, k, readyAt);
    SlotsAreKept(states, actions, i);
    OvertakersHoldSlots(states[i], k, readyAt);
  }
}
