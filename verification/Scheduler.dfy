/**
 The deadline scheduler for display commits, as a machine whose steps are the
 atomic operations of its threads: the clock, one submitter, the shutdown
 sequence and the worker. An ioctl may end in any way; time is in nanoseconds.
 */
module Scheduler {
  import opened Wrappers

  const LEAD: nat := 2_000_000
  const RETRY_INTERVAL: nat := 100_000
  const MAX_WAIT: nat := 100_000_000

  datatype CommitId = CommitId(stream: nat, frame: nat)

  /** What a caller submits: the payload stands for the plane request, framebuffer and damage it hands over. */
  datatype Offer = Offer(commit: CommitId, target: nat, payload: nat)

  /** A submitted commit. The presentation target is kept so that claims can mention it. */
  datatype Job = Job(instance: U64, commit: CommitId, target: nat, notBefore: nat, payload: nat)

  datatype Scheduled = Scheduled(job: Job, readyAt: nat, expiresAt: Option<nat>, order: nat)

  datatype ErrorClass = Retryable | Recoverable | Other

  datatype IoctlResult = Accepted | Refused(error: ErrorClass)

  datatype Event =
    | Submitted(instance: U64, commit: CommitId, submittedAt: nat)
    | Stalled(instance: U64, commit: CommitId, cause: ErrorClass)
    | Failed(instance: U64, commit: CommitId, cause: ErrorClass)

  datatype Disposition = Retry | Recover | Fail

  function FailureDisposition(error: ErrorClass, attemptedAt: nat, expiresAt: nat): Disposition {
    if error.Retryable? && attemptedAt < expiresAt then Retry
    else if error.Retryable? || error.Recoverable? then Recover
    else Fail
  }

  function NotBefore(target: nat, now: nat): nat {
    var early := if target < LEAD then now else target - LEAD;
    if early < now then now else early
  }

  /** It is the earliest moment that is neither past nor more than the lead before the target. */
  lemma NotBeforeIsEarliest(target: nat, now: nat, t: nat)
    ensures NotBefore(target, now) <= t <==> now <= t && target <= t + LEAD
  {
  }

  // ---------- The worker's queue ----------

  /** Commits waiting in the worker, by arrival number. */
  type Queue = map<nat, Scheduled>

  /** Earlier deadline first, then earlier arrival. */
  predicate Before(readyAt: nat, order: nat, otherReadyAt: nat, otherOrder: nat) {
    readyAt < otherReadyAt || (readyAt == otherReadyAt && order < otherOrder)
  }

  predicate IsNext(queue: Queue, k: nat) {
    k in queue && forall l | l in queue && l != k :: Before(queue[k].readyAt, k, queue[l].readyAt, l)
  }

  lemma {:induction false} HasNext(queue: Queue)
    requires queue != map[]
    ensures exists k :: IsNext(queue, k)
  {
    var k :| k in queue;
    var rest := queue - {k};
    if rest == map[] {
      assert forall l | l in queue :: l == k || l in rest;
      assert IsNext(queue, k);
    } else {
      HasNext(rest);
      var n :| IsNext(rest, n);
      assert forall l | l in queue :: l == k || l in rest;
      assert IsNext(queue, if Before(queue[k].readyAt, k, queue[n].readyAt, n) then k else n);
    }
  }

  lemma {:induction false} NextIsUnique(queue: Queue, k: nat, l: nat)
    requires IsNext(queue, k) && IsNext(queue, l)
    ensures k == l
  {
  }

  /** The commit a pop takes: lexicographically least in deadline and arrival. */
  ghost function Next(queue: Queue): (k: nat)
    requires queue != map[]
    ensures IsNext(queue, k)
  {
    HasNext(queue);
    var k :| IsNext(queue, k);
    k
  }

  function Arrival(job: Job, order: nat): Scheduled {
    Scheduled(job, job.notBefore, None, order)
  }

  // ---------- The state ----------

  datatype Submitter =
    | Idle
    | Timed(job: Job)     // the clock is read, no slot is taken
    | Reserved(job: Job)  // a slot is taken, nothing is sent
    | Releasing(answer: Answer)  // the send failed, the slot is still taken

  /** What a submission returns. */
  datatype Answer = Queued | Backpressured | ShutDown | ExitedUnexpectedly

  datatype Shutdown = Running | Cancelled | Disconnected | Unparked | Joined

  datatype Worker =
    | Top                                       // about to load the cancellation flag
    | Draining
    | Peeking
    | Receiving                                 // blocked until a job or a disconnection
    | Entering(length: nat, readAt: nat)        // the clock is read, the wait of that length is not yet begun
    | ReceivingUntil(deadline: nat, lag: nat)   // lag: how long after the clock read the wait was begun
    | Parked(deadline: nat, lag: nat)
    | Popped(held: Scheduled)                   // off the queue, not yet attempted
    | InFlight(held: Scheduled, attemptedAt: nat)
    | Finishing(held: Scheduled, event: Event)  // done, the slot is still taken
    | Reporting(held: Scheduled, event: Event)  // the slot is free, the event is not yet reported
    | Exited

  datatype Report = Report(order: nat, event: Event)

  /** Shared between the threads. */
  datatype Shared = Shared(pending: int, cancelled: bool, channel: seq<Job>, senderAlive: bool, token: bool)

  /** The worker's own variables, and where it is. */
  datatype WorkerState = WorkerState(at: Worker, queue: Queue, order: nat, connected: bool)

  /** History: answers given, jobs sent, attempts made on each, all ioctls, and events reported. */
  datatype Log = Log(
    answers: seq<Answer>, sent: seq<Job>, attempts: map<nat, seq<nat>>, ioctls: nat, reports: seq<Report>)

  datatype State = State(
    capacity: nat, instance: U64, now: nat, submitter: Submitter, shutdown: Shutdown,
    shared: Shared, worker: WorkerState, log: Log)

  predicate Initial(s: State) {
    && s.capacity > 0
    && s.submitter == Idle && s.shutdown == Running
    && s.shared == Shared(0, false, [], true, false)
    && s.worker == WorkerState(Top, map[], 0, true)
    && s.log == Log([], [], map[], 0, [])
  }

  /** The times at which commit k was attempted. */
  function Times(attempts: map<nat, seq<nat>>, k: nat): seq<nat> {
    if k in attempts then attempts[k] else []
  }

  // ---------- Steps ----------

  datatype Action =
    | Tick(later: nat)
    | Submit(offer: Offer)
    | Shut
    | Work(result: IoctlResult, early: bool)  // early: a wait ends on its own

  function TickStep(s: State, later: nat): Option<State> {
    if later >= s.now then Some(s.(now := later)) else None
  }

  function Answered(s: State, answer: Answer): State {
    s.(submitter := Idle, log := s.log.(answers := s.log.answers + [answer]))
  }

  function Reserve(s: State): State
    requires s.submitter.Timed?
  {
    s.(shared := s.shared.(pending := s.shared.pending + 1), submitter := Reserved(s.submitter.job))
  }

  function Send(s: State, job: Job): State {
    s.(shared := s.shared.(channel := s.shared.channel + [job]), log := s.log.(sent := s.log.sent + [job]))
  }

  function Release(s: State): State {
    s.(shared := s.shared.(pending := s.shared.pending - 1))
  }

  function JobFor(s: State, offer: Offer): Job {
    Job(s.instance, offer.commit, offer.target, NotBefore(offer.target, s.now), offer.payload)
  }

  /** submit_for_target and try_submit. They and shutdown exclude each other. */
  function SubmitStep(s: State, offer: Offer): Option<State> {
    match s.submitter
    case Idle =>
      if s.shutdown.Running? || s.shutdown.Joined?
      then Some(s.(submitter := Timed(JobFor(s, offer))))
      else None
    case Timed(job) =>
      if !s.shared.senderAlive then Some(Answered(s, ShutDown))
      else if s.shared.pending < s.capacity then Some(Reserve(s))
      else Some(Answered(s, Backpressured))
    case Reserved(job) =>
      if s.worker.at.Exited? then Some(s.(submitter := Releasing(ExitedUnexpectedly)))
      else if |s.shared.channel| >= s.capacity then Some(s.(submitter := Releasing(Backpressured)))
      else Some(Answered(Send(s, job), Queued))
    case Releasing(answer) =>
      Some(Answered(Release(s), answer))
  }

  function ShutStep(s: State): Option<State> {
    match s.shutdown
    case Running =>
      if s.submitter.Idle? then Some(s.(shared := s.shared.(cancelled := true), shutdown := Cancelled)) else None
    case Cancelled => Some(s.(shared := s.shared.(senderAlive := false), shutdown := Disconnected))
    case Disconnected => Some(s.(shared := s.shared.(token := true), shutdown := Unparked))
    case Unparked => if s.worker.at.Exited? then Some(s.(shutdown := Joined)) else None
    case Joined => None
  }

  function Goto(s: State, at: Worker): State {
    s.(worker := s.worker.(at := at))
  }

  /** Takes the oldest job off the channel and schedules it. */
  function Receive(s: State, at: Worker): State
    requires s.shared.channel != []
  {
    var job, order := s.shared.channel[0], s.worker.order;
    s.(shared := s.shared.(channel := s.shared.channel[1..]),
       worker := WorkerState(at, s.worker.queue[order := Arrival(job, order)], order + 1, s.worker.connected))
  }

  function Pop(s: State, k: nat): State
    requires k in s.worker.queue
  {
    s.(worker := s.worker.(at := Popped(s.worker.queue[k]), queue := s.worker.queue - {k}))
  }

  ghost function PeekStep(s: State): State {
    if s.worker.queue == map[] then
      Goto(s, if s.worker.connected then Receiving else Exited)
    else
      var k := Next(s.worker.queue);
      var readyAt := s.worker.queue[k].readyAt;
      if s.now < readyAt
      then Goto(s, Entering(readyAt - s.now, s.now))
      else Pop(s, k)
  }

  /** Begins a wait. Its length was computed from an earlier reading of the clock, but it runs from now. */
  function EnterStep(s: State, length: nat, lag: nat): State {
    var deadline := s.now + length;
    Goto(s, if s.worker.connected then ReceivingUntil(deadline, lag) else Parked(deadline, lag))
  }

  function AttemptStep(s: State, popped: Scheduled): State {
    var expiresAt := if popped.expiresAt.Some? then popped.expiresAt.value else s.now + MAX_WAIT;
    Goto(s, InFlight(popped.(expiresAt := Some(expiresAt)), s.now))
      .(log := s.log.(attempts := s.log.attempts[popped.order := Times(s.log.attempts, popped.order) + [s.now]],
                      ioctls := s.log.ioctls + 1))
  }

  function Reinsert(s: State, held: Scheduled, readyAt: nat): State {
    s.(worker := s.worker.(at := Top, queue := s.worker.queue[held.order := held.(readyAt := readyAt)]))
  }

  function ResultStep(s: State, held: Scheduled, attemptedAt: nat, result: IoctlResult): State
    requires held.expiresAt.Some?
  {
    match result
    case Accepted => Goto(s, Finishing(held, Submitted(held.job.instance, held.job.commit, s.now)))
    case Refused(error) =>
      match FailureDisposition(error, attemptedAt, held.expiresAt.value)
      case Retry => Reinsert(s, held, attemptedAt + RETRY_INTERVAL)
      case Recover => Goto(s, Finishing(held, Stalled(held.job.instance, held.job.commit, error)))
      case Fail => Goto(s, Finishing(held, Failed(held.job.instance, held.job.commit, error)))
  }

  function ReportStep(s: State, held: Scheduled, event: Event): State {
    Goto(s, Top).(log := s.log.(reports := s.log.reports + [Report(held.order, event)]))
  }

  /** One step of the worker, or nothing where it is blocked or gone. */
  ghost function WorkStep(s: State, result: IoctlResult, early: bool): Option<State> {
    match s.worker.at
    case Top =>
      Some(Goto(s, if s.shared.cancelled then Exited else if s.worker.connected then Draining else Peeking))
    case Draining =>
      if s.shared.channel != [] then Some(Receive(s, Draining))
      else Some(s.(worker := s.worker.(at := Peeking, connected := s.shared.senderAlive)))
    case Peeking => Some(PeekStep(s))
    case Receiving =>
      if s.shared.channel != [] then Some(Receive(s, Top))
      else if !s.shared.senderAlive then Some(Goto(s, Exited))
      else None
    case Entering(length, readAt) => Some(EnterStep(s, length, SaturatingSub(s.now, readAt)))
    case ReceivingUntil(deadline, _) =>
      if early && s.now >= deadline then Some(Goto(s, Top))
      else if s.shared.channel != [] then Some(Receive(s, Top))
      else if !s.shared.senderAlive then Some(s.(worker := s.worker.(at := Top, connected := false)))
      else if s.now >= deadline then Some(Goto(s, Top))
      else None
    case Parked(deadline, _) =>
      if s.shared.token || early || s.now >= deadline
      then Some(Goto(s, Top).(shared := s.shared.(token := false)))
      else None
    case Popped(popped) => Some(AttemptStep(s, popped))
    case InFlight(held, attemptedAt) =>
      if held.expiresAt.Some? then Some(ResultStep(s, held, attemptedAt, result)) else None
    case Finishing(held, event) => Some(Goto(Release(s), Reporting(held, event)))
    case Reporting(held, event) => Some(ReportStep(s, held, event))
    case Exited => None
  }

  ghost function Step(s: State, action: Action): Option<State> {
    match action
    case Tick(later) => TickStep(s, later)
    case Submit(offer) => SubmitStep(s, offer)
    case Shut => ShutStep(s)
    case Work(result, early) => WorkStep(s, result, early)
  }

  /** States and the actions between them, from the start of the scheduler on. */
  ghost predicate IsRun(states: seq<State>, actions: seq<Action>) {
    && |states| == |actions| + 1
    && Initial(states[0])
    && forall i | 0 <= i < |actions| :: StepAt(states, actions, i)
  }

  ghost predicate StepAt(states: seq<State>, actions: seq<Action>, i: nat)
    requires |states| == |actions| + 1 && i < |actions|
  {
    Step(states[i], actions[i]) == Some(states[i + 1])
  }
}
