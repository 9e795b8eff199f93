/**
 The scheduler's operations as the program runs them: the owner's handle and
 the worker's local state, each method tied to the steps of the machine.
 */
module CommitScheduling {
  import opened Wrappers
  import opened Scheduler

  // ---------- The owner's handle ----------

  /** Once the clock is read a submission's steps no longer look at what is offered. */
  const NO_OFFER := Offer(CommitId(0, 0), 0, 0)

  /** Runs a submission that has read its clock to its answer, no other thread interfering. */
  function Settle(s: State): State
    requires !s.submitter.Idle?
    decreases match s.submitter case Timed(_) => 2 case Reserved(_) => 1 case _ => 0
  {
    var t := SubmitStep(s, NO_OFFER).value;
    if t.submitter.Idle? then t else Settle(t)
  }

  class CommitScheduler {
    const capacity: nat
    var pending: int
    var cancelled: bool
    var channel: seq<Job>
    var senderAlive: bool
    var token: bool
    var joined: bool

    ghost predicate Shares(s: State)
      reads this
    {
      s.capacity == capacity && s.shared == Shared(pending, cancelled, channel, senderAlive, token)
    }

    constructor (capacity: nat)
      requires capacity > 0
      ensures this.capacity == capacity && !joined
      ensures forall s | Initial(s) && s.capacity == capacity :: Shares(s)
    {
      this.capacity := capacity;
      pending, cancelled, channel, senderAlive, token, joined := 0, false, [], true, false, false;
    }

    /** A capacity of zero is refused. */
    static method Start(capacity: nat) returns (started: Result<CommitScheduler, string>)
      ensures started.Ok? <==> capacity > 0
      ensures started.Ok? ==> fresh(started.value) && started.value.capacity == capacity && !started.value.joined
                              && started.value.pending == 0 && started.value.channel == []
    {
      if capacity == 0 {
        return Err("Volition lookahead capacity must be non-zero");
      }
      var scheduler := new CommitScheduler(capacity);
      assert scheduler.Shares(State(capacity, 0, 0, Idle, Running, Shared(0, false, [], true, false),
                                    WorkerState(Top, map[], 0, true), Log([], [], map[], 0, [])));
      started := Ok(scheduler);
    }

    method TrySubmit(job: Job, receiverAlive: bool, ghost s: State) returns (answer: Answer)
      requires Shares(s) && s.submitter == Timed(job) && receiverAlive == !s.worker.at.Exited?
      modifies this`pending, this`channel
      ensures Shares(Settle(s))
      ensures Settle(s).log.answers == s.log.answers + [answer]
    {
      if !senderAlive {
        return ShutDown;
      }
      if pending >= capacity {
        return Backpressured;
      }
      ghost var reserved := SubmitStep(s, NO_OFFER).value;
      ghost var sent := SubmitStep(reserved, NO_OFFER).value;
      assert Settle(s) == Settle(reserved) && (sent.submitter.Releasing? ==> Settle(reserved) == Settle(sent));
      pending := pending + 1;
      if !receiverAlive {
        pending := pending - 1;
        return ExitedUnexpectedly;
      }
      if |channel| >= capacity {
        pending := pending - 1;
        return Backpressured;
      }
      channel := channel + [job];
      answer := Queued;
    }

    /** Stores the flag, drops the sender, and unparks the worker; then it joins it. */
    method Shutdown(ghost s: State)
      requires Shares(s) && s.submitter.Idle? && s.shutdown == if joined then Joined else Running
      modifies this`cancelled, this`senderAlive, this`token, this`joined
      ensures joined
      ensures old(joined) ==> Shares(s)
      ensures !old(joined) ==>
                Shares(ShutStep(ShutStep(ShutStep(s).value).value).value)
    {
      if joined {
        return;
      }
      cancelled := true;
      senderAlive := false;
      token := true;
      joined := true;
    }

    /** Gives the slot back; the caller reports the event afterwards. */
    method FinishJob(ghost s: State)
      requires Shares(s) && s.worker.at.Finishing? && pending > 0
      modifies this`pending
      ensures Shares(WorkStep(s, Accepted, false).value)
    {
      pending := pending - 1;
    }
  }

  // ---------- The worker's local state ----------

  /** The queue after receiving jobs in order. */
  function Arrivals(queue: Queue, order: nat, jobs: seq<Job>): Queue {
    if jobs == [] then queue
    else Arrivals(queue, order, jobs[..|jobs| - 1])[order + |jobs| - 1 := Arrival(jobs[|jobs| - 1], order + |jobs| - 1)]
  }

  class CommitWorker {
    var queue: Queue
    var order: nat
    var connected: bool

    /** The worker's variables are these, wherever it is. */
    ghost predicate Has(worker: WorkerState)
      reads this
    {
      worker.queue == queue && worker.order == order && worker.connected == connected
    }

    constructor ()
      ensures forall s | Initial(s) :: Has(s.worker)
    {
      queue, order, connected := map[], 0, true;
    }

    method ScheduleJob(job: Job)
      modifies this`queue, this`order
      ensures queue == old(queue)[old(order) := Arrival(job, old(order))] && order == old(order) + 1
    {
      queue := queue[order := Arrival(job, order)];
      order := order + 1;
    }

    /** Empties the channel into the queue. */
    method DrainJobs(channel: seq<Job>, senderAlive: bool, ghost s: State)
      requires s.worker.at == Draining && Has(s.worker)
      requires s.shared.channel == channel && s.shared.senderAlive == senderAlive
      modifies this
      ensures Has(Drained(s).worker)
      ensures queue == Arrivals(old(queue), old(order), channel) && order == old(order) + |channel|
      ensures connected == senderAlive
    {
      for i := 0 to |channel|
        invariant queue == Arrivals(old(queue), old(order), channel[..i]) && order == old(order) + i
        invariant connected == old(connected)
      {
        assert channel[..i + 1][..i] == channel[..i];
        ScheduleJob(channel[i]);
      }
      assert channel[..|channel|] == channel;
      connected := senderAlive;
      DrainedIsArrivals(s);
    }

    /** The deadline of the next commit, if there is one. */
    method PeekReadyAt() returns (readyAt: Option<nat>)
      ensures readyAt.None? <==> queue == map[]
      ensures readyAt.Some? ==> readyAt.value == queue[Next(queue)].readyAt
      ensures readyAt.Some? ==> forall k | k in queue :: readyAt.value <= queue[k].readyAt
    {
      if queue == map[] {
        return None;
      }
      HasNext(queue);
      var k :| IsNext(queue, k);
      NextIsUnique(queue, k, Next(queue));
      readyAt := Some(queue[k].readyAt);
    }

    /** Takes off the commit with the least deadline, among equals the earliest arrival. */
    method PopNext(ghost s: State) returns (scheduled: Scheduled)
      requires queue != map[] && Has(s.worker) && s.worker.at.Peeking?
      requires s.now >= queue[Next(queue)].readyAt
      modifies this`queue
      ensures Has(PeekStep(s).worker) && PeekStep(s).worker.at == Popped(scheduled)
      ensures exists k :: k in old(queue) && old(queue)[k] == scheduled && queue == old(queue) - {k}
                          && forall l | l in old(queue) ::
                               || scheduled.readyAt < old(queue)[l].readyAt
                               || (scheduled.readyAt == old(queue)[l].readyAt && k <= l)
    {
      HasNext(queue);
      var k :| IsNext(queue, k);
      NextIsUnique(queue, k, Next(queue));
      scheduled := queue[k];
      queue := queue - {k};
    }

    /** One attempt: what the worker does with a popped commit and the ioctl's result. */
    method Attempt(popped: Scheduled, attemptedAt: nat, result: IoctlResult, endedAt: nat, ghost s: State)
      returns (event: Option<Event>)
      requires Has(s.worker) && s.worker.at == Popped(popped) && s.now == attemptedAt <= endedAt
      modifies this`queue
      ensures var t := Attempted(s, result, endedAt);
              && Has(t.worker)
              && (event.None? ==> t.worker.at.Top?)
              && (event.Some? ==> t.worker.at.Finishing? && t.worker.at.event == event.value)
    {
      var scheduled := popped;
      if scheduled.expiresAt.None? {
        scheduled := scheduled.(expiresAt := Some(attemptedAt + MAX_WAIT));
      }
      var expiresAt := scheduled.expiresAt.value;
      if result.Accepted? {
        return Some(Submitted(scheduled.job.instance, scheduled.job.commit, endedAt));
      }
      match FailureDisposition(result.error, attemptedAt, expiresAt) {
        case Retry =>
          scheduled := scheduled.(readyAt := attemptedAt + RETRY_INTERVAL);
          queue := queue[scheduled.order := scheduled];
          event := None;
        case Recover =>
          event := Some(Stalled(scheduled.job.instance, scheduled.job.commit, result.error));
        case Fail =>
          event := Some(Failed(scheduled.job.instance, scheduled.job.commit, result.error));
      }
    }
  }

  /** The machine's steps from a pop to the ioctl's result, the clock moving on in between. */
  function Attempted(s: State, result: IoctlResult, endedAt: nat): State
    requires s.worker.at.Popped?
  {
    var t := AttemptStep(s, s.worker.at.held).(now := endedAt);
    ResultStep(t, t.worker.at.held, t.worker.at.attemptedAt, result)
  }

  /** The machine's steps that drain the channel, nothing being sent meanwhile. */
  ghost function Drained(s: State): State
    requires s.worker.at.Draining?
    decreases |s.shared.channel|
  {
    var t := WorkStep(s, Accepted, false).value;
    if s.shared.channel == [] then t else Drained(t)
  }

  lemma {:induction false} ArrivalsFromFront(queue: Queue, order: nat, jobs: seq<Job>)
    requires jobs != []
    ensures Arrivals(queue, order, jobs) == Arrivals(queue[order := Arrival(jobs[0], order)], order + 1, jobs[1..])
  {
    var last := |jobs| - 1;
    if last > 0 {
      ArrivalsFromFront(queue, order, jobs[..last]);
      assert jobs[..last][1..] == jobs[1..][..last - 1];
    } else {
      assert jobs[..0] == [] && jobs[1..] == [];
    }
  }

  /** Draining step by step is receiving all jobs in order, and only then looking at the sender. */
  lemma {:induction false} DrainedIsArrivals(s: State)
    requires s.worker.at.Draining?
    ensures Drained(s).worker == WorkerState(
              Peeking, Arrivals(s.worker.queue, s.worker.order, s.shared.channel),
              s.worker.order + |s.shared.channel|, s.shared.senderAlive)
    ensures Drained(s).shared == s.shared.(channel := [])
    decreases |s.shared.channel|
  {
    if s.shared.channel != [] {
      ArrivalsFromFront(s.worker.queue, s.worker.order, s.shared.channel);
      DrainedIsArrivals(Receive(s, Draining));
    }
  }
}
