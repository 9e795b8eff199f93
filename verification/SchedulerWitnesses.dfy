/**
 The bounds on overtaking, on attempts and on sleeping are reached: for every
 capacity above one a run in which a due commit waits for as many other attempts
 as there are slots, a run with 1001 attempts on one commit, and for every lag a
 run in which the worker sleeps on a due commit up to the last moment of it.
 */
module SchedulerWitnesses {
  import opened Wrappers
  import opened Scheduler
  import opened SchedulerFairness
  import opened SchedulerProgress

  // ---------- Building runs ----------

  /** The state after actions, if all of them can be taken. */
  ghost function Outcome(s: State, actions: seq<Action>): Option<State> {
    if actions == [] then Some(s)
    else
      match Outcome(s, actions[..|actions| - 1])
      case None => None
      case Some(t) => Step(t, actions[|actions| - 1])
  }

  /** Takes one more action. */
  lemma {:induction false} Then(s: State, actions: seq<Action>, t: State, action: Action, u: State)
    returns (more: seq<Action>)
    requires Outcome(s, actions) == Some(t) && Step(t, action) == Some(u)
    ensures more == actions + [action] && actions <= more && Outcome(s, more) == Some(u)
  {
    more := actions + [action];
    assert more[..|actions|] == actions;
  }

  /** The run that takes these actions. */
  lemma {:induction false} RunOf(s: State, actions: seq<Action>) returns (states: seq<State>)
    requires Initial(s) && Outcome(s, actions).Some?
    ensures IsRun(states, actions)
    ensures forall n | 0 <= n <= |actions| :: Outcome(s, actions[..n]) == Some(states[n])
  {
    if actions == [] {
      states := [s];
    } else {
      var last := |actions| - 1;
      var front := actions[..last];
      var before := RunOf(s, front);
      states := before + [Outcome(s, actions).value];
      assert front[..last] == front && actions[..|actions|] == actions;
      forall i | 0 <= i < |actions| ensures StepAt(states, actions, i) {
        if i < last {
          assert StepAt(before, front, i);
        }
      }
      forall n | 0 <= n <= last ensures Outcome(s, actions[..n]) == Some(states[n]) {
        assert front[..n] == actions[..n];
      }
    }
  }

  // ---------- Submitting ----------

  /** A commit that may start at once, and one that may start a nanosecond later. */
  const EARLY := Job(0, CommitId(0, 0), 0, 0, 0)
  const LATE := Job(0, CommitId(1, 0), LEAD + 1, 1, 0)

  function Queueds(n: nat): seq<Answer> {
    seq(n, _ => Queued)
  }

  /** Before the worker's first step, with some jobs sent. */
  function Sent(capacity: nat, submitter: Submitter, jobs: seq<Job>): State {
    State(capacity, 0, 0, submitter, Running, Shared(|jobs|, false, jobs, true, false),
          WorkerState(Top, map[], 0, true), Log(Queueds(|jobs|), jobs, map[], 0, []))
  }

  lemma {:induction false} TimeOne(capacity: nat, jobs: seq<Job>, job: Job)
    requires job == EARLY || job == LATE
    ensures SubmitStep(Sent(capacity, Idle, jobs), Offer(job.commit, job.target, job.payload))
         == Some(Sent(capacity, Timed(job), jobs))
  {
    assert NotBefore(job.target, 0) == job.notBefore;
  }

  lemma {:induction false} SendTimed(capacity: nat, jobs: seq<Job>, job: Job)
    requires |jobs| < capacity
    ensures Answered(Send(Reserve(Sent(capacity, Timed(job), jobs)), job), Queued)
         == Sent(capacity, Idle, jobs + [job])
  {
    assert Queueds(|jobs|) + [Queued] == Queueds(|jobs| + 1);
  }

  /** Sends one more job. */
  lemma {:induction false} SendOne(s: State, actions: seq<Action>, capacity: nat, jobs: seq<Job>, job: Job)
    returns (more: seq<Action>)
    requires Outcome(s, actions) == Some(Sent(capacity, Idle, jobs)) && |jobs| < capacity
    requires job == EARLY || job == LATE
    ensures Outcome(s, more) == Some(Sent(capacity, Idle, jobs + [job]))
  {
    var action := Submit(Offer(job.commit, job.target, job.payload));
    var timed := Sent(capacity, Timed(job), jobs);
    TimeOne(capacity, jobs, job);
    SendTimed(capacity, jobs, job);
    more := Then(s, actions, Sent(capacity, Idle, jobs), action, timed);
    more := Then(s, more, timed, action, Reserve(timed));
    more := Then(s, more, Reserve(timed), action, Sent(capacity, Idle, jobs + [job]));
  }

  function Copies(n: nat): seq<Job> {
    seq(n, _ => EARLY)
  }

  lemma {:induction false} SendCopies(s: State, capacity: nat, n: nat) returns (actions: seq<Action>)
    requires s == Sent(capacity, Idle, []) && n < capacity
    ensures Outcome(s, actions) == Some(Sent(capacity, Idle, Copies(n)))
  {
    if n == 0 {
      actions := [];
      assert Copies(0) == [];
    } else {
      actions := SendCopies(s, capacity, n - 1);
      actions := SendOne(s, actions, capacity, Copies(n - 1), EARLY);
      assert Copies(n - 1) + [EARLY] == Copies(n);
    }
  }

  // ---------- Receiving ----------

  /** The commits from one arrival number up to another, all unattempted. */
  function Waitings(jobs: seq<Job>, from: nat, to: nat): Queue
    requires to <= |jobs|
  {
    map k: nat | from <= k < to :: Arrival(jobs[k], k)
  }

  /** A nanosecond later the worker has received n of the jobs, and a further submission has read its clock. */
  function Received(capacity: nat, jobs: seq<Job>, n: nat, at: Worker): State
    requires n <= |jobs|
  {
    State(capacity, 0, 1, Timed(EARLY), Running, Shared(|jobs|, false, jobs[n..], true, false),
          WorkerState(at, Waitings(jobs, 0, n), n, true), Log(Queueds(|jobs|), jobs, map[], 0, []))
  }

  const WORK := Work(Accepted, false)

  lemma {:induction false} ReceiveAll(s: State, actions: seq<Action>, capacity: nat, jobs: seq<Job>, n: nat)
    returns (more: seq<Action>)
    requires n <= |jobs| && Outcome(s, actions) == Some(Received(capacity, jobs, n, Draining))
    ensures Outcome(s, more) == Some(Received(capacity, jobs, |jobs|, Peeking))
    decreases |jobs| - n
  {
    var t := Received(capacity, jobs, n, Draining);
    if n == |jobs| {
      more := Then(s, actions, t, WORK, Received(capacity, jobs, n, Peeking));
    } else {
      assert jobs[n..][1..] == jobs[n + 1..];
      assert Waitings(jobs, 0, n)[n := Arrival(jobs[n], n)] == Waitings(jobs, 0, n + 1);
      more := Then(s, actions, t, WORK, Received(capacity, jobs, n + 1, Draining));
      more := ReceiveAll(s, more, capacity, jobs, n + 1);
    }
  }

  /** The late commit is queued behind early ones in all the other slots, with one more submission under way. */
  lemma {:induction false} FillTheQueue(capacity: nat) returns (s: State, actions: seq<Action>, jobs: seq<Job>)
    requires capacity > 1
    ensures Initial(s) && jobs == Copies(capacity - 1) + [LATE]
    ensures Outcome(s, actions) == Some(Received(capacity, jobs, capacity, Peeking))
  {
    s := Sent(capacity, Idle, []);
    assert Queueds(0) == [];
    var early := Copies(capacity - 1);
    actions := SendCopies(s, capacity, capacity - 1);
    actions := SendOne(s, actions, capacity, early, LATE);
    jobs := early + [LATE];
    var timed := Sent(capacity, Timed(EARLY), jobs);
    actions := Then(s, actions, Sent(capacity, Idle, jobs), Submit(Offer(EARLY.commit, 0, 0)), timed);
    var ticked := timed.(now := 1);
    actions := Then(s, actions, timed, Tick(1), ticked);
    assert Waitings(jobs, 0, 0) == map[] && jobs[0..] == jobs;
    actions := Then(s, actions, ticked, WORK, Received(capacity, jobs, 0, Draining));
    actions := ReceiveAll(s, actions, capacity, jobs, 0);
  }

  // ---------- Serving ----------

  /** The next commit popped and attempted. */
  function Tried(t: State, q: nat): State
    requires q in t.worker.queue
  {
    AttemptStep(Pop(t, q), t.worker.queue[q])
  }

  lemma {:induction false} TryNext(s: State, actions: seq<Action>, t: State, q: nat) returns (more: seq<Action>)
    requires Outcome(s, actions) == Some(t) && t.worker.at == Peeking
    requires IsNext(t.worker.queue, q) && t.worker.queue[q].readyAt <= t.now
    ensures actions <= more && Outcome(s, more) == Some(Tried(t, q))
  {
    NextIsUnique(t.worker.queue, q, Next(t.worker.queue));
    var popped := Pop(t, q);
    more := Then(s, actions, t, WORK, popped);
    more := Then(s, more, popped, WORK, Tried(t, q));
  }

  /** Its slot given back, its event not yet reported. */
  function Given(t: State, q: nat): State
    requires q in t.worker.queue
  {
    var u := Tried(t, q);
    var event := Submitted(u.worker.at.held.job.instance, u.worker.at.held.job.commit, u.now);
    Goto(Release(u), Reporting(u.worker.at.held, event))
  }

  lemma {:induction false} AcceptNext(s: State, actions: seq<Action>, t: State, q: nat) returns (more: seq<Action>)
    requires Outcome(s, actions) == Some(t) && t.worker.at == Peeking
    requires IsNext(t.worker.queue, q) && t.worker.queue[q].readyAt <= t.now
    ensures actions <= more && Outcome(s, more) == Some(Given(t, q))
  {
    more := TryNext(s, actions, t, q);
    var u := Tried(t, q);
    var held := u.worker.at.held;
    var event := Submitted(held.job.instance, held.job.commit, u.now);
    more := Then(s, more, u, WORK, Goto(u, Finishing(held, event)));
    more := Then(s, more, Goto(u, Finishing(held, event)), WORK, Given(t, q));
  }

  /** Reports the event and looks at the channel, where nothing waits. */
  lemma {:induction false} ReportNext(
    s: State, actions: seq<Action>, t: State, held: Scheduled, event: Event) returns (more: seq<Action>)
    requires Outcome(s, actions) == Some(t) && t.worker.at == Reporting(held, event)
    requires !t.shared.cancelled && t.worker.connected && t.shared.senderAlive && t.shared.channel == []
    ensures actions <= more && Outcome(s, more) == Some(Goto(ReportStep(t, held, event), Peeking))
  {
    var u := ReportStep(t, held, event);
    more := Then(s, actions, t, WORK, u);
    more := Then(s, more, u, WORK, Goto(u, Draining));
    more := Then(s, more, Goto(u, Draining), WORK, Goto(u, Peeking));
  }

  /** One attempt each on the first n commits. */
  function Firsts(n: nat): (attempts: map<nat, seq<nat>>)
    ensures forall k: nat :: k in attempts <==> k < n
  {
    if n == 0 then map[] else Firsts(n - 1)[n - 1 := [1]]
  }

  function Reports(n: nat): seq<Report> {
    seq(n, k requires 0 <= k < n => Report(k, Submitted(0, EARLY.commit, 1)))
  }

  /** The first q early commits served, all jobs received, and none coming. */
  function Served(capacity: nat, jobs: seq<Job>, q: nat): State
    requires |jobs| == capacity + 1
  {
    State(capacity, 0, 1, Idle, Running, Shared(capacity + 1 - q, false, [], true, false),
          WorkerState(Peeking, Waitings(jobs, q, capacity + 1), capacity + 1, true),
          Log(Queueds(capacity + 1), jobs, Firsts(q), q, Reports(q)))
  }

  /** All jobs of the run: early ones, the late one, and the submission that was under way. */
  predicate IsTheLot(jobs: seq<Job>, capacity: nat) {
    && |jobs| == capacity + 1 && capacity > 1
    && forall k | 0 <= k <= capacity :: jobs[k] == if k == capacity - 1 then LATE else EARLY
  }

  /** The early ones are served in the order of their arrival, then the one that was under way. */
  lemma {:induction false} EarlyIsNext(jobs: seq<Job>, capacity: nat, q: nat, to: nat)
    requires IsTheLot(jobs, capacity) && q < capacity - 1 && capacity <= to <= capacity + 1
    ensures IsNext(Waitings(jobs, q, to), q) && Waitings(jobs, q, to)[q] == Arrival(EARLY, q)
  {
  }

  lemma {:induction false} NewestIsNext(jobs: seq<Job>, capacity: nat)
    requires IsTheLot(jobs, capacity)
    ensures IsNext(Waitings(jobs, capacity - 1, capacity + 1), capacity)
    ensures Waitings(jobs, capacity - 1, capacity + 1)[capacity] == Arrival(EARLY, capacity)
  {
  }

  /** The submission under way takes the slot given back and is sent. */
  lemma {:induction false} HandOver(s: State, actions: seq<Action>, t: State) returns (more: seq<Action>)
    requires Outcome(s, actions) == Some(t) && t.submitter == Timed(EARLY) && t.worker.at.Reporting?
    requires t.shared.senderAlive && t.shared.pending < t.capacity && |t.shared.channel| < t.capacity
    ensures actions <= more && Outcome(s, more) == Some(Answered(Send(Reserve(t), EARLY), Queued))
  {
    var action := Submit(Offer(EARLY.commit, EARLY.target, EARLY.payload));
    more := Then(s, actions, t, action, Reserve(t));
    more := Then(s, more, Reserve(t), action, Answered(Send(Reserve(t), EARLY), Queued));
  }

  /** Reports the event and receives the one job in the channel. */
  lemma {:induction false} ReportAndReceive(
    s: State, actions: seq<Action>, t: State, held: Scheduled, event: Event) returns (more: seq<Action>)
    requires Outcome(s, actions) == Some(t) && t.worker.at == Reporting(held, event)
    requires !t.shared.cancelled && t.worker.connected && t.shared.senderAlive && |t.shared.channel| == 1
    ensures actions <= more
    ensures Outcome(s, more) == Some(Goto(Receive(Goto(ReportStep(t, held, event), Draining), Draining), Peeking))
  {
    var u := ReportStep(t, held, event);
    var v := Receive(Goto(u, Draining), Draining);
    more := Then(s, actions, t, WORK, u);
    more := Then(s, more, u, WORK, Goto(u, Draining));
    more := Then(s, more, Goto(u, Draining), WORK, v);
    more := Then(s, more, v, WORK, Goto(v, Peeking));
  }

  /** The first early commit gives its slot to the submission under way. */
  lemma {:induction false} ServeFirst(s: State, actions: seq<Action>, capacity: nat, jobs: seq<Job>, lot: seq<Job>)
    returns (more: seq<Action>)
    requires IsTheLot(lot, capacity) && lot == jobs + [EARLY]
    requires Outcome(s, actions) == Some(Received(capacity, jobs, capacity, Peeking))
    ensures actions <= more && Outcome(s, more) == Some(Served(capacity, lot, 1))
  {
    var t := Received(capacity, jobs, capacity, Peeking);
    assert Waitings(jobs, 0, capacity) == Waitings(lot, 0, capacity);
    EarlyIsNext(lot, capacity, 0, capacity);
    more := AcceptNext(s, actions, t, 0);
    var a := Given(t, 0);
    more := HandOver(s, more, a);
    var b := Answered(Send(Reserve(a), EARLY), Queued);
    more := ReportAndReceive(s, more, b, a.worker.at.held, a.worker.at.event);
    var c := ReportStep(b, a.worker.at.held, a.worker.at.event);
    FirstIsServed(capacity, jobs, lot, t, a, b, c, Receive(Goto(c, Draining), Draining));
  }

  lemma {:induction false} FirstIsServed(
    capacity: nat, jobs: seq<Job>, lot: seq<Job>, t: State, a: State, b: State, c: State, d: State)
    requires IsTheLot(lot, capacity) && lot == jobs + [EARLY]
    requires t == Received(capacity, jobs, capacity, Peeking) && 0 in t.worker.queue && a == Given(t, 0)
    requires b == Answered(Send(Reserve(a), EARLY), Queued)
    requires c == ReportStep(b, a.worker.at.held, a.worker.at.event)
    requires d == Receive(Goto(c, Draining), Draining)
    ensures Goto(d, Peeking) == Served(capacity, lot, 1)
  {
    assert (Waitings(jobs, 0, capacity) - {0})[capacity := Arrival(EARLY, capacity)] == Waitings(lot, 1, capacity + 1);
    assert Queueds(capacity) + [Queued] == Queueds(capacity + 1);
    assert Times(Firsts(0), 0) + [1] == [1];
    assert a.log.attempts == Firsts(1);
    assert d.log.reports == Reports(1);
  }

  /** Serves the early commits one after another. */
  lemma {:induction false} ServeEarly(s: State, actions: seq<Action>, capacity: nat, lot: seq<Job>, q: nat)
    returns (more: seq<Action>)
    requires IsTheLot(lot, capacity) && 1 <= q <= capacity - 1
    requires Outcome(s, actions) == Some(Served(capacity, lot, q))
    ensures actions <= more && Outcome(s, more) == Some(Served(capacity, lot, capacity - 1))
    decreases capacity - q
  {
    more := actions;
    if q < capacity - 1 {
      var t := Served(capacity, lot, q);
      EarlyIsNext(lot, capacity, q, capacity + 1);
      more := AcceptNext(s, actions, t, q);
      var a := Given(t, q);
      more := ReportNext(s, more, a, a.worker.at.held, a.worker.at.event);
      EarlyIsServed(capacity, lot, q, a);
      more := ServeEarly(s, more, capacity, lot, q + 1);
    }
  }

  lemma {:induction false} EarlyIsServed(capacity: nat, lot: seq<Job>, q: nat, a: State)
    requires IsTheLot(lot, capacity) && 1 <= q < capacity - 1 && a == Given(Served(capacity, lot, q), q)
    ensures Goto(ReportStep(a, a.worker.at.held, a.worker.at.event), Peeking) == Served(capacity, lot, q + 1)
  {
    assert Waitings(lot, q, capacity + 1) - {q} == Waitings(lot, q + 1, capacity + 1);
    assert Reports(q) + [Report(q, Submitted(0, EARLY.commit, 1))] == Reports(q + 1);
    assert Times(Firsts(q), q) + [1] == [1];
    assert a.log.attempts == Firsts(q + 1);
  }

  /**
   For every capacity above one there is a run in which a due commit waits for as
   many other attempts as there are slots: the bound is reached, and a bound of
   the other slots alone does not hold.
   */
  lemma {:induction false} OvertakingBoundIsReached(capacity: nat)
    returns (states: seq<State>, actions: seq<Action>, i: nat, j: nat, k: nat)
    requires capacity > 1
    ensures Waits(states, actions, i, j, k, 1)
    ensures states[i].capacity == capacity && Latecomer(states[i], 1)
    ensures states[j].log.ioctls - states[i].log.ioctls == capacity
  {
    var s, filled, jobs := FillTheQueue(capacity);
    var lot := jobs + [EARLY];
    var due := Received(capacity, jobs, capacity, Peeking);
    actions := ServeFirst(s, filled, capacity, jobs, lot);
    actions := ServeEarly(s, actions, capacity, lot, 1);
    NewestIsNext(lot, capacity);
    var last := Served(capacity, lot, capacity - 1);
    actions := TryNext(s, actions, last, capacity);
    states := RunOf(s, actions);
    i, j, k := |filled|, |actions|, capacity - 1;
    assert actions[..i] == filled && actions[..j] == actions;
    assert states[i] == due && states[j] == Tried(last, capacity);
  }

  /** In every run of a capacity a due commit waits for fewer other attempts than there are slots. */
  ghost predicate OtherSlotsBound(capacity: nat) {
    forall states: seq<State>, actions: seq<Action>, i: nat, j: nat, k: nat, readyAt: nat ::
      Waits(states, actions, i, j, k, readyAt) && states[i].capacity == capacity ==>
        states[j].log.ioctls - states[i].log.ioctls <= capacity - 1
  }

  /** That holds exactly for a capacity of one. */
  lemma {:induction false} OtherSlotsBoundOnlyOne(capacity: nat)
    requires capacity > 0
    ensures OtherSlotsBound(capacity) <==> capacity == 1
  {
    if capacity == 1 {
      forall states: seq<State>, actions: seq<Action>, i: nat, j: nat, k: nat, readyAt: nat |
        Waits(states, actions, i, j, k, readyAt) && states[i].capacity == capacity
        ensures states[j].log.ioctls - states[i].log.ioctls <= capacity - 1
      {
        OvertakingIsBounded(states, actions, i, j, k, readyAt);
      }
    } else {
      var states, actions, i, j, k := OvertakingBoundIsReached(capacity);
      assert states[j].log.ioctls - states[i].log.ioctls > capacity - 1;
    }
  }

  // ---------- As many attempts as the wait allows ----------

  const REFUSE := Work(Refused(Retryable), false)

  /** The moments of the first n attempts, one retry interval apart. */
  function Moments(n: nat): (times: seq<nat>)
    ensures |times| == n && forall i | 0 <= i < n :: times[i] == i * RETRY_INTERVAL
  {
    if n == 0 then [] else Moments(n - 1) + [(n - 1) * RETRY_INTERVAL]
  }

  /** The only commit, refused n times, is due for the next attempt. */
  function Refusals(n: nat): State {
    var entry := Scheduled(EARLY, n * RETRY_INTERVAL, if n == 0 then None else Some(MAX_WAIT), 0);
    State(1, 0, n * RETRY_INTERVAL, Idle, Running, Shared(1, false, [], true, false),
          WorkerState(Peeking, map[0 := entry], 1, true),
          Log(Queueds(1), [EARLY], if n == 0 then map[] else map[0 := Moments(n)], n, []))
  }

  lemma {:induction false} FirstReceived(t: State)
    requires t == Goto(Sent(1, Idle, [EARLY]), Draining)
    ensures Goto(Receive(t, Draining), Peeking) == Refusals(0)
  {
    assert [EARLY][1..] == [];
  }

  lemma {:induction false} FirstSent() returns (s: State, actions: seq<Action>)
    ensures Initial(s) && Outcome(s, actions) == Some(Sent(1, Idle, [EARLY]))
  {
    s, actions := Sent(1, Idle, []), [];
    assert Queueds(0) == [];
    actions := SendOne(s, actions, 1, [], EARLY);
    assert [] + [EARLY] == [EARLY];
  }

  lemma {:induction false} FirstDue() returns (s: State, actions: seq<Action>)
    ensures Initial(s) && Outcome(s, actions) == Some(Refusals(0))
  {
    s, actions := FirstSent();
    var t := Sent(1, Idle, [EARLY]);
    var u := Goto(t, Draining);
    var v := Receive(u, Draining);
    FirstReceived(u);
    actions := Then(s, actions, t, WORK, u);
    actions := Then(s, actions, u, WORK, v);
    actions := Then(s, actions, v, WORK, Goto(v, Peeking));
  }

  /** The attempt made in that state. */
  lemma {:induction false} AttemptDue(s: State, actions: seq<Action>, n: nat) returns (more: seq<Action>)
    requires Outcome(s, actions) == Some(Refusals(n))
    ensures Outcome(s, more) == Some(Tried(Refusals(n), 0))
    ensures Times(Tried(Refusals(n), 0).log.attempts, 0) == Moments(n + 1)
  {
    more := TryNext(s, actions, Refusals(n), 0);
  }

  lemma {:induction false} RefuseOnce(s: State, actions: seq<Action>, n: nat) returns (more: seq<Action>)
    requires Outcome(s, actions) == Some(Refusals(n)) && n < 1000
    ensures Outcome(s, more) == Some(Refusals(n + 1))
  {
    more := AttemptDue(s, actions, n);
    var t := Tried(Refusals(n), 0);
    var u := Reinsert(t, t.worker.at.held, n * RETRY_INTERVAL + RETRY_INTERVAL);
    more := Then(s, more, t, REFUSE, u);
    more := Then(s, more, u, WORK, Goto(u, Draining));
    more := Then(s, more, Goto(u, Draining), WORK, Goto(u, Peeking));
    var v := Goto(u, Peeking).(now := (n + 1) * RETRY_INTERVAL);
    more := Then(s, more, Goto(u, Peeking), Tick((n + 1) * RETRY_INTERVAL), v);
    RefusedOnce(n, t, u);
  }

  lemma {:induction false} RefusedOnce(n: nat, t: State, u: State)
    requires n < 1000 && t == Tried(Refusals(n), 0)
    requires u == Reinsert(t, t.worker.at.held, n * RETRY_INTERVAL + RETRY_INTERVAL)
    ensures Goto(u, Peeking).(now := (n + 1) * RETRY_INTERVAL) == Refusals(n + 1)
  {
    assert t.worker.queue == map[];
    assert t.log.attempts == map[0 := Moments(n + 1)];
  }

  lemma {:induction false} RefuseOn(s: State, actions: seq<Action>, n: nat) returns (more: seq<Action>)
    requires Outcome(s, actions) == Some(Refusals(n)) && n <= 1000
    ensures Outcome(s, more) == Some(Refusals(1000))
    decreases 1000 - n
  {
    more := actions;
    if n < 1000 {
      more := RefuseOnce(s, actions, n);
      more := RefuseOn(s, more, n + 1);
    }
  }

  /** A run in which one commit is attempted 1001 times, each time a retry interval after the last. */
  lemma {:induction false} AttemptBoundIsReached() returns (states: seq<State>, actions: seq<Action>)
    ensures IsRun(states, actions)
    ensures |Times(states[|actions|].log.attempts, 0)| == 1001
  {
    var s, first := FirstDue();
    actions := RefuseOn(s, first, 0);
    actions := AttemptDue(s, actions, 1000);
    states := RunOf(s, actions);
    assert actions[..|actions|] == actions;
  }

  // ---------- Asleep on a due commit ----------

  /** The only commit is received, and the worker is about to look at it. */
  lemma {:induction false} LateReceived() returns (s: State, actions: seq<Action>)
    ensures Initial(s) && Outcome(s, actions) == Some(LateWaits(0, Peeking))
  {
    s, actions := Sent(1, Idle, []), [];
    assert Queueds(0) == [] && [] + [LATE] == [LATE];
    actions := SendOne(s, actions, 1, [], LATE);
    var t := Goto(Sent(1, Idle, [LATE]), Draining);
    var u := Receive(t, Draining);
    actions := Then(s, actions, Sent(1, Idle, [LATE]), WORK, t);
    actions := Then(s, actions, t, WORK, u);
    actions := Then(s, actions, u, WORK, Goto(u, Peeking));
    assert Goto(u, Peeking) == LateWaits(0, Peeking) by {
      assert [LATE][1..] == [];
    }
  }

  function LateWaits(now: nat, at: Worker): State {
    State(1, 0, now, Idle, Running, Shared(1, false, [], true, false),
          WorkerState(at, map[0 := Arrival(LATE, 0)], 1, true), Log(Queueds(1), [LATE], map[], 0, []))
  }

  /**
   For every lag there is a run in which the wait is begun so long after the
   clock was read, and the worker sleeps on a commit that has been due for one
   nanosecond less: the bound is reached.
   */
  lemma {:induction false} DueIsSleptOn(lag: nat) returns (states: seq<State>, actions: seq<Action>)
    requires lag > 0
    ensures IsRun(states, actions)
    ensures var s := states[|actions|];
            Due(s, 0, 1) && s.now == 1 + (lag - 1) && Asleep(s) && s.worker.at == ReceivingUntil(lag + 1, lag)
  {
    var s;
    s, actions := LateReceived();
    var entering := Entering(1, 0);
    assert IsNext(map[0 := Arrival(LATE, 0)], 0);
    actions := Then(s, actions, LateWaits(0, Peeking), WORK, LateWaits(0, entering));
    actions := Then(s, actions, LateWaits(0, entering), Tick(lag), LateWaits(lag, entering));
    var asleep := LateWaits(lag, ReceivingUntil(lag + 1, lag));
    actions := Then(s, actions, LateWaits(lag, entering), WORK, asleep);
    states := RunOf(s, actions);
    assert actions[..|actions|] == actions;
  }
}
