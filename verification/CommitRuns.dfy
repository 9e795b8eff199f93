/**
 From the callers to the device: what the display is asked for over a whole run
 of the scheduler, each attempt's request made from the commit it attempts.
 */
module CommitRuns {
  import opened Wrappers
  import opened Atlas
  import opened PlaneDamages
  import opened PlaneCommits
  import opened Scheduler
  import opened SchedulerSlots
  import opened SchedulerTiming
  import opened SchedulerOutcomes
  import opened SchedulerProgress

  /** What a caller hands over with a commit. */
  datatype Payload = Payload(
    plane: U32, properties: PlaneProperties, source: PixelRect, framebuffer: U32, damage: Option<seq<Clip>>)

  /** The payloads behind their numbers, and what the kernel answers in each step, acceptance aside. */
  datatype World = World(payloads: nat -> Payload, kernels: nat -> Kernel)

  // ---------- From the worker to the device ----------

  /** An attempt that has reached the device: the commit, its payload, and what the kernel answered. */
  datatype Ioctl = Ioctl(order: nat, payload: Payload, kernel: Kernel) {
    function Tried(): Attempt {
      Attempt(payload.framebuffer, payload.damage, kernel)
    }

    function Asked(): seq<DeviceEvent> {
      AttemptEvents(payload.plane, payload.properties, payload.source, Tried())
    }

    function Made(): Request {
      RequestOf(payload.plane, payload.properties, payload.source, payload.framebuffer,
                SlotOf(payload.properties, Tried()))
    }

    /** The blob its request names. */
    function Blob(): U32 {
      DamageOf(payload.properties, Tried())
    }

    predicate Owns(request: Request) {
      OwnRequest(payload.plane, payload.properties, payload.source, Tried(), request)
    }
  }

  /** The worker submits the request of the commit in its hands; the kernel accepts it or not as the result says. */
  function IoctlOf(world: World, s: State, action: Action, i: nat): seq<Ioctl> {
    if action.Work? && s.worker.at.InFlight? then
      var held := s.worker.at.held;
      [Ioctl(held.order, world.payloads(held.job.payload), world.kernels(i).(accepts := action.result.Accepted?))]
    else
      []
  }

  /** All attempts that have reached the device. */
  function Ioctls(world: World, states: seq<State>, actions: seq<Action>, i: nat): seq<Ioctl>
    requires i <= |actions| < |states|
  {
    if i == 0 then []
    else Ioctls(world, states, actions, i - 1) + IoctlOf(world, states[i - 1], actions[i - 1], i - 1)
  }

  /** Everything they asked of it. */
  function DeviceLog(ioctls: seq<Ioctl>): seq<DeviceEvent> {
    if ioctls == [] then []
    else DeviceLog(ioctls[..|ioctls| - 1]) + ioctls[|ioctls| - 1].Asked()
  }

  /** The payloads of the commits sent. */
  function Handed(world: World, sent: seq<Job>): (handed: seq<Payload>)
    ensures |handed| == |sent|
  {
    seq(|sent|, k requires 0 <= k < |sent| => world.payloads(sent[k].payload))
  }

  /** An attempt on a sent commit, made with that commit's payload. */
  predicate OwnIoctl(handed: seq<Payload>, e: Ioctl) {
    e.order < |handed| && e.payload == handed[e.order]
  }

  /** One request for each commit sent, with values of its own. */
  ghost predicate Ready(requests: seq<PlaneCommit>, handed: seq<Payload>)
    reads set k | 0 <= k < |requests| :: requests[k]
    reads set k | 0 <= k < |requests| :: requests[k].objects
    reads set k | 0 <= k < |requests| :: requests[k].counts
    reads set k | 0 <= k < |requests| :: requests[k].properties
    reads set k | 0 <= k < |requests| :: requests[k].values
  {
    && |requests| == |handed|
    && (forall j, k | 0 <= j < k < |requests| :: requests[j].values != requests[k].values)
    && forall k | 0 <= k < |requests| ::
         requests[k].Valid(handed[k].plane, handed[k].properties, handed[k].source)
  }

  /** Rewriting one request for the n-th attempt leaves the others as they are. */
  method SubmitNext(
    requests: seq<PlaneCommit>, device: Device, ioctls: seq<Ioctl>, n: nat,
    ghost handed: seq<Payload>, ghost before: seq<DeviceEvent>)
    requires Ready(requests, handed) && n < |ioctls| && OwnIoctl(handed, ioctls[n])
    requires device.log == before + DeviceLog(ioctls[..n])
    modifies device, set k | 0 <= k < |requests| :: requests[k].values
    ensures Ready(requests, handed)
    ensures device.log == before + DeviceLog(ioctls[..n + 1])
  {
    var e := ioctls[n];
    var result := requests[e.order].Submit(
      device, e.Tried(), e.payload.plane, e.payload.properties, e.payload.source);
    DeviceLogGrows(ioctls, n);
    forall j | 0 <= j < |requests| && j != e.order
      ensures requests[j].values != requests[e.order].values
    {
      if j > e.order {
        assert requests[e.order].values != requests[j].values;
      }
    }
  }

  /**
   The commits' requests, each rewritten for its own attempts with those of
   others in between, leave exactly that log on the one device they share.
   */
  method SubmitInterleaved(
    requests: seq<PlaneCommit>, device: Device, ioctls: seq<Ioctl>, ghost handed: seq<Payload>)
    requires Ready(requests, handed)
    requires forall n | 0 <= n < |ioctls| :: OwnIoctl(handed, ioctls[n])
    modifies device, set k | 0 <= k < |requests| :: requests[k].values
    ensures Ready(requests, handed)
    ensures device.log == old(device.log) + DeviceLog(ioctls)
  {
    ghost var before := device.log;
    for n := 0 to |ioctls|
      invariant Ready(requests, handed)
      invariant device.log == before + DeviceLog(ioctls[..n])
    {
      SubmitNext(requests, device, ioctls, n, handed, before);
    }
    assert ioctls[..|ioctls|] == ioctls;
  }

  lemma {:induction false} DeviceLogGrows(ioctls: seq<Ioctl>, n: nat)
    requires n < |ioctls|
    ensures DeviceLog(ioctls[..n + 1]) == DeviceLog(ioctls[..n]) + ioctls[n].Asked()
  {
    assert ioctls[..n + 1][..n] == ioctls[..n];
  }

  // ---------- Each request is its own commit's ----------

  lemma {:induction false} IoctlIsOwn(world: World, s: State, action: Action, i: nat)
    requires Places(s) && IoctlOf(world, s, action, i) != []
    ensures OwnIoctl(Handed(world, s.log.sent), IoctlOf(world, s, action, i)[0])
  {
  }

  lemma {:induction false} IoctlsAreOwn(world: World, states: seq<State>, actions: seq<Action>, i: nat, n: nat)
    requires IsRun(states, actions) && i < |states| && n < |Ioctls(world, states, actions, i)|
    ensures OwnIoctl(Handed(world, states[i].log.sent), Ioctls(world, states, actions, i)[n])
  {
    if i > 0 {
      assert Step(states[i - 1], actions[i - 1]) == Some(states[i]) by {
        assert StepAt(states, actions, i - 1);
      }
      SentIsKept(states[i - 1], actions[i - 1], states[i]);
      if n < |Ioctls(world, states, actions, i - 1)| {
        IoctlsAreOwn(world, states, actions, i - 1, n);
      } else {
        SlotsAreKept(states, actions, i - 1);
        IoctlIsOwn(world, states[i - 1], actions[i - 1], i - 1);
      }
    }
  }

  /** An attempt asks for one request, its own. */
  lemma {:induction false} AskedRequest(e: Ioctl)
    ensures Requests(e.Asked()) == [e.Made()] && e.Owns(e.Made())
  {
    AttemptRequests(e.payload.plane, e.payload.properties, e.payload.source, e.Tried());
    AttemptsCommitTheirOwn(e.payload.plane, e.payload.properties, e.payload.source, e.Tried(), e.Made());
    MadeIsAsked(e);
  }

  lemma {:induction false} MadeIsAsked(e: Ioctl)
    ensures Committed(e.Made()) in e.Asked()
    ensures |Requests(e.Asked())| == 1 ==> Requests(e.Asked()) == [e.Made()]
  {
    var n := One(BlobOf(e.payload.properties, e.Tried()).Some?);
    assert e.Asked()[n] == Committed(e.Made());
    RequestIsListed(e.Asked(), n);
  }

  lemma {:induction false} RequestIsListed(log: seq<DeviceEvent>, n: nat)
    requires n < |log| && log[n].Committed?
    ensures log[n].request in Requests(log)
  {
    if n < |log| - 1 {
      RequestIsListed(log[..|log| - 1], n);
    }
  }

  function AllMade(ioctls: seq<Ioctl>): (made: seq<Request>)
    ensures |made| == |ioctls|
  {
    seq(|ioctls|, n requires 0 <= n < |ioctls| => ioctls[n].Made())
  }

  /** The device is asked for one request per attempt, in their order. */
  lemma {:induction false} RequestsInOrder(ioctls: seq<Ioctl>)
    ensures Requests(DeviceLog(ioctls)) == AllMade(ioctls)
  {
    if ioctls != [] {
      var front, e := ioctls[..|ioctls| - 1], ioctls[|ioctls| - 1];
      RequestsInOrder(front);
      AskedRequest(e);
      RequestsAddUp(DeviceLog(front), e.Asked());
      assert AllMade(ioctls) == AllMade(front) + [e.Made()];
    }
  }

  /** The n-th request is the n-th attempt's own. */
  lemma {:induction false} RequestsAreOwn(ioctls: seq<Ioctl>, n: nat)
    requires n < |ioctls|
    ensures |Requests(DeviceLog(ioctls))| == |ioctls| && ioctls[n].Owns(Requests(DeviceLog(ioctls))[n])
  {
    RequestsInOrder(ioctls);
    AskedRequest(ioctls[n]);
  }

  /**
   Over any run the n-th request the device sees is made by the n-th attempt for
   one sent commit, and makes the settings of that commit and no others: its
   plane, properties, source rectangle and framebuffer, and in the damage slot the
   blob created from its damage for this very attempt, or the null blob if none
   was. Attempts on other commits in between leave nothing behind in it.
   */
  lemma {:induction false} RequestsAreTheirCommits(
    world: World, states: seq<State>, actions: seq<Action>, i: nat, n: nat)
    requires IsRun(states, actions) && i < |states|
    ensures |Requests(DeviceLog(Ioctls(world, states, actions, i)))| == |Ioctls(world, states, actions, i)|
    ensures var ioctls, sent := Ioctls(world, states, actions, i), states[i].log.sent;
            n < |ioctls| ==>
              && ioctls[n].order < |sent|
              && var own := world.payloads(sent[ioctls[n].order].payload);
                 var a := Attempt(own.framebuffer, own.damage, ioctls[n].kernel);
                 Carries(Requests(DeviceLog(ioctls))[n], own.plane, own.properties, own.source,
                         own.framebuffer, DamageOf(own.properties, a))
  {
    RequestsInOrder(Ioctls(world, states, actions, i));
    if n < |Ioctls(world, states, actions, i)| {
      IoctlsAreOwn(world, states, actions, i, n);
      RequestsAreOwn(Ioctls(world, states, actions, i), n);
    }
  }

  /**
   Whatever attempts reach the device, the blob that the k-th request names is
   created from that attempt's damage before it and destroyed after it, and
   neither happens to it in between.
   */
  lemma {:induction false} BlobsOutliveTheirRequests(ioctls: seq<Ioctl>, k: nat) returns (m: nat, n: nat, o: nat)
    requires k < |ioctls| && ioctls[k].Blob() != 0
    ensures Brackets(DeviceLog(ioctls), m, n, o, ioctls[k].Blob(), ioctls[k].payload.damage.value)
    ensures |Requests(DeviceLog(ioctls)[..n])| == k
  {
    var front := ioctls[..|ioctls| - 1];
    var before := DeviceLog(front);
    var asked := ioctls[|ioctls| - 1].Asked();
    if k < |front| {
      m, n, o := BlobsOutliveTheirRequests(front, k);
      assert (before + asked)[..n] == before[..n];
      EarlierBrackets(before, asked, m, n, o, ioctls[k].Blob(), ioctls[k].payload.damage.value);
    } else {
      RequestsInOrder(front);
      m, n, o := |before|, |before| + 1, |before| + 2;
      LastBrackets(before, ioctls[k], asked);
    }
  }

  lemma {:induction false} EarlierBrackets(
    before: seq<DeviceEvent>, events: seq<DeviceEvent>, m: nat, n: nat, o: nat, blob: U32, damage: seq<Clip>)
    requires Brackets(before, m, n, o, blob, damage)
    ensures Brackets(before + events, m, n, o, blob, damage)
  {
    forall x | m < x < o ensures !Concerns((before + events)[x], blob) {
      assert (before + events)[x] == before[x];
    }
  }

  lemma {:induction false} LastBrackets(before: seq<DeviceEvent>, e: Ioctl, asked: seq<DeviceEvent>)
    requires asked == e.Asked() && e.Blob() != 0
    ensures var log, m := before + asked, |before|;
            && Brackets(log, m, m + 1, m + 2, e.Blob(), e.payload.damage.value)
            && Requests(log[..m + 1]) == Requests(before)
  {
    AttemptBrackets(e.payload.plane, e.payload.properties, e.payload.source, e.Tried());
    assert (before + asked)[..|before| + 1] == before + asked[..1];
    RequestsAddUp(before, asked[..1]);
    forall x | |before| < x < |before| + 2 ensures !Concerns((before + asked)[x], e.Blob()) {
      assert (before + asked)[x] == asked[x - |before|];
    }
  }

  // ---------- One request, over and over ----------

  /** Attempts made with one plane's request. */
  function Retries(plane: U32, p: PlaneProperties, source: PixelRect, attempts: seq<Attempt>): seq<Ioctl> {
    seq(|attempts|, n requires 0 <= n < |attempts| =>
      Ioctl(0, Payload(plane, p, source, attempts[n].framebuffer, attempts[n].damage), attempts[n].kernel))
  }

  lemma {:induction false} RetriesAreTheirEvents(
    plane: U32, p: PlaneProperties, source: PixelRect, attempts: seq<Attempt>)
    ensures DeviceLog(Retries(plane, p, source, attempts)) == Events(plane, p, source, attempts)
  {
    if attempts != [] {
      var ioctls, front := Retries(plane, p, source, attempts), attempts[..|attempts| - 1];
      assert ioctls[..|ioctls| - 1] == Retries(plane, p, source, front);
      assert ioctls[|ioctls| - 1].Tried() == attempts[|attempts| - 1];
      RetriesAreTheirEvents(plane, p, source, front);
    }
  }

  /**
   One request submitted over and over makes one commit for each attempt, in
   order and with the attempt's own settings; a blob it names is created before
   it and destroyed after it.
   */
  lemma {:induction false} RetriesInOrder(
    plane: U32, p: PlaneProperties, source: PixelRect, attempts: seq<Attempt>, k: nat, log: seq<DeviceEvent>)
    returns (m: nat, n: nat, o: nat)
    requires k < |attempts| && log == Events(plane, p, source, attempts)
    ensures |Requests(log)| == |attempts| && OwnRequest(plane, p, source, attempts[k], Requests(log)[k])
    ensures DamageOf(p, attempts[k]) != 0 ==>
              && Brackets(log, m, n, o, DamageOf(p, attempts[k]), attempts[k].damage.value)
              && |Requests(log[..n])| == k
  {
    var ioctls := Retries(plane, p, source, attempts);
    assert ioctls[k].Tried() == attempts[k];
    RetriesAreTheirEvents(plane, p, source, attempts);
    RequestsAreOwn(ioctls, k);
    m, n, o := 0, 0, 0;
    if ioctls[k].Blob() != 0 {
      m, n, o := BlobsOutliveTheirRequests(ioctls, k);
    }
  }

  /** Whatever attempts reach the device, every blob but the null blob is destroyed as often as it is created. */
  lemma {:induction false} NoBlobIsLeft(ioctls: seq<Ioctl>, blob: U32)
    ensures Destructions(DeviceLog(ioctls), blob) == if blob == 0 then 0 else Creations(DeviceLog(ioctls), blob)
  {
    if ioctls != [] {
      var front, e := ioctls[..|ioctls| - 1], ioctls[|ioctls| - 1];
      NoBlobIsLeft(front, blob);
      CountsAddUp(DeviceLog(front), e.Asked(), blob);
      AttemptIsBalanced(e.payload.plane, e.payload.properties, e.payload.source, e.Tried(), blob);
    }
  }

  // ---------- Each attempt reaches the device ----------

  function CountOf(ioctls: seq<Ioctl>, k: nat): nat {
    if ioctls == [] then 0 else CountOf(ioctls[..|ioctls| - 1], k) + One(ioctls[|ioctls| - 1].order == k)
  }

  lemma {:induction false} CountGrows(ioctls: seq<Ioctl>, e: Ioctl, k: nat)
    ensures CountOf(ioctls + [e], k) == CountOf(ioctls, k) + One(e.order == k)
  {
    assert (ioctls + [e])[..|ioctls|] == ioctls;
  }

  /** The device sees each commit's requests exactly as often as it was attempted, so at most 1001 times. */
  lemma {:induction false} RequestsAreAttempts(
    world: World, states: seq<State>, actions: seq<Action>, i: nat, k: nat)
    requires IsRun(states, actions) && i < |states|
    ensures CountOf(Ioctls(world, states, actions, i), k) + One(InFlightOf(states[i].worker.at, k))
         == |Times(states[i].log.attempts, k)| <= 1001
  {
    if i > 0 {
      RequestsAreAttempts(world, states, actions, i - 1, k);
      assert StepAt(states, actions, i - 1);
      StepCountsAttempts(states[i - 1], actions[i - 1], states[i], k);
      var e := IoctlOf(world, states[i - 1], actions[i - 1], i - 1);
      if e == [] {
        assert Ioctls(world, states, actions, i) == Ioctls(world, states, actions, i - 1);
      } else {
        CountGrows(Ioctls(world, states, actions, i - 1), e[0], k);
      }
    }
    if Times(states[i].log.attempts, k) != [] {
      AttemptsAreTimely(states, actions, i, k);
    }
  }

  // ---------- What the kernel accepted is what is reported ----------

  predicate Accepts(ioctls: seq<Ioctl>, k: nat) {
    exists n | 0 <= n < |ioctls| :: ioctls[n].order == k && ioctls[n].kernel.accepts
  }

  predicate ShownIn(reports: seq<Report>, k: nat) {
    exists n | 0 <= n < |reports| :: reports[n].order == k && reports[n].event.Submitted?
  }

  /** Commit k is reported as submitted, or is about to be. */
  predicate Shown(s: State, k: nat) {
    || ShownIn(s.log.reports, k)
    || ((s.worker.at.Finishing? || s.worker.at.Reporting?) && s.worker.at.held.order == k
        && s.worker.at.event.Submitted?)
  }

  lemma {:induction false} ShownInFlight(s: State, k: nat)
    requires Places(s) && InFlightOf(s.worker.at, k)
    ensures !Shown(s, k)
  {
    forall n | 0 <= n < |s.log.reports| ensures s.log.reports[n].order != k {
      assert Names(s.log.sent, s.worker.order, s.worker.queue, Hand(s.worker.at), s.log.reports[n]);
    }
  }

  lemma {:induction false} ShownInGrows(reports: seq<Report>, r: Report, k: nat)
    ensures ShownIn(reports + [r], k) <==> ShownIn(reports, k) || (r.order == k && r.event.Submitted?)
  {
    var all := reports + [r];
    assert all[|reports|] == r && forall n | 0 <= n < |reports| :: all[n] == reports[n];
  }

  lemma {:induction false} WorkShows(s: State, result: IoctlResult, early: bool, t: State, k: nat)
    requires WorkStep(s, result, early) == Some(t)
    ensures Shown(t, k) <==> Shown(s, k) || (InFlightOf(s.worker.at, k) && result.Accepted?)
  {
    match s.worker.at
    case Reporting(held, event) => ShownInGrows(s.log.reports, Report(held.order, event), k);
    case _ =>
  }

  lemma {:induction false} StepShows(s: State, action: Action, t: State, k: nat)
    requires Step(s, action) == Some(t)
    ensures Shown(t, k) <==> Shown(s, k) || (action.Work? && InFlightOf(s.worker.at, k) && action.result.Accepted?)
  {
    match action
    case Work(result, early) => WorkShows(s, result, early, t, k);
    case _ =>
      OthersKeepTheWorker(s, action, t);
      assert t.log.reports == s.log.reports;
  }

  /** A commit is, or is about to be, reported as submitted exactly if the kernel accepted one of its requests. */
  lemma {:induction false} SubmittedIsAccepted(
    world: World, states: seq<State>, actions: seq<Action>, i: nat, k: nat)
    requires IsRun(states, actions) && i < |states|
    ensures Accepts(Ioctls(world, states, actions, i), k) <==> Shown(states[i], k)
  {
    if i > 0 {
      SubmittedIsAccepted(world, states, actions, i - 1, k);
      assert StepAt(states, actions, i - 1);
      StepShows(states[i - 1], actions[i - 1], states[i], k);
      AcceptsGrows(Ioctls(world, states, actions, i - 1), IoctlOf(world, states[i - 1], actions[i - 1], i - 1), k);
    }
  }

  lemma {:induction false} AcceptsGrows(ioctls: seq<Ioctl>, more: seq<Ioctl>, k: nat)
    requires |more| <= 1
    ensures Accepts(ioctls + more, k) <==>
              Accepts(ioctls, k) || (more != [] && more[0].order == k && more[0].kernel.accepts)
  {
    var all := ioctls + more;
    assert forall n | 0 <= n < |ioctls| :: all[n] == ioctls[n];
    assert more != [] ==> all[|ioctls|] == more[0];
  }

  /** After the kernel has accepted a commit, no request for it reaches the device again. */
  lemma {:induction false} AcceptedIsLast(
    world: World, states: seq<State>, actions: seq<Action>, i: nat, m: nat, n: nat)
    requires IsRun(states, actions) && i < |states| && m < n < |Ioctls(world, states, actions, i)|
    requires Ioctls(world, states, actions, i)[m].order == Ioctls(world, states, actions, i)[n].order
    ensures !Ioctls(world, states, actions, i)[m].kernel.accepts
  {
    if i > 0 {
      var front := Ioctls(world, states, actions, i - 1);
      if n < |front| {
        AcceptedIsLast(world, states, actions, i - 1, m, n);
      } else {
        var k := states[i - 1].worker.at.held.order;
        SlotsAreKept(states, actions, i - 1);
        ShownInFlight(states[i - 1], k);
        SubmittedIsAccepted(world, states, actions, i - 1, k);
        assert !Accepts(front, k);
      }
    }
  }
}
