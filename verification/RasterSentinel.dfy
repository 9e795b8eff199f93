/**
 The raster sentinel: after the render context was made current, a task at the
 end of the render thread's queue reports that rastering is idle again. Every
 atomic operation of the render and the platform thread is one step.
 */
module RasterSentinels {
  import opened Wrappers

  /** Tasks of the render thread, in order. */
  datatype Task = Raster | Sentinel

  /** Where a call of queue_raster_sentinel is. */
  datatype Call =
    | Comparing    // about to compare-and-exchange the pending flag
    | Claimed      // the flag is set; about to load the engine handle
    | NoHandle     // the handle was zero; about to clear the flag
    | WithHandle   // about to post the sentinel
    | PostFailed   // about to clear the flag
    | Notifying    // about to report idleness itself

  datatype Render =
    | Waiting
    | InTask
    | Calling(call: Call)
    | Clearing     // running a sentinel, about to clear the flag
    | Announcing   // about to report idleness

  datatype Platform = Unpublished | Publishing(call: Call) | Finished

  datatype Shared = Shared(
    pending: bool,
    published: bool,    // the engine handle is not zero
    tasks: seq<Task>,
    owed: bool,         // history: made current, and idleness not reported since
    missed: bool)       // history: the publisher lost its race, and nothing made current or reported since

  datatype State = State(shared: Shared, render: Render, platform: Platform)

  const START := State(Shared(false, false, [], false, false), Waiting, Unpublished)

  datatype Action =
    | Enqueue
    | RunRender(current: bool, posts: bool)
    | RunPlatform(posts: bool)

  function Idle(s: Shared): Shared {
    s.(owed := false, missed := false)
  }

  /** One step of a call: the shared state after it, and where the call is then, if it goes on. */
  function CallStep(s: Shared, call: Call, posts: bool): (Shared, Option<Call>) {
    match call
    case Comparing => if s.pending then (s, None) else (s.(pending := true), Some(Claimed))
    case Claimed => (s, Some(if s.published then WithHandle else NoHandle))
    case NoHandle => (s.(pending := false), None)
    case WithHandle => if posts then (s.(tasks := s.tasks + [Sentinel]), None) else (s, Some(PostFailed))
    case PostFailed => (s.(pending := false), Some(Notifying))
    case Notifying => (Idle(s), None)
  }

  function RenderStep(s: State, current: bool, posts: bool): Option<State> {
    match s.render
    case Waiting =>
      if s.shared.tasks == [] then None
      else
        var rest := s.shared.(tasks := s.shared.tasks[1..]);
        Some(State(rest, if s.shared.tasks[0].Raster? then InTask else Clearing, s.platform))
    case InTask =>
      if current then Some(State(s.shared.(owed := true, missed := false), Calling(Comparing), s.platform))
      else Some(s.(render := Waiting))
    case Calling(call) =>
      var (shared, next) := CallStep(s.shared, call, posts);
      Some(State(shared, if next.Some? then Calling(next.value) else InTask, s.platform))
    case Clearing => Some(State(s.shared.(pending := false), Announcing, s.platform))
    case Announcing => Some(State(Idle(s.shared), Waiting, s.platform))
  }

  /** The publisher finds the flag of a call that has already read a zero handle. */
  predicate LosesRace(s: State) {
    s.platform == Publishing(Comparing) && s.shared.pending && s.render == Calling(NoHandle)
  }

  function PlatformStep(s: State, posts: bool): Option<State> {
    match s.platform
    case Unpublished => Some(s.(shared := s.shared.(published := true), platform := Publishing(Comparing)))
    case Publishing(call) =>
      var (shared, next) := CallStep(s.shared, call, posts);
      Some(State(if LosesRace(s) then shared.(missed := true) else shared, s.render,
                 if next.Some? then Publishing(next.value) else Finished))
    case Finished => None
  }

  function Step(s: State, action: Action): Option<State> {
    match action
    case Enqueue => Some(s.(shared := s.shared.(tasks := s.shared.tasks + [Raster])))
    case RunRender(current, posts) => RenderStep(s, current, posts)
    case RunPlatform(posts) => PlatformStep(s, posts)
  }

  predicate IsRun(states: seq<State>, actions: seq<Action>) {
    && |states| == |actions| + 1
    && states[0] == START
    && forall i | 0 <= i < |actions| :: StepAt(states, actions, i)
  }

  predicate StepAt(states: seq<State>, actions: seq<Action>, i: nat)
    requires |states| == |actions| + 1 && i < |actions|
  {
    Step(states[i], actions[i]) == Some(states[i + 1])
  }

  // ---------- The flag has one owner ----------

  function Sentinels(tasks: seq<Task>): nat {
    if tasks == [] then 0 else (if tasks[0].Sentinel? then 1 else 0) + Sentinels(tasks[1..])
  }

  lemma {:induction false} SentinelsAppend(tasks: seq<Task>, task: Task)
    ensures Sentinels(tasks + [task]) == Sentinels(tasks) + if task.Sentinel? then 1 else 0
  {
    if tasks != [] {
      assert (tasks + [task])[1..] == tasks[1..] + [task];
      SentinelsAppend(tasks[1..], task);
    }
  }

  predicate Owns(call: Call) {
    call.Claimed? || call.NoHandle? || call.WithHandle? || call.PostFailed?
  }

  function Owners(s: State): nat {
    Sentinels(s.shared.tasks)
    + One(s.render.Clearing? || (s.render.Calling? && Owns(s.render.call)))
    + One(s.platform.Publishing? && Owns(s.platform.call))
  }

  predicate Exclusive(s: State) {
    && One(s.shared.pending) == Owners(s)
    && (s.platform.Unpublished? <==> !s.shared.published)
    && (s.platform.Publishing? ==> !s.platform.call.NoHandle?)
    && (s.render.Calling? && s.render.call.WithHandle? ==> s.shared.published)
  }

  lemma {:induction false} CallKeepsOwners(s: Shared, call: Call, posts: bool, t: Shared, next: Option<Call>)
    requires CallStep(s, call, posts) == (t, next)
    requires Owns(call) ==> s.pending
    ensures One(t.pending) - Sentinels(t.tasks) - One(next.Some? && Owns(next.value))
         == One(s.pending) - Sentinels(s.tasks) - One(Owns(call))
  {
    SentinelsAppend(s.tasks, Sentinel);
  }

  lemma {:induction false} StepKeepsExclusive(s: State, action: Action, t: State)
    requires Exclusive(s) && Step(s, action) == Some(t)
    ensures Exclusive(t)
  {
    match action
    case Enqueue => SentinelsAppend(s.shared.tasks, Raster);
    case RunRender(_, posts) =>
      if s.render.Calling? {
        var (shared, next) := CallStep(s.shared, s.render.call, posts);
        CallKeepsOwners(s.shared, s.render.call, posts, shared, next);
      }
    case RunPlatform(posts) =>
      if s.platform.Publishing? {
        var (shared, next) := CallStep(s.shared, s.platform.call, posts);
        CallKeepsOwners(s.shared, s.platform.call, posts, shared, next);
      }
  }

  lemma {:induction false} ExclusiveIsKept(states: seq<State>, actions: seq<Action>, i: nat)
    requires IsRun(states, actions) && i < |states|
    ensures Exclusive(states[i])
  {
    if i > 0 {
      ExclusiveIsKept(states, actions, i - 1);
      assert StepAt(states, actions, i - 1);
      StepKeepsExclusive(states[i - 1], actions[i - 1], states[i]);
    }
  }

  /** Whatever the interleaving, the flag is set exactly while one owner is responsible for clearing it. */
  lemma {:induction false} PendingHasOneOwner(states: seq<State>, actions: seq<Action>, i: nat)
    requires IsRun(states, actions) && i < |states|
    ensures states[i].shared.pending <==> Owners(states[i]) == 1
    ensures Owners(states[i]) <= 1 && Sentinels(states[i].shared.tasks) <= 1
  {
    ExclusiveIsKept(states, actions, i);
  }

  /** While no call and no sentinel is under way the flag is set exactly if one sentinel is queued. */
  lemma {:induction false} PendingIsQueued(states: seq<State>, actions: seq<Action>, i: nat)
    requires IsRun(states, actions) && i < |states|
    requires states[i].render.Waiting? || states[i].render.InTask?
    requires !states[i].platform.Publishing?
    ensures states[i].shared.pending <==> Sentinels(states[i].shared.tasks) == 1
  {
    ExclusiveIsKept(states, actions, i);
  }

  // ---------- Idleness is reported ----------

  /** Some call or sentinel under way, or still to come, will report idleness. */
  predicate Covered(s: State) {
    || !s.shared.published
    || s.platform.Publishing?
    || Sentinels(s.shared.tasks) > 0
    || s.render.Clearing? || s.render.Announcing?
    || (s.render.Calling? && !s.render.call.NoHandle?)
  }

  /** The publisher has not yet tried to set the flag. */
  predicate ToCome(platform: Platform) {
    platform.Unpublished? || platform == Publishing(Comparing)
  }

  /** What is owed is on its way, unless the publisher lost its race. */
  predicate Accounted(s: State) {
    && (s.shared.owed ==> Covered(s) || s.shared.missed)
    && (s.shared.missed ==> s.shared.owed && s.platform.Finished?)
    && (s.render.Calling? && (s.render.call.Comparing? || s.render.call.Claimed? || s.render.call.NoHandle?) ==>
        ToCome(s.platform) ==> s.shared.owed)
    && (s.render == Calling(NoHandle) ==> ToCome(s.platform) || s.shared.missed)
  }

  lemma {:induction false} RenderKeepsAccount(s: State, current: bool, posts: bool, t: State)
    requires Exclusive(s) && Accounted(s) && RenderStep(s, current, posts) == Some(t)
    ensures Accounted(t)
  {
    SentinelsAppend(s.shared.tasks, Sentinel);
  }

  lemma {:induction false} PlatformKeepsAccount(s: State, posts: bool, t: State)
    requires Exclusive(s) && Accounted(s) && PlatformStep(s, posts) == Some(t)
    ensures Accounted(t)
  {
    SentinelsAppend(s.shared.tasks, Sentinel);
  }

  lemma {:induction false} AccountIsKept(states: seq<State>, actions: seq<Action>, i: nat)
    requires IsRun(states, actions) && i < |states|
    ensures Accounted(states[i])
  {
    if i > 0 {
      var s := states[i - 1];
      AccountIsKept(states, actions, i - 1);
      ExclusiveIsKept(states, actions, i - 1);
      assert StepAt(states, actions, i - 1);
      match actions[i - 1]
      case Enqueue => SentinelsAppend(s.shared.tasks, Raster);
      case RunRender(current, posts) => RenderKeepsAccount(s, current, posts, states[i]);
      case RunPlatform(posts) => PlatformKeepsAccount(s, posts, states[i]);
    }
  }

  /** The publisher is done, no sentinel is queued, and the render thread is between tasks. */
  predicate AtRest(s: State) {
    s.platform.Finished? && s.render.Waiting? && Sentinels(s.shared.tasks) == 0
  }

  /**
   At rest every successful make_current has been followed by a report of
   idleness, except exactly when the publisher found the flag set by a call that
   had already read a zero handle, and nothing was made current since.
   */
  lemma {:induction false} OwedAtRestIsTheLostRace(states: seq<State>, actions: seq<Action>, i: nat)
    requires IsRun(states, actions) && i < |states| && AtRest(states[i])
    ensures states[i].shared.owed <==> states[i].shared.missed
    ensures !states[i].shared.pending
  {
    AccountIsKept(states, actions, i);
    ExclusiveIsKept(states, actions, i);
  }

  /** The race is lost at most once: a publisher that is done and has not lost it, or has recovered, never does. */
  lemma {:induction false} RaceIsNotLostAgain(states: seq<State>, actions: seq<Action>, i: nat, j: nat)
    requires IsRun(states, actions) && i <= j < |states|
    requires states[i].platform.Finished? && !states[i].shared.missed
    ensures states[j].platform.Finished? && !states[j].shared.missed
  {
    if i < j {
      RaceIsNotLostAgain(states, actions, i, j - 1);
      assert StepAt(states, actions, j - 1);
    }
  }

  // ---------- The sentinel comes last ----------

  /** How many tasks the render thread took between two states. */
  function Taken(states: seq<State>, actions: seq<Action>, i: nat, j: nat): nat
    requires i <= j <= |actions| < |states|
  {
    if i == j then 0
    else Taken(states, actions, i, j - 1) + One(actions[j - 1].RunRender? && states[j - 1].render.Waiting?)
  }

  lemma {:induction false} StepKeepsOrder(s: State, action: Action, t: State, k: nat)
    requires Step(s, action) == Some(t) && k < |s.shared.tasks|
    ensures var taken := One(action.RunRender? && s.render.Waiting?);
            taken <= k ==> k - taken < |t.shared.tasks| && t.shared.tasks[k - taken] == s.shared.tasks[k]
  {
  }

  /** Tasks are taken in the order in which they were queued. */
  lemma {:induction false} TasksKeepTheirOrder(states: seq<State>, actions: seq<Action>, i: nat, j: nat, k: nat)
    requires IsRun(states, actions) && i <= j < |states| && k < |states[i].shared.tasks|
    requires Taken(states, actions, i, j) <= k
    ensures k - Taken(states, actions, i, j) < |states[j].shared.tasks|
    ensures states[j].shared.tasks[k - Taken(states, actions, i, j)] == states[i].shared.tasks[k]
  {
    if i < j {
      TasksKeepTheirOrder(states, actions, i, j - 1, k);
      assert StepAt(states, actions, j - 1);
      StepKeepsOrder(states[j - 1], actions[j - 1], states[j], k - Taken(states, actions, i, j - 1));
    }
  }

  /** Step i posts a sentinel. */
  predicate Posts(states: seq<State>, i: nat)
    requires i + 1 < |states|
  {
    Sentinels(states[i].shared.tasks) < Sentinels(states[i + 1].shared.tasks)
  }

  lemma {:induction false} PostIsLast(s: State, action: Action, t: State)
    requires Step(s, action) == Some(t) && Sentinels(s.shared.tasks) < Sentinels(t.shared.tasks)
    ensures t.shared.tasks == s.shared.tasks + [Sentinel]
  {
    SentinelsAppend(s.shared.tasks, Raster);
  }

  /**
   A sentinel runs after all that was queued before it was posted: until the
   render thread has taken each of those tasks the sentinel is still queued and
   no other one is running, and what it takes next is the sentinel.
   */
  lemma {:induction false} SentinelRunsLast(states: seq<State>, actions: seq<Action>, i: nat, j: nat)
    requires IsRun(states, actions) && i < j < |states| && Posts(states, i)
    requires Taken(states, actions, i + 1, j) <= |states[i].shared.tasks|
    ensures Sentinels(states[j].shared.tasks) == 1 && !states[j].render.Clearing?
    ensures Taken(states, actions, i + 1, j) == |states[i].shared.tasks| ==> states[j].shared.tasks[..1] == [Sentinel]
  {
    var n := |states[i].shared.tasks|;
    assert StepAt(states, actions, i);
    PostIsLast(states[i], actions[i], states[i + 1]);
    TasksKeepTheirOrder(states, actions, i + 1, j, n);
    SentinelCounts(states[j].shared.tasks, n - Taken(states, actions, i + 1, j));
    PendingHasOneOwner(states, actions, j);
  }

  lemma {:induction false} SentinelCounts(tasks: seq<Task>, k: nat)
    requires k < |tasks| && tasks[k].Sentinel?
    ensures Sentinels(tasks) > 0
  {
    if k > 0 {
      SentinelCounts(tasks[1..], k - 1);
    }
  }

  // ---------- The calls, not interleaved ----------

  /** A call run to its end. */
  function Completed(s: Shared, call: Call, posts: bool): Shared
    decreases match call
              case Comparing => 4 case Claimed => 3 case WithHandle => 2 case PostFailed => 1
              case NoHandle => 0 case Notifying => 0
  {
    match CallStep(s, call, posts)
    case (t, None) => t
    case (t, Some(next)) => Completed(t, next, posts)
  }

  class CallbackState {
    var engineHandle: U64
    var rasterSentinelPending: bool
    var tasks: seq<Task>   // posted to the render thread
    var reports: nat       // calls of the handler's raster_idle
    ghost var owed: bool
    ghost var missed: bool

    ghost function View(): Shared
      reads this
    {
      Shared(rasterSentinelPending, engineHandle != 0, tasks, owed, missed)
    }

    constructor ()
      ensures View() == START.shared && reports == 0
    {
      engineHandle, rasterSentinelPending, tasks, reports, owed, missed := 0, false, [], 0, false, false;
    }

    method ReportIdle()
      modifies this`reports, this`owed, this`missed
      ensures View() == Idle(old(View())) && reports == old(reports) + 1
    {
      reports, owed, missed := reports + 1, false, false;
    }

    method QueueRasterSentinel(posts: bool)
      modifies this
      ensures View() == Completed(old(View()), Comparing, posts) && engineHandle == old(engineHandle)
      ensures var claims := !old(rasterSentinelPending) && engineHandle != 0;
              && tasks == old(tasks) + (if claims && posts then [Sentinel] else [])
              && rasterSentinelPending == (old(rasterSentinelPending) || (claims && posts))
              && reports == old(reports) + One(claims && !posts)
    {
      ghost var claimed := View().(pending := true);
      if rasterSentinelPending {
        return;
      }
      rasterSentinelPending := true;
      var handle := engineHandle;
      assert Completed(old(View()), Comparing, posts) == Completed(claimed, Claimed, posts);
      if handle == 0 {
        rasterSentinelPending := false;
        return;
      }
      assert Completed(claimed, Claimed, posts) == Completed(claimed, WithHandle, posts);
      if posts {
        tasks := tasks + [Sentinel];
      } else {
        rasterSentinelPending := false;
        assert Completed(claimed, WithHandle, posts) == Completed(claimed, PostFailed, posts);
        ReportIdle();
      }
    }

    method MakeCurrent(current: bool, posts: bool)
      modifies this
      ensures View() == if current
                        then Completed(old(View()).(owed := true, missed := false), Comparing, posts)
                        else old(View())
      ensures engineHandle == old(engineHandle)
      ensures reports == old(reports) + One(current && !old(rasterSentinelPending) && engineHandle != 0 && !posts)
    {
      if current {
        owed, missed := true, false;
        QueueRasterSentinel(posts);
      }
    }

    method PublishEngineHandle(handle: U64, posts: bool)
      requires handle != 0
      modifies this
      ensures View() == Completed(old(View()).(published := true), Comparing, posts) && engineHandle == handle
      ensures reports == old(reports) + One(!old(rasterSentinelPending) && !posts)
    {
      engineHandle := handle;
      QueueRasterSentinel(posts);
    }

    method RasterIdle()
      modifies this
      ensures View() == Idle(old(View()).(pending := false)) && reports == old(reports) + 1
    {
      rasterSentinelPending := false;
      ReportIdle();
    }
  }

  // ---------- The lost race happens ----------

  /** The state after actions, if all of them can be taken. */
  function Outcome(s: State, actions: seq<Action>): Option<State>
    decreases |actions|
  {
    if actions == [] then Some(s)
    else
      match Step(s, actions[0])
      case None => None
      case Some(t) => Outcome(t, actions[1..])
  }

  const RENDER := RunRender(true, true)
  const PLATFORM := RunPlatform(true)

  /** The interleaving that loses the race. */
  const LOST_RACE: seq<Action> :=
    [Enqueue, RENDER, RENDER, RENDER, RENDER, PLATFORM, PLATFORM, RENDER, RunRender(false, true)]

  /** It ends at rest with idleness still owed. */
  lemma {:induction false} RaceCanBeLost()
    ensures Outcome(START, LOST_RACE).Some?
    ensures var s := Outcome(START, LOST_RACE).value; AtRest(s) && s.shared.owed
  {
    var called := State(Shared(false, false, [], true, false), Calling(Comparing), Unpublished);
    var stuck := State(Shared(true, true, [], true, false), Calling(NoHandle), Publishing(Comparing));
    var made := [Enqueue, RENDER, RENDER];
    var raced := [RENDER, RENDER, PLATFORM];
    var ended := [PLATFORM, RENDER, RunRender(false, true)];
    assert LOST_RACE == made + (raced + ended);
    assert Outcome(START, made) == Some(called) by {
      assert [] + [Raster] == [Raster] && [Raster][1..] == [];
      ThreeSteps(START, made, State(Shared(false, false, [Raster], false, false), Waiting, Unpublished),
                 State(Shared(false, false, [], false, false), InTask, Unpublished), called);
    }
    assert Outcome(called, raced) == Some(stuck) by {
      ThreeSteps(called, raced, State(Shared(true, false, [], true, false), Calling(Claimed), Unpublished),
                 State(Shared(true, false, [], true, false), Calling(NoHandle), Unpublished), stuck);
    }
    var lost := Shared(true, true, [], true, true);
    ThreeSteps(stuck, ended, State(lost, Calling(NoHandle), Finished),
               State(lost.(pending := false), InTask, Finished), State(lost.(pending := false), Waiting, Finished));
    OutcomeConcat(called, raced, ended);
    OutcomeConcat(START, made, raced + ended);
  }

  lemma {:induction false} ThreeSteps(s: State, actions: seq<Action>, t: State, u: State, v: State)
    requires |actions| == 3
    requires Step(s, actions[0]) == Some(t) && Step(t, actions[1]) == Some(u) && Step(u, actions[2]) == Some(v)
    ensures Outcome(s, actions) == Some(v)
  {
    assert Outcome(u, actions[2..]) == Outcome(v, actions[2..][1..]);
    assert actions[1..][1..] == actions[2..] && actions[2..][1..] == [];
  }

  lemma {:induction false} OutcomeConcat(s: State, first: seq<Action>, second: seq<Action>)
    requires Outcome(s, first).Some?
    ensures Outcome(s, first + second) == Outcome(Outcome(s, first).value, second)
    decreases |first|
  {
    if first == [] {
      assert first + second == second;
    } else {
      assert (first + second)[1..] == first[1..] + second;
      OutcomeConcat(Step(s, first[0]).value, first[1..], second);
    }
  }
}
