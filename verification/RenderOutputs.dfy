/** Per-output raster plans: which snapshots a plan accepts, and the map into each native buffer. */
module RenderOutputs {
  import opened Wrappers
  import opened Orientation
  import opened Topology
  import opened TopologyManagement
  import opened TopologyRuns
  import opened Atlas

  /** A linear map of the plane and a translation. */
  datatype OutputProjection = OutputProjection(
    scaleX: real, skewX: real, translateX: real, skewY: real, scaleY: real, translateY: real)
  {
    function Apply(x: real, y: real): Point {
      Point(scaleX * x + skewX * y + translateX, skewY * x + scaleY * y + translateY)
    }
  }

  datatype RenderOutputPlan = RenderOutputPlan(
    outputId: U64, renderViewId: int, configurationGeneration: U64, sourceRect: PixelRect,
    targetSize: PixelSize, scale120: U32, sourceToTarget: OutputProjection)

  // ---------- Projections ----------

  /** The map from an output's oriented pixels to its native pixels. */
  function Orient(t: OutputTransform, width: real, height: real): OutputProjection {
    match t
    case Normal => OutputProjection(1.0, 0.0, 0.0, 0.0, 1.0, 0.0)
    case Rotate90 => OutputProjection(0.0, -1.0, height, 1.0, 0.0, 0.0)
    case Rotate180 => OutputProjection(-1.0, 0.0, width, 0.0, -1.0, height)
    case Rotate270 => OutputProjection(0.0, 1.0, 0.0, -1.0, 0.0, width)
    case Flipped => OutputProjection(-1.0, 0.0, width, 0.0, 1.0, 0.0)
    case Flipped90 => OutputProjection(0.0, 1.0, 0.0, 1.0, 0.0, 0.0)
    case Flipped180 => OutputProjection(1.0, 0.0, 0.0, 0.0, -1.0, height)
    case Flipped270 => OutputProjection(0.0, -1.0, height, -1.0, 0.0, width)
  }

  /** The projection that first moves the origin to (x, y) and rescales both axes, then applies o. */
  function Rescaled(o: OutputProjection, sx: real, sy: real, x: real, y: real): OutputProjection {
    OutputProjection(
      o.scaleX * sx, o.skewX * sy, o.translateX - o.scaleX * sx * x - o.skewX * sy * y,
      o.skewY * sx, o.scaleY * sy, o.translateY - o.skewY * sx * x - o.scaleY * sy * y)
  }

  function ProjectionFor(output: OutputSpec, source: PixelRect): OutputProjection
    requires source.width > 0 && source.height > 0
  {
    var oriented := output.TransformedPixelSize();
    var width, height := oriented.width as real, oriented.height as real;
    Rescaled(Orient(output.transform, width, height),
             width / source.width as real, height / source.height as real, source.x as real, source.y as real)
  }

  /** One row of a rescaled projection, whose coefficients are p, q and c. */
  lemma RowRescales(
    a: real, b: real, t: real, sx: real, sy: real, x: real, y: real, dx: real, dy: real, p: real, q: real, c: real)
    requires p == a * sx && q == b * sy && c == t - p * x - q * y
    ensures p * (x + dx) + q * (y + dy) + c == a * (sx * dx) + b * (sy * dy) + t
  {
    assert p * (x + dx) == p * x + a * (sx * dx);
    assert q * (y + dy) == q * y + b * (sy * dy);
  }

  lemma RescaledMoves(
    o: OutputProjection, sx: real, sy: real, x: real, y: real, dx: real, dy: real, r: OutputProjection)
    requires r == Rescaled(o, sx, sy, x, y)
    ensures r.Apply(x + dx, y + dy) == o.Apply(sx * dx, sy * dy)
  {
    RowRescales(o.scaleX, o.skewX, o.translateX, sx, sy, x, y, dx, dy, r.scaleX, r.skewX, r.translateX);
    RowRescales(o.skewY, o.scaleY, o.translateY, sx, sy, x, y, dx, dy, r.skewY, r.scaleY, r.translateY);
  }

  /** A normalized native point in native pixels. */
  function NativePoint(output: OutputSpec, u: real, v: real): Point {
    Point(u * output.mode.width as real, v * output.mode.height as real)
  }

  lemma FromFarSide(length: real, c: real)
    ensures length * (1.0 - c) == length - c * length && length * c == c * length
  {
  }

  /** Orienting a logical point gives its native point, both in pixels: width and height are the native ones. */
  lemma OrientInverts(t: OutputTransform, width: real, height: real, a: real, b: real, u: real, v: real, p: Point)
    requires p == NativeToLogical(t, Point(u, v))
    requires if SwapsAxes(t) then a == height && b == width else a == width && b == height
    ensures Orient(t, a, b).Apply(a * p.x, b * p.y) == Point(u * width, v * height)
  {
    FromFarSide(width, u);
    FromFarSide(height, v);
  }

  lemma OrientInvertsInput(output: OutputSpec, u: real, v: real, size: PixelSize, p: Point)
    requires size == output.TransformedPixelSize() && p == NativeToLogical(output.transform, Point(u, v))
    ensures Orient(output.transform, size.width as real, size.height as real)
            .Apply(size.width as real * p.x, size.height as real * p.y) == NativePoint(output, u, v)
  {
    OrientInverts(output.transform, output.mode.width as real, output.mode.height as real,
                  size.width as real, size.height as real, u, v, p);
  }

  /** The atlas point that shows a logical point of an output. */
  function SourcePoint(source: PixelRect, p: Point): Point {
    Point(source.x as real + p.x * source.width as real, source.y as real + p.y * source.height as real)
  }

  lemma Cancel(a: real, b: real, c: real)
    requires b != 0.0
    ensures (a / b) * (c * b) == a * c
  {
    var q := a / b;
    assert q * b == a;
    assert q * (c * b) == c * (q * b);
  }

  /** Wherever o sends a logical point of the oriented buffer, r sends the source point that shows it. */
  lemma RescaledAtSource(
    o: OutputProjection, size: PixelSize, source: PixelRect, logical: Point, target: Point,
    r: OutputProjection, p: Point)
    requires source.width > 0 && source.height > 0
    requires o.Apply(size.width as real * logical.x, size.height as real * logical.y) == target
    requires r == Rescaled(o, size.width as real / source.width as real, size.height as real / source.height as real,
                           source.x as real, source.y as real)
    requires p == SourcePoint(source, logical)
    ensures r.Apply(p.x, p.y) == target
  {
    var sw, sh := source.width as real, source.height as real;
    RescaledMoves(o, size.width as real / sw, size.height as real / sh, source.x as real, source.y as real,
                  logical.x * sw, logical.y * sh, r);
    Cancel(size.width as real, sw, logical.x);
    Cancel(size.height as real, sh, logical.y);
  }

  /**
   The scanout projection undoes absolute input: for every orientation, the
   atlas point that input assigns to native (u, v) is scanned out at (u, v).
   */
  lemma ProjectionInvertsInput(output: OutputSpec, source: PixelRect, u: real, v: real, p: Point)
    requires source.width > 0 && source.height > 0
    requires p == SourcePoint(source, NativeToLogical(output.transform, Point(u, v)))
    ensures ProjectionFor(output, source).Apply(p.x, p.y) == NativePoint(output, u, v)
  {
    var size := output.TransformedPixelSize();
    var logical := NativeToLogical(output.transform, Point(u, v));
    var o := Orient(output.transform, size.width as real, size.height as real);
    OrientInvertsInput(output, u, v, size, logical);
    RescaledAtSource(o, size, source, logical, NativePoint(output, u, v), ProjectionFor(output, source), p);
  }

  predicate InUnitSquare(p: Point) {
    0.0 <= p.x <= 1.0 && 0.0 <= p.y <= 1.0
  }

  lemma UnitSquareIsKept(t: OutputTransform, p: Point)
    ensures InUnitSquare(NativeToLogical(t, p)) <==> InUnitSquare(p)
    ensures LogicalToNative(t, NativeToLogical(t, p)) == p
  {
  }

  /** A logical point of the source rectangle is scanned out at a native point. */
  predicate Shows(output: OutputSpec, source: PixelRect, logical: Point, native: Point)
    requires source.width > 0 && source.height > 0
  {
    var p := SourcePoint(source, logical);
    ProjectionFor(output, source).Apply(p.x, p.y) == NativePoint(output, native.x, native.y)
  }

  lemma SourceShows(output: OutputSpec, source: PixelRect, native: Point)
    requires source.width > 0 && source.height > 0
    ensures Shows(output, source, NativeToLogical(output.transform, native), native)
  {
    var p := SourcePoint(source, NativeToLogical(output.transform, native));
    ProjectionInvertsInput(output, source, native.x, native.y, p);
  }

  /** What the source rectangle shows fills the native buffer: every point of either has its partner in the other. */
  lemma SourceFillsTheBuffer(output: OutputSpec, source: PixelRect)
    requires source.width > 0 && source.height > 0
    ensures forall logical | InUnitSquare(logical) ::
              exists native | InUnitSquare(native) :: Shows(output, source, logical, native)
    ensures forall native | InUnitSquare(native) ::
              exists logical | InUnitSquare(logical) :: Shows(output, source, logical, native)
  {
    forall logical | InUnitSquare(logical)
      ensures exists native | InUnitSquare(native) :: Shows(output, source, logical, native)
    {
      var native := LogicalToNative(output.transform, logical);
      UnitSquareIsKept(output.transform, native);
      SourceShows(output, source, native);
    }
    forall native | InUnitSquare(native)
      ensures exists logical | InUnitSquare(logical) :: Shows(output, source, logical, native)
    {
      UnitSquareIsKept(output.transform, native);
      SourceShows(output, source, native);
    }
  }

  // ---------- View identifiers ----------

  function ViewIdFor(output: U64): (view: Option<int>)
    ensures view.Some? <==> output < 0x7FFF_FFFF_FFFF_FFFF
    ensures view.Some? ==> -I64_MAX <= view.value < 0 && view.value + output == -1
  {
    if output > I64_MAX then None
    else if output + 1 > I64_MAX then None
    else Some(-(output + 1))
  }

  // ---------- Matching a plan with a snapshot ----------

  function FindPlanned(outputs: seq<AtlasOutput>, id: U64): (found: Option<AtlasOutput>)
    ensures found.Some? ==> found.value in outputs && found.value.id == id
    ensures found.None? <==> forall o | o in outputs :: o.id != id
  {
    if outputs == [] then None
    else if outputs[0].id == id then Some(outputs[0])
    else FindPlanned(outputs[1..], id)
  }

  predicate Projectable(plan: AtlasPlan) {
    forall o | o in plan.outputs :: o.sourceRect.width > 0 && o.sourceRect.height > 0
  }

  function RenderOne(plan: AtlasPlan, epoch: U64, output: OutputSpec): Option<RenderOutputPlan>
    requires Projectable(plan)
  {
    match (FindPlanned(plan.outputs, output.id), ViewIdFor(output.id))
    case (Some(planned), Some(view)) =>
      Some(RenderOutputPlan(output.id, view, epoch, planned.sourceRect, output.mode, output.scale120,
                            ProjectionFor(output, planned.sourceRect)))
    case (_, _) => None
  }

  /** All outputs in order, or nothing if one has no plan. */
  function RenderAll(plan: AtlasPlan, epoch: U64, outputs: seq<OutputSpec>): (all: Option<seq<RenderOutputPlan>>)
    requires Projectable(plan)
    ensures all.Some? <==> forall o | o in outputs :: RenderOne(plan, epoch, o).Some?
    ensures all.Some? ==> |all.value| == |outputs|
                          && forall i | 0 <= i < |outputs| :: RenderOne(plan, epoch, outputs[i]) == Some(all.value[i])
  {
    if outputs == [] then Some([])
    else
      match (RenderOne(plan, epoch, outputs[0]), RenderAll(plan, epoch, outputs[1..]))
      case (Some(first), Some(rest)) => Some([first] + rest)
      case (_, _) =>
        assert outputs[0] in outputs && forall o | o in outputs[1..] :: o in outputs;
        None
  }

  function Render(plan: AtlasPlan, snapshot: TopologySnapshot): Option<seq<RenderOutputPlan>>
    requires Projectable(plan)
  {
    if plan.topologyEpoch == 0 || plan.topologyEpoch != snapshot.epoch || |plan.outputs| != |snapshot.outputs|
    then None
    else RenderAll(plan, snapshot.epoch, snapshot.outputs)
  }

  /** The projection scans out at native (u, v) what the source rectangle shows there. */
  predicate ScansOut(projection: OutputProjection, source: PixelRect, output: OutputSpec, u: real, v: real) {
    var p := SourcePoint(source, NativeToLogical(output.transform, Point(u, v)));
    projection.Apply(p.x, p.y) == Point(u * output.mode.width as real, v * output.mode.height as real)
  }

  /** The output's entry under this epoch, made with a plan's entry for it. */
  ghost predicate IsEntryOf(entry: RenderOutputPlan, output: OutputSpec, planned: AtlasOutput, epoch: U64) {
    && entry.outputId == output.id == planned.id
    && entry.renderViewId + output.id == -1
    && entry.configurationGeneration == epoch
    && entry.sourceRect == planned.sourceRect
    && entry.targetSize == output.mode && entry.scale120 == output.scale120
    && forall u, v :: ScansOut(entry.sourceToTarget, planned.sourceRect, output, u, v)
  }

  /** The plan's first entry for an output is its j-th. */
  predicate PlansAt(planned: seq<AtlasOutput>, id: U64, j: nat) {
    j < |planned| && planned[j].id == id && forall l | 0 <= l < j :: planned[l].id != id
  }

  lemma {:induction false} FoundIsFirst(planned: seq<AtlasOutput>, id: U64) returns (j: nat)
    requires FindPlanned(planned, id).Some?
    ensures PlansAt(planned, id, j) && FindPlanned(planned, id).value == planned[j]
  {
    if planned[0].id == id {
      j := 0;
    } else {
      j := FoundIsFirst(planned[1..], id);
      forall l | 0 <= l < j + 1 ensures planned[l].id != id {
        assert l > 0 ==> planned[l] == planned[1..][l - 1];
      }
      j := j + 1;
    }
  }

  lemma {:induction false} RenderedIsEntry(plan: AtlasPlan, epoch: U64, output: OutputSpec) returns (j: nat)
    requires Projectable(plan) && RenderOne(plan, epoch, output).Some?
    ensures PlansAt(plan.outputs, output.id, j)
    ensures IsEntryOf(RenderOne(plan, epoch, output).value, output, plan.outputs[j], epoch)
  {
    j := FoundIsFirst(plan.outputs, output.id);
    var planned := plan.outputs[j];
    assert planned in plan.outputs;
    forall u, v ensures ScansOut(ProjectionFor(output, planned.sourceRect), planned.sourceRect, output, u, v) {
      var p := SourcePoint(planned.sourceRect, NativeToLogical(output.transform, Point(u, v)));
      ProjectionInvertsInput(output, planned.sourceRect, u, v, p);
    }
  }

  /** Both epochs are the same and not zero, the counts agree, and every output has a view and is in the plan. */
  predicate Renderable(plan: AtlasPlan, snapshot: TopologySnapshot) {
    && plan.topologyEpoch == snapshot.epoch != 0 && |plan.outputs| == |snapshot.outputs|
    && forall o | o in snapshot.outputs ::
         o.id < 0x7FFF_FFFF_FFFF_FFFF && exists planned | planned in plan.outputs :: planned.id == o.id
  }

  /** Any plan and any snapshot: exactly when outputs are rendered, and what. */
  lemma {:induction false} RenderExactly(
    plan: AtlasPlan, snapshot: TopologySnapshot, rendered: Option<seq<RenderOutputPlan>>, k: nat) returns (j: nat)
    requires Projectable(plan) && rendered == Render(plan, snapshot)
    ensures rendered.Some? <==> Renderable(plan, snapshot)
    ensures rendered.Some? ==> |rendered.value| == |snapshot.outputs|
    ensures rendered.Some? && k < |rendered.value| ==>
              && PlansAt(plan.outputs, snapshot.outputs[k].id, j)
              && IsEntryOf(rendered.value[k], snapshot.outputs[k], plan.outputs[j], snapshot.epoch)
  {
    j := 0;
    if rendered.Some? && k < |rendered.value| {
      j := RenderedIsEntry(plan, snapshot.epoch, snapshot.outputs[k]);
    }
  }

  lemma {:induction false} PlansAreProjectable(snapshot: TopologySnapshot)
    requires Scaled(snapshot.outputs) && snapshot.logicalBounds.Some?
    ensures Projectable(PlanFor(snapshot).value)
  {
    var outputs := PlanFor(snapshot).value.outputs;
    forall i | 0 <= i < |outputs| ensures outputs[i].sourceRect.width > 0 && outputs[i].sourceRect.height > 0 {
      assert outputs[i].sourceRect.width >= 1 && outputs[i].sourceRect.height >= 1;
    }
  }

  /** The plan lists the outputs in their order. */
  predicate Lists(planned: seq<AtlasOutput>, outputs: seq<OutputSpec>) {
    |planned| == |outputs| && forall i | 0 <= i < |outputs| :: planned[i].id == outputs[i].id
  }

  lemma {:induction false} PlansListTheirOutputs(snapshot: TopologySnapshot)
    requires Scaled(snapshot.outputs) && snapshot.logicalBounds.Some?
    ensures Lists(PlanFor(snapshot).value.outputs, snapshot.outputs)
  {
  }

  /** A valid topology with at least one output. */
  predicate Current(state: TopologyState) {
    ValidTopology(state.outputs) && state.outputs != map[]
  }

  predicate IdsIncrease(outputs: seq<OutputSpec>) {
    forall i, j | 0 <= i < j < |outputs| :: outputs[i].id < outputs[j].id
  }

  /** What rendering a plan's own snapshot asks for: an epoch, and a view for every output. */
  predicate Viewable(snapshot: TopologySnapshot) {
    snapshot.epoch != 0 && forall k | 0 <= k < |snapshot.outputs| :: snapshot.outputs[k].id < 0x7FFF_FFFF_FFFF_FFFF
  }

  /** One entry per output in order, each with its own source rectangle, projection and view. */
  ghost predicate OwnEntries(
    snapshot: TopologySnapshot, planned: seq<AtlasOutput>, entries: seq<RenderOutputPlan>)
  {
    && |entries| == |snapshot.outputs| == |planned|
    && forall k | 0 <= k < |entries| :: IsEntryOf(entries[k], snapshot.outputs[k], planned[k], snapshot.epoch)
  }

  lemma {:induction false} OwnIsRenderable(snapshot: TopologySnapshot, plan: AtlasPlan)
    requires Lists(plan.outputs, snapshot.outputs) && plan.topologyEpoch == snapshot.epoch
    ensures Renderable(plan, snapshot) <==> Viewable(snapshot)
  {
    forall o | o in snapshot.outputs ensures exists planned | planned in plan.outputs :: planned.id == o.id {
      var k :| 0 <= k < |snapshot.outputs| && snapshot.outputs[k] == o;
      assert plan.outputs[k] in plan.outputs && plan.outputs[k].id == o.id;
    }
  }

  lemma {:induction false} OwnIsPlannedInPlace(
    outputs: seq<OutputSpec>, planned: seq<AtlasOutput>, k: nat, j: nat)
    requires Lists(planned, outputs) && IdsIncrease(outputs) && k < |outputs| && PlansAt(planned, outputs[k].id, j)
    ensures j == k
  {
    assert planned[j].id == outputs[j].id;
  }

  /**
   A plan renders its own snapshot exactly when the epoch is non-zero and every
   identifier has a view, and what it renders are the snapshot's own entries.
   */
  lemma {:induction false} RenderOwnSnapshot(
    snapshot: TopologySnapshot, plan: AtlasPlan, rendered: Option<seq<RenderOutputPlan>>)
    requires WellFormed(snapshot) && IdsIncrease(snapshot.outputs)
    requires PlanFor(snapshot) == Some(plan) && Projectable(plan) && rendered == Render(plan, snapshot)
    ensures rendered.Some? <==> Viewable(snapshot)
    ensures rendered.Some? ==> OwnEntries(snapshot, plan.outputs, rendered.value)
  {
    PlansListTheirOutputs(snapshot);
    OwnIsRenderable(snapshot, plan);
    var _ := RenderExactly(plan, snapshot, rendered, 0);
    if rendered.Some? {
      forall k | 0 <= k < |snapshot.outputs|
        ensures IsEntryOf(rendered.value[k], snapshot.outputs[k], plan.outputs[k], snapshot.epoch)
      {
        var j := RenderExactly(plan, snapshot, rendered, k);
        OwnIsPlannedInPlace(snapshot.outputs, plan.outputs, k, j);
      }
    }
  }

  /** The views a plan renders are distinct negative numbers. */
  lemma {:induction false} ViewsAreDistinct(
    snapshot: TopologySnapshot, planned: seq<AtlasOutput>, entries: seq<RenderOutputPlan>, k: nat, l: nat)
    requires IdsIncrease(snapshot.outputs) && OwnEntries(snapshot, planned, entries) && k < l < |entries|
    ensures entries[l].renderViewId < entries[k].renderViewId < 0
  {
    assert snapshot.outputs[k].id < snapshot.outputs[l].id;
    assert IsEntryOf(entries[k], snapshot.outputs[k], planned[k], snapshot.epoch);
    assert IsEntryOf(entries[l], snapshot.outputs[l], planned[l], snapshot.epoch);
  }

  lemma {:induction false} SnapshotIdsIncrease(state: TopologyState)
    requires ValidTopology(state.outputs)
    ensures IdsIncrease(SnapshotOf(state).outputs)
  {
    var ids, outputs := InOrder(state.outputs.Keys), Values(state.outputs);
    forall i, j | 0 <= i < j < |ids| ensures outputs[i].id < outputs[j].id {
      assert ids[i] in ids && ids[j] in ids;
      assert outputs[i] == state.outputs[ids[i]] && outputs[j] == state.outputs[ids[j]];
    }
  }

  /** Every reachable snapshot with an output can be planned, and its plan can be rendered from. */
  lemma {:induction false} SnapshotsArePlannable(state: TopologyState, snapshot: TopologySnapshot)
    requires Current(state) && snapshot == SnapshotOf(state)
    ensures WellFormed(snapshot) && IdsIncrease(snapshot.outputs)
    ensures PlanFor(snapshot).Some? && Projectable(PlanFor(snapshot).value)
  {
    SnapshotsAreWellFormed(state);
    SnapshotIdsIncrease(state);
    PlansAreProjectable(snapshot);
  }

  /**
   A stale plan is never used: along a run, a plan made from one state renders
   another state's snapshot only if the two states are the same.
   */
  lemma {:induction false} StalePlansAreRefused(states: seq<TopologyState>, i: nat, j: nat)
    requires IsRun(states) && i < |states| && j < |states|
    requires Effective(states, i) <= U64_MAX && Effective(states, j) <= U64_MAX
    requires states[i].outputs != map[]
    ensures Current(states[i]) && ValidTopology(states[j].outputs)
    ensures Projectable(PlanFor(SnapshotOf(states[i])).value)
    ensures Render(PlanFor(SnapshotOf(states[i])).value, SnapshotOf(states[j])).Some? ==> states[i] == states[j]
  {
    EpochIsAGenerationKey(states, if i < j then i else j, if i < j then j else i);
    SnapshotsArePlannable(states[i], SnapshotOf(states[i]));
  }
}
