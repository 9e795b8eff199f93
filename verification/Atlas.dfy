/**
 The desktop atlas: one pixel rectangle per output, cut from the scaled logical
 layout by rounding each edge on its own.
 */
module Atlas {
  import opened Wrappers
  import opened Orientation
  import opened Rounding
  import opened Topology
  import opened TopologyManagement

  datatype PixelRect = PixelRect(x: U32, y: U32, width: U32, height: U32) {
    function Size(): PixelSize { PixelSize(width, height) }
  }

  datatype Sampling = OneToOne | Resampled

  datatype AtlasOutput = AtlasOutput(
    id: U64, logicalRect: LogicalRect, sourceRect: PixelRect, pixelSize: PixelSize,
    transform: OutputTransform, sampling: Sampling)

  datatype AtlasPlan = AtlasPlan(
    topologyEpoch: U64, logicalOrigin: Point, logicalSize: Point, engineScale120: U32,
    pixelSize: PixelSize, outputs: seq<AtlasOutput>)

  // ---------- The planner ----------

  function AtLeastOne(x: U32): U32 {
    if x < 1 then 1 else x
  }

  function MaxScale(outputs: seq<OutputSpec>): (scale: U32)
    ensures forall o | o in outputs :: o.scale120 <= scale
    ensures outputs != [] ==> exists o | o in outputs :: o.scale120 == scale
  {
    if outputs == [] then 0
    else
      var last := outputs[|outputs| - 1];
      var rest := MaxScale(outputs[..|outputs| - 1]);
      assert outputs == outputs[..|outputs| - 1] + [last];
      if rest <= last.scale120 then last.scale120 else rest
  }

  function Scale(engineScale120: U32): real {
    engineScale120 as real / SCALE_BASE as real
  }

  /** A rectangle of the layout in unrounded atlas pixels. */
  datatype ScaledRect = ScaledRect(left: real, top: real, right: real, bottom: real)

  function ToScaled(rect: LogicalRect, bounds: LogicalRect, scale: real): ScaledRect {
    ScaledRect((rect.x - bounds.x) * scale, (rect.y - bounds.y) * scale,
               (rect.Right() - bounds.x) * scale, (rect.Bottom() - bounds.y) * scale)
  }

  function SpanLength(from: real, to: real): U32 {
    AtLeastOne(SaturatingSub(PixelEdge(to), PixelEdge(from)))
  }

  function SourceRect(s: ScaledRect): PixelRect {
    PixelRect(PixelEdge(s.left), PixelEdge(s.top), SpanLength(s.left, s.right), SpanLength(s.top, s.bottom))
  }

  function PlanOutput(output: OutputSpec, bounds: LogicalRect, scale: real): AtlasOutput
    requires output.scale120 > 0
  {
    var rect := output.LogicalRectOf();
    var source := SourceRect(ToScaled(rect, bounds, scale));
    var size := output.TransformedPixelSize();
    AtlasOutput(output.id, rect, source, size, output.transform,
                if source.Size() == size then OneToOne else Resampled)
  }

  function PlanOutputs(outputs: seq<OutputSpec>, bounds: LogicalRect, scale: real): (planned: seq<AtlasOutput>)
    requires Scaled(outputs)
    ensures |planned| == |outputs|
    ensures forall i | 0 <= i < |outputs| :: planned[i] == PlanOutput(outputs[i], bounds, scale)
  {
    if outputs == [] then []
    else PlanOutputs(outputs[..|outputs| - 1], bounds, scale)
         + [PlanOutput(outputs[|outputs| - 1], bounds, scale)]
  }

  function SizeOf(bounds: LogicalRect, scale: real): PixelSize {
    PixelSize(AtLeastOne(ScaledEdge(bounds.width, scale)), AtLeastOne(ScaledEdge(bounds.height, scale)))
  }

  function PlanFor(snapshot: TopologySnapshot): Option<AtlasPlan>
    requires Scaled(snapshot.outputs)
  {
    match snapshot.logicalBounds
    case None => None
    case Some(bounds) =>
      var engine := if snapshot.outputs == [] then SCALE_BASE else MaxScale(snapshot.outputs);
      var scale := Scale(engine);
      Some(AtlasPlan(
             snapshot.epoch, Point(bounds.x, bounds.y), Point(bounds.width, bounds.height), engine,
             SizeOf(bounds, scale),
             PlanOutputs(snapshot.outputs, bounds, scale)))
  }

  /** The scale is the greatest of the outputs', or 120 where there is none. */
  predicate IsEngineScale(engineScale120: U32, outputs: seq<OutputSpec>) {
    if outputs == [] then engineScale120 == 120
    else (exists o | o in outputs :: o.scale120 == engineScale120)
         && forall o | o in outputs :: o.scale120 <= engineScale120
  }

  /** A plan's entry is about this output; it says one to one exactly if the source rectangle has the output's size. */
  predicate IsAbout(planned: AtlasOutput, output: OutputSpec) {
    && planned.id == output.id && planned.transform == output.transform
    && output.scale120 > 0 && planned.logicalRect == output.LogicalRectOf()
    && planned.pixelSize == output.TransformedPixelSize()
    && planned.sourceRect.width > 0 && planned.sourceRect.height > 0
    && (planned.sampling.OneToOne? <==>
        planned.sourceRect.width == planned.pixelSize.width && planned.sourceRect.height == planned.pixelSize.height)
  }

  /** What a plan says of its snapshot, its pixels aside. */
  predicate Describes(plan: AtlasPlan, snapshot: TopologySnapshot) {
    && plan.topologyEpoch == snapshot.epoch
    && snapshot.logicalBounds.Some?
    && plan.logicalOrigin.x == snapshot.logicalBounds.value.x
    && plan.logicalOrigin.y == snapshot.logicalBounds.value.y
    && plan.logicalSize.x == snapshot.logicalBounds.value.width
    && plan.logicalSize.y == snapshot.logicalBounds.value.height
    && IsEngineScale(plan.engineScale120, snapshot.outputs)
    && plan.pixelSize.width > 0 && plan.pixelSize.height > 0
    && |plan.outputs| == |snapshot.outputs|
    && forall k | 0 <= k < |plan.outputs| :: IsAbout(plan.outputs[k], snapshot.outputs[k])
  }

  /** There is a plan exactly if there are bounds, and it describes its snapshot. */
  lemma {:induction false} PlansDescribe(snapshot: TopologySnapshot)
    requires Scaled(snapshot.outputs)
    ensures PlanFor(snapshot).Some? <==> snapshot.logicalBounds.Some?
    ensures PlanFor(snapshot).Some? ==> Describes(PlanFor(snapshot).value, snapshot)
  {
    if snapshot.logicalBounds.Some? {
      var plan := PlanFor(snapshot).value;
      forall k | 0 <= k < |plan.outputs| ensures IsAbout(plan.outputs[k], snapshot.outputs[k]) {
        assert snapshot.outputs[k] in snapshot.outputs;
      }
    }
  }

  method ForSnapshot(snapshot: TopologySnapshot) returns (plan: Option<AtlasPlan>)
    requires Scaled(snapshot.outputs)
    ensures plan.Some? <==> snapshot.logicalBounds.Some?
    ensures plan.Some? ==> Describes(plan.value, snapshot)
    ensures plan == PlanFor(snapshot)
  {
    PlansDescribe(snapshot);
    if snapshot.logicalBounds.None? {
      return None;
    }
    var bounds := snapshot.logicalBounds.value;
    var engine := if snapshot.outputs == [] then SCALE_BASE else MaxScale(snapshot.outputs);
    var scale := Scale(engine);
    var width, height := ScaledEdge(bounds.width, scale), ScaledEdge(bounds.height, scale);
    var outputs := PlanEach(snapshot.outputs, bounds, scale);
    plan := Some(AtlasPlan(
                   snapshot.epoch, Point(bounds.x, bounds.y), Point(bounds.width, bounds.height), engine,
                   PixelSize(AtLeastOne(width), AtLeastOne(height)), outputs));
  }

  method PlanEach(outputs: seq<OutputSpec>, bounds: LogicalRect, scale: real) returns (planned: seq<AtlasOutput>)
    requires Scaled(outputs)
    ensures planned == PlanOutputs(outputs, bounds, scale)
  {
    planned := [];
    for i := 0 to |outputs|
      invariant planned == PlanOutputs(outputs[..i], bounds, scale)
    {
      assert outputs[..i + 1][..i] == outputs[..i];
      planned := planned + [PlanOutput(outputs[i], bounds, scale)];
    }
    assert outputs[..|outputs|] == outputs;
  }

  // ---------- One axis ----------

  predicate InSpan(start: U32, length: U32, i: nat) {
    start <= i < start + length
  }

  /** A pixel belongs to an interval exactly when its centre does: start excluded, end included. */
  lemma {:induction false} SpanIsCentreRule(from: real, to: real, i: nat)
    requires 0.0 <= from && from + 1.0 <= to && i < U32_MAX
    ensures InSpan(PixelEdge(from), SpanLength(from, to), i) <==> from < i as real + 0.5 <= to
  {
    EdgeIsCentreRule(from, i);
    EdgeIsCentreRule(to, i);
    EdgesKeepDistance(from, to, 1);
  }

  /**
   A span ends on its rounded far edge exactly when its start does not saturate;
   otherwise it is the single pixel past the last one.
   */
  lemma SpanEnds(from: real, to: real)
    requires 0.0 <= from && from + 1.0 <= to
    ensures PixelEdge(from) + SpanLength(from, to) == PixelEdge(to) <==> Round(from) < U32_MAX
    ensures Round(from) < U32_MAX ==> PixelEdge(from) < PixelEdge(to)
    ensures Round(from) >= U32_MAX ==> PixelEdge(from) == PixelEdge(to) == U32_MAX && SpanLength(from, to) == 1
  {
    EdgesKeepDistance(from, to, 1);
  }

  /** Exactly when an interval of at least k pixels gets at least k: they fit from its start, or k is one. */
  lemma SpanKeepsPixels(from: real, to: real, k: nat)
    requires k > 0 && 0.0 <= from && from + k as real <= to
    ensures SpanLength(from, to) >= k <==> Round(from) + k <= U32_MAX || k == 1
  {
    EdgesKeepDistance(from, to, k);
  }

  /** Within a whole that reaches as far, a span stays inside exactly when its start does not saturate. */
  lemma SpanStaysInside(from: real, to: real, whole: real)
    requires 0.0 <= from && from + 1.0 <= to <= whole
    ensures PixelEdge(from) + SpanLength(from, to) <= AtLeastOne(PixelEdge(whole)) <==> Round(from) < U32_MAX
  {
    SpanEnds(from, to);
    RoundMonotone(to, whole);
  }

  /** Exactly when an interval of k pixels gets k pixels: its end does not saturate, or k is one. */
  lemma {:induction false} ExactSpan(from: real, to: real, k: nat)
    requires k > 0 && 0.0 <= from && from + k as real == to
    ensures SpanLength(from, to) == k <==> Round(to) <= U32_MAX || k == 1
  {
    EdgesKeepDistance(from, to, k);
  }

  // ---------- The layout an atlas is planned from ----------

  /** What a snapshot of a reachable manager looks like. */
  predicate WellFormed(snapshot: TopologySnapshot) {
    && ValidLayout(snapshot.outputs)
    && snapshot.outputs != []
    && Scaled(snapshot.outputs)
    && snapshot.logicalBounds == BoundsOf(snapshot.outputs)
  }

  lemma {:induction false} ValidIsScaled(outputs: seq<OutputSpec>)
    requires ValidLayout(outputs)
    ensures Scaled(outputs)
  {
    forall o | o in outputs ensures o.scale120 > 0 {
      var i :| 0 <= i < |outputs| && outputs[i] == o;
      assert ValidOutput(outputs[i]);
    }
  }

  lemma {:induction false} SnapshotsAreWellFormed(state: TopologyState)
    requires ValidTopology(state.outputs) && state.outputs != map[]
    ensures WellFormed(SnapshotOf(state))
  {
    var ids := InOrder(state.outputs.Keys);
    VerdictIgnoresOrder(state.outputs, ids);
    ScanDecidesValidity(Values(state.outputs));
    var id :| id in state.outputs;
    assert id in ids;
    ValidIsScaled(Values(state.outputs));
  }

  /** Scaling a length of px pixels by the engine scale gives at least px, and px at the engine's own scale. */
  lemma ScaledLength(px: U32, scale120: U32, engine: U32)
    requires 0 < scale120 <= engine
    ensures var length := px as real / Scale(scale120);
            && length * Scale(engine) >= px as real
            && (scale120 == engine ==> length * Scale(engine) == px as real)
  {
    var own, full := Scale(scale120), Scale(engine);
    assert 0.0 < own <= full;
    var length := px as real / own;
    assert length * own == px as real;
    if length < 0.0 {
      ProductStrict(length, 0.0, own);
    }
    assert length * (full - own) >= 0.0;
  }

  /** One axis of an output, measured from the atlas origin. */
  lemma AxisScales(position: real, length: real, origin: real, px: U32, scale120: U32, engine: U32)
    requires 0 < scale120 <= engine && origin <= position && length == px as real / Scale(scale120)
    ensures var scale := Scale(engine);
            var from, to := (position - origin) * scale, (position + length - origin) * scale;
            0.0 <= from && from + px as real <= to && (scale120 == engine ==> from + px as real == to)
  {
    var scale := Scale(engine);
    ScaledLength(px, scale120, engine);
    ProductMonotone(0.0, position - origin, scale);
    Distributes(position - origin, length, scale);
    assert position + length - origin == (position - origin) + length;
  }

  lemma Distributes(a: real, b: real, scale: real)
    ensures (a + b) * scale == a * scale + b * scale
  {
  }

  /** Both axes start inside the atlas and span at least the pixels of a size. */
  predicate Spans(s: ScaledRect, size: PixelSize) {
    && 0.0 <= s.left && s.left + size.width as real <= s.right
    && 0.0 <= s.top && s.top + size.height as real <= s.bottom
  }

  predicate SpansExactly(s: ScaledRect, size: PixelSize) {
    s.left + size.width as real == s.right && s.top + size.height as real == s.bottom
  }

  function EngineScale(snapshot: TopologySnapshot): real {
    Scale(MaxScale(snapshot.outputs))
  }

  /** Output k in unrounded atlas pixels. */
  function ScaledOutput(snapshot: TopologySnapshot, k: nat): ScaledRect
    requires WellFormed(snapshot) && k < |snapshot.outputs|
  {
    ToScaled(snapshot.outputs[k].LogicalRectOf(), snapshot.logicalBounds.value, EngineScale(snapshot))
  }

  lemma {:induction false} OutputEnclosed(snapshot: TopologySnapshot, k: nat)
    requires WellFormed(snapshot) && k < |snapshot.outputs|
    ensures Encloses(snapshot.logicalBounds.value, snapshot.outputs[k].LogicalRectOf())
    ensures 0 < snapshot.outputs[k].scale120 <= MaxScale(snapshot.outputs)
    ensures 0.0 < EngineScale(snapshot)
    ensures var size := snapshot.outputs[k].TransformedPixelSize(); size.width > 0 && size.height > 0
  {
    assert snapshot.outputs[k] in snapshot.outputs;
    assert ValidOutput(snapshot.outputs[k]);
    BoundsAreLeast(snapshot.outputs, snapshot.logicalBounds.value);
  }

  lemma OutputScales(output: OutputSpec, bounds: LogicalRect, engine: U32)
    requires 0 < output.scale120 <= engine && Encloses(bounds, output.LogicalRectOf())
    ensures Spans(ToScaled(output.LogicalRectOf(), bounds, Scale(engine)), output.TransformedPixelSize())
    ensures output.scale120 == engine ==>
            SpansExactly(ToScaled(output.LogicalRectOf(), bounds, Scale(engine)), output.TransformedPixelSize())
  {
    var rect, size := output.LogicalRectOf(), output.TransformedPixelSize();
    AxisScales(rect.x, rect.width, bounds.x, size.width, output.scale120, engine);
    AxisScales(rect.y, rect.height, bounds.y, size.height, output.scale120, engine);
  }

  /** Each output spans at least its own pixels, and exactly its own at the engine's scale. */
  lemma {:induction false} OutputSpans(snapshot: TopologySnapshot, k: nat)
    requires WellFormed(snapshot) && k < |snapshot.outputs|
    ensures var size := snapshot.outputs[k].TransformedPixelSize();
            && size.width > 0 && size.height > 0
            && Spans(ScaledOutput(snapshot, k), size)
            && (snapshot.outputs[k].scale120 == MaxScale(snapshot.outputs) ==>
                SpansExactly(ScaledOutput(snapshot, k), size))
  {
    OutputEnclosed(snapshot, k);
    OutputScales(snapshot.outputs[k], snapshot.logicalBounds.value, MaxScale(snapshot.outputs));
  }

  // ---------- Pixels belong to outputs as their centres do ----------

  predicate InRect(rect: PixelRect, i: nat, j: nat) {
    InSpan(rect.x, rect.width, i) && InSpan(rect.y, rect.height, j)
  }

  /** Where the centre of an atlas pixel lies in the layout. */
  function CentreOf(bounds: LogicalRect, scale: real, i: nat, j: nat): Point
    requires scale > 0.0
  {
    Point(bounds.x + (i as real + 0.5) / scale, bounds.y + (j as real + 0.5) / scale)
  }

  /** A rectangle without its left and top edges. */
  predicate Holds(rect: LogicalRect, p: Point) {
    rect.x < p.x <= rect.Right() && rect.y < p.y <= rect.Bottom()
  }

  predicate HoldsScaled(s: ScaledRect, i: nat, j: nat) {
    s.left < i as real + 0.5 <= s.right && s.top < j as real + 0.5 <= s.bottom
  }

  lemma CentreOnAxis(v: real, origin: real, scale: real, c: real)
    requires scale > 0.0
    ensures (v - origin) * scale < c <==> v < origin + c / scale
  {
    var q := c / scale;
    assert q * scale == c;
    ProductStrict(v - origin, q, scale);
  }

  lemma {:induction false} CentreScales(rect: LogicalRect, bounds: LogicalRect, scale: real, i: nat, j: nat)
    requires scale > 0.0
    ensures Holds(rect, CentreOf(bounds, scale, i, j)) <==> HoldsScaled(ToScaled(rect, bounds, scale), i, j)
  {
    CentreOnAxis(rect.x, bounds.x, scale, i as real + 0.5);
    CentreOnAxis(rect.Right(), bounds.x, scale, i as real + 0.5);
    CentreOnAxis(rect.y, bounds.y, scale, j as real + 0.5);
    CentreOnAxis(rect.Bottom(), bounds.y, scale, j as real + 0.5);
  }

  lemma {:induction false} SourceHoldsCentres(s: ScaledRect, size: PixelSize, i: nat, j: nat)
    requires Spans(s, size) && size.width > 0 && size.height > 0
    requires i < U32_MAX && j < U32_MAX
    ensures InRect(SourceRect(s), i, j) <==> HoldsScaled(s, i, j)
  {
    SpanIsCentreRule(s.left, s.right, i);
    SpanIsCentreRule(s.top, s.bottom, j);
  }

  lemma {:induction false} PlannedFrom(snapshot: TopologySnapshot, k: nat)
    requires WellFormed(snapshot) && k < |snapshot.outputs|
    ensures var planned := PlanFor(snapshot).value.outputs[k];
            && planned.sourceRect == SourceRect(ScaledOutput(snapshot, k))
            && planned.pixelSize == snapshot.outputs[k].TransformedPixelSize()
            && (planned.sampling.OneToOne? <==> planned.sourceRect.Size() == planned.pixelSize)
  {
  }

  /**
   Rounding rasterizes by pixel centres: an atlas pixel lies in an output's
   source rectangle exactly when its centre, scaled back, lies in that output's
   logical rectangle. This holds for every pixel an atlas can address, with or
   without saturation.
   */
  lemma {:induction false} PixelCentreRule(snapshot: TopologySnapshot, k: nat, i: nat, j: nat)
    requires WellFormed(snapshot) && k < |snapshot.outputs|
    requires i < U32_MAX && j < U32_MAX
    ensures EngineScale(snapshot) > 0.0
    ensures InRect(PlanFor(snapshot).value.outputs[k].sourceRect, i, j) <==>
            Holds(snapshot.outputs[k].LogicalRectOf(),
                  CentreOf(snapshot.logicalBounds.value, EngineScale(snapshot), i, j))
  {
    OutputEnclosed(snapshot, k);
    OutputSpans(snapshot, k);
    PlannedFrom(snapshot, k);
    SourceHoldsCentres(ScaledOutput(snapshot, k), snapshot.outputs[k].TransformedPixelSize(), i, j);
    CentreScales(snapshot.outputs[k].LogicalRectOf(), snapshot.logicalBounds.value, EngineScale(snapshot), i, j);
  }

  lemma RectsSharingAPointOverlap(a: LogicalRect, b: LogicalRect, p: Point)
    requires Holds(a, p) && Holds(b, p)
    ensures RectsOverlap(a, b)
  {
  }

  /** No pixel an atlas can address belongs to two outputs. */
  lemma {:induction false} PixelsAreNotShared(snapshot: TopologySnapshot, k: nat, l: nat, i: nat, j: nat)
    requires WellFormed(snapshot) && k < l < |snapshot.outputs|
    requires i < U32_MAX && j < U32_MAX
    ensures var outputs := PlanFor(snapshot).value.outputs;
            !(InRect(outputs[k].sourceRect, i, j) && InRect(outputs[l].sourceRect, i, j))
  {
    PixelCentreRule(snapshot, k, i, j);
    PixelCentreRule(snapshot, l, i, j);
    assert Compatible(snapshot.outputs[k], snapshot.outputs[l]);
    var first, second := snapshot.outputs[k].LogicalRectOf(), snapshot.outputs[l].LogicalRectOf();
    var centre := CentreOf(snapshot.logicalBounds.value, EngineScale(snapshot), i, j);
    if Holds(first, centre) && Holds(second, centre) {
      RectsSharingAPointOverlap(first, second, centre);
    }
  }

  /** A rectangle's start does not saturate. */
  predicate LeftFits(s: ScaledRect) {
    Round(s.left) < U32_MAX
  }

  predicate TopFits(s: ScaledRect) {
    Round(s.top) < U32_MAX
  }

  /** Two spans have a pixel in common. */
  predicate SpansMeet(start: U32, length: U32, otherStart: U32, otherLength: U32) {
    start < otherStart + otherLength && otherStart < start + length
  }

  /** Two rectangles have a pixel in common, anywhere. */
  predicate RectsMeet(a: PixelRect, b: PixelRect) {
    SpansMeet(a.x, a.width, b.x, b.width) && SpansMeet(a.y, a.height, b.y, b.height)
  }

  lemma MeetingRectsShareAPixel(a: PixelRect, b: PixelRect) returns (i: nat, j: nat)
    requires RectsMeet(a, b) && a.width > 0 && a.height > 0 && b.width > 0 && b.height > 0
    ensures InRect(a, i, j) && InRect(b, i, j)
    ensures i == a.x || i == b.x
    ensures j == a.y || j == b.y
  {
    i := if a.x <= b.x then b.x else a.x;
    j := if a.y <= b.y then b.y else a.y;
  }

  /** Where a source rectangle starts at the last edge on an axis, and where not. */
  lemma SourceSaturates(s: ScaledRect, size: PixelSize)
    requires Spans(s, size) && size.width > 0 && size.height > 0
    ensures var r := SourceRect(s);
            && r.width > 0 && r.height > 0
            && (if LeftFits(s) then r.x + r.width <= U32_MAX else r.x == U32_MAX && r.width == 1)
            && (if TopFits(s) then r.y + r.height <= U32_MAX else r.y == U32_MAX && r.height == 1)
  {
    SpanEnds(s.left, s.right);
    SpanEnds(s.top, s.bottom);
  }

  /**
   Two scaled intervals share a pixel once rounded: short of saturation when the
   rounded intervals overlap, and otherwise when both start saturated.
   */
  predicate IntervalsMeet(from: real, to: real, otherFrom: real, otherTo: real) {
    if Round(from) < U32_MAX && Round(otherFrom) < U32_MAX
    then Round(from) < Round(otherTo) && Round(otherFrom) < Round(to)
    else Round(from) >= U32_MAX && Round(otherFrom) >= U32_MAX
  }

  lemma SpansMeetAsIntervals(from: real, to: real, otherFrom: real, otherTo: real)
    requires 0.0 <= from && from + 1.0 <= to && 0.0 <= otherFrom && otherFrom + 1.0 <= otherTo
    ensures SpansMeet(PixelEdge(from), SpanLength(from, to), PixelEdge(otherFrom), SpanLength(otherFrom, otherTo))
       <==> IntervalsMeet(from, to, otherFrom, otherTo)
  {
    EdgesKeepDistance(from, to, 1);
    EdgesKeepDistance(otherFrom, otherTo, 1);
  }

  lemma RectsMeetAsIntervals(s: ScaledRect, size: PixelSize, t: ScaledRect, other: PixelSize)
    requires Spans(s, size) && size.width > 0 && size.height > 0
    requires Spans(t, other) && other.width > 0 && other.height > 0
    ensures RectsMeet(SourceRect(s), SourceRect(t)) <==>
              IntervalsMeet(s.left, s.right, t.left, t.right) && IntervalsMeet(s.top, s.bottom, t.top, t.bottom)
  {
    SpansMeetAsIntervals(s.left, s.right, t.left, t.right);
    SpansMeetAsIntervals(s.top, s.bottom, t.top, t.bottom);
  }

  /**
   Exactly when two outputs' source rectangles have a pixel in common: both
   start saturated on one axis, and their intervals meet on the other.
   */
  lemma {:induction false} SourcesMeetExactly(snapshot: TopologySnapshot, k: nat, l: nat)
    requires WellFormed(snapshot) && k < l < |snapshot.outputs|
    ensures var s, t := ScaledOutput(snapshot, k), ScaledOutput(snapshot, l);
            RectsMeet(PlanFor(snapshot).value.outputs[k].sourceRect, PlanFor(snapshot).value.outputs[l].sourceRect)
            <==>
              || (!LeftFits(s) && !LeftFits(t) && IntervalsMeet(s.top, s.bottom, t.top, t.bottom))
              || (!TopFits(s) && !TopFits(t) && IntervalsMeet(s.left, s.right, t.left, t.right))
  {
    var s, t := ScaledOutput(snapshot, k), ScaledOutput(snapshot, l);
    var size, other := snapshot.outputs[k].TransformedPixelSize(), snapshot.outputs[l].TransformedPixelSize();
    OutputSpans(snapshot, k);
    OutputSpans(snapshot, l);
    PlannedFrom(snapshot, k);
    PlannedFrom(snapshot, l);
    RectsMeetAsIntervals(s, size, t, other);
    if RectsMeet(SourceRect(s), SourceRect(t)) && LeftFits(s) && TopFits(s) {
      SourceSaturates(s, size);
      SourceSaturates(t, other);
      var i, j := MeetingRectsShareAPixel(SourceRect(s), SourceRect(t));
      PixelsAreNotShared(snapshot, k, l, i, j);
    }
  }

  /** If on each axis one of two outputs starts short of saturation, their source rectangles are disjoint. */
  lemma {:induction false} SourcesAreDisjoint(snapshot: TopologySnapshot, k: nat, l: nat)
    requires WellFormed(snapshot) && k < l < |snapshot.outputs|
    requires LeftFits(ScaledOutput(snapshot, k)) || LeftFits(ScaledOutput(snapshot, l))
    requires TopFits(ScaledOutput(snapshot, k)) || TopFits(ScaledOutput(snapshot, l))
    ensures !RectsMeet(PlanFor(snapshot).value.outputs[k].sourceRect, PlanFor(snapshot).value.outputs[l].sourceRect)
  {
    SourcesMeetExactly(snapshot, k, l);
  }

  /** The bounds in unrounded atlas pixels reach as far as every output. */
  lemma BoundsScale(bounds: LogicalRect, rect: LogicalRect, scale: real)
    requires scale > 0.0 && Encloses(bounds, rect)
    ensures var whole, part := ToScaled(bounds, bounds, scale), ToScaled(rect, bounds, scale);
            part.right <= whole.right && part.bottom <= whole.bottom
  {
    ProductMonotone(rect.Right() - bounds.x, bounds.Right() - bounds.x, scale);
    ProductMonotone(rect.Bottom() - bounds.y, bounds.Bottom() - bounds.y, scale);
  }

  /** The bounds in unrounded atlas pixels. */
  function ScaledBounds(snapshot: TopologySnapshot): ScaledRect
    requires WellFormed(snapshot)
  {
    ToScaled(snapshot.logicalBounds.value, snapshot.logicalBounds.value, EngineScale(snapshot))
  }

  lemma {:induction false} BoundsSpan(snapshot: TopologySnapshot)
    requires WellFormed(snapshot)
    ensures EngineScale(snapshot) > 0.0
    ensures Spans(ScaledBounds(snapshot), PixelSize(1, 1))
  {
    OutputEnclosed(snapshot, 0);
    OutputSpans(snapshot, 0);
    BoundsScale(snapshot.logicalBounds.value, snapshot.outputs[0].LogicalRectOf(), EngineScale(snapshot));
    BoundsStartAtZero(snapshot.logicalBounds.value, EngineScale(snapshot));
  }

  lemma BoundsStartAtZero(bounds: LogicalRect, scale: real)
    ensures ToScaled(bounds, bounds, scale)
         == ScaledRect(0.0, 0.0, bounds.width * scale, bounds.height * scale)
  {
    assert bounds.Right() - bounds.x == bounds.width && bounds.Bottom() - bounds.y == bounds.height;
  }

  lemma {:induction false} PlanSize(snapshot: TopologySnapshot)
    requires WellFormed(snapshot)
    ensures PlanFor(snapshot).value.pixelSize == SizeOf(snapshot.logicalBounds.value, EngineScale(snapshot))
  {
  }

  lemma {:induction false} SizeHoldsCentres(bounds: LogicalRect, scale: real, whole: ScaledRect, i: nat, j: nat)
    requires whole == ScaledRect(0.0, 0.0, bounds.width * scale, bounds.height * scale)
    requires 1.0 <= whole.right && 1.0 <= whole.bottom
    requires i < U32_MAX && j < U32_MAX
    ensures i < SizeOf(bounds, scale).width && j < SizeOf(bounds, scale).height <==> HoldsScaled(whole, i, j)
  {
    EdgeIsCentreRule(whole.right, i);
    EdgeIsCentreRule(whole.bottom, j);
  }

  /** The atlas is exactly the pixels whose centres lie in the bounds. */
  lemma {:induction false} AtlasIsTheBounds(snapshot: TopologySnapshot, i: nat, j: nat)
    requires WellFormed(snapshot)
    requires i < U32_MAX && j < U32_MAX
    ensures EngineScale(snapshot) > 0.0
    ensures i < PlanFor(snapshot).value.pixelSize.width && j < PlanFor(snapshot).value.pixelSize.height <==>
            Holds(snapshot.logicalBounds.value,
                  CentreOf(snapshot.logicalBounds.value, EngineScale(snapshot), i, j))
  {
    var bounds, scale := snapshot.logicalBounds.value, EngineScale(snapshot);
    BoundsSpan(snapshot);
    PlanSize(snapshot);
    BoundsStartAtZero(bounds, scale);
    SizeHoldsCentres(bounds, scale, ScaledBounds(snapshot), i, j);
    CentreScales(bounds, bounds, scale, i, j);
  }

  /** Every pixel of a source rectangle that an atlas can address lies in the atlas. */
  lemma {:induction false} SourcePixelsLieInTheAtlas(snapshot: TopologySnapshot, k: nat, i: nat, j: nat)
    requires WellFormed(snapshot) && k < |snapshot.outputs|
    requires i < U32_MAX && j < U32_MAX
    ensures var plan := PlanFor(snapshot).value;
            InRect(plan.outputs[k].sourceRect, i, j) ==> i < plan.pixelSize.width && j < plan.pixelSize.height
  {
    PixelCentreRule(snapshot, k, i, j);
    AtlasIsTheBounds(snapshot, i, j);
    OutputEnclosed(snapshot, k);
    assert Encloses(snapshot.logicalBounds.value, snapshot.outputs[k].LogicalRectOf());
  }

  predicate Inside(rect: PixelRect, size: PixelSize) {
    rect.x + rect.width <= size.width && rect.y + rect.height <= size.height
  }

  lemma SourceInside(s: ScaledRect, size: PixelSize, right: real, bottom: real)
    requires Spans(s, size) && size.width > 0 && size.height > 0 && s.right <= right && s.bottom <= bottom
    ensures Inside(SourceRect(s), PixelSize(AtLeastOne(PixelEdge(right)), AtLeastOne(PixelEdge(bottom))))
       <==> LeftFits(s) && TopFits(s)
  {
    SpanStaysInside(s.left, s.right, right);
    SpanStaysInside(s.top, s.bottom, bottom);
  }

  lemma SizeIsTheWhole(bounds: LogicalRect, scale: real, whole: ScaledRect)
    requires whole == ScaledRect(0.0, 0.0, bounds.width * scale, bounds.height * scale)
    ensures SizeOf(bounds, scale) == PixelSize(AtLeastOne(PixelEdge(whole.right)), AtLeastOne(PixelEdge(whole.bottom)))
  {
  }

  /** A source rectangle lies inside the atlas exactly when it starts short of saturation on both axes. */
  lemma {:induction false} SourcesLieInTheAtlas(snapshot: TopologySnapshot, k: nat)
    requires WellFormed(snapshot) && k < |snapshot.outputs|
    ensures var plan, s := PlanFor(snapshot).value, ScaledOutput(snapshot, k);
            Inside(plan.outputs[k].sourceRect, plan.pixelSize) <==> LeftFits(s) && TopFits(s)
  {
    var bounds, scale := snapshot.logicalBounds.value, EngineScale(snapshot);
    OutputEnclosed(snapshot, k);
    OutputSpans(snapshot, k);
    PlannedFrom(snapshot, k);
    PlanSize(snapshot);
    BoundsScale(bounds, snapshot.outputs[k].LogicalRectOf(), scale);
    BoundsStartAtZero(bounds, scale);
    var whole := ScaledBounds(snapshot);
    SizeIsTheWhole(bounds, scale, whole);
    SourceInside(ScaledOutput(snapshot, k), snapshot.outputs[k].TransformedPixelSize(), whole.right, whole.bottom);
  }

  ghost predicate Tiles(outputs: seq<OutputSpec>, bounds: LogicalRect)
    requires Scaled(outputs)
  {
    forall p: Point | Holds(bounds, p) :: exists k | 0 <= k < |outputs| :: Holds(outputs[k].LogicalRectOf(), p)
  }

  /** A layout that tiles its bounds gives source rectangles that tile the atlas: one owner per pixel. */
  lemma {:induction false} TilingIsKept(snapshot: TopologySnapshot, i: nat, j: nat)
    requires WellFormed(snapshot) && Tiles(snapshot.outputs, snapshot.logicalBounds.value)
    requires i < U32_MAX && j < U32_MAX
    ensures var plan := PlanFor(snapshot).value;
            i < plan.pixelSize.width && j < plan.pixelSize.height ==>
              exists k | 0 <= k < |plan.outputs| :: InRect(plan.outputs[k].sourceRect, i, j)
                && forall l | 0 <= l < |plan.outputs| && l != k :: !InRect(plan.outputs[l].sourceRect, i, j)
  {
    var plan := PlanFor(snapshot).value;
    AtlasIsTheBounds(snapshot, i, j);
    if i < plan.pixelSize.width && j < plan.pixelSize.height {
      var p := CentreOf(snapshot.logicalBounds.value, EngineScale(snapshot), i, j);
      var k :| 0 <= k < |snapshot.outputs| && Holds(snapshot.outputs[k].LogicalRectOf(), p);
      PixelCentreRule(snapshot, k, i, j);
      forall l | 0 <= l < |plan.outputs| && l != k ensures !InRect(plan.outputs[l].sourceRect, i, j) {
        PixelsAreNotShared(snapshot, if k < l then k else l, if k < l then l else k, i, j);
      }
    }
  }

  // ---------- Sampling ----------

  /** Neither far edge, in atlas pixels, exceeds a u32. */
  predicate EdgesFit(s: ScaledRect) {
    Round(s.right) <= U32_MAX && Round(s.bottom) <= U32_MAX
  }

  /** If the far corner of the bounds fits, so does every output's. */
  lemma {:induction false} BoundsFitIsEnough(snapshot: TopologySnapshot, k: nat)
    requires WellFormed(snapshot) && k < |snapshot.outputs|
    requires EdgesFit(ScaledBounds(snapshot))
    ensures EdgesFit(ScaledOutput(snapshot, k))
  {
    var whole, part := ScaledBounds(snapshot), ScaledOutput(snapshot, k);
    OutputEnclosed(snapshot, k);
    BoundsScale(snapshot.logicalBounds.value, snapshot.outputs[k].LogicalRectOf(), EngineScale(snapshot));
    RoundMonotone(part.right, whole.right);
    RoundMonotone(part.bottom, whole.bottom);
  }

  /**
   Exactly when an output is not undersampled: on each axis its own pixels fit
   from where it starts, or it is a single pixel wide. Away from saturation that
   is always.
   */
  lemma {:induction false} NeverUndersampled(snapshot: TopologySnapshot, k: nat)
    requires WellFormed(snapshot) && k < |snapshot.outputs|
    ensures var planned, s := PlanFor(snapshot).value.outputs[k], ScaledOutput(snapshot, k);
            && (planned.sourceRect.width >= planned.pixelSize.width <==>
                Round(s.left) + planned.pixelSize.width <= U32_MAX || planned.pixelSize.width == 1)
            && (planned.sourceRect.height >= planned.pixelSize.height <==>
                Round(s.top) + planned.pixelSize.height <= U32_MAX || planned.pixelSize.height == 1)
  {
    var s, size := ScaledOutput(snapshot, k), snapshot.outputs[k].TransformedPixelSize();
    OutputSpans(snapshot, k);
    PlannedFrom(snapshot, k);
    SpanKeepsPixels(s.left, s.right, size.width);
    SpanKeepsPixels(s.top, s.bottom, size.height);
  }

  /** If an output's far edges fit, its own pixels fit from where it starts. */
  lemma {:induction false} FittingEdgesLeaveRoom(snapshot: TopologySnapshot, k: nat)
    requires WellFormed(snapshot) && k < |snapshot.outputs| && EdgesFit(ScaledOutput(snapshot, k))
    ensures var s, size := ScaledOutput(snapshot, k), snapshot.outputs[k].TransformedPixelSize();
            && Round(s.left) + size.width <= U32_MAX && Round(s.top) + size.height <= U32_MAX
            && LeftFits(s) && TopFits(s)
  {
    var s, size := ScaledOutput(snapshot, k), snapshot.outputs[k].TransformedPixelSize();
    OutputSpans(snapshot, k);
    EdgesKeepDistance(s.left, s.right, size.width);
    EdgesKeepDistance(s.top, s.bottom, size.height);
  }

  /**
   Exactly when an output at the engine's scale is sampled one to one: on each
   axis its far edge fits in a u32, or it is a single pixel wide.
   */
  lemma {:induction false} OneToOneExactly(snapshot: TopologySnapshot, k: nat)
    requires WellFormed(snapshot) && k < |snapshot.outputs|
    requires snapshot.outputs[k].scale120 == MaxScale(snapshot.outputs)
    ensures var s, size := ScaledOutput(snapshot, k), snapshot.outputs[k].TransformedPixelSize();
            PlanFor(snapshot).value.outputs[k].sampling.OneToOne? <==>
              && (Round(s.right) <= U32_MAX || size.width == 1)
              && (Round(s.bottom) <= U32_MAX || size.height == 1)
  {
    var s, size := ScaledOutput(snapshot, k), snapshot.outputs[k].TransformedPixelSize();
    OutputSpans(snapshot, k);
    PlannedFrom(snapshot, k);
    ExactSpan(s.left, s.right, size.width);
    ExactSpan(s.top, s.bottom, size.height);
  }

  /**
   Outputs whose logical edges touch meet on the same pixel edge, exactly when
   the first starts short of saturation on that axis.
   */
  lemma {:induction false} TouchingOutputsShareAnEdge(snapshot: TopologySnapshot, k: nat, l: nat)
    requires WellFormed(snapshot) && k < |snapshot.outputs| && l < |snapshot.outputs|
    ensures var first, second := snapshot.outputs[k].LogicalRectOf(), snapshot.outputs[l].LogicalRectOf();
            var a, b := PlanFor(snapshot).value.outputs[k].sourceRect, PlanFor(snapshot).value.outputs[l].sourceRect;
            && (first.Right() == second.x ==> (a.x + a.width == b.x <==> LeftFits(ScaledOutput(snapshot, k))))
            && (first.Bottom() == second.y ==> (a.y + a.height == b.y <==> TopFits(ScaledOutput(snapshot, k))))
  {
    var s := ScaledOutput(snapshot, k);
    OutputSpans(snapshot, k);
    PlannedFrom(snapshot, k);
    PlannedFrom(snapshot, l);
    SourceEnds(s, snapshot.outputs[k].TransformedPixelSize());
    SourceStarts(ScaledOutput(snapshot, l));
    EdgesMeet(snapshot.outputs[k].LogicalRectOf(), snapshot.outputs[l].LogicalRectOf(),
              snapshot.logicalBounds.value, EngineScale(snapshot));
  }

  lemma SourceEnds(s: ScaledRect, size: PixelSize)
    requires Spans(s, size) && size.width > 0 && size.height > 0
    ensures SourceRect(s).x + SourceRect(s).width == PixelEdge(s.right) <==> LeftFits(s)
    ensures SourceRect(s).y + SourceRect(s).height == PixelEdge(s.bottom) <==> TopFits(s)
  {
    SpanEnds(s.left, s.right);
    SpanEnds(s.top, s.bottom);
  }

  lemma SourceStarts(s: ScaledRect)
    ensures SourceRect(s).x == PixelEdge(s.left) && SourceRect(s).y == PixelEdge(s.top)
  {
  }

  lemma EdgesMeet(first: LogicalRect, second: LogicalRect, bounds: LogicalRect, scale: real)
    ensures var a, b := ToScaled(first, bounds, scale), ToScaled(second, bounds, scale);
            && (first.Right() == second.x ==> a.right == b.left)
            && (first.Bottom() == second.y ==> a.bottom == b.top)
  {
  }

  lemma SourceIsForced(s: ScaledRect, size: PixelSize)
    requires Spans(s, size) && size.width > 0 && size.height > 0
    ensures SourceRect(s).width == PixelEdge(s.right) - PixelEdge(s.left) <==> LeftFits(s)
    ensures SourceRect(s).height == PixelEdge(s.bottom) - PixelEdge(s.top) <==> TopFits(s)
    ensures !LeftFits(s) ==> PixelEdge(s.left) == PixelEdge(s.right) && SourceRect(s).width == 1
    ensures !TopFits(s) ==> PixelEdge(s.top) == PixelEdge(s.bottom) && SourceRect(s).height == 1
  {
    SpanEnds(s.left, s.right);
    SpanEnds(s.top, s.bottom);
  }

  /**
   A planned source rectangle is as long as its rounded edges lie apart, exactly
   when it starts short of saturation on that axis; where not, they coincide and
   its length is forced up to one.
   */
  lemma {:induction false} SizesAreForcedExactly(snapshot: TopologySnapshot, k: nat)
    requires WellFormed(snapshot) && k < |snapshot.outputs|
    ensures var s, planned := ScaledOutput(snapshot, k), PlanFor(snapshot).value.outputs[k].sourceRect;
            && (planned.width == PixelEdge(s.right) - PixelEdge(s.left) <==> LeftFits(s))
            && (planned.height == PixelEdge(s.bottom) - PixelEdge(s.top) <==> TopFits(s))
            && (!LeftFits(s) ==> PixelEdge(s.left) == PixelEdge(s.right) && planned.width == 1)
            && (!TopFits(s) ==> PixelEdge(s.top) == PixelEdge(s.bottom) && planned.height == 1)
  {
    OutputSpans(snapshot, k);
    PlannedFrom(snapshot, k);
    SourceIsForced(ScaledOutput(snapshot, k), snapshot.outputs[k].TransformedPixelSize());
  }

  // ---------- Where saturation shows ----------

  /** A small output, and two far to its right, side by side, at ten times the scale. */
  const NEAR := OutputSpec(0, "A", LogicalPoint(0, 0), PixelSize(1, 1), 120, 60000, Normal, Unknown, PixelSize(0, 0))
  const FAR := OutputSpec(
    1, "B", LogicalPoint(2000000000, 0), PixelSize(100, 100), 1200, 60000, Normal, Unknown, PixelSize(0, 0))
  const FARTHER := OutputSpec(
    2, "C", LogicalPoint(2000000010, 0), PixelSize(100, 100), 1200, 60000, Normal, Unknown, PixelSize(0, 0))
  const WIDE_BOUNDS := LogicalRect(0.0, 0.0, 2000000020.0, 10.0)

  lemma WideRects()
    ensures NEAR.LogicalRectOf() == LogicalRect(0.0, 0.0, 1.0, 1.0)
    ensures FAR.LogicalRectOf() == LogicalRect(2000000000.0, 0.0, 10.0, 10.0)
    ensures FARTHER.LogicalRectOf() == LogicalRect(2000000010.0, 0.0, 10.0, 10.0)
  {
  }

  lemma {:induction false} WideBounds()
    ensures Scaled([NEAR, FAR, FARTHER]) && BoundsOf([NEAR, FAR, FARTHER]) == Some(WIDE_BOUNDS)
  {
    WideRects();
    assert [NEAR, FAR, FARTHER][..2] == [NEAR, FAR] && [NEAR, FAR][..1] == [NEAR];
    assert EdgesOf([NEAR]) == Edges(0.0, 0.0, 1.0, 1.0);
    assert EdgesOf([NEAR, FAR]) == Widen(EdgesOf([NEAR]), FAR.LogicalRectOf());
    assert EdgesOf([NEAR, FAR, FARTHER]) == Widen(EdgesOf([NEAR, FAR]), FARTHER.LogicalRectOf());
  }

  lemma WideOutputsAreValid()
    ensures ValidOutput(NEAR) && ValidOutput(FAR) && ValidOutput(FARTHER)
  {
    WideRects();
    assert 'A' in NEAR.name && 'B' in FAR.name && 'C' in FARTHER.name;
  }

  lemma WideOutputsAreCompatible()
    ensures Compatible(NEAR, FAR) && Compatible(NEAR, FARTHER) && Compatible(FAR, FARTHER)
  {
    WideRects();
    assert NEAR.name[0] != FAR.name[0] && NEAR.name[0] != FARTHER.name[0] && FAR.name[0] != FARTHER.name[0];
  }

  lemma {:induction false} TripleIsValid(a: OutputSpec, b: OutputSpec, c: OutputSpec)
    requires ValidOutput(a) && ValidOutput(b) && ValidOutput(c)
    requires Compatible(a, b) && Compatible(a, c) && Compatible(b, c)
    ensures ValidLayout([a, b, c])
  {
  }

  lemma {:induction false} WideScale()
    ensures MaxScale([NEAR, FAR, FARTHER]) == FAR.scale120 == FARTHER.scale120
  {
    assert FAR in [NEAR, FAR, FARTHER];
  }

  lemma FarEdges(rect: LogicalRect, bounds: LogicalRect, scale: real)
    requires 2000000000.0 <= rect.x && rect.y == 0.0 && rect.width == rect.height == 10.0
    requires bounds == WIDE_BOUNDS && scale == 10.0
    ensures var s := ToScaled(rect, bounds, scale);
            !LeftFits(s) && Round(s.right) > U32_MAX && s.top == 0.0 && s.bottom == 100.0
  {
    var s := ToScaled(rect, bounds, scale);
    assert s.left >= 20000000000.0 && s.right >= 20000000000.0;
  }

  /** What matters about an output far out. */
  predicate FarOut(far: OutputSpec, bounds: LogicalRect, scale120: U32) {
    && far.scale120 == scale120 > 0 && far.TransformedPixelSize() == PixelSize(100, 100)
    && var s := ToScaled(far.LogicalRectOf(), bounds, Scale(scale120));
       !LeftFits(s) && Round(s.right) > U32_MAX && s.top == 0.0 && s.bottom == 100.0
  }

  lemma FarOutAt(far: OutputSpec, rect: LogicalRect, scale: real)
    requires far.scale120 == 1200 && far.TransformedPixelSize() == PixelSize(100, 100)
    requires rect == far.LogicalRectOf() && scale == Scale(1200) == 10.0
    requires 2000000000.0 <= rect.x && rect.y == 0.0 && rect.width == rect.height == 10.0
    ensures FarOut(far, WIDE_BOUNDS, 1200)
  {
    FarEdges(rect, WIDE_BOUNDS, scale);
  }

  lemma FarIsFarOut()
    ensures FarOut(FAR, WIDE_BOUNDS, 1200)
  {
    WideRects();
    FarOutAt(FAR, FAR.LogicalRectOf(), 10.0);
  }

  lemma FartherIsFarOut()
    ensures FarOut(FARTHER, WIDE_BOUNDS, 1200)
  {
    WideRects();
    FarOutAt(FARTHER, FARTHER.LogicalRectOf(), 10.0);
  }

  /** A valid layout with two outputs far out, both at the engine's scale. */
  lemma {:induction false} WideLayout()
    returns (near: OutputSpec, far: OutputSpec, farther: OutputSpec, bounds: LogicalRect, scale120: U32)
    ensures ValidLayout([near, far, farther]) && Scaled([near, far, farther])
    ensures BoundsOf([near, far, farther]) == Some(bounds) && MaxScale([near, far, farther]) == scale120
    ensures FarOut(far, bounds, scale120) && FarOut(farther, bounds, scale120)
  {
    near, far, farther, bounds, scale120 := NEAR, FAR, FARTHER, WIDE_BOUNDS, 1200;
    WideOutputsAreValid();
    WideOutputsAreCompatible();
    TripleIsValid(NEAR, FAR, FARTHER);
    WideBounds();
    WideScale();
    FarIsFarOut();
    FartherIsFarOut();
  }

  /** A valid layout so wide that an output at the engine's scale is resampled. */
  lemma {:induction false} SaturationResamples() returns (snapshot: TopologySnapshot, k: nat)
    ensures WellFormed(snapshot) && k < |snapshot.outputs|
    ensures snapshot.outputs[k].scale120 == MaxScale(snapshot.outputs)
    ensures PlanFor(snapshot).value.outputs[k].sampling.Resampled?
  {
    var near, far, farther, bounds, scale120 := WideLayout();
    snapshot, k := TopologySnapshot(1, Some(bounds), Some(far.id), [near, far, farther]), 1;
    OneToOneExactly(snapshot, k);
  }

  lemma SaturatedSourcesAgree(s: ScaledRect, t: ScaledRect, size: PixelSize)
    requires Spans(s, size) && Spans(t, size) && size.width > 0 && size.height > 0
    requires !LeftFits(s) && !LeftFits(t) && s.top == t.top && s.bottom == t.bottom
    ensures SourceRect(s) == SourceRect(t)
  {
    SourceSaturates(s, size);
    SourceSaturates(t, size);
  }

  /** A valid layout so wide that two outputs side by side get the same source rectangle, outside the atlas. */
  lemma {:induction false} SaturatedSourcesCoincide() returns (snapshot: TopologySnapshot, k: nat, l: nat)
    ensures WellFormed(snapshot) && k < l < |snapshot.outputs|
    ensures var plan := PlanFor(snapshot).value;
            plan.outputs[k].sourceRect == plan.outputs[l].sourceRect
            && !Inside(plan.outputs[k].sourceRect, plan.pixelSize)
  {
    var near, far, farther, bounds, scale120 := WideLayout();
    snapshot, k, l := TopologySnapshot(1, Some(bounds), Some(far.id), [near, far, farther]), 1, 2;
    OutputSpans(snapshot, k);
    OutputSpans(snapshot, l);
    PlannedFrom(snapshot, k);
    PlannedFrom(snapshot, l);
    SaturatedSourcesAgree(ScaledOutput(snapshot, k), ScaledOutput(snapshot, l), far.TransformedPixelSize());
    SourcesLieInTheAtlas(snapshot, k);
  }
}
