/** Outputs, their logical rectangles, and the layouts the compositor admits. */
module Topology {
  import opened Wrappers
  import opened Orientation

  const SCALE_BASE: nat := 120

  datatype PixelSize = PixelSize(width: U32, height: U32)
  datatype LogicalPoint = LogicalPoint(x: I32, y: I32)

  datatype LogicalRect = LogicalRect(x: real, y: real, width: real, height: real) {
    function Right(): real { x + width }
    function Bottom(): real { y + height }
  }

  datatype OutputSubpixel = Unknown | HorizontalRgb | HorizontalBgr | VerticalRgb | VerticalBgr | NoSubpixel

  datatype OutputSpec = OutputSpec(
    id: U64, name: string, position: LogicalPoint, mode: PixelSize, scale120: U32,
    refreshMillihz: U32, transform: OutputTransform, subpixel: OutputSubpixel, sizeMm: PixelSize)
  {
    function TransformedPixelSize(): PixelSize {
      if SwapsAxes(transform) then PixelSize(mode.height, mode.width) else mode
    }

    function LogicalRectOf(): LogicalRect
      requires scale120 > 0
    {
      var size := TransformedPixelSize();
      var scale := scale120 as real / SCALE_BASE as real;
      LogicalRect(position.x as real, position.y as real,
                  size.width as real / scale, size.height as real / scale)
    }
  }

  /** Logical lengths are pixels of the turned mode at 120 to the scale; the corner is the position. */
  lemma LogicalRectIsScaled(output: OutputSpec)
    requires output.scale120 > 0
    ensures var rect, turned := output.LogicalRectOf(), SwapsAxes(output.transform);
            && rect.x == output.position.x as real && rect.y == output.position.y as real
            && rect.width * output.scale120 as real
               == 120.0 * (if turned then output.mode.height else output.mode.width) as real
            && rect.height * output.scale120 as real
               == 120.0 * (if turned then output.mode.width else output.mode.height) as real
  {
    var size := output.TransformedPixelSize();
    QuotientScales(size.width as real, output.scale120 as real);
    QuotientScales(size.height as real, output.scale120 as real);
  }

  lemma QuotientScales(pixels: real, scale120: real)
    requires scale120 > 0.0
    ensures (pixels / (scale120 / 120.0)) * scale120 == 120.0 * pixels
  {
    var scale := scale120 / 120.0;
    var quotient := pixels / scale;
    assert quotient * scale == pixels && scale120 == 120.0 * scale;
  }

  datatype TopologyError =
    | DuplicateName(name: string)
    | EmptyName(id: U64)
    | EmptyMode(id: U64)
    | InvalidScale(id: U64)
    | InvalidRefresh(id: U64)
    | CoordinateOverflow(id: U64)
    | OverlappingOutputs(first: string, second: string)

  predicate RectsOverlap(first: LogicalRect, second: LogicalRect) {
    && first.x < second.Right()
    && second.x < first.Right()
    && first.y < second.Bottom()
    && second.y < first.Bottom()
  }

  /** The Unicode White_Space property, which decides whether a name is blank. */
  predicate IsSpace(c: char) {
    var code := c as int;
    || 0x09 <= code <= 0x0D || code == 0x20 || code == 0x85 || code == 0xA0 || code == 0x1680
    || 0x2000 <= code <= 0x200A || code == 0x2028 || code == 0x2029 || code == 0x202F
    || code == 0x205F || code == 0x3000
  }

  predicate Blank(name: string) {
    forall c | c in name :: IsSpace(c)
  }

  /** Lexicographic order of names. */
  predicate NameBefore(a: string, b: string) {
    b != [] && (a == [] || a[0] < b[0] || (a[0] == b[0] && NameBefore(a[1..], b[1..])))
  }

  predicate InRange(rect: LogicalRect) {
    && rect.Right() <= I32_MAX as real
    && rect.Bottom() <= I32_MAX as real
    && I32_MIN as real <= rect.x
    && I32_MIN as real <= rect.y
  }

  // ---------- What a valid layout is ----------

  predicate ValidOutput(output: OutputSpec) {
    && !Blank(output.name)
    && output.mode.width > 0
    && output.mode.height > 0
    && output.scale120 > 0
    && output.refreshMillihz > 0
    && InRange(output.LogicalRectOf())
  }

  predicate Compatible(first: OutputSpec, second: OutputSpec) {
    && first.name != second.name
    && first.scale120 > 0
    && second.scale120 > 0
    && !RectsOverlap(first.LogicalRectOf(), second.LogicalRectOf())
  }

  predicate ValidLayout(outputs: seq<OutputSpec>) {
    && (forall i | 0 <= i < |outputs| :: ValidOutput(outputs[i]))
    && (forall i, j | 0 <= i < j < |outputs| :: Compatible(outputs[i], outputs[j]))
  }

  predicate KeysMatch(outputs: map<U64, OutputSpec>) {
    forall id | id in outputs :: outputs[id].id == id
  }

  predicate ValidTopology(outputs: map<U64, OutputSpec>) {
    && KeysMatch(outputs)
    && (forall id | id in outputs :: ValidOutput(outputs[id]))
    && (forall a, b | a in outputs && b in outputs && a != b :: Compatible(outputs[a], outputs[b]))
  }

  // ---------- The validation scan ----------

  /** The first output already placed that the new rectangle overlaps, as the error names the pair. */
  function OverlapFault(earlier: seq<OutputSpec>, output: OutputSpec): (fault: Option<TopologyError>)
    requires output.scale120 > 0 && forall e | e in earlier :: e.scale120 > 0
    ensures fault.None? <==>
            forall e | e in earlier :: !RectsOverlap(output.LogicalRectOf(), e.LogicalRectOf())
  {
    if earlier == [] then None
    else if RectsOverlap(output.LogicalRectOf(), earlier[0].LogicalRectOf()) then
      Some(if NameBefore(output.name, earlier[0].name)
           then OverlappingOutputs(output.name, earlier[0].name)
           else OverlappingOutputs(earlier[0].name, output.name))
    else OverlapFault(earlier[1..], output)
  }

  function OutputFault(earlier: seq<OutputSpec>, output: OutputSpec): Option<TopologyError>
    requires forall e | e in earlier :: e.scale120 > 0
  {
    if Blank(output.name) then Some(EmptyName(output.id))
    else if exists e | e in earlier :: e.name == output.name then Some(DuplicateName(output.name))
    else if output.mode.width == 0 || output.mode.height == 0 then Some(EmptyMode(output.id))
    else if output.scale120 == 0 then Some(InvalidScale(output.id))
    else if output.refreshMillihz == 0 then Some(InvalidRefresh(output.id))
    else if !InRange(output.LogicalRectOf()) then Some(CoordinateOverflow(output.id))
    else OverlapFault(earlier, output)
  }

  /** The error of the first output in order that does not fit those before it. */
  function FirstFault(outputs: seq<OutputSpec>): (fault: Option<TopologyError>)
    ensures fault.None? ==> forall e | e in outputs :: e.scale120 > 0
  {
    if outputs == [] then None
    else
      var front, last := outputs[..|outputs| - 1], outputs[|outputs| - 1];
      var fault := FirstFault(front);
      if fault.Some? then fault else OutputFault(front, last)
  }

  lemma OverlapSymmetric(first: LogicalRect, second: LogicalRect)
    ensures RectsOverlap(first, second) <==> RectsOverlap(second, first)
  {
  }

  predicate StrictlyInside(p: Point, rect: LogicalRect) {
    rect.x < p.x < rect.Right() && rect.y < p.y < rect.Bottom()
  }

  /** Rectangles overlap exactly if their interiors meet; edges and corners may touch. */
  lemma OverlapIsInterior(first: LogicalRect, second: LogicalRect)
    requires first.width > 0.0 && first.height > 0.0 && second.width > 0.0 && second.height > 0.0
    ensures RectsOverlap(first, second) <==> exists p :: StrictlyInside(p, first) && StrictlyInside(p, second)
  {
    if RectsOverlap(first, second) {
      var x := Between(first.x, second.x, first.Right(), second.Right());
      var y := Between(first.y, second.y, first.Bottom(), second.Bottom());
      assert StrictlyInside(Point(x, y), first) && StrictlyInside(Point(x, y), second);
    }
  }

  lemma Between(a: real, b: real, c: real, d: real) returns (x: real)
    requires a < c && a < d && b < c && b < d
    ensures a < x < c && b < x < d
  {
    x := ((if a < b then b else a) + (if c < d then c else d)) / 2.0;
  }

  lemma {:induction false} OutputFaultFree(earlier: seq<OutputSpec>, output: OutputSpec)
    requires forall e | e in earlier :: e.scale120 > 0
    ensures OutputFault(earlier, output).None? <==>
            ValidOutput(output) && forall e | e in earlier :: Compatible(e, output)
  {
    if output.scale120 > 0 {
      forall e | e in earlier
        ensures Compatible(e, output) <==>
                e.name != output.name && !RectsOverlap(output.LogicalRectOf(), e.LogicalRectOf())
      {
        OverlapSymmetric(e.LogicalRectOf(), output.LogicalRectOf());
      }
    }
  }

  /** The scan accepts exactly the valid layouts. */
  lemma {:induction false} ScanDecidesValidity(outputs: seq<OutputSpec>)
    ensures FirstFault(outputs).None? <==> ValidLayout(outputs)
  {
    if outputs != [] {
      var front, last := outputs[..|outputs| - 1], outputs[|outputs| - 1];
      assert outputs == front + [last];
      ScanDecidesValidity(front);
      LayoutGrows(front, last);
      if FirstFault(front).None? {
        OutputFaultFree(front, last);
      }
    }
  }

  /** A layout grows by an output that is valid and compatible with those before it, and only by such. */
  lemma {:induction false} LayoutGrows(front: seq<OutputSpec>, last: OutputSpec)
    ensures ValidLayout(front + [last]) <==>
            && ValidLayout(front) && ValidOutput(last)
            && forall e | e in front :: Compatible(e, last)
  {
    if ValidLayout(front + [last]) {
      GrownLayoutIsCompatible(front, last);
    }
    if ValidLayout(front) && ValidOutput(last) && forall e | e in front :: Compatible(e, last) {
      CompatibleLayoutGrows(front, last);
    }
  }

  lemma {:induction false} GrownLayoutIsCompatible(front: seq<OutputSpec>, last: OutputSpec)
    requires ValidLayout(front + [last])
    ensures ValidLayout(front) && ValidOutput(last)
    ensures forall e | e in front :: Compatible(e, last)
  {
    var all := front + [last];
    assert all[|front|] == last;
    forall i | 0 <= i < |front| ensures ValidOutput(front[i]) {
      assert front[i] == all[i];
    }
    forall i, j | 0 <= i < j < |front| ensures Compatible(front[i], front[j]) {
      assert front[i] == all[i] && front[j] == all[j];
    }
    forall e | e in front ensures Compatible(e, last) {
      var i :| 0 <= i < |front| && front[i] == e;
      assert all[i] == e;
    }
  }

  lemma {:induction false} CompatibleLayoutGrows(front: seq<OutputSpec>, last: OutputSpec)
    requires ValidLayout(front) && ValidOutput(last) && forall e | e in front :: Compatible(e, last)
    ensures ValidLayout(front + [last])
  {
    var all := front + [last];
    forall i | 0 <= i < |all| ensures ValidOutput(all[i]) {
      assert i < |front| ==> all[i] == front[i];
    }
    forall i, j | 0 <= i < j < |all| ensures Compatible(all[i], all[j]) {
      assert all[i] == front[i] && (j < |front| ==> all[j] == front[j]);
    }
  }

  // ---------- Which error ----------

  predicate NameFits(earlier: seq<OutputSpec>, output: OutputSpec) {
    !Blank(output.name) && forall e | e in earlier :: e.name != output.name
  }

  predicate ModeFits(output: OutputSpec) {
    output.mode.width > 0 && output.mode.height > 0
  }

  /** The names agree up to i, where the first ends or has the smaller character. */
  predicate InOrderFrom(a: string, b: string, i: nat) {
    && i <= |a| && i <= |b| && a[..i] == b[..i]
    && i < |b| && (i < |a| ==> a[i] < b[i])
  }

  /** Names are ordered as strings are compared: by their first difference, a prefix before what it begins. */
  lemma {:induction false} NameOrder(a: string, b: string)
    ensures NameBefore(a, b) <==> exists i: nat :: InOrderFrom(a, b, i)
  {
    if a != [] && b != [] && a[0] == b[0] {
      NameOrder(a[1..], b[1..]);
      if i: nat :| InOrderFrom(a[1..], b[1..], i) {
        assert a[..i + 1] == [a[0]] + a[1..][..i] && b[..i + 1] == [b[0]] + b[1..][..i];
        assert InOrderFrom(a, b, i + 1);
      }
      if i: nat :| InOrderFrom(a, b, i) {
        assert i > 0 && a[1..][..i - 1] == a[..i][1..] && b[1..][..i - 1] == b[..i][1..];
        assert InOrderFrom(a[1..], b[1..], i - 1);
      }
    } else {
      if NameBefore(a, b) {
        assert InOrderFrom(a, b, 0);
      }
      forall i: nat | i > 0 && i <= |a| && i <= |b| ensures a[..i] != b[..i] {
        assert a[..i][0] == a[0] && b[..i][0] == b[0];
      }
    }
  }

  /** The error names the first output already placed that the new one overlaps, the two names in order. */
  predicate NamesOverlap(earlier: seq<OutputSpec>, output: OutputSpec, first: string, second: string, j: nat)
    requires output.scale120 > 0 && forall e | e in earlier :: e.scale120 > 0
  {
    && j < |earlier| && RectsOverlap(output.LogicalRectOf(), earlier[j].LogicalRectOf())
    && (forall l | 0 <= l < j :: !RectsOverlap(output.LogicalRectOf(), earlier[l].LogicalRectOf()))
    && (if NameBefore(output.name, earlier[j].name)
        then first == output.name && second == earlier[j].name
        else first == earlier[j].name && second == output.name)
  }

  /** All four edges lie within the range of an i32. */
  predicate Representable(rect: LogicalRect) {
    forall edge | edge in [rect.x, rect.y, rect.Right(), rect.Bottom()] :: -2147483648.0 <= edge <= 2147483647.0
  }

  lemma InRangeIsRepresentable(rect: LogicalRect)
    requires rect.width >= 0.0 && rect.height >= 0.0
    ensures InRange(rect) <==> Representable(rect)
  {
    var edges := [rect.x, rect.y, rect.Right(), rect.Bottom()];
    assert edges[0] in edges && edges[1] in edges && edges[2] in edges && edges[3] in edges;
  }

  lemma SizesArePositive(output: OutputSpec)
    requires output.scale120 > 0
    ensures output.LogicalRectOf().width >= 0.0 && output.LogicalRectOf().height >= 0.0
  {
    LogicalRectIsScaled(output);
  }

  /** The error is that of the first test the output fails: its name, mode, scale, refresh rate, range, place. */
  ghost predicate Explains(error: TopologyError, earlier: seq<OutputSpec>, output: OutputSpec)
    requires forall e | e in earlier :: e.scale120 > 0
  {
    match error
    case EmptyName(id) => id == output.id && Blank(output.name)
    case DuplicateName(name) => name == output.name && !Blank(name) && exists e | e in earlier :: e.name == name
    case EmptyMode(id) => id == output.id && NameFits(earlier, output) && !ModeFits(output)
    case InvalidScale(id) =>
      id == output.id && NameFits(earlier, output) && ModeFits(output) && output.scale120 == 0
    case InvalidRefresh(id) =>
      && id == output.id && NameFits(earlier, output) && ModeFits(output) && output.scale120 > 0
      && output.refreshMillihz == 0
    case CoordinateOverflow(id) =>
      && id == output.id && NameFits(earlier, output) && ModeFits(output) && output.scale120 > 0
      && output.refreshMillihz > 0 && !Representable(output.LogicalRectOf())
    case OverlappingOutputs(first, second) =>
      ValidOutput(output) && NameFits(earlier, output) && exists j :: NamesOverlap(earlier, output, first, second, j)
  }

  lemma {:induction false} OverlapIsNamed(earlier: seq<OutputSpec>, output: OutputSpec) returns (j: nat)
    requires output.scale120 > 0 && forall e | e in earlier :: e.scale120 > 0
    requires OverlapFault(earlier, output).Some?
    ensures var error := OverlapFault(earlier, output).value;
            error.OverlappingOutputs? && NamesOverlap(earlier, output, error.first, error.second, j)
  {
    if RectsOverlap(output.LogicalRectOf(), earlier[0].LogicalRectOf()) {
      j := 0;
    } else {
      j := OverlapIsNamed(earlier[1..], output);
      forall l | 0 <= l < j + 1 ensures !RectsOverlap(output.LogicalRectOf(), earlier[l].LogicalRectOf()) {
        assert l > 0 ==> earlier[l] == earlier[1..][l - 1];
      }
      j := j + 1;
    }
  }

  lemma {:induction false} FaultExplains(earlier: seq<OutputSpec>, output: OutputSpec)
    requires (forall e | e in earlier :: e.scale120 > 0) && OutputFault(earlier, output).Some?
    ensures Explains(OutputFault(earlier, output).value, earlier, output)
  {
    if output.scale120 > 0 {
      SizesArePositive(output);
      InRangeIsRepresentable(output.LogicalRectOf());
    }
    if NameFits(earlier, output) && ValidOutput(output) {
      var j := OverlapIsNamed(earlier, output);
    }
  }

  /** The outputs before k are a valid layout, and the error says why k does not fit them. */
  ghost predicate ExplainedAt(error: TopologyError, outputs: seq<OutputSpec>, k: nat) {
    && k < |outputs| && ValidLayout(outputs[..k]) && !ValidLayout(outputs[..k + 1])
    && (forall e | e in outputs[..k] :: e.scale120 > 0)
    && Explains(error, outputs[..k], outputs[k])
  }

  lemma {:induction false} ExplainedInPrefix(error: TopologyError, outputs: seq<OutputSpec>, n: nat, k: nat)
    requires n <= |outputs| && ExplainedAt(error, outputs[..n], k)
    ensures ExplainedAt(error, outputs, k)
  {
    assert outputs[..n][..k] == outputs[..k] && outputs[..n][..k + 1] == outputs[..k + 1];
  }

  /** A refused layout has a first output that does not fit those before it, and the error says why. */
  lemma {:induction false} RefusalIsExplained(outputs: seq<OutputSpec>) returns (k: nat)
    requires FirstFault(outputs).Some?
    ensures ExplainedAt(FirstFault(outputs).value, outputs, k)
  {
    var front, last := outputs[..|outputs| - 1], outputs[|outputs| - 1];
    if FirstFault(front).Some? {
      k := RefusalIsExplained(front);
      ExplainedInPrefix(FirstFault(front).value, outputs, |front|, k);
    } else {
      k := |front|;
      LastIsExplained(outputs, front, last);
      assert outputs[..k] == front && outputs[..k + 1] == outputs;
    }
  }

  lemma {:induction false} LastIsExplained(outputs: seq<OutputSpec>, front: seq<OutputSpec>, last: OutputSpec)
    requires outputs == front + [last] && FirstFault(front).None? && FirstFault(outputs).Some?
    ensures ValidLayout(front) && !ValidLayout(outputs)
    ensures forall e | e in front :: e.scale120 > 0
    ensures Explains(FirstFault(outputs).value, front, last)
  {
    assert outputs[..|outputs| - 1] == front;
    ScanDecidesValidity(front);
    ScanDecidesValidity(outputs);
    FaultExplains(front, last);
  }
}
