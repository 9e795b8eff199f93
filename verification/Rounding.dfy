/**
 Rounding a scaled logical edge to a pixel edge. Floating point is modelled by
 exact reals; the clamp to the range of u32 is kept.
 */
module Rounding {
  import opened Wrappers

  /** Rounds to the nearest integer, halves away from zero. */
  function Round(x: real): int {
    if x >= 0.0 then (x + 0.5).Floor else -((-x + 0.5).Floor)
  }

  /** The pixel edge of a scaled coordinate. */
  function PixelEdge(x: real): U32 {
    var rounded := Round(x);
    if rounded < 0 then 0 else if rounded > U32_MAX then U32_MAX else rounded
  }

  function ScaledEdge(value: real, scale: real): U32 {
    PixelEdge(value * scale)
  }

  /**
   A pixel edge lies at or before pixel i exactly when the coordinate lies before
   that pixel's centre. Saturation cannot disturb a pixel below U32_MAX.
   */
  lemma EdgeIsCentreRule(x: real, i: nat)
    requires i < U32_MAX
    ensures PixelEdge(x) <= i <==> x < i as real + 0.5
  {
  }

  lemma RoundMonotone(a: real, b: real)
    requires a <= b
    ensures Round(a) <= Round(b)
  {
  }

  /** Edges at least k pixels apart stay so, and exactly k apart stay exactly k. */
  lemma EdgesKeepDistance(a: real, b: real, k: nat)
    requires 0.0 <= a
    ensures a + k as real <= b ==> Round(a) + k <= Round(b)
    ensures a + k as real == b ==> Round(a) + k == Round(b)
  {
  }

  lemma ProductMonotone(a: real, b: real, scale: real)
    requires 0.0 <= scale && a <= b
    ensures a * scale <= b * scale
  {
    assert (b - a) * scale >= 0.0;
  }

  lemma ProductStrict(a: real, b: real, scale: real)
    requires 0.0 < scale
    ensures a < b <==> a * scale < b * scale
  {
    if a < b {
      assert (b - a) * scale > 0.0;
    } else {
      ProductMonotone(b, a, scale);
    }
  }
}
