/**
 The eight output orientations of a panel and how sensor rotations act on them.

 Coordinates are normalized: the unit square is the whole output.
 */
module Orientation {

  datatype OutputTransform =
    | Normal
    | Rotate90
    | Rotate180
    | Rotate270
    | Flipped
    | Flipped90
    | Flipped180
    | Flipped270

  datatype Point = Point(x: real, y: real)

  predicate SwapsAxes(t: OutputTransform) {
    t.Rotate90? || t.Rotate270? || t.Flipped90? || t.Flipped270?
  }

  /** Maps a point on the connector's native axes to the logical output axes. */
  function NativeToLogical(t: OutputTransform, p: Point): Point {
    match t
    case Normal => p
    case Rotate90 => Point(p.y, 1.0 - p.x)
    case Rotate180 => Point(1.0 - p.x, 1.0 - p.y)
    case Rotate270 => Point(1.0 - p.y, p.x)
    case Flipped => Point(1.0 - p.x, p.y)
    case Flipped90 => Point(p.y, p.x)
    case Flipped180 => Point(p.x, 1.0 - p.y)
    case Flipped270 => Point(1.0 - p.y, 1.0 - p.x)
  }

  /** The quarter turns of an orientation, its reflection left aside. */
  function Turns(t: OutputTransform): (turns: nat)
    ensures turns < 4
  {
    match t
    case Normal => 0
    case Flipped => 0
    case Rotate90 => 1
    case Flipped90 => 1
    case Rotate180 => 2
    case Flipped180 => 2
    case Rotate270 => 3
    case Flipped270 => 3
  }

  predicate Reflects(t: OutputTransform) {
    t.Flipped? || t.Flipped90? || t.Flipped180? || t.Flipped270?
  }

  function Oriented(turns: nat, reflected: bool): (t: OutputTransform)
    requires turns < 4
    ensures Turns(t) == turns && Reflects(t) == reflected
  {
    if reflected then
      if turns == 0 then Flipped else if turns == 1 then Flipped90
      else if turns == 2 then Flipped180 else Flipped270
    else
      if turns == 0 then Normal else if turns == 1 then Rotate90
      else if turns == 2 then Rotate180 else Rotate270
  }

  /** Applies a cardinal rotation after a panel's mounting transform. */
  function RotatedBy(t: OutputTransform, rotation: OutputTransform): OutputTransform {
    Oriented((Turns(t) + Turns(rotation)) % 4, Reflects(t))
  }

  function InverseRotation(t: OutputTransform): OutputTransform {
    match t
    case Normal => Normal
    case Flipped => Normal
    case Rotate90 => Rotate270
    case Flipped90 => Rotate270
    case Rotate180 => Rotate180
    case Flipped180 => Rotate180
    case Rotate270 => Rotate90
    case Flipped270 => Rotate90
  }

  /** The inverse of NativeToLogical, given geometrically. */
  function LogicalToNative(t: OutputTransform, p: Point): (q: Point)
    ensures NativeToLogical(t, q) == p
  {
    match t
    case Rotate90 => Point(1.0 - p.y, p.x)
    case Rotate270 => Point(p.y, 1.0 - p.x)
    case _ => NativeToLogical(t, p)
  }

  /** An orientation is known from where it sends two points. */
  lemma OrientationIsItsMap(t: OutputTransform, u: OutputTransform)
    requires forall p: Point :: NativeToLogical(t, p) == NativeToLogical(u, p)
    ensures t == u
  {
    var probe := Point(0.25, 0.125);
    assert NativeToLogical(t, probe) == NativeToLogical(u, probe);
  }

  /** One quarter turn, and its iterates. */
  function Spin(turns: nat, p: Point): Point {
    if turns == 0 then p
    else
      var q := Spin(turns - 1, p);
      Point(q.y, 1.0 - q.x)
  }

  function Mirror(reflected: bool, p: Point): Point {
    if reflected then Point(1.0 - p.x, p.y) else p
  }

  lemma {:induction false} SpinAdds(first: nat, second: nat, p: Point)
    ensures Spin(first + second, p) == Spin(second, Spin(first, p))
  {
    if second > 0 {
      SpinAdds(first, second - 1, p);
    }
  }

  /** Four quarter turns are none. */
  lemma {:induction false} SpinWraps(turns: nat, p: Point)
    ensures Spin(turns % 4, p) == Spin(turns, p)
  {
    if turns >= 4 {
      SpinWraps(turns - 4, p);
      SpinAdds(turns - 4, 4, p);
      SpinFour(Spin(turns - 4, p));
    }
  }

  lemma SpinHalf(p: Point)
    ensures Spin(2, p) == Point(1.0 - p.x, 1.0 - p.y)
  {
    assert Spin(1, p) == Point(p.y, 1.0 - p.x);
  }

  lemma SpinFour(p: Point)
    ensures Spin(4, p) == p
  {
    SpinHalf(p);
    SpinHalf(Spin(2, p));
    SpinAdds(2, 2, p);
  }

  /** Every orientation is a mirror image or none, then its quarter turns. */
  lemma MapIsMirrorThenSpin(t: OutputTransform, p: Point)
    ensures NativeToLogical(t, p) == Spin(Turns(t), Mirror(Reflects(t), p))
  {
    var m := Mirror(Reflects(t), p);
    assert Spin(1, m) == Point(m.y, 1.0 - m.x);
    assert Spin(2, m) == Point(1.0 - m.x, 1.0 - m.y);
    assert Spin(3, m) == Point(1.0 - m.y, m.x);
  }

  /**
   Rotating an orientation composes its map with the rotation's. A reflected
   argument acts as its rotational component.
   */
  lemma RotatedByComposes(t: OutputTransform, rotation: OutputTransform, p: Point)
    ensures NativeToLogical(RotatedBy(t, rotation), p)
         == NativeToLogical(Oriented(Turns(rotation), false), NativeToLogical(t, p))
  {
    var m := Mirror(Reflects(t), p);
    MapIsMirrorThenSpin(RotatedBy(t, rotation), p);
    MapIsMirrorThenSpin(t, p);
    MapIsMirrorThenSpin(Oriented(Turns(rotation), false), NativeToLogical(t, p));
    SpinWraps(Turns(t) + Turns(rotation), m);
    SpinAdds(Turns(t), Turns(rotation), m);
  }

  /** RotatedBy is the only orientation that does so. */
  lemma RotatedByIsUnique(t: OutputTransform, rotation: OutputTransform, u: OutputTransform)
    ensures u == RotatedBy(t, rotation) <==>
            forall p: Point :: NativeToLogical(u, p)
                            == NativeToLogical(Oriented(Turns(rotation), false), NativeToLogical(t, p))
  {
    forall p: Point { RotatedByComposes(t, rotation, p); }
    if forall p: Point :: NativeToLogical(u, p)
                       == NativeToLogical(Oriented(Turns(rotation), false), NativeToLogical(t, p)) {
      forall p: Point ensures NativeToLogical(u, p) == NativeToLogical(RotatedBy(t, rotation), p) {
        RotatedByComposes(t, rotation, p);
      }
      OrientationIsItsMap(u, RotatedBy(t, rotation));
    }
  }

  /** The mounting transform t after a history of sensor rotations. */
  function RotateThrough(t: OutputTransform, rotations: seq<OutputTransform>): OutputTransform {
    if rotations == [] then t
    else RotatedBy(RotateThrough(t, rotations[..|rotations| - 1]), rotations[|rotations| - 1])
  }

  function TotalTurns(rotations: seq<OutputTransform>): nat {
    if rotations == [] then 0
    else TotalTurns(rotations[..|rotations| - 1]) + Turns(rotations[|rotations| - 1])
  }

  /** Orientations with the same turns and reflection are the same. */
  lemma SameOrientation(t: OutputTransform, u: OutputTransform)
    requires Turns(t) == Turns(u) && Reflects(t) == Reflects(u)
    ensures t == u
  {
  }

  lemma SmallRemainder(turns: nat)
    requires turns < 8
    ensures turns % 4 == if turns < 4 then turns else turns - 4
  {
  }

  /** One rotation adds its turns, less a whole round if that makes four or more. */
  lemma TurnsOfRotated(t: OutputTransform, rotation: OutputTransform) returns (round: nat)
    ensures Turns(t) + Turns(rotation) == Turns(RotatedBy(t, rotation)) + 4 * round
    ensures Reflects(RotatedBy(t, rotation)) == Reflects(t)
  {
    var sum := Turns(t) + Turns(rotation);
    SmallRemainder(sum);
    round := if sum < 4 then 0 else 1;
  }

  /** A history of rotations adds all its turns, less whole rounds. */
  lemma {:induction false} TurnsAfter(t: OutputTransform, rotations: seq<OutputTransform>) returns (rounds: nat)
    ensures Turns(t) + TotalTurns(rotations) == Turns(RotateThrough(t, rotations)) + 4 * rounds
    ensures Reflects(RotateThrough(t, rotations)) == Reflects(t)
  {
    rounds := 0;
    if rotations != [] {
      var front, last := rotations[..|rotations| - 1], rotations[|rotations| - 1];
      rounds := TurnsAfter(t, front);
      var round := TurnsOfRotated(RotateThrough(t, front), last);
      rounds := rounds + round;
    }
  }

  /** Equal totals of whole rounds and remainders have equal remainders. */
  lemma EqualRemainders(x: nat, y: nat, total: nat, m: int, n: int)
    requires x < 4 && y < 4 && x + 4 * m == total && y + 4 * n == total
    ensures x == y
  {
  }

  /** Any history of rotations is one rotation by the sum of its turns. */
  lemma {:induction false} RotationsAddUp(t: OutputTransform, rotations: seq<OutputTransform>)
    ensures RotateThrough(t, rotations)
         == RotatedBy(t, Oriented(TotalTurns(rotations) % 4, false))
    ensures Reflects(RotateThrough(t, rotations)) == Reflects(t)
  {
    var rounds := TurnsAfter(t, rotations);
    RotatedByTotal(t, RotateThrough(t, rotations), TotalTurns(rotations), rounds);
  }

  lemma RotatedByTotal(t: OutputTransform, u: OutputTransform, total: nat, rounds: nat)
    requires Turns(t) + total == Turns(u) + 4 * rounds && Reflects(u) == Reflects(t)
    ensures u == RotatedBy(t, Oriented(total % 4, false))
  {
    var rest, q := total % 4, total / 4;
    assert total == rest + 4 * q;
    var round := TurnsOfRotated(t, Oriented(rest, false));
    EqualRemainders(Turns(u), Turns(RotatedBy(t, Oriented(rest, false))), Turns(t) + total, rounds, q + round);
    SameOrientation(u, RotatedBy(t, Oriented(rest, false)));
  }

  lemma InverseRotationUndoes(t: OutputTransform, rotation: OutputTransform)
    ensures RotatedBy(RotatedBy(t, rotation), InverseRotation(rotation)) == t
  {
    var inverse := InverseRotation(rotation);
    var there := TurnsOfRotated(t, rotation);
    var back := TurnsOfRotated(RotatedBy(t, rotation), inverse);
    TurnsCancel(rotation);
    ThereAndBack(t, RotatedBy(t, rotation), RotatedBy(RotatedBy(t, rotation), inverse),
                 Turns(rotation), Turns(inverse), there, back);
  }

  lemma ThereAndBack(
    t: OutputTransform, u: OutputTransform, v: OutputTransform, a: nat, b: nat, there: nat, back: nat)
    requires Turns(t) + a == Turns(u) + 4 * there && Turns(u) + b == Turns(v) + 4 * back
    requires (a + b == 0 || a + b == 4) && Reflects(v) == Reflects(u) == Reflects(t)
    ensures v == t
  {
    EqualRemainders(Turns(t), Turns(v), Turns(t), 0, there + back - if a + b == 4 then 1 else 0);
    SameOrientation(v, t);
  }

  lemma TurnsCancel(rotation: OutputTransform)
    ensures var both := Turns(rotation) + Turns(InverseRotation(rotation)); both == 0 || both == 4
  {
  }

  /** Undoing a rotation history step by step, newest first, restores the mounting transform. */
  lemma {:induction false} RotationsUndone(t: OutputTransform, rotations: seq<OutputTransform>)
    ensures RotateThrough(RotateThrough(t, rotations), Undo(rotations)) == t
  {
    if rotations != [] {
      var front, last := rotations[..|rotations| - 1], rotations[|rotations| - 1];
      RotateThroughConcat(RotateThrough(t, rotations), [InverseRotation(last)], Undo(front));
      assert [InverseRotation(last)][..0] == [];
      var rotated := RotateThrough(t, front);
      InverseRotationUndoes(rotated, last);
      RotationsUndone(t, front);
    }
  }

  function Undo(rotations: seq<OutputTransform>): seq<OutputTransform> {
    if rotations == [] then []
    else [InverseRotation(rotations[|rotations| - 1])] + Undo(rotations[..|rotations| - 1])
  }

  lemma {:induction false} RotateThroughConcat(
    t: OutputTransform, first: seq<OutputTransform>, second: seq<OutputTransform>)
    ensures RotateThrough(t, first + second) == RotateThrough(RotateThrough(t, first), second)
  {
    if second == [] {
      assert first + second == first;
    } else {
      assert (first + second)[..|first + second| - 1] == first + second[..|second| - 1];
      RotateThroughConcat(t, first, second[..|second| - 1]);
    }
  }
}
