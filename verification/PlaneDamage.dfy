/** The bounded damage clips of one plane commit. */
module PlaneDamages {
  import opened Wrappers

  const MAX_CLIPS: nat := 32

  /** A framebuffer rectangle, lower-right exclusive. */
  datatype Clip = Clip(x1: I32, y1: I32, x2: I32, y2: I32)

  const EMPTY_CLIP := Clip(0, 0, 0, 0)

  predicate Degenerate(c: Clip) {
    !(c.x1 < c.x2 && c.y1 < c.y2)
  }

  predicate Covers(c: Clip, x: int, y: int) {
    c.x1 <= x < c.x2 && c.y1 <= y < c.y2
  }

  ghost predicate CoversNothing(c: Clip) {
    forall x: int, y: int :: !Covers(c, x, y)
  }

  lemma DegenerateCoversNothing(c: Clip)
    ensures Degenerate(c) <==> CoversNothing(c)
  {
    assert !Degenerate(c) ==> Covers(c, c.x1, c.y1);
  }

  predicate Within(inner: Clip, outer: Clip) {
    outer.x1 <= inner.x1 && inner.x2 <= outer.x2 && outer.y1 <= inner.y1 && inner.y2 <= outer.y2
  }

  function Min(a: I32, b: I32): I32 { if a <= b then a else b }

  function Max(a: I32, b: I32): I32 { if a <= b then b else a }

  function BoundingClip(a: Clip, b: Clip): (bounds: Clip)
    ensures forall c :: Within(a, c) && Within(b, c) <==> Within(bounds, c)
  {
    Clip(Min(a.x1, b.x1), Min(a.y1, b.y1), Max(a.x2, b.x2), Max(a.y2, b.y2))
  }

  /** The clips that cover anything, in order. */
  function NonDegenerate(clips: seq<Clip>): seq<Clip> {
    if clips == [] then []
    else
      var last := clips[|clips| - 1];
      NonDegenerate(clips[..|clips| - 1]) + if Degenerate(last) then [] else [last]
  }

  lemma {:induction false} NonDegenerateGrows(clips: seq<Clip>, n: nat)
    requires n < |clips|
    ensures NonDegenerate(clips[..n + 1])
         == NonDegenerate(clips[..n]) + if Degenerate(clips[n]) then [] else [clips[n]]
  {
    assert clips[..n + 1][..n] == clips[..n];
  }

  lemma {:induction false} KeptAreNonDegenerate(clips: seq<Clip>, c: Clip)
    ensures c in NonDegenerate(clips) <==> c in clips && !Degenerate(c)
  {
    if clips != [] {
      var front, last := clips[..|clips| - 1], clips[|clips| - 1];
      assert clips == front + [last];
      KeptAreNonDegenerate(front, c);
    }
  }

  /** The tightest rectangle around clips: it holds them all, and each of its edges is some clip's. */
  predicate Bounds(bounds: Clip, clips: seq<Clip>) {
    && (forall c | c in clips :: Within(c, bounds))
    && (exists c | c in clips :: c.x1 == bounds.x1)
    && (exists c | c in clips :: c.y1 == bounds.y1)
    && (exists c | c in clips :: c.x2 == bounds.x2)
    && (exists c | c in clips :: c.y2 == bounds.y2)
  }

  /** What is stored for the clips that cover anything. */
  predicate Stores(contents: seq<Clip>, kept: seq<Clip>) {
    if |kept| <= MAX_CLIPS then contents == kept
    else |contents| == 1 && Bounds(contents[0], kept)
  }

  lemma {:induction false} BoundsGrow(bounds: Clip, clips: seq<Clip>, more: Clip)
    requires Bounds(bounds, clips)
    ensures Bounds(BoundingClip(bounds, more), clips + [more])
  {
    var all, grown := clips + [more], BoundingClip(bounds, more);
    assert more in all && forall c | c in clips :: c in all;
    assert exists c | c in all :: c.x1 == grown.x1;
    assert exists c | c in all :: c.y1 == grown.y1;
    assert exists c | c in all :: c.x2 == grown.x2;
    assert exists c | c in all :: c.y2 == grown.y2;
  }

  /** No smaller rectangle holds the clips. */
  lemma {:induction false} BoundsAreLeast(bounds: Clip, clips: seq<Clip>, other: Clip)
    requires Bounds(bounds, clips) && forall c | c in clips :: Within(c, other)
    ensures Within(bounds, other)
  {
  }

  /** Bounds depend on which clips there are, not on their order. */
  lemma {:induction false} BoundsRotate(bounds: Clip, first: Clip, rest: seq<Clip>)
    requires Bounds(bounds, [first] + rest)
    ensures Bounds(bounds, rest + [first])
  {
    assert forall c :: c in [first] + rest <==> c in rest + [first];
  }

  /** Too many clips so far, and their bounds. */
  predicate Collapsed(bounds: Clip, clips: seq<Clip>) {
    |NonDegenerate(clips)| > MAX_CLIPS && Bounds(bounds, NonDegenerate(clips))
  }

  lemma {:induction false} CollapsedGrows(bounds: Clip, clips: seq<Clip>, n: nat)
    requires n < |clips| && Collapsed(bounds, clips[..n])
    ensures Collapsed(if Degenerate(clips[n]) then bounds else BoundingClip(bounds, clips[n]), clips[..n + 1])
  {
    NonDegenerateGrows(clips, n);
    BoundsGrow(bounds, NonDegenerate(clips[..n]), clips[n]);
  }

  class PlaneDamage {
    const clips: array<Clip>
    var len: nat

    ghost predicate Valid()
      reads this
    {
      clips.Length == MAX_CLIPS && len <= MAX_CLIPS
    }

    ghost function Contents(): seq<Clip>
      reads this, clips
      requires Valid()
    {
      clips[..len]
    }

    constructor (input: seq<Clip>)
      ensures Valid() && fresh(clips)
      ensures Stores(Contents(), NonDegenerate(input))
    {
      clips := new Clip[MAX_CLIPS](_ => EMPTY_CLIP);
      len := 0;
      new;
      var next := Take(input);
      while next < |input| && Degenerate(input[next])
        invariant next <= |input| && Valid() && (next == |input| || len == MAX_CLIPS)
        invariant NonDegenerate(input[..next]) == Contents()
      {
        NonDegenerateGrows(input, next);
        next := next + 1;
      }
      if next == |input| {
        assert input[..next] == input;
      } else {
        Collapse(input, next);
      }
    }

    /** Stores clips until they run out or the storage is full. */
    method Take(input: seq<Clip>) returns (next: nat)
      requires Valid() && len == 0
      modifies this`len, clips
      ensures Valid() && next <= |input| && Contents() == NonDegenerate(input[..next])
      ensures next == |input| || len == MAX_CLIPS
    {
      next := 0;
      while next < |input| && len < MAX_CLIPS
        invariant next <= |input| && len <= MAX_CLIPS
        invariant clips[..len] == NonDegenerate(input[..next])
      {
        NonDegenerateGrows(input, next);
        if !Degenerate(input[next]) {
          clips[len] := input[next];
          len := len + 1;
        }
        next := next + 1;
      }
    }

    /** One clip too many: everything collapses to its bounding rectangle. */
    method Collapse(input: seq<Clip>, first: nat)
      requires Valid() && len == MAX_CLIPS && first < |input| && !Degenerate(input[first])
      requires Contents() == NonDegenerate(input[..first])
      modifies this`len, clips
      ensures Valid() && Stores(Contents(), NonDegenerate(input))
    {
      var bounds := BoundStored(input[first]);
      NonDegenerateGrows(input, first);
      bounds := BoundRest(input, first + 1, bounds);
      clips[0] := bounds;
      len := 1;
    }

    /** Folds what remains of the clips. */
    method BoundRest(input: seq<Clip>, first: nat, sofar: Clip) returns (bounds: Clip)
      requires first <= |input| && Collapsed(sofar, input[..first])
      ensures Collapsed(bounds, input)
    {
      bounds := sofar;
      for next := first to |input|
        invariant Collapsed(bounds, input[..next])
      {
        CollapsedGrows(bounds, input, next);
        if !Degenerate(input[next]) {
          bounds := BoundingClip(bounds, input[next]);
        }
      }
      assert input[..|input|] == input;
    }

    /** Folds the stored clips into one more. */
    method BoundStored(clip: Clip) returns (bounds: Clip)
      requires Valid()
      ensures Bounds(bounds, Contents() + [clip])
    {
      bounds := clip;
      for i := 0 to len
        invariant Bounds(bounds, [clip] + Contents()[..i])
      {
        assert [clip] + Contents()[..i + 1] == [clip] + Contents()[..i] + [clips[i]];
        BoundsGrow(bounds, [clip] + Contents()[..i], clips[i]);
        bounds := BoundingClip(bounds, clips[i]);
      }
      assert Contents()[..len] == Contents();
      BoundsRotate(bounds, clip, Contents());
    }
  }

  // ---------- What storing means for coverage ----------

  lemma CoverIsInherited(inner: Clip, outer: Clip, x: int, y: int)
    requires Within(inner, outer) && Covers(inner, x, y)
    ensures Covers(outer, x, y)
  {
  }

  /** No covered point is lost, whatever the clips. */
  lemma {:induction false} CoverageIsKept(input: seq<Clip>, contents: seq<Clip>, c: Clip, x: int, y: int)
    requires Stores(contents, NonDegenerate(input))
    requires c in input && Covers(c, x, y)
    ensures exists s | s in contents :: Covers(s, x, y)
  {
    KeptAreNonDegenerate(input, c);
    if |NonDegenerate(input)| > MAX_CLIPS {
      CoverIsInherited(c, contents[0], x, y);
      assert contents[0] in contents;
    }
  }

  /** Nothing is stored exactly when nothing was covered, and never more than fits. */
  lemma {:induction false} EmptyMeansUnchanged(input: seq<Clip>, contents: seq<Clip>)
    requires Stores(contents, NonDegenerate(input))
    ensures contents == [] <==> forall c | c in input :: CoversNothing(c)
    ensures |contents| <= 32
  {
    forall c | c in input ensures Degenerate(c) <==> CoversNothing(c) {
      DegenerateCoversNothing(c);
    }
    var kept := NonDegenerate(input);
    if kept != [] {
      assert kept[0] in kept;
      KeptAreNonDegenerate(input, kept[0]);
    }
    forall c | c in input && !Degenerate(c) ensures kept != [] {
      KeptAreNonDegenerate(input, c);
    }
  }

  /** Up to the limit nothing is lost or merged: the clips that cover anything are kept in order. */
  lemma {:induction false} ShortListsAreVerbatim(input: seq<Clip>, contents: seq<Clip>)
    requires Stores(contents, NonDegenerate(input))
    requires |input| <= 32 && forall c | c in input :: !Degenerate(c)
    ensures contents == input
  {
    AllKept(input);
  }

  lemma {:induction false} AllKept(clips: seq<Clip>)
    requires forall c | c in clips :: !Degenerate(c)
    ensures NonDegenerate(clips) == clips
  {
    if clips != [] {
      var front, last := clips[..|clips| - 1], clips[|clips| - 1];
      assert last in clips;
      forall c | c in front ensures !Degenerate(c) {
        assert c in clips;
      }
      AllKept(front);
      assert clips == front + [last];
    }
  }

  /** What a stored set says of any point: past the limit more may be covered, before it exactly the same. */
  lemma {:induction false} ShortCoverageIsExact(input: seq<Clip>, contents: seq<Clip>, x: int, y: int)
    requires Stores(contents, NonDegenerate(input)) && |NonDegenerate(input)| <= 32
    ensures (exists s | s in contents :: Covers(s, x, y)) <==> (exists c | c in input :: Covers(c, x, y))
  {
    if c :| c in input && Covers(c, x, y) {
      CoverageIsKept(input, contents, c, x, y);
    }
    forall s | s in contents ensures s in input {
      KeptAreNonDegenerate(input, s);
    }
  }

  /** The clips a property blob is made from: the kernel refuses empty blobs. */
  function BlobClips(contents: seq<Clip>): seq<Clip> {
    if contents == [] then [EMPTY_CLIP] else contents
  }

  /** A blob is never empty and covers exactly what is stored. */
  lemma {:induction false} BlobCoversTheSame(contents: seq<Clip>, x: int, y: int)
    ensures BlobClips(contents) != []
    ensures (exists s | s in BlobClips(contents) :: Covers(s, x, y)) <==> (exists s | s in contents :: Covers(s, x, y))
  {
    if contents == [] {
      assert !Covers(EMPTY_CLIP, x, y);
    }
  }
}
