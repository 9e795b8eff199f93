/** The transactional map of outputs, its commits and its snapshots. */
module TopologyManagement {
  import opened Wrappers
  import opened Topology

  datatype TopologyChange = Upsert(output: OutputSpec) | Remove(id: U64)

  datatype TopologyCommit = TopologyCommit(
    previousEpoch: U64, epoch: U64, added: seq<U64>, removed: seq<U64>, changed: seq<U64>)
  {
    predicate IsNoop() { previousEpoch == epoch }
  }

  datatype TopologySnapshot = TopologySnapshot(
    epoch: U64, logicalBounds: Option<LogicalRect>, ticker: Option<U64>, outputs: seq<OutputSpec>)

  /** The fields of a manager as a value. */
  datatype TopologyState = TopologyState(
    epoch: U64, outputs: map<U64, OutputSpec>, primaryOutput: Option<string>)

  const INITIAL := TopologyState(0, map[], None)

  // ---------- Identifiers in order ----------

  predicate Increasing(ids: seq<U64>) {
    forall i, j | 0 <= i < j < |ids| :: ids[i] < ids[j]
  }

  predicate IsLeast(least: U64, ids: set<U64>) {
    least in ids && forall id | id in ids :: least <= id
  }

  /** The members of a set in increasing order, as an ordered map iterates them. */
  function InOrder(ids: set<U64>): (sorted: seq<U64>)
    ensures Increasing(sorted)
    ensures forall id :: id in sorted <==> id in ids
  {
    if ids == {} then []
    else
      HasLeast(ids);
      var least :| IsLeast(least, ids);
      var rest := InOrder(ids - {least});
      assert forall i | 0 <= i < |rest| :: rest[i] in ids - {least};
      [least] + rest
  }

  lemma {:induction false} HasLeast(ids: set<U64>)
    requires ids != {}
    ensures exists least :: IsLeast(least, ids)
  {
    var least := FindLeast(ids);
  }

  lemma {:induction false} FindLeast(ids: set<U64>) returns (least: U64)
    requires ids != {}
    ensures IsLeast(least, ids)
  {
    least :| least in ids;
    var rest := ids - {least};
    if rest != {} {
      var other := FindLeast(rest);
      assert forall id | id in ids :: id == least || id in rest;
      if other < least {
        least := other;
      }
    } else {
      assert forall id | id in ids :: id == least || id in rest;
    }
  }

  function ValuesAt(outputs: map<U64, OutputSpec>, ids: seq<U64>): (values: seq<OutputSpec>)
    requires forall id | id in ids :: id in outputs
    ensures |values| == |ids|
    ensures forall i | 0 <= i < |ids| :: values[i] == outputs[ids[i]]
  {
    seq(|ids|, i requires 0 <= i < |ids| => outputs[ids[i]])
  }

  /** The outputs in the order the map iterates them. */
  function Values(outputs: map<U64, OutputSpec>): seq<OutputSpec> {
    ValuesAt(outputs, InOrder(outputs.Keys))
  }

  /** The scan's verdict does not depend on the order in which it visits the outputs. */
  lemma {:induction false} VerdictIgnoresOrder(outputs: map<U64, OutputSpec>, ids: seq<U64>)
    requires KeysMatch(outputs)
    requires forall id :: id in ids <==> id in outputs
    requires forall i, j | 0 <= i < j < |ids| :: ids[i] != ids[j]
    ensures FirstFault(ValuesAt(outputs, ids)).None? <==> ValidTopology(outputs)
  {
    var values := ValuesAt(outputs, ids);
    ScanDecidesValidity(values);
    if ValidLayout(values) {
      forall a | a in outputs ensures ValidOutput(outputs[a]) {
        var i :| 0 <= i < |ids| && ids[i] == a;
        assert values[i] == outputs[a];
      }
      forall a, b | a in outputs && b in outputs && a != b ensures Compatible(outputs[a], outputs[b]) {
        var i :| 0 <= i < |ids| && ids[i] == a;
        var j :| 0 <= j < |ids| && ids[j] == b;
        assert values[i] == outputs[a] && values[j] == outputs[b];
        OverlapSymmetric(values[i].LogicalRectOf(), values[j].LogicalRectOf());
      }
    }
  }

  // ---------- Applying changes ----------

  function Staged(outputs: map<U64, OutputSpec>, changes: seq<TopologyChange>): map<U64, OutputSpec> {
    if changes == [] then outputs
    else
      var before := Staged(outputs, changes[..|changes| - 1]);
      match changes[|changes| - 1]
      case Upsert(output) => before[output.id := output]
      case Remove(id) => before - {id}
  }

  predicate Touches(change: TopologyChange, id: U64) {
    match change
    case Upsert(output) => output.id == id
    case Remove(removed) => removed == id
  }

  lemma {:induction false} UntouchedIsKept(outputs: map<U64, OutputSpec>, changes: seq<TopologyChange>, id: U64)
    requires forall c | c in changes :: !Touches(c, id)
    ensures id in Staged(outputs, changes) <==> id in outputs
    ensures id in outputs ==> Staged(outputs, changes)[id] == outputs[id]
  {
    if changes != [] {
      assert !Touches(changes[|changes| - 1], id);
      UntouchedIsKept(outputs, changes[..|changes| - 1], id);
    }
  }

  /** The last change that names an output decides it. */
  lemma {:induction false} LastChangeWins(
    outputs: map<U64, OutputSpec>, changes: seq<TopologyChange>, id: U64, k: nat)
    requires k < |changes| && Touches(changes[k], id)
    requires forall l | k < l < |changes| :: !Touches(changes[l], id)
    ensures id in Staged(outputs, changes) <==> changes[k].Upsert?
    ensures changes[k].Upsert? ==> Staged(outputs, changes)[id] == changes[k].output
  {
    if k < |changes| - 1 {
      assert !Touches(changes[|changes| - 1], id);
      LastChangeWins(outputs, changes[..|changes| - 1], id, k);
    }
  }

  lemma {:induction false} StagedKeysMatch(outputs: map<U64, OutputSpec>, changes: seq<TopologyChange>)
    requires KeysMatch(outputs)
    ensures KeysMatch(Staged(outputs, changes))
  {
    if changes != [] {
      StagedKeysMatch(outputs, changes[..|changes| - 1]);
    }
  }

  function NextEpoch(epoch: U64): U64 {
    var wrapped := if epoch == U64_MAX then 0 else epoch + 1;
    if wrapped < 1 then 1 else wrapped
  }

  function Commit(state: TopologyState, staged: map<U64, OutputSpec>, primary: Option<string>)
    : (result: (TopologyState, TopologyCommit))
  {
    var added := InOrder(staged.Keys - state.outputs.Keys);
    var removed := InOrder(state.outputs.Keys - staged.Keys);
    var changed := InOrder(set id | id in state.outputs && id in staged && state.outputs[id] != staged[id]);
    var next :=
      if added != [] || removed != [] || changed != [] || state.primaryOutput != primary
      then TopologyState(NextEpoch(state.epoch), staged, primary)
      else state;
    (next, TopologyCommit(state.epoch, next.epoch, added, removed, changed))
  }

  function Applied(state: TopologyState, changes: seq<TopologyChange>, primary: Option<string>)
    : (TopologyState, Result<TopologyCommit, TopologyError>)
  {
    var staged := Staged(state.outputs, changes);
    match FirstFault(Values(staged))
    case Some(error) => (state, Err(error))
    case None =>
      var (next, commit) := Commit(state, staged, primary);
      (next, Ok(commit))
  }

  /**
   A transaction is all or nothing: it takes effect exactly when the staged map
   is a valid topology, and then the state holds exactly the staged map and the
   requested primary output; otherwise nothing moves.
   */
  lemma {:induction false} AllOrNothing(state: TopologyState, changes: seq<TopologyChange>, primary: Option<string>)
    requires KeysMatch(state.outputs)
    ensures var (next, result) := Applied(state, changes, primary);
            var staged := Staged(state.outputs, changes);
            && (result.Ok? <==> ValidTopology(staged))
            && (result.Ok? ==> next.outputs == staged && next.primaryOutput == primary)
            && (result.Err? ==> next == state)
  {
    var staged := Staged(state.outputs, changes);
    StagedKeysMatch(state.outputs, changes);
    VerdictIgnoresOrder(staged, InOrder(staged.Keys));
    if FirstFault(Values(staged)).None? {
      UnchangedMeansEqual(state.outputs, staged);
    }
  }

  lemma {:induction false} UnchangedMeansEqual(before: map<U64, OutputSpec>, after: map<U64, OutputSpec>)
    ensures before == after <==>
            && InOrder(after.Keys - before.Keys) == []
            && InOrder(before.Keys - after.Keys) == []
            && InOrder(set id | id in before && id in after && before[id] != after[id]) == []
  {
    var changed := set id | id in before && id in after && before[id] != after[id];
    assert InOrder(changed) == [] <==> changed == {};
    assert InOrder(after.Keys - before.Keys) == [] <==> after.Keys - before.Keys == {};
    assert InOrder(before.Keys - after.Keys) == [] <==> before.Keys - after.Keys == {};
    if changed == {} && after.Keys - before.Keys == {} && before.Keys - after.Keys == {} {
      assert before.Keys == after.Keys;
      forall id | id in before ensures before[id] == after[id] {
        assert id !in changed;
      }
    }
  }

  /** A commit names exactly the outputs that appear, disappear or differ, each list in order. */
  lemma {:induction false} CommitIsTheDifference(
    state: TopologyState, changes: seq<TopologyChange>, primary: Option<string>, id: U64)
    requires KeysMatch(state.outputs) && Applied(state, changes, primary).1.Ok?
    ensures var (next, result) := Applied(state, changes, primary);
            var commit := result.value;
            && (id in commit.added <==> id !in state.outputs && id in next.outputs)
            && (id in commit.removed <==> id in state.outputs && id !in next.outputs)
            && (id in commit.changed <==>
                id in state.outputs && id in next.outputs && state.outputs[id] != next.outputs[id])
            && Increasing(commit.added) && Increasing(commit.removed) && Increasing(commit.changed)
  {
    AllOrNothing(state, changes, primary);
  }

  /** A commit is a no-op exactly when the state is the same before and after. */
  lemma {:induction false} NoopMeansNothingChanged(
    state: TopologyState, changes: seq<TopologyChange>, primary: Option<string>)
    requires KeysMatch(state.outputs) && Applied(state, changes, primary).1.Ok?
    ensures Applied(state, changes, primary).1.value.IsNoop() <==> Applied(state, changes, primary).0 == state
  {
    UnchangedMeansEqual(state.outputs, Staged(state.outputs, changes));
  }

  /**
   A commit leads from the state's epoch to the next state's. Unless nothing
   changed the epoch moves on by one, past the greatest number to one.
   */
  lemma {:induction false} CommitLeadsOn(state: TopologyState, changes: seq<TopologyChange>, primary: Option<string>)
    requires KeysMatch(state.outputs) && Applied(state, changes, primary).1.Ok?
    ensures var (next, result) := Applied(state, changes, primary);
            var commit := result.value;
            && commit.previousEpoch == state.epoch && commit.epoch == next.epoch
            && (next == state ==> commit.epoch == commit.previousEpoch)
            && (next != state ==>
                commit.epoch == if commit.previousEpoch == 0xFFFF_FFFF_FFFF_FFFF then 1 else commit.previousEpoch + 1)
  {
    UnchangedMeansEqual(state.outputs, Staged(state.outputs, changes));
  }

  /** A refused transaction's error explains why the staged outputs, in order, do not fit one after another. */
  lemma {:induction false} RefusedIsExplained(
    state: TopologyState, changes: seq<TopologyChange>, primary: Option<string>) returns (k: nat)
    requires Applied(state, changes, primary).1.Err?
    ensures ExplainedAt(Applied(state, changes, primary).1.error, Values(Staged(state.outputs, changes)), k)
  {
    k := RefusalIsExplained(Values(Staged(state.outputs, changes)));
  }

  // ---------- Snapshots ----------

  datatype Edges = Edges(left: real, top: real, right: real, bottom: real)

  predicate Scaled(outputs: seq<OutputSpec>) {
    forall o | o in outputs :: o.scale120 > 0
  }

  function EdgesOf(outputs: seq<OutputSpec>): Edges
    requires outputs != [] && Scaled(outputs)
  {
    var rect := outputs[|outputs| - 1].LogicalRectOf();
    if |outputs| == 1 then Edges(rect.x, rect.y, rect.Right(), rect.Bottom())
    else
      Widen(EdgesOf(outputs[..|outputs| - 1]), rect)
  }

  function Widen(e: Edges, rect: LogicalRect): Edges {
    Edges(if rect.x < e.left then rect.x else e.left,
          if rect.y < e.top then rect.y else e.top,
          if e.right < rect.Right() then rect.Right() else e.right,
          if e.bottom < rect.Bottom() then rect.Bottom() else e.bottom)
  }

  function BoundsOf(outputs: seq<OutputSpec>): Option<LogicalRect>
    requires Scaled(outputs)
  {
    if outputs == [] then None
    else
      var e := EdgesOf(outputs);
      Some(LogicalRect(e.left, e.top, e.right - e.left, e.bottom - e.top))
  }

  predicate Encloses(outer: LogicalRect, inner: LogicalRect) {
    && outer.x <= inner.x && inner.Right() <= outer.Right()
    && outer.y <= inner.y && inner.Bottom() <= outer.Bottom()
  }

  /** The bounds enclose every output, and no smaller rectangle does. */
  lemma {:induction false} BoundsAreLeast(outputs: seq<OutputSpec>, other: LogicalRect)
    requires outputs != [] && Scaled(outputs)
    ensures forall i | 0 <= i < |outputs| :: Encloses(BoundsOf(outputs).value, outputs[i].LogicalRectOf())
    ensures (forall i | 0 <= i < |outputs| :: Encloses(other, outputs[i].LogicalRectOf())) ==>
            Encloses(other, BoundsOf(outputs).value)
  {
    if |outputs| > 1 {
      var front := outputs[..|outputs| - 1];
      BoundsAreLeast(front, other);
      forall i | 0 <= i < |front|
        ensures Encloses(BoundsOf(outputs).value, outputs[i].LogicalRectOf())
        ensures Encloses(other, outputs[i].LogicalRectOf()) ==> Encloses(other, front[i].LogicalRectOf())
      {
        assert Encloses(BoundsOf(front).value, front[i].LogicalRectOf());
      }
    }
  }

  function FindNamed(outputs: seq<OutputSpec>, name: string): Option<OutputSpec> {
    if outputs == [] then None
    else if outputs[0].name == name then Some(outputs[0])
    else FindNamed(outputs[1..], name)
  }

  /** Orders outputs by refresh rate, and among equals prefers the smaller identifier. */
  predicate NoFaster(a: OutputSpec, b: OutputSpec) {
    a.refreshMillihz < b.refreshMillihz || (a.refreshMillihz == b.refreshMillihz && b.id <= a.id)
  }

  /** The last of the greatest outputs. */
  function Fastest(outputs: seq<OutputSpec>): Option<OutputSpec> {
    if outputs == [] then None
    else
      var last := outputs[|outputs| - 1];
      match Fastest(outputs[..|outputs| - 1])
      case None => Some(last)
      case Some(best) => if NoFaster(best, last) then Some(last) else Some(best)
  }

  function TickerOutput(outputs: seq<OutputSpec>, primary: Option<string>): Option<OutputSpec> {
    var named := if primary.Some? then FindNamed(outputs, primary.value) else None;
    if named.Some? then named else Fastest(outputs)
  }

  function TickerOf(outputs: seq<OutputSpec>, primary: Option<string>): Option<U64> {
    match TickerOutput(outputs, primary)
    case Some(output) => Some(output.id)
    case None => None
  }

  lemma {:induction false} FastestIsGreatest(outputs: seq<OutputSpec>)
    ensures Fastest(outputs).Some? <==> outputs != []
    ensures Fastest(outputs).Some? ==>
            && Fastest(outputs).value in outputs
            && forall o | o in outputs :: NoFaster(o, Fastest(outputs).value)
  {
    if outputs != [] {
      FastestIsGreatest(outputs[..|outputs| - 1]);
      assert outputs == outputs[..|outputs| - 1] + [outputs[|outputs| - 1]];
    }
  }

  lemma {:induction false} FindNamedFinds(outputs: seq<OutputSpec>, name: string)
    ensures FindNamed(outputs, name).None? <==> forall o | o in outputs :: o.name != name
    ensures FindNamed(outputs, name).Some? ==>
            FindNamed(outputs, name).value in outputs && FindNamed(outputs, name).value.name == name
  {
    if outputs != [] && outputs[0].name != name {
      FindNamedFinds(outputs[1..], name);
    }
  }

  predicate NamesOne(outputs: map<U64, OutputSpec>, primary: Option<string>) {
    primary.Some? && exists a | a in outputs :: outputs[a].name == primary.value
  }

  /** An output with the primary name, or if there is none, one faster than all others but for greater identifiers. */
  predicate IsTicker(outputs: map<U64, OutputSpec>, primary: Option<string>, id: U64) {
    && id in outputs
    && if NamesOne(outputs, primary) then outputs[id].name == primary.value
       else forall a | a in outputs ::
              || outputs[a].refreshMillihz < outputs[id].refreshMillihz
              || (outputs[a].refreshMillihz == outputs[id].refreshMillihz && id <= a)
  }

  lemma {:induction false} TickerIsUnique(outputs: map<U64, OutputSpec>, primary: Option<string>, a: U64, b: U64)
    requires ValidTopology(outputs) && IsTicker(outputs, primary, a) && b in outputs && b != a
    ensures !IsTicker(outputs, primary, b)
  {
    assert Compatible(outputs[a], outputs[b]);
  }

  lemma {:induction false} ChosenIsTicker(outputs: map<U64, OutputSpec>, primary: Option<string>)
    requires ValidTopology(outputs)
    ensures var chosen := TickerOf(Values(outputs), primary);
            if outputs == map[] then chosen.None? else chosen.Some? && IsTicker(outputs, primary, chosen.value)
  {
    var values := Values(outputs);
    ValuesAreTheMap(outputs);
    TickerOutputChoice(values, primary);
    assert values == [] <==> outputs == map[] by {
      if a :| a in outputs {
        assert outputs[a] in values;
      }
      if values != [] {
        assert values[0] in values;
      }
    }
    forall a | a in outputs ensures outputs[a] in values {
    }
  }

  lemma {:induction false} TickerIsChosen(outputs: map<U64, OutputSpec>, primary: Option<string>, id: U64)
    requires ValidTopology(outputs)
    ensures TickerOf(Values(outputs), primary) == Some(id) <==> IsTicker(outputs, primary, id)
  {
    ChosenIsTicker(outputs, primary);
    var chosen := TickerOf(Values(outputs), primary);
    if chosen.Some? && id in outputs && id != chosen.value {
      TickerIsUnique(outputs, primary, chosen.value, id);
    }
  }

  lemma {:induction false} ValuesAreTheMap(outputs: map<U64, OutputSpec>)
    requires KeysMatch(outputs)
    ensures forall o: OutputSpec :: o in Values(outputs) <==> o.id in outputs && outputs[o.id] == o
  {
    var ids, values := InOrder(outputs.Keys), Values(outputs);
    forall o: OutputSpec | o.id in outputs && outputs[o.id] == o ensures o in values {
      var i :| 0 <= i < |ids| && ids[i] == o.id;
      assert values[i] == o;
    }
  }

  lemma {:induction false} TickerOutputChoice(outputs: seq<OutputSpec>, primary: Option<string>)
    ensures var chosen := TickerOutput(outputs, primary);
            var named := primary.Some? && exists o | o in outputs :: o.name == primary.value;
            && (chosen.None? <==> outputs == [])
            && (chosen.Some? ==> chosen.value in outputs)
            && (named ==> chosen.Some? && chosen.value.name == primary.value)
            && (!named && chosen.Some? ==> forall o | o in outputs :: NoFaster(o, chosen.value))
  {
    FastestIsGreatest(outputs);
    if primary.Some? {
      FindNamedFinds(outputs, primary.value);
    }
  }

  function SnapshotOf(state: TopologyState): TopologySnapshot
    requires ValidTopology(state.outputs)
  {
    var outputs := Values(state.outputs);
    TopologySnapshot(state.epoch, BoundsOf(outputs), TickerOf(outputs, state.primaryOutput), outputs)
  }

  /**
   The ticker in a snapshot is the primary output when one has that name, and
   otherwise the fastest output, the smallest identifier among equals.
   */
  lemma {:induction false} TickerChoice(state: TopologyState, id: U64)
    requires ValidTopology(state.outputs)
    ensures SnapshotOf(state).ticker == Some(id) <==> IsTicker(state.outputs, state.primaryOutput, id)
    ensures SnapshotOf(state).ticker.None? <==> state.outputs == map[]
  {
    TickerIsChosen(state.outputs, state.primaryOutput, id);
    ChosenIsTicker(state.outputs, state.primaryOutput);
  }

  /** A snapshot has the state's epoch and lists exactly its outputs, by increasing identifier; bounds unless empty. */
  lemma {:induction false} SnapshotIsTheState(state: TopologyState, output: OutputSpec, i: nat, j: nat)
    requires ValidTopology(state.outputs)
    ensures var snapshot := SnapshotOf(state);
            && snapshot.epoch == state.epoch
            && (output in snapshot.outputs <==> output.id in state.outputs && state.outputs[output.id] == output)
            && (i < j < |snapshot.outputs| ==> snapshot.outputs[i].id < snapshot.outputs[j].id)
            && (snapshot.logicalBounds.Some? <==> state.outputs != map[])
  {
    var ids, outputs := InOrder(state.outputs.Keys), SnapshotOf(state).outputs;
    ValuesAreTheMap(state.outputs);
    if i < j < |outputs| {
      assert ids[i] in ids && ids[j] in ids;
    }
    if id :| id in state.outputs {
      assert id in ids;
    }
  }

  /** A snapshot's bounds enclose every output, and no smaller rectangle does. */
  lemma {:induction false} SnapshotBoundsAreLeast(state: TopologyState, other: LogicalRect)
    requires ValidTopology(state.outputs) && state.outputs != map[]
    ensures SnapshotOf(state).logicalBounds.Some? && Scaled(SnapshotOf(state).outputs)
    ensures var bounds, outputs := SnapshotOf(state).logicalBounds.value, SnapshotOf(state).outputs;
            && (forall i | 0 <= i < |outputs| :: Encloses(bounds, outputs[i].LogicalRectOf()))
            && ((forall i | 0 <= i < |outputs| :: Encloses(other, outputs[i].LogicalRectOf())) ==>
                Encloses(other, bounds))
  {
    var outputs := Values(state.outputs);
    var id :| id in state.outputs;
    SnapshotIsTheState(state, state.outputs[id], 0, 0);
    assert state.outputs[id] in outputs;
    BoundsAreLeast(outputs, other);
  }

  // ---------- The manager ----------

  /** The accumulators of the scan after the earlier outputs: their names and rectangles. */
  ghost predicate Tracks(names: set<string>, rects: seq<(string, LogicalRect)>, earlier: seq<OutputSpec>) {
    && Scaled(earlier)
    && (forall name :: name in names <==> exists e | e in earlier :: e.name == name)
    && |rects| == |earlier|
    && (forall k | 0 <= k < |earlier| :: rects[k] == (earlier[k].name, earlier[k].LogicalRectOf()))
  }

  lemma {:induction false} TracksGrow(
    names: set<string>, rects: seq<(string, LogicalRect)>, earlier: seq<OutputSpec>, output: OutputSpec)
    requires Tracks(names, rects, earlier) && output.scale120 > 0
    ensures Tracks(names + {output.name}, rects + [(output.name, output.LogicalRectOf())], earlier + [output])
  {
  }

  method ValidateOutputs(outputs: seq<OutputSpec>) returns (fault: Option<TopologyError>)
    ensures fault == FirstFault(outputs)
  {
    var names: set<string> := {};
    var rects: seq<(string, LogicalRect)> := [];
    for i := 0 to |outputs|
      invariant FirstFault(outputs[..i]).None?
      invariant Tracks(names, rects, outputs[..i])
    {
      var output := outputs[i];
      fault := CheckOutput(output, names, rects, outputs[..i]);
      ScanAdvances(outputs, i);
      if fault.Some? {
        FaultOfPrefix(outputs, i + 1);
        return;
      }
      TracksGrow(names, rects, outputs[..i], output);
      assert outputs[..i] + [output] == outputs[..i + 1];
      names := names + {output.name};
      rects := rects + [(output.name, output.LogicalRectOf())];
    }
    assert outputs[..|outputs|] == outputs;
    fault := None;
  }

  /** The body of the scan: the tests an output meets, in the order they are made. */
  method CheckOutput(
    output: OutputSpec, names: set<string>, rects: seq<(string, LogicalRect)>, ghost earlier: seq<OutputSpec>)
    returns (fault: Option<TopologyError>)
    requires Tracks(names, rects, earlier)
    ensures fault == OutputFault(earlier, output)
    ensures fault.None? ==> output.scale120 > 0
  {
    if Blank(output.name) {
      return Some(EmptyName(output.id));
    }
    if output.name in names {
      return Some(DuplicateName(output.name));
    }
    if output.mode.width == 0 || output.mode.height == 0 {
      return Some(EmptyMode(output.id));
    }
    if output.scale120 == 0 {
      return Some(InvalidScale(output.id));
    }
    if output.refreshMillihz == 0 {
      return Some(InvalidRefresh(output.id));
    }
    var rect := output.LogicalRectOf();
    if !InRange(rect) {
      return Some(CoordinateOverflow(output.id));
    }
    fault := FindOverlap(output, rect, rects, earlier);
  }

  method FindOverlap(
    output: OutputSpec, rect: LogicalRect, rects: seq<(string, LogicalRect)>, ghost earlier: seq<OutputSpec>)
    returns (fault: Option<TopologyError>)
    requires output.scale120 > 0 && rect == output.LogicalRectOf()
    requires Scaled(earlier) && |rects| == |earlier|
    requires forall k | 0 <= k < |earlier| :: rects[k] == (earlier[k].name, earlier[k].LogicalRectOf())
    ensures fault == OverlapFault(earlier, output)
  {
    for j := 0 to |rects|
      invariant OverlapFault(earlier, output) == OverlapFault(earlier[j..], output)
    {
      assert earlier[j..][0] == earlier[j] && earlier[j..][1..] == earlier[j + 1..];
      if RectsOverlap(rect, rects[j].1) {
        var otherName := rects[j].0;
        return Some(if NameBefore(output.name, otherName)
                    then OverlappingOutputs(output.name, otherName)
                    else OverlappingOutputs(otherName, output.name));
      }
    }
    fault := None;
  }

  lemma {:induction false} ScanAdvances(outputs: seq<OutputSpec>, i: nat)
    requires i < |outputs| && FirstFault(outputs[..i]).None?
    ensures Scaled(outputs[..i]) && FirstFault(outputs[..i + 1]) == OutputFault(outputs[..i], outputs[i])
  {
    assert outputs[..i + 1][..i] == outputs[..i];
  }

  lemma {:induction false} FaultOfPrefix(outputs: seq<OutputSpec>, n: nat)
    requires n <= |outputs|
    ensures FirstFault(outputs[..n]).Some? ==> FirstFault(outputs) == FirstFault(outputs[..n])
  {
    if n < |outputs| {
      var front := outputs[..|outputs| - 1];
      assert front[..n] == outputs[..n];
      FaultOfPrefix(front, n);
    } else {
      assert outputs[..n] == outputs;
    }
  }

  method LogicalBounds(outputs: seq<OutputSpec>) returns (bounds: Option<LogicalRect>)
    requires Scaled(outputs)
    ensures bounds == BoundsOf(outputs)
  {
    if outputs == [] {
      return None;
    }
    var first := outputs[0].LogicalRectOf();
    var left, top, right, bottom := first.x, first.y, first.Right(), first.Bottom();
    assert outputs[..1] == [outputs[0]];
    for i := 1 to |outputs|
      invariant EdgesOf(outputs[..i]) == Edges(left, top, right, bottom)
    {
      assert outputs[..i + 1][..i] == outputs[..i];
      var widened := Widen(Edges(left, top, right, bottom), outputs[i].LogicalRectOf());
      left, top, right, bottom := widened.left, widened.top, widened.right, widened.bottom;
    }
    assert outputs[..|outputs|] == outputs;
    bounds := Some(LogicalRect(left, top, right - left, bottom - top));
  }

  /** The changes made to a copy of the outputs, one after another. */
  method Stage(outputs: map<U64, OutputSpec>, changes: seq<TopologyChange>) returns (staged: map<U64, OutputSpec>)
    ensures staged == Staged(outputs, changes)
  {
    staged := outputs;
    for i := 0 to |changes|
      invariant staged == Staged(outputs, changes[..i])
    {
      assert changes[..i + 1][..i] == changes[..i];
      match changes[i] {
        case Upsert(output) => staged := staged[output.id := output];
        case Remove(id) => staged := staged - {id};
      }
    }
    assert changes[..|changes|] == changes;
  }

  class TopologyManager {
    var epoch: U64
    var outputs: map<U64, OutputSpec>
    var primaryOutput: Option<string>

    ghost function State(): TopologyState
      reads this
    {
      TopologyState(epoch, outputs, primaryOutput)
    }

    /** Every manager reachable from the empty one holds a valid topology. */
    ghost predicate Valid()
      reads this
    {
      ValidTopology(outputs)
    }

    constructor ()
      ensures Valid() && State() == INITIAL
    {
      epoch, outputs, primaryOutput := 0, map[], None;
    }

    method Apply(changes: seq<TopologyChange>) returns (result: Result<TopologyCommit, TopologyError>)
      requires Valid()
      modifies this
      ensures Valid()
      ensures (State(), result) == Applied(old(State()), changes, old(primaryOutput))
    {
      result := ApplyWithPrimaryOutput(changes, primaryOutput);
    }

    method ApplyWithPrimaryOutput(changes: seq<TopologyChange>, primary: Option<string>)
      returns (result: Result<TopologyCommit, TopologyError>)
      requires Valid()
      modifies this
      ensures Valid()
      ensures (State(), result) == Applied(old(State()), changes, primary)
    {
      AllOrNothing(State(), changes, primary);
      var previous := outputs;
      var staged := Stage(previous, changes);
      var fault := ValidateOutputs(Values(staged));
      if fault.Some? {
        return Err(fault.value);
      }
      var added := InOrder(staged.Keys - previous.Keys);
      var removed := InOrder(previous.Keys - staged.Keys);
      var changed := InOrder(set id | id in previous && id in staged && previous[id] != staged[id]);
      var previousEpoch := epoch;
      if added != [] || removed != [] || changed != [] || primaryOutput != primary {
        epoch := NextEpoch(epoch);
        outputs := staged;
        primaryOutput := primary;
      }
      result := Ok(TopologyCommit(previousEpoch, epoch, added, removed, changed));
    }

    method Snapshot() returns (snapshot: TopologySnapshot)
      requires Valid()
      ensures snapshot == SnapshotOf(State())
    {
      var values := Values(outputs);
      var bounds := LogicalBounds(values);
      snapshot := TopologySnapshot(epoch, bounds, TickerOf(values, primaryOutput), values);
    }
  }
}
