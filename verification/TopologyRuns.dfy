/** Whole runs of transactions: which states are reachable, and what an epoch identifies. */
module TopologyRuns {
  import opened Wrappers
  import opened Topology
  import opened TopologyManagement

  /** One transaction, accepted or refused, takes a state to the next. */
  ghost predicate Transaction(before: TopologyState, after: TopologyState) {
    exists changes, primary :: after == Applied(before, changes, primary).0
  }

  /** The states of a manager from the empty one on, one transaction after another. */
  ghost predicate IsRun(states: seq<TopologyState>) {
    && states != []
    && states[0] == INITIAL
    && forall i | 0 < i < |states| :: Transaction(states[i - 1], states[i])
  }

  lemma {:induction false} ReachableIsValid(states: seq<TopologyState>, i: nat)
    requires IsRun(states) && i < |states|
    ensures ValidTopology(states[i].outputs)
  {
    if i > 0 {
      ReachableIsValid(states, i - 1);
      TransactionKeepsValidity(states[i - 1], states[i]);
    }
  }

  lemma {:induction false} TransactionKeepsValidity(before: TopologyState, after: TopologyState)
    requires ValidTopology(before.outputs) && Transaction(before, after)
    ensures ValidTopology(after.outputs)
  {
    var changes, primary :| after == Applied(before, changes, primary).0;
    AllOrNothing(before, changes, primary);
  }

  /** A state stays as it is or moves on with the next epoch. */
  predicate Moves(before: TopologyState, after: TopologyState) {
    after == before || after.epoch == NextEpoch(before.epoch)
  }

  predicate Moving(states: seq<TopologyState>) {
    && states != []
    && states[0].epoch == 0
    && forall i | 0 < i < |states| :: Moves(states[i - 1], states[i])
  }

  lemma {:induction false} TransactionMoves(before: TopologyState, after: TopologyState)
    requires Transaction(before, after)
    ensures Moves(before, after)
  {
  }

  lemma {:induction false} RunMoves(states: seq<TopologyState>)
    requires IsRun(states)
    ensures Moving(states)
  {
    forall i | 0 < i < |states| ensures Moves(states[i - 1], states[i]) {
      TransactionMoves(states[i - 1], states[i]);
    }
  }

  /** How many transactions took effect before state i. */
  function Effective(states: seq<TopologyState>, i: nat): nat
    requires i < |states|
  {
    if i == 0 then 0
    else Effective(states, i - 1) + if states[i] == states[i - 1] then 0 else 1
  }

  /** The epoch after n effective commits. */
  function EpochAfter(n: nat): U64 {
    if n == 0 then 0 else NextEpoch(EpochAfter(n - 1))
  }

  /** It is 0 for none, and then runs from 1 to U64_MAX over and over. */
  lemma {:induction false} EpochClosedForm(n: nat)
    requires n > 0
    ensures EpochAfter(n) == (n - 1) % U64_MAX + 1
  {
    if n > 1 {
      EpochClosedForm(n - 1);
      NextModulo(n - 2);
    }
  }

  lemma {:induction false} NextModulo(n: nat)
    ensures NextEpoch(n % U64_MAX + 1) == (n + 1) % U64_MAX + 1
  {
    var q, r := n / U64_MAX, n % U64_MAX;
    assert n == q * U64_MAX + r;
    if r == U64_MAX - 1 {
      ModUnique(n + 1, q + 1, 0);
    } else {
      ModUnique(n + 1, q, r + 1);
    }
  }

  lemma {:induction false} ModUnique(n: nat, q: nat, r: nat)
    requires n == q * U64_MAX + r && r < U64_MAX
    ensures n % U64_MAX == r
  {
  }

  lemma {:induction false} EpochCountsCommits(states: seq<TopologyState>, i: nat)
    requires Moving(states) && i < |states|
    ensures states[i].epoch == EpochAfter(Effective(states, i))
  {
    if i > 0 {
      EpochCountsCommits(states, i - 1);
      assert Moves(states[i - 1], states[i]);
      assert states[i] != states[i - 1] ==> states[i].epoch == NextEpoch(states[i - 1].epoch);
    }
  }

  /** Between two points of a run with the same number of effective commits nothing changed. */
  lemma {:induction false} SameCountSameState(states: seq<TopologyState>, i: nat, j: nat)
    requires i <= j < |states|
    ensures Effective(states, i) <= Effective(states, j)
    ensures Effective(states, i) == Effective(states, j) ==> states[i] == states[j]
  {
    if i < j {
      SameCountSameState(states, i, j - 1);
    }
  }

  /**
   The epoch as a generation key, without any bound on the run: a later state
   carries an earlier state's epoch exactly when nothing took effect in between,
   or the counter went round a whole number of times.
   */
  lemma {:induction false} EpochCollisions(states: seq<TopologyState>, i: nat, j: nat)
    requires IsRun(states) && i <= j < |states|
    ensures Effective(states, i) <= Effective(states, j)
    ensures states[i].epoch == states[j].epoch <==> Collide(Effective(states, i), Effective(states, j))
  {
    RunMoves(states);
    SameCountSameState(states, i, j);
    EpochCountsCommits(states, i);
    EpochCountsCommits(states, j);
    EqualEpochs(Effective(states, i), Effective(states, j));
  }

  predicate Collide(m: nat, n: nat)
    requires m <= n
  {
    m == n || (m > 0 && (n - m) % U64_MAX == 0)
  }

  lemma {:induction false} EqualEpochs(m: nat, n: nat)
    requires m <= n
    ensures EpochAfter(m) == EpochAfter(n) <==> Collide(m, n)
  {
    if 0 == m < n {
      EpochClosedForm(n);
    }
    if 0 < m {
      EpochClosedForm(m);
      EpochClosedForm(n);
      DifferenceWraps(m - 1, n - 1);
    }
  }

  lemma {:induction false} DifferenceWraps(a: nat, b: nat)
    requires a <= b
    ensures a % U64_MAX == b % U64_MAX <==> (b - a) % U64_MAX == 0
  {
    var p, q := a / U64_MAX, b / U64_MAX;
    var r, s := a % U64_MAX, b % U64_MAX;
    assert a == p * U64_MAX + r && b == q * U64_MAX + s;
    if r <= s {
      assert b - a == (q - p) * U64_MAX + (s - r);
      ModUnique(b - a, q - p, s - r);
    } else {
      assert b - a == (q - p - 1) * U64_MAX + (U64_MAX + s - r);
      ModUnique(b - a, q - p - 1, U64_MAX + s - r);
    }
  }

  /** Within one round of the counter only equal counts collide. */
  lemma CollideWithinARound(m: nat, n: nat)
    requires m <= n <= U64_MAX
    ensures Collide(m, n) <==> m == n
  {
    if m > 0 {
      ModUnique(n - m, 0, n - m);
    }
  }

  /** Between two points of a run with at most one round of commits, equal epochs mean nothing changed. */
  lemma {:induction false} EqualEpochsEqualStates(states: seq<TopologyState>, i: nat, j: nat, m: nat, n: nat)
    requires IsRun(states) && i <= j < |states| && n <= U64_MAX
    requires m == Effective(states, i) && n == Effective(states, j)
    ensures states[i].epoch == states[j].epoch <==> states[i] == states[j]
  {
    SameCountSameState(states, i, j);
    EpochCollisions(states, i, j);
    CollideWithinARound(m, n);
  }

  /** Along a run of fewer than 2^64 effective commits, equal epochs mean equal snapshots. */
  lemma {:induction false} EpochIsAGenerationKey(states: seq<TopologyState>, i: nat, j: nat)
    requires IsRun(states) && i <= j < |states| && Effective(states, j) <= U64_MAX
    ensures states[i].epoch == states[j].epoch <==> states[i] == states[j]
    ensures ValidTopology(states[i].outputs) && ValidTopology(states[j].outputs)
    ensures states[i].epoch == states[j].epoch ==> SnapshotOf(states[i]) == SnapshotOf(states[j])
  {
    ReachableIsValid(states, i);
    ReachableIsValid(states, j);
    EqualEpochsEqualStates(states, i, j, Effective(states, i), Effective(states, j));
  }
}
