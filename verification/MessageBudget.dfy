/** The quota of in-flight platform messages, under every interleaving of its atomic operations. */
module MessageBudgets {
  import opened Wrappers

  const MAX_BYTES: nat := 16 * 1024 * 1024
  const MAX_MESSAGES: nat := 256

  /** Where one message is between asking for a permit and having dropped it. */
  datatype Phase =
    | Asking(bytes: nat)
    | Counted(bytes: nat)   // its message is counted, its bytes are not
    | RollingBack           // its bytes were refused, its message is still counted
    | Refused
    | Held(bytes: nat)      // a permit
    | Dropping              // its bytes are released, its message is still counted
    | Dropped

  datatype Budget = Budget(messages: int, bytes: int, phases: seq<Phase>)

  const EMPTY := Budget(0, 0, [])

  /** What a phase contributes to each counter. */
  function Messages(p: Phase): nat {
    if p.Counted? || p.RollingBack? || p.Held? || p.Dropping? then 1 else 0
  }

  function Bytes(p: Phase): nat {
    if p.Held? then p.bytes else 0
  }

  function TotalMessages(phases: seq<Phase>): nat {
    if phases == [] then 0 else TotalMessages(phases[..|phases| - 1]) + Messages(phases[|phases| - 1])
  }

  function TotalBytes(phases: seq<Phase>): nat {
    if phases == [] then 0 else TotalBytes(phases[..|phases| - 1]) + Bytes(phases[|phases| - 1])
  }

  // ---------- Atomic steps ----------

  datatype Action =
    | Ask(bytes: nat)   // another message asks for a permit
    | Proceed(i: nat)   // message i makes its next atomic operation

  function Moved(b: Budget, i: nat, messages: int, bytes: int, p: Phase): Budget
    requires i < |b.phases|
  {
    Budget(b.messages + messages, b.bytes + bytes, b.phases[i := p])
  }

  function Step(b: Budget, action: Action): Option<Budget> {
    match action
    case Ask(bytes) => Some(b.(phases := b.phases + [Asking(bytes)]))
    case Proceed(i) =>
      if i >= |b.phases| then None
      else
        match b.phases[i]
        case Asking(bytes) =>
          if bytes > MAX_BYTES || b.messages >= MAX_MESSAGES then Some(Moved(b, i, 0, 0, Refused))
          else Some(Moved(b, i, 1, 0, Counted(bytes)))
        case Counted(bytes) =>
          if b.bytes + bytes > U64_MAX || b.bytes + bytes > MAX_BYTES then Some(Moved(b, i, 0, 0, RollingBack))
          else Some(Moved(b, i, 0, bytes, Held(bytes)))
        case RollingBack => Some(Moved(b, i, -1, 0, Refused))
        case Held(bytes) => Some(Moved(b, i, 0, 0 - bytes as int, Dropping))
        case Dropping => Some(Moved(b, i, -1, 0, Dropped))
        case Refused => None
        case Dropped => None
  }

  predicate IsRun(budgets: seq<Budget>, actions: seq<Action>) {
    && |budgets| == |actions| + 1
    && budgets[0] == EMPTY
    && forall i | 0 <= i < |actions| :: StepAt(budgets, actions, i)
  }

  predicate StepAt(budgets: seq<Budget>, actions: seq<Action>, i: nat)
    requires |budgets| == |actions| + 1 && i < |actions|
  {
    Step(budgets[i], actions[i]) == Some(budgets[i + 1])
  }

  // ---------- The invariant ----------

  predicate Balanced(b: Budget) {
    && b.messages == TotalMessages(b.phases) <= MAX_MESSAGES
    && b.bytes == TotalBytes(b.phases) <= MAX_BYTES
  }

  lemma {:induction false} TotalsAfter(phases: seq<Phase>, i: nat, p: Phase)
    requires i < |phases|
    ensures TotalMessages(phases[i := p]) == TotalMessages(phases) - Messages(phases[i]) + Messages(p)
    ensures TotalBytes(phases[i := p]) == TotalBytes(phases) - Bytes(phases[i]) + Bytes(p)
  {
    var last := |phases| - 1;
    if i < last {
      assert phases[i := p][..last] == phases[..last][i := p];
      TotalsAfter(phases[..last], i, p);
    } else {
      assert phases[i := p][..last] == phases[..last];
    }
  }

  /** Each message is part of the totals. */
  lemma {:induction false} PartOfTotals(phases: seq<Phase>, i: nat)
    requires i < |phases|
    ensures Messages(phases[i]) <= TotalMessages(phases) && Bytes(phases[i]) <= TotalBytes(phases)
  {
    if i < |phases| - 1 {
      PartOfTotals(phases[..|phases| - 1], i);
    }
  }

  lemma {:induction false} StepKeepsBalance(b: Budget, action: Action, c: Budget)
    requires Balanced(b) && Step(b, action) == Some(c)
    ensures Balanced(c)
  {
    match action
    case Ask(_) => assert c.phases[..|b.phases|] == b.phases;
    case Proceed(i) => TotalsAfter(b.phases, i, c.phases[i]);
  }

  /**
   Under every interleaving the counters are exactly what the messages account
   for: never over quota, never below zero, and a refused message, like a
   dropped one, accounts for nothing.
   */
  lemma {:induction false} QuotaIsKept(budgets: seq<Budget>, actions: seq<Action>, i: nat)
    requires IsRun(budgets, actions) && i < |budgets|
    ensures Balanced(budgets[i])
    ensures 0 <= budgets[i].messages <= 256 && 0 <= budgets[i].bytes <= 0x100_0000
  {
    if i > 0 {
      QuotaIsKept(budgets, actions, i - 1);
      assert StepAt(budgets, actions, i - 1);
      StepKeepsBalance(budgets[i - 1], actions[i - 1], budgets[i]);
    }
  }

  /** No atomic subtraction takes more than its counter holds. */
  lemma {:induction false} SubtractionsAreCovered(budgets: seq<Budget>, actions: seq<Action>, i: nat, m: nat)
    requires IsRun(budgets, actions) && i < |budgets| && m < |budgets[i].phases|
    ensures budgets[i].phases[m].RollingBack? || budgets[i].phases[m].Dropping? ==> budgets[i].messages >= 1
    ensures budgets[i].phases[m].Held? ==> budgets[i].bytes >= budgets[i].phases[m].bytes
  {
    QuotaIsKept(budgets, actions, i);
    PartOfTotals(budgets[i].phases, m);
  }

  predicate Settled(p: Phase) {
    p.Refused? || p.Held? || p.Dropped?
  }

  function Permits(phases: seq<Phase>): nat {
    if phases == [] then 0 else Permits(phases[..|phases| - 1]) + if phases[|phases| - 1].Held? then 1 else 0
  }

  lemma {:induction false} SettledMessagesArePermits(phases: seq<Phase>)
    requires forall i | 0 <= i < |phases| :: Settled(phases[i])
    ensures TotalMessages(phases) == Permits(phases)
  {
    if phases != [] {
      SettledMessagesArePermits(phases[..|phases| - 1]);
    }
  }

  /** Once no call is in the middle of its operations, the counters are the permits held and their bytes. */
  lemma {:induction false} SettledCountersArePermits(budgets: seq<Budget>, actions: seq<Action>, i: nat)
    requires IsRun(budgets, actions) && i < |budgets|
    requires forall m | 0 <= m < |budgets[i].phases| :: Settled(budgets[i].phases[m])
    ensures budgets[i].messages == Permits(budgets[i].phases) && budgets[i].bytes == TotalBytes(budgets[i].phases)
  {
    QuotaIsKept(budgets, actions, i);
    SettledMessagesArePermits(budgets[i].phases);
  }

  /** Why a message is refused: it is too big, or the messages, or the bytes of the permits held, leave no room. */
  lemma {:induction false} RefusalsAreExact(
    budgets: seq<Budget>, actions: seq<Action>, i: nat, b: Budget, m: nat, before: Phase, after: Budget)
    requires IsRun(budgets, actions) && i < |budgets| && b == budgets[i]
    requires m < |b.phases| && before == b.phases[m] && Step(b, Proceed(m)) == Some(after)
    ensures |after.phases| == |b.phases|
    ensures before.Asking? ==>
              (after.phases[m].Refused? <==> before.bytes > 0x100_0000 || TotalMessages(b.phases) == 256)
    ensures before.Counted? ==>
              (after.phases[m].RollingBack? <==> TotalBytes(b.phases) + before.bytes > 0x100_0000)
  {
    QuotaIsKept(budgets, actions, i);
  }

  // ---------- The calls, made one after another ----------

  class PlatformMessageBudget {
    var messages: nat
    var bytes: nat
    ghost var permits: seq<nat>

    ghost predicate Valid()
      reads this
    {
      && messages == |permits| <= MAX_MESSAGES
      && bytes == Sum(permits) <= MAX_BYTES
    }

    constructor ()
      ensures Valid() && permits == []
    {
      messages, bytes, permits := 0, 0, [];
    }

    /** A permit is given exactly when both quotas have room; otherwise nothing changes. */
    method TryAcquire(size: nat) returns (acquired: bool)
      requires Valid()
      modifies this
      ensures Valid()
      ensures acquired <==> |old(permits)| < 256 && Sum(old(permits)) + size <= 0x100_0000
      ensures permits == if acquired then old(permits) + [size] else old(permits)
    {
      if size > MAX_BYTES {
        return false;
      }
      if messages >= MAX_MESSAGES {
        return false;
      }
      messages := messages + 1;
      if bytes + size > MAX_BYTES {
        messages := messages - 1;
        return false;
      }
      bytes := bytes + size;
      assert (permits + [size])[..|permits|] == permits;
      permits := permits + [size];
      acquired := true;
    }

    /** Dropping a permit gives back its bytes, then its message. */
    method DropPermit(ghost i: nat, size: nat)
      requires Valid() && i < |permits| && permits[i] == size
      modifies this
      ensures Valid() && permits == old(permits[..i] + permits[i + 1..])
    {
      SumWithout(permits, i);
      bytes := bytes - size;
      messages := messages - 1;
      permits := permits[..i] + permits[i + 1..];
    }
  }

  function Sum(sizes: seq<nat>): nat {
    if sizes == [] then 0 else Sum(sizes[..|sizes| - 1]) + sizes[|sizes| - 1]
  }

  lemma {:induction false} SumWithout(sizes: seq<nat>, i: nat)
    requires i < |sizes|
    ensures Sum(sizes) == Sum(sizes[..i] + sizes[i + 1..]) + sizes[i]
  {
    var last := |sizes| - 1;
    if i < last {
      SumWithout(sizes[..last], i);
      assert (sizes[..i] + sizes[i + 1..])[..last - 1] == sizes[..last][..i] + sizes[..last][i + 1..];
    } else {
      assert sizes[..i] + sizes[i + 1..] == sizes[..last];
    }
  }
}
