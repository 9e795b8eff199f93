/** The portal's cached snapshot, and the change signals its listeners live on. */
module PortalCaches {
  import opened Wrappers
  import opened PortalProtocol

  datatype ChangedSettings = ChangedSettings(colorScheme: bool, accentColor: bool)

  datatype Signal = ColorSchemeChanged(value: U32) | AccentChanged(color: AccentColor)

  /** The two settings a listener follows. */
  datatype Settings = Settings(colorScheme: U32, accent: AccentColor)

  function SettingsOf(s: ThemeSnapshot): Settings {
    Settings(s.colorScheme, s.accent)
  }

  /** An older revision changes nothing. */
  function Applied(cached: ThemeSnapshot, received: ThemeSnapshot): (ThemeSnapshot, ChangedSettings) {
    if received.revision < cached.revision then (cached, ChangedSettings(false, false))
    else (received, ChangedSettings(received.colorScheme != cached.colorScheme, received.accent != cached.accent))
  }

  function SignalsFor(changed: ChangedSettings, received: ThemeSnapshot): seq<Signal> {
    (if changed.colorScheme then [ColorSchemeChanged(received.colorScheme)] else [])
    + (if changed.accentColor then [AccentChanged(received.accent)] else [])
  }

  /** The cached snapshot after receiving updates in order, and everything emitted on the way. */
  function Cached(initial: ThemeSnapshot, received: seq<ThemeSnapshot>): ThemeSnapshot {
    if received == [] then initial
    else Applied(Cached(initial, received[..|received| - 1]), received[|received| - 1]).0
  }

  function Emitted(initial: ThemeSnapshot, received: seq<ThemeSnapshot>): seq<Signal> {
    if received == [] then []
    else
      var front, last := received[..|received| - 1], received[|received| - 1];
      Emitted(initial, front) + SignalsFor(Applied(Cached(initial, front), last).1, last)
  }

  /** What a listener believes after some signals. */
  function Heard(settings: Settings, signals: seq<Signal>): Settings {
    if signals == [] then settings
    else
      var before := Heard(settings, signals[..|signals| - 1]);
      match signals[|signals| - 1]
      case ColorSchemeChanged(value) => before.(colorScheme := value)
      case AccentChanged(color) => before.(accent := color)
  }

  class Cache {
    var snapshot: ThemeSnapshot

    constructor (initial: ThemeSnapshot)
      ensures snapshot == initial
    {
      snapshot := initial;
    }

    method ApplySnapshot(received: ThemeSnapshot) returns (changed: ChangedSettings)
      modifies this
      ensures (snapshot, changed) == Applied(old(snapshot), received)
    {
      if received.revision < snapshot.revision {
        return ChangedSettings(false, false);
      }
      changed := ChangedSettings(received.colorScheme != snapshot.colorScheme, received.accent != snapshot.accent);
      snapshot := received;
    }
  }

  /** How the update loop ends: the compositor disconnects, or a signal cannot be emitted. */
  datatype Ending = Disconnected | EmitFailed

  /**
   The update loop, on what the socket delivers before it disconnects. The
   emission numbered failing, if there are so many, fails and ends the loop,
   after its snapshot has been cached.
   */
  method ReceiveUpdates(cache: Cache, received: seq<ThemeSnapshot>, failing: Option<nat>)
    returns (signals: seq<Signal>, consumed: nat, ending: Ending)
    modifies cache
    ensures consumed <= |received| && cache.snapshot == Cached(old(cache.snapshot), received[..consumed])
    ensures ending.Disconnected? ==>
              && consumed == |received| && signals == Emitted(old(cache.snapshot), received)
              && (failing.Some? ==> |signals| <= failing.value)
    ensures ending.EmitFailed? ==>
              && failing.Some? && FailsAt(old(cache.snapshot), received, failing.value, consumed)
              && signals == Emitted(old(cache.snapshot), received[..consumed])[..failing.value]
  {
    ghost var initial := cache.snapshot;
    signals := [];
    for i := 0 to |received|
      invariant cache.snapshot == Cached(initial, received[..i])
      invariant signals == Emitted(initial, received[..i])
      invariant failing.Some? ==> |signals| <= failing.value
    {
      assert received[..i + 1][..i] == received[..i];
      ghost var before := signals;
      var changed := cache.ApplySnapshot(received[i]);
      ghost var news := SignalsFor(changed, received[i]);
      assert Emitted(initial, received[..i + 1]) == before + news;
      if changed.colorScheme {
        if failing == Some(|signals|) {
          return signals, i + 1, EmitFailed;
        }
        signals := signals + [ColorSchemeChanged(received[i].colorScheme)];
      }
      if changed.accentColor {
        if failing == Some(|signals|) {
          return signals, i + 1, EmitFailed;
        }
        signals := signals + [AccentChanged(received[i].accent)];
      }
      assert signals == before + news;
    }
    assert received[..|received|] == received;
    consumed, ending := |received|, Disconnected;
  }

  /** The emission numbered n belongs to the last of the snapshots consumed. */
  predicate FailsAt(initial: ThemeSnapshot, received: seq<ThemeSnapshot>, n: nat, consumed: nat) {
    && 0 < consumed <= |received|
    && |Emitted(initial, received[..consumed - 1])| <= n < |Emitted(initial, received[..consumed])|
  }

  // ---------- Which snapshot is cached ----------

  lemma {:induction false} RevisionNeverDecreases(initial: ThemeSnapshot, received: seq<ThemeSnapshot>, n: nat)
    requires n <= |received|
    ensures Cached(initial, received[..n]).revision <= Cached(initial, received).revision
  {
    if n == |received| {
      assert received[..n] == received;
    } else {
      var front := received[..|received| - 1];
      assert front[..n] == received[..n];
      RevisionNeverDecreases(initial, front, n);
    }
  }

  /** Snapshot k is the last to arrive of those with the highest revision. */
  predicate IsNewest(all: seq<ThemeSnapshot>, k: nat) {
    && k < |all|
    && (forall m | 0 <= m < k :: all[m].revision <= all[k].revision)
    && (forall m | k < m < |all| :: all[m].revision < all[k].revision)
  }

  lemma {:induction false} CachedIsNewest(initial: ThemeSnapshot, received: seq<ThemeSnapshot>) returns (k: nat)
    ensures IsNewest([initial] + received, k) && Cached(initial, received) == ([initial] + received)[k]
  {
    if received == [] {
      k := 0;
    } else {
      var front, last := received[..|received| - 1], received[|received| - 1];
      assert [initial] + received == [initial] + front + [last];
      k := CachedIsNewest(initial, front);
      if last.revision >= Cached(initial, front).revision {
        NewerIsNewest([initial] + front, k, last);
        k := |received|;
      } else {
        OlderIsNotNewest([initial] + front, k, last);
      }
    }
  }

  lemma {:induction false} NewerIsNewest(all: seq<ThemeSnapshot>, k: nat, last: ThemeSnapshot)
    requires IsNewest(all, k) && all[k].revision <= last.revision
    ensures IsNewest(all + [last], |all|)
  {
    forall m | 0 <= m < |all| ensures (all + [last])[m].revision <= last.revision {
      assert all[m].revision <= all[k].revision;
    }
  }

  lemma {:induction false} OlderIsNotNewest(all: seq<ThemeSnapshot>, k: nat, last: ThemeSnapshot)
    requires IsNewest(all, k) && last.revision < all[k].revision
    ensures IsNewest(all + [last], k)
  {
  }

  lemma {:induction false} NewestIsUnique(all: seq<ThemeSnapshot>, k: nat, l: nat)
    requires IsNewest(all, k) && l < |all| && l != k
    ensures !IsNewest(all, l)
  {
    if l < k {
      assert all[l].revision <= all[k].revision;
    } else {
      assert all[l].revision < all[k].revision;
    }
  }

  /** The cache holds exactly the last-arriving snapshot of maximal revision, the initial one included. */
  lemma {:induction false} CacheHoldsTheNewest(initial: ThemeSnapshot, received: seq<ThemeSnapshot>, k: nat)
    requires IsNewest([initial] + received, k)
    ensures Cached(initial, received) == ([initial] + received)[k]
  {
    var l := CachedIsNewest(initial, received);
    if l != k {
      NewestIsUnique([initial] + received, k, l);
    }
  }

  // ---------- Signals suffice ----------

  lemma {:induction false} HeardConcat(settings: Settings, first: seq<Signal>, second: seq<Signal>)
    ensures Heard(settings, first + second) == Heard(Heard(settings, first), second)
  {
    if second == [] {
      assert first + second == first;
    } else {
      assert (first + second)[..|first + second| - 1] == first + second[..|second| - 1];
      HeardConcat(settings, first, second[..|second| - 1]);
    }
  }

  /** One update: its signals take a listener from the old settings to the new. */
  lemma {:induction false} UpdateIsHeard(cached: ThemeSnapshot, received: ThemeSnapshot)
    ensures var (next, changed) := Applied(cached, received);
            Heard(SettingsOf(cached), SignalsFor(changed, received)) == SettingsOf(next)
  {
    var changed := Applied(cached, received).1;
    var scheme := if changed.colorScheme then [ColorSchemeChanged(received.colorScheme)] else [];
    var accent := if changed.accentColor then [AccentChanged(received.accent)] else [];
    HeardConcat(SettingsOf(cached), scheme, accent);
    assert scheme != [] ==> scheme[..0] == [];
    assert accent != [] ==> accent[..0] == [];
  }

  /** A listener that starts from the initial settings and follows only the signals always knows the cached ones. */
  lemma {:induction false} ListenersKnowTheCache(initial: ThemeSnapshot, received: seq<ThemeSnapshot>)
    ensures Heard(SettingsOf(initial), Emitted(initial, received)) == SettingsOf(Cached(initial, received))
  {
    if received != [] {
      var front, last := received[..|received| - 1], received[|received| - 1];
      ListenersKnowTheCache(initial, front);
      HeardConcat(SettingsOf(initial), Emitted(initial, front),
                  SignalsFor(Applied(Cached(initial, front), last).1, last));
      UpdateIsHeard(Cached(initial, front), last);
    }
  }

  /**
   When an emission fails its listeners are behind the cache: they know the
   settings before the last update, or those with its colour scheme alone.
   */
  lemma {:induction false} FailedEmitLeavesListenersBehind(
    initial: ThemeSnapshot, received: seq<ThemeSnapshot>, n: nat, consumed: nat)
    requires FailsAt(initial, received, n, consumed)
    ensures var heard := Heard(SettingsOf(initial), Emitted(initial, received[..consumed])[..n]);
            var before := SettingsOf(Cached(initial, received[..consumed - 1]));
            var after := SettingsOf(Cached(initial, received[..consumed]));
            heard != after && (heard == before || heard == before.(colorScheme := after.colorScheme))
  {
    var front, last := received[..consumed - 1], received[consumed - 1];
    assert received[..consumed][..consumed - 1] == front;
    var cached, emitted := Cached(initial, front), Emitted(initial, front);
    var news := SignalsFor(Applied(cached, last).1, last);
    var i := n - |emitted|;
    assert Emitted(initial, received[..consumed])[..n] == emitted + news[..i];
    ListenersKnowTheCache(initial, front);
    HeardConcat(SettingsOf(initial), emitted, news[..i]);
    PartOfUpdate(cached, last, i);
  }

  lemma {:induction false} PartOfUpdate(cached: ThemeSnapshot, received: ThemeSnapshot, i: nat)
    requires i < |SignalsFor(Applied(cached, received).1, received)|
    ensures var (next, changed) := Applied(cached, received);
            var heard := Heard(SettingsOf(cached), SignalsFor(changed, received)[..i]);
            && heard != SettingsOf(next)
            && (heard == SettingsOf(cached) || heard == SettingsOf(cached).(colorScheme := next.colorScheme))
  {
    var signals := SignalsFor(Applied(cached, received).1, received);
    if i == 0 {
      assert signals[..0] == [];
    } else {
      assert signals[..1][..0] == [] && signals[..1] == [ColorSchemeChanged(received.colorScheme)];
    }
  }

  lemma {:induction false} UpdateIsNews(cached: ThemeSnapshot, received: ThemeSnapshot, i: nat)
    requires i < |SignalsFor(Applied(cached, received).1, received)|
    ensures var signals := SignalsFor(Applied(cached, received).1, received);
            Heard(SettingsOf(cached), signals[..i + 1]) != Heard(SettingsOf(cached), signals[..i])
  {
    var signals := SignalsFor(Applied(cached, received).1, received);
    assert signals[..i + 1][..i] == signals[..i];
    if i == 1 {
      assert signals[..1][..0] == [];
    }
  }

  /** No signal is idle: each tells its listener something new. */
  lemma {:induction false} SignalsAreNews(initial: ThemeSnapshot, received: seq<ThemeSnapshot>, i: nat)
    requires i < |Emitted(initial, received)|
    ensures var signals := Emitted(initial, received);
            Heard(SettingsOf(initial), signals[..i + 1]) != Heard(SettingsOf(initial), signals[..i])
  {
    var front, last := received[..|received| - 1], received[|received| - 1];
    var before, cached := Emitted(initial, front), Cached(initial, front);
    var signals, news := Emitted(initial, received), SignalsFor(Applied(cached, last).1, last);
    assert signals == before + news;
    if i < |before| {
      SignalsAreNews(initial, front, i);
      assert signals[..i] == before[..i] && signals[..i + 1] == before[..i + 1];
    } else {
      var j := i - |before|;
      assert signals[..i] == before + news[..j] && signals[..i + 1] == before + news[..j + 1];
      ListenersKnowTheCache(initial, front);
      HeardConcat(SettingsOf(initial), before, news[..j]);
      HeardConcat(SettingsOf(initial), before, news[..j + 1]);
      UpdateIsNews(cached, last, j);
    }
  }
}
