/** The portal's records byte by byte: what they spell, and why a record is rejected. */
module PortalRecords {
  import opened Wrappers
  import opened PortalProtocol

  // ---------- Numbers at their places ----------

  function Two(b: seq<U8>, at: nat): nat
    requires at + 2 <= |b|
  {
    var low: nat, high: nat := b[at], b[at + 1];
    low + 0x100 * high
  }

  function Four(b: seq<U8>, at: nat): nat
    requires at + 4 <= |b|
  {
    Two(b, at) + 0x1_0000 * Two(b, at + 2)
  }

  function Eight(b: seq<U8>, at: nat): nat
    requires at + 8 <= |b|
  {
    Four(b, at) + 0x1_0000_0000 * Four(b, at + 4)
  }

  /** The number of some bytes is that of the low ones plus that of the high ones, moved up. */
  lemma {:induction false} NumberSplits(low: seq<U8>, high: seq<U8>)
    ensures FromLittleEndian(low + high) == FromLittleEndian(low) + Limit(|low|) * FromLittleEndian(high)
  {
    if low == [] {
      assert low + high == high;
    } else {
      assert (low + high)[1..] == low[1..] + high;
      NumberSplits(low[1..], high);
      MoveUp(FromLittleEndian(low[1..]), Limit(|low| - 1), FromLittleEndian(high));
    }
  }

  lemma MoveUp(rest: nat, limit: nat, above: nat)
    ensures 256 * (rest + limit * above) == 256 * rest + (256 * limit) * above
  {
  }

  lemma {:induction false} TwoIsRead(b: seq<U8>, at: nat)
    requires at + 2 <= |b|
    ensures FromLittleEndian(b[at..at + 2]) == Two(b, at)
  {
    var pair := b[at..at + 2];
    assert pair[1..] == [b[at + 1]] && pair[1..][1..] == [];
    assert FromLittleEndian(pair[1..]) == b[at + 1];
  }

  lemma {:induction false} FourIsRead(b: seq<U8>, at: nat)
    requires at + 4 <= |b|
    ensures FromLittleEndian(b[at..at + 4]) == Four(b, at)
  {
    Limits();
    TwoIsRead(b, at);
    TwoIsRead(b, at + 2);
    NumberSplits(b[at..at + 2], b[at + 2..at + 4]);
    assert b[at..at + 4] == b[at..at + 2] + b[at + 2..at + 4];
  }

  lemma {:induction false} EightIsRead(b: seq<U8>, at: nat)
    requires at + 8 <= |b|
    ensures FromLittleEndian(b[at..at + 8]) == Eight(b, at)
  {
    Limits();
    FourIsRead(b, at);
    FourIsRead(b, at + 4);
    NumberSplits(b[at..at + 4], b[at + 4..at + 8]);
    assert b[at..at + 8] == b[at..at + 4] + b[at + 4..at + 8];
  }

  // ---------- What a record spells ----------

  /** "DENIALP" and a zero byte. */
  predicate HasMagic(b: seq<U8>) {
    |b| >= 16 && b[..8] == [68, 69, 78, 73, 65, 76, 80, 0]
  }

  predicate HasVersion(b: seq<U8>) {
    HasMagic(b) && Two(b, 8) == 2
  }

  /** The length announced is the payload's, at most twenty. */
  predicate HasLength(b: seq<U8>) {
    HasVersion(b) && Four(b, 12) <= 20 && |b| == 16 + Four(b, 12)
  }

  predicate IsTheme(b: seq<U8>) {
    HasLength(b) && Two(b, 10) == 2 && |b| == 36
  }

  /** The numbers of the preferences, on the wire and in the portal, and the brightness each has. */
  predicate HasNumber(p: Preference, n: nat) {
    (p.NoPreference? <==> n == 0) && (p.PreferDark? <==> n == 1) && (p.PreferLight? <==> n == 2)
  }

  predicate HasBrightness(brightness: Brightness, n: nat) {
    (brightness.Dark? <==> n == 0) && (brightness.Light? <==> n == 1)
  }

  /** The record says this, whatever its padding. */
  predicate Spells(b: seq<U8>, s: ThemeSnapshot) {
    && IsTheme(b)
    && Eight(b, 16) == s.revision
    && HasNumber(s.preference, b[24]) && HasBrightness(s.brightness, b[25])
    && Four(b, 26) == s.colorScheme
    && s.accent == AccentColor(b[30], b[31], b[32])
  }

  /** Light exactly if light is preferred, and the portal's number is the preference's. */
  predicate Agrees(s: ThemeSnapshot) {
    (s.brightness.Light? <==> s.preference.PreferLight?) && HasNumber(s.preference, s.colorScheme)
  }

  lemma {:induction false} AgreesIsConsistent(s: ThemeSnapshot)
    ensures Agrees(s) <==> s.Consistent()
  {
  }

  lemma {:induction false} HeaderIsRead(b: seq<U8>)
    ensures DecodeHeader(b).Ok? <==> HasLength(b)
    ensures HasLength(b) ==> DecodeHeader(b) == Ok((Two(b, 10), b[16..]))
  {
    if |b| >= 16 {
      TwoIsRead(b, 8);
      TwoIsRead(b, 10);
      FourIsRead(b, 12);
    }
  }

  /** The numbers of a theme's payload, as the decoder reads them. */
  lemma {:induction false} PayloadIsRead(b: seq<U8>)
    requires |b| == 36
    ensures FromLittleEndian(b[16..][..8]) == Eight(b, 16) && FromLittleEndian(b[16..][10..14]) == Four(b, 26)
  {
    EightIsRead(b, 16);
    FourIsRead(b, 26);
    assert b[16..][..8] == b[16..24] && b[16..][10..14] == b[26..30];
  }

  /** A record is accepted, as this snapshot, exactly if it spells it and its fields agree with each other. */
  lemma {:induction false} AcceptsWhatIsSpelled(b: seq<U8>, s: ThemeSnapshot)
    ensures DecodeServerMessage(b) == Ok(Theme(s)) <==> Spells(b, s) && s.revision != 0 && Agrees(s)
  {
    HeaderIsRead(b);
    if |b| == 36 {
      PayloadIsRead(b);
    }
  }

  lemma {:induction false} EncodedIsTheme(s: ThemeSnapshot, b: seq<U8>)
    requires b == ServerBytes(Theme(s))
    ensures IsTheme(b) && b[16..] == FieldsOf(s) + [0, 0, 0]
  {
    assert b == HeaderOf(KIND_THEME, PAYLOAD_BYTES) + (FieldsOf(s) + [0, 0, 0]);
    HeaderIsReadAsWritten(b, KIND_THEME, b[16..]);
    HeaderIsRead(b);
  }

  lemma {:induction false} EncodedNumbers(s: ThemeSnapshot, payload: seq<U8>)
    requires payload == FieldsOf(s) + [0, 0, 0]
    ensures FromLittleEndian(payload[..8]) == s.revision && FromLittleEndian(payload[10..14]) == s.colorScheme
    ensures payload[8] == s.preference.Byte() && payload[9] == s.brightness.Byte()
    ensures s.accent == AccentColor(payload[14], payload[15], payload[16])
    ensures payload[17..] == [0, 0, 0]
  {
    var fields := FieldsOf(s);
    FieldParts(s);
    Limits();
    EncodedNumberDecodes(s.revision, 8);
    EncodedNumberDecodes(s.colorScheme, 4);
    assert payload[..8] == fields[..8] && payload[10..14] == fields[10..14] && payload[14..17] == fields[14..17];
  }

  /** The encoded record spells its snapshot, and its padding is zero. */
  lemma {:induction false} EncodesWhatIsSpelled(s: ThemeSnapshot)
    ensures var b := ServerBytes(Theme(s)); Spells(b, s) && b[33..] == [0, 0, 0]
  {
    var b := ServerBytes(Theme(s));
    EncodedIsTheme(s, b);
    EncodedNumbers(s, b[16..]);
    PayloadIsRead(b);
    assert b[33..] == b[16..][17..];
  }

  /** The greeting: version two, kind one, no payload. */
  lemma {:induction false} EncodesTheGreeting()
    ensures ClientBytes(Hello) == [68, 69, 78, 73, 65, 76, 80, 0, 2, 0, 1, 0, 0, 0, 0, 0]
  {
    assert LittleEndian(2, 2) == [2, 0] && LittleEndian(1, 2) == [1, 0] && LittleEndian(0, 4) == [0, 0, 0, 0];
  }

  // ---------- Why a record is rejected ----------

  /** The first test that a record fails, from the compositor's records or from the portal's. */
  predicate Rejects(b: seq<U8>, error: ProtocolError, kind: U16, payload: nat) {
    match error
    case Truncated(length) => length == |b| < 16
    case InvalidMagic => |b| >= 16 && !HasMagic(b)
    case UnsupportedVersion(version) => HasMagic(b) && version == Two(b, 8) != 2
    case InvalidPayloadLength(length) =>
      && HasVersion(b) && length == Four(b, 12)
      && (!HasLength(b) || (Two(b, 10) == kind && length != payload))
    case UnexpectedKind(other) => HasLength(b) && other == Two(b, 10) != kind
    case InvalidRevision => kind == 2 && IsTheme(b) && Eight(b, 16) == 0
    case InvalidPreference(value) => kind == 2 && IsTheme(b) && Eight(b, 16) != 0 && value == b[24] > 2
    case InvalidBrightness(value) =>
      kind == 2 && IsTheme(b) && Eight(b, 16) != 0 && b[24] <= 2 && value == b[25] > 1
    case InconsistentSnapshot =>
      && kind == 2 && IsTheme(b) && Eight(b, 16) != 0 && b[24] <= 2 && b[25] <= 1
      && !(Four(b, 26) == b[24] && (b[25] == 1 <==> b[24] == 2))
  }

  /** A record from the compositor is rejected with an error exactly if that is the first test it fails. */
  lemma {:induction false} ServerRejectsExactly(b: seq<U8>, error: ProtocolError)
    ensures DecodeServerMessage(b) == Err(error) <==> Rejects(b, error, 2, 20)
  {
    HeaderFails(b, error, 2, 20);
    HeaderIsRead(b);
    if |b| == 36 {
      PayloadIsRead(b);
    }
  }

  lemma {:induction false} ClientRejectsExactly(b: seq<U8>, error: ProtocolError)
    ensures DecodeClientMessage(b) == Err(error) <==> Rejects(b, error, 1, 0)
  {
    HeaderFails(b, error, 1, 0);
    HeaderIsRead(b);
  }

  lemma {:induction false} HeaderFails(b: seq<U8>, error: ProtocolError, kind: U16, payload: nat)
    ensures !HasLength(b) ==> (DecodeHeader(b) == Err(error) <==> Rejects(b, error, kind, payload))
  {
    if |b| >= 16 {
      TwoIsRead(b, 8);
      FourIsRead(b, 12);
    }
  }
}
