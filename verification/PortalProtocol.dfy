/** The fixed-width messages between the compositor and its settings portal. */
module PortalProtocol {
  import opened Wrappers

  const VERSION: U16 := 2
  const HEADER_BYTES: nat := 16
  const PAYLOAD_BYTES: nat := 20
  const MAX_BYTES: nat := HEADER_BYTES + PAYLOAD_BYTES
  const KIND_HELLO: U16 := 1
  const KIND_THEME: U16 := 2

  /** "DENIALP" and a zero byte. */
  const MAGIC: seq<U8> := [0x44, 0x45, 0x4E, 0x49, 0x41, 0x4C, 0x50, 0x00]

  datatype Preference = NoPreference | PreferDark | PreferLight {
    function Byte(): U8 { match this case NoPreference => 0 case PreferDark => 1 case PreferLight => 2 }

    function EffectiveBrightness(): Brightness { if PreferLight? then Light else Dark }

    function PortalValue(): U32 { match this case NoPreference => 0 case PreferDark => 1 case PreferLight => 2 }
  }

  datatype Brightness = Dark | Light {
    function Byte(): U8 { if Dark? then 0 else 1 }
  }

  datatype AccentColor = AccentColor(red: U8, green: U8, blue: U8)

  const DEFAULT_ACCENT := AccentColor(0xD0, 0xBC, 0xFF)

  datatype ThemeSnapshot = ThemeSnapshot(
    revision: U64, preference: Preference, brightness: Brightness, colorScheme: U32, accent: AccentColor)
  {
    function WithAccent(accent: AccentColor): ThemeSnapshot { this.(accent := accent) }

    /** The derived fields are those of the preference. */
    predicate Consistent() { this == NewSnapshot(revision, preference).WithAccent(accent) }
  }

  function NewSnapshot(revision: U64, preference: Preference): ThemeSnapshot {
    ThemeSnapshot(revision, preference, preference.EffectiveBrightness(), preference.PortalValue(), DEFAULT_ACCENT)
  }

  datatype ClientMessage = Hello

  datatype ServerMessage = Theme(snapshot: ThemeSnapshot)

  datatype ProtocolError =
    | Truncated(length: nat)
    | InvalidMagic
    | UnsupportedVersion(version: U16)
    | UnexpectedKind(kind: U16)
    | InvalidPayloadLength(length: nat)
    | InvalidRevision
    | InvalidPreference(value: U8)
    | InvalidBrightness(value: U8)
    | InconsistentSnapshot

  // ---------- Little-endian numbers ----------

  /** 256 to the power of a number of bytes. */
  function Limit(width: nat): nat {
    if width == 0 then 1 else 256 * Limit(width - 1)
  }

  function LittleEndian(value: nat, width: nat): (bytes: seq<U8>)
    ensures |bytes| == width
  {
    if width == 0 then [] else [value % 256] + LittleEndian(value / 256, width - 1)
  }

  function FromLittleEndian(bytes: seq<U8>): nat {
    if bytes == [] then 0 else bytes[0] + 256 * FromLittleEndian(bytes[1..])
  }

  lemma {:induction false} EncodedNumberDecodes(value: nat, width: nat)
    requires value < Limit(width)
    ensures FromLittleEndian(LittleEndian(value, width)) == value
  {
    if width > 0 {
      EncodedNumberDecodes(value / 256, width - 1);
      assert LittleEndian(value, width)[1..] == LittleEndian(value / 256, width - 1);
    }
  }

  lemma {:induction false} DecodedNumberEncodes(bytes: seq<U8>)
    ensures FromLittleEndian(bytes) < Limit(|bytes|)
    ensures LittleEndian(FromLittleEndian(bytes), |bytes|) == bytes
  {
    if bytes != [] {
      var rest := FromLittleEndian(bytes[1..]);
      DecodedNumberEncodes(bytes[1..]);
      assert (bytes[0] + 256 * rest) % 256 == bytes[0] && (bytes[0] + 256 * rest) / 256 == rest;
    }
  }

  lemma {:induction false} Limits()
    ensures Limit(2) == 0x1_0000 && Limit(4) == 0x1_0000_0000 && Limit(8) == 0x1_0000_0000_0000_0000
  {
    assert Limit(1) == 0x100;
    assert Limit(3) == 0x100_0000;
    assert Limit(5) == 0x100_0000_0000 && Limit(6) == 0x1_0000_0000_0000 && Limit(7) == 0x100_0000_0000_0000;
  }

  // ---------- Encoding ----------

  function HeaderOf(kind: U16, length: U32): (bytes: seq<U8>)
    ensures |bytes| == HEADER_BYTES
  {
    MAGIC + LittleEndian(VERSION, 2) + LittleEndian(kind, 2) + LittleEndian(length, 4)
  }

  function FieldsOf(s: ThemeSnapshot): (bytes: seq<U8>)
    ensures |bytes| == 17
  {
    LittleEndian(s.revision, 8) + [s.preference.Byte(), s.brightness.Byte()] + LittleEndian(s.colorScheme, 4)
    + [s.accent.red, s.accent.green, s.accent.blue]
  }

  function ClientBytes(message: ClientMessage): seq<U8> {
    HeaderOf(KIND_HELLO, 0)
  }

  /** Header, fields and three bytes of padding. */
  function ServerBytes(message: ServerMessage): (bytes: seq<U8>)
    ensures |bytes| == MAX_BYTES
  {
    HeaderOf(KIND_THEME, PAYLOAD_BYTES) + FieldsOf(message.snapshot) + [0, 0, 0]
  }

  /** An array written from its start, the rest still zero. */
  ghost predicate Written(target: array<U8>, prefix: seq<U8>)
    reads target
  {
    && |prefix| <= target.Length && target[..|prefix|] == prefix
    && forall k | |prefix| <= k < target.Length :: target[k] == 0
  }

  method CopyInto(target: array<U8>, from: nat, source: seq<U8>, ghost prefix: seq<U8>)
    requires Written(target, prefix) && from == |prefix| && from + |source| <= target.Length
    modifies target
    ensures Written(target, prefix + source)
  {
    for i := 0 to |source|
      invariant Written(target, prefix + source[..i])
    {
      target[from + i] := source[i];
      assert prefix + source[..i + 1] == prefix + source[..i] + [source[i]];
    }
    assert source[..|source|] == source;
  }

  method EncodeHeader(kind: U16, length: U32) returns (bytes: array<U8>)
    ensures fresh(bytes) && bytes[..] == HeaderOf(kind, length)
  {
    bytes := new U8[HEADER_BYTES](_ => 0);
    CopyInto(bytes, 0, MAGIC, []);
    CopyInto(bytes, 8, LittleEndian(VERSION, 2), [] + MAGIC);
    CopyInto(bytes, 10, LittleEndian(kind, 2), [] + MAGIC + LittleEndian(VERSION, 2));
    CopyInto(bytes, 12, LittleEndian(length, 4), [] + MAGIC + LittleEndian(VERSION, 2) + LittleEndian(kind, 2));
    assert [] + MAGIC == MAGIC;
  }

  method EncodeClientMessage(message: ClientMessage) returns (bytes: array<U8>)
    ensures fresh(bytes) && bytes[..] == ClientBytes(message)
  {
    bytes := EncodeHeader(KIND_HELLO, 0);
  }

  method PutEnums(bytes: array<U8>, s: ThemeSnapshot, ghost prefix: seq<U8>)
    requires bytes.Length == MAX_BYTES && |prefix| == HEADER_BYTES + 8 && Written(bytes, prefix)
    modifies bytes
    ensures Written(bytes, prefix + [s.preference.Byte(), s.brightness.Byte()])
  {
    bytes[HEADER_BYTES + 8] := s.preference.Byte();
    bytes[HEADER_BYTES + 9] := s.brightness.Byte();
  }

  method PutAccent(bytes: array<U8>, s: ThemeSnapshot, ghost prefix: seq<U8>)
    requires bytes.Length == MAX_BYTES && |prefix| == HEADER_BYTES + 14 && Written(bytes, prefix)
    modifies bytes
    ensures Written(bytes, prefix + [s.accent.red, s.accent.green, s.accent.blue])
  {
    bytes[HEADER_BYTES + 14] := s.accent.red;
    bytes[HEADER_BYTES + 15] := s.accent.green;
    bytes[HEADER_BYTES + 16] := s.accent.blue;
  }

  method PutFields(bytes: array<U8>, s: ThemeSnapshot, ghost prefix: seq<U8>)
    requires bytes.Length == MAX_BYTES && |prefix| == HEADER_BYTES && Written(bytes, prefix)
    modifies bytes
    ensures Written(bytes, prefix + FieldsOf(s))
  {
    ghost var revised := prefix + LittleEndian(s.revision, 8);
    ghost var derived := revised + [s.preference.Byte(), s.brightness.Byte()];
    CopyInto(bytes, HEADER_BYTES, LittleEndian(s.revision, 8), prefix);
    PutEnums(bytes, s, revised);
    CopyInto(bytes, HEADER_BYTES + 10, LittleEndian(s.colorScheme, 4), derived);
    PutAccent(bytes, s, derived + LittleEndian(s.colorScheme, 4));
    FieldsInOrder(s, prefix);
  }

  lemma {:induction false} FieldsInOrder(s: ThemeSnapshot, prefix: seq<U8>)
    ensures prefix + LittleEndian(s.revision, 8) + [s.preference.Byte(), s.brightness.Byte()]
            + LittleEndian(s.colorScheme, 4) + [s.accent.red, s.accent.green, s.accent.blue]
         == prefix + FieldsOf(s)
  {
  }

  method EncodeServerMessage(message: ServerMessage) returns (bytes: array<U8>)
    ensures fresh(bytes) && bytes[..] == ServerBytes(message)
  {
    var header := EncodeHeader(KIND_THEME, PAYLOAD_BYTES);
    bytes := new U8[MAX_BYTES](_ => 0);
    CopyInto(bytes, 0, header[..], []);
    assert [] + header[..] == header[..];
    PutFields(bytes, message.snapshot, header[..]);
    WrittenIsPadded(bytes, header[..] + FieldsOf(message.snapshot));
  }

  lemma {:induction false} WrittenIsPadded(bytes: array<U8>, prefix: seq<U8>)
    requires Written(bytes, prefix) && |prefix| + 3 == bytes.Length
    ensures bytes[..] == prefix + [0, 0, 0]
  {
    assert bytes[..] == bytes[..|prefix|] + bytes[|prefix|..];
  }

  // ---------- Decoding ----------

  function DecodeHeader(bytes: seq<U8>): (decoded: Result<(U16, seq<U8>), ProtocolError>)
    ensures decoded.Ok? ==> |bytes| >= HEADER_BYTES && decoded.value.1 == bytes[HEADER_BYTES..]
  {
    if |bytes| < HEADER_BYTES then Err(Truncated(|bytes|))
    else if bytes[..8] != MAGIC then Err(InvalidMagic)
    else
      Limits();
      DecodedNumberEncodes(bytes[8..10]);
      DecodedNumberEncodes(bytes[10..12]);
      DecodedNumberEncodes(bytes[12..16]);
      var version := FromLittleEndian(bytes[8..10]);
      if version != VERSION then Err(UnsupportedVersion(version))
      else
        var length := FromLittleEndian(bytes[12..16]);
        if length > MAX_BYTES - HEADER_BYTES || |bytes| != HEADER_BYTES + length
        then Err(InvalidPayloadLength(length))
        else Ok((FromLittleEndian(bytes[10..12]), bytes[HEADER_BYTES..]))
  }

  function DecodeClientMessage(bytes: seq<U8>): Result<ClientMessage, ProtocolError> {
    match DecodeHeader(bytes)
    case Err(error) => Err(error)
    case Ok((kind, payload)) =>
      if kind == KIND_HELLO then
        if payload == [] then Ok(Hello) else Err(InvalidPayloadLength(|payload|))
      else Err(UnexpectedKind(kind))
  }

  function PreferenceOf(value: U8): Result<Preference, ProtocolError> {
    if value == 0 then Ok(NoPreference)
    else if value == 1 then Ok(PreferDark)
    else if value == 2 then Ok(PreferLight)
    else Err(InvalidPreference(value))
  }

  function BrightnessOf(value: U8): Result<Brightness, ProtocolError> {
    if value == 0 then Ok(Dark) else if value == 1 then Ok(Light) else Err(InvalidBrightness(value))
  }

  function DecodeSnapshot(payload: seq<U8>): Result<ThemeSnapshot, ProtocolError>
    requires |payload| == PAYLOAD_BYTES
  {
    Limits();
    DecodedNumberEncodes(payload[..8]);
    DecodedNumberEncodes(payload[10..14]);
    var revision := FromLittleEndian(payload[..8]);
    if revision == 0 then Err(InvalidRevision)
    else
      match PreferenceOf(payload[8])
      case Err(error) => Err(error)
      case Ok(preference) =>
        match BrightnessOf(payload[9])
        case Err(error) => Err(error)
        case Ok(brightness) =>
          var colorScheme := FromLittleEndian(payload[10..14]);
          var accent := AccentColor(payload[14], payload[15], payload[16]);
          var expected := NewSnapshot(revision, preference).WithAccent(accent);
          if brightness != expected.brightness || colorScheme != expected.colorScheme
          then Err(InconsistentSnapshot)
          else Ok(expected)
  }

  function DecodeServerMessage(bytes: seq<U8>): Result<ServerMessage, ProtocolError> {
    match DecodeHeader(bytes)
    case Err(error) => Err(error)
    case Ok((kind, payload)) =>
      if kind != KIND_THEME then Err(UnexpectedKind(kind))
      else if |payload| != PAYLOAD_BYTES then Err(InvalidPayloadLength(|payload|))
      else
        match DecodeSnapshot(payload)
        case Err(error) => Err(error)
        case Ok(snapshot) => Ok(Theme(snapshot))
  }

  // ---------- Encoding and decoding undo each other ----------

  lemma {:induction false} HeaderParts(kind: U16, length: U32)
    ensures var header := HeaderOf(kind, length);
            header[..8] == MAGIC && header[8..10] == LittleEndian(VERSION, 2)
            && header[10..12] == LittleEndian(kind, 2) && header[12..16] == LittleEndian(length, 4)
  {
  }

  /** A header is read exactly where it was written, with the payload it announces. */
  lemma {:induction false} HeaderIsReadAsWritten(bytes: seq<U8>, kind: U16, payload: seq<U8>)
    ensures DecodeHeader(bytes) == Ok((kind, payload)) <==>
            |payload| <= PAYLOAD_BYTES && bytes == HeaderOf(kind, |payload|) + payload
  {
    Limits();
    if |payload| <= PAYLOAD_BYTES && bytes == HeaderOf(kind, |payload|) + payload {
      HeaderParts(kind, |payload|);
      var header := HeaderOf(kind, |payload|);
      assert bytes[..8] == header[..8] && bytes[8..10] == header[8..10] && bytes[10..12] == header[10..12]
          && bytes[12..16] == header[12..16] && bytes[16..] == payload;
      EncodedNumberDecodes(VERSION, 2);
      EncodedNumberDecodes(kind, 2);
      EncodedNumberDecodes(|payload|, 4);
    }
    if DecodeHeader(bytes) == Ok((kind, payload)) {
      DecodedNumberEncodes(bytes[8..10]);
      DecodedNumberEncodes(bytes[10..12]);
      DecodedNumberEncodes(bytes[12..16]);
      assert bytes == bytes[..8] + bytes[8..10] + bytes[10..12] + bytes[12..16] + bytes[16..];
    }
  }

  lemma {:induction false} FieldParts(s: ThemeSnapshot)
    ensures var fields := FieldsOf(s);
            fields[..8] == LittleEndian(s.revision, 8) && fields[8] == s.preference.Byte()
            && fields[9] == s.brightness.Byte() && fields[10..14] == LittleEndian(s.colorScheme, 4)
            && fields[14..17] == [s.accent.red, s.accent.green, s.accent.blue]
  {
  }

  /** A payload is accepted as a snapshot exactly when it starts with that snapshot's fields. */
  lemma {:induction false} SnapshotIsReadAsWritten(payload: seq<U8>, s: ThemeSnapshot)
    requires |payload| == PAYLOAD_BYTES
    ensures DecodeSnapshot(payload) == Ok(s) <==>
            s.revision != 0 && s.Consistent() && payload[..17] == FieldsOf(s)
  {
    Limits();
    if s.revision != 0 && s.Consistent() && payload[..17] == FieldsOf(s) {
      FieldParts(s);
      assert payload[..8] == payload[..17][..8] && payload[10..14] == payload[..17][10..14];
      assert payload[14] == payload[..17][14..17][0] && payload[15] == payload[..17][14..17][1]
          && payload[16] == payload[..17][14..17][2];
      EncodedNumberDecodes(s.revision, 8);
      EncodedNumberDecodes(s.colorScheme, 4);
    }
    if DecodeSnapshot(payload) == Ok(s) {
      DecodedNumberEncodes(payload[..8]);
      DecodedNumberEncodes(payload[10..14]);
      assert payload[..17] == payload[..8] + [payload[8], payload[9]] + payload[10..14]
                              + [payload[14], payload[15], payload[16]];
    }
  }

  /**
   The server decoder accepts exactly the records that agree with an encoded,
   consistent snapshot of non-zero revision up to the last three bytes, and
   returns that snapshot. Those three bytes are padding that nobody reads.
   */
  lemma {:induction false} ServerAcceptsExactly(bytes: seq<U8>, message: ServerMessage)
    ensures DecodeServerMessage(bytes) == Ok(message) <==>
            && message.snapshot.revision != 0 && message.snapshot.Consistent()
            && |bytes| == MAX_BYTES
            && bytes[..33] == ServerBytes(message)[..33]
  {
    var header, fields := HeaderOf(KIND_THEME, PAYLOAD_BYTES), FieldsOf(message.snapshot);
    assert ServerBytes(message)[..33] == header + fields;
    if |bytes| == MAX_BYTES {
      var payload := bytes[16..];
      HeaderIsReadAsWritten(bytes, KIND_THEME, payload);
      SnapshotIsReadAsWritten(payload, message.snapshot);
      assert bytes[..33] == bytes[..16] + payload[..17] && bytes == bytes[..16] + payload;
      assert bytes[..33] == header + fields ==> bytes[..33][..16] == header && bytes[..33][16..] == fields;
      assert bytes == header + payload ==> bytes[..16] == header;
    }
  }

  /** A round trip returns the message exactly when its revision is not zero and its derived fields are consistent. */
  lemma {:induction false} ServerRoundTrip(message: ServerMessage)
    ensures DecodeServerMessage(ServerBytes(message)) == Ok(message) <==>
            message.snapshot.revision != 0 && message.snapshot.Consistent()
  {
    ServerAcceptsExactly(ServerBytes(message), message);
  }

  /** The client decoder accepts the one encoded greeting, and nothing else. */
  lemma {:induction false} ClientAcceptsExactly(bytes: seq<U8>)
    ensures DecodeClientMessage(bytes) == Ok(Hello) <==> bytes == ClientBytes(Hello)
    ensures DecodeClientMessage(bytes).Ok? ==> DecodeClientMessage(bytes) == Ok(Hello)
  {
    HeaderIsReadAsWritten(bytes, KIND_HELLO, []);
    assert HeaderOf(KIND_HELLO, 0) + [] == HeaderOf(KIND_HELLO, 0);
  }

  /** No record is a message in both directions. */
  lemma {:induction false} DirectionsAreDisjoint(bytes: seq<U8>)
    ensures !(DecodeClientMessage(bytes).Ok? && DecodeServerMessage(bytes).Ok?)
  {
  }
}
