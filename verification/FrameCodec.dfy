/** Bounded, digest-checked frames with a fixed 68-byte header (local-transport codec.rs). */
module FrameCodec {
  import opened Machine
  import opened BigEndian

  const MAGIC: Bytes := [67, 79, 71, 76, 79, 67, 48, 49]
  const VERSION: nat := 1
  const PREFIX_BYTES: nat := 36
  const HEADER_BYTES: nat := 68

  type Digest = d: Bytes | |d| == 32 witness seq(32, i => 0)

  datatype Kind = ControlKind | ObservationKind

  datatype Frame =
    | Control(correlation: NonZero64, bytes: Bytes)
    | Observation(correlation: NonZero64, value: nat)

  datatype Section = Header | ControlSection | Bulk

  datatype Operation = ReadHeader | ReadControl | ReadBulk | WriteFrame

  datatype FrameError =
    | EmptyControl
    | FrameLimitExceeded(actual: nat, limit: nat)
    | ControlLimitExceeded(actual: nat, limit: nat)
    | BulkLimitExceeded(actual: nat, limit: nat)
    | SizeOverflow
    | Truncated(section: Section, expected: nat, actual: nat)
    | TrailingBytes(expected: nat, actual: nat)
    | InvalidMagic
    | UnsupportedVersion(found: nat)
    | UnsupportedKind(found: nat)
    | NonCanonicalHeader
    | InvalidCorrelationId
    | InvalidSectionLayout
    | IntegrityMismatch
    | InvalidObservation(code: nat)
    | Io(operation: Operation, kind: nat)

  datatype Limits = Limits(maxFrame: NonZero64, maxControl: NonZero64, maxBulk: NonZero64)

  /** The digest, the observation value codec and the limits a peer is configured with. */
  datatype Config = Config(
    limits: Limits,
    hash: Bytes -> Digest,
    decodeObservation: (Bytes, Bytes) -> Result<nat, FrameError>,
    encodeObservation: nat -> Result<(Bytes, Bytes), FrameError>)

  datatype HeaderFields = HeaderFields(kind: Kind, correlation: NonZero64, control: nat, bulk: nat) {
    function FrameBytes(): nat { HEADER_BYTES + control + bulk }
  }

  function EncodeKind(kind: Kind): Byte { if kind.ControlKind? then 1 else 2 }

  function DecodeKind(b: Byte): Result<Kind, FrameError> {
    if b == 1 then Ok(ControlKind) else if b == 2 then Ok(ObservationKind) else Err(UnsupportedKind(b))
  }

  function ValidateLayout(kind: Kind, control: nat, bulk: nat): Option<FrameError> {
    if kind.ControlKind? && control == 0 then Some(EmptyControl)
    else if kind.ControlKind? && bulk != 0 then Some(InvalidSectionLayout)
    else if kind.ObservationKind? && (control == 0 || bulk == 0) then Some(InvalidSectionLayout)
    else None
  }

  function ValidateLengths(control: nat, bulk: nat, limits: Limits): Option<FrameError> {
    if control > limits.maxControl then Some(ControlLimitExceeded(control, limits.maxControl))
    else if bulk > limits.maxBulk then Some(BulkLimitExceeded(bulk, limits.maxBulk))
    else if HEADER_BYTES + control + bulk > U64_MAX then Some(SizeOverflow)
    else if HEADER_BYTES + control + bulk > limits.maxFrame then
      Some(FrameLimitExceeded(HEADER_BYTES + control + bulk, limits.maxFrame))
    else None
  }

  function Prefix(kind: Kind, correlation: nat, control: nat, bulk: nat): (p: Bytes)
    ensures |p| == PREFIX_BYTES
  {
    MAGIC + ToBytes(VERSION, 2) + [EncodeKind(kind)] + [0] + ToBytes(correlation, 8) + ToBytes(control, 8) +
    ToBytes(bulk, 8)
  }

  function ParseHeader(h: Bytes, limits: Limits): Result<HeaderFields, FrameError>
    requires |h| == HEADER_BYTES
  {
    if h[..8] != MAGIC then Err(InvalidMagic)
    else if FromBytes(h[8..10]) != VERSION then Err(UnsupportedVersion(FromBytes(h[8..10])))
    else
      var kind := DecodeKind(h[10]);
      if kind.Err? then Err(kind.error)
      else if h[11] != 0 then Err(NonCanonicalHeader)
      else if FromBytes(h[12..20]) == 0 then Err(InvalidCorrelationId)
      else
        var control, bulk := FromBytes(h[20..28]), FromBytes(h[28..36]);
        var layout, lengths := ValidateLayout(kind.value, control, bulk), ValidateLengths(control, bulk, limits);
        if layout.Some? then Err(layout.value)
        else if lengths.Some? then Err(lengths.value)
        else
          Bound8();
          Ok(HeaderFields(kind.value, FromBytes(h[12..20]), control, bulk))
  }

  function DecodeBody(f: HeaderFields, control: Bytes, bulk: Bytes, config: Config): Result<Frame, FrameError> {
    match f.kind
    case ControlKind => Ok(Control(f.correlation, control))
    case ObservationKind =>
      var value := config.decodeObservation(control, bulk);
      if value.Ok? then Ok(Observation(f.correlation, value.value)) else Err(value.error)
  }

  /** Digest check and body decoding of a complete frame. */
  function DecodeComplete(h: Bytes, f: HeaderFields, control: Bytes, bulk: Bytes, config: Config)
    : Result<Frame, FrameError>
    requires |h| == HEADER_BYTES
  {
    if config.hash(h[..PREFIX_BYTES] + control + bulk) != h[PREFIX_BYTES..] then Err(IntegrityMismatch)
    else DecodeBody(f, control, bulk, config)
  }

  /** `decode_frame`: exactly one frame, no trailing bytes. */
  function DecodeFrame(encoded: Bytes, config: Config): Result<Frame, FrameError> {
    if |encoded| < HEADER_BYTES then Err(Truncated(Header, HEADER_BYTES, |encoded|))
    else
      var h := encoded[..HEADER_BYTES];
      var parsed := ParseHeader(h, config.limits);
      if parsed.Err? then Err(parsed.error)
      else
        var f := parsed.value;
        var body := encoded[HEADER_BYTES..];
        if |encoded| < f.FrameBytes() then
          if |body| < f.control then Err(Truncated(ControlSection, f.control, |body|))
          else Err(Truncated(Bulk, f.bulk, |body| - f.control))
        else if |encoded| > f.FrameBytes() then Err(TrailingBytes(f.FrameBytes(), |encoded|))
        else DecodeComplete(h, f, body[..f.control], body[f.control..], config)
  }

  /** The bytes of a frame whose sections passed the checks. */
  function Encoded(kind: Kind, correlation: nat, control: Bytes, bulk: Bytes, config: Config): Bytes {
    var prefix := Prefix(kind, correlation, |control|, |bulk|);
    prefix + config.hash(prefix + control + bulk) + control + bulk
  }

  function SectionsRefused(kind: Kind, control: Bytes, bulk: Bytes, limits: Limits): Option<FrameError> {
    var layout := ValidateLayout(kind, |control|, |bulk|);
    if layout.Some? then layout else ValidateLengths(|control|, |bulk|, limits)
  }

  /** `append_header_prefix`. */
  method AppendPrefix(kind: Kind, correlation: nat, control: nat, bulk: nat) returns (encoded: Bytes)
    ensures encoded == Prefix(kind, correlation, control, bulk)
  {
    encoded := MAGIC;
    encoded := encoded + ToBytes(VERSION, 2);
    encoded := encoded + [EncodeKind(kind)];
    encoded := encoded + [0];
    encoded := encoded + ToBytes(correlation, 8);
    encoded := encoded + ToBytes(control, 8);
    encoded := encoded + ToBytes(bulk, 8);
  }

  /** `encode_sections`: append every section, then write the digest over its zeroed place. */
  method EncodeSections(kind: Kind, correlation: NonZero64, control: Bytes, bulk: Bytes, config: Config)
    returns (r: Result<Bytes, FrameError>)
    ensures r == var refused := SectionsRefused(kind, control, bulk, config.limits);
      (if refused.Some? then Err(refused.value) else Ok(Encoded(kind, correlation, control, bulk, config)))
  {
    var layout := ValidateLayout(kind, |control|, |bulk|);
    if layout.Some? { return Err(layout.value); }
    var lengths := ValidateLengths(|control|, |bulk|, config.limits);
    if lengths.Some? { return Err(lengths.value); }
    var prefix := AppendPrefix(kind, correlation, |control|, |bulk|);
    var encoded := prefix + seq(32, i => 0) + control + bulk;
    var digest := config.hash(encoded[..PREFIX_BYTES] + control + bulk);
    PatchDigest(prefix, seq(32, i => 0), digest, control, bulk);
    return Ok(encoded[..PREFIX_BYTES] + digest + encoded[HEADER_BYTES..]);
  }

  lemma PatchDigest(prefix: Bytes, zeros: Bytes, digest: Bytes, control: Bytes, bulk: Bytes)
    requires |prefix| == PREFIX_BYTES && |zeros| == |digest| == 32
    ensures var encoded := prefix + zeros + control + bulk;
      encoded[..PREFIX_BYTES] == prefix
      && encoded[..PREFIX_BYTES] + digest + encoded[HEADER_BYTES..] == prefix + digest + control + bulk
  {
    var encoded := prefix + zeros + control + bulk;
    assert encoded[HEADER_BYTES..] == control + bulk;
  }

  function EncodeFrame(frame: Frame, config: Config): Result<Bytes, FrameError> {
    match frame
    case Control(correlation, bytes) =>
      var refused := SectionsRefused(ControlKind, bytes, [], config.limits);
      if refused.Some? then Err(refused.value) else Ok(Encoded(ControlKind, correlation, bytes, [], config))
    case Observation(correlation, value) =>
      var sections := config.encodeObservation(value);
      if sections.Err? then Err(sections.error)
      else
        var (control, bulk) := sections.value;
        var refused := SectionsRefused(ObservationKind, control, bulk, config.limits);
        if refused.Some? then Err(refused.value) else Ok(Encoded(ObservationKind, correlation, control, bulk, config))
  }

  // ----- header round trips -----

  lemma Slices(m: Bytes, v: Bytes, k: Byte, z: Byte, a: Bytes, c: Bytes, b: Bytes, rest: Bytes)
    requires |m| == 8 && |v| == 2 && |a| == 8 && |c| == 8 && |b| == 8
    ensures var h := m + v + [k] + [z] + a + c + b + rest;
      h[..8] == m && h[8..10] == v && h[10] == k && h[11] == z && h[12..20] == a && h[20..28] == c && h[28..36] == b
      && h[36..] == rest
  {
  }

  lemma Unslice(h: Bytes)
    requires |h| >= PREFIX_BYTES
    ensures h[..36] == h[..8] + h[8..10] + [h[10]] + [h[11]] + h[12..20] + h[20..28] + h[28..36]
  {
  }

  /** A written header parses back to its own fields. */
  lemma HeaderReads(kind: Kind, correlation: NonZero64, control: nat, bulk: nat, digest: Digest, limits: Limits)
    requires ValidateLayout(kind, control, bulk).None? && ValidateLengths(control, bulk, limits).None?
    ensures ParseHeader(Prefix(kind, correlation, control, bulk) + digest, limits)
            == Ok(HeaderFields(kind, correlation, control, bulk))
  {
    Bound8();
    Slices(MAGIC, ToBytes(VERSION, 2), EncodeKind(kind), 0, ToBytes(correlation, 8), ToBytes(control, 8),
           ToBytes(bulk, 8), digest);
    FromToBytes(VERSION, 2);
    FromToBytes(correlation, 8);
    FromToBytes(control, 8);
    FromToBytes(bulk, 8);
  }

  /** An accepted header is the only header with its fields. */
  lemma HeaderIsCanonical(h: Bytes, limits: Limits)
    requires |h| == HEADER_BYTES && ParseHeader(h, limits).Ok?
    ensures var f := ParseHeader(h, limits).value;
      h[..PREFIX_BYTES] == Prefix(f.kind, f.correlation, f.control, f.bulk)
      && ValidateLayout(f.kind, f.control, f.bulk).None? && ValidateLengths(f.control, f.bulk, limits).None?
  {
    Unslice(h);
    ToFromBytes(h[8..10]);
    ToFromBytes(h[12..20]);
    ToFromBytes(h[20..28]);
    ToFromBytes(h[28..36]);
  }

  // ----- what is accepted -----

  /** The lengths a header declares, and the bytes of the frame they make. */
  function ControlLength(h: Bytes): nat
    requires |h| >= HEADER_BYTES
  {
    FromBytes(h[20..28])
  }

  function BulkLength(h: Bytes): nat
    requires |h| >= HEADER_BYTES
  {
    FromBytes(h[28..36])
  }

  function FrameLength(h: Bytes): nat
    requires |h| >= HEADER_BYTES
  {
    68 + ControlLength(h) + BulkLength(h)
  }

  /** Magic, version, a known kind with its sections, a reserved zero, a correlation, and every length in its limit. */
  predicate WellHeaded(h: Bytes, limits: Limits)
    requires |h| >= HEADER_BYTES
  {
    && h[..8] == [67, 79, 71, 76, 79, 67, 48, 49] && FromBytes(h[8..10]) == 1
    && h[10] in {1, 2} && h[11] == 0 && FromBytes(h[12..20]) > 0
    && ControlLength(h) > 0 && (h[10] == 1 <==> BulkLength(h) == 0)
    && ControlLength(h) <= limits.maxControl && BulkLength(h) <= limits.maxBulk && FrameLength(h) <= limits.maxFrame
  }

  /** A header is accepted exactly when it is well formed and everything it declares is within the limits. */
  lemma {:induction false} HeaderAcceptedIff(h: Bytes, limits: Limits)
    requires |h| == HEADER_BYTES
    ensures ParseHeader(h, limits).Ok? <==> WellHeaded(h, limits)
    ensures ParseHeader(h, limits).Ok? ==>
      var f := ParseHeader(h, limits).value;
      && f.correlation == FromBytes(h[12..20]) && f.control == ControlLength(h) && f.bulk == BulkLength(h)
      && (f.kind.ControlKind? <==> h[10] == 1)
  {
  }

  /**
   * Bytes are accepted exactly when they are one well-headed frame of the declared length, carry the digest of
   * everything else, and hold a decodable observation if that is what they say.
   */
  lemma {:induction false} DecodesIff(encoded: Bytes, config: Config)
    ensures DecodeFrame(encoded, config).Ok? <==>
      && |encoded| >= HEADER_BYTES && WellHeaded(encoded, config.limits) && |encoded| == FrameLength(encoded)
      && encoded[36..68] == config.hash(encoded[..36] + encoded[68..])
      && (encoded[10] == 2 ==>
            var split := 68 + ControlLength(encoded);
            config.decodeObservation(encoded[68..split], encoded[split..]).Ok?)
    ensures DecodeFrame(encoded, config).Ok? && encoded[10] == 1 ==>
      DecodeFrame(encoded, config) == Ok(Control(FromBytes(encoded[12..20]), encoded[68..]))
  {
    if |encoded| >= HEADER_BYTES {
      var h := encoded[..HEADER_BYTES];
      HeaderAcceptedIff(h, config.limits);
      HeaderPrefix(encoded, config.limits);
      if ParseHeader(h, config.limits).Ok? && |encoded| == FrameLength(encoded) {
        SectionSlices(encoded, ControlLength(encoded));
      }
    }
  }

  lemma HeaderPrefix(encoded: Bytes, limits: Limits)
    requires |encoded| >= HEADER_BYTES
    ensures var h := encoded[..HEADER_BYTES];
      && h[..8] == encoded[..8] && h[8..10] == encoded[8..10] && h[12..20] == encoded[12..20]
      && h[20..28] == encoded[20..28] && h[28..36] == encoded[28..36]
      && h[..36] == encoded[..36] && h[36..] == encoded[36..68]
      && (WellHeaded(h, limits) <==> WellHeaded(encoded, limits))
  {
    var h := encoded[..HEADER_BYTES];
    assert h[..8] == encoded[..8] && h[8..10] == encoded[8..10] && h[12..20] == encoded[12..20];
    assert h[20..28] == encoded[20..28] && h[28..36] == encoded[28..36];
  }

  lemma SectionSlices(encoded: Bytes, control: nat)
    requires |encoded| >= HEADER_BYTES + control
    ensures var body, split := encoded[HEADER_BYTES..], HEADER_BYTES + control;
      && body[..control] == encoded[HEADER_BYTES..split] && body[control..] == encoded[split..]
      && encoded[..36] + body[..control] + body[control..] == encoded[..36] + body
      && (control == |body| ==> body[..control] == body)
  {
  }

  // ----- frame round trips -----

  /** The frame that starts a byte stream: up to its declared length, or as much of it as there is. */
  function Declared(stream: Bytes, limits: Limits): Bytes {
    if |stream| < HEADER_BYTES then stream
    else
      var parsed := ParseHeader(stream[..HEADER_BYTES], limits);
      if parsed.Err? then stream[..HEADER_BYTES] else stream[..Min(|stream|, parsed.value.FrameBytes())]
  }

  lemma EncodedHeader(kind: Kind, correlation: NonZero64, control: Bytes, bulk: Bytes, config: Config, tail: Bytes)
    requires SectionsRefused(kind, control, bulk, config.limits).None?
    ensures var stream := Encoded(kind, correlation, control, bulk, config) + tail;
      |stream| >= HEADER_BYTES
      && ParseHeader(stream[..HEADER_BYTES], config.limits) ==
         Ok(HeaderFields(kind, correlation, |control|, |bulk|))
      && Declared(stream, config.limits) == Encoded(kind, correlation, control, bulk, config)
  {
    var prefix := Prefix(kind, correlation, |control|, |bulk|);
    var digest := config.hash(prefix + control + bulk);
    var stream := Encoded(kind, correlation, control, bulk, config) + tail;
    assert stream[..HEADER_BYTES] == prefix + digest;
    HeaderReads(kind, correlation, |control|, |bulk|, digest, config.limits);
  }

  /** Encoded sections decode to themselves. */
  lemma {:induction false} SectionsRoundTrip(
    kind: Kind, correlation: NonZero64, control: Bytes, bulk: Bytes, config: Config)
    requires SectionsRefused(kind, control, bulk, config.limits).None?
    ensures DecodeFrame(Encoded(kind, correlation, control, bulk, config), config)
            == DecodeBody(HeaderFields(kind, correlation, |control|, |bulk|), control, bulk, config)
  {
    var encoded := Encoded(kind, correlation, control, bulk, config);
    EncodedHeader(kind, correlation, control, bulk, config, []);
    assert encoded + [] == encoded;
    var prefix := Prefix(kind, correlation, |control|, |bulk|);
    var h := encoded[..HEADER_BYTES];
    assert h[..PREFIX_BYTES] == prefix && h[PREFIX_BYTES..] == config.hash(prefix + control + bulk);
    assert encoded[HEADER_BYTES..] == control + bulk;
    assert (control + bulk)[..|control|] == control && (control + bulk)[|control|..] == bulk;
  }

  lemma {:induction false} ControlRoundTrip(correlation: NonZero64, bytes: Bytes, config: Config)
    requires EncodeFrame(Control(correlation, bytes), config).Ok?
    ensures DecodeFrame(EncodeFrame(Control(correlation, bytes), config).value, config)
      == Ok(Control(correlation, bytes))
  {
    SectionsRoundTrip(ControlKind, correlation, bytes, [], config);
  }

  /** Observations round trip wherever the value codec does. */
  lemma {:induction false} ObservationRoundTrip(correlation: NonZero64, value: nat, config: Config)
    requires EncodeFrame(Observation(correlation, value), config).Ok?
    ensures var encoded := EncodeFrame(Observation(correlation, value), config).value;
      var sections := config.encodeObservation(value).value;
      DecodeFrame(encoded, config) == Ok(Observation(correlation, value)) <==>
      config.decodeObservation(sections.0, sections.1) == Ok(value)
  {
    var sections := config.encodeObservation(value).value;
    SectionsRoundTrip(ObservationKind, correlation, sections.0, sections.1, config);
  }

  /** Accepted bytes are the encoding of their own sections. */
  lemma {:induction false} AcceptedIsEncoded(encoded: Bytes, config: Config)
    requires DecodeFrame(encoded, config).Ok?
    ensures |encoded| >= HEADER_BYTES && ParseHeader(encoded[..HEADER_BYTES], config.limits).Ok?
    ensures var f := ParseHeader(encoded[..HEADER_BYTES], config.limits).value;
      |encoded| == f.FrameBytes() &&
      var control, bulk := encoded[HEADER_BYTES..][..f.control], encoded[HEADER_BYTES..][f.control..];
      encoded == Encoded(f.kind, f.correlation, control, bulk, config)
      && SectionsRefused(f.kind, control, bulk, config.limits).None?
      && DecodeFrame(encoded, config) == DecodeBody(f, control, bulk, config)
  {
    var h := encoded[..HEADER_BYTES];
    HeaderIsCanonical(h, config.limits);
    var f := ParseHeader(h, config.limits).value;
    Parts(encoded, f.control);
  }

  lemma Parts(encoded: Bytes, control: nat)
    requires |encoded| >= HEADER_BYTES + control
    ensures var h, body := encoded[..HEADER_BYTES], encoded[HEADER_BYTES..];
      encoded == h[..PREFIX_BYTES] + h[PREFIX_BYTES..] + body[..control] + body[control..]
  {
    var h, body := encoded[..HEADER_BYTES], encoded[HEADER_BYTES..];
    assert h == h[..PREFIX_BYTES] + h[PREFIX_BYTES..];
    assert body == body[..control] + body[control..];
  }

  /** Any bytes accepted as a control frame encode back to themselves. */
  lemma {:induction false} ControlReencodes(encoded: Bytes, config: Config)
    requires DecodeFrame(encoded, config).Ok? && DecodeFrame(encoded, config).value.Control?
    ensures EncodeFrame(DecodeFrame(encoded, config).value, config) == Ok(encoded)
  {
    AcceptedIsEncoded(encoded, config);
    var f := ParseHeader(encoded[..HEADER_BYTES], config.limits).value;
    assert encoded[HEADER_BYTES..][f.control..] == [];
  }

  // ----- streams -----

  function Concat(parts: seq<Bytes>): Bytes { if parts == [] then [] else parts[0] + Concat(parts[1..]) }

  datatype Reading = Reading(frames: seq<Frame>, ended: Result<(), FrameError>)

  /** Repeated reading: frames in order, then a clean end or the first error. */
  function ReadStream(stream: Bytes, config: Config): Reading
    decreases |stream|
  {
    if stream == [] then Reading([], Ok(()))
    else
      var first := DecodeFrame(Declared(stream, config.limits), config);
      if first.Err? then Reading([], Err(first.error))
      else
        AcceptedIsEncoded(Declared(stream, config.limits), config);
        var rest := ReadStream(stream[|Declared(stream, config.limits)|..], config);
        Reading([first.value] + rest.frames, rest.ended)
  }

  ghost predicate Encodes(frame: Frame, bytes: Bytes, config: Config) {
    frame.Control? && EncodeFrame(frame, config) == Ok(bytes)
  }

  lemma {:induction false} FirstFrame(frame: Frame, bytes: Bytes, tail: Bytes, config: Config)
    requires Encodes(frame, bytes, config)
    ensures |bytes| > 0 && Declared(bytes + tail, config.limits) == bytes && DecodeFrame(bytes, config) == Ok(frame)
  {
    EncodedHeader(ControlKind, frame.correlation, frame.bytes, [], config, tail);
    ControlRoundTrip(frame.correlation, frame.bytes, config);
  }

  /** Concatenated control frames read back in order, and then the stream ends cleanly. */
  lemma {:induction false} ConcatenationReadsBack(frames: seq<Frame>, parts: seq<Bytes>, config: Config)
    requires |frames| == |parts| && forall i | 0 <= i < |frames| :: Encodes(frames[i], parts[i], config)
    ensures ReadStream(Concat(parts), config) == Reading(frames, Ok(()))
    decreases |frames|
  {
    if frames != [] {
      FirstFrame(frames[0], parts[0], Concat(parts[1..]), config);
      ConcatenationReadsBack(frames[1..], parts[1..], config);
      assert Concat(parts)[|parts[0]|..] == Concat(parts[1..]);
      assert [frames[0]] + frames[1..] == frames;
    }
  }
}
