/** Reading and writing frames over streams that chunk, interrupt and fail as they like (local-transport codec.rs). */
module FrameStream {
  import opened Machine
  import opened BigEndian
  import opened FrameCodec

  /** What one call to the operating system does; `Pass` moves at most this many bytes (a read moves at least one). */
  datatype Turn = Pass(count: nat) | Interrupt | Fail(kind: nat)

  datatype IoError = Interrupted | Failed(kind: nat)

  predicate CanFail(turns: seq<Turn>) { exists t | t in turns :: t.Fail? }

  /** A byte stream; once `turns` are used up, calls move as much as fits. */
  class Reader {
    var rest: Bytes
    var turns: seq<Turn>

    constructor (stream: Bytes, turns: seq<Turn>)
      ensures rest == stream && this.turns == turns
    {
      rest, this.turns := stream, turns;
    }

    /** `Read::read` into `buffer[from..]`: zero bytes only at the end of the stream or for an empty buffer. */
    method Read(buffer: array<Byte>, from: nat) returns (r: Result<nat, IoError>)
      requires from < buffer.Length
      modifies this, buffer
      ensures r.Ok? ==>
        && r.value <= |old(rest)| && from + r.value <= buffer.Length
        && (r.value == 0 <==> old(rest) == [])
        && rest == old(rest)[r.value..]
        && buffer[..from + r.value] == old(buffer[..from]) + old(rest)[..r.value]
      ensures r.Err? ==> rest == old(rest) && buffer[..] == old(buffer[..]) && |turns| < |old(turns)|
      ensures r.Err? && r.error.Failed? ==> CanFail(old(turns))
      ensures |turns| <= |old(turns)| && (CanFail(turns) ==> CanFail(old(turns)))
    {
      var most := buffer.Length - from;
      if turns != [] {
        var turn := turns[0];
        assert turn in turns;
        turns := turns[1..];
        match turn {
          case Interrupt => return Err(Interrupted);
          case Fail(kind) => return Err(Failed(kind));
          case Pass(count) => most := Min(most, Max(count, 1));
        }
      }
      var count := Min(most, |rest|);
      for i := 0 to count
        invariant rest == old(rest)
        invariant forall j | 0 <= j < i :: buffer[from + j] == rest[j]
        invariant buffer[..from] == old(buffer[..from])
        invariant |turns| <= |old(turns)| && (CanFail(turns) ==> CanFail(old(turns)))
      {
        buffer[from + i] := rest[i];
      }
      assert buffer[..from + count] == old(buffer[..from]) + rest[..count];
      rest := rest[count..];
      return Ok(count);
    }
  }

  /** The reading loop: fills `destination`, or as much of it as the stream still holds. */
  method Fill(reader: Reader, destination: array<Byte>, operation: Operation)
    returns (read: nat, r: Result<(), FrameError>)
    modifies reader, destination
    ensures r.Ok? ==>
      read == Min(destination.Length, |old(reader.rest)|) && reader.rest == old(reader.rest)[read..]
      && destination[..read] == old(reader.rest)[..read]
    ensures r.Err? ==> r.error.Io? && r.error.operation == operation && CanFail(old(reader.turns))
    ensures CanFail(reader.turns) ==> CanFail(old(reader.turns))
  {
    read := 0;
    while read < destination.Length
      invariant read <= destination.Length && read <= |old(reader.rest)|
      invariant reader.rest == old(reader.rest)[read..] && destination[..read] == old(reader.rest)[..read]
      invariant CanFail(reader.turns) ==> CanFail(old(reader.turns))
      decreases |reader.rest| + |reader.turns|
    {
      var got := reader.Read(destination, read);
      match got {
        case Ok(count) =>
          if count == 0 { return read, Ok(()); }
          read := read + count;
        case Err(Interrupted) =>
        case Err(Failed(kind)) => return read, Err(Io(operation, kind));
      }
    }
    return read, Ok(());
  }

  /** `read_header`: nothing at all is a clean end, a part of a header is an error. */
  method ReadHeaderBytes(reader: Reader) returns (r: Result<Option<Bytes>, FrameError>)
    modifies reader
    ensures r.Err? && r.error.Io? ==> CanFail(old(reader.turns))
    ensures !(r.Err? && r.error.Io?) ==>
      var stream := old(reader.rest);
      r == (if stream == [] then Ok(None)
            else if |stream| < HEADER_BYTES then Err(Truncated(Header, HEADER_BYTES, |stream|))
            else Ok(Some(stream[..HEADER_BYTES])))
      && reader.rest == stream[Min(HEADER_BYTES, |stream|)..]
    ensures CanFail(reader.turns) ==> CanFail(old(reader.turns))
  {
    var header := new Byte[HEADER_BYTES](i => 0);
    var read, filled := Fill(reader, header, ReadHeader);
    if filled.Err? { return Err(filled.error); }
    if read == HEADER_BYTES { assert header[..read] == header[..]; return Ok(Some(header[..])); }
    if read == 0 { return Ok(None); }
    return Err(Truncated(Header, HEADER_BYTES, read));
  }

  /** `read_section` into a freshly allocated buffer of the declared length. */
  method ReadSection(reader: Reader, length: nat, section: Section, operation: Operation)
    returns (r: Result<Bytes, FrameError>)
    modifies reader
    ensures r.Err? && r.error.Io? ==> CanFail(old(reader.turns))
    ensures !(r.Err? && r.error.Io?) ==>
      var stream := old(reader.rest);
      r == (if |stream| < length then Err(Truncated(section, length, |stream|)) else Ok(stream[..length]))
      && reader.rest == stream[Min(length, |stream|)..]
    ensures CanFail(reader.turns) ==> CanFail(old(reader.turns))
  {
    var destination := new Byte[length](i => 0);
    var read, filled := Fill(reader, destination, operation);
    if filled.Err? { return Err(filled.error); }
    if read < length { return Err(Truncated(section, length, read)); }
    assert destination[..read] == destination[..];
    return Ok(destination[..]);
  }

  /** What reading one frame yields: nothing on an empty stream, else the decoding of the declared bytes. */
  function ReadOutcome(stream: Bytes, config: Config): Result<Option<Frame>, FrameError> {
    if stream == [] then Ok(None)
    else
      var first := DecodeFrame(Declared(stream, config.limits), config);
      if first.Ok? then Ok(Some(first.value)) else Err(first.error)
  }

  /**
   * `read_frame`: however the stream chunks or interrupts its bytes, the result is `decode_frame` of the declared
   * prefix and exactly that prefix is consumed.
   */
  method ReadOneFrame(reader: Reader, config: Config) returns (r: Result<Option<Frame>, FrameError>)
    modifies reader
    ensures !CanFail(old(reader.turns)) ==>
      r == ReadOutcome(old(reader.rest), config)
      && reader.rest == old(reader.rest)[|Declared(old(reader.rest), config.limits)|..]
    ensures r.Ok? && r.value.Some? ==>
      var stream := old(reader.rest);
      && |stream| >= HEADER_BYTES && WellHeaded(stream, config.limits) && FrameLength(stream) <= |stream|
      && reader.rest == stream[FrameLength(stream)..]
  {
    ghost var stream := reader.rest;
    var header := ReadHeaderBytes(reader);
    if header.Err? { return Err(header.error); }
    if header.value.None? { return Ok(None); }
    var h := header.value.value;
    var parsed := ParseHeader(h, config.limits);
    if parsed.Err? { ShortRead(stream, config); return Err(parsed.error); }
    var f := parsed.value;
    HeaderAcceptedIff(h, config.limits);
    HeaderPrefix(stream, config.limits);
    ghost var body := reader.rest;
    var control := ReadSection(reader, f.control, ControlSection, ReadControl);
    if control.Err? { ShortRead(stream, config); return Err(control.error); }
    ghost var tail := reader.rest;
    var bulk := ReadSection(reader, f.bulk, Bulk, ReadBulk);
    if bulk.Err? { ShortRead(stream, config); return Err(bulk.error); }
    if |body| >= f.control && |tail| >= f.bulk { FullRead(stream, config); }
    if config.hash(h[..PREFIX_BYTES] + control.value + bulk.value) != h[PREFIX_BYTES..] {
      return Err(IntegrityMismatch);
    }
    var decoded := DecodeBody(f, control.value, bulk.value, config);
    return if decoded.Ok? then Ok(Some(decoded.value)) else Err(decoded.error);
  }

  /** A stream too short for its frame, or with a bad header, reads as its own decoding error. */
  lemma ShortRead(stream: Bytes, config: Config)
    requires |stream| >= HEADER_BYTES
    ensures var parsed := ParseHeader(stream[..HEADER_BYTES], config.limits);
      && (parsed.Err? ==>
            ReadOutcome(stream, config) == Err(parsed.error) && |Declared(stream, config.limits)| == HEADER_BYTES)
      && (parsed.Ok? && |stream| < parsed.value.FrameBytes() ==>
          && Declared(stream, config.limits) == stream
          && ReadOutcome(stream, config) ==
             (if |stream| - HEADER_BYTES < parsed.value.control
              then Err(Truncated(ControlSection, parsed.value.control, |stream| - HEADER_BYTES))
              else Err(Truncated(Bulk, parsed.value.bulk, |stream| - HEADER_BYTES - parsed.value.control))))
  {
    var h := stream[..HEADER_BYTES];
    assert h[..HEADER_BYTES] == h;
    if ParseHeader(h, config.limits).Ok? { assert stream[..|stream|] == stream; }
  }

  /** A stream that holds a whole frame reads as that frame's digest check and body. */
  lemma FullRead(stream: Bytes, config: Config)
    requires |stream| >= HEADER_BYTES
    requires var parsed := ParseHeader(stream[..HEADER_BYTES], config.limits);
      parsed.Ok? && |stream| >= parsed.value.FrameBytes()
    ensures var h := stream[..HEADER_BYTES];
      var f := ParseHeader(h, config.limits).value;
      var body := stream[HEADER_BYTES..];
      |Declared(stream, config.limits)| == f.FrameBytes() &&
      DecodeFrame(Declared(stream, config.limits), config) ==
        DecodeComplete(h, f, body[..f.control], body[f.control..][..f.bulk], config)
  {
    var h := stream[..HEADER_BYTES];
    var f := ParseHeader(h, config.limits).value;
    var d := Declared(stream, config.limits);
    assert d == stream[..f.FrameBytes()];
    assert d[..HEADER_BYTES] == h;
    assert d[HEADER_BYTES..][..f.control] == stream[HEADER_BYTES..][..f.control];
    assert d[HEADER_BYTES..][f.control..] == stream[HEADER_BYTES..][f.control..][..f.bulk];
  }

  // ----- writing -----

  class Writer {
    var sink: Bytes
    var turns: seq<Turn>

    constructor (turns: seq<Turn>)
      ensures sink == [] && this.turns == turns
    {
      sink, this.turns := [], turns;
    }

    /** `Write::write`: accepts a prefix, possibly empty. */
    method Write(bytes: Bytes) returns (r: Result<nat, IoError>)
      modifies this
      ensures r.Ok? ==> r.value <= |bytes| && sink == old(sink) + bytes[..r.value]
      ensures r.Err? ==> sink == old(sink) && |turns| < |old(turns)|
      ensures r == Ok(0) && bytes != [] ==> |turns| < |old(turns)|
      ensures |turns| <= |old(turns)|
    {
      if turns != [] {
        var turn := turns[0];
        turns := turns[1..];
        match turn {
          case Interrupt => return Err(Interrupted);
          case Fail(kind) => return Err(Failed(kind));
          case Pass(count) =>
            var moved := Min(count, |bytes|);
            sink := sink + bytes[..moved];
            return Ok(moved);
        }
      }
      sink := sink + bytes;
      assert bytes[..|bytes|] == bytes;
      return Ok(|bytes|);
    }
  }

  const WRITE_ZERO: nat := 0

  /** `write_all`: on success everything was written; on failure a prefix was, and nothing else. */
  method WriteAll(writer: Writer, encoded: Bytes) returns (r: Result<(), FrameError>, ghost written: nat)
    modifies writer
    ensures written <= |encoded| && writer.sink == old(writer.sink) + encoded[..written]
    ensures r.Ok? ==> writer.sink == old(writer.sink) + encoded
    ensures r.Err? ==> r.error.Io? && r.error.operation == WriteFrame && written < |encoded|
  {
    var at := 0;
    written := 0;
    while at < |encoded|
      invariant at == written <= |encoded| && writer.sink == old(writer.sink) + encoded[..at]
      decreases |encoded| - at, |writer.turns|
    {
      var wrote := writer.Write(encoded[at..]);
      match wrote {
        case Ok(count) =>
          if count == 0 { return Err(Io(WriteFrame, WRITE_ZERO)), written; }
          assert encoded[..at] + encoded[at..][..count] == encoded[..at + count];
          at := at + count;
          written := at;
        case Err(Interrupted) =>
        case Err(Failed(kind)) => return Err(Io(WriteFrame, kind)), written;
      }
    }
    assert encoded[..at] == encoded;
    return Ok(()), written;
  }

  /** A control frame that was written whole is what the peer reads first, and the rest of the stream is left. */
  lemma {:induction false} WrittenFrameIsRead(frame: Frame, tail: Bytes, config: Config)
    requires frame.Control? && EncodeFrame(frame, config).Ok?
    ensures var stream := EncodeFrame(frame, config).value + tail;
      ReadOutcome(stream, config) == Ok(Some(frame)) && stream[|Declared(stream, config.limits)|..] == tail
  {
    FirstFrame(frame, EncodeFrame(frame, config).value, tail, config);
  }
}
