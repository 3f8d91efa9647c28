/**
 * `frame/codec/error.rs`: ERROR, an error code and optional data, addressed
 * to the connection (stream 0) or to one stream.
 */
module ErrorCodec {
  import opened Wrappers
  import opened Bytes
  import opened DecodeErrors
  import opened FrameFlags
  import opened FrameHeader
  import opened FrameVisit
  import opened Payloads
  import CursorVisit

  // The error codes of the protocol's "Error Codes" table.
  const INVALID_SETUP: u32 := 0x0000_0001
  const UNSUPPORTED_SETUP: u32 := 0x0000_0002
  const REJECTED_SETUP: u32 := 0x0000_0003
  const REJECTED_RESUME: u32 := 0x0000_0004
  const CONNECTION_ERROR: u32 := 0x0000_0101
  const CONNECTION_CLOSE: u32 := 0x0000_0102
  const APPLICATION_ERROR: u32 := 0x0000_0201
  const REJECTED: u32 := 0x0000_0202
  const CANCELED: u32 := 0x0000_0203
  const INVALID: u32 := 0x0000_0204
  const MIN_APPLICATION_ERROR_CODE: u32 := 0x0000_0301
  const MAX_APPLICATION_ERROR_CODE: u32 := 0xFFFF_FFFE

  /** The codes that pertain to the connection: their stream id must be 0. */
  const CONNECTION_CODES: set<u32> :=
    {INVALID_SETUP, UNSUPPORTED_SETUP, REJECTED_SETUP, REJECTED_RESUME, CONNECTION_ERROR, CONNECTION_CLOSE}

  /** The codes that pertain to one stream: their stream id must not be 0. */
  const STREAM_CODES: set<u32> := {APPLICATION_ERROR, REJECTED, CANCELED, INVALID}

  datatype ErrorFrame = ErrorFrame(streamId: u32, code: u32, data: Option<seq<byte>>)
  {
    /** Stream id, `ERROR` with no flags, the u32 code, then the raw data. */
    function Encoding(): seq<byte>
    {
      Header(streamId, ERROR, EMPTY) + Be(code, 4) + Section(data)
    }

    /** `len`: 10 plus the data length, the size of what `encode` writes. */
    function Len(): (n: nat)
      ensures n == |Encoding()|
    {
      10 + if data.Some? then |data.value| else 0
    }

    method Encode(buf: BytesMut)
      modifies buf
      ensures buf.bytes == old(buf.bytes) + Encoding()
    {
      PutHeader(buf, streamId, ERROR, EMPTY);
      buf.PutU32(code);
      if data.Some? {
        buf.PutSlice(data.value);
      }
    }
  }

  /** `new`: the stream id and the code keep only their low 31 bits. */
  function New(streamId: u32, code: u32, data: Option<seq<byte>>): (f: ErrorFrame)
    ensures f.streamId <= MAX_U31 && (streamId <= MAX_U31 ==> f.streamId == streamId)
    ensures f.code <= MAX_U31 && (code <= MAX_U31 ==> f.code == code)
    ensures f.data == data
  {
    ErrorFrame(Mask31(streamId), Mask31(code), data)
  }

  /**
   * `validate_stream_id`: the connection codes 0x001-0x004, 0x101 and 0x102
   * demand stream 0, the stream codes 0x201-0x204 demand another stream, and
   * any other code is accepted on any stream.
   */
  function ValidateStreamId(streamId: u32, code: u32): (r: Result<()>)
    ensures (1 <= code <= 4 || code == 0x101 || code == 0x102) ==>
      (r.Err? <==> streamId != 0) && (r.Err? ==> r.error == InvalidStreamId("0", streamId))
    ensures 0x201 <= code <= 0x204 ==>
      (r.Err? <==> streamId == 0) && (r.Err? ==> r.error == InvalidStreamId("> 0", streamId))
    ensures !(1 <= code <= 4 || code == 0x101 || code == 0x102 || 0x201 <= code <= 0x204) ==> r.Ok?
  {
    if code in CONNECTION_CODES && streamId != 0 then Err(InvalidStreamId("0", streamId))
    else if code in STREAM_CODES && streamId == 0 then Err(InvalidStreamId("> 0", streamId))
    else Ok(())
  }

  /**
   * `decode`: the u32 code (not masked), the stream id check for that code,
   * then the data: every remaining byte, absent when there is none.
   */
  function Decoding(s: seq<byte>, streamId: u32, flags: Flags): (st: Step<ErrorFrame>)
    ensures |s| < 4 ==> st.result == Err(InComplete)
    ensures |s| >= 4 ==>
      EatU32(s).result.Ok? && (st.result.Err? <==> ValidateStreamId(streamId, EatU32(s).result.value).Err?)
    ensures st.result.Ok? ==>
      var f := st.result.value;
      f.streamId == streamId && f.code == Value(s[..4]) &&
      (f.data.None? <==> |s| == 4) && Section(f.data) == s[4..] && st.rest == []
  {
    var code := EatU32(s);
    if code.result.Err? then Fail(code)
    else
      var valid := ValidateStreamId(streamId, code.result.value);
      if valid.Err? then Step(Err(valid.error), code.rest)
      else
        var d := EatRemaining(code.rest);
        Step(Ok(ErrorFrame(streamId, code.result.value, d.result.value)), d.rest)
  }

  method Decode(buf: Cursor, streamId: u32, flags: Flags) returns (r: Result<ErrorFrame>)
    modifies buf
    ensures Step(r, buf.rest) == Decoding(old(buf.rest), streamId, flags)
  {
    var code := CursorVisit.EatU32(buf);
    if code.Err? {
      return Err(code.error);
    }
    var valid := ValidateStreamId(streamId, code.value);
    if valid.Err? {
      return Err(valid.error);
    }
    var d := CursorVisit.EatRemaining(buf);
    return Ok(ErrorFrame(streamId, code.value, d.value));
  }

  /**
   * The frame reads back when its code suits its stream id and its data is
   * absent or non-empty.
   */
  lemma RoundTrip(f: ErrorFrame)
    requires f.streamId <= MAX_U31 && ValidateStreamId(f.streamId, f.code).Ok?
    requires f.data.Some? ==> f.data.value != []
    ensures HeaderIs(f.Encoding(), f.streamId, ERROR, EMPTY)
    ensures Decoding(f.Encoding()[6..], f.streamId, EMPTY) == Step(Ok(f), [])
  {
    var body := Be(f.code, 4) + Section(f.data);
    assert f.Encoding() == Header(f.streamId, ERROR, EMPTY) + body;
    HeaderReadsBack(f.streamId, ERROR, EMPTY, body);
    EatU32OfBe(f.code, Section(f.data));
  }

  /** `Some` empty data is written as nothing and read back as absent. */
  lemma EmptyDataReadsAsAbsent(streamId: u32, code: u32)
    requires streamId <= MAX_U31 && ValidateStreamId(streamId, code).Ok?
    ensures Decoding(ErrorFrame(streamId, code, Some([])).Encoding()[6..], streamId, EMPTY)
      == Step(Ok(ErrorFrame(streamId, code, None)), [])
  {
    RoundTrip(ErrorFrame(streamId, code, None));
  }

  /** A setup error sent on a stream, and a stream error sent on the connection, are both refused. */
  lemma MisaddressedCodesRejected(streamId: u32, data: seq<byte>)
    requires 0 < streamId <= MAX_U31
    ensures Decoding(ErrorFrame(streamId, INVALID_SETUP, None).Encoding()[6..] + data, streamId, EMPTY).result
      == Err(InvalidStreamId("0", streamId))
    ensures Decoding(ErrorFrame(0, APPLICATION_ERROR, None).Encoding()[6..] + data, 0, EMPTY).result
      == Err(InvalidStreamId("> 0", 0))
  {
    var h1 := Header(streamId, ERROR, EMPTY);
    assert ErrorFrame(streamId, INVALID_SETUP, None).Encoding() == h1 + Be(INVALID_SETUP, 4);
    assert (h1 + Be(INVALID_SETUP, 4))[6..] + data == Be(INVALID_SETUP, 4) + data;
    EatU32OfBe(INVALID_SETUP, data);
    var h2 := Header(0, ERROR, EMPTY);
    assert ErrorFrame(0, APPLICATION_ERROR, None).Encoding() == h2 + Be(APPLICATION_ERROR, 4);
    assert (h2 + Be(APPLICATION_ERROR, 4))[6..] + data == Be(APPLICATION_ERROR, 4) + data;
    EatU32OfBe(APPLICATION_ERROR, data);
  }
}
