/**
 * `frame/codec/resume.rs`: RESUME, sent on stream 0 instead of SETUP to
 * resume a session: the version, the resume token and two positions.
 */
module ResumeCodec {
  import opened Bytes
  import opened DecodeErrors
  import opened FrameFlags
  import opened FrameVersion
  import opened FrameHeader
  import opened FrameVisit
  import CursorVisit

  datatype ResumeFrame = ResumeFrame(
    version: Version,
    resumeToken: seq<byte>,
    lastReceivedServerPosition: u64,
    firstAvailableClientPosition: u64)
  {
    /**
     * Stream 0, `RESUME` with no flags, the version, the token length as a
     * u16 (`as u16` keeps only its low 16 bits), the token, then the two positions.
     */
    function Encoding(): seq<byte>
    {
      Header(0, RESUME, EMPTY) + version.Encoding() + Be(|resumeToken| % 0x1_0000, 2) + resumeToken
        + Be(lastReceivedServerPosition, 8) + Be(firstAvailableClientPosition, 8)
    }

    /** `len`: 28 plus the token length, the size of what `encode` writes. */
    function Len(): (n: nat)
      ensures n == |Encoding()|
    {
      12 + |resumeToken| + 16
    }

    method Encode(buf: BytesMut)
      modifies buf
      ensures buf.bytes == old(buf.bytes) + Encoding()
    {
      ghost var start := buf.bytes;
      PutHeader(buf, 0, RESUME, EMPTY);
      ghost var afterHeader := buf.bytes;
      version.Encode(buf);
      ghost var afterVersion := buf.bytes;
      buf.PutU16(|resumeToken| % 0x1_0000);
      ghost var afterLen := buf.bytes;
      buf.PutSlice(resumeToken);
      ghost var afterToken := buf.bytes;
      PutPositions(buf);
      AppendedFive(start, Header(0, RESUME, EMPTY), afterHeader, version.Encoding(), afterVersion,
        Be(|resumeToken| % 0x1_0000, 2), afterLen, resumeToken, afterToken, Be(lastReceivedServerPosition, 8) + Be(firstAvailableClientPosition, 8), buf.bytes);
    }

    /** The two positions, as `encode` writes them last. */
    method PutPositions(buf: BytesMut)
      modifies buf
      ensures buf.bytes == old(buf.bytes) + (Be(lastReceivedServerPosition, 8) + Be(firstAvailableClientPosition, 8))
    {
      buf.PutU64(lastReceivedServerPosition);
      buf.PutU64(firstAvailableClientPosition);
    }
  }

  /** `new`: both positions keep only their low 63 bits. */
  function New(version: Version, resumeToken: seq<byte>, lastReceivedServerPosition: u64, firstAvailableClientPosition: u64)
    : (f: ResumeFrame)
    ensures f.version == version && f.resumeToken == resumeToken
    ensures f.lastReceivedServerPosition <= MAX_U63 && f.firstAvailableClientPosition <= MAX_U63
    ensures lastReceivedServerPosition <= MAX_U63 ==> f.lastReceivedServerPosition == lastReceivedServerPosition
    ensures firstAvailableClientPosition <= MAX_U63 ==> f.firstAvailableClientPosition == firstAvailableClientPosition
  {
    ResumeFrame(version, resumeToken, Mask63(lastReceivedServerPosition), Mask63(firstAvailableClientPosition))
  }

  /**
   * `decode`: the version, a u16 token length, that many token bytes, then
   * two 63-bit positions. A token length beyond the remaining bytes is `InComplete`.
   */
  function Decoding(s: seq<byte>, streamId: u32, flags: Flags): (st: Step<ResumeFrame>)
    ensures |s| < 6 ==> st.result == Err(InComplete)
    ensures |s| >= 6 && Value(s[4..6]) > |s| - 6 ==> st.result == Err(InComplete)
    ensures st.result.Ok? ==>
      var f := st.result.value;
      |s| >= 6 && |f.resumeToken| == Value(s[4..6]) &&
      f.lastReceivedServerPosition <= MAX_U63 && f.firstAvailableClientPosition <= MAX_U63 &&
      |st.rest| == |s| - 22 - |f.resumeToken|
  {
    var v := EatVersion(s);
    if v.result.Err? then Fail(v)
    else
      var len := EatU16(v.rest);
      if len.result.Err? then Fail(len)
      else
        assert v.rest[..2] == s[4..6];
        var token := EatBytes(len.rest, len.result.value);
        if token.result.Err? then Fail(token)
        else
          var last := EatU63(token.rest);
          if last.result.Err? then Fail(last)
          else
            var first := EatU63(last.rest);
            if first.result.Err? then Fail(first)
            else Step(Ok(ResumeFrame(v.result.value, token.result.value, last.result.value, first.result.value)), first.rest)
  }

  method Decode(buf: Cursor, streamId: u32, flags: Flags) returns (r: Result<ResumeFrame>)
    modifies buf
    ensures Step(r, buf.rest) == Decoding(old(buf.rest), streamId, flags)
  {
    var v := CursorVisit.EatVersion(buf);
    if v.Err? {
      return Err(v.error);
    }
    var len := CursorVisit.EatU16(buf);
    if len.Err? {
      return Err(len.error);
    }
    var token := CursorVisit.EatBytes(buf, len.value);
    if token.Err? {
      return Err(token.error);
    }
    var last := CursorVisit.EatU63(buf);
    if last.Err? {
      return Err(last.error);
    }
    var first := CursorVisit.EatU63(buf);
    if first.Err? {
      return Err(first.error);
    }
    return Ok(ResumeFrame(v.value, token.value, last.value, first.value));
  }

  /** The frame reads back for a token of at most 65,535 bytes and 63-bit positions. */
  lemma RoundTrip(f: ResumeFrame)
    requires |f.resumeToken| < 0x1_0000
    requires f.lastReceivedServerPosition <= MAX_U63 && f.firstAvailableClientPosition <= MAX_U63
    ensures HeaderIs(f.Encoding(), 0, RESUME, EMPTY)
    ensures Decoding(f.Encoding()[6..], 0, EMPTY) == Step(Ok(f), [])
  {
    EncodingIsHeaderAndBody(f);
    HeaderReadsBack(0, RESUME, EMPTY, Body(f));
    BodyReadsBack(f);
  }

  /** The bytes of `f.Encoding()` after the header, for a token short enough to keep its length. */
  function Body(f: ResumeFrame): seq<byte>
  {
    f.version.Encoding() + (Be(|f.resumeToken|, 2) + (f.resumeToken + Positions(f)))
  }

  function Positions(f: ResumeFrame): seq<byte>
  {
    Be(f.lastReceivedServerPosition, 8) + Be(f.firstAvailableClientPosition, 8)
  }

  lemma EncodingIsHeaderAndBody(f: ResumeFrame)
    requires |f.resumeToken| < 0x1_0000
    ensures f.Encoding() == Header(0, RESUME, EMPTY) + Body(f)
  {
    JoinedRightward(Header(0, RESUME, EMPTY), f.version.Encoding(), Be(|f.resumeToken|, 2), f.resumeToken,
      Be(f.lastReceivedServerPosition, 8), Be(f.firstAvailableClientPosition, 8));
  }

  /** Decoding the body gives the frame back and consumes all of it. */
  lemma BodyReadsBack(f: ResumeFrame)
    requires |f.resumeToken| < 0x1_0000
    requires f.lastReceivedServerPosition <= MAX_U63 && f.firstAvailableClientPosition <= MAX_U63
    ensures Decoding(Body(f), 0, EMPTY) == Step(Ok(f), [])
  {
    EatVersionOf(f.version, Be(|f.resumeToken|, 2) + (f.resumeToken + Positions(f)));
    EatU16OfBe(|f.resumeToken|, f.resumeToken + Positions(f));
    EatBytesOf(f.resumeToken, Positions(f));
    EatU63OfBe(f.lastReceivedServerPosition, Be(f.firstAvailableClientPosition, 8));
    assert Be(f.firstAvailableClientPosition, 8) + [] == Be(f.firstAvailableClientPosition, 8);
    EatU63OfBe(f.firstAvailableClientPosition, []);
  }
}
