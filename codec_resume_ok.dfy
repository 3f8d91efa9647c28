/** `frame/codec/resume_ok.rs`: RESUME_OK, on stream 0, with the last received client position. */
module ResumeOkCodec {
  import opened Bytes
  import opened DecodeErrors
  import opened FrameFlags
  import opened FrameHeader
  import opened FrameVisit
  import CursorVisit

  datatype ResumeOkFrame = ResumeOkFrame(lastReceivedClientPosition: u64)
  {
    function Encoding(): seq<byte>
    {
      Header(0, RESUME_OK, EMPTY) + Be(lastReceivedClientPosition, 8)
    }

    /** `len`: always 14, the size of what `encode` writes. */
    function Len(): (n: nat)
      ensures n == |Encoding()|
    {
      14
    }

    method Encode(buf: BytesMut)
      modifies buf
      ensures buf.bytes == old(buf.bytes) + Encoding()
    {
      PutHeader(buf, 0, RESUME_OK, EMPTY);
      buf.PutU64(lastReceivedClientPosition);
    }
  }

  /** `new`: the position keeps only its low 63 bits. */
  function New(position: u64): (f: ResumeOkFrame)
    ensures f.lastReceivedClientPosition <= MAX_U63
    ensures position <= MAX_U63 ==> f.lastReceivedClientPosition == position
  {
    ResumeOkFrame(Mask63(position))
  }

  /** `decode`: a 63-bit position; `InComplete` below 8 body bytes. */
  function Decoding(s: seq<byte>, streamId: u32, flags: Flags): (st: Step<ResumeOkFrame>)
    ensures |s| < 8 <==> st.result == Err(InComplete)
    ensures st.result.Ok? ==> st.result.value.lastReceivedClientPosition <= MAX_U63 && st.rest == s[8..]
  {
    var p := EatU63(s);
    if p.result.Err? then Fail(p) else Step(Ok(ResumeOkFrame(p.result.value)), p.rest)
  }

  method Decode(buf: Cursor, streamId: u32, flags: Flags) returns (r: Result<ResumeOkFrame>)
    modifies buf
    ensures Step(r, buf.rest) == Decoding(old(buf.rest), streamId, flags)
  {
    var p := CursorVisit.EatU63(buf);
    if p.Err? {
      return Err(p.error);
    }
    return Ok(ResumeOkFrame(p.value));
  }

  lemma RoundTrip(f: ResumeOkFrame)
    requires f.lastReceivedClientPosition <= MAX_U63
    ensures HeaderIs(f.Encoding(), 0, RESUME_OK, EMPTY)
    ensures Decoding(f.Encoding()[6..], 0, EMPTY) == Step(Ok(f), [])
  {
    var body := Be(f.lastReceivedClientPosition, 8);
    HeaderReadsBack(0, RESUME_OK, EMPTY, body);
    assert body + [] == body;
    EatU63OfBe(f.lastReceivedClientPosition, []);
  }
}
