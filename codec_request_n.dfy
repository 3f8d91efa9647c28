/** `frame/codec/request_n.rs`: REQUEST_N, a header and a 31-bit request count. */
module RequestNCodec {
  import opened Bytes
  import opened DecodeErrors
  import opened FrameFlags
  import opened FrameHeader
  import opened FrameVisit
  import CursorVisit

  datatype RequestNFrame = RequestNFrame(streamId: u32, requestN: u32)
  {
    function Encoding(): seq<byte>
    {
      Header(streamId, REQUEST_N, EMPTY) + Be(requestN, 4)
    }

    /** `len`: always 10, the size of what `encode` writes. */
    function Len(): (n: nat)
      ensures n == |Encoding()|
    {
      10
    }

    method Encode(buf: BytesMut)
      modifies buf
      ensures buf.bytes == old(buf.bytes) + Encoding()
    {
      PutHeader(buf, streamId, REQUEST_N, EMPTY);
      buf.PutU32(requestN);
    }
  }

  /** `new`: both the stream id and the count keep only their low 31 bits. */
  function New(streamId: u32, requestN: u32): (f: RequestNFrame)
    ensures f.streamId <= MAX_U31 && f.requestN <= MAX_U31
    ensures streamId <= MAX_U31 ==> f.streamId == streamId
    ensures requestN <= MAX_U31 ==> f.requestN == requestN
  {
    RequestNFrame(Mask31(streamId), Mask31(requestN))
  }

  /** `decode`: the count as a 31-bit value; `InComplete` below 4 body bytes. */
  function Decoding(s: seq<byte>, streamId: u32, flags: Flags): (st: Step<RequestNFrame>)
    ensures |s| < 4 <==> st.result == Err(InComplete)
    ensures st.result.Ok? ==> st.result.value.streamId == streamId && st.result.value.requestN <= MAX_U31
    ensures st.result.Ok? ==> st.rest == s[4..]
  {
    var n := EatU31(s);
    if n.result.Err? then Fail(n) else Step(Ok(RequestNFrame(streamId, n.result.value)), n.rest)
  }

  method Decode(buf: Cursor, streamId: u32, flags: Flags) returns (r: Result<RequestNFrame>)
    modifies buf
    ensures Step(r, buf.rest) == Decoding(old(buf.rest), streamId, flags)
  {
    var n := CursorVisit.EatU31(buf);
    if n.Err? {
      return Err(n.error);
    }
    return Ok(RequestNFrame(streamId, n.value));
  }

  lemma RoundTrip(f: RequestNFrame)
    requires f.streamId <= MAX_U31 && f.requestN <= MAX_U31
    ensures HeaderIs(f.Encoding(), f.streamId, REQUEST_N, EMPTY)
    ensures Decoding(f.Encoding()[6..], f.streamId, EMPTY) == Step(Ok(f), [])
  {
    var body := Be(f.requestN, 4);
    HeaderReadsBack(f.streamId, REQUEST_N, EMPTY, body);
    assert body + [] == body;
    EatU31OfBe(f.requestN, []);
  }
}
