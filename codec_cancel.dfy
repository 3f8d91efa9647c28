/** `frame/codec/cancel.rs`: CANCEL, a header and nothing else. */
module CancelCodec {
  import opened Bytes
  import opened DecodeErrors
  import opened FrameFlags
  import opened FrameHeader
  import opened FrameVisit

  datatype CancelFrame = CancelFrame(streamId: u32)
  {
    function Encoding(): seq<byte>
    {
      Header(streamId, CANCEL, EMPTY)
    }

    /** `len`: always 6, the size of what `encode` writes. */
    function Len(): (n: nat)
      ensures n == |Encoding()|
    {
      6
    }

    method Encode(buf: BytesMut)
      modifies buf
      ensures buf.bytes == old(buf.bytes) + Encoding()
    {
      PutHeader(buf, streamId, CANCEL, EMPTY);
    }
  }

  /** `new`: the stream id keeps only its low 31 bits. */
  function New(streamId: u32): (f: CancelFrame)
    ensures f.streamId <= MAX_U31
    ensures streamId <= MAX_U31 ==> f.streamId == streamId
  {
    CancelFrame(Mask31(streamId))
  }

  /** `decode`: consumes no body byte and always succeeds. */
  function Decoding(s: seq<byte>, streamId: u32, flags: Flags): (st: Step<CancelFrame>)
    ensures st.result.Ok? && st.rest == s && st.result.value.streamId == streamId
  {
    Step(Ok(CancelFrame(streamId)), s)
  }

  method Decode(buf: Cursor, streamId: u32, flags: Flags) returns (r: Result<CancelFrame>)
    ensures Step(r, buf.rest) == Decoding(buf.rest, streamId, flags)
  {
    return Ok(CancelFrame(streamId));
  }

  /** Encoding, reading the header, then decoding gives the frame back. */
  lemma RoundTrip(f: CancelFrame)
    requires f.streamId <= MAX_U31
    ensures HeaderIs(f.Encoding(), f.streamId, CANCEL, EMPTY)
    ensures Decoding(f.Encoding()[6..], f.streamId, EMPTY) == Step(Ok(f), [])
  {
    HeaderReadsBack(f.streamId, CANCEL, EMPTY, []);
    assert Header(f.streamId, CANCEL, EMPTY) + [] == f.Encoding();
  }
}
