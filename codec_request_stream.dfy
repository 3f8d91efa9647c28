/** `frame/codec/request_stream.rs`: REQUEST_STREAM, a request for a stream of answers with an initial credit. */
module RequestStreamCodec {
  import opened Bytes
  import opened DecodeErrors
  import opened FrameFlags
  import opened FrameU24
  import opened FrameHeader
  import opened FrameVisit
  import opened Payloads
  import CursorVisit

  datatype RequestStreamFrame = RequestStreamFrame(streamId: u32, flags: Flags, initialRequestN: u32, payload: Payload)
  {
    /** `encode` can write the metadata length only when it fits a U24. */
    predicate Encodable()
    {
      |Section(payload.metadata)| <= FrameU24.MAX
    }

    /** Stream id, `REQUEST_STREAM | flags`, the u32 initial request count, the U24 metadata length, then the payload. */
    function Encoding(): seq<byte>
      requires Encodable()
    {
      Header(streamId, REQUEST_STREAM, flags) + Be(initialRequestN, 4) + PrefixedEncoding(payload)
    }

    /** `len`: 13 plus the payload length, the size of what `encode` writes. */
    function Len(): (n: nat)
      ensures Encodable() ==> n == |Encoding()|
    {
      13 + payload.Len()
    }

    method Encode(buf: BytesMut)
      requires Encodable()
      modifies buf
      ensures buf.bytes == old(buf.bytes) + Encoding()
    {
      PutHeader(buf, streamId, REQUEST_STREAM, flags);
      buf.PutU32(initialRequestN);
      PutPrefixedPayload(buf, payload);
    }
  }

  /**
   * `new`: the stream id and the initial request count keep their low 31
   * bits; FOLLOWS is set exactly when `follows`, METADATA exactly when the
   * payload has metadata, and no other flag.
   */
  function New(streamId: u32, follows: bool, initialRequestN: u32, payload: Payload): (f: RequestStreamFrame)
    ensures f.streamId <= MAX_U31 && (streamId <= MAX_U31 ==> f.streamId == streamId)
    ensures f.initialRequestN <= MAX_U31 && (initialRequestN <= MAX_U31 ==> f.initialRequestN == initialRequestN)
    ensures IsFollows(f.flags) == follows && IsMetadata(f.flags) == payload.HasMetadata()
    ensures f.flags & !(FOLLOWS | METADATA) == 0
    ensures f.payload == payload
  {
    RequestStreamFrame(Mask31(streamId), FollowsAndMetadata(follows, payload.HasMetadata()), Mask31(initialRequestN), payload)
  }

  /** `decode`: the count as a 31-bit value, then the payload; stream id and flags are kept as given. */
  function Decoding(s: seq<byte>, streamId: u32, flags: Flags): (st: Step<RequestStreamFrame>)
    ensures |s| < 7 ==> st.result == Err(InComplete)
    ensures st.result.Ok? ==>
      st.result.value.streamId == streamId && st.result.value.flags == flags &&
      st.result.value.initialRequestN <= MAX_U31 &&
      st.result.value.payload.SectionsNonEmpty() && st.rest == []
  {
    var n := EatU31(s);
    if n.result.Err? then Fail(n)
    else
      var p := EatPayload(n.rest, true);
      if p.result.Err? then Fail(p)
      else Step(Ok(RequestStreamFrame(streamId, flags, n.result.value, p.result.value)), p.rest)
  }

  method Decode(buf: Cursor, streamId: u32, flags: Flags) returns (r: Result<RequestStreamFrame>)
    modifies buf
    ensures Step(r, buf.rest) == Decoding(old(buf.rest), streamId, flags)
  {
    var n := CursorVisit.EatU31(buf);
    if n.Err? {
      return Err(n.error);
    }
    var p := CursorVisit.EatPayload(buf, true);
    if p.Err? {
      return Err(p.error);
    }
    return Ok(RequestStreamFrame(streamId, flags, n.value, p.value));
  }

  /** The frame reads back for a 31-bit count and payload sections that are absent or non-empty. */
  lemma RoundTrip(f: RequestStreamFrame)
    requires f.streamId <= MAX_U31 && f.initialRequestN <= MAX_U31
    requires f.Encodable() && f.payload.SectionsNonEmpty()
    ensures HeaderIs(f.Encoding(), f.streamId, REQUEST_STREAM, f.flags)
    ensures Decoding(f.Encoding()[6..], f.streamId, f.flags) == Step(Ok(f), [])
  {
    var tail := PrefixedEncoding(f.payload);
    var body := Be(f.initialRequestN, 4) + tail;
    assert f.Encoding() == Header(f.streamId, REQUEST_STREAM, f.flags) + body;
    HeaderReadsBack(f.streamId, REQUEST_STREAM, f.flags, body);
    EatU31OfBe(f.initialRequestN, tail);
    EatPayloadOf(f.payload);
  }
}
