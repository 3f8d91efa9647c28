/** `frame/codec/request_response.rs`: REQUEST_RESPONSE, a request that expects a single answer. */
module RequestResponseCodec {
  import opened Bytes
  import opened DecodeErrors
  import opened FrameFlags
  import opened FrameU24
  import opened FrameHeader
  import opened FrameVisit
  import opened Payloads
  import CursorVisit

  datatype RequestResponseFrame = RequestResponseFrame(streamId: u32, flags: Flags, payload: Payload)
  {
    /** `encode` can write the metadata length only when it fits a U24. */
    predicate Encodable()
    {
      |Section(payload.metadata)| <= FrameU24.MAX
    }

    /** Stream id, `REQUEST_RESPONSE | flags`, the U24 metadata length, then the payload. */
    function Encoding(): seq<byte>
      requires Encodable()
    {
      Header(streamId, REQUEST_RESPONSE, flags) + PrefixedEncoding(payload)
    }

    /** `len`: 9 plus the payload length, the size of what `encode` writes. */
    function Len(): (n: nat)
      ensures Encodable() ==> n == |Encoding()|
    {
      9 + payload.Len()
    }

    method Encode(buf: BytesMut)
      requires Encodable()
      modifies buf
      ensures buf.bytes == old(buf.bytes) + Encoding()
    {
      PutHeader(buf, streamId, REQUEST_RESPONSE, flags);
      PutPrefixedPayload(buf, payload);
    }
  }

  /**
   * `new`: the stream id keeps its low 31 bits; FOLLOWS is set exactly when
   * `follows`, METADATA exactly when the payload has metadata, and no other flag.
   */
  function New(streamId: u32, follows: bool, payload: Payload): (f: RequestResponseFrame)
    ensures f.streamId <= MAX_U31 && (streamId <= MAX_U31 ==> f.streamId == streamId)
    ensures IsFollows(f.flags) == follows && IsMetadata(f.flags) == payload.HasMetadata()
    ensures f.flags & !(FOLLOWS | METADATA) == 0
    ensures f.payload == payload
  {
    RequestResponseFrame(Mask31(streamId), FollowsAndMetadata(follows, payload.HasMetadata()), payload)
  }

  /** `decode`: the payload after its U24 metadata length; stream id and flags are kept as given. */
  function Decoding(s: seq<byte>, streamId: u32, flags: Flags): (st: Step<RequestResponseFrame>)
    ensures |s| < 3 ==> st.result == Err(InComplete)
    ensures st.result.Ok? ==>
      st.result.value.streamId == streamId && st.result.value.flags == flags &&
      st.result.value.payload.SectionsNonEmpty() && st.rest == []
  {
    var p := EatPayload(s, true);
    if p.result.Err? then Fail(p) else Step(Ok(RequestResponseFrame(streamId, flags, p.result.value)), p.rest)
  }

  method Decode(buf: Cursor, streamId: u32, flags: Flags) returns (r: Result<RequestResponseFrame>)
    modifies buf
    ensures Step(r, buf.rest) == Decoding(old(buf.rest), streamId, flags)
  {
    var p := CursorVisit.EatPayload(buf, true);
    if p.Err? {
      return Err(p.error);
    }
    return Ok(RequestResponseFrame(streamId, flags, p.value));
  }

  /** The frame reads back, flags included, when every present payload section is non-empty. */
  lemma RoundTrip(f: RequestResponseFrame)
    requires f.streamId <= MAX_U31 && f.Encodable() && f.payload.SectionsNonEmpty()
    ensures HeaderIs(f.Encoding(), f.streamId, REQUEST_RESPONSE, f.flags)
    ensures Decoding(f.Encoding()[6..], f.streamId, f.flags) == Step(Ok(f), [])
  {
    HeaderReadsBack(f.streamId, REQUEST_RESPONSE, f.flags, PrefixedEncoding(f.payload));
    EatPayloadOf(f.payload);
  }
}
