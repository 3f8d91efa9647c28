/** `frame/codec/payload.rs`: PAYLOAD, one element (or the completion) of a stream. */
module PayloadCodec {
  import opened Bytes
  import opened DecodeErrors
  import opened FrameFlags
  import opened FrameU24
  import opened FrameHeader
  import opened FrameVisit
  import opened Payloads
  import CursorVisit

  datatype PayloadFrame = PayloadFrame(streamId: u32, flags: Flags, payload: Payload)
  {
    /** `encode` can write the metadata length only when it fits a U24. */
    predicate Encodable()
    {
      |Section(payload.metadata)| <= FrameU24.MAX
    }

    /** Stream id, `PAYLOAD | flags`, the U24 metadata length, then the payload. */
    function Encoding(): seq<byte>
      requires Encodable()
    {
      Header(streamId, PAYLOAD, flags) + PrefixedEncoding(payload)
    }

    /** `len`: 9 plus the payload length, the size of what `encode` writes. */
    function Len(): (n: nat)
      ensures Encodable() ==> n == |Encoding()|
    {
      9 + payload.Len()
    }

    method Encode(buf: BytesMut)
      requires Encodable()
      modifies buf
      ensures buf.bytes == old(buf.bytes) + Encoding()
    {
      PutHeader(buf, streamId, PAYLOAD, flags);
      PutPrefixedPayload(buf, payload);
    }
  }

  /** The flags a PAYLOAD frame may be given: FOLLOWS, COMPLETE and NEXT. */
  const STREAM_FLAGS: Flags := FOLLOWS | COMPLETE | NEXT

  /**
   * `new`: the stream id keeps its low 31 bits; of the given flags only
   * FOLLOWS, COMPLETE and NEXT are kept, and METADATA is added exactly when the
   * payload has metadata.
   */
  function New(streamId: u32, flags: Flags, payload: Payload): (f: PayloadFrame)
    ensures f.streamId <= MAX_U31 && (streamId <= MAX_U31 ==> f.streamId == streamId)
    ensures IsFollows(f.flags) == IsFollows(flags)
    ensures IsComplete(f.flags) == IsComplete(flags)
    ensures IsNext(f.flags) == IsNext(flags)
    ensures IsMetadata(f.flags) == payload.HasMetadata()
    ensures f.flags & !(STREAM_FLAGS | METADATA) == 0
    ensures f.payload == payload
  {
    var kept := flags & STREAM_FLAGS;
    PayloadFrame(Mask31(streamId), kept | (if payload.HasMetadata() then METADATA else EMPTY), payload)
  }

  /** `decode`: the payload after its U24 metadata length; the flags are kept verbatim. */
  function Decoding(s: seq<byte>, streamId: u32, flags: Flags): (st: Step<PayloadFrame>)
    ensures |s| < 3 ==> st.result == Err(InComplete)
    ensures st.result.Ok? ==>
      st.result.value.streamId == streamId && st.result.value.flags == flags &&
      st.result.value.payload.SectionsNonEmpty() && st.rest == []
  {
    var p := EatPayload(s, true);
    if p.result.Err? then Fail(p) else Step(Ok(PayloadFrame(streamId, flags, p.result.value)), p.rest)
  }

  method Decode(buf: Cursor, streamId: u32, flags: Flags) returns (r: Result<PayloadFrame>)
    modifies buf
    ensures Step(r, buf.rest) == Decoding(old(buf.rest), streamId, flags)
  {
    var p := CursorVisit.EatPayload(buf, true);
    if p.Err? {
      return Err(p.error);
    }
    return Ok(PayloadFrame(streamId, flags, p.value));
  }

  /** The frame reads back, FOLLOWS, COMPLETE and NEXT included, when every present payload section is non-empty. */
  lemma RoundTrip(f: PayloadFrame)
    requires f.streamId <= MAX_U31 && f.Encodable() && f.payload.SectionsNonEmpty()
    ensures HeaderIs(f.Encoding(), f.streamId, PAYLOAD, f.flags)
    ensures Decoding(f.Encoding()[6..], f.streamId, f.flags) == Step(Ok(f), [])
  {
    HeaderReadsBack(f.streamId, PAYLOAD, f.flags, PrefixedEncoding(f.payload));
    EatPayloadOf(f.payload);
  }
}
