/** `frame/codec/metadata_push.rs`: METADATA_PUSH, on stream 0, carrying only metadata. */
module MetadataPushCodec {
  import opened Bytes
  import opened DecodeErrors
  import opened FrameFlags
  import opened FrameHeader
  import opened FrameVisit
  import CursorVisit

  datatype MetadataPushFrame = MetadataPushFrame(metadata: seq<byte>)
  {
    /** Stream 0, and the METADATA flag always. */
    function Encoding(): seq<byte>
    {
      Header(0, METADATA_PUSH, METADATA) + metadata
    }

    /** `len`: 6 plus the metadata length, the size of what `encode` writes. */
    function Len(): (n: nat)
      ensures n == |Encoding()|
    {
      6 + |metadata|
    }

    method Encode(buf: BytesMut)
      modifies buf
      ensures buf.bytes == old(buf.bytes) + Encoding()
    {
      PutHeader(buf, 0, METADATA_PUSH, METADATA);
      buf.PutSlice(metadata);
    }
  }

  function New(metadata: seq<byte>): (f: MetadataPushFrame)
    ensures f.metadata == metadata
  {
    MetadataPushFrame(metadata)
  }

  /** `decode`: every remaining byte is metadata; no bytes give empty metadata, never an error. */
  function Decoding(s: seq<byte>, streamId: u32, flags: Flags): (st: Step<MetadataPushFrame>)
    ensures st == Step(Ok(MetadataPushFrame(s)), [])
  {
    var m := EatBytes(s, |s|);
    assert s[..|s|] == s;
    Step(Ok(MetadataPushFrame(m.result.value)), m.rest)
  }

  method Decode(buf: Cursor, streamId: u32, flags: Flags) returns (r: Result<MetadataPushFrame>)
    modifies buf
    ensures Step(r, buf.rest) == Decoding(old(buf.rest), streamId, flags)
  {
    var m := CursorVisit.EatBytes(buf, buf.Remaining());
    return Ok(MetadataPushFrame(m.value));
  }

  /** Any metadata reads back, the empty one included. */
  lemma RoundTrip(f: MetadataPushFrame)
    ensures HeaderIs(f.Encoding(), 0, METADATA_PUSH, METADATA)
    ensures Decoding(f.Encoding()[6..], 0, METADATA) == Step(Ok(f), [])
  {
    HeaderReadsBack(0, METADATA_PUSH, METADATA, f.metadata);
  }
}
