/**
 * The 6-byte frame header every `encode` starts with: the stream id as a
 * big-endian u32, then the type and flags word (`frame/mod.rs`).
 */
module FrameHeader {
  import opened Bytes
  import opened DecodeErrors
  import opened FrameFlags
  import opened FrameVisit
  import opened FrameU24
  import opened Payloads

  function Header(streamId: u32, t: FrameType, f: Flags): (h: seq<byte>)
    ensures |h| == 6
  {
    Be(streamId, 4) + Be(HeaderWord(t, f) as int, 2)
  }

  method PutHeader(buf: BytesMut, streamId: u32, t: FrameType, f: Flags)
    modifies buf
    ensures buf.bytes == old(buf.bytes) + Header(streamId, t, f)
  {
    buf.PutU32(streamId);
    WordThroughInt(HeaderWord(t, f));
    buf.PutU16(HeaderWord(t, f) as int);
  }

  /** `s` starts with a header that reads back as stream id `streamId`, type `t` and flags `f`. */
  predicate HeaderIs(s: seq<byte>, streamId: u32, t: FrameType, f: Flags)
  {
    |s| >= 6 && EatStreamId(s) == Step(Ok(streamId), s[4..]) && EatFlags(s[4..]) == Step(Ok((t, f)), s[6..])
  }

  /**
   * The header reads back: `eat_stream_id` gives the stream id with its top
   * bit cleared, and `eat_flags` gives the type and the flags.
   */
  lemma HeaderReadsBack(streamId: u32, t: FrameType, f: Flags, body: seq<byte>)
    ensures HeaderIs(Header(streamId, t, f) + body, Mask31(streamId), t, f)
    ensures (Header(streamId, t, f) + body)[6..] == body
  {
    var s := Header(streamId, t, f) + body;
    var w := Be(HeaderWord(t, f) as int, 2);
    assert s == Be(streamId, 4) + (w + body);
    EatStreamIdOfBe(streamId, w + body);
    EatFlagsOf(t, f, body);
  }

  /**
   * The body tail shared by the frames that carry a payload: the metadata
   * length as a U24 (`U24::from_usize`, which rejects a length above
   * `U24::MAX`), then the payload.
   */
  method PutPrefixedPayload(buf: BytesMut, p: Payload)
    requires |Section(p.metadata)| <= FrameU24.MAX
    modifies buf
    ensures buf.bytes == old(buf.bytes) + PrefixedEncoding(p)
  {
    var u24 := FromU32(|Section(p.metadata)|);
    u24.Encode(buf);
    p.Encode(buf);
  }
}
