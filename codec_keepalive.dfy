/** `frame/codec/keepalive.rs`: KEEPALIVE, on stream 0, with a position and optional data. */
module KeepaliveCodec {
  import opened Wrappers
  import opened Bytes
  import opened DecodeErrors
  import opened FrameFlags
  import opened FrameHeader
  import opened FrameVisit
  import opened Payloads
  import CursorVisit

  datatype KeepaliveFrame = KeepaliveFrame(respond: bool, lastReceivedPosition: u64, data: Option<seq<byte>>)
  {
    /** RESPOND is set exactly when the peer is asked to answer. */
    function Flags(): Flags
    {
      if respond then RESPOND else EMPTY
    }

    function Encoding(): seq<byte>
    {
      Header(0, KEEPALIVE, Flags()) + Be(lastReceivedPosition, 8) + Section(data)
    }

    /** `len`: 14 plus the data length, the size of what `encode` writes. */
    function Len(): (n: nat)
      ensures n == |Encoding()|
    {
      14 + if data.Some? then |data.value| else 0
    }

    method Encode(buf: BytesMut)
      modifies buf
      ensures buf.bytes == old(buf.bytes) + Encoding()
    {
      PutHeader(buf, 0, KEEPALIVE, Flags());
      buf.PutU64(lastReceivedPosition);
      if data.Some? {
        buf.PutSlice(data.value);
      }
    }
  }

  /** `new`: the position keeps only its low 63 bits. */
  function New(position: u64, data: Option<seq<byte>>, respond: bool): (f: KeepaliveFrame)
    ensures f.lastReceivedPosition <= MAX_U63 && f.data == data && f.respond == respond
    ensures position <= MAX_U63 ==> f.lastReceivedPosition == position
  {
    KeepaliveFrame(respond, Mask63(position), data)
  }

  /**
   * `decode`: stream 0 only; `respond` is the RESPOND flag; a 63-bit position;
   * the data is every byte after it, absent when there is none.
   */
  function Decoding(s: seq<byte>, streamId: u32, flags: Flags): (st: Step<KeepaliveFrame>)
    ensures streamId != 0 ==> st == Step(Err(InvalidStreamId("0", streamId)), s)
    ensures streamId == 0 ==> (|s| < 8 <==> st.result == Err(InComplete))
    ensures st.result.Ok? ==>
      var f := st.result.value;
      f.respond == Contains(flags, RESPOND) && f.lastReceivedPosition <= MAX_U63 &&
      (f.data.None? <==> |s| == 8) && st.rest == []
  {
    if streamId != 0 then Step(Err(InvalidStreamId("0", streamId)), s)
    else
      var respond := Contains(flags, RESPOND);
      var p := EatU63(s);
      if p.result.Err? then Fail(p)
      else
        var d := EatRemaining(p.rest);
        Step(Ok(KeepaliveFrame(respond, p.result.value, d.result.value)), d.rest)
  }

  method Decode(buf: Cursor, streamId: u32, flags: Flags) returns (r: Result<KeepaliveFrame>)
    modifies buf
    ensures Step(r, buf.rest) == Decoding(old(buf.rest), streamId, flags)
  {
    if streamId != 0 {
      return Err(InvalidStreamId("0", streamId));
    }
    var respond := Contains(flags, RESPOND);
    var p := CursorVisit.EatU63(buf);
    if p.Err? {
      return Err(p.error);
    }
    var d := CursorVisit.EatRemaining(buf);
    return Ok(KeepaliveFrame(respond, p.value, d.value));
  }

  /** The frame reads back when the data is absent or non-empty. */
  lemma RoundTrip(f: KeepaliveFrame)
    requires f.lastReceivedPosition <= MAX_U63
    requires f.data.Some? ==> f.data.value != []
    ensures HeaderIs(f.Encoding(), 0, KEEPALIVE, f.Flags())
    ensures Decoding(f.Encoding()[6..], 0, f.Flags()) == Step(Ok(f), [])
  {
    var body := Be(f.lastReceivedPosition, 8) + Section(f.data);
    assert f.Encoding() == Header(0, KEEPALIVE, f.Flags()) + body;
    HeaderReadsBack(0, KEEPALIVE, f.Flags(), body);
    EatU63OfBe(f.lastReceivedPosition, Section(f.data));
    assert Contains(f.Flags(), RESPOND) == f.respond;
  }

  /** `Some` empty data is written as nothing and read back as absent. */
  lemma EmptyDataReadsAsAbsent(position: u64)
    requires position <= MAX_U63
    ensures Decoding(KeepaliveFrame(false, position, Some([])).Encoding()[6..], 0, EMPTY)
      == Step(Ok(KeepaliveFrame(false, position, None)), [])
  {
    RoundTrip(KeepaliveFrame(false, position, None));
  }
}
