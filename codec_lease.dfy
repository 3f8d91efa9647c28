/** `frame/codec/lease.rs`: LEASE, on stream 0, with a time-to-live, a request count and optional metadata. */
module LeaseCodec {
  import opened Wrappers
  import opened Bytes
  import opened DecodeErrors
  import opened FrameFlags
  import opened FrameHeader
  import opened FrameVisit
  import opened Payloads
  import CursorVisit

  datatype LeaseFrame = LeaseFrame(ttl: u32, numberOfRequests: u32, metadata: Option<seq<byte>>)
  {
    /** METADATA is set exactly when metadata is present. */
    function Flags(): Flags
    {
      if metadata.Some? then METADATA else EMPTY
    }

    function Encoding(): seq<byte>
    {
      Header(0, LEASE, Flags()) + Be(ttl, 4) + Be(numberOfRequests, 4) + Section(metadata)
    }

    /** `len`: 14 plus the metadata length, the size of what `encode` writes. */
    function Len(): (n: nat)
      ensures n == |Encoding()|
    {
      14 + if metadata.Some? then |metadata.value| else 0
    }

    method Encode(buf: BytesMut)
      modifies buf
      ensures buf.bytes == old(buf.bytes) + Encoding()
    {
      PutHeader(buf, 0, LEASE, Flags());
      buf.PutU32(ttl);
      buf.PutU32(numberOfRequests);
      ghost var fixed := buf.bytes;
      assert fixed == old(buf.bytes) + (Header(0, LEASE, Flags()) + Be(ttl, 4) + Be(numberOfRequests, 4));
      if metadata.Some? {
        buf.PutSlice(metadata.value);
      }
      AppendedTwo(old(buf.bytes), Header(0, LEASE, Flags()) + Be(ttl, 4) + Be(numberOfRequests, 4), fixed,
        Section(metadata), buf.bytes);
    }
  }

  /** `new` stores its arguments as given (the 31-bit bound is only a debug assertion). */
  function New(ttl: u32, numberOfRequests: u32, metadata: Option<seq<byte>>): (f: LeaseFrame)
    ensures f.ttl == ttl && f.numberOfRequests == numberOfRequests && f.metadata == metadata
  {
    LeaseFrame(ttl, numberOfRequests, metadata)
  }

  /**
   * `decode`: stream 0 only; ttl and count as 31-bit values; the metadata is
   * every byte after them, absent when there is none. The flags are not consulted.
   */
  function Decoding(s: seq<byte>, streamId: u32, flags: Flags): (st: Step<LeaseFrame>)
    ensures streamId != 0 ==> st == Step(Err(InvalidStreamId("0", streamId)), s)
    ensures streamId == 0 ==> (|s| < 8 <==> st.result == Err(InComplete))
    ensures st.result.Ok? ==>
      var f := st.result.value;
      f.ttl <= MAX_U31 && f.numberOfRequests <= MAX_U31 &&
      (f.metadata.None? <==> |s| == 8) && st.rest == []
  {
    if streamId != 0 then Step(Err(InvalidStreamId("0", streamId)), s)
    else
      var ttl := EatU31(s);
      if ttl.result.Err? then Fail(ttl)
      else
        var n := EatU31(ttl.rest);
        if n.result.Err? then Fail(n)
        else
          var m := EatRemaining(n.rest);
          Step(Ok(LeaseFrame(ttl.result.value, n.result.value, m.result.value)), m.rest)
  }

  method Decode(buf: Cursor, streamId: u32, flags: Flags) returns (r: Result<LeaseFrame>)
    modifies buf
    ensures Step(r, buf.rest) == Decoding(old(buf.rest), streamId, flags)
  {
    if streamId != 0 {
      return Err(InvalidStreamId("0", streamId));
    }
    var ttl := CursorVisit.EatU31(buf);
    if ttl.Err? {
      return Err(ttl.error);
    }
    var n := CursorVisit.EatU31(buf);
    if n.Err? {
      return Err(n.error);
    }
    var m := CursorVisit.EatRemaining(buf);
    return Ok(LeaseFrame(ttl.value, n.value, m.value));
  }

  /** The frame reads back for 31-bit fields and metadata that is absent or non-empty. */
  lemma RoundTrip(f: LeaseFrame)
    requires f.ttl <= MAX_U31 && f.numberOfRequests <= MAX_U31
    requires f.metadata.Some? ==> f.metadata.value != []
    ensures HeaderIs(f.Encoding(), 0, LEASE, f.Flags())
    ensures Decoding(f.Encoding()[6..], 0, f.Flags()) == Step(Ok(f), [])
  {
    var tail := Be(f.numberOfRequests, 4) + Section(f.metadata);
    var body := Be(f.ttl, 4) + tail;
    assert f.Encoding() == Header(0, LEASE, f.Flags()) + body;
    HeaderReadsBack(0, LEASE, f.Flags(), body);
    EatU31OfBe(f.ttl, tail);
    EatU31OfBe(f.numberOfRequests, Section(f.metadata));
  }
}
