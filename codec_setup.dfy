/**
 * `frame/codec/setup.rs`: SETUP, the first frame a client sends on stream 0:
 * the protocol version, the keepalive interval and maximum lifetime, an
 * optional resume token, the metadata and data mimetypes, and a payload.
 * `SetupFrameBuilder` assembles one from defaults.
 */
module SetupCodec {
  import opened Wrappers
  import opened Bytes
  import opened DecodeErrors
  import opened FrameFlags
  import opened FrameVersion
  import opened FrameU24
  import opened FrameHeader
  import opened FrameVisit
  import opened Payloads
  import MimeTypes
  import CursorVisit

  /** A mimetype with the one-byte length `encode` writes before it (`len() as u8`). */
  function MimeEncoding(m: seq<byte>): (e: seq<byte>)
    ensures |e| == 1 + |m|
  {
    [|m| % 0x100] + m
  }

  /** The resume token with its u16 length (`len() as u16`), or nothing when there is no token. */
  function TokenEncoding(token: Option<seq<byte>>): seq<byte>
  {
    if token.Some? then Be(|token.value| % 0x1_0000, 2) + token.value else []
  }

  datatype SetupFrame = SetupFrame(
    flags: Flags,
    version: Version,
    keepaliveInterval: u32,
    keepaliveTimeout: u32,
    resumeToken: Option<seq<byte>>,
    metadataMimetype: seq<byte>,
    dataMimetype: seq<byte>,
    payload: Payload)
  {
    predicate IsLease() { Contains(flags, LEASE_FLAG) }
    predicate IsResume() { Contains(flags, RESUME_FLAG) }

    /** `encode` can write the metadata length only when it fits a U24. */
    predicate Encodable()
    {
      |Section(payload.metadata)| <= FrameU24.MAX
    }

    /** Stream 0, `SETUP | flags`, the version, the two u32 durations in milliseconds. */
    function FixedEncoding(): (e: seq<byte>)
      ensures |e| == 18
    {
      Header(0, SETUP, flags) + version.Encoding() + Be(keepaliveInterval, 4) + Be(keepaliveTimeout, 4)
    }

    /**
     * The fixed part, then the token (with its length) only when there is one,
     * each mimetype after its length byte, the U24 metadata length and the payload.
     */
    function Encoding(): seq<byte>
      requires Encodable()
    {
      FixedEncoding() + TokenEncoding(resumeToken) + MimeEncoding(metadataMimetype) + MimeEncoding(dataMimetype)
        + PrefixedEncoding(payload)
    }

    /**
     * `len` as written: a fixed 20 that counts the 2-byte token length even
     * when no token is written, so it overstates the encoded size by 2
     * whenever there is no token.
     */
    function Len(): (n: nat)
      ensures Encodable() && resumeToken.Some? ==> n == |Encoding()|
      ensures Encodable() && resumeToken.None? ==> n == |Encoding()| + 2
    {
      var token := if resumeToken.Some? then |resumeToken.value| else 0;
      20 + token + 1 + |metadataMimetype| + 1 + |dataMimetype| + 3 + payload.Len()
    }

    /** The size `encode` writes: the token length field counts only when a token is written. */
    function EncodedLen(): (n: nat)
      ensures Encodable() ==> n == |Encoding()|
    {
      var token := if resumeToken.Some? then 2 + |resumeToken.value| else 0;
      18 + token + 1 + |metadataMimetype| + 1 + |dataMimetype| + 3 + payload.Len()
    }

    /** The steps of `encode` that write the fixed part. */
    method PutFixed(buf: BytesMut)
      modifies buf
      ensures buf.bytes == old(buf.bytes) + FixedEncoding()
    {
      PutHeader(buf, 0, SETUP, flags);
      version.Encode(buf);
      buf.PutU32(keepaliveInterval);
      buf.PutU32(keepaliveTimeout);
    }

    method Encode(buf: BytesMut)
      requires Encodable()
      modifies buf
      ensures buf.bytes == old(buf.bytes) + Encoding()
    {
      PutFixed(buf);
      PutToken(buf, resumeToken);
      PutMimetype(buf, metadataMimetype);
      PutMimetype(buf, dataMimetype);
      PutPrefixedPayload(buf, payload);
    }
  }

  /** The token and its u16 length, written only when there is a token. */
  method PutToken(buf: BytesMut, token: Option<seq<byte>>)
    modifies buf
    ensures buf.bytes == old(buf.bytes) + TokenEncoding(token)
  {
    if token.Some? {
      buf.PutU16(|token.value| % 0x1_0000);
      buf.PutSlice(token.value);
    }
  }

  /** The length byte and the bytes of a mimetype, as `encode` writes each one. */
  method PutMimetype(buf: BytesMut, m: seq<byte>)
    modifies buf
    ensures buf.bytes == old(buf.bytes) + MimeEncoding(m)
  {
    buf.PutU8(|m| % 0x100);
    buf.PutSlice(m);
  }

  /** A mimetype as `decode` reads it: `eat_u8` for the length, then `eat_bytes`. */
  function EatMimetype(s: seq<byte>): (st: Step<seq<byte>>)
    ensures st.result.Ok? ==> |s| >= 2 && |st.result.value| < 0x100 && st.result.value + st.rest == s[1..]
    ensures |s| < 2 ==> st.result == Err(InComplete)
  {
    var len := EatU8(s);
    if len.result.Err? then Fail(len) else EatBytes(len.rest, len.result.value)
  }

  /**
   * `decode`: the version, the interval and the lifetime as 31-bit values,
   * the resume token only when the incoming flags have RESUME, both
   * mimetypes, then the payload. The flags are kept as given; the stream id
   * is not looked at.
   */
  function Decoding(s: seq<byte>, streamId: u32, flags: Flags): (st: Step<SetupFrame>)
    ensures |s| < 4 ==> st.result == Err(InComplete)
    ensures st.result.Ok? ==>
      var f := st.result.value;
      f.flags == flags && f.keepaliveInterval <= MAX_U31 && f.keepaliveTimeout <= MAX_U31 &&
      (f.resumeToken.Some? <==> Contains(flags, RESUME_FLAG)) &&
      |f.metadataMimetype| < 0x100 && |f.dataMimetype| < 0x100 &&
      f.payload.SectionsNonEmpty() && st.rest == []
  {
    var v := EatVersion(s);
    if v.result.Err? then Fail(v)
    else
      var keepalive := EatU31(v.rest);
      if keepalive.result.Err? then Fail(keepalive)
      else
        var lifetime := EatU31(keepalive.rest);
        if lifetime.result.Err? then Fail(lifetime)
        else DecodingAfterLifetime(lifetime.rest, flags, v.result.value, keepalive.result.value, lifetime.result.value)
  }

  /** What follows the lifetime: the token (only under RESUME), the two mimetypes and the payload. */
  function DecodingAfterLifetime(s: seq<byte>, flags: Flags, version: Version, keepalive: u32, lifetime: u32)
    : (st: Step<SetupFrame>)
    requires keepalive <= MAX_U31 && lifetime <= MAX_U31
    ensures st.result.Ok? ==>
      var f := st.result.value;
      f.flags == flags && f.version == version && f.keepaliveInterval == keepalive && f.keepaliveTimeout == lifetime &&
      (f.resumeToken.Some? <==> Contains(flags, RESUME_FLAG)) &&
      |f.metadataMimetype| < 0x100 && |f.dataMimetype| < 0x100 &&
      f.payload.SectionsNonEmpty() && st.rest == []
  {
    var token := EatResumeToken(s, flags);
    if token.result.Err? then Fail(token)
    else
      var mm := EatMimetype(token.rest);
      if mm.result.Err? then Fail(mm)
      else
        var dm := EatMimetype(mm.rest);
        if dm.result.Err? then Fail(dm)
        else
          var p := EatPayload(dm.rest, true);
          if p.result.Err? then Fail(p)
          else
            Step(Ok(SetupFrame(flags, version, keepalive, lifetime,
                               token.result.value, mm.result.value, dm.result.value, p.result.value)), p.rest)
  }

  method Decode(buf: Cursor, streamId: u32, flags: Flags) returns (r: Result<SetupFrame>)
    modifies buf
    ensures Step(r, buf.rest) == Decoding(old(buf.rest), streamId, flags)
  {
    var version := CursorVisit.EatVersion(buf);
    if version.Err? {
      return Err(version.error);
    }
    var keepalive := CursorVisit.EatU31(buf);
    if keepalive.Err? {
      return Err(keepalive.error);
    }
    var lifetime := CursorVisit.EatU31(buf);
    if lifetime.Err? {
      return Err(lifetime.error);
    }
    var token := CursorVisit.EatResumeToken(buf, flags);
    if token.Err? {
      return Err(token.error);
    }
    var mmLen := CursorVisit.EatU8(buf);
    if mmLen.Err? {
      return Err(mmLen.error);
    }
    var mm := CursorVisit.EatBytes(buf, mmLen.value);
    if mm.Err? {
      return Err(mm.error);
    }
    var dmLen := CursorVisit.EatU8(buf);
    if dmLen.Err? {
      return Err(dmLen.error);
    }
    var dm := CursorVisit.EatBytes(buf, dmLen.value);
    if dm.Err? {
      return Err(dm.error);
    }
    var p := CursorVisit.EatPayload(buf, true);
    if p.Err? {
      return Err(p.error);
    }
    return Ok(SetupFrame(flags, version.value, keepalive.value, lifetime.value, token.value, mm.value, dm.value, p.value));
  }

  /** A mimetype of at most 255 bytes reads back when at least one more byte follows it. */
  lemma EatMimetypeOf(m: seq<byte>, t: seq<byte>)
    requires |m| < 0x100 && |t| >= 1
    ensures EatMimetype(MimeEncoding(m) + t) == Step(Ok(m), t)
  {
    assert MimeEncoding(m) + t == [|m|] + (m + t);
    EatU8Of(|m|, m + t);
    EatBytesOf(m, t);
  }

  /**
   * A 256-byte mimetype, which the setters accept, is written with the length
   * byte 0: it reads back as the empty mimetype and its bytes are left to be
   * misread as what follows.
   */
  lemma MimetypeOf256BytesReadsAsEmpty(m: seq<byte>, t: seq<byte>)
    requires |m| == 0x100
    ensures MimeEncoding(m)[0] == 0
    ensures EatMimetype(MimeEncoding(m) + t) == Step(Ok([]), m + t)
  {
    assert MimeEncoding(m) + t == [0] + (m + t);
    EatU8Of(0, m + t);
    EatBytesOf([], m + t);
  }

  /**
   * The frame reads back when a token is present exactly when RESUME is set
   * (and is at most 65,535 bytes), the durations are 31-bit, each mimetype
   * is at most 255 bytes and every present payload section is non-empty.
   */
  lemma RoundTrip(f: SetupFrame)
    requires f.resumeToken.Some? <==> Contains(f.flags, RESUME_FLAG)
    requires f.resumeToken.Some? ==> |f.resumeToken.value| < 0x1_0000
    requires f.keepaliveInterval <= MAX_U31 && f.keepaliveTimeout <= MAX_U31
    requires |f.metadataMimetype| < 0x100 && |f.dataMimetype| < 0x100
    requires f.Encodable() && f.payload.SectionsNonEmpty()
    ensures HeaderIs(f.Encoding(), 0, SETUP, f.flags)
    ensures Decoding(f.Encoding()[6..], 0, f.flags) == Step(Ok(f), [])
  {
    EncodingSplits(f);
    FixedFieldsReadBack(f.version, f.keepaliveInterval, f.keepaliveTimeout, f.flags, AfterLifetime(f));
    AfterLifetimeRoundTrip(f);
  }

  /** The encoding starts with the SETUP header on stream 0; the fixed fields and the rest follow it. */
  lemma EncodingSplits(f: SetupFrame)
    requires f.Encodable()
    ensures HeaderIs(f.Encoding(), 0, SETUP, f.flags)
    ensures f.Encoding()[6..] == AfterHeader(f)
  {
    EncodingIsHeaderAndRest(f);
    HeaderReadsBack(0, SETUP, f.flags, AfterHeader(f));
  }

  lemma EncodingIsHeaderAndRest(f: SetupFrame)
    requires f.Encodable()
    ensures f.Encoding() == Header(0, SETUP, f.flags) + AfterHeader(f)
  {
  }

  /** The bytes of `f.Encoding()` after the header. */
  function AfterHeader(f: SetupFrame): seq<byte>
    requires f.Encodable()
  {
    f.version.Encoding() + (Be(f.keepaliveInterval, 4) + (Be(f.keepaliveTimeout, 4) + AfterLifetime(f)))
  }

  /** The version and the two durations read back, and decoding goes on with what follows them. */
  lemma FixedFieldsReadBack(version: Version, keepalive: u32, lifetime: u32, flags: Flags, t: seq<byte>)
    requires keepalive <= MAX_U31 && lifetime <= MAX_U31
    ensures Decoding(version.Encoding() + (Be(keepalive, 4) + (Be(lifetime, 4) + t)), 0, flags)
            == DecodingAfterLifetime(t, flags, version, keepalive, lifetime)
  {
    EatVersionOf(version, Be(keepalive, 4) + (Be(lifetime, 4) + t));
    EatU31OfBe(keepalive, Be(lifetime, 4) + t);
    EatU31OfBe(lifetime, t);
  }

  /** The bytes of `f.Encoding()` after the fixed 18. */
  function AfterLifetime(f: SetupFrame): (e: seq<byte>)
    requires f.Encodable()
    ensures f.Encoding() == f.FixedEncoding() + e
    ensures e == TokenEncoding(f.resumeToken) + AfterToken(f)
  {
    TokenEncoding(f.resumeToken) + AfterToken(f)
  }

  /** The bytes of `f.Encoding()` after the token. */
  function AfterToken(f: SetupFrame): (e: seq<byte>)
    requires f.Encodable()
    ensures e == MimeEncoding(f.metadataMimetype) + (MimeEncoding(f.dataMimetype) + PrefixedEncoding(f.payload))
  {
    MimeEncoding(f.metadataMimetype) + (MimeEncoding(f.dataMimetype) + PrefixedEncoding(f.payload))
  }

  lemma TokenReadsBack(f: SetupFrame)
    requires f.Encodable()
    requires f.resumeToken.Some? <==> Contains(f.flags, RESUME_FLAG)
    requires f.resumeToken.Some? ==> |f.resumeToken.value| < 0x1_0000
    ensures EatResumeToken(AfterLifetime(f), f.flags) == Step(Ok(f.resumeToken), AfterToken(f))
  {
    if f.resumeToken.Some? {
      PresentTokenReadsBack(f.resumeToken.value, f.flags, AfterToken(f));
    }
  }

  lemma PresentTokenReadsBack(token: seq<byte>, flags: Flags, t: seq<byte>)
    requires |token| < 0x1_0000 && Contains(flags, RESUME_FLAG)
    ensures EatResumeToken(TokenEncoding(Some(token)) + t, flags) == Step(Ok(Some(token)), t)
  {
    assert TokenEncoding(Some(token)) + t == Be(|token|, 2) + (token + t);
    EatResumeTokenOf(token, flags, t);
  }

  lemma MimetypesAndPayloadReadBack(f: SetupFrame)
    requires f.Encodable() && f.payload.SectionsNonEmpty()
    requires |f.metadataMimetype| < 0x100 && |f.dataMimetype| < 0x100
    ensures EatMimetype(AfterToken(f)) == Step(Ok(f.metadataMimetype), MimeEncoding(f.dataMimetype) + PrefixedEncoding(f.payload))
    ensures EatMimetype(MimeEncoding(f.dataMimetype) + PrefixedEncoding(f.payload)) == Step(Ok(f.dataMimetype), PrefixedEncoding(f.payload))
    ensures EatPayload(PrefixedEncoding(f.payload), true) == Step(Ok(f.payload), [])
  {
    var tail := PrefixedEncoding(f.payload);
    assert |tail| >= 3;
    EatMimetypeOf(f.metadataMimetype, MimeEncoding(f.dataMimetype) + tail);
    EatMimetypeOf(f.dataMimetype, tail);
    EatPayloadOf(f.payload);
  }

  lemma AfterLifetimeRoundTrip(f: SetupFrame)
    requires f.Encodable() && f.payload.SectionsNonEmpty()
    requires f.resumeToken.Some? <==> Contains(f.flags, RESUME_FLAG)
    requires f.resumeToken.Some? ==> |f.resumeToken.value| < 0x1_0000
    requires f.keepaliveInterval <= MAX_U31 && f.keepaliveTimeout <= MAX_U31
    requires |f.metadataMimetype| < 0x100 && |f.dataMimetype| < 0x100
    ensures DecodingAfterLifetime(AfterLifetime(f), f.flags, f.version, f.keepaliveInterval, f.keepaliveTimeout)
            == Step(Ok(f), [])
  {
    TokenReadsBack(f);
    MimetypesAndPayloadReadBack(f);
  }

  /** `SETUP` with the defaults of `consts.rs`: 30 s between KEEPALIVE frames and a 60 s lifetime. */
  const DEFAULT_KEEPALIVE_INTERVAL: u32 := 30_000
  const DEFAULT_KEEPALIVE_TIMEOUT: u32 := 60_000

  /** The bytes of `DEFAULT_MIMETYPE`, "application/binary", one per character. */
  const DEFAULT_MIMETYPE_BYTES: seq<byte> := [0x61, 0x70, 0x70, 0x6c, 0x69, 0x63, 0x61, 0x74, 0x69, 0x6f, 0x6e, 0x2f, 0x62, 0x69, 0x6e, 0x61, 0x72, 0x79]

  lemma DefaultMimetypeBytes()
    ensures |DEFAULT_MIMETYPE_BYTES| == |MimeTypes.DEFAULT_MIMETYPE| == 18
    ensures forall i :: 0 <= i < 18 ==> DEFAULT_MIMETYPE_BYTES[i] == MimeTypes.DEFAULT_MIMETYPE[i] as int
  {
  }

  /**
   * `SetupFrameBuilder`: each setter takes the builder by value and returns
   * the updated builder, so the builder is a value and each setter a function.
   * Mimetypes are the bytes of the strings given.
   */
  datatype SetupFrameBuilder = SetupFrameBuilder(
    flags: Flags,
    version: Version,
    keepaliveInterval: u32,
    keepaliveTimeout: u32,
    resumeToken: Option<seq<byte>>,
    metadataMimetype: seq<byte>,
    dataMimetype: seq<byte>,
    payload: Payload)
  {
    function SetResumeFlag(): (b: SetupFrameBuilder)
      ensures Contains(b.flags, RESUME_FLAG) && b == this.(flags := b.flags)
      ensures forall g: Flags :: Contains(flags, g) ==> Contains(b.flags, g)
      ensures b.flags == Union(flags, RESUME_FLAG)
    {
      this.(flags := Union(flags, RESUME_FLAG))
    }

    function SetLeaseFlag(): (b: SetupFrameBuilder)
      ensures Contains(b.flags, LEASE_FLAG) && b == this.(flags := b.flags)
      ensures forall g: Flags :: Contains(flags, g) ==> Contains(b.flags, g)
      ensures b.flags == Union(flags, LEASE_FLAG)
    {
      this.(flags := Union(flags, LEASE_FLAG))
    }

    function SetVersion(major: u16, minor: u16): (b: SetupFrameBuilder)
      ensures b.version.major == major && b.version.minor == minor && b == this.(version := b.version)
    {
      this.(version := FrameVersion.New(major, minor))
    }

    /** The interval keeps its low 31 bits. */
    function SetKeepaliveInterval(interval: u32): (b: SetupFrameBuilder)
      ensures b.keepaliveInterval <= MAX_U31 && (interval <= MAX_U31 ==> b.keepaliveInterval == interval)
      ensures b == this.(keepaliveInterval := b.keepaliveInterval)
    {
      this.(keepaliveInterval := Mask31(interval))
    }

    /** The lifetime keeps its low 31 bits. */
    function SetKeepaliveTimeout(timeout: u32): (b: SetupFrameBuilder)
      ensures b.keepaliveTimeout <= MAX_U31 && (timeout <= MAX_U31 ==> b.keepaliveTimeout == timeout)
      ensures b == this.(keepaliveTimeout := b.keepaliveTimeout)
    {
      this.(keepaliveTimeout := Mask31(timeout))
    }

    /** Stores the token and sets RESUME; a token over 65,535 bytes panics. */
    function SetResumeToken(token: seq<byte>): (b: SetupFrameBuilder)
      requires |token| <= 65_535
      ensures b.resumeToken == Some(token) && Contains(b.flags, RESUME_FLAG)
      ensures forall g: Flags :: Contains(flags, g) ==> Contains(b.flags, g)
      ensures b.flags == Union(flags, RESUME_FLAG)
      ensures b == this.(resumeToken := b.resumeToken, flags := b.flags)
    {
      this.(resumeToken := Some(token), flags := Union(flags, RESUME_FLAG))
    }

    /** As written: a mimetype up to 256 bytes is accepted, one more than its length byte can hold. */
    function SetMetadataMimetype(mimetype: seq<byte>): (b: SetupFrameBuilder)
      requires |mimetype| <= 256
      ensures b.metadataMimetype == mimetype && b == this.(metadataMimetype := mimetype)
    {
      this.(metadataMimetype := mimetype)
    }

    /** As written: a mimetype up to 256 bytes is accepted, one more than its length byte can hold. */
    function SetDataMimetype(mimetype: seq<byte>): (b: SetupFrameBuilder)
      requires |mimetype| <= 256
      ensures b.dataMimetype == mimetype && b == this.(dataMimetype := mimetype)
    {
      this.(dataMimetype := mimetype)
    }

    /** The metadata setter with the bound the length byte needs: at most 255 bytes. */
    function SetMetadataMimetypeBounded(mimetype: seq<byte>): (b: SetupFrameBuilder)
      requires |mimetype| <= 255
      ensures b.metadataMimetype == mimetype && b == this.(metadataMimetype := mimetype)
      ensures Sendable() ==> b.Sendable()
    {
      this.(metadataMimetype := mimetype)
    }

    /** The data setter with the bound the length byte needs: at most 255 bytes. */
    function SetDataMimetypeBounded(mimetype: seq<byte>): (b: SetupFrameBuilder)
      requires |mimetype| <= 255
      ensures b.dataMimetype == mimetype && b == this.(dataMimetype := mimetype)
      ensures Sendable() ==> b.Sendable()
    {
      this.(dataMimetype := mimetype)
    }

    /** Stores the metadata and sets METADATA. */
    function SetMetadata(metadata: seq<byte>): (b: SetupFrameBuilder)
      ensures b.payload.metadata == Some(metadata) && b.payload.data == payload.data
      ensures Contains(b.flags, METADATA) && b == this.(payload := b.payload, flags := b.flags)
      ensures forall g: Flags :: Contains(flags, g) ==> Contains(b.flags, g)
      ensures b.flags == Union(flags, METADATA)
    {
      this.(payload := payload.(metadata := Some(metadata)), flags := Union(flags, METADATA))
    }

    /** Stores the data; no flag changes. */
    function SetData(data: seq<byte>): (b: SetupFrameBuilder)
      ensures b.payload.data == Some(data) && b.payload.metadata == payload.metadata
      ensures b == this.(payload := b.payload)
    {
      this.(payload := payload.(data := Some(data)))
    }

    /** The frame has exactly the builder's fields. */
    function Build(): (f: SetupFrame)
      ensures f.flags == flags && f.version == version && f.resumeToken == resumeToken
      ensures f.keepaliveInterval == keepaliveInterval && f.keepaliveTimeout == keepaliveTimeout
      ensures f.metadataMimetype == metadataMimetype && f.dataMimetype == dataMimetype && f.payload == payload
    {
      SetupFrame(flags, version, keepaliveInterval, keepaliveTimeout, resumeToken, metadataMimetype, dataMimetype, payload)
    }

    /**
     * What a builder must hold for the frame it builds to read back: a token
     * exactly when RESUME is set, 31-bit durations, mimetypes that fit their
     * length byte, and a payload whose present sections are non-empty.
     */
    predicate Sendable()
    {
      (resumeToken.Some? <==> Contains(flags, RESUME_FLAG)) &&
      (resumeToken.Some? ==> |resumeToken.value| < 0x1_0000) &&
      keepaliveInterval <= MAX_U31 && keepaliveTimeout <= MAX_U31 &&
      |metadataMimetype| < 0x100 && |dataMimetype| < 0x100 &&
      |Section(payload.metadata)| <= FrameU24.MAX && payload.SectionsNonEmpty()
    }
  }

  /**
   * `SetupFrameBuilder::default`: no flags, version 1.0, the default
   * keepalive interval and lifetime, no token, "application/binary" for both
   * mimetypes and an empty payload.
   */
  function NewBuilder(): (b: SetupFrameBuilder)
    ensures b.flags == EMPTY && b.version == FrameVersion.Default() && b.resumeToken.None?
    ensures b.keepaliveInterval == 30_000 && b.keepaliveTimeout == 60_000
    ensures b.metadataMimetype == b.dataMimetype == DEFAULT_MIMETYPE_BYTES
    ensures b.payload == Payload(None, None)
    ensures b.Sendable()
  {
    SetupFrameBuilder(EMPTY, FrameVersion.Default(), DEFAULT_KEEPALIVE_INTERVAL, DEFAULT_KEEPALIVE_TIMEOUT,
                      None, DEFAULT_MIMETYPE_BYTES, DEFAULT_MIMETYPE_BYTES, Payload(None, None))
  }

  /** A frame built from a sendable builder reads back, and its `EncodedLen` is its size. */
  lemma BuiltFrameRoundTrip(b: SetupFrameBuilder)
    requires b.Sendable()
    ensures b.Build().Encodable()
    ensures Decoding(b.Build().Encoding()[6..], 0, b.flags) == Step(Ok(b.Build()), [])
    ensures b.Build().EncodedLen() == |b.Build().Encoding()|
  {
    RoundTrip(b.Build());
  }

  /** The default frame: `len` says 61 while `encode` writes 59 bytes. */
  lemma DefaultFrameLenOvercounts()
    ensures NewBuilder().Build().Len() == 61
    ensures |NewBuilder().Build().Encoding()| == 59
  {
  }
}
