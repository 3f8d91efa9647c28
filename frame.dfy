/**
 * `frame/mod.rs`: the `Frame` sum type over the fourteen frame kinds, its
 * `encode`/`len` dispatch, and `Frame::decode`, which reads the header,
 * rejects a nonzero stream id on the connection-scope kinds and hands the
 * body to the kind's own decoder.
 */
module Frames {
  import opened Wrappers
  import opened Bytes
  import opened DecodeErrors
  import opened FrameFlags
  import opened FrameHeader
  import opened FrameVisit
  import Payloads
  import SetupCodec
  import ErrorCodec
  import LeaseCodec
  import KeepaliveCodec
  import RequestResponseCodec
  import RequestFnfCodec
  import RequestStreamCodec
  import RequestNCodec
  import CancelCodec
  import PayloadCodec
  import MetadataPushCodec
  import ResumeCodec
  import ResumeOkCodec
  import CursorVisit

  /** REQUEST_CHANNEL's own codec is not part of this model: the frame is kept abstract. */
  type RequestChannelFrame(==)

  /**
   * What the model needs of REQUEST_CHANNEL's codec: the bytes its `encode`
   * writes (header included) and its `decode` on the body after the header.
   */
  datatype ChannelCodec = ChannelCodec(
    encoding: RequestChannelFrame -> seq<byte>,
    decoding: (seq<byte>, u32, Flags) -> Step<RequestChannelFrame>)

  datatype Frame =
    | Setup(setup: SetupCodec.SetupFrame)
    | Error(error: ErrorCodec.ErrorFrame)
    | Lease(lease: LeaseCodec.LeaseFrame)
    | Keepalive(keepalive: KeepaliveCodec.KeepaliveFrame)
    | RequestResponse(requestResponse: RequestResponseCodec.RequestResponseFrame)
    | RequestFnf(requestFnf: RequestFnfCodec.RequestFnfFrame)
    | RequestStream(requestStream: RequestStreamCodec.RequestStreamFrame)
    | RequestChannel(requestChannel: RequestChannelFrame)
    | RequestN(requestN: RequestNCodec.RequestNFrame)
    | Cancel(cancel: CancelCodec.CancelFrame)
    | Payload(payload: PayloadCodec.PayloadFrame)
    | MetadataPush(metadataPush: MetadataPushCodec.MetadataPushFrame)
    | Resume(resume: ResumeCodec.ResumeFrame)
    | ResumeOk(resumeOk: ResumeOkCodec.ResumeOkFrame)
  {
    /** The frame type each variant is written and read as. */
    function Type(): (t: FrameType)
      ensures t != EXT
    {
      match this
      case Setup(_) => SETUP
      case Error(_) => ERROR
      case Lease(_) => LEASE
      case Keepalive(_) => KEEPALIVE
      case RequestResponse(_) => REQUEST_RESPONSE
      case RequestFnf(_) => REQUEST_FNF
      case RequestStream(_) => REQUEST_STREAM
      case RequestChannel(_) => REQUEST_CHANNEL
      case RequestN(_) => REQUEST_N
      case Cancel(_) => CANCEL
      case Payload(_) => PAYLOAD
      case MetadataPush(_) => METADATA_PUSH
      case Resume(_) => RESUME
      case ResumeOk(_) => RESUME_OK
    }

    /** The kinds whose `encode` writes a U24 metadata length can do so only when it fits. */
    predicate Encodable()
    {
      match this
      case Setup(f) => f.Encodable()
      case RequestResponse(f) => f.Encodable()
      case RequestFnf(f) => f.Encodable()
      case RequestStream(f) => f.Encodable()
      case Payload(f) => f.Encodable()
      case _ => true
    }

    /** `encode`: the wrapped frame's own encoding. */
    function Encoding(cc: ChannelCodec): seq<byte>
      requires Encodable()
    {
      match this
      case Setup(f) => f.Encoding()
      case Error(f) => f.Encoding()
      case Lease(f) => f.Encoding()
      case Keepalive(f) => f.Encoding()
      case RequestResponse(f) => f.Encoding()
      case RequestFnf(f) => f.Encoding()
      case RequestStream(f) => f.Encoding()
      case RequestChannel(f) => cc.encoding(f)
      case RequestN(f) => f.Encoding()
      case Cancel(f) => f.Encoding()
      case Payload(f) => f.Encoding()
      case MetadataPush(f) => f.Encoding()
      case Resume(f) => f.Encoding()
      case ResumeOk(f) => f.Encoding()
    }

    /**
     * `len`: the wrapped frame's own `len`, which is the size `encode` writes
     * except for SETUP without a resume token, where it is 2 more. The size
     * of REQUEST_CHANNEL is taken to be the size of its encoding.
     */
    function Len(cc: ChannelCodec): nat
    {
      match this
      case Setup(f) => f.Len()
      case Error(f) => f.Len()
      case Lease(f) => f.Len()
      case Keepalive(f) => f.Len()
      case RequestResponse(f) => f.Len()
      case RequestFnf(f) => f.Len()
      case RequestStream(f) => f.Len()
      case RequestChannel(f) => |cc.encoding(f)|
      case RequestN(f) => f.Len()
      case Cancel(f) => f.Len()
      case Payload(f) => f.Len()
      case MetadataPush(f) => f.Len()
      case Resume(f) => f.Len()
      case ResumeOk(f) => f.Len()
    }

    method Encode(buf: BytesMut, cc: ChannelCodec)
      requires Encodable()
      modifies buf
      ensures buf.bytes == old(buf.bytes) + Encoding(cc)
    {
      match this
      case Setup(f) => f.Encode(buf);
      case Error(f) => f.Encode(buf);
      case Lease(f) => f.Encode(buf);
      case Keepalive(f) => f.Encode(buf);
      case RequestResponse(f) => f.Encode(buf);
      case RequestFnf(f) => f.Encode(buf);
      case RequestStream(f) => f.Encode(buf);
      case RequestChannel(f) => buf.PutSlice(cc.encoding(f));
      case RequestN(f) => f.Encode(buf);
      case Cancel(f) => f.Encode(buf);
      case Payload(f) => f.Encode(buf);
      case MetadataPush(f) => f.Encode(buf);
      case Resume(f) => f.Encode(buf);
      case ResumeOk(f) => f.Encode(buf);
    }

    /**
     * What each kind's codec needs for its bytes to read back: 31- and 63-bit
     * fields already masked, a token present exactly under RESUME, short enough
     * tokens and mimetypes, no empty `Some` section, and an ERROR code that
     * suits the stream id. REQUEST_CHANNEL is left out, its codec being abstract.
     */
    predicate ReadsBack()
    {
      match this
      case Setup(f) =>
        (f.resumeToken.Some? <==> Contains(f.flags, RESUME_FLAG)) &&
        (f.resumeToken.Some? ==> |f.resumeToken.value| < 0x1_0000) &&
        f.keepaliveInterval <= MAX_U31 && f.keepaliveTimeout <= MAX_U31 &&
        |f.metadataMimetype| < 0x100 && |f.dataMimetype| < 0x100 &&
        f.Encodable() && f.payload.SectionsNonEmpty()
      case Error(f) =>
        f.streamId <= MAX_U31 && ErrorCodec.ValidateStreamId(f.streamId, f.code).Ok? &&
        (f.data.Some? ==> f.data.value != [])
      case Lease(f) =>
        f.ttl <= MAX_U31 && f.numberOfRequests <= MAX_U31 && (f.metadata.Some? ==> f.metadata.value != [])
      case Keepalive(f) =>
        f.lastReceivedPosition <= MAX_U63 && (f.data.Some? ==> f.data.value != [])
      case RequestResponse(f) =>
        f.streamId <= MAX_U31 && f.Encodable() && f.payload.SectionsNonEmpty()
      case RequestFnf(f) =>
        f.streamId <= MAX_U31 && f.Encodable() && f.payload.SectionsNonEmpty()
      case RequestStream(f) =>
        f.streamId <= MAX_U31 && f.initialRequestN <= MAX_U31 && f.Encodable() && f.payload.SectionsNonEmpty()
      case RequestChannel(_) => false
      case RequestN(f) => f.streamId <= MAX_U31 && f.requestN <= MAX_U31
      case Cancel(f) => f.streamId <= MAX_U31
      case Payload(f) => f.streamId <= MAX_U31 && f.Encodable() && f.payload.SectionsNonEmpty()
      case MetadataPush(_) => true
      case Resume(f) =>
        |f.resumeToken| < 0x1_0000 &&
        f.lastReceivedServerPosition <= MAX_U63 && f.firstAvailableClientPosition <= MAX_U63
      case ResumeOk(f) => f.lastReceivedClientPosition <= MAX_U63
    }
  }

  /** The kinds that belong to the connection as a whole and must arrive on stream 0 (ERROR is not one). */
  predicate ConnectionScope(t: FrameType)
  {
    t == SETUP || t == LEASE || t == KEEPALIVE || t == METADATA_PUSH || t == RESUME || t == RESUME_OK
  }

  /** `s` starts with a header of type EXT, whose decode arm is `unimplemented!()`. */
  predicate IsExt(s: seq<byte>)
  {
    |s| >= 6 && EatFlags(s[4..]).result.Ok? && EatFlags(s[4..]).result.value.0 == EXT
  }

  /**
   * `Frame::decode`: at least 6 bytes, the stream id with its top bit
   * cleared, the type and flags, the stream-0 check for the connection-scope
   * kinds, then the body by the kind's own decoder.
   */
  function Decoding(s: seq<byte>, cc: ChannelCodec): (st: Step<Frame>)
    requires !IsExt(s)
    ensures |s| < 6 ==> st == Step(Err(InComplete), s)
    ensures |s| >= 6 && EatFlags(s[4..]).result.Err? ==>
      st == Step(Err(EatFlags(s[4..]).result.error), s[6..])
    ensures |s| >= 6 && EatFlags(s[4..]).result.Ok? && ConnectionScope(EatFlags(s[4..]).result.value.0)
              && EatStreamId(s).result.value != 0 ==>
      st == Step(Err(InvalidStreamId("0", EatStreamId(s).result.value)), s[6..])
    ensures st.result.Ok? ==>
      |s| >= 6 && EatFlags(s[4..]).result.Ok? && st.result.value.Type() == EatFlags(s[4..]).result.value.0 &&
      (ConnectionScope(st.result.value.Type()) ==> EatStreamId(s).result.value == 0)
  {
    if |s| < 6 then Step(Err(InComplete), s)
    else
      var id := EatStreamId(s);
      var streamId := id.result.value;
      var tf := EatFlags(id.rest);
      assert id.rest == s[4..] && tf.rest == s[6..];
      if tf.result.Err? then Fail(tf)
      else
        var (t, flags) := tf.result.value;
        if ConnectionScope(t) && streamId != 0 then Step(Err(InvalidStreamId("0", streamId)), tf.rest)
        else
          DecodingBodyKeepsType(t, tf.rest, streamId, flags, cc);
          DecodingBody(t, tf.rest, streamId, flags, cc)
  }

  /** The body, by the decoder of the kind the header names. */
  function DecodingBody(t: FrameType, s: seq<byte>, streamId: u32, flags: Flags, cc: ChannelCodec)
    : (st: Step<Frame>)
    requires t != EXT
  {
    match t
    case SETUP =>
      var b := SetupCodec.Decoding(s, streamId, flags);
      if b.result.Err? then Fail(b) else Step(Ok(Setup(b.result.value)), b.rest)
    case ERROR =>
      var b := ErrorCodec.Decoding(s, streamId, flags);
      if b.result.Err? then Fail(b) else Step(Ok(Error(b.result.value)), b.rest)
    case LEASE =>
      var b := LeaseCodec.Decoding(s, streamId, flags);
      if b.result.Err? then Fail(b) else Step(Ok(Lease(b.result.value)), b.rest)
    case KEEPALIVE =>
      var b := KeepaliveCodec.Decoding(s, streamId, flags);
      if b.result.Err? then Fail(b) else Step(Ok(Keepalive(b.result.value)), b.rest)
    case REQUEST_RESPONSE =>
      var b := RequestResponseCodec.Decoding(s, streamId, flags);
      if b.result.Err? then Fail(b) else Step(Ok(RequestResponse(b.result.value)), b.rest)
    case REQUEST_FNF =>
      var b := RequestFnfCodec.Decoding(s, streamId, flags);
      if b.result.Err? then Fail(b) else Step(Ok(RequestFnf(b.result.value)), b.rest)
    case REQUEST_STREAM =>
      var b := RequestStreamCodec.Decoding(s, streamId, flags);
      if b.result.Err? then Fail(b) else Step(Ok(RequestStream(b.result.value)), b.rest)
    case REQUEST_CHANNEL =>
      var b := cc.decoding(s, streamId, flags);
      if b.result.Err? then Fail(b) else Step(Ok(RequestChannel(b.result.value)), b.rest)
    case REQUEST_N =>
      var b := RequestNCodec.Decoding(s, streamId, flags);
      if b.result.Err? then Fail(b) else Step(Ok(RequestN(b.result.value)), b.rest)
    case CANCEL =>
      var b := CancelCodec.Decoding(s, streamId, flags);
      if b.result.Err? then Fail(b) else Step(Ok(Cancel(b.result.value)), b.rest)
    case PAYLOAD =>
      var b := PayloadCodec.Decoding(s, streamId, flags);
      if b.result.Err? then Fail(b) else Step(Ok(Payload(b.result.value)), b.rest)
    case METADATA_PUSH =>
      var b := MetadataPushCodec.Decoding(s, streamId, flags);
      if b.result.Err? then Fail(b) else Step(Ok(MetadataPush(b.result.value)), b.rest)
    case RESUME =>
      var b := ResumeCodec.Decoding(s, streamId, flags);
      if b.result.Err? then Fail(b) else Step(Ok(Resume(b.result.value)), b.rest)
    case RESUME_OK =>
      var b := ResumeOkCodec.Decoding(s, streamId, flags);
      if b.result.Err? then Fail(b) else Step(Ok(ResumeOk(b.result.value)), b.rest)
  }

  /** `Frame::decode` on a cursor: the header reads, the stream-0 check, then the kind's own `decode`. */
  method Decode(buf: Cursor, cc: ChannelCodec) returns (r: Result<Frame>)
    requires !IsExt(buf.rest)
    modifies buf
    ensures Step(r, buf.rest) == Decoding(old(buf.rest), cc)
  {
    if buf.Remaining() < 6 {
      return Err(InComplete);
    }
    var id := CursorVisit.EatStreamId(buf);
    var streamId := id.value;
    var tf := CursorVisit.EatFlags(buf);
    if tf.Err? {
      return Err(tf.error);
    }
    var (t, flags) := tf.value;
    if ConnectionScope(t) && streamId != 0 {
      return Err(InvalidStreamId("0", streamId));
    }
    r := DecodeBody(buf, t, streamId, flags, cc);
  }

  /** The `match frame_type` arm of `Frame::decode`. */
  method DecodeBody(buf: Cursor, t: FrameType, streamId: u32, flags: Flags, cc: ChannelCodec) returns (r: Result<Frame>)
    requires t != EXT
    modifies buf
    ensures Step(r, buf.rest) == DecodingBody(t, old(buf.rest), streamId, flags, cc)
  {
    match t
    case SETUP =>
      var b := SetupCodec.Decode(buf, streamId, flags);
      if b.Err? {
        return Err(b.error);
      }
      return Ok(Setup(b.value));
    case ERROR =>
      var b := ErrorCodec.Decode(buf, streamId, flags);
      if b.Err? {
        return Err(b.error);
      }
      return Ok(Error(b.value));
    case LEASE =>
      var b := LeaseCodec.Decode(buf, streamId, flags);
      if b.Err? {
        return Err(b.error);
      }
      return Ok(Lease(b.value));
    case KEEPALIVE =>
      var b := KeepaliveCodec.Decode(buf, streamId, flags);
      if b.Err? {
        return Err(b.error);
      }
      return Ok(Keepalive(b.value));
    case REQUEST_RESPONSE =>
      var b := RequestResponseCodec.Decode(buf, streamId, flags);
      if b.Err? {
        return Err(b.error);
      }
      return Ok(RequestResponse(b.value));
    case REQUEST_FNF =>
      var b := RequestFnfCodec.Decode(buf, streamId, flags);
      if b.Err? {
        return Err(b.error);
      }
      return Ok(RequestFnf(b.value));
    case REQUEST_STREAM =>
      var b := RequestStreamCodec.Decode(buf, streamId, flags);
      if b.Err? {
        return Err(b.error);
      }
      return Ok(RequestStream(b.value));
    case REQUEST_CHANNEL =>
      var b := cc.decoding(buf.rest, streamId, flags);
      buf.rest := b.rest;
      if b.result.Err? {
        return Err(b.result.error);
      }
      return Ok(RequestChannel(b.result.value));
    case REQUEST_N =>
      var b := RequestNCodec.Decode(buf, streamId, flags);
      if b.Err? {
        return Err(b.error);
      }
      return Ok(RequestN(b.value));
    case CANCEL =>
      // This decoder never fails.
      var b := CancelCodec.Decode(buf, streamId, flags);
      return Ok(Cancel(b.value));
    case PAYLOAD =>
      var b := PayloadCodec.Decode(buf, streamId, flags);
      if b.Err? {
        return Err(b.error);
      }
      return Ok(Payload(b.value));
    case METADATA_PUSH =>
      // This decoder never fails.
      var b := MetadataPushCodec.Decode(buf, streamId, flags);
      return Ok(MetadataPush(b.value));
    case RESUME =>
      var b := ResumeCodec.Decode(buf, streamId, flags);
      if b.Err? {
        return Err(b.error);
      }
      return Ok(Resume(b.value));
    case RESUME_OK =>
      var b := ResumeOkCodec.Decode(buf, streamId, flags);
      if b.Err? {
        return Err(b.error);
      }
      return Ok(ResumeOk(b.value));
  }

  /** Whatever a body decoder returns is the variant of the kind it was chosen for. */
  lemma DecodingBodyKeepsType(t: FrameType, s: seq<byte>, streamId: u32, flags: Flags, cc: ChannelCodec)
    requires t != EXT
    ensures DecodingBody(t, s, streamId, flags, cc).result.Ok? ==> DecodingBody(t, s, streamId, flags, cc).result.value.Type() == t
  {
    var r := DecodingBody(t, s, streamId, flags, cc).result;
    match t
    case SETUP => assert r.Ok? ==> r.value.Setup?;
    case ERROR => assert r.Ok? ==> r.value.Error?;
    case LEASE => assert r.Ok? ==> r.value.Lease?;
    case KEEPALIVE => assert r.Ok? ==> r.value.Keepalive?;
    case REQUEST_RESPONSE => assert r.Ok? ==> r.value.RequestResponse?;
    case REQUEST_FNF => assert r.Ok? ==> r.value.RequestFnf?;
    case REQUEST_STREAM => assert r.Ok? ==> r.value.RequestStream?;
    case REQUEST_CHANNEL => assert r.Ok? ==> r.value.RequestChannel?;
    case REQUEST_N => assert r.Ok? ==> r.value.RequestN?;
    case CANCEL => assert r.Ok? ==> r.value.Cancel?;
    case PAYLOAD => assert r.Ok? ==> r.value.Payload?;
    case METADATA_PUSH => assert r.Ok? ==> r.value.MetadataPush?;
    case RESUME => assert r.Ok? ==> r.value.Resume?;
    case RESUME_OK => assert r.Ok? ==> r.value.ResumeOk?;
  }

  /**
   * `len` is the size `encode` writes (what `to_bytes` promises) for every
   * kind except SETUP without a resume token, where it is 2 more.
   */
  lemma LenIsEncodedSize(f: Frame, cc: ChannelCodec)
    requires f.Encodable()
    ensures !(f.Setup? && f.setup.resumeToken.None?) ==> f.Len(cc) == |f.Encoding(cc)|
    ensures f.Setup? && f.setup.resumeToken.None? ==> f.Len(cc) == |f.Encoding(cc)| + 2
  {
    match f
    case Setup(v) => assert f.Len(cc) == v.Len() && f.Encoding(cc) == v.Encoding();
    case Error(v) => assert f.Len(cc) == v.Len() && f.Encoding(cc) == v.Encoding();
    case Lease(v) => assert f.Len(cc) == v.Len() && f.Encoding(cc) == v.Encoding();
    case Keepalive(v) => assert f.Len(cc) == v.Len() && f.Encoding(cc) == v.Encoding();
    case RequestResponse(v) => assert f.Len(cc) == v.Len() && f.Encoding(cc) == v.Encoding();
    case RequestFnf(v) => assert f.Len(cc) == v.Len() && f.Encoding(cc) == v.Encoding();
    case RequestStream(v) => assert f.Len(cc) == v.Len() && f.Encoding(cc) == v.Encoding();
    case RequestChannel(v) =>
    case RequestN(v) => assert f.Len(cc) == v.Len() && f.Encoding(cc) == v.Encoding();
    case Cancel(v) => assert f.Len(cc) == v.Len() && f.Encoding(cc) == v.Encoding();
    case Payload(v) => assert f.Len(cc) == v.Len() && f.Encoding(cc) == v.Encoding();
    case MetadataPush(v) => assert f.Len(cc) == v.Len() && f.Encoding(cc) == v.Encoding();
    case Resume(v) => assert f.Len(cc) == v.Len() && f.Encoding(cc) == v.Encoding();
    case ResumeOk(v) => assert f.Len(cc) == v.Len() && f.Encoding(cc) == v.Encoding();
  }

  /** After a header that passes the stream-0 check, decoding is the body decoder of the header's kind. */
  lemma DecodingAfterHeader(s: seq<byte>, streamId: u32, t: FrameType, flags: Flags, cc: ChannelCodec)
    requires HeaderIs(s, streamId, t, flags) && t != EXT
    requires ConnectionScope(t) ==> streamId == 0
    ensures !IsExt(s) && Decoding(s, cc) == DecodingBody(t, s[6..], streamId, flags, cc)
  {
  }

  /** A frame whose body decodes after a valid header decodes as a whole. */
  lemma DecodingOfBody(s: seq<byte>, streamId: u32, t: FrameType, flags: Flags, cc: ChannelCodec, f: Frame)
    requires HeaderIs(s, streamId, t, flags) && t != EXT
    requires ConnectionScope(t) ==> streamId == 0
    requires DecodingBody(t, s[6..], streamId, flags, cc) == Step(Ok(f), [])
    ensures !IsExt(s) && Decoding(s, cc) == Step(Ok(f), [])
  {
    DecodingAfterHeader(s, streamId, t, flags, cc);
  }

  /**
   * `Frame::decode(encode(f)) == f` for every frame whose own codec reads
   * back (the connection-scope kinds are written on stream 0).
   */
  lemma RoundTrip(f: Frame, cc: ChannelCodec)
    requires f.ReadsBack()
    ensures f.Encodable() && !IsExt(f.Encoding(cc)) && Decoding(f.Encoding(cc), cc) == Step(Ok(f), [])
  {
    match f
    case Setup(v) => SetupRoundTrip(v, cc);
    case Error(v) => ErrorRoundTrip(v, cc);
    case Lease(v) => LeaseRoundTrip(v, cc);
    case Keepalive(v) => KeepaliveRoundTrip(v, cc);
    case RequestResponse(v) => RequestResponseRoundTrip(v, cc);
    case RequestFnf(v) => RequestFnfRoundTrip(v, cc);
    case RequestStream(v) => RequestStreamRoundTrip(v, cc);
    case RequestN(v) => RequestNRoundTrip(v, cc);
    case Cancel(v) => CancelRoundTrip(v, cc);
    case Payload(v) => PayloadRoundTrip(v, cc);
    case MetadataPush(v) => MetadataPushRoundTrip(v, cc);
    case Resume(v) => ResumeRoundTrip(v, cc);
    case ResumeOk(v) => ResumeOkRoundTrip(v, cc);
  }

  lemma SetupRoundTrip(v: SetupCodec.SetupFrame, cc: ChannelCodec)
    requires (v.resumeToken.Some? <==> Contains(v.flags, RESUME_FLAG)) &&
      (v.resumeToken.Some? ==> |v.resumeToken.value| < 0x1_0000) &&
      v.keepaliveInterval <= MAX_U31 && v.keepaliveTimeout <= MAX_U31 &&
      |v.metadataMimetype| < 0x100 && |v.dataMimetype| < 0x100 &&
      v.Encodable() && v.payload.SectionsNonEmpty()
    ensures !IsExt(v.Encoding()) && Decoding(v.Encoding(), cc) == Step(Ok(Setup(v)), [])
  {
    SetupCodec.RoundTrip(v);
    DecodingAfterHeader(v.Encoding(), 0, SETUP, v.flags, cc);
  }

  lemma ErrorRoundTrip(v: ErrorCodec.ErrorFrame, cc: ChannelCodec)
    requires v.streamId <= MAX_U31 && ErrorCodec.ValidateStreamId(v.streamId, v.code).Ok? &&
      (v.data.Some? ==> v.data.value != [])
    ensures !IsExt(v.Encoding()) && Decoding(v.Encoding(), cc) == Step(Ok(Error(v)), [])
  {
    ErrorCodec.RoundTrip(v);
    DecodingAfterHeader(v.Encoding(), v.streamId, ERROR, EMPTY, cc);
  }

  lemma LeaseRoundTrip(v: LeaseCodec.LeaseFrame, cc: ChannelCodec)
    requires v.ttl <= MAX_U31 && v.numberOfRequests <= MAX_U31 && (v.metadata.Some? ==> v.metadata.value != [])
    ensures !IsExt(v.Encoding()) && Decoding(v.Encoding(), cc) == Step(Ok(Lease(v)), [])
  {
    LeaseCodec.RoundTrip(v);
    DecodingAfterHeader(v.Encoding(), 0, LEASE, v.Flags(), cc);
  }

  lemma KeepaliveRoundTrip(v: KeepaliveCodec.KeepaliveFrame, cc: ChannelCodec)
    requires v.lastReceivedPosition <= MAX_U63 && (v.data.Some? ==> v.data.value != [])
    ensures !IsExt(v.Encoding()) && Decoding(v.Encoding(), cc) == Step(Ok(Keepalive(v)), [])
  {
    KeepaliveCodec.RoundTrip(v);
    DecodingAfterHeader(v.Encoding(), 0, KEEPALIVE, v.Flags(), cc);
  }

  lemma RequestResponseRoundTrip(v: RequestResponseCodec.RequestResponseFrame, cc: ChannelCodec)
    requires v.streamId <= MAX_U31 && v.Encodable() && v.payload.SectionsNonEmpty()
    ensures !IsExt(v.Encoding()) && Decoding(v.Encoding(), cc) == Step(Ok(RequestResponse(v)), [])
  {
    RequestResponseCodec.RoundTrip(v);
    DecodingAfterHeader(v.Encoding(), v.streamId, REQUEST_RESPONSE, v.flags, cc);
  }

  lemma RequestFnfRoundTrip(v: RequestFnfCodec.RequestFnfFrame, cc: ChannelCodec)
    requires v.streamId <= MAX_U31 && v.Encodable() && v.payload.SectionsNonEmpty()
    ensures !IsExt(v.Encoding()) && Decoding(v.Encoding(), cc) == Step(Ok(RequestFnf(v)), [])
  {
    RequestFnfCodec.RoundTrip(v);
    DecodingAfterHeader(v.Encoding(), v.streamId, REQUEST_FNF, v.flags, cc);
  }

  lemma RequestStreamRoundTrip(v: RequestStreamCodec.RequestStreamFrame, cc: ChannelCodec)
    requires v.streamId <= MAX_U31 && v.initialRequestN <= MAX_U31 && v.Encodable() && v.payload.SectionsNonEmpty()
    ensures !IsExt(v.Encoding()) && Decoding(v.Encoding(), cc) == Step(Ok(RequestStream(v)), [])
  {
    RequestStreamCodec.RoundTrip(v);
    DecodingAfterHeader(v.Encoding(), v.streamId, REQUEST_STREAM, v.flags, cc);
  }

  lemma RequestNRoundTrip(v: RequestNCodec.RequestNFrame, cc: ChannelCodec)
    requires v.streamId <= MAX_U31 && v.requestN <= MAX_U31
    ensures !IsExt(v.Encoding()) && Decoding(v.Encoding(), cc) == Step(Ok(RequestN(v)), [])
  {
    RequestNCodec.RoundTrip(v);
    DecodingAfterHeader(v.Encoding(), v.streamId, REQUEST_N, EMPTY, cc);
  }

  lemma CancelRoundTrip(v: CancelCodec.CancelFrame, cc: ChannelCodec)
    requires v.streamId <= MAX_U31
    ensures !IsExt(v.Encoding()) && Decoding(v.Encoding(), cc) == Step(Ok(Cancel(v)), [])
  {
    CancelCodec.RoundTrip(v);
    DecodingAfterHeader(v.Encoding(), v.streamId, CANCEL, EMPTY, cc);
  }

  lemma PayloadRoundTrip(v: PayloadCodec.PayloadFrame, cc: ChannelCodec)
    requires v.streamId <= MAX_U31 && v.Encodable() && v.payload.SectionsNonEmpty()
    ensures !IsExt(v.Encoding()) && Decoding(v.Encoding(), cc) == Step(Ok(Payload(v)), [])
  {
    PayloadCodec.RoundTrip(v);
    DecodingAfterHeader(v.Encoding(), v.streamId, PAYLOAD, v.flags, cc);
  }

  lemma MetadataPushRoundTrip(v: MetadataPushCodec.MetadataPushFrame, cc: ChannelCodec)
    ensures !IsExt(v.Encoding()) && Decoding(v.Encoding(), cc) == Step(Ok(MetadataPush(v)), [])
  {
    MetadataPushCodec.RoundTrip(v);
    DecodingAfterHeader(v.Encoding(), 0, METADATA_PUSH, METADATA, cc);
  }

  lemma ResumeRoundTrip(v: ResumeCodec.ResumeFrame, cc: ChannelCodec)
    requires |v.resumeToken| < 0x1_0000 &&
      v.lastReceivedServerPosition <= MAX_U63 && v.firstAvailableClientPosition <= MAX_U63
    ensures !IsExt(v.Encoding()) && Decoding(v.Encoding(), cc) == Step(Ok(Resume(v)), [])
  {
    ResumeCodec.RoundTrip(v);
    ResumeOfBytes(v.Encoding(), v, cc);
  }

  lemma ResumeOfBytes(s: seq<byte>, v: ResumeCodec.ResumeFrame, cc: ChannelCodec)
    requires HeaderIs(s, 0, RESUME, EMPTY) && ResumeCodec.Decoding(s[6..], 0, EMPTY) == Step(Ok(v), [])
    ensures !IsExt(s) && Decoding(s, cc) == Step(Ok(Resume(v)), [])
  {
    DecodingOfBody(s, 0, RESUME, EMPTY, cc, Resume(v));
  }

  lemma ResumeOkRoundTrip(v: ResumeOkCodec.ResumeOkFrame, cc: ChannelCodec)
    requires v.lastReceivedClientPosition <= MAX_U63
    ensures !IsExt(v.Encoding()) && Decoding(v.Encoding(), cc) == Step(Ok(ResumeOk(v)), [])
  {
    ResumeOkCodec.RoundTrip(v);
    DecodingAfterHeader(v.Encoding(), 0, RESUME_OK, EMPTY, cc);
  }

  /** `MAX_U31` and `MAX_U63` are `u32::MAX >> 1` and `u64::MAX >> 1`. */
  lemma MaxValues()
    ensures MAX_U31 == 0x7FFF_FFFF == ((0xFFFF_FFFF as bv32) >> 1) as int
    ensures MAX_U63 == 0x7FFF_FFFF_FFFF_FFFF == ((0xFFFF_FFFF_FFFF_FFFF as bv64) >> 1) as int
  {
  }

  /** A REQUEST_FNF on stream 1 with FOLLOWS, metadata "metadata" and data "data" decodes to itself. */
  lemma RequestFnfExample(cc: ChannelCodec)
    ensures var f := RequestFnf(RequestFnfCodec.New(1, true, Payloads.Payload(
              Some([0x6d, 0x65, 0x74, 0x61, 0x64, 0x61, 0x74, 0x61]), Some([0x64, 0x61, 0x74, 0x61]))));
      f.requestFnf.streamId == 1 && f.Encodable() && !IsExt(f.Encoding(cc)) &&
      Decoding(f.Encoding(cc), cc) == Step(Ok(f), [])
  {
    var f := RequestFnf(RequestFnfCodec.New(1, true, Payloads.Payload(
      Some([0x6d, 0x65, 0x74, 0x61, 0x64, 0x61, 0x74, 0x61]), Some([0x64, 0x61, 0x74, 0x61]))));
    RoundTrip(f, cc);
  }
}
