/**
 * The `eat_*` readers of `frame/visit.rs` as they run: each advances a shared
 * cursor and returns the value read, exactly as `FrameVisit` describes.
 */
module CursorVisit {
  import opened Wrappers
  import opened Bytes
  import opened DecodeErrors
  import opened FrameU24
  import opened FrameVersion
  import opened FrameFlags
  import opened Payloads
  import V = FrameVisit

  method EatStreamId(buf: Cursor) returns (r: Result<u32>)
    modifies buf
    ensures Step(r, buf.rest) == V.EatStreamId(old(buf.rest))
  {
    if buf.Remaining() < 4 {
      return Err(InComplete);
    }
    var sid := buf.GetU32();
    return Ok(Mask31(sid));
  }

  method EatFlags(buf: Cursor) returns (r: Result<(FrameType, Flags)>)
    modifies buf
    ensures Step(r, buf.rest) == V.EatFlags(old(buf.rest))
  {
    if buf.Remaining() < 2 {
      return Err(InComplete);
    }
    var flags := buf.GetU16();
    r := V.TypeAndFlags(flags as bv16);
  }

  method EatVersion(buf: Cursor) returns (r: Result<Version>)
    modifies buf
    ensures Step(r, buf.rest) == V.EatVersion(old(buf.rest))
  {
    if buf.Remaining() < 4 {
      return Err(InComplete);
    }
    ghost var s := buf.rest;
    var major := buf.GetU16();
    var minor := buf.GetU16();
    assert s[2..][..2] == s[2..4];
    return Ok(FrameVersion.New(major, minor));
  }

  method EatU8(buf: Cursor) returns (r: Result<u8>)
    modifies buf
    ensures Step(r, buf.rest) == V.EatU8(old(buf.rest))
  {
    if buf.Remaining() < 2 {
      return Err(InComplete);
    }
    var x := buf.GetU8();
    return Ok(x);
  }

  method EatU16(buf: Cursor) returns (r: Result<u16>)
    modifies buf
    ensures Step(r, buf.rest) == V.EatU16(old(buf.rest))
  {
    if buf.Remaining() < 2 {
      return Err(InComplete);
    }
    var x := buf.GetU16();
    return Ok(x);
  }

  method EatU24(buf: Cursor) returns (r: Result<U24>)
    modifies buf
    ensures Step(r, buf.rest) == V.EatU24(old(buf.rest))
  {
    var high := EatU8(buf);
    if high.Err? {
      return Err(high.error);
    }
    var low := EatU16(buf);
    if low.Err? {
      return Err(low.error);
    }
    return Ok(FrameU24.New(high.value, low.value));
  }

  method EatU31(buf: Cursor) returns (r: Result<u32>)
    modifies buf
    ensures Step(r, buf.rest) == V.EatU31(old(buf.rest))
  {
    if buf.Remaining() < 4 {
      return Err(InComplete);
    }
    var x := buf.GetU32();
    return Ok(Mask31(x));
  }

  method EatU32(buf: Cursor) returns (r: Result<u32>)
    modifies buf
    ensures Step(r, buf.rest) == V.EatU32(old(buf.rest))
  {
    if buf.Remaining() < 4 {
      return Err(InComplete);
    }
    var x := buf.GetU32();
    return Ok(x);
  }

  method EatU63(buf: Cursor) returns (r: Result<u64>)
    modifies buf
    ensures Step(r, buf.rest) == V.EatU63(old(buf.rest))
  {
    if buf.Remaining() < 8 {
      return Err(InComplete);
    }
    var x := buf.GetU64();
    return Ok(Mask63(x));
  }

  method EatBytes(buf: Cursor, len: nat) returns (r: Result<seq<byte>>)
    modifies buf
    ensures Step(r, buf.rest) == V.EatBytes(old(buf.rest), len)
  {
    if buf.Remaining() < len {
      return Err(InComplete);
    }
    var b := buf.CopyToBytes(len);
    return Ok(b);
  }

  method EatPayload(buf: Cursor, canHaveData: bool) returns (r: Result<Payload>)
    modifies buf
    ensures Step(r, buf.rest) == V.EatPayload(old(buf.rest), canHaveData)
  {
    var metadataLen := 0;
    if canHaveData {
      var len := EatU24(buf);
      if len.Err? {
        return Err(len.error);
      }
      metadataLen := len.value.IntoU32();
    }
    ghost var afterLen := buf.rest;
    var metadata: Option<seq<byte>> := None;
    if metadataLen > 0 {
      var m := EatBytes(buf, metadataLen);
      if m.Err? {
        return Err(m.error);
      }
      metadata := Some(m.value);
    }
    var data: Option<seq<byte>> := None;
    var remaining := buf.Remaining();
    if remaining != 0 {
      var d := EatBytes(buf, remaining);
      data := Some(d.value);
    }
    return Ok(Payloads.New(metadata, data));
  }

  method EatRemaining(buf: Cursor) returns (r: Result<Option<seq<byte>>>)
    modifies buf
    ensures Step(r, buf.rest) == V.EatRemaining(old(buf.rest))
  {
    var len := buf.Remaining();
    if len == 0 {
      return Ok(None);
    }
    var b := EatBytes(buf, len);
    return Ok(Some(b.value));
  }

  method EatResumeToken(buf: Cursor, flags: Flags) returns (r: Result<Option<seq<byte>>>)
    modifies buf
    ensures Step(r, buf.rest) == V.EatResumeToken(old(buf.rest), flags)
  {
    if !Contains(flags, RESUME_FLAG) {
      return Ok(None);
    }
    var len := EatU16(buf);
    if len.Err? {
      return Err(len.error);
    }
    var token := EatBytes(buf, len.value);
    if token.Err? {
      return Err(token.error);
    }
    return Ok(Some(token.value));
  }
}
