/**
 * `frame/visit.rs`, as functions from the unread bytes to a `Step`: what each
 * `eat_*` reader returns and which bytes it leaves. Every reader fails with
 * `InComplete` when too few bytes remain. The cursor methods that run these
 * reads in place are in `CursorVisit`.
 */
module FrameVisit {
  import opened Wrappers
  import opened Bytes
  import opened DecodeErrors
  import opened FrameU24
  import opened FrameVersion
  import opened FrameFlags
  import opened Payloads

  /** Reading back the first `n` bytes of `Be(x, n) + t` gives `x` and leaves `t`. */
  lemma ReadsBack(x: nat, n: nat, t: seq<byte>)
    requires x < Pow256(n)
    ensures (Be(x, n) + t)[..n] == Be(x, n) && (Be(x, n) + t)[n..] == t
    ensures Value((Be(x, n) + t)[..n]) == x
  {
    assert (Be(x, n) + t)[..n] == Be(x, n);
    ValueOfBe(x, n);
  }

  /** `eat_stream_id`: a big-endian u32 with its top bit cleared. */
  function EatStreamId(s: seq<byte>): (st: Step<u32>)
    ensures st.result.Ok? <==> |s| >= 4
    ensures st.result.Err? ==> st == Step(Err(InComplete), s)
    ensures st.result.Ok? ==> st.result.value <= MAX_U31
  {
    if |s| < 4 then Step(Err(InComplete), s)
    else
      ValueBound(s[..4]);
      Pow256Widths();
      Step(Ok(Mask31(Value(s[..4]))), s[4..])
  }

  /**
   * `eat_flags`: the frame type from the high 6 bits and the defined flags
   * from the rest. An unknown type code is reported as it was read.
   */
  function EatFlags(s: seq<byte>): (st: Step<(FrameType, Flags)>)
    ensures st.result == Err(InComplete) <==> |s| < 2
    ensures st.result == Err(InComplete) ==> st.rest == s
    ensures |s| >= 2 ==> |st.rest| == |s| - 2 && st.rest == s[2..]
  {
    if |s| < 2 then Step(Err(InComplete), s)
    else
      ValueBound(s[..2]);
      Pow256Widths();
      Step(TypeAndFlags(Value(s[..2]) as bv16), s[2..])
  }

  /**
   * What `eat_flags` makes of the u16 it read: a frame type exactly when the
   * high six bits name one, and otherwise an error that is never `InComplete`.
   */
  function TypeAndFlags(w: bv16): (r: Result<(FrameType, Flags)>)
    ensures r.Ok? <==> FromBits(w).Some?
    ensures r.Ok? ==> FromBits(w) == Some(r.value.0) && r.value.1 == w & ALL_FLAGS
    ensures r.Err? ==> r.error == UnrecognizedFrameType((w >> 10) as int)
  {
    match FromBits(w)
    case None => Err(UnrecognizedFrameType((w >> 10) as int))
    case Some(t) => Ok((t, FromBitsTruncate(w)))
  }

  /** `eat_version`: two big-endian u16s, major then minor. */
  function EatVersion(s: seq<byte>): (st: Step<Version>)
    ensures st.result.Ok? <==> |s| >= 4
    ensures st.result.Err? ==> st == Step(Err(InComplete), s)
  {
    if |s| < 4 then Step(Err(InComplete), s)
    else
      ValueBound(s[..2]);
      ValueBound(s[2..4]);
      Pow256Widths();
      Step(Ok(Version(Value(s[..2]), Value(s[2..4]))), s[4..])
  }

  /** `eat_u8`: consumes one byte, but insists on two being available. */
  function EatU8(s: seq<byte>): (st: Step<u8>)
    ensures st.result.Ok? <==> |s| >= 2
    ensures st.result.Err? ==> st == Step(Err(InComplete), s)
  {
    if |s| < 2 then Step(Err(InComplete), s) else Step(Ok(s[0]), s[1..])
  }

  /** `eat_u16`: a big-endian u16. */
  function EatU16(s: seq<byte>): (st: Step<u16>)
    ensures st.result.Ok? <==> |s| >= 2
    ensures st.result.Err? ==> st == Step(Err(InComplete), s)
  {
    if |s| < 2 then Step(Err(InComplete), s)
    else
      ValueBound(s[..2]);
      Pow256Widths();
      Step(Ok(Value(s[..2])), s[2..])
  }

  /** `eat_u24`: `eat_u8` then `eat_u16`, so the high byte may be consumed before the failure. */
  function EatU24(s: seq<byte>): (st: Step<U24>)
    ensures st.result.Ok? <==> |s| >= 3
    ensures st.result.Err? ==> st.result.error == InComplete
    ensures |s| < 2 ==> st.rest == s
    ensures |s| == 2 ==> st.rest == s[1..]
  {
    var hi := EatU8(s);
    if hi.result.Err? then Fail(hi)
    else
      var lo := EatU16(hi.rest);
      if lo.result.Err? then Fail(lo)
      else Step(Ok(FrameU24.New(hi.result.value, lo.result.value)), lo.rest)
  }

  function EatU31(s: seq<byte>): (st: Step<u32>)
    ensures st.result.Ok? <==> |s| >= 4
    ensures st.result.Err? ==> st == Step(Err(InComplete), s)
    ensures st.result.Ok? ==> st.result.value <= MAX_U31
  {
    if |s| < 4 then Step(Err(InComplete), s)
    else
      ValueBound(s[..4]);
      Pow256Widths();
      Step(Ok(Mask31(Value(s[..4]))), s[4..])
  }

  /** `eat_u32`: a big-endian u32. */
  function EatU32(s: seq<byte>): (st: Step<u32>)
    ensures st.result.Ok? <==> |s| >= 4
    ensures st.result.Err? ==> st == Step(Err(InComplete), s)
  {
    if |s| < 4 then Step(Err(InComplete), s)
    else
      ValueBound(s[..4]);
      Pow256Widths();
      Step(Ok(Value(s[..4])), s[4..])
  }

  function EatU63(s: seq<byte>): (st: Step<u64>)
    ensures st.result.Ok? <==> |s| >= 8
    ensures st.result.Err? ==> st == Step(Err(InComplete), s)
    ensures st.result.Ok? ==> st.result.value <= MAX_U63
  {
    if |s| < 8 then Step(Err(InComplete), s)
    else
      ValueBound(s[..8]);
      Pow256Widths();
      Step(Ok(Mask63(Value(s[..8]))), s[8..])
  }

  /** `eat_bytes(n)`: exactly the next `n` bytes. */
  function EatBytes(s: seq<byte>, n: nat): (st: Step<seq<byte>>)
    ensures st.result.Ok? <==> n <= |s|
    ensures st.result.Ok? ==> st.result.value + st.rest == s && |st.result.value| == n
    ensures st.result.Err? ==> st.rest == s
  {
    if |s| < n then Step(Err(InComplete), s) else Step(Ok(s[..n]), s[n..])
  }

  /**
   * `eat_payload`: a U24 metadata length (when the frame can carry one, else
   * 0), that many metadata bytes (absent when the length is 0), and then all
   * remaining bytes as data (absent when none remain).
   */
  function EatPayload(s: seq<byte>, canHaveData: bool): (st: Step<Payload>)
    ensures st.result.Ok? ==> st.rest == [] && st.result.value.SectionsNonEmpty()
    ensures canHaveData && |s| < 3 ==> st.result == Err(InComplete)
  {
    if canHaveData then
      var len := EatU24(s);
      if len.result.Err? then Fail(len) else EatSections(len.rest, len.result.value.IntoU32())
    else EatSections(s, 0)
  }

  /** The part of `eat_payload` after the metadata length. */
  function EatSections(s: seq<byte>, metadataLen: nat): (st: Step<Payload>)
    ensures st.result.Ok? ==> st.rest == [] && st.result.value.SectionsNonEmpty()
    ensures st.result.Ok? ==> |Section(st.result.value.metadata)| == metadataLen
    ensures st.result.Ok? <==> metadataLen <= |s|
    ensures st.result.Err? ==> st.result.error == InComplete
  {
    var meta: Step<Option<seq<byte>>> :=
      if metadataLen > 0 then
        var b := EatBytes(s, metadataLen);
        if b.result.Err? then Fail(b) else Step(Ok(Some(b.result.value)), b.rest)
      else Step(Ok(None), s);
    if meta.result.Err? then Fail(meta)
    else
      var rest := meta.rest;
      if |rest| == 0 then Step(Ok(Payloads.New(meta.result.value, None)), rest)
      else
        var d := EatBytes(rest, |rest|);
        Step(Ok(Payloads.New(meta.result.value, Some(d.result.value))), d.rest)
  }

  /** The `match buf.remaining()` idiom: all remaining bytes, or absent when none remain. */
  function EatRemaining(s: seq<byte>): (st: Step<Option<seq<byte>>>)
    ensures st.result.Ok? && st.rest == []
    ensures st.result.value.None? <==> s == []
    ensures Section(st.result.value) == s
  {
    if |s| == 0 then Step(Ok(None), s)
    else
      var b := EatBytes(s, |s|);
      Step(Ok(Some(b.result.value)), b.rest)
  }

  /** `eat_resume_token`: a u16 length and the token, only when RESUME is set. */
  function EatResumeToken(s: seq<byte>, flags: Flags): (st: Step<Option<seq<byte>>>)
    ensures !Contains(flags, RESUME_FLAG) ==> st == Step(Ok(None), s)
    ensures Contains(flags, RESUME_FLAG) && st.result.Ok? ==>
      st.result.value.Some? && |st.result.value.value| < 0x1_0000
  {
    if Contains(flags, RESUME_FLAG) then
      var len := EatU16(s);
      if len.result.Err? then Fail(len)
      else
        var b := EatBytes(len.rest, len.result.value);
        if b.result.Err? then Fail(b) else Step(Ok(Some(b.result.value)), b.rest)
    else Step(Ok(None), s)
  }

  // ---------------------------------------------------------------------
  // What each reader makes of the bytes the matching writer produced
  // ---------------------------------------------------------------------

  lemma EatStreamIdOfBe(x: u32, t: seq<byte>)
    ensures EatStreamId(Be(x, 4) + t) == Step(Ok(Mask31(x)), t)
  {
    Pow256Widths();
    ReadsBack(x, 4, t);
  }

  lemma EatU31OfBe(x: u32, t: seq<byte>)
    ensures EatU31(Be(x, 4) + t) == Step(Ok(Mask31(x)), t)
  {
    Pow256Widths();
    ReadsBack(x, 4, t);
  }

  lemma EatU32OfBe(x: u32, t: seq<byte>)
    ensures EatU32(Be(x, 4) + t) == Step(Ok(x), t)
  {
    Pow256Widths();
    ReadsBack(x, 4, t);
  }

  lemma EatU63OfBe(x: u64, t: seq<byte>)
    ensures EatU63(Be(x, 8) + t) == Step(Ok(Mask63(x)), t)
  {
    Pow256Widths();
    ReadsBack(x, 8, t);
  }

  /** A u16 reads back; so does a u8 when at least one more byte follows it. */
  lemma EatU16OfBe(x: u16, t: seq<byte>)
    ensures EatU16(Be(x, 2) + t) == Step(Ok(x), t)
  {
    Pow256Widths();
    ReadsBack(x, 2, t);
  }

  lemma EatU8Of(x: u8, t: seq<byte>)
    requires |t| >= 1
    ensures EatU8([x] + t) == Step(Ok(x), t)
  {
    assert ([x] + t)[1..] == t;
  }

  /** `eat_u8` fails on its last byte: a lone byte is `InComplete` although `get_u8` could read it. */
  lemma EatU8LastByte(x: u8)
    ensures EatU8([x]) == Step(Err(InComplete), [x])
  {
  }

  lemma EatBytesOf(b: seq<byte>, t: seq<byte>)
    ensures EatBytes(b + t, |b|) == Step(Ok(b), t)
  {
    assert (b + t)[..|b|] == b;
    assert (b + t)[|b|..] == t;
  }

  lemma EatVersionOf(v: Version, t: seq<byte>)
    ensures EatVersion(v.Encoding() + t) == Step(Ok(v), t)
  {
    var s := v.Encoding() + t;
    Pow256Widths();
    ValueOfBe(v.major, 2);
    ValueOfBe(v.minor, 2);
    assert s[..2] == Be(v.major, 2);
    assert s[2..4] == Be(v.minor, 2);
    assert s[4..] == t;
  }

  // ---------------------------------------------------------------------
  // What each reader consumes: the encoding of the value it returns
  // ---------------------------------------------------------------------

  lemma EatU8ReadsPrefix(s: seq<byte>)
    ensures EatU8(s).result.Ok? ==> [EatU8(s).result.value] + EatU8(s).rest == s
  {
    if |s| >= 2 {
      assert [s[0]] + s[1..] == s;
    }
  }

  lemma EatU16ReadsPrefix(s: seq<byte>)
    ensures EatU16(s).result.Ok? ==> Be(EatU16(s).result.value, 2) + EatU16(s).rest == s
  {
    if |s| >= 2 {
      BeOfValue(s[..2]);
      assert s[..2] + s[2..] == s;
    }
  }

  lemma EatU32ReadsPrefix(s: seq<byte>)
    ensures EatU32(s).result.Ok? ==> Be(EatU32(s).result.value, 4) + EatU32(s).rest == s
  {
    if |s| >= 4 {
      BeOfValue(s[..4]);
      assert s[..4] + s[4..] == s;
    }
  }

  lemma EatU24ReadsPrefix(s: seq<byte>)
    ensures EatU24(s).result.Ok? ==> EatU24(s).result.value.Encoding() + EatU24(s).rest == s
  {
    if |s| >= 3 {
      EatU8ReadsPrefix(s);
      EatU16ReadsPrefix(s[1..]);
      assert [s[0]] + (s[1..3] + s[3..]) == s;
    }
  }

  lemma EatVersionReadsPrefix(s: seq<byte>)
    ensures EatVersion(s).result.Ok? ==> EatVersion(s).result.value.Encoding() + EatVersion(s).rest == s
  {
    if |s| >= 4 {
      BeOfValue(s[..2]);
      BeOfValue(s[2..4]);
      assert s[..2] + s[2..4] + s[4..] == s;
    }
  }

  /** The two bytes of a header word read back as that word. */
  lemma ReadsWord(w: bv16, rest: seq<byte>)
    ensures var s := Be(w as int, 2) + rest;
      |s| >= 2 && Value(s[..2]) < 0x1_0000 && Value(s[..2]) as bv16 == w && s[2..] == rest
  {
    WordThroughInt(w);
    Pow256Widths();
    ReadsBack(w as int, 2, rest);
  }

  lemma {:induction false} EatFlagsOf(t: FrameType, f: Flags, rest: seq<byte>)
    ensures EatFlags(Be(HeaderWord(t, f) as int, 2) + rest) == Step(Ok((t, f)), rest)
  {
    ReadsWord(HeaderWord(t, f), rest);
    TypeAndFlagsOfHeaderWord(t, f);
  }

  /** A header word gives back the type and the flags it was built from. */
  lemma TypeAndFlagsOfHeaderWord(t: FrameType, f: Flags)
    ensures TypeAndFlags(HeaderWord(t, f)) == Ok((t, f))
  {
    HeaderWordKeepsBoth(t, f);
  }

  /** Setting bits that are neither type nor flag bits leaves both unchanged. */
  lemma UndefinedBitsChangeNothing(h: bv16, junk: bv16)
    requires junk & (0xFC00 | ALL_FLAGS) == 0
    ensures (h | junk) >> 10 == h >> 10 && (h | junk) & ALL_FLAGS == h & ALL_FLAGS
  {
  }

  /** Bits of the low ten that name no flag are dropped. */
  lemma TypeAndFlagsIgnoresUndefinedBits(h: bv16, junk: bv16)
    requires junk & (0xFC00 | ALL_FLAGS) == 0
    ensures TypeAndFlags(h | junk) == TypeAndFlags(h)
  {
    UndefinedBitsChangeNothing(h, junk);
    assert FromBits(h | junk) == FromBits(h);
  }

  /**
   * A header word with undefined low bits set still reads as its type and its
   * defined flags.
   */
  lemma EatFlagsDropsUndefinedBits(t: FrameType, f: Flags, junk: bv16, rest: seq<byte>)
    requires junk & (0xFC00 | ALL_FLAGS) == 0
    ensures EatFlags(Be((HeaderWord(t, f) | junk) as int, 2) + rest) == Step(Ok((t, f)), rest)
  {
    ReadsWord(HeaderWord(t, f) | junk, rest);
    TypeAndFlagsIgnoresUndefinedBits(HeaderWord(t, f), junk);
    TypeAndFlagsOfHeaderWord(t, f);
  }

  /** An unknown type code is reported with the code that was read. */
  lemma EatFlagsUnknown(w: bv16, rest: seq<byte>)
    requires FromBits(w).None?
    ensures EatFlags(Be(w as int, 2) + rest) == Step(Err(UnrecognizedFrameType((w >> 10) as int)), rest)
  {
    ReadsWord(w, rest);
    assert EatFlags(Be(w as int, 2) + rest) == Step(TypeAndFlags(w), rest);
  }

  /** A U24 reads back whatever bytes follow it. */
  lemma EatU24Of(u: U24, t: seq<byte>)
    ensures EatU24(u.Encoding() + t) == Step(Ok(u), t)
  {
    var s := u.Encoding() + t;
    assert s == [u.high] + (Be(u.low, 2) + t);
    EatU8Of(u.high, Be(u.low, 2) + t);
    EatU16OfBe(u.low, t);
  }

  /** The token and its u16 length read back when RESUME is set. */
  lemma EatResumeTokenOf(token: seq<byte>, flags: Flags, t: seq<byte>)
    requires |token| < 0x1_0000 && Contains(flags, RESUME_FLAG)
    ensures EatResumeToken(Be(|token|, 2) + (token + t), flags) == Step(Ok(Some(token)), t)
  {
    EatU16OfBe(|token|, token + t);
    EatBytesOf(token, t);
  }

  /**
   * The bytes that frames with a payload write after their fixed fields: the
   * U24 metadata length (0 for absent metadata), then the payload.
   */
  function PrefixedEncoding(p: Payload): seq<byte>
    requires |Section(p.metadata)| <= FrameU24.MAX
  {
    FromU32(|Section(p.metadata)|).Encoding() + p.Encoding()
  }

  /** The payload of a frame reads back when every present section is non-empty. */
  lemma EatPayloadOf(p: Payload)
    requires |Section(p.metadata)| <= FrameU24.MAX && p.SectionsNonEmpty()
    ensures EatPayload(PrefixedEncoding(p), true) == Step(Ok(p), [])
  {
    var n := |Section(p.metadata)|;
    EatU24Of(FromU32(n), p.Encoding());
    var m := Section(p.metadata);
    var d := Section(p.data);
    EatBytesOf(m, d);
    if d != [] {
      EatBytesOf(d, []);
      assert d + [] == d;
    }
  }

  /**
   * An empty present section does not survive: `Some([])` metadata is written
   * as length 0 and read back as absent, and so is `Some([])` data.
   */
  lemma EmptySectionsReadAsAbsent()
    ensures EatPayload(PrefixedEncoding(Payload(Some([]), Some([]))), true) == Step(Ok(Payload(None, None)), [])
  {
    var p := Payload(Some([]), Some([]));
    assert p.Encoding() == [];
    EatU24Of(FromU32(0), p.Encoding());
    assert EatU24(PrefixedEncoding(p)) == Step(Ok(FromU32(0)), []);
    assert EatSections([], 0) == Step(Ok(Payload(None, None)), []);
  }
}
