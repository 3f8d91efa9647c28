/**
 * `frame/flags.rs`: the 16-bit word after the stream id holds a 6-bit frame
 * type (the high bits) and 10 bits of flags.
 */
module FrameFlags {
  import opened Wrappers
  import opened Bytes

  datatype FrameType =
    | SETUP | LEASE | KEEPALIVE | REQUEST_RESPONSE | REQUEST_FNF | REQUEST_STREAM
    | REQUEST_CHANNEL | REQUEST_N | CANCEL | PAYLOAD | ERROR | METADATA_PUSH
    | RESUME | RESUME_OK | EXT
  {
    /** The type code of the protocol's frame-type table. */
    function Value(): (v: u16)
      ensures 0x01 <= v <= 0x0E || v == 0x3F
    {
      match this
      case SETUP => 0x01
      case LEASE => 0x02
      case KEEPALIVE => 0x03
      case REQUEST_RESPONSE => 0x04
      case REQUEST_FNF => 0x05
      case REQUEST_STREAM => 0x06
      case REQUEST_CHANNEL => 0x07
      case REQUEST_N => 0x08
      case CANCEL => 0x09
      case PAYLOAD => 0x0A
      case ERROR => 0x0B
      case METADATA_PUSH => 0x0C
      case RESUME => 0x0D
      case RESUME_OK => 0x0E
      case EXT => 0x3F
    }

    /** The type code moved into the high 6 bits of the header word. */
    function Bits(): (b: bv16)
      ensures b as int == Value() * 1024
      ensures b & 0x3FF == 0
    {
      CodeThroughBits(this);
      ShiftedCode(Value() as bv16);
      (Value() as bv16) << 10
    }
  }

  /** `from_value`: the frame type with the given code, if there is one. */
  function FromValue(val: u16): (r: Option<FrameType>)
    ensures r.Some? ==> r.value.Value() == val
  {
    match val
    case 0x01 => Some(SETUP)
    case 0x02 => Some(LEASE)
    case 0x03 => Some(KEEPALIVE)
    case 0x04 => Some(REQUEST_RESPONSE)
    case 0x05 => Some(REQUEST_FNF)
    case 0x06 => Some(REQUEST_STREAM)
    case 0x07 => Some(REQUEST_CHANNEL)
    case 0x08 => Some(REQUEST_N)
    case 0x09 => Some(CANCEL)
    case 0x0A => Some(PAYLOAD)
    case 0x0B => Some(ERROR)
    case 0x0C => Some(METADATA_PUSH)
    case 0x0D => Some(RESUME)
    case 0x0E => Some(RESUME_OK)
    case 0x3F => Some(EXT)
    case _ => None
  }

  /** `from_bits`: the frame type named by the high 6 bits of a header word. */
  function FromBits(bits: bv16): (r: Option<FrameType>)
    ensures r.Some? ==> r.value.Value() == (bits >> 10) as int
  {
    FromValue((bits >> 10) as int)
  }

  /** A set of header flags: only the bits the protocol defines can be set. */
  type Flags = f: bv16 | f & !ALL_FLAGS == 0

  /** The union of every defined flag bit (what `from_bits_truncate` keeps). */
  const ALL_FLAGS: bv16 := 0x1F0

  const EMPTY: Flags := 0
  const IGNORE: Flags := 0x100
  const METADATA: Flags := 0x080
  const FOLLOWS: Flags := 0x040
  const RESUME_FLAG: Flags := 0x040
  const RESPOND: Flags := 0x040
  const COMPLETE: Flags := 0x020
  const LEASE_FLAG: Flags := 0x020
  const NEXT: Flags := 0x010

  /** `Flags::from_bits_truncate`: drop every bit that is not a defined flag. */
  function FromBitsTruncate(bits: bv16): (f: Flags)
    ensures f & ALL_FLAGS == bits & ALL_FLAGS
  {
    bits & ALL_FLAGS
  }

  /** `contains`: every bit of `other` is set in `f`. */
  predicate Contains(f: Flags, other: Flags)
    ensures Contains(f, other) <==> f | other == f
  {
    f & other == other
  }

  /** `f | g`: the smallest set of flags that contains both operands. */
  function Union(f: Flags, g: Flags): (u: Flags)
    ensures Contains(u, f) && Contains(u, g)
    ensures forall h: Flags :: Contains(h, f) && Contains(h, g) ==> Contains(h, u)
  {
    f | g
  }

  /**
   * The flags the request frames' `new` derives: FOLLOWS when more fragments
   * follow, METADATA when the payload has metadata, and nothing else.
   */
  function FollowsAndMetadata(follows: bool, hasMetadata: bool): (f: Flags)
    ensures Contains(f, FOLLOWS) == follows && Contains(f, METADATA) == hasMetadata
    ensures f & !(FOLLOWS | METADATA) == 0
  {
    (if follows then FOLLOWS else EMPTY) | (if hasMetadata then METADATA else EMPTY)
  }

  /** The `is_*` tests: each flag is a single bit, so containing it is that bit being set. */
  predicate IsIgnore(f: Flags)
    ensures IsIgnore(f) <==> f & IGNORE != 0
  {
    Contains(f, IGNORE)
  }

  predicate IsMetadata(f: Flags)
    ensures IsMetadata(f) <==> f & METADATA != 0
  {
    Contains(f, METADATA)
  }

  predicate IsFollows(f: Flags)
    ensures IsFollows(f) <==> f & FOLLOWS != 0
  {
    Contains(f, FOLLOWS)
  }

  predicate IsResume(f: Flags)
    ensures IsResume(f) <==> f & RESUME_FLAG != 0
  {
    Contains(f, RESUME_FLAG)
  }

  predicate IsRespond(f: Flags)
    ensures IsRespond(f) <==> f & RESPOND != 0
  {
    Contains(f, RESPOND)
  }

  predicate IsComplete(f: Flags)
    ensures IsComplete(f) <==> f & COMPLETE != 0
  {
    Contains(f, COMPLETE)
  }

  predicate IsLease(f: Flags)
    ensures IsLease(f) <==> f & LEASE_FLAG != 0
  {
    Contains(f, LEASE_FLAG)
  }

  predicate IsNext(f: Flags)
    ensures IsNext(f) <==> f & NEXT != 0
  {
    Contains(f, NEXT)
  }

  /** `type.bits() | flags.bits()`, the header word `encode` writes. */
  function HeaderWord(t: FrameType, f: Flags): (w: bv16)
    ensures w & 0x3FF == f && w & 0xFC00 == t.Bits()
  {
    t.Bits() | f
  }

  /** A header word survives the trip through its integer value. */
  lemma WordThroughInt(w: bv16)
    ensures 0 <= w as int < 0x1_0000 && (w as int) as bv16 == w
  {
  }

  /** Every frame type's code reads back through `from_value`. */
  lemma FromValueOfValue(t: FrameType)
    ensures FromValue(t.Value()) == Some(t)
  {
  }

  /** `from_value` knows exactly the codes 0x01..0x0E and 0x3F. */
  lemma FromValueDomain(val: u16)
    ensures FromValue(val).Some? <==> (0x01 <= val <= 0x0E || val == 0x3F)
    ensures FromValue(val).Some? ==> FromValue(val).value.Value() == val
  {
  }

  /** `bits` is the code shifted left by 10, and it reads back through `from_bits`. */
  lemma BitsRoundTrip(t: FrameType)
    ensures t.Bits() as int == t.Value() * 1024
    ensures FromBits(t.Bits()) == Some(t)
  {
    CodeThroughBits(t);
    ShiftedCode(t.Value() as bv16);
    FromValueOfValue(t);
  }

  /** Every type code survives the trip through a 16-bit word. */
  lemma {:induction false} CodeThroughBits(t: FrameType)
    ensures (t.Value() as bv16) as int == t.Value()
  {
    match t
    case SETUP =>
    case LEASE =>
    case KEEPALIVE =>
    case REQUEST_RESPONSE =>
    case REQUEST_FNF =>
    case REQUEST_STREAM =>
    case REQUEST_CHANNEL =>
    case REQUEST_N =>
    case CANCEL =>
    case PAYLOAD =>
    case ERROR =>
    case METADATA_PUSH =>
    case RESUME =>
    case RESUME_OK =>
    case EXT =>
  }

  /** A 6-bit code shifted into the high bits of a word is multiplied by 1024 and shifts back out unchanged. */
  lemma ShiftedCode(x: bv16)
    requires x < 64
    ensures (x << 10) as int == (x as int) * 1024
    ensures (x << 10) >> 10 == x
  {
    assert x << 10 == x * 1024;
  }

  /**
   * Flags live in the low 10 bits and the type in the high 6, so combining them
   * loses neither: the type reads back from the word and so do the flags.
   */
  lemma {:induction false} HeaderWordKeepsBoth(t: FrameType, f: Flags)
    ensures FromBits(HeaderWord(t, f)) == Some(t)
    ensures FromBitsTruncate(HeaderWord(t, f)) == f
    ensures (HeaderWord(t, f) >> 10) as int == t.Value()
  {
    BitsRoundTrip(t);
    assert HeaderWord(t, f) >> 10 == t.Bits() >> 10;
  }

  /** Every defined flag fits in the low 10 bits of the header word. */
  lemma FlagsBelowTypeBits()
    ensures IGNORE & 0xFC00 == 0 && METADATA & 0xFC00 == 0 && FOLLOWS & 0xFC00 == 0
    ensures COMPLETE & 0xFC00 == 0 && NEXT & 0xFC00 == 0
  {
  }

  /** FOLLOWS, RESUME and RESPOND are one bit, and so are COMPLETE and LEASE. */
  lemma SharedBits(f: Flags)
    ensures IsFollows(f) == IsResume(f) == IsRespond(f)
    ensures IsComplete(f) == IsLease(f)
  {
  }

  /** Type code 0 names no frame type. */
  lemma ZeroIsNoType()
    ensures FromValue(0x00) == None
  {
  }
}
