/** `frame/u24.rs`: the 24-bit unsigned length used in front of metadata. */
module FrameU24 {
  import opened Bytes

  /** The high byte and the low 16 bits. */
  datatype U24 = U24(high: u8, low: u16)
  {
    /** `into_u32` and `into_usize`: `(high << 16) | low`. */
    function IntoU32(): (v: nat)
      ensures v <= MAX
      ensures v / 0x1_0000 == high && v % 0x1_0000 == low
    {
      high * 0x1_0000 + low
    }

    function Len(): (n: nat)
      ensures n == |Encoding()|
    {
      3
    }

    /** The bytes `encode` appends: the high byte, then the low 16 bits big-endian. */
    function Encoding(): (s: seq<byte>)
      ensures |s| == 3 && s[0] == high && Value(s[1..]) == low
    {
      ValueOfBe(low, 2);
      assert ([high] + Be(low, 2))[1..] == Be(low, 2);
      [high] + Be(low, 2)
    }

    method Encode(buf: BytesMut)
      modifies buf
      ensures buf.bytes == old(buf.bytes) + Encoding()
    {
      buf.PutU8(high);
      buf.PutU16(low);
    }
  }

  /** `u32::MAX >> 8`. */
  const MAX: int := 0xFFFF_FFFF / 0x100
  const MIN: int := 0

  lemma Bounds()
    ensures MAX == 16_777_215 && MIN == 0
  {
  }

  function New(high: u8, low: u16): (u: U24)
    ensures u.IntoU32() == high * 0x1_0000 + low
  {
    U24(high, low)
  }

  /**
   * `from_u32` and `from_usize`: the value must not exceed `MAX` (the source
   * asserts it), so the high byte and the low 16 bits are taken exactly.
   */
  function FromU32(v: nat): (u: U24)
    requires v <= MAX
    ensures u.IntoU32() == v
  {
    U24(v / 0x1_0000, v % 0x1_0000)
  }

  /** Every `U24` is the conversion of its own value: no two values share a `U24`. */
  lemma FromIntoU32(u: U24)
    ensures FromU32(u.IntoU32()) == u
  {
  }
}
