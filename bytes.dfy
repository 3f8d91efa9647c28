/**
 * Byte-level vocabulary shared by the codec: the unsigned integer widths the
 * wire format uses, big-endian encoding of integers, the 31- and 63-bit
 * masks of `frame/mod.rs`, and the two buffers of the `bytes` crate that the
 * codec writes to (`BytesMut`) and reads from (`Buf`).
 */
module Bytes {
  type byte = x: int | 0 <= x < 0x100
  type u8 = byte
  type u16 = x: int | 0 <= x < 0x1_0000
  type u32 = x: int | 0 <= x < 0x1_0000_0000
  type u64 = x: int | 0 <= x < 0x1_0000_0000_0000_0000

  /** `u32::MAX >> 1`, the largest value of a 31-bit field. */
  const MAX_U31: int := 0xFFFF_FFFF / 2
  /** `u64::MAX >> 1`, the largest value of a 63-bit field. */
  const MAX_U63: int := 0xFFFF_FFFF_FFFF_FFFF / 2

  /** `x & MAX_U31` for an unsigned (or two's-complement) value `x`. */
  function Mask31(x: int): (r: int)
    ensures 0 <= r <= MAX_U31
    ensures 0 <= x <= MAX_U31 ==> r == x
  {
    x % 0x8000_0000
  }

  /** `x & MAX_U63` for an unsigned value `x`. */
  function Mask63(x: int): (r: int)
    ensures 0 <= r <= MAX_U63
    ensures 0 <= x <= MAX_U63 ==> r == x
  {
    x % 0x8000_0000_0000_0000
  }

  /** The `i32` of the connection counters, whose atomic operations wrap around. */
  type i32 = x: int | -0x8000_0000 <= x < 0x8000_0000

  /** `x` wrapped into an `i32` by two's complement: `wrapping_add`, or `as i32` of a `u32`. */
  function WrapI32(x: int): (r: i32)
    ensures -0x8000_0000 <= x < 0x8000_0000 ==> r == x
  {
    (x + 0x8000_0000) % 0x1_0000_0000 - 0x8000_0000
  }

  /** Wrapping is arithmetic modulo 2^32: it may be done once at the end. */
  lemma WrapI32Add(x: int, y: int)
    ensures WrapI32(WrapI32(x) + y) == WrapI32(x + y)
  {
    var q := (x + 0x8000_0000) / 0x1_0000_0000;
    assert WrapI32(x) == x - 0x1_0000_0000 * q;
  }

  /** `& 0x7FFFFFFF` of a wrapped value is that of the unwrapped one, 2^32 being a multiple of 2^31. */
  lemma Mask31OfWrap(x: int)
    ensures Mask31(WrapI32(x)) == Mask31(x)
  {
    var q := (x + 0x8000_0000) / 0x1_0000_0000;
    var w := x - 0x1_0000_0000 * q;
    assert WrapI32(x) == w;
    var p, r := x / 0x8000_0000, x % 0x8000_0000;
    assert w == 0x8000_0000 * (p - 2 * q) + r;
  }

  function Pow256(n: nat): (r: nat)
    ensures r > 0
  {
    if n == 0 then 1 else 256 * Pow256(n - 1)
  }

  /** The `n` low-order bytes of `x`, most significant first. */
  function Be(x: nat, n: nat): (r: seq<byte>)
    ensures |r| == n
  {
    if n == 0 then [] else Be(x / 256, n - 1) + [x % 256]
  }

  /** The unsigned integer whose big-endian bytes are `s`. */
  function Value(s: seq<byte>): nat
  {
    if s == [] then 0 else Value(s[..|s| - 1]) * 256 + s[|s| - 1]
  }

  lemma {:induction false} ValueBound(s: seq<byte>)
    ensures Value(s) < Pow256(|s|)
  {
    if s != [] {
      ValueBound(s[..|s| - 1]);
    }
  }

  /** Reading back `n` big-endian bytes gives the value that was written. */
  lemma {:induction false} ValueOfBe(x: nat, n: nat)
    requires x < Pow256(n)
    ensures Value(Be(x, n)) == x
  {
    if n > 0 {
      var s := Be(x, n);
      assert s[..n - 1] == Be(x / 256, n - 1);
      ValueOfBe(x / 256, n - 1);
    }
  }

  /** Writing a read value back reproduces the bytes it was read from. */
  lemma {:induction false} BeOfValue(s: seq<byte>)
    ensures Be(Value(s), |s|) == s
  {
    if s != [] {
      var init := s[..|s| - 1];
      BeOfValue(init);
      assert (Value(init) * 256 + s[|s| - 1]) / 256 == Value(init);
      assert s == init + [s[|s| - 1]];
    }
  }

  lemma Pow256Widths()
    ensures Pow256(1) == 0x100 && Pow256(2) == 0x1_0000
    ensures Pow256(4) == 0x1_0000_0000
    ensures Pow256(8) == 0x1_0000_0000_0000_0000
  {
    assert Pow256(3) == 0x100_0000;
    assert Pow256(6) == 0x1_0000_0000_0000;
  }

  /** Two appends in a row append the concatenation of the two pieces. */
  lemma AppendedTwo<T>(s0: seq<T>, a: seq<T>, s1: seq<T>, b: seq<T>, s2: seq<T>)
    requires s1 == s0 + a && s2 == s1 + b
    ensures s2 == s0 + (a + b)
  {
  }

  /** Five appends in a row append the concatenation of the five pieces. */
  lemma AppendedFive<T>(s0: seq<T>, a: seq<T>, s1: seq<T>, b: seq<T>, s2: seq<T>, c: seq<T>, s3: seq<T>,
                        d: seq<T>, s4: seq<T>, e: seq<T>, s5: seq<T>)
    requires s1 == s0 + a && s2 == s1 + b && s3 == s2 + c && s4 == s3 + d && s5 == s4 + e
    ensures s5 == s0 + (a + b + c + d + e)
  {
  }

  /** Six pieces joined from the left are the same pieces joined from the right. */
  lemma JoinedRightward<T>(a: seq<T>, b: seq<T>, c: seq<T>, d: seq<T>, e: seq<T>, g: seq<T>)
    ensures a + b + c + d + e + g == a + (b + (c + (d + (e + g))))
  {
  }

  /** The growable output buffer every `encode` appends to. */
  class BytesMut {
    var bytes: seq<byte>

    constructor ()
      ensures bytes == []
    {
      bytes := [];
    }

    method PutU8(x: u8)
      modifies this
      ensures bytes == old(bytes) + [x]
    {
      bytes := bytes + [x];
    }

    method PutU16(x: u16)
      modifies this
      ensures bytes == old(bytes) + Be(x, 2)
    {
      bytes := bytes + [x / 0x100, x % 0x100];
    }

    method PutU32(x: u32)
      modifies this
      ensures bytes == old(bytes) + Be(x, 4)
    {
      bytes := bytes + Be(x, 4);
    }

    method PutU64(x: u64)
      modifies this
      ensures bytes == old(bytes) + Be(x, 8)
    {
      bytes := bytes + Be(x, 8);
    }

    method PutSlice(s: seq<byte>)
      modifies this
      ensures bytes == old(bytes) + s
    {
      bytes := bytes + s;
    }
  }

  /** A read cursor over received bytes: `rest` is what has not been consumed. */
  class Cursor {
    var rest: seq<byte>

    constructor (s: seq<byte>)
      ensures rest == s
    {
      rest := s;
    }

    function Remaining(): nat
      reads this
    {
      |rest|
    }

    method GetU8() returns (x: u8)
      requires |rest| >= 1
      modifies this
      ensures x == old(rest)[0] && rest == old(rest)[1..]
    {
      x := rest[0];
      rest := rest[1..];
    }

    method GetU16() returns (x: u16)
      requires |rest| >= 2
      modifies this
      ensures x == Value(old(rest)[..2]) && rest == old(rest)[2..]
    {
      ValueBound(rest[..2]);
      Pow256Widths();
      x := Value(rest[..2]);
      rest := rest[2..];
    }

    method GetU32() returns (x: u32)
      requires |rest| >= 4
      modifies this
      ensures x == Value(old(rest)[..4]) && rest == old(rest)[4..]
    {
      ValueBound(rest[..4]);
      Pow256Widths();
      x := Value(rest[..4]);
      rest := rest[4..];
    }

    method GetU64() returns (x: u64)
      requires |rest| >= 8
      modifies this
      ensures x == Value(old(rest)[..8]) && rest == old(rest)[8..]
    {
      ValueBound(rest[..8]);
      Pow256Widths();
      x := Value(rest[..8]);
      rest := rest[8..];
    }

    /** `copy_to_bytes(n)`: the next `n` bytes, consumed. */
    method CopyToBytes(n: nat) returns (b: seq<byte>)
      requires n <= |rest|
      modifies this
      ensures b == old(rest)[..n] && rest == old(rest)[n..]
    {
      b := rest[..n];
      rest := rest[n..];
    }
  }
}
