/** `frame/version.rs`: the protocol version carried by SETUP and RESUME. */
module FrameVersion {
  import opened Bytes

  datatype Ordering = Less | Equal | Greater
  {
    function Reverse(): Ordering
    {
      match this
      case Less => Greater
      case Equal => Equal
      case Greater => Less
    }
  }

  /** `u16::cmp`. */
  function CmpU16(a: u16, b: u16): (o: Ordering)
    ensures o == Less <==> a < b
    ensures o == Equal <==> a == b
  {
    if a < b then Less else if a == b then Equal else Greater
  }

  datatype Version = Version(major: u16, minor: u16)
  {
    /** The bytes `encode` appends: major, then minor, each a big-endian u16. */
    function Encoding(): (s: seq<byte>)
      ensures |s| == 4
    {
      Be(major, 2) + Be(minor, 2)
    }

    function Len(): (n: nat)
      ensures n == |Encoding()|
    {
      4
    }

    method Encode(buf: BytesMut)
      modifies buf
      ensures buf.bytes == old(buf.bytes) + Encoding()
    {
      buf.PutU16(major);
      buf.PutU16(minor);
    }
  }

  function New(major: u16, minor: u16): (v: Version)
    ensures v.major == major && v.minor == minor
  {
    Version(major, minor)
  }

  /** `Default`: version 1.0. */
  function Default(): (v: Version)
    ensures v.major == 1 && v.minor == 0
  {
    Version(1, 0)
  }

  /** `Ord::cmp`: majors first; minors only when the majors are equal. */
  function Cmp(a: Version, b: Version): (o: Ordering)
    ensures o == Equal <==> a == b
    ensures a.major != b.major ==> o == CmpU16(a.major, b.major)
  {
    var m := CmpU16(a.major, b.major);
    if m != Equal then m else CmpU16(a.minor, b.minor)
  }

  /** `Cmp` is the lexicographic order on (major, minor). */
  lemma CmpIsLexicographic(a: Version, b: Version)
    ensures Cmp(a, b) == Less <==> a.major < b.major || (a.major == b.major && a.minor < b.minor)
    ensures Cmp(a, b) == Equal <==> a == b
    ensures Cmp(a, b) == Greater <==> a.major > b.major || (a.major == b.major && a.minor > b.minor)
  {
  }

  lemma CmpAntisymmetric(a: Version, b: Version)
    ensures Cmp(b, a) == Cmp(a, b).Reverse()
  {
  }

  lemma CmpTransitive(a: Version, b: Version, c: Version, o: Ordering)
    requires Cmp(a, b) == o && Cmp(b, c) == o
    ensures Cmp(a, c) == o
  {
  }

  /** The encoding is four bytes from which both numbers read back, so no two versions share it. */
  lemma EncodingReadsBack(v: Version)
    ensures |v.Encoding()| == 4
    ensures Value(v.Encoding()[..2]) == v.major && Value(v.Encoding()[2..]) == v.minor
    ensures forall w: Version :: w.Encoding() == v.Encoding() ==> w == v
  {
    forall w: Version
      ensures Value(w.Encoding()[..2]) == w.major && Value(w.Encoding()[2..]) == w.minor
    {
      Pow256Widths();
      ValueOfBe(w.major, 2);
      ValueOfBe(w.minor, 2);
      assert w.Encoding()[..2] == Be(w.major, 2);
      assert w.Encoding()[2..] == Be(w.minor, 2);
    }
  }
}
