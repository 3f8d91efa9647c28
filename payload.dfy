/**
 * `payload.rs` and its near-identical copy `frame/payload.rs`: a payload is an
 * optional metadata section and an optional data section. `PayloadChunks`
 * splits both sections into pieces of at most a given size, the way a frame
 * is fragmented.
 */
module Payloads {
  import opened Wrappers
  import opened Bytes

  /** The bytes of a section, an absent section counting as empty. */
  function Section(o: Option<seq<byte>>): seq<byte>
  {
    o.UnwrapOr([])
  }

  datatype Payload = Payload(metadata: Option<seq<byte>>, data: Option<seq<byte>>)
  {
    /** `len`: the metadata length plus the data length. */
    function Len(): (n: nat)
      ensures n == |Encoding()|
    {
      (if metadata.Some? then |metadata.value| else 0) + (if data.Some? then |data.value| else 0)
    }

    /** `is_empty`: the length is 0, so `encode` would write nothing. */
    predicate IsEmpty()
      ensures IsEmpty() <==> Encoding() == []
    {
      Len() == 0
    }

    /** `has_data`: a data section is present, possibly empty. */
    predicate HasData()
      ensures !HasData() ==> Encoding() == Section(metadata)
    {
      data.Some?
    }

    /** `has_metadata`: a metadata section is present, possibly empty. */
    predicate HasMetadata()
      ensures !HasMetadata() ==> Encoding() == Section(data)
    {
      metadata.Some?
    }

    /** `split`: both sections, unchanged. */
    function Split(): (r: (Option<seq<byte>>, Option<seq<byte>>))
      ensures Payload(r.0, r.1) == this
    {
      (metadata, data)
    }

    /** The bytes `encode` appends: the metadata, then the data, nothing else. */
    function Encoding(): (s: seq<byte>)
      ensures |s| == |Section(metadata)| + |Section(data)|
      ensures s[..|Section(metadata)|] == Section(metadata) && s[|Section(metadata)|..] == Section(data)
    {
      Section(metadata) + Section(data)
    }

    method Encode(buf: BytesMut)
      modifies buf
      ensures buf.bytes == old(buf.bytes) + Encoding()
    {
      if metadata.Some? {
        buf.PutSlice(metadata.value);
      }
      if data.Some? {
        buf.PutSlice(data.value);
      }
    }

    /** Every present section is non-empty: the condition under which a payload survives a round trip. */
    predicate SectionsNonEmpty()
    {
      (metadata.Some? ==> metadata.value != []) && (data.Some? ==> data.value != [])
    }
  }

  function New(metadata: Option<seq<byte>>, data: Option<seq<byte>>): (p: Payload)
    ensures p.metadata == metadata && p.data == data
  {
    Payload(metadata, data)
  }

  /** `is_empty` holds exactly when no section carries a byte. */
  lemma IsEmptyIffNoBytes(p: Payload)
    ensures p.IsEmpty() <==> Section(p.metadata) == [] && Section(p.data) == []
  {
  }

  /** `PayloadBuilder`: starts from the empty payload. */
  datatype PayloadBuilder = PayloadBuilder(payload: Payload)
  {
    function SetData(d: seq<byte>): (b: PayloadBuilder)
      ensures b.payload.data == Some(d) && b.payload.metadata == payload.metadata
    {
      PayloadBuilder(payload.(data := Some(d)))
    }

    function SetMetadata(m: seq<byte>): (b: PayloadBuilder)
      ensures b.payload.metadata == Some(m) && b.payload.data == payload.data
    {
      PayloadBuilder(payload.(metadata := Some(m)))
    }

    /** `build`: the payload with every section the setters stored. */
    function Build(): (p: Payload)
      ensures p.metadata == payload.metadata && p.data == payload.data
    {
      payload
    }
  }

  function NewBuilder(): (b: PayloadBuilder)
    ensures b.Build() == Payload(None, None) && b.Build().IsEmpty()
  {
    PayloadBuilder(Payload(None, None))
  }

  // ---------------------------------------------------------------------
  // Chunking
  // ---------------------------------------------------------------------

  /** The iterator's state: the piece size and what is left of each section. */
  datatype ChunkState = ChunkState(size: nat, metadata: Option<seq<byte>>, data: Option<seq<byte>>)
  {
    predicate Exhausted()
    {
      metadata.None? && data.None?
    }
  }

  /**
   * One section's share of a `next` call: a section longer than `size` gives
   * up its first `size` bytes (`split_to`); a shorter one is taken whole and
   * becomes absent (`take`).
   */
  function Piece(size: nat, o: Option<seq<byte>>): (r: (Option<seq<byte>>, Option<seq<byte>>))
    ensures o.None? ==> r == (None, None)
    ensures o.Some? ==> r.0.Some? && Section(r.0) + Section(r.1) == o.value
    ensures o.Some? && size < |o.value| ==> |r.0.value| == size && r.1.Some?
    ensures o.Some? && |o.value| <= size ==> r.0 == o && r.1.None?
  {
    match o
    case None => (None, None)
    case Some(s) =>
      if size < |s| then (Some(s[..size]), Some(s[size..])) else (o, None)
  }

  /** `PayloadChunks::next`: the next piece and the state after it. */
  function NextChunk(st: ChunkState): (r: (Option<Payload>, ChunkState))
    ensures r.0.None? <==> st.Exhausted()
    ensures r.0.None? ==> r.1 == st
    ensures r.1.size == st.size
    ensures r.0.Some? ==> Section(r.0.value.metadata) + Section(r.1.metadata) == Section(st.metadata)
    ensures r.0.Some? ==> Section(r.0.value.data) + Section(r.1.data) == Section(st.data)
    ensures r.0.Some? ==> |Section(r.0.value.metadata)| <= st.size || st.size == 0
    ensures r.0.Some? ==> |Section(r.0.value.data)| <= st.size || st.size == 0
  {
    if st.Exhausted() then (None, st)
    else
      var m := Piece(st.size, st.metadata);
      var d := Piece(st.size, st.data);
      (Some(Payload(m.0, d.0)), ChunkState(st.size, m.1, d.1))
  }

  function Weight(o: Option<seq<byte>>): nat
  {
    if o.None? then 0 else |o.value| + 1
  }

  /** Every piece the iterator will still yield, in order; a zero size never ends on a non-empty section. */
  function Remaining(st: ChunkState): (r: seq<Payload>)
    requires st.size > 0
    ensures r == [] <==> st.Exhausted()
    decreases Weight(st.metadata) + Weight(st.data)
  {
    if st.Exhausted() then []
    else
      var (c, next) := NextChunk(st);
      [c.value] + Remaining(next)
  }

  /** The state after `k` calls of `next`. */
  function Iterate(st: ChunkState, k: nat): ChunkState
    decreases k
  {
    if k == 0 then st else Iterate(NextChunk(st).1, k - 1)
  }

  /** `ceil(n / c)`: the least `r` with `n <= r * c`. */
  function CeilDiv(n: nat, c: nat): (r: nat)
    requires c > 0
    ensures n == 0 ==> r == 0
    ensures n > 0 ==> (r - 1) * c < n <= r * c
  {
    if n == 0 then 0
    else if n <= c then 1
    else
      var r' := CeilDiv(n - c, c);
      assert (r' + 1) * c == r' * c + c;
      1 + r'
  }

  /** `PayloadChunks::len` of `payload.rs`, in integer arithmetic. */
  function ChunkCount(st: ChunkState): (n: nat)
    requires st.size > 0
    ensures |Section(st.metadata)| <= n * st.size && |Section(st.data)| <= n * st.size
  {
    var a := CeilDiv(|Section(st.metadata)|, st.size);
    var b := CeilDiv(|Section(st.data)|, st.size);
    if a < b then ScaleMonotone(a, b, st.size); b else ScaleMonotone(b, a, st.size); a
  }

  lemma ScaleMonotone(a: nat, b: nat, c: nat)
    requires a <= b
    ensures a * c <= b * c
  {
  }

  /** The in-order concatenation of the chunks' metadata sections. */
  function JoinedMetadata(chunks: seq<Payload>): seq<byte>
  {
    if chunks == [] then [] else Section(chunks[0].metadata) + JoinedMetadata(chunks[1..])
  }

  function JoinedData(chunks: seq<Payload>): seq<byte>
  {
    if chunks == [] then [] else Section(chunks[0].data) + JoinedData(chunks[1..])
  }

  /** Once both sections are consumed, `next` yields `None` and changes nothing, forever. */
  lemma {:induction false} ExhaustedStaysExhausted(st: ChunkState, k: nat)
    requires st.Exhausted()
    ensures Iterate(st, k) == st
    ensures NextChunk(Iterate(st, k)) == (None, st)
  {
    if k > 0 {
      ExhaustedStaysExhausted(NextChunk(st).1, k - 1);
    }
  }

  /**
   * The `i`-th call of `next` yields the `i`-th element of `Remaining`, and the
   * call after the last one finds both sections consumed.
   */
  lemma {:induction false} NextYieldsRemaining(st: ChunkState, i: nat)
    requires st.size > 0 && i <= |Remaining(st)|
    ensures i < |Remaining(st)| ==> NextChunk(Iterate(st, i)).0 == Some(Remaining(st)[i])
    ensures i == |Remaining(st)| ==> Iterate(st, i).Exhausted()
    decreases i
  {
    if i > 0 {
      var next := NextChunk(st).1;
      assert Remaining(st) == [NextChunk(st).0.value] + Remaining(next);
      NextYieldsRemaining(next, i - 1);
    }
  }

  /** Every piece of either section is at most `size` bytes. */
  lemma {:induction false} ChunksBounded(st: ChunkState, i: nat)
    requires st.size > 0 && i < |Remaining(st)|
    ensures |Section(Remaining(st)[i].metadata)| <= st.size
    ensures |Section(Remaining(st)[i].data)| <= st.size
    decreases Weight(st.metadata) + Weight(st.data)
  {
    var next := NextChunk(st).1;
    if i > 0 {
      ChunksBounded(next, i - 1);
    }
  }

  /**
   * Only the last piece of a section can be short: a piece followed by another
   * piece of the same section has exactly `size` bytes, and the pieces of a
   * section come one after the other from the first chunk on.
   */
  lemma {:induction false} OnlyLastPieceShort(st: ChunkState, i: nat)
    requires st.size > 0 && i + 1 < |Remaining(st)|
    ensures Remaining(st)[i + 1].metadata.Some? ==>
      Remaining(st)[i].metadata.Some? && |Remaining(st)[i].metadata.value| == st.size
    ensures Remaining(st)[i + 1].data.Some? ==>
      Remaining(st)[i].data.Some? && |Remaining(st)[i].data.value| == st.size
    decreases Weight(st.metadata) + Weight(st.data)
  {
    var next := NextChunk(st).1;
    if i > 0 {
      OnlyLastPieceShort(next, i - 1);
    } else {
      var r := Remaining(next);
      assert Remaining(st)[1] == r[0];
      if st.metadata.None? || |st.metadata.value| <= st.size {
        assert next.metadata.None?;
        assert r[0].metadata.None?;
      }
      if st.data.None? || |st.data.value| <= st.size {
        assert next.data.None?;
        assert r[0].data.None?;
      }
    }
  }

  /** Joining the pieces in order gives back both sections. */
  lemma {:induction false} ChunksReassemble(st: ChunkState)
    requires st.size > 0
    ensures JoinedMetadata(Remaining(st)) == Section(st.metadata)
    ensures JoinedData(Remaining(st)) == Section(st.data)
    decreases Weight(st.metadata) + Weight(st.data)
  {
    if !st.Exhausted() {
      var (c, next) := NextChunk(st);
      var r := Remaining(st);
      assert r == [c.value] + Remaining(next);
      assert r[1..] == Remaining(next);
      ChunksReassemble(next);
    }
  }

  /** How many pieces a section gives: ceil(|s| / size), or none for an absent section. */
  lemma {:induction false} PieceCount(size: nat, o: Option<seq<byte>>)
    requires size > 0 && (o.Some? ==> o.value != [])
    ensures var p := Piece(size, o);
      (p.1.Some? ==> p.1.value != []) &&
      (if o.None? then CeilDiv(0, size) == 0
       else CeilDiv(|Section(p.1)|, size) == CeilDiv(|o.value|, size) - 1 && CeilDiv(|o.value|, size) >= 1)
  {
    if o.Some? {
      assert CeilDiv(0, size) == 0;
    }
  }

  /**
   * `PayloadChunks::len` counts the pieces still to come, provided every present
   * section is non-empty (an empty present section gives one empty piece but
   * counts 0).
   */
  lemma {:induction false} ChunkCountIsLength(st: ChunkState)
    requires st.size > 0
    requires st.metadata.Some? ==> st.metadata.value != []
    requires st.data.Some? ==> st.data.value != []
    ensures |Remaining(st)| == ChunkCount(st)
    decreases Weight(st.metadata) + Weight(st.data)
  {
    assert CeilDiv(0, st.size) == 0;
    if !st.Exhausted() {
      var next := NextChunk(st).1;
      PieceCount(st.size, st.metadata);
      PieceCount(st.size, st.data);
      assert ChunkCount(st) == ChunkCount(next) + 1;
      ChunkCountIsLength(next);
    }
  }

  /** `is_empty` of the iterator: nothing is left to count. */
  lemma ChunkCountZero(st: ChunkState)
    requires st.size > 0
    ensures ChunkCount(st) == 0 <==> Section(st.metadata) == [] && Section(st.data) == []
  {
    var a := |Section(st.metadata)|;
    var b := |Section(st.data)|;
    if a > 0 { assert CeilDiv(a, st.size) >= 1; }
    if b > 0 { assert CeilDiv(b, st.size) >= 1; }
  }

  /** The iterator of `chunks`, with its sections consumed in place by `Next`. */
  class PayloadChunks {
    var size: nat
    var metadata: Option<seq<byte>>
    var data: Option<seq<byte>>

    function State(): ChunkState
      reads this
    {
      ChunkState(size, metadata, data)
    }

    constructor (size: nat, p: Payload)
      ensures State() == ChunkState(size, p.metadata, p.data)
    {
      this.size := size;
      this.metadata := p.metadata;
      this.data := p.data;
    }

    /** `Iterator::next`. */
    method Next() returns (r: Option<Payload>)
      modifies this
      ensures (r, State()) == NextChunk(old(State()))
    {
      if metadata.None? && data.None? {
        return None;
      }
      var meta: Option<seq<byte>> := None;
      var d: Option<seq<byte>> := None;
      if metadata.Some? {
        var m := metadata.value;
        if size < |m| {
          meta := Some(m[..size]);
          metadata := Some(m[size..]);
        } else {
          meta := metadata;
          metadata := None;
        }
      }
      if data.Some? {
        var v := data.value;
        if size < |v| {
          d := Some(v[..size]);
          data := Some(v[size..]);
        } else {
          d := data;
          data := None;
        }
      }
      r := Some(Payload(meta, d));
    }

    /** `len` (only `payload.rs` has it): the pieces still to come. */
    function Len(): (n: nat)
      reads this
      requires size > 0
      ensures (metadata.Some? ==> metadata.value != []) && (data.Some? ==> data.value != []) ==>
        n == |Remaining(State())|
    {
      var n := ChunkCount(State());
      if (metadata.Some? ==> metadata.value != []) && (data.Some? ==> data.value != []) then
        ChunkCountIsLength(State());
        n
      else
        n
    }

    /** `is_empty`: no byte of either section is left. */
    predicate IsEmpty()
      reads this
      requires size > 0
      ensures IsEmpty() <==> Section(metadata) == [] && Section(data) == []
    {
      ChunkCountZero(State());
      Len() == 0
    }
  }

  /** `frame/payload.rs` `chunks(mtu)`: no check on `mtu`. */
  method ChunksOfFrame(p: Payload, mtu: nat) returns (it: PayloadChunks)
    ensures fresh(it) && it.State() == ChunkState(mtu, p.metadata, p.data)
  {
    it := new PayloadChunks(mtu, p);
  }

  /** `payload.rs` `chunks(chunk_size)`: asserts a non-zero size. */
  method Chunks(p: Payload, chunkSize: nat) returns (it: PayloadChunks)
    requires chunkSize != 0
    ensures fresh(it) && it.State() == ChunkState(chunkSize, p.metadata, p.data)
  {
    it := new PayloadChunks(chunkSize, p);
  }

  /** With a zero `mtu` a non-empty section never shrinks: `next` yields empty pieces and the same state again. */
  lemma ZeroMtuNeverEnds(st: ChunkState)
    requires st.size == 0 && !st.Exhausted()
    requires st.metadata.Some? ==> st.metadata.value != []
    requires st.data.Some? ==> st.data.value != []
    ensures NextChunk(st).1 == st
    ensures NextChunk(st).0 == Some(Payload(
      if st.metadata.Some? then Some([]) else None,
      if st.data.Some? then Some([]) else None))
  {
    if st.metadata.Some? {
      assert st.metadata.value[0..] == st.metadata.value;
    }
    if st.data.Some? {
      assert st.data.value[0..] == st.data.value;
    }
  }
}
