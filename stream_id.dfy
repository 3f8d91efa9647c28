/**
 * `connection/stream_id.rs`: the provider of new stream ids. It holds one
 * `i32` counter that starts at 1 on a client and 2 on a server; each attempt
 * takes the counter with its top bit cleared as the id and advances the
 * counter by 2 (wrapping), until the id is not already in use.
 */
module StreamIds {
  import opened Bytes

  /** `STREAM_ID_MASK`. */
  const STREAM_ID_MASK: int := 0x7FFF_FFFF

  /**
   * The id of the `k`-th attempt from a counter that started at `start`:
   * the counter has then advanced by `2 * k`, and wrapping it does not change
   * the masked value.
   */
  function Attempt(start: int, k: nat): (id: u32)
    ensures id <= STREAM_ID_MASK
    ensures id % 2 == start % 2
  {
    Mask31(start + 2 * k)
  }

  /** Some attempt from `start` finds an id that is not in `store`. */
  ghost predicate SomeIdFree(start: int, store: set<u32>)
  {
    exists k: nat :: Attempt(start, k) !in store
  }

  /** An attempt that finds a free id is a witness for `SomeIdFree`. */
  lemma FreeAt(start: int, store: set<u32>, k: nat)
    requires Attempt(start, k) !in store
    ensures SomeIdFree(start, store)
  {
  }

  class StreamIdProvider {
    /** The atomic counter, here a plain field: the model is single-threaded. */
    var counter: i32

    /** `new_for_client`: client streams are odd. */
    constructor NewForClient()
      ensures counter == 1
    {
      counter := 1;
    }

    /** `new_for_server`: server streams are even. */
    constructor NewForServer()
      ensures counter == 2
    {
      counter := 2;
    }

    /** `_new`, which starts the counter anywhere. */
    constructor New(init: i32)
      ensures counter == init
    {
      counter := init;
    }

    /**
     * `next_stream_id`: the first attempt whose id is not a key of `store`.
     * Every attempt, the skipped ones included, advances the counter by 2.
     * The source loops forever when no id of the counter's parity is free,
     * so that case is excluded.
     */
    method NextStreamId(store: set<u32>) returns (id: u32, ghost tries: nat)
      requires SomeIdFree(counter, store)
      modifies this
      ensures id !in store && id <= STREAM_ID_MASK && id % 2 == old(counter) % 2
      ensures id == Attempt(old(counter), tries)
      ensures forall j :: 0 <= j < tries ==> Attempt(old(counter), j) in store
      ensures counter == WrapI32(old(counter) + 2 * (tries + 1))
    {
      ghost var start := counter;
      ghost var free: nat :| Attempt(start, free) !in store;
      tries := 0;
      while true
        invariant tries <= free
        invariant counter == WrapI32(start + 2 * tries)
        invariant forall j :: 0 <= j < tries ==> Attempt(start, j) in store
        decreases free - tries
      {
        Mask31OfWrap(start + 2 * tries);
        id := Mask31(counter);
        assert id == Attempt(start, tries);
        WrapI32Add(start + 2 * tries, 2);
        counter := WrapI32(counter + 2);
        if id !in store {
          return;
        }
        tries := tries + 1;
      }
    }
  }

  /** A client provider yields 1 then 3. */
  method ClientIds() returns (first: u32, second: u32)
    ensures first == 1 && second == 3
  {
    ghost var tries: nat;
    var provider := new StreamIdProvider.NewForClient();
    FreeAt(1, {}, 0);
    first, tries := provider.NextStreamId({});
    FreeAt(3, {}, 0);
    second, tries := provider.NextStreamId({});
  }

  /** A server provider yields 2 then 4. */
  method ServerIds() returns (first: u32, second: u32)
    ensures first == 2 && second == 4
  {
    ghost var tries: nat;
    var provider := new StreamIdProvider.NewForServer();
    FreeAt(2, {}, 0);
    first, tries := provider.NextStreamId({});
    FreeAt(4, {}, 0);
    second, tries := provider.NextStreamId({});
  }

  /** With 3 in use, a client gets 1, then 5: the attempt at 3 still advanced the counter. */
  method ClientIdsSkippingThree() returns (first: u32, second: u32)
    ensures first == 1 && second == 5
  {
    ghost var tries: nat;
    var provider := new StreamIdProvider.NewForClient();
    FreeAt(1, {3}, 0);
    first, tries := provider.NextStreamId({3});
    FreeAt(3, {3}, 1);
    second, tries := provider.NextStreamId({3});
  }

  /** From `i32::MAX`, or from -1, the ids are 0x7FFFFFFF and then 1: the counter wraps. */
  method WrappingIds(init: i32) returns (first: u32, second: u32)
    requires init == 0x7FFF_FFFF || init == -1
    ensures first == STREAM_ID_MASK && second == 1
  {
    ghost var tries: nat;
    var provider := new StreamIdProvider.New(init);
    FreeAt(init, {}, 0);
    first, tries := provider.NextStreamId({});
    assert tries == 0;
    ghost var wrapped := provider.counter;
    assert wrapped == if init == -1 then 1 else -0x7FFF_FFFF;
    FreeAt(wrapped, {}, 0);
    second, tries := provider.NextStreamId({});
    assert tries == 0;
  }
}
