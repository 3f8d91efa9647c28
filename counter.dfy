/**
 * `connection/counter.rs`: a count of request permits held in one `i32`.
 * `dec` and `add` are the atomic `fetch_sub`/`fetch_add`, which wrap around
 * on overflow.
 */
module RequestCounters {
  import opened Bytes

  /** `COUNTER_MASK`. */
  const COUNTER_MASK: int := 0x7FFF_FFFF

  class RequestCounter {
    var count: i32

    /** `new`: the initial count with its top bit cleared, so never negative. */
    constructor (n: u32)
      ensures count == Mask31(n) && 0 <= count <= COUNTER_MASK
      ensures n <= COUNTER_MASK ==> count == n
    {
      count := Mask31(n);
    }

    /** `load`: the current count, whatever `dec` and `add` left it at. */
    function Load(): (c: i32)
      reads this
      ensures c == count
    {
      count
    }

    /** `is_zero`: the count is 0. */
    predicate IsZero()
      reads this
      ensures IsZero() <==> count == 0
    {
      Load() == 0
    }

    /** `dec`: lowers the count by one, wrapping below `i32::MIN`, and returns the count it found. */
    method Dec() returns (previous: i32)
      modifies this
      ensures previous == old(count)
      ensures count == WrapI32(old(count) - 1)
      ensures old(count) > -0x8000_0000 ==> count == old(count) - 1
    {
      previous := count;
      count := WrapI32(count - 1);
    }

    /** `add`: `n as i32` reinterprets `n` in two's complement; the addition wraps. */
    method Add(n: u32)
      modifies this
      ensures count == WrapI32(old(count) + n)
      ensures n <= COUNTER_MASK && old(count) + n <= COUNTER_MASK ==> count == old(count) + n
    {
      WrapI32Add(n, count);
      count := WrapI32(count + WrapI32(n));
    }
  }

  /** `new(42)` loads 42; `dec` then returns 42 and leaves 41; `add(8)` on 42 leaves 50. */
  method Scenarios() returns (loaded: i32, returned: i32, afterDec: i32, afterAdd: i32)
    ensures loaded == 42 && returned == 42 && afterDec == 41 && afterAdd == 50
  {
    var c := new RequestCounter(42);
    loaded := c.Load();
    returned := c.Dec();
    afterDec := c.Load();
    var d := new RequestCounter(42);
    d.Add(8);
    afterAdd := d.Load();
  }

  /** `new(1)` followed by `dec` is zero. */
  method DecToZero() returns (zero: bool)
    ensures zero
  {
    var c := new RequestCounter(1);
    var _ := c.Dec();
    zero := c.IsZero();
  }
}
