/** The saturating credit counter behind every flow-control decision of the library.  The largest value of the
    counter stands for unlimited credit. */
module Allowances {
  import opened Frames

  type Size = n: nat | n < SIZE_T

  const INFINITE: Size := SIZE_T - 1

  /** `release`: unsigned addition wraps around, and a sum that came out smaller is replaced by the largest value. */
  function Released(value: Size, n: Size): Size {
    var sum := (value + n) % SIZE_T;
    if value > sum then INFINITE else sum
  }

  /** What a successful `tryAcquire(n)` leaves. */
  function Acquired(value: Size, n: Size): Size
    requires n <= value
  {
    if value == INFINITE then value else value - n
  }

  /** What `drainWithLimit(limit)` hands out. */
  function Drained(value: Size, limit: Size): Size {
    if value == INFINITE then value else if limit > value then value else limit
  }

  /** What `drainWithLimit(limit)` leaves behind. */
  function Undrained(value: Size, limit: Size): Size {
    if value == INFINITE then value else value - Drained(value, limit)
  }

  /** The wrap-around test is exactly saturation: credits add up until they reach the infinite value. */
  lemma ReleaseSaturates(value: Size, n: Size)
    ensures Released(value, n) == if value + n < INFINITE then value + n else INFINITE
  {
    if value + n >= SIZE_T {
      assert (value + n) % SIZE_T == value + n - SIZE_T;
    }
  }

  /** Releases commute and batch, saturated or not. */
  lemma ReleasesBatch(value: Size, m: Size, n: Size)
    ensures Released(Released(value, m), n) == Released(Released(value, n), m)
    ensures m + n < SIZE_T ==> Released(Released(value, m), n) == Released(value, m + n)
  {
    ReleaseSaturates(value, m);
    ReleaseSaturates(value, n);
    ReleaseSaturates(Released(value, m), n);
    ReleaseSaturates(Released(value, n), m);
    if m + n < SIZE_T {
      ReleaseSaturates(value, m + n);
    }
  }

  /** A drain moves credit, within the limit, exactly if the credit is finite: unlimited credit is handed out whole
      whatever the limit, and kept as well. */
  lemma DrainIsLimitedIffFinite(value: Size, limit: Size)
    ensures (Drained(value, limit) <= limit && Drained(value, limit) + Undrained(value, limit) == value)
      <==> value < INFINITE
  {
    if value == INFINITE {
      assert Drained(value, limit) + Undrained(value, limit) == 2 * INFINITE;
    }
  }

  class AllowanceSemaphore {
    var value: Size

    constructor (initial: Size)
      ensures value == initial
    {
      value := initial;
    }

    predicate CanAcquire(n: Size)
      reads this
    {
      value >= n
    }

    predicate IsInfinite()
      reads this
    {
      value == INFINITE
    }

    method TryAcquire(n: Size) returns (ok: bool)
      modifies this
      ensures ok <==> n <= old(value)
      ensures value == if ok then Acquired(old(value), n) else old(value)
    {
      if IsInfinite() {
        return true;
      }
      if !CanAcquire(n) {
        return false;
      }
      value := value - n;
      return true;
    }

    method Release(n: Size) returns (before: Size)
      modifies this
      ensures before == old(value) && value == Released(old(value), n)
    {
      before := value;
      value := (value + n) % SIZE_T;
      if before > value {
        value := INFINITE;
      }
    }

    method DrainWithLimit(limit: Size) returns (drained: Size)
      modifies this
      ensures drained == Drained(old(value), limit) && value == Undrained(old(value), limit)
    {
      if IsInfinite() {
        return value;
      }
      drained := limit;
      if drained > value {
        drained := value;
      }
      value := value - drained;
    }

    method Drain() returns (drained: Size)
      modifies this
      ensures drained == old(value)
      ensures value == if old(value) == INFINITE then INFINITE else 0
    {
      drained := DrainWithLimit(INFINITE);
    }
  }
}
