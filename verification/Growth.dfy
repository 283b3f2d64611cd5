/** The growth rule shared by the descriptor set, the message loader and the reply reader. */
module Growth {

  /** `capacity * 5 / 3 + 1` */
  function Grown(capacity: nat): (r: nat)
    ensures r > capacity
  {
    capacity * 5 / 3 + 1
  }

  /**
   * The cost of a buffer so far: its capacity, the bytes all its reallocations have copied, and
   * its size when it last grew.
   */
  datatype Cost = Cost(capacity: nat, copied: nat, grownAt: nat)

  const FRESH := Cost(0, 0, 0)

  /** A full buffer grows: its whole content may have to be copied. */
  function Grow(c: Cost): Cost {
    Cost(Grown(c.capacity), c.copied + c.capacity, c.capacity)
  }

  /** The cost of a buffer that has grown `n` times. */
  function AfterGrowths(n: nat): Cost {
    if n == 0 then FRESH else Grow(AfterGrowths(n - 1))
  }

  /** Copying stays within 3/2 of the capacity, and the capacity within 5/3 of the size at the last growth. */
  ghost predicate Amortised(c: Cost) {
    && 2 * c.copied <= 3 * c.capacity
    && 3 * c.capacity <= 5 * c.grownAt + 3
    && c.grownAt <= c.capacity
  }

  lemma GrowKeepsAmortised(c: Cost)
    requires Amortised(c)
    ensures Amortised(Grow(c))
  {
    var q := c.capacity * 5 / 3;
    assert 3 * q <= 5 * c.capacity <= 3 * q + 2;
  }

  /** However often a buffer has grown, growing has been cheap and has wasted little. */
  lemma {:induction false} GrowthIsAmortised(n: nat)
    ensures Amortised(AfterGrowths(n))
    ensures AfterGrowths(n).capacity >= n
  {
    if n > 0 {
      GrowthIsAmortised(n - 1);
      GrowKeepsAmortised(AfterGrowths(n - 1));
    }
  }

  /** `realloc` to the grown capacity: the first `size` elements are kept. */
  method Reallocate<T(0)>(buffer: array<T>, size: nat) returns (r: array<T>)
    requires size == buffer.Length
    ensures fresh(r) && r.Length == Grown(buffer.Length)
    ensures r[..size] == old(buffer[..])
  {
    r := new T[Grown(buffer.Length)];
    forall i | 0 <= i < size {
      r[i] := buffer[i];
    }
  }
}
