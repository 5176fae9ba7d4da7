/** Counting in blocks: products and quotients as recursions, so that proofs about pages and batches
    need no multiplication. */
module Counting {

  /** `count` blocks of `size`. */
  function Blocks(size: nat, count: nat): nat {
    if count == 0 then 0 else size + Blocks(size, count - 1)
  }

  lemma {:induction false} BlocksIsProduct(size: nat, count: nat)
    ensures Blocks(size, count) == size * count
  {
    if count > 0 {
      BlocksIsProduct(size, count - 1);
      assert size * count == size + size * (count - 1);
    }
  }

  /** `n` things fill `count` blocks of `size`, of which only the last may be short. */
  predicate Fills(size: nat, count: nat, n: nat) {
    count > 0 && Blocks(size, count - 1) < n <= Blocks(size, count)
  }

  lemma QuotientIsUnique(n: nat, size: nat, q: nat, r: nat)
    requires r < size && n == size * q + r
    ensures q == n / size
  {
    var p := n / size;
    assert n == size * p + n % size;
    OneMoreFits(size, p, q);
    OneMoreFits(size, q, p);
  }

  lemma {:induction false} OneMoreFits(size: nat, a: nat, b: nat)
    ensures a < b ==> size * a + size <= size * b
    decreases b
  {
    if a < b {
      OneMoreFits(size, a, b - 1);
      assert size * b == size * (b - 1) + size;
    }
  }

  /** The quotient rounded up. */
  function CeilDiv(n: nat, size: nat): int
    requires size > 0
  {
    (n + size - 1) / size
  }

  lemma FillsIsCeiling(size: nat, count: nat, n: nat)
    requires size > 0 && n > 0 && count > 0
    ensures Fills(size, count, n) <==> count == CeilDiv(n, size)
  {
    var all := Blocks(size, count);
    BlocksIsProduct(size, count);
    if Fills(size, count, n) {
      QuotientIsUnique(n + size - 1, size, count, n + size - 1 - all);
    } else {
      NotTheCeiling(size, count, n + size - 1);
    }
  }

  lemma NothingFillsNone(size: nat)
    requires size > 0
    ensures CeilDiv(0, size) == 0
  {
    QuotientIsUnique(size - 1, size, 0, size - 1);
  }

  lemma NotTheCeiling(size: nat, count: nat, m: nat)
    requires size > 0
    requires m < Blocks(size, count) || m >= Blocks(size, count) + size
    ensures count != m / size
  {
    BlocksIsProduct(size, count);
    assert m == size * (m / size) + m % size;
  }

  /** How many whole blocks of `size` there are in `n`. */
  function Whole(n: nat, size: nat): nat
    requires size > 0
  {
    if n < size then 0 else 1 + Whole(n - size, size)
  }

  lemma {:induction false} WholeIsQuotient(n: nat, size: nat)
    requires size > 0
    ensures Whole(n, size) == n / size
  {
    var r := Remainder(n, size);
    QuotientIsUnique(n, size, Whole(n, size), r);
  }

  lemma {:induction false} Remainder(n: nat, size: nat) returns (r: nat)
    requires size > 0
    ensures r < size && n == size * Whole(n, size) + r
  {
    if n < size {
      r := n;
    } else {
      r := Remainder(n - size, size);
      assert size * Whole(n, size) == size * Whole(n - size, size) + size;
    }
  }
}
