/**
 * Integer facts about the batching arithmetic: the modulus test that triggers a
 * flush, and the ceiling that counts bulk requests. Z3 does not reason about
 * products and quotients with a symbolic divisor on its own, so each step is
 * spelled out here once.
 */
module Arithmetic {

  /** m batches of k items each cover Offset(m, k) == m * k items (see OffsetIsProduct). */
  function Offset(m: nat, k: nat): nat {
    if m == 0 then 0 else Offset(m - 1, k) + k
  }

  /**
   * Number of batches of at most `k` items, all but the last full, that
   * `n` items make: ceil(n / k) (see CeilDivIsQuotient).
   */
  function CeilDiv(n: nat, k: nat): nat
    requires k > 0
    decreases n
  {
    if n == 0 then 0 else if n <= k then 1 else 1 + CeilDiv(n - k, k)
  }

  lemma MulMono(a: int, b: int, k: int)
    requires a <= b && k >= 0
    ensures a * k <= b * k
  {
    var d := b - a;
    assert b * k == a * k + d * k;
    assert d * k >= 0;
  }

  lemma {:induction false} OffsetIsProduct(m: nat, k: nat)
    ensures Offset(m, k) == m * k
  {
    if m > 0 {
      OffsetIsProduct(m - 1, k);
      MulSucc(m - 1, k);
    }
  }

  /** One more batch of k items adds k. */
  lemma MulSucc(m: int, k: int)
    ensures (m + 1) * k == m * k + k
  {
  }

  /** The quotient is the unique q with q * k <= x < q * k + k. */
  lemma DivUnique(x: int, k: int, q: int)
    requires k > 0 && q * k <= x < q * k + k
    ensures x / k == q
  {
    var p, r := x / k, x % k;
    assert x == k * p + r && 0 <= r < k;
    if p < q { MulMono(p + 1, q, k); assert false; }
    if p > q { MulMono(q + 1, p, k); assert false; }
  }

  /** The quotient q of x by k satisfies q * k <= x < q * k + k. */
  lemma DivBounds(x: int, k: int)
    requires k > 0
    ensures (x / k) * k <= x < (x / k) * k + k
  {
    assert x == k * (x / k) + x % k;
  }

  lemma {:induction false} CeilDivIsQuotient(n: nat, k: nat)
    requires k > 0
    ensures CeilDiv(n, k) == (n + k - 1) / k
    decreases n
  {
    if n == 0 {
      DivUnique(k - 1, k, 0);
    } else if n <= k {
      DivUnique(n + k - 1, k, 1);
    } else {
      CeilDivIsQuotient(n - k, k);
      var q := (n - 1) / k;
      DivBounds(n - 1, k);
      MulSucc(q, k);
      DivUnique(n + k - 1, k, q + 1);
    }
  }

  /** m full batches of k items make exactly m batches. */
  lemma {:induction false} CeilOfOffset(m: nat, k: nat)
    requires k > 0
    ensures CeilDiv(Offset(m, k), k) == m
  {
    if m > 1 {
      CeilOfOffset(m - 1, k);
      assert Offset(m - 1, k) > 0 by { OffsetPositive(m - 1, k); }
    }
  }

  lemma {:induction false} OffsetPositive(m: nat, k: nat)
    requires m > 0 && k > 0
    ensures Offset(m, k) >= k
  {
    if m > 1 {
      OffsetPositive(m - 1, k);
    }
  }

  /** While m full batches cover fewer than n items, a batch m + 1 is still due. */
  lemma {:induction false} CeilAbove(m: nat, n: nat, k: nat)
    requires k > 0 && Offset(m, k) < n
    ensures m + 1 <= CeilDiv(n, k)
    decreases m
  {
    if m > 0 {
      OffsetPositive(m, k);
      CeilAbove(m - 1, n - k, k);
    }
  }

  /** Batch m of n items exists exactly when the m batches before it leave an item over. */
  lemma CeilStarts(m: nat, n: nat, k: nat)
    requires k > 0
    ensures m < CeilDiv(n, k) <==> Offset(m, k) < n
  {
    if Offset(m, k) < n {
      CeilAbove(m, n, k);
    } else {
      CeilBelow(m, n, k);
    }
  }

  /** More batches cover more items. */
  lemma {:induction false} OffsetMono(a: nat, b: nat, k: nat)
    requires a <= b
    ensures Offset(a, k) <= Offset(b, k)
    decreases b - a
  {
    if a < b {
      OffsetMono(a, b - 1, k);
    }
  }

  /** Once m full batches cover all n items, there are at most m batches. */
  lemma {:induction false} CeilBelow(m: nat, n: nat, k: nat)
    requires k > 0 && n <= Offset(m, k)
    ensures CeilDiv(n, k) <= m
    decreases m
  {
    if n > k {
      CeilBelow(m - 1, n - k, k);
    } else if n > 0 {
      assert m > 0;
    }
  }

  /**
   * i is a multiple of k (the loader's flush test `i % k == 0`), stated by
   * repeated subtraction so that it stays linear; MultipleIsMod proves the two
   * agree.
   */
  predicate IsMultiple(i: nat, k: nat)
    requires k > 0
    decreases i
  {
    if i < k then i == 0 else IsMultiple(i - k, k)
  }

  lemma {:induction false} MultipleIsMod(i: nat, k: nat)
    requires k > 0
    ensures IsMultiple(i, k) <==> i % k == 0
    decreases i
  {
    if i < k {
      DivUnique(i, k, 0);
    } else {
      MultipleIsMod(i - k, k);
      var q, r := (i - k) / k, (i - k) % k;
      assert i - k == k * q + r && 0 <= r < k;
      MulSucc(q, k);
      DivUnique(i, k, q + 1);
    }
  }

  /** Offsets are multiples of k: the flush test holds at each of them. */
  lemma {:induction false} OffsetIsMultiple(m: nat, k: nat)
    requires k > 0
    ensures IsMultiple(Offset(m, k), k)
  {
    if m > 0 {
      OffsetIsMultiple(m - 1, k);
      OffsetPositive(m, k);
    }
  }

  /** The first multiple of k after Offset(m, k) is Offset(m + 1, k). */
  lemma {:induction false} NextOffset(m: nat, i: nat, k: nat)
    requires k > 0 && IsMultiple(i, k) && Offset(m, k) < i <= Offset(m, k) + k
    ensures i == Offset(m + 1, k)
    decreases m
  {
    if m > 0 {
      OffsetPositive(m, k);
      NextOffset(m - 1, i - k, k);
    }
  }

  /**
   * Past Offset(m, k), the next multiple of k is reached exactly at
   * Offset(m + 1, k): the point where a full batch of k items is due.
   */
  lemma FlushPoint(m: nat, i: nat, k: nat)
    requires k > 0 && Offset(m, k) < i <= Offset(m, k) + k
    ensures IsMultiple(i, k) <==> i == Offset(m + 1, k)
  {
    OffsetIsMultiple(m + 1, k);
    if IsMultiple(i, k) {
      NextOffset(m, i, k);
    }
  }
}
