/** Products, quotients and remainders of unbounded naturals. */
module Arith {

  lemma {:induction false} MulGap(x: int, y: int, n: nat)
    requires x > y
    ensures x * n >= y * n + n
    decreases x - y
  {
    assert x * n == (x - 1) * n + n;
    if x - 1 > y { MulGap(x - 1, y, n); }
  }

  lemma MulLower(n: nat, x: nat)
    requires n >= 1
    ensures n * x >= x
  {
    if n > 1 { MulGap(n, 1, x); }
  }

  /** The quotient and the remainder are the only such pair. */
  lemma DivModUnique(i: nat, n: nat, q: nat, r: nat)
    requires i == q * n + r && r < n
    ensures i / n == q && i % n == r
  {
    var q', r' := i / n, i % n;
    assert i == q' * n + r';
    if q' > q { MulGap(q', q, n); }
    if q > q' { MulGap(q, q', n); }
  }

  /** Quotient and remainder of naturals. */
  lemma {:induction false} DivMod(i: nat, n: nat) returns (q: nat, r: nat)
    requires n > 0
    ensures i == q * n + r && r < n && i / n == q && i % n == r
  {
    if i < n {
      q, r := 0, i;
    } else {
      var p;
      p, r := DivMod(i - n, n);
      q := p + 1;
      assert q * n == p * n + n;
    }
    DivModUnique(i, n, q, r);
  }

  lemma DivModBound(i: nat, n: nat, m: nat)
    requires n > 0 && i < m * n
    ensures i / n < m && i % n < n && i == (i / n) * n + i % n
  {
    if i / n >= m {
      if i / n > m { MulGap(i / n, m, n); }
    }
  }

  lemma MulBound(q: nat, m: nat, n: nat, r: nat)
    requires q < m && r < n
    ensures q * n + r < m * n
  {
    MulGap(m, q, n);
  }

  /** Powers of two. */
  function Pow2(k: nat): (p: nat)
    ensures p >= 1
  {
    if k == 0 then 1 else 2 * Pow2(k - 1)
  }

  /** In a loop that advances by n, nothing of the same remainder lies between one
      index and the next. */
  lemma NextInStride(t: nat, i: nat, n: nat)
    requires n > 0 && t % n == i % n
    ensures i <= t < i + n ==> t == i
    ensures (i + n) % n == i % n
  {
    AddDivisor(i, n);
    if i <= t < i + n {
      SameBlock(t / n, i / n, n);
    }
  }

  lemma AddDivisor(i: nat, n: nat)
    requires n > 0
    ensures (i + n) % n == i % n
  {
    var q, r := i / n, i % n;
    assert q * n + n == (q + 1) * n;
    DivModUnique(i + n, n, q + 1, r);
  }

  lemma SameBlock(p: nat, q: nat, n: nat)
    requires q * n <= p * n < q * n + n
    ensures p == q
  {
    if p > q { MulGap(p, q, n); }
    if q > p { MulGap(q, p, n); }
  }

  /** A number of remainder k at or above i. */
  lemma StrideFrom(i: nat, n: nat, k: nat) returns (t: nat)
    requires k < n
    ensures t >= i && t % n == k
    decreases i
  {
    if i == 0 {
      t := k;
      DivModUnique(k, n, 0, k);
    } else {
      t := StrideFrom(i - 1, n, k);
      if t < i {
        AddDivisor(t, n);
        t := t + n;
      }
    }
  }
}
