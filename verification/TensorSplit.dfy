/** Splitting a weight between two GPUs: contiguous halves, or this GPU's half of
    every period of a dimension. */
module TensorSplit {
  import opened Arith
  import opened RealSums

  // ---- one dimension -----------------------------------------------------------------------

  /** Where GPU g's half of a period begins. */
  function Offset(g: nat, period: nat): (o: nat)
    requires g < 2
    ensures o == g * (period / 2) && o + period / 2 <= period
  {
    if g == 0 then 0 else period / 2
  }

  /** GPU g's half of every whole period of z. */
  function Slice<T>(z: seq<T>, period: nat, g: nat): (s: seq<T>)
    requires g < 2 && period > 0
    decreases |z|
  {
    if |z| < period then []
    else z[Offset(g, period)..Offset(g, period) + period / 2] + Slice(z[period..], period, g)
  }

  lemma Peel(n: nat, period: nat)
    requires n > 0
    ensures n * period == (n - 1) * period + period && (n - 1) * period >= 0
  {
    MulAtLeast(n - 1, period);
  }

  lemma MulAtLeast(a: nat, b: nat)
    ensures a * b >= 0
  {
  }

  lemma {:induction false} SliceLength<T>(z: seq<T>, period: nat, g: nat, nblk: nat)
    requires g < 2 && period > 0 && |z| == nblk * period
    ensures |Slice(z, period, g)| == nblk * (period / 2)
  {
    if nblk > 0 {
      Peel(nblk, period);
      Peel(nblk, period / 2);
      SliceLength(z[period..], period, g, nblk - 1);
    }
  }

  /** A slice holds exactly the elements at the global indices, in order. */
  lemma {:induction false} SliceAt<T>(z: seq<T>, period: nat, g: nat, b: nat, i: nat)
    requires g < 2 && period >= 2 && i < period / 2 && b * period + period <= |z|
    ensures 0 <= b * (period / 2) + i < |Slice(z, period, g)| && 0 <= b * period + Offset(g, period) + i < |z|
    ensures Slice(z, period, g)[b * (period / 2) + i] == z[b * period + Offset(g, period) + i]
    decreases b
  {
    MulAtLeast(b, period);
    MulAtLeast(b, period / 2);
    if b > 0 {
      Peel(b, period);
      Peel(b, period / 2);
      SliceAt(z[period..], period, g, b - 1, i);
      hide Slice;
      NextPeriodAt(z, period, g, (b - 1) * (period / 2) + i, (b - 1) * period + Offset(g, period) + i);
    }
  }

  lemma NextPeriodAt<T>(z: seq<T>, period: nat, g: nat, x: nat, y: nat)
    requires g < 2 && period > 0 && |z| >= period && x < |Slice(z[period..], period, g)| && y + period < |z|
    requires Slice(z[period..], period, g)[x] == z[period..][y]
    ensures x + period / 2 < |Slice(z, period, g)| && Slice(z, period, g)[x + period / 2] == z[y + period]
  {
  }

  predicate OwnedBy(x: nat, period: nat, nblk: nat, g: nat, b: nat, i: nat) {
    g < 2 && b < nblk && i < period / 2 && x == b * period + Offset(g, period) + i
  }

  /** Local (g, block, place) and global index determine each other: every index
      below nblk periods has exactly one owner, if the period is even. */
  lemma OneOwner(x: nat, period: nat, nblk: nat) returns (g: nat, b: nat, i: nat)
    requires period >= 2 && period % 2 == 0 && x < nblk * period
    ensures OwnedBy(x, period, nblk, g, b, i)
    ensures forall g': nat, b': nat, i': nat :: OwnedBy(x, period, nblk, g', b', i') ==> g' == g && b' == b && i' == i
  {
    var h, r := period / 2, 0;
    b, r := DivMod(x, period);
    DivModBound(x, period, nblk);
    if r < h { g, i := 0, r; } else { g, i := 1, r - h; }
    forall g': nat, b': nat, i': nat | OwnedBy(x, period, nblk, g', b', i') ensures g' == g && b' == b && i' == i {
      DivModUnique(x, period, b', Offset(g', period) + i');
    }
  }

  ghost predicate Owned(x: nat, period: nat, nblk: nat) {
    exists g: nat, b: nat, i: nat :: OwnedBy(x, period, nblk, g, b, i)
  }

  /** The split loses nothing exactly if the period is even and divides the
      dimension (or there is nothing to split). */
  lemma LosslessExactly(n: nat, period: nat)
    requires period >= 2
    ensures n / period >= 0
    ensures (forall x: nat :: x < n ==> Owned(x, period, n / period)) <==>
            (n % period == 0 && (period % 2 == 0 || n == 0))
  {
    var nblk, r := DivMod(n, period);
    if r == 0 && (period % 2 == 0 || n == 0) {
      forall x: nat | x < n ensures Owned(x, period, nblk) {
        var g, b, i := OneOwner(x, period, nblk);
      }
    } else {
      var x := if r != 0 then nblk * period else period - 1;
      MulAtLeast(nblk, period);
      if r == 0 { NotEmpty(n, nblk, period); }
      forall g: nat, b: nat, i: nat ensures !OwnedBy(x, period, nblk, g, b, i) {
        if OwnedBy(x, period, nblk, g, b, i) { LastLost(period, nblk, g, b, i, r != 0); }
      }
      assert x < n && !Owned(x, period, nblk);
    }
  }

  lemma NotEmpty(n: nat, nblk: nat, period: nat)
    requires n == nblk * period && n > 0
    ensures n >= period
  {
    if nblk > 1 { MulGap(nblk, 0, period); MulGap(nblk, 1, period); }
  }

  lemma LastLost(period: nat, nblk: nat, g: nat, b: nat, i: nat, over: bool)
    requires period >= 2 && g < 2 && b < nblk && i < period / 2 && (over || period % 2 == 1)
    ensures b * period + Offset(g, period) + i != if over then nblk * period else period - 1
  {
    if over {
      MulBound(b, nblk, period, Offset(g, period) + i);
    } else if b > 0 {
      MulGap(b, 0, period);
    }
  }

  /** A slice of a concatenation of whole periods is the concatenation of the
      slices: the fused q | k | v rows split as their parts do. */
  lemma {:induction false} SliceConcat<T>(a: seq<T>, c: seq<T>, period: nat, g: nat, na: nat)
    requires g < 2 && period > 0 && |a| == na * period
    ensures Slice(a + c, period, g) == Slice(a, period, g) + Slice(c, period, g)
    decreases na
  {
    if na == 0 {
      assert a + c == c;
    } else {
      Peel(na, period);
      SliceConcat(a[period..], c, period, g, na - 1);
      hide *;
      ConcatStep(a, c, period, g);
    }
  }

  lemma ConcatStep<T>(a: seq<T>, c: seq<T>, period: nat, g: nat)
    requires g < 2 && 0 < period <= |a|
    requires Slice(a[period..] + c, period, g) == Slice(a[period..], period, g) + Slice(c, period, g)
    ensures Slice(a + c, period, g) == Slice(a, period, g) + Slice(c, period, g)
  {
    hide Slice; hide Offset;
    SliceCons(a, period, g);
    SliceCons(a + c, period, g);
    var o := Offset(g, period);
    FrontOf(a, c, period, o, o + period / 2);
    Reassociate(a[o..o + period / 2], Slice(a[period..], period, g), Slice(c, period, g));
  }

  lemma FrontOf<T>(a: seq<T>, c: seq<T>, period: nat, i: nat, j: nat)
    requires i <= j <= period <= |a|
    ensures (a + c)[period..] == a[period..] + c && (a + c)[i..j] == a[i..j]
  {
  }

  lemma Reassociate<T>(x: seq<T>, y: seq<T>, z: seq<T>)
    ensures x + (y + z) == (x + y) + z
  {
  }

  lemma SliceCons<T>(z: seq<T>, period: nat, g: nat)
    requires g < 2 && period > 0 && |z| >= period
    ensures 0 <= Offset(g, period) <= Offset(g, period) + period / 2 <= period
    ensures Slice(z, period, g) == z[Offset(g, period)..Offset(g, period) + period / 2] + Slice(z[period..], period, g)
  {
  }

  // ---- what the halves compute -------------------------------------------------------------

  /** The two halves of every period together sum to the whole. */
  lemma {:induction false} HalvesSum(z: seq<real>, period: nat, nblk: nat)
    requires period >= 2 && period % 2 == 0 && |z| == nblk * period
    ensures Sum(Slice(z, period, 0)) + Sum(Slice(z, period, 1)) == Sum(z)
    decreases nblk
  {
    if nblk > 0 {
      Peel(nblk, period);
      HalvesSum(z[period..], period, nblk - 1);
      FirstHalves(z, period);
      hide *;
      HalvesStep(z[0..period / 2], z[period / 2..period], z[period..], Slice(z[period..], period, 0),
          Slice(z[period..], period, 1));
      Pieces(z, period / 2, period);
    }
  }

  lemma FirstHalves(z: seq<real>, period: nat)
    requires period >= 2 && period % 2 == 0 && |z| >= period
    ensures Slice(z, period, 0) == z[0..period / 2] + Slice(z[period..], period, 0)
    ensures Slice(z, period, 1) == z[period / 2..period] + Slice(z[period..], period, 1)
  {
    OffsetIs(period);
    hide Slice; hide Offset;
    SliceFrom(z, period, 0, 0, period / 2);
    SliceFrom(z, period, 1, period / 2, period);
  }

  lemma OffsetIs(period: nat)
    ensures Offset(0, period) == 0 && Offset(1, period) == period / 2
  {
  }

  lemma SliceFrom(z: seq<real>, period: nat, g: nat, i: nat, j: nat)
    requires g < 2 && 0 < period <= |z| && i == Offset(g, period) && j == i + period / 2 <= period
    ensures Slice(z, period, g) == z[i..j] + Slice(z[period..], period, g)
  {
    hide Slice; hide Offset;
    SliceCons(z, period, g);
  }

  lemma Pieces(z: seq<real>, i: nat, j: nat)
    requires i <= j <= |z|
    ensures z[0..i] + z[i..j] + z[j..] == z
  {
  }

  lemma HalvesStep(a: seq<real>, b: seq<real>, rest: seq<real>, left: seq<real>, right: seq<real>)
    requires Sum(left) + Sum(right) == Sum(rest)
    ensures Sum(a + left) + Sum(b + right) == Sum(a + b + rest)
  {
    hide Sum;
    SumConcat(a, left);
    SumConcat(b, right);
    SumConcat(a, b);
    SumConcat(a + b, rest);
  }

  lemma {:induction false} SliceProducts(w: seq<real>, x: seq<real>, period: nat, g: nat)
    requires g < 2 && period > 0 && |w| == |x|
    ensures |Slice(w, period, g)| == |Slice(x, period, g)|
    ensures Slice(Products(w, x), period, g) == Products(Slice(w, period, g), Slice(x, period, g))
    decreases |w|
  {
    if |w| >= period {
      SliceProducts(w[period..], x[period..], period, g);
      SliceCons(w, period, g);
      SliceCons(x, period, g);
      SliceCons(Products(w, x), period, g);
      hide Slice; hide Products; hide Offset;
      ProductsSlices(w, x, period);
      var o, h := Offset(g, period), period / 2;
      ProductsSum(w[o..o + h], x[o..o + h], Slice(w[period..], period, g), Slice(x[period..], period, g));
      PartProducts(w, x, o, o + h);
    }
  }

  lemma ProductsSlices(w: seq<real>, x: seq<real>, from: nat)
    requires |w| == |x| && from <= |w|
    ensures Products(w, x)[from..] == Products(w[from..], x[from..])
  {
    PartProducts(w, x, from, |w|);
    assert w[from..|w|] == w[from..] && x[from..|w|] == x[from..]
           && Products(w, x)[from..|w|] == Products(w, x)[from..];
  }

  lemma PartProducts(w: seq<real>, x: seq<real>, from: nat, to: nat)
    requires |w| == |x| && from <= to <= |w|
    ensures Products(w, x)[from..to] == Products(w[from..to], x[from..to])
  {
    forall i | 0 <= i < to - from ensures Products(w, x)[from..to][i] == Products(w[from..to], x[from..to])[i] {
      assert w[from..to][i] == w[from + i] && x[from..to][i] == x[from + i];
    }
  }

  lemma ProductsSum(a: seq<real>, b: seq<real>, c: seq<real>, d: seq<real>)
    requires |a| == |b| && |c| == |d|
    ensures Products(a + c, b + d) == Products(a, b) + Products(c, d)
  {
    forall i | 0 <= i < |a| + |c| ensures Products(a + c, b + d)[i] == (Products(a, b) + Products(c, d))[i] {
      assert (a + c)[i] == if i < |a| then a[i] else c[i - |a|];
      assert (b + d)[i] == if i < |b| then b[i] else d[i - |b|];
    }
  }

  /** A column-split row: the two GPUs' partial dot products, each over its own half
      of the input, add up to the whole product. */
  lemma ColumnSplitAddsUp(w: seq<real>, x: seq<real>, period: nat, nblk: nat)
    requires period >= 2 && period % 2 == 0 && |w| == |x| == nblk * period
    ensures |Slice(w, period, 0)| == |Slice(x, period, 0)| && |Slice(w, period, 1)| == |Slice(x, period, 1)|
    ensures Dot(Slice(w, period, 0), Slice(x, period, 0)) + Dot(Slice(w, period, 1), Slice(x, period, 1)) == Dot(w, x)
  {
    SliceProducts(w, x, period, 0);
    SliceProducts(w, x, period, 1);
    HalvesSum(Products(w, x), period, nblk);
  }

  /** A matrix applied to a vector, row by row. */
  function MatVec(W: seq<seq<real>>, x: seq<real>): (y: seq<real>)
    requires forall r :: 0 <= r < |W| ==> |W[r]| == |x|
    ensures |y| == |W|
  {
    seq(|W|, r requires 0 <= r < |W| => Dot(W[r], x))
  }

  lemma {:induction false} SliceRows(W: seq<seq<real>>, n: nat, period: nat, g: nat)
    requires g < 2 && period > 0 && forall r :: 0 <= r < |W| ==> |W[r]| == n
    ensures forall r :: 0 <= r < |Slice(W, period, g)| ==> |Slice(W, period, g)[r]| == n
    decreases |W|
  {
    if |W| >= period { SliceRows(W[period..], n, period, g); }
  }

  /** A row-split matrix: each GPU computes exactly its slice of the output, so the
      two outputs reassemble to the full product. */
  lemma {:induction false} RowSplitReassembles(W: seq<seq<real>>, x: seq<real>, period: nat, g: nat)
    requires g < 2 && period > 0 && forall r :: 0 <= r < |W| ==> |W[r]| == |x|
    ensures forall r :: 0 <= r < |Slice(W, period, g)| ==> |Slice(W, period, g)[r]| == |x|
    ensures MatVec(Slice(W, period, g), x) == Slice(MatVec(W, x), period, g)
    decreases |W|
  {
    hide Dot;
    SliceRows(W, |x|, period, g);
    if |W| >= period {
      RowSplitReassembles(W[period..], x, period, g);
      SliceRows(W[period..], |x|, period, g);
      SliceCons(W, period, g);
      SliceCons(MatVec(W, x), period, g);
      hide Slice; hide Offset; hide MatVec;
      var o := Offset(g, period);
      MatVecPart(W, x, period, |W|);
      MatVecPart(W, x, o, o + period / 2);
      assert W[period..|W|] == W[period..] && MatVec(W, x)[period..|W|] == MatVec(W, x)[period..];
      MatVecConcat(W[o..o + period / 2], Slice(W[period..], period, g), x);
    }
  }

  lemma MatVecPart(W: seq<seq<real>>, x: seq<real>, from: nat, to: nat)
    requires from <= to <= |W| && forall r :: 0 <= r < |W| ==> |W[r]| == |x|
    ensures MatVec(W, x)[from..to] == MatVec(W[from..to], x)
  {
    hide Dot;
  }

  lemma MatVecConcat(A: seq<seq<real>>, B: seq<seq<real>>, x: seq<real>)
    requires (forall r :: 0 <= r < |A| ==> |A[r]| == |x|) && (forall r :: 0 <= r < |B| ==> |B[r]| == |x|)
    ensures MatVec(A + B, x) == MatVec(A, x) + MatVec(B, x)
  {
    hide Dot;
  }
}
