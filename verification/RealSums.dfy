/** Sums and dot products over the reals, and their division among the lanes of a
    warp. */
module RealSums {
  import opened Arith
  import Warp

  const LANES: nat := 32

  function Sum(s: seq<real>): real {
    if s == [] then 0.0 else Sum(s[..|s| - 1]) + s[|s| - 1]
  }

  function Products(x: seq<real>, y: seq<real>): (z: seq<real>)
    requires |x| == |y|
    ensures |z| == |x|
  {
    seq(|x|, i requires 0 <= i < |x| => x[i] * y[i])
  }

  function Dot(x: seq<real>, y: seq<real>): real
    requires |x| == |y|
  {
    Sum(Products(x, y))
  }

  lemma {:induction false} SumConcat(a: seq<real>, b: seq<real>)
    ensures Sum(a + b) == Sum(a) + Sum(b)
  {
    if b == [] {
      assert a + b == a;
    } else {
      assert (a + b)[..|a + b| - 1] == a + b[..|b| - 1];
      SumConcat(a, b[..|b| - 1]);
    }
  }

  function Plus(a: seq<real>, b: seq<real>): (z: seq<real>)
    requires |a| == |b|
    ensures |z| == |a|
  {
    seq(|a|, i requires 0 <= i < |a| => a[i] + b[i])
  }

  lemma {:induction false} SumPlus(a: seq<real>, b: seq<real>)
    requires |a| == |b|
    ensures Sum(Plus(a, b)) == Sum(a) + Sum(b)
  {
    if a != [] {
      var m := |a| - 1;
      SumPlus(a[..m], b[..m]);
      assert Plus(a, b)[..m] == Plus(a[..m], b[..m]);
    }
  }

  function Scaled(c: real, s: seq<real>): (z: seq<real>)
    ensures |z| == |s|
  {
    seq(|s|, i requires 0 <= i < |s| => c * s[i])
  }

  lemma {:induction false} SumScaled(c: real, s: seq<real>)
    ensures Sum(Scaled(c, s)) == c * Sum(s)
  {
    if s != [] {
      var m := |s| - 1;
      SumScaled(c, s[..m]);
      forall i | 0 <= i < m ensures Scaled(c, s)[..m][i] == Scaled(c, s[..m])[i] {
        assert s[..m][i] == s[i];
      }
      assert Scaled(c, s)[..m] == Scaled(c, s[..m]);
      Distribute(c, Sum(s[..m]), s[m]);
    }
  }

  lemma Distribute(c: real, x: real, y: real)
    ensures c * (x + y) == c * x + c * y
  {
  }

  lemma Regroup(c: real, x: real, y: real)
    ensures (c * x) * y == c * (x * y)
  {
  }

  lemma DotScaled(c: real, x: seq<real>, y: seq<real>)
    requires |x| == |y|
    ensures Dot(Scaled(c, x), y) == c * Dot(x, y)
  {
    SumScaled(c, Products(x, y));
    forall i | 0 <= i < |x| ensures Products(Scaled(c, x), y)[i] == Scaled(c, Products(x, y))[i] {
      Regroup(c, x[i], y[i]);
    }
    assert Products(Scaled(c, x), y) == Scaled(c, Products(x, y));
  }

  // ---- lane-strided partial sums --------------------------------------------------------

  /** What lane `lane` accumulates over its first `rows` rows: elements lane,
      lane + 32, lane + 64, ... */
  function LaneSum(z: seq<real>, lane: nat, rows: nat): real
    requires lane < LANES && rows * LANES <= |z|
  {
    if rows == 0 then 0.0 else LaneSum(z, lane, rows - 1) + z[(rows - 1) * LANES + lane]
  }

  function LaneSums(z: seq<real>, rows: nat): (s: seq<real>)
    requires rows * LANES <= |z|
    ensures |s| == LANES
  {
    seq(LANES, lane requires 0 <= lane < LANES => LaneSum(z, lane, rows))
  }

  /** The lanes' partial sums add up to the whole sum. */
  lemma {:induction false} LanesAddUp(z: seq<real>, rows: nat)
    requires rows * LANES <= |z|
    ensures Sum(LaneSums(z, rows)) == Sum(z[..rows * LANES])
  {
    if rows == 0 {
      SumZeros(LANES);
      assert LaneSums(z, 0) == seq(LANES, _ => 0.0);
    } else {
      var done := (rows - 1) * LANES;
      var row := z[done..done + LANES];
      LanesAddUp(z, rows - 1);
      SumPlus(LaneSums(z, rows - 1), row);
      assert LaneSums(z, rows) == Plus(LaneSums(z, rows - 1), row);
      SumConcat(z[..done], row);
      assert z[..rows * LANES] == z[..done] + row;
    }
  }

  lemma {:induction false} SumZeros(n: nat)
    ensures Sum(seq(n, _ => 0.0)) == 0.0
  {
    if n > 0 {
      assert seq(n, _ => 0.0)[..n - 1] == seq(n - 1, _ => 0.0);
      SumZeros(n - 1);
    }
  }

  /** Zeros at the end add nothing. */
  lemma {:induction false} PaddingKeepsSum(w: seq<real>, n: nat)
    requires |w| <= n
    ensures Sum(seq(n, i requires 0 <= i < n => if i < |w| then w[i] else 0.0)) == Sum(w)
    decreases n
  {
    var p := seq(n, i requires 0 <= i < n => if i < |w| then w[i] else 0.0);
    if n > |w| {
      assert p[..n - 1] == seq(n - 1, i requires 0 <= i < n - 1 => if i < |w| then w[i] else 0.0);
      PaddingKeepsSum(w, n - 1);
    } else {
      assert p == w;
    }
  }

  /** Neighbours added in pairs. */
  function Pairs(z: seq<real>, n: nat): (s: seq<real>)
    requires 2 * n <= |z|
    ensures |s| == n
  {
    seq(n, p requires 0 <= p < n => z[2 * p] + z[2 * p + 1])
  }

  lemma {:induction false} PairsAddUp(z: seq<real>, n: nat)
    requires 2 * n <= |z|
    ensures Sum(Pairs(z, n)) == Sum(z[..2 * n])
  {
    if n > 0 {
      PairsAddUp(z, n - 1);
      assert Pairs(z, n)[..n - 1] == Pairs(z, n - 1);
      assert z[..2 * n][..2 * n - 1] == z[..2 * n - 1] && z[..2 * n - 1][..2 * n - 2] == z[..2 * n - 2];
    }
  }

  // ---- block by block -----------------------------------------------------------------------

  /** z holds the sums of consecutive blocks of b elements. */
  predicate BlockSums(s: seq<real>, b: nat, z: seq<real>) {
    |s| == |z| * b && forall k: nat :: k < |z| ==> 0 <= k * b <= k * b + b <= |s| && z[k] == Sum(s[k * b..k * b + b])
  }

  lemma {:induction false} SumOfBlocks(s: seq<real>, b: nat, z: seq<real>)
    requires BlockSums(s, b, z)
    ensures Sum(s) == Sum(z)
  {
    if z != [] {
      var m := |z| - 1;
      assert 0 <= m * b <= m * b + b <= |s| && z[m] == Sum(s[m * b..m * b + b]);
      assert |s| == m * b + b;
      var front, last := s[..m * b], s[m * b..];
      assert s == front + last && s[m * b..m * b + b] == last;
      BlocksBefore(s, b, z, m);
      SumOfBlocks(front, b, z[..m]);
      SumConcat(front, last);
    }
  }

  lemma BlocksBefore(s: seq<real>, b: nat, z: seq<real>, m: nat)
    requires BlockSums(s, b, z) && m < |z| && 0 <= m * b <= |s|
    ensures BlockSums(s[..m * b], b, z[..m])
  {
    forall k: nat | k < m ensures 0 <= k * b <= k * b + b <= m * b && z[k] == Sum(s[..m * b][k * b..k * b + b]) {
      MulGap(m, k, b);
      assert s[..m * b][k * b..k * b + b] == s[k * b..k * b + b];
    }
  }

  // ---- the warp reduction of real lane values ------------------------------------------------

  function Add(): (real, real) -> real {
    (x: real, y: real) => x + y
  }

  lemma {:induction false} TotalIsSum(s: seq<real>)
    requires |s| >= 1
    ensures Warp.Total(Add(), s) == Sum(s)
  {
    if |s| == 1 {
      assert s[..0] == [];
    } else {
      TotalIsSum(s[..|s| - 1]);
    }
  }

  /** The butterfly over 32 lanes leaves every lane with the sum of all of them. */
  method ReduceWarp(lanes: seq<real>) returns (v: seq<real>)
    requires |lanes| == LANES
    ensures |v| == LANES && forall i :: 0 <= i < LANES ==> v[i] == Sum(lanes)
  {
    assert Pow2(5) == 32;
    v := Warp.WarpSum(Add(), lanes, 5);
    assert Warp.Associative(Add()) && Warp.Commutative(Add());
    Warp.WarpSumIsTotal(Add(), lanes, 5);
    TotalIsSum(lanes);
  }
}
