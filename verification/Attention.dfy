/** The online softmax of one query head: positions folded tile by tile with a running
    maximum, a sum of exponentials and a weighted sum relative to it. */
module Attention {
  import opened Arith
  import opened RealSums
  import opened Softmax
  import Warp

  const TILE: nat := 32
  const FTZ: real := -20.0

  // ---- running maxima -----------------------------------------------------------------

  function Max(a: real, b: real): real {
    if a >= b then a else b
  }

  function MaxWith(m: real, x: Ext): real {
    if x.NegInf? then m else Max(m, x.r)
  }

  /** The maximum of m and the scores. */
  function MaxFrom(m: real, x: seq<Ext>): real {
    if x == [] then m else MaxWith(MaxFrom(m, x[..|x| - 1]), x[|x| - 1])
  }

  lemma {:induction false} MaxFromBounds(m: real, x: seq<Ext>)
    ensures MaxFrom(m, x) >= m
    ensures forall j :: 0 <= j < |x| && x[j].Fin? ==> x[j].r <= MaxFrom(m, x)
    ensures MaxFrom(m, x) == m || exists j :: 0 <= j < |x| && x[j] == Fin(MaxFrom(m, x))
  {
    if x != [] {
      var k := |x| - 1;
      MaxFromBounds(m, x[..k]);
      assert forall j :: 0 <= j < k ==> x[..k][j] == x[j];
      if MaxFrom(m, x) != m && MaxFrom(m, x) == MaxFrom(m, x[..k]) {
        var j :| 0 <= j < k && x[..k][j] == Fin(MaxFrom(m, x[..k]));
        assert x[j] == Fin(MaxFrom(m, x));
      }
    }
  }

  lemma {:induction false} MaxFromConcat(m: real, x: seq<Ext>, y: seq<Ext>)
    ensures MaxFrom(m, x + y) == MaxFrom(MaxFrom(m, x), y)
  {
    if y == [] {
      assert x + y == x;
    } else {
      assert (x + y)[..|x + y| - 1] == x + y[..|y| - 1];
      MaxFromConcat(m, x, y[..|y| - 1]);
    }
  }

  function MaxOp(): (Ext, Ext) -> Ext {
    (a: Ext, b: Ext) => if a.NegInf? then b else if b.NegInf? then a else Fin(Max(a.r, b.r))
  }

  /** The butterfly over the lanes' scores gives every lane their maximum. */
  method WarpMax(lanes: seq<Ext>) returns (top: Ext)
    requires |lanes| == LANES
    ensures forall m :: MaxWith(m, top) == MaxFrom(m, lanes)
  {
    assert Pow2(5) == 32;
    var v := Warp.WarpSum(MaxOp(), lanes, 5);
    assert Warp.Associative(MaxOp()) && Warp.Commutative(MaxOp());
    Warp.WarpSumIsTotal(MaxOp(), lanes, 5);
    top := v[0];
    forall m ensures MaxWith(m, top) == MaxFrom(m, lanes) { TotalIsMax(m, lanes); }
  }

  lemma {:induction false} TotalIsMax(m: real, x: seq<Ext>)
    requires |x| >= 1
    ensures MaxWith(m, Warp.Total(MaxOp(), x)) == MaxFrom(m, x)
  {
    if |x| == 1 {
      assert x[..0] == [];
    } else {
      TotalIsMax(m, x[..|x| - 1]);
    }
  }

  // ---- one chunk --------------------------------------------------------------------------

  /** What a chunk's record means: the maximum of the start value and the scores, and
      both sums relative to it. */
  ghost predicate Partial(e: real -> real, m0: real, x: seq<Ext>, v: seq<real>, m: real, s: real, acc: real)
    requires |v| == |x|
  {
    var w := Weights(e, x, All(|x|, true), m);
    m == MaxFrom(m0, x) && s == Sum(w) && acc == Dot(w, v)
  }

  /** The scores of the lanes of one tile: positions past the chunk stay masked. */
  function LaneScores(x: seq<Ext>): (l: seq<Ext>)
    requires |x| <= TILE
    ensures |l| == LANES
  {
    seq(LANES, i requires 0 <= i < LANES => if i < |x| then x[i] else NegInf)
  }

  lemma {:induction false} PaddingKeepsMax(m: real, x: seq<Ext>, n: nat)
    requires |x| <= n
    ensures MaxFrom(m, seq(n, i requires 0 <= i < n => if i < |x| then x[i] else NegInf)) == MaxFrom(m, x)
    decreases n
  {
    var p := seq(n, i requires 0 <= i < n => if i < |x| then x[i] else NegInf);
    if n > |x| {
      assert p[..n - 1] == seq(n - 1, i requires 0 <= i < n - 1 => if i < |x| then x[i] else NegInf);
      PaddingKeepsMax(m, x, n - 1);
    } else {
      assert p == x;
    }
  }

  /** The chunk grown by one tile, everything moved to the new maximum. */
  lemma TileStep(e: real -> real, m0: real, x: seq<Ext>, v: seq<real>, m: real, s: real, acc: real,
                 y: seq<Ext>, u: seq<real>, m': real, f: real, s': real, acc': real)
    requires ExpLike(e) && |v| == |x| && |u| == |y| && Partial(e, m0, x, v, m, s, acc) && m' == MaxFrom(m, y)
    requires f == e(m - m')
    requires var w := Weights(e, y, All(|y|, true), m'); s' == s * f + Sum(w) && acc' == acc * f + Dot(w, u)
    ensures Partial(e, m0, x + y, v + u, m', s', acc')
  {
    hide ExpLike; hide Weights; hide MaxFrom; hide Dot; hide Sum; hide Scaled;
    MaxFromConcat(m0, x, y);
    Grown(e, x, y, m, m');
    var wx, wy := Weights(e, x, All(|x|, true), m), Weights(e, y, All(|y|, true), m');
    SumOfGrown(f, wx, wy, v, u);
  }

  lemma Grown(e: real -> real, x: seq<Ext>, y: seq<Ext>, m: real, m': real)
    requires ExpLike(e)
    ensures Weights(e, x + y, All(|x + y|, true), m')
         == Scaled(e(m - m'), Weights(e, x, All(|x|, true), m)) + Weights(e, y, All(|y|, true), m')
  {
    hide ExpLike; hide Weights;
    Rescale(e, x, All(|x|, true), m, m');
    WeightsConcat(e, x, y, All(|x|, true), All(|y|, true), m');
    assert All(|x|, true) + All(|y|, true) == All(|x + y|, true);
  }

  lemma SumOfGrown(f: real, a: seq<real>, b: seq<real>, v: seq<real>, u: seq<real>)
    requires |a| == |v| && |b| == |u|
    ensures Sum(Scaled(f, a) + b) == Sum(a) * f + Sum(b)
    ensures Dot(Scaled(f, a) + b, v + u) == Dot(a, v) * f + Dot(b, u)
  {
    SumScaled(f, a);
    DotScaled(f, a, v);
    SumConcat(Scaled(f, a), b);
    ProductsConcat(Scaled(f, a), b, v, u);
  }

  /** Phase V of a tile: weights that are zero are skipped. */
  method Accumulate(p: seq<real>, u: seq<real>, start: real) returns (acc: real)
    requires |p| == |u|
    ensures acc == start + Dot(p, u)
  {
    acc := start;
    ghost var z := Products(p, u);
    for t := 0 to |p|
      invariant acc == start + Sum(z[..t])
    {
      assert z[..t + 1][..t] == z[..t];
      if p[t] != 0.0 {
        acc := acc + p[t] * u[t];
      }
    }
    assert z[..|p|] == z;
  }

  /** One value per lane, zero where the tile has no position. */
  function Padded(w: seq<real>): (p: seq<real>)
    requires |w| <= LANES
    ensures |p| == LANES
  {
    seq(LANES, i requires 0 <= i < LANES => if i < |w| then w[i] else 0.0)
  }

  lemma PaddedDot(w: seq<real>, u: seq<real>)
    requires |w| == |u| <= LANES
    ensures Dot(Padded(w), Padded(u)) == Dot(w, u)
  {
    var z := Products(w, u);
    forall i | 0 <= i < LANES ensures Products(Padded(w), Padded(u))[i] == if i < |z| then z[i] else 0.0 {
      if i < |w| { assert Padded(w)[i] == w[i] && Padded(u)[i] == u[i]; }
    }
    assert Products(Padded(w), Padded(u)) == seq(LANES, i requires 0 <= i < LANES => if i < |z| then z[i] else 0.0);
    PaddingKeepsSum(z, LANES);
  }

  /** Phase K of a tile for one head, given the lanes' scores: the new maximum, the
      rescaled sum, the factor and the weight of each lane.  x are the live scores. */
  method PhaseK(e: real -> real, m: real, s: real, lanes: seq<Ext>, ghost x: seq<Ext>)
      returns (m': real, s': real, f: real, p: seq<real>)
    requires ExpLike(e) && |x| <= TILE && lanes == LaneScores(x)
    ensures m' == MaxFrom(m, x) && f == e(m - m')
    ensures var w := Weights(e, x, All(|x|, true), m'); s' == s * f + Sum(w) && p == Padded(w)
  {
    hide ExpLike;
    var top := WarpMax(lanes);
    PaddingKeepsMax(m, x, LANES);
    m' := MaxWith(m, top);
    f := e(m - m');
    p := seq(LANES, i requires 0 <= i < LANES => Weight(e, lanes[i], m'));
    ghost var w := Weights(e, x, All(|x|, true), m');
    assert p == Padded(w);
    PaddingKeepsSum(w, LANES);
    var total := ReduceWarp(p);
    s' := s * f + total[0];
  }

  lemma EmptyPartial(e: real -> real, m0: real)
    ensures Partial(e, m0, [], [], m0, 0.0, 0.0)
  {
    assert Weights(e, [], All(0, true), m0) == [];
  }
}
