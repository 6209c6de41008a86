/** Softmax-weighted means over scores that may be masked, and how they change when
    the reference maximum is moved or small weights are dropped.  The exponential is
    any function with the laws below. */
module Softmax {
  import opened RealSums

  /** A score: minus infinity where the mask forbids the position. */
  datatype Ext = NegInf | Fin(r: real)

  ghost predicate ExpLike(e: real -> real) {
    && e(0.0) == 1.0
    && (forall x: real :: e(x) > 0.0)
    && (forall x: real, y: real :: e(x + y) == e(x) * e(y))
    && (forall x: real, y: real :: x <= y ==> e(x) <= e(y))
  }

  lemma ExpPositive(e: real -> real, x: real)
    requires ExpLike(e)
    ensures e(x) > 0.0 && e(0.0) == 1.0
  {
  }

  lemma ExpAdds(e: real -> real, x: real, y: real)
    requires ExpLike(e)
    ensures e(x + y) == e(x) * e(y)
  {
  }

  lemma ExpGrows(e: real -> real, x: real, y: real)
    requires ExpLike(e) && x <= y
    ensures e(x) <= e(y)
  {
  }

  // ---- weights ---------------------------------------------------------------------

  /** exp(x - m), and zero for a masked position. */
  function Weight(e: real -> real, x: Ext, m: real): real {
    if x.NegInf? then 0.0 else e(x.r - m)
  }

  /** The weights of the kept positions relative to m, zero elsewhere. */
  function Weights(e: real -> real, x: seq<Ext>, keep: seq<bool>, m: real): (w: seq<real>)
    requires |keep| == |x|
    ensures |w| == |x|
  {
    seq(|x|, j requires 0 <= j < |x| => if keep[j] then Weight(e, x[j], m) else 0.0)
  }

  function All(n: nat, b: bool): (k: seq<bool>)
    ensures |k| == n
  {
    seq(n, _ => b)
  }

  /** Moving the reference from m to m' scales every weight by exp(m - m'). */
  lemma Rescale(e: real -> real, x: seq<Ext>, keep: seq<bool>, m: real, m': real)
    requires ExpLike(e) && |keep| == |x|
    ensures Weights(e, x, keep, m') == Scaled(e(m - m'), Weights(e, x, keep, m))
  {
    hide ExpLike;
    forall j | 0 <= j < |x| ensures Weights(e, x, keep, m')[j] == Scaled(e(m - m'), Weights(e, x, keep, m))[j] {
      if keep[j] && x[j].Fin? {
        ExpAdds(e, m - m', x[j].r - m);
        assert (m - m') + (x[j].r - m) == x[j].r - m';
      }
    }
  }

  lemma WeightsConcat(e: real -> real, x: seq<Ext>, y: seq<Ext>, kx: seq<bool>, ky: seq<bool>, m: real)
    requires |kx| == |x| && |ky| == |y|
    ensures Weights(e, x + y, kx + ky, m) == Weights(e, x, kx, m) + Weights(e, y, ky, m)
  {
  }

  lemma ProductsConcat(a: seq<real>, b: seq<real>, v: seq<real>, w: seq<real>)
    requires |a| == |v| && |b| == |w|
    ensures Dot(a + b, v + w) == Dot(a, v) + Dot(b, w)
  {
    hide Sum;
    forall i | 0 <= i < |a| + |b| ensures Products(a + b, v + w)[i] == (Products(a, v) + Products(b, w))[i] {
      if i < |a| {
        assert (a + b)[i] == a[i] && (v + w)[i] == v[i];
      } else {
        assert (a + b)[i] == b[i - |a|] && (v + w)[i] == w[i - |a|];
      }
    }
    assert Products(a + b, v + w) == Products(a, v) + Products(b, w);
    SumConcat(Products(a, v), Products(b, w));
  }

  lemma NoWeights(e: real -> real, x: seq<Ext>, v: seq<real>, m: real)
    requires |v| == |x|
    ensures Sum(Weights(e, x, All(|x|, false), m)) == 0.0 && Dot(Weights(e, x, All(|x|, false), m), v) == 0.0
  {
    var w := Weights(e, x, All(|x|, false), m);
    assert w == seq(|x|, _ => 0.0);
    assert Products(w, v) == seq(|x|, _ => 0.0);
    SumZeros(|x|);
  }

  // ---- the mean ---------------------------------------------------------------------------

  /** The softmax-weighted mean of v over the kept positions. */
  function Mean(e: real -> real, x: seq<Ext>, v: seq<real>, keep: seq<bool>): real
    requires |v| == |keep| == |x|
  {
    var w := Weights(e, x, keep, 0.0);
    if Sum(w) == 0.0 then 0.0 else Dot(w, v) / Sum(w)
  }

  /** It does not depend on the reference that the weights are taken against. */
  lemma MeanAnyReference(e: real -> real, x: seq<Ext>, v: seq<real>, keep: seq<bool>, m: real)
    requires ExpLike(e) && |v| == |keep| == |x|
    ensures Sum(Weights(e, x, keep, m)) == 0.0 <==> Sum(Weights(e, x, keep, 0.0)) == 0.0
    ensures Sum(Weights(e, x, keep, m)) != 0.0 ==>
              Mean(e, x, v, keep) == Dot(Weights(e, x, keep, m), v) / Sum(Weights(e, x, keep, m))
  {
    hide ExpLike; hide Weights;
    Rescale(e, x, keep, m, 0.0);
    ExpPositive(e, m - 0.0);
    var w, c := Weights(e, x, keep, m), e(m - 0.0);
    SumScaled(c, w);
    DotScaled(c, w, v);
    CancelFactor(c, Dot(w, v), Sum(w));
  }

  lemma CancelFactor(c: real, a: real, b: real)
    requires c > 0.0
    ensures c * b == 0.0 <==> b == 0.0
    ensures b != 0.0 ==> (c * a) / (c * b) == a / b
  {
    if b != 0.0 {
      var q := a / b;
      assert q * b == a;
      assert q * (c * b) == c * a;
    }
  }

  // ---- how much dropped positions can matter --------------------------------------------------

  /** |a / Z - (a + b) / (Z + B)| for numerators bounded by V times their weights. */
  lemma DroppedShare(a: real, b: real, Z: real, B: real, V: real)
    requires Z >= 1.0 && B >= 0.0 && V >= 0.0
    requires -(V * Z) <= a <= V * Z && -(V * B) <= b <= V * B
    ensures -(2.0 * V * B) <= a / Z - (a + b) / (Z + B) <= 2.0 * V * B
  {
    var p, q, T := a / Z, (a + b) / (Z + B), Z + B;
    assert p * Z == a && q * T == a + b;
    // (p - q) T = p B - b, and |p| <= V
    assert -V <= p <= V by { QuotientBound(a, Z, V); }
    assert (p - q) * T == p * B - b by { assert p * T == p * Z + p * B; assert (p - q) * T == p * T - q * T; }
    assert -(V * B) <= p * B <= V * B by { MulMono(p, V, B); MulMono(-V, p, B); }
    var g := 2.0 * V * B;
    assert -g <= (p - q) * T <= g;
    DivideBack(p - q, T, g);
  }

  lemma QuotientBound(a: real, Z: real, V: real)
    requires Z >= 1.0 && -(V * Z) <= a <= V * Z
    ensures -V <= a / Z <= V
  {
    var p := a / Z;
    assert p * Z == a;
    if p > V { MulStrict(V, p, Z); }
    if p < -V { MulStrict(p, -V, Z); }
  }

  lemma MulMono(x: real, y: real, z: real)
    requires x <= y && z >= 0.0
    ensures x * z <= y * z
  {
  }

  lemma MulStrict(x: real, y: real, z: real)
    requires x < y && z > 0.0
    ensures x * z < y * z
  {
  }

  lemma DivideBack(d: real, T: real, g: real)
    requires T >= 1.0 && g >= 0.0 && -g <= d * T <= g
    ensures -g <= d <= g
  {
    if d > g { MulStrict(g, d, T); MulMono(1.0, T, g); }
    if d < -g { MulStrict(d, -g, T); MulMono(1.0, T, g); }
  }
}
