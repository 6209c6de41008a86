/** Merging the chunk records of a head: the result is exact softmax attention over
    the positions that were not flushed, and each flushed position scores more than
    20 below the maximum. */
module AttentionReduce {
  import opened RealSums
  import opened Softmax
  import opened Attention

  /** A chunk's record; a maximum of minus infinity marks one never written. */
  datatype Rec = Rec(m: Ext, s: real, acc: real)

  datatype Fold = Fold(max: Ext, rowsum: real, acc: real, errors: nat)

  const EMPTY: Fold := Fold(NegInf, 0.0, 0.0, 0)

  /** exp(a - b), flushed to zero below the threshold; a may be minus infinity. */
  function Scale(e: real -> real, a: Ext, b: real): real {
    if a.Fin? && a.r - b >= FTZ then e(a.r - b) else 0.0
  }

  function Blend(c: real, a: real, d: real, b: real): real {
    c * a + d * b
  }

  function Merge(e: real -> real, f: Fold, rec: Rec): Fold {
    if rec.m.NegInf? then f.(errors := f.errors + 1)
    else
      var top := if f.max.NegInf? then rec.m.r else Max(f.max.r, rec.m.r);
      var old_, new_ := Scale(e, f.max, top), Scale(e, rec.m, top);
      Fold(Fin(top), Blend(old_, f.rowsum, new_, rec.s), Blend(old_, f.acc, new_, rec.acc), f.errors)
  }

  function MergeAll(e: real -> real, recs: seq<Rec>): Fold {
    if recs == [] then EMPTY else Merge(e, MergeAll(e, recs[..|recs| - 1]), recs[|recs| - 1])
  }

  /** op_fattn_reduce for one head and output dimension, up to the final division. */
  method Reduce(e: real -> real, recs: seq<Rec>) returns (f: Fold)
    ensures f == MergeAll(e, recs)
  {
    hide Blend; hide Scale; hide Max;
    var max: Ext, rowsum, acc, errors := NegInf, 0.0, 0.0, 0;
    for c := 0 to |recs|
      invariant Fold(max, rowsum, acc, errors) == MergeAll(e, recs[..c])
    {
      assert recs[..c + 1][..c] == recs[..c];
      if recs[c].m.NegInf? {
        errors := errors + 1;
      } else {
        var top := if max.NegInf? then recs[c].m.r else Max(max.r, recs[c].m.r);
        var scaleVal, scaleAdd := Scale(e, max, top), Scale(e, recs[c].m, top);
        acc := Blend(scaleVal, acc, scaleAdd, recs[c].acc);
        rowsum := Blend(scaleVal, rowsum, scaleAdd, recs[c].s);
        max := Fin(top);
      }
    }
    assert recs[..|recs|] == recs;
    f := Fold(max, rowsum, acc, errors);
  }

  // ---- records never written are counted and leave no trace -----------------------------

  function Written(recs: seq<Rec>): seq<Rec> {
    if recs == [] then []
    else if recs[|recs| - 1].m.NegInf? then Written(recs[..|recs| - 1])
    else Written(recs[..|recs| - 1]) + [recs[|recs| - 1]]
  }

  function Missing(recs: seq<Rec>): nat {
    if recs == [] then 0 else Missing(recs[..|recs| - 1]) + (if recs[|recs| - 1].m.NegInf? then 1 else 0)
  }

  lemma MergeErrors(e: real -> real, f: Fold, n: nat, rec: Rec)
    requires f.errors == 0 && rec.m.Fin?
    ensures Merge(e, f, rec).errors == 0 && Merge(e, f.(errors := n), rec) == Merge(e, f, rec).(errors := n)
  {
    hide Scale; hide Max;
  }

  /** Records never written are counted, and the fold is otherwise that of the
      written ones. */
  lemma {:induction false} MissingRecordsCounted(e: real -> real, recs: seq<Rec>)
    ensures MergeAll(e, Written(recs)).errors == 0
    ensures MergeAll(e, recs) == MergeAll(e, Written(recs)).(errors := Missing(recs))
  {
    if recs != [] {
      var init, last := recs[..|recs| - 1], recs[|recs| - 1];
      MissingRecordsCounted(e, init);
      if last.m.Fin? {
        assert (Written(init) + [last])[..|Written(init)|] == Written(init);
        MergeErrors(e, MergeAll(e, Written(init)), Missing(init), last);
        hide Merge;
      }
    }
  }

  // ---- one merge ---------------------------------------------------------------------------

  /** The fold's state after the positions of x: sums over the kept ones relative to
      the maximum; what was not kept is far below it; the maximum itself is kept. */
  ghost predicate Merged(e: real -> real, m0: real, x: seq<Ext>, v: seq<real>, keep: seq<bool>, M: real, rowsum: real,
                         acc: real)
    requires |v| == |keep| == |x|
  {
    && M == MaxFrom(m0, x)
    && rowsum == Sum(Weights(e, x, keep, M)) && acc == Dot(Weights(e, x, keep, M), v)
    && FarBelow(x, keep, M) && TopKept(x, keep, M)
  }

  ghost predicate FarBelow(x: seq<Ext>, keep: seq<bool>, M: real)
    requires |keep| == |x|
  {
    forall j :: 0 <= j < |x| && x[j].Fin? && !keep[j] ==> x[j].r < M + FTZ
  }

  ghost predicate TopKept(x: seq<Ext>, keep: seq<bool>, M: real)
    requires |keep| == |x|
  {
    (exists j :: 0 <= j < |x| && x[j] == Fin(M)) ==> exists j :: 0 <= j < |x| && keep[j] && x[j] == Fin(M)
  }

  /** Which of the old positions survive a move of the maximum. */
  function Survive(keep: seq<bool>, M: real, M': real): (k: seq<bool>)
    ensures |k| == |keep|
  {
    if M - M' >= FTZ then keep else All(|keep|, false)
  }

  /** The old sums after the move. */
  lemma OldPart(e: real -> real, x: seq<Ext>, v: seq<real>, keep: seq<bool>, M: real, M': real)
    requires ExpLike(e) && |v| == |keep| == |x|
    ensures var c, w, w' := Scale(e, Fin(M), M'), Weights(e, x, keep, M), Weights(e, x, Survive(keep, M, M'), M');
            c * Sum(w) == Sum(w') && c * Dot(w, v) == Dot(w', v)
  {
    hide ExpLike; hide Weights;
    var w := Weights(e, x, keep, M);
    if M - M' >= FTZ {
      Rescale(e, x, keep, M, M');
      SumScaled(e(M - M'), w);
      DotScaled(e(M - M'), w, v);
    } else {
      NoWeights(e, x, v, M');
      assert All(|keep|, false) == All(|x|, false);
    }
  }

  lemma MaxOfParts(m0: real, x: seq<Ext>, y: seq<Ext>)
    ensures MaxFrom(m0, x + y) == Max(MaxFrom(m0, x), MaxFrom(m0, y))
  {
    MaxFromConcat(m0, x, y);
    MaxFromBounds(m0, x);
    StartHigher(m0, MaxFrom(m0, x), y);
  }

  lemma {:induction false} StartHigher(m0: real, M: real, y: seq<Ext>)
    requires m0 <= M
    ensures MaxFrom(M, y) == Max(M, MaxFrom(m0, y))
  {
    if y != [] { StartHigher(m0, M, y[..|y| - 1]); }
  }

  /** Nothing that is flushed comes near the new maximum, and the new maximum is
      never flushed. */
  lemma FlushedFar(m0: real, x: seq<Ext>, keep: seq<bool>, M: real, M': real)
    requires |keep| == |x| && M == MaxFrom(m0, x) <= M' && FarBelow(x, keep, M) && TopKept(x, keep, M)
    ensures FarBelow(x, Survive(keep, M, M'), M') && TopKept(x, Survive(keep, M, M'), M')
  {
    MaxFromBounds(m0, x);
  }

  lemma FarConcat(x: seq<Ext>, kx: seq<bool>, y: seq<Ext>, ky: seq<bool>, M: real)
    requires |kx| == |x| && |ky| == |y| && FarBelow(x, kx, M) && FarBelow(y, ky, M) && TopKept(x, kx, M)
             && TopKept(y, ky, M)
    ensures FarBelow(x + y, kx + ky, M) && TopKept(x + y, kx + ky, M)
  {
    if j :| 0 <= j < |x + y| && (x + y)[j] == Fin(M) {
      if j < |x| {
        assert x[j] == Fin(M);
        var i :| 0 <= i < |x| && kx[i] && x[i] == Fin(M);
        assert (kx + ky)[i] && (x + y)[i] == Fin(M);
      } else {
        assert y[j - |x|] == Fin(M);
        var i :| 0 <= i < |y| && ky[i] && y[i] == Fin(M);
        assert (kx + ky)[|x| + i] && (x + y)[|x| + i] == Fin(M);
      }
    }
  }

  lemma SumsConcat(e: real -> real, x: seq<Ext>, v: seq<real>, kx: seq<bool>, y: seq<Ext>, u: seq<real>,
                   ky: seq<bool>, M: real)
    requires |v| == |kx| == |x| && |u| == |ky| == |y|
    ensures Sum(Weights(e, x + y, kx + ky, M)) == Sum(Weights(e, x, kx, M)) + Sum(Weights(e, y, ky, M))
    ensures Dot(Weights(e, x + y, kx + ky, M), v + u) == Dot(Weights(e, x, kx, M), v) + Dot(Weights(e, y, ky, M), u)
  {
    hide Weights;
    WeightsConcat(e, x, y, kx, ky, M);
    SumConcat(Weights(e, x, kx, M), Weights(e, y, ky, M));
    ProductsConcat(Weights(e, x, kx, M), Weights(e, y, ky, M), v, u);
  }

  /** Merging the record of the next chunk. */
  lemma MergeStep(e: real -> real, m0: real, x: seq<Ext>, v: seq<real>, keep: seq<bool>, M: real, rowsum: real,
                  acc: real,
                  y: seq<Ext>, u: seq<real>, mc: real, sc: real, ac: real) returns (keep': seq<bool>)
    requires ExpLike(e) && |v| == |keep| == |x| && |u| == |y|
    requires Merged(e, m0, x, v, keep, M, rowsum, acc) && Partial(e, m0, y, u, mc, sc, ac)
    ensures |keep'| == |x + y|
    ensures var M' := Max(M, mc);
            var c, d := Scale(e, Fin(M), M'), Scale(e, Fin(mc), M');
            Merged(e, m0, x + y, v + u, keep', M', Blend(c, rowsum, d, sc), Blend(c, acc, d, ac))
  {
    hide ExpLike; hide Weights; hide Scale; hide FarBelow; hide TopKept; hide Dot; hide Sum; hide MaxFrom;
    hide Survive; hide Blend;
    var M' := Max(M, mc);
    var kx, ky := Survive(keep, M, M'), Survive(All(|y|, true), mc, M');
    keep' := kx + ky;
    MaxOfParts(m0, x, y);
    FlushedFar(m0, x, keep, M, M');
    AllFar(y, mc);
    FlushedFar(m0, y, All(|y|, true), mc, M');
    FarConcat(x, kx, y, ky, M');
    MergedSums(e, x, v, keep, M, y, u, mc, M');
  }

  lemma MergedSums(e: real -> real, x: seq<Ext>, v: seq<real>, keep: seq<bool>, M: real, y: seq<Ext>, u: seq<real>,
                   mc: real, M': real)
    requires ExpLike(e) && |v| == |keep| == |x| && |u| == |y|
    ensures var c, d := Scale(e, Fin(M), M'), Scale(e, Fin(mc), M');
            var w, wy := Weights(e, x, keep, M), Weights(e, y, All(|y|, true), mc);
            var w' := Weights(e, x + y, Survive(keep, M, M') + Survive(All(|y|, true), mc, M'), M');
            Blend(c, Sum(w), d, Sum(wy)) == Sum(w') && Blend(c, Dot(w, v), d, Dot(wy, u)) == Dot(w', v + u)
  {
    hide ExpLike; hide Weights; hide Scale; hide Dot; hide Sum; hide Survive;
    OldPart(e, x, v, keep, M, M');
    OldPart(e, y, u, All(|y|, true), mc, M');
    SumsConcat(e, x, v, Survive(keep, M, M'), y, u, Survive(All(|y|, true), mc, M'), M');
  }

  lemma AllFar(y: seq<Ext>, M: real)
    ensures FarBelow(y, All(|y|, true), M) && TopKept(y, All(|y|, true), M)
  {
    if j :| 0 <= j < |y| && y[j] == Fin(M) { assert All(|y|, true)[j]; }
  }

  // ---- all chunks -------------------------------------------------------------------------------

  /** recs[c] is the record of positions cuts[c] .. cuts[c + 1], and the chunks cover
      all positions. */
  ghost predicate Records(e: real -> real, m0: real, x: seq<Ext>, v: seq<real>, cuts: seq<nat>, recs: seq<Rec>)
    requires |v| == |x|
  {
    && |cuts| == |recs| + 1 && |recs| >= 1 && cuts[0] == 0 && cuts[|recs|] == |x|
    && (forall c :: 0 <= c <= |recs| ==> cuts[c] <= |x|)
    && (forall c :: 0 <= c < |recs| ==> ChunkRecord(e, m0, x, v, cuts[c], cuts[c + 1], recs[c]))
  }

  ghost predicate ChunkRecord(e: real -> real, m0: real, x: seq<Ext>, v: seq<real>, lo: nat, hi: nat, rec: Rec)
    requires |v| == |x|
  {
    lo <= hi <= |x| && rec.m.Fin? && Partial(e, m0, x[lo..hi], v[lo..hi], rec.m.r, rec.s, rec.acc)
  }

  lemma FirstMerge(e: real -> real, m0: real, x: seq<Ext>, v: seq<real>, rec: Rec)
    requires ExpLike(e) && |v| == |x| && rec.m.Fin? && Partial(e, m0, x, v, rec.m.r, rec.s, rec.acc)
    ensures var f := Merge(e, EMPTY, rec);
            f.max == rec.m && f.errors == 0 && Merged(e, m0, x, v, All(|x|, true), rec.m.r, f.rowsum, f.acc)
  {
    ExpPositive(e, 0.0);
    hide ExpLike; hide Weights; hide FarBelow; hide TopKept; hide MaxFrom;
    AllFar(x, rec.m.r);
    assert Scale(e, rec.m, rec.m.r) == 1.0;
  }

  lemma {:induction false} ChunksMerge(e: real -> real, m0: real, x: seq<Ext>, v: seq<real>, cuts: seq<nat>,
                                       recs: seq<Rec>, k: nat)
    returns (keep: seq<bool>)
    requires ExpLike(e) && |v| == |x| && Records(e, m0, x, v, cuts, recs) && 1 <= k <= |recs|
    ensures |keep| == cuts[k] <= |x|
    ensures var f := MergeAll(e, recs[..k]);
            f.max.Fin? && f.errors == 0 && Merged(e, m0, x[..cuts[k]], v[..cuts[k]], keep, f.max.r, f.rowsum, f.acc)
  {
    hide ExpLike; hide Partial; hide Merged; hide Scale; hide Max; hide Blend;
    assert ChunkRecord(e, m0, x, v, cuts[k - 1], cuts[k], recs[k - 1]);
    assert recs[..k][..k - 1] == recs[..k - 1];
    var y, u, rec := x[cuts[k - 1]..cuts[k]], v[cuts[k - 1]..cuts[k]], recs[k - 1];
    assert MergeAll(e, recs[..k]) == Merge(e, MergeAll(e, recs[..k - 1]), rec);
    assert Partial(e, m0, y, u, rec.m.r, rec.s, rec.acc) && rec.m.Fin?;
    if k == 1 {
      assert x[..cuts[1]] == y && v[..cuts[1]] == u && MergeAll(e, recs[..0]) == EMPTY;
      FirstMerge(e, m0, y, u, rec);
      keep := All(|y|, true);
    } else {
      var before := ChunksMerge(e, m0, x, v, cuts, recs, k - 1);
      var f := MergeAll(e, recs[..k - 1]);
      keep := MergeStep(e, m0, x[..cuts[k - 1]], v[..cuts[k - 1]], before, f.max.r, f.rowsum, f.acc, y, u, rec.m.r,
          rec.s, rec.acc);
      assert x[..cuts[k]] == x[..cuts[k - 1]] + y && v[..cuts[k]] == v[..cuts[k - 1]] + u;
      assert Fin(f.max.r) == f.max && Fin(rec.m.r) == rec.m;
    }
  }

  // ---- the result ------------------------------------------------------------------------------------

  lemma KeptWeightAtLeastOne(e: real -> real, x: seq<Ext>, keep: seq<bool>, M: real)
    requires ExpLike(e) && |keep| == |x| && exists j :: 0 <= j < |x| && keep[j] && x[j] == Fin(M)
    ensures Sum(Weights(e, x, keep, M)) >= 1.0
  {
    var j :| 0 <= j < |x| && keep[j] && x[j] == Fin(M);
    ExpPositive(e, 0.0);
    var w := Weights(e, x, keep, M);
    assert w[j] == 1.0;
    forall i | 0 <= i < |x| ensures w[i] >= 0.0 {
      if x[i].Fin? { ExpPositive(e, x[i].r - M); }
    }
    hide ExpLike; hide Weights;
    OneTerm(w, j);
  }

  lemma {:induction false} OneTerm(w: seq<real>, j: nat)
    requires j < |w| && forall i :: 0 <= i < |w| ==> w[i] >= 0.0
    ensures Sum(w) >= w[j]
  {
    var k := |w| - 1;
    if j < k {
      OneTerm(w[..k], j);
    } else {
      NonNegative(w[..k]);
    }
  }

  lemma {:induction false} NonNegative(w: seq<real>)
    requires forall i :: 0 <= i < |w| ==> w[i] >= 0.0
    ensures Sum(w) >= 0.0
  {
    if w != [] { NonNegative(w[..|w| - 1]); }
  }

  lemma DotSnoc(w: seq<real>, v: seq<real>)
    requires |w| == |v| > 0
    ensures var k := |w| - 1; Dot(w, v) == Dot(w[..k], v[..k]) + w[k] * v[k]
  {
    var k := |w| - 1;
    forall i | 0 <= i < k ensures Products(w, v)[..k][i] == Products(w[..k], v[..k])[i] {
      assert w[..k][i] == w[i] && v[..k][i] == v[i];
    }
    assert Products(w, v)[..k] == Products(w[..k], v[..k]);
  }

  /** |D| is at most V S. */
  predicate Bounded(D: real, V: real, S: real) {
    -(V * S) <= D <= V * S
  }

  /** A dot product is bounded by the weights if the values that count are bounded. */
  lemma {:induction false} DotBound(w: seq<real>, v: seq<real>, V: real)
    requires |w| == |v| && V >= 0.0 && (forall i :: 0 <= i < |w| ==> w[i] >= 0.0 && (w[i] > 0.0 ==> -V <= v[i] <= V))
    ensures Bounded(Dot(w, v), V, Sum(w))
  {
    hide Bounded;
    if w == [] {
      BoundZero(Sum(w), Dot(w, v), V);
    } else {
      var k := |w| - 1;
      assert forall i :: 0 <= i < k ==> w[..k][i] == w[i] && v[..k][i] == v[i];
      DotBound(w[..k], v[..k], V);
      DotBoundLast(w, v, V);
    }
  }

  lemma DotBoundLast(w: seq<real>, v: seq<real>, V: real)
    requires |w| == |v| > 0 && w[|w| - 1] >= 0.0 && (w[|w| - 1] > 0.0 ==> -V <= v[|w| - 1] <= V)
    requires var k := |w| - 1; Bounded(Dot(w[..k], v[..k]), V, Sum(w[..k]))
    ensures Bounded(Dot(w, v), V, Sum(w))
  {
    hide Bounded; hide Dot;
    var k := |w| - 1;
    DotSnoc(w, v);
    BoundStep(Sum(w[..k]), Sum(w), w[k], Dot(w[..k], v[..k]), Dot(w, v), v[k], V);
  }

  lemma BoundZero(S: real, D: real, V: real)
    requires S == 0.0 && D == 0.0
    ensures Bounded(D, V, S)
  {
  }

  lemma BoundStep(S: real, S': real, w: real, D: real, D': real, v: real, V: real)
    requires Bounded(D, V, S) && w >= 0.0 && (w > 0.0 ==> -V <= v <= V) && S' == S + w && D' == D + w * v
    ensures Bounded(D', V, S')
  {
    if w > 0.0 {
      MulMono(v, V, w);
      MulMono(-V, v, w);
      Distribute(V, S, w);
    }
  }

  lemma {:induction false} SumBound(w: seq<real>, b: real)
    requires forall i :: 0 <= i < |w| ==> w[i] <= b
    ensures Sum(w) <= |w| as real * b
  {
    if w != [] {
      SumBound(w[..|w| - 1], b);
      assert |w| as real * b == (|w| - 1) as real * b + b;
    }
  }

  function Not(keep: seq<bool>): (k: seq<bool>)
    ensures |k| == |keep|
  {
    seq(|keep|, j requires 0 <= j < |keep| => !keep[j])
  }

  /** Dropping positions that score more than 20 below the maximum moves the mean by
      at most 2 n exp(-20) V. */
  lemma DroppingIsSmall(e: real -> real, x: seq<Ext>, v: seq<real>, keep: seq<bool>, M: real, V: real)
    requires ExpLike(e) && |v| == |keep| == |x| && FarBelow(x, keep, M)
    requires exists j :: 0 <= j < |x| && keep[j] && x[j] == Fin(M)
    requires V >= 0.0 && forall j :: 0 <= j < |v| && x[j].Fin? ==> -V <= v[j] <= V
    ensures var gap, d := 2.0 * V * (|x| as real * e(FTZ)), Mean(e, x, v, keep) - Mean(e, x, v, All(|x|, true));
            -gap <= d <= gap
  {
    hide ExpLike; hide Weights; hide Dot; hide Sum; hide Products; hide Bounded;
    var kept, dropped := Weights(e, x, keep, M), Weights(e, x, Not(keep), M);
    WeightsOfParts(e, x, keep, M);
    KeptWeightAtLeastOne(e, x, keep, M);
    NonNegative(dropped);
    MeanOfParts(e, x, v, keep, M);
    DotBound(kept, v, V);
    DotBound(dropped, v, V);
    SumBound(dropped, e(FTZ));
    SmallShare(Dot(kept, v), Dot(dropped, v), Sum(kept), Sum(dropped), V, |x| as real * e(FTZ));
  }

  lemma SmallShare(a: real, b: real, Z: real, B: real, V: real, gap: real)
    requires Z >= 1.0 && 0.0 <= B <= gap && V >= 0.0
    requires Bounded(a, V, Z) && Bounded(b, V, B)
    ensures -(2.0 * V * gap) <= a / Z - (a + b) / (Z + B) <= 2.0 * V * gap
  {
    DroppedShare(a, b, Z, B, V);
    MulMono(B, gap, 2.0 * V);
  }

  lemma MeanOfParts(e: real -> real, x: seq<Ext>, v: seq<real>, keep: seq<bool>, M: real)
    requires ExpLike(e) && |v| == |keep| == |x| && Weights(e, x, All(|x|, true), M)
             == Plus(Weights(e, x, keep, M), Weights(e, x, Not(keep), M))
    requires Sum(Weights(e, x, keep, M)) > 0.0 && Sum(Weights(e, x, Not(keep), M)) >= 0.0
    ensures var kept, dropped := Weights(e, x, keep, M), Weights(e, x, Not(keep), M);
            && Mean(e, x, v, keep) == Dot(kept, v) / Sum(kept)
            && Mean(e, x, v, All(|x|, true)) == (Dot(kept, v) + Dot(dropped, v)) / (Sum(kept) + Sum(dropped))
  {
    hide ExpLike; hide Weights; hide Dot; hide Sum; hide Products; hide Mean;
    MeanAnyReference(e, x, v, keep, M);
    MeanAnyReference(e, x, v, All(|x|, true), M);
    SumPlus(Weights(e, x, keep, M), Weights(e, x, Not(keep), M));
    DotPlus(Weights(e, x, keep, M), Weights(e, x, Not(keep), M), v);
  }

  lemma WeightsOfParts(e: real -> real, x: seq<Ext>, keep: seq<bool>, M: real)
    requires ExpLike(e) && |keep| == |x| && FarBelow(x, keep, M)
    ensures var kept, dropped := Weights(e, x, keep, M), Weights(e, x, Not(keep), M);
            && Weights(e, x, All(|x|, true), M) == Plus(kept, dropped)
            && (forall j :: 0 <= j < |x| ==> kept[j] >= 0.0 && 0.0 <= dropped[j] <= e(FTZ))
            && (forall j :: 0 <= j < |x| && (kept[j] > 0.0 || dropped[j] > 0.0) ==> x[j].Fin?)
  {
    hide ExpLike;
    var kept, dropped := Weights(e, x, keep, M), Weights(e, x, Not(keep), M);
    forall j | 0 <= j < |x| ensures kept[j] >= 0.0 && 0.0 <= dropped[j] <= e(FTZ) {
      ExpPositive(e, FTZ);
      if x[j].Fin? {
        ExpPositive(e, x[j].r - M);
        if !keep[j] { ExpGrows(e, x[j].r - M, FTZ); }
      }
    }
    assert Weights(e, x, All(|x|, true), M) == Plus(kept, dropped);
  }

  lemma DotPlus(a: seq<real>, b: seq<real>, v: seq<real>)
    requires |a| == |b| == |v|
    ensures Dot(Plus(a, b), v) == Dot(a, v) + Dot(b, v)
  {
    forall i | 0 <= i < |v| ensures Products(Plus(a, b), v)[i] == Plus(Products(a, v), Products(b, v))[i] {
      Distribute(v[i], a[i], b[i]);
    }
    assert Products(Plus(a, b), v) == Plus(Products(a, v), Products(b, v));
    SumPlus(Products(a, v), Products(b, v));
  }

  /** Split-KV decode and reduce: for any scores with at least one live position
      scoring m0 or more, and any division into chunks, the normalised result is
      exact softmax attention over the kept positions; every live position that was
      not kept scores more than 20 below the maximum; and the result is within
      2 n exp(-20) max|v| of full softmax attention. */
  lemma SplitAttention(e: real -> real, m0: real, x: seq<Ext>, v: seq<real>, cuts: seq<nat>, recs: seq<Rec>, V: real)
    returns (keep: seq<bool>)
    requires ExpLike(e) && |v| == |x| && Records(e, m0, x, v, cuts, recs)
    requires exists j :: 0 <= j < |x| && x[j].Fin? && x[j].r >= m0
    requires V >= 0.0 && forall j :: 0 <= j < |v| && x[j].Fin? ==> -V <= v[j] <= V
    ensures |keep| == |x|
    ensures var f := MergeAll(e, recs);
            && f.errors == 0 && f.rowsum > 0.0 && f.acc / f.rowsum == Mean(e, x, v, keep)
            && (forall j :: 0 <= j < |x| && x[j].Fin? && !keep[j] ==> x[j].r < MaxFrom(m0, x) - 20.0)
            && (exists j :: 0 <= j < |x| && x[j] == Fin(MaxFrom(m0, x)))
            && var gap, d := 2.0 * V * (|x| as real * e(-20.0)), f.acc / f.rowsum - Mean(e, x, v, All(|x|, true));
               -gap <= d <= gap
  {
    hide ExpLike; hide Weights;
    keep := ChunksMerge(e, m0, x, v, cuts, recs, |recs|);
    assert recs[..|recs|] == recs && x[..|x|] == x && v[..|v|] == v;
    var f := MergeAll(e, recs);
    var M := f.max.r;
    MaxFromBounds(m0, x);
    assert exists j :: 0 <= j < |x| && x[j] == Fin(M);
    KeptWeightAtLeastOne(e, x, keep, M);
    MeanAnyReference(e, x, v, keep, M);
    DroppingIsSmall(e, x, v, keep, M, V);
  }
}
