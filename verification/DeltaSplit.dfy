/** The DeltaNet step on two GPUs: each carries its half of every period of value
    heads, and its modulo head map names exactly the key heads that the whole
    machine uses. */
module DeltaSplit {
  import opened Arith
  import opened RealSums
  import opened TensorSplit
  import opened DeltaNet

  /** Whole periods of value heads, an even number of key heads. */
  predicate Splittable(a: Inputs, nblk: nat) {
    DeltaNet.Shaped(a) && a.nKHeads >= 2 && a.nKHeads % 2 == 0 && a.nHeads == nblk * a.nKHeads
  }

  /** What GPU g is given: its slices of the vectors, half the head counts. */
  function Local(a: Inputs, g: nat): Inputs
    requires g < 2 && a.nKHeads >= 2
  {
    var P := a.nKHeads;
    Inputs(Slice(a.q, P * SV, g), Slice(a.k, P * SV, g), Slice(a.v, P * SV, g),
           Slice(a.g, P, g), Slice(a.beta, P, g), a.nHeads / 2, P / 2, a.scale)
  }

  /** The global head of local head b * (period / 2) + i. */
  function GlobalHead(period: nat, g: nat, b: nat, i: nat): int
    requires g < 2
  {
    b * period + Offset(g, period) + i
  }

  lemma LocalShaped(a: Inputs, g: nat, nblk: nat)
    requires Splittable(a, nblk) && g < 2
    ensures DeltaNet.Shaped(Local(a, g)) && Local(a, g).nHeads == nblk * (a.nKHeads / 2)
  {
    hide Slice;
    var P, h := a.nKHeads, a.nKHeads / 2;
    assert a.nHeads == 2 * (nblk * h);
    SliceLength(a.g, P, g, nblk);
    SliceLength(a.beta, P, g, nblk);
    UnitSlice(a.v, P, g, nblk);
    UnitSlice(a.q, P, g, 1);
    UnitSlice(a.k, P, g, 1);
  }

  lemma UnitSlice(z: seq<real>, P: nat, g: nat, nblk: nat)
    requires g < 2 && P >= 2 && P % 2 == 0 && |z| == (nblk * P) * SV
    ensures |Slice(z, P * SV, g)| == (nblk * (P / 2)) * SV
  {
    hide Slice;
    Times(nblk, P, SV);
    Times(nblk, P / 2, SV);
    SliceLength(z, P * SV, g, nblk);
  }

  lemma Times(n: nat, x: nat, c: nat)
    ensures n * (x * c) == (n * x) * c
  {
  }

  /** An element of a slice whose unit is c elements: element j of local unit
      b * half + i is element j of the global unit. */
  lemma UnitAt(z: seq<real>, period: nat, c: nat, g: nat, nblk: nat, b: nat, i: nat, j: nat)
    requires g < 2 && period >= 2 && period % 2 == 0 && c > 0 && |z| == (nblk * period) * c && b < nblk
             && i < period / 2 && j < c
    ensures period * c > 0 && b * (period / 2) + i >= 0 && GlobalHead(period, g, b, i) >= 0
    ensures 0 <= (b * (period / 2) + i) * c + j < |Slice(z, period * c, g)|
    ensures 0 <= GlobalHead(period, g, b, i) * c + j < |z|
    ensures Slice(z, period * c, g)[(b * (period / 2) + i) * c + j] == z[GlobalHead(period, g, b, i) * c + j]
  {
    hide Slice; hide Offset; hide GlobalHead;
    MulBound(i, period / 2, c, j);
    MulAtLeast(i, c);
    MulAtLeast(b, period / 2);
    NonNegative(period, g, b, i);
    MulAtLeast(period / 2, c);
    UnitIndex(period, c, g, b, i, j);
    var P: nat := period * c;
    Positive(period, c);
    Times(nblk, period, c);
    MulGap(nblk, b, P);
    SliceAt(z, P, g, b, i * c + j);
  }

  lemma NonNegative(period: nat, g: nat, b: nat, i: nat)
    requires g < 2
    ensures GlobalHead(period, g, b, i) >= 0
  {
    MulAtLeast(b, period);
  }

  lemma Positive(period: nat, c: nat)
    requires period >= 2 && c > 0
    ensures period * c >= 2
  {
    MulGap(period, 1, c);
  }

  lemma UnitIndex(period: nat, c: nat, g: nat, b: nat, i: nat, j: nat)
    requires g < 2 && period % 2 == 0
    ensures period * c >= 0 && (period * c) / 2 == (period / 2) * c
    ensures (b * (period / 2) + i) * c + j == b * ((period * c) / 2) + (i * c + j)
    ensures GlobalHead(period, g, b, i) * c + j == b * (period * c) + Offset(g, period * c) + (i * c + j)
  {
    var h := period / 2;
    MulAtLeast(h, c);
    assert period * c == 2 * (h * c);
    assert (b * h + i) * c == b * (h * c) + i * c;
    if g == 0 {
      assert (b * period + i) * c == b * (period * c) + i * c;
    } else {
      assert (b * period + h + i) * c == b * (period * c) + h * c + i * c;
    }
  }

  /** The modulo head map: local value head names, on its own GPU, the slice of
      exactly the key head that the global value head names. */
  lemma HeadMapAgrees(period: nat, g: nat, b: nat, i: nat)
    requires g < 2 && period >= 2 && period % 2 == 0 && i < period / 2
    ensures b * (period / 2) + i >= 0 && GlobalHead(period, g, b, i) >= 0
    ensures KeyHead(b * (period / 2) + i, period / 2) == i
    ensures KeyHead(GlobalHead(period, g, b, i), period) == Offset(g, period) + i == GlobalHead(period, g, 0, i)
  {
    MulAtLeast(b, period / 2);
    MulAtLeast(b, period);
    DivModUnique(b * (period / 2) + i, period / 2, b, i);
    DivModUnique(GlobalHead(period, g, b, i), period, b, Offset(g, period) + i);
  }

  /** One vector of heads of SV elements: a local head is the global one. */
  lemma HeadPart(z: seq<real>, period: nat, g: nat, nblk: nat, b: nat, i: nat)
    requires g < 2 && period >= 2 && period % 2 == 0 && |z| == (nblk * period) * SV && b < nblk && i < period / 2
    ensures b * (period / 2) + i >= 0 && GlobalHead(period, g, b, i) >= 0
    ensures (b * (period / 2) + i) * SV + SV <= |Slice(z, period * SV, g)|
            && GlobalHead(period, g, b, i) * SV + SV <= |z|
    ensures Part(Slice(z, period * SV, g), b * (period / 2) + i) == Part(z, GlobalHead(period, g, b, i))
  {
    UnitAt(z, period, SV, g, nblk, b, i, SV - 1);
    var x: nat, y: nat := b * (period / 2) + i, GlobalHead(period, g, b, i);
    var s := Slice(z, period * SV, g);
    forall j | 0 <= j < SV ensures Part(s, x)[j] == Part(z, y)[j] {
      UnitAt(z, period, SV, g, nblk, b, i, j);
    }
  }

  /** Same keys, queries, values, decay and coefficient for a local and its global
      head. */
  lemma SameInputs(a: Inputs, g: nat, nblk: nat, b: nat, i: nat, col: nat)
    requires Splittable(a, nblk) && g < 2 && b < nblk && i < a.nKHeads / 2 && col < SV
    requires DeltaNet.Shaped(Local(a, g)) && Local(a, g).nHeads == nblk * (a.nKHeads / 2)
    ensures 0 <= b * (a.nKHeads / 2) + i < Local(a, g).nHeads && 0 <= GlobalHead(a.nKHeads, g, b, i) < a.nHeads
    ensures var L, x: nat, y: nat := Local(a, g), b * (a.nKHeads / 2) + i, GlobalHead(a.nKHeads, g, b, i);
            && KeyOf(L, x) == KeyOf(a, y) && QueryOf(L, x) == QueryOf(a, y)
            && L.g[x] == a.g[y] && L.beta[x] == a.beta[y] && L.v[x * SV + col] == a.v[y * SV + col]
  {
    hide Slice; hide Local; hide GlobalHead; hide KeyOf; hide QueryOf;
    SameKeys(a, g, nblk, b, i);
    SameScalars(a, g, nblk, b, i, col);
  }

  lemma SameKeys(a: Inputs, g: nat, nblk: nat, b: nat, i: nat)
    requires Splittable(a, nblk) && g < 2 && b < nblk && i < a.nKHeads / 2 && DeltaNet.Shaped(Local(a, g))
    ensures b * (a.nKHeads / 2) + i >= 0 && GlobalHead(a.nKHeads, g, b, i) >= 0
    ensures var L, x: nat, y: nat := Local(a, g), b * (a.nKHeads / 2) + i, GlobalHead(a.nKHeads, g, b, i);
            KeyOf(L, x) == KeyOf(a, y) && QueryOf(L, x) == QueryOf(a, y)
  {
    hide Slice; hide Part; hide KeyHead;
    var P := a.nKHeads;
    HeadMapAgrees(P, g, b, i);
    HeadPart(a.k, P, g, 1, 0, i);
    HeadPart(a.q, P, g, 1, 0, i);
  }

  lemma SameScalars(a: Inputs, g: nat, nblk: nat, b: nat, i: nat, col: nat)
    requires Splittable(a, nblk) && g < 2 && b < nblk && i < a.nKHeads / 2 && col < SV
    requires DeltaNet.Shaped(Local(a, g)) && Local(a, g).nHeads == nblk * (a.nKHeads / 2)
    ensures 0 <= b * (a.nKHeads / 2) + i < Local(a, g).nHeads && 0 <= GlobalHead(a.nKHeads, g, b, i) < a.nHeads
    ensures var L, x: nat, y: nat := Local(a, g), b * (a.nKHeads / 2) + i, GlobalHead(a.nKHeads, g, b, i);
            L.g[x] == a.g[y] && L.beta[x] == a.beta[y] && L.v[x * SV + col] == a.v[y * SV + col]
  {
    hide Slice; hide GlobalHead;
    var P := a.nKHeads;
    OneEach(a.g, P, g, nblk, b, i);
    OneEach(a.beta, P, g, nblk, b, i);
    UnitAt(a.v, P, SV, g, nblk, b, i, col);
  }

  lemma OneEach(z: seq<real>, period: nat, g: nat, nblk: nat, b: nat, i: nat)
    requires g < 2 && period >= 2 && period % 2 == 0 && |z| == nblk * period && b < nblk && i < period / 2
    ensures 0 <= b * (period / 2) + i < |Slice(z, period, g)| && 0 <= GlobalHead(period, g, b, i) < |z|
    ensures Slice(z, period, g)[b * (period / 2) + i] == z[GlobalHead(period, g, b, i)]
  {
    MulGap(nblk, b, period);
    SliceAt(z, period, g, b, i);
  }

  // ---- the step ----------------------------------------------------------------------------------

  const TILE_LEN: nat := SV * SV

  /** The fused task of a local column is the one of the global column. */
  lemma SameTask(a: Inputs, g: nat, nblk: nat, b: nat, i: nat, col: nat, s: seq<real>)
    requires Splittable(a, nblk) && g < 2 && b < nblk && i < a.nKHeads / 2 && col < SV && |s| == SV
    requires DeltaNet.Shaped(Local(a, g)) && Local(a, g).nHeads == nblk * (a.nKHeads / 2)
    ensures 0 <= b * (a.nKHeads / 2) + i < Local(a, g).nHeads && 0 <= GlobalHead(a.nKHeads, g, b, i) < a.nHeads
    ensures var L, x: nat, y: nat := Local(a, g), b * (a.nKHeads / 2) + i, GlobalHead(a.nKHeads, g, b, i);
            FusedColumn(L, x * SV + col, s) == FusedColumn(a, y * SV + col, s)
                && FusedOut(L, x * SV + col, s) == FusedOut(a, y * SV + col, s)
  {
    hide Slice; hide GlobalHead; hide KeyOf; hide QueryOf; hide Delta; hide Updated; hide Emitted; hide Dot;
    SameInputs(a, g, nblk, b, i, col);
    LocalScale(a, g);
    hide Local;
    var L, x: nat, y: nat := Local(a, g), b * (a.nKHeads / 2) + i, GlobalHead(a.nKHeads, g, b, i);
    assert (x * SV + col) / SV == x && (y * SV + col) / SV == y;
  }

  lemma LocalScale(a: Inputs, g: nat)
    requires g < 2 && a.nKHeads >= 2
    ensures Local(a, g).scale == a.scale
  {
  }

  /** A column of the sliced state is the global column. */
  lemma ColumnAt(S: seq<real>, period: nat, g: nat, nblk: nat, b: nat, i: nat, col: nat)
    requires g < 2 && period >= 2 && period % 2 == 0 && |S| == (nblk * period) * TILE_LEN && b < nblk
             && i < period / 2 && col < SV
    ensures b * (period / 2) + i >= 0 && GlobalHead(period, g, b, i) >= 0
    ensures ((b * (period / 2) + i) * SV + col) * SV + SV <= |Slice(S, period * TILE_LEN, g)|
    ensures (GlobalHead(period, g, b, i) * SV + col) * SV + SV <= |S|
    ensures Column(Slice(S, period * TILE_LEN, g), (b * (period / 2) + i) * SV + col)
            == Column(S, GlobalHead(period, g, b, i) * SV + col)
  {
    hide Slice; hide GlobalHead;
    UnitAt(S, period, TILE_LEN, g, nblk, b, i, col * SV + SV - 1);
    var x: nat, y: nat, s := b * (period / 2) + i, GlobalHead(period, g, b, i), Slice(S, period * TILE_LEN, g);
    var C, D := Column(s, x * SV + col), Column(S, y * SV + col);
    forall j | 0 <= j < SV ensures C[j] == D[j] {
      UnitAt(S, period, TILE_LEN, g, nblk, b, i, col * SV + j);
    }
  }

  /** The step of GPU g leaves its slice of what the whole step leaves, column by
      column and output by output. */
  ghost predicate Agrees(period: nat, g: nat, b: nat, i: nat, col: nat, T': seq<real>, U': seq<real>, S': seq<real>,
                         O': seq<real>)
    requires g < 2
  {
    var x, y := b * (period / 2) + i, GlobalHead(period, g, b, i);
    && x >= 0 && y >= 0 && (x * SV + col) * SV + SV <= |T'| && (y * SV + col) * SV + SV <= |S'|
    && x * SV + col < |U'| && y * SV + col < |O'|
    && Column(T', x * SV + col) == Column(S', y * SV + col) && U'[x * SV + col] == O'[y * SV + col]
  }

  lemma HalvesAgree(a: Inputs, nblk: nat, g: nat, S: seq<real>, S': seq<real>, O': seq<real>, T': seq<real>,
                    U': seq<real>,
                    b: nat, i: nat, col: nat)
    requires Splittable(a, nblk) && g < 2 && |S| == (nblk * a.nKHeads) * TILE_LEN && Stepped(a, S, S', O')
    requires DeltaNet.Shaped(Local(a, g)) && Stepped(Local(a, g), Slice(S, a.nKHeads * TILE_LEN, g), T', U')
    requires b < nblk && i < a.nKHeads / 2 && col < SV
    ensures Agrees(a.nKHeads, g, b, i, col, T', U', S', O')
  {
    hide Slice; hide GlobalHead; hide FusedColumn; hide FusedOut; hide Column;
    var P, L := a.nKHeads, Local(a, g);
    LocalShaped(a, g, nblk);
    hide Local;
    ColumnAt(S, P, g, nblk, b, i, col);
    var x: nat, y: nat := b * (P / 2) + i, GlobalHead(P, g, b, i);
    var s := Column(S, y * SV + col);
    SameTask(a, g, nblk, b, i, col, s);
    assert TaskDone(a, y * SV + col, S, S', O');
    assert TaskDone(L, x * SV + col, Slice(S, P * TILE_LEN, g), T', U');
  }

  /** DeltaNet split refinement: after a step of the two half machines, each on its
      slice of inputs and state, every global head's state and output is found at
      exactly one GPU and local head, and is the one the whole machine computes. */
  lemma SplitStepRefines(a: Inputs, nblk: nat, S: seq<real>, S': seq<real>, O': seq<real>,
                         T0: seq<real>, U0: seq<real>, T1: seq<real>, U1: seq<real>, h: nat)
    returns (g: nat, b: nat, i: nat)
    requires Splittable(a, nblk) && |S| == (nblk * a.nKHeads) * TILE_LEN && Stepped(a, S, S', O') && h < a.nHeads
    requires DeltaNet.Shaped(Local(a, 0)) && Stepped(Local(a, 0), Slice(S, a.nKHeads * TILE_LEN, 0), T0, U0)
    requires DeltaNet.Shaped(Local(a, 1)) && Stepped(Local(a, 1), Slice(S, a.nKHeads * TILE_LEN, 1), T1, U1)
    ensures OwnedBy(h, a.nKHeads, nblk, g, b, i) && h == GlobalHead(a.nKHeads, g, b, i)
    ensures forall g': nat, b': nat, i': nat :: OwnedBy(h, a.nKHeads, nblk, g', b', i') ==>
            g' == g && b' == b && i' == i
    ensures var T', U' := if g == 0 then T0 else T1, if g == 0 then U0 else U1;
            forall col: nat :: col < SV ==> Agrees(a.nKHeads, g, b, i, col, T', U', S', O')
  {
    g, b, i := OneOwner(h, a.nKHeads, nblk);
    hide Stepped; hide Agrees; hide Slice;
    var T', U' := if g == 0 then T0 else T1, if g == 0 then U0 else U1;
    forall col: nat | col < SV ensures Agrees(a.nKHeads, g, b, i, col, T', U', S', O') {
      if g == 0 {
        HalvesAgree(a, nblk, 0, S, S', O', T0, U0, b, i, col);
      } else {
        HalvesAgree(a, nblk, 1, S, S', O', T1, U1, b, i, col);
      }
    }
  }

  // ---- a token sequence --------------------------------------------------------------------------------

  lemma StepLength(a: Inputs, S: seq<real>, S': seq<real>, O': seq<real>)
    requires DeltaNet.Shaped(a) && a.nHeads >= 1 && Stepped(a, S, S', O')
    ensures |S| == |S'| == a.nHeads * TILE_LEN && |O'| == a.nHeads * SV
  {
    assert TaskDone(a, 0, S, S', O');
  }

  /** Element x of a half state, by head, column and row. */
  lemma Address(x: nat, half: nat, nblk: nat) returns (b: nat, i: nat, col: nat, j: nat)
    requires half > 0 && x < (nblk * half) * TILE_LEN
    ensures b < nblk && i < half && col < SV && j < SV && b * half + i >= 0 && x == ((b * half + i) * SV + col) * SV + j
  {
    var head := x / TILE_LEN;
    col, j := (x % TILE_LEN) / SV, x % SV;
    b, i := DivMod(head, half);
    DivModBound(head, half, nblk);
  }

  ghost predicate AllAgree(P: nat, nblk: nat, g: nat, T': seq<real>, U': seq<real>, S': seq<real>, O': seq<real>)
    requires g < 2
  {
    forall b: nat, i: nat, col: nat :: b < nblk && i < P / 2 && col < SV ==> Agrees(P, g, b, i, col, T', U', S', O')
  }

  /** The half machine's state is the slice of the whole machine's, and so is its
      output. */
  lemma HalfIsSlice(a: Inputs, nblk: nat, g: nat, S: seq<real>, S': seq<real>, O': seq<real>, T': seq<real>,
                    U': seq<real>)
    requires Splittable(a, nblk) && nblk >= 1 && g < 2 && |S| == (nblk * a.nKHeads) * TILE_LEN && Stepped(a, S, S', O')
    requires DeltaNet.Shaped(Local(a, g)) && Stepped(Local(a, g), Slice(S, a.nKHeads * TILE_LEN, g), T', U')
    ensures |S'| == |S| && T' == Slice(S', a.nKHeads * TILE_LEN, g)
    ensures U' == Slice(O', a.nKHeads * SV, g)
  {
    HalfLengths(a, nblk, g, S, S', O', T', U');
    EveryTaskAgrees(a, nblk, g, S, S', O', T', U');
    hide *;
    SlicesEqual(a.nKHeads, nblk, g, S', O', T', U');
  }

  lemma EveryTaskAgrees(a: Inputs, nblk: nat, g: nat, S: seq<real>, S': seq<real>, O': seq<real>, T': seq<real>,
                        U': seq<real>)
    requires Splittable(a, nblk) && g < 2 && |S| == (nblk * a.nKHeads) * TILE_LEN && Stepped(a, S, S', O')
    requires DeltaNet.Shaped(Local(a, g)) && Stepped(Local(a, g), Slice(S, a.nKHeads * TILE_LEN, g), T', U')
    ensures a.nKHeads >= 2 && a.nKHeads % 2 == 0 && AllAgree(a.nKHeads, nblk, g, T', U', S', O')
  {
    hide Slice; hide Stepped; hide Local; hide Agrees;
    forall b: nat, i: nat, col: nat | b < nblk && i < a.nKHeads / 2 && col < SV
      ensures Agrees(a.nKHeads, g, b, i, col, T', U', S', O')
    {
      HalvesAgree(a, nblk, g, S, S', O', T', U', b, i, col);
    }
  }

  lemma SlicesEqual(P: nat, nblk: nat, g: nat, S': seq<real>, O': seq<real>, T': seq<real>, U': seq<real>)
    requires g < 2 && P >= 2 && P % 2 == 0 && AllAgree(P, nblk, g, T', U', S', O')
    requires |S'| == (nblk * P) * TILE_LEN && |T'| == (nblk * (P / 2)) * TILE_LEN == |Slice(S', P * TILE_LEN, g)|
    requires |O'| == (nblk * P) * SV && |U'| == (nblk * (P / 2)) * SV == |Slice(O', P * SV, g)|
    ensures T' == Slice(S', P * TILE_LEN, g) && U' == Slice(O', P * SV, g)
  {
    hide Slice; hide AllAgree;
    var R, V := Slice(S', P * TILE_LEN, g), Slice(O', P * SV, g);
    forall x | 0 <= x < |T'| ensures T'[x] == R[x] {
      SameState(P, nblk, g, S', O', T', U', R, x);
    }
    forall x | 0 <= x < |U'| ensures U'[x] == V[x] {
      SameOutput(P, nblk, g, S', O', T', U', V, x);
    }
  }

  lemma SameState(P: nat, nblk: nat, g: nat, S': seq<real>, O': seq<real>, T': seq<real>, U': seq<real>, R: seq<real>,
                  x: nat)
    requires g < 2 && P >= 2 && P % 2 == 0 && AllAgree(P, nblk, g, T', U', S', O') && |S'| == (nblk * P) * TILE_LEN
    requires R == Slice(S', P * TILE_LEN, g) && |T'| == |R| && x < |T'| && |T'| == (nblk * (P / 2)) * TILE_LEN
    ensures T'[x] == R[x]
  {
    hide Slice; hide GlobalHead; hide AllAgree;
    var b, i, col, j := Address(x, P / 2, nblk);
    AgreesAt(P, nblk, g, T', U', S', O', b, i, col);
    ColumnAt(S', P, g, nblk, b, i, col);
    SameEntry(T', R, S', (b * (P / 2) + i) * SV + col, j, Column(S', GlobalHead(P, g, b, i) * SV + col));
  }

  lemma SameOutput(P: nat, nblk: nat, g: nat, S': seq<real>, O': seq<real>, T': seq<real>, U': seq<real>,
                   V: seq<real>, x: nat)
    requires g < 2 && P >= 2 && P % 2 == 0 && AllAgree(P, nblk, g, T', U', S', O') && |O'| == (nblk * P) * SV
    requires V == Slice(O', P * SV, g) && |U'| == |V| && x < |U'| && |U'| == (nblk * (P / 2)) * SV
    ensures U'[x] == V[x]
  {
    hide Slice; hide GlobalHead; hide AllAgree; hide Column;
    var b, i, col := OutputAddress(x, P / 2, nblk);
    AgreesAt(P, nblk, g, T', U', S', O', b, i, col);
    UnitAt(O', P, SV, g, nblk, b, i, col);
  }

  lemma AgreesAt(P: nat, nblk: nat, g: nat, T': seq<real>, U': seq<real>, S': seq<real>, O': seq<real>, b: nat,
                 i: nat, col: nat)
    requires g < 2 && AllAgree(P, nblk, g, T', U', S', O') && b < nblk && i < P / 2 && col < SV
    ensures Agrees(P, g, b, i, col, T', U', S', O')
  {
  }

  lemma HalfLengths(a: Inputs, nblk: nat, g: nat, S: seq<real>, S': seq<real>, O': seq<real>, T': seq<real>,
                    U': seq<real>)
    requires Splittable(a, nblk) && nblk >= 1 && g < 2 && |S| == (nblk * a.nKHeads) * TILE_LEN && Stepped(a, S, S', O')
    requires DeltaNet.Shaped(Local(a, g)) && Stepped(Local(a, g), Slice(S, a.nKHeads * TILE_LEN, g), T', U')
    ensures |S'| == |S| && |T'| == (nblk * (a.nKHeads / 2)) * TILE_LEN == |Slice(S', a.nKHeads * TILE_LEN, g)|
    ensures |O'| == (nblk * a.nKHeads) * SV && |U'| == (nblk * (a.nKHeads / 2)) * SV == |Slice(O', a.nKHeads * SV, g)|
  {
    hide Slice; hide Stepped; hide Local;
    var P, half := a.nKHeads, a.nKHeads / 2;
    LocalShaped(a, g, nblk);
    MulLower(nblk, half);
    MulLower(nblk, P);
    StepLength(a, S, S', O');
    StepLength(Local(a, g), Slice(S, P * TILE_LEN, g), T', U');
    Times(nblk, P, TILE_LEN);
    Times(nblk, half, TILE_LEN);
    Times(nblk, P, SV);
    Times(nblk, half, SV);
    SliceLength(S', P * TILE_LEN, g, nblk);
    SliceLength(O', P * SV, g, nblk);
  }

  /** Element x of a half output, by head and column. */
  lemma OutputAddress(x: nat, half: nat, nblk: nat) returns (b: nat, i: nat, col: nat)
    requires half > 0 && x < (nblk * half) * SV
    ensures b < nblk && i < half && col < SV && b * half + i >= 0 && x == (b * half + i) * SV + col
  {
    var head := x / SV;
    col := x % SV;
    b, i := DivMod(head, half);
    DivModBound(head, half, nblk);
  }

  lemma SameEntry(T: seq<real>, R: seq<real>, S: seq<real>, t: nat, j: nat, c: seq<real>)
    requires t * SV + SV <= |T| && t * SV + SV <= |R| && j < SV && Column(T, t) == c && Column(R, t) == c
    ensures T[t * SV + j] == R[t * SV + j]
  {
    assert Column(T, t)[j] == T[t * SV + j] && Column(R, t)[j] == R[t * SV + j];
  }

  /** Over any token sequence the half machine, started on its slice of the state,
      stays on its slice, and emits its slice of every output. */
  lemma {:induction false} SplitRunRefines(tokens: seq<Inputs>, nblk: nat, P: nat, g: nat,
                                           states: seq<seq<real>>, outs: seq<seq<real>>, halves: seq<seq<real>>,
                                           houts: seq<seq<real>>, p: nat)
    requires g < 2 && nblk >= 1 && P >= 2 && p <= |tokens| && |states| == |halves| == |tokens| + 1
             && |outs| == |houts| == |tokens|
    requires forall k :: 0 <= k < |tokens| ==>
               && Splittable(tokens[k], nblk) && tokens[k].nKHeads == P
               && DeltaNet.Shaped(tokens[k]) && DeltaNet.Shaped(Local(tokens[k], g))
    requires forall k :: 0 <= k < |tokens| ==> Stepped(tokens[k], states[k], states[k + 1], outs[k])
    requires forall k :: 0 <= k < |tokens| ==> Stepped(Local(tokens[k], g), halves[k], halves[k + 1], houts[k])
    requires |states[0]| == (nblk * P) * TILE_LEN && halves[0] == Slice(states[0], P * TILE_LEN, g)
    ensures |states[p]| == (nblk * P) * TILE_LEN && halves[p] == Slice(states[p], P * TILE_LEN, g)
    ensures forall k :: 0 <= k < p ==> houts[k] == Slice(outs[k], P * SV, g)
  {
    hide Slice; hide Stepped; hide Local;
    if p > 0 {
      SplitRunRefines(tokens, nblk, P, g, states, outs, halves, houts, p - 1);
      HalfIsSlice(tokens[p - 1], nblk, g, states[p - 1], states[p], outs[p - 1], halves[p], houts[p - 1]);
    }
  }
}
