/** One DeltaNet step: the fused, lane-strided, in-place update of every column by
    one warp each, against the delta rule written with matrices. */
module DeltaNet {
  import opened Arith
  import opened RealSums

  const SV: nat := 128
  const ROWS: nat := 4

  /** One token's inputs: q and k per key head, v, decay and mixing coefficient per
      value head. */
  datatype Inputs = Inputs(q: seq<real>, k: seq<real>, v: seq<real>, g: seq<real>, beta: seq<real>,
                           nHeads: nat, nKHeads: nat, scale: real)

  predicate Shaped(a: Inputs) {
    && a.nKHeads >= 1 && |a.q| == |a.k| == a.nKHeads * SV
    && |a.v| == a.nHeads * SV && |a.g| == |a.beta| == a.nHeads
  }

  // ---- the delta rule ----------------------------------------------------------------

  /** A head's state by columns: entry i of column j is S[i][j]. */
  type Matrix = seq<seq<real>>

  predicate Square(S: Matrix) {
    |S| == SV && forall j :: 0 <= j < SV ==> |S[j]| == SV
  }

  /** g S */
  function Decayed(g: real, S: Matrix): (S': Matrix)
    requires Square(S)
    ensures Square(S')
  {
    seq(SV, j requires 0 <= j < SV => Scaled(g, S[j]))
  }

  /** The transpose of S applied to x. */
  function Read(S: Matrix, x: seq<real>): (y: seq<real>)
    requires Square(S) && |x| == SV
    ensures |y| == SV
  {
    seq(SV, j requires 0 <= j < SV => Dot(S[j], x))
  }

  /** What is still missing at key k: beta (v - transpose(S) k). */
  function Correction(S: Matrix, k: seq<real>, v: seq<real>, beta: real): (d: seq<real>)
    requires Square(S) && |k| == |v| == SV
    ensures |d| == SV
  {
    seq(SV, j requires 0 <= j < SV => beta * (v[j] - Read(S, k)[j]))
  }

  /** S + k d, the outer product added. */
  function Written(S: Matrix, k: seq<real>, d: seq<real>): (S': Matrix)
    requires Square(S) && |k| == |d| == SV
    ensures Square(S')
  {
    seq(SV, j requires 0 <= j < SV => Plus(S[j], Scaled(d[j], k)))
  }

  function DeltaRule(S: Matrix, k: seq<real>, v: seq<real>, g: real, beta: real): (S': Matrix)
    requires Square(S) && |k| == |v| == SV
    ensures Square(S')
  {
    var D := Decayed(g, S);
    Written(D, k, Correction(D, k, v, beta))
  }

  function Output(S: Matrix, q: seq<real>, scale: real): (o: seq<real>)
    requires Square(S) && |q| == SV
    ensures |o| == SV
  {
    Scaled(scale, Read(S, q))
  }

  // ---- one column as a warp computes it ----------------------------------------------------

  /** The key head that a value head uses. */
  function KeyHead(h: nat, nKHeads: nat): nat
    requires nKHeads >= 1
  {
    h % nKHeads
  }

  function Part(s: seq<real>, j: nat): (p: seq<real>)
    requires j * SV + SV <= |s|
    ensures |p| == SV
  {
    s[j * SV..j * SV + SV]
  }

  lemma KeyHeadBound(a: Inputs, h: nat)
    requires Shaped(a)
    ensures KeyHead(h, a.nKHeads) * SV + SV <= |a.k|
  {
  }

  function KeyOf(a: Inputs, h: nat): (k: seq<real>)
    requires Shaped(a)
    ensures |k| == SV
  {
    KeyHeadBound(a, h);
    Part(a.k, KeyHead(h, a.nKHeads))
  }

  function QueryOf(a: Inputs, h: nat): (q: seq<real>)
    requires Shaped(a)
    ensures |q| == SV
  {
    KeyHeadBound(a, h);
    Part(a.q, KeyHead(h, a.nKHeads))
  }

  /** The fused form of a column: the decay is folded into the correction and the
      update, and the output is scaled last. */
  function Delta(v: real, g: real, kv: real, beta: real): real {
    (v - g * kv) * beta
  }

  function Updated(g: real, s: seq<real>, k: seq<real>, delta: real): (s': seq<real>)
    requires |s| == |k| == SV
    ensures |s'| == SV
  {
    seq(SV, i requires 0 <= i < SV => g * s[i] + k[i] * delta)
  }

  function Emitted(s: seq<real>, q: seq<real>, scale: real): real
    requires |s| == |q|
  {
    Dot(s, q) * scale
  }

  function FusedDelta(a: Inputs, task: nat, s: seq<real>): real
    requires Shaped(a) && task < a.nHeads * SV && |s| == SV
  {
    Delta(a.v[task], a.g[task / SV], Dot(s, KeyOf(a, task / SV)), a.beta[task / SV])
  }

  function FusedColumn(a: Inputs, task: nat, s: seq<real>): (s': seq<real>)
    requires Shaped(a) && task < a.nHeads * SV && |s| == SV
    ensures |s'| == SV
  {
    Updated(a.g[task / SV], s, KeyOf(a, task / SV), FusedDelta(a, task, s))
  }

  function FusedOut(a: Inputs, task: nat, s: seq<real>): real
    requires Shaped(a) && task < a.nHeads * SV && |s| == SV
  {
    Emitted(FusedColumn(a, task, s), QueryOf(a, task / SV), a.scale)
  }

  /** The fused column is the column of the delta rule. */
  lemma FusedIsDeltaRule(a: Inputs, h: nat, S: Matrix, j: nat)
    requires Shaped(a) && h < a.nHeads && Square(S) && j < SV
    ensures var S' := DeltaRule(S, KeyOf(a, h), Part(a.v, h), a.g[h], a.beta[h]);
            && FusedColumn(a, h * SV + j, S[j]) == S'[j]
            && FusedOut(a, h * SV + j, S[j]) == Output(S', QueryOf(a, h), a.scale)[j]
  {
    var k, v, g, beta, t := KeyOf(a, h), Part(a.v, h), a.g[h], a.beta[h], h * SV + j;
    var D := Decayed(g, S);
    var d := Correction(D, k, v, beta);
    DotScaled(g, S[j], k);
    assert t / SV == h && v[j] == a.v[t];
    assert D[j] == Scaled(g, S[j]);
    assert Read(D, k)[j] == g * Dot(S[j], k);
    assert d[j] == beta * (v[j] - Read(D, k)[j]);
    Commute(v[j] - g * Dot(S[j], k), beta);
    assert FusedDelta(a, t, S[j]) == d[j];
    var S' := DeltaRule(S, k, v, g, beta);
    forall i | 0 <= i < SV ensures FusedColumn(a, t, S[j])[i] == S'[j][i] {
      Commute(k[i], d[j]);
    }
    assert FusedColumn(a, t, S[j]) == S'[j];
    Commute(Dot(S'[j], QueryOf(a, h)), a.scale);
  }

  lemma Commute(x: real, y: real)
    ensures x * y == y * x
  {
  }

  // ---- the warp -----------------------------------------------------------------------------------

  /** First loop of a warp: each lane sums its rows, then the warp reduces. */
  method LaneDot(x: seq<real>, y: seq<real>) returns (sum: real)
    requires |x| == |y| == SV
    ensures sum == Dot(x, y)
  {
    var shards: seq<real> := [];
    for lane := 0 to LANES
      invariant |shards| == lane && forall l :: 0 <= l < lane ==> shards[l] == LaneSum(Products(x, y), l, ROWS)
    {
      var shard := 0.0;
      for r := 0 to ROWS
        invariant shard == LaneSum(Products(x, y), lane, r)
      {
        shard := shard + x[r * LANES + lane] * y[r * LANES + lane];
      }
      shards := shards + [shard];
    }
    assert shards == LaneSums(Products(x, y), ROWS);
    LanesAddUp(Products(x, y), ROWS);
    assert Products(x, y)[..ROWS * LANES] == Products(x, y);
    var v := ReduceWarp(shards);
    sum := v[0];
  }

  /** Second loop, one lane: its rows of the column and its part of the output. */
  method LaneRows(reg: array<real>, lane: nat, s: seq<real>, k: seq<real>, q: seq<real>, g: real, delta: real,
                  ghost goal: seq<real>)
    returns (shard: real)
    requires reg.Length == |s| == |k| == |q| == |goal| == SV && lane < LANES
    requires forall i :: 0 <= i < SV ==> goal[i] == g * s[i] + k[i] * delta
    modifies reg
    ensures shard == LaneSum(Products(goal, q), lane, ROWS)
    ensures forall i :: 0 <= i < SV ==> reg[i] == if i % LANES == lane then goal[i] else old(reg[i])
  {
    shard := 0.0;
    for r := 0 to ROWS
      invariant shard == LaneSum(Products(goal, q), lane, r)
      invariant forall i :: 0 <= i < SV ==> reg[i] == if i % LANES == lane && i / LANES < r then goal[i]
                else old(reg[i])
    {
      var i := r * LANES + lane;
      reg[i] := g * s[i] + k[i] * delta;
      shard := shard + reg[i] * q[i];
    }
  }

  /** All lanes. */
  method WarpRows(s: seq<real>, k: seq<real>, q: seq<real>, g: real, delta: real, ghost goal: seq<real>)
    returns (s': seq<real>, shards: seq<real>)
    requires |s| == |k| == |q| == |goal| == SV
    requires forall i :: 0 <= i < SV ==> goal[i] == g * s[i] + k[i] * delta
    ensures s' == goal && shards == LaneSums(Products(goal, q), ROWS)
  {
    hide Products;
    var reg := new real[SV](_ => 0.0);
    shards := [];
    for lane := 0 to LANES
      invariant |shards| == lane && forall l :: 0 <= l < lane ==> shards[l] == LaneSum(Products(goal, q), l, ROWS)
      invariant forall i :: 0 <= i < SV && i % LANES < lane ==> reg[i] == goal[i]
    {
      var shard := LaneRows(reg, lane, s, k, q, g, delta, goal);
      shards := shards + [shard];
    }
    s' := reg[..];
  }

  /** The whole warp, and the reduction. */
  method LaneUpdate(a: Inputs, task: nat, s: seq<real>, delta: real) returns (s': seq<real>, sum: real)
    requires Shaped(a) && task < a.nHeads * SV && |s| == SV && delta == FusedDelta(a, task, s)
    ensures s' == FusedColumn(a, task, s) && sum == Dot(s', QueryOf(a, task / SV))
  {
    var h := task / SV;
    ghost var goal := FusedColumn(a, task, s);
    assert forall i :: 0 <= i < SV ==> goal[i] == a.g[h] * s[i] + KeyOf(a, h)[i] * delta;
    hide FusedColumn; hide FusedDelta; hide Products; hide KeyOf; hide QueryOf; hide LaneSums;
    var q := QueryOf(a, h);
    var shards;
    s', shards := WarpRows(s, KeyOf(a, h), q, a.g[h], delta, goal);
    LanesAddUp(Products(goal, q), ROWS);
    assert Products(goal, q)[..ROWS * LANES] == Products(goal, q);
    var v := ReduceWarp(shards);
    sum := v[0];
  }

  /** A state buffer of one column per task. */
  function Column(state: seq<real>, task: nat): (s: seq<real>)
    requires task * SV + SV <= |state|
    ensures |s| == SV
  {
    Part(state, task)
  }

  /** Last loop: the lanes write their rows back. */
  method WriteBack(state: array<real>, task: nat, s': seq<real>)
    requires |s'| == SV && task * SV + SV <= state.Length
    modifies state
    ensures Column(state[..], task) == s'
    ensures forall t: nat :: t * SV + SV <= state.Length && t != task ==>
            Column(state[..], t) == old(Column(state[..], t))
  {
    for i := 0 to SV
      invariant forall j :: task * SV <= j < task * SV + i ==> state[j] == s'[j - task * SV]
      invariant forall j :: 0 <= j < state.Length && !(task * SV <= j < task * SV + SV) ==> state[j] == old(state[j])
    {
      state[task * SV + i] := s'[i];
    }
    assert Column(state[..], task) == s';
    forall t: nat | t * SV + SV <= state.Length && t != task ensures Column(state[..], t) == old(Column(state[..], t)) {
      assert forall i :: 0 <= i < SV ==> Column(state[..], t)[i] == state[t * SV + i] == old(state[t * SV + i]);
    }
  }

  /** The buffers of a step: states in and out, which may be one, and the outputs. */
  predicate Buffers(a: Inputs, src: array<real>, dst: array<real>, out: array<real>) {
    && src != out && dst != out && src.Length == dst.Length == a.nHeads * SV * SV && out.Length == a.nHeads * SV
  }

  /** One warp's work on one task: the column, in place if the buffers are one, and one
      output. */
  method Task(a: Inputs, src: array<real>, dst: array<real>, out: array<real>, task: nat)
    requires Shaped(a) && task < a.nHeads * SV && Buffers(a, src, dst, out)
    modifies dst, out
    ensures Column(dst[..], task) == FusedColumn(a, task, old(Column(src[..], task)))
    ensures out[..] == old(out[..])[task := FusedOut(a, task, old(Column(src[..], task)))]
    ensures forall t: nat :: t < a.nHeads * SV && t != task ==>
              Column(dst[..], t) == old(Column(dst[..], t)) && Column(src[..], t) == old(Column(src[..], t))
  {
    var h := task / SV;
    var s := Column(src[..], task);
    var kv := LaneDot(s, KeyOf(a, h));
    var delta := (a.v[task] - a.g[h] * kv) * a.beta[h];
    assert delta == FusedDelta(a, task, s);
    var s', attn := LaneUpdate(a, task, s, delta);
    assert FusedOut(a, task, s) == attn * a.scale;
    hide FusedColumn; hide FusedOut; hide FusedDelta;
    WriteBack(dst, task, s');
    out[task] := attn * a.scale;
  }

  // ---- all warps, all tasks -------------------------------------------------------------------------

  /** Column t of the state and entry t of the output as the step leaves them. */
  ghost predicate TaskDone(a: Inputs, t: nat, S: seq<real>, S': seq<real>, O': seq<real>)
    requires Shaped(a) && t < a.nHeads * SV
  {
    && |S| == |S'| == a.nHeads * SV * SV && |O'| == a.nHeads * SV
    && Column(S', t) == FusedColumn(a, t, Column(S, t)) && O'[t] == FusedOut(a, t, Column(S, t))
  }

  ghost predicate TaskOpen(a: Inputs, t: nat, S: seq<real>, S': seq<real>)
    requires Shaped(a) && t < a.nHeads * SV
  {
    |S| == |S'| == a.nHeads * SV * SV && Column(S', t) == Column(S, t)
  }

  ghost predicate Stepped(a: Inputs, S: seq<real>, S': seq<real>, O': seq<real>)
    requires Shaped(a)
  {
    forall t :: 0 <= t < a.nHeads * SV ==> TaskDone(a, t, S, S', O')
  }

  /** The warps, in whatever order they come to run. */
  predicate Permutation(order: seq<nat>, n: nat) {
    && (forall k :: 0 <= k < |order| ==> order[k] < n)
    && (forall w: nat :: w < n ==> w in order)
    && (forall j, k :: 0 <= j < k < |order| ==> order[j] != order[k])
  }

  /** One warp's loop over its tasks: every nwarps-th, from its own number on. */
  method WarpTasks(a: Inputs, src: array<real>, dst: array<real>, out: array<real>, w: nat, nwarps: nat,
                   ghost S: seq<real>)
    requires Shaped(a) && Buffers(a, src, dst, out) && |S| == src.Length && w < nwarps
    requires forall t: nat :: t < a.nHeads * SV && t % nwarps == w ==> TaskOpen(a, t, S, src[..])
    modifies dst, out
    ensures forall t: nat :: t < a.nHeads * SV && t % nwarps == w ==> TaskDone(a, t, S, dst[..], out[..])
    ensures forall t: nat :: t < a.nHeads * SV && t % nwarps != w ==>
              && Column(dst[..], t) == old(Column(dst[..], t)) && out[t] == old(out[t])
              && Column(src[..], t) == old(Column(src[..], t))
  {
    hide FusedColumn; hide FusedOut; hide Column;
    var task := w;
    DivModUnique(w, nwarps, 0, w);
    while task < a.nHeads * SV
      invariant task % nwarps == w
      invariant forall t: nat :: t < a.nHeads * SV && t % nwarps == w ==>
                  if t < task then TaskDone(a, t, S, dst[..], out[..]) else TaskOpen(a, t, S, src[..])
      invariant forall t: nat :: t < a.nHeads * SV && t % nwarps != w ==>
                  && Column(dst[..], t) == old(Column(dst[..], t)) && out[t] == old(out[t])
                  && Column(src[..], t) == old(Column(src[..], t))
    {
      ghost var S0, D0, O0 := src[..], dst[..], out[..];
      assert TaskOpen(a, task, S, S0);
      Task(a, src, dst, out, task);
      forall t: nat | t < a.nHeads * SV && t % nwarps == w
        ensures if t < task + nwarps then TaskDone(a, t, S, dst[..], out[..]) else TaskOpen(a, t, S, src[..])
      {
        NextInStride(t, task, nwarps);
        if t < task { assert TaskDone(a, t, S, D0, O0); }
        if t >= task { assert TaskOpen(a, t, S, S0); }
      }
      NextInStride(task, task, nwarps);
      task := task + nwarps;
    }
  }

  /** The op: every (head, column) task is done by exactly one warp, exactly once, from
      the state as it was, in place or into another buffer. */
  method OpGdnStep(a: Inputs, src: array<real>, dst: array<real>, out: array<real>, nwarps: nat, order: seq<nat>)
    requires Shaped(a) && Buffers(a, src, dst, out) && nwarps >= 1 && Permutation(order, nwarps)
    modifies dst, out
    ensures Stepped(a, old(src[..]), dst[..], out[..])
  {
    hide FusedColumn; hide FusedOut; hide Column;
    ghost var S := src[..];
    for k := 0 to |order|
      invariant forall t: nat :: t < a.nHeads * SV ==>
                  if t % nwarps in order[..k] then TaskDone(a, t, S, dst[..], out[..])
                      else TaskOpen(a, t, S, src[..])
    {
      assert order[k] !in order[..k];
      assert order[..k + 1] == order[..k] + [order[k]];
      WarpTasks(a, src, dst, out, order[k], nwarps, S);
    }
    assert order[..|order|] == order;
  }

  // ---- per head ---------------------------------------------------------------------------------------

  function HeadOf(S: seq<real>, h: nat): (M: Matrix)
    requires h * SV * SV + SV * SV <= |S|
    ensures |M| == SV && (forall j :: 0 <= j < SV ==> M[j] == Column(S, h * SV + j)) && Square(M)
  {
    seq(SV, j requires 0 <= j < SV => Column(S, h * SV + j))
  }

  /** Every head's state and output after the step are those of the delta rule. */
  lemma StepIsDeltaRule(a: Inputs, S: seq<real>, S': seq<real>, O': seq<real>, h: nat)
    requires Shaped(a) && h < a.nHeads && Stepped(a, S, S', O')
    ensures |S| == |S'| == a.nHeads * SV * SV && |O'| == a.nHeads * SV
    ensures HeadOf(S', h) == DeltaRule(HeadOf(S, h), KeyOf(a, h), Part(a.v, h), a.g[h], a.beta[h])
    ensures Part(O', h) == Output(HeadOf(S', h), QueryOf(a, h), a.scale)
  {
    assert TaskDone(a, h * SV, S, S', O');
    var M, M' := HeadOf(S, h), HeadOf(S', h);
    var R := DeltaRule(M, KeyOf(a, h), Part(a.v, h), a.g[h], a.beta[h]);
    forall j | 0 <= j < SV ensures M'[j] == R[j] && Part(O', h)[j] == Output(R, QueryOf(a, h), a.scale)[j] {
      assert TaskDone(a, h * SV + j, S, S', O');
      FusedIsDeltaRule(a, h, M, j);
    }
    assert M' == R;
  }

  // ---- a token sequence ------------------------------------------------------------------------------------

  ghost predicate Tokens(tokens: seq<Inputs>, n: nat) {
    forall p :: 0 <= p < |tokens| ==> Shaped(tokens[p]) && tokens[p].nHeads == n
  }

  /** Head h's state after the delta rule has been applied for each token. */
  function Recurrence(tokens: seq<Inputs>, n: nat, h: nat, S: Matrix): (S': Matrix)
    requires Tokens(tokens, n) && h < n && Square(S)
    ensures Square(S')
  {
    if tokens == [] then S
    else
      var a := tokens[|tokens| - 1];
      DeltaRule(Recurrence(tokens[..|tokens| - 1], n, h, S), KeyOf(a, h), Part(a.v, h), a.g[h], a.beta[h])
  }

  /** Output of token p for head h, given the state before the first token. */
  ghost predicate OutputAt(tokens: seq<Inputs>, n: nat, p: nat, h: nat, S: seq<real>, o: seq<real>)
    requires Tokens(tokens, n) && p < |tokens| && h < n && |S| == n * SV * SV && |o| == n * SV
  {
    Part(o, h) == Output(Recurrence(tokens[..p + 1], n, h, HeadOf(S, h)), QueryOf(tokens[p], h), tokens[p].scale)
  }

  /** The step op once per token on the same state buffer. */
  method RunTokens(tokens: seq<Inputs>, n: nat, state: array<real>, nwarps: nat, order: seq<nat>)
      returns (outs: seq<seq<real>>)
    requires Tokens(tokens, n) && state.Length == n * SV * SV && nwarps >= 1 && Permutation(order, nwarps)
    modifies state
    ensures |outs| == |tokens| && forall p :: 0 <= p < |outs| ==> |outs[p]| == n * SV
    ensures forall h: nat :: h < n ==> HeadOf(state[..], h) == Recurrence(tokens, n, h, HeadOf(old(state[..]), h))
    ensures forall p: nat, h: nat :: p < |tokens| && h < n ==> OutputAt(tokens, n, p, h, old(state[..]), outs[p])
  {
    hide Stepped; hide HeadOf; hide DeltaRule; hide Output; hide OutputAt;
    ghost var S := state[..];
    outs := [];
    var out := new real[n * SV](_ => 0.0);
    for k := 0 to |tokens|
      invariant |outs| == k && forall p :: 0 <= p < k ==> |outs[p]| == n * SV
      invariant forall h: nat :: h < n ==> HeadOf(state[..], h) == Recurrence(tokens[..k], n, h, HeadOf(S, h))
      invariant forall p: nat, h: nat :: p < k && h < n ==> OutputAt(tokens, n, p, h, S, outs[p])
    {
      ghost var S0 := state[..];
      OpGdnStep(tokens[k], state, state, out, nwarps, order);
      outs := outs + [out[..]];
      forall h: nat | h < n
        ensures HeadOf(state[..], h) == Recurrence(tokens[..k + 1], n, h, HeadOf(S, h))
                && OutputAt(tokens, n, k, h, S, outs[k])
      {
        TokenStep(tokens, n, k, h, S, S0, state[..], outs[k]);
      }
    }
    assert tokens[..|tokens|] == tokens;
  }

  lemma TokenStep(tokens: seq<Inputs>, n: nat, k: nat, h: nat, S: seq<real>, S0: seq<real>, S1: seq<real>, o: seq<real>)
    requires Tokens(tokens, n) && k < |tokens| && h < n && |S| == |S0| == |S1| == n * SV * SV && |o| == n * SV
    requires HeadOf(S0, h) == Recurrence(tokens[..k], n, h, HeadOf(S, h)) && Stepped(tokens[k], S0, S1, o)
    ensures HeadOf(S1, h) == Recurrence(tokens[..k + 1], n, h, HeadOf(S, h)) && OutputAt(tokens, n, k, h, S, o)
  {
    hide Stepped; hide HeadOf; hide DeltaRule; hide Output;
    StepIsDeltaRule(tokens[k], S0, S1, o, h);
    assert tokens[..k + 1][..k] == tokens[..k];
  }
}
