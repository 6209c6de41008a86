/** weight_slice: the bytes of one GPU's part of a weight, by the weight's name. */
module WeightSlice {
  import opened Arith
  import opened TensorSplit

  type Bytes = seq<bv8>

  /** The stored types, with the elements and bytes of one block. */
  datatype Kind = F32 | F16 | I32 | Q4_0 | Q4_0_AR16

  function BlockElems(k: Kind): (n: nat)
    ensures n > 0 && 1024 % n == 0
  {
    match k
    case Q4_0 => 32
    case Q4_0_AR16 => 16
    case _ => 1
  }

  function BlockBytes(k: Kind): (n: nat)
    ensures n > 0
  {
    match k
    case F16 => 2
    case Q4_0 => 18
    case Q4_0_AR16 => 10
    case _ => 4
  }

  datatype Tensor = Tensor(name: string, kind: Kind, ne0: nat, ne1: nat, data: Bytes)

  /** Blocks in one row. */
  function RowBlocks(t: Tensor): nat {
    DivNat(t.ne0, BlockElems(t.kind));
    t.ne0 / BlockElems(t.kind)
  }

  lemma DivNat(a: nat, b: nat)
    requires b > 0
    ensures a / b >= 0
  {
    var q, r := DivMod(a, b);
  }

  function RowBytes(t: Tensor): nat {
    MulAtLeast(RowBlocks(t), BlockBytes(t.kind));
    RowBlocks(t) * BlockBytes(t.kind)
  }

  /** What the file reader admits: whole blocks in every row. */
  predicate Valid(t: Tensor) {
    t.ne0 % BlockElems(t.kind) == 0 && |t.data| == t.ne1 * RowBytes(t)
  }

  // ---- which weights are split how -----------------------------------------------------------

  predicate NameEnds(name: string, suffix: string) {
    |name| >= |suffix| && name[|name| - |suffix|..] == suffix
  }

  /** dim 0: not strided; 1: rows, 2: input columns, 3: the flat vector. */
  datatype Stride = Stride(dim: nat, period: nat)

  function DnStride(name: string): (d: Stride)
    ensures d.dim == 0 || (d.dim <= 3 && (d.period == 2048 || d.period == 16))
    ensures d.dim == 2 ==> d.period == 2048
  {
    if NameEnds(name, ".attn_qkv.weight") then Stride(1, 2048)
    else if NameEnds(name, ".ssm_conv1d.weight") then Stride(1, 2048)
    else if NameEnds(name, ".attn_gate.weight") then Stride(1, 2048)
    else if NameEnds(name, ".ssm_alpha.weight") then Stride(1, 16)
    else if NameEnds(name, ".ssm_beta.weight") then Stride(1, 16)
    else if NameEnds(name, ".ssm_a") then Stride(3, 16)
    else if NameEnds(name, ".ssm_dt.bias") then Stride(3, 16)
    else if NameEnds(name, ".ssm_out.weight") then Stride(2, 2048)
    else Stride(0, 0)
  }

  /** Which name gets which stride.  No two of the eight suffixes can end the same
      name, so the order of the tests does not matter. */
  lemma StrideTable(name: string)
    ensures DnStride(name) == Stride(1, 2048) <==>
              || NameEnds(name, ".attn_qkv.weight") || NameEnds(name, ".ssm_conv1d.weight")
              || NameEnds(name, ".attn_gate.weight")
    ensures DnStride(name) == Stride(1, 16) <==>
              NameEnds(name, ".ssm_alpha.weight") || NameEnds(name, ".ssm_beta.weight")
    ensures DnStride(name) == Stride(3, 16) <==> NameEnds(name, ".ssm_a") || NameEnds(name, ".ssm_dt.bias")
    ensures DnStride(name) == Stride(2, 2048) <==> NameEnds(name, ".ssm_out.weight")
  {
    hide NameEnds;
    Distinct(name, ".ssm_alpha.weight", ".attn_qkv.weight", 8);
    Distinct(name, ".ssm_alpha.weight", ".ssm_conv1d.weight", 8);
    Distinct(name, ".ssm_alpha.weight", ".attn_gate.weight", 8);
    Distinct(name, ".ssm_beta.weight", ".attn_qkv.weight", 8);
    Distinct(name, ".ssm_beta.weight", ".ssm_conv1d.weight", 8);
    Distinct(name, ".ssm_beta.weight", ".attn_gate.weight", 8);
    Distinct(name, ".ssm_out.weight", ".attn_qkv.weight", 8);
    Distinct(name, ".ssm_out.weight", ".ssm_conv1d.weight", 8);
    Distinct(name, ".ssm_out.weight", ".attn_gate.weight", 8);
    Distinct(name, ".ssm_out.weight", ".ssm_alpha.weight", 8);
    Distinct(name, ".ssm_out.weight", ".ssm_beta.weight", 8);
    NotWeight(name, ".ssm_a");
    NotWeight(name, ".ssm_dt.bias");
  }

  /** Two suffixes that differ in the i-th character from the end. */
  lemma Distinct(name: string, s: string, s': string, i: nat)
    requires 1 <= i <= |s| && i <= |s'| && s[|s| - i] != s'[|s'| - i]
    ensures !(NameEnds(name, s) && NameEnds(name, s'))
  {
    FromTheEnd(name, s, i);
    FromTheEnd(name, s', i);
  }

  lemma FromTheEnd(name: string, s: string, i: nat)
    requires 1 <= i <= |s|
    ensures NameEnds(name, s) ==> |name| >= i && name[|name| - i] == s[|s| - i]
  {
    if NameEnds(name, s) { assert name[|name| - |s|..][|s| - i] == name[|name| - i]; }
  }

  lemma NotWeight(name: string, s: string)
    requires |s| >= 2 && s[|s| - 1] != 't'
    ensures NameEnds(name, s) ==>
              && !NameEnds(name, ".attn_qkv.weight") && !NameEnds(name, ".ssm_conv1d.weight")
              && !NameEnds(name, ".attn_gate.weight") && !NameEnds(name, ".ssm_alpha.weight")
              && !NameEnds(name, ".ssm_beta.weight") && !NameEnds(name, ".ssm_out.weight")
  {
    hide NameEnds;
    Distinct(name, s, ".attn_qkv.weight", 1);
    Distinct(name, s, ".ssm_conv1d.weight", 1);
    Distinct(name, s, ".attn_gate.weight", 1);
    Distinct(name, s, ".ssm_alpha.weight", 1);
    Distinct(name, s, ".ssm_beta.weight", 1);
    Distinct(name, s, ".ssm_out.weight", 1);
  }

  datatype Axis = Mirror | Row | Col

  function WeightAxis(name: string): Axis {
    if name == "token_embd.weight" || name == "output_norm.weight" || NameEnds(name, ".attn_norm.weight")
       || NameEnds(name, ".post_attention_norm.weight") || NameEnds(name, ".attn_q_norm.weight")
       || NameEnds(name, ".attn_k_norm.weight") || NameEnds(name, ".ssm_norm.weight") then Mirror
    else if NameEnds(name, ".attn_output.weight") || NameEnds(name, ".ffn_down.weight") then Col
    else if NameEnds(name, ".attn_q.weight") || NameEnds(name, ".attn_k.weight") || NameEnds(name, ".attn_v.weight")
            || NameEnds(name, ".ffn_gate.weight") || NameEnds(name, ".ffn_up.weight")
            || name == "output.weight" then Row
    else Mirror
  }

  // ---- the copying loops ------------------------------------------------------------------------

  /** Which name is on which axis, whatever the order of the tests: the eighth
      character from the end tells the mirrored names from the others. */
  predicate ColumnName(name: string) {
    NameEnds(name, ".attn_output.weight") || NameEnds(name, ".ffn_down.weight")
  }

  predicate RowName(name: string) {
    || NameEnds(name, ".attn_q.weight") || NameEnds(name, ".attn_k.weight") || NameEnds(name, ".attn_v.weight")
    || NameEnds(name, ".ffn_gate.weight") || NameEnds(name, ".ffn_up.weight") || name == "output.weight"
  }

  lemma AxisTable(name: string)
    ensures WeightAxis(name) == Col <==> ColumnName(name)
    ensures WeightAxis(name) == Row <==> RowName(name)
    ensures WeightAxis(name) == Mirror <==> !ColumnName(name) && !RowName(name)
  {
    hide NameEnds;
    ColumnLetter(name);
    RowLetter(name);
    MirrorLetter(name);
  }

  predicate Eighth(name: string, c: char) {
    |name| >= 8 && name[|name| - 8] == c
  }

  lemma EndsLetter(name: string, s: string, c: char)
    requires |s| >= 8 && s[|s| - 8] == c
    ensures NameEnds(name, s) ==> |name| >= |s| && Eighth(name, c)
  {
    FromTheEnd(name, s, 8);
  }

  lemma ColumnLetter(name: string)
    ensures NameEnds(name, ".attn_output.weight") ==> Eighth(name, 't') && |name| > 13
    ensures NameEnds(name, ".ffn_down.weight") ==> Eighth(name, 'n')
  {
    hide NameEnds; hide Eighth;
    EndsLetter(name, ".attn_output.weight", 't');
    EndsLetter(name, ".ffn_down.weight", 'n');
  }

  lemma RowLetter(name: string)
    ensures NameEnds(name, ".attn_q.weight") ==> Eighth(name, 'q')
    ensures NameEnds(name, ".attn_k.weight") ==> Eighth(name, 'k')
    ensures NameEnds(name, ".attn_v.weight") ==> Eighth(name, 'v')
    ensures NameEnds(name, ".ffn_gate.weight") ==> Eighth(name, 'e')
    ensures NameEnds(name, ".ffn_up.weight") ==> Eighth(name, 'p')
    ensures name == "output.weight" ==> Eighth(name, 't') && |name| == 13
  {
    hide NameEnds;
    EndsLetter(name, ".attn_q.weight", 'q');
    EndsLetter(name, ".attn_k.weight", 'k');
    EndsLetter(name, ".attn_v.weight", 'v');
    EndsLetter(name, ".ffn_gate.weight", 'e');
    EndsLetter(name, ".ffn_up.weight", 'p');
  }

  lemma MirrorLetter(name: string)
    ensures name == "token_embd.weight" ==> Eighth(name, 'd')
    ensures name == "output_norm.weight" ==> Eighth(name, 'm')
    ensures NameEnds(name, ".attn_norm.weight") ==> Eighth(name, 'm')
    ensures NameEnds(name, ".post_attention_norm.weight") ==> Eighth(name, 'm')
    ensures NameEnds(name, ".attn_q_norm.weight") ==> Eighth(name, 'm')
    ensures NameEnds(name, ".attn_k_norm.weight") ==> Eighth(name, 'm')
    ensures NameEnds(name, ".ssm_norm.weight") ==> Eighth(name, 'm')
  {
    hide NameEnds;
    EndsLetter(name, ".attn_norm.weight", 'm');
    EndsLetter(name, ".post_attention_norm.weight", 'm');
    EndsLetter(name, ".attn_q_norm.weight", 'm');
    EndsLetter(name, ".attn_k_norm.weight", 'm');
    EndsLetter(name, ".ssm_norm.weight", 'm');
  }

  /** No strided name is one of these. */
  lemma StridedElsewhere(name: string)
    requires DnStride(name).dim != 0
    ensures !ColumnName(name) && !RowName(name)
  {
    hide NameEnds;
    ColumnLetter(name);
    RowLetter(name);
    StridedLetter(name);
    NotWeight(name, ".ssm_a");
    NotWeight(name, ".ssm_dt.bias");
    NotOthers(name, ".ssm_a");
    NotOthers(name, ".ssm_dt.bias");
    Distinct(name, ".attn_v.weight", ".attn_qkv.weight", 9);
    Distinct(name, ".ffn_gate.weight", ".attn_gate.weight", 14);
    Distinct(name, ".attn_output.weight", ".ssm_out.weight", 10);
  }

  lemma StridedLetter(name: string)
    ensures NameEnds(name, ".attn_qkv.weight") ==> Eighth(name, 'v')
    ensures NameEnds(name, ".ssm_conv1d.weight") ==> Eighth(name, 'd')
    ensures NameEnds(name, ".attn_gate.weight") ==> Eighth(name, 'e')
    ensures NameEnds(name, ".ssm_alpha.weight") || NameEnds(name, ".ssm_beta.weight") ==> Eighth(name, 'a')
    ensures NameEnds(name, ".ssm_out.weight") ==> Eighth(name, 't') && |name| > 13
  {
    hide NameEnds; hide Eighth;
    EndsLetter(name, ".attn_qkv.weight", 'v');
    EndsLetter(name, ".ssm_conv1d.weight", 'd');
    EndsLetter(name, ".attn_gate.weight", 'e');
    EndsLetter(name, ".ssm_alpha.weight", 'a');
    EndsLetter(name, ".ssm_beta.weight", 'a');
    EndsLetter(name, ".ssm_out.weight", 't');
  }

  lemma NotOthers(name: string, s: string)
    requires |s| >= 2 && s[|s| - 1] != 't'
    ensures NameEnds(name, s) ==> !ColumnName(name) && !RowName(name)
  {
    hide NameEnds;
    Distinct(name, s, ".attn_output.weight", 1);
    Distinct(name, s, ".ffn_down.weight", 1);
    Distinct(name, s, ".attn_q.weight", 1);
    Distinct(name, s, ".attn_k.weight", 1);
    Distinct(name, s, ".attn_v.weight", 1);
    Distinct(name, s, ".ffn_gate.weight", 1);
    Distinct(name, s, ".ffn_up.weight", 1);
    FromTheEnd(name, s, 1);
  }

  lemma HalfOfProduct(period: nat, u: nat)
    requires period % 2 == 0
    ensures (period * u) / 2 == (period / 2) * u && (period / 2) * u >= 0 && period * u >= 0
  {
    MulAtLeast(period / 2, u);
    assert period * u == 2 * ((period / 2) * u);
  }

  /** One more whole period on the right. */
  lemma SliceSnoc<T>(z: seq<T>, P: nat, g: nat, b: nat)
    requires g < 2 && P > 0 && b * P + P <= |z|
    ensures 0 <= b * P <= b * P + Offset(g, P) + P / 2 <= |z| && (b + 1) * P == b * P + P
    ensures Slice(z[..(b + 1) * P], P, g) == Slice(z[..b * P], P, g)
            + z[b * P + Offset(g, P)..b * P + Offset(g, P) + P / 2]
  {
    MulAtLeast(b, P);
    Peel(b + 1, P);
    SnocAt(z, P, g, b, b * P);
  }

  lemma SnocAt<T>(z: seq<T>, P: nat, g: nat, b: nat, at: nat)
    requires g < 2 && P > 0 && at == b * P && at + P <= |z|
    ensures 0 <= Offset(g, P) <= Offset(g, P) + P / 2 <= P
    ensures Slice(z[..at + P], P, g) == Slice(z[..at], P, g) + z[at + Offset(g, P)..at + Offset(g, P) + P / 2]
  {
    var a, c := z[..at], z[at..at + P];
    OnePeriod(c, P, g);
    SliceConcat(a, c, P, g, b);
    hide Slice; hide Offset;
    assert z[..at + P] == a + c;
    Within(z, at, P, Offset(g, P), P / 2);
  }

  lemma Within<T>(z: seq<T>, at: nat, n: nat, o: nat, h: nat)
    requires at + n <= |z| && o + h <= n
    ensures z[at..at + n][o..o + h] == z[at + o..at + o + h]
  {
    var c, d := z[at..at + n], z[at + o..at + o + h];
    assert forall k :: 0 <= k < h ==> c[o + k] == d[k];
    assert c[o..o + h] == d;
  }

  lemma OnePeriod<T>(c: seq<T>, P: nat, g: nat)
    requires g < 2 && P > 0 && |c| == P
    ensures 0 <= Offset(g, P) <= Offset(g, P) + P / 2 <= P
    ensures Slice(c, P, g) == c[Offset(g, P)..Offset(g, P) + P / 2]
  {
    SliceCons(c, P, g);
    assert Slice(c[P..], P, g) == [];
  }

  /** What is left behind the last whole period is dropped. */
  lemma SliceRest<T>(z: seq<T>, P: nat, g: nat, b: nat)
    requires g < 2 && P > 0 && b * P <= |z| < b * P + P
    ensures b * P >= 0 && Slice(z, P, g) == Slice(z[..b * P], P, g)
  {
    MulAtLeast(b, P);
    var a, c := z[..b * P], z[b * P..];
    assert z == a + c;
    SliceConcat(a, c, P, g, b);
    assert Slice(c, P, g) == [];
  }

  /** The bytes that the loop over the period blocks of n units of u bytes touches. */
  function Reached(n: nat, u: nat, period: nat): nat
    requires period > 0
  {
    DivNat(n, period);
    MulAtLeast(period, u);
    MulAtLeast(n / period, period * u);
    (n / period) * (period * u)
  }

  /** The loop over the period blocks of a dimension of n units of u bytes each. */
  lemma ReachedBlocks(n: nat, u: nat, period: nat, nblk: nat, rest: nat)
    requires period > 0 && n == nblk * period + rest && rest < period
    ensures 0 <= 0 * (period * u) && Reached(n, u, period) == nblk * (period * u)
  {
    DivModUnique(n, period, nblk, rest);
  }

  method StridedCopy(data: Bytes, n: nat, u: nat, period: nat, g: nat) returns (stage: Bytes)
    requires g < 2 && period > 0 && period % 2 == 0 && Reached(n, u, period) <= |data|
    ensures u == 0 ==> stage == []
    ensures u > 0 ==> period * u > 0 && stage == Slice(data[..Reached(n, u, period)], period * u, g)
  {
    var nblk, rest := Quotient(n, period);
    var half := period / 2;
    ghost var P: int := period * u;
    HalfOfProduct(period, u);
    if u > 0 { MulLower(period, u); }
    stage := [];
    var b := 0;
    assert u > 0 ==> Slice(data[..0], P, g) == [];
    ReachedBlocks(n, u, period, nblk, rest);
    hide Slice; hide Reached;
    while b < nblk
      invariant b <= nblk && 0 <= b * P <= |data|
      invariant u == 0 ==> stage == []
      invariant u > 0 ==> stage == Slice(data[..b * P], P, g)
    {
      var off, run := (b * period + g * half) * u, half * u;
      StridedStep(data, b, nblk, period, g, u, P, half, off, run);
      stage := stage + data[off..off + run];
      b := b + 1;
    }
  }

  lemma StridedStep(data: Bytes, b: nat, nblk: nat, period: nat, g: nat, u: nat, P: int, half: nat, off: int, run: int)
    requires g < 2 && period > 0 && period % 2 == 0 && b < nblk && P == period * u && nblk * P <= |data|
    requires half == period / 2 && off == (b * period + g * half) * u && run == half * u && 0 <= b * P
    ensures 0 <= off <= off + run <= |data| && (u == 0 ==> run == 0)
    ensures 0 <= (b + 1) * P == b * P + P <= |data|
    ensures u > 0 ==> P > 0 && Slice(data[..(b + 1) * P], P, g) == Slice(data[..b * P], P, g) + data[off..off + run]
  {
    hide Slice;
    if u == 0 {
      assert off == 0 && run == 0 && P == 0;
    } else {
      MulLower(period, u);
      StridedAt(b, nblk, period, g, u, |data|);
      SliceSnoc(data, P, g, b);
    }
  }

  /** Row split of the strided kind. */
  method RowsStrided(t: Tensor, period: nat, g: nat) returns (stage: Bytes)
    requires Valid(t) && g < 2 && period > 0 && period % 2 == 0
    ensures t.data == [] ==> stage == []
    ensures t.data != [] ==> period * RowBytes(t) > 0 && stage == Slice(t.data, period * RowBytes(t), g)
  {
    var rb := RowBytes(t);
    hide RowBytes; hide RowBlocks; hide Slice;
    WholePeriods(t.data, t.ne1, rb, period, g);
    stage := StridedCopy(t.data, t.ne1, rb, period, g);
  }

  lemma WholePeriods(data: Bytes, n: nat, u: nat, period: nat, g: nat)
    requires g < 2 && period > 0 && |data| == n * u
    ensures Reached(n, u, period) <= |data|
    ensures u > 0 ==>
              period * u > 0 && Slice(data, period * u, g) == Slice(data[..Reached(n, u, period)], period * u, g)
    ensures u > 0 && data == [] ==> Slice(data, period * u, g) == []
    ensures u == 0 ==> data == []
  {
    if u > 0 {
      var nblk, rest := DivMod(n, period);
      MulLower(period, u);
      BlocksFit(n, u, period, nblk, rest);
      SliceRest(data, period * u, g, nblk);
    }
  }

  method Quotient(n: nat, m: nat) returns (q: nat, r: nat)
    requires m > 0
    ensures n == q * m + r && r < m && q == n / m
  {
    ghost var q', r' := DivMod(n, m);
    q, r := n / m, n % m;
  }

  lemma BlocksFit(n: nat, u: nat, period: nat, nblk: nat, rest: nat)
    requires n == nblk * period + rest && rest < period && u > 0
    ensures 0 <= nblk * (period * u) <= n * u < nblk * (period * u) + period * u
  {
    MulAtLeast(period, u);
    MulAtLeast(nblk, period * u);
    assert n * u == nblk * (period * u) + rest * u;
    MulGap(period, rest, u);
    MulAtLeast(rest, u);
  }

  /** The byte offset of the code is the one of the slice. */
  lemma StridedAt(b: nat, nblk: nat, period: nat, g: nat, u: nat, size: nat)
    requires g < 2 && period > 0 && period % 2 == 0 && u > 0 && b < nblk && nblk * (period * u) <= size
    ensures var P := period * u;
            && P >= 0 && (b * period + g * (period / 2)) * u == b * P + g * ((period / 2) * u) >= 0
            && b * P + P <= size && P / 2 == (period / 2) * u && Offset(g, P) == g * ((period / 2) * u)
  {
    HalfOfProduct(period, u);
    MulAtLeast(b, period * u);
    MulGap(nblk, b, period * u);
    assert (b * period + g * (period / 2)) * u == b * (period * u) + g * ((period / 2) * u);
  }

  /** Every row of rb bytes sliced with period P. */
  function EachRow(data: Bytes, rb: nat, P: nat, g: nat): Bytes
    requires g < 2 && (rb > 0 ==> P > 0)
    decreases |data|
  {
    if rb == 0 || |data| < rb then [] else Slice(data[..rb], P, g) + EachRow(data[rb..], rb, P, g)
  }

  lemma {:induction false} EachRowSnoc(data: Bytes, rb: nat, P: nat, g: nat, r: nat)
    requires g < 2 && P > 0 && rb > 0 && r * rb + rb <= |data|
    ensures 0 <= r * rb && (r + 1) * rb == r * rb + rb
    ensures EachRow(data[..(r + 1) * rb], rb, P, g)
            == EachRow(data[..r * rb], rb, P, g) + Slice(data[r * rb..r * rb + rb], P, g)
    decreases r
  {
    hide Slice;
    MulAtLeast(r, rb);
    Peel(r + 1, rb);
    if r == 0 {
      assert data[..rb][rb..] == [] && data[..rb][..rb] == data[..rb] == data[0..rb];
      assert EachRow([], rb, P, g) == [];
    } else {
      Peel(r, rb);
      var d := data[rb..];
      EachRowSnoc(d, rb, P, g, r - 1);
      assert data[..(r + 1) * rb][rb..] == d[..r * rb] && data[..r * rb][rb..] == d[..(r - 1) * rb];
      assert data[..(r + 1) * rb][..rb] == data[..rb] == data[..r * rb][..rb];
      assert d[(r - 1) * rb..(r - 1) * rb + rb] == data[r * rb..r * rb + rb];
    }
  }

  /** Within one row: the code's byte offset of column block b. */
  lemma ColumnAt(b: nat, g: nat, be: nat, pu: nat)
    requires g < 2 && be > 0 && pu % 2 == 0
    ensures be * pu >= 0 && (b * (be * pu) + g * ((be * pu) / 2)) / be == b * pu + g * (pu / 2) >= 0
    ensures ((be * pu) / 2) / be == pu / 2
  {
    var hu := pu / 2;
    MulAtLeast(be, pu);
    MulAtLeast(b, pu);
    assert be * pu == 2 * (be * hu);
    DivModUnique(hu * be, be, hu, 0);
    var q: nat := b * pu + g * hu;
    assert b * (be * pu) + g * (be * hu) == q * be;
    DivModUnique(q * be, be, q, 0);
  }

  /** One column block of the loop, at the code's own byte offset and run length,
      extends the slice. */
  lemma ColumnStep(row: Bytes, nblk: nat, u: nat, be: nat, pu: nat, g: nat, b: nat, P: nat, period: nat, half: nat,
                   off: int, run: int)
    requires g < 2 && u > 0 && be > 0 && pu > 0 && pu % 2 == 0 && b < nblk && P == pu * u && P > 0 && nblk * P <= |row|
    requires period == be * pu && half == period / 2
    requires off == ((b * period + g * half) / be) * u && run == (half / be) * u
    ensures 0 <= b * P && (b + 1) * P == b * P + P <= |row| && 0 <= off <= off + run <= |row|
    ensures Slice(row[..(b + 1) * P], P, g) == Slice(row[..b * P], P, g) + row[off..off + run]
  {
    hide Slice;
    ColumnAt(b, g, be, pu);
    StridedAt(b, nblk, pu, g, u, |row|);
    SliceSnoc(row, P, g, b);
  }

  /** The column-block loop of one row of `units` blocks of u bytes; the period is
      be * pu columns. */
  method ColumnRow(row: Bytes, units: nat, u: nat, be: nat, pu: nat, g: nat) returns (stage: Bytes)
    requires g < 2 && u > 0 && be > 0 && pu > 0 && pu % 2 == 0 && |row| == units * u
    ensures pu * u > 0 && stage == Slice(row, pu * u, g)
  {
    var nblk, rest := Quotient(units, pu);
    ghost var P: nat := pu * u;
    HalfOfProduct(pu, u);
    assert P >= u by { MulLower(pu, u); }
    BlocksFit(units, u, pu, nblk, rest);
    MulAtLeast(be, pu);
    var period: nat := be * pu;
    var half := period / 2;
    stage := [];
    var b := 0;
    assert Slice(row[..0], P, g) == [];
    hide Slice;
    while b < nblk
      invariant b <= nblk && 0 <= b * P <= |row|
      invariant stage == Slice(row[..b * P], P, g)
    {
      var off, run := ((b * period + g * half) / be) * u, (half / be) * u;
      ColumnStep(row, nblk, u, be, pu, g, b, P, period, half, off, run);
      stage := stage + row[off..off + run];
      b := b + 1;
    }
    SliceRest(row, P, g, nblk);
  }

  /** Column split of the strided kind: all rows. */
  method ColumnStrided(t: Tensor, pu: nat, g: nat) returns (stage: Bytes)
    requires Valid(t) && g < 2 && pu > 0 && pu % 2 == 0
    ensures pu * BlockBytes(t.kind) > 0
    ensures stage == EachRow(t.data, RowBytes(t), pu * BlockBytes(t.kind), g)
  {
    var rb, u, be := RowBytes(t), BlockBytes(t.kind), BlockElems(t.kind);
    MulLower(pu, u);
    ghost var P: nat := pu * u;
    var units, rest := Quotient(t.ne0, be);
    assert rb == units * u;
    stage := [];
    NoRows(rb, P, g);
    hide RowBytes; hide EachRow; hide Slice;
    var r := 0;
    while r < t.ne1
      invariant r <= t.ne1 && 0 <= r * rb <= |t.data|
      invariant stage == EachRow(t.data[..r * rb], rb, P, g)
    {
      RowFits(r, t.ne1, rb);
      RowsSnoc(t.data, rb, P, g, r);
      var part := ColumnRow(t.data[r * rb..r * rb + rb], units, u, be, pu, g);
      stage := stage + part;
      r := r + 1;
    }
    assert t.data[..r * rb] == t.data;
  }

  /** EachRowSnoc, rows of no bytes included. */
  lemma RowsSnoc(data: Bytes, rb: nat, P: nat, g: nat, r: nat)
    requires g < 2 && P > 0 && 0 <= r * rb <= r * rb + rb <= |data|
    ensures 0 <= r * rb && (r + 1) * rb == r * rb + rb
    ensures EachRow(data[..(r + 1) * rb], rb, P, g)
            == EachRow(data[..r * rb], rb, P, g) + Slice(data[r * rb..r * rb + rb], P, g)
  {
    if rb > 0 { EachRowSnoc(data, rb, P, g, r); }
  }

  lemma RowFits(r: nat, M: nat, rb: nat)
    requires r < M
    ensures r * rb >= 0 && r * rb + rb <= M * rb && (r + 1) * rb == r * rb + rb
  {
    MulAtLeast(r, rb);
    MulGap(M, r, rb);
    Peel(r + 1, rb);
  }

  /** Column split of the contiguous kind: this GPU's half of every row. */
  method ColumnHalves(t: Tensor, g: nat) returns (stage: Bytes)
    requires Valid(t) && g < 2
    ensures stage == EachRow(t.data, RowBytes(t), RowBytes(t), g)
  {
    var rb := RowBytes(t);
    var half := rb / 2;
    stage := [];
    NoRows(rb, rb, g);
    hide RowBytes; hide EachRow; hide Slice;
    var r := 0;
    while r < t.ne1
      invariant r <= t.ne1 && 0 <= r * rb <= |t.data|
      invariant stage == EachRow(t.data[..r * rb], rb, rb, g)
    {
      HalfRowStep(t.data, rb, t.ne1, g, r);
      stage := stage + t.data[r * rb + g * half..r * rb + g * half + half];
      r := r + 1;
    }
    assert t.data[..r * rb] == t.data;
  }

  /** A row that is one period. */
  lemma WholeRow(row: Bytes, g: nat)
    requires g < 2 && |row| > 0
    ensures Slice(row, |row|, g) == row[g * (|row| / 2)..g * (|row| / 2) + |row| / 2]
  {
    OnePeriod(row, |row|, g);
  }

  lemma HalfRowStep(data: Bytes, rb: nat, M: nat, g: nat, r: nat)
    requires g < 2 && |data| == M * rb && r < M
    ensures 0 <= r * rb <= (r + 1) * rb <= |data|
    ensures 0 <= r * rb + g * (rb / 2) <= r * rb + g * (rb / 2) + rb / 2 <= |data|
    ensures EachRow(data[..(r + 1) * rb], rb, rb, g)
         == EachRow(data[..r * rb], rb, rb, g) + data[r * rb + g * (rb / 2)..r * rb + g * (rb / 2) + rb / 2]
  {
    RowFits(r, M, rb);
    if rb == 0 {
      assert data == [];
    } else {
      HalfBytesStep(data, rb, g, r, r * rb);
    }
  }

  lemma HalfBytesStep(data: Bytes, rb: nat, g: nat, r: nat, at: nat)
    requires g < 2 && rb > 0 && at == r * rb && (r + 1) * rb == at + rb <= |data|
    ensures at + g * (rb / 2) <= at + g * (rb / 2) + rb / 2 <= |data|
    ensures EachRow(data[..(r + 1) * rb], rb, rb, g)
            == EachRow(data[..at], rb, rb, g) + data[at + g * (rb / 2)..at + g * (rb / 2) + rb / 2]
  {
    hide EachRow; hide Slice;
    EachRowSnoc(data, rb, rb, g, r);
    HalfRow(data, at, rb, g);
  }

  lemma HalfRow(data: Bytes, at: nat, rb: nat, g: nat)
    requires g < 2 && rb > 0 && at + rb <= |data|
    ensures 0 <= g * (rb / 2) && g * (rb / 2) + rb / 2 <= rb
    ensures Slice(data[at..at + rb], rb, g) == data[at + g * (rb / 2)..at + g * (rb / 2) + rb / 2]
  {
    OnePeriod(data[at..at + rb], rb, g);
    Within(data, at, rb, Offset(g, rb), rb / 2);
  }

  /** The bytes of one period of the split, by the weight's name: a group of rows, of
      scalars, of a row's blocks, all rows, or a whole row. */
  function PeriodBytes(t: Tensor): (P: nat)
    requires Valid(t)
    ensures t.data != [] ==> P > 0
  {
    var d := DnStride(t.name);
    PeriodPositive(t);
    if d.dim == 1 then d.period * RowBytes(t)
    else if d.dim == 3 then d.period * BlockBytes(t.kind)
    else if d.dim == 2 then (d.period / BlockElems(t.kind)) * BlockBytes(t.kind)
    else match WeightAxis(t.name)
      case Mirror => |t.data|
      case Row => |t.data|
      case Col => RowBytes(t)
  }

  lemma Factor(n: nat, x: nat)
    requires n * x != 0
    ensures x > 0
  {
  }

  lemma NoRows(rb: nat, P: nat, g: nat)
    requires g < 2 && (rb > 0 ==> P > 0)
    ensures EachRow([], rb, P, g) == []
  {
  }

  lemma PeriodPositive(t: Tensor)
    requires Valid(t)
    ensures var d := DnStride(t.name);
            && (d.dim == 1 ==> d.period * RowBytes(t) >= 0 && (t.data != [] ==> d.period * RowBytes(t) > 0))
            && (d.dim == 3 ==> d.period * BlockBytes(t.kind) > 0)
            && (d.dim == 2 ==> (d.period / BlockElems(t.kind)) * BlockBytes(t.kind) > 0)
    ensures t.data != [] ==> RowBytes(t) > 0
  {
    var d := DnStride(t.name);
    hide DnStride; hide RowBytes; hide RowBlocks; hide BlockElems; hide BlockBytes;
    MulAtLeast(d.period, RowBytes(t));
    if t.data != [] { Factor(t.ne1, RowBytes(t)); }
    if d.dim != 0 {
      MulLower(d.period, RowBytes(t));
      MulLower(d.period, BlockBytes(t.kind));
    }
    if d.dim == 2 {
      PeriodBlocks(BlockElems(t.kind));
      MulLower(2048 / BlockElems(t.kind), BlockBytes(t.kind));
    }
  }

  /** What one GPU's part of a weight is, by its name.  Units behind the last whole
      period, and what an odd half leaves over, are in neither part. */
  function Part(t: Tensor, g: nat): Bytes
    requires Splits(t) && g < 2
  {
    var d, P := DnStride(t.name), PeriodBytes(t);
    if t.data == [] then []
    else if d.dim == 1 then Slice(t.data, P, g)
    else if d.dim == 3 then Slice(t.data[..Reached(t.ne0, BlockBytes(t.kind), d.period)], P, g)
    else if d.dim == 2 then EachRow(t.data, RowBytes(t), P, g)
    else match WeightAxis(t.name)
      case Mirror => t.data
      case Row => Slice(t.data, P, g)
      case Col => EachRow(t.data, RowBytes(t), P, g)
  }

  lemma StridedPart(t: Tensor, g: nat)
    requires Splits(t) && g < 2 && t.data != [] && DnStride(t.name).dim != 0
    ensures var d, P := DnStride(t.name), PeriodBytes(t);
            && P > 0
            && (d.dim == 1 ==> P == d.period * RowBytes(t) && Part(t, g) == Slice(t.data, P, g))
            && (d.dim == 2 ==> P == (2048 / BlockElems(t.kind)) * BlockBytes(t.kind)
                               && Part(t, g) == EachRow(t.data, RowBytes(t), P, g))
            && (d.dim == 3 ==> P == d.period * BlockBytes(t.kind)
                               && Part(t, g) == Slice(t.data[..Reached(t.ne0, BlockBytes(t.kind), d.period)], P, g))
  {
  }

  lemma PlainPart(t: Tensor, g: nat)
    requires Splits(t) && g < 2 && t.data != [] && DnStride(t.name).dim == 0
    ensures var a, P := WeightAxis(t.name), PeriodBytes(t);
            && P > 0
            && (a.Mirror? ==> Part(t, g) == t.data)
            && (a.Row? ==> P == |t.data| && Part(t, g) == Slice(t.data, P, g))
            && (a.Col? ==> P == RowBytes(t) && Part(t, g) == EachRow(t.data, RowBytes(t), P, g))
  {
  }

  predicate ChannelRows(name: string) {
    || NameEnds(name, ".attn_qkv.weight") || NameEnds(name, ".ssm_conv1d.weight")
    || NameEnds(name, ".attn_gate.weight")
  }

  predicate HeadRows(name: string) {
    NameEnds(name, ".ssm_alpha.weight") || NameEnds(name, ".ssm_beta.weight")
  }

  predicate HeadScalars(name: string) {
    NameEnds(name, ".ssm_a") || NameEnds(name, ".ssm_dt.bias")
  }

  predicate Divided(name: string) {
    || ChannelRows(name) || HeadRows(name) || HeadScalars(name) || NameEnds(name, ".ssm_out.weight")
    || ColumnName(name) || RowName(name)
  }

  /** The part of a weight by its name alone: rows by periods of 2048 or of 16, scalars
      by periods of 16, columns by periods of 2048, halves of each row, halves of the
      rows, or everything. */
  lemma PartByName(t: Tensor, g: nat)
    requires Splits(t) && g < 2 && t.data != []
    ensures PeriodBytes(t) > 0
    ensures ChannelRows(t.name) ==>
              PeriodBytes(t) == 2048 * RowBytes(t) && Part(t, g) == Slice(t.data, PeriodBytes(t), g)
    ensures HeadRows(t.name) ==> PeriodBytes(t) == 16 * RowBytes(t) && Part(t, g) == Slice(t.data, PeriodBytes(t), g)
    ensures HeadScalars(t.name) ==>
              && PeriodBytes(t) == 16 * BlockBytes(t.kind) && Reached(t.ne0, BlockBytes(t.kind), 16) <= |t.data|
              && Part(t, g) == Slice(t.data[..Reached(t.ne0, BlockBytes(t.kind), 16)], PeriodBytes(t), g)
    ensures NameEnds(t.name, ".ssm_out.weight") ==>
              && PeriodBytes(t) == (2048 / BlockElems(t.kind)) * BlockBytes(t.kind)
              && Part(t, g) == EachRow(t.data, RowBytes(t), PeriodBytes(t), g)
    ensures ColumnName(t.name) ==>
              PeriodBytes(t) == RowBytes(t) && Part(t, g) == EachRow(t.data, RowBytes(t), PeriodBytes(t), g)
    ensures RowName(t.name) ==> PeriodBytes(t) == |t.data| && Part(t, g) == Slice(t.data, PeriodBytes(t), g)
    ensures Divided(t.name) || Part(t, g) == t.data
  {
    var d := DnStride(t.name);
    StrideTable(t.name);
    AxisTable(t.name);
    if d.dim != 0 {
      StridedElsewhere(t.name);
      StridedPart(t, g);
    } else {
      PlainPart(t, g);
    }
    OneStride(t.name);
    hide NameEnds; hide DnStride; hide WeightAxis; hide PeriodBytes; hide Part; hide RowBytes; hide BlockElems;
    hide BlockBytes; hide Reached; hide ColumnName; hide RowName; hide Slice; hide EachRow;
  }

  lemma OneStride(name: string)
    ensures DnStride(name) in {Stride(0, 0), Stride(1, 2048), Stride(1, 16), Stride(3, 16), Stride(2, 2048)}
  {
    hide NameEnds;
  }

  /** The per-head vectors are read as bare scalars; what is read has to be there. */
  predicate Splits(t: Tensor) {
    && Valid(t)
    && (DnStride(t.name).dim == 3 ==> Reached(t.ne0, BlockBytes(t.kind), DnStride(t.name).period) <= |t.data|)
  }

  /** weight_slice */
  method SliceWeight(t: Tensor, g: nat) returns (part: Bytes)
    requires Splits(t) && g < 2
    ensures part == Part(t, g)
  {
    hide RowBytes; hide BlockElems; hide BlockBytes; hide Slice; hide EachRow; hide NameEnds;
    var d := DnStride(t.name);
    if d.dim == 1 {
      part := RowsStrided(t, d.period, g);
    } else if d.dim == 3 {
      part := StridedCopy(t.data, t.ne0, BlockBytes(t.kind), d.period, g);
      if t.data == [] { NothingReached(t, d.period, g); }
    } else if d.dim == 2 {
      PeriodBlocks(BlockElems(t.kind));
      part := ColumnStrided(t, d.period / BlockElems(t.kind), g);
      if t.data == [] { NoRows(RowBytes(t), (d.period / BlockElems(t.kind)) * BlockBytes(t.kind), g); }
    } else {
      match WeightAxis(t.name)
      case Mirror => part := t.data;
      case Row =>
        var half := |t.data| / 2;
        if |t.data| > 0 { WholeRow(t.data, g); }
        part := t.data[g * half..g * half + half];
      case Col =>
        part := ColumnHalves(t, g);
        if t.data == [] { NoRows(RowBytes(t), RowBytes(t), g); }
    }
  }

  lemma NothingReached(t: Tensor, period: nat, g: nat)
    requires g < 2 && period > 0 && t.data == [] && Reached(t.ne0, BlockBytes(t.kind), period) == 0
    ensures period * BlockBytes(t.kind) > 0 && Slice(t.data[..0], period * BlockBytes(t.kind), g) == []
  {
    MulLower(period, BlockBytes(t.kind));
  }

  lemma PeriodBlocks(be: nat)
    requires be > 0 && 1024 % be == 0
    ensures 2048 / be > 0 && (2048 / be) % 2 == 0 && be * (2048 / be) == 2048
  {
    var q, r := DivMod(1024, be);
    assert 2048 == (2 * q) * be;
    DivModUnique(2048, be, 2 * q, 0);
  }

  // ---- bytes and units -----------------------------------------------------------------------------

  /** The rows (or scalars) of u bytes that the bytes consist of. */
  function Units(data: Bytes, u: nat): seq<Bytes>
    requires u > 0
    decreases |data|
  {
    if |data| < u then [] else [data[..u]] + Units(data[u..], u)
  }

  lemma {:induction false} UnitsConcat(a: Bytes, c: Bytes, u: nat, k: nat)
    requires u > 0 && |a| == k * u
    ensures Units(a + c, u) == Units(a, u) + Units(c, u) && |Units(a, u)| == k
    decreases k
  {
    if k == 0 {
      assert a + c == c;
    } else {
      Peel(k, u);
      UnitsConcat(a[u..], c, u, k - 1);
      assert (a + c)[u..] == a[u..] + c && (a + c)[..u] == a[..u];
    }
  }

  lemma UnitsPart(a: Bytes, u: nat, k: nat, i: nat, j: nat)
    requires u > 0 && |a| == k * u && i <= j <= k
    ensures 0 <= i * u <= j * u <= |a| && |Units(a, u)| == k
    ensures Units(a[i * u..j * u], u) == Units(a, u)[i..j]
  {
    hide Units;
    MulAtLeast(i, u);
    MulAtLeast(j - i, u);
    MulAtLeast(k - j, u);
    Parts(i, j, k, u);
    var x, y, z := a[..i * u], a[i * u..j * u], a[j * u..];
    assert a == x + (y + z);
    UnitsConcat(a, [], u, k);
    assert a + [] == a;
    UnitsConcat(x, y + z, u, i);
    UnitsConcat(y, z, u, j - i);
  }

  lemma Parts(i: nat, j: nat, k: nat, u: nat)
    requires i <= j <= k
    ensures j * u == i * u + (j - i) * u && k * u == j * u + (k - j) * u
  {
  }

  /** Slicing bytes by periods of rows is slicing rows: the strided split keeps every
      row whole and takes exactly the rows of this GPU's half periods. */
  lemma {:induction false} UnitsOfSlice(data: Bytes, u: nat, period: nat, g: nat, nblk: nat)
    requires g < 2 && u > 0 && period > 0 && period % 2 == 0 && period * u > 0 && |data| == nblk * (period * u)
    ensures Units(Slice(data, period * u, g), u) == Slice(Units(data, u), period, g)
    decreases nblk
  {
    var P: nat := period * u;
    if nblk == 0 {
      assert data == [];
    } else {
      Peel(nblk, P);
      UnitsOfSlice(data[P..], u, period, g, nblk - 1);
      FirstPeriod(data, u, period, g);
    }
  }

  lemma HalfInFirst(data: Bytes, u: nat, period: nat, g: nat, P: nat)
    requires g < 2 && u > 0 && period > 0 && period % 2 == 0 && P == period * u && 0 < P <= |data|
    ensures var o, h := Offset(g, period), period / 2;
            && 0 <= o * u <= (o + h) * u <= P && Offset(g, P) == o * u && Offset(g, P) + P / 2 == (o + h) * u
            && P / 2 == h * u && data[..P][o * u..(o + h) * u] == data[Offset(g, P)..Offset(g, P) + P / 2]
  {
    var o, h := Offset(g, period), period / 2;
    HalfOfProduct(period, u);
    Parts(o, o + h, period, u);
    assert o * u == Offset(g, P);
    hide Offset;
  }

  lemma FirstPeriod(data: Bytes, u: nat, period: nat, g: nat)
    requires g < 2 && u > 0 && period > 0 && period % 2 == 0 && 0 < period * u <= |data|
    requires Units(Slice(data[period * u..], period * u, g), u) == Slice(Units(data[period * u..], u), period, g)
    ensures Units(Slice(data, period * u, g), u) == Slice(Units(data, u), period, g)
  {
    hide *;
    var P: nat, h, o := period * u, period / 2, Offset(g, period);
    SliceCons(data, P, g);
    var first, rest := data[..P], data[P..];
    assert data == first + rest;
    UnitsConcat(first, rest, u, period);
    UnitsPart(first, u, period, o, o + h);
    Parts(o, o + h, period, u);
    HalfInFirst(data, u, period, g, P);
    UnitsConcat(data[Offset(g, P)..Offset(g, P) + P / 2], Slice(rest, P, g), u, h);
    SliceFirst(Units(first, u), Units(rest, u), period, g);
  }

  lemma SliceFirst<T>(a: seq<T>, c: seq<T>, period: nat, g: nat)
    requires g < 2 && period > 0 && |a| == period
    ensures Slice(a + c, period, g) == a[Offset(g, period)..Offset(g, period) + period / 2] + Slice(c, period, g)
  {
    var z := a + c;
    assert z[period..] == c;
    assert z[Offset(g, period)..Offset(g, period) + period / 2] == a[Offset(g, period)..Offset(g, period) + period / 2];
  }
}
