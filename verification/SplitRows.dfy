/** A block-quantised row product divided between two GPUs: each GPU multiplies its part
    of the weight's row with its part of the quantised activations, and the two results
    sum to the whole row's, bit layout, offsets and all. */
module SplitRows {
  import opened Arith
  import opened PackedWords
  import opened RealSums
  import opened TensorSplit
  import opened WeightProducts
  import opened WeightSlice
  import QuantAr16
  import QuantDot

  type Half = QuantDot.Half

  // ---- rows as lists of blocks ----------------------------------------------------------

  /** The values of one block's bytes. */
  function WeightBlock(h: Half): Bytes -> seq<real> {
    (b: Bytes) => if |b| == 18 then QuantDot.Weights(h, b, 1) else []
  }

  function ActivationBlock(h: Half): Bytes -> seq<real> {
    (b: Bytes) => if |b| == 36 then QuantDot.Activations(h, b, 1) else []
  }

  /** A block of 16 weights, and one half-precision value. */
  function Weight16Block(h: Half): Bytes -> seq<real> {
    (b: Bytes) => if |b| == 10 then QuantAr16.Weights16(h, b, 1) else []
  }

  function HalfValue(h: Half): Bytes -> seq<real> {
    (b: Bytes) => if |b| == 2 then [h(PackHalf(b[0], b[1]))] else []
  }

  /** The block layouts that the row dots read are those that the slicing cuts by. */
  lemma LayoutsAgree(h: Half)
    ensures Decodes(WeightBlock(h), Q4_0) && Decodes(Weight16Block(h), Q4_0_AR16) && Decodes(HalfValue(h), F16)
  {
    hide QuantDot.Weights; hide QuantAr16.Weights16;
  }

  predicate Sized(bs: seq<Bytes>, u: nat) {
    forall k :: 0 <= k < |bs| ==> |bs[k]| == u
  }

  function BlockOffsets(h: Half, ws: seq<Bytes>, ys: seq<Bytes>): (z: seq<real>)
    requires |ws| == |ys| && Sized(ws, 18) && Sized(ys, 36)
    ensures |z| == |ws|
  {
    seq(|ws|, k requires 0 <= k < |ws| => QuantDot.Offset(h, ws[k], ys[k], 0))
  }

  lemma NextBlock(i: nat)
    ensures (32 + i) / 32 == i / 32 + 1 && (32 + i) % 32 == i % 32
  {
  }

  lemma NextWeight(h: Half, wb: Bytes, i: nat)
    requires 18 * (i / 32) + 36 <= |wb|
    ensures 18 * ((32 + i) / 32) + 18 <= |wb|
    ensures QuantDot.Weight(h, wb, 32 + i) == QuantDot.Weight(h, wb[18..], i)
  {
    NextBlock(i);
    hide PackHalf; hide S8;
  }

  lemma FirstWeight(h: Half, wb: Bytes, i: nat)
    requires i < 32 && 18 <= |wb|
    ensures QuantDot.Weight(h, wb, i) == QuantDot.Weight(h, wb[..18], i)
  {
    hide PackHalf; hide S8;
  }

  lemma WeightsSplit(h: Half, wb: Bytes, n: nat)
    requires n > 0 && |wb| == 18 * n
    ensures QuantDot.Weights(h, wb, n)
            == QuantDot.Weights(h, wb[..18], 1) + QuantDot.Weights(h, wb[18..], n - 1)
  {
    hide QuantDot.Weight;
    var all, first, rest := QuantDot.Weights(h, wb, n), QuantDot.Weights(h, wb[..18], 1),
        QuantDot.Weights(h, wb[18..], n - 1);
    forall i: nat | i < 32 * n ensures all[i] == (first + rest)[i] {
      if i < 32 { FirstWeight(h, wb, i); } else { NextWeight(h, wb, i - 32); }
    }
  }

  lemma NextActivation(h: Half, yb: Bytes, i: nat)
    requires 36 * (i / 32) + 72 <= |yb|
    ensures 36 * ((32 + i) / 32) + 36 <= |yb|
    ensures QuantDot.Activation(h, yb, 32 + i) == QuantDot.Activation(h, yb[36..], i)
  {
    NextBlock(i);
    hide PackHalf; hide S8;
  }

  lemma FirstActivation(h: Half, yb: Bytes, i: nat)
    requires i < 32 && 36 <= |yb|
    ensures QuantDot.Activation(h, yb, i) == QuantDot.Activation(h, yb[..36], i)
  {
    hide PackHalf; hide S8;
  }

  lemma ActivationsSplit(h: Half, yb: Bytes, n: nat)
    requires n > 0 && |yb| == 36 * n
    ensures QuantDot.Activations(h, yb, n)
            == QuantDot.Activations(h, yb[..36], 1) + QuantDot.Activations(h, yb[36..], n - 1)
  {
    hide QuantDot.Activation;
    var all, first, rest := QuantDot.Activations(h, yb, n), QuantDot.Activations(h, yb[..36], 1),
        QuantDot.Activations(h, yb[36..], n - 1);
    forall i: nat | i < 32 * n ensures all[i] == (first + rest)[i] {
      if i < 32 { FirstActivation(h, yb, i); } else { NextActivation(h, yb, i - 32); }
    }
  }

  lemma {:induction false} WeightsDecode(h: Half, wb: Bytes, n: nat)
    requires |wb| == 18 * n
    ensures QuantDot.Weights(h, wb, n) == Decoded(WeightBlock(h), Units(wb, 18))
    decreases n
  {
    hide QuantDot.Weights;
    if n > 0 {
      WeightsSplit(h, wb, n);
      WeightsDecode(h, wb[18..], n - 1);
    } else {
      NoValues(h, wb, wb);
    }
  }

  lemma {:induction false} ActivationsDecode(h: Half, yb: Bytes, n: nat)
    requires |yb| == 36 * n
    ensures QuantDot.Activations(h, yb, n) == Decoded(ActivationBlock(h), Units(yb, 36))
    decreases n
  {
    hide QuantDot.Activations;
    if n > 0 {
      ActivationsSplit(h, yb, n);
      ActivationsDecode(h, yb[36..], n - 1);
    } else {
      NoValues(h, yb, yb);
    }
  }

  lemma NoValues(h: Half, wb: Bytes, yb: Bytes)
    ensures wb == [] ==> QuantDot.Weights(h, wb, 0) == []
    ensures yb == [] ==> QuantDot.Activations(h, yb, 0) == []
  {
  }

  lemma NextOffset(h: Half, wb: Bytes, yb: Bytes, k: nat)
    requires 18 * k + 36 <= |wb| && 36 * k + 72 <= |yb|
    ensures QuantDot.Offset(h, wb, yb, k + 1) == QuantDot.Offset(h, wb[18..], yb[36..], k)
  {
    hide PackHalf; hide QuantDot.ByteSum;
    assert yb[36..][36 * k + 4..36 * k + 36] == yb[36 * (k + 1) + 4..36 * (k + 1) + 36];
  }

  lemma FirstOffset(h: Half, wb: Bytes, yb: Bytes)
    requires 18 <= |wb| && 36 <= |yb|
    ensures QuantDot.Offset(h, wb, yb, 0) == QuantDot.Offset(h, wb[..18], yb[..36], 0)
  {
    hide PackHalf; hide QuantDot.ByteSum;
    assert yb[..36][4..36] == yb[4..36];
  }

  lemma OffsetsSplit(h: Half, wb: Bytes, yb: Bytes, n: nat)
    requires n > 0 && QuantDot.Q40Row(wb, yb, n)
    ensures QuantDot.Offsets(h, wb, yb, n)
            == [QuantDot.Offset(h, wb[..18], yb[..36], 0)] + QuantDot.Offsets(h, wb[18..], yb[36..], n - 1)
  {
    hide QuantDot.Offset;
    forall k: nat | k < n - 1
      ensures QuantDot.Offset(h, wb, yb, k + 1) == QuantDot.Offset(h, wb[18..], yb[36..], k)
    {
      NextOffset(h, wb, yb, k);
    }
    FirstOffset(h, wb, yb);
  }

  lemma {:induction false} OffsetsOfBlocks(h: Half, wb: Bytes, yb: Bytes, n: nat)
    requires QuantDot.Q40Row(wb, yb, n)
    ensures var ws, ys := Units(wb, 18), Units(yb, 36);
            && |ws| == |ys| == n && Sized(ws, 18) && Sized(ys, 36)
            && QuantDot.Offsets(h, wb, yb, n) == BlockOffsets(h, ws, ys)
    decreases n
  {
    hide QuantDot.Offsets; hide QuantDot.Offset;
    if n > 0 {
      OffsetsSplit(h, wb, yb, n);
      OffsetsOfBlocks(h, wb[18..], yb[36..], n - 1);
    } else {
      assert |QuantDot.Offsets(h, wb, yb, 0)| == 0;
    }
  }

  // ---- slices of both operands ------------------------------------------------------------

  lemma OffsetsPart(h: Half, ws: seq<Bytes>, ys: seq<Bytes>, i: nat, j: nat)
    requires |ws| == |ys| && Sized(ws, 18) && Sized(ys, 36) && i <= j <= |ws|
    ensures Sized(ws[i..j], 18) && Sized(ys[i..j], 36)
    ensures BlockOffsets(h, ws[i..j], ys[i..j]) == BlockOffsets(h, ws, ys)[i..j]
  {
    hide QuantDot.Offset;
  }

  lemma OffsetsConcat(h: Half, a: seq<Bytes>, b: seq<Bytes>, c: seq<Bytes>, d: seq<Bytes>)
    requires |a| == |b| && |c| == |d| && Sized(a, 18) && Sized(b, 36) && Sized(c, 18) && Sized(d, 36)
    ensures Sized(a + c, 18) && Sized(b + d, 36)
    ensures BlockOffsets(h, a + c, b + d) == BlockOffsets(h, a, b) + BlockOffsets(h, c, d)
  {
    hide QuantDot.Offset;
  }

  lemma {:induction false} OffsetsSlice(h: Half, ws: seq<Bytes>, ys: seq<Bytes>, pu: nat, g: nat)
    requires g < 2 && pu > 0 && |ws| == |ys| && Sized(ws, 18) && Sized(ys, 36)
    ensures |Slice(ws, pu, g)| == |Slice(ys, pu, g)| && Sized(Slice(ws, pu, g), 18) && Sized(Slice(ys, pu, g), 36)
    ensures BlockOffsets(h, Slice(ws, pu, g), Slice(ys, pu, g)) == Slice(BlockOffsets(h, ws, ys), pu, g)
    decreases |ws|
  {
    if |ws| >= pu {
      OffsetsPart(h, ws, ys, pu, |ws|);
      assert ws[pu..|ws|] == ws[pu..] && ys[pu..|ws|] == ys[pu..];
      OffsetsSlice(h, ws[pu..], ys[pu..], pu, g);
      OffsetsStep(h, ws, ys, pu, g);
    }
  }

  lemma OffsetsStep(h: Half, ws: seq<Bytes>, ys: seq<Bytes>, pu: nat, g: nat)
    requires g < 2 && 0 < pu <= |ws| == |ys| && Sized(ws, 18) && Sized(ys, 36)
    requires Sized(ws[pu..], 18) && Sized(ys[pu..], 36) && |Slice(ws[pu..], pu, g)| == |Slice(ys[pu..], pu, g)|
    requires Sized(Slice(ws[pu..], pu, g), 18) && Sized(Slice(ys[pu..], pu, g), 36)
    requires BlockOffsets(h, Slice(ws[pu..], pu, g), Slice(ys[pu..], pu, g))
             == Slice(BlockOffsets(h, ws[pu..], ys[pu..]), pu, g)
    ensures |Slice(ws, pu, g)| == |Slice(ys, pu, g)| && Sized(Slice(ws, pu, g), 18) && Sized(Slice(ys, pu, g), 36)
    ensures BlockOffsets(h, Slice(ws, pu, g), Slice(ys, pu, g)) == Slice(BlockOffsets(h, ws, ys), pu, g)
  {
    hide Slice; hide Offset; hide BlockOffsets; hide Sized;
    var o, e, z := Offset(g, pu), Offset(g, pu) + pu / 2, BlockOffsets(h, ws, ys);
    SliceCons(ws, pu, g);
    SliceCons(ys, pu, g);
    SliceCons(z, pu, g);
    OffsetsPart(h, ws, ys, o, e);
    OffsetsPart(h, ws, ys, pu, |ws|);
    assert ws[pu..|ws|] == ws[pu..] && ys[pu..|ws|] == ys[pu..] && z[pu..|ws|] == z[pu..];
    OffsetsConcat(h, ws[o..e], ys[o..e], Slice(ws[pu..], pu, g), Slice(ys[pu..], pu, g));
  }

  /** What a row's bytes and its activations' bytes stand for. */
  function RowValue(h: Half, wb: Bytes, yb: Bytes, n: nat): real
    requires QuantDot.Q40Row(wb, yb, n)
  {
    Dot(QuantDot.Weights(h, wb, n), QuantDot.Activations(h, yb, n)) + Sum(QuantDot.Offsets(h, wb, yb, n))
  }

  lemma SliceOfBlocks(z: Bytes, u: nat, n: nat, nblk: nat, pu: nat, g: nat)
    requires g < 2 && u > 0 && pu > 0 && pu % 2 == 0 && |z| == n * u && n == nblk * pu
    ensures pu * u > 0 && nblk * (pu / 2) >= 0 && |Slice(z, pu * u, g)| == (nblk * (pu / 2)) * u
  {
    MulAtLeast(nblk, pu / 2);
    MulLower(pu, u);
    HalfOfProduct(pu, u);
    Times(nblk, pu, u);
    Times(nblk, pu / 2, u);
    SliceLength(z, pu * u, g, nblk);
  }

  lemma PartOfRow(h: Half, wb: Bytes, yb: Bytes, n: nat, nblk: nat, pu: nat, g: nat, m: nat)
    requires g < 2 && pu > 0 && pu % 2 == 0 && n == nblk * pu && m == nblk * (pu / 2) && QuantDot.Q40Row(wb, yb, n)
    ensures QuantDot.Q40Row(Slice(wb, pu * 18, g), Slice(yb, pu * 36, g), m)
    ensures QuantDot.Weights(h, Slice(wb, pu * 18, g), m) == Slice(QuantDot.Weights(h, wb, n), pu * 32, g)
    ensures QuantDot.Activations(h, Slice(yb, pu * 36, g), m) == Slice(QuantDot.Activations(h, yb, n), pu * 32, g)
    ensures QuantDot.Offsets(h, Slice(wb, pu * 18, g), Slice(yb, pu * 36, g), m)
            == Slice(QuantDot.Offsets(h, wb, yb, n), pu, g)
  {
    hide Slice; hide Units; hide Decoded; hide QuantDot.Weights; hide QuantDot.Activations; hide QuantDot.Offsets;
    hide BlockOffsets;
    SliceOfBlocks(wb, 18, n, nblk, pu, g);
    SliceOfBlocks(yb, 36, n, nblk, pu, g);
    UnitsOfAnySlice(wb, 18, pu, g, n);
    UnitsOfAnySlice(yb, 36, pu, g, n);
    WeightsDecode(h, wb, n);
    WeightsDecode(h, Slice(wb, pu * 18, g), m);
    ActivationsDecode(h, yb, n);
    ActivationsDecode(h, Slice(yb, pu * 36, g), m);
    UnitLengths(wb, 18);
    UnitLengths(yb, 36);
    DecodedSlice(WeightBlock(h), Units(wb, 18), 32, pu, g);
    DecodedSlice(ActivationBlock(h), Units(yb, 36), 32, pu, g);
    OffsetsOfBlocks(h, wb, yb, n);
    OffsetsOfBlocks(h, Slice(wb, pu * 18, g), Slice(yb, pu * 36, g), m);
    OffsetsSlice(h, Units(wb, 18), Units(yb, 36), pu, g);
  }

  /** The two GPUs' results on their halves of every period sum to the whole. */
  lemma HalvesAddUp(h: Half, wb: Bytes, yb: Bytes, n: nat, nblk: nat, pu: nat, m: nat)
    requires pu > 0 && pu % 2 == 0 && n == nblk * pu && m == nblk * (pu / 2) && QuantDot.Q40Row(wb, yb, n)
    ensures QuantDot.Q40Row(Slice(wb, pu * 18, 0), Slice(yb, pu * 36, 0), m)
    ensures QuantDot.Q40Row(Slice(wb, pu * 18, 1), Slice(yb, pu * 36, 1), m)
    ensures RowValue(h, Slice(wb, pu * 18, 0), Slice(yb, pu * 36, 0), m)
            + RowValue(h, Slice(wb, pu * 18, 1), Slice(yb, pu * 36, 1), m) == RowValue(h, wb, yb, n)
  {
    hide Slice; hide Dot; hide Sum; hide QuantDot.Weights; hide QuantDot.Activations; hide QuantDot.Offsets;
    PartOfRow(h, wb, yb, n, nblk, pu, 0, m);
    PartOfRow(h, wb, yb, n, nblk, pu, 1, m);
    EvenPeriod(pu, 32, nblk);
    ColumnSplitAddsUp(QuantDot.Weights(h, wb, n), QuantDot.Activations(h, yb, n), pu * 32, nblk);
    HalvesSum(QuantDot.Offsets(h, wb, yb, n), pu, nblk);
  }

  /** For every column-split Q4_0 weight that loses nothing, every row and all
      activations: what QuantDot.Q40RowDot returns on the two GPUs, each on its part of
      the row and its part of the quantised activations, sums to what it returns for the
      whole row. */
  lemma TwoGpusRow(t: Tensor, h: Half, yb: Bytes, r: nat) returns (m: nat)
    requires Splits(t) && ColumnKind(t) && EvenColumns(t) && t.kind == Q4_0 && r < t.ne1 && t.ne0 > 0
    requires |yb| == 36 * RowBlocks(t)
    ensures PeriodBlocksOf(t) > 0 && 2 * m == RowBlocks(t)
    ensures QuantDot.Q40Row(WeightProducts.Row(t, r), yb, RowBlocks(t))
    ensures QuantDot.Q40Row(PartRow(t, 0, r), Slice(yb, PeriodBlocksOf(t) * 36, 0), m)
    ensures QuantDot.Q40Row(PartRow(t, 1, r), Slice(yb, PeriodBlocksOf(t) * 36, 1), m)
    ensures RowValue(h, PartRow(t, 0, r), Slice(yb, PeriodBlocksOf(t) * 36, 0), m)
            + RowValue(h, PartRow(t, 1, r), Slice(yb, PeriodBlocksOf(t) * 36, 1), m)
            == RowValue(h, WeightProducts.Row(t, r), yb, RowBlocks(t))
  {
    hide *;
    Q40Bytes(t);
    var nblk, rest := BlockPeriods(t);
    PartRowOfBlocks(t, 0, r);
    PartRowOfBlocks(t, 1, r);
    MulAtLeast(nblk, PeriodBlocksOf(t) / 2);
    m := nblk * (PeriodBlocksOf(t) / 2);
    HalfPeriods(nblk, PeriodBlocksOf(t), 0, RowBlocks(t));
    IsQ40Row(WeightProducts.Row(t, r), yb, RowBlocks(t));
    HalvesAddUp(h, WeightProducts.Row(t, r), yb, RowBlocks(t), nblk, PeriodBlocksOf(t), m);
  }

  lemma Q40Bytes(t: Tensor)
    requires Splits(t) && t.kind == Q4_0
    ensures Valid(t) && BlockBytes(t.kind) == 18
  {
  }

  lemma IsQ40Row(wb: Bytes, yb: Bytes, n: nat)
    requires |wb| == n * 18 && |yb| == 36 * n
    ensures QuantDot.Q40Row(wb, yb, n)
  {
  }
}
