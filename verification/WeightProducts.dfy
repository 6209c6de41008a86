/** What the sliced bytes of a block-quantised weight compute: decoded rows of the two
    parts against their halves of the input, and decoded rows of a row split. */
module WeightProducts {
  import opened Arith
  import opened RealSums
  import opened TensorSplit
  import opened WeightSlice

  // ---- decoding ---------------------------------------------------------------------

  /** Every block of the type decodes to its number of values; nothing else is known
      about the decoder. */
  ghost predicate Decodes(dec: Bytes -> seq<real>, k: Kind) {
    forall b: Bytes :: |b| == BlockBytes(k) ==> |dec(b)| == BlockElems(k)
  }

  function Decoded(dec: Bytes -> seq<real>, blocks: seq<Bytes>): seq<real> {
    if blocks == [] then [] else dec(blocks[0]) + Decoded(dec, blocks[1..])
  }

  /** The values of a run of whole blocks. */
  function Values(dec: Bytes -> seq<real>, k: Kind, bytes: Bytes): seq<real> {
    Decoded(dec, Units(bytes, BlockBytes(k)))
  }

  ghost predicate Uniform(dec: Bytes -> seq<real>, blocks: seq<Bytes>, be: nat) {
    forall i :: 0 <= i < |blocks| ==> |dec(blocks[i])| == be
  }

  lemma {:induction false} DecodedConcat(dec: Bytes -> seq<real>, a: seq<Bytes>, c: seq<Bytes>)
    ensures Decoded(dec, a + c) == Decoded(dec, a) + Decoded(dec, c)
  {
    if a == [] {
      assert a + c == c;
    } else {
      assert (a + c)[0] == a[0] && (a + c)[1..] == a[1..] + c;
      DecodedConcat(dec, a[1..], c);
      Reassociate(dec(a[0]), Decoded(dec, a[1..]), Decoded(dec, c));
    }
  }

  lemma {:induction false} DecodedLength(dec: Bytes -> seq<real>, blocks: seq<Bytes>, be: nat)
    requires Uniform(dec, blocks, be)
    ensures |Decoded(dec, blocks)| == |blocks| * be
  {
    if blocks != [] {
      DecodedLength(dec, blocks[1..], be);
      Peel(|blocks|, be);
    }
  }

  lemma DecodedPart(dec: Bytes -> seq<real>, blocks: seq<Bytes>, be: nat, i: nat, j: nat)
    requires Uniform(dec, blocks, be) && i <= j <= |blocks|
    ensures 0 <= i * be <= j * be <= |Decoded(dec, blocks)|
    ensures Decoded(dec, blocks[i..j]) == Decoded(dec, blocks)[i * be..j * be]
  {
    hide Decoded;
    var x, y, z := blocks[..i], blocks[i..j], blocks[j..];
    assert blocks == (x + y) + z;
    DecodedConcat(dec, x + y, z);
    DecodedConcat(dec, x, y);
    DecodedLength(dec, x, be);
    DecodedLength(dec, y, be);
    DecodedLength(dec, z, be);
    MulAtLeast(i, be);
    MulAtLeast(j - i, be);
    MulAtLeast(|blocks| - j, be);
    Parts(i, j, |blocks|, be);
    Middle(Decoded(dec, x), Decoded(dec, y), Decoded(dec, z));
  }

  lemma Middle<T>(x: seq<T>, y: seq<T>, z: seq<T>)
    ensures ((x + y) + z)[|x|..|x| + |y|] == y
  {
  }

  /** Slicing blocks by periods of blocks is slicing values by periods of values. */
  lemma {:induction false} DecodedSlice(dec: Bytes -> seq<real>, blocks: seq<Bytes>, be: nat, pu: nat, g: nat)
    requires g < 2 && be > 0 && pu > 0 && pu % 2 == 0 && Uniform(dec, blocks, be)
    ensures pu * be > 0 && Decoded(dec, Slice(blocks, pu, g)) == Slice(Decoded(dec, blocks), pu * be, g)
    decreases |blocks|
  {
    MulLower(pu, be);
    DecodedLength(dec, blocks, be);
    if |blocks| < pu {
      MulGap(pu, |blocks|, be);
      assert Decoded(dec, []) == [];
    } else {
      var first, rest := blocks[..pu], blocks[pu..];
      assert blocks == first + rest;
      DecodedSlice(dec, rest, be, pu, g);
      hide *;
      DecodedSliceStep(dec, first, rest, be, pu, g, pu * be);
    }
  }

  lemma DecodedSliceStep(dec: Bytes -> seq<real>, first: seq<Bytes>, rest: seq<Bytes>, be: nat, pu: nat, g: nat, P: nat)
    requires g < 2 && be > 0 && pu > 0 && pu % 2 == 0 && |first| == pu && Uniform(dec, first + rest, be)
    requires P == pu * be > 0 && Decoded(dec, Slice(rest, pu, g)) == Slice(Decoded(dec, rest), P, g)
    ensures Decoded(dec, Slice(first + rest, pu, g)) == Slice(Decoded(dec, first + rest), P, g)
  {
    hide Decoded; hide Slice; hide Offset;
    assert Uniform(dec, first, be) by { assert forall i :: 0 <= i < pu ==> (first + rest)[i] == first[i]; }
    DecodedConcat(dec, first, rest);
    DecodedLength(dec, first, be);
    DecodedHalf(dec, first, be, pu, g);
    SliceFirst(first, rest, pu, g);
    DecodedConcat(dec, first[Offset(g, pu)..Offset(g, pu) + pu / 2], Slice(rest, pu, g));
    SliceFirst(Decoded(dec, first), Decoded(dec, rest), P, g);
  }

  lemma DecodedHalf(dec: Bytes -> seq<real>, first: seq<Bytes>, be: nat, pu: nat, g: nat)
    requires g < 2 && be > 0 && pu > 0 && pu % 2 == 0 && |first| == pu && Uniform(dec, first, be)
    ensures pu * be > 0 && |Decoded(dec, first)| == pu * be
    ensures Decoded(dec, first[Offset(g, pu)..Offset(g, pu) + pu / 2])
            == Decoded(dec, first)[Offset(g, pu * be)..Offset(g, pu * be) + (pu * be) / 2]
  {
    hide Decoded;
    MulLower(pu, be);
    DecodedLength(dec, first, be);
    HalfOfProduct(pu, be);
    var o, h := Offset(g, pu), pu / 2;
    DecodedPart(dec, first, be, o, o + h);
    assert (o + h) * be == o * be + h * be && o * be == Offset(g, pu * be);
  }

  lemma {:induction false} UnitLengths(data: Bytes, u: nat)
    requires u > 0
    ensures forall i :: 0 <= i < |Units(data, u)| ==> |Units(data, u)[i]| == u
    decreases |data|
  {
    if |data| >= u { UnitLengths(data[u..], u); }
  }

  lemma UniformUnits(dec: Bytes -> seq<real>, k: Kind, bytes: Bytes)
    requires Decodes(dec, k)
    ensures Uniform(dec, Units(bytes, BlockBytes(k)), BlockElems(k))
  {
    UnitLengths(bytes, BlockBytes(k));
  }

  lemma {:induction false} UnitsCount(data: Bytes, u: nat, n: nat)
    requires u > 0 && n * u <= |data| < n * u + u
    ensures |Units(data, u)| == n
    decreases n
  {
    if n > 0 {
      Peel(n, u);
      UnitsCount(data[u..], u, n - 1);
    }
  }

  /** A run of bytes holds as many values as it has whole blocks. */
  lemma ValuesLength(dec: Bytes -> seq<real>, k: Kind, bytes: Bytes, n: nat)
    requires Decodes(dec, k) && n * BlockBytes(k) <= |bytes| < n * BlockBytes(k) + BlockBytes(k)
    ensures |Values(dec, k, bytes)| == n * BlockElems(k)
  {
    hide Decoded; hide Units; hide Decodes;
    UniformUnits(dec, k, bytes);
    UnitsCount(bytes, BlockBytes(k), n);
    DecodedLength(dec, Units(bytes, BlockBytes(k)), BlockElems(k));
  }

  /** UnitsOfSlice, with what is behind the last whole period. */
  lemma UnitsOfAnySlice(data: Bytes, u: nat, period: nat, g: nat, m: nat)
    requires g < 2 && u > 0 && period > 0 && period % 2 == 0 && |data| == m * u
    ensures period * u > 0 && Units(Slice(data, period * u, g), u) == Slice(Units(data, u), period, g)
  {
    hide Units; hide Slice;
    MulLower(period, u);
    var nblk, rest := DivMod(m, period);
    BlocksFit(m, u, period, nblk, rest);
    SliceRest(data, period * u, g, nblk);
    var first := data[..nblk * (period * u)];
    UnitsOfSlice(first, u, period, g, nblk);
    MulAtLeast(nblk, period);
    Times(nblk, period, u);
    UnitsPart(data, u, m, 0, nblk * period);
    assert data[0..nblk * (period * u)] == first && Units(data, u)[0..nblk * period] == Units(data, u)[..nblk * period];
    SliceRest(Units(data, u), period, g, nblk);
  }

  lemma Times(n: nat, x: nat, c: nat)
    ensures n * (x * c) == (n * x) * c
  {
  }

  /** Slicing the bytes of whole blocks by an even number of blocks is slicing their
      values. */
  lemma SliceDecodes(dec: Bytes -> seq<real>, k: Kind, row: Bytes, n: nat, pu: nat, g: nat)
    requires Decodes(dec, k) && g < 2 && pu > 0 && pu % 2 == 0 && |row| == n * BlockBytes(k)
    ensures pu * BlockBytes(k) > 0 && pu * BlockElems(k) > 0
    ensures Values(dec, k, Slice(row, pu * BlockBytes(k), g)) == Slice(Values(dec, k, row), pu * BlockElems(k), g)
  {
    hide Decoded; hide Units; hide Slice; hide Decodes;
    UniformUnits(dec, k, row);
    UnitsOfAnySlice(row, BlockBytes(k), pu, g, n);
    DecodedSlice(dec, Units(row, BlockBytes(k)), BlockElems(k), pu, g);
  }

  // ---- column splits ------------------------------------------------------------------

  /** The weights whose input columns are divided. */
  predicate ColumnKind(t: Tensor) {
    DnStride(t.name).dim == 2 || (DnStride(t.name).dim == 0 && WeightAxis(t.name).Col?)
  }

  /** Blocks of a row in one period: 2048 columns, or the whole row. */
  function PeriodBlocksOf(t: Tensor): (pu: nat)
    requires Valid(t) && ColumnKind(t)
    ensures PeriodBytes(t) == pu * BlockBytes(t.kind)
  {
    if DnStride(t.name).dim == 2 then
      PeriodBlocks(BlockElems(t.kind));
      2048 / BlockElems(t.kind)
    else RowBlocks(t)
  }

  /** Nothing of a row is left over: whole periods, or an even number of blocks. */
  predicate EvenColumns(t: Tensor) {
    if DnStride(t.name).dim == 2 then t.ne0 % 2048 == 0 else RowBlocks(t) % 2 == 0
  }

  /** Piece r of l bytes. */
  predicate Fits(z: Bytes, r: nat, l: nat) {
    0 <= r * l <= r * l + l <= |z|
  }

  function Piece(z: Bytes, r: nat, l: nat): (p: Bytes)
    requires Fits(z, r, l)
    ensures |p| == l
  {
    z[r * l..r * l + l]
  }

  lemma FirstPiece(a: Bytes, c: Bytes, l: nat)
    requires |a| == l
    ensures Fits(a + c, 0, l) && Piece(a + c, 0, l) == a
  {
  }

  lemma NextPiece(a: Bytes, c: Bytes, r: nat, l: nat)
    requires |a| == l && r > 0
    ensures Fits(a + c, r, l) <==> Fits(c, r - 1, l)
    ensures Fits(c, r - 1, l) ==> Piece(a + c, r, l) == Piece(c, r - 1, l)
  {
    Peel(r, l);
    if Fits(c, r - 1, l) { Behind(a, c, (r - 1) * l, l); }
  }

  lemma Behind<T>(a: seq<T>, c: seq<T>, at: nat, n: nat)
    requires at + n <= |c|
    ensures (a + c)[at + |a|..at + |a| + n] == c[at..at + n]
  {
  }

  function Row(t: Tensor, r: nat): (row: Bytes)
    requires Valid(t) && r < t.ne1
    ensures |row| == RowBlocks(t) * BlockBytes(t.kind)
  {
    RowFits(r, t.ne1, RowBytes(t));
    Piece(t.data, r, RowBytes(t))
  }

  /** Bytes of a row in one part. */
  function PartRowBytes(t: Tensor): (l: nat)
    requires Valid(t) && PeriodBytes(t) > 0
  {
    var P := PeriodBytes(t);
    DivNat(RowBytes(t), P);
    MulAtLeast(RowBytes(t) / P, P / 2);
    (RowBytes(t) / P) * (P / 2)
  }

  lemma SliceBytes(row: Bytes, P: nat, g: nat, q: nat, rest: nat)
    requires g < 2 && P > 0 && |row| == q * P + rest && rest < P
    ensures |Slice(row, P, g)| == q * (P / 2)
  {
    SliceRest(row, P, g, q);
    SliceLength(row[..q * P], P, g, q);
  }

  lemma {:induction false} EachRowAt(data: Bytes, rb: nat, P: nat, g: nat, r: nat, q: nat, rest: nat, l: nat)
    requires g < 2 && P > 0 && rb > 0 && rb == q * P + rest && rest < P && Fits(data, r, rb) && l == q * (P / 2)
    ensures Fits(EachRow(data, rb, P, g), r, l)
    ensures Piece(EachRow(data, rb, P, g), r, l) == Slice(Piece(data, r, rb), P, g)
    decreases r
  {
    LongEnough(data, r, rb);
    var first, others := data[..rb], data[rb..];
    assert data == first + others;
    SliceBytes(first, P, g, q, rest);
    RowsCons(data, rb, P, g);
    hide *;
    if r == 0 {
      FirstPiece(first, others, rb);
      FirstPiece(Slice(first, P, g), EachRow(others, rb, P, g), l);
    } else {
      NextPiece(first, others, r, rb);
      EachRowAt(others, rb, P, g, r - 1, q, rest, l);
      NextPiece(Slice(first, P, g), EachRow(others, rb, P, g), r, l);
    }
  }

  lemma LongEnough(data: Bytes, r: nat, rb: nat)
    requires Fits(data, r, rb)
    ensures rb <= |data|
  {
  }

  lemma RowsCons(data: Bytes, rb: nat, P: nat, g: nat)
    requires g < 2 && P > 0 && 0 < rb <= |data|
    ensures EachRow(data, rb, P, g) == Slice(data[..rb], P, g) + EachRow(data[rb..], rb, P, g)
  {
  }

  /** Row r of GPU g's part of a column-split weight. */
  function PartRow(t: Tensor, g: nat, r: nat): Bytes
    requires Splits(t) && ColumnKind(t) && g < 2 && r < t.ne1 && t.ne0 > 0
  {
    PartRowIsSlice(t, g, r);
    Piece(Part(t, g), r, PartRowBytes(t))
  }

  lemma RowsPositive(t: Tensor)
    requires Valid(t) && t.ne0 > 0
    ensures RowBlocks(t) > 0 && RowBytes(t) > 0 && (t.ne1 > 0 ==> t.data != [])
  {
    var q, r := DivMod(t.ne0, BlockElems(t.kind));
    MulLower(RowBlocks(t), BlockBytes(t.kind));
    if t.ne1 > 0 { MulLower(t.ne1, RowBytes(t)); }
  }

  /** It is the slice of the whole weight's row r. */
  lemma PartRowIsSlice(t: Tensor, g: nat, r: nat)
    requires Splits(t) && ColumnKind(t) && g < 2 && r < t.ne1 && t.ne0 > 0
    ensures PeriodBytes(t) > 0 && Fits(Part(t, g), r, PartRowBytes(t))
    ensures Piece(Part(t, g), r, PartRowBytes(t)) == Slice(Row(t, r), PeriodBytes(t), g)
  {
    RowsPositive(t);
    ColumnPart(t, g);
    RowFits(r, t.ne1, RowBytes(t));
    PartRowsAre(t.data, RowBytes(t), PeriodBytes(t), g, r, PartRowBytes(t));
  }

  lemma ColumnPart(t: Tensor, g: nat)
    requires Splits(t) && ColumnKind(t) && g < 2 && t.data != []
    ensures PeriodBytes(t) > 0 && Part(t, g) == EachRow(t.data, RowBytes(t), PeriodBytes(t), g)
  {
  }

  lemma PartRowsAre(data: Bytes, rb: nat, P: nat, g: nat, r: nat, l: nat)
    requires g < 2 && rb > 0 && P > 0 && Fits(data, r, rb) && l == (rb / P) * (P / 2)
    ensures Fits(EachRow(data, rb, P, g), r, l)
    ensures Piece(EachRow(data, rb, P, g), r, l) == Slice(Piece(data, r, rb), P, g)
  {
    hide *;
    var q, rest := DivMod(rb, P);
    EachRowAt(data, rb, P, g, r, q, rest, l);
  }

  lemma WholeElems(t: Tensor)
    requires Valid(t)
    ensures t.ne0 == RowBlocks(t) * BlockElems(t.kind)
  {
    var q, r := DivMod(t.ne0, BlockElems(t.kind));
  }

  lemma CancelRight(a: nat, b: nat, c: nat)
    requires c > 0 && a * c == b * c
    ensures a == b
  {
    if a > b { MulGap(a, b, c); }
    if b > a { MulGap(b, a, c); }
  }

  /** Blocks per row in periods of blocks: without remainder exactly if the columns
      leave none. */
  lemma BlockPeriods(t: Tensor) returns (nblk: nat, rest: nat)
    requires Valid(t) && ColumnKind(t) && t.ne0 > 0
    ensures PeriodBlocksOf(t) > 0 && RowBlocks(t) == nblk * PeriodBlocksOf(t) + rest && rest < PeriodBlocksOf(t)
    ensures DnStride(t.name).dim == 2 ==> PeriodBlocksOf(t) % 2 == 0
    ensures DnStride(t.name).dim != 2 ==> nblk == 1 && rest == 0
    ensures EvenColumns(t) <==> rest == 0 && PeriodBlocksOf(t) % 2 == 0
  {
    RowsPositive(t);
    WholeElems(t);
    var k, be := RowBlocks(t), BlockElems(t.kind);
    if DnStride(t.name).dim == 2 {
      PeriodBlocks(be);
      hide *;
      var pu := PeriodBlocksOf(t);
      assert pu == 2048 / be by { StridedBlocks(t); }
      nblk, rest := DivMod(k, pu);
      ColumnsAndBlocks(t.ne0, k, be, pu, nblk, rest);
      assert EvenColumns(t) <==> t.ne0 % 2048 == 0 by { StridedBlocks(t); }
    } else {
      nblk, rest := 1, 0;
    }
  }

  lemma StridedBlocks(t: Tensor)
    requires Valid(t) && DnStride(t.name).dim == 2
    ensures PeriodBlocksOf(t) == 2048 / BlockElems(t.kind) && (EvenColumns(t) <==> t.ne0 % 2048 == 0)
  {
  }

  lemma ColumnsAndBlocks(ne0: nat, k: nat, be: nat, pu: nat, nblk: nat, rest: nat)
    requires be > 0 && ne0 == k * be && be * pu == 2048 && k == nblk * pu + rest && rest < pu
    ensures ne0 % 2048 == 0 <==> rest == 0
  {
    MulAtLeast(rest, be);
    MulGap(pu, rest, be);
    assert ne0 == nblk * (be * pu) + rest * be;
    DivModUnique(ne0, 2048, nblk, rest * be);
    if rest > 0 { MulLower(rest, be); }
  }

  /** What a part's row decodes to: this GPU's half of every period of the row. */
  lemma PartRowDecodes(t: Tensor, dec: Bytes -> seq<real>, g: nat, r: nat)
    requires Splits(t) && ColumnKind(t) && g < 2 && r < t.ne1 && t.ne0 > 0 && Decodes(dec, t.kind)
    requires PeriodBlocksOf(t) % 2 == 0
    ensures PeriodBlocksOf(t) * BlockElems(t.kind) > 0
    ensures Values(dec, t.kind, PartRow(t, g, r))
            == Slice(Values(dec, t.kind, Row(t, r)), PeriodBlocksOf(t) * BlockElems(t.kind), g)
  {
    var nblk, rest := BlockPeriods(t);
    PartRowIsSlice(t, g, r);
    SliceDecodes(dec, t.kind, Row(t, r), RowBlocks(t), PeriodBlocksOf(t), g);
  }

  /** This GPU's half of the input of a column-split weight. */
  function InputPart(t: Tensor, x: seq<real>, g: nat): seq<real>
    requires Valid(t) && ColumnKind(t) && g < 2 && PeriodBlocksOf(t) * BlockElems(t.kind) > 0
  {
    Slice(x, PeriodBlocksOf(t) * BlockElems(t.kind), g)
  }

  lemma EvenPeriod(pu: nat, be: nat, nblk: nat)
    requires pu > 0 && pu % 2 == 0 && be > 0
    ensures pu * be >= 2 && (pu * be) % 2 == 0 && nblk * (pu * be) == (nblk * pu) * be
  {
    HalfOfProduct(pu, be);
    MulLower(pu, be);
    assert pu * be == 2 * ((pu / 2) * be);
  }

  /** Column splits multiply correctly: for every row the dot products of the two
      parts' decoded rows, each with its own half of the input, add up to the dot
      product of the whole decoded row. */
  lemma ColumnPartsAddUp(t: Tensor, dec: Bytes -> seq<real>, x: seq<real>, r: nat)
    requires Splits(t) && ColumnKind(t) && EvenColumns(t) && r < t.ne1 && t.ne0 > 0 && Decodes(dec, t.kind)
    requires |x| == t.ne0
    ensures PeriodBlocksOf(t) * BlockElems(t.kind) > 0 && |Values(dec, t.kind, Row(t, r))| == |x|
    ensures |Values(dec, t.kind, PartRow(t, 0, r))| == |InputPart(t, x, 0)|
    ensures |Values(dec, t.kind, PartRow(t, 1, r))| == |InputPart(t, x, 1)|
    ensures Dot(Values(dec, t.kind, PartRow(t, 0, r)), InputPart(t, x, 0))
            + Dot(Values(dec, t.kind, PartRow(t, 1, r)), InputPart(t, x, 1))
            == Dot(Values(dec, t.kind, Row(t, r)), x)
  {
    var E, nblk := ColumnFacts(t, dec, x, r);
    hide *;
    ColumnSplitAddsUp(Values(dec, t.kind, Row(t, r)), x, E, nblk);
  }

  lemma ColumnFacts(t: Tensor, dec: Bytes -> seq<real>, x: seq<real>, r: nat) returns (E: nat, nblk: nat)
    requires Splits(t) && ColumnKind(t) && EvenColumns(t) && r < t.ne1 && t.ne0 > 0 && Decodes(dec, t.kind)
    requires |x| == t.ne0
    ensures E == PeriodBlocksOf(t) * BlockElems(t.kind) >= 2 && E % 2 == 0
    ensures |Values(dec, t.kind, Row(t, r))| == |x| == nblk * E
    ensures Values(dec, t.kind, PartRow(t, 0, r)) == Slice(Values(dec, t.kind, Row(t, r)), E, 0)
    ensures Values(dec, t.kind, PartRow(t, 1, r)) == Slice(Values(dec, t.kind, Row(t, r)), E, 1)
    ensures InputPart(t, x, 0) == Slice(x, E, 0) && InputPart(t, x, 1) == Slice(x, E, 1)
  {
    hide Decoded; hide Units; hide Slice; hide Piece; hide Part; hide DnStride; hide WeightAxis; hide BlockElems;
    var rest;
    nblk, rest := BlockPeriods(t);
    PartRowDecodes(t, dec, 0, r);
    PartRowDecodes(t, dec, 1, r);
    WholeElems(t);
    ValuesLength(dec, t.kind, Row(t, r), RowBlocks(t));
    EvenPeriod(PeriodBlocksOf(t), BlockElems(t.kind), nblk);
    E := PeriodBlocksOf(t) * BlockElems(t.kind);
  }

  /** Nothing of a row is lost exactly if its columns are a whole number of periods
      (strided kind) or its blocks are even in number (contiguous kind).  With an odd
      number one block is cut in two and neither half decodes it. */
  lemma ColumnLosslessExactly(t: Tensor, dec: Bytes -> seq<real>, r: nat)
    requires Splits(t) && ColumnKind(t) && r < t.ne1 && t.ne0 > 0 && Decodes(dec, t.kind)
    ensures |Values(dec, t.kind, PartRow(t, 0, r))| == |Values(dec, t.kind, PartRow(t, 1, r))|
    ensures EvenColumns(t) <==>
              |Values(dec, t.kind, PartRow(t, 0, r))| + |Values(dec, t.kind, PartRow(t, 1, r))|
              == |Values(dec, t.kind, Row(t, r))|
    ensures DnStride(t.name).dim != 2 ==>
              |Values(dec, t.kind, PartRow(t, 0, r))| == (RowBlocks(t) / 2) * BlockElems(t.kind)
  {
    var nblk, rest := BlockPeriods(t);
    var k, pu, u, be := RowBlocks(t), PeriodBlocksOf(t), BlockBytes(t.kind), BlockElems(t.kind);
    ValuesLength(dec, t.kind, Row(t, r), k);
    PartRowLength(t, dec, 0, r, nblk, rest);
    PartRowLength(t, dec, 1, r, nblk, rest);
    hide *;
    Counts(nblk, pu, rest, k, be);
  }

  lemma Counts(nblk: nat, pu: nat, rest: nat, k: nat, be: nat)
    requires be > 0 && k == nblk * pu + rest && rest < pu && (nblk == 1 || pu % 2 == 0)
    ensures (nblk * (pu / 2)) * be + (nblk * (pu / 2)) * be == k * be <==> rest == 0 && pu % 2 == 0
    ensures nblk == 1 && rest == 0 ==> (nblk * (pu / 2)) * be == (k / 2) * be
  {
    HalfPeriods(nblk, pu, rest, k);
    var n: nat := nblk * (pu / 2);
    assert n * be + n * be == (2 * n) * be;
    if (2 * n) * be == k * be { CancelRight(2 * n, k, be); }
  }

  lemma HalfPeriods(nblk: nat, pu: nat, rest: nat, k: nat)
    requires k == nblk * pu + rest && rest < pu && (nblk == 1 || pu % 2 == 0)
    ensures 0 <= nblk * (pu / 2) && (2 * (nblk * (pu / 2)) == k <==> rest == 0 && pu % 2 == 0)
  {
    if pu % 2 == 0 { assert nblk * pu == 2 * (nblk * (pu / 2)); }
  }

  lemma PartRowLength(t: Tensor, dec: Bytes -> seq<real>, g: nat, r: nat, nblk: nat, rest: nat)
    requires Splits(t) && ColumnKind(t) && g < 2 && r < t.ne1 && t.ne0 > 0 && Decodes(dec, t.kind)
    requires PeriodBlocksOf(t) > 0 && RowBlocks(t) == nblk * PeriodBlocksOf(t) + rest
    requires rest < PeriodBlocksOf(t) && (nblk == 1 || PeriodBlocksOf(t) % 2 == 0)
    ensures |Values(dec, t.kind, PartRow(t, g, r))| == (nblk * (PeriodBlocksOf(t) / 2)) * BlockElems(t.kind)
  {
    PartRowOfBlocks(t, g, r);
    hide *;
    SliceBlocks(Row(t, r), RowBlocks(t), PeriodBlocksOf(t), BlockBytes(t.kind), g, nblk, rest);
    ValuesLength(dec, t.kind, PartRow(t, g, r), nblk * (PeriodBlocksOf(t) / 2));
  }

  lemma PartRowOfBlocks(t: Tensor, g: nat, r: nat)
    requires Splits(t) && ColumnKind(t) && g < 2 && r < t.ne1 && t.ne0 > 0
    ensures PeriodBlocksOf(t) * BlockBytes(t.kind) > 0
    ensures PartRow(t, g, r) == Slice(Row(t, r), PeriodBlocksOf(t) * BlockBytes(t.kind), g)
  {
    PartRowIsSlice(t, g, r);
  }

  lemma SliceBlocks(row: Bytes, k: nat, pu: nat, u: nat, g: nat, nblk: nat, rest: nat)
    requires g < 2 && u > 0 && pu > 0 && |row| == k * u && k == nblk * pu + rest && rest < pu
    requires nblk == 1 || pu % 2 == 0
    ensures pu * u > 0 && nblk * (pu / 2) >= 0
    ensures (nblk * (pu / 2)) * u <= |Slice(row, pu * u, g)| < (nblk * (pu / 2)) * u + u
  {
    BlockArithmetic(pu, u, nblk, rest, pu * u, rest * u);
    hide Slice;
    SliceBytes(row, pu * u, g, nblk, rest * u);
  }

  lemma BlockArithmetic(pu: nat, u: nat, nblk: nat, rest: nat, P: int, R: int)
    requires u > 0 && pu > 0 && rest < pu && (nblk == 1 || pu % 2 == 0) && P == pu * u && R == rest * u
    ensures P > 0 && 0 <= R < P && nblk * (pu / 2) >= 0 && (nblk * pu + rest) * u == nblk * P + R
    ensures (nblk * (pu / 2)) * u <= nblk * (P / 2) < (nblk * (pu / 2)) * u + u
  {
    MulLower(pu, u);
    MulAtLeast(nblk, pu / 2);
    MulAtLeast(rest, u);
    MulGap(pu, rest, u);
    Times(nblk, pu, u);
    if pu % 2 == 0 {
      HalfOfProduct(pu, u);
      Times(nblk, pu / 2, u);
    } else {
      OddHalf(pu, u);
    }
  }

  lemma OddHalf(pu: nat, u: nat)
    requires pu % 2 == 1 && u > 0
    ensures pu * u >= 0 && (pu / 2) * u <= (pu * u) / 2 < (pu / 2) * u + u
  {
    var h := pu / 2;
    MulAtLeast(h, u);
    assert pu * u == 2 * (h * u) + u;
  }

  /** A weight that the source accepts and the contiguous split ruins: one block per
      row.  Each part gets half of its bytes, and neither decodes to anything. */
  const ONE_BLOCK: Tensor := Tensor(".ffn_down.weight", Q4_0, 32, 1, seq(18, _ => 0))

  lemma OneBlockIsCut(dec: Bytes -> seq<real>)
    requires Decodes(dec, Q4_0)
    ensures Splits(ONE_BLOCK) && ColumnKind(ONE_BLOCK) && !EvenColumns(ONE_BLOCK)
    ensures |Values(dec, Q4_0, Row(ONE_BLOCK, 0))| == 32
    ensures Values(dec, Q4_0, PartRow(ONE_BLOCK, 0, 0)) == Values(dec, Q4_0, PartRow(ONE_BLOCK, 1, 0)) == []
  {
    OneBlockKind();
    hide *;
    ColumnLosslessExactly(ONE_BLOCK, dec, 0);
    ValuesLength(dec, Q4_0, Row(ONE_BLOCK, 0), 1);
  }

  lemma OneBlockKind()
    ensures Splits(ONE_BLOCK) && Valid(ONE_BLOCK) && ColumnKind(ONE_BLOCK) && DnStride(ONE_BLOCK.name).dim == 0
    ensures !EvenColumns(ONE_BLOCK)
    ensures ONE_BLOCK.ne0 == 32 && ONE_BLOCK.ne1 == 1 && ONE_BLOCK.kind == Q4_0
    ensures RowBlocks(ONE_BLOCK) == 1 && BlockElems(Q4_0) == 32 && BlockBytes(Q4_0) == 18
  {
    DownIsColumns();
    hide NameEnds;
    assert RowBlocks(ONE_BLOCK) == 1 && RowBytes(ONE_BLOCK) == 18;
  }

  lemma DownIsColumns()
    ensures DnStride(".ffn_down.weight") == Stride(0, 0) && WeightAxis(".ffn_down.weight") == Col
  {
  }

  // ---- row splits -------------------------------------------------------------------------

  /** The weights whose rows are divided. */
  predicate RowKind(t: Tensor) {
    DnStride(t.name).dim == 1 || (DnStride(t.name).dim == 0 && WeightAxis(t.name).Row?)
  }

  /** Which names these are, and those that are divided by columns. */
  lemma KindsByName(t: Tensor)
    ensures RowKind(t) <==> ChannelRows(t.name) || HeadRows(t.name) || RowName(t.name)
    ensures ColumnKind(t) <==> NameEnds(t.name, ".ssm_out.weight") || ColumnName(t.name)
  {
    StrideTable(t.name);
    AxisTable(t.name);
    OneStride(t.name);
    if DnStride(t.name).dim != 0 { StridedElsewhere(t.name); }
    hide NameEnds; hide DnStride; hide WeightAxis; hide RowName; hide ColumnName;
  }

  /** Rows in one period. */
  function RowPeriod(t: Tensor): (p: nat)
    requires Valid(t) && RowKind(t) && t.ne1 > 0
    ensures p > 0 && PeriodBytes(t) == p * RowBytes(t)
  {
    if DnStride(t.name).dim == 1 then DnStride(t.name).period else t.ne1
  }

  predicate EvenRows(t: Tensor) {
    if DnStride(t.name).dim == 1 then t.ne1 % DnStride(t.name).period == 0 else t.ne1 % 2 == 0
  }

  /** The whole rows in some bytes of the weight, decoded. */
  function Matrix(dec: Bytes -> seq<real>, k: Kind, rows: seq<Bytes>): (W: seq<seq<real>>)
    ensures |W| == |rows|
  {
    seq(|rows|, r requires 0 <= r < |rows| => Values(dec, k, rows[r]))
  }

  lemma {:induction false} MatrixSlice(dec: Bytes -> seq<real>, k: Kind, rows: seq<Bytes>, period: nat, g: nat)
    requires g < 2 && period > 0
    ensures Matrix(dec, k, Slice(rows, period, g)) == Slice(Matrix(dec, k, rows), period, g)
    decreases |rows|
  {
    if |rows| >= period {
      var o, h, W := Offset(g, period), period / 2, Matrix(dec, k, rows);
      MatrixSlice(dec, k, rows[period..], period, g);
      SliceCons(rows, period, g);
      SliceCons(W, period, g);
      hide Values; hide Slice; hide Offset;
      MatrixConcat(dec, k, rows[o..o + h], Slice(rows[period..], period, g));
      MatrixPart(dec, k, rows, o, o + h);
      MatrixPart(dec, k, rows, period, |rows|);
      assert rows[period..|rows|] == rows[period..] && W[period..|rows|] == W[period..];
    }
  }

  lemma MatrixConcat(dec: Bytes -> seq<real>, k: Kind, a: seq<Bytes>, c: seq<Bytes>)
    ensures Matrix(dec, k, a + c) == Matrix(dec, k, a) + Matrix(dec, k, c)
  {
    hide Values;
  }

  lemma MatrixPart(dec: Bytes -> seq<real>, k: Kind, rows: seq<Bytes>, i: nat, j: nat)
    requires i <= j <= |rows|
    ensures Matrix(dec, k, rows[i..j]) == Matrix(dec, k, rows)[i..j]
  {
    hide Values;
  }

  function Rows(t: Tensor): seq<Bytes>
    requires Valid(t) && t.ne0 > 0
  {
    RowsPositive(t);
    Units(t.data, RowBytes(t))
  }

  function PartRows(t: Tensor, g: nat): seq<Bytes>
    requires Splits(t) && g < 2 && t.ne0 > 0
  {
    RowsPositive(t);
    Units(Part(t, g), RowBytes(t))
  }

  lemma RowPart(t: Tensor, g: nat)
    requires Splits(t) && RowKind(t) && g < 2 && t.ne0 > 0 && t.ne1 > 0
    ensures RowPeriod(t) * RowBytes(t) > 0 && Part(t, g) == Slice(t.data, RowPeriod(t) * RowBytes(t), g)
  {
    RowsPositive(t);
  }

  /** The rows of a part are this GPU's halves of every period of rows, each whole. */
  lemma PartRowsAreSlice(t: Tensor, g: nat)
    requires Splits(t) && RowKind(t) && g < 2 && t.ne0 > 0 && t.ne1 > 0 && RowPeriod(t) % 2 == 0
    ensures PartRows(t, g) == Slice(Rows(t), RowPeriod(t), g)
  {
    RowPart(t, g);
    RowsPositive(t);
    UnitsOfAnySlice(t.data, RowBytes(t), RowPeriod(t), g, t.ne1);
  }

  lemma RowWidths(t: Tensor, dec: Bytes -> seq<real>)
    requires Valid(t) && t.ne0 > 0 && Decodes(dec, t.kind)
    ensures forall r :: 0 <= r < |Rows(t)| ==> |Matrix(dec, t.kind, Rows(t))[r]| == t.ne0
  {
    RowsPositive(t);
    UnitLengths(t.data, RowBytes(t));
    WholeElems(t);
    forall r | 0 <= r < |Rows(t)| ensures |Matrix(dec, t.kind, Rows(t))[r]| == t.ne0 {
      ValuesLength(dec, t.kind, Rows(t)[r], RowBlocks(t));
    }
  }

  /** Row splits multiply correctly: what a part's decoded rows compute is exactly its
      slice of what the whole decoded weight computes. */
  lemma RowPartsReassemble(t: Tensor, dec: Bytes -> seq<real>, x: seq<real>, g: nat)
    requires Splits(t) && RowKind(t) && g < 2 && t.ne0 > 0 && t.ne1 > 0 && RowPeriod(t) % 2 == 0
    requires Decodes(dec, t.kind) && |x| == t.ne0
    ensures forall r :: 0 <= r < |Rows(t)| ==> |Matrix(dec, t.kind, Rows(t))[r]| == |x|
    ensures forall r :: 0 <= r < |PartRows(t, g)| ==> |Matrix(dec, t.kind, PartRows(t, g))[r]| == |x|
    ensures MatVec(Matrix(dec, t.kind, PartRows(t, g)), x)
            == Slice(MatVec(Matrix(dec, t.kind, Rows(t)), x), RowPeriod(t), g)
  {
    RowWidths(t, dec);
    PartRowsAreSlice(t, g);
    hide *;
    MatrixSlice(dec, t.kind, Rows(t), RowPeriod(t), g);
    RowSplitReassembles(Matrix(dec, t.kind, Rows(t)), x, RowPeriod(t), g);
  }

  /** No row is lost exactly if the rows are a whole number of periods (strided kind)
      or even in number (contiguous kind). */
  lemma RowsLosslessExactly(t: Tensor)
    requires Splits(t) && RowKind(t) && t.ne0 > 0 && t.ne1 > 0
    ensures |Rows(t)| == t.ne1
    ensures EvenRows(t) <==> |PartRows(t, 0)| + |PartRows(t, 1)| == |Rows(t)|
  {
    RowsPositive(t);
    var p, rb, m := RowPeriod(t), RowBytes(t), t.ne1;
    UnitsCount(t.data, rb, m);
    var nblk, rest := RowPeriods(t);
    PartRowCount(t, 0, nblk, rest);
    PartRowCount(t, 1, nblk, rest);
    HalfPeriods(nblk, p, rest, m);
  }

  lemma RowPeriods(t: Tensor) returns (nblk: nat, rest: nat)
    requires Valid(t) && RowKind(t) && t.ne1 > 0
    ensures t.ne1 == nblk * RowPeriod(t) + rest && rest < RowPeriod(t) && (nblk == 1 || RowPeriod(t) % 2 == 0)
    ensures EvenRows(t) <==> rest == 0 && RowPeriod(t) % 2 == 0
  {
    hide NameEnds; hide RowBytes; hide BlockElems; hide BlockBytes;
    if DnStride(t.name).dim == 1 {
      nblk, rest := DivMod(t.ne1, DnStride(t.name).period);
    } else {
      nblk, rest := 1, 0;
    }
  }

  lemma PartRowCount(t: Tensor, g: nat, nblk: nat, rest: nat)
    requires Splits(t) && RowKind(t) && g < 2 && t.ne0 > 0 && t.ne1 > 0
    requires t.ne1 == nblk * RowPeriod(t) + rest && rest < RowPeriod(t) && (nblk == 1 || RowPeriod(t) % 2 == 0)
    ensures |PartRows(t, g)| == nblk * (RowPeriod(t) / 2)
  {
    RowsPositive(t);
    RowPart(t, g);
    PartRowsOfPart(t, g);
    hide *;
    SliceBlocks(t.data, t.ne1, RowPeriod(t), RowBytes(t), g, nblk, rest);
    UnitsCount(Part(t, g), RowBytes(t), nblk * (RowPeriod(t) / 2));
  }

  lemma PartRowsOfPart(t: Tensor, g: nat)
    requires Splits(t) && g < 2 && t.ne0 > 0
    ensures RowBytes(t) > 0 && |t.data| == t.ne1 * RowBytes(t) && PartRows(t, g) == Units(Part(t, g), RowBytes(t))
  {
    RowsPositive(t);
  }

  /** The per-head vectors: a part holds this GPU's eight of every sixteen scalars. */
  lemma VectorPart(t: Tensor, dec: Bytes -> seq<real>, g: nat)
    requires Splits(t) && DnStride(t.name).dim == 3 && BlockElems(t.kind) == 1 && t.ne1 == 1 && g < 2
    requires Decodes(dec, t.kind)
    ensures Values(dec, t.kind, Part(t, g)) == Slice(Values(dec, t.kind, t.data), 16, g)
  {
    var u := BlockBytes(t.kind);
    assert |t.data| == t.ne0 * u && DnStride(t.name).period == 16;
    hide Decoded; hide Units; hide Slice;
    WholePeriods(t.data, t.ne0, u, 16, g);
    SliceDecodes(dec, t.kind, t.data, t.ne0, 16, g);
    if t.data == [] { NoBlocks(dec, t.kind, g); }
  }

  lemma NoBlocks(dec: Bytes -> seq<real>, k: Kind, g: nat)
    requires g < 2
    ensures Values(dec, k, []) == [] == Slice(Values(dec, k, []), 16, g)
  {
  }
}
