/** The quantised row dot products: lanes walking packed words against the sum over
    the elements of the byte layout. */
module QuantDot {
  import opened Arith
  import opened PackedWords
  import opened RealSums
  import opened Words

  type Bytes = seq<bv8>

  /** Word i of a buffer read as 32-bit words. */
  function Word(b: Bytes, i: nat): bv32
    requires 4 * i + 4 <= |b|
  {
    Pack(b[4 * i], b[4 * i + 1], b[4 * i + 2], b[4 * i + 3])
  }

  /** Half word i of a buffer read as 16-bit words. */
  function HalfAt(b: Bytes, i: nat): bv16
    requires 2 * i + 2 <= |b|
  {
    PackHalf(b[2 * i], b[2 * i + 1])
  }

  // ---- one block of 32 elements ---------------------------------------------------------

  /** Element j of a Q4_0 block's 16 bytes: low nibbles first, then high ones. */
  function Nibble(qs: Bytes, j: nat): int
    requires |qs| == 16 && j < 32
  {
    if j < 16 then (qs[j] & 0xF) as int else (qs[j - 16] >> 4) as int
  }

  /** The first n element products of a block against signed activations. */
  function ElemDot(qs: Bytes, ys: Bytes, n: nat): int
    requires |qs| == 16 && |ys| == 32 && n <= 32
  {
    if n == 0 then 0 else ElemDot(qs, ys, n - 1) + Prod(Nibble(qs, n - 1), S8(ys[n - 1]))
  }

  function LowDot(qs: Bytes, ys: Bytes, n: nat): int
    requires |qs| == 16 && |ys| == 32 && n <= 16
  {
    if n == 0 then 0 else LowDot(qs, ys, n - 1) + Prod((qs[n - 1] & 0xF) as int, S8(ys[n - 1]))
  }

  function HighDot(qs: Bytes, ys: Bytes, n: nat): int
    requires |qs| == 16 && |ys| == 32 && n <= 16
  {
    if n == 0 then 0 else HighDot(qs, ys, n - 1) + Prod((qs[n - 1] >> 4) as int, S8(ys[16 + n - 1]))
  }

  lemma {:induction false} ElemDotLow(qs: Bytes, ys: Bytes, n: nat)
    requires |qs| == 16 && |ys| == 32 && n <= 16
    ensures ElemDot(qs, ys, n) == LowDot(qs, ys, n)
  {
    if n > 0 { ElemDotLow(qs, ys, n - 1); }
  }

  lemma {:induction false} ElemDotHigh(qs: Bytes, ys: Bytes, n: nat)
    requires |qs| == 16 && |ys| == 32 && n <= 16
    ensures ElemDot(qs, ys, 16 + n) == LowDot(qs, ys, 16) + HighDot(qs, ys, n)
  {
    if n > 0 {
      ElemDotHigh(qs, ys, n - 1);
    } else {
      ElemDotLow(qs, ys, 16);
    }
  }

  /** Word i of the block's nibbles, and words i and 4 + i of its activations. */
  predicate NibbleWord(qs: Bytes, i: nat, v: bv32)
    requires |qs| == 16 && i < 4
  {
    v == Pack(qs[4 * i], qs[4 * i + 1], qs[4 * i + 2], qs[4 * i + 3])
  }

  lemma NibbleAsByte(b: bv8)
    ensures S8(b & 0xF) == (b & 0xF) as int && S8(b >> 4) == (b >> 4) as int
  {
  }

  /** Four low nibbles, four high nibbles. */
  lemma LowStep(qs: Bytes, ys: Bytes, i: nat, n0: bv8, n1: bv8, n2: bv8, n3: bv8, c: int)
    requires |qs| == 16 && |ys| == 32 && i < 4
    requires S8(n0) == (qs[4 * i] & 0xF) as int && S8(n1) == (qs[4 * i + 1] & 0xF) as int
    requires S8(n2) == (qs[4 * i + 2] & 0xF) as int && S8(n3) == (qs[4 * i + 3] & 0xF) as int
    ensures Dp4a(Pack(n0, n1, n2, n3), Word(ys, i), c) + LowDot(qs, ys, 4 * i) == c + LowDot(qs, ys, 4 * i + 4)
  {
    hide S8; hide Dp4a; hide Pack; hide Prod; hide LowDot;
    var a := 4 * i;
    Dp4aBytes(n0, n1, n2, n3, ys[a], ys[a + 1], ys[a + 2], ys[a + 3], c);
    assert Word(ys, i) == Pack(ys[a], ys[a + 1], ys[a + 2], ys[a + 3]);
    LowFour(qs, ys, a);
  }

  lemma HighStep(qs: Bytes, ys: Bytes, i: nat, n0: bv8, n1: bv8, n2: bv8, n3: bv8, c: int)
    requires |qs| == 16 && |ys| == 32 && i < 4
    requires S8(n0) == (qs[4 * i] >> 4) as int && S8(n1) == (qs[4 * i + 1] >> 4) as int
    requires S8(n2) == (qs[4 * i + 2] >> 4) as int && S8(n3) == (qs[4 * i + 3] >> 4) as int
    ensures Dp4a(Pack(n0, n1, n2, n3), Word(ys, 4 + i), c) + HighDot(qs, ys, 4 * i) == c + HighDot(qs, ys, 4 * i + 4)
  {
    hide S8; hide Dp4a; hide Pack; hide Prod; hide HighDot;
    var b := 16 + 4 * i;
    Dp4aBytes(n0, n1, n2, n3, ys[b], ys[b + 1], ys[b + 2], ys[b + 3], c);
    assert Word(ys, 4 + i) == Pack(ys[b], ys[b + 1], ys[b + 2], ys[b + 3]);
    HighFour(qs, ys, 4 * i);
  }

  /** One step of the four: two packed products. */
  lemma BlockStep(qs: Bytes, ys: Bytes, i: nat, v: bv32, c: int)
    requires |qs| == 16 && |ys| == 32 && i < 4 && NibbleWord(qs, i, v)
    requires c == LowDot(qs, ys, 4 * i) + HighDot(qs, ys, 4 * i)
    ensures var c' := Dp4a(LowNibbles(v), Word(ys, i), c);
            Dp4a(HighNibbles(v), Word(ys, 4 + i), c') == LowDot(qs, ys, 4 * i + 4) + HighDot(qs, ys, 4 * i + 4)
  {
    hide S8; hide Dp4a; hide Pack; hide LowNibbles; hide HighNibbles; hide Prod; hide LowDot; hide HighDot; hide Word;
    var q0, q1, q2, q3 := qs[4 * i], qs[4 * i + 1], qs[4 * i + 2], qs[4 * i + 3];
    NibbleBytes(q0, q1, q2, q3);
    NibbleAsByte(q0); NibbleAsByte(q1); NibbleAsByte(q2); NibbleAsByte(q3);
    LowStep(qs, ys, i, q0 & 0xF, q1 & 0xF, q2 & 0xF, q3 & 0xF, c);
    HighStep(qs, ys, i, q0 >> 4, q1 >> 4, q2 >> 4, q3 >> 4, Dp4a(LowNibbles(v), Word(ys, i), c));
  }

  lemma LowFour(qs: Bytes, ys: Bytes, n: nat)
    requires |qs| == 16 && |ys| == 32 && n + 4 <= 16
    ensures LowDot(qs, ys, n + 4) == LowDot(qs, ys, n) + Prod((qs[n] & 0xF) as int, S8(ys[n]))
            + Prod((qs[n + 1] & 0xF) as int, S8(ys[n + 1]))
                                     + Prod((qs[n + 2] & 0xF) as int, S8(ys[n + 2]))
                                         + Prod((qs[n + 3] & 0xF) as int, S8(ys[n + 3]))
  {
    hide S8; hide Prod;
    assert LowDot(qs, ys, n + 2) == LowDot(qs, ys, n + 1) + Prod((qs[n + 1] & 0xF) as int, S8(ys[n + 1]));
    assert LowDot(qs, ys, n + 3) == LowDot(qs, ys, n + 2) + Prod((qs[n + 2] & 0xF) as int, S8(ys[n + 2]));
  }

  lemma HighFour(qs: Bytes, ys: Bytes, n: nat)
    requires |qs| == 16 && |ys| == 32 && n + 4 <= 16
    ensures HighDot(qs, ys, n + 4) == HighDot(qs, ys, n) + Prod((qs[n] >> 4) as int, S8(ys[16 + n]))
            + Prod((qs[n + 1] >> 4) as int, S8(ys[16 + n + 1]))
                                      + Prod((qs[n + 2] >> 4) as int, S8(ys[16 + n + 2]))
                                          + Prod((qs[n + 3] >> 4) as int, S8(ys[16 + n + 3]))
  {
    hide S8; hide Prod;
    assert HighDot(qs, ys, n + 2) == HighDot(qs, ys, n + 1) + Prod((qs[n + 1] >> 4) as int, S8(ys[16 + n + 1]));
    assert HighDot(qs, ys, n + 3) == HighDot(qs, ys, n + 2) + Prod((qs[n + 2] >> 4) as int, S8(ys[16 + n + 2]));
  }

  /** The four-step loop over a block's packed words; the sum never leaves 32 bits. */
  method BlockDot(v: seq<bv32>, ys: Bytes, ghost qs: Bytes) returns (sumi: i32)
    requires |v| == 4 && |ys| == 32 && |qs| == 16 && forall i :: 0 <= i < 4 ==> NibbleWord(qs, i, v[i])
    ensures sumi == ElemDot(qs, ys, 32)
  {
    hide Dp4a; hide LowNibbles; hide HighNibbles; hide Word; hide NibbleWord; hide S8;
    sumi := 0;
    for i := 0 to 4
      invariant sumi == LowDot(qs, ys, 4 * i) + HighDot(qs, ys, 4 * i) && -131072 * i <= sumi <= 131072 * i
    {
      BlockStep(qs, ys, i, v[i], sumi);
      Dp4aRange(LowNibbles(v[i]), Word(ys, i), sumi);
      Dp4aRange(HighNibbles(v[i]), Word(ys, 4 + i), Dp4a(LowNibbles(v[i]), Word(ys, i), sumi));
      sumi := Dp4a(LowNibbles(v[i]), Word(ys, i), sumi);
      sumi := Dp4a(HighNibbles(v[i]), Word(ys, 4 + i), sumi);
    }
    ElemDotHigh(qs, ys, 16);
  }

  // ---- a Q4_0 row ------------------------------------------------------------------------------

  /** The value of a 16-bit float. */
  type Half = bv16 -> real

  predicate Q40Row(wb: Bytes, yb: Bytes, nblk: nat) {
    |wb| == 18 * nblk && |yb| == 36 * nblk
  }

  /** Weight block kb: scale, then 16 bytes; activation block kb: scale and sum, then
      32 signed bytes. */
  function Codes(wb: Bytes, kb: nat): (qs: Bytes)
    requires 18 * kb + 18 <= |wb|
    ensures |qs| == 16
  {
    wb[18 * kb + 2..18 * kb + 18]
  }

  function Acts(yb: Bytes, kb: nat): (ys: Bytes)
    requires 36 * kb + 36 <= |yb|
    ensures |ys| == 32
  {
    yb[36 * kb + 4..36 * kb + 36]
  }

  /** A block's contribution: d4 (d8 sum(nibble q) - 8 s8). */
  function Q40Value(d4: real, sumi: int, d8: real, s8: real): real {
    d4 * (sumi as real * d8 + -8.0 * s8)
  }

  function Q40Term(h: Half, wb: Bytes, yb: Bytes, nblk: nat, kb: nat): real
    requires Q40Row(wb, yb, nblk) && kb < nblk
  {
    Q40Value(h(PackHalf(wb[18 * kb], wb[18 * kb + 1])), ElemDot(Codes(wb, kb), Acts(yb, kb), 32),
             h(PackHalf(yb[36 * kb], yb[36 * kb + 1])), h(PackHalf(yb[36 * kb + 2], yb[36 * kb + 3])))
  }

  function Q40Terms(h: Half, wb: Bytes, yb: Bytes, nblk: nat): (z: seq<real>)
    requires Q40Row(wb, yb, nblk)
    ensures |z| == nblk
  {
    seq(nblk, kb requires 0 <= kb < nblk => Q40Term(h, wb, yb, nblk, kb))
  }

  // ---- what a row means ------------------------------------------------------------------------

  /** Weight i of a row, as the format has it: the scale of its block times its nibble
      less eight; the low nibbles of the 16 bytes come first. */
  function Weight(h: Half, wb: Bytes, i: nat): real
    requires 18 * (i / 32) + 18 <= |wb|
  {
    var b, j := 18 * (i / 32), i % 32;
    var code := if j < 16 then (wb[b + 2 + j] & 0xF) as int else (wb[b + 2 + j - 16] >> 4) as int;
    h(PackHalf(wb[b], wb[b + 1])) * (code - 8) as real
  }

  /** Activation i: the scale of its block times its signed byte. */
  function Activation(h: Half, yb: Bytes, i: nat): real
    requires 36 * (i / 32) + 36 <= |yb|
  {
    var b, j := 36 * (i / 32), i % 32;
    h(PackHalf(yb[b], yb[b + 1])) * S8(yb[b + 4 + j]) as real
  }

  function Weights(h: Half, wb: Bytes, nblk: nat): (w: seq<real>)
    requires |wb| == 18 * nblk
    ensures |w| == 32 * nblk
  {
    seq(32 * nblk, i requires 0 <= i < 32 * nblk => Weight(h, wb, i))
  }

  function Activations(h: Half, yb: Bytes, nblk: nat): (y: seq<real>)
    requires |yb| == 36 * nblk
    ensures |y| == 32 * nblk
  {
    seq(32 * nblk, i requires 0 <= i < 32 * nblk => Activation(h, yb, i))
  }

  /** The sum of a block's first n signed bytes. */
  function ByteSum(ys: Bytes, n: nat): int
    requires n <= |ys|
  {
    if n == 0 then 0 else ByteSum(ys, n - 1) + S8(ys[n - 1])
  }

  /** The stored sum of an activation block is that of the values before they were
      quantised.  This is what it is off the sum of the quantised ones, as it enters the
      row through the eight that is taken off each nibble. */
  function Offset(h: Half, wb: Bytes, yb: Bytes, kb: nat): real
    requires 18 * kb + 18 <= |wb| && 36 * kb + 36 <= |yb|
  {
    var d4, d8, s8 := h(PackHalf(wb[18 * kb], wb[18 * kb + 1])), h(PackHalf(yb[36 * kb], yb[36 * kb + 1])),
        h(PackHalf(yb[36 * kb + 2], yb[36 * kb + 3]));
    8.0 * d4 * (d8 * ByteSum(yb[36 * kb + 4..36 * kb + 36], 32) as real - s8)
  }

  function Offsets(h: Half, wb: Bytes, yb: Bytes, nblk: nat): (z: seq<real>)
    requires Q40Row(wb, yb, nblk)
    ensures |z| == nblk
  {
    seq(nblk, kb requires 0 <= kb < nblk => Offset(h, wb, yb, kb))
  }

  lemma BlockIndex(kb: nat, j: nat)
    requires j < 32
    ensures (32 * kb + j) / 32 == kb && (32 * kb + j) % 32 == j
  {
  }

  lemma WeightIs(h: Half, wb: Bytes, kb: nat, j: nat)
    requires 18 * kb + 18 <= |wb| && j < 32
    ensures 18 * ((32 * kb + j) / 32) + 18 <= |wb|
    ensures Weight(h, wb, 32 * kb + j)
            == h(PackHalf(wb[18 * kb], wb[18 * kb + 1])) * (Nibble(Codes(wb, kb), j) - 8) as real
  {
    hide PackHalf;
    BlockIndex(kb, j);
    assert Nibble(Codes(wb, kb), j)
        == if j < 16 then (wb[18 * kb + 2 + j] & 0xF) as int else (wb[18 * kb + 2 + j - 16] >> 4) as int;
  }

  lemma ActivationIs(h: Half, yb: Bytes, kb: nat, j: nat)
    requires 36 * kb + 36 <= |yb| && j < 32
    ensures 36 * ((32 * kb + j) / 32) + 36 <= |yb|
    ensures Activation(h, yb, 32 * kb + j) == h(PackHalf(yb[36 * kb], yb[36 * kb + 1])) * S8(Acts(yb, kb)[j]) as real
  {
    hide S8; hide PackHalf;
    BlockIndex(kb, j);
  }

  lemma ElementValue(h: Half, wb: Bytes, yb: Bytes, nblk: nat, kb: nat, j: nat)
    requires Q40Row(wb, yb, nblk) && kb < nblk && j < 32
    ensures var d4, d8 := h(PackHalf(wb[18 * kb], wb[18 * kb + 1])), h(PackHalf(yb[36 * kb], yb[36 * kb + 1]));
            Products(Weights(h, wb, nblk), Activations(h, yb, nblk))[32 * kb + j]
            == (d4 * (Nibble(Codes(wb, kb), j) - 8) as real) * (d8 * S8(Acts(yb, kb)[j]) as real)
  {
    hide S8; hide PackHalf; hide Weight; hide Activation; hide Nibble; hide Codes; hide Acts;
    WeightIs(h, wb, kb, j);
    ActivationIs(h, yb, kb, j);
  }

  lemma AddElement(d4: real, d8: real, n: int, q: int, e: int, s: int)
    ensures d4 * d8 * e as real - 8.0 * d4 * d8 * s as real + (d4 * (n - 8) as real) * (d8 * q as real)
            == d4 * d8 * (e + Prod(n, q)) as real - 8.0 * d4 * d8 * (s + q) as real
  {
    var x, y, c := n as real, q as real, d4 * d8;
    assert Prod(n, q) as real == x * y;
    assert (n - 8) as real == x - 8.0;
    Regroup4(d4, x - 8.0, d8, y);
    assert c * ((x - 8.0) * y) == c * (x * y) - 8.0 * c * y;
    assert (e + Prod(n, q)) as real == e as real + x * y && (s + q) as real == s as real + y;
    Distribute(c, e as real, x * y);
    Distribute(8.0 * c, s as real, y);
  }

  lemma Regroup4(a: real, x: real, b: real, y: real)
    ensures (a * x) * (b * y) == (a * b) * (x * y)
  {
  }

  /** The first n elements of a block, which begins at element `at` of the products. */
  lemma {:induction false} BlockPrefix(z: seq<real>, at: nat, d4: real, d8: real, qs: Bytes, ys: Bytes, n: nat)
    requires |qs| == 16 && |ys| == 32 && n <= 32 && at + 32 <= |z|
    requires forall j: nat :: j < 32 ==> z[at + j] == (d4 * (Nibble(qs, j) - 8) as real) * (d8 * S8(ys[j]) as real)
    ensures Sum(z[at..at + n]) == d4 * d8 * ElemDot(qs, ys, n) as real - 8.0 * d4 * d8 * ByteSum(ys, n) as real
  {
    hide Nibble; hide S8; hide Prod;
    if n == 0 {
      assert z[at..at] == [];
    } else {
      BlockPrefix(z, at, d4, d8, qs, ys, n - 1);
      assert z[at..at + n][..n - 1] == z[at..at + n - 1] && z[at..at + n][n - 1] == z[at + (n - 1)];
      AddElement(d4, d8, Nibble(qs, n - 1), S8(ys[n - 1]), ElemDot(qs, ys, n - 1), ByteSum(ys, n - 1));
    }
  }

  /** A block adds the dot of its weights with its activations, and its offset. */
  lemma BlockMeans(h: Half, wb: Bytes, yb: Bytes, nblk: nat, kb: nat)
    requires Q40Row(wb, yb, nblk) && kb < nblk
    ensures Q40Term(h, wb, yb, nblk, kb)
            == Sum(Products(Weights(h, wb, nblk), Activations(h, yb, nblk))[32 * kb..32 * kb + 32])
               + Offset(h, wb, yb, kb)
  {
    hide Weights; hide Activations; hide Products; hide ElemDot; hide ByteSum; hide PackHalf; hide Sum; hide Nibble;
    hide S8;
    var d4, d8, s8 := h(PackHalf(wb[18 * kb], wb[18 * kb + 1])), h(PackHalf(yb[36 * kb], yb[36 * kb + 1])),
        h(PackHalf(yb[36 * kb + 2], yb[36 * kb + 3]));
    var z := Products(Weights(h, wb, nblk), Activations(h, yb, nblk));
    forall j: nat | j < 32
      ensures z[32 * kb + j] == (d4 * (Nibble(Codes(wb, kb), j) - 8) as real) * (d8 * S8(Acts(yb, kb)[j]) as real)
    {
      ElementValue(h, wb, yb, nblk, kb, j);
    }
    BlockPrefix(z, 32 * kb, d4, d8, Codes(wb, kb), Acts(yb, kb), 32);
    TermSplits(d4, d8, s8, ElemDot(Codes(wb, kb), Acts(yb, kb), 32), ByteSum(Acts(yb, kb), 32));
  }

  lemma TermSplits(d4: real, d8: real, s8: real, e: int, s: int)
    ensures Q40Value(d4, e, d8, s8)
            == (d4 * d8 * e as real - 8.0 * d4 * d8 * s as real) + 8.0 * d4 * (d8 * s as real - s8)
  {
  }

  /** The row is the dot of the decoded weights with the decoded activations, and the
      offsets of its blocks. */
  lemma RowMeans(h: Half, wb: Bytes, yb: Bytes, nblk: nat)
    requires Q40Row(wb, yb, nblk)
    ensures Sum(Q40Terms(h, wb, yb, nblk))
            == Dot(Weights(h, wb, nblk), Activations(h, yb, nblk)) + Sum(Offsets(h, wb, yb, nblk))
  {
    hide Weights; hide Activations; hide Q40Term; hide Offset; hide Sum;
    var p, o, t := Products(Weights(h, wb, nblk), Activations(h, yb, nblk)), Offsets(h, wb, yb, nblk),
        Q40Terms(h, wb, yb, nblk);
    hide Products;
    var z := seq(nblk, kb requires 0 <= kb < nblk => Sum(p[32 * kb..32 * kb + 32]));
    forall kb: nat | kb < nblk ensures t[kb] == Plus(z, o)[kb] { BlockMeans(h, wb, yb, nblk, kb); }
    assert t == Plus(z, o);
    SumPlus(z, o);
    assert BlockSums(p, 32, z);
    SumOfBlocks(p, 32, z);
  }

  /** Where every stored sum is the sum of the quantised values, or the weights of its
      block are all zero, the row is exactly the dot of the decoded values. */
  lemma OffsetVanishes(h: Half, wb: Bytes, yb: Bytes, kb: nat)
    requires 18 * kb + 18 <= |wb| && 36 * kb + 36 <= |yb|
    ensures Offset(h, wb, yb, kb) == 0.0 <==>
              || h(PackHalf(wb[18 * kb], wb[18 * kb + 1])) == 0.0
              || h(PackHalf(yb[36 * kb + 2], yb[36 * kb + 3]))
                 == h(PackHalf(yb[36 * kb], yb[36 * kb + 1])) * ByteSum(yb[36 * kb + 4..36 * kb + 36], 32) as real
  {
    hide PackHalf; hide ByteSum;
    var d4 := h(PackHalf(wb[18 * kb], wb[18 * kb + 1]));
    var gap := h(PackHalf(yb[36 * kb], yb[36 * kb + 1])) * ByteSum(yb[36 * kb + 4..36 * kb + 36], 32) as real
               - h(PackHalf(yb[36 * kb + 2], yb[36 * kb + 3]));
    ZeroProduct(d4, gap);
  }

  lemma ZeroProduct(x: real, y: real)
    ensures 8.0 * x * y == 0.0 <==> x == 0.0 || y == 0.0
  {
  }

  /** It does not vanish in general: all quantised values zero, and a stored sum and a
      weight scale that are not. */
  const ROUNDED_W: Bytes := [1] + seq(35, _ => 0)
  const ROUNDED_Y: Bytes := [0, 0, 1] + seq(69, _ => 0)

  lemma SumIsRaw(h: Half)
    requires h(0) == 0.0 && h(1) != 0.0
    ensures Q40Row(ROUNDED_W, ROUNDED_Y, 2) && Sum(Offsets(h, ROUNDED_W, ROUNDED_Y, 2)) != 0.0
  {
    assert PackHalf(1, 0) == 1 && PackHalf(0, 0) == 0;
    hide PackHalf; hide ByteSum;
    var o := Offsets(h, ROUNDED_W, ROUNDED_Y, 2);
    assert o[0] == 8.0 * h(1) * -h(1) && o[1] == 0.0;
    assert o[..1][..0] == [] && Sum(o[..1]) == o[0];
    ZeroProduct(h(1), -h(1));
  }

  lemma ExactRow(h: Half, wb: Bytes, yb: Bytes, nblk: nat)
    requires Q40Row(wb, yb, nblk) && forall kb: nat :: kb < nblk ==> Offset(h, wb, yb, kb) == 0.0
    ensures Sum(Offsets(h, wb, yb, nblk)) == 0.0
  {
    SumZeros(nblk);
    assert Offsets(h, wb, yb, nblk) == seq(nblk, _ => 0.0);
  }

  /** The words of block pair p: the first block's nibbles straddle words, the
      second's do not. */
  lemma PairWords(wb: Bytes, p: nat, i: nat)
    requires 36 * p + 36 <= |wb| && i < 4
    ensures NibbleWord(Codes(wb, 2 * p), i, Funnel16(Word(wb, 9 * p + i), Word(wb, 9 * p + i + 1)))
    ensures NibbleWord(Codes(wb, 2 * p + 1), i, Word(wb, 9 * p + 5 + i))
  {
    hide Pack; hide Funnel16;
    FirstWords(wb, p, i);
  }

  lemma FirstWords(wb: Bytes, p: nat, i: nat)
    requires 36 * p + 36 <= |wb| && i < 4
    ensures NibbleWord(Codes(wb, 2 * p), i, Funnel16(Word(wb, 9 * p + i), Word(wb, 9 * p + i + 1)))
  {
    hide Pack; hide Funnel16;
    var a := 36 * p + 4 * i;
    FunnelBytes(wb[a], wb[a + 1], wb[a + 2], wb[a + 3], wb[a + 4], wb[a + 5], wb[a + 6], wb[a + 7]);
    assert Word(wb, 9 * p + i) == Pack(wb[a], wb[a + 1], wb[a + 2], wb[a + 3]);
    assert Word(wb, 9 * p + i + 1) == Pack(wb[a + 4], wb[a + 5], wb[a + 6], wb[a + 7]);
  }

  lemma PairScales(wb: Bytes, p: nat)
    requires 36 * p + 36 <= |wb|
    ensures HalfLo(Word(wb, 9 * p)) == PackHalf(wb[36 * p], wb[36 * p + 1])
    ensures HalfHi(Word(wb, 9 * p + 4)) == PackHalf(wb[36 * p + 18], wb[36 * p + 19])
  {
    var a, b := 36 * p, 36 * p + 16;
    HalfBytes(wb[a], wb[a + 1], wb[a + 2], wb[a + 3]);
    HalfBytes(wb[b], wb[b + 1], wb[b + 2], wb[b + 3]);
    hide Pack; hide HalfLo; hide HalfHi; hide PackHalf;
  }

  lemma ActScales(yb: Bytes, kb: nat)
    requires 36 * kb + 36 <= |yb|
    ensures HalfLo(Word(yb, 9 * kb)) == PackHalf(yb[36 * kb], yb[36 * kb + 1])
    ensures HalfHi(Word(yb, 9 * kb)) == PackHalf(yb[36 * kb + 2], yb[36 * kb + 3])
  {
    var a := 36 * kb;
    HalfBytes(yb[a], yb[a + 1], yb[a + 2], yb[a + 3]);
    hide Pack; hide HalfLo; hide HalfHi; hide PackHalf;
  }

  /** The two integer sums of a block pair. */
  method Q40PairSums(wb: Bytes, yb: Bytes, p: nat) returns (s0: i32, s1: i32)
    requires 36 * p + 36 <= |wb| && 72 * p + 72 <= |yb|
    ensures s0 == ElemDot(Codes(wb, 2 * p), Acts(yb, 2 * p), 32)
    ensures s1 == ElemDot(Codes(wb, 2 * p + 1), Acts(yb, 2 * p + 1), 32)
  {
    hide Funnel16; hide Word; hide NibbleWord; hide ElemDot; hide Codes; hide Acts;
    var wv := seq(9, i requires 0 <= i < 9 => Word(wb, 9 * p + i));
    var v0 := seq(4, i requires 0 <= i < 4 => Funnel16(wv[i], wv[i + 1]));
    var v1 := seq(4, i requires 0 <= i < 4 => wv[5 + i]);
    forall i: nat | i < 4 ensures NibbleWord(Codes(wb, 2 * p), i, v0[i]) && NibbleWord(Codes(wb, 2 * p + 1), i, v1[i]) {
      PairWords(wb, p, i);
    }
    s0 := BlockDot(v0, Acts(yb, 2 * p), Codes(wb, 2 * p));
    s1 := BlockDot(v1, Acts(yb, 2 * p + 1), Codes(wb, 2 * p + 1));
  }

  /** One block pair of the pair-word loop. */
  method Q40Pair(h: Half, wb: Bytes, yb: Bytes, nblk: nat, p: nat, start: real) returns (acc: real)
    requires Q40Row(wb, yb, nblk) && 2 * p + 1 < nblk
    ensures acc == start + (Q40Term(h, wb, yb, nblk, 2 * p) + Q40Term(h, wb, yb, nblk, 2 * p + 1))
  {
    hide Word; hide HalfLo; hide HalfHi; hide PackHalf; hide ElemDot; hide Q40Value; hide Codes; hide Acts;
    var s0, s1 := Q40PairSums(wb, yb, p);
    PairScales(wb, p);
    ActScales(yb, 2 * p);
    ActScales(yb, 2 * p + 1);
    var q0, q1 := Word(yb, 9 * (2 * p)), Word(yb, 9 * (2 * p + 1));
    acc := start + Q40Value(h(HalfLo(Word(wb, 9 * p))), s0, h(HalfLo(q0)), h(HalfHi(q0)));
    acc := acc + Q40Value(h(HalfHi(Word(wb, 9 * p + 4))), s1, h(HalfLo(q1)), h(HalfHi(q1)));
  }

  /** One block of the tail loop, read as 16-bit words. */
  method Q40Single(h: Half, wb: Bytes, yb: Bytes, nblk: nat, kb: nat, start: real) returns (acc: real)
    requires Q40Row(wb, yb, nblk) && kb < nblk
    ensures acc == start + Q40Term(h, wb, yb, nblk, kb)
  {
    hide Word; hide HalfLo; hide HalfHi; hide Halves; hide NibbleWord; hide ElemDot; hide Q40Value;
    var v := seq(4, i requires 0 <= i < 4 => Halves(HalfAt(wb, 9 * kb + 1 + 2 * i), HalfAt(wb, 9 * kb + 2 + 2 * i)));
    forall i: nat | i < 4 ensures NibbleWord(Codes(wb, kb), i, v[i]) { SingleWord(wb, kb, i); }
    var sumi := BlockDot(v, Acts(yb, kb), Codes(wb, kb));
    ActScales(yb, kb);
    var qb := Word(yb, 9 * kb);
    acc := start + Q40Value(h(HalfAt(wb, 9 * kb)), sumi, h(HalfLo(qb)), h(HalfHi(qb)));
  }

  lemma SingleWord(wb: Bytes, kb: nat, i: nat)
    requires 18 * kb + 18 <= |wb| && i < 4
    ensures NibbleWord(Codes(wb, kb), i, Halves(HalfAt(wb, 9 * kb + 1 + 2 * i), HalfAt(wb, 9 * kb + 2 + 2 * i)))
  {
    var a := 18 * kb + 2 + 4 * i;
    HalvesBytes(wb[a], wb[a + 1], wb[a + 2], wb[a + 3]);
    hide Pack; hide Halves; hide PackHalf;
  }

  // ---- the two loops of a lane, for any block terms -------------------------------------------------

  /** Pairs taken by full warps: the number rounded down to a multiple of 32. */
  function FullPairs(npair: nat): (f: nat)
    ensures f <= npair < f + 32 && f % 32 == 0
  {
    npair - npair % 32
  }

  /** The terms behind the full pairs, padded to two rows of lanes. */
  function Tail(z: seq<real>, from: nat): (t: seq<real>)
    requires from <= |z| <= from + 64
    ensures |t| == 64
  {
    seq(64, i requires 0 <= i < 64 => if i < |z[from..]| then z[from..][i] else 0.0)
  }

  /** What lane `lane` of the pair loop and the tail loop adds up. */
  ghost predicate LaneResult(z: seq<real>, lane: nat, acc: real)
    requires |z| % 2 == 0 && lane < LANES
  {
    var full := FullPairs(|z| / 2);
    acc == LaneSum(Pairs(z, full), lane, full / LANES) + LaneSum(Tail(z, 2 * full), lane, 2)
  }

  /** All lanes together visit every block exactly once. */
  lemma LanesVisitAll(z: seq<real>, accs: seq<real>)
    requires |z| % 2 == 0 && |accs| == LANES && forall l :: 0 <= l < LANES ==> LaneResult(z, l, accs[l])
    ensures Sum(accs) == Sum(z)
  {
    hide Sum; hide LaneSum;
    var full := FullPairs(|z| / 2);
    var P, T := LaneSums(Pairs(z, full), full / LANES), LaneSums(Tail(z, 2 * full), 2);
    assert accs == Plus(P, T);
    SumPlus(P, T);
    LanesAddUp(Pairs(z, full), full / LANES);
    LanesAddUp(Tail(z, 2 * full), 2);
    assert Pairs(z, full)[..full / LANES * LANES] == Pairs(z, full);
    assert Tail(z, 2 * full)[..2 * LANES] == Tail(z, 2 * full);
    PairsAddUp(z, full);
    PaddingKeepsSum(z[2 * full..], 64);
    SumConcat(z[..2 * full], z[2 * full..]);
    assert z == z[..2 * full] + z[2 * full..];
  }

  /** The pair-word loop of a lane. */
  method Q40Pairs(h: Half, wb: Bytes, yb: Bytes, nblk: nat, full: nat, lane: nat) returns (acc: real)
    requires Q40Row(wb, yb, nblk) && 2 * full <= nblk && full % LANES == 0 && lane < LANES
    ensures acc == LaneSum(Pairs(Q40Terms(h, wb, yb, nblk), full), lane, full / LANES)
  {
    hide Q40Term;
    ghost var z := Q40Terms(h, wb, yb, nblk);
    acc := 0.0;
    var p := lane;
    ghost var r := 0;
    while p < full
      invariant p == r * LANES + lane && r <= full / LANES
      invariant acc == LaneSum(Pairs(z, full), lane, r)
      decreases full - p
    {
      acc := Q40Pair(h, wb, yb, nblk, p, acc);
      assert Pairs(z, full)[p] == z[2 * p] + z[2 * p + 1];
      p := p + 32;
      r := r + 1;
    }
  }

  /** The tail loop of a lane. */
  method Q40Tail(h: Half, wb: Bytes, yb: Bytes, nblk: nat, from: nat, lane: nat, start: real) returns (acc: real)
    requires Q40Row(wb, yb, nblk) && from <= nblk <= from + 64 && lane < LANES
    ensures acc == start + LaneSum(Tail(Q40Terms(h, wb, yb, nblk), from), lane, 2)
  {
    hide Q40Term;
    ghost var z := Q40Terms(h, wb, yb, nblk);
    acc := start;
    var kb := from + lane;
    ghost var r := 0;
    while kb < nblk
      invariant kb == from + r * LANES + lane && r <= 2
      invariant acc == start + LaneSum(Tail(z, from), lane, r)
      decreases nblk - kb
    {
      acc := Q40Single(h, wb, yb, nblk, kb, acc);
      assert Tail(z, from)[r * LANES + lane] == z[kb];
      kb := kb + 32;
      r := r + 1;
    }
    RestIsZero(z, from, lane, r);
  }

  /** mmvq_q40_row: one lane's partial over a row. */
  method Q40Lane(h: Half, wb: Bytes, yb: Bytes, nblk: nat, lane: nat) returns (acc: real)
    requires Q40Row(wb, yb, nblk) && nblk % 2 == 0 && lane < LANES
    ensures LaneResult(Q40Terms(h, wb, yb, nblk), lane, acc)
  {
    hide Q40Terms; hide LaneSum; hide Tail; hide Pairs;
    var full := FullPairs(nblk / 2);
    acc := Q40Pairs(h, wb, yb, nblk, full, lane);
    acc := Q40Tail(h, wb, yb, nblk, 2 * full, lane, acc);
  }

  /** A lane that stops early adds nothing in the rows it does not take. */
  lemma RestIsZero(z: seq<real>, from: nat, lane: nat, r: nat)
    requires from <= |z| <= from + 64 && lane < LANES && r <= 2 && from + r * LANES + lane >= |z|
    ensures LaneSum(Tail(z, from), lane, 2) == LaneSum(Tail(z, from), lane, r)
  {
    var t := Tail(z, from);
    assert LaneSum(t, lane, 2) == LaneSum(t, lane, 1) + t[LANES + lane];
    assert LaneSum(t, lane, 1) == LaneSum(t, lane, 0) + t[lane];
  }

  /** One output row of op_mmvq_q4_0: the lanes' partials closed by the butterfly are
      the dot of the decoded weights with the decoded activations, and the offsets. */
  method Q40RowDot(h: Half, wb: Bytes, yb: Bytes, ncols: nat) returns (dot: real)
    requires ncols % 64 == 0 && Q40Row(wb, yb, ncols / 32)
    ensures dot == Dot(Weights(h, wb, ncols / 32), Activations(h, yb, ncols / 32))
                   + Sum(Offsets(h, wb, yb, ncols / 32))
  {
    hide Q40Terms; hide LaneResult; hide Weights; hide Activations; hide Offsets; hide Dot; hide Sum;
    var nblk := ncols / 32;
    var accs: seq<real> := [];
    for lane := 0 to LANES
      invariant |accs| == lane && forall l :: 0 <= l < lane ==> LaneResult(Q40Terms(h, wb, yb, nblk), l, accs[l])
    {
      var acc := Q40Lane(h, wb, yb, nblk, lane);
      accs := accs + [acc];
    }
    LanesVisitAll(Q40Terms(h, wb, yb, nblk), accs);
    var v := ReduceWarp(accs);
    dot := v[0];
    RowMeans(h, wb, yb, nblk);
  }

  // ---- all rows --------------------------------------------------------------------------------------

  ghost predicate RowDone(h: Half, rows: seq<Bytes>, yb: Bytes, nblk: nat, r: nat, v: real)
    requires r < |rows| && Q40Row(rows[r], yb, nblk)
  {
    v == Dot(Weights(h, rows[r], nblk), Activations(h, yb, nblk)) + Sum(Offsets(h, rows[r], yb, nblk))
  }

  /** Row i belongs to warp gw. */
  predicate WarpOwns(i: nat, rowLo: nat, rowHi: nat, gw: nat, nwarps: nat)
    requires nwarps > 0
  {
    rowLo <= i < rowHi && (i - rowLo) % nwarps == gw
  }

  lemma NextRow(i: nat, r: nat, rowLo: nat, rowHi: nat, gw: nat, nwarps: nat)
    requires nwarps > 0 && WarpOwns(i, rowLo, rowHi, gw, nwarps) && r >= rowLo && (r - rowLo) % nwarps == gw
    ensures r <= i < r + nwarps ==> i == r
  {
    NextInStride(i - rowLo, r - rowLo, nwarps);
  }

  lemma Owner(i: nat, rowLo: nat, rowHi: nat, nwarps: nat) returns (gw: nat)
    requires nwarps > 0 && rowLo <= i < rowHi
    ensures gw < nwarps && WarpOwns(i, rowLo, rowHi, gw, nwarps)
  {
    var q, r := DivMod(i - rowLo, nwarps);
    gw := r;
  }

  /** One warp of op_mmvq_q4_0: rows rowLo + gw, then every nwarps-th. */
  method Q40Warp(h: Half, rows: seq<Bytes>, yb: Bytes, ncols: nat, dst: array<real>, rowLo: nat, rowHi: nat, gw: nat,
                 nwarps: nat)
    requires ncols % 64 == 0 && gw < nwarps && rowLo <= rowHi <= |rows| == dst.Length
    requires forall r :: 0 <= r < |rows| ==> Q40Row(rows[r], yb, ncols / 32)
    modifies dst
    ensures forall r: nat :: r < |rows| ==>
              if WarpOwns(r, rowLo, rowHi, gw, nwarps) then RowDone(h, rows, yb, ncols / 32, r, dst[r])
                  else dst[r] == old(dst[r])
  {
    var r := rowLo + gw;
    DivModUnique(gw, nwarps, 0, gw);
    while r < rowHi
      invariant r >= rowLo && (r - rowLo) % nwarps == gw
      invariant forall i: nat :: i < |rows| ==>
                  if WarpOwns(i, rowLo, rowHi, gw, nwarps) && i < r then RowDone(h, rows, yb, ncols / 32, i, dst[i])
                  else dst[i] == old(dst[i])
    {
      var dot := Q40RowDot(h, rows[r], yb, ncols);
      assert RowDone(h, rows, yb, ncols / 32, r, dot) && WarpOwns(r, rowLo, rowHi, gw, nwarps);
      NextInStride(r - rowLo, r - rowLo, nwarps);
      hide RowDone; hide WarpOwns;
      dst[r] := dot;
      forall i: nat | i < |rows| && WarpOwns(i, rowLo, rowHi, gw, nwarps) ensures r <= i < r + nwarps ==> i == r {
        NextRow(i, r, rowLo, rowHi, gw, nwarps);
      }
      assert r + nwarps - rowLo == r - rowLo + nwarps;
      r := r + nwarps;
    }
  }

  /** op_mmvq_q4_0: all warps.  Each row of the range is written by exactly one warp,
      rows outside it are left alone. */
  method Q40Op(h: Half, rows: seq<Bytes>, yb: Bytes, ncols: nat, dst: array<real>, rowLo: nat, rowHi: nat, nwarps: nat)
    requires ncols % 64 == 0 && nwarps >= 1 && rowLo <= rowHi <= |rows| == dst.Length
    requires forall r :: 0 <= r < |rows| ==> Q40Row(rows[r], yb, ncols / 32)
    modifies dst
    ensures forall r: nat :: r < |rows| ==>
              if rowLo <= r < rowHi then RowDone(h, rows, yb, ncols / 32, r, dst[r]) else dst[r] == old(dst[r])
  {
    hide RowDone;
    for gw := 0 to nwarps
      invariant forall r: nat :: r < |rows| && (exists g: nat :: g < gw && WarpOwns(r, rowLo, rowHi, g, nwarps)) ==>
                  RowDone(h, rows, yb, ncols / 32, r, dst[r])
      invariant forall r: nat :: r < |rows| && !(rowLo <= r < rowHi) ==> dst[r] == old(dst[r])
    {
      Q40Warp(h, rows, yb, ncols, dst, rowLo, rowHi, gw, nwarps);
    }
    forall r: nat | rowLo <= r < rowHi ensures RowDone(h, rows, yb, ncols / 32, r, dst[r]) {
      var g := Owner(r, rowLo, rowHi, nwarps);
    }
  }
}
