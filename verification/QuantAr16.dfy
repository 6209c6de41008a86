/** The AR16 row dot: interleaved nibbles with the offset folded into the unpack,
    two weight blocks per activation block. */
module QuantAr16 {
  import opened Arith
  import opened PackedWords
  import opened RealSums
  import opened Words
  import opened QuantDot

  // ---- one block of 16 elements -----------------------------------------------------------

  /** Element t of a block's 8 bytes: byte t / 2, low nibble first, less eight. */
  function Signed(qs: Bytes, t: nat): int
    requires |qs| == 8 && t < 16
  {
    (if t % 2 == 0 then (qs[t / 2] & 0xF) as int else (qs[t / 2] >> 4) as int) - 8
  }

  function SignedDot(qs: Bytes, ys: Bytes, n: nat): int
    requires |qs| == 8 && |ys| == 16 && n <= 16
  {
    if n == 0 then 0 else SignedDot(qs, ys, n - 1) + Prod(Signed(qs, n - 1), S8(ys[n - 1]))
  }

  predicate CodeWord(qs: Bytes, i: nat, q: bv32)
    requires |qs| == 8 && i < 2
  {
    q == Pack(qs[4 * i], qs[4 * i + 1], qs[4 * i + 2], qs[4 * i + 3])
  }

  lemma LessEight(b: bv8)
    ensures S8((b & 0xF) - 8) == (b & 0xF) as int - 8 && S8((b >> 4) - 8) == (b >> 4) as int - 8
  {
    NibbleRange(b);
    NibbleLessEight(b & 0xF);
    NibbleLessEight(b >> 4);
  }

  lemma FourMore(qs: Bytes, ys: Bytes, n: nat, c: int)
    requires |qs| == 8 && |ys| == 16 && n + 4 <= 16 && c == SignedDot(qs, ys, n)
    ensures SignedDot(qs, ys, n + 4) == c + Prod(Signed(qs, n), S8(ys[n])) + Prod(Signed(qs, n + 1), S8(ys[n + 1]))
                                        + Prod(Signed(qs, n + 2), S8(ys[n + 2]))
                                            + Prod(Signed(qs, n + 3), S8(ys[n + 3]))
  {
    hide S8; hide Prod; hide Signed;
    assert SignedDot(qs, ys, n + 2) == SignedDot(qs, ys, n + 1) + Prod(Signed(qs, n + 1), S8(ys[n + 1]));
    assert SignedDot(qs, ys, n + 3) == SignedDot(qs, ys, n + 2) + Prod(Signed(qs, n + 2), S8(ys[n + 2]));
  }

  /** Four elements against activation word j. */
  lemma QuadStep(qs: Bytes, ys: Bytes, j: nat, n0: bv8, n1: bv8, n2: bv8, n3: bv8, c: int)
    requires |qs| == 8 && |ys| == 16 && j < 4 && c == SignedDot(qs, ys, 4 * j)
    requires S8(n0) == Signed(qs, 4 * j) && S8(n1) == Signed(qs, 4 * j + 1)
    requires S8(n2) == Signed(qs, 4 * j + 2) && S8(n3) == Signed(qs, 4 * j + 3)
    ensures Dp4a(Pack(n0, n1, n2, n3), Word(ys, j), c) == SignedDot(qs, ys, 4 * j + 4)
  {
    hide S8; hide Dp4a; hide Pack; hide Prod; hide SignedDot; hide Signed;
    var n := 4 * j;
    Dp4aBytes(n0, n1, n2, n3, ys[n], ys[n + 1], ys[n + 2], ys[n + 3], c);
    assert Word(ys, j) == Pack(ys[n], ys[n + 1], ys[n + 2], ys[n + 3]);
    FourMore(qs, ys, n, c);
  }

  /** Bytes 2j and 2j + 1 of a block, unpacked. */
  lemma UnpackedStep(qs: Bytes, ys: Bytes, j: nat, p: bv8, q: bv8, c: int)
    requires |qs| == 8 && |ys| == 16 && j < 4 && c == SignedDot(qs, ys, 4 * j) && p == qs[2 * j] && q == qs[2 * j + 1]
    ensures Dp4a(Pack((p & 0xF) - 8, (p >> 4) - 8, (q & 0xF) - 8, (q >> 4) - 8), Word(ys, j), c)
            == SignedDot(qs, ys, 4 * j + 4)
  {
    hide S8; hide Dp4a; hide Pack; hide Word; hide SignedDot; hide Signed;
    LessEight(p);
    LessEight(q);
    SignedAt(qs, j);
    QuadStep(qs, ys, j, (p & 0xF) - 8, (p >> 4) - 8, (q & 0xF) - 8, (q >> 4) - 8, c);
  }

  lemma SignedAt(qs: Bytes, j: nat)
    requires |qs| == 8 && j < 4
    ensures Signed(qs, 4 * j) == (qs[2 * j] & 0xF) as int - 8 && Signed(qs, 4 * j + 1) == (qs[2 * j] >> 4) as int - 8
    ensures Signed(qs, 4 * j + 2) == (qs[2 * j + 1] & 0xF) as int - 8
            && Signed(qs, 4 * j + 3) == (qs[2 * j + 1] >> 4) as int - 8
  {
  }

  lemma NothingYet(qs: Bytes, ys: Bytes)
    requires |qs| == 8 && |ys| == 16
    ensures SignedDot(qs, ys, 0) == 0
  {
  }

  /** The two code words of a block, each unpacked into two activation words; the sum
      never leaves 32 bits. */
  method CodeDot(v: seq<bv32>, ys: Bytes, ghost qs: Bytes) returns (sumi: i32)
    requires |v| == 2 && |ys| == 16 && |qs| == 8 && forall i :: 0 <= i < 2 ==> CodeWord(qs, i, v[i])
    ensures sumi == SignedDot(qs, ys, 16)
  {
    hide Dp4a; hide UnpackX; hide UnpackY; hide Word; hide S8; hide Pack; hide SignedDot;
    sumi := 0;
    NothingYet(qs, ys);
    for i := 0 to 2
      invariant sumi == SignedDot(qs, ys, 8 * i) && -131072 * i <= sumi <= 131072 * i
    {
      Dp4aRange(UnpackX(v[i]), Word(ys, 2 * i), sumi);
      Dp4aRange(UnpackY(v[i]), Word(ys, 2 * i + 1), Dp4a(UnpackX(v[i]), Word(ys, 2 * i), sumi));
      UnpackOrder(qs[4 * i], qs[4 * i + 1], qs[4 * i + 2], qs[4 * i + 3]);
      UnpackedStep(qs, ys, 2 * i, qs[4 * i], qs[4 * i + 1], sumi);
      sumi := Dp4a(UnpackX(v[i]), Word(ys, 2 * i), sumi);
      UnpackedStep(qs, ys, 2 * i + 1, qs[4 * i + 2], qs[4 * i + 3], sumi);
      sumi := Dp4a(UnpackY(v[i]), Word(ys, 2 * i + 1), sumi);
    }
  }

  // ---- a row --------------------------------------------------------------------------------------

  predicate Ar16Row(wb: Bytes, yb: Bytes, nblk: nat) {
    nblk % 2 == 0 && |wb| == 10 * nblk && |yb| == 18 * nblk
  }

  function Codes16(wb: Bytes, kb: nat): (qs: Bytes)
    requires 10 * kb + 10 <= |wb|
    ensures |qs| == 8
  {
    wb[10 * kb + 2..10 * kb + 10]
  }

  /** The half of activation block kb / 2 that goes with weight block kb. */
  function Acts16(yb: Bytes, kb: nat): (ys: Bytes)
    requires 36 * (kb / 2) + 36 <= |yb|
    ensures |ys| == 16
  {
    yb[36 * (kb / 2) + 4 + 16 * (kb % 2)..36 * (kb / 2) + 20 + 16 * (kb % 2)]
  }

  /** A block's contribution: d4 d8 sum(code q); there is no correction term. */
  function Ar16Value(d4: real, d8: real, sumi: int): real {
    (d4 * d8) * sumi as real
  }

  function Ar16Term(h: Half, wb: Bytes, yb: Bytes, nblk: nat, kb: nat): real
    requires Ar16Row(wb, yb, nblk) && kb < nblk
  {
    Ar16Value(h(PackHalf(wb[10 * kb], wb[10 * kb + 1])), h(PackHalf(yb[36 * (kb / 2)], yb[36 * (kb / 2) + 1])),
              SignedDot(Codes16(wb, kb), Acts16(yb, kb), 16))
  }

  function Ar16Terms(h: Half, wb: Bytes, yb: Bytes, nblk: nat): (z: seq<real>)
    requires Ar16Row(wb, yb, nblk)
    ensures |z| == nblk
  {
    seq(nblk, kb requires 0 <= kb < nblk => Ar16Term(h, wb, yb, nblk, kb))
  }

  // ---- what a row means ------------------------------------------------------------------------

  /** Weight i of a row: the scale of its block of 16 times its nibble less eight, two
      neighbours to a byte. */
  function Weight16(h: Half, wb: Bytes, i: nat): real
    requires 10 * (i / 16) + 10 <= |wb|
  {
    var b, j := 10 * (i / 16), i % 16;
    var code := if j % 2 == 0 then (wb[b + 2 + j / 2] & 0xF) as int else (wb[b + 2 + j / 2] >> 4) as int;
    h(PackHalf(wb[b], wb[b + 1])) * (code - 8) as real
  }

  function Weights16(h: Half, wb: Bytes, nblk: nat): (w: seq<real>)
    requires |wb| == 10 * nblk
    ensures |w| == 16 * nblk
  {
    seq(16 * nblk, i requires 0 <= i < 16 * nblk => Weight16(h, wb, i))
  }

  lemma CodeOf(wb: Bytes, kb: nat, j: nat)
    requires 10 * kb + 10 <= |wb| && j < 16
    ensures Signed(Codes16(wb, kb), j)
            == var b := wb[10 * kb + 2 + j / 2]; (if j % 2 == 0 then (b & 0xF) as int else (b >> 4) as int) - 8
  {
    assert Codes16(wb, kb)[j / 2] == wb[10 * kb + 2 + j / 2];
    hide Codes16;
  }

  lemma Weight16Is(h: Half, wb: Bytes, kb: nat, j: nat)
    requires 10 * kb + 10 <= |wb| && j < 16
    ensures 10 * ((16 * kb + j) / 16) + 10 <= |wb|
    ensures Weight16(h, wb, 16 * kb + j)
            == h(PackHalf(wb[10 * kb], wb[10 * kb + 1])) * Signed(Codes16(wb, kb), j) as real
  {
    hide PackHalf; hide Signed; hide Codes16;
    BlockIndex16(kb, j);
    CodeOf(wb, kb, j);
  }

  lemma BlockIndex16(kb: nat, j: nat)
    requires j < 16
    ensures (16 * kb + j) / 16 == kb && (16 * kb + j) % 16 == j
  {
  }

  lemma Element16(h: Half, wb: Bytes, yb: Bytes, nblk: nat, kb: nat, j: nat)
    requires Ar16Row(wb, yb, nblk) && kb < nblk && j < 16
    ensures var d4, d8 := h(PackHalf(wb[10 * kb], wb[10 * kb + 1])),
                h(PackHalf(yb[36 * (kb / 2)], yb[36 * (kb / 2) + 1]));
            Products(Weights16(h, wb, nblk), Activations(h, yb, nblk / 2))[16 * kb + j]
            == (d4 * Signed(Codes16(wb, kb), j) as real) * (d8 * S8(Acts16(yb, kb)[j]) as real)
  {
    hide PackHalf; hide Signed; hide S8; hide Weight16; hide Activation; hide Codes16; hide Acts16;
    Weight16Is(h, wb, kb, j);
    Activation16Is(h, yb, kb, j);
  }

  lemma Activation16Is(h: Half, yb: Bytes, kb: nat, j: nat)
    requires 36 * (kb / 2) + 36 <= |yb| && j < 16
    ensures 36 * ((16 * kb + j) / 32) + 36 <= |yb|
    ensures Activation(h, yb, 16 * kb + j)
            == h(PackHalf(yb[36 * (kb / 2)], yb[36 * (kb / 2) + 1])) * S8(Acts16(yb, kb)[j]) as real
  {
    hide S8; hide PackHalf;
    assert 16 * kb + j == 32 * (kb / 2) + (16 * (kb % 2) + j);
    BlockIndex(kb / 2, 16 * (kb % 2) + j);
  }

  lemma {:induction false} Prefix16(z: seq<real>, at: nat, d4: real, d8: real, qs: Bytes, ys: Bytes, n: nat)
    requires |qs| == 8 && |ys| == 16 && n <= 16 && at + 16 <= |z|
    requires forall j: nat :: j < 16 ==> z[at + j] == (d4 * Signed(qs, j) as real) * (d8 * S8(ys[j]) as real)
    ensures Sum(z[at..at + n]) == d4 * d8 * SignedDot(qs, ys, n) as real
  {
    hide Signed; hide S8; hide Prod;
    if n == 0 {
      assert z[at..at] == [];
    } else {
      Prefix16(z, at, d4, d8, qs, ys, n - 1);
      assert z[at..at + n][..n - 1] == z[at..at + n - 1] && z[at..at + n][n - 1] == z[at + (n - 1)];
      AddElement16(d4, d8, Signed(qs, n - 1), S8(ys[n - 1]), SignedDot(qs, ys, n - 1));
    }
  }

  lemma AddElement16(d4: real, d8: real, n: int, q: int, e: int)
    ensures d4 * d8 * e as real + (d4 * n as real) * (d8 * q as real) == d4 * d8 * (e + Prod(n, q)) as real
  {
    var x, y, c := n as real, q as real, d4 * d8;
    assert Prod(n, q) as real == x * y;
    Regroup4(d4, x, d8, y);
    assert (e + Prod(n, q)) as real == e as real + x * y;
    Distribute(c, e as real, x * y);
  }

  lemma Block16Means(h: Half, wb: Bytes, yb: Bytes, nblk: nat, kb: nat)
    requires Ar16Row(wb, yb, nblk) && kb < nblk
    ensures Ar16Term(h, wb, yb, nblk, kb)
            == Sum(Products(Weights16(h, wb, nblk), Activations(h, yb, nblk / 2))[16 * kb..16 * kb + 16])
  {
    hide SignedDot; hide PackHalf; hide Sum; hide Signed; hide S8; hide Weights16; hide Activations; hide Codes16;
    hide Acts16; hide Products;
    var d4, d8 := h(PackHalf(wb[10 * kb], wb[10 * kb + 1])), h(PackHalf(yb[36 * (kb / 2)], yb[36 * (kb / 2) + 1]));
    var z := Products(Weights16(h, wb, nblk), Activations(h, yb, nblk / 2));
    forall j: nat | j < 16
      ensures z[16 * kb + j] == (d4 * Signed(Codes16(wb, kb), j) as real) * (d8 * S8(Acts16(yb, kb)[j]) as real)
    {
      Element16(h, wb, yb, nblk, kb, j);
    }
    Prefix16(z, 16 * kb, d4, d8, Codes16(wb, kb), Acts16(yb, kb), 16);
  }

  /** The row is exactly the dot of the decoded weights with the decoded activations. */
  lemma Row16Means(h: Half, wb: Bytes, yb: Bytes, nblk: nat)
    requires Ar16Row(wb, yb, nblk)
    ensures Sum(Ar16Terms(h, wb, yb, nblk)) == Dot(Weights16(h, wb, nblk), Activations(h, yb, nblk / 2))
  {
    hide Weights16; hide Activations; hide Ar16Term; hide Sum;
    var p, t := Products(Weights16(h, wb, nblk), Activations(h, yb, nblk / 2)), Ar16Terms(h, wb, yb, nblk);
    hide Products;
    forall kb: nat | kb < nblk ensures t[kb] == Sum(p[16 * kb..16 * kb + 16]) { Block16Means(h, wb, yb, nblk, kb); }
    assert BlockSums(p, 16, t);
    SumOfBlocks(p, 16, t);
  }

  /** The five words of block pair p. */
  lemma FirstCodeWords(wb: Bytes, p: nat, i: nat)
    requires 20 * p + 20 <= |wb| && i < 2
    ensures CodeWord(Codes16(wb, 2 * p), i, Funnel16(Word(wb, 5 * p + i), Word(wb, 5 * p + i + 1)))
  {
    hide Pack; hide Funnel16;
    var a := 20 * p + 4 * i;
    FunnelBytes(wb[a], wb[a + 1], wb[a + 2], wb[a + 3], wb[a + 4], wb[a + 5], wb[a + 6], wb[a + 7]);
    assert Word(wb, 5 * p + i) == Pack(wb[a], wb[a + 1], wb[a + 2], wb[a + 3]);
    assert Word(wb, 5 * p + i + 1) == Pack(wb[a + 4], wb[a + 5], wb[a + 6], wb[a + 7]);
  }

  lemma SecondCodeWords(wb: Bytes, p: nat, i: nat)
    requires 20 * p + 20 <= |wb| && i < 2
    ensures CodeWord(Codes16(wb, 2 * p + 1), i, Word(wb, 5 * p + 3 + i))
  {
    hide Pack;
  }

  lemma CodeScales(wb: Bytes, p: nat)
    requires 20 * p + 20 <= |wb|
    ensures HalfLo(Word(wb, 5 * p)) == PackHalf(wb[20 * p], wb[20 * p + 1])
    ensures HalfHi(Word(wb, 5 * p + 2)) == PackHalf(wb[20 * p + 10], wb[20 * p + 11])
  {
    var a, b := 20 * p, 20 * p + 8;
    HalfBytes(wb[a], wb[a + 1], wb[a + 2], wb[a + 3]);
    HalfBytes(wb[b], wb[b + 1], wb[b + 2], wb[b + 3]);
    hide Pack; hide HalfLo; hide HalfHi; hide PackHalf;
  }

  lemma PairValue(d0: real, d1: real, d8: real, s0: int, s1: int)
    ensures d8 * (d1 * s1 as real + d0 * s0 as real) == Ar16Value(d0, d8, s0) + Ar16Value(d1, d8, s1)
  {
    Distribute(d8, d1 * s1 as real, d0 * s0 as real);
  }

  method Ar16PairSums(wb: Bytes, yb: Bytes, p: nat) returns (s0: i32, s1: i32)
    requires 20 * p + 20 <= |wb| && 36 * p + 36 <= |yb|
    ensures s0 == SignedDot(Codes16(wb, 2 * p), Acts16(yb, 2 * p), 16)
    ensures s1 == SignedDot(Codes16(wb, 2 * p + 1), Acts16(yb, 2 * p + 1), 16)
  {
    hide Funnel16; hide Word; hide CodeWord; hide SignedDot; hide Codes16; hide Acts16;
    var wv := seq(5, i requires 0 <= i < 5 => Word(wb, 5 * p + i));
    var v0 := seq(2, i requires 0 <= i < 2 => Funnel16(wv[i], wv[i + 1]));
    var v1 := seq(2, i requires 0 <= i < 2 => wv[3 + i]);
    forall i: nat | i < 2 ensures CodeWord(Codes16(wb, 2 * p), i, v0[i]) && CodeWord(Codes16(wb, 2 * p + 1), i, v1[i]) {
      FirstCodeWords(wb, p, i);
      SecondCodeWords(wb, p, i);
    }
    s0 := CodeDot(v0, Acts16(yb, 2 * p), Codes16(wb, 2 * p));
    s1 := CodeDot(v1, Acts16(yb, 2 * p + 1), Codes16(wb, 2 * p + 1));
  }

  /** One block pair: d8 (d1 s1 + d0 s0). */
  method Ar16Pair(h: Half, wb: Bytes, yb: Bytes, nblk: nat, p: nat, start: real) returns (acc: real)
    requires Ar16Row(wb, yb, nblk) && 2 * p + 1 < nblk
    ensures acc == start + (Ar16Term(h, wb, yb, nblk, 2 * p) + Ar16Term(h, wb, yb, nblk, 2 * p + 1))
  {
    hide Word; hide HalfLo; hide HalfHi; hide PackHalf; hide SignedDot; hide Ar16Value; hide Codes16; hide Acts16;
    var s0, s1 := Ar16PairSums(wb, yb, p);
    CodeScales(wb, p);
    ActScales(yb, p);
    var d0, d1, d8 := h(HalfLo(Word(wb, 5 * p))), h(HalfHi(Word(wb, 5 * p + 2))), h(HalfLo(Word(yb, 9 * p)));
    var t := d1 * s1 as real + d0 * s0 as real;
    acc := start + d8 * t;
    PairValue(d0, d1, d8, s0, s1);
  }

  lemma SingleCode(wb: Bytes, kb: nat, i: nat)
    requires 10 * kb + 10 <= |wb| && i < 2
    ensures CodeWord(Codes16(wb, kb), i, Halves(HalfAt(wb, 5 * kb + 1 + 2 * i), HalfAt(wb, 5 * kb + 2 + 2 * i)))
  {
    hide Pack; hide Halves; hide PackHalf;
    var a, qs := 10 * kb + 2 + 4 * i, Codes16(wb, kb);
    HalvesBytes(wb[a], wb[a + 1], wb[a + 2], wb[a + 3]);
    assert qs[4 * i] == wb[a] && qs[4 * i + 1] == wb[a + 1] && qs[4 * i + 2] == wb[a + 2] && qs[4 * i + 3] == wb[a + 3];
    hide Codes16;
  }

  lemma SingleTerm(h: Half, wb: Bytes, yb: Bytes, nblk: nat, kb: nat)
    requires Ar16Row(wb, yb, nblk) && kb < nblk
    ensures 36 * (kb / 2) + 36 <= |yb|
    ensures Ar16Value(h(HalfAt(wb, 5 * kb)), h(HalfLo(Word(yb, 9 * (kb / 2)))),
                      SignedDot(Codes16(wb, kb), Acts16(yb, kb), 16)) == Ar16Term(h, wb, yb, nblk, kb)
  {
    hide Word; hide HalfLo; hide PackHalf; hide SignedDot; hide Ar16Value; hide Codes16; hide Acts16;
    ActScales(yb, kb / 2);
  }

  /** One block of the tail, its half of the activation block picked by parity. */
  method Ar16Single(h: Half, wb: Bytes, yb: Bytes, nblk: nat, kb: nat, start: real) returns (acc: real)
    requires Ar16Row(wb, yb, nblk) && kb < nblk
    ensures acc == start + Ar16Term(h, wb, yb, nblk, kb)
  {
    hide Word; hide HalfLo; hide HalfHi; hide Halves; hide CodeWord; hide SignedDot; hide Ar16Value; hide Codes16;
    hide Acts16; hide Ar16Term; hide HalfAt;
    var v := seq(2, i requires 0 <= i < 2 => Halves(HalfAt(wb, 5 * kb + 1 + 2 * i), HalfAt(wb, 5 * kb + 2 + 2 * i)));
    forall i: nat | i < 2 ensures CodeWord(Codes16(wb, kb), i, v[i]) { SingleCode(wb, kb, i); }
    var sumi := CodeDot(v, Acts16(yb, kb), Codes16(wb, kb));
    SingleTerm(h, wb, yb, nblk, kb);
    acc := start + Ar16Value(h(HalfAt(wb, 5 * kb)), h(HalfLo(Word(yb, 9 * (kb / 2)))), sumi);
  }

  // ---- the lanes --------------------------------------------------------------------------------------

  method Ar16Pairs(h: Half, wb: Bytes, yb: Bytes, nblk: nat, full: nat, lane: nat) returns (acc: real)
    requires Ar16Row(wb, yb, nblk) && 2 * full <= nblk && full % LANES == 0 && lane < LANES
    ensures acc == LaneSum(Pairs(Ar16Terms(h, wb, yb, nblk), full), lane, full / LANES)
  {
    hide Ar16Term;
    ghost var z := Ar16Terms(h, wb, yb, nblk);
    acc := 0.0;
    var p := lane;
    ghost var r := 0;
    while p < full
      invariant p == r * LANES + lane && r <= full / LANES
      invariant acc == LaneSum(Pairs(z, full), lane, r)
      decreases full - p
    {
      acc := Ar16Pair(h, wb, yb, nblk, p, acc);
      assert Pairs(z, full)[p] == z[2 * p] + z[2 * p + 1];
      p := p + 32;
      r := r + 1;
    }
  }

  method Ar16Tail(h: Half, wb: Bytes, yb: Bytes, nblk: nat, from: nat, lane: nat, start: real) returns (acc: real)
    requires Ar16Row(wb, yb, nblk) && from <= nblk <= from + 64 && lane < LANES
    ensures acc == start + LaneSum(Tail(Ar16Terms(h, wb, yb, nblk), from), lane, 2)
  {
    hide Ar16Term;
    ghost var z := Ar16Terms(h, wb, yb, nblk);
    acc := start;
    var kb := from + lane;
    ghost var r := 0;
    while kb < nblk
      invariant kb == from + r * LANES + lane && r <= 2
      invariant acc == start + LaneSum(Tail(z, from), lane, r)
      decreases nblk - kb
    {
      acc := Ar16Single(h, wb, yb, nblk, kb, acc);
      assert Tail(z, from)[r * LANES + lane] == z[kb];
      kb := kb + 32;
      r := r + 1;
    }
    RestIsZero(z, from, lane, r);
  }

  /** mmvq_ar16_row: one lane's partial over a row. */
  method Ar16Lane(h: Half, wb: Bytes, yb: Bytes, nblk: nat, lane: nat) returns (acc: real)
    requires Ar16Row(wb, yb, nblk) && lane < LANES
    ensures LaneResult(Ar16Terms(h, wb, yb, nblk), lane, acc)
  {
    hide Ar16Terms; hide LaneSum; hide Tail; hide Pairs;
    var full := FullPairs(nblk / 2);
    acc := Ar16Pairs(h, wb, yb, nblk, full, lane);
    acc := Ar16Tail(h, wb, yb, nblk, 2 * full, lane, acc);
  }

  /** One output row of op_mmvq_ar16: the dot of the decoded weights with the decoded
      activations. */
  method Ar16RowDot(h: Half, wb: Bytes, yb: Bytes, ncols: nat) returns (dot: real)
    requires ncols % 32 == 0 && Ar16Row(wb, yb, ncols / 16)
    ensures dot == Dot(Weights16(h, wb, ncols / 16), Activations(h, yb, ncols / 32))
  {
    hide Ar16Terms; hide LaneResult; hide Weights16; hide Activations; hide Dot; hide Sum;
    var nblk := ncols / 16;
    var accs: seq<real> := [];
    for lane := 0 to LANES
      invariant |accs| == lane && forall l :: 0 <= l < lane ==> LaneResult(Ar16Terms(h, wb, yb, nblk), l, accs[l])
    {
      var acc := Ar16Lane(h, wb, yb, nblk, lane);
      accs := accs + [acc];
    }
    LanesVisitAll(Ar16Terms(h, wb, yb, nblk), accs);
    var v := ReduceWarp(accs);
    dot := v[0];
    Row16Means(h, wb, yb, nblk);
  }
}
