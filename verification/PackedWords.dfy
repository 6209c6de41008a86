/** Bytes in 32-bit words: shifts, nibble masks, byte permutation and the
    four-way integer dot product. */
module PackedWords {

  /** Little endian. */
  function Pack(b0: bv8, b1: bv8, b2: bv8, b3: bv8): bv32 {
    (b0 as bv32) | ((b1 as bv32) << 8) | ((b2 as bv32) << 16) | ((b3 as bv32) << 24)
  }

  function Byte0(w: bv32): bv8 { (w & 0xFF) as bv8 }
  function Byte1(w: bv32): bv8 { ((w >> 8) & 0xFF) as bv8 }
  function Byte2(w: bv32): bv8 { ((w >> 16) & 0xFF) as bv8 }
  function Byte3(w: bv32): bv8 { (w >> 24) as bv8 }

  lemma Unpacked(b0: bv8, b1: bv8, b2: bv8, b3: bv8)
    ensures var w := Pack(b0, b1, b2, b3); Byte0(w) == b0 && Byte1(w) == b1 && Byte2(w) == b2 && Byte3(w) == b3
  {
  }

  /** The low 32 bits of hi:lo shifted right by 16. */
  function Funnel16(lo: bv32, hi: bv32): bv32 {
    (hi << 16) | (lo >> 16)
  }

  lemma FunnelBytes(a0: bv8, a1: bv8, a2: bv8, a3: bv8, b0: bv8, b1: bv8, b2: bv8, b3: bv8)
    ensures Funnel16(Pack(a0, a1, a2, a3), Pack(b0, b1, b2, b3)) == Pack(a2, a3, b0, b1)
  {
  }

  /** Two half words read separately. */
  function Halves(lo: bv16, hi: bv16): bv32 {
    (lo as bv32) | ((hi as bv32) << 16)
  }

  function PackHalf(b0: bv8, b1: bv8): bv16 {
    (b0 as bv16) | ((b1 as bv16) << 8)
  }

  lemma HalvesBytes(b0: bv8, b1: bv8, b2: bv8, b3: bv8)
    ensures Halves(PackHalf(b0, b1), PackHalf(b2, b3)) == Pack(b0, b1, b2, b3)
  {
  }

  function HalfLo(w: bv32): bv16 { (w & 0xFFFF) as bv16 }
  function HalfHi(w: bv32): bv16 { (w >> 16) as bv16 }

  lemma HalfBytes(b0: bv8, b1: bv8, b2: bv8, b3: bv8)
    ensures HalfLo(Pack(b0, b1, b2, b3)) == PackHalf(b0, b1) && HalfHi(Pack(b0, b1, b2, b3)) == PackHalf(b2, b3)
  {
  }

  /** The right shift of a signed int by four: the sign comes in from the left. */
  function ShiftSigned4(w: bv32): bv32 {
    (w >> 4) | (if w >= 0x8000_0000 then 0xF000_0000 else 0)
  }

  function LowNibbles(w: bv32): bv32 { w & 0x0F0F_0F0F }
  function HighNibbles(w: bv32): bv32 { ShiftSigned4(w) & 0x0F0F_0F0F }

  lemma NibbleBytes(b0: bv8, b1: bv8, b2: bv8, b3: bv8)
    ensures LowNibbles(Pack(b0, b1, b2, b3)) == Pack(b0 & 0xF, b1 & 0xF, b2 & 0xF, b3 & 0xF)
    ensures HighNibbles(Pack(b0, b1, b2, b3)) == Pack(b0 >> 4, b1 >> 4, b2 >> 4, b3 >> 4)
  {
  }

  /** A byte as a signed number. */
  function S8(b: bv8): int {
    if b >= 0x80 then (b as int) - 256 else b as int
  }

  /** Two's complement: the one number in range that the byte is, modulo 256. */
  lemma S8Exact(b: bv8)
    ensures -128 <= S8(b) < 128 && (S8(b) == b as int || S8(b) == b as int - 256)
  {
  }

  function Prod(a: int, b: int): int {
    a * b
  }

  /** Four signed byte products added to c. */
  function Dp4a(a: bv32, b: bv32, c: int): int {
    c + Prod(S8(Byte0(a)), S8(Byte0(b))) + Prod(S8(Byte1(a)), S8(Byte1(b))) + Prod(S8(Byte2(a)), S8(Byte2(b)))
        + Prod(S8(Byte3(a)), S8(Byte3(b)))
  }

  lemma Dp4aBytes(a0: bv8, a1: bv8, a2: bv8, a3: bv8, b0: bv8, b1: bv8, b2: bv8, b3: bv8, c: int)
    ensures Dp4a(Pack(a0, a1, a2, a3), Pack(b0, b1, b2, b3), c)
         == c + Prod(S8(a0), S8(b0)) + Prod(S8(a1), S8(b1)) + Prod(S8(a2), S8(b2)) + Prod(S8(a3), S8(b3))
  {
    hide Prod; hide S8;
    Unpacked(a0, a1, a2, a3);
    Unpacked(b0, b1, b2, b3);
  }

  /** Four byte products move the sum by less than 2^17. */
  lemma Dp4aRange(a: bv32, b: bv32, c: int)
    ensures c - 65536 <= Dp4a(a, b, c) <= c + 65536
  {
    hide Byte0; hide Byte1; hide Byte2; hide Byte3; hide S8; hide Prod;
    ProdRange(Byte0(a), Byte0(b));
    ProdRange(Byte1(a), Byte1(b));
    ProdRange(Byte2(a), Byte2(b));
    ProdRange(Byte3(a), Byte3(b));
  }

  lemma ProdRange(a: bv8, b: bv8)
    ensures -16384 <= Prod(S8(a), S8(b)) <= 16384
  {
    S8Range(a);
    S8Range(b);
    hide S8;
    var x, y := S8(a), S8(b);
    if y >= 0 { Scaled(x, y); } else { Scaled(x, -y); }
  }

  lemma Scaled(x: int, y: int)
    requires -128 <= x <= 128 && y >= 0
    ensures -128 * y <= x * y <= 128 * y && x * -y == -(x * y)
  {
    assert (128 - x) * y >= 0 && (128 + x) * y >= 0;
  }

  lemma S8Range(b: bv8)
    ensures -128 <= S8(b) <= 128
  {
  }

  // ---- the interleaved-nibble unpack -----------------------------------------------------

  /** One result byte of __byte_perm: byte `sel` of the eight bytes y:x. */
  function Pick(x: bv32, y: bv32, sel: bv32): bv8 {
    if sel == 0 then Byte0(x) else if sel == 1 then Byte1(x) else if sel == 2 then Byte2(x)
        else if sel == 3 then Byte3(x)
    else if sel == 4 then Byte0(y) else if sel == 5 then Byte1(y) else if sel == 6 then Byte2(y) else Byte3(y)
  }

  function BytePerm(x: bv32, y: bv32, s: bv32): bv32 {
    Pack(Pick(x, y, s & 7), Pick(x, y, (s >> 4) & 7), Pick(x, y, (s >> 8) & 7), Pick(x, y, (s >> 12) & 7))
  }

  /** Signed saturating subtraction of one byte. */
  function SubSat(a: bv8, b: bv8): bv8 {
    var d := S8(a) - S8(b);
    if d > 127 then 0x7F else if d < -128 then 0x80 else a - b
  }

  /** The same for all four bytes: __vsubss4. */
  function SubSat4(a: bv32, b: bv32): bv32 {
    Pack(SubSat(Byte0(a), Byte0(b)), SubSat(Byte1(a), Byte1(b)), SubSat(Byte2(a), Byte2(b)), SubSat(Byte3(a), Byte3(b)))
  }

  function UnpackX(q: bv32): bv32 {
    SubSat4(BytePerm(LowNibbles(q), HighNibbles(q), 0x5140), 0x0808_0808)
  }

  function UnpackY(q: bv32): bv32 {
    SubSat4(BytePerm(LowNibbles(q), HighNibbles(q), 0x7362), 0x0808_0808)
  }

  /** A nibble less eight never saturates. */
  lemma NibbleLessEight(n: bv8)
    requires n <= 15
    ensures SubSat(n, 8) == n - 8 && S8(n - 8) == (n as int) - 8
  {
    var k := n as int;
    assert 0 <= k <= 15;
    assert n as int == k;
  }

  lemma PermBytes(a0: bv8, a1: bv8, a2: bv8, a3: bv8, b0: bv8, b1: bv8, b2: bv8, b3: bv8)
    ensures BytePerm(Pack(a0, a1, a2, a3), Pack(b0, b1, b2, b3), 0x5140) == Pack(a0, b0, a1, b1)
    ensures BytePerm(Pack(a0, a1, a2, a3), Pack(b0, b1, b2, b3), 0x7362) == Pack(a2, b2, a3, b3)
  {
    Unpacked(a0, a1, a2, a3);
    Unpacked(b0, b1, b2, b3);
  }

  /** The unpack turns four bytes of interleaved nibbles into eight signed values in
      element order, each nibble less eight. */
  lemma UnpackOrder(c0: bv8, c1: bv8, c2: bv8, c3: bv8)
    ensures UnpackX(Pack(c0, c1, c2, c3)) == Pack((c0 & 0xF) - 8, (c0 >> 4) - 8, (c1 & 0xF) - 8, (c1 >> 4) - 8)
    ensures UnpackY(Pack(c0, c1, c2, c3)) == Pack((c2 & 0xF) - 8, (c2 >> 4) - 8, (c3 & 0xF) - 8, (c3 >> 4) - 8)
  {
    hide Pack; hide LowNibbles; hide HighNibbles; hide BytePerm; hide SubSat;
    NibbleBytes(c0, c1, c2, c3);
    PermBytes(c0 & 0xF, c1 & 0xF, c2 & 0xF, c3 & 0xF, c0 >> 4, c1 >> 4, c2 >> 4, c3 >> 4);
    Eights();
    LessEight4(c0 & 0xF, c0 >> 4, c1 & 0xF, c1 >> 4);
    LessEight4(c2 & 0xF, c2 >> 4, c3 & 0xF, c3 >> 4);
    NibbleRange(c0); NibbleRange(c1); NibbleRange(c2); NibbleRange(c3);
  }

  lemma Eights()
    ensures 0x0808_0808 == Pack(8, 8, 8, 8)
  {
  }

  lemma NibbleRange(b: bv8)
    ensures b & 0xF <= 15 && b >> 4 <= 15
  {
  }

  lemma LessEight4(n0: bv8, n1: bv8, n2: bv8, n3: bv8)
    ensures n0 <= 15 && n1 <= 15 && n2 <= 15 && n3 <= 15 ==>
              SubSat4(Pack(n0, n1, n2, n3), Pack(8, 8, 8, 8)) == Pack(n0 - 8, n1 - 8, n2 - 8, n3 - 8)
  {
    if n0 <= 15 && n1 <= 15 && n2 <= 15 && n3 <= 15 {
      hide Pack;
      Unpacked(n0, n1, n2, n3);
      Unpacked(8, 8, 8, 8);
      NibbleLessEight(n0); NibbleLessEight(n1); NibbleLessEight(n2); NibbleLessEight(n3);
    }
  }
}
