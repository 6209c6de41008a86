/** 32-bit machine words: wrap-around, and the signed distance test that every
    polling loop of the kernel uses. */
module Words {

  const WORD: int := 0x1_0000_0000
  const HALF_WORD: int := 0x8000_0000

  type u32 = x: int | 0 <= x < WORD
  type i32 = x: int | -HALF_WORD <= x < HALF_WORD

  /** The u32 that an unbounded value is truncated to. */
  function Wrap(x: int): u32 {
    x % WORD
  }

  /** Unsigned increment. */
  function Succ(w: u32): u32 {
    if w == WORD - 1 then 0 else w + 1
  }

  lemma SuccWrap(x: int)
    ensures Succ(Wrap(x)) == Wrap(x + 1)
  {
  }

  /** The C conversion of an unsigned word to int. */
  function AsSigned(w: u32): int {
    if w < HALF_WORD then w else w - WORD
  }

  /** The test `(int)(v - target) < 0`. */
  predicate Behind(v: u32, target: u32) {
    AsSigned(Wrap(v - target)) < 0
  }

  /** As long as two unbounded counts are less than half a word apart, the signed
      test on their truncations orders them exactly as the counts are ordered,
      wherever in the wrap-around cycle they lie. */
  lemma BehindIsLess(v: int, target: int)
    requires -HALF_WORD <= v - target < HALF_WORD
    ensures Behind(Wrap(v), Wrap(target)) <==> v < target
  {
    assert Wrap(Wrap(v) - Wrap(target)) == Wrap(v - target);
  }

  /** Truncating before or after a product gives the same word. */
  lemma WrapProduct(a: int, n: int)
    ensures Wrap(Wrap(a) * n) == Wrap(a * n)
  {
    var q := a / WORD;
    assert a == q * WORD + Wrap(a);
    assert a * n == (q * n) * WORD + Wrap(a) * n;
    WrapShift(Wrap(a) * n, q * n);
  }

  lemma WrapShift(x: int, k: int)
    ensures Wrap(x + k * WORD) == Wrap(x)
  {
  }
}
