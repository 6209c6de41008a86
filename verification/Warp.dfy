/** The warp reduction: every lane adds the value of the lane whose number differs
    in one bit, for each bit from the highest to the lowest. */
module Warp {
  import opened Arith

  /** The lane whose number differs from i in the bit `off`. */
  function Partner(i: nat, off: nat): nat
    requires off > 0
  {
    if (i / off) % 2 == 0 then i + off else if i >= off then i - off else i
  }

  /** For the offsets of a warp this is the exclusive or that the shuffle uses. */
  lemma PartnerIsXor(i: bv8, off: bv8)
    requires off == 1 || off == 2 || off == 4 || off == 8 || off == 16
    ensures i ^ off == if (i / off) % 2 == 0 then i + off else i - off
  {
  }

  /** All lanes at once exchange with their partners and add. */
  function Stage<T>(add: (T, T) -> T, v: seq<T>, off: nat): (v': seq<T>)
    requires off > 0
    ensures |v'| == |v|
  {
    seq(|v|, i requires 0 <= i < |v| => var j := Partner(i, off); if j < |v| then add(v[i], v[j]) else v[i])
  }

  function Stages<T>(add: (T, T) -> T, v: seq<T>, k: nat): (v': seq<T>)
    ensures |v'| == |v|
    decreases k
  {
    if k == 0 then v else Stages(add, Stage(add, v, Pow2(k - 1)), k - 1)
  }

  /** The loop of warp_sum, all lanes in step, for a warp of 2^k lanes. */
  method WarpSum<T>(add: (T, T) -> T, lanes: seq<T>, k: nat) returns (v: seq<T>)
    requires |lanes| == Pow2(k)
    ensures v == Stages(add, lanes, k)
  {
    v := lanes;
    var j := k;
    while j > 0
      invariant 0 <= j <= k && |v| == |lanes| && Stages(add, v, j) == Stages(add, lanes, k)
    {
      v := Stage(add, v, Pow2(j - 1));
      j := j - 1;
    }
  }

  // ---- what the lanes end up with -----------------------------------------------------

  /** The second half added onto the first. */
  function Halve<T>(add: (T, T) -> T, s: seq<T>): (h: seq<T>)
    ensures |h| == |s| / 2
  {
    seq(|s| / 2, r requires 0 <= r < |s| / 2 => add(s[r], s[r + |s| / 2]))
  }

  /** One fixed tree of additions over all lanes. */
  function Tree<T>(add: (T, T) -> T, s: seq<T>): T
    requires |s| >= 1
    decreases |s|
  {
    if |s| == 1 then s[0] else Tree(add, Halve(add, s))
  }

  ghost predicate Commutative<T(!new)>(add: (T, T) -> T) {
    forall x: T, y: T :: add(x, y) == add(y, x)
  }

  ghost predicate Associative<T(!new)>(add: (T, T) -> T) {
    forall x: T, y: T, z: T :: add(add(x, y), z) == add(x, add(y, z))
  }

  /** Lane i holds entry i mod |f|. */
  ghost predicate Periodic<T>(v: seq<T>, f: seq<T>) {
    |f| > 0 && forall i :: 0 <= i < |v| ==> v[i] == f[i % |f|]
  }

  lemma HalfBlocks(q: nat, h: nat, w: nat)
    requires w == 2 * h
    ensures q * w == (2 * q) * h && q * w + h == (2 * q + 1) * h
  {
  }

  /** A lane's place r in its block of w = 2h lanes, by the bit h of its number. */
  lemma BitCases(i: nat, h: nat, w: nat, q: nat, r: nat)
    requires h > 0 && w == 2 * h && i == q * w + r && r < w
    ensures i % h < h
    ensures (i / h) % 2 == 0 ==> r == i % h
    ensures (i / h) % 2 == 1 ==> r == i % h + h && i >= h
  {
    HalfBlocks(q, h, w);
    if r < h {
      DivModUnique(i, h, 2 * q, r);
    } else {
      DivModUnique(i, h, 2 * q + 1, r - h);
    }
  }

  lemma Within(j: nat, w: nat, m: nat, q: nat, t: nat)
    requires j == q * w + t && q < m && t < w
    ensures j < m * w && j % w == t
  {
    DivModUnique(j, w, q, t);
    MulBound(q, m, w, t);
  }

  /** In a warp of m blocks of w = 2h lanes the partner of the lane at place r of
      block q is the lane at the same place in the other half of the block. */
  lemma PartnerUp(i: nat, h: nat, w: nat, m: nat, q: nat, r: nat)
    requires h > 0 && w == 2 * h && q < m && i == q * w + r && r < w && (i / h) % 2 == 0
    ensures r == i % h < h && i + h < m * w && (i + h) % w == r + h
  {
    BitCases(i, h, w, q, r);
    Within(i + h, w, m, q, r + h);
  }

  lemma PartnerDown(i: nat, h: nat, w: nat, m: nat, q: nat, r: nat)
    requires h > 0 && w == 2 * h && q < m && i == q * w + r && r < w && (i / h) % 2 == 1
    ensures i % h < h && r == i % h + h && i >= h && (i - h) % w == r - h
  {
    BitCases(i, h, w, q, r);
    Within(i - h, w, m, q, r - h);
  }

  /** The lane and its partner are the two lanes of a block whose places agree mod h. */
  lemma PartnerPlaces(i: nat, h: nat, w: nat, m: nat)
    requires h > 0 && w == 2 * h && i < m * w
    ensures i % h < h && Partner(i, h) < m * w
    ensures (i % w == i % h && Partner(i, h) % w == i % h + h) || (i % w == i % h + h && Partner(i, h) % w == i % h)
  {
    hide Partner;
    var q, r := DivMod(i, w);
    DivModBound(i, w, m);
    PartnerPlacesAt(i, h, w, m, q, r);
  }

  lemma PartnerPlacesAt(i: nat, h: nat, w: nat, m: nat, q: nat, r: nat)
    requires h > 0 && w == 2 * h && q < m && i == q * w + r && r < w
    ensures i % h < h && Partner(i, h) < m * w
    ensures (r == i % h && Partner(i, h) % w == i % h + h) || (r == i % h + h && Partner(i, h) % w == i % h)
  {
    if (i / h) % 2 == 0 {
      PartnerUp(i, h, w, m, q, r);
    } else {
      PartnerDown(i, h, w, m, q, r);
      Within(i, w, m, q, r);
    }
  }

  lemma StagePeriodic<T(!new)>(add: (T, T) -> T, v: seq<T>, f: seq<T>, h: nat, w: nat, m: nat)
    requires Commutative(add) && h > 0 && |f| == w == 2 * h && |v| == m * w && Periodic(v, f)
    ensures Periodic(Stage(add, v, h), Halve(add, f))
  {
    hide Partner;
    forall i | 0 <= i < |v| ensures Stage(add, v, h)[i] == Halve(add, f)[i % h] {
      PartnerPlaces(i, h, w, m);
      var r, j := i % h, Partner(i, h);
      assert v[i] == f[i % w] && v[j] == f[j % w];
      assert add(f[r], f[r + h]) == add(f[r + h], f[r]);
    }
  }

  lemma {:induction false} StagesPeriodic<T(!new)>(add: (T, T) -> T, v: seq<T>, f: seq<T>, k: nat, m: nat)
    requires Commutative(add) && |f| == Pow2(k) && |v| == m * Pow2(k) && Periodic(v, f)
    ensures forall i :: 0 <= i < |v| ==> Stages(add, v, k)[i] == Tree(add, f)
    decreases k
  {
    if k == 0 {
      forall i | 0 <= i < |v| ensures v[i] == f[0] { assert i % 1 == 0; }
    } else {
      var h := Pow2(k - 1);
      StagePeriodic(add, v, f, h, 2 * h, m);
      assert m * (2 * h) == (2 * m) * h;
      StagesPeriodic(add, Stage(add, v, h), Halve(add, f), k - 1, 2 * m);
    }
  }

  /** With a merely commutative addition (rounding may break associativity) every
      lane of the warp still finishes with the identical value, bit for bit: that of
      one fixed tree. */
  lemma AllLanesIdentical<T(!new)>(add: (T, T) -> T, lanes: seq<T>, k: nat)
    requires Commutative(add) && |lanes| == Pow2(k)
    ensures forall i :: 0 <= i < |lanes| ==> Stages(add, lanes, k)[i] == Tree(add, lanes)
  {
    forall i | 0 <= i < |lanes| ensures lanes[i] == lanes[i % |lanes|] { DivModUnique(i, |lanes|, 0, i); }
    StagesPeriodic(add, lanes, lanes, k, 1);
  }

  // ---- and what that is when addition is associative too ---------------------------------

  /** Left to right. */
  function Total<T>(add: (T, T) -> T, s: seq<T>): T
    requires |s| >= 1
  {
    if |s| == 1 then s[0] else add(Total(add, s[..|s| - 1]), s[|s| - 1])
  }

  lemma {:induction false} TotalConcat<T(!new)>(add: (T, T) -> T, a: seq<T>, b: seq<T>)
    requires Associative(add) && |a| >= 1 && |b| >= 1
    ensures Total(add, a + b) == add(Total(add, a), Total(add, b))
  {
    assert (a + b)[..|a + b| - 1] == a + b[..|b| - 1];
    if |b| == 1 {
      assert a + b[..0] == a;
    } else {
      TotalConcat(add, a, b[..|b| - 1]);
    }
  }

  lemma {:induction false} TotalZip<T(!new)>(add: (T, T) -> T, a: seq<T>, b: seq<T>)
    requires Associative(add) && Commutative(add) && |a| == |b| >= 1
    ensures Total(add, seq(|a|, i requires 0 <= i < |a| => add(a[i], b[i]))) == add(Total(add, a), Total(add, b))
  {
    hide Associative; hide Commutative;
    var z := seq(|a|, i requires 0 <= i < |a| => add(a[i], b[i]));
    if |a| > 1 {
      var m := |a| - 1;
      TotalZip(add, a[..m], b[..m]);
      assert z[..m] == seq(m, i requires 0 <= i < m => add(a[..m][i], b[..m][i]));
      Shuffle(add, Total(add, a[..m]), Total(add, b[..m]), a[m], b[m]);
    }
  }

  lemma Shuffle<T(!new)>(add: (T, T) -> T, w: T, x: T, y: T, z: T)
    requires Associative(add) && Commutative(add)
    ensures add(add(w, x), add(y, z)) == add(add(w, y), add(x, z))
  {
    calc {
      add(add(w, x), add(y, z));
      add(w, add(x, add(y, z)));
      { assert add(x, add(y, z)) == add(add(x, y), z) && add(x, y) == add(y, x)
          && add(add(y, x), z) == add(y, add(x, z)); }
      add(w, add(y, add(x, z)));
      add(add(w, y), add(x, z));
    }
  }

  lemma {:induction false} TreeIsTotal<T(!new)>(add: (T, T) -> T, s: seq<T>, k: nat)
    requires Associative(add) && Commutative(add) && |s| == Pow2(k)
    ensures Tree(add, s) == Total(add, s)
    decreases k
  {
    hide Associative; hide Commutative;
    if k > 0 {
      var h := Pow2(k - 1);
      TreeIsTotal(add, Halve(add, s), k - 1);
      assert Halve(add, s) == seq(h, i requires 0 <= i < h => add(s[..h][i], s[h..][i]));
      TotalZip(add, s[..h], s[h..]);
      assert s == s[..h] + s[h..];
      TotalConcat(add, s[..h], s[h..]);
    }
  }

  /** Then every lane holds the sum of all lanes. */
  lemma WarpSumIsTotal<T(!new)>(add: (T, T) -> T, lanes: seq<T>, k: nat)
    requires Associative(add) && Commutative(add) && |lanes| == Pow2(k)
    ensures forall i :: 0 <= i < |lanes| ==> Stages(add, lanes, k)[i] == Total(add, lanes)
  {
    AllLanesIdentical(add, lanes, k);
    TreeIsTotal(add, lanes, k);
  }
}
