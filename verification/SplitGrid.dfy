/** How the schedule compiler divides the grid's blocks among the instructions of a
    window: at least one block each, all blocks used, shares in proportion to the
    estimated bytes. */
module SplitGrid {
  import opened Arith
  import opened Arrivals

  const GRID: nat := 72

  function Total(ests: seq<real>): real {
    if ests == [] then 0.0 else Total(ests[..|ests| - 1]) + ests[|ests| - 1]
  }

  /** The exact proportional share, not yet rounded. */
  function Ideal(est: real, total: real): real
    requires total > 0.0
  {
    72.0 * est / total
  }

  /** The rounding, of a share of 72 blocks in proportion to the estimate: down to the
      next integer, except that nobody gets less than one. */
  lemma ShareIsFloor(est: real, total: real)
    requires total > 0.0 && est >= 0.0
    ensures var b := BaseShare(est, total);
            && b >= 1 && b as real * total > 72.0 * est - total
            && (b as real * total <= 72.0 * est || b == 1)
  {
    IdealNonNeg(est, total);
    var q, b := Ideal(est, total), BaseShare(est, total) as real;
    assert q * total == 72.0 * est && (q - 1.0) * total == q * total - total;
    ScaleBoth(b, q - 1.0, total);
    if b < q { ScaleBoth(q, b, total); }
  }

  lemma ScaleBoth(x: real, y: real, c: real)
    requires x > y && c > 0.0
    ensures x * c > y * c
  {
  }

  /** Rounded down, but never to zero. */
  function BaseShare(est: real, total: real): nat
    requires total > 0.0 && est >= 0.0
  {
    IdealNonNeg(est, total);
    var f := Ideal(est, total).Floor;
    if f < 1 then 1 else f
  }

  lemma IdealNonNeg(est: real, total: real)
    requires total > 0.0 && est >= 0.0
    ensures Ideal(est, total) >= 0.0
  {
  }

  predicate Splittable(ests: seq<real>) {
    && 1 <= |ests| <= GRID && Total(ests) > 0.0
    && forall k :: 0 <= k < |ests| ==> ests[k] >= 0.0
  }

  function BaseShares(ests: seq<real>): seq<nat>
    requires Splittable(ests)
  {
    seq(|ests|, k requires 0 <= k < |ests| => BaseShare(ests[k], Total(ests)))
  }

  // ---- the order of adjustment ---------------------------------------------------------

  /** Put index i behind all indices whose estimate is not smaller. */
  function Insert(ests: seq<real>, order: seq<nat>, i: nat): seq<nat>
    requires i < |ests| && forall k :: 0 <= k < |order| ==> order[k] < |ests|
  {
    if order != [] && ests[order[|order| - 1]] < ests[i]
    then Insert(ests, order[..|order| - 1], i) + [order[|order| - 1]]
    else order + [i]
  }

  /** The indices below n, by falling estimate; equal ones in index order. */
  function Order(ests: seq<real>, n: nat): (order: seq<nat>)
    requires n <= |ests|
    ensures |order| == n && forall k :: 0 <= k < n ==> order[k] < n
  {
    if n == 0 then []
    else
      var before := Order(ests, n - 1);
      InsertHas(ests, before, n - 1);
      Insert(ests, before, n - 1)
  }

  lemma {:induction false} InsertHas(ests: seq<real>, order: seq<nat>, i: nat)
    requires i < |ests| && forall k :: 0 <= k < |order| ==> order[k] < |ests|
    ensures var o := Insert(ests, order, i);
            && |o| == |order| + 1
            && (forall j: nat :: j in o <==> j == i || j in order)
            && (forall k :: 0 <= k < |o| ==> o[k] == i || o[k] in order)
            && i in o
  {
    if order != [] && ests[order[|order| - 1]] < ests[i] {
      var m := |order| - 1;
      InsertHas(ests, order[..m], i);
      assert order == order[..m] + [order[m]];
    }
  }

  predicate Distinct(o: seq<nat>) {
    forall j, k :: 0 <= j < k < |o| ==> o[j] != o[k]
  }

  /** Earlier means a larger estimate, or an equal one and a smaller index. */
  predicate Precedes(ests: seq<real>, i: nat, j: nat)
    requires i < |ests| && j < |ests|
  {
    ests[i] > ests[j] || (ests[i] == ests[j] && i < j)
  }

  predicate Sorted(ests: seq<real>, o: seq<nat>)
    requires forall k :: 0 <= k < |o| ==> o[k] < |ests|
  {
    forall j, k :: 0 <= j < k < |o| ==> Precedes(ests, o[j], o[k])
  }

  lemma {:induction false} InsertSorted(ests: seq<real>, order: seq<nat>, i: nat)
    requires i < |ests| && (forall k :: 0 <= k < |order| ==> order[k] < i) && Sorted(ests, order)
    ensures (forall k :: 0 <= k < |Insert(ests, order, i)| ==> Insert(ests, order, i)[k] < |ests|)
    ensures Sorted(ests, Insert(ests, order, i))
  {
    InsertHas(ests, order, i);
    if order != [] && ests[order[|order| - 1]] < ests[i] {
      var m := |order| - 1;
      InsertSorted(ests, order[..m], i);
      InsertHas(ests, order[..m], i);
      var o, p := Insert(ests, order, i), Insert(ests, order[..m], i);
      assert o == p + [order[m]];
      forall j, k | 0 <= j < k < |o| ensures Precedes(ests, o[j], o[k]) {
        if k == |p| {
          assert p[j] == i || p[j] in order[..m];
        } else {
          assert o[j] == p[j] && o[k] == p[k];
        }
      }
    }
  }

  lemma SortedDistinct(ests: seq<real>, o: seq<nat>)
    requires (forall k :: 0 <= k < |o| ==> o[k] < |ests|) && Sorted(ests, o)
    ensures Distinct(o)
  {
    forall j, k | 0 <= j < k < |o| ensures o[j] != o[k] {
      assert Precedes(ests, o[j], o[k]);
    }
  }

  /** The order is the stable sort by falling estimate: it contains every index
      once, and that determines it. */
  lemma {:induction false} OrderIsStableSort(ests: seq<real>, n: nat)
    requires n <= |ests|
    ensures Sorted(ests, Order(ests, n)) && Distinct(Order(ests, n))
    ensures forall j :: 0 <= j < n ==> j in Order(ests, n)
  {
    if n > 0 {
      var before := Order(ests, n - 1);
      OrderIsStableSort(ests, n - 1);
      InsertHas(ests, before, n - 1);
      InsertSorted(ests, before, n - 1);
      SortedDistinct(ests, Order(ests, n));
      hide Insert; hide Sorted; hide Distinct;
    }
  }

  // ---- rounding down loses less than one block per instruction ---------------------------

  lemma IdealAdds(x: real, y: real, total: real)
    requires total > 0.0
    ensures Ideal(x + y, total) == Ideal(x, total) + Ideal(y, total)
    ensures Ideal(total, total) == 72.0 && Ideal(0.0, total) == 0.0
  {
  }

  lemma {:induction false} PrefixLoss(ests: seq<real>, k: nat)
    requires Splittable(ests) && k <= |ests|
    ensures Sum(BaseShares(ests)[..k]) as real + k as real >= Ideal(Total(ests[..k]), Total(ests))
    ensures k > 0 ==> Sum(BaseShares(ests)[..k]) as real + k as real > Ideal(Total(ests[..k]), Total(ests))
  {
    var total, b := Total(ests), BaseShares(ests);
    IdealAdds(0.0, 0.0, total);
    if k > 0 {
      PrefixLoss(ests, k - 1);
      assert b[..k][..k - 1] == b[..k - 1] && ests[..k][..k - 1] == ests[..k - 1];
      IdealAdds(Total(ests[..k - 1]), ests[k - 1], total);
      assert b[k - 1] as real + 1.0 > Ideal(ests[k - 1], total);
    }
  }

  lemma RoundingLoss(ests: seq<real>)
    requires Splittable(ests)
    ensures Sum(BaseShares(ests)) > GRID - |ests|
  {
    PrefixLoss(ests, |ests|);
    assert BaseShares(ests)[..|ests|] == BaseShares(ests) && ests[..|ests|] == ests;
    IdealAdds(0.0, 0.0, Total(ests));
  }

  // ---- the adjustment loop --------------------------------------------------------------------

  predicate AllPositive(sh: seq<nat>) {
    forall j :: 0 <= j < |sh| ==> sh[j] >= 1
  }

  lemma {:induction false} SumSet(s: seq<nat>, j: nat, v: nat)
    requires j < |s|
    ensures Sum(s[j := v]) == Sum(s) - s[j] + v
  {
    var m := |s| - 1;
    if j == m {
      assert s[j := v][..m] == s[..m];
    } else {
      assert s[j := v][..m] == s[..m][j := v];
      SumSet(s[..m], j, v);
    }
  }

  lemma {:induction false} SumOfOnes(s: seq<nat>)
    requires forall j :: 0 <= j < |s| ==> s[j] <= 1
    ensures Sum(s) <= |s|
  {
    if s != [] { SumOfOnes(s[..|s| - 1]); }
  }

  /** The instruction whose turn it is at count i. */
  function Turn(order: seq<nat>, i: nat): (j: nat)
    requires order != []
    ensures j in order
  {
    order[i % |order|]
  }

  /** As long as too many blocks are given out some share can be lowered; its turn
      comes within one round of the order. */
  lemma NextTurn(order: seq<nat>, sh: seq<nat>, i: nat) returns (t: nat)
    requires |order| == |sh| > 0 && (forall k :: 0 <= k < |order| ==> order[k] < |sh|)
    requires (forall j: nat :: j < |sh| ==> j in order) && Sum(sh) > |sh|
    ensures t >= i && Turn(order, t) < |sh| && sh[Turn(order, t)] > 1
  {
    if forall j :: 0 <= j < |sh| ==> sh[j] <= 1 {
      SumOfOnes(sh);
      assert false;
    }
    var j: nat :| j < |sh| && sh[j] > 1;
    assert j in order;
    var k: nat :| k < |order| && order[k] == j;
    t := StrideFrom(i, |order|, k);
  }

  lemma FirstTurns(order: seq<nat>, i: nat)
    requires i < |order|
    ensures Turn(order, i) == order[i]
  {
  }

  /** Where rounding down left blocks over: the first `extra` instructions in the
      order get one more. */
  function Topped(base: seq<nat>, order: seq<nat>, extra: nat): (sh: seq<nat>)
    requires extra <= |order| == |base| && forall k :: 0 <= k < |order| ==> order[k] < |base|
    ensures |sh| == |base|
  {
    if extra == 0 then base
    else var before := Topped(base, order, extra - 1);
         before[order[extra - 1] := before[order[extra - 1]] + 1]
  }

  lemma {:induction false} ToppedSum(base: seq<nat>, order: seq<nat>, extra: nat)
    requires extra <= |order| == |base| && forall k :: 0 <= k < |order| ==> order[k] < |base|
    ensures Sum(Topped(base, order, extra)) == Sum(base) + extra
  {
    if extra > 0 {
      ToppedSum(base, order, extra - 1);
      var before := Topped(base, order, extra - 1);
      SumSet(before, order[extra - 1], before[order[extra - 1]] + 1);
    }
  }

  /** Each instruction gets at most one more, and exactly the first `extra` do. */
  lemma {:induction false} ToppedExact(base: seq<nat>, order: seq<nat>, extra: nat, k: nat)
    requires extra <= |order| == |base| && Distinct(order) && (forall k :: 0 <= k < |order| ==> order[k] < |base|)
             && k < |order|
    ensures Topped(base, order, extra)[order[k]] == base[order[k]] + (if k < extra then 1 else 0)
  {
    if extra > 0 {
      ToppedExact(base, order, extra - 1, k);
    }
  }

  /** Where the minimum of one has overdrawn the grid: after i turns, each of which
      takes one block back from the instruction in turn unless it is its last. */
  function Drawn(base: seq<nat>, order: seq<nat>, i: nat): (sh: seq<nat>)
    requires order != [] && forall k :: 0 <= k < |order| ==> order[k] < |base|
    ensures |sh| == |base|
  {
    if i == 0 then base
    else
      var before, j := Drawn(base, order, i - 1), Turn(order, i - 1);
      if before[j] > 1 then before[j := before[j] - 1] else before
  }

  /** How often the instruction at place k of n had its turn among the first i. */
  function Turns(i: nat, n: nat, k: nat): nat
    requires n > 0
  {
    i / n + if k < i % n then 1 else 0
  }

  lemma OneMoreTurn(i: nat, n: nat, k: nat)
    requires k < n
    ensures Turns(i + 1, n, k) == Turns(i, n, k) + (if k == i % n then 1 else 0)
  {
    var q, r := DivMod(i, n);
    if r + 1 < n { DivModUnique(i + 1, n, q, r + 1); } else { DivModUnique(i + 1, n, q + 1, 0); }
  }

  /** Every instruction gives back one block for each turn it had, down to one. */
  lemma {:induction false} DrawnExact(base: seq<nat>, order: seq<nat>, i: nat, k: nat)
    requires |order| == |base| && Distinct(order) && (forall k :: 0 <= k < |order| ==> order[k] < |base|)
    requires k < |order| && base[order[k]] >= 1
    ensures Drawn(base, order, i)[order[k]] ==
            var left := base[order[k]] - Turns(i, |order|, k); if left < 1 then 1 else left
  {
    var n := |order|;
    if i == 0 {
      var q, r := DivMod(0, n);
    } else {
      DrawnExact(base, order, i - 1, k);
      OneMoreTurn(i - 1, n, k);
      hide Turns;
      var j := Turn(order, i - 1);
      assert j == order[(i - 1) % n];
    }
  }

  /** The turns end as soon as no more than the grid is given out. */
  ghost predicate Overdrawn(base: seq<nat>, order: seq<nat>, i: nat)
    requires order != [] && forall k :: 0 <= k < |order| ==> order[k] < |base|
  {
    forall k: nat :: k < i ==> Sum(Drawn(base, order, k)) > GRID
  }

  /** The rounded proportional shares. */
  method Proportional(ests: seq<real>) returns (sh: seq<nat>)
    requires Splittable(ests)
    ensures sh == BaseShares(ests) && |sh| == |ests| && AllPositive(sh)
  {
    var total := 0.0;
    for k := 0 to |ests|
      invariant total == Total(ests[..k])
    {
      assert ests[..k + 1][..k] == ests[..k];
      total := total + ests[k];
    }
    assert ests[..|ests|] == ests;
    sh := [];
    for k := 0 to |ests|
      invariant sh == BaseShares(ests)[..k]
    {
      sh := sh + [BaseShare(ests[k], total)];
    }
  }

  predicate Ordering(order: seq<nat>, n: nat) {
    |order| == n > 0 && (forall k :: 0 <= k < n ==> order[k] < n) && (forall j: nat :: j < n ==> j in order)
  }

  /** The loop's invariant: blocks are only added while some are left over, only
      taken back while too many are given out; t is the next turn that can take
      one back. */
  ghost predicate Adjusting(base: seq<nat>, order: seq<nat>, sh: seq<nat>, i: nat, t: nat) {
    && Ordering(order, |base|) && |sh| == |base| <= GRID && Sum(base) > GRID - |base| && AllPositive(sh)
    && (if Sum(base) <= GRID
        then i <= GRID - Sum(base) && sh == Topped(base, order, i) && Sum(sh) == Sum(base) + i
        else sh == Drawn(base, order, i) && Sum(sh) >= GRID && Overdrawn(base, order, i))
    && (Sum(sh) > GRID ==> i <= t && sh[Turn(order, t)] > 1)
  }

  lemma AdjustUp(base: seq<nat>, order: seq<nat>, sh: seq<nat>, i: nat, t: nat)
    requires Adjusting(base, order, sh, i, t) && Sum(sh) < GRID
    ensures Turn(order, i) < |sh|
    ensures var j := Turn(order, i); var sh' := sh[j := sh[j] + 1];
            Adjusting(base, order, sh', i + 1, t) && Sum(sh') == Sum(sh) + 1
  {
    FirstTurns(order, i);
    var j := Turn(order, i);
    SumSet(sh, j, sh[j] + 1);
  }

  lemma AdjustDown(base: seq<nat>, order: seq<nat>, sh: seq<nat>, i: nat, t: nat) returns (t': nat)
    requires Adjusting(base, order, sh, i, t) && Sum(sh) > GRID && Turn(order, i) < |sh| && sh[Turn(order, i)] > 1
    ensures var j := Turn(order, i); var sh' := sh[j := sh[j] - 1];
            Adjusting(base, order, sh', i + 1, t') && Sum(sh') == Sum(sh) - 1
  {
    var j := Turn(order, i);
    SumSet(sh, j, sh[j] - 1);
    t' := t;
    if Sum(sh) - 1 > GRID { t' := NextTurn(order, sh[j := sh[j] - 1], i + 1); }
  }

  lemma AdjustSkip(base: seq<nat>, order: seq<nat>, sh: seq<nat>, i: nat, t: nat)
    requires Adjusting(base, order, sh, i, t) && Sum(sh) > GRID && Turn(order, i) < |sh| && sh[Turn(order, i)] <= 1
    ensures i < t && Adjusting(base, order, sh, i + 1, t)
  {
  }

  lemma TurnIsIndex(base: seq<nat>, order: seq<nat>, sh: seq<nat>, i: nat, t: nat, i': nat)
    requires Adjusting(base, order, sh, i, t)
    ensures |sh| == |base| && order != [] && Turn(order, i') < |sh|
  {
  }

  /** The shares that the compiler settles on: the rounded proportional ones with the
      remainder handed to the first of the order, or what the fewest turns leave. */
  ghost predicate Allots(ests: seq<real>, sh: seq<nat>)
    requires Splittable(ests)
  {
    var base, order := BaseShares(ests), Order(ests, |ests|);
    if Sum(base) <= GRID
    then GRID - Sum(base) < |ests| && sh == Topped(base, order, GRID - Sum(base))
    else exists turns: nat :: sh == Drawn(base, order, turns) && Overdrawn(base, order, turns) && Sum(sh) == GRID
  }

  /** They are determined by the estimates. */
  lemma AllotsUnique(ests: seq<real>, sh: seq<nat>, sh': seq<nat>)
    requires Splittable(ests) && Allots(ests, sh) && Allots(ests, sh')
    ensures sh == sh'
  {
    hide BaseShare; hide Order; hide Topped; hide Drawn; hide Total;
    var base, order := BaseShares(ests), Order(ests, |ests|);
    if Sum(base) > GRID {
      var i: nat :| sh == Drawn(base, order, i) && Overdrawn(base, order, i) && Sum(sh) == GRID;
      var j: nat :| sh' == Drawn(base, order, j) && Overdrawn(base, order, j) && Sum(sh') == GRID;
      assert !(i < j) && !(j < i);
    }
  }

  /** The shares: at least one block each, all blocks given out, and either the
      proportional shares with the remainder handed to the heaviest, or, where the
      minimum of one has overdrawn the grid, what the fewest turns leave of them. */
  method Split(ests: seq<real>) returns (sh: seq<nat>)
    requires Splittable(ests)
    ensures |sh| == |ests| && AllPositive(sh) && Sum(sh) == GRID && Allots(ests, sh)
  {
    hide Topped; hide Drawn; hide Overdrawn; hide Total;
    sh := Proportional(ests);
    var order := Order(ests, |ests|);
    ghost var base := sh;
    ghost var t := AdjustStart(ests, order);
    var i := 0;
    assert |base| == |ests|;
    hide Adjusting; hide Turn; hide Order; hide BaseShares;
    while Sum(sh) != GRID
      invariant Adjusting(base, order, sh, i, t)
      decreases if Sum(sh) < GRID then GRID - Sum(sh) else Sum(sh) - GRID, if i < t then t - i else 0
    {
      TurnIsIndex(base, order, sh, i, t, i);
      var j := Turn(order, i);
      if Sum(sh) < GRID {
        AdjustUp(base, order, sh, i, t);
        sh := sh[j := sh[j] + 1];
      } else if sh[j] > 1 {
        t := AdjustDown(base, order, sh, i, t);
        sh := sh[j := sh[j] - 1];
      } else {
        AdjustSkip(base, order, sh, i, t);
      }
      i := i + 1;
    }
    AdjustDone(base, order, sh, i, t);
  }

  lemma AdjustStart(ests: seq<real>, order: seq<nat>) returns (t: nat)
    requires Splittable(ests) && order == Order(ests, |ests|)
    ensures Adjusting(BaseShares(ests), order, BaseShares(ests), 0, t)
  {
    OrderIsStableSort(ests, |ests|);
    RoundingLoss(ests);
    t := 0;
    if Sum(BaseShares(ests)) > GRID { t := NextTurn(order, BaseShares(ests), 0); }
  }

  lemma AdjustDone(base: seq<nat>, order: seq<nat>, sh: seq<nat>, i: nat, t: nat)
    requires Adjusting(base, order, sh, i, t) && Sum(sh) == GRID
    ensures |sh| == |base| && AllPositive(sh)
    ensures if Sum(base) <= GRID
            then |order| == |base| && (forall k :: 0 <= k < |order| ==> order[k] < |base|)
                 && GRID - Sum(base) < |base| && sh == Topped(base, order, GRID - Sum(base))
            else order != [] && (forall k :: 0 <= k < |order| ==> order[k] < |base|)
                 && sh == Drawn(base, order, i) && Overdrawn(base, order, i)
  {
  }

  // ---- block ranges --------------------------------------------------------------------------------

  datatype Range = Range(lo: nat, hi: nat)

  /** The ranges are consecutive, none is empty, and together they are the grid. */
  predicate Tiles(ranges: seq<Range>) {
    && |ranges| > 0 && ranges[0].lo == 0 && ranges[|ranges| - 1].hi == GRID
    && (forall k :: 0 <= k < |ranges| ==> ranges[k].lo < ranges[k].hi)
    && (forall k :: 0 <= k < |ranges| - 1 ==> ranges[k].hi == ranges[k + 1].lo)
  }

  /** Instruction k gets as many blocks as its share, behind those before it. */
  predicate Laid(sh: seq<nat>, ranges: seq<Range>) {
    |ranges| == |sh| && forall k :: 0 <= k < |sh| ==> ranges[k] == Range(Sum(sh[..k]), Sum(sh[..k]) + sh[k])
  }

  lemma PrefixSums(sh: seq<nat>)
    ensures Sum(sh[..0]) == 0 && forall k :: 0 <= k < |sh| ==> Sum(sh[..k + 1]) == Sum(sh[..k]) + sh[k]
  {
    forall k | 0 <= k < |sh| ensures Sum(sh[..k + 1]) == Sum(sh[..k]) + sh[k] {
      assert sh[..k + 1][..k] == sh[..k];
    }
  }

  lemma LaidTiles(sh: seq<nat>, ranges: seq<Range>)
    requires sh != [] && AllPositive(sh) && Sum(sh) == GRID && Laid(sh, ranges)
    ensures Tiles(ranges)
  {
    PrefixSums(sh);
    assert sh[..|sh|] == sh;
    hide Sum;
  }

  /** The block ranges of one window's instructions: each gets its share, in program
      order; one alone gets the whole grid. */
  method Assign(ests: seq<real>) returns (ranges: seq<Range>)
    requires |ests| == 1 || Splittable(ests)
    ensures |ranges| == |ests| && Tiles(ranges)
    ensures |ests| == 1 ==> ranges == [Range(0, 72)]
    ensures |ests| > 1 ==> exists sh :: Allots(ests, sh) && Laid(sh, ranges)
  {
    hide Allots; hide Splittable; hide AllPositive; hide Sum;
    if |ests| == 1 {
      return [Range(0, GRID)];
    }
    var sh := Split(ests);
    ranges := [];
    var lo := 0;
    PrefixSums(sh);
    for k := 0 to |sh|
      invariant |ranges| == k && lo == Sum(sh[..k])
      invariant forall j :: 0 <= j < k ==> ranges[j] == Range(Sum(sh[..j]), Sum(sh[..j]) + sh[j])
    {
      ranges := ranges + [Range(lo, lo + sh[k])];
      lo := lo + sh[k];
    }
    LaidTiles(sh, ranges);
  }

  lemma {:induction false} TilesOrdered(ranges: seq<Range>, j: nat, k: nat)
    requires Tiles(ranges) && j < k < |ranges|
    ensures ranges[j].hi <= ranges[k].lo
  {
    if j + 1 < k { TilesOrdered(ranges, j, k - 1); }
  }

  /** Every block of the grid runs exactly one instruction of the window. */
  lemma {:induction false} TilesCover(ranges: seq<Range>, b: nat, m: nat) returns (k: nat)
    requires Tiles(ranges) && b < GRID && m < |ranges| && b < ranges[m].hi
    ensures k <= m && ranges[k].lo <= b < ranges[k].hi
    ensures forall j :: 0 <= j < |ranges| && j != k ==> !(ranges[j].lo <= b < ranges[j].hi)
  {
    if ranges[m].lo <= b {
      k := m;
      forall j | 0 <= j < |ranges| && j != k ensures !(ranges[j].lo <= b < ranges[j].hi) {
        if j < k { TilesOrdered(ranges, j, k); } else { TilesOrdered(ranges, k, j); }
      }
    } else {
      k := TilesCover(ranges, b, m - 1);
    }
  }
}
