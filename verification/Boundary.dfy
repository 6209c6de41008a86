/** Counting arrivals at the grid boundary: what the one wrapping counter and the
    blocks' wrapping epochs say about the unbounded numbers of arrivals. */
module Arrivals {
  import opened Words

  /** What block b waits for: `epoch * gridDim.x` in 32-bit arithmetic. */
  function Target(epoch: u32, n: nat): u32 {
    Wrap(epoch * n)
  }

  function Sum(s: seq<nat>): nat {
    if s == [] then 0 else Sum(s[..|s| - 1]) + s[|s| - 1]
  }

  lemma {:induction false} SumUpdate(s: seq<nat>, b: nat)
    requires b < |s|
    ensures Sum(s[b := s[b] + 1]) == Sum(s) + 1
  {
    var t := s[b := s[b] + 1];
    if b == |s| - 1 {
      assert t[..|t| - 1] == s[..|s| - 1];
    } else {
      assert t[..|t| - 1] == s[..|s| - 1][b := s[b] + 1];
      SumUpdate(s[..|s| - 1], b);
    }
  }

  /** Every block has made `lep` arrivals or one more. */
  predicate Within(arr: seq<nat>, lep: nat) {
    forall b :: 0 <= b < |arr| ==> lep <= arr[b] <= lep + 1
  }

  predicate AllAt(arr: seq<nat>, k: nat) {
    forall b :: 0 <= b < |arr| ==> arr[b] == k
  }

  lemma {:induction false} SumBounds(arr: seq<nat>, lep: nat)
    requires Within(arr, lep)
    ensures |arr| * lep <= Sum(arr) <= |arr| * lep + |arr|
    ensures Sum(arr) == |arr| * lep + |arr| <==> AllAt(arr, lep + 1)
    ensures Sum(arr) == |arr| * lep <==> AllAt(arr, lep)
  {
    if arr != [] {
      var m := |arr| - 1;
      SumBounds(arr[..m], lep);
      assert |arr| * lep == m * lep + lep;
      if AllAt(arr[..m], lep + 1) && arr[m] == lep + 1 {
        assert forall b :: 0 <= b < m ==> arr[..m][b] == arr[b];
        assert AllAt(arr, lep + 1);
      }
      if AllAt(arr, lep + 1) { assert AllAt(arr[..m], lep + 1); }
      if AllAt(arr[..m], lep) && arr[m] == lep {
        assert forall b :: 0 <= b < m ==> arr[..m][b] == arr[b];
        assert AllAt(arr, lep);
      }
      if AllAt(arr, lep) { assert AllAt(arr[..m], lep); }
    }
  }

  /** The counter and the epochs hold the truncated arrival counts, and `lep` is
      the number of boundaries at which every block has arrived. */
  ghost predicate Counted(n: nat, counter: u32, epoch: seq<u32>, arr: seq<nat>, lep: nat) {
    && |epoch| == |arr| == n
    && counter == Wrap(Sum(arr))
    && (forall b :: 0 <= b < n ==> epoch[b] == Wrap(arr[b]))
    && Within(arr, lep)
    && !AllAt(arr, lep + 1)
  }

  /** The boundary number after block b's arrival. */
  function NextLep(arr: seq<nat>, b: nat, lep: nat): nat
    requires b < |arr|
  {
    if AllAt(arr[b := arr[b] + 1], lep + 1) then lep + 1 else lep
  }

  lemma ArriveCounted(n: nat, counter: u32, epoch: seq<u32>, arr: seq<nat>, lep: nat, b: nat)
    requires Counted(n, counter, epoch, arr, lep) && b < n && arr[b] == lep
    ensures Counted(n, Succ(counter), epoch[b := Succ(epoch[b])],
                    arr[b := arr[b] + 1], NextLep(arr, b, lep))
  {
    var arr' := arr[b := arr[b] + 1];
    SumUpdate(arr, b);
    SuccWrap(Sum(arr));
    SuccWrap(arr[b]);
    if AllAt(arr', lep + 1) {
      assert arr'[b] == lep + 1;
      assert !AllAt(arr', lep + 2);
    }
  }

  lemma PollArithmetic(n: nat, sum: nat, a: nat, lep: nat)
    requires n < HALF_WORD && lep <= a <= lep + 1
    requires n * lep <= sum < n * lep + n
    ensures Behind(Wrap(sum), Wrap(a * n)) <==> sum < a * n
    ensures sum < a * n <==> a == lep + 1
  {
    assert a * n == if a == lep then n * lep else n * lep + n;
    BehindIsLess(sum, a * n);
  }

  /** The 32-bit poll succeeds exactly for the blocks that are not ahead. */
  lemma PollExact(n: nat, counter: u32, epoch: seq<u32>, arr: seq<nat>, lep: nat, b: nat)
    requires Counted(n, counter, epoch, arr, lep) && b < n < HALF_WORD
    ensures Behind(counter, Target(epoch[b], n)) <==> Sum(arr) < arr[b] * n
    ensures Behind(counter, Target(epoch[b], n)) <==> arr[b] == lep + 1
  {
    SumBounds(arr, lep);
    WrapProduct(arr[b], n);
    PollArithmetic(n, Sum(arr), arr[b], lep);
  }

  lemma {:induction false} SumZero(n: nat)
    ensures Sum(seq(n, _ => 0)) == 0
  {
    if n > 0 {
      assert seq(n, _ => 0)[..n - 1] == seq<nat>(n - 1, _ => 0);
      SumZero(n - 1);
    }
  }
}

/** The grid boundary: one monotonic arrival counter, no reset.  A block crosses
    by adding one to the counter and spinning until the counter reaches its own
    epoch times the number of blocks, compared with a signed 32-bit distance.

    The machine below lets every block arrive whenever it is not spinning and poll
    whenever it is, in any interleaving; `arr` is a history variable holding the
    unbounded number of arrivals of each block, and no step reads it. */
module Boundary {
  import opened Arrivals
  import opened Words

  datatype Grid = Grid(counter: u32, epoch: seq<u32>, spinning: seq<bool>, arr: seq<nat>)

  datatype Move = Arrive(b: nat) | Poll(b: nat)

  function Start(n: nat): Grid {
    Grid(0, seq(n, _ => 0), seq(n, _ => false), seq(n, _ => 0))
  }

  predicate Shaped(g: Grid, n: nat) {
    |g.epoch| == |g.spinning| == |g.arr| == n
  }

  function Step(n: nat, g: Grid, m: Move): (g': Grid)
    requires Shaped(g, n)
    ensures Shaped(g', n)
  {
    if m.b >= n then g
    else match m
      case Arrive(b) =>
        if g.spinning[b] then g
        else Grid(Succ(g.counter), g.epoch[b := Succ(g.epoch[b])],
                  g.spinning[b := true], g.arr[b := g.arr[b] + 1])
      case Poll(b) =>
        if g.spinning[b] && !Behind(g.counter, Target(g.epoch[b], n))
        then g.(spinning := g.spinning[b := false])
        else g
  }

  function Run(n: nat, moves: seq<Move>): (g: Grid)
    ensures Shaped(g, n)
  {
    if moves == [] then Start(n)
    else Step(n, Run(n, moves[..|moves| - 1]), moves[|moves| - 1])
  }

  /** The invariant: some boundary number `lep` relates the words to the history,
      and a block that is not spinning has no arrival outstanding. */
  ghost predicate Inv(n: nat, g: Grid, lep: nat) {
    && Shaped(g, n)
    && Counted(n, g.counter, g.epoch, g.arr, lep)
    && (forall b :: 0 <= b < n && !g.spinning[b] ==> g.arr[b] == lep)
  }

  lemma StepKeepsInv(n: nat, g: Grid, m: Move, lep: nat) returns (lep': nat)
    requires 1 <= n < HALF_WORD && Inv(n, g, lep)
    ensures Inv(n, Step(n, g, m), lep') && lep <= lep' <= lep + 1
  {
    lep' := lep;
    if m.b < n {
      match m
      case Arrive(b) =>
        if !g.spinning[b] {
          ArriveCounted(n, g.counter, g.epoch, g.arr, lep, b);
          lep' := NextLep(g.arr, b, lep);
          var g' := Step(n, g, m);
          forall c | 0 <= c < n && !g'.spinning[c]
            ensures g'.arr[c] == lep'
          {
            assert c != b && g.arr[c] == lep;
            assert g'.arr[c] == lep;
          }
        }
      case Poll(b) =>
        PollExact(n, g.counter, g.epoch, g.arr, lep, b);
    }
  }

  lemma {:induction false} RunInv(n: nat, moves: seq<Move>) returns (lep: nat)
    requires 1 <= n < HALF_WORD
    ensures Inv(n, Run(n, moves), lep)
  {
    if moves == [] {
      lep := 0;
      SumZero(n);
      assert Start(n).arr[0] == 0;
    } else {
      var before := RunInv(n, moves[..|moves| - 1]);
      lep := StepKeepsInv(n, Run(n, moves[..|moves| - 1]), moves[|moves| - 1], before);
    }
  }

  /** Safety and exactness in every reachable state, for any number of crossings:
      the counter is the total number of arrivals modulo 2^32; block epochs differ
      by at most one; a block that has left crossing e (it is not spinning and has
      arrived e times, or has arrived more often) leaves no block that has not
      arrived e times; and the wrapped signed poll agrees with the comparison of
      the unbounded counts. */
  lemma BoundarySafety(n: nat, moves: seq<Move>)
    requires 1 <= n < HALF_WORD
    ensures var g := Run(n, moves);
            && g.counter == Wrap(Sum(g.arr))
            && (forall b, c :: 0 <= b < n && 0 <= c < n ==> g.arr[b] <= g.arr[c] + 1)
            && (forall b, c :: 0 <= b < n && 0 <= c < n && !g.spinning[b] ==> g.arr[b] <= g.arr[c])
            && (forall b :: 0 <= b < n ==>
                  (Behind(g.counter, Target(g.epoch[b], n)) <==> Sum(g.arr) < g.arr[b] * n))
  {
    var lep := RunInv(n, moves);
    var g := Run(n, moves);
    forall b | 0 <= b < n
      ensures Behind(g.counter, Target(g.epoch[b], n)) <==> Sum(g.arr) < g.arr[b] * n
    {
      PollExact(n, g.counter, g.epoch, g.arr, lep, b);
    }
  }

  /** A corollary on the step itself: whenever a poll lets block b go, every block
      has arrived at least as often as b. */
  lemma LeaveMeansAllArrived(n: nat, moves: seq<Move>, b: nat)
    requires 1 <= n < HALF_WORD && b < n
    requires var g := Run(n, moves);
             g.spinning[b] && !Step(n, g, Poll(b)).spinning[b]
    ensures forall c :: 0 <= c < n ==> Run(n, moves).arr[c] >= Run(n, moves).arr[b]
  {
    RunSnoc(n, moves, Poll(b));
    BoundarySafety(n, moves + [Poll(b)]);
  }

  lemma RunSnoc(n: nat, moves: seq<Move>, m: Move)
    ensures Run(n, moves + [m]) == Step(n, Run(n, moves), m)
  {
    assert (moves + [m])[..|moves|] == moves;
  }

  // ---- progress --------------------------------------------------------------------

  /** Nobody crosses more than k times.  (Arrivals are never taken back, so this
      holds of a whole run if it holds at its end.) */
  predicate Capped(g: Grid, k: nat) {
    forall c :: 0 <= c < |g.arr| ==> g.arr[c] <= k
  }

  /** Only blocks that are behind block b move, and nobody goes past it. */
  ghost predicate Laggards(n: nat, g: Grid, b: nat, more: seq<Move>)
    requires Shaped(g, n) && b < n
  {
    forall k :: 0 <= k < |more| ==> more[k].b < n && g.arr[more[k].b] < g.arr[b]
  }

  /** Block b still spins where it did; others may have caught up with it. */
  ghost predicate Closer(n: nat, g: Grid, g': Grid, b: nat)
    requires Shaped(g, n) && Shaped(g', n) && b < n
  {
    && g'.spinning[b] && g'.arr[b] == g.arr[b]
    && (forall c :: 0 <= c < n ==> g.arr[c] <= g'.arr[c] && (g'.arr[c] == g.arr[c] || g'.arr[c] <= g.arr[b]))
  }

  /** A block that block b is waiting for: it can leave the crossing before, if it
      is still in it, and then arrive. */
  lemma Laggard(n: nat, g: Grid, lep: nat, b: nat) returns (c: nat)
    requires 1 <= n < HALF_WORD && b < n && Inv(n, g, lep) && g.spinning[b] && Step(n, g, Poll(b)).spinning[b]
    ensures c < n && c != b && g.arr[c] == lep && g.arr[b] == lep + 1 && Sum(g.arr) < g.arr[b] * n
    ensures g.spinning[c] ==> Step(n, g, Poll(c)) == g.(spinning := g.spinning[c := false])
  {
    PollExact(n, g.counter, g.epoch, g.arr, lep, b);
    c :| 0 <= c < n && g.arr[c] != lep + 1;
    PollExact(n, g.counter, g.epoch, g.arr, lep, c);
  }

  /** One of them catches up by one arrival. */
  lemma CatchUp(n: nat, moves: seq<Move>, b: nat) returns (more: seq<Move>)
    requires 1 <= n < HALF_WORD && b < n && Run(n, moves).spinning[b]
    requires Step(n, Run(n, moves), Poll(b)).spinning[b]
    ensures var g, g' := Run(n, moves), Run(n, moves + more);
            Laggards(n, g, b, more) && Closer(n, g, g', b) && Sum(g'.arr) == Sum(g.arr) + 1 <= g.arr[b] * n
  {
    var lep := RunInv(n, moves);
    var g := Run(n, moves);
    var c := Laggard(n, g, lep, b);
    hide Run; hide Inv; hide Step; hide Closer; hide Sum;
    if g.spinning[c] {
      var free := g.(spinning := g.spinning[c := false]);
      more := [Poll(c), Arrive(c)];
      RunSnoc(n, moves, Poll(c));
      RunSnoc(n, moves + [Poll(c)], Arrive(c));
      assert moves + [Poll(c)] + [Arrive(c)] == moves + more;
      OneUp(n, g, free, b, c);
    } else {
      more := [Arrive(c)];
      RunSnoc(n, moves, Arrive(c));
      OneUp(n, g, g, b, c);
    }
  }

  lemma OneUp(n: nat, g: Grid, free: Grid, b: nat, c: nat)
    requires Shaped(g, n) && b < n && c < n && c != b && g.arr[c] < g.arr[b] && g.spinning[b]
    requires Shaped(free, n) && !free.spinning[c] && (free == g || free == g.(spinning := g.spinning[c := false]))
    ensures var g' := Step(n, free, Arrive(c)); Closer(n, g, g', b) && Sum(g'.arr) == Sum(g.arr) + 1
  {
    SumUpdate(g.arr, c);
  }

  lemma CloserLaggards(n: nat, g: Grid, g': Grid, g'': Grid, b: nat, first: seq<Move>, rest: seq<Move>)
    requires Shaped(g, n) && Shaped(g', n) && Shaped(g'', n) && b < n && Closer(n, g, g', b) && Closer(n, g', g'', b)
    requires Laggards(n, g, b, first) && Laggards(n, g', b, rest)
    ensures Closer(n, g, g'', b) && Laggards(n, g, b, first + rest)
  {
  }

  /** From every reachable state the blocks that are behind a spinning block can let
      it go by moves of their own, none of them going further than it has.  So it
      leaves even if every block stops after as many crossings. */
  lemma {:induction false} SpinnerLeaves(n: nat, moves: seq<Move>, b: nat) returns (more: seq<Move>)
    requires 1 <= n < HALF_WORD && b < n && Run(n, moves).spinning[b]
    ensures var g, g' := Run(n, moves), Run(n, moves + more);
            Laggards(n, g, b, more) && Closer(n, g, g', b) && !Step(n, g', Poll(b)).spinning[b]
    decreases Run(n, moves).arr[b] * n - Sum(Run(n, moves).arr)
  {
    hide Run; hide Step; hide Sum;
    if Step(n, Run(n, moves), Poll(b)).spinning[b] {
      var first := CatchUp(n, moves, b);
      var rest := SpinnerLeaves(n, moves + first, b);
      more := first + rest;
      assert moves + first + rest == moves + more;
      CloserLaggards(n, Run(n, moves), Run(n, moves + first), Run(n, moves + more), b, first, rest);
    } else {
      more := [];
      assert moves + more == moves;
    }
  }

  /** Blocks that are in a crossing. */
  function Spinners(s: seq<bool>): nat {
    if s == [] then 0 else Spinners(s[..|s| - 1]) + (if s[|s| - 1] then 1 else 0)
  }

  lemma {:induction false} SpinnersUpdate(s: seq<bool>, b: nat, v: bool)
    requires b < |s|
    ensures Spinners(s[b := v]) == Spinners(s) - (if s[b] then 1 else 0) + (if v then 1 else 0)
  {
    var t := s[b := v];
    if b == |s| - 1 {
      assert t[..|t| - 1] == s[..|s| - 1];
    } else {
      assert t[..|t| - 1] == s[..|s| - 1][b := v];
      SpinnersUpdate(s[..|s| - 1], b, v);
    }
  }

  /** What is left to do until everybody has crossed k times. */
  function Work(n: nat, k: nat, g: Grid): int {
    2 * (n * k - Sum(g.arr)) + Spinners(g.spinning)
  }

  lemma {:induction false} WithinSum(arr: seq<nat>, k: nat)
    requires forall c :: 0 <= c < |arr| ==> arr[c] <= k
    ensures Sum(arr) <= |arr| * k
  {
    if arr != [] {
      WithinSum(arr[..|arr| - 1], k);
      assert |arr| * k == (|arr| - 1) * k + k;
    }
  }

  /** Every move that changes the state and keeps to k crossings lowers what is left:
      no schedule goes on forever. */
  lemma MoveLowersWork(n: nat, k: nat, g: Grid, m: Move)
    requires Shaped(g, n) && Capped(Step(n, g, m), k) && Step(n, g, m) != g
    ensures 0 <= Work(n, k, Step(n, g, m)) < Work(n, k, g)
  {
    SumUpdate(g.arr, m.b);
    SpinnersUpdate(g.spinning, m.b, m.Arrive?);
    WithinSum(Step(n, g, m).arr, k);
  }

  /** Until everybody has crossed k times and left, some move that keeps to k
      crossings changes the state, ... */
  lemma SomeMove(n: nat, k: nat, moves: seq<Move>) returns (m: Move)
    requires 1 <= n < HALF_WORD && Capped(Run(n, moves), k)
    requires exists c :: 0 <= c < n && (Run(n, moves).arr[c] < k || Run(n, moves).spinning[c])
    ensures Step(n, Run(n, moves), m) != Run(n, moves) && Capped(Step(n, Run(n, moves), m), k)
  {
    var lep := RunInv(n, moves);
    var g := Run(n, moves);
    if c :| 0 <= c < n && g.spinning[c] && g.arr[c] == lep {
      PollExact(n, g.counter, g.epoch, g.arr, lep, c);
      m := Poll(c);
      assert Step(n, g, m).spinning[c] != g.spinning[c];
    } else {
      var b :| 0 <= b < n && g.arr[b] != lep + 1;
      assert !g.spinning[b];
      assert lep < k;
      m := Arrive(b);
      assert Step(n, g, m).spinning[b] != g.spinning[b];
    }
  }

  /** ... so, with every block stopping after k crossings, every run of moves can be
      brought to the state in which all have made all of them and nobody spins. */
  lemma {:induction false} EverybodyCrosses(n: nat, k: nat, moves: seq<Move>) returns (more: seq<Move>)
    requires 1 <= n < HALF_WORD && Capped(Run(n, moves), k)
    ensures var g := Run(n, moves + more); forall c :: 0 <= c < n ==> g.arr[c] == k && !g.spinning[c]
    decreases Work(n, k, Run(n, moves))
  {
    var g := Run(n, moves);
    WithinSum(g.arr, k);
    hide Run; hide Step; hide Work;
    if c :| 0 <= c < n && (g.arr[c] < k || g.spinning[c]) {
      var m := SomeMove(n, k, moves);
      MoveLowersWork(n, k, g, m);
      RunSnoc(n, moves, m);
      var rest := EverybodyCrosses(n, k, moves + [m]);
      more := [m] + rest;
      assert moves + [m] + rest == moves + more;
    } else {
      more := [];
      assert moves + more == moves;
    }
  }
}
