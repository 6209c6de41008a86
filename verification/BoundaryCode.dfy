/** The grid boundary as the code has it: an object holding the counter and the
    blocks' epochs, which a crossing updates in place. */
module BoundaryCode {
  import opened Arrivals
  import opened Boundary
  import opened Words

  /** A crossing of block b after k moves of the others: it arrives, polls, and polls
      again after each of them. */
  function Spun(start: seq<Move>, b: nat, others: seq<Move>, k: nat): seq<Move>
    requires k <= |others|
  {
    if k == 0 then start + [Arrive(b), Poll(b)] else Spun(start, b, others, k - 1) + [others[k - 1], Poll(b)]
  }

  /** After these moves every block has arrived at crossing e. */
  predicate AllThere(n: nat, moves: seq<Move>, e: nat) {
    forall c :: 0 <= c < n ==> Run(n, moves).arr[c] >= e
  }

  /** `arr` and `moves` are history: arrivals per block, and all moves so far. */
  class GridBoundary {
    const n: nat
    var counter: u32
    const epoch: array<u32>
    const spinning: array<bool>
    ghost var arr: seq<nat>
    ghost var moves: seq<Move>

    ghost function Snapshot(): Grid
      reads this, epoch, spinning
    {
      Grid(counter, epoch[..], spinning[..], arr)
    }

    ghost predicate Valid()
      reads this, epoch, spinning
    {
      1 <= n < HALF_WORD && epoch.Length == spinning.Length == |arr| == n && Snapshot() == Run(n, moves)
    }

    constructor (blocks: nat)
      requires 1 <= blocks < HALF_WORD
      ensures Valid() && n == blocks && moves == [] && fresh(epoch) && fresh(spinning)
    {
      n, counter := blocks, 0;
      epoch, spinning := new u32[blocks](_ => 0), new bool[blocks](_ => false);
      arr, moves := seq(blocks, _ => 0), [];
      new;
      assert epoch[..] == Start(n).epoch && spinning[..] == Start(n).spinning;
    }

    /** The arrival: own epoch, then one release-add on the shared counter. */
    method ArriveAt(b: nat)
      requires Valid() && b < n && !spinning[b]
      modifies this, epoch, spinning
      ensures Valid() && moves == old(moves) + [Arrive(b)]
      ensures spinning[b] && arr == old(arr)[b := old(arr[b]) + 1]
    {
      ghost var before := Snapshot();
      epoch[b] := Succ(epoch[b]);
      counter := Succ(counter);
      spinning[b] := true;
      arr := arr[b := arr[b] + 1];
      moves := moves + [Arrive(b)];
      assert moves[..|moves| - 1] == old(moves);
      assert Snapshot() == Step(n, before, Arrive(b));
    }

    /** One load of the counter.  It lets the block go exactly if everybody has
        arrived at the crossing the block is in. */
    method PollOnce(b: nat) returns (left: bool)
      requires Valid() && b < n && spinning[b]
      modifies this, spinning
      ensures Valid() && moves == old(moves) + [Poll(b)] && arr == old(arr)
      ensures spinning[b] == !left
      ensures left <==> forall c :: 0 <= c < n ==> arr[c] >= arr[b]
    {
      ghost var before := Snapshot();
      ghost var lep := RunInv(n, moves);
      PollExact(n, counter, epoch[..], arr, lep, b);
      left := !Behind(counter, Target(epoch[b], n));
      if left { spinning[b] := false; }
      moves := moves + [Poll(b)];
      assert moves[..|moves| - 1] == old(moves);
      assert Snapshot() == Step(n, before, Poll(b));
      assert left <==> arr[b] == lep;
      assert arr[b] == lep + 1 ==> exists c :: 0 <= c < n && arr[c] != lep + 1;
    }

    /** A move of the grid; one that the program order of its block does not allow
        changes nothing. */
    method Play(m: Move)
      requires Valid()
      modifies this, epoch, spinning
      ensures Valid() && moves == old(moves) + [m]
      ensures forall b :: 0 <= b < n && b != m.b ==> arr[b] == old(arr[b]) && spinning[b] == old(spinning[b])
      ensures forall b :: 0 <= b < n ==> arr[b] >= old(arr[b])
    {
      match m
      case Arrive(b) => if b < n && !spinning[b] { ArriveAt(b); } else { NoMove(m); }
      case Poll(b) => if b < n && spinning[b] { var _ := PollOnce(b); } else { NoMove(m); }
    }

    ghost method NoMove(m: Move)
      requires Valid() && Step(n, Snapshot(), m) == Snapshot()
      modifies this`moves
      ensures Valid() && moves == old(moves) + [m]
    {
      hide Run; hide Step;
      RunSnoc(n, moves, m);
      moves := moves + [m];
    }

    lemma Now(e: nat)
      requires Valid()
      ensures AllThere(n, moves, e) <==> forall c :: 0 <= c < n ==> arr[c] >= e
    {
    }

    /** A whole crossing of block b, spinning as often as it takes while the other
        blocks make the moves `others` between its polls.  It returns only after
        every block has arrived at this crossing, and at the first poll that finds
        them there; else it spins until `others` is used up. */
    method Cross(b: nat, others: seq<Move>) returns (left: bool, ghost played: nat)
      requires Valid() && b < n && !spinning[b]
      requires forall k :: 0 <= k < |others| ==> others[k].b != b
      modifies this, epoch, spinning
      ensures Valid() && arr[b] == old(arr[b]) + 1 && spinning[b] == !left
      ensures left <==> forall c :: 0 <= c < n ==> arr[c] >= old(arr[b]) + 1
      ensures played <= |others| && moves == Spun(old(moves), b, others, played)
      ensures left || played == |others|
      ensures forall k: nat :: k < played ==> !AllThere(n, Spun(old(moves), b, others, k), old(arr[b]) + 1)
    {
      hide AllThere; hide Run;
      ghost var e := arr[b] + 1;
      ArriveAt(b);
      left := PollOnce(b);
      assert moves == old(moves) + [Arrive(b), Poll(b)];
      var k := 0;
      while !left && k < |others|
        invariant Valid() && k <= |others| && arr[b] == e && spinning[b] == !left
        invariant left <==> forall c :: 0 <= c < n ==> arr[c] >= e
        invariant moves == Spun(old(moves), b, others, k)
        invariant forall j: nat :: j < k ==> !AllThere(n, Spun(old(moves), b, others, j), e)
        decreases |others| - k, !left
      {
        Now(e);
        ghost var before := moves;
        Play(others[k]);
        left := PollOnce(b);
        assert moves == before + [others[k], Poll(b)];
        k := k + 1;
      }
      played := k;
    }
  }
}
