/** A window as a machine of its own: its blocks advance in any interleaving, each on
    its own view of memory, and their stores drain in any order. */
module WindowRuns {
  import opened Program

  datatype Machine = Machine(mem: Mem, pos: seq<Pos>, pend: seq<Mem>)

  /** Go: block b makes its next access, or goes on to the next instruction.  Drain:
      its store to cell c reaches memory. */
  datatype Move = Go(b: nat) | Drain(b: nat, c: Cell)

  function Start(n: nat, ws: nat, base: Mem): Machine {
    Machine(base, seq(n, _ => Pos(ws, [])), NoPending(n))
  }

  function At(s: Machine, b: nat, p: Pos, mine: Mem): Machine
    requires b < |s.pos| == |s.pend|
  {
    s.(pos := s.pos[b := p], pend := s.pend[b := mine])
  }

  function GoOn(wired: Registry, prog: Prog, s: Machine, b: nat): Machine
    requires b < |s.pos| == |s.pend|
  {
    var p, mine := s.pos[b], s.pend[b];
    if Edge(wired, prog, p.i) then s
    else if !InRange(prog[p.i], b) then At(s, b, Pos(p.i + 1, []), mine)
    else match NextAct(prog[p.i], b, p.hist)
      case Load(c) => At(s, b, Pos(p.i, p.hist + [Get(View(s.mem, mine), c)]), mine)
      case Store(c, v) => At(s, b, Pos(p.i, p.hist + [v]), mine[c := v])
      case Ret => At(s, b, Pos(p.i + 1, []), mine)
  }

  function Step(wired: Registry, prog: Prog, n: nat, s: Machine, m: Move): (s': Machine)
    requires |s.pos| == |s.pend| == n
    ensures |s'.pos| == |s'.pend| == n
  {
    if m.b >= n then s
    else match m
      case Go(b) => GoOn(wired, prog, s, b)
      case Drain(b, c) =>
        if c !in s.pend[b] then s
        else Machine(s.mem[c := s.pend[b][c]], s.pos, s.pend[b := s.pend[b] - {c}])
  }

  function Run(wired: Registry, prog: Prog, n: nat, ws: nat, base: Mem, moves: seq<Move>): (s: Machine)
    ensures |s.pos| == |s.pend| == n
  {
    if moves == [] then Start(n, ws, base)
    else Step(wired, prog, n, Run(wired, prog, n, ws, base, moves[..|moves| - 1]), moves[|moves| - 1])
  }

  /** A move of block b is a step of its solo run on its own view. */
  lemma GoIsSolo(wired: Registry, prog: Prog, s: Machine, b: nat)
    requires b < |s.pos| == |s.pend|
    ensures var s' := GoOn(wired, prog, s, b);
            var o := SoloFrom(wired, prog, b, s.pos[b], View(s.mem, s.pend[b]));
            var o' := SoloFrom(wired, prog, b, s'.pos[b], View(s.mem, s'.pend[b]));
            && o'.mem == o.mem && o'.rd <= o.rd && o'.wr <= o.wr && s'.pend[b].Keys <= s.pend[b].Keys + o.wr
  {
    var p, mine := s.pos[b], s.pend[b];
    if !Edge(wired, prog, p.i) && InRange(prog[p.i], b) {
      match NextAct(prog[p.i], b, p.hist)
      case Store(c, v) => assert View(s.mem, mine)[c := v] == View(s.mem, mine[c := v]);
      case _ =>
    }
  }

  lemma GoKeepsInv(wired: Registry, prog: Prog, n: nat, ws: nat, base: Mem, s: Machine, b: nat)
    requires b < n && WindowInv(wired, prog, n, ws, base, s.mem, s.pos, s.pend)
    ensures var s' := GoOn(wired, prog, s, b); WindowInv(wired, prog, n, ws, base, s'.mem, s'.pos, s'.pend)
  {
    GoIsSolo(wired, prog, s, b);
    assert OnTrack(wired, prog, b, ws, base, s.pos[b], View(s.mem, s.pend[b]));
    var s' := GoOn(wired, prog, s, b);
    assert s' == At(s, b, s'.pos[b], s'.pend[b]);
    hide Solo; hide GoOn;
    WindowMove(wired, prog, n, ws, base, s.mem, s.pos, s.pend, b, s'.pos[b], s'.pend[b]);
  }

  lemma StepKeepsInv(wired: Registry, prog: Prog, n: nat, ws: nat, base: Mem, s: Machine, m: Move)
    requires RaceFree(wired, prog, n, ws, base) && WindowInv(wired, prog, n, ws, base, s.mem, s.pos, s.pend)
    ensures var s' := Step(wired, prog, n, s, m); WindowInv(wired, prog, n, ws, base, s'.mem, s'.pos, s'.pend)
  {
    hide Solo; hide GoOn;
    if m.b < n {
      match m
      case Go(b) => GoKeepsInv(wired, prog, n, ws, base, s, b);
      case Drain(b, c) =>
        if c in s.pend[b] { WindowDrain(wired, prog, n, ws, base, s.mem, s.pos, s.pend, b, c); }
    }
  }

  lemma {:induction false} RunInv(wired: Registry, prog: Prog, n: nat, ws: nat, base: Mem, moves: seq<Move>)
    requires RaceFree(wired, prog, n, ws, base)
    ensures var s := Run(wired, prog, n, ws, base, moves); WindowInv(wired, prog, n, ws, base, s.mem, s.pos, s.pend)
  {
    hide RaceFree; hide WindowInv; hide Step;
    if moves == [] {
      var s := Start(n, ws, base);
      WindowStart(wired, prog, n, ws, base, s.pos, s.pend);
    } else {
      var init := moves[..|moves| - 1];
      RunInv(wired, prog, n, ws, base, init);
      StepKeepsInv(wired, prog, n, ws, base, Run(wired, prog, n, ws, base, init), moves[|moves| - 1]);
    }
  }

  /** Every run of a race-free window that has come to its end, whatever the
      interleaving and whatever the order in which stores drained, has left memory
      as running its instructions one at a time in program order does. */
  lemma AnyRunIsSequential(wired: Registry, prog: Prog, n: nat, ws: nat, base: Mem, moves: seq<Move>)
    requires ws <= |prog| && RaceFree(wired, prog, n, ws, base)
    requires var s := Run(wired, prog, n, ws, base, moves); AtEdge(wired, prog, s.pos, s.pend)
    ensures Run(wired, prog, n, ws, base, moves).mem == RunSeq(wired, prog, n, ws, WindowEnd(wired, prog, ws), base)
  {
    hide *;
    RunInv(wired, prog, n, ws, base, moves);
    var s := Run(wired, prog, n, ws, base, moves);
    WindowIsSequential(wired, prog, n, ws, base, s.mem, s.pos, s.pend);
  }

  // ---- every run can be brought to the end ------------------------------------------

  /** Accesses and instructions that block b has left. */
  function Left(prog: Prog, p: Pos): nat
    decreases |prog| - p.i
  {
    if p.i >= |prog| then 0
    else 1 + (if |p.hist| < prog[p.i].bound then prog[p.i].bound - |p.hist| else 0) + Left(prog, Pos(p.i + 1, []))
  }

  predicate OthersSame(s: Machine, s': Machine, b: nat) {
    && |s'.pos| == |s.pos| && |s'.pend| == |s.pend|
    && (forall a :: 0 <= a < |s.pos| && a != b ==> s'.pos[a] == s.pos[a])
    && (forall a :: 0 <= a < |s.pend| && a != b ==> s'.pend[a] == s.pend[a])
  }

  lemma GoLowers(wired: Registry, prog: Prog, s: Machine, b: nat)
    requires b < |s.pos| == |s.pend| && !Edge(wired, prog, s.pos[b].i)
    ensures Left(prog, GoOn(wired, prog, s, b).pos[b]) < Left(prog, s.pos[b])
    ensures OthersSame(s, GoOn(wired, prog, s, b), b)
  {
  }

  /** Block b is at the edge with no store waiting. */
  predicate Done(wired: Registry, prog: Prog, s: Machine, b: nat)
    requires b < |s.pos| == |s.pend|
  {
    Edge(wired, prog, s.pos[b].i) && s.pend[b] == map[]
  }

  /** A move that block b still has to make. */
  predicate Useful(wired: Registry, prog: Prog, s: Machine, b: nat, m: Move)
    requires b < |s.pos| == |s.pend|
  {
    match m
    case Go(a) => a == b && !Edge(wired, prog, s.pos[b].i)
    case Drain(a, c) => a == b && c in s.pend[b]
  }

  lemma NextMove(wired: Registry, prog: Prog, s: Machine, b: nat) returns (m: Move)
    requires b < |s.pos| == |s.pend| && !Done(wired, prog, s, b)
    ensures Useful(wired, prog, s, b, m)
  {
    m := Go(b);
    if Edge(wired, prog, s.pos[b].i) {
      var c :| c in s.pend[b];
      m := Drain(b, c);
    }
  }

  lemma MoveLowers(wired: Registry, prog: Prog, n: nat, s: Machine, b: nat, m: Move)
    requires b < |s.pos| == |s.pend| == n
    requires Useful(wired, prog, s, b, m)
    ensures var s' := Step(wired, prog, n, s, m);
            && OthersSame(s, s', b)
            && (Left(prog, s'.pos[b]) < Left(prog, s.pos[b]) || (s'.pos[b] == s.pos[b] && |s'.pend[b]| < |s.pend[b]|))
  {
    hide GoOn; hide Left; hide Edge;
    if m.Go? {
      GoLowers(wired, prog, s, b);
    } else {
      var pend := s.pend[b];
      assert (pend - {m.c}).Keys == pend.Keys - {m.c};
      assert |pend - {m.c}| == |(pend - {m.c}).Keys| < |pend.Keys| == |pend|;
    }
  }

  lemma RunSnoc(wired: Registry, prog: Prog, n: nat, ws: nat, base: Mem, moves: seq<Move>, m: Move)
    ensures Run(wired, prog, n, ws, base, moves + [m])
         == Step(wired, prog, n, Run(wired, prog, n, ws, base, moves), m)
  {
    assert (moves + [m])[..|moves|] == moves;
  }

  lemma {:induction false} BlockEnds(wired: Registry, prog: Prog, n: nat, ws: nat, base: Mem, moves: seq<Move>, b: nat)
      returns (more: seq<Move>)
    requires b < n
    ensures var s, s' := Run(wired, prog, n, ws, base, moves), Run(wired, prog, n, ws, base, moves + more);
            Done(wired, prog, s', b) && OthersSame(s, s', b)
    decreases Left(prog, Run(wired, prog, n, ws, base, moves).pos[b]), |Run(wired, prog, n, ws, base, moves).pend[b]|
  {
    hide Run; hide Step; hide Left; hide Edge;
    var s := Run(wired, prog, n, ws, base, moves);
    if Done(wired, prog, s, b) {
      more := [];
      assert moves + more == moves;
    } else {
      var m := NextMove(wired, prog, s, b);
      MoveLowers(wired, prog, n, s, b, m);
      RunSnoc(wired, prog, n, ws, base, moves, m);
      var rest := BlockEnds(wired, prog, n, ws, base, moves + [m], b);
      more := [m] + rest;
      assert moves + [m] + rest == moves + more;
    }
  }

  predicate AllDone(wired: Registry, prog: Prog, s: Machine, k: nat)
    requires |s.pos| == |s.pend|
  {
    forall b :: 0 <= b < k && b < |s.pos| ==> Done(wired, prog, s, b)
  }

  lemma {:induction false} BlocksEnd(wired: Registry, prog: Prog, n: nat, ws: nat, base: Mem, moves: seq<Move>, k: nat)
      returns (more: seq<Move>)
    requires k <= n
    ensures AllDone(wired, prog, Run(wired, prog, n, ws, base, moves + more), k)
    decreases k
  {
    hide Run;
    if k == 0 {
      more := [];
    } else {
      var init := BlocksEnd(wired, prog, n, ws, base, moves, k - 1);
      var last := BlockEnds(wired, prog, n, ws, base, moves + init, k - 1);
      more := init + last;
      assert moves + init + last == moves + more;
      var s, s' := Run(wired, prog, n, ws, base, moves + init), Run(wired, prog, n, ws, base, moves + more);
      forall b | 0 <= b < k ensures Done(wired, prog, s', b) {
        if b < k - 1 { assert Done(wired, prog, s, b) && s'.pos[b] == s.pos[b] && s'.pend[b] == s.pend[b]; }
      }
    }
  }

  /** Every run of a window can be brought to its end, so the sequential result is
      always reached. */
  lemma EveryRunEnds(wired: Registry, prog: Prog, n: nat, ws: nat, base: Mem, moves: seq<Move>)
      returns (more: seq<Move>)
    requires ws <= |prog| && RaceFree(wired, prog, n, ws, base)
    ensures var s := Run(wired, prog, n, ws, base, moves + more);
            && AtEdge(wired, prog, s.pos, s.pend)
            && s.mem == RunSeq(wired, prog, n, ws, WindowEnd(wired, prog, ws), base)
  {
    hide Run; hide RaceFree;
    more := BlocksEnd(wired, prog, n, ws, base, moves, n);
    var s := Run(wired, prog, n, ws, base, moves + more);
    forall b | 0 <= b < |s.pos| ensures Edge(wired, prog, s.pos[b].i) && s.pend[b] == map[] {
      assert Done(wired, prog, s, b);
    }
    AnyRunIsSequential(wired, prog, n, ws, base, moves + more);
  }
}
