/** Instruction programs, what one block does in one of them, and the sequential
    meaning of a program.  A block's share of an instruction is an arbitrary
    deterministic thread: its next memory access is a function of the block number
    and of the values it has loaded or stored so far. */
module Program {

  type Cell = nat
  type Val = int
  type Mem = map<Cell, Val>

  const OP_BOUNDARY: nat := 1
  const OP_KIND_COUNT: nat := 27

  datatype Act = Load(c: Cell) | Store(c: Cell, v: Val) | Ret

  /** `bound` caps the accesses of one block: an op returns after at most that many. */
  datatype Instr = Instr(kind: nat, lo: nat, hi: nat, next: (nat, seq<Val>) -> Act, bound: nat)

  type Prog = seq<Instr>

  /** The kinds with a case in the op registry. */
  type Registry = set<nat>

  predicate Bad(wired: Registry, ins: Instr) {
    ins.kind != OP_BOUNDARY && (ins.kind >= OP_KIND_COUNT || ins.kind !in wired)
  }

  predicate IsOp(wired: Registry, ins: Instr) {
    ins.kind != OP_BOUNDARY && !Bad(wired, ins)
  }

  predicate InRange(ins: Instr, b: nat) {
    ins.lo <= b < ins.hi
  }

  function NextAct(ins: Instr, b: nat, hist: seq<Val>): Act {
    if |hist| >= ins.bound then Ret else ins.next(b, hist)
  }

  /** Cells never written hold zero. */
  function Get(m: Mem, c: Cell): Val {
    if c in m then m[c] else 0
  }

  /** A load finds what was stored last in its cell, whether that waits in the block or
      has reached memory, and stores elsewhere do not matter to it. */
  lemma ReadOverWrite(m: Mem, pend: Mem, c: Cell, v: Val, d: Cell)
    ensures Get(m[c := v], d) == if d == c then v else Get(m, d)
    ensures Get(View(m, pend[c := v]), d) == if d == c then v else Get(View(m, pend), d)
    ensures d in pend ==> Get(View(m, pend), d) == pend[d]
    ensures d !in pend ==> Get(View(m, pend), d) == Get(m, d)
    ensures Get(map[], d) == 0
  {
  }

  /** Two memories hold the same at c. */
  predicate Same(m: Mem, m': Mem, c: Cell) {
    (c in m <==> c in m') && (c in m ==> m[c] == m'[c])
  }

  /** Where the walk of a window stops: a boundary, a bad instruction, or the end. */
  predicate Edge(wired: Registry, prog: Prog, i: nat) {
    i >= |prog| || !IsOp(wired, prog[i])
  }

  function WindowEnd(wired: Registry, prog: Prog, i: nat): (e: nat)
    requires i <= |prog|
    ensures i <= e <= |prog| && Edge(wired, prog, e)
    ensures forall j :: i <= j < e ==> !Edge(wired, prog, j)
    decreases |prog| - i
  {
    if Edge(wired, prog, i) then i else WindowEnd(wired, prog, i + 1)
  }

  // ---- one block alone ----------------------------------------------------

  /** What block b does from instruction i (with accesses `hist` already made in
      it) to the end of the window when no other block runs: the resulting memory
      and the cells it loads and stores on the way. */
  datatype Outcome = Outcome(mem: Mem, rd: set<Cell>, wr: set<Cell>)

  function Solo(wired: Registry, prog: Prog, b: nat, i: nat, hist: seq<Val>, m: Mem): Outcome
    decreases |prog| - i, if i < |prog| && |hist| < prog[i].bound then prog[i].bound - |hist| else 0
  {
    if Edge(wired, prog, i) then Outcome(m, {}, {})
    else if !InRange(prog[i], b) then Solo(wired, prog, b, i + 1, [], m)
    else match NextAct(prog[i], b, hist)
      case Load(c) =>
        var o := Solo(wired, prog, b, i, hist + [Get(m, c)], m);
        o.(rd := o.rd + {c})
      case Store(c, v) =>
        var o := Solo(wired, prog, b, i, hist + [v], m[c := v]);
        o.(wr := o.wr + {c})
      case Ret => Solo(wired, prog, b, i + 1, [], m)
  }

  /** Running alone depends only on the cells it loads, and leaves agreement on
      every cell that it writes or that agreed before. */
  lemma {:induction false} SoloFrame(wired: Registry, prog: Prog, b: nat, i: nat, hist: seq<Val>, m: Mem, m': Mem)
    requires forall c :: c in Solo(wired, prog, b, i, hist, m).rd ==> Same(m, m', c)
    ensures var o, o' := Solo(wired, prog, b, i, hist, m), Solo(wired, prog, b, i, hist, m');
            && o.rd == o'.rd && o.wr == o'.wr
            && (forall c :: c in o.wr || Same(m, m', c) ==> Same(o.mem, o'.mem, c))
    decreases |prog| - i, if i < |prog| && |hist| < prog[i].bound then prog[i].bound - |hist| else 0
  {
    if Edge(wired, prog, i) {
    } else if !InRange(prog[i], b) {
      SoloFrame(wired, prog, b, i + 1, [], m, m');
    } else {
      match NextAct(prog[i], b, hist)
      case Load(c) =>
        assert Same(m, m', c);
        SoloFrame(wired, prog, b, i, hist + [Get(m, c)], m, m');
      case Store(c, v) =>
        var m1, m1' := m[c := v], m'[c := v];
        assert Solo(wired, prog, b, i, hist, m).rd == Solo(wired, prog, b, i, hist + [v], m1).rd;
        forall d | d in Solo(wired, prog, b, i, hist + [v], m1).rd ensures Same(m1, m1', d) {
          assert Same(m, m', d);
        }
        SoloFrame(wired, prog, b, i, hist + [v], m1, m1');
      case Ret =>
        SoloFrame(wired, prog, b, i + 1, [], m, m');
    }
  }

  // ---- the sequential meaning ---------------------------------------------

  function RunOp(ins: Instr, b: nat, hist: seq<Val>, m: Mem): Mem
    decreases ins.bound - |hist|
  {
    match NextAct(ins, b, hist)
    case Load(c) => RunOp(ins, b, hist + [Get(m, c)], m)
    case Store(c, v) => RunOp(ins, b, hist + [v], m[c := v])
    case Ret => m
  }

  /** Blocks b, b+1, ..., n-1 one after the other. */
  function RunBlocks(n: nat, ins: Instr, b: nat, m: Mem): Mem
    decreases n - b
  {
    if b >= n then m
    else RunBlocks(n, ins, b + 1, if InRange(ins, b) then RunOp(ins, b, [], m) else m)
  }

  /** Instructions i, ..., e-1 one after the other; boundaries do nothing. */
  function RunSeq(wired: Registry, prog: Prog, n: nat, i: nat, e: nat, m: Mem): Mem
    requires i <= e <= |prog|
    decreases e - i
  {
    if i == e then m
    else RunSeq(wired, prog, n, i + 1, e,
                if IsOp(wired, prog[i]) then RunBlocks(n, prog[i], 0, m) else m)
  }

  lemma {:induction false} RunSeqSplit(wired: Registry, prog: Prog, n: nat, i: nat, k: nat, e: nat, m: Mem)
    requires i <= k <= e <= |prog|
    ensures RunSeq(wired, prog, n, i, e, m)
         == RunSeq(wired, prog, n, k, e, RunSeq(wired, prog, n, i, k, m))
    decreases k - i
  {
    if i < k {
      RunSeqSplit(wired, prog, n, i + 1, k, e,
                  if IsOp(wired, prog[i]) then RunBlocks(n, prog[i], 0, m) else m);
    }
  }

  // ---- a window run by several blocks at once -----------------------------

  /** A block's place inside a window. */
  datatype Pos = Pos(i: nat, hist: seq<Val>)

  function SoloFrom(wired: Registry, prog: Prog, b: nat, p: Pos, m: Mem): Outcome {
    Solo(wired, prog, b, p.i, p.hist, m)
  }

  /** Between different blocks of the window that starts at ws, run from memory
      m, nobody writes a cell that another loads or writes. */
  ghost predicate RaceFree(wired: Registry, prog: Prog, n: nat, ws: nat, m: Mem) {
    forall b, c :: 0 <= b < n && 0 <= c < n && b != c ==>
      var o, o' := Solo(wired, prog, b, ws, [], m), Solo(wired, prog, c, ws, [], m);
      o.wr !! o'.rd && o.wr !! o'.wr
  }

  /** What block b sees: its own stores that have not drained yet, over memory. */
  function View(m: Mem, pend: Mem): Mem {
    m + pend
  }

  /** Invariant of one block in the window begun at ws from `base`: finishing alone
      from where it is, on what it sees, leads to what running alone from the
      beginning leads to. */
  ghost predicate OnTrack(wired: Registry, prog: Prog, b: nat, ws: nat, base: Mem, p: Pos, view: Mem) {
    var o0, o := Solo(wired, prog, b, ws, [], base), SoloFrom(wired, prog, b, p, view);
    && o.rd <= o0.rd && o.wr <= o0.wr
    && (forall c :: c in o0.wr ==> Same(o.mem, o0.mem, c))
  }

  ghost predicate Untouched(wired: Registry, prog: Prog, n: nat, ws: nat, base: Mem, c: Cell) {
    forall b :: 0 <= b < n ==> c !in Solo(wired, prog, b, ws, [], base).wr
  }

  ghost predicate WindowInv(wired: Registry, prog: Prog, n: nat, ws: nat, base: Mem,
                            m: Mem, pos: seq<Pos>, pend: seq<Mem>) {
    && |pos| == |pend| == n
    && (forall b :: 0 <= b < n ==> OnTrack(wired, prog, b, ws, base, pos[b], View(m, pend[b])))
    && (forall b :: 0 <= b < n ==> pend[b].Keys <= Solo(wired, prog, b, ws, [], base).wr)
    && (forall c :: Untouched(wired, prog, n, ws, base, c) ==> Same(m, base, c))
  }

  /** At the beginning of a window the invariant holds. */
  lemma WindowStart(wired: Registry, prog: Prog, n: nat, ws: nat, base: Mem, pos: seq<Pos>, pend: seq<Mem>)
    requires |pos| == |pend| == n
    requires forall b :: 0 <= b < n ==> pos[b] == Pos(ws, []) && pend[b] == map[]
    ensures WindowInv(wired, prog, n, ws, base, base, pos, pend)
  {
    forall b | 0 <= b < n ensures OnTrack(wired, prog, b, ws, base, pos[b], View(base, pend[b])) {
      assert View(base, pend[b]) == base;
    }
  }

  /** Block b moves on its own view: place, undrained stores, nothing shared. */
  lemma WindowMove(wired: Registry, prog: Prog, n: nat, ws: nat, base: Mem, m: Mem,
                   pos: seq<Pos>, pend: seq<Mem>, b: nat, p: Pos, mine: Mem)
    requires WindowInv(wired, prog, n, ws, base, m, pos, pend) && b < n
    requires var o, o' := SoloFrom(wired, prog, b, pos[b], View(m, pend[b])),
             SoloFrom(wired, prog, b, p, View(m, mine));
             o'.mem == o.mem && o'.rd <= o.rd && o'.wr <= o.wr
    requires mine.Keys <= Solo(wired, prog, b, ws, [], base).wr
    ensures WindowInv(wired, prog, n, ws, base, m, pos[b := p], pend[b := mine])
  {
    var pos', pend' := pos[b := p], pend[b := mine];
    forall c | 0 <= c < n ensures OnTrack(wired, prog, c, ws, base, pos'[c], View(m, pend'[c])) {
      assert OnTrack(wired, prog, c, ws, base, pos[c], View(m, pend[c]));
    }
  }

  /** One undrained store of block b reaches memory. */
  lemma WindowDrain(wired: Registry, prog: Prog, n: nat, ws: nat, base: Mem, m: Mem,
                    pos: seq<Pos>, pend: seq<Mem>, b: nat, c: Cell)
    requires WindowInv(wired, prog, n, ws, base, m, pos, pend) && b < n && c in pend[b]
    requires RaceFree(wired, prog, n, ws, base)
    ensures WindowInv(wired, prog, n, ws, base, m[c := pend[b][c]], pos, pend[b := pend[b] - {c}])
  {
    var m', pend' := m[c := pend[b][c]], pend[b := pend[b] - {c}];
    assert c in Solo(wired, prog, b, ws, [], base).wr;
    forall a | 0 <= a < n ensures OnTrack(wired, prog, a, ws, base, pos[a], View(m', pend'[a])) {
      assert OnTrack(wired, prog, a, ws, base, pos[a], View(m, pend[a]));
      if a == b {
        assert View(m', pend'[a]) == View(m, pend[a]);
      } else {
        var v, v', o0 := View(m, pend[a]), View(m', pend[a]), Solo(wired, prog, a, ws, [], base);
        assert forall d :: d != c ==> Same(v, v', d);
        SoloFrame(wired, prog, a, pos[a].i, pos[a].hist, v, v');
        forall d | d in o0.wr
          ensures Same(SoloFrom(wired, prog, a, pos[a], v').mem, o0.mem, d)
        {
          assert Same(v, v', d) && Same(SoloFrom(wired, prog, a, pos[a], v).mem, o0.mem, d);
        }
      }
    }
  }

  ghost predicate AtEdge(wired: Registry, prog: Prog, pos: seq<Pos>, pend: seq<Mem>) {
    forall b :: 0 <= b < |pos| && b < |pend| ==> Edge(wired, prog, pos[b].i) && pend[b] == map[]
  }

  lemma SameEverywhere(m: Mem, m': Mem)
    requires forall c :: Same(m, m', c)
    ensures m == m'
  {
    assert forall c :: c in m ==> Same(m, m', c);
    assert forall c :: c in m' ==> Same(m, m', c);
  }

  /** Everybody is at the edge and every store has drained: memory is determined
      by the base alone. */
  lemma WindowDetermined(wired: Registry, prog: Prog, n: nat, ws: nat, base: Mem,
                         m: Mem, pos: seq<Pos>, pend: seq<Mem>, m': Mem, pos': seq<Pos>, pend': seq<Mem>)
    requires WindowInv(wired, prog, n, ws, base, m, pos, pend) && AtEdge(wired, prog, pos, pend)
    requires WindowInv(wired, prog, n, ws, base, m', pos', pend') && AtEdge(wired, prog, pos', pend')
    ensures m == m'
  {
    forall c ensures Same(m, m', c) {
      if Untouched(wired, prog, n, ws, base, c) {
        assert Same(m, base, c) && Same(m', base, c);
      } else {
        var b :| 0 <= b < n && c in Solo(wired, prog, b, ws, [], base).wr;
        assert OnTrack(wired, prog, b, ws, base, pos[b], View(m, pend[b]));
        assert OnTrack(wired, prog, b, ws, base, pos'[b], View(m', pend'[b]));
        assert View(m, pend[b]) == m && View(m', pend'[b]) == m';
      }
    }
    SameEverywhere(m, m');
  }

  // ---- the sequential run is one of the interleavings ----------------------

  /** A step without a store: a load, or going on to the next instruction. */
  lemma WindowStep(wired: Registry, prog: Prog, n: nat, ws: nat, base: Mem, m: Mem,
                   pos: seq<Pos>, pend: seq<Mem>, b: nat, p: Pos)
    requires WindowInv(wired, prog, n, ws, base, m, pos, pend) && b < n && pend[b] == map[]
    requires var o, o' := SoloFrom(wired, prog, b, pos[b], m), SoloFrom(wired, prog, b, p, m);
             o'.mem == o.mem && o'.rd <= o.rd && o'.wr <= o.wr
    ensures WindowInv(wired, prog, n, ws, base, m, pos[b := p], pend)
  {
    assert View(m, map[]) == m;
    WindowMove(wired, prog, n, ws, base, m, pos, pend, b, p, map[]);
    assert pend[b := map[]] == pend;
  }

  /** A store that goes straight to memory. */
  lemma WindowStore(wired: Registry, prog: Prog, n: nat, ws: nat, base: Mem, m: Mem,
                    pos: seq<Pos>, pend: seq<Mem>, b: nat, c: Cell, v: Val)
    requires WindowInv(wired, prog, n, ws, base, m, pos, pend) && b < n && pend[b] == map[]
    requires RaceFree(wired, prog, n, ws, base)
    requires !Edge(wired, prog, pos[b].i) && InRange(prog[pos[b].i], b)
    requires NextAct(prog[pos[b].i], b, pos[b].hist) == Store(c, v)
    ensures WindowInv(wired, prog, n, ws, base, m[c := v], pos[b := Pos(pos[b].i, pos[b].hist + [v])], pend)
  {
    var p := Pos(pos[b].i, pos[b].hist + [v]);
    var mine: Mem := map[c := v];
    assert OnTrack(wired, prog, b, ws, base, pos[b], View(m, pend[b]));
    assert View(m, pend[b]) == m && View(m, mine) == m[c := v];
    WindowMove(wired, prog, n, ws, base, m, pos, pend, b, p, mine);
    var pend' := pend[b := mine];
    WindowDrain(wired, prog, n, ws, base, m, pos[b := p], pend', b, c);
    assert mine - {c} == map[];
    assert pend'[b := map[]] == pend;
  }

  /** Running one block's share of instruction i to its end, stores going straight
      to memory. */
  lemma {:induction false} WindowRunOp(wired: Registry, prog: Prog, n: nat, ws: nat, base: Mem, m: Mem,
                     pos: seq<Pos>, pend: seq<Mem>, b: nat)
    requires WindowInv(wired, prog, n, ws, base, m, pos, pend) && b < n && pend[b] == map[]
    requires RaceFree(wired, prog, n, ws, base)
    requires !Edge(wired, prog, pos[b].i) && InRange(prog[pos[b].i], b)
    ensures WindowInv(wired, prog, n, ws, base, RunOp(prog[pos[b].i], b, pos[b].hist, m),
                      pos[b := Pos(pos[b].i + 1, [])], pend)
    decreases prog[pos[b].i].bound - |pos[b].hist|
  {
    var i, hist := pos[b].i, pos[b].hist;
    var next := Pos(i + 1, []);
    match NextAct(prog[i], b, hist)
    case Load(c) =>
      var p := Pos(i, hist + [Get(m, c)]);
      WindowStep(wired, prog, n, ws, base, m, pos, pend, b, p);
      WindowRunOp(wired, prog, n, ws, base, m, pos[b := p], pend, b);
      assert pos[b := p][b := next] == pos[b := next];
    case Store(c, v) =>
      var p := Pos(i, hist + [v]);
      WindowStore(wired, prog, n, ws, base, m, pos, pend, b, c, v);
      WindowRunOp(wired, prog, n, ws, base, m[c := v], pos[b := p], pend, b);
      assert pos[b := p][b := next] == pos[b := next];
    case Ret =>
      WindowStep(wired, prog, n, ws, base, m, pos, pend, b, next);
  }

  /** Blocks below b are past instruction i, the others are about to start it. */
  function Front(n: nat, i: nat, b: nat): seq<Pos> {
    seq(n, c => if c < b then Pos(i + 1, []) else Pos(i, []))
  }

  function NoPending(n: nat): seq<Mem> {
    seq(n, _ => map[])
  }

  lemma {:induction false} WindowRunBlocks(wired: Registry, prog: Prog, n: nat, ws: nat, base: Mem, m: Mem, i: nat,
                                           b: nat)
    requires b <= n && !Edge(wired, prog, i) && RaceFree(wired, prog, n, ws, base)
    requires WindowInv(wired, prog, n, ws, base, m, Front(n, i, b), NoPending(n))
    ensures WindowInv(wired, prog, n, ws, base, RunBlocks(n, prog[i], b, m), Front(n, i + 1, 0), NoPending(n))
    decreases n - b
  {
    hide WindowInv; hide RaceFree;
    var pos, pend := Front(n, i, b), NoPending(n);
    if b == n {
      assert Front(n, i, n) == Front(n, i + 1, 0);
    } else {
      var m' := if InRange(prog[i], b) then RunOp(prog[i], b, [], m) else m;
      if InRange(prog[i], b) {
        WindowRunOp(wired, prog, n, ws, base, m, pos, pend, b);
      } else {
        WindowStep(wired, prog, n, ws, base, m, pos, pend, b, Pos(i + 1, []));
      }
      assert pos[b := Pos(i + 1, [])] == Front(n, i, b + 1);
      WindowRunBlocks(wired, prog, n, ws, base, m', i, b + 1);
    }
  }

  lemma {:induction false} WindowRunSeq(wired: Registry, prog: Prog, n: nat, ws: nat, base: Mem, m: Mem, i: nat, e: nat)
    requires ws <= i <= e <= |prog| && RaceFree(wired, prog, n, ws, base)
    requires forall j :: i <= j < e ==> !Edge(wired, prog, j)
    requires WindowInv(wired, prog, n, ws, base, m, Front(n, i, 0), NoPending(n))
    ensures WindowInv(wired, prog, n, ws, base, RunSeq(wired, prog, n, i, e, m), Front(n, e, 0), NoPending(n))
    decreases e - i
  {
    if i < e {
      WindowRunBlocks(wired, prog, n, ws, base, m, i, 0);
      WindowRunSeq(wired, prog, n, ws, base, RunBlocks(n, prog[i], 0, m), i + 1, e);
    }
  }

  /** The invariant at the end of a race-free window, every store drained, pins
      memory down to what running the instructions one at a time in program order
      gives.  WindowRuns shows that every run keeps the invariant. */
  lemma WindowIsSequential(wired: Registry, prog: Prog, n: nat, ws: nat, base: Mem,
                           m: Mem, pos: seq<Pos>, pend: seq<Mem>)
    requires ws <= |prog| && RaceFree(wired, prog, n, ws, base)
    requires WindowInv(wired, prog, n, ws, base, m, pos, pend) && AtEdge(wired, prog, pos, pend)
    ensures m == RunSeq(wired, prog, n, ws, WindowEnd(wired, prog, ws), base)
  {
    var e := WindowEnd(wired, prog, ws);
    WindowStart(wired, prog, n, ws, base, Front(n, ws, 0), NoPending(n));
    WindowRunSeq(wired, prog, n, ws, base, base, ws, e);
    WindowDetermined(wired, prog, n, ws, base, m, pos, pend,
                     RunSeq(wired, prog, n, ws, e, base), Front(n, e, 0), NoPending(n));
  }
}
