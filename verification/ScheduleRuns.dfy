/** Coalescing joined with the interpreter: the merged program and the original one
    leave the same memory behind, in any interleaving of the blocks and with any
    division of each window's blocks. */
module ScheduleRuns {
  import opened Arrivals
  import opened Program
  import opened Interp
  import opened InterpControl
  import opened InterpData
  import opened InterpResults
  import opened Schedule
  import opened SplitGrid

  /** What the packer makes of an instruction given its block range, and the cells
      that a buffer name stands for. */
  datatype Packer = Packer(wired: Registry, code: (Ins, nat, nat) -> Instr, cells: Buf -> set<Cell>)

  /** Cell c belongs to one of the named buffers. */
  predicate Owned(P: Packer, names: set<Buf>, c: Cell) {
    exists x :: x in names && c in P.cells(x)
  }

  /** Different buffers share no cell. */
  ghost predicate Disjoint(P: Packer) {
    forall x: Buf, y: Buf :: x != y ==> P.cells(x) !! P.cells(y)
  }

  /** Each block's share stays inside the declared buffers and does not race with
      the shares of other blocks of the same instruction. */
  ghost predicate StaysInside(P: Packer, x: Ins, ins: Instr) {
    && (forall b: nat, m: Mem, c: Cell :: b < GRID && c in Solo(P.wired, [ins], b, 0, [], m).rd ==>
          Owned(P, x.r + x.w, c))
    && (forall b: nat, m: Mem, c: Cell :: b < GRID && c in Solo(P.wired, [ins], b, 0, [], m).wr ==> Owned(P, x.w, c))
    && (forall m: Mem :: RaceFree(P.wired, [ins], GRID, 0, m))
  }

  /** An instruction keeps to its declaration, and its overall effect does not
      depend on how many blocks share it. */
  ghost predicate Faithful(P: Packer, x: Ins) {
    forall lo: nat, hi: nat :: lo < hi <= GRID ==>
      var ins := P.code(x, lo, hi);
      && ins.lo == lo && ins.hi == hi && IsOp(P.wired, ins) && StaysInside(P, x, ins)
      && (forall m: Mem :: RunBlocks(GRID, ins, 0, m) == RunBlocks(GRID, P.code(x, 0, GRID), 0, m))
  }

  ghost predicate AllFaithful(P: Packer, ops: seq<Ins>) {
    forall k :: 0 <= k < |ops| ==> Faithful(P, ops[k])
  }

  /** A division of the grid for every window. */
  predicate Divided(ws: seq<Window>, rs: seq<seq<Range>>) {
    |rs| == |ws| && forall k :: 0 <= k < |ws| ==> |rs[k]| == |ws[k]| && Tiles(rs[k])
  }

  // ---- the emitted program ------------------------------------------------------------

  const BOUNDARY: Instr := Instr(OP_BOUNDARY, 0, GRID, (b: nat, hist: seq<Val>) => Ret, 0)

  function WindowCode(P: Packer, w: Window, r: seq<Range>): (prog: Prog)
    requires |r| == |w|
    ensures |prog| == |w|
  {
    seq(|w|, k requires 0 <= k < |w| => P.code(w[k], r[k].lo, r[k].hi))
  }

  /** The instructions of each window, and a boundary behind each. */
  function Emit(P: Packer, ws: seq<Window>, rs: seq<seq<Range>>): Prog
    requires Divided(ws, rs)
  {
    if ws == [] then []
    else Emit(P, ws[..|ws| - 1], rs[..|ws| - 1]) + WindowCode(P, ws[|ws| - 1], rs[|ws| - 1]) + [BOUNDARY]
  }

  /** The meaning of the instruction list itself: one after the other, each by the
      whole grid. */
  function Meaning(P: Packer, ops: seq<Ins>, m: Mem): Mem {
    if ops == [] then m
    else RunBlocks(GRID, P.code(ops[|ops| - 1], 0, GRID), 0, Meaning(P, ops[..|ops| - 1], m))
  }

  lemma {:induction false} MeaningConcat(P: Packer, a: seq<Ins>, b: seq<Ins>, m: Mem)
    ensures Meaning(P, a + b, m) == Meaning(P, b, Meaning(P, a, m))
  {
    if b == [] {
      assert a + b == a;
    } else {
      assert (a + b)[..|a + b| - 1] == a + b[..|b| - 1];
      MeaningConcat(P, a, b[..|b| - 1], m);
    }
  }

  lemma RangesEnd(r: seq<Range>, k: nat)
    requires Tiles(r) && k < |r|
    ensures r[k].hi <= GRID
  {
    if k + 1 < |r| { TilesOrdered(r, k, |r| - 1); }
  }

  /** Every block of the grid runs exactly one instruction of an emitted window. */
  lemma BlockRunsOne(P: Packer, w: Window, r: seq<Range>, b: nat) returns (k: nat)
    requires |r| == |w| && Tiles(r) && AllFaithful(P, w) && b < GRID
    ensures k < |w| && InRange(WindowCode(P, w, r)[k], b)
    ensures forall j: nat :: j < |w| && j != k ==> !InRange(WindowCode(P, w, r)[j], b)
  {
    k := TilesCover(r, b, |r| - 1);
    forall j: nat | j < |w| ensures WindowCode(P, w, r)[j].lo == r[j].lo && WindowCode(P, w, r)[j].hi == r[j].hi {
      RangesEnd(r, j);
      assert Faithful(P, w[j]);
      hide StaysInside; hide RunBlocks;
    }
    hide Faithful; hide WindowCode;
  }

  // ---- sequential runs of parts ----------------------------------------------------------

  lemma {:induction false} RunSeqPart(wired: Registry, prog: Prog, part: Prog, n: nat, i: nat, k: nat, m: Mem)
    requires k <= |part| && i + |part| <= |prog| && prog[i..i + |part|] == part
    ensures RunSeq(wired, prog, n, i + k, i + |part|, m) == RunSeq(wired, part, n, k, |part|, m)
    decreases |part| - k
  {
    if k < |part| {
      assert prog[i + k] == prog[i..i + |part|][k];
      RunSeqPart(wired, prog, part, n, i, k + 1, if IsOp(wired, part[k]) then RunBlocks(n, part[k], 0, m) else m);
    }
  }

  lemma RunSeqConcat(wired: Registry, a: Prog, b: Prog, n: nat, m: Mem)
    ensures RunSeq(wired, a + b, n, 0, |a + b|, m) == RunSeq(wired, b, n, 0, |b|, RunSeq(wired, a, n, 0, |a|, m))
  {
    RunSeqSplit(wired, a + b, n, 0, |a|, |a + b|, m);
    RunSeqPart(wired, a + b, a, n, 0, 0, m);
    RunSeqPart(wired, a + b, b, n, |a|, 0, RunSeq(wired, a, n, 0, |a|, m));
  }

  lemma CodeSnoc(P: Packer, w: Window, r: seq<Range>)
    requires |r| == |w| > 0
    ensures var k := |w| - 1; WindowCode(P, w, r) == WindowCode(P, w[..k], r[..k]) + [P.code(w[k], r[k].lo, r[k].hi)]
  {
  }

  lemma {:induction false} WindowMeaning(P: Packer, w: Window, r: seq<Range>, m: Mem)
    requires |r| == |w| && AllFaithful(P, w) && forall k :: 0 <= k < |r| ==> r[k].lo < r[k].hi <= GRID
    ensures RunSeq(P.wired, WindowCode(P, w, r), GRID, 0, |w|, m) == Meaning(P, w, m)
  {
    if w != [] {
      hide Faithful; hide RunBlocks; hide RunSeq; hide WindowCode;
      var k := |w| - 1;
      FaithfulParts(P, w[..k], [w[k]]);
      assert w == w[..k] + [w[k]];
      WindowMeaning(P, w[..k], r[..k], m);
      var last := P.code(w[k], r[k].lo, r[k].hi);
      CodeSnoc(P, w, r);
      RunSeqConcat(P.wired, WindowCode(P, w[..k], r[..k]), [last], GRID, m);
      OneMeaning(P, w[k], r[k], Meaning(P, w[..k], m));
    }
  }

  lemma OneMeaning(P: Packer, x: Ins, r: Range, m: Mem)
    requires Faithful(P, x) && r.lo < r.hi <= GRID
    ensures RunSeq(P.wired, [P.code(x, r.lo, r.hi)], GRID, 0, 1, m) == RunBlocks(GRID, P.code(x, 0, GRID), 0, m)
  {
    var ins := P.code(x, r.lo, r.hi);
    assert IsOp(P.wired, ins) && RunBlocks(GRID, ins, 0, m) == RunBlocks(GRID, P.code(x, 0, GRID), 0, m);
    hide Faithful; hide RunBlocks;
  }

  lemma {:induction false} TilesInGrid(r: seq<Range>, k: nat)
    requires Tiles(r) && k < |r|
    ensures r[k].lo < r[k].hi <= GRID
    decreases |r| - k
  {
    if k + 1 < |r| { TilesInGrid(r, k + 1); }
  }

  /** The emitted program means what its instruction list means, whatever the
      windows and the divisions of the grid. */
  lemma {:induction false} EmittedMeaning(P: Packer, ws: seq<Window>, rs: seq<seq<Range>>, m: Mem)
    requires Divided(ws, rs) && AllFaithful(P, Flatten(ws))
    ensures RunSeq(P.wired, Emit(P, ws, rs), GRID, 0, |Emit(P, ws, rs)|, m) == Meaning(P, Flatten(ws), m)
  {
    if ws != [] {
      var k := |ws| - 1;
      var before, w, r := Emit(P, ws[..k], rs[..k]), ws[k], rs[k];
      var code := WindowCode(P, w, r);
      FaithfulParts(P, Flatten(ws[..k]), w);
      EmittedMeaning(P, ws[..k], rs[..k], m);
      var m1 := Meaning(P, Flatten(ws[..k]), m);
      forall j | 0 <= j < |r| ensures r[j].lo < r[j].hi <= GRID { TilesInGrid(r, j); }
      WindowMeaning(P, w, r, m1);
      MeaningConcat(P, Flatten(ws[..k]), w, m);
      RunSeqConcat(P.wired, before, code, GRID, m);
      RunSeqConcat(P.wired, before + code, [BOUNDARY], GRID, m);
      var m2 := Meaning(P, w, m1);
      assert RunSeq(P.wired, [BOUNDARY], GRID, 0, 1, m2) == m2;
    }
  }

  lemma FaithfulParts(P: Packer, a: seq<Ins>, b: seq<Ins>)
    requires AllFaithful(P, a + b)
    ensures AllFaithful(P, a) && AllFaithful(P, b)
  {
    forall k | 0 <= k < |a| ensures Faithful(P, a[k]) { assert (a + b)[k] == a[k]; }
    forall k | 0 <= k < |b| ensures Faithful(P, b[k]) { assert (a + b)[|a| + k] == b[k]; }
  }

  // ---- one window run by all blocks --------------------------------------------------------

  /** A block skips the instructions that are not its own. */
  lemma {:induction false} SoloSkip(wired: Registry, prog: Prog, b: nat, i: nat, k: nat, m: Mem)
    requires i <= k && forall j :: i <= j < k ==> !Edge(wired, prog, j) && !InRange(prog[j], b)
    ensures Solo(wired, prog, b, i, [], m) == Solo(wired, prog, b, k, [], m)
    decreases k - i
  {
    if i < k { SoloSkip(wired, prog, b, i + 1, k, m); }
  }

  /** Its share of its only instruction is all that it does. */
  lemma {:induction false} SoloOnly(wired: Registry, prog: Prog, b: nat, i: nat, hist: seq<Val>, m: Mem)
    requires !Edge(wired, prog, i) && InRange(prog[i], b)
    requires forall m' :: Solo(wired, prog, b, i + 1, [], m') == Outcome(m', {}, {})
    ensures Solo(wired, prog, b, i, hist, m) == Solo(wired, [prog[i]], b, 0, hist, m)
    decreases if |hist| < prog[i].bound then prog[i].bound - |hist| else 0
  {
    match NextAct(prog[i], b, hist)
    case Load(c) => SoloOnly(wired, prog, b, i, hist + [Get(m, c)], m);
    case Store(c, v) => SoloOnly(wired, prog, b, i, hist + [v], m[c := v]);
    case Ret =>
  }

  /** Window w starts at s in the program. */
  ghost predicate PlacedAt(P: Packer, prog: Prog, s: nat, w: Window, r: seq<Range>) {
    && |r| == |w| && s + |w| <= |prog| && prog[s..s + |w|] == WindowCode(P, w, r)
    && s + |w| < |prog| && prog[s + |w|].kind == OP_BOUNDARY
  }

  lemma PlacedIns(P: Packer, prog: Prog, s: nat, w: Window, r: seq<Range>, j: nat)
    requires PlacedAt(P, prog, s, w, r) && Tiles(r) && AllFaithful(P, w) && j < |w|
    ensures prog[s + j] == P.code(w[j], r[j].lo, r[j].hi) && prog[s + j].lo == r[j].lo && prog[s + j].hi == r[j].hi
    ensures !Edge(P.wired, prog, s + j) && StaysInside(P, w[j], prog[s + j])
  {
    TilesInGrid(r, j);
    assert prog[s..s + |w|][j] == prog[s + j];
    assert Faithful(P, w[j]);
    hide StaysInside;
  }

  lemma TilesEnd(r: seq<Range>)
    requires Tiles(r)
    ensures |r| > 0 && r[|r| - 1].hi == GRID
  {
  }

  /** In a tiled window, block b runs the one instruction k that it is in range of. */
  lemma SoloInWindow(P: Packer, prog: Prog, s: nat, w: Window, r: seq<Range>, b: nat, m: Mem) returns (k: nat)
    requires PlacedAt(P, prog, s, w, r) && Tiles(r) && AllFaithful(P, w) && b < GRID
    ensures k < |w| && !Edge(P.wired, prog, s + k) && StaysInside(P, w[k], prog[s + k])
    ensures Solo(P.wired, prog, b, s, [], m) == Solo(P.wired, [prog[s + k]], b, 0, [], m)
  {
    hide StaysInside; hide Faithful; hide WindowCode; hide AllFaithful; hide Tiles;
    assert |r| > 0 && r[|r| - 1].hi == GRID by { TilesEnd(r); }
    k := TilesCover(r, b, |r| - 1);
    PlacedIns(P, prog, s, w, r, k);
    forall j | s <= j < s + |w| && j != s + k ensures !Edge(P.wired, prog, j) && !InRange(prog[j], b) {
      PlacedIns(P, prog, s, w, r, j - s);
    }
    SoloSkip(P.wired, prog, b, s, s + k, m);
    forall m' ensures Solo(P.wired, prog, b, s + k + 1, [], m') == Outcome(m', {}, {}) {
      SoloSkip(P.wired, prog, b, s + k + 1, s + |w|, m');
    }
    SoloOnly(P.wired, prog, b, s + k, [], m);
  }

  lemma NoCommonCell(P: Packer, x: set<Buf>, y: set<Buf>, c: Cell)
    requires Disjoint(P) && x * y == {}
    ensures !(Owned(P, x, c) && Owned(P, y, c))
  {
    forall p, q | p in x && q in y ensures !(c in P.cells(p) && c in P.cells(q)) {
      assert p in y ==> p in x * y;
      assert P.cells(p) !! P.cells(q);
    }
  }

  /** The shares of two instructions that do not clash do not race. */
  lemma NoClashNoRace(P: Packer, x: Ins, y: Ins, ix: Instr, iy: Instr, b: nat, c: nat, m: Mem)
    requires Disjoint(P) && !Clash(x, y) && StaysInside(P, x, ix) && StaysInside(P, y, iy) && b < GRID && c < GRID
    ensures var o, o' := Solo(P.wired, [ix], b, 0, [], m), Solo(P.wired, [iy], c, 0, [], m);
            o.wr !! o'.rd && o.wr !! o'.wr
  {
    var o, o' := Solo(P.wired, [ix], b, 0, [], m), Solo(P.wired, [iy], c, 0, [], m);
    assert x.w * (y.r + y.w) == {};
    forall d | d in o.wr ensures d !in o'.rd && d !in o'.wr {
      assert Owned(P, x.w, d);
      NoCommonCell(P, x.w, y.r + y.w, d);
      assert Owned(P, y.w, d) ==> Owned(P, y.r + y.w, d);
    }
  }

  lemma SharesDoNotRace(P: Packer, x: Ins, ins: Instr, b: nat, c: nat, m: Mem)
    requires StaysInside(P, x, ins) && b < GRID && c < GRID && b != c
    ensures var o, o' := Solo(P.wired, [ins], b, 0, [], m), Solo(P.wired, [ins], c, 0, [], m);
            o.wr !! o'.rd && o.wr !! o'.wr
  {
    assert RaceFree(P.wired, [ins], GRID, 0, m);
  }

  /** A hazard-free window is race-free, from whatever memory it starts. */
  lemma WindowRaceFree(P: Packer, prog: Prog, s: nat, w: Window, r: seq<Range>, m: Mem)
    requires Disjoint(P) && PlacedAt(P, prog, s, w, r) && Tiles(r) && AllFaithful(P, w) && HazardFree(w)
    ensures RaceFree(P.wired, prog, GRID, s, m)
  {
    hide StaysInside; hide PlacedAt;
    forall b: nat, c: nat | b < GRID && c < GRID && b != c
      ensures var o, o' := Solo(P.wired, prog, b, s, [], m), Solo(P.wired, prog, c, s, [], m);
              o.wr !! o'.rd && o.wr !! o'.wr
    {
      var j := SoloInWindow(P, prog, s, w, r, b, m);
      var k := SoloInWindow(P, prog, s, w, r, c, m);
      if j == k {
        SharesDoNotRace(P, w[j], prog[s + j], b, c, m);
      } else {
        NoClashNoRace(P, w[j], w[k], prog[s + j], prog[s + k], b, c, m);
      }
    }
  }

  /** Every place where a window can begin in the emitted program is the beginning
      of one of the windows, or the end. */
  lemma {:induction false} EmittedWindows(P: Packer, ws: seq<Window>, rs: seq<seq<Range>>, s: nat) returns (k: nat)
    requires Divided(ws, rs) && AllFaithful(P, Flatten(ws))
    requires var prog := Emit(P, ws, rs); s < |prog| && (s == 0 || prog[s - 1].kind == OP_BOUNDARY)
    ensures k < |ws| && PlacedAt(P, Emit(P, ws, rs), s, ws[k], rs[k])
  {
    var m := |ws| - 1;
    var before, w, r := Emit(P, ws[..m], rs[..m]), ws[m], rs[m];
    var code, prog := WindowCode(P, w, r), Emit(P, ws, rs);
    assert prog == before + code + [BOUNDARY];
    FaithfulParts(P, Flatten(ws[..m]), w);
    if s < |before| {
      assert s > 0 ==> before[s - 1] == prog[s - 1];
      k := EmittedWindows(P, ws[..m], rs[..m], s);
      PlacedFurther(P, before, code + [BOUNDARY], s, ws[k], rs[k]);
      assert prog == before + (code + [BOUNDARY]);
    } else {
      NoBoundaryInside(P, w, r);
      StartsOutside(before, code, s);
      k := m;
      assert prog[s..s + |w|] == code;
    }
  }

  lemma NoBoundaryInside(P: Packer, w: Window, r: seq<Range>)
    requires |r| == |w| && Tiles(r) && AllFaithful(P, w)
    ensures forall j :: 0 <= j < |w| ==> WindowCode(P, w, r)[j].kind != OP_BOUNDARY
  {
    forall j | 0 <= j < |w| ensures WindowCode(P, w, r)[j].kind != OP_BOUNDARY {
      TilesInGrid(r, j);
      assert Faithful(P, w[j]);
    }
  }

  lemma StartsOutside(before: Prog, code: Prog, s: nat)
    requires forall j :: 0 <= j < |code| ==> code[j].kind != OP_BOUNDARY
    requires var prog := before + code + [BOUNDARY]; s < |prog| && (s == 0 || prog[s - 1].kind == OP_BOUNDARY)
    ensures s <= |before|
  {
  }

  lemma PlacedFurther(P: Packer, prog: Prog, more: Prog, s: nat, w: Window, r: seq<Range>)
    requires PlacedAt(P, prog, s, w, r)
    ensures PlacedAt(P, prog + more, s, w, r)
  {
    assert (prog + more)[s..s + |w|] == prog[s..s + |w|];
  }

  lemma {:induction false} FaithfulWindow(P: Packer, ws: seq<Window>, k: nat)
    requires AllFaithful(P, Flatten(ws)) && k < |ws|
    ensures AllFaithful(P, ws[k])
    decreases |ws|
  {
    hide Faithful;
    FaithfulParts(P, Flatten(ws[..|ws| - 1]), ws[|ws| - 1]);
    if k < |ws| - 1 { FaithfulWindow(P, ws[..|ws| - 1], k); }
  }

  /** The interpreter runs the emitted program of these windows. */
  ghost predicate Runs(P: Packer, ws: seq<Window>, rs: seq<seq<Range>>, cfg: Config) {
    && Disjoint(P) && Divided(ws, rs) && AllFaithful(P, Flatten(ws)) && AllHazardFree(ws)
    && cfg.n == GRID && cfg.wired == P.wired && cfg.prog == Emit(P, ws, rs)
  }

  /** What the lifetime check accepts runs without races in every pass. */
  lemma HazardFreeRunsRaceFree(P: Packer, ws: seq<Window>, rs: seq<seq<Range>>, cfg: Config)
    requires Runs(P, ws, rs, cfg)
    ensures WindowsRaceFree(cfg)
  {
    forall p: nat, s: nat | p >= 1 && WindowAt(cfg, s)
      ensures RaceFree(cfg.wired, cfg.prog, cfg.n, s, WindowBase(cfg, p, s))
    {
      if s < |cfg.prog| {
        var k := EmittedWindows(P, ws, rs, s);
        FaithfulWindow(P, ws, k);
        assert HazardFree(ws[k]);
        WindowRaceFree(P, cfg.prog, s, ws[k], rs[k], WindowBase(cfg, p, s));
      }
    }
  }

  /** Memory after p passes of the bare instruction list. */
  function PassesMean(P: Packer, ops: seq<Ins>, cfg: Config, p: nat): Mem {
    if p == 0 then cfg.init else Meaning(P, ops, PassesMean(P, ops, cfg, p - 1) + cfg.inputs(p))
  }

  lemma {:induction false} PassEndMeans(P: Packer, ws: seq<Window>, rs: seq<seq<Range>>, cfg: Config, p: nat)
    requires Runs(P, ws, rs, cfg)
    ensures PassEnd(cfg, p) == PassesMean(P, Flatten(ws), cfg, p)
  {
    hide RunSeq; hide Disjoint; hide Divided; hide AllFaithful; hide AllHazardFree; hide Meaning; hide Emit;
    hide Flatten;
    if p > 0 {
      PassEndMeans(P, ws, rs, cfg, p - 1);
      EmittedMeaning(P, ws, rs, PassStart(cfg, p));
    }
  }

  /** Compiler and interpreter together: after RUN_OK for pass p, whatever the
      interleaving, memory is what the instruction list means, one instruction at
      a time in the order in which the compiler emitted them. */
  lemma ScheduledRunIsSequential(P: Packer, ws: seq<Window>, rs: seq<seq<Range>>, cfg: Config, acts: seq<Action>,
                                 p: nat)
    requires Runs(P, ws, rs, cfg) && Sound(cfg) && RunOk(Run(cfg, acts), p)
    ensures Run(cfg, acts).mem == PassesMean(P, Flatten(ws), cfg, p)
  {
    hide Run; hide Runs; hide RunOk;
    HazardFreeRunsRaceFree(P, ws, rs, cfg);
    InterleavedIsSequential(cfg, acts, p);
    PassEndMeans(P, ws, rs, cfg, p);
  }

  /** Coalescing preserves meaning: the program with merged windows and the one
      without, each with its own division of the grid and its own interleaving,
      agree on all of memory after every completed pass. */
  lemma CoalescingPreservesMeaning(P: Packer, ws: seq<Window>, rs: seq<seq<Range>>, rs': seq<seq<Range>>,
                                   cfg: Config, cfg': Config, acts: seq<Action>, acts': seq<Action>, p: nat)
    requires Runs(P, ws, rs, cfg) && Sound(cfg) && RunOk(Run(cfg, acts), p)
    requires Divided(Coalesced(ws), rs') && cfg'.prog == Emit(P, Coalesced(ws), rs') && cfg'.n == GRID
             && cfg'.wired == P.wired
    requires cfg'.init == cfg.init && cfg'.inputs == cfg.inputs
    requires Sound(cfg') && RunOk(Run(cfg', acts'), p)
    ensures Run(cfg', acts').mem == Run(cfg, acts).mem
  {
    hide Run; hide RunOk; hide Faithful;
    CoalescingKeepsOrder(ws);
    CoalescingKeepsHazards(ws);
    assert Runs(P, Coalesced(ws), rs', cfg');
    ScheduledRunIsSequential(P, ws, rs, cfg, acts, p);
    ScheduledRunIsSequential(P, Coalesced(ws), rs', cfg', acts', p);
    SameInputs(P, Flatten(ws), cfg, cfg', p);
  }

  lemma {:induction false} SameInputs(P: Packer, ops: seq<Ins>, cfg: Config, cfg': Config, p: nat)
    requires cfg'.init == cfg.init && cfg'.inputs == cfg.inputs
    ensures PassesMean(P, ops, cfg', p) == PassesMean(P, ops, cfg, p)
  {
    if p > 0 { SameInputs(P, ops, cfg, cfg', p - 1); }
  }
}
