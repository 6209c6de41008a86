/** Memory in every reachable state: the interleaved, delayed-store run of all
    blocks against running the instructions one at a time in program order. */
module InterpData {
  import opened Arrivals
  import opened Words
  import opened Program
  import opened Interp
  import opened InterpControl

  // ---- the sequential reference --------------------------------------------

  function PassStart(cfg: Config, p: nat): Mem
    requires p >= 1
    decreases p, 0
  {
    PassEnd(cfg, p - 1) + cfg.inputs(p)
  }

  /** Memory after p passes, each run instruction by instruction, block by block. */
  function PassEnd(cfg: Config, p: nat): Mem
    decreases p, 1
  {
    if p == 0 then cfg.init
    else RunSeq(cfg.wired, cfg.prog, cfg.n, 0, |cfg.prog|, PassStart(cfg, p))
  }

  /** Sequential memory in pass p when the window at ws begins. */
  function WindowBase(cfg: Config, p: nat, ws: nat): Mem
    requires p >= 1 && ws <= |cfg.prog|
  {
    RunSeq(cfg.wired, cfg.prog, cfg.n, 0, ws, PassStart(cfg, p))
  }

  predicate WindowAt(cfg: Config, ws: nat) {
    ws <= |cfg.prog| && (ws == 0 || BoundaryAt(cfg, ws - 1))
  }

  /** The hypothesis on the program: in the sequential run, the windows of every
      pass are free of conflicts between different blocks. */
  ghost predicate WindowsRaceFree(cfg: Config) {
    forall p, ws :: p >= 1 && WindowAt(cfg, ws) ==>
      RaceFree(cfg.wired, cfg.prog, cfg.n, ws, WindowBase(cfg, p, ws))
  }

  // ---- the invariant ---------------------------------------------------------

  function PosOf(cfg: Config, ws: nat, pc: Pc, ahead: bool): Pos {
    if ahead then Pos(End(cfg, ws), [])
    else match pc
      case Walk(i, hist) => Pos(i, hist)
      case RaiseHost(i, _) => if i == End(cfg, ws) then Pos(i, []) else Pos(i + 1, [])
      case RaiseDev(i, _) => if i == End(cfg, ws) then Pos(i, []) else Pos(i + 1, [])
      case Gone(exit) => if exit.BadKind? then Pos(exit.i, []) else Pos(ws, [])
      case _ => Pos(ws, [])
  }

  function Place(cfg: Config, s: State, b: nat): Pos
    requires Shaped(cfg, s) && b < cfg.n
  {
    PosOf(cfg, s.past.ws, s.blocks[b].pc, Ahead(s, b))
  }

  function Places(cfg: Config, s: State): seq<Pos>
    requires Shaped(cfg, s)
  {
    seq(cfg.n, b requires 0 <= b < cfg.n => Place(cfg, s, b))
  }

  function Pends(cfg: Config, s: State): seq<Mem>
    requires Shaped(cfg, s)
  {
    seq(cfg.n, b requires 0 <= b < cfg.n => s.blocks[b].pend)
  }

  predicate Staged(s: State) {
    s.hostPass == s.past.pass && !s.host.Staging? && !s.host.Unfed? && s.host != Closed(true)
  }

  ghost predicate DataInv(cfg: Config, s: State)
    requires Inv(cfg, s)
  {
    var P := s.past;
    && WindowAt(cfg, P.ws)
    && (if Staged(s) then P.base == WindowBase(cfg, P.pass, P.ws)
        else P.ws == 0 && P.base == PassEnd(cfg, P.pass - 1))
    && (if EnvOf(s).open
        then WindowInv(cfg.wired, cfg.prog, cfg.n, P.ws, P.base, s.mem, Places(cfg, s), Pends(cfg, s))
        else s.mem == P.base)
  }

  ghost predicate Good(cfg: Config) {
    Sound(cfg) && WindowsRaceFree(cfg)
  }

  /** Outside an open pass no block holds a store back or is inside a window. */
  lemma ClosedIsQuiet(cfg: Config, s: State)
    requires Inv(cfg, s) && !EnvOf(s).open
    ensures s.past.ws == 0
    ensures forall b :: 0 <= b < cfg.n ==>
              Places(cfg, s)[b] == Pos(0, []) && Pends(cfg, s)[b] == map[] && !s.blocks[b].pc.Walk?
  {
    forall b | 0 <= b < cfg.n
      ensures Places(cfg, s)[b] == Pos(0, []) && Pends(cfg, s)[b] == map[] && !s.blocks[b].pc.Walk?
    {
      assert BlockInv(cfg, EnvOf(s), b, s.blocks[b], Ahead(s, b));
    }
  }

  /** A step of block b that leaves memory and history alone. */
  lemma Moved(cfg: Config, s: State, s': State, b: nat)
    requires Shaped(cfg, s) && Shaped(cfg, s') && b < cfg.n
    requires WindowInv(cfg.wired, cfg.prog, cfg.n, s.past.ws, s.past.base, s.mem, Places(cfg, s), Pends(cfg, s))
    requires s'.mem == s.mem && s'.past.ws == s.past.ws && s'.past.base == s.past.base
    requires s'.past.lep == s.past.lep
    requires forall c :: 0 <= c < cfg.n && c != b ==> s'.blocks[c] == s.blocks[c] && s'.past.arr[c] == s.past.arr[c]
    requires var v, v' := View(s.mem, s.blocks[b].pend), View(s'.mem, s'.blocks[b].pend);
             var o, o' := SoloFrom(cfg.wired, cfg.prog, b, Place(cfg, s, b), v),
                 SoloFrom(cfg.wired, cfg.prog, b, Place(cfg, s', b), v');
             o'.mem == o.mem && o'.rd <= o.rd && o'.wr <= o.wr
    requires s'.blocks[b].pend.Keys <= Solo(cfg.wired, cfg.prog, b, s.past.ws, [], s.past.base).wr
    ensures WindowInv(cfg.wired, cfg.prog, cfg.n, s'.past.ws, s'.past.base, s'.mem, Places(cfg, s'), Pends(cfg, s'))
  {
    WindowMove(cfg.wired, cfg.prog, cfg.n, s.past.ws, s.past.base, s.mem, Places(cfg, s), Pends(cfg, s),
               b, Place(cfg, s', b), s'.blocks[b].pend);
    assert Places(cfg, s') == Places(cfg, s)[b := Place(cfg, s', b)];
    assert Pends(cfg, s') == Pends(cfg, s)[b := s'.blocks[b].pend];
  }

  /** Block b's step changed neither memory nor what it is about to do alone. */
  lemma SamePlace(cfg: Config, s: State, s': State, b: nat)
    requires Inv(cfg, s) && Inv(cfg, s') && DataInv(cfg, s) && b < cfg.n
    requires s'.mem == s.mem && s'.past.ws == s.past.ws && s'.past.base == s.past.base && s'.past.lep == s.past.lep
    requires s'.past.pass == s.past.pass && EnvOf(s').open == EnvOf(s).open && Staged(s') == Staged(s)
    requires forall c :: 0 <= c < cfg.n && c != b ==> s'.blocks[c] == s.blocks[c] && s'.past.arr[c] == s.past.arr[c]
    requires s'.blocks[b].pend == s.blocks[b].pend
    requires var p, p' := Place(cfg, s, b), Place(cfg, s', b);
             p' == p || (p'.i == p.i && Edge(cfg.wired, cfg.prog, p.i))
    ensures DataInv(cfg, s')
  {
    hide BlockInv; hide Bells; hide Errors; hide WindowBase; hide PassEnd;
    if EnvOf(s).open {
      Moved(cfg, s, s', b);
    }
  }

  /** A block's own access, or its going on to the next instruction, is a step of
      its solo run on its own view. */
  lemma WalkIsSolo(cfg: Config, s: State, b: nat)
    requires Shaped(cfg, s) && b < cfg.n && s.past.ws <= |cfg.prog| && s.blocks[b].pc.Walk?
    requires BlockInv(cfg, EnvOf(s), b, s.blocks[b], Ahead(s, b)) && s.blocks[b].pc.i < End(cfg, s.past.ws)
    ensures var s' := WalkStep(cfg, s, b, s.blocks[b].pc.i, s.blocks[b].pc.hist);
            && s'.mem == s.mem && s'.past == s.past.(log := s'.past.log) && EnvOf(s') == EnvOf(s)
                && Staged(s') == Staged(s)
            && (forall c :: 0 <= c < cfg.n && c != b ==> s'.blocks[c] == s.blocks[c])
            && var v, v' := View(s.mem, s.blocks[b].pend), View(s'.mem, s'.blocks[b].pend);
               var o, o' := SoloFrom(cfg.wired, cfg.prog, b, Place(cfg, s, b), v),
                   SoloFrom(cfg.wired, cfg.prog, b, Place(cfg, s', b), v');
               && o'.mem == o.mem && o'.rd <= o.rd && o'.wr <= o.wr
               && s'.blocks[b].pend.Keys <= s.blocks[b].pend.Keys + o.wr
  {
    var i, hist := s.blocks[b].pc.i, s.blocks[b].pc.hist;
    assert !Edge(cfg.wired, cfg.prog, i);
    assert !BoundaryAt(cfg, i) && !BadAt(cfg, i);
    if InRange(cfg.prog[i], b) {
      OpIsSolo(cfg, s, b);
    }
  }

  lemma OpIsSolo(cfg: Config, s: State, b: nat)
    requires Shaped(cfg, s) && b < cfg.n && s.past.ws <= |cfg.prog| && s.blocks[b].pc.Walk?
    requires BlockInv(cfg, EnvOf(s), b, s.blocks[b], Ahead(s, b)) && s.blocks[b].pc.i < End(cfg, s.past.ws)
    requires !Edge(cfg.wired, cfg.prog, s.blocks[b].pc.i) && InRange(cfg.prog[s.blocks[b].pc.i], b)
    ensures var s' := OpStep(cfg, s, b, s.blocks[b].pc.i, s.blocks[b].pc.hist);
            && s'.mem == s.mem && s'.past == s.past.(log := s'.past.log) && EnvOf(s') == EnvOf(s)
                && Staged(s') == Staged(s)
            && s'.blocks == s.blocks[b := s'.blocks[b]]
            && var v, v' := View(s.mem, s.blocks[b].pend), View(s'.mem, s'.blocks[b].pend);
               var o, o' := SoloFrom(cfg.wired, cfg.prog, b, Place(cfg, s, b), v),
                   SoloFrom(cfg.wired, cfg.prog, b, Place(cfg, s', b), v');
               && o'.mem == o.mem && o'.rd <= o.rd && o'.wr <= o.wr
               && s'.blocks[b].pend.Keys <= s.blocks[b].pend.Keys + o.wr
  {
    var i, hist, pend := s.blocks[b].pc.i, s.blocks[b].pc.hist, s.blocks[b].pend;
    var s' := OpStep(cfg, s, b, i, hist);
    assert Place(cfg, s, b) == Pos(i, hist);
    hide End; hide BlockInv; hide NextAct;
    match NextAct(cfg.prog[i], b, hist)
    case Load(c) =>
      assert Place(cfg, s', b) == Pos(i, hist + [Get(View(s.mem, pend), c)]);
    case Store(c, v) =>
      assert Place(cfg, s', b) == Pos(i, hist + [v]);
      assert View(s.mem, pend)[c := v] == View(s.mem, pend[c := v]);
    case Ret =>
      assert Place(cfg, s', b) == Pos(i + 1, []);
  }

  lemma WalkKeepsData(cfg: Config, s: State, s': State, b: nat)
    requires b < cfg.n && Inv(cfg, s) && DataInv(cfg, s) && Inv(cfg, s') && EnvOf(s).open
    requires s'.mem == s.mem && s'.past == s.past.(log := s'.past.log) && EnvOf(s') == EnvOf(s)
             && Staged(s') == Staged(s)
    requires forall c :: 0 <= c < cfg.n && c != b ==> s'.blocks[c] == s.blocks[c]
    requires var v, v' := View(s.mem, s.blocks[b].pend), View(s'.mem, s'.blocks[b].pend);
             var o, o' := SoloFrom(cfg.wired, cfg.prog, b, Place(cfg, s, b), v),
                 SoloFrom(cfg.wired, cfg.prog, b, Place(cfg, s', b), v');
             && o'.mem == o.mem && o'.rd <= o.rd && o'.wr <= o.wr
             && s'.blocks[b].pend.Keys <= s.blocks[b].pend.Keys + o.wr
    ensures DataInv(cfg, s')
  {
    assert OnTrack(cfg.wired, cfg.prog, b, s.past.ws, s.past.base, Place(cfg, s, b), View(s.mem, Pends(cfg, s)[b]));
    assert Pends(cfg, s)[b].Keys <= Solo(cfg.wired, cfg.prog, b, s.past.ws, [], s.past.base).wr;
    Moved(cfg, s, s', b);
  }

  /** The last arrival: the window just closed did what the sequential run does. */
  lemma LastArrivalData(cfg: Config, s: State, s': State, b: nat, i: nat)
    requires Good(cfg) && Inv(cfg, s) && DataInv(cfg, s) && b < cfg.n && Inv(cfg, s')
    requires EnvOf(s).open && i == End(cfg, s.past.ws) && BoundaryAt(cfg, i) && Arrived(cfg, s, s', b, i)
    requires s.blocks[b].pc.Walk? && s.blocks[b].pc.i == i && s.blocks[b].pend == map[] && !Ahead(s, b)
    requires AllAt(s'.past.arr, s.past.lep + 1) && s'.past.lep == s.past.lep + 1
    requires s'.mem == s'.past.base == s.mem
    requires if i == |cfg.prog| then s'.past.pass == s.past.pass + 1 && s'.past.ws == 0
             else s'.past.pass == s.past.pass && s'.past.ws == i + 1
    ensures DataInv(cfg, s')
  {
    forall c | 0 <= c < cfg.n
      ensures Edge(cfg.wired, cfg.prog, Places(cfg, s)[c].i) && Pends(cfg, s)[c] == map[]
      ensures Places(cfg, s')[c] == Pos(s'.past.ws, []) && Pends(cfg, s')[c] == map[]
    {
      assert BlockInv(cfg, EnvOf(s), c, s.blocks[c], Ahead(s, c));
      assert c != b ==> s'.past.arr[c] == s.past.arr[c];
    }
    hide BlockInv; hide Bells; hide Errors; hide Counted; hide WindowBase; hide PassEnd; hide Arrived;
    ClosedWindow(cfg, s, i);
    if i < |cfg.prog| {
      WindowStart(cfg.wired, cfg.prog, cfg.n, i + 1, s.mem, Places(cfg, s'), Pends(cfg, s'));
    }
  }

  /** Everybody is at the end of the window: memory is the sequential one. */
  lemma ClosedWindow(cfg: Config, s: State, i: nat)
    requires Good(cfg) && Inv(cfg, s) && DataInv(cfg, s) && EnvOf(s).open
    requires i == End(cfg, s.past.ws) && BoundaryAt(cfg, i)
    requires AtEdge(cfg.wired, cfg.prog, Places(cfg, s), Pends(cfg, s))
    ensures s.mem == WindowBase(cfg, s.past.pass, i)
    ensures i < |cfg.prog| ==> s.mem == WindowBase(cfg, s.past.pass, i + 1)
    ensures i == |cfg.prog| ==> s.mem == PassEnd(cfg, s.past.pass)
  {
    var P := s.past;
    assert RaceFree(cfg.wired, cfg.prog, cfg.n, P.ws, WindowBase(cfg, P.pass, P.ws));
    WindowIsSequential(cfg.wired, cfg.prog, cfg.n, P.ws, P.base, s.mem, Places(cfg, s), Pends(cfg, s));
    RunSeqSplit(cfg.wired, cfg.prog, cfg.n, 0, P.ws, i, PassStart(cfg, P.pass));
    if i < |cfg.prog| {
      RunSeqSplit(cfg.wired, cfg.prog, cfg.n, 0, i, i + 1, PassStart(cfg, P.pass));
    }
  }

  lemma ArriveKeepsData(cfg: Config, s: State, b: nat)
    requires Good(cfg) && Inv(cfg, s) && DataInv(cfg, s) && b < cfg.n
    requires s.blocks[b].pc.Walk? && BoundaryAt(cfg, s.blocks[b].pc.i) && s.blocks[b].pend == map[]
    requires Inv(cfg, ArriveAt(cfg, s, b, s.blocks[b].pc.i))
    ensures DataInv(cfg, ArriveAt(cfg, s, b, s.blocks[b].pc.i))
  {
    var i := s.blocks[b].pc.i;
    var s' := ArriveAt(cfg, s, b, i);
    ArrivalPlace(cfg, s, b);
    ArrivalFacts(cfg, s, b, i);
    if s'.past.lep != s.past.lep {
      LastArrivalData(cfg, s, s', b, i);
    } else {
      SamePlace(cfg, s, s', b);
    }
  }

  lemma ArrivalFacts(cfg: Config, s: State, b: nat, i: nat)
    requires Shaped(cfg, s) && b < cfg.n && s.blocks[b].pend == map[] && s.blocks[b].pass == s.past.pass
    requires s.past.arr[b] == s.past.lep && i <= |cfg.prog|
    ensures var s' := ArriveAt(cfg, s, b, i);
            && Arrived(cfg, s, s', b, i) && s'.mem == s.mem
            && if s'.past.lep == s.past.lep
               then s'.past == s.past.(arr := s'.past.arr) && EnvOf(s') == EnvOf(s)
                    && PosOf(cfg, s.past.ws, s'.blocks[b].pc, Ahead(s', b)) == Pos(End(cfg, s.past.ws), [])
               else s'.past.lep == s.past.lep + 1 && AllAt(s'.past.arr, s.past.lep + 1) && s'.past.base == s.mem
                    && if i == |cfg.prog| then s'.past.pass == s.past.pass + 1 && s'.past.ws == 0
                       else s'.past.pass == s.past.pass && s'.past.ws == i + 1
  {
  }

  lemma ForwardKeepsData(cfg: Config, s: State, b: nat)
    requires Inv(cfg, s) && DataInv(cfg, s) && b < cfg.n && s.blocks[b].pc.Forward?
    requires Inv(cfg, BlockStep(cfg, s, b))
    ensures DataInv(cfg, BlockStep(cfg, s, b))
  {
    var s' := BlockStep(cfg, s, b);
    assert BlockInv(cfg, EnvOf(s), b, s.blocks[b], Ahead(s, b));
    ClosedIsQuiet(cfg, s);
    if EnvOf(s').open {
      forall c | 0 <= c < cfg.n ensures Places(cfg, s')[c] == Pos(0, []) && Pends(cfg, s')[c] == map[] {
        assert Places(cfg, s)[c] == Pos(0, []) && Pends(cfg, s)[c] == map[];
        assert c != b ==> s'.blocks[c] == s.blocks[c];
      }
      WindowStart(cfg.wired, cfg.prog, cfg.n, 0, s.mem, Places(cfg, s'), Pends(cfg, s'));
    }
  }

  /** Steps other than Walk and Forward leave memory, history, the doorbells and
      the other blocks alone. */
  lemma QuietCells(cfg: Config, s: State, b: nat)
    requires Shaped(cfg, s) && b < cfg.n
    requires var pc := s.blocks[b].pc; !pc.Walk? && !pc.Forward?
    ensures var s' := BlockStep(cfg, s, b);
            && s'.mem == s.mem && s'.past == s.past && s'.bellDev == s.bellDev
            && s'.host == s.host && s'.hostPass == s.hostPass
            && s'.blocks == s.blocks[b := s'.blocks[b]] && s'.blocks[b].pend == s.blocks[b].pend
  {
  }

  lemma QuietPlace(cfg: Config, s: State, b: nat)
    requires Shaped(cfg, s) && b < cfg.n && BlockInv(cfg, EnvOf(s), b, s.blocks[b], Ahead(s, b))
    requires var pc := s.blocks[b].pc; !pc.Walk? && !pc.Forward?
    requires s.blocks[b].pc.Spin? && Ahead(s, b) ==> Behind(s.counter, Target(s.epoch[b], cfg.n))
    ensures var pc, pc' := s.blocks[b].pc, BlockStep(cfg, s, b).blocks[b].pc;
            PosOf(cfg, s.past.ws, pc', Ahead(s, b)) == PosOf(cfg, s.past.ws, pc, Ahead(s, b))
  {
  }

  lemma QuietKeepsData(cfg: Config, s: State, b: nat)
    requires Good(cfg) && Inv(cfg, s) && DataInv(cfg, s) && b < cfg.n && Inv(cfg, BlockStep(cfg, s, b))
    requires var pc := s.blocks[b].pc; !pc.Walk? && !pc.Forward?
    ensures DataInv(cfg, BlockStep(cfg, s, b))
  {
    assert BlockInv(cfg, EnvOf(s), b, s.blocks[b], Ahead(s, b));
    PollExact(cfg.n, s.counter, s.epoch, s.past.arr, s.past.lep, b);
    QuietCells(cfg, s, b);
    QuietPlace(cfg, s, b);
    SamePlace(cfg, s, BlockStep(cfg, s, b), b);
  }

  lemma TickKeepsData(cfg: Config, s: State, b: nat)
    requires Good(cfg) && Inv(cfg, s) && DataInv(cfg, s) && b < cfg.n
    requires Inv(cfg, BlockStep(cfg, s, b))
    ensures DataInv(cfg, BlockStep(cfg, s, b))
  {
    match s.blocks[b].pc
    case Forward(_) => ForwardKeepsData(cfg, s, b);
    case Walk(_, _) => WalkTickKeepsData(cfg, s, b);
    case _ => QuietKeepsData(cfg, s, b);
  }

  lemma WalkTickKeepsData(cfg: Config, s: State, b: nat)
    requires Good(cfg) && Inv(cfg, s) && DataInv(cfg, s) && b < cfg.n && s.blocks[b].pc.Walk?
    requires Inv(cfg, BlockStep(cfg, s, b))
    ensures DataInv(cfg, BlockStep(cfg, s, b))
  {
    assert BlockInv(cfg, EnvOf(s), b, s.blocks[b], Ahead(s, b));
    var i := s.blocks[b].pc.i;
    if i < End(cfg, s.past.ws) {
      WalkIsSolo(cfg, s, b);
      WalkKeepsData(cfg, s, BlockStep(cfg, s, b), b);
    } else if BoundaryAt(cfg, i) {
      if s.blocks[b].pend == map[] { ArriveKeepsData(cfg, s, b); }
    } else {
      BadKeepsData(cfg, s, b);
    }
  }

  lemma BadKeepsData(cfg: Config, s: State, b: nat)
    requires Inv(cfg, s) && DataInv(cfg, s) && b < cfg.n && s.blocks[b].pc.Walk?
    requires s.blocks[b].pc.i == End(cfg, s.past.ws) && !BoundaryAt(cfg, s.blocks[b].pc.i)
    requires Inv(cfg, BlockStep(cfg, s, b))
    ensures DataInv(cfg, BlockStep(cfg, s, b))
  {
    SamePlace(cfg, s, BlockStep(cfg, s, b), b);
  }

  lemma DrainKeepsData(cfg: Config, s: State, b: nat, c: Cell)
    requires Good(cfg) && Inv(cfg, s) && DataInv(cfg, s) && b < cfg.n && c in s.blocks[b].pend
    requires Inv(cfg, Step(cfg, s, Drain(b, c)))
    ensures DataInv(cfg, Step(cfg, s, Drain(b, c)))
  {
    var s', P := Step(cfg, s, Drain(b, c)), s.past;
    if EnvOf(s).open {
      assert RaceFree(cfg.wired, cfg.prog, cfg.n, P.ws, WindowBase(cfg, P.pass, P.ws));
      WindowDrain(cfg.wired, cfg.prog, cfg.n, P.ws, P.base, s.mem, Places(cfg, s), Pends(cfg, s), b, c);
      assert Places(cfg, s') == Places(cfg, s);
      assert Pends(cfg, s') == Pends(cfg, s)[b := s.blocks[b].pend - {c}];
    } else {
      ClosedIsQuiet(cfg, s);
      assert false;
    }
  }

  lemma HostKeepsData(cfg: Config, s: State, a: Action)
    requires Inv(cfg, s) && DataInv(cfg, s) && (a.HostTick? || a.Shutdown?)
    requires Inv(cfg, Step(cfg, s, a))
    ensures DataInv(cfg, Step(cfg, s, a))
  {
    var s' := Step(cfg, s, a);
    if s.host.Staging? && a == HostTick(false) {
      StagingKeepsData(cfg, s, s');
    } else {
      HostLeavesData(cfg, s, a);
      assert Places(cfg, s') == Places(cfg, s) && Pends(cfg, s') == Pends(cfg, s);
    }
  }

  lemma HostLeavesData(cfg: Config, s: State, a: Action)
    requires Shaped(cfg, s) && 1 <= cfg.n && Bells(cfg, s) && s.past.pass >= 1 && (a.HostTick? || a.Shutdown?)
    requires !(s.host.Staging? && a == HostTick(false))
    ensures var s' := Step(cfg, s, a);
            && s'.mem == s.mem && s'.past == s.past && s'.blocks == s.blocks
            && EnvOf(s').open == EnvOf(s).open && Staged(s') == Staged(s)
  {
  }

  /** The host's input cells, written while no block is inside the pass. */
  lemma StagingKeepsData(cfg: Config, s: State, s': State)
    requires Inv(cfg, s) && DataInv(cfg, s) && s.host.Staging? && s' == HostStep(cfg, s, false) && Inv(cfg, s')
    ensures DataInv(cfg, s')
  {
    assert s.bellDev == s.past.pass - 1 && s.hostPass == s.past.pass;
  }

  lemma {:induction false} RunData(cfg: Config, acts: seq<Action>)
    requires Good(cfg)
    ensures Inv(cfg, Run(cfg, acts)) && DataInv(cfg, Run(cfg, acts))
  {
    RunInv(cfg, acts);
    if acts != [] {
      var s, a := Run(cfg, acts[..|acts| - 1]), acts[|acts| - 1];
      RunData(cfg, acts[..|acts| - 1]);
      match a
      case Tick(b) => if b < cfg.n { TickKeepsData(cfg, s, b); }
      case Drain(b, c) => if b < cfg.n && c in s.blocks[b].pend { DrainKeepsData(cfg, s, b, c); }
      case HostTick(_) => HostKeepsData(cfg, s, a);
      case Shutdown => HostKeepsData(cfg, s, a);
    }
  }
}
