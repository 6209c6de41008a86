/** What the invariants say about passes, exits, RUN_OK and memory. */
module InterpResults {
  import opened Arrivals
  import opened Words
  import opened Program
  import opened Interp
  import opened InterpControl
  import opened InterpData

  // ---- exactly once ----------------------------------------------------------

  /** Instruction j is an op that block b takes part in. */
  predicate Due(cfg: Config, b: nat, j: nat) {
    j < |cfg.prog| && IsOp(cfg.wired, cfg.prog[j]) && InRange(cfg.prog[j], b)
  }

  /** The (pass, instruction) pairs due to block b in pass p below instruction i,
      after everything due in the passes before. */
  function DueLog(cfg: Config, b: nat, p: nat, i: nat): seq<(nat, nat)>
    decreases p, i
  {
    if p == 0 then []
    else if i == 0 then DueLog(cfg, b, p - 1, |cfg.prog|)
    else DueLog(cfg, b, p, i - 1) + (if Due(cfg, b, i - 1) then [(p, i - 1)] else [])
  }

  /** How far a block has come in its pass. */
  function Mark(cfg: Config, pc: Pc): nat {
    match pc
    case Door => 0
    case Forward(_) => 0
    case Walk(i, _) => i
    case RaiseHost(i, _) => i + 1
    case RaiseDev(i, _) => i + 1
    case Spin(i) => i
    case Sample => |cfg.prog|
    case Publish => |cfg.prog|
    case Gone(exit) =>
      match exit
      case Halted(_) => 0
      case Errored(_) => |cfg.prog|
      case BadKind(_, i) => i
  }

  ghost predicate BlockLog(cfg: Config, b: nat, blk: Block, log: seq<(nat, nat)>) {
    && blk.pass >= 1
    && log == DueLog(cfg, b, blk.pass, Mark(cfg, blk.pc))
    && (blk.pc.Spin? ==> BoundaryAt(cfg, blk.pc.i))
    && (blk.pc.RaiseHost? || blk.pc.RaiseDev? ==> blk.pc.i < |cfg.prog|)
  }

  ghost predicate LogInv(cfg: Config, s: State)
    requires Shaped(cfg, s)
  {
    forall b :: 0 <= b < cfg.n ==> BlockLog(cfg, b, s.blocks[b], s.past.log[b])
  }

  lemma TickKeepsLog(cfg: Config, s: State, b: nat)
    requires Shaped(cfg, s) && LogInv(cfg, s) && b < cfg.n
    ensures LogInv(cfg, BlockStep(cfg, s, b))
  {
    var s' := BlockStep(cfg, s, b);
    assert BlockLog(cfg, b, s.blocks[b], s.past.log[b]);
    if s.blocks[b].pc.Walk? {
      WalkKeepsLog(cfg, s, b);
    } else if !s.blocks[b].pc.Forward? {
      QuietCells(cfg, s, b);
      QuietKeepsLog(cfg, s, b);
    }
    forall c | 0 <= c < cfg.n ensures BlockLog(cfg, c, s'.blocks[c], s'.past.log[c]) {
      assert BlockLog(cfg, c, s.blocks[c], s.past.log[c]);
    }
  }

  lemma QuietKeepsLog(cfg: Config, s: State, b: nat)
    requires Shaped(cfg, s) && b < cfg.n && !s.blocks[b].pc.Walk? && !s.blocks[b].pc.Forward?
    requires BlockLog(cfg, b, s.blocks[b], s.past.log[b])
    ensures BlockLog(cfg, b, BlockStep(cfg, s, b).blocks[b], s.past.log[b])
  {
    var blk, blk' := s.blocks[b], BlockStep(cfg, s, b).blocks[b];
    if blk'.pass == blk.pass {
      var m, m' := Mark(cfg, blk.pc), Mark(cfg, blk'.pc);
      assert m' == m || m' == m + 1 || m' + 1 == m;
      DueNext(cfg, b, blk.pass, m);
      DueNext(cfg, b, blk.pass, m');
    } else {
      assert blk'.pc == Door && Mark(cfg, blk.pc) == |cfg.prog|;
    }
  }

  lemma WalkKeepsLog(cfg: Config, s: State, b: nat)
    requires Shaped(cfg, s) && b < cfg.n && s.blocks[b].pc.Walk? && BlockLog(cfg, b, s.blocks[b], s.past.log[b])
    ensures var s' := BlockStep(cfg, s, b);
            && s'.past.log == s.past.log[b := s'.past.log[b]] && s'.blocks == s.blocks[b := s'.blocks[b]]
            && BlockLog(cfg, b, s'.blocks[b], s'.past.log[b])
  {
    var i, hist, blk := s.blocks[b].pc.i, s.blocks[b].pc.hist, s.blocks[b];
    if i < |cfg.prog| && cfg.prog[i].kind != OP_BOUNDARY {
      var log := s.past.log[b];
      DueNext(cfg, b, blk.pass, i);
      if Due(cfg, b, i) {
        OpKeepsLog(cfg, s, b);
      }
    }
  }

  lemma DueNext(cfg: Config, b: nat, p: nat, i: nat)
    requires p >= 1
    ensures DueLog(cfg, b, p, i + 1) == if Due(cfg, b, i) then DueLog(cfg, b, p, i) + [(p, i)] else DueLog(cfg, b, p, i)
  {
  }

  lemma OpKeepsLog(cfg: Config, s: State, b: nat)
    requires Shaped(cfg, s) && b < cfg.n && s.blocks[b].pc.Walk? && BlockLog(cfg, b, s.blocks[b], s.past.log[b])
    requires Due(cfg, b, s.blocks[b].pc.i)
    ensures var s' := OpStep(cfg, s, b, s.blocks[b].pc.i, s.blocks[b].pc.hist);
            && s'.past.log == s.past.log[b := s'.past.log[b]] && s'.blocks == s.blocks[b := s'.blocks[b]]
            && BlockLog(cfg, b, s'.blocks[b], s'.past.log[b])
  {
    var i, hist, blk := s.blocks[b].pc.i, s.blocks[b].pc.hist, s.blocks[b];
    var s' := OpStep(cfg, s, b, i, hist);
    DueNext(cfg, b, blk.pass, i);
    if NextAct(cfg.prog[i], b, hist).Ret? {
      assert Mark(cfg, s'.blocks[b].pc) == i + 1 && s'.past.log[b] == s.past.log[b] + [(blk.pass, i)];
    } else {
      assert Mark(cfg, s'.blocks[b].pc) == i && s'.past.log == s.past.log;
    }
  }

  lemma {:induction false} RunLog(cfg: Config, acts: seq<Action>)
    ensures LogInv(cfg, Run(cfg, acts))
  {
    if acts == [] {
    } else {
      var s, a := Run(cfg, acts[..|acts| - 1]), acts[|acts| - 1];
      RunLog(cfg, acts[..|acts| - 1]);
      if a.Tick? && a.b < cfg.n {
        TickKeepsLog(cfg, s, a.b);
      } else {
        var s' := Step(cfg, s, a);
        forall c | 0 <= c < cfg.n ensures BlockLog(cfg, c, s'.blocks[c], s'.past.log[c]) {
          assert BlockLog(cfg, c, s.blocks[c], s.past.log[c]);
        }
      }
    }
  }

  /** How many times x occurs. */
  function Count(log: seq<(nat, nat)>, x: (nat, nat)): nat {
    if log == [] then 0 else Count(log[..|log| - 1], x) + (if log[|log| - 1] == x then 1 else 0)
  }

  lemma CountLast(log: seq<(nat, nat)>, y: (nat, nat), x: (nat, nat))
    ensures Count(log + [y], x) == Count(log, x) + (if y == x then 1 else 0)
  {
    assert (log + [y])[..|log|] == log;
  }

  /** Share (q, j) comes before instruction i of pass p. */
  predicate Before(q: nat, j: nat, p: nat, i: nat) {
    1 <= q && (q < p || (q == p && j < i))
  }

  /** Each share that is due up to instruction i of pass p occurs exactly once, and
      nothing else occurs. */
  lemma DueStart(cfg: Config, b: nat, p: nat, x: (nat, nat))
    ensures p == 0 ==> forall i: nat :: Count(DueLog(cfg, b, p, i), x) == 0
    ensures p > 0 ==> DueLog(cfg, b, p, 0) == DueLog(cfg, b, p - 1, |cfg.prog|)
  {
  }

  lemma {:induction false} DueOnce(cfg: Config, b: nat, p: nat, i: nat, q: nat, j: nat)
    requires i <= |cfg.prog|
    ensures Count(DueLog(cfg, b, p, i), (q, j)) == if Before(q, j, p, i) && Due(cfg, b, j) then 1 else 0
    decreases p, i
  {
    hide Count; hide DueLog;
    assert Due(cfg, b, j) ==> j < |cfg.prog|;
    hide Due;
    DueStart(cfg, b, p, (q, j));
    if p == 0 {
    } else if i == 0 {
      DueOnce(cfg, b, p - 1, |cfg.prog|, q, j);
    } else {
      var log := DueLog(cfg, b, p, i - 1);
      DueOnce(cfg, b, p, i - 1, q, j);
      DueNext(cfg, b, p, i - 1);
      if Due(cfg, b, i - 1) {
        CountLast(log, (p, i - 1), (q, j));
      } else {
        assert DueLog(cfg, b, p, i) == log;
      }
    }
  }

  // ---- RUN_OK ----------------------------------------------------------------

  /** host_run_pass has returned RUN_OK for pass p (and the host is between passes). */
  predicate RunOk(s: State, p: nat) {
    s.host == Idle && s.hostPass == p && p >= 1
  }

  /** How often block b has executed its share of instruction j in pass q. */
  function Times(s: State, b: nat, q: nat, j: nat): nat
    requires b < |s.past.log|
  {
    Count(s.past.log[b], (q, j))
  }

  /** After RUN_OK for pass p every block has executed each of its instructions
      exactly once in every pass up to p and nothing of any later pass, no
      instruction raised in any pass up to p, and no instruction is bad. */
  lemma RunOkMeansDone(cfg: Config, acts: seq<Action>, p: nat, b: nat, q: nat, j: nat)
    requires Sound(cfg) && RunOk(Run(cfg, acts), p) && b < cfg.n
    ensures Times(Run(cfg, acts), b, q, j) == if 1 <= q <= p && Due(cfg, b, j) then 1 else 0
    ensures 1 <= q <= p ==> !RaisedIn(cfg, q)
    ensures !BadAt(cfg, j)
  {
    var s := Run(cfg, acts);
    RunInv(cfg, acts);
    RunLog(cfg, acts);
    IdleIsClean(cfg, s);
    IdleLog(cfg, s, b);
    DueOnce(cfg, b, p, |cfg.prog|, q, j);
  }

  /** The same in terms of the instruction fields: in each pass up to p the blocks from
      lo to below hi have executed an instruction that is not a boundary, and every kind
      is a boundary or one of the first 27 with a case in the registry. */
  lemma WhoExecutesWhat(cfg: Config, acts: seq<Action>, p: nat, b: nat, q: nat, j: nat)
    requires Sound(cfg) && RunOk(Run(cfg, acts), p) && b < cfg.n && j < |cfg.prog|
    ensures var ins := cfg.prog[j];
            && Times(Run(cfg, acts), b, q, j) == (if 1 <= q <= p && ins.kind != 1 && ins.lo <= b < ins.hi then 1 else 0)
            && (ins.kind == 1 || (ins.kind < 27 && ins.kind in cfg.wired))
  {
    hide Run; hide Sound; hide Times;
    RunOkMeansDone(cfg, acts, p, b, q, j);
  }

  lemma IdleLog(cfg: Config, s: State, b: nat)
    requires Inv(cfg, s) && LogInv(cfg, s) && s.host == Idle && b < cfg.n
    ensures s.past.log[b] == DueLog(cfg, b, s.hostPass, |cfg.prog|)
  {
    IdleIsClean(cfg, s);
    assert BlockInv(cfg, EnvOf(s), b, s.blocks[b], Ahead(s, b));
    assert BlockLog(cfg, b, s.blocks[b], s.past.log[b]);
  }

  lemma IdleIsClean(cfg: Config, s: State)
    requires Inv(cfg, s) && s.host == Idle
    ensures s.past.pass == s.hostPass + 1 && s.past.ws == 0 && !EnvOf(s).open && !RaisedBefore(cfg, s.past.pass)
  {
    assert BlockInv(cfg, EnvOf(s), 0, s.blocks[0], Ahead(s, 0));
  }

  /** The headline: after RUN_OK for pass p, in any interleaving and with stores
      draining in any order, memory holds exactly what running the instructions of
      passes 1..p one at a time in program order gives. */
  lemma InterleavedIsSequential(cfg: Config, acts: seq<Action>, p: nat)
    requires Good(cfg) && RunOk(Run(cfg, acts), p)
    ensures Run(cfg, acts).mem == PassEnd(cfg, p)
    ensures forall b :: 0 <= b < cfg.n ==> Run(cfg, acts).blocks[b].pend == map[]
  {
    var s := Run(cfg, acts);
    RunData(cfg, acts);
    IdleIsClean(cfg, s);
    ClosedIsQuiet(cfg, s);
    forall b | 0 <= b < cfg.n ensures s.blocks[b].pend == map[] {
      assert Pends(cfg, s)[b] == map[];
    }
  }

  // ---- what a boundary publishes ------------------------------------------------

  /** When the last block arrives at a boundary, every block stands in it with no
      store waiting: all stores issued before are in memory, so every load issued
      after the crossing finds them. */
  lemma BoundaryPublishes(cfg: Config, acts: seq<Action>, a: Action)
    requires Sound(cfg) && Step(cfg, Run(cfg, acts), a).past.lep > Run(cfg, acts).past.lep
    ensures var s, s' := Run(cfg, acts), Step(cfg, Run(cfg, acts), a);
            && s'.mem == s.mem == s'.past.base
            && forall b :: 0 <= b < cfg.n ==> s'.blocks[b].pc.Spin? && s'.blocks[b].pend == map[]
  {
    var s := Run(cfg, acts);
    RunInv(cfg, acts);
    hide Run; hide Inv; hide End;
    OnlyArrivalCloses(cfg, s, a);
    forall b | 0 <= b < cfg.n
      ensures Step(cfg, s, a).blocks[b].pc.Spin? && Step(cfg, s, a).blocks[b].pend == map[]
    {
      InTheBoundary(cfg, s, a.b, b);
    }
  }

  /** The boundary number goes up only with an arrival. */
  lemma OnlyArrivalCloses(cfg: Config, s: State, a: Action)
    requires Shaped(cfg, s) && Step(cfg, s, a).past.lep > s.past.lep
    ensures a.Tick? && a.b < cfg.n && s.blocks[a.b].pc.Walk? && s.blocks[a.b].pend == map[]
    ensures Step(cfg, s, a) == ArriveAt(cfg, s, a.b, s.blocks[a.b].pc.i)
    ensures Step(cfg, s, a).mem == s.mem == Step(cfg, s, a).past.base
  {
    hide NextLep;
  }

  lemma InTheBoundary(cfg: Config, s: State, c: nat, b: nat)
    requires Inv(cfg, s) && b < cfg.n && c < cfg.n && s.blocks[c].pc.Walk? && s.blocks[c].pend == map[]
    requires ArriveAt(cfg, s, c, s.blocks[c].pc.i).past.lep > s.past.lep
    ensures var s' := ArriveAt(cfg, s, c, s.blocks[c].pc.i); s'.blocks[b].pc.Spin? && s'.blocks[b].pend == map[]
  {
    assert BlockInv(cfg, EnvOf(s), b, s.blocks[b], Ahead(s, b));
    assert AllAt(s.past.arr[c := s.past.arr[c] + 1], s.past.lep + 1);
    assert b != c ==> s.past.arr[c := s.past.arr[c] + 1][b] == s.past.arr[b];
  }

  // ---- pass uniformity ---------------------------------------------------------

  /** Any two blocks that have left the kernel left it at the same point, and then
      no boundary is half arrived: every block still running has made as many
      arrivals as those that left. */
  lemma UniformExit(cfg: Config, acts: seq<Action>, b: nat, c: nat)
    requires Sound(cfg) && b < cfg.n && c < cfg.n
    requires Run(cfg, acts).blocks[b].pc.Gone?
    ensures var s := Run(cfg, acts);
            && (s.blocks[c].pc.Gone? ==> s.blocks[c].pc.exit == s.blocks[b].pc.exit)
            && s.past.arr[c] == s.past.arr[b]
            && (s.blocks[c].pc.Spin? ==> !Behind(s.counter, Target(s.epoch[c], cfg.n)))
  {
    var s := Run(cfg, acts);
    RunInv(cfg, acts);
    assert BlockInv(cfg, EnvOf(s), b, s.blocks[b], Ahead(s, b));
    assert BlockInv(cfg, EnvOf(s), c, s.blocks[c], Ahead(s, c));
    assert BlockInv(cfg, EnvOf(s), 0, s.blocks[0], Ahead(s, 0));
    PollExact(cfg.n, s.counter, s.epoch, s.past.arr, s.past.lep, c);
  }

  /** Blocks are never more than one pass apart. */
  lemma PassesClose(cfg: Config, acts: seq<Action>, b: nat, c: nat)
    requires Sound(cfg) && b < cfg.n && c < cfg.n
    ensures Run(cfg, acts).blocks[b].pass <= Run(cfg, acts).blocks[c].pass + 1
    ensures Run(cfg, acts).blocks[b].pass <= DOORBELL_HALT
  {
    var s := Run(cfg, acts);
    RunInv(cfg, acts);
    assert BlockInv(cfg, EnvOf(s), b, s.blocks[b], Ahead(s, b));
    assert BlockInv(cfg, EnvOf(s), c, s.blocks[c], Ahead(s, c));
  }

  /** A block that enters a pass took exactly that pass's number from the doorbell,
      which is the number of the host's last call: no pass is skipped or repeated. */
  lemma EntersWhatWasRung(cfg: Config, acts: seq<Action>, b: nat)
    requires Sound(cfg) && b < cfg.n
    requires var pc := Run(cfg, acts).blocks[b].pc; pc.Door? || pc.Forward?
    requires BlockStep(cfg, Run(cfg, acts), b).blocks[b].pc.Walk?
    ensures var s, s' := Run(cfg, acts), BlockStep(cfg, Run(cfg, acts), b);
            s'.blocks[b].pass == s.blocks[b].pass == s'.bellDev == s.hostPass
  {
    var s := Run(cfg, acts);
    RunInv(cfg, acts);
    assert BlockInv(cfg, EnvOf(s), b, s.blocks[b], Ahead(s, b));
    if s.blocks[b].pc.Door? { DoorValue(cfg, s, b); }
  }

  /** While a block is inside pass p, every block has finished all of pass p - 1. */
  lemma PassesDoNotOverlap(cfg: Config, acts: seq<Action>, b: nat, c: nat, j: nat)
    requires Sound(cfg) && b < cfg.n && c < cfg.n
    requires var blk := Run(cfg, acts).blocks[b]; blk.pc.Walk? && blk.pass >= 2
    ensures Times(Run(cfg, acts), c, Run(cfg, acts).blocks[b].pass - 1, j) == if Due(cfg, c, j) then 1 else 0
  {
    var s := Run(cfg, acts);
    hide Run;
    InsideMeansClose(cfg, acts, b, c);
    LogOf(cfg, acts, c);
    FinishedBefore(cfg, c, s.blocks[b].pass, s.blocks[c], s.past.log[c], j);
  }

  lemma LogOf(cfg: Config, acts: seq<Action>, c: nat)
    requires c < cfg.n
    ensures BlockLog(cfg, c, Run(cfg, acts).blocks[c], Run(cfg, acts).past.log[c])
  {
    RunLog(cfg, acts);
  }

  lemma InsideMeansClose(cfg: Config, acts: seq<Action>, b: nat, c: nat)
    requires Sound(cfg) && b < cfg.n && c < cfg.n && Run(cfg, acts).blocks[b].pc.Walk?
    ensures var p, blk := Run(cfg, acts).blocks[b].pass, Run(cfg, acts).blocks[c];
            (blk.pass == p && Mark(cfg, blk.pc) <= |cfg.prog|) || (blk.pass + 1 == p && Mark(cfg, blk.pc) == |cfg.prog|)
  {
    RunInv(cfg, acts);
    InsideIsOpen(cfg, Run(cfg, acts), b, c);
  }

  lemma InsideIsOpen(cfg: Config, s: State, b: nat, c: nat)
    requires Inv(cfg, s) && b < cfg.n && c < cfg.n && s.blocks[b].pc.Walk?
    ensures var p, blk := s.blocks[b].pass, s.blocks[c];
            (blk.pass == p && Mark(cfg, blk.pc) <= |cfg.prog|) || (blk.pass + 1 == p && Mark(cfg, blk.pc) == |cfg.prog|)
  {
    assert BlockInv(cfg, EnvOf(s), b, s.blocks[b], Ahead(s, b));
    assert BlockInv(cfg, EnvOf(s), c, s.blocks[c], Ahead(s, c));
    MarkInOpenPass(cfg, EnvOf(s), c, s.blocks[c], Ahead(s, c));
  }

  lemma MarkInOpenPass(cfg: Config, e: Env, c: nat, blk: Block, ahead: bool)
    requires BlockInv(cfg, e, c, blk, ahead) && e.open && !e.shut && e.ws <= |cfg.prog|
    requires blk.pc.Gone? && blk.pc.exit.Errored? ==> e.ws == 0
    ensures (blk.pass == e.pass && Mark(cfg, blk.pc) <= |cfg.prog|) || (blk.pass + 1 == e.pass
            && Mark(cfg, blk.pc) == |cfg.prog|)
  {
  }

  lemma FinishedBefore(cfg: Config, c: nat, p: nat, blk: Block, log: seq<(nat, nat)>, j: nat)
    requires BlockLog(cfg, c, blk, log) && p >= 2
    requires (blk.pass == p && Mark(cfg, blk.pc) <= |cfg.prog|) || (blk.pass + 1 == p
             && Mark(cfg, blk.pc) == |cfg.prog|)
    ensures Count(log, (p - 1, j)) == if Due(cfg, c, j) then 1 else 0
  {
    DueOnce(cfg, c, blk.pass, Mark(cfg, blk.pc), p - 1, j);
  }
}
