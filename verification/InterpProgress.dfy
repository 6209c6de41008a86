/** The kernel is never stuck: every block step that changes anything brings the
    blocks closer to rest, some such step exists until they are at rest, and a pass
    that was rung is then finished or its error is reported. */
module InterpProgress {
  import opened Arrivals
  import opened Words
  import opened Program
  import opened Interp
  import opened InterpControl
  import opened InterpData

  // ---- the measure -------------------------------------------------------------

  /** Steps left in instructions i, i+1, ... */
  function Rest(prog: Prog, i: nat): nat
    decreases |prog| - i
  {
    if i >= |prog| then 0 else 8 + 2 * prog[i].bound + Rest(prog, i + 1)
  }

  function Left(prog: Prog, i: nat, hist: seq<Val>): nat {
    if i < |prog| && |hist| < prog[i].bound then prog[i].bound - |hist| else 0
  }

  function PassCost(prog: Prog): nat {
    Rest(prog, 0) + 12
  }

  /** Steps that block may still take before the top of the next pass. */
  function PcCost(prog: Prog, pc: Pc): nat {
    match pc
    case Door => Rest(prog, 0) + 11
    case Forward(_) => Rest(prog, 0) + 10
    case Walk(i, hist) => if i >= |prog| then 4 else Rest(prog, i + 1) + 7 + 2 * Left(prog, i, hist)
    case RaiseHost(i, _) => Rest(prog, i + 1) + 6
    case RaiseDev(i, _) => Rest(prog, i + 1) + 5
    case Spin(i) => if i == |prog| then 3 else Rest(prog, i + 1) + 6
    case Sample => 2
    case Publish => 1
    case Gone(_) => 0
  }

  function Passes(prog: Prog, k: nat): nat {
    if k == 0 then 0 else PassCost(prog) + Passes(prog, k - 1)
  }

  function BlockCost(prog: Prog, limit: nat, blk: Block): nat
    requires blk.pass <= limit
  {
    |blk.pend| + (if blk.pc.Gone? then 0 else Passes(prog, limit - blk.pass) + PcCost(prog, blk.pc))
  }

  function TotalCost(prog: Prog, limit: nat, blocks: seq<Block>): nat
    requires forall b :: 0 <= b < |blocks| ==> blocks[b].pass <= limit
  {
    if blocks == [] then 0
    else TotalCost(prog, limit, blocks[..|blocks| - 1]) + BlockCost(prog, limit, blocks[|blocks| - 1])
  }

  lemma {:induction false} TotalCostUpdate(prog: Prog, limit: nat, blocks: seq<Block>, b: nat, blk: Block)
    requires forall c :: 0 <= c < |blocks| ==> blocks[c].pass <= limit
    requires b < |blocks| && blk.pass <= limit
    ensures TotalCost(prog, limit, blocks[b := blk]) + BlockCost(prog, limit, blocks[b])
         == TotalCost(prog, limit, blocks) + BlockCost(prog, limit, blk)
  {
    var k := |blocks| - 1;
    if b == k {
      assert blocks[b := blk][..k] == blocks[..k];
    } else {
      assert blocks[b := blk][..k] == blocks[..k][b := blk];
      TotalCostUpdate(prog, limit, blocks[..k], b, blk);
    }
  }

  /** Passes never run ahead of the host by more than one. */
  predicate Bounded(cfg: Config, s: State) {
    Shaped(cfg, s) && forall b :: 0 <= b < cfg.n ==> s.blocks[b].pass <= s.hostPass + 1
  }

  /** How much the blocks can still do before the host rings again. */
  function Work(cfg: Config, s: State): nat
    requires Bounded(cfg, s)
  {
    TotalCost(cfg.prog, s.hostPass + 1, s.blocks)
  }

  predicate BlockAction(a: Action) {
    a.Tick? || a.Drain?
  }

  lemma PassBound(cfg: Config, s: State)
    requires Inv(cfg, s)
    ensures Bounded(cfg, s)
  {
    forall b | 0 <= b < cfg.n ensures s.blocks[b].pass <= s.hostPass + 1 {
      assert BlockInv(cfg, EnvOf(s), b, s.blocks[b], Ahead(s, b));
    }
  }

  // ---- every effective step lowers it --------------------------------------------

  /** What a step may do to a block's record: fewer steps left in the same pass, the
      top of the next pass, or out; a store may start to wait. */
  predicate Lower(prog: Prog, blk: Block, blk': Block) {
    || (blk'.pass == blk.pass && !blk.pc.Gone? && |blk'.pend| + PcCost(prog, blk'.pc) < |blk.pend|
        + PcCost(prog, blk.pc))
    || (blk'.pass == blk.pass + 1 && blk'.pc == Door && blk'.pend == blk.pend && PcCost(prog, blk.pc) >= 1)
  }

  lemma LowerCosts(prog: Prog, limit: nat, blk: Block, blk': Block)
    requires Lower(prog, blk, blk') && blk.pass <= limit && blk'.pass <= limit
    ensures BlockCost(prog, limit, blk') < BlockCost(prog, limit, blk)
  {
  }

  lemma TickLowers(cfg: Config, s: State, b: nat)
    requires Shaped(cfg, s) && b < cfg.n && BlockStep(cfg, s, b) != s
    ensures Lower(cfg.prog, s.blocks[b], BlockStep(cfg, s, b).blocks[b])
  {
    match s.blocks[b].pc
    case Walk(_, _) => WalkLowers(cfg, s, b);
    case Spin(i) => StartCost(cfg.prog, i + 1);
    case RaiseDev(i, _) => StartCost(cfg.prog, i + 1);
    case Door => StartCost(cfg.prog, 0);
    case Forward(_) => StartCost(cfg.prog, 0);
    case _ =>
  }

  lemma StartCost(prog: Prog, i: nat)
    ensures PcCost(prog, Walk(i, [])) <= Rest(prog, i) + 4
  {
  }

  lemma WalkLowers(cfg: Config, s: State, b: nat)
    requires Shaped(cfg, s) && b < cfg.n && s.blocks[b].pc.Walk? && BlockStep(cfg, s, b) != s
    ensures Lower(cfg.prog, s.blocks[b], BlockStep(cfg, s, b).blocks[b])
  {
    var i, hist := s.blocks[b].pc.i, s.blocks[b].pc.hist;
    if i < |cfg.prog| {
      NextLowers(cfg.prog, i, hist);
      if !BoundaryAt(cfg, i) && !BadAt(cfg, i) && InRange(cfg.prog[i], b) {
        OpLowers(cfg, s, b);
      }
    }
  }

  lemma OpLowers(cfg: Config, s: State, b: nat)
    requires Shaped(cfg, s) && b < cfg.n && s.blocks[b].pc.Walk? && s.blocks[b].pc.i < |cfg.prog|
    ensures Lower(cfg.prog, s.blocks[b], OpStep(cfg, s, b, s.blocks[b].pc.i, s.blocks[b].pc.hist).blocks[b])
  {
    var i, hist, pend := s.blocks[b].pc.i, s.blocks[b].pc.hist, s.blocks[b].pend;
    match NextAct(cfg.prog[i], b, hist)
    case Load(c) =>
      AccessLowers(cfg.prog, i, hist, Get(View(s.mem, pend), c));
    case Store(c, v) =>
      AccessLowers(cfg.prog, i, hist, v);
      assert |pend[c := v]| <= |pend| + 1;
    case Ret =>
      NextLowers(cfg.prog, i, hist);
  }

  lemma AccessLowers(prog: Prog, i: nat, hist: seq<Val>, v: Val)
    requires i < |prog| && |hist| < prog[i].bound
    ensures PcCost(prog, Walk(i, hist + [v])) == PcCost(prog, Walk(i, hist)) - 2
  {
  }

  lemma NextLowers(prog: Prog, i: nat, hist: seq<Val>)
    requires i < |prog|
    ensures PcCost(prog, Walk(i + 1, [])) < PcCost(prog, Walk(i, hist))
  {
  }

  /** A block step touches no other block and not the host. */
  lemma TickOthers(cfg: Config, s: State, b: nat)
    requires Shaped(cfg, s) && b < cfg.n
    ensures BlockStep(cfg, s, b).hostPass == s.hostPass
    ensures BlockStep(cfg, s, b).blocks == s.blocks[b := BlockStep(cfg, s, b).blocks[b]]
  {
    hide Behind; hide Target; hide NextAct; hide NextLep; hide BadAt; hide BoundaryAt; hide KeepPolling; hide InRange;
  }

  lemma DrainLowers(cfg: Config, s: State, b: nat, c: Cell)
    requires Shaped(cfg, s) && b < cfg.n && c in s.blocks[b].pend && s.blocks[b].pass <= s.hostPass + 1
    ensures var s' := Step(cfg, s, Drain(b, c));
            && s'.blocks == s.blocks[b := s'.blocks[b]] && s'.hostPass == s.hostPass
            && BlockCost(cfg.prog, s.hostPass + 1, s'.blocks[b]) < BlockCost(cfg.prog, s.hostPass + 1, s.blocks[b])
  {
    var pend := s.blocks[b].pend;
    assert (pend - {c}).Keys == pend.Keys - {c};
    assert |pend - {c}| == |(pend - {c}).Keys| < |pend.Keys| == |pend|;
  }

  lemma StepLowersBlock(cfg: Config, s: State, a: Action, s': State)
    requires Shaped(cfg, s) && BlockAction(a) && s' == Step(cfg, s, a) && s' != s && a.b < cfg.n && Shaped(cfg, s')
    requires s.blocks[a.b].pass <= s.hostPass + 1 && s'.blocks[a.b].pass <= s'.hostPass + 1
    ensures s'.hostPass == s.hostPass && s'.blocks == s.blocks[a.b := s'.blocks[a.b]]
    ensures BlockCost(cfg.prog, s.hostPass + 1, s'.blocks[a.b]) < BlockCost(cfg.prog, s.hostPass + 1, s.blocks[a.b])
  {
    if a.Tick? {
      TickOthers(cfg, s, a.b);
      TickLowers(cfg, s, a.b);
      LowerCosts(cfg.prog, s.hostPass + 1, s.blocks[a.b], s'.blocks[a.b]);
    } else {
      DrainLowers(cfg, s, a.b, a.c);
    }
  }

  lemma EffectiveIsABlocks(cfg: Config, s: State, a: Action)
    requires Shaped(cfg, s) && BlockAction(a) && Step(cfg, s, a) != s
    ensures a.b < cfg.n
  {
  }

  lemma EffectiveStepLowersWork(cfg: Config, s: State, a: Action)
    requires BlockAction(a) && Bounded(cfg, s) && Bounded(cfg, Step(cfg, s, a)) && Step(cfg, s, a) != s
    ensures Work(cfg, Step(cfg, s, a)) < Work(cfg, s)
  {
    hide Step;
    EffectiveIsABlocks(cfg, s, a);
    var s' := Step(cfg, s, a);
    StepLowersBlock(cfg, s, a, s');
    TotalCostUpdate(cfg.prog, s.hostPass + 1, s.blocks, a.b, s'.blocks[a.b]);
  }

  // ---- rest ----------------------------------------------------------------------

  /** No block can do anything: all have left, or all wait for the next ring. */
  ghost predicate AtRest(cfg: Config, s: State)
    requires Shaped(cfg, s)
  {
    || (forall b :: 0 <= b < cfg.n ==> s.blocks[b].pc.Gone?)
    || (forall b :: 0 <= b < cfg.n ==>
          s.blocks[b].pc.Door? && s.blocks[b].pass == s.past.pass
          && KeepPolling(if b == 0 then s.bellHost else s.bellDev, s.blocks[b].pass))
  }

  /** A block that is neither at the door, nor out, nor waiting for others moves. */
  lemma BusyMoves(cfg: Config, s: State, b: nat) returns (a: Action)
    requires Sound(cfg) && Inv(cfg, s) && b < cfg.n && !Ahead(s, b)
    requires !s.blocks[b].pc.Door? && !s.blocks[b].pc.Gone?
    ensures BlockAction(a) && a.b == b && Step(cfg, s, a) != s
  {
    assert BlockInv(cfg, EnvOf(s), b, s.blocks[b], Ahead(s, b));
    a := Tick(b);
    if s.blocks[b].pc.Spin? {
      PollExact(cfg.n, s.counter, s.epoch, s.past.arr, s.past.lep, b);
    } else if s.blocks[b].pc.Walk? {
      if BoundaryAt(cfg, s.blocks[b].pc.i) && s.blocks[b].pend != map[] {
        var c :| c in s.blocks[b].pend;
        a := Drain(b, c);
        DrainLowers2(cfg, s, b, c);
      } else {
        WalkChanges(cfg, s, b);
      }
    } else {
      assert BlockStep(cfg, s, b).blocks[b] != s.blocks[b];
    }
  }

  lemma DrainLowers2(cfg: Config, s: State, b: nat, c: Cell)
    requires Shaped(cfg, s) && b < cfg.n && c in s.blocks[b].pend
    ensures Step(cfg, s, Drain(b, c)) != s
  {
    assert c !in Step(cfg, s, Drain(b, c)).blocks[b].pend;
  }

  lemma WalkChanges(cfg: Config, s: State, b: nat)
    requires Shaped(cfg, s) && b < cfg.n && s.blocks[b].pc.Walk? && s.blocks[b].pc.i <= |cfg.prog|
    requires BoundaryAt(cfg, s.blocks[b].pc.i) ==> s.blocks[b].pend == map[]
    ensures BlockStep(cfg, s, b).blocks[b].pc != s.blocks[b].pc
  {
  }

  lemma DoorMoves(cfg: Config, s: State, b: nat)
    requires Shaped(cfg, s) && b < cfg.n && s.blocks[b].pc.Door?
    requires !KeepPolling(if b == 0 then s.bellHost else s.bellDev, s.blocks[b].pass)
    ensures BlockStep(cfg, s, b).blocks[b].pc != Door
  {
  }

  /** Until the blocks are at rest, some block step changes the state. */
  lemma NotStuck(cfg: Config, s: State) returns (a: Action)
    requires Sound(cfg) && Inv(cfg, s) && !AtRest(cfg, s)
    ensures BlockAction(a) && Step(cfg, s, a) != s
  {
    if b :| 0 <= b < cfg.n && !Ahead(s, b) && !s.blocks[b].pc.Door? && !s.blocks[b].pc.Gone? {
      a := BusyMoves(cfg, s, b);
    } else if b :| 0 <= b < cfg.n && s.blocks[b].pc.Door? && !KeepPolling(if b == 0 then s.bellHost
        else s.bellDev, s.blocks[b].pass) {
      DoorMoves(cfg, s, b);
      a := Tick(b);
    } else {
      OnlyRestLeft(cfg, s);
      assert false;
    }
  }

  lemma OnlyRestLeft(cfg: Config, s: State)
    requires Sound(cfg) && Inv(cfg, s)
    requires forall b :: 0 <= b < cfg.n ==> Ahead(s, b) || s.blocks[b].pc.Door? || s.blocks[b].pc.Gone?
    requires forall b :: 0 <= b < cfg.n && s.blocks[b].pc.Door? ==> KeepPolling(if b == 0 then s.bellHost
             else s.bellDev, s.blocks[b].pass)
    ensures AtRest(cfg, s)
  {
    var e := EnvOf(s);
    var z :| 0 <= z < cfg.n && s.past.arr[z] != s.past.lep + 1;
    assert BlockInv(cfg, e, z, s.blocks[z], Ahead(s, z));
    assert BlockInv(cfg, e, 0, s.blocks[0], Ahead(s, 0));
    DoorArithmetic(s.bellDev, s.past.pass);
    forall b | 0 <= b < cfg.n
      ensures !Ahead(s, b)
      ensures s.blocks[b].pc.Door? ==> !e.open && !e.shut
      ensures s.blocks[0].pc.Door? ==> s.blocks[b].pc.Door? && s.blocks[b].pass == s.past.pass
      ensures s.blocks[0].pc.Gone? ==> s.blocks[b].pc.Gone?
    {
      assert BlockInv(cfg, e, b, s.blocks[b], Ahead(s, b));
      if s.blocks[b].pc.Door? { DoorValue(cfg, s, b); }
    }
  }

  /** From every reachable state the blocks come to rest, whatever the schedule
      chose so far; every schedule of block steps gets there within Work steps that
      change anything. */
  lemma ComesToRest(cfg: Config, acts: seq<Action>) returns (more: seq<Action>)
    requires Sound(cfg)
    ensures forall a :: a in more ==> BlockAction(a)
    ensures AtRest(cfg, Run(cfg, acts + more))
  {
    RunInv(cfg, acts);
    PassBound(cfg, Run(cfg, acts));
    more := RestWithin(cfg, acts, Work(cfg, Run(cfg, acts)));
  }

  lemma TowardsRest(cfg: Config, acts: seq<Action>) returns (a: Action)
    requires Sound(cfg) && !AtRest(cfg, Run(cfg, acts)) && Bounded(cfg, Run(cfg, acts))
    ensures BlockAction(a) && Bounded(cfg, Run(cfg, acts + [a]))
    ensures Work(cfg, Run(cfg, acts + [a])) < Work(cfg, Run(cfg, acts))
  {
    RunInv(cfg, acts);
    a := NotStuck(cfg, Run(cfg, acts));
    RunSnoc(cfg, acts, a);
    RunInv(cfg, acts + [a]);
    PassBound(cfg, Run(cfg, acts + [a]));
    EffectiveStepLowersWork(cfg, Run(cfg, acts), a);
  }

  lemma Prepend(acts: seq<Action>, a: Action, rest: seq<Action>)
    requires BlockAction(a) && forall x :: x in rest ==> BlockAction(x)
    ensures acts + [a] + rest == acts + ([a] + rest)
    ensures forall x :: x in [a] + rest ==> BlockAction(x)
  {
  }

  lemma RestWithin(cfg: Config, acts: seq<Action>, budget: nat) returns (more: seq<Action>)
    requires Sound(cfg) && Bounded(cfg, Run(cfg, acts)) && Work(cfg, Run(cfg, acts)) <= budget
    ensures forall a :: a in more ==> BlockAction(a)
    ensures AtRest(cfg, Run(cfg, acts + more)) && |more| <= budget
    decreases budget
  {
    if AtRest(cfg, Run(cfg, acts)) {
      more := [];
      assert acts + [] == acts;
    } else {
      var a := TowardsRest(cfg, acts);
      var rest := RestWithin(cfg, acts + [a], budget - 1);
      more := [a] + rest;
      Prepend(acts, a, rest);
    }
  }

  lemma RunSnoc(cfg: Config, acts: seq<Action>, a: Action)
    ensures Run(cfg, acts + [a]) == Step(cfg, Run(cfg, acts), a)
  {
    assert (acts + [a])[..|acts|] == acts;
  }

  /** When the blocks are at rest while the host polls for pass p, pass p is done,
      or every block has left and the host error cell says so. */
  lemma RestMeansFinished(cfg: Config, acts: seq<Action>)
    requires Sound(cfg) && AtRest(cfg, Run(cfg, acts))
    requires var h := Run(cfg, acts).host; h.PollErr? || h.PollDone?
    ensures var s := Run(cfg, acts);
            || s.done == s.hostPass
            || (s.errHost != 0 && forall b :: 0 <= b < cfg.n ==> s.blocks[b].pc.Gone?)
  {
    var s := Run(cfg, acts);
    RunInv(cfg, acts);
    assert BlockInv(cfg, EnvOf(s), 0, s.blocks[0], Ahead(s, 0));
    DoorArithmetic(s.bellHost, s.past.pass);
    BadKindReported(cfg, acts);
  }

  /** Block 0 leaves over a bad instruction only after setting the error cell. */
  ghost predicate Reported(s: State) {
    |s.blocks| > 0 &&
    (s.blocks[0].pc.RaiseDev? || (s.blocks[0].pc.Gone? && s.blocks[0].pc.exit.BadKind?) ==> s.errHost != 0)
  }

  lemma {:induction false} BadKindReported(cfg: Config, acts: seq<Action>)
    requires Sound(cfg)
    ensures Reported(Run(cfg, acts))
  {
    if acts != [] {
      var s, a := Run(cfg, acts[..|acts| - 1]), acts[|acts| - 1];
      RunInv(cfg, acts[..|acts| - 1]);
      BadKindReported(cfg, acts[..|acts| - 1]);
      if a.Tick? && a.b < cfg.n { ReportedStep(cfg, s, a.b); }
    }
  }

  lemma ReportedStep(cfg: Config, s: State, b: nat)
    requires Inv(cfg, s) && Reported(s) && b < cfg.n
    ensures Reported(BlockStep(cfg, s, b))
  {
    TickOthers(cfg, s, b);
    assert BlockInv(cfg, EnvOf(s), b, s.blocks[b], Ahead(s, b));
    ErrHostStays(cfg, s, b);
  }

  lemma ErrHostStays(cfg: Config, s: State, b: nat)
    requires Shaped(cfg, s) && b < cfg.n
    ensures var s' := BlockStep(cfg, s, b);
            if s.blocks[b].pc.RaiseHost? then s'.errHost == s.blocks[b].pc.code else s'.errHost == s.errHost
    ensures var pc, pc' := s.blocks[b].pc, BlockStep(cfg, s, b).blocks[b].pc;
            && (pc'.RaiseDev? ==> pc.RaiseHost?)
            && (pc'.Gone? && pc'.exit.BadKind? ==> pc == pc' || pc.RaiseDev? || (pc.Walk? && b != 0))
  {
  }
}
