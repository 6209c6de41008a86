/** A schedule that breaks the uniformity of the pass-end error sample, built for
    every program with an early raise, and the exact condition that follows. */
module InterpLaggard {
  import opened Arrivals
  import opened Words
  import opened Program
  import opened Interp
  import opened InterpControl
  import opened InterpProgress
  import opened InterpRaise
  import opened InterpResults

  // ---- passes without a raise -----------------------------------------------------

  /** The same program with every raise silenced. */
  function Quiet(cfg: Config): Config {
    cfg.(raises := (p: nat, i: nat, b: nat) => 0)
  }

  ghost predicate QuietProgram(cfg: Config) {
    && 1 <= cfg.n < HALF_WORD && NoBad(cfg)
    && forall p: nat, i: nat, b: nat :: !Raising(cfg, p, i, b)
  }

  lemma QuietIsQuiet(cfg: Config)
    requires 1 <= cfg.n < HALF_WORD && NoBad(cfg)
    ensures QuietProgram(Quiet(cfg)) && Sound(Quiet(cfg))
  {
    var q := Quiet(cfg);
    assert forall j :: 0 <= j < |q.prog| ==> (BadAt(q, j) <==> BadAt(cfg, j));
  }

  /** In a run without raises nobody leaves before the host shuts down, and no
      error cell is set. */
  lemma QuietStays(cfg: Config, s: State)
    requires QuietProgram(cfg) && Inv(cfg, s) && !s.host.Closed?
    ensures s.errHost == 0 && s.errDev == 0
    ensures forall b :: 0 <= b < cfg.n ==> !s.blocks[b].pc.Gone?
  {
    forall b | 0 <= b < cfg.n ensures !s.blocks[b].pc.Gone? {
      assert BlockInv(cfg, EnvOf(s), b, s.blocks[b], Ahead(s, b));
    }
  }

  /** Between passes: the host has RUN_OK for pass k, everybody waits for k + 1. */
  ghost predicate Between(cfg: Config, s: State, k: nat) {
    && Shaped(cfg, s) && s.host == Idle && s.hostPass == k && s.errHost == 0
    && forall b :: 0 <= b < cfg.n ==> s.blocks[b].pc == Door && s.blocks[b].pass == k + 1
  }

  const RING: seq<Action> := [HostTick(false), HostTick(false), HostTick(false)]
  const COLLECT: seq<Action> := [HostTick(false), HostTick(false)]

  /** The state after the host has called run_pass and rung. */
  function Rung(cfg: Config, s: State): State {
    var m := s.mem + cfg.inputs(s.hostPass + 1);
    s.(host := PollErr, hostPass := s.hostPass + 1, bellHost := Wrap(s.hostPass + 1), mem := m,
       past := s.past.(base := m))
  }

  /** State s' is reached by acts. */
  predicate At(cfg: Config, acts: seq<Action>, s': State) {
    Run(cfg, acts) == s'
  }

  lemma Then(cfg: Config, acts: seq<Action>, s: State, a: Action, s': State)
    requires At(cfg, acts, s) && s' == Step(cfg, s, a)
    ensures At(cfg, acts + [a], s')
  {
    RunSnoc(cfg, acts, a);
  }

  lemma RunTwo(cfg: Config, acts: seq<Action>, a: Action, b: Action, s: State, s1: State, s2: State)
    requires At(cfg, acts, s) && s1 == Step(cfg, s, a) && s2 == Step(cfg, s1, b)
    ensures At(cfg, acts + [a, b], s2)
  {
    Then(cfg, acts, s, a, s1);
    Then(cfg, acts + [a], s1, b, s2);
    assert acts + [a, b] == acts + [a] + [b];
  }

  lemma RunThree(cfg: Config, acts: seq<Action>, a: Action, b: Action, c: Action, s: State, s1: State, s2: State,
                 s3: State)
    requires At(cfg, acts, s) && s1 == Step(cfg, s, a) && s2 == Step(cfg, s1, b) && s3 == Step(cfg, s2, c)
    ensures At(cfg, acts + [a, b, c], s3)
  {
    RunTwo(cfg, acts, a, b, s, s1, s2);
    Then(cfg, acts + [a, b], s2, c, s3);
    assert acts + [a, b, c] == acts + [a, b] + [c];
  }

  lemma RingSteps(cfg: Config, s: State)
    requires Shaped(cfg, s) && s.host == Idle && s.errHost == 0 && s.hostPass + 1 < DOORBELL_HALT
    ensures HostStep(cfg, HostStep(cfg, HostStep(cfg, s, false), false), false) == Rung(cfg, s)
  {
  }

  lemma Rings(cfg: Config, acts: seq<Action>)
    requires Run(cfg, acts).host == Idle && Run(cfg, acts).errHost == 0 && Run(cfg, acts).hostPass + 1 < DOORBELL_HALT
    ensures Run(cfg, acts + RING) == Rung(cfg, Run(cfg, acts))
  {
    var s, t := Run(cfg, acts), HostTick(false);
    var s1 := HostStep(cfg, s, false);
    var s2 := HostStep(cfg, s1, false);
    RunThree(cfg, acts, t, t, t, s, s1, s2, HostStep(cfg, s2, false));
    RingSteps(cfg, s);
  }

  /** The host sees the done cell. */
  lemma Collects(cfg: Config, acts: seq<Action>)
    requires Run(cfg, acts).host == PollErr && Run(cfg, acts).errHost == 0
    requires Run(cfg, acts).done == Wrap(Run(cfg, acts).hostPass)
    ensures Run(cfg, acts + COLLECT) == Run(cfg, acts).(host := Idle)
  {
    RunSnoc(cfg, acts, HostTick(false));
    assert acts + COLLECT == acts + [HostTick(false)] + [HostTick(false)];
    RunSnoc(cfg, acts + [HostTick(false)], HostTick(false));
  }

  lemma {:induction false} BlockActionsKeepHost(cfg: Config, acts: seq<Action>, more: seq<Action>)
    requires forall a :: a in more ==> BlockAction(a)
    ensures var s, s' := Run(cfg, acts), Run(cfg, acts + more);
            s'.host == s.host && s'.hostPass == s.hostPass && s'.bellHost == s.bellHost
  {
    hide Run; hide Step;
    if more == [] {
      assert acts + [] == acts;
    } else {
      var init, a := more[..|more| - 1], more[|more| - 1];
      BlockActionsKeepHost(cfg, acts, init);
      assert acts + more == (acts + init) + [a];
      RunSnoc(cfg, acts + init, a);
      HostUntouched(cfg, Run(cfg, acts + init), a);
    }
  }

  lemma HostUntouched(cfg: Config, s: State, a: Action)
    requires Shaped(cfg, s) && BlockAction(a)
    ensures var s' := Step(cfg, s, a); s'.host == s.host && s'.hostPass == s.hostPass && s'.bellHost == s.bellHost
  {
  }

  /** Once the blocks of a quiet program are at rest after pass k + 1 was rung,
      that pass is done. */
  lemma RestIsDone(cfg: Config, s: State, k: nat)
    requires QuietProgram(cfg) && Inv(cfg, s) && AtRest(cfg, s)
    requires s.host == PollErr && s.hostPass == k + 1 && s.bellHost == k + 1 && k + 1 < DOORBELL_HALT
    ensures s.done == k + 1
    ensures forall b :: 0 <= b < cfg.n ==> s.blocks[b].pc == Door && s.blocks[b].pass == k + 2
  {
    QuietStays(cfg, s);
    assert !s.blocks[0].pc.Gone?;
    DoorArithmetic(s.bellHost, s.past.pass);
  }

  lemma RungIs(cfg: Config, s: State)
    requires Shaped(cfg, s) && s.hostPass + 1 < DOORBELL_HALT
    ensures Rung(cfg, s).bellHost == s.hostPass + 1
  {
  }

  /** After the host has rung pass k + 1, the blocks run it to the end. */
  lemma PassToEnd(cfg: Config, acts: seq<Action>, k: nat) returns (more: seq<Action>)
    requires QuietProgram(cfg) && Sound(cfg) && k + 1 < DOORBELL_HALT
    requires var s := Run(cfg, acts); s.host == PollErr && s.hostPass == k + 1 && s.bellHost == k + 1
    ensures var s := Run(cfg, acts + more);
            s.host == PollErr && s.errHost == 0 && s.hostPass == k + 1 && s.done == k + 1
    ensures forall b :: 0 <= b < cfg.n ==>
              Run(cfg, acts + more).blocks[b].pc == Door && Run(cfg, acts + more).blocks[b].pass == k + 2
  {
    more := ComesToRest(cfg, acts);
    BlockActionsKeepHost(cfg, acts, more);
    RunInv(cfg, acts + more);
    EndOfPass(cfg, Run(cfg, acts + more), k);
  }

  lemma EndOfPass(cfg: Config, s: State, k: nat)
    requires QuietProgram(cfg) && Inv(cfg, s) && AtRest(cfg, s)
    requires s.host == PollErr && s.hostPass == k + 1 && s.bellHost == k + 1 && k + 1 < DOORBELL_HALT
    ensures s.done == k + 1 && s.errHost == 0
    ensures forall b :: 0 <= b < cfg.n ==> s.blocks[b].pc == Door && s.blocks[b].pass == k + 2
  {
    QuietStays(cfg, s);
    RestIsDone(cfg, s, k);
  }

  lemma RunPass(cfg: Config, acts: seq<Action>, k: nat) returns (acts': seq<Action>)
    requires QuietProgram(cfg) && Sound(cfg) && k + 1 < DOORBELL_HALT && Between(cfg, Run(cfg, acts), k)
    ensures Between(cfg, Run(cfg, acts'), k + 1)
  {
    Rings(cfg, acts);
    RungIs(cfg, Run(cfg, acts));
    hide Run; hide QuietProgram; hide Sound;
    var more := PassToEnd(cfg, acts + RING, k);
    Collects(cfg, acts + RING + more);
    acts' := acts + RING + more + COLLECT;
  }

  lemma {:induction false} RunPasses(cfg: Config, k: nat) returns (acts: seq<Action>)
    requires QuietProgram(cfg) && Sound(cfg) && k < DOORBELL_HALT
    ensures Between(cfg, Run(cfg, acts), k)
  {
    if k == 0 {
      acts := [];
    } else {
      acts := RunPasses(cfg, k - 1);
      acts := RunPass(cfg, acts, k - 1);
    }
  }

  // ---- one block lags behind ---------------------------------------------------------

  /** Pass k + 1 is over for everybody but block c, which is still to sample. */
  ghost predicate Lagging(cfg: Config, s: State, c: nat, k: nat) {
    && Shaped(cfg, s) && c < cfg.n && s.blocks[c].pc == Sample && s.blocks[c].pass == k + 1
    && forall b :: 0 <= b < cfg.n && b != c ==> s.blocks[b].pc == Door && s.blocks[b].pass == k + 2
  }

  ghost predicate InPass(cfg: Config, s: State, c: nat, k: nat) {
    && Shaped(cfg, s) && 0 < c < cfg.n && s.blocks[c].pass == k + 1
    && s.host == PollErr && s.hostPass == k + 1 && s.bellHost == k + 1 && k + 1 < DOORBELL_HALT
  }

  /** Until then some step other than block c's sample changes the state. */
  lemma OthersMove(cfg: Config, s: State, c: nat, k: nat) returns (a: Action)
    requires QuietProgram(cfg) && Sound(cfg) && Inv(cfg, s) && InPass(cfg, s, c, k) && !Lagging(cfg, s, c, k)
    ensures BlockAction(a) && Step(cfg, s, a) != s
    ensures a == Tick(c) ==> !s.blocks[c].pc.Sample?
  {
    QuietStays(cfg, s);
    if b :| 0 <= b < cfg.n && b != c && !Ahead(s, b) && !s.blocks[b].pc.Door? && !s.blocks[b].pc.Gone? {
      a := BusyMoves(cfg, s, b);
    } else if b :| 0 <= b < cfg.n && b != c && s.blocks[b].pc.Door?
                   && !KeepPolling(if b == 0 then s.bellHost else s.bellDev, s.blocks[b].pass) {
      DoorMoves(cfg, s, b);
      a := Tick(b);
    } else if s.blocks[c].pc.Sample? {
      OnlyLaggardLeft(cfg, s, c, k);
      assert false;
    } else {
      NotStuckNow(cfg, s, c, k);
      a := NotStuck(cfg, s);
    }
  }

  lemma NotStuckNow(cfg: Config, s: State, c: nat, k: nat)
    requires QuietProgram(cfg) && Inv(cfg, s) && InPass(cfg, s, c, k)
    ensures !AtRest(cfg, s)
  {
    if AtRest(cfg, s) {
      RestIsDone(cfg, s, k);
    }
  }

  lemma OnlyLaggardLeft(cfg: Config, s: State, c: nat, k: nat)
    requires QuietProgram(cfg) && Inv(cfg, s) && InPass(cfg, s, c, k) && s.blocks[c].pc.Sample?
    requires forall b :: 0 <= b < cfg.n && b != c ==> Ahead(s, b) || s.blocks[b].pc.Door? || s.blocks[b].pc.Gone?
    ensures Lagging(cfg, s, c, k)
  {
    QuietStays(cfg, s);
    assert BlockInv(cfg, EnvOf(s), c, s.blocks[c], Ahead(s, c));
    forall b | 0 <= b < cfg.n && b != c ensures s.blocks[b].pc == Door && s.blocks[b].pass == k + 2 {
      assert BlockInv(cfg, EnvOf(s), b, s.blocks[b], Ahead(s, b));
    }
  }

  /** That step leaves block c in its pass. */
  lemma StaysInPass(cfg: Config, s: State, c: nat, k: nat, a: Action)
    requires Inv(cfg, s) && InPass(cfg, s, c, k) && BlockAction(a) && (a == Tick(c) ==> !s.blocks[c].pc.Sample?)
    ensures InPass(cfg, Step(cfg, s, a), c, k)
  {
    assert BlockInv(cfg, EnvOf(s), c, s.blocks[c], Ahead(s, c));
    HostUntouched(cfg, s, a);
    if a.Tick? && a.b < cfg.n {
      TickOthers(cfg, s, a.b);
      PassStays(cfg, s, a.b);
    }
  }

  lemma PassStays(cfg: Config, s: State, b: nat)
    requires Shaped(cfg, s) && b < cfg.n
    ensures !s.blocks[b].pc.Sample? && !s.blocks[b].pc.Publish? ==>
            BlockStep(cfg, s, b).blocks[b].pass == s.blocks[b].pass
  {
  }

  lemma LeavesBehind(cfg: Config, acts: seq<Action>, c: nat, k: nat, budget: nat) returns (more: seq<Action>)
    requires QuietProgram(cfg) && Sound(cfg) && InPass(cfg, Run(cfg, acts), c, k)
    requires Bounded(cfg, Run(cfg, acts)) && Work(cfg, Run(cfg, acts)) <= budget
    ensures forall a :: a in more ==> BlockAction(a)
    ensures Lagging(cfg, Run(cfg, acts + more), c, k)
    decreases budget
  {
    if Lagging(cfg, Run(cfg, acts), c, k) {
      more := [];
      assert acts + [] == acts;
    } else {
      var a := NextBehind(cfg, acts, c, k);
      var rest := LeavesBehind(cfg, acts + [a], c, k, budget - 1);
      more := [a] + rest;
      Prepend(acts, a, rest);
    }
  }

  lemma NextBehind(cfg: Config, acts: seq<Action>, c: nat, k: nat) returns (a: Action)
    requires QuietProgram(cfg) && Sound(cfg) && InPass(cfg, Run(cfg, acts), c, k)
    requires Bounded(cfg, Run(cfg, acts)) && !Lagging(cfg, Run(cfg, acts), c, k)
    ensures BlockAction(a) && InPass(cfg, Run(cfg, acts + [a]), c, k) && Bounded(cfg, Run(cfg, acts + [a]))
    ensures Work(cfg, Run(cfg, acts + [a])) < Work(cfg, Run(cfg, acts))
  {
    RunInv(cfg, acts);
    a := OthersMove(cfg, Run(cfg, acts), c, k);
    RunSnoc(cfg, acts, a);
    StaysInPass(cfg, Run(cfg, acts), c, k, a);
    RunInv(cfg, acts + [a]);
    PassBound(cfg, Run(cfg, acts + [a]));
    EffectiveStepLowersWork(cfg, Run(cfg, acts), a);
  }

  // ---- the same run of the raising program --------------------------------------------

  /** Until the host rings the first pass with a raise, raises make no difference. */
  lemma {:induction false} SameRun(cfg: Config, acts: seq<Action>, p: nat)
    requires 1 <= cfg.n < HALF_WORD && NoBad(cfg) && !RaisedBefore(cfg, p) && Run(Quiet(cfg), acts).hostPass < p
    ensures Run(cfg, acts) == Run(Quiet(cfg), acts)
  {
    var q := Quiet(cfg);
    if acts != [] {
      var init, a := acts[..|acts| - 1], acts[|acts| - 1];
      HostPassGrows(q, Run(q, init), a);
      SameRun(cfg, init, p);
      QuietIsQuiet(cfg);
      RunInv(q, init);
      SameStep(cfg, Run(q, init), a, p);
    }
  }

  lemma HostPassGrows(cfg: Config, s: State, a: Action)
    requires Shaped(cfg, s)
    ensures Step(cfg, s, a).hostPass >= s.hostPass
  {
    if BlockAction(a) { HostUntouched(cfg, s, a); }
  }

  lemma SameStep(cfg: Config, s: State, a: Action, p: nat)
    requires Inv(Quiet(cfg), s) && NoBad(cfg) && !RaisedBefore(cfg, p) && s.hostPass < p
    ensures Step(cfg, s, a) == Step(Quiet(cfg), s, a)
  {
    if a.Tick? && a.b < cfg.n {
      var blk := s.blocks[a.b];
      if blk.pc.Walk? {
        assert BlockInv(Quiet(cfg), EnvOf(s), a.b, blk, Ahead(s, a.b));
        assert 1 <= blk.pass < p;
        SameWalk(cfg, s, a.b, p);
      }
    }
  }

  lemma SameWalk(cfg: Config, s: State, b: nat, p: nat)
    requires Shaped(cfg, s) && NoBad(cfg) && !RaisedBefore(cfg, p) && b < cfg.n && s.blocks[b].pc.Walk?
             && 1 <= s.blocks[b].pass < p
    ensures BlockStep(cfg, s, b) == BlockStep(Quiet(cfg), s, b)
  {
    var i, pass := s.blocks[b].pc.i, s.blocks[b].pass;
    assert BadAt(Quiet(cfg), i) == BadAt(cfg, i);
    if i < |cfg.prog| && !BoundaryAt(cfg, i) && !BadAt(cfg, i) && InRange(cfg.prog[i], b) {
      assert !RaisedIn(cfg, pass);
      assert !Raising(cfg, pass, i, b);
    }
  }

  // ---- one block runs alone to its first boundary -----------------------------------------

  /** Block b is on its way to the first boundary of pass p, and has announced its
      raise at i if it is past i. */
  predicate Driving(cfg: Config, s: State, b: nat, i: nat) {
    && Shaped(cfg, s) && b < cfg.n && i < WindowEnd(cfg.wired, cfg.prog, 0)
    && Raising(cfg, s.blocks[b].pass, i, b)
    && match s.blocks[b].pc
       case Walk(j, _) => j <= WindowEnd(cfg.wired, cfg.prog, 0) && (s.errDev != 0 || j <= i)
       case RaiseHost(j, code) => j < WindowEnd(cfg.wired, cfg.prog, 0) && code != 0
       case RaiseDev(j, code) => j < WindowEnd(cfg.wired, cfg.prog, 0) && code != 0
       case _ => false
  }

  predicate Halfway(cfg: Config, s: State, b: nat) {
    && Shaped(cfg, s) && b < cfg.n && s.blocks[b].pc.Spin? && s.errDev != 0
  }

  /** Only block b moved. */
  predicate OnlyB(s: State, s': State, b: nat) {
    && b < |s.blocks| == |s'.blocks| == |s.past.arr| == |s'.past.arr|
    && s'.blocks == s.blocks[b := s'.blocks[b]]
    && s'.past.arr == s.past.arr[b := s'.past.arr[b]]
  }

  lemma TickOnlyB(cfg: Config, s: State, b: nat)
    requires Shaped(cfg, s) && b < cfg.n
    ensures OnlyB(s, BlockStep(cfg, s, b), b)
  {
    TickOthers(cfg, s, b);
    OthersArrivals(cfg, s, b);
  }

  ghost predicate Drove(cfg: Config, s: State, s': State, b: nat, i: nat) {
    && b < |s.past.arr| && b < |s.blocks| == |s'.blocks| && s'.blocks[b].pass == s.blocks[b].pass
    && (|| (Driving(cfg, s', b, i) && s'.past.arr[b] == s.past.arr[b])
        || (Halfway(cfg, s', b) && s'.past.arr[b] == s.past.arr[b] + 1))
  }

  lemma DriveRaise(cfg: Config, s: State, b: nat, i: nat)
    requires Driving(cfg, s, b, i) && !s.blocks[b].pc.Walk?
    ensures Drove(cfg, s, BlockStep(cfg, s, b), b, i)
  {
    WindowClear(cfg, s.blocks[b].pc.i);
  }

  lemma WindowClear(cfg: Config, j: nat)
    requires j < WindowEnd(cfg.wired, cfg.prog, 0)
    ensures !BoundaryAt(cfg, j) && !BadAt(cfg, j) && j < |cfg.prog|
  {
    assert !Edge(cfg.wired, cfg.prog, j);
  }

  lemma DriveOp(cfg: Config, s: State, b: nat, i: nat)
    requires Driving(cfg, s, b, i) && s.blocks[b].pc.Walk? && s.blocks[b].pc.i < WindowEnd(cfg.wired, cfg.prog, 0)
    ensures Drove(cfg, s, BlockStep(cfg, s, b), b, i)
  {
    WindowClear(cfg, s.blocks[b].pc.i);
    TickCells(cfg, s, b);
  }

  lemma TickCells(cfg: Config, s: State, b: nat)
    requires Shaped(cfg, s) && b < cfg.n && s.blocks[b].pc.Walk? && !BoundaryAt(cfg, s.blocks[b].pc.i)
    ensures var s' := BlockStep(cfg, s, b);
            s'.past.arr == s.past.arr && s'.errDev == s.errDev && s'.blocks[b].pass == s.blocks[b].pass
  {
  }

  /** Block b's next step on its way, or its arrival. */
  lemma DriveStep(cfg: Config, s: State, b: nat, i: nat) returns (a: Action)
    requires NoBad(cfg) && Driving(cfg, s, b, i)
    ensures BlockAction(a) && a.b == b && OnlyB(s, Step(cfg, s, a), b) && Drove(cfg, s, Step(cfg, s, a), b, i)
    ensures Step(cfg, s, a) != s
  {
    a := Tick(b);
    var pc, e := s.blocks[b].pc, WindowEnd(cfg.wired, cfg.prog, 0);
    if pc == Walk(e, if pc.Walk? then pc.hist else []) {
      assert BoundaryAt(cfg, e) by { assert Edge(cfg.wired, cfg.prog, e) && !BadAt(cfg, e); }
      if s.blocks[b].pend != map[] {
        var c :| c in s.blocks[b].pend;
        a := Drain(b, c);
        DrainLowers2(cfg, s, b, c);
      } else {
        TickOnlyB(cfg, s, b);
      }
    } else {
      TickOnlyB(cfg, s, b);
      if pc.Walk? {
        WindowClear(cfg, pc.i);
        WalkChanges(cfg, s, b);
        DriveOp(cfg, s, b, i);
      } else {
        DriveRaise(cfg, s, b, i);
      }
    }
  }

  function Distance(cfg: Config, s: State, b: nat): nat
    requires b < |s.blocks|
  {
    |s.blocks[b].pend| + PcCost(cfg.prog, s.blocks[b].pc)
  }

  lemma DriveCloser(cfg: Config, s: State, b: nat, i: nat, a: Action)
    requires Driving(cfg, s, b, i) && BlockAction(a) && a.b == b && Step(cfg, s, a) != s
             && Driving(cfg, Step(cfg, s, a), b, i)
    ensures Distance(cfg, Step(cfg, s, a), b) < Distance(cfg, s, b)
  {
    if a.Tick? {
      TickLowers(cfg, s, b);
    } else {
      var pend := s.blocks[b].pend;
      assert (pend - {a.c}).Keys == pend.Keys - {a.c};
      assert |pend - {a.c}| == |(pend - {a.c}).Keys| < |pend.Keys| == |pend|;
    }
  }

  /** Block b, alone, has arrived and its raise is out. */
  predicate Driven(cfg: Config, s: State, s': State, b: nat) {
    && OnlyB(s, s', b) && Halfway(cfg, s', b)
    && s'.past.arr[b] == s.past.arr[b] + 1 && s'.blocks[b].pass == s.blocks[b].pass
  }

  lemma DrivenAfter(cfg: Config, s: State, s': State, s'': State, b: nat, i: nat)
    requires OnlyB(s, s', b) && Drove(cfg, s, s', b, i) && !Halfway(cfg, s', b) && Driven(cfg, s', s'', b)
    ensures Driven(cfg, s, s'', b)
  {
  }

  lemma Drive(cfg: Config, acts: seq<Action>, b: nat, i: nat, budget: nat) returns (more: seq<Action>)
    requires NoBad(cfg) && Driving(cfg, Run(cfg, acts), b, i) && Distance(cfg, Run(cfg, acts), b) <= budget
    ensures Driven(cfg, Run(cfg, acts), Run(cfg, acts + more), b)
    decreases budget
  {
    hide Run;
    var a := DriveOn(cfg, acts, b, i);
    if Halfway(cfg, Run(cfg, acts + [a]), b) {
      more := [a];
    } else {
      var rest := Drive(cfg, acts + [a], b, i, budget - 1);
      more := [a] + rest;
      DrivenAfter(cfg, Run(cfg, acts), Run(cfg, acts + [a]), Run(cfg, acts + [a] + rest), b, i);
      assert acts + [a] + rest == acts + more;
    }
  }

  lemma DriveOn(cfg: Config, acts: seq<Action>, b: nat, i: nat) returns (a: Action)
    requires NoBad(cfg) && Driving(cfg, Run(cfg, acts), b, i)
    ensures OnlyB(Run(cfg, acts), Run(cfg, acts + [a]), b) && Drove(cfg, Run(cfg, acts), Run(cfg, acts + [a]), b, i)
    ensures Driving(cfg, Run(cfg, acts + [a]), b, i) ==>
            Distance(cfg, Run(cfg, acts + [a]), b) < Distance(cfg, Run(cfg, acts), b)
  {
    var s := Run(cfg, acts);
    a := DriveStep(cfg, s, b, i);
    Then(cfg, acts, s, a, Step(cfg, s, a));
    if Driving(cfg, Step(cfg, s, a), b, i) { DriveCloser(cfg, s, b, i, a); }
  }

  // ---- the schedule that breaks uniformity ----------------------------------------------------

  /** Pass p is rung, everybody but c waits for it, c is still at the sample that ends
      pass p - 1. */
  ghost predicate Split(cfg: Config, s: State, c: nat, p: nat) {
    && Shaped(cfg, s) && 0 < c < cfg.n && s.host == PollErr && s.bellHost == p && p < DOORBELL_HALT
    && s.blocks[c].pc == Sample && s.blocks[c].pass + 1 == p
    && (forall b :: 0 <= b < cfg.n && b != c ==> s.blocks[b].pc == Door && s.blocks[b].pass == p)
    && (forall b :: 0 <= b < cfg.n ==> s.past.arr[b] == s.past.arr[c])
  }

  lemma LaggingIsDone(cfg: Config, s: State, c: nat, k: nat)
    requires QuietProgram(cfg) && Inv(cfg, s) && Lagging(cfg, s, c, k) && c != 0 && s.host == PollErr
             && s.hostPass == k + 1
    ensures s.done == k + 1 && s.errHost == 0
    ensures forall b :: 0 <= b < cfg.n ==> s.past.arr[b] == s.past.arr[c]
  {
    QuietStays(cfg, s);
    assert BlockInv(cfg, EnvOf(s), c, s.blocks[c], Ahead(s, c));
    forall b | 0 <= b < cfg.n ensures s.past.arr[b] == s.past.arr[c] {
      assert BlockInv(cfg, EnvOf(s), b, s.blocks[b], Ahead(s, b));
    }
  }

  /** A run of the quiet program up to the return of pass k + 1, with block c behind. */
  lemma QuietLaggard(cfg: Config, c: nat, k: nat) returns (acts: seq<Action>)
    requires QuietProgram(cfg) && Sound(cfg) && 0 < c < cfg.n && k + 1 < DOORBELL_HALT
    ensures var s := Run(cfg, acts);
            && Lagging(cfg, s, c, k) && s.host == Idle && s.hostPass == k + 1 && s.errHost == 0
            && forall b :: 0 <= b < cfg.n ==> s.past.arr[b] == s.past.arr[c]
  {
    hide Run;
    var before := RunPasses(cfg, k);
    RingBehind(cfg, before, c, k);
    var more := LaggardBehind(cfg, before + RING, c, k);
    Collects(cfg, before + RING + more);
    acts := before + RING + more + COLLECT;
  }

  lemma RingBehind(cfg: Config, acts: seq<Action>, c: nat, k: nat)
    requires Between(cfg, Run(cfg, acts), k) && 0 < c < cfg.n && k + 1 < DOORBELL_HALT
    ensures InPass(cfg, Run(cfg, acts + RING), c, k)
  {
    Rings(cfg, acts);
    RungIs(cfg, Run(cfg, acts));
  }

  lemma LaggardBehind(cfg: Config, acts: seq<Action>, c: nat, k: nat) returns (more: seq<Action>)
    requires QuietProgram(cfg) && Sound(cfg) && InPass(cfg, Run(cfg, acts), c, k)
    ensures var s := Run(cfg, acts + more);
            && Lagging(cfg, s, c, k) && s.host == PollErr && s.hostPass == k + 1 && s.errHost == 0 && s.done == k + 1
            && forall b :: 0 <= b < cfg.n ==> s.past.arr[b] == s.past.arr[c]
  {
    RunInv(cfg, acts);
    PassBound(cfg, Run(cfg, acts));
    more := LeavesBehind(cfg, acts, c, k, Work(cfg, Run(cfg, acts)));
    BlockActionsKeepHost(cfg, acts, more);
    RunInv(cfg, acts + more);
    LaggingIsDone(cfg, Run(cfg, acts + more), c, k);
  }

  /** The same in the program itself, and the next pass is rung. */
  lemma SplitRun(cfg: Config, c: nat, p: nat) returns (acts: seq<Action>)
    requires 1 <= cfg.n < HALF_WORD && NoBad(cfg) && !RaisedBefore(cfg, p) && 0 < c < cfg.n && 2 <= p < DOORBELL_HALT
    ensures Split(cfg, Run(cfg, acts), c, p)
  {
    QuietIsQuiet(cfg);
    var before := QuietLaggard(Quiet(cfg), c, p - 2);
    SameRun(cfg, before, p);
    Rings(cfg, before);
    RungIs(cfg, Run(cfg, before));
    acts := before + RING;
  }

  /** Block b takes the ring (block 0 passes it on first). */
  lemma Enters(cfg: Config, acts: seq<Action>, c: nat, p: nat, b: nat) returns (more: seq<Action>)
    requires Split(cfg, Run(cfg, acts), c, p) && b < cfg.n && b != c && p >= 1
    ensures var s, s' := Run(cfg, acts), Run(cfg, acts + more);
            && s'.blocks[b].pc == Walk(0, []) && s'.blocks[b].pass == p && s'.blocks[c] == s.blocks[c]
                && s'.past.arr == s.past.arr
  {
    var s := Run(cfg, acts);
    var s1 := BlockStep(cfg, s, 0);
    var s2 := BlockStep(cfg, s1, 0);
    ZeroEnters(cfg, s, c, p);
    if b == 0 {
      more := [Tick(0), Tick(0)];
      RunTwo(cfg, acts, Tick(0), Tick(0), s, s1, s2);
    } else {
      more := [Tick(0), Tick(0), Tick(b)];
      LaterEnters(cfg, s2, b, p);
      RunThree(cfg, acts, Tick(0), Tick(0), Tick(b), s, s1, s2, BlockStep(cfg, s2, b));
    }
  }

  lemma LaterEnters(cfg: Config, s: State, b: nat, p: nat)
    requires Shaped(cfg, s) && 1 <= b < cfg.n && 1 <= p < DOORBELL_HALT && s.bellDev == p
    requires s.blocks[b].pc == Door && s.blocks[b].pass == p
    ensures BlockStep(cfg, s, b) == SetPc(s, b, Walk(0, []))
  {
    DoorArithmetic(p, p);
  }

  lemma ZeroEnters(cfg: Config, s: State, c: nat, p: nat)
    requires Split(cfg, s, c, p) && p >= 1
    ensures var s' := BlockStep(cfg, BlockStep(cfg, s, 0), 0);
            s' == s.(blocks := s.blocks[0 := s.blocks[0].(pc := Walk(0, []))], bellDev := p)
  {
    DoorArithmetic(p, p);
  }

  lemma SampleLeaves(cfg: Config, s: State, c: nat)
    requires Shaped(cfg, s) && c < cfg.n && s.blocks[c].pc == Sample && s.errDev != 0
    ensures BlockStep(cfg, s, c) == SetPc(s, c, Gone(Errored(s.blocks[c].pass)))
  {
  }

  /** With an early raise some schedule strands the raiser: the laggard samples the
      error of the next pass and leaves at the end of pass p - 1, while block b
      waits for it at the first boundary of pass p. */
  lemma EarlyRaiseStrands(cfg: Config, p: nat, i: nat, b: nat) returns (acts: seq<Action>, c: nat)
    requires 1 <= cfg.n < HALF_WORD && EarlyRaise(cfg, p, i, b)
    ensures c < cfg.n && Stranded(Run(cfg, acts), b, c)
    ensures Run(cfg, acts).blocks[c].pc == Gone(Errored(p - 1)) && Run(cfg, acts).blocks[b].pass == p
  {
    c := if b == 1 then 2 else 1;
    var enter := BothPlaced(cfg, p, b, c);
    acts := StrandsFrom(cfg, enter, p, i, b, c);
  }

  /** Block b at the start of pass p, block c at the sample of the pass before. */
  predicate Apart(cfg: Config, s: State, p: nat, b: nat, c: nat) {
    && Shaped(cfg, s) && b < cfg.n && c < cfg.n && b != c
    && s.blocks[b].pc == Walk(0, []) && s.blocks[b].pass == p
    && s.blocks[c].pc == Sample && s.blocks[c].pass + 1 == p && s.past.arr[b] == s.past.arr[c]
  }

  lemma BothPlaced(cfg: Config, p: nat, b: nat, c: nat) returns (acts: seq<Action>)
    requires 1 <= cfg.n < HALF_WORD && NoBad(cfg) && !RaisedBefore(cfg, p) && 0 < c < cfg.n && 2 <= p < DOORBELL_HALT
    requires b < cfg.n && b != c
    ensures Apart(cfg, Run(cfg, acts), p, b, c)
  {
    var split := SplitRun(cfg, c, p);
    var enter := Enters(cfg, split, c, p, b);
    acts := split + enter;
  }

  lemma StrandsFrom(cfg: Config, acts: seq<Action>, p: nat, i: nat, b: nat, c: nat) returns (acts': seq<Action>)
    requires NoBad(cfg) && Apart(cfg, Run(cfg, acts), p, b, c)
    requires i < WindowEnd(cfg.wired, cfg.prog, 0) && Raising(cfg, p, i, b)
    ensures Stranded(Run(cfg, acts'), b, c)
    ensures Run(cfg, acts').blocks[c].pc == Gone(Errored(p - 1)) && Run(cfg, acts').blocks[b].pass == p
  {
    AtTheStart(cfg, Run(cfg, acts), b, i);
    var drive := Drive(cfg, acts, b, i, Distance(cfg, Run(cfg, acts), b));
    acts' := Leaves(cfg, acts + drive, b, c, p);
  }

  lemma AtTheStart(cfg: Config, s: State, b: nat, i: nat)
    requires Shaped(cfg, s) && b < cfg.n && i < WindowEnd(cfg.wired, cfg.prog, 0)
             && Raising(cfg, s.blocks[b].pass, i, b)
    requires s.blocks[b].pc == Walk(0, [])
    ensures Driving(cfg, s, b, i)
  {
  }

  lemma Leaves(cfg: Config, acts: seq<Action>, b: nat, c: nat, p: nat) returns (acts': seq<Action>)
    requires c < cfg.n && b != c && Halfway(cfg, Run(cfg, acts), b) && p >= 1
    requires var s := Run(cfg, acts);
             s.blocks[c].pc == Sample && s.blocks[c].pass + 1 == p && s.past.arr[b] > s.past.arr[c]
    ensures Stranded(Run(cfg, acts'), b, c) && Run(cfg, acts').blocks[b] == Run(cfg, acts).blocks[b]
    ensures Run(cfg, acts').blocks[c].pc == Gone(Errored(p - 1))
  {
    SampleLeaves(cfg, Run(cfg, acts), c);
    Then(cfg, acts, Run(cfg, acts), Tick(c), BlockStep(cfg, Run(cfg, acts), c));
    acts' := acts + [Tick(c)];
  }

  /** In every run, whoever has left has left at the same point, and nobody has made
      more arrivals than a block that left. */
  ghost predicate UniformRuns(cfg: Config) {
    forall acts: seq<Action>, b: nat, c: nat :: b < cfg.n && c < cfg.n && Run(cfg, acts).blocks[b].pc.Gone? ==>
      && Run(cfg, acts).past.arr[c] == Run(cfg, acts).past.arr[b]
      && (Run(cfg, acts).blocks[c].pc.Gone? ==> Run(cfg, acts).blocks[c].pc.exit == Run(cfg, acts).blocks[b].pc.exit)
  }

  /** All blocks leave together in every run if and only if the program has no early
      raise. */
  lemma UniformExactly(cfg: Config)
    requires 1 <= cfg.n < HALF_WORD
    ensures UniformRuns(cfg) <==> RaiseDiscipline(cfg)
  {
    if RaiseDiscipline(cfg) {
      forall acts: seq<Action>, b: nat, c: nat | b < cfg.n && c < cfg.n && Run(cfg, acts).blocks[b].pc.Gone?
        ensures Run(cfg, acts).past.arr[c] == Run(cfg, acts).past.arr[b]
        ensures Run(cfg, acts).blocks[c].pc.Gone? ==>
                Run(cfg, acts).blocks[c].pc.exit == Run(cfg, acts).blocks[b].pc.exit
      {
        UniformExit(cfg, acts, b, c);
      }
    } else {
      var p: nat, i: nat, b: nat :| EarlyRaise(cfg, p, i, b);
      var acts, c := EarlyRaiseStrands(cfg, p, i, b);
      assert Run(cfg, acts).past.arr[b] != Run(cfg, acts).past.arr[c];
    }
  }
}
