/** Why each part of the exchange is there: dropping membar.sys, publishing the
    round number before the boundary, or dropping the round lockstep admits a run
    of the same machine in which a block folds a wrong element. */
module ExchangeBroken {
  import opened Arith
  import opened Arrivals
  import opened Words
  import opened Exchange
  import opened ExchangeSafety
  import opened ExchangeResults

  /** Some block is about to fold element i with a received value that is not the
      peer's partial of the round. */
  predicate AboutToFoldWrong(cfg: Config, s: State, g: nat, b: nat, i: nat) {
    && Launchable(cfg) && Shaped(cfg, s) && g < 2 && b < cfg.n && i < Size(cfg)
    && s[g].blocks[b].pc.Reduce? && i in s[g].blocks[b].pc.todo
    && s[g].inbox[i] != cfg.partial(s[g].blocks[b].round, 1 - g, i)
  }

  /** The elements that tell: pushed by another block than the one that publishes the
      round number. */
  predicate PushedElsewhere(cfg: Config, i: nat) {
    Launchable(cfg) && i < Size(cfg) && Pusher(cfg, i) != 0
  }

  /** There are such elements as soon as a second block has something to push. */
  lemma SecondBlockPushes(cfg: Config)
    requires Launchable(cfg)
    ensures (exists i: nat :: PushedElsewhere(cfg, i)) <==> cfg.n >= 2 && cfg.quads > cfg.threads
  {
    if cfg.n >= 2 && cfg.quads > cfg.threads {
      var i := 4 * cfg.threads;
      FirstOwner(cfg, cfg.threads);
      assert PushedElsewhere(cfg, i);
    }
    forall i: nat | PushedElsewhere(cfg, i) ensures cfg.n >= 2 && cfg.quads > cfg.threads {
      if i / 4 < cfg.threads { FirstOwner(cfg, i / 4); }
    }
  }

  lemma FirstOwner(cfg: Config, i: nat)
    requires Launchable(cfg) && i <= cfg.threads && (i == cfg.threads ==> cfg.n >= 2)
    ensures Owner(cfg, i) == i / cfg.threads == if i < cfg.threads then 0 else 1
  {
    var all := cfg.n * cfg.threads;
    MulGap(cfg.n, if i < cfg.threads then 0 else 1, cfg.threads);
    SmallMod(i, all);
  }

  lemma SmallMod(i: nat, m: nat)
    requires i < m
    ensures i % m == i
  {
  }

  // ---- moves in sequence -------------------------------------------------------------------

  lemma Do(cfg: Config, acts: seq<Action>, s: State, a: Action) returns (acts': seq<Action>, s': State)
    requires Launchable(cfg) && Run(cfg, acts) == s
    ensures Run(cfg, acts') == s' == Step(cfg, s, a)
  {
    hide Run; hide Step;
    RunSnoc(cfg, acts, a);
    acts' := acts + [a];
    s' := Step(cfg, s, a);
  }

  /** A tick of a block that does not publish. */
  lemma DoTick(cfg: Config, acts: seq<Action>, s: State, g: nat, b: nat, i: nat) returns (acts': seq<Action>, s': State)
    requires Launchable(cfg) && Run(cfg, acts) == s && g < 2 && b < cfg.n && !Publishes(s[g].blocks[b].pc)
    ensures Run(cfg, acts') == s' && s'[g] == LocalStep(cfg, g, s[g], b, i) && s'[1 - g] == s[1 - g]
  {
    hide Run; hide Step; hide LocalStep;
    acts', s' := Do(cfg, acts, s, Tick(g, b, i));
    StepCells(cfg, s, Tick(g, b, i));
  }

  lemma DoPublish(cfg: Config, acts: seq<Action>, s: State, g: nat, b: nat) returns (acts': seq<Action>, s': State)
    requires Launchable(cfg) && Run(cfg, acts) == s && g < 2 && b < cfg.n && Publishes(s[g].blocks[b].pc)
    requires s[g].blocks[b].pend == map[]
    ensures Run(cfg, acts') == s' && s'[g] == Published(s[g], b) && s'[1 - g] == Receives(s[1 - g], s[g].blocks[b])
  {
    hide Run; hide Step; hide LocalStep;
    acts', s' := Do(cfg, acts, s, Tick(g, b, 0));
    StepCells(cfg, s, Tick(g, b, 0));
  }

  predicate HasTodo(pc: Pc) {
    pc.Compute? || pc.Push? || pc.Reduce?
  }

  function Cleared(pc: Pc): Pc {
    match pc
    case Compute(_) => Compute({})
    case Push(_) => Push({})
    case Reduce(_) => Reduce({})
    case _ => pc
  }

  /** Block b has worked off its list and done nothing else. */
  ghost predicate WorkedOff(cfg: Config, g: nat, G: Gpu, G': Gpu, b: nat) {
    && ShapedGpu(cfg, G) && ShapedGpu(cfg, G') && b < cfg.n && HasTodo(G.blocks[b].pc)
    && G' == G.(blocks := G.blocks[b := G'.blocks[b]], partial := G'.partial, out := G'.out)
    && G'.blocks[b].round == G.blocks[b].round && G'.blocks[b].pc == Cleared(G.blocks[b].pc)
    && G'.blocks[b].pend.Keys <= G.blocks[b].pend.Keys + (if G.blocks[b].pc.Push? then G.blocks[b].pc.todo else {})
    && (G.blocks[b].pc.Compute? ==>
          forall i :: 0 <= i < Size(cfg) ==>
            G'.partial[i] == if i in G.blocks[b].pc.todo then cfg.partial(G.blocks[b].round, g, i) else G.partial[i])
    && (!G.blocks[b].pc.Compute? ==> G'.partial == G.partial)
    && (!G.blocks[b].pc.Push? ==> G'.blocks[b].pend == G.blocks[b].pend)
  }

  lemma OneOff(cfg: Config, g: nat, G: Gpu, G': Gpu, G'': Gpu, b: nat, i: nat)
    requires Launchable(cfg) && ShapedGpu(cfg, G) && b < cfg.n && HasTodo(G.blocks[b].pc) && i in G.blocks[b].pc.todo
             && i < Size(cfg)
    requires G' == LocalStep(cfg, g, G, b, i) && WorkedOff(cfg, g, G', G'', b)
    ensures WorkedOff(cfg, g, G, G'', b)
  {
  }

  lemma {:induction false} WorkOff(cfg: Config, acts: seq<Action>, s: State, g: nat, b: nat)
      returns (acts': seq<Action>, s': State)
    requires Launchable(cfg) && Run(cfg, acts) == s && g < 2 && b < cfg.n && HasTodo(s[g].blocks[b].pc)
    requires forall i :: i in s[g].blocks[b].pc.todo ==> i < Size(cfg)
    ensures Run(cfg, acts') == s' && WorkedOff(cfg, g, s[g], s'[g], b) && s'[1 - g] == s[1 - g]
    decreases s[g].blocks[b].pc.todo
  {
    hide Run;
    if s[g].blocks[b].pc.todo == {} {
      acts', s' := acts, s;
    } else {
      var i :| i in s[g].blocks[b].pc.todo;
      var acts1, s1 := DoTick(cfg, acts, s, g, b, i);
      TodoShrinks(cfg, g, s[g], b, i);
      hide LocalStep; hide WorkedOff;
      acts', s' := WorkOff(cfg, acts1, s1, g, b);
      OneOff(cfg, g, s[g], s1[g], s'[g], b, i);
    }
  }

  lemma TodoShrinks(cfg: Config, g: nat, G: Gpu, b: nat, i: nat)
    requires Launchable(cfg) && ShapedGpu(cfg, G) && b < cfg.n && HasTodo(G.blocks[b].pc) && i in G.blocks[b].pc.todo
             && i < Size(cfg)
    ensures var pc' := LocalStep(cfg, g, G, b, i).blocks[b].pc; HasTodo(pc') && pc'.todo == G.blocks[b].pc.todo - {i}
  {
  }

  /** All of block b's waiting stores land; the rest of the peer's inbox is as it was. */
  ghost predicate AllLanded(G: Gpu, G': Gpu, H: Gpu, H': Gpu, b: nat) {
    && b < |G.blocks| && G' == SetBlk(G, b, G.blocks[b].(pend := map[]))
    && |H'.inbox| == |H.inbox| && H' == H.(inbox := H'.inbox)
    && forall i :: 0 <= i < |H.inbox| && i !in G.blocks[b].pend ==> H'.inbox[i] == H.inbox[i]
  }

  lemma {:induction false} LandAll(cfg: Config, acts: seq<Action>, s: State, g: nat, b: nat)
      returns (acts': seq<Action>, s': State)
    requires Launchable(cfg) && Run(cfg, acts) == s && g < 2 && b < cfg.n
    requires forall i :: i in s[g].blocks[b].pend ==> i < Size(cfg)
    ensures Run(cfg, acts') == s' && AllLanded(s[g], s'[g], s[1 - g], s'[1 - g], b)
    decreases s[g].blocks[b].pend.Keys
  {
    hide Run; hide Step;
    var pend := s[g].blocks[b].pend;
    if pend == map[] {
      acts', s' := acts, s;
      assert s[g] == SetBlk(s[g], b, s[g].blocks[b].(pend := map[]));
    } else {
      var i :| i in pend;
      var acts1, s1 := Do(cfg, acts, s, Land(g, b, i));
      StepCells(cfg, s, Land(g, b, i));
      assert (pend - {i}).Keys == pend.Keys - {i};
      acts', s' := LandAll(cfg, acts1, s1, g, b);
    }
  }

  // ---- one block's stretch between two boundaries ------------------------------------------

  /** Computing; pushing with no fence built in; pushing with the stores forced out;
      taking the number and folding. */
  datatype Stretch = Computing | Pushing | Delivering | Folding

  predicate Ready(cfg: Config, st: Stretch, b: nat, G: Gpu)
    requires Launchable(cfg) && ShapedGpu(cfg, G) && b < cfg.n
  {
    var blk := G.blocks[b];
    match st
    case Computing => blk.pc == Compute(Share(cfg, b))
    case Pushing => !cfg.membar && !cfg.early && blk.pc == Push(PushShare(cfg, b)) && blk.pend == map[]
    case Delivering => blk.pc == Push(PushShare(cfg, b)) && blk.pend == map[]
    case Folding => blk.pc == PollSeq && !Behind(G.seqno, Wrap(blk.round))
  }

  /** Where it ends, */
  ghost predicate Did(cfg: Config, st: Stretch, b: nat, blk: Blk, blk': Blk)
    requires Launchable(cfg)
  {
    && blk'.round == blk.round
    && match st
       case Computing => blk'.pc == Arrive(0) && blk'.pend == blk.pend
       case Pushing => blk'.pc == Arrive(1) && blk'.pend.Keys <= PushShare(cfg, b)
       case Delivering => blk'.pc == (if cfg.early && b == 0 then EarlyPublish else Arrive(1)) && blk'.pend == map[]
       case Folding => blk'.pc == Arrive(2) && blk'.pend == blk.pend
  }

  /** and what else the blocks from lo to below hi changed: own partials, results, and
      the peer's inbox where they push. */
  ghost predicate Touched(cfg: Config, g: nat, st: Stretch, lo: nat, hi: nat, G: Gpu, G': Gpu, H: Gpu, H': Gpu)
    requires Launchable(cfg) && ShapedGpu(cfg, G) && ShapedGpu(cfg, H)
  {
    && ShapedGpu(cfg, G') && ShapedGpu(cfg, H')
    && G' == G.(blocks := G'.blocks, partial := G'.partial, out := G'.out)
    && H' == H.(inbox := H'.inbox) && (!st.Delivering? ==> H' == H)
    && (forall i: nat :: i < Size(cfg) && !(lo <= Pusher(cfg, i) < hi) ==> H'.inbox[i] == H.inbox[i])
    && (forall i: nat :: i < Size(cfg) ==>
          G'.partial[i] == if st.Computing? && lo <= Owner(cfg, i) < hi
                           then cfg.partial(G.blocks[Owner(cfg, i)].round, g, i) else G.partial[i])
  }

  ghost predicate BlockDid(cfg: Config, g: nat, st: Stretch, b: nat, G: Gpu, G': Gpu, H: Gpu, H': Gpu)
    requires Launchable(cfg) && ShapedGpu(cfg, G) && ShapedGpu(cfg, H) && b < cfg.n
  {
    && Touched(cfg, g, st, b, b + 1, G, G', H, H')
    && G'.blocks == G.blocks[b := G'.blocks[b]] && Did(cfg, st, b, G.blocks[b], G'.blocks[b])
  }

  lemma ComputeDid(cfg: Config, g: nat, b: nat, G: Gpu, G1: Gpu, H: Gpu)
    requires Launchable(cfg) && ShapedGpu(cfg, G) && ShapedGpu(cfg, H) && b < cfg.n && Ready(cfg, Computing, b, G)
    requires WorkedOff(cfg, g, G, G1, b)
    ensures BlockDid(cfg, g, Computing, b, G, LocalStep(cfg, g, G1, b, 0), H, H)
  {
  }

  lemma PushDid(cfg: Config, g: nat, b: nat, G: Gpu, G1: Gpu, H: Gpu)
    requires Launchable(cfg) && ShapedGpu(cfg, G) && ShapedGpu(cfg, H) && b < cfg.n && Ready(cfg, Pushing, b, G)
    requires WorkedOff(cfg, g, G, G1, b)
    ensures var G2 := LocalStep(cfg, g, G1, b, 0);
            G2.blocks[b].pc == Fence && BlockDid(cfg, g, Pushing, b, G, LocalStep(cfg, g, G2, b, 0), H, H)
  {
  }

  lemma DeliverDid(cfg: Config, g: nat, b: nat, G: Gpu, G1: Gpu, G3: Gpu, H: Gpu, H': Gpu)
    requires Launchable(cfg) && ShapedGpu(cfg, G) && ShapedGpu(cfg, H) && b < cfg.n && Ready(cfg, Delivering, b, G)
    requires WorkedOff(cfg, g, G, G1, b) && AllLanded(LocalStep(cfg, g, G1, b, 0), G3, H, H', b)
    ensures BlockDid(cfg, g, Delivering, b, G, LocalStep(cfg, g, G3, b, 0), H, H')
  {
  }

  lemma FoldDid(cfg: Config, g: nat, b: nat, G: Gpu, G2: Gpu, H: Gpu)
    requires Launchable(cfg) && ShapedGpu(cfg, G) && ShapedGpu(cfg, H) && b < cfg.n && Ready(cfg, Folding, b, G)
    requires WorkedOff(cfg, g, LocalStep(cfg, g, G, b, 0), G2, b)
    ensures BlockDid(cfg, g, Folding, b, G, LocalStep(cfg, g, G2, b, 0), H, H)
  {
  }

  lemma Computes(cfg: Config, acts: seq<Action>, s: State, g: nat, b: nat) returns (acts': seq<Action>, s': State)
    requires Launchable(cfg) && Run(cfg, acts) == s && g < 2 && b < cfg.n && Ready(cfg, Computing, b, s[g])
    ensures Run(cfg, acts') == s' && BlockDid(cfg, g, Computing, b, s[g], s'[g], s[1 - g], s'[1 - g])
  {
    hide Run; hide BlockDid;
    var a1, s1 := WorkOff(cfg, acts, s, g, b);
    ComputeDid(cfg, g, b, s[g], s1[g], s[1 - g]);
    acts', s' := DoTick(cfg, a1, s1, g, b, 0);
  }

  lemma Pushes(cfg: Config, acts: seq<Action>, s: State, g: nat, b: nat) returns (acts': seq<Action>, s': State)
    requires Launchable(cfg) && Run(cfg, acts) == s && g < 2 && b < cfg.n && Ready(cfg, Pushing, b, s[g])
    ensures Run(cfg, acts') == s' && BlockDid(cfg, g, Pushing, b, s[g], s'[g], s[1 - g], s'[1 - g])
  {
    hide Run; hide BlockDid;
    var a1, s1 := WorkOff(cfg, acts, s, g, b);
    PushDid(cfg, g, b, s[g], s1[g], s[1 - g]);
    var a2, s2 := DoTick(cfg, a1, s1, g, b, 0);
    acts', s' := DoTick(cfg, a2, s2, g, b, 0);
  }

  lemma Delivers(cfg: Config, acts: seq<Action>, s: State, g: nat, b: nat) returns (acts': seq<Action>, s': State)
    requires Launchable(cfg) && Run(cfg, acts) == s && g < 2 && b < cfg.n && Ready(cfg, Delivering, b, s[g])
    ensures Run(cfg, acts') == s' && BlockDid(cfg, g, Delivering, b, s[g], s'[g], s[1 - g], s'[1 - g])
  {
    hide Run; hide BlockDid;
    var a1, s1 := WorkOff(cfg, acts, s, g, b);
    var a2, s2 := DoTick(cfg, a1, s1, g, b, 0);
    var a3, s3 := LandAll(cfg, a2, s2, g, b);
    DeliverDid(cfg, g, b, s[g], s1[g], s3[g], s[1 - g], s3[1 - g]);
    acts', s' := DoTick(cfg, a3, s3, g, b, 0);
  }

  lemma Folds(cfg: Config, acts: seq<Action>, s: State, g: nat, b: nat) returns (acts': seq<Action>, s': State)
    requires Launchable(cfg) && Run(cfg, acts) == s && g < 2 && b < cfg.n && Ready(cfg, Folding, b, s[g])
    ensures Run(cfg, acts') == s' && BlockDid(cfg, g, Folding, b, s[g], s'[g], s[1 - g], s'[1 - g])
  {
    hide Run; hide BlockDid;
    var a1, s1 := DoTick(cfg, acts, s, g, b, 0);
    var a2, s2 := WorkOff(cfg, a1, s1, g, b);
    FoldDid(cfg, g, b, s[g], s2[g], s[1 - g]);
    acts', s' := DoTick(cfg, a2, s2, g, b, 0);
  }

  lemma OneBlock(cfg: Config, acts: seq<Action>, s: State, g: nat, st: Stretch, b: nat)
      returns (acts': seq<Action>, s': State)
    requires Launchable(cfg) && Run(cfg, acts) == s && g < 2 && b < cfg.n && Ready(cfg, st, b, s[g])
    ensures Run(cfg, acts') == s' && BlockDid(cfg, g, st, b, s[g], s'[g], s[1 - g], s'[1 - g])
  {
    hide *;
    match st
    case Computing => acts', s' := Computes(cfg, acts, s, g, b);
    case Pushing => acts', s' := Pushes(cfg, acts, s, g, b);
    case Delivering => acts', s' := Delivers(cfg, acts, s, g, b);
    case Folding => acts', s' := Folds(cfg, acts, s, g, b);
  }

  // ---- all blocks, one after the other -----------------------------------------------------

  /** The first m blocks have done their stretch. */
  ghost predicate BlocksDid(cfg: Config, g: nat, st: Stretch, m: nat, G: Gpu, G': Gpu, H: Gpu, H': Gpu)
    requires Launchable(cfg) && ShapedGpu(cfg, G) && ShapedGpu(cfg, H) && m <= cfg.n
  {
    && Touched(cfg, g, st, 0, m, G, G', H, H')
    && (forall b: nat :: b < m ==> Did(cfg, st, b, G.blocks[b], G'.blocks[b]))
    && (forall b: nat :: m <= b < cfg.n ==> G'.blocks[b] == G.blocks[b])
  }

  lemma OneMoreDid(cfg: Config, g: nat, st: Stretch, m: nat, G: Gpu, G': Gpu, G'': Gpu, H: Gpu, H': Gpu, H'': Gpu)
    requires Launchable(cfg) && ShapedGpu(cfg, G) && ShapedGpu(cfg, H) && m < cfg.n
    requires BlocksDid(cfg, g, st, m, G, G', H, H') && BlockDid(cfg, g, st, m, G', G'', H', H'')
    ensures BlocksDid(cfg, g, st, m + 1, G, G'', H, H'')
  {
    hide Owner; hide Did;
  }

  lemma {:induction false} AllBlocks(cfg: Config, acts: seq<Action>, s: State, g: nat, st: Stretch, m: nat)
      returns (acts': seq<Action>, s': State)
    requires Launchable(cfg) && Run(cfg, acts) == s && g < 2 && m <= cfg.n
    requires forall b: nat :: b < m ==> Ready(cfg, st, b, s[g])
    ensures Run(cfg, acts') == s' && BlocksDid(cfg, g, st, m, s[g], s'[g], s[1 - g], s'[1 - g])
  {
    hide Run;
    if m == 0 {
      acts', s' := acts, s;
    } else {
      var a1, s1 := AllBlocks(cfg, acts, s, g, st, m - 1);
      StillReady(cfg, g, st, m - 1, s[g], s1[g], s[1 - g], s1[1 - g]);
      hide BlocksDid; hide BlockDid; hide Ready;
      acts', s' := OneBlock(cfg, a1, s1, g, st, m - 1);
      OneMoreDid(cfg, g, st, m - 1, s[g], s1[g], s'[g], s[1 - g], s1[1 - g], s'[1 - g]);
    }
  }

  lemma StillReady(cfg: Config, g: nat, st: Stretch, m: nat, G: Gpu, G': Gpu, H: Gpu, H': Gpu)
    requires Launchable(cfg) && ShapedGpu(cfg, G) && ShapedGpu(cfg, H) && m < cfg.n && Ready(cfg, st, m, G)
    requires BlocksDid(cfg, g, st, m, G, G', H, H')
    ensures ShapedGpu(cfg, G') && Ready(cfg, st, m, G')
  {
  }

  // ---- all blocks cross a boundary ------------------------------------------------------------

  /** Every block has made a arrivals and all have left. */
  ghost predicate Level(cfg: Config, G: Gpu, a: nat) {
    ShapedGpu(cfg, G) && Counted(cfg.n, G.counter, G.epoch, G.arr, G.lep) && AllAt(G.arr, a) && G.lep == a
  }

  predicate AllAtPc(cfg: Config, G: Gpu, pc: Pc)
    requires ShapedGpu(cfg, G)
  {
    forall b: nat :: b < cfg.n ==> G.blocks[b].pc == pc
  }

  /** The first m blocks have arrived at boundary k. */
  ghost predicate Arriving(cfg: Config, G: Gpu, G': Gpu, a: nat, k: nat, m: nat)
    requires ShapedGpu(cfg, G) && m <= cfg.n
  {
    && ShapedGpu(cfg, G') && G' == G.(counter := G'.counter, epoch := G'.epoch, arr := G'.arr, lep := G'.lep,
                                      blocks := G'.blocks)
    && Counted(cfg.n, G'.counter, G'.epoch, G'.arr, G'.lep) && G'.lep == (if m < cfg.n then a else a + 1)
    && forall b: nat :: b < cfg.n ==>
         && G'.arr[b] == (if b < m then a + 1 else a)
         && G'.blocks[b] == if b < m then G.blocks[b].(pc := Spin(k)) else G.blocks[b]
  }

  lemma OneArrives(cfg: Config, g: nat, G: Gpu, G': Gpu, a: nat, k: nat, m: nat)
    requires Launchable(cfg) && ShapedGpu(cfg, G) && m < cfg.n && G.blocks[m].pc == Arrive(k)
    requires Arriving(cfg, G, G', a, k, m)
    ensures G'.blocks[m].pc == Arrive(k) && Arriving(cfg, G, LocalStep(cfg, g, G', m, 0), a, k, m + 1)
  {
    hide Counted;
    ArriveCounted(cfg.n, G'.counter, G'.epoch, G'.arr, G'.lep, m);
    var arr' := G'.arr[m := a + 1];
    if m + 1 < cfg.n { assert arr'[m + 1] == a; } else { assert AllAt(arr', a + 1); }
  }

  lemma {:induction false} AllArrive(cfg: Config, acts: seq<Action>, s: State, g: nat, a: nat, k: nat, m: nat)
      returns (acts': seq<Action>, s': State)
    requires Launchable(cfg) && Run(cfg, acts) == s && g < 2 && m <= cfg.n
    requires Level(cfg, s[g], a) && AllAtPc(cfg, s[g], Arrive(k))
    ensures Run(cfg, acts') == s' && s'[1 - g] == s[1 - g] && Arriving(cfg, s[g], s'[g], a, k, m)
  {
    hide Run; hide LocalStep;
    if m == 0 {
      acts', s' := acts, s;
    } else {
      var a1, s1 := AllArrive(cfg, acts, s, g, a, k, m - 1);
      OneArrives(cfg, g, s[g], s1[g], a, k, m - 1);
      acts', s' := DoTick(cfg, a1, s1, g, m - 1, 0);
    }
  }

  /** All have arrived, and the first m have left. */
  ghost predicate Leaving(cfg: Config, G: Gpu, G': Gpu, a: nat, k: nat, m: nat)
    requires Launchable(cfg) && ShapedGpu(cfg, G) && m <= cfg.n
  {
    && Level(cfg, G', a + 1) && G' == G.(counter := G'.counter, epoch := G'.epoch, arr := G'.arr, lep := G'.lep,
                                         blocks := G'.blocks)
    && forall b: nat :: b < cfg.n ==>
         G'.blocks[b] == if b < m then After(cfg, b, G.blocks[b], k) else G.blocks[b].(pc := Spin(k))
  }

  lemma OneLeaves(cfg: Config, g: nat, G: Gpu, G': Gpu, a: nat, k: nat, m: nat)
    requires Launchable(cfg) && ShapedGpu(cfg, G) && m < cfg.n && Leaving(cfg, G, G', a, k, m)
    ensures G'.blocks[m].pc == Spin(k) && Leaving(cfg, G, LocalStep(cfg, g, G', m, 0), a, k, m + 1)
  {
    PollExact(cfg.n, G'.counter, G'.epoch, G'.arr, G'.lep, m);
    hide Counted; hide Behind; hide Target;
  }

  lemma {:induction false} AllLeave(cfg: Config, acts: seq<Action>, s: State, g: nat, G: Gpu, a: nat, k: nat, m: nat)
      returns (acts': seq<Action>, s': State)
    requires Launchable(cfg) && Run(cfg, acts) == s && g < 2 && m <= cfg.n && ShapedGpu(cfg, G)
    requires Leaving(cfg, G, s[g], a, k, 0)
    ensures Run(cfg, acts') == s' && s'[1 - g] == s[1 - g] && Leaving(cfg, G, s'[g], a, k, m)
  {
    hide Run; hide LocalStep; hide Leaving;
    if m == 0 {
      acts', s' := acts, s;
    } else {
      var a1, s1 := AllLeave(cfg, acts, s, g, G, a, k, m - 1);
      OneLeaves(cfg, g, G, s1[g], a, k, m - 1);
      acts', s' := DoTick(cfg, a1, s1, g, m - 1, 0);
    }
  }

  /** All blocks cross boundary k together. */
  lemma Cross(cfg: Config, acts: seq<Action>, s: State, g: nat, a: nat, k: nat) returns (acts': seq<Action>, s': State)
    requires Launchable(cfg) && Run(cfg, acts) == s && g < 2
    requires Level(cfg, s[g], a) && AllAtPc(cfg, s[g], Arrive(k))
    ensures Run(cfg, acts') == s' && s'[1 - g] == s[1 - g] && Leaving(cfg, s[g], s'[g], a, k, cfg.n)
  {
    hide Run;
    var a1, s1 := AllArrive(cfg, acts, s, g, a, k, cfg.n);
    AllArrived(cfg, s[g], s1[g], a, k);
    hide Leaving; hide Arriving;
    acts', s' := AllLeave(cfg, a1, s1, g, s[g], a, k, cfg.n);
  }

  lemma AllArrived(cfg: Config, G: Gpu, G': Gpu, a: nat, k: nat)
    requires Launchable(cfg) && ShapedGpu(cfg, G) && Arriving(cfg, G, G', a, k, cfg.n)
    ensures Leaving(cfg, G, G', a, k, 0)
  {
    hide Counted; hide After;
  }

  // ---- the stretches the runs are made of ------------------------------------------------------

  /** GPU G stands at the top of round r, */
  ghost predicate AtTop(cfg: Config, G: Gpu, r: nat, a: nat)
    requires Launchable(cfg)
  {
    Level(cfg, G, a) && forall b: nat :: b < cfg.n ==> G.blocks[b] == Blk(r, Compute(Share(cfg, b)), map[])
  }

  /** has crossed its first boundary, with round r's partials in place, */
  ghost predicate AtPush(cfg: Config, g: nat, G: Gpu, r: nat, a: nat)
    requires Launchable(cfg)
  {
    && Level(cfg, G, a) && (forall b: nat :: b < cfg.n ==> G.blocks[b] == Blk(r, Push(PushShare(cfg, b)), map[]))
    && forall i: nat :: i < Size(cfg) ==> G.partial[i] == cfg.partial(r, g, i)
  }

  /** or waits for the other's number, its own being out. */
  ghost predicate AtPoll(cfg: Config, G: Gpu, r: nat, a: nat)
    requires Launchable(cfg)
  {
    Level(cfg, G, a) && forall b: nat :: b < cfg.n ==> G.blocks[b].pc == PollSeq && G.blocks[b].round == r
  }

  predicate KeepsCells(G: Gpu, G': Gpu) {
    G'.inbox == G.inbox && G'.seqno == G.seqno && G'.done == G.done
  }

  lemma ToPush(cfg: Config, acts: seq<Action>, s: State, g: nat, r: nat, a: nat) returns (acts': seq<Action>, s': State)
    requires Launchable(cfg) && Run(cfg, acts) == s && g < 2 && AtTop(cfg, s[g], r, a)
    ensures Run(cfg, acts') == s' && s'[1 - g] == s[1 - g] && KeepsCells(s[g], s'[g])
    ensures AtPush(cfg, g, s'[g], r, a + 1)
  {
    hide Run; hide Counted;
    var a1, s1 := AllBlocks(cfg, acts, s, g, Computing, cfg.n);
    acts', s' := Cross(cfg, a1, s1, g, a, 0);
  }

  /** The peer has the number; its inbox is as it was where block 0 does not push. */
  ghost predicate Told(cfg: Config, H: Gpu, H': Gpu, r: nat)
    requires Launchable(cfg) && ShapedGpu(cfg, H)
  {
    && ShapedGpu(cfg, H') && H' == H.(inbox := H'.inbox, seqno := Wrap(r))
    && forall i: nat :: i < Size(cfg) && Pusher(cfg, i) != 0 ==> H'.inbox[i] == H.inbox[i]
  }

  // ---- without membar.sys ------------------------------------------------------------------------

  /** All blocks push, cross the second boundary with their stores still waiting, and
      the number goes out once block 0's own have landed. */
  lemma Unfenced(cfg: Config, acts: seq<Action>, s: State, g: nat, r: nat, a: nat)
      returns (acts': seq<Action>, s': State)
    requires Launchable(cfg) && !cfg.membar && !cfg.early && Run(cfg, acts) == s && g < 2 && AtPush(cfg, g, s[g], r, a)
    ensures Run(cfg, acts') == s' && KeepsCells(s[g], s'[g]) && Told(cfg, s[1 - g], s'[1 - g], r)
    ensures AtPoll(cfg, s'[g], r, a + 1)
  {
    hide Run; hide Counted;
    var a1, s1 := AllBlocks(cfg, acts, s, g, Pushing, cfg.n);
    var a2, s2 := Cross(cfg, a1, s1, g, a, 1);
    var a3, s3 := LandAll(cfg, a2, s2, g, 0);
    acts', s' := DoPublish(cfg, a3, s3, g, 0);
  }

  lemma Starts(cfg: Config)
    requires Launchable(cfg) && cfg.rounds >= 1
    ensures var s := Run(cfg, []);
            && AtTop(cfg, s[0], 1, 0) && AtTop(cfg, s[1], 1, 0)
            && forall g: nat, i: nat :: g < 2 && i < Size(cfg) ==> s[g].inbox[i] == 0
  {
    SumZero(cfg.n);
    assert StartGpu(cfg).arr[0] == 0;
  }

  /** Both GPUs have computed the first round and crossed their first boundary. */
  lemma BothToPush(cfg: Config) returns (acts: seq<Action>, s: State)
    requires Launchable(cfg) && cfg.rounds >= 1
    ensures Run(cfg, acts) == s && AtPush(cfg, 0, s[0], 1, 1) && AtPush(cfg, 1, s[1], 1, 1)
    ensures forall g: nat, i: nat :: g < 2 && i < Size(cfg) ==> s[g].inbox[i] == 0
  {
    hide Run; hide AtTop; hide AtPush;
    Starts(cfg);
    var a1, s1 := ToPush(cfg, [], Run(cfg, []), 0, 1, 0);
    acts, s := ToPush(cfg, a1, s1, 1, 1, 0);
  }

  /** The block that folds element i takes the number and is about to fold. */
  lemma TakesNumber(cfg: Config, acts: seq<Action>, s: State, h: nat, i: nat, a: nat)
      returns (acts': seq<Action>, s': State)
    requires Launchable(cfg) && Run(cfg, acts) == s && h < 2 && i < Size(cfg) && s[h].seqno == Wrap(1)
             && AtPoll(cfg, s[h], 1, a)
    ensures Run(cfg, acts') == s' && s'[1 - h] == s[1 - h]
    ensures s'[h] == SetPc(s[h], Owner(cfg, i), Reduce(Share(cfg, Owner(cfg, i))))
    ensures s[h].inbox[i] != cfg.partial(1, 1 - h, i) ==> AboutToFoldWrong(cfg, s', h, Owner(cfg, i), i)
  {
    hide Run; hide Counted;
    acts', s' := DoTick(cfg, acts, s, h, Owner(cfg, i), 0);
  }

  /** Without membar.sys the round number overtakes the stores of the other blocks: in
      every configuration, for every element that block 0 does not push, on either GPU,
      unless what should arrive is what the inbox holds from the start. */
  lemma NoMembarTears(cfg: Config, g: nat, i: nat) returns (acts: seq<Action>)
    requires Launchable(cfg) && !cfg.membar && !cfg.early && cfg.rounds >= 1
    requires g < 2 && PushedElsewhere(cfg, i) && cfg.partial(1, g, i) != 0
    ensures AboutToFoldWrong(cfg, Run(cfg, acts), 1 - g, Owner(cfg, i), i)
  {
    hide Run; hide AtPush; hide AtPoll; hide AboutToFoldWrong; hide Owner; hide Share;
    var a1, s1 := BothToPush(cfg);
    var a2, s2 := Unfenced(cfg, a1, s1, 1 - g, 1, 1);
    SamePush(cfg, g, s1[g], s2[g]);
    var a3, s3 := Unfenced(cfg, a2, s2, g, 1, 1);
    SamePoll(cfg, s2[1 - g], s3[1 - g], 1, 2);
    var a4, s4 := TakesNumber(cfg, a3, s3, 1 - g, i, 2);
    acts := a4;
  }

  /** What the other GPU sends does not move this one. */
  lemma SamePush(cfg: Config, g: nat, G: Gpu, G': Gpu)
    requires Launchable(cfg) && AtPush(cfg, g, G, 1, 1) && ShapedGpu(cfg, G)
    requires ShapedGpu(cfg, G') && G' == G.(inbox := G'.inbox, seqno := G'.seqno)
    ensures AtPush(cfg, g, G', 1, 1)
  {
    hide Counted;
  }

  lemma SamePoll(cfg: Config, G: Gpu, G': Gpu, r: nat, a: nat)
    requires Launchable(cfg) && AtPoll(cfg, G, r, a) && ShapedGpu(cfg, G)
    requires ShapedGpu(cfg, G') && G' == G.(inbox := G'.inbox, seqno := G'.seqno)
    ensures AtPoll(cfg, G', r, a)
  {
    hide Counted;
  }

  // ---- number before the boundary -----------------------------------------------------------------

  /** Block 0 delivers its stores and publishes; the others need not have begun. */
  lemma EarlyNumber(cfg: Config, acts: seq<Action>, s: State, g: nat) returns (acts': seq<Action>, s': State)
    requires Launchable(cfg) && cfg.early && Run(cfg, acts) == s && g < 2 && AtPush(cfg, g, s[g], 1, 1)
    ensures Run(cfg, acts') == s' && KeepsCells(s[g], s'[g]) && Told(cfg, s[1 - g], s'[1 - g], 1)
  {
    hide Run; hide Counted; hide Owner;
    var a1, s1 := OneBlock(cfg, acts, s, g, Delivering, 0);
    acts', s' := DoPublish(cfg, a1, s1, g, 0);
  }

  /** All blocks deliver, block 0 publishes, and all cross. */
  lemma EarlyCross(cfg: Config, acts: seq<Action>, s: State, g: nat) returns (acts': seq<Action>, s': State)
    requires Launchable(cfg) && cfg.early && Run(cfg, acts) == s && g < 2 && AtPush(cfg, g, s[g], 1, 1)
    ensures Run(cfg, acts') == s' && KeepsCells(s[g], s'[g])
    ensures s'[1 - g].blocks == s[1 - g].blocks && AtPoll(cfg, s'[g], 1, 2)
  {
    hide Run; hide Counted; hide Owner;
    var a1, s1 := AllBlocks(cfg, acts, s, g, Delivering, cfg.n);
    var a2, s2 := DoPublish(cfg, a1, s1, g, 0);
    acts', s' := Cross(cfg, a2, s2, g, 1, 1);
  }

  /** With the number published before the boundary it overtakes the pushes of the
      other blocks, with or without the fence. */
  lemma EarlyNumberTears(cfg: Config, g: nat, i: nat) returns (acts: seq<Action>)
    requires Launchable(cfg) && cfg.early && cfg.rounds >= 1
    requires g < 2 && PushedElsewhere(cfg, i) && cfg.partial(1, g, i) != 0
    ensures AboutToFoldWrong(cfg, Run(cfg, acts), 1 - g, Owner(cfg, i), i)
  {
    hide Run; hide AtPush; hide AtPoll; hide AboutToFoldWrong; hide Owner; hide Share;
    var a1, s1 := BothToPush(cfg);
    var a2, s2 := EarlyNumber(cfg, a1, s1, g);
    SamePush(cfg, 1 - g, s1[1 - g], s2[1 - g]);
    var a3, s3 := EarlyCross(cfg, a2, s2, 1 - g);
    var a4, s4 := TakesNumber(cfg, a3, s3, 1 - g, i, 2);
    acts := a4;
  }

  // ---- no lockstep ------------------------------------------------------------------------------------

  /** A round up to its second boundary, and the number published. */
  lemma ToNumber(cfg: Config, acts: seq<Action>, s: State, g: nat) returns (acts': seq<Action>, s': State)
    requires Launchable(cfg) && !cfg.early && Run(cfg, acts) == s && g < 2 && AtPush(cfg, g, s[g], 1, 1)
    ensures Run(cfg, acts') == s' && KeepsCells(s[g], s'[g])
    ensures AtPoll(cfg, s'[g], 1, 2) && forall b: nat :: b < cfg.n ==> s'[g].blocks[b].pend == map[]
    ensures var H, H' := s[1 - g], s'[1 - g]; ShapedGpu(cfg, H') && H' == H.(inbox := H'.inbox, seqno := Wrap(1))
  {
    hide Run; hide Counted; hide Owner;
    var a1, s1 := AllBlocks(cfg, acts, s, g, Delivering, cfg.n);
    var a2, s2 := Cross(cfg, a1, s1, g, 1, 1);
    acts', s' := DoPublish(cfg, a2, s2, g, 0);
  }

  /** GPU g folds its round and, with no lockstep, starts the next. */
  lemma NextRound(cfg: Config, acts: seq<Action>, s: State, g: nat) returns (acts': seq<Action>, s': State)
    requires Launchable(cfg) && !cfg.lockstep && cfg.rounds >= 2 && Run(cfg, acts) == s && g < 2
    requires AtPoll(cfg, s[g], 1, 2) && s[g].seqno == Wrap(1)
             && forall b: nat :: b < cfg.n ==> s[g].blocks[b].pend == map[]
    ensures Run(cfg, acts') == s' && AtTop(cfg, s'[g], 2, 3) && s'[1 - g] == s[1 - g]
  {
    hide Run; hide Counted; hide Owner;
    var a1, s1 := AllBlocks(cfg, acts, s, g, Folding, cfg.n);
    acts', s' := Cross(cfg, a1, s1, g, 2, 2);
  }

  /** One store of the next round goes out and lands. */
  lemma Overwrites(cfg: Config, acts: seq<Action>, s: State, g: nat, i: nat) returns (acts': seq<Action>, s': State)
    requires Launchable(cfg) && Run(cfg, acts) == s && g < 2 && i < Size(cfg) && AtPush(cfg, g, s[g], 2, 4)
    ensures Run(cfg, acts') == s' && ShapedGpu(cfg, s[1 - g])
    ensures s'[1 - g] == s[1 - g].(inbox := s[1 - g].inbox[i := cfg.partial(2, g, i)])
  {
    hide Run; hide Counted;
    var b := Pusher(cfg, i);
    assert i in PushShare(cfg, b);
    var a1, s1 := DoTick(cfg, acts, s, g, b, i);
    acts', s' := Do(cfg, a1, s1, Land(g, b, i));
    StepCells(cfg, s1, Land(g, b, i));
    hide Step;
  }

  lemma Overwritten(cfg: Config, H: Gpu, s: State, g: nat, i: nat)
    requires Launchable(cfg) && Shaped(cfg, s) && g < 2 && i < Size(cfg) && AtPoll(cfg, H, 1, 2)
    requires cfg.partial(2, g, i) != cfg.partial(1, g, i)
    requires s[1 - g] == SetPc(H, Owner(cfg, i), Reduce(Share(cfg, Owner(cfg, i))))
                         .(inbox := H.inbox[i := cfg.partial(2, g, i)])
    ensures AboutToFoldWrong(cfg, s, 1 - g, Owner(cfg, i), i)
  {
    hide Counted;
  }

  /** Without the round lockstep the next round's push overwrites any element that is
      still to be folded, if it brings another value, for any number of blocks. */
  lemma NoLockstepOverwrites(cfg: Config, g: nat, i: nat) returns (acts: seq<Action>)
    requires Launchable(cfg) && !cfg.early && !cfg.lockstep && cfg.rounds >= 2
    requires g < 2 && i < Size(cfg) && cfg.partial(2, g, i) != cfg.partial(1, g, i)
    ensures AboutToFoldWrong(cfg, Run(cfg, acts), 1 - g, Owner(cfg, i), i)
  {
    hide Run; hide AtPush; hide AtPoll; hide AtTop; hide Owner; hide Share;
    var a1, s1 := BothToPush(cfg);
    var a2, s2 := ToNumber(cfg, a1, s1, 1 - g);
    SamePush(cfg, g, s1[g], s2[g]);
    var a3, s3 := ToNumber(cfg, a2, s2, g);
    SamePoll(cfg, s2[1 - g], s3[1 - g], 1, 2);
    var a4, s4 := TakesNumber(cfg, a3, s3, 1 - g, i, 2);
    var a5, s5 := NextRound(cfg, a4, s4, g);
    var a6, s6 := ToPush(cfg, a5, s5, g, 2, 3);
    var a7, s7 := Overwrites(cfg, a6, s6, g, i);
    Overwritten(cfg, s3[1 - g], s7, g, i);
    acts := a7;
  }
}
