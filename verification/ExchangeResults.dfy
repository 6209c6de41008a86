/** What the invariant says: every fold is exact, both GPUs end with the same
    result, and no reachable state is stuck. */
module ExchangeResults {
  import opened Arrivals
  import opened Words
  import opened Exchange
  import opened ExchangeSafety

  /** Every fold of every round, in every run, reads exactly the two partials of
      that round: nothing stale, torn or overwritten. */
  lemma FoldsBothPartials(cfg: Config, acts: seq<Action>, g: nat, b: nat, i: nat)
    requires Proper(cfg) && g < 2 && b < cfg.n && i < Size(cfg)
    requires var pc := Run(cfg, acts)[g].blocks[b].pc; pc.Reduce? && i in pc.todo
    ensures var s := Run(cfg, acts);
            var r := s[g].blocks[b].round;
            && s[g].partial[i] == cfg.partial(r, g, i) && s[g].inbox[i] == cfg.partial(r, 1 - g, i)
            && Step(cfg, s, Tick(g, b, i))[g].out[i] == Both(cfg, r, i)
  {
    hide Run; hide Half; hide Step;
    var s := Run(cfg, acts);
    RunInv(cfg, acts);
    PairIsInv(cfg, s, g);
    FoldInputs(cfg, g, s[g], s[1 - g], b, i);
    StepCells(cfg, s, Tick(g, b, i));
  }

  /** GPU g has folded all of round r and not begun to fold round r + 1. */
  predicate Settled(G: Gpu, r: nat) {
    r >= 1 && 4 * r - 1 <= G.lep <= 4 * r + 1
  }

  lemma SettledOut(cfg: Config, g: nat, G: Gpu, H: Gpu, r: nat)
    requires Launchable(cfg) && Half(cfg, g, G, H) && Settled(G, r)
    ensures G.out == seq(Size(cfg), i requires 0 <= i < Size(cfg) => Both(cfg, r, i))
  {
    forall i | 0 <= i < Size(cfg) ensures G.out[i] == Both(cfg, r, i) {
      assert OutAt(cfg, G, i);
    }
  }

  lemma SettledResult(cfg: Config, acts: seq<Action>, g: nat, r: nat)
    requires Proper(cfg) && g < 2 && Settled(Run(cfg, acts)[g], r)
    ensures Run(cfg, acts)[g].out == seq(Size(cfg), i requires 0 <= i < Size(cfg) => Both(cfg, r, i))
  {
    hide Run; hide Half;
    RunInv(cfg, acts);
    PairIsInv(cfg, Run(cfg, acts), g);
    SettledOut(cfg, g, Run(cfg, acts)[g], Run(cfg, acts)[1 - g], r);
  }

  /** Where a block has to be for that: at or after the end of its round's fold,
      but not yet past the second boundary of the next round; or out. */
  predicate Past(cfg: Config, blk: Blk, r: nat) {
    || (blk.round == r >= 1 && (blk.pc.DonePublish? || blk.pc.PollDone? || blk.pc == Arrive(3)))
    || (blk.round == r + 1 >= 2 && (blk.pc.Compute? || blk.pc.Push? || blk.pc.Fence? || blk.pc.Exit? || blk.pc
        == Arrive(0) || blk.pc == Arrive(1)))
  }

  lemma PastIsSettled(cfg: Config, acts: seq<Action>, g: nat, b: nat, r: nat)
    requires Proper(cfg) && g < 2 && b < cfg.n && Past(cfg, Run(cfg, acts)[g].blocks[b], r)
    ensures Settled(Run(cfg, acts)[g], r)
  {
    hide Run; hide Half;
    RunInv(cfg, acts);
    PairIsInv(cfg, Run(cfg, acts), g);
    WhereItIs(cfg, g, Run(cfg, acts)[g], Run(cfg, acts)[1 - g], b);
  }

  /** Whenever a block of each GPU is past the fold of the same round, the two
      results are the same, element for element and bit for bit. */
  lemma ResultsIdentical(cfg: Config, acts: seq<Action>, b: nat, c: nat, r: nat)
    requires Proper(cfg) && b < cfg.n && c < cfg.n
    requires Past(cfg, Run(cfg, acts)[0].blocks[b], r) && Past(cfg, Run(cfg, acts)[1].blocks[c], r)
    ensures Run(cfg, acts)[0].out == Run(cfg, acts)[1].out
    ensures Run(cfg, acts)[0].out == seq(Size(cfg), i requires 0 <= i < Size(cfg) => Both(cfg, r, i))
  {
    hide Run;
    PastIsSettled(cfg, acts, 0, b, r);
    PastIsSettled(cfg, acts, 1, c, r);
    SettledResult(cfg, acts, 0, r);
    SettledResult(cfg, acts, 1, r);
  }

  // ---- never stuck ------------------------------------------------------------------------

  /** Block b can do nothing until somebody else moves. */
  predicate Waits(G: Gpu, b: nat)
    requires b < |G.blocks| == |G.arr|
  {
    match G.blocks[b].pc
    case Exit => true
    case Spin(_) => G.arr[b] == G.lep + 1
    case PollSeq => G.seqno < G.blocks[b].round
    case PollDone => G.done < G.blocks[b].round
    case _ => false
  }

  predicate Exited(G: Gpu) {
    forall b :: 0 <= b < |G.blocks| ==> G.blocks[b].pc.Exit?
  }

  /** Where a waiting block is, if it has not arrived ahead of the others, ... */
  lemma WaitingBehind(cfg: Config, G: Gpu, b: nat)
    requires Launchable(cfg) && ShapedGpu(cfg, G) && b < cfg.n && BlkInv(cfg, b, G.blocks[b], G.arr[b], G.lep)
    requires Waits(G, b) && G.arr[b] == G.lep
    ensures var r, k := RoundOf(G.lep), PartOf(G.lep);
            || (G.lep == 4 * cfg.rounds && r == cfg.rounds + 1)
            || (r <= cfg.rounds && k == 2 && G.seqno < r)
            || (r <= cfg.rounds && k == 3 && G.done < r)
  {
  }

  /** ... what block 0 has sent if it waits, ... */
  lemma WaitingZero(cfg: Config, G: Gpu)
    requires Launchable(cfg) && ShapedGpu(cfg, G) && BlkInv(cfg, 0, G.blocks[0], G.arr[0], G.lep) && Waits(G, 0)
    ensures var blk, r, k := G.blocks[0], RoundOf(G.lep), PartOf(G.lep);
            && (k == 2 ==> SeqSent(blk) == r && DoneSent(blk) == r - 1)
            && (k == 3 ==> SeqSent(blk) == r && DoneSent(blk) == r)
            && (G.lep == 4 * cfg.rounds ==> SeqSent(blk) == DoneSent(blk) == cfg.rounds)
  {
  }

  /** ... and that after the last round nobody waits for anything. */
  lemma WaitingEnd(cfg: Config, G: Gpu, b: nat)
    requires Launchable(cfg) && ShapedGpu(cfg, G) && b < cfg.n && BlkInv(cfg, b, G.blocks[b], G.arr[b], G.lep)
    requires Waits(G, b) && G.lep == 4 * cfg.rounds
    ensures G.blocks[b].pc.Exit?
  {
  }

  /** A GPU all of whose blocks wait has exited, or waits for the peer's number
      having sent its own, or waits for the peer's done having sent its own. */
  lemma AllWait(cfg: Config, g: nat, G: Gpu, H: Gpu)
    requires Proper(cfg) && g < 2 && Pair(cfg, g, G, H) && ShapedGpu(cfg, G)
    requires forall b :: 0 <= b < cfg.n ==> Waits(G, b)
    ensures var r := RoundOf(G.lep);
            || (Exited(G) && H.seqno == H.done == cfg.rounds)
            || (PartOf(G.lep) == 2 && r <= cfg.rounds && G.seqno < r && H.seqno == r && H.done == r - 1)
            || (PartOf(G.lep) == 3 && r <= cfg.rounds && G.done < r && H.seqno == r && H.done == r)
  {
    var z :| 0 <= z < cfg.n && G.arr[z] != G.lep + 1;
    assert H.seqno == SeqSent(G.blocks[0]) && H.done == DoneSent(G.blocks[0]);
    assert G.arr[z] == G.lep;
    hide Half; hide BlkInv; hide Waits; hide SeqSent; hide DoneSent;
    WhereItIs(cfg, g, G, H, z);
    WhereItIs(cfg, g, G, H, 0);
    WaitingBehind(cfg, G, z);
    WaitingZero(cfg, G);
    if G.lep == 4 * cfg.rounds {
      forall b | 0 <= b < cfg.n ensures G.blocks[b].pc.Exit? {
        WhereItIs(cfg, g, G, H, b);
        WaitingEnd(cfg, G, b);
      }
    }
  }

  lemma NotBothWait(cfg: Config, G: Gpu, H: Gpu)
    requires Proper(cfg) && Pair(cfg, 0, G, H) && ShapedGpu(cfg, G) && ShapedGpu(cfg, H)
    requires forall b :: 0 <= b < cfg.n ==> Waits(G, b)
    requires forall b :: 0 <= b < cfg.n ==> Waits(H, b)
    ensures Exited(G) && Exited(H)
  {
    AllWait(cfg, 0, G, H);
    AllWait(cfg, 1, H, G);
  }

  lemma Moves(cfg: Config, g: nat, G: Gpu, H: Gpu, b: nat) returns (a: Action)
    requires Proper(cfg) && g < 2 && Pair(cfg, g, G, H) && b < cfg.n && ShapedGpu(cfg, G) && !Waits(G, b)
    requires !Publishes(G.blocks[b].pc)
    ensures a.g == g && a.b == b
    ensures if a.Land? then a.i in G.blocks[b].pend && a.i < Size(cfg)
            else LocalStep(cfg, g, G, b, a.i).blocks[b] != G.blocks[b]
  {
    WhereItIs(cfg, g, G, H, b);
    PollsAreExact(cfg, g, G, H, b);
    var pc := G.blocks[b].pc;
    a := Tick(g, b, 0);
    if pc.Fence? && G.blocks[b].pend != map[] {
      var i :| i in G.blocks[b].pend;
      assert PendAt(cfg, g, G, b, i);
      a := Land(g, b, i);
    } else if (pc.Compute? || pc.Push? || pc.Reduce?) && pc.todo != {} {
      var i :| i in pc.todo;
      a := Tick(g, b, i);
    }
  }

  lemma BlockMoves(cfg: Config, s: State, g: nat, b: nat) returns (a: Action)
    requires Proper(cfg) && Shaped(cfg, s) && g < 2 && b < cfg.n && Pair(cfg, g, s[g], s[1 - g]) && !Waits(s[g], b)
    ensures a.g == g && a.b == b && Step(cfg, s, a)[g].blocks[b] != s[g].blocks[b]
  {
    hide Pair; hide Step; hide Waits; hide LocalStep; hide Receives;
    if Publishes(s[g].blocks[b].pc) {
      a := Tick(g, b, 0);
      PublishMoves(cfg, s, g, b);
    } else {
      a := Moves(cfg, g, s[g], s[1 - g], b);
      StepCells(cfg, s, a);
      if a.Land? { assert a.i !in Emptied(s[g], b, a.i).blocks[b].pend; }
    }
  }

  lemma PublishMoves(cfg: Config, s: State, g: nat, b: nat)
    requires Proper(cfg) && Shaped(cfg, s) && g < 2 && b < cfg.n && Pair(cfg, g, s[g], s[1 - g])
             && Publishes(s[g].blocks[b].pc)
    ensures Step(cfg, s, Tick(g, b, 0))[g].blocks[b] != s[g].blocks[b]
  {
    hide Half; hide Step;
    WhereItIs(cfg, g, s[g], s[1 - g], b);
    StepCells(cfg, s, Tick(g, b, 0));
  }

  /** Until both GPUs have left, some move changes the state. */
  lemma NotStuck(cfg: Config, s: State) returns (a: Action)
    requires Proper(cfg) && Shaped(cfg, s) && Inv(cfg, s) && !(Exited(s[0]) && Exited(s[1]))
    ensures a.g < 2 && a.b < cfg.n && Step(cfg, s, a)[a.g].blocks[a.b] != s[a.g].blocks[a.b]
  {
    hide Inv; hide Pair; hide Step; hide Waits;
    PairIsInv(cfg, s, 0);
    PairIsInv(cfg, s, 1);
    if g, b :| 0 <= g < 2 && 0 <= b < cfg.n && !Waits(s[g], b) {
      a := BlockMoves(cfg, s, g, b);
    } else {
      NotBothWait(cfg, s[0], s[1]);
      assert false;
    }
  }

  // ---- and every move brings the end closer -----------------------------------------------------

  /** Steps that one round takes block b at most. */
  function RoundCost(cfg: Config, b: nat): nat
    requires Launchable(cfg)
  {
    17 + 2 * |Share(cfg, b)| + 2 * |PushShare(cfg, b)|
  }

  function Rounds(cfg: Config, b: nat, k: nat): nat
    requires Launchable(cfg)
  {
    if k == 0 then 0 else RoundCost(cfg, b) + Rounds(cfg, b, k - 1)
  }

  /** Steps left in the round. */
  function PcCost(cfg: Config, b: nat, pc: Pc): nat
    requires Launchable(cfg)
  {
    var share, push := |Share(cfg, b)|, 2 * |PushShare(cfg, b)|;
    match pc
    case Compute(todo) => 16 + share + push + |todo|
    case Arrive(k) => if k == 0 then 15 + share + push else if k == 1 then 11 + share else if k == 2 then 6 else 2
    case Spin(k) => if k == 0 then 14 + share + push else if k == 1 then 10 + share else if k == 2 then 5 else 1
    case Push(todo) => 13 + share + 2 * |todo|
    case Fence => 12 + share
    case EarlyPublish => 0
    case Publish => 9 + share
    case PollSeq => 8 + share
    case Reduce(todo) => 7 + |todo|
    case DonePublish => 4
    case PollDone => 3
    case Exit => 0
  }

  function BlkCost(cfg: Config, b: nat, blk: Blk): nat
    requires Launchable(cfg) && blk.round <= cfg.rounds + 1
  {
    |blk.pend| + PcCost(cfg, b, blk.pc) + (if blk.pc.Exit? then 0 else Rounds(cfg, b, cfg.rounds + 1 - blk.round))
  }

  function GpuCost(cfg: Config, blocks: seq<Blk>): nat
    requires Launchable(cfg) && forall b :: 0 <= b < |blocks| ==> blocks[b].round <= cfg.rounds + 1
  {
    if blocks == [] then 0
    else GpuCost(cfg, blocks[..|blocks| - 1]) + BlkCost(cfg, |blocks| - 1, blocks[|blocks| - 1])
  }

  lemma {:induction false} GpuCostUpdate(cfg: Config, blocks: seq<Blk>, b: nat, blk: Blk)
    requires Launchable(cfg) && forall c :: 0 <= c < |blocks| ==> blocks[c].round <= cfg.rounds + 1
    requires b < |blocks| && blk.round <= cfg.rounds + 1
    ensures GpuCost(cfg, blocks[b := blk]) + BlkCost(cfg, b, blocks[b]) == GpuCost(cfg, blocks) + BlkCost(cfg, b, blk)
  {
    hide BlkCost;
    var k := |blocks| - 1;
    if b == k {
      assert blocks[b := blk][..k] == blocks[..k];
    } else {
      assert blocks[b := blk][..k] == blocks[..k][b := blk];
      GpuCostUpdate(cfg, blocks[..k], b, blk);
    }
  }

  lemma LeaveLowers(cfg: Config, b: nat, blk: Blk, arr: nat, lep: nat)
    requires Proper(cfg) && b < cfg.n && blk.pc.Spin? && BlkInv(cfg, b, blk, arr, lep)
    ensures var blk' := After(cfg, b, blk, blk.pc.k);
            blk'.round <= cfg.rounds + 1 && BlkCost(cfg, b, blk') < BlkCost(cfg, b, blk)
  {
    if blk.pc.k == 3 { RoundEnds(cfg, b, blk); }
    hide Rounds;
  }

  lemma StoreLowers(cfg: Config, g: nat, G: Gpu, b: nat, i: nat)
    requires Proper(cfg) && ShapedGpu(cfg, G) && b < cfg.n && G.blocks[b].round <= cfg.rounds + 1
             && Storing(cfg, G.blocks[b].pc, i)
    ensures var blk' := LocalStep(cfg, g, G, b, i).blocks[b];
            blk'.round <= cfg.rounds + 1 && BlkCost(cfg, b, blk') < BlkCost(cfg, b, G.blocks[b])
  {
    var blk := G.blocks[b];
    hide Rounds;
    if blk.pc.Push? {
      assert |blk.pend[i := G.partial[i]]| <= |blk.pend| + 1;
    }
  }

  lemma LocalLowers(cfg: Config, g: nat, G: Gpu, b: nat, i: nat)
    requires Proper(cfg) && ShapedGpu(cfg, G) && b < cfg.n && BlkInv(cfg, b, G.blocks[b], G.arr[b], G.lep)
    requires !Publishes(G.blocks[b].pc) && LocalStep(cfg, g, G, b, i).blocks[b] != G.blocks[b]
    ensures var blk' := LocalStep(cfg, g, G, b, i).blocks[b];
            blk'.round <= cfg.rounds + 1 && BlkCost(cfg, b, blk') < BlkCost(cfg, b, G.blocks[b])
  {
    hide Rounds;
    if G.blocks[b].pc.Spin? {
      LeaveLowers(cfg, b, G.blocks[b], G.arr[b], G.lep);
      hide BlkCost; hide After;
    } else if Storing(cfg, G.blocks[b].pc, i) {
      StoreLowers(cfg, g, G, b, i);
    }
  }

  lemma RoundEnds(cfg: Config, b: nat, blk: Blk)
    requires Proper(cfg) && b < cfg.n && blk.pc == Spin(3) && 1 <= blk.round <= cfg.rounds
    ensures BlkCost(cfg, b, After(cfg, b, blk, 3)) < BlkCost(cfg, b, blk)
  {
    var k := cfg.rounds + 1 - blk.round;
    assert Rounds(cfg, b, k) == RoundCost(cfg, b) + Rounds(cfg, b, k - 1);
  }

  lemma LocalOthers(cfg: Config, g: nat, G: Gpu, b: nat, i: nat)
    requires Launchable(cfg) && ShapedGpu(cfg, G) && b < cfg.n
    ensures var G' := LocalStep(cfg, g, G, b, i); G'.blocks == G.blocks[b := G'.blocks[b]]
  {
  }

  /** Block b's cost went down and no other block moved. */
  ghost predicate Cheaper(cfg: Config, blocks: seq<Blk>, blocks': seq<Blk>, b: nat) {
    && Launchable(cfg) && b < |blocks| == |blocks'| && blocks' == blocks[b := blocks'[b]]
    && blocks[b].round <= cfg.rounds + 1 && blocks'[b].round <= cfg.rounds + 1
    && BlkCost(cfg, b, blocks'[b]) < BlkCost(cfg, b, blocks[b])
  }

  lemma EmptiedLowers(cfg: Config, G: Gpu, H: Gpu, b: nat, i: nat)
    requires Launchable(cfg) && b < |G.blocks| && G.blocks[b].round <= cfg.rounds + 1 && i in G.blocks[b].pend
             && i < |H.inbox|
    ensures Cheaper(cfg, G.blocks, Emptied(G, b, i).blocks, b) && Landed(G, H, b, i).blocks == H.blocks
  {
    var pend := G.blocks[b].pend;
    assert (pend - {i}).Keys == pend.Keys - {i};
    assert |pend - {i}| == |(pend - {i}).Keys| < |pend.Keys| == |pend|;
  }

  lemma PublishedLowers(cfg: Config, G: Gpu, H: Gpu, b: nat)
    requires Proper(cfg) && ShapedGpu(cfg, G) && b < cfg.n && BlkInv(cfg, b, G.blocks[b], G.arr[b], G.lep)
             && Publishes(G.blocks[b].pc)
    ensures Cheaper(cfg, G.blocks, Published(G, b).blocks, b) && Receives(H, G.blocks[b]).blocks == H.blocks
  {
    hide Rounds;
  }

  /** A move that changes its block lowers that block's cost and touches no other. */
  lemma StepLowers(cfg: Config, s: State, a: Action)
    requires Proper(cfg) && Shaped(cfg, s) && a.g < 2 && a.b < cfg.n && Pair(cfg, a.g, s[a.g], s[1 - a.g])
    requires Step(cfg, s, a)[a.g].blocks[a.b] != s[a.g].blocks[a.b]
    ensures Cheaper(cfg, s[a.g].blocks, Step(cfg, s, a)[a.g].blocks, a.b)
    ensures Step(cfg, s, a)[1 - a.g].blocks == s[1 - a.g].blocks
  {
    var G := s[a.g];
    hide Step; hide LocalStep; hide Half; hide BlkCost; hide Emptied; hide Landed; hide Published; hide Receives;
    StepCells(cfg, s, a);
    WhereItIs(cfg, a.g, G, s[1 - a.g], a.b);
    if a.Land? {
      EmptiedLowers(cfg, G, s[1 - a.g], a.b, a.i);
    } else if Publishes(G.blocks[a.b].pc) {
      PublishedLowers(cfg, G, s[1 - a.g], a.b);
    } else {
      LocalLowers(cfg, a.g, G, a.b, a.i);
      LocalOthers(cfg, a.g, G, a.b, a.i);
    }
  }

  predicate InRounds(cfg: Config, s: State) {
    && Launchable(cfg) && Shaped(cfg, s)
    && forall g, b :: 0 <= g < 2 && 0 <= b < cfg.n ==> s[g].blocks[b].round <= cfg.rounds + 1
  }

  function Cost(cfg: Config, s: State): nat
    requires InRounds(cfg, s)
  {
    assert forall b :: 0 <= b < cfg.n ==> s[0].blocks[b].round <= cfg.rounds + 1;
    assert forall b :: 0 <= b < cfg.n ==> s[1].blocks[b].round <= cfg.rounds + 1;
    GpuCost(cfg, s[0].blocks) + GpuCost(cfg, s[1].blocks)
  }

  lemma InvInRounds(cfg: Config, s: State)
    requires Proper(cfg) && Shaped(cfg, s) && Inv(cfg, s)
    ensures InRounds(cfg, s)
  {
    hide Inv; hide Half;
    forall g: nat, b: nat | g < 2 && b < cfg.n ensures s[g].blocks[b].round <= cfg.rounds + 1 {
      PairIsInv(cfg, s, g);
      WhereItIs(cfg, g, s[g], s[1 - g], b);
    }
  }

  lemma StepLowersCost(cfg: Config, s: State, a: Action)
    requires Proper(cfg) && Shaped(cfg, s) && Inv(cfg, s) && a.g < 2 && a.b < cfg.n
    requires Step(cfg, s, a)[a.g].blocks[a.b] != s[a.g].blocks[a.b]
    ensures InRounds(cfg, s) && InRounds(cfg, Step(cfg, s, a)) && Cost(cfg, Step(cfg, s, a)) < Cost(cfg, s)
  {
    hide Step; hide Inv; hide Pair; hide GpuCost; hide BlkCost;
    var s' := Step(cfg, s, a);
    InvInRounds(cfg, s);
    StepKeepsInv(cfg, s, a);
    InvInRounds(cfg, s');
    PairIsInv(cfg, s, a.g);
    StepLowers(cfg, s, a);
    GpuCostUpdate(cfg, s[a.g].blocks, a.b, s'[a.g].blocks[a.b]);
    assert if a.g == 0 then s'[1].blocks == s[1].blocks else s'[0].blocks == s[0].blocks;
  }

  lemma {:induction false} EndsWithin(cfg: Config, acts: seq<Action>, budget: nat) returns (more: seq<Action>)
    requires Proper(cfg) && InRounds(cfg, Run(cfg, acts)) && Cost(cfg, Run(cfg, acts)) <= budget
    ensures Exited(Run(cfg, acts + more)[0]) && Exited(Run(cfg, acts + more)[1])
    decreases budget
  {
    hide Run; hide Step; hide Inv; hide Exited; hide Cost; hide InRounds;
    var s := Run(cfg, acts);
    if Exited(s[0]) && Exited(s[1]) {
      more := [];
      assert acts + [] == acts;
    } else {
      RunInv(cfg, acts);
      var a := NotStuck(cfg, s);
      StepLowersCost(cfg, s, a);
      RunSnoc(cfg, acts, a);
      var rest := EndsWithin(cfg, acts + [a], budget - 1);
      more := [a] + rest;
      assert acts + [a] + rest == acts + more;
    }
  }

  lemma RunSnoc(cfg: Config, acts: seq<Action>, a: Action)
    requires Launchable(cfg)
    ensures Run(cfg, acts + [a]) == Step(cfg, Run(cfg, acts), a)
  {
    hide Step;
    assert (acts + [a])[..|acts|] == acts;
  }

  /** From every reachable state both GPUs come to the end of their last round, in
      at most Cost moves that change anything, and then hold the same result. */
  lemma ExchangeEnds(cfg: Config, acts: seq<Action>) returns (more: seq<Action>)
    requires Proper(cfg)
    ensures Exited(Run(cfg, acts + more)[0]) && Exited(Run(cfg, acts + more)[1])
    ensures cfg.rounds >= 1 ==>
              var s := Run(cfg, acts + more);
              s[0].out == s[1].out == seq(Size(cfg), i requires 0 <= i < Size(cfg) => Both(cfg, cfg.rounds, i))
  {
    hide Run; hide Step; hide Inv; hide Cost; hide InRounds; hide Both;
    RunInv(cfg, acts);
    InvInRounds(cfg, Run(cfg, acts));
    more := EndsWithin(cfg, acts, Cost(cfg, Run(cfg, acts)));
    if cfg.rounds >= 1 {
      ExitIsPast(cfg, acts + more, 0);
      ExitIsPast(cfg, acts + more, 1);
      ResultsIdentical(cfg, acts + more, 0, 0, cfg.rounds);
    }
  }

  lemma ExitIsPast(cfg: Config, acts: seq<Action>, g: nat)
    requires Proper(cfg) && g < 2 && Exited(Run(cfg, acts)[g]) && cfg.rounds >= 1
    ensures Past(cfg, Run(cfg, acts)[g].blocks[0], cfg.rounds)
  {
    hide Run; hide Half;
    RunInv(cfg, acts);
    PairIsInv(cfg, Run(cfg, acts), g);
    WhereItIs(cfg, g, Run(cfg, acts)[g], Run(cfg, acts)[1 - g], 0);
  }
}
