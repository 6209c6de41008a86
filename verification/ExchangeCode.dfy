/** The exchange litmus as the code has it: each GPU's buffers are updated in place,
    and every fold is compared with the sum it should have been. */
module ExchangeCode {
  import opened Arrivals
  import opened Words
  import opened Exchange
  import opened ExchangeSafety
  import opened ExchangeResults

  /** Block b is about to fold element i, and what it will store is not the sum of both
      partials of the round. */
  predicate WrongFold(cfg: Config, g: nat, G: Gpu, b: nat, i: nat)
    requires ShapedGpu(cfg, G) && b < cfg.n
  {
    var blk := G.blocks[b];
    blk.pc.Reduce? && i in blk.pc.todo && i < Size(cfg) && Fold(cfg, g, G, i) != Both(cfg, blk.round, i)
  }

  /** How many of a run's moves were such folds of GPU g. */
  function WrongFolds(cfg: Config, acts: seq<Action>, g: nat): nat
    requires Launchable(cfg) && g < 2
  {
    if acts == [] then 0
    else
      var before, a := acts[..|acts| - 1], acts[|acts| - 1];
      WrongFolds(cfg, before, g)
          + if a.Tick? && a.g == g && a.b < cfg.n && WrongFold(cfg, g, Run(cfg, before)[g], a.b, a.i) then 1 else 0
  }

  /** `stale` counts the folds that did not give the sum of both partials; `arr` and
      `lep` are history. */
  class Board {
    const cfg: Config
    const g: nat
    var counter: u32
    const epoch: array<u32>
    const blocks: array<Blk>
    const partial: array<Val>
    const out: array<Val>
    const inbox: array<Val>
    var seqno: u32
    var done: u32
    var stale: nat
    ghost var arr: seq<nat>
    ghost var lep: nat

    ghost function Repr(): set<object> {
      {this, epoch, blocks, partial, out, inbox}
    }

    ghost predicate Sized()
      reads this
    {
      && Launchable(cfg) && g < 2 && epoch.Length == blocks.Length == |arr| == cfg.n
      && partial.Length == out.Length == inbox.Length == Size(cfg)
      && partial != out && partial != inbox && out != inbox
    }

    ghost function Snapshot(): Gpu
      reads this, epoch, blocks, partial, out, inbox
    {
      Gpu(counter, epoch[..], blocks[..], partial[..], out[..], inbox[..], seqno, done, arr, lep)
    }

    constructor (cfg: Config, g: nat)
      requires Launchable(cfg) && g < 2
      ensures this.cfg == cfg && this.g == g && Sized() && Snapshot() == StartGpu(cfg) && stale == 0 && fresh(Repr())
    {
      this.cfg, this.g := cfg, g;
      counter, seqno, done, stale := 0, 0, 0, 0;
      epoch, blocks := new u32[cfg.n](_ => 0), new Blk[cfg.n](b requires 0 <= b < cfg.n => Begin(cfg, b, 1));
      partial, out, inbox := new Val[Size(cfg)](_ => 0), new Val[Size(cfg)](_ => 0), new Val[Size(cfg)](_ => 0);
      arr, lep := StartGpu(cfg).arr, 0;
      new;
      var first := StartGpu(cfg);
      assert epoch[..] == first.epoch && blocks[..] == first.blocks;
      assert partial[..] == first.partial && out[..] == first.out && inbox[..] == first.inbox;
    }

    method Goto(b: nat, pc: Pc)
      requires Sized() && b < cfg.n
      modifies blocks
      ensures Snapshot() == SetPc(old(Snapshot()), b, pc)
    {
      blocks[b] := blocks[b].(pc := pc);
    }

    /** One element of the block's share of the local partial. */
    method ComputeOne(b: nat, i: nat)
      requires Sized() && b < cfg.n && blocks[b].pc.Compute?
      modifies blocks, partial
      ensures Snapshot() == LocalStep(cfg, g, old(Snapshot()), b, i)
    {
      var todo := blocks[b].pc.todo;
      if todo == {} {
        Goto(b, Arrive(0));
      } else if i in todo && i < Size(cfg) {
        partial[i] := cfg.partial(blocks[b].round, g, i);
        Goto(b, Compute(todo - {i}));
      }
    }

    /** One element of the block's share into the peer's inbox: the store waits. */
    method PushOne(b: nat, i: nat)
      requires Sized() && b < cfg.n && blocks[b].pc.Push?
      modifies blocks
      ensures Snapshot() == LocalStep(cfg, g, old(Snapshot()), b, i)
    {
      var blk := blocks[b];
      if blk.pc.todo == {} {
        Goto(b, Fence);
      } else if i in blk.pc.todo && i < Size(cfg) {
        blocks[b] := blk.(pc := Push(blk.pc.todo - {i}), pend := blk.pend[i := partial[i]]);
      }
    }

    /** membar.sys, when the build has it, waits for the block's own peer stores. */
    method PassFence(b: nat, ghost i: nat)
      requires Sized() && b < cfg.n && blocks[b].pc.Fence?
      modifies blocks
      ensures Snapshot() == LocalStep(cfg, g, old(Snapshot()), b, i)
    {
      if !cfg.membar || blocks[b].pend == map[] {
        Goto(b, if cfg.early && b == 0 then EarlyPublish else Arrive(1));
      }
    }

    method ArriveAt(b: nat, ghost i: nat)
      requires Sized() && b < cfg.n && blocks[b].pc.Arrive?
      modifies this, epoch, blocks
      ensures Sized() && Snapshot() == LocalStep(cfg, g, old(Snapshot()), b, i) && stale == old(stale)
    {
      var k := blocks[b].pc.k;
      arr, lep := arr[b := arr[b] + 1], NextLep(arr, b, lep);
      epoch[b] := Succ(epoch[b]);
      counter := Succ(counter);
      Goto(b, Spin(k));
    }

    /** The three polls: of the counter, of the peer's number, of the peer's done. */
    method PollOnce(b: nat, ghost i: nat)
      requires Sized() && b < cfg.n && (blocks[b].pc.Spin? || blocks[b].pc.PollSeq? || blocks[b].pc.PollDone?)
      modifies blocks
      ensures Snapshot() == LocalStep(cfg, g, old(Snapshot()), b, i)
    {
      var blk := blocks[b];
      match blk.pc
      case Spin(k) => if !Behind(counter, Target(epoch[b], cfg.n)) { blocks[b] := After(cfg, b, blk, k); }
      case PollSeq => if !Behind(seqno, Wrap(blk.round)) { Goto(b, Reduce(Share(cfg, b))); }
      case PollDone => if !Behind(done, Wrap(blk.round)) { Goto(b, Arrive(3)); }
    }

    /** One fold, checked against the sum of both GPUs' partials of the round. */
    method ReduceOne(b: nat, i: nat)
      requires Sized() && b < cfg.n && blocks[b].pc.Reduce?
      modifies this`stale, blocks, out
      ensures Snapshot() == LocalStep(cfg, g, old(Snapshot()), b, i)
      ensures stale == old(stale) + if old(FoldsWrong(b, i)) then 1 else 0
    {
      var todo := blocks[b].pc.todo;
      if todo == {} {
        Goto(b, Arrive(2));
      } else if i in todo && i < Size(cfg) {
        var mine, peer := partial[i], inbox[i];
        var folded := if g == 0 then cfg.add(mine, peer) else cfg.add(peer, mine);
        out[i] := folded;
        if folded != Both(cfg, blocks[b].round, i) { stale := stale + 1; }
        Goto(b, Reduce(todo - {i}));
      }
    }

    /** The next move of block b that touches only its own GPU.  If it is a fold and
        both inputs are the partials of the round, nothing stale is counted. */
    method LocalMove(b: nat, i: nat)
      requires Sized() && b < cfg.n && !Publishes(blocks[b].pc)
      modifies this, epoch, blocks, partial, out
      ensures Sized() && Snapshot() == LocalStep(cfg, g, old(Snapshot()), b, i)
      ensures stale == old(stale) + if old(FoldsWrong(b, i)) then 1 else 0
    {
      if blocks[b].pc.Exit? { ExitStays(b, i); }
      hide LocalStep;
      match blocks[b].pc {
        case Compute(_) => ComputeOne(b, i);
        case Arrive(_) => ArriveAt(b, i);
        case Spin(_) => PollOnce(b, i);
        case Push(_) => PushOne(b, i);
        case Fence => PassFence(b, i);
        case PollSeq => PollOnce(b, i);
        case Reduce(_) => ReduceOne(b, i);
        case PollDone => PollOnce(b, i);
        case Exit => {}
        case _ => assert false;
      }
    }

    ghost predicate FoldsWrong(b: nat, i: nat)
      requires Sized() && b < cfg.n
      reads this, epoch, blocks, partial, out, inbox
    {
      WrongFold(cfg, g, Snapshot(), b, i)
    }

    lemma ExitStays(b: nat, i: nat)
      requires Sized() && b < cfg.n && blocks[b].pc.Exit?
      ensures LocalStep(cfg, g, Snapshot(), b, i) == Snapshot()
    {
    }

    /** A release store of block b to the peer, made when its own stores are out. */
    method Publish(b: nat, peer: Board)
      requires Sized() && peer.Sized() && b < cfg.n && Publishes(blocks[b].pc) && Repr() !! peer.Repr()
      modifies blocks, peer`seqno, peer`done
      ensures if old(blocks[b].pend) == map[]
              then Snapshot() == Published(old(Snapshot()), b)
                  && peer.Snapshot() == Receives(old(peer.Snapshot()), old(blocks[b]))
              else Snapshot() == old(Snapshot()) && peer.Snapshot() == old(peer.Snapshot())
    {
      var blk := blocks[b];
      if blk.pend == map[] {
        if blk.pc.DonePublish? { peer.done := Wrap(blk.round); } else { peer.seqno := Wrap(blk.round); }
        Goto(b, if blk.pc.EarlyPublish? then Arrive(1) else if blk.pc.Publish? then PollSeq else PollDone);
      }
    }

    /** One waiting store of block b reaches the peer's inbox. */
    method LandOne(b: nat, i: nat, peer: Board)
      requires Sized() && peer.Sized() && peer.cfg == cfg && b < cfg.n && Repr() !! peer.Repr()
      requires i in blocks[b].pend && i < Size(cfg)
      modifies blocks, peer.inbox
      ensures var blk := old(blocks[b]);
              && Snapshot() == SetBlk(old(Snapshot()), b, blk.(pend := blk.pend - {i}))
              && peer.Snapshot() == old(peer.Snapshot()).(inbox := old(peer.Snapshot()).inbox[i := blk.pend[i]])
    {
      var blk := blocks[b];
      peer.inbox[i] := blk.pend[i];
      blocks[b] := blk.(pend := blk.pend - {i});
    }
  }

  /** The two GPUs and the moves made so far. */
  class Pair {
    const cfg: Config
    const left: Board
    const right: Board
    ghost var acts: seq<Action>

    ghost function Repr(): set<object> {
      {this} + left.Repr() + right.Repr()
    }

    ghost function Snapshot(): State
      reads Repr()
    {
      [left.Snapshot(), right.Snapshot()]
    }

    ghost predicate Built()
      reads Repr()
    {
      && this !in left.Repr() && this !in right.Repr() && left.Repr() !! right.Repr()
      && left.cfg == right.cfg == cfg && left.g == 0 && right.g == 1 && left.Sized() && right.Sized()
    }

    /** Each GPU has counted its wrong folds, one by one; in the build under test there
        have never been any. */
    ghost predicate Valid()
      reads Repr()
    {
      && Built() && Snapshot() == Run(cfg, acts)
      && left.stale == WrongFolds(cfg, acts, 0) && right.stale == WrongFolds(cfg, acts, 1)
      && (Proper(cfg) ==> left.stale == right.stale == 0)
    }

    constructor (cfg: Config)
      requires Launchable(cfg)
      ensures Valid() && this.cfg == cfg && acts == [] && fresh(Repr())
    {
      this.cfg := cfg;
      left := new Board(cfg, 0);
      right := new Board(cfg, 1);
      acts := [];
    }

    function Mine(g: nat): Board {
      if g == 0 then left else right
    }

    function Peer(g: nat): Board {
      if g == 0 then right else left
    }

    /** A release store to the peer. */
    method Publishing(a: Action)
      requires Built() && a.Tick? && a.g < 2 && a.b < cfg.n && Publishes(Mine(a.g).blocks[a.b].pc)
      modifies Repr() - {this}
      ensures Built() && Snapshot() == Step(cfg, old(Snapshot()), a)
      ensures left.stale == old(left.stale) && right.stale == old(right.stale)
    {
      hide LocalStep; hide Published; hide Receives;
      Mine(a.g).Publish(a.b, Peer(a.g));
    }

    /** A waiting store reaches the peer. */
    method Landing(a: Action)
      requires Built() && a.Land? && a.g < 2 && a.b < cfg.n
      modifies Repr() - {this}
      ensures Built() && Snapshot() == Step(cfg, old(Snapshot()), a)
      ensures left.stale == old(left.stale) && right.stale == old(right.stale)
    {
      hide LocalStep; hide SetBlk;
      if a.i in Mine(a.g).blocks[a.b].pend && a.i < Size(cfg) {
        Mine(a.g).LandOne(a.b, a.i, Peer(a.g));
      }
    }

    /** A move within one GPU. */
    method Within(a: Action)
      requires Built() && a.Tick? && a.g < 2 && a.b < cfg.n && !Publishes(Mine(a.g).blocks[a.b].pc)
      modifies Repr() - {this}
      ensures Built() && Snapshot() == Step(cfg, old(Snapshot()), a)
      ensures Peer(a.g).stale == old(Peer(a.g).stale)
      ensures Mine(a.g).stale == old(Mine(a.g).stale) + if old(Mine(a.g).FoldsWrong(a.b, a.i)) then 1 else 0
    {
      hide LocalStep;
      Mine(a.g).LocalMove(a.b, a.i);
    }

    /** Any one move of either GPU.  A fold gives the sum of exactly the two partials
        of its round: the counter of wrong folds stays zero. */
    method Play(a: Action)
      requires Valid()
      modifies Repr()
      ensures Valid() && acts == old(acts) + [a]
    {
      hide Run; hide Step; hide Both; hide WrongFolds; hide WrongFold;
      RunSnoc(cfg, acts, a);
      Counts(a);
      if a.g >= 2 || a.b >= cfg.n {
        NoMove(a);
      } else if a.Land? {
        Landing(a);
      } else if Publishes(Mine(a.g).blocks[a.b].pc) {
        PublishesNoFold(a);
        Publishing(a);
      } else {
        Inputs(a);
        Within(a);
      }
      acts := acts + [a];
    }

    lemma NoMove(a: Action)
      requires Built() && (a.g >= 2 || a.b >= cfg.n)
      ensures Step(cfg, Snapshot(), a) == Snapshot()
    {
    }

    lemma Inputs(a: Action)
      requires Valid() && a.Tick? && a.g < 2 && a.b < cfg.n
      ensures Proper(cfg) ==> !Mine(a.g).FoldsWrong(a.b, a.i)
    {
      hide Run; hide Step;
      if Proper(cfg) && Mine(a.g).FoldsWrong(a.b, a.i) {
        FoldsBothPartials(cfg, acts, a.g, a.b, a.i);
        assert false;
      }
    }

    lemma Counts(a: Action)
      requires Built() && Snapshot() == Run(cfg, acts)
      ensures forall g: nat :: g < 2 ==>
                WrongFolds(cfg, acts + [a], g) == WrongFolds(cfg, acts, g)
                    + if a.Tick? && a.g == g && a.b < cfg.n && Mine(g).FoldsWrong(a.b, a.i) then 1 else 0
    {
      hide Run; hide WrongFold;
      assert (acts + [a])[..|acts|] == acts;
    }

    lemma PublishesNoFold(a: Action)
      requires Built() && a.g < 2 && a.b < cfg.n && Publishes(Mine(a.g).blocks[a.b].pc)
      ensures !Mine(a.g).FoldsWrong(a.b, a.i)
    {
    }

    /** What the litmus compares at the end: once both kernels have exited, no fold
        was stale and the two result buffers are the same, each element the sum of
        the last round's two partials. */
    lemma Verdict()
      requires Valid() && Proper(cfg) && cfg.rounds >= 1 && Exited(left.Snapshot()) && Exited(right.Snapshot())
      ensures left.stale == right.stale == 0 && left.out[..] == right.out[..]
      ensures forall i :: 0 <= i < Size(cfg) ==> left.out[i] == Both(cfg, cfg.rounds, i)
    {
      hide Run; hide Both; hide Exited;
      ExitIsPast(cfg, acts, 0);
      ExitIsPast(cfg, acts, 1);
      ResultsIdentical(cfg, acts, 0, 0, cfg.rounds);
    }
  }
}
