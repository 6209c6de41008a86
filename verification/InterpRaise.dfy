/** When is the pass-end error sample uniform?  Exactly when no block raises, as
    the first one ever, before the first boundary of a later pass while a third
    block may still be at the sample of the pass before.  Otherwise some schedule
    lets that third block leave alone, and the raiser waits forever at its next
    boundary. */
module InterpRaise {
  import opened Arrivals
  import opened Words
  import Boundary
  import opened Program
  import opened Interp
  import opened InterpControl
  import opened InterpProgress
  import opened InterpResults

  // ---- the interpreter's boundary is the boundary machine -----------------------

  function GridOf(cfg: Config, s: State): Boundary.Grid
    requires Shaped(cfg, s)
  {
    Boundary.Grid(s.counter, s.epoch, seq(cfg.n, b requires 0 <= b < cfg.n => s.blocks[b].pc.Spin?), s.past.arr)
  }

  /** Every run of the interpreter, of any program, is a run of the boundary
      machine as far as counter, epochs, arrivals and spinning go. */
  lemma {:induction false} RefinesBoundary(cfg: Config, acts: seq<Action>) returns (moves: seq<Boundary.Move>)
    ensures Boundary.Run(cfg.n, moves) == GridOf(cfg, Run(cfg, acts))
  {
    if acts == [] {
      moves := [];
    } else {
      var s, a := Run(cfg, acts[..|acts| - 1]), acts[|acts| - 1];
      var before := RefinesBoundary(cfg, acts[..|acts| - 1]);
      if a.Tick? && a.b < cfg.n && s.blocks[a.b].pc.Spin? {
        moves := before + [Boundary.Poll(a.b)];
        PollMove(cfg, s, a.b);
      } else if a.Tick? && a.b < cfg.n && Step(cfg, s, a).blocks[a.b].pc.Spin? {
        moves := before + [Boundary.Arrive(a.b)];
        ArriveMove(cfg, s, a.b);
      } else {
        moves := before;
        NoMove(cfg, s, a);
        return;
      }
      assert moves[..|moves| - 1] == before;
    }
  }

  lemma PollMove(cfg: Config, s: State, b: nat)
    requires Shaped(cfg, s) && b < cfg.n && s.blocks[b].pc.Spin?
    ensures GridOf(cfg, BlockStep(cfg, s, b)) == Boundary.Step(cfg.n, GridOf(cfg, s), Boundary.Poll(b))
  {
    var s' := BlockStep(cfg, s, b);
    assert s'.blocks == s.blocks[b := s'.blocks[b]];
  }

  lemma ArriveMove(cfg: Config, s: State, b: nat)
    requires Shaped(cfg, s) && b < cfg.n && !s.blocks[b].pc.Spin? && BlockStep(cfg, s, b).blocks[b].pc.Spin?
    ensures GridOf(cfg, BlockStep(cfg, s, b)) == Boundary.Step(cfg.n, GridOf(cfg, s), Boundary.Arrive(b))
  {
    assert s.blocks[b].pc.Walk?;
    var i := s.blocks[b].pc.i;
    assert BoundaryAt(cfg, i) && s.blocks[b].pend == map[];
  }

  lemma NoMove(cfg: Config, s: State, a: Action)
    requires Shaped(cfg, s)
    requires a.Tick? && a.b < cfg.n ==> !s.blocks[a.b].pc.Spin? && !Step(cfg, s, a).blocks[a.b].pc.Spin?
    ensures GridOf(cfg, Step(cfg, s, a)) == GridOf(cfg, s)
  {
    var s' := Step(cfg, s, a);
    if a.Tick? && a.b < cfg.n {
      TickOthers(cfg, s, a.b);
      TickCounts(cfg, s, a.b);
    }
    assert GridOf(cfg, s').spinning == GridOf(cfg, s).spinning;
  }

  lemma TickCounts(cfg: Config, s: State, b: nat)
    requires Shaped(cfg, s) && b < cfg.n && !BlockStep(cfg, s, b).blocks[b].pc.Spin?
    ensures var s' := BlockStep(cfg, s, b);
            s'.counter == s.counter && s'.epoch == s.epoch && s'.past.arr == s.past.arr
  {
  }

  /** Block b waits at a boundary that block c, which has left, never reached. */
  predicate Stranded(s: State, b: nat, c: nat) {
    && b < |s.blocks| == |s.past.arr| && c < |s.blocks|
    && s.blocks[b].pc.Spin? && s.blocks[c].pc.Gone? && s.past.arr[b] > s.past.arr[c]
  }

  /** A stranded block waits forever, whatever happens next. */
  lemma {:induction false} WaitsForever(cfg: Config, acts: seq<Action>, more: seq<Action>, b: nat, c: nat)
    requires 1 <= cfg.n < HALF_WORD && Stranded(Run(cfg, acts), b, c)
    ensures Stranded(Run(cfg, acts + more), b, c)
    ensures Run(cfg, acts + more).blocks[b].pc == Run(cfg, acts).blocks[b].pc
  {
    if more == [] {
      assert acts + [] == acts;
    } else {
      var init, a := more[..|more| - 1], more[|more| - 1];
      WaitsForever(cfg, acts, init, b, c);
      assert acts + more == (acts + init) + [a];
      RunSnoc(cfg, acts + init, a);
      StillWaits(cfg, acts + init, a, b, c);
    }
  }

  lemma StillWaits(cfg: Config, acts: seq<Action>, a: Action, b: nat, c: nat)
    requires 1 <= cfg.n < HALF_WORD && Stranded(Run(cfg, acts), b, c)
    ensures Stranded(Step(cfg, Run(cfg, acts), a), b, c)
    ensures Step(cfg, Run(cfg, acts), a).blocks[b].pc == Run(cfg, acts).blocks[b].pc
  {
    hide Run;
    if a.Tick? && a.b < cfg.n {
      hide BlockStep;
      if a.b == b {
        PollFails(cfg, acts, b, c);
      } else {
        TickOthers(cfg, Run(cfg, acts), a.b);
        OthersArrivals(cfg, Run(cfg, acts), a.b);
      }
    }
  }

  lemma PollFails(cfg: Config, acts: seq<Action>, b: nat, c: nat)
    requires 1 <= cfg.n < HALF_WORD && Stranded(Run(cfg, acts), b, c)
    ensures BlockStep(cfg, Run(cfg, acts), b) == Run(cfg, acts)
  {
    var s := Run(cfg, acts);
    var moves := RefinesBoundary(cfg, acts);
    var g := GridOf(cfg, s);
    if !Boundary.Step(cfg.n, g, Boundary.Poll(b)).spinning[b] {
      Boundary.LeaveMeansAllArrived(cfg.n, moves, b);
      assert false;
    }
  }

  lemma OthersArrivals(cfg: Config, s: State, b: nat)
    requires Shaped(cfg, s) && b < cfg.n
    ensures BlockStep(cfg, s, b).past.arr == s.past.arr[b := BlockStep(cfg, s, b).past.arr[b]]
  {
  }
}
