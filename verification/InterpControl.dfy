/** What every reachable state of the interpreter satisfies: how far each block can
    be from the others, what the doorbell, done and error cells hold, and that all
    blocks leave the kernel at the same point. */
module InterpControl {
  import opened Arrivals
  import opened Words
  import opened Program
  import opened Interp

  /** Block b's share of instruction i is executed in pass p and raises. */
  predicate Raising(cfg: Config, p: nat, i: nat, b: nat) {
    && b < cfg.n && i < |cfg.prog| && IsOp(cfg.wired, cfg.prog[i])
    && InRange(cfg.prog[i], b) && cfg.raises(p, i, b) != 0
  }

  ghost predicate RaisedIn(cfg: Config, p: nat) {
    exists i: nat, b: nat :: Raising(cfg, p, i, b)
  }

  ghost predicate RaisedBefore(cfg: Config, p: nat) {
    exists q: nat :: 1 <= q < p && RaisedIn(cfg, q)
  }

  predicate NoBad(cfg: Config) {
    forall j :: 0 <= j < |cfg.prog| ==> !BadAt(cfg, j)
  }

  /** Besides block b and block 0 there is a block that may lag behind. */
  predicate Crowd(cfg: Config, b: nat) {
    cfg.n >= (if b == 0 then 2 else 3)
  }

  /** Block b raises, as the first one ever, before the first boundary of pass p:
      a third block may then still be at the sample that ends pass p - 1. */
  ghost predicate EarlyRaise(cfg: Config, p: nat, i: nat, b: nat) {
    && 2 <= p < DOORBELL_HALT && i < WindowEnd(cfg.wired, cfg.prog, 0) && Raising(cfg, p, i, b) && Crowd(cfg, b)
    && !RaisedBefore(cfg, p) && NoBad(cfg)
  }

  /** No such raise. */
  ghost predicate RaiseDiscipline(cfg: Config) {
    forall p: nat, i: nat, b: nat :: !EarlyRaise(cfg, p, i, b)
  }

  /** Raises that depend only on the instruction satisfy this: they already happen
      in pass 1. */
  lemma InstructionRaises(cfg: Config)
    requires forall p: nat, q: nat, i: nat, b: nat :: cfg.raises(p, i, b) == cfg.raises(q, i, b)
    ensures RaiseDiscipline(cfg)
  {
    forall p: nat, i: nat, b: nat ensures !EarlyRaise(cfg, p, i, b) {
      if EarlyRaise(cfg, p, i, b) {
        assert cfg.raises(p, i, b) == cfg.raises(1, i, b);
        assert Raising(cfg, 1, i, b) && RaisedIn(cfg, 1);
        assert false;
      }
    }
  }

  ghost predicate Sound(cfg: Config) {
    1 <= cfg.n < HALF_WORD && RaiseDiscipline(cfg)
  }

  function End(cfg: Config, ws: nat): nat
  {
    if ws <= |cfg.prog| then WindowEnd(cfg.wired, cfg.prog, ws) else ws
  }

  /** The facts about the shared cells that a block's invariant mentions: current
      pass and window, whether its number or the HALT value stands in the device
      doorbell, whether the host has rung it, and the device error cell. */
  datatype Env = Env(pass: nat, ws: nat, open: bool, shut: bool, rung: bool, halting: bool, err: bool)

  /** The host has raised its pass number but has not rung. */
  predicate Unrung(h: HostPc) {
    h.Staging? || h.Ringing? || h.Unfed? || h == Closed(true)
  }

  function EnvOf(s: State): Env {
    Env(s.past.pass, s.past.ws,
        s.bellDev == s.past.pass && s.past.pass < DOORBELL_HALT,
        s.bellDev == DOORBELL_HALT,
        s.hostPass == s.past.pass && !Unrung(s.host),
        s.bellHost == DOORBELL_HALT,
        s.errDev != 0)
  }

  /** Invariant of one block; `ahead` says that it has arrived at the boundary that
      closes the current window.  Otherwise it is either on its way into the window
      or inside it. */
  ghost predicate BlockInv(cfg: Config, e: Env, b: nat, blk: Block, ahead: bool) {
    var end := End(cfg, e.ws);
    blk.pass >= 1 &&
    if ahead then
      e.open && blk == Block(e.pass, Spin(end), map[]) && BoundaryAt(cfg, end)
    else match blk.pc
      case Spin(i) =>
        blk.pend == map[] &&
        (if e.ws > 0 then i + 1 == e.ws && blk.pass == e.pass
         else i == |cfg.prog| && blk.pass + 1 == e.pass)
      case Sample => blk.pend == map[] && e.ws == 0 && blk.pass + 1 == e.pass
      case Publish =>
        b == 0 && blk.pend == map[] && e.ws == 0 && blk.pass + 1 == e.pass && !RaisedBefore(cfg, e.pass)
      case Door => blk.pend == map[] && e.ws == 0 && blk.pass == e.pass && !RaisedBefore(cfg, e.pass)
      case Forward(v) =>
        && b == 0 && blk.pend == map[] && e.ws == 0 && blk.pass == e.pass && !RaisedBefore(cfg, e.pass)
        && (if v == DOORBELL_HALT then e.halting else v == e.pass && e.rung)
      case Walk(i, _) =>
        e.open && e.ws <= i <= end && blk.pass == e.pass
      case RaiseHost(i, code) => RaiseInv(cfg, e, b, blk.pass, i, code)
      case RaiseDev(i, code) => RaiseInv(cfg, e, b, blk.pass, i, code)
      case Gone(exit) =>
        match exit
        case Halted(p) => e.shut && e.ws == 0 && p == blk.pass == e.pass && blk.pend == map[]
            && !RaisedBefore(cfg, e.pass)
        case Errored(p) => e.err && e.ws == 0 && p == blk.pass && p + 1 == e.pass && blk.pend == map[]
            && RaisedBefore(cfg, e.pass)
        case BadKind(p, i) => e.open && p == blk.pass == e.pass && i == end && BadAt(cfg, i)
  }

  ghost predicate RaiseInv(cfg: Config, e: Env, b: nat, pass: nat, i: nat, code: nat) {
    var end := End(cfg, e.ws);
    && e.open && e.ws <= i <= end && pass == e.pass && code != 0
    && (if i == end then BadAt(cfg, i) else Raising(cfg, pass, i, b))
  }

  /** The instruction up to which block b's shares of the current pass are done. */
  function Reached(cfg: Config, e: Env, pc: Pc, ahead: bool): nat {
    if ahead then End(cfg, e.ws)
    else match pc
      case Walk(i, _) => i
      case RaiseHost(i, _) => i
      case RaiseDev(i, _) => i
      case Gone(exit) => if exit.BadKind? then exit.i else e.ws
      case _ => e.ws
  }

  predicate Ahead(s: State, b: nat)
    requires b < |s.past.arr|
  {
    s.past.arr[b] == s.past.lep + 1
  }

  ghost predicate Blocks(cfg: Config, s: State)
    requires Shaped(cfg, s)
  {
    forall b :: 0 <= b < cfg.n ==> BlockInv(cfg, EnvOf(s), b, s.blocks[b], Ahead(s, b))
  }

  ghost predicate Frame(cfg: Config, s: State)
    requires Shaped(cfg, s)
  {
    var P := s.past;
    && Counted(cfg.n, s.counter, s.epoch, P.arr, P.lep)
    && P.pass >= 1 && P.ws <= |cfg.prog|
    && (P.ws > 0 ==> EnvOf(s).open && BoundaryAt(cfg, P.ws - 1))
    && (forall j :: 0 <= j < P.ws ==> !BadAt(cfg, j))
    && (P.pass >= 2 ==> NoBad(cfg))
  }

  /** Doorbells, done cell and host. */
  ghost predicate Bells(cfg: Config, s: State)
    requires Shaped(cfg, s) && cfg.n >= 1
  {
    var P, e, blk := s.past, EnvOf(s), s.blocks[0];
    && s.hostPass < DOORBELL_HALT
    && (s.hostPass == P.pass || s.hostPass + 1 == P.pass)
    && (s.bellDev == P.pass - 1 || (e.open && e.rung) || (e.shut && blk.pc == Gone(Halted(P.pass))))
    && (e.open ==>
            e.rung && !blk.pc.Door? && !blk.pc.Forward? && !blk.pc.Sample? && !blk.pc.Publish? && blk.pass == P.pass)
    && (blk.pass == P.pass || blk.pass + 1 == P.pass)
    && s.done == (if blk.pass == P.pass then P.pass - 1 else P.pass - 2)
    && (s.hostPass == P.pass ==> blk.pass == P.pass)
    && s.bellHost == (if s.host.Closed? then DOORBELL_HALT
                      else if Unrung(s.host) then s.hostPass - 1 else s.hostPass)
    && (Unrung(s.host) ==> s.hostPass == P.pass && (s.bellDev == P.pass - 1 || s.host.Closed?))
    && (e.shut ==> s.host.Closed?)
    && (s.host.Idle? ==> s.hostPass + 1 == P.pass && s.done == s.hostPass)
  }

  /** Nobody can still be at the sample that ends the pass before. */
  predicate PastSample(s: State) {
    s.past.pass == 1 || s.past.ws > 0 || forall c :: 0 <= c < |s.blocks| ==> s.blocks[c].pass >= s.past.pass
  }

  ghost predicate Errors(cfg: Config, s: State)
    requires Shaped(cfg, s)
  {
    var P, e := s.past, EnvOf(s);
    && (RaisedBefore(cfg, P.pass) ==> s.errDev != 0)
    && (forall b, j ::
          0 <= b < cfg.n && 0 <= j < Reached(cfg, e, s.blocks[b].pc, Ahead(s, b)) && Raising(cfg, P.pass, j, b) ==>
            s.errDev != 0)
    && (e.open ==> !RaisedBefore(cfg, P.pass))
    && (s.errDev != 0 ==> s.errHost != 0)
    && (s.errHost != 0 && !RaisedBefore(cfg, P.pass) ==>
          e.open && PastSample(s) && (RaisedIn(cfg, P.pass) || BadAt(cfg, End(cfg, P.ws))))
    && (forall b :: 0 <= b < cfg.n && s.blocks[b].pc.RaiseDev? ==> s.errHost != 0)
  }

  ghost predicate Inv(cfg: Config, s: State)
  {
    && Shaped(cfg, s) && cfg.n >= 1
    && Frame(cfg, s) && Blocks(cfg, s) && Bells(cfg, s) && Errors(cfg, s)
  }

  lemma StartInv(cfg: Config)
    requires Sound(cfg)
    ensures Inv(cfg, Start(cfg))
  {
    SumZero(cfg.n);
    assert Start(cfg).past.arr[0] == 0;
  }

  // ---- each step keeps the invariant ---------------------------------------

  /** Only block b moved, to a place that its invariant allows; at most the error
      cell became set. */
  lemma OneBlock(cfg: Config, s: State, s': State, b: nat)
    requires Inv(cfg, s) && b < cfg.n && Shaped(cfg, s')
    requires s'.blocks == s.blocks[b := s'.blocks[b]]
    requires EnvOf(s') == EnvOf(s) || EnvOf(s') == EnvOf(s).(err := true)
    requires s'.past.arr == s.past.arr && s'.past.lep == s.past.lep
    requires s'.counter == s.counter && s'.epoch == s.epoch
    requires BlockInv(cfg, EnvOf(s), b, s'.blocks[b], Ahead(s, b))
    ensures Frame(cfg, s') && Blocks(cfg, s')
  {
    var e, e' := EnvOf(s), EnvOf(s');
    forall c | 0 <= c < cfg.n ensures BlockInv(cfg, e', c, s'.blocks[c], Ahead(s', c)) {
      assert BlockInv(cfg, e, c, s.blocks[c], Ahead(s, c));
      assert BlockInv(cfg, e, c, s'.blocks[c], Ahead(s, c));
      LaterKeeps(cfg, e, e', c, s'.blocks[c], Ahead(s, c));
    }
  }

  /** The error cell, the host's ring and its HALT only ever become set. */
  ghost predicate Later(e: Env, e': Env) {
    && e' == e.(err := e'.err, rung := e'.rung, halting := e'.halting)
    && (e.err ==> e'.err) && (e.rung ==> e'.rung) && (e.halting ==> e'.halting)
  }

  lemma LaterKeeps(cfg: Config, e: Env, e': Env, b: nat, blk: Block, ahead: bool)
    requires BlockInv(cfg, e, b, blk, ahead) && Later(e, e')
    ensures BlockInv(cfg, e', b, blk, ahead)
  {
  }

  /** Block b moved inside an open window: doorbells, done cell and host are as
      they were. */
  lemma OneBlockBells(cfg: Config, s: State, s': State, b: nat)
    requires Inv(cfg, s) && b < cfg.n && Shaped(cfg, s') && EnvOf(s).open
    requires s'.blocks == s.blocks[b := s'.blocks[b]] && s'.blocks[b].pass == s.blocks[b].pass
    requires var pc := s'.blocks[b].pc; !pc.Door? && !pc.Forward? && !pc.Sample? && !pc.Publish?
    requires EnvOf(s') == EnvOf(s)
    requires s'.bellDev == s.bellDev && s'.bellHost == s.bellHost && s'.done == s.done
    requires s'.host == s.host && s'.hostPass == s.hostPass
    ensures Bells(cfg, s')
  {
  }

  lemma OneBlockErrors(cfg: Config, s: State, s': State, b: nat)
    requires Inv(cfg, s) && b < cfg.n && Shaped(cfg, s')
    requires s'.blocks == s.blocks[b := s'.blocks[b]] && EnvOf(s') == EnvOf(s)
    requires s'.past.arr == s.past.arr && s'.past.lep == s.past.lep
    requires s'.errHost == s.errHost && s'.errDev == s.errDev && s'.blocks[b].pass >= s.blocks[b].pass
    requires forall j :: Reached(cfg, EnvOf(s), s.blocks[b].pc, Ahead(s, b)) <= j < Reached(cfg, EnvOf(s),
             s'.blocks[b].pc, Ahead(s, b))
               ==> (Raising(cfg, s.past.pass, j, b) ==> s.errDev != 0)
    requires s'.blocks[b].pc.RaiseDev? ==> s.errHost != 0
    ensures Errors(cfg, s')
  {
  }

  lemma TickDoor(cfg: Config, s: State, b: nat)
    requires Sound(cfg) && Inv(cfg, s) && b < cfg.n && s.blocks[b].pc.Door?
    ensures Inv(cfg, BlockStep(cfg, s, b))
  {
    assert BlockInv(cfg, EnvOf(s), b, s.blocks[b], Ahead(s, b));
    DoorValue(cfg, s, b);
    var s' := BlockStep(cfg, s, b);
    if s' != s {
      OneBlock(cfg, s, s', b);
      OneBlockErrors(cfg, s, s', b);
      if b == 0 { DoorBells(cfg, s, s'); } else { LaterDoorBells(cfg, s, s', b); }
    }
  }

  /** What a block at the door can read, and what it makes of it. */
  lemma DoorValue(cfg: Config, s: State, b: nat)
    requires Inv(cfg, s) && b < cfg.n && s.blocks[b].pc.Door?
    ensures var v := if b == 0 then s.bellHost else s.bellDev;
            KeepPolling(v, s.blocks[b].pass) || v == DOORBELL_HALT || v == s.past.pass < DOORBELL_HALT
  {
    assert BlockInv(cfg, EnvOf(s), b, s.blocks[b], Ahead(s, b));
    var v := if b == 0 then s.bellHost else s.bellDev;
    DoorArithmetic(v, s.past.pass);
  }

  lemma DoorArithmetic(v: u32, pass: nat)
    requires 1 <= pass <= DOORBELL_HALT
    ensures v == pass - 1 && v != DOORBELL_HALT ==> KeepPolling(v, pass)
    ensures v == pass && v != DOORBELL_HALT ==> !KeepPolling(v, pass)
  {
    if v == pass - 1 || v == pass { BehindIsLess(v, pass); }
  }

  lemma DoorBells(cfg: Config, s: State, s': State)
    requires Shaped(cfg, s) && Shaped(cfg, s') && 1 <= cfg.n && Bells(cfg, s) && s.past.pass >= 1
    requires s.blocks[0].pc.Door? && s'.blocks[0].pc.Forward? && s'.blocks[0].pass == s.blocks[0].pass
    requires s' == s.(blocks := s'.blocks)
    ensures Bells(cfg, s')
  {
  }

  lemma LaterDoorBells(cfg: Config, s: State, s': State, b: nat)
    requires Shaped(cfg, s) && Shaped(cfg, s') && 1 <= b < cfg.n && Bells(cfg, s) && s.past.pass >= 1
    requires s' == s.(blocks := s.blocks[b := s'.blocks[b]])
    ensures Bells(cfg, s')
  {
  }

  lemma TickForward(cfg: Config, s: State, b: nat)
    requires Sound(cfg) && Inv(cfg, s) && b < cfg.n && s.blocks[b].pc.Forward?
    ensures Inv(cfg, BlockStep(cfg, s, b))
  {
    assert BlockInv(cfg, EnvOf(s), b, s.blocks[b], Ahead(s, b));
    var s' := BlockStep(cfg, s, b);
    forall c | 0 <= c < cfg.n ensures BlockInv(cfg, EnvOf(s'), c, s'.blocks[c], Ahead(s', c)) {
      assert BlockInv(cfg, EnvOf(s), c, s.blocks[c], Ahead(s, c));
    }
  }

  lemma TickRaiseHost(cfg: Config, s: State, b: nat)
    requires Sound(cfg) && Inv(cfg, s) && b < cfg.n && s.blocks[b].pc.RaiseHost?
    ensures Inv(cfg, BlockStep(cfg, s, b))
  {
    assert BlockInv(cfg, EnvOf(s), b, s.blocks[b], Ahead(s, b));
    RaiseIsLate(cfg, s, b);
    var s' := BlockStep(cfg, s, b);
    OneBlock(cfg, s, s', b);
  }

  lemma TickRaiseDev(cfg: Config, s: State, b: nat)
    requires Sound(cfg) && Inv(cfg, s) && b < cfg.n && s.blocks[b].pc.RaiseDev?
    ensures Inv(cfg, BlockStep(cfg, s, b))
  {
    assert BlockInv(cfg, EnvOf(s), b, s.blocks[b], Ahead(s, b));
    RaiseIsLate(cfg, s, b);
    var s' := BlockStep(cfg, s, b);
    OneBlock(cfg, s, s', b);
  }

  /** When a block raises, nobody is still sampling the pass before. */
  lemma RaiseIsLate(cfg: Config, s: State, b: nat)
    requires Sound(cfg) && Inv(cfg, s) && b < cfg.n && (s.blocks[b].pc.RaiseHost? || s.blocks[b].pc.RaiseDev?)
    ensures PastSample(s)
    ensures RaisedIn(cfg, s.past.pass) || BadAt(cfg, End(cfg, s.past.ws))
    ensures EnvOf(s).open
  {
    assert BlockInv(cfg, EnvOf(s), b, s.blocks[b], Ahead(s, b));
    assert RaiseInv(cfg, EnvOf(s), b, s.blocks[b].pass, s.blocks[b].pc.i, s.blocks[b].pc.code);
    var i := s.blocks[b].pc.i;
    if i != End(cfg, s.past.ws) {
      assert Raising(cfg, s.past.pass, i, b);
      if s.past.pass >= 2 && s.past.ws == 0 {
        assert !EarlyRaise(cfg, s.past.pass, i, b);
        assert !Crowd(cfg, b);
        forall c | 0 <= c < cfg.n ensures s.blocks[c].pass >= s.past.pass {
          assert c == 0 || c == b;
        }
      }
    }
  }

  lemma TickSpin(cfg: Config, s: State, b: nat)
    requires Sound(cfg) && Inv(cfg, s) && b < cfg.n && s.blocks[b].pc.Spin?
    ensures Inv(cfg, BlockStep(cfg, s, b))
  {
    assert BlockInv(cfg, EnvOf(s), b, s.blocks[b], Ahead(s, b));
    PollExact(cfg.n, s.counter, s.epoch, s.past.arr, s.past.lep, b);
    var s' := BlockStep(cfg, s, b);
    if s' != s {
      OneBlock(cfg, s, s', b);
      OneBlockErrors(cfg, s, s', b);
    }
  }

  lemma TickSample(cfg: Config, s: State, b: nat)
    requires Sound(cfg) && Inv(cfg, s) && b < cfg.n && (s.blocks[b].pc.Sample? || s.blocks[b].pc.Publish?)
    ensures Inv(cfg, BlockStep(cfg, s, b))
  {
    assert BlockInv(cfg, EnvOf(s), b, s.blocks[b], Ahead(s, b));
    var s' := BlockStep(cfg, s, b);
    OneBlock(cfg, s, s', b);
    OneBlockErrors(cfg, s, s', b);
  }

  /** Block b made a move inside the open window: its record and its log are all
      that changed. */
  ghost predicate MovedInside(cfg: Config, s: State, s': State, b: nat)
    requires Shaped(cfg, s) && b < cfg.n && s.blocks[b].pc.Walk? && Shaped(cfg, s')
  {
    var i, blk' := s.blocks[b].pc.i, s'.blocks[b];
    && EnvOf(s).open && !Ahead(s, b)
    && s' == s.(blocks := s.blocks[b := blk'], past := s.past.(log := s'.past.log))
    && BlockInv(cfg, EnvOf(s), b, blk', false) && blk'.pass == s.blocks[b].pass
    && (blk'.pc == Walk(i + 1, []) || (blk'.pc.Walk? && blk'.pc.i == i) || (blk'.pc.RaiseHost? && blk'.pc.i == i)
        || blk'.pc == Gone(BadKind(s.past.pass, i)))
    && (blk'.pc == Walk(i + 1, []) ==> !Raising(cfg, s.past.pass, i, b))
  }

  lemma WalkMoves(cfg: Config, s: State, b: nat)
    requires Shaped(cfg, s) && b < cfg.n && s.blocks[b].pc.Walk? && s.past.ws <= |cfg.prog|
    requires BlockInv(cfg, EnvOf(s), b, s.blocks[b], Ahead(s, b))
    requires !BoundaryAt(cfg, s.blocks[b].pc.i)
    ensures MovedInside(cfg, s, WalkStep(cfg, s, b, s.blocks[b].pc.i, s.blocks[b].pc.hist), b)
  {
    var i, hist, end := s.blocks[b].pc.i, s.blocks[b].pc.hist, End(cfg, s.past.ws);
    assert i < |cfg.prog|;
    if i < end {
      assert !Edge(cfg.wired, cfg.prog, i);
      assert !BadAt(cfg, i);
      if InRange(cfg.prog[i], b) {
        OpMoves(cfg, s, b);
      }
    }
  }

  lemma OpMoves(cfg: Config, s: State, b: nat)
    requires Shaped(cfg, s) && b < cfg.n && s.blocks[b].pc.Walk? && s.past.ws <= |cfg.prog|
    requires BlockInv(cfg, EnvOf(s), b, s.blocks[b], Ahead(s, b)) && s.blocks[b].pc.i < End(cfg, s.past.ws)
    requires IsOp(cfg.wired, cfg.prog[s.blocks[b].pc.i]) && InRange(cfg.prog[s.blocks[b].pc.i], b)
    ensures MovedInside(cfg, s, OpStep(cfg, s, b, s.blocks[b].pc.i, s.blocks[b].pc.hist), b)
  {
  }

  lemma MoveKeepsInv(cfg: Config, s: State, s': State, b: nat)
    requires Inv(cfg, s) && b < cfg.n && s.blocks[b].pc.Walk? && Shaped(cfg, s') && MovedInside(cfg, s, s', b)
    ensures Inv(cfg, s')
  {
    assert EnvOf(s') == EnvOf(s);
    OneBlock(cfg, s, s', b);
    OneBlockBells(cfg, s, s', b);
    OneBlockErrors(cfg, s, s', b);
  }

  /** A block that arrives is at the end of the current window and is the first
      time there. */
  lemma ArrivalPlace(cfg: Config, s: State, b: nat)
    requires Inv(cfg, s) && b < cfg.n && s.blocks[b].pc.Walk?
    requires BoundaryAt(cfg, s.blocks[b].pc.i) && s.blocks[b].pend == map[]
    ensures s.blocks[b].pc.i == End(cfg, s.past.ws) && s.blocks[b].pass == s.past.pass >= 1
    ensures !Ahead(s, b) && s.past.arr[b] == s.past.lep && EnvOf(s).open
  {
    assert BlockInv(cfg, EnvOf(s), b, s.blocks[b], Ahead(s, b));
    var i := s.blocks[b].pc.i;
    assert i < End(cfg, s.past.ws) ==> !Edge(cfg.wired, cfg.prog, i);
  }

  /** The state after block b's arrival at the boundary at i, given the history
      that goes with it. */
  ghost predicate Arrived(cfg: Config, s: State, s': State, b: nat, i: nat)
    requires Shaped(cfg, s) && Shaped(cfg, s') && b < cfg.n
  {
    && s'.blocks == s.blocks[b := Block(s.past.pass, Spin(i), map[])]
    && s'.past.arr == s.past.arr[b := s.past.lep + 1]
    && s'.bellDev == s.bellDev && s'.bellHost == s.bellHost && s'.done == s.done
    && s'.errDev == s.errDev && s'.errHost == s.errHost
    && s'.host == s.host && s'.hostPass == s.hostPass
  }

  lemma EarlyArrival(cfg: Config, s: State, s': State, b: nat)
    requires Inv(cfg, s) && b < cfg.n && Shaped(cfg, s') && Arrived(cfg, s, s', b, End(cfg, s.past.ws))
    requires s'.past.lep == s.past.lep && EnvOf(s') == EnvOf(s) && EnvOf(s).open
    requires s.blocks[b].pc.Walk? && s.blocks[b].pc.i == End(cfg, s.past.ws) && s.blocks[b].pass == s.past.pass
    requires BoundaryAt(cfg, End(cfg, s.past.ws)) && !Ahead(s, b)
    requires Counted(cfg.n, s'.counter, s'.epoch, s'.past.arr, s'.past.lep)
    ensures Inv(cfg, s')
  {
    var e := EnvOf(s);
    forall c | 0 <= c < cfg.n
      ensures BlockInv(cfg, e, c, s'.blocks[c], Ahead(s', c))
      ensures Reached(cfg, e, s'.blocks[c].pc, Ahead(s', c)) == Reached(cfg, e, s.blocks[c].pc, Ahead(s, c))
    {
      assert BlockInv(cfg, e, c, s.blocks[c], Ahead(s, c));
    }
    OneBlockBells(cfg, s, s', b);
    EarlyArrivalErrors(cfg, s, s', b);
  }

  lemma EarlyArrivalErrors(cfg: Config, s: State, s': State, b: nat)
    requires Inv(cfg, s) && b < cfg.n && Shaped(cfg, s') && EnvOf(s') == EnvOf(s)
    requires s'.blocks == s.blocks[b := s'.blocks[b]] && !s'.blocks[b].pc.RaiseDev?
             && s'.blocks[b].pass >= s.blocks[b].pass
    requires s'.errHost == s.errHost && s'.errDev == s.errDev
    requires forall c :: 0 <= c < cfg.n ==>
               Reached(cfg, EnvOf(s'), s'.blocks[c].pc, Ahead(s', c))
                   == Reached(cfg, EnvOf(s), s.blocks[c].pc, Ahead(s, c))
    ensures Errors(cfg, s')
  {
  }

  /** The last arrival opens the next window, or the next pass. */
  lemma LastArrival(cfg: Config, s: State, s': State, b: nat, i: nat)
    requires Inv(cfg, s) && b < cfg.n && Shaped(cfg, s') && i == End(cfg, s.past.ws) && Arrived(cfg, s, s', b, i)
    requires s.blocks[b].pc.Walk? && s.blocks[b].pc.i == i && s.blocks[b].pass == s.past.pass
    requires BoundaryAt(cfg, i) && !Ahead(s, b) && EnvOf(s).open
    requires AllAt(s'.past.arr, s.past.lep + 1) && s'.past.lep == s.past.lep + 1
    requires Counted(cfg.n, s'.counter, s'.epoch, s'.past.arr, s'.past.lep)
    requires if i == |cfg.prog| then s'.past.pass == s.past.pass + 1 && s'.past.ws == 0
             else s'.past.pass == s.past.pass && s'.past.ws == i + 1
    ensures Inv(cfg, s')
  {
    forall c | 0 <= c < cfg.n
      ensures s'.blocks[c] == Block(s.past.pass, Spin(i), map[]) && !Ahead(s', c)
      ensures Reached(cfg, EnvOf(s), s.blocks[c].pc, Ahead(s, c)) == i
    {
      assert BlockInv(cfg, EnvOf(s), c, s.blocks[c], Ahead(s, c));
      assert c != b ==> s.past.arr[c] == s'.past.arr[c];
    }
    LastArrivalFrame(cfg, s, s', i);
    LastArrivalBlocks(cfg, s', i);
    LastArrivalErrors(cfg, s, s', i);
  }

  lemma LastArrivalBlocks(cfg: Config, s': State, i: nat)
    requires Shaped(cfg, s') && s'.past.pass >= 1
    requires forall c :: 0 <= c < cfg.n ==>
               s'.blocks[c].pc == Spin(i) && s'.blocks[c].pend == map[] && s'.blocks[c].pass >= 1 && !Ahead(s', c)
    requires if i == |cfg.prog| then s'.past.ws == 0 && forall c :: 0 <= c < cfg.n ==>
             s'.blocks[c].pass + 1 == s'.past.pass
             else s'.past.ws == i + 1 && forall c :: 0 <= c < cfg.n ==> s'.blocks[c].pass == s'.past.pass
    ensures Blocks(cfg, s')
  {
  }

  lemma LastArrivalFrame(cfg: Config, s: State, s': State, i: nat)
    requires Inv(cfg, s) && Shaped(cfg, s') && i == End(cfg, s.past.ws) && BoundaryAt(cfg, i) && EnvOf(s).open
    requires Counted(cfg.n, s'.counter, s'.epoch, s'.past.arr, s'.past.lep)
    requires s'.bellDev == s.bellDev && s'.bellHost == s.bellHost && s'.done == s.done
    requires s'.host == s.host && s'.hostPass == s.hostPass
    requires s'.blocks[0] == Block(s.past.pass, Spin(i), map[])
    requires if i == |cfg.prog| then s'.past.pass == s.past.pass + 1 && s'.past.ws == 0
             else s'.past.pass == s.past.pass && s'.past.ws == i + 1
    ensures Frame(cfg, s') && Bells(cfg, s')
  {
    forall j | 0 <= j < i ensures !BadAt(cfg, j) {
      assert j >= s.past.ws ==> !Edge(cfg.wired, cfg.prog, j);
    }
  }

  lemma LastArrivalErrors(cfg: Config, s: State, s': State, i: nat)
    requires Inv(cfg, s) && Shaped(cfg, s') && i == End(cfg, s.past.ws) && BoundaryAt(cfg, i) && EnvOf(s).open
    requires s'.errDev == s.errDev && s'.errHost == s.errHost && s'.bellDev == s.bellDev
    requires forall c :: 0 <= c < cfg.n ==> s'.blocks[c].pc == Spin(i) && !Ahead(s', c)
    requires forall c :: 0 <= c < cfg.n ==> Reached(cfg, EnvOf(s), s.blocks[c].pc, Ahead(s, c)) == i
    requires if i == |cfg.prog| then s'.past.pass == s.past.pass + 1 && s'.past.ws == 0
             else s'.past.pass == s.past.pass && s'.past.ws == i + 1
    ensures Errors(cfg, s')
  {
    var p := s.past.pass;
    if i < |cfg.prog| {
      forall c, j | 0 <= c < cfg.n && 0 <= j < i + 1 && Raising(cfg, p, j, c) ensures s'.errDev != 0 {
        assert j < i;
      }
    } else {
      if RaisedBefore(cfg, p + 1) {
        var q: nat :| 1 <= q < p + 1 && RaisedIn(cfg, q);
        assert q < p ==> RaisedBefore(cfg, p);
        if q == p {
          var j: nat, c: nat :| Raising(cfg, p, j, c);
          assert s.errDev != 0;
        }
      }
      if s.errHost != 0 {
        assert RaisedIn(cfg, p);
        assert RaisedBefore(cfg, p + 1);
      }
    }
  }

  lemma TickArrive(cfg: Config, s: State, b: nat)
    requires Sound(cfg) && Inv(cfg, s) && b < cfg.n && s.blocks[b].pc.Walk?
    requires BoundaryAt(cfg, s.blocks[b].pc.i) && s.blocks[b].pend == map[]
    ensures Inv(cfg, BlockStep(cfg, s, b))
  {
    ArrivalPlace(cfg, s, b);
    ArriveCounted(cfg.n, s.counter, s.epoch, s.past.arr, s.past.lep, b);
    var i, s' := s.blocks[b].pc.i, ArriveAt(cfg, s, b, s.blocks[b].pc.i);
    assert Arrived(cfg, s, s', b, i);
    hide Arrived; hide BlockInv; hide Bells; hide Errors;
    if s'.past.lep == s.past.lep {
      EarlyArrival(cfg, s, s', b);
    } else {
      LastArrival(cfg, s, s', b, i);
    }
  }

  lemma TickKeepsInv(cfg: Config, s: State, b: nat)
    requires Sound(cfg) && Inv(cfg, s) && b < cfg.n
    ensures Inv(cfg, BlockStep(cfg, s, b))
  {
    match s.blocks[b].pc
    case Door => TickDoor(cfg, s, b);
    case Forward(_) => TickForward(cfg, s, b);
    case Walk(i, _) =>
      if !BoundaryAt(cfg, i) {
        assert BlockInv(cfg, EnvOf(s), b, s.blocks[b], Ahead(s, b));
        WalkMoves(cfg, s, b);
        MoveKeepsInv(cfg, s, BlockStep(cfg, s, b), b);
      }
      else if s.blocks[b].pend == map[] { TickArrive(cfg, s, b); }
    case RaiseHost(_, _) => TickRaiseHost(cfg, s, b);
    case RaiseDev(_, _) => TickRaiseDev(cfg, s, b);
    case Spin(_) => TickSpin(cfg, s, b);
    case Sample => TickSample(cfg, s, b);
    case Publish => TickSample(cfg, s, b);
    case Gone(_) =>
  }

  lemma DrainKeepsInv(cfg: Config, s: State, b: nat, c: Cell)
    requires Sound(cfg) && Inv(cfg, s)
    ensures Inv(cfg, Step(cfg, s, Drain(b, c)))
  {
    var s' := Step(cfg, s, Drain(b, c));
    if s' != s {
      assert BlockInv(cfg, EnvOf(s), b, s.blocks[b], Ahead(s, b));
      OneBlock(cfg, s, s', b);
      OneBlockErrors(cfg, s, s', b);
    }
  }

  lemma HostKeepsInv(cfg: Config, s: State, a: Action)
    requires Sound(cfg) && Inv(cfg, s) && (a.HostTick? || a.Shutdown?)
    ensures Inv(cfg, Step(cfg, s, a))
  {
    HostBells(cfg, s, a);
    HostBlocks(cfg, s, Step(cfg, s, a));
  }

  lemma HostBlocks(cfg: Config, s: State, s': State)
    requires Inv(cfg, s) && Shaped(cfg, s') && Later(EnvOf(s), EnvOf(s')) && s'.blocks == s.blocks
    requires s'.errHost == s.errHost && s'.errDev == s.errDev
    requires s'.past == s.past.(base := s'.past.base) && s'.counter == s.counter && s'.epoch == s.epoch
    requires Bells(cfg, s')
    ensures Inv(cfg, s')
  {
    var e, e' := EnvOf(s), EnvOf(s');
    forall c | 0 <= c < cfg.n
      ensures BlockInv(cfg, e', c, s'.blocks[c], Ahead(s', c))
      ensures Reached(cfg, e', s'.blocks[c].pc, Ahead(s', c)) == Reached(cfg, e, s.blocks[c].pc, Ahead(s, c))
    {
      assert BlockInv(cfg, e, c, s.blocks[c], Ahead(s, c));
      LaterKeeps(cfg, e, e', c, s.blocks[c], Ahead(s, c));
    }
    HostErrors(cfg, s, s');
  }

  lemma HostBells(cfg: Config, s: State, a: Action)
    requires Shaped(cfg, s) && 1 <= cfg.n && Bells(cfg, s) && (a.HostTick? || a.Shutdown?)
    requires s.past.pass >= 1
    ensures Bells(cfg, Step(cfg, s, a)) && Later(EnvOf(s), EnvOf(Step(cfg, s, a)))
  {
    hide BlockStep;
  }

  lemma HostErrors(cfg: Config, s: State, s': State)
    requires Inv(cfg, s) && Shaped(cfg, s') && Later(EnvOf(s), EnvOf(s')) && s'.blocks == s.blocks
    requires s'.errHost == s.errHost && s'.errDev == s.errDev
    requires forall c :: 0 <= c < cfg.n ==>
               Reached(cfg, EnvOf(s'), s'.blocks[c].pc, Ahead(s', c))
                   == Reached(cfg, EnvOf(s), s.blocks[c].pc, Ahead(s, c))
    ensures Errors(cfg, s')
  {
  }

  lemma StepKeepsInv(cfg: Config, s: State, a: Action)
    requires Sound(cfg) && Inv(cfg, s)
    ensures Inv(cfg, Step(cfg, s, a))
  {
    match a
    case Tick(b) => if b < cfg.n { TickKeepsInv(cfg, s, b); }
    case Drain(b, c) => DrainKeepsInv(cfg, s, b, c);
    case HostTick(_) => HostKeepsInv(cfg, s, a);
    case Shutdown => HostKeepsInv(cfg, s, a);
  }

  lemma {:induction false} RunInv(cfg: Config, acts: seq<Action>)
    requires Sound(cfg)
    ensures Inv(cfg, Run(cfg, acts))
  {
    if acts == [] {
      StartInv(cfg);
    } else {
      RunInv(cfg, acts[..|acts| - 1]);
      StepKeepsInv(cfg, Run(cfg, acts[..|acts| - 1]), acts[|acts| - 1]);
    }
  }
}
