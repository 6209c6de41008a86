/** The persistent interpreter as a state machine: n blocks, the host, and the
    cells they share.  One step is one access to a shared cell (or one purely
    local move) by one actor; a run is any sequence of steps, so every
    interleaving is covered.  Stores made by ops wait in their block until they
    drain, in any order; only the release in front of a boundary arrival is known
    to have forced them out.  A poll that does not succeed leaves the state as it
    is. */
module Interp {
  import opened Arrivals
  import opened Words
  import opened Program

  const DOORBELL_HALT: u32 := 0xFFFF_FFFF
  const ERR_BAD_KIND: nat := 1
  const ERR_UNWIRED_KIND: nat := 2

  /** `inputs(p)` are the cells the host writes before it rings pass p;
      `raises(p, i, b)` is the code that block b's share of instruction i raises in
      pass p, zero for none. */
  datatype Config = Config(n: nat, prog: Prog, wired: Registry, init: Mem,
                           inputs: nat -> Mem, raises: (nat, nat, nat) -> nat)

  datatype Exit = Halted(pass: nat) | Errored(pass: nat) | BadKind(pass: nat, i: nat)

  datatype Pc =
    | Door                            // polling the doorbell at the pass top
    | Forward(v: u32)                 // block 0: about to pass the value on
    | Walk(i: nat, hist: seq<Val>)    // at instruction i, with these accesses made
    | RaiseHost(i: nat, code: nat)    // about to store the host error cell
    | RaiseDev(i: nat, code: nat)     // about to store the device error cell
    | Spin(i: nat)                    // arrived at the boundary at i, polling
    | Sample                          // past the epilogue, about to read the error cell
    | Publish                         // block 0: about to store the done cell
    | Gone(exit: Exit)

  datatype Block = Block(pass: nat, pc: Pc, pend: Mem)

  datatype Status = RunErr | RunTimeout

  /** Where the host is in run_pass; `Idle` after RUN_OK or before the first pass,
      `Unfed` after its input copy failed, which it also reports as RUN_TIMEOUT. */
  datatype HostPc =
    Idle | Staging | Ringing | PollErr | PollDone | Unfed | Stopped(status: Status) | Closed(unfed: bool)

  /** History, read by no step: arrivals per block, boundaries completed, the pass
      and window that the last completed boundary opened and memory at that
      moment, and which (pass, instruction) pairs each block has executed. */
  datatype Past = Past(arr: seq<nat>, lep: nat, pass: nat, ws: nat, base: Mem, log: seq<seq<(nat, nat)>>)

  datatype State = State(mem: Mem, counter: u32, bellHost: u32, bellDev: u32, done: u32,
                         errHost: nat, errDev: nat, epoch: seq<u32>, blocks: seq<Block>,
                         host: HostPc, hostPass: nat, past: Past)

  /** Tick: a block's next step.  Drain: one waiting store reaches memory.
      HostTick: the host's next step, `bad` telling whether its input copy fails or
      its deadline has passed.  Shutdown: the client calls host_shutdown between
      passes. */
  datatype Action = Tick(b: nat) | Drain(b: nat, c: Cell) | HostTick(bad: bool) | Shutdown

  function Start(cfg: Config): State {
    State(cfg.init, 0, 0, 0, 0, 0, 0, seq(cfg.n, _ => 0), seq(cfg.n, _ => Block(1, Door, map[])),
          Idle, 0, Past(seq(cfg.n, _ => 0), 0, 1, 0, cfg.init, seq(cfg.n, _ => [])))
  }

  predicate Shaped(cfg: Config, s: State) {
    |s.epoch| == |s.blocks| == |s.past.arr| == |s.past.log| == cfg.n
  }

  predicate BadAt(cfg: Config, i: nat) {
    i < |cfg.prog| && Bad(cfg.wired, cfg.prog[i])
  }

  /** A boundary of the program, or the epilogue boundary after its end. */
  predicate BoundaryAt(cfg: Config, i: nat) {
    i == |cfg.prog| || (i < |cfg.prog| && cfg.prog[i].kind == OP_BOUNDARY)
  }

  /** Neither a HALT nor the number of a pass this block may start. */
  predicate KeepPolling(v: u32, pass: nat) {
    v != DOORBELL_HALT && Behind(v, Wrap(pass))
  }

  function SetPc(s: State, b: nat, pc: Pc): State
    requires b < |s.blocks|
  {
    s.(blocks := s.blocks[b := s.blocks[b].(pc := pc)])
  }

  /** To the top of the next pass. */
  function NextPass(s: State, b: nat): State
    requires b < |s.blocks|
  {
    s.(blocks := s.blocks[b := s.blocks[b].(pass := s.blocks[b].pass + 1, pc := Door)])
  }

  function Took(b: nat, v: u32, s: State): State
    requires b < |s.blocks|
  {
    SetPc(s, b, if v == DOORBELL_HALT then Gone(Halted(s.blocks[b].pass)) else Walk(0, []))
  }

  /** The arrival half of a crossing: it waits until the block's stores are out. */
  function ArriveAt(cfg: Config, s: State, b: nat, i: nat): State
    requires Shaped(cfg, s) && b < cfg.n
  {
    if s.blocks[b].pend != map[] then s
    else
      var lep' := NextLep(s.past.arr, b, s.past.lep);
      var past' := s.past.(arr := s.past.arr[b := s.past.arr[b] + 1], lep := lep');
      SetPc(s, b, Spin(i)).(
        counter := Succ(s.counter),
        epoch := s.epoch[b := Succ(s.epoch[b])],
        past := if lep' == s.past.lep then past'
                else if i == |cfg.prog| then past'.(pass := s.past.pass + 1, ws := 0, base := s.mem)
                else past'.(ws := i + 1, base := s.mem))
  }

  /** One access of the op at i by a block inside its range. */
  function OpStep(cfg: Config, s: State, b: nat, i: nat, hist: seq<Val>): State
    requires Shaped(cfg, s) && b < cfg.n && i < |cfg.prog|
  {
    var blk := s.blocks[b];
    match NextAct(cfg.prog[i], b, hist)
    case Load(c) => SetPc(s, b, Walk(i, hist + [Get(View(s.mem, blk.pend), c)]))
    case Store(c, v) =>
      s.(blocks := s.blocks[b := blk.(pc := Walk(i, hist + [v]), pend := blk.pend[c := v])])
    case Ret =>
      var code := cfg.raises(blk.pass, i, b);
      SetPc(s, b, if code != 0 then RaiseHost(i, code) else Walk(i + 1, [])).(
        past := s.past.(log := s.past.log[b := s.past.log[b] + [(blk.pass, i)]]))
  }

  function WalkStep(cfg: Config, s: State, b: nat, i: nat, hist: seq<Val>): State
    requires Shaped(cfg, s) && b < cfg.n
  {
    if BoundaryAt(cfg, i) then ArriveAt(cfg, s, b, i)
    else if i > |cfg.prog| then s
    else if BadAt(cfg, i) then
      SetPc(s, b, if b == 0 then RaiseHost(i, if cfg.prog[i].kind >= OP_KIND_COUNT then ERR_BAD_KIND
          else ERR_UNWIRED_KIND)
                  else Gone(BadKind(s.blocks[b].pass, i)))
    else if !InRange(cfg.prog[i], b) then SetPc(s, b, Walk(i + 1, []))
    else OpStep(cfg, s, b, i, hist)
  }

  function BlockStep(cfg: Config, s: State, b: nat): State
    requires Shaped(cfg, s) && b < cfg.n
  {
    var blk := s.blocks[b];
    match blk.pc
    case Door =>
      var v := if b == 0 then s.bellHost else s.bellDev;
      if KeepPolling(v, blk.pass) then s
      else if b == 0 then SetPc(s, b, Forward(v))
      else Took(b, v, s)
    case Forward(v) => Took(b, v, s).(bellDev := v)
    case Walk(i, hist) => WalkStep(cfg, s, b, i, hist)
    case RaiseHost(i, code) => SetPc(s, b, RaiseDev(i, code)).(errHost := code)
    case RaiseDev(i, code) =>
      SetPc(s, b, if BadAt(cfg, i) then Gone(BadKind(blk.pass, i)) else Walk(i + 1, [])).(errDev := code)
    case Spin(i) =>
      if Behind(s.counter, Target(s.epoch[b], cfg.n)) then s
      else SetPc(s, b, if i == |cfg.prog| then Sample else Walk(i + 1, []))
    case Sample =>
      if s.errDev != 0 then SetPc(s, b, Gone(Errored(blk.pass)))
      else if b == 0 then SetPc(s, b, Publish)
      else NextPass(s, b)
    case Publish => NextPass(s, b).(done := Wrap(blk.pass))
    case Gone(_) => s
  }

  /** host_run_pass, one access at a time.  The client calls it again only after
      RUN_OK, and pass numbers stay below the HALT value. */
  function HostStep(cfg: Config, s: State, bad: bool): State {
    match s.host
    case Idle =>
      if s.errHost != 0 then s.(host := Stopped(RunErr))
      else if s.hostPass + 1 >= DOORBELL_HALT then s
      else s.(host := Staging, hostPass := s.hostPass + 1)
    case Staging =>
      if bad then s.(host := Unfed)
      else
        var m := s.mem + cfg.inputs(s.hostPass);
        s.(host := Ringing, mem := m, past := s.past.(base := m))
    case Ringing => s.(host := PollErr, bellHost := Wrap(s.hostPass))
    case PollErr => s.(host := if s.errHost != 0 then Stopped(RunErr) else PollDone)
    case PollDone =>
      s.(host := if s.done == Wrap(s.hostPass) then Idle
                 else if bad then Stopped(RunTimeout)
                 else PollErr)
    case _ => s
  }

  function Step(cfg: Config, s: State, a: Action): (s': State)
    requires Shaped(cfg, s)
    ensures Shaped(cfg, s')
  {
    match a
    case Tick(b) => if b < cfg.n then BlockStep(cfg, s, b) else s
    case Drain(b, c) =>
      if b < cfg.n && c in s.blocks[b].pend then
        var blk := s.blocks[b];
        s.(mem := s.mem[c := blk.pend[c]], blocks := s.blocks[b := blk.(pend := blk.pend - {c})])
      else s
    case HostTick(bad) => HostStep(cfg, s, bad)
    case Shutdown =>
      if s.host == Idle || s.host.Unfed? || s.host.Stopped?
      then s.(host := Closed(s.host.Unfed?), bellHost := DOORBELL_HALT) else s
  }

  function Run(cfg: Config, acts: seq<Action>): (s: State)
    ensures Shaped(cfg, s)
  {
    if acts == [] then Start(cfg)
    else Step(cfg, Run(cfg, acts[..|acts| - 1]), acts[|acts| - 1])
  }
}
