/** The kernel and its host as the code has them: one object holds the shared cells,
    the blocks' epochs and program counters, and each access updates it in place.
    Every method is one step of the machine of module Interp, and run_pass is the
    host's own loop with the blocks' steps in between. */
module InterpCode {
  import opened Arrivals
  import opened Words
  import opened Program
  import opened Interp
  import opened InterpControl
  import opened InterpData
  import opened InterpResults
  import InterpProgress

  datatype RunStatus = RUN_OK | RUN_ERR | RUN_TIMEOUT

  /** What the blocks do between two accesses of the host. */
  predicate Batch(batch: seq<Action>) {
    forall j :: 0 <= j < |batch| ==> InterpProgress.BlockAction(batch[j])
  }

  ghost predicate BlocksOnly(between: nat -> seq<Action>) {
    forall k: nat :: Batch(between(k))
  }

  /** One call of run_pass: the steps made before it, those of the blocks between its
      accesses, whether its input copy fails, and its deadline in polls. */
  datatype Call = Call(start: seq<Action>, between: nat -> seq<Action>, failed: bool, deadline: nat)

  /** All steps up to and with its n-th access.  The accesses are the first test of the
      error cell, the input copy, the ring, and then for each poll k the error cell
      (access 3 + 2 k) and the done cell (access 4 + 2 k). */
  function Made(call: Call, n: nat): seq<Action> {
    if n == 0 then call.start
    else
      var bad := if n == 2 then call.failed else n == 5 + 2 * call.deadline;
      Made(call, n - 1) + call.between(n - 1) + [HostTick(bad)]
  }

  lemma NextMade(call: Call, n: nat, bad: bool)
    requires bad == if n == 1 then call.failed else n == 4 + 2 * call.deadline
    ensures Made(call, n + 1) == Made(call, n) + call.between(n) + [HostTick(bad)]
  {
  }

  /** The cells as access n finds them. */
  function Found(cfg: Config, call: Call, n: nat): State {
    Run(cfg, Made(call, n) + call.between(n))
  }

  /** The first n polls of pass p found neither an error nor the pass done. */
  predicate NothingIn(cfg: Config, call: Call, p: nat, n: nat) {
    forall k: nat :: k < n ==> Found(cfg, call, 3 + 2 * k).errHost == 0 && Found(cfg, call, 4 + 2 * k).done != Wrap(p)
  }

  /** What the call returns, and after how many accesses, by what these found. */
  ghost predicate Returned(cfg: Config, call: Call, p: nat, status: RunStatus, n: nat) {
    if Found(cfg, call, 0).errHost != 0 then status == RUN_ERR && n == 1
    else if call.failed then status == RUN_TIMEOUT && n == 2
    else if status == RUN_TIMEOUT then NothingIn(cfg, call, p, call.deadline + 1) && n == 5 + 2 * call.deadline
    else exists k: nat :: EndsAt(cfg, call, p, status, n, k)
  }

  /** It ended at poll k, no later than the deadline. */
  ghost predicate EndsAt(cfg: Config, call: Call, p: nat, status: RunStatus, n: nat, k: nat) {
    && k <= call.deadline && NothingIn(cfg, call, p, k)
    && (status == RUN_ERR ==> n == 4 + 2 * k && Found(cfg, call, 3 + 2 * k).errHost != 0)
    && (status == RUN_OK ==> n == 5 + 2 * k && Found(cfg, call, 3 + 2 * k).errHost == 0
                             && Found(cfg, call, 4 + 2 * k).done == Wrap(p))
  }

  lemma FoundNothing(cfg: Config, call: Call, p: nat, k: nat)
    requires NothingIn(cfg, call, p, k)
    requires Found(cfg, call, 3 + 2 * k).errHost == 0 && Found(cfg, call, 4 + 2 * k).done != Wrap(p)
    ensures NothingIn(cfg, call, p, k + 1)
  {
    hide Found;
  }

  lemma NoneMade(call: Call)
    ensures Made(call, 0) == call.start
  {
  }

  lemma NothingYet(cfg: Config, call: Call, p: nat)
    ensures NothingIn(cfg, call, p, 0)
  {
  }

  lemma EndsUnpolled(cfg: Config, call: Call, p: nat)
    ensures Found(cfg, call, 0).errHost != 0 ==> Returned(cfg, call, p, RUN_ERR, 1)
    ensures Found(cfg, call, 0).errHost == 0 && call.failed ==> Returned(cfg, call, p, RUN_TIMEOUT, 2)
  {
    hide Found;
  }

  lemma EndsPolling(cfg: Config, call: Call, p: nat, status: RunStatus, k: nat)
    requires Found(cfg, call, 0).errHost == 0 && !call.failed && k <= call.deadline && NothingIn(cfg, call, p, k)
    requires status == RUN_ERR || status == RUN_OK
    requires (status == RUN_ERR) == (Found(cfg, call, 3 + 2 * k).errHost != 0)
    requires status == RUN_OK ==> Found(cfg, call, 4 + 2 * k).done == Wrap(p)
    ensures Returned(cfg, call, p, status, if status == RUN_ERR then 4 + 2 * k else 5 + 2 * k)
  {
    hide Found; hide NothingIn;
    assert EndsAt(cfg, call, p, status, if status == RUN_ERR then 4 + 2 * k else 5 + 2 * k, k);
  }

  lemma TimesOut(cfg: Config, call: Call, p: nat)
    requires Found(cfg, call, 0).errHost == 0 && !call.failed && NothingIn(cfg, call, p, call.deadline + 1)
    ensures Returned(cfg, call, p, RUN_TIMEOUT, 5 + 2 * call.deadline)
  {
    hide Found;
  }

  /** A timeout after a copy that succeeded means that all deadline + 1 polls were made
      and found nothing, and conversely. */
  lemma TimeoutExactly(cfg: Config, call: Call, p: nat, status: RunStatus, n: nat)
    requires Returned(cfg, call, p, status, n) && !call.failed
    ensures status == RUN_TIMEOUT <==>
              Found(cfg, call, 0).errHost == 0 && NothingIn(cfg, call, p, call.deadline + 1)
  {
    hide Found; hide EndsAt; hide NothingIn;
    if Found(cfg, call, 0).errHost == 0 && status != RUN_TIMEOUT {
      var k: nat :| EndsAt(cfg, call, p, status, n, k);
      EndsEarly(cfg, call, p, status, n, k);
    }
  }

  lemma EndsEarly(cfg: Config, call: Call, p: nat, status: RunStatus, n: nat, k: nat)
    requires EndsAt(cfg, call, p, status, n, k) && status != RUN_TIMEOUT
    ensures !NothingIn(cfg, call, p, call.deadline + 1)
  {
    hide Found;
  }

  /** A done cell that holds the pass number at poll k, with no error found until then,
      is never missed: the call returns RUN_OK at that poll or an earlier one. */
  lemma DoneIsSeen(cfg: Config, call: Call, p: nat, status: RunStatus, n: nat, k: nat)
    requires Returned(cfg, call, p, status, n) && !call.failed && k <= call.deadline
    requires Found(cfg, call, 0).errHost == 0 && forall j: nat :: j <= k ==> Found(cfg, call, 3 + 2 * j).errHost == 0
    requires Found(cfg, call, 4 + 2 * k).done == Wrap(p)
    ensures status == RUN_OK && n <= 5 + 2 * k
  {
    hide Found;
    assert !NothingIn(cfg, call, p, k + 1);
    if status != RUN_TIMEOUT {
      var j: nat :| EndsAt(cfg, call, p, status, n, j);
      assert j <= k;
    }
  }

  /** The found cells leave one outcome only. */
  lemma OneOutcome(cfg: Config, call: Call, p: nat, status: RunStatus, n: nat, status': RunStatus, n': nat)
    requires Returned(cfg, call, p, status, n) && Returned(cfg, call, p, status', n')
    ensures status == status' && n == n'
  {
    hide Found;
    if Found(cfg, call, 0).errHost == 0 && !call.failed {
      if status != RUN_TIMEOUT && status' != RUN_TIMEOUT {
        var k: nat :| EndsAt(cfg, call, p, status, n, k);
        var k': nat :| EndsAt(cfg, call, p, status', n', k');
        assert !(k < k') && !(k' < k);
      } else {
        TimeoutExactly(cfg, call, p, status, n);
        TimeoutExactly(cfg, call, p, status', n');
      }
    }
  }

  /** `past` and `acts` are history: what Interp.Past says, and all steps so far. */
  class Device {
    const cfg: Config
    var mem: Mem
    var counter: u32
    var bellHost: u32
    var bellDev: u32
    var done: u32
    var errHost: nat
    var errDev: nat
    const epoch: array<u32>
    const blocks: array<Block>
    var host: HostPc
    var hostPass: nat
    ghost var past: Past
    ghost var acts: seq<Action>

    ghost function Snapshot(): State
      reads this, epoch, blocks
    {
      State(mem, counter, bellHost, bellDev, done, errHost, errDev, epoch[..], blocks[..], host, hostPass, past)
    }

    ghost predicate Sized()
      reads this, epoch, blocks
    {
      epoch.Length == blocks.Length == |past.arr| == |past.log| == cfg.n
    }

    ghost predicate Valid()
      reads this, epoch, blocks
    {
      Sized() && Snapshot() == Run(cfg, acts)
    }

    constructor (cfg: Config)
      ensures Valid() && this.cfg == cfg && acts == [] && fresh(epoch) && fresh(blocks)
    {
      this.cfg := cfg;
      mem, counter, bellHost, bellDev, done, errHost, errDev := cfg.init, 0, 0, 0, 0, 0, 0;
      epoch, blocks := new u32[cfg.n](_ => 0), new Block[cfg.n](_ => Block(1, Door, map[]));
      host, hostPass := Idle, 0;
      past, acts := Start(cfg).past, [];
      new;
      assert epoch[..] == Start(cfg).epoch && blocks[..] == Start(cfg).blocks;
    }

    /** Add the step just made to the history. */
    ghost method Record(a: Action)
      requires Sized() && Snapshot() == Step(cfg, Run(cfg, acts), a)
      modifies this`acts
      ensures Valid() && acts == old(acts) + [a]
    {
      hide Run; hide Step;
      InterpProgress.RunSnoc(cfg, acts, a);
      acts := acts + [a];
    }

    // ---- a block ---------------------------------------------------------------

    method Goto(b: nat, pc: Pc)
      requires b < blocks.Length
      modifies blocks
      ensures blocks[..] == old(blocks[..])[b := old(blocks[b]).(pc := pc)]
    {
      blocks[b] := blocks[b].(pc := pc);
    }

    /** The doorbell poll; block 0 reads the host's cell, the others its copy. */
    method PollDoorbell(b: nat)
      requires b < cfg.n && Sized() && blocks[b].pc.Door?
      modifies this, blocks
      ensures Sized() && Snapshot() == BlockStep(cfg, old(Snapshot()), b) && acts == old(acts)
    {
      var v := if b == 0 then bellHost else bellDev;
      if !KeepPolling(v, blocks[b].pass) {
        if b == 0 { Goto(b, Forward(v)); } else { TakeBell(b, v); }
      }
    }

    method TakeBell(b: nat, v: u32)
      requires b < cfg.n && Sized()
      modifies this, blocks
      ensures Sized() && Snapshot() == Took(b, v, old(Snapshot())) && acts == old(acts)
    {
      Goto(b, if v == DOORBELL_HALT then Gone(Halted(blocks[b].pass)) else Walk(0, []));
    }

    method ForwardBell(b: nat, v: u32)
      requires b < cfg.n && Sized() && blocks[b].pc == Forward(v)
      modifies this, blocks
      ensures Sized() && Snapshot() == BlockStep(cfg, old(Snapshot()), b) && acts == old(acts)
    {
      bellDev := v;
      TakeBell(b, v);
    }

    /** The arrival at the boundary at i, once the block's own stores are out. */
    method Arrive(b: nat, i: nat)
      requires b < cfg.n && Sized()
      modifies this, epoch, blocks
      ensures Sized() && Snapshot() == ArriveAt(cfg, old(Snapshot()), b, i) && acts == old(acts)
    {
      if blocks[b].pend == map[] {
        ghost var before := Snapshot();
        epoch[b] := Succ(epoch[b]);
        counter := Succ(counter);
        Goto(b, Spin(i));
        past := ArriveAt(cfg, before, b, i).past;
      }
    }

    /** One access of the op at i. */
    method OpAccess(b: nat, i: nat, hist: seq<Val>)
      requires b < cfg.n && Sized() && i < |cfg.prog|
      modifies this, blocks
      ensures Sized() && Snapshot() == OpStep(cfg, old(Snapshot()), b, i, hist) && acts == old(acts)
    {
      var blk := blocks[b];
      match NextAct(cfg.prog[i], b, hist)
      case Load(c) => Goto(b, Walk(i, hist + [Get(View(mem, blk.pend), c)]));
      case Store(c, v) => blocks[b] := blk.(pc := Walk(i, hist + [v]), pend := blk.pend[c := v]);
      case Ret =>
        var code := cfg.raises(blk.pass, i, b);
        Goto(b, if code != 0 then RaiseHost(i, code) else Walk(i + 1, []));
        past := past.(log := past.log[b := past.log[b] + [(blk.pass, i)]]);
    }

    /** The instruction loop at instruction i. */
    method WalkOn(b: nat, i: nat, hist: seq<Val>)
      requires b < cfg.n && Sized() && blocks[b].pc == Walk(i, hist)
      modifies this, epoch, blocks
      ensures Sized() && Snapshot() == BlockStep(cfg, old(Snapshot()), b) && acts == old(acts)
    {
      if BoundaryAt(cfg, i) {
        Arrive(b, i);
      } else if i < |cfg.prog| {
        if BadAt(cfg, i) {
          var code := if cfg.prog[i].kind >= OP_KIND_COUNT then ERR_BAD_KIND else ERR_UNWIRED_KIND;
          Goto(b, if b == 0 then RaiseHost(i, code) else Gone(BadKind(blocks[b].pass, i)));
        } else if InRange(cfg.prog[i], b) {
          OpAccess(b, i, hist);
        } else {
          Goto(b, Walk(i + 1, []));
        }
      }
    }

    /** raise_error: the host's error cell, then the device's. */
    method RaiseError(b: nat)
      requires b < cfg.n && Sized() && (blocks[b].pc.RaiseHost? || blocks[b].pc.RaiseDev?)
      modifies this, blocks
      ensures Sized() && Snapshot() == BlockStep(cfg, old(Snapshot()), b) && acts == old(acts)
    {
      var i, code := blocks[b].pc.i, blocks[b].pc.code;
      if blocks[b].pc.RaiseHost? {
        errHost := code;
        Goto(b, RaiseDev(i, code));
      } else {
        errDev := code;
        Goto(b, if BadAt(cfg, i) then Gone(BadKind(blocks[b].pass, i)) else Walk(i + 1, []));
      }
    }

    method SpinOnCounter(b: nat, i: nat)
      requires b < cfg.n && Sized() && blocks[b].pc == Spin(i)
      modifies this, blocks
      ensures Sized() && Snapshot() == BlockStep(cfg, old(Snapshot()), b) && acts == old(acts)
    {
      if !Behind(counter, Target(epoch[b], cfg.n)) {
        Goto(b, if i == |cfg.prog| then Sample else Walk(i + 1, []));
      }
    }

    /** The pass epilogue: the error sample, then block 0's done cell. */
    method FinishPass(b: nat)
      requires b < cfg.n && Sized() && (blocks[b].pc.Sample? || blocks[b].pc.Publish?)
      modifies this, blocks
      ensures Sized() && Snapshot() == BlockStep(cfg, old(Snapshot()), b) && acts == old(acts)
    {
      var pass := blocks[b].pass;
      if blocks[b].pc.Sample? && errDev != 0 {
        Goto(b, Gone(Errored(pass)));
      } else if blocks[b].pc.Sample? && b == 0 {
        Goto(b, Publish);
      } else {
        if blocks[b].pc.Publish? { done := Wrap(pass); }
        blocks[b] := blocks[b].(pass := pass + 1, pc := Door);
      }
    }

    /** The next step of block b, whatever it is. */
    method Advance(b: nat)
      requires b < cfg.n && Sized()
      modifies this, epoch, blocks
      ensures Sized() && Snapshot() == BlockStep(cfg, old(Snapshot()), b) && acts == old(acts)
    {
      if blocks[b].pc.Gone? { GoneStays(b); }
      hide BlockStep;
      match blocks[b].pc {
        case Door => PollDoorbell(b);
        case Forward(v) => ForwardBell(b, v);
        case Walk(i, hist) => WalkOn(b, i, hist);
        case RaiseHost(_, _) => RaiseError(b);
        case RaiseDev(_, _) => RaiseError(b);
        case Spin(i) => SpinOnCounter(b, i);
        case Sample => FinishPass(b);
        case Publish => FinishPass(b);
        case Gone(_) => {}
      }
    }

    lemma GoneStays(b: nat)
      requires b < cfg.n && Sized() && blocks[b].pc.Gone?
      ensures BlockStep(cfg, Snapshot(), b) == Snapshot()
    {
    }

    method TickBlock(b: nat)
      requires Valid() && b < cfg.n
      modifies this, epoch, blocks
      ensures Valid() && acts == old(acts) + [Tick(b)] && host == old(host) && hostPass == old(hostPass)
      ensures bellHost == old(bellHost)
    {
      hide Run;
      HostUntouched(cfg, Snapshot(), b);
      Advance(b);
      hide BlockStep;
      Record(Tick(b));
    }

    /** One waiting store reaches memory. */
    method DrainStore(b: nat, c: Cell)
      requires Valid()
      modifies this, blocks
      ensures Valid() && acts == old(acts) + [Drain(b, c)] && host == old(host) && hostPass == old(hostPass)
      ensures bellHost == old(bellHost)
    {
      if b < cfg.n && c in blocks[b].pend {
        var blk := blocks[b];
        mem := mem[c := blk.pend[c]];
        blocks[b] := blk.(pend := blk.pend - {c});
      }
      Record(Drain(b, c));
    }

    ghost method NoBlock(b: nat)
      requires Valid() && b >= cfg.n
      modifies this`acts
      ensures Valid() && acts == old(acts) + [Tick(b)]
    {
      Record(Tick(b));
    }

    method Others(batch: seq<Action>)
      requires Valid() && Batch(batch)
      modifies this, epoch, blocks
      ensures Valid() && acts == old(acts) + batch && host == old(host) && hostPass == old(hostPass)
      ensures bellHost == old(bellHost)
    {
      hide Valid;
      var j := 0;
      while j < |batch|
        invariant j <= |batch| && Valid() && acts == old(acts) + batch[..j] && host == old(host)
                  && hostPass == old(hostPass) && bellHost == old(bellHost)
      {
        match batch[j] {
          case Tick(b) => if b < cfg.n { TickBlock(b); } else { NoBlock(b); }
          case Drain(b, c) => DrainStore(b, c);
          case _ => assert false;
        }
        j := j + 1;
      }
    }

    // ---- the host --------------------------------------------------------------

    /** The first test of run_pass, and the pass number. */
    method BeginPass() returns (clear: bool)
      requires Valid() && host == Idle && hostPass + 1 < DOORBELL_HALT
      modifies this
      ensures Valid() && acts == old(acts) + [HostTick(false)] && clear == (errHost == 0) && errHost == old(errHost)
      ensures bellHost == old(bellHost)
      ensures if clear then host == Staging && hostPass == old(hostPass) + 1
              else host == Stopped(RunErr) && hostPass == old(hostPass)
    {
      clear := errHost == 0;
      if clear { host, hostPass := Staging, hostPass + 1; } else { host := Stopped(RunErr); }
      Record(HostTick(false));
    }

    /** The input copy, or its failure. */
    method StageInputs(failed: bool)
      requires Valid() && host == Staging
      modifies this
      ensures Valid() && acts == old(acts) + [HostTick(failed)] && hostPass == old(hostPass)
      ensures host == (if failed then Unfed else Ringing) && bellHost == old(bellHost)
      ensures mem == if failed then old(mem) else old(mem) + cfg.inputs(hostPass)
    {
      if failed {
        host := Unfed;
      } else {
        mem := mem + cfg.inputs(hostPass);
        host := Ringing;
        past := past.(base := mem);
      }
      Record(HostTick(failed));
    }

    method Ring()
      requires Valid() && host == Ringing
      modifies this
      ensures Valid() && acts == old(acts) + [HostTick(false)] && host == PollErr && hostPass == old(hostPass)
      ensures bellHost == Wrap(hostPass)
    {
      bellHost := Wrap(hostPass);
      host := PollErr;
      Record(HostTick(false));
    }

    method ReadError() returns (err: nat)
      requires Valid() && host == PollErr
      modifies this
      ensures Valid() && acts == old(acts) + [HostTick(false)] && hostPass == old(hostPass)
      ensures err == errHost == old(errHost) && host == if err != 0 then Stopped(RunErr) else PollDone
    {
      err := errHost;
      host := if err != 0 then Stopped(RunErr) else PollDone;
      Record(HostTick(false));
    }

    method ReadDone(expired: bool) returns (finished: bool)
      requires Valid() && host == PollDone
      modifies this
      ensures Valid() && acts == old(acts) + [HostTick(expired)] && hostPass == old(hostPass)
      ensures host == if finished then Idle else if expired then Stopped(RunTimeout) else PollErr
      ensures finished == (done == Wrap(hostPass)) && done == old(done)
    {
      finished := done == Wrap(hostPass);
      host := if finished then Idle else if expired then Stopped(RunTimeout) else PollErr;
      Record(HostTick(expired));
    }

    /** Every block has executed each of its instructions exactly once in every pass
        up to the host's, and none of them raised. */
    ghost predicate ExactlyOnce()
      requires Sized()
      reads this, epoch, blocks
    {
      && (forall q: nat :: 1 <= q <= hostPass ==> !RaisedIn(cfg, q))
      && (forall b: nat, q: nat, j: nat :: b < cfg.n && 1 <= q <= hostPass ==>
            Times(Snapshot(), b, q, j) == if Due(cfg, b, j) then 1 else 0)
    }

    /** The loop of run_pass. */
    method Poll(ghost call: Call, between: nat -> seq<Action>, deadline: nat)
        returns (status: RunStatus, ghost made: nat)
      requires Valid() && host == PollErr && hostPass >= 1 && BlocksOnly(between)
      requires call.between == between && call.deadline == deadline && !call.failed
      requires acts == Made(call, 3) && Found(cfg, call, 0).errHost == 0
      modifies this, epoch, blocks
      ensures Valid() && hostPass == old(hostPass)
      ensures host == match status
                      case RUN_OK => Idle
                      case RUN_ERR => Stopped(RunErr)
                      case RUN_TIMEOUT => Stopped(RunTimeout)
      ensures acts == Made(call, made) && Returned(cfg, call, hostPass, status, made)
      ensures status == RUN_ERR ==> errHost != 0
    {
      hide Valid; hide Sized; hide ExactlyOnce; hide Sound; hide Good; hide PassEnd; hide Found; hide Made;
      hide NothingIn; hide Returned; hide EndsAt; hide Batch; hide Wrap; hide Run;
      NothingYet(cfg, call, hostPass);
      var k := 0;
      while true
        invariant Valid() && host == PollErr && hostPass == old(hostPass) && k <= deadline
        invariant acts == Made(call, 3 + 2 * k) && NothingIn(cfg, call, hostPass, k)
        decreases deadline - k
      {
        Others(between(3 + 2 * k));
        Finds(call, 3 + 2 * k);
        NextMade(call, 3 + 2 * k, false);
        var err := ReadError();
        if err != 0 {
          EndsPolling(cfg, call, hostPass, RUN_ERR, k);
          return RUN_ERR, 4 + 2 * k;
        }
        Others(between(4 + 2 * k));
        Finds(call, 4 + 2 * k);
        NextMade(call, 4 + 2 * k, k == deadline);
        var finished := ReadDone(k == deadline);
        if finished {
          EndsPolling(cfg, call, hostPass, RUN_OK, k);
          return RUN_OK, 5 + 2 * k;
        }
        FoundNothing(cfg, call, hostPass, k);
        if k == deadline {
          TimesOut(cfg, call, hostPass);
          return RUN_TIMEOUT, 5 + 2 * k;
        }
        k := k + 1;
      }
    }

    /** run_pass: the host's own sequence of accesses, with any steps of the blocks
        between them, an input copy that may fail, which is reported as a timeout with
        nothing rung, and a deadline that passes after some number of polls.  What it
        returns is decided by what its accesses find, polling until the deadline.
        RUN_OK is returned only when every block has executed each of its instructions
        exactly once in every pass so far, none raised, and memory is what the
        sequential execution leaves. */
    method RunPass(between: nat -> seq<Action>, failed: bool, deadline: nat)
        returns (status: RunStatus, ghost made: nat)
      requires Valid() && host == Idle && hostPass + 1 < DOORBELL_HALT && BlocksOnly(between)
      modifies this, epoch, blocks
      ensures Valid()
      ensures host == match status
                      case RUN_OK => Idle
                      case RUN_ERR => Stopped(RunErr)
                      case RUN_TIMEOUT => if failed then Unfed else Stopped(RunTimeout)
      ensures failed ==> status != RUN_OK && bellHost == old(bellHost)
      ensures var call := Call(old(acts), between, failed, deadline);
              acts == Made(call, made) && Returned(cfg, call, old(hostPass) + 1, status, made)
      ensures status == RUN_ERR ==> errHost != 0
      ensures status == RUN_OK ==> hostPass == old(hostPass) + 1
      ensures status == RUN_OK && Sound(cfg) ==> ExactlyOnce()
      ensures status == RUN_OK && Good(cfg) ==> mem == PassEnd(cfg, hostPass)
    {
      hide Valid; hide Sized; hide ExactlyOnce; hide Sound; hide Good; hide PassEnd; hide Found; hide Made;
      hide NothingIn; hide Returned; hide EndsAt; hide Batch; hide Wrap; hide Run;
      ghost var call, p := Call(acts, between, failed, deadline), hostPass + 1;
      NoneMade(call);
      Others(between(0));
      Finds(call, 0);
      NextMade(call, 0, false);
      var clear := BeginPass();
      if !clear {
        EndsUnpolled(cfg, call, p);
        return RUN_ERR, 1;
      }
      Others(between(1));
      NextMade(call, 1, failed);
      StageInputs(failed);
      if failed {
        EndsUnpolled(cfg, call, p);
        return RUN_TIMEOUT, 2;
      }
      Others(between(2));
      NextMade(call, 2, false);
      Ring();
      status, made := Poll(call, between, deadline);
      if status == RUN_OK { Finished(); }
    }

    lemma Finds(call: Call, n: nat)
      requires Valid() && acts == Made(call, n) + call.between(n)
      ensures Found(cfg, call, n).errHost == errHost && Found(cfg, call, n).done == done
    {
      hide Run; hide Made;
    }

    lemma Once()
      requires Valid() && host == Idle && hostPass >= 1 && Sound(cfg)
      ensures ExactlyOnce()
    {
      hide Run; hide Due; hide RaisedIn; hide Times;
      forall q: nat | 1 <= q <= hostPass ensures !RaisedIn(cfg, q) {
        RunOkMeansDone(cfg, acts, hostPass, 0, q, 0);
      }
      forall b: nat, q: nat, j: nat | b < cfg.n && 1 <= q <= hostPass
        ensures Times(Snapshot(), b, q, j) == if Due(cfg, b, j) then 1 else 0
      {
        RunOkMeansDone(cfg, acts, hostPass, b, q, j);
      }
    }

    lemma Finished()
      requires Valid() && host == Idle && hostPass >= 1
      ensures Sound(cfg) ==> ExactlyOnce()
      ensures Good(cfg) ==> mem == PassEnd(cfg, hostPass)
    {
      hide Run; hide Sound; hide Good; hide ExactlyOnce;
      if Sound(cfg) { Once(); }
      if Good(cfg) { InterleavedIsSequential(cfg, acts, hostPass); }
    }

    /** host_shutdown's store; the host machine is closed from then on. */
    method Halt()
      requires Valid() && (host == Idle || host.Unfed? || host.Stopped?)
      modifies this
      ensures Valid() && acts == old(acts) + [Shutdown] && bellHost == DOORBELL_HALT
    {
      host, bellHost := Closed(host.Unfed?), DOORBELL_HALT;
      Record(Shutdown);
    }
  }

  lemma HostUntouched(cfg: Config, s: State, b: nat)
    requires Shaped(cfg, s) && b < cfg.n
    ensures BlockStep(cfg, s, b).host == s.host && BlockStep(cfg, s, b).hostPass == s.hostPass
    ensures BlockStep(cfg, s, b).bellHost == s.bellHost
  {
  }
}
