/** The two-GPU exchange as a state machine.  Per round each GPU computes its
    partial, pushes it into the other GPU's inbox, crosses its own boundary,
    publishes the round number to the other GPU, waits for the other's number and
    folds both partials.  Stores into the peer's inbox wait in the block that made
    them and reach the peer one by one, in any order; only membar.sys, or a
    system-scope release by the same block, is known to have forced them out.
    The local boundary releases at GPU scope and forces nothing across. */
module Exchange {
  import opened Arith
  import opened Arrivals
  import opened Words

  type Val = int

  /** n blocks of `threads` threads per GPU, 4 * quads elements, `rounds` rounds.
      `partial(r, g, i)` is GPU g's contribution to element i of round r, `add` the
      device's addition: no law is assumed.  The flags are the build variants:
      the producer's membar.sys, the round number published before the boundary,
      and the round lockstep of the harness. */
  datatype Config = Config(n: nat, threads: nat, quads: nat, rounds: nat,
                           partial: (nat, nat, nat) -> Val, add: (Val, Val) -> Val,
                           membar: bool, early: bool, lockstep: bool)

  predicate Launchable(cfg: Config) {
    1 <= cfg.n < HALF_WORD && 1 <= cfg.threads && cfg.rounds < WORD
  }

  /** The build under test: membar.sys kept, number published after the boundary,
      rounds in lockstep. */
  predicate Proper(cfg: Config) {
    Launchable(cfg) && cfg.membar && !cfg.early && cfg.lockstep
  }

  function Size(cfg: Config): nat {
    4 * cfg.quads
  }

  /** The block whose thread handles index i in a grid-stride loop. */
  function Owner(cfg: Config, i: nat): (b: nat)
    requires Launchable(cfg)
    ensures b < cfg.n
  {
    OwnerBound(cfg, i);
    (i % (cfg.n * cfg.threads)) / cfg.threads
  }

  lemma OwnerBound(cfg: Config, i: nat)
    requires Launchable(cfg)
    ensures cfg.n * cfg.threads > 0 && 0 <= (i % (cfg.n * cfg.threads)) / cfg.threads < cfg.n
  {
    var t, q := i % (cfg.n * cfg.threads), (i % (cfg.n * cfg.threads)) / cfg.threads;
    assert t == q * cfg.threads + t % cfg.threads;
    assert q >= cfg.n ==> q * cfg.threads >= cfg.n * cfg.threads;
  }

  /** The grid-stride loop: thread t of block b visits b * threads + t and every
      n * threads-th index from there on. */
  lemma OwnerExact(cfg: Config, i: nat, b: nat)
    requires Launchable(cfg)
    ensures Owner(cfg, i) == b <==>
              exists t: nat, k: nat :: b < cfg.n && t < cfg.threads && i == Visited(cfg, b, t, k)
  {
    OwnerBound(cfg, i);
    var all := cfg.n * cfg.threads;
    var k, s := DivMod(i, all);
    var q, r := DivMod(s, cfg.threads);
    assert i == Visited(cfg, q, r, k);
    hide Owner;
    forall t: nat, j: nat | b < cfg.n && t < cfg.threads && i == Visited(cfg, b, t, j) ensures q == b {
      MulBound(b, cfg.n, cfg.threads, t);
      DivModUnique(i, all, j, b * cfg.threads + t);
      DivModUnique(s, cfg.threads, b, t);
    }
  }

  function Visited(cfg: Config, b: nat, t: nat, k: nat): int {
    b * cfg.threads + t + k * (cfg.n * cfg.threads)
  }

  /** Elements are computed and folded one by one, but pushed four at a time. */
  function Pusher(cfg: Config, i: nat): (b: nat)
    requires Launchable(cfg)
    ensures b < cfg.n
  {
    Owner(cfg, i / 4)
  }

  function Share(cfg: Config, b: nat): set<nat>
    requires Launchable(cfg)
  {
    set i: nat | i < Size(cfg) && Owner(cfg, i) == b
  }

  function PushShare(cfg: Config, b: nat): set<nat>
    requires Launchable(cfg)
  {
    set i: nat | i < Size(cfg) && Pusher(cfg, i) == b
  }

  datatype Pc =
    | Compute(todo: set<nat>)     // writing its share of the local partial
    | Arrive(k: nat)              // about to arrive at boundary k of the round
    | Spin(k: nat)                // arrived there, polling
    | Push(todo: set<nat>)        // storing its share into the peer's inbox
    | Fence                       // membar.sys, if built in
    | EarlyPublish                // block 0, broken build: number before boundary 1
    | Publish                     // block 0: number to the peer
    | PollSeq                     // waiting for the peer's number
    | Reduce(todo: set<nat>)      // folding its share
    | DonePublish                 // block 0: round done, to the peer
    | PollDone                    // waiting for the peer's done
    | Exit

  datatype Blk = Blk(round: nat, pc: Pc, pend: map<nat, Val>)

  /** `arr` and `lep` are history: arrivals per block and completed boundaries. */
  datatype Gpu = Gpu(counter: u32, epoch: seq<u32>, blocks: seq<Blk>,
                     partial: seq<Val>, out: seq<Val>, inbox: seq<Val>, seqno: u32, done: u32,
                     arr: seq<nat>, lep: nat)

  /** Tick: block b of GPU g makes its next move, on element i where there is a
      choice.  Land: one of its waiting peer stores reaches the peer. */
  datatype Action = Tick(g: nat, b: nat, i: nat) | Land(g: nat, b: nat, i: nat)

  type State = seq<Gpu>

  /** The top of the round loop. */
  function Begin(cfg: Config, b: nat, r: nat): Blk
    requires Launchable(cfg)
  {
    Blk(r, if r <= cfg.rounds then Compute(Share(cfg, b)) else Exit, map[])
  }

  function StartGpu(cfg: Config): Gpu
    requires Launchable(cfg)
  {
    Gpu(0, seq(cfg.n, _ => 0), seq(cfg.n, b requires 0 <= b < cfg.n => Begin(cfg, b, 1)),
        seq(Size(cfg), _ => 0), seq(Size(cfg), _ => 0), seq(Size(cfg), _ => 0), 0, 0, seq(cfg.n, _ => 0), 0)
  }

  function Start(cfg: Config): State
    requires Launchable(cfg)
  {
    [StartGpu(cfg), StartGpu(cfg)]
  }

  predicate ShapedGpu(cfg: Config, G: Gpu) {
    && |G.epoch| == |G.blocks| == |G.arr| == cfg.n
    && |G.partial| == |G.out| == |G.inbox| == Size(cfg)
  }

  predicate Shaped(cfg: Config, s: State) {
    |s| == 2 && ShapedGpu(cfg, s[0]) && ShapedGpu(cfg, s[1])
  }

  function SetPc(G: Gpu, b: nat, pc: Pc): Gpu
    requires b < |G.blocks|
  {
    G.(blocks := G.blocks[b := G.blocks[b].(pc := pc)])
  }

  function SetBlk(G: Gpu, b: nat, blk: Blk): Gpu
    requires b < |G.blocks|
  {
    G.(blocks := G.blocks[b := blk])
  }

  /** What follows boundary k. */
  function After(cfg: Config, b: nat, blk: Blk, k: nat): Blk
    requires Launchable(cfg)
  {
    if k == 0 then blk.(pc := Push(PushShare(cfg, b)))
    else if k == 1 then blk.(pc := if b == 0 && !cfg.early then Publish else PollSeq)
    else if k == 2 && cfg.lockstep then blk.(pc := if b == 0 then DonePublish else PollDone)
    else blk.(round := blk.round + 1, pc := Begin(cfg, b, blk.round + 1).pc)
  }

  function Arrives(cfg: Config, G: Gpu, b: nat, k: nat): Gpu
    requires ShapedGpu(cfg, G) && b < cfg.n
  {
    SetPc(G, b, Spin(k)).(counter := Succ(G.counter), epoch := G.epoch[b := Succ(G.epoch[b])],
                          arr := G.arr[b := G.arr[b] + 1], lep := NextLep(G.arr, b, G.lep))
  }

  /** The moves that touch only the block's own GPU. */
  function LocalStep(cfg: Config, g: nat, G: Gpu, b: nat, i: nat): (G': Gpu)
    requires Launchable(cfg) && ShapedGpu(cfg, G) && b < cfg.n
    ensures ShapedGpu(cfg, G')
  {
    var blk := G.blocks[b];
    match blk.pc
    case Compute(todo) =>
      if todo == {} then SetPc(G, b, Arrive(0))
      else if i in todo && i < Size(cfg) then
        SetPc(G, b, Compute(todo - {i})).(partial := G.partial[i := cfg.partial(blk.round, g, i)])
      else G
    case Arrive(k) => Arrives(cfg, G, b, k)
    case Spin(k) =>
      if Behind(G.counter, Target(G.epoch[b], cfg.n)) then G else SetBlk(G, b, After(cfg, b, blk, k))
    case Push(todo) =>
      if todo == {} then SetPc(G, b, Fence)
      else if i in todo && i < Size(cfg) then
        SetBlk(G, b, blk.(pc := Push(todo - {i}), pend := blk.pend[i := G.partial[i]]))
      else G
    case Fence =>
      if cfg.membar && blk.pend != map[] then G
      else SetPc(G, b, if cfg.early && b == 0 then EarlyPublish else Arrive(1))
    case PollSeq => if Behind(G.seqno, Wrap(blk.round)) then G else SetPc(G, b, Reduce(Share(cfg, b)))
    case Reduce(todo) =>
      if todo == {} then SetPc(G, b, Arrive(2))
      else if i in todo && i < Size(cfg) then
        SetPc(G, b, Reduce(todo - {i})).(out := G.out[i := Fold(cfg, g, G, i)])
      else G
    case PollDone => if Behind(G.done, Wrap(blk.round)) then G else SetPc(G, b, Arrive(3))
    case _ => G
  }

  /** Own and received contribution, added in the order of the GPU indices. */
  function Fold(cfg: Config, g: nat, G: Gpu, i: nat): Val
    requires ShapedGpu(cfg, G) && i < Size(cfg)
  {
    if g == 0 then cfg.add(G.partial[i], G.inbox[i]) else cfg.add(G.inbox[i], G.partial[i])
  }

  predicate Publishes(pc: Pc) {
    pc.EarlyPublish? || pc.Publish? || pc.DonePublish?
  }

  /** Where a release store leaves the block that made it. */
  function Published(G: Gpu, b: nat): Gpu
    requires b < |G.blocks|
  {
    var pc := G.blocks[b].pc;
    SetPc(G, b, if pc.EarlyPublish? then Arrive(1) else if pc.Publish? then PollSeq else PollDone)
  }

  /** A release store at system scope waits for the block's own stores. */
  function Receives(H: Gpu, blk: Blk): Gpu {
    if blk.pc.DonePublish? then H.(done := Wrap(blk.round)) else H.(seqno := Wrap(blk.round))
  }

  function Step(cfg: Config, s: State, a: Action): (s': State)
    requires Launchable(cfg) && Shaped(cfg, s)
    ensures Shaped(cfg, s')
  {
    if a.g >= 2 || a.b >= cfg.n then s
    else
      var G, H := s[a.g], s[1 - a.g];
      var blk := G.blocks[a.b];
      if a.Land? then
        if a.i in blk.pend && a.i < Size(cfg) then
          s[a.g := SetBlk(G, a.b,
              blk.(pend := blk.pend - {a.i}))][1 - a.g := H.(inbox := H.inbox[a.i := blk.pend[a.i]])]
        else s
      else if Publishes(blk.pc) then
        if blk.pend == map[] then s[a.g := Published(G, a.b)][1 - a.g := Receives(H, blk)] else s
      else s[a.g := LocalStep(cfg, a.g, G, a.b, a.i)]
  }

  function Run(cfg: Config, acts: seq<Action>): (s: State)
    requires Launchable(cfg)
    ensures Shaped(cfg, s)
  {
    if acts == [] then Start(cfg) else Step(cfg, Run(cfg, acts[..|acts| - 1]), acts[|acts| - 1])
  }
}
