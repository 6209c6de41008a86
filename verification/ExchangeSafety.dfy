/** In the proper build every fold uses exactly the two partials of its round, so
    both GPUs hold identical results, for any number of blocks and rounds, in any
    interleaving and with peer stores landing in any order. */
module ExchangeSafety {
  import opened Arrivals
  import opened Words
  import opened Exchange

  /** Arrivals a block has made, given where it is. */
  function Made(blk: Blk): int {
    4 * (blk.round - 1) + match blk.pc
      case Compute(_) => 0
      case Arrive(k) => k
      case Spin(k) => k + 1
      case Push(_) => 1
      case Fence => 1
      case EarlyPublish => 1
      case Publish => 2
      case PollSeq => 2
      case Reduce(_) => 2
      case DonePublish => 3
      case PollDone => 3
      case Exit => 0
  }

  /** The last round whose number a block 0 in this place has published, ... */
  function SeqSent(blk: Blk): int {
    match blk.pc
    case Compute(_) => blk.round - 1
    case Arrive(k) => if k <= 1 then blk.round - 1 else blk.round
    case Spin(k) => if k <= 1 then blk.round - 1 else blk.round
    case Push(_) => blk.round - 1
    case Fence => blk.round - 1
    case EarlyPublish => blk.round - 1
    case Publish => blk.round - 1
    case Exit => blk.round - 1
    case _ => blk.round
  }

  /** ... the last one it has reported done, ... */
  function DoneSent(blk: Blk): int {
    match blk.pc
    case PollDone => blk.round
    case Arrive(k) => if k == 3 then blk.round else blk.round - 1
    case Spin(k) => if k == 3 then blk.round else blk.round - 1
    case _ => blk.round - 1
  }

  /** ... and the last ones that any block in this place has seen from the peer. */
  function SeqSeen(blk: Blk): int {
    match blk.pc
    case Reduce(_) => blk.round
    case DonePublish => blk.round
    case PollDone => blk.round
    case Arrive(k) => if k >= 2 then blk.round else blk.round - 1
    case Spin(k) => if k >= 2 then blk.round else blk.round - 1
    case _ => blk.round - 1
  }

  function DoneSeen(blk: Blk): int {
    match blk.pc
    case Arrive(k) => if k == 3 then blk.round else blk.round - 1
    case Spin(k) => if k == 3 then blk.round else blk.round - 1
    case _ => blk.round - 1
  }

  ghost predicate BlkInv(cfg: Config, b: nat, blk: Blk, arr: nat, lep: nat)
    requires Launchable(cfg) && b < cfg.n
  {
    && 1 <= blk.round <= cfg.rounds + 1
    && arr == Made(blk) && (arr == lep || (blk.pc.Spin? && arr == lep + 1))
    && (blk.pc.Exit? <==> blk.round == cfg.rounds + 1)
    && (blk.pend != map[] ==> blk.pc.Push? || blk.pc.Fence?)
    && match blk.pc
       case Compute(todo) => todo <= Share(cfg, b)
       case Push(todo) => todo <= PushShare(cfg, b)
       case Reduce(todo) => todo <= Share(cfg, b)
       case Arrive(k) => k <= 3
       case Spin(k) => k <= 3
       case EarlyPublish => false
       case Publish => b == 0
       case DonePublish => b == 0
       case _ => true
  }

  /** The round and the boundary interval that a GPU is in. */
  function RoundOf(lep: nat): nat {
    lep / 4 + 1
  }

  function PartOf(lep: nat): nat {
    lep % 4
  }

  // ---- what one element's cells hold -----------------------------------------------

  predicate Computed(blk: Blk, lep: nat, i: nat) {
    match blk.pc
    case Compute(todo) => i !in todo
    case Arrive(_) => true
    case Spin(k) => Made(blk) == lep + 1
    case _ => false
  }

  predicate Sent(blk: Blk, lep: nat, i: nat) {
    match blk.pc
    case Push(todo) => i !in todo && i !in blk.pend
    case Fence => i !in blk.pend
    case Arrive(_) => true
    case Spin(k) => Made(blk) == lep + 1
    case _ => false
  }

  predicate Folded(blk: Blk, lep: nat, i: nat) {
    match blk.pc
    case Reduce(todo) => i !in todo
    case Arrive(_) => true
    case Spin(k) => Made(blk) == lep + 1
    case _ => false
  }

  /** Both contributions to element i of round r, in GPU order. */
  function Both(cfg: Config, r: nat, i: nat): Val {
    cfg.add(cfg.partial(r, 0, i), cfg.partial(r, 1, i))
  }

  /** GPU g's own partial of element i. */
  ghost predicate PartialAt(cfg: Config, g: nat, G: Gpu, i: nat)
    requires Launchable(cfg) && ShapedGpu(cfg, G) && i < Size(cfg)
  {
    PartOf(G.lep) > 0 || Computed(G.blocks[Owner(cfg, i)], G.lep, i) ==>
      G.partial[i] == cfg.partial(RoundOf(G.lep), g, i)
  }

  /** Element i of the inbox that GPU g writes. */
  ghost predicate InboxAt(cfg: Config, g: nat, G: Gpu, inbox: seq<Val>, i: nat)
    requires Launchable(cfg) && ShapedGpu(cfg, G) && i < Size(cfg) == |inbox|
  {
    var r, k := RoundOf(G.lep), PartOf(G.lep);
    && (k >= 2 || (k == 1 && Sent(G.blocks[Pusher(cfg, i)], G.lep, i)) ==> inbox[i] == cfg.partial(r, g, i))
    && (k == 0 && r >= 2 ==> inbox[i] == cfg.partial(r - 1, g, i))
  }

  /** Element i of GPU g's result. */
  ghost predicate OutAt(cfg: Config, G: Gpu, i: nat)
    requires Launchable(cfg) && ShapedGpu(cfg, G) && i < Size(cfg)
  {
    var r, k := RoundOf(G.lep), PartOf(G.lep);
    && (k == 3 || (k == 2 && Folded(G.blocks[Owner(cfg, i)], G.lep, i)) ==> G.out[i] == Both(cfg, r, i))
    && (k <= 1 && r >= 2 ==> G.out[i] == Both(cfg, r - 1, i))
  }

  /** A waiting peer store belongs to its block and carries this round's partial. */
  ghost predicate PendAt(cfg: Config, g: nat, G: Gpu, b: nat, i: nat)
    requires Launchable(cfg) && ShapedGpu(cfg, G) && b < cfg.n
  {
    i in G.blocks[b].pend ==>
      i < Size(cfg) && Pusher(cfg, i) == b && G.blocks[b].pend[i] == cfg.partial(RoundOf(G.lep), g, i)
  }

  ghost predicate Cells(cfg: Config, g: nat, G: Gpu, inbox: seq<Val>)
    requires Launchable(cfg) && ShapedGpu(cfg, G) && |inbox| == Size(cfg)
  {
    && (forall i :: 0 <= i < Size(cfg) ==> PartialAt(cfg, g, G, i))
    && (forall i :: 0 <= i < Size(cfg) ==> InboxAt(cfg, g, G, inbox, i))
    && (forall i :: 0 <= i < Size(cfg) ==> OutAt(cfg, G, i))
    && (forall b: nat, i: nat :: b < cfg.n ==> PendAt(cfg, g, G, b, i))
  }

  ghost predicate Blocks(cfg: Config, G: Gpu)
    requires Launchable(cfg) && ShapedGpu(cfg, G)
  {
    && Counted(cfg.n, G.counter, G.epoch, G.arr, G.lep)
    && forall b :: 0 <= b < cfg.n ==> BlkInv(cfg, b, G.blocks[b], G.arr[b], G.lep)
  }

  /** What GPU G's block 0 has told H, and what G's blocks have seen from H. */
  ghost predicate Told(cfg: Config, G: Gpu, H: Gpu)
    requires Launchable(cfg) && ShapedGpu(cfg, G)
  {
    && H.seqno == SeqSent(G.blocks[0]) && H.done == DoneSent(G.blocks[0])
    && forall b :: 0 <= b < cfg.n ==> SeqSeen(G.blocks[b]) <= G.seqno && DoneSeen(G.blocks[b]) <= G.done
  }

  ghost predicate Half(cfg: Config, g: nat, G: Gpu, H: Gpu)
    requires Launchable(cfg)
  {
    ShapedGpu(cfg, G) && ShapedGpu(cfg, H) && Blocks(cfg, G) && Cells(cfg, g, G, H.inbox) && Told(cfg, G, H)
  }

  ghost predicate Inv(cfg: Config, s: State)
    requires Launchable(cfg)
  {
    Shaped(cfg, s) && Half(cfg, 0, s[0], s[1]) && Half(cfg, 1, s[1], s[0])
  }

  lemma StartInv(cfg: Config)
    requires Proper(cfg)
    ensures Inv(cfg, Start(cfg))
  {
    SumZero(cfg.n);
    assert StartGpu(cfg).arr[0] == 0;
    if cfg.rounds >= 1 {
      forall i | 0 <= i < Size(cfg) ensures i in Share(cfg, Owner(cfg, i)) {}
    }
  }

  // ---- what the counters tell each other ------------------------------------------------

  lemma Place(r: nat, k: nat)
    requires r >= 1 && k < 4
    ensures RoundOf(4 * (r - 1) + k) == r && PartOf(4 * (r - 1) + k) == k
  {
  }

  /** How many boundaries are behind a block that has sent or seen so much. */
  lemma Ranges(cfg: Config, b: nat, blk: Blk, arr: nat, lep: nat)
    requires Launchable(cfg) && b < cfg.n && BlkInv(cfg, b, blk, arr, lep)
    ensures 4 * SeqSent(blk) - 2 <= lep <= 4 * SeqSent(blk) + 2
    ensures 4 * DoneSent(blk) - 1 <= lep <= 4 * DoneSent(blk) + 3
    ensures lep <= 4 * SeqSeen(blk) + 2 && lep <= 4 * DoneSeen(blk) + 3
  {
  }

  /** Where G's own progress stands against what it has received: its inbox cells
      lag or lead by at most the part of a round that the protocol allows. */
  lemma Links(cfg: Config, g: nat, G: Gpu, H: Gpu)
    requires Launchable(cfg) && g < 2 && Half(cfg, g, G, H) && Half(cfg, 1 - g, H, G)
    ensures 4 * G.seqno - 2 <= H.lep <= 4 * G.seqno + 2 && 4 * G.done - 1 <= H.lep <= 4 * G.done + 3
    ensures 4 * H.seqno - 2 <= G.lep <= 4 * H.seqno + 2 && 4 * H.done - 1 <= G.lep <= 4 * H.done + 3
    ensures G.lep <= 4 * G.seqno + 2 && G.lep <= 4 * G.done + 3
    ensures H.lep <= 4 * H.seqno + 2 && H.lep <= 4 * H.done + 3
  {
    Ranges(cfg, 0, G.blocks[0], G.arr[0], G.lep);
    Ranges(cfg, 0, H.blocks[0], H.arr[0], H.lep);
  }

  /** The 32-bit polls of the round numbers compare them as numbers. */
  lemma PollSeqExact(cfg: Config, g: nat, G: Gpu, H: Gpu, b: nat)
    requires Proper(cfg) && g < 2 && Half(cfg, g, G, H) && Half(cfg, 1 - g, H, G) && b < cfg.n
             && G.blocks[b].pc.PollSeq?
    ensures Behind(G.seqno, Wrap(G.blocks[b].round)) <==> G.seqno < G.blocks[b].round
    ensures G.blocks[b].round - 1 <= G.seqno <= G.blocks[b].round
  {
    hide Half;
    WhereItIs(cfg, g, G, H, b);
    Links(cfg, g, G, H);
    BehindIsLess(G.seqno, G.blocks[b].round);
  }

  lemma PollDoneExact(cfg: Config, g: nat, G: Gpu, H: Gpu, b: nat)
    requires Proper(cfg) && g < 2 && Half(cfg, g, G, H) && Half(cfg, 1 - g, H, G) && b < cfg.n
             && G.blocks[b].pc.PollDone?
    ensures Behind(G.done, Wrap(G.blocks[b].round)) <==> G.done < G.blocks[b].round
    ensures G.blocks[b].round - 1 <= G.done <= G.blocks[b].round
  {
    hide Half;
    WhereItIs(cfg, g, G, H, b);
    Links(cfg, g, G, H);
    BehindIsLess(G.done, G.blocks[b].round);
  }

  lemma WhereItIs(cfg: Config, g: nat, G: Gpu, H: Gpu, b: nat)
    requires Launchable(cfg) && Half(cfg, g, G, H) && b < cfg.n
    ensures ShapedGpu(cfg, G) && BlkInv(cfg, b, G.blocks[b], G.arr[b], G.lep)
    ensures SeqSeen(G.blocks[b]) <= G.seqno
  {
  }

  /** While a block folds round r, the peer has published it and has not yet
      started to push the next one. */
  lemma PeerWaits(cfg: Config, g: nat, G: Gpu, H: Gpu, b: nat)
    requires Proper(cfg) && g < 2 && Half(cfg, g, G, H) && Half(cfg, 1 - g, H, G) && b < cfg.n && G.blocks[b].pc.Reduce?
    ensures RoundOf(H.lep) == G.blocks[b].round == RoundOf(G.lep) && PartOf(H.lep) >= 2 && PartOf(G.lep) == 2
  {
    hide Half;
    WhereItIs(cfg, g, G, H, b);
    Links(cfg, g, G, H);
  }

  /** So the two cells that a fold reads hold the two partials of the round. */
  lemma FoldInputs(cfg: Config, g: nat, G: Gpu, H: Gpu, b: nat, i: nat)
    requires Proper(cfg) && g < 2 && Half(cfg, g, G, H) && Half(cfg, 1 - g, H, G) && b < cfg.n
             && G.blocks[b].pc.Reduce? && i < Size(cfg)
    ensures G.partial[i] == cfg.partial(G.blocks[b].round, g, i)
    ensures G.inbox[i] == cfg.partial(G.blocks[b].round, 1 - g, i)
  {
    PeerWaits(cfg, g, G, H, b);
    assert PartialAt(cfg, g, G, i);
    assert InboxAt(cfg, 1 - g, H, G.inbox, i);
  }

  // ---- moves inside an interval ---------------------------------------------------------------

  /** Block b of G moved without arriving or publishing. */
  ghost predicate Moved(cfg: Config, G: Gpu, G': Gpu, b: nat)
    requires Launchable(cfg) && ShapedGpu(cfg, G) && b < cfg.n
  {
    && ShapedGpu(cfg, G') && G'.blocks == G.blocks[b := G'.blocks[b]]
    && G'.counter == G.counter && G'.epoch == G.epoch && G'.arr == G.arr && G'.lep == G.lep
    && G'.seqno == G.seqno && G'.done == G.done && G'.inbox == G.inbox
    && BlkInv(cfg, b, G'.blocks[b], G.arr[b], G.lep)
    && (b == 0 ==> SeqSent(G'.blocks[b]) == SeqSent(G.blocks[b]) && DoneSent(G'.blocks[b]) == DoneSent(G.blocks[b]))
    && SeqSeen(G'.blocks[b]) <= G.seqno && DoneSeen(G'.blocks[b]) <= G.done
  }

  lemma MovedKeeps(cfg: Config, g: nat, G: Gpu, G': Gpu, H: Gpu, b: nat)
    requires Launchable(cfg) && g < 2 && Half(cfg, g, G, H) && Half(cfg, 1 - g, H, G) && b < cfg.n
    requires Moved(cfg, G, G', b) && Cells(cfg, g, G', H.inbox)
    ensures Half(cfg, g, G', H) && Half(cfg, 1 - g, H, G')
  {
    forall c | 0 <= c < cfg.n
      ensures BlkInv(cfg, c, G'.blocks[c], G'.arr[c], G'.lep) && SeqSeen(G'.blocks[c]) <= G'.seqno
              && DoneSeen(G'.blocks[c]) <= G'.done
    {
      assert BlkInv(cfg, c, G.blocks[c], G.arr[c], G.lep);
    }
  }

  /** A move that stores nothing claims nothing new about element i. */
  ghost predicate NoMoreAt(cfg: Config, G: Gpu, G': Gpu, b: nat, i: nat)
    requires Launchable(cfg) && ShapedGpu(cfg, G) && ShapedGpu(cfg, G') && b < cfg.n && i < Size(cfg)
  {
    var blk, blk', k := G.blocks[b], G'.blocks[b], PartOf(G.lep);
    && (k == 0 && Owner(cfg, i) == b && Computed(blk', G.lep, i) ==> Computed(blk, G.lep, i))
    && (k == 1 && Pusher(cfg, i) == b && Sent(blk', G.lep, i) ==> Sent(blk, G.lep, i))
    && (k == 2 && Owner(cfg, i) == b && Folded(blk', G.lep, i) ==> Folded(blk, G.lep, i))
  }

  ghost predicate ClaimsNoMore(cfg: Config, G: Gpu, G': Gpu, b: nat)
    requires Launchable(cfg) && ShapedGpu(cfg, G) && ShapedGpu(cfg, G') && b < cfg.n
  {
    && G'.partial == G.partial && G'.out == G.out && G'.blocks[b].pend == G.blocks[b].pend
    && forall i :: 0 <= i < Size(cfg) ==> NoMoreAt(cfg, G, G', b, i)
  }

  lemma SameCell(cfg: Config, g: nat, G: Gpu, G': Gpu, inbox: seq<Val>, b: nat, i: nat)
    requires Launchable(cfg) && ShapedGpu(cfg, G) && ShapedGpu(cfg, G') && b < cfg.n && i < Size(cfg) == |inbox|
    requires G'.blocks == G.blocks[b := G'.blocks[b]] && G'.lep == G.lep && NoMoreAt(cfg, G, G', b, i)
    requires G'.partial == G.partial && G'.out == G.out
    requires PartialAt(cfg, g, G, i) && InboxAt(cfg, g, G, inbox, i) && OutAt(cfg, G, i)
    ensures PartialAt(cfg, g, G', i) && InboxAt(cfg, g, G', inbox, i) && OutAt(cfg, G', i)
  {
    hide Made;
  }

  lemma SameCells(cfg: Config, g: nat, G: Gpu, G': Gpu, H: Gpu, b: nat)
    requires Launchable(cfg) && Half(cfg, g, G, H) && b < cfg.n && Moved(cfg, G, G', b) && ClaimsNoMore(cfg, G, G', b)
    ensures Cells(cfg, g, G', H.inbox)
  {
    hide PartialAt; hide InboxAt; hide OutAt; hide NoMoreAt; hide BlkInv; hide Made;
    forall i | 0 <= i < Size(cfg)
      ensures PartialAt(cfg, g, G', i) && InboxAt(cfg, g, G', H.inbox, i) && OutAt(cfg, G', i)
    {
      SameCell(cfg, g, G, G', H.inbox, b, i);
    }
    forall c: nat, i: nat | c < cfg.n ensures PendAt(cfg, g, G', c, i) {
      assert PendAt(cfg, g, G, c, i);
    }
  }

  /** A block that is to change its own place only. */
  predicate Quiet(pc: Pc) {
    match pc
    case Compute(todo) => todo == {}
    case Push(todo) => todo == {}
    case Reduce(todo) => todo == {}
    case Arrive(_) => false
    case Spin(_) => false
    case _ => true
  }

  ghost predicate PollsExact(G: Gpu, blk: Blk) {
    && (blk.pc.PollSeq? ==> (Behind(G.seqno, Wrap(blk.round)) <==> G.seqno < blk.round))
    && (blk.pc.PollDone? ==> (Behind(G.done, Wrap(blk.round)) <==> G.done < blk.round))
    && SeqSeen(blk) <= G.seqno && DoneSeen(blk) <= G.done
  }

  lemma QuietMove(cfg: Config, g: nat, G: Gpu, b: nat, i: nat)
    requires Proper(cfg) && ShapedGpu(cfg, G) && b < cfg.n && Quiet(G.blocks[b].pc)
    requires BlkInv(cfg, b, G.blocks[b], G.arr[b], G.lep) && PollsExact(G, G.blocks[b])
    ensures var G' := LocalStep(cfg, g, G, b, i); G' == G || Moved(cfg, G, G', b)
  {
  }

  lemma QuietClaims(cfg: Config, g: nat, G: Gpu, b: nat, i: nat, j: nat)
    requires Proper(cfg) && ShapedGpu(cfg, G) && b < cfg.n && Quiet(G.blocks[b].pc) && j < Size(cfg)
    requires BlkInv(cfg, b, G.blocks[b], G.arr[b], G.lep)
    ensures var G' := LocalStep(cfg, g, G, b, i); NoMoreAt(cfg, G, G', b, j)
  {
    ReduceStart(cfg, b);
  }

  lemma ReduceStart(cfg: Config, b: nat)
    requires Launchable(cfg) && b < cfg.n
    ensures forall i: nat :: i < Size(cfg) && Owner(cfg, i) == b ==> i in Share(cfg, b)
    ensures forall i: nat :: i < Size(cfg) && Pusher(cfg, i) == b ==> i in PushShare(cfg, b)
  {
  }

  /** Leaving a boundary. */
  lemma LeaveMove(cfg: Config, g: nat, G: Gpu, b: nat, i: nat)
    requires Proper(cfg) && ShapedGpu(cfg, G) && b < cfg.n && G.blocks[b].pc.Spin? && G.arr[b] == G.lep
    requires BlkInv(cfg, b, G.blocks[b], G.arr[b], G.lep) && PollsExact(G, G.blocks[b])
    ensures var G' := LocalStep(cfg, g, G, b, i); G' == G || Moved(cfg, G, G', b)
  {
  }

  lemma LeaveClaims(cfg: Config, g: nat, G: Gpu, b: nat, i: nat, j: nat)
    requires Proper(cfg) && ShapedGpu(cfg, G) && b < cfg.n && G.blocks[b].pc.Spin? && G.arr[b] == G.lep && j < Size(cfg)
    requires BlkInv(cfg, b, G.blocks[b], G.arr[b], G.lep)
    ensures var G' := LocalStep(cfg, g, G, b, i);
            G'.partial == G.partial && G'.out == G.out && G'.blocks[b].pend == G.blocks[b].pend
                && NoMoreAt(cfg, G, G', b, j)
  {
    ReduceStart(cfg, b);
  }

  // ---- moves that store one element ----------------------------------------------------------

  predicate Storing(cfg: Config, pc: Pc, i: nat) {
    && i < Size(cfg)
    && match pc
       case Compute(todo) => i in todo
       case Push(todo) => i in todo
       case Reduce(todo) => i in todo
       case _ => false
  }

  lemma StoreMove(cfg: Config, g: nat, G: Gpu, b: nat, i: nat)
    requires Proper(cfg) && ShapedGpu(cfg, G) && b < cfg.n && Storing(cfg, G.blocks[b].pc, i)
    requires BlkInv(cfg, b, G.blocks[b], G.arr[b], G.lep) && PollsExact(G, G.blocks[b])
    ensures Moved(cfg, G, LocalStep(cfg, g, G, b, i), b)
  {
  }

  lemma StoreCell(cfg: Config, g: nat, G: Gpu, inbox: seq<Val>, b: nat, i: nat, j: nat)
    requires Proper(cfg) && g < 2 && ShapedGpu(cfg, G) && b < cfg.n && Storing(cfg, G.blocks[b].pc, i)
             && j < Size(cfg) == |inbox|
    requires BlkInv(cfg, b, G.blocks[b], G.arr[b], G.lep)
    requires PartialAt(cfg, g, G, j) && InboxAt(cfg, g, G, inbox, j) && OutAt(cfg, G, j)
    requires G.blocks[b].pc.Reduce? ==> Fold(cfg, g, G, i) == Both(cfg, G.blocks[b].round, i)
    ensures var G' := LocalStep(cfg, g, G, b, i);
            PartialAt(cfg, g, G', j) && InboxAt(cfg, g, G', inbox, j) && OutAt(cfg, G', j)
  {
    var G' := LocalStep(cfg, g, G, b, i);
    assert RoundOf(G.lep) == G.blocks[b].round;
    assert G'.blocks == G.blocks[b := G'.blocks[b]];
  }

  lemma StorePend(cfg: Config, g: nat, G: Gpu, b: nat, i: nat, c: nat, j: nat)
    requires Proper(cfg) && ShapedGpu(cfg, G) && b < cfg.n && c < cfg.n && Storing(cfg, G.blocks[b].pc, i)
    requires BlkInv(cfg, b, G.blocks[b], G.arr[b], G.lep) && PendAt(cfg, g, G, c, j) && PartialAt(cfg, g, G, i)
    ensures PendAt(cfg, g, LocalStep(cfg, g, G, b, i), c, j)
  {
    assert RoundOf(G.lep) == G.blocks[b].round;
  }

  lemma StoreCells(cfg: Config, g: nat, G: Gpu, inbox: seq<Val>, b: nat, i: nat)
    requires Proper(cfg) && g < 2 && ShapedGpu(cfg, G) && |inbox| == Size(cfg) && b < cfg.n
             && Storing(cfg, G.blocks[b].pc, i)
    requires BlkInv(cfg, b, G.blocks[b], G.arr[b], G.lep) && Cells(cfg, g, G, inbox)
    requires G.blocks[b].pc.Reduce? ==> Fold(cfg, g, G, i) == Both(cfg, G.blocks[b].round, i)
    ensures Cells(cfg, g, LocalStep(cfg, g, G, b, i), inbox)
  {
    hide PartialAt; hide InboxAt; hide OutAt; hide PendAt; hide LocalStep; hide BlkInv; hide Fold; hide Storing;
    var G' := LocalStep(cfg, g, G, b, i);
    forall j | 0 <= j < Size(cfg)
      ensures PartialAt(cfg, g, G', j) && InboxAt(cfg, g, G', inbox, j) && OutAt(cfg, G', j)
    {
      StoreCell(cfg, g, G, inbox, b, i, j);
    }
    StorePends(cfg, g, G, inbox, b, i);
  }

  lemma StorePends(cfg: Config, g: nat, G: Gpu, inbox: seq<Val>, b: nat, i: nat)
    requires Proper(cfg) && ShapedGpu(cfg, G) && |inbox| == Size(cfg) && b < cfg.n && Storing(cfg, G.blocks[b].pc, i)
    requires BlkInv(cfg, b, G.blocks[b], G.arr[b], G.lep) && Cells(cfg, g, G, inbox)
    ensures forall c: nat, j: nat :: c < cfg.n ==> PendAt(cfg, g, LocalStep(cfg, g, G, b, i), c, j)
  {
    assert PartialAt(cfg, g, G, i);
    hide PartialAt; hide InboxAt; hide OutAt; hide PendAt; hide LocalStep; hide BlkInv;
    forall c: nat, j: nat | c < cfg.n ensures PendAt(cfg, g, LocalStep(cfg, g, G, b, i), c, j) {
      StorePend(cfg, g, G, b, i, c, j);
    }
  }

  lemma TickStore(cfg: Config, g: nat, G: Gpu, H: Gpu, b: nat, i: nat)
    requires Proper(cfg) && g < 2 && Half(cfg, g, G, H) && Half(cfg, 1 - g, H, G) && b < cfg.n
             && Storing(cfg, G.blocks[b].pc, i)
    ensures Cells(cfg, g, LocalStep(cfg, g, G, b, i), H.inbox)
  {
    if G.blocks[b].pc.Reduce? { FoldInputs(cfg, g, G, H, b, i); }
    WhereItIs(cfg, g, G, H, b);
    hide BlkInv; hide LocalStep; hide Storing;
    StoreCells(cfg, g, G, H.inbox, b, i);
  }

  // ---- arrivals -----------------------------------------------------------------------------------

  lemma ArriveBlk(cfg: Config, b: nat, c: nat, G: Gpu, k: nat)
    requires Proper(cfg) && ShapedGpu(cfg, G) && b < cfg.n && c < cfg.n && G.blocks[b].pc == Arrive(k)
    requires BlkInv(cfg, b, G.blocks[b], G.arr[b], G.lep) && BlkInv(cfg, c, G.blocks[c], G.arr[c], G.lep)
    ensures var G' := Arrives(cfg, G, b, k);
            && BlkInv(cfg, c, G'.blocks[c], G'.arr[c], G'.lep)
            && (G'.lep == G.lep + 1 ==> Spun(G, G'.blocks[c]))
  {
    if NextLep(G.arr, b, G.lep) == G.lep + 1 {
      assert G.arr[b := G.arr[b] + 1][c] == G.lep + 1;
    }
  }

  /** The place of every block at the moment the last one arrives. */
  predicate Spun(G: Gpu, blk: Blk) {
    blk.pc == Spin(PartOf(G.lep)) && blk.round == RoundOf(G.lep)
  }

  /** Everybody has arrived: what was claimed of the block that handles an element
      now holds of the whole GPU. */
  lemma LastArrivalCell(cfg: Config, g: nat, G: Gpu, G': Gpu, inbox: seq<Val>, b: nat, j: nat)
    requires Proper(cfg) && ShapedGpu(cfg, G) && ShapedGpu(cfg, G') && b < cfg.n && j < Size(cfg) == |inbox|
    requires G.blocks[b].pc == Arrive(PartOf(G.lep))
    requires G'.lep == G.lep + 1 && G'.partial == G.partial && G'.out == G.out
             && G'.blocks == G.blocks[b := G'.blocks[b]]
    requires Spun(G, G'.blocks[Owner(cfg, j)]) && Spun(G, G'.blocks[Pusher(cfg, j)])
    requires PartialAt(cfg, g, G, j) && InboxAt(cfg, g, G, inbox, j) && OutAt(cfg, G, j)
    ensures PartialAt(cfg, g, G', j) && InboxAt(cfg, g, G', inbox, j) && OutAt(cfg, G', j)
  {
    var r, k := RoundOf(G.lep), PartOf(G.lep);
    assert if k == 3 then RoundOf(G'.lep) == r + 1 && PartOf(G'.lep) == 0
           else RoundOf(G'.lep) == r && PartOf(G'.lep) == k + 1;
    assert G.lep == 4 * (r - 1) + k;
  }

  lemma EarlyArrivalCell(cfg: Config, g: nat, G: Gpu, G': Gpu, inbox: seq<Val>, b: nat, j: nat)
    requires Proper(cfg) && ShapedGpu(cfg, G) && ShapedGpu(cfg, G') && b < cfg.n && j < Size(cfg) == |inbox|
    requires G.blocks[b].pc.Arrive?
    requires G'.lep == G.lep && G'.partial == G.partial && G'.out == G.out && G'.blocks == G.blocks[b := G'.blocks[b]]
    requires PartialAt(cfg, g, G, j) && InboxAt(cfg, g, G, inbox, j) && OutAt(cfg, G, j)
    ensures PartialAt(cfg, g, G', j) && InboxAt(cfg, g, G', inbox, j) && OutAt(cfg, G', j)
  {
  }

  lemma ArrivePend(cfg: Config, g: nat, G: Gpu, b: nat, k: nat, c: nat, j: nat)
    requires Proper(cfg) && ShapedGpu(cfg, G) && b < cfg.n && c < cfg.n && G.blocks[b].pc == Arrive(k)
    requires BlkInv(cfg, b, G.blocks[b], G.arr[b], G.lep) && BlkInv(cfg, c, G.blocks[c], G.arr[c], G.lep)
    requires PendAt(cfg, g, G, c, j)
    ensures PendAt(cfg, g, Arrives(cfg, G, b, k), c, j)
  {
    ArriveBlk(cfg, b, c, G, k);
  }

  lemma ArriveCell(cfg: Config, g: nat, G: Gpu, inbox: seq<Val>, b: nat, k: nat, j: nat)
    requires Proper(cfg) && ShapedGpu(cfg, G) && b < cfg.n && j < Size(cfg) == |inbox| && G.blocks[b].pc == Arrive(k)
    requires forall c :: 0 <= c < cfg.n ==> BlkInv(cfg, c, G.blocks[c], G.arr[c], G.lep)
    requires PartialAt(cfg, g, G, j) && InboxAt(cfg, g, G, inbox, j) && OutAt(cfg, G, j)
    ensures var G' := Arrives(cfg, G, b, k);
            PartialAt(cfg, g, G', j) && InboxAt(cfg, g, G', inbox, j) && OutAt(cfg, G', j)
  {
    var G' := Arrives(cfg, G, b, k);
    assert BlkInv(cfg, b, G.blocks[b], G.arr[b], G.lep);
    Place(G.blocks[b].round, k);
    if G'.lep == G.lep {
      EarlyArrivalCell(cfg, g, G, G', inbox, b, j);
    } else {
      ArriveBlk(cfg, b, Owner(cfg, j), G, k);
      ArriveBlk(cfg, b, Pusher(cfg, j), G, k);
      LastArrivalCell(cfg, g, G, G', inbox, b, j);
    }
  }

  /** An arrival tells the peer nothing. */
  lemma ArriveTold(cfg: Config, G: Gpu, H: Gpu, b: nat, k: nat)
    requires Proper(cfg) && ShapedGpu(cfg, G) && Told(cfg, G, H) && b < cfg.n && G.blocks[b].pc == Arrive(k)
    ensures Told(cfg, Arrives(cfg, G, b, k), H)
  {
    var G' := Arrives(cfg, G, b, k);
    assert forall c :: 0 <= c < cfg.n && c != b ==> G'.blocks[c] == G.blocks[c];
    assert SeqSeen(G.blocks[b]) <= G.seqno && DoneSeen(G.blocks[b]) <= G.done;
  }

  lemma ArriveBlocks(cfg: Config, G: Gpu, b: nat, k: nat)
    requires Proper(cfg) && ShapedGpu(cfg, G) && Blocks(cfg, G) && b < cfg.n && G.blocks[b].pc == Arrive(k)
    ensures Blocks(cfg, Arrives(cfg, G, b, k))
  {
    var G' := Arrives(cfg, G, b, k);
    assert BlkInv(cfg, b, G.blocks[b], G.arr[b], G.lep);
    ArriveCounted(cfg.n, G.counter, G.epoch, G.arr, G.lep, b);
    hide BlkInv; hide Counted;
    forall c | 0 <= c < cfg.n ensures BlkInv(cfg, c, G'.blocks[c], G'.arr[c], G'.lep) {
      ArriveBlk(cfg, b, c, G, k);
    }
  }

  lemma ArriveAllCells(cfg: Config, g: nat, G: Gpu, inbox: seq<Val>, b: nat, k: nat)
    requires Proper(cfg) && ShapedGpu(cfg, G) && |inbox| == Size(cfg) && Blocks(cfg, G) && Cells(cfg, g, G, inbox)
    requires b < cfg.n && G.blocks[b].pc == Arrive(k)
    ensures Cells(cfg, g, Arrives(cfg, G, b, k), inbox)
  {
    hide PartialAt; hide InboxAt; hide OutAt; hide PendAt; hide BlkInv; hide Counted; hide Arrives;
    var G' := Arrives(cfg, G, b, k);
    ArriveCells(cfg, G, b, k);
    forall j | 0 <= j < Size(cfg)
      ensures PartialAt(cfg, g, G', j) && InboxAt(cfg, g, G', inbox, j) && OutAt(cfg, G', j)
    {
      ArriveCell(cfg, g, G, inbox, b, k, j);
    }
    forall c: nat, j: nat | c < cfg.n ensures PendAt(cfg, g, G', c, j) {
      ArrivePend(cfg, g, G, b, k, c, j);
    }
  }

  lemma ArriveCells(cfg: Config, G: Gpu, b: nat, k: nat)
    requires ShapedGpu(cfg, G) && b < cfg.n
    ensures var G' := Arrives(cfg, G, b, k);
            ShapedGpu(cfg, G') && G'.inbox == G.inbox && G'.seqno == G.seqno && G'.done == G.done
  {
  }

  lemma TickArrive(cfg: Config, g: nat, G: Gpu, H: Gpu, b: nat, k: nat)
    requires Proper(cfg) && g < 2 && Half(cfg, g, G, H) && b < cfg.n && G.blocks[b].pc == Arrive(k)
    ensures Half(cfg, g, Arrives(cfg, G, b, k), H)
  {
    hide Blocks; hide Cells; hide Told; hide Arrives;
    ArriveCells(cfg, G, b, k);
    ArriveBlocks(cfg, G, b, k);
    ArriveAllCells(cfg, g, G, H.inbox, b, k);
    ArriveTold(cfg, G, H, b, k);
  }

  // ---- moves that reach the peer ------------------------------------------------------------------

  /** The peer's half of the invariant survives what it receives, and does not
      notice a move that leaves its own cells alone. */
  lemma PeerSide(cfg: Config, h: nat, H: Gpu, H': Gpu, G: Gpu, G': Gpu)
    requires Launchable(cfg) && Half(cfg, h, H, G) && ShapedGpu(cfg, G') && ShapedGpu(cfg, H')
    requires G'.inbox == G.inbox && G'.seqno == G.seqno && G'.done == G.done
    requires H' == H.(inbox := H'.inbox, seqno := H'.seqno, done := H'.done) && H'.seqno >= H.seqno && H'.done >= H.done
    ensures Half(cfg, h, H', G')
  {
    hide BlkInv; hide SeqSent; hide DoneSent; hide SeqSeen; hide DoneSeen;
    PeerCells(cfg, h, H, H', G.inbox);
  }

  lemma PeerCells(cfg: Config, h: nat, H: Gpu, H': Gpu, inbox: seq<Val>)
    requires Launchable(cfg) && ShapedGpu(cfg, H) && ShapedGpu(cfg, H') && |inbox| == Size(cfg)
             && Cells(cfg, h, H, inbox)
    requires H' == H.(inbox := H'.inbox, seqno := H'.seqno, done := H'.done)
    ensures Cells(cfg, h, H', inbox)
  {
    hide Computed; hide Sent; hide Folded;
    forall j | 0 <= j < Size(cfg)
      ensures PartialAt(cfg, h, H', j) && InboxAt(cfg, h, H', inbox, j) && OutAt(cfg, H', j)
    {
      assert PartialAt(cfg, h, H, j) && InboxAt(cfg, h, H, inbox, j) && OutAt(cfg, H, j);
    }
    forall c: nat, j: nat | c < cfg.n ensures PendAt(cfg, h, H', c, j) {
      assert PendAt(cfg, h, H, c, j);
    }
  }

  /** G after one of block b's waiting stores has left, and H after it has come. */
  function Emptied(G: Gpu, b: nat, i: nat): Gpu
    requires b < |G.blocks|
  {
    SetBlk(G, b, G.blocks[b].(pend := G.blocks[b].pend - {i}))
  }

  function Landed(G: Gpu, H: Gpu, b: nat, i: nat): Gpu
    requires b < |G.blocks| && i in G.blocks[b].pend && i < |H.inbox|
  {
    H.(inbox := H.inbox[i := G.blocks[b].pend[i]])
  }

  lemma LandCell(cfg: Config, g: nat, G: Gpu, inbox: seq<Val>, b: nat, i: nat, j: nat)
    requires Proper(cfg) && ShapedGpu(cfg, G) && b < cfg.n && i in G.blocks[b].pend && i < Size(cfg)
             && j < Size(cfg) == |inbox|
    requires BlkInv(cfg, b, G.blocks[b], G.arr[b], G.lep) && PendAt(cfg, g, G, b, i)
    requires PartialAt(cfg, g, G, j) && InboxAt(cfg, g, G, inbox, j) && OutAt(cfg, G, j)
    ensures var G', inbox' := Emptied(G, b, i), inbox[i := G.blocks[b].pend[i]];
            && PartialAt(cfg, g, G', j) && InboxAt(cfg, g, G', inbox', j) && OutAt(cfg, G', j)
  {
    Place(G.blocks[b].round, 1);
  }

  lemma JoinHalf(cfg: Config, g: nat, G: Gpu, H: Gpu)
    requires Launchable(cfg) && ShapedGpu(cfg, G) && ShapedGpu(cfg, H) && Blocks(cfg, G) && Cells(cfg, g, G, H.inbox)
             && Told(cfg, G, H)
    ensures Half(cfg, g, G, H)
  {
  }

  lemma LandKeeps(cfg: Config, g: nat, G: Gpu, H: Gpu, b: nat, i: nat)
    requires Proper(cfg) && Half(cfg, g, G, H) && b < cfg.n && i in G.blocks[b].pend && i < Size(cfg)
    ensures Half(cfg, g, Emptied(G, b, i), Landed(G, H, b, i))
  {
    LandBlocks(cfg, g, G, H, b, i);
    LandCells(cfg, g, G, H, b, i);
    var G', H' := Emptied(G, b, i), Landed(G, H, b, i);
    assert ShapedGpu(cfg, G') && ShapedGpu(cfg, H') && Told(cfg, G', H');
    hide Half; hide Blocks; hide Cells; hide Told;
    JoinHalf(cfg, g, G', H');
  }

  lemma LandPeer(cfg: Config, h: nat, G: Gpu, H: Gpu, b: nat, i: nat)
    requires Proper(cfg) && Half(cfg, h, H, G) && b < |G.blocks| && i in G.blocks[b].pend && i < Size(cfg)
    ensures Half(cfg, h, Landed(G, H, b, i), Emptied(G, b, i))
  {
    var G', H' := Emptied(G, b, i), Landed(G, H, b, i);
    assert ShapedGpu(cfg, G') && ShapedGpu(cfg, H');
    hide Half;
    PeerSide(cfg, h, H, H', G, G');
  }

  lemma LandBlocks(cfg: Config, g: nat, G: Gpu, H: Gpu, b: nat, i: nat)
    requires Proper(cfg) && Half(cfg, g, G, H) && b < cfg.n && i in G.blocks[b].pend && i < Size(cfg)
    ensures Blocks(cfg, Emptied(G, b, i)) && Told(cfg, Emptied(G, b, i), H)
  {
    var G' := Emptied(G, b, i);
    forall c | 0 <= c < cfg.n
      ensures BlkInv(cfg, c, G'.blocks[c], G'.arr[c], G'.lep) && SeqSeen(G'.blocks[c]) <= G'.seqno
              && DoneSeen(G'.blocks[c]) <= G'.done
    {
      assert BlkInv(cfg, c, G.blocks[c], G.arr[c], G.lep);
    }
  }

  lemma LandCells(cfg: Config, g: nat, G: Gpu, H: Gpu, b: nat, i: nat)
    requires Proper(cfg) && Half(cfg, g, G, H) && b < cfg.n && i in G.blocks[b].pend && i < Size(cfg)
    ensures Cells(cfg, g, Emptied(G, b, i), Landed(G, H, b, i).inbox)
  {
    var G', inbox' := Emptied(G, b, i), Landed(G, H, b, i).inbox;
    WhereItIs(cfg, g, G, H, b);
    hide PartialAt; hide InboxAt; hide OutAt; hide BlkInv;
    assert PendAt(cfg, g, G, b, i);
    forall j | 0 <= j < Size(cfg)
      ensures PartialAt(cfg, g, G', j) && InboxAt(cfg, g, G', inbox', j) && OutAt(cfg, G', j)
    {
      LandCell(cfg, g, G, H.inbox, b, i, j);
    }
    forall c: nat, j: nat | c < cfg.n ensures PendAt(cfg, g, G', c, j) {
      assert PendAt(cfg, g, G, c, j);
    }
  }

  /** A publication moves block 0 on and changes nothing but what it has sent. */
  lemma PublishBlk(cfg: Config, b: nat, G: Gpu)
    requires Proper(cfg) && ShapedGpu(cfg, G) && b < cfg.n && Publishes(G.blocks[b].pc)
    requires BlkInv(cfg, b, G.blocks[b], G.arr[b], G.lep)
    ensures b == 0 && 1 <= G.blocks[0].round < WORD
    ensures var blk, blk' := G.blocks[b], Published(G, b).blocks[b];
            && BlkInv(cfg, b, blk', G.arr[b], G.lep) && SeqSeen(blk') == SeqSeen(blk) && DoneSeen(blk') == DoneSeen(blk)
            && (blk.pc.DonePublish? ==>
                  SeqSent(blk') == SeqSent(blk) && DoneSent(blk) + 1 == DoneSent(blk') == blk.round)
            && (!blk.pc.DonePublish? ==>
                  SeqSent(blk) + 1 == SeqSent(blk') == blk.round && DoneSent(blk') == DoneSent(blk))
  {
  }

  lemma PublishBlocks(cfg: Config, g: nat, G: Gpu, H: Gpu, b: nat)
    requires Proper(cfg) && Half(cfg, g, G, H) && b < cfg.n && Publishes(G.blocks[b].pc)
    ensures var G', H' := Published(G, b), Receives(H, G.blocks[b]);
            Blocks(cfg, G') && Told(cfg, G', H') && H'.seqno >= H.seqno && H'.done >= H.done
  {
    WhereItIs(cfg, g, G, H, b);
    PublishBlk(cfg, b, G);
    hide BlkInv; hide SeqSent; hide DoneSent; hide SeqSeen; hide DoneSeen; hide Cells;
    var G' := Published(G, b);
    forall c | 0 <= c < cfg.n
      ensures BlkInv(cfg, c, G'.blocks[c], G'.arr[c], G'.lep) && SeqSeen(G'.blocks[c]) <= G'.seqno
              && DoneSeen(G'.blocks[c]) <= G'.done
    {
      assert BlkInv(cfg, c, G.blocks[c], G.arr[c], G.lep);
    }
  }

  lemma PublishCells(cfg: Config, g: nat, G: Gpu, H: Gpu, b: nat)
    requires Proper(cfg) && Half(cfg, g, G, H) && b < cfg.n && Publishes(G.blocks[b].pc)
    ensures Cells(cfg, g, Published(G, b), H.inbox)
  {
    var G' := Published(G, b);
    WhereItIs(cfg, g, G, H, b);
    assert forall j :: 0 <= j < Size(cfg) ==> NoMoreAt(cfg, G, G', b, j);
    hide PartialAt; hide InboxAt; hide OutAt; hide BlkInv;
    forall j | 0 <= j < Size(cfg)
      ensures PartialAt(cfg, g, G', j) && InboxAt(cfg, g, G', H.inbox, j) && OutAt(cfg, G', j)
    {
      SameCell(cfg, g, G, G', H.inbox, b, j);
    }
    forall c: nat, j: nat | c < cfg.n ensures PendAt(cfg, g, G', c, j) {
      assert PendAt(cfg, g, G, c, j);
    }
  }

  lemma PublishKeeps(cfg: Config, g: nat, G: Gpu, H: Gpu, b: nat)
    requires Proper(cfg) && Half(cfg, g, G, H) && b < cfg.n && Publishes(G.blocks[b].pc)
    ensures Half(cfg, g, Published(G, b), Receives(H, G.blocks[b]))
  {
    PublishBlocks(cfg, g, G, H, b);
    PublishCells(cfg, g, G, H, b);
    var G', H' := Published(G, b), Receives(H, G.blocks[b]);
    assert ShapedGpu(cfg, G') && ShapedGpu(cfg, H');
    hide Half; hide Blocks; hide Cells; hide Told;
    JoinHalf(cfg, g, G', H');
  }

  lemma PublishShapes(cfg: Config, g: nat, G: Gpu, H: Gpu, b: nat)
    requires Proper(cfg) && Half(cfg, g, G, H) && b < cfg.n && Publishes(G.blocks[b].pc)
    ensures ShapedGpu(cfg, Published(G, b)) && ShapedGpu(cfg, Receives(H, G.blocks[b]))
    ensures Receives(H, G.blocks[b]).seqno >= H.seqno && Receives(H, G.blocks[b]).done >= H.done
  {
    PublishBlocks(cfg, g, G, H, b);
    Shapes(cfg, g, G, H);
    hide Half; hide Blocks; hide Told;
  }

  lemma PublishPeer(cfg: Config, g: nat, G: Gpu, H: Gpu, b: nat)
    requires Proper(cfg) && g < 2 && Half(cfg, g, G, H) && Half(cfg, 1 - g, H, G) && ShapedGpu(cfg, G)
    requires b < cfg.n && Publishes(G.blocks[b].pc)
    ensures Half(cfg, 1 - g, Receives(H, G.blocks[b]), Published(G, b))
  {
    hide Half;
    PublishShapes(cfg, g, G, H, b);
    PeerSide(cfg, 1 - g, H, Receives(H, G.blocks[b]), G, Published(G, b));
  }

  /** Both halves of the invariant. */
  ghost predicate Pair(cfg: Config, g: nat, G: Gpu, H: Gpu)
    requires Launchable(cfg) && g < 2
  {
    Half(cfg, g, G, H) && Half(cfg, 1 - g, H, G)
  }

  // ---- every move -------------------------------------------------------------------------------------

  lemma LocalIsArrival(cfg: Config, g: nat, G: Gpu, b: nat, i: nat)
    requires Launchable(cfg) && ShapedGpu(cfg, G) && b < cfg.n && G.blocks[b].pc.Arrive?
    ensures LocalStep(cfg, g, G, b, i) == Arrives(cfg, G, b, G.blocks[b].pc.k)
  {
  }

  lemma LocalKeeps(cfg: Config, g: nat, G: Gpu, H: Gpu, b: nat, i: nat)
    requires Proper(cfg) && g < 2 && Pair(cfg, g, G, H) && b < cfg.n && ShapedGpu(cfg, G) && !Publishes(G.blocks[b].pc)
    ensures Pair(cfg, g, LocalStep(cfg, g, G, b, i), H)
  {
    hide Half; hide LocalStep; hide Arrives;
    var G', pc := LocalStep(cfg, g, G, b, i), G.blocks[b].pc;
    if pc.Arrive? {
      LocalIsArrival(cfg, g, G, b, i);
      TickArrive(cfg, g, G, H, b, pc.k);
      ArriveCells(cfg, G, b, pc.k);
      Shapes(cfg, 1 - g, H, G);
      PeerSide(cfg, 1 - g, H, H, G, G');
    } else if G' != G {
      MoveOf(cfg, g, G, H, b, i);
      MovedKeeps(cfg, g, G, G', H, b);
    }
  }

  lemma Shapes(cfg: Config, g: nat, G: Gpu, H: Gpu)
    requires Launchable(cfg) && Half(cfg, g, G, H)
    ensures ShapedGpu(cfg, G) && ShapedGpu(cfg, H)
  {
  }

  lemma PollsAreExact(cfg: Config, g: nat, G: Gpu, H: Gpu, b: nat)
    requires Proper(cfg) && g < 2 && Half(cfg, g, G, H) && Half(cfg, 1 - g, H, G) && b < cfg.n
    ensures PollsExact(G, G.blocks[b])
    ensures G.blocks[b].pc.Spin? ==> (Behind(G.counter, Target(G.epoch[b], cfg.n)) <==> G.arr[b] == G.lep + 1)
  {
    if G.blocks[b].pc.PollSeq? { PollSeqExact(cfg, g, G, H, b); }
    if G.blocks[b].pc.PollDone? { PollDoneExact(cfg, g, G, H, b); }
    PollExact(cfg.n, G.counter, G.epoch, G.arr, G.lep, b);
  }

  lemma MoveOf(cfg: Config, g: nat, G: Gpu, H: Gpu, b: nat, i: nat)
    requires Proper(cfg) && g < 2 && Half(cfg, g, G, H) && Half(cfg, 1 - g, H, G) && b < cfg.n
    requires !Publishes(G.blocks[b].pc) && !G.blocks[b].pc.Arrive? && LocalStep(cfg, g, G, b, i) != G
    ensures var G' := LocalStep(cfg, g, G, b, i); Moved(cfg, G, G', b) && Cells(cfg, g, G', H.inbox)
  {
    var G', pc := LocalStep(cfg, g, G, b, i), G.blocks[b].pc;
    WhereItIs(cfg, g, G, H, b);
    PollsAreExact(cfg, g, G, H, b);
    if Storing(cfg, pc, i) {
      StoreMove(cfg, g, G, b, i);
      TickStore(cfg, g, G, H, b, i);
    } else {
      PlainMove(cfg, g, G, b, i);
      SameCells(cfg, g, G, G', H, b);
    }
  }

  lemma PlainMove(cfg: Config, g: nat, G: Gpu, b: nat, i: nat)
    requires Proper(cfg) && ShapedGpu(cfg, G) && b < cfg.n && LocalStep(cfg, g, G, b, i) != G
    requires !Publishes(G.blocks[b].pc) && !G.blocks[b].pc.Arrive? && !Storing(cfg, G.blocks[b].pc, i)
    requires BlkInv(cfg, b, G.blocks[b], G.arr[b], G.lep) && PollsExact(G, G.blocks[b])
    requires G.blocks[b].pc.Spin? ==> (Behind(G.counter, Target(G.epoch[b], cfg.n)) <==> G.arr[b] == G.lep + 1)
    ensures var G' := LocalStep(cfg, g, G, b, i); Moved(cfg, G, G', b) && ClaimsNoMore(cfg, G, G', b)
  {
    var G', pc := LocalStep(cfg, g, G, b, i), G.blocks[b].pc;
    if pc.Spin? {
      LeaveMove(cfg, g, G, b, i);
      forall j | 0 <= j < Size(cfg) ensures NoMoreAt(cfg, G, G', b, j) { LeaveClaims(cfg, g, G, b, i, j); }
    } else {
      assert Quiet(pc);
      QuietMove(cfg, g, G, b, i);
      forall j | 0 <= j < Size(cfg) ensures NoMoreAt(cfg, G, G', b, j) { QuietClaims(cfg, g, G, b, i, j); }
    }
  }

  lemma StepCells(cfg: Config, s: State, a: Action)
    requires Launchable(cfg) && Shaped(cfg, s) && a.g < 2 && a.b < cfg.n
    ensures var G, H, s' := s[a.g], s[1 - a.g], Step(cfg, s, a);
            if a.Land? then
              if a.i in G.blocks[a.b].pend && a.i < Size(cfg)
              then s'[a.g] == Emptied(G, a.b, a.i) && s'[1 - a.g] == Landed(G, H, a.b, a.i) else s' == s
            else if Publishes(G.blocks[a.b].pc) then
              if G.blocks[a.b].pend == map[]
              then s'[a.g] == Published(G, a.b) && s'[1 - a.g] == Receives(H, G.blocks[a.b]) else s' == s
            else s'[a.g] == LocalStep(cfg, a.g, G, a.b, a.i) && s'[1 - a.g] == H
  {
    hide LocalStep; hide Published; hide Receives; hide SetBlk;
  }

  lemma LandPair(cfg: Config, g: nat, G: Gpu, H: Gpu, b: nat, i: nat)
    requires Proper(cfg) && g < 2 && Pair(cfg, g, G, H) && b < cfg.n && ShapedGpu(cfg, G) && ShapedGpu(cfg, H)
    requires i in G.blocks[b].pend && i < Size(cfg)
    ensures Pair(cfg, g, Emptied(G, b, i), Landed(G, H, b, i))
  {
    hide Half; hide Emptied; hide Landed;
    LandKeeps(cfg, g, G, H, b, i);
    LandPeer(cfg, 1 - g, G, H, b, i);
  }

  lemma PublishPair(cfg: Config, g: nat, G: Gpu, H: Gpu, b: nat)
    requires Proper(cfg) && g < 2 && Pair(cfg, g, G, H) && b < cfg.n && ShapedGpu(cfg, G) && Publishes(G.blocks[b].pc)
    ensures Pair(cfg, g, Published(G, b), Receives(H, G.blocks[b]))
  {
    hide Half; hide Published; hide Receives;
    PublishKeeps(cfg, g, G, H, b);
    PublishPeer(cfg, g, G, H, b);
  }

  lemma StepKeepsPair(cfg: Config, s: State, a: Action)
    requires Proper(cfg) && Shaped(cfg, s) && a.g < 2 && a.b < cfg.n && Pair(cfg, a.g, s[a.g], s[1 - a.g])
    ensures Pair(cfg, a.g, Step(cfg, s, a)[a.g], Step(cfg, s, a)[1 - a.g])
  {
    var G, H := s[a.g], s[1 - a.g];
    StepCells(cfg, s, a);
    hide Pair; hide Step; hide Emptied; hide Landed; hide Published; hide Receives; hide LocalStep;
    if a.Land? {
      if a.i in G.blocks[a.b].pend && a.i < Size(cfg) { LandPair(cfg, a.g, G, H, a.b, a.i); }
    } else if Publishes(G.blocks[a.b].pc) {
      PublishPair(cfg, a.g, G, H, a.b);
    } else {
      LocalKeeps(cfg, a.g, G, H, a.b, a.i);
    }
  }

  lemma PairIsInv(cfg: Config, s: State, g: nat)
    requires Launchable(cfg) && Shaped(cfg, s) && g < 2
    ensures Inv(cfg, s) <==> Pair(cfg, g, s[g], s[1 - g])
  {
    hide Half;
  }

  lemma NobodyMoves(cfg: Config, s: State, a: Action)
    requires Launchable(cfg) && Shaped(cfg, s) && (a.g >= 2 || a.b >= cfg.n)
    ensures Step(cfg, s, a) == s
  {
  }

  lemma StepKeepsInv(cfg: Config, s: State, a: Action)
    requires Proper(cfg) && Shaped(cfg, s) && Inv(cfg, s)
    ensures Inv(cfg, Step(cfg, s, a))
  {
    hide Pair; hide Step; hide Inv; hide Shaped;
    if a.g < 2 && a.b < cfg.n {
      PairIsInv(cfg, s, a.g);
      StepKeepsPair(cfg, s, a);
      PairIsInv(cfg, Step(cfg, s, a), a.g);
    } else {
      NobodyMoves(cfg, s, a);
    }
  }

  lemma {:induction false} RunInv(cfg: Config, acts: seq<Action>)
    requires Proper(cfg)
    ensures Inv(cfg, Run(cfg, acts))
  {
    if acts == [] {
      StartInv(cfg);
    } else {
      RunInv(cfg, acts[..|acts| - 1]);
      hide Inv; hide Step;
      StepKeepsInv(cfg, Run(cfg, acts[..|acts| - 1]), acts[|acts| - 1]);
    }
  }
}
