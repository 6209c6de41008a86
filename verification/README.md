# Model of a persistent GPU interpreter

The repository runs a language model inside one resident kernel per GPU: a grid of
blocks walks a fixed instruction array once per host-signalled pass, kept together
by a hand-written counter barrier, a doorbell/done mailbox and, with two GPUs, an
inbox exchange. An offline compiler decides which instructions share a window
between two barriers. This project models that machinery in Dafny and proves what
its comments promise.

## What is modelled

**Concurrency spine.** `Boundary`, `Interp` and `Exchange` are state machines: one
step is one access to a shared cell by one actor, a run is any sequence of steps, so
a statement about `Run(cfg, acts)` for all `acts` is a statement about every
interleaving. Counters and epochs are 32-bit words that wrap; `arr`, `lep` and
`past` are history that no step reads. In `Interp` an op is an arbitrary
deterministic thread of loads and stores per block, and its stores wait in the block
and reach memory one by one, in any order, until the release in front of a barrier
arrival has seen them out; `WindowRuns` is one window of it as a machine of its own.
In `Exchange` the stores into the peer's inbox wait in the
same way, and only membar.sys or a system-scope release by the same block forces
them; the build switches (no membar, number before the boundary, no lockstep) are
fields of the configuration, so the protocol and its broken variants are runs of one
machine. `BoundaryCode`, `InterpCode` and `ExchangeCode` hold the same code in the
form it has in the source, as objects whose methods update cells, epochs and buffers
in place; every method is proved to be a step of the machine, and `RunPass`, `Cross`
and `Play` carry the theorems as their own postconditions.

**Schedule compiler.** `Schedule` has the window coalescing loop, the lifetime check
and the emission of a cross-GPU fold, `SplitGrid` the division of the 72 blocks
with its termination argument, and `ScheduleRuns` joins them with the interpreter:
the coalesced program and the original one leave the same memory behind.

**Fast ops against simple specifications.** `Warp` (butterfly), `Attention`,
`AttentionReduce`, `KvCache` and `AttentionGrid` (split-KV online softmax, from the
tile loads of one block to all heads of a run of passes, against softmax over the
full history), `DeltaNet` (fused step against the textbook delta rule), `Conv`
(rolling window against a causal convolution of the whole stream), `PackedWords`,
`QuantDot` and `QuantAr16` (packed-word lane-strided dots against element-by-element
dots). Floats are reals; where the claim is about bits (butterfly, exchange) addition
is an arbitrary operation, commutative where the source relies on it. The
exponential is a function `e` with e(0) = 1, e(a + b) = e(a) e(b), positive and
increasing.

**Two GPUs.** `TensorSplit`, `WeightSlice` and `WeightProducts` (the byte loops that
slice a weight, what the decoded parts compute, and exactly when nothing is lost),
`SplitRows` (a quantised row product on both halves), `DeltaSplit` (the DeltaNet step
on two half machines with its modulo head map).

A Q4_0 row is the dot of the decoded operands only up to an offset: the sum that an
activation block stores is that of the values before they were rounded, and it enters
through the eight taken off each nibble. `QuantDot.OffsetVanishes` says exactly when a
block's offset is zero. An AR16 row has none.

The source calls both halves of a contiguous split exact. They are, exactly if the
quantisation blocks of a row (column split) or the rows (row split) are even in
number; nothing in k0/harness.cpp:1401-1462 or k0/gguf.h:215-230 checks that
(`WeightProducts.ColumnLosslessExactly`, `RowsLosslessExactly`, `OneBlockIsCut`).

## Hypotheses

- The client calls run_pass again only after RUN_OK, and pass numbers stay below
  0xFFFFFFFF, the HALT value (`Interp.HostStep`).
- `Sound`: no block raises, as the first one ever, before the first boundary of pass
  2 or later while a third block may still be at the sample of the pass before. Both
  raise sites of the repository raise for the instruction alone, and then it holds
  (`InterpControl.InstructionRaises`). The comment at core/interp.cu:126-129 argues
  that a raise is visible to everybody at the end of its pass; it does not say that a
  raise of the next pass is invisible to a slow block. `InterpLaggard.UniformExactly`
  shows that all blocks leave together in every run if and only if no such early
  raise exists, and `EarlyRaiseStrands` with `WaitsForever` what happens otherwise.
- `WindowsRaceFree`: in the sequential run no two blocks of one window conflict on a
  cell. `ScheduleRuns.HazardFreeRunsRaceFree` derives it from the compiler's own
  lifetime check, given a packer whose instructions touch only the buffers they
  declare, with disjoint buffers.

## Model

| member | source | states |
|---|---|---|
| Words.BehindIsLess | core/sync.cuh:97 | the signed 32-bit distance test orders two unbounded counts correctly anywhere in the wrap-around cycle as long as they are less than 2^31 apart |
| Arrivals.PollExact | core/sync.cuh:96-97 | with at most 2^31 - 1 blocks the wrapped poll spins exactly when fewer than epoch times n arrivals were made, that is exactly for the blocks that are one arrival ahead |
| Boundary.BoundarySafety | core/sync.cuh:91-100 | every reachable state, any number of crossings: counter is the arrivals mod 2^32, epochs differ by at most one, a block that is not spinning is not ahead of anybody, and the signed poll agrees with the unbounded comparison |
| Boundary.LeaveMeansAllArrived | core/sync.cuh:97 | corollary on the step: a poll that lets a block leave crossing e happens only after every block has arrived at e |
| Boundary.SpinnerLeaves | core/sync.cuh:91-100 | progress: from every reachable state the blocks behind a spinning block can let it go by moves of their own, none going further than it |
| Boundary.MoveLowersWork | core/sync.cuh:91-100 | with every block stopping after k crossings, each move that changes the state lowers what is left: no schedule goes on forever |
| Boundary.EverybodyCrosses | core/sync.cuh:91-100 | with every block stopping after k crossings, every run can be continued until all have made all k and nobody spins |
| InterpResults.BoundaryPublishes | core/sync.cuh:80-85 | when the last block arrives, every block stands in the boundary with no store waiting: all stores issued before it are in memory for every load after it |
| BoundaryCode.GridBoundary.ArriveAt | core/sync.cuh:93-95 | the arrival adds one to own epoch and shared counter; the object stays a reachable state of the machine |
| BoundaryCode.GridBoundary.PollOnce | core/sync.cuh:96-97 | one load of the counter lets the block go exactly if every block has arrived as often as it |
| BoundaryCode.GridBoundary.Cross | core/sync.cuh:91-100 | a whole crossing, the other blocks moving between its polls in any way: it polls again after every move of theirs and leaves at the first poll at which all blocks have arrived at this crossing, else it spins on |
| Program.SoloFrame | core/interp.cu:114-122 | what a block does alone depends only on the cells it loads, and it leaves agreement on what it stores |
| Program.ReadOverWrite | core/interp.cu:114-122 | a load finds what was stored last in its cell, waiting in the block or in memory, and stores to other cells do not matter |
| Program.WindowDrain | core/interp.cu:114-122 | a delayed store of one block reaching memory changes the future of no other block of a race-free window |
| Program.WindowIsSequential | core/interp.cu:92-130 | the window invariant with all stores drained at the end of a race-free window pins memory down to the sequential result |
| WindowRuns.RunInv | core/interp.cu:114-122 | every run of the window machine, any moves of the blocks and any drains, keeps that invariant |
| WindowRuns.AnyRunIsSequential | core/interp.cu:92-130 | every run of a race-free window that is at its end with all stores drained has left memory as running its instructions one at a time in program order |
| WindowRuns.EveryRunEnds | core/interp.cu:92-130 | every run of a window can be continued to that end |
| InterpControl.InstructionRaises | core/interp.cu:109-111 | raises that depend on the instruction alone satisfy the raise hypothesis |
| InterpControl.DoorValue | core/interp.cu:62-70 | what a block can read at the doorbell: an old number, HALT, or exactly the number of the pass that is open |
| InterpControl.RaiseIsLate | core/interp.cu:18-25 | under the hypothesis, when a block raises nobody is still sampling the error cell for the pass before |
| InterpControl.ArrivalPlace | core/interp.cu:95-104 | a block that arrives stands at the boundary that ends the current window and has not arrived there yet |
| InterpControl.RunInv | core/interp.cu:57-145 | the control invariant (places of all blocks, doorbells, done cell, error cells, barrier counts) holds in every reachable state |
| InterpData.ClosedWindow | core/interp.cu:95-104 | when every block stands at the end of a window, memory is that of the sequential run up to there |
| InterpData.StagingKeepsData | core/host.cpp:146-151 | the host writes its input cells while no block is inside a pass |
| InterpData.RunData | core/interp.cu:92-130 | in every reachable state each open window is on its way to the sequential result |
| InterpResults.InterleavedIsSequential | core/interp.cu:57-145 | headline: after RUN_OK for pass p, in any interleaving, memory is that of running the instructions of passes 1..p one at a time, and no store is held back |
| InterpResults.RunOkMeansDone | core/host.cpp:138-172 | RUN_OK for pass p: every block executed each instruction in its range exactly once in each pass up to p and nothing beyond, none raised, no instruction is bad |
| InterpResults.WhoExecutesWhat | core/interp.cu:95-122 | the same by instruction fields: in each pass exactly the blocks lo <= b < hi execute an instruction that is no boundary, and every kind is a boundary or a wired kind below 27 |
| InterpResults.UniformExit | core/interp.cu:105-144 | blocks that left the kernel left at the same point, with the same number of arrivals as every other block, so no boundary is half arrived |
| InterpResults.PassesClose | core/interp.cu:57-77 | blocks are at most one pass apart |
| InterpResults.EntersWhatWasRung | core/interp.cu:59-77 | a block enters exactly the pass the host rang last: none skipped, none repeated |
| InterpResults.PassesDoNotOverlap | core/interp.cu:125-145 | while a block is inside pass p, every block has executed all of pass p - 1 |
| InterpProgress.EffectiveStepLowersWork | core/interp.cu:57-145 | every block step that changes the state lowers a bound on the work left until the host rings again |
| InterpProgress.NotStuck | core/interp.cu:57-145 | until all blocks wait for the next ring or have left, some block step changes the state |
| InterpProgress.ComesToRest | core/interp.cu:57-145 | from every reachable state the blocks come to rest without the host |
| InterpProgress.RestMeansFinished | core/host.cpp:155-171 | once the blocks are at rest while the host polls pass p, the done cell says p, or all have left and the error cell is set |
| InterpProgress.BadKindReported | core/interp.cu:105-113 | block 0 leaves over a bad or unwired kind only with the host error cell set |
| InterpRaise.RefinesBoundary | core/interp.cu:50-51 | every run of the interpreter is, as far as counter and epochs go, a run of the boundary machine |
| InterpRaise.WaitsForever | core/interp.cu:130-144 | a block that waits at a boundary which a block that left never reached waits forever |
| InterpLaggard.EarlyRaiseStrands | core/interp.cu:126-144 | counterexample family: with an early raise some schedule lets a laggard leave at the end of pass p - 1 and strands the raiser in pass p |
| InterpLaggard.UniformExactly | core/interp.cu:126-144 | all blocks leave together in every run if and only if the program has no early raise |
| InterpCode.Device.constructor | core/interp.cu:50-57 | the cells as launched: the start state of the machine |
| InterpCode.Device.PollDoorbell | core/interp.cu:59-70 | one doorbell load, of the host cell by block 0 and of its copy by the others, is the machine step of a block at the door |
| InterpCode.Device.ForwardBell | core/interp.cu:65 | block 0 passes the value on and then acts on it |
| InterpCode.Device.TakeBell | core/interp.cu:74-77 | HALT leaves the kernel, a pass number starts the instruction loop |
| InterpCode.Device.WalkOn | core/interp.cu:92-123 | boundary, bad or unwired kind, op in range or skip: the machine step at instruction i, in the order of the source |
| InterpCode.Device.OpAccess | core/interp.cu:114-122 | one load (from own waiting stores first), one store (which then waits) or the return of the op |
| InterpCode.Device.Arrive | core/interp.cu:95-104 | the arrival happens only when the block has no store waiting |
| InterpCode.Device.SpinOnCounter | core/sync.cuh:97 | one poll of the counter |
| InterpCode.Device.RaiseError | core/interp.cu:18-25 | host cell first, then device cell; a bad kind then leaves |
| InterpCode.Device.FinishPass | core/interp.cu:131-145 | error sample, then the done cell of block 0, then the next pass |
| InterpCode.Device.TickBlock | core/interp.cu:57-145 | the next step of a block updates the cells as the machine does and leaves the host alone |
| InterpCode.Device.DrainStore | core/sync.cuh:82-85 | one waiting store reaches memory |
| InterpCode.Device.BeginPass | core/host.cpp:139-144 | RUN_ERR if the error cell is set, else the next pass number |
| InterpCode.Device.StageInputs | core/host.cpp:146-151 | the input cells are written before the ring, or the copy fails and nothing changes |
| InterpCode.Device.Ring | core/host.cpp:152-153 | the doorbell holds the pass number |
| InterpCode.Device.ReadError | core/host.cpp:158-164 | a set error cell ends the call with RUN_ERR |
| InterpCode.Device.ReadDone | core/host.cpp:165-170 | the done cell ends the call with RUN_OK, the deadline with RUN_TIMEOUT |
| InterpCode.Device.RunPass | core/host.cpp:138-172 | run_pass as the source has it, with any block steps between its accesses and an input copy that may fail: every step it makes is recorded, and what it returns is decided by what its accesses find (Returned): RUN_TIMEOUT only after deadline + 1 polls that all found nothing, RUN_ERR at the read that found the cell set, RUN_OK at the first poll that finds the pass done; RUN_OK implies pass number advanced by one, exactly-once execution without raises in every pass so far, and sequential memory |
| InterpCode.TimeoutExactly | core/host.cpp:155-171 | after a copy that succeeded a call returns RUN_TIMEOUT exactly if neither the first test nor any of the deadline + 1 polls found anything |
| InterpCode.DoneIsSeen | core/host.cpp:155-166 | a done cell that holds the pass number at a poll up to the deadline, with no error found until then, makes the call return RUN_OK at that poll or an earlier one |
| InterpCode.OneOutcome | core/host.cpp:138-172 | what the accesses find leaves one status and one number of accesses |
| InterpCode.Device.Halt | core/host.cpp:174-178 | the HALT value in the doorbell |
| ExchangeSafety.Links | tests/litmus_xchg.cu:96-135 | how far each GPU can be from what it has received, in boundaries |
| Exchange.OwnerExact | tests/litmus_xchg.cu:73-78 | the grid-stride loop: thread t of block b visits b threads + t and every n threads-th index from there on, and nobody else does |
| ExchangeSafety.PollSeqExact | tests/litmus_xchg.cu:105-106 | the 32-bit poll of the round number compares it as a number |
| ExchangeSafety.PollDoneExact | tests/litmus_xchg.cu:132-133 | and so does the poll of the done number |
| ExchangeSafety.PeerWaits | tests/litmus_xchg.cu:126-135 | while a block folds round r the peer has published r and has not begun to push r + 1 |
| ExchangeSafety.FoldInputs | tests/litmus_xchg.cu:110-116 | the two cells a fold reads hold the two partials of its round |
| ExchangeSafety.RunInv | tests/litmus_xchg.cu:76-136 | the exchange invariant holds in every reachable state, with peer stores delayed and reordered at will |
| ExchangeResults.FoldsBothPartials | tests/litmus_xchg.cu:109-119 | in every run and round each fold reads exactly both partials of the round, never stale, torn or overwritten, and stores their sum |
| ExchangeResults.SettledResult | tests/litmus_xchg.cu:109-124 | between the end of a fold and the next one the result buffer holds the whole sum |
| ExchangeResults.ResultsIdentical | tests/litmus_xchg.cu:118-122 | both GPUs hold the same result, element for element, for any addition |
| ExchangeResults.NotStuck | tests/litmus_xchg.cu:76-136 | until both kernels have left some move changes the state |
| ExchangeResults.StepLowersCost | tests/litmus_xchg.cu:76-136 | every move that changes its block lowers a bound on the moves left |
| ExchangeResults.ExchangeEnds | tests/litmus_xchg.cu:76-136 | from every reachable state both GPUs finish their last round, with identical results |
| ExchangeBroken.SecondBlockPushes | tests/litmus_xchg.cu:86-91 | elements pushed by another block than the publishing one exist exactly if there are two blocks and more quads than threads per block |
| ExchangeBroken.NoMembarTears | tests/litmus_xchg.cu:92-94 | without membar.sys, in every configuration, for every such element whose partial differs from the fresh inbox, on either GPU: some run is about to fold it with its peer store not landed |
| ExchangeBroken.EarlyNumberTears | tests/litmus_xchg.cu:96-99 | the same with the round number published before the boundary, fence or not: the element was not pushed yet |
| ExchangeBroken.NoLockstepOverwrites | tests/litmus_xchg.cu:126-135 | without the lockstep, for any number of blocks and every element that differs between rounds 1 and 2: some run is about to fold it with round 2 in the inbox |
| ExchangeCode.Board.ComputeOne | tests/litmus_xchg.cu:77-78 | one element of the local partial, in place |
| ExchangeCode.Board.PushOne | tests/litmus_xchg.cu:91 | one store towards the peer, which then waits |
| ExchangeCode.Board.PassFence | tests/litmus_xchg.cu:92-99 | membar.sys waits for the block's own peer stores, if it is built in |
| ExchangeCode.Board.ArriveAt | core/sync.cuh:93-95 | arrival at one of the round's boundaries |
| ExchangeCode.Board.PollOnce | tests/litmus_xchg.cu:105-107 | one poll of counter, number or done cell |
| ExchangeCode.Board.ReduceOne | tests/litmus_xchg.cu:109-123 | one fold in GPU order; the stale counter goes up by one exactly if the result is not the sum of both partials |
| ExchangeCode.Board.Publish | tests/litmus_xchg.cu:102-104 | a release store to the peer, only when the block's own stores are out |
| ExchangeCode.Board.LandOne | tests/litmus_xchg.cu:91 | one waiting store reaches the peer's inbox |
| ExchangeCode.Pair.Play | tests/litmus_xchg.cu:76-136 | any move of either GPU, in place; the stale counters hold the number of wrong folds of the run, and in the proper build they stay zero |
| ExchangeCode.Pair.Verdict | tests/litmus_xchg.cu:118-122 | after both kernels have left, no stale fold was counted and the result buffers are equal to the sums of the last round |
| Schedule.WinRw | k0/compile_schedule.py:750-755 | the accumulated sets are the unions of the instructions' reads and writes |
| Schedule.IndependentExact | k0/compile_schedule.py:758-762 | the union test holds exactly if no instruction of one window clashes with one of the other |
| Schedule.Coalesce | k0/compile_schedule.py:773-783 | the merging loop computes the specification that the lemmas below are about |
| Schedule.JoinsExactly | k0/compile_schedule.py:773-783 | the next window joins the last merged one exactly if neither contains an exchange, no instruction of one writes what one of the other touches, and at most one instruction of the two streams 524288 bytes or more |
| Schedule.NeighboursKeptApart | k0/compile_schedule.py:773-783 | between any two neighbours of the result there is an exchange, a dependent pair of instructions, or two instructions of 524288 bytes or more |
| Schedule.CoalescingKeepsOrder | k0/compile_schedule.py:773-783 | the instruction sequence is unchanged |
| Schedule.UnionHazardFree | k0/compile_schedule.py:758-762 | a union of windows is hazard-free exactly if both are and the union test passes |
| Schedule.CoalescingKeepsHazards | k0/compile_schedule.py:729-733 | hazard-free windows stay hazard-free |
| Schedule.CoalescingOnlyRemovesBoundaries | k0/compile_schedule.py:738-740 | every boundary of the result was a boundary before |
| Schedule.CoalescingKeepsProtected | k0/compile_schedule.py:742-744 | exchange windows and windows with two heavy ops come out as they went in, and no merge makes a new one |
| Schedule.ExchangeSeparates | k0/compile_schedule.py:742-744 | an exchange window cuts the list: what is before and after it is coalesced separately, so its boundaries stay |
| Schedule.EmitColReduce | k0/compile_schedule.py:326-353 | push and reduce are emitted as windows of their own and coalescing leaves both alone; nothing on one GPU |
| Schedule.MergeableMonotone | k0/compile_schedule.py:773-783 | dependence, heavy count and exchanges only grow with a window |
| Schedule.CoalescedIsSettled | k0/compile_schedule.py:773-783 | no two neighbours of the result can be merged |
| Schedule.CoalescingIsIdempotent | k0/compile_schedule.py:773-783 | coalescing twice is coalescing once |
| Schedule.WindowHazards | k0/compile_schedule.py:819-828 | the pair loop counts each ordered pair in which one instruction writes what the other touches, once, and so none exactly if the window is hazard-free |
| Schedule.LifetimeCheck | k0/compile_schedule.py:817-830 | the hazards of all windows are added up; none is counted exactly if every window is hazard-free |
| SplitGrid.OrderIsStableSort | k0/compile_schedule.py:794 | the adjustment order is the stable sort by falling estimate |
| SplitGrid.Proportional | k0/compile_schedule.py:793 | the rounded shares, each at least one |
| SplitGrid.ShareIsFloor | k0/compile_schedule.py:793 | a rounded share is the floor of 72 est / total, or one if that is less |
| SplitGrid.RoundingLoss | k0/compile_schedule.py:791-793 | rounding down loses fewer blocks than there are instructions; otherwise the minimum of one has overdrawn the grid |
| SplitGrid.NextTurn | k0/compile_schedule.py:797-802 | while too many blocks are given out, some share can be lowered within one round of the order (the termination argument) |
| SplitGrid.Split | k0/compile_schedule.py:789-803 | terminates; every share at least one, shares sum to 72, and are the rounded shares plus one for the heaviest, or, overdrawn, what the fewest turns of the order leave of them |
| SplitGrid.ToppedExact | k0/compile_schedule.py:798-799 | exactly the first instructions of the order get one block more, and only one |
| SplitGrid.DrawnExact | k0/compile_schedule.py:800-801 | when the grid is overdrawn each instruction gives back one block per turn it had, down to one |
| SplitGrid.Assign | k0/compile_schedule.py:806-814 | the block ranges are nonempty, consecutive and cover the grid; instruction k gets exactly the share that Split settles on for it, behind the shares of those before it, and one alone gets [0, 72) |
| SplitGrid.AllotsUnique | k0/compile_schedule.py:789-803 | those shares are determined by the estimates |
| SplitGrid.TilesCover | k0/compile_schedule.py:806-814 | every block is in the range of exactly one instruction of the window |
| ScheduleRuns.EmittedMeaning | k0/compile_schedule.py:862-867 | the emitted program means what the instruction list means, whatever the windows and block ranges |
| ScheduleRuns.BlockRunsOne | k0/compile_schedule.py:806-814 | every block of the grid runs exactly one instruction of an emitted window |
| ScheduleRuns.WindowRaceFree | k0/compile_schedule.py:817-830 | a window that the lifetime check accepts is race-free between blocks, from any memory |
| ScheduleRuns.HazardFreeRunsRaceFree | k0/compile_schedule.py:817-830 | a program that the lifetime check accepts satisfies the interpreter's hypothesis in every pass |
| ScheduleRuns.ScheduledRunIsSequential | k0/compile_schedule.py:862-867 | compiler and interpreter together: after RUN_OK memory is what the instruction list means, one at a time |
| ScheduleRuns.CoalescingPreservesMeaning | k0/compile_schedule.py:773-783 | the merged and the unmerged program, each in its own interleaving and with its own block ranges, agree on all of memory after every completed pass |
| Warp.PartnerIsXor | core/sync.cuh:28-29 | for the offsets 16, 8, 4, 2, 1 the exclusive or flips one bit of the lane number |
| Warp.WarpSum | core/sync.cuh:27-31 | the shuffle loop computes the stages |
| Warp.AllLanesIdentical | core/sync.cuh:24-31 | with a commutative addition all 2^k lanes end with the identical value |
| Warp.TreeIsTotal | core/sync.cuh:24-31 | with an associative addition too, that value is the sum of all lanes |
| Warp.WarpSumIsTotal | core/sync.cuh:24-31 | every lane ends with the total |
| RealSums.LanesAddUp | k0/ops/gdn.cuh:300-313 | lane-strided partial sums add up to the whole sum |
| RealSums.ReduceWarp | k0/ops/gdn.cuh:58-64 | the butterfly over 32 lanes leaves the sum of all of them in every lane |
| Attention.WarpMax | k0/ops/attn.cuh:88-92 | the butterfly leaves the maximum of the lanes' scores |
| Attention.Accumulate | k0/ops/attn.cuh:371-382 | skipping zero weights does not change the weighted sum |
| Attention.TileStep | k0/ops/attn.cuh:356-382 | moving sums to a new maximum and adding a tile keeps the meaning of the running record |
| Attention.PhaseK | k0/ops/attn.cuh:356-361 | phase K of a tile: new maximum over all lanes, rescaled and extended row sum, and this tile's weights |
| AttentionReduce.Reduce | k0/ops/attn.cuh:432-453 | the merge loop computes the fold |
| AttentionReduce.MissingRecordsCounted | k0/ops/attn.cuh:436-439 | records never written are counted one by one and otherwise leave the fold alone |
| AttentionReduce.MergeStep | k0/ops/attn.cuh:445-452 | merging the next chunk keeps sums over a retained set of positions; everything flushed is more than 20 below the maximum |
| AttentionReduce.ChunksMerge | k0/ops/attn.cuh:432-453 | and so for all chunks |
| AttentionReduce.DroppingIsSmall | k0/ops/attn.cuh:448-449 | dropping positions more than 20 below the maximum moves the mean by at most 2 n exp(-20) max abs v |
| AttentionReduce.SplitAttention | k0/ops/attn.cuh:431-457 | decode and reduce give exact softmax over the retained positions, no error counted, row sum positive, and the result is within 2 n exp(-20) max abs v of full softmax, for any scores, mask and division into chunks |
| Softmax.MeanAnyReference | k0/ops/attn.cuh:325-361 | the softmax mean does not depend on the reference that exponentials are taken against |
| KvCache.PadUpExact | k0/harness.cpp:263 | the smallest multiple of m not below v |
| KvCache.SetPassInputs | k0/harness.cpp:549-569 | window length padded to 256 and a mask that is zero exactly for positions 0..pos, or failure past the cap |
| KvCache.ChunksPartition | k0/ops/attn.cuh:306-309 | the chunks begin at whole tiles and partition the window |
| KvCache.ChunkWords | k0/ops/attn.cuh:306-309 | computed in 32-bit words the chunk bounds are those numbers, for every window that leaves room for one tile per chunk below 2^32 |
| KvCache.RecordWriters | k0/ops/attn.cuh:318-323 | each (head, chunk) record has exactly one writer if the heads of a group fit the warps, and exactly then |
| KvCache.Append | k0/ops/attn.cuh:199-211 | row `row` becomes the cast source in whole groups of four, all of it where the width is a multiple of four; a shorter tail and all other rows are unchanged, for any number of threads |
| KvCache.AppendThread | k0/ops/attn.cuh:203-210 | one thread writes exactly its groups of four |
| KvCache.LoadSlice | k0/ops/attn.cuh:267-281 | the tile holds 32 rows of the head's columns, zero past the limit |
| KvCache.PairDot | k0/ops/attn.cuh:348-353 | the dot taken two columns at a time is the dot product |
| KvCache.ScaleIsRoot | k0/ops/attn.cuh:54-57 | the scale is one over the square root of the head dimension |
| KvCache.AttentionIsSoftmax | k0/ops/attn.cuh:325-361 | what every pass is measured against is the textbook formula, sum of exp(q k / 16) v over sum of exp(q k / 16), over the reals |
| KvCache.MeanIgnoresMasked | k0/ops/attn.cuh:236-242 | the padded tail of the window does not count |
| AttentionGrid.FillTile | k0/ops/attn.cuh:267-281 | the tile holds 32 rows of one kv head's slice of a cache |
| AttentionGrid.LaneDots | k0/ops/attn.cuh:343-355 | one score per lane from the loaded tile: scaled dot product, minus infinity where masked or behind the chunk |
| AttentionGrid.PhaseV | k0/ops/attn.cuh:366-383 | every dimension of the accumulator is rescaled and extended by the loaded tile |
| AttentionGrid.KvHead | k0/ops/attn.cuh:320-386 | the tile loop of one kv head over one shared tile: each warp's record stands for its head over the whole chunk, in all dimensions |
| AttentionGrid.CarriedNext | k0/ops/attn.cuh:318-323 | each (kv head, warp) pair adds exactly one head to those carried |
| AttentionGrid.DecodeBlock | k0/ops/attn.cuh:283-400 | one block writes the record of its chunk for exactly the heads that a warp carries, and no other record |
| AttentionGrid.DecodeGrid | k0/ops/attn.cuh:283-400 | all blocks: every (head, chunk) record of a carried head is written, with the right contents |
| AttentionGrid.ReduceHeads | k0/ops/attn.cuh:424-457 | every head and dimension is folded over its own chunk records |
| AttentionGrid.AttendPass | k0/ops/attn.cuh:283-458 | one pass over caches holding the history: for every head that a warp carries and every dimension exact attention over it, up to the flush bound |
| AttentionGrid.RunPasses | k0/harness.cpp:1197-1310 | from position 0, one row per pass: row j holds what pass j appended, attention at pass p is over exactly rows 0..p for all heads and dimensions, and the run stops exactly where the window passes the cap |
| DeltaNet.FusedIsDeltaRule | k0/ops/gdn.cuh:307-335 | the fused column update and output are those of the textbook rule |
| DeltaNet.LaneDot | k0/ops/gdn.cuh:307-314 | lane partials over rows lane, lane + 32, ... close to the full dot product |
| DeltaNet.LaneRows | k0/ops/gdn.cuh:319-325 | one lane's second loop: its rows of the new column and its share of the output |
| DeltaNet.LaneUpdate | k0/ops/gdn.cuh:316-326 | all lanes: the new column and the reduced output |
| DeltaNet.WriteBack | k0/ops/gdn.cuh:328-331 | the column is stored and no other column changes |
| DeltaNet.Task | k0/ops/gdn.cuh:285-335 | one (head, column) task, state in place or into another buffer |
| DeltaNet.WarpTasks | k0/ops/gdn.cuh:284-336 | one warp does every nwarps-th task and touches nothing else |
| DeltaNet.OpGdnStep | k0/ops/gdn.cuh:275-337 | whatever order the warps come in, every task is done exactly once, from the state before the step, in place or into another buffer |
| DeltaNet.StepIsDeltaRule | k0/ops/gdn.cuh:275-337 | every head's state and output after the step are those of S' = gS, d = b(v - S'k), S'' = S' + k d, o = scale S''q |
| DeltaNet.RunTokens | k0/ops/gdn.cuh:275-337 | over any token sequence with in-place state: the recurrence of the delta rule, and every output |
| Conv.CopyRow | k0/ops/gdn.cuh:92-101 | one row copied, by fours or singly, for any number of threads; nothing else changes |
| Conv.ShiftChannel | k0/ops/gdn.cuh:131-138 | window is history plus the new input; committed history is the last three of it |
| Conv.ShiftThread | k0/ops/gdn.cuh:130-139 | one thread does every nthreads-th channel and disturbs no other |
| Conv.ShiftConcat | k0/ops/gdn.cuh:124-140 | all threads: every channel shifted once |
| Conv.ConvSilu | k0/ops/gdn.cuh:156-171 | the four taps in order, then silu, per channel |
| Conv.ConvToken | k0/ops/gdn.cuh:124-171 | load, shift, convolve for one token: the kept history moves on by one input |
| Conv.TapsAreCausal | k0/ops/gdn.cuh:161-168 | the four taps over the window are the causal convolution of the full stream |
| Conv.ConvTokens | k0/ops/gdn.cuh:124-171 | over any token sequence each output is the causal convolution of initial history and tokens, and the committed history is the stream's last three |
| PackedWords.UnpackOrder | k0/ops/gemv.cuh:163-170 | the byte permute and saturating subtract give eight signed nibbles in element order |
| PackedWords.NibbleLessEight | k0/ops/gemv.cuh:167-168 | a nibble less eight never saturates |
| PackedWords.S8Exact | k0/ops/gemv.cuh:291-296 | a signed byte is the number in -128..127 that it is modulo 256 |
| QuantDot.PairWords | k0/ops/gemv.cuh:271-275 | the funnel-shifted and plain words of a pair are the nibbles of its two blocks |
| QuantDot.BlockDot | k0/ops/gemv.cuh:291-296 | the packed products of a block are its element-by-element dot, and the 32-bit sum never overflows |
| QuantDot.Q40Pair | k0/ops/gemv.cuh:261-285 | one block pair adds exactly its two block terms |
| QuantDot.Q40Single | k0/ops/gemv.cuh:287-300 | one tail block, read as 16-bit words, adds exactly its term |
| QuantDot.LanesVisitAll | k0/ops/gemv.cuh:242-246 | pair loop and tail loop of the 32 lanes together visit each block once |
| QuantDot.Q40Lane | k0/ops/gemv.cuh:256-302 | one lane's partial |
| QuantDot.Q40RowDot | k0/ops/gemv.cuh:315-319 | for every ncols divisible by 64 a row's output is the dot of the decoded weights (scale times nibble less eight) with the decoded activations (scale times signed byte), plus the offsets of its blocks |
| QuantDot.OffsetVanishes | k0/ops/gemv.cuh:274-284 | a block's offset is zero exactly if its weight scale is zero or its stored sum is its scale times the sum of its signed bytes |
| QuantDot.ExactRow | k0/ops/gemv.cuh:274-299 | where every block's offset is zero the offsets of a row sum to zero, so the row is exactly the dot of the decoded operands |
| QuantDot.SumIsRaw | k0/ops/gemv.cuh:225-238 | the stored sum is that of the values before rounding, so the offset is not zero in general: a concrete row |
| QuantDot.Q40Warp | k0/ops/gemv.cuh:315-319 | one warp writes its rows of the range and no other |
| QuantDot.Q40Op | k0/ops/gemv.cuh:305-321 | each row of [row_lo, row_hi) is written by exactly one warp with the value of Q40RowDot, rows outside are left alone |
| QuantAr16.CodeDot | k0/ops/gemv.cuh:376-388 | two unpacked code words against four activation words are the signed element dot, and the 32-bit sum never overflows |
| QuantAr16.Ar16Pair | k0/ops/gemv.cuh:369-393 | one block pair adds exactly its two block terms |
| QuantAr16.Ar16Single | k0/ops/gemv.cuh:395-409 | one tail block with its parity-picked half adds exactly its term |
| QuantAr16.Ar16Lane | k0/ops/gemv.cuh:364-411 | one lane's partial |
| QuantAr16.Ar16RowDot | k0/ops/gemv.cuh:424-428 | for every ncols divisible by 32 a row's output is exactly the dot of the decoded weights with the decoded activations |
| TensorSplit.SliceAt | k0/harness.cpp:1408-1420 | element (block, place) of a slice is the element at the global index |
| TensorSplit.OneOwner | k0/harness.cpp:1411-1417 | every index below the whole periods has exactly one (GPU, block, place) |
| TensorSplit.LosslessExactly | k0/harness.cpp:1409-1417 | the split reaches every index exactly if the period divides the dimension and is even (or there is nothing) |
| TensorSplit.SliceConcat | k0/harness.cpp:1369 | a slice of concatenated parts is the concatenation of their slices |
| TensorSplit.ColumnSplitAddsUp | k0/harness.cpp:1434-1449 | real vectors sliced by whole periods: the two partial dots sum to the whole dot; for the weights' bytes this is WeightProducts.ColumnPartsAddUp |
| TensorSplit.RowSplitReassembles | k0/harness.cpp:1408-1420 | a real matrix sliced by rows computes the slice of the full product; for the weights' bytes this is WeightProducts.RowPartsReassemble |
| WeightSlice.StrideTable | k0/harness.cpp:1368-1378 | which name gets which stride, whatever the order of the tests |
| WeightSlice.AxisTable | k0/harness.cpp:1380-1399 | which name is split by columns, which by rows, and which is mirrored, whatever the order of the tests |
| WeightSlice.PartByName | k0/harness.cpp:1401-1462 | the part of a weight by the end of its name alone, for every name |
| WeightSlice.StridedCopy | k0/harness.cpp:1411-1417 | the copying loop produces the slice, dropping what is behind the last whole period |
| WeightSlice.ColumnRow | k0/harness.cpp:1442-1447 | one row's column-block loop, with the source's own byte offsets, produces the slice of the row |
| WeightSlice.RowsStrided | k0/harness.cpp:1408-1420 | whole rows in period blocks: the byte slice by periods of rows |
| WeightSlice.ColumnStrided | k0/harness.cpp:1434-1449 | all rows one after the other, each sliced by half periods; what row r of that holds is WeightProducts.PartRowIsSlice |
| WeightSlice.ColumnHalves | k0/harness.cpp:1455-1459 | all rows, this GPU's half of the bytes of each, an odd byte left out |
| WeightSlice.SliceWeight | k0/harness.cpp:1401-1462 | the part chosen by the weight's name, in all six cases |
| WeightSlice.UnitsOfSlice | k0/harness.cpp:1408-1420 | slicing bytes by periods of units keeps every unit whole and takes exactly this GPU's units |
| WeightProducts.SliceDecodes | k0/harness.cpp:1439-1447 | slicing the bytes of whole quantisation blocks by an even number of blocks is slicing the decoded values |
| WeightProducts.PartRowIsSlice | k0/harness.cpp:1434-1459 | row r of a column-split part is the slice of the weight's row r |
| WeightProducts.PartRowDecodes | k0/harness.cpp:1434-1459 | and decodes to this GPU's half of every period of the row's values |
| WeightProducts.ColumnPartsAddUp | k0/harness.cpp:1434-1459 | for every column-split weight and row: the dots of the two parts' decoded rows with their halves of the input sum to the decoded whole row's dot, for any block decoder |
| WeightProducts.ColumnLosslessExactly | k0/harness.cpp:1434-1459 | no value of a row is lost exactly if the columns are whole periods (strided) or the blocks per row are even in number (contiguous halves); otherwise each half decodes floor(blocks / 2) blocks |
| WeightProducts.OneBlockIsCut | k0/harness.cpp:1455-1459 | a weight that the source accepts and cuts inside a block: neither half decodes to anything |
| WeightProducts.PartRowsAreSlice | k0/harness.cpp:1408-1453 | the rows of a row-split part are this GPU's halves of every period of rows, each whole |
| WeightProducts.KindsByName | k0/harness.cpp:1368-1399 | which names are divided by rows and which by columns |
| WeightProducts.RowPartsReassemble | k0/harness.cpp:1408-1453 | for every row-split weight the decoded part computes exactly its slice of what the decoded whole computes |
| WeightProducts.RowsLosslessExactly | k0/harness.cpp:1408-1453 | no row is lost exactly if the rows are whole periods (strided) or even in number (contiguous halves) |
| WeightProducts.VectorPart | k0/harness.cpp:1421-1433 | a per-head vector's part holds this GPU's eight of every sixteen scalars |
| SplitRows.TwoGpusRow | k0/harness.cpp:1434-1459 | for every column-split Q4_0 weight that loses nothing, every row and all activations: what the row dot returns on the two GPUs, each on its part of the row's bytes and of the quantised activations, sums to what it returns for the whole row |
| SplitRows.LayoutsAgree | k0/gguf.h:44-58 | the block layouts that the row dots read are those that the slicing cuts by |
| DeltaSplit.HeadMapAgrees | k0/ops/gdn.cuh:287 | a local value head names, on its GPU, exactly the key head its global head names |
| DeltaSplit.SameInputs | k0/ops/gdn.cuh:287-293 | and so sees the same keys, queries, values, decay and coefficient |
| DeltaSplit.HalvesAgree | k0/ops/gdn.cuh:275-337 | every column and output of the half step is the global one |
| DeltaSplit.SplitStepRefines | k0/harness.cpp:1368-1378 | state and output of the full step are found at exactly one GPU and local head each |
| DeltaSplit.HalfIsSlice | k0/harness.cpp:1368-1378 | state and output of a half machine after a step are the slices of the whole machine's |
| DeltaSplit.SplitRunRefines | k0/harness.cpp:1368-1378 | over any token sequence the half machine stays on its slice and emits its slice of every output |

## Left out

- CUDA runtime calls, streams, clocks, watchdog printing and teardown: the host is the writer and reader of mailbox cells, and the deadline is a number of polls.
- The threads of a block between two block-wide barriers of the interpreter: a block is one deterministic thread of accesses, and its op ends within a bound that the instruction carries.
- InterpCode.Device.RaiseError: stores no aux word, which the host only prints, and has both error cells present.
- Cycle counters.
- The incoherent L1 cache: loads read the block's own waiting stores, else memory, as the strong-read rule of core/sync.cuh:8-14 intends; the plain-read build of the exchange litmus is therefore not modelled.
- The litmus's stores to its own GPU's buffers are immediate: the gpu-scope release in front of each boundary orders them before any use.
- Atomicity of the four-element peer store: its elements land one by one here, which admits more behaviours.
- k0/ops/xchg.cuh is not part of this model: the exchange is that of the litmus, with its done handshake; dual_run_pass is left out.
- Boundary.BoundarySafety: counts crossings only, there is no memory in that machine; what a crossing makes visible is InterpResults.BoundaryPublishes, on the interpreter, whose boundary is this one (InterpRaise.RefinesBoundary).
- ScheduleRuns.CoalescingPreservesMeaning: the packer is a parameter, with disjoint buffers and an effect that does not depend on the block range; the per-kind packers are not modelled.
- AttentionReduce.SplitAttention: rounding and overflow are not modelled, floats are reals and exp is a function with the laws of Softmax.ExpLike; one live position must score at least the start value of the running maximum.
- AttentionGrid.RunPasses: rows of a multiple of four elements, as the vector stores of op_kv_append presuppose; the query staging and the cache's half precision are a function `cast` of the appended rows.
- WeightSlice.SliceWeight: asks that the per-head vectors hold the bytes that are read; tensors of more than two dimensions, which the loops treat as two, are not modelled.
- QuantDot.Q40RowDot: staging of activations into shared memory is not modelled, and float sums are real sums.
- The seeding of attention partials with the sentinel: records are what the reduce is given.
- Rope, normalisation, gating, quantisation and sampling ops, and silu, softplus, sigmoid except as an arbitrary function: elementwise.
- The concrete node graph, archetype tables, GGUF and JSON readers, parity tooling and performance estimates.
