# EQueue: a verified model of the simulator and its transformations

EQueue programs describe concurrent devices: a host, processors and DMA engines that exchange
launches, memory copies and control signals. This project models, in Dafny, the discrete-event
simulator that executes such programs, the timing resources it books, the loop transformations and
lowerings that produce the programs, and the folding arithmetic of the systolic-array generator. It
proves what each of them keeps.

The files, bottom up:

- `Arithmetic.dfy` — facts about products, quotients and remainders.
- `Programs.dfy`, `Unrolling.dfy` — programs as trees of blocks; what a body means: its operations
  with every loop unrolled.
- `Simulator.dfy`, `Runner.dfy` — the simulator twice: as functions on states, and as the object
  whose methods update their tables in place. Every method is proved to compute its function.
- `Effects.dfy`, `RoundEffects.dfy` — what every step and every phase of a round does, in terms of
  entries, counters, queues and the operands of the individual operations; when a simulation stops.
- `Actions.dfy`, `Invariants.dfy`, `Bounds.dfy`, `ControlFiring.dfy`, `Timing.dfy`, `Rounds.dfy`,
  `RunTheorems.dfy` — the simulator as a transition system of six actions. The invariant is proved
  for every action and so for every order of actions; `Rounds.dfy` shows that the schedule the
  simulator follows is one of them; the theorems about whole runs follow.
- `CutOff.dfy` — a program on which a full queue makes the simulator lose most of a loop.
- `Barriers.dfy`, `Enumeration.dfy`, `Naming.dfy` — unrolling of parallel loops into barriers, and
  the enumeration and naming of component vectors.
- `Bookings.dfy`, `Streams.dfy`, `Rates.dfy` — device lanes and bandwidth-limited connections.
- `Nests.dfy`, `Tiling.dfy`, `Reorder.dfy` — loop nests by the body instances they execute, in order,
  and two transformations that preserve them.
- `Systolic.dfy` — folds and output windows of the generator.
- `Aliases.dfy` — the one-pass alias map against recursive resolution, and against a search over the
  program tree for what every operation's results stand for.

The main results hold for every program and every reachable state: the cursor and its never-reset
loop counters fetch exactly the unrolled bodies; no operation outruns the signals it waits for; when
everything has drained, dynamic counts equal the static multiplicities; the order of the control
queue never matters; operations retire at exactly their booked ends; launchers are first-in
first-out and never overlap themselves.

Two things are asked of a run where a theorem needs them, and both are properties of the run itself:

- that it is never cut off (`Rounds.NeverCutOff`): whenever a launch is admitted, its launcher is at
  the end of its body. Only a full queue can bring the contrary about. It is asked where a theorem
  speaks about the simulator's own schedule; every program that passes a static check of its event
  load has it (`Rounds.FittingNeverCutOff`), but it does not depend on that check.
- that no device model answers with an end that has already passed (`Timing.PromptRounds` for a
  simulation, `Timing.InTime` for a run of actions). It is asked only by results about the order of
  times. Without it everything else still holds, whatever the models answer.

## Where the code does not do what its documentation or shape suggests

Each of these is kept as the code has it, with the exact condition proved.

- `mydoc/Dialect.md:212` says that a full event queue stalls the launcher. The fetch stops, but
  admission tests only that the launcher is idle, so a launch that is ready replaces the rest of the
  body (`Actions.AdmitKeepsRest`). `CutOff.FullQueueCutsOff` is a whole simulation in which that
  happens after 20001 of 30000 iterations.
- Time goes backwards when a device model answers with an end that has passed, and only then
  (`Timing.RoundProgress`, `Timing.TimeMonotone`). A lane gives such an answer when no gap passes the
  test and the request is made later than it takes (`Bookings.BookedNotBefore`), as a contended
  memory bank does (`Bookings.BookedInThePast`).
- The restart of the admission loop after a firing (`iter = begin` followed by the loop's own
  increment) looks as if it skipped a launcher. It is never taken (`ControlFiring.AdmitAllIsOnePass`).
- A connection loses a write of less than a cycle's worth that meets an existing entry, and the rest
  of a half-read entry that moves onto the next one (`Streams.StreamConservation`, `Streams.LostWrite`,
  `Streams.LostRest`).
- A connection exceeds its bandwidth when a write is placed too close behind the earlier ones, because
  it is placed by its own size: after a large write that is followed by a smaller one (`Rates.TooFast`),
  and even after equal writes that are no multiples of the bandwidth (`Rates.PartCyclesTooFast`). The
  exact condition, for any sizes and any series of writes, is `Rates.WritesRate`.
- A request on a lane that finds no gap is booked at time zero (`Bookings.ExactBooking`).
- Loop reordering moves bounds but not steps (`Reorder.ReorderPreservesInstances`,
  `Reorder.UnequalSteps`).
- Unrolling a parallel loop substitutes 0, 1, ... whatever its lower bounds and steps are
  (`Enumeration.UnrollingExact`, `Enumeration.ShiftedLoop`).
- Two expanded splats can share a name when one base name continues the other
  (`Naming.ExpansionsDisjoint`, `Naming.BasesClash`).
- When several convolution windows share a tall array, a fold can ask for more columns than the
  array has (`Systolic.FoldsFitArray`, `Systolic.TooManyColumns`).

## Model

| member | source | states |
|---|---|---|
| Programs.BuildExMap | lib/EQueue/CommandProcessor.cpp:971-983 | the one-pass table holds, for every block, the product of all enclosing trip counts |
| Programs.TripCount | lib/EQueue/CommandProcessor.cpp:536-542 | the trip count n is the one number with lb + (n-1)*step < ub <= lb + n*step, and positive exactly when lb < ub |
| Programs.BlockExsFactors | lib/EQueue/CommandProcessor.cpp:971-983 | a block's multiplicity is that of its launch body times the trip counts of the loops inside that body |
| Unrolling.RestFor | lib/EQueue/CommandProcessor.cpp:718-723 | entering a loop body consumes the loop operation and leaves exactly its unrolled iterations and what follows |
| Unrolling.RestYield | lib/EQueue/CommandProcessor.cpp:724-735 | a yield consumes itself and leaves the next iteration, or what follows the loop when the never-reset counter is a multiple of the trip count |
| Unrolling.OccursUnroll | lib/EQueue/CommandProcessor.cpp:720-735 | an unrolled launch body contains each of its operations as often as the product of the loops around it, and no other operation |
| Actions.TakenRest | lib/EQueue/CommandProcessor.cpp:675-742 | every step of the flat cursor pops exactly the head of what is left to execute |
| Actions.AdmitKeepsRest | lib/EQueue/CommandProcessor.cpp:646-673 | admission keeps what was left to fetch if and only if the launcher is at the end of its body or the event is a memcpy |
| Actions.AdmitRest | lib/EQueue/CommandProcessor.cpp:662-669 | an admitted launch has its whole unrolled body ahead, an admitted memcpy nothing |
| Runners.Runner.constructor | lib/EQueue/CommandProcessor.cpp:758-767 | the simulator starts at time one with the host at the function body, every other launcher without a block, and all tables and queues empty |
| Runners.Runner.WaitForSignal | lib/EQueue/CommandProcessor.cpp:548-611 | for each kind of operation over its own operands: waiting is reported exactly when some signal of a memcpy, an await or a control operation, or the start signal of a launch, was not produced, or not often enough per multiplicity; nothing else waits |
| Runners.Runner.FetchAsync | lib/EQueue/CommandProcessor.cpp:693-717 | a control operation goes to the control queue, an event to its device's queue; a full queue refuses it and changes nothing |
| Runners.Runner.FetchSync | lib/EQueue/CommandProcessor.cpp:718-741 | any other operation is taken up unstarted; a loop enters its body, a yield counts and iterates or leaves, anything else moves on by one |
| Runners.Runner.SetOpEntry | lib/EQueue/CommandProcessor.cpp:675-745 | the in-place fetch loop leaves a run of operations to the queues in order and stops at the end of the block, in front of an event for a full queue, or with an operation of its own; nothing else changes |
| Runners.Runner.FireControl | lib/EQueue/CommandProcessor.cpp:622-637 | a firing counts a start and a production and removes one queue entry |
| Runners.Runner.CheckControlQueue | lib/EQueue/CommandProcessor.cpp:612-644 | the restarting scan terminates; every entry that went was started and produced once, every entry left lacks a signal, and it reports whether anything fired |
| Runners.Runner.CheckEventQueue | lib/EQueue/CommandProcessor.cpp:646-673 | the first event is admitted if and only if its signals are there and the launcher is idle; a launch puts the cursor at its body |
| Runners.Runner.AdmitEvents | lib/EQueue/CommandProcessor.cpp:780-788 | the admission loop with its iterator reset computes the specified state |
| Runners.Runner.ScheduleOp | lib/EQueue/CommandProcessor.cpp:474-527 | an unstarted await starts if and only if no signal of it is lacking, a launch, loop, yield or return always, each ending at once; a memcpy always, ending when its devices say; anything else unless they stall; launches, memcpys and awaits are counted |
| Runners.Runner.AdvanceTime | lib/EQueue/CommandProcessor.cpp:804-816 | time moves to the earliest booked end, or by one when nothing runs |
| Runners.Runner.FinishOp | lib/EQueue/CommandProcessor.cpp:394-472 | an operation that was started and whose end has come is retired; memcpys produce their own signal, returns that of the launch; nothing else changes |
| Runners.Runner.SimulateFunction | lib/EQueue/CommandProcessor.cpp:756-825 | the whole loop computes the specified run, whatever the device models answer, and reports that it is done if and only if every launcher's entry is idle |
| Effects.WaitsExactly | lib/EQueue/CommandProcessor.cpp:548-611 | operand by operand: a memcpy, an await or a control operation waits if and only if one of its signals was not produced, or starts times the signal's multiplicity reach productions times its own; a launch looks at its start signal; nothing else waits |
| Effects.SetOpEntryEffect | lib/EQueue/CommandProcessor.cpp:675-745 | the fetch loop, spelled out over the operations between the two cursor positions |
| Effects.CheckEventQueueEffect | lib/EQueue/CommandProcessor.cpp:646-673 | admission, spelled out over the entry, the cursor and the queue |
| Effects.ScheduleOpEffect | lib/EQueue/CommandProcessor.cpp:474-527 | starting, spelled out for every kind of operation, with the counts |
| Effects.AwaitStarts | lib/EQueue/CommandProcessor.cpp:484-503 | an unstarted await is started, ends now and is counted if and only if each of its signals was produced once more than it has used; otherwise it stays as it is |
| Effects.FlowStarts | lib/EQueue/CommandProcessor.cpp:491-503 | an unstarted launch, loop, yield or return is always started and ends now; of these only launches are counted |
| Effects.TransferStarts | lib/EQueue/CommandProcessor.cpp:491-503 | an unstarted memcpy always starts and ends when its devices say; another operation starts unless they stall it |
| Effects.FinishOpEffect | lib/EQueue/CommandProcessor.cpp:394-472 | retirement, spelled out over the entry and the production counts |
| RoundEffects.FetchAllEffect | lib/EQueue/CommandProcessor.cpp:771-777 | the host and the launchers fetch once each, in turn |
| RoundEffects.ScheduleAllEffect | lib/EQueue/CommandProcessor.cpp:796-802 | every launcher is asked once, with its own answer, and independently of the others |
| RoundEffects.FinishAllEffect | lib/EQueue/CommandProcessor.cpp:818-823 | every launcher retires what is over, and a signal is produced at most once per round |
| RoundEffects.AdvanceEffect | lib/EQueue/CommandProcessor.cpp:804-816 | the new time is an end of something in progress and no later than any other, or one later when nothing is in progress |
| RoundEffects.PrepareEffect | lib/EQueue/CommandProcessor.cpp:771-788 | the first half of a round: all fetch, all that can fires, and every launcher admits an event if it can |
| RoundEffects.ExecuteEffect | lib/EQueue/CommandProcessor.cpp:796-823 | the second half: all are asked to start, time moves on, what is over retires |
| RoundEffects.StopsWhenIdle | lib/EQueue/CommandProcessor.cpp:789-794 | a simulation whose launchers are all idle after the first half of a round stops there, whatever would be answered next |
| RoundEffects.GoesOnWhenBusy | lib/EQueue/CommandProcessor.cpp:789-794 | one with a busy launcher carries the round out and goes on |
| RoundEffects.StopsAtFirstIdle | lib/EQueue/CommandProcessor.cpp:769-825 | every simulation ends in the first round that finds all launchers idle, or when the answers run out |
| Invariants.InvInit | lib/EQueue/CommandProcessor.cpp:758-767 | the initial state of every program satisfies the invariant |
| Invariants.CountFetch | lib/EQueue/CommandProcessor.cpp:675-745 | fetching keeps, for every operation: fetched so far plus still ahead equals body runs begun times loop factor |
| Invariants.TokenStart | lib/EQueue/CommandProcessor.cpp:491-503 | starting an operation keeps it behind every signal it waits for |
| Invariants.InvApply | lib/EQueue/CommandProcessor.cpp:394-742 | every enabled action keeps counts, signals, tokens and loop counters consistent |
| Invariants.InvReaches | lib/EQueue/CommandProcessor.cpp:769-825 | so does every sequence of actions, in whatever order |
| Bounds.ForeseenBound | lib/EQueue/CommandProcessor.cpp:971-983 | what was and will be fetched of an operation never exceeds its static multiplicity |
| Bounds.StartsDrained | lib/EQueue/CommandProcessor.cpp:971-983 | once everything has drained, each launch, memcpy, await and control operation was started exactly that often |
| Bounds.SignalsDrained | lib/EQueue/CommandProcessor.cpp:971-983 | and each signal produced exactly that often |
| Bounds.FetchNeverStuck | include/EQueue/CommandProcessor.h:84-88 | in a program that passes the static load check no event queue is ever found full |
| ControlFiring.CheckControlFires | lib/EQueue/CommandProcessor.cpp:612-644 | the scan performs firings until nothing can fire |
| ControlFiring.FiringConfluent | lib/EQueue/CommandProcessor.cpp:612-644 | any two maximal firing sequences, from queues equal up to order, leave the same queue contents and counts |
| ControlFiring.CheckControlOrderIrrelevant | lib/EQueue/CommandProcessor.cpp:612-644 | hence the scan's result does not depend on the order of the queue, and nothing enabled is left |
| ControlFiring.AdmitAllIsOnePass | lib/EQueue/CommandProcessor.cpp:780-788 | the admission phase equals one firing scan followed by one look at each launcher; its restart is dead code |
| ControlFiring.CheckControlEffect | lib/EQueue/CommandProcessor.cpp:612-644 | after a scan, every entry left lacks a signal among its own operands, and starts and productions grew by exactly what went |
| ControlFiring.AdmitAllEffect | lib/EQueue/CommandProcessor.cpp:778-788 | the admission phase is one such scan and then, for every launcher, the admission of its first event if it can be |
| Timing.TimeAdvance | lib/EQueue/CommandProcessor.cpp:804-816 | time moves to the earliest booked end of what runs, or by one when nothing runs |
| Timing.RoundProgress | lib/EQueue/CommandProcessor.cpp:796-823 | in every round operations retire at exactly their booked ends, nothing stays overdue, and something retires or nothing was started and time grows by one; time does not go backwards if and only if no model answers with an end that has passed |
| Timing.TimeMonotone | lib/EQueue/CommandProcessor.cpp:769-825 | over a whole simulation time never goes backwards if and only if no model ever answers with an end that has passed |
| Timing.TimeReaches | lib/EQueue/CommandProcessor.cpp:804-816 | along a run without such answers nothing is ever overdue and time never goes backwards |
| Rounds.SimulateReaches | lib/EQueue/CommandProcessor.cpp:769-825 | as long as no body is cut off, the simulator's schedule is a sequence of enabled actions that keeps the invariant, whatever the models answer |
| Rounds.FetchAllExhausts | lib/EQueue/CommandProcessor.cpp:771-777 | after the fetch phase no launcher can fetch: each works on something, is at its end or faces a full queue |
| Rounds.FittingNeverCutOff | include/EQueue/CommandProcessor.h:84-88 | a program whose static event load fits the queues is never cut off, and its idle launchers are always at the end of their bodies |
| CutOff.FullQueueCutsOff | lib/EQueue/CommandProcessor.cpp:657-671 | a valid program and answers for which the simulation admits the second launch after 20001 of the 30000 iterations of the first |
| RunTheorems.SimulateReachable | lib/EQueue/CommandProcessor.cpp:756-825 | every state the simulator visits before a body is cut off is reachable |
| RunTheorems.FittingReachable | include/EQueue/CommandProcessor.h:84-88 | under the static load check every simulation is never cut off, reachable, and leaves every idle launcher at the end of its body |
| RunTheorems.TokenSafety | lib/EQueue/CommandProcessor.cpp:548-611 | in every reachable state an operation was started at most n times per production of each of its own signal operands (of a launch, its start signal), where n is its multiplicity relative to the signal's |
| RunTheorems.ReadyPerProduction | lib/EQueue/CommandProcessor.cpp:570-608 | start number k may proceed if and only if production number k/n + 1 has happened |
| RunTheorems.FinalCounts | lib/EQueue/CommandProcessor.cpp:971-983 | when a simulation that was never cut off stops with all launchers idle and all queues empty, starts and productions of every asynchronous operation equal the static table |
| RunTheorems.StopsOnlyWhenStuck | lib/EQueue/CommandProcessor.cpp:789-794 | when every launcher is idle after the first half of a round, each is without a block, at its end or in front of an event for a full queue, and everything in the control queue and at the front of an event queue lacks a signal |
| RunTheorems.StuckForever | lib/EQueue/CommandProcessor.cpp:789-794 | and then nothing but the passing of time would ever be possible again |
| RunTheorems.RetiresOnTime | lib/EQueue/CommandProcessor.cpp:400-401 | along every run in time an operation is retired at exactly its booked end, which is no earlier than its start |
| RunTheorems.FirstInFirstOut | lib/EQueue/CommandProcessor.cpp:646-673 | along every run, queue plus sent events equals admitted events plus remaining queue, in order |
| RunTheorems.FetchesUnrolledBodies | lib/EQueue/CommandProcessor.cpp:675-745 | along every run a launcher fetches, operation by operation, the unrolled bodies of the launches it admits, each to its end before the next |
| RunTheorems.WholeRunUnrolled | lib/EQueue/CommandProcessor.cpp:756-788 | from the start: the host fetches the unrolled function body once, every other launcher those of its launches |
| RunTheorems.WholeRunInOrder | lib/EQueue/CommandProcessor.cpp:646-673 | from the start: the admitted events are a prefix of the sent ones |
| RunTheorems.BusyInOrder | lib/EQueue/CommandProcessor.cpp:491-503 | along every run in time the busy intervals of a launcher are disjoint and increasing |
| Barriers.AddBarrier | lib/Transforms/ParallelToEQueue.cpp:109-122 | the loop appends a left-leaning chain of binary control_and operations over all events of the block, and one await |
| Barriers.BarrierBuilt | lib/Transforms/ParallelToEQueue.cpp:109-122 | a valid program whose block is replaced by what that loop builds is valid again and has the barrier |
| Barriers.JoinedAfterEvents | lib/Transforms/ParallelToEQueue.cpp:109-120 | in every reachable state a joined signal was produced no more often than any event it joins |
| Barriers.AwaitIsBarrier | lib/Transforms/ParallelToEQueue.cpp:109-122 | the await passes for the k-th time only after every event of the block has completed k times |
| Barriers.AwaitAfterEach | lib/Transforms/ParallelToEQueue.cpp:109-122 | in particular, only after every launch and memcpy that stands in the block |
| Barriers.ScanFiresChain | lib/Transforms/ParallelToEQueue.cpp:109-122 | once all events have completed k times, one scan fires the whole fetched chain |
| Barriers.BarrierOpens | lib/Transforms/ParallelToEQueue.cpp:109-122 | after a scan the await may pass again if and only if every event has completed once more than it passed |
| Bookings.Device.ScheduleEvent | include/EQueue/EQueueStructs.h:78-107 | the in-place slot search, after cleaning where asked for, returns the specified end and inserts the interval that ends there, at the place where it was granted, on one lane only |
| Bookings.Device.DeleteOutdatedEvents | include/EQueue/EQueueStructs.h:64-76 | cleaning a lane in place keeps the last entry that is over and all from the first that is not |
| Bookings.CleanedDrops | include/EQueue/EQueueStructs.h:64-76 | cleaning drops only entries that are over, from the front, leaves at most one of those in front, and drops none at all when nothing ends later |
| Bookings.BookEffect | include/EQueue/EQueueStructs.h:78-107 | on every searchable lane a request for some cycles is granted as asked in front of the first neighbours that leave a gap, or from the last end on and last when none do, and the interval that ends at the time told is entered at that place |
| Bookings.BookingEntered | include/EQueue/EQueueStructs.h:105-106 | every lane holds afterwards what it held before and exactly the interval its caller was told |
| Bookings.ExactBooking | include/EQueue/EQueueStructs.h:89-104 | on a used lane a request is granted as asked if and only if a gap passes the test or it asks for time zero; otherwise it is booked at time zero |
| Bookings.BookedNotBefore | include/EQueue/EQueueStructs.h:89-104 | on a used lane the end told is no earlier than the request if and only if a gap passes the test or the request is made no later than it takes |
| Bookings.BookedInThePast | include/EQueue/EQueueStructs.h:89-104 | concrete requests that are told an end before their start |
| Bookings.InOrderBooking | include/EQueue/EQueueStructs.h:78-107 | a request after all earlier ends is granted as asked, adds exactly its interval, and keeps bookings disjoint and the initial entry last |
| Bookings.DmaBookingsExact | lib/EQueue/CommandProcessor.cpp:265-283 | along every run in time a DMA engine's memcpys satisfy that condition, so every booking is exactly the interval the engine is busy |
| Streams.Connection.ScheduleTransmission | include/EQueue/EQueueStructs.h:154-185 | writes and reads on the schedule do what is specified; a refused read changes nothing; the total counts writes only |
| Streams.WriteEffect | include/EQueue/EQueueStructs.h:156-163 | every write, the first or a later one, is entered last, as many cycles behind the last entry as its own bits take and no earlier than asked for, or dropped when that is the last entry's cycle |
| Streams.ReadEffect | include/EQueue/EQueueStructs.h:164-183 | a read succeeds if and only if the entry that completes its bits does so in time; then everything up to that entry goes and its rest is put back at the cycle of the completion, unless that is taken |
| Streams.WriteConserves | include/EQueue/EQueueStructs.h:156-163 | a write adds all its bits unless it meets an existing entry, in which case it adds none |
| Streams.ReadConserves | include/EQueue/EQueueStructs.h:164-183 | a read takes at least its bits, and exactly its bits if and only if the rest of the last entry finds its cycle free |
| Streams.StreamConservation | include/EQueue/EQueueStructs.h:154-185 | over any call sequence, scheduled plus read never exceeds written, with equality if and only if no insertion met an existing entry |
| Streams.LostWrite | include/EQueue/EQueueStructs.h:157-162 | a concrete write that is lost |
| Streams.LostRest | include/EQueue/EQueueStructs.h:180-181 | a concrete read that loses bits |
| Rates.OneWriteRate | include/EQueue/EQueueStructs.h:150-185 | after one write, successful reads leave the difference, one entry, and the last comes no earlier than the sum of their rounded-down cycles |
| Rates.WholeReadsRate | include/EQueue/EQueueStructs.h:150-185 | reads of whole multiples never exceed bandwidth times elapsed cycles |
| Rates.RateIff | include/EQueue/EQueueStructs.h:164-184 | a schedule keeps to the bandwidth if and only if every entry comes late enough for the bits in front of it, whatever the sizes |
| Rates.WritesRate | include/EQueue/EQueueStructs.h:156-163 | after any series of writes of any sizes the schedule keeps to the bandwidth if and only if it did before and every write that was kept was entered late enough |
| Rates.TwoWritesRate | include/EQueue/EQueueStructs.h:156-163 | two writes of any sizes to an empty stream keep to the bandwidth if and only if the second is lost or placed late enough |
| Rates.TwoWholeWrites | include/EQueue/EQueueStructs.h:156-163 | for multiples of the bandwidth, that is when the second is no smaller or is asked for late enough |
| Rates.PartCyclesTooFast | include/EQueue/EQueueStructs.h:156-163 | two equal writes of one and a half cycles that exceed the bandwidth |
| Rates.TooFast | include/EQueue/EQueueStructs.h:157-162 | a concrete pair of writes readable faster than the bandwidth |
| Nests.RectangularCount | lib/Transforms/MyLoopTiling.cpp:93-97 | a rectangular nest of any depth executes each of its index vectors exactly once and no other |
| Nests.RunSorted | lib/Transforms/MyLoopTiling.cpp:174-181 | any nest executes its index vectors in lexicographic order |
| Nests.SameInstances | lib/Transforms/MyLoopTiling.cpp:174-181 | a body whose instances commute ends in the same state for every order of the same instances |
| Tiling.ConstructTiledIndexSet | lib/Transforms/MyLoopTiling.cpp:98-172 | the two in-place loops build tile loops and point loops with the three kinds of upper bound |
| Tiling.TiledBounds | lib/Transforms/MyLoopTiling.cpp:98-172 | each tile loop keeps its bounds and steps by the size; each point loop starts at the tile and ends a trip count, a size, or the minimum of that and the upper bound further |
| Tiling.TileIsClipped | lib/Transforms/MyLoopTiling.cpp:125-170 | in each of the three cases the tile at t ends at min(t + size, ub) |
| Tiling.TilingPreservesInstances | lib/Transforms/MyLoopTiling.cpp:98-172 | in any number of dimensions the tiled nest executes every original index vector exactly once and nothing else |
| Tiling.TilingPreservesState | lib/Transforms/MyLoopTiling.cpp:174-254 | so a body whose instances commute ends in the same state |
| Tiling.AdjustToDivisors | lib/Transforms/MyLoopTiling.cpp:280-296 | the decrement loop terminates with the greatest divisor of the trip count that is at most the capped size |
| Tiling.AdjustedSize | lib/Transforms/MyLoopTiling.cpp:280-296 | in plain terms: no larger than the size, no larger than half of a trip count above one, a divisor of the trip count, and the greatest such number |
| Tiling.AdjustedNeedsNoMin | lib/Transforms/MyLoopTiling.cpp:124-170 | after the adjustment no upper bound needs a minimum |
| Reorder.ReorderLoops | lib/Transforms/LoopReorder.cpp:75-99 | the two phases move the bounds of loop orders[i] to loop i and redirect every use to the loop that got its variable's bounds |
| Reorder.ReorderPreservesInstances | lib/Transforms/LoopReorder.cpp:75-99 | the reordered nest runs exactly the original instances, with the same variable values, if and only if every step serves the bounds it receives or a loop is empty |
| Reorder.ReorderPreservesOperands | lib/Transforms/LoopReorder.cpp:75-99 | under that condition a body sees the same operand values, instance by instance |
| Reorder.ReorderPreservesState | lib/Transforms/LoopReorder.cpp:75-99 | so a body whose instances commute ends in the same state |
| Reorder.UnequalSteps | lib/Transforms/LoopReorder.cpp:94-96 | a concrete nest on which the condition fails |
| Enumeration.GetPermutation | lib/Transforms/ParallelToEQueue.cpp:23-35 | the recursion with push and pop appends every vector below the prefix, in loop order, and restores the prefix |
| Enumeration.TuplesExact | lib/Transforms/ParallelToEQueue.cpp:23-35 | the list holds every vector of the box exactly once and no other, in lexicographic order |
| Enumeration.UnrollingExact | lib/Transforms/ParallelToEQueue.cpp:53-89 | the clones are exactly the parallel loop's instances if and only if every dimension counts from zero in steps of one, or the loop is empty |
| Enumeration.ShiftedLoop | lib/Transforms/ParallelToEQueue.cpp:53-89 | a loop from 1 to 3 whose clones are for 0 and 1 |
| Naming.GetPermutation | lib/Transforms/LowerExtraction.cpp:13-25 | the string form lists the suffixes of those vectors, cutting each name back to its prefix |
| Naming.SuffixInjective | lib/Transforms/LowerExtraction.cpp:17-19 | different index vectors have different suffixes, whatever their ranks |
| Naming.DecimalRoundTrip | lib/Transforms/LowerExtraction.cpp:17-19 | the indices in a name are decimal numerals without leading zeros |
| Naming.SplatNames | lib/Transforms/LowerExtraction.cpp:48-73 | the expansion of a splat makes one name per suffix |
| Naming.RebuildName | lib/Transforms/LowerExtraction.cpp:128-131 | an extraction rebuilds base and suffix from its indices |
| Naming.ExtractionFound | lib/Transforms/LowerExtraction.cpp:109-135 | the rebuilt name was made exactly once if the indices are inside the shape, and never otherwise |
| Naming.ClashIff | lib/Transforms/LowerExtraction.cpp:71-73 | two components share a name if and only if one base is the other with indices behind it that both shapes allow |
| Naming.ExpansionsDisjoint | lib/Transforms/LowerExtraction.cpp:48-73 | two expanded splats have disjoint names if and only if neither base so continues the other |
| Naming.BasesClash | lib/Transforms/LowerExtraction.cpp:71-73 | two base names whose expansions share a name |
| Systolic.RunFold | example/SystolicArray/01-Generator/SystolicArray.cpp:921-1044 | every element sends its partial sum in consecutive cycles, skewed by row and column, in time order; no window is cut off by the loop bound |
| Systolic.FoldOutputs | example/SystolicArray/01-Generator/SystolicArray.cpp:1000-1030 | each column of the last row writes the output buffer exactly `steps` times per fold |
| Systolic.AllDealt | example/SystolicArray/01-Generator/SystolicArray.cpp:835-841 | the folds deal out all columns and all window pixels, and none is empty |
| Systolic.FoldRows | example/SystolicArray/01-Generator/SystolicArray.cpp:838-841 | the carried remainder gives each horizontal fold its share of rows |
| Systolic.Generate | example/SystolicArray/01-Generator/SystolicArray.cpp:502-740 | both branches write e2 * num_filter * num_h_fold outputs in all, fold by fold in order, and deal out all columns and all window pixels |
| Systolic.EverythingDealt | example/SystolicArray/01-Generator/SystolicArray.cpp:747-841 | one output pixel per column and a step per filter when the input is stationary, the reverse when the weights are; the vertical folds take up all columns between them and the horizontal folds all pixels of the window in all channels |
| Systolic.OutputPositions | example/SystolicArray/01-Generator/SystolicArray.cpp:12-19 | the output has one pixel for every position of the window inside the input, at the given stride |
| Systolic.FoldsFitArray | example/SystolicArray/01-Generator/SystolicArray.cpp:751-836 | every fold's columns exist in the array if and only if windows do not share its height or all columns fit side by side |
| Systolic.TooManyColumns | example/SystolicArray/01-Generator/SystolicArray.cpp:751-836 | a layer and an array on which a fold asks for two columns of one |
| Aliases.IdMap.BuildIdMap | lib/EQueue/CommandProcessor.cpp:896-970 | the one-pass walk with its in-place maps computes the specified maps on every region-structured program, and every operation's results stand for what the program tree says |
| Aliases.IdMap.HandOut | lib/EQueue/CommandProcessor.cpp:952-964 | inserting results as their own aliases and overwriting them one by one equals aliasing them to what is handed out |
| Aliases.WalkResolves | lib/EQueue/CommandProcessor.cpp:896-970 | after every prefix of the walk the map is idempotent and satisfies the resolution equations of all it has seen |
| Aliases.EquationsUnique | lib/EQueue/CommandProcessor.cpp:896-970 | only one map satisfies the equations of recursive resolution |
| Aliases.AliasesResolved | lib/EQueue/CommandProcessor.cpp:896-970 | on every region-structured program with single definitions, the walk's map is idempotent and is the solution of those equations |
| Aliases.NodesResolved | lib/EQueue/CommandProcessor.cpp:896-970 | at any depth, over the program tree: a fetched component stands for what the first field of that name stands for which a create_comp or add_comp in front of it bound to the component, regions before what follows, and for itself if there is none; an extracted element for what a splat made the vector of; plain results for themselves; launches and loops hand in and out; an induction variable has no entry |
| Aliases.FetchesResolved | lib/EQueue/CommandProcessor.cpp:917-930 | at any depth, a fetched component stands for what the field first bound to its name stands for, or for itself; an extracted element for what its vector was made of; an induction variable for nothing |
| Aliases.BoundariesResolved | lib/EQueue/CommandProcessor.cpp:906-911 | at any depth, launch arguments stand for their operands and launch and loop results for what is returned or yielded |

## Left out

- Runners.Runner.WaitForSignal: does not model loop-carried signals (`iterState`, `iterInitValue`, the branch at `CommandProcessor.cpp:584-604`), which the code normalises in floating point; an operand here is the operation that produces its signal.
- Runners.Runner.FetchAsync: does not model launchers that do not exist when they are used (`CommandProcessor.cpp:706-712`), which skip the wait.
- Runners.Runner.FinishOp: does not model signals renamed through `signalIds`, nor launchers created while the simulation runs: the table of launchers is fixed, the host first, and the order of the others is arbitrary.
- Runners.Runner.SetOpEntry: launcher tables are values in a sequence, updated by replacing an entry, where the source holds them in a map and updates them through references. Loops with a trip count of zero, whose body the code enters anyway before it takes a modulus by zero, are not valid programs.
- Runners.Runner.SimulateFunction: the device models inside `modelOp` are answers from outside, one per launcher and round: any end but zero, or a stall for reads; the list of answers bounds the number of rounds.
- RunTheorems.StopsOnlyWhenStuck: says where a simulation stops, not when it drains; freedom from deadlock needs an order of all signals and queues that programs need not have, and is not proved.
- `control_or`, which the control queue treats like `control_and`.
- 64-bit overflow, the truncation of `in_block_cycle` to `int`, and float rounding in `getExTimes`, `getReadOrWriteCycles` and the fold counts: numbers are unbounded and quotients exact.
- Trace output, `tid`, `mem_tids`, `queue_ready_time`, printing and the bandwidth summary.
- Bookings.Device.ScheduleEvent: does not model the variant that books several devices, nor a lane with a single entry that is not the initial one, where the source reads past it; the insertion point survives cleaning as the first position of the lane.
- Streams.Connection.ScheduleTransmission: bit counts are positive, and `getBandwidth` is not modelled.
- Barriers.AddBarrier: the block holds at least one launch or memcpy, as the pass only selects such blocks (`ParallelToEQueue.cpp:45-51`); cloning of the body into the block is taken as done.
- Enumeration.UnrollingExact: the extent of a dimension is its upper bound minus its lower bound, as the loop's constant ranges give it; how the cloned region is spliced is not modelled.
- Tiling.ConstructTiledIndexSet: bounds are fixed values and steps one; trip counts and divisors are what the compiler's analyses say, and assumed right. Symbolic bound operands, the choice of tile sizes and `separateFullTiles` are not modelled.
- Reorder.ReorderLoops: rectangular nests and a permutation of all loops; bounds that use other loops' variables are not modelled.
- Systolic.Generate: the IS and WS branches only, and of those the folds and the partial-sum writes; moving inputs and weights, the signals between phases and the OS branch are not modelled.
- Naming.ExtractionFound: resolving the extracted vector back through launches is part of Aliases; duplicating the operations of a splat is not modelled.
- Aliases.IdMap.BuildIdMap: a null entry made by looking up a value without one is not told from no entry.
- Structure matching, launch splitting, allocation and memcpy insertion, `linalg.generic` timing, memory costs, generators other than the systolic one, and dialect parsing and printing.
