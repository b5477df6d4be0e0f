# A verified model of stack-queue

stack-queue batches tasks in a ring buffer of N cells that one owner thread fills. The push that
finds no open batch opens one and gets a guard for it; further pushes join. Whoever holds the guard
closes the batch, at any time and on any thread, by flipping one bit of a packed slot word, reads
its cells and gives them back. A second packed word counts, for each of eight regions of the ring,
the live batches that start there. It is all that stops the owner from overwriting live cells: the
owner looks at it only where a region begins, and usually at an old copy.

The model is the 64-bit configuration, for every power of two N from 64 to 2^31.

| file | content |
|---|---|
| `Bits.dfy` | the bit operations of the machine words, defined on naturals, and their arithmetic meaning |
| `Helpers.dfy` | ring indices, regions and the slot word |
| `Occupancy.dfy` | the packed word of eight byte-wide counters |
| `Protocol.dfy` | every atomic operation of the owner and of the guard holders as one step; runs; the invariant |
| `ProtocolSteps.dfy` | every step keeps the invariant |
| `Guarantees.dfy` | what holds after every run, under every interleaving |
| `Overflow.dfy` | what happens beyond 1024 cells: a run that overwrites a live cell, for each larger N |
| `Wraparound.dfy` | a run into the wrap of the 32-bit counter, for each N |
| `Ranges.dfy` | reading a batch as two slices or by the 32-bit counter |
| `Turns.dfy` | taking turns: whose steps an operation consists of, its own thread's and the others' |
| `Outcomes.dfy` | the turns of a push, and how they and the state found decide its outcome |
| `Queue.dfy` | the queue as a class over an array, method by method, with other threads running in between |
| `Handoff.dfy` | the flag word between the resolver of a task and its receiver |
| `TaskQueue.dfy` | the cells of a task queue, in place: initialise, take, resolve, drop a receiver |
| `TaskProtocol.dfy` | the protocol of the queue, its task cells and their receivers together; runs; the invariant |
| `Enqueue.dfy` | the task queue as a class: `enqueue`, with everybody else running in between |
| `Assignment.dfy` | an assigned batch, from `into_assignment` over `map`, `resolve_with_iter` or drop to the release |
| `Parking.dfy` | futures that found the queue full, and the drains that wake them |
| `Collect.dfy` | the reducing and collecting futures over whole runs |

## Results

- Under every interleaving no live cell is overwritten, every push is in exactly one batch, batch
  after batch is the sequence of all pushes, and what a closed batch contains never changes. For
  N <= 1024 this needs no hypothesis. For N > 1024 it needs that no region counts more than 255 live
  batches, and without it there is always a run that overwrites a live cell: `SafeExactlyUpTo1024`.
  The comment at `crates/stack-queue/src/queue.rs:436-437` expects a queue that reports itself full
  in that case. The code does not: 256 batches that start in the last region wrap the word to zero.
  The model follows the code.
- The packed word is exact within that bound, and the owner's stale copy errs only towards "full".
- A refused push is refused exactly when a live batch starts in the region it would enter. How a push
  or an enqueue ends is decided by what it found and by what others closed and gave back meanwhile;
  it does neither itself.
- The three ways to read a batch agree exactly when the batch does not straddle a multiple of 2^32
  pushes. Across one, the slices are right and the iterator yields nothing; every ring has a run
  that gets there: `StraddlingBatchIsMissed`.
- In a task queue, under every interleaving, each task of a batch waits in its own cell with its own
  link until the batch is closed, and after `map` its receiver has been resolved with op of just
  that task, while the owner goes on pushing, other batches are processed and receivers come and go.
- The handoff of a value touches only memory that is there, in all runs, exactly when a batched
  future is polled only after its wake and a cell is reused only after its receiver is done. The
  code relies on both and enforces neither. Values are neither leaked nor dropped twice exactly when
  values that need dropping come with tasks that do: the code asks the type of the task.
- No future is left waiting with nothing to wake it, in all runs, exactly when three promises are
  kept: the failed check and the pushing of the waker are one step, no future is polled while its
  waker is pending, and none is dropped before its task is in. A drain is capped at one region's worth
  of wakers, and stale ones count. In the code check and waker are two operations, so it can strand a
  future: the last release between the two finds nobody to wake. That is also the only way as long as
  the other two promises are kept: `CalmRunsStrandNobody`.

## Reading the contracts

The class `Queue.StackQueue` holds the program's fields and, beside them, the history the protocol
speaks of (`owner`, `pushed`, `batches`). A method takes what other threads try in between as
schedules, and its contract lists the turns of the call: its own steps, one by one, and the schedules
between them. `Played` says that these turns lead from the state before to the state after, and of a
schedule happens just what is possible when it comes up. So there is no step in a call but its own and
those the others had on their schedules (`Turns.WeaveSources`), and all steps together are a run, to
which the lemmas of `Guarantees` apply. `Guarantees.Reached` is "a run from the start", with the bound
of 255 where N > 1024.
The class `Enqueue.TaskStackQueue` records its turns since its construction; being valid means that
they lead to its present state, so what `TaskProtocol` and `Guarantees` prove of runs holds of it at
any time. Whoever works on a batch admits the others' steps as schedules too.

## Model

| member | source | states |
|---|---|---|
| Helpers.SlotArithmetic | crates/stack-queue/src/helpers.rs:52-60 | for every 64-bit word: adding 1 << 32 keeps the flag bits and moves the index by one around the ring, also at the wrap; flipping the phase keeps the index and undoes itself |
| Helpers.SlotIndexOf | crates/stack-queue/src/helpers.rs:54-60 | the masked index of the slot word after w pushes is w mod N, although the word keeps only 32 bits of w |
| Helpers.SlotWordParts | crates/stack-queue/src/queue.rs:477-484 | the slot word refines the pair of a push count and a phase: `fetch_add` is one push more, `fetch_xor` the other phase |
| Helpers.SizeIsEightRegions | crates/derive-stack-queue/src/lib.rs:61-83 | every admitted size is eight regions of at least eight cells |
| Helpers.SizeDividesCounter | crates/stack-queue/src/helpers.rs:55-58 | every admitted size divides 2^32, so masking a wrapping counter is the true modulus |
| Helpers.RegionOfBlock | crates/stack-queue/src/helpers.rs:39-43 | the region of push w is its block number modulo eight, and the region began at the multiple of the region size below w |
| Helpers.BoundaryOf | crates/stack-queue/src/queue.rs:470-473 | the mask test of the owner recognises exactly the pushes at which a region begins |
| Helpers.RoomBeforeLap | crates/stack-queue/src/queue.rs:409-412 | a count at most one lap after a region began, which is not itself the begin of that region, is short of the full lap |
| Helpers.SameRegionSameStretch | crates/stack-queue/src/queue.rs:409-412 | within one lap, two pushes in the same region are in the same stretch of pushes |
| Occupancy.RegionWords | crates/stack-queue/src/helpers.rs:45-50 | region, increment and mask of an index are index / (N/8), 256^region and 255 * 256^region, and no shift loses a bit |
| Occupancy.MaskReadsByte | crates/stack-queue/src/queue.rs:407-421 | the masked word is zero exactly when the region's byte is |
| Occupancy.PackedWordIsExact | crates/stack-queue/src/queue.rs:434-449 | while every counter fits its byte the word is the sum of count * 256^region, its bytes are the counters, and it is zero exactly when all are |
| Occupancy.PackedWordSteps | crates/stack-queue/src/queue.rs:234-241 | `fetch_add` and `fetch_sub` of an increment follow the counters modulo 2^64, whatever they are |
| ProtocolSteps.StepShape | crates/stack-queue/src/queue.rs:461-494 | every step keeps the slot words, the hand-over of guards, the phases and the contiguous ranges |
| ProtocolSteps.RoomToWrite | crates/stack-queue/src/queue.rs:405-432 | an owner that may write is short of a full lap ahead of the region of every live batch, also of batches that span regions and are counted only where they start |
| ProtocolSteps.StepSafe | crates/stack-queue/src/queue.rs:500-530 | every step keeps the lap bound, the cleared region and the contents of all live cells |
| ProtocolSteps.StepWord | crates/stack-queue/src/queue.rs:434-449 | every step keeps the occupancy word equal to the packed counters modulo 2^64, with no bound assumed |
| ProtocolSteps.StepCopies | crates/stack-queue/src/queue.rs:409-425 | every step keeps the owner's copies at or above the counters, byte by byte |
| ProtocolSteps.StepInv | crates/stack-queue/src/queue.rs:461-530 | the whole invariant is inductive while the counters fit their bytes |
| ProtocolSteps.CountAtMostRegion | crates/stack-queue/src/queue.rs:434-449 | a region never counts more live batches than it has cells |
| ProtocolSteps.SmallWhenShort | crates/stack-queue/src/queue.rs:435-437 | up to 1024 cells no counter can overflow its byte |
| ProtocolSteps.WordZero | crates/stack-queue/src/queue.rs:237-241 | the word is zero exactly when no counted batch is outstanding |
| ProtocolSteps.MaskCounts | crates/stack-queue/src/queue.rs:420-431 | the masked load is zero exactly when no outstanding batch starts in the region |
| ProtocolSteps.BoundExcludesNothing | crates/stack-queue/src/queue.rs:435-437 | up to 1024 cells the bound of 255 excludes no step |
| Guarantees.RunInv | crates/stack-queue/src/queue.rs:461-530 | the invariant after every run that keeps the counters in their bytes |
| Guarantees.ShortStaysSmall | crates/stack-queue/src/queue.rs:435-437 | up to 1024 cells every run does |
| Guarantees.NoLiveCellOverwritten | crates/stack-queue/src/queue.rs:405-432 | after every run the owner is never about to write a cell of a batch not given back, and is at most a lap ahead of its region |
| Guarantees.EveryPushInExactlyOneBatch | crates/stack-queue/src/queue.rs:500-530 | after every run: batch after batch is the sequence of all pushes, no batch is empty, and the cells of every live batch hold its tasks in order |
| Guarantees.DeliveredAll | crates/stack-queue/src/assignment.rs:215-229 | contiguous ranges that cover all pushes deliver each task once, in order |
| Guarantees.ClosedBatchesAreForever | crates/stack-queue/src/assignment.rs:35-40 | no later step changes what a closed batch contains |
| Guarantees.BatchLengths | crates/stack-queue/src/assignment.rs:95-110 | a live batch has one to N tasks, and N only from a region boundary, so equal masked bounds mean a full ring and never an empty batch |
| Guarantees.PhaseTellsOpenBatch | crates/stack-queue/src/queue.rs:477-484 | at most one batch is open, it is the latest, and the phases agree exactly while there is one, also between `fetch_add` and the local replacement |
| Guarantees.AtMostOneFlip | crates/stack-queue/src/assignment.rs:36-40 | without a `fetch_add` in between the phase flips at most once |
| Guarantees.ClosedOnceReleasedOnce | crates/stack-queue/src/assignment.rs:147-158 | a run flips the phase once for each batch it bounds and takes each batch it releases out of the word once |
| Guarantees.WordRefinesBatches | crates/stack-queue/src/queue.rs:434-449 | after every run the word is the packed counters, each at most the region size, and a masked region is zero exactly when no live batch starts there |
| Guarantees.StaleCopyErrsOnTheSafeSide | crates/stack-queue/src/queue.rs:409-417 | outside the add-then-store window the owner's copy is at least the word, byte by byte: never free when occupied |
| Guarantees.FullIsPrecise | crates/stack-queue/src/queue.rs:419-431 | a push is refused exactly when at the load a live batch starts in the region it would enter, and the load happens only at a boundary |
| Guarantees.OwnerProgress | crates/stack-queue/src/queue.rs:500-530 | inside a push the owner always has a next step |
| Overflow.ReachOverflow | crates/stack-queue/src/queue.rs:435-444 | for every N > 1024 a run to a state whose word is zero while a batch in the last region is live and the owner is a full lap on |
| Overflow.OverwritesAfterOverflow | crates/stack-queue/src/queue.rs:406-417 | and from it the check lets the owner write that batch's first cell |
| Overflow.SafeExactlyUpTo1024 | crates/stack-queue/src/queue.rs:434-449 | no run overwrites a live cell if and only if N <= 1024 |
| Queue.StackQueue.constructor | crates/stack-queue/src/queue.rs:300-319 | the queue starts in the protocol's initial state: shared slot 0, local slot PHASE, nothing occupied |
| Turns.WeaveSources | crates/stack-queue/src/queue.rs:500-530 | every step that happens during an operation is one of its own turns or was on a schedule of the others |
| Turns.PlayedRest | crates/stack-queue/src/queue.rs:500-530 | what was played after some turns is played by the turns after them, so each call can be looked at by itself |
| Outcomes.RunSpares | crates/stack-queue/src/assignment.rs:35-40 | over any run a batch that nobody closes and nobody gives back stays the same |
| Outcomes.NoEntryWhereLive | crates/stack-queue/src/queue.rs:409-431 | while a batch that starts in a region is live, no push gets past the begin of that region |
| Outcomes.RunDecides | crates/stack-queue/src/queue.rs:500-530 | in any run from an idle owner to the end of a push, what it found and which batches were closed and given back decide between refused, joined and opened |
| Outcomes.PushDecides | crates/stack-queue/src/queue.rs:500-530 | the same for the turns of a push, where only schedules of others close and give back |
| Outcomes.LeftAlone | crates/stack-queue/src/queue.rs:500-530 | a push during which others close and give back nothing is refused if and only if it enters a region in which a live batch starts, else joins if and only if a batch is open, and changes no earlier batch |
| Queue.StackQueue.Push | crates/stack-queue/src/queue.rs:500-530 | the turns of a push are the steps of the source in their order and, between them, what others scheduled, nothing else; they append the task, in the open batch or with a new guard for its own, or return it with queue and buffer as they were; which of these is `Outcomes.Decided`: batches that others leave alone stay as they are, a live batch at the region's entry that they do not give back refuses the push, an open batch that they do not close is joined, and where none is open one is opened |
| Queue.StackQueue.Admit | crates/stack-queue/src/queue.rs:500-508 | index and check: what the owner may find at a region's begin, and the turns taken to find it |
| Queue.StackQueue.Commit | crates/stack-queue/src/queue.rs:510-529 | past the check the task is always accepted |
| Queue.StackQueue.Append | crates/stack-queue/src/queue.rs:510-517 | the cell is written before the `fetch_add` makes the task part of the queue, and a new batch starts exactly there |
| Queue.StackQueue.Settle | crates/stack-queue/src/queue.rs:519-529 | the compared phases tell exactly whether the `fetch_add` opened a batch |
| Queue.StackQueue.CurrentWriteIndex | crates/stack-queue/src/queue.rs:397-417 | the local slot gives the cell of the next push, and the slow path is entered only at a boundary |
| Queue.StackQueue.CheckRegionalOccupancy | crates/stack-queue/src/queue.rs:405-432 | the slow path leaves slot, buffer and batches alone and fails only for a region that counted a batch |
| Queue.StackQueue.OccupyRegion | crates/stack-queue/src/queue.rs:434-449 | between the shared addition and the local store others may run; afterwards the new batch is counted and its guard out |
| Queue.StackQueue.ReplaceSlot | crates/stack-queue/src/queue.rs:451-454 | the local slot catches up, and the phases tell whether a batch is forming |
| Queue.StackQueue.IntoBounded | crates/stack-queue/src/assignment.rs:215-229 | one flip fixes the end of the batch at the latest push, and its contents |
| Queue.StackQueue.DeoccupyRegion | crates/stack-queue/src/queue.rs:233-254 | the batch is given back; if no batch is left outstanding, as many wakers as wait are woken, oldest first and at most a region's worth, and otherwise none |
| Queue.StackQueue.Drain | crates/stack-queue/src/queue.rs:242-252 | the drain ends, wakes as many as the limit and the list allow, and retries do not use up the limit |
| Queue.StackQueue.Release | crates/stack-queue/src/assignment.rs:355-362 | one release, as the last turn, which wakes as many as are due |
| Queue.StackQueue.ReadCell | crates/stack-queue/src/assignment.rs:414-420 | the cell of position k of a held batch has the task pushed at that position |
| Queue.StackQueue.CopySlice | crates/stack-queue/src/assignment.rs:328-338 | a slice copied cell by cell while others run before each cell is the matching part of the batch |
| Queue.StackQueue.ToVec | crates/stack-queue/src/assignment.rs:319-345 | the vector is the batch's tasks in push order, whatever other threads do meanwhile; the batch is released once, at the end, and as many are woken as are due by what is outstanding then |
| Queue.StackQueue.DropBounded | crates/stack-queue/src/assignment.rs:368-380 | drop-needing tasks are dropped once each, whatever others do meanwhile, unless the range straddles 2^32, when none is; then one release, which wakes as many as are due |
| Queue.StackQueue.DropUnbounded | crates/stack-queue/src/assignment.rs:247-262 | dropping the open guard is one flip first, then the same drops and one release that wakes as many as are due |
| Queue.BufferIter.constructor | crates/stack-queue/src/assignment.rs:459-469 | the iterator has the whole batch ahead of it, or nothing if the range straddles 2^32 |
| Queue.BufferIter.Next | crates/stack-queue/src/assignment.rs:414-428 | each call yields the next task of the batch and no task twice, with other threads running in between |
| Queue.BufferIter.Drop | crates/stack-queue/src/assignment.rs:444-449 | the rest is dropped if it needs dropping, the batch released once, and as many woken as are due |
| Queue.ZeroAfterRelease | crates/stack-queue/src/queue.rs:237-241 | the word before a release equals the increment exactly when nothing stays outstanding after it |
| Queue.CellAt | crates/stack-queue/src/assignment.rs:414-420 | in every state of the invariant, position k of a live batch is found at (start + k) mod N |
| Queue.SlicesOfBatch | crates/stack-queue/src/assignment.rs:291-310 | the two slices of a bounded batch have its length, the first begins at its first cell and the second at the ring's |
| Queue.SlicesShowBatch | crates/stack-queue/src/assignment.rs:289-317 | after every run the slices of a closed batch show its tasks in push order |
| Queue.BoundedCounters | crates/stack-queue/src/assignment.rs:216-219 | the 32-bit range counts exactly the batch, or is empty exactly when it straddles 2^32 |
| Ranges.SlicesAreTheRange | crates/stack-queue/src/assignment.rs:95-110 | for every range of one to N pushes, across any wrap, the two slices are its cells in order |
| Ranges.SlicesOfNothing | crates/stack-queue/src/assignment.rs:97-109 | an empty range would read as the whole ring, which is why batches must not be empty |
| Ranges.IterOfRange | crates/stack-queue/src/assignment.rs:414-428 | the iterator yields the range, or nothing exactly when the range straddles 2^32 |
| Ranges.ReadersAgree | crates/stack-queue/src/assignment.rs:319-345 | slices and iterator give the same tasks if and only if the batch lies within one lap of the counter |
| Ranges.SlicesAreThePlaces | crates/stack-queue/src/assignment.rs:95-110 | the slices consist of the cells of the batch's positions, no less and no more |
| Ranges.PositionIsPlace | crates/stack-queue/src/assignment.rs:112-116 | chaining the slices meets the cell of position j as the j-th |
| Ranges.PlaceInSlices | crates/stack-queue/src/assignment.rs:112-116 | and every position's cell is met there, at its position |
| Wraparound.StraddlingBatchIsMissed | crates/stack-queue/src/assignment.rs:414-428 | for every N a run to a closed batch of two tasks around the wrap of the counter: the slices show them, the iterator yields nothing |
| Handoff.StepInv | crates/stack-queue/src/task.rs:201-214 | every step of either side keeps flags, memory and ledger consistent, under the two promises |
| Handoff.SafeExactlyWhenDisciplined | crates/stack-queue/src/task.rs:201-214 | the receiver's memory is touched only while allocated, the value is written at most once and never read or dropped where there is none, in all runs, if and only if polls follow wakes and cells are reused only after their receivers |
| Handoff.EarlyPollFaults | crates/stack-queue/src/task.rs:385-391 | a poll ahead of the wake reads an unwritten value |
| Handoff.EarlyRecycleFaults | crates/stack-queue/src/task.rs:134-138 | a receiver that outlives the use of its cell flags its drop to another task |
| Handoff.ReceiverGetsTheValue | crates/stack-queue/src/task.rs:385-391 | a receiver that yields a value yields the resolver's |
| Handoff.AtMostOneDisposal | crates/stack-queue/src/task.rs:405-424 | a value is never both read and dropped, nor dropped twice, and the only way to none is named |
| Handoff.NoLeakExactlyWhenNeedsAgree | crates/stack-queue/src/task.rs:416-422 | every drop-needing value is disposed of exactly once, in all runs, if and only if such values come with drop-needing tasks |
| Handoff.SpinMeansResolving | crates/stack-queue/src/task.rs:407-414 | whenever a receiver spins, the resolver is between its two flag operations or past them, never one that saw the receiver dropped |
| Handoff.RemainingShrinks | crates/stack-queue/src/task.rs:202-212 | each resolver step leaves fewer, and no other step adds any |
| Handoff.SpinEndsInEveryRun | crates/stack-queue/src/task.rs:411-414 | under every interleaving: from a spinning state the resolver has at most three steps left, and once it has taken them the next load ends the spin and the drop can complete |
| Handoff.SpinEnds | crates/stack-queue/src/task.rs:411-424 | and from every spinning state those steps, one load and the deallocation are a run |
| TaskQueue.TaskRing.InitCell | crates/stack-queue/src/task.rs:134-138 | the cell holds the task and a link on which nothing has happened, open to be resolved with any value |
| TaskQueue.TaskRing.TakeTask | crates/stack-queue/src/task.rs:194-197 | the task moves out of its cell |
| TaskQueue.TaskRing.ClaimReceiver | crates/stack-queue/src/task.rs:201-204 | the first atomic operation of the resolver is one step of the handoff, and tells whether the receiver is there |
| TaskQueue.TaskRing.PublishValue | crates/stack-queue/src/task.rs:210-212 | its last is one step of the handoff, after which the value is the receiver's |
| TaskQueue.ReceiverKeepsLink | crates/stack-queue/src/task.rs:385-424 | whatever a receiver does, the resolver's stage and what it has established stay |
| TaskQueue.WhatResolvedMeans | crates/stack-queue/src/task.rs:199-214 | the resolver being done with v means: a waiting receiver is woken with v at hand, a polled one has yielded v, a dropped one is not touched any more and no value is lost |
| TaskQueue.TaskRing.DropReceiver | crates/stack-queue/src/task.rs:405-424 | the drop, spin loop included, ends however many steps the resolver takes between two loads, and leaves the handoff consistent |
| TaskProtocol.LiveCellsApart | crates/stack-queue/src/queue.rs:405-432 | two live batches share no cell |
| TaskProtocol.StepInv | crates/stack-queue/src/queue.rs:461-494 | every step of the owner, of batch holders and of receivers keeps: tasks of an unclosed batch wait in their cells with untouched links, and no link is at fault |
| TaskProtocol.TasksAwaitTheirBatch | crates/stack-queue/src/queue.rs:461-494 | the same after every run from the start, whose queue steps are moreover a run of the queue, so that all its guarantees apply |
| TaskProtocol.RunProjects | crates/stack-queue/src/queue.rs:461-494 | a run of the task queue projects to a run of the batching protocol within the bound on its counters |
| TaskProtocol.OthersKeepBatch | crates/stack-queue/src/assignment.rs:81-93 | no step of the owner, of another batch's holder or of a receiver changes a bounded batch, takes its tasks or moves its resolver on |
| TaskProtocol.RetiredStays | crates/stack-queue/src/task.rs:134-138 | a cell whose receiver is done stays so until the owner initialises it again |
| Enqueue.TaskStackQueue.constructor | crates/stack-queue/src/queue.rs:213-227 | the task queue starts empty, with no turns taken |
| Enqueue.TaskStackQueue.Enqueue | crates/stack-queue/src/queue.rs:461-494 | the turns recorded grow by those of a push and no others; the task is appended, in the open batch or with a guard for its own, or turned away at a boundary, as `Outcomes.Decided` has it by what was found and what others scheduled: an open batch that nobody closes is joined, and where none is open one is opened |
| Enqueue.TaskStackQueue.Admit | crates/stack-queue/src/queue.rs:466-473 | index and check of an enqueue, and the turns taken for them |
| Enqueue.EnqueueDecides | crates/stack-queue/src/queue.rs:461-494 | the turns of an enqueue, told of the queue alone, decide its outcome as those of a push do |
| Enqueue.TaskStackQueue.WriteCell | crates/stack-queue/src/queue.rs:475-475 | the write initialises the cell before the `fetch_add`, and is one step of the protocol |
| Enqueue.TaskStackQueue.Append | crates/stack-queue/src/queue.rs:475-480 | the task is in its cell before it is part of the queue, and a new batch starts exactly there |
| Assignment.TaskAssignment.constructor | crates/stack-queue/src/assignment.rs:42-53 | bounding an open batch is one flip, and every task of the batch is found waiting in its cell with an untouched link |
| Assignment.TaskAssignment.ResolveAt | crates/stack-queue/src/task.rs:199-214 | with everybody else running between any two of its operations, the receiver of a position ends up resolved with the value given, and the other positions are as they were |
| Assignment.TaskAssignment.MapSlice | crates/stack-queue/src/assignment.rs:139-142 | one slice, cell by cell: the positions passed have met their fate, the rest still wait |
| Assignment.TaskAssignment.Release | crates/stack-queue/src/assignment.rs:147-158 | one release, as the last turn, which wakes as many as are due |
| Assignment.TaskAssignment.Map | crates/stack-queue/src/assignment.rs:134-158 | whatever the owner, other holders and receivers do between its steps, the receiver of the j-th pushed task is resolved with op of that task and the task is taken; there are only the others' turns and this holder's, the last is the one release, and it wakes as many as are due |
| Assignment.TaskAssignment.ResolveWithIter | crates/stack-queue/src/assignment.rs:118-132 | likewise, the receiver of the j-th pushed task is resolved with the j-th value; those beyond the values are left waiting with their tasks in place; one release, which wakes as many as are due |
| Assignment.TaskAssignment.Drop | crates/stack-queue/src/assignment.rs:175-183 | likewise, the batch's tasks are dropped once each in push order if they need it, no receiver is resolved, and the batch is released once, which wakes as many as are due |
| Assignment.FirstTask | crates/stack-queue/src/assignment.rs:134-158 | from the empty queue: the first enqueue opens a batch, and into_assignment and map resolve its receiver with op of the task, with anybody at work on the way |
| Assignment.HolderTouchesOwnCells | crates/stack-queue/src/assignment.rs:118-145 | the steps of a batch's holder touch the cells of the batch only |
| Parking.QueueKeeps | crates/stack-queue/src/queue.rs:233-254 | over every run, under every policy, the queue keeps the invariant of the protocol |
| Parking.ReleaseStartsDrain | crates/stack-queue/src/queue.rs:237-241 | a release starts one drain, capped at a region's worth, if and only if it leaves no batch outstanding; otherwise, and when a batch is closed, nothing changes for those that wait |
| Parking.DrainTakes | crates/stack-queue/src/queue.rs:242-252 | a drain that is not interrupted takes as many wakers as its limit and the list allow, oldest first, and ends |
| Parking.ReleaseWakes | crates/stack-queue/src/queue.rs:233-254 | release and uninterrupted drain together take exactly the wakers that `Queue.StackQueue.DeoccupyRegion` takes |
| Parking.WakersInOrder | crates/stack-queue/src/queue.rs:242-252 | over every run wakers are taken in the order they were left behind, each once, and no more of them than a region's worth for each release that leaves nothing outstanding |
| Parking.OnlyRefusedPark | crates/stack-queue/src/task.rs:377-379 | under every policy a waker is left behind only for a refused push, by a future that is neither through nor dropped |
| Parking.StepKeeps | crates/stack-queue/src/queue.rs:233-254 | where futures are neither polled ahead of their wake nor dropped, every step that does not undercut a refusal keeps: pending wakers are of futures that still wait, and there is a live batch, a drain with its whole limit left or a woken future that will go on, although every drain is capped |
| Parking.RunKeeps | crates/stack-queue/src/task.rs:476-488 | the same over every run |
| Parking.CalmRunsStrandNobody | crates/stack-queue/src/task.rs:476-488 | check and parking apart, as in the code: no run strands a future unless a release brings the word to zero between a failing load and the push of its waker |
| Parking.StrandedByUndercut | crates/stack-queue/src/task.rs:377-379 | for every N a run in which the last release falls between the failed check and the push of the waker, after which nothing will ever wake the future |
| Parking.StrandedBehindStale | crates/stack-queue/src/queue.rs:242-252 | for every N a run in which a future polled over and over gets in ahead of its stale wakers, which use up the drains, and strands the one behind them |
| Parking.StrandedBehindDropped | crates/stack-queue/src/queue.rs:242-252 | for every N a run in which a drain is used up by the wakers of dropped futures |
| Parking.NobodyStrandedExactlyWhenKept | crates/stack-queue/src/queue.rs:419-431 | no run strands a future if and only if check and parking are one step, no future is polled while its waker is pending, and none is dropped before its task is in |
| Collect.StepConserves | crates/stack-queue/src/task.rs:544-563 | no step loses or doubles a task: refused ones are back with their future |
| Collect.RunConserves | crates/stack-queue/src/task.rs:623-645 | the same over every run |
| Collect.ReadsContents | crates/stack-queue/src/task.rs:564-575 | what a future reads from its bounded batch is the batch's tasks, through slices always, through the iterator within a lap, and nothing through the iterator across one |
| Collect.StepInv | crates/stack-queue/src/task.rs:613-656 | every step keeps futures and batches linked: each batch has one future that opened it and is as far as the batch |
| Collect.OutputsAreDelivered | crates/stack-queue/src/task.rs:646-654 | the outputs, batch after batch, are what the queue delivered if every batch was seen, and fewer tasks otherwise |
| Collect.CompletedRunsDeliverEverything | crates/stack-queue/src/task.rs:530-577 | once all futures are done: exactly one future for each batch returned it, all others nothing; the pushes are the futures' tasks, none lost and none doubled; and the outputs in batch order are all pushes if and only if no reducer read a batch that straddles 2^32 |

## Left out

- Weak memory: the atomic operations are interleaved sequentially consistently; `Relaxed`, `Acquire` and `Release` are not told apart.
- The 32-bit configuration, whose shift by `REGION_COUNT.trailing_zeros()` moves regions by four bits, so that the masks of neighbours overlap.
- For N > 1024 the guarantees assume at most 255 live batches counted in a region (`Guarantees.StaysSmall`, `ProtocolSteps.BoundedStep`); `Overflow` shows what happens without it.
- Queue.StackQueue.Push: for N > 1024 asks for room in the counter of the region it enters, the same bound; for N <= 1024 it asks nothing.
- Queue.StackQueue.Commit: asks for the same room.
- Queue.StackQueue.Append: asks for the same room.
- Queue.StackQueue.Settle: asks for the same room.
- Queue.StackQueue.OccupyRegion: asks for the same room.
- Queue.StackQueue.Interfere: a step the protocol does not allow, or that would count a 256th batch in a region, is skipped in a schedule.
- Queue.StackQueue.DeoccupyRegion: the release and its drain run without others in between; their interleaving with pushes and parking is the subject of `Parking`.
- Handoff.Step: waking is one step; what the executor does with the waker is not modelled.
- TaskProtocol.Step: the owner writes a cell only once nobody is at work on its link any more, which is the second promise of `Handoff.SafeExactlyWhenDisciplined`; the code does not look.
- Enqueue.TaskStackQueue.Enqueue: asks that the next cell is free in that sense, and for room in the counter as `Push` does.
- Enqueue.TaskStackQueue.Commit: asks for the same.
- Enqueue.TaskStackQueue.Append: asks for the same.
- Enqueue.TaskStackQueue.WriteCell: asks that the cell is free in that sense.
- TaskQueue.TaskRing.DropReceiver: the resolver rests only a bounded number of times between two loads, as any fair schedule lets it.
- Task cells and links are arrays beside the queue's own buffer, where the source has one cell of three parts; the buffer keeps what was pushed, the task cells what is still there.
- Collect: the reducer is taken to exhaust its iterator; a dropped guard or a cancelled future is not a step.
- The crossbeam deque is a first-in-first-out list whose `Retry` is bounded by a budget.
- Tokio tasks, `with_blocking`, `LocalRef` and `Context` lifetimes and the shutdown of thread locals.
- Panics out of user operations and iterators.
- The `local_queue` macro beyond its size check, the diesel and redis traits, `Debug` and comparison forwarding, benches and the loom shims.
