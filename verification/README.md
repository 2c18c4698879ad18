# Huawei LiteOS kernel: a verified model

This project models the parts of the LiteOS kernel whose correctness depends on invariants across
functions, and proves what they promise on every input, every run and every interleaving.

**Foundations.** `Lists`, `Waits` and `Arith` hold what several modules share.

**Memory.** The pool is a byte-addressed array of 32-bit words, as the allocator sees it: node
headers, back pointers, flags, magic words and the links of the 27 circular free lists all live in
it and are rewritten in place. `PoolMemory` says what a well-formed heap is, `PoolRings` and
`PoolChain` what one link or header update does to it, `PoolSteps` how operations go through states
in which some nodes are in hand, `PoolTiling` and `PoolRequests` what the heap means to its users,
`PoolCut` what is left of a block that is cut down to less than a header, and `DynamicPool` is the
code. `PoolLaws` relates operations: freeing undoes allocating, the default
pointer check agrees with the walk of the chain, and a pointer that was handed out stays good
whatever happens to other blocks. `DynMemExample` is a user of it all. `Membox` and `Mail` are the
fixed-block pool and the tasks that wait for its blocks.

**Time.** `DeltaList` relates a list of differences to the due times it stands for. `TimingWheel` is
the task delay wheel with its packed slot and roll words, shown to be a plain countdown.
`SwtmrModel`, `SwtmrRuns` and `SwtmrLaws` are the software timers as an agenda, `SwtmrStarts` says what
a call does for the timer it names, up to when that fires, and `SoftwareTimer` is the code on control
blocks and a delta list.

**Waiting.** `QueueModel` with `MessageQueue`, `MutexModel` with `MutexLaws` and `Mutexes`,
`Semaphores` and `Events` treat every interrupt-locked section as one atomic step. A call that blocks
is two steps, and a task that was woken but has not run yet is a state of its own; the invariants
count such tasks. Runs are arbitrary sequences of calls by arbitrary tasks, resumptions, timeouts,
priority changes and deletions. `QueueAnswers`, `MutexAnswers`, `EventAnswers`, `MailAnswers` and a
section of `Semaphores` say what callers are told: when a call blocks, and what a blocked one returns when
its task runs again, measured by messages delivered, pends unmatched, units taken, bits seen and blocks
handed out. `Inversion` says when priority inheritance does what it is for.

**Tasks.** `SchedModel`, `SchedOps`, `SchedLaws` and `Scheduler` are the status bits, the ready and
wait lists that share one node per task, the wheel, and LOS_Schedule; `SchedEffects` says when each call
succeeds, what it does to its task, and what it leaves alone. `SchedChoice` says who runs after each of
them. `Timeslice` is round robin on a 16-bit tick, on the scheduler's ready lists.
Four modules put the scheduler together with what tasks wait for. `QueueTasks`: a message queue's view
of what its tasks are doing is what status bits, lists and wheel say, and whoever was promised a message
or a slot can run. `MutexTasks`: the same for mutexes, with the priorities they lend, and no waiter is
overtaken. `TimedTasks` and the code in `TaskClock`: a delay or a timed wait of n ticks ends with the
n-th tick, at a task that is ready. `TimedWaits`: the same from the pend call on, and who runs when ticks
come as well.

**XMODEM.** `Crc16` is the 256-entry table against the bit-by-bit CRC; `Xmodem` is the sender against
every source and every stream of responses, with a receiver to say what arrives.

A pattern runs through the project. The functions of a model module say what one section of the
source does to an abstract state; a class holds the source's fields and its methods, loops and in-place
updates included, are proved to do just that; lemmas about the model then give the laws over whole
runs. Where the code does not keep a promise on all inputs, the exact condition is proved:

- LOS_MemAllocAlign takes a block that is too small exactly when size + boundary + 4 wraps
  (`AlignedRequestCovers`, with an input in `AlignedRequestWraps`).
- LOS_MemRealloc leaves no heap with the block exactly when the rounded size wraps below a header and
  the block is long enough to be cut, provided the rest finds a list (`CutBreaks` and the contract of
  `ReAllocSmaller`, stated of the memory the call leaves). The rest always finds one for 8 and 12 bytes
  (`RestIsListed`); `WrappedSizesBreak` says when for 0 and 4, and `ReallocOfHugeSizeBreaks` is an input.
- A pointer that was not shifted is recognised exactly when its block is smaller than 2^30 bytes
  (`UnshiftedRecovers`; `HugeBlock` is a run in which it is not). A second free of a pointer is accepted
  exactly when it was not shifted, the first leaves a block of more than 2^30 bytes at the header, and
  the excess over 2^30, taken for a gap, leads from the header to a live block (`SecondFreeIff`). `FreeTwice` is a run in which the second free releases another task's block.
- A mutex stays with its owner exactly until the 65536th nested pend (`PendOkIff`); then the next
  task that pends owns it too (`WrapBreaks`), and the pends up to there can all be made
  (`WrapIsReached`).
- A task that holds a mutex b inside another one, a, leaves b at its first priority exactly when no
  better task had pended on a before b was taken (`NestedReleaseIff`); in general, once it holds nothing,
  it is where it was when it took the mutex it released last (`LastReleaseDecides`).
  `NestedReleaseStaysRaised` is a run that ends raised.
- No waiter is more urgent than the owner of its mutex: each call keeps that exactly under a condition on
  the state before it (`ServedIff`), so it holds along a run exactly as long as the calls meet theirs
  (`RunServedIff`). A blocked pend may spoil it if the owner waits as well, for the raise is not passed
  on; the last post if the longest waiter is not the most urgent one, for it inherits nothing
  (`HandOverInverts` is a run), or if the old owner holds another mutex; and setting a priority.
- LOS_TaskYield keeps the lists right exactly when the running task is in use and not blocked or at
  most one task is ready at its priority (`YieldOkIff`). A tick between queueing oneself and the switch
  can find it otherwise (`YieldWhileQueued`, `YieldBreaks`). After LOS_TaskSuspend of oneself or
  LOS_TaskDelay the node is in no list and its links are null, so the LOS_ListDelete in
  LOS_TaskYield also writes through null pointers; in the model it changes no list. LOS_TaskDelay keeps
  them exactly when it is refused, is such a yield, or the running task is in use and does not wait
  (`DelayOkIff`).
- The task that runs is the best ready one after every call or tick that stops the running task from being
  ready or makes another one so (`ChangesAreScheduled`, `TickIsScheduled`). It stays so along a run exactly
  as long as the calls meet their conditions (`RunInOrderIff`): lending a priority or giving it back may
  spoil it, for LOS_MuxPost does not schedule when nobody waits (`GivenBackRunsOn` is a run), and so may a
  wrap of the 16-bit lock count.
- A woken event reader gets bits exactly when its wish still holds of what the clears since then left
  (`WokenGetsBitsIff`); otherwise it returns 0, which is no error code (`ReadForNothing` is such a run).
- The block size of LOS_MemboxInit is too small exactly when the 32-bit sum wraps
  (`BlockSizeFitsIff`). Its magic number tells allocated blocks from free ones in every state of the
  pool exactly when no block that another can link to lies at that address (`MagicTellsIff`), which it
  can only if the pool lies one above a multiple of four (`AddrIsNotMagic`).
- Freeing a mail block keeps the pool and its waiters in order exactly when the block is not on its way
  to a woken task (`FreedOkIff`; `FreedOnItsWay` is a run to a state in which it is).

Where the documentation and the code differ, the code is followed: LOS_QueueWrite compares the
message size with the configured size plus four (los_queue.c:241, 418), and a semaphore that is
available is taken even in an interrupt (los_sem.c:189).

`dafny verify dfyconfig.toml` checks the whole project.

## Model

| member | source | states |
|---|---|---|
| MultiHead.Log2IsFloorLog2 | kernel/base/mem/los_multipledlinkhead.c:41-77 | the mask tree returns the floor of the base-2 logarithm for every word from 1 to 2^31 - 1 |
| MultiHead.HeadIndexRange | kernel/base/mem/los_multipledlinkhead.c:91-107 | a size has one of the 27 list heads exactly when it is below 2^31; larger sizes have none |
| MultiHead.HeadIndexMono | kernel/base/mem/los_multipledlinkhead.c:91-107 | a larger size never sits in an earlier list |
| MultiHead.SameListWithinTwice | kernel/base/mem/los_multipledlinkhead.c:91-107 | two node sizes of one list differ by less than a factor of two |
| PoolRings.UnlinkRings | kernel/include/los_list.h:183-189 | deleting a listed node leaves 27 circular lists without it and writes nothing but links of members and heads |
| PoolRings.LinkRings | kernel/include/los_list.h:129-135 | adding an unlisted node behind a head leaves 27 circular lists with it in front and writes nothing but links |
| PoolChain.MergeChain | kernel/base/mem/los_memory.c:119-127 | merging a node into the one before it leaves a chain of the other nodes, with sizes added and the next back pointer moved |
| PoolChain.SplitChain | kernel/base/mem/los_memory.c:139-166 | cutting a node leaves a chain with one node more, both sizes and back pointers as they should be |
| PoolSteps.MergeStep | kernel/base/mem/los_memory.c:119-127 | a merge keeps chain, lists, flags and magic words of every node that is not being worked on |
| PoolSteps.SplitStep | kernel/base/mem/los_memory.c:139-166 | so does a split |
| PoolSteps.InsertStep | kernel/base/mem/los_memory.c:196-222 | a free node whose neighbours are used completes the heap once it is in the list for its size |
| PoolTiling.BlocksTilePool | kernel/base/mem/los_memory.c:471-511 | every address between the list heads and the end sentinel lies in exactly one block |
| PoolTiling.ReleaseUndoesOccupy | kernel/base/mem/los_memory.c:177-224 | on tilings, releasing what was occupied restores the tiling |
| PoolTiling.ViewFixesHeap | kernel/base/mem/los_memory.c:177-224 | two well-formed heaps with the same tiling have the same block sizes and the same nodes in every size class |
| PoolRequests.AllocSizeBounds | kernel/base/mem/los_memory.c:398 | rounding a request up to a node size covers it unless the 32-bit sum wraps |
| PoolRequests.AlignedRequestCovers | kernel/base/mem/los_memory.c:554-569 | the block an aligned allocation takes has room for the request exactly when size + boundary + 4 does not wrap |
| PoolRequests.AlignedRequestWraps | kernel/base/mem/los_memory.c:563-565 | for 2^31 bytes on a boundary of 2^31 the padded size is 4, which the test of the used flag lets through, and the block asked for has 20 bytes |
| PoolRequests.ShiftFits | kernel/base/mem/los_memory.c:571-590 | a shifted pointer is a multiple of the boundary and leaves room for its gap word and the whole request inside the block |
| PoolRequests.UnshiftedRecovers | kernel/base/mem/los_memory.c:622-637 | a pointer that was not shifted leads back to its header exactly when the block is smaller than 2^30 |
| PoolRequests.ShiftedRecovers | kernel/base/mem/los_memory.c:622-637 | a shifted pointer leads back to its header through the gap word |
| PoolRequests.PayloadWrite | kernel/base/mem/los_memory.c:393-415 | a user writing inside the own payload leaves the heap well formed |
| PoolRequests.NamesWritten | kernel/base/mem/los_memory.c:622-637 | a user writing from the own pointer on keeps the pointer leading to its block, shifted or not |
| PoolRequests.StillRecovers | kernel/base/mem/los_memory.c:622-637 | after a free the pointer leads to the same header exactly when it was shifted or the size word left there is at most 2^30 |
| PoolRequests.SecondFreeIff | kernel/base/mem/los_memory.c:608-641 | after a free the same pointer leads to a live block exactly when it was not shifted, the block left at the header has more than 2^30 bytes, and the node found by taking the excess for a gap is a live one |
| DynamicPool.DynamicPool.ListDelete | kernel/include/los_list.h:183-189 | the memory afterwards is that of the abstract unlink |
| DynamicPool.DynamicPool.ListAdd | kernel/include/los_list.h:129-135 | the memory afterwards is that of the abstract link |
| DynamicPool.DynamicPool.MergeNode | kernel/base/mem/los_memory.c:119-127 | the memory afterwards is that of the abstract merge |
| DynamicPool.DynamicPool.SpitNode | kernel/base/mem/los_memory.c:139-166 | the node keeps n bytes; the rest, merged with a free node behind it, is one listed free node; every other payload is kept |
| DynamicPool.DynamicPool.FreeNode | kernel/base/mem/los_memory.c:177-224 | a used node is released: the tiling loses it, merged with whichever neighbours are free, in the list for the result |
| DynamicPool.DynamicPool.FindSuitableFreeBlock | kernel/base/mem/los_memory.c:79-96 | null exactly when no free block is large enough; otherwise a block in no later size class than any fitting one, and less than twice its size |
| DynamicPool.DynamicPool.CheckUsedNode | kernel/base/mem/los_memory.c:235-255 | the chain walk accepts exactly the used nodes of the chain |
| DynamicPool.DynamicPool.AllocWithCheck | kernel/base/mem/los_memory.c:393-415 | takes a best-fit block for the rounded request, or changes nothing |
| DynamicPool.DynamicPool.MemAlloc | kernel/base/mem/los_memory.c:521-543 | null exactly for size 0, flagged sizes, or when nothing fits, then nothing changes; otherwise a new used block with room for the request; all payloads kept; the heap stays well formed |
| DynamicPool.DynamicPool.MemAllocAlign | kernel/base/mem/los_memory.c:554-597 | for every size and power-of-two boundary from 4 on: a block is taken exactly when one fits the padded size; if that does not wrap, as MemAlloc, with a pointer that is a multiple of the boundary, the whole request inside the block, and leads back to the header; if it wraps, the block is smaller than the request and the gap word goes wherever the aligned address says |
| DynamicPool.DynamicPool.MemFree | kernel/base/mem/los_memory.c:608-641 | succeeds exactly for pointers that lead back to a live block and releases just that; otherwise nothing changes; afterwards the block is not live, and a second free of the pointer is accepted exactly when it was not shifted, more than 2^30 bytes are left at the header, and the node the excess leads to is a live one |
| DynamicPool.DynamicPool.ReAllocSmaller | kernel/base/mem/los_memory.c:427-436 | for every number of bytes: the memory afterwards, list insertion and flag included; it is a heap with the block exactly when a header is kept or nothing is cut, provided the rest found a list; then the block is cut in place if the rest can be a node, and its first bytes and all other payloads are kept |
| DynamicPool.DynamicPool.MergeNodeForReAllocBigger | kernel/base/mem/los_memory.c:449-461 | the block absorbs the free block behind it and is cut to the new size; its payload and all others are kept |
| DynamicPool.DynamicPool.MemRealloc | kernel/base/mem/los_memory.c:652-723 | for a null pointer as MemAlloc; for a live block and every size that keeps a header or cuts nothing: null changes nothing and comes exactly when the block can neither be kept, grown nor moved, or is to be freed, every other live block keeps size and payload, and the block is resized and, unless the rounded size wraps, has room for the request and begins with what the old one held; for the other sizes, the memory afterwards, and that it is no heap with the block once the rest is in a list |
| DynamicPool.DynamicPool.InitMultiHead | kernel/base/mem/los_multipledlinkhead.c:79-89 | 27 empty circular lists |
| DynamicPool.DynamicPool.MemInit | kernel/base/mem/los_memory.c:471-511 | succeeds exactly for a pool that is not null, large enough and whose first block is below 2^31 bytes; leaves one free block before the end sentinel in a well-formed heap |
| PoolLaws.FreeUndoesAlloc | kernel/base/mem/los_memory.c:177-255 | freeing an allocated block restores the same nodes with the same sizes and flags, and the same nodes in every size class |
| PoolLaws.HandedOutStays | kernel/base/mem/los_memory.c:521-723 | over every run of calls and writes on other blocks a pointer that was handed out still leads to its block, which keeps its size and contents |
| PoolLaws.HeaderCheckAgrees | kernel/base/mem/los_memory.c:284-356 | on nodes of a well-formed heap the default check by headers says what the chain walk says |
| PoolLaws.HeaderCheckRefusesFreed | kernel/base/mem/los_memory.c:284-356 | the default check refuses a node that has lost its flag |
| PoolLaws.RoundingWraps | kernel/base/mem/los_memory.c:398 | rounding falls short of the request exactly for the last 19 sizes |
| PoolCut.CutBreaks | kernel/base/mem/los_memory.c:139-166 | cutting a block down to less than a header leaves no heap with that block, in the memory after list insertion and flag write, once the rest is in a list |
| PoolCut.RestIsListed | kernel/base/mem/los_memory.c:152-165 | cutting a block down to 8 or 12 bytes always finds a list for the rest |
| PoolLaws.WrappedSizesBreak | kernel/base/mem/los_memory.c:427-436 | every size that rounds to less than a header leaves no heap with the block if that is long enough to be cut: always for 8 and 12 bytes, for 0 unless the task id is the address of the size word, for 4 if twice the address is beyond the memory |
| PoolLaws.ReallocOfHugeSizeBreaks | kernel/base/mem/los_memory.c:691-697 | 4294967288 bytes round to 8, so a block of 28 bytes or more is no block of a heap after the call |
| DynMemExample.UseOnce | example/api/los_api_dynamic_mem.c:64-76 | allocating, writing a word of what was handed out and freeing succeeds exactly when a free block fits, restores the tiling and keeps every other payload |
| DynMemExample.HugeBlock | kernel/base/mem/los_memory.c:521-641 | a run on a fresh pool: a block of at least 2^30 bytes is handed out, its pointer leads to no block, and the free of it is refused |
| DynMemExample.FreeTwice | kernel/base/mem/los_memory.c:521-641 | a run on a pool with a block of 2^30 + 40 bytes: one task frees its block twice, and the second free is accepted and releases the block of another task |
| DynMemExample.ExampleDynMem | example/api/los_api_dynamic_mem.c:49-96 | succeeds exactly on a pool whose first block holds four bytes, and leaves the pool as it was initialised |
| DeltaList.InsertRefines | kernel/base/core/los_swtmr.c:201-229 | inserting into a delta list is stable insertion into the list of due times |
| DeltaList.RemoveRefines | kernel/base/core/los_swtmr.c:376-388 | removing from a delta list removes one due time and changes no other |
| DeltaList.AgeRefines | kernel/base/core/los_swtmr.c:305-315 | decrementing the first entry brings all due times one nearer |
| TimingWheel.PackedWord | kernel/base/core/los_task.inc:47-51 | the slot and roll macros pack and unpack both parts for rolls below 2^27 |
| TimingWheel.AddWheel | kernel/base/core/los_task.c:117-156 | after the insertion every slot still has the ticks left the countdown says, and the new task has its timeout |
| TimingWheel.DeleteWheel | kernel/base/core/los_task.c:159-175 | a deletion changes nobody else's ticks left |
| TimingWheel.ScanWheel | kernel/base/core/los_task.c:184-230 | a tick of the wheel is a tick of the countdown for every slot, and fires who was due |
| TimingWheel.OnTime | kernel/base/core/los_task.c:117-230 | whatever is added and deleted meanwhile, a task with timeout n leaves the wheel on exactly the n-th scan |
| TimingWheel.StaysOff | kernel/base/core/los_task.c:117-230 | a task that is not on the wheel does not leave it |
| TimingWheel.TimingWheel.constructor | kernel/base/core/los_task.c:275-288 | the empty wheel stands for the empty countdown |
| TimingWheel.TimingWheel.Add | kernel/base/core/los_task.c:117-156 | the countdown gains the task with its timeout, for every timeout from 1 to 2^32 - 1 and every cursor |
| TimingWheel.TimingWheel.Delete | kernel/base/core/los_task.c:159-175 | the countdown loses the task and nothing else |
| TimingWheel.TimingWheel.Scan | kernel/base/core/los_task.c:184-230 | all counts go down by one; exactly the tasks with one tick left leave, in the order in which they were added |
| SwtmrModel.StartOk | kernel/base/core/los_swtmr.c:188-234 | starting keeps every slot in exactly one of free list, sort list and created |
| SwtmrModel.StopOk | kernel/base/core/los_swtmr.c:363-393 | so does stopping |
| SwtmrModel.DeleteOk | kernel/base/core/los_swtmr.c:243-249 | so does deleting |
| SwtmrModel.FireOk | kernel/base/core/los_swtmr.c:263-295 | so does every round of the timeout loop |
| SwtmrModel.NextIdOk | kernel/base/core/los_swtmr.c:283-286 | an expiry keeps the id below the maximum and its slot, and steps the generation by one modulo maximum / limit |
| SwtmrRuns.FireIs | kernel/base/core/los_swtmr.c:263-295 | one round pops the first timer; a periodic one returns with its whole interval, so the leading zeros get fewer and the loop ends |
| SwtmrRuns.ExpireList | kernel/base/core/los_swtmr.c:258-296 | the loop fires exactly the timers that are due, in list order |
| SwtmrRuns.ExpireIs | kernel/base/core/los_swtmr.c:258-296 | for every slot: due timers expire once, all others keep control block and ticks left |
| SwtmrRuns.ScanOk | kernel/base/core/los_swtmr.c:305-315 | after a tick no timer is overdue; the fired slots are distinct and in list order |
| SwtmrRuns.ScanIs | kernel/base/core/los_swtmr.c:305-315 | a tick fires a timer exactly when one tick was left, and takes one tick off every other |
| SwtmrRuns.AdjustIsScans | kernel/base/core/los_swtmr.c:341-354 | adjusting by n gives the state and the fired timers, in order, of n single ticks; larger n is cut to the next timeout |
| SwtmrLaws.CreateOk | kernel/base/core/los_swtmr.c:405-456 | creating keeps the partition of the slots |
| SwtmrLaws.DoOk | kernel/base/core/los_swtmr.c:405-601 | every call of the interface and every tick keeps the partition and leaves no timer overdue |
| SwtmrLaws.Elsewhere | kernel/base/core/los_swtmr.c:405-601 | no call changes the absolute expiry of a timer it does not name |
| SwtmrLaws.OneShotFiresOnce | kernel/base/core/los_swtmr.c:258-315 | over every run, a one-shot timer with t ticks left fires at the t-th tick and never again |
| SwtmrLaws.PeriodicFiresAtMultiples | kernel/base/core/los_swtmr.c:258-315 | over every run, a periodic timer fires at its expiry and then at every multiple of its interval |
| SwtmrLaws.SilentWhenIdle | kernel/base/core/los_swtmr.c:258-315 | a timer that is not ticking never fires until it is started |
| SwtmrLaws.IdCountsExpiries | kernel/base/core/los_swtmr.c:283-286 | over every run a slot's generation counts its one-shot expiries modulo the number of generations |
| SwtmrLaws.StaleIdAcceptedIff | kernel/base/core/los_swtmr.c:472-485 | an id is accepted again exactly when the expiries of its slot since then make whole rounds |
| SwtmrStarts.CreateAnswers | kernel/base/core/los_swtmr.c:405-456 | creating succeeds exactly for a usable interval and mode, with both pointers, while a slot is free; the first free slot is then an idle timer with that interval and mode, under the id it had |
| SwtmrStarts.StartAnswers | kernel/base/core/los_swtmr.c:465-504 | starting succeeds exactly for the id of a slot in use; its timer then has just its interval left, whether it was ticking or not |
| SwtmrStarts.StopAnswers | kernel/base/core/los_swtmr.c:513-553 | stopping succeeds exactly for the id of a ticking timer, which does not tick afterwards |
| SwtmrStarts.DeleteAnswers | kernel/base/core/los_swtmr.c:562-601 | deleting succeeds exactly for the id of a slot in use, which is then free and first in the free list |
| SwtmrStarts.CreatedFires | kernel/base/core/los_swtmr.c:188-504 | over every run: a timer created for an interval, started under its id at any later time and then left alone fires just that interval after its start, once, or at every multiple, and never before, whatever is done to the others |
| SoftwareTimer.SoftwareTimer.constructor | kernel/base/core/los_swtmr.c:139-158 | every slot free, in order, named by its index |
| SoftwareTimer.SoftwareTimer.SwTmrStart | kernel/base/core/los_swtmr.c:188-234 | the delta list gains the timer as the agenda does: with its first expiry left if it is one-shot and has not overrun, with its interval otherwise |
| SoftwareTimer.SoftwareTimer.SwtmrStop | kernel/base/core/los_swtmr.c:363-393 | the delta list loses the timer as the agenda does |
| SoftwareTimer.SoftwareTimer.SwtmrDelete | kernel/base/core/los_swtmr.c:243-249 | the slot goes to the front of the free list |
| SoftwareTimer.SoftwareTimer.TimeoutHandle | kernel/base/core/los_swtmr.c:258-296 | new state and fired timers are those of the abstract expiry |
| SoftwareTimer.SoftwareTimer.SwtmrScan | kernel/base/core/los_swtmr.c:305-315 | new state and fired timers are those of an abstract tick |
| SoftwareTimer.SoftwareTimer.SwTmrAdjust | kernel/base/core/los_swtmr.c:341-354 | new state and fired timers are those of the abstract adjustment |
| SoftwareTimer.SoftwareTimer.SwtmrCreate | kernel/base/core/los_swtmr.c:405-456 | code, id and new state for every argument; the id is that of the first free slot and names the created timer |
| SoftwareTimer.SoftwareTimer.SwtmrStart | kernel/base/core/los_swtmr.c:465-504 | code and new state; success exactly for the id of a slot in use, whose timer then has its interval left; a ticking timer is restarted |
| SoftwareTimer.SoftwareTimer.SwtmrStopId | kernel/base/core/los_swtmr.c:513-553 | code and new state |
| SoftwareTimer.SoftwareTimer.SwtmrDeleteId | kernel/base/core/los_swtmr.c:562-601 | code and new state; a ticking timer is stopped first |
| QueueModel.SlotIsModulo | kernel/base/ipc/los_queue.c:341-344 | wrapping by comparison is counting modulo the length |
| QueueModel.TakeOk | kernel/base/ipc/los_queue.c:339-357 | taking a message that was counted or promised keeps the invariant and delivers the oldest one |
| QueueModel.PutOk | kernel/base/ipc/los_queue.c:452-470 | storing into a slot that was counted or promised keeps the invariant |
| QueueModel.ReadEnterOk | kernel/base/ipc/los_queue.c:301-337 | the first section of a read keeps the invariant |
| QueueModel.ReadResumeOk | kernel/base/ipc/los_queue.c:326-357 | so does the second |
| QueueModel.WriteEnterOk | kernel/base/ipc/los_queue.c:409-450 | the first section of a write keeps the invariant |
| QueueModel.WriteResumeOk | kernel/base/ipc/los_queue.c:440-470 | so does the second |
| QueueModel.ExpireOk | kernel/base/core/los_task.c:212-216 | so does a timeout |
| QueueModel.DeleteQueueIff | kernel/base/ipc/los_queue.c:623-656 | deletion succeeds exactly when nobody waits and nobody has been woken without having run |
| QueueModel.QueueSafety | kernel/base/ipc/los_queue.c:139-474 | over all interleavings: messages = readable + readers in flight, free slots = writable + writers in flight, tail = (head + stored) mod length, delivered is a prefix of written, and no wake-up is lost |
| QueueModel.OkNoLostWakeUp | kernel/base/ipc/los_queue.c:301-474 | a blocked reader with a message stored, or a blocked writer with a free slot, implies a woken one in flight |
| QueueModel.ReadsDeliver | kernel/base/ipc/los_queue.c:301-361 | a successful read delivers the oldest undelivered message, any other outcome none |
| QueueModel.WritesAppend | kernel/base/ipc/los_queue.c:409-473 | a successful write appends its message once, also if it was blocked in between |
| QueueModel.PendPlaceIs | kernel/base/ipc/los_queue.c:148-162 | the waiting list is entered before the first waiter of lower priority |
| QueueModel.DoSorted | kernel/base/ipc/los_queue.c:148-200 | waiters stay sorted by priority while no waiting task's priority is changed |
| QueueModel.DoEnters | kernel/base/ipc/los_queue.c:148-162 | a task that starts to wait does so behind every waiter of its priority |
| QueueModel.DoOrder | kernel/base/ipc/los_queue.c:139-200 | no step changes the order of two tasks that go on waiting |
| QueueModel.FirstComeFirstServed | kernel/base/ipc/los_queue.c:139-200 | over every run in which no waiting task's priority is changed, of two waiters of equal priority the one that came first stays in front |
| QueueAnswers.ReadAnswers | kernel/base/ipc/los_queue.c:276-337 | a read that gets as far as the counter returns Ok exactly if a message is there that nobody was promised; otherwise it blocks exactly if it is willing to wait and the scheduler is not locked, and is told why if not; without waiting it never blocks; a refusal says why and changes nothing |
| QueueAnswers.WriteAnswers | kernel/base/ipc/los_queue.c:384-450 | the same for a write and a free slot |
| QueueAnswers.DeleteAnswers | kernel/base/ipc/los_queue.c:623-656 | a deletion is refused for waiters, or for woken tasks that have not run, and changes nothing then |
| QueueAnswers.BlockedCallEnds | kernel/base/ipc/los_queue.c:324-361 | over every run a call that blocked returns Timeout exactly if its wait ran out, else Ok, with the oldest message taken or the message of the call stored; one that waits for ever always returns Ok |
| QueueAnswers.WokenIsFirst | kernel/base/ipc/los_queue.c:180-200 | a task is woken only as the first that waits |
| QueueAnswers.NotServedBefore | kernel/base/ipc/los_queue.c:139-200 | over every run in which no waiting task's priority is changed, of two waiters of equal priority the one that came second is not woken while the other waits |
| MessageQueue.MessageQueue.QueueCreate | kernel/base/ipc/los_queue.c:88-255 | code for every argument, number of free control blocks and outcome of the allocation; the first unused block is taken, and the queue is empty with all slots writable |
| MessageQueue.MessageQueue.constructor | kernel/base/ipc/los_queue.c:116-130 | an empty queue, all slots writable |
| MessageQueue.QueuePend | kernel/base/ipc/los_queue.c:139-171 | the list with the task in its place |
| MessageQueue.MessageQueue.WakeUpReader | kernel/base/ipc/los_queue.c:180-200 | the first reader leaves the list and is in flight |
| MessageQueue.MessageQueue.WakeUpWriter | kernel/base/ipc/los_queue.c:180-200 | the first writer leaves the list and is in flight |
| MessageQueue.MessageQueue.ReadCallSection | kernel/base/ipc/los_queue.c:266-337 | outcome, message and new state are those of the protocol, error codes included; when the call blocks, by what is free and the timeout |
| MessageQueue.MessageQueue.ReadResumeSection | kernel/base/ipc/los_queue.c:326-361 | outcome, message and new state of the second section |
| MessageQueue.MessageQueue.WriteCallSection | kernel/base/ipc/los_queue.c:374-450 | outcome and new state are those of the protocol, error codes included; when the call blocks, by what is free and the timeout |
| MessageQueue.MessageQueue.WriteResumeSection | kernel/base/ipc/los_queue.c:440-473 | outcome and new state of the second section |
| MessageQueue.MessageQueue.QueueDelete | kernel/base/ipc/los_queue.c:611-661 | code and new state |
| MutexModel.PendOkIff | kernel/base/ipc/los_mux.c:168-244 | a pend keeps the invariant exactly when it does not wrap the 16-bit count |
| MutexModel.WrapBreaks | kernel/base/ipc/los_mux.c:191-206 | after the 65536th nested pend the count is zero, and a pend of any other task succeeds and makes it the owner while the first still has 65536 pends to post |
| MutexModel.PostOk | kernel/base/ipc/los_mux.c:270-341 | a post keeps the invariant |
| MutexModel.ExpireOk | kernel/base/core/los_task.c:201-207 | so does a timeout |
| MutexModel.CreateOk | kernel/base/ipc/los_mux.c:94-123 | so does creation |
| MutexModel.DeleteOk | kernel/base/ipc/los_mux.c:132-158 | so does deletion |
| MutexModel.BlockInherits | kernel/base/ipc/los_mux.c:226-229 | a blocked pend leaves the owner at the best of its saved priority and of all that pended in its tenure |
| MutexModel.ReleasedInherits | kernel/base/ipc/los_mux.c:305-308 | restoring the saved priority spoils no other tenure |
| MutexLaws.MutexSafety | kernel/base/ipc/los_mux.c:191-338 | over every run: at most one task has unmatched pends, the owner; the count is their number; waiters imply an owner; an owner of one mutex whose priority nobody set runs at the best priority of itself and those that pended |
| MutexLaws.PostHandsToLongestWaiter | kernel/base/ipc/los_mux.c:299-330 | the last post hands the mutex to the longest waiter with count 1 and restores the saved priority |
| MutexLaws.TenureRestoresPriority | kernel/base/ipc/los_mux.c:191-338 | over every run the post that ends a tenure leaves the task at the priority it had when it got the mutex |
| MutexLaws.PendsReach | kernel/base/ipc/los_mux.c:191-206 | n pends of one task reach count n, for every n below 65536 |
| MutexLaws.WrapIsReached | kernel/base/ipc/los_mux.c:191-206 | a run of 65535 pends leads to a state in which the next one wraps |
| MutexLaws.LastReleaseDecides | kernel/base/ipc/los_mux.c:191-308 | over every run in which a task goes from holding nothing, by holding some mutex all the time, to holding nothing again, it ends at the priority it had when it took the mutex it released last: at its first priority if that was also the first it took, and otherwise it held another one when it took it |
| MutexLaws.NestedReleaseIff | kernel/base/ipc/los_mux.c:191-308 | over every run a task that takes a, then b, leaves b at the best of its first priority and those that pended on a before it took b: at its first priority exactly when none of them was better |
| MutexLaws.NestedReleaseStaysRaised | kernel/base/ipc/los_mux.c:191-308 | such a run: two mutexes released in the order they were taken leave the task at the inherited priority for good |
| MutexAnswers.PendAnswers | kernel/base/ipc/los_mux.c:178-244 | a pend on a usable mutex outside interrupts is Ok exactly if no other task holds it; otherwise it blocks exactly if it is willing to wait and the scheduler is not locked; without waiting it never blocks |
| MutexAnswers.PendHolds | kernel/base/ipc/los_mux.c:191-206 | a pend that is Ok adds one to the task's unmatched pends on that mutex, every other outcome and everybody else's pends leave them as they were |
| MutexAnswers.PostAnswers | kernel/base/ipc/los_mux.c:270-341 | a post is Ok exactly if the task holds the mutex, then holds it once less, and the longest waiter holds it once exactly if that was the last; a refused post changes nothing |
| MutexAnswers.CreateDeleteAnswer | kernel/base/ipc/los_mux.c:94-158 | a mutex can be created exactly if a control block is unused, and deleted exactly if nobody holds it or waits for it |
| MutexAnswers.BlockedPendEnds | kernel/base/ipc/los_mux.c:246-255 | over every run a pend that blocked returns Ok exactly if its task is now the owner, with one unmatched pend more than when it called, and Timeout exactly if its wait ran out; one that waits for ever always returns Ok |
| Inversion.PendServesIff | kernel/base/ipc/los_mux.c:220-244 | a pend leaves nobody waiting behind a less urgent owner exactly when it does not block, or the owner does not wait, or whom the owner waits for is as urgent as the pending task |
| Inversion.PostServesIff | kernel/base/ipc/los_mux.c:299-334 | a post does so exactly when it is not the last, or the longest waiter is the most urgent one and the saved priority does for those that wait for the other mutexes of the old owner |
| Inversion.PriServesIff | kernel/base/core/los_task.c:919-973 | setting a priority does so exactly when it does for those that wait for the task, and whom the task waits for is as urgent |
| Inversion.ServedIff | kernel/base/ipc/los_mux.c:168-341 | so every step of every kind, all others without a condition |
| Inversion.RunServedIff | kernel/base/ipc/los_mux.c:168-341 | over every run that begins so, it stays so up to a step exactly when every step up to it meets its condition |
| Inversion.ChainServed | kernel/base/ipc/los_mux.c:220-244 | then the task at the end of a chain of waits, however long, is as urgent as the first |
| Inversion.HandOverInverts | kernel/base/ipc/los_mux.c:310-325 | a run of four calls by three tasks after which the more urgent waiter waits behind an owner that has inherited nothing |
| Mutexes.Mutexes.constructor | kernel/base/ipc/los_mux.c:62-85 | all control blocks unused |
| Mutexes.Mutexes.MuxCreate | kernel/base/ipc/los_mux.c:94-123 | code, handle and new state |
| Mutexes.Mutexes.MuxDelete | kernel/base/ipc/los_mux.c:132-158 | code and new state |
| Mutexes.Mutexes.MuxPend | kernel/base/ipc/los_mux.c:168-244 | outcome and new state, the wrapping count included |
| Mutexes.Mutexes.MuxPendResume | kernel/base/ipc/los_mux.c:246-255 | outcome and new state when the blocked task runs again: Timeout exactly if the wait ran out |
| Mutexes.Mutexes.MuxPost | kernel/base/ipc/los_mux.c:270-341 | code and new state |
| Semaphores.DoOk | kernel/base/ipc/los_sem.c:139-313 | every section keeps the invariant |
| Semaphores.SemSafety | kernel/base/ipc/los_sem.c:173-313 | over every run: waiters imply count 0, and initial + posts = count + units in flight + units taken, with count at most 0xFFFE |
| Semaphores.PostGrantsLongestWaiter | kernel/base/ipc/los_sem.c:279-310 | a successful post makes one unit, for the longest waiter if there is one |
| Semaphores.PendAnswers | kernel/base/ipc/los_sem.c:181-234 | a pend is Ok exactly if a unit was taken; on a semaphore in use that is exactly if one is there; otherwise it blocks, behind the others, exactly if it is willing to and may; without waiting it never blocks |
| Semaphores.PostAnswers | kernel/base/ipc/los_sem.c:139-313 | a post succeeds exactly on a semaphore in use that is not full, a deletion exactly if nobody waits; refusals change nothing |
| Semaphores.BlockedPendEnds | kernel/base/ipc/los_sem.c:236-245 | over every run a pend that blocked takes a unit and returns Ok exactly if a post found its task to be the longest waiter, and returns Timeout exactly if its wait ran out; one that waits for ever always returns Ok |
| Semaphores.Semaphore.SemCreate | kernel/base/ipc/los_sem.c:97-130 | a count above the maximum is refused, then the lack of an unused control block; otherwise the first of these is taken and holds that many units |
| Semaphores.Semaphore.SemPend | kernel/base/ipc/los_sem.c:173-234 | outcome and new state, error codes included; Ok exactly if a unit was taken, and when it blocks |
| Semaphores.Semaphore.SemPendResume | kernel/base/ipc/los_sem.c:236-245 | outcome and new state when the blocked task runs again: Timeout exactly if the wait ran out, a unit taken otherwise |
| Semaphores.Semaphore.SemPost | kernel/base/ipc/los_sem.c:260-313 | code and new state |
| Semaphores.Semaphore.SemDelete | kernel/base/ipc/los_sem.c:139-163 | code and new state |
| Events.PollIff | kernel/base/ipc/los_event.c:61-89 | a poll sees bits exactly when the AND or OR condition holds, and clears just those |
| Events.WakesIff | kernel/base/ipc/los_event.c:210-211 | for a wish that was not met, the writer's wake condition is that it is met now |
| Events.WriteWakesIff | kernel/base/ipc/los_event.c:199-230 | a write wakes exactly the tasks whose wish the new flags meet |
| Events.ClearKeeps | kernel/base/ipc/los_event.c:259-272 | clearing flags fulfils no wish |
| Events.NoLostWakeUp | kernel/base/ipc/los_event.c:91-272 | over every run no task waits for a condition the flags meet |
| Events.FlagsOverRun | kernel/base/ipc/los_event.c:61-272 | over every run the flags are those there before and those written since, less those cleared since and not set again |
| Events.WokenGetsBitsIff | kernel/base/ipc/los_event.c:162-173 | over every run a woken reader that runs again gets bits exactly when what those flags are meets its wish; for a wish for all of a mask, exactly when none of the mask has been cleared for good since the wake-up; for the others that is enough |
| Events.WokenForNothing | kernel/base/ipc/los_event.c:170-172 | of two tasks woken for one mask that both clear it the second returns no bits and no error |
| Events.ReadForNothing | kernel/base/ipc/los_event.c:91-246 | a run from the initial block that ends so |
| EventAnswers.ReadAnswers | kernel/base/ipc/los_event.c:98-161 | a proper read returns the bits of its mask exactly if they meet its wish; otherwise it blocks exactly if it is willing to wait and the scheduler is not locked, and returns none without waiting; an improper one is told why |
| EventAnswers.WriteAnswers | kernel/base/ipc/los_event.c:188-196 | a write is refused exactly if it sets the bit that marks errors, and then changes nothing |
| EventAnswers.BlockedReadEnds | kernel/base/ipc/los_event.c:162-173 | over every run a read that blocked returns ReadTimeout exactly if its wait ran out; otherwise some write met its wish, and it returns the bits of its mask if the flags still meet the wish and none if not; one that waits for ever never times out |
| Events.EventBlock.constructor | kernel/base/ipc/los_event.c:50-59 | no flags, nobody waiting |
| Events.EventBlock.EventPoll | kernel/base/ipc/los_event.c:61-89 | result and flags of the abstract poll, for every mask and mode |
| Events.EventBlock.EventRead | kernel/base/ipc/los_event.c:91-161 | outcome and new state, error codes included |
| Events.EventBlock.EventReadResume | kernel/base/ipc/los_event.c:162-173 | outcome and new state when the blocked task runs again: ReadTimeout exactly if the wait ran out |
| Events.EventBlock.EventWrite | kernel/base/ipc/los_event.c:182-246 | the loop over the waiters does what the abstract write does |
| Events.EventBlock.EventClear | kernel/base/ipc/los_event.c:259-272 | the flags in the mask stay |
| Membox.BlockSizeFitsIff | kernel/base/mem/los_membox.c:103 | the rounded block size leaves room for the magic number exactly when the 32-bit sum does not wrap; it is 0 for four sizes |
| Membox.PlacedIff | kernel/base/mem/los_membox.c:57-75 | the offset test accepts exactly the user addresses of the pool's blocks, for every 32-bit address |
| Membox.AddrIsNotMagic | kernel/base/mem/los_membox.c:45 | in a word-aligned pool, and at every address but those one above a multiple of four, no block lies at the address that is the magic number |
| Membox.MagicTellsIff | kernel/base/mem/los_membox.c:45-77 | in every state of the pool a first word is the magic number exactly at allocated blocks, if and only if no block that another can link to lies at the magic address |
| Membox.MagicIffAllocated | kernel/base/mem/los_membox.c:77 | in every pool of that kind a block's first word is the magic number exactly when the block is allocated |
| Membox.BlockCountIs | kernel/base/mem/los_membox.c:103-104 | the pool has as many blocks as there is room for behind its header, and no more |
| Membox.Membox.MemboxInit | kernel/base/mem/los_membox.c:80-127 | succeeds exactly when at least one block fits, also when the block size wraps to 4, and says when the magic number tells |
| Membox.Membox.constructor | kernel/base/mem/los_membox.c:112-122 | all blocks free, linked in order; in order exactly when no block that another can link to lies at the magic address |
| Membox.Membox.MemboxAlloc | kernel/base/mem/los_membox.c:129-153 | the first free block, or null exactly when there is none |
| Membox.Membox.MemboxFree | kernel/base/mem/los_membox.c:155-185 | succeeds exactly for the user address of an allocated block, which becomes the first free one |
| Mail.MailSafety | kernel/base/ipc/los_queue.c:485-602 | over every run tasks wait only while the pool is empty, and what a woken task was given is not free and given to no other |
| Mail.FreedOkIff | kernel/base/ipc/los_queue.c:576-596 | freeing an allocated block keeps that exactly when the block is not on its way to a woken task; otherwise it is handed out twice, or free while that task returns with it |
| Mail.FreedOnItsWay | kernel/base/ipc/los_queue.c:485-602 | a run of three calls from a fresh box to a state in which the block is on its way to a woken task, and a second free spoils it |
| Mail.AllocOk | kernel/base/ipc/los_queue.c:511-523 | an allocation yields a block that was free |
| MailAnswers.AllocAnswers | kernel/base/ipc/los_queue.c:502-524 | a call yields a block exactly if one is free; otherwise it blocks exactly if it is willing to wait, and yields none if not; in an interrupt that is willing to wait it yields none |
| MailAnswers.BlockedAllocEnds | kernel/base/ipc/los_queue.c:526-541 | over every run an allocation that blocked yields none exactly if its wait ran out, and else the block that was freed when its task was the first waiter; one that waits for ever always yields a block |
| Mail.MailBox.MailAlloc | kernel/base/ipc/los_queue.c:485-524 | outcome and new state |
| Mail.MailBox.MailAllocResume | kernel/base/ipc/los_queue.c:526-541 | outcome and new state when the blocked task runs again |
| Mail.MailBox.MailFree | kernel/base/ipc/los_queue.c:556-602 | fails exactly for what is not an allocated block; the allocation for a waiter yields the block just freed; whether the state is in order afterwards |
| SchedModel.ScheduleChoosesOldestBest | kernel/cpu/arm/cortex-m0+/los_hw.c:67-89 | the chosen task is ready, none has a better priority, none of the same priority has been ready longer |
| SchedOps.CreateOk | kernel/base/core/los_task.c:583-617 | one task, one place: kept by creation |
| SchedOps.ResumeOk | kernel/base/core/los_task.c:626-673 | kept by resuming |
| SchedOps.SuspendOk | kernel/base/core/los_task.c:682-745 | kept by suspending |
| SchedOps.DelayOk | kernel/base/core/los_task.c:846-876 | kept by delaying, by a running task that is ready |
| SchedOps.PriModifyOk | kernel/base/core/los_task.c:93-107 | kept by changing a priority |
| SchedOps.PriSetOk | kernel/base/core/los_task.c:919-973 | kept by setting a priority |
| SchedOps.QueuedOk | kernel/base/ipc/los_sem.c:216-234 | kept when the running task has queued itself and the switch is still to come |
| SchedOps.BlockOk | kernel/base/ipc/los_sem.c:216-234 | kept by blocking on a semaphore, mutex, event or queue |
| SchedOps.WakeOk | kernel/base/ipc/los_queue.c:180-200 | kept by waking |
| SchedOps.LapseOk | kernel/base/core/los_task.c:201-229 | kept by what osTaskScan does with a task whose time is up, before it schedules |
| SchedOps.ExpireOk | kernel/base/core/los_task.c:191-229 | kept by a timeout |
| SchedEffects.CreateEffect | kernel/base/core/los_task.c:583-617 | creating succeeds exactly for a priority that exists; the task has it, is ready and nothing else, and no other task changes |
| SchedEffects.ResumeEffect | kernel/base/core/los_task.c:626-673 | resuming succeeds exactly on a task in use that is suspended; it is not then, is ready exactly if it neither waits nor delays, and keeps its other bits; a refusal changes nothing |
| SchedEffects.SuspendEffect | kernel/base/core/los_task.c:682-745 | suspending succeeds exactly on a task in use that is not suspended, not the idle task and not the running one under lock; it is suspended then and not ready; a refusal changes nothing |
| SchedEffects.DelayEffect | kernel/base/core/los_task.c:846-876 | delaying is refused in interrupts and under lock; for 0 ticks it yields, otherwise the running task is not ready and delays |
| SchedEffects.PriSetEffect | kernel/base/core/los_task.c:919-973 | setting a priority succeeds exactly on a task in use other than the idle one, for a priority that exists; the task has it then, with the same status |
| SchedEffects.YieldEffect | kernel/base/core/los_task.c:997-1023 | yielding succeeds exactly if another task of the same priority is ready; the running task is then the last that became ready |
| SchedEffects.ReadTimeoutEffect | kernel/base/ipc/los_sem.c:236-240 | a task that runs again clears its timeout flag and changes nothing else |
| SchedLaws.OneTaskOnePlace | kernel/base/core/los_task.c:93-236 | over every run: at most one list per task; READY iff in the ready list of the present priority; PEND or PEND_QUEUE iff in one wait list; on the wheel iff DELAY, or TIMEOUT while waiting |
| SchedLaws.AlwaysATaskToRun | kernel/base/core/los_priqueue.c:62-85 | over every run with an idle task the ready queue is not empty and the choice is the oldest of the best priority |
| SchedLaws.DoKeepsIdle | kernel/base/core/los_task.c:682-973 | no call makes the idle task unready or changes its priority |
| SchedLaws.YieldOkIff | kernel/base/core/los_task.c:1006-1018 | from every state in order, yielding keeps the places exactly when the running task is in use and not blocked, or at most one task is ready at its priority |
| SchedLaws.DelayOkIff | kernel/base/core/los_task.c:846-876 | from every state in order, delaying keeps the places exactly when it is refused, is a yield that keeps them, or the running task is in use and does not wait |
| SchedLaws.YieldWhileQueued | kernel/base/core/los_task.c:1006-1018 | a yield after the running task has queued itself and before the switch spoils the places exactly when two others are ready at its priority |
| SchedLaws.YieldBreaks | kernel/base/core/los_task.c:1006-1018 | such a state is reached from a fresh scheduler by creating three tasks of one priority |
| SchedChoice.ChangesAreScheduled | kernel/base/core/los_task.c:602-745 | after every step with the scheduler unlocked: if the running task has stopped being ready or some task has become ready, the running task is ready, none has a better priority, and none of the same has been ready longer |
| SchedChoice.BestAfterChange | kernel/base/core/los_task.c:602-973 | so it is at every point of every run |
| SchedChoice.RunnerIsReady | kernel/cpu/arm/cortex-m0+/los_hw.c:67-89 | over every run the running task is ready |
| SchedChoice.StepInOrderIff | kernel/base/core/los_task.c:93-107 | from a state in which the best task runs, or the scheduler is locked, every step leads to such a state exactly under its condition: a lent or returned priority leaves the running task in front, and the lock count does not wrap |
| SchedChoice.RunInOrderIff | kernel/base/core/los_task.c:93-1065 | over every run that begins so, it stays so up to a step exactly when every step up to it meets its condition |
| SchedChoice.GivenBackRunsOn | kernel/base/ipc/los_mux.c:305-338 | a run in which a task whose priority is set back goes on running although another one of that priority has been ready longer |
| Scheduler.Scheduler.constructor | kernel/base/core/los_task.c:258-274 | all control blocks unused, all lists empty |
| Scheduler.Scheduler.PriqueueEnqueue | kernel/base/core/los_priqueue.c:62-65 | the task is last in the ready list of its priority |
| Scheduler.Scheduler.ListDelete | kernel/base/core/los_priqueue.c:67-70 | the task leaves the list it is in |
| Scheduler.Scheduler.PriqueueTop | kernel/base/core/los_priqueue.c:72-85 | the first task of the first list that is not empty |
| Scheduler.Scheduler.PriqueueSize | kernel/base/core/los_priqueue.c:87-98 | the length of the list |
| Scheduler.Scheduler.PriqueueTotalSize | kernel/base/core/los_priqueue.c:100-111 | the number of ready tasks |
| Scheduler.Scheduler.LosSchedule | kernel/cpu/arm/cortex-m0+/los_hw.c:67-89 | the running task is the chosen one unless the scheduler is locked |
| Scheduler.Scheduler.TaskCreate | kernel/base/core/los_task.c:583-617 | code and new state |
| Scheduler.Scheduler.TaskResume | kernel/base/core/los_task.c:626-673 | code and new state; success exactly on a task in use that is suspended, which is then not suspended, and ready exactly if it neither waits nor delays |
| Scheduler.Scheduler.TaskSuspend | kernel/base/core/los_task.c:682-745 | code and new state; on success the task is suspended and not ready |
| Scheduler.Scheduler.TaskDelay | kernel/base/core/los_task.c:846-876 | code and new state of every call by a task that is not on the wheel already, and exactly when that state is in order |
| Scheduler.Scheduler.TaskPriModify | kernel/base/core/los_task.c:93-107 | new state |
| Scheduler.Scheduler.TaskPriSet | kernel/base/core/los_task.c:919-973 | code and new state |
| Scheduler.Scheduler.TaskYield | kernel/base/core/los_task.c:997-1023 | code and new state whatever the running task is doing, and exactly when that state is in order |
| Scheduler.Scheduler.BlockOn | kernel/base/ipc/los_sem.c:216-234 | the running task leaves its ready list, joins the wait list and, with a timeout, the wheel |
| Scheduler.Scheduler.WakeUp | kernel/base/ipc/los_queue.c:180-200 | a waiter leaves its list and the wheel and is ready unless suspended |
| Scheduler.Scheduler.ScanTask | kernel/base/core/los_task.c:191-229 | a task whose time is up leaves its list and is ready unless suspended; a waiter keeps its timeout flag |
| Scheduler.Scheduler.TaskLock | kernel/base/core/los_task.c:1032-1039 | new state, the 16-bit count included |
| Scheduler.Scheduler.TaskUnlock | kernel/base/core/los_task.c:1049-1065 | new state |
| Timeslice.RoundRobinIsFair | kernel/base/core/los_timeslice.c:69-85 | on the scheduler's lists, while only ticks happen: each task of the top ready list runs exactly the configured number of ticks per turn, in cyclic order, however often the 16-bit counter wraps; a slice of 0 lasts 65536 ticks |
| Timeslice.FairOnceScheduled | kernel/base/core/los_timeslice.c:69-85 | from every state in order with a task ready, once the scheduler has chosen, the tasks ready at the best priority take such turns |
| Timeslice.TickSimulates | kernel/base/core/los_timeslice.c:69-85 | a tick of the scheduler turns the top ready list as a tick of a bare ring does, and leaves the state in order with the new head running |
| Timeslice.TurnEnds | kernel/base/core/los_timeslice.c:69-85 | the last tick of a turn passes it on |
| Timeslice.DuringTurn | kernel/base/core/los_timeslice.c:69-85 | no earlier tick does |
| Timeslice.YieldRotates | kernel/base/core/los_task.c:1006-1022 | yielding turns the top ready list by one, runs its new head and changes no other list |
| Timeslice.TimeSlice.constructor | kernel/base/core/los_timeslice.c:56-60 | no slice is running |
| Timeslice.TimeSlice.TimesliceCheck | kernel/base/core/los_timeslice.c:69-85 | new state of the slice and of the scheduler it yields on |
| Timeslice.TimeSlice.TickHandler | kernel/base/core/los_tick.c:60-66 | new state of the slice and of the scheduler |
| QueueTasks.ReadOk | kernel/base/ipc/los_queue.c:301-357 | a read keeps the queue and the scheduler in agreement, whether it blocks, wakes a writer or is refused |
| QueueTasks.WriteOk | kernel/base/ipc/los_queue.c:409-470 | so does a write |
| QueueTasks.RunOnce | kernel/base/ipc/los_queue.c:326-357 | so does the second section when the blocked task runs again |
| QueueTasks.TimeUpOk | kernel/base/core/los_task.c:191-229 | so does a timeout, of a waiter of the queue or of any other task |
| QueueTasks.DoOk | kernel/base/ipc/los_queue.c:301-474 | so does every step, task calls and blocking on other objects included |
| QueueTasks.FreshKernel | kernel/base/ipc/los_queue.c:212-255 | a queue just created agrees with every scheduler in order whose two wait lists are empty |
| QueueTasks.PhasesArePlaces | kernel/base/ipc/los_queue.c:139-200 | over every run a reader or writer of the queue has PEND_QUEUE, is in the list of its object and on the wheel exactly when it waits with a timeout; a task that was woken or timed out is in the ready list of its priority, or suspended |
| QueueTasks.PromisedTaskCanRun | kernel/base/ipc/los_queue.c:301-474 | over every run, while a reader is blocked and a message is stored, or a writer and a slot is free, a task that was promised it is in the ready list of its priority, or suspended |
| MutexTasks.PendKeeps | kernel/base/ipc/los_mux.c:220-244 | a pend keeps the mutexes and the scheduler in agreement: the task leaves its ready list, the owner moves to that of the lent priority, the task joins the wait list and, if timed, the wheel |
| MutexTasks.PostKeeps | kernel/base/ipc/los_mux.c:299-334 | so does a post: the old owner moves back to the ready list of its saved priority, and the longest waiter is woken |
| MutexTasks.TimeUpAgrees | kernel/base/core/los_task.c:201-229 | so does the timeout of a waiter |
| MutexTasks.DoOk | kernel/base/ipc/los_mux.c:168-341 | so does every step, task calls and blocking on other objects included |
| MutexTasks.FreshKernel | kernel/base/ipc/los_mux.c:62-123 | mutexes of which none is held agree with every scheduler in order whose wait lists for them are empty, if the priorities are the same |
| MutexTasks.PhasesArePlaces | kernel/base/ipc/los_mux.c:168-341 | over every run a task that waits for a mutex has PEND, is in the list of that mutex and on the wheel exactly when it waits with a timeout; one that was given a mutex or timed out is in the ready list of its priority, or suspended; inherited priorities are those of the control blocks |
| MutexTasks.NotOvertaken | kernel/base/ipc/los_mux.c:226-229 | over every run whose calls meet the conditions of Inversion: while a task waits for a mutex and the task at the end of its chain of owners is ready, the scheduler chooses nobody less urgent than the waiter |
| TimedTasks.DoOk | kernel/base/core/los_task.c:117-236 | every call and every tick keeps the wheel and the scheduler in agreement: on the wheel are just the tasks with ticks left |
| TimedTasks.StaysUntil | kernel/base/core/los_task.c:117-236 | over every run a task with n ticks left that is not woken stays on the wheel, waiting for the same thing, while fewer than n ticks have come, and its count is n less those |
| TimedTasks.TimeIsUp | kernel/base/core/los_task.c:191-229 | and with the n-th tick it leaves the wheel and is ready, unless suspended; a waiter has its timeout flag |
| TimedTasks.DelayLastsExactly | kernel/base/core/los_task.c:846-876 | over every run LOS_TaskDelay(n) delays the task until n ticks have come, whatever the others do, and with the n-th tick it is ready, unless suspended |
| TimedWaits.TimedWaitLastsExactly | kernel/base/core/los_task.c:191-229 | over every run a pend with a timeout of n ticks that is not woken waits until n ticks have come, and with the n-th tick its task is ready, unless suspended, with its timeout flag |
| TimedWaits.WokenHasNoFlag | kernel/base/ipc/los_queue.c:180-200 | a task that is woken is off the wheel, ready unless suspended, and has no timeout flag |
| TimedWaits.UntimedWaitLasts | kernel/base/ipc/los_queue.c:164-168 | over every run a pend without a timeout waits until it is woken, however many ticks come |
| TimedWaits.TickIsScheduled | kernel/base/core/los_task.c:222-235 | if a tick has made some task ready and the scheduler is not locked, the best task runs |
| TimedWaits.RunInOrderIff | kernel/base/core/los_task.c:93-1065 | over every run of calls and ticks the best task runs at every point exactly when every call meets its condition; ticks always do |
| TaskClock.TaskClock.constructor | kernel/base/core/los_task.c:258-288 | all control blocks unused and the wheel empty |
| TaskClock.TaskClock.TaskScan | kernel/base/core/los_task.c:184-236 | exactly the tasks with one tick left lapse, in the loop, and LOS_Schedule runs once if one of them has become ready; all counts go down by one |
| TaskClock.TaskClock.TaskDelay | kernel/base/core/los_task.c:846-876 | code and new state of scheduler and countdown, and exactly when that state is in order |
| TaskClock.TaskClock.BlockOn | kernel/base/ipc/los_sem.c:216-234 | new state of scheduler and countdown: the task waits, and has its timeout on the wheel if it gave one |
| TaskClock.TaskClock.WakeUp | kernel/base/ipc/los_queue.c:180-200 | new state of scheduler and countdown: the waiter leaves both |
| Crc16.TableIs | example/api/los_api_xmodem.c:165-198 | every one of the 256 entries is the bitwise remainder of its index |
| Crc16.TableStep | example/api/los_api_xmodem.c:205-208 | one table round feeds one byte to the bitwise division, whatever the sign of the character |
| Crc16.Shift8Linear | example/api/los_api_xmodem.c:165-198 | the division is linear |
| Crc16.XmodemCrc16 | example/api/los_api_xmodem.c:200-211 | for every byte string the loop computes the bit-by-bit CRC with polynomial 0x1021 |
| Crc16.AppendedCrcIsZero | example/api/los_api_xmodem.c:103-105 | with the CRC appended high byte first the CRC of the whole is zero |
| Xmodem.NumberIs | example/api/los_api_xmodem.c:79-131 | packet k carries k modulo 256, counting from 1 |
| Xmodem.PacketIsSound | example/api/los_api_xmodem.c:77-115 | every packet passes a receiver's checks of mark, number, complement and CRC or checksum |
| Xmodem.PayloadsAreSource | example/api/los_api_xmodem.c:81-100 | the data of all packets is the source followed by padding that begins with 0x1A |
| Xmodem.ReceiverGetsPayloads | example/api/los_api_xmodem.c:117-145 | however often packets are repeated, a receiver that drops repetitions gets the data of all, once and in order |
| Xmodem.TransferDeliversSource | example/api/los_api_xmodem.c:117-157 | a transfer of all packets hands the receiver the source and its padding |
| Xmodem.Sender.AwaitRequest | example/api/los_api_xmodem.c:52-72 | at most ten responses are read for a request |
| Xmodem.Sender.FillPacket | example/api/los_api_xmodem.c:77-115 | the transmit buffer holds packet k |
| Xmodem.Sender.SendPacket | example/api/los_api_xmodem.c:117-145 | the packet goes out once per try, at most ten times, until it is acknowledged or cancelled |
| Xmodem.Sender.SendEnd | example/api/los_api_xmodem.c:149-156 | the end mark goes out at most ten times, until it is acknowledged |
| Xmodem.Sender.Transmit | example/api/los_api_xmodem.c:42-162 | terminates for every source and response stream; a positive result is 128 * (size / 128 + 1), with every packet acknowledged after at most ten tries; what went out is given for every result |

## Left out

- MemAllocAlign: asks for a power-of-two boundary of at least 4; a gap word that a wrapped request puts outside the modelled memory is dropped.
- MemRealloc: the memory has an end, so a cut below a header reads 0 and writes nothing beyond it; that the result is no heap is claimed when the rest finds a list, which WrappedSizesBreak shows for 8 and 12 bytes and, under its conditions, for 0 and 4.
- MemFree: takes every pointer inside the memory, and so does MemRealloc; the memory holds aligned words, so a pointer that is not a multiple of four reads a word of its own there, not the bytes of its neighbours.
- UnshiftedRecovers: for blocks of 2^30 bytes and more LOS_MemFree and LOS_MemRealloc misread the size word as a gap word; the lemma gives the exact bound.
- MemboxInit: asks for a pool inside the address space and excludes the four block sizes that round to 0, by which the source divides.
- UseOnce: asks for at most 2^30 - 39 bytes, so that the block handed out is one whose pointer is recognised (UnshiftedRecovers).
- HeaderCheckAgrees: is stated for nodes of the heap; what the default check makes of arbitrary forged pointers is not modelled, and neither is the variant LOS_DLNK_SIMPLE_CHECK.
- MutexSafety: the priority of an owner is claimed for tasks that held one mutex at a time and were not given a priority by LOS_TaskPriSet; the source does not propagate inheritance further.
- OneTaskOnePlace: yields are those of a running task that is ready; YieldOkIff says what happens otherwise.
- TaskDelay: asks for a running task that is not on the wheel already, which the source would put there twice; BlockOn asks for one that is ready and has read its timeout flag.
- MailSafety: runs free no block that is on its way to a task; FreedOkIff says what happens otherwise.
- PhasesArePlaces: is about one queue, or the mutexes; semaphores, events and mail boxes appear beside them as other objects that tasks block on; a run of their own would repeat these proofs without inheritance or hand-over of messages.
- NotOvertaken: no pend of its runs wraps the 16-bit count; a created task appears to the mutexes as one whose priority is set.
- FirstComeFirstServed: osTaskPriModify does not move a waiting task, so the order is claimed while no waiting task's priority is set.
- SwTmrAdjust: needs a timer in the list, because the source reads the first one without a test.
- Transmit: the source length is not negative and the sum of data bytes fits the source's int; the error variable is never set in the file and so has no branch here.
- Realloc of shifted pointers: the source returns the unshifted address, so only pointers without a gap keep their contents there; the contents claim is about those.
- Null pool, queue, semaphore, mutex and event pointers, handle range checks (that of LOS_TaskYield on the boot task included) and the tables of control blocks of queues and semaphores: one control block is modelled, the others do not notice.
- Memory statistics, task ids inside magic words, and memory contents beyond the pool.
- The lists of the wheel, the timers, the IPC objects and the scheduler are sequences; that circular links carry such lists is proved for the allocator, whose links live in the pool.
- Delivery of timer callbacks: a timer fires when it is popped; the handler pool and queue may be full.
- Task deletion and self-deletion, the recycle list, the list of free control blocks, thread join, stacks, the software timer task's own protection from suspension, and OS_TASK_STATUS_EVENT, which nothing sets.
- Context switches: LOS_Schedule switches at once, except in YieldOkIff and YieldWhileQueued.
- Runs of TimedTasks have the task calls and, for everything a task can wait for, blocking and waking; the yield of the time slice in the tick handler is a step of its own there.
- The 64-bit tick counter does not wrap; tick and millisecond conversions, CMSIS and file-system wrappers, board support, drivers and example tasks are thin or input and output.
