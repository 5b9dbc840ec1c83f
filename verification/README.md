# Verification of an RT-Thread kernel (UV-LED controller)

The controller runs on RT-Thread 3.1.5. This project models that kernel's allocators, its
scheduler and threads, its IPC objects and timers, and four small routines of the application
and the kernel library (number printing and reading, `rt_memmove`, aligned allocation, the
Modbus CRC), and proves what they keep.

The model has two layers wherever the program updates something in place. A class has the
program's fields (arrays, counters, links) and methods with the program's loops and branches;
each method is proved to turn its whole abstract state into a named function of the old one. The
lemmas then say what those functions mean, without naming them: which block, list place, byte or
character results, what every step keeps, what holds after any run, when exactly a call fails. A region in which the program disables interrupts (or holds `heap_sem`)
is one atomic step; where the program leaves such a region in the middle of a call, each part is a
step of its own and any other thread may run between two of them: the message queue around its
payload copies, byte by byte, `rt_thread_resume` and `rt_thread_suspend` between their test and their
regions, the slab allocator around its page calls, and a moving `rt_realloc`.

| files | part of the kernel |
|---|---|
| HeapBlocks, HeapImage, HeapRuns, SmallMem | small-memory heap, `mem.c` |
| MemHeapModel, MemHeapRuns, MemHeap | `memheap.c` |
| Slab, SlabModel, SlabZones | page allocator and zones, `slab.c` |
| Wakeups, MemPool, Mailbox | `mempool.c`, mailbox of `ipc.c` |
| WaitList, Chains, MqModel, MqProofs, MqRuns, MqQueue | suspended-thread lists and message queue of `ipc.c` |
| EventModel, EventObject, MutexModel, SemModel, Locks | event, mutex, semaphore of `ipc.c` |
| TimerModel, TimerRuns, TimerTicks, TimerList | `timer.c` |
| KernelModel, KernelSteps, Bits, Scheduler | `scheduler.c`, `thread.c`, `__rt_ffs` |
| ThreadTimers, Clock | threads and timers together: sleeping and delays, `thread.c`, `clock.c` |
| RtList | intrusive lists of `rtservice.h` |
| PrintModel, PrintFields, Printer, Format, FormatText, Masks, Kservice | `kservice.c`, `Myatoi` of `lcd.c` |
| CrcRegister, Crc | `crc16` of `RS485.c` |

Constants follow the configuration: alignment 4, 32-bit `long` and `rt_size_t`, headers of 12
(`mem.c`) and 24 (`memheap.c`) bytes, `RT_TICK_MAX` = 2^32 - 1. Unsigned arithmetic that can wrap
is written out. The number of timer levels, the number of priorities (up to 256, so both forms of
the ready bitmap) and the tick rate (up to 1000) are parameters.

Where the code falls short of what its comments promise, the code is followed, and lemmas give a
failing input or say exactly when the promise holds:

- `rt_malloc` overlooks a last block of just the requested size (`HeapRuns.MallocFailsIff`), never
  returns on a heap of fewer than 12 user bytes (`HeapRuns.TinyHeapSearch`), and serves a request
  within 3 bytes of 2^32 with a minimal block (`HeapRuns.RequestCoversIff`).
- `rt_memheap_alloc` refuses the only free block when it fits exactly
  (`MemHeapRuns.AllocFailsIff`). Growing into a free successor by a size within 16 bytes of 2^32 makes
  the growth test of `rt_memheap_realloc` wrap and puts a header inside the block itself
  (`MemHeapRuns.GrowOverruns`, `MemHeapRuns.ReallocGoodIff`), and a size above 2^32 - 4 shrinks the
  block (`MemHeapRuns.HugeSizeShrinks`).
- `rt_thread_resume` tests the thread's state with interrupts on, and enables them again between
  unlinking the thread and making it ready. A second resume in that window leaves the thread in its
  ready queue twice (`KernelModel.DoubleResume`); if it sleeps again before the first goes on, it is
  ready with its timer running, and the assertion of `rt_thread_timeout` can fail
  (`KernelModel.SleepInWindow`). `KernelModel.StepKeepsIff` and `RunKeepsIff` say exactly when the
  lists stay right, `WindowSafe` and `ResumeWhole` what is enough.
- A periodic timer of interval 0 keeps the firing loop going for ever (`TimerRuns.ZeroPeriodicSpins`,
  `TimerRuns.NeverEnds`); `TimerRuns.EndsIff` and `TimerRuns.TurnShrinksIff` say exactly when the loop
  ends and when a turn leaves less to do.
- Modular comparison of deadlines is true order only up to RT_TICK_MAX/2 (`TimerList.LaterIff`).
- A periodic timer whose callback turns it into a one-shot stays flagged active after it has left
  the list (`TimerRuns.OneshotLeavesFlag`, `TimerRuns.FinishFlagsIff`).
- A waiter with neither the AND nor the OR flag shields satisfied waiters behind it from
  `rt_event_send` (`EventModel.InvalidWaiterShields`, `EventModel.ServedIff`, `EventModel.RunKeepsIff`).
- A FIFO mutex can hand over to an owner less urgent than a remaining waiter
  (`MutexModel.FifoHandOverInverts`, `MutexModel.HandOverIff`).
- `rt_malloc_align` masks with the alignment less one, so its pointers are aligned if and only if the
  alignment, rounded up to words, is a power of two (`Kservice.AlignedIff`); with 12 they are not
  (`Kservice.TwelveMisaligned`).
- Slab chunks whose size is a power of two are at multiples of that size up to a page
  (`SlabModel.SmallPowersAligned`), but larger ones only if their zone is (`SlabModel.ChunkAligned`,
  `SlabModel.LargePowerMisaligned`).
- `rt_mp_init` of a pool too small for one block ends its free list in front of the pool
  (`MemPool.LastLinkInside`).
- An explicit precision of 0 prints no digits at all (`PrintModel.FieldLengthZero`).

## Model

| member | source | states |
|---|---|---|
| HeapRuns.RunKeeps | rt-thread/src/mem.c:156-612 | after any legal run of malloc, free and realloc the blocks tile the heap, no two free blocks touch, live ranges are pairwise disjoint, and a run that has freed everything has restored the initial single block |
| HeapRuns.MallocFailsIff | rt-thread/src/mem.c:305-311 | malloc returns null if and only if the size is 0, or every stretch of the heap outside the live ranges is too short for a header and the rounded size, or is the end of the heap and exactly that long |
| HeapRuns.MallocRefines | rt-thread/src/mem.c:272-410 | malloc takes the lowest free block that is large enough and hands out exactly the request in words, at least 12 bytes, unless the rest could not hold a block, then less than 24 bytes more: one aligned range that overlaps no live one, with the used total grown by its span; or it changes nothing |
| HeapRuns.FreeRefines | rt-thread/src/mem.c:549-612 | free removes exactly the given range from the live set and its span from the used total, and leaves the heap well formed |
| HeapRuns.ReallocRefines | rt-thread/src/mem.c:420-515 | realloc trims the range in place, moves it to one of just the wanted size (less than 24 bytes more) disjoint from all others, drops it, or leaves the live set alone, by exact conditions on sizes and room |
| HeapRuns.FreeUndoesMalloc | rt-thread/src/mem.c:272-612 | freeing what malloc just returned restores the very same row of blocks, splits and all |
| HeapRuns.HoleIsOneBlock | rt-thread/src/mem.c:156-194 | because plug_holes merges, any stretch no live range touches lies inside a single free block |
| HeapRuns.NothingLive | rt-thread/src/mem.c:156-194 | a heap with no live range is the one free block it started as |
| HeapRuns.FitsIff | rt-thread/src/mem.c:305-311 | the unsigned loop bound excludes a large enough free block only if it is last and exactly the requested size |
| HeapRuns.RequestCoversIff | rt-thread/src/mem.c:289-300 | the aligned request covers the caller's size unless rounding wraps around 2^32 |
| HeapRuns.TinyHeapSearch | rt-thread/src/mem.c:305-307 | with fewer than 12 user bytes the loop bound wraps: at every step the guard holds and nothing fits, so the search never ends |
| HeapBlocks.PlugKeeps | rt-thread/src/mem.c:156-194 | plug_holes repairs a row whose only defect is around the freed block, keeping every live range and total, and the lowest free block is that block unless a lower one exists |
| HeapBlocks.TakeKeeps | rt-thread/src/mem.c:316-372 | splitting off just n bytes, or taking a block whole when less than 24 more bytes would be left, adds exactly one live range and keeps tiling and merging |
| HeapBlocks.ReleaseKeeps | rt-thread/src/mem.c:585-612 | freeing a block keeps the row well formed, removes just that range, and gives the new lowest free offset |
| HeapBlocks.ShrinkKeeps | rt-thread/src/mem.c:470-503 | cutting a block keeps the row well formed and replaces its range by the shorter one, even when the rest merges with a free successor |
| HeapBlocks.LiveApart | rt-thread/src/mem.c:272-410 | two distinct live ranges of a tiled row do not overlap |
| SmallMem.Heap.SystemHeapInit | rt-thread/src/mem.c:204-257 | a heap exists if and only if the aligned region holds two headers, and then is one free block between them |
| SmallMem.Heap.constructor | rt-thread/src/mem.c:227-256 | the two headers written spell the single free block, with lfree, used_mem and the end header right |
| SmallMem.Heap.Malloc | rt-thread/src/mem.c:272-410 | in memory: the first block that fits is handed out (or null returned), the pointer is aligned and names a block of just the request, less than 24 bytes more, all headers spell the new row, lfree is the lowest free block, used_mem the used total, and no live user's byte has changed |
| SmallMem.Heap.HandOut | rt-thread/src/mem.c:311-392 | the same for the part of the search loop that has found its block |
| SmallMem.Heap.NextFree | rt-thread/src/mem.c:380-387 | the lfree loop stops, at the lowest free block or the end |
| SmallMem.Heap.Free | rt-thread/src/mem.c:549-612 | null and foreign pointers change nothing; a live one is merged back in memory with every other user's bytes intact |
| SmallMem.Heap.FreeBlock | rt-thread/src/mem.c:585-612 | clearing the used flag, lfree, used_mem and plug_holes together give the released row |
| SmallMem.Heap.PlugHoles | rt-thread/src/mem.c:156-194 | the header writes of plug_holes spell the merged row, and lfree is its lowest free block |
| SmallMem.Heap.PlugForward | rt-thread/src/mem.c:166-181 | forward merge: headers, back link of the successor and lfree |
| SmallMem.Heap.PlugBackward | rt-thread/src/mem.c:183-193 | backward merge, likewise |
| SmallMem.Heap.Realloc | rt-thread/src/mem.c:420-515 | on success the first min(old, new) bytes stand at the returned pointer and nobody else's bytes changed; a failed realloc changes no live byte and no block; null, zero, foreign and absurd arguments as in the code; a moving realloc is one step here and in its parts in MoveWithGaps |
| SmallMem.Heap.ReallocLive | rt-thread/src/mem.c:458-515 | the choice between same size, in-place cut and move, with the bytes kept |
| SmallMem.Heap.ShrinkBlock | rt-thread/src/mem.c:470-503 | the in-place cut in memory |
| SmallMem.Heap.MoveBlock | rt-thread/src/mem.c:506-514 | allocate, copy, free with nothing in between: the copied bytes survive the freeing of their source |
| SmallMem.Heap.MoveWithGaps | rt-thread/src/mem.c:504-514 | with any calls of other threads between allocation and copy and between copy and free, none of which frees or reallocates the old, the new or another of the caller's blocks: the bytes arrive, the caller's other blocks keep theirs, and the row is the one those calls and the final free make |
| SmallMem.Heap.OtherCalls | rt-thread/src/mem.c:272-612 | any run of calls leaves the bytes of every block it does not free or reallocate |
| HeapRuns.ApartKeeps | rt-thread/src/mem.c:272-612 | a call leaves every block live that it does not free or reallocate |
| MemHeapRuns.RunKeeps | rt-thread/src/memheap.c:136-591 | after any run of calls none of which grows into a free successor by a size within 16 bytes of 2^32, the address list and the free list describe the same blocks, free neighbours are merged, every block holds at least 12 bytes, live ranges are disjoint, and a pool with nothing live is back to its initial state |
| MemHeapRuns.AllocFailsIff | rt-thread/src/memheap.c:146-180 | alloc returns null if and only if no free block is large enough or the only free block has exactly the requested size |
| MemHeapRuns.AllocKeeps | rt-thread/src/memheap.c:136-279 | a successful alloc takes the first listed block that is large enough and adds one aligned live range of just the rounded size, at least 12 bytes, less than 36 more, apart from all others; a failed one changes nothing |
| MemHeapRuns.SplitServedNext | rt-thread/src/memheap.c:185-234 | what a block leaves when it is split is tried first by the next alloc: requests that fit are served side by side |
| MemHeapRuns.FreedServedNext | rt-thread/src/memheap.c:556-587 | so is a freed block that was not merged to the left |
| MemHeapRuns.ReallocKeeps | rt-thread/src/memheap.c:281-489 | unless the growth test wraps, realloc grows or cuts in place, moves, frees, or leaves everything; on success exactly one live range is replaced by one of the rounded size, at most 36 bytes more |
| MemHeapRuns.ReallocPlace | rt-thread/src/memheap.c:281-489 | it stays in place if and only if it is large enough or its successor is free and leaves more than 12 bytes; else it goes where alloc puts it |
| MemHeapRuns.ReallocGoodIff | rt-thread/src/memheap.c:281-489 | realloc of a live block keeps the pool in order if and only if it is not the case that the successor is free and the size lies above 2^32 - 16 and at most at 2^32 - 4 |
| MemHeapRuns.GrowWraps | rt-thread/src/memheap.c:347-399 | in those cases the test passes and the new free header falls into the block's own header |
| MemHeapRuns.GrowOverruns | rt-thread/src/memheap.c:347-399 | a concrete pool that a realloc to 2^32 - 12 bytes puts out of order |
| MemHeapRuns.HugeSizeShrinks | rt-thread/src/memheap.c:281-489 | a size above 2^32 - 4 succeeds and cuts the block to 12 bytes, or keeps it |
| MemHeapModel.TakenPart | rt-thread/src/memheap.c:185-234 | splitting keeps both lists in agreement and the free total falls by the request and one header |
| MemHeapModel.TakenWhole | rt-thread/src/memheap.c:235-253 | taking a whole block removes it from the free list and its whole size from the free total |
| MemHeapModel.FreedKeeps | rt-thread/src/memheap.c:531-587 | free with left and right merge keeps the lists in agreement, and the free total grows by the block plus one header per merge |
| MemHeapModel.MovedKeeps | rt-thread/src/memheap.c:347-399 | growing into, or cutting towards, a free successor keeps the lists in agreement with the exact change of the free total |
| MemHeap.MemHeap.AllocMem | rt-thread/src/memheap.c:136-279 | the doubly linked circular lists, used bits and available_size become those of the pool after alloc |
| MemHeap.MemHeap.Search | rt-thread/src/memheap.c:167-178 | the search ends at the first listed block that is large enough, or reports none |
| MemHeap.MemHeap.FreeMem | rt-thread/src/memheap.c:491-591 | the links, bits and available_size become those of the pool after free |
| MemHeap.MemHeap.MergeLeft | rt-thread/src/memheap.c:537-553 | left merge of the address ring |
| MemHeap.MemHeap.MergeRight | rt-thread/src/memheap.c:556-574 | right merge of the address ring and of the free ring |
| MemHeap.MemHeap.ReallocMem | rt-thread/src/memheap.c:281-489 | the links, bits and available_size become those of the pool after realloc, for every size and null and zero arguments included; the heap stays valid if and only if the growth test does not wrap |
| MemHeap.MemHeap.GrowBlock | rt-thread/src/memheap.c:347-399 | in-place growth rebuilds the free header at its new place in both rings, and available_size is exact |
| MemHeap.MemHeap.ShrinkBlock | rt-thread/src/memheap.c:429-488 | in-place cut with the merge of its right neighbour, and available_size is exact |
| MemHeap.MemHeap.GrowOrMove | rt-thread/src/memheap.c:330-413 | the choice between growth in place, by the 32-bit test, and a new block |
| MemHeap.MemHeap.MoveMem | rt-thread/src/memheap.c:405-413 | alloc, then free of the old block |
| MemHeap.MemHeap.constructor | rt-thread/src/memheap.c:50-121 | the initial headers link one free block and the tailer in both rings |
| MemHeap.BlockLinks | rt-thread/src/memheap.c:50-591 | in the address ring a block's next link is where it ends and its prev link the block before it |
| MqRuns.RunKeeps | rt-thread/src/ipc.c:2014-2499 | under every interleaving of locked regions and unlocked bytes: each cell is free, queued or held by exactly one thread, the queue is the deque its publish and take steps make, every delivery has as many bytes as buffer and cell both hold and agrees with the published message as far as that goes, and no waiter is forgotten |
| MqRuns.StepKeeps | rt-thread/src/ipc.c:2014-2499 | every single step keeps that invariant |
| MqRuns.InitOk | rt-thread/src/ipc.c:1824-1874 | a fresh queue satisfies it, whatever the pool memory held |
| MqRuns.QueueBounded | rt-thread/src/ipc.c:2144-2153 | the queue and the free stack never exceed the number of cells |
| MqRuns.PublishHasRoom | rt-thread/src/ipc.c:2144-2153 | when a thread publishes, the queue is below capacity, so the entry-overflow exit cannot be taken |
| MqRuns.FirstInFirstOut | rt-thread/src/ipc.c:2129-2398 | without urgent sends and resets, what was taken followed by what is queued is what was published, in order |
| MqRuns.NothingLost | rt-thread/src/ipc.c:2129-2398 | with urgent sends and without resets, no message is lost, duplicated or made up |
| MqRuns.TakenInOrder | rt-thread/src/ipc.c:2129-2398 | over any run of steps without urgent publishes and resets, receivers take the messages in the order of publication, each once |
| MqRuns.QueueStep | rt-thread/src/ipc.c:2129-2398 | a publish puts the message last, or first if urgent, a take removes the first, and no other step but a reset touches the queue |
| MqRuns.UrgentFirst | rt-thread/src/ipc.c:2200-2278 | so the message at the head is the next one taken |
| MqRuns.SendOutcome | rt-thread/src/ipc.c:2014-2122 | a send reserves the first free cell, waits at its place in the list, or is refused, by size, free cells and wait argument, and starts with just the message given |
| MqRuns.RecvOutcome | rt-thread/src/ipc.c:2292-2407 | a receive takes the first message, waits, or returns |
| MqRuns.AgainOutcome | rt-thread/src/ipc.c:2050-2407 | a woken sender or receiver looks again in the same way |
| MqRuns.FirstWoken | rt-thread/src/ipc.c:2155-2438 | publishing wakes the first waiting receiver, returning a cell the first waiting sender |
| MqRuns.MessageStays | rt-thread/src/ipc.c:2014-2171 | a send keeps its message, cell and urgency whatever others do, until it publishes |
| MqRuns.ReadingStays | rt-thread/src/ipc.c:2398-2438 | a receive keeps its message, cell and length until it returns |
| MqRuns.ReceivesFirst | rt-thread/src/ipc.c:2292-2438 | a receive that takes message m into a buffer of len bytes returns, whatever runs in between, with the first min(len, |m|) bytes of m |
| MqProofs.CellsKept | rt-thread/src/ipc.c:2014-2499 | every step keeps the partition of the cells |
| MqProofs.PayloadKept | rt-thread/src/ipc.c:2127-2410 | every step keeps each queued, half-written and half-read payload equal to its message, and each delivery as long as buffer and cell allow |
| MqProofs.CopyInPayload | rt-thread/src/ipc.c:2127 | an unlocked byte written into a reserved cell disturbs no other thread's message |
| MqProofs.WaitsKept | rt-thread/src/ipc.c:2014-2499 | every step keeps: while a receiver (sender) waits, messages (free cells) are at most as many as woken receivers (senders) not yet re-run |
| MqQueue.MessageQueue.Reserve | rt-thread/src/ipc.c:2041-2122 | the first locked region on linked cells is the reserve step; null if and only if the message is too long or no cell is free |
| MqQueue.MessageQueue.ReserveAgain | rt-thread/src/ipc.c:2105-2122 | the same after having been woken |
| MqQueue.MessageQueue.CopyIn | rt-thread/src/ipc.c:2127 | one byte of the payload copy is the copy step |
| MqQueue.MessageQueue.ClearNext | rt-thread/src/ipc.c:2125 | clearing the link of a reserved cell outside the lock disturbs neither list |
| MqQueue.MessageQueue.Link | rt-thread/src/ipc.c:2131-2248 | the tail (or head) writes chain the cell into the queue and leave the free stack alone |
| MqQueue.MessageQueue.Publish | rt-thread/src/ipc.c:2129-2171 | the second locked region is the publish step; the overflow exit is never taken; a receiver is woken |
| MqQueue.MessageQueue.Take | rt-thread/src/ipc.c:2314-2407 | the first locked region of a receive is the take step; null if and only if the queue is empty |
| MqQueue.MessageQueue.TakeAgain | rt-thread/src/ipc.c:2378-2407 | the same after having been woken |
| MqQueue.MessageQueue.CopyOut | rt-thread/src/ipc.c:2410 | one byte of the copy out is the copy step |
| MqQueue.MessageQueue.Return | rt-thread/src/ipc.c:2412-2438 | the last locked region pushes the cell on the free stack and wakes a sender |
| MqQueue.MessageQueue.Timeout | rt-thread/src/thread.c:796-818 | a timed-out waiter leaves its list and nothing else changes |
| MqQueue.MessageQueue.Reset | rt-thread/src/ipc.c:2460-2496 | all waiters leave, and every queued cell (but no reserved one) goes back to the free stack |
| MqQueue.MessageQueue.FreeQueue | rt-thread/src/ipc.c:2470-2485 | the release loop turns the queue's chain into the front of the free chain, reversed |
| MqQueue.MessageQueue.constructor | rt-thread/src/ipc.c:1824-1874 | the cell count and size of a pool, with their 16-bit truncation, and the initial chain |
| WaitList.Suspend | rt-thread/src/ipc.c:83-129 | the list loop puts a thread last (FIFO) or before the first less urgent one (PRIO) |
| WaitList.InsertKeepsSorted | rt-thread/src/ipc.c:96-125 | a priority list stays sorted and the newcomer stands behind all its equals |
| WaitList.InsertMembers | rt-thread/src/ipc.c:83-129 | suspending adds exactly one member and no duplicate |
| WaitList.InsertJoins | rt-thread/src/ipc.c:83-129 | a thread joins a FIFO list last and a PRIO list behind all no less urgent ones, before the first less urgent one |
| WaitList.WithoutLoses | rt-thread/include/rtservice.h:86-92 | leaving a list does not reorder the others |
| EventModel.RunKeeps | rt-thread/src/ipc.c:1054-1277 | over any run in which every receive that waits names all or any, no state has a suspended thread whose condition holds |
| EventModel.RunKeepsIff | rt-thread/src/ipc.c:1054-1277 | over any run, whatever flags the receives name, no state on the way has a suspended thread whose condition holds if and only if no send has a satisfied waiter behind one with neither flag |
| EventModel.StepKeepsIff | rt-thread/src/ipc.c:1054-1277 | the same for one step; only such sends can break it |
| EventModel.ServeKeeps | rt-thread/src/ipc.c:1079-1133 | one pass of send over valid waiters leaves none whose condition holds, although it clears bits on the way |
| EventModel.ServeInOrder | rt-thread/src/ipc.c:1079-1133 | serving a list is serving its front, then the rest on what the front left |
| EventModel.ServeShrinks | rt-thread/src/ipc.c:1122-1124 | a pass only takes bits away |
| EventModel.ServeLeaves | rt-thread/src/ipc.c:1083-1132 | a pass changes nothing for a thread it does not wake |
| EventModel.NotYetBelow | rt-thread/src/ipc.c:1089-1107 | a condition that fails on a set fails on every subset |
| EventModel.RecvIs | rt-thread/src/ipc.c:1190-1222 | an AND receive succeeds iff no wanted bit is missing, an OR receive iff some wanted bit is there; it gets exactly the wanted bits that are there, and clearing leaves exactly the others |
| EventModel.ReceivedIs | rt-thread/src/ipc.c:1158-1250 | a receive returns with those bits, joins the list at its place, or changes nothing |
| EventModel.SentIs | rt-thread/src/ipc.c:1054-1143 | a send of no bits changes nothing; any other adds its bits and serves the list |
| EventModel.ServedIff | rt-thread/src/ipc.c:1108-1114 | send leaves nobody satisfied if and only if, of those behind the first waiter with neither flag, none has a condition that holds on what the waiters in front of that one leave of the updated set |
| EventModel.InvalidWaiterShields | rt-thread/src/ipc.c:1108-1114 | from a fresh event, a receive with neither flag, a valid receive and a send leave a satisfied thread suspended |
| EventObject.EventObj.Send | rt-thread/src/ipc.c:1054-1143 | the in-place loop gives each waiter what a non-blocking receive would give it in queue order; the status is EINVAL if and only if some waiter has neither flag |
| EventObject.ServeHead | rt-thread/src/ipc.c:1083-1132 | serving gives the first waiter what a receive would give it and goes on with what is left, or leaves it in its place, or stops at a waiter with neither flag |
| EventObject.EventObj.Check | rt-thread/src/ipc.c:1088-1124 | one waiter's test, and what a satisfied one takes, agree with rt_event_recv |
| EventObject.EventObj.Recv | rt-thread/src/ipc.c:1158-1277 | receive returns, times out or blocks by the condition on the current set |
| MutexModel.RunKeeps | rt-thread/src/ipc.c:658-912 | for a PRIO mutex held alone, after any run no owner is less urgent than a waiter, the list is sorted by priority, and a free mutex has left every priority as it was |
| MutexModel.OwnedKept | rt-thread/src/ipc.c:658-912 | owner null, hold 0 and value 1 go together, waiters exist only with an owner, and the owner is not among them |
| MutexModel.TakeOutcome | rt-thread/src/ipc.c:680-795 | a take of a free mutex or of one's own below 255 levels succeeds; of another's it joins the list at its place and raises the owner to the better of the two priorities, and nobody else, or is refused by the wait argument; at 255 levels it is refused |
| MutexModel.ReleaseOutcome | rt-thread/src/ipc.c:805-912 | only the owner may release; its last release hands the mutex to the first waiter or leaves it free, an earlier one takes one level off |
| MutexModel.OwnerStays | rt-thread/src/ipc.c:658-912 | a thread handed the mutex while asleep still owns it when its take returns |
| MutexModel.InheritsKept | rt-thread/src/ipc.c:740-747 | only the owner's priority is ever raised, and its original one is remembered, under both list orders |
| MutexModel.ReleaseRestores | rt-thread/src/ipc.c:843-854 | the last release restores the priority the owner had when it acquired the mutex |
| MutexModel.HandOverIff | rt-thread/src/ipc.c:848-885 | a hand-over leaves no priority inversion if and only if the first waiter is a most urgent one |
| MutexModel.FifoHandOverInverts | rt-thread/src/ipc.c:848-885 | a reachable FIFO state in which the hand-over inverts priorities |
| Locks.Mutex.Take | rt-thread/src/ipc.c:658-795 | the in-place take is that state transition |
| Locks.Mutex.Release | rt-thread/src/ipc.c:805-912 | the in-place release is that state transition |
| Locks.Mutex.constructor | rt-thread/src/ipc.c:538-558 | a fresh mutex is free |
| SemModel.RunKeeps | rt-thread/src/ipc.c:326-481 | a positive value means no waiters, the value fits 16 bits, and initial value plus releases equals value plus takes over any run |
| SemModel.OverflowIff | rt-thread/src/ipc.c:454-471 | a release is refused if and only if 65535 units are left over |
| SemModel.TakenIs | rt-thread/src/ipc.c:326-411 | a take gets a unit if there is one, else joins the list at its place or is refused by the wait argument |
| SemModel.ReleasedIs | rt-thread/src/ipc.c:433-481 | a release gives its unit to the first waiter, or adds it, or overflows at 65535 |
| SemModel.ServedInOrder | rt-thread/src/ipc.c:326-481 | over any run of a FIFO semaphore without timeouts, units go to the waiters in the order they came |
| SemModel.TimeoutForgotten | rt-thread/src/ipc.c:355-405 | a waiter that times out leaves the semaphore as if it had never come |
| Locks.Semaphore.Take | rt-thread/src/ipc.c:326-411 | the in-place take is that state transition |
| Locks.Semaphore.Release | rt-thread/src/ipc.c:433-481 | the in-place release is that state transition |
| Wakeups.RunKeeps | rt-thread/src/ipc.c:1476-1759 | no wake-up is lost over any run: while a thread waits, units available are at most the threads woken and not yet re-run |
| Wakeups.NobodyForgotten | rt-thread/src/mempool.c:299-444 | once every woken thread has looked again, nobody waits for a unit that is there |
| Wakeups.TakeKeeps | rt-thread/src/mempool.c:299-387 | one look for a unit keeps that |
| Wakeups.GiveKeeps | rt-thread/src/mempool.c:394-444 | giving a unit and waking the first waiter keeps that |
| Wakeups.TakeIs | rt-thread/src/mempool.c:299-387 | a look gets a unit if there is one, else is refused or waits: first in a memory pool's list, at its place in an IPC list |
| Wakeups.GiveIs | rt-thread/src/mempool.c:394-444 | a unit given is there, and the first waiter is on its way to it |
| Mailbox.Mailbox.Send | rt-thread/src/ipc.c:1476-1604 | one look appends the word and wakes a receiver, refuses, or waits; the ring buffer holds exactly the unread words in order and entry cannot overflow |
| Mailbox.Mailbox.Recv | rt-thread/src/ipc.c:1631-1759 | one look takes the oldest word and wakes a sender, refuses, or waits |
| Mailbox.Mailbox.Store | rt-thread/src/ipc.c:1569-1585 | storing at the in offset with wrap-around appends |
| Mailbox.Mailbox.Fetch | rt-thread/src/ipc.c:1724-1736 | fetching at the out offset with wrap-around removes the oldest |
| Mailbox.Mailbox.Reset | rt-thread/src/ipc.c:1770-1802 | reset empties the ring and releases all waiters |
| Mailbox.Mailbox.constructor | rt-thread/src/ipc.c:1332-1360 | a fresh mailbox of any size, kept in 16 bits, is empty |
| MemPool.Pool.Alloc | rt-thread/src/mempool.c:299-387 | one look takes the first free block, marks it, refuses, or waits in front of the list; every block is on the free list once or marked as taken |
| MemPool.Pool.Free | rt-thread/src/mempool.c:394-444 | the block goes back on top and the first waiter is woken |
| MemPool.Pool.constructor | rt-thread/src/mempool.c:77-124 | the initial free list holds every block once in address order |
| MemPool.LastLinkInside | rt-thread/src/mempool.c:110-119 | the last link the initialization writes lies inside the pool if and only if the pool holds a block |
| TimerList.Timers.StartTimer | rt-thread/src/timer.c:311-424 | for any level count and counter value, the skip-list start is stable sorted insertion by true deadline; each upper row stays a subsequence of the one below, with the height the counter gives |
| TimerList.Timers.FindPlaces | rt-thread/src/timer.c:353-381 | on every level the descent stops exactly behind the last timer not later than the new one |
| TimerList.Timers.Walk | rt-thread/src/timer.c:356-378 | the inner loop reaches that place from any start at or before it, by modular comparison alone |
| TimerList.Timers.Link | rt-thread/src/timer.c:387-402 | the linking loop enters the bottom row and as many higher ones as the counter has trailing zero digits |
| TimerList.Timers.Erase | rt-thread/src/timer.c:136-144 | removal takes the timer out of every row and keeps the layering |
| TimerList.Timers.StopTimer | rt-thread/src/timer.c:433-457 | stop removes an active timer and reports an inactive one |
| TimerList.Timers.DetachTimer | rt-thread/src/timer.c:216-238 | detach removes a timer, active or not |
| TimerList.Timers.Control | rt-thread/src/timer.c:468-514 | control changes interval or kind of a timer without touching the list |
| TimerList.Timers.CheckTimers | rt-thread/src/timer.c:522-589 | the firing loop calls exactly the timers the abstract check calls, with any callbacks for which that ends |
| TimerList.Timers.FireHead | rt-thread/src/timer.c:549-671 | one turn with whatever happens during its callback, in a hard or a soft check: a stopped or restarted timer is not started again |
| TimerList.Timers.PutBack | rt-thread/src/timer.c:569-580 | the test on the temporary list tells whether the callback took its own timer |
| TimerList.Timers.TickIncrease | rt-thread/src/clock.c:67-89 | a tick advances modular time by one and fires what falls due, between whole-system steps |
| TimerList.Timers.constructor | rt-thread/src/timer.c:721-729 | all rows start empty |
| TimerList.LaterIff | rt-thread/src/timer.c:374 | for times less than 2^32 apart, modular comparison is true order if and only if the first is less than RT_TICK_MAX/2 ahead and at most RT_TICK_MAX/2 + 2 behind |
| TimerList.SameTick | rt-thread/src/timer.c:370-373 | and it takes two times for equal only if they are |
| TimerList.HeadDue | rt-thread/src/timer.c:547 | the modular expiry test is true-time expiry |
| TimerList.InsertKeep | rt-thread/src/timer.c:354-397 | sorted insertion commutes with leaving timers out of a row |
| TimerRuns.CheckFires | rt-thread/src/timer.c:522-589 | as long as callbacks start nothing that is due at once, a check calls only timers that were running and due, each at most once, in deadline order, first started first |
| TimerRuns.CheckInOrder | rt-thread/src/timer.c:522-678 | a hard or soft check that ends leaves nothing due at the time it ends, has called no callback early and all in deadline order, whatever the callbacks start or stop and however many ticks they take |
| TimerRuns.CheckMissesNone | rt-thread/src/timer.c:522-678 | a timer due when the check begins is called with that deadline unless somebody stops, restarts or changes it meanwhile |
| TimerRuns.FinishFlagsIff | rt-thread/src/timer.c:569-580 | after a callback, flagged active iff in the list, if and only if the callback did not leave its own timer active and one-shot |
| TimerRuns.CheckFlags | rt-thread/src/timer.c:522-678 | if no timer is made one-shot meanwhile, every check keeps flag and membership in agreement, self-stop and self-restart included |
| TimerRuns.OneshotLeavesFlag | rt-thread/src/timer.c:569-580 | the concrete failure: an active flag on a timer in no list |
| TimerRuns.FireRestarts | rt-thread/src/timer.c:574-580 | a periodic timer left alone during its callback runs again, due one interval after the callback |
| TimerRuns.FireEnds | rt-thread/src/timer.c:549-581 | a one-shot timer left alone during its callback is out of the list and inactive |
| TimerRuns.EndsIff | rt-thread/src/timer.c:522-589 | with callbacks that make no timer calls, the firing loop ends if and only if no due timer is periodic with interval 0 |
| TimerRuns.NeverEnds | rt-thread/src/timer.c:522-589 | with such a timer the loop guard holds after any number of turns |
| TimerRuns.ZeroPeriodicSpins | rt-thread/src/timer.c:522-589 | the concrete failure: a turn that restores the very same state |
| TimerRuns.SilentTurn | rt-thread/src/timer.c:549-581 | such a turn takes its timer, and only that, out of those due, unless it is periodic with interval 0 |
| TimerRuns.TurnShrinksIff | rt-thread/src/timer.c:549-581 | a turn with any calls during its callback leaves nothing due but what was due behind its head, if and only if every timer it starts or restarts with interval 0 was due behind the head already |
| TimerRuns.TurnDueIff | rt-thread/src/timer.c:549-581 | what is due after such a turn, timer by timer |
| TimerTicks.FiresOnTime | rt-thread/src/timer.c:311-589 | over any run a timer left alone fires at exactly its deadline, or at the next tick if it is due at once, whatever all other threads and callbacks do, with intervals of 0 included |
| TimerTicks.StepKeeps | rt-thread/src/timer.c:311-589 | every tick whose check ends, and every timer call, keeps the list sorted, duplicate-free and within the comparison range |
| TimerList.Timers.SoftCheckTimers | rt-thread/src/timer.c:606-678 | the in-place loop over the skip list, re-reading the wrapped tick before each turn, calls exactly the sequence of the abstract check |
| TimerModel.DoKeeps | rt-thread/src/timer.c:216-514 | start, stop, detach and control keep the same, from a callback or a thread, for every interval, 0 included, that keeps deadlines comparable |
| TimerModel.DoDue | rt-thread/src/timer.c:216-514 | a call that starts nothing due at once makes nothing due and does not reorder what stays due |
| TimerModel.StartIs | rt-thread/src/timer.c:311-424 | a started timer is due one interval from now and stands behind all that are due no later; no other timer changes |
| TimerModel.StopIs | rt-thread/src/timer.c:216-457 | stopping an active timer, or detaching any, takes just it off the list; stopping an inactive one does nothing |
| TimerModel.ControlIs | rt-thread/src/timer.c:468-514 | control changes one field of one timer; a running one keeps its deadline |
| Clock.MillisecondsRoundUp | rt-thread/src/clock.c:101-117 | a negative delay is RT_WAITING_FOREVER; for any other the seconds-and-rest computation is ms * rate / 1000 rounded up |
| Clock.DelaysExactly | rt-thread/src/thread.c:604-611 | a thread that calls rt_thread_mdelay becomes ready at the tick that is ms * rate / 1000 rounded up, and at the first one for a delay of 0 |
| ThreadTimers.SleepsExactly | rt-thread/src/thread.c:498-527 | a thread that sleeps 0 <= n < RT_TICK_MAX/2 ticks, and that nobody resumes or suspends meanwhile, becomes ready at exactly the n-th following tick (the first for 0), whatever all other threads, timers and callbacks do |
| ThreadTimers.WakesOnTime | rt-thread/src/thread.c:498-818 | the same from any state in which the thread sleeps with its timer running |
| ThreadTimers.RunKeeps | rt-thread/src/thread.c:266-818 | over any run of harmless kernel steps, timer calls and ticks, the timer of a thread is in the timer list if and only if the kernel has the thread suspended for a time |
| ThreadTimers.StepKeeps | rt-thread/src/thread.c:266-818 | the same for one step, ticks with all their callbacks included |
| ThreadTimers.CheckKeeps | rt-thread/src/timer.c:522-589 | a check whose callbacks are thread timeouts, or make any kernel and timer calls, keeps that and leaves nothing due |
| ThreadTimers.CheckProjects | rt-thread/src/timer.c:522-589 | what such a check does to the timers is what the check of TimerRuns does |
| ThreadTimers.TimeoutFindsSuspended | rt-thread/src/thread.c:804 | whenever a thread timer is at the head of the list, its thread is suspended: the assertion of rt_thread_timeout |
| KernelModel.RunKeepsIff | rt-thread/src/thread.c:266-818 | over any interleaving of tests, regions and whole calls: in every state on the way a thread is in ready queue p iff ready with priority p, its node is in at most one list, and a running thread timer means suspended, if and only if no resume goes on with a thread that another call has made ready, put to sleep or queued meanwhile |
| KernelModel.StepKeepsIff | rt-thread/src/thread.c:266-818 | the same for one step |
| KernelModel.WindowSafe | rt-thread/src/thread.c:773-784 | whatever runs between the two regions of a resume, the second is harmless if nobody else has made the thread ready |
| KernelModel.ResumeWhole | rt-thread/src/thread.c:754-788 | with interrupts off throughout, the steps of a resume are one step, and it is harmless |
| KernelModel.DoubleResume | rt-thread/src/thread.c:764-784 | from any good state, a second resume inside the window of the first leaves the thread twice in its ready queue |
| KernelModel.SleepInWindow | rt-thread/src/thread.c:764-784 | if the thread sleeps again before the first resume goes on, it ends up ready with its timer running |
| KernelModel.StepLeaves | rt-thread/src/thread.c:266-818 | a step that does not name a thread that is in no wait list and no open call does not touch it |
| KernelSteps.StartupIs | rt-thread/src/thread.c:266-285 | a new thread starts suspended, in no list, with its initial priority |
| KernelSteps.StartedRuns | rt-thread/src/thread.c:266-298 | startup followed by its resume puts the thread last in the ready queue of its initial priority, and changes no other queue, list or thread |
| KernelSteps.ResumeIs | rt-thread/src/thread.c:754-818 | a resumed or timed-out thread comes last in the ready queue of its priority and leaves any wait list |
| KernelSteps.SuspendIs | rt-thread/src/thread.c:498-527 | a thread that suspends itself or sleeps leaves its queue, the others keeping their order, with its priority unchanged |
| KernelSteps.SuspendWhole | rt-thread/src/thread.c:712-745 | suspend without interruption is that step for a ready thread and nothing for another |
| KernelSteps.BlockIs | rt-thread/src/ipc.c:83-129 | a thread that blocks leaves its ready queue and joins just the wait list of the object, at its place |
| KernelSteps.WakeIs | rt-thread/src/ipc.c:140-153 | waking a list makes its first thread ready, last in its queue |
| KernelSteps.PriorityIs | rt-thread/src/thread.c:630-677 | a priority change takes effect on any thread; a ready one goes to the end of its new queue |
| KernelSteps.YieldIs | rt-thread/src/thread.c:455-489 | a ready thread that yields goes behind all others of its priority, and no other queue changes |
| KernelModel.MovedKeeps | rt-thread/src/thread.c:641-659 | changing a ready thread's priority puts it at the end of its new queue, takes it out of every other place, and changes nothing else |
| KernelModel.YieldKeeps | rt-thread/src/thread.c:455-489 | yield keeps every thread in its own queue exactly once |
| Scheduler.Kernel.Schedule | rt-thread/src/scheduler.c:194-266 | with lock count 0 the current thread becomes the head of the lowest-numbered busy queue; otherwise nothing changes |
| Scheduler.Kernel.Highest | rt-thread/src/scheduler.c:206-215 | the bitmap search, of one or two levels, finds the lowest busy queue |
| Scheduler.Kernel.Enqueue | rt-thread/src/scheduler.c:275-312 | appending keeps bitmap and queues in agreement |
| Scheduler.Kernel.Dequeue | rt-thread/src/scheduler.c:321-361 | removing keeps them in agreement |
| Scheduler.Kernel.ExitCritical | rt-thread/src/scheduler.c:386-411 | only the outermost exit schedules |
| Scheduler.Kernel.StartThread | rt-thread/src/thread.c:266-298 | starting a new thread, up to its call of resume, is the abstract step, and its priority is its initial one |
| Scheduler.Kernel.CheckSuspend | rt-thread/src/thread.c:722-728 | the unlocked test of suspend is the abstract step; the call goes on if and only if the thread was ready |
| Scheduler.Kernel.DoSuspend | rt-thread/src/thread.c:730-745 | its region is the abstract step and keeps ready queues, bitmap and states in agreement even if the thread is no longer ready |
| Scheduler.Kernel.SuspendSelf | rt-thread/src/thread.c:712-745 | suspending the running thread with interrupts off is the abstract step |
| Scheduler.Kernel.CheckResume | rt-thread/src/thread.c:764-770 | the unlocked test of resume is the abstract step; the call goes on if and only if the thread was suspended |
| Scheduler.Kernel.UnlinkResumed | rt-thread/src/thread.c:773-781 | the first region of resume is the abstract step, and the kernel stays in order if and only if that step is harmless |
| Scheduler.Kernel.InsertResumed | rt-thread/src/thread.c:784 | the same for the second region |
| Scheduler.Kernel.ResumeThread | rt-thread/src/thread.c:754-788 | resume with interrupts off is the abstract step, and fails if and only if the thread is not suspended |
| Scheduler.Kernel.TimeoutThread | rt-thread/src/thread.c:796-818 | timeout is the abstract step |
| Scheduler.Kernel.BlockOn | rt-thread/src/ipc.c:83-129 | blocking is the abstract step |
| Scheduler.Kernel.SleepThread | rt-thread/src/thread.c:498-527 | going to sleep is the abstract step |
| Scheduler.Kernel.SetPriority | rt-thread/src/thread.c:630-677 | a priority change is the abstract step, and the thread has the new priority |
| Scheduler.Kernel.YieldThread | rt-thread/src/thread.c:455-489 | yield is the abstract step |
| Scheduler.Kernel.constructor | rt-thread/src/scheduler.c:123-150 | empty queues and an empty bitmap agree |
| Scheduler.OneLevelHighest | rt-thread/src/scheduler.c:208-209 | __rt_ffs on the group word names the lowest busy queue |
| Scheduler.TwoLevelHighest | rt-thread/src/scheduler.c:211-214 | the two searches of the 256-priority form name the lowest busy queue |
| Scheduler.OneLevelStep | rt-thread/src/scheduler.c:275-361 | setting or clearing a bit follows its queue becoming busy or empty |
| Scheduler.TwoLevelSet | rt-thread/src/scheduler.c:305-308 | the same for setting both levels |
| Scheduler.TwoLevelClear | rt-thread/src/scheduler.c:345-357 | the same for clearing, where the group bit falls only with the last bit of its byte |
| Bits.FfsIs | rt-thread/src/kservice.c:1264-1308 | the table look-up is the position of the lowest set bit plus one, 0 for 0 |
| Bits.BitmapIsLow | rt-thread/src/kservice.c:1264-1284 | every entry of the 256-entry table is right |
| RtList.Lists.InsertAfter | rt-thread/include/rtservice.h:58-65 | the new node stands right after the given one, and no other ring changes |
| RtList.Lists.InsertBefore | rt-thread/include/rtservice.h:73-80 | the new node stands right before the given one |
| RtList.Lists.Remove | rt-thread/include/rtservice.h:86-92 | the node leaves its ring and is alone |
| RtList.Lists.RemoveAlone | rt-thread/include/rtservice.h:86-92 | removing a node that is in no list changes nothing |
| RtList.Lists.IsEmpty | rt-thread/include/rtservice.h:98-101 | empty if and only if the list has no member |
| RtList.Lists.Len | rt-thread/include/rtservice.h:107-118 | the walk ends and counts the members |
| RtList.Linked | rt-thread/include/rtservice.h:58-80 | four link writes put a node between any two parts of a ring |
| RtList.Unlinked | rt-thread/include/rtservice.h:86-92 | the link writes of removal join the two parts again |
| Slab.PageList.PageAlloc | rt-thread/src/slab.c:234-268 | page_alloc in place is the function AllocPages, whose meaning AllocKeeps and AllocFailsIff state |
| Slab.PageList.PageFree | rt-thread/src/slab.c:270-320 | page_free in place is the function FreePages, whose meaning FreeKeeps states |
| Slab.PageList.constructor | rt-thread/src/slab.c:325-333 | freeing all pages into an empty list gives one run of them |
| Slab.FindPages | rt-thread/src/slab.c:244-262 | the loop of page_alloc computes AllocPages |
| Slab.JoinPages | rt-thread/src/slab.c:284-315 | the loop of page_free computes FreePages |
| Slab.AllocKeeps | rt-thread/src/slab.c:234-268 | exactly n consecutive pages stop being free, the list stays ordered, disjoint and merged; null if and only if n is 0 or every run is shorter, and then nothing changes |
| Slab.AllocFailsIff | rt-thread/src/slab.c:234-268 | page_alloc fails if and only if no n consecutive pages are free |
| Slab.AllocLowest | rt-thread/src/slab.c:244-262 | page_alloc takes the lowest n consecutive free pages |
| Slab.FreeKeeps | rt-thread/src/slab.c:270-320 | exactly the given pages become free, and the list stays ordered, disjoint and fully merged |
| Slab.StretchIsOneRun | rt-thread/src/slab.c:287-312 | consecutive free pages lie in one run, so allocation fails only when no n consecutive pages are free |
| Slab.ZoneIndexFits | rt-thread/src/slab.c:399-457 | every size below the limit gets an index below 72 and a rounded size that wastes under 8 bytes below 128 and under an eighth above, and the index names the size |
| Slab.ZonesDistinct | rt-thread/src/slab.c:399-457 | two requests share an index if and only if they round to the same size |
| SlabZones.Zones.Malloc | rt-thread/src/slab.c:476-665 | malloc in place, on the page list, the zone lists and the cache, is the abstract step for every size: whole pages, a chunk of the first listed zone, a cached zone, or pages for a new one |
| SlabZones.Zones.FromZone | rt-thread/src/slab.c:537-575 | the chunk of the first listed zone is the abstract one; the zone leaves its list with its last chunk |
| SlabZones.Zones.MallocLarge | rt-thread/src/slab.c:491-519 | a request of whole pages is the abstract step |
| SlabZones.Zones.FromCache | rt-thread/src/slab.c:588-657 | a cached zone is built anew and listed |
| SlabZones.Zones.MallocPages | rt-thread/src/slab.c:594-605 | pages for a new zone, with heap_sem let go, or null |
| SlabZones.Zones.Grow | rt-thread/src/slab.c:607-657 | holding heap_sem again, the new zone is listed in front of whatever other threads have put there, and gives its first chunk |
| SlabZones.Zones.BuildZone | rt-thread/src/slab.c:623-650 | the zone header, with base, chunk count and size computed from the size class |
| SlabZones.Zones.Free | rt-thread/src/slab.c:766-899 | free in place of any live block is the abstract step: a chunk goes back to its zone, an empty zone is retired if and only if its list holds another, and of three cached zones the newest is given up; whole pages are given up |
| SlabZones.Zones.FreeInZone | rt-thread/src/slab.c:817-898 | the part of free for a chunk |
| SlabZones.Zones.Release | rt-thread/src/slab.c:790-899 | the call of page_free that ends a free, after heap_sem has been let go |
| SlabZones.Zones.constructor | rt-thread/src/slab.c:342-393 | all pages free in one run, no zones, empty lists |
| SlabModel.RunKeeps | rt-thread/src/slab.c:476-899 | however the steps of any threads' calls follow each other, free and used pages are apart, the page list is merged, every zone's count is right and exactly the zones with chunks to give are listed, at most two empty zones are cached, and no byte belongs to two live blocks |
| SlabModel.RunCounts | rt-thread/src/slab.c:234-899 | over any run every page of the heap is free or in use: none leaks and none is made up |
| SlabModel.StepCounts | rt-thread/src/slab.c:234-899 | the same for one step |
| SlabModel.StepKeeps | rt-thread/src/slab.c:476-899 | every step keeps that |
| SlabModel.InitOk | rt-thread/src/slab.c:342-393 | it holds at the start |
| SlabModel.LiveApart | rt-thread/src/slab.c:476-899 | two live blocks, chunks or whole pages, are disjoint byte ranges |
| SlabModel.AddressNames | rt-thread/src/slab.c:766-823 | so the address alone tells free which block it is |
| SlabModel.MallocKeeps | rt-thread/src/slab.c:476-605 | a successful malloc adds exactly one live block of at least the size asked for and less than 8 bytes, an eighth or a page more, and an unsuccessful or waiting one none; others stay where they are |
| SlabModel.GrowKeeps | rt-thread/src/slab.c:607-657 | the rest of a malloc that waited for pages adds one such block |
| SlabModel.MallocSource | rt-thread/src/slab.c:532-605 | a small request gets a never-used chunk of the first listed zone, else its last freed one, else the newest cached zone, else new pages |
| SlabModel.LargeSource | rt-thread/src/slab.c:491-519 | whole pages are the lowest ones free in sufficient number; null if and only if there are none or the size wraps to 0 pages |
| SlabModel.ChunkAligned | rt-thread/src/slab.c:629-636 | every chunk is at a multiple of 8, and one whose size is a power of two at a multiple of its size if and only if its zone is |
| SlabModel.SmallPowersAligned | rt-thread/src/slab.c:629-636 | up to a page that is always so |
| SlabModel.LargePowerMisaligned | rt-thread/src/slab.c:629-636 | a reachable chunk of 8192 bytes at address 12288 |
| SlabModel.FreeChunkKeeps | rt-thread/src/slab.c:817-898 | freeing a chunk takes exactly that block away, also when its zone is retired |
| SlabModel.FreeChunkIs | rt-thread/src/slab.c:817-898 | a freed chunk goes in front of its zone's free list; the zone is retired if and only if no other chunk of it is live and another zone of the class has chunks, to the cache while that holds fewer than two, else to the page allocator |
| SlabModel.FreeLargeKeeps | rt-thread/src/slab.c:790-815 | the same for whole pages |
| SlabModel.ReleaseKeeps | rt-thread/src/slab.c:805-892 | giving the pages of a gone block back touches no live one |
| SlabModel.PickOk | rt-thread/src/slab.c:542-566 | a zone with z_nfree > 0 always has a chunk nobody holds, in the tail or on the free list |
| SlabModel.ReturnedOk | rt-thread/src/slab.c:825-850 | a zone is wholly free only when every chunk it ever gave out is back |
| SlabModel.ZoneHoldsTwo | rt-thread/src/slab.c:626-640 | a new zone holds at least two chunks behind its header |
| Kservice.MemMove | rt-thread/src/kservice.c:284-303 | the bytes arrive as they were before the call, for areas that overlap either way, and no other byte changes |
| Kservice.AlignedFits | rt-thread/src/kservice.c:1209-1260 | for every alignment the pointer is a multiple of the word size, and both it with all its bytes and the stored real pointer in front lie inside the block requested |
| Kservice.AlignedIff | rt-thread/src/kservice.c:1209-1246 | every block's pointer is a multiple of the alignment, rounded up to words, if and only if that is a power of two |
| Kservice.TwelveMisaligned | rt-thread/src/kservice.c:1230-1237 | the block at 0x20000000 with alignment 12 gives 0x2000000C, which is no multiple of 12 |
| Printer.Out.PrintNumber | rt-thread/src/kservice.c:590-759 | the padding, sign, precision and digit loops append exactly the field |
| Printer.Out.Convert | rt-thread/src/kservice.c:660-667 | the digit loop yields the numeral backwards and fits the 16-character buffer |
| Printer.Out.Lead | rt-thread/src/kservice.c:677-732 | the part before the digits, with what remains of the width |
| Printer.Out.Put | rt-thread/src/kservice.c:741-748 | a bounded write keeps the buffer equal to the beginning of the unbounded output |
| PrintModel.FieldLength | rt-thread/src/kservice.c:590-759 | with a precision other than 0 a field has length max(width, sign + max(digits, precision)) |
| PrintModel.FieldLengthZero | rt-thread/src/kservice.c:744 | with precision 0 it is shorter by just the digits it leaves out |
| PrintFields.FieldIs | rt-thread/src/kservice.c:590-759 | a field is spaces, a sign, zeros, digits and spaces: a minus iff the number is signed and negative, else a plus or space only as the flags ask; the digits are those of the number, its negation or its 32 bits in the radix and case, without leading zeros; padding by width, flags and precision |
| PrintFields.SignSeen | rt-thread/src/kservice.c:636-647 | a field holds a minus iff the number is signed and negative, a plus iff it is signed, not negative and to have one |
| PrintModel.DigitsFit | rt-thread/src/kservice.c:618-667 | a number below ten to the k has at most k digits |
| PrintModel.Myatoi | drivers/lcd.c:29-50 | the parsing loops compute the signed value of the leading digits after spaces and one sign |
| PrintFields.AtoiIs | drivers/lcd.c:29-50 | Myatoi skips spaces and signs, reads digits up to the first other character, and negates once for every minus |
| PrintModel.RoundTrip | drivers/lcd.c:29-50 | Myatoi gives back every n with magnitude below 2^31 from its decimal field, whatever width, precision, sign flag and padding |
| Format.Vsnprintf | rt-thread/src/kservice.c:761-1024 | n > 0 stores the first n - 1 characters of the unbounded output and a terminator, and any n returns the unbounded length |
| Format.PutFormat | rt-thread/src/kservice.c:794-1009 | the loop over the format appends the unbounded output |
| Format.Convert | rt-thread/src/kservice.c:869-1008 | the switch over the conversion character, unknown conversions and a trailing percent sign included |
| Format.ScanSpec | rt-thread/src/kservice.c:804-867 | flags, width, precision and qualifier, with their arguments |
| Format.PutStringField | rt-thread/src/kservice.c:897-927 | a string field, whose width also caps the string |
| Format.PutIntegerField | rt-thread/src/kservice.c:951-1008 | sign and size of the argument by qualifier |
| Format.PercentDRoundTrip | rt-thread/src/kservice.c:962-1007 | Myatoi of what %d prints for a word is that word as a signed number, except for -2^31 |
| FormatText.PlainText | rt-thread/src/kservice.c:794-802 | a format without percent signs renders as itself |
| FormatText.TextThen | rt-thread/src/kservice.c:794-802 | text without percent signs in front of a format renders as itself, and the rest as if it stood alone |
| FormatText.Directive | rt-thread/src/kservice.c:804-1008 | a directive, with flags in any order, a width and a precision given as digits or arguments, and a qualifier, prints what it means, for every conversion and for unknown ones, and the rest of the format goes on with the arguments left |
| FormatText.CutOff | rt-thread/src/kservice.c:968-981 | a directive the format cuts off prints a percent sign |
| Crc.Crc16 | drivers/RS485.c:28-54 | the two nested loops over a 32-bit variable compute the 16-bit CRC, low byte first: message and CRC bits, the first sixteen inverted, are a multiple of x^16 + x^15 + x^2 + 1 (section 6.2.2 of the MODBUS over Serial Line Specification and Implementation Guide V1.02) |
| Crc.ChecksIff | drivers/RS485.c:28-54 | that holds of the two bytes of the CRC and of no other two |
| Crc.StreamAt | drivers/RS485.c:35-48 | the bits are taken byte by byte, lowest first |
| Crc.CrcIsFeed | drivers/RS485.c:33-50 | the byte-wise CRC is the register fed with the message bit by bit |
| Crc.ResidueZero | drivers/RS485.c:51-53 | a message followed by its own CRC, low byte first (section 6.2.2 of the MODBUS over Serial Line Specification and Implementation Guide V1.02), has CRC 0 |
| Crc.TwoBytesDetected | drivers/RS485.c:33-50 | equal-length messages that differ only within two adjacent bytes have different CRCs |
| Crc.OddErrorsDetected | drivers/RS485.c:33-50 | equal-length messages that differ in an odd number of bits have different CRCs |
| CrcRegister.BurstDetected | drivers/RS485.c:38-49 | streams that differ only within sixteen consecutive bits end in different registers |
| CrcRegister.DividesIff | drivers/RS485.c:38-49 | a stream of at least sixteen bits leaves an empty register empty if and only if it is a multiple of x^16 + x^15 + x^2 + 1, highest coefficient first |
| CrcRegister.FeedLinear | drivers/RS485.c:38-49 | the register is linear in its content and input |
| CrcRegister.FeedInjective | drivers/RS485.c:38-49 | two registers that agree after the same input agreed before it |
| CrcRegister.StepUndone | drivers/RS485.c:40-48 | a shift step can be undone |

## Left out

- SmallMem.Heap.Realloc: a moving `rt_realloc` is one step here; its unlocked gaps are modelled in `SmallMem.Heap.MoveWithGaps`, where the other threads' own moving reallocations are one step each.
- SmallMem.Heap.Malloc: requires at least 12 user bytes unless the request is 0 or larger than the heap; on a smaller heap the search does not end (`HeapRuns.TinyHeapSearch`), so there is no result to describe.
- HeapImage: memory is one slot per byte address with each header field stored whole at its own lowest address; byte order inside a field is not modelled.
- MemHeap.MemHeap.ReallocMem: payload bytes are not modelled, nor the gaps between its locked regions (see `SmallMem.Heap.MoveWithGaps` for the like in `mem.c`).
- MemHeap.MemHeap.constructor: pools too small for a 12-byte block between two headers are excluded inputs. `max_used_size` and the lock's own error return are not modelled.
- MqQueue.MessageQueue.Reset: the threads released by a reset return to their callers at once; the order in which they run again is not modelled.
- WaitList.Suspend: a list is a sequence rather than linked nodes (RtList covers the links), and a PRIO list uses the priorities given when a thread joins; it is not re-sorted when a waiter's priority changes later, and neither does the program.
- MutexModel.RunKeeps: nested mutexes, priority changes from outside and the resulting FIFO hand-over are outside the no-inversion claim; an owner's raised priority stays raised when the waiter that raised it times out, as in the program.
- Locks.Mutex.Take: the queue position of the raised owner thread is left to KernelModel's priority change.
- Wakeups.RunKeeps: threads are not deleted or resumed by user code while they wait.
- MemPool.Pool.constructor: a pool of zero blocks is an excluded input (`MemPool.LastLinkInside`). Blocks are numbered rather than addressed.
- TimerList.Timers.CheckTimers: time stands still while callbacks of hard timers run, as it does in the tick interrupt.
- TimerList.Timers.SoftCheckTimers: the ticks that pass during one check are bounded so that deadlines stay less than RT_TICK_MAX/2 apart. Soft and hard timers share one insertion counter in the program and have one each here; no result depends on its value.
- TimerList.Timers.TickIncrease: the time-slice count-down of `rt_tick_increase` and `rt_tick_set` are not modelled.
- TimerRuns.CheckInOrder: checks that end; `TimerRuns.EndsIff` says when one does if its callbacks make no timer calls, `TimerRuns.TurnDueIff` what each turn contributes if they do. Intervals of RT_TICK_MAX/2 and more are refused by the assertion in `rt_timer_start`.
- KernelModel.RunKeepsIff: thread exit, deletion and detachment are not modelled. What a list node inserted twice does to the links of two lists is not followed further: such a state is modelled as a queue that holds the thread twice, or as a thread in two lists.
- ThreadTimers.SleepsExactly: soft timers and the timer thread, which sleeps until the next soft deadline, are not composed with the threads; the rest of the tick, its time slice, is not modelled.
- Scheduler.Kernel.Schedule: a context switch is the assignment of the current thread; stack checks, interrupt nesting and hooks are not modelled, and `rt_current_priority` may be stale after a priority change, as in the program.
- SlabZones.Zones.Malloc: the table `memusage` is the map from a page to its use; chunk links inside free chunks are lists of chunk numbers.
- Slab.PageList.PageAlloc: the page list is a sequence of runs of page numbers rather than links inside the free pages.
- Slab: slab `rt_realloc` is malloc, copy and free and adds only easy members.
- Format.Vsnprintf: a buffer whose size wraps the address space, widths and precisions that overflow an int, and the options for 64-bit and `#` formats (not configured) are not modelled; missing arguments read as 0.
- PrintModel.Myatoi: values that do not fit an int are excluded; the overflow is undefined in C.
- Kservice.AlignedFits: the sizes are unbounded numbers, so requests close to 2^32 are not shown to wrap; alignment 0 is excluded.
- Object names and registry, `create`/`delete`/`detach` calls, hooks and debug logs: bookkeeping without a property of its own.
- HAL drivers, the Modbus request handler, LCD pages, flash storage, device framework, idle thread and console: hardware access or plain dispatch.
- `rt_calloc`, `rt_memory_info`, `rt_list_for_each` style macros: easy members on top of what is modelled.
