# Verification of the operating system simulator

A Dafny model of the three parts of the simulator that carry its hard guarantees, with proofs of those guarantees.

- **Paging memory.** A first-fit region allocator over a growing heap, a page table per process with bit-packed entries,
  and one RAM with a free frame list shared by all processes (`src/libmem.c`, `src/mm.c`, `src/mm-vm.c`,
  `src/mm-memphy.c`, `include/mm.h`, `include/bitops.h`). The main result is that all of it behaves like a plain map from
  (process, region, offset) to the byte last written, over every run of several processes.
- **Scheduling and dispatch.** 140 ready queues with quotas and a round-robin cursor, their bounded array queues, the pass
  that kills processes by name, and any number of processors that run the loaded processes (`src/sched.c`, `src/queue.c`,
  `src/sys_killall.c`, `cpu_routine` in `src/os.c`). The main results are an exact waiting bound, first-in first-out order
  and freedom from starvation per process, and exactly-once execution under every interleaving.
- **Slot barrier.** The timer thread and the device threads with their mutexes and condition variables (`src/timer.c`).
  The main results are that the clock ticks only when every device is blocked or gone, that no wakeup is lost, that no
  state is a deadlock, that the timer ends with its devices, and that the barrier reaches its tick within a bounded number of its own moves. Put together with
  the processors, each of them runs at most one instruction per slot.

`dafny verify dfyconfig.toml` checks the whole project.

## How the model is built

Code that changes objects in place is modelled by classes and arrays: `MmStruct`, `MemPhy`, `PgnList` with its linked
nodes, `Queue`, `Scheduler`. Each such method is proved equal to a function on values, and the laws are proved about the
functions. The memory system, the processors and the barrier are state machines whose steps are the calls, the critical
sections, or single lock and signal operations; their theorems hold for all runs.

| file | content |
|---|---|
| `Bits.dfy`, `Paging.dfy` | bit macros on 32-bit words, addresses, page table entries |
| `PhysMemory.dfy`, `PageFifo.dfy`, `AddressSpace.dfy` | RAM device, page replacement list, memory description of a process |
| `PageMapping.dfy`, `VmArea.dfy`, `LibMem.dfy` | mapping frames, growing an area, allocating and accessing regions |
| `HeapTiling.dfy`, `FrameOwnership.dfy`, `MemorySystem.dfy` | the invariants of the memory and its runs |
| `FramePop.dfy` | popping the free list from several processors |
| `ReadyQueue.dfy`, `MlqPolicy.dfy`, `MlqScheduler.dfy`, `Killall.dfy` | queues, choice of level, scheduler, killing by name |
| `Dispatch.dfy` | the processors and the loader |
| `TimerBarrier.dfy`, `Lockstep.dfy` | the barrier; processors, loader and clock together |

Words are integers below 2^32 with operators defined bit by bit. Region bounds are 64-bit unsigned in the source; the
length test of the first-fit search is modelled modulo 2^64. `Pcb` has the two fields the scheduler reads. Byte values
are those of a signed char.

What the theorems assume of a run is what the code needs: RAM of 2 to 8192 frames (13-bit frame numbers), region ids
below 30, accesses inside live regions, frees of live regions, and enough free frames whenever the heap has to grow
(`Permitted` in `MemorySystem.dfy`), sums of a growth that stay within a C int (`NoOverflow` in `VmArea.dfy`); levels
below 140, a positive time slot, code of at least one instruction and at most ten unfinished processes of each level,
the size of its queue (`Loadable` in `Dispatch.dfy`).

## What does not hold

Each of these is proved, with its exact condition, and a run or an input that shows it.

- A failed growth takes the free frames it popped and does not return them. The address space itself is as before in
  every reachable state (`MemorySystem.FailedGrowthUndone`).
- `__alloc` reports success even when growth failed, because `__sys_memmap` always returns 0. The heap stays tiled
  exactly when a free region fits or there are enough frames (`MemorySystem.AllocateTilesIff`), and the frames stay owned
  exactly when it is served or none was free (`MemorySystem.UnservedLosesFrames`). It fails, on any RAM, for a first request
  above its size (`MemorySystem.GrowthFailsUnnoticed`).
- `__free` never clears the symbol table. Releasing an id keeps the heap tiled exactly when its region is live or its
  recorded bounds, cut to C ints, are empty or reversed (`MemorySystem.ReleaseTilesIff`). It fails for every second release of a non-empty region
  (`MemorySystem.SecondReleaseHappens`), after which two allocations get one address (`MemorySystem.DoubleReleaseAliases`).
- Allocating into an id whose region is live loses the bytes of that region; the heap is tiled exactly if and only if no
  byte was lost that way (`MemorySystem.HeapsAlwaysTiled`; `MemorySystem.LosingBytesHappens` gives the runs).
- A growth runs with the memory lock released and the free list has no lock of its own, so two processors that grow at
  the same time can get one frame (`FramePop.SharedFrameHappens`). No frame is handed out twice exactly when every pop
  unlinks the list as it has read it (`FramePop.ConservedIff`), which one growth at a time ensures
  (`FramePop.OneAtATimeConserves`).
- `pte_set_swap` leaves the present bit set, so every swapped page still reads as present (`Paging.PteSwpRoundTrip`), and
  `vmap_page_range` enlists the page after the last one it mapped, always (`PageMapping.MapRamExact`).
- `get_mlq_proc` can return no process although one is queued; `MlqScheduler.GetEmpty` says exactly when,
  `MlqScheduler.EmptyGetHappens` gives a run, and `MlqScheduler.NextGetServes` says that the next call serves one.
- A put into a full queue loses its process (`Dispatch.PutKeepsProcess`, both directions;
  `MlqScheduler.FullLevelHappens` gives the runs).
- Processors do not all stop once the loader is done: one that gets no process any more stops exactly when it was not
  idle at the top of its loop (`Dispatch.StopsIff`), and an idle one can go round for ever (`Dispatch.IdleForEverHappens`).

Where comments and code disagree the code is followed: the comment at `src/sched.c:66-72` lets the priority reach
`MAX_PRIO`, the code keeps it below; `include/mm.h:8` calls the 8 offset bits a page number; the comment on
`__swap_cp_page`'s caller at `src/libmem.c:246-248` speaks of copying from swap to memory, while both calls copy from RAM.

## Model

| member | source | states |
|---|---|---|
| Bits.GenMaskValue | include/bitops.h:27-28 | `GENMASK(h, l)` is 2^(h+1) - 2^l for every l <= h < 32 |
| Bits.NBitsIsFloorLog | include/bitops.h:30-35 | `NBITS` is the floor of the base-2 logarithm of every non-zero word |
| Bits.BitSetVal | include/mm.h:75 | `SETVAL` writes the bits of the value into the field [l, h] and keeps every other bit, for any old word |
| Bits.BitGetVal | include/mm.h:76 | bit k of `GETVAL` is bit k + l of the word inside the field, and clear above it |
| Bits.FieldRoundTrip | include/mm.h:75-76 | a value that fits a field is read back by `GETVAL` after `SETVAL`, whatever the word held |
| Bits.FieldFrame | include/mm.h:76 | words that agree on the bits of a field read the same there |
| Paging.PageFieldLayout | include/mm.h:54-60 | the page number field starts at bit `NBITS(256)` = 8 |
| Paging.AddressFields | include/mm.h:55-88 | for every 32-bit address the page number is its quotient by 256 modulo 2^14 and the offset its rest |
| Paging.AddressSplit | include/mm.h:86-88 | below 2^22 an address is its page number times 256 plus its offset |
| Paging.AlignSzRoundsUp | include/mm.h:10 | page alignment is the least multiple of 256 not below the size, and aligning twice changes nothing |
| Paging.PresentIsBit31 | include/mm.h:18-27 | `PAGING_PAGE_PRESENT` tests exactly bit 31 |
| Paging.PteFieldBits | include/mm.h:51-52 | every bit the frame number and swap offset getters read, for any entry |
| Paging.PteSetFpnBits | src/mm.c:74-82 | for any old entry: frame number in bits 0-12, present set, swapped cleared, all other bits kept |
| Paging.PteSetSwapBits | src/mm.c:58-67 | for any old entry: swap type and offset written, both flags set, all other bits kept |
| Paging.PteFpnRoundTrip | src/mm.c:74-82 | the frame number is read back if and only if it is below 2^13; the page reads present |
| Paging.PteSwpRoundTrip | src/mm.c:58-67 | the swap offset is read back if and only if it is below 2^21; the swapped page still reads present |
| PhysMemory.MemPhy.constructor | src/mm-memphy.c:193-207 | for two frames or more, a zeroed device whose free list holds the frames 0..n-1 in order |
| PhysMemory.MemPhy.Format | src/mm-memphy.c:114-140 | the free list becomes 0..n-1 in order, or the call fails for a device below one frame and changes nothing |
| PhysMemory.MemPhy.GetFreeFp | src/mm-memphy.c:142-158 | takes the head of the free list, fails exactly on an empty list |
| PhysMemory.MemPhy.Read | src/mm-memphy.c:58-69 | the byte stored at the address |
| PhysMemory.MemPhy.Write | src/mm-memphy.c:97-108 | exactly the addressed byte changes, not the free list |
| PhysMemory.SwapCpPage | src/mm.c:223-239 | the target frame becomes a copy of the source frame and no other byte changes, also on one device |
| PhysMemory.CopyOutAndBack | src/mm.c:223-239 | a law of the page copy alone, which the source never uses to copy a page back: out to a swap frame and back restores the page |
| PageFifo.PgnList.Enlist | src/mm.c:292-301 | the page becomes the head of the linked list; the old nodes follow unchanged |
| PageFifo.PgnList.FindVictimPage | src/libmem.c:466-491 | the tail page is returned and unlinked, the list stays acyclic and loses only that node; fails exactly when empty |
| PageFifo.VictimsInInsertionOrder | src/libmem.c:466-491 | over any interleaving of insertions and victims, victims followed by the pages still listed are the insertions in order |
| AddressSpace.MmStruct.constructor | src/mm.c:246-271 | one area 0 with break and end 0 and the empty region as its free list |
| PageMapping.AllocPagesRange | src/mm.c:139-173 | with enough frames the first n are popped, last popped first; otherwise failure and the free list is emptied |
| PageMapping.VmapPageRange | src/mm.c:87-130 | the pages from the start on get the frames in order, entry by entry; the error path keeps the pages mapped so far |
| PageMapping.VmMapRam | src/mm.c:184-215 | all n pages are mapped or none is, with the new page table, free list and code |
| PageMapping.MapRamExact | src/mm.c:87-215 | page b+i becomes present with frame f(n-1-i), exactly n frames leave the list, no other entry changes |
| PageMapping.MapRangeExact | src/mm.c:87-130 | with enough frames the pages from the start get them in order and nothing else changes but the replacement list |
| PageMapping.MapTooShort | src/mm.c:107-213 | with too few frames the range mapping keeps the pages it has frames for and enlists none; a whole growth maps none and empties the free list |
| VmArea.GetVmaByNum | src/mm-vm.c:19-38 | the first area whose id is not below the one asked for |
| VmArea.ValidateOverlapVmArea | src/mm-vm.c:79-98 | fails exactly when an area with another id meets the closed interval |
| VmArea.IncVmaLimit | src/mm-vm.c:107-143 | the new address space, free list and code of a growth, with its rollback |
| VmArea.OverlapIff | include/mm.h:99 | two closed intervals overlap if and only if they have an address in common |
| VmArea.IncLimitSuccess | src/mm-vm.c:107-143 | growth succeeds if and only if no other area has an address in the new range and there are enough frames; then break, end, entries and free list are given, and nothing else changes |
| VmArea.IncLimitFailure | src/mm-vm.c:107-143 | growth fails if and only if the range meets another area or the frames run out; a failure changes no entry, symbol or area end, and no break unless that stood apart from its end |
| VmArea.IncLimitKeepsDisjoint | src/mm-vm.c:107-143 | on areas with ascending ids a successful growth extends the area asked for, and disjoint areas stay disjoint |
| LibMem.FitsIff | src/libmem.c:522 | a region in order fits by its length, a reversed one counts as 2^64 longer |
| LibMem.GetFreeVmrgArea | src/libmem.c:500-539 | cuts the bytes from the first region that fits, fails exactly when none does and then changes nothing |
| LibMem.AllocRegion | src/libmem.c:74-145 | new memory, free list, code and address (cut to an int) of an allocation, including growth whose failure goes unnoticed |
| LibMem.GrownFits | src/libmem.c:110-131 | the region enlisted after growth is the head of the free list and the second search takes it, at the old break |
| LibMem.AllocPlacement | src/libmem.c:74-145 | every allocation returns success, at the first free region that fits or else at the old break, and records exactly its bytes under its id alone |
| LibMem.AllocReuses | src/libmem.c:74-95 | when region j is the first with end - start >= size, the allocation takes its start, leaves the rest in its place, and changes no other region, break, entry or frame |
| LibMem.AllocExtends | src/libmem.c:96-145 | when every free region is shorter, the allocation starts at the old break and the rest of the enlisted bytes heads the free list |
| LibMem.FreeRegion | src/libmem.c:147-181 | puts the recorded region, its bounds cut to ints, at the head of the free list; fails exactly on a bad id or on bounds then empty or reversed |
| LibMem.FreeOutcome | src/libmem.c:147-181 | accepted exactly for ids 0 to 29 with int bounds in order and not empty; then only that region enters, in front |
| LibMem.ReleasedIsReused | src/libmem.c:30-58 | the region released last is tried first and taken when long enough |
| LibMem.ReadByte | src/libmem.c:196-371 | the byte behind region and offset through the entry of its present page, or failure on a bad id or a process without area |
| LibMem.WriteByte | src/libmem.c:324-409 | exactly the RAM byte behind region and offset changes |
| LibMem.AccessOutcome | src/libmem.c:360-409 | read and write are refused together, exactly for ids outside 0 to 30 or without area; otherwise the byte written is read |
| HeapTiling.TiledIff | src/libmem.c:74-181 | every byte of the heap belongs to exactly one region if and only if the lengths of disjoint free and live regions leave none over |
| HeapTiling.HeapCut | src/libmem.c:534-536 | cutting a region keeps free and live regions disjoint, and loses exactly the bytes the id named before |
| HeapTiling.HeapGrow | src/libmem.c:121-127 | enlisting the grown bytes keeps the tiling of the longer heap |
| HeapTiling.HeapFree | src/libmem.c:147-181 | moving a live region to the free list keeps the tiling |
| FrameOwnership.RoomForPages | src/mm-memphy.c:114-158 | the pages of one process and the free frames never exceed the device |
| FrameOwnership.OwnedGrow | src/mm.c:87-215 | mapping the first k free frames above a break keeps every frame with exactly one owner |
| MemorySystem.LiveAccess | src/libmem.c:292-350 | inside a live region the page is present, and read and write reach the RAM cell of the map |
| MemorySystem.CellsApart | src/libmem.c:292-350 | different cells of live regions, of one process or two, have different RAM cells |
| MemorySystem.StepKeepsInv | src/libmem.c:74-181 | every permitted call stays inside the tables and keeps tiling, ownership and contents |
| MemorySystem.ReadsReturnLastStored | src/libmem.c:292-409 | after any lawful run of several processes a read returns the byte last written to that cell since its allocation |
| MemorySystem.StoreLeavesOtherCells | src/libmem.c:324-350 | a write never changes what any other live cell of any process reads |
| MemorySystem.FramesNeverSharedOrLost | src/mm-memphy.c:114-158 | in every reachable state page tables below the breaks and free list hold each frame of the device exactly once |
| MemorySystem.HeapsAlwaysTiled | src/libmem.c:74-181 | in every reachable state free, live and lost bytes add up to sbrk without overlap, and tile [0, sbrk) exactly if and only if none is lost; sbrk is the area end and a multiple of 256 |
| MemorySystem.FailedGrowthUndone | src/mm-vm.c:107-143 | in every reachable state growth fails exactly when the free list is too short, and then page table, break and end are as before |
| MemorySystem.AllocateTilesIff | src/libmem.c:107-145 | an allocation keeps the process well tiled if and only if a free region fits or there are enough frames |
| MemorySystem.UnservedLosesFrames | src/mm.c:139-173 | an unserved allocation keeps every frame owned if and only if none was free |
| MemorySystem.GrowthFailsUnnoticed | src/libmem.c:107-145 | a new process that asks for more than the RAM gets success, an untiled heap, and loses the frames |
| MemorySystem.LosingBytesHappens | src/libmem.c:74-145 | a lawful run that allocates into a live id loses its bytes and ends with an untiled heap |
| FramePop.StaleRepeats | src/mm-memphy.c:142-158 | a pop that unlinks after another one hands out a frame again and puts those handed out since its read back on the list |
| FramePop.ConservedIff | src/mm-memphy.c:142-158 | under any interleaving of pops no frame is handed out twice if and only if each unlinks the list it has read; then none is lost |
| FramePop.OneAtATimeConserves | src/libmem.c:107-119 | with one growth at a time every frame is handed out once or still free |
| FramePop.SharedFrameHappens | src/mm-memphy.c:142-158 | two pops that overlap hand out the head frame twice |
| MemorySystem.ReleaseTilesIff | src/libmem.c:147-181 | a release keeps the process well tiled if and only if the region is live or its bounds, cut to ints, are empty or reversed |
| MemorySystem.SecondReleaseHappens | src/libmem.c:147-181 | after a lawful run a second release is accepted and breaks the tiling |
| MemorySystem.DoubleReleaseAliases | src/libmem.c:147-181 | after a double free the next two allocations of that size get the same address |
| ReadyQueue.Queue.Empty | src/queue.c:6-11 | true exactly when the queue holds no process |
| ReadyQueue.Queue.Enqueue | src/queue.c:13-22 | appends the process, or drops it when ten are queued |
| ReadyQueue.Queue.Dequeue | src/queue.c:24-60 | removes the first process of least prio and keeps the others in order |
| ReadyQueue.Best | src/queue.c:31-42 | a position of least prio, strictly less than all before it |
| ReadyQueue.OnePrioIsFifo | src/queue.c:24-60 | on a queue of one prio the selection by prio takes the oldest process |
| MlqPolicy.ChosenInUse | src/sched.c:83-110 | exactly when the level dequeued from is empty |
| MlqPolicy.NeverTwoEmptyCalls | src/sched.c:105-110 | after a call that serves nothing the next one serves a level in use, whatever happened to the queues |
| MlqPolicy.FullRound | src/sched.c:49-53 | the quotas once round, from any level, add up to 9870 |
| MlqPolicy.ServedOrCloser | src/sched.c:83-110 | a call made while level q is in use serves it or lowers its rank, also across the reset to level 0 |
| MlqPolicy.BoundedWaiting | src/sched.c:83-110 | a level that stays in use is served within 9871 minus its quota calls, whatever is added in between |
| MlqPolicy.RankIsExact | src/sched.c:83-110 | while all levels are in use, the rank is the number of the very call that first serves the level |
| MlqPolicy.LeavesSpentLevel | src/sched.c:92-104 | a level with no slots or no process is left for another in use |
| MlqPolicy.QuotaKept | src/sched.c:85-104 | while another level is in use, level p is served at most 140 - p times in a row |
| MlqPolicy.ArrivalGivesQuota | src/sched.c:93-110 | a call that moves the cursor to level p, also by the fallback, leaves it exactly 139 - p more calls in a row while another level is in use |
| MlqPolicy.NextLevelFirst | src/sched.c:93-104 | the level served next is the first in use after the cursor, going round |
| MlqScheduler.Get | src/sched.c:83-110 | the locked section keeps 140 queues and 0 <= curr_slot <= 140 - curr_prio |
| MlqScheduler.StartServesTop | src/sched.c:45-63 | from the start all queues are empty and level 0 is served 140 times in a row while it stays in use |
| MlqScheduler.GetEmpty | src/sched.c:83-110 | no process is returned if and only if all other levels are empty and the current one is empty or spent and not level 0 |
| MlqScheduler.NextGetServes | src/sched.c:105-110 | two empty results never follow each other while a process is queued |
| MlqScheduler.RunFiled | src/sched.c:113-125 | over every run each process waits at the level of its prio |
| MlqScheduler.EmptyGetHappens | src/sched.c:83-110 | a run after which a process is queued and the next get returns none |
| MlqScheduler.FullLevelHappens | src/queue.c:13-22 | after ten puts into a level the next process put there is lost |
| MlqScheduler.NoStarvation | src/sched.c:73-125 | within (k+1)*9870 gets the processes at positions 0 to k of a level are the first k+1 dispatched from it, in order, whatever puts come in between |
| MlqScheduler.LevelIsFifo | src/sched.c:113-125 | over every run what leaves a level followed by what waits in it is what waited first followed by what was accepted |
| MlqScheduler.Scheduler.constructor | src/sched.c:45-63 | 140 empty queues, slot[p] == 140 - p, curr_prio 0 and curr_slot 140 |
| MlqScheduler.Scheduler.QueueEmpty | src/sched.c:26-43 | true exactly when all 140 queues are empty |
| MlqScheduler.Scheduler.Search | src/sched.c:92-104 | the offset of the next level in use, or 140 when only the current one can be |
| MlqScheduler.Scheduler.GetLocked | src/sched.c:83-111 | the in-place section changes queues and cursor exactly as the policy says |
| MlqScheduler.Scheduler.GetMlqProc | src/sched.c:73-111 | nothing changes when all queues are empty, else the result of the locked section |
| MlqScheduler.Scheduler.PutProc | src/sched.c:132-152 | the process joins the level of its prio and the running list, unless that is full |
| Killall.Drain | src/sys_killall.c:146-175 | the temporary queue gets the stable sort of the non-matching processes; the count is the number of matches |
| Killall.Refill | src/sys_killall.c:178-181 | the processes return in the order of the temporary queue, none lost |
| Killall.KillFrom | src/sys_killall.c:190-215 | one queue ends with the stable sort by prio of its non-matching processes |
| Killall.KillAll | src/sys_killall.c:139-216 | the same for the running list and all 140 levels; the result counts the matches over all of them, the cursor stays |
| Killall.KeptIs | src/sys_killall.c:158-174 | what stays holds each non-matching process as often as before and no matching one; the count is the rest |
| Killall.StableSortUnique | src/sys_killall.c:139-216 | there is only one stable sort, so the refilled queue is determined |
| Killall.KillAllFiltersLevels | src/sys_killall.c:184-216 | each level keeps exactly its non-matching processes in their old order |
| Dispatch.NextKeepsInv | src/os.c:58-115 | every step of every processor and the loader keeps placement, tables, slices and log correct |
| Dispatch.StepsAlwaysReady | src/os.c:58-115 | in a reachable state every processor can make its next step, into a reachable state |
| Dispatch.InExactlyOnePlace | src/os.c:58-115 | a loaded process is in exactly one queue place or on one processor until it is reported finished, then nowhere |
| Dispatch.RunsInsideCode | src/cpu.c:61-70 | from the call of `run` to its end no other processor has the process, the fetch lies inside the code, and the unlocked counter is the same at test, fetch and increment |
| Dispatch.ExecutedInOrderOnce | src/cpu.c:61-71 | although test, fetch, read and write of the counter interleave with all other processors, a process has executed instructions 0..pc-1 in order, once each, and all of them when reported finished |
| Dispatch.SharedProcessRunsTwice | src/cpu.c:61-70 | if two processors held one process, an interleaving would run an instruction twice: exclusive ownership is what the result rests on |
| Dispatch.AtMostTimeSlotPerDispatch | src/os.c:103-113 | an instruction runs where its process was last dispatched, at most `time_slot` of them per dispatch |
| Dispatch.EveryDispatchTaken | src/os.c:58-109 | over any run the processes dispatched on a processor are, in order, those it takes from the scheduler, up to one pending, and it lets go of each before it takes the next |
| Dispatch.LetGoAtTail | src/os.c:73-89 | a processor lets go of an unfinished process only after its whole slice, to the tail of its level; of a finished one for good; then it asks for another |
| Dispatch.QueuedIsTaken | src/os.c:61-71 | while a process is queued an idle processor that steps alone has one after one round, or two when the first get comes back empty |
| Dispatch.HeldProcessRuns | src/os.c:103-114 | a process taken or kept is dispatched if it has no slice and runs exactly the instruction its counter points at before the slot ends |
| Dispatch.NothingAfterFinish | src/os.c:73-82 | a process reported finished never runs again and is not reported again |
| Dispatch.PutKeepsProcess | src/queue.c:13-22 | a put keeps its process if and only if the level is not full |
| Dispatch.NoProcessStarves | src/os.c:58-115 | on any number of processors the processes at positions 0 to k of a level are the first k+1 taken from it, within (k+1)*9870 entries of the locked section |
| Dispatch.StopsIff | src/os.c:61-97 | once the loader is done, a processor that gets no process any more stops within three own steps if and only if it was not idle at the top of its loop |
| Dispatch.LastProcessStops | src/os.c:73-97 | after letting go of its last process, with the loader done, a processor has stopped three own steps later |
| Dispatch.StopsOnlyWhenDone | src/os.c:92-97 | no processor stops before the loader is done |
| Dispatch.IdleNeverStops | src/os.c:61-72 | a processor idle at the top of its loop does not stop while it gets no process, done or not |
| Dispatch.IdleForEverHappens | src/os.c:61-72 | a reachable state with the loader done from which a processor goes round idle for any number of steps |
| TimerBarrier.NextKeepsInv | src/timer.c:21-93 | every lock, flag, signal, wait and unlock operation of every thread keeps the barrier invariant |
| TimerBarrier.TickOnlyWhenAllBlocked | src/timer.c:29-46 | the clock moves by one, by the timer, only when each device has detached or is blocked with done set |
| TimerBarrier.ActiveDeviceSeesOneTime | src/timer.c:61-77 | between two calls of next_slot a device sees one time, whatever the others do |
| TimerBarrier.WithinOneSlot | src/timer.c:61-77 | two devices that have not detached are never more than one slot apart |
| TimerBarrier.NoLostWakeup | src/timer.c:29-77 | a device waits with its flag cleared only while the timer is about to signal it, and the timer sleeps on a done or detached device only while that is about to signal |
| TimerBarrier.NoDeadlock | src/timer.c:21-93 | every reachable state is the end, or has an enabled barrier step, or a device running its slot |
| TimerBarrier.TimerEndsWithDevices | src/timer.c:54-56 | at the tick the counters agree if and only if all devices have detached, and the timer ends only then |
| TimerBarrier.TimerEnds | src/timer.c:21-59 | once all devices have detached the timer ends within 11 moves per device and 7 more, with at most one more tick and none when stopped behind the tick |
| TimerBarrier.TicksWithin | src/timer.c:21-77 | while the clock stands still the barrier makes at most 21 moves per device and 4 more, plus 9 per call or unasked return |
| Lockstep.NextKeepsInv | src/os.c:58-115 | every move of processors, loader and barrier together keeps each part in its reachable states and the pace of the clock |
| Lockstep.PartsReachable | src/timer.c:61-93 | in every reachable state of the whole both parts are in reachable states of their own, so the results about each hold |
| Lockstep.OneInstructionPerSlot | src/os.c:111-113 | no processor runs two instructions in one slot of the clock |
| Lockstep.NeverStuck | src/os.c:58-118 | the whole has ended with everybody detached, or can move |

## Left out

- MemorySystem.ReadsReturnLastStored: each library call is one step; `__alloc` drops its lock around the growth call, and what happens in that window is only modelled for the free list (`FramePop`). Cells never written since their allocation are not described.
- MemorySystem.FramesNeverSharedOrLost: holds of calls that do not overlap; two growths at the same time can share a frame.
- LibMem.PgGetPage: only present pages, which is every page below a break in a lawful run; the fault path with its two copies to swap does not restore pages and is not modelled.
- PhysMemory.MemPhy.PutFreeFp: modelled, but nothing in the modelled code returns a frame, so nothing further is proved about it.
- LibMem.AllocRegion: an unsigned request of 2^31 or more becomes a negative int in the source, which can lower the break; it is excluded, and so is a growth whose sums leave the range of a C int, where the source is undefined.
- LibMem.AllocPlacement: the same sizes are excluded.
- MlqScheduler.Scheduler.GetMlqProc: one processor; the gap between its two critical sections is in `Dispatch`.
- PhysMemory.MemPhy.constructor: random access only, and no device below two frames, where the source leaves the head or the link of the free list unset.
- VmArea.GetVmaByNum: an id above every area makes the source follow a null link and is excluded.
- Dispatch.InExactlyOnePlace: at most ten unfinished processes of each level; the killing pass and what an instruction does besides advancing its counter are not interleaved with the processors.
- TimerBarrier.TicksWithin: bounds the moves of the barrier but assumes no fairness, so it does not say that a thread is ever scheduled.
- `attach_event`: the devices are those attached before the timer starts, as its guard demands.
- Runs after an allocation that failed to grow: only the exact condition and the state left are given.
- Stopping of every processor and termination of the whole program: not guaranteed by the code.
- `running_list` as the set of running processes: it grows on every put and nothing leaves it on a dispatch; it is only input to the killing pass.
- Reading the name from user memory and freeing regions of killed processes: the comparison is a parameter and the frees depend on unset registers.
- Free lists of regions and frames and the list of areas are sequences, not linked nodes; only the page list is modelled with its links.
- The page list, page table and symbol table of a new process come uninitialised; the list is taken to be empty.
- `free_pcb_memph`, `init_pte`, `get_symrg_byid` for id 30, the sequential device, the branches without MLQ scheduling, `mem.c`, `paging.c`.
- Loader input, configuration, printing, thread creation, the system call table.
