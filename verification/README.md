# Proofs about a paging and scheduling simulator

The repository simulates a small operating system: CPU threads that share a multi-level queue
scheduler, a loader, a timer that holds all of them in lockstep, a user-memory allocator with
free lists and a break, five-level page tables, and one RAM device cut into frames. This project
models those four stateful cores in Dafny and proves what every run of them keeps.

`dafny verify dfyconfig.toml` checks everything.

## How the project is laid out

| part | specification and theorems | the code in place |
|---|---|---|
| user memory | `FreeList`, `UserHeap`, `HeapCalls` | `FreeRegions.VmArea`, `UserMemory.AddressSpace` |
| page tables | `Words`, `Pte`, `PageTable`, `Paging`, `PageMap`, `Accounting` | `PageWalk.PageTables` |
| frames of all processes | `Memory`, `FrameOwners`, `Mapping`, `Backing`, `ByteCounts` | `RamFrames.RamDevice`, `UserMemory.AddressSpace` |
| scheduler | `Scheduling`, `Starvation`, `Slots` | `Queues.Queue`, `MlqScheduler.Scheduler` |
| CPUs and loader | `Dispatch`, `Ownership`, `Quantum`, `Loader` | `CpuLoops.Machine` |
| barrier | `Timer`, `TimerProgress` | `Barrier.Slots` |
| all threads together | `Ticks`, `Pace`, `LoadTimes`, `Liveness` | |

The classes in the last column change their fields step by step as the C code does. Each of their
methods is proved to equal one function of the specification, and the theorems are about runs of
those functions: sequences of operations, or interleavings of thread steps. `EveryCallRuns`,
`EveryStepRuns` and `EveryTurnRuns` say that the hypotheses `CanRun` and `CanTurns` of these
theorems exclude no such run.

## Where the code and its intent disagree

- **The list head is overwritten.** When the break moves, `inc_vma_limit` (`src/mm-vm.c:179-182`)
  replaces the first free node by `[sbrk, vm_end)`, although `src/mm64.c:660-664` says that the
  free list holds only regions that were allocated and freed before. The model has both: a
  parameter `rewrite` is true for the code as written and false for the stated design. The
  overwrite is harmless when the list is empty at that moment, or when all its nodes are empty and
  the break reaches `vm_end`. `UserHeap.RewritingOverlaps` gives four allocations after which two
  live regions overlap. `UserHeap.DesignSound` is the theorem for the design. The class
  `UserMemory.AddressSpace` is the code as written. The frame theorems hold for both.
- **Sizes are truncated to `int`.** `__alloc` takes a 64-bit size and searches the free list for
  its conversion to `int` (`src/libmem.c:130-133`, `src/libmem.c:579`). The model converts as the
  code does. An allocation above 2^31 - 1 that is served from the list harms the heap;
  `UserHeap.TruncationOverruns` shows one.
- **Sums wrap around.** `old_sbrk + size` is a 64-bit sum (`src/libmem.c:151`), so a size near 2^64
  passes the test against `vm_end`; `inc_vma_limit` then rejects the negative increment, and
  `__alloc` goes on regardless and moves the break down. The model wraps as the code does;
  `UserHeap.WrappingFreesLiveBytes` and `Mapping.LoweredRun` are such runs.
- These three are all that can go wrong with the heap: `UserHeap.Harmless` excludes exactly them,
  by tests that a caller can make before the call, and `UserHeap.AllocSoundExactly` and
  `UserHeap.RunSoundExactly` prove that the heap stays sound if and only if every allocation is
  harmless.
- **A failed mapping goes unnoticed.** `vm_map_ram` returns an unsigned `addr_t`, so the test at
  `src/mm-vm.c:173` is never true, and `__sys_memmap` drops the result (`src/sys_mem.c:76-78`).
  The break moves even when RAM is exhausted, and the frames popped by the failing
  `alloc_pages_range` are not returned; the model collects them in `lost`. `Mapping.ShortRun` is a
  run that ends with three pages below the break and none mapped. A step is `Short` when it has to
  grow the break (`Grows`) by more pages than frames are free, the guard that `alloc_pages_range`
  runs into (`Mapping.ShortMeansNeeded`). Mapping completeness, frame conservation and the order of
  the page list hold at every point of a run if and only if no step is short or lowers the break;
  in runs that never lower a break they hold at the end if and only if no step was short.
- **Pages and frames differ in size.** A page has 4096 bytes (`include/mm64.h:8`), while RAM is cut
  into frames of 256 (`include/mm.h:8`, `src/mm-memphy.c:201`). The theorems about frames are about
  frame numbers in page-table entries; a frame number of its own does not give a page 4096 bytes of
  the device.
- **Queues drop silently.** `enqueue` ignores a process when fifty are queued (`src/queue.c:18-22`),
  and a finished process stays in `running_list` (`src/os.c:64-70`). `Ownership.KeptExactly` says
  which steps lose a process, `Ownership.KeptThroughExactly` which runs do,
  `Ownership.NoneLost` that none is lost among fifty, and `Ownership.FiftySecondLost` is a run of
  one CPU and the loader, one turn each per time slot, that loses one of fifty-two.
- **Frame numbers have thirteen bits** in an entry: `Pte.FpnRoundTrip` is an equivalence, and
  frame exclusivity is stated for RAM of at most 2^21 bytes.

## Assumptions about callers

A region index is below 30 (`__alloc` would write behind the table, `__free` of 30 would follow a
null pointer); a size is any 64-bit number; RAM has at least two frames; priorities are below
140; every process number is used once, as the index of the process in the configuration. Whether the memory system call finds
its caller in the running list is the parameter `listed`. A process is a number and a null pointer
is `None`. Counters are unbounded.

## Model

| member | source | states |
|---|---|---|
| FreeList.InsertedOrdered | src/libmem.c:54-75 | sorted insertion keeps the order invariant although zero-size dummies may stand anywhere |
| FreeList.EnlistedCount | src/libmem.c:77-96 | enlisting adds exactly the bytes of the region to the free bytes, whatever is merged |
| FreeList.EnlistedOrdered | src/libmem.c:77-96 | enlisting a disjoint region keeps the order |
| FreeList.EnlistedCanonical | src/libmem.c:35-96 | from a sorted disjoint list without empty nodes, enlisting yields maximal runs, each ending strictly below the next, of old bytes plus new ones |
| FreeList.CanonicalUnique | src/libmem.c:35-51 | the list of maximal runs is the only one with its bytes |
| FreeList.TakenCount | src/libmem.c:593-624 | taking a fit removes exactly the bytes handed out, in all three ways a node is used up |
| FreeList.TakenOrdered | src/libmem.c:593-624 | the order survives the node clone and the zero-size dummy |
| FreeList.TakenShape | src/libmem.c:600-624 | a used-up node disappears unless it is the last, which stays empty where it ended; the end of the list does not move and no other node changes |
| FreeList.FirstFitIsLowest | src/libmem.c:579-637 | on an ordered list first fit is lowest-address fit |
| FreeList.ListRunOrdered | src/libmem.c:35-96 | the order holds after every run of enlistings and requests |
| FreeList.FitsLowestOrNone | src/libmem.c:579-637 | in every reachable list a request is served at the lowest address possible and refused exactly when no node is long enough |
| UserHeap.AllocBreak | src/libmem.c:143-180 | for every 64-bit size the break stays a multiple of 4096 and at most 2^21; it moves down exactly when the sum wraps around, and where it grows its two updates agree |
| UserHeap.AllocSoundExactly | src/libmem.c:119-198 | an allocation of any 64-bit size keeps live, free and lost regions a tiling of [0, sbrk) and the list ordered if and only if it overwrites no useful list head, is not served from the list by a truncated size, and its sum with the break does not wrap around |
| UserHeap.ReleaseSound | src/libmem.c:207-243 | releasing a region keeps the heap sound |
| HeapCalls.ReleaseMeans | src/libmem.c:207-243 | a release is refused, changing nothing, exactly when the index is outside the table or the entry is (0, 0); otherwise the entry is cleared, its bytes become free, and everything else stays |
| HeapCalls.ReleaseInRun | src/libmem.c:207-243 | in every harmless run a release frees exactly the bytes of the register's live region, and a second one is refused |
| HeapCalls.AllocMeans | src/libmem.c:119-198 | the answer is the start of the region the register now has; there is one exactly when a node fits or the break may move; without one nothing has changed, and no other register ever changes |
| HeapCalls.AllocGivesBytes | src/libmem.c:128-190 | a harmless call answers the address of `size` bytes that no live region had before and no other live region or free node has afterwards |
| HeapCalls.AnswerStays | src/libmem.c:128-190 | in every harmless run the address answered stays the start of the register's region, of the size asked for, until an operation on the same register |
| UserHeap.RunSoundExactly | src/mm-vm.c:144-190 | a run is sound throughout if and only if each of its allocations is harmless |
| UserHeap.RewritingOverlaps | src/mm-vm.c:179-182 | a run of four allocations of the code as written ends with live regions [9096, 19096) and [12288, 2092288) |
| UserHeap.TruncationOverruns | src/libmem.c:130-133 | a run in which a size of 2^32 + 100 gets a region that starts in a 3796-byte free node |
| UserHeap.WrappingFreesLiveBytes | src/libmem.c:145-192 | a run in which a size of 2^64 - 5000 moves the break down to 4096 and frees 904 bytes of the live region [0, 8192) |
| UserHeap.FitsUnsigned | src/libmem.c:594 | for node bounds below 2^63 the comparison on wrapping sums is the one on mathematical sums |
| UserHeap.DesignSound | src/mm64.c:660-664 | without the overwrite every run with sizes that fit an int keeps the tiling, the order and the break |
| UserHeap.NothingLost | src/libmem.c:119-243 | when allocations bind empty table entries, live and free regions alone cover each byte of [0, sbrk) once and no other |
| UserHeap.TiledDisjoint | src/libmem.c:128-133 | under the tiling no two live regions, and no live and free region, share a byte |
| FreeRegions.VmArea.CoalesceFreergList | src/libmem.c:35-51 | the loop over the list terminates and leaves the coalesced list |
| FreeRegions.VmArea.InsertSortedFreerg | src/libmem.c:54-75 | the walk finds the sorted position |
| FreeRegions.VmArea.EnlistVmFreergList | src/libmem.c:77-96 | an empty region is refused with -1, any other is inserted and coalesced |
| FreeRegions.VmArea.GetFreeVmrgArea | src/libmem.c:579-637 | the walk serves the first fitting node and nothing else changes; without one the list stays |
| FreeRegions.VmArea.RewriteHead | src/mm-vm.c:179-182 | the head of a non-empty list becomes [sbrk, vm_end) |
| FreeRegions.ValidateOverlap | src/mm-vm.c:101-136 | 0 exactly when the planned area is non-empty, the caller's area exists, and no other area overlaps |
| FreeRegions.OverlapSharesByte | include/mm.h:99 | OVERLAP of non-empty areas means that they share a byte |
| Pte.MaskValues | include/mm.h:18-46 | the 32-bit masks have the values the layout needs |
| Pte.SetFpnDecodes | src/mm64.c:336-339 | the entry is present, not swapped, decodes to the low 13 bits of the frame, and keeps its other bits |
| Pte.FpnRoundTrip | include/mm.h:51 | decoding gives the frame back if and only if it is below 8192 |
| Pte.SetSwapDecodes | src/mm64.c:305-309 | present and swapped; type and offset decode exactly when they fit their fields |
| Pte.SetSwapType | include/mm.h:75 | the type decodes to its low five bits |
| Pte.SetSwapOffset | include/mm.h:75 | the offset decodes to its low 21 bits |
| Pte.Mask64Values | include/mm64.h:59-63 | the five address masks |
| Pte.PdIndices | src/mm64.c:91-103 | the five indices are the nine-bit fields of the page number |
| Pte.SplitRecombines | src/mm64.c:275-280 | gluing the five indices gives the low 45 bits of the page number back |
| Pte.PathInjective | src/mm64.c:275-280 | two page numbers have the same indices exactly when their low 45 bits agree |
| PageTable.BuiltExtends | src/mm64.c:194-262 | a walk keeps every table, link and entry, and its path exists afterwards |
| PageTable.UniquePath | src/mm64.c:194-262 | no table is reachable along two index paths |
| PageTable.WalkedKeepsEntries | src/mm64.c:167-263 | a walk changes no entry however many tables it allocates |
| PageTable.StoredChangesOne | src/mm64.c:319-389 | a store through the walked pointer changes the entry of its own path and no other |
| Paging.TreeRefinesFlatMap | src/mm64.c:167-389 | after every run of calls the lazily allocated tree holds what a flat map from path to entry holds |
| PageMap.PagesRefined | src/mm64.c:289-389 | after every run of calls `pte_get_entry` returns for every page number what a flat map over 45-bit pages says, and its conversion to 32 bits loses nothing |
| PageMap.FrameReadBack | src/mm64.c:319-366 | set then get: the page is present and decodes to the frame exactly when it is below 8192; every other page reads as before |
| PageMap.SwapReadBack | src/mm64.c:289-312 | set, then get: present, swapped, with the low bits of type and offset; every other page reads as before |
| PageMap.WholeReadBack | src/mm64.c:374-389 | set, then get: the low 32 bits of the value; every other page reads as before |
| PageMap.ReadsChangeNothing | src/mm64.c:350-367 | reading a page, or counting its levels, changes what no page reads |
| PageMap.RunFlags | src/mm64.c:414-444 | the `used_*` flags are the indices of the pages counted so far |
| PageMap.ByteCount | src/mm64.c:414-446 | the byte counter is 4096 times the distinct prefixes pgn >> 9k, k = 1..4, of the pages walked, plus 8 for every distinct index of the pages counted |
| ByteCounts.ByteCounter | src/mm64.c:484-499 | in a run that is never short and never lowers a break, the byte counter of a process with n pages is 0 for n = 0 and else 4 * 4096 + 8 (n + 4) |
| PageMap.StorageTotal | src/mm64.c:197-258 | `g_total_storage_bytes`, raised by 4096 for every PGD and for every empty word a walk meets, is 4096 times all tables of all processes |
| Accounting.AncestorIsPrefix | src/mm64.c:91-103 | pages agree in pgn >> 9k exactly when their index paths agree that far |
| Accounting.TableCount | src/mm64.c:197-258 | the number of non-root tables is the number of distinct prefixes walked |
| PageWalk.PageTables.constructor | src/mm64.c:626-686 | a fresh PGD, zero counters, and its bytes added to the global count |
| PageWalk.PageTables.NextTable | src/mm64.c:197-212 | one level: link followed or table allocated, 4096 bytes counted locally and globally |
| PageWalk.PageTables.PteTravelling | src/mm64.c:167-263 | the unrolled four levels are the walk of the specification and end in the page's PT |
| PageWalk.PageTables.SetFrame | src/mm64.c:319-342 | the three macro assignments are one store of the specification |
| PageWalk.PageTables.SetSwapped | src/mm64.c:289-312 | the four macro assignments are one store of the specification |
| PageWalk.PageTables.SetWhole | src/mm64.c:374-389 | stores the 32-bit value |
| PageWalk.PageTables.GetEntry | src/mm64.c:350-367 | returns the low 32 bits of the page's entry, which the walk does not change |
| PageWalk.PageTables.CountLevels | src/mm64.c:414-446 | the five tests set the flags of the page and keep byte_counter = 4096 n + 8 u |
| RamFrames.RamDevice.Format | src/mm-memphy.c:125-151 | the list is 0, 1, ..., maxsz/pagesz - 1, or -1 and no change |
| RamFrames.RamDevice.GetFreefp | src/mm-memphy.c:153-169 | pops the head, or refuses |
| FrameOwners.PutExactly | src/mm-memphy.c:179-190 | putting a frame back, the step of `RamDevice.PutFreefp`, keeps the frames exclusive if and only if it is neither mapped nor free |
| FrameOwners.LostMayReturn | src/mm64.c:541-550 | a frame that a failed `alloc_pages_range` dropped may be put back at any point of any run |
| RamFrames.RamDevice.AllocPagesRange | src/mm64.c:509-553 | takes the first frames, newest first, or exhausts the list and returns nothing |
| Memory.PagePathInjective | src/mm64.c:484-499 | distinct pages of an area have distinct paths |
| Memory.MappedPages | src/mm64.c:484-499 | mapping a range gives page base + i the i-th frame of the list |
| Memory.MappedOthers | src/mm64.c:484-499 | and changes no entry at any other path |
| Memory.RangeMapping | src/mm64.c:455-553 | with n free frames, page base + i gets the (n-1-i)-th of them and every entry at any other path stays |
| UserMemory.AddressSpace.constructor | src/mm64.c:626-686 | an empty heap, empty tables, no tracked pages |
| UserMemory.AddressSpace.VmapPageRange | src/mm64.c:455-501 | the loop maps the specification's range, stops early with the frame list, and puts the pages in reverse order before the tracked ones |
| UserMemory.AddressSpace.VmMapRam | src/mm64.c:565-595 | rejects bad ranges unchanged, maps and returns the mapped region when frames suffice, otherwise empties the free list and maps nothing |
| UserMemory.AddressSpace.IncVmaLimit | src/mm-vm.c:144-190 | break, frames, tables and tracked pages after any 64-bit increment, converted to int, also when mapping fails; -1 exactly when the planned area does not end above the break |
| UserMemory.AddressSpace.Alloc | src/libmem.c:119-198 | address and whole new state of the process and the device for every 64-bit size |
| UserMemory.AddressSpace.Free | src/libmem.c:207-243 | result and new state; nothing is unmapped |
| UserMemory.AddressSpace.FindVictimPage | src/libmem.c:539-571 | unlinks and returns the last tracked page |
| Backing.TrackedExactly | src/mm64.c:710-719 | after a run that never lowers a break every process's page list holds exactly the pages below its break, newest first, if and only if no growth exceeded the free frames |
| Backing.TrackedThroughExactly | src/mm64.c:710-719 | for any sizes, the page lists are so at every point of a run if and only if no growth exceeds the free frames and no allocation lowers a break |
| Backing.VictimsInOrder | src/libmem.c:539-571 | then victims leave in the order in which the pages were mapped: 0, 1, 2, ... |
| UserMemory.AloneAmongOthers | src/mm64.c:509-595 | a growth changes its own process and the device, no other process |
| FrameOwners.AfterConserved | src/mm64.c:509-595 | every step, for any size, keeps each frame in exactly one place: one present entry, the free list, or lost (dropped by a failed allocation or by mapping its page again) |
| FrameOwners.EveryCallRuns | src/libmem.c:119-243 | from the empty system every run can be continued by every allocation, release and load |
| FrameOwners.RunQuiet | src/mm64.c:455-501 | no run makes an entry outside the pages of the vm area |
| FrameOwners.FrameExclusive | src/mm-memphy.c:125-169 | for RAM of at most 2^21 bytes, in every run by any number of processes, past exhaustion too, no frame is decoded from two present entries along any paths, or from one and free |
| Mapping.ShortMeansNeeded | src/mm64.c:532-550 | the guard tested before a growth says exactly when `alloc_pages_range` runs out of frames |
| Mapping.MappingComplete | src/mm-vm.c:144-190 | after a run that never lowers a break the present entries of every process, along any path, are exactly those of pages 0..sbrk/4096-1 if and only if no growth exceeded the free frames |
| Mapping.MappedThroughExactly | src/mm-vm.c:144-190 | for any sizes, they are so at every point of a run if and only if no growth exceeds the free frames and no allocation lowers a break |
| Mapping.LoweredRun | src/libmem.c:145-180 | a run after which page 1 is present above a break of 4096 |
| Mapping.ShortRun | src/mm-vm.c:172-177 | a run on two frames that moves the break by three pages, maps nothing and drops both frames |
| Mapping.FrameConservation | src/mm64.c:509-595 | in runs that never lower a break the pages below all breaks plus the free frames number maxsz/256 if and only if no growth exceeded the free frames |
| Mapping.ConservedThroughExactly | src/mm64.c:509-595 | for any sizes, the sum is the number of frames at every point of a run if and only if no growth exceeds the free frames and no allocation lowers a break |
| Backing.HeapsSoundExactly | src/libmem.c:119-243 | the heaps of all processes are sound at every point of a run if and only if each allocation in it is harmless |
| Backing.HeapOfProcess | src/libmem.c:119-243 | among any other processes, the heap of a process is the one its own calls make |
| Backing.DesignHarmless | src/mm64.c:660-664 | without the overwrite every allocation of a run is harmless when the sizes fit an int |
| Backing.LiveBytesBacked | src/libmem.c:119-198 | in a run that is never short and whose allocations are harmless, every byte of a live region belongs to that region alone and lies in a present page whose frame number no other entry of any process decodes to |
| Queues.PurgedMembers | src/queue.c:43-66 | purging removes the process and nothing else |
| Queues.Queue.Enqueue | src/queue.c:12-25 | appends, unless null or full |
| Queues.Queue.Dequeue | src/queue.c:27-41 | takes the head; the shifted array holds the rest in order |
| Queues.Queue.Purge | src/queue.c:43-66 | removes the first occurrence and closes the gap |
| Scheduling.ScanFacts | src/sched.c:65-75 | the level served is the first ready one with slots left; ready levels before it are refilled, all others keep their slots |
| MlqScheduler.Scheduler.constructor | src/sched.c:37-50 | empty queues, slot i at 140 - i |
| MlqScheduler.Scheduler.GetMlqProc | src/sched.c:59-79 | the loop over levels is the scan of the specification |
| MlqScheduler.Scheduler.PutMlqProc | src/sched.c:81-97 | out of running_list, into its level |
| MlqScheduler.Scheduler.AddMlqProc | src/sched.c:99-113 | into its level |
| Starvation.GetProgress | src/sched.c:59-79 | every call hands a waiting process out, moves it up, or turns the odometer of the lower levels back |
| Starvation.SettingsClosed | src/sched.c:42 | the product of 141 - j over j < q is 141! / (141 - q)! |
| Starvation.NoStarvation | src/sched.c:53-79 | whatever is added and put meanwhile, the process at position k of level q is handed out within 2(k+1) times the product of 141 - j over j < q calls |
| Starvation.WeightedShare | src/sched.c:37-75 | dispatches from level p = (140 - p)(refills + 1) - slot[p], with slot[p] between 0 and 140 - p |
| Starvation.IdleTwice | src/sched.c:65-75 | after a call that returns nothing, the next one returns nothing exactly when no process is ready |
| Ownership.NextSafe | src/os.c:48-142 | every step of a CPU or the loader keeps single ownership, levels and running_list |
| Ownership.OneOwner | src/os.c:48-102 | in every interleaving no process is held twice, or held and ready, or ready outside its priority |
| Ownership.EveryStepRuns | src/os.c:48-148 | from the initial state every run can be continued by every enabled step |
| Ownership.KeptExactly | src/queue.c:12-25 | a step keeps every process if and only if it does not enqueue on a full queue |
| Ownership.KeptThroughExactly | src/queue.c:12-25 | a run keeps every process at every point if and only if no step of it enqueues on a full queue |
| Ownership.FiftyNeverOverflow | src/queue.c:18-22 | with at most fifty processes no step does |
| Ownership.NoneLost | src/sched.c:59-113 | with at most fifty processes one is unfinished if and only if a CPU holds it and running_list has it, or it waits at its own level |
| Ownership.FiftySecondLost | src/queue.c:18-22 | a concrete run of loader and CPU, one turn each per time slot, after which a loaded, unfinished process has no owner |
| Quantum.ExactQuantum | src/os.c:54-99 | a dispatch executes exactly min(time_slot, remaining) instructions before the process is put back or reported finished |
| Quantum.InOrderOnce | src/cpu.c:61-71 | no process held means no time left; instructions execute in order, once each, and all before the process is reported finished |
| Quantum.SchedulerRun | src/os.c:56-77 | the machine drives the scheduler by the events of its steps and nothing else |
| Quantum.NoStarvation | src/os.c:48-102 | the starvation bound for every interleaving of CPUs and loader |
| Slots.NoStarvationInSlots | src/os.c:54-99 | from every reachable state a ready process is dispatched before any CPU completes more time slots than the bound on calls times the longest dispatch |
| Ticks.EveryTurnRuns | src/os.c:48-148 | from the start every run of timer, CPUs and loader can be continued by every turn some thread can take |
| Ticks.MachinePart | src/os.c:54-99 | on the barrier the CPUs and the loader make a run of the machine, and the slots a CPU completes there are the arrivals of its device |
| Ticks.NoStarvationInTicks | src/timer.c:50-84 | in every interleaving of timer, CPUs and loader a ready process is dispatched before _time advances by more than the bound on calls times the longest dispatch, plus one, while some CPU is at work |
| Liveness.WorldNoDeadlock | src/timer.c:21-84 | in every reachable state of timer, CPUs and loader some thread can take a turn that is no spurious wakeup, until the timer has exited |
| Liveness.WorldRoundBound | src/timer.c:21-84 | with n CPUs at most 12(n + 1) + 4 turns other than spurious wakeups pass before _time advances |
| CpuLoops.Machine.constructor | src/os.c:48-53 | the machine before the first step |
| CpuLoops.Machine.CpuTurn | src/os.c:54-99 | one stretch of the CPU loop between critical sections is the machine step |
| CpuLoops.Machine.LoaderTurn | src/os.c:116-145 | one round of the loader: wait while the time slot is before the next start time, else the machine step |
| Pace.StopsAfterLastLoad | src/os.c:80-83 | in every run a CPU that has stopped has done so after the last process was loaded |
| Pace.IdleCpu | src/os.c:80-88 | a CPU without a process at the recheck stops exactly when the loader is done, and else ends its slot and looks again |
| Pace.IdleCpuSpins | src/os.c:56-63 | a CPU that is given no process at the head of its loop ends its slot and stands there again, whether the loader is done or not |
| Pace.LoaderCounts | src/os.c:116-145 | the loader loads one process in each of its rounds and is done after one more |
| Pace.FinishesAfterLastLoad | src/os.c:100-146 | on the barrier a device finishes only after the last process was loaded, that of a CPU only when the CPU has stopped |
| Pace.OneInstructionPerSlot | src/os.c:95-98 | a CPU executes at most one instruction for each slot its device completes |
| Pace.OneInstructionPerTick | src/os.c:95-98 | between any two states a process executes at most one instruction for each tick of _time and one more, whichever CPUs hold it |
| Pace.OneLookPerSlot | src/os.c:54-88 | a CPU calls `get_mlq_proc` at most once for each slot it completes and once more |
| Timer.NextOk | src/timer.c:21-100 | every critical section of timer and devices keeps the barrier invariant |
| Timer.Lockstep | src/timer.c:21-84 | in every interleaving each unfinished device has arrived _time or _time + 1 times |
| Timer.TickWhenAllArrived | src/timer.c:30-51 | _time advances by one and only when every device has arrived or finished |
| Timer.TimeStandsStill | src/timer.c:68-84 | _time cannot change while an unfinished device executes its slot |
| Timer.NoLostWakeup | src/timer.c:31-42 | a blocked timer waits for a device that is neither done nor finished, a blocked device still has done set |
| Timer.NoDeadlock | src/timer.c:24-84 | until the timer has exited some step other than a spurious wakeup is enabled, and it exits only when all devices finished |
| TimerProgress.RoundBound | src/timer.c:24-84 | at most 9n + 4 steps other than spurious wakeups pass between two ticks |
| TimerProgress.TimeEnds | src/timer.c:46-48 | once all devices have finished _time never changes again, and the timer exits within 2n + 3 steps of its own |
| TimerProgress.StopEnds | src/timer.c:24 | a set stop flag ends the loop at its head |
| Barrier.Slots.Arrive | src/timer.c:70-73 | done is set and a timer waiting for this device is woken |
| Barrier.Slots.TryPass | src/timer.c:76-83 | the device goes on exactly when done has been cleared |
| Barrier.Slots.Detach | src/timer.c:95-100 | fsh is set and a waiting timer is woken |
| Barrier.Slots.TimerRound | src/timer.c:21-66 | each critical section of the timer is the machine step |
| Loader.ExactLoadTimes | src/os.c:113-146 | in every interleaving process i is loaded in slot L_i = max(start_i, L_(i-1) + 1), L_0 = start_0, and has been loaded once that slot has passed; the loader detaches only after the last |
| LoadTimes.LoaderTurn | src/os.c:113-146 | every turn of timer, CPUs and loader is a step of the loader's machine on the barrier, or leaves the loader where it is |
| LoadTimes.LoadTimesOnBarrier | src/os.c:113-146 | the same load times in every interleaving of timer, CPUs and loader |

## Left out

- Data movement: `pg_getpage`, `pg_getval`, `pg_setval`, `__read`, `__write` and swapping are unfinished in the source and split addresses by 256-byte pages, so no translation claim holds there.
- `vmap_pgd_memset` (`SYSMEM_MAP_OP`) writes a raw pattern into entries; it and direct system calls for `SYSMEM_INC_OP` are not steps of the machine.
- `free_pcb_memph`, `init_pte`, printing, dumps, configuration and program loading, sequential devices.
- Termination of the whole simulation: an idle CPU never tests `done` (`Pace.IdleCpuSpins`).
- RamFrames.RamDevice.Format: a device with exactly one frame, whose list link the source leaves uninitialised, is excluded by precondition.
- Failing `malloc`, and vm areas other than area 0.
- UserMemory.AddressSpace.VmapPageRange: addresses are numbers, so `addr >> 12` is division by 4096.
- UserMemory.AddressSpace.Alloc: table indices from 30 on, which write behind the table, are excluded by precondition.
- UserMemory.AddressSpace.IncVmaLimit: a break that no int holds is excluded by precondition; `UserHeap.AllocBreak` shows that the break never exceeds 2^21.
- FreeRegions.VmArea.GetFreeVmrgArea: sums of node bounds are mathematical; `UserHeap.FitsUnsigned` says when that is the same, and in harmless runs no node ends above 2^21.
- PageWalk.PageTables.NextTable: a 512-word table is a set of rows in two finite maps (links, entries) rather than an array of its own; the words a process never wrote are 0.
- PageWalk.PageTables.CountLevels: the `used_*` byte arrays are sets of the indices whose byte is 1.
- FreeRegions.VmArea.CoalesceFreergList: the linked list is a sequence that the method reassigns; node addresses and `free` are not modelled.
- Counters are unbounded; their 64-bit wrap-around is not modelled.
- Barrier.Slots.TimerRound: threads are modelled as machine steps, one per critical section, with condition variables as wait states and spurious wakeups; the pthread primitives themselves are not.
- CpuLoops.Machine.CpuTurn: the CPUs run in any interleaving, a superset of those the barrier allows (`Ticks` is the machine on the barrier); instructions are counted, their effects are not executed.
