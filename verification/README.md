# LaminaAtrium: a verified model of the kernel

The system is a teaching operating system. Processes are loaded at configured times, scheduled over
several CPUs by a multi-level queue with slot budgets, held in step by a time-slot barrier, and given
memory by a paging layer that evicts pages to swap first-in-first-out. This project models those
mechanisms and proves what they are for.

| file | modules | models |
|---|---|---|
| Words.dfy, Bits.dfy | Words, Pte, Bits | the mask macros of `bitops.h` and `mm.h`, the 32-bit page table entry |
| Regions.dfy | Wrappers, Regions | symbol table, free-region list and break of one area; the area checks of `mm-vm.c` |
| Paging.dfy, Growth.dfy, Supply.dfy, Memory.dfy | Paging, Growth, Supply, Memory | page faults, eviction, growth, what a request for frames gets, and the four memory instructions, as functions on values |
| Processes.dfy, Replacement.dfy, Flat.dfy, Room.dfy | Processes, Replacement, Flat, Room | runs of many processes over shared devices: conservation, teardown, order of replacement, refinement of flat memory, and amounts of storage under which nothing is refused |
| Findings.dfy | Findings | where the memory code does not meet what one would expect, exactly when, and on which inputs |
| Memphy.dfy, Kernel.dfy, Cpu.dfy | Memphy, Kernel, Cpu | the same kernel code in place: arrays, packed words and lists, every method proved against the functions above; and whole runs of several processes on it |
| PageTable64.dfy | PageTable64 | the five-level page table of the MM64 build |
| Scheduler.dfy, SchedulerImpl.dfy | Queue, Mlq, Sched | ready queues and the multi-level queue scheduler, on values and in place |
| Timer.dfy | Timer | the slot barrier, for any number of devices |
| Os.dfy, Waiting.dfy | Os, Waiting | CPU threads, loader and timer over barrier and scheduler, as an interleaving of atomic steps; how long a process can wait in it |
| Slots.dfy, Loading.dfy | Slots, Loading | what a CPU does in each slot, and when the loader adds each program |
| Progress.dfy | Progress | that every run can still be finished |
| Idle.dfy, SampleRuns.dfy | Idle, SampleRuns | which CPUs still stop once all processes are finished, and a run of either kind |

`dafny verify dfyconfig.toml` checks everything.

## How to read the model

Two layers. Value functions (`GetPage`, `AllocPages`, `Get`, `Do`, ...) say what a kernel call does to
the whole state; lemmas about them carry the system properties. Classes (`MmStruct`, `MemPhy`, `Krnl`,
`Computer`, `ReadyQueue`, `Scheduler`, `Table`) hold the arrays, words and lists the code changes in
place, and each of their methods ends with the abstract state its value function computes.

Machine words are integers and the mask macros are divisions and remainders; sums and casts that can
leave the width of their C types are written out (`Sum`, `ThroughInt`, `Plus`, `FillOffset`). Bits.dfy
shows, for every bit, that the divisions are the masks' meanings. Linked lists are sequences, head
first. Each critical section under a lock is one step, and so is each single access to shared data
outside a lock: `run()` takes four, because nothing but ownership protects `pc`. A wait on a condition
variable is the test that sends the thread to sleep, the signal that rouses it, and the test it makes
then. A memory instruction, which runs under `mmvm_lock`, is one event of a run.

The paging modules describe the build without `MM64`; Regions.dfy covers both builds and
PageTable64.dfy the other one.

The main results: `Flat.PagingImplementsFlatMemory`, `Cpu.Computer.Run`, `Processes.RunKeeps`,
`Replacement.ReplacementIsFifo`, `Supply.AllocPagesExact`, `Processes.TeardownRestoresPools`,
`Room.StorageSuffices`, `Regions.LiveAndFreeTile`, `Regions.ServeIsExactIff`, `PageTable64.Table.Replay`,
`PageTable64.LastUpdateShows`, `Mlq.NoStarvation`, `Mlq.EpochShares`, `Timer.BarrierIsSafe`,
`Timer.NoLostWakeup`, `Timer.TimerStops`, `Os.ShutdownIsComplete`, `Os.OneOwner`, `Slots.QuantaAreWhole`,
`Slots.OneInstructionPerSlot`, `Loading.ProgramsLoadOnTime`, `Progress.EveryRunCanFinish`,
`Waiting.EveryoneIsDispatched`, `Idle.ReachesExitIff`.

### Hypotheses

They are preconditions, or part of a start state.

- Swap slot 0 is not in the pool (`NoSlotZero`): `pg_getpage` reads swap offset 0 as "never swapped"
  (`src/libmem.c:307`). `init_memphy` does put it there; see the findings.
- RAM has at most 2^13 frames and swap at most 2^21 slots, so that their numbers fit the entry, and
  both have at least one: `init_memphy` leaves the list of a smaller device unset.
- In runs (`Legal`): symbol numbers are below 30; an allocation is served from the free list, or grows an
  area that still ends at or below 2^22, or is empty or so large that sums wrap around, and then neither
  moves the limits nor ends past the break; and stores go below the end of the area, which `__write`
  does not compare. Reads may have any offset.
- Tiling of an area (`RunNoOverflow`): no sum of an allocation leaves its type (`Regions.NoOverflow`).
- `krnl->mm` is the caller's own during an operation, a process has the one area `init_mm` makes, and
  devices are random access.
- Scheduler and runs: priorities below 140, and for `Os` at most 50 processes, at least one CPU and a
  positive time slot. `enqueue` drops a process silently when a queue holds 50.
- Teardown is stated for systems that call `free_pcb_memph` once for each process. Nothing in the
  repository calls it: `cpu_routine` only frees the control block.

### Findings

Each has its exact condition and a concrete input.

- Swap slot 0. A served fault keeps memory and bookkeeping exactly if the page is not in slot 0
  (`Paging.GetPageSoundIff`). With slot 0 in the pool a stored 7 is read back as 0
  (`Findings.SlotZeroLosesAByte`).
- Reads outside a region. `__read` compares a 32-bit sum with the end of the region only. A read that
  passes stays in its region exactly if start + offset does not wrap around at 2^32
  (`Findings.ReadConfinedIff`); offset 0xFFFFFF00 from a region at 256 reads the byte at 0, in another
  region (`Findings.ReadWrapsAround`).
- Writes outside a region. `__write` compares nothing, and the bus keeps 22 bits of the address. A store
  changes a byte of its own region exactly if the low 22 bits of the offset are below the region's size
  (`Findings.WriteConfinedIff`), otherwise it may overwrite another one
  (`Findings.WriteHitsNeighbour`). It keeps the area as growth expects it exactly if the low 22 bits of
  its address are below the end of the area (`Findings.StoreKeepsAreaIff`); otherwise the page it maps
  is mapped again by growth and its frame is lost (`Findings.RemappingLosesAFrame`).
- First fit that wraps around. `get_free_vmrg_area` compares `rg_start + size`, an `addr_t` sum with a size
  that is an int, with the end of a node. A node that passes really has a region of that size in it
  exactly if neither leaves its width (`Regions.FitContainsIff`); an allocation or release keeps every
  byte below the break in one region, and hands out what was asked for, exactly under
  `Regions.NoOverflow` (`Regions.ServeIsExactIff`). Two regions of 256 bytes, the second one released,
  then a request for 0xFFFFFF10 bytes and one for 100 leave two live regions with common bytes
  (`Findings.FitWrapsAround`).
- Allocations past the address space. The area stays as growth expects it exactly for the allocations
  `Legal` admits (`Findings.AllocKeepsAreaIff`).
- Filling a large range. `vmap_pgd_memset` of the MM64 build multiplies two ints (`src/mm64.c:325`). Taken
  to wrap around, which C leaves undefined, the fill writes exactly the pages of its range if and only
  if there are at most 2^19 (`PageTable64.FillsItsRangeIff`); one of 2^19 + 1 pages from address 0
  leaves out the last one and writes page 2^45 - 2^19 (`PageTable64.FillWrapsAround`).
- Lost writes. `__write` drops what `pg_setval` returns. A byte is stored exactly if the fault can be
  served (`Memory.SetValExact`, `Paging.CannotServe`); with one frame and one free slot a third
  allocation finds no storage, and a write to its region reports success and stores nothing
  (`Findings.WriteReportsSuccess`).
- Growth that maps nothing. `inc_vma_limit` compares an unsigned result with 0 (`src/mm-vm.c:137`), so
  once the overlap test is passed the limits advance. The new pages are mapped exactly if they do not outnumber the free frames
  and those that pages of the caller can be moved out of, `Supply.Capacity`; otherwise none is mapped
  and all frames found are lost (`Supply.GrowthMapsIff`, `Findings.FailedGrowthLosesAFrame`). After
  teardown the frame pool lacks exactly these (`Processes.TeardownRestoresPools`).
- Fresh memory. A page added by growth holds what its frame held, so it reads as zeros exactly if that
  frame did (`Supply.FreshPageHolds`); a new region that starts with another region's 7 is
  `Findings.GrownPageIsNotZero`. Hence new bytes have any value in `Flat.Instruction`.
- Symbol numbers. The test of `get_symrg_byid` and `__free` lets through exactly one number that names no
  element of the table, 30, and `__alloc` tests nothing, so every number from 30 up writes outside the
  table (`Findings.OutsideTableIff`).
- CPUs that never stop. A CPU whose `get_proc` fails at the head of its loop goes to the next slot
  without looking at `done` (`src/os.c:60-63`). Once every process is finished, a CPU can still stop
  exactly if it has left its loop, or is between its last `put_proc` or `free` and its test of `done`
  while the loader sets `done` without waiting for that CPU (`Idle.ReachesExitIff`); all others turn for
  ever (`Idle.IdlingForever`). `SampleRuns.ShutdownHappens` and `SampleRuns.ShutdownFails` are two
  interleavings of one configuration, one of each kind.

## Model

| member | source | states |
|---|---|---|
| Bits.GetValBits | OS_LaminaAtrium-main/include/mm.h:77 | GETVAL yields the bits under the mask, moved down, and no others, for every mask |
| Bits.SetValBits | OS_LaminaAtrium-main/include/mm.h:76 | SETVAL puts the value's bits under the mask and keeps every other one of the low 32 bits, for every mask |
| Bits.SetBitBits | OS_LaminaAtrium-main/include/mm.h:73 | SETBIT changes one bit |
| Bits.ClrBitBits | OS_LaminaAtrium-main/include/mm.h:74 | CLRBIT clears one bit and, its mask being 32 bits wide, those from 32 up |
| Bits.NBitsIsLog2 | OS_LaminaAtrium-main/include/bitops.h:30-35 | the nested conditionals compute the base-2 logarithm rounded down, for every nonzero 32-bit word |
| Pte.WithFpnDecodes | OS_LaminaAtrium-main/src/mm.c:146-164 | after pte_set_fpn an entry is present, not swapped, and decodes to the frame given, whatever it held |
| Pte.WithSwapDecodes | OS_LaminaAtrium-main/src/mm.c:117-139 | after pte_set_swap it is swapped, not present, and decodes to the type and the offset given |
| Pte.OnlyLastUpdateShows | OS_LaminaAtrium-main/src/mm.c:117-164 | after any interleaving of the two setters only the last call shows, with its frame, or its type and offset, despite overlapping fields |
| Memory.AddressSplit | OS_LaminaAtrium-main/include/mm.h:79-89 | page number and offset rejoin to the low 22 bits of every address, so to the address itself exactly below 2^22 |
| Regions.OverlapIsSharing | OS_LaminaAtrium-main/include/mm.h:100 | for non-empty areas OVERLAP tests whether some byte lies in both |
| Regions.ValidateOverlap | OS_LaminaAtrium-main/src/mm-vm.c:81-111 | accepts exactly the non-empty ranges that overlap no other area |
| Regions.FitContainsIff | OS_LaminaAtrium-main/src/libmem.c:621-624 | a node that passes the fit test has a region of the size asked for in it exactly if the size fits an int unchanged and the sum does not wrap around |
| Regions.CutNodeIsExact | OS_LaminaAtrium-main/src/libmem.c:626-642 | cutting a region leaves all other nodes in place and order, and lowers the free bytes by exactly the size asked for if and only if the sum of the fit test is exact |
| Regions.GiveThenTake | OS_LaminaAtrium-main/src/libmem.c:41-169 | a released region is tried first: the next allocation it is large enough for starts where it started, and the rest of it heads the free list |
| Regions.ExtensionIs | OS_LaminaAtrium-main/src/libmem.c:93-115 | the limits move only for an allocation that no free node fits, the end by its size in whole pages, the break by the size itself under MM64 and by as much as the end otherwise |
| Regions.ServeTiles | OS_LaminaAtrium-main/src/libmem.c:71-169 | each allocation whose sums do not overflow, and each release, keeps every byte below the break in exactly one region, and none above |
| Regions.ServeIsExactIff | OS_LaminaAtrium-main/src/libmem.c:71-169 | the regions still tile [0, sbrk) and the symbol got the size asked for if and only if no sum of the request overflowed |
| Regions.RunTiles | OS_LaminaAtrium-main/src/libmem.c:71-169 | so does every run without such an overflow from the initial area, in both builds |
| Regions.LiveAndFreeTile | OS_LaminaAtrium-main/src/libmem.c:71-169 | in such a run, with allocations going to empty symbols, live and free regions tile [0, sbrk) under MM64, and else miss only rounding tails shorter than a page |
| Regions.TailsAreSmall | OS_LaminaAtrium-main/src/libmem.c:93-115 | each break extension of such a run leaves less than a page uncovered, and nothing under MM64 |
| Paging.EntryChangeMovesHolder | OS_LaminaAtrium-main/src/mm.c:117-164 | moving one page to unused storage keeps storage unshared and frees exactly what the page had |
| Paging.EvictKeeps | OS_LaminaAtrium-main/src/libmem.c:257-295 | eviction, also when it fails after unlinking its victim, keeps every byte of every process and all bookkeeping |
| Paging.GetPageKeeps | OS_LaminaAtrium-main/src/libmem.c:229-326 | a page fault, served or not, changes no byte of any process and keeps frames and slots conserved; when served the page is resident |
| Paging.FaultReplaces | OS_LaminaAtrium-main/src/libmem.c:249-320 | with RAM full the oldest page moves, with its bytes, to the first free slot, and its frame gets the page's bytes or zeros; every table entry, page and list is given |
| Paging.FaultFills | OS_LaminaAtrium-main/src/libmem.c:249-320 | with a frame free the first one of the list is taken and nothing is moved out |
| Paging.GetPageFailsIff | OS_LaminaAtrium-main/src/libmem.c:229-326 | it returns -1 exactly when the page is out of range, or RAM is full and there is no victim or no slot |
| Paging.GetPageSoundIff | OS_LaminaAtrium-main/src/libmem.c:307-314 | a served fault keeps memory and bookkeeping exactly if the page is not in slot 0; otherwise its bytes become zeros and the slot is lost |
| Growth.AllocPagesKeeps | OS_LaminaAtrium-main/src/mm.c:277-346 | collecting frames, with its evictions and also when it fails, changes no byte, and the frames are distinct and were unused |
| Growth.MapRangeKeeps | OS_LaminaAtrium-main/src/mm.c:226-269 | page g + i gets the i-th frame and nothing else changes |
| Growth.MapRamKeeps | OS_LaminaAtrium-main/src/mm.c:357-373 | mapping a range keeps the bytes of all other pages of all processes; it gives the range distinct frames in order, or nothing |
| Growth.IncVmaLimitKeeps | OS_LaminaAtrium-main/src/mm-vm.c:118-145 | raising the limits keeps all bytes below the old end, and the limits move whether or not the mapping succeeded |
| Supply.AllocPagesExact | OS_LaminaAtrium-main/src/mm.c:277-346 | a request succeeds exactly up to the number of free frames plus the smaller of queue length and free slots; it gets the free frames in list order, then those of the oldest pages, and pops just these |
| Supply.GrowthMapsIff | OS_LaminaAtrium-main/src/mm-vm.c:118-145 | growth past the overlap test moves the limits always, maps its pages exactly within that number, and otherwise maps none and drops all frames there were |
| Supply.FreshPageHolds | OS_LaminaAtrium-main/src/mm.c:226-373 | a page added by growth holds what its frame held, so it is zero exactly if that was |
| Memory.GetValExact | OS_LaminaAtrium-main/src/libmem.c:334-365 | for every address: a read returns the byte its low 22 bits name, failing exactly when the fault cannot be served |
| Memory.SetValExact | OS_LaminaAtrium-main/src/libmem.c:373-401 | for every address: a write changes exactly the byte its low 22 bits name, of exactly that process, or nothing when the fault cannot be served |
| Memory.AllocKeeps | OS_LaminaAtrium-main/src/libmem.c:71-126 | __alloc keeps the system sound and every byte processes already have |
| Memory.FreeKeeps | OS_LaminaAtrium-main/src/libmem.c:135-169 | __free changes no byte |
| Memory.ReadKeeps | OS_LaminaAtrium-main/src/libmem.c:411-438 | __read changes no byte and returns the one at the 32-bit sum of start and offset, or -1 exactly if that sum is not below the end of the region or the fault is not served |
| Memory.WriteKeeps | OS_LaminaAtrium-main/src/libmem.c:476-493 | __write changes its target byte if served, and no other byte of any process |
| Memory.PerformKeeps | OS_LaminaAtrium-main/src/libmem.c:71-493 | every instruction keeps the system sound and acts on existing memory as a flat store |
| Processes.BootIsSound | OS_LaminaAtrium-main/src/mm-memphy.c:200-214 | the freshly formatted devices, slot 0 withheld, are a sound start |
| Processes.ExitKeeps | OS_LaminaAtrium-main/src/libmem.c:522-553 | collecting a process returns each of its frames and slots exactly once and touches no other process |
| Processes.RunKeeps | OS_LaminaAtrium-main/src/libmem.c:71-553 | in every reachable state no two pages share storage, every frame is free, mapped or in hand exactly once, every pooled slot free or in use exactly once, and queues hold only resident pages, each once |
| Processes.PagingRefinesFlatMemory | OS_LaminaAtrium-main/src/libmem.c:229-401 | over any interleaving of processes a byte is the last one its process stored there |
| Processes.ReadReturnsLastStored | OS_LaminaAtrium-main/src/libmem.c:334-438 | a served read returns it, however many evictions and reloads came between |
| Processes.UnstarvedRun | OS_LaminaAtrium-main/src/libmem.c:257-320 | while no request for a frame or slot is refused, every resident page is in the replacement queue and no frame is lost |
| Processes.RunHand | OS_LaminaAtrium-main/src/mm.c:277-346 | over every run, the frames in nobody's hands are those before it and one capacity for each growth that asked for more |
| Replacement.GetPageHistory | OS_LaminaAtrium-main/src/libmem.c:249-320 | a fault pops the oldest page exactly if RAM is full and enlists the page it serves |
| Replacement.AllocHistory | OS_LaminaAtrium-main/src/libmem.c:71-126 | a growth pops the oldest pages, as many as it needs or gets to, and enlists its own in order if it succeeds |
| Replacement.ReplacementIsFifo | OS_LaminaAtrium-main/src/libmem.c:561-594 | in every run, the pages popped so far, then those on the queue, oldest first, are the pages enlisted so far, and both records only grow: the k-th page to leave is the k-th that joined |
| Processes.TeardownRestoresPools | OS_LaminaAtrium-main/src/libmem.c:522-553 | after collecting every process the swap pool is a permutation of the initial one, and the frame pool lacks exactly the frames lost, the sum over all growths that asked for more than their capacity; it is a permutation exactly if that is 0, as when no request was refused |
| Flat.StepRefines | OS_LaminaAtrium-main/src/libmem.c:71-553 | each event is a step of a machine with one byte array per process and no paging, with the same read result |
| Flat.PagingImplementsFlatMemory | OS_LaminaAtrium-main/src/libmem.c:71-553 | every run of the paging system is a run of that machine with the same results |
| Room.RamSuffices | OS_LaminaAtrium-main/src/libmem.c:71-438 | no request of a run is refused if the pages asked for in it do not outnumber the frames, for any processes |
| Room.RamServesAll | OS_LaminaAtrium-main/src/libmem.c:71-438 | then every instruction of the run is served in the flat machine it implements |
| Room.SnugCapacity | OS_LaminaAtrium-main/src/mm.c:277-346 | a single process that has lost no frame can grow exactly if the new pages fit in RAM together and all its pages in RAM and swap |
| Room.StorageSuffices | OS_LaminaAtrium-main/src/libmem.c:71-438 | no request of a single process is refused if each growth fits in RAM and all together leave one frame or slot unused |
| Findings.ReadConfinedIff | OS_LaminaAtrium-main/src/libmem.c:425-432 | a read that passes the test stays in its region exactly if start + offset is below 2^32 |
| Findings.ReadWrapsAround | OS_LaminaAtrium-main/src/libmem.c:425-432 | a concrete read that passes it and returns a byte of another region |
| Findings.WriteConfinedIff | OS_LaminaAtrium-main/src/libmem.c:476-493 | over all offsets, a store that changes a byte changes one of its own region exactly if the low 22 bits of the offset are below the region's size |
| Findings.WriteHitsNeighbour | OS_LaminaAtrium-main/src/libmem.c:476-493 | a concrete store that overwrites another region |
| Findings.RemappingLosesAFrame | OS_LaminaAtrium-main/src/libmem.c:476-493 | a concrete store past the area after which growth maps the page again and its frame belongs to nobody |
| Findings.WriteReportsSuccess | OS_LaminaAtrium-main/src/libmem.c:489-492 | three concrete allocations, the last of which finds no storage, and a write to its region that reports success and stores nothing |
| Findings.FailedGrowthLosesAFrame | OS_LaminaAtrium-main/src/mm-vm.c:137-142 | a concrete growth that maps nothing, with a slot free, moves the limits and loses a frame |
| Findings.GrownPageIsNotZero | OS_LaminaAtrium-main/src/mm.c:226-346 | a concrete new region that reads 7 before anything was written to it |
| Findings.OutsideTableIff | OS_LaminaAtrium-main/src/libmem.c:55-169 | for each of the four instructions, exactly when its symbol number reaches outside the table: 30 after the test, and for __alloc, which has none, every number that names no element |
| Findings.FitWrapsAround | OS_LaminaAtrium-main/src/libmem.c:621-642 | five concrete requests after which two live regions share a byte |
| Findings.AllocKeepsAreaIff | OS_LaminaAtrium-main/src/libmem.c:71-126 | for every size, __alloc leaves an area that growth can rely on exactly if the request is one that runs admit |
| Findings.SlotZeroLosesAByte | OS_LaminaAtrium-main/src/libmem.c:307-314 | a concrete run with slot 0 pooled in which a stored byte is read back as 0 |
| Findings.StoreKeepsAreaIff | OS_LaminaAtrium-main/src/libmem.c:476-493 | for every address, a served store keeps the area sound exactly if the low 22 bits lie below its end |
| Memphy.MemPhy.constructor | OS_LaminaAtrium-main/src/mm-memphy.c:200-214 | a device starts with zeroed storage and, if it has a frame, all frames free in ascending order |
| Memphy.MemPhy.Format | OS_LaminaAtrium-main/src/mm-memphy.c:129-156 | the free list becomes all frame numbers in order, or is untouched when there is no frame |
| Memphy.MemPhy.GetFreeFp | OS_LaminaAtrium-main/src/mm-memphy.c:158-174 | pops the head, or fails exactly on an empty list |
| Memphy.MemPhy.PutFreeFp | OS_LaminaAtrium-main/src/mm-memphy.c:184-195 | pushes at the head |
| Memphy.MemPhy.Read | OS_LaminaAtrium-main/src/mm-memphy.c:73-84 | the stored byte, or failure exactly out of bounds |
| Memphy.MemPhy.Write | OS_LaminaAtrium-main/src/mm-memphy.c:112-123 | changes one byte, or nothing exactly out of bounds |
| Memphy.SwapCpPage | OS_LaminaAtrium-main/src/mm.c:381-422 | the byte loop copies one whole frame onto another; it fails exactly when either lies outside its device, changing nothing |
| Memphy.PagesOfPatch | OS_LaminaAtrium-main/src/mm.c:391-422 | replacing the bytes of one frame replaces one page of the device and no other |
| Kernel.WithFpnIs | OS_LaminaAtrium-main/src/mm.c:146-164 | the packed word then stands for "in that frame" |
| Kernel.WithSwapIs | OS_LaminaAtrium-main/src/mm.c:117-139 | the packed word then stands for "in that slot" |
| Kernel.MmStruct.constructor | OS_LaminaAtrium-main/src/mm.c:429-470 | no page mapped, no symbol live, one empty free region, limits at 0 |
| Kernel.MmStruct.PteGetEntry | OS_LaminaAtrium-main/src/mm.c:172-181 | the stored word, 0 out of range, which decodes to the entry |
| Kernel.MmStruct.PteSetFpn | OS_LaminaAtrium-main/src/mm.c:146-164 | changes one entry, or fails out of range |
| Kernel.MmStruct.PteSetSwap | OS_LaminaAtrium-main/src/mm.c:117-139 | changes one entry, or fails out of range |
| Kernel.MmStruct.EnlistPgnNode | OS_LaminaAtrium-main/src/mm.c:506-515 | puts a page at the head, keeping "pages unlinked so far, then the queue reversed, are the pages enlisted so far" |
| Kernel.MmStruct.FindVictimPage | OS_LaminaAtrium-main/src/libmem.c:561-594 | unlinks the last node, the page enlisted longest ago, keeping the same equation; fails exactly on an empty list |
| Kernel.MmStruct.GetFreeVmrgArea | OS_LaminaAtrium-main/src/libmem.c:602-656 | takes the prefix of the first node that fits and shrinks or unlinks just that node; fails, changing nothing, exactly if none fits |
| Kernel.SoundSystemsFit | OS_LaminaAtrium-main/src/libmem.c:229-326 | every process of a sound system meets what the kernel methods require |
| Kernel.Krnl.EvictForFault | OS_LaminaAtrium-main/src/libmem.c:257-295 | the replacement code of a fault computes the value-level eviction, page copied twice included |
| Kernel.Krnl.BringIn | OS_LaminaAtrium-main/src/libmem.c:307-320 | loading or clearing the frame computes the value-level fill |
| Kernel.Krnl.PgGetPage | OS_LaminaAtrium-main/src/libmem.c:229-326 | pg_getpage on words, lists and storage computes Paging.GetPage |
| Kernel.Krnl.PgGetVal | OS_LaminaAtrium-main/src/libmem.c:334-365 | pg_getval computes Memory.GetVal |
| Kernel.Krnl.PgSetVal | OS_LaminaAtrium-main/src/libmem.c:373-401 | pg_setval computes Memory.SetVal |
| Kernel.Krnl.EvictForAlloc | OS_LaminaAtrium-main/src/mm.c:299-330 | the replacement code of allocation computes the value-level eviction |
| Kernel.Krnl.AllocPagesRange | OS_LaminaAtrium-main/src/mm.c:277-346 | the loop computes Paging.AllocPages, frames dropped on failure included |
| Kernel.Krnl.VmapPageRange | OS_LaminaAtrium-main/src/mm.c:226-269 | the loop maps as many pages as there are frames |
| Kernel.Krnl.VmMapRam | OS_LaminaAtrium-main/src/mm.c:357-373 | vm_map_ram computes Growth.MapRam |
| Kernel.Krnl.IncVmaLimit | OS_LaminaAtrium-main/src/mm-vm.c:118-145 | inc_vma_limit computes Growth.IncVmaLimit and fails exactly if the aligned increment is 0 or the new range wraps around |
| Kernel.Krnl.AllocAtBreak | OS_LaminaAtrium-main/src/libmem.c:86-125 | the part of __alloc for a request that fits no free node computes Memory.DoAlloc |
| Kernel.Krnl.Alloc | OS_LaminaAtrium-main/src/libmem.c:71-126 | __alloc computes Memory.DoAlloc and returns the start of the region |
| Kernel.Krnl.Free | OS_LaminaAtrium-main/src/libmem.c:135-169 | __free empties the symbol, puts its region, if not empty, at the head of the free list and changes nothing else; it fails exactly for unknown or empty symbols, changing nothing, and computes Memory.DoFree |
| Kernel.Krnl.Read | OS_LaminaAtrium-main/src/libmem.c:411-438 | __read computes Memory.DoRead, the sum of start and offset taken as a 32-bit value |
| Kernel.Krnl.Write | OS_LaminaAtrium-main/src/libmem.c:476-493 | __write computes Memory.DoWrite and its result, success for every known symbol, stored or not |
| Kernel.Krnl.FreePcbMemph | OS_LaminaAtrium-main/src/libmem.c:522-553 | the loop gives back every frame and slot of the caller, newest page first |
| Kernel.Boot | OS_LaminaAtrium-main/src/os.c:229-252 | fresh devices and a fresh process make a kernel that meets what its methods require |
| Cpu.Dispatch | OS_LaminaAtrium-main/src/cpu.c:78-115 | the memory instructions of run() compute Memory.Perform on the process the kernel points at, with the read's result |
| Cpu.Computer.Point | OS_LaminaAtrium-main/src/cpu.c:69-71 | any process can have krnl->mm pointed at its memory, which changes nothing of the system |
| Cpu.Computer.OthersStay | OS_LaminaAtrium-main/src/cpu.c:69-71 | what one process does to its memory leaves the memory of all others as it was |
| Cpu.Computer.Spawn | OS_LaminaAtrium-main/src/os.c:125-134 | a fresh memory for a new process is the value-level step |
| Cpu.Computer.Exit | OS_LaminaAtrium-main/src/libmem.c:522-553 | giving back a process's storage is the value-level step |
| Cpu.Computer.Exec | OS_LaminaAtrium-main/src/cpu.c:61-115 | a memory instruction of any of the processes is the value-level step, with the same result |
| Cpu.Computer.Run | OS_LaminaAtrium-main/src/cpu.c:61-115 | any sequence of such events, in place, ends in the state Processes.Run computes, and is a run of the flat machine with the results the reads returned |
| Cpu.Boot | OS_LaminaAtrium-main/src/os.c:229-252 | fresh devices, slot 0 withheld, are the start state Processes.Boot |
| PageTable64.IndicesRejoin | OS_LaminaAtrium-main/src/mm64.c:71-101 | the five indices are the base-512 digits of the page number modulo 2^45 |
| PageTable64.IndicesAreInjective | OS_LaminaAtrium-main/src/mm64.c:71-101 | two page numbers have the same index path exactly if they agree in their low 45 bits |
| PageTable64.FilledIs | OS_LaminaAtrium-main/src/mm64.c:324-358 | after a fill of n pages an entry is the pattern if one of the n computed page numbers hits its page, and else what it was |
| PageTable64.FillsItsRangeIff | OS_LaminaAtrium-main/src/mm64.c:324-326 | the pages hit are exactly those of the range if and only if there are at most 2^19 of them |
| PageTable64.FillWrapsAround | OS_LaminaAtrium-main/src/mm64.c:324-326 | a concrete fill that leaves out a page of its range and writes another one |
| PageTable64.LastUpdateShows | OS_LaminaAtrium-main/src/mm64.c:110-360 | after any updates the word of a page is what the last one that touched it wrote: PRESENT and not SWAPPED with the frame, PRESENT and SWAPPED with type and offset, each cut to its field, or the pattern of a fill; 0 if none did |
| PageTable64.NewTableKeeps | OS_LaminaAtrium-main/src/mm64.c:135-156 | hanging a fresh table into an empty slot keeps all entries and keeps every table reached by one slot only |
| PageTable64.WriteKeeps | OS_LaminaAtrium-main/src/mm64.c:158-171 | writing a last-level word changes the entry of exactly one page |
| PageTable64.Table.constructor | OS_LaminaAtrium-main/src/mm64.c:532-541 | a new top directory holds the empty map |
| PageTable64.Table.Walk | OS_LaminaAtrium-main/src/mm64.c:135-158 | the allocating walk ends at the table the indices lead to and changes no entry |
| PageTable64.Table.PteSetFpn | OS_LaminaAtrium-main/src/mm64.c:181-244 | acts on the tables as the update acts on a flat map |
| PageTable64.Table.PteSetSwap | OS_LaminaAtrium-main/src/mm64.c:110-174 | acts on the tables as the update acts on a flat map; PageTable64.LastUpdateShows says what reads back |
| PageTable64.Table.VmapPgdMemset | OS_LaminaAtrium-main/src/mm64.c:306-360 | sets exactly the entries of the page numbers the loop computes to the pattern, products of ints wrapping around |
| PageTable64.Table.PteGetEntry | OS_LaminaAtrium-main/src/mm64.c:252-286 | returns, for every page number, the low 32 bits of what the flat map holds for its low 45 bits, 0 for pages never set |
| PageTable64.Table.Replay | OS_LaminaAtrium-main/src/mm64.c:110-360 | after any sequence of these calls, made one after the other, the tables hold exactly what a flat map given the same updates holds |
| PageTable64.Table.ReadBack | OS_LaminaAtrium-main/src/mm64.c:110-360 | so reads pte_get_entry on the tables, after any sequence of these calls |
| Queue.FirstMin | OS_LaminaAtrium-main/src/queue.c:34-50 | the scan stops at the first of the entries of least prio |
| Queue.EqualPrioIsFifo | OS_LaminaAtrium-main/src/queue.c:27-64 | on a queue of one prio, dequeue is a plain first-in-first-out pop |
| Queue.ReadyQueue.Enqueue | OS_LaminaAtrium-main/src/queue.c:12-25 | appends, or changes nothing for NULL or when 50 are queued |
| Queue.ReadyQueue.Dequeue | OS_LaminaAtrium-main/src/queue.c:27-64 | returns the first of the entries of least prio and closes the gap, or NULL exactly when empty |
| Queue.ReadyQueue.Purge | OS_LaminaAtrium-main/src/queue.c:66-94 | removes the first occurrence and nothing else, or returns NULL changing nothing |
| Mlq.FindReady | OS_LaminaAtrium-main/src/sched.c:69-74 | the lowest level that has a process and budget |
| Mlq.GetIsWorkConserving | OS_LaminaAtrium-main/src/sched.c:58-115 | NULL exactly when all levels are empty; else the oldest process of the lowest level with a process and budget, after a refill if there was none, with only that level popped and charged |
| Mlq.PutKeepsOk | OS_LaminaAtrium-main/src/sched.c:117-141 | putting or adding a process keeps level i for prio i and moves nobody who waits |
| Mlq.PhiIsBounded | OS_LaminaAtrium-main/src/sched.c:58-115 | at most 19738 dispatches of other levels can come before one of a given level |
| Mlq.GetLowersPhi | OS_LaminaAtrium-main/src/sched.c:58-115 | each dispatch of another level lowers that number |
| Mlq.NoStarvation | OS_LaminaAtrium-main/src/sched.c:58-141 | a process with k before it on its level is returned within (k + 1) * 19739 calls, whatever is put or added meanwhile |
| Mlq.EpochShares | OS_LaminaAtrium-main/src/sched.c:69-107 | dispatches of level i since the last refill plus its budget are 140 - i in every reachable state, and all 140 - i are used if it has a process at the next refill |
| Sched.Scheduler.constructor | OS_LaminaAtrium-main/src/sched.c:37-50 | empty levels with budgets 140 - i |
| Sched.Scheduler.FindQueue | OS_LaminaAtrium-main/src/sched.c:69-74 | the search loop finds Mlq.FindReady, or -1 |
| Sched.Scheduler.HasProcess | OS_LaminaAtrium-main/src/sched.c:78-84 | true exactly if some level is not empty |
| Sched.Scheduler.GetMlqProc | OS_LaminaAtrium-main/src/sched.c:58-115 | get_mlq_proc on the global arrays computes Mlq.Get |
| Sched.Scheduler.PutMlqProc | OS_LaminaAtrium-main/src/sched.c:117-141 | put_mlq_proc and add_mlq_proc compute Mlq.Put |
| Timer.DoKeepsOk | OS_LaminaAtrium-main/src/timer.c:20-92 | what every step of timer and devices keeps about flags, slots and the timer's position |
| Timer.BarrierIsSafe | OS_LaminaAtrium-main/src/timer.c:20-92 | no device is in a slot before every other one has finished the slot before or detached, and attached devices are at most one slot apart, for any number of devices and any interleaving |
| Timer.NoLostWakeup | OS_LaminaAtrium-main/src/timer.c:20-92 | in every reachable state nobody sleeps on a condition that has come true, and while a device is attached the timer is in its loop and some thread is awake with a step to make |
| Timer.TimerCannotSpin | OS_LaminaAtrium-main/src/timer.c:20-58 | while all attached devices are in next_slot, the timer can make only a bounded number of moves |
| Timer.TimerStops | OS_LaminaAtrium-main/src/timer.c:20-58 | once every device is detached, wherever that finds the timer, it leaves its loop by itself after a number of its own moves that is given, at most 4n + 5, and not before |
| Timer.StopTimerStops | OS_LaminaAtrium-main/src/timer.c:119-121 | stop_timer makes it leave at the next head of its loop, and no later than it would without |
| Os.FetchKeeps | OS_LaminaAtrium-main/src/os.c:56-77 | a call of get_proc keeps all of the invariant |
| Os.ExecuteKeeps | OS_LaminaAtrium-main/src/cpu.c:61-75 | the increment in run() ends with pc one higher and exactly instruction pc executed, though pc was read twice before without a lock, because the CPU owns the process |
| Os.AddKeeps | OS_LaminaAtrium-main/src/os.c:122-140 | loading a process puts it in one place, its level |
| Os.EnqueueIsExact | OS_LaminaAtrium-main/src/queue.c:12-25 | with at most 50 processes no ready level ever drops one |
| Os.LoaderBarrierKeeps | OS_LaminaAtrium-main/src/os.c:140-145 | once the loader has passed a slot, no CPU is still deciding on what it saw before |
| Os.RunKeeps | OS_LaminaAtrium-main/src/os.c:48-147 | ownership, execution and shutdown invariants hold in every reachable state |
| Os.ShutdownIsComplete | OS_LaminaAtrium-main/src/os.c:48-147 | once every CPU has left its loop, every configured process has been loaded and has executed all of its instructions once and in order, over all interleavings |
| Os.OneOwner | OS_LaminaAtrium-main/src/os.c:54-98 | a loaded unfinished process is at one position of the ready level of its prio or on one CPU, never both; its instructions run once each in order, at most a time slot of them per dispatch |
| Slots.QuantaAreWhole | OS_LaminaAtrium-main/src/os.c:54-98 | in every reachable state the instructions a process on a CPU has executed since it was dispatched and those it has left make a whole time slot while it is unfinished; it is put back exactly after a whole slot of them and taken off as finished exactly when its code is executed, at the head of the loop |
| Slots.OneInstructionPerSlot | OS_LaminaAtrium-main/src/os.c:54-98 | over every run a CPU executes exactly one instruction in each slot in which it has a process with code, so never more than there were slots |
| Slots.StopsIff | OS_LaminaAtrium-main/src/os.c:80-84 | a CPU leaves its loop exactly when it looks at done with no process, and done is set |
| Slots.IdlesOnlyWhenEmpty | OS_LaminaAtrium-main/src/os.c:54-90 | a CPU ends a slot with no process only if get_proc, in that slot, found every queue empty |
| Loading.ProgramsLoadOnTime | OS_LaminaAtrium-main/src/os.c:115-142 | over every run, programs are added in order, each in the first slot it can be: its start slot, or the one after its predecessor's if that is later |
| Loading.LoaderLeavesTheSlot | OS_LaminaAtrium-main/src/os.c:115-145 | in every reachable state with the loader at the head of its loop, two of its steps are possible and take it into next_slot or past detach_event |
| Progress.EveryRunCanFinish | OS_LaminaAtrium-main/src/os.c:48-147 | after every run there is a continuation in which every program is loaded and executes all of its code, once and in order, and the loader sets done and detaches |
| Waiting.RunIsCalls | OS_LaminaAtrium-main/src/os.c:54-147 | a run puts the scheduler through the calls its steps make and nothing else, and dispatches a process when a call returns it |
| Waiting.EveryoneIsDispatched | OS_LaminaAtrium-main/src/os.c:54-147 | in every reachable state a process with k others before it on its level, k less than the number of programs, is dispatched within (k + 1) * 19739 calls of get_proc, over all interleavings |
| Idle.IdlingForever | OS_LaminaAtrium-main/src/os.c:54-63 | once every process is finished, a CPU that idles does so in every continuation |
| Idle.CannotExitEver | OS_LaminaAtrium-main/src/os.c:54-101 | a CPU that cannot stop now cannot later |
| Idle.LoaderStaysOut | OS_LaminaAtrium-main/src/timer.c:47-52 | while a CPU is awake the timer does not let a waiting loader into its next slot |
| Idle.ReachesExitIff | OS_LaminaAtrium-main/src/os.c:48-147 | once every process is finished, some continuation lets a CPU stop exactly if it is out of its loop, or on its way to the test of done while the loader sets done without waiting for it |
| SampleRuns.ShutdownHappens | OS_LaminaAtrium-main/src/os.c:48-147 | a run in which every CPU leaves its loop |
| SampleRuns.ShutdownFails | OS_LaminaAtrium-main/src/os.c:48-147 | a run of the same configuration after which the CPU stops in no continuation |

## Left out

- Processes.PagingRefinesFlatMemory: speaks of the bytes below the end of the area at the start of the run, because bytes added later start with what their frames held.
- Memory.AllocKeeps: excludes allocations that move the area past 2^22 or end past a break that did not move; Findings.AllocKeepsAreaIff says that just these break it.
- Memory.WriteKeeps: excludes stores past the end of the area; Findings.StoreKeepsAreaIff says that just these break it.
- Memory.PerformKeeps: excludes the same allocations and stores.
- Kernel.Krnl.Alloc: excludes allocations that move the area past 2^22, whose pages are outside the page table; Findings.AllocKeepsAreaIff.
- Kernel.Boot: devices of at least a page, because `init_memphy` leaves the list of a smaller one unset.
- PageTable64.FillsItsRangeIff: takes the product of two ints to wrap around where C leaves it undefined.
- Timer.NoLostWakeup: says that some thread can move, not that every thread eventually does.
- Progress.EveryRunCanFinish: says that every run can be continued to the end, not that every fair scheduling of the threads gets there.
- Os.ShutdownIsComplete: does not claim that the CPUs leave their loops; Idle.ReachesExitIff says which still can.
- GENMASK is not computed; masks are given by the lowest bit and the width they cover.
- Several areas per process: `init_mm` makes one and nothing adds another, so `get_vma_by_num` is not modelled; the overlap check is.
- `mem.c` and `paging.c`: stubs that allocate and translate nothing.
- `loader.c`, `read_config` and thread creation in `main`: the loaded programs and the configuration are inputs.
- The raw SYSCALL instruction, which reaches SYSMEM_IO_WRITE, SYSMEM_SWP_OP and SYSMEM_INC_OP with any argument: it is not an event of runs, and the memory results do not hold of a program that uses it.
- Output (`print_*`, `MEMPHY_dump`, IODUMP) and the system call table: `syscall(..., 17, ...)` is a direct call of the operation it selects.
- `sys_killall`, `running_list`: the list is only appended to until it is full.
- Sequential devices: `MEMPHY_seq_read` and `MEMPHY_seq_write` always fail when selected.
- `pte_set_entry`, `init_pte`, the 32-bit `vmap_pgd_memset` and the scheduler without MLQ_SCHED: not used by the paths modelled.
- Byte-level paging on the five-level table, and CPUs sharing `krnl->mm` in the middle of an operation.
- `malloc` failure and uninitialised memory; the MM64 `init_mm` leaves the symbol table and the replacement list uninitialised, so regions start from the other build's `init_mm`.
- Aliasing between list nodes: `vm_freerg_list`, `fifo_pgn` and `free_fp_list` are sequences, so relinking a node is an update of the sequence.
