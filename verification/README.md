# OS/161 paging kernel: verified model

A Dafny model of an OS/161 kernel with demand paging: the virtual memory system first, and beside it the
thread system, its synchronization primitives, the process table, the exit/wait hand-off and the argument
vector of a new program. `dafny verify dfyconfig.toml` checks the whole project.

**Virtual memory.** Five structures have to agree: the coremap, the page tables, the swap file with its bitmap,
the TLB, and the contents of pages in RAM, in swap and in the executable. `Paging` gives each operation as a
function on one record of all five; `PagingInvariant` says how they agree; `PagingProofs`, `PagingPhases` and
`PagingLifecycle` show that faults, the phases of faults that sleep, evictions, context switches, creation and
destruction of address spaces and kernel allocations keep it; `PagingRuns` puts the steps together into runs and
proves that paging refines a flat memory per process; `PagingGuarantees` reads off what this means for each table,
and `PagingStats` treats the shutdown statistics. `Kernel`, with the classes of `Coremap`, `Tlb` and `Swap`, is the
same system as it updates its tables in place. Its methods for a whole fault, a switch, the start and end of an
address space and kernel allocation are each proved to be a step of the runs that keeps the invariant.

**Threads and synchronization.** `Semaphore`, `Monitor` (locks built on semaphores, condition variables) and
`Threads` (run queues, wait channels, zombies, migration) are state machines whose steps are the sections that run
under a spinlock, for any number of threads and CPUs and every interleaving. `Synch` has the sections of locks and
condition variables on their objects (a lock holds a semaphore object), `Scheduler` the thread operations in place,
and `Migration` the balancing loops on queues that nobody else changes meanwhile.

**Processes.** `ProcTable` is the pid table, `ExitWait` the protocol between `sys__exit` and `proc_wait`, `Argv`
the stack image that a new program finds.

Conventions:

- `panic`, a failed `KASSERT` and a loop that does not end are one outcome (`None`, `Stopped` or `Halt`); theorems
  about runs are about runs that go on. Assertions that the kernel should never fail are theorems, not guards.
- Address spaces, processes and threads are numbers. Address space numbers may be reused after destruction.
- The virtual memory part has one CPU and one thread per process. A fault happens in one step or in phases, between
  which it sleeps on the swap file or the executable and other processes run and fault; the frame it has in hand is
  then part of the state. A full coremap needs a frame that the faulting space can give up; otherwise the victim
  loop does not end (`VictimFoundIff`).
- Segments of an executable are ascending and disjoint at page granularity, below the stack, as section "Program
  Header" of the TIS ELF Specification 1.2 demands; the code relies on it without checking.
- The swap file has no more slots than the first managed frame's address, so that a slot number never looks like a
  frame address to the eviction scan.
- `used`, the number of marked slots, has 16 bits and wraps; region sizes have 32 bits and wrap; event counters
  and semaphore counts do not wrap.
- The size of the TLB, of RAM, of the swap file and the top of the stack are parameters.

Where the code does less than its comments or its callers expect, the model follows the code, and a theorem says
exactly when the expectation holds:

- misaligned segments are not loaded correctly beyond their first page (`Elf.TilesIff`, `Elf.MisalignedFails`);
- the tail of a partly file-backed page is not zeroed (`Elf.NoStaleBytesIff`);
- a kernel page request with a full coremap gets frame 0 (`PagingLifecycle.KernelPageIff`);
- the test for free swap space compares bytes with slots and passes when the file is full (`Swap.SwapTestIff`,
  `Swap.FullSwapPasses`);
- the shutdown statistics count refused faults on one side only (`PagingStats.ConsistentIff`,
  `PagingStats.InconsistentRun`);
- pid allocation never tries the slot it used last (`ProcTable.PidIff`, `ProcTable.FreeSlotRefused`);
- pid 100 can be handed out but not looked up (`ProcTable.SearchFindsIff`, `ProcTable.HundredHandedOut`);
- a thread on the migrating CPU's victim list that is its current thread stays behind, so the sender may keep one
  thread more than its share (`Migration.BalancedShares`, `Migration.SenderKeepsOneMore`).

## Model

| member | source | states |
|---|---|---|
| `PagingRuns.StepRefines` | os161/os161-base-2.0.2/kern/vm/addrspace.c:446-559 | Paging refines flat memory: each fault, each phase of a fault that sleeps, eviction, switch, start, end, kernel allocation or kernel write acts on the byte of every writable address of every process as a flat memory would; only a store by that process to that address changes it, and an address without a byte can only receive its first one |
| `PagingRuns.LoadReturnsLastStore` | os161/os161-base-2.0.2/kern/vm/addrspace.c:506-558 | In every run, a load returns the last value its process stored at the address, whatever faults, evictions, swapping, switches and other processes did in between, also while faults of other processes sleep half way |
| `PagingRuns.LoadsAgree` | os161/os161-base-2.0.2/kern/vm/addrspace.c:506-558 | Two loads of a writable address with no store by the process in between return the same value |
| `PagingRuns.LoadReturnsFirstByte` | os161/os161-base-2.0.2/kern/vm/addrspace.c:530-544 | A load before the first store returns zero on the stack and the byte transferred from the executable elsewhere, however often the page was evicted, dropped and loaded again; read-only pages included |
| `PagingRuns.FirstByteIsFileByte` | os161/os161-base-2.0.2/kern/syscall/loadelf.c:284-304 | That first byte is the file byte at offset + (address - segment start), for segments that TilesIff accepts |
| `PagingRuns.LoadReads` | os161/os161-base-2.0.2/kern/vm/addrspace.c:515-556 | A load through the TLB reads the page the process owns at that address; on a read-only page it is the executable's byte even after the page was dropped and reloaded |
| `PagingRuns.RunInv` | os161/os161-base-2.0.2/kern/vm/addrspace.c:446-559 | The whole invariant (frames, slots, TLB, read-only contents, kernel blocks, page tables) holds in every state of every run from boot |
| `PagingRuns.StepKeeps` | os161/os161-base-2.0.2/kern/vm/addrspace.c:446-559 | Every single step keeps the invariant |
| `PagingRuns.FaultOutcome` | os161/os161-base-2.0.2/kern/vm/addrspace.c:449-558 | A fault that returns either changes only counters or makes one page of the running process resident with its old contents, or with its first contents if it had none, and moves no other page |
| `PagingRuns.MissFlat` | os161/os161-base-2.0.2/kern/vm/addrspace.c:518-556 | The phases of a sleeping fault act on flat memory as a whole fault does: only the last one can give an address its first byte |
| `PagingRuns.StoreKeeps` | os161/os161-base-2.0.2/kern/vm/addrspace.c:556 | A store through a dirty TLB entry changes one byte of one writable page and no byte of any other page |
| `PagingGuarantees.FramesOwned` | os161/os161-base-2.0.2/kern/vm/coremap.c:66-156 | Frame ownership, both directions: a frame's coremap owner is A exactly when a resident page of A is in it or a sleeping fault of A has it in hand |
| `PagingGuarantees.FramesUnshared` | os161/os161-base-2.0.2/kern/vm/coremap.c:66-156 | No two pages of one or two address spaces share a frame |
| `PagingGuarantees.EntryStates` | os161/os161-base-2.0.2/kern/vm/addrspace.c:518-546 | Every page table entry is unloaded with paddr 0, in a managed frame, or writable and in a marked slot; exactly one of the three |
| `PagingGuarantees.SlotsConserved` | os161/os161-base-2.0.2/kern/vm/swapfile.c:64-125 | A slot is marked exactly when one entry holds it, never two, and `used` is the number of marked slots modulo 16 bits |
| `PagingGuarantees.TlbCoherent` | os161/os161-base-2.0.2/kern/vm/vm_tlb.c:12-92 | While a process runs, every valid TLB entry repeats a resident entry of its page table, dirty exactly when writable, and no page has two |
| `PagingGuarantees.BlocksApart` | os161/os161-base-2.0.2/kern/vm/coremap.c:158-220 | Live multi-frame blocks are disjoint, inside the coremap, and hold no process page |
| `PagingGuarantees.FaultHandledIff` | os161/os161-base-2.0.2/kern/vm/addrspace.c:446-559 | vm_fault succeeds exactly when a process runs, the access is a read or a write, a segment maps the page, and the page is in memory, a frame is free, or the space owns an unreserved frame, the test for swap space passes and the page in the round-robin victim is read-only or a slot is free |
| `PagingProofs.FaultKeeps` | os161/os161-base-2.0.2/kern/vm/addrspace.c:446-559 | A handled fault keeps the invariant, and afterwards the faulting page is resident, has the right contents and is in the TLB |
| `PagingProofs.BringInKeeps` | os161/os161-base-2.0.2/kern/vm/addrspace.c:518-546 | Making a page resident keeps the invariant and every other writable page's contents |
| `PagingProofs.GetPageReady` | os161/os161-base-2.0.2/kern/vm/coremap.c:92-156 | The frame getPage returns is owned by the space and referred to by no entry, whether it was free or evicted |
| `PagingProofs.EvictKeeps` | os161/os161-base-2.0.2/kern/vm/coremap.c:133-148 | Eviction keeps the invariant and the contents of every writable page, leaves the frame to the space with no entry in it, and adds nothing to the TLB |
| `PagingProofs.ReferrerFound` | os161/os161-base-2.0.2/kern/vm/coremap.c:134-148 | The page table scan after the victim search always finds the one entry in that frame |
| `PagingProofs.EvictContents` | os161/os161-base-2.0.2/kern/vm/coremap.c:134-148 | The contents of every writable page after an eviction are what they were before, wherever they now are |
| `PagingProofs.LoadTlbKeeps` | os161/os161-base-2.0.2/kern/vm/vm_tlb.c:12-53 | Loading a resident page into the TLB keeps it coherent and free of duplicates |
| `PagingPhases.BeginKeeps` | os161/os161-base-2.0.2/kern/vm/coremap.c:92-131 | A fault that goes to sleep with a free frame taken or a victim chosen keeps the invariant and every page's contents |
| `PagingPhases.EvictOutKeeps` | os161/os161-base-2.0.2/kern/vm/coremap.c:132-148 | Writing the victim out after other processes ran in between keeps the invariant and every writable page's contents |
| `PagingPhases.FinishKeeps` | os161/os161-base-2.0.2/kern/vm/addrspace.c:518-556 | The end of a sleeping fault cannot fail: its slot is still marked, and the page becomes resident and translated with its own contents, or its first ones |
| `PagingPhases.PhasesCompose` | os161/os161-base-2.0.2/kern/vm/addrspace.c:515-556 | A fault that nobody interrupts does in phases exactly what it does in one step, failures included |
| `Paging.Referrer` | os161/os161-base-2.0.2/kern/vm/coremap.c:134-136 | The scan stops at the first entry with that physical address, or at the end |
| `PagingLifecycle.SpawnKeeps` | os161/os161-base-2.0.2/kern/vm/addrspace.c:315-357 | Preparing a new address space with its page table in reserved frames keeps the invariant |
| `PagingLifecycle.DestroyKeeps` | os161/os161-base-2.0.2/kern/vm/addrspace.c:200-224 | Destroying a space that is not running and has no sleeping fault keeps the invariant |
| `PagingLifecycle.DestroyReleases` | os161/os161-base-2.0.2/kern/vm/addrspace.c:212-222 | as_destroy frees exactly the frames of the space and of its page table, and unmarks exactly the slots its entries held |
| `PagingLifecycle.ActivateKeeps` | os161/os161-base-2.0.2/kern/vm/addrspace.c:230-245 | A context switch with its TLB flush keeps the invariant, also for kernel-only threads, which leave the TLB alone |
| `PagingLifecycle.KAllocKeeps` | os161/os161-base-2.0.2/kern/vm/coremap.c:203-205 | Kernel allocations keep the invariant |
| `PagingLifecycle.KFreeKeeps` | os161/os161-base-2.0.2/kern/vm/coremap.c:207-220 | Freeing a kernel block keeps the invariant |
| `PagingLifecycle.KernelPageIff` | os161/os161-base-2.0.2/kern/vm/coremap.c:115-155 | With no address space, getPage hands out a free frame exactly when there is one; with a full coremap it returns frame 0, which is in use |
| `PagingLifecycle.AllocTable` | os161/os161-base-2.0.2/kern/vm/coremap.c:229-238 | ptAlloc succeeds exactly when a free run of the table's size exists and the coremap has more frames than that, free or not; it takes the lowest run as a reserved block |
| `PagingLifecycle.TranslateFinds` | os161/os161-base-2.0.2/kern/vm/vm_tlb.c:84-92 | A TLB hit of the running process leads to a resident entry for that page and to its frame |
| `PagingLifecycle.FrameWrite` | os161/os161-base-2.0.2/kern/vm/addrspace.c:556 | Writing the frame of a resident writable page changes that page's contents and no other's |
| `PagingStats.RunStats` | os161/os161-base-2.0.2/kern/vm/vmstats.c:50-70 | The three balance equations, with the refused and the sleeping faults set apart, hold in every run |
| `PagingStats.ConsistentIff` | os161/os161-base-2.0.2/kern/vm/vmstats.c:57-70 | The shutdown check reports no inconsistency exactly when no fault was refused and none is asleep |
| `PagingStats.RefusedIff` | os161/os161-base-2.0.2/kern/vm/addrspace.c:449-512 | A fault is refused exactly when no process runs, or the kind of fault is unknown and the page is mapped |
| `PagingStats.InconsistentRun` | os161/os161-base-2.0.2/kern/vm/vmstats.c:57-70 | A run whose report is inconsistent: one fault before the first process runs |
| `Coremap.InitLayout` | os161/os161-base-2.0.2/kern/vm/coremap.c:46-59 | Managed frames lie inside RAM, are page aligned and start after the coremap array sized for them |
| `Coremap.FirstFree` | os161/os161-base-2.0.2/kern/vm/coremap.c:102-112 | The lowest free frame, or the size if none is free |
| `Coremap.VictimDistance` | os161/os161-base-2.0.2/kern/vm/coremap.c:122-130 | The first evictable frame of the space in circular order from the cursor, or the size if there is none |
| `Coremap.VictimFoundIff` | os161/os161-base-2.0.2/kern/vm/coremap.c:122-130 | The victim loop ends, within one turn, exactly when the space owns an unreserved frame |
| `Coremap.LowestRun` | os161/os161-base-2.0.2/kern/vm/coremap.c:171-182 | The lowest run of n free frames, or the size if there is none |
| `Coremap.FreeUndoesTake` | os161/os161-base-2.0.2/kern/vm/coremap.c:158-220 | Freeing a block right after allocating it gives the coremap as it was, but for the block length at its head, which is then 0 |
| `Coremap.Table.TakeFree` | os161/os161-base-2.0.2/kern/vm/coremap.c:102-113 | In place: takes the lowest free frame for the caller, or changes nothing |
| `Coremap.Table.NextVictim` | os161/os161-base-2.0.2/kern/vm/coremap.c:23-30 | In place: returns the cursor and moves it on circularly |
| `Coremap.Table.FindVictim` | os161/os161-base-2.0.2/kern/vm/coremap.c:122-130 | In place: the loop ends within one turn of the coremap at the first evictable frame, if the space owns one |
| `Coremap.Table.TakeRun` | os161/os161-base-2.0.2/kern/vm/coremap.c:158-201 | In place: succeeds exactly when a free run of that length exists, takes the lowest one and changes no other frame |
| `Coremap.Table.Release` | os161/os161-base-2.0.2/kern/vm/coremap.c:207-220 | In place: frees the block and nothing else |
| `Coremap.Table.ReleaseOwned` | os161/os161-base-2.0.2/kern/vm/coremap.c:79-90 | In place: frees the frames of the space and nothing else |
| `Tlb.LoadEffect` | os161/os161-base-2.0.2/kern/vm/vm_tlb.c:12-53 | Loading a page that is not in the TLB gives it that translation, changes at most one slot and makes no duplicates |
| `Tlb.DropEffect` | os161/os161-base-2.0.2/kern/vm/vm_tlb.c:84-92 | The invalidation empties exactly the slots of that page; every other slot, the full flag and the cursor stay |
| `Tlb.Device.LoadEntry` | os161/os161-base-2.0.2/kern/vm/vm_tlb.c:12-53 | In place: does to the slots, the full flag and the cursor what Load says |
| `Tlb.Device.RoundRobinVictim` | os161/os161-base-2.0.2/kern/vm/vm_tlb.c:55-62 | In place: returns the cursor and moves it on circularly |
| `Tlb.Device.Invalidate` | os161/os161-base-2.0.2/kern/vm/vm_tlb.c:70-82 | In place: every slot becomes invalid; the full flag stays |
| `Tlb.Device.InvalidateVaddr` | os161/os161-base-2.0.2/kern/vm/vm_tlb.c:84-92 | In place: removes the translation of the page, if there is one |
| `Swap.SwapOut` | os161/os161-base-2.0.2/kern/vm/swapfile.c:81-117 | Stores the page in a slot that was free and marks it, changes no other slot, and fails exactly when all slots are marked |
| `Swap.Unmark` | os161/os161-base-2.0.2/kern/vm/swapfile.c:119-125 | Exactly that slot becomes free, and `used` follows with 16-bit wrap-around |
| `Swap.SwapRoundTrip` | os161/os161-base-2.0.2/kern/vm/swapfile.c:64-117 | A page swapped out is what swap_in reads from its slot, and freeing the slot restores the bitmap and the counter |
| `Swap.AvailableWhen` | os161/os161-base-2.0.2/kern/vm/swapfile.c:127-133 | getAvailableSwap subtracts slots from bytes, so on a file with a slot and below 4 GiB it is never 0 |
| `Swap.SwapTestIff` | os161/os161-base-2.0.2/kern/vm/coremap.c:120-151 | Its test tells whether swap_out finds a slot exactly when a slot is free or the file has none |
| `Swap.FullSwapPasses` | os161/os161-base-2.0.2/kern/vm/coremap.c:120-138 | A full swap file that passes the test, so that the assertion on swap_out fails instead |
| `Swap.Device.BitmapAlloc` | os161/os161-base-2.0.2/kern/vm/swapfile.c:91-97 | The lowest clear bit, or the size if none is clear |
| `Swap.Device.Out` | os161/os161-base-2.0.2/kern/vm/swapfile.c:81-117 | In place: writes the page to a free slot and marks it, or changes nothing |
| `Swap.Device.In` | os161/os161-base-2.0.2/kern/vm/swapfile.c:64-79 | In place: returns the slot's page and frees the slot |
| `Swap.Device.Clear` | os161/os161-base-2.0.2/kern/vm/swapfile.c:119-125 | In place: frees the slot |
| `Elf.RegionCoversIff` | os161/os161-base-2.0.2/kern/vm/addrspace.c:283-296 | The region's pages are the least run that covers the bytes asked for, exactly when the rounding does not wrap around 32 bits |
| `Elf.TransferSize` | os161/os161-base-2.0.2/kern/syscall/loadelf.c:289-299 | No transfer leaves the target frame, for any segment |
| `Elf.LoadOnDemand` | os161/os161-base-2.0.2/kern/syscall/loadelf.c:284-304 | The loop that copies file bytes leaves exactly the page that LoadedPage says, and reports a short file |
| `Elf.TilesIff` | os161/os161-base-2.0.2/kern/syscall/loadelf.c:289-301 | For every file, all pages of the segment show the file image exactly when the segment is page aligned, its file bytes lie in its first page, or it has no second page |
| `Elf.MisalignedFails` | os161/os161-base-2.0.2/kern/syscall/loadelf.c:289-301 | For every other segment there is a file of which the second page shows the wrong bytes |
| `Elf.TilesWhenAligned` | os161/os161-base-2.0.2/kern/syscall/loadelf.c:289-301 | The image half of TilesIff, page by page and in any order |
| `Elf.NoStaleBytesIff` | os161/os161-base-2.0.2/kern/syscall/loadelf.c:289-301 | For every segment, file and page: the load is independent of the frame's old bytes exactly when the transfer covers the whole page and the file reaches that far, since nothing zeroes the tail |
| `AddressSpace.PrepareTable` | os161/os161-base-2.0.2/kern/vm/addrspace.c:323-354 | The loops build the table that lists the pages of each segment in turn, all unloaded |
| `AddressSpace.FlattenAt` | os161/os161-base-2.0.2/kern/vm/addrspace.c:340-354 | Page i of segment k is at index (pages of earlier segments) + i |
| `AddressSpace.LookupIff` | os161/os161-base-2.0.2/kern/vm/addrspace.c:480-505 | The segment walk finds an entry exactly when the page is mapped by some segment and exactly when a full scan of the table finds it, and finds the same entry |
| `AddressSpace.LookupFinds` | os161/os161-base-2.0.2/kern/vm/addrspace.c:480-505 | Every entry of the table is found at its own index |
| `AddressSpace.FindEntry` | os161/os161-base-2.0.2/kern/vm/addrspace.c:480-500 | The two loops of vm_fault compute that lookup and the segment it used |
| `Kernel.Vm.VmFault` | os161/os161-base-2.0.2/kern/vm/addrspace.c:446-559 | In place, from any state with the invariant: the tables end as the value-level fault says, with its three outcomes (retry, error code, panic), and a fault that returns is a step of the runs |
| `Kernel.Vm.GetPage` | os161/os161-base-2.0.2/kern/vm/coremap.c:92-156 | In place: free frame or round-robin eviction, as the value-level getPage says |
| `Kernel.Vm.EvictEntry` | os161/os161-base-2.0.2/kern/vm/coremap.c:136-146 | In place: writes the page out if it is writable, updates its entry and drops its translation |
| `Kernel.Vm.FindReferrer` | os161/os161-base-2.0.2/kern/vm/coremap.c:134-136 | The scan loop returns the first entry in that frame |
| `Kernel.Vm.Serve` | os161/os161-base-2.0.2/kern/vm/addrspace.c:515-556 | In place: makes the page resident if needed and loads the TLB |
| `Kernel.Vm.FillFromSwap` | os161/os161-base-2.0.2/kern/vm/addrspace.c:520-529 | In place: swap_in, entry update and counters; fails only where the bitmap assertion does |
| `Kernel.Vm.FillFirst` | os161/os161-base-2.0.2/kern/vm/addrspace.c:530-545 | In place: executable bytes or zeroes, entry update and counters |
| `Kernel.Vm.DestroySpace` | os161/os161-base-2.0.2/kern/vm/addrspace.c:200-224 | In place: unmarks slots, frees frames and forgets the space; a step of the runs |
| `Kernel.Vm.StartSpace` | os161/os161-base-2.0.2/kern/vm/addrspace.c:315-357 | In place: allocates and fills the page table and activates the space, which is a step of the runs, or changes nothing when there is no room for the table |
| `Kernel.Vm.Activate` | os161/os161-base-2.0.2/kern/vm/addrspace.c:230-245 | In place: flushes the TLB unless the thread has no address space; a step of the runs |
| `Kernel.Vm.KernelAlloc` | os161/os161-base-2.0.2/kern/vm/coremap.c:158-205 | In place: a block that overlaps no other, which is a step of the runs, or no change when there is no free run of that length |
| `Kernel.Vm.KernelFree` | os161/os161-base-2.0.2/kern/vm/coremap.c:207-220 | In place: gives back a block that the kernel holds; a step of the runs |
| `Kernel.Vm.Count` | os161/os161-base-2.0.2/kern/vm/vmstats.c:76-90 | In place: one more event in that counter and no other |
| `Kernel.Vm.StatsConsistent` | os161/os161-base-2.0.2/kern/vm/vmstats.c:50-70 | The tests of the shutdown report are the balance equations of ConsistentIff |
| `Kernel.Bootstrap` | os161/os161-base-2.0.2/kern/vm/addrspace.c:387-396 | The state after vm_bootstrap is the start state of the runs |
| `Semaphore.Semaphore.TryP` | os161/os161-base-2.0.2/kern/thread/synch.c:102-120 | In place: one pass of the loop in P takes a unit or puts the thread to sleep |
| `Semaphore.Semaphore.V` | os161/os161-base-2.0.2/kern/thread/synch.c:124-135 | In place: one more unit, and the first sleeper is made runnable |
| `Semaphore.RunInv` | os161/os161-base-2.0.2/kern/thread/synch.c:88-135 | In every interleaving, with barging: initial units plus V's equal completed P's plus the count, and while threads sleep the count is at most the number of woken threads that have not retried |
| `Semaphore.SleepersMeanExhausted` | os161/os161-base-2.0.2/kern/thread/synch.c:88-135 | When nobody is left to retry, threads sleep only if every unit was consumed |
| `Monitor.RunInv` | os161/os161-base-2.0.2/kern/thread/synch.c:195-383 | The invariant of locks and condition variables holds in every interleaving of any number of threads |
| `Monitor.MutualExclusion` | os161/os161-base-2.0.2/kern/thread/synch.c:195-250 | The lock's count plus the threads between a completed P and the matching V is 1, and lk_owner names that thread |
| `Monitor.CriticalSection` | os161/os161-base-2.0.2/kern/thread/synch.c:195-250 | From setting lk_owner until its owner gives the lock up, nobody else holds it |
| `Monitor.AssertionsHold` | os161/os161-base-2.0.2/kern/thread/synch.c:195-349 | The assertions inside lock_acquire, lock_release and cv_wait never fail, and a thread going to sleep holds exactly the spinlock wchan_sleep wants |
| `Monitor.LockWakeupNotLost` | os161/os161-base-2.0.2/kern/thread/synch.c:195-250 | While a thread sleeps in lock_acquire, another holds the lock or a woken one is about to try |
| `Monitor.SpinlocksProgress` | os161/os161-base-2.0.2/kern/thread/synch.c:326-349 | Nested spinlocks never deadlock: a thread inside a section can always move |
| `Monitor.NoLostSignal` | os161/os161-base-2.0.2/kern/thread/synch.c:326-383 | Once cv_wait has given up the lock, every later signal or broadcast finds the thread on the wait channel unless an earlier one woke it; a broadcast wakes it |
| `Synch.Machine.BeginAcquire` | os161/os161-base-2.0.2/kern/thread/synch.c:198-204 | On the objects: the assertion that the caller does not hold the lock holds, also at the end of cv_wait |
| `Synch.Machine.PassP` | os161/os161-base-2.0.2/kern/thread/synch.c:102-120 | On the objects: a pass of P on the lock's semaphore succeeds exactly when nobody holds the lock, and the thread is then its only holder |
| `Synch.Machine.TakeOwnership` | os161/os161-base-2.0.2/kern/thread/synch.c:217-226 | On the objects: the assertion that nobody owns the lock holds, and the thread is owner and only holder |
| `Synch.Machine.GiveUpOwnership` | os161/os161-base-2.0.2/kern/thread/synch.c:236-239 | On the objects: the assertion that the caller owns the lock holds, also inside cv_wait, and until V nobody else can get it |
| `Synch.Machine.FinishRelease` | os161/os161-base-2.0.2/kern/thread/synch.c:243-247 | On the objects: nobody holds the lock afterwards, and the longest sleeper, if there is one, is on its way |
| `Synch.Machine.EnterCv` | os161/os161-base-2.0.2/kern/thread/synch.c:331-335 | On the objects: the thread is the only one inside the sections of cv_lock |
| `Synch.Machine.SleepOnCv` | os161/os161-base-2.0.2/kern/thread/synch.c:339 | On the objects: the thread joins the wait channel holding cv_lock and no other spinlock |
| `Synch.Machine.Signal` | os161/os161-base-2.0.2/kern/thread/synch.c:352-383 | On the objects: signal takes the longest sleeper, broadcast all of them, and the wait channel holds exactly the threads that still wait |
| `Synch.Machine.WakeQueue` | os161/os161-base-2.0.2/kern/thread/thread.c:1048-1076 | On the objects: the loop wakes exactly the threads of the wait channel |
| `Threads.RunInv` | os161/os161-base-2.0.2/kern/thread/thread.c:447-725 | The placement invariant holds in every interleaving of any number of CPUs, including migrations in progress |
| `Threads.OnePlace` | os161/os161-base-2.0.2/kern/thread/thread.c:447-725 | Every thread is in exactly one place (run queue, wait channel, zombie list, victim list, being woken, or running), once |
| `Threads.PlaceMatchesCpu` | os161/os161-base-2.0.2/kern/thread/thread.c:447-479 | Whatever is on a list or running exists, and run queues, zombie lists and victim lists hold only threads of their CPU |
| `Threads.CurrentsDiffer` | os161/os161-base-2.0.2/kern/thread/thread.c:557-725 | Two CPUs never share a current thread, even while idle |
| `Threads.ExorciseSafe` | os161/os161-base-2.0.2/kern/thread/thread.c:293-304 | The destroyed thread exists, is gone afterwards, and is no CPU's current thread |
| `Threads.YieldHoldsLock` | os161/os161-base-2.0.2/kern/thread/thread.c:454-459 | The run queue lock that thread_switch holds is the one thread_make_runnable asserts |
| `Threads.MigrationNeverStuck` | os161/os161-base-2.0.2/kern/thread/thread.c:877-947 | The migration loops never take from an empty list, though other CPUs change the queues meanwhile |
| `Threads.MigrantNotCurrent` | os161/os161-base-2.0.2/kern/thread/thread.c:889-920 | A thread that changes CPU is no CPU's current thread, running or idling |
| `Threads.MigrationEnds` | os161/os161-base-2.0.2/kern/thread/thread.c:848-951 | Every pass brings a migration nearer to its end, and other CPUs never set it back |
| `Threads.QueuesInOrder` | os161/os161-base-2.0.2/kern/thread/thread.c:464-466 | Run queues and wait channels are first in, first out: in one step a queue stays, grows at its tail, gives its head to its CPU or to a waker, or gives its tail to a migration |
| `Threads.RunnablePlaced` | os161/os161-base-2.0.2/kern/thread/thread.c:447-479 | A thread on no list is, once made runnable, on its own CPU's run queue and nowhere else, behind everybody; the others keep their lists and their order |
| `Scheduler.Machine.Fork` | os161/os161-base-2.0.2/kern/thread/thread.c:491-545 | In place: the new thread is ready on the caller's CPU, or nothing changes when there is no memory for it |
| `Scheduler.Machine.Switch` | os161/os161-base-2.0.2/kern/thread/thread.c:557-725 | In place: nothing when idle or yielding to nobody; otherwise the thread goes to its list and the next one, if any, runs |
| `Scheduler.Machine.Exorcise` | os161/os161-base-2.0.2/kern/thread/thread.c:293-304 | In place: exactly the zombies of the CPU cease to exist |
| `Scheduler.Machine.DestroyZombie` | os161/os161-base-2.0.2/kern/thread/thread.c:299-302 | In place: one pass; the zombie is not the current thread |
| `Scheduler.Machine.WakeOne` | os161/os161-base-2.0.2/kern/thread/thread.c:1019-1043 | In place: the longest sleeper becomes ready on its own CPU |
| `Scheduler.Machine.WakeAll` | os161/os161-base-2.0.2/kern/thread/thread.c:1048-1076 | In place: every sleeper becomes ready on its own CPU behind what was there, in the order of going to sleep |
| `Migration.ConsiderMigration` | os161/os161-base-2.0.2/kern/thread/thread.c:848-951 | In place, with quiet queues: the loops compute Balanced |
| `Migration.BalancedShares` | os161/os161-base-2.0.2/kern/thread/thread.c:869-934 | The sender keeps ceil(total/CPUs) threads, plus the current thread if that was among the excess; nobody is pushed above the share and no queue is reordered |
| `Migration.CurrentQueued` | os161/os161-base-2.0.2/kern/thread/thread.c:557-725 | A run that puts an idle CPU's current thread on that CPU's own run queue, as its last thread |
| `Migration.SenderKeepsOneMore` | os161/os161-base-2.0.2/kern/thread/thread.c:913-917 | In that state the sender keeps one thread more than its share |
| `Migration.BalancedConserves` | os161/os161-base-2.0.2/kern/thread/thread.c:877-947 | The multiset of threads is unchanged |
| `Migration.RoomEnough` | os161/os161-base-2.0.2/kern/thread/thread.c:869-874 | The other CPUs have room for all excess |
| `Migration.RotateHolding` | os161/os161-base-2.0.2/kern/thread/thread.c:913-917 | The current thread is moved to the tail of the victims at most once |
| `Migration.FillCpu` | os161/os161-base-2.0.2/kern/thread/thread.c:889-932 | The inner loop gives a CPU victims in order until it has its share or none are left, never the current thread |
| `Migration.ChooseVictims` | os161/os161-base-2.0.2/kern/thread/thread.c:876-881 | The victims are the last threads of the queue, in order |
| `Migration.PlaceVictims` | os161/os161-base-2.0.2/kern/thread/thread.c:883-934 | The outer loop places all excess; only the current thread can be left over |
| `Migration.PutBack` | os161/os161-base-2.0.2/kern/thread/thread.c:941-947 | Leftovers go back to the tail of the own queue |
| `ProcTable.Processes.Alloc` | os161/os161-base-2.0.2/kern/proc/proc.c:93-126 | In place: the search loop computes NextPid, of which PidIff and NextPidFirst say what it is, and changes that slot only |
| `ProcTable.NextPidFirst` | os161/os161-base-2.0.2/kern/proc/proc.c:98-110 | The pid is the first free slot after the last one handed out, circularly |
| `ProcTable.PidIff` | os161/os161-base-2.0.2/kern/proc/proc.c:98-115 | A pid is handed out exactly when some slot other than the last one handed out is free |
| `ProcTable.FreeSlotRefused` | os161/os161-base-2.0.2/kern/proc/proc.c:98-110 | A table with a free slot in which allocation nevertheless fails |
| `ProcTable.SearchFindsIff` | os161/os161-base-2.0.2/kern/proc/proc.c:75-86 | A pid just handed out finds its process exactly when it is not 100 |
| `ProcTable.HundredHandedOut` | os161/os161-base-2.0.2/kern/proc/proc.c:75-110 | Pid 100 does get handed out, after 99, and is then not found |
| `ProcTable.Processes.End` | os161/os161-base-2.0.2/kern/proc/proc.c:133-141 | In place: frees that slot and nothing else |
| `ExitWait.RunInv` | os161/os161-base-2.0.2/kern/proc/proc.c:434-473 | The hand-off invariant holds in every interleaving of any number of processes and waiters |
| `ExitWait.StatusHandedOver` | os161/os161-base-2.0.2/kern/syscall/proc_syscalls.c:25-42 | What proc_wait returned is the low 8 bits of the argument of sys__exit |
| `ExitWait.ThreadCounts` | os161/os161-base-2.0.2/kern/proc/proc.c:370-386 | A thread is attached when sys__exit detaches it, and none is when the process is destroyed |
| `ExitWait.DestroyedOnce` | os161/os161-base-2.0.2/kern/proc/proc.c:434-461 | A process is destroyed exactly once, after exactly one exit signal |
| `ExitWait.NoUseAfterDestroy` | os161/os161-base-2.0.2/kern/proc/proc.c:434-473 | Neither the exiting thread nor the waiter touches a destroyed process |
| `ExitWait.SleepsOnlyBeforeSignal` | os161/os161-base-2.0.2/kern/proc/proc.c:434-473 | The waiter never sleeps after the exit signal |
| `ExitWait.PidsDiffer` | os161/os161-base-2.0.2/kern/proc/proc.c:93-152 | Two live processes never share a pid |
| `ExitWait.SearchFindsLive` | os161/os161-base-2.0.2/kern/proc/proc.c:75-86 | In every run, looking a pid up finds exactly the live process that has it, unless it is 100 |
| `ExitWait.Machine.CreateProc` | os161/os161-base-2.0.2/kern/proc/proc.c:93-126 | On the objects: the pid is one that no process has, and the panic comes exactly when every slot but the last one handed out is taken |
| `ExitWait.Machine.LookUp` | os161/os161-base-2.0.2/kern/proc/proc.c:75-86 | On the objects: finds exactly the live process with that pid, so the assertion on it holds |
| `ExitWait.Machine.RemThread` | os161/os161-base-2.0.2/kern/proc/proc.c:370-386 | On the objects: the assertion that a thread is attached holds |
| `ExitWait.Machine.SignalEnd` | os161/os161-base-2.0.2/kern/proc/proc.c:464-473 | On the objects: the low 8 bits of the exit status are left for the waiter, no thread is attached, and the waiter is not asleep |
| `ExitWait.Machine.PassP` | os161/os161-base-2.0.2/kern/proc/proc.c:444-445 | On the objects: a pass of P succeeds exactly when the process has given its exit signal |
| `ExitWait.Machine.DestroyProc` | os161/os161-base-2.0.2/kern/proc/proc.c:196-276 | On the objects: the assertion that no thread is attached holds, the process is gone and its slot is free |
| `ExitWait.Machine.Collect` | os161/os161-base-2.0.2/kern/proc/proc.c:434-461 | In place: after P, the result is the low 8 bits of the exit status and the process is gone |
| `Argv.BuildArgv` | os161/os161-base-2.0.2/kern/syscall/runprogram.c:156-188 | In place: succeeds exactly when strings and pointers fit the stack; then following the NULL-terminated array at argv reads back exactly the arguments, argv is 4-aligned, and the entry stack pointer is 8-aligned and not above argv |
| `Argv.ArgsRead` | os161/os161-base-2.0.2/kern/syscall/runprogram.c:156-188 | Any memory with the strings and pointers laid out reads back as the argument list |
| `Argv.StrLayout` | os161/os161-base-2.0.2/kern/syscall/runprogram.c:160-176 | Strings are 4-aligned, and each ends with its NUL before the next one begins |
| `Argv.PlaceStrings` | os161/os161-base-2.0.2/kern/syscall/runprogram.c:160-176 | The first loop puts every string with its NUL in place and records its address, or fails where one lies below the stack |
| `Argv.PlacePointers` | os161/os161-base-2.0.2/kern/syscall/runprogram.c:178-184 | The second loop puts every pointer and the NULL in place without touching the strings |

## Left out

- `as_copy` and fork, which this configuration does not build.
- The lookups in `pt.c` and the path of `free_kpages` through them; freeing is modelled at `freepages`.
- File tables and file system calls, VFS and uio; reads and writes of pages are copies of byte sequences.
- ELF header validation and the program header loop of `load_elf`; the model starts from the segments.
- `pt_lock`, `swap_lock` and `coremap_lock`, and interleavings inside a phase of a page fault; in place (`Kernel`) a
  fault runs without interruption.
- The order in which locks are taken in the fault path, and the spinlock that a kernel page request leaves held when
  the coremap is full.
- TLB shootdown (it panics), interprocessor interrupts, and waking an idle CPU.
- Creation and destruction of semaphores, locks and condition variables, and running out of memory in kmalloc.
- proc_create apart from its pid, status, thread count and semaphore: names, working directories, address spaces.
- Fairness and liveness, beyond the end of every migration and the progress of spinlock sections.
- A NULL among the arguments of a program: the code then copies uninitialized addresses.
- Initial bytes that no transfer writes: they depend on what the frame held before, and the model leaves them open.
- Migration.ConsiderMigration: queues do not change while it runs; Threads has the general case, without the balance.
- Scheduler.Machine.Fork: whether the thread and its stack can be allocated is a parameter, and attaching the thread to
  a process is a step of ExitWait without a method of its own.
- Argv.BuildArgv: says nothing about memory when the arguments do not fit.
