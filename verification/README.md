# xk, modelled and proved in Dafny

xk is a small x86-64 teaching kernel with a few user programs. This project models its hard parts
and proves what they promise. `dafny verify dfyconfig.toml` checks everything.

| files | part of the system | main results |
|---|---|---|
| CoreMap, CowSpace, CowMachine, CowView, CowSteps, CowFork, CowRuns | copy-on-write memory as a state machine over whole runs | `CowRuns.RunRefines`, `CowRuns.ReadsAsIfEager`, `CowRuns.CountsExact`, `CowMachine.GrowAllOrNothing`, `CowFork.ForkRefines`, `CowFork.ForkShortOfMemory` |
| CowProgress, CowIsolation | exactly when its steps succeed, and what a child's store leaves alone | `FaultThenWrite`, `ExtendIff`, `SpawnIff`, `FirstHeapDies`, `GrowthRun`, `ForkIff`, `ForkThenStore`, `ForkRun` |
| CowLoad, CowKernel | the kernel's in-place routines, proved to compute those steps | `Kernel.MakeProcess`, `Kernel.PageFault`, `Kernel.ForkProcess`, `Kernel.GrowHeap`, `Kernel.FreeSpace` |
| PageTable, TablePages | the four-level table (section 4.5 of the Intel 64 and IA-32 Architectures Software Developer's Manual, Volume 3A) and its rebuild from the regions | `TablePages.Vspace.Invalidate` |
| Teardown | the sweep that gives user pages back, and the freeing of all tables | `Teardown.SweepEndsIff`, `Teardown.DeallocUvm`, `Teardown.FreeVm` |
| CowTables | the copy-on-write machine and the four-level tree side by side | `RebuildTree`, `SweptPages`, `FreeTree` |
| SleepLock | sleep locks over sleep, wakeup, kill and the scheduler, split at every lock operation | `MutualExclusion`, `NoLostWakeup`, `NoDeadlock` |
| ProcTable | fork, exit, wait and kill with reparenting | `AsleepInWaitHasLiveChild`, `ParentsLive`, `ReapedOnce` |
| UMalloc | the user allocator (section 8.7 of The C Programming Language, 2nd edition) | `Heap.Free`, `Heap.MoreCore`, `Heap.Malloc`, `TwoGigabytes` |
| IdeQueue, BufferCache | the disk queue and the buffer cache | `ReturnsSynced`, `CompletesLikeMemide`, `BreadReturnsLastWritten`, `VictimIsOldest` |
| Mkfs | the image builder and the reader of its files | `Image.Build`, `RoundTrip` |
| Pipe, Console | two ring buffers that act as queues | `Channel.Write`, `Channel.Read`, `Driver.Interrupt`, `SpreadDoesNotMatter` |
| Shell, Regex | the shell's parser and grep's matcher | `Shell.RoundTrip`, `Shell.ParseCmd`, `Regex.Match` |

How the pieces are stated:

- **Copy-on-write.** A state holds the core map, the bytes of every page, and for each process its
  regions, descriptor slots, table pages and the translation the hardware uses. The specification is
  an eager machine in which fork copies all pages. Every step (new process, store, fault, sbrk,
  fork, reap) refines at most one eager operation, so after any run every process reads at every
  address what it would read had each fork copied eagerly. Runs start in any state in order, a
  booted kernel among them, and a new process may have any page-aligned layout: that of userinit,
  that of a loaded program, or another. `GrowthRun` gives runs in which a heap and a stack grow.
  Reference counts are tracked by one relation, `Ledger(ph, m)`: the count of every page is its
  multiplicity in the multiset `m` of claims.
- **Fork.** fork gives the child a copy of its parent if and only if there are pages for the kernel stack,
  the kernel half of the table, every descriptor chunk and both new tables (`ForkIff`). Otherwise it
  returns -1 with nothing changed if no page is free, the kernel panics if pages run out in the kernel
  half or in the tables, and if they run out in the chunks, whose failure fork ignores, it starts a child
  that can read nothing (`ForkShortOfMemory`). `ForkRefines` says when fork does what the eager
  machine does, fails, or does not return. After a fork a store of the child changes what the child reads and
  nothing else (`ForkThenStore`); `ForkRun` is a run from an empty slot to that store.
- **Growth.** A region grows if and only if its pages are free, and otherwise stays as it was, unless
  the kernel dies: when it cannot get the first descriptor chunk, it clears a null page, and when it
  has to roll back from address 0, its unsigned loop has no end (`GrowAllOrNothing`, with
  `DiesWithoutChunk` and `DiesRollingBack` as inputs). userinit leaves the heap at address 0, under
  the code, so there every sbrk kills the kernel (`FirstHeapDies`).
- **Store after a fault.** One fault makes a readable address writable if and only if the kernel finds
  the address in a region, a page is free if the page is shared, and the rebuild gets its table pages
  (`FaultThenWrite`). The table maps whole pages, so the bytes between the size of a region and the
  end of its last page are readable, and a store there never goes through (`SlackStaysStuck`); the kernel
  kills the process, at the latest when its stack cannot grow.
- **Tables.** `Invalidate` succeeds, for regions that share no page, if and only if there is a page for
  every table path of the regions once the old tables are back. With that number for its parameter the
  machine's rebuild succeeds in the same cases (`RebuildTree`). The sweep over the tree meets exactly the
  pages that the machine's table maps (`SweptPages`), so freevm drops the references that reaping drops
  (`FreeTree`).
- **Sweep.** find_next_possible_page ORs an index that may have carried. The 0 to 4 GB sweep ends if
  and only if no odd gigabyte has a directory whose last entry is missing (`SweepEndsIff`), and the
  layouts the kernel builds satisfy that (`KernelLayoutSweeps`).
- **Allocator.** sbrk takes an int: of a count that does not fit it grants what is left of it in 32 bits,
  and nothing if that is negative. The block that morecore links in lies in memory that was granted if
  and only if its bytes fit an int (`Heap.MoreCore`). malloc asks sbrk if and only if the list has no
  block of the size; the block it hands out lies in memory that was granted if and only if it came from
  the list or its bytes fit an int (`Heap.Malloc`). `TwoGigabytes` is a first request that is handed a
  block without any memory.
- **Cache.** All buffers start with the key (0, 0), so two buffers may share that key; then all but
  one of them are unused. For every other key there is one buffer at most. Transfers may fail as in the
  disk queue; bread returns what was last written unless a fault harmed a transfer of the block since
  (`BreadReturnsLastWritten`), and over a disk that never fails always (`NothingSpoilt`).
- **Disk queue.** IdeQueue asks that no two callers of iderw have the same block; that is what
  `BufferCache.SoleOwner` proves of the holders of buffers. The driver looks for an error after a read
  only and ignores it. Completing a request does what the memory disk does if and only if no fault
  harms it (`CompletesLikeMemide`); `FailedRead` and `FailedWrite` are runs in which one does.
- **Pipes.** close wakes nobody, and a process that holds both ends may wait for itself: `Channel.Close`,
  `Channel.Read` and `Channel.Write` say exactly when sleepers are left with nobody to wake them. A reader
  found killed while it takes bytes returns with the lock held, and `Channel.Read` says exactly when.
- **Interleavings.** A stretch of code under a lock is one step or one method call. Methods of a class
  keep its `Valid()` predicate, so every sequence of calls is covered.
- **The outside world.** The success of sbrk in the allocator, the number of page-table pages a rebuild
  needs in the copy-on-write machine, disk faults and what a failed write leaves on the disk, kills,
  and who opens and closes a pipe meanwhile are parameters or arbitrary choices.

Where a comment in the source and its code disagree, the code is modelled: `>>` opens a file in the
same mode as `>` (user/sh.c:355-360), and a request that the disk fails still marks the buffer valid
and clean (kernel/ide.c:113-118).

## Model

| member | source | states |
|---|---|---|
| `CoreMap.KallocLedger` | kernel/kalloc.c:150-177 | allocation succeeds exactly when a page is free, gives one with no claim on it, and adds exactly that claim; counts and counters stay exact |
| `CoreMap.KfreeLedger` | kernel/kalloc.c:99-128 | giving a page back removes one claim, frees the page when it was the last, and keeps the counters exact |
| `CoreMap.ShareLedger` | kernel/vspace.c:488-491 | raising a count on fork adds exactly one claim on an allocated page |
| `CoreMap.UnshareLedger` | kernel/trap.c:102-103 | lowering a count above one removes exactly one claim and leaves the page allocated |
| `CoreMap.KallocNLedger` | kernel/x86_64vm.c:58-100 | getting n table pages succeeds exactly when n are free and gives distinct pages without claims |
| `CoreMap.KfreeAllLedger` | kernel/x86_64vm.c:224-248 | giving a list of pages back removes exactly the claims of the list |
| `CoreMap.KfreeAllFrees` | kernel/x86_64vm.c:224-248 | pages with one claim each all become free |
| `CoreMap.FreshCounts` | kernel/kalloc.c:69-93 | after boot the counters are the numbers of available and allocated pages |
| `CoreMap.PhysMem.MemInit` | kernel/kalloc.c:69-86 | after initialisation the pages above the kernel are available, none has a claim, counters exact |
| `CoreMap.PhysMem.FreeRange` | kernel/kalloc.c:88-93 | every page of the range becomes available, no other entry changes |
| `CoreMap.PhysMem.AllocPage` | kernel/kalloc.c:150-177 | the scan loop computes the allocation function: first available page, count 1, counters moved |
| `CoreMap.PhysMem.FreePage` | kernel/kalloc.c:99-128 | the in-place code computes the freeing function |
| `CowSpace.SlotIsPage` | kernel/vspace.c:12-21 | in either direction two addresses of a region share a slot exactly when they share a page |
| `CowSpace.EnsureSlotLedger` | kernel/vspace.c:399-426 | finding a slot only adds empty chunks, each claimed once; it crashes exactly when the first chunk is missing and no page is free, and fails otherwise only without free pages |
| `CowSpace.EnsureSlotCount` | kernel/vspace.c:399-426 | a slot is found exactly when a page is free for every missing chunk, and those pages are taken |
| `CowSpace.AddPagesLedger` | kernel/vspace.c:88-102 | the mapping loop adds one claim a page, leaves other slots alone, and stops only without memory; it crashes exactly when there is no chunk yet and no page is free |
| `CowSpace.AddPagesCount` | kernel/vspace.c:88-102 | all pages are mapped exactly when there is a free page for each and for every missing chunk, and those pages are taken |
| `CowSpace.RollBackLedger` | kernel/vspace.c:104-114 | undoing it removes exactly the claims it added |
| `CowMachine.GrowAllOrNothing` | kernel/proc.c:120-146 | growth succeeds exactly when its pages are free, and then backs exactly the slots of the new size with zeroed pages; otherwise the kernel dies in exactly two cases told by what is free and where growth starts, and in all others size, slots and counts are as before apart from empty chunks |
| `CowMachine.GrowOutcomes` | kernel/vspace.c:76-115 | the three outcomes of growth told apart by what is free, with the pages taken and the slots there are |
| `CowMachine.DiesWithoutChunk` | kernel/vspace.c:405-408 | an input: growth of an empty region with no free page |
| `CowMachine.DiesRollingBack` | kernel/vspace.c:104-114 | an input: growth from address 0 that runs out of pages |
| `CowMachine.RebuildLedger` | kernel/vspace.c:260-289 | a rebuild swaps the old table pages for the new ones in the claims and changes no others |
| `CowMachine.RebuildIff` | kernel/vspace.c:260-289 | a rebuild succeeds exactly when no two regions share a page and enough pages are free once the old tables are back |
| `CowMachine.RebuildProc` | kernel/vspace.c:260-289 | a rebuild installs exactly the regions and keeps the process invariant |
| `CowMachine.UpdateInv` | kernel/vspace.c:454-516 | the global invariant survives a change of one process that is gentle to the claims of others |
| `CowView.ReadAgrees` | kernel/vspace.c:260-289 | a load through the hardware translation, page by page, returns the byte of the abstract address space |
| `CowSteps.WriteRefines` | kernel/trap.c:81-137 | a store through a writable entry changes that byte of that process and of no other |
| `CowSteps.FaultRefines` | kernel/trap.c:81-137 | resolving any fault changes no byte of any process, or grows the stack as the eager machine would |
| `CowSteps.CowFaultRefines` | kernel/trap.c:90-128 | copying a shared page or reclaiming an unshared one keeps every process's view and exact counts |
| `CowSteps.StackFaultRefines` | kernel/trap.c:172-192 | stack growth adds one zeroed page below the stack, up to ten |
| `CowSteps.ExtendRefines` | kernel/vspace.c:76-115 | growing a region and rebuilding is the eager growth, or leaves every view as it was |
| `CowSteps.SbrkRefines` | kernel/proc.c:120-146 | heap growth is the eager growth or nothing |
| `CowFork.CopyChunksLedger` | kernel/vspace.c:454-498 | copying a descriptor list succeeds exactly when a page is free for every chunk, and then adds one claim a used slot and one a chunk |
| `CowFork.CopyRegionsLedger` | kernel/vspace.c:500-516 | the same for all regions: success exactly when the chunks of all regions fit |
| `CowFork.ForkRefines` | kernel/proc.c:152-189 | fork does what the eager machine does, returns -1 or panics if and only if a page is free for every chunk or too few are free for the kernel's own pages; otherwise it starts a broken child |
| `CowFork.ForkShortOfMemory` | kernel/proc.c:160-162 | in between, the child is started, can read nothing at any address, and the view is not the eager one |
| `CowFork.ForkFailsCleanly` | kernel/proc.c:156-158 | without a free page fork fails and nothing has changed; with too few for the kernel half of the table the kernel panics |
| `CowFork.ReapListClaims` | kernel/vspace.c:349-375 | tearing a process down drops each of its claims exactly once |
| `CowFork.ReapRefines` | kernel/proc.c:243-258 | reaping removes the process and keeps every other view and all counts exact |
| `CowRuns.SpawnRefines` | kernel/vspace.c:161-187 | a new process of any layout sees its code and one zeroed stack page |
| `CowRuns.InitInv` | kernel/kalloc.c:69-93 | a booted kernel is in order |
| `CowRuns.NextRefines` | kernel/trap.c:81-137 | every step refines the eager machine and keeps the invariant |
| `CowRuns.RunRefines` | kernel/vspace.c:454-516 | after any run from any state in order the state looks to all processes as the eager machine's after the same operations |
| `CowRuns.ReadsAsIfEager` | kernel/vspace.c:454-516 | every live process reads at every address what it would read had each fork copied eagerly |
| `CowRuns.CountsExact` | kernel/kalloc.c:99-177 | over all runs counts equal claims, availability means count 0, counters are exact, a writable slot has count 1 |
| `CowProgress.FinishIff` | kernel/vspace.c:260-289 | the end of a call succeeds exactly when the regions are apart and the new tables can be had |
| `CowProgress.WriteIff` | kernel/trap.c:81-137 | a store to a readable address goes through exactly where its slot is writable |
| `CowProgress.FaultThenWrite` | kernel/trap.c:90-128 | after one fault at a readable address the store goes through if and only if the region is found, a page is free if the page is shared, and the table pages can be had |
| `CowProgress.SlackStaysStuck` | kernel/vspace.c:380-395 | between the size of a region and the end of its last page a fault leaves the store stuck |
| `CowProgress.ExtendIff` | kernel/vspace.c:76-115 | a region grows, and the kernel dies, each exactly under a condition on free pages and the place of the regions; with the state after growth |
| `CowProgress.PrepareIff` | kernel/vspace.c:161-187 | the pages of a new process can be had exactly when that many are free |
| `CowProgress.SpawnIff` | kernel/proc.c:93-118 | a process can be made exactly when its pages are free and its stack page is clear of its code |
| `CowProgress.FirstHeapDies` | kernel/proc.c:120-146 | with the heap under the code, as userinit leaves it, every sbrk short of the whole address space kills the kernel, whatever tables it would need |
| `CowProgress.HeapStep` | kernel/proc.c:120-146 | the heap of a loaded program grows to any size that fits below the largest stack |
| `CowProgress.StackStep` | kernel/trap.c:172-192 | a fault just below the stack of a loaded program adds a page to it |
| `CowProgress.GrowthRun` | kernel/exec.c:17-30 | from every state in order with a free slot and enough memory there is a run that loads a program, grows its heap to any size and its stack page by page up to the limit |
| `CowIsolation.ForkIff` | kernel/proc.c:152-189 | the child gets its copy if and only if there is a page for everything fork asks for; -1 exactly when none is free; the kernel panics exactly when the kernel half or the tables run short |
| `CowIsolation.ForkCompletes` | kernel/vspace.c:500-516 | with the chunks copied, fork completes exactly when both rebuilds get their table pages |
| `CowIsolation.ForkThenStore` | kernel/trap.c:90-128 | after a fork a store of the child to any byte of a region goes through after one fault; the child reads it, and everybody else what they read before |
| `CowIsolation.ForkRun` | kernel/proc.c:152-189 | a run that starts a program, forks it and stores in the child: the parent still reads the byte it was loaded with |
| `CowLoad.LoadsAs` | kernel/vspace.c:118-138 | mapping zeroed pages and then writing their contents comes to mapping pages with those contents |
| `CowKernel.Kernel.constructor` | kernel/kalloc.c:69-86 | a kernel over fresh memory is in an initial state |
| `CowKernel.Kernel.FindSlot` | kernel/vspace.c:399-426 | the chunk walk computes slot lookup, including its two failures |
| `CowKernel.Kernel.AddMap` | kernel/vspace.c:76-115 | the mapping loop with its rollback computes growth, from address 0 too |
| `CowKernel.Kernel.MapPages` | kernel/vspace.c:88-102 | the loop maps pages in order and stops at the first it cannot |
| `CowKernel.Kernel.MapOne` | kernel/vspace.c:89-100 | one turn: a slot, a zeroed page, and the slot's fields, or the failure that stops the loop |
| `CowKernel.Kernel.Undo` | kernel/vspace.c:104-114 | the downward loop computes the rollback of the slots mapped so far |
| `CowKernel.Kernel.FreeAll` | kernel/x86_64vm.c:224-248 | giving a list of pages back one by one computes the list's freeing |
| `CowKernel.Kernel.AllocMany` | kernel/x86_64vm.c:58-100 | getting table pages one by one computes their allocation |
| `CowKernel.Kernel.Invalidate` | kernel/vspace.c:260-289 | frees the old tables, gets as many new ones as it is told, installs the regions; `CowTables.RebuildTree` has the number and the tree |
| `CowKernel.Kernel.Complete` | kernel/trap.c:113-114 | the rebuild that ends a fault, sbrk or fork step |
| `CowKernel.Kernel.LoadCode` | kernel/vspace.c:118-138 | maps the pages of the code and copies it in |
| `CowKernel.Kernel.InitStack` | kernel/vspace.c:522-538 | maps the first stack page |
| `CowKernel.Kernel.MakeProcess` | kernel/proc.c:93-118 | computes the step that makes a process |
| `CowKernel.Kernel.CopyOnWrite` | kernel/trap.c:90-128 | both copy-on-write branches compute the fault step |
| `CowKernel.Kernel.ExtendRegion` | kernel/proc.c:127-130 | a region grown and the table rebuilt, or neither |
| `CowKernel.Kernel.GrowOnFault` | kernel/trap.c:172-192 | the stack branch computes the fault step |
| `CowKernel.Kernel.PageFault` | kernel/trap.c:81-137 | the whole fault branch computes the fault step |
| `CowKernel.Kernel.GrowHeap` | kernel/proc.c:120-146 | sbrk computes the growth step and returns the old bound, or -1 and no growth |
| `CowKernel.Kernel.ShareChunk` | kernel/vspace.c:471-495 | one chunk: both sides read-only and copy-on-write, one more reference a used slot |
| `CowKernel.Kernel.CopyVpiPages` | kernel/vspace.c:454-498 | the recursion over chunks computes the copy, including where it stops |
| `CowKernel.Kernel.CopyVspace` | kernel/vspace.c:500-516 | copies the regions in turn and reports a failure |
| `CowKernel.Kernel.ForkProcess` | kernel/proc.c:152-189 | computes the fork step, broken child included |
| `CowKernel.Kernel.FreeSpace` | kernel/vspace.c:349-375 | computes the reap step |
| `PageTable.IndexDigits` | inc/mmu.h:91-97 | the four indices and the offset are the digits of an address |
| `PageTable.IndicesDetermine` | inc/mmu.h:91-97 | equal indices mean the same page |
| `PageTable.GrowTree` | kernel/x86_64vm.c:58-100 | linking in a blank table keeps the tree and all translations |
| `PageTable.SetLeaf` | kernel/x86_64vm.c:106-129 | writing a leaf changes the translation of that page alone |
| `PageTable.CutTree` | kernel/vspace.c:268-275 | dropping the user half leaves a tree |
| `PageTable.CutLookup` | kernel/vspace.c:268-275 | and unmaps exactly the user half |
| `TablePages.Vspace.constructor` | kernel/vspace.c:54-71 | a space with an empty table page |
| `TablePages.Vspace.Descend` | kernel/x86_64vm.c:66-98 | one level of the walk: follows an entry, or links in a blank table and keeps every translation |
| `TablePages.Vspace.Walk` | kernel/x86_64vm.c:58-100 | finds or builds the tables on the way, keeps every translation, fails only without memory |
| `TablePages.Vspace.MapPage` | kernel/x86_64vm.c:106-129 | maps one page, or reports a page already mapped or no memory |
| `TablePages.TableCount` | kernel/x86_64vm.c:58-100 | a tree has one page for each table path |
| `TablePages.Vspace.FreeTable` | kernel/kalloc.c:99-128 | a table page goes back and is no longer read |
| `TablePages.Vspace.FreePgdir` | kernel/x86_64vm.c:224-235 | gives back a directory and the tables below it once each, without reading a freed page |
| `TablePages.Vspace.FreePdpt` | kernel/x86_64vm.c:237-248 | the same one level up |
| `TablePages.Vspace.DropUser` | kernel/vspace.c:268-275 | all user tables go back once, the kernel half stays |
| `TablePages.Vspace.MapRegions` | kernel/vspace.c:277-288 | maps the pages of all regions, nothing else; meets a mapped page only if two regions share one, and ends well only if none do |
| `TablePages.Vspace.MapRegion` | kernel/vspace.c:283-286 | maps the pages of one region in order |
| `TablePages.Vspace.Invalidate` | kernel/vspace.c:260-289 | afterwards the user half translates exactly as the regions say, the kernel half as before, and no old table is kept; it panics over a page mapped twice only if regions share a page; with regions apart it succeeds if and only if there is a page for every table path of the regions once the old user tables are back, and it takes exactly those |
| `TablePages.ExpectedIsInstalled` | kernel/vspace.c:277-288 | for every user address the tree translates its page as the copy-on-write machine does, and not at all where no region has a page |
| `TablePages.TablesFit` | kernel/vspace.c:260-289 | the count behind it: paths kept, paths wanted and free pages add up |
| `Teardown.CarryLost` | inc/mmu.h:99-101 | an odd third-level index ORed with a carried directory index loses the carry (64-bit words) |
| `Teardown.NextSkipsNothing` | kernel/x86_64vm.c:163-191 | a jump over missing tables never skips a present page |
| `Teardown.SweepTurnsBack` | kernel/x86_64vm.c:163-191 | with such a directory the sweep returns to where it was and never passes it |
| `Teardown.SweepEndsIff` | kernel/x86_64vm.c:198-222 | the sweep ends if and only if no odd gigabyte has a directory whose last entry is missing |
| `Teardown.KernelLayoutSweeps` | kernel/x86_64vm.c:198-222 | layouts below 2 GB satisfy the condition if they stay in the first gigabyte or have the page just below 2 GB, where the kernel puts the stack |
| `Teardown.Find` | kernel/x86_64vm.c:58-100 | the walk that allocates nothing finds the table of an address if there is one |
| `Teardown.FindNextPage` | kernel/x86_64vm.c:163-191 | computes the jump |
| `Teardown.SweepOne` | kernel/x86_64vm.c:203-220 | one turn gives back the page at the address, if present, and moves on |
| `Teardown.DeallocUvm` | kernel/x86_64vm.c:198-222 | every mapped page below 4 GB loses exactly one reference and nothing above changes |
| `Teardown.FreeVm` | kernel/x86_64vm.c:250-266 | all pages and tables go back exactly once |
| `CowTables.SweptPages` | kernel/x86_64vm.c:198-222 | over a tree that translates as the regions say, the sweep meets every page as often as slots name it: the pages the machine maps |
| `CowTables.RebuildTree` | kernel/vspace.c:260-289 | rebuilding the tree of a process succeeds exactly when the machine's rebuild does with one page a table path, leaves as many pages free, and leaves a tree whose sweep ends |
| `CowTables.FreeTree` | kernel/x86_64vm.c:250-266 | freeing the tree of a process drops exactly its claims on table pages and mapped pages |
| `CowTables.LoadedSweeps` | kernel/exec.c:17-30 | a loaded program with any heap and stack that fit has such a layout |
| `SleepLock.RunInv` | kernel/sleeplock.c:22-39 | the invariant of locks, states and channels holds after every interleaving |
| `SleepLock.MutualExclusion` | kernel/sleeplock.c:22-39 | at most one process holds the lock, and then `locked` is set |
| `SleepLock.NoLostWakeup` | kernel/proc.c:367-418 | once `locked` is clear and the wakeup done, nobody sleeps on the lock or is about to |
| `SleepLock.NoDeadlock` | kernel/proc.c:276-305 | while any process is in the protocol, some process can be carried on |
| `ProcTable.RunInv` | kernel/proc.c:48-266 | the invariant of the process table holds after every run |
| `ProcTable.PidTest` | kernel/proc.c:206-207 | the pid comparison in exit finds exactly the children |
| `ProcTable.ExitFacts` | kernel/proc.c:204-214 | exit's effect on every slot, wakeups included |
| `ProcTable.AsleepInWaitHasLiveChild` | kernel/proc.c:224-266 | who sleeps in wait has no zombie child and a live one |
| `ProcTable.ParentsLive` | kernel/proc.c:204-214 | no parent field names a zombie or unused slot |
| `ProcTable.ReapedOnce` | kernel/proc.c:243-258 | a child's pid is returned by one wait only, to its parent at the time |
| `ProcTable.ReturnedGrows` | kernel/proc.c:243-258 | what waits have returned is never taken back |
| `ProcTable.Table.constructor` | kernel/proc.c:48-56 | all slots unused |
| `ProcTable.Table.Wakeup1` | kernel/proc.c:403-411 | wakes exactly the sleepers of the channel |
| `ProcTable.Table.ReapSection` | kernel/proc.c:245-258 | frees the first zombie child and returns its pid, or changes nothing |
| `ProcTable.Table.ExitSection` | kernel/proc.c:204-216 | the loop with its repeated wakeups computes exit |
| `UMalloc.GrantedIff` | user/umalloc.c:44-57 | sbrk grants the bytes asked for if and only if they fit its int argument |
| `UMalloc.TwoGigabytes` | user/umalloc.c:44-84 | a first request for 2 GB is handed a block of 2^27 + 1 units while no unit was granted |
| `UMalloc.UnitsSuffice` | user/umalloc.c:61-63 | the units asked for hold the bytes and no fewer would |
| `UMalloc.InsertLoose` | user/umalloc.c:28-41 | linking a block in at its place keeps order, links, live blocks and units |
| `UMalloc.MergeLoose` | user/umalloc.c:31-40 | joining two touching blocks keeps them too |
| `UMalloc.Freed` | user/umalloc.c:31-41 | the header writes of free leave a sound list that contains the block in one piece |
| `UMalloc.TakeArena` | user/umalloc.c:69-71 | an exact fit moves from the list to the live blocks |
| `UMalloc.SplitArena` | user/umalloc.c:72-76 | a larger block gives up its tail, nothing lost |
| `UMalloc.NewBlock` | user/umalloc.c:50-55 | room from sbrk overlaps nothing |
| `UMalloc.SmallStep` | user/umalloc.c:68-83 | when malloc's search comes round, every block is too small |
| `UMalloc.LargeIsNew` | user/umalloc.c:44-57 | after new room is freed into a list with no block of n units, any such block ends where the room ends |
| `UMalloc.LargeSeen` | user/umalloc.c:68-80 | an entry of the list with enough units is a free block, not the static header |
| `UMalloc.Heap.constructor` | user/umalloc.c:21-22 | nothing obtained, nothing live |
| `UMalloc.Heap.Search` | user/umalloc.c:28-30 | free's search ends, at the last list entry below the block |
| `UMalloc.Heap.Join` | user/umalloc.c:31-41 | the header writes |
| `UMalloc.Heap.Free` | user/umalloc.c:24-42 | keeps the allocator's invariant, takes exactly this block from the live ones and coalesces it on both sides |
| `UMalloc.Heap.Sbrk` | kernel/sysproc.c:60-67 | refuses, or grants room above the break: the bytes asked for if they fit an int, else what is left of them in 32 bits or nothing; to grant nothing it never refuses |
| `UMalloc.Heap.MoreCore` | user/umalloc.c:44-57 | on success the list has a block of the size asked, which lies in memory granted if and only if its bytes fit an int; on refusal nothing changes |
| `UMalloc.Heap.Give` | user/umalloc.c:69-80 | hands out exactly nunits, disjoint from everything live |
| `UMalloc.Heap.Prime` | user/umalloc.c:64-67 | the first call makes a list of the static header alone |
| `UMalloc.Heap.Malloc` | user/umalloc.c:59-84 | ends; returns enough room disjoint from all live blocks; asks sbrk exactly if no free block has the units, once, and fails only if sbrk refuses; the block lies in memory granted, and the allocator stays in order, if and only if the list had a block or the bytes fit an int |
| `IdeQueue.MemRw` | kernel/memide.c:35-55 | afterwards the buffer is valid and clean, equals its disk block, and no other block changed |
| `IdeQueue.RunInv` | kernel/ide.c:100-159 | the driver's invariant holds after every interleaving |
| `IdeQueue.InOrder` | kernel/ide.c:100-159 | no request is queued twice, only the head is started, requests complete once each in arrival order |
| `IdeQueue.ReturnsSynced` | kernel/ide.c:153-158 | iderw returns only after its own request, with disk and buffer equal if and only if no fault harmed it |
| `IdeQueue.NoLostWakeup` | kernel/ide.c:116-119 | nobody sleeps for a request that is done |
| `IdeQueue.CompletesLikeMemide` | kernel/ide.c:100-126 | completing a request does to buffer and disk what the memory disk does if and only if no fault harms it: a failed write that leaves other data, a failed read that was to bring other data |
| `IdeQueue.OneRequest` | kernel/ide.c:100-159 | a run of one request from call to return |
| `IdeQueue.FailedRead` | kernel/ide.c:113-118 | a run in which a failed read returns a valid buffer with its old data |
| `IdeQueue.FailedWrite` | kernel/ide.c:113-118 | a run in which a failed write returns a clean buffer and the block holds something else |
| `IdeQueue.Queue.constructor` | kernel/ide.c:28-33 | an empty queue |
| `IdeQueue.Queue.Append` | kernel/ide.c:143-151 | the walk to the end appends and says whether the request is alone |
| `IdeQueue.Queue.Pop` | kernel/ide.c:103-110 | takes the head off |
| `BufferCache.RunInv` | kernel/bio.c:44-142 | the cache's invariant holds after every interleaving |
| `BufferCache.BreadReturnsLastWritten` | kernel/bio.c:97-106 | a finished bread holds, alone, a buffer of its block, and with the data of the last bwrite of it in the run, or the initial disk's, unless a fault harmed a transfer of the block since |
| `BufferCache.BwriteWrites` | kernel/bio.c:109-119 | bwrite puts the holder's data on its block if and only if no fault harms it, and touches no other |
| `BufferCache.DiskIsLastWritten` | kernel/bio.c:109-119 | at every point of a run a block that is not spoilt holds the data of its last bwrite |
| `BufferCache.NothingSpoilt` | kernel/memide.c:35-55 | over a disk that never fails no block is spoilt |
| `BufferCache.SoleOwner` | kernel/bio.c:64-94 | two processes never own buffers of the same block |
| `BufferCache.Bookkeeping` | kernel/bio.c:44-142 | the list is a permutation, counts are holders plus waiters, a block has one buffer (the initial zero key aside) |
| `BufferCache.VictimIsOldest` | kernel/bio.c:79-92 | a recycled buffer is unreferenced, clean, and released no later than any other such buffer |
| `BufferCache.Lookup` | kernel/bio.c:69-77 | the first buffer of the list with the key, if any |
| `BufferCache.Victim` | kernel/bio.c:82-83 | the last unreferenced clean buffer of the list, if any |
| `BufferCache.Cache.constructor` | kernel/bio.c:44-59 | a ring of all buffers, linked both ways |
| `BufferCache.Cache.Insert` | kernel/bio.c:135-138 | links a buffer in at the front |
| `BufferCache.Cache.Remove` | kernel/bio.c:133-134 | takes a buffer out of the ring |
| `BufferCache.Cache.GetBuf` | kernel/bio.c:64-94 | the two scans compute lookup and choice of victim |
| `BufferCache.Cache.Drop` | kernel/bio.c:129-141 | one reference less, and to the front when it was the last; the links stay a ring |
| `Pipe.SlotInside` | kernel/file.c:195-196 | the slot the signed remainder gives lies in the buffer exactly for positive counters and multiples of its size |
| `Pipe.FirstOutside` | kernel/file.c:237-238 | the first byte without a slot is the one after 2^31 + 1 others |
| `Pipe.Channel.constructor` | kernel/file.c:327-338 | an empty pipe, both descriptors with its maker |
| `Pipe.Channel.Share` | kernel/file.c:248-279 | dup and fork add a descriptor |
| `Pipe.Channel.Close` | kernel/file.c:114-145 | closing strands the sleepers exactly if it closes the last descriptor of the last process awake |
| `Pipe.Channel.Kill` | kernel/proc.c:423-440 | waking a killed sleeper keeps the pipe's invariant |
| `Pipe.Channel.Put` | kernel/file.c:237-238 | stores one byte behind those in the ring |
| `Pipe.Channel.Write` | kernel/file.c:219-245 | accepts a prefix of the data in order, keeps tail - head within 0 and 2048, leaves no reader asleep, sleeps only when full, gives up only as the sole holder, stores outside the buffer only after 2^31 + 1 bytes, and is stranded exactly if all other holders were asleep writing |
| `Pipe.Channel.Take` | kernel/file.c:190-198 | the loop that empties the ring, and exactly when it leaves with the lock held |
| `Pipe.Channel.Read` | kernel/file.c:166-203 | takes the oldest bytes, as many as there are up to the count; sleeps only when empty, and is stranded exactly if all other holders were asleep reading; returns 0 from an empty ring only as the sole holder; keeps the lock exactly if found killed while taking bytes |
| `Console.SlotWraps` | kernel/console.c:212-218 | wrapping at 2^32 does not move a ring slot |
| `Console.TakeResumes` | kernel/console.c:265-296 | bytes committed while a reader sleeps are read as if they had been there |
| `Console.SpreadDoesNotMatter` | kernel/console.c:265-296 | however interrupts are spread over a read, its result is the same |
| `Console.TakeDelivers` | kernel/console.c:279-292 | a read delivers the queue in order up to a newline, and an end of file met after bytes stays for the next read |
| `Console.KeysOnlyAdd` | kernel/console.c:222-263 | keys never change committed bytes |
| `Console.BackspaceUndoes` | kernel/console.c:232-245 | backspace undoes a plain key, and kill-line makes it as if it had not been typed |
| `Console.Driver.constructor` | kernel/console.c:213-218 | an empty ring |
| `Console.Driver.Rub` | kernel/console.c:233-237 | drops the last byte of the line |
| `Console.Driver.LastByte` | kernel/console.c:233-234 | the line being edited never ends in a newline |
| `Console.Driver.KillLine` | kernel/console.c:232-238 | empties the line and nothing else |
| `Console.Driver.Store` | kernel/console.c:246-256 | adds a byte, and commits the line at its end or when the ring is full |
| `Console.Driver.KeyIn` | kernel/console.c:227-257 | one key acts on queue and line as specified, with wrapping indices |
| `Console.Driver.Interrupt` | kernel/console.c:222-263 | the handler applies all keys in order and reports a listing request |
| `Console.Driver.NextByte` | kernel/console.c:279 | takes the oldest committed byte |
| `Console.Driver.ReadSome` | kernel/console.c:265-296 | a stretch of consoleread takes from the queue as specified, end of file pushed back when due |
| `Mkfs.DecodeEncode` | mkfs.c:243-268 | an inode survives being written and read |
| `Mkfs.EncodeDecode` | mkfs.c:243-268 | and so does any slot of 64 bytes |
| `Mkfs.InodeSector` | mkfs.c:250-252 | sector and slot give the inode's place in the inode file |
| `Mkfs.Image.constructor` | mkfs.c:101-115 | a zeroed image, the first free block behind the metadata |
| `Mkfs.Image.Wsect` | mkfs.c:230-241 | replaces one sector |
| `Mkfs.Image.Rsect` | mkfs.c:270-281 | reads one sector |
| `Mkfs.Image.Winode` | mkfs.c:243-255 | changes exactly the 64 bytes of one inode |
| `Mkfs.Image.Rinode` | mkfs.c:257-268 | reads them |
| `Mkfs.Image.Ialloc` | mkfs.c:283-294 | the next inode number, blank but for its type |
| `Mkfs.Image.Iappend` | mkfs.c:329-352 | the loop over blocks writes the bytes behind the file's end, then its size, and nothing else |
| `Mkfs.AppendedFacts` | mkfs.c:329-352 | afterwards the file's contents are the old ones followed by the new bytes |
| `Mkfs.Image.CopyIn` | mkfs.c:203-204 | reading a file in pieces of any size leaves its contents in the image |
| `Mkfs.Image.BitmapSector` | mkfs.c:309-312 | the bits of one bitmap sector |
| `Mkfs.Image.Balloc` | mkfs.c:298-318 | writes the bitmap of the first `used` blocks |
| `Mkfs.BitMarked` | mkfs.c:298-318 | bit b is set if and only if b is below `used` |
| `Mkfs.Image.Begin` | mkfs.c:101-138 | superblock and the inode of the inode file |
| `Mkfs.Image.RootInode` | mkfs.c:140-150 | the root directory's inode, with room for all entries |
| `Mkfs.Image.RootDir` | mkfs.c:152-160 | its two entries for itself |
| `Mkfs.Image.ConsoleDev` | mkfs.c:162-170 | the console's inode and entry |
| `Mkfs.Image.AddEntry` | mkfs.c:194-197 | one directory entry more |
| `Mkfs.Image.StoreFile` | mkfs.c:199-209 | the file's bytes from the first free block on, and its extent |
| `Mkfs.Image.FixRoot` | mkfs.c:216-219 | the final size of the root directory is the one it has |
| `Mkfs.Image.AddFile` | mkfs.c:172-214 | adds inode, directory entry and contents of one file and keeps everything before it |
| `Mkfs.Image.Build` | mkfs.c:101-225 | for any files that fit, the image holds superblock, inodes, directory, files and bitmap as laid out |
| `Mkfs.ExtentsApart` | mkfs.c:192-209 | extents are pairwise disjoint and clear of the metadata |
| `Mkfs.ExtentMarked` | mkfs.c:298-318 | the blocks of every extent are marked as used |
| `Mkfs.Readi` | kernel/fs.c:354-398 | the loop over blocks returns exactly the bytes asked for, an error exactly for an offset beyond the end or a wrapping sum, and runs off the extent list exactly for a range beyond the extent |
| `Mkfs.RoundTrip` | kernel/fs.c:354-398 | built, then read at any offset and length inside the file: those bytes of the source file |
| `Regex.RenderBack` | user/grep.c:79-89 | reading a pattern gives every character exactly one role |
| `Regex.HereOne` | user/grep.c:86-87 | a letter, then the rest |
| `Regex.HereStar` | user/grep.c:92-98 | some number of repetitions, then the rest |
| `Regex.MatchStar` | user/grep.c:92-98 | decides the starred language |
| `Regex.MatchHere` | user/grep.c:79-89 | decides whether the text starts with a word of the language |
| `Regex.Match` | user/grep.c:68-76 | true if and only if some substring, placed as the anchors ask, is in the language |
| `Shell.SkipSpaces` | user/sh.c:248-249 | the loop stops at the first character that is not a space |
| `Shell.GetToken` | user/sh.c:243-284 | the loops compute the token at the cursor |
| `Shell.Peek` | user/sh.c:286-294 | skips spaces and looks |
| `Shell.Redirs` | user/sh.c:343-364 | wraps the command in the redirections that follow |
| `Shell.Words` | user/sh.c:393-409 | words and redirections in any order, at most nine words |
| `Shell.ExecCmd` | user/sh.c:380-410 | a block or a simple command |
| `Shell.Block` | user/sh.c:366-378 | a parenthesised line with its redirections |
| `Shell.PipeCmd` | user/sh.c:332-341 | a pipeline |
| `Shell.Line` | user/sh.c:317-330 | background marks and lists |
| `Shell.LineMarks` | user/sh.c:317-410 | whatever the input, the spans of a successful parse mark whole words |
| `Shell.EndsOutside` | user/sh.c:413-456 | no end of a word lies inside a word |
| `Shell.SeenIsDenoted` | user/sh.c:413-456 | with a NUL at every end, each start denotes exactly its token |
| `Shell.Nulterminate` | user/sh.c:413-456 | writes a NUL at every end and nowhere else |
| `Shell.ParseCmd` | user/sh.c:301-315 | parses all of the buffer or fails, and then every argv and file entry denotes its token in the changed buffer |
| `Shell.ExecReads` | user/sh.c:343-410 | a rendered command with its redirections, or a line in parentheses, is read back, and the redirections behind it wrap it |
| `Shell.PipeReads` | user/sh.c:332-341 | a rendered pipeline is read back |
| `Shell.BackReads` | user/sh.c:317-330 | the loop over background marks passes through the rendered command |
| `Shell.LineReads` | user/sh.c:317-410 | the rendering of any tree, with parentheses only where precedence asks for them, parses back to it, up to its end and no further |
| `Shell.RoundTrip` | user/sh.c:301-410 | every tree with at most nine words a command is what its rendering parses to, nothing left over |
| `Shell.ParseRendered` | user/sh.c:301-315 | the same through the buffer that parsecmd leaves behind |

## Left out

- writei, appendi, createi, update_dinode and multi-extent readi: block lookup goes wrong in later extents, so no correct law holds for them.
- getfreestartblkno: ranges from different bitmap blocks overlap.
- exec's replacement of the address space of a running process: the old regions are overwritten without dropping their pages, so exact counts hold only without it. A program's layout is that of a new process here.
- ELF headers and vspacewritetova: code arrives as whole pages.
- The bytes of kernel-owned pages (stacks, descriptor chunks, tables) in the copy-on-write machine, and the core map's user and va fields.
- The number of table pages a rebuild needs is a parameter of the copy-on-write machine; CowTables says which number the four-level tree takes.
- fork and page faults are single steps of the copy-on-write machine: their inner locks do not interleave with other processors.
- The negative branch of sbrk: unreachable through the system call.
- A missing parent in exit: modelled as matching nobody.
- Preemption, interrupt masking and the nesting counters of pushcli and popcli.
- The alignment of sbrk's result: UMalloc counts addresses in header-sized units, and programs that write outside their blocks are not modelled.
- `UMalloc.Heap.Malloc`: asks for an allocator in order; after a block without memory has been linked in, only free is specified.
- Panics for bad devices, missing disks and block numbers out of range in the disk drivers; the crash counter in bwrite.
- Pipes: the descriptor table.
- Console output and the killed path of consoleread, which drops the bytes taken so far.
- mkfs: names on the host, opening files, and read errors; block numbers and sizes are below 2^32 because the disk is.
- The exec node of the shell is filled after its redirections are wrapped around it; the model keeps words and tree apart until the end instead of sharing the node.
- runcmd, the built-in cd, and reading lines in the shell; buffering of lines in grep.
- Boot and hardware code, system-call argument fetching, printing, and the small user programs: plumbing.
- `Pipe.Channel.Write`: says nothing of the pipe after a store outside its buffer.
- `Mkfs.Readi`: for files with one extent, as the image builder makes them.
