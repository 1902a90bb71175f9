# A verified model of the xv6 kernel with copy-on-write, swapping and shared memory

The project models the hard core of the kernel and four user-level algorithms, and proves what
each is for. All sources are in Dafny; `dafny verify dfyconfig.toml` checks the project.

| files | part of the system |
|---|---|
| `DiskLog`, `Storage`, `StorageRefinement` | disk, buffer cache and redo log as one state machine with crashes; refinement of a disk that commits atomically |
| `BufferCache`, `Log` | `bio.c` and `log.c` as objects updated in place, proved against the functions of the state machine |
| `LogReservation`, `LogOverrun`, `HoleReads` | begin_op, log_write and end_op interleaved over any number of processes; which log regions their racing tests can overrun; what reads of holes do to the reservation |
| `CopyOnWrite`, `CopyOnWriteProof`, `Fork` | reference-counted frames, copy-on-write faults, and copyuvm, setupkvm, freevm as loops over that machine |
| `PageTable`, `MemoryList`, `MemoryFifo`, `Swap` | two-level page tables, the FIFO replacement list and its runs, and swapping in and out |
| `PagedMemory` | copy-on-write and swapping in one machine |
| `FileSystem`, `FileOps`, `FileWrite`, `Mkfs` | block ownership, file contents, fileread and the chunks of filewrite, and the initial image |
| `FreeRing`, `Allocator` | the ring of free blocks and malloc/free |
| `Wakeup`, `Pipe`, `Lifecycle` | sleep and wakeup, the pipe ring, and process creation, exit and reaping |
| `ShellParser`, `ShellWords`, `ShellRoundTrip`, `ShellCursor` | the shell's parser on values, where its words lie, its inverse, and its cursor form |
| `Grep`, `SharedMemory` | the pattern matcher and the shared-memory table |
| `Params` | constants and types that several parts share |

Protocols are state machines: a `State`, an `Event` type, `Enabled` and `Apply`, runs as sequences
of events. An event is one section the source runs under a lock, or one disk write, so a run is an
arbitrary interleaving of such sections. What the source reads outside a lock and acts on later is
several events: log_write's test for room and its append; a copy-on-write fault's look at the
count, its kalloc, its copy and the lowering of the old count; the mapping of a page by fork and
its counting. What a process does to its own page table, or to a frame that nobody else can reach,
joins the locked section next to it: no other process reads it in between. For kfree and the
clearing of the entry behind it, where the entry is stale for a moment, that is
`CopyOnWriteProof.FreeThenClear`. Code that works in place is a class whose methods have the
source's loops; its methods are tied to functions on values, and the theorems are about those
functions.

Results that hold only under a condition are stated with the exact condition:

* `log_write` refuses at one block less than the log region, and mkfs makes the region exactly
  LOGSIZE blocks, header included. The panic is therefore reachable by operations that keep to
  their budget (`LogReservation.PanicIffLogTooSmall`). The test is made before log.lock is taken,
  so operations that pass it together can list more blocks than the region holds
  (`LogReservation.OverrunIff`). On a region smaller than LOGSIZE write_log then overwrites home
  blocks before the commit; on mkfs's own region the list that would do so pins every buffer, and
  the kernel panics for want of one instead (`LogOverrun.ContainedIff`,
  `LogReservation.PinsAllBuffersIff`).
* `kfree` puts a frame on the free list only when its count was already zero, while its users hold
  it with count one, so unmapped frames are never reused (`CopyOnWriteProof.FreeListNeverGrows`).
  Isolation is not affected.
* `deallocuvm`'s skip of a missing page table advances by 4 MB from wherever it stands
  (`PageTable.MissesNothingIff`); it lowers the entry count a second time, and panics on a present
  page that was never recorded (`PageTable.AddressSpace.DeallocUvm`). It leaves PTE_PG set in the
  entry of a swapped-out page, so a later touch panics (`PagedMemory.TouchPanicsIff`).
* `RemoveFromMemoryList` does not move the tail pointer
  (`MemoryList.List.RemoveFromMemoryList`), so after the tail of a longer list is removed the next
  replacement panics or takes a wrong victim (`MemoryFifo.TailRemovalOutcome`).
* Swapping in reuses the victim's frame, writable, without looking at its count
  (`Swap.SwapInTransparentIff`, `PagedMemory.SwapInIsolatedIff`), and the guard on swap files admits a
  seventh file that does not exist (`Swap.SlotTarget`).
* malloc's rounding wraps for requests near 2^32 bytes (`Allocator.BigEnoughIff`), and from 2^31
  bytes on morecore asks sbrk for a negative increment (`Allocator.GrantedInsideIff`).
* mkfs rounds the root directory's size past its last block when its entries fill whole blocks
  (`Mkfs.RootHoleIff`). Reading a hole allocates a block. fileread is no operation of the log, so
  that panics when no process is inside one (`FileOps.Volume.Readi`, `FileWrite.Fileread`), and
  otherwise logs blocks that nobody reserved, one of which is enough for operations within their
  budget to run into log_write's panic on a region of any size
  (`HoleReads.OneReadBreaksTheBudget`). writei persists the address of a block that fills a hole
  only when the size grows (`FileOps.Volume.Writei`).
* pipewrite returns without a wakeup when its reader is gone or it has been killed, though it may
  have stored bytes (`Wakeup.GivingUpLosesIff`); `kill` of a process that is about to sleep on a
  pipe waits for the next wakeup (`Wakeup.KillMissedIff`).
* A fork that fails late leaves its child an embryo for ever, and wait counts it as a child
  (`Lifecycle.WaitForeverIff`).
* An exec node keeps nine arguments (`ShellRoundTrip.RoundTripIff`). `>>` builds the same node as
  `>`, so the model has one kind of output redirection.
* Shared-memory signature 0 marks an empty place and is not refused on deallocation
  (`SharedMemory.DeallocZeroPanicsIff`).

## Model

| member | source | states |
|---|---|---|
| `StorageRefinement.StorageRefinesAtomicDisk` | src/log.c:69-233 | for every run of the buffer cache, the log and recovery by operations within their budget, from any disk image whose log region has one block or at least LOGSIZE, with power failing between any two block writes and again inside recovery: what the machine stands for after each event is what the specification has there, and each event moves it by that event's own step of a disk that can only write, commit everything, or lose everything uncommitted; log_write's test and its append are separate steps, so the racing ones are included |
| `StorageRefinement.RecoveryRestoresDurable` | src/log.c:69-122 | crash any reachable state, let it run with any number of further crashes until a recovery completes: the home blocks on disk are exactly the durable contents, so the transaction is there whole or not at all |
| `StorageRefinement.RunSimulates` | src/log.c:69-233 | from any safe state, what the machine stands for along a budgeted run is a behaviour of the atomic-commit disk |
| `StorageRefinement.Simulates` | src/log.c:177-202 | each single step of bget, bread, log_write's test, its append, commit, recovery or a crash is the specification's step for that event, provided the list fits its array and write_log stays in the region |
| `StorageRefinement.Keeps` | src/bio.c:60-141 | every such step keeps one buffer per block of the device, a dirty copy for every listed block and for no other, and clean unlocked copies equal to disk |
| `StorageRefinement.SafeKeeps` | src/log.c:213-233 | on a region of one block or at least LOGSIZE, every step of operations that log at most MAXOPBLOCKS distinct blocks fits, whatever the interleaving of tests and appends |
| `StorageRefinement.WriteLogFits` | src/log.c:177-190 | a list longer than the region pins every buffer, so write_log cannot read its first log block |
| `StorageRefinement.BootOk` | src/log.c:54-66 | power-on with any well-formed image satisfies the invariant and stands for what recovery would give |
| `StorageRefinement.HeadWriteCommits` | src/log.c:192-202 | at the header write what recovery gives jumps from the old contents to what readers see, for every home block |
| `StorageRefinement.ClearKeepsRecovered` | src/log.c:192-202 | erasing the header after installation changes nothing recovery gives |
| `StorageRefinement.RecoveredSame` | src/log.c:69-122 | what recovery gives depends only on the header, the listed log blocks and the unlisted home blocks |
| `StorageRefinement.DurableStable` | src/log.c:69-122 | along every budgeted run without a header write, crashes included, the durable contents do not change |
| `StorageRefinement.RecoveredIsHome` | src/log.c:115-122 | once everything is installed the home blocks are the durable contents |
| `StorageRefinement.HomeUntouchedBeforeCommit` | src/log.c:177-202 | along every budgeted run, crashes included, from an idle log to any later point before the header write, the home blocks on disk are what they were |
| `StorageRefinement.CommitIsWhole` | src/log.c:146-174 | the header is written only with no operation outstanding, and then durable and current contents agree |
| `StorageRefinement.ReaderSeesCurrent` | src/bio.c:96-106 | whoever holds a buffer's lock sees the latest contents of its block |
| `StorageRefinement.DirtyNeverEvicted` | src/bio.c:75-88 | no step that fits, except its own installation or a crash, makes a dirty buffer clean or gives it to another block |
| `BufferCache.Cache.constructor` | src/bio.c:38-56 | the list is one doubly linked ring through all buffers, every key (0, 0) |
| `BufferCache.Cache.Bget` | src/bio.c:60-93 | the cached buffer if there is one, otherwise the least recently used buffer that is unreferenced and clean, rekeyed; panic exactly when there is neither; blocks of the device that had one buffer at most still do |
| `BufferCache.Cache.Bread` | src/bio.c:96-106 | returns the latest contents and changes nobody's view of any block |
| `BufferCache.Cache.Bwrite` | src/bio.c:109-116 | one block of the disk changes, one image is added, and only the view of that block changes |
| `BufferCache.Cache.Brelse` | src/bio.c:119-141 | the last release moves the buffer to the front of the list and leaves the order of the others alone |
| `BufferCache.LinkFront` | src/bio.c:119-141 | the four pointer assignments behind the head put the node first in the ring |
| `BufferCache.Unlink` | src/bio.c:119-141 | joining a node's neighbours removes exactly that node from the ring |
| `BufferCache.FrontPermutation` | src/bio.c:119-141 | moving to the front keeps the list a permutation of the buffers |
| `BufferCache.BreadView` | src/bio.c:96-106 | reading a block in changes no view and delivers the view |
| `BufferCache.BwriteView` | src/bio.c:109-116 | writing a held buffer through changes the view of its block only |
| `BufferCache.FreedView` | src/bio.c:119-141 | releasing a buffer changes no view |
| `Log.Log.LogWrite` | src/log.c:213-233 | the block is appended unless it is listed (absorption) and its buffer pinned; panic exactly when the list is full or no operation is outstanding |
| `Log.Log.CopyToLog` | src/log.c:177-190 | one turn of write_log: log block t becomes what readers see of entry t and recovery is not affected |
| `Log.Log.WriteLog` | src/log.c:177-190 | every log block holds what readers see, and each of the n disk images on the way recovers to the old contents |
| `Log.Log.InstallOne` | src/log.c:69-82 | one turn of install_trans: entry t is home and unpinned, and recovery is not affected |
| `Log.Log.InstallTrans` | src/log.c:69-82 | all entries are home and unpinned, and each image on the way recovers to the same contents |
| `Log.Log.FillHead` | src/log.c:99-113 | the first n entries of the header block are replaced and stale ones kept |
| `Log.Log.WriteHead` | src/log.c:99-113 | the header block on disk becomes the in-memory list, one image, nothing else |
| `Log.Log.LoadHead` | src/log.c:84-96 | the in-memory list becomes the one in the header block |
| `Log.Log.ReadHead` | src/log.c:84-96 | the in-memory list is the list on disk |
| `Log.Log.CommitHead` | src/log.c:192-202 | the single image of the first header write recovers to what readers see |
| `Log.Log.ClearLog` | src/log.c:192-202 | the second header write empties the log and recovers to the same contents |
| `Log.Log.Commit` | src/log.c:192-202 | of the 2n + 2 images, the first n recover to the old contents and all later ones to the new; at the end the home blocks are the new contents and the log is empty |
| `Log.Log.Recover` | src/log.c:115-122 | every image of recovery recovers to the same contents, and at the end they are home |
| `Log.SomeFree` | src/bio.c:75-92 | with fewer than NBUF blocks pinned bget finds a free buffer |
| `Log.FreeBufferIff` | src/bio.c:75-92 | with no buffer in use, a free buffer exists exactly when fewer than NBUF blocks are pinned |
| `Log.CleanSeen` | src/log.c:177-190 | a block without a dirty copy is seen as the disk has it |
| `Log.LogWriteInvisible` | src/log.c:177-190 | a write into the log region behind an empty header is invisible to recovery |
| `Log.InstallInvisible` | src/log.c:69-82 | installing one entry is invisible to recovery |
| `Log.AllInstalled` | src/log.c:69-82 | with every entry home the home blocks are what recovery gives |
| `Log.CommitPoint` | src/log.c:192-202 | writing the header behind a complete log makes recovery give what readers see |
| `Log.ClearPoint` | src/log.c:192-202 | clearing the header behind a complete installation is invisible to recovery |
| `LogReservation.GroupCommitFits` | src/log.c:125-174 | in every interleaving of operations that log at most MAXOPBLOCKS distinct blocks: the list has no duplicates, it and the unused claims fit LOGSIZE, and a commit runs with no operation outstanding and none able to begin |
| `LogReservation.KeepsReserved` | src/log.c:125-174 | each step keeps the reservation, counted by distinct blocks or by calls |
| `LogReservation.RunKeeps` | src/log.c:125-233 | the same along every run |
| `LogReservation.ListLengths` | src/log.c:213-233 | with the test made before the lock is taken, the lists that operations within their budget can make have exactly the lengths up to the smaller of LOGSIZE and the region size plus one, and are empty on a region below two blocks |
| `LogReservation.OverrunIff` | src/log.c:213-233 | such operations can list more blocks than the region holds exactly when it has from two to LOGSIZE blocks |
| `LogReservation.PanicIffLogTooSmall` | src/log.c:213-233 | operations within their budget can reach log_write's panic exactly when the log region, header included, has at most LOGSIZE blocks, which is what mkfs makes |
| `LogReservation.AbsorbedWriteCanPanicIff` | src/log.c:213-233 | an operation that logs a listed block of its own again can panic, since the test precedes absorption, exactly when the region has two blocks or more |
| `LogReservation.PinsAllBuffersIff` | src/log.c:125-190 | a transaction that pins all NBUF buffers, so that write_log cannot read a log block, is reachable exactly when the region has at least LOGSIZE - 1 blocks |
| `LogOverrun.WriteBehind` | src/log.c:177-190 | on a region of two blocks or more but fewer than LOGSIZE, two operations within their budget that pass the test together make write_log write the block behind the region, before any header write |
| `LogOverrun.ContainedIff` | src/log.c:177-233 | uncommitted writes never change what recovery gives exactly when the region has one block or at least LOGSIZE, on every layout with room behind the region |
| `HoleReads.ReservedButForReaders` | src/fs.c:454-478 | a read of a hole logs its blocks without an operation: along every run of operations within their budget and such readers, the list and the unused budgets exceed LOGSIZE by at most the blocks readers have listed |
| `HoleReads.OneReadBreaksTheBudget` | src/log.c:213-233 | operations within their budget can run into log_write's panic with at most n readers' blocks listed exactly when the region has at most LOGSIZE blocks or n is at least one |
| `CopyOnWriteProof.RefinesPrivateMemories` | src/vm.c:260-303 | every interleaving of fork, copy-on-write faults, stores, growth, unmapping and exit is a run of processes with private memories, byte for byte |
| `CopyOnWriteProof.OthersCannotInterfere` | src/vm.c:260-303 | no run in which q itself does not store, map or unmap changes what q's pages hold, forks from q included |
| `CopyOnWriteProof.Simulates` | src/vm.c:615-640 | each kernel step is the private-memory step for that event |
| `CopyOnWriteProof.Keeps` | src/vm.c:615-640 | every step keeps: counts equal the counted mappings and what faults in progress hold, a writable entry is its frame's only mapping, no free frame is mapped, a fault that read a count of one still has the only mapping |
| `CopyOnWriteProof.FreshOk` | src/kalloc.c:54-66 | memory after freerange satisfies the invariant and holds no page |
| `CopyOnWriteProof.CountOneIsSole` | src/vm.c:615-640 | a count of one read by a process that is doing nothing else means no other mapping, not even one a fork has made and not yet counted |
| `CopyOnWriteProof.CowCopies` | src/vm.c:615-640 | the copy branch: the page moves to a frame of its own with the same bytes, writable, no other frame changes, and the old frame is still counted |
| `CopyOnWriteProof.UnmapOnlyLowers` | src/kalloc.c:73-100 | kfree of a mapped frame lowers its count and never puts it on the free list |
| `CopyOnWriteProof.FreeThenClear` | src/vm.c:772-774 | deallocuvm frees a frame before it clears the entry: whatever others do in between leads where it would have led after the clearing, so unmapping may be one event |
| `CopyOnWriteProof.FreeListNeverGrows` | src/kalloc.c:73-123 | after every run the free list is a suffix of what it was: no unmapped frame is ever reused |
| `CopyOnWriteProof.KfreeReclaimsIffUncounted` | src/kalloc.c:73-100 | a frame goes back on the free list exactly when its count is zero on entry, so a frame from kalloc needs two kfrees |
| `Fork.Kernel.EnsureTable` | src/vm.c:37-57 | afterwards the child has the page table; false only with no frame left |
| `Fork.Kernel.CopyPage` | src/vm.c:270-293 | the child's page reads as the parent's and no other page changes; on failure no page at all |
| `Fork.Kernel.FreePages` | src/vm.c:743-784 | the child has no user page left and everybody else's pages are as before |
| `Fork.Kernel.FreeTables` | src/vm.c:225-240 | the child has no page table left and everybody else's pages are as before |
| `Fork.Kernel.FreeVm` | src/vm.c:225-240 | the child is gone, all other memories are what they were, and no frame is recovered |
| `Fork.Kernel.SetupKvm` | src/vm.c:119-138 | a new empty address space, or nothing and no frame left |
| `Fork.Kernel.CopyRange` | src/vm.c:270-293 | one loop of copyuvm: the pages of the range are copied; panic only at a missing or already mapped page |
| `Fork.Kernel.CopyUvm` | src/vm.c:260-303 | Done: the child has exactly the heap and stack pages with the parent's bytes, nobody else notices, no page was missing and none is in both; Panic: a page is missing or in both; NoMemory: all memories unchanged and no frame left |
| `PagedMemory.PagingRefines` | src/vm.c:394-475 | copy-on-write and swapping in one machine: every interleaving of forks, faults, stores, growth, unmapping of present and of swapped-out pages, exits and swaps, whose swap-ins take a victim that no other page maps, is a run of processes with private memories |
| `PagedMemory.SwapInIsolatedIff` | src/vm.c:428-475 | a swap-in, which makes the page writable whatever the count of the frame, leaves processes isolated in all that can follow exactly when no other page maps the victim's frame |
| `PagedMemory.SoleIffCountOne` | src/vm.c:615-640 | for a process between kernel activities a mapping is the only one exactly when its frame's count, less what faults have still to lower, is one |
| `PagedMemory.SimulatesOut` | src/vm.c:394-421 | swapping out is invisible to every process, shared frame or not |
| `PagedMemory.TouchPanicsIff` | src/vm.c:777-781 | deallocuvm leaves PTE_PG set in the entry of a swapped-out page: over every run from a state with nothing swapped out, touching a page panics in GetAddressInSwapTable exactly when the page was so dropped and its entry has not been written since |
| `PagedMemory.FreshOk` | src/kalloc.c:54-66 | memory after freerange with nothing swapped out satisfies the invariant |
| `PageTable.SetLookup` | src/vm.c:37-57 | writing one entry changes the translation of that page only |
| `PageTable.AddTableLookup` | src/vm.c:37-57 | a fresh page table changes no translation |
| `PageTable.AddressSpace.Walk` | src/vm.c:37-57 | a table for the page exists afterwards unless kalloc failed; no translation changes |
| `PageTable.AddressSpace.MapPages` | src/vm.c:63-82 | exactly the first done pages of the range are mapped to consecutive frames; why it stopped early, for each reason |
| `PageTable.VisitsIff` | src/vm.c:743-784 | deallocuvm's loop reaches exactly the pages of its range that have a table and are not jumped over by the 4 MB skip |
| `PageTable.AlignedMissesNothing` | src/vm.c:743-784 | from a 4 MB boundary, or from inside an existing table, it misses nothing |
| `PageTable.MissesNothingIff` | src/vm.c:743-784 | it reaches every present page exactly when no present page lies in the part jumped over |
| `PageTable.SkipMissesPage` | src/vm.c:756 | shrinking from 8 MB to 4 KB leaves a page mapped |
| `PageTable.AddressSpace.DeallocUvm` | src/vm.c:743-784 | clears and frees exactly the present pages the loop reaches and takes exactly the swapped-out ones off the swap table; panics exactly when one reached is frame 0, or, for the running process, is not in the table it should be in; lowers the entry count by two for each page freed |
| `MemoryFifo.FifoRefinesQueue` | src/VirtualMemory.c:23-92 | every run of recording, replacing and removing on the table with its head and tail pointers, whose removals are of an entry that is not the last or is the only one, is a run of a queue with the same victims |
| `MemoryFifo.VictimsAreOldest` | src/VirtualMemory.c:23-53 | along every such run, addresses that come back included, the steps that recorded the victims ascend and lie before the steps that recorded the pages still listed, of which the latest is first |
| `MemoryFifo.TailPanicsIff` | src/VirtualMemory.c:23-40 | wherever the tail pointer points, GetMemoryListTail panics exactly when fewer than two entries are linked or the entry pointed at is not linked behind another |
| `MemoryFifo.ReplacedAt` | src/VirtualMemory.c:23-53 | otherwise the victim is the entry pointed at, exactly the pages recorded after it stay on the list, and older ones fall off while their slots stay in use |
| `MemoryFifo.TailRemovalOutcome` | src/VirtualMemory.c:60-92 | after the tail of a longer list is removed and some pages are recorded, the next replacement panics exactly when at most one page more was recorded than there are usable slots below the old tail's; otherwise the victim is the page recorded in that slot |
| `MemoryList.List.constructor` | src/VirtualMemory.c:254-265 | an empty list in a table of usable slots |
| `MemoryList.List.FindUsable` | src/vm.c:356-387 | the first usable slot, which is outside the list |
| `MemoryList.List.RecordInMemory` | src/vm.c:356-387 | the address goes in front of the queue; fails exactly when every slot is in use; the table and pointers are those of the step that MemoryFifo runs |
| `MemoryList.List.GetMemoryListTail` | src/VirtualMemory.c:23-40 | the oldest entry leaves the queue; panics exactly below two entries; the table and pointers are those of the step |
| `MemoryList.List.SetMemoryListHead` | src/VirtualMemory.c:47-53 | the entry taken out comes back in front with the new address |
| `MemoryList.List.FindPrevious` | src/VirtualMemory.c:60-92 | the walk ends at the predecessor |
| `MemoryList.List.RemoveFromMemoryList` | src/VirtualMemory.c:60-92 | the entry leaves the queue and the others keep their order; the structure stays valid exactly when the entry was not the tail or was the only one |
| `MemoryList.List.CopyFrom` | src/VirtualMemory.c:386-422 | the copy has the same addresses in the same order, in the first slots |
| `MemoryList.PushedShape` | src/vm.c:356-387 | pushing keeps one acyclic doubly linked list through the slots in use |
| `MemoryList.UnlinkedShape` | src/VirtualMemory.c:60-92 | unlinking any entry keeps the links of the rest |
| `MemoryList.PoppedShape` | src/VirtualMemory.c:23-40 | taking the tail keeps the links of the rest |
| `Swap.SlotTarget` | src/fs.c:743-774 | a slot's offset is inside the files exactly for the first 96 slots, and the page then lies in one file; the guard also admits slots 96 to 111 |
| `Swap.SlotsDisjoint` | src/fs.c:743-774 | two slots never overlap |
| `Swap.SlotWrite` | src/fs.c:759-774 | writing one slot leaves the bytes of every other slot alone |
| `Swap.LowestFits` | src/VirtualMemory.c:130-166 | the file reaches the offset of the lowest usable slot, so the write leaves no gap |
| `Swap.SwappedOutContents` | src/vm.c:394-421 | after swap-out every page of the process reads as before |
| `Swap.SwappedInContents` | src/vm.c:428-475 | after swap-in every page of the process that is not another mapping of the victim's frame reads as before |
| `Swap.SwapInSees` | src/vm.c:428-475 | what any process sees in any page after another has swapped in |
| `Swap.SwapInTransparentIff` | src/vm.c:428-475 | swapping in is invisible to every process exactly when the victim's frame is private or already holds the bytes that come in |
| `Swap.SharedVictimShows` | src/vm.c:428-475 | with a frame shared by fork, one process swapping in changes what the other reads |
| `Swap.OutOk` | src/vm.c:394-421 | swapping out, the table grown if need be, keeps the invariant and is invisible to every process |
| `Swap.GetEmptyInSwapTable` | src/VirtualMemory.c:130-166 | the lowest usable slot and its offset, in a new table page if all are used |
| `Swap.GetAddressInSwapTable` | src/VirtualMemory.c:173-196 | the slot holding the page, or none does |
| `Swap.Exchange` | src/vm.c:428-475 | the four-chunk loop exchanges page and slot and leaves the rest of the file alone |
| `Swap.Pager.SwapMemoryAndFile` | src/vm.c:428-475 | the page comes in for the oldest resident one; nothing changes on the two panics; the write permission it sets is in PagedMemory |
| `Swap.Pager.RecordInSwapTable` | src/vm.c:394-421 | the oldest resident page goes to the lowest usable slot, invisibly, exactly while that slot is below 96 |
| `FileSystem.WordSet` | src/fs.c:374-402 | an address stored in the bytes of an indirect block reads back and leaves the other addresses alone |
| `FileSystem.InstalledAt` | src/fs.c:374-402 | installing a block changes the slot map at one slot only |
| `FileSystem.InstalledKeeps` | src/fs.c:57-79 | allocating a free block for an empty slot keeps: a bit is set exactly when the block is metadata or owned by exactly one slot |
| `FileSystem.DataWrittenKeeps` | src/fs.c:483-513 | a data write keeps the ownership of all blocks |
| `FileSystem.DataWrittenBytes` | src/fs.c:483-513 | a data write changes the bytes of that block of that file and no other byte of any file |
| `FileSystem.TruncatedKeeps` | src/fs.c:409-437 | truncation frees exactly the file's blocks and keeps ownership |
| `FileOps.Volume.Balloc` | src/fs.c:57-79 | the lowest free block, marked, zeroed and logged; panics exactly when all are in use or no operation is outstanding |
| `FileOps.Volume.Bfree` | src/fs.c:82-97 | panics exactly on a free block or when no operation is outstanding, otherwise clears one bit |
| `FileOps.Volume.EnsureSlot` | src/fs.c:374-402 | the slot's block, allocated if empty; no other slot and no byte of any file changes |
| `FileOps.Volume.Bmap` | src/fs.c:374-402 | the block behind a direct or indirect number; changes nothing when it exists; 0 only when the disk is full or no operation is outstanding; takes one free block for each slot it fills; logs only the bitmap, the block and the indirect block |
| `FileOps.Volume.Readi` | src/fs.c:454-478 | returns exactly the slice below the size, zero in holes, and changes no byte of any file; allocates exactly when the slice touches a hole; -1 exactly for an offset beyond the size or a sum that wraps; with no operation outstanding panics exactly when the slice touches a hole, with one exactly when it touches more empty slots than blocks are free |
| `FileOps.Volume.WriteRound` | src/fs.c:497-503 | one round stores its bytes and no other byte changes |
| `FileOps.Volume.Writei` | src/fs.c:483-513 | the contents become the old ones overwritten or extended by src across the direct/indirect boundary, holes included, other files unchanged, and at most Span data blocks, one indirect, one bitmap and one inode block are logged; the inode on disk agrees afterwards exactly when the size grew or no address in the inode was missing; -1 exactly for an offset beyond the size or a file too long; panics exactly when more slots are empty than blocks are free, or bytes are to be written with no operation outstanding |
| `FileOps.FillingFails` | src/fs.c:374-402 | one free block goes for each slot filled, so an access that meets a full disk was short of blocks from the start |
| `FileOps.FillingEnds` | src/fs.c:374-402 | an access that gets all its blocks was not |
| `FileOps.Volume.FreeDirect` | src/fs.c:409-437 | exactly the direct blocks are freed |
| `FileOps.Volume.FreeEntries` | src/fs.c:409-437 | exactly the blocks of the indirect entries are freed |
| `FileOps.Volume.Itrunc` | src/fs.c:409-437 | every block of the file becomes free and nothing else does; bfree's panic on a free block is unreachable, log_write's comes exactly with no operation outstanding |
| `FileOps.WrittenContents` | src/fs.c:483-513 | all bytes stored and the size brought up to date give the overwritten contents, other files unchanged |
| `FileOps.NoHoleNoFill` | src/fs.c:483-513 | in a file without holes no access below the size needs a new block or address, so a block allocated by writei always makes the size grow and iupdate persists its address |
| `FileWrite.WriteChunk` | src/file.c:128-145 | one chunk is one operation of at most MAXOPBLOCKS logged blocks; it panics exactly when it needs more blocks than are free; a file without holes stays so and its inode on disk up to date |
| `FileWrite.ChunkFitsLog` | src/file.c:128-136 | a chunk logs at most seven distinct blocks when the bitmap is one block |
| `FileWrite.Filewrite` | src/file.c:117-154 | when all chunks succeed the file is one overwrite by all bytes; otherwise whole chunks are stored and the offset says how many; a write the file has room for panics exactly when it needs more blocks than are free at its start |
| `FileWrite.Fileread` | src/file.c:97-114 | the slice at the offset, which moves behind it; with no other process inside an operation it panics exactly in a hole and otherwise changes nothing |
| `Mkfs.EmptyImage` | src/mkfs.c:118-140 | the zeroed image is a file system with every block accounted for and every inode empty |
| `Mkfs.TakeIsInstall` | src/mkfs.c:256-297 | taking freeblock for one of the inode's slots is the kernel's allocation |
| `Mkfs.TakeEntryIsInstall` | src/mkfs.c:256-297 | the same for an entry of the indirect block |
| `Mkfs.Image.EnsureBlock` | src/mkfs.c:256-297 | the block for a data block number, or the image is full |
| `Mkfs.Image.Iappend` | src/mkfs.c:256-297 | the bytes go at the end of the file and nowhere else; fails only when the image is full or the file too long |
| `Mkfs.Image.AppendFile` | src/mkfs.c:152-156 | block-by-block appending equals one append |
| `Mkfs.AddFile` | src/mkfs.c:129-159 | one name and one file are added, all other contents stay |
| `Mkfs.Build` | src/mkfs.c:118-160 | every input file is in its inode, the root holds the entries, no file has a hole, every block is accounted for; fails only when the image is full or a file too long |
| `Mkfs.RoundRoot` | src/mkfs.c:161-166 | rounding the root's size keeps ownership, and leaves a hole exactly when the entries fill whole blocks |
| `Mkfs.RoundingHoleIff` | src/mkfs.c:161-166 | the same for any inode |
| `Mkfs.RootHoleIff` | src/mkfs.c:161-166 | the built image has a hole in its root exactly when the number of entries, dots included, is a multiple of 32, and then a read of the directory to its end meets it |
| `FreeRing.StopsAtPlace` | src/umalloc.c:24-44 | the test that ends free's search holds at the place of the address and nowhere else in the ring |
| `FreeRing.PutOk` | src/umalloc.c:24-44 | inserting a block at its place keeps the ring sorted with one wrap point |
| `FreeRing.MergeOk` | src/umalloc.c:24-44 | joining two touching blocks keeps the ring sorted and separates nothing else |
| `FreeRing.FreedOk` | src/umalloc.c:24-44 | after free the ring is sorted, no two blocks touch, and exactly the freed units were added |
| `FreeRing.UnlinkOk` | src/umalloc.c:63-90 | taking a whole block keeps the ring sorted and apart |
| `FreeRing.SplitOk` | src/umalloc.c:63-90 | taking the tail of a block keeps the ring and removes exactly those units |
| `Allocator.BigEnoughIff` | src/umalloc.c:63-70 | the block carved for a request is large enough exactly when rounding up does not wrap 32 bits |
| `Allocator.GrantedInsideIff` | src/umalloc.c:46-61 | morecore's byte count becomes a signed increment and sys_sbrk adds it twice: what a successful sbrk grants lies inside the process exactly when the request is below 2^31 bytes, and otherwise sbrk has taken memory away |
| `Allocator.Heap.Search` | src/umalloc.c:24-44 | free's search from any freep terminates at the place |
| `Allocator.Heap.Free` | src/umalloc.c:24-44 | the block's units become free, every other live block stays, free and live units partition the granted ones |
| `Allocator.Heap.Morecore` | src/umalloc.c:46-61 | the granted region becomes free, and the block at freep or the next one is large enough |
| `Allocator.Heap.Carve` | src/umalloc.c:63-90 | the block handed out overlaps no live block |
| `Allocator.Heap.Malloc` | src/umalloc.c:63-90 | 0 exactly when no free block is large enough and sbrk has nothing; otherwise a new live block of the right units; sbrk is used only when no free block is large enough; the ring walk terminates; units are conserved |
| `Wakeup.NoLostWakeup` | src/proc.c:579-636 | in every interleaving without the step named in GivingUpLosesIff: with the lock free, whoever sleeps on a channel still has its condition true, for pipes full and empty, the log and sleep locks |
| `Wakeup.LogAndLocksNeverLose` | src/log.c:125-174 | for the log and sleep locks no run at all loses a wakeup |
| `Wakeup.GivingUpLosesIff` | src/pipe.c:79-98 | a writer that gives up after storing bytes has lost a wakeup exactly if a reader was waiting |
| `Wakeup.WakeupCanBeLost` | src/pipe.c:79-98 | a killed writer can leave a reader asleep beside a full pipe with the lock free |
| `Wakeup.KillMissedIff` | src/proc.c:641-659 | after a kill the process can still fall asleep on the pipe exactly when the kill came between its test of killed and its sleep |
| `Wakeup.KilledStaysAwake` | src/pipe.c:79-121 | a killed process that is not on its way to sleep never sleeps on the pipe again, in any run |
| `Wakeup.KilledSleeperWasMissed` | src/pipe.c:79-121 | in every run a killed process that sleeps on the pipe was killed in that window |
| `Wakeup.LogAndLocksIgnoreKill` | src/log.c:125-141 | begin_op and acquiresleep behave the same whether the process was killed or not |
| `Wakeup.KilledSleepsOn` | src/sleeplock.c:22-32 | a killed process that waits for the log or a sleep lock goes back to sleep as long as its condition holds |
| `Wakeup.Keeps` | src/sleeplock.c:22-42 | the invariant behind it: between test and sleep the lock is held, and whoever falsifies a condition owes a wakeup before releasing |
| `Wakeup.IdleOk` | src/proc.c:579-636 | any object with idle processes around it satisfies the invariant, so the theorems hold from there |
| `Pipe.Fifo` | src/pipe.c:79-121 | in every interleaving, with 32-bit wrapping counters, bytes fetched are the next bytes stored, in order, and the remainder is the ring's contents |
| `Pipe.FifoFromEmpty` | src/pipe.c:79-121 | from a new pipe the bytes read are a prefix of the bytes written and at most 512 remain |
| `Pipe.FullAndEmpty` | src/pipe.c:79-121 | the wrapped comparisons decide full and empty exactly |
| `Pipe.Buffer.constructor` | src/pipe.c:22-57 | a new pipe is empty and open at both ends |
| `Pipe.Buffer.WriteFrom` | src/pipe.c:79-98 | stores the bytes in order up to where it finishes, sleeps or fails; each outcome exactly characterised |
| `Pipe.Buffer.ReadUpTo` | src/pipe.c:100-121 | returns the oldest bytes, as many as asked for or present; sleeps or fails exactly on an empty pipe open for writing |
| `Lifecycle.LifecycleSafe` | src/proc.c:374-474 | every run keeps: a RUNNING process is on exactly one CPU, every parent is alive, a process inside fork has an embryo of its own, and a process asleep in wait has a child and no zombie child |
| `Lifecycle.ReapedExactlyOnce` | src/proc.c:432-474 | no pid is reaped twice; an exited process is a zombie with a living parent or has been reaped, never both |
| `Lifecycle.Keeps` | src/proc.c:484-554 | each step of allocproc, fork, exit, wait, scheduler, yield, sleep, wakeup and kill keeps the invariant |
| `Lifecycle.KeepsWait` | src/proc.c:432-474 | no step other than exit strands a process asleep in wait |
| `Lifecycle.KeepsKids` | src/proc.c:432-474 | whoever sleeps in wait has a child, through every step |
| `Lifecycle.ExitWait` | src/proc.c:374-430 | exit, with reparenting to init, strands no process asleep in wait |
| `Lifecycle.WaitForeverIff` | src/proc.c:356-361 | a process other than init that sleeps in wait can be woken by exits exactly when it has a child that a failing fork has not left an embryo for ever |
| `Lifecycle.BootOk` | src/proc.c:238-271 | the table with init alone satisfies the invariant |
| `Lifecycle.Table.Wakeup1` | src/proc.c:616-627 | exactly the sleepers on the channel become runnable |
| `Lifecycle.Table.Exit` | src/proc.c:374-430 | the scan of exit equals its effect on the whole table: parent woken, children given to init, init woken for zombies, self a zombie |
| `Lifecycle.Table.FindZombie` | src/proc.c:441-462 | the first zombie child, or there is none, and whether there are children |
| `ShellWords.LinePlaced` | src/sh.c:265-446 | every word of a parsed tree lies in the text at its recorded place, followed by a delimiter or the end |
| `ShellWords.EndsAreDelimiters` | src/sh.c:449-493 | everything nulterminate overwrites is a delimiter or the terminator, never a byte of a word |
| `ShellWords.Nulterminate` | src/sh.c:449-493 | exactly the ends of the tree's words become terminators |
| `ShellWords.WordsReadBack` | src/sh.c:327-342 | afterwards every word reads back as a C string |
| `ShellRoundTrip.RoundTrip` | src/sh.c:327-446 | parsing the printed form of a tree of proper words, at most nine arguments per command, gives the tree back |
| `ShellRoundTrip.PrinterInjective` | src/sh.c:327-446 | two such trees that print alike are equal |
| `ShellRoundTrip.RoundTripIff` | src/sh.c:415-446 | for any tree of proper words the round trip holds exactly when no command has more than nine arguments |
| `ShellRoundTrip.ExecRound` | src/sh.c:415-446 | a printed command or block is parsed back and the parser stops behind it |
| `ShellRoundTrip.PipeRound` | src/sh.c:361-372 | the same for pipelines |
| `ShellRoundTrip.BackRound` | src/sh.c:344-359 | the same for background marks |
| `ShellRoundTrip.LineRound` | src/sh.c:344-359 | the same for lists |
| `ShellCursor.Parser.SkipSpace` | src/sh.c:310-320 | the cursor passes exactly the white space |
| `ShellCursor.Parser.Peek` | src/sh.c:310-320 | skips white space and says whether the next character is one of the given |
| `ShellCursor.Parser.GetToken` | src/sh.c:265-308 | the cursor form returns the token and stops where the parser on values does |
| `ShellCursor.Parser.ParseRedirs` | src/sh.c:374-397 | the same for redirections; panic exactly on a missing file name |
| `ShellCursor.Parser.ParseExec` | src/sh.c:415-446 | the same for commands and blocks |
| `ShellCursor.Parser.ParseArgs` | src/sh.c:415-446 | the same for the argument loop |
| `ShellCursor.Parser.ParseBlock` | src/sh.c:399-413 | the same for blocks |
| `ShellCursor.Parser.ParsePipe` | src/sh.c:361-372 | the same for pipelines |
| `ShellCursor.Parser.ParseLine` | src/sh.c:344-359 | the same for lines |
| `ShellCursor.ParseCmd` | src/sh.c:327-342 | the tree the parser on values gives and a buffer with every word terminated; on a panic the buffer is untouched |
| `Grep.Match` | src/grep.c:72-82 | true exactly when some substring, or a prefix under '^', is in the language the pattern denotes |
| `Grep.MatchHere` | src/grep.c:85-96 | true exactly when some prefix is in the language, all of the text under a final '$' |
| `Grep.MatchStar` | src/grep.c:99-106 | true exactly when the rest matches behind some run of characters that fit |
| `Grep.HereStar` | src/grep.c:85-106 | the language of a starred item and a rest, as a split of the text |
| `Grep.HereOne` | src/grep.c:85-96 | the language of a single item and a rest |
| `SharedMemory.CountsAreUsers` | src/SharedMemory.c:116-218 | over all runs with fork and exit that do not panic, any signatures: those in use are unique and each entry counts exactly the processes that list it |
| `SharedMemory.AllocKeeps` | src/SharedMemory.c:116-173 | allocation succeeds exactly when the process does not list the signature, has a free place, and the signature or a free entry is in the table; it adds exactly this user and keeps the counts |
| `SharedMemory.DeallocKeeps` | src/SharedMemory.c:181-218 | refused exactly when the process or the table lacks the signature; panics exactly when the last user leaves an entry without a page, or the signature is 0 and there is an empty place and an unused entry; otherwise this user leaves and the entry is freed exactly with the last one |
| `SharedMemory.DeallocZeroPanicsIff` | src/SharedMemory.c:181-218 | deallocation of signature 0 panics in kfree exactly when the process has an empty place and the table an unused entry, and otherwise does nothing |
| `SharedMemory.Manager.FindSelf` | src/SharedMemory.c:64-75 | the first place of the signature in the process's list |
| `SharedMemory.Manager.FindGlobal` | src/SharedMemory.c:82-93 | the first entry with the signature |
| `SharedMemory.Manager.AllocSharedMemory` | src/SharedMemory.c:116-173 | the two scans compute the allocation of which AllocKeeps speaks |
| `SharedMemory.Manager.DeallocSharedMemory` | src/SharedMemory.c:181-218 | computes the deallocation of which DeallocKeeps speaks |
| `SharedMemory.Manager.Exit` | src/proc.c:396-405 | afterwards the process lists nothing and all counts are right; panics exactly when the process is the last user of an entry for which kalloc had failed |

## Left out

- Device drivers, boot, traps and hardware set-up; the disk reads and writes whole blocks atomically.
- Spinlock internals, memory ordering, TLB flushes and context switching; a locked section is one step.
- exec, system-call argument fetching, console and printf are out of scope.
- Directories, path lookup, iget/iput and the inode cache, device inodes in readi and writei, and the reference counts of the file table.
- Byte layout of inodes, bitmap and superblock, which are records; indirect blocks are bytes.
- The swap-table half of CopyVirtualMemoryData and fork's copy of the swap files (src/VirtualMemory.c:424-447, src/proc.c:339-356): the success test of GrowSwapTable is inverted and the page count is never raised, so the copy does not take place as its comments say.
- Lazy heap growth through sbrk in src/sysproc.c, which adds the increment to the size a second time; growth is the event that maps a zeroed page, as allocuvm and stackGrow do.
- In PagedMemory a page may be swapped out and in whenever its process is between kernel activities; which page the FIFO picks is in MemoryFifo and Swap, and the swap files are in Swap.
- kfree of the frames of pipes, kernel stacks and tables kept per process.
- kalloc failing inside GrowSwapTable, which the source does not check.
- Reading and writing shared memory and GetMemoryInfo; plain copies.
- grep's chunked reading of a file; the matcher is given one line.
- runcmd and the rest of the shell behind the parser.
- Process identifiers and reference counts do not wrap.
- Wakeup.NoLostWakeup: pipe counters are unbounded there and pipe contents are left out; the wrapped counters and the bytes are in Pipe. wait-for-child is in Lifecycle.KeepsWait, Lifecycle.KeepsKids and Lifecycle.ExitWait.
- Fork.Kernel.CopyUvm: sizes are at most the top of user memory and the stack size is a multiple of the page size, as the kernel keeps them; freevm visits every page, the skip of deallocuvm being treated in PageTable.
- Fork.Kernel.FreePages: see Fork.Kernel.CopyUvm; the visits are ascending as in the source, without the skip, which from address 0 misses nothing (PageTable.AlignedMissesNothing).
- FileOps.Volume.Readi: the size is one that the slots can reach; log_write's panic on a full list depends on the log, and is in LogReservation and HoleReads.
- GroupCommitFits and the storage machine speak of log_write by operations; what a read of a hole logs is in HoleReads, and is not an event of the storage machine.
- Mkfs.Build: the input files are byte sequences; opening them and stripping the leading underscore of their names is not modelled.
- Allocator.Heap.Malloc: sbrk is the environment; it answers with memory above the allocator's static header that it has not granted before. When the request is negative as a signed number that assumption is false (Allocator.GrantedInsideIff), and what the allocator does afterwards is not modelled.
- Pipe.Buffer.WriteFrom: one stretch between two sleeps; interleavings of stretches are the runs of Pipe.Fifo.
- Lifecycle.Table.Exit: the part of exit under ptable.lock; closing files and freeing shared memory come before it.
- Allocator.Heap.Morecore: see Allocator.Heap.Malloc.
- Swap.Pager.RecordInSwapTable: filewrite of a page returns its size or -1, so the source's test for 0 never holds; a -1 is not modelled, since the file reaches the offset (Swap.LowestFits) and is short enough.
- Lifecycle.WaitForeverIff: init is left out, which exits of other processes' parents wake as well.
- LogOverrun.ContainedIff: layouts whose log region ends the device, or takes more than half of it, are left out; mkfs makes neither.
- PagedMemory.TouchPanicsIff: SwapPage does nothing for processes named init and sh; they are left out.
