# A verified model of the xv6 cores and their MLFQ scheduler

This project models, in Dafny 4.11, the parts of an xv6 kernel with a multi-level feedback
queue scheduler that are hard to get right, and proves what they promise. `dafny verify
dfyconfig.toml` checks everything.

Code that updates state in place is a class (or a method over an array) whose methods are proved
against specification functions on values; theorems are then proved about those functions.
Protocols between processes are state machines, and their theorems range over every run.

| part of the kernel | files |
|---|---|
| write-ahead log, its crash protocol, commits among readers | `DiskLog`, `Log`, `LogRuns`, `LogTheorems`, `LogAdmission` |
| buffer cache: LRU ring, pinning, write-through | `BufferRing`, `BufferCache` |
| block allocator, inodes in memory and on disk, file writes and crashes | `BlockBytes`, `FsState`, `DiskInodes`, `FsOps`, `FileWrite`, `FileCrash` |
| page allocator and two-level page tables | `VmSpec`, `VmViews`, `VmCount`, `Vm` |
| MLFQ scheduler, aging, time accounting | `MlfqSpec`, `MlfqProofs`, `MlfqTheorems`, `MlfqLife`, `MlfqRuns`, `Mlfq` |
| Kernighan and Ritchie storage allocator | `FreeList`, `Umalloc` |
| sleep locks over sleep and wakeup; pipes | `SleepLock`, `Pipe` |
| grep's matcher; the shell's parser | `Grep`, `ShellSpec`, `ShellProofs`, `ShellGrammar`, `ShellText`, `Shell` |
| shared definitions | `Common` |

## Main results

- **Crash atomicity.** Crash a commit between any two of its disk writes, then crash recovery any
  number of times: the final recovery leaves all home blocks old or all of them new, and an empty
  log (`DiskLog.CrashAtomicity`).
- **Commits among readers.** Other processes reference, lock, fill and release buffers between any two
  steps of a commit. In every run a logged block stays pinned until it is installed, clean buffers
  agree with the disk, readers see the newest contents, the disk goes through the images of
  `Log.CommitImages`, a crash at any step is atomic, and a commit can be completed from every state in
  which the buffers in use and the pinned ones leave one over (`LogTheorems`).
- **File contents.** `readi` and `writei` are slice and overwrite-or-extend on one byte sequence per
  inode; blocks are never shared; `itrunc` frees exactly what its inode owned; the bytes of the inode
  blocks always decode to the inodes last written. `filewrite` succeeds, fails or runs out of blocks
  exactly when a condition on the state before the call says so.
- **Files across crashes.** A crash anywhere in `filewrite`, followed by recovery, leaves bytes on disk
  that decode to the file overwritten by a whole number of chunks, every other file being as before
  (`FileCrash.CrashInFileWrite`).
- **Pages.** Every managed page has one role, tied to what is reachable in memory; every operation,
  including every failure path of `setupkvm`, `allocuvm` and `copyuvm`, accounts for every page; these
  fail if and only if the free list is shorter than what they take, counted before the call; page
  tables refine a map from virtual pages.
- **Scheduling.** Queue membership, work conservation, bounded starvation, time accounting and the
  number of queue places in every run; exactly when a pass picks the best level, when the timer takes
  the CPU from a process, where the process then stands, and when a slice ends; what the counters of
  a process count over its life.
- **Storage allocator.** The free list is address ordered, disjoint and fully merged, so the set of
  free bytes determines it (`FreeList.Canonical`); free and live units add up to the units obtained;
  `malloc` extends memory at most once.
- **Blocking.** Mutual exclusion and no lost wakeup for sleep locks, and from every reachable state in
  which a process wants the lock a finite continuation without new calls in which somebody gets it;
  pipes are FIFOs, also when the 32-bit counters wrap, and end of file, sleep and failure come exactly
  when the history of the run says so.
- **Languages.** grep's matcher decides a declarative semantics; the shell's parser accepts a text if and
  only if it spells out a syntax tree with white space between the tokens, and gives what the tree
  means.

## Where the code does not keep a promise

- The log's size test is made before its lock is taken, and `mkfs` gives the log as many blocks as
  `LOGSIZE`, one of them the header. Three operations of `MAXOPBLOCKS` blocks can therefore build a
  transaction of 30 blocks for a log that holds 29 (`LogAdmission.FullOperationsOverflow`). It cannot
  happen exactly when operations log fewer than `MAXOPBLOCKS` blocks (`LogAdmission.FitsExactly`).
- After a process slot is reused, the slot keeps its old place in a queue, and a process of level 1 can
  be dispatched before one of level 0 (`MlfqRuns.ReuseInvertsPriority`). A pass picks the best level if
  and only if no RUNNABLE process of a worse level has a place that comes, in scan order, before every
  place of the processes of the best level (`MlfqTheorems.PriorityExactly`); such a place is one that
  the slot kept from an earlier process.
- The timer trap sends a killed process to `exit` before the MLFQ block, and `exit` can sleep. A process
  can therefore sleep with its slice used up (`MlfqRuns.KilledKeepsSlice`). The trap leaves less than a
  used-up slice unless the process was killed, was in user code and this tick was the last of its
  slice (`MlfqTheorems.SliceEndsExactly`); inside `exit` it uses less than two slices.
- Places of exited processes stay in queue 0. For every n there is a run of n short-lived processes
  whose places are all in queue 0, so that with 1000 of them the next fork writes past the end of the
  array (`MlfqRuns.QueueOverflows`). The queues never have more places than processes were created,
  and at most `NPROC` before any slot is reused (`MlfqTheorems.QueueCapacity`).
- A pipe writer that fills the pipe and is then killed returns without waking the readers
  (`Pipe.LostWakeup`). A step loses a wakeup exactly in that case (`Pipe.AwakeExactly`).
- `malloc` computes sizes in 32 bits: a request above 2^32 - 8 bytes gets too small a block
  (`Umalloc.LargeEnough`), and `sbrk` takes an `int`, so it obtains what `morecore` records exactly
  below 2^28 units (`Umalloc.GrowthCovers`).
- The shell gives `>` and `>>` the same mode (sh.c:388-393), so the rendering needs only one of them.
- A failed `allocuvm` unmaps every page it mapped, but keeps the page tables it made.

## Model

| member | source | states |
|---|---|---|
| DiskLog.PutHead | log.c:101-113 | a header block that is written reads back as the same list of blocks, whatever was in its other words |
| DiskLog.InstalledBlocks | log.c:69-82 | after k copies the first k home blocks hold their log blocks and nothing else changed |
| DiskLog.LogWrittenBlocks | log.c:177-190 | after k copies the first k log blocks hold the cached contents and nothing else changed |
| DiskLog.InstalledKeepsLog | log.c:69-82 | installing never writes into the log, because logged blocks lie outside it |
| DiskLog.PartialInstallKeepsContents | log.c:69-82 | a partial installation keeps the header and the logical contents of every home block |
| DiskLog.RecoveryKeepsContents | log.c:115-122 | every prefix of a recovery keeps a readable header and the logical contents of every home block |
| DiskLog.RecoveryInstallsContents | log.c:115-122 | a complete recovery empties the log and leaves every home block with its logical contents |
| DiskLog.RepeatedRecovery | log.c:115-122 | so do any number of crashed recoveries followed by a complete one |
| DiskLog.CommitHolds | log.c:192-202 | before the header write the disk logically holds the old contents, from it on the new ones |
| DiskLog.CrashAtomicity | log.c:192-202 | a crash after any write of commit, then any number of crashed recoveries: header empty, and all home blocks old or all new, decided by the header write |
| BufferRing.UnlinkRing | bio.c:132-133 | taking a buffer out leaves a doubly linked ring over the others in the same order |
| BufferRing.LinkRing | bio.c:134-137 | inserting at the head leaves a doubly linked ring with the buffer first |
| BufferRing.MoveToFront | bio.c:130-138 | brelse's pointer assignments move one buffer to the front and change no payload |
| BufferCache.UpdateKeepsViews | bio.c:61-141 | an update that keeps a buffer's block and valid contents keeps what every block reads as |
| BufferCache.RecycleKeepsViews | bio.c:81-91 | giving a clean unreferenced buffer to another block loses no data and keeps one buffer per block |
| BufferCache.WriteThroughKeepsViews | memide.c:39-60 | writing a locked buffer through changes the disk block and no other view |
| BufferCache.SpareBuffer | bio.c:81-91 | with fewer dirty and held buffers than buffers, bget cannot run out |
| BufferCache.DirtyIsCached | bio.c:81-91 | a dirty block always has a valid dirty buffer: it is never recycled |
| BufferCache.Cache.Binit | bio.c:39-57 | the ring of all buffers, none assigned, every block reading as on disk |
| BufferCache.Cache.Get | bio.c:66-91 | the block's buffer if it has one, otherwise the least recently used recyclable one; None only if there is none; views and dirty set kept |
| BufferCache.Cache.FindCached | bio.c:69-76 | the first loop finds the block's only buffer or proves there is none |
| BufferCache.Cache.FindVictim | bio.c:81-91 | the second loop finds the least recently used recyclable buffer or proves there is none |
| BufferCache.Cache.Lock | bio.c:73 | taking the buffer's sleep lock records the holder only |
| BufferCache.Cache.Iderw | memide.c:39-60 | a dirty buffer goes to disk, an invalid one is filled; one atomic write at most; views kept |
| BufferCache.Cache.Bread | bio.c:97-107 | a locked valid buffer with the newest contents of the block; the disk is not written |
| BufferCache.Cache.Modify | log.c:204-212 | changing a held buffer's data changes the view of its block only |
| BufferCache.Cache.Bwrite | bio.c:110-116 | exactly one disk write, of this buffer's contents |
| BufferCache.Cache.MarkDirty | log.c:231 | pins the block in the cache |
| BufferCache.Cache.Brelse | bio.c:120-141 | releases the buffer; it becomes the most recently used one exactly when nobody references it any more |
| BufferCache.Cache.ToFront | bio.c:130-138 | relinking keeps payloads, views and the LRU order of the others |
| Log.LogState.InitLog | log.c:54-66 | from any disk with a readable header, the disk becomes the recovered one, through exactly the writes of a recovery |
| Log.LogState.BeginOp | log.c:126-141 | admission exactly when not committing and the reservation fits |
| Log.LogState.EndOp | log.c:146-174 | the last operation commits, also while other processes use buffers: afterwards the disk holds what the file system saw, and their buffers are as they were |
| Log.LogState.LogWrite | log.c:213-233 | the exact panic condition; absorption; the buffer is pinned; the dirty blocks stay exactly the logged ones |
| Log.LogState.CopyToLog | log.c:183-188 | one disk write puts the newest contents of the home block into its log block; buffers of other processes are untouched |
| Log.LogState.WriteLog | log.c:177-190 | the log receives the newest cached contents, one disk write each, and no view outside the log changes |
| Log.LogState.WriteHead | log.c:101-113 | one disk write that puts the list into the header |
| Log.LogState.CopyHome | log.c:75-80 | one disk write puts the log block home and unpins it |
| Log.LogState.InstallTrans | log.c:69-82 | the home blocks are installed in order, one disk write each |
| Log.LogState.Commit | log.c:192-202 | while others use buffers of other blocks, its disk writes are exactly the images of CommitImages, the disk then holds the newest contents of every home block, and the others' buffers are untouched and agree with it |
| Log.LogState.ReadHead | log.c:85-96 | reads the list in the header without writing to disk |
| Log.LogState.Recover | log.c:115-122 | its disk writes are exactly the images of a recovery, ending in the recovered disk |
| Log.CommitImageIs | log.c:192-202 | the images the running commit produces are those that CrashAtomicity is about |
| Log.CommitIsAtomic | log.c:192-202 | crash atomicity of the running system: after a crash at any write of a commit, recovery yields for all blocks the disk before it or all that the cache showed |
| Log.PendingBuffer | log.c:213-233 | if the dirty blocks are the pending ones, each has exactly one buffer, valid, dirty, not recyclable and with the newest contents |
| Log.CommittedContents | log.c:192-202 | after a commit the home blocks hold what the file system saw before it |
| LogRuns.DoKeeps | log.c:125-233 | every step of every process, the committer's included, keeps the invariant that ties buffers, log and disk together |
| LogRuns.WriteIs | log.c:177-202 | what the committer's locked buffers hold when it writes: the block logged, the header on disk, or the log block |
| LogRuns.NextWrite | log.c:192-202 | each disk write of a commit leads from one image of CommitAfter to the next |
| LogTheorems.PendingIsPinned | log.c:213-233 | in every run, in the middle of a commit too, a block logged and not yet installed has exactly one buffer, valid, dirty, not recyclable and what the file system sees |
| LogTheorems.CacheAgreesWithDisk | bio.c:61-141 | in every run a valid clean buffer equals its disk block unless an operation holds it, and every dirty buffer is for a pending block |
| LogTheorems.CommitStart | log.c:146-174 | every commit under way was started by the end_op of the last operation, with the disk, blocks and contents of that moment |
| LogTheorems.CommitHistory | log.c:192-202 | whatever other processes do, the disk writes of a commit are the images of CommitImages in order |
| LogTheorems.ReadersSeeNewest | file.c:105-108 | at every moment of a commit every home block reads as it did when the commit started |
| LogTheorems.CrashAnywhere | log.c:192-202 | in every state of every run a crash and any crashed recoveries restore all home blocks of the disk or all that the file system saw, decided by the header write |
| LogTheorems.CommitIsDurable | log.c:192-202 | when a commit ends the disk holds what the file system saw when it started |
| LogTheorems.CommitCompletes | log.c:161-173 | from every state with a buffer to spare the commit under way can be completed by the committer and the holders of buffers it needs |
| LogAdmission.Reservation | log.c:125-174 | in every run lh.n plus the unused reservations is at most LOGSIZE, committing implies no operation is outstanding, and the panic "log.committing" is unreachable |
| LogAdmission.SmallOperationsFit | log.c:213-233 | with fewer than MAXOPBLOCKS blocks per operation the transaction fits the log on disk in every run and nothing panics |
| LogAdmission.FullOperationsOverflow | log.c:213-233 | a run with MAXOPBLOCKS blocks per operation in which it does not fit |
| LogAdmission.FitsExactly | param.h:10-11 | every run fits the log on disk if and only if operations log fewer than MAXOPBLOCKS blocks |
| BlockBytes.BlockBits | fs.c:66-68 | setting or clearing one bit of the free map changes that bit only |
| BlockBytes.PutWordAt | fs.c:389-395 | storing a word of the indirect block changes that word only and reads back, byte by byte |
| BlockBytes.PutWordsAt | fs.c:221-236 | a structure stored word by word changes those words only and reads back |
| BlockBytes.WordsDetermine | fs.c:385-395 | two blocks with the same words are the same bytes |
| FsState.AllocKeeps | fs.c:56-78 | taking a free block disturbs no address, no other block and no ownership |
| FsState.AssignKeeps | fs.c:373-400 | storing a fresh block in an empty slot keeps ownership disjoint and every byte of every file |
| FsState.WriteBlock | fs.c:499-503 | writing into one block of a file changes exactly those bytes of that file and of no other |
| FsState.FreeKeeps | fs.c:81-95 | freeing a block that nobody owns any more keeps ownership and every other block |
| FsState.WroteContent | fs.c:482-511 | the bytes written, with the size update, are overwrite-or-extend on the contents |
| FsState.BelowMapKeeps | fs.h:8-10 | files, addresses and the free map do not depend on the blocks of the log and the inodes |
| DiskInodes.PutInodeAt | fs.c:221-236 | an inode stored in its block reads back, and the other inodes of the block read as before |
| DiskInodes.PutInodeElsewhere | fs.c:221-236 | no word outside the size and the addresses changes |
| DiskInodes.TracksStore | log.c:213-233 | changing and logging a block outside the inode area keeps the log complete and every inode on disk |
| DiskInodes.TracksInode | fs.c:221-236 | writing an inode changes that inode on disk and no other |
| FsState.AllocSlack | fs.c:56-78 | filling an empty slot of a file takes exactly one free block |
| FsState.SlackDone | fs.c:482-511 | a write that is done has filled every slot that it goes through |
| FsOps.FileSystem.Balloc | fs.c:56-78 | the lowest free block, now marked and zeroed; None only if every block is used |
| FsOps.FileSystem.Bfree | fs.c:81-95 | clears one bit; panics exactly on a free block |
| FsOps.FileSystem.Iupdate | fs.c:221-236 | only the inode's words in its block change, they decode to the inode in memory, and every other inode decodes as before |
| FsOps.FileSystem.Bmap | fs.c:373-400 | the block of the file, allocated together with the indirect block if missing; ownership stays disjoint, contents stay equal; an existing block costs nothing |
| FsOps.FileSystem.BmapAddr | fs.c:379-388 | a direct slot is filled at most once |
| FsOps.FileSystem.BmapEntry | fs.c:389-395 | an entry of the indirect block is filled at most once |
| FsOps.FileSystem.Itrunc | fs.c:408-435 | frees exactly the blocks the inode owned, never panics, empties this file and keeps all others |
| FsOps.FileSystem.TruncDirect | fs.c:414-419 | releases exactly the direct blocks |
| FsOps.FileSystem.TruncIndirect | fs.c:421-431 | releases exactly the blocks in the indirect block and the block itself |
| FsOps.FileSystem.Readi | fs.c:453-476 | the slice of the contents, cut at the size; the exact rejection condition with 32-bit wrap; nothing is allocated or logged |
| FsOps.FileSystem.WritePiece | fs.c:499-503 | one iteration writes its bytes and logs at most its data, free-map and indirect blocks |
| FsOps.FileSystem.Writei | fs.c:482-511 | overwrite-or-extend on the contents, other files kept, the exact rejection condition, running out of blocks if and only if there are fewer free blocks than empty slots to fill, and at most MAXOPBLOCKS logged blocks per chunk |
| FsOps.FirstIsBacked | file.c:126-153 | a partly covered first block is already allocated |
| FsOps.DirtiedBound | file.c:126-153 | a chunk dirties at most MAXOPBLOCKS distinct blocks |
| FileWrite.OpenFile.FileWrite | file.c:117-156 | a series of transactions, each starting from the blocks the last one left and logging at most MAXOPBLOCKS blocks, overwrite the file with the first bytes of the source; it halts if and only if there were too few free blocks for the bytes that fit, and otherwise returns n if and only if all of them fit |
| FileWrite.OpenFile.Transaction | file.c:136-151 | one chunk adds its bytes to the progress and moves the offset, logs everything it changes, and leaves blocks that decode to the file system in memory |
| FileWrite.ChunkNeeds | file.c:133-151 | a chunk is rejected exactly at the end of the bytes that fit; the accepted ones go through slots of the whole write |
| FileWrite.OverwrittenTwice | file.c:136-151 | two adjacent overwrites are one |
| FileCrash.SameFileSystem | fs.h:8-10 | blocks that agree from the inodes on decode to the same files |
| FileCrash.CrashInTransaction | log.c:192-202 | a crash at any write of a transaction's commit and any crashed recoveries leave bytes that decode to the files before the transaction or to those after it |
| FileCrash.CrashInFileWrite | file.c:117-156 | after a crash anywhere in filewrite the file is overwritten by a whole number of chunks and every other file is as before |
| VmSpec.DataStore | vm.c:334 | stores into pages that hold data change no translation |
| VmSpec.NewTable | vm.c:45-52 | a new blank page table changes no translation and keeps the page roles exact |
| VmSpec.NewEntry | vm.c:69-73 | a new entry changes one translation; below KERNBASE its frame becomes user memory |
| VmSpec.DropEntry | vm.c:269-275 | clearing a user entry removes one translation and hands back exactly its frame |
| VmSpec.RetireDir | vm.c:291-297 | without user frames, a directory and its tables can be taken out of service together |
| VmSpec.Popped | kalloc.c:89-91 | the first page of the free list leaves it, and the rest is the list |
| VmSpec.Pushed | kalloc.c:72-74 | a freed page becomes the first of the list |
| VmViews.NoSharing | vm.c:221-298 | user memory is shared by no two virtual pages of any directories and is neither free nor a page table |
| VmViews.NextPage | vm.c:66-77 | the loop of mappages ends at its last page, also when the range ends at 2^32 |
| VmViews.SkipTable | vm.c:267-268 | skipping to the next page table passes over no mapped page |
| VmViews.KmapRange | vm.c:105-115 | the four ranges of kmap, with sizes in 32-bit arithmetic, are disjoint and cover exactly the promised kernel pages |
| VmViews.GivenBack | vm.c:131-134 | freeing a directory that was just built restores the role of every page |
| VmViews.AllocUndo | vm.c:235-246 | the failure path of allocuvm restores every translation |
| VmCount.KernelTablesSize | vm.c:105-115 | the kernel mapping has 64 page tables |
| VmCount.CopyCostNext | vm.c:315-345 | each page that copyuvm adds costs one page, and a page table when the directory lacks it |
| VmCount.AllocCostNext | vm.c:221-249 | so for allocuvm, with the tables that the directory had before |
| Vm.Memory.constructor | kalloc.c:31-37 | before kinit no page is on the free list |
| Vm.Memory.FreeRange | kalloc.c:46-53 | exactly the whole pages of the range become free, each once |
| Vm.Memory.Kalloc | kalloc.c:82-95 | a free page leaves the list; none exactly when the list is empty |
| Vm.Memory.Kfree | kalloc.c:59-77 | the page is first on the list; no other page and no translation changes |
| Vm.Memory.Walk | vm.c:35-55 | the page table of the index, made from a free page if asked; no translation changes; the exact failure condition; free pages and page tables of the directory add up to the same |
| Vm.Memory.MapPages | vm.c:60-80 | exactly the first k pages of the range map to consecutive frames, all of them on success; every other translation, role and content is kept; it terminates for every range; it fails for lack of memory only with an empty free list and a page table missing |
| Vm.Memory.SetEntry | vm.c:73 | one translation changes |
| Vm.Memory.DropPage | vm.c:269-276 | one user page is unmapped and its frame is free |
| Vm.Memory.DeallocUvm | vm.c:255-279 | with its skips it equals page-by-page removal: the range is unmapped, exactly its frames are free, nothing else changes |
| Vm.Memory.FreeVm | vm.c:283-298 | every page of the directory is free, each once; every other page keeps its role and contents, every other directory its translations |
| Vm.Memory.SetupKvm | vm.c:118-136 | the kernel mapping and nothing else, in 65 pages that were free; it fails if and only if fewer are free, and then every page has its old role |
| Vm.Memory.PlacePage | vm.c:231-243 | a page is fetched and mapped if and only if there is a free page for it and for the page table it may need |
| Vm.Memory.AllocUvm | vm.c:221-249 | zeroed user pages in exactly the range; it fails if and only if the size is too large or the pages and missing page tables outnumber the free pages, and then every translation is as before and only new page tables remain |
| Vm.Memory.GiveUp | vm.c:235-246 | undoes a partial growth |
| Vm.Memory.CopyPage | vm.c:324-339 | one page copied and mapped, or the new page given back |
| Vm.Memory.CopyUvm | vm.c:315-345 | every page copied with equal flags and contents into another frame, the parent untouched; it fails if and only if fewer pages are free than the copy takes, and then every page has its old role |
| MlfqProofs.AgeOneKeeps | proc.c:145-278 | promoting one process keeps the scheduler invariant and touches no other process |
| MlfqProofs.TickedKeeps | trap.c:44-66 | a tick keeps the invariant, except that the running process may have used up its slice |
| MlfqProofs.SlicedKeeps | trap.c:131-334 | ending the slice restores the invariant |
| MlfqProofs.KilledKeeps | trap.c:112-113 | a killed process that is sent to exit() with a used-up slice keeps the invariant |
| MlfqProofs.EntriesMoved | trap.c:137-160 | moving a slot between queues never adds a place |
| MlfqProofs.DoKeeps | proc.c:806-966 | every event keeps the invariant, with exit() as a stretch in which the process can sleep and run |
| MlfqTheorems.Membership | proc.c:141-282 | in every run each process in use is in the queue of its level, and queues 1 to 4 hold no slot twice |
| MlfqTheorems.WorkConserving | proc.c:806-966 | in every run a pass dispatches a process exactly when one is RUNNABLE |
| MlfqTheorems.OnceKept | proc.c:312-330 | without slot reuse every slot has at most one place in all queues |
| MlfqTheorems.HighestPriority | proc.c:806-966 | without slot reuse the dispatched process has the best level, and is first among equals |
| MlfqTheorems.PriorityExactly | proc.c:806-966 | in every run a pass picks the best level m if and only if no RUNNABLE process of a worse level has a place before all places of the processes of level m; such a place is in queue m or a better one, so its slot is stale |
| MlfqTheorems.OnlyStaleInverts | proc.c:806-966 | in every run a dispatched process that sits in no better queue has the best level |
| MlfqTheorems.QueueCapacity | proc.c:327 | in every run the queues together have at most one place for each process ever created, and at most NPROC before a slot is reused |
| MlfqTheorems.Accounting | trap.c:44-66 | in every run a live process has used less than its slice, or less than two if it was killed and is inside exit(); tick counts add up to the run time; and the wait that waitx reports is not negative |
| MlfqTheorems.SliceEndsExactly | trap.c:112-113 | the trap leaves the process with less than a used-up slice if and only if it was not killed in user code at the last tick of its slice |
| MlfqLife.TimerExactly | trap.c:131-334 | in every run the timer takes the CPU from a process, not killed in user code, if and only if its slice is used up or a RUNNABLE process has a place in a better queue; the process then is at the end of the next queue, or of queue 4, or keeps its place and level with nobody new ahead of it |
| MlfqLife.Transitions | proc.c:289-1139 | in every run the state of every slot changes exactly as the table of the six states says: who is created, wakes, is dispatched, sleeps, yields, exits and is reaped |
| MlfqLife.ForkExactly | proc.c:430-487 | a fork with a slot and memory makes one process with a new pid, last in queue 0; any other fork makes none |
| MlfqLife.CallEffects | proc.c:1030-1139 | sleep, kill, waitx and the start of exit change one slot, in the named fields |
| MlfqLife.Lifetime | trap.c:44-66 | in every run creation time, ticks per level and dispatch count of a live process are the time of its fork, the ticks that found it running at that level, and the passes that chose it |
| MlfqLife.LifeSpan | proc.c:531 | exit time minus creation time is the number of ticks between the fork and the exit |
| MlfqLife.WaitxReports | proc.c:613-616 | waitx reports as rtime the ticks that found the process running and as wtime all other ticks of its life |
| MlfqRuns.ReuseInvertsPriority | proc.c:327 | a run with slot reuse that dispatches level 1 before level 0 |
| MlfqRuns.KilledKeepsSlice | trap.c:112-113 | a run that ends with a killed process asleep in exit() with its slice used up |
| MlfqRuns.QueueOverflows | proc.c:327 | for every n a run of short-lived children after which queue 0 has n places and a fork adds another |
| MlfqTheorems.WaitingProgress | proc.c:141-282 | each tick of waiting brings a process closer to level 0 |
| MlfqTheorems.BoundedStarvation | proc.c:14 | a process of level k that waits is at level 0 after 51 k ticks |
| MlfqTheorems.PromotionKeepsOrder | proc.c:141-282 | a promotion keeps the order of the others in every queue |
| MlfqTheorems.SliceKeepsOrder | trap.c:131-334 | so does the end of a slice |
| Mlfq.ShiftDown | proc.c:198-200 | the shifting loop removes one entry of the array |
| Mlfq.Kernel.Boot | proc.c:11-16 | the zeroed tables are the initial state |
| Mlfq.Kernel.FindFirst | proc.c:183-188 | the first place of the process, or 0 |
| Mlfq.Kernel.FindLast | trap.c:137-142 | the last place of the process, or -1 |
| Mlfq.Kernel.Add | proc.c:201-211 | appends unless a process with this pid is there |
| Mlfq.Kernel.MoveTo | trap.c:137-160 | moves one entry between the queue arrays |
| Mlfq.Kernel.AgeSlot | proc.c:145-278 | one iteration of aging refines AgeOne and keeps the invariant |
| Mlfq.Kernel.Aging | proc.c:141-282 | aging refines Aged over all slots |
| Mlfq.Kernel.Wake | proc.c:1068-1111 | exactly the sleepers on the channel become RUNNABLE |
| Mlfq.Kernel.Tick | trap.c:44-66 | clock, wakeups, aging and charging refine Ticked |
| Mlfq.Kernel.HigherRunnable | trap.c:288-331 | tells whether a better queue holds a RUNNABLE process |
| Mlfq.Kernel.Rotate | trap.c:271-286 | the entry goes to the end of queue 4 |
| Mlfq.Kernel.EndSlice | trap.c:131-334 | demotion, rotation and preemption refine Sliced and restore the invariant |
| Mlfq.Kernel.Demote | trap.c:133-286 | a used-up slice moves the process one queue down, or to the end of queue 4 |
| Mlfq.Kernel.Timer | trap.c:44-334 | the whole timer trap, with a killed process sent to exit(), refines the event TimerTrap and keeps the invariant |
| Mlfq.Kernel.ScanQueue | proc.c:810-835 | the first RUNNABLE process of a queue |
| Mlfq.Kernel.SchedulerPass | proc.c:806-965 | a pass refines Dispatched and keeps the invariant |
| Mlfq.Kernel.AllocProc | proc.c:312-359 | refines Allocated: a fresh pid, level 0, appended to queue 0 |
| Mlfq.Kernel.Fork | proc.c:430-487 | refines the event Fork; a pid comes with a new RUNNABLE process, no pid with none |
| Mlfq.Kernel.Waitx | proc.c:613-628 | reports the run time and the rest of the lifetime, neither negative |
| FreeList.InsertedSorted | umalloc.c:33-42 | giving a block back keeps the list ordered, disjoint and fully merged |
| FreeList.InsertedHolds | umalloc.c:33-42 | exactly the bytes of the block become free |
| FreeList.CarvedSorted | umalloc.c:76-82 | taking units keeps the list ordered, disjoint and fully merged |
| FreeList.CarvedHolds | umalloc.c:76-82 | exactly the bytes of the new block stop being free |
| FreeList.InsertedUnits | umalloc.c:33-42 | the free units grow by the size of the block |
| FreeList.CarvedUnits | umalloc.c:76-82 | the free units shrink by the size of the block |
| FreeList.Canonical | umalloc.c:24-44 | two lists with the same free bytes are equal, so merging leaves no choice |
| Umalloc.LargeEnough | umalloc.c:69 | the block has room for the request if and only if the 32-bit sum does not wrap |
| Umalloc.GrowthCovers | umalloc.c:54 | sbrk obtains the memory that the header claims if and only if there are fewer than 2^28 units |
| Umalloc.Stops | umalloc.c:30-32 | the exit tests of free's loop hold at exactly one node, the block's predecessor |
| Umalloc.LinkedInserted | umalloc.c:33-42 | the stores of free leave a ring over the new list |
| Umalloc.LinkedCarved | umalloc.c:76-82 | the stores of malloc leave a ring over the new list |
| Umalloc.Heap.constructor | umalloc.c:21-22 | the state before the first call |
| Umalloc.Heap.Free | umalloc.c:24-44 | exactly the block's bytes become free, every other live block is untouched, units are conserved, and the loop terminates |
| Umalloc.Heap.Relink | umalloc.c:33-43 | merges with either neighbour as needed |
| Umalloc.Heap.Morecore | umalloc.c:46-61 | on success exactly the new memory becomes free |
| Umalloc.Heap.Init | umalloc.c:70-73 | the ring of base alone |
| Umalloc.Heap.Take | umalloc.c:75-84 | the new live block is disjoint from all others and from the list |
| Umalloc.Heap.Malloc | umalloc.c:63-90 | a live block of the computed size out of the old free bytes or the new memory; sbrk is called at most once, exactly when nothing fits; failure changes nothing; the scan terminates |
| SleepLock.DoKeeps | sleeplock.c:22-42 | every step of every process keeps the protocol invariant |
| SleepLock.MutualExclusion | sleeplock.c:22-42 | in every run at most one process holds the lock, and it is the recorded one |
| SleepLock.NoLostWakeup | proc.c:1030-1118 | in every run nobody sleeps, or is about to, on a free lock whose inner lock is free |
| SleepLock.HoldingSleep | sleeplock.c:44-53 | the test of holdingsleep is true exactly for the holder |
| SleepLock.StepCloser | sleeplock.c:22-42 | with nobody holding the lock, every step of a process decreases a measure, sleeping again included |
| SleepLock.NoDeadlock | sleeplock.c:22-42 | from every reachable state in which a process is in acquiresleep a finite continuation without new calls leads to a holder; in releasesleep, to its return |
| Pipe.Tests | pipe.c:85-106 | the full and empty tests are right although the counters wrap |
| Pipe.PutKeeps | pipe.c:93 | a stored byte overwrites no byte in flight |
| Pipe.GetKeeps | pipe.c:116 | the fetched byte is the oldest in flight |
| Pipe.StoredIs | pipe.c:84-94 | a section accepts exactly the first bytes that fit |
| Pipe.FetchedIs | pipe.c:113-117 | a section delivers exactly the oldest bytes, as many as asked or there are |
| Pipe.Fifo | pipe.c:78-121 | in every run the bytes delivered are a prefix of those accepted and at most PIPESIZE are in flight |
| Pipe.EndsAre | pipe.c:59-75 | in every run an end is open if and only if it was and no close of that end has happened |
| Pipe.EndOfFile | pipe.c:100-121 | in every run a read returns 0 if and only if the write end is closed and all accepted bytes are delivered; it sleeps or fails if and only if they are and the end is open |
| Pipe.BrokenPipe | pipe.c:78-98 | in every run a write fails if and only if its bytes do not fit and the read end is closed or the writer killed |
| Pipe.SleepersAre | pipe.c:59-121 | exactly who sleeps after each step, by the outcomes |
| Pipe.AwakeExactly | pipe.c:78-121 | a step leaves a process asleep without reason if and only if a writer gives up after filling the pipe |
| Pipe.NoLostWakeup | pipe.c:78-121 | without such a step nobody sleeps without reason in any run |
| Pipe.LostWakeup | pipe.c:85-89 | a run in which a reader sleeps over a full pipe |
| Pipe.PipeBuffer.constructor | pipe.c:33-36 | the new pipe is the initial state |
| Pipe.PipeBuffer.Store | pipe.c:93 | refines Put |
| Pipe.PipeBuffer.Fetch | pipe.c:116 | refines Get |
| Pipe.PipeBuffer.StoreAll | pipe.c:84-94 | stores bytes in order until all are stored or the pipe is full |
| Pipe.PipeBuffer.WriteSection | pipe.c:78-98 | refines the event Write; the exact outcome, the bytes accepted, and who is woken or put to sleep |
| Pipe.PipeBuffer.ReadSection | pipe.c:100-121 | refines the event Read; the exact outcome, the bytes delivered, and who is woken or put to sleep |
| Pipe.PipeBuffer.CloseEnd | pipe.c:59-75 | closes the named end, wakes those who sleep on it and nobody else; the page goes when both ends are closed |
| Grep.FirstItem | grep.c:85-96 | a pattern matches if its first item takes a stretch and the rest matches after it |
| Grep.MatchHere | grep.c:85-96 | true if and only if the items of the pattern explain some stretch of the text from here on |
| Grep.MatchStar | grep.c:99-106 | true if and only if some stretch of fitting characters is followed by a match |
| Grep.Match | grep.c:72-82 | true if and only if the pattern matches at some position, at the first one for ^ |
| ShellSpec.GetToken | sh.c:265-308 | every token consumes text unless none is left |
| ShellProofs.LineIs | sh.c:344-359 | a rendered command inside a parenthesis or at the end parses to itself |
| ShellProofs.RoundTrip | sh.c:327-342 | every plain command survives rendering and parsing, and all input is consumed |
| ShellProofs.LinePlain | sh.c:344-446 | every parse yields non-empty plain words and at most 9 arguments per command |
| ShellProofs.NormalForm | sh.c:327-342 | the rendering of what any accepted text parses to parses to the same command |
| ShellGrammar.LineParse | sh.c:344-446 | the tokens of any syntax tree, with redirections among the arguments, pipelines, background marks, lists and parentheses, parse to what the tree means |
| ShellGrammar.LineSound | sh.c:344-446 | whatever is parsed comes from a syntax tree with that meaning |
| ShellGrammar.ParsesExactly | sh.c:327-342 | a text parses to a command if and only if its tokens are those of a tree that means it |
| ShellText.LexLayout | sh.c:265-308 | tokens spelled out with any white space that keeps them apart are read back |
| ShellText.EveryText | sh.c:265-308 | every text is such a spelling of its tokens |
| ShellText.AnyLayout | sh.c:327-342 | every syntax tree, spelled out with any such white space, parses to what it means |
| ShellText.Accepted | sh.c:327-342 | every accepted text spells out a syntax tree with the meaning that the parser gives |
| Shell.Parser.NextToken | sh.c:265-308 | refines GetToken over the buffer |
| Shell.Parser.PeekAt | sh.c:310-320 | refines Peek and skips spaces only |
| Shell.Parser.Redirs | sh.c:374-397 | refines ParseRedirs |
| Shell.Parser.Line | sh.c:344-359 | refines ParseLine and terminates |
| Shell.Parser.Backs | sh.c:350-353 | refines ParseBacks |
| Shell.Parser.PipeLine | sh.c:361-372 | refines ParsePipe and terminates |
| Shell.Parser.BlockCmd | sh.c:399-413 | refines ParseBlock and terminates |
| Shell.Parser.ExecCmd | sh.c:415-446 | refines ParseExec and terminates |
| Shell.Parser.Args | sh.c:431-445 | refines ParseArgs |
| Shell.Parse | sh.c:327-342 | refines ParseCmd, with each panic as an outcome, and yields plain commands |

## Left out

- Log.LogState.Commit: other processes use buffers that the commit does not need and take no steps during it; waiting for them, and their steps in between, are in `LogRuns`. So for `EndOp`, `WriteLog`, `WriteHead` and `InstallTrans`.
- Log.LogState.LogWrite: the unlocked size test and the append are one step; they are apart in `LogAdmission`.
- LogRuns.DoKeeps: log_write's size test and append are one step, as in `Log.LogState.LogWrite`; any recyclable buffer may be recycled; a process that commits acts under a pid of its own.
- LogTheorems.CommitCompletes: that the steps are in fact taken depends on the scheduler.
- BufferCache.Cache.Bread: the block's buffer is not locked by another process; waiting for it is in `LogRuns`, and the lock itself in `SleepLock`.
- BufferCache.Cache.Brelse: a holder that changed the data has logged or written it, as log.c asks of its callers.
- FsOps.FileSystem.Readi: device inodes are not modelled.
- FsOps.FileSystem.Writei: device inodes are not modelled; running out of blocks is an outcome, as the code panics there.
- FsOps.FileSystem.Iupdate: types, device numbers and link counts are not in the model's inodes; their words are left as they are.
- FileWrite.OpenFile.FileWrite: pipes and negative counts are not modelled, and nobody else writes between two transactions.
- FileCrash.CrashInFileWrite: the transaction is committed alone; other operations in the same commit are not modelled.
- Vm.Memory.DeallocUvm: sizes are at most KERNBASE, as for every caller.
- Vm.Memory.AllocUvm: the pages to be added are not mapped before, as the code panics otherwise.
- Vm.Memory.CopyUvm: the pages below the size are mapped, as the code panics otherwise.
- Mlfq.Kernel.Timer: the queues together have at most as many places as one array has entries, as in every run of up to 1000 processes (`MlfqTheorems.QueueCapacity`); past an array's end the code overwrites other memory. So for `Tick`, `Aging` and `AgeSlot`.
- Mlfq.Kernel.Fork: queue 0 has room for the new place. So for `AllocProc`.
- Mlfq.Kernel.SchedulerPass: one CPU, as the build starts; the switch itself is a step.
- Umalloc.Heap.Morecore: requests are below 2^28 units, as for `Malloc`.
- Umalloc.Heap.Malloc: a request of 2^28 units or more that no free block serves is excluded, as `sbrk` then obtains no memory for it.
- Umalloc.Heap.Free: the argument came from `malloc` and its header is intact, as the code cannot tell.
- SleepLock.NoDeadlock: the continuation exists; fairness of the scheduler and of the spin locks, which would make it happen, is not modelled.
- Shell.Parse: `nulterminate` only cuts the words out of the buffer; words are values here.
- Clocks, device interrupts and the scheduler's choice of the next step are events; whether memory is found is a parameter of `Fork`, `Malloc` and `Morecore`.
- Directories, path lookup, inode allocation and reference counts, `exec` and system call arguments.
- Device and boot code, context switching, trap frames and segments.
- The other scheduling policies, `set_priority`, `getpinfo`, `wait` and the process listing.
- The queues' `beg` and `end` counters, which decide nothing.
- `clearpteu`, `copyout` and `inituvm`: each changes one mapped page through the page tables that the model has.
- grep's line buffer and the user test programs.
