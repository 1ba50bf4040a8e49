# xv6-riscv with demand paging: a Dafny model

xv6-riscv is a small teaching Unix for RISC-V; this variant adds demand paging, FIFO eviction and a swap
file per process. The project models the parts of it whose correctness rests on reasoning across
functions, and proves what their comments and callers rely on.

* **Disk, cache, log, files.** `Bio` is the buffer cache, `LogDisk`, `LogSpace` and `Log` the write-ahead
  log, `FsState`, `FsContent`, `FsLog`, `FileSystem`, `FsFree` and `FsTrunc` the inode layer and `filewrite`;
  `Blocks`, `Bits` and `Dinodes` are little-endian words, bitmaps and inodes in blocks. The disk is a sequence of
  blocks, every `bwrite` adds one image to a trace, and a crash keeps nothing but the disk. The trace of
  `Log.Commit` is the very sequence that `LogDisk.CrashAtomicityRun` quantifies over, and the bound
  `FsLog.ChunkFits` proves for `filewrite` is the one `LogSpace.LogSpaceSafe` asks of every operation
  (`FsLog.ChunkStep`). `LogReaders` has other processes reading the cache during a commit, `LogRuns` has one transaction after the other, `FsSteps` and
  `FsTogether` have any number of operations at once in a transaction, and `FsCrash` puts the layers together:
  what inodes and file contents are read from the disk after a crash anywhere in such a run.
* **Memory.** `PageTableState`, `PageTableSteps` and `PageTable` are Sv39 page tables (section 4.4 of the
  RISC-V Privileged Architecture, version 1.12) as 512-word pages in physical frames, with the frame
  allocator. `PagingState`, `PagingSteps`, `PagingEvents`, `Paging` and `PagingRuns` are the page-fault handler,
  eviction and swapping of one process after exec, compared with a flat memory; each call of the code is a run of
  events, and the theorems are over all runs. `PagingFork` is what `kfork` passes on, built page by page.
* **Concurrency.** `SleepWakeup` is a step system for `sleep`, `wakeup`, `kkill` and the scheduler, one step for
  each lock operation; `SleepLocks` and `ExitWait` are its clients. `SleepCalls` and `ExitWaitEnds` say what whole
  calls come to, that they end, and that nothing but a lock or sleep holds them up. `InodeRefs` is the reference
  count and the links of an inode. `Rings` is index arithmetic that wraps; `VirtioDisk` is the split virtqueue driver
  with the device as a second party, `Pipe` the pipe ring. In the classes `BufferCache`, `Log`, `Disk` and
  `PipeBuffer` a method is a region that runs under one lock, so a run of method calls is an interleaving,
  and what the validity predicate says holds after each.
* **User programs.** `Umalloc` with `UmallocState`, `UmallocSteps`, `UmallocCanonical` and `UmallocWrap` is the
  K&R allocator, `Grep` the matcher, `ShSyntax`, `ShParser`, `ShRoundTrip` and `ShTerminate` the parser of the
  shell; `ShGrammar` and `ShText` say what a command line is and means without reference to the parser.
  `Naturals` has the smaller and the larger of two numbers.

Code that updates things in place is a class with methods proved against functions on values; the
invariants, and the theorems over all runs, are lemmas about those functions. I/O, user copies and the
decisions of other processes are parameters: the copy that fails, whether `sbrk` is granted, how much of a
page `writei` manages to write, when a process is seen to be killed.

## What turned out not to hold

Each of these is stated as a lemma or an exact postcondition.

* At most MAXOPBLOCKS distinct blocks per operation do not keep `log_write` from panicking: it tests for a
  full log before it looks for the block (`LogSpace.MaxOpBlocksNotEnough`). It panics exactly when the log
  is full (`LogSpace.LogWriteExact`); fewer than MAXOPBLOCKS before every call is enough
  (`LogSpace.LogSpaceSafe`), and `filewrite` stays within that.
* A data page is loaded clean and no store marks it dirty, so an eviction discards what was stored in it. A
  stored byte survives exactly if the page is not discarded afterwards or the program file has the same byte
  (`PagingRuns.StoreSurvives`); `PagingRuns.LostByte` is a run that loses one.
* `kfork` does not pass swapped pages on: a page reads the same in the child exactly if it was not swapped out
  or was all zero (`PagingFork.ForkContents`); in `PagingFork.ChildLosesByte` a child reads zero.
* `pipewrite` that is killed after it wrote some bytes returns without waking the readers:
  `Pipe.LeavesAsleep` has the condition on its inputs, `Pipe.KilledWriter` an input.
* `free` adds sizes in a `uint`. The heap stays well formed, with no unit lost, exactly if the joined block has
  fewer than 2 to the 32 units (`UmallocSteps.FreedExact`), so certainly while `sbrk` has given fewer than that in
  all (`UmallocSteps.FewUnits`); `UmallocWrap.UnitsLost` is a run that loses 2 to the 32 units although every
  single request is served correctly.
* From 2 to the 27 units on, `malloc` asks `sbrk` for something else than it needs (`Umalloc.SbrkArgExact`); the
  heap stays well formed exactly if no such request reaches `sbrk` (`Umalloc.Allocator.Malloc`).

Where comments and code disagree the code is followed: `alloc_swap_slot` reserves 1024 slots, but the swap
file, like every file, ends after 67 pages (`PagingSteps.HeldSlotsBelow67`).

## Model

| member | source | states |
|---|---|---|
| Bio.BufferCache.constructor | xv6-riscv/kernel/bio.c:36-53 | binit over any disk image: the ring is well formed, every buffer unreferenced, and the cache shows exactly the disk |
| Bio.DescendingRing | xv6-riscv/kernel/bio.c:43-52 | linking the buffers in behind the head one by one gives a doubly linked ring through all NBUF of them |
| Bio.BufferCache.Lookup | xv6-riscv/kernel/bio.c:65-73 | the first scan finds a buffer of the block if and only if one exists, and it is the only one |
| Bio.BufferCache.LeastRecentlyUsedFree | xv6-riscv/kernel/bio.c:75-88 | the second scan returns the unreferenced buffer furthest back on the ring, which by RecencyOrder is the one released longest ago; it panics exactly if every buffer is referenced |
| Bio.BufferCache.Bget | xv6-riscv/kernel/bio.c:58-89 | hit or recycle, decided exactly; a referenced buffer, pinned ones included, is never recycled, and all invariants hold afterwards |
| Bio.RecycleInv | xv6-riscv/kernel/bio.c:75-87 | recycling an unreferenced buffer changes nothing a reader of any block can see |
| Bio.BufferCache.Bread | xv6-riscv/kernel/bio.c:91-103 | the buffer is locked and holds what readers of the block must see, whether it was cached, recycled or read in; nothing else changes |
| Bio.GotIsRead | xv6-riscv/kernel/bio.c:91-103 | bget followed by the lock and the conditional read amounts to one atomic read of the block |
| Bio.BufferCache.Bwrite | xv6-riscv/kernel/bio.c:105-112 | the block on the disk becomes the buffer, as exactly one more disk image in the trace of writes; the cache still refines the disk |
| Bio.WriteInv | xv6-riscv/kernel/bio.c:105-112 | writing the buffer through restores the agreement of cache and disk that a modification broke |
| Bio.BufferCache.Bpin | xv6-riscv/kernel/bio.c:139-144 | a pinned block counts as logged from here on, and is then allowed to differ from the disk |
| Bio.BufferCache.Bunpin | xv6-riscv/kernel/bio.c:146-151 | the reference count stays positive until the pin is gone; allowed once the block is home |
| Bio.UnpinInv | xv6-riscv/kernel/bio.c:146-151 | dropping a pin keeps the invariant exactly because cache and disk agree by then |
| Bio.BufferCache.ReleaseSleep | xv6-riscv/kernel/bio.c:122-122 | the unlocked half of brelse: a waiter may take the lock before the reference is dropped |
| Bio.BufferCache.DropRef | xv6-riscv/kernel/bio.c:124-136 | the half of brelse under bcache.lock, run by any user but the lock holder: the buffer moves to the front exactly if nobody references it any more |
| Bio.BufferCache.Brelse | xv6-riscv/kernel/bio.c:114-137 | both halves; requires that a modified buffer was written or logged first |
| Bio.BufferCache.MoveToFront | xv6-riscv/kernel/bio.c:128-133 | the six pointer assignments make the node the first on the ring and leave all others in the order they had |
| Bio.Relink | xv6-riscv/kernel/bio.c:128-133 | for a node at any position, neighbours of the head included, both link arrays describe the rotated circle afterwards |
| Bio.ToFrontCircle | xv6-riscv/kernel/bio.c:126-134 | the ring stays a permutation of all NBUF buffers |
| Bio.FrontOrder | xv6-riscv/kernel/bio.c:126-134 | a buffer moved to the front stands before all others, whose order among themselves is unchanged |
| Bio.RecencyOrder | xv6-riscv/kernel/bio.c:75-136 | after any sequence of releases the ring is in order of last release, most recent first: the cache is LRU |
| Bio.CacheRefinesDisk | xv6-riscv/kernel/bio.c:36-151 | an unlocked valid buffer whose block is not in the log equals its disk block, and no two buffers name the same block |
| LogDisk.HeadRoundTrip | xv6-riscv/kernel/log.c:86-115 | read_head of what write_head wrote gives the same block list, whatever stale entries the header block had; the count is in the first word and the block numbers follow it |
| LogDisk.InstallAt | xv6-riscv/kernel/log.c:66-84 | after installing, each named block holds its last logged copy and every other block of the disk is unchanged |
| LogDisk.InstallAgain | xv6-riscv/kernel/log.c:66-84 | a full installation over any partial one equals the full installation |
| LogDisk.RecoverFromCrash | xv6-riscv/kernel/log.c:117-124 | recovery restarted after a crash at any block write of a recovery ends in the same disk, bit for bit |
| LogDisk.RecoverIdempotent | xv6-riscv/kernel/log.c:117-124 | recovering a recovered disk changes nothing |
| LogDisk.RecoverAfterAnyCrashes | xv6-riscv/kernel/log.c:117-124 | any number of interrupted recoveries followed by a complete one gives the disk one recovery would |
| LogDisk.LogCopiedAt | xv6-riscv/kernel/log.c:178-192 | write_log puts the cached contents of entry k in log block k and touches no other block |
| LogDisk.CrashBeforeCommit | xv6-riscv/kernel/log.c:194-204 | a crash before the first header write leaves every home block as before the transaction |
| LogDisk.CommittedRecovers | xv6-riscv/kernel/log.c:194-204 | from the first header write on, recovery applies every logged block and no other |
| LogDisk.CommitIsRecovery | xv6-riscv/kernel/log.c:194-204 | past the commit point each disk image of commit is one that recovery itself passes through |
| LogDisk.CrashAtomicity | xv6-riscv/kernel/log.c:66-204 | for a crash after any block write of commit, recovery is all or nothing, and the switch is exactly the first write of the header |
| LogDisk.CrashAtomicityRun | xv6-riscv/kernel/log.c:66-204 | the same with any number of further crashes during the recoveries |
| LogRuns.RunAtomic | xv6-riscv/kernel/log.c:66-204 | over any sequence of transactions, a crash after any write of any commit, and any number of interrupted recoveries: the home blocks are what readers saw before that transaction, or at its end from the first header write on |
| LogRuns.RunAtRest | xv6-riscv/kernel/log.c:66-204 | a crash between two commits loses nothing that was committed |
| LogSpace.LogWriteExact | xv6-riscv/kernel/log.c:215-236 | log_write panics if and only if the log is full, and then the caller itself has logged MAXOPBLOCKS blocks; otherwise the reservation invariant is kept |
| LogSpace.BeginInv | xv6-riscv/kernel/log.c:126-143 | an operation admitted by begin_op can append MAXOPBLOCKS blocks beside everything the others may still append |
| LogSpace.EndInv | xv6-riscv/kernel/log.c:147-176 | end_op never finds a commit under way, takes one operation off, keeps what is logged, and starts a commit if and only if no operation is left open |
| LogSpace.CommitDoneInv | xv6-riscv/kernel/log.c:167-175 | after a commit the emptied log has room again for new operations |
| LogSpace.LogWriteHolds | xv6-riscv/kernel/log.c:215-236 | a block that was logged is in the log, once, everything else there as it was, and no other operation is charged for it |
| LogSpace.CommitUnderWay | xv6-riscv/kernel/log.c:147-176 | in every run what has been logged is being committed as soon as no operation is open, and no operation is open while a commit runs |
| LogSpace.NobodyStuck | xv6-riscv/kernel/log.c:127-176 | in every run begin_op admits its caller, or an operation is open or a commit under way that will end |
| LogSpace.WaitersWoken | xv6-riscv/kernel/log.c:127-176 | begin_op comes to admit only by the end of a commit or of an operation that is not the last: the two places that call wakeup |
| LogSpace.LogSpaceSafe | xv6-riscv/kernel/log.c:126-236 | in every interleaving of any number of operations, if each has logged fewer than MAXOPBLOCKS distinct blocks at every log_write, then n plus all that open operations may still append is at most LOGBLOCKS, nobody logs during a commit, and no panic of log.c is reached |
| LogSpace.MaxOpBlocksNotEnough | xv6-riscv/kernel/log.c:215-223 | the bound of MAXOPBLOCKS distinct blocks per operation is not enough: a concrete run in which three operations log ten blocks each and one logs a block again panics, because the full log is tested before absorption |
| Log.EncodeHeader | xv6-riscv/kernel/log.c:107-112 | the loop of write_head produces the header image that crash recovery reasons about |
| Log.DecodeHeader | xv6-riscv/kernel/log.c:91-96 | the loop of read_head reads exactly the committed block numbers |
| Log.Log.constructor | xv6-riscv/kernel/log.c:40-48 | an empty log with no open operation |
| Log.Log.BeginOp | xv6-riscv/kernel/log.c:127-143 | admitted exactly if no commit runs and the reservation fits; the state machine of LogSpace takes the corresponding step |
| Log.Log.FindLogged | xv6-riscv/kernel/log.c:226-229 | the absorption scan stops at the block or at the end of the list |
| Log.Log.LogWrite | xv6-riscv/kernel/log.c:215-236 | no panic when fewer than MAXOPBLOCKS blocks were logged before; the block is in the log afterwards, pinned and appended if it was new, absorbed if it was there, and pinned blocks stay exactly the logged ones |
| Log.Log.EndOp | xv6-riscv/kernel/log.c:147-165 | the caller commits, and committing is set, if and only if every other operation is closed, and then the preconditions of commit hold; otherwise the waiters in begin_op are woken |
| Log.Log.WriteLog | xv6-riscv/kernel/log.c:178-192 | the disk images it passes through are the prefixes of the log copy, one per block write; the cache is unchanged for readers |
| Log.Log.WriteHead | xv6-riscv/kernel/log.c:103-115 | exactly one disk write, of the encoded header, with cache and disk in agreement |
| Log.Log.ReadHead | xv6-riscv/kernel/log.c:87-98 | the in-memory list becomes the committed one; neither disk nor cache contents change |
| Log.Log.InstallTrans | xv6-riscv/kernel/log.c:66-84 | one disk image per entry, as the model of installation has them; outside recovery every pin is dropped exactly once |
| Log.Log.Commit | xv6-riscv/kernel/log.c:194-204 | the sequence of disk images is exactly the trace that crash atomicity is proved for, and afterwards the home blocks on disk are what readers saw before |
| Log.Log.CommitAndReopen | xv6-riscv/kernel/log.c:167-175 | the log is empty on disk and in memory when the next operation is let in |
| Log.Log.RecoverFromLog | xv6-riscv/kernel/log.c:117-124 | the disk ends as the recovery function says and passes through its trace of images |
| LogReaders.StepOk | xv6-riscv/kernel/log.c:66-204 | one step of the committing process or of any reader of the cache keeps references, locks, disk, view and trace as they should be; no buffer need be free and nobody else need be quiet |
| LogReaders.TurnGoes | xv6-riscv/kernel/log.c:66-204 | with source and destination in buffers it has locked the committing process can make its next block write, and unpin what it has installed, and the disk is then the next one of the commit |
| LogReaders.ReadGoes | xv6-riscv/kernel/bio.c:58-103 | at any moment of a commit a reader can get, lock and fill an unlocked cached block, or any block with an unreferenced buffer, and then holds what readers must see |
| LogReaders.GiveGoes | xv6-riscv/kernel/bio.c:114-137 | and can give it back |
| LogReaders.CommitAmongReaders | xv6-riscv/kernel/log.c:66-204 | whatever other processes read during a commit, and wherever it has got to, the disks it has passed through are a prefix of the trace that crash atomicity is proved for |
| LogReaders.CrashAmongReaders | xv6-riscv/kernel/log.c:66-204 | so a crash at any moment among any readers is all or nothing after any number of interrupted recoveries |
| LogReaders.ReadersSeeCommitted | xv6-riscv/kernel/log.c:178-204 | at every moment of a commit every valid buffer of a home block holds that block with the transaction in it |
| LogReaders.CommitOver | xv6-riscv/kernel/log.c:194-204 | when such a commit is through, the home blocks on disk are what readers saw when it began, nothing is pinned and the on-disk log is empty |
| FileSystem.BlockOwnership | xv6-riscv/kernel/fs.c:66-106 | in every state between operations a map bit is set exactly for metadata blocks and for blocks held by some inode address or indirect entry, and no block is held twice |
| FileSystem.FirstClear | xv6-riscv/kernel/fs.c:75-84 | the inner loop of balloc finds the first clear bit of a map block |
| FileSystem.Device.FindFree | xv6-riscv/kernel/fs.c:66-89 | the lowest free block of the whole device, or 0 exactly if there is none |
| FileSystem.Device.Balloc | xv6-riscv/kernel/fs.c:66-89 | a block no file owned, marked and zeroed; a full device is left untouched; no file notices |
| FsState.TakeInv | xv6-riscv/kernel/fs.c:66-89 | marking and zeroing a free block keeps ownership exact and every file as it was |
| FsState.AttachDirectInv | xv6-riscv/kernel/fs.c:411-419 | storing the new block in an inode address makes that address its one owner |
| FsState.AttachEntryInv | xv6-riscv/kernel/fs.c:422-441 | storing the new block in the indirect block makes that entry its one owner |
| FileSystem.Device.Bmap | xv6-riscv/kernel/fs.c:405-444 | the block of a file index, allocated on demand through the direct and the indirect path; out of space, everything read before reads the same and ownership is still exact |
| FileSystem.Device.Readi | xv6-riscv/kernel/fs.c:494-519 | exactly the requested slice of the file cut off at its end, or the prefix before a failing user copy; it allocates nothing because there are no holes |
| FileSystem.Device.Writei | xv6-riscv/kernel/fs.c:528-562 | the bytes written are spliced into the file as a flat byte sequence, extending it only at the end and up to MAXFILE blocks; a short write leaves a correct prefix and happens only on a full device or a failed user copy; other files are untouched |
| FsContent.WrittenIsSplice | xv6-riscv/kernel/fs.c:539-554 | block-by-block copies through the block map add up to one splice of the flat contents |
| FsContent.WrittenStep | xv6-riscv/kernel/fs.c:539-551 | one turn of the loop extends the written range by its chunk and disturbs no byte outside it |
| FsContent.WrittenMapped | xv6-riscv/kernel/fs.c:405-444 | an allocation in the middle of a write changes no byte of any file |
| FsContent.SpliceTwice | xv6-riscv/kernel/file.c:155-171 | consecutive chunks amount to one write |
| FileSystem.Device.FileWrite | xv6-riscv/kernel/file.c:148-173 | the file after filewrite is the splice of the bytes that got through, the offset advanced by as many; it returns -1 exactly if some did not, and that happens only if the offset is past the end, the range past MAXFILE blocks, the device full or the user copy of some chunk fails, each but the full device always giving -1; every transaction it opens fits the log |
| FsLog.ChunkFits | xv6-riscv/kernel/file.c:149-173 | one chunk logs at most MAXOPBLOCKS distinct blocks and fewer than that before each log_write, which is what the log space theorem asks for |
| FsLog.ChunkStep | xv6-riscv/kernel/file.c:149-173 | the k-th log_write of a chunk is a step the log space theorem allows, in any state other operations may have reached, so log_write does not panic for file writes |
| FsLog.LoggingMap | xv6-riscv/kernel/fs.c:405-444 | a map block per allocation and the indirect block account for everything bmap logs |
| Dinodes.DinodeOfPut | xv6-riscv/kernel/fs.h:31-45 | an inode encoded into its 16 words of a block is decoded again as it was, and its 15 neighbours in the block are untouched |
| Dinodes.DinodeLayout | xv6-riscv/kernel/fs.h:31-45 | type and major, minor and nlink, size and the 13 addresses lie in words 0, 1, 2 and 3 to 15 of the inode |
| FsState.SetSizeDinode | xv6-riscv/kernel/fs.c:226-243 | iupdate on the disk image: the dinode decoded for this inode is the one in memory, every other is as before |
| FsState.SetSizeInv | xv6-riscv/kernel/fs.c:226-243 | writing an inode touches neither the free map nor a block of any file, so ownership stays exact |
| FileSystem.Device.Iupdate | xv6-riscv/kernel/fs.c:226-243 | the inode in memory is encoded into its place of its block and nothing else on the disk changes |
| FileSystem.Device.ReadInode | xv6-riscv/kernel/fs.c:294-318 | what ilock reads is the dinode of that number; for an inode that is as on the disk it is the one in memory |
| FsTrunc.ClearBit | xv6-riscv/kernel/fs.c:91-106 | bfree panics exactly on a clear bit |
| FsTrunc.Bfree | xv6-riscv/kernel/fs.c:91-106 | with the bit set only that bit of the free map changes |
| FsFree.FreeAddrInv | xv6-riscv/kernel/fs.c:455-460 | a block in an inode address is in use, so freeing it does not panic, and ownership stays exact |
| FsFree.CutEntryInv | xv6-riscv/kernel/fs.c:462-468 | the same for each entry of the indirect block, while the rest of it is still in place |
| FsFree.FreeRootInv | xv6-riscv/kernel/fs.c:470-472 | the indirect block itself goes last and leaves no dangling entry |
| FsTrunc.TruncatedOwners | xv6-riscv/kernel/fs.c:446-476 | the blocks given back are precisely those the inode owned |
| FsTrunc.Itrunc | xv6-riscv/kernel/fs.c:446-476 | the file is empty in memory and on disk, exactly its blocks are free again, every other file keeps its contents and its dinode, no bfree panics; at most the blocks of the free map and one more are logged |
| FsTrunc.FewLogged | xv6-riscv/kernel/fs.c:446-476 | whatever is freed, a truncation logs at most the blocks of the free map and the block of the inode |
| FsTrunc.TruncFits | xv6-riscv/kernel/fs.c:446-476 | so a truncation in a transaction of its own logs at most MAXOPBLOCKS distinct blocks, fewer before each log_write, if the free map has fewer than MAXOPBLOCKS blocks (FSSIZE 2000 has one) |
| FsLog.SwapFits | xv6-riscv/kernel/vm.c:1136-1147 | a page written to its slot of the swap file in one transaction logs at most MAXOPBLOCKS distinct blocks, fewer before each log_write, if the free map has at most four blocks (FSSIZE 2000 has one) |
| FileSystem.Device.WriteSlot | xv6-riscv/kernel/vm.c:1136-1147 | the transaction of swapout_page is a correct writei of the page, or changes nothing; refused exactly for an offset past the end or beyond MAXFILE blocks, short only on a full device or a failed copy; it fits the log, so that log_write does not panic |
| FsCrash.SameOnImage | xv6-riscv/kernel/fs.c:66-562 | inodes, ownership, files and their contents are a matter of the home blocks alone: what is read from any disk with the same home blocks, its inodes decoded from it, is the same file system |
| FsSteps.DoGoes | xv6-riscv/kernel/fs.c:66-476 | one step of an operation (a map bit set, a block zeroed, an address or an entry stored, data written, a block freed, an inode written back) keeps ownership exact, logs every block it changes, and leaves alone the inodes, dinodes, data and half-made allocations of all other operations |
| FsSteps.DoClean | xv6-riscv/kernel/fs.c:66-476 | and its own inode, when nothing is half done and iupdate came after the last change, is in order: as on the disk and without holes |
| FsTogether.StepOk | xv6-riscv/kernel/fs.c:66-562 | any step of any of the operations under way keeps ownership exact, no two of them holding the same new block |
| FsTogether.RunOk | xv6-riscv/kernel/log.c:126-176 | so does every interleaving of any number of operations, each on an inode of its own, and it changes logged blocks only |
| FsTogether.RunIsolated | xv6-riscv/kernel/fs.c:66-562 | in every interleaving a file that no operation has locked keeps its contents |
| FsTogether.TogetherGood | xv6-riscv/kernel/log.c:126-176 | when the last operation of a transaction is over, whatever the interleaving, the file system is good again and its inodes are as on the disk |
| FsTogether.PerformedReaches | xv6-riscv/kernel/fs.c:446-562 | an operation run by itself is one such interleaving, also while others are under way |
| FsTogether.OneByOne | xv6-riscv/kernel/fs.c:446-562 | operations one after the other are one such interleaving |
| FsTogether.WriteTogether | xv6-riscv/kernel/fs.c:528-562 | what the method Writei does is one such run, short writes included |
| FsTogether.TruncTogether | xv6-riscv/kernel/fs.c:446-476 | what the method Itrunc does is one such run |
| FsCrash.CrashKeepsFiles | xv6-riscv/kernel/log.c:66-204 | for any run of transactions, each of any interleaved writes and truncations, a crash after any block write of any commit and any number of crashed recoveries: the file system whose inodes are read from the recovered disk has exact ownership and no hole, and its inodes and the contents of every file are those at the end of a whole number of transactions |
| FsCrash.CrashAtRest | xv6-riscv/kernel/log.c:66-204 | the same for a crash between two commits, while operations may be under way in the cache |
| InodeRefs.StepInv | xv6-riscv/kernel/fs.c:246-363 | every step of iget, idup, ilock, iunlock and iput by any number of processes, every change of nlink, and every reference passed from one process to another as fork does, keeps ref the number of references, the lock with someone who has one, and the inode in use while a link or a reference is left |
| InodeRefs.IputNeverSleeps | xv6-riscv/kernel/fs.c:338-363 | in every run iput, when ref is 1 and it takes the sleep lock with itable.lock in hand, finds it free |
| InodeRefs.FreedExactly | xv6-riscv/kernel/fs.c:338-363 | in every run an inode whose last reference is gone and which has no link has been truncated and freed by iput, and no inode with a link is |
| InodeRefs.TruncatesAlone | xv6-riscv/kernel/fs.c:341-359 | in every run, while iput truncates nobody else has a reference, the inode has no link, and its sleep lock is held |
| InodeRefs.IlockFindsInode | xv6-riscv/kernel/fs.c:294-318 | in every run whoever has a reference and is not giving it up finds the inode in use: ilock waits for the sleep lock at most and does not panic on an inode without a type |
| InodeRefs.IputGoes | xv6-riscv/kernel/fs.c:338-363 | iput as a whole: one reference fewer, the locks as they were, and the inode freed exactly if it was the last reference to one that has been read and has no link |
| InodeRefs.GetGoes | xv6-riscv/kernel/fs.c:246-290 | iget and idup as a whole: one reference more, and with the sleep lock free the inode can be locked |
| InodeRefs.LockedGoes | xv6-riscv/kernel/fs.c:294-333 | ilock, a change of nlink and iunlock leave that change and a valid inode |
| InodeRefs.GiveGoes | xv6-riscv/kernel/proc.c:335-340 | a reference passed on is counted where it goes and no longer where it was |
| InodeRefs.NeverStuck | xv6-riscv/kernel/fs.c:246-363 | in every run a process in iget, idup or iput can go on unless another holds itable.lock |
| PageTableState.SplitInjective | xv6-riscv/kernel/riscv.h:371-380 | the 9/9/9 index split is in range and injective below MAXVA |
| PageTableState.SplitOfVpn | xv6-riscv/kernel/riscv.h:371-380 | and onto: every index triple below MAXVA is some page |
| PageTableState.EncodeParts | xv6-riscv/kernel/riscv.h:358-369 | frame and flags come back from an entry |
| PageTable.Vm.constructor | xv6-riscv/kernel/kalloc.c:26-40 | all frames on the free list, no page table |
| PageTable.Vm.Kalloc | xv6-riscv/kernel/kalloc.c:65-82 | the head of the free list, or failure exactly if it is empty |
| PageTable.Vm.Kfree | xv6-riscv/kernel/kalloc.c:46-63 | the frame returns to the head of the list |
| PageTableSteps.PopFreeInv | xv6-riscv/kernel/kalloc.c:65-82 | taking a frame loses none and leaves every page table as it was |
| PageTableSteps.PushFreeInv | xv6-riscv/kernel/kalloc.c:46-63 | a frame in no use joins the list without making a duplicate |
| PageTable.Vm.Uvmcreate | xv6-riscv/kernel/vm.c:269-280 | a root that translates nothing; other page tables unchanged |
| PageTable.Vm.Walk | xv6-riscv/kernel/vm.c:186-208 | returns the page with the leaf entry exactly if the missing page-table pages could be had; without alloc nothing changes, with it no translation does |
| PageTable.LackingIsLack | xv6-riscv/kernel/vm.c:186-208 | how many page-table pages walk lacks is decided by which ones the page table has |
| PageTable.NeedAtMost | xv6-riscv/kernel/vm.c:186-208 | never more than two page-table pages for each page |
| PageTableSteps.LinkInv | xv6-riscv/kernel/vm.c:196-205 | hanging a zeroed page-table page into the tree keeps the tree well formed and every translation of every page table |
| PageTable.Vm.Mappages | xv6-riscv/kernel/vm.c:234-267 | exactly the range is mapped to consecutive frames and every other translation of every page table is unchanged; it succeeds exactly if there are frames for the page-table pages missing in the range; on failure exactly a prefix is mapped, and memory is exhausted |
| PageTableSteps.MapLeafInv | xv6-riscv/kernel/vm.c:258-263 | writing one leaf adds one translation and, for an owned frame, one owner |
| PageTable.Vm.Uvmunmap | xv6-riscv/kernel/vm.c:282-306 | exactly the range is unmapped, already unmapped pages in it being skipped; with do_free each frame is returned once |
| PageTableSteps.UnmapLeafInv | xv6-riscv/kernel/vm.c:297-304 | clearing one leaf removes that translation only |
| PageTable.Vm.Uvmalloc | xv6-riscv/kernel/vm.c:308-337 | every page of the range has a zeroed frame of its own, or nothing in use changed and every data frame was given back; it succeeds exactly if there are frames for the pages and for the page-table pages missing in the range |
| PageTable.FilledUndo | xv6-riscv/kernel/vm.c:322-335 | undoing a half-done allocation restores translations, owners and contents |
| PageTable.Vm.Uvmdealloc | xv6-riscv/kernel/vm.c:339-356 | exactly the pages between the sizes are gone |
| PageTable.Vm.Uvmcopy | xv6-riscv/kernel/vm.c:395-430 | the child has equal contents and flags at the same pages in fresh frames, or nothing in use changed; it succeeds exactly if there are frames for the mapped pages and for the page-table pages the child lacks for them |
| PageTable.CopyStep | xv6-riscv/kernel/vm.c:409-421 | one page copied leaves the pages copied before equal to their originals |
| PageTable.Vm.Freewalk | xv6-riscv/kernel/vm.c:358-384 | everything a page table owned, page-table pages and leaves, is on the free list exactly once, nothing else moved, and every other frame in use keeps its contents |
| PageTable.RootGone | xv6-riscv/kernel/vm.c:358-384 | once a root is emptied no frame is left that it owned |
| PageTable.Vm.Uvmfree | xv6-riscv/kernel/vm.c:386-393 | the same after freeing the first pages by range |
| PageTable.Vm.ProcFreepagetable | xv6-riscv/kernel/proc.c:215-222 | every table page and owned page is freed exactly once, the trampoline and trap frame are not, other processes keep every translation and the contents of every page |
| Paging.Pager.constructor | xv6-riscv/kernel/vm.c:678-695 | a process right after exec: nothing tracked in memory, nothing swapped out, the heap reads as zeroes, whatever a swap file that was there already holds |
| Paging.Pager.FirstFreeSlot | xv6-riscv/kernel/vm.c:25-40 | first fit: the lowest clear bit, -1 exactly if there is none |
| Paging.Pager.FreeSwapSlot | xv6-riscv/kernel/vm.c:42-55 | a set bit in range is cleared and counted; anything else is ignored |
| Paging.SomeSlotFree | xv6-riscv/kernel/vm.c:25-40 | the bitmap is never full, so alloc_swap_slot never fails |
| PagingSteps.PopCountUpdate | xv6-riscv/kernel/vm.c:25-55 | swap_used changes with the number of set bits |
| PagingSteps.FirstFitOffset | xv6-riscv/kernel/vm.c:1137-1139 | first fit keeps every offset within the swap file or at its end, so writei never refuses it as past the end |
| PagingSteps.HeldSlotsBelow67 | xv6-riscv/kernel/fs.c:534-537 | every held slot is below 67, because MAXFILE blocks are 67 pages |
| PagingSteps.SpliceSlot | xv6-riscv/kernel/vm.c:1136-1147 | a write to one slot, complete or not, leaves the page in every other held slot |
| PagingSteps.SwapOutInv | xv6-riscv/kernel/vm.c:1104-1159 | swapping a page out changes no page for the user, and slots stay distinct and counted |
| PagingSteps.DiscardInv | xv6-riscv/kernel/vm.c:1085-1102 | a clean page of the program can be dropped: it will be read back as it was |
| PagingSteps.ScribbleInv | xv6-riscv/kernel/vm.c:1139-1145 | a failed swap-out changes no page for the user |
| PagingSteps.SwapInInv | xv6-riscv/kernel/vm.c:1020-1074 | swapping a page in changes no page for the user; its page-table pages still exist, so mappages cannot fail after the slot was freed |
| PagingSteps.EnterInv | xv6-riscv/kernel/vm.c:823-842 | a fault brings in what the page already reads as |
| Paging.Pager.SwapoutPage | xv6-riscv/kernel/vm.c:1076-1159 | succeeds exactly if the page is resident and clean from the program, or the swap file can be had, written in full and has one of its 67 slots left; failure changes nothing but scratch bytes of a free slot; what it does is a run of paging events |
| Paging.Pager.OldestResident | xv6-riscv/kernel/vm.c:994-1010 | the victim is the tracked resident page that became resident first |
| Paging.Pager.EvictPageFifo | xv6-riscv/kernel/vm.c:990-1018 | first in, first out; exact success condition; no page reads differently |
| Paging.Pager.FrameForFault | xv6-riscv/kernel/vm.c:773-788 | a frame is found exactly if one is free or the oldest page can leave and nobody takes its frame |
| Paging.Pager.SwapinPage | xv6-riscv/kernel/vm.c:1020-1074 | the bytes that went out come back; succeeds exactly if a frame can be found |
| Paging.Pager.HandlePageFault | xv6-riscv/kernel/vm.c:721-977 | on every path no text or heap page reads differently and what happens is a run of paging events; the fault is served exactly if the page is in a segment, frames suffice for it and its missing page-table pages, and the program file has the bytes, three free frames being always enough; a store to text kills |
| Paging.Pager.Load | xv6-riscv/kernel/vm.c:758-968 | a successful load returns what a flat zero-initialised memory holds there, or for a text page byte for byte what the program file has at its offset and zero past its file size, or for a data page what that page holds (PagingRuns.RunData says what that is), which on a fault is again the byte of the program file; exact success condition; only paging happens |
| Paging.Pager.Store | xv6-riscv/kernel/vm.c:746-968 | a successful store is paging followed by one byte stored: it updates the flat memory, or the data page, at that byte only; exact success condition; a store to text never succeeds and kills |
| Paging.Pager.SbrkGrow | xv6-riscv/kernel/sysproc.c:40-68 | the heap grows by zero pages, and is refused exactly if it would reach the trap frame |
| PagingRuns.RunTransparent | xv6-riscv/kernel/vm.c:721-1159 | over every run of faults, evictions, failed and successful swap-outs, swap-ins, frame traffic, stores and growth since exec, each heap byte is the last one stored there or zero, and each byte of a text page is the one of the program file at the offset of its segment, zero past the file size |
| PagingRuns.RunData | xv6-riscv/kernel/vm.c:845-919 | in every run since exec each byte of a data page is the one last stored since the page was last discarded, or the one of the program file; one never stored is the file byte at the offset of its segment, zero past the file size |
| PagingRuns.CallsRun | xv6-riscv/kernel/vm.c:721-1159 | every run of calls of the pager code (loads, stores, faults, evictions, sbrk) is a run of these events with the same stores |
| PagingRuns.CallsTransparent | xv6-riscv/kernel/vm.c:721-1159 | so transparency holds over every run of calls: each heap byte is the one last stored by a call, or zero, and each text page its part of the program file |
| PagingState.FilePageByte | xv6-riscv/kernel/vm.c:791-820 | a page filled from a segment has, byte by byte, the file contents at the offset of the segment, and zero past its file size, whenever the file has those bytes |
| PagingState.TextByte | xv6-riscv/kernel/vm.c:791-820 | so has every text page |
| PagingState.DataByteOf | xv6-riscv/kernel/vm.c:884-913 | and every data page as it is loaded |
| PagingRuns.StoreSurvives | xv6-riscv/kernel/vm.c:1085-1102 | the byte last stored at a place of a data page is still there if and only if the page was not discarded since, or the byte is the one of the program file |
| PagingRuns.StoreCanBeLost | xv6-riscv/kernel/vm.c:1085-1102 | in whatever state a run has reached: if a data page is next in the queue, a store to it followed by its eviction is a legal run, after which the page has the byte of the program file again |
| PagingRuns.LostByte | xv6-riscv/kernel/vm.c:845-1102 | a concrete run, fault, store, discard, fault, after which the page is in memory without the byte stored in it |
| PagingFork.CopyRecords | xv6-riscv/kernel/proc.c:306-325 | the child tracks exactly the resident pages among the first 16384, with a queue in page order |
| PagingFork.CopyPages | xv6-riscv/kernel/vm.c:401-430 | uvmcopy into a new page table gives every mapped page a fresh frame with equal contents; it succeeds exactly if there are frames for the pages and for the page-table pages that are missing |
| PagingFork.Kfork | xv6-riscv/kernel/proc.c:268-325 | for every parent: the child that uvmcopy and the loop over the records make is a paged process of its own in frames that were free, made exactly if there are enough; the parent notices nothing |
| PagingFork.ForkInv | xv6-riscv/kernel/proc.c:306-325 | the child is a paged process for which transparency holds from there on |
| PagingFork.ForkContents | xv6-riscv/kernel/proc.c:306-325 | a text or heap page reads the same in the child if and only if the parent did not have it swapped out with non-zero contents |
| PagingFork.ForkAfterSwapOut | xv6-riscv/kernel/proc.c:306-325 | swapping out a page, unnoticeable to the process, is noticed by its child exactly if the page was not all zero |
| PagingFork.ChildLosesByte | xv6-riscv/kernel/proc.c:268-325 | a concrete run, sbrk, a store, an eviction and kfork, after which the parent reads the byte and the child reads zero, whatever the byte |
| SleepWakeup.StepInv | xv6-riscv/kernel/proc.c:499-697 | every lock operation, context switch and scheduler step of sleep, wakeup, kkill and exit keeps the invariant, for any number of processors |
| SleepWakeup.NotLostKept | xv6-riscv/kernel/proc.c:621-671 | a process on its way to sleep on a channel that has something for it always has a wakeup coming from the holder of the condition lock |
| SleepWakeup.SweptKept | xv6-riscv/kernel/proc.c:652-671 | wakeup leaves no sleeper of its channel behind it in the table while the condition lock is held |
| SleepWakeup.NoLostWakeup | xv6-riscv/kernel/proc.c:621-671 | in every run, while the condition lock is free no process sleeps on a channel, or is past the point of no return towards it, that was made ready under that lock |
| SleepWakeup.HandOff | xv6-riscv/kernel/proc.c:499-569 | a process whose own lock it does not hold is never in the middle of going to sleep, exiting or being first scheduled |
| SleepWakeup.KillWakes | xv6-riscv/kernel/proc.c:672-697 | the process kkill has found does not sleep any more, whatever it slept on, and no other process is made to run |
| SleepCalls.SleepGoes | xv6-riscv/kernel/proc.c:621-650 | sleep as a whole, in any state of the other processes: it ends with the process SLEEPING on its channel off the processor, the condition lock released and its p->lock free |
| SleepCalls.ReturnGoes | xv6-riscv/kernel/proc.c:500-650 | once RUNNABLE the process can be scheduled and return from sleep with the condition lock held and no channel |
| SleepCalls.SleepMoves | xv6-riscv/kernel/proc.c:621-650 | at every point inside sleep a process can go on, unless it waits for its own p->lock, the condition lock, or being woken and picked |
| SleepCalls.WakeupGoes | xv6-riscv/kernel/proc.c:652-671 | wakeup as a whole: exactly the processes that slept on the channel are RUNNABLE, nothing else about any process has changed, and the caller owes that channel no wakeup |
| SleepCalls.StartGoes | xv6-riscv/kernel/proc.c:500-620 | a process made by fork can be scheduled and leaves forkret with its p->lock released |
| SleepCalls.ExitGoes | xv6-riscv/kernel/proc.c:424-437 | the end of kexit: the process is off the processor for good and its p->lock has passed through the scheduler |
| SleepCalls.KillGoes | xv6-riscv/kernel/proc.c:672-697 | kkill as a whole: the victim, if asleep, is RUNNABLE, and nothing else has changed |
| SleepCalls.KilledReturns | xv6-riscv/kernel/proc.c:500-697 | a process asleep on any channel can be killed awake and come back from sleep with its lock |
| SleepLocks.MoveEnabled | xv6-riscv/kernel/sleeplock.c:21-41 | acquiresleep and releasesleep obey the discipline sleep and wakeup rely on |
| SleepLocks.NextInv | xv6-riscv/kernel/sleeplock.c:21-41 | every step of any number of processes on any number of sleep locks, kills included, keeps holder and waiters consistent |
| SleepLocks.SleepLockSafe | xv6-riscv/kernel/sleeplock.c:21-41 | in every run a sleep lock has at most one holder, and nobody sleeps on a free one while its spin lock is free |
| SleepLocks.AcquireGoes | xv6-riscv/kernel/sleeplock.c:21-31 | acquiresleep of a free lock as a whole: the caller is its recorded holder, nothing else is held or changed |
| SleepLocks.ReleaseGoes | xv6-riscv/kernel/sleeplock.c:33-41 | releasesleep up to its wakeup: the lock is free and unrecorded, those who wait for it have something to do, and wakeup is called before the spin lock is let go |
| SleepLocks.NeverStuck | xv6-riscv/kernel/sleeplock.c:21-41 | a process in either function can always go on unless it is asleep or waits for a spin lock, and one that tries for a lock goes to sleep exactly if the lock is held |
| ExitWait.MoveEnabled | xv6-riscv/kernel/proc.c:356-490 | kfork, kexit, reparent and kwait obey the discipline of sleep and wakeup; kexit may wake its parent before it is a zombie because wait_lock is held throughout |
| ExitWait.ReadyGrows | xv6-riscv/kernel/proc.c:356-371 | giving a child to init can only make init have something to wait for |
| ExitWait.NextInv | xv6-riscv/kernel/proc.c:266-490 | every step of forking, exiting and waiting processes keeps the process table, the wait channels and the ledgers consistent; during the scan of kwait havekids is true exactly if a child is below the slot looked at |
| ExitWait.NoSleepBesideZombie | xv6-riscv/kernel/proc.c:373-490 | in every run, whenever wait_lock is free no process sleeps in kwait while it has a zombie child, children just passed to init included |
| ExitWait.GivesUpExactly | xv6-riscv/kernel/proc.c:440-490 | in every run, at the end of a scan, kwait returns -1 exactly if the process has no child or has been killed, and otherwise, with a living child, goes on to sleep |
| ExitWait.NoSleepWithoutChild | xv6-riscv/kernel/proc.c:440-490 | in every run a process that sleeps in kwait has a child, and one about to sleep has a living one and can |
| ExitWait.ExitStepRecords | xv6-riscv/kernel/proc.c:376-437 | only kexit makes a zombie, of its own process, with the status it was given |
| ExitWait.ExitEnds | xv6-riscv/kernel/proc.c:356-437 | when kexit has made the process a zombie it has no child left and a living parent |
| ExitWait.ForkEnds | xv6-riscv/kernel/proc.c:266-354 | after kfork the child can run, is a child of the caller, and has a pid nobody else has or had |
| ExitWaitEnds.GoesNearer | xv6-riscv/kernel/proc.c:266-490 | every move a process makes in kfork, kexit or kwait, inside wakeup too, brings it nearer to the end of the call |
| ExitWaitEnds.EndsSoon | xv6-riscv/kernel/proc.c:266-490 | in every run, with any interleaving, a process makes a bounded number of moves before it has returned, exited or gone to sleep for a child |
| ExitWaitEnds.RankNat | xv6-riscv/kernel/proc.c:266-490 | that number is bounded by the size of the process table alone and is zero exactly outside the calls |
| ExitWaitEnds.NeverStuck | xv6-riscv/kernel/proc.c:266-490 | a process in one of the calls that is neither asleep nor waiting for a lock always has a move to make |
| ExitWaitEnds.SleeperMoves | xv6-riscv/kernel/proc.c:440-490 | nor does one in sleep from kwait get stuck, other than for being woken or for a lock |
| ExitWaitEnds.MayBegin | xv6-riscv/kernel/proc.c:266-490 | any process outside the calls may begin kwait, and kexit if it is not init, with wait_lock free; kfork takes any unused slot and no other |
| ExitWaitEnds.FoundChild | xv6-riscv/kernel/proc.c:451-476 | kwait passes over a living child; a zombie it reaps, or leaves as it is when its status cannot be copied out |
| ExitWaitEnds.ForkGoes | xv6-riscv/kernel/proc.c:266-354 | kfork as a whole: with a free slot and the locks free it can be carried through, and makes a runnable child of the caller with the next pid |
| ExitWait.ReapedOnce | xv6-riscv/kernel/proc.c:440-490 | in every run a zombie has a living parent to reap it, what was reaped had exited with that status, and no process in the table has been reaped, so none is reaped twice |
| ExitWait.ReapStep | xv6-riscv/kernel/proc.c:440-490 | the one step that reaps a child is taken in kwait by its current parent, which is given the status of the exit |
| ExitWait.LedgerGrows | xv6-riscv/kernel/proc.c:373-490 | in every run an exit status and a reaping, once recorded, never change |
| ExitWait.ReapedIsDead | xv6-riscv/kernel/proc.c:440-490 | a child is reaped only once it is off its kernel stack for good |
| Umalloc.SbrkArgExact | xv6-riscv/user/umalloc.c:54-54 | the 32-bit argument of sbrk is the requested size if and only if fewer than 2 to the 27 units are asked for; a request of 2 to the 32 minus 16 bytes asks sbrk for nothing |
| Umalloc.HasPlace | xv6-riscv/user/umalloc.c:30-32 | some place on the circle satisfies a stopping condition of the search |
| Umalloc.OnePlace | xv6-riscv/user/umalloc.c:30-32 | the two stopping conditions hold at exactly one place |
| Umalloc.Allocator.Search | xv6-riscv/user/umalloc.c:30-32 | the search of free terminates wherever it starts, at the last free block below the one being freed |
| Umalloc.Allocator.Free | xv6-riscv/user/umalloc.c:24-44 | the block leaves the live ones and the list stays in address order; the heap stays well formed (disjoint, coalesced, every unit in some block) if and only if the block made by joining has fewer than 2 to the 32 units |
| UmallocSteps.FreedInv | xv6-riscv/user/umalloc.c:33-43 | joining with the block above, below, both or neither keeps the heap well formed while the sum fits the uint field size |
| UmallocSteps.FreedExact | xv6-riscv/user/umalloc.c:33-43 | and only then: well-formedness, and that every unit is in some block, each hold after the joins if and only if the sum of the sizes joined, readable before the call, is below 2 to the 32 |
| UmallocSteps.LostUnit | xv6-riscv/user/umalloc.c:33-43 | otherwise the last unit of the joined block is in no block afterwards |
| UmallocSteps.FewUnits | xv6-riscv/user/umalloc.c:24-44 | while sbrk has given fewer than 2 to the 32 units in all, no call of free loses any |
| UmallocWrap.UnitsLost | xv6-riscv/user/umalloc.c:24-90 | a concrete run: 33 blocks of 2 to the 27 minus 1 units each taken with malloc and freed in address order; the last free leaves a size of 0x7FFFFDF and loses 2 to the 32 units |
| Umalloc.FreedHeaders | xv6-riscv/user/umalloc.c:33-43 | the header assignments in their order, with sums modulo 2 to the 32, realise the join |
| Umalloc.Allocator.Morecore | xv6-riscv/user/umalloc.c:46-61 | asked only when no free block is large enough: unless sbrk refuses, nothing changes for live blocks and one free block is large enough; below 2 to the 27 units the heap stays well formed and the break moves by the units asked for, 4096 at least; if refused nothing changed |
| Umalloc.Allocator.Take | xv6-riscv/user/umalloc.c:75-84 | the whole block or its tail becomes live and was not before; freep is the block before it |
| Umalloc.Allocator.Malloc | xv6-riscv/user/umalloc.c:63-90 | for every uint request: the block has room for the bytes after its header and less than a header more; it was not live, nothing else changes for live blocks, no unit is lost, sbrk is asked exactly if no free block is large enough, and malloc fails exactly if sbrk then refuses; the heap stays well formed if and only if sbrk was not asked for 2 to the 27 units or more, and otherwise the block has units sbrk did not give; the walk terminates |
| UmallocCanonical.StartsRun | xv6-riscv/user/umalloc.c:24-90 | free blocks start exactly where a run of free units does |
| UmallocCanonical.Canonical | xv6-riscv/user/umalloc.c:24-90 | the free list of a well-formed heap is determined by which units are live: two such heaps with the same live blocks and units have the same list, whatever calls led there |
| UmallocCanonical.TakeThenFree | xv6-riscv/user/umalloc.c:24-90 | freeing the block just taken restores the free list |
| VirtioDisk.Disk.constructor | xv6-riscv/kernel/virtio_disk.c:120-146 | all descriptors free, both rings empty |
| VirtioDisk.Disk.AllocDesc | xv6-riscv/kernel/virtio_disk.c:155-166 | a free descriptor is taken, or none is free |
| VirtioDisk.Disk.FreeDesc | xv6-riscv/kernel/virtio_disk.c:168-182 | the descriptor is blank and free again |
| VirtioDisk.Disk.Alloc3 | xv6-riscv/kernel/virtio_disk.c:199-213 | three distinct descriptors, or exactly the state before; fails exactly if fewer than three are free |
| VirtioDisk.Disk.Rollback | xv6-riscv/kernel/virtio_disk.c:206-209 | giving back the ones taken restores the state |
| VirtioDisk.Disk.FreeChain | xv6-riscv/kernel/virtio_disk.c:184-197 | following the links frees exactly the three descriptors of the request, none of them twice |
| VirtioDisk.AtMostTwo | xv6-riscv/kernel/virtio_disk.c:215-292 | at most two requests are in flight, so neither ring ever has more unread entries than it holds |
| VirtioDisk.PostInv | xv6-riscv/kernel/virtio_disk.c:226-279 | posting a request keeps every descriptor free or in exactly one chain and overwrites no unread ring entry |
| VirtioDisk.HandleInv | xv6-riscv/kernel/virtio_disk.c:312-324 | the id the handler reads is the next completed request, still in flight with its buffer marked busy |
| VirtioDisk.FinishInv | xv6-riscv/kernel/virtio_disk.c:284-289 | a request whose buffer is no longer busy has been handled, and freeing its chain touches no other request |
| VirtioDisk.Disk.Submit | xv6-riscv/kernel/virtio_disk.c:215-281 | accepted exactly if fewer than two requests are in flight; the other request is untouched |
| VirtioDisk.Disk.DeviceTakes | xv6-riscv/kernel/virtio_disk.c:271-281 | the device finds at its index the head that was posted there |
| VirtioDisk.Disk.DeviceCompletes | xv6-riscv/kernel/virtio_disk.c:309-314 | the device may complete its requests in any order, each once; the head goes into the used ring |
| VirtioDisk.Disk.Interrupt | xv6-riscv/kernel/virtio_disk.c:294-327 | every completed request is handled once, in order, and its buffer released; nothing else changes phase |
| VirtioDisk.Disk.HandleNext | xv6-riscv/kernel/virtio_disk.c:312-324 | each used id has a live request and a buffer with disk == 1, which is 0 afterwards |
| VirtioDisk.Disk.Complete | xv6-riscv/kernel/virtio_disk.c:283-291 | exactly the three descriptors of the request are free again |
| Grep.MatchHere | xv6-riscv/user/grep.c:84-96 | true if and only if some prefix of the text is spelt by the pattern items, the whole text if the pattern ends in an anchoring dollar |
| Grep.MatchStar | xv6-riscv/user/grep.c:98-106 | true if and only if some characters that hit c followed by a match of the rest start the text |
| Grep.Match | xv6-riscv/user/grep.c:72-82 | true if and only if some substring, anchored by a leading caret or a final dollar, is in the language of the pattern; literal star in first position and inner dollars included; the mutual recursion terminates |
| Grep.PlainMatches | xv6-riscv/user/grep.c:72-96 | a pattern without star matches exactly where its characters occur, a dot being any: anywhere, at the start, at the end or as the whole text, as caret and dollar say |
| Grep.StarredMatches | xv6-riscv/user/grep.c:84-106 | a starred character between caret and dollar matches exactly the texts made of that character, the empty one included |
| Grep.SpellsSome | xv6-riscv/user/grep.c:84-106 | the declarative language unfolds one item at a time |
| Grep.HereOne | xv6-riscv/user/grep.c:93-94 | and so does matching of a single character |
| Grep.HereStar | xv6-riscv/user/grep.c:89-90 | a starred item is what matchstar is asked |
| Grep.StarStep | xv6-riscv/user/grep.c:100-105 | one turn of the loop of matchstar decides one character |
| ShParser.Parser.Peek | xv6-riscv/user/sh.c:316-326 | tells whether the next token is one of the symbols and consumes nothing but blanks |
| ShParser.Parser.GetToken | xv6-riscv/user/sh.c:271-314 | consumes exactly one token of the line and returns its kind and span |
| ShParser.Parser.Redirections | xv6-riscv/user/sh.c:380-403 | reads redirections as the grammar does, with a missing file name as the only panic |
| ShParser.Parser.Line | xv6-riscv/user/sh.c:350-365 | cursor and tree advance as the grammar of lists and background commands says; terminates |
| ShParser.Parser.PipeLine | xv6-riscv/user/sh.c:367-378 | the same for pipelines, which associate to the right |
| ShParser.Parser.Block | xv6-riscv/user/sh.c:405-419 | the same for parenthesised blocks |
| ShParser.Parser.ExecCmd | xv6-riscv/user/sh.c:421-452 | a block, or a simple command with its redirections before, between and after the words: what it consumed is a unit of the independent grammar and the tree is what that unit means; ten arguments panic |
| ShParser.Parser.Command | xv6-riscv/user/sh.c:333-348 | a tree exactly if the tokens of the line are a line of the independent grammar, and then the tree is what that line means |
| ShGrammar.LineParses | xv6-riscv/user/sh.c:350-452 | every line of an independent grammar (words and redirections in any order, pipes, ampersands, semicolons, parentheses) is parsed to what it means |
| ShGrammar.LineSound | xv6-riscv/user/sh.c:350-452 | whatever is parsed was such a line |
| ShGrammar.ParsedExactly | xv6-riscv/user/sh.c:333-452 | so tokens parse to a tree if and only if they are a line that means that tree |
| ShText.LexSpread | xv6-riscv/user/sh.c:271-314 | tokens with any blanks between them, or none where a symbol parts them, are read back as those tokens |
| ShText.WrittenParses | xv6-riscv/user/sh.c:271-452 | a line as it would be typed, not parenthesised and with any blanks, is parsed to what it means with nothing left over |
| ShRoundTrip.LexBack | xv6-riscv/user/sh.c:271-314 | tokens written out with blanks are read back as those tokens |
| ShRoundTrip.BodyBack | xv6-riscv/user/sh.c:350-452 | the grammar gives back any tree from its fully parenthesised tokens |
| ShRoundTrip.ParsePrinted | xv6-riscv/user/sh.c:333-452 | parsing the printed form of any command tree with at most nine arguments per command and well-formed words gives that tree and leaves nothing over |
| ShTerminate.ParsedStands | xv6-riscv/user/sh.c:271-452 | every word of a parsed tree stands in the line where its span says, and is followed by a character of no word |
| ShTerminate.EndsOutside | xv6-riscv/user/sh.c:455-499 | no word ends inside another, so terminating one damages none |
| ShTerminate.Nulterminate | xv6-riscv/user/sh.c:455-499 | a NUL at the end of every word of the tree and nowhere else |
| ShTerminate.ParseCommand | xv6-riscv/user/sh.c:333-348 | after parsing and termination in the buffer each word, read as a C string, is the token it was parsed from |
| Pipe.PipeBuffer.constructor | xv6-riscv/kernel/pipe.c:21-56 | an empty pipe open at both ends |
| Pipe.PipeBuffer.WriteSegment | xv6-riscv/kernel/pipe.c:76-103 | the bytes taken are appended in order; all of them if nothing is in the way, none without a reader, as many as fit before it sleeps on a full pipe, those before a bad address; on a pipe found empty, readers that get something are left asleep exactly if there is a reader and the writer is seen killed after the first and before the last byte, with nothing else in its way |
| Pipe.LeavesAsleep | xv6-riscv/kernel/pipe.c:76-103 | that condition, on the inputs of the call alone |
| Pipe.KilledWriter | xv6-riscv/kernel/pipe.c:76-103 | a concrete input: two bytes to an empty pipe, killed after the first, leave a readable pipe and sleeping readers |
| Pipe.PipeBuffer.ReadSegment | xv6-riscv/kernel/pipe.c:105-134 | delivers the oldest unread bytes in order, exactly as many as asked for, available and storable, so that what was read is always a prefix of what was written; sleeps exactly on an empty pipe with a writer unless killed; 0 for n > 0 only at end of file; writers are woken exactly if it got past the wait |
| Pipe.PipeBuffer.Put | xv6-riscv/kernel/pipe.c:95-96 | the new byte overwrites no unread one, past counter wrap too |
| Pipe.PipeBuffer.Close | xv6-riscv/kernel/pipe.c:58-74 | the other side is woken if closing gives it something to do; freed exactly when both ends are closed |

## Left out

- Log.Log.Commit: this method, like the ones it calls, runs in a cache nobody else is using and with one buffer free to recycle; NBUF equals LOGBLOCKS, so a log full of pinned blocks may leave none, and bget then panics. LogReaders states the same without either restriction, on steps instead of a method.
- LogReaders.StepOk: a process has at most one reference to a buffer; which unreferenced buffer bget recycles, and in which order commit takes and gives back its buffers, is left open, so more runs are covered than the source has.
- Bio.BufferCache.Bread: one device, and a block whose lock is free and for which bget finds a buffer; waiting for a locked buffer is the subject of SleepLocks.
- FileSystem.Device.Writei: a user copy of one chunk succeeds or fails as a whole; in the source a copy that fails part-way leaves a modified buffer that was not logged.
- FileSystem.Device.FileWrite: type, major, minor and nlink of an inode are two words that writes and truncations pass on; the inode table and its locks are the subject of InodeRefs.
- FsTogether.RunOk: a step is what an operation does while it has one buffer locked; what it writes into data blocks, and which free block it takes, is left open, so more runs are covered than the source has. That two operations on one inode exclude each other is the subject of SleepLocks.
- FsCrash.CrashKeepsFiles: the superblock is a constant; making and freeing inodes, and directories, are left out. The map from blocks to the addresses that hold them is not on the disk: that some such map exists is what exact ownership means.
- InodeRefs.IputNeverSleeps: one inode, from when it has a link to when it is freed; that iget recycles a table entry with ref 0 for another inode, and that ialloc makes a new one, are left out. iget is called for an inode found in a directory or already referred to.
- PageTable.Vm.Mappages: sizes are in pages, so the alignment panics are out of sight; a remap, which the source answers with a panic, is excluded by the precondition.
- PageTable.Vm.Freewalk: the kfree at the end of freewalk of a child is done in the step of its parent.
- Paging.Pager.HandlePageFault: one process after exec, with the page table as a leaf map and the sets of existing page-table pages; a segment page that faults is not mapped, except for a store to text; the sequence number stays below the largest int; the inode of the program is there.
- Paging.Pager.SwapoutPage: create_swap_file with its path names, and how far the writei gets, are a yes-or-no answer and a byte count; the writei itself is FileSystem.Device.WriteSlot.
- Paging.Pager.SbrkGrow: shrinking the heap and kexec of a paged process leave records of freed pages behind and are not modelled.
- PagingFork.Kfork: the page table is a leaf map, as in Paging, and the frames of page-table pages are counted; that a failed copy is undone is PageTable.Vm.Uvmcopy. The trap frame, open files and the name of the child are left out.
- SleepWakeup.NoLostWakeup: spin locks are atomic steps; interrupts, yield and the per-processor fields that sched checks are left out; that a process which can go on is let go on depends on the scheduler picking it and is not claimed.
- SleepLocks.SleepLockSafe: a process calls acquiresleep without a spin lock in hand; the one place that has one, iput, never sleeps there (InodeRefs.IputNeverSleeps).
- ExitWait.ReapedOnce: nextpid is an int in the source and an unbounded counter here, so that pids are not reused holds for the first 2 to the 31 processes.
- ExitWait.NextInv: kfork that fails after allocproc, a process marked killed by its own trap rather than by kkill, and the resources freed with a process, are left out.
- ExitWaitEnds.EndsSoon: waiting for a lock takes no moves, so how long the holder keeps it is not bounded.
- Umalloc.Allocator.Malloc: addresses are in units of one header, and the contents of blocks are left out; a write to a header above the break, which malloc makes for a request of 2 to the 27 units or more, would fault in the source and is carried out here.
- VirtioDisk.Disk.Interrupt: the status byte, device errors, the request header and memory barriers are left out; the device returns each head once.
- ShParser.Parser.ExecCmd: the argument vector and the redirection nodes are built as lists while parsing, where the source fills arrays of nodes already linked.
- ShTerminate.ParseCommand: runcmd, cd and reading the line are left out.
- Pipe.PipeBuffer.ReadSegment: allocation of the pipe and of its files is left out.
- Directories, path names, link counts, exec and the system call wrappers: the model stops at the contents and blocks of single inodes and at the memory of one process, so what relates several inodes, names to files, or a process to its program file is outside it.
- Console, UART, trap handling, interrupts, timer and boot code: they are about device registers and machine state, which this model does not have.
- kernel/spinlock.c and kernel/string.c: taken as primitives.
