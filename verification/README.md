# xv6 in Dafny

A Dafny 4.11 model of the parts of xv6 whose correctness is hardest to see from the code, with
proofs about every input, every run or every interleaving. `dafny verify dfyconfig.toml` checks all
of it.

The model follows the C code branch by branch. Structures that the kernel updates in place are
classes whose methods carry the code's loops; code whose difficulty is interleaving is a machine of
small steps, each of which is what the code does under one lock or as one block write. A method's
contract ties the new state to the old one, and lemmas then say what that means over whole runs.
Where the source panics, the model either shows that the panic cannot be reached, or returns a
failure value and says exactly when.

| file | source | subject |
|---|---|---|
| LogFormat, BufferCache, Log, LogCache, LogLeak, LogLost, LogStray, LogReservation | kernel/log.c, kernel/bio.c | redo log over the LRU cache: crash atomicity, one flat array of blocks, and exactly when; log space |
| FsBlocks, FileSystem, Mkfs, FsRuns, InodeCache, InodeFree | kernel/fs.c, kernel/file.c, mkfs/mkfs.c | block ownership, files as byte sequences, the first image and all runs from it, the inode cache and when iput frees |
| PteBits, PageTable, VirtualMemory, ProcMemory, Fork, UserCopy, Exec | kernel/vm.c, kernel/kalloc.c, kernel/exec.c, kernel/proc.c, kernel/riscv.h | Sv39 trees as finite maps (section 4.4 of the RISC-V Privileged Architecture, version 20190608), page conservation |
| Sleep, Counts, Monitors, Scheduler, ProcTree, InitWakeup, WaitReturns | kernel/proc.c, kernel/sleeplock.c, kernel/spinlock.c, kernel/pipe.c, kernel/log.c, kernel/virtio_disk.c | no lost wakeups, one CPU per process, interrupts, the process forest |
| Virtio | kernel/virtio_disk.c | the driver's side of the virtqueue (sections 2.6.5, 2.6.6 and 2.6.8 of VIRTIO Version 1.1) |
| Rings, Pipe, Console | kernel/pipe.c, kernel/console.c | rings with wrapping 32-bit counters as queues; line editing |
| Umalloc | user/umalloc.c | the allocator of section 8.7 of The C Programming Language, 2nd edition |
| Shell, ShellGrammar, ShellRoundTrip | user/sh.c | the recursive-descent parser accepts exactly a grammar; its in-place terminators |

## What turned out not to hold as one would expect

- `install_trans` drops a pin for every block also during recovery, when none was taken. Each
  installed block is left with a reference count of 2^32 - 1 and keeps its buffer: the counts are
  right exactly if the log on disk was empty, and recovery gets through exactly if the log has fewer
  blocks than there are buffers (`Log.RedoLog.RecoverFromLog`). The first reader of such a block
  brings the count to 0, and `bget` may recycle the buffer under it. `LogCache` runs on after every
  recovery, with counts modulo 2^32: its theorems hold in every run in which no buffer in use or
  pinned is recycled, and so in all runs whose recoveries find an empty log (`LogCache.NoLeakRun`).
  In all runs of a boot readers see what was last logged and the disk recovers to the last commit,
  if and only if recovery has found an empty log, or a log of NBUF blocks, which it never gets
  through (`LogLost.BootSafeIff`). The same condition is exact for the weaker claim that only the
  header's write changes what the disk recovers to (`LogStray.OnlyHeadCommitsIff`).
- `log_write` tests for space before it looks whether the block is logged already. Operations of at
  most k distinct blocks are safe from its panic exactly if 10 + 2k is below both LOGSIZE and the
  log's size minus 1; with mkfs's log of 30 blocks that is k < 10 (`LogReservation.PanicFreeIff`).
- `readi` delivers nothing when off + n wraps in 32 bits, also where bytes could be read, and
  allocates a block for a hole that it reads (`FileSystem.Fs.Readi`).
- mkfs rounds the root directory's size up to a further block; its image has no hole exactly if the
  entries do not fill whole blocks (`Mkfs.Build`). A read of that hole allocates a block that only
  the inode in memory knows of: on disk every data block is free or in one slot of one inode,
  whenever no write is under way, in every run from the image, if and only if it has no hole
  (`FsRuns.ImageRunsIff`).
- For the same reason an inode in memory may differ from the one on disk for everyone who locks it
  until it is next saved or recycled. In every run `ilock` gives the type and the links that are on
  disk; it gives the whole inode as on disk in every run if and only if its file has no holes
  (`InodeCache.IlockAgrees`, `InodeCache.IlockAgreesIff`).
- `iput` decides to free an inode by its own reference being the only one, but it frees it later.
  That it is still the only one then holds in all runs if and only if no one gets an inode that has
  no links, as a process in a removed directory may by `..` (`InodeFree.FreesAloneIff`).
- A killed writer leaves `pipewrite` without waking readers: a sleeping reader means an empty pipe
  with writers in every run exactly if no writer is killed (`Monitors.PipeNoLostWakeupIff`). A
  sleeping writer means a full pipe with readers in any case (`Monitors.WritersNoLostWakeup`).
- init, and no other process, can sleep in `wait` while it has a zombie child
  (`InitWakeup.OnlyInitMisses`).
- `piperead` and `consoleread` take a byte out of the ring before they know that the caller's
  memory takes it; a byte that is refused is lost. `Pipe.Pipe.Read` and `Console.LostIff` say exactly
  when.
- `morecore` passes an unsigned size to `sbrk(int)`: the memory obtained is the memory entered into
  the free list exactly for requests of at most 2^31 - 32 bytes (`Umalloc.MorecoreExact`,
  `Umalloc.RequestFits`).
- exec takes a first segment of no size for a failure of `uvmalloc` (`Exec.SegmentOk`).

## Conventions

- One `bwrite` is one atomic, ordered change of the disk. Copies between kernel and user memory are
  given as parameters where their failure matters.
- `int` is unbounded; where the C type wraps, the model takes the remainder.
- Recovery begins with an empty buffer cache. In the source `fsinit` has read the superblock before
  it calls `initlog`; its buffer is released by then, and is recycled like an unused one.
- Physical and virtual pages are page numbers; a page-table page is a sequence of 512 entries, any
  other page a sequence of bytes. `PteBits` shows that the words and indices of riscv.h are these.
- The methods of the shell's parser are each proved equal to a recursive function, and the lemmas are
  about that function.
- Names like `Now`, `Tied` and `Valid` tie a class to the value on which the lemmas are stated.

## Model

| member | source | states |
|---|---|---|
| `LogFormat.HomeAfterLogged` | kernel/log.c:67-82 | what recovery gives a block named in the header depends on the log area alone, not on what the home block held |
| `LogFormat.InstallKeepsRecovery` | kernel/log.c:67-82 | any writes, in any order and number, to home blocks named in the on-disk header leave what the disk recovers to unchanged |
| `LogFormat.LogAreaInvisible` | kernel/log.c:176-190 | while the header is empty, writes to the log area do not change what the disk recovers to |
| `LogFormat.HomeAfterLast` | kernel/log.c:67-82 | a block recovers from its last entry in the header, and from its home if it has none |
| `LogFormat.HeadWriteCommits` | kernel/log.c:98-113 | the one block write of the header moves what the disk recovers to from the old contents to the logged ones |
| `LogFormat.HeadClearKeeps` | kernel/log.c:192-202 | clearing the header after the install changes nothing that is recovered |
| `BufferCache.NoneFreeIff` | kernel/bio.c:58-89 | all buffers are in use exactly if NBUF blocks are referenced |
| `BufferCache.MoveKeepsOrder` | kernel/bio.c:116-137 | moving a released buffer to the front keeps every buffer on the list once, most recently released first |
| `BufferCache.Cache.constructor` | kernel/bio.c:36-53 | the list holds all buffers and the cache agrees with the disk |
| `BufferCache.Cache.FindCached` | kernel/bio.c:65-73 | finds the block's buffer exactly if it has one |
| `BufferCache.Cache.FindUnused` | kernel/bio.c:75-87 | finds the unused buffer that was released longest ago, or that there is none |
| `BufferCache.Cache.Bget` | kernel/bio.c:58-89 | at most one buffer per block; recycles only an unused buffer, the one released longest ago; fails exactly if all are in use and the block has none |
| `BufferCache.Cache.Bread` | kernel/bio.c:92-103 | the caller sees the block's current contents; fails exactly if the block is unreferenced and NBUF others are referenced |
| `BufferCache.Cache.Fill` | kernel/log.c:67-82 | writing into a held buffer changes the current contents of its block and of no other |
| `BufferCache.Cache.Bwrite` | kernel/bio.c:106-112 | the disk gets the buffer's block and nothing else changes; the new image is on the trace |
| `BufferCache.Cache.Brelse` | kernel/bio.c:116-137 | drops one reference, modulo 2^32, and puts the buffer first on the list exactly if none is left |
| `BufferCache.Cache.Bpin` | kernel/bio.c:139-144 | one more reference to the block, whose buffer then cannot be recycled |
| `BufferCache.Cache.Bunpin` | kernel/bio.c:146-151 | one reference fewer, modulo 2^32 |
| `Log.RedoLog.InstallTrans` | kernel/log.c:67-82 | copies every log block to its home, each home block once, and drops one reference to each; gets through if the blocks were pinned and one buffer is free; from a fresh cache exactly if there are fewer blocks than buffers |
| `Log.RedoLog.WriteLog` | kernel/log.c:176-190 | the log blocks take the cached contents of the logged blocks and nothing else changes on disk; one free buffer suffices |
| `Log.RedoLog.WriteHead` | kernel/log.c:98-113 | one block write puts the count and the block numbers into the header block, and leaves the rest of it |
| `Log.RedoLog.EndOp` | kernel/log.c:145-174 | the last operation commits, with commit's promise for a crash at any block write; any other changes only the number of operations |
| `Log.RedoLog.Commit` | kernel/log.c:192-202 | every image on the way recovers to the contents before the transaction, up to one block write, and from there on to those after it; afterwards disk and cache agree and the pins are gone |
| `Log.RedoLog.ReadHead` | kernel/log.c:84-96 | reads back the block numbers that the header on disk names |
| `Log.RedoLog.RecoverFromLog` | kernel/log.c:115-122 | every image on the way recovers to the same contents, which are on disk at the end; reference counts come out right if and only if the log was empty, and it gets through if and only if the log has fewer than NBUF blocks |
| `Log.RedoLog.LogWrite` | kernel/log.c:213-234 | adds and pins a block that is not logged, absorbs one that is; panics exactly on a full log, also for absorbed blocks, or outside a transaction |
| `Log.CopiedInvisible` | kernel/log.c:176-190 | cut short anywhere in write_log, the disk recovers to the old contents |
| `Log.CommitPoint` | kernel/log.c:192-202 | the header write after a complete write_log recovers to the new contents |
| `Log.InstalledInvisible` | kernel/log.c:67-82 | cut short anywhere in install_trans, the disk recovers to the new contents, which are all home at its end |
| `LogCache.StepKeepsInv` | kernel/log.c:67-234 | every step of any thread (bread, change, log_write, brelse, recycling, commit, crash, recovery), also after a recovery that has left wrong counts, keeps the invariant of cache, log and disk, unless it recycles a buffer that is in use or pinned |
| `LogCache.NoLeakNoClash` | kernel/bio.c:58-89 | no such buffer is recycled while recovery runs, nor after a recovery that has found an empty log |
| `LogCache.RunKeepsInv` | kernel/log.c:67-234 | so the invariant holds in every state of every run without such a step, with any number of crashes, also during recovery |
| `LogCache.NoLeakRun` | kernel/log.c:67-122 | a run has no such step if its operations run only in boots whose recovery has found an empty log |
| `LogCache.HistoryMatches` | kernel/log.c:192-234 | in every run the committed contents are those of the last commit and the current contents those last logged |
| `LogCache.CrashAtomicity` | kernel/log.c:67-202 | in every state of every run without such a step, also in the middle of a commit or of a recovery, the disk recovers every home block to its contents at the last commit |
| `LogCache.Durable` | kernel/log.c:145-202 | in such a run, once all operations have ended and the log is idle, the disk recovers every home block to what was last logged for it |
| `LogCache.CommitIsGroup` | kernel/log.c:145-202 | when the header is written in such a run no operation is running, and every block whose last logged contents differ from its committed ones is in the log |
| `LogCache.ReadsLastLogged` | kernel/bio.c:58-151 | in every run without such a step whoever has a buffer of a home block from bread, and has not changed it since, sees what was last logged for it, across recycling, commits and crashes |
| `LogLeak.BootEnds` | kernel/log.c:67-122 | recovery of any log of fewer than NBUF blocks comes to its end on the same cache, which then holds the installed blocks and no other of the home area, with no buffer in use |
| `LogLost.ReadsStale` | kernel/bio.c:58-89 | after any recovery that has installed a block there is a run in which a reader sees old contents of a block after it was logged |
| `LogLost.LosesUpdate` | kernel/log.c:176-234 | and one in which a committed update is not what the disk recovers to, since another block was logged in its place |
| `LogLost.RoundNeedsTwo` | kernel/log.c:67-82 | a round of recovery needs two buffers besides those of the blocks already installed |
| `LogLost.BootSafeIff` | kernel/log.c:67-234 | readers see what was last logged in all runs of a boot, and the disk recovers to the last commit in all runs of a boot, each if and only if recovery has found an empty log or one of NBUF blocks |
| `LogStray.StrayWrite` | kernel/log.c:176-190 | after any recovery that has installed a block there is a run in which write_log's write, with an empty header on disk, goes to a home block and changes what the disk recovers to |
| `LogStray.OnlyHeadCommitsIff` | kernel/log.c:67-202 | in all runs of a boot only the header's write changes what the disk recovers to, if and only if recovery has found an empty log or one of NBUF blocks |
| `LogReservation.ReservationHolds` | kernel/log.c:125-234 | in every run the log and what running operations may still add fit in LOGSIZE; logged blocks are distinct; committing implies no operation; idle implies an empty log with room; sleepers have cause; end_op does not panic |
| `LogReservation.NeverPanics` | kernel/log.c:213-234 | with a log of enough blocks no run panics |
| `LogReservation.CanPanic` | kernel/log.c:213-234 | with a smaller log there is a run in which log_write panics |
| `LogReservation.PanicFreeIff` | kernel/log.c:213-234 | the exact size at which operations of a given number of blocks are safe from log_write's panic |
| `Bitmap.SetBitOnly` | kernel/fs.c:64-86 | setting a block's bit changes no other block's bit |
| `Bitmap.ClearBitOnly` | kernel/fs.c:89-103 | clearing a block's bit changes no other block's bit |
| `FsState.WordPut` | kernel/fs.c:377-405 | storing an entry of an indirect block changes no other entry |
| `FsState.OneOwner` | kernel/fs.c:377-437 | in a file system that satisfies the invariant, an allocated data block stands in exactly one slot of one inode, and its bit is set |
| `FsState.ClaimKeepsOk` | kernel/fs.c:377-405 | giving a free block to an empty slot keeps the ownership invariant |
| `FsState.ClaimKeepsBytes` | kernel/fs.c:377-405 | allocating a block changes no byte of any file |
| `FsState.StoreKeeps` | kernel/fs.c:482-514 | storing into a data block changes that block of that file and no other byte of any file |
| `FsState.TruncKeepsOk` | kernel/fs.c:409-437 | freeing all blocks of one inode keeps the invariant and every other inode's blocks |
| `FsState.GrewContents` | kernel/fs.c:377-405 | a file into which blocks have been allocated contains what it did |
| `FsState.BmapGrows` | kernel/fs.c:377-405 | whatever free blocks bmap takes, for the block and for the indirect block before it: the file block is mapped afterwards, the ownership invariant holds, no byte of any file and no other inode has changed, and nothing at all if it was mapped |
| `FileSystem.PutStores` | kernel/fs.c:494-502 | what bmap and the copy of a round of writei come to: the inode grows without a change of any byte of any file, and then the bytes go into the block that the file block is mapped to |
| `FileSystem.Fs.FirstFree` | kernel/fs.c:64-86 | finds the lowest clear bit, over all bitmap blocks, or that there is none |
| `FileSystem.Fs.Balloc` | kernel/fs.c:64-86 | takes the lowest free block, marks and zeroes it; fails exactly on a full disk |
| `FileSystem.Fs.Bfree` | kernel/fs.c:89-103 | that block can be allocated again and every other block's bit is as it was; panics exactly on a block that is free |
| `FileSystem.Fs.Bmap` | kernel/fs.c:377-405 | returns the file block's address; does what `FsState.Bmapped` says: nothing, or a free block into the address or entry, the indirect block before it; changes no byte of any file and no address that exists; fails only on a full disk |
| `FileSystem.Fs.Iupdate` | kernel/fs.c:221-237 | saving an inode changes nothing for the kernel, nor would anything change if the inode then left the cache |
| `FileSystem.Fs.Ilock` | kernel/fs.c:288-313 | loading an inode changes nothing for the kernel; panics exactly on a free inode that is not cached |
| `FileSystem.Fs.Recycle` | kernel/fs.c:261-270 | giving an inode's cache entry away changes nothing for the kernel exactly if the inode was saved |
| `FileSystem.Fs.Ialloc` | kernel/fs.c:195-215 | the first free inode after number 0 is allocated, empty, and nothing else changes; panics exactly if there is none |
| `FileSystem.Fs.Ifree` | kernel/fs.c:337-354 | the inode and exactly the blocks that it owned become free |
| `FileSystem.Fs.Writei` | kernel/fs.c:482-514 | the file becomes the old one with the bytes spliced in, its size the maximum, and no other file changes; -1 exactly if off is past the end or the file would be too long, also under 32-bit wrap; what is given to log_write |
| `FileSystem.Fs.Readi` | kernel/fs.c:455-476 | delivers exactly the slice, clipped to the size, holes as zeros; nothing if off + n wraps; changes no byte of any file, nothing on disk but the free map and new blocks, and nothing at all if there is no hole |
| `FileSystem.Fs.Itrunc` | kernel/fs.c:409-437 | exactly the file's blocks become free, and no free block is freed |
| `FileSystem.WroteContents` | kernel/fs.c:482-514 | the writei loop's blockwise stores add up to the splice, and keep a file free of holes |
| `FileSystem.ChunkFits` | kernel/file.c:148-175 | a chunk of filewrite, at any offset, logs at most seven distinct blocks |
| `FileSystem.WriteChunk` | kernel/file.c:156-168 | one transaction writes its chunk at the offset, or fails as writei does; it logs all the chunk's data blocks and else only its inode, indirect and free map blocks |
| `FileSystem.FileWrite` | kernel/file.c:134-181 | all chunks together write the data at the file's offset; -1 exactly if not all of it fits, after the chunks that do; one transaction for each chunk, which logs the chunk's data blocks and at most seven blocks |
| `FileSystem.ProgressIsSplice` | kernel/file.c:148-175 | chunks written one after the other are one splice |
| `Mkfs.FirstBitsSet` | mkfs/mkfs.c:245-259 | the map with n bits set marks exactly the blocks below n |
| `Mkfs.Image.constructor` | mkfs/mkfs.c:93-121 | the empty image satisfies the invariant |
| `Mkfs.Image.Ialloc` | mkfs/mkfs.c:231-243 | the next inode number, empty |
| `Mkfs.Image.Iappend` | mkfs/mkfs.c:263-305 | the file becomes the old one with the bytes appended and no other file changes; fails only if it gets too long or blocks run out |
| `Mkfs.Image.FixRootSize` | mkfs/mkfs.c:166-171 | leaves a hole exactly if the size was a multiple of the block size |
| `Mkfs.Image.FreeMap` | mkfs/mkfs.c:245-259 | the map that is written is the one of the blocks handed out |
| `Mkfs.RootLists` | mkfs/mkfs.c:121-158 | the bytes of the root directory, read as entries of a 16-bit inode number and a name, list the root twice and then every file under its name, cut to 14 bytes, with its own inode number |
| `Mkfs.RoundedHole` | mkfs/mkfs.c:166-171 | rounding up leaves every other file without holes |
| `Mkfs.AddFile` | mkfs/mkfs.c:131-164 | one more directory entry and one more file, the others as they were |
| `Mkfs.Finish` | mkfs/mkfs.c:166-173 | root size and bitmap complete the image |
| `Mkfs.Build` | mkfs/mkfs.c:67-176 | for every list of files: unless inodes or blocks run out or a file is too long, the image satisfies the ownership invariant, holds the files, lists them in the root directory as it is read, has empty free inodes, and is without holes exactly if the entries do not fill whole blocks |
| `FsRuns.StepKeeps` | kernel/fs.c:195-514 | each step of ialloc, ilock, iget, iput, itrunc and of the rounds of readi and writei, in which bmap takes any free blocks, with any number of inodes cached and not yet saved, keeps the ownership invariant of what the kernel sees, unless it throws away an inode that was not saved |
| `FsRuns.OthersStay` | kernel/fs.c:195-514 | and changes no other file, in contents or inode |
| `FsRuns.WriteEnds` | kernel/fs.c:482-514 | a write whose rounds have been interleaved with others' ends with the file as it was at its beginning with the data spliced in |
| `FsRuns.RunKeeps` | kernel/fs.c:195-514 | from a volume without holes every run keeps the invariant: the kernel's view is consistent, no file gets a hole, and an inode that differs from its copy on disk is being written |
| `FsRuns.HoleUnowned` | kernel/fs.c:377-476 | after a read of a hole no assignment of blocks to slots makes the disk consistent |
| `FsRuns.ImageRunsIff` | mkfs/mkfs.c:67-176 | from the image that mkfs makes, every data block on disk is free or in one slot of one inode whenever no write is under way, in every run, if and only if the root directory's entries do not fill whole blocks |
| `InodeCache.Slot` | kernel/fs.c:242-273 | the entry in use for the inode, else an unused one if the inode has none, else none |
| `InodeCache.FindSlot` | kernel/fs.c:249-263 | iget's single pass finds that entry |
| `InodeCache.StepKeeps` | kernel/fs.c:195-358 | each step of ialloc, iget, idup, ilock, iupdate, iunlock and iput, and of a read that fills a hole, by any process, keeps the invariant |
| `InodeCache.RunKeeps` | kernel/fs.c:195-358 | so it holds in every interleaving |
| `InodeCache.OneEntryEach` | kernel/fs.c:242-273 | in every run at most one entry with a reference stands for an inode number |
| `InodeCache.IlockAgrees` | kernel/fs.c:288-313 | in every run whoever returned from ilock sees the type and the links that are on disk, of an inode that is allocated, also if the number was freed and given out again; and the rest as on disk too if the file has no holes |
| `InodeCache.FillsHole` | kernel/fs.c:455-476 | a read that fills a hole leaves the inode in memory different from the one on disk, and the next ilock does not read it again |
| `InodeCache.IlockAgreesIff` | kernel/fs.c:288-313 | from any start and for any inode, whoever returned from ilock sees all of the inode as on disk in every run, if and only if its file has no holes |
| `InodeCache.IputDoesNotSleep` | kernel/fs.c:332-358 | in every run iput's acquiresleep on the last reference finds the lock free |
| `InodeFree.FreesUnlinked` | kernel/fs.c:332-358 | in every run an inode becomes free on disk only if it has no links on disk, by a process that had the only reference to it when it called iput |
| `InodeFree.IputFrees` | kernel/fs.c:332-358 | in every run an iput of the only reference to a loaded inode without links does not return before it has freed the inode on disk, whatever others do meanwhile |
| `InodeFree.IputDrops` | kernel/fs.c:332-358 | in every run any other iput is over at once: it takes one reference and leaves the disk as it was |
| `InodeFree.IputEnds` | kernel/fs.c:351-358 | in every run iput that returns has taken its own reference and no other |
| `InodeFree.IgetGives` | kernel/fs.c:242-273 | in every run iget gives a new reference to the one entry that stands for the inode, and nothing else changes |
| `InodeFree.IdupGives` | kernel/fs.c:277-284 | in every run idup gives one more reference to the same entry |
| `InodeFree.RunTidy` | kernel/fs.c:195-358 | in every run in which no one gets an inode without links: only who has freed an inode, and is leaving iput, refers to one that is free or that ialloc has just taken |
| `InodeFree.Stray` | kernel/fs.c:332-358 | a run in which another process gets the inode between iput's decision and the free |
| `InodeFree.FreesAloneIff` | kernel/fs.c:332-358 | the process that frees an inode has the only reference to it then, in all runs, if and only if no one gets an inode without links |
| `PteBits.PackUnpack` | kernel/riscv.h:329-340 | an entry packed by the macros into a 64-bit word, with shifts and or, is read back from it, for every 44-bit page number and all flags |
| `PteBits.IndexAt` | kernel/riscv.h:342-351 | PX at levels 0, 1 and 2 gives the three indices that the model uses for the address's page |
| `PteBits.WalkIsAt` | kernel/vm.c:71-89 | following a tree by PX from the root comes to the model's PTE for the page, for every address below MAXVA |
| `PageTable.SlotsDistinct` | kernel/vm.c:71-89 | distinct pages below MAXVA, in one tree or in two, have distinct PTE slots |
| `PageTable.TableAddedOk` | kernel/vm.c:71-89 | a page-table page added by walk changes no translation of any tree |
| `PageTable.TableWidens` | kernel/vm.c:71-89 | the same for a page taken from the free list |
| `PageTable.LeafSetOk` | kernel/vm.c:148-195 | writing a leaf PTE changes the translation of that page in that tree and no other |
| `PageTable.OtherTranslations` | kernel/vm.c:71-195 | an operation within one tree changes no translation of another |
| `PageTable.MapsOne` | kernel/vm.c:148-168 | a page mapped after its tables were made is a map of one page |
| `PageTable.MapsMore` | kernel/vm.c:148-168 | and map after map adds up to a map of the range |
| `PageTable.UnmapsOne` | kernel/vm.c:173-195 | clearing a PTE and freeing its page unmaps that page alone |
| `PageTable.UnmapsMore` | kernel/vm.c:173-195 | unmapping page after page adds up to unmapping the range |
| `PageTable.GrownMore` | kernel/vm.c:228-252 | one more page of user memory |
| `PageTable.GrownUndone` | kernel/vm.c:228-252 | growth undone restores every translation and leaves only page-table pages |
| `PageTable.GrownRetreat` | kernel/vm.c:228-252 | a page that could not be mapped goes back to the free list and nothing is lost |
| `PageTable.FreeCount` | kernel/kalloc.c:46-82 | the free list and the pages in use partition the managed pages |
| `VirtualMemory.Machine.constructor` | kernel/kalloc.c:33-40 | exactly the whole pages between the two addresses become free |
| `VirtualMemory.Machine.Kalloc` | kernel/kalloc.c:68-82 | takes the first free page; 0 exactly if there is none |
| `PageTable.FreeThenTake` | kernel/kalloc.c:46-82 | a page given back keeps all trees and is the next to be given out, after which everything but its contents is as it was |
| `VirtualMemory.Machine.Walk` | kernel/vm.c:71-89 | the table that holds the page's PTE; with alloc missing tables are made, no translation changes, and it fails only if kalloc does |
| `VirtualMemory.Machine.Mappages` | kernel/vm.c:148-168 | exactly the pages that the range touches get the given translations; fails only if kalloc does, and then says how many are mapped |
| `VirtualMemory.Machine.Uvmunmap` | kernel/vm.c:173-195 | exactly the named pages lose their translation and, if asked, their memory |
| `VirtualMemory.Machine.Uvmdealloc` | kernel/vm.c:258-270 | exactly the pages past the new size are unmapped and freed |
| `VirtualMemory.Machine.Uvmalloc` | kernel/vm.c:228-252 | zeroed user pages up to the new size and no other change; fails exactly if kalloc does, and then every translation is as it was |
| `ProcMemory.RootMadeOk` | kernel/vm.c:199-208 | a new root maps nothing and leaves all trees alone |
| `ProcMemory.Freewalk` | kernel/vm.c:274-290 | frees every table of an empty tree once, children first, without meeting a leaf |
| `ProcMemory.TreeFreed` | kernel/vm.c:274-290 | all pages of the tree are free and no other page changed |
| `ProcMemory.ErasedOk` | kernel/vm.c:274-290 | erasing a tree keeps the invariant of all others |
| `ProcMemory.NewTreeKeeps` | kernel/proc.c:157-186 | a new tree changes no translation of the others |
| `ProcMemory.NewTreeGone` | kernel/proc.c:157-196 | a tree made and freed leaves the use of every page as it was |
| `ProcMemory.Uvmcreate` | kernel/vm.c:199-208 | an empty tree, or 0 exactly if kalloc fails |
| `ProcMemory.Uvmfree` | kernel/vm.c:294-300 | all user memory and all tables of the tree become free, nothing else changes |
| `ProcMemory.ProcPagetable` | kernel/proc.c:157-186 | trampoline and trapframe mapped and nothing else; fails exactly if kalloc does, and then every page is used as before |
| `ProcMemory.ProcFreepagetable` | kernel/proc.c:190-196 | the tree and its user memory become free; trampoline and trapframe stay |
| `ForkMemory.Uvmcopy` | kernel/vm.c:308-336 | the same bytes under the same flags in fresh pages; fails exactly if kalloc does, and then nothing is mapped |
| `ForkMemory.Undo` | kernel/vm.c:333-335 | the error exit frees the copies made |
| `ForkMemory.AfterCopy` | kernel/proc.c:258-275 | parent, child and all other trees after a complete copy |
| `ForkMemory.TrapframeReleased` | kernel/proc.c:136-153 | freeproc's order, trapframe first, keeps the rest of the tree freeable |
| `ForkMemory.TakenBack` | kernel/proc.c:92-131 | giving the trapframe page back restores the use of every page |
| `ForkMemory.Fork` | kernel/proc.c:258-301 | the child has the parent's memory, and the parent is unchanged; in the child's trapframe register a0 is 0, every other register and byte is the parent's, and the rest of the page is as kalloc left it; fails exactly if kalloc does, and then exactly the pages that were free are free and every other page is untouched |
| `UserCopy.Walkaddr` | kernel/vm.c:94-112 | the page's physical page exactly if it is mapped for the user |
| `UserCopy.Copyout` | kernel/vm.c:354-374 | writes the bytes up to the first page not mapped for the user, and no other byte; succeeds exactly if there is none |
| `UserCopy.Copyin` | kernel/vm.c:379-399 | reads exactly the bytes; succeeds exactly if all pages are mapped for the user; changes nothing |
| `UserCopy.CopyRoundTrip` | kernel/vm.c:354-399 | copyin after a successful copyout to the same address gives the same bytes |
| `UserCopy.WrotePtes` | kernel/vm.c:354-374 | copyout changes no translation |
| `UserCopy.ReadsBack` | kernel/vm.c:354-399 | what was written is what is read, across page boundaries |
| `UserCopy.Uvmclear` | kernel/vm.c:340-349 | the page is out of the user's reach and still mapped |
| `Exec.Loadseg` | kernel/exec.c:131-154 | the segment's bytes are in memory; fails exactly if the file is too short; its panics are not reached |
| `Exec.LoadHeader` | kernel/exec.c:42-59 | one more segment in the image, or a tree that can be freed; succeeds exactly if the header is acceptable and kalloc does not fail |
| `Exec.GrowImage` | kernel/exec.c:51-54 | the image grows by zero pages; also fails for a size of 0 |
| `Exec.MakeStack` | kernel/exec.c:67-76 | two more pages, the lower one a guard page |
| `Exec.PushArgs` | kernel/exec.c:78-90 | the argument strings are on the stack, 16-byte aligned; fails exactly if they are too many or too long |
| `Exec.FillStack` | kernel/exec.c:78-98 | and below them the array: the words read at sp are the addresses of the strings in order, and then 0 |
| `Exec.BuildImage` | kernel/exec.c:38-98 | the new image beside the old one, or no trace of it |
| `Exec.BuildingGrown` | kernel/exec.c:51-54 | growing the image keeps the segments loaded so far |
| `Exec.BuildingLoaded` | kernel/exec.c:57-58 | loading a segment gives the image of one more segment |
| `Exec.Committed` | kernel/exec.c:111-117 | freeing the old image leaves the new one intact |
| `Exec.Exec` | kernel/exec.c:12-129 | succeeds exactly if the ELF header, every program header and the arguments are acceptable and kalloc does not fail; then memory is the segments' image, with all the memory that they ask for, a guard page, and the stack with the strings and the words of argv as main reads them, and the old image is free; otherwise exactly the pages that were free are free and the caller's image is untouched |
| `Sleep.StepKeeps` | kernel/proc.c:554-612 | sleep, wakeup and the code under the monitor's lock, step by step with all locks, keep a sound monitor's invariant |
| `Sleep.RunKeeps` | kernel/proc.c:554-612 | so it holds in every interleaving of any number of processes |
| `Sleep.SoundRuns` | kernel/proc.c:554-600 | no lost wakeup in any run of any sound monitor: with the lock free, whoever sleeps still has cause |
| `Monitors.LockSound` | kernel/sleeplock.c:21-41 | a sleep lock is a sound monitor |
| `Monitors.SleepLockNoLostWakeup` | kernel/sleeplock.c:21-41 | in every run, a process asleep on a sleep lock whose spinlock is free means that it is locked |
| `Monitors.SleepLockExclusive` | kernel/sleeplock.c:12-41 | in every run at most one process holds a sleep lock, and it is locked exactly if one does |
| `Monitors.LogSound` | kernel/log.c:125-174 | the log is a sound monitor |
| `Monitors.LogNoLostWakeup` | kernel/log.c:125-174 | in every run, a process asleep in begin_op means that the log is committing or too full |
| `Monitors.LogCountedRun` | kernel/log.c:125-174 | in every run outstanding is the number of operations between begin_op and end_op, at most one process commits, committing says whether, no operation is under way then, and the log is empty when neither is the case |
| `Monitors.DiskSound` | kernel/virtio_disk.c:129-270 | the disk driver is a sound monitor |
| `Monitors.DiskNoLostWakeup` | kernel/virtio_disk.c:129-270 | in every run, a process asleep in virtio_disk_rw means that fewer than three descriptors are free, or that the disk still has its buffer |
| `Monitors.DescsRun` | kernel/virtio_disk.c:129-270 | in every run the free descriptors and those of requests under way are together as many as at the start |
| `Monitors.PipeSound` | kernel/pipe.c:58-127 | a pipe is a sound monitor for writers, and for readers unless writers are killed or the read end is closed |
| `Monitors.CountedRun` | kernel/pipe.c:58-127 | in every run the read end is open while a process is in piperead |
| `Monitors.WritersNoLostWakeup` | kernel/pipe.c:58-127 | in every run, with or without kills, a sleeping writer means a full pipe with readers |
| `Monitors.KilledWriter` | kernel/pipe.c:86-88 | a run in which a killed writer leaves a reader asleep on a full pipe |
| `Monitors.PipeNoLostWakeupIff` | kernel/pipe.c:58-127 | a sleeping reader means an empty pipe with writers, in every run, exactly if no writer is killed |
| `Scheduler.StepKeeps` | kernel/proc.c:456-584 | each step of scheduler, sched, yield, sleep, wakeup, acquire and release on any CPU keeps the invariant |
| `Scheduler.RunKeeps` | kernel/proc.c:456-584 | so it holds in every interleaving of all CPUs |
| `Scheduler.OneCpuPerProcess` | kernel/proc.c:456-529 | in every interleaving no two CPUs run on one process's stack, and with p->lock free p is RUNNING exactly if one CPU has it |
| `Scheduler.SchedChecks` | kernel/proc.c:500-518 | sched's panics are not reached, except that noff is 1 exactly if the caller holds no other lock |
| `Scheduler.IntenaRestored` | kernel/spinlock.c:88-110 | a thread switched out and in again, on whatever CPU, finds the noff and intena it left |
| `Scheduler.IntrStep` | kernel/spinlock.c:88-110 | a thread's last release leaves interrupts as they were at its first lock, or, for a new process, when the scheduler took its lock |
| `Scheduler.IntrRestored` | kernel/spinlock.c:88-110 | from a thread's first lock over any steps of any CPUs, through switches to other CPUs as well, to its last release: interrupts are then as they were |
| `Scheduler.StateMoves` | kernel/proc.c:456-635 | in every run a process goes from RUNNABLE to RUNNING by a scheduler, from RUNNING by itself, and otherwise by another process and only from SLEEPING to RUNNABLE, ZOMBIE to UNUSED and UNUSED to RUNNABLE, each with its lock held |
| `ProcTree.StepKeeps` | kernel/proc.c:258-447 | each step of fork, exit, reparent, wait and kill keeps the invariant |
| `ProcTree.RunKeeps` | kernel/proc.c:258-447 | so it holds in every interleaving |
| `ProcTree.OthersKept` | kernel/proc.c:258-447 | what other processes are in the middle of is not disturbed |
| `ProcTree.ForestInRuns` | kernel/proc.c:258-447 | in every run every process in use but init has a living parent with a smaller pid, and none but init sleeps in wait with a zombie child |
| `ProcTree.ReapedOnce` | kernel/proc.c:397-447 | in every run a process is freed only as a zombie, by its parent in wait, and no pid is freed twice |
| `InitWakeup.InitMayMiss` | kernel/proc.c:332-393 | a run from boot that ends with all locks free, init asleep in wait, and a zombie child of init |
| `InitWakeup.OnlyInitMisses` | kernel/proc.c:332-447 | a process never sleeps in wait with a zombie child, in every run, exactly if it is not init |
| `WaitReturns.SleeperHasChild` | kernel/proc.c:397-447 | in every run whoever sleeps in wait has a child |
| `WaitReturns.WaitDecides` | kernel/proc.c:436-445 | in every run the end of wait's scan returns -1 to a process other than init that was not killed exactly if it has no child, and else it sleeps |
| `WaitReturns.WaitReturns` | kernel/proc.c:397-447 | a process without children gets its answer by its own steps alone, and nothing has changed |
| `WaitReturns.WaitCollects` | kernel/proc.c:397-447 | a process with a zombie child gets the first one by its own steps alone: its slot is free, its pid noted, and nothing else has changed |
| `WaitReturns.ExitWakesInit` | kernel/proc.c:332-371 | in every run whoever begins to exit leaves init awake |
| `Virtio.CompareIsExact` | kernel/virtio_disk.c:251-270 | the comparison of indices modulo NUM says exactly whether a completion is waiting, also when the 16-bit index wraps, and the used ring then holds the oldest one |
| `Virtio.FewDone` | kernel/virtio_disk.c:251-270 | the used ring never holds as many completions as it has slots |
| `Virtio.AtMostTwo` | kernel/virtio_disk.c:115-166 | at most two requests, of three descriptors each, are under way |
| `Virtio.SubmittedOk` | kernel/virtio_disk.c:183-236 | a request goes out in three descriptors of its own and overwrites no entry of the available ring |
| `Virtio.FinishedOk` | kernel/virtio.h:46-72 | a completion by the device, in any order, overwrites no entry of the used ring |
| `Virtio.StepKeeps` | kernel/virtio_disk.c:115-270 | each step of driver and device, going by what the rings, info and the descriptors hold, keeps descriptors split between free ones and disjoint chains, and the rings in agreement |
| `Virtio.NeverStuck` | kernel/virtio_disk.c:115-270 | what a step reads in the rings and the descriptors is always there to be used |
| `Virtio.RunKeeps` | kernel/virtio_disk.c:115-270 | so it holds in every run from the initial state |
| `Virtio.ExactlyOnce` | kernel/virtio_disk.c:251-270 | in every run the completions taken note of are the device's completions in order, none missed and none twice |
| `Virtio.OwnCompletion` | kernel/virtio_disk.c:251-270 | in every run b->disk is cleared only by the completion of b |
| `Virtio.Disk.constructor` | kernel/virtio_disk.c:109-110 | all descriptors are free |
| `Virtio.Disk.AllocDesc` | kernel/virtio_disk.c:116-126 | the first free descriptor, or that there is none |
| `Virtio.Disk.FreeDesc` | kernel/virtio_disk.c:129-139 | frees the descriptor; panics exactly if it is out of range or free |
| `Virtio.Disk.FreeChain` | kernel/virtio_disk.c:142-152 | frees exactly the chain's three descriptors, without a panic |
| `Virtio.Disk.Alloc3Desc` | kernel/virtio_disk.c:154-166 | three different descriptors exactly if three are free; otherwise none is taken |
| `Virtio.Disk.Submit` | kernel/virtio_disk.c:168-238 | the request is in the available ring exactly if three descriptors were free; otherwise nothing has changed |
| `Virtio.Disk.Finish` | kernel/virtio_disk.c:240-248 | the request's descriptors and no others are free again |
| `Virtio.Disk.Acknowledge` | kernel/virtio_disk.c:256-266 | one round takes note of the oldest completion |
| `Virtio.Disk.Intr` | kernel/virtio_disk.c:251-270 | clears b->disk of exactly the buffers completed and not yet seen, and leaves all else |
| `Virtio.Disk.Complete` | kernel/virtio.h:66-72 | the device puts the chain into the next slot of the used ring |
| `Rings.PutHolds` | kernel/pipe.c:95-95 | a byte put into the slot of the next counter is the queue's new last, and no held byte is overwritten |
| `Rings.TakeHolds` | kernel/pipe.c:120-120 | the byte in the slot of the first counter is the queue's first |
| `Rings.WrapEqual` | kernel/pipe.c:85-85 | counters modulo 2^32 compare as the true ones do |
| `Pipe.FullIff` | kernel/pipe.c:85-85 | the test for a full pipe is exact under wrap |
| `Pipe.EmptyIff` | kernel/pipe.c:110-118 | the test for an empty pipe is exact under wrap |
| `Pipe.Pipe.constructor` | kernel/pipe.c:22-41 | an empty pipe, open at both ends |
| `Pipe.Pipe.Write` | kernel/pipe.c:76-100 | the pipe takes the bytes in order, exactly as many as there is room for; sleeps or fails exactly if bytes are left and it is full |
| `Pipe.Pipe.Read` | kernel/pipe.c:102-127 | delivers the oldest bytes in order, each once, exactly as many as asked for or held; a byte whose copyout fails is lost; sleeps exactly on an empty pipe with writers |
| `Console.TypedOk` | kernel/console.c:137-181 | the line being edited holds no control character, and a full buffer is ready to be read |
| `Console.LineSurvives` | kernel/console.c:137-181 | after any keys that have made no line ready, the line is the characters typed less the erased ones, found by reading the keys backwards; nothing if the buffer is full of bytes to be read |
| `Console.LineReady` | kernel/console.c:162-176 | the key that ends the line, or fills the buffer, makes exactly those ready, in order and that key last, and no other key makes anything ready |
| `Console.ReadsFront` | kernel/console.c:81-129 | a read delivers bytes from the front in order, no ^D, a newline only last, at most n |
| `Console.LostIff` | kernel/console.c:81-129 | a byte is lost exactly if the caller's memory ends before a line's end, a ^D or n bytes, with a byte left that is not a ^D, and it is that byte |
| `Console.ReadsResume` | kernel/console.c:81-129 | a reader that sleeps on the way gets in the end what it would have got at once |
| `Console.SavedEnd` | kernel/console.c:101-110 | a ^D after other bytes is kept, and makes the next read return nothing |
| `Console.Console.constructor` | kernel/console.c:46-56 | nothing typed |
| `Console.Console.Kill` | kernel/console.c:146-152 | kills the whole line |
| `Console.Console.Intr` | kernel/console.c:137-181 | does to the ring what a key does to the two lists, with r, w and e in order within 128 under wrap |
| `Console.Console.Read` | kernel/console.c:81-129 | delivers and removes what the list editor's read does; sleeps exactly if that is not over |
| `Umalloc.Apart` | user/umalloc.c:24-90 | blocks, free or allocated, do not overlap |
| `Umalloc.LinkedOk` | user/umalloc.c:24-44 | a block given back stands at its place in the circular, address-ordered list |
| `Umalloc.MergedOk` | user/umalloc.c:33-42 | joining touching free blocks covers the same bytes |
| `Umalloc.FreedOk` | user/umalloc.c:24-44 | free leaves the list circular, sorted, disjoint and fully coalesced; every byte is still in exactly one block, and the other live blocks are as they were |
| `Umalloc.FreedHasRoom` | user/umalloc.c:24-61 | a block given back leaves a free block at least as large |
| `Umalloc.TakenOk` | user/umalloc.c:74-83 | an exact fit or the tail of a larger block becomes the new block, and nothing else changes |
| `Umalloc.GrantedOk` | user/umalloc.c:46-61 | memory from sbrk becomes one block |
| `Umalloc.SizeFits` | user/umalloc.c:33-42 | the 32-bit sum of two sizes does not wrap |
| `Umalloc.MorecoreExact` | user/umalloc.c:46-61 | sbrk gets the size of the block exactly below 2^27 units |
| `Umalloc.RequestFits` | user/umalloc.c:63-72 | that is, for at most 2^31 - 32 bytes; the units are enough for the bytes |
| `Umalloc.Allocator.constructor` | user/umalloc.c:21-22 | no memory and no list yet |
| `Umalloc.Allocator.FindSlot` | user/umalloc.c:30-32 | the loop ends at the block's place in the list, wherever it starts |
| `Umalloc.Allocator.Free` | user/umalloc.c:24-44 | the block is free, joined with its neighbours; other live blocks keep place and size; all bytes are conserved |
| `Umalloc.Allocator.Morecore` | user/umalloc.c:46-61 | the list has room for the request, or nothing has changed, exactly as sbrk says |
| `Umalloc.Allocator.Search` | user/umalloc.c:74-89 | one turn round the list takes a block exactly if there is one that is large enough |
| `Umalloc.Allocator.Malloc` | user/umalloc.c:63-90 | a block large enough and disjoint from all live ones, which stay as they were, after at most one sbrk; 0 exactly if there is no room and sbrk fails |
| `Shell.SkipSpace` | user/sh.c:265-308 | the first character that is not white space |
| `Shell.GetToken` | user/sh.c:265-308 | the next token, as Shell.Gettok gives it, about which ShellSpelling.Lexes is |
| `Shell.PeekAt` | user/sh.c:310-320 | skips white space and nothing else, and says whether the character there is one of the given ones |
| `Shell.RunRedirs` | user/sh.c:374-397 | the loop of parseredirs reads the redirections that the function does, which ShellSpelling.RedirsSame ties to the grammar |
| `Shell.RunArgs` | user/sh.c:415-446 | the loop of parseexec reads the arguments and redirections that the function does, at most 9 words, which ShellSpelling.ArgsSame ties to the grammar |
| `Shell.RunLine` | user/sh.c:344-359 | parseline with its loop of ampersands; the mutual recursion ends on every input |
| `Shell.LineWords` | user/sh.c:344-446 | every word of a parsed command is a run of word characters of the line, ended by something else |
| `Shell.EndsApart` | user/sh.c:449-493 | no terminator is written inside a word of the command |
| `Shell.Nulterminate` | user/sh.c:449-493 | writes a NUL at the end of each word of the command, in place, and nothing else |
| `Shell.WordIntact` | user/sh.c:449-493 | a word read as a C string after the writes is what stood in the line |
| `Shell.TextIntact` | user/sh.c:449-493 | and so for all words of a command |
| `Shell.WordsSurvive` | user/sh.c:327-493 | for every line that parses, every argv and file string is intact after nulterminate's writes |
| `Shell.Parsecmd` | user/sh.c:327-342 | parses and terminates in one buffer, as the function about which ShellSpelling.ParsesExactly is; on a panic the buffer is unchanged |
| `ShellGrammar.LineRead` | user/sh.c:344-446 | every line of the grammar (words and redirections in any order, blocks with redirections, pipelines, ampersands, lists), over tokens, is read as what it means |
| `ShellGrammar.LineSound` | user/sh.c:344-446 | whatever the parser reads over tokens is a line of the grammar with that meaning |
| `ShellSpelling.Lexes` | user/sh.c:265-308 | on a line that spells tokens, with any spaces, gettoken finds the first one and the place of the next |
| `ShellSpelling.RedirsSame` | user/sh.c:374-397 | on such a line the redirections read are those of the tokens |
| `ShellSpelling.ArgsSame` | user/sh.c:415-446 | and so are the words of a simple command and the redirections between them |
| `ShellSpelling.LineSame` | user/sh.c:344-446 | and the whole line, also where it panics |
| `ShellSpelling.ParsesExactly` | user/sh.c:265-446 | parsecmd accepts exactly the lines that spell a line of the grammar, whatever their spaces, and as what that means |
| `ShellRoundTrip.RoundTrip` | user/sh.c:265-493 | printing any command tree (plain words, at most 9 a command) with all parentheses and running parsecmd on it gives the same tree, with every string as it is in memory after nulterminate |
| `ShellRoundTrip.WrittenLine` | user/sh.c:265-493 | any line of the grammar written out parses, and what is in memory after nulterminate is what it means |
| `ShellRoundTrip.PlainRoundTrip` | user/sh.c:265-493 | printing any command tree as a user would, words before redirections, pipes and lists to the right and no needless parentheses, and running parsecmd on it gives the same tree |
| `ShellRoundTrip.FewestParens` | user/sh.c:344-446 | no line of the grammar that means a command has fewer parentheses than that printed one |

## Left out

- LogCache.CrashAtomicity: for runs in which no buffer in use or pinned is recycled; in all runs of a boot it holds exactly under the condition of LogLost.BootSafeIff.
- LogCache.Durable: for the same runs.
- LogCache.CommitIsGroup: for the same runs.
- LogCache.ReadsLastLogged: for the same runs; in all runs of a boot it holds exactly under the condition of LogLost.BootSafeIff.
- LogCache.RunKeepsInv: for the same runs.
- LogCache.StepKeepsInv: begin_op's wait for space is in LogReservation; a panic of bget is a step that cannot be taken.
- FsRuns.StepKeeps: itrunc, ialloc and the freeing of an inode are one step each, reads and writes one step for each block; copies to and from the caller succeed, a read fills a hole only while a transaction is open, as log_write demands, and a full disk is a step that cannot be taken.
- FileSystem.Fs.Writei: every copy from the caller succeeds; after a failed copy the source drops the block's change and still returns n.
- Umalloc.Allocator.Malloc: requests of more than 2^31 - 32 bytes, for which sbrk returns less than the block that is entered.
- Exec.Exec: only the memory side; argument strings are shorter than a page, as sys_exec fetches them, and there is no more memory than PHYSTOP - KERNBASE. The program name and the registers in the trapframe are not part of it.
- ForkMemory.Fork: only the memory side; open files, the current directory and the name are not part of it.
- VirtualMemory.Machine.Uvmalloc: physical memory runs out before user addresses do.
- ProcTree.ForestInRuns: process numbers do not overflow; sleeping elsewhere than in wait is part of running.
- InodeCache.StepKeeps: which inodes may have holes does not change in a run; writes make none; itrunc and iupdate inside iput are one step; panics of iget and ilock are runs that end.
- Virtio.Disk.Submit: a buffer is not submitted again while a request for it is under way, which the buffer's sleep lock ensures; descriptor addresses, the status byte and the memory barrier are not part of it.
- Sleep.SoundRuns: one monitor with its channels at a time; wakeups meant for other channels are spurious wakeups.
- WaitReturns.WaitDecides: not for init, to which others give children while it scans.
- Scheduler.SchedChecks: callers of sleep may hold other locks in the model, which is where noff differs from 1.
- Interrupt entry, traps, assembly and timer: swtch is one step that exchanges the running context.
- kernel/uart.c, kernel/plic.c and console output, device initialisation and MMIO registers: hardware.
- Directories and path names, link counts, the file table and its reference counts, and argument fetching of system calls: easier members over the same files and inodes.
- copyinstr, uvminit, growproc and the kernel's own page table: like the copies, growth and mappings that are modelled.
- runcmd and the other user programs, printf and string routines.
- Liveness: that every sleeper is woken in the end, and freedom from deadlock.
