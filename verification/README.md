# Verification of the xv6 storage stack, memory, processes and tools

Dafny models of the parts of this repository that are protocols or data structures of their
own, with proofs of what they promise. `dafny verify dfyconfig.toml` checks everything. Each
file is one module and follows one source file, or states the theory that such a file needs.

* **Storage.** `RedoLog` is the theory of the redo log on an abstract disk: a crash may come
  between any two block writes, in a commit and in any number of recoveries. `LogProtocol` is
  the reservation of log space over every interleaving of operations. `Bio` is the buffer cache
  on its circular list, `BufferUse` the account of which threads refer to and lock its buffers,
  and `Log` the log's code on top of them; its commit and recovery, with other threads taking and
  giving back buffers between any two of their steps, are proved to issue exactly the disk writes
  that the theory is about. `Ownership` is the invariant that ties the bitmap to direct,
  indirect-table and indirect pointers, `Accounting` what each operation logs, `Fs` the allocator
  and the inode layer, with reads and writes refined to byte sequences, and `File` the chunking of
  `filewrite` against the log quota, which `Quota` and `QuotaState` show to be tight. `CrashFs`
  puts files and log together: what a boot finds after a crash anywhere in a file operation.
  `Blocks`, `DiskWrites`, `Bitmap` and `Inodes` hold the words, writes, bits and packed inodes
  that these share.
* **Disk driver.** `Virtio` is the split virtqueue of VIRTIO 1.1 (sections 2.6 and 5.2) shared by
  submitters, the interrupt handler and a device that completes requests in any order;
  `VirtioRuns` is about runs of all their steps.
* **Memory.** `PageTable` and `Vm` are the Sv39 trees (RISC-V Privileged Architecture, version
  20211203, section 4.4) in physical memory: a flat map for every address space and an owner for
  every page of RAM. `PageNeeds` is what mappings cost: the page tables that are missing on the way
  to some pages. `UserMemory` is what a process sees of it through `copyin`, `copyout` and lazy
  allocation. `Umalloc` is the user-level heap, whose list lives in the memory it manages.
* **Processes.** `Proc` is a transition system of sleep, wakeup, fork, exit and wait, split at
  every acquire, release and switch, with what all its runs keep. `ProcSteps` says which step
  changes what, and `ProcRuns` what can be brought about from every reachable state: the other
  half, without which a kernel that never does anything would be as good. `Lottery` is this
  repository's scheduler. `Pipe` and `Console` are the two ring buffers, by the sections that run
  under their locks.
* **Tools.** `ShParse` is what the shell's parsing routines compute and `Sh` the parser as it runs;
  `ShGrammar` is the language written down as a grammar of its own, which the parser is proved to
  accept, `ShPlaces` is about the words of a line and `ShPrint` prints command trees. `Grep` is the
  matcher and the line loop. `Extents` is the separate file system program's extent list;
  `ExtentLists` is what it shares with `Umalloc`.

Code that works in place is modelled as a class whose methods reassign its fields; each method is
proved against a specification, and the lemmas are about that specification. Ghost fields
(`owner`, `ring`, `free`, `accepted`, ...) say what the real ones stand for.

Some results are not plain confirmations. `log_write` checks for a full log before it looks for
the block in it, so with operations of `MAXOPBLOCKS` blocks a run can end in that panic; no run
can for any smaller quota, and nothing else in `log.c` can panic
(`LogProtocol.PanicFreeIffBelowQuota`). `begin_op` reserves for operations under way as if they
had logged nothing, and yet is no more cautious than `struct log` lets it be
(`LogProtocol.SleepsOnlyIfNeeded`). The cache has as many buffers as the log has blocks, so a
commit that nobody disturbs comes through if and only if the log is not full; of a full log it
cannot even read a log block (`Log.Logger.Commit`, `Log.FullLog`). A `pipewrite` that sees its
process killed after it has stored bytes returns without waking readers; a reader is left asleep
in front of bytes if and only if one was asleep when such a write began (`Pipe.Ring.Write`,
`Pipe.ReaderLeftAsleep`). `malloc` asks `sbrk` for too little exactly when no block fits and it
needs 2^31 bytes or more, and `calloc` has room for all its elements exactly when their size fits
a `uint` (`Umalloc.Heap.Malloc`, `Umalloc.Heap.Calloc`, `Umalloc.WrappedSizes`). And `fs_write`
records a longer file without looking at where the new blocks are, so list and file table agree
afterwards if and only if first fit, on the list as it was, starts right behind the file's end
(`Extents.GrownFits`, `Extents.Disk.Write`, `Extents.GrowthCanOverlap`). Sizes below zero, which
`cli.c` passes on, break that agreement whenever they round to a negative number of blocks that
something is taken from or given back for (`Extents.Disk.Write`, `Extents.Disk.Shrink`,
`Extents.ShrinkBelowZero`).

## Model

| member | source | states |
|---|---|---|
| RedoLog.HeaderRoundTrip | xv6-riscv/kernel/log.c:88-115 | the block list read from a written header block is the one written, whatever was in the block before |
| RedoLog.CrashAtomicity | xv6-riscv/kernel/log.c:65-124 | a crash after any write of commit, then any number of crashed recoveries and one that finishes, leave the home blocks all old or all new; all new exactly when the header write had happened |
| RedoLog.CrashBlocks | xv6-riscv/kernel/log.c:65-124 | the same block by block: after the header write the i-th logged block has its i-th new contents, and every other home block, or all of them before it, what they had |
| RedoLog.RecoverWithCrashes | xv6-riscv/kernel/log.c:117-124 | recovery, dying after any number of writes any number of times, ends with no transaction on the disk and never changes the logical contents |
| RedoLog.RunsAreAtomic | xv6-riscv/kernel/log.c:178-204 | over any run of transactions with crashes anywhere the disk's logical contents are those of the transactions applied whole or not at all |
| RedoLog.CopiesThenHeader | xv6-riscv/kernel/log.c:179-192 | copying into the log area changes no home block and not the header; the header write comes after all copies |
| RedoLog.InstallsThenClear | xv6-riscv/kernel/log.c:65-84 | installing does not touch the header, which is cleared last |
| RedoLog.RecoveryWhole | xv6-riscv/kernel/log.c:117-124 | an undisturbed recovery installs what the header lists, clears it and leaves no transaction |
| LogProtocol.RunsKeepInv | xv6-riscv/kernel/log.c:126-176 | every interleaving keeps the reservation; the only reachable panic is that of an absorbed write into a full log at quota MAXOPBLOCKS |
| LogProtocol.ReachableStates | xv6-riscv/kernel/log.c:126-236 | lh.n stays within LOGBLOCKS, a commit runs with no operation outstanding and nothing can be logged meanwhile, and every append finds room |
| LogProtocol.AbsorbedWritePanics | xv6-riscv/kernel/log.c:215-222 | a run in which log_write panics for a block that needs no new slot |
| LogProtocol.PanicFreeIffBelowQuota | xv6-riscv/kernel/log.c:126-236 | no run panics if and only if operations log fewer than MAXOPBLOCKS distinct blocks |
| LogProtocol.SleepsOnlyIfNeeded | xv6-riscv/kernel/log.c:126-143 | with no commit on, begin_op sleeps if and only if some run comes to this very log from which, had the operation been let in, operations within their quota can end in an append that finds no slot |
| LogProtocol.GetsIn | xv6-riscv/kernel/log.c:126-175 | from every reachable state a run of the other threads and one more turn of begin_op's loop let a waiting thread in |
| Bio.BufferCache.constructor | xv6-riscv/kernel/bio.c:36-53 | binit: the list links all NBUF buffers, none claimed |
| Bio.BufferCache.Bget | xv6-riscv/kernel/bio.c:55-89 | the block's own buffer if it is cached, else the least recently used free one, else none; no other buffer changes and a dirty or referenced one is never recycled |
| Bio.BufferCache.LeastRecentlyUsed | xv6-riscv/kernel/bio.c:77-87 | the last free buffer in list order, if there is a free one |
| Bio.BufferCache.Lookup | xv6-riscv/kernel/bio.c:66-74 | a buffer that caches the block, if and only if there is one |
| Bio.BufferCache.Unref | xv6-riscv/kernel/bio.c:122-136 | the second half of brelse: one reference less, and a buffer that nobody refers to any more becomes the most recently used |
| Bio.BufferCache.ToFront | xv6-riscv/kernel/bio.c:125-134 | the list is the old one with the buffer moved to the front |
| Bio.BufferCache.Bpin | xv6-riscv/kernel/bio.c:139-144 | one reference more and the cache still agrees with the disk |
| Bio.BufferCache.Bunpin | xv6-riscv/kernel/bio.c:146-151 | one reference less, allowed only when it cannot lose newer contents |
| Bio.BufferCache.CachedOnce | xv6-riscv/kernel/bio.c:59-89 | no block has two buffers |
| BufferUse.GetKeeps | xv6-riscv/kernel/bio.c:59-89 | bget by any thread keeps the account: it never recycles a buffer that is pinned or that another thread refers to |
| BufferUse.ReleaseKeeps | xv6-riscv/kernel/bio.c:120-136 | giving back a reference that is nobody else's keeps the account, and the last one given back loses no newer contents |
| BufferUse.ChangeKeeps | xv6-riscv/kernel/log.c:206-236 | after a change every block that is newer in the cache than on the disk is pinned, or still locked by the operation that changed it |
| BufferUse.AllPinned | xv6-riscv/kernel/log.c:145-176 | with no operation under way, every block that is newer in the cache than on the disk is pinned for the log |
| BufferUse.SomeFree | xv6-riscv/kernel/bio.c:77-88 | with fewer pinned blocks and references than buffers, bget finds a free one |
| BufferUse.NoneFree | xv6-riscv/kernel/bio.c:77-88 | with as many pinned blocks as buffers, bget panics for every other block |
| Log.Logger.BeginOp | xv6-riscv/kernel/log.c:126-143 | admits if and only if no commit is on and the log with 10 blocks for every operation under way and this one fits 30, as the protocol's step, and changes nothing when it sleeps |
| Log.Logger.LogWrite | xv6-riscv/kernel/log.c:206-236 | adds, absorbs or panics as the protocol's step, and pins the buffer when and only when the block takes a new slot |
| Log.Logger.AnyStep | xv6-riscv/kernel/bio.c:55-151 | whatever step another thread takes, at any time, every logged block keeps a pinned buffer with its newest contents, the committing thread keeps its buffers, and nothing reaches the disk |
| Log.Logger.Others | xv6-riscv/kernel/bio.c:55-151 | so does any number of steps, and during a commit they change no contents |
| Log.Logger.Bread | xv6-riscv/kernel/bio.c:91-103 | the buffer returned holds the newest contents of the block, whichever buffer that is and however long another thread kept it locked; it ends otherwise only while another thread keeps the lock or when every buffer is in use |
| Log.Logger.WriteBlock | xv6-riscv/kernel/bio.c:105-112 | the data reach the disk block of the held buffer and no other, whoever reads meanwhile |
| Log.Logger.Brelse | xv6-riscv/kernel/bio.c:114-137 | unlocks and gives the reference back, in two steps between which the buffer may be locked again by others |
| Log.Logger.CopyToLog | xv6-riscv/kernel/log.c:183-191 | one turn of write_log, with other threads between its steps: the newest contents of a pinned block reach the log block, or nothing is written |
| Log.Logger.InstallOne | xv6-riscv/kernel/log.c:70-83 | one turn of install_trans: the log block's contents reach the home block and, in a commit, its pin goes; or nothing is written |
| Log.Logger.WriteLog | xv6-riscv/kernel/log.c:178-192 | the disk writes are the log copies of the newest contents, in order; a loop that stops has made the first few of them |
| Log.Logger.WriteHead | xv6-riscv/kernel/log.c:100-115 | one disk write: the header block with the in-memory list |
| Log.Logger.InstallTrans | xv6-riscv/kernel/log.c:65-84 | the disk writes are the installs, in order, and nothing is pinned or dirty afterwards; a loop that stops has made the first few of them |
| Log.Logger.Commit | xv6-riscv/kernel/log.c:194-204 | with readers between any two steps, the disk writes are exactly those that crash atomicity is proved for, with the newest contents of the logged blocks, and then nothing is logged, pinned or dirty; a commit that waits for a lock for ever or finds no buffer has made the first few of them; undisturbed it comes through if and only if the log is not full |
| Log.Logger.CrashedAnywhere | xv6-riscv/kernel/log.c:117-204 | wherever such a commit has come to, a crash and then crashed recoveries leave the home blocks all old or all new |
| Log.Logger.LogOne | xv6-riscv/kernel/log.c:206-214 | the typical use of log_write, with nobody else about: the block joins the log and its buffer alone stays in use |
| Log.FullLog | xv6-riscv/kernel/log.c:126-236 | a run of three operations that fill the log, whose last end_op ends in "bget: no buffers" |
| Log.Logger.ReadHead | xv6-riscv/kernel/log.c:86-98 | the in-memory list becomes the one on disk |
| Log.Logger.Recover | xv6-riscv/kernel/log.c:117-124 | from any readable header, exactly the writes of the recovery theory, or where it stops the first few of them; undisturbed it does not stop |
| Log.Logger.EndOp | xv6-riscv/kernel/log.c:145-176 | the state follows the protocol's step; the last operation commits, whoever holds buffers for reading, and any other end_op leaves the disk as it was |
| Bitmap.MarkEffect | xv6-riscv/kernel/fs.c:75-103 | setting or clearing one bit of a bitmap block changes that bit only |
| Ownership.BitsMeanOwners | xv6-riscv/kernel/fs.c:64-106 | a bit is set exactly for metadata and for blocks that exactly one slot of one inode holds (or one just allocated) |
| Ownership.AllocKeeps | xv6-riscv/kernel/fs.c:64-89 | balloc keeps the invariant and every pointer |
| Ownership.LinkKeeps | xv6-riscv/kernel/fs.c:405-428 | storing a fresh block in a direct or indirect pointer keeps it |
| Ownership.EntryLinkKeeps | xv6-riscv/kernel/fs.c:428-444 | storing a fresh block in the indirect table keeps it |
| Ownership.DataWriteKeeps | xv6-riscv/kernel/fs.c:540-553 | writing data to an owned data block changes no pointer of any inode and no bit |
| Ownership.UnlinkKeeps | xv6-riscv/kernel/fs.c:455-472 | freeing a direct block, or the emptied table, and clearing its pointer keeps the invariant |
| Ownership.FreeEntryKeeps | xv6-riscv/kernel/fs.c:462-468 | freeing the blocks of the table one by one keeps it, the freed entries accounted for |
| Fs.FileSystem.Balloc | xv6-riscv/kernel/fs.c:64-89 | the first free block, marked, zeroed and both logged; 0 exactly when every bit is set, and then nothing changed |
| Fs.FileSystem.Bfree | xv6-riscv/kernel/fs.c:91-106 | panics exactly when the bit is clear; otherwise clears that bit |
| Fs.FileSystem.LoadOrAlloc | xv6-riscv/kernel/fs.c:410-428 | a pointer of the inode, allocated and zeroed on demand, all other pointers and blocks kept; 0 only when the disk is full |
| Fs.FileSystem.LoadOrAllocEntry | xv6-riscv/kernel/fs.c:428-440 | the same for an entry of the indirect table |
| Fs.FileSystem.Bmap | xv6-riscv/kernel/fs.c:405-444 | the block that a file block number is mapped to; the invariant holds also after an allocation stopped halfway; and exactly which blocks it logged |
| Inodes.StoreInode | xv6-riscv/kernel/fs.c:233-239 | the inode read back from the block is the one stored, field by field, and the other 15 of the block are what they were |
| Fs.FileSystem.Iupdate | xv6-riscv/kernel/fs.c:222-242 | what a reader of the inode blocks finds for this inode is what memory has, for every other inode what it was, and no other block changes |
| Fs.FileSystem.Writei | xv6-riscv/kernel/fs.c:521-562 | the first tot bytes of the source are spliced into the file; every byte of every other file, every other inode and the other fields of this one are kept, in memory and on disk; tot is short only when the disk is full; and exactly which blocks it logged, no other block having changed |
| Fs.FileSystem.Readi | xv6-riscv/kernel/fs.c:490-519 | exactly the file's bytes from off on, across direct and indirect blocks, and no state changes |
| Fs.ReadBack | xv6-riscv/kernel/fs.c:490-562 | a read of the range written returns what was written; every other byte is the old one |
| Fs.FileSystem.TruncPointer | xv6-riscv/kernel/fs.c:454-472 | one pointer freed and cleared without panic |
| Fs.FileSystem.TruncEntries | xv6-riscv/kernel/fs.c:460-469 | every block that the table lists is freed without panic |
| Fs.FileSystem.Itrunc | xv6-riscv/kernel/fs.c:446-476 | "freeing free block" is unreachable; exactly the blocks the inode owned become free and every other file keeps its bytes; no block changes that was not logged |
| Accounting.WriteFits | xv6-riscv/kernel/fs.c:521-562 | what writei logs, data, bitmap, table and inode blocks, is at most ChunkBlocks blocks |
| Accounting.LoggedMore | xv6-riscv/kernel/fs.c:537-553 | one turn of writei's loop adds to the log what bmap and the data write of that turn log, no block more or less, whether or not the table was there |
| File.ChunkFits | xv6-riscv/kernel/file.c:148-160 | a chunk of n bytes fits MAXOPBLOCKS blocks at every offset if and only if n is at most filewrite's maximum |
| File.ChunkLogged | xv6-riscv/kernel/file.c:148-165 | what writei and its iupdate log for one chunk, wherever it starts and whatever it allocates, is at most MAXOPBLOCKS blocks |
| File.OpenFile.Filewrite | xv6-riscv/kernel/file.c:148-173 | the bytes stored are a prefix of the data, at the file offset, which advances by their number; each of its operations logs at most MAXOPBLOCKS blocks, changes no block that it does not log, and starts where the one before ended; stops early only for a bad range or a full disk |
| CrashFs.BootedSame | xv6-riscv/kernel/fs.c:222-242 | a disk that agrees with a file system outside the log gives a boot the same inodes, the same bytes of every file and the same free blocks, with the invariant |
| CrashFs.CrashedFiles | xv6-riscv/kernel/log.c:117-204 | a crash after any write of an operation's commit, then any number of crashed recoveries: the next boot finds all inodes, file bytes and free blocks as before the whole operation, or, once the header was written, all as after it |
| CrashFs.CrashedCommit | xv6-riscv/kernel/log.c:178-204 | the same wherever the code of commit has come to, with other threads using the cache meanwhile |
| CrashFs.SeriesBoots | xv6-riscv/kernel/log.c:178-204 | over a series of operations, with the machine dying in one of them, a boot finds the state between two operations |
| CrashFs.CrashInFilewrite | xv6-riscv/kernel/file.c:148-173 | die anywhere in a filewrite of any length: the file has some first part of the data stored over it, and every other file and the free blocks are in order |
| CrashFs.CrashInItrunc | xv6-riscv/kernel/fs.c:446-476 | die anywhere in an itrunc: the file is whole, or empty with exactly its blocks free; all other files are kept |
| Quota.QuotaReached | xv6-riscv/kernel/file.c:148-160 | the bound is tight: with the next four free blocks under four bitmap blocks and no indirect table, a largest chunk from the last byte of the last direct block on stores all its bytes and logs MAXOPBLOCKS different blocks |
| Quota.TakesNext | xv6-riscv/kernel/fs.c:405-444 | the table and the three blocks behind it are the next four free blocks, each once |
| Quota.WriteWorst | xv6-riscv/kernel/fs.c:521-562 | writei in every such state |
| QuotaState.StateGood | xv6-riscv/mkfs/mkfs.c:93-108 | a file system in mkfs's layout with four free blocks: bitmap, tables, inodes and owners agree |
| QuotaState.StateIsWorst | xv6-riscv/kernel/file.c:148-160 | it is such a state |
| QuotaState.WriteChunk | xv6-riscv/kernel/file.c:148-160 | and one chunk written there logs MAXOPBLOCKS blocks |
| Virtio.Driver.constructor | xv6-riscv/kernel/virtio_disk.c:99-137 | all descriptors free, both rings empty, the queue invariant |
| Virtio.Driver.AllocDesc | xv6-riscv/kernel/virtio_disk.c:155-166 | the first free descriptor, or -1 if and only if there is none |
| Virtio.Driver.FreeDesc | xv6-riscv/kernel/virtio_disk.c:168-182 | its two panics, exactly |
| Virtio.Driver.Alloc3Desc | xv6-riscv/kernel/virtio_disk.c:199-213 | three distinct descriptors, or none and everything as it was |
| Virtio.Driver.FreeChain | xv6-riscv/kernel/virtio_disk.c:184-197 | frees exactly the three descriptors of the chain, without panic |
| Virtio.Driver.Submit | xv6-riscv/kernel/virtio_disk.c:215-285 | a complete chain for exactly this request is announced, on descriptors that no other chain uses; or it must wait and nothing changed |
| Virtio.Driver.WriteRequest | xv6-riscv/kernel/virtio_disk.c:238-276 | the descriptors, the request header, the buffer and the avail entry as the device will read them |
| Virtio.Driver.DeviceTake | xv6-riscv/kernel/virtio_disk.c:268-278 | the device finds in the avail ring the oldest request it has not taken, also after the 16-bit index wrapped |
| Virtio.Driver.DeviceComplete | xv6-riscv/kernel/virtio_disk.c:238-264 | following the descriptors moves exactly the block and buffer the request was made for, in any order of completion |
| Virtio.Driver.HandleOne | xv6-riscv/kernel/virtio_disk.c:311-325 | one used entry: no panic, and the buffer released is that of the oldest completion not handled |
| Virtio.Driver.Interrupt | xv6-riscv/kernel/virtio_disk.c:294-327 | every completion, also those that the device adds while the loop runs, releases exactly the buffer that submitted it, and no other buffer is released; afterwards none is pending |
| Virtio.Driver.Finish | xv6-riscv/kernel/virtio_disk.c:283-292 | a submitter that finds its buffer released frees its own chain, without panic |
| Virtio.RingPush | xv6-riscv/kernel/virtio_disk.c:268-276 | an entry put in a ring overwrites none that is pending, across index wrap |
| Virtio.RingPop | xv6-riscv/kernel/virtio_disk.c:311-325 | the index comparison tells an empty ring, and the entry read is the oldest pending one |
| Virtio.SubmitKeeps | xv6-riscv/kernel/virtio_disk.c:215-285 | submission keeps the split of the descriptors into free ones and disjoint chains, and there is room in the ring |
| Virtio.CompleteKeeps | xv6-riscv/kernel/virtio_disk.c:311-325 | so does a completion by the device |
| Virtio.FinishKeeps | xv6-riscv/kernel/virtio_disk.c:283-292 | so does the release of a chain |
| VirtioRuns.Possible | xv6-riscv/kernel/virtio_disk.c:168-327 | in every state in order no section can panic: the status of the oldest completion is 0, and a submitter that finds its buffer released frees three taken descriptors |
| VirtioRuns.RunsKeepInv | xv6-riscv/kernel/virtio_disk.c:215-327 | every run of submissions, device steps, turns of the interrupt loop and releases, in any order, keeps the queue in order |
| VirtioRuns.TakesEffectOnce | xv6-riscv/kernel/virtio_disk.c:215-292 | over every run a request takes effect exactly once, at one moment between its submission and its return: a write stores what the buffer held when it was submitted, a read returns what the disk held at that moment |
| PageTable.PathsDiffer | xv6-riscv/kernel/riscv.h:371-380 | distinct pages below MAXVA never reach the same entry |
| PageTable.PteParts | xv6-riscv/kernel/riscv.h:365-370 | address and flags are recovered from an entry |
| PageTable.AllocKeeps | xv6-riscv/kernel/kalloc.c:65-82 | kalloc keeps every map, and every page in exactly one place |
| PageTable.LinkMidKeeps | xv6-riscv/kernel/vm.c:99-116 | a new table in the root changes no mapping of any address space |
| PageTable.LinkLowKeeps | xv6-riscv/kernel/vm.c:99-116 | nor does one a level below |
| PageTable.MapKeeps | xv6-riscv/kernel/vm.c:165-176 | a leaf entry changes the mapping of one page of one address space |
| PageTable.UnmapKeeps | xv6-riscv/kernel/vm.c:203-213 | clearing a leaf and freeing its frame removes that page's mapping and no other |
| PageNeeds.PaysForNext | xv6-riscv/kernel/vm.c:100-117 | after some pages were mapped there is memory for the next one if and only if before any of them there was for all, shared tables counted once |
| PageNeeds.TookMore | xv6-riscv/kernel/vm.c:100-117 | mapping page after page takes from the free list exactly the tables that the pages together lacked at first |
| Vm.Memory.constructor | xv6-riscv/kernel/kalloc.c:26-40 | every page of RAM is free |
| Vm.Memory.Kfree | xv6-riscv/kernel/kalloc.c:42-63 | its panic, exactly; otherwise the page heads the free list |
| Vm.Memory.Kalloc | xv6-riscv/kernel/kalloc.c:65-82 | the first free page, or 0 if and only if there is none |
| Vm.Memory.Walk | xv6-riscv/kernel/vm.c:86-117 | finds the entry's table; with alloc it changes no mapping of any address space, links exactly the tables missing on the way, and fails if and only if the free list is shorter than these; without alloc it changes nothing |
| Vm.Memory.Mappages | xv6-riscv/kernel/vm.c:142-176 | exactly its pages are mapped, and no other mapping or owner changes; it fails if and only if the free list is shorter than the tables its pages lack, after the longest first part of them that it had tables for |
| Vm.Memory.MapFresh | xv6-riscv/kernel/vm.c:228-240 | one turn of uvmalloc or uvmcopy: a page mapped to a new frame with given contents and nothing else changed, if and only if the free list has more pages than there are tables missing on the way; otherwise nothing is mapped, and nothing but such tables is missing from the list |
| Vm.Memory.Uvmunmap | xv6-riscv/kernel/vm.c:191-214 | exactly its pages are unmapped, and the free list gets exactly their frames |
| Vm.Memory.Uvmalloc | xv6-riscv/kernel/vm.c:216-242 | a page is new, mapped and a zeroed frame of its own if and only if its first byte lies between the two sizes, provided the free list has as many pages as these and the tables they lack need; if and only if it has not, 0, every mapping, owner and page content is as before, and no page is lost but for some of these tables, which stay linked |
| Vm.GrownAddresses | xv6-riscv/kernel/vm.c:216-242 | after growth every address between the two sizes is on a mapped page, if the page of the old end was |
| Vm.Rounding | xv6-riscv/kernel/vm.c:227-285 | the rounded-up number of pages counts a page if and only if its first byte is below the size |
| Vm.RoundedUp | xv6-riscv/kernel/vm.c:227-285 | PGROUNDUP is the least multiple of the page size not below the size |
| Vm.Memory.Uvmdealloc | xv6-riscv/kernel/vm.c:244-260 | exactly the pages that begin at or above the new size and below the old one go, and the list gets exactly their frames |
| Vm.Memory.Uvmcopy | xv6-riscv/kernel/vm.c:292-326 | for every page with a byte below the size the child has what the parent has, with its flags and contents in a fresh frame, and other pages as before; or, if and only if the free list is shorter than the parent's mapped pages and the tables the child lacks, every mapping is as before, and no page is lost but for some of these tables |
| Vm.Memory.Uvmcreate | xv6-riscv/kernel/vm.c:178-189 | an empty address space for one page of the free list, all others untouched; 0 exactly when that is empty |
| Vm.Memory.Freewalk | xv6-riscv/kernel/vm.c:262-280 | frees every table of the tree without panic when no leaf is left, and nothing else |
| Vm.Memory.Uvmfree | xv6-riscv/kernel/vm.c:282-290 | every page of the address space, frame or table, is free again; all others keep owner, map and contents |
| UserMemory.Process.Walkaddr | xv6-riscv/kernel/vm.c:119-140 | the frame of a valid user page, else 0 |
| UserMemory.Process.Vmfault | xv6-riscv/kernel/vm.c:450-475 | fails exactly for an address not below the size, a page that is mapped, or a free list with no more pages than there are tables missing on the way; the process sees no difference either way |
| UserMemory.FaultUnnoticed | xv6-riscv/kernel/vm.c:450-475 | lazy allocation is invisible: rights and contents of every page of every process are the same before and after |
| UserMemory.ForkedReads | xv6-riscv/kernel/vm.c:292-326 | after uvmcopy the child reads, at every address below the size, the byte that the parent reads, with the same rights, and the parent reads what it did |
| UserMemory.FaultTurn | xv6-riscv/kernel/vm.c:383-396 | one turn of a copy finds or faults in its page if and only if the page may be used and the list, as it was before the whole copy, could pay for all untouched pages up to it |
| UserMemory.Process.Copyin | xv6-riscv/kernel/vm.c:380-405 | the bytes are those the process has there, faulted in or not; it gets exactly as far as every page may be read and the free list before the call can pay for the untouched ones and their tables, and takes just these from it |
| UserMemory.Process.CopyoutPage | xv6-riscv/kernel/vm.c:350-374 | one turn of copyout: its bytes arrive if and only if the page may be written and the list can pay for it, otherwise the process sees no difference |
| UserMemory.Process.Copyout | xv6-riscv/kernel/vm.c:341-377 | exactly the bytes copied change, in this process only; it gets exactly as far as every page may be written and the free list before the call can pay for the untouched ones and their tables, and takes just these from it |
| UserMemory.CopiedOutReadsBack | xv6-riscv/kernel/vm.c:341-405 | what was copied out is what a copyin of the range returns |
| Umalloc.Heap.Place | xv6-riscv/user/umalloc.c:30-32 | the search of free ends, wherever freep stands, at the one node after which the block belongs |
| Umalloc.Heap.Release | xv6-riscv/user/umalloc.c:24-44 | the block's units become free, merged so that the list stays ordered with no two adjacent blocks; no unit of any live block is written |
| Umalloc.Heap.Morecore | xv6-riscv/user/umalloc.c:46-61 | at least 4096 new units join the free list, or nothing changes; sbrk is asked for another number of bytes exactly when that number is 2^31 or more |
| Umalloc.Heap.Malloc | xv6-riscv/user/umalloc.c:63-90 | terminates; a block of the requested units cut out of free ones, disjoint from all live blocks, whose units are not written; fails exactly when no block fits and sbrk fails, or no block fits and the amount to ask for is no int |
| Umalloc.Heap.Realloc | xv6-riscv/user/umalloc.c:92-130 | the new block starts with the old one's first min(old, new) bytes, old as a uint counts it, the old one is free, other blocks untouched; on failure everything is kept |
| Umalloc.OldSizeFits | xv6-riscv/user/umalloc.c:112-113 | the uint old_size is the block's size for every block that malloc hands out but the largest, for which it is 0 |
| Umalloc.Heap.Calloc | xv6-riscv/user/umalloc.c:132-154 | all bytes of the new block are zero, other blocks untouched; it has room for num * size bytes if and only if that product fits a uint |
| Umalloc.WrappedSizes | xv6-riscv/user/umalloc.c:46-138 | requests for which the amounts wrap |
| Umalloc.BlocksApart | xv6-riscv/user/umalloc.c:24-90 | in every valid heap live blocks lie apart, free blocks lie apart with a gap, and neither meets the other |
| Umalloc.PutBackLinked | xv6-riscv/user/umalloc.c:33-43 | the links written in each of the four merge cases spell out the new list with one wrap |
| Umalloc.FreedKeeps | xv6-riscv/user/umalloc.c:24-44 | freeing keeps the partition of the sbrk'd units into live and free blocks |
| Umalloc.TakenKeeps | xv6-riscv/user/umalloc.c:74-85 | taking a block keeps it too |
| Proc.StepKeeps | xv6-riscv/kernel/proc.c:263-421 | every step of every thread, in any state, timer interrupts wherever no lock is held and forks that run out of memory included, keeps the invariant of locks, states, channels, parents, forks, exits and scans; that the steps also get things done is in ProcRuns |
| Proc.Reachable | xv6-riscv/kernel/proc.c:263-607 | it holds after every run from boot |
| Proc.NoLostWakeup | xv6-riscv/kernel/proc.c:560-607 | once a wakeup under the condition's lock is through, nobody who had called sleep on the channel before is asleep or still on the way to it |
| Proc.SleepingParentHasNoZombie | xv6-riscv/kernel/proc.c:330-421 | whenever wait_lock is free, a parent asleep in kwait has no ZOMBIE child |
| Proc.FreedSlotsAreIdle | xv6-riscv/kernel/proc.c:377-421 | a slot is freed only when no CPU runs on its kernel stack and it is nobody's parent |
| Proc.ParentsAreLive | xv6-riscv/kernel/proc.c:314-372 | a parent pointer never names an UNUSED or ZOMBIE slot |
| Proc.ExclusionAndWait | xv6-riscv/kernel/proc.c:374-421 | a condition lock has one holder, and kwait reports no children only when there are none |
| ProcSteps.StateDiagram | xv6-riscv/kernel/proc.c:106-632 | a process changes state only along the arrows of the diagram, each by the one step that makes it: USED to RUNNABLE by its own fork, SLEEPING to RUNNABLE by a kill of it or a wakeup of its channel, ZOMBIE to UNUSED by its parent's kwait |
| ProcSteps.ParentDiagram | xv6-riscv/kernel/proc.c:301-409 | a parent pointer is set by the fork, moved to init by the parent's exit, cleared when the parent frees the dead child, and changed by nothing else |
| ProcSteps.WaitReturns | xv6-riscv/kernel/proc.c:374-421 | in every reachable state kwait leaves its loop with a dead child freed, or its status not copied out, or killed, or without children; with children and not killed it goes to sleep; wait_lock is given up either way |
| ProcSteps.LockedUntouched | xv6-riscv/kernel/proc.c:377-607 | while p->lock is held around a switch, nobody else changes the process but for its parent, and a wakeup or scan that comes to it waits |
| ProcSteps.UsedIsForked | xv6-riscv/kernel/proc.c:263-312 | in every reachable state a USED slot is that of a fork under way |
| ProcRuns.ForkGoesThrough | xv6-riscv/kernel/proc.c:299-312 | from every reachable state with a thread in kfork, interrupted or not, there is a run after which the child is RUNNING with that parent and the caller is back |
| ProcRuns.ForkFromStart | xv6-riscv/kernel/proc.c:263-312 | so there is for any process and any free slot |
| ProcRuns.WaitGoesThrough | xv6-riscv/kernel/proc.c:374-421 | from every reachable state with a process in kwait's scan and a ZOMBIE child, however many others there are, there is a run after which that slot is free and the parent back |
| ProcRuns.WaitFromStart | xv6-riscv/kernel/proc.c:374-421 | so there is when the parent only calls kwait |
| ProcRuns.ExitGoesThrough | xv6-riscv/kernel/proc.c:316-369 | any process but init can exit: it becomes a ZOMBIE off its stack and nobody's parent, its children are init's, and its parent is not left asleep in kwait |
| ProcRuns.ExitIsReaped | xv6-riscv/kernel/proc.c:330-421 | a child that exits while its parent sleeps in kwait is freed, and the parent is back |
| ProcRuns.SleepGoesThrough | xv6-riscv/kernel/proc.c:560-590 | a process that calls sleep is SLEEPING on its channel and the condition lock is free |
| ProcRuns.WakeupGoesThrough | xv6-riscv/kernel/proc.c:592-607 | a wakeup makes exactly the processes that went to sleep on its channel before it RUNNABLE, those on the way included, and leaves sleepers on other channels asleep |
| ProcRuns.SleeperComesBack | xv6-riscv/kernel/proc.c:560-607 | each of them then comes to hold the condition lock, whoever has it |
| ProcRuns.KillGoesThrough | xv6-riscv/kernel/proc.c:560-632 | a sleeper that is killed comes back from sleep, into its critical section or out of kwait |
| ProcRuns.LockComesFree | xv6-riscv/kernel/proc.c:330-607 | from every reachable state any condition lock can come free: there is no deadlock |
| ProcRuns.YieldGoesThrough | xv6-riscv/kernel/proc.c:512-521 | an interrupt where no lock is held, in the middle of kfork or of sleep's way back too, takes the CPU away, and the thread can go on exactly where it was |
| ProcRuns.RunnableRuns | xv6-riscv/kernel/proc.c:423-487 | from every reachable state any RUNNABLE process can become RUNNING |
| Lottery.Scheduler.Draw | xv6-riscv/kernel/proc.c:446-482 | whatever happens to the table between its locks, the process that runs is the one that holds the number drawn from the first pass's sum by what the second pass sees; none when the first pass sees nothing RUNNABLE or the second sum does not reach the number |
| Lottery.Scheduler.DrawAlone | xv6-riscv/kernel/proc.c:446-482 | undisturbed, exactly the process that holds the winning number runs, and none when and only when nothing is RUNNABLE |
| Lottery.Scheduler.SetTickets | xv6-riscv/kernel/sysproc.c:111-125 | the first slot with the pid gets the tickets, or -1 and nothing changes; tickets stay positive |
| Lottery.OneWinner | xv6-riscv/kernel/proc.c:446-482 | every winning number is held by exactly one process |
| Lottery.NumbersHeld | xv6-riscv/kernel/proc.c:446-482 | process i holds exactly ticket_i numbers |
| Lottery.WinningExactly | xv6-riscv/kernel/proc.c:446-482 | how many of the first n random values make process i win, exactly |
| Lottery.LotteryIsFair | xv6-riscv/kernel/proc.c:446-482 | among all 2^31 values that count lies between ticket_i * floor(2^31 / total) and ticket_i * (floor(2^31 / total) + 1) |
| Pipe.Ring.Write | xv6-riscv/kernel/pipe.c:76-103 | the bytes accepted are a prefix of the rest, put behind all accepted before; it sleeps only on a full ring; somebody is left asleep without reason if and only if a reader was asleep and the writer is killed after storing a byte |
| Pipe.ReaderLeftAsleep | xv6-riscv/kernel/pipe.c:83-103 | such a run: a reader asleep in front of a byte |
| Pipe.Ring.Read | xv6-riscv/kernel/pipe.c:105-134 | the bytes delivered are the next ones ever accepted, as many as asked for and there; it sleeps only on an empty ring with a writer, and wakes writers |
| Pipe.Ring.Close | xv6-riscv/kernel/pipe.c:58-74 | the page is freed by the second of the two ends only, and then nobody sleeps on it |
| Pipe.Distance | xv6-riscv/kernel/pipe.c:83-121 | comparing the counters modulo 2^32 tells empty and full exactly |
| Pipe.Stored | xv6-riscv/kernel/pipe.c:92-96 | a byte put in its slot displaces no byte that is not delivered yet |
| Console.Cons.Intr | xv6-riscv/kernel/console.c:138-185 | each control character's effect on the line being typed, kill-line up to exactly its start; a full ring takes nothing; a line is handed over at newline, ^D or a full ring |
| Console.Cons.Accept | xv6-riscv/kernel/console.c:164-181 | the default case, with w - r <= e - r <= 128 modulo 2^32 |
| Console.Cons.Read | xv6-riscv/kernel/console.c:79-133 | a reader gets the next line up to its newline or ^D, in order; ^D is kept for the next read unless it was the first character; when and only when the characters run out before the request, a newline, ^D or a failing copy, it sleeps, or returns -1 if it was killed |
| Console.Appended | xv6-riscv/kernel/console.c:171-172 | a character stored at the edit index overwrites none that is not read yet |
| Console.Apart | xv6-riscv/kernel/console.c:165-174 | differences of the wrapping indices are the lengths |
| Grep.Match | xv6-riscv/user/grep.c:72-82 | true if and only if some substring, respecting ^ and $, is in the language that the pattern denotes |
| Grep.MatchHere | xv6-riscv/user/grep.c:84-96 | true if and only if the pattern occurs at the front of the text |
| Grep.MatchStar | xv6-riscv/user/grep.c:98-106 | true if and only if the rest of the pattern occurs after some run of the starred character |
| Grep.PrintLines | xv6-riscv/user/grep.c:19-33 | the matching complete lines before the first NUL are printed and the rest moves to the front |
| Grep.KeptInTwo | xv6-riscv/user/grep.c:17-33 | reading in pieces shows the same lines, and keeps the same rest, as reading at once |
| Grep.GrepInput | xv6-riscv/user/grep.c:12-35 | on any input, whatever sizes read returns, the output is the matching lines before the first NUL of all that was read, and all is read unless what has to be kept fills the buffer |
| ShGrammar.AcceptsExactly | xv6-riscv/user/sh.c:267-452 | a line is parsed without panic if and only if it spells a command of the grammar, with any white space of blank, tab, carriage return, newline and vertical tab around its words and symbols and some between two words |
| ShGrammar.Parses | xv6-riscv/user/sh.c:267-452 | and then to the tree that the grammar gives it: pipes bind tighter than &, and & than ;, arguments and redirections in any order, the first redirection innermost, parentheses anywhere |
| ShGrammar.IsSpelling | xv6-riscv/user/sh.c:333-452 | for every parsed line there is such a spelling, with that tree |
| ShGrammar.OneMeaning | xv6-riscv/user/sh.c:333-452 | no line spells two commands |
| ShPrint.RoundTrip | xv6-riscv/user/sh.c:267-452 | parsing a printing of any command tree, with at most 9 arguments per EXEC and whatever white space it is laid out with, gives the tree back |
| ShPrint.WhiteBehind | xv6-riscv/user/sh.c:333-348 | white space behind a line, as the newline that gets leaves, changes nothing |
| ShPrint.PrintsDiffer | xv6-riscv/user/sh.c:333-452 | no line prints two command trees |
| ShPrint.NormalForm | xv6-riscv/user/sh.c:333-452 | whatever any line parses to can be printed, and every printing of it parses to the same |
| ShPlaces.LineOk | xv6-riscv/user/sh.c:350-452 | in every parsed command the places hold nonempty words, each followed by white space, a symbol or the end |
| ShPlaces.EndsOutside | xv6-riscv/user/sh.c:456-499 | the character behind one word is part of no word |
| Sh.Line.NextToken | xv6-riscv/user/sh.c:271-314 | the cursor version of the token function |
| Sh.Line.Redirs | xv6-riscv/user/sh.c:380-403 | the loop computes the grammar's redirections, or panics as it does |
| Sh.Line.Block | xv6-riscv/user/sh.c:405-419 | the parenthesised block |
| Sh.Line.Simple | xv6-riscv/user/sh.c:421-452 | arguments and redirections in any order, with the limit on arguments |
| Sh.Line.Pipeline | xv6-riscv/user/sh.c:367-378 | the pipe level |
| Sh.Line.Commands | xv6-riscv/user/sh.c:350-365 | the line level; with the others, the parser terminates on every input |
| Sh.Line.Terminate | xv6-riscv/user/sh.c:454-499 | NUL is written behind every word and nowhere else |
| Sh.Line.Parse | xv6-riscv/user/sh.c:333-348 | the panic of the first error, or the tree; then every word of it stands in the buffer as typed, as a string with its own NUL |
| ExtentLists.CanonicalUnique | File-System/filesystem.c:183-222 | a sorted, disjoint, maximally merged list is determined by its set of blocks |
| Extents.Disk.constructor | File-System/filesystem.c:50-59 | a new disk: all but the metadata is one extent |
| Extents.Disk.Allocate | File-System/filesystem.c:100-127 | the first extent that is large enough gives its first blocks, a negative number moves the first extent's start backwards; the counts add up; -1 exactly when none is large enough |
| Extents.Disk.FreeBlocks | File-System/filesystem.c:182-222 | the new extent goes in at its place and merges; blocks that were not free join the list, which stays canonical, and the counts add up; for no blocks it stays canonical if and only if the place touches a free extent |
| Extents.Disk.RemoveRange | File-System/filesystem.c:240-281 | exactly the blocks of the range leave the list |
| Extents.Disk.LoadMetadata | File-System/filesystem.c:283-306 | the list rebuilt from the file table is canonical and has exactly the blocks that no file claims; the count of used blocks is the metadata's and the sum of all files' block counts, whether files overlap or not |
| Extents.OneList | File-System/filesystem.c:283-306 | for one file table, in any order of its entries, there is one such list: the one rebuilt is the one that was saved |
| Extents.FirstBlocksFit | File-System/filesystem.c:526-532 | giving a file its first blocks keeps list and table in agreement |
| Extents.GrownFits | File-System/filesystem.c:533-546 | growing a file keeps them in agreement if and only if first fit on the list before starts right behind the file's last block |
| Extents.GrowthCanOverlap | File-System/filesystem.c:533-546 | a growth after which two files claim one block |
| Extents.ShrunkFits | File-System/filesystem.c:578-618 | giving back the end of a file, or all of it, keeps them in agreement as long as the list is canonical |
| Extents.FreedTwice | File-System/filesystem.c:182-222 | giving back a range with a block that is free already leaves overlapping extents |
| Extents.NegativeFirst | File-System/filesystem.c:526-532 | first blocks of a negative number put a block on the list that is not free |
| Extents.NegativeShrunk | File-System/filesystem.c:578-585 | a file shrunk below zero blocks never agrees with the list |
| Extents.ShrinkBelowZero | File-System/filesystem.c:578-585 | a shrink to -1023 bytes that frees the block of the file before |
| Extents.BelowZero | File-System/filesystem.c:523-524 | a size in bytes rounds to a negative number of blocks if and only if it is -1023 or less |
| Extents.Disk.Write | File-System/filesystem.c:513-546 | the block part of fs_write, for any size: when it fails, which blocks it takes, and exactly when table and list agree afterwards |
| Extents.Disk.Shrink | File-System/filesystem.c:578-587 | the block part of fs_shrink, for any size: table and list agree afterwards if and only if the new number of blocks is not negative or nothing is given back |
| Extents.Disk.Delete | File-System/filesystem.c:610-617 | the block part of fs_delete, also of a file shrunk to no blocks or fewer: exactly when agreement is kept |

## Left out

- Hypotheses of the storage part: single-block disk writes are atomic; the header on the disk at boot is readable; only ROOTDEV is cached.
- Log.Logger.Commit: threads other than the committing one take steps on the cache alone, and keep to Allowed: a lock or a reference given back is their own, changes are made inside an operation, and log_write comes before unlocking. A thread that runs end_op has logged what it changed.
- CrashFs.CrashedFiles: that bread and log_write carry the inode layer's reads and changes to the blocks that commit writes is proved in Bio and Log, and here a hypothesis. Owners are ghosts, which a boot does not look for.
- Fs.FileSystem.Writei: one thread at a time under the inode's lock; copies from and to user memory cannot fail.
- inode cache and reference counts (iget, iput, ireclaim), ialloc, directories and path names: table lookups beside the core; a link-count invariant fails because a file can be created in an unlinked directory.
- filealloc, filedup, fileclose and sleeplock.c: small tables and one flag; the protocol of sleep and wakeup that they use is in Proc.
- Virtio.Driver.constructor: virtio_disk_init's negotiation of features and the addresses that it tells the device are left out.
- Virtio.Driver.Submit: the sleeps of a submitter (for descriptors, for its buffer) are points where other steps may come; who is woken when is not modelled, nor is a device error.
- Vm.Memory.Kalloc: a page is a table or opaque contents; the links of the free list inside free pages, and the junk fill as bytes, are not modelled. Addresses are page numbers, except where sizes in bytes are rounded.
- Vm.Memory.Uvmunmap: used for a process's own pages with freeing and for the two kernel pages above them without, as the kernel does.
- UserMemory.Process.Copyout: the page table passed in is the process's own; exec, which copies arguments out into pages that it has mapped in a new one, is left out.
- UserMemory.Process.Vmfault: likewise. copyinstr is left out.
- Umalloc.Heap.Malloc: the answer of sbrk is an argument: an error, or an address in whole units at or above all given before. When the amount that sbrk is asked for wraps, the model stops at that call.
- Umalloc.Bytes: the four padding bytes of a header unit read as 0; only a user of uninitialised memory sees them.
- Proc.Reachable: spinlocks are mutual exclusion, memory is sequentially consistent; callers of wakeup hold the condition's lock; file and directory references of processes are left out.
- ProcRuns.RunnableRuns: there is a CPU for every process that is to run, and the lottery may draw any RUNNABLE process; that a run exists is proved, not that every fair run takes it.
- Lottery.Scheduler.Draw: the random value is an argument; sums of tickets stay below 2^31, as signed overflow has no meaning in C.
- Pipe.Ring.Write: failing copies and kill are arguments that say at which byte they happen; file structures and the page's allocation are left out.
- Console.Cons.Intr: procdump and the uart are left out, the echo is a result.
- Grep.GrepInput: printing is one output string.
- Sh.Line.Simple: tree nodes are values, so that an argument added under redirections is added to a copy of the exec node rather than through a pointer; running commands is left out.
- Extents.Disk.FreeBlocks: list nodes are elements of a sequence.
- fs_alloc and fs_free repeat the loops of allocate_blocks and free_blocks for sizes in bytes; users, groups, permissions and file contents of that program are flat tables.
- exec, system call wrappers, traps, uart, plic and assembly: hardware access and argument passing.
