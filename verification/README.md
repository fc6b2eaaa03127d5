# xv6 in Dafny

A Dafny model of the core of xv6 for RISC-V with memory-mapped files: the redo log and what a crash leaves behind,
block ownership and file contents, the image mkfs builds, directories and link counts, physical pages and Sv39 page
tables, sleep and wakeup, the scheduler, the buffer cache, the virtio disk driver, pipes, mmap, the user-level storage
allocator and grep.  `dafny verify dfyconfig.toml` checks all of it.

Sequential code that updates state is a class whose methods do what the C functions do, each proved against a
specification of the old and new state.  Code whose difficulty is concurrency is a state machine: one step is what runs
between two operations on spin-locks, and the theorems are about every run of any number of processes or CPUs.

| files | what they are about |
|---|---|
| `LogCrash`, `LogSpace`, `LogRoom` | `kernel/log.c`: a crash at any block write; log space under group commit, and what `filewrite` needs of it |
| `FsBytes`, `FsVolume`, `FsContent`, `FsFiles` | `kernel/fs.c` and the chunk loop of `kernel/file.c`: which slot owns which block, and what each file's bytes are |
| `MkfsImage` | `mkfs/mkfs.c` against the same volume invariant |
| `DirLinks`, `DirOps` | names and link counts: `kernel/sysfile.c` over `kernel/fs.c` |
| `PtLayout`, `PtHardware`, `PtMemory`, `PtSpaces`, `PtProc` | `kernel/kalloc.c`, `kernel/vm.c` and the memory side of `kernel/proc.c`, and the processor's translation (sections 4.3 and 4.4 of the RISC-V Privileged Architecture, 20211203) |
| `SleepWake`, `SleepCalls`, `Scheduler` | `kernel/proc.c`, `kernel/sleeplock.c`, `kernel/spinlock.c` |
| `BufCache`, `Virtqueue`, `PipeFifo` | `kernel/bio.c`; `kernel/virtio_disk.c` (sections 2.6 and 5.2 of VIRTIO 1.1); `kernel/pipe.c` |
| `MmapLayout` | `sys_mmap`, `sys_munmap`, page faults and write-back |
| `KrMalloc`, `Grep` | `user/umalloc.c` (section 8.7 of Kernighan and Ritchie, The C Programming Language, 2nd edition); `user/grep.c` |

`Params` holds the constants that several files share, `Basics` what is not about xv6.

The main theorems are `LogCrash.CrashAtomic`, `LogRoom.WriteNeverTooBig`, `FsVolume.BitmapExact`,
`FsFiles.FileSystem.Writei` and `Itrunc`, `MkfsImage.Image.Finish`, `DirOps.FileTree.Link`, `Unlink` and `Create`,
`PtSpaces.NoSharing`, `PtHardware.HardwareAgrees`, `PtProc.Kfork`, `SleepWake.NoLostWakeup`, `SleepCalls.Outcomes`,
`Returns` and `NeverStuck`, `Scheduler.Exclusive`, `InterruptsRestored` and `Returns`, `BufCache.Cache.Fill`, `Virtqueue.Disk.DeviceComplete` and `Interrupt`, `PipeFifo.Pipe.Write` and
`Read`, `MmapLayout.Process.Munmap`, `KrMalloc.Heap.Malloc` and `Free`, and `Grep.Grep`.

Where the code does not meet a property that one would state for it, the model keeps the code and proves when it does:

- `log_write()` tests the log's size before it looks for a block to absorb.  An operation that has logged fewer than
  MAXOPBLOCKS distinct blocks is safe; one that has logged MAXOPBLOCKS can panic on logging one of them again
  (`LogSpace.RoomForOp`, `LogSpace.FullLogPanics`).
- A chunk of `filewrite()` logs at most MAXOPBLOCKS blocks, which does not exclude that panic.  On a volume with one bitmap
  block, as the image mkfs makes, it logs at most 7, which does (`LogRoom.WriteNeverTooBig`).  Either way it logs every
  block it changes.
- `mkfs` rounds the root directory's size up by a whole block when it is already a multiple of the block size.  The
  image then has a hole in the root directory; otherwise it has none (`MkfsImage.Image.Finish`, `MkfsImage.FullRoot`).
- `munmap()` looks at the first overlapping mapping only and then moves mmap_base over the whole range.  Mappings stay
  above mmap_base if and only if the range holds no second one and its end lies between heap and trapframe
  (`MmapLayout.Process.Munmap`, `MmapLayout.MunmapOfTwo`).
- `mmap()` accepts negative lengths and then moves mmap_base up.  Heap and mappings stay disjoint if and only if the length
  of every accepted call is positive (`MmapLayout.Process.Mmap`, `MmapLayout.NegativeLength`).
- A fault on a page of a mapping that is there already, as a read of a write-only mapping is, runs into a panic
  (`MmapLayout.Process.Fault`, `MmapLayout.ReadAfterWrite`).
- Write-back at `munmap()` does not advance the file offset over clean pages.  It is right for all contents if and only
  if the dirty pages within the file come first (`MmapLayout.WriteBackExact`, `MmapLayout.WriteBackWrong`, `MmapLayout.WrittenToWrongPage`).
- `sys_link()` and `create()` in a directory that is unlinked but still some process's current directory count a link that
  no linked directory holds; `create()` of a directory there also keeps the removed one from ever being freed.  The counts
  stay right if and only if the directory is linked and the 16-bit count has room (`DirOps.FileTree.Link` and `Create`,
  `DirOps.LinkReached`, `DirOps.CreateReached`).
- `pipewrite()` in a process killed between two bytes returns without waking the readers.  Nobody sleeps who could go on if
  and only if that does not happen (`PipeFifo.Pipe.Write`, `PipeFifo.KilledWriter`).
- `piperead()` takes a byte out before it knows whether it can be copied, and loses it if it cannot (`PipeFifo.Pipe.Read`).
- `malloc()` passes the size of a large request to `sbrk()` as an int.  The heap is made of memory that is there if and only
  if less than 2 GiB is asked for at a time, or `sbrk()` refuses (`KrMalloc.Heap.Malloc`, `KrMalloc.HugeRequest`).
- `create()` panics if and only if the name leads to a free inode, as the ".." of a removed directory can, but no name in
  a linked one (`DirOps.FileTree.Create`, `DirOps.FoundLinked`, `DirOps.CreatePanics`).
- `brelse()` and `bunpin()` do not look at the contents.  The newest contents stay where `bread()` finds them if and only if
  the buffer is pinned, held or as on disk (`BufCache.Cache.Brelse` and `Bunpin`, `BufCache.Unwritten`).
- `grep` stops reading at the first line that does not fit its buffer.  It prints the matching lines before that line
  (`Grep.Grep`).

## Model

| member | source | states |
|---|---|---|
| `LogCrash.CrashAtomic` | xv6-labs-2025/kernel/log.c:67-204 | For every run of commits and restarts, each cut off at any block write, the disk stands for exactly the transactions whose header write reached it, all of each and none of the others; after a restart that ran to its end the home blocks hold them |
| `LogCrash.CommitCrash` | xv6-labs-2025/kernel/log.c:195-204 | A crash after any k writes of commit() leaves the old home blocks if the header write is not among them and all the new ones if it is |
| `LogCrash.CommitBefore` | xv6-labs-2025/kernel/log.c:180-204 | Up to the header write the disk still means the old contents |
| `LogCrash.CommittedMeans` | xv6-labs-2025/kernel/log.c:104-115 | The header write is the commit point: right after it, with no home block touched, the disk means the new contents |
| `LogCrash.CommitAfter` | xv6-labs-2025/kernel/log.c:195-204 | What commit() writes after its commit point, cut anywhere, is what recovery would write cut at the same place |
| `LogCrash.RecoveryCrash` | xv6-labs-2025/kernel/log.c:118-124 | Recovery cut off after any number of its writes changes nothing of what the disk means, so it may be repeated any number of times |
| `LogCrash.RecoveryPart` | xv6-labs-2025/kernel/log.c:67-84 | After any number of blocks have been installed the disk still means what it meant |
| `LogCrash.RecoveryDone` | xv6-labs-2025/kernel/log.c:118-124 | After recovery the header is empty and the home blocks hold the meaning the disk had before |
| `LogCrash.HeaderRoundTrip` | xv6-labs-2025/kernel/log.c:88-115 | read_head() of what write_head() wrote gives back the same block list |
| `LogCrash.AppliedAt` | xv6-labs-2025/kernel/log.c:216-236 | Absorption is sound: of several log_write()s to a block the last one decides |
| `LogCrash.InstalledIsApplied` | xv6-labs-2025/kernel/log.c:67-84 | Installing each logged block once equals making every update of the transaction in order |
| `LogCrash.Log.Boot` | xv6-labs-2025/kernel/log.c:53-63 | A machine after a crash has its disk and nothing else |
| `LogCrash.Log.Bread` | xv6-labs-2025/kernel/bio.c:93-103 | A reader gets the cached contents if there are any and the disk block otherwise |
| `LogCrash.Log.Bwrite` | xv6-labs-2025/kernel/bio.c:107-112 | One block write, appended to the history that CrashAtomic cuts |
| `LogCrash.Log.Evict` | xv6-labs-2025/kernel/bio.c:59-89 | The cache may drop any block the transaction has not pinned without a reader noticing |
| `LogCrash.Log.LogWrite` | xv6-labs-2025/kernel/log.c:216-236 | Readers see the new contents at once; the transaction gets exactly one more update, and the disk none |
| `LogCrash.CoherentMore` | xv6-labs-2025/kernel/log.c:216-236 | After log_write() every cached block is either as on disk or pinned with the transaction's latest contents |
| `LogCrash.Log.WriteLog` | xv6-labs-2025/kernel/log.c:180-192 | Writes the cached block of every log entry to its slot, in order |
| `LogCrash.Log.LogOne` | xv6-labs-2025/kernel/log.c:184-190 | One cached block goes to one slot; nothing else on disk changes and the other cached blocks stay equal to their disk copies |
| `LogCrash.Log.WriteHead` | xv6-labs-2025/kernel/log.c:104-115 | One write that makes the header read back as the block list and keeps the rest of the header block |
| `LogCrash.Log.InstallTrans` | xv6-labs-2025/kernel/log.c:67-84 | Writes every slot to its home block, in order, and leaves the header |
| `LogCrash.Log.InstallOne` | xv6-labs-2025/kernel/log.c:71-83 | One slot goes to its home block, which from then on is cached as it is on disk |
| `LogCrash.Log.ReadHead` | xv6-labs-2025/kernel/log.c:88-98 | Loads the block list that is on disk |
| `LogCrash.Log.RecoverFromLog` | xv6-labs-2025/kernel/log.c:118-124 | Makes exactly the writes of the recovery sequence; the home blocks then hold what the disk meant |
| `LogCrash.Log.CommitBlocks` | xv6-labs-2025/kernel/log.c:195-204 | Log writes, header, home writes, empty header, in that order and nothing else; afterwards the log is empty |
| `LogCrash.Log.Commit` | xv6-labs-2025/kernel/log.c:195-204 | The disk writes are exactly the sequence CommitCrash is about; the pending updates are durable and no reader sees a change |
| `LogSpace.StepInv` | xv6-labs-2025/kernel/log.c:128-236 | Every critical section of every operation keeps: the log holds each block once, all blocks of every active operation, and room for what the active operations may still log |
| `LogSpace.RunInv` | xv6-labs-2025/kernel/log.c:128-236 | That invariant holds in every run of any number of operations |
| `LogSpace.RoomForOp` | xv6-labs-2025/kernel/log.c:216-222 | The "too big a transaction" panic cannot hit an operation that has logged fewer than MAXOPBLOCKS blocks, whatever the others did |
| `LogSpace.NeverTooBig` | xv6-labs-2025/kernel/log.c:216-222 | The same of every state that a run from an empty log leads to |
| `LogSpace.FullLogPanics` | xv6-labs-2025/kernel/log.c:216-236 | The bound is exact: a run in which three operations log MAXOPBLOCKS blocks each, after which logging any of these blocks again fails the size test although it would have been absorbed |
| `LogSpace.IdleBegins` | xv6-labs-2025/kernel/log.c:128-143 | begin_op() never waits on a log nobody uses |
| `LogSpace.GroupLog.constructor` | xv6-labs-2025/kernel/log.c:53-63 | An empty idle log |
| `LogSpace.GroupLog.BeginOp` | xv6-labs-2025/kernel/log.c:128-143 | Starts exactly if no commit runs and the log has room for MAXOPBLOCKS blocks of each active operation and of this one, and otherwise changes nothing |
| `LogSpace.GroupLog.LogWrite` | xv6-labs-2025/kernel/log.c:216-236 | Panics exactly if the log is full, although it may hold the block already; never while the operation has logged fewer than MAXOPBLOCKS blocks; otherwise the block is in the list exactly once, and the invariant is kept as long as the operation stays within MAXOPBLOCKS |
| `LogSpace.GroupLog.EndOp` | xv6-labs-2025/kernel/log.c:148-165 | The last operation out commits, and none ever ends during a commit |
| `LogSpace.GroupLog.FinishCommit` | xv6-labs-2025/kernel/log.c:167-175 | After the commit the log is empty and operations may begin |
| `LogRoom.ChunkFits` | xv6-labs-2025/kernel/log.c:216-222 | In every reachable state an operation that has logged part of a chunk of at most 7 blocks passes the size test |
| `LogRoom.WriteNeverTooBig` | xv6-labs-2025/kernel/file.c:148-173 | On a volume with one bitmap block filewrite() writes its bytes by a chain of transactions that leads from the old volume to the new one; each passes every block it changes, and the inode block, to log_write(), and no such call in any of them can run into "too big a transaction", whatever other operations share the log |
| `FsVolume.BitmapExact` | xv6-labs-2025/kernel/fs.c:67-106 | On a consistent volume a data block is marked in the bitmap if and only if a direct address, indirect address or table entry of some inode names it, and no two do |
| `FsVolume.AllocatedOwns` | xv6-labs-2025/kernel/fs.c:67-89 | A block that balloc() hands out is a data block nobody names |
| `FsVolume.LinkAddr` | xv6-labs-2025/kernel/fs.c:406-429 | Storing a new block in an inode address keeps the volume consistent and changes that slot only; a new indirect block starts empty |
| `FsVolume.LinkEntry` | xv6-labs-2025/kernel/fs.c:422-441 | The same for an entry of the indirect table |
| `FsVolume.FreeAddr` | xv6-labs-2025/kernel/fs.c:455-460 | Freeing a direct block frees a marked block of this inode and keeps everything else |
| `FsVolume.FreeEntry` | xv6-labs-2025/kernel/fs.c:462-468 | Freeing the table entries one by one: the block freed was marked and this entry's, and entries not yet visited still count |
| `FsVolume.FreeIndirect` | xv6-labs-2025/kernel/fs.c:462-472 | Freeing the table after its entries restores full consistency |
| `FsContent.GiveAddr` | xv6-labs-2025/kernel/fs.c:406-429 | Allocating into an inode address extends the volume: all files keep their bytes |
| `FsContent.GiveEntry` | xv6-labs-2025/kernel/fs.c:422-441 | Allocating into the indirect table extends the volume: all files keep their bytes |
| `FsContent.KeptContent` | xv6-labs-2025/kernel/fs.c:449-476 | A file whose blocks are kept keeps its contents |
| `FsContent.WriteBlock` | xv6-labs-2025/kernel/fs.c:529-562 | Overwriting one file block touches no other block of any file |
| `FsContent.WrittenMore` | xv6-labs-2025/kernel/fs.c:539-551 | One turn of writei()'s loop extends the written prefix by the piece that fits the block |
| `FsContent.WriteDone` | xv6-labs-2025/kernel/fs.c:529-562 | At the end the file is the old one with the data spliced in at the offset, and every other file is as before |
| `FsFiles.FileSystem.Balloc` | xv6-labs-2025/kernel/fs.c:67-89 | The lowest unmarked block, marked and zeroed; 0 exactly when every block is marked |
| `FsFiles.FileSystem.Take` | xv6-labs-2025/kernel/fs.c:78-81 | Exactly this block is marked and zeroed, and it and its bitmap block are logged |
| `FsFiles.FileSystem.Bfree` | xv6-labs-2025/kernel/fs.c:93-106 | Clears this block's bit and no other |
| `FsFiles.FileSystem.FillAddr` | xv6-labs-2025/kernel/fs.c:411-429 | An empty address gets a new block, or the disk is full and nothing changes |
| `FsFiles.FileSystem.FillEntry` | xv6-labs-2025/kernel/fs.c:430-438 | An empty table entry gets a new block, or the disk is full and nothing changes |
| `FsFiles.FileSystem.Bmap` | xv6-labs-2025/kernel/fs.c:406-444 | Returns the block of the file block, allocating at most it and the indirect block; nothing changes if it was there; 0 only on a full disk; every block that changes is logged, and at most these are |
| `FsFiles.FileSystem.Iupdate` | xv6-labs-2025/kernel/fs.c:227-242 | The inode table entry becomes the in-memory inode |
| `FsFiles.FileSystem.constructor` | xv6-labs-2025/kernel/fs.c:41-48 | A volume without holes, with nothing logged yet |
| `FsFiles.FileSystem.WriteStep` | xv6-labs-2025/kernel/fs.c:539-551 | One turn of the loop writes the rest of the block or of the data, logs every block it changes, and accounts for every block it logs |
| `FsFiles.FileSystem.MapCharged` | xv6-labs-2025/kernel/fs.c:540-542 | bmap() for a block to be written: every block it changes is logged, and every block it logs is in the account |
| `FsFiles.FileSystem.WriteLoop` | xv6-labs-2025/kernel/fs.c:539-551 | Exactly a prefix of the data is written; it is shorter only if the source bytes run out or the disk is full; every block that changes is logged |
| `FsFiles.FileSystem.FinishWrite` | xv6-labs-2025/kernel/fs.c:553-559 | The size grows if it must and the inode is written back |
| `FsFiles.FileSystem.WriteAll` | xv6-labs-2025/kernel/fs.c:529-562 | writei() past its range tests: contents, consistency, that every block that changes and the inode block are logged, and how many are |
| `FsFiles.FileSystem.Writei` | xv6-labs-2025/kernel/fs.c:529-562 | -1 exactly for an offset past the end or a range past MAXFILE, and then nothing changes; otherwise the file is the old one with the returned number of bytes spliced in and all others are untouched; every block that changes and the inode block are logged; a chunk of three blocks logs at most MAXOPBLOCKS blocks, and at most 7 on a volume with one bitmap block |
| `FsFiles.FileSystem.ReadPiece` | xv6-labs-2025/kernel/fs.c:504-517 | The bytes of one block of the file, with nothing allocated |
| `FsFiles.FileSystem.Readi` | xv6-labs-2025/kernel/fs.c:495-519 | Returns exactly the slice of the contents that the offset, length, file size and 32-bit overflow leave, or -1 exactly if the destination cannot take that many bytes; changes nothing |
| `FsFiles.FileSystem.FreeDirect` | xv6-labs-2025/kernel/fs.c:455-460 | All direct blocks are free, every other file is as before, and the bitmap blocks that change are logged |
| `FsFiles.FileSystem.FreeTable` | xv6-labs-2025/kernel/fs.c:462-472 | The table and every block in it are free, every other file is as before, and the bitmap blocks that change are logged |
| `FsFiles.FileSystem.Itrunc` | xv6-labs-2025/kernel/fs.c:449-476 | The file is empty, every block it owned is free again, every other file is as before, and every block that changes and the inode block are logged |
| `FsFiles.FileSystem.Filewrite` | xv6-labs-2025/kernel/file.c:148-173 | Chunks written one transaction each amount to one write of the bytes reported by the offset; the result is the length exactly if all were written and -1 otherwise, which happens only for want of source bytes or disk space or a range writei() refuses; the transactions lead from the old volume to the new one, each logs every block it changes and the inode block, and at most MAXOPBLOCKS blocks, or 7 with one bitmap block |
| `FsFiles.OneTxn` | xv6-labs-2025/kernel/file.c:160-165 | A chunk that logs what it changes extends the chain of transactions |
| `FsFiles.InodeInBlock` | xv6-labs-2025/kernel/fs.h:39-45 | The bytes of an inode lie in the block that is logged for it |
| `FsFiles.TurnBound` | xv6-labs-2025/kernel/file.c:148-156 | A chunk of at most three blocks takes at most four turns of writei()'s loop, of which at most three allocate |
| `FsFiles.AccountBound` | xv6-labs-2025/kernel/file.c:148-156 | Data, bitmap, indirect and inode blocks together bound what a chunk logs |
| `FsFiles.Emptied` | xv6-labs-2025/kernel/fs.c:449-476 | A file without blocks and with size 0 leaves a well-formed volume in which its old blocks are unmarked |
| `FsFiles.ChangedTwice` | xv6-labs-2025/kernel/file.c:148-173 | Two writes one after the other are one write of the joined data |
| `MkfsImage.FirstBitsAre` | xv6-labs-2025/mkfs/mkfs.c:237-250 | Setting the bits one by one marks exactly the blocks below the bound |
| `MkfsImage.NextBlock` | xv6-labs-2025/mkfs/mkfs.c:255-285 | Taking the next block by incrementing freeblock is, under the bitmap written at the end, the allocation the kernel's balloc() makes |
| `MkfsImage.Grown` | xv6-labs-2025/mkfs/mkfs.c:255-296 | An append is a write at the end that leaves no block past the end of the file |
| `MkfsImage.RoundedRoot` | xv6-labs-2025/mkfs/mkfs.c:165-170 | Rounding up the root directory's size keeps block ownership right, and leaves no hole in the directory if and only if its size was not a multiple of the block size |
| `MkfsImage.Image.constructor` | xv6-labs-2025/mkfs/mkfs.c:93-118 | An all-zero image with empty inodes is a well-formed volume |
| `MkfsImage.Image.TakeAddr` | xv6-labs-2025/mkfs/mkfs.c:270-278 | The address gets the next block unless the image is full; no other slot changes |
| `MkfsImage.Image.TakeEntry` | xv6-labs-2025/mkfs/mkfs.c:279-283 | The table entry gets the next block unless the image is full; no other slot changes |
| `MkfsImage.Image.MapBlock` | xv6-labs-2025/mkfs/mkfs.c:268-285 | The block of the file block, as the kernel's bmap() will find it |
| `MkfsImage.Image.AppendPiece` | xv6-labs-2025/mkfs/mkfs.c:267-293 | One turn appends the piece that fits the block |
| `MkfsImage.Image.Append` | xv6-labs-2025/mkfs/mkfs.c:255-296 | The file grows by exactly the data and every other file is as it was; at most two blocks are taken for each file block the data reaches into, so it fails only for want of these |
| `MkfsImage.Image.FillMap` | xv6-labs-2025/mkfs/mkfs.c:237-250 | The bitmap block has the bits that FirstBitsAre describes |
| `MkfsImage.Image.Finish` | xv6-labs-2025/mkfs/mkfs.c:165-172 | The finished image is a consistent volume for the kernel that differs from the image so far in the bitmap and the root directory's size; it satisfies the no-hole invariant of readi() and writei() if and only if the root directory did not end at a block boundary |
| `MkfsImage.FullRoot` | xv6-labs-2025/mkfs/mkfs.c:117-172 | In the layout mkfs uses, any root directory of exactly 64 entries leads to an image with a hole |
| `MkfsImage.Made` | xv6-labs-2025/mkfs/mkfs.c:93-172 | In that layout an image with a root directory of less than a block and any one file has no hole, and the file is what was appended |
| `MkfsImage.MountedAndExtended` | xv6-labs-2025/kernel/fs.c:529-562 | The kernel mounts that image, writei() extends the file and readi() returns what mkfs put there followed by what was written |
| `PtLayout.EntryRoundTrip` | xv6-labs-2025/kernel/riscv.h:352-371 | Address and flags of a page-table entry are recovered from it |
| `PtLayout.IndexRoundTrip` | xv6-labs-2025/kernel/riscv.h:373-381 | Pages below MAXVA and index triples correspond |
| `PtLayout.PageOfRoundTrip` | xv6-labs-2025/kernel/riscv.h:373-381 | Index triples and pages correspond, the other way |
| `PtHardware.HardwareAgrees` | xv6-labs-2025/kernel/riscv.h:358-381 | The processor's own table walk, as the standard defines it, takes every address to the frame and permissions that the kernel means, and to a page fault exactly where nothing is mapped or the entry is writable and not readable |
| `PtLayout.FlatOther` | xv6-labs-2025/kernel/vm.c:101-118 | Writing an entry leaves alone the translation of every page, in every address space, whose walk does not read it |
| `PtLayout.OneParent` | xv6-labs-2025/kernel/vm.c:101-118 | Page tables form trees: only one entry leads to a table |
| `PtLayout.LeafOnce` | xv6-labs-2025/kernel/vm.c:101-118 | Different leaf entries stand for different pages |
| `PtLayout.LinkTable` | xv6-labs-2025/kernel/vm.c:111-114 | Hanging a zeroed page into an empty entry changes no translation |
| `PtLayout.LinkPage` | xv6-labs-2025/kernel/vm.c:166-170 | Filling an empty leaf changes the translation of its page only, and makes the frame that page's own |
| `PtLayout.WritePage` | xv6-labs-2025/kernel/vm.c:300-327 | Writing a page that is no page table changes no translation |
| `PtLayout.Detach` | xv6-labs-2025/kernel/vm.c:209-213 | The frame behind a user leaf belongs to that page alone, so it may be freed |
| `PtLayout.ClearEntry` | xv6-labs-2025/kernel/vm.c:209-213 | Clearing an entry nothing uses changes the translation of its page only |
| `PtLayout.DropTable` | xv6-labs-2025/kernel/vm.c:266-281 | A table without valid entries may be freed once its parent's entry is cleared |
| `PtMemory.PopFree` | xv6-labs-2025/kernel/kalloc.c:69-82 | What is left after kalloc() is a free list of distinct free pages |
| `PtMemory.PushFree` | xv6-labs-2025/kernel/kalloc.c:47-63 | After kfree() the list again holds exactly the free pages, once each |
| `PtMemory.LeafDecides` | xv6-labs-2025/kernel/vm.c:101-118 | The entry walk() returns is the translation of its page |
| `PtMemory.PhysMem.constructor` | xv6-labs-2025/kernel/kalloc.c:26-31 | Memory before kinit(): every page is held by nobody's free list |
| `PtMemory.PhysMem.Freerange` | xv6-labs-2025/kernel/kalloc.c:34-40 | Every whole page of the range is free, and no other page changes use |
| `PtMemory.PhysMem.Kalloc` | xv6-labs-2025/kernel/kalloc.c:69-82 | Returns a page that was free and is now held; 0 exactly when there is none; no translation changes |
| `PtMemory.PhysMem.Kfree` | xv6-labs-2025/kernel/kalloc.c:47-63 | The held page is free and first on the list; no translation changes |
| `PtMemory.PhysMem.Fill` | xv6-labs-2025/kernel/vm.c:235-235 | Writing a held page changes no translation |
| `PtMemory.PhysMem.AllocFilled` | xv6-labs-2025/kernel/vm.c:230-235 | A held page with the given contents, or no change, exactly when the free list is empty |
| `PtMemory.PhysMem.AddTable` | xv6-labs-2025/kernel/vm.c:111-114 | A new table takes one page and changes no translation; it fails only when there is none |
| `PtMemory.PhysMem.Walk` | xv6-labs-2025/kernel/vm.c:101-118 | Finds the last-level entry of the page; with alloc it takes exactly the tables that are missing and fails exactly when there are fewer free pages, without it it fails only when the page is unmapped and changes nothing |
| `PtMemory.PhysMem.MapPage` | xv6-labs-2025/kernel/vm.c:165-175 | Maps one page, or leaves all translations as they were, exactly when there are fewer free pages than missing tables |
| `PtMemory.PhysMem.Mappages` | xv6-labs-2025/kernel/vm.c:149-177 | Maps exactly its range, or on failure exactly a proper prefix; every other translation is kept and the only pages taken are tables; one page fails exactly when there are fewer free pages than missing tables, and any range only with fewer than two free pages for each |
| `PtMemory.NoneMissing` | xv6-labs-2025/kernel/vm.c:101-118 | A mapped page lacks no table, nor do its neighbours in the same table |
| `PtMemory.PhysMem.ReleaseLeaf` | xv6-labs-2025/kernel/vm.c:205-213 | The page behind the leaf is free again and its translation gone |
| `PtMemory.PhysMem.UnmapPage` | xv6-labs-2025/kernel/vm.c:204-214 | One page is unmapped if it was mapped; every other translation is kept |
| `PtSpaces.UserBehind` | xv6-labs-2025/kernel/vm.c:196-327 | The frame behind a mapped user page belongs to exactly that page |
| `PtSpaces.NoSharing` | xv6-labs-2025/kernel/vm.c:196-327 | No frame is mapped at two user pages, in one address space or in two, and no mapped frame is free or a page table |
| `PtSpaces.AddPage` | xv6-labs-2025/kernel/vm.c:228-241 | One fresh page with the wanted contents, or every page given back but those of page tables, exactly when there are not enough free pages for it and the tables it lacks |
| `PtSpaces.Undo` | xv6-labs-2025/kernel/vm.c:220-261 | Unmapping what was added restores every translation and every page but those of page tables |
| `PtSpaces.Uvmunmap` | xv6-labs-2025/kernel/vm.c:196-215 | Removes exactly the translations of its range and frees exactly the pages behind them |
| `PtSpaces.Uvmalloc` | xv6-labs-2025/kernel/vm.c:220-243 | Maps fresh zeroed pages for exactly the pages between the two sizes, or changes no translation and keeps no page but those of page tables; that takes between one and three pages for each, and it fails only with fewer than three for each |
| `PtSpaces.Uvmdealloc` | xv6-labs-2025/kernel/vm.c:250-261 | Unmaps and frees exactly the pages wholly above the new size |
| `PtSpaces.Uvmcopy` | xv6-labs-2025/kernel/vm.c:300-327 | Every mapped page below the size has a copy in a fresh frame with the same flags and contents, or nothing is kept but page-table pages; that takes between one and three pages for each mapped one, and it fails only with fewer than three for each |
| `PtSpaces.CopyPage` | xv6-labs-2025/kernel/vm.c:307-321 | One page, if mapped, gets its copy; nothing but page tables is added exactly when there are not enough free pages for the copy and the tables it lacks |
| `PtSpaces.UndoCopy` | xv6-labs-2025/kernel/vm.c:324-326 | The error path gives every copy back |
| `PtSpaces.NothingMapped` | xv6-labs-2025/kernel/vm.c:266-281 | An address space without translations has no leaf entries, so freewalk() does not panic |
| `PtSpaces.FreeEntry` | xv6-labs-2025/kernel/vm.c:268-279 | One entry of freewalk()'s loop: its whole subtree of tables is free |
| `PtSpaces.Freewalk` | xv6-labs-2025/kernel/vm.c:266-281 | Frees every table of the subtree once, and no other page |
| `PtProc.AddRemove` | xv6-labs-2025/kernel/vm.c:286-291 | What an address space took is what freeing it gives back: every page has the use it had before |
| `PtProc.MakeRoot` | xv6-labs-2025/kernel/vm.c:182-190 | A blank page is an address space without translations |
| `PtProc.Uvmcreate` | xv6-labs-2025/kernel/vm.c:182-190 | An empty address space, or no change, exactly when the free list is empty |
| `PtProc.Uvmfree` | xv6-labs-2025/kernel/vm.c:286-291 | Frees every page of the address space and no other; other address spaces keep their translations |
| `PtProc.MapFixed` | xv6-labs-2025/kernel/proc.c:193-206 | One fixed page is mapped, or not, exactly when there are fewer free pages than missing tables; only table pages are taken |
| `PtProc.DropEmpty` | xv6-labs-2025/kernel/proc.c:193-206 | The failure paths give back every page the new table took |
| `PtProc.ProcPagetable` | xv6-labs-2025/kernel/proc.c:180-209 | A table with the trampoline and the trapframe mapped and no user memory, or 0 with every page as before; it takes three pages and fails exactly when there are fewer |
| `PtProc.TrampolineTables` | xv6-labs-2025/kernel/proc.c:193-206 | With the trampoline mapped the trapframe lacks no table, so its mapping cannot fail |
| `PtProc.ProcFreepagetable` | xv6-labs-2025/kernel/proc.c:214-219 | Frees every page of the address space and no other |
| `PtProc.Freeproc` | xv6-labs-2025/kernel/proc.c:159-175 | The slot is empty, and exactly its trapframe and its address space are freed |
| `PtProc.ProcReturned` | xv6-labs-2025/kernel/proc.c:110-175 | allocproc() followed by freeproc() leaves every page with the use it had |
| `PtProc.Allocproc` | xv6-labs-2025/kernel/proc.c:128-141 | A trapframe and an empty address space, or every page as before, exactly when there are fewer than four free pages |
| `PtProc.CopiedFrom` | xv6-labs-2025/kernel/proc.c:274-279 | The child's copy is of the parent's pages as they were before the fork |
| `PtProc.Kfork` | xv6-labs-2025/kernel/proc.c:263-280 | The child has its own copy of the parent's memory, page by page, and every other address space is untouched; or the fork fails and every page and translation is as before, which happens only with fewer than four free pages and three for each mapped one |
| `SleepWake.NoLostWakeup` | xv6-labs-2025/kernel/proc.c:569-613 | In every run of any number of processes: a sleep-lock has one holder at most; a process sleeps on it only while it is held or its releaser has still to look at that process; and no parent sleeps in kwait() with a zombie child while wait_lock is free |
| `SleepWake.StepInv` | xv6-labs-2025/kernel/proc.c:323-613 | Every step of every process keeps the invariant behind that |
| `SleepWake.RunInv` | xv6-labs-2025/kernel/proc.c:323-613 | The invariant holds along every run |
| `SleepWake.BootInv` | xv6-labs-2025/kernel/proc.c:223-235 | It holds when only init exists |
| `SleepWake.OneHolder` | xv6-labs-2025/kernel/spinlock.c:22-43 | No spin-lock has two holders |
| `SleepWake.GoSlB` | xv6-labs-2025/kernel/proc.c:569-581 | Giving up the condition lock inside sleep() loses no wakeup, because the process's own lock is held |
| `SleepWake.GoWkL` | xv6-labs-2025/kernel/proc.c:600-613 | wakeup() wakes a sleeper on its channel and nobody else |
| `SleepWake.GoAsTest` | xv6-labs-2025/kernel/sleeplock.c:22-31 | Testing locked in acquiresleep() makes the process the one holder, or takes it into sleep() while the lock is held; it is back only with the lock |
| `SleepWake.GoRsSet` | xv6-labs-2025/kernel/sleeplock.c:34-41 | Resetting locked in releasesleep() leaves every sleeper still to be looked at by the wakeup() that follows |
| `SleepWake.GoReparent` | xv6-labs-2025/kernel/proc.c:323-333 | Handing a child to init wakes init before a zombie could be missed |
| `SleepWake.GoKeZ` | xv6-labs-2025/kernel/proc.c:379-391 | A process becomes a zombie only when its parent is not asleep in kwait() nor between looking and sleeping |
| `SleepWake.GoKw` | xv6-labs-2025/kernel/proc.c:397-441 | kwait()'s scan misses no zombie child |
| `SleepWake.ReapedIsDead` | xv6-labs-2025/kernel/proc.c:408-424 | A zombie that kwait() finds has left its kernel stack for good |
| `SleepWake.GoReap` | xv6-labs-2025/kernel/proc.c:411-426 | Freeing it keeps the invariant |
| `SleepCalls.Outcomes` | xv6-labs-2025/kernel/sleeplock.c:22-41 | In every run: a process that last asked for a sleep-lock and is back holds it, and no other process does; one that gave it up does not hold it; one that called kexit() is never back; no zombie and no free slot is anybody's parent; and a parent asleep in kwait() has a child |
| `SleepCalls.Returns` | xv6-labs-2025/kernel/proc.c:263-441 | In every run, when a routine returns: acquiresleep() has the lock; kwait() has freed exactly one zombie child, or there is no child, or a copy failed or the caller was killed; kfork() has made a runnable child of the caller, or has freed the slot after a failure; kkill() leaves no sleeper |
| `SleepCalls.StateMoves` | xv6-labs-2025/kernel/proc.c:323-637 | A process changes its state exactly by its own yield(), sleep() or kexit(), when it is switched to, by a wakeup() on its channel or kkill(), by kfork() of a free slot, and by its parent's kwait() once it has left its stack |
| `SleepCalls.FamStep` | xv6-labs-2025/kernel/proc.c:263-441 | Every step keeps parents in order: reparent() has given away the children of the slots it has passed, kwait() knows whether there are children among them, and kfork() makes a child of its caller |
| `SleepCalls.CallStep` | xv6-labs-2025/kernel/proc.c:323-613 | Every step keeps each process where its last call leads |
| `SleepCalls.NeverStuck` | xv6-labs-2025/kernel/proc.c:323-637 | In every run, while some process is in the middle of a routine and not asleep, some process can take its next step: spin-locks do not deadlock |
| `SleepCalls.MayCall` | xv6-labs-2025/kernel/proc.c:323-637 | With no spin-lock held a process may call each routine whose demands on its caller are met |
| `Scheduler.Exclusive` | xv6-labs-2025/kernel/proc.c:451-516 | In every run on any number of CPUs: a process is current on one CPU at most; registers are loaded only after they were saved completely; each switch happens with exactly the process's lock held and interrupts off; none of sched()'s panics happens; and interrupts are on only while no spin-lock is held |
| `Scheduler.InterruptsRestored` | xv6-labs-2025/kernel/proc.c:499-540 | A thread that has given up a CPU and got one back, whichever one, has interrupts as they were when it gave the CPU up; a thread that runs for the first time, through forkret(), has them as the CPU's own intena says |
| `Scheduler.StatesFit` | xv6-labs-2025/kernel/proc.c:451-595 | In every run: a process is SLEEPING only inside sleep() and a ZOMBIE only after kexit(); one that called yield() is RUNNABLE or RUNNING; one that called kexit() never gets out of it |
| `Scheduler.StateMoves` | xv6-labs-2025/kernel/proc.c:451-613 | The state of a process changes exactly when the scheduler picks it, in its own yield(), sleep() and kexit(), and by another's wakeup(), kfork() or kwait(), and to what each of these says |
| `Scheduler.Returns` | xv6-labs-2025/kernel/proc.c:499-595 | In every run: sleep() returns with exactly the condition lock held, yield() and a first run with none, and kexit() does not return |
| `Scheduler.NeverStuck` | xv6-labs-2025/kernel/proc.c:451-595 | In every run each CPU can take its next step, runs other kernel code, or waits for a lock of another CPU, which can go on if it is the lock of a process |
| `Scheduler.PicksFirst` | xv6-labs-2025/kernel/proc.c:451-489 | In any state of any run, a CPU at the top of its loop that goes on while nobody holds the lock of a process comes to the thread of the first RUNNABLE process |
| `Scheduler.StepInv` | xv6-labs-2025/kernel/proc.c:451-595 | Every step of every CPU keeps the invariant behind that |
| `Scheduler.RunInv` | xv6-labs-2025/kernel/proc.c:451-595 | The invariant holds along every run |
| `Scheduler.Counted` | xv6-labs-2025/kernel/spinlock.c:89-113 | The nesting depth is the number of spin-locks the CPU holds |
| `Scheduler.LockedOut` | xv6-labs-2025/kernel/proc.c:451-489 | Nobody else is switching a process whose lock a CPU holds |
| `Scheduler.LeavingLocked` | xv6-labs-2025/kernel/proc.c:499-516 | A process that is leaving its CPU still has its lock held by that CPU |
| `Scheduler.IdleInv` | xv6-labs-2025/kernel/proc.c:456-466 | Turning interrupts on and off at the top of the loop keeps the invariant |
| `Scheduler.SwitchInv` | xv6-labs-2025/kernel/proc.c:475-479 | Saving the scheduler's registers, and loading them again, keeps the invariant |
| `Scheduler.GotInv` | xv6-labs-2025/kernel/proc.c:467-475 | Choosing a process keeps the invariant |
| `Scheduler.LoadInv` | xv6-labs-2025/kernel/proc.c:473-482 | Loading its registers, and going on after it, keeps the invariant |
| `Scheduler.ThreadInv` | xv6-labs-2025/kernel/proc.c:499-527 | A thread's way into and through sched() keeps the invariant: yield() leaves it RUNNABLE, sleep() SLEEPING, kexit() a ZOMBIE |
| `Scheduler.ResumeInv` | xv6-labs-2025/kernel/proc.c:513-539 | Coming back from sched() with the thread's intena, or starting in forkret() with the CPU's, keeps the invariant |
| `Scheduler.LeaveInv` | xv6-labs-2025/kernel/proc.c:520-595 | yield(), sleep() and kexit() up to sched() keep the invariant |
| `Scheduler.HelpInv` | xv6-labs-2025/kernel/proc.c:600-613 | wakeup(), kfork() and kwait() may change another process's state under its lock |
| `DirLinks.LinksUpdate` | xv6-labs-2025/kernel/sysfile.c:124-302 | Replacing an inode changes the number of links to each other inode by what it gives |
| `DirLinks.LinkGood` | xv6-labs-2025/kernel/sysfile.c:124-170 | A successful sys_link() keeps every inode's link count equal to the number of names it has in linked directories |
| `DirLinks.LinkIntoUnlinked` | xv6-labs-2025/kernel/sysfile.c:124-170 | In a directory that has itself been unlinked the same step breaks the count, for every such file system and whether or not the directory is freed next |
| `DirLinks.WrappedCount` | xv6-labs-2025/kernel/sysfile.c:147-149 | A count that wraps around its 16 bits is wrong |
| `DirLinks.UnlinkFileGood` | xv6-labs-2025/kernel/sysfile.c:189-243 | Removing a name of a file keeps the counts, and the count was at least 1 |
| `DirLinks.EmptyDirOneLink` | xv6-labs-2025/kernel/sysfile.c:174-243 | An empty directory has one link, its name, so unlinking it drops it to 0 |
| `DirLinks.ParentStays` | xv6-labs-2025/kernel/sysfile.c:189-243 | Its parent had a link besides the one from ".." that goes away |
| `DirLinks.UnlinkDirGood` | xv6-labs-2025/kernel/sysfile.c:189-243 | Removing an empty directory keeps the counts |
| `DirLinks.FreeGood` | xv6-labs-2025/kernel/fs.c:338-363 | Freeing an inode with link count 0 leaves no name dangling |
| `DirLinks.CreateFileGood` | xv6-labs-2025/kernel/sysfile.c:246-302 | Creating a file or device keeps the counts |
| `DirLinks.CreateDirGood` | xv6-labs-2025/kernel/sysfile.c:246-302 | Creating a directory with its two dot entries keeps the counts |
| `DirLinks.CreateFileIntoUnlinked` | xv6-labs-2025/kernel/sysfile.c:246-302 | Creating a file or device in an unlinked directory breaks the count, for every such file system |
| `DirLinks.CreateDirIntoUnlinked` | xv6-labs-2025/kernel/sysfile.c:276-289 | Creating a directory in an unlinked directory gives that one a link again though no entry leads to it, so it is never freed |
| `DirLinks.NamedLinked` | xv6-labs-2025/kernel/sysfile.c:189-243 | Whatever a name in a linked directory leads to is in use and has link count at least 1, so unlink()'s panic does not happen |
| `DirLinks.NameMapPut` | xv6-labs-2025/kernel/fs.c:603-629 | Writing an entry binds one more name and no other |
| `DirLinks.NameMapClear` | xv6-labs-2025/kernel/sysfile.c:222-224 | Clearing an entry unbinds one name and no other |
| `DirLinks.ShortSame` | xv6-labs-2025/kernel/fs.c:567-570 | Two names are the same to a directory if and only if their first 14 characters are, as strncmp() compares them |
| `DirOps.FileTree.constructor` | xv6-labs-2025/mkfs/mkfs.c:117-128 | A root directory with one link that is its own parent, and all other inodes free |
| `DirOps.FileTree.Dirlookup` | xv6-labs-2025/kernel/fs.c:575-598 | Finds a name if and only if the directory binds it, with names cut to 14 characters, and returns what it is bound to |
| `DirOps.FileTree.Dirlink` | xv6-labs-2025/kernel/fs.c:603-629 | Binds the name, and fails exactly if it is bound already or there is neither a hole nor room to grow |
| `DirOps.FileTree.Isdirempty` | xv6-labs-2025/kernel/sysfile.c:174-186 | True exactly if no name but the two dots is bound |
| `DirOps.FileTree.Iput` | xv6-labs-2025/kernel/fs.c:338-363 | Frees the inode exactly if nothing links to it and nobody else refers to it, and leaves no name dangling |
| `DirOps.FileTree.Ialloc` | xv6-labs-2025/kernel/fs.c:200-220 | A free inode becomes one of the given type, or every inode is in use |
| `DirOps.FileTree.Link` | xv6-labs-2025/kernel/sysfile.c:124-170 | Succeeds exactly for a file and an unbound name with room; then that name is bound and the 16-bit count one higher, and nothing else changes but what dropping a last reference frees; the counts stay right if and only if the directory is linked and the count has room |
| `DirOps.FileTree.RemoveEntry` | xv6-labs-2025/kernel/sysfile.c:222-232 | The entry and the counts after it, the parent's included |
| `DirOps.FileTree.Unlink` | xv6-labs-2025/kernel/sysfile.c:189-243 | Succeeds exactly for a bound name that is no dot name and no directory with entries; then that name is gone, the parent's count goes down exactly for a directory, and the inode is freed exactly with its last name and reference; otherwise nothing changes but what dropping a last reference frees |
| `DirOps.FileTree.LinkDots` | xv6-labs-2025/kernel/sysfile.c:276-280 | The two dot entries of a new directory |
| `DirOps.FileTree.Enter` | xv6-labs-2025/kernel/sysfile.c:273-283 | The new inode gets its count, its dot entries and its name, or only itself has changed |
| `DirOps.FileTree.Fill` | xv6-labs-2025/kernel/sysfile.c:270-302 | A new inode is filled in and named, or freed again with everything as before |
| `DirOps.FileTree.Create` | xv6-labs-2025/kernel/sysfile.c:246-302 | On an existing name the result is its inode exactly if a file is asked for and the name leads to a file or device, and none otherwise; a new name is bound to a free inode exactly if there are an inode and room, and the parent's count goes up exactly for a directory; every failure leaves everything as before; the panic in ilock() happens exactly if the name leads to a free inode; the counts stay right if and only if nothing was made in an unlinked directory and the parent's count has room |
| `DirOps.FileTree.Hold` | xv6-labs-2025/kernel/fs.c:283-289 | A reference to an inode in use |
| `DirOps.FileTree.Close` | xv6-labs-2025/kernel/fs.c:338-363 | Dropping the last reference to an unlinked inode frees it |
| `DirOps.FileTree.Ireclaim` | xv6-labs-2025/kernel/fs.c:374-393 | After boot every inode in use is linked, and linked ones are untouched |
| `DirOps.LinkedOk` | xv6-labs-2025/kernel/sysfile.c:124-170 | sys_link() keeps the counts right if and only if the directory is linked and the count does not wrap |
| `DirOps.MadeFileOk` | xv6-labs-2025/kernel/sysfile.c:246-302 | create() of a file keeps the counts right if and only if the directory is linked |
| `DirOps.MadeDirOk` | xv6-labs-2025/kernel/sysfile.c:246-302 | create() of a directory keeps the counts right if and only if the parent is linked and its count does not wrap |
| `DirOps.FoundLinked` | xv6-labs-2025/kernel/fs.c:575-598 | Every name in a linked directory, the dots included, leads to an inode in use, so ilock() does not panic |
| `DirOps.RemovedWhileHeld` | xv6-labs-2025/kernel/sysfile.c:189-243 | From a new file system create() and sys_unlink() lead to a directory that is unlinked and still some process's current directory |
| `DirOps.CreatedTwice` | xv6-labs-2025/kernel/sysfile.c:256-263 | create() of an existing file gives its inode again, and of an existing directory none |
| `DirOps.LinkReached` | xv6-labs-2025/kernel/sysfile.c:124-170 | From there sys_link() leads to wrong counts |
| `DirOps.CreateReached` | xv6-labs-2025/kernel/sysfile.c:246-302 | From there create() of a file, and of a directory, leads to wrong counts |
| `DirOps.RemovedTwice` | xv6-labs-2025/kernel/sysfile.c:189-243 | A directory and its parent are removed while the first is held: its ".." leads to a free inode |
| `DirOps.CreatePanics` | xv6-labs-2025/kernel/sysfile.c:246-302 | There create() of ".." panics |
| `Virtqueue.SlotWraps` | xv6-labs-2025/kernel/virtio_disk.c:271-277 | Ring slots are right across the 16-bit wrap of the indices |
| `Virtqueue.EmptyIsSeen` | xv6-labs-2025/kernel/virtio_disk.c:312-324 | Comparing 16-bit indices tells an empty ring from a full one |
| `Virtqueue.RoomLeft` | xv6-labs-2025/kernel/virtio_disk.c:216-292 | The ring never fills while some descriptor heads no request in it |
| `Virtqueue.RingPut` | xv6-labs-2025/kernel/virtio_disk.c:271-277 | Writing one entry past the others and publishing it appends to the queue |
| `Virtqueue.RingAdvance` | xv6-labs-2025/kernel/virtio_disk.c:276-277 | Publishing the entry already written appends it |
| `Virtqueue.RingTake` | xv6-labs-2025/kernel/virtio_disk.c:312-324 | The oldest entry, and only it, is taken |
| `Virtqueue.NewOwner` | xv6-labs-2025/kernel/virtio_disk.c:202-213 | Three free descriptors go to one request; every descriptor still has one owner at most |
| `Virtqueue.Disk.constructor` | xv6-labs-2025/kernel/virtio_disk.c:144-146 | An idle queue with all descriptors free |
| `Virtqueue.Disk.AllocDesc` | xv6-labs-2025/kernel/virtio_disk.c:157-166 | The lowest free descriptor, or -1 exactly when there is none |
| `Virtqueue.Disk.FreeDesc` | xv6-labs-2025/kernel/virtio_disk.c:170-182 | Frees a descriptor in use; neither panic happens |
| `Virtqueue.Disk.FreeChain` | xv6-labs-2025/kernel/virtio_disk.c:186-197 | Follows the chain and frees exactly its three descriptors |
| `Virtqueue.Disk.Alloc3` | xv6-labs-2025/kernel/virtio_disk.c:202-213 | Three distinct free descriptors, or none taken exactly when fewer than three are free |
| `Virtqueue.Disk.GiveBack` | xv6-labs-2025/kernel/virtio_disk.c:206-210 | Undoes a partial allocation |
| `Virtqueue.Disk.Format` | xv6-labs-2025/kernel/virtio_disk.c:235-269 | The descriptors describe the request to the device: header, data that the device may write exactly for a disk read, status, which is not zero yet |
| `Virtqueue.Disk.Stage` | xv6-labs-2025/kernel/virtio_disk.c:235-272 | The staged request is not yet visible to the device |
| `Virtqueue.Disk.Prepare` | xv6-labs-2025/kernel/virtio_disk.c:216-272 | A new request in descriptors no other request uses, or the caller sleeps because fewer than three are free |
| `Virtqueue.Disk.Publish` | xv6-labs-2025/kernel/virtio_disk.c:276-281 | The device may see the request from here on, behind the earlier ones |
| `Virtqueue.Disk.DeviceTake` | xv6-labs-2025/kernel/virtio_disk.c:271-281 | The device takes the oldest published request and no unpublished one |
| `Virtqueue.Disk.Transfer` | xv6-labs-2025/kernel/virtio_disk.c:235-265 | A device that stores only through descriptors marked writable, reads only through the others and moves no more than their length makes the transfer the caller asked for |
| `Virtqueue.BlockRewritten` | xv6-labs-2025/kernel/virtio_disk.c:216-218 | Writing the two sectors of a block changes that block and no other |
| `Virtqueue.Disk.DeviceComplete` | xv6-labs-2025/kernel/virtio_disk.c:295-327 | In whatever order the device completes requests, exactly the block and buffer of that request change, by a device that obeys the descriptors |
| `Virtqueue.Disk.HandleOne` | xv6-labs-2025/kernel/virtio_disk.c:312-324 | The buffer marked done is the one submitted with the head found in the used ring; the bad-status panic does not happen |
| `Virtqueue.Disk.Interrupt` | xv6-labs-2025/kernel/virtio_disk.c:295-327 | Every completed request, and no other, is marked done |
| `Virtqueue.Disk.Finish` | xv6-labs-2025/kernel/virtio_disk.c:283-292 | The request's three descriptors, and no other, are free again |
| `PipeFifo.SlotWraps` | xv6-labs-2025/kernel/pipe.c:77-130 | Buffer positions are right across the 32-bit wrap of the counters |
| `PipeFifo.TestsAreExact` | xv6-labs-2025/kernel/pipe.c:86-112 | The tests for full and empty are right across the wrap |
| `PipeFifo.BufferedMore` | xv6-labs-2025/kernel/pipe.c:94-95 | One more byte overwrites no byte still to be read |
| `PipeFifo.Pipe.constructor` | xv6-labs-2025/kernel/pipe.c:33-36 | An empty pipe with both ends open |
| `PipeFifo.Pipe.PutByte` | xv6-labs-2025/kernel/pipe.c:94-95 | The byte is behind all others |
| `PipeFifo.Pipe.Write` | xv6-labs-2025/kernel/pipe.c:77-103 | Bytes enter in order with nothing lost or repeated, up to exactly where the writer is done, killed, out of source bytes or the pipe full; it sleeps exactly on a full pipe with a reader end; afterwards nobody sleeps who could go on, except exactly when the writer is killed with readers asleep and bytes in the pipe |
| `PipeFifo.Pipe.GetByte` | xv6-labs-2025/kernel/pipe.c:119-119 | The byte is the oldest one |
| `PipeFifo.Pipe.Read` | xv6-labs-2025/kernel/pipe.c:106-130 | The bytes taken continue those taken before, as many as asked for and there are; the reader sleeps exactly on an empty pipe with a writer end if it is not killed, and otherwise wakes all writers; exactly a byte that cannot be copied out is lost; readers that a killed writer left asleep are right to sleep again exactly when the pipe is empty |
| `PipeFifo.Pipe.Kill` | xv6-labs-2025/kernel/proc.c:618-637 | A sleeper that is killed leaves, nobody else does, and a pipe on which nobody sleeps who could go on stays one |
| `PipeFifo.Pipe.Close` | xv6-labs-2025/kernel/pipe.c:59-74 | Closing an end leaves nobody asleep on the other side |
| `PipeFifo.KilledWriter` | xv6-labs-2025/kernel/pipe.c:82-102 | A run that ends with a reader asleep on a pipe that has a byte for it |
| `PipeFifo.StrandedReader` | xv6-labs-2025/kernel/pipe.c:106-130 | From there another reader takes the byte, and the sleeper, killed in turn, returns -1 |
| `BufCache.UnlinkRing` | xv6-labs-2025/kernel/bio.c:128-129 | Unlinking keeps a well-formed ring without that buffer |
| `BufCache.InsertRing` | xv6-labs-2025/kernel/bio.c:130-133 | Linking in after the head puts the buffer first |
| `BufCache.RecycleOk` | xv6-labs-2025/kernel/bio.c:76-86 | Reusing an unreferenced buffer loses no contents and makes no second buffer for a block |
| `BufCache.UnheldIsClean` | xv6-labs-2025/kernel/bio.c:93-103 | A block whose buffer is not valid is newest on the disk |
| `BufCache.FrontByAge` | xv6-labs-2025/kernel/bio.c:117-137 | Moving a buffer to the front keeps the ring in order of last release |
| `BufCache.Cache.constructor` | xv6-labs-2025/kernel/bio.c:37-53 | All buffers in the ring, none referenced |
| `BufCache.Cache.FindCached` | xv6-labs-2025/kernel/bio.c:65-73 | The buffer of the block, or there is none |
| `BufCache.Cache.FindVictim` | xv6-labs-2025/kernel/bio.c:75-87 | Of the unreferenced buffers the one released longest ago, or all are referenced |
| `BufCache.Cache.Bget` | xv6-labs-2025/kernel/bio.c:59-89 | A reference to the only buffer of the block; a new one is taken only from the unreferenced buffer released longest ago; the panic happens exactly if all are referenced |
| `BufCache.Cache.Lock` | xv6-labs-2025/kernel/bio.c:70-71 | The holder's lock |
| `BufCache.Cache.Fill` | xv6-labs-2025/kernel/bio.c:93-103 | bread() returns the newest contents of the block, though they may not be on disk yet |
| `BufCache.Cache.Modify` | xv6-labs-2025/kernel/log.c:206-216 | What the holder stores is the newest contents |
| `BufCache.Cache.Bwrite` | xv6-labs-2025/kernel/bio.c:107-112 | The disk has the newest contents of the block |
| `BufCache.Cache.Bpin` | xv6-labs-2025/kernel/bio.c:140-144 | A pinned buffer cannot be recycled |
| `BufCache.Cache.Bunpin` | xv6-labs-2025/kernel/bio.c:147-151 | The count goes down by one; bread() goes on finding the newest contents of every block if and only if the buffer is held, pinned again, or as on disk |
| `BufCache.Cache.Brelse` | xv6-labs-2025/kernel/bio.c:117-137 | Unlocks and drops one reference; with the last one gone the buffer is the most recently used; bread() goes on finding the newest contents of every block if and only if the buffer is pinned or as on disk |
| `BufCache.Cache.ToFront` | xv6-labs-2025/kernel/bio.c:126-134 | The list moves of a release |
| `BufCache.Cache.InsertFront` | xv6-labs-2025/kernel/bio.c:130-133 | The link writes put the buffer first |
| `BufCache.Cache.Unlink` | xv6-labs-2025/kernel/bio.c:128-129 | The link writes take out exactly this buffer |
| `BufCache.Unwritten` | xv6-labs-2025/kernel/bio.c:117-137 | A buffer that is changed and released without either: the newest contents are nowhere safe |
| `MmapLayout.WriteBackExact` | xv6-labs-2025/kernel/vm.c:563-609 | Write-back gives the file the contents the mapping promises if, within the file, all dirty pages come before the clean ones |
| `MmapLayout.WriteBackWrong` | xv6-labs-2025/kernel/vm.c:563-609 | Whenever they do not, there are contents for which the file ends up wrong, because a clean page does not advance the offset |
| `MmapLayout.IntendedAt` | xv6-labs-2025/kernel/vm.c:563-609 | What the mapping promises, byte by byte: that of the page if it is dirty, and otherwise what was there |
| `MmapLayout.OffsetsKept` | xv6-labs-2025/kernel/vm.c:614-627 | Trimming a mapping at either end takes away exactly the range and keeps the file offset of every address left |
| `MmapLayout.TrimLayout` | xv6-labs-2025/kernel/vm.c:614-627 | Trimming keeps heap and mappings disjoint and in bounds |
| `MmapLayout.RaiseBase` | xv6-labs-2025/kernel/sysproc.c:209-211 | Moving mmap_base keeps the layout if and only if it stays between heap and trapframe and no mapping starts below it |
| `MmapLayout.AddLayout` | xv6-labs-2025/kernel/sysproc.c:146-175 | A new mapping just below mmap_base overlaps no other and not the heap |
| `MmapLayout.NewMapping` | xv6-labs-2025/kernel/sysproc.c:146-175 | A mapping that ends at mmap_base leaves the process well formed if and only if it starts below mmap_base and its offset is not negative |
| `MmapLayout.MunmapLayout` | xv6-labs-2025/kernel/sysproc.c:194-211 | After the first overlapping mapping is trimmed the layout survives raising mmap_base if and only if no second mapping overlaps the range |
| `MmapLayout.MunmapOfTwo` | xv6-labs-2025/kernel/sysproc.c:194-211 | A concrete munmap() over two mappings that leaves one below mmap_base |
| `MmapLayout.Process.constructor` | xv6-labs-2025/kernel/proc.c:143-144 | No heap and no mappings |
| `MmapLayout.Process.Growproc` | xv6-labs-2025/kernel/proc.c:240-258 | The heap grows or shrinks exactly as asked if it stays below mmap_base and memory is found, and otherwise not at all |
| `MmapLayout.Process.Mmap` | xv6-labs-2025/kernel/sysproc.c:115-178 | Exactly if a shared writable mapping is of a writable file and a readable one of a readable file, and there is room and a slot, the whole pages just below mmap_base that the length needs become the mapping and all other mappings are kept; for lengths of either sign, heap and mappings stay disjoint if and only if nothing was mapped or the length is positive, and file offsets stay in range if and only if the offset is not negative either |
| `MmapLayout.Process.Fault` | xv6-labs-2025/kernel/vm.c:462-513 | A fault inside a mapping, with the right access, brings in the page of the address: each byte is the file's as far from the mapping's offset as the address is from its start, or zero past the end of the file; the "remap" panic happens exactly if the page was there already |
| `MmapLayout.Process.Store` | xv6-labs-2025/kernel/vm.c:573-574 | A store makes its page dirty |
| `MmapLayout.Process.WritePage` | xv6-labs-2025/kernel/vm.c:576-607 | The page goes to the file at the offset, cut at the end of the file, over all chunks |
| `MmapLayout.Process.WriteDirty` | xv6-labs-2025/kernel/vm.c:563-609 | The file gets what the write-back sequence gives, and its length does not change |
| `MmapLayout.Process.UvmunmapVma` | xv6-labs-2025/kernel/vm.c:545-630 | Refuses exactly a hole in the middle; otherwise removes exactly the pages of the range and keeps every other as it is, trims the mapping, and writes dirty pages back if it is shared |
| `MmapLayout.Process.Munmap` | xv6-labs-2025/kernel/sysproc.c:183-214 | Refuses exactly a zero or unaligned argument or a hole; otherwise exactly the addresses of the range leave the first overlapping mapping, with their resident pages, and every other page, mapping and file offset is kept; no file changes but one that this mapping shares; for lengths of either sign and wrapping ends, heap and mappings stay disjoint if and only if an end that becomes mmap_base lies between heap and trapframe with no second mapping in the range |
| `MmapLayout.NegativeLength` | xv6-labs-2025/kernel/sysproc.c:115-178 | Two calls of mmap(), the second with a negative length, after which mmap_base lies inside a mapping |
| `MmapLayout.ReadAfterWrite` | xv6-labs-2025/kernel/vm.c:462-513 | A write and then a read of a page of a write-only mapping end in the "remap" panic |
| `MmapLayout.StoredInSecond` | xv6-labs-2025/kernel/vm.c:462-513 | A shared mapping of a two-page file with a store to its second page only |
| `MmapLayout.WrittenToWrongPage` | xv6-labs-2025/kernel/vm.c:563-609 | munmap() then writes that page to the first page of the file |
| `MmapLayout.SecondStays` | xv6-labs-2025/kernel/vm.c:545-630 | Of two mappings one is unmapped; the dirty page of the other stays and is written back at its own munmap() |
| `MmapLayout.ReadOnlyFile` | xv6-labs-2025/kernel/sysproc.c:115-178 | A file open for reading only cannot be mapped shared and writable, but shared to be read and private to be written; a write to the first is refused |
| `MmapLayout.EndCovers` | xv6-labs-2025/kernel/sysproc.c:193-193 | The end of munmap() covers the bytes asked for and less than a page more |
| `KrMalloc.MergeTiled` | xv6-labs-2025/user/umalloc.c:33-42 | Joining adjacent blocks keeps the blocks disjoint and covering all memory from sbrk() |
| `KrMalloc.SplitTiled` | xv6-labs-2025/user/umalloc.c:79-81 | Splitting a block does too |
| `KrMalloc.AddTiled` | xv6-labs-2025/user/umalloc.c:54-59 | So does adding a region above all others |
| `KrMalloc.StopsAtSlot` | xv6-labs-2025/user/umalloc.c:30-32 | The search of free() stops at a ring header if and only if it is the one just below the block, wherever the search starts |
| `KrMalloc.AbsorbUpHalf` | xv6-labs-2025/user/umalloc.c:33-35 | Joining with the free block above keeps the ring sorted and linked |
| `KrMalloc.PointUpHalf` | xv6-labs-2025/user/umalloc.c:36-37 | So does pointing at it |
| `KrMalloc.AbsorbDownGood` | xv6-labs-2025/user/umalloc.c:38-40 | Joining with the free block below restores the heap invariant |
| `KrMalloc.InsertGood` | xv6-labs-2025/user/umalloc.c:41-42 | So does linking the block in |
| `KrMalloc.CutWholeGood` | xv6-labs-2025/user/umalloc.c:76-77 | Taking a free block out of the ring keeps the heap invariant |
| `KrMalloc.CutTailGood` | xv6-labs-2025/user/umalloc.c:78-82 | Cutting off its tail does too, and the tail is a new block |
| `KrMalloc.AddGood` | xv6-labs-2025/user/umalloc.c:54-59 | New memory is a live block until it is freed into the ring |
| `KrMalloc.StoreGood` | xv6-labs-2025/user/umalloc.c:64-90 | Storing into a live block's payload disturbs no header |
| `KrMalloc.Heap.constructor` | xv6-labs-2025/user/umalloc.c:21-22 | An empty heap |
| `KrMalloc.Heap.Locate` | xv6-labs-2025/user/umalloc.c:30-32 | Ends at the ring header just below the block |
| `KrMalloc.Heap.LinkAbove` | xv6-labs-2025/user/umalloc.c:33-37 | The block, possibly larger, is ready to be linked from below |
| `KrMalloc.Heap.LinkBelow` | xv6-labs-2025/user/umalloc.c:38-42 | The ring is whole again and covers the block |
| `KrMalloc.Heap.Free` | xv6-labs-2025/user/umalloc.c:25-44 | Exactly this block stops being live; its memory is in a free block; no memory is lost |
| `KrMalloc.Heap.Morecore` | xv6-labs-2025/user/umalloc.c:47-61 | The memory from sbrk() is added as free memory, at least 4096 units; without it nothing changes; the heap is made of memory that is there if and only if the bytes asked for fit an int |
| `KrMalloc.Heap.TakeWhole` | xv6-labs-2025/user/umalloc.c:76-84 | The free block becomes live whole |
| `KrMalloc.Heap.TakeTail` | xv6-labs-2025/user/umalloc.c:78-84 | A live block of exactly the asked size, from the end of a free one |
| `KrMalloc.Heap.Take` | xv6-labs-2025/user/umalloc.c:75-84 | Exactly one new live block of the asked size, from a free block that is large enough |
| `KrMalloc.Heap.MorecoreAgain` | xv6-labs-2025/user/umalloc.c:86-88 | After more memory came the walk restarts, and a fit lies ahead of its end |
| `KrMalloc.Heap.FirstCall` | xv6-labs-2025/user/umalloc.c:70-73 | The first call sets up the ring and allocates nothing |
| `KrMalloc.Heap.Malloc` | xv6-labs-2025/user/umalloc.c:64-90 | For every request: fails if and only if no free block is large enough and sbrk() gives nothing; otherwise exactly one new live block of the asked size, disjoint from all others, and no other block changes; the heap stays made of memory that is there if and only if sbrk() is not asked, refuses, or is asked for less than 2 GiB |
| `KrMalloc.Heap.StorePayload` | xv6-labs-2025/user/umalloc.c:64-90 | A program may store anything in a live block without harm to the heap |
| `KrMalloc.Heap.SizesFit` | xv6-labs-2025/user/umalloc.c:11-17 | No block size overflows its 32-bit field |
| `KrMalloc.GivenAsked` | xv6-labs-2025/user/umalloc.c:54-59 | sbrk() moves the break by what morecore() takes to be its new memory if and only if that is below 2 GiB |
| `KrMalloc.HugeRequest` | xv6-labs-2025/user/umalloc.c:64-90 | malloc(0xffffffff) obtains 16 bytes and hands out a block of 4 GiB |
| `Grep.HereCons` | xv6-labs-2025/user/grep.c:84-106 | If an item matches a prefix and the rest matches what follows, the whole matches |
| `Grep.HereUncons` | xv6-labs-2025/user/grep.c:84-106 | And conversely |
| `Grep.HereOne` | xv6-labs-2025/user/grep.c:92-94 | A single character or dot |
| `Grep.HereMany` | xv6-labs-2025/user/grep.c:98-106 | A starred item matches any run of admitted characters, not only the shortest |
| `Grep.MatchHere` | xv6-labs-2025/user/grep.c:84-96 | True if and only if the text can be cut, from its start, into pieces that match the pattern's items in turn |
| `Grep.MatchStar` | xv6-labs-2025/user/grep.c:98-106 | The same for a pattern that starts with a starred item |
| `Grep.Match` | xv6-labs-2025/user/grep.c:73-82 | The same anywhere in the line, or only at its start after a caret |
| `Grep.PlainMatches` | xv6-labs-2025/user/grep.c:84-96 | A pattern without special characters but dots selects exactly the lines that have it somewhere |
| `Grep.StartMatches` | xv6-labs-2025/user/grep.c:75-76 | After a caret exactly those that start with it |
| `Grep.EndMatches` | xv6-labs-2025/user/grep.c:90-91 | Before a dollar exactly those that end with it |
| `Grep.WholeMatches` | xv6-labs-2025/user/grep.c:73-96 | Between both exactly those it fits from end to end |
| `Grep.StarMatches` | xv6-labs-2025/user/grep.c:98-106 | A starred character stands for any run of it, none included, before whatever pattern follows |
| `Grep.Strchr` | xv6-labs-2025/user/ulib.c:61-67 | The first newline before the terminator, or none |
| `Grep.ScanLines` | xv6-labs-2025/user/grep.c:21-29 | The matching lines among the complete lines of the buffer, in order |
| `Grep.Round` | xv6-labs-2025/user/grep.c:19-33 | The unfinished line is carried over to the next read |
| `Grep.Grep` | xv6-labs-2025/user/grep.c:12-35 | The output is the matching lines of the input, in order, however read() splits it, if every line fits the buffer; otherwise it is the matching lines before the first one that does not fit |

## Left out

- Boot, traps, the console and UART, the PLIC, timer interrupts, system call argument fetching: hardware plumbing with little to state.
- `exec` and the ELF loader, the shell, the other user programs, `printf`.
- The memory model: steps between lock operations are atomic and seen in order, so the fences are not modelled.
- Path resolution (`namex`, `skipelem`), the inode table (`iget`, `ilock`), the file table (`filealloc`, `fileclose`) and the other inode fields.
- The kernel page table, `copyin`, `copyout`, `uvmclear` and lazily allocated heap pages.
- Mappings inherited by a forked child, the unmapping of mappings in `kexit`, and the permission bits of pages brought in by a fault.
- User copies fail at a byte that is given to the operation as a number; which addresses are bad is not modelled.
- FsFiles.FileSystem.Filewrite: device and pipe files are not modelled here.
- FsFiles.FileSystem.Bfree: requires the block to be marked, because the source panics otherwise; `FreeAddr`, `FreeEntry` and `FreeIndirect` show that `itrunc` meets this.
- MkfsImage.Image.Append: returns false on a full image, because the source has no test and would write past it; the image is then not described further.
- DirOps.FileTree.Link: the whole system call is one step; whether a directory can grow is an input.
- DirOps.FileTree.Create: as `Link`; device numbers are not modelled.
- PtMemory.PhysMem.Kfree: requires a page that is held, because the source does not detect a double free; the fill with junk is not specified.
- PtMemory.PhysMem.ReleaseLeaf: as `PtSpaces.Uvmunmap`.
- PtMemory.PhysMem.UnmapPage: as `PtSpaces.Uvmunmap`.
- PtMemory.PhysMem.Mappages: requires the range to be unmapped and aligned, because the source panics otherwise, and pages for user addresses to be held by the caller.
- PtSpaces.Uvmalloc: the number of page-table pages it takes is bounded, not given exactly.
- PtSpaces.Uvmcopy: as `Uvmalloc`.
- PtProc.Kfork: as `Uvmalloc`; covers memory below the process size only, whatever else the parent maps; the trapframe copy, open files, mappings and the process states are not in this method (`SleepWake` has the states).
- PtSpaces.Uvmunmap: covers the two ways the kernel calls it, freeing user pages or not freeing the fixed pages.
- SleepWake.StepInv: `killed` and a failing copy to the parent are arbitrary choices; a process is preempted outside these routines only.
- Scheduler.StepInv: interrupts themselves are not steps; any running process may yield, and interrupts are turned on and off at the top of scheduler()'s loop.
- Virtqueue.Disk.DeviceComplete: the device reports success; an I/O error makes the source panic.
- BufCache.Cache.Brelse: contents are followed for the one disk.
- PipeFifo.Pipe.Close: requires that nobody sleeps on the end that is closed, which the file reference counts give.
- MmapLayout.Process.Growproc: the page work is `PtSpaces.Uvmalloc` and `PtSpaces.Uvmdealloc`; here its success is an input.
- MmapLayout.Process.Mmap: the descriptor is open, because the source does not test it, and the length is at most 0x7ffff000, because rounding it up overflows a C int otherwise.
- MmapLayout.Process.Munmap: the write-back of file blocks that exist does not fail.
- MmapLayout.Process.Fault: that a write to a read-only mapping kills the process is not modelled; its page is only refused.
- KrMalloc.Heap.Malloc: `sbrk` returns memory above all it returned before, and the heap stays below 2^36; that a store to memory that is not there kills the program is not modelled.
- Grep.Grep: the input holds no NUL character.
