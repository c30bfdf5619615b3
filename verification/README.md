# Blackmount, verified

A Dafny model of the hard core of the Blackmount kernel (x86-64), with proofs of what its
in-memory algorithms promise. Five components are covered.

- **The ext2 driver and its formatter.** `Ext2Cache` is the write-back LRU block cache over a
  device that may fail; `Ext2Volume`, `Ext2Alloc` and `Ext2Inodes` are the bitmap allocators;
  `Ext2BlockMap` is the tree of direct and indirect blocks; `Ext2File` is byte-level file I/O;
  `Ext2Dir` and `Ext2Directory` are the records of directories, `Ext2DirFile` directories as files of
  the volume; `Ext2Mount` is what a mount makes of a used device; `Ext2Format` is the formatter;
  `Ext2Files` is the file system as a whole, over every run of writing, creating and deleting files. The
  layers above the cache work on the logical content of blocks. That is what the cache theorems justify: no
  lookup, eviction or flush changes it, and an update through the cache changes one block of it
  (`Ext2Cache.Cache.Update`).
- **Frames and page tables.** `Pmm` is the frame allocator; `PageTables` and `Vmm` are the 4-level
  tables of all address spaces, treated as one separated tree of frames that refines a finite map
  from pages to frames; `AddressSpaces` creates and destroys spaces; `Fork` copies a process image;
  `EntryBits` looks at entries bit by bit. `RadixTree` is the argument that ext2's block trees and
  page tables have in common.
- **AF_UNIX sockets.** `UnixSockets` is the protocol as a state machine: system calls run with
  interrupts masked, so each stretch of code between two yields is one atomic step. `SocketInvariants`
  and `SocketTheorems` prove what holds over every run, `SocketSteps` says what each call makes of every socket
  and every process; `SocketTable` is the table in memory, with
  circular buffers, whose methods take exactly those steps.
- **Processes.** `ProcTable` and `Processes` are the process table and the killing of descendants,
  `Scheduler` is round-robin scheduling over every run, `UserStack` is the initial user stack.
- **Heap and users.** `Heap` is the kernel heap; `Text`, `UserDb` and `Accounts` are the user database,
  its text files and its passwords.

Each component is given twice: as functions and predicates on values, about which the theorems are,
and, where the kernel changes things in place, as classes and methods with loops whose contracts tie
the new state to those functions. What a function on values means is stated apart from its body: which chain of
pointers an index follows (`Ext2BlockMap.PathIs`), what the processor makes of the tables (`Vmm.MmuIs`), what a
scheduling step is (`Scheduler.TickIsTurn`), whom a login lets in (`Accounts.LoginIs`), which heap has given blocks
in use (`Heap.Canonical`). Integers are unbounded; widths and wrap-around are written out where
they matter (heap sizes, reference counts, 16-bit counters and record lengths).

Where the code does not meet a property, the exact condition is proved:

- `Ext2DirFile.RemoveEntry` keeps a directory well formed if and only if the record is not the first of a
  later block (`prev_entry` is carried across block boundaries).
- The superblock totals are changed in memory only and never written back. Nothing reads them, so the
  allocators do not depend on them; a mount finds them right if and only if as much was released as was
  taken (`Ext2Mount.MountedTotals`, `Ext2Mount.RunTotals`, `Ext2Format.StaleAfterOne`).
- A flush brings the whole device up to date if and only if every changed block was declared changed
  (`Ext2Cache.FlushedDevice`), which every update of the driver does (`Ext2Cache.Cache.Update`).
- Deleting a file gives back its direct blocks up to the first hole and no others (`Ext2Files.Bury`,
  `Ext2Files.LostBlock`).
- `Ext2Format.FormatSound`: a formatted device mounts as the volume that was laid out if and only if it has
  at most 8192 blocks.
- `Ext2Alloc.Ext2.FreeBlock` and `Ext2Inodes.FreeInode` keep the volume consistent if and only if the number
  was in use and, for a block, is no metadata.
- `Vmm.KernelRunSeen`: a user space sees what the kernel maps later if and only if it got that top-level
  entry at its creation; `AddressSpaces.UpperTablesStay` names the tables a destroyed space leaves behind.
- `Scheduler.RunNumbered`: PIDs stay unique and above their parents' if and only if no operation names PID 0,
  a parent not yet given out, or a current process already cleared.
- `SocketTheorems.BindUnique` keeps paths unique if and only if the truncated path is free.
- `UserDb.LoadOfSaved`: the database comes back if and only if each table has an entry or is in memory as saved.
- `UserStack.UserMemory.SetupStack`: the stack pointer has the ABI's alignment of 16 if and only if arguments
  and environment strings are odd in number.
- `Heap.AlignEnough` gives the sizes that do not wrap; `EntryBits.AddressSurvives` gives the flags that do
  not reach into the address.

`dafny verify dfyconfig.toml` checks the whole project.

## Model

| member | source | states |
|---|---|---|
| `Ext2File.Write` | src/kernel/drivers/fs/ext/ext2.c:1123-1165 | writing n bytes at p leaves the old content zero-padded to p and overwritten there, across direct and all indirect levels, holes and block boundaries; a short write happens only with no clear bit left in any group, keeps exactly what was written, returns NO_SPACE and leaves every inode on the disk as it was; every invariant of the volume and the file survives, and so do everything the file does not own, every other inode and the other fields of this one |
| `Ext2File.Read` | src/kernel/drivers/fs/ext/ext2.c:1079-1121 | returns exactly the slice of the content from the position to the size asked for or the end, moves the position by as much, and changes nothing else |
| `Ext2File.ContentBlock` | src/kernel/drivers/fs/ext/ext2.c:1093-1115 | the bytes of a file from the start of one block to the start of the next are the bytes of the block that its number leads to |
| `Ext2File.WriteChunk` | src/kernel/drivers/fs/ext/ext2.c:1134-1160 | one block's share of a write: the bytes of that chunk, and no others, take their new values, whether the block existed, was a hole or is allocated now |
| `Ext2File.WrittenContent` | src/kernel/drivers/fs/ext/ext2.c:1123-1165 | a file whose bytes agree, one by one, with the overwritten sequence has that sequence as its content |
| `Ext2File.OtherFile` | src/kernel/drivers/fs/ext/ext2.c:1123-1165 | a file that shares no block with the one written keeps its content, its invariants and its disjointness |
| `Ext2File.WriteInode` | src/kernel/drivers/fs/ext/ext2.c:247-271 | the inode's 128 bytes are stored in its place in the inode table; numbers outside the volume are refused and change nothing |
| `Ext2File.StoreInodeKeeps` | src/kernel/drivers/fs/ext/ext2.c:247-271 | storing an inode keeps the volume valid and the file's tree and content, and the inode is read back as stored |
| `Ext2File.StoreInodeOthers` | src/kernel/drivers/fs/ext/ext2.c:247-271 | every other inode of every group is read back as it was |
| `Ext2BlockMap.GetBlockNum` | src/kernel/drivers/fs/ext/ext2.c:449-683 | the block at an index, for any index: the one its pointers lead to (see `PathIs` and the rows after it); with allocate, the map grows along that index's path only, by fresh zeroed blocks, and fails only with no clear bit left in any group; without, nothing changes |
| `Ext2BlockMap.PathIs` | src/kernel/drivers/fs/ext/ext2.c:449-683 | the pointers followed for an index are a chain if and only if the chain is whole and stands for that index, blocks being counted level by level: direct pointers, then every entry of the single, double and triple-indirect trees in order |
| `Ext2BlockMap.DirectBlock` | src/kernel/drivers/fs/ext/ext2.c:453-469 | the first twelve blocks of a file are its direct pointers |
| `Ext2BlockMap.SingleBlock` | src/kernel/drivers/fs/ext/ext2.c:474-511 | block 12 + a is entry a of the single-indirect block |
| `Ext2BlockMap.DoubleBlock` | src/kernel/drivers/fs/ext/ext2.c:517-583 | block 12 + p + a p + b is entry b of the block that entry a of the double-indirect block points to, p being the pointers in a block |
| `Ext2BlockMap.TripleBlock` | src/kernel/drivers/fs/ext/ext2.c:587-683 | block 12 + p + p^2 + (a p + b) p + c is entry c behind entries a and b of the triple-indirect block |
| `Ext2BlockMap.NoBlock` | src/kernel/drivers/fs/ext/ext2.c:585-683 | an index beyond the triple-indirect tree has no block |
| `Ext2BlockMap.ChildOf` | src/kernel/drivers/fs/ext/ext2.c:474-511 | one pointer of the tree is followed, or made to point to a fresh zeroed block that hangs from nothing else |
| `Ext2BlockMap.LookupInjective` | src/kernel/drivers/fs/ext/ext2.c:449-683 | distinct indices never share a block, over direct, single, double and triple indirection |
| `Ext2BlockMap.ExtendsLookup` | src/kernel/drivers/fs/ext/ext2.c:449-683 | growing the map at one index leaves every other index's block, and the bytes seen at every index, as they were |
| `Ext2BlockMap.PathPrefix` | src/kernel/drivers/fs/ext/ext2.c:449-683 | no index's chain of pointers runs through another index's block |
| `Ext2BlockMap.LinkGrows` | src/kernel/drivers/fs/ext/ext2.c:449-683 | storing the number of an unused block in an empty slot keeps the tree separated and adds exactly that node |
| `RadixTree.Hang` | src/kernel/drivers/fs/ext/ext2.c:449-683 | in any tree of nodes with at most one way to each, hanging a fresh empty node in an empty slot keeps at most one way to each |
| `Ext2Cache.Cache.GetBlock` | src/kernel/drivers/fs/ext/ext2.c:138-178 | hit, miss and eviction alike leave the logical content of every block as it was; the buffer returned holds the block's logical content, is at the front, held and within the size limit; no held entry is evicted; there is no buffer if and only if the block is not cached and memory or the device refused something, the block does not exist, or the cache is full of held entries |
| `Ext2Cache.Cache.PutBlock` | src/kernel/drivers/fs/ext/ext2.c:180-193 | releasing a buffer changes only its entry's reference count and dirty flag, and no block's logical content; an unknown buffer changes nothing; no unmarked entry comes to differ from the device |
| `Ext2Cache.Cache.FlushCache` | src/kernel/drivers/fs/ext/ext2.c:195-207 | logical content never changes; succeeds if and only if the device refuses nothing, and then the device holds the logical content of exactly the blocks that no unmarked entry differed on before |
| `Ext2Cache.Cache.FlushEntry` | src/kernel/drivers/fs/ext/ext2.c:82-92 | writes back one dirty entry: its block on the device becomes its data and no other block changes; it fails only when the device refuses, and then nothing changes |
| `Ext2Cache.Cache.Evict` | src/kernel/drivers/fs/ext/ext2.c:94-114 | drops the last entry that nobody holds, after writing it back; fails for memory exactly when all are held and for I/O exactly when the device refuses; logical content stays |
| `Ext2Cache.Cache.Find` | src/kernel/drivers/fs/ext/ext2.c:32-41 | finds the entry of a block if and only if there is one |
| `Ext2Cache.Cache.Remove` | src/kernel/drivers/fs/ext/ext2.c:43-57 | the doubly linked list, its ends and its size describe the old list without that entry |
| `Ext2Cache.Cache.AddFront` | src/kernel/drivers/fs/ext/ext2.c:59-71 | the doubly linked list, its ends and its size describe the old list with the entry in front |
| `Ext2Cache.Cache.MoveFront` | src/kernel/drivers/fs/ext/ext2.c:73-80 | the entry is first, the others keep their order, and all entries keep their content |
| `Ext2Cache.Cache.Update` | src/kernel/drivers/fs/ext/ext2.c:247-271 | fetching a block, changing part of it and releasing it dirty changes that block's logical content there and nothing else, cached or not; it fails in exactly the cases in which there is no buffer, and no unmarked entry comes to differ from the device |
| `Ext2Cache.DropSame` | src/kernel/drivers/fs/ext/ext2.c:94-114 | dropping an entry that equals the device keeps the logical content of every block and the coherence of the rest |
| `Ext2Cache.StoreSame` | src/kernel/drivers/fs/ext/ext2.c:82-92 | writing an entry to the device and marking it clean keeps every block's logical content |
| `Ext2Cache.FrontSame` | src/kernel/drivers/fs/ext/ext2.c:73-80 | reordering entries keeps every block's logical content |
| `Ext2Cache.ChangeOne` | src/kernel/drivers/fs/ext/ext2.c:247-271 | changing the data of a held entry changes the logical content of that block only |
| `Ext2Cache.FlushedWhole` | src/kernel/drivers/fs/ext/ext2.c:195-207 | once every dirty entry has been written, a block on the device equals its logical content if and only if no entry for it had been changed without being marked |
| `Ext2Cache.FlushedDevice` | src/kernel/drivers/fs/ext/ext2.c:195-207 | after a flush that succeeds the whole device is the logical content if and only if every unmarked entry equalled the device before |
| `Ext2Alloc.Ext2.AllocBlock` | src/kernel/drivers/fs/ext/ext2.c:273-319 | fails exactly when no group has a clear bit, by the groups' counts; otherwise takes the lowest free block, in range and no metadata, counts follow the bitmaps and nothing else changes; the superblock totals, which nothing reads, need not be right |
| `Ext2Alloc.Ext2.FreeBlock` | src/kernel/drivers/fs/ext/ext2.c:321-352 | clears exactly that block; for every block in range the volume stays consistent if and only if the block was in use and is no metadata |
| `Ext2Alloc.MarkBlockValid` | src/kernel/drivers/fs/ext/ext2.c:273-352 | every invariant of the volume survives a change of one bitmap bit together with its counts and descriptor |
| `Ext2Alloc.FullMeansZero` | src/kernel/drivers/fs/ext/ext2.c:273-319 | with every bit of every group set, the free count is zero |
| `Ext2Alloc.FreeValid` | src/kernel/drivers/fs/ext/ext2.c:321-352 | freeing a block keeps every invariant if and only if it was in use and is no metadata |
| `Ext2Alloc.TotalsFollow` | src/kernel/drivers/fs/ext/ext2.c:273-352 | as long as they started right, the superblock totals in memory stay equal to the clear bits through an allocation or a release |
| `Ext2Inodes.AllocInode` | src/kernel/drivers/fs/ext/ext2.c:354-404 | takes the first free inode of the first group, from the parent's on and going round, that has one, and fails exactly when no group has a clear inode bit; its number is from 1 to s_inodes_count, its group's count of directories rises by one if it is a directory, and nothing else changes |
| `Ext2Inodes.FreeInode` | src/kernel/drivers/fs/ext/ext2.c:406-447 | clears exactly that inode, and its group's count of directories falls by one if it is a directory; the volume stays consistent if and only if it was in use |
| `Ext2Inodes.MarkInodeValid` | src/kernel/drivers/fs/ext/ext2.c:354-447 | every invariant of the volume survives a change of one inode bit together with its counts and descriptor |
| `Ext2Inodes.TurnCovers` | src/kernel/drivers/fs/ext/ext2.c:361-362 | going round from any group visits every group |
| `Ext2Volume.DecodeEncodeDesc` | src/kernel/drivers/fs/ext/ext2.c:985-1007 | a mount reads back the group descriptors that were in memory |
| `Ext2Mount.Remount` | src/kernel/drivers/fs/ext/ext2.c:936-1011 | mounting a device that the driver has used finds the geometry, the descriptors with their counts and the blocks as they were in memory; only the superblock totals are those stored, since the driver never writes the superblock |
| `Ext2Mount.MountFlushed` | src/kernel/drivers/fs/ext/ext2.c:1013-1034 | an unmount that flushes the cache puts the volume on the device, where the next mount finds it, if and only if every changed block was declared changed |
| `Ext2Mount.RemountKeeps` | src/kernel/drivers/fs/ext/ext2.c:936-1034 | so the volume satisfies the same invariants after any unmount and mount, every inode is read as before, and every file has the same content |
| `Ext2Mount.MountedTotals` | src/kernel/drivers/fs/ext/ext2.c:936-1011 | the totals a mount finds equal the clear bits if and only if the stored totals equal the current sums |
| `Ext2Mount.RunSound` | src/kernel/drivers/fs/ext/ext2.c:273-447 | over every run of block and inode allocations, releases of numbers in use, stores to data blocks and to inodes, and mounts, the counts equal the clear bits in every group and the clear bits change by exactly one with each allocation and release |
| `Ext2Mount.RunTotals` | src/kernel/drivers/fs/ext/ext2.c:273-447 | after such a run a mount finds right totals if and only if as many blocks and inodes were released as were taken since the stored totals were right |
| `Ext2Format.Disk.Format` | src/kernel/mkfs/ext2_format.c:27-211 | on blocks of 1 KiB: succeeds if and only if there are at least 16 blocks and the device refuses no write, and then leaves the layout promised; below 16 blocks nothing is written; the branch for metadata that does not fit is dead |
| `Ext2Format.SuperReads` | src/kernel/mkfs/ext2_format.c:77-99 | the superblock field by field, at the offsets of the ext2 format |
| `Ext2Format.DescFields` | src/kernel/mkfs/ext2_format.c:106-116 | the group descriptor field by field, with zeros behind it |
| `Ext2Format.RootReads` | src/kernel/mkfs/ext2_format.c:155-167 | the root directory's inode field by field: a directory with two links, one block and 1024 bytes |
| `Ext2Format.PlanFits` | src/kernel/mkfs/ext2_format.c:37-70 | for every device of at least 16 blocks the metadata fits with room to spare |
| `Ext2Format.BuildBitmap` | src/kernel/mkfs/ext2_format.c:123-146 | exactly the bits below one bound and from another on are set |
| `Ext2Format.FormatValid` | src/kernel/mkfs/ext2_format.c:27-211 | on 16 to 8192 blocks, the mount of a formatted device is the volume that was meant, and it satisfies every invariant of the allocators: counts and totals equal clear bits, metadata and padding are marked, descriptors agree with memory |
| `Ext2Format.FormatSound` | src/kernel/mkfs/ext2_format.c:27-211 | a formatted device of any size, mounted, satisfies the invariants if and only if it has at most 8192 blocks |
| `Ext2Format.FormatLarge` | src/kernel/drivers/fs/ext/ext2.c:979-981 | beyond that the mount counts more groups than were laid out, and their descriptors are zeros |
| `Ext2Format.FormatRun` | src/kernel/mkfs/ext2_format.c:27-211 | from format onward, over every run of allocations, releases and mounts, the invariants hold and the clear bits are those of the format less what was taken; a mount finds right totals if and only if nothing is taken on balance |
| `Ext2Format.StaleAfterOne` | src/kernel/drivers/fs/ext/ext2.c:294-302 | one allocation after the format is enough for the next mount to find a wrong total |
| `Ext2Format.RootTiles` | src/kernel/mkfs/ext2_format.c:181-199 | the root directory block is a well-formed directory that maps "." and ".." to inode 2 |
| `Ext2Format.RootBytes` | src/kernel/mkfs/ext2_format.c:181-199 | the root directory block byte by byte: two records with inode, length, name length, kind and name |
| `Ext2Format.RootDirectory` | src/kernel/mkfs/ext2_format.c:155-199 | on the mounted volume inode 2 is a directory file: its block map is a separated tree, its one block is the root block, and its records map . and .. to inode 2 |
| `Ext2DirFile.LookupEntry` | src/kernel/drivers/fs/ext/ext2.c:685-728 | over the directory's inode, block map and volume: finds a name's inode exactly as the map the records stand for, with each error code in its case, and changes nothing |
| `Ext2DirFile.AddEntry` | src/kernel/drivers/fs/ext/ext2.c:730-810 | a new name is inserted and every other name keeps its inode; records still tile every block; a block is allocated, filled and counted in the size only when no record has room; NO_SPACE means no room and no free block, and leaves the same directory; no other file and no other inode changes |
| `Ext2DirFile.RemoveEntry` | src/kernel/drivers/fs/ext/ext2.c:812-878 | deletes exactly that name and keeps the tiling, unless its record is the first of a block after the first: then no list of records tiles the result; no other file and no other inode changes |
| `Ext2DirFile.AppendEntry` | src/kernel/drivers/fs/ext/ext2.c:783-809 | a directory grows by one block with one record; when the volume is full, pointer blocks that were taken on the way but never written back leave the directory as it was |
| `Ext2DirFile.NotWrittenBack` | src/kernel/drivers/fs/ext/ext2.c:783-788 | an inode whose growth was not written back still describes the same directory |
| `Ext2DirFile.EmptyFile` | src/kernel/drivers/fs/ext/ext2.c:1240-1245 | an inode whose block pointers are zero is a well-formed file of zeros that owns no block |
| `Ext2DirFile.OneBlockFile` | src/kernel/mkfs/ext2_format.c:155-170 | an inode with one block of its own is a well-formed file holding that block |
| `Ext2Files.Reachable` | src/kernel/drivers/fs/ext/ext2.c:1039-1322 | from format onward, over every run of operations and mounts: every inode in use has a tree of blocks in use that are no metadata, every directory is well formed with unique names, and no block belongs to two inodes |
| `Ext2Files.RunKeeps` | src/kernel/drivers/fs/ext/ext2.c:1039-1322 | that invariant survives every run, and an inode that no step was about keeps its content |
| `Ext2Files.StepKeeps` | src/kernel/drivers/fs/ext/ext2.c:1039-1322 | it survives each step, which leaves every inode but its own with the same blocks, records and content |
| `Ext2Files.FormatFsOk` | src/kernel/mkfs/ext2_format.c:27-211 | it holds of a freshly formatted volume: inode 2 is the root directory and every other inode owns nothing |
| `Ext2Files.WriteFile` | src/kernel/drivers/fs/ext/ext2.c:1039-1165 | open, seek, write and close of an inode in use: its content is overwritten by what was written, all of it unless the volume is full, the invariant survives and all other files keep blocks and content |
| `Ext2Files.CreateFile` | src/kernel/drivers/fs/ext/ext2.c:1210-1262 | with each error code in its exact case: the name is entered for an empty file in an inode that was not in use, or, when that fails, no inode came into use and the directory is as it was; no other file changes and the invariant survives |
| `Ext2Files.NewInodeBlank` | src/kernel/drivers/fs/ext/ext2.c:1240-1246 | the new inode is a regular file with the mode given, one link, and zeros in every other field |
| `Ext2Files.DeleteFile` | src/kernel/drivers/fs/ext/ext2.c:1264-1322 | with each error code in its exact case: the name goes and no other does; with the last link the inode goes, and otherwise it is stored with one link less and no other byte changed; the invariant survives unless the record is the first of a later block, and then no directory is left |
| `Ext2Files.Bury` | src/kernel/drivers/fs/ext/ext2.c:1308-1316 | of a deleted file exactly the direct blocks before the first zero pointer are given back, each once, and the inode |
| `Ext2Files.LostBlock` | src/kernel/drivers/fs/ext/ext2.c:1309-1313 | every other block of a deleted file stays in use and belongs to no inode any more |
| `Ext2Directory.RemoveAcross` | src/kernel/drivers/fs/ext/ext2.c:845-859 | merging the first record of a block into the last of the block before always leaves bytes that no records tile |
| `Ext2Directory.AcrossExample` | src/kernel/drivers/fs/ext/ext2.c:845-859 | such directories exist: two blocks of one name each |
| `Ext2Directory.AddNames` | src/kernel/drivers/fs/ext/ext2.c:766-779 | splitting a record for a new name acts as insertion into the map and keeps names unique |
| `Ext2Directory.RemoveNames` | src/kernel/drivers/fs/ext/ext2.c:845-859 | merging a record into its predecessor acts as deletion from the map and keeps names unique |
| `Ext2Dir.SplitTiles` | src/kernel/drivers/fs/ext/ext2.c:766-779 | the bytes after a split are tiled by the old records with the new one in the freed room |
| `Ext2Dir.JoinTiles` | src/kernel/drivers/fs/ext/ext2.c:845-859 | the bytes after a merge are tiled by the old records without the merged one |
| `Ext2Dir.TilesUnique` | src/kernel/drivers/fs/ext/ext2.c:700-725 | the bytes of a block determine its records |
| `Pmm.Machine.Init` | src/kernel/mem/pmm.c:41-142 | after initialisation a page is in use exactly when it lies outside the usable regions, under the bitmap or in a claimed region, and the count equals the set bits |
| `Pmm.Machine.Alloc` | src/kernel/mem/pmm.c:144-162 | takes the lowest free page, cleared, and only it; fails only when every page is in use |
| `Pmm.Machine.AllocPages` | src/kernel/mem/pmm.c:164-200 | takes the lowest run of free pages of that length, cleared, and only it; fails only when there is none |
| `Pmm.Machine.Free` | src/kernel/mem/pmm.c:202-219 | gives back exactly that page if it is in range and in use, and otherwise changes nothing |
| `Pmm.Machine.FreePages` | src/kernel/mem/pmm.c:221-242 | gives back exactly the pages of the range that were in use |
| `PageTables.GetNextLevel` | src/kernel/mem/vmm.c:28-60 | follows an entry, also one shared with the kernel, or hangs a fresh zeroed table in it; with the flags given the entry then lets user code through, and no other entry stops doing so; all tables of all spaces stay one separated tree and no translation changes; fails only when every page is in use |
| `PageTables.IndicesArePage` | src/kernel/mem/vmm.c:13-17 | the four indices of a canonical address determine its page |
| `PageTables.LeafTranslate` | src/kernel/mem/vmm.c:213-343 | storing a leaf entry changes the frame and the flags of that page, in that space and those that use the same tables for it, and of nothing else |
| `PageTables.ViaHome` | src/kernel/mem/vmm.c:152-159 | an address of the upper half whose top-level entry a user space got at its creation is translated as the kernel translates it, in every state |
| `Vmm.Map` | src/kernel/mem/vmm.c:213-247 | for every canonical address of every space: afterwards that page stands for the frame with the flags given and the present bit, in that space and in those that share its upper-half tables; the processor finds it there and lets through what the flags let through; every other page of every space keeps its frame and flags; failure changes no translation and means no free page |
| `Vmm.MmuIs` | src/kernel/mem/vmm.c:13-60 | the processor's walk of four levels by address bits, needing the present, write and user bits on each, finds exactly the frame that the tables stand for, and exactly the rights of the last entry wherever the upper levels let user code through |
| `Vmm.Unmap` | src/kernel/mem/vmm.c:268-298 | afterwards that page translates to nothing, in that space and in those that share its tables, and every other as before |
| `Vmm.GetPhysical` | src/kernel/mem/vmm.c:309-343 | returns the address in the frame that any canonical address in any space translates to and changes nothing |
| `Vmm.MapRange` | src/kernel/mem/vmm.c:249-266 | maps page by page to consecutive frames, each with the flags given and open to the accesses they let through; on failure every page of memory is in use, and a range that was unmapped leaves every translation as it was; with more than three free pages for each to be mapped it succeeds |
| `Vmm.UnmapRange` | src/kernel/mem/vmm.c:300-307 | exactly the pages of the range lose their translation |
| `Vmm.RunTranslates` | src/kernel/mem/vmm.c:213-298 | over every run of mappings and unmappings in any spaces, every address of every space has the frame and flags that the last change to its page gave it, or those at the start if there was none |
| `Vmm.KernelRunSeen` | src/kernel/mem/vmm.c:152-159 | after every run of kernel mappings a user space sees the kernel's translation at exactly the addresses whose top-level entry it got at its creation, and nothing of it elsewhere |
| `EntryBits.AddressSurvives` | src/kernel/mem/vmm.c:20-22 | an entry gives back its address exactly when the flags set no address bit that the address lacks |
| `EntryBits.NoExecuteLeaks` | src/kernel/mem/vmm.h:18-26 | the no-execute flag is such a bit for every address below 2^63 |
| `EntryBits.CreateIsMakeEntry` | src/kernel/mem/vmm.c:22-22 | the macro on 64-bit words, read as a number, is the entry the page-table model stores, for every frame number below 2^52 and all flags below the address |
| `EntryBits.EntryReads` | src/kernel/mem/vmm.c:20-34 | the frame and the presence read from the bits are those the model reads |
| `EntryBits.OrIsWiden` | src/kernel/mem/vmm.c:32-35 | setting the user and write bits is the widening of the model |
| `AddressSpaces.CreateAddressSpace` | src/kernel/mem/vmm.c:131-164 | fails if and only if fewer than two pages are free; a new space with no translation in the lower half and exactly the kernel's in the upper half, in two fresh frames; existing translations and frames stay, and failure changes no translation and keeps no page |
| `AddressSpaces.DestroyAddressSpace` | src/kernel/mem/vmm.c:166-206 | gives back exactly the lower-half tables, the top-level table and the descriptor, each once; the space translates nothing and every other space as before |
| `AddressSpaces.UpperTablesStay` | src/kernel/mem/vmm.c:174-206 | tables that a user space was given of its own in the upper half are not given back: they stay in use and belong to no space |
| `AddressSpaces.FreeTables` | src/kernel/mem/vmm.c:174-200 | gives back exactly the tables below one table |
| `AddressSpaces.DropKeeps` | src/kernel/mem/vmm.c:166-206 | with those frames gone the remaining spaces are still one separated tree |
| `Fork.ForkMemory` | src/kernel/proc/proc.c:1261-1311 | on success every page of the code, stack and heap is mapped in the child exactly when it is in the parent, with equal content, in a frame that was free, and open to user code for reading and writing as the processor sees it; no two pages share a frame, and no other page is mapped; it fails only when a needed buffer was refused or at most one page was left free, so never with ten free pages for each page of the image; all lower-half translations of all other user spaces are as before, also on failure |
| `Fork.CloneUserRegion` | src/kernel/proc/proc.c:1179-1210 | every page of the region becomes a copy, or stays absent with the parent's, earlier copies stay and pages outside stay as absent as they were; fails only without a buffer or with at most one page left free |
| `Fork.MapUserPage` | src/kernel/proc/proc.c:190-216 | one user page stands for a fresh frame with the content given, which reached it through the scratch page, and user code may read and write it; nothing else of any user space changes and no older data frame is touched; fails only with at most one page left free |
| `SocketInvariants.Reachable` | src/kernel/net/unix_socket.c:87-483 | in every reachable state: peer links are mutual between distinct connected sockets, backlogs hold waiting clients at most once, no wake-up is lost, and every socket has read and queued exactly what was put in, in order |
| `SocketInvariants.StepKeeps` | src/kernel/net/unix_socket.c:87-483 | every atomic step of every process keeps those invariants |
| `SocketInvariants.AcceptKeeps` | src/kernel/net/unix_socket.c:211-281 | accepting, waiting or failing to get a slot keeps them |
| `SocketInvariants.ConnectKeeps` | src/kernel/net/unix_socket.c:285-342 | queueing a client and blocking it keeps them |
| `SocketInvariants.WriteKeeps` | src/kernel/net/unix_socket.c:346-385 | a write of any length, whole or partial, keeps them |
| `SocketInvariants.ReadKeeps` | src/kernel/net/unix_socket.c:387-415 | reading, waiting or finding the peer gone keeps them |
| `SocketInvariants.SendToKeeps` | src/kernel/net/unix_socket.c:419-447 | a datagram keeps them |
| `SocketInvariants.RecvKeeps` | src/kernel/net/unix_socket.c:449-483 | receiving or waiting keeps them |
| `SocketInvariants.DestroyKeeps` | src/kernel/net/unix_socket.c:113-149 | closing a socket, with its peer, its reader and its backlog, keeps them |
| `SocketTheorems.OnlyPeerDeposits` | src/kernel/net/unix_socket.c:346-447 | what is put into a socket only grows, and while it is connected every added byte is the next of a write by its peer |
| `SocketTheorems.LifetimeGrows` | src/kernel/net/unix_socket.c:346-415 | over any run that does not close the socket, what it was given earlier is a prefix of what it was given later, and all of that is read or still queued, in order |
| `SocketTheorems.BindUnique` | src/kernel/net/unix_socket.c:153-181 | binding keeps paths unique if and only if the truncated path is free too |
| `SocketTheorems.ReachablePaths` | src/kernel/net/unix_socket.c:153-181 | over every run with paths under 108 bytes, at most one bound or listening socket holds a path |
| `SocketTheorems.LongPathsClash` | src/kernel/net/unix_socket.c:170-177 | two paths of 108 bytes that differ in the last byte end up on two sockets as one path |
| `SocketSteps.FirstComeFirstServed` | src/kernel/net/unix_socket.c:211-342 | over every run, a listener serves its clients in the order in which they queued up, and the others still wait, in order |
| `SocketSteps.QueueStep` | src/kernel/net/unix_socket.c:211-342 | every step of every process takes from a listener's backlog only the client it serves, at the front, and adds only the one that connects, at the end |
| `SocketSteps.CreateSteps` | src/kernel/net/unix_socket.c:87-111 | a new socket, slot by slot: empty, unconnected and its creator's, in the lowest free slot |
| `SocketSteps.DestroySteps` | src/kernel/net/unix_socket.c:113-149 | closing, slot by slot and process by process: the peer becomes closed and keeps its queue, and exactly the readers of both and the clients in the backlog are woken |
| `SocketSteps.AcceptSteps` | src/kernel/net/unix_socket.c:211-281 | the client that has waited longest leaves the backlog and is woken; with a free slot the lowest one becomes its peer; no other socket or process changes |
| `SocketSteps.AcceptWaits` | src/kernel/net/unix_socket.c:217-243 | with no client waiting the call waits as the listener's reader; on a socket that does not listen it returns |
| `SocketSteps.ConnectSteps` | src/kernel/net/unix_socket.c:285-326 | the client is last in the backlog of the first listener at the path, whose reader is woken, and waits; no other socket changes |
| `SocketSteps.ConnectRefused` | src/kernel/net/unix_socket.c:285-318 | without a listener at the path or room in its backlog, nothing happens |
| `SocketSteps.WriteSteps` | src/kernel/net/unix_socket.c:346-385 | as many bytes as the peer's ring has room for go into it, in order, its reader being woken if there were any; the rest is still to be written, and no other socket changes |
| `SocketSteps.WriteEnds` | src/kernel/net/unix_socket.c:346-385 | with nothing to write or no live peer the call returns and nothing moves |
| `SocketSteps.ReadSteps` | src/kernel/net/unix_socket.c:387-415 | with bytes queued they are delivered whatever became of the peer; with none the process waits exactly while the peer is there and open |
| `SocketSteps.TakeSteps` | src/kernel/net/unix_socket.c:74-83 | bytes leave the front of one ring, as many as asked for or as there are, and nothing else changes |
| `SocketSteps.RecvSteps` | src/kernel/net/unix_socket.c:449-483 | a receive delivers what is queued, and with nothing queued the process waits |
| `SocketSteps.SendToSteps` | src/kernel/net/unix_socket.c:419-447 | a datagram goes whole to the first socket bound to the path, whose reader is woken, or nothing happens |
| `SocketSteps.BindSteps` | src/kernel/net/unix_socket.c:153-202 | binding stores the path cut to 107 bytes, listening changes the state, and neither touches anything else |
| `SocketTable.RingWrite` | src/kernel/net/unix_socket.c:62-72 | the ring's content grows by the bytes, through any wrap-around, or nothing happens when they do not fit |
| `SocketTable.RingRead` | src/kernel/net/unix_socket.c:74-83 | the bytes delivered and those left are the old content, through any wrap-around |
| `SocketTable.Table.Create` | src/kernel/net/unix_socket.c:87-111 | the lowest free slot becomes a fresh socket of that type for its creator and no other slot changes; fails exactly for an unknown type or a full table |
| `SocketTable.Table.Destroy` | src/kernel/net/unix_socket.c:113-149 | the slot is free, the circular backlog emptied and its clients woken; the peer is closed and keeps what is queued for it |
| `SocketTable.Table.Accept` | src/kernel/net/unix_socket.c:211-281 | the table takes the abstract step; returns -1 exactly when the socket does not listen or no slot is free, waits exactly with an empty backlog, and otherwise returns the first free slot, which is now connected |
| `SocketTable.Table.Connect` | src/kernel/net/unix_socket.c:285-326 | the table takes the abstract step up to the wait; refused without effect exactly unless it is a fresh stream socket, a listener holds the path and its backlog has room |
| `SocketTable.Table.ConnectEnd` | src/kernel/net/unix_socket.c:333-342 | once woken, connect succeeds exactly when the socket has become connected |
| `SocketTable.Table.Write` | src/kernel/net/unix_socket.c:346-385 | the table takes the abstract step, whatever the ring lets through; it returns all bytes or, with the peer gone, none |
| `SocketTable.Table.Read` | src/kernel/net/unix_socket.c:387-415 | the table takes the abstract step; the bytes returned are exactly those taken from the front of the ring, as many as asked for or as there are, and they are recorded as received |
| `SocketTable.Table.SendTo` | src/kernel/net/unix_socket.c:419-447 | the table takes the abstract step; all bytes are appended to the ring of the first socket bound to the path, or, exactly when it is no datagram socket, nothing is bound or the bytes do not fit, the call is refused without effect |
| `SocketTable.Table.Recv` | src/kernel/net/unix_socket.c:449-483 | the table takes the abstract step; the bytes returned are exactly those taken from the front of the ring, as many as asked for or as there are, and they are recorded as received |
| `SocketTable.Table.WriteCall` | src/kernel/net/unix_socket.c:346-353 | a write from its start: refused unless connected, else the step of Write |
| `SocketTable.Table.ReadCall` | src/kernel/net/unix_socket.c:387-394 | a read from its start: refused unless connected or closed, else the step of Read |
| `SocketTable.Table.RecvCall` | src/kernel/net/unix_socket.c:449-459 | a receive from its start: refused unless a datagram socket, else the step of Recv |
| `SocketTable.Table.Bind` | src/kernel/net/unix_socket.c:153-181 | the table takes the abstract step; refused without effect exactly unless the socket is fresh, the path is not empty and no socket holds it |
| `SocketTable.Table.Listen` | src/kernel/net/unix_socket.c:183-202 | the table takes the abstract step; refused without effect exactly unless it is a bound stream socket |
| `Processes.Table.KillChildren` | src/kernel/proc/proc.c:80-104 | terminates and clears exactly the live processes that descend from the argument through live processes |
| `ProcTable.ViaAll` | src/kernel/proc/proc.c:80-104 | the children of a process with everything below them are its descendants |
| `ProcTable.ReachedMinus` | src/kernel/proc/proc.c:80-104 | clearing a set closed under children does not change who descends from whom outside it |
| `Processes.Table.Terminate` | src/kernel/proc/proc.c:106-136 | slot by slot, for a process in use: it is a zombie, its descendants are cleared, exactly the parent that waits for it and the blocked parent of its vfork are ready again and wait no more, and no other slot changes; numbers stay unique and above the parents' if and only if the slot held a process |
| `Scheduler.TerminateSlots` | src/kernel/proc/proc.c:106-136 | the same of the abstract step, on every numbered table |
| `Scheduler.WakeParentSlots` | src/kernel/proc/proc.c:123-135 | the parent goes on exactly if it waits for that number, whatever the table |
| `Scheduler.WakeVforkSlots` | src/kernel/proc/proc.c:111-121 | the blocked parent of a vfork goes on and the child forgets it, whatever the table |
| `Scheduler.KillSlots` | src/kernel/proc/proc.c:998-1011 | killing a number ends the process of that number and nothing else |
| `Processes.Table.FindNext` | src/kernel/proc/proc.c:179-188 | the first ready slot after the current one, going round |
| `Processes.Table.ScheduleInterrupt` | src/kernel/proc/proc.c:786-809 | a turn: of the ready and running processes, the first one after the current slot, going round and ending with it, becomes the current one and runs; the one that ran before is ready; with scheduling off or nobody to run nothing changes |
| `Scheduler.TickIsTurn` | src/kernel/proc/proc.c:786-809 | the scheduling step leads to a state if and only if that state is a turn after the one before |
| `Scheduler.TurnFair` | src/kernel/proc/proc.c:786-809 | a process that ran is ready or runs afterwards, at most one other slot changes, from ready to running, and becomes the current one; if anyone was ready or running, someone runs |
| `Processes.Table.Exit` | src/kernel/proc/proc.c:742-784 | the table takes the abstract exit step and keeps the numbers right if and only if the current slot has not been cleared |
| `Scheduler.ExitSlots` | src/kernel/proc/proc.c:742-784 | slot by slot: the process ends as by Terminate, and the first process after it that is then ready runs; with none there is no current process |
| `Processes.Table.Create` | src/kernel/proc/proc.c:308-369 | the lowest unused slot gets a ready process with a new PID that waits for nobody, every other slot stays, and children stay younger than parents |
| `Scheduler.VforkSlots` | src/kernel/proc/proc.c:1313-1338 | the child of a vfork is ready and names its parent, which is blocked and waits for it; no other slot changes |
| `Scheduler.WaitSlots` | src/kernel/proc/proc.c:711-740 | the caller is blocked and waits for the child exactly while the child is there and has not ended; no other slot changes |
| `Scheduler.ReapSlots` | src/kernel/proc/proc.c:138-151 | reaping clears exactly the slot of that number |
| `Scheduler.BlockSlots` | src/kernel/proc/proc.c:66-78 | blocking and unblocking change the state of the first slot of that number alone |
| `Scheduler.StartSlots` | src/kernel/proc/proc.c:392-419 | the lowest ready user task runs first, or the lowest ready process without one; with nobody ready nobody runs |
| `Scheduler.BoundedWaiting` | src/kernel/proc/proc.c:179-188 | a process that stays ready is passed over by at most as many scheduling decisions as there are slots before it, so it runs within 64, whatever the others do |
| `Scheduler.Reachable` | src/kernel/proc/proc.c:381-419 | from initialisation on, through any operations before and after scheduling starts, a RUNNING process is the current one |
| `Scheduler.StepRuns` | src/kernel/proc/proc.c:742-809 | every operation keeps that |
| `Scheduler.DispatchCloser` | src/kernel/proc/proc.c:179-188 | choosing another process than a ready one brings the choice closer to it |
| `Scheduler.ReachableNumbered` | src/kernel/proc/proc.c:80-152 | in every state that proper operations lead to from boot, a process in use has a number above its parent's and below the next, and numbers are unique |
| `Scheduler.RunNumbered` | src/kernel/proc/proc.c:52-136 | numbers are right in every state of a run if and only if every operation of it is proper: it names no PID 0, a parent given out, and a current process that has not been cleared |
| `Scheduler.StepNumbered` | src/kernel/proc/proc.c:52-136 | for every operation, the numbers stay right if and only if the operation is proper |
| `Scheduler.UnblockZero` | src/kernel/proc/proc.c:73-78 | unblocking PID 0 after boot turns an unused slot into a ready process with PID 0 |
| `UserStack.UserMemory.SetupStack` | src/kernel/proc/proc.c:568-625 | memory below the top holds argc, argv, NULL, envp, NULL and the auxiliary vector with all strings in place; nothing at or above the top changes; the stack pointer is a multiple of 8, and of 16 if and only if arguments and environment strings are odd in number |
| `UserStack.UserMemory.WriteBytes` | src/kernel/proc/proc.c:496-528 | across pages, mapped or not, exactly the bytes given change |
| `UserStack.StartUp` | src/apps/libc/crt0.c:3-16 | reading that memory as the start-up code does gives back the same count, arguments, environment and a terminated auxiliary vector |
| `UserStack.NumberOfLe` | src/kernel/proc/proc.c:530-534 | a word pushed is the word read |
| `UserStack.ReadVector` | src/apps/libc/crt0.c:8-10 | following a vector of pointers up to NULL and each string up to NUL gives back the strings |
| `Heap.RunSound` | src/kernel/heap.c:71-224 | after any run: blocks tile the heap, used plus free plus headers is its size, live payloads are disjoint and defragmentation finds nothing to merge |
| `Heap.RunKeepsLive` | src/kernel/heap.c:71-171 | an allocated block keeps its place and size through any run that does not free it |
| `Heap.Canonical` | src/kernel/heap.c:71-224 | two sound heaps with the same blocks in use are the same list: what is free follows from what is in use |
| `Heap.MallocIs` | src/kernel/heap.c:92-117 | an allocation grants the first free block that is large enough, whole or split as its size says, and leaves every other block in use as it was; the bytes in use grow by the grant |
| `Heap.FreeIs` | src/kernel/heap.c:122-171 | freeing a payload in use: no block in use has that payload afterwards, the bytes in use fall by its size, and every other block in use stays |
| `Heap.FreeRefused` | src/kernel/heap.c:140-151 | an address that is no payload of a block in use changes nothing |
| `Heap.FreeAfterMalloc` | src/kernel/heap.c:71-171 | freeing what an allocation returned puts the whole list back as it was |
| `Heap.FreeUndoesMalloc` | src/kernel/heap.c:97-171 | freeing the block just allocated gives back exactly the list there was |
| `Heap.AlignEnough` | src/kernel/heap.c:26-28 | rounding up yields at least the request if and only if it is at most 2^64 - 16, and 0 beyond |
| `Heap.DefragCoalesces` | src/kernel/heap.c:203-224 | from any tiling, defragmentation yields a tiling with no two free neighbours |
| `Heap.ReleasedGood` | src/kernel/heap.c:153-170 | freeing keeps the tiling and leaves no two free neighbours |
| `Heap.TakenGood` | src/kernel/heap.c:97-113 | allocating, with or without a split, keeps the tiling and leaves no two free neighbours |
| `Heap.KernelHeap.Kmalloc` | src/kernel/heap.c:71-120 | in memory: the first free block that fits is granted and its payload returned, large enough, every other block in use staying; fails exactly when nothing was asked for or no free block fits |
| `Heap.KernelHeap.Kfree` | src/kernel/heap.c:122-171 | in memory: the block of a payload in use is given back, its bytes are no longer counted, and every other block in use stays; NULL, foreign addresses and free blocks change nothing |
| `Heap.KernelHeap.Defrag` | src/kernel/heap.c:203-224 | in memory: no two free neighbours remain, the blocks in use are as they were, and nothing at all changes if there were none |
| `Heap.KernelHeap.GetStats` | src/kernel/heap.c:173-201 | the sums of the list, which add up to the heap's size |
| `UserDb.LoadOfSaved` | src/kernel/user/user.c:459-634 | loading what was saved rebuilds the whole database, an empty hash having become "!", if and only if each table has an entry or is already in memory as saved |
| `UserDb.LoadUsers` | src/kernel/user/user.c:459-605 | loading rebuilds the users, whatever was in memory and whatever the groups are, if there is a user; otherwise the table in memory stays, as an empty file is not read |
| `UserDb.LoadGroups` | src/kernel/user/user.c:497-634 | the same for the groups |
| `UserDb.ReadUserIs` | src/kernel/user/user.c:568-605 | a line of whatever fields: skipped with fewer than seven or a number out of range, else its user takes that slot |
| `UserDb.ReadShadowIs` | src/kernel/user/user.c:607-630 | a hash goes to the first user of that name and to nobody else, cut to its field |
| `UserDb.ReadGroupIs` | src/kernel/user/user.c:532-566 | a line of whatever fields: skipped with fewer than four or a number out of range, else its group takes that slot |
| `Accounts.PasswordSurvives` | src/kernel/user/user.c:365-457 | after a save and a load exactly the passwords with the same digest as the one set authenticate, to the same user |
| `Accounts.UserTables.SaveToDisk` | src/kernel/user/user.c:459-525 | the three texts, each cut where its buffer ends; they are whole if and only if they fit |
| `Accounts.UserTables.LoadFromDisk` | src/kernel/user/user.c:527-634 | the tables the texts stand for; an unreadable file leaves its table alone |
| `Accounts.UserTables.SetPassword` | src/kernel/user/user.c:365-407 | stores salt and digest in hexadecimal for an existing user and refuses others |
| `Accounts.UserTables.Authenticate` | src/kernel/user/user.c:409-457 | lets in exactly the first user of that name, and exactly if its hash is tagged and carries a salt whose digest with the password it holds; each error code in its exact case (`LoginIs`) |
| `Accounts.LoginIs` | src/kernel/user/user.c:409-457 | for every table, name and password: a number if and only if the first user of that name has it and its hash admits the password; -2 without such a user, -3 for an empty or locked hash, -4 for a hash of another kind, -6 for one that does not match, each if and only if |
| `Accounts.NoPassword` | src/kernel/user/user.c:409-457 | no password authenticates a user whose hash is empty or locked, before or after a save and a load |
| `Accounts.HexInjective` | src/kernel/user/user.c:387-401 | different bytes are written differently |
| `Text.Fmt` | src/kernel/user/user.c:87-118 | prints what the format denotes, cut where the buffer ends |
| `Text.Itoa` | src/kernel/user/user.c:68-85 | prints the decimal digits of any number |
| `Text.Atoi` | src/kernel/user/user.c:120-126 | reads the leading digits |
| `Text.NumberOfDigits` | src/kernel/user/user.c:68-126 | a number printed and read back is the same number |
| `Text.NumberIs` | src/kernel/user/user.c:120-126 | reading stops at the first character that is no digit and gives the decimal value of the digits before it |
| `Text.SplitFields` | src/kernel/user/user.c:128-140 | cuts a line at its colons, up to the maximum |
| `Text.FieldsOfJoin` | src/kernel/user/user.c:128-140 | splitting a line joined from fields without colons gives back the fields, those beyond the maximum staying joined in the last one |
| `Text.JoinOfFields` | src/kernel/user/user.c:128-140 | every line is the fields it is split into, joined again, none but the last holding a colon |
| `Text.LinesOfUnlines` | src/kernel/user/user.c:540-564 | going through a text line by line gives back the lines it was made of |
| `Text.UnlinesOfLines` | src/kernel/user/user.c:540-564 | every text is its lines again, none holding a newline, whether or not it ends in one |

## Left out

- Ext2File.Write: one open handle per file and no I/O or memory failure, as the position and size stay below 2^32; a second handle carries its own copy of the inode. `i_blocks` and times are not interpreted.
- Ext2File.Read: no I/O or memory failure.
- Ext2BlockMap.GetBlockNum: the unrolled branches for single, double and triple indirection are one loop over the levels of the path, and references to cached blocks that its failure paths leave unreleased are not counted.
- Ext2Cache.Cache.GetBlock: the device is a list of equal blocks, so the 32-bit product in the sector address is not modelled; a reference count is below 2^32 - 1 before it is raised. Whether references are balanced is not claimed: some callers do not release every one.
- Ext2Cache.Cache.ReadBlock: the buffer is made with its content instead of being filled afterwards.
- Ext2DirFile.AddEntry: names are at most 255 bytes, the length field being 8 bits wide, the inode number is not 0, and one more block keeps the directory's size below 2^32; no I/O or memory failure. The pointer blocks that a failed growth took stay in use, as in the code.
- Ext2DirFile.LookupEntry: a directory is a file of whole blocks without holes, as every operation keeps it and the formatter makes it; the branch that stops at a hole is dead under that invariant.
- Ext2DirFile.RemoveEntry: names in use are unique; the references it leaves unreleased are not counted.
- Ext2Format.Disk.Format: blocks of 1 KiB, below 2^32 - 2^16 of them; memory is always available.
- Ext2Mount.Remount: the device is given as blocks of the size its superblock asks for, which is 1, 2 or 4 KiB; memory is available and reading succeeds.
- Ext2Mount.RunSound: stores are to whole data blocks and whole inodes; which blocks they are is the subject of `Ext2Files`.
- Ext2Files.WriteFile: one handle at a time, as for `Ext2File.Write`; the inode comes from a path that led to an inode in use.
- Ext2Files.CreateFile: the directory that the path leads to is an inode in use, and one more block keeps its size below 2^32.
- Ext2Files.DeleteFile: the name leads to an inode in use, so the branch for an inode number out of range is dead. That names and link counts agree across directories is not claimed, and after a removal that breaks the directory nothing is said of other files.
- Vmm.Map: flags stay below the address bits (so no PAGE_NX, see `EntryBits`), tables hold no huge pages, addresses are canonical; TLB and CR3 handling is hardware.
- Vmm.MmuIs: the processor's walk is that for 4 KiB pages; accessed and dirty bits, caching and the bit against execution are not part of it.
- Vmm.GetPhysical: returns an option where the code returns NULL, so a page mapped to address 0 is told apart from an unmapped one.
- AddressSpaces.DestroyAddressSpace: only lower-half tables are given back, as in the code; the data frames of the space, and upper-half tables of its own, stay in use.
- AddressSpaces.FreeTables: the three nested loops are one recursive method, a level per call.
- Fork.ForkMemory: the memory part of `proc_fork`; registers and the process table entry are not part of it. A frame whose last mapping step fails stays in use, as in the code. The scratch page is mapped and unmapped in the kernel's upper half, so translations of that page, which user spaces may share, are not among those said to stay.
- Pmm.Machine.Init: the bitmap is a field of its own, not bytes inside a frame.
- SocketInvariants.Reachable: each socket is used by the process that got it, a process exits only outside calls, and nobody is unblocked from outside (`proc_unblock_as`, `sys_dup` and kills would break the protocol's assumption). Byte counts stay below 2^32.
- SocketTable.Table.Write: the value is the number of bytes of the stretch since the last yield, not of the whole call.
- SocketTable.Table: the table is a field of records that methods replace one at a time, so that the ring loops work on a record's ring and store it back.
- Processes.Table.KillChildren: live processes are younger than their parents, which `Scheduler.RunNumbered` shows for every run of proper operations; address spaces of the killed processes are not part of the table. PIDs do not wrap around.
- Scheduler.BoundedWaiting: saved registers, kernel stacks and address-space switches are not part of the state.
- Scheduler.ReachableNumbered: the next PID stays below 2^32.
- UserStack.UserMemory.SetupStack: memory for pages and for the two pointer arrays is available and the image fits below the top; user memory is the map from pages to bytes that `Vmm` shows the page tables to be.
- Heap.KernelHeap.Kfree: an address inside the heap is the payload of some block; the corruption check is dead under the invariant. What callers write into payloads is not modelled, and initialisation has succeeded.
- Accounts.UserTables.SaveToDisk: the texts are returned; creating and writing the files is `Ext2File`. Numbers are nonnegative and do not overflow.
- Accounts.UserTables.Authenticate: name and password are given and memory is available, so the codes -1 and -5 do not occur.
- Accounts.UserTables.SetPassword: SHA-256 is any function to 32 bytes and the salt is a parameter.
- `ext2_mkdir`, `ext2_rmdir`, path resolution, permissions, VFS and system call wrappers: thin layers, or no clean conservation law to claim.
- FAT, ELF loading, the package manager, libc `malloc`: easier forms of what is proved here.
- Hardware access, logging, console, device nodes, user applications.
