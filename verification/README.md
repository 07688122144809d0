# XERN in Dafny

XERN is a small non-preemptive Unix-like kernel for ARM. This project models four of its parts and proves what
they are for:

- **ext2 storage.** The block bitmap with its two free-block counters, the twelve direct, 512 indirect and
  512 x 512 double-indirect pointers of an inode, `write_file`, `read_file`, `free_iblocks`, the copy loop of
  `cp`, and linked directories in direct blocks (`find_inode`, `insert_child`, `remove_child`, `kgetdent`). The
  volume is a sequence of 2048-byte blocks; superblock, group descriptor, bitmap, inode table, pointer tables and
  directory records are bytes in it. A ghost map says which inode and path owns each block.
- **Processes.** The table of 64 slots with its three lists through one `next` field, `sleep`, `wakeup`, `fork`,
  `exit`, `wait` and the scheduler: once as a state machine on values whose steps run from one context switch to
  the next, and once in the kernel's own form, an array of slots changed in place. `p->next` is a slot number,
  null is -1. Around it: runs from boot, and the family tree the runs trace out.
- **Open files.** The open-file table and the descriptor tables across open, pipe, dup2, close, fork and exit,
  as steps on values and as the kernel's loops over arrays.
- **User memory.** The frame bitmap, two-level page tables as words in frames, `allocuvm`, `clrpage`, `ksbrk`
  and `copyuvm`. A ghost sequence says what each frame is used for.

Path splitting (`brk_path`, `dirname`, `basename`, `search_inode`) is modelled as well.

## Layout

| files | content |
|---|---|
| `Bytes`, `Layout`, `Bitmap`, `InodeTable`, `Volume` | bytes and bits, the pointer tree, the bitmap, inodes on disk, the volume invariant |
| `FileData`, `Truncate`, `Space`, `FileSystem`, `Copy` | file contents, freeing, the blocks a write needs, the class `Ext2` with the operations, `cp` |
| `DirBlock`, `DirSpec`, `DirBytes`, `Directories`, `VolumeRuns` | directory records as bytes, directories as lists and as blocks, the operations on the volume, whole runs |
| `ProcQueue`, `ProcSpec`, `ProcInvariant`, `ProcLaws`, `ProcRuns`, `ProcKernel` | queues, the state machine, its invariant, what each step does, runs from boot, the linked table |
| `OpenFiles`, `OpenLaws`, `FileTable` | reference counts over all runs, what each step does, the tables in place |
| `UserMemory`, `UserSpace`, `PageOps` | ownership of frames, growing, shrinking and copying, the class `Memory` with the operations |
| `Paths` | path names |
| `Formats` | the formats on disk and in memory, by literal bytes and words |

`dafny verify dfyconfig.toml` checks everything.

## What the code does that its comments do not say

- A name comparison reads `max(strlen, name_len)` bytes and so compares the bytes behind a shorter entry with the
  rest of the name. `DirBlock.FalseMatch` gives a block where "abcd" is found as "abcde". An entry shadows a longer
  name that continues it with the bytes that follow it; `DirBytes.FindInExact` shows that lookup is exact if and
  only if no record before the right one shadows the name. One byte behind each name settles it: it is so in every
  new directory (`DirBlock.DotBlockClear`), and `DirBlock.SplitKeepsStops` names the two bytes on which it depends
  that an insertion keeps it so.
- `remove_child` frees a block that holds a sole entry wherever it is; its comment says this only happens in the
  last block. `Directories.RemoveChild` and `Directories.HoleLoses` show what is seen afterwards: all other entries
  if and only if it was the last block. `Directories.LostName` is the smallest case.
- `oft_dalloc` clears the pointers of an entry but not its reference count. A `kopen` or `kpipe` that fails after
  taking an entry loses it for good; `OpenFiles.ExactIff` says exactly when counts and references agree, and
  `OpenFiles.ElevenOpens` is a run in which they do not.
- A write that ends inside a file cuts the file there, and a write of nothing cuts it at the offset.
- `cp` fails on a source with a 0 byte, since `write` stops at it, and leaves the destination as it is for an
  empty source.
- `allocuvm` that finds no frame for the first entry of a page table frees the table but leaves it in the page
  directory. `PageOps.Memory.AllocUvm` says exactly when, and `PageOps.TableLost` is a run that ends so.
- `dalloc_page` ignores frames above 0x10000000 that `alloc_page` hands out, so those are never returned.

## Model

| member | source | states |
|---|---|---|
| `Bytes.BitLaws` | XERN/fs/utils.h:13-27 | Setting or clearing a bit changes that bit and no other, at any position of any value. |
| `Bitmap.CountedCounters` | XERN/fs/utils.h:42-53 | Counting one block down or up moves the 32-bit counter by exactly one and keeps the 16-bit counter equal to it modulo 2^16, wrap-around included. |
| `Bitmap.AllocAccounted` | XERN/fs/utils.h:73-90 | Marking a clear bit and counting down keeps the bitmap equal to the set of used blocks and both counters equal to the number of clear bits. |
| `Bitmap.FreeAccounted` | XERN/fs/utils.h:130-139 | The same for clearing a set bit and counting up. |
| `FileSystem.Ext2.DecFreeBlocks` | XERN/fs/utils.h:42-53 | Both on-disk counters go down by one; no other byte of the disk changes. |
| `FileSystem.Ext2.IncFreeBlocks` | XERN/fs/utils.h:105-116 | Both on-disk counters go up by one; no other byte of the disk changes. |
| `FileSystem.Ext2.AllocBlock` | XERN/fs/utils.h:73-90 | The result is a block that was free, now marked and counted, or 0 exactly when no bit is clear; everything else is unchanged. |
| `FileSystem.Ext2.DallocBlock` | XERN/fs/utils.h:130-139 | The bit is cleared and the block counted up, and nothing else changes; for a block in use that keeps the bitmap and both counters exact, and a block outside the volume is ignored. |
| `Layout.LinkKeepsOwns` | XERN/fs/file.h:76-176 | Linking a block nobody owns at one pointer of one inode keeps ownership exact: every nonzero pointer names its own block, and no block is reached along two paths. |
| `Volume.LinkStep` | XERN/fs/file.h:76-176 | Linking the next block of a file in mapping order keeps the whole volume invariant and lengthens the dense prefix of mapped positions by one. |
| `InodeTable.InodeRoundTrip` | XERN/fs/file.h:195-201 | Writing an inode as 128 bytes and reading the bytes back gives the inode. |
| `InodeTable.SavedInode` | XERN/fs/file.h:195-201 | Saving inode n puts its bytes in its slot of its table block and leaves every other inode of the table as it was. |
| `FileSystem.Ext2.AllocRoot` | XERN/fs/file.h:78-87 | A fresh block goes into an empty slot of i_block, zeroed when it is a table; the volume invariant holds again, and only the inode at hand grew. |
| `FileSystem.Ext2.AllocEntry` | XERN/fs/file.h:111-122 | The same for an empty entry of a pointer table. |
| `FileSystem.Ext2.MapIndirect` | XERN/fs/file.h:91-124 | A position in the indirect range is mapped, or the volume is full and nothing but a table was added. |
| `FileSystem.Ext2.SecondLevel` | XERN/fs/file.h:127-160 | The second-level table of a double-indirect position exists, or the volume is full. |
| `FileSystem.Ext2.MapDouble` | XERN/fs/file.h:125-176 | A position in the double-indirect range is mapped, or the volume is full. |
| `FileSystem.Ext2.MapBlock` | XERN/fs/file.h:73-176 | Any position up to the end of the mapped prefix is mapped, through whichever of the three levels it lies in, without moving any byte of any file; 0 only on a full volume. |
| `FileSystem.Ext2.WriteChunk` | XERN/fs/file.h:178-189 | One turn of the loop extends the bytes already written by the chunk and keeps every other file. |
| `FileData.ProgressStep` | XERN/fs/file.h:178-189 | Rewriting one mapped block extends the new bytes of the file exactly by the chunk: all bytes before it stay, across block and table boundaries. |
| `FileData.OtherFileKept` | XERN/fs/file.h:59-205 | If no block of another owner changed, the contents of every other file are the same bytes as before. |
| `FileSystem.Ext2.SaveSize` | XERN/fs/file.h:192-201 | The new size reaches the inode in memory and its slot of the inode table, and no other inode. |
| `FileSystem.Ext2.WriteFile` | XERN/fs/file.h:59-205 | The length is count, or less if a 0 byte comes first (0 for a count of 0 or below): all bytes before it are nonzero, and it ends at count or at a 0. Success: contents become the old bytes before the offset followed by that many bytes of the buffer, even in mid-file, and offset and size move to the end. Failure: size, offset and inode table stay. The write succeeds if and only if the free blocks are at least as many as the places of the pointer tree, tables included, that it needs and that hold no block yet. Every other inode keeps its contents, and the invariant holds either way. |
| `FileData.FailedWrite` | XERN/fs/file.h:81-86 | What a write cut short by a full volume leaves behind: the bytes past the offset that still count are already the new ones, up to the old size. |
| `Space.GainedSize` | XERN/fs/file.h:73-176 | The free blocks a write used up are exactly as many as the places of the tree that newly hold a block, and each of those holds a block of its own. |
| `Space.EnoughSpace` | XERN/fs/file.h:59-205 | A write that mapped all it needed had at least as many free blocks as missing places before it started. |
| `Space.TooLittleSpace` | XERN/fs/file.h:81-86 | A write that a full volume stopped had fewer: what it gained is a proper part of what was missing, since the next position still is. |
| `FileSystem.Ext2.LookupBlock` | XERN/fs/file.h:20-38 | The block found for a position within the file is the one the pointer tree has there. |
| `FileSystem.Ext2.ReadChunk` | XERN/fs/file.h:40-50 | One turn copies exactly the next bytes of the contents. |
| `FileSystem.Ext2.ReadFile` | XERN/fs/file.h:8-56 | The length is at most count and at most what is left of the file, and equal to one of them. The buffer receives exactly that many bytes of the contents from the offset on and a 0 behind it; the offset advances by that length. |
| `Truncate.DropStep` | XERN/fs/utils.h:389-393 | Freeing slot k and forgetting what lies below it leaves exactly the blocks below it loose, with the bitmap still exact. |
| `Truncate.LooseStep` | XERN/fs/utils.h:403-409 | Freeing one loose block in the middle of the work keeps the bitmap exact for what is owned or loose. |
| `Truncate.SkipDirect` | XERN/fs/utils.h:387-391 | The loop may stop at the first null direct pointer: no later direct pointer is set. |
| `Truncate.RestSkip` | XERN/fs/utils.h:403-409 | A table loop may stop at its first null entry: nothing below a later entry is left to free. |
| `FileSystem.Ext2.FreeDirect` | XERN/fs/utils.h:387-394 | After the first loop every direct slot is null and exactly the direct blocks are free. |
| `FileSystem.Ext2.FreeIndirect` | XERN/fs/utils.h:397-411 | The indirect table and exactly the blocks it names are freed, each once. |
| `FileSystem.Ext2.FreeDouble` | XERN/fs/utils.h:414-436 | The double-indirect tree is freed, each block once. |
| `FileSystem.Ext2.FreeIBlocks` | XERN/fs/utils.h:383-450 | Exactly the blocks the inode owned become free, each once; the file is empty, its inode saved, and every other file untouched. |
| `Truncate.AccountsRestored` | XERN/fs/utils.h:383-450 | An inode that owned nothing, whatever was mapped into it in between, gives back the bitmap and both counters exactly. |
| `VolumeRuns.OwnershipMeans` | XERN/fs/utils.h:73-139 | What the invariant says of the disk itself: a nonzero pointer names a marked block that is no metadata block and that no other pointer names; both counters equal the number of clear bits. |
| `VolumeRuns.ApplyFile` | XERN/fs/file.h:59-205 | Any single seek, write or truncation keeps the invariant, all directories, and every other file. |
| `VolumeRuns.RunThenFree` | XERN/fs/utils.h:383-450 | From an empty file, any run of seeks, writes (full or cut short by a full volume) and truncations, ended by free_iblocks, restores the free blocks and both counters. |
| `VolumeRuns.Run` | XERN/fs/utils.h:383-450 | Any run of writes, truncations, direct-block insertions and removals keeps the ownership invariant and keeps every directory a list of record chains. |
| `FileSystem.Ext2.constructor` | XERN/fs/utils.h:233-258 | Mounting a volume that satisfies the invariant. |
| `Copy.Cp` | XERN/UPROGS/src/cp.c:103-122 | The loop ends. 0 means the source holds no 0 byte and a nonempty source has been copied whole; -1 means that the volume is full, or that the destination is now the source up to its first 0 byte. No third file changes. |
| `DirBlock.ChainFills` | XERN/fs/utils.h:279-286 | The record lengths of a block that is a chain add up to exactly 2048. |
| `DirBlock.MatchesMemcmp` | XERN/fs/utils.h:281-283 | The memcmp with the C string q over the longer of strlen(q) and name_len, byte by byte until two differ, succeeds exactly when the block holds the bytes of q from the name on and name_len is at most strlen(q), whatever memory follows the string. |
| `DirBlock.MatchesExtended` | XERN/fs/utils.h:281-283 | So an entry is taken for its own name and for exactly those longer names that continue it with the very bytes that follow it in the block. |
| `DirBlock.MatchesExactly` | XERN/fs/utils.h:281-283 | For an entry, that comparison accepts its own name and no other, whatever is looked up, if and only if the byte behind the name is 0 or outside the block. |
| `DirBlock.FalseMatch` | XERN/fs/utils.h:281-283 | A concrete block in which "abcd" is taken for "abcde", because the next record's inode number starts with the code of e. |
| `DirBlock.FirstMatchExact` | XERN/fs/utils.h:279-286 | In a block the comparison finds the first record of a name, or its absence, if and only if no record before the first one of that name continues to it in this way. |
| `DirBlock.DotBlockClear` | XERN/fs/mkdir.h:91-109 | In the block of a new directory lookup by bytes is lookup by name for every name; ".." is found as the second record although "." begins it. |
| `DirBlock.SplitKeepsStops` | XERN/fs/modentry.h:51-64 | Names told apart from q by the byte behind them stay so when a record is split, if the low byte of the new inode number (behind a last name that fills its record) and the byte behind the new name are not the next character of q. |
| `DirBlock.LastEntry` | XERN/fs/modentry.h:43-49 | The walk over rec_len ends at the last record of the block. |
| `DirBlock.ScanBlock` | XERN/fs/modentry.h:235-282 | The walk finds the first record the comparison accepts, and the record before it. |
| `DirBlock.SplitLast` | XERN/fs/modentry.h:51-64 | Shortening the last record to its ideal length and writing the new one behind it gives the old records with the last one shortened, and the new one, in a block that is still a chain. |
| `DirBlock.DropLast` | XERN/fs/modentry.h:253-258 | Removing the last of several records: the one before it takes its length; the others stay. |
| `DirBlock.DropMiddle` | XERN/fs/modentry.h:259-278 | Removing an earlier record by memmove: the later ones move up in order, the last takes its length, and the block is still a chain. |
| `DirSpec.SplitBuf` | XERN/fs/modentry.h:41-67 | In-place insertion into a block: done if and only if the slack of the last record suffices, and then bytes and records are those of the specification. |
| `DirSpec.CutBuf` | XERN/fs/modentry.h:235-282 | In-place removal from a block: absent, sole, or the records of the specification with exactly that record gone. |
| `DirSpec.InsertFind` | XERN/fs/modentry.h:9-68 | After inserting a name that was absent, that name is found at its new place, and every other name where it was found before, or nowhere as before. |
| `DirSpec.InsertLookup` | XERN/fs/modentry.h:9-68 | Hence lookup gives the new inode number for the new name and the old answer for every other name. |
| `DirSpec.InsertEntries` | XERN/fs/modentry.h:9-68 | The entries after an insertion are the old ones in order with the new one added at its place. |
| `DirSpec.SplitLengths` | XERN/fs/modentry.h:51-64 | In place, only the last record changes: it keeps the smallest multiple of 4 that holds its header and name, and the new record takes exactly what it gave up. |
| `DirSpec.RemoveEntries` | XERN/fs/modentry.h:238-282 | A removal deletes exactly that entry and keeps the order of all others, in all three cases. |
| `DirSpec.WithoutLengths` | XERN/fs/modentry.h:252-278 | Of several records every other one stays as it is, but for one length: the last remaining record takes over the length of the one removed. |
| `DirSpec.RemoveUndoesInsert` | XERN/fs/modentry.h:230-284 | Removing what was just inserted gives the same records with the same lengths in every block, whether the insertion split a record or added a block. |
| `DirSpec.DropBlockKeeps` | XERN/fs/modentry.h:244-251 | A prefix of the blocks, up to one with a sole entry, holds all entries but that one if and only if the block is the last one. |
| `DirBytes.FindInExact` | XERN/fs/utils.h:262-287 | Over all direct blocks the byte comparison finds what looking up by name finds if and only if no record before the first one of that name shadows the name. |
| `DirBytes.ChildView` | XERN/fs/modentry.h:9-68 | The bytes insert_child writes, into the first block with room or a new one, hold the records of the insertion on lists. |
| `DirBytes.ChildUnshadowed` | XERN/fs/modentry.h:9-68 | After an insertion no record shadows q if before it every name was told apart from q by the byte behind it and the two bytes the insertion moves are right. |
| `Directories.FindInode` | XERN/fs/utils.h:262-287 | The scan of the direct blocks returns the inode number of the first accepted record, or 0 if there is none or the inode is no directory; without a shadowing record that is the inode number the names say. |
| `Directories.AddDirBlock` | XERN/fs/modentry.h:21-39 | The first null slot gets a fresh block with the one new record, and i_size grows by a block, if and only if the volume is not full; the invariant holds. |
| `Directories.SplitDirBlock` | XERN/fs/modentry.h:41-67 | If and only if its last record leaves room, the block is rewritten with the new record at its end; no other block changes. |
| `Directories.InsertChild` | XERN/fs/modentry.h:9-68 | The blocks become, byte for byte, those with the new record in the first block that has room or in a new one, and the directory the specified one with the entry inserted; or nothing changed. It is done if and only if a block has room, or fewer than twelve blocks are used and a block is free; each refusal has its exact case. |
| `Directories.DropDirBlock` | XERN/fs/modentry.h:245-251 | The slot is nulled and its block freed wherever it is; bitmap and ownership are exact again, and the walks then see the blocks before it. The volume invariant holds if and only if the slot was the last one: otherwise no length makes the set slots a prefix. |
| `Directories.RemoveChild` | XERN/fs/modentry.h:224-284 | Absent: nothing changes. Present: the directory is the old one without exactly that record, all blocks still chains, no other inode touched; unless the record was alone in a block before the last, when the walks see only the blocks before it. |
| `Directories.SeenAll` | XERN/fs/utils.h:271-275 | On a valid volume a walk that stops at the first null slot sees every block of the directory. |
| `Directories.HoleLoses` | XERN/fs/modentry.h:244-251 | Of the entries, those in the blocks the walks still see are all but the removed one if and only if the block of the sole entry was the last. |
| `Directories.LostName` | XERN/fs/modentry.h:244-251 | A directory of two blocks with one name each: after the first name is removed the walks see no entry at all. |
| `Directories.InsertThenFind` | XERN/fs/modentry.h:9-68 | After inserting an absent name, find_inode returns the new inode number for it and the old answer for every other name, if no record shadows the name looked up. |
| `Directories.InsertThenRemove` | XERN/fs/modentry.h:230-284 | Inserting an absent name that no record will shadow, and removing it, restores the records of every block, the inode with its size, the free blocks and both counters. |
| `Directories.GetDent` | XERN/fs/getdent.h:24-62 | One call returns the name at the offset and moves to the next record, or at the end returns nothing and resets the offset. |
| `Directories.ListDir` | XERN/fs/getdent.h:24-62 | From offset 0, calls until the first 0 return every entry's name once, in chain order across blocks; then the offset is 0 again and the volume unchanged. |
| `Directories.NamesOfEntries` | XERN/fs/getdent.h:37-59 | Those names are the names of the entries that insertion and removal are about, one for each and in their order. |
| `ProcQueue.InsertStable` | XERN/include/queue.h:23-37 | In a queue of descending priority a process lands behind all of its own or higher priority and before all lower ones, and the queue stays sorted. |
| `ProcQueue.DrainSplits` | XERN/include/sync.h:17-33 | wakeup splits a sorted sleep queue into exactly the sleepers on the event, who join the runnable queue one by one, and the rest in their old order. |
| `ProcQueue.WakeLevels` | XERN/include/sync.h:17-33 | After wakeup the runnable queue is sorted and holds at each priority its old members in order and behind them the woken ones in the order they slept in; the others sleep on in theirs. |
| `ProcQueue.LevelsDetermine` | XERN/include/queue.h:23-37 | Two sorted queues that hold the same members in the same order at each priority are equal. |
| `ProcKernel.Kernel.Enqueue` | XERN/include/queue.h:23-37 | The walk over next links gives a list that is the stable insertion, changing no link of any process outside the queue. |
| `ProcKernel.Kernel.AllocProc` | XERN/include/queue.h:6-13 | The head of the free list comes off it, or -1 exactly when the list is empty; the three lists stay disjoint and without cycles. |
| `ProcKernel.Kernel.DallocProc` | XERN/include/queue.h:16-20 | A slot on no list becomes the head of the free list. |
| `ProcKernel.Kernel.Scheduler` | XERN/sysinit.c:5-15 | In the linked table, of the processes queued, with the old current one if it still runs, one becomes current that nobody outranks and that has queued longest among its equals; the others keep their order at every priority. |
| `ProcKernel.Kernel.FallAsleep` | XERN/include/sync.h:9-13 | In the linked table: the current process is marked and joins the sleep queue behind its equals. |
| `ProcKernel.Kernel.Sleep` | XERN/include/sync.h:9-15 | The current process sleeps on the event, and what was the head of the runnable queue runs. |
| `ProcKernel.Kernel.Wakeup` | XERN/include/sync.h:17-33 | The loop that drains one list into two makes every sleeper on the event runnable and nobody else; they join the runnable queue in the order they slept in, and the others sleep on in theirs. |
| `ProcKernel.Kernel.Reparent` | XERN/exit.c:17-26 | Exactly the used children of the current process get init as parent; the count is positive if and only if there is one. |
| `ProcKernel.Kernel.KExit` | XERN/exit.c:3-35 | Process 1 changes nothing. Any other is afterwards a zombie with the value, not current and in no queue; its children, and they alone, have parent 1; asleep on themselves, its parent is woken, and init if and only if there were children; nobody else changes. |
| `ProcKernel.Kernel.WaitTurn` | XERN/wait.c:18-31 | One turn of the loop in kwait: the first zombie child is collected with its status, or the process sleeps on itself and switches. |
| `ProcKernel.Kernel.KWait` | XERN/wait.c:3-33 | -1 at once if and only if there is no child. Otherwise, if and only if a child is dead, the dead child with the lowest pid is collected: its pid and exit code are returned and its slot heads the free list. If none is dead the caller sleeps on itself. |
| `ProcKernel.Kernel.KWaitResumed` | XERN/wait.c:18-31 | A process that was asleep in kwait collects a dead child, if and only if there is one, or sleeps again. |
| `ProcKernel.Kernel.KFork` | XERN/fork.c:5-68 | It succeeds if and only if a slot is free and the copy of the address space succeeded. Then the slot is a runnable child of the caller with its priority, queued behind its equals, and every other slot is unchanged; otherwise the table is exactly as before. |
| `ProcKernel.Kernel.constructor` | XERN/sysinit.c:18-48 | OS_init links all slots in pid order and takes slot 0. |
| `ProcKernel.Kernel.KMain` | XERN/main.c:24-40 | From the initial table through start_init_process and the switch: the booted table. |
| `ProcInvariant.SchedulerIdle` | XERN/sysinit.c:5-15 | The scheduler turns to process 0 only when the queue holds nobody else. |
| `ProcInvariant.WakeupOk` | XERN/include/sync.h:17-33 | wakeup keeps every slot in the one place its state names and both queues sorted. |
| `ProcInvariant.LeaveKeeps` | XERN/exit.c:17-33 | kexit keeps the whole invariant although, between the zombie transition and the wakeups, up to two waiting parents are behind. |
| `ProcInvariant.StepKeeps` | XERN/fork.c:5-68 | Every step a process can make (fork, exit, wait, going on in wait, sleeping, waking) keeps the invariant and finds a process to switch to. |
| `ProcLaws.SchedulerMeans` | XERN/sysinit.c:5-15 | The specified switch takes one that nobody outranks, the longest queued among its equals, and leaves the rest sorted and in order. |
| `ProcLaws.FallAsleepMeans` | XERN/include/sync.h:9-13 | The specified sleeper is marked and behind its equals in the sleep queue; nothing else changes. |
| `ProcLaws.WakeupMeans` | XERN/include/sync.h:17-33 | The specified wakeup makes exactly the sleepers on the event runnable and queues them in the order they slept in. |
| `ProcLaws.SleepOnMeans` | XERN/include/sync.h:9-15 | A process that sleeps on an event is off the queues and what was the head of the runnable queue runs. |
| `ProcLaws.WakeOnMeans` | XERN/include/sync.h:17-33 | A step that wakes the sleepers on a pipe wakes all of them and nobody else. |
| `ProcLaws.ForkMeans` | XERN/fork.c:5-68 | The specified fork takes the head of the free list for a queued child with the caller for a parent, or changes nothing. |
| `ProcLaws.ExitMeans` | XERN/exit.c:3-35 | The specified exit leaves a zombie with the value, hands over exactly the children, and wakes exactly the parent and, with children, init. |
| `ProcLaws.ExitOrder` | XERN/exit.c:28-33 | Those asleep on the parent are queued before those asleep on init, each in the order they slept in, and the head of the queue runs. |
| `ProcLaws.WaitMeans` | XERN/wait.c:3-33 | The specified wait: -1 if there is no child, the dead child with the lowest pid collected, or asleep. |
| `ProcLaws.ResumeMeans` | XERN/wait.c:18-31 | Going on in wait likewise, without the first case. |
| `ProcRuns.BootOk` | XERN/main.c:24-40 | The booted table satisfies the invariant, with init running and process 0 queued. |
| `ProcRuns.NoLostChild` | XERN/wait.c:3-33 | In every state reachable from boot, a process asleep in kwait has a child and none of its children is a zombie. |
| `ProcRuns.OnePlace` | XERN/include/queue.h:6-46 | In every reachable state each slot is in exactly one place: current, runnable queue, sleep queue, free list, or a zombie in none; its state names the place. |
| `ProcRuns.IdleLast` | XERN/sysinit.c:5-15 | In every reachable state process 0 is runnable, a switch never finds an empty queue, and process 0 is current only if no other process is runnable. |
| `ProcRuns.StepTree` | XERN/exit.c:3-35 | Every step of the table is a step of the family tree, in which forks add a living child, exits turn a node dead and hand its children to init, and reaps remove a dead one. |
| `ProcRuns.TraceAccepted` | XERN/exit.c:3-35 | So the observations of any run are accepted by the family tree. |
| `ProcRuns.ReapedOnce` | XERN/wait.c:20-29 | From boot, a reap takes a process whose latest event is its own kexit, hands over the value given there, and is done by the parent of the moment, which is init once the forking parent has left. |
| `ProcRuns.ZombieMeans` | XERN/exit.c:27-28 | From boot, a slot is a zombie with exit code v if and only if its latest event is a kexit(v) not yet collected. |
| `ProcRuns.WholeLife` | XERN/fork.c:5-68 | A run from boot in which all of it happens: init forks process 2 and waits, process 2 exits with a value, and init collects it with that value. |
| `OpenFiles.StepCounted` | XERN/fs/open.h:105-131 | Every open, pipe, dup2, close, fork, exit and switch keeps each entry's refcount equal to the number of descriptors of all processes that refer to it, plus one for the entries lost so far. |
| `OpenFiles.OpenCounted` | XERN/fs/open.h:92-131 | kopen counts its one reference, or loses the entry it took when no descriptor is free. |
| `OpenFiles.PipeCounted` | XERN/pipe.c:9-80 | kpipe counts both ends, or loses the entries it took when the second entry or the descriptors are wanting. |
| `OpenFiles.CloseCounted` | XERN/fs/close.h:5-25 | kclose and close_pipe take back exactly one reference. |
| `OpenFiles.Dup2Counted` | XERN/fs/dup.h:5-22 | kdup2 keeps the counts exact, for all arguments but an open descriptor and itself. |
| `OpenFiles.ForkCounted` | XERN/fork.c:50-64 | kfork counts every reference it copies, also when one entry is held several times. |
| `OpenFiles.ExitCounted` | XERN/exit.c:11-15 | kexit takes back every reference the process held. |
| `OpenFiles.StepKeepsEntry` | XERN/fs/utils.h:141-157 | No step reuses or clears an entry that some descriptor refers to before and after it. |
| `OpenFiles.HeldEntry` | XERN/fs/utils.h:141-157 | Over any run, an entry that is referred to all along keeps its file, mode and pipe. |
| `OpenFiles.RunCounted` | XERN/fs/utils.h:141-157 | Over any run the counts stay exact up to the entries lost, and a lost entry is never handed out again. |
| `OpenFiles.PipeFailsMeans` | XERN/pipe.c:29-62 | kpipe, given a pipe, fails if and only if no entry is free, or one is and no second one, or fewer than two descriptors are empty. |
| `OpenFiles.ExactIff` | XERN/fs/utils.h:153-157 | After any run from exact counts each count is at least the number of references, and all are equal if and only if at no open was an entry free but no descriptor, and at no pipe one entry free but not a second one or not two descriptors. |
| `OpenFiles.ElevenOpens` | XERN/fs/open.h:92-131 | A run from boot that loses an entry: one process opens a file for reading eleven times, and entry 10 keeps a count of 1 that nobody refers to. |
| `OpenFiles.RunSole` | XERN/fs/open.h:77-90 | Over any run no process holds one ordinary file open for change through two entries. |
| `OpenFiles.NothingOpen` | XERN/fs/utils.h:141-157 | The tables at boot have exact counts. |
| `OpenLaws.OpenMeans` | XERN/fs/open.h:77-133 | The specified open: when it succeeds, which descriptor and entry it takes, and what the entry holds. |
| `OpenLaws.PipeMeans` | XERN/pipe.c:9-80 | The specified pipe: when it succeeds, the first descriptor is the reading end and the second the writing end. |
| `OpenLaws.CloseMeans` | XERN/fs/close.h:5-25 | The specified close empties one descriptor and takes back one reference. |
| `OpenLaws.Dup2Means` | XERN/fs/dup.h:5-22 | The specified dup2 makes newfd refer to the entry of oldfd, and changes no other descriptor. |
| `OpenLaws.ForkMeans` | XERN/fork.c:50-64 | The specified fork gives the child the descriptors of the parent, index by index. |
| `OpenLaws.ExitMeans` | XERN/exit.c:11-15 | The specified exit empties all descriptors of one process and takes back exactly its references. |
| `FileTable.Table.constructor` | XERN/sysinit.c:18-51 | The zeroed tables have exact counts. |
| `FileTable.Table.OftAlloc` | XERN/fs/utils.h:141-152 | The first entry of refcount 0 is taken with refcount 1, or -1 if there is none. |
| `FileTable.Table.KOpen` | XERN/fs/open.h:77-133 | Done if and only if the caller does not hold the file open for change already while the new mode would change it too, a descriptor is empty and an entry is free. Then the lowest empty descriptor refers to the lowest free entry, which has count 1, the file, the mode, and for O_APPEND without O_TRUNC on a file open for writing its size as the offset. Otherwise -1, no descriptor changes and no entry in use. |
| `FileTable.Table.KPipe` | XERN/pipe.c:28-79 | Done if and only if two entries are free and two descriptors empty. Then the lowest empty descriptor is the reading end and the next one the writing end, on the two lowest free entries. |
| `FileTable.Table.KClose` | XERN/fs/close.h:5-25 | The descriptor is empty afterwards and its entry has one reference fewer; with the last one an entry that is no pipe end stands for no file. Refused descriptors change nothing. |
| `FileTable.Table.KDup2` | XERN/fs/dup.h:5-22 | newfd refers to the entry oldfd refers to, whose count goes up by one, and the entry newfd referred to loses one reference; every other descriptor and entry stays. It returns newfd, or -1 with nothing changed. |
| `FileTable.Table.ForkFiles` | XERN/fork.c:50-64 | Descriptor i of the child refers to what descriptor i of the parent does, and each count goes up by the number of descriptors copied that refer to it. |
| `FileTable.Table.ExitFiles` | XERN/exit.c:11-15 | All descriptors of the caller are empty and each count falls by the number of them that referred to it; no entry the caller did not hold changes. |
| `PageOps.Memory.constructor` | XERN/include/memory.h:331-367 | With the user half of every page directory null, whatever the frames hold, user memory is sound. |
| `PageOps.Memory.AllocPage` | XERN/include/memory.h:41-59 | The address of the lowest clear frame behind the first 8 MiB, now marked, or 0 exactly when all those frames are marked. |
| `PageOps.Memory.DallocPage` | XERN/include/memory.h:61-76 | An aligned address from 8 MiB to 256 MiB is unmarked; any other is ignored. |
| `UserMemory.AddTable` | XERN/include/memory.h:177-188 | A fresh frame as a page table of one process keeps all user memory sound: each frame has one owner, and each page of everybody keeps its frame and bytes. |
| `UserMemory.AddPage` | XERN/include/memory.h:193-204 | The same for a fresh frame mapped as the next page. |
| `UserMemory.DropPage` | XERN/include/memory.h:130-138 | Unmapping one page frees exactly its frame and disturbs no other page of anybody. |
| `PageOps.Memory.ClrPage` | XERN/include/memory.h:106-150 | Exactly the pages of the range, start and size rounded up, lose their mapping and their frames, across any number of tables; size falls by the range unless it runs into the end of the address space. |
| `PageOps.Memory.AllocUvm` | XERN/include/memory.h:153-215 | It succeeds if and only if the range ends within the address space and the free frames suffice for its pages and missing tables; then exactly the rounded-up range is mapped behind the old end, and nothing older moved. After a failure every page of everybody keeps its frame and bytes, and only tables of this process are newly owned. What is owned stays marked unless the page no frame was left for is the first of a table that got its frame, at most 0x10000000: that table is then free in the bitmap and still in the directory. |
| `PageOps.TableLost` | XERN/include/memory.h:193-201 | A run that ends so: with one free frame, a process without memory asks for one page; the frame of its page table, still in its directory, is free in the bitmap. |
| `UserSpace.GrownFresh` | XERN/include/memory.h:153-215 | The new pages lie in frames that were free, pairwise distinct, and different from the frame of every older page of anybody. |
| `PageOps.Memory.KSbrk` | XERN/sbrk.c:1-36 | All three branches: the old end for 0; growth by the rounded-up amount if and only if frames and addresses suffice, or else -1 with what a failed allocuvm leaves; shrinking by the rounded-up amount, refused with nothing changed below brk_start. |
| `UserSpace.GrowThenShrink` | XERN/sbrk.c:10-34 | Growing and then unmapping exactly the new pages brings back every page of everybody and the bitmap, but for the tables added and the frames above 0x10000000. |
| `PageOps.Memory.GrowAndShrink` | XERN/sbrk.c:10-34 | ksbrk(n) and then ksbrk(-n), run one after the other, do just that, and restore all sizes; only tables of the process are newly owned. |
| `PageOps.Memory.CopyUvm` | XERN/include/memory.h:258-327 | It succeeds if and only if the free frames suffice for one frame a mapped page and one a table. Then the child has twins of all pages of a parent with one guard page, in new frames, with the parent's size, and nothing else changed. |
| `UserSpace.CopiedMeans` | XERN/include/memory.h:258-327 | Page by page: a guard where the parent has one, otherwise equal bytes in a frame that was free and that no other page of anybody uses; the parent's and all other pages are as they were. |
| `Paths.RemoveMultipleSlashes` | XERN/include/libgen.h:5-23 | The loop gives the path with runs of slashes made one and a trailing slash removed. |
| `Paths.NormIsNormal` | XERN/include/libgen.h:5-23 | The result never has two slashes in a row nor a slash at the end of more than one character, and a path like that is left alone. |
| `Paths.NormIs` | XERN/include/libgen.h:5-23 | The result is the names of the path joined by single slashes, behind a slash if there was one in front. |
| `Paths.BrkPath` | XERN/fs/utils.h:161-197 | The pointer walk finds the pieces between slashes, cut at 255 characters, with the rest as one last piece once 255 are found. |
| `Paths.BrokenJoins` | XERN/fs/utils.h:161-197 | For every path that fits the table, the components joined by slashes are the path without surplus slashes. |
| `Paths.PiecesAre` | XERN/fs/utils.h:161-197 | The pieces are the texts between the slashes, in order. |
| `Paths.Basename` | XERN/include/libgen.h:26-46 | What stands behind the last slash. |
| `Paths.Dirname` | XERN/include/libgen.h:48-77 | What stands before the last slash, with the three special cases. |
| `Paths.Rejoin` | XERN/include/libgen.h:26-77 | For a path with a slash, other than "/", dirname and basename rejoin to it, and its components are those of the directory followed by the base. |
| `Paths.PartsAlone` | XERN/include/libgen.h:26-77 | The root has itself for both parts; a path without a slash is its own base, in ".". |
| `Paths.SearchInode` | XERN/fs/utils.h:359-380 | The loop is the walk over the components from the root or the working directory, stopping at the first that is not found. |
| `Paths.SearchByParts` | XERN/fs/utils.h:359-380 | If the last component is not "root" and dirname resolves, looking up the path is looking up basename in what dirname resolves to. |
| `Paths.SearchStart` | XERN/fs/utils.h:359-380 | An absolute path is looked up from the root whatever the working directory, a relative one from the working directory, and the name "root" is the root. |
| `Paths.SearchStep` | XERN/fs/utils.h:371-377 | Each further name is looked up in what the names before it resolve to. |
| `Formats.StoredWord` | XERN/include/ext2.h:5-50 | Words and half-words are stored with their lowest byte first. |
| `Formats.BitIs` | XERN/fs/utils.h:13-27 | Bit k of a byte is its k-th binary digit. |
| `Formats.MapBit` | XERN/fs/utils.h:13-27 | Bit i of the block bitmap, and of the frame bitmap, is digit i % 8 of byte i / 8. |
| `Formats.Counters` | XERN/include/ext2.h:5-63 | The two free-block counters are bytes 12 to 15 of the superblock, which starts at byte 1024 of the volume, and bytes 12 and 13 of block 1. |
| `Formats.InodeFields` | XERN/include/ext2.h:65-82 | i_size, i_blocks and i_block are the words at bytes 4, 28 and 40 of an inode; it is a directory when the highest hexadecimal digit of its mode is 4. |
| `Formats.InodePlace` | XERN/fs/file.h:195-201 | Inode n starts (n - 1) x 128 bytes behind the start of the inode table. |
| `Formats.RecordFields` | XERN/include/ext2.h:84-91 | Inode number, record length, name length and name of a record are at bytes 0, 4, 6 and 8. |
| `Formats.TreeShape` | XERN/fs/file.h:73-176 | Positions 12 to 523 hang below i_block[12] and the next ones, 512 a table, below i_block[13]; entry k of a table is the word at byte 4k. |
| `Formats.Sectors` | XERN/include/param.h:20 | A block counts as four sectors in i_blocks. |
| `Formats.PageWords` | XERN/include/memory.h:177-204 | A directory word is the address of the frame with 0x31, a table word with 0xFFE, and both give back the frame. |
| `Formats.PageSlot` | XERN/include/memory.h:177-204 | The word of the page at an address is found by the address alone: MiB from 2048 on in the directory, then its 4 KiB in the table. |

## Left out

- The SD card, UART and timer drivers, interrupt handling and assembly: `getblock` and `putblock` are reads and
  writes of the sequence of blocks, and `switch_context` is the scheduler's step.
- Indirect and double-indirect directory blocks: inserting there does not write the pointer table back.
- In-memory inodes as a cache: an inode is one object, the root inode included, and unlinking a file that is still
  open is not modelled.
- The inode bitmap, creating and unlinking files: they only combine allocation with directory insertion and removal.
- Files beyond the last double-indirect position, and offsets behind the end of a file: the code has no check there.
- The comparison of a name that would read behind the last byte of a block counts as unequal.
- Permission checks, chmod, chown, stat, readlink, getcwd: readings of single fields.
- The pipe ring buffer and its reader and writer counts: a pipe is an event processes sleep on and an id an
  open-file entry carries.
- In `kopen`, an empty descriptor never stands for the file being opened; the code reads through a null pointer there.
- `kopen` with O_TRUNC also calls `free_iblocks`, which is modelled with the storage and not repeated with the tables.
- Process 0 after it has handed over to init: once it is scheduled it only idles, so it makes no step.
- Signals, `kexec`, ELF loading and the copying of registers.
- In `OS_init` the inner loop clears descriptor `i` of slot `i` ten times instead of all ten; descriptors are taken to start empty.
- `freeuvm` and the state of the child when `copyuvm` runs out of frames: they read table words nobody has set.
- PageOps.Memory.CopyUvm: says when frames run out but not what the child is then, because the clean-up reads unset words. It requires the guard page not to be the last page, as the stack lies above it, and a child whose directory names no tables, as every free slot's does.
- FileSystem.Ext2.constructor: takes the geometry and the inodes as given; `FS_init` and `get_inode`, which read them off the superblock, the group descriptor and the inode table, are not modelled.
- FileSystem.Ext2.MapBlock: is for positions up to the end of the mapped prefix and within the double-indirect range, because the code has no check there and writes past its tables.
- FileSystem.Ext2.WriteFile: likewise for offsets up to the end of the mapped prefix and writes that end within the double-indirect range.
- VolumeRuns.ApplyFile: skips a write that would pass the largest file.
- VolumeRuns.Run: skips what `ApplyFile` skips, operations behind the end of a file, and removals that would leave a null slot before a set one, because the invariant does not survive those (`Directories.RemoveChild` says what does).
- Directories.RemoveChild: when it leaves a null slot before a set one, what later operations do with that directory is not modelled.
- Directories.InsertThenRemove: is for names of up to 255 characters; `insert_child` cuts a longer one and `remove_child` does not.
- ProcKernel.Kernel.KExit: leaves the closing of descriptors to the open-file part; a wakeup that comes with it is a step of its own.
- ProcKernel.Kernel.KMain: leaves out loading the init image and the exits when that fails.
- OpenFiles.StepCounted: leaves out opens whose flags equal the mode of a pipe end (such as a directory opened as such) and duplicating an open descriptor onto itself, where the code goes through a null or stale pointer.
- OpenFiles.Dup2Counted: leaves out duplicating an open descriptor onto itself, for the same reason.
- Paths.SearchInode: is for paths that are not empty; for an empty one the code looks at what the previous call left in the table. `find_inode` is a parameter there.
- Sizes are unbounded integers except where words, bytes, counters and record lengths are stored; arguments near 2^31 that would overflow in the rounding of a size are not modelled.
