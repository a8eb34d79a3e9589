# A verified model of xv6 (RISC-V)

This project models the parts of the xv6 kernel and its user library whose correctness
is not visible in any one function, and proves what they promise. Every result is for
all inputs, all runs or all reachable states. `dafny verify dfyconfig.toml` checks it.

Code that updates things in place is modelled by classes, arrays and loops, each method
proved against a specification; protocols are modelled as state machines over any number
of processes, any interleaving and, for the log, a power failure at any step.

**The write-ahead log.** `Journal` says what `commit` and `recover_from_log` write, block
by block, and proves crash atomicity for a crash between any two writes, repeated crashes
during recovery included. `Log` is `log.c`'s object, whose loops issue exactly those
writes. `LogProtocol` adds `begin_op`, `log_write` and `end_op` of any number of processes,
and `LogSafety` proves over whole runs that recovery always delivers whole operations,
that committed ones stay, that the reservation of log space is kept, that only a full log or
a full buffer cache can panic, and that no process sleeps in `begin_op` without having to.
`LogRuns` says what is recovered and what `bread` shows in terms of the schedule's `log_write`
events alone, and that the last `end_op` commits by its own steps.
`LogBudget` settles, for every log size and number of processes, when operations that keep to
their budget can make the kernel panic, and shows that operations which keep to it by
themselves, as those of `FileSystem` do, keep to it together.

**The buffer cache.** `BufferCache` keeps the LRU ring through its real pointer updates,
has a sleep lock on every buffer, records every disk write and refines an uncached disk.
`CachedLog` runs `begin_op`, `log_write`, `end_op` and `commit` on that cache: the same disk
writes in the same order, so the same crash points, and a panic exactly if every buffer is
pinned.

**Files.** `FsState` is the invariant of bitmap, inodes and block maps, with a ghost owner
for every block; `FileSystem` is `fs.c` and the inode branch of `filewrite`. `readi` and
`writei` refine a plain byte sequence per file, `itrunc` frees exactly what the file owns,
and each operation of `filewrite`, from `begin_op` to `end_op`, logs at most MAXOPBLOCKS
blocks and never calls `log_write` after that many. `WriteLimits` says how far a write gets
when the disk or the user's memory does not last, in terms of the state before the call.
Every block that an operation changes is listed in the log, but for one in which a user copy
failed, and `Committed` proves that `end_op` commits exactly the bytes that `write` reports if
the disk agreed with the buffers before.

**Address spaces.** `Paging` gives every physical page one role (free, page-table node,
user page, held) and `VirtualMemory` is `vm.c`, `kalloc.c` and the page-table part of
`proc.c` (`growproc` and the memory of `fork`), out-of-memory and panic paths included:
translations change exactly where asked, calls fail exactly when the pages and tables they
need are more than the free pages, failed calls are rolled back, and no page is lost or used
twice.

**Processes.** `SleepLock` and `ExitWait` model sleep, wakeup and kill lock by lock: no
lost wakeup, mutual exclusion, no sleep over a zombie, every zombie reaped at most once, with
the argument of its own call of `exit`. `ExitWaitRuns` and the end of `SleepLock` show that
each call does its work by its own steps: `releasesleep` frees the lock and leaves nobody
asleep, `exit` leaves a zombie and hands over the children, `wait` reaps, gives up or sleeps.

**Devices, pipes and user programs.** `VirtioDisk`, `VirtioSafety` and `VirtioRuns` are the
disk driver against its device, which carries out what was asked, once; `Pipe` is the pipe's
ring with wrapping counters; `HeapArena` and `UserHeap` are malloc and free; `Grep` is the
matcher and the line buffer; `ShellSyntax` and `ShellParser` are the shell's parser, with a
round trip, and `ShellGrammar` gives its language by derivations: a line is accepted exactly
if it has one, as the tree of that derivation.

Names follow the source: `Uvmcopy` is `uvmcopy`. A precondition of a method is what the
kernel demands of its callers, mostly where it would panic otherwise. User copies, device
answers, `sbrk`'s answer and the sizes that `read` returns are parameters or arbitrary
choices. `Valid`, `Inv` and the predicates they are made of state the invariants.

Where the code and its comments or constants disagree, the model follows the code:

- `begin_op` reserves LOGSIZE data blocks, but `mkfs` makes the log LOGSIZE blocks long
  with its header, and `log_write` panics at `log.size - 1` entries (Shell/kernel/log.c:220).
  For operations that stop calling `log_write` once they have added MAXOPBLOCKS blocks,
  `LogBudget.BudgetSafeIff` proves that this panic is out of reach exactly if the log has more
  than LOGSIZE blocks, or more than MAXOPBLOCKS with a single process.
- `log_write` looks for a full log before it looks for a block to absorb, so it panics on a
  block that is already listed too (`Log.Log.LogWrite`). Operations that add at most
  MAXOPBLOCKS blocks but may log them again are therefore not safe with any log size as soon as
  there are two processes (`LogBudget.RelogPanicIff`).
- NBUF equals LOGSIZE, and a listed block pins its buffer. A transaction of LOGSIZE blocks
  leaves `write_log` no buffer, and `bget` panics. With two processes and operations inside
  their budget some run panics whatever the log size (`LogBudget.BudgetPanicIff`,
  `CachedLog.CachedLog.Commit`).
- A `writei` whose user copy fails inside a block reports only whole pieces, but the bytes
  that were copied are in the cached block, not logged. `WriteLimits.EndsExactly` says exactly
  when that happens, and `FileSystem.StrayByte` is a run of it: a write of two bytes returns 0
  and has changed the file. Such bytes are not committed with that write, but with the next one
  to the same block (`FileSystem.StrayCommitted`).
- `malloc` takes a 32-bit size and `morecore` passes the size in bytes to `sbrk(int)`. From
  0x7FFFFFE1 bytes on the argument is negative or too small, `sbrk` moves the break elsewhere
  than assumed, and the block handed out is not backed (`UserHeap.SoundRequests`,
  `UserHeap.HugeRequest`).
- `grep` silently stops at the first line that does not fit its buffer or holds a NUL, and
  never prints a last line without a newline; `Grep.AllPrintedIff` and `Grep.NothingLostIff`
  say for which files it prints every matching line.

## Model

| member | source | states |
|---|---|---|
| Blocks.PutGetWord | Shell/kernel/log.c:105-113 | a 32-bit word stored little-endian in a block is read back, and every other word of the block is unchanged |
| Blocks.SetGetBit | Shell/kernel/fs.c:73-77 | setting bit i of a bitmap block sets that bit and leaves all others |
| Blocks.ClearGetBit | Shell/kernel/fs.c:99-102 | clearing bit i clears that bit and leaves all others |
| Blocks.BitLayout | Shell/kernel/fs.c:73-76 | bit i is worth 2^(i % 8) in byte i / 8, and no other byte changes |
| Journal.HeadRoundTrip | Shell/kernel/log.c:86-114 | the count is word 0 and entry i word i + 1; read_head after write_head gives the same block list, whatever the header block held before |
| Journal.RecoveryCrash | Shell/kernel/log.c:116-123 | a crash after any number of recovery's own writes leaves a disk whose recovery delivers the same home blocks |
| Journal.RepeatedCrashes | Shell/kernel/log.c:68-123 | however often recovery is interrupted, a completed one delivers the home blocks that an uninterrupted recovery of the first disk would have |
| Journal.SealedRecovers | Shell/kernel/log.c:178-203 | once the header is out, recovery gives every logged home block its new content and leaves the others |
| Journal.CommitCrash | Shell/kernel/log.c:178-203 | after the first k writes of a commit recovery delivers all old home blocks if k is at most the number of logged blocks, all new ones otherwise |
| Journal.CommitCompletes | Shell/kernel/log.c:193-203 | a finished commit has installed every logged block and left the on-disk log empty |
| Journal.RedoAfterPrefix | Shell/kernel/log.c:68-83 | installing again after an interrupted install gives what installing once gives |
| Log.Log.WriteLog | Shell/kernel/log.c:178-191 | issues exactly the log writes of Journal, in order, and changes nothing else |
| Log.Log.WriteHeader | Shell/kernel/log.c:102-114 | one write, which changes only the count and the first n entries of the header block |
| Log.Log.InstallTrans | Shell/kernel/log.c:68-83 | issues exactly the install writes, in order, and leaves nothing pinned |
| Log.Log.ReadHeader | Shell/kernel/log.c:86-97 | the in-memory list becomes the on-disk list |
| Log.Log.RecoverFromLog | Shell/kernel/log.c:116-123 | issues exactly the recovery writes and ends with an empty log in memory and on disk |
| Log.Log.constructor | Shell/kernel/log.c:54-65 | boot: from any disk a crash can leave, recovery has been carried out |
| Log.Log.CommitBlocks | Shell/kernel/log.c:196-202 | the four parts of commit issue exactly the commit writes |
| Log.Log.Commit | Shell/kernel/log.c:193-203 | every crash point is safe in the sense of CommitCrash, and each home block reads afterwards as before the call |
| Log.Log.LogWrite | Shell/kernel/log.c:214-235 | exactly when it panics; otherwise the block is listed, no block twice, pinned, and read back with its new data while all others read as before |
| Log.Log.BeginOp | Shell/kernel/log.c:126-142 | waits exactly while the list and a budget for every operation exceed LOGSIZE |
| Log.Log.EndOp | Shell/kernel/log.c:146-175 | the last operation out commits all listed blocks, an earlier one writes nothing; no home block reads differently |
| Log.CommitCrashSafe | Shell/kernel/log.c:193-203 | CommitCrash for every crash point at once |
| LogProtocol.CountUpdate | Shell/kernel/log.c:126-175 | how the counts of operations, reservations and committers change when one process moves |
| LogProtocol.OneCommitter | Shell/kernel/log.c:153-165 | two processes in commit are the same process |
| LogProtocol.ClaimsAtLeast | Shell/kernel/log.c:133-140 | the reserved space covers each operation's unused budget and is at most MAXOPBLOCKS per operation |
| LogSafety.StepKeepsInv | Shell/kernel/log.c:68-235 | every step of every process, of commit, of recovery, and a crash keep the protocol invariant |
| LogSafety.TryBeginCounts | Shell/kernel/log.c:126-142 | begin_op keeps the space reservation and leaves nobody asleep who need not be |
| LogSafety.LogWriteSpace | Shell/kernel/log.c:214-235 | log_write happens only inside an operation and outside commit, and stays within the reservation |
| LogSafety.EndOpCounts | Shell/kernel/log.c:146-175 | end_op finds no commit running, starts one only as the last operation, and wakes whom it must |
| LogSafety.CommitWriteDurable | Shell/kernel/log.c:178-203 | each disk write of commit keeps what a recovery would deliver, and the header write moves all logged updates into it at once |
| LogSafety.CommitReturnsDurable | Shell/kernel/log.c:165-174 | when the committing end_op returns every update logged so far is committed |
| LogSafety.CrashAtomicity | Shell/kernel/log.c:68-235 | in every reachable state, a recovery from the present disk delivers the initial home blocks with exactly the committed updates replayed, and no operation is committed in part |
| LogSafety.Durability | Shell/kernel/log.c:68-235 | what is committed stays committed, in the same order, through every later step and crash |
| LogSafety.UpInvariant | Shell/kernel/log.c:126-235 | while up, bread sees all logged updates in order; list length plus unused reservations is at most LOGSIZE; commit runs with no operation outstanding; no operation and no commit means an empty list; when a process sleeps in begin_op, a commit runs or the list and one more budget exceed LOGSIZE |
| LogSafety.OnlySpacePanics | Shell/kernel/log.c:146-235 | in every run the only panics are the full log and the full buffer cache; "log_write outside of trans" and "log.committing" are out of reach |
| LogRuns.StepReads | Shell/kernel/log.c:178-235 | every step changes the updates and their safe part as the event says: log_write adds its own, the header write saves all, a crash loses the rest |
| LogRuns.RecoversSchedule | Shell/kernel/log.c:68-235 | in every run a recovery from the present disk delivers the initial home blocks with exactly those log_writes of the schedule, in order, that came before the last header write, whole operations all of them |
| LogRuns.BreadShowsSchedule | Shell/kernel/log.c:205-235 | while up, bread shows the log_writes of the schedule that no crash lost, the later over the earlier |
| LogRuns.LogWriteShows | Shell/kernel/log.c:214-235 | panics exactly on a full log; otherwise bread shows the new data, listed before or not, every other block is as before, and the update is recorded |
| LogRuns.BeginExactly | Shell/kernel/log.c:126-142 | admits an operation exactly if no commit runs and the list and a budget for every operation fit LOGSIZE |
| LogRuns.KilledSleepsAgain | Shell/kernel/log.c:126-142 | a process killed asleep in begin_op tests again and sleeps again |
| LogRuns.DiskByPlan | Shell/kernel/log.c:178-203 | the disk changes only by the next write of a commit or of recovery; a crash leaves it alone |
| LogRuns.LastEndOpCommits | Shell/kernel/log.c:146-203 | in every run the last end_op, unless all buffers are pinned, commits and returns by its own steps alone, with every update durable and installed and the log empty |
| LogSafety.BudgetedWriteFits | Shell/kernel/log.c:219-223 | with more than LOGSIZE log blocks an operation inside its budget meets neither panic of log_write |
| LogBudget.RoomyLogFits | Shell/kernel/log.c:219-220 | with more than LOGSIZE log blocks no run of operations inside their budget reaches log_write's "too big a transaction" |
| LogBudget.LoneBudgeted | Shell/kernel/log.c:126-235 | a single process inside its budget meets no panic at all if the log has more than MAXOPBLOCKS blocks |
| LogBudget.LoneRuns | Shell/kernel/log.c:126-235 | nor does it if it may log blocks again and the log has one block more |
| LogBudget.FillTwo | Shell/kernel/log.c:126-142 | two processes log LOGSIZE distinct blocks in three operations inside their budget, unless log_write panics on the way |
| LogBudget.Relog | Shell/kernel/log.c:219-226 | with a full list, logging a listed block again panics |
| LogBudget.CommitFull | Shell/kernel/log.c:178-184 | a transaction of LOGSIZE blocks ends in bget's panic when it commits |
| LogBudget.NewToOp | Shell/kernel/log.c:225-233 | a block that is not listed was not logged before by the running operation |
| LogBudget.StepAccounted | Shell/kernel/log.c:126-235 | in every step a running operation is charged for no more blocks than it would list alone |
| LogBudget.FrugalIsBudgeted | Shell/kernel/log.c:126-142 | operations that, each taken alone, never call log_write once they have listed MAXOPBLOCKS blocks stay inside the reservation together, in any interleaving, with any absorption and any crash |
| LogBudget.FrugalSoFar | Shell/kernel/file.c:149-156 | every call of an operation recorded by FileSystem as in budget meets that condition |
| LogBudget.BudgetSafeIff | Shell/kernel/log.c:133-220 | runs of operations inside their budget never reach "too big a transaction" if and only if the log is longer than LOGSIZE blocks, than MAXOPBLOCKS for one process |
| LogBudget.FrugalSafe | Shell/kernel/log.c:126-220 | so such operations never reach "too big a transaction" if the log is longer than LOGSIZE blocks, than MAXOPBLOCKS for one process |
| LogBudget.BudgetPanicIff | Shell/kernel/param.h:9-11 | such runs meet no panic whatever if and only if there is at most one process and, with one, the log has more than MAXOPBLOCKS blocks |
| LogBudget.RelogPanicIff | Shell/kernel/log.c:214-235 | if operations may also log their blocks again, "too big a transaction" is out of reach if and only if there is at most one process and, with one, the log has more than MAXOPBLOCKS + 1 blocks |
| BufferCache.UnlinkKeeps | Shell/kernel/bio.c:125-133 | taking a buffer out of the doubly linked list leaves a ring of exactly the others in the same order |
| BufferCache.PushKeeps | Shell/kernel/bio.c:45-52 | putting a buffer behind the head gives a ring with it first and the others in the same order |
| BufferCache.BufferCache.constructor | Shell/kernel/bio.c:36-53 | every buffer is on the ring, unused, and the cache stands for the disk's content |
| BufferCache.BufferCache.Find | Shell/kernel/bio.c:66-73 | the scan of the ring finds the buffer of a block if and only if there is one |
| BufferCache.BufferCache.FindUnused | Shell/kernel/bio.c:77-86 | the unused buffer whose release is longest ago, or none if all are in use |
| BufferCache.BufferCache.Bget | Shell/kernel/bio.c:58-89 | the block's buffer with one more reference, or the least recently released unused one recycled, or the panic exactly if all others are in use; locked by the caller unless another process holds the lock; a referenced buffer is never recycled |
| BufferCache.BufferCache.Resume | Shell/kernel/sleeplock.c:21-31 | a waiter gets the buffer's lock exactly if it is free |
| BufferCache.BufferCache.Bread | Shell/kernel/bio.c:92-103 | a buffer locked by the caller with the content of the uncached disk, unless another process holds its lock; no content and no other buffer changes |
| BufferCache.BufferCache.Update | Shell/kernel/bio.c:58-112 | a holder's change of data is a change of that one block of the uncached disk |
| BufferCache.BufferCache.Bwrite | Shell/kernel/bio.c:106-112 | the disk's copy of the block catches up and the write is recorded, nothing else changes; panics exactly if the caller does not hold the lock |
| BufferCache.BufferCache.Bpin | Shell/kernel/bio.c:139-144 | one more reference, all else unchanged |
| BufferCache.BufferCache.Bunpin | Shell/kernel/bio.c:146-151 | one reference less; the cache stays coherent if a changed block is not let go before it is written |
| BufferCache.BufferCache.Brelse | Shell/kernel/bio.c:116-137 | unlocked, one reference less, and with the last one the buffer becomes the most recently released, the others keeping their order; panics exactly if the caller does not hold the lock |
| CachedLog.ExhaustedIff | Shell/kernel/bio.c:66-88 | bget finds no buffer for an unpinned block exactly if as many blocks are pinned as there are buffers |
| CachedLog.CachedLog.LogBlock | Shell/kernel/log.c:184-189 | a pinned block's content goes to its log slot through two held buffers, in one write; panics exactly if all buffers are pinned, before any write |
| CachedLog.CachedLog.InstallBlock | Shell/kernel/log.c:74-81 | the slot goes to the home block in one write, and the block is unpinned; all other buffers rest as before |
| CachedLog.CachedLog.WriteHeader | Shell/kernel/log.c:102-114 | one write of the header block through the cache |
| CachedLog.CachedLog.WriteLog | Shell/kernel/log.c:178-191 | issues exactly the log writes of Journal, in order, with the cached content, or panics before the first exactly if NBUF blocks are listed |
| CachedLog.CachedLog.InstallTrans | Shell/kernel/log.c:68-83 | issues exactly the install writes, in order, and leaves nothing pinned or behind |
| CachedLog.CachedLog.Seal | Shell/kernel/log.c:196-198 | the log blocks come first and the header last, exactly the writes of Journal |
| CachedLog.CachedLog.Finish | Shell/kernel/log.c:199-201 | the install writes come first and the empty header last |
| CachedLog.CachedLog.BeginOp | Shell/kernel/log.c:126-142 | waits exactly while the list and a budget for every operation exceed LOGSIZE |
| CachedLog.CachedLog.EndOp | Shell/kernel/log.c:146-175 | the last operation out issues exactly the commit writes, an earlier one none; every home block reads as before; panics exactly if it is the last and NBUF blocks are listed |
| CachedLog.CachedLog.LogWrite | Shell/kernel/log.c:205-235 | bread, change, log_write, brelse: which of three panics happens and when; otherwise the block is listed once and pinned, and only its content changed |
| CachedLog.CachedLog.Commit | Shell/kernel/log.c:193-203 | panics exactly if NBUF blocks are pinned, before any write; otherwise exactly the commit writes of Journal in order, every crash point among them safe, and every home block reads as before |
| Inodes.InodeRoundTrip | Shell/kernel/fs.c:225-241 | an inode written to its slot of an inode block is read back by ilock, and the other slots are unchanged |
| Inodes.InodeLayout | Shell/kernel/fs.h:32-42 | where each field of an inode is in its block, byte by byte, and that no other word changes |
| FsState.NoSharing | Shell/kernel/fs.c:376-421 | no disk block is referenced from two places |
| FsState.WithAddrInv | Shell/kernel/fs.c:388-402 | filling an empty direct or indirect pointer with a newly allocated block keeps the ownership invariant |
| FsState.WithEntryInv | Shell/kernel/fs.c:405-415 | filling an empty entry of the indirect block does too |
| FsState.WithDataInv | Shell/kernel/fs.c:521-527 | writing a mapped data block does too |
| FsState.EmptySum | Shell/kernel/fs.c:382-421 | after some empty pointers were filled, what a larger set of pointers still needs is the difference |
| FsState.FilledMore | Shell/kernel/fs.c:382-421 | filling in two steps is filling in one: each empty pointer costs one free block, no other pointer changes between set and unset |
| FsState.TruncatedInv | Shell/kernel/fs.c:425-453 | freeing a file's blocks does too |
| FsState.FinishedContent | Shell/kernel/fs.c:529-536 | with the size updated, the file is its old bytes with the written bytes spliced in, cut at its size |
| FsState.FormattedInv | Shell/mkfs/mkfs.c:110-111 | a freshly made disk satisfies the invariant and stores every inode |
| Committed.TrailNext | Shell/kernel/fs.c:517-527 | one turn of writei lists no block of the file but its own |
| Committed.LeftBehind | Shell/kernel/fs.c:521-524 | bytes of a failed copy are in a new block, which is listed, or in an old one, which is not |
| Committed.Restored | Shell/kernel/fs.c:521-524 | with its old content back in that block, the file is as if only the reported bytes had been written |
| Committed.Commits | Shell/kernel/file.c:157-167 | if the disk agreed with the buffers, end_op leaves exactly the reported bytes in the file on disk, and agrees again if there are no others |
| WriteLimits.AffordsNext | Shell/kernel/fs.c:517-520 | with the earlier blocks in place, the next piece of a write can be had exactly if the whole up to it could at the beginning |
| WriteLimits.EndsExactly | Shell/kernel/fs.c:517-539 | writei writes all exactly if user memory and disk last; it leaves bytes that it does not report exactly if user memory ends inside a block that the disk has for it; while the disk lasts, what it reports ends at the last block boundary before the end of user memory |
| WriteLimits.EndsShift | Shell/kernel/file.c:157-172 | where writei ends on a later chunk, in terms of the state before the first |
| WriteLimits.FileEndsExactly | Shell/kernel/file.c:148-175 | filewrite writes all exactly if offset and length are good and user memory and disk last |
| FileSystem.FileSystem.constructor | Shell/mkfs/mkfs.c:235-248 | a fresh disk: exactly the blocks before the data area are in use, all files are empty, the invariant holds |
| FileSystem.FileSystem.Put | Shell/kernel/log.c:214-235 | a block changes and is listed, inside an operation only; the call joins the record of the operation; blocks that are not listed stay as they are |
| FileSystem.FileSystem.EndOp | Shell/kernel/log.c:146-175 | the listed blocks are committed as they are and no others; the operation is recorded with its calls of log_write |
| FileSystem.FileSystem.Balloc | Shell/kernel/fs.c:65-88 | the first free block, marked, zeroed and logged; 0 exactly when every block is in use |
| FileSystem.FileSystem.Bfree | Shell/kernel/fs.c:91-105 | clears the block's bit and no other; panics exactly on a free block |
| FileSystem.FileSystem.Iupdate | Shell/kernel/fs.c:225-241 | the on-disk inode becomes the in-memory one |
| FileSystem.FileSystem.MapAddr | Shell/kernel/fs.c:387-402 | a pointer that is set stays; an empty one gets a block of its own, which costs exactly one free block, or 0 comes back exactly if there is none |
| FileSystem.FileSystem.MapEntry | Shell/kernel/fs.c:403-415 | the same for an entry of the indirect block |
| FileSystem.FileSystem.Bmap | Shell/kernel/fs.c:382-421 | the file's block, allocated if missing; 0 exactly if the missing block and indirect block are more than the free blocks; nothing mapped moves or changes; what it costs in disk and log blocks |
| FileSystem.FileSystem.FreeDirect | Shell/kernel/fs.c:429-434 | exactly the direct blocks are freed and bfree never panics |
| FileSystem.FileSystem.FreeIndirect | Shell/kernel/fs.c:436-447 | so are the indirect blocks and then the indirect block itself |
| FileSystem.FileSystem.Itrunc | Shell/kernel/fs.c:425-453 | the file is empty, exactly the blocks it owned are free, bfree never panics, no other file changes; every block that changed is listed in the log |
| FileSystem.FileSystem.Readi | Shell/kernel/fs.c:471-496 | exactly the file's bytes from off, clipped at its end, or -1 if the copy fails; it allocates, logs and changes nothing |
| FileSystem.FileSystem.WriteLoop | Shell/kernel/fs.c:517-527 | a prefix of the data is written and nothing else changes; it ends exactly where disk or user memory end, as WriteEnds says; every block that changed is listed but for the one in which a copy failed; how many log blocks it takes |
| FileSystem.FileSystem.Writei | Shell/kernel/fs.c:505-539 | the file is its old bytes with a prefix of the data spliced in at off and extended by what is returned; what is returned and what is left behind, exactly; no other file changes; every block that changed is listed but for the one in which a copy failed, which there is exactly if bytes are left behind; -1 exactly for a bad offset or a file too long; how much the log holds at each log_write |
| FileSystem.FileSystem.WriteOp | Shell/kernel/file.c:162-167 | one operation, begun and ended, that keeps to its budget, with the effect of writei: -1 in the same cases, the same bytes, short in the same cases; if the disk agreed with the buffers, the file on disk gets exactly the reported bytes, and the disk agrees again unless a copy failed inside a block |
| FileSystem.FileSystem.FileWrite | Shell/kernel/file.c:148-175 | every operation since the call logged at most MAXOPBLOCKS blocks and no log_write came after that many; w bytes end up spliced into the file, all of them, with n returned, exactly if offset, length, user memory and disk allow; otherwise it ends where FileEnds says; no other file changes; if the disk agreed with the buffers, exactly these w bytes are committed |
| FileSystem.StrayByte | Shell/kernel/fs.c:521-524 | a run on a fresh disk: file 0 reads [7]; writei of two bytes, the second not accessible, returns 0; the file reads [1] |
| FileSystem.StrayCommitted | Shell/kernel/fs.c:521-526 | a run: the file on disk is [7, 8]; a write of two bytes returns 0 and leaves it so; a write of one byte behind the first makes it [1, 9] |
| FileSystem.GoesOn | Shell/kernel/file.c:162-172 | one more full chunk keeps filewrite on the way that CanWrite describes |
| FileSystem.ChunkFits | Shell/kernel/file.c:156 | a chunk of three blocks at any offset costs at most MAXOPBLOCKS log blocks |
| FileSystem.BillGrows | Shell/kernel/file.c:149-156 | how the bill of data, bitmap and indirect blocks grows with one block written |
| Paging.PteFields | Shell/kernel/riscv.h:341-352 | page, flags and kind are recovered from an entry made from them |
| Paging.SetLeafLookup | Shell/kernel/vm.c:85-103 | distinct pages below MAXVA have distinct entries: setting one changes no other translation |
| Paging.MappedInv | Shell/kernel/vm.c:156-158 | mapping a held page keeps the invariant of roles, tables and translations |
| Paging.AddNodeInv | Shell/kernel/vm.c:95-99 | hanging a new table into the tree does too |
| VirtualMemory.PlacedOnce | Shell/kernel/kalloc.c:46-82 | a page is on the free list, or is one table of one page table, or backs one user page, or is held; never two of these and never in two places |
| VirtualMemory.Memory.constructor | Shell/kernel/kalloc.c:26-31 | all pages are free |
| VirtualMemory.Memory.FreeRange | Shell/kernel/kalloc.c:33-40 | exactly the pages of the range become free |
| VirtualMemory.Memory.Kfree | Shell/kernel/kalloc.c:46-63 | the page goes to the front of the free list, threaded through its own memory |
| VirtualMemory.Memory.Kalloc | Shell/kernel/kalloc.c:68-82 | the first free page, filled with 5; 0 exactly when there is none |
| VirtualMemory.Memory.WalkOnly | Shell/kernel/vm.c:85-103 | finds the level-0 table of a page if and only if there is one |
| VirtualMemory.Memory.Walk | Shell/kernel/vm.c:85-103 | makes exactly the missing tables; fails exactly if they are more than the free pages, and no translation has changed then |
| VirtualMemory.Memory.MapPage | Shell/kernel/vm.c:152-158 | panics exactly on a mapped page, fails exactly if the missing tables are more than the free pages, otherwise changes exactly this translation |
| VirtualMemory.Memory.MapPages | Shell/kernel/vm.c:142-165 | succeeds exactly if the range is not empty, none of it is mapped or out of reach, and there are pages for the missing tables; changes exactly the named translations, otherwise the first `done` |
| VirtualMemory.Memory.Uvmunmap | Shell/kernel/vm.c:170-192 | panics exactly if a page of the range is not mapped; otherwise exactly the named translations go and with do_free exactly their pages become free |
| VirtualMemory.Memory.AddPage | Shell/kernel/vm.c:234-247 | one more page with the given bytes; panics exactly if the page is mapped and there is a free page; fails exactly if it and its missing tables are more than the free pages, and then no address space changes and the page is given back |
| VirtualMemory.Memory.Uvmalloc | Shell/kernel/vm.c:225-249 | zeroed pages from the old to the new size and nothing else; panics on a mapped page exactly if memory lasts until there; fails exactly if the pages and their missing tables are more than the free pages, and then every address space is as before |
| VirtualMemory.Memory.Uvmdealloc | Shell/kernel/vm.c:255-267 | exactly the pages between the sizes are unmapped and freed; panics exactly if one is not mapped |
| VirtualMemory.Memory.Uvmcopy | Shell/kernel/vm.c:305-333 | the child gets a copy of each page with the same permissions and bytes; panics exactly if memory lasts until a page that the parent lacks or the child has; fails exactly if the copies and the child's missing tables are more than the free pages, and then it has none; parent and others unchanged |
| VirtualMemory.Memory.FreeWalk | Shell/kernel/vm.c:271-287 | all tables below a node become free, the leaf panic cannot happen, nothing else changes |
| VirtualMemory.Memory.Uvmcreate | Shell/kernel/vm.c:196-205 | an empty page table, or 0 when memory is out |
| VirtualMemory.Memory.Uvmfree | Shell/kernel/vm.c:291-297 | every page the address space owns becomes free and nothing else changes |
| VirtualMemory.Memory.ProcPagetable | Shell/kernel/proc.c:176-206 | trampoline and trapframe mapped and no user memory; fails exactly with fewer than three free pages, and then every page has the role it had |
| VirtualMemory.Memory.ProcFreepagetable | Shell/kernel/proc.c:210-216 | every page-table node and user page becomes free, trapframe and trampoline do not, others untouched |
| VirtualMemory.Memory.Growproc | Shell/kernel/proc.c:260-275 | a process of sz bytes has sz + n afterwards, mapped exactly that far, and uvmalloc and uvmdealloc never panic; new pages are zeroed, readable and writable; pages given up are free; no page is lost; fails exactly if a growth needs more than the free pages, and is as it was then |
| VirtualMemory.Memory.ForkMemory | Shell/kernel/proc.c:279-300 | the child is a process of its own with its trapframe, the same bytes and the same permissions, and the parent stays; no page is lost; fails exactly if three pages, the copies and the tables are more than the free pages, and then every page has the role it had |
| VirtualMemory.Memory.WalkAddr | Shell/kernel/vm.c:108-126 | the page behind a virtual page if and only if user code may access it |
| VirtualMemory.Memory.Copyout | Shell/kernel/vm.c:351-371 | succeeds exactly if user code may access the whole range, which then holds the bytes; no other byte of any address space changes |
| VirtualMemory.Memory.Copyin | Shell/kernel/vm.c:376-396 | succeeds exactly if user code may access the whole range, and returns its bytes |
| VirtualMemory.ChildReadsParent | Shell/kernel/vm.c:305-333 | after uvmcopy the child reads the parent's byte at every address below the size, from a page of its own |
| VirtualMemory.ForkIsolates | Shell/kernel/vm.c:305-371 | a later copyout to one of the two never changes the other |
| VirtualMemory.CopyRoundTrip | Shell/kernel/vm.c:351-396 | copyin of a range that copyout filled returns the bytes written, across any number of pages |
| VirtualMemory.RolledBack | Shell/kernel/vm.c:234-247 | pages added and then removed leave every address space as it was |
| VirtualMemory.ProcessGrows | Shell/kernel/proc.c:266-269 | a process that uvmalloc grew is a process of the new size |
| VirtualMemory.ProcessShrinks | Shell/kernel/proc.c:270-272 | so is one that uvmdealloc shrank |
| VirtualMemory.ProcessCopied | Shell/kernel/proc.c:291-296 | after uvmcopy parent and child are processes of the same size |
| VirtualMemory.ForkUndone | Shell/kernel/proc.c:291-295 | a failed fork gives back every page it took |
| VirtualMemory.PaidOut | Shell/kernel/vm.c:234-247 | out of memory at one page of a range means the whole range needs more pages than there were |
| VirtualMemory.Undone | Shell/kernel/proc.c:190-194 | a failed proc_pagetable gives back every page it took |
| SleepLock.StepKeepsInv | Shell/kernel/proc.c:535-604 | every step of acquiresleep, releasesleep, sleep, wakeup and kill keeps the invariant |
| SleepLock.MutualExclusion | Shell/kernel/sleeplock.c:21-52 | in every run at most one process holds the lock, and it is the one that locked and pid name |
| SleepLock.NoLostWakeup | Shell/kernel/sleeplock.c:21-41 | whenever the inner spinlock and the lock are free nobody sleeps on it or is past the release inside sleep, kills included |
| SleepLock.FreeLockCanBeTaken | Shell/kernel/sleeplock.c:21-31 | then a process inside acquiresleep gets the lock by its own steps alone |
| SleepLock.ReleaseFrees | Shell/kernel/sleeplock.c:33-41 | in every run, unless somebody is on the way into sleep, the holder leaves releasesleep by its own steps alone, the lock is free then and nobody sleeps on it |
| SleepLock.HeldLockSleeps | Shell/kernel/sleeplock.c:21-31 | acquiresleep of a held lock ends asleep by its own steps alone, with the inner lock free |
| SleepLock.KilledRunsOn | Shell/kernel/proc.c:586-604 | a killed sleeper is back at the test of the lock, and nothing else changes |
| ExitWaitSafety.StepKeepsInv | Shell/kernel/proc.c:279-435 | every step of fork, exit, reparent, wait, sleep, wakeup and kill keeps the invariant of the process table |
| ExitWaitSafety.ParentsAlive | Shell/kernel/proc.c:330-386 | in every run no parent is a zombie or unused, and every live or zombie process but init has a parent |
| ExitWaitSafety.NoSleepOverZombie | Shell/kernel/proc.c:390-435 | whenever wait_lock is free, a process asleep in wait has a child and none of its children is a zombie |
| ExitWaitSafety.ReapedOnce | Shell/kernel/proc.c:405-421 | over a whole run no pid is reaped twice, and each comes with the status its exit left |
| ExitWaitSafety.ReapedByParent | Shell/kernel/proc.c:405-421 | in every run only the parent that a zombie has at that moment reaps it, and its slot is free afterwards |
| ExitWaitSafety.HaveKidsExact | Shell/kernel/proc.c:401-430 | when wait decides to give up or sleep, havekids is set exactly if it has a child |
| ExitWaitSafety.ZombieCanBeReaped | Shell/kernel/proc.c:390-435 | with wait_lock free and its children switched out, a parent in wait reaps a child, with its pid and status, frees its slot and returns, by its own steps alone |
| ExitWaitRuns.StatusFromExit | Shell/kernel/proc.c:347-421 | over a whole run a pid calls exit at most once, and the status that wait returns for it is the argument of that call in the schedule |
| ExitWaitRuns.FreeSlotsClean | Shell/kernel/proc.c:156-171 | in every run a free slot carries no pid, status or kill of an earlier process |
| ExitWaitRuns.ForkMakesChild | Shell/kernel/proc.c:280-325 | fork makes a free slot a runnable child of the caller with a pid never given before and no pending kill, by its own steps alone |
| ExitWaitRuns.ExitLeavesZombie | Shell/kernel/proc.c:331-386 | exit(x) ends as a zombie with status x by its own steps alone, unless somebody is on the way into sleep; its children belong to init, all other parents are as before, its own parent is not left asleep |
| ExitWaitRuns.WaitAnswers | Shell/kernel/proc.c:391-435 | wait without a zombie child gives up by its own steps alone if there is no child or the caller is killed, and sleeps otherwise, nothing reaped |
| ExitWaitRuns.KilledReturns | Shell/kernel/proc.c:586-604 | a process killed in wait, asleep or not, returns by its own steps alone if it has no zombie child |
| HeapArena.NoOverlap | Shell/user/umalloc.c:24-90 | live and free blocks never overlap |
| HeapArena.AddressOrder | Shell/user/umalloc.c:24-44 | the free list is in address order and no two free blocks touch |
| HeapArena.InsertKeeps | Shell/user/umalloc.c:33-42 | linking a block in at its place keeps order and cover |
| HeapArena.MergeKeeps | Shell/user/umalloc.c:33-41 | joining two touching neighbours does too |
| HeapArena.TakenKeeps | Shell/user/umalloc.c:76-77 | handing out a whole free block keeps the invariant |
| HeapArena.SplitKeeps | Shell/user/umalloc.c:78-82 | handing out the tail of a free block does too |
| HeapArena.GrownKeeps | Shell/user/umalloc.c:46-61 | new memory above all old memory does too |
| UserHeap.Heap.FindPlace | Shell/user/umalloc.c:30-32 | the scan terminates from any freep, at the one list element the block belongs behind |
| UserHeap.Heap.Free | Shell/user/umalloc.c:24-44 | exactly this block is no longer live, no unit is lost, the list is in order and coalesced, and freep is the element in front of the block |
| UserHeap.Heap.Sbrk | Shell/kernel/sysproc.c:39-49 | moves the break by its signed argument and returns the old one; fails only if it has to grow and cannot |
| UserHeap.Heap.Morecore | Shell/user/umalloc.c:46-61 | exactly the assumed units are added and some free block is large enough, or nothing changes; the break moves by the 32-bit argument of sbrk, and the new units are backed exactly if their size fits an int |
| UserHeap.Heap.Carve | Shell/user/umalloc.c:75-85 | a live block of exactly n units, the last of the free block, new, and no unit lost |
| UserHeap.Heap.Malloc | Shell/user/umalloc.c:63-90 | a new block of the needed size that overlaps no other, cut from the end of the first free block behind freep that fits; 0 exactly if no free block fits and sbrk fails; one call of morecore exactly if no free block fits; all memory handed out is backed afterwards exactly for requests up to 0x7FFFFFE0 bytes |
| UserHeap.BreakCovers | Shell/user/umalloc.c:52-58 | sbrk provides the units that morecore records exactly if their size in bytes fits an int |
| UserHeap.SoundRequests | Shell/user/umalloc.c:64-88 | the sizes that malloc can serve from new memory: exactly those up to 0x7FFFFFE0 bytes |
| UserHeap.HugeRequest | Shell/user/umalloc.c:52-59 | a run: malloc(0xFFFFFFFF) in a new process moves the break by one unit and returns a block that ends far above it |
| Pipe.Pipe.Put | Shell/kernel/pipe.c:95 | the byte joins the end of the bytes sent, no byte in flight is overwritten, although nwrite wraps |
| Pipe.Pipe.Take | Shell/kernel/pipe.c:123 | the byte taken is the oldest one not taken yet; all bytes ever taken are a prefix of those ever sent |
| Pipe.Pipe.WriteBurst | Shell/kernel/pipe.c:76-103 | adds the next bytes of the source in order, until the ring holds 512, all is written, the copy fails or a kill is noticed; sleeps exactly on a full ring that can still be read; -1 exactly if the reader is gone or a kill was noticed |
| Pipe.Pipe.ReadBurst | Shell/kernel/pipe.c:105-130 | sleeps exactly on an empty pipe that can still be written; otherwise takes out the oldest bytes in order, as many as are there and wanted, and loses at most the one whose copy fails |
| VirtioSafety.ChainsDisjoint | Shell/kernel/virtio_disk.c:199-213 | chains of different requests share no descriptor |
| VirtioSafety.AtMostTwo | Shell/kernel/virtio_disk.c:199-234 | at most two requests are in flight |
| VirtioSafety.RingsShort | Shell/kernel/virtio_disk.c:271-277 | at most two entries are outstanding in either ring |
| VirtioSafety.ChainFreed | Shell/kernel/virtio_disk.c:168-197 | free_chain frees exactly the three descriptors and does not panic |
| VirtioSafety.StepKeepsInv | Shell/kernel/virtio_disk.c:215-327 | every step of driver, device and interrupt handler keeps the invariant |
| VirtioSafety.NoPanic | Shell/kernel/virtio_disk.c:155-327 | in every run no panic in free_desc or the interrupt handler |
| VirtioSafety.ThreeAllocated | Shell/kernel/virtio_disk.c:199-213 | in every run a request has three distinct descriptors, none of them free |
| VirtioSafety.ChainsApart | Shell/kernel/virtio_disk.c:199-234 | in every run two requests share no descriptor, and there are at most two |
| VirtioSafety.SlotUnused | Shell/kernel/virtio_disk.c:271-277 | in every run the avail slot written next holds no entry the device has still to take, across index wrap |
| VirtioSafety.ReturnsAfterDone | Shell/kernel/virtio_disk.c:283-291 | a request returns only after the device carried out that very request, and exactly once |
| VirtioRuns.DeviceDoesAsked | Shell/kernel/virtio_disk.c:216-327 | over a whole run the device carries out only operations that calls in the schedule asked for, each request at most once |
| VirtioRuns.ReturnsWhatWasAsked | Shell/kernel/virtio_disk.c:216-293 | a call returns only when the operation of that very call was carried out |
| VirtioRuns.NoneLost | Shell/kernel/virtio_disk.c:155-213 | in every run a descriptor is not free exactly if it is in the chain of a request in flight |
| VirtioRuns.Serve | Shell/kernel/virtio_disk.c:271-327 | from any point on, steps of device, handler and caller serve a request and return |
| VirtioRuns.CallIsServed | Shell/kernel/virtio_disk.c:216-327 | in every run, with vdisk_lock and three descriptors free, a call is carried out and returns by its own steps and those of device and handler |
| Grep.StarStep | Shell/user/grep.c:97-105 | a star matches nothing, or one covered character and then itself |
| Grep.MatchHere | Shell/user/grep.c:83-95 | true exactly if the pattern, read declaratively, matches at this position; it terminates |
| Grep.MatchStar | Shell/user/grep.c:97-105 | true exactly if the starred pattern matches at this position |
| Grep.Match | Shell/user/grep.c:71-81 | true exactly if the pattern matches at the beginning after a caret, anywhere otherwise |
| Grep.PrintLines | Shell/user/grep.c:20-28 | the completed lines in the buffer are printed exactly if they match |
| Grep.GrepFile | Shell/user/grep.c:10-34 | whatever sizes read returns, the output is the matching lines in order, up to the first that does not fit the buffer or holds a NUL |
| Grep.OnlyBadLinesLost | Shell/user/grep.c:17-33 | what is printed and what is lost: exactly the matching lines from the first overlong line or line with a NUL on |
| Grep.AllPrintedIff | Shell/user/grep.c:17-33 | every matching line is printed for every pattern if and only if no complete line is overlong or holds a NUL |
| Grep.NothingLostIff | Shell/user/grep.c:17-33 | no matching line is lost, the last one without a newline included, for any pattern, if and only if moreover the file is empty or ends in a newline |
| Grep.LongLineLost | Shell/user/grep.c:17 | 1023 characters and a newline: the empty pattern matches and nothing is printed |
| ShellSyntax.ReadBack | Shell/user/sh.c:345-447 | the tokens of a parenthesised tree, before a closing parenthesis or the end, are read as that tree and nothing more |
| ShellParser.Peek | Shell/user/sh.c:311-321 | answers for the next character that is not white space; no token changes |
| ShellParser.GetToken | Shell/user/sh.c:266-309 | the first token with its bounds, and the cursor at the rest of the tokens |
| ShellParser.ParseRedirs | Shell/user/sh.c:375-398 | puts exactly the redirections in front around the command, one by one, and fails exactly on a missing file |
| ShellParser.FillText | Shell/user/sh.c:430-445 | arguments stored through the pointer to the innermost command, behind any redirections, are that command's arguments |
| ShellParser.ParseArgs | Shell/user/sh.c:427-446 | the simple command of the grammar, redirections between the words included, or fails exactly where the grammar does |
| ShellParser.ParseExec | Shell/user/sh.c:400-447 | the same for a block or a simple command |
| ShellParser.ParsePipe | Shell/user/sh.c:362-373 | the same for a pipeline |
| ShellParser.ParseLine | Shell/user/sh.c:345-360 | the same for a line; it terminates on every input |
| ShellParser.ParseCmd | Shell/user/sh.c:328-343 | the command tree of the grammar with every word readable as a C string in the buffer, or fails exactly on a syntax error or leftovers |
| ShellParser.NulTerminate | Shell/user/sh.c:449-494 | every word of the tree has a NUL behind it and no character of a word changes |
| ShellParser.TreeReads | Shell/user/sh.c:449-494 | after that, every word of the tree read as a C string is exactly its token |
| ShellParser.LexSpelled | Shell/user/sh.c:266-309 | tokens written out with a space behind each are read back |
| ShellParser.PrintParses | Shell/user/sh.c:328-447 | the text of any command tree with proper words and at most nine arguments per command is read by the grammar as that tree |
| ShellParser.ParsePrinted | Shell/user/sh.c:328-494 | parsecmd run on that text builds that tree and leaves its words in the buffer as C strings |
| ShellGrammar.ItemsRead | Shell/user/sh.c:422-446 | words and redirections in any order are read as one command with those words, the redirections around it in their order |
| ShellGrammar.ScriptRead | Shell/user/sh.c:345-447 | the text of every derivation, before a closing parenthesis or the end, is read as its tree |
| ShellGrammar.LineHas | Shell/user/sh.c:345-447 | whatever is read has a derivation with that text and tree |
| ShellGrammar.GrammarExact | Shell/user/sh.c:328-447 | a token list is accepted as a tree if and only if it is the text of a derivation of that tree |
| ShellGrammar.LexExact | Shell/user/sh.c:266-309 | a string has the tokens ts if and only if they stand in it in this order with any white space or none between them, each as long as it can be |
| ShellGrammar.ParsesExactly | Shell/user/sh.c:328-343 | so a string is accepted as a tree if and only if it has a derivation of that tree |
| ShellGrammar.OneTree | Shell/user/sh.c:328-447 | all derivations of a string have the same tree |
| ShellGrammar.ParseDerived | Shell/user/sh.c:328-494 | parsecmd run on a buffer fails exactly if the string has no derivation, and otherwise builds the tree that they all have |

## Left out

- Traps, assembly, start-up, interrupts, UART, console and timers: hardware and context switches.
- Spinlock internals and memory ordering: acquire and release are atomic steps.
- Directories, path names, link counts, `ialloc`, `iget` and `iput`, and the rest of `sysfile.c`: they add only easier members here.
- `exec` beyond its use of the address-space functions, `copyinstr`, `uvmclear`, `uvmfirst` and the kernel's own page table.
- The shell's `runcmd` and everything that runs commands.
- 32-bit overflow of pids and of inode sizes beyond MAXFILE.
- FileSystem.FileSystem.Writei: bytes that a failed copy left in a block are shown as long as the block stays cached; that they vanish if an unlogged block is evicted is not modelled.
- FileSystem.FileSystem.constructor: a disk before mkfs adds the root directory and files.
- FileSystem.FileSystem.FileWrite: runs one operation at a time; that other operations share the transaction is the matter of LogProtocol, and the inode lock that keeps other writers of the same file out is not modelled.
- BufferCache.BufferCache.Bget: one device only, so coherence is stated for ROOTDEV and buffers start with device 0; how processes queue for a buffer's lock is the matter of SleepLock.
- CachedLog.CachedLog.Commit: no buffer but the pinned ones is in use when a call begins; with more in use the cache runs out earlier. Recovery is not run on the cache.
- LogBudget.BudgetPanicIff: other buffers that processes hold while a transaction commits are not counted.
- LogSafety.StepKeepsInv: the list is emptied and the buffers unpinned in one step at the end of commit rather than during its last writes; nothing reads them in between while committing is set.
- VirtualMemory.Memory.Uvmunmap: with do_free, only ranges below TRAPFRAME, since the trapframe and trampoline pages are not the page table's to free; a page can be mapped only if the caller holds it.
- VirtualMemory.Memory.ProcPagetable: the trapframe page itself belongs to the caller.
- SleepLock.NoLostWakeup: the section of wakeup or kill under another process's lock is one step; what is shown to be reachable by a process's own steps is not shown to happen under every scheduler.
- ExitWaitSafety.NoSleepOverZombie: wakeup of one process is one step, since only that process sleeps on that channel; files, memory and the current directory of processes are not modelled.
- Pipe.Pipe.WriteBurst: no claim about wakeups, since a killed writer returns without waking readers; a burst is what runs between two sleeps.
- VirtioSafety.NoPanic: the device is assumed to report success; feature negotiation, the wakeups for free descriptors and the data transferred are not modelled.
- UserHeap.Heap.Malloc: the break is counted in units of 16 bytes, as if it were aligned; a request that is not backed is modelled as if its header could be stored; memory that a program gives back itself with a negative sbrk is not modelled.
- ShellParser.ParseArgs: the exec node that sh.c fills in through a second pointer while redirections are put around it is filled in at the end; input lines are NUL-free.
- Log.Log.BeginOp: the log object runs one process at a time, so log.committing is never set when it looks; waiting for a commit is in LogProtocol.
- FileSystem.FileSystem.Put: the too-big panic of log_write is left to LogBudget.FrugalSafe, which keeps it away from operations such as these.
- VirtualMemory.Memory.Uvmalloc: sizes up to TRAPFRAME only; the kernel checks no upper bound.
- VirtualMemory.Memory.Uvmcopy: sizes up to TRAPFRAME only, as for a process that uvmalloc made.
- VirtualMemory.Memory.Growproc: growth up to TRAPFRAME only, for the same reason; the system call that passes n is not modelled.
- FileSystem.FileSystem.WriteOp: end_op commits at once; that it may only close one of several operations of a transaction is the matter of LogProtocol.
