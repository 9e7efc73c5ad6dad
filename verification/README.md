# xv6 for RISC-V: a verified model

A model, with proofs, of the hard parts of xv6 for RISC-V: the crash-safe log and the
buffer cache under it, the file system's blocks, files and link counts, Sv39 page tables
and the page allocator, the process life cycle with sleep and wakeup, pipes, the virtio
disk driver, and three user-level algorithms (the K&R allocator, the shell's parser and
grep's matcher).

| file | what it models |
|---|---|
| `wal.dfy` | the on-disk log as block writes, crashes between any two of them, and recovery (kernel/log.c) |
| `groupcommit.dfy` | operations sharing a transaction, interleaved with commit, crashes and recovery (kernel/log.c) |
| `logcache.dfy`, `logrun.dfy` | the same interleavings over thirty recycled buffers, and the classes of `bio.dfy` and `log.dfy` run as that machine (kernel/log.c over kernel/bio.c) |
| `logquota.dfy` | what the callers of the log must keep to, in blocks logged and buffers used (kernel/log.c, kernel/bio.c, kernel/file.c) |
| `bio.dfy` | the buffer cache: the circular LRU list, reference counts and contents (kernel/bio.c) |
| `log.dfy` | log.c itself, on top of the cache, proved to issue exactly the writes of `wal.dfy` |
| `blockmap.dfy`, `fs.dfy` | bitmap, block map, file contents and truncation (kernel/fs.c), chunked writes (kernel/file.c) |
| `links.dfy`, `linkmeaning.dfy` | directories and link counts, and what create, link and unlink do to the names (kernel/sysfile.c, kernel/fs.c) |
| `vm.dfy`, `usercopy.dfy` | page allocator, page tables, address spaces and user copies (kernel/kalloc.c, kernel/vm.c, kernel/proc.c) |
| `proc.dfy`, `waitexit.dfy` | fork, exit, wait, sleep, wakeup, kill and the scheduler on any number of CPUs, and what each call promises its caller over whole runs (kernel/proc.c) |
| `pipe.dfy` | pipes (kernel/pipe.c) |
| `virtio.dfy` | the disk driver with the device as its environment (kernel/virtio_disk.c) |
| `umalloc.dfy` | malloc and free (user/umalloc.c) |
| `shellgrammar.dfy`, `shellmeaning.dfy`, `shell.dfy` | the shell's grammar, what a parsed command opens, and the parser (user/sh.c) |
| `grep.dfy` | the regular-expression matcher (user/grep.c) |
| `sets.dfy` | facts about finite sets and sequences that several of these use |

`dafny verify dfyconfig.toml` checks all of it.

Conventions. Code that changes state in place is a class whose methods are proved against
functions of the old state; what is proved about those functions are lemmas. A spin lock is
an owner field or is implied by a method being one step; a context switch is a step. Where
the kernel panics, either the proof shows that it cannot (the panic is a precondition that
every caller meets) or the method returns a failure. Things decided outside the modelled
code (whether memory is left, whether a user page can be read, when a process is killed,
what the device does) are parameters or other steps, so every result holds for all of them.

Where the code does not do what one might expect, it is modelled as it is:

- mkfs gives the log LOGSIZE blocks, header included, so an operation may add at most
  MAXOPBLOCKS - 1 = 9 header entries, not MAXOPBLOCKS (`GroupCommit.QuotaExact`). A chunk of
  `filewrite` keeps to nine with up to three bitmap blocks (`LogQuota.ChunksSuffice`).
- bget has no buffer to give exactly when the block is not cached and the pinned buffers and
  the others in use are all there are (`LogQuota.BufferExact`).
- `pipewrite` returns without waking readers when it finds itself killed after putting
  something in the pipe; exactly then a reader can sleep on a pipe that is not empty
  (`Pipe.StepAwake`, `Pipe.RunAwake`, `Pipe.Stranded`).
- `create` and `sys_link` do not test whether the parent directory is still linked, and
  nlink is a short; link counts stay right exactly when the parent is linked and the count
  that is raised has room (`Links.StepExact`, `Links.RunExact`), and three calls from a new
  file system make one wrong (`Links.BrokenCreate`).
- `growproc` does not test its size against the trap frame: it panics in mappages exactly
  when it is asked to grow past it with memory to get there (`Vm.Machine.Growproc`), which
  takes more pages than lie below the trap frame (`Vm.OutOfReach`).
- `piperead` counts a byte as read before it copies it out, so it loses one byte exactly when
  it runs into a bad address with more to deliver (`Pipe.ReadTakes`).
- The second mappages of `proc_pagetable` cannot fail, so its error path is never taken
  (`Vm.Machine.ProcPagetable`).
- `morecore` passes its size through `sbrk(int)`; it gets what it asks for exactly up to
  2147483616 bytes (`KrMalloc.SbrkArgExact`).

## Model

| member | source | states |
|---|---|---|
| `Wal.HeadRoundTrip` | kernel/log.c:86-114 | reading the header block that write_head wrote gives back the same list of block numbers; its first word is their number, and the words past the list are left alone |
| `Wal.ApplyAppend` | kernel/log.c:178-203 | the effect of a sequence of block writes is the effect of its parts one after the other |
| `Wal.LogWritesKeepMeaning` | kernel/log.c:178-191 | any prefix of write_log leaves every home block at its old meaning |
| `Wal.HeaderCommits` | kernel/log.c:193-203 | once the header is on disk, exactly the logged blocks mean their new contents and all others their old |
| `Wal.InstallKeepsMeaning` | kernel/log.c:68-83 | stopping install_trans after any number of blocks changes no meaning and nothing in the log |
| `Wal.EraseKeepsMeaning` | kernel/log.c:116-123 | after a full install, emptying the header leaves every home block holding its meaning |
| `Wal.RecoveryPrefix` | kernel/log.c:116-123 | a recovery cut after any of its writes leaves a recoverable disk with the same meaning |
| `Wal.RecoveredIsMeaning` | kernel/log.c:116-123 | after any number of recoveries cut anywhere and one that finishes, every home block is at its meaning and the log is empty |
| `Wal.CommitTail` | kernel/log.c:193-203 | past the header write the rest of a commit is exactly a recovery of that disk |
| `Wal.CommitPrefix` | kernel/log.c:193-203 | what every home block means after the first k writes of a commit, for every k |
| `Wal.CrashAtomicity` | kernel/log.c:178-203 | cut a commit after any k writes and recovery any number of times: once a recovery finishes, the home blocks are all old or all new, all new exactly when the header with n > 0 was written |
| `Wal.CommitCompletes` | kernel/log.c:193-203 | an uninterrupted commit puts every logged block in place and empties the header |
| `GroupCommit.StepKeeps` | kernel/log.c:126-235 | every begin_op, modification, log_write, end_op, commit write, crash and recovery write keeps the group-commit invariant |
| `GroupCommit.RunInv` | kernel/log.c:126-235 | the invariant holds in every state of every interleaving |
| `GroupCommit.RecoversWholeOperations` | kernel/log.c:126-203 | the machine with one shared memory in place of buffers: from every state of every run, whatever crashes follow, recovery gives the disk after a set of whole operations, none still outstanding, all of them when nothing is outstanding or committing |
| `GroupCommit.DurableGrows` | kernel/log.c:144-203 | what is durable stays durable, through crashes |
| `GroupCommit.ReservationSuffices` | kernel/log.c:126-142 | if operations add at most MAXOPBLOCKS - 1 header entries, log_write never panics, in any interleaving, with mkfs's log of LOGSIZE blocks |
| `GroupCommit.QuotaTenPanics` | kernel/log.c:214-235 | with MAXOPBLOCKS entries per operation a run reaches the "too big a transaction" panic |
| `GroupCommit.QuotaExact` | mkfs/mkfs.c:25 | the panic is reachable if and only if an operation may add more than MAXOPBLOCKS - 1 entries |
| `LogCache.UnusedOnDisk` | kernel/bio.c:75-88 | a buffer that nobody references is as on disk |
| `LogCache.RefKeeps` | kernel/bio.c:58-89 | taking a reference, or recycling a buffer, keeps cache and log in agreement with the group-commit machine |
| `LogCache.LockKeeps` | kernel/bio.c:70-71 | so does getting the buffer's lock |
| `LogCache.FillKeeps` | kernel/bio.c:97-101 | so does reading the block in |
| `LogCache.ModifyKeeps` | kernel/log.c:205-213 | so does changing a locked buffer, which is a modification there |
| `LogCache.AbsorbKeeps` | kernel/log.c:225-229 | so does log_write of a block that is in the header |
| `LogCache.PinKeeps` | kernel/log.c:225-233 | so does log_write of a new block, which pins its buffer |
| `LogCache.UnlockKeeps` | kernel/bio.c:117-122 | so does the first half of brelse |
| `LogCache.DropKeeps` | kernel/bio.c:124-136 | so does the second |
| `LogCache.BeginKeeps` | kernel/log.c:125-142 | so does begin_op |
| `LogCache.EndKeeps` | kernel/log.c:144-166 | so does end_op; the last one starts the commit |
| `LogCache.MoveKeeps` | kernel/log.c:74-81 | so does the memmove of write_log or install_trans |
| `LogCache.PackKeeps` | kernel/log.c:99-110 | so does filling in the header block |
| `LogCache.PutKeeps` | kernel/bio.c:105-112 | so does the bwrite that follows, which is a commit or recovery write there |
| `LogCache.UnpinKeeps` | kernel/log.c:79-80 | so does bunpin, once the block is home |
| `LogCache.AdvanceKeeps` | kernel/log.c:144-175 | so does the end of the commit |
| `LogCache.CrashKeeps` | kernel/log.c:54-65 | so does a crash and a boot with empty buffers |
| `LogCache.DropSafe` | kernel/bio.c:114-137 | the last user of a buffer leaves it as on disk, and a buffer that is locked has another user |
| `LogCache.UnpinSafe` | kernel/bio.c:146-151 | bunpin finds the pin besides the holder's reference |
| `LogCache.StepSimulates` | kernel/log.c:68-235 | every step of log.c over bio.c is a step of the group-commit machine or changes nothing there |
| `LogCache.RunJoint` | kernel/log.c:68-235 | the two machines agree in every state of every interleaving |
| `LogCache.RecoversWholeOperations` | kernel/log.c:68-203 | log.c over bio.c, thirty buffers recycled as bget does: from every state of every interleaving, whatever crashes follow, recovery gives the disk after whole operations only, none still outstanding, all of them when nothing is outstanding or committing |
| `LogCache.CacheHoldsAll` | kernel/bio.c:58-151 | a buffer of a home block holds every modification made to it so far, and a home block in no buffer has them all on disk |
| `LogCache.NeverRecycled` | kernel/bio.c:75-88 | a buffer that bget recycles is used by nobody, pinned by no header entry and as on disk |
| `LogCache.ReferencesCounted` | kernel/bio.c:58-151 | refcnt is the number of processes that wait for, hold or are releasing the buffer, plus one exactly if a header entry pins it; one process at most holds it |
| `LogCache.NoPanic` | kernel/log.c:214-221 | with MAXOPBLOCKS - 1 new entries per operation log_write never panics, in any interleaving over the cache |
| `LogCache.CommitStartsClean` | kernel/log.c:193-203 | when a commit starts, every buffer but those of the header's blocks is as on disk, and every block of the header is cached |
| `LogRun.FetchHead` | kernel/log.c:85-97 | read_head on new buffers: the header on disk, one buffer used and released |
| `LogRun.Kernel.constructor` | kernel/log.c:54-65 | binit, initlog and read_head put the real list, buffers and header in the machine's boot state |
| `LogRun.Kernel.DoRef` | kernel/bio.c:58-89 | bget takes the machine's step with the buffer it chooses, and fails exactly when the machine has no such step |
| `LogRun.Kernel.DoLogWrite` | kernel/log.c:214-235 | log_write on the real header and buffers is the machine's step, without a panic |
| `LogRun.Kernel.DoDrop` | kernel/bio.c:124-136 | so is the end of brelse, list move included |
| `LogRun.Kernel.DoEnd` | kernel/log.c:144-166 | so is end_op |
| `LogRun.Kernel.DoPut` | kernel/bio.c:105-112 | so is bwrite on the device |
| `LogRun.Kernel.Perform` | kernel/log.c:68-235 | each event asked of the real list, buffers, header and device is the machine's step, or no step when the machine has none |
| `LogRun.Kernel.Run` | kernel/log.c:68-235 | any schedule of the kernel's processes on them is a run of the machine, event by event, so the theorems about its runs hold of log.c over bio.c |
| `LogRun.Restart` | kernel/log.c:54-65 | power failing and booting again is the machine's crash step |
| `LogQuota.RunTracks` | kernel/log.c:214-235 | in every run, an operation has added no more entries to the header than it has logged different blocks, all of which are in the header while it is outstanding |
| `LogQuota.QuotaFromSets` | kernel/log.c:214-235 | a run in which no operation logs more than p different blocks keeps to a quota of p |
| `LogQuota.SetsSuffice` | kernel/log.c:214-221 | so log_write never panics if every operation logs at most MAXOPBLOCKS - 1 different blocks |
| `LogQuota.ChunksSuffice` | kernel/file.c:149-167 | nor if the blocks of every operation are within the budget of a chunk of filewrite, on a disk with up to three bitmap blocks |
| `LogQuota.KeepingSize` | kernel/bio.c:139-144 | each pinned header entry has a buffer of its own |
| `LogQuota.UsedSize` | kernel/bio.c:58-151 | the buffers in use are the pinned header entries and the others that some process uses |
| `LogQuota.BufferExact` | kernel/bio.c:65-88 | in every state of every run bget finds a buffer if and only if its block is cached or pinned entries and other buffers in use are fewer than NBUF |
| `LogQuota.BufferSuffices` | kernel/bio.c:75-88 | with MAXOPBLOCKS - 1 entries per operation it does whenever at most one buffer is in use besides the pinned ones |
| `LruList.RingUnlink` | kernel/bio.c:128-129 | unlinking a buffer leaves one circle of the others in the same order |
| `LruList.RingFront` | kernel/bio.c:130-133 | linking a buffer after the head leaves one circle with it first |
| `LruList.RingMoveFront` | kernel/bio.c:128-133 | brelse's six assignments move one buffer to the front of the circle and keep the order of the rest |
| `BlockDevice.Device.TraceDetermines` | kernel/bio.c:105-112 | the disk is determined by its initial contents and the trace of block writes |
| `BufferCache.FreeBuffer` | kernel/bio.c:75-88 | fewer referenced blocks than buffers leaves a buffer for bget |
| `BufferCache.BusyUpdate` | kernel/bio.c:117-151 | one reference more or less changes the number of referenced blocks by at most one |
| `BufferCache.Cache.constructor` | kernel/bio.c:36-53 | binit: one circle through all buffers, none in use |
| `BufferCache.Cache.FindCached` | kernel/bio.c:65-73 | the first loop finds the one buffer that holds the block, or none |
| `BufferCache.Cache.FindVictim` | kernel/bio.c:75-87 | the second loop finds the unreferenced buffer released longest ago, or none |
| `BufferCache.Cache.Ref` | kernel/bio.c:58-88 | bget up to its acquiresleep: one buffer per block, only an unreferenced one is recycled, the least recently released; failure exactly when the block is not cached and all are referenced |
| `BufferCache.Cache.Recycle` | kernel/bio.c:78-82 | the victim gets the block, which nobody referenced, and one reference; no block changes its contents |
| `BufferCache.Cache.Bget` | kernel/bio.c:58-89 | a reference is taken; failure exactly when the block is not cached and all are referenced; the buffer is the caller's unless another process has it locked, when the caller has to wait |
| `BufferCache.Cache.Bread` | kernel/bio.c:91-103 | the block's latest contents, cached or on disk, in a buffer of the caller's, or the reference to wait with |
| `BufferCache.Cache.Fill` | kernel/bio.c:97-101 | the buffer shows what is on disk, which is the block's latest contents |
| `BufferCache.Cache.SetData` | kernel/bio.c:105-112 | the holder of a locked buffer changes that block's contents only |
| `BufferCache.Cache.Bwrite` | kernel/bio.c:105-112 | bwrite puts exactly this buffer's contents on disk |
| `BufferCache.Cache.Brelse` | kernel/bio.c:114-137 | the last release makes the buffer the most recently used and keeps the order of the others; contents are unchanged |
| `BufferCache.Cache.Drop` | kernel/bio.c:124-136 | one reference less; at the last the buffer becomes the most recently used and the order of the others stays; no contents are lost |
| `BufferCache.Cache.MoveToFront` | kernel/bio.c:126-134 | the list is ranked by time of release after the move |
| `BufferCache.Cache.Relink` | kernel/bio.c:128-133 | the six assignments in place are LinkFront after Unlink |
| `BufferCache.Cache.Bpin` | kernel/bio.c:139-144 | a pinned buffer gains a reference and keeps its contents |
| `BufferCache.Cache.Bunpin` | kernel/bio.c:146-151 | unpinning takes the reference back |
| `Log.Log.constructor` | kernel/log.c:54-65 | initlog before recovery: an empty header over the given log area |
| `Log.Log.WriteHead` | kernel/log.c:99-114 | the header block becomes the in-memory header over its old contents, in one write |
| `Log.Log.ReadHead` | kernel/log.c:85-97 | the in-memory header becomes what the header block says |
| `Log.Log.CopyToLog` | kernel/log.c:184-189 | one round of write_log copies a cached block to its slot and writes it |
| `Log.Log.LogOne` | kernel/log.c:183-190 | the same, for the tail-th header entry |
| `Log.Log.WriteLog` | kernel/log.c:177-191 | the trace grows by exactly LogWrites |
| `Log.Log.CopyHome` | kernel/log.c:74-81 | one round of install_trans copies a slot to its home block, writes it and unpins it outside recovery |
| `Log.Log.PutBack` | kernel/log.c:78-81 | the pin goes, unless recovering, and both buffers are released with nothing lost |
| `Log.Log.InstallOne` | kernel/log.c:73-82 | the same, for the tail-th header entry |
| `Log.Log.InstallRound` | kernel/log.c:73-82 | what has been installed, traced and unpinned after one round more |
| `Log.Log.InstallTrans` | kernel/log.c:67-83 | the trace grows by exactly InstallWrites, every block is as on disk, and each logged block loses one reference |
| `Log.Log.Prepare` | kernel/log.c:197-198 | up to the commit point the trace is PrepareWrites |
| `Log.Log.Finish` | kernel/log.c:199-201 | after it the trace is FinishWrites |
| `Log.Log.Commit` | kernel/log.c:193-203 | commit issues exactly CommitWrites, so CrashAtomicity applies to it; afterwards every block is as on disk, nothing is pinned and the header is empty |
| `Log.Log.RecoverFromLog` | kernel/log.c:116-123 | recovery issues exactly RecoverWrites and leaves an empty header |
| `Log.Log.BeginOp` | kernel/log.c:125-142 | an operation is admitted exactly when no commit is going on and the reservation fits |
| `Log.Log.LogWrite` | kernel/log.c:214-235 | fails exactly on a full log or outside an operation; otherwise the block is in the header once, and a new entry pins its buffer |
| `Log.Log.Append` | kernel/log.c:229-233 | a new entry is last in the header, and its buffer is pinned beside its holder |
| `Log.Log.Release` | kernel/bio.c:114-137 | releasing a logged or unchanged buffer while operations run keeps every header entry's pin |
| `Log.Log.EndOp` | kernel/log.c:144-175 | unless it is the last, nothing but the count changes, whatever buffers others hold or have modified; the last one issues exactly CommitWrites and resets the log |
| `FreeList.InsertOrdered` | user/umalloc.c:24-44 | inserting a block and merging it keeps the list in address order with no two blocks touching |
| `FreeList.InsertHas` | user/umalloc.c:24-44 | insertion adds exactly the units of the block |
| `FreeList.InsertFits` | user/umalloc.c:46-61 | after an insertion some free block is at least as large |
| `FreeList.TakeOrdered` | user/umalloc.c:75-83 | taking units from the end of a block keeps the list ordered and apart |
| `FreeList.TakeHas` | user/umalloc.c:75-83 | taking removes exactly the units handed out, all of which were free |
| `KrMalloc.PlaceOf` | user/umalloc.c:30-32 | in an ordered list above base every address has a place |
| `KrMalloc.FreeCircle` | user/umalloc.c:33-43 | free's header writes put the merged block at its place on the circle |
| `KrMalloc.TakeCircle` | user/umalloc.c:75-83 | malloc's header writes unlink the block or shorten it |
| `KrMalloc.SbrkArgExact` | user/umalloc.c:52-54 | sbrk is asked for the units that are then freed if and only if nbytes is at most 2147483616 |
| `KrMalloc.FreePartition` | user/umalloc.c:24-44 | free moves exactly the block's units from the live ones to the free ones |
| `KrMalloc.TakePartition` | user/umalloc.c:75-84 | malloc moves exactly the block's units from the free ones to the live ones |
| `KrMalloc.CorePartition` | user/umalloc.c:54-59 | a region from sbrk joins the partition |
| `KrMalloc.Heap.constructor` | user/umalloc.c:21-22 | a process starts with no free list and nothing live |
| `KrMalloc.Heap.FindPlace` | user/umalloc.c:30-32 | free's search ends within one lap at the block after which bp belongs |
| `KrMalloc.Heap.Free` | user/umalloc.c:24-44 | the block leaves the live ones, is merged at its place, and free and live blocks still partition the heap |
| `KrMalloc.Heap.Sbrk` | user/umalloc.c:54 | the kernel's answer: -1, or a region above everything the process has |
| `KrMalloc.Heap.Morecore` | user/umalloc.c:46-61 | either sbrk refused and nothing changes, or it got exactly the larger of nu and 4096 units, which are on the free list, and a free block of the wanted size exists |
| `KrMalloc.Heap.Adopt` | user/umalloc.c:57-59 | a new region is a live block until it is freed |
| `KrMalloc.Heap.Init` | user/umalloc.c:70-73 | the first malloc makes a circle of base alone |
| `KrMalloc.Heap.Carve` | user/umalloc.c:75-84 | the block found hands out its last units, and the next search starts at the block before it |
| `KrMalloc.Heap.Search` | user/umalloc.c:74-89 | the loop, for a request that sbrk can serve and for one that it cannot: next fit, one lap, at most one new region |
| `KrMalloc.Heap.Malloc` | user/umalloc.c:63-90 | for every request: the result has room for nbytes and meets no other block; it is the first fitting block after the one where the last search ended, cut to fewer than sixteen bytes more than asked for and a header; sbrk is called only when no free block fits, for the larger of the request and 4096 units, and the result is 0 only if it refuses; the search ends within one lap of a successful morecore; it comes to ask sbrk for too little if and only if the request is above 2147483616 bytes and no free block fits |
| `KrMalloc.Heap.UserStore` | user/umalloc.c:63-90 | what an owner writes in its block does not disturb the heap |
| `Process.StartInv` | kernel/proc.c:231-255 | the state after boot satisfies the invariant |
| `Process.DispatchKeeps` | kernel/proc.c:455-463 | the scheduler's choice of a RUNNABLE process keeps the invariant |
| `Process.ResumeKeeps` | kernel/proc.c:461-463 | the switch into a process keeps it |
| `Process.SwitchKeeps` | kernel/proc.c:481-510 | a switch back to the scheduler keeps it, with the process's lock held across |
| `Process.WaitSwitchKeeps` | kernel/proc.c:535-562 | sleep in wait: the lock of the sleeper is taken before wait_lock is given up |
| `Process.ExitSwitchKeeps` | kernel/proc.c:383-386 | the last switch of an exiting process keeps it |
| `Process.ReleaseKeeps` | kernel/proc.c:465-469 | the scheduler's release of the process's lock keeps it |
| `Process.ExitWakeKeeps` | kernel/proc.c:564-580 | one round of wakeup(parent) in exit, under each process's lock |
| `Process.InitWakeKeeps` | kernel/proc.c:330-341 | one round of wakeup(initproc) in reparent |
| `Process.ReparentKeeps` | kernel/proc.c:330-341 | one round of reparent: a child passes to init, which is due a wakeup |
| `Process.ExitLockKeeps` | kernel/proc.c:376-381 | exit takes its own lock, sets its status and becomes ZOMBIE while it holds wait_lock |
| `Process.ReapKeeps` | kernel/proc.c:403-421 | wait frees a ZOMBIE child under both locks |
| `Process.ForkAllocKeeps` | kernel/proc.c:280-290 | fork's allocation of a slot |
| `Process.ForkParentKeeps` | kernel/proc.c:317-319 | fork sets the parent under wait_lock |
| `Process.ForkRunKeeps` | kernel/proc.c:321-323 | fork makes the child RUNNABLE under its lock |
| `Process.NudgeKeeps` | kernel/proc.c:583-604 | kill, and wakeups from elsewhere, keep the invariant |
| `Process.ExitKeeps` | kernel/proc.c:343-386 | every step of exit keeps the invariant |
| `Process.WaitKeeps` | kernel/proc.c:388-435 | every step of wait keeps the invariant; how wait ends is `WaitExit.WaitExact` |
| `Process.ForkKeeps` | kernel/proc.c:277-326 | every step of fork keeps it |
| `Process.StepKeeps` | kernel/proc.c:277-604 | every step of every CPU keeps it |
| `Process.EventsKeep` | kernel/proc.c:343-435 | every step keeps the account of pids, exit statuses and statuses returned |
| `Process.RunInv` | kernel/proc.c:277-604 | both hold in every state of every interleaving on any number of CPUs |
| `Process.NoLostWakeup` | kernel/proc.c:388-435 | whenever wait_lock is free no process asleep in wait has a ZOMBIE child, and every parent is neither UNUSED nor ZOMBIE |
| `Process.ReapedOnce` | kernel/proc.c:343-420 | no pid is returned by wait twice, every status returned is the one recorded when the process exited, and every process that exited is a ZOMBIE or has been returned; that the status is the argument of exit is `WaitExit.ReapedStatus` |
| `Process.FreedWhenQuiet` | kernel/proc.c:152-172 | a slot is freed only when no CPU runs on it, from ZOMBIE by its parent or from USED by a failing fork |
| `WaitExit.RunKids` | kernel/proc.c:398-411 | in every run the flag havekids of a scan is true if and only if a slot already scanned has the caller as its parent, and a caller past its scan has a child |
| `WaitExit.WaitExact` | kernel/proc.c:388-435 | in every run wait returns a pid and status only of a ZOMBIE child, which it frees; it returns -1 only without children, on a failed copy of a ZOMBIE child's status, or when killed with no child a ZOMBIE; it gets to sleep only with a child, none of them a ZOMBIE, and not killed |
| `WaitExit.RunTold` | kernel/proc.c:343-386 | in every run each exiting or exited process carries the status it called exit with |
| `WaitExit.ExitStatus` | kernel/proc.c:343-386 | in every run a pid has exited only after a call of exit by its process, and the status recorded is the argument of every such call |
| `WaitExit.ReapedStatus` | kernel/proc.c:388-420 | what wait returns is a pid and the argument with which that process called exit |
| `WaitExit.ForkMakes` | kernel/proc.c:277-326 | when fork is done the child is RUNNABLE, a child of the caller, not exited, and no other process has its pid |
| `WaitExit.ForkFresh` | kernel/proc.c:92-103 | the pid of a new slot is above every pid in use and every pid that has exited |
| `WaitExit.KillWakes` | kernel/proc.c:583-604 | kill marks its process and leaves it not asleep |
| `WaitExit.KilledExactly` | kernel/proc.c:583-604 | a process is marked killed by kill and by no other step, and stays so until its slot is freed |
| `WaitExit.WokenExactly` | kernel/proc.c:564-580 | a sleeping process becomes RUNNABLE if and only if the step is a kill of it or a wakeup of its channel, and is otherwise untouched |
| `WaitExit.SleepsOn` | kernel/proc.c:535-562 | sleep puts its caller to sleep on the channel it was given |
| `WaitExit.CallsEnd` | kernel/proc.c:277-435 | wait is left only by a step of its own, exit never, fork only when it fails or is done, and each is entered only by its own call |
| `Sv39.IndicesDistinct` | kernel/riscv.h:353-363 | below MAXVA the three 9-bit indices determine the page |
| `Sv39.Digits` | kernel/riscv.h:353-363 | below MAXVA the three indices are the digits of the page number in base 512, most significant first |
| `Sv39.FindsEntry` | kernel/vm.c:85-103 | three levels of lookup reach exactly the level-0 table that the tree has for the page |
| `Sv39.SlotsDistinct` | kernel/vm.c:85-103 | different pages below MAXVA have different entries |
| `Sv39.AddMid` | kernel/vm.c:95-99 | a new level-1 table changes no mapping |
| `Sv39.AddLow` | kernel/vm.c:95-99 | a new level-0 table changes no mapping |
| `Sv39.SetEntry` | kernel/vm.c:153-163 | writing one leaf entry changes that page's mapping and no other |
| `Sv39.Untouched` | kernel/vm.c:85-103 | pages that are not tables of an address space do not matter to it |
| `Subtree.KidAt` | kernel/vm.c:275-284 | the subtrees that freewalk visits are disjoint |
| `Subtree.SubFrame` | kernel/vm.c:271-287 | freeing one subtree does not disturb another |
| `Vm.TreeClean` | kernel/vm.c:269-287 | an address space without mappings has no leaf, and freewalk reaches each of its tables once |
| `Vm.GrowTree` | kernel/vm.c:93-100 | walk's new table keeps the tree and all mappings |
| `Vm.MapRangeAt` | kernel/vm.c:151-163 | mapping a range maps exactly its pages, to consecutive frames |
| `Vm.TooDear` | kernel/vm.c:234-247 | if one page of a range cannot be paid for, neither can the range |
| `Vm.Afforded` | kernel/vm.c:234-247 | if every page has been paid for, the free pages sufficed for all and for the tables they lacked |
| `Vm.CostGrows` | kernel/vm.c:223-249 | a longer range costs no less |
| `Vm.OutOfReach` | kernel/proc.c:257-275 | with no more pages than lie below the trap frame, no process grows so far that mappages panics |
| `Vm.Replaced` | kernel/proc.c:107-172 | a step that trades a process's pages with free ones keeps every page free or owned once |
| `Vm.Removed` | kernel/proc.c:152-172 | so does the end of a process |
| `Vm.SystemEnd` | kernel/proc.c:152-172 | with no process left every page is free |
| `Vm.OwnedFrame` | kernel/vm.c:300-333 | changes to other pages do not affect a process |
| `Vm.Machine.constructor` | kernel/kalloc.c:26-40 | freerange puts every page of the range on the free list, once |
| `Vm.Machine.Kalloc` | kernel/kalloc.c:65-82 | a page leaves the free list, or 0 exactly when it is empty |
| `Vm.Machine.Kfree` | kernel/kalloc.c:42-63 | a page that is not free joins the free list |
| `Vm.Machine.NewTable` | kernel/vm.c:96-98 | a zeroed page, or 0 exactly when none is free |
| `Vm.Machine.Walk` | kernel/vm.c:73-103 | the table with the page's entry; allocation changes no mapping, and fails only when memory runs out |
| `Vm.Machine.Lookup` | kernel/vm.c:85-103 | without allocation: the table with the page's entry, 0 exactly when there is none |
| `Vm.Machine.Mapped` | kernel/vm.c:154-157 | mappages' remap test is true exactly for a mapped page |
| `Vm.Machine.MapPage` | kernel/vm.c:153-163 | one round of mappages maps that page and no other |
| `Vm.Machine.Mappages` | kernel/vm.c:138-165 | success maps exactly the range's pages; failure leaves a prefix mapped and means that memory ran out |
| `Vm.Machine.UnmapPage` | kernel/vm.c:179-191 | one round of uvmunmap unmaps that page and frees its frame if asked |
| `Vm.Machine.Uvmunmap` | kernel/vm.c:167-192 | exactly the range is unmapped and, if asked, exactly its frames are freed |
| `Vm.Machine.Uvmcreate` | kernel/vm.c:194-205 | an empty address space, or 0 |
| `Vm.Machine.AddPage` | kernel/vm.c:236-246 | a filled private page is mapped exactly when the free pages suffice for it and the tables its path lacks; otherwise the map is as before and the frame is back |
| `Vm.Machine.GrowOne` | kernel/vm.c:235-247 | one round of uvmalloc or uvmcopy; if it fails, no range that reaches past this page could have been paid for |
| `Vm.Machine.Shrink` | kernel/vm.c:330-332 | uvmcopy's undo restores the map and returns every frame |
| `Vm.Machine.Undo` | kernel/vm.c:237-245 | uvmalloc's undo restores the map and returns every frame |
| `Vm.Machine.Uvmalloc` | kernel/vm.c:223-249 | zeroed private pages are added exactly when the free pages suffice for them and the tables they lack; failure restores the map and returns every data page; it panics in mappages exactly when the range reaches a mapped page and memory suffices to get there |
| `Vm.Machine.Uvmdealloc` | kernel/vm.c:251-267 | exactly the pages above the new size go, and their frames are freed |
| `Vm.Machine.Freewalk` | kernel/vm.c:269-287 | every table goes back to the free list once and the "leaf" panic does not happen |
| `Vm.Machine.Uvmfree` | kernel/vm.c:289-297 | user pages and tables all go back |
| `Vm.Machine.ReadPage` | kernel/vm.c:313-320 | the parent's permissions and contents for a page |
| `Vm.Machine.CopyOne` | kernel/vm.c:313-327 | one round of uvmcopy: a private copy with the same permissions and contents, or no longer range could have been paid for |
| `Vm.Machine.Uvmcopy` | kernel/vm.c:300-333 | private copies with the same permissions exactly when the free pages suffice; failure restores the child and returns every data page; the parent is unchanged |
| `Vm.Machine.ProcPagetable` | kernel/proc.c:174-206 | exactly when three pages are free, the result maps the trampoline page to the trampoline code, readable and executable, and the page below to the trap frame, readable and writable, neither for the user, and nothing else; otherwise every page is returned; the second mappages shares the first one's tables and cannot fail |
| `Vm.Machine.ProcFreepagetable` | kernel/proc.c:208-216 | every table and user page of the process is returned |
| `Vm.Machine.Growproc` | kernel/proc.c:257-275 | the size moves by n as a uint64 sum, or stays exactly when memory does not suffice; every page added is a frame of zeros that the user can read and write and not execute; pages below both sizes, the trampoline and the trap frame are untouched and pages are conserved; it panics exactly when n reaches past the trap frame with memory to get there |
| `Vm.Machine.Allocproc` | kernel/proc.c:128-141 | a trap frame and a page table with both top pages mapped as in proc_pagetable, exactly when four pages are free, else everything is back |
| `Vm.Machine.Freeproc` | kernel/proc.c:155-164 | exactly what the process held becomes free |
| `Vm.Machine.CopyInto` | kernel/proc.c:291-297 | the child has the parent's pages, exactly when the free pages suffice, or is still empty; its two top pages stay as they were |
| `Vm.Machine.Fork` | kernel/proc.c:286-297 | a child with the same contents and permissions, and its own trap frame under the trampoline, exactly when the free pages suffice for its trap frame, tables and pages, else every page is back |
| `Vm.Machine.Perform` | kernel/proc.c:107-298 | one call of such a run |
| `Vm.Machine.LifeCycles` | kernel/proc.c:107-298 | over any run of creation, growth, shrinking, copying and freeing, each step succeeding exactly when memory suffices and doing what it should (pages added are zeroed and writable, the two top pages are right and stay), every page is free or owned once in every state; after the end of every process the free list holds exactly the pages it started with |
| `UserCopy.WrotePage` | kernel/vm.c:361-364 | one memmove changes exactly the bytes of its range, by virtual address |
| `UserCopy.PieceReads` | kernel/vm.c:386-389 | one memmove reads exactly the bytes of its range |
| `UserCopy.Walkaddr` | kernel/vm.c:105-126 | the frame of a user page, 0 exactly when the page is not mapped for the user |
| `UserCopy.Copyout` | kernel/vm.c:348-371 | succeeds exactly when every byte of the range is the user's; writes exactly that range, or the part before the first byte that is not |
| `UserCopy.Put` | kernel/vm.c:364 | the same, for one page |
| `UserCopy.Copyin` | kernel/vm.c:373-396 | succeeds exactly when every byte is the user's and returns exactly those bytes |
| `UserCopy.RoundTrip` | kernel/vm.c:348-396 | whatever part of the range copyout wrote copyin then reads, it gives back those bytes |
| `UserCopy.ReadsElsewhere` | kernel/vm.c:348-396 | outside that range it gives what it gave before |
| `UserCopy.GrownReads` | kernel/proc.c:257-275 | copyin from memory that growproc added gives zeros, whatever range of it is read |
| `UserCopy.ForkReads` | kernel/proc.c:291-297 | over its whole size a forked child reads exactly what its parent reads |
| `UserCopy.ForkApart` | kernel/vm.c:305-333 | and writes to the frames of one do not change what the other reads |
| `UserCopy.TopApart` | kernel/proc.c:186-204 | copyin and copyout fail on the trampoline and the trap frame |
| `UserCopy.ScanPiece` | kernel/vm.c:418-431 | the inner loop stops at the first NUL |
| `UserCopy.Copyinstr` | kernel/vm.c:398-439 | succeeds if and only if a NUL lies within max bytes on user pages, and then gives the string up to it |
| `BlockMap.WordSet` | kernel/fs.c:407-413 | storing a 32-bit block number in an indirect block changes that entry and no other |
| `BlockMap.AttachAddr` | kernel/fs.c:388-406 | giving a free block to an empty direct slot or indirect pointer keeps ownership exact and changes no file |
| `BlockMap.AttachEntry` | kernel/fs.c:407-415 | so does giving one to an empty indirect entry |
| `BlockMap.PutKeeps` | kernel/fs.c:520-527 | writing a file's data block changes that block of that file only |
| `BlockMap.EmptiedInv` | kernel/fs.c:425-453 | freeing all blocks of one inode keeps ownership exact |
| `BlockMap.WroteContents` | kernel/fs.c:505-539 | bytes written at an offset are a splice of the file's contents; other files keep theirs |
| `FileSystem.FileSystem.Balloc` | kernel/fs.c:63-88 | the lowest free block is marked and zeroed; 0 exactly when the disk is full |
| `FileSystem.FileSystem.Bfree` | kernel/fs.c:90-105 | exactly one bit is cleared; callers never free a free block |
| `FileSystem.FileSystem.BmapAddr` | kernel/fs.c:388-406 | a direct slot, or the indirect pointer, is found or allocated |
| `FileSystem.FileSystem.BmapEntry` | kernel/fs.c:407-417 | an entry of the indirect block is found or allocated |
| `FileSystem.FileSystem.Bmap` | kernel/fs.c:379-421 | the block of a file block, allocated if need be; no file's contents change; 0 only when the disk is full; a bit is set exactly for blocks that one slot names |
| `FileSystem.FileSystem.ReadPiece` | kernel/fs.c:482-493 | one block's part of a read, with nothing allocated |
| `FileSystem.FileSystem.Readi` | kernel/fs.c:467-496 | exactly the slice of the contents clipped to the size, or the part of it before the piece that cannot be copied out; state and log unchanged, so readi never allocates |
| `FileSystem.FileSystem.WritePiece` | kernel/fs.c:516-529 | one block's part of a write, and what it may log |
| `FileSystem.FileSystem.WriteRound` | kernel/fs.c:516-529 | the same, within the budget of the whole write |
| `FileSystem.FileSystem.Finish` | kernel/fs.c:530-538 | the size becomes the larger of old size and end of write, and the inode is logged |
| `FileSystem.FileSystem.Writei` | kernel/fs.c:498-539 | -1 exactly for a bad range; otherwise exactly bytes off up to off + tot are replaced, all of them readable, and short only where the next byte has no block and the disk is full, or for want of readable bytes; the size grows as needed, other files are unchanged, every block changed is logged, and the blocks logged are at most Cost, and at most the blocks written, the bitmap blocks and two |
| `FileSystem.ChunkCost` | kernel/file.c:149-157 | a write of at most three blocks' worth costs at most ten logged blocks, seven with one bitmap block, at any offset |
| `FileSystem.BudgetTotal` | kernel/fs.c:505-539 | the count behind Cost, which uses that an unaligned start block is already mapped |
| `FileSystem.FirstMapped` | kernel/fs.c:511-517 | an unaligned start lies in a block that is there |
| `FileSystem.MkfsInv` | mkfs/mkfs.c:234-248 | no inode with blocks and only the metadata blocks marked is a good file system with empty files |
| `FileSystem.FileSystem.constructor` | kernel/fs.c:40-47 | a good file system found on disk |
| `FileSystem.FileSystem.Mkfs` | mkfs/mkfs.c:234-248 | the one that mkfs starts from |
| `FileSystem.WithinQuota` | kernel/file.c:149-155 | with up to three bitmap blocks a chunk logs at most MAXOPBLOCKS - 1 blocks |
| `FileSystem.FileSystem.Chunk` | kernel/file.c:158-167 | one transaction of filewrite: the splice, when it may be short, the new size, the blocks logged within the budget, and every block changed among them |
| `FileSystem.FileSystem.NextChunk` | kernel/file.c:157-174 | one round: the bytes so far and this chunk's are one splice |
| `FileSystem.FileSystem.FreeSlot` | kernel/fs.c:432-447 | itrunc never frees a free block |
| `FileSystem.FileSystem.FreeIndirect` | kernel/fs.c:439-449 | every entry's block and then the indirect block are freed |
| `FileSystem.FileSystem.Itrunc` | kernel/fs.c:423-453 | exactly the inode's blocks become free, its contents are empty, other files are unchanged, and every block changed is logged |
| `FileSystem.FileSystem.Filewrite` | kernel/file.c:132-181 | the file is spliced with what was written and the result tells whether that was all; it fails for a bad range, and otherwise only where the next byte has no block and the disk is full, or for want of readable bytes; there is one transaction for every three blocks up to the one that stops short, and the blocks logged in each are at most ten, and at most six more than the bitmap has |
| `Links.LinkKeeps` | kernel/sysfile.c:149-157 | the entry for a counted link, made in a linked directory, keeps every link count right |
| `Links.LinkBegins` | kernel/sysfile.c:145-147 | counting a link before it is made keeps every count right if and only if the count has room |
| `Links.LinkFails` | kernel/sysfile.c:163-169 | the failure path takes exactly that count back |
| `Links.AllocKeeps` | kernel/sysfile.c:265-274 | a new inode with one link owed keeps the counts |
| `Links.MkdirKeeps` | kernel/sysfile.c:276-289 | a new directory keeps the counts, the names and the tree |
| `Links.MkdirExact` | kernel/sysfile.c:276-289 | a new directory keeps every count right, and the tree, if and only if its parent is linked and the parent's count has room |
| `Links.DeadLink` | kernel/sysfile.c:149-157 | an entry made in a directory that is no longer linked makes a count wrong |
| `Links.DeadMkdir` | kernel/sysfile.c:276-289 | so does a directory made there |
| `Links.FileExact` | kernel/sysfile.c:265-294 | create of a file keeps the counts right if and only if the parent is linked |
| `Links.MakeExact` | kernel/sysfile.c:245-302 | create keeps the counts right if and only if it makes nothing, or its parent is linked and has room for a directory's link |
| `Links.StartExact` | kernel/sysfile.c:138-147 | the first half of sys_link does if and only if the count it raises has room |
| `Links.EndExact` | kernel/sysfile.c:149-169 | the second half does if and only if it fails or the parent is linked |
| `Links.StepExact` | kernel/sysfile.c:122-302 | a call keeps every count right, and with it the names and the tree, if and only if it is not one of those |
| `Links.RunExact` | kernel/sysfile.c:122-302 | over every run, the counts are right up to any point if and only if no call so far was one of those |
| `Links.GoneStaysOpen` | kernel/sysfile.c:217-233 | a directory that was removed while open is a good state |
| `Links.BrokenCreate` | kernel/sysfile.c:245-302 | mkdir, rmdir and create in the removed directory: three calls from a new file system make a count wrong |
| `Links.BrokenLink` | kernel/sysfile.c:149-157 | sys_link into a removed directory makes the count of the file wrong |
| `Links.EmptyDirOnce` | kernel/sysfile.c:215-220 | an empty directory is named by exactly one counted entry, so its link count is 1 |
| `Links.RemoveFinds` | kernel/sysfile.c:205-220 | what sys_unlink accepts is a proper entry past the first two of a linked directory, and its inode has a link |
| `Links.UnlinkFileKeeps` | kernel/sysfile.c:222-233 | removing a file's name keeps every count right |
| `Links.UnlinkDirKeeps` | kernel/sysfile.c:217-233 | removing an empty directory, which had exactly one link, keeps every count right |
| `Links.RemoveKeeps` | kernel/sysfile.c:188-243 | sys_unlink keeps every count right |
| `Links.RemoveGone` | kernel/sysfile.c:188-243 | after it the name is gone, and a directory it removed had exactly one link |
| `Links.FreeKeeps` | kernel/fs.c:336-362 | freeing an inode without links keeps every count right |
| `Links.ReleaseKeeps` | kernel/fs.c:329-362 | the last iput keeps every count right |
| `Links.NewInv` | mkfs/mkfs.c:117-128 | a file system with only the root is right |
| `Links.NameSpace.constructor` | mkfs/mkfs.c:117-128 | the same, as the initial state |
| `Links.NameSpace.DirLookup` | kernel/fs.c:549-575 | the first entry with the name, -1 exactly when there is none |
| `Links.NameSpace.DirLink` | kernel/fs.c:577-606 | the entry goes in the first free slot exactly when the name is absent and the write has room; otherwise nothing changes |
| `Links.NameSpace.IsDirEmpty` | kernel/sysfile.c:172-186 | true if and only if nothing follows the first two entries |
| `Links.NameSpace.FindFree` | kernel/fs.c:194-219 | the first free inode, 0 exactly when there is none |
| `Links.NameSpace.CreateFile` | kernel/sysfile.c:265-302 | the new inode and its entry, exactly when an inode is free and the writes have room; otherwise nothing changes |
| `Links.NameSpace.AddDots` | kernel/sysfile.c:276-280 | the two entries of a new directory |
| `Links.NameSpace.CreateDir` | kernel/sysfile.c:265-302 | the new directory, its entries and its parent's link, exactly when an inode is free and the writes have room; otherwise nothing changes |
| `Links.NameSpace.Create` | kernel/sysfile.c:245-302 | all cases of create, with what it returns, and exactly when the counts stay right |
| `Links.NameSpace.LinkBegin` | kernel/sysfile.c:138-147 | directories are refused, otherwise the link is counted; right exactly when the count has room |
| `Links.NameSpace.LinkEnd` | kernel/sysfile.c:149-169 | the entry is made, or the count is taken back; right exactly when it fails or the parent is linked |
| `Links.NameSpace.Unlink` | kernel/sysfile.c:188-243 | fails exactly for "." and "..", a missing name or a directory that is not empty; otherwise exactly that entry and its links go |
| `Links.NameSpace.UnlinkAt` | kernel/sysfile.c:211-237 | the same once the entry is found; "nlink < 1" does not happen |
| `Links.NameSpace.ClearEntry` | kernel/sysfile.c:222-232 | the three writes |
| `Links.NameSpace.Put` | kernel/fs.c:329-362 | the last reference frees an inode exactly when it has no links |
| `LinkMeaning.CreateFinds` | kernel/sysfile.c:257-264 | for a name that is there create changes nothing, and gives its inode if and only if a file is wanted and it is a file or device |
| `LinkMeaning.CreateMakes` | kernel/sysfile.c:266-302 | for a name that is not there, exactly with a free inode and room for its writes, create gives a new inode of the kind asked for, the name now stands for it, a directory has "." and ".." and adds a link to its parent, and no other name or count changes; otherwise nothing does |
| `LinkMeaning.UnlinkRefuses` | kernel/sysfile.c:203-222 | unlink refuses if and only if the name is "." or "..", is not there, or stands for a directory that holds other names |
| `LinkMeaning.UnlinkRemoves` | kernel/sysfile.c:224-237 | otherwise exactly that name goes, its inode has one link less, and so has the parent of a directory |
| `LinkMeaning.LinkStarts` | kernel/sysfile.c:138-147 | the first half of sys_link adds one link to a file or device and does nothing to a directory; no name changes |
| `LinkMeaning.LinkEnds` | kernel/sysfile.c:149-169 | the second half makes the name stand for the file if and only if there is a parent, the name is not in it and the write has room; otherwise it takes the link back |
| `LinkMeaning.ReleaseFrees` | kernel/fs.c:336-362 | the last reference frees an inode if and only if it has no links, and touches no other |
| `Links.NameSpace.Run` | kernel/sysfile.c:122-302 | any run of calls none of which breaks a count ends in the state that the run says, with each link count equal to the number of entries other than "." that name the inode in linked directories, plus the links that sys_link is about to make |
| `Links.NameSpace.Perform` | kernel/sysfile.c:122-302 | each call has the effect that the run says, and keeps the counts right exactly when it is not one of those that break them |
| `Pipe.Counters` | kernel/pipe.c:88-95 | slot, increment, empty test and full test are right past the wrap of the 32-bit counters |
| `Pipe.RingPut` | kernel/pipe.c:95 | a byte put in the ring disturbs none that is waiting |
| `Pipe.RingGet` | kernel/pipe.c:123 | the byte taken out is the oldest |
| `Pipe.Stops` | kernel/pipe.c:83-97 | pipewrite's loop stops after m bytes exactly when it is done, the pipe is closed or full, the writer killed or an address bad |
| `Pipe.StepSound` | kernel/pipe.c:58-130 | every event keeps what came out a prefix of what went in, at most PIPESIZE behind, and writers asleep only on a full pipe that can be read |
| `Pipe.StepAwake` | kernel/pipe.c:58-130 | an event leaves readers asleep only on an empty pipe that can be written, if and only if it is not a writer killed after putting something, before it is done, with a reader asleep |
| `Pipe.RunSound` | kernel/pipe.c:58-130 | in every state of every run: FIFO order, the bound, and no writer asleep without reason |
| `Pipe.RunAwake` | kernel/pipe.c:58-130 | readers sleep with reason throughout a run if and only if no event strands one |
| `Pipe.CleanAwake` | kernel/pipe.c:84-87 | so they do in every run whose writers see a kill at the first check of a segment or not at all |
| `Pipe.Pipe.constructor` | kernel/pipe.c:22-42 | an empty pipe with both ends open |
| `Pipe.Pipe.Put` | kernel/pipe.c:95 | the stream grows by the byte |
| `Pipe.Pipe.Get` | kernel/pipe.c:123 | the byte taken from the ring is the next of the stream |
| `Pipe.Pipe.WriteSegment` | kernel/pipe.c:76-103 | exactly which bytes enter the stream, how the segment ends (done, -1 when the pipe is closed or the writer killed, asleep when it is full, short at a bad address), and who is woken |
| `Pipe.Pipe.ReadSegment` | kernel/pipe.c:105-130 | the bytes returned are the next of the stream, in order; one that cannot be delivered is lost; exactly how the segment ends and who is woken |
| `Pipe.Pipe.Close` | kernel/pipe.c:58-74 | one end closes and those who wait for it wake |
| `Pipe.Run` | kernel/pipe.c:58-130 | any interleaving of calls on a new pipe ends in the state that its events say, which is sound, and in which no reader sleeps without reason if kills fall at the first check of a segment |
| `Pipe.Perform` | kernel/pipe.c:58-130 | each event has the effect on the streams, the ends and the sleepers that the run says |
| `Pipe.Stranded` | kernel/pipe.c:84-87 | a killed writer does leave a reader asleep on a pipe that is not empty |
| `Pipe.CallSent` | kernel/pipe.c:76-103 | in every run a writer asleep in the pipe has put in, over all its segments, exactly the first i bytes it was given, in order |
| `Pipe.WriteReturns` | kernel/pipe.c:76-103 | in every run pipewrite returns r only when exactly the first r bytes it was given went into the stream, and all of them did or the next cannot be read; -1 only when the pipe cannot be read or the writer was killed; it sleeps only on a full pipe |
| `Pipe.ReadReturns` | kernel/pipe.c:105-130 | piperead returns -1, or sleeps, if and only if the pipe is empty and can be written, by whether it was killed; otherwise it delivers all that is asked for, waiting and deliverable, and 0 of a positive count with a good address means the end of the stream |
| `Pipe.ReadTakes` | kernel/pipe.c:119-127 | the bytes that leave the stream are those returned, and one more exactly when the next one cannot be delivered |
| `Pipe.KillFrees` | kernel/pipe.c:112-117 | in every run a killed process does not sleep in the pipe, and the kill changes nothing for any other |
| `Virtio.SlotOf` | kernel/virtio_disk.c:271-277 | a 16-bit index selects the ring slot its unbounded count would, and counts on past its wrap |
| `Virtio.IndexEqual` | kernel/virtio_disk.c:312 | counts at most a ring apart are equal exactly when their 16-bit indices are |
| `Virtio.WindowPush` | kernel/virtio_disk.c:271-277 | adding to a ring overwrites nothing that is waiting in it |
| `Virtio.WindowPop` | kernel/virtio_disk.c:312-325 | the oldest entry of a ring is read |
| `Virtio.Enter` | kernel/virtio_disk.c:226-269 | three reserved descriptors become a request and still every descriptor is free or in one place |
| `Virtio.Leave` | kernel/virtio_disk.c:288-289 | and back |
| `Virtio.FormatKeeps` | kernel/virtio_disk.c:238-269 | formatting one request disturbs no other |
| `Virtio.ExactlyOnce` | kernel/virtio_disk.c:294-327 | every request made has been completed exactly once, or is in flight and not completed |
| `Virtio.ActsKeep` | kernel/virtio_disk.c:294-327 | whatever the device does, no request changes hands, none is made and none is woken |
| `Virtio.Disk.constructor` | kernel/virtio_disk.c:61-153 | an initialised queue: all descriptors free, rings empty |
| `Virtio.Disk.AllocDesc` | kernel/virtio_disk.c:155-166 | a free descriptor is taken, or -1 exactly when none is free |
| `Virtio.Disk.FreeDesc` | kernel/virtio_disk.c:168-182 | neither panic happens; exactly that descriptor becomes free |
| `Virtio.Disk.Alloc3` | kernel/virtio_disk.c:199-213 | three different free descriptors, or the free array as it was; succeeds if and only if three are free |
| `Virtio.Disk.Rollback` | kernel/virtio_disk.c:206-210 | the second loop restores the free array |
| `Virtio.Disk.FreeChain` | kernel/virtio_disk.c:184-197 | following the links frees exactly the chain, without a panic |
| `Virtio.Disk.Submit` | kernel/virtio_disk.c:215-281 | a formatted request enters the avail ring exactly when three descriptors are free; otherwise nothing changes |
| `Virtio.Disk.Format` | kernel/virtio_disk.c:238-269 | the three descriptors, the header and the info entry |
| `Virtio.Disk.Enqueue` | kernel/virtio_disk.c:271-277 | the avail ring and its wrapping index |
| `Virtio.Disk.DeviceTake` | kernel/virtio_disk.c:271-281 | the device takes the requests in the order they were queued |
| `Virtio.Disk.DeviceServe` | kernel/virtio_disk.c:238-269 | reading the descriptors, whose lengths and flags are those the device accepts for the request, it makes exactly the transfer that was asked for |
| `Virtio.Disk.Transfer` | kernel/virtio_disk.c:238-265 | the same, on the raw descriptors of an acceptable chain |
| `Virtio.ServeMeans` | kernel/virtio_disk.c:233-265 | carrying out a write puts the buffer's data in its block, a read the block's data in its buffer, and nothing else changes |
| `Virtio.AskedFor` | kernel/virtio_disk.c:215-281 | in every run each request in flight was asked for by a call of virtio_disk_rw, with that buffer, direction and block number |
| `Virtio.Disk.IntrOne` | kernel/virtio_disk.c:312-325 | the oldest completion wakes its own buffer, and its status is 0 |
| `Virtio.Disk.IntrRound` | kernel/virtio_disk.c:312-325 | the same round, as a step of the run |
| `Virtio.Disk.Intr` | kernel/virtio_disk.c:294-327 | the loop ends after n rounds, each waking the oldest completion, with nothing unseen, whatever the device does between them |
| `Virtio.Disk.Finish` | kernel/virtio_disk.c:283-291 | a request returns only after it was completed, and exactly its descriptors become free |
| `Virtio.Disk.Run` | kernel/virtio_disk.c:215-327 | any run of requests, device steps, interrupts and returns goes through the states its events make; in each of them no request has completed twice, and with nothing in flight each has completed once and all descriptors are free |
| `Virtio.Disk.Perform` | kernel/virtio_disk.c:215-327 | each event makes the step that the run says |
| `ShellGrammar.RedirsSound` | user/sh.c:375-398 | the redirections parsed derive from the tokens consumed |
| `ShellGrammar.ArgsSound` | user/sh.c:431-443 | words and redirections gathered by the loop are exactly those of the tokens consumed, in order, and fewer than MAXARGS words |
| `ShellGrammar.BlockSound` | user/sh.c:400-414 | a parsed block derives from the tokens consumed |
| `ShellGrammar.PipelineSound` | user/sh.c:362-373 | a parsed pipeline derives from the tokens consumed |
| `ShellGrammar.BacksSound` | user/sh.c:351-354 | so do the backgrounds around it |
| `ShellGrammar.LineSound` | user/sh.c:345-360 | so does a parsed line |
| `ShellGrammar.ItemsComplete` | user/sh.c:427-446 | every mix of words and redirections, with whatever symbol may follow it, is parsed back into the same words and redirections |
| `ShellGrammar.BlockComplete` | user/sh.c:400-414 | every block of the grammar is parsed, into its own command, whatever may follow it |
| `ShellGrammar.PipeComplete` | user/sh.c:362-373 | so is every pipeline |
| `ShellGrammar.BackComplete` | user/sh.c:350-354 | so is every background command |
| `ShellGrammar.LineComplete` | user/sh.c:345-360 | so is every line |
| `ShellGrammar.AcceptsExactly` | user/sh.c:323-447 | the parser ends with no token left and the command c if and only if the grammar derives c from the tokens and its simple commands have fewer than MAXARGS words |
| `ShellGrammar.Unambiguous` | user/sh.c:323-447 | a line has at most one such command |
| `ShellGrammar.LineWords` | user/sh.c:345-447 | a derived command records exactly the words of its tokens, each as often as it occurs |
| `Shell.WordsSplit` | user/sh.c:266-309 | cutting a line where no word crosses cuts its words |
| `Shell.ScanWords` | user/sh.c:266-309 | the words among the tokens are exactly the maximal runs of word characters in the line, each once |
| `Shell.SkipWhite` | user/sh.c:273-274 | white space is skipped, and only that |
| `Shell.Peek` | user/sh.c:311-321 | true exactly when the next character is one of those asked for; no token is consumed |
| `Shell.TokenEnd` | user/sh.c:277-301 | the token that starts here and where it ends |
| `Shell.GetToken` | user/sh.c:266-309 | exactly the next token of the line is consumed, with its bounds; a word is a maximal run |
| `Shell.TokenSpells` | user/sh.c:266-309 | a token is spelled by exactly the characters it was read from, none of them white, and > is read only where >> is not |
| `Shell.ScanSpells` | user/sh.c:266-309 | the tokens of a line spell the line without its white space |
| `Shell.FirstToken` | user/sh.c:311-321 | the character peek looks at decides what kind the next token is |
| `Shell.ParseRedirs` | user/sh.c:375-398 | the redirections that the token parser gives, or its error; the text left is the tokens left; what they open is `ShellMeaning.LineOpens` |
| `Shell.ParseSimple` | user/sh.c:427-446 | the same for a simple command |
| `Shell.ParseBlock` | user/sh.c:400-414 | the same for a block, and a panic if there is no opening parenthesis |
| `Shell.ParseExec` | user/sh.c:416-447 | the same for a block or a simple command |
| `Shell.ParsePipe` | user/sh.c:362-373 | the same for a pipeline |
| `Shell.ParseLine` | user/sh.c:345-360 | the same for a line; the recursion ends on every line |
| `Shell.NulTerminate` | user/sh.c:449-494 | NUL is written at the end of every recorded word and nowhere else |
| `Shell.Separate` | user/sh.c:449-494 | no terminator lands inside a word |
| `Shell.ParseCmd` | user/sh.c:328-343 | ends on every line; it returns the command d if and only if the grammar derives d from the line's tokens with fewer than MAXARGS words in each simple command, and otherwise leaves the buffer alone; every word of the line is recorded exactly once, the files it opens are those the line's operators name, with mode and descriptor, and after nulterminate each argument and file string is exactly its slice of the line |
| `ShellMeaning.LineOpens` | user/sh.c:375-398 | a command derived from a line opens exactly the files named after its operators: descriptor 0 for reading after <, 1 for writing, created, after > (truncated) and >> |
| `ShellMeaning.ShowIs` | user/sh.c:345-447 | the grammar derives every command of a proper shape from that command written out as tokens |
| `ShellMeaning.ShowParses` | user/sh.c:345-447 | parsing a command written out gives that command back |
| `Grep.BelongsFirst` | user/grep.c:83-95 | the language of a pattern, one item at a time |
| `Grep.HereFirst` | user/grep.c:83-105 | a pattern matches here if and only if its first item takes a prefix and the rest matches after it |
| `Grep.HereOne` | user/grep.c:92-94 | for a character or a dot, that prefix is one character |
| `Grep.MatchHere` | user/grep.c:83-95 | true if and only if a prefix of the text (all of it after $) is in the pattern's language |
| `Grep.MatchStar` | user/grep.c:97-105 | true if and only if some number of c's can be followed by a match of the rest |
| `Grep.Match` | user/grep.c:71-81 | true if and only if a substring of the text, at its start after ^, is in the pattern's language |
| `Grep.ParseWritten` | user/grep.c:83-95 | every expression is the writing of the pattern it is read as |
| `Grep.WrittenParses` | user/grep.c:83-95 | a pattern written out is read as itself if and only if no plain character stands before a star and no last one is $ |

## Left out

- Boot, traps, the PLIC, the UART, the console and printf: hardware and output.
- Spin lock and sleep lock internals: a lock is its owner, and acquiring one that is held is not a step.
- exec, argument fetching, file descriptors, fstat, chdir and path lookup (namex, skipelem): checks and delegation.
- Liveness: only safety and the end of loops; that a process is eventually scheduled or a transaction eventually commits is not stated.
- The bits of a bitmap byte: a bitmap block is a sequence of bits, not of bytes that hold eight.
- The in-memory and on-disk copies of an inode: there is one; iupdate is the logging of its block, and iget and ilock are not modelled.
- `fs.dfy` and `links.dfy` are separate: a directory's entries in `links.dfy` are not read out of the file blocks of `fs.dfy`, and the calls there take as a parameter whether a write finds room.
- Process.StepKeeps: open files, the current directory and memory are not part of the process machine; the memory of fork, exit and wait is in `vm.dfy`.
- Process.ReapedOnce: nextpid is unbounded where the code has an int, so the wrap after two thousand million forks is not modelled.
- Process.ForkAllocKeeps: allocproc's scan for a free slot is one step that may pick any free slot.
- Vm.Machine.LifeCycles: the machine has no more pages than lie below the trap frame, as in kernel/memlayout.h, so growproc does not panic; exec's replacement of an address space is not one of its calls.
- Vm.Machine.Fork: the contents of the trap frame, that is the copied registers with a0 set to 0, are not modelled.
- UserCopy.Copyout: user frames are assumed different pages, as uvmalloc and uvmcopy make them.
- FileSystem.FileSystem.Readi and Writei: a copy to or from user memory fails as a whole for each piece; a partial change of a buffer by a failing copy is not modelled.
- FileSystem.FileSystem.Writei: the log itself is only the set of blocks passed to log_write; Log.Log has the rest.
- LinkMeaning.CreateMakes: an inode's device numbers are not modelled.
- Links.NameSpace.Create: each call is one step, though sys_link is two; the moment inside sys_unlink when the parent is already unlocked is not a state.
- Virtio.Disk.DeviceServe: the device reports success; a failing status makes the driver panic.
- Virtio.Disk.constructor: the register negotiation of virtio_disk_init is not modelled.
- Pipe.Run: a read or write that continues after a wakeup is an event of its own, and the bytes delivered to each process are in ReadSegment, not collected per process.
- Shell.ParseCmd: command nodes are values, built when complete, where the code fills them in place; runcmd is out.
- Grep.Match: the loop that reads a file in pieces and cuts it into lines is out.
- LogCache.RecoversWholeOperations: one device, and an operation logs what it changed before it releases the buffer, which is how the callers in kernel/fs.c use the log; a process that waits for a buffer waits for no other.
- FileSystem.WithinQuota: that a chunk can reach ten with four bitmap blocks is not shown by an example.
- KrMalloc.Heap.Malloc: what follows once sbrk was asked for less than morecore then frees is not modelled; the result says when that happens.
- mkfs: only its layout constants, its block bitmap before any file is added, and its root directory.
