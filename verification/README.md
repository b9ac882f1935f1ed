# A verified model of the xv6 kernel's hard parts

This project models, in Dafny, the parts of an xv6 kernel for RISC-V (with per-CPU run queues) and of its user programs where
most can go wrong, and proves what they promise. `dafny verify dfyconfig.toml` checks everything.

| area | files | main results |
|---|---|---|
| Write-ahead log and buffer cache | `DiskLayout`, `LogMachine`, `LogInvariant`, `LogTheorems`, `LogPanic`, `LogStray`, `LogHistory`, `LogCode`, `BufferCache` | crash atomicity with crashes inside recovery, durability of group commit, the last `end_op` commits and an idle log has everything at home, what is read and recovered told by the calls of `log_write`, reads see the logical disk, exactly when contents that were never logged are read or committed, exactly when the log overflows |
| Process lists and states | `ProcLists`, `ProcInit`, `ProcStates`, `ProcLife`, `ProcProgress`, `ProcDeadlock` | hand-over-hand locking keeps eleven lists well formed under every interleaving; boot fills the unused list; state and list membership agree on eight CPUs; which state, list and CPU a process has, told by the calls that moved it; an exited process is a zombie until it is reaped; exactly when list and process locks deadlock |
| File system | `FsLayout`, `BlockCost`, `FileSystem`, `FileWrite`, `FileWriteCost`, `InodeTable`, `InodeOrphans`, `InodeHistory` | bitmap and block pointers agree exactly, `readi` and `writei` are slice and splice, what a write changes it logs, exactly when a write runs out of blocks, the transactions of `filewrite` fit their budget whatever others do in between, recycling of in-memory inodes never shows a stale or freed one, what a reference names and sees told by the calls before, exactly when an inode is lost |
| Virtual memory | `PageTable`, `TableCost`, `VirtualMemory`, `UserMemory`, `FreeTables`, `UserCopy`, `AddressSpace`, `PageConservation` | Sv39 trees refine a flat map, growth and copy succeed exactly when pages and tables fit, what a failure leaves behind, every page returned exactly once, copies in and out equal the flat view |
| Disk driver | `VirtioRing`, `VirtioInvariant`, `VirtioTransfers`, `VirtioDriver` | descriptor ownership, ring entries never overwritten across 16-bit wrap, completions reach the issuing buffer, the disk holds what the last completed write of each block put there and a read returns it |
| Pipe | `Pipe`, `PipeRuns` | no byte lost or duplicated across 32-bit wrap, when reads and writes return and with what, exactly when a sleeper can be stranded |
| User code | `FreeList`, `KrAlloc`, `Regex`, `ShellLexer`, `ShellParser`, `ShellGrammar`, `ShellRoundTrip`, `ShellWords` | the allocator's list and partition and when it claims memory it does not have, the matcher against a declarative language, the lines the shell accepts and what they mean, the shell's print and parse round trip, also in place |

`Params` holds the constants and the `Option` type they share.

## How the model is built

Concurrent code is a state machine: a datatype for the state, one constructor of `Event` for each atomic step, `Enabled` and
`Apply` for what a step needs and does, an invariant `Inv`, one lemma for each step that the invariant is kept, and theorems over
every state of every `Run`. Beside what the invariant says, theorems over runs say what the state is in terms of the events that led
to it (`LogHistory`, `ProcLife`, `InodeHistory`, `VirtioTransfers`, `PipeRuns`). Steps are cut where another thread, CPU or device can intervene: at lock operations, at sleeps, at
single disk writes. Sequential code that changes things in place is a class or a method with loops, proved against functions on
values; those functions are what the lemmas and the machines speak about. A `panic` is `None`, `false`, a stuck step or a
precondition, and where the kernel's own callers can never cause it, a lemma says so.

Numbers that wrap do so explicitly: `uint` counters of the pipe modulo 2^32, ring indices modulo 2^16, the argument of `sbrk`
truncated to a signed 32-bit integer. Page-table entries are records, with lemmas for their packing into words.

What the model takes as given: a single-block disk write is atomic; the file-system image is well formed (`mkfs` is not part of
this model) and `log.size` leaves room for a full log; directory entries name allocated inodes; the first `room` bytes of a
user buffer can be copied and no more; the device completes each chain it is given, once, in any order, with status 0; `sbrk`
returns the end of the process's memory, above all it has given `malloc` and not taken back; pages below a process's size belong to
its address space, and a page is mapped for the user only by the address space it belongs to.

## Findings

- `log_write` tests for a full log before it looks for the block in the header, so an operation within its budget that logs a
  block again can reach the panic. `LogPanic.RelogPanics` is such a run: three operations log ten blocks each, and then one of
  them logs one of its own again. `LogPanic.PanicsExactly`: for an operation within its budget the panic strikes if and only if the
  header is full, and then every open operation has used its whole budget and the block is already there.
- An inode can stay allocated with no link and nobody left to free it: after `iput` has freed an inode on disk and before it
  drops its reference, another thread can create a file in the same inode; when that is unlinked and closed meanwhile, two
  references are counted and it is not freed (`InodeOrphans.LeakedInode` is the run). `InodeOrphans.StepOrphan` and
  `OrphansExactly`: an inode is lost if and only if a last reference that anyone could free it through is dropped while the
  entry counts another one or is not loaded; and it is lost for good (`OrphanForever`).
- Two processes that fork at the same time can stop each other for good. `allocproc` releases the lock of the unused list before it
  takes the process it has chosen off that list; another `allocproc` can read the same process there in between, and then waits for
  its lock with the list locked, while the first waits for the list (`ProcDeadlock.ForksDeadlock` is a run from boot).
  `ProcProgress.AliveExactly` and `DeadlocksExactly`: every CPU can go on, or waits in the end for one that can, if and only if no
  `allocproc` ever reads the list in between; `StuckForever` and `ShutForever`: otherwise the two stay as they are, and no process is
  allocated again.
- A failing `uvmalloc` or `uvmcopy` gives back every data page but keeps the page-table pages `walk` made on the way
  (`UserMemory.GrowFresh`: with two free pages, growing an empty address space by a page fails and leaves one).
  `UserMemory.Uvmalloc` and `Uvmcopy` fail if and only if there are fewer free pages than pages and missing tables, and
  `UserMemory.FreeAfterFailure` says when the free pages are those from before.
- `writei` returns after a copy that failed in the middle of a block without logging that block, and with its bytes already
  changed (`FileWrite.TornByte`: on a well-formed disk it returns 0 for two bytes, and the first is in the file).
  `FileSystem.TornShows`: the file is as the returned count says if and only if the bytes copied beyond it, up to the one that
  could not be read, change nothing or fall beyond its end.
- The buffer it releases then is not on its way to the disk, but the next reader sees it (`LogStray.StrayRead`), and if the block
  waits to be committed for another operation, `commit` writes it (`LogStray.StrayCommits`). `LogStray.FaithfulExactly`: over
  every run, only what was passed to `log_write` is read or committed for a block if and only if no buffer of it is released
  with anything else in it.
- `writei` panics in `balloc` on a full disk, part of the way through. `FileSystem.Fs.Writei`: exactly when the bounds are right and
  there are fewer free blocks than missing data blocks up to the last round, and a missing indirect block.
  `FileWriteCost.PanicsExactly` says the same of a whole call of `filewrite`.
- `itrunc` logs a bitmap block for each part of the bitmap it touches, and can log more than an operation may: on a disk with
  eleven bitmap blocks (`FileWrite.WideFile`). `FileWrite.Truncate`: it stays within its budget if and only if the blocks of the
  file are in fewer than `MAXOPBLOCKS` bitmap blocks, which is always so on a disk with nine (`FileWrite.SmallDisk`).
- A writer killed in the middle of `pipewrite` returns without waking readers, so a reader can sleep on a pipe that holds
  bytes (`PipeRuns.KillStrandsReader`). `PipeRuns.SleepersUntil` gives the exact condition over whole runs.
- `morecore` passes a byte count to `sbrk`, which takes an `int`, and claims the block whatever reached it. A first request for
  2^32 - 1 bytes returns a block of which the process has 16 (`KrAlloc.HugeRequest`). `KrAlloc.Heap.Malloc`: memory that is not
  there is claimed if and only if no free block was large enough, `sbrk` succeeded and the request was above 2147483616 bytes;
  as long as that never happened no two blocks overlap, and after that first request every other one does
  (`KrAlloc.NextRequest`).

## Model

| member | source | states |
|---|---|---|
| `DiskLayout.HeadRoundTrip` | kernel/log.c:86-114 | write_head puts the count in the first word of the header block and the entries in the words after it, and the other words stay; read_head gets back what it put there |
| `DiskLayout.InstallRecovers` | kernel/log.c:68-83 | copying a logged block home, any number of times, leaves what recovery would produce unchanged |
| `LogInvariant.StepKeeps` | kernel/log.c:68-235 | every step of cache, log, commit, recovery and crash keeps the combined invariant |
| `LogInvariant.WriteHeadKeeps` | kernel/log.c:102-114 | the one disk write that moves the committed state from the old transaction to the new |
| `LogInvariant.InstallKeeps` | kernel/log.c:68-83 | installing a block during commit keeps the invariant, unpinning its buffer |
| `LogInvariant.RecoverInstallKeeps` | kernel/log.c:116-123 | installing a block during recovery keeps the invariant |
| `LogInvariant.LogWriteKeeps` | kernel/log.c:214-235 | logging or absorbing a block keeps the header duplicate free, the pins and the budgets right |
| `LogInvariant.BeginOpKeeps` | kernel/log.c:126-142 | admission keeps the sum of logged blocks and open budgets within the log |
| `LogInvariant.EndOpKeeps` | kernel/log.c:146-175 | leaving an operation keeps the accounting; that the last one to leave commits is `LogHistory.LastEndCommits` |
| `LogInvariant.GetKeeps` | kernel/bio.c:58-89 | taking or recycling a buffer keeps one buffer for each block and never recycles one in use or pinned |
| `LogInvariant.CrashKeeps` | kernel/log.c:116-123 | after losing all memory at any step the disk still recovers to the committed state |
| `LogTheorems.CrashAtomicity` | kernel/log.c:116-123 | for every run with any number of crashes, also inside recovery, and with buffers released unlogged, a completed recovery leaves every home block as the last transaction whose header was written left it, never a mixture |
| `LogTheorems.CommitDurable` | kernel/log.c:193-203 | when commit has returned, everything logged so far is in the home blocks and would survive a crash |
| `LogTheorems.ReadsLogical` | kernel/bio.c:92-103 | a locked buffer that is not changed and unlogged holds the logical contents of its block: those last given to log_write or, for a block waiting to be committed, last released |
| `LogTheorems.RecyclingLosesNothing` | kernel/bio.c:75-87 | the block a recycled buffer gives up is on disk in its latest logical form; only a change that was never given to log_write goes with the buffer |
| `LogTheorems.OneBufferPerBlock` | kernel/bio.c:58-89 | no block is cached twice, and a reference count is the number of holders and pins |
| `LogTheorems.CommittedBuffers` | kernel/log.c:193-203 | when commit has returned, every valid buffer holds what its disk block holds, unless it was changed since without log_write |
| `LogHistory.LastEndCommits` | kernel/log.c:146-175 | in every run the end_op of the only open operation starts a commit, which has nothing to do if and only if nothing is logged; any other end_op leaves the phase; none changes header, disk or logical contents |
| `LogHistory.IdleIsHome` | kernel/log.c:146-203 | whenever no operation is open and no commit runs, the header is empty and every home block on disk is the logical one, which is what recovery would leave |
| `LogHistory.EndedIsDurable` | kernel/log.c:146-203 | what was logged when the last operation ended is in the home blocks when the commit it started is over, unless a crash comes first |
| `LogHistory.OpenExactly` | kernel/log.c:126-175 | an operation is open exactly from its begin_op to its end_op or a crash |
| `LogHistory.HeaderIs` | kernel/log.c:193-235 | outside recovery the header lists the blocks given to log_write since the last commit or crash, each once, in the order of the first calls |
| `LogHistory.PhaseFollows` | kernel/log.c:116-203 | commit and recovery go through their steps in order, and end with the log ready for operations |
| `LogHistory.GivenIs` | kernel/log.c:214-235 | the record of what log_write got last for a block is the contents of the buffer at the last call for it that no crash has undone |
| `LogHistory.GivesChange` | kernel/log.c:205-235 | what log_write gets is the change its caller last made to the buffer it has locked |
| `LogHistory.ReadsGiven` | kernel/bio.c:92-103 | for a block no buffer of which was released unlogged, bread returns what was last given to log_write |
| `LogHistory.RecoversGiven` | kernel/log.c:116-123 | for such a block recovery leaves what was given last before the last commit |
| `LogPanic.PanicsExactly` | kernel/log.c:214-235 | in every reachable state log_write panics for an operation within its budget if and only if the header is full; then all open operations have used their budgets on disjoint sets of blocks, and the block is one of them |
| `LogPanic.RelogPanics` | kernel/log.c:214-235 | a run that ends with that panic |
| `LogStray.StepFaithful` | kernel/bio.c:116-137 | for every step: a block of which only contents given to log_write were committed, wait to be or can be read stays so if and only if the step is not the release of its buffer with other contents |
| `LogStray.FaithfulExactly` | kernel/log.c:178-235 | the same over every prefix of every run with crashes |
| `LogStray.OnlyLogged` | kernel/log.c:116-203 | for such a block recovery and commit leave on disk what was given to log_write before the last header, and a reader gets what was given last |
| `LogStray.StrayRead` | kernel/fs.c:497-503 | a run in which a reader gets contents that were never given to log_write |
| `LogStray.StrayCommits` | kernel/log.c:178-191 | a run in which the header commits such contents |
| `LogTheorems.LogSpace` | kernel/log.c:214-235 | commit never overlaps an open operation, and the too-big panic needs every open operation to have used its whole budget |
| `BufferCache.Cache.constructor` | kernel/bio.c:36-53 | the circular list links every buffer once |
| `BufferCache.Cache.Bget` | kernel/bio.c:58-89 | a cached block gets its buffer, otherwise the least recently used unreferenced one, and links stay |
| `BufferCache.Cache.Brelse` | kernel/bio.c:116-137 | the last release moves the buffer to the front of the recency order and changes no other |
| `BufferCache.Cache.Bpin` | kernel/bio.c:139-144 | one reference more, nothing else |
| `BufferCache.Cache.Bunpin` | kernel/bio.c:146-151 | one reference less, nothing else |
| `BufferCache.UnlinkLinks` | kernel/bio.c:128-129 | the two pointer stores remove exactly that element from the circle |
| `BufferCache.PushFrontLinks` | kernel/bio.c:130-133 | the four pointer stores put the element first in the circle |
| `BufferCache.BgetRefines` | kernel/bio.c:58-89 | every outcome of bget on the linked list is a step of the log machine |
| `LogCode.KernelLog.LogWrite` | kernel/log.c:214-235 | a block is appended and pinned unless absorbed; the two panics strike exactly on their conditions |
| `LogCode.KernelLog.ReadHead` | kernel/log.c:86-97 | the header in memory becomes what the header block encodes |
| `LogCode.KernelLog.WriteHead` | kernel/log.c:102-114 | one disk write that encodes the header in memory |
| `LogCode.KernelLog.InstallTrans` | kernel/log.c:68-83 | all logged blocks reach home, and every intermediate disk recovers to the same committed state |
| `LogCode.KernelLog.WriteLog` | kernel/log.c:178-191 | the log area holds the cached contents in header order, no home block changes |
| `LogCode.KernelLog.Commit` | kernel/log.c:193-203 | a crash at any write of the first half recovers the old state, at any write of the second half the new one; all writes are listed |
| `LogCode.KernelLog.RecoverFromLog` | kernel/log.c:116-123 | recovery reaches the committed state, and may itself be cut off at any write |
| `ProcLists.StepKeeps` | kernel/proc.c:61-154 | every step of any number of concurrent list calls keeps lists acyclic, duplicate free, terminated and disjoint |
| `ProcLists.StepEffect` | kernel/proc.c:61-154 | lists change only when a call returns, by its append at the tail or its one deletion |
| `ProcLists.OthersStay` | kernel/proc.c:61-154 | a call moves no index but its own |
| `ProcLists.ReturnedPlace` | kernel/proc.c:61-154 | a returned add has its index on its list, a returned remove has it on none |
| `ProcLists.FirstStable` | kernel/proc.c:66-76 | nobody moves the first element of a list whose lock another call holds |
| `ProcLists.NoPanic` | kernel/proc.c:104-154 | a remove never finds its list empty nor walks past its end |
| `ProcLists.ListsSafe` | kernel/proc.c:61-154 | in every state of every run the lists are well formed and pairwise disjoint |
| `ProcInit.AllUnused` | kernel/proc.c:192-211 | however its calls run, procinit leaves every slot on the unused list, in order, and nothing on the other lists |
| `ProcInit.ProcinitRuns` | kernel/proc.c:192-211 | its calls run to the end |
| `ProcStates.InitInv` | kernel/proc.c:192-211 | the state they leave satisfies the invariant of processes and CPUs |
| `ProcStates.StepKeeps` | kernel/proc.c:259-816 | every step of scheduler, fork, exit, wait, sleep, wakeup, kill and yield on eight CPUs keeps the invariant; where each leaves a process is `ProcLife.Settled` |
| `ProcStates.SchedRunKeeps` | kernel/proc.c:637-658 | switching to a process taken off the CPU's own list |
| `ProcStates.ForkRunKeeps` | kernel/proc.c:489-501 | making the child runnable |
| `ProcStates.WakeupKeeps` | kernel/proc.c:763-790 | moving a sleeper to a run queue under its lock |
| `ProcStates.ReapKeeps` | kernel/proc.c:570-615 | wait taking a zombie off its list |
| `ProcStates.StatesAgree` | kernel/proc.c:315-336 | while its lock is free a process is on exactly the list its state names, or on none when USED or RUNNING |
| `ProcStates.NeverTwice` | kernel/proc.c:624-667 | no process is current on two CPUs |
| `ProcStates.NoDoubleAllocation` | kernel/proc.c:259-284 | a slot allocproc has locked is unused, on the unused list, and nobody else's |
| `ProcStates.SchedulesRunnable` | kernel/proc.c:637-658 | the scheduler switches only to runnable processes of its own list |
| `ProcStates.NoListPanic` | kernel/proc.c:104-154 | every removal the kernel starts is of a member, and never panics |
| `ProcLife.Settled` | kernel/proc.c:259-816 | in every run, whenever its lock is free, a process is in the state, on the list and on the CPU that the last call that moved it names: zombie list after exit, sleeping list after sleep, the queue of its own CPU after yield and after kill of a sleeper, of its parent's CPU after fork, of CPU 0 after wakeup and userinit, the unused list after freeproc, none after allocproc, the scheduler's CPU after it was picked |
| `ProcLife.LifeIs` | kernel/proc.c:259-816 | the same while its lock is held: it is there or the holder of the lock is on the way to putting it there |
| `ProcLife.Succession` | kernel/proc.c:259-816 | which of these can follow which: a CPU takes only what is queued for it, only what runs yields, sleeps or exits, only a zombie is freed, only an unused slot is allocated |
| `ProcLife.ZombieUntilReaped` | kernel/proc.c:525-615 | a process that exited and whose CPU has gone back to the scheduler is a zombie, on the zombie list alone and on no CPU, until wait takes it |
| `ProcLife.CpuIs` | kernel/proc.c:34-39 | the CPU of a process is the one it last asked for by set_cpu, or 0 |
| `ProcLife.BootsOnce` | kernel/proc.c:396-424 | userinit runs once |
| `ProcProgress.Ahead` | kernel/proc.c:61-154 | whoever holds the lock a list call wants is further on the same list, so list locks alone never deadlock |
| `ProcProgress.AliveExactly` | kernel/proc.c:61-816 | in every state of every run every CPU can go on, or waits through finitely many others for one that can, if and only if no two CPUs wait for each other in allocproc |
| `ProcProgress.ClashStep` | kernel/proc.c:259-284 | a step brings that about if and only if it is an allocproc reading first on the unused list the process that another has chosen and not yet taken off |
| `ProcProgress.DeadlocksExactly` | kernel/proc.c:259-284 | over every run: it never happens if and only if no such step occurs |
| `ProcProgress.StuckForever` | kernel/proc.c:259-284 | two CPUs that wait for each other do so for ever |
| `ProcProgress.ShutForever` | kernel/proc.c:259-284 | and no process is chosen or taken from the unused list again |
| `ProcDeadlock.ForksDeadlock` | kernel/proc.c:259-284 | a run that gets there: userinit, one fork onto another CPU, and a fork on both at the same time |
| `FsLayout.AllocOwned` | kernel/fs.c:64-86 | giving a free block to an empty slot keeps "bit set iff exactly one slot names it" |
| `FsLayout.FreeOwned` | kernel/fs.c:89-103 | taking a block back from its one slot keeps it too, and its bit was set |
| `FsLayout.WordSet` | kernel/fs.c:394-399 | storing an entry in an indirect block's bytes changes that entry only |
| `FsLayout.DinodeRoundTrip` | kernel/fs.c:227-234 | what iupdate packs into the bytes of an inode block is what ilock unpacks, and the fifteen other inodes of the block stay |
| `FsLayout.DinodeBytes` | kernel/fs.c:221-237 | iupdate puts type, major, minor, link count, size and the thirteen addresses in their 64 bytes, little end first, and changes no other byte of the block |
| `FsLayout.WordBytes` | kernel/fs.c:394-399 | an entry of an indirect block is its four bytes, little end first |
| `FileSystem.Fs.Balloc` | kernel/fs.c:64-86 | the lowest free block, zeroed and marked, or none if all are taken; the blocks logged |
| `FileSystem.Fs.Bfree` | kernel/fs.c:89-103 | clears the bit, or panics exactly when it is clear already |
| `FileSystem.Fs.Bmap` | kernel/fs.c:377-405 | the block of a file block, allocating data and indirect blocks as needed; nothing changes when it exists; of the inode only the addresses change; it panics beyond the largest file, or when a block is needed and every bit is set |
| `BlockCost.TakesOutcome` | kernel/fs.c:64-86 | taking free blocks for a list of slots in order comes to one block for each empty slot, or there are fewer free blocks than empty slots |
| `FileSystem.Fs.Itrunc` | kernel/fs.c:409-437 | exactly the inode's blocks become free, each once, without a panic; the inode is empty in memory and on disk; what it logs are the bitmap blocks of those blocks, and the inode block |
| `FileSystem.TruncatedBitmap` | kernel/fs.c:409-437 | ownership alone fixes the bitmap after truncation |
| `FileSystem.Fs.Iupdate` | kernel/fs.c:221-237 | the inode on disk, as ilock would read it, is the one in memory; every other inode on disk and every other block stays; its block is logged |
| `FileSystem.Persisted` | kernel/fs.c:216-237 | a transaction that ends with iupdate has logged every block and bitmap block it changed, and leaves memory and disk in agreement on every inode |
| `FileSystem.Fs.Readi` | kernel/fs.c:455-477 | the slice of the file's contents, across direct and indirect blocks, allocating nothing |
| `FileSystem.InodePlace` | kernel/fs.c:227-228 | inodes lie one after the other, 64 bytes each, from the first inode block on |
| `FileSystem.ByteIs` | kernel/fs.c:377-405 | a byte of a file is in the block named by one of the twelve direct addresses, or else by the entry of the indirect block |
| `FileSystem.Fs.Writei` | kernel/fs.c:486-517 | returns the bytes of all whole rounds before the source becomes unreadable, or -1 exactly when the bounds are violated; the file becomes the splice of old contents and all readable bytes, cut at its new end, and no other file changes; of the inode only addresses and size change, in memory and on disk, never its type, device or link count; all changes are logged but for a block cut short; disk and memory agree; bounds on the blocks logged; it panics if and only if the bounds hold and there are fewer free blocks than empty slots among those of the rounds reached, and otherwise takes exactly one for each |
| `FileSystem.TornShows` | kernel/fs.c:497-503 | a failed copy returns the bytes up to the block of the first unreadable byte, and the file holds just those if and only if the readable bytes beyond them change nothing or lie past its end |
| `FileSystem.WriteElsewhere` | kernel/fs.c:486-517 | a block of one file is no other block of any file and no indirect block |
| `FileWrite.ChunkInBudget` | kernel/file.c:148-175 | a chunk logs fewer than MAXOPBLOCKS distinct blocks before each log_write |
| `FileWrite.LargestChunk` | kernel/file.c:148-155 | a chunk is the largest whole number of blocks for which that holds at every offset |
| `FileWrite.TxBegins` | kernel/file.c:155-171 | transaction k of a call begins at byte k times that many, so the call takes no more of them than it needs |
| `FileWrite.Chunk` | kernel/file.c:162-167 | one transaction writes its piece and nothing else, keeps type, device and link count of the inode, logs all it changes within budget, takes a free block for each slot that needs one, and leaves memory and disk in agreement; it panics if and only if writei gets past its checks and the free blocks do not go round |
| `FileWrite.Filewrite` | kernel/file.c:134-181 | whatever others make of the file system and the offset between transactions, each of them writes its piece at the offset it finds, within budget, keeping type, device and link count, all but the last in full; the result is all or -1, or else all so far were in full and the next one panics as stated for it |
| `FileWrite.TxNoPanic` | kernel/file.c:162-167 | no transaction that returned met the condition for the panic |
| `FileWrite.Alone` | kernel/file.c:134-181 | with nobody in between everything is written if and only if the offset is in the file, the end within the largest file and the source readable; then the file is the splice and the offset has moved by as much |
| `FileWriteCost.PanicsExactly` | kernel/file.c:134-181 | with nobody in between the call panics if and only if the offset is in the file and there are fewer free blocks than empty slots among those of the chunks within the largest file, up to the first unreadable byte |
| `FileWrite.Truncate` | kernel/fs.c:409-437 | itrunc stays within an operation's budget if and only if the file's blocks lie in fewer than MAXOPBLOCKS bitmap blocks |
| `FileWrite.SmallDisk` | kernel/fs.c:409-437 | which they do on a disk with at most nine bitmap blocks |
| `FileWrite.WideFile` | kernel/fs.c:409-437 | a well-formed disk and file for which they do not |
| `FileWrite.TornByte` | kernel/fs.c:497-503 | a write to a well-formed file system that returns 0 and changes the file |
| `InodeTable.StepKeeps` | kernel/fs.c:195-358 | every step of iget, idup, ilock, iunlock, iput and ialloc keeps the inode-table invariant |
| `InodeTable.IputFreeKeeps` | kernel/fs.c:335-344 | deciding to free the last reference of an unlinked inode |
| `InodeTable.ZeroKeeps` | kernel/fs.c:346-348 | the freed inode reaches the disk while the entry is still valid |
| `InodeTable.IallocKeeps` | kernel/fs.c:195-215 | reusing an inode number that another thread is still dropping |
| `InodeTable.NeverStale` | kernel/fs.c:288-313 | whoever has an inode locked and loaded sees the disk's allocated inode, and ilock never finds type 0 |
| `InodeTable.OneEntryPerInode` | kernel/fs.c:242-273 | references to one inode share one entry, whose count is their number |
| `InodeTable.FreeingDoesNotWait` | kernel/fs.c:337-342 | iput's sleep lock on the last reference is always free |
| `InodeTable.FreedAlone` | kernel/fs.c:332-348 | while iput frees an inode outside the table lock, up to the freed inode reaching the disk, no other reference to it exists |
| `InodeOrphans.StepOrphan` | kernel/fs.c:332-358 | a step makes an inode allocated, unlinked and out of everybody's reach if and only if it drops the one live reference to an unlinked inode while its entry counts another or is not loaded |
| `InodeOrphans.OrphansExactly` | kernel/fs.c:195-358 | over every run: no inode is lost if and only if no such step occurs |
| `InodeOrphans.OrphanForever` | kernel/fs.c:195-358 | an inode that is lost stays lost |
| `InodeOrphans.LeakedInode` | kernel/fs.c:332-358 | a run that loses one, by a create, an unlink and a close beside an iput, and ends with no reference to anything |
| `InodeTable.AllocatesUnreferenced` | kernel/fs.c:195-215 | ialloc never gives out an inode a live reference is to |
| `InodeHistory.RefersExactly` | kernel/fs.c:242-358 | a reference names the inode it was got for by iget, idup or ialloc, until iput drops it |
| `InodeHistory.LocksExactly` | kernel/fs.c:288-358 | a reference has the lock of its inode exactly from ilock, or the decision of iput to free, to iunlock or the end of the freeing |
| `InodeHistory.StoredExactly` | kernel/fs.c:195-358 | an inode on disk is what was last stored in it: by ialloc cleared and of the type asked for, by iupdate what its holder had, by iput type 0 |
| `InodeHistory.SeesLastStored` | kernel/fs.c:288-313 | whoever has an inode locked and loaded has that |
| `InodeHistory.FreesBeforeDrop` | kernel/fs.c:332-358 | an iput that found the last reference to an unlinked inode drops it only after it has put type 0 on disk |
| `PageTable.PteRoundTrip` | kernel/riscv.h:341-352 | every entry survives packing into a word and back |
| `PageTable.PteWord` | kernel/riscv.h:348-352 | the word is PA2PTE of the address with the flags, and PTE2PA and PTE_FLAGS take it apart |
| `PageTable.PteBits` | kernel/riscv.h:341-352 | the flags are bits 0 to 4 of the word, valid, readable, writable, executable and user, and the page number is above bit 10 |
| `PageTable.TableWord` | kernel/vm.c:92-95 | the word of a table has the valid bit and no other |
| `PageTable.PxDigits` | kernel/riscv.h:354-357 | the three PX indices determine the page and are its base-512 digits |
| `PageTable.TranslateIs` | kernel/vm.c:80-98 | the three-level walk through memory is a lookup in a flat directory of leaf tables |
| `PageTable.DistinctLeaves` | kernel/vm.c:80-98 | different pages, of one table or two, never share a leaf entry |
| `PageTable.UserPagesDisjoint` | kernel/vm.c:137-160 | no physical page backs two user pages |
| `PageTable.WithTableTranslate` | kernel/vm.c:80-98 | hanging a new table page changes no translation anywhere |
| `PageTable.WithLeafTranslate` | kernel/vm.c:137-187 | storing one leaf entry changes the translation of exactly that page |
| `VirtualMemory.Memory.constructor` | kernel/kalloc.c:33-40 | after kinit every managed page is free, once |
| `VirtualMemory.Memory.Freerange` | kernel/kalloc.c:33-40 | each whole page of the range goes to the free list, once |
| `VirtualMemory.Memory.Kalloc` | kernel/kalloc.c:68-82 | the first free page changes hands, or none when the list is empty |
| `VirtualMemory.Memory.Kfree` | kernel/kalloc.c:46-63 | a held page becomes free, filled with junk |
| `VirtualMemory.Memory.Uvmcreate` | kernel/vm.c:191-200 | a new root that maps nothing |
| `VirtualMemory.Memory.Walk` | kernel/vm.c:80-98 | finds the leaf entry; with alloc it takes free pages for tables only, changes no translation, and fails only when none is free |
| `VirtualMemory.Memory.Lookup` | kernel/vm.c:80-98 | walk without alloc reads what the hardware would, and changes nothing |
| `VirtualMemory.Memory.Mappages` | kernel/vm.c:137-160 | the pages of the range map to consecutive physical pages, all others as before; on failure a prefix is mapped |
| `VirtualMemory.EntryWord` | kernel/vm.c:137-160 | the word mappages stores has the address, the permissions and the valid bit |
| `VirtualMemory.Memory.Uvmunmap` | kernel/vm.c:165-187 | the range is unmapped, its pages are freed or handed back, all else stays |
| `AddressSpace.MappedSpace` | kernel/vm.c:137-160 | as a finite map: mappages adds its pages to its own address space and touches no other |
| `AddressSpace.UnmappedSpace` | kernel/vm.c:165-187 | as a finite map: uvmunmap removes its pages and touches no other address space |
| `AddressSpace.GrownNothing` | kernel/vm.c:80-98 | walk, and a failed and rolled back operation, leave every map as it was |
| `AddressSpace.CopiedSpace` | kernel/vm.c:300-328 | child and parent map the copied pages alike, in different physical pages with equal bytes |
| `UserMemory.Uvmdealloc` | kernel/vm.c:250-262 | shrinking frees exactly the pages above the new size |
| `TableCost.NoTableLeft` | kernel/vm.c:80-98 | a call that ran out of pages has made no table if and only if none was missing, or too few pages were free to reach the first page that missed one and make it |
| `UserMemory.Uvmalloc` | kernel/vm.c:220-244 | growth succeeds, with zeroed pages of its own that the user may read, write and execute, if and only if a page is free for each page and each missing table; otherwise mappings and data pages are as before and the tables of the pages before the failing one are left over |
| `AddressSpace.NewMemory` | kernel/vm.c:220-244 | after it the user may access every new byte, and reads 0 |
| `AddressSpace.OldMemory` | kernel/vm.c:220-244 | every byte the user could access before, in this address space and in all others, is accessible and the same |
| `UserMemory.UserWord` | kernel/vm.c:237 | the word of a new page has the valid, read, write, execute and user bits |
| `UserMemory.FreeAgain` | kernel/vm.c:220-244 | the free pages are those from before if and only if the tables are |
| `UserMemory.FreeAfterFailure` | kernel/vm.c:220-328 | the same in terms of the tables and free pages before the call |
| `UserMemory.GrowEmpty` | kernel/vm.c:220-244 | with two free pages, growing an empty address space by a page fails and leaves one free page and a level-1 table |
| `UserMemory.GrowFresh` | kernel/vm.c:220-244 | a machine of four pages comes to that |
| `UserMemory.Rollback` | kernel/vm.c:220-328 | unmapping what was added leaves translation and data pages as before, only tables over |
| `UserMemory.Uvmcopy` | kernel/vm.c:300-328 | succeeds, with equal bytes and flags in pages of its own, if and only if a page is free for each page and each missing table; otherwise mappings and data pages are as before, and the tables made are left over |
| `FreeTables.Freewalk` | kernel/vm.c:266-282 | exactly the page-table pages at and below a node become free, each once; the leaf panic cannot strike |
| `FreeTables.Uvmfree` | kernel/vm.c:286-292 | every user page and table page of the address space is free, other address spaces unchanged |
| `UserCopy.Walkaddr` | kernel/vm.c:103-121 | the physical page exactly when the user may access the address, else 0 |
| `UserCopy.Uvmclear` | kernel/vm.c:332-341 | one page loses user access, no other translation changes |
| `UserCopy.Copyin` | kernel/vm.c:371-391 | the bytes of the flat view; succeeds exactly when every page is the user's |
| `UserCopy.Copyout` | kernel/vm.c:346-366 | the flat view holds the source there and is unchanged elsewhere, in every address space |
| `UserCopy.Copyinstr` | kernel/vm.c:397-434 | the string up to its NUL within max bytes, or the exact reason there is none |
| `UserCopy.HoldsOnce` | kernel/vm.c:371-391 | what copyin returns is determined by the flat view |
| `UserCopy.StoredReads` | kernel/vm.c:346-391 | what copyout stored is what copyin reads |
| `PageConservation.PoolCount` | kernel/kalloc.c:46-82 | free-list length and pages owned by address spaces add up to the pool |
| `PageConservation.Conserved` | kernel/vm.c:165-328 | growing, shrinking, copying and freeing address spaces keep that sum |
| `VirtioRing.FirstFree` | kernel/virtio_disk.c:144-154 | the lowest free descriptor, or none if all are in use |
| `VirtioRing.Alloc3` | kernel/virtio_disk.c:189-201 | three different free descriptors |
| `VirtioRing.Alloc3Exactly` | kernel/virtio_disk.c:189-201 | they are the three lowest, and there are none if and only if fewer than three are free |
| `VirtioRing.AvailRoom` | kernel/virtio_disk.c:259-265 | there is always room in the avail ring for a chain not in it |
| `VirtioRing.UsedRoom` | kernel/virtio_disk.c:300-312 | there is always room in the used ring for a chain being worked on |
| `VirtioInvariant.StepKeeps` | kernel/virtio_disk.c:203-315 | every step of requesters, interrupt handler and device keeps the ring invariant |
| `VirtioInvariant.FreesChain` | kernel/virtio_disk.c:173-185 | free_chain frees exactly the request's three descriptors and meets no panic |
| `VirtioInvariant.OneChainEach` | kernel/virtio_disk.c:144-201 | a descriptor is free or in exactly one chain of three |
| `VirtioInvariant.NothingOverwritten` | kernel/virtio_disk.c:259-312 | no unread ring entry is ever overwritten, and the 16-bit indices say exactly whether there is one |
| `VirtioInvariant.NoPanic` | kernel/virtio_disk.c:157-170 | no panic and no chain the device cannot follow, in any run |
| `VirtioInvariant.TransfersRequest` | kernel/virtio_disk.c:223-257 | a completion moves 1024 bytes between the issuing buffer and the two sectors of its block, in the direction asked for, and nothing else; what this comes to over a run is `VirtioTransfers` |
| `VirtioInvariant.ClearsIssuer` | kernel/virtio_disk.c:282-315 | an acknowledgement clears exactly the buffer whose request completed, in order |
| `VirtioRing.Sector` | kernel/virtio_disk.c:204-206 | the first sector of a block lies at byte blockno * BSIZE of the disk |
| `VirtioTransfers.SectorsApart` | kernel/virtio_disk.c:204-206 | the sectors of different blocks are different |
| `VirtioTransfers.InfoIs` | kernel/virtio_disk.c:223-280 | in every state the driver remembers at the head of each chain in use its buffer, with status 0xff until the device has completed it and 0 after, and nothing at any other descriptor; free descriptors are clear |
| `VirtioTransfers.DiskIs` | kernel/virtio_disk.c:203-315 | in every state of every run the disk holds of each block what the buffer of the last completed write of it held when it was handed over |
| `VirtioTransfers.RwReturns` | kernel/virtio_disk.c:203-280 | when virtio_disk_rw returns, the device has completed its request after it was made: a read has brought what the last write of the block completed before put there, a write has put there what its buffer held, by the write argument of the call |
| `VirtioDriver.Disk.constructor` | kernel/virtio_disk.c:136-138 | all descriptors free and clear, both indices 0 |
| `VirtioDriver.Disk.AllocDesc` | kernel/virtio_disk.c:144-154 | takes the lowest free descriptor in place |
| `VirtioDriver.Disk.FreeDesc` | kernel/virtio_disk.c:157-170 | each panic strikes exactly on its condition and changes nothing; otherwise one descriptor fewer is in use, and the next alloc_desc takes this one or a lower one |
| `VirtioDriver.Disk.FreeChainFrom` | kernel/virtio_disk.c:173-185 | the loop over the chain frees what the specification says, or panics exactly when that does |
| `VirtioDriver.Disk.Alloc3Desc` | kernel/virtio_disk.c:189-201 | three or none; a failed attempt leaves the free set as it was |
| `VirtioDriver.Disk.Fill` | kernel/virtio_disk.c:223-260 | the chain, the request with its type and its sector, which lies at byte blockno * BSIZE, the bookkeeping and the ring entry, as the machine's step has them |
| `VirtioDriver.Disk.Drain` | kernel/virtio_disk.c:300-312 | acknowledges every entry between the two indices, wrapped or not, in order, and no other |
| `VirtioDriver.DrainReady` | kernel/virtio_disk.c:300-312 | in every reachable state the handler can drain without a panic |
| `Pipe.Occupancy` | kernel/pipe.c:88-107 | the counter tests mean full and empty even after wrapping |
| `Pipe.WriteFlows` | kernel/pipe.c:76-103 | a writer's bytes are accepted in order, the next ones of its source; it stops only when done, full, closed or killed, and says which |
| `Pipe.ReadFlows` | kernel/pipe.c:105-130 | a reader takes the oldest bytes in order, as many as it asked for or there are |
| `PipeRuns.NothingLost` | kernel/pipe.c:76-130 | in every state of every run consumed bytes followed by buffered bytes are the accepted bytes, at most 512 buffered |
| `PipeRuns.CloseStays` | kernel/pipe.c:58-73 | an end is open exactly until its pipeclose; once the write end is closed no reader sleeps, and once the read end is closed no writer |
| `PipeRuns.SleepsExactly` | kernel/pipe.c:58-130 | who sleeps: from the call that found the pipe empty, or full, to the next call that goes through on the other side, to pipeclose there, or to kill |
| `PipeRuns.WriterReturns` | kernel/pipe.c:76-103 | pipewrite has put in a prefix of its source when it returns, all of it unless the source could not be read there, the read end is closed or it was killed |
| `PipeRuns.ReaderReturns` | kernel/pipe.c:105-130 | piperead sleeps if and only if the pipe is empty and the write end open; otherwise it returns the oldest bytes, as many as it asked for or there are |
| `PipeRuns.StepSleepers` | kernel/pipe.c:58-130 | a step keeps "no sleeper in vain" exactly when it is not a writer killed mid-write beside a sleeping reader |
| `PipeRuns.SleepersUntil` | kernel/pipe.c:58-130 | the same equivalence over whole runs |
| `PipeRuns.NoKillNoStranding` | kernel/pipe.c:58-130 | in runs without kill a sleeping reader means an empty open pipe and a sleeping writer a full one |
| `PipeRuns.KillStrandsReader` | kernel/pipe.c:84-87 | a run in which a kill leaves a reader asleep beside a waiting byte |
| `PipeRuns.PipeBuffer.Write` | kernel/pipe.c:76-103 | the loop on the ring in place is the specified one |
| `PipeRuns.PipeBuffer.Read` | kernel/pipe.c:118-126 | the loop on the ring in place is the specified one |
| `FreeList.InsertedOk` | user/umalloc.c:33-43 | freeing keeps the list in address order with no two blocks touching |
| `FreeList.InsertedUnits` | user/umalloc.c:33-43 | the free units are those before and those of the freed block |
| `FreeList.TakenUnits` | user/umalloc.c:74-82 | the units malloc takes were free and no longer are |
| `KrAlloc.UnitsFor` | user/umalloc.c:69 | enough units for the bytes and a header, and no unit too many |
| `KrAlloc.SbrkExact` | user/umalloc.c:46-61 | sbrk is asked for what the header claims exactly up to the limit |
| `KrAlloc.SbrkTruncates` | user/umalloc.c:46-61 | a request for 2^32 - 1 bytes obtains 16 |
| `KrAlloc.HugeRequest` | user/umalloc.c:46-90 | the first request of a program, for so much, returns a block that the process does not have |
| `KrAlloc.NextRequest` | user/umalloc.c:46-90 | every request after that one gets a block that overlaps it |
| `KrAlloc.Heap.FindSpot` | user/umalloc.c:29-32 | the search ends within one turn, at the block's place in address order |
| `KrAlloc.Heap.Free` | user/umalloc.c:24-44 | the block joins the list, merged with both neighbours where they touch; circle, partition and headers stay right |
| `KrAlloc.Heap.Morecore` | user/umalloc.c:46-61 | the new block overlaps one claimed before exactly when stated; otherwise the list has a large enough block, and its memory is all there if and only if the argument that reached sbrk was the block's size |
| `KrAlloc.Heap.Take` | user/umalloc.c:74-84 | an exact fit is unlinked, a larger block gives its tail |
| `KrAlloc.Heap.Malloc` | user/umalloc.c:63-90 | for every request and wherever the process's memory ends: a new disjoint block of the right size, the end of the first block after freep that is large enough, with morecore called at most once, exactly when there is none, or failure only when sbrk failed; no memory is claimed that is not there, but exactly beyond the limit; blocks never overlap before that, and after it exactly when the end of memory lies in a claimed block's way |
| `Regex.HereOne` | user/grep.c:83-94 | the single-character equation of the language |
| `Regex.HereStar` | user/grep.c:83-104 | the star equation of the language |
| `Regex.MatchHere` | user/grep.c:83-94 | true exactly when some prefix is in the pattern's language |
| `Regex.MatchStar` | user/grep.c:97-104 | true exactly when a run of the character and then a match begins the text |
| `Regex.Match` | user/grep.c:70-80 | true exactly when some substring, anchored as the pattern says, is in its language |
| `ShellLexer.LexOk` | user/sh.c:265-308 | every word token is a maximal run of word characters |
| `ShellLexer.LexSpells` | user/sh.c:265-308 | the tokens of a line spell it, in order, but for its spaces |
| `ShellLexer.GetToken` | user/sh.c:265-308 | the next token and the cursor after it |
| `ShellLexer.Peek` | user/sh.c:310-320 | whether the next token starts with one of the symbols, consuming only space |
| `ShellParser.RedirsAt` | user/sh.c:374-397 | the loop reads what the grammar's redirections are |
| `ShellParser.ArgsAt` | user/sh.c:429-445 | the loop of parseexec, with its limit on arguments |
| `ShellParser.ExecAt` | user/sh.c:415-446 | parseexec is the grammar's rule, and ends on every input |
| `ShellParser.BlockAt` | user/sh.c:399-413 | parseblock is the grammar's rule |
| `ShellParser.PipeAt` | user/sh.c:361-372 | parsepipe is the grammar's rule |
| `ShellParser.LineAt` | user/sh.c:344-359 | parseline is the grammar's rule |
| `ShellParser.ParseCmd` | user/sh.c:327-342 | the command the whole line denotes, or a panic, on every line |
| `ShellGrammar.ParsesExactly` | user/sh.c:327-446 | a line is accepted if and only if it is the text of a syntax tree with at most nine arguments a command, and the result is what the tree means |
| `ShellGrammar.PlainParses` | user/sh.c:374-446 | redirections may stand before, between and after the words of a command; all of them count, in order, the last one outermost |
| `ShellRoundTrip.TokensAgain` | user/sh.c:344-446 | parsing the printed tokens of any legal command gives it back |
| `ShellWords.LineText` | user/sh.c:344-446 | parsing looks at words only as words |
| `ShellWords.RoundTrip` | user/sh.c:265-446 | for every command with legal words and at most nine arguments an exec, parsing its print returns it |
| `ShellWords.NulTerminate` | user/sh.c:449-493 | exactly the ends of the command's words become NUL |
| `ShellWords.WordsSurvive` | user/sh.c:449-493 | after nulterminate every word reads, as a C string, as it was in the line |
| `ShellWords.ParseCmdInPlace` | user/sh.c:327-342 | parsecmd on its buffer: the command the C string denotes, with every word a C string of its own where it begins, or a panic and the buffer untouched |

## Left out

- Traps, boot, interrupts, timers, console and UART, and the assembly files: hardware and context switches are step boundaries.
- Load balancing between run queues (`BLNCFLG`): fixed to 0, and no balance is claimed.
- Locks other than those of lists and processes (`wait_lock`, `pid_lock`, those that callers of `sleep` hold), and liveness beyond deadlock: that a spinning CPU gets its lock in turn, that a runnable process is run.
- Failure paths of `allocproc` and `fork` that call `freeproc` on a slot not on the zombie list.
- Process contents (open files, working directory, trap frame, parent links) beyond what the list and state properties need.
- Directory operations, path lookup, link counts, and that a link count equals the number of entries.
- The "bget: no buffers" panic: a stuck step of the log machine, not shown to be unreachable.
- `exec`, `growproc`'s 32-bit size arithmetic and system-call argument checking.
- `runcmd` and input reading in the shell, and the line-reading loop of grep.
- `kvmmap` and the kernel page table, and `uvminit`.
- Sequential contracts of `iget`, `ilock` and `iput`: the inode table is a state machine only.
- Memory barriers: the device sees driver stores in the order of the steps.
- InodeTable.FreedAlone: covers the time up to the freed inode reaching the disk; what can follow is the subject of `InodeOrphans`.
- KrAlloc.Heap.Morecore: a store to memory that the process does not have succeeds here, where the hardware would raise a page fault; where the new block overlaps a claimed one the model stops.
- FileSystem.Fs.Readi: what a failing copy has already put in the destination is not modelled.
- FileWrite.Truncate: counts what itrunc logs, not what open or unlink log beside it in the same transaction.
- LogInvariant.StepKeeps: the copy into a log buffer and its write are one step, as are clearing the header in memory and on disk.
- Pipe.ReadFlows: counts bytes taken from the ring, including one whose copy to the user failed.
