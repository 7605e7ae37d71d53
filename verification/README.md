# A verified model of an xv6 kernel

This project models the parts of an xv6 kernel and its user programs where correctness is hardest to see, and proves
what they promise. `dafny verify dfyconfig.toml` checks all of it.

- **Redo log and buffer cache.** `LruList`, `BufferCache`: buffers in arrays, linked through index arrays `next` and
  `prev`, over a disk that records its image after every write. `RedoSpec`: the images a commit and a recovery write, and
  crash atomicity for all of them. `RedoLog`: the code of `log.c` over that cache, proved to write exactly those images.
  `CrashRuns`: whole histories of transactions and crashes. `LogCapacity`: when the log has room for what operations
  log. `DurableRuns`: operations, commits and crashes together.
- **Sleep and wakeup.** `GroupCommit`: `begin_op`, `log_write`, `end_op` with their spin-locks, `sleep` and `wakeup`, one
  program counter per source step, any number of processes. `SleepLocks`: the same for `sleeplock.c`, with `kill`.
  `LogProgress`, `SleepProgress`: that locks are given up, waiting means sleeping, and calls end.
- **Heap allocator.** `FreeList`: the free list as the sequence of its chunks. `Heap`: `malloc`, `free` and `morecore`
  walking and rewriting headers in memory.
- **File layer.** `Blocks`, `Bitmap`: bytes, 32-bit words and bits of disk blocks. `BlockTree`: the four-level tree of an
  inode. `BlockCount`: free blocks against missing ones. `Truncation`: what freeing a tree frees. `FileSystem`:
  allocation, `bmap`, `readi`, `writei`, `itrunc`.
- **Shell parser.** `ShellGrammar`: tokens, grammar and printing. `ShellLines`: every way to write a command, and what it
  means. `Shell`: the parser over characters, and cutting the words out of the line in place.
- **Pipes.** `Pipe`: the ring with its wrapping counters. `PipeRuns`: all interleavings of its callers.
- **Virtual memory.** `PageTables`: directories, tables and the frames they own. `VirtualMemory`: `vm.c` over `kalloc.c`.
  `KernelMap`: the rows of `kmap`.
- **Scheduler.** `Mlfq`: selection, ticks and boosting on the numbers, against real queues. `Scheduler`: the operations in
  place on the process table. `QueueNumbers`: when fork, wait and boosting with a locked process keep the numbers those of
  queues. `PriorityRuns`: ticks and `setPriority` on several CPUs.
- **Regular expressions.** `Grep`: the matcher, against a definition of what patterns mean.

Where the code falls short of what one would expect of it, that is proved, with the exact condition where there is one:

- `itrunc` of `Project_3` never frees the root of the double tree and frees nothing of the triple tree, as it passes the
  already cleared double root for the triple tree (`Project_3/xv6-public/fs.c:538-548`). It loses no block if and only if
  both slots are empty (`Truncation.TruncatedLeak`).
- `log_write` tests for room in the log before it takes `log.lock` (`xv6-public/log.c:218-223`), and two processes can pass
  the test with room for one block. In no run is too much logged if and only if the log is longer than LOGSIZE, or there
  is one process, or no room at all (`LogCapacity.LogNeverOverflows`). If too much is logged and the log has fewer blocks
  than the cache has buffers, `commit` writes over the home block behind the log; a transaction shorter than the log is
  exactly what keeps a crash harmless (`RedoSpec.LogWritesHarmless`). With the log `mkfs` makes, of LOGSIZE = NBUF blocks, such
  a transaction pins every buffer and `commit` panics before its first write (`LogCapacity.MkfsLogOverflows`,
  `RedoLogs.RedoLog.Commit`).
- A killed writer that fills the pipe and gives up does not wake the readers (`xv6-public/pipe.c:85-88`). Readers sleep
  with reason if and only if no reader sleeps when that happens (`PipeRuns.ReadersJustified`, `PipeRuns.LostWakeup`).
- A timer tick keeps the queue numbers consistent if and only if the ticking process is first or second in its queue
  (`Mlfq.TickKeeps`, `Mlfq.TickExample`), since the process at number 0 is never moved down.
- `update_proc` takes no lock, and tests a priority before it lowers it (`xv6-public/mlfq_scheduler.c:415`). Another CPU can set
  it to 0 in between, and then it becomes -1. Priorities stay from 0 to 3 in every run if and only if there is at most one
  CPU (`PriorityRuns.PrioritiesNeedOneCpu`); the makefile starts two (`xv6-public/Makefile:228`).
- Fork gives the child its number twice. The second time it keeps the level-0 queue if and only if the child is still last
  there (`QueueNumbers.ForkKeeps`, `QueueNumbers.ForkExample`).
- Wait takes the place behind the parent, not that of the child, out of the queues. They agree afterwards if and only if the
  child stands right behind its parent (`QueueNumbers.ReapKeeps`, `QueueNumbers.ReapExample`).
- Boosting while a process is locked numbers levels 1 and 2 from 0 again. It leaves a queue if and only if no other live
  process is below level 0 and the locked one was last, if it was at level 0 (`QueueNumbers.LockedBoostKeeps`); the counts
  agree, too, if and only if the caller is at level 0 and nobody dead is (`QueueNumbers.LockedBoostCounts`).
- `>` and `>>` are the same to the parser (`xv6-public/sh.c:388-393`; `ShellLines.AppendIsOutput`).
- Boosting numbers the processes of each level in table order (`xv6-public/mlfq_scheduler.c:212-249`). It keeps the order of
  the old queues if and only if each is in table order (`Mlfq.BoostKeepsOrder`, `Mlfq.BoostExample`).

## Model

| member | source | states |
|---|---|---|
| `RedoSpec.CrashAtomicity` | xv6-public/log.c:68-202 | For a transaction shorter than the log: a crash after any number of writes of commit, then any number of recoveries cut short anywhere, then one that completes: every home block is as after the whole transaction if the header write happened, and as before it otherwise |
| `RedoSpec.LogWritesHarmless` | xv6-public/log.c:177-190 | The exact condition: a crash before the header write leaves every home block alone, whatever the contents, if and only if the transaction is shorter than the log; otherwise write_log goes over the first home block behind it |
| `RedoSpec.CrashInCommit` | xv6-public/log.c:192-202 | For a transaction shorter than the log: after any prefix of the writes of commit the log can be replayed, and replaying gives all of it or nothing; the header write, which follows those of the log blocks, decides |
| `RedoSpec.CrashAfterHeader` | xv6-public/log.c:192-202 | After the header write, any prefix of the writes of install_trans leaves a disk whose recovery gives the whole transaction |
| `RedoSpec.CrashInRecovery` | xv6-public/log.c:115-122 | A crash after any write of a recovery leaves a disk whose recovery gives what the uninterrupted one would have given |
| `RedoSpec.CrashesInRecovery` | xv6-public/log.c:115-122 | The same for any number of restarts that crash in their turn |
| `RedoSpec.RecoveryCompletes` | xv6-public/log.c:115-122 | A recovery that ends leaves the replayed image with an empty log |
| `RedoSpec.CommitCompletes` | xv6-public/log.c:192-202 | A commit that fits the log and ends has applied the transaction to the home blocks and leaves an empty log |
| `RedoSpec.CommittedLog` | xv6-public/log.c:177-202 | Right after the header write of a commit that fits, the log on the disk lists exactly the transaction, and replaying it applies the transaction |
| `RedoSpec.HeaderRoundTrip` | xv6-public/log.c:84-113 | The header words read_head reads are those write_head wrote |
| `CrashRuns.HistoryIsIdeal` | xv6-public/log.c:68-202 | Over any history of transactions that fit the log, each committed or crashed and recovered, the disk holds what the durable transactions wrote, in their order, as if there were no log |
| `CrashRuns.AppliedAt` | xv6-public/log.c:68-82 | Installing distinct blocks puts each block's logged contents in place and touches no other block |
| `LogCapacity.LogNeverOverflows` | xv6-public/log.c:213-231 | For any log size and number of processes: in every run what is logged is shorter than the log, and so is what is committed, if and only if the log is longer than LOGSIZE, or there is at most one process, or no room at all; the test at the start of log_write is made without log.lock |
| `LogCapacity.MkfsLogOverflows` | xv6-public/mkfs.c:25 | With the log mkfs makes and two processes there is a run that is about to commit LOGSIZE blocks, one more than fits; they pin every buffer |
| `LogCapacity.Overflow` | xv6-public/log.c:213-231 | Such a run for every shorter log: two processes pass the test with room for one block, and both record theirs |
| `LogCapacity.RunFits` | xv6-public/log.c:213-231 | Under the condition every transaction, running or committed, fits and has no block twice |
| `LogCapacity.CommitsLoggable` | xv6-public/log.c:192-202 | Then, and in any log for a transaction that fits, whatever is committed or about to be meets the premise of the crash lemmas |
| `LogCapacity.RunReserved` | xv6-public/log.c:125-233 | In any log every transaction, running or committed, keeps the reservation and has no block twice |
| `LogCapacity.RecordHasPlace` | xv6-public/log.c:223-230 | Whatever happened since its test, a process that records a new block finds a place in the header |
| `DurableRuns.OperationsSurviveWhole` | xv6-public/log.c:68-233 | Every interleaving of operations, whose commits fit the log, together with a crash in any commit and any number of crashed restarts: the disk is what the durable transactions make of it, and each operation's blocks are all there as the commit found them, or the disk is as before its transaction |
| `DurableRuns.LivesAreIdeal` | xv6-public/log.c:52-233 | The same over any number of restarts, each life starting from the disk the one before has left |
| `DurableRuns.LifeIsHistory` | xv6-public/log.c:68-233 | The commits of any run form a history of the kind CrashRuns is about |
| `RedoLogs.RedoLog.Commit` | xv6-public/log.c:192-202 | Over the real buffer cache, for a transaction that fits the log or leaves no buffer, while others hold any buffers that commit does not ask for: the images after the disk writes of commit are exactly the trace the crash lemmas are about, all pins are dropped and the others' buffers stay as they are; it panics, before any write, just when every buffer is pinned or held |
| `RedoLogs.RedoLog.RecoverFromLog` | xv6-public/log.c:115-122 | Likewise for recovery: the writes are exactly the recovery trace |
| `RedoLogs.RedoLog.WriteLog` | xv6-public/log.c:177-190 | The logged blocks that fit reach the log in order, with their cached contents; no home block is written, nothing stops being pinned and buffers held by others stay as they are; it panics just when there are blocks and every buffer is pinned or held |
| `RedoLogs.RedoLog.InstallTrans` | xv6-public/log.c:69-82 | The blocks of the log reach their homes in order, exactly the logged blocks stop being pinned, and buffers held by others stay as they are |
| `RedoLogs.RedoLog.WriteHead` | xv6-public/log.c:102-113 | One disk write, which replaces the header by the blocks of the current transaction |
| `RedoLogs.RedoLog.ReadHead` | xv6-public/log.c:85-96 | The current transaction becomes what the header on the disk lists |
| `RedoLogs.RedoLog.LogWrite` | xv6-public/log.c:213-233 | With nobody in between: which of the two panics or success; on success the block is in the transaction once, its buffer pinned with its new contents, and the transaction still fits the log |
| `RedoLogs.RedoLog.TestWrite` | xv6-public/log.c:218-221 | The two panics, on the state the test sees |
| `RedoLogs.RedoLog.RecordWrite` | xv6-public/log.c:223-232 | Whatever others did since the test: the block is in the transaction once and pinned with its new contents; the invariant between commits is kept, which does not say that the transaction fits |
| `RedoLogs.RedoLog.Absorb` | xv6-public/log.c:224-230 | A block logged before is not added again; block numbers stay distinct |
| `BufferCaches.BufferCache.Pin` | xv6-public/log.c:231 | The logged buffer's contents are what is pinned for its block; other pins stay |
| `RedoLogs.RedoLog.TryBegin` | xv6-public/log.c:125-141 | An operation starts just when no commit runs and its reservation fits |
| `RedoLogs.RedoLog.EndOp` | xv6-public/log.c:145-174 | The last operation out commits a transaction that fits and leaves an empty one, also while others hold buffers; the other operations leave log, pins and disk alone; when it panics |
| `RedoLogs.RedoLog.Committable` | xv6-public/log.c:192-202 | A transaction that fits has every block pinned, once, and can be logged; it can be installed unless that leaves no buffer |
| `RedoLogs.NoBuffer` | xv6-public/bio.c:86-97 | With as many buffers pinned or held as there are, bget finds none for any other block |
| `RedoLogs.SpareBuffer` | xv6-public/bio.c:86-97 | With fewer, there is one that can be recycled |
| `RedoLogs.RedoLog.Fetch` | xv6-public/bio.c:100-111 | A block that no held buffer has is read, locked, with its pinned contents or those of the disk, exactly when it is pinned or some buffer is neither pinned nor held |
| `RedoLogs.InstallFits` | xv6-public/log.c:74-81 | In every round of install_trans bread finds buffers for the log block and its home, beside those others hold |
| `BufferCaches.BufferCache.Bread` | xv6-public/bio.c:100-111 | The locked buffer holds what was last published for the block, by log_write, bwrite or the disk; fails just when the block is not cached and every buffer is in use or dirty |
| `BufferCaches.BufferCache.LockFilled` | xv6-public/bio.c:93-111 | A buffer in use and not locked becomes locked and valid with what its block last had published; the disk and the pins stay |
| `BufferCaches.BufferCache.Bget` | xv6-public/bio.c:61-98 | A cached block keeps its only buffer; otherwise the clean unused buffer released longest ago is taken, never a dirty one |
| `BufferCaches.BufferCache.FindVictim` | xv6-public/bio.c:83-97 | The walk from the tail finds the least recently released recyclable buffer, if any |
| `BufferCaches.BufferCache.FindCached` | xv6-public/bio.c:70-81 | The walk from the head finds the one buffer of a block |
| `BufferCaches.BufferCache.Iderw` | xv6-public/memide.c:38-60 | A dirty buffer is written to its block in one disk write and becomes clean; otherwise an invalid one is filled from its block |
| `BufferCaches.BufferCache.Bwrite` | xv6-public/bio.c:113-121 | The block on the disk becomes the buffer's data in one write; the pin is dropped |
| `BufferCaches.BufferCache.Put` | xv6-public/bio.c:133-145 | The last user's release makes the buffer the most recently used; other releases leave the order alone |
| `BufferCaches.BufferCache.Brelse` | xv6-public/bio.c:123-148 | One user less and the lock free, for a buffer whose data is on the disk or logged: the cache stays coherent |
| `BufferCaches.BufferCache.MoveToHead` | xv6-public/bio.c:137-142 | Splicing moves one buffer to the front of the circular list, with prev and next inverse throughout |
| `BufferCaches.BufferCache.constructor` | xv6-public/bio.c:38-56 | binit builds a circular list of all buffers, the last one first |
| `LruList.Unlink` | xv6-public/bio.c:137-138 | The two pointer updates unlink exactly that buffer |
| `LruList.LinkFront` | xv6-public/bio.c:50-54 | The four pointer updates link a buffer right after the head |
| `BufferCaches.RecycleUnseen` | xv6-public/bio.c:86-95 | Giving a clean unused buffer to another block changes nothing any user of the cache can see, and keeps one buffer to a block |
| `BufferCaches.ModifySeen` | xv6-public/bio.c:113-121 | Changing a held buffer shows in its own block only |
| `BufferCaches.WriteBackSeen` | xv6-public/memide.c:54-59 | Writing a dirty buffer out changes nothing users see |
| `BufferCaches.ReleaseOrder` | xv6-public/bio.c:134-143 | Unused buffers stay in the order of their last release |
| `GroupCommit.GroupCommitSafety` | xv6-public/log.c:125-233 | In every interleaving: what is logged plus the unused budgets of running operations keeps the reservation of LOGSIZE blocks, no block is logged twice, commit runs alone and with no operation running, neither accounting panic is reached |
| `GroupCommit.OperationsAreAtomic` | xv6-public/log.c:125-233 | In every interleaving each operation's blocks all go to one transaction, and a transaction holds nothing else |
| `GroupCommit.NoLostWakeup` | xv6-public/log.c:126-174 | In every interleaving, while log.lock is free, whoever sleeps in begin_op still has to wait: a commit or an operation is running |
| `LogProgress.Progress` | xv6-public/log.c:126-174 | While some process is inside the log, one of those inside can take a step that brings it nearer to the end of its operation, or to sleep |
| `LogProgress.AllEnd` | xv6-public/log.c:125-174 | Liveness: from every reachable state, when no more calls begin, however the processes are scheduled they take a bounded number of steps, and when none can take another, every operation has ended, all that was logged is committed, and no lock is held |
| `LogProgress.WaiterSleeps` | xv6-public/log.c:130-134 | A process whose test in begin_op finds no room stands after each step of its own where sleep puts it: after three it has given up log.lock, with its fifth it is asleep with no lock |
| `LogProgress.StarterStarts` | xv6-public/log.c:135-139 | With room, its next two steps take it into its operation, counted, with log.lock released |
| `LogProgress.LogGivenUp` | xv6-public/log.c:125-233 | In every run a process takes at most five steps of its own while it has log.lock, and after five has released it |
| `LogProgress.PtableGivenUp` | xv6-public/proc.c:487-544 | Likewise for ptable.lock, with three steps |
| `LogProgress.StepRanks` | xv6-public/log.c:125-233 | Each step of the program of a process that has log.lock or ptable.lock brings it nearer to releasing it, and each step nearer to the end of its operation or to sleep; no panic follows |
| `LogProgress.RoomExact` | xv6-public/log.c:130-135 | begin_op refuses exactly when a commit runs, or when the running operations and this one could add blocks, each within its allowance, that do not go into the log with those there |
| `GroupCommit.RecordTakes` | xv6-public/log.c:223-232 | log_write puts its block, once, into the transaction and among the blocks of its own operation, and changes neither otherwise |
| `GroupCommit.InvNext` | xv6-public/log.c:125-233 | Every step of every process keeps locks, reservation, atomicity and sleepers in order |
| `GroupCommit.RunInv` | xv6-public/log.c:125-233 | The invariant holds in every reachable state |
| `SleepLocks.MutualExclusion` | xv6-public/sleeplock.c:22-42 | In every interleaving, with spurious wakeups by kill, at most one process is between acquiresleep and releasesleep of a lock, and the lock names it |
| `SleepLocks.NoLostWakeup` | xv6-public/proc.c:487-544 | A process asleep on a free sleep-lock is about to be woken by a process that holds the inner spin-lock; with that lock free, a sleeper finds the sleep-lock taken |
| `SleepLocks.HoldingSleepAnswer` | xv6-public/sleeplock.c:44-53 | holdingsleep answers yes exactly to the holder |
| `SleepProgress.SpinProgress` | xv6-public/proc.c:487-544 | The hand-over from the sleep-lock's spin-lock to ptable.lock never deadlocks: an awake process in a call can take a step that brings it nearer to the end of the call or to sleep, or else the holder of one of the two locks in its way can |
| `SleepProgress.ReleaseGoesThrough` | xv6-public/sleeplock.c:34-42 | From every reachable state a holder that has called releasesleep returns without the lock once nobody can take another step, which is after a bounded number of steps, however the processes are scheduled |
| `SleepProgress.AllRest` | xv6-public/sleeplock.c:22-53 | From every reachable state, when no more calls begin, the processes take a bounded number of steps; when none can take another, each is in no call, or asleep on a sleep-lock that some process has |
| `SleepProgress.CallerSleeps` | xv6-public/sleeplock.c:25-28 | A caller of acquiresleep that finds the lock taken stands after each step of its own where sleep puts it: after three it has given up the spin-lock, with its fifth it is asleep on that lock, with none |
| `SleepProgress.CallerTakes` | xv6-public/sleeplock.c:25-31 | One that finds it free has it with its next step and has returned, the spin-lock released, with the one after |
| `SleepProgress.SpinGivenUp` | xv6-public/sleeplock.c:22-53 | In every run a process takes at most five steps of its own while it has the spin-lock of a sleep-lock, and after five has released it |
| `SleepProgress.PtableGivenUp` | xv6-public/proc.c:487-544 | Likewise for ptable.lock, with three steps |
| `SleepProgress.StepRanks` | xv6-public/proc.c:487-544 | Each step of the program of a process that has the spin-lock or ptable.lock brings it nearer to releasing it, and each step nearer to the end of its call or to sleep |
| `SleepLocks.InvNext` | xv6-public/proc.c:487-567 | Every step of acquiresleep, releasesleep, holdingsleep, sleep, wakeup and kill keeps the invariant |
| `Heaps.Heap.Free` | xv6-public/umalloc.c:24-44 | The block becomes free and nothing else does; no unit of a used block changes; the next search starts beside the freed block |
| `Heaps.Heap.Malloc` | xv6-public/umalloc.c:63-90 | 0 just when no free block is big enough and sbrk refuses; otherwise a block of exactly the units asked for, apart from every used block, whose contents stay; sbrk is asked only if nothing fits, so once at most |
| `Heaps.Heap.Morecore` | xv6-public/umalloc.c:46-61 | The units sbrk gave join the free list, and the returned position is at or before a block big enough |
| `Heaps.Heap.Search` | xv6-public/umalloc.c:30-32 | The loop of free ends at the one gap the block belongs in, also at the wrap-around |
| `Heaps.Heap.Take` | xv6-public/umalloc.c:75-84 | Unlinking an exact fit or splitting the tail off a bigger chunk |
| `Heaps.Heap.Init` | xv6-public/umalloc.c:70-73 | The first malloc starts from the empty one-node cycle through base; later ones from freep |
| `FreeList.GapExists` | xv6-public/umalloc.c:30-32 | Every block apart from the list has its gap, the wrap-around included |
| `FreeList.FreedSpaced` | xv6-public/umalloc.c:33-42 | After free the list is again strictly increasing with no two free blocks adjacent |
| `FreeList.FreedLinked` | xv6-public/umalloc.c:33-42 | The header updates of free link exactly that list into one cycle |
| `FreeList.FreedCovers` | xv6-public/umalloc.c:33-42 | The free units afterwards are those before and those of the freed block |
| `FreeList.Canonical` | xv6-public/umalloc.c:24-44 | The free list is determined by which units are free: maximal runs in address order |
| `FreeList.TakenSpaced` | xv6-public/umalloc.c:75-84 | Taking a block keeps the list spaced, and the block handed out lies clear of it |
| `FreeList.TakenCovers` | xv6-public/umalloc.c:75-84 | Taking a block removes exactly its units from the free ones |
| `FreeList.ScanStep` | xv6-public/umalloc.c:74-89 | The scan of malloc comes closer to freep with each step, having found every chunk on the way too small |
| `FreeList.ScanEnd` | xv6-public/umalloc.c:86-88 | Back at freep, no chunk is big enough: only then morecore is called |
| `Heaps.FreedPartition` | xv6-public/umalloc.c:24-44 | Free and used blocks still partition what sbrk returned |
| `Heaps.TakenOk` | xv6-public/umalloc.c:75-84 | The same for malloc, with the list and the used blocks in order |
| `FileSystems.FileSystem.Writei` | Project_3/xv6-public/fs.c:604-634 | The error cases; otherwise exactly bytes [off, off + n) become the source's, the size the maximum, every other byte and file stays, no holes arise and nothing leaks; it panics just when fewer blocks are free than are missing for these bytes, tables included, and then the bytes written so far are in place within the old size, and all else holds as well |
| `FileSystems.FileSystem.Readi` | Project_3/xv6-public/fs.c:573-599 | The error cases; otherwise the bytes of the file from off on, clipped at its end; the file system does not change, so reading never allocates |
| `FileSystems.WriteThenRead` | Project_3/xv6-public/fs.c:573-634 | A read gives back what was just written there |
| `FileSystems.FileSystem.Bmap` | Project_3/xv6-public/fs.c:372-479 | The block at the place of bn in the tree, allocated with the tables on the way; nothing else moves, new data blocks are zero, a second call changes nothing; fails just when fewer blocks are free than are missing on the way |
| `BlockCount.PaidOne` | Project_3/xv6-public/fs.c:55-78 | One allocation takes one free block and fills one place |
| `FileSystems.PayingGoesOn` | Project_3/xv6-public/fs.c:621-627 | So each turn of writei takes as many free blocks as it fills places on the way to its block |
| `FileSystems.GoingFails` | Project_3/xv6-public/fs.c:621-627 | Where bmap finds no block, fewer were free than the whole write needed; the bytes before are in place |
| `FileSystems.FileSystem.SlotBlock` | Project_3/xv6-public/fs.c:381-393 | One allocation step in the inode: an existing block is returned and nothing changes; a new one enters the tree of this inode only |
| `FileSystems.FileSystem.EntryBlock` | Project_3/xv6-public/fs.c:396-400 | One allocation step in a table, likewise |
| `FileSystems.FileSystem.Balloc` | Project_3/xv6-public/fs.c:55-78 | The first free block, marked and zeroed; fails just when there is none |
| `FileSystems.FileSystem.Bfree` | Project_3/xv6-public/fs.c:80-95 | Unmarks a used block and only it; reports a free one |
| `FileSystems.FileSystem.RemoveChildren` | Project_3/xv6-public/fs.c:484-502 | From any table whose descendants are in use and distinct, as Truncation.BelowFreeable shows for every table of a sound file system: frees exactly its strict descendants, each once, children before their table |
| `FileSystems.FileSystem.FreeDirects` | Project_3/xv6-public/fs.c:515-521 | Frees each direct block once and empties its slot |
| `FileSystems.FileSystem.FreeSingle` | Project_3/xv6-public/fs.c:523-535 | Frees the blocks below the single table, then the table |
| `FileSystems.FileSystem.FreeTable` | Project_3/xv6-public/fs.c:525-531 | Frees every block of a table once |
| `FileSystems.FileSystem.FreeDeep` | Project_3/xv6-public/fs.c:537-548 | Frees what is below the double root, not the root, and nothing below slot 8 |
| `FileSystems.FileSystem.Itrunc` | Project_3/xv6-public/fs.c:509-552 | Empties the file, leaves the others as they were, frees no free block; nothing leaks if and only if the file had neither a double nor a triple root |
| `Truncation.TruncatedLeak` | Project_3/xv6-public/fs.c:536-548 | Truncation loses no block just when slots 7 and 8 of the inode are empty |
| `Truncation.LeakExample` | Project_3/xv6-public/fs.c:536-541 | A disk of three blocks on which truncating loses the root of the double tree |
| `Truncation.BelowIsTree` | Project_3/xv6-public/fs.c:484-502 | What remove_children frees below a table of a sound tree is the set of its strict descendants, without repetition, at every depth |
| `Truncation.BelowFreeable` | Project_3/xv6-public/fs.c:484-502 | In a sound file system the premise of remove_children holds for every table at every depth: all below it is in use and distinct, so no free block is met |
| `Truncation.TruncListCovers` | Project_3/xv6-public/fs.c:509-552 | What itrunc frees: all direct blocks, the single tree, the double tree without its root, nothing of the triple tree |
| `Truncation.FreedMarks` | Project_3/xv6-public/fs.c:80-95 | Freeing a list of blocks clears exactly their marks and writes only the free map |
| `BlockTree.PathOfLeaf` | Project_3/xv6-public/fs.c:372-479 | The arithmetic of bmap sends every block number to a place of the right depth, from which the number can be recovered |
| `BlockTree.LeafOfBlock` | Project_3/xv6-public/fs.h:24-29 | and every place of a data block comes from exactly one block number: with PathOfLeaf, a bijection |
| `BlockTree.PlantedKeeps` | Project_3/xv6-public/fs.c:381-475 | An allocation keeps the trees of all inodes free of sharing, moves nothing, and leaks nothing |
| `BlockTree.PlantChild` | Project_3/xv6-public/fs.c:396-399 | The allocation in a table entry puts the new block at that place and nowhere else |
| `BlockTree.PlantRoot` | Project_3/xv6-public/fs.c:381-385 | The allocation in a slot of the inode likewise |
| `BlockTree.GraftAt` | Project_3/xv6-public/fs.c:396-399 | Storing a block number in a table changes one place of one tree |
| `FileSystems.WriteByte` | Project_3/xv6-public/fs.c:621-627 | Writing a data block changes the bytes of that block of that file only |
| `FileSystems.ExtendsByte` | Project_3/xv6-public/fs.c:372-479 | Allocating blocks changes no byte that was there |
| `FileSystems.WrittenAll` | Project_3/xv6-public/fs.c:621-633 | The turns of the loop of writei add up to one overlay of the file |
| `Bitmap.UsedSetUsed` | Project_3/xv6-public/fs.c:66-93 | Marking a block changes the mark of that block alone |
| `Bitmap.WithBitMask` | Project_3/xv6-public/fs.c:66-93 | Setting a clear bit adds its mask and clearing a set bit subtracts it |
| `Blocks.WordSetWord` | Project_3/xv6-public/fs.c:396-399 | Storing a 32-bit word in a block changes that word alone, and nothing is truncated |
| `Shell.ParseCmd` | xv6-public/sh.c:327-342 | Succeeds just when the line stands for a command, which is the one returned; afterwards every pointer reads exactly its own word in the shared buffer; a syntax error leaves the buffer alone |
| `ShellGrammar.TextRoundTrip` | xv6-public/sh.c:265-446 | Writing any command down, with parentheses only where needed, and parsing the text gives the command back and consumes the line |
| `ShellGrammar.RoundTrip` | xv6-public/sh.c:344-446 | The same on tokens |
| `ShellGrammar.ParsedTrees` | xv6-public/sh.c:327-446 | The commands that some line stands for are exactly those with nonempty symbol-free words and at most 9 arguments |
| `ShellGrammar.TokensText` | xv6-public/sh.c:265-308 | Tokens spelt out with spaces are read back |
| `Shell.Parser.ParseLine` | xv6-public/sh.c:344-359 | Makes of the rest of the line what the grammar makes of its tokens, and stops where it does |
| `Shell.Parser.ParsePipe` | xv6-public/sh.c:361-372 | Likewise for pipelines |
| `Shell.Parser.ParseExec` | xv6-public/sh.c:415-446 | Likewise for words and redirections in any order; panics for a tenth argument |
| `Shell.Parser.ParseBlock` | xv6-public/sh.c:399-413 | Likewise for parentheses and the redirections behind them |
| `Shell.Parser.ParseRedirs` | xv6-public/sh.c:374-397 | Likewise for redirections; ShellLines.LinesExact pins what each of the three operators means |
| `ShellLines.AcceptedLines` | xv6-public/sh.c:265-446 | The shell accepts exactly the lines written by the rules of its grammar, with any of the three redirection operators, redirections before, among and behind the words, any number of &, and blanks wherever they are needed and anywhere else, and takes each for what it means |
| `ShellLines.LinesExact` | xv6-public/sh.c:344-446 | The same on tokens: a line is accepted as a command exactly if some way to write that command spells it; < reads, > and >> write, words keep their order among redirections, the last redirection is outermost |
| `ShellLines.AppendIsOutput` | xv6-public/sh.c:388-393 | Writing > for >> anywhere changes neither whether a line is accepted nor its command |
| `ShellLines.TokensGlue` | xv6-public/sh.c:265-308 | Tokens are read back from any text that spells them; a blank is needed only between two words and behind a > that another > follows |
| `ShellLines.TextGlue` | xv6-public/sh.c:265-308 | Every text is of that kind |
| `Shell.Parser.GetToken` | xv6-public/sh.c:265-308 | The next token, with its exact span if it is a word; skips blanks behind it |
| `Shell.Parser.Peek` | xv6-public/sh.c:310-320 | Skips blanks and tells whether the next token starts with one of the symbols |
| `Shell.NulTerminate` | xv6-public/sh.c:448-493 | Puts a NUL behind each word of the command and changes nothing else |
| `Shell.CutReads` | xv6-public/sh.c:448-493 | A NUL behind each word is enough for every word to be read whole, whatever others are cut from the same line |
| `Grep.Match` | xv6-public/grep.c:72-82 | 1 exactly when the pattern occurs in the text, at its start for ^ |
| `Grep.MatchHere` | xv6-public/grep.c:84-96 | 1 exactly when some stretch of the text from there on is in the language of the pattern; * is looked for before $ |
| `Grep.MatchStar` | xv6-public/grep.c:98-106 | The same for a repetition followed by a pattern, however the stretch is divided |
| `Grep.BeginsCons` | xv6-public/grep.c:84-106 | A pattern begins at a position just when its first item fits some stretch there and the rest begins behind it |
| `Pipes.Pipe.Write` | xv6-public/pipe.c:78-99 | Bytes are appended in order until the pipe is full or all are in; done exactly if all fit, failed exactly if not and nobody can read or the writer is killed, asleep otherwise; readers are woken unless it failed |
| `Pipes.Pipe.Read` | xv6-public/pipe.c:101-121 | Fails exactly for a killed reader of an empty pipe with an open writer, sleeps exactly for a reader not killed there; otherwise takes the oldest bytes, in order, as many as asked for or there are, none at end of file |
| `PipeRuns.ClosedRead` | xv6-public/pipe.c:101-121 | In every run, once the write end is closed, each read returns, whether the reader is killed or not, with the oldest bytes, as many as it asks for or there are |
| `PipeRuns.EndOfFile` | xv6-public/pipe.c:101-121 | In every run, after the write end is closed, PIPESIZE reads at most bring the readers all that was ever written |
| `PipeRuns.EmptyRead` | xv6-public/pipe.c:106-112 | In every run a read of an empty pipe with an open writer fails if the reader is killed, and sleeps if not |
| `PipeRuns.ClosedWrite` | xv6-public/pipe.c:78-99 | In every run, once the read end is closed, each write returns, with as many bytes in the pipe as fit |
| `Pipes.Pipe.StoreByte` | xv6-public/pipe.c:94 | One byte more at the end of the contents, counters wrapping |
| `Pipes.Pipe.TakeByte` | xv6-public/pipe.c:116 | The oldest byte leaves, counters wrapping |
| `Pipes.Pipe.Close` | xv6-public/pipe.c:59-75 | Which end is closed, who is woken, and when the pipe is given back |
| `Pipes.RingPush` | xv6-public/pipe.c:94 | Storing at the write counter appends one byte, wherever the counters stand |
| `Pipes.RingPop` | xv6-public/pipe.c:116 | Advancing the read counter drops the oldest byte |
| `Pipes.Difference` | xv6-public/pipe.c:83-114 | The 32-bit difference of the counters counts the bytes, through wrap-around |
| `PipeRuns.Fifo` | xv6-public/pipe.c:59-121 | In every run of any number of processes, the bytes read so far followed by the ring are the bytes written so far |
| `PipeRuns.RunInv` | xv6-public/pipe.c:59-121 | In every run bytes keep their order and writers sleep only on a full pipe with an open reader |
| `PipeRuns.StepReaders` | xv6-public/pipe.c:59-121 | A step keeps readers asleep only on an empty pipe with an open writer if and only if it is not a killed writer giving up, after filling the pipe, while a reader sleeps |
| `PipeRuns.ReadersJustified` | xv6-public/pipe.c:59-121 | Over runs: readers sleep only with reason up to any moment if and only if there was no such step before |
| `PipeRuns.NoDeadlock` | xv6-public/pipe.c:59-121 | Readers and writers never sleep at the same time, unless a wakeup has been lost that way |
| `PipeRuns.LostWakeup` | xv6-public/pipe.c:86-88 | A run in which a killed writer leaves a reader asleep on a full pipe |
| `VirtualMemory.CopyThenFree` | xv6-public/vm.c:281-345 | copyuvm, successful or not, followed by freevm of its result restores the set of free frames and leaves the original untouched |
| `VirtualMemory.Vm.Copyuvm` | xv6-public/vm.c:313-345 | Succeeds exactly if the frames free before are at least one for the directory, one for each page up to sz, and one for each directory slot that holds one of these or a kernel page; then a sound address space on frames of its own with equal contents and flags up to sz and the kernel's map above; otherwise 0 with everything given back |
| `VirtualMemory.Vm.Freevm` | xv6-public/vm.c:281-298 | Returns exactly the directory, the tables and the user pages, each once; no other frame is written |
| `VirtualMemory.Vm.Allocuvm` | xv6-public/vm.c:219-249 | New zeroed user pages between the sizes exactly if there are frames for them and for the tables that are missing; otherwise the old mappings with all frames back but the new tables, which the directory still reaches |
| `VirtualMemory.Vm.Deallocuvm` | xv6-public/vm.c:251-279 | Unmaps and frees exactly the mapped pages between the sizes; every other entry and every table stays |
| `VirtualMemory.UnmappedMore` | xv6-public/vm.c:265-268 | Why the skip over an absent table is sound: pages that are not mapped may count as visited or not, the effect is the same |
| `VirtualMemory.Vm.MapPages` | xv6-public/vm.c:57-80 | Maps consecutive pages to consecutive frames; fails exactly if the tables that are missing are more than the free frames, and then has mapped a prefix; frames go to tables only |
| `VirtualMemory.Vm.MapOne` | xv6-public/vm.c:68-77 | One page mapped; nothing changed just where its table is missing and no frame is free |
| `VirtualMemory.Vm.CopyPage` | xv6-public/vm.c:325-339 | One page copied, or its frame given back |
| `VirtualMemory.Vm.Walk` | xv6-public/vm.c:32-55 | The table of a page, made on demand and open to all in the directory; no entry changes, and the frames of space and allocator together stay the same, one less free for a new table |
| `VirtualMemory.Vm.Setupkvm` | xv6-public/vm.c:118-136 | A directory with exactly the kernel's map if the free frames suffice for it and its tables, and otherwise 0 with everything given back |
| `KernelMap.KernelPages` | xv6-public/vm.c:105-115 | What the rows of kmap come to: physical memory and the devices, each page where it belongs, none for user programs, all writable but the kernel text |
| `KernelMap.KmapFits` | xv6-public/vm.c:105-115 | These rows meet the premise of setupkvm and copyuvm: they lie in the kernel half and do not overlap, wherever the data begins |
| `KernelMap.KernelTables` | xv6-public/vm.c:118-136 | They take 64 tables |
| `KernelMap.SpaceFrames` | xv6-public/vm.c:313-345 | So copying n pages takes 65 frames, one for each page and one for each 1024 pages begun |
| `PageTables.TookSome` | xv6-public/vm.c:45-52 | Where a table is missing and no frame is left, there were too few for all |
| `PageTables.TookAll` | xv6-public/vm.c:45-52 | Where all are there, there were enough |
| `VirtualMemory.Vm.Kalloc` | xv6-public/kalloc.c:79-95 | A free frame leaves the free set, 0 just when there is none |
| `VirtualMemory.Vm.Kfree` | xv6-public/kalloc.c:54-77 | The frame, filled with junk, goes to the head of the free list |
| `PageTables.NewTable` | xv6-public/vm.c:45-52 | A new table keeps the address space free of sharing and conserves frames |
| `PageTables.MapEntry` | xv6-public/vm.c:71-73 | Putting an entry into a table brings exactly its frame into the address space |
| `PageTables.UnmapEntry` | xv6-public/vm.c:269-276 | Clearing an entry releases exactly its frame, which is then used nowhere |
| `VirtualMemory.Bystander` | xv6-public/vm.c:313-345 | Work on frames that were free does not affect another address space |
| `VirtualMemory.AllocFailed` | xv6-public/vm.c:235-246 | Undoing a failed growth restores the mappings and loses only tables |
| `Mlfq.Select` | xv6-public/mlfq_scheduler.c:65-116 | The scan chooses the runnable process that is least by level, in level 2 by priority, then by number in the queue, then by table index; none just when none is runnable |
| `Mlfq.OneChoice` | xv6-public/mlfq_scheduler.c:65-116 | There is only one such process |
| `Mlfq.FirstChosen` | xv6-public/mlfq_scheduler.c:65-91 | If the lowest level with runnable processes is 0 or 1, the first runnable one of its queue is chosen |
| `Mlfq.BestChosen` | xv6-public/mlfq_scheduler.c:93-107 | If it is 2, the first in the queue among the runnable ones of the best priority is |
| `Mlfq.TickQueues` | xv6-public/mlfq_scheduler.c:348-425 | From queues that agree with the numbers, a tick of the first or second process moves it to the end of its queue, or of the next level's when its quantum is used up; all three stay queues |
| `Mlfq.TickBreaks` | xv6-public/mlfq_scheduler.c:357-364 | A tick of any process further back leaves two processes with the number 0 |
| `Mlfq.TickKeeps` | xv6-public/mlfq_scheduler.c:348-425 | So a tick keeps the numbers those of real queues if and only if the process is first or second in its queue |
| `Mlfq.TickExample` | xv6-public/mlfq_scheduler.c:357-364 | A table in which the first two processes sleep, the third is chosen, and its tick leaves no consistent queues |
| `Mlfq.BoostedQueue` | xv6-public/mlfq_scheduler.c:210-249 | Boosting makes one queue of all live processes: old level 0, then 1, then 2, each in table order, numbered without gaps, all of priority 3 with no time used; the others stay as they are |
| `Mlfq.QuantumUsed` | xv6-public/mlfq_scheduler.c:374-422 | Over ticks of any processes, a process keeps its level and priority until its own ticks have used up the quantum of its level; then it is one level lower, or at level 2 of a priority better by one unless that is 0, with all its time again |
| `Mlfq.BoostLoops` | xv6-public/mlfq_scheduler.c:212-249 | The three loops one after the other have that effect |
| `Mlfq.BoostKeepsOrder` | xv6-public/mlfq_scheduler.c:212-249 | Boosting puts the old queues one behind the other, each in its order, if and only if each is in the order of the table |
| `Mlfq.LevelOrder` | xv6-public/mlfq_scheduler.c:212-221 | The same for one level |
| `Mlfq.BoostExample` | xv6-public/mlfq_scheduler.c:212-221 | A table in which boosting swaps the two processes of level 0 |
| `Schedulers.Scheduler.Tick` | xv6-public/trap.c:75-84 | Run as one step: the tick's whole effect on the table; level, priority and used time stay in range |
| `Schedulers.Scheduler.PriorityBoosting` | xv6-public/mlfq_scheduler.c:198-254 | Run as one step: with no process locked, one queue of all live processes and empty others; with one locked, the whole effect, which QueueNumbers.LockedBoostKeeps and LockedBoostCounts judge; ranges hold in any case |
| `Schedulers.Scheduler.Lift` | xv6-public/mlfq_scheduler.c:212-221 | One loop of boosting: the live processes of a level get consecutive numbers, in table order |
| `Schedulers.Scheduler.Unlock` | xv6-public/mlfq_scheduler.c:278-326 | The first process with the locked pid goes to the front of level 0 and the others there move back; level 0 is counted afresh, free places included, and the caller's level loses one; ranges hold |
| `Schedulers.Scheduler.Front` | xv6-public/mlfq_scheduler.c:301-314 | Only the first process with the pid is moved |
| `Schedulers.Scheduler.MoveBack` | xv6-public/mlfq_scheduler.c:316-322 | Every place at level 0 with another pid moves back by one and is counted |
| `Schedulers.Scheduler.Lock` | xv6-public/mlfq_scheduler.c:258-276 | Only an unlocked scheduler with the right password is locked, and not for a zombie |
| `Schedulers.Scheduler.SetPriority` | xv6-public/mlfq_scheduler.c:163-193 | The first live process with the pid, and only it, gets a priority from 0 to 3; otherwise nothing changes |
| `Schedulers.Scheduler.AllocProc` | xv6-public/proc.c:85-107 | The first free place becomes an embryo at the end of the level-0 queue, which stays a queue; nothing else changes; fails just when there is none |
| `Schedulers.Scheduler.DropEmbryo` | xv6-public/proc.c:112-117 | If there is no memory, the place is free again and the level-0 queue as before |
| `Schedulers.Scheduler.FinishFork` | xv6-public/proc.c:237-243 | The child starts at level 0, priority 3, with no time used, under the last number of level 0; QueueNumbers.ForkKeeps tells when that is its place |
| `Schedulers.Scheduler.Reap` | xv6-public/proc.c:317-358 | The child's place is free at level 0, without a pid; those behind the parent in its level move up and that level is counted one less; ranges hold; QueueNumbers.ReapKeeps tells when the queues agree |
| `PriorityRuns.PrioritiesNeedOneCpu` | xv6-public/mlfq_scheduler.c:411-419 | With the tick cut between the test of the priority and its decrement, and setPriority, boosting, dispatching, sleeping and waking in between: in every run every priority stays from 0 to 3, if and only if there is at most one CPU |
| `PriorityRuns.PriorityLost` | xv6-public/mlfq_scheduler.c:411-419 | For every number of CPUs from two on, a run from two newly forked processes that leaves a priority of -1: one process sets the priority of another to 0 between its test and its decrement |
| `PriorityRuns.RunRange` | xv6-public/mlfq_scheduler.c:411-419 | Over runs with any number of CPUs: all priorities are in range up to a moment if and only if no decrement before it found a priority of 0 |
| `PriorityRuns.StepRange` | xv6-public/mlfq_scheduler.c:411-419 | A single step takes a priority out of range if and only if it is the decrement of one that has become 0 since its test |
| `PriorityRuns.WholeTick` | xv6-public/mlfq_scheduler.c:348-425 | Test and decrement with nobody in between make up the whole tick |
| `PriorityRuns.TickedTableTicks` | xv6-public/trap.c:75-84 | That whole tick is the one the in-place scheduler makes |
| `QueueNumbers.ForkKeeps` | xv6-public/proc.c:237-243 | The end of fork leaves level 0 a queue if and only if the child is still the last there since allocproc |
| `QueueNumbers.ForkRuns` | xv6-public/proc.c:237-243 | A forked child that is last in the queue can run: the scheduler takes it exactly if no other process of level 0 can, and otherwise the first of the queue that can |
| `QueueNumbers.ForkExample` | xv6-public/proc.c:237-243 | A tick of the parent in between leaves two processes with the last number |
| `QueueNumbers.ReapKeeps` | xv6-public/proc.c:317-358 | With zombies counted as members: wait leaves queues that agree with numbers and sizes if and only if the child stands right behind its parent in the same level |
| `QueueNumbers.ReapFrees` | xv6-public/proc.c:317-358 | wait makes the place one that allocproc can take, nobody has the pid any more, and of the other processes at most the numbers change |
| `QueueNumbers.ReapExample` | xv6-public/proc.c:317-358 | A table in which reaping a child behind its sibling gives the sibling the number of the parent |
| `QueueNumbers.LockedBoostKeeps` | xv6-public/mlfq_scheduler.c:198-254 | Boosting while a process is locked leaves level 0 a queue if and only if no other live process is below level 0 and the locked one, if at level 0, is the last there; that queue is the locked one in front of the others |
| `QueueNumbers.LockedBoostCounts` | xv6-public/mlfq_scheduler.c:198-254 | The sizes agree as well if and only if, besides, the caller is at level 0 and no free place or zombie is at level 0 with another pid |

## Left out

- A disk write is atomic per block: a block torn by a crash is not modelled.
- RedoLogs.RedoLog.Commit: the other processes keep the buffers they hold until it ends, and hold no logged block, for
  which it would wait; the interleavings of `begin_op`, `log_write` and `end_op` are in `GroupCommit`, which treats a commit
  as one step of its process. A transaction that does not fit the log, but leaves a buffer, is followed on the disk only
  (`RedoSpec.LogWritesHarmless`).
- RedoLogs.RedoLog.EndOp: likewise.
- RedoLogs.RedoLog.WriteLog: likewise.
- RedoLogs.RedoLog.LogWrite: the two panics are results, not shown unreachable; the guard compares with log.size - 1 and
  also rejects an absorbed block when the log is full.
- GroupCommit.GroupCommitSafety: takes as a premise that each operation adds at most MAXOPBLOCKS new blocks; the panic
  "too big a transaction" is a state of the machine, not shown unreachable.
- LogProgress.AllEnd: while the operations end, no process is killed and nobody else takes `ptable.lock`; that every waiting
  process gets its turn while others keep starting operations is not claimed, as `wakeup` wakes all and order is not kept.
- SleepProgress.AllRest: likewise; processes that hold sleep-locks and wait for each other's stay asleep.
- SleepProgress.ReleaseGoesThrough: likewise.
- BufferCaches.BufferCache.Bread: for device 1, the only one `iderw` accepts; buffers of device 0 all stand for block
  (0, 0) at boot.
- BufferCaches.BufferCache.Bget: for device 1, likewise.
- BufferCaches.BufferCache.FindCached: for device 1, likewise.
- `ide.c` and its interrupts: the disk is the one of `memide.c`.
- SleepLocks.MutualExclusion: callers release only locks they hold, as all callers in the kernel do.
- Heaps.Heap.Malloc: for requests below 2 to the 31 less 64 KB. From about 2 to the 31 on `nu * sizeof(Header)` is negative
  as the `int` argument of `sbrk`; the rounding itself wraps around only within 8 of 2 to the 32.
- Heaps.Heap.Free: for a pointer malloc returned and that was not freed since; addresses count units of 8 bytes, and
  what `sbrk` returns is a parameter at or above the break.
- The file layer works on the disk as the buffer cache shows it: `bread` and `log_write` are reading and replacing a block.
- FileSystems.FileSystem.Writei: for files on the disk; a device file is handed to its driver.
- FileSystems.FileSystem.Readi: for files on the disk, likewise.
- FileSystems.FileSystem.Itrunc: block 0, which the code reads as a table when there is a triple tree, is taken to hold
  zeroes at the start, as `mkfs` leaves it; that it keeps them is proved.
- Inodes on the disk (`iupdate`, `ialloc`, `iget`), directories, paths and system calls on files.
- The base file system's `itrunc` (`xv6-public/fs.c`): the one modelled does the same for direct blocks and the single tree.
- Running commands, allocating their nodes and reading lines in the shell; strings are without NUL, as in C.
- Shell.NulTerminate: commands are values, so two nodes never share a subtree; the line buffer is changed in place.
- PipeRuns.RunInv: an end is not closed while a process is in a call on it, as open files are counted; one stay within the
  pipe's lock is one step, the locks of `sleep` being those of `SleepLocks`.
- `pipealloc`, copying to user memory and file descriptors.
- Reading and writing user memory across pages (`copyout`, `loaduvm`, `inituvm`), switching tables and segments.
- VirtualMemory.Vm.Deallocuvm: for sizes up to KERNBASE, as all callers have; larger ones would wrap around in 32 bits.
- VirtualMemory.Vm.Setupkvm: the rows of `kmap` are a parameter, above KERNBASE and not overlapping, as `KernelMap.KmapFits`
  shows of the real ones; entries are pairs
  of a frame number and flags, frames are 1024 such words.
- VirtualMemory.Vm.Copyuvm: all pages below sz are mapped, as the code panics otherwise.
- The spin-lock of `kalloc.c`, and `freerange`.
- Schedulers.Scheduler.Tick: one step, though the code holds no lock; so `Mlfq.TickQueues` is about one operation at a time,
  and `PriorityRuns` cuts it in two at the priority only. For a running process whose pid no other live one has.
- Schedulers.Scheduler.PriorityBoosting: one step, though it takes no `ptable.lock` and int 131 is a trap gate that leaves
  interrupts on; so `Mlfq.BoostedQueue` is about one operation at a time. `PriorityRuns` has each turn of its loops as a step.
- Schedulers.Scheduler.AllocProc: one step; it holds `ptable.lock`, which ticks do not take.
- Schedulers.Scheduler.FinishFork: one step, likewise; what ticks and forks between the two do is in `QueueNumbers.ForkKeeps`.
- Schedulers.Scheduler.Reap: one step, likewise.
- Schedulers.Scheduler.Unlock: one step; it counts level 0 with its free places, and which queues that leaves is
  stated for boosting only (`QueueNumbers.LockedBoostCounts`).
- `exec`, `fork` beyond the scheduler's fields, signals of `kill` to the scheduler, and the user programs other than `grep`'s
  matcher and the shell's parser; `grep`'s loop over the chunks it reads.
- `Project_3`'s log and `sync`, and `Project_2`'s threads and memory limits: they add bookkeeping, no new protocol.
