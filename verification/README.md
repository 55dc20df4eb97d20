# xv6: what its hard parts guarantee

A model in Dafny of the parts of xv6-riscv (the branch with file-backed `mmap`) whose
correctness is not plain from reading them, and proofs of what they guarantee.

| files | model | source |
|---|---|---|
| Bcache | the LRU buffer cache as an implementation of a flat array of blocks | kernel/bio.c |
| LogMachine, LogProof, LogRuns, LogLedger, LogPanics, LogCache, Log | the write-ahead log as a machine over single block writes on NBUF buffers that operations, readers and the log share, with a crash possible between any two steps; the code of the log over the buffer cache, whose every buffer operation and disk write is a step of that machine | kernel/log.c, kernel/bio.c |
| SleepMachine, SleepProof, SleepRuns, SleepStates | sleep, wakeup, yield, exit, wait, kill and the scheduler, interleaved over any number of CPUs, locks being part of the state | kernel/proc.c |
| ProcTree, ProcRuns | fork, exit, wait, reparent, pids and exit statuses | kernel/proc.c |
| PageMem, PageFree, PageCount, Vm | physical pages, the free list and three-level page tables against a flat map | kernel/vm.c, kernel/kalloc.c |
| UserCopy | copyin, copyout, copyinstr | kernel/vm.c |
| FileBlocks, FileContents, FileTrunc, FileLayer | bitmap, inodes and indirect blocks as byte sequences | kernel/fs.c |
| Vmas, MappedFiles, FileRefs, Mmap | mapped regions, page faults, write-back and file reference counts | kernel/proc.c, kernel/sysfile.c, kernel/file.c |
| VirtioQueue, VirtioSteps, VirtioRuns, Virtio | the driver's queue with a device that answers in any order | kernel/virtio_disk.c |
| HeapBlocks, Umalloc | malloc and free | user/umalloc.c |
| ShellParse, ShellPrint, ShellLex, ShellGrammar, ShellShow, Shell | the shell's parser against a grammar of what may be typed | user/sh.c |
| Grep | the pattern matcher | user/grep.c |
| Pipe | the pipe ring | kernel/pipe.c |
| Machine, CString | page size, address limit, unsigned ranges; C strings | kernel/riscv.h |

How the source's forms appear here:

- A global structure or an object that the source updates in place is a class; its fields
  are the source's, arrays and lists among them as sequences where the source indexes
  them. Each class has a ghost view as a value, and what a method does is stated on it.
- A panic is a result where the source can reach it, and a precondition of the callee that
  every modelled caller is proved to meet where it cannot.
- Concurrency is a sequence of steps. A stretch of code that holds one lock throughout is
  one step of the structure the lock protects; in the sleep/wakeup model the lock
  operations themselves are steps, on sequentially consistent locks.
- Code that would sleep returns, and goes on from the point it reports when it is called
  again: bread and commit at a locked buffer, begin_op, the pipe, wait.
- Unsigned wrap-around, 32-bit truncation of file offsets and 16-bit ring indices are
  written out. Other integers are unbounded.
- Failing allocations, copies, `sbrk`, the device, interrupts and kills are parameters or
  nondeterministic steps.

What the proofs turned up about the code as it is:

- A `log_write` that appends stays clear of its panic if and only if the log has at least
  LOGSIZE + 1 blocks; mkfs makes it one short (LogPanics.AppendPanicFreeIff,
  LogPanics.ShortLogPanics). One for a block that is listed already can panic in a log of any
  size: the code tests for room first (LogPanics.AbsorbingPanics, LogPanics.AbsorbPanicFreeIff).
- With NBUF equal to LOGSIZE a commit of a full list finds no buffer for the log's own blocks
  and panics in bget (LogPanics.FullCommitPanics). bget panics exactly when pinned buffers and
  other buffers in use are NBUF (LogPanics.BgetPanicsIff); a commit that nobody disturbs
  completes exactly if the list has fewer than NBUF entries (Log.Log.EndOp).
- A page of a mapping at a file offset of 2^32 or more shows the file at the offset cut to
  32 bits, because readi takes a uint (MappedFiles.FaultExact, MappedFiles.FaultWraps).
- A page of a shared mapping at such an offset is written back at the offset cut to 32 bits,
  over the start of the file (MappedFiles.PutBackExact, MappedFiles.PutBackWraps, and
  Mmap.Kernel.StoreWraps for the system calls and the store that get there).
- Pages are written back whole, so munmap of a page that holds the end of a file makes the
  file longer, to the end of that page (MappedFiles.Lengthens, MappedFiles.FinalSize).
- growproc does not look at mapped regions. It panics when a region's page is in its way, and
  otherwise the teardown of the process finds the heap whole if and only if no region meets
  the new part of the heap (Mmap.Kernel.Growproc, Vmas.GrowTeardown, and
  Mmap.Kernel.HeapMeetsRegion for two system calls that get there).
- sbrk of a negative amount that takes the size below 0 returns success and changes nothing
  (Mmap.Kernel.Growproc; the same is stated of sizes past 2^32, which a heap in 128 MB of
  memory does not reach). malloc of about 2^31 bytes or more, with no such block free, asks
  sbrk for an int that is negative or too small, takes the answer for success, and writes a
  header where there is no memory or returns a block that ends beyond the break (Umalloc.Allocator.Malloc says exactly when,
  Umalloc.TwoGigabytes and Umalloc.FourGigabytes show both).
- pipewrite, killed between two bytes, returns without waking the readers of the bytes it
  has put (Pipe.Ring.Write states exactly when, Pipe.LeftBehind shows it). The wakeup
  theorem SleepRuns.NoLostWakeup is about code that wakes before it lets go of the lock.
- `a & b` is a syntax error in this shell: parseline goes on only after a semicolon
  (ShellGrammar.NothingAfterAmpersand).

## Model

| member | source | states |
|---|---|---|
| `LogRuns.CrashAtomicity` | kernel/log.c:68-203 | In every state of every run, crashes allowed between any two block writes of commit and of recovery: what recovery would make of the disk is exactly the initial disk with the durable groups replayed, all of each and nothing of any later operation |
| `LogRuns.RecoveredAndCommitted` | kernel/log.c:116-123 | After recovery, and after a commit, home blocks on disk and as read through the cache are the replay of the whole history |
| `LogRuns.DurableForever` | kernel/log.c:193-203 | What is durable at one point of a run is a prefix of what is durable at every later point, through any number of crashes |
| `LogLedger.HistoryIsBook` | kernel/log.c:126-235 | In every run the history and its durable part are what the calls entered: one entry, with the caller's operation, block and data, for every modification, cut back to the durable part by a crash, made durable as a whole by the header write |
| `LogLedger.LastStoreOnDisk` | kernel/log.c:178-203 | After a commit or a recovery the disk has, for every home block, the data of the last modification of it that no crash undid; so has whoever reads the block |
| `LogLedger.LastStoreSeen` | kernel/log.c:205-235 | While the system is up, whoever reads a home block gets the data of the last such modification |
| `LogLedger.LastCommittedRecovered` | kernel/log.c:68-123 | From one commit to the next, wherever the machine stops: recovery gives every home block the data of the last modification before the commit, and nothing of what was stored since |
| `LogRuns.Reservation` | kernel/log.c:126-175 | In every reachable state the logged blocks plus the unused reservation of all outstanding operations fit in LOGSIZE, logged block numbers are distinct and outside the log, and a commit has no outstanding operation |
| `LogPanics.PanicsExactly` | kernel/log.c:214-235 | In every state of every run a call of log_write within its reservation panics exactly if the list has reached the capacity of the log; in a log of LOGSIZE + 1 blocks only calls for a listed block can, when every operation has spent its reservation |
| `LogPanics.AppendPanicFreeIff` | kernel/log.c:214-235 | A log_write that would append an entry never panics in any run, for operations within their reservation, if and only if the log has at least LOGSIZE + 1 blocks |
| `LogPanics.AbsorbPanicFreeIff` | kernel/log.c:219-229 | A log_write for a block that is listed already never panics in any run if and only if nothing can be logged at all: the code tests for room before it looks for the block |
| `LogPanics.AbsorbingPanics` | kernel/log.c:219-229 | For every log of two or more blocks there is a run, built step by step, that leads a log_write for a listed block to the panic |
| `LogPanics.ShortLogPanics` | mkfs/mkfs.c:25 | With a log of LOGSIZE blocks or less there is a run, built step by step, that leads an appending log_write to its panic |
| `LogPanics.BgetPanicsIff` | kernel/bio.c:58-89 | In every state of every run, with operations, readers and commit on the same NBUF buffers: bget of a block without a buffer panics if and only if pinned buffers plus buffers without a pin that somebody has locked, waits for or is about to give up in brelse are NBUF |
| `LogPanics.PinnedCount` | kernel/log.c:227-232 | Until installation the pinned buffers are as many as the list has entries |
| `LogPanics.FullCommitPanics` | kernel/log.c:178-186 | In a log of LOGSIZE + 1 blocks there is a run whose commit panics in bget at its first log block: LOGSIZE entries pin all NBUF buffers |
| `LogPanics.CommitPanicsIff` | kernel/log.c:178-186 | A commit that nobody disturbs panics in bget of a block without a buffer if and only if the list has NBUF entries |
| `LogPanics.FewUsers` | kernel/bio.c:58-89 | With fewer users than buffers bget does not panic |
| `LogCache.ViewIsLatest` | kernel/bio.c:92-103 | What the log's machine reads through its cache is what the buffer cache says is the latest contents |
| `LogCache.PanicIs` | kernel/bio.c:76-88 | The machine's condition for the panic of bget is the one that the buffers and their counts show |
| `LogRuns.RunInv` | kernel/log.c:126-235 | The invariant that ties disk, log area, header, cache, history and reservations together holds in every state of every run |
| `LogProof.RecoverIgnoresListedHome` | kernel/log.c:68-83 | Recovery gives the same home blocks whatever the blocks listed in the header contain at their home: this is why installation may crash and restart |
| `LogProof.RecoverInstalled` | kernel/log.c:68-83 | Once the listed blocks have been installed, recovery changes no home block |
| `LogProof.RecoverEmpty` | kernel/log.c:116-123 | With an empty header recovery changes no home block |
| `LogProof.InvCommitHead` | kernel/log.c:102-114 | The header write of a commit is the point at which a whole group becomes durable; the invariant is kept |
| `LogProof.InvInstall` | kernel/log.c:68-83 | Writing one logged block home keeps the invariant |
| `LogProof.InvCrash` | kernel/log.c:116-123 | A crash keeps the invariant and loses exactly the history that was not durable |
| `LogProof.InvLogWrite` | kernel/log.c:214-235 | log_write, absorbing or appending, keeps the invariant |
| `LogMachine.HeadOfPutHead` | kernel/log.c:86-114 | What write_head stores, read_head reads back |
| `LogProof.InvGet` | kernel/bio.c:58-89 | A read by anybody, at any time, that makes or finds a buffer keeps the invariant |
| `LogProof.InvUnlock` | kernel/bio.c:116-122 | The first half of brelse keeps the invariant |
| `LogProof.InvDrop` | kernel/bio.c:124-137 | So does the second |
| `LogProof.InvEvict` | kernel/bio.c:76-84 | Recycling a buffer that nobody uses keeps the invariant: no block that is only in memory is lost |
| `Log.Log.Bread` | kernel/bio.c:92-103 | bread by an operation, a reader or the log, over the buffer cache: panics exactly if no buffer can be had, waits exactly if another process has the buffer locked, and locks it otherwise; all of it steps of the machine |
| `Log.Log.Modify` | kernel/log.c:205-213 | The holder of a buffer changes its block: the latest contents of the block, and what the machine reads there, become the data of the call and nothing else changes, on the disk nothing at all; the modification step of the machine |
| `Log.Log.Unlock` | kernel/bio.c:116-122 | The first half of brelse: a step of the machine after which the buffer is not locked and still counted |
| `Log.Log.Drop` | kernel/bio.c:124-137 | The second half, at any later time: a step of the machine that lowers the count; a buffer that is still in use keeps its block |
| `Log.Log.Brelse` | kernel/bio.c:116-137 | Both halves with nobody in between; no other buffer changes |
| `Log.Log.BeginOp` | kernel/log.c:126-142 | Admits an operation exactly if no commit runs and its reservation fits, and then makes the begin step of the machine; otherwise nothing changes |
| `Log.Log.LogWrite` | kernel/log.c:214-235 | Makes the log-write step of the machine, pinning the buffer of a new entry, or panics exactly if the log is full; an appending call never when the log has LOGSIZE + 1 blocks |
| `Log.Log.Pair` | kernel/log.c:72-74 | Gets the two buffers that an entry needs, in the order of the code, going on where it had to wait; alone, it gets them if buffers enough are left, and panics if bget of the first does |
| `Log.Log.WriteLog` | kernel/log.c:178-191 | Copies every logged block to the log area, one disk write a step; alone, it completes if the list leaves a buffer free and panics if not |
| `Log.Log.WriteHead` | kernel/log.c:102-114 | Its one disk write is the commit step |
| `Log.Log.EraseHead` | kernel/log.c:200-201 | Its one disk write takes the transaction out of the log |
| `Log.Log.InstallTrans` | kernel/log.c:68-83 | Installs every logged block, one disk write a step, on commit and on recovery |
| `Log.Log.Commit` | kernel/log.c:193-203 | If it completes, everything in the history is durable and the log is empty; it goes on from where it had to wait; alone, it completes exactly if the list has fewer than NBUF entries, and panics otherwise |
| `Log.Log.FinishCommit` | kernel/log.c:166-174 | The rest of end_op after the commit: the disk is the replay of the history |
| `Log.Log.EndOp` | kernel/log.c:146-175 | The last operation out commits the group: the disk is the replay of the history; with nobody at any buffer it panics exactly if the list has NBUF entries; an earlier one leaves the disk alone |
| `Log.Log.Crash` | kernel/log.c:116-123 | A crash keeps the disk and cuts the history down to its durable part |
| `Log.Log.ReadHeader` | kernel/log.c:86-97 | Loads the block list that the disk header holds |
| `Log.Log.RecoverFromLog` | kernel/log.c:116-123 | Never runs out of buffers, and leaves the replay of the durable history on the disk and an empty log |
| `Bcache.Bcache.constructor` | kernel/bio.c:36-53 | binit links all buffers into one circle, none of them valid for any block |
| `Bcache.Bcache.Search` | kernel/bio.c:58-75 | Finds the buffer of a block if there is one |
| `Bcache.Bcache.Oldest` | kernel/bio.c:76-86 | Finds, among the buffers that nobody uses, the one least recently released to zero |
| `Bcache.Bcache.Bget` | kernel/bio.c:58-89 | Panics exactly if the block is not cached and every buffer is in use; never recycles a buffer in use; recycles the least recently released one; keeps one buffer per block |
| `Bcache.Bcache.Bread` | kernel/bio.c:92-103 | Waits exactly if the block's buffer is locked; otherwise returns it locked with the latest contents of the block, whatever was evicted in between |
| `Bcache.Bcache.Resume` | kernel/bio.c:92-103 | A call that waited goes on: the buffer it was counted for is still the block's, and is returned locked with the latest contents |
| `Bcache.Bcache.Modify` | kernel/log.c:205-213 | The holder changes the latest contents of the block, and of no other |
| `Bcache.Bcache.Bwrite` | kernel/bio.c:106-112 | Brings the disk up to date for the buffer's block and changes no other |
| `Bcache.Bcache.Unlock` | kernel/bio.c:116-122 | The buffer is no longer locked, and still counted: nobody can recycle it |
| `Bcache.Bcache.Drop` | kernel/bio.c:124-137 | One user less; at zero the buffer goes to the front of the list, which stays a circle in release order |
| `Bcache.Bcache.Bpin` | kernel/bio.c:139-144 | A pinned buffer keeps its count |
| `Bcache.Bcache.Bunpin` | kernel/bio.c:146-151 | Undoes one pin |
| `Bcache.MovedLinked` | kernel/bio.c:123-133 | Unlinking any buffer and linking it in behind the head keeps the list one circle, ordered by release |
| `Bcache.OnCircle` | kernel/bio.c:26-34 | Every buffer is reached from the head by following next, and next is injective: the list is a circular permutation of all buffers |
| `SleepRuns.NoLostWakeup` | kernel/proc.c:657-702 | In every state of every interleaving: a process asleep on a channel whose lock is free has tested the current version of the condition, so no change with its wakeup was missed |
| `SleepStates.StateDiagram` | kernel/proc.c:566-702 | In every run: the state of every process after a step is given by the step's own name and process, it moves only along the edges of the state diagram, and only the CPU that holds p->lock moves it |
| `SleepStates.SleepEnds` | kernel/proc.c:686-724 | In every run a process asleep on a channel becomes runnable exactly by a kill of it, or by the check of a CPU that is in wakeup for this channel, has been since an earlier start of it, and holds the lock of the channel; sleepers on other channels sleep on |
| `SleepStates.AsleepWhere` | kernel/proc.c:657-682 | Whoever sleeps on a channel has itself called sleep for it, with the lock of the channel |
| `SleepStates.TestedSince` | kernel/proc.c:657-702 | No lost wakeup, in terms of the steps of the run: if a process sleeps on a channel whose lock is free, it has tested the condition, and no step since has changed the condition |
| `SleepRuns.OneCpu` | kernel/proc.c:566-621 | No process is current on two CPUs, and no condition lock is held by two |
| `SleepRuns.SchedNeverPanics` | kernel/proc.c:603-621 | Whenever sched runs, p->lock is the only lock held by the CPU and the process is not RUNNING |
| `SleepRuns.HandOff` | kernel/proc.c:566-594 | A thread on a CPU is that CPU's current process; it holds its own p->lock exactly while it is on its way into or out of the scheduler |
| `SleepRuns.ReapedIsOff` | kernel/proc.c:155-172 | When wait reaps a zombie, or a failed allocation or fork frees its slot, no CPU runs it |
| `SleepRuns.RunInv` | kernel/proc.c:566-702 | The lock, hand-off and wakeup invariants hold in every state of every interleaving |
| `SleepRuns.InvStep` | kernel/proc.c:566-702 | Each of the steps of sleep, wakeup, yield, exit, wait, kill, fork, its failures and the scheduler keeps the invariants; what each step does to a process is SleepStates.StateDiagram and SleepStates.SleepEnds |
| `ProcTree.ProcTable.constructor` | kernel/proc.c:346-369 | Only init, with pid 1 |
| `ProcTree.ProcTable.Allocproc` | kernel/proc.c:108-126 | The first unused slot becomes used, with a pid never used before and no other change, or the table is full and unchanged |
| `ProcTree.ProcTable.ForkAlloc` | kernel/proc.c:393-412 | A fork that runs out of memory leaves the table as it was, but for the pid it used up |
| `ProcTree.ProcTable.ForkParent` | kernel/proc.c:436-438 | The child gets its parent |
| `ProcTree.ProcTable.ForkLaunch` | kernel/proc.c:440-442 | The child becomes runnable, and no other process changes |
| `ProcTree.ProcTable.Reparent` | kernel/proc.c:450-461 | Exactly the children of p go to init |
| `ProcTree.ProcTable.Exit` | kernel/proc.c:466-508 | Afterwards p is a zombie with its status, and nobody's parent |
| `ProcTree.ProcTable.Wait` | kernel/proc.c:512-557 | Reaps a child exactly if there is a zombie among the children and the copy succeeds, returning the pid and the status of a process that exited and was not reaped before; sleeps exactly if there are children, none of them a zombie, and it is not killed |
| `ProcTree.ProcTable.Freeproc` | kernel/proc.c:155-172 | The slot is unused again |
| `ProcTree.Acyclic` | kernel/proc.c:450-461 | No process is its own ancestor |
| `ProcTree.FromInit` | kernel/proc.c:450-461 | Every living or exited process descends from init |
| `ProcTree.ExitedInv` | kernel/proc.c:466-508 | exit, with its reparenting, keeps the tree sound: pids distinct, parents alive and older, history consistent |
| `ProcTree.ReapedInv` | kernel/proc.c:155-172 | Reaping a zombie keeps the tree sound, and it had not been reaped before |
| `ProcTree.AllocateInv` | kernel/proc.c:108-126 | Allocation keeps the tree sound |
| `ProcTree.AbandonInv` | kernel/proc.c:405-410 | Giving up a fork keeps the tree sound |
| `ProcTree.LaunchInv` | kernel/proc.c:436-442 | Completing a fork keeps the tree sound |
| `ProcRuns.TreeSound` | kernel/proc.c:393-557 | In every state of every run: pids of live slots differ, every process but init has a living parent, descends from init and is not its own ancestor |
| `ProcRuns.ReapedOnce` | kernel/proc.c:512-557 | In every run: no two successful waits return the same pid; the status that wait returns is that of an exit which this process made before, in the run or before its first state, and of every exit it made |
| `Vm.Vm.constructor` | kernel/kalloc.c:26-40 | freerange puts every page of the range on the free list, once |
| `Vm.Vm.Kfree` | kernel/kalloc.c:46-63 | The page, in use and neither a table nor the frame of a user page, joins the free list; no page of any tree leads to it, TRAMPOLINE and TRAPFRAME apart; its panics are the precondition |
| `Vm.Vm.Kalloc` | kernel/kalloc.c:68-82 | Takes a page off the free list, or returns 0 exactly if it is empty |
| `Vm.Vm.Walk` | kernel/vm.c:80-98 | Finds the entry of a page; if asked to it adds exactly the missing tables, and fails exactly if there are not pages enough for them; no translation of any tree changes |
| `Vm.Vm.Walkaddr` | kernel/vm.c:103-121 | The frame that the flat map gives for a user page, else 0 |
| `Vm.Vm.Mappages` | kernel/vm.c:137-160 | Adds exactly its range to the flat map, or exactly a prefix of it: up to a page that is mapped already, the panic, or until memory is exhausted, -1; the frames become those pages' own; every other translation stays; of an empty range nothing is said but that nothing was done |
| `Vm.WholeExactly` | kernel/vm.c:137-160 | mappages succeeds if and only if no page of the range was mapped and the free list has as many pages as tables are missing |
| `Vm.Vm.Uvmunmap` | kernel/vm.c:165-187 | Removes exactly its range from the flat map, and returns exactly those pages to the free list if asked to |
| `Vm.Vm.Uvmcreate` | kernel/vm.c:191-200 | A new tree without any leaf, or 0 and nothing changed |
| `Vm.Vm.Uvmalloc` | kernel/vm.c:220-244 | Succeeds if and only if the free list has a page for every new page and for every table missing on the way to one; then it fills the range with zeroed pages of its own, else every translation is as before |
| `Vm.Vm.AllocThenLook` | kernel/vm.c:103-244 | uvmalloc and then walkaddr: every address of the new part leads the user to a page of zeros, a different one for every page |
| `Vm.Vm.Uvmdealloc` | kernel/vm.c:250-262 | Returns exactly the pages between the two sizes |
| `Vm.Vm.Freewalk` | kernel/vm.c:266-282 | Frees exactly the table pages below a node; the leaf panic is not reached when the tree has no leaf |
| `Vm.Vm.Uvmfree` | kernel/vm.c:286-292 | Every page that the tree owned is back on the free list, once, and nothing else has changed |
| `Vm.Vm.Uvmcopy` | kernel/vm.c:300-328 | Succeeds if and only if the free list has a page for every page copied and for every table missing in the child; then the child has its own copy of every page with the same flags, else no user page, and all translations are as before |
| `PageMem.IndicesInjective` | kernel/riscv.h:355-363 | Different pages below MAXVA never share all three table indices |
| `PageMem.IndicesCompose` | kernel/riscv.h:355-363 | The three indices are the digits of the page number to the base 512, the first level's the leading one |
| `PageMem.BitsRoundTrip` | kernel/riscv.h:340-350 | Packing a frame and flags into an entry and taking it apart gives them back |
| `PageFree.EntriesReadBack` | kernel/riscv.h:340-350 | Every entry that leads to a table or to a user page is such a word |
| `PageFree.NoSharing` | kernel/vm.c:137-328 | No two mapped pages of all user trees share a frame, TRAMPOLINE and TRAPFRAME apart; no such frame is on the free list or a table; no page is on the free list twice or two tables |
| `PageCount.Conserved` | kernel/kalloc.c:26-82 | Free pages, tables of all trees, mapped pages with a frame of their own and pages in other use add up to all of memory, and every user page is among those counted |
| `Vm.FreedCount` | kernel/vm.c:286-292 | Freeing a tree makes the free list longer by exactly the number of pages that the tree had |
| `PageMem.RemovedOwned` | kernel/vm.c:165-187 | Unmapping a page leaves every other user page the only one with its frame |
| `PageMem.InstalledOwned` | kernel/vm.c:137-160 | So does mapping one |
| `PageMem.FilledUndone` | kernel/vm.c:220-262 | Filling pages and giving them back restores the flat map |
| `PageMem.SetPteOk` | kernel/vm.c:137-160 | Storing a leaf entry with an R, W or X bit, or clearing one, keeps trees, owners and flat map in agreement |
| `PageMem.AddTableOk` | kernel/vm.c:80-98 | Linking a new table page changes no translation and keeps the agreement |
| `UserCopy.UserMemory.Copyout` | kernel/vm.c:344-366 | Succeeds exactly if the whole range is mapped, storing exactly the bytes; otherwise stores the part before the first unmapped page |
| `UserCopy.UserMemory.Copyin` | kernel/vm.c:368-391 | Succeeds exactly if the whole range is mapped, with the bytes that are there |
| `UserCopy.UserMemory.Copyinstr` | kernel/vm.c:393-434 | The bytes up to and including the first NUL; -1 only if there is none within the limit or an unmapped page comes first |
| `UserCopy.RoundTrip` | kernel/vm.c:344-391 | What copyout stores, copyin reads back |
| `FileLayer.FileSystem.Balloc` | kernel/fs.c:64-86 | The lowest free block, zeroed; panics exactly if there is none |
| `FileLayer.FileSystem.Bfree` | kernel/fs.c:89-103 | The block becomes free; the panic is the precondition, and itrunc meets it |
| `FileLayer.FileSystem.Bmap` | kernel/fs.c:377-405 | The block in the slot of the index, or in the entry of the indirect block that slot 12 names; a missing one is allocated, zeroed and stored there; no other block changes hands, and no byte of any file changes; nothing changes if it is there; on balloc's panic at most the indirect block has been made |
| `FileLayer.FileSystem.Itrunc` | kernel/fs.c:409-437 | Exactly the blocks of the inode become free, the file is empty, every other file keeps its bytes, and no block is left without a place |
| `FileLayer.FileSystem.Readi` | kernel/fs.c:455-477 | The file's bytes from off, clipped to its size, and nothing is allocated; -1 exactly if the destination cannot take them, with what it can take delivered |
| `FileLayer.FileSystem.Writei` | kernel/fs.c:486-517 | Splices in the bytes of the pieces that could be read to their end and extends the size by them, with every block below it mapped and every other file unchanged; only free blocks are taken, for the range written and the indirect block; -1 and nothing changed for a bad range; after balloc's panic the file system is sound and a prefix is in |
| `FileLayer.FileSystem.WriteThenRead` | kernel/fs.c:455-517 | What writei stores, readi reads back, for every good range of every file; the write is refused exactly for a bad range, unless balloc panics |
| `FileTrunc.ClearSlot` | kernel/fs.c:416-421 | The block in a slot has its bit set when itrunc frees it |
| `FileTrunc.ClearEntry` | kernel/fs.c:423-430 | So has the block in an entry of the indirect block, although entries are freed without being cleared |
| `FileTrunc.Truncated` | kernel/fs.c:409-437 | Once all slots and entries are dealt with, the bitmap and the inodes agree again, and exactly the inode's blocks are free |
| `FileBlocks.WordOfPutWord` | kernel/fs.c:393-398 | An entry stored into four bytes of an indirect block reads back, and no other entry changes |
| `FileBlocks.KindsApart` | kernel/fs.c:377-405 | A block of file data is nobody's indirect block |
| `FileBlocks.PutBytesOk` | kernel/fs.c:497-506 | Bytes put into a block of file data change no block number |
| `FileBlocks.NewOk` | kernel/fs.c:377-405 | Allocating a block and storing it in an empty place keeps the bitmap exact and leaves no block in transit: a bit is set exactly if the block is metadata or stored in exactly one place |
| `FileBlocks.NewDirect` | kernel/fs.c:377-400 | Such a block becomes block bn of one file and of no other |
| `FileBlocks.AllocateOk` | kernel/fs.c:64-86 | Allocation keeps the bitmap exact, with the new block alone in transit |
| `FileBlocks.ReleaseOk` | kernel/fs.c:89-103 | Release of the block in transit keeps the bitmap exact, and none is left in transit |
| `FileContents.WrittenNext` | kernel/fs.c:497-506 | One turn of writei's loop puts its bytes into the file, changes no other byte of any file, and takes only free blocks |
| `FileContents.WrittenStill` | kernel/fs.c:377-405 | A turn that panics for want of a block changes no byte of any file |
| `FileContents.WrittenAll` | kernel/fs.c:486-517 | After the loop, complete or cut short, the file is the splice of the old contents up to its size, the other files are what they were, and no block is in transit |
| `Mmap.Kernel.Filealloc` | kernel/file.c:29-44 | The first file with no reference |
| `Mmap.Kernel.Filedup` | kernel/file.c:47-56 | One reference more; the panic is the precondition |
| `Mmap.Kernel.Fileclose` | kernel/file.c:59-83 | One reference less; the panic is the precondition |
| `Mmap.Kernel.Fdalloc` | kernel/sysfile.c:41-54 | The lowest free descriptor |
| `Mmap.Kernel.OpenFile` | kernel/sysfile.c:376-393 | A new file with one reference in the lowest free descriptor, or nothing changed |
| `Mmap.Kernel.Dup` | kernel/sysfile.c:106-118 | A second descriptor and a second reference, or nothing changed |
| `Mmap.Kernel.Close` | kernel/sysfile.c:145-155 | The descriptor and its reference are gone |
| `Mmap.Kernel.Place` | kernel/sysfile.c:77-83 | A free slot if there is one, and the lowest address in use |
| `Mmap.Kernel.Mmap` | kernel/sysfile.c:56-94 | Accepts exactly the good requests for which a slot and room above the heap exist; the new region lies right below all others and holds one reference; all regions stay aligned, non-empty, below TRAPFRAME and disjoint |
| `Mmap.Kernel.Fault` | kernel/proc.c:175-224 | Succeeds exactly if a region covers the address, allows the access, has no page there yet and memory can be had; then adds exactly that page, with the file's bytes at the mapping offset, and entry bits that let through what the region allows, reads with writes |
| `Mmap.Kernel.Unmap` | kernel/proc.c:227-280 | Acts exactly on a whole region or a page-aligned prefix or suffix of one: exactly those pages go, shared writable ones are written back in order, what is left keeps its place in the file, a whole region gives up its reference; 0 exactly if every page that should be written back was |
| `Mmap.ReportExact` | kernel/proc.c:227-280 | For a shared writable range, at any offsets, 0 is returned exactly if, by the initial size of the file and the resident pages, writei takes every resident page |
| `Mmap.Kernel.UnmapPage` | kernel/proc.c:251-268 | One page of it: written back if the region is shared and writable, then removed |
| `Mmap.Kernel.UnmapAll` | kernel/proc.c:282-288 | No region is left, exactly the pages outside all regions stay, and the files are what writing back the regions one after the other makes of them; of a sound space exactly the heap is left |
| `Mmap.AllBackKeeps` | kernel/proc.c:282-288 | Files that no shared writable region maps are unchanged by it |
| `Mmap.Kernel.Exit` | kernel/proc.c:474-483 | Afterwards the process holds no file, its regions are gone and written back, and for a sound space the page-table teardown meets exactly the heap pages it had |
| `Mmap.Kernel.Exec` | kernel/exec.c:111-118 | The old regions and their references are gone and written back, descriptors stay, the new image is the whole space |
| `Mmap.Kernel.Fork` | kernel/proc.c:399-428 | The child has the parent's size, descriptors and regions, each with its own reference; it has the parent's bytes and permissions at every page of the heap and no other page; nothing changed if memory runs out; panics exactly at a hole in the heap, which a sound space does not have |
| `Mmap.Kernel.ForkApart` | kernel/proc.c:399-428 | fork, a store by the parent and one by the child, anywhere: below the size each has the bytes from before the fork with its own store, and not the other's |
| `Vmas.ForkedSame` | kernel/vm.c:300-328 | What uvmcopy copies of a sound space is a copy: same bytes and permissions for every page of the heap, no other page, same size and regions |
| `Mmap.Kernel.GrowHeap` | kernel/vm.c:220-244 | Succeeds exactly if memory suffices and no page in the way is resident, fails with nothing changed exactly if memory runs out before such a page, and panics otherwise |
| `Mmap.Kernel.ShrinkHeap` | kernel/vm.c:250-262 | Removes exactly the pages between the sizes, and panics exactly if one of them is not there |
| `Mmap.Kernel.Growproc` | kernel/proc.c:373-389 | Success, -1 or panic, each with its exact condition and state, for every int: every page that stays keeps its contents, and every new one is zeros; a size below 0 or beyond 2^32 silently changes nothing; a grown space is sound, and its teardown after vma_unmap_all meets exactly the heap, if and only if no region meets the new part of the heap |
| `Mmap.Kernel.HeapMeetsRegion` | kernel/proc.c:373-389 | mmap of all that is free above a heap of whole pages, then sbrk(1), then vma_unmap_all: the last page of the heap is missing |
| `Mmap.Kernel.UserStore` | kernel/trap.c:68-78 | A store by the program traps exactly if its page is not there or not writable; otherwise the address is in the heap or in a region that allows writes, that one byte of memory changes, and no other process, region or file |
| `Mmap.Kernel.StoreWraps` | kernel/proc.c:227-280 | mmap of 2^32 bytes and a page of a file, shared and writable, a store into the last page and munmap: munmap returns 0, and the byte stored is the first byte of the file |
| `Mmap.GoneInv` | kernel/proc.c:227-280 | Unmapping keeps regions, resident pages and reference counts consistent |
| `FileRefs.RefIsSlots` | kernel/file.c:29-83 | A file's count is the number of descriptors and mapped regions, over all processes, that refer to it |
| `FileRefs.AttachedOk` | kernel/file.c:47-56 | A reference taken for a new slot keeps all counts exact |
| `FileRefs.DetachedOk` | kernel/file.c:59-83 | A reference given up with its slot keeps all counts exact |
| `Vmas.RestKeeps` | kernel/proc.c:270-278 | After a prefix or suffix goes, exactly the other addresses stay mapped, each at the same file offset as before, with the same protection, sharing and file; the slot becomes unused exactly if the whole region goes |
| `Vmas.Protected` | kernel/proc.c:191-218 | The entry bits let a program store only into the heap and into regions that allow writes |
| `Mmap.ProtBits` | kernel/sysfile.c:56-94 | The protection argument of mmap read bit by bit: 1 is read, 2 write, 4 execute |
| `Vmas.ResizedOk` | kernel/vm.c:220-262 | Of a heap resized either way, pages that stay keep contents and permissions, new ones are zeros, and pages outside are what they were |
| `Vmas.Unmapped` | kernel/proc.c:227-280 | The regions stay aligned and disjoint, and every resident page belongs to the heap or a region |
| `Vmas.SoundTeardown` | kernel/proc.c:282-288 | Without its regions a sound space has exactly the heap resident |
| `Vmas.Added` | kernel/sysfile.c:85-93 | A region below all others and above the heap keeps the space sound |
| `Vmas.GrowTeardown` | kernel/proc.c:373-389 | For a heap grown to any size: the space is sound, and after the regions and their pages are gone exactly the heap is resident, if and only if no region has a page in the new part of the heap |
| `Vmas.GrownOk` | kernel/proc.c:373-389 | A grown heap is whole, and every resident page belongs to it or a region |
| `Vmas.ShrunkOk` | kernel/proc.c:384-386 | Shrinking keeps the space sound |
| `MappedFiles.ReadPageShows` | kernel/proc.c:204-207 | For offsets below 2^32 a faulted page is the file's bytes at its offset, padded with zeros |
| `MappedFiles.FaultExact` | kernel/proc.c:204-207 | For every offset: the page is right if and only if the offset is below 2^32 or the file is blank where the offset, cut to 32 bits, points |
| `MappedFiles.FaultWraps` | kernel/proc.c:204-207 | A one-byte file shows up again 4 GiB into its mapping |
| `MappedFiles.PagePutBack` | kernel/proc.c:256-268 | For every range and all offsets: the file has a resident page of a shared writable region at the page's place, cut to 32 bits, at the end if and only if some page was written there and the last such page has the same bytes; which pages are written is given by the initial size and the resident pages |
| `MappedFiles.PageBelow4G` | kernel/proc.c:256-268 | Without resident pages at offsets of 2^32 or more: a resident page is in the file at the end if and only if, by the initial size and the resident pages, the file was long enough or every page from its end on is resident, and the page fits the largest file |
| `MappedFiles.SizeExact` | kernel/proc.c:256-268 | The size of the file after write-back, for every range, from its initial size and the resident pages alone |
| `MappedFiles.FinalSize` | kernel/proc.c:256-268 | Without pages at 2^32 or more it is the old size, or the end of the last page that was written if that is more |
| `MappedFiles.Lengthens` | kernel/proc.c:256-268 | Writing back a page that holds the end of the file makes the file longer, to the end of that page at least |
| `MappedFiles.InTime` | kernel/proc.c:256-268 | The offset of a page is within the file when its turn comes exactly if the file was long enough or the pages from its end on are resident |
| `MappedFiles.PutBackExact` | kernel/proc.c:256-268 | For every offset: one page's write-back is what it should be if and only if the offset is below 2^32, or writei refuses the offset cut to 32 bits, or the file has the page's bytes there already |
| `MappedFiles.PutBackWraps` | kernel/proc.c:256-268 | One resident page 4 GiB into any shared writable region that starts at offset 0 overwrites the start of the file |
| `MappedFiles.OthersKept` | kernel/proc.c:256-268 | For every range: a byte of the file stays unless a resident page's offset, cut to 32 bits, covers it |
| `MappedFiles.CleanKeeps` | kernel/proc.c:256-268 | Private and read-only regions leave the file unchanged |
| `Umalloc.Allocator.Free` | user/umalloc.c:24-44 | The block's units, and no others, become free; every other block in use keeps its units and size; the list stays circular, in address order and fully coalesced |
| `Umalloc.Allocator.Search` | user/umalloc.c:30-32 | The search for the place in the list terminates and finds the free header before the block |
| `Umalloc.SbrkExact` | kernel/sysproc.c:41-53 | The bytes asked for, from the old break on, lie below the new break if and only if their number fits an int and the size stays below 2^32 |
| `Umalloc.Allocator.Morecore` | user/umalloc.c:46-61 | Asks sbrk for the units as an int: NULL exactly if the int is positive and the kernel refuses; killed at the first header exactly if the break did not move past it; otherwise the units asked for, of which there may be fewer below the break, are free, and nothing in use changed |
| `Umalloc.Allocator.Malloc` | user/umalloc.c:63-90 | A block of exactly the units needed, taken from free units only, while all other blocks keep their units; sbrk is called, once, exactly if no free block is large enough; NULL, fault and the new break each with their exact condition; after a call of sbrk the heap lies below the break if and only if the request fits an int and the process stays below 2^32 bytes |
| `Umalloc.TwoGigabytes` | user/umalloc.c:63-90 | malloc(2^31) of a fresh program faults: sbrk was asked to shrink |
| `Umalloc.FourGigabytes` | user/umalloc.c:63-90 | malloc(2^32 - 1) of a fresh program returns a block of more than 4 GiB, for which sbrk has added 16 bytes |
| `HeapBlocks.FreedOk` | user/umalloc.c:24-44 | free's relinking, with either neighbour, both or none, keeps the list and the partition of memory into blocks sound |
| `HeapBlocks.CutOk` | user/umalloc.c:78-82 | Cutting the tail off a free block keeps them sound |
| `HeapBlocks.UnlinkedOk` | user/umalloc.c:76-77 | Taking a whole free block keeps them sound |
| `HeapBlocks.GrownOk` | user/umalloc.c:46-61 | Memory from sbrk, adjacent or after a gap, is added as free memory; a block large enough is found at freep or right behind it |
| `HeapBlocks.Reached` | user/umalloc.c:24-44 | Every free block is reached from base |
| `HeapBlocks.UserWrite` | user/umalloc.c:63-90 | Whatever a program writes into its blocks does not disturb the allocator |
| `Virtio.Driver.constructor` | kernel/virtio_disk.c:132-139 | All descriptors free |
| `Virtio.Driver.AllocDesc` | kernel/virtio_disk.c:144-154 | The lowest free descriptor |
| `Virtio.Driver.FreeDesc` | kernel/virtio_disk.c:157-170 | The descriptor is free; the two panics are the precondition |
| `Virtio.Driver.Alloc3Desc` | kernel/virtio_disk.c:189-201 | Three different descriptors, or nothing changed and fewer than three free |
| `Virtio.Driver.FreeChain` | kernel/virtio_disk.c:173-185 | Exactly the three descriptors of the chain become free |
| `Virtio.Driver.Start` | kernel/virtio_disk.c:203-269 | Posts a chain of three that asks for the buffer, direction and block of the call, marks the buffer busy, leaves every other chain alone and moves no data; or waits with nothing changed |
| `Virtio.Driver.DeviceTake` | kernel/virtio_disk.c:259-269 | The device sees a new head exactly if one was posted, and it is the right one, across index wrap |
| `Virtio.Driver.DeviceReturn` | kernel/virtio_disk.c:223-257 | Following the chain, the device moves exactly the block that was asked for, between the buffer and the disk |
| `Virtio.Driver.IntrNext` | kernel/virtio_disk.c:300-312 | Completes the next returned request, never completed before; status is 0 |
| `Virtio.Driver.Intr` | kernel/virtio_disk.c:282-315 | Whatever the device returns between the tests of the loop, any number of requests at a time: everything returned before the last test is completed |
| `Virtio.Driver.End` | kernel/virtio_disk.c:271-280 | When the caller goes on its request has been completed, exactly once, and its chain is free again |
| `VirtioQueue.AtMostTwo` | kernel/virtio_disk.c:189-201 | There are never three chains |
| `VirtioQueue.RingsShort` | kernel/virtio_disk.c:259-269 | At most two entries of each ring are pending |
| `VirtioSteps.PostInv` | kernel/virtio_disk.c:203-269 | Posting a chain keeps descriptors, chains, rings and counts consistent |
| `VirtioSteps.PostedAsks` | kernel/virtio_disk.c:223-257 | Followed from its head, the chain is the request with direction and sector of the call, the whole buffer of the call, which the device writes exactly for a read, and a status byte; all other chains stay |
| `VirtioSteps.ReturnInv` | kernel/virtio_disk.c:300-312 | So does the device returning a head |
| `VirtioSteps.ConsumeInv` | kernel/virtio_disk.c:300-312 | So does the interrupt handler |
| `VirtioSteps.FinishInv` | kernel/virtio_disk.c:271-280 | So does freeing the chain |
| `VirtioSteps.ReturnMoves` | kernel/virtio_disk.c:223-257 | The descriptors lead the device to the buffer, block and direction of the request |
| `VirtioRuns.Partition` | kernel/virtio_disk.c:144-201 | In every run the descriptors are partitioned into free ones and at most two disjoint chains |
| `VirtioRuns.Answered` | kernel/virtio_disk.c:203-280 | In every run the device's answer to a call does what the call asks for: a write puts the buffer, as it was at the call, into the block of the call and changes nothing else; a read puts the block into the buffer of the call and changes nothing else |
| `VirtioRuns.Transferred` | kernel/virtio_disk.c:203-280 | A whole call in any run: between start and end the device answers exactly once; then a write has put the buffer as it was at the start into the block, and a read has left in the buffer what the block was when the device answered |
| `VirtioRuns.DataMoves` | kernel/virtio_disk.c:203-315 | No other step moves data |
| `VirtioRuns.NoOverwrite` | kernel/virtio_disk.c:259-312 | In every run no unread entry of either ring is overwritten |
| `VirtioRuns.CompletedOnce` | kernel/virtio_disk.c:271-312 | In every run no request is completed twice, and each is completed before its caller goes on |
| `VirtioRuns.NoPanic` | kernel/virtio_disk.c:157-185 | In every run the status panic and the free_desc panics are unreachable |
| `ShellPrint.RoundTrip` | user/sh.c:327-446 | Every command tree, printed with all parentheses, parses back to the same tree |
| `ShellPrint.LineParses` | user/sh.c:344-446 | The same for the inside of any block anywhere in a buffer |
| `ShellPrint.ArgsParse` | user/sh.c:415-446 | A list of words is read as exactly those words |
| `ShellLex.LexesExactly` | user/sh.c:265-308 | gettoken, called again and again, gives exactly the tokens that were typed, for any white space between them |
| `ShellGrammar.ParsesExactly` | user/sh.c:327-446 | parsecmd accepts exactly the lines of the grammar, with any white space, and returns the tree of the line: redirections before, between and behind the words of a command or behind a block, pipes to the right, & and ; as they bind |
| `ShellGrammar.ArgsRead` | user/sh.c:415-446 | The argument loop reads words and redirections in any mixture: all the words in order, and all the redirections in order |
| `ShellGrammar.LineRead` | user/sh.c:344-446 | The same for any line, with or without a block around it, anywhere in the input |
| `ShellGrammar.NothingAfterAmpersand` | user/sh.c:344-359 | A line with one & followed by anything but another & or a semicolon is a syntax error |
| `ShellShow.TypedRoundTrip` | user/sh.c:327-446 | Every command tree, typed with the fewest parentheses that any line for it has, parses back to the same tree |
| `ShellShow.FewestInLine` | user/sh.c:399-413 | No line that means the same has fewer |
| `ShellShow.LineOfTree` | user/sh.c:344-413 | Every tree has a line, and the line means the tree |
| `Shell.Gettoken` | user/sh.c:265-308 | The token at the cursor |
| `Shell.Peek` | user/sh.c:310-320 | Skips white space and looks at one character |
| `Shell.Parseredirs` | user/sh.c:374-397 | The redirections at the cursor, as the grammar reads them |
| `Shell.Parseexec` | user/sh.c:415-446 | The command at the cursor, as the grammar reads it: the words with the redirections around them, which ShellGrammar.ParsesExactly ties to what was typed |
| `Shell.Parseblock` | user/sh.c:399-413 | The block at the cursor, as the grammar reads it |
| `Shell.Parsepipe` | user/sh.c:361-372 | The pipeline at the cursor, as the grammar reads it |
| `Shell.Parseline` | user/sh.c:344-359 | The line at the cursor, as the grammar reads it; terminates on every input |
| `Shell.EndOutside` | user/sh.c:449-493 | No place that nulterminate writes to lies inside a word |
| `Shell.Nulterminate` | user/sh.c:449-493 | Writes NUL behind every word and nothing else |
| `Shell.Parsecmd` | user/sh.c:327-342 | Parses the whole buffer or panics; afterwards every word of the command is a C string of its own, spelled as it was typed |
| `Grep.Match` | user/grep.c:70-80 | Succeeds if and only if some position, only the first under ^, starts a string of the pattern's language, all the rest of the text if the pattern ends in an unstarred $ |
| `Grep.MatchHere` | user/grep.c:83-94 | The same at the start of the text |
| `Grep.MatchStar` | user/grep.c:97-104 | Some run of the starred character, possibly empty, is followed by a match of the rest |
| `Grep.HereStar` | user/grep.c:86-87 | How the language of a pattern that starts with a starred character unfolds |
| `Grep.HereOne` | user/grep.c:90-92 | How it unfolds for a plain character |
| `Pipe.Ring.Write` | kernel/pipe.c:76-103 | One stretch of pipewrite under the lock: the bytes put are exactly the next ones of the source; it sleeps only when the pipe is full; bytes are put without waking readers if and only if the kill is seen between two bytes |
| `Pipe.Ring.Read` | kernel/pipe.c:105-130 | One stretch of piperead: the bytes taken continue those taken before; it reports the end only when no writer is left and the pipe is empty; a byte whose copy fails is taken but not counted |
| `Pipe.Ring.PutByte` | kernel/pipe.c:95 | The bytes taken stay a prefix of the bytes put, and at most PIPESIZE are pending, also when the counters wrap |
| `Pipe.Ring.TakeByte` | kernel/pipe.c:123 | The byte taken is the oldest one |
| `Pipe.Ring.Close` | kernel/pipe.c:58-74 | The end that goes wakes the sleepers at the other; the pipe is freed when both ends are closed |
| `Pipe.Counters` | kernel/pipe.c:87-119 | The 32-bit counters tell a full pipe from an empty one |
| `Pipe.LeftBehind` | kernel/pipe.c:84-87 | A reader asleep on the pipe although it holds a byte: the writer was killed between two bytes |

## Left out

- Boot, assembly, device registers and memory fences: hardware; swtch is one hand-off step, locks are sequentially consistent.
- acquire and push_off (kernel/spinlock.c): the spin loop and interrupt nesting.
- Sleep-locks (kernel/sleeplock.c): they appear as the locked flag of a buffer; as clients of sleep and wakeup they would add easy members.
- iupdate, ilock, iget and the on-disk layout of inodes and of the bitmap: an inode's fields and a block's bit are stored directly.
- Directories, path lookup and link counts (kernel/fs.c, kernel/sysfile.c).
- uvmclear, uvminit and the kernel page table (kernel/vm.c): easy members.
- The teardown of trampoline and trapframe pages; page-table pages of one process in Mmap, where the flat page map stands for them.
- filewrite's division into transactions and fileread (kernel/file.c): they call readi and writei.
- The lists of buffers and free descriptors are sequences indexed by position, not memory addresses.
- runcmd and everything the shell executes (user/sh.c); grep's line buffer (user/grep.c).
- Virtio.Driver.Start: the store of the ring slot and the bump of the index are one step; the device looks only at slots below the index, so it cannot tell.
- FileLayer.FileSystem.Writei: which part of a piece whose copy failed stays in the buffer is a parameter; that the buffer was not logged is not modelled.
- Umalloc.Allocator.Malloc: memory is counted in units of a header, and the break is a multiple of 16; a fault kills the program, so the heap is not described after it.
- Mmap.Kernel.Unmap: a balloc panic during write-back is not modelled, because the files of this part are byte sequences without blocks.
- Mmap.Kernel.Exec: the new image has less than 2^32 bytes, as any that fits in physical memory; so have all heaps.
- PageFree.NoSharing: the kernel's own page table, which maps all of memory, is not among the trees.
- Bcache.Bcache.Bread: there is one device.
- Log.Log.EraseHead: sets the count of the list to 0 once it has the buffer; nobody else looks at the count while a commit runs.
- Vm.Vm.Mappages: an empty range, whose last page underflows in the code, is reported as such and not mapped.
- Pipe.Ring.Write: pipealloc and the freeing of the page are not modelled.
