# A small MIPS kernel: scheduling, locks, paging, files

This project models the core of the kernel and proves what its parts promise, alone and over whole runs.

* **Free lists** (`Slist.dfy`). The array-backed list that hands out pids, descriptors, frames, page tables and swap
  slots; proved to be a stack of numbers.
* **Scheduling and blocking.** `Machine.dfy` is the kernel state as a value and every operation as a function on it, cut
  where a task can be switched out; a task carries the place at which it will go on. `Selection.dfy` treats the two
  selection loops. `QueueRuns.dfy`, `SyncRuns.dfy`, `KillRuns.dfy`, `LockRuns.dfy`, `SleepRuns.dfy`, `Starvation.dfy`,
  `Fairness.dfy`, `Guarantees.dfy` and `Overtaking.dfy` prove invariants and bounds over all runs of events in which
  every event that takes the running task off the ready queue finds a next one; `Breakdown.dfy` says exactly when an
  event does not. `Episodes.dfy` has concrete runs from boot. `Kernel.dfy` has the operations as methods on the table of
  task records, whose queues are linked through `prev` and `next`, and proves each equal to its function.
* **Paging** (`Paging.dfy`, `PagingRuns.dfy`, `PagingUnit.dfy`). Directories, the pool of page tables, frames with their
  reverse map, swap slots and the TLB. A load or store of any process goes through the TLB, faults if it must, and is
  tried again. The theorem is refinement of plain memory. `PagingMoves.dfy` says everything that one fault
  changes, `PagingRoom.dfy` counts the places that are left, and `PagingStrays.dfy` treats the faults that find none.
* **Files** (`Bitmap.dfy`, `Fs*.dfy`). The card as sectors of bytes and of directories; bitmaps, inodes, directories and
  open files, with what the kernel caches of them. `FsTree.dfy` holds the invariant: each used block has one owner, and
  the directories form a tree. `FsAnswers.dfy` says when each call goes through, and `FsDescents.dfy` where cd leads. `FsAtomic.dfy`, `FsStores.dfy` and `FsFormat.dfy` say when mkdir, touch, fwrite and mkfs
  keep it, `FsBeyond.dfy` what fwrite does where it leaves the blocks of its file, `FsHistory.dfy` and `FsShared.dfy`
  treat runs of calls, `FsEpisodes.dfy` and `FsLosses.dfy` have concrete ones, and `FsUnit.dfy` has the calls as methods
  on the kernel's variables.
* **Formatting** (`Printk.dfy`). Numerals, the bounded formatter and atoi; `Formats.dfy` says what each conversion means.

Where the code does not do what its name or its documentation promises, the model keeps the code; one lemma says exactly
when the promise holds, and another shows an input or a run for which it does not:

* fopen records the inode number modulo 8 (`FsFiles.OpenNamesInodeIff`, `FsEpisodes.EighthFileIsRoot`).
* fread computes what remains in unsigned arithmetic (`FsReads.ReadCountIff`, `FsReads.ReadsPastTheEnd`).
* fwrite never advances in its buffer: every sector gets the start of it (`FsWrites.LaysBufferIff`,
  `FsEpisodes.SecondSectorStartsOver`).
* fwrite adds overwritten bytes to the size (`FsFiles.SizeIsRightIff`, `FsEpisodes.TwoByTwoIsFour`).
* fwrite takes the eleventh pointer for a data sector, which offset_to_pointer takes for a table: what is written can
  be gone (`FsBeyond.EleventhReadsBackIff`, `FsLosses.LosesByte`) or land in a directory
  (`FsBeyond.NextBlockKeepsSoundIff`, `FsLosses.LosesRoot`).
* fwrite beyond the allocated size follows pointers that an earlier file left behind
  (`FsBeyond.StaleWriteKeepsSoundIff`, `FsBeyond.StaleWriteSparesOthersIff`, `FsEpisodes.OverwritesDirectory`).
* fwrite takes any inode for a file's, a directory's and a dead one's included (`FsBeyond.DirWriteKeepsSoundIff`,
  `FsBeyond.DeadWriteKeepsSoundIff`, `FsEpisodes.EighthFileIsRoot`).
* mkdir and touch stop half way when an inode or a block is missing (`FsAtomic.MakeDirIsAtomicIff`,
  `FsAtomic.MakeDirKeepsSoundIff`, `FsAtomic.TouchKeepsSoundIff`, `FsEpisodes.OutOfInodes`).
* mkfs does not refresh what the kernel caches, and the first boot does not mount (`FsFormat.FormatInUseIff`,
  `FsFormat.FirstBoot`).
* swap_area_alloc has no failure value, so an eviction with no free slot goes to the 8 KB before the swap area
  (`PagingRuns.FaultKeepsMappingIff`, `PagingRoom.RoomIff`, `PagingRoom.OnePageTooMany`, `PagingStrays.StrayIsLost`).
* kill releases only the mutexes in locks[] (`LockRuns.KillOwnsNothingIff`, `Episodes.LockedByTheDead`).
* kill repairs no counter and can remove the one task that a release has just woken (`KillRuns.KillKeepsSyncIff`,
  `Episodes.KilledInDown`, `Episodes.LostWakeUp`).
* check_sleeping wakes at most one task per tick (`SleepRuns.TickWakesAllIff`) and sets the status of the running task,
  not of the sleeper (`SleepRuns.EventFitsIff`); both show in `Episodes.TwoExpired`.
* A task spawned with a priority below 1 never runs (`Selection.StarvesIff`, `Starvation.LowNeverRuns`,
  `Episodes.ZeroNeverRuns`).
* A task that blocks or ends while only such tasks are ready goes on running, off the ready queue
  (`Breakdown.EventStaysIff`, `Breakdown.FindsNextIff`, `Breakdown.RunStaysIff`, `Episodes.BlockedRunsOn`).
* Every wake-up puts a task ahead of one of priority 1 that is ready; without a bound on wake-ups there is none on its
  wait (`Overtaking.DispatchedByThen`, `Overtaking.StarvedByWakeUps`).
* atoi answers -1 for every negative number (`Printk.AtoiIs`, `Printk.AtoiInvertsIff`,
  `Printk.AtoiOfMinusTwo`).

Times, waiting times, priorities and sizes are unbounded integers; the 32-bit width is kept for the bitmap words, for
the arithmetic in fread, fwrite and swap_area_free, and in the formatter.

## Model

| member | source | states |
|---|---|---|
| Slist.Init | libs/slist.c:3-13 | slist_init turns the first `length` cells into one free chain and touches no other cell |
| Slist.AllocCell | libs/slist.c:27-37 | slist_alloc on the array, equated with the value function that the lemmas below are about |
| Slist.FreeCell | libs/slist.c:39-47 | slist_free on the array, equated likewise, refusals included |
| Slist.ThreadsUnique | libs/slist.c:3-13 | the chain is determined by the array: any acyclic chain from cell 0 back to 0 through every free cell is the one the cursors spell |
| Slist.InitThreads | libs/slist.c:3-13 | after initialisation the chain is 1, 2, ..., length - 1 and nothing is live |
| Slist.AllocPops | libs/slist.c:27-37 | allocation returns the head of the chain, a cell that was not live, and fails exactly when every cell is live |
| Slist.FreePushes | libs/slist.c:39-47 | release succeeds exactly on live cells, a second release is refused |
| Slist.Conservation | libs/slist.c:3-47 | free plus live cells make length - 1, and every index is one or the other |
| Slist.FreeThenAlloc | libs/slist.c:27-47 | the cell just released is the next handed out, and taking it back restores chain and live set |
| Slist.RefinesStack | libs/slist.c:27-47 | every run of calls returns what a stack of numbers returns, and ends with that stack as its chain |
| Slist.NoDoubleHandout | libs/slist.c:27-47 | over every run, an index handed out twice was successfully released in between |
| Kernel.Machinery.QueuePush | kernel/sched/queue.c:13-30 | the item is linked at the tail; every other record keeps its links and its task |
| Kernel.Machinery.QueuePushIncreasingly | kernel/sched/queue.c:32-73 | the item is linked before the first entry whose priority is not greater |
| Kernel.InsertionKeepsOrderIff | kernel/sched/queue.c:32-73 | after the insertion the queue is ordered by priority exactly when it was before |
| Kernel.Machinery.QueueDequeue | kernel/sched/queue.c:75-91 | the first entry is unlinked and returned, the rest stays threaded in order |
| Kernel.Machinery.QueueRemove | kernel/sched/queue.c:94-124 | the entry is unlinked from whatever position it has, its old successor is returned |
| Kernel.Machinery.constructor | init/main.c:19-54 | the initial tables hold the boot state of the abstract kernel, from which the runs of SemaphoreIsSafe, DownReturnsIff and RoundIsComplete start with the given counts |
| Kernel.Machinery.RunScheduler | kernel/sched/sched.c:50-94 | scheduler on the linked records computes the scheduler of the abstract state, queue links and all |
| Kernel.Machinery.DoWait | kernel/sched/sched.c:96-104 | do_wait likewise |
| Kernel.Machinery.DoUnblockOne | kernel/sched/sched.c:106-137 | do_unblock_one likewise, given that some waiter is eligible |
| Kernel.Machinery.DoUnblockAll | kernel/sched/sched.c:139-151 | do_unblock_all likewise, for a queue of any length |
| Kernel.Machinery.DoSleep | kernel/sched/sched.c:27-32 | do_sleep likewise |
| Kernel.Machinery.CheckSleeping | kernel/sched/sched.c:34-48 | check_sleeping likewise: the walk ends with the first sleeper it wakes |
| Kernel.Machinery.IrqTimer | kernel/exception/irq.c:75-82 | the tick: clock, check_sleeping, scheduler |
| Kernel.Machinery.InitPcb | kernel/sched/sched.c:173-203 | init_pcb likewise, for every priority, the case of no free pid included |
| Kernel.Machinery.Kill | kernel/sched/sched.c:205-228 | kill likewise, from any consistent state |
| Kernel.Machinery.WaitFor | kernel/sched/sched.c:235-244 | wait likewise |
| Kernel.Machinery.MutexLockAcquire | kernel/lock/lock.c:61-81 | acquire up to where it blocks or returns |
| Kernel.Machinery.MutexLockLoop | kernel/lock/lock.c:76-80 | one round of the retry loop after a wake-up |
| Kernel.Machinery.MutexLockRelease | kernel/lock/lock.c:83-91 | release, by owners and by others |
| Kernel.Machinery.ConditionWait | kernel/lock/cond.c:10-16 | condition_wait up to where it blocks |
| Kernel.Machinery.ConditionSignal | kernel/lock/cond.c:18-25 | condition_signal |
| Kernel.Machinery.ConditionBroadcast | kernel/lock/cond.c:27-33 | condition_broadcast |
| Kernel.Machinery.SemaphoreUp | kernel/lock/sem.c:12-17 | semaphore_up |
| Kernel.Machinery.SemaphoreDown | kernel/lock/sem.c:19-23 | semaphore_down |
| Kernel.Machinery.BarrierArrive | kernel/lock/barrier.c:13-25 | barrier_wait up to where it blocks or lets everybody go |
| Kernel.Machinery.Serve | kernel/sched/sched.c:27-244 | every event, spawns of any priority included, does to the linked records and arrays what it does to the abstract state and keeps the threading of the queues; it keeps the whole invariant unless it is one that Breakdown.EventStaysIff excludes |
| Selection.PickIsLastMax | kernel/sched/sched.c:50-81 | the selection loops end with the lexicographic maximum of (priority, waiting time), the latest on ties, and with nobody exactly when nobody is eligible |
| Selection.LastMaxIsPick | kernel/sched/sched.c:106-128 | the converse: that maximum determines the choice |
| Selection.TurnSlack | kernel/sched/sched.c:50-84 | each call of the scheduler lowers the sum of (scheduling priority - 1) by one until it is 0 |
| Selection.SelectedSoon | kernel/sched/sched.c:50-84 | with unchanged membership a task of priority at least 1 is selected within slack + n calls |
| Selection.StarvesIff | kernel/sched/sched.c:50-84 | with unchanged membership a task ever runs exactly when its scheduling priority is at least 1 |
| Starvation.LowNeverRuns | kernel/sched/sched.c:50-84 | over runs of the whole kernel with spawns of any priority, up to the first event that leaves a blocked task running: a task spawned with a priority below 1 is ready and never runs |
| Episodes.ZeroNeverRuns | kernel/sched/sched.c:50-84 | the concrete run: a task of priority 0 beside one of priority 1 has not run after any number of ticks |
| Selection.NobodyTwiceBefore | kernel/sched/sched.c:50-84 | once all priorities are 1, nobody runs twice before a given task has run |
| Selection.BoundedBypass | kernel/sched/sched.c:106-137 | among waiters of equal priority one on a queue of n is released within n calls, however many arrive meanwhile |
| Fairness.NoStarvation | kernel/sched/sched.c:50-84 | the starvation bound on the kernel state: a ready task of a priority of at least 1, whatever else is ready, is dispatched within slack + n calls of the scheduler |
| Overtaking.EventLowers | kernel/sched/sched.c:50-104 | while a ready task waits, every call of the scheduler lowers what the others are ahead by one, and an event adds no more than the tasks it brings to the ready queue |
| Overtaking.OnlyThoseSwitch | kernel/sched/sched.c:27-244 | only a tick, and an event that takes the running task off the ready queue, can let another task run |
| Overtaking.DeparturesLeave | kernel/sched/sched.c:27-244 | exactly the task that blocks, ends or is killed leaves the ready queue: what the count of arrivals rests on |
| Overtaking.PassedOverAtMost | kernel/sched/sched.c:50-151 | over every run, tasks coming and going: the scheduler is called before a ready task runs no more often than the others were ahead, plus one for each arrival, plus what spawned tasks have above priority 1 |
| Overtaking.DispatchedByThen | kernel/sched/sched.c:50-151 | no starvation in such a run: after more calls than that the task has been dispatched |
| Overtaking.StarvedByWakeUps | kernel/sched/sched.c:106-137 | the concrete run: two tasks of priority 1 keep waking each other through semaphores, and a third, ready all along, does not run however long it goes on |
| Fairness.EventAffects | kernel/sched/sched.c:27-244 | what every event, kill included, does to every waiting queue: nothing, one more at the tail with waiting time 0, one release, all of them released, one member lost, or one lost and another released |
| QueueRuns.SchedulerEffect | kernel/sched/sched.c:50-94 | the scheduler moves nobody between queues, dispatches the choice, panics exactly when nobody is ready, and leaves the running task running when nobody who is ready can be chosen |
| QueueRuns.UnblockOneEffect | kernel/sched/sched.c:106-137 | exactly the chosen waiter moves to the ready queue, everybody else on the queue has waited once more |
| QueueRuns.DoWaitEffect | kernel/sched/sched.c:96-104 | the running task goes to the tail of the queue with waiting time 0; somebody ready is dispatched if somebody can be chosen, and otherwise the blocked task goes on |
| QueueRuns.SpawnBirth | kernel/sched/sched.c:173-203 | init_pcb succeeds exactly when a pid is free; every field of the task it makes, and where it goes |
| QueueRuns.KillBuries | kernel/sched/sched.c:205-228 | kill succeeds exactly on live pids other than 1; then the pid is on no queue and all that waited for it are ready; a task that kills itself goes on running exactly when nobody who is ready then can be chosen |
| KillRuns.KillWakesInOrder | kernel/sched/sched.c:205-228 | the ready queue after a kill: the other ready tasks in their order, then the waiters of the dead task's locks in the order of the locks, then those that waited for it to end in theirs |
| QueueRuns.KillFreesLocks | kernel/sched/sched.c:205-228 | kill leaves none of locks[] with the dead pid exactly when its lock count covered them, and touches no other owner |
| QueueRuns.EventKeepsConsistent | kernel/sched/sched.c:27-244 | every event, spawns of any priority and kill included, keeps each live task on exactly one queue and the running task on the ready queue, provided that it finds a next task for one it takes off |
| QueueRuns.EveryTaskOnItsQueue | kernel/sched/sched.c:27-244 | in every state so reached from boot a task is on a queue exactly when it is live and its record names that queue, once, and the running task is on the ready queue; Breakdown.RunStaysIff shows that these are all runs in which that holds throughout |
| Breakdown.BlockingFindsNextIff | kernel/sched/sched.c:50-104 | a task that blocks is replaced by a task of the ready queue, or the kernel panics, exactly when nobody else is ready or somebody else can be chosen; otherwise it runs on |
| Breakdown.EndingFindsNextIff | kernel/sched/sched.c:205-228 | the same for a task that kills itself, after its locks and its waiters have been released |
| Breakdown.FindsNextIff | kernel/sched/sched.c:50-228 | what decides it, seen before the event: nobody else is ready, or somebody ready can be chosen, or condition_wait or the dying task wakes somebody, by the mutexes, lock counts and queues as they are |
| Breakdown.EventStaysIff | kernel/sched/sched.c:27-244 | every event the kernel admits keeps each task on one queue, and keeps the running task ready and the whole invariant exactly when it meets that condition |
| Breakdown.RunStaysIff | kernel/sched/sched.c:27-244 | over every run of events the kernel admits, with spawns of any priority: the invariant, and the running task on the ready queue, hold all along exactly when every event that takes it off finds a next task |
| Breakdown.HighRunsStay | kernel/sched/sched.c:173-203 | runs that spawn only priorities of at least 1 always do |
| Episodes.BlockedRunsOn | kernel/sched/sched.c:50-104 | the concrete run: a task blocks in semaphore_down while only one of priority 0 is ready; it runs on, marked RUNNING on the queue of the semaphore |
| KillRuns.KillKeepsSyncIff | kernel/sched/sched.c:205-228 | a kill keeps the mutex, condition, semaphore and barrier invariants exactly when the task is on no counted queue, owns no mutex outside locks[], and is nowhere the only one about to try a free mutex for which others wait |
| KillRuns.EventKeepsSyncIff | kernel/lock/lock.c:61-91 | every event that finds a next task keeps those invariants, a kill if and only if it meets that condition |
| KillRuns.RunKeepsSyncIff | kernel/lock/lock.c:61-91 | along a run in which every event finds a next task the invariants hold throughout exactly when every kill in it meets the condition where it happens |
| Episodes.KilledInDown | kernel/sched/sched.c:205-228 | the concrete run: a task blocked in semaphore_down is killed and the semaphore still counts it |
| Episodes.LostWakeUp | kernel/sched/sched.c:205-228 | the concrete run: the task that a release has just woken is killed, and the free mutex keeps its waiter |
| Guarantees.MutexesInEveryRun | kernel/lock/lock.c:61-91 | in every such run whose kills are harmless: locked exactly while owned, lock_num is the number of owned mutexes, and a free mutex with waiters has a ready task inside its retry loop |
| LockRuns.OwnershipIsExclusive | kernel/lock/lock.c:61-91 | over all events an owner changes only by giving up, by being killed if the mutex is in locks[], or by the running task taking a free mutex |
| LockRuns.ReturnsOwning | kernel/lock/cond.c:10-16 | acquire and condition_wait return only to a caller that owns the mutex |
| LockRuns.EventFollows | kernel/lock/lock.c:61-91 | exactly what each event other than spawn and kill does to all mutexes, lock counts and resume points; those two are in OwnershipIsExclusive, ReturnsOwning and KillInEveryRun |
| LockRuns.KillInEveryRun | kernel/sched/sched.c:205-228 | in every such run, kills included, with the mutexes of locks[]: after a kill the pid is on no queue, owns nothing, and its waiters are ready |
| LockRuns.KillOwnsNothingIff | kernel/sched/sched.c:205-228 | with mutexes elsewhere: the dead pid owns nothing exactly when all it owned was in locks[] |
| Episodes.LockedByTheDead | kernel/sched/sched.c:205-228 | the concrete run: the owner of mutex 16 is killed, the mutex stays locked, and the last task left blocks on it for ever |
| Guarantees.CountersInEveryRun | kernel/lock/sem.c:12-23 | in every such run whose kills are harmless: a condition counts its queue, a semaphore has max(0, -value) waiters, a barrier queue is as long as arrived < goal |
| Guarantees.SemaphoreIsSafe | kernel/lock/sem.c:4-23 | over every such run the value is the argument of semaphore_init, 0 for a negative one, plus ups less downs; and if its kills are harmless, completed downs never exceed that argument plus ups |
| Guarantees.DownReturnsIff | kernel/lock/sem.c:4-23 | over every such run a down returns at once exactly when fewer downs came before it than the argument of semaphore_init and the ups together; otherwise its task goes to the tail of the queue |
| Guarantees.LeavesWhenFull | kernel/lock/barrier.c:13-25 | a task leaves a barrier alive only in the event in which the last of `goal` tasks arrives, together with all of them |
| Guarantees.BarrierRounds | kernel/lock/barrier.c:13-25 | over every run, kills of any task included, the arrivals fill whole rounds of `goal` and the one under way |
| Guarantees.RoundIsComplete | kernel/lock/barrier.c:13-25 | nobody leaves a round alive before `goal` tasks have entered it |
| Guarantees.ReleasedInTurn | kernel/lock/sem.c:12-17 | bounded bypass over runs of the whole kernel, kills of others included, on mutex and semaphore queues |
| Guarantees.TickDropsFirstExpired | kernel/sched/sched.c:34-48 | a tick removes exactly the first expired sleeper and keeps the order of the rest |
| SleepRuns.TickWakesAllIff | kernel/sched/sched.c:34-48 | a tick leaves no expired sleeper asleep exactly when at most one is due |
| SleepRuns.TickRouses | kernel/sched/sched.c:34-48 | the roused task is ready; it is RUNNING exactly when no ready task has a greater key, and otherwise keeps the status it had asleep |
| SleepRuns.EventFitsIff | kernel/sched/sched.c:27-244 | every event keeps all ready tasks READY or RUNNING, all sleepers SLEEPING, those on the queue of a mutex, a condition or a semaphore BLOCKED and those at a barrier or waiting for a task WAITING, a tick exactly if it rouses nobody or runs at once whom it rouses |
| SleepRuns.RunFitsIff | kernel/sched/sched.c:27-244 | over every run the statuses fit all along exactly when every tick does so |
| SleepRuns.StaysMarkedSleeping | kernel/sched/sched.c:34-48 | a roused task that is not run at once stands on the ready queue as SLEEPING until it is dispatched or killed |
| Episodes.TwoExpired | kernel/sched/sched.c:34-48 | the concrete run: two sleepers are due, one is roused and marked SLEEPING on the ready queue, the other sleeps on |
| Guarantees.NeverWokenEarly | kernel/sched/sched.c:34-48 | a sleeper leaves the sleep queue alive only in a tick and only when its time has come |
| Guarantees.WokenInTime | kernel/sched/sched.c:34-48 | once expired at position i a sleeper that is not killed is woken within i + 1 ticks, whoever else goes to sleep or is killed |
| PagingUnit.Memory.constructor | init/main.c:84-90 | init_memory: fresh lists, a TLB that hits no user page |
| PagingUnit.Memory.PageDirInit | kernel/mm/memory.c:17-22 | all entries of one directory become invalid, page table numbers stay |
| PagingUnit.Memory.PageTableInit | kernel/mm/memory.c:24-29 | all entries of one table become invalid, addresses and present bits stay |
| PagingUnit.Memory.PmAlloc | kernel/mm/memory.c:31-34 | a frame from its free list, -1 if there is none |
| PagingUnit.Memory.PmFree | kernel/mm/memory.c:36-39 | a frame back to its free list |
| PagingUnit.Memory.PtPoolAlloc | kernel/mm/memory.c:41-44 | a page table from the pool, -1 if there is none |
| PagingUnit.Memory.SwapAreaAlloc | kernel/mm/memory.c:51-54 | the address of a fresh slot, an address before the area if there is none |
| PagingUnit.Memory.SwapAreaFree | kernel/mm/memory.c:56-60 | the slot of an address back to its free list, in unsigned arithmetic |
| PagingUnit.Memory.SetTlbInvalid | arch/mips/kernel/asm.S:299-311 | the entry of the page, if there is one, no longer translates |
| PagingUnit.Memory.SwapOut | kernel/mm/memory.c:67-107 | swap_out on the arrays is the eviction the theorems are about |
| PagingUnit.Memory.SwapIn | kernel/mm/memory.c:109-141 | swap_in likewise |
| PagingUnit.Memory.TlbExceptionHelper | kernel/exception/tlb.c:7-87 | the whole handler on the arrays is the fault the theorems are about, panic included |
| PagingRuns.SwapUnits | kernel/mm/memory.c:51-60 | slot and address are inverse, on disjoint 8 KB units inside the swap area |
| PagingRuns.SetEntryEffect | kernel/exception/tlb.c:41-55 | writing one page table entry changes the entry of no other page of any process |
| PagingRuns.MoveOutEffect | kernel/mm/memory.c:67-107 | an eviction keeps the mapping, frees exactly that frame, and its page finds in the slot what it had in the frame |
| PagingRuns.TakeFrameEffect | kernel/mm/memory.c:109-117 | taking a frame, with an eviction if none is free, is seen by no process; after an eviction it is the victim's frame |
| PagingRuns.SwapInEffect | kernel/mm/memory.c:109-141 | swap-in makes the page present with its old contents and frees its slot |
| PagingRuns.TlbWriteEffect | kernel/exception/tlb.c:62-86 | the entry written translates as the page table and is the only one for its page, after a refill and after an invalid hit |
| PagingRuns.HitReaches | arch/mips/kernel/asm.S:299-311 | a TLB hit is never stale: it reaches the byte of the frame the page is in |
| PagingRuns.FaultIsTransparent | kernel/exception/tlb.c:7-87 | a fault leaves what every process finds in every mapped page as it was, makes the faulting page present, and the retried access hits |
| PagingMoves.FaultMovesOne | kernel/exception/tlb.c:7-87 | everything one fault changes: which frame the page gets, which one page moves out for it, what the frame holds then, and which TLB entries are rewritten; every other page of every process stays where it is |
| PagingMoves.FirstTwoAreNeverEmptied | kernel/mm/memory.c:62-65 | over every run of accesses a page in one of the first two frames is never swapped out |
| PagingMoves.OthersAreEmptied | kernel/mm/memory.c:62-65 | every other frame is the one that is emptied, at some reading of the timer |
| PagingRuns.PanicsIff | kernel/exception/tlb.c:28-33 | the handler panics exactly when a page table is needed and the pool is empty |
| PagingRuns.FaultKeepsMappingIff | kernel/mm/memory.c:51-107 | the mapping survives a fault exactly when the page is present, a frame is free or a swap slot is free |
| PagingRoom.PlacesAreConserved | kernel/mm/memory.c:31-141 | over every run of accesses exactly the pages touched are mapped, and free frames and free slots together lose one place for each of them, whatever is evicted and swapped in |
| PagingRoom.RoomIff | kernel/mm/memory.c:31-141 | from the start there is room for another page exactly as long as fewer than 3072 distinct pages were touched |
| PagingRoom.BootIsEmpty | init/main.c:84-90 | the initial state, whatever memory and card hold, is one from which the count above and the run below start |
| PagingRoom.OnePageTooMany | kernel/mm/memory.c:51-107 | the concrete run: 3072 pages are read and served, the next one finds neither frame nor slot and the mapping is lost |
| PagingStrays.StrayFaultIsUnseen | kernel/mm/memory.c:51-107 | no process sees that first fault without room: the page evicted to the address before the swap area is found there |
| PagingStrays.StrayIsLost | kernel/mm/memory.c:51-107 | the next eviction overwrites it: that page then holds what the page evicted second held |
| PagingRuns.AccessIsTransparent | kernel/exception/tlb.c:7-87 | a load returns the byte the page holds; a store adds exactly its byte to its page, whatever faults it causes |
| PagingRuns.SwappingIsInvisible | kernel/mm/memory.c:67-141 | over every run of accesses by all processes a page holds what its own stores put there: virtual memory refines plain memory |
| PagingRuns.LoadsWhatWasStored | kernel/mm/memory.c:67-141 | a load after any such run returns the byte plain memory would |
| PagingRuns.MappingInEveryRun | kernel/mm/memory.c:67-141 | over every such run pages, frames, slots and page tables correspond one to one, live frames are registered for their page, and the TLB agrees with the page tables |
| PagingRuns.BootIsConsistent | init/main.c:84-90 | the initial state, whatever memory and card hold, satisfies the invariant and maps nothing |
| Bitmap.MarkEffect | kernel/fs/fs.c:123-123 | setting a bit changes that bit of the map and no other |
| Bitmap.UnmarkEffect | kernel/fs/fs.c:136-136 | clearing a bit changes that bit of the map and no other |
| Bitmap.FirstClearIsLeast | kernel/fs/fs.c:112-121 | the double loop finds the least clear bit, none exactly when all are set |
| Bitmap.Scan | kernel/fs/fs.c:112-121 | the double loop on the array computes that search |
| FsUnit.FileSystem.IarrayAlloc | kernel/fs/fs.c:108-130 | iarray_alloc on the kernel variables and the card is the function the lemmas are about |
| FsUnit.FileSystem.IarrayFree | kernel/fs/fs.c:132-140 | iarray_free likewise |
| FsUnit.FileSystem.DarrayAlloc | kernel/fs/fs.c:142-171 | darray_alloc likewise, the sliding window included |
| FsUnit.FileSystem.DarrayFree | kernel/fs/fs.c:173-185 | darray_free likewise |
| FsUnit.FileSystem.IsFileExist | kernel/fs/fs.c:187-197 | is_file_exist likewise |
| FsUnit.FileSystem.ParsePath | kernel/fs/fs.c:199-255 | parse_path likewise |
| FsUnit.FileSystem.Mkdir | kernel/fs/fs.c:257-315 | mkdir likewise, with its half-way exits |
| FsUnit.FileSystem.Rmdir | kernel/fs/fs.c:317-353 | rmdir likewise |
| FsUnit.FileSystem.Cd | kernel/fs/fs.c:377-426 | cd likewise |
| FsUnit.FileSystem.TouchName | kernel/fs/fs.c:433-477 | touch likewise |
| FsUnit.FileSystem.Fopen | kernel/fs/fs.c:489-525 | fopen likewise |
| FsUnit.FileSystem.Fclose | kernel/fs/fs.c:527-536 | fclose likewise |
| FsUnit.FileSystem.LocateSector | kernel/fs/fs.c:538-586 | offset_to_pointer likewise |
| FsUnit.FileSystem.Fread | kernel/fs/fs.c:588-631 | fread likewise, its loop included |
| FsUnit.FileSystem.Fwrite | kernel/fs/fs.c:633-706 | fwrite likewise, for every offset and length, its loop included |
| FsUnit.FileSystem.Fseek | kernel/fs/fs.c:708-712 | fseek likewise |
| FsUnit.FileSystem.Mkfs | kernel/fs/fs.c:21-76 | mkfs likewise, which leaves the caches as they are |
| FsUnit.FileSystem.MountCard | kernel/fs/fs.c:78-88 | mount likewise |
| FsRuns.AllocInodeEffect | kernel/fs/fs.c:108-130 | iarray_alloc takes the least clear inode, on card and in memory, and fails exactly when none is clear |
| FsRuns.AllocBlockEffect | kernel/fs/fs.c:142-171 | darray_alloc takes the least clear block at or above the start of the window, keeps the window coherent, and fails exactly when there is none there |
| FsRuns.FreeBlockEffect | kernel/fs/fs.c:173-185 | darray_free clears exactly that bit and leaves the window at its block |
| FsCalls.MakeDirGrows | kernel/fs/fs.c:257-315 | a successful mkdir adds the least clear inode and the least clear block at or above the window, entered in the first free slot, with every field of the new inode, and changes nothing else |
| FsCalls.TouchGrows | kernel/fs/fs.c:433-477 | a successful touch adds an empty file with the least clear inode and changes nothing else |
| FsCalls.RemoveDirShrinks | kernel/fs/fs.c:317-353 | a successful rmdir removes an empty directory, its inode, its block and its entry, and nothing else |
| FsAnswers.RefusalsAre | kernel/fs/fs.c:257-273 | mkdir and touch refuse a name of more than 26 characters, a name in use and a full directory, in that order, and change nothing then; in any state |
| FsAnswers.MakeDirAnswers | kernel/fs/fs.c:257-315 | each answer of mkdir exactly when, by the length of the name, the entries, the inodes and the blocks as they are before |
| FsAnswers.TouchAnswers | kernel/fs/fs.c:433-477 | the same for touch |
| FsAnswers.RemoveDirAnswers | kernel/fs/fs.c:317-353 | rmdir removes exactly the directories without entries, and otherwise says why not and changes nothing; in any state |
| FsTree.GrownKeepsTree | kernel/fs/fs.c:257-315 | adding an entry keeps names unique and within 26 characters, entries unique, and the parent pointers and names of directories right |
| FsTree.ShrunkKeepsOwnership | kernel/fs/fs.c:317-353 | removing a directory keeps every other block owned exactly once |
| FsHistory.CallKeepsIff | kernel/fs/fs.c:21-712 | every call keeps ownership, tree, counters and caches exactly when a condition holds that is checked before it: fresh caches for mkfs, an inode and a block for mkdir, an inode for touch, and for fwrite, through whatever descriptor, offset and length, that it fills no directory's sector, hits nothing but data sectors, and takes no block for what is no file |
| FsHistory.EveryBlockHasOneOwner | kernel/fs/fs.c:21-712 | in every run from mkfs and mount of calls that meet their conditions, mkfs and writes of every kind included, a block is marked used exactly when the root, a live directory or a slot of a file owns it, exactly one of them; counters are populations; caches agree; no name in a directory is longer than 26 characters or given twice; going up leads to the root |
| FsFormat.FormatMakes | kernel/fs/fs.c:21-76 | everything mkfs leaves on the card: the counters, the bitmaps, the root with its inode, what was in the buffer for the next seven inodes, and the rest as it was |
| FsAnswers.MountSeesAll | kernel/fs/fs.c:78-88 | after mount every clear block can be allocated |
| FsFormat.FormatIsSound | kernel/fs/fs.c:21-76 | mkfs makes a file system that satisfies the invariant, whatever was on the card, unless data has been stored across its metadata before |
| FsFormat.FormatInUseIff | kernel/fs/fs.c:21-76 | mkfs with the caches kept leaves a sound file system exactly when the caches already are what mount would read and no data has been stored across the metadata |
| FsFormat.FirstBoot | init/main.c:128-131 | the first boot, which formats without mounting: the first mkdir takes inode 0 and block 0 and overwrites the root directory |
| FsAtomic.MakeThenRemove | kernel/fs/fs.c:257-353 | mkdir of a new name followed by rmdir restores both bitmaps, both counters and the valid entries |
| FsAtomic.MakeDirIsAtomicIff | kernel/fs/fs.c:273-304 | mkdir is all or nothing exactly when an inode is clear and a block is clear at or above the window; otherwise what it leaves half made |
| FsAtomic.TouchIsAtomicIff | kernel/fs/fs.c:449-462 | touch is all or nothing exactly when an inode is clear |
| FsAtomic.MakeDirKeepsSoundIff | kernel/fs/fs.c:273-304 | mkdir of an admitted name keeps the invariant exactly when an inode is clear and either a block is, or the old record of that inode is that of an empty file |
| FsAtomic.TouchKeepsSoundIff | kernel/fs/fs.c:449-462 | touch of an admitted name keeps the invariant exactly when an inode is clear |
| FsEpisodes.OutOfInodes | kernel/fs/fs.c:273-304 | the concrete run: with every inode taken mkdir and touch leave an entry in memory that is not on the card |
| FsHistory.ClimbsTo | kernel/fs/fs.c:377-388 | from every directory, cd .. as often as it is deep ends in the root |
| FsDescents.DotStays | kernel/fs/fs.c:390-391 | cd . changes nothing, in any state |
| FsDescents.CdSteps | kernel/fs/fs.c:377-426 | cd with one name goes exactly where the tree of entries says: .. to the directory that has the entry for this one, or from the root to the root, any other name to the directory entered under it; otherwise it fails and changes nothing |
| FsDescents.CdDescends | kernel/fs/fs.c:199-255 | cd to an absolute path goes exactly where its components lead from the root, entry by entry, and fails without a change if they lead to no directory |
| FsDescents.CdRoot | kernel/fs/fs.c:199-206 | cd to the backslash alone goes to the root |
| FsDescents.EveryPathSplits | kernel/fs/fs.c:199-255 | every absolute path is made of such components |
| FsPaths.WalkDescends | kernel/fs/fs.c:199-255 | walking a path finds the inode that one cd for each component would enter |
| FsPaths.AbsolutePathIsDescent | kernel/fs/fs.c:377-426 | cd to an absolute path ends where cd to the root and one cd for each component ends, and changes nothing if one of them fails |
| FsPaths.DownAndUp | kernel/fs/fs.c:377-426 | cd to a directory and cd .. restore the state |
| FsPaths.ChangeDirKeepsSound | kernel/fs/fs.c:377-426 | cd, by any kind of path, ends in a live directory that is cached as it is on the card |
| FsWrites.LoopReservesThenCopies | kernel/fs/fs.c:654-702 | within the thirteen pointers the loop of fwrite is a reservation of every missing block followed by a copy: allocation never follows a copy |
| FsWrites.ReserveEffect | kernel/fs/fs.c:684-701 | the reservation succeeds exactly when enough blocks are clear at or above the window |
| FsWrites.CopyEffect | kernel/fs/fs.c:659-682 | the copy puts the bytes laid down at the offset and writes no block that is not the file's |
| FsWrites.WriteIsAllOrNothing | kernel/fs/fs.c:633-706 | within the direct blocks fwrite lays down everything or nothing, everything exactly when enough blocks are clear; other bytes, inodes and blocks stay |
| FsWrites.WriteTakesBlocks | kernel/fs/fs.c:684-701 | the file gets the blocks it misses, and if there are too few all there are at or above the window, though nothing is written |
| FsWrites.LaidAt | kernel/fs/fs.c:659-682 | which byte of the buffer each byte of the range gets: the buffer starts again in every sector |
| FsWrites.LaysBufferIff | kernel/fs/fs.c:659-682 | what fwrite lays down is the buffer, for every buffer of n bytes, exactly when it fits the sector of the offset |
| FsEpisodes.SecondSectorStartsOver | kernel/fs/fs.c:659-682 | the concrete run: of 513 bytes written to a new file the last is the first of the buffer again |
| FsStores.WriteKeepsSoundIff | kernel/fs/fs.c:633-706 | fwrite through any descriptor, at any offset and of any length keeps the invariant exactly when it is harmless: to a file, its blocks run out first, or there are pointers for all of them and no sector that it fills is a live directory's or lies across the superblock, the bitmaps, the inodes or two data sectors; to anything else, it copies at once with the same restraint, or needs a block and there is none |
| FsStores.FileWriteKeepsSoundIff | kernel/fs/fs.c:633-706 | the half about files, past the tenth block and beyond the allocated size included |
| FsStores.OtherWriteKeepsSoundIff | kernel/fs/fs.c:633-706 | the half about directories and inodes that are not live |
| FsBeyond.WithinKeepsSoundIff | kernel/fs/fs.c:633-706 | from within the allocated size of a file, the condition by the bitmap and the pointers as they are before the call |
| FsBeyond.NextBlockCopies | kernel/fs/fs.c:684-701 | the append after ten, eleven or twelve full blocks: the new data sector becomes that pointer, and the copy goes to the sector that an entry of pointer 10, read as a table, names |
| FsBeyond.NextBlockKeepsSoundIff | kernel/fs/fs.c:684-701 | it keeps the invariant exactly when there is no block for it or that entry is neither the address of a live directory's sector nor one that lies across anything but a data sector |
| FsBeyond.EleventhReadsBackIff | kernel/fs/fs.c:633-706 | the append after ten full blocks hits a data sector and is read back exactly when the first word of what was in the new block leads to one and is not the block's own address, or the buffer, which then becomes the table, leads to a sector with the same bytes |
| FsLosses.LosesByte | kernel/fs/fs.c:684-701 | the concrete run from mkfs: byte 5121 of a file is gone after the next append |
| FsLosses.LosesRoot | kernel/fs/fs.c:684-701 | the concrete run from mkfs: a byte appended after ten full blocks overwrites the root directory |
| FsBeyond.StaleWriteKeepsSoundIff | kernel/fs/fs.c:663-682 | from beyond the allocated size fwrite allocates nothing, turns what the stale pointers lead to into bytes, and keeps the invariant exactly when none of them leads to a live directory or across anything but a data sector |
| FsBeyond.StaleWriteSparesOthersIff | kernel/fs/fs.c:663-682 | whatever the bytes, every other inode keeps its record and its blocks exactly when no pointer that is followed is that of a block of another live inode or leads across anything but a data sector |
| FsEpisodes.OverwritesDirectory | kernel/fs/fs.c:663-682 | the concrete run: one byte written at offset 1 of an empty file overwrites the sector of another directory |
| FsBeyond.DirWriteKeepsSoundIff | kernel/fs/fs.c:633-706 | a non-empty fwrite to a directory, from within its sector, keeps the invariant exactly when it needs a block and there is none |
| FsBeyond.DeadWriteKeepsSoundIff | kernel/fs/fs.c:633-706 | a non-empty fwrite within the direct blocks through a descriptor of a dead inode, which fopen can hand out, keeps it exactly when it copies at once and spares the directories, or needs a block and there is none |
| FsReads.MapIsFlattening | kernel/fs/fs.c:538-586 | offset_to_pointer is the element of the in-order flattening of the four-level map for every block below 2113674, and panics beyond |
| FsReads.TableBytes | kernel/fs/fs.c:538-586 | an entry of a table is made of four bytes of its sector, the least first |
| FsReads.DistinctBlocks | kernel/fs/fs.c:538-586 | over a pointer tree without sharing distinct blocks of a file are in distinct sectors |
| FsReads.ReadLoopIsSlice | kernel/fs/fs.c:614-629 | the read loop yields the bytes of the file in order through all levels, and panics exactly beyond the last block |
| FsReads.ReadDelivers | kernel/fs/fs.c:588-631 | what fread delivers through any descriptor open for reading, how far the offset moves, and when it panics |
| FsReads.ReadCountIff | kernel/fs/fs.c:609-613 | fread delivers min(n, size - offset) exactly when the offset is within the size or n is 0 |
| FsReads.ReadsPastTheEnd | kernel/fs/fs.c:609-613 | the concrete case: five bytes of an empty file at offset 1 |
| FsFiles.AppendsAccumulate | kernel/fs/fs.c:633-706 | after any run of appends through a descriptor open for writing only or for both the file is what those that went through have laid down, in order, and nothing of another inode has changed |
| FsFiles.AppendsConcatenate | kernel/fs/fs.c:633-706 | if every append goes through and fits the sector in which it starts, that is the concatenation of the buffers |
| FsShared.InterleavedAppends | kernel/fs/fs.c:21-712 | over every run of calls of all kinds in which only this descriptor writes to the inode and nobody else moves it, the file is what its appends have laid down, in order |
| FsFiles.ReadsBack | kernel/fs/fs.c:588-631 | fseek and fread, through a descriptor open for reading only or for both, return exactly the slice and move the offset by its length |
| FsAnswers.ModesRefuse | kernel/fs/fs.c:588-645 | fwrite in modes other than 0 and 2 and fread in modes other than 0 and 1 answer 0 and change nothing |
| FsAnswers.OpenedForReading | kernel/fs/fs.c:489-645 | a file opened in mode 1 is read as it is and not written |
| FsAnswers.OpenedForWriting | kernel/fs/fs.c:489-706 | a file opened in mode 2 is not read, and written all or nothing |
| FsAnswers.WrittenThenRead | kernel/fs/fs.c:433-712 | what is appended to a new file through a descriptor of mode 2 is what another of mode 1 reads |
| FsAnswers.OpenAnswers | kernel/fs/fs.c:489-525 | fopen succeeds exactly on a name in use for a file while a descriptor is free; which descriptor it gives and what it holds |
| FsAnswers.CloseAnswers | kernel/fs/fs.c:527-536 | fclose succeeds exactly on a descriptor in use, which is the next to be given out |
| FsFiles.FileIsItsBytes | kernel/fs/fs.c:433-712 | touch, fopen, any appends within the direct blocks, fseek, fread: the slice of the bytes laid down |
| FsFiles.OpenNamesInodeIff | kernel/fs/fs.c:489-525 | the descriptor names the inode that was found exactly when it is one of the first eight |
| FsFiles.CloseUndoesOpen | kernel/fs/fs.c:489-536 | fclose of the descriptor just opened succeeds once and restores the free list of descriptors |
| FsFiles.EighthOpensRoot | kernel/fs/fs.c:500-502 | inode 8 is opened as the root directory |
| FsEpisodes.EighthFileIsRoot | kernel/fs/fs.c:489-706 | the concrete run: the eighth file is opened, and one byte written to it turns the sector of the root directory into bytes |
| FsFiles.SizeIsRightIff | kernel/fs/fs.c:661-681 | after a write the inode's size is right exactly when the write started at the end of the file, or was empty within it |
| FsEpisodes.TwoByTwoIsFour | kernel/fs/fs.c:661-681 | the concrete run: two bytes written over the two of a file make it four bytes long |
| Printk.ItoaIsNumeral | libs/printk.c:57-102 | the text of a number is a minus sign if it is negative, then the numeral of its magnitude in digits of the radix and of one case, at least zero_pad of them, with no zero in front beyond that; unsigned values from 2^31 on and the most negative int included |
| Printk.NumeralIsUnique | libs/printk.c:57-102 | there is only one such text |
| Printk.MiniItoa | libs/printk.c:57-102 | the loops on the buffer produce that text, terminated, and touch nothing beyond it |
| Printk.Atoi | kernel/software/shell.c:12-20 | the loop of atoi, with wrapping arithmetic |
| Printk.AtoiIs | kernel/software/shell.c:12-20 | atoi of digits is the number they denote modulo 2^32, and of every string with any other character -1 |
| Printk.AtoiInvertsIff | kernel/software/shell.c:12-20 | atoi inverts decimal printing exactly for the numbers from -1 on |
| Printk.AtoiOfMinusTwo | kernel/software/shell.c:12-20 | the concrete case: -2 is read back as -1 |
| Printk.MiniBuff.Putc | libs/printk.c:110-118 | one more character if it fits before the terminator |
| Printk.MiniBuff.Puts | libs/printk.c:120-133 | as much of the string as fits before the terminator |
| Printk.MiniVsnprintf | libs/printk.c:135-204 | the output is the longest prefix of the unbounded formatting that fits in buffer_len - 1 characters, terminated; nothing beyond it is touched |
| Formats.NumberIsPrinted | libs/printk.c:157-185 | %d is the decimal numeral of the signed value, %u that of its bits, %x and %X the hexadecimal ones in lower and upper case, of at least the width that a zero and a digit ask for; what follows gets the other arguments |
| Formats.CharIsPrinted | libs/printk.c:187-189 | %c is the character of the low byte |
| Formats.StringIsPrinted | libs/printk.c:191-194 | %s is the string |
| Formats.OtherIsPrinted | libs/printk.c:196-198 | after a percent sign any other character stands for itself and takes no argument |
| Formats.TextIsCopied | libs/printk.c:145-150 | ordinary text is copied |
| Formats.EndsPrintNothing | libs/printk.c:157-173 | the ends: an unfinished conversion stands for nothing and ends the text |
| Formats.DigitIsPrinted | libs/printk.c:57-102 | the sixteen digits in both cases |
| Formats.BasesDiffer | libs/printk.c:175-185 | the concrete case: 255 is 255 by %d and ff by %x |
| Formats.SignAddsToWidth | libs/printk.c:78-83 | the concrete case: -42 of width 5 is -00042 |

## Left out

- Kernel.Machinery.DoUnblockOne: requires that some waiter has a priority of at least 1, because the source reads an uninitialised pointer otherwise; Kernel.Machinery.Serve shows that this holds in every event up to the first that leaves a blocked task running, whatever priorities are spawned.
- Kernel.Machinery.Serve: starts from a state with the invariant. After an event that leaves a task running off the ready queue (exactly those that Breakdown.EventStaysIff excludes) the source, when that task blocks again, unlinks it from a queue it is not on and damages both lists; that is not modelled.
- Starvation.LowNeverRuns: for the same reason it stops after the first such event.
- Guarantees.MutexesInEveryRun: for runs whose kills are harmless; KillRuns.RunKeepsSyncIff shows that this is exactly when it holds throughout.
- Guarantees.CountersInEveryRun: for the same runs.
- PagingRuns.SwappingIsInvisible: a fault with its transfers is one step; in the source swap_out frees the frame before a transfer that blocks, and the single io_task slot has its guard commented out. kill, which releases no memory, is not part of the memory model.
- FsUnit.FileSystem.Fwrite: a store past the last of the 13 pointers ends the call as a crash, where the source overwrites the neighbouring inode. A store across the superblock, the bitmaps, the inodes or two data sectors breaks the invariant whatever the bytes, and what is in those sectors afterwards is not modelled.
- FsUnit.FileSystem.Rmdir: requires that the directory it would remove has an inode number and a block that exist; FsCalls.SoundRemovesLive shows that this holds in every sound state.
- FsHistory.EveryBlockHasOneOwner: for runs in which every call meets the condition of CallKeepsIff.
- FsFiles.FileIsItsBytes: for files whose inode is one of the first eight, because of fopen.
- FsAnswers.OpenedForReading: likewise.
- FsAnswers.OpenedForWriting: likewise.
- FsAnswers.WrittenThenRead: likewise.
- Printk.MiniItoa: for radix at least 2; radix 0 traps and radix 1 does not terminate, and only 10 and 16 are used.
- Printk.MiniVsnprintf: a missing or mistyped argument, undefined in C, reads as 0 or as the empty string.
- FsBeyond.EleventhReadsBackIff: bytes read through an address in the superblock, the bitmaps or the inodes are 0.
- The words of a directory's sector after its parent's address read as 0 when a table is looked for there, and its bytes read as 0; bytes read as a directory give a blank one.
- The slot search of mkdir and touch tests the bound before the valid byte; the source reads one byte past the items of a full directory.
- The window of the data bitmap read after the last one, which lies in the inode array, is blank; it is never used.
- Mutexes, semaphores, conditions and barriers are initialised once, before the first task runs.
- Spin locks, which busy-wait and are not atomic.
- The mailbox library, which nothing uses and whose full test does not wrap.
- Register access of the network card, the interrupt controller and the screen, the shell's command loop, ELF loading, system call dispatch.
- The context switch and the exception vectors: do_scheduler is save, run the scheduler, resume.
- The sector and byte copies of the firmware interface are taken as correct.
