# LaiMiniOs, verified

A Dafny model of the hard parts of LaiMiniOs, a small 32-bit x86 kernel, with proofs of the invariants that its
code relies on. Three subsystems are modelled, over a shared base of bitmaps and lists.

**Memory.** First-fit bitmaps (`Bitmap.dfy`), two-level page tables with a directory that maps itself
(`Paging.dfy`), kernel pages (`KernelPages.dfy`), the size-class heap (`HeapBlocks.dfy`, `Heap.dfy`, `HeapPages.dfy`,
`KernelHeap.dfy`) and the frames of user processes through fork and exit (`UserFrames.dfy`). The paging format is that
of section 4.3 of the Intel 64 and IA-32 Architectures Software Developer's Manual, Volume 3A.

**Threads and processes.** The scheduler and its time slices (`Threads.dfy`, `RoundRobin.dfy`), recursive locks, pids,
fork, exit and wait as one step machine (`Kernel.dfy`, `KernelSafety.dfy`, `ProcessSafety.dfy`, `KernelRuns.dfy`,
`History.dfy`, `InitWakeup.dfy`, `InitRun.dfy`), with who runs after a wake-up (`WhoRuns.dfy`), how often a lock is held
(`LockDepth.dfy`) and who is whose child (`Families.dfy`). The code that the step machine describes works on task blocks
that are linked through their own tags into the ready list, the list of all tasks and the queue of each semaphore, with
pids in a bitmap (`List.dfy`, `TaskLists.dfy`, `TaskStates.dfy`, `ThreadCode.dfy`, `ThreadBoot.dfy`). Then the blocking
ring buffer (`IoQueue.dfy`, `WaitSlots.dfy`), pipe reference counts and redirection (`Pipes.dfy`, `Pipelines.dfy`,
`PipeCode.dfy`).

**File system.** Sectors and words (`Words.dfy`), ownership of sectors (`Ledger.dfy`, `Volume.dfy`), file reading and
writing (`FileCode.dfy`), directories (`Entries.dfy`, `DirTable.dfy`, `DirCode.dfy`, `DirList.dfy`), the inode table
with its cache (`InodeTable.dfy`, `InodeCache.dfy`, `InodeArea.dfy`), the directory tree with table and data area on one
disk and the file table beside it (`Tree.dfy`, `FsCode.dfy`, `FsBroken.dfy`), the list of open inodes over it
(`OpenInodes.dfy`, `Mounted.dfy`), whole runs (`FsRuns.dfy`), paths (`Paths.dfy`, `TreePaths.dfy`, `PathCode.dfy`,
`SysCalls.dfy`), what the calls do to the names (`NameSpace.dfy`), and runs on which the code misses its intent
(`FsInputs.dfy`, `PathInputs.dfy`).

Code that updates fields, tables or sectors is a class whose methods keep the loops and branches of the original and
are proved against functions or properties of the state before. A failed `ASSERT` is the outcome `Panic`, or a result
`panic`, and the contracts say when it happens. Proof-only fields name who owns what: `owner` gives the place that
refers to a sector or frame, `spot` the slot of a name, `home` the entry of an inode, `held` the directories left open.

Inputs that the original takes from outside are parameters: the task that runs next is the one the scheduler picks,
interrupts and system calls are the actions of a run, the disk is an array of 512-byte sectors read and written
atomically, `time`, keyboard and console do not appear.

## Where code and intent differ

Each of these is a theorem with the exact condition, followed by a concrete run or state on which the intended property
fails.

- `bitmap_scan` tests one bit past the end of the map: `Bitmaps.ScanIsFirstFitExactlyWhen`, at a map of eight bits
  `Bitmaps.ScanRunsPastTheEnd`.
- Adoption does not wake init, so init can sleep over a zombie: `InitWakeup.StepHearsExactlyWhen`, over runs
  `InitWakeup.InitHearsInRuns`, in a run of thirteen steps from boot `InitRun.InitMayMissAZombie`.
- A second consumer of a ring buffer can go to sleep although there is a byte: `WaitSlots.SleepsWithCauseExactlyWhen`, in
  a run of six steps `WaitSlots.SecondConsumerSleepsOn`.
- `pipe_write` takes the room to be one byte more than it is: `IoQueues.IoQueue.PipeWrite`, with 2048 bytes into an empty
  queue `IoQueues.PipeWriteWaits`.
- `sys_pipe` counts two references whether or not two descriptors were free: `Pipes.PipeExactlyWhen`, at a third pipe
  `Pipes.ThirdPipeOverCounts`. Redirection is not counted: `Pipes.RedirectExactlyWhen`, at a process with two pipes
  `Pipes.RedirectMiscounts`; a descriptor redirected to a standard one makes fork and exit fault,
  `Pipes.StrayFaultsAtExit`.
- `inode_sync` keeps the inode number in eight bits: `InodeCache.ReopenedExactlyWhen`, at inode 256
  `InodeCache.Inode256IsLost`. For the whole file system `FsRuns.Run` says that a run keeps it valid exactly up to the first
  call that loses an inode, and `FsInputs.TooManyInodes` makes 256 directories.
- There can be two copies of an inode number in memory, below 256 too: `InodeCache.OneCopyExactlyWhen`, over runs
  `InodeCache.OneCopyInRuns`, in eight calls `InodeCache.DeadCopyReturns`. In the file system it comes about because
  `sys_open` of an existing file leaves the file's directory open and `sys_rmdir` does not ask who has a directory open: a
  call that makes a number whose dead copy is in memory is the other way to lose an inode in `FsRuns.Run`
  (`Mounts.Mounted.Create`, `Mounts.Mounted.Mkdir`), and `FsInputs.StaleInode` opens a file of 600 bytes and gets a
  directory of 48.
- `file_write` admits 71680 bytes at its first test and fails an assertion for exactly that size
  (`FileCode.Partition.FileWrite`, `FsInputs.FullFileStops`); `file_read` fails one from block 139 on
  (`FileCode.Partition.FileRead`, `FsInputs.LastBlockUnread`).
- `sys_unlink` on a path that continues behind a regular file deletes that file: `SysCalls.WholePathExactlyWhen` and
  `SysCalls.SysUnlink`, with `/d/e` where `d` is a file `PathInputs.UnlinkBehindFile`.
- `sys_rmdir` on a path that ends in `.` releases an empty directory and leaves its entry: `SysCalls.SysRmdir`, with `/d/.`
  `PathInputs.RmdirByDot`.

## Model

| member | source | states |
|---|---|---|
| Bitmaps.ScanIsFirstFitExactlyWhen | kernel/bitmap.c:21-65 | a scan is first fit on the map, failing exactly when there is no run, except when the bit after the map is clear, there is no run and the last `cnt - 1` bits are clear |
| Bitmaps.ScanRunsPastTheEnd | kernel/bitmap.c:48-62 | a map of eight bits on which two pages are granted although one is free |
| Bitmaps.FitFromIsLeast | kernel/bitmap.c:21-65 | first fit is the least start of a clear run, and there is none when it fails |
| Bitmaps.Bitmap.Scan | kernel/bitmap.c:21-65 | the byte and bit loops return the first fit over map and guard bit, -1 or a failed assertion |
| Bitmaps.Bitmap.FirstClear | kernel/bitmap.c:21-40 | the byte loop and the bit loop find the first clear bit, and fail the assertion exactly on a full map |
| Bitmaps.Bitmap.ScanTest | kernel/bitmap.c:14-18 | the test of one bit |
| Bitmaps.Bitmap.Set | kernel/bitmap.c:68-80 | exactly one bit changes |
| Lists.List.InsertBefore | kernel/list.c:13-28 | four pointer writes insert the element before another in the sequence |
| Lists.List.Push | kernel/list.c:31-33 | the element becomes the first |
| Lists.List.Append | kernel/list.c:36-38 | the element becomes the last |
| Lists.List.Remove | kernel/list.c:41-48 | two pointer writes take exactly that element out of the sequence |
| Lists.List.Pop | kernel/list.c:51-55 | the first element is returned and removed |
| Lists.List.Find | kernel/list.c:58-67 | true exactly for members of the sequence |
| Lists.List.Traverse | kernel/list.c:73-87 | the first element that the predicate accepts, or none |
| Lists.List.Length | kernel/list.c:90-98 | the length of the sequence |
| Threads.SchedulePicks | thread/thread.c:173-204 | with a ready thread or a blocked idle thread, scheduling succeeds, the first ready thread (or idle) runs, and the queues stay right |
| Threads.UnblockKeeps | thread/thread.c:219-233 | unblocking a thread that is not queued keeps the queues right |
| Threads.BlockKeeps | thread/thread.c:207-216 | blocking keeps exactly one running thread and exact queues |
| Threads.YieldKeeps | thread/thread.c:236-246 | yielding does too |
| Threads.TickKeeps | device/timer.c:36-49 | a timer tick does too, with no slice above its priority |
| RoundRobin.ExactDelay | device/timer.c:36-49 | under timer ticks alone, the thread at index k of the ready list first runs after exactly `cur.ticks + 1` plus the sum of the earlier threads' `ticks + 1` |
| RoundRobin.LaterDelay | thread/thread.c:173-204 | until then it has not run |
| RoundRobin.AfterKeeps | device/timer.c:36-49 | the scheduler's invariant holds after any number of ticks |
| RoundRobin.SliceRefilled | thread/thread.c:173-185 | a thread whose slice is used up has a full slice again, `priority` ticks, whether or not others are ready |
| RoundRobin.PartIs | thread/thread.c:173-204 | the whole system at the moment the thread at index k gets the processor: it runs with the slice it had, those before it are behind it with full slices, the rest is as it was |
| RoundRobin.FullRound | device/timer.c:36-49 | after one round, the sum of all `ticks + 1`, the same thread runs, the ready list is in the same order, every slice of a thread that ran is full and nothing else has changed |
| RoundRobin.SecondTurn | device/timer.c:36-49 | a thread that is not alone is off the processor for exactly the sum of the others' `ticks + 1`, and then keeps it for exactly `priority + 1` ticks |
| RoundRobin.RoundsRepeat | device/timer.c:36-49 | with full slices a round leaves the system exactly as it was |
| RoundRobin.YieldedTurn | thread/thread.c:236-246 | a thread that yields runs again after exactly the slices of the others, with the rest of its own slice unchanged |
| RoundRobin.WokenRunsNext | thread/thread.c:219-233 | an unblocked thread gets the processor at the next block, yield or end of slice, ahead of every ready thread, whose order is kept |
| TaskLists.ChainsApart | kernel/list.c:13-48 | lists that run through different tags, or have no task in common, share no element, so that work on one leaves the links of the other |
| TaskLists.Queues.Push | kernel/list.c:31-33 | a block whose tag is in no chain becomes the first of one list; all lists stay well linked and apart, the others unchanged |
| TaskLists.Queues.Append | kernel/list.c:36-38 | the same at the end |
| TaskLists.Queues.Pop | kernel/list.c:51-55 | the first block is found from its tag and leaves that list alone |
| TaskLists.Queues.Remove | kernel/list.c:41-48 | a listed block leaves that list alone, its other list untouched |
| TaskLists.Queues.Find | kernel/list.c:58-67 | the walk over the tags decides membership |
| KernelSafety.LockStepKeeps | thread/sync.c:20-82 | every step inside `lock_acquire` and `lock_release` succeeds and keeps the whole invariant |
| KernelSafety.SleepStep | thread/sync.c:20-39 | going to sleep on a semaphore keeps the invariant |
| KernelSafety.UpStep | thread/sync.c:42-54 | waking the first waiter keeps it, with that waiter due to retry |
| ProcessSafety.ForkKeeps | userprog/fork.c:162-182 | fork fails exactly when all pids are taken, and keeps the invariant |
| ProcessSafety.StartKeeps | thread/thread.c:142-157 | so does starting a kernel thread |
| ProcessSafety.FinishKeeps | thread/thread.c:320-350 | a kernel thread that returns leaves the invariant |
| ProcessSafety.WaitKeeps | userprog/wait_exit.c:109-139 | a pass of `sys_wait` reaps, returns or sleeps, and keeps the invariant |
| ProcessSafety.ExitBeginKeeps | userprog/wait_exit.c:142-150 | giving the children to init keeps the invariant |
| ProcessSafety.ExitEndKeeps | userprog/wait_exit.c:155-163 | the parent of an exiting process is found, and hanging keeps the invariant |
| KernelRuns.StepKeeps | thread/thread.c:173-246 | every enabled step keeps the invariant, and an assertion fails exactly for fork or start without a free pid and for the exit of a process without parent |
| KernelRuns.RunKeeps | thread/thread.c:372-390 | the invariant holds in every state of every run from boot |
| KernelRuns.QueuesInRuns | thread/thread.c:173-246 | in every run: one running thread, the ready list is exactly the ready threads, a thread is in at most one queue, idle is on no semaphore |
| KernelRuns.LocksInRuns | thread/sync.c:57-82 | in every run: at most one owner, `value` is 1 exactly without one, and with `value` 1 and waiters queued some woken thread is due to retry |
| KernelRuns.ProcessesInRuns | userprog/wait_exit.c:99-163 | in every run: pids are distinct, a parent pid names a process that is not hanging, and a waiting process other than init has a child and no hanging one |
| History.ReapedOnce | userprog/wait_exit.c:109-163 | in every run each exit is reaped at most once, with the low byte of its status |
| History.StepLogged | userprog/wait_exit.c:109-163 | every step keeps the record of exits and reaped children consistent |
| WhoRuns.ParentRunsNext | userprog/wait_exit.c:155-162 | a process that exits while its parent sleeps in wait hands it the processor at once; the ready list and all other threads stay as they were |
| WhoRuns.ParentReapsNext | userprog/wait_exit.c:109-163 | and the next thing that parent, if it is not init, does is to reap exactly this child, with its status |
| WhoRuns.WaiterRunsNext | thread/sync.c:42-54 | after `sema_up` the thread that slept first runs next, whether the caller blocks, yields or is at the end of its slice |
| WhoRuns.FirstAsleepFirstWoken | thread/sync.c:19-54 | in every run, as long as a thread sleeps on a semaphore nobody who fell asleep on it later is woken |
| WhoRuns.StaysAhead | thread/sync.c:19-54 | in every run a thread that fell asleep earlier stays ahead in the queue |
| LockDepth.StepDepth | thread/sync.c:57-82 | over all steps, an acquire raises the caller's depth on that lock by one, a release lowers it by one, and nothing else changes any depth |
| LockDepth.DepthInRuns | thread/sync.c:57-82 | in every run the depth is the number of acquires less the number of releases |
| LockDepth.FreedWhenBalanced | thread/sync.c:57-82 | in every run a thread outside a call holds the lock exactly when it acquired it more often than it released it, so the release that balances the acquires is the one that frees it |
| Families.StepRelated | userprog/fork.c:14-24 | over all steps: pid, priority and privilege are for life, the exit status is written by the own exit alone, a parent changes only to init and only when it exits, new threads are last in line with a full slice, the lowest free pid and the caller (fork) or nobody (start) as parent, and threads go by their own end or the reap of their parent |
| Families.ParentInRuns | userprog/wait_exit.c:99-105 | in every run a process is the child of the one that forked it until that one exits, and of init from then on |
| Families.StepInOrder | thread/thread.c:142-157 | every step keeps the list of all threads in the order in which they were made |
| InitWakeup.ExitHeardExactlyWhen | userprog/wait_exit.c:99-150 | the first half of an exit leaves a sleeping init with every zombie announced exactly unless init waits, the parent is another process, the exiting one has a zombie and nobody is about to announce one |
| InitWakeup.StepHearsExactlyWhen | userprog/wait_exit.c:99-163 | the same for every step of every interleaving: exactly such an exit leaves init asleep over a zombie that nobody announces |
| InitWakeup.InitHearsInRuns | userprog/wait_exit.c:109-163 | over every run from boot: in all states a sleeping init has its zombies announced, if and only if no step was such an exit |
| InitRun.InitMayMissAZombie | userprog/wait_exit.c:142-163 | a run of thirteen steps from boot at whose end init waits with a hanging child |
| ThreadCode.Machine.ThreadUnblock | thread/thread.c:219-233 | on linked blocks: the task goes to the front of the ready list through its tag, so that it runs next (`RoundRobin.WokenRunsNext`), with the same failed assertions as the step machine; every other chain stays and all chains stay apart |
| ThreadCode.Machine.Schedule | thread/thread.c:173-204 | the linked blocks end in the state that scheduling gives, whose slices and order `RoundRobin.FullRound` and `RoundRobin.SecondTurn` describe, chains apart, with a failed assertion exactly when it has one |
| ThreadCode.Machine.ThreadBlock | thread/thread.c:207-216 | the same for `thread_block` |
| ThreadCode.Machine.ThreadYield | thread/thread.c:236-246 | the same for `thread_yield` |
| ThreadCode.Machine.TimerHandler | device/timer.c:36-49 | the same for the timer |
| ThreadCode.Machine.SemaDown | thread/sync.c:20-39 | the same for a pass of `sema_down` |
| ThreadCode.Machine.SemaUp | thread/sync.c:42-54 | the same for `sema_up` |
| ThreadCode.Machine.LockAcquire | thread/sync.c:57-68 | the same for the entry of `lock_acquire` |
| ThreadCode.Machine.LockRelease | thread/sync.c:71-82 | the same for the entry of `lock_release` |
| ThreadCode.Machine.LockContinue | thread/sync.c:57-82 | the same for the writes behind them, with tasks moving between the ready list and a semaphore queue through one tag |
| ThreadCode.Machine.AllocatePid | thread/thread.c:67-75 | the scan of the bitmap gives the least free pid and sets its bit, with a failed assertion exactly without one |
| ThreadCode.Machine.SysFork | userprog/fork.c:162-182 | a new block with fresh tags joins both lists, the state is that of fork, and the result is the pid of the child |
| ThreadCode.Machine.ThreadStart | thread/thread.c:142-157 | the same for `thread_start` |
| ThreadCode.Machine.ThreadExit | thread/thread.c:320-350 | the block leaves every list it is in, its pid is free again, and no chain refers to it |
| ThreadCode.Machine.FinishThread | thread/thread.c:320-350 | a thread that ends itself: removal and scheduling, as the step machine says |
| ThreadCode.Machine.Traverse | kernel/list.c:73-87 | the walk over the chain of all tasks finds the first task that a predicate accepts |
| ThreadCode.Machine.AdoptChildren | userprog/wait_exit.c:99-105 | every child of the exiting process, and nobody else, becomes a child of init |
| ThreadCode.Machine.SysExitBegin | userprog/wait_exit.c:142-150 | the same for the first part of `sys_exit` |
| ThreadCode.Machine.SysExitEnd | userprog/wait_exit.c:155-163 | the same for its end |
| ThreadCode.Machine.SysWait | userprog/wait_exit.c:109-139 | the state is that of a pass of `sys_wait`, and the result says which: no child, children of which none hangs, or the first listed child that hangs is gone and the caller has its pid and status |
| ThreadCode.Machine.Perform | thread/thread.c:173-246 | in every state of a run, any action performed on the linked blocks gives the successor of the step machine, fails an assertion exactly for the fatal calls, and leaves all chains well linked and apart |
| ThreadCode.Machine.Execute | thread/thread.c:173-246 | every run of the step machine is executed on linked blocks without a failed assertion and ends in its last state |
| ThreadBoot.Boot | thread/thread.c:372-390 | the lists, pids and first three blocks that `thread_init` builds are the initial state of the step machine |
| ThreadBoot.BootAndExecute | thread/thread.c:372-390 | so every run from boot is one of the code, with no failed assertion |
| IoQueues.IoQueue.Put | device/ioqueue.c:68-85 | a byte is appended to the contents |
| IoQueues.IoQueue.Get | device/ioqueue.c:45-65 | the oldest byte is removed |
| IoQueues.IoQueue.Length | device/ioqueue.c:88-96 | the number of bytes held, in both branches |
| IoQueues.IoQueue.Bounds | device/ioqueue.c:19-28 | empty means no byte and full means 2047 |
| IoQueues.IoQueue.PipeRead | shell/pipe.c:38-55 | the first min(count, length) bytes in order, never from an empty queue |
| IoQueues.IoQueue.PipeWrite | shell/pipe.c:58-74 | it waits exactly when the bytes do not fit in 2047, after filling the queue; otherwise all bytes are appended |
| IoQueues.PipeWriteWaits | shell/pipe.c:58-74 | 2048 bytes into an empty queue: it writes 2047 and waits |
| WaitSlots.StepKeeps | device/ioqueue.c:31-85 | every step of the blocking protocol succeeds and keeps its invariant |
| WaitSlots.FifoInRuns | device/ioqueue.c:31-85 | in every run: bytes leave in order of entry, the slots are never both set, and a set slot names the lock's owner |
| WaitSlots.CallProgress | device/ioqueue.c:45-85 | however often it sleeps, a put returns exactly when its own byte went in once, a get exactly when it took the oldest byte once, and no other call changes but for waking |
| WaitSlots.SleepsWithCauseExactlyWhen | device/ioqueue.c:45-85 | a step puts a task to sleep without cause exactly when it waited for the lock and the queue changed meanwhile |
| WaitSlots.SecondConsumerSleepsOn | device/ioqueue.c:45-65 | a run of six steps with two consumers, one of them asleep with a byte in the queue |
| WaitSlots.KeyboardNeverSleepsOn | device/keyboard.c:111-228 | in every run with one consumer and producers that do not put into a full queue, nobody sleeps without cause, the consumer interrupted by the keyboard included |
| Pipes.PipeExactlyWhen | shell/pipe.c:15-35 | `sys_pipe` keeps all counts right exactly when the process has two free descriptors |
| Pipes.CloseKeeps | fs/fs.c:376-393 | closing stops exactly for a free or stray descriptor, takes one reference from that slot, and keeps the counts |
| Pipes.ForkKeeps | userprog/fork.c:113-127 | without a stray descriptor fork keeps the counts |
| Pipes.ExitKeeps | userprog/wait_exit.c:59-75 | without a stray descriptor exit keeps the counts and frees exactly the pages without a reference |
| Pipes.RedirectExactlyWhen | shell/pipe.c:77-86 | redirection keeps every count right exactly when it touches no counted reference: descriptor 0 to 2, the same target, or neither old nor new target a slot from 3 on |
| Pipes.ApplyExactlyWhen | shell/pipe.c:15-86 | an operation faults exactly on a bad close or a stray descriptor at fork or exit, and otherwise keeps the counts exactly when it meets its condition |
| Pipes.CountsInRuns | shell/pipe.c:15-35 | over every run the counts are right throughout exactly when every operation met its condition |
| Pipes.ThirdPipeOverCounts | shell/pipe.c:30-34 | a third pipe in one process is counted twice and installed once |
| Pipes.RedirectMiscounts | shell/pipe.c:77-86 | with two pipes counted right, redirecting a free descriptor to a pipe, or a pipe to standard input, makes a count wrong |
| Pipes.StrayFaultsAtExit | shell/pipe.c:77-86 | redirecting a free descriptor to standard input leaves the counts right and makes the next fork and exit fault |
| Pipelines.OthersKept | userprog/fork.c:113-127 | fork gives the child the caller's whole descriptor table, 0 to 2 included; no operation changes the table of another process |
| Pipelines.StandardKept | shell/pipe.c:15-86 | descriptors 0 to 2 change by redirection alone |
| Pipelines.RedirectThenRestore | shell/pipe.c:77-86 | redirecting descriptor 0, 1 or 2 and restoring it gives back the state exactly when it was the standard one |
| Pipelines.ForkThenExit | userprog/wait_exit.c:59-75 | a child that leaves its descriptors alone and exits undoes its fork, counts included |
| Pipelines.PipeInstalls | shell/pipe.c:15-35 | with room, the two lowest free descriptors refer to the new slot and nothing else changes |
| Pipelines.CommandsConnected | shell/shell.c:190-226 | in a shell pipeline the first command writes to the pipe, those in between read and write it, the last reads it and writes standard output |
| Pipelines.PipelineLeavesNoTrace | shell/shell.c:190-237 | after the pipeline every descriptor table and every other slot is what it was, and the pipe's slot is free |
| PipeCode.FileTable.GetFreeSlot | fs/file.c:20-33 | the first free slot, or -1 exactly without one |
| PipeCode.FileTable.InstallFd | fs/file.c:37-52 | the lowest free descriptor refers to the slot and no other changes; -1 and no change exactly without one |
| PipeCode.FileTable.SysPipe | shell/pipe.c:15-35 | the lowest free slot counts two, and the two lowest free descriptors, which differ, refer to it; a descriptor is -1 exactly without room for it, and nothing else changes |
| PipeCode.FileTable.SysClose | fs/fs.c:376-393 | the descriptor is free, its slot has one reference less and is given up exactly with the last, all other slots as before; a stop exactly for a free or stray descriptor |
| PipeCode.FileTable.ForkTables | userprog/fork.c:113-127 | the child has the parent's table, each slot counts one more per descriptor of the parent from 3 on, and it faults exactly on a stray one |
| PipeCode.FileTable.ReleaseFds | userprog/wait_exit.c:59-75 | the other tables stay, each slot has as many references less as the process had, counts stay right, and it faults exactly on a stray descriptor |
| PipeCode.FileTable.SysFdRedirect | shell/pipe.c:77-86 | the descriptor refers to what the other one does, or to the standard one below 3; no other descriptor, process or slot changes; the counts are right exactly when no counted reference was touched |
| PipeCode.FileTable.Perform | shell/pipe.c:15-86 | the tables follow the model, and the counts stay right exactly when the operation met its condition |
| Paging.PdeIsPteOfPte | kernel/memory.c:78-93 | `pde_ptr(v)` is `pte_ptr(pte_ptr(v))` for every 32-bit v |
| Paging.PtePtrReachesEntry | kernel/memory.c:78-86 | with the directory mapping itself, an access to `pte_ptr(v)` reaches exactly v's table entry |
| Paging.PdePtrReachesEntry | kernel/memory.c:89-93 | and an access to `pde_ptr(v)` exactly v's directory entry |
| Paging.AddedInTable | kernel/memory.c:121-128 | with a table present, exactly the pages that share v's entry get the frame |
| Paging.AddedWithTable | kernel/memory.c:129-141 | with a new table, exactly v's page gets the frame and, in the window, exactly the page of v's entry gets the table |
| Paging.AddedKeeps | kernel/memory.c:109-142 | the directory still maps itself and every present entry leads to a table |
| Paging.AddedGrants | kernel/memory.c:121-128 | with a table present, user code may write exactly to the pages that share v's entry besides those it could |
| Paging.AddedTableGrants | kernel/memory.c:129-141 | with a new table, exactly to v's page and, in the window, the page of its entry besides those it could |
| Paging.ClearedExactly | kernel/memory.c:374-378 | exactly the pages that share v's entry lose their frame |
| Paging.ClearedGrants | kernel/memory.c:374-378 | user code may no longer write to the pages that share v's entry, and to every other page as before |
| Paging.ClearedOnlyPresent | kernel/memory.c:374-378 | of v's entry only the present bit changes; of all other words none |
| Paging.KernelIsShared | userprog/process.c:64-84 | a new directory maps itself, translates kernel space as the current one does and maps nothing below |
| Paging.SharedGrants | userprog/process.c:64-84 | in a new directory user code may write exactly what it may write in the current one above the user half |
| Paging.Mmu.PageTableAdd | kernel/memory.c:109-142 | the code, with every access through the window, computes that change: v leads to the frame, and present, write and user bits are set in its directory entry and its table entry; an assertion fails exactly when v is mapped, or a table is needed and the pool is full |
| Paging.Mmu.FillTable | kernel/memory.c:129-140 | the new table is entered, zeroed word by word and filled |
| Paging.Mmu.ZeroTable | kernel/memory.c:137 | the words cleared through the window are those of the new table |
| KernelPages.KernelMemory.constructor | kernel/memory.c:495-556 | what loader and `mem_pool_init` leave meets the invariant: kernel tables of their own, no heap page mapped, all bits clear |
| KernelPages.KernelMemory.VaddrGet | kernel/memory.c:47-58 | the first fit of n virtual pages becomes reserved; only with the bit behind the map clear, no run of n and n - 1 pages free at the end, the run goes one page past the map |
| KernelPages.KernelMemory.Palloc | kernel/memory.c:97-106 | the first free frame, and a failed assertion exactly without one |
| KernelPages.KernelMemory.MallocPage | kernel/memory.c:145-173 | n consecutive pages get n free frames and flags that allow writing, nothing else changes, no frame is mapped twice; failures are characterised |
| KernelPages.KernelMemory.MapPages | kernel/memory.c:159-171 | the mapping loop |
| KernelPages.KernelMemory.MfreePage | kernel/memory.c:399-450 | release is allocation backwards, and its assertions on frames hold |
| KernelPages.KernelMemory.UnmapPages | kernel/memory.c:429-445 | the release loop |
| KernelPages.KernelMemory.VaddrRemove | kernel/memory.c:381-388 | exactly the n bits are cleared |
| KernelPages.FreedIsRestored | kernel/memory.c:399-450 | allocation and release restore both bitmaps and the present map |
| KernelPages.KernelMemory.AllocateAndRelease | kernel/memory.c:145-173 | the two calls in sequence leave no trace |
| HeapBlocks.BlockDescInit | kernel/memory.c:562-576 | seven classes of 16 to 1024 bytes with 255 to 3 blocks |
| HeapBlocks.BlockInside | kernel/memory.c:255-262 | a block lies in its page behind the header, and `block2arena` inverts `arena2block` |
| HeapBlocks.BlocksDisjoint | kernel/memory.c:255-257 | two blocks of an arena are the same or apart |
| HeapBlocks.PickClass | kernel/memory.c:315-320 | the smallest class that holds the request |
| Heap.PopKeeps | kernel/memory.c:348-355 | handing out a block keeps free lists, counts and live blocks consistent |
| Heap.OpenKeeps | kernel/memory.c:323-346 | cutting a new arena does |
| Heap.PushKeeps | kernel/memory.c:476-480 | taking a block back does |
| Heap.AllFree | kernel/memory.c:480-486 | when the count is full, no block of the arena is live and all are on the list |
| Heap.CloseKeeps | kernel/memory.c:480-488 | removing an arena's blocks from the list keeps everything consistent |
| HeapPages.RemoveBlocks | kernel/memory.c:481-486 | the removal loop leaves exactly the blocks of other arenas, in order |
| KernelHeap.Allocator.constructor | kernel/memory.c:562-576 | the empty heap |
| KernelHeap.Allocator.SysMalloc | kernel/memory.c:265-357 | NULL, a failed assertion or a block that was not live, each exactly under its condition: the block of its class that has been free longest, the first of a new page at the first fit when none is free, or pages of its own; the pages taken are exact and the whole heap invariant is kept |
| KernelHeap.Allocator.MallocLarge | kernel/memory.c:293-313 | a request above 1024 bytes gets pages of its own |
| KernelHeap.Allocator.NewArena | kernel/memory.c:323-346 | the splitting loop |
| KernelHeap.Allocator.SysFree | kernel/memory.c:453-492 | exactly that block is given back: to the end of the free list of its class, or with its page when it was the last of it, or with its own pages; the pages given back are exact and the invariant is kept |
| KernelHeap.Allocator.CloseArena | kernel/memory.c:480-488 | an arena without live blocks gives its page back |
| KernelHeap.NoOverlap | kernel/memory.c:265-357 | live blocks never overlap, in any arenas |
| KernelHeap.ArenaHasLive | kernel/memory.c:453-492 | every arena has a live block of its own |
| KernelHeap.NoLeak | kernel/memory.c:453-492 | with no live block, both page bitmaps and the present map are as at the start |
| KernelHeap.Exercise | kernel/memory.c:265-492 | after any run of requests and releases and the release of the rest, the bitmaps are as at the start; an assertion fails only for want of pages |
| UserFrames.EntryAlone | userprog/fork.c:40-76 | no frame is mapped twice, in one process or in two |
| UserFrames.BitHasEntry | kernel/memory.c:97-106 | a set bit of the user pool is the target of an entry |
| UserFrames.EntryHasBit | kernel/memory.c:97-106 | the target of an entry has its bit set |
| UserFrames.MappedExactly | kernel/memory.c:109-142 | adding a page changes only its translation |
| UserFrames.MappedMayWrite | kernel/memory.c:124-140 | a process may write to a user page exactly when it is mapped: both levels have the present, write and user bits |
| UserFrames.Machine.constructor | kernel/memory.c:495-556 | the user pool before the first process meets the invariant, with every frame free |
| UserFrames.Machine.GetAPage | kernel/memory.c:199-230 | exactly that page becomes mapped, and can be written, with a table from the kernel pool when there was none; it stops exactly when the page was mapped or a pool has no frame for it |
| UserFrames.Machine.MallocUser | kernel/memory.c:145-173 | first fit of n pages, each with a free frame and writable, and as many kernel frames as directory entries lack a table; failures are exact |
| UserFrames.Machine.MfreeUser | kernel/memory.c:399-424 | exactly these pages and their frames become free; every other page can be written as before |
| UserFrames.Machine.Fork | userprog/fork.c:40-76 | the child gets, for every set bit, a fresh frame with equal bytes at the same address, which it can write, and a table per directory entry in use; nobody else's pages or bytes change; it fails exactly without enough frames in one of the pools |
| UserFrames.Machine.CopyPage | userprog/fork.c:57-69 | one page of the copy |
| UserFrames.Machine.Exit | userprog/wait_exit.c:31-53 | exactly the bits of the exiting process's frames are cleared, and the kernel pool gets back one frame per table |
| Words.DecodeEncode | fs/file.c:360 | words written to a sector are read back |
| Ledgers.OwnedMeans | fs/file.c:65-73 | the invariant means that each data sector is referenced at most once and its bit is set exactly when it is |
| Ledgers.AttachKeeps | fs/file.c:65-73 | allocating a free sector for an empty place keeps it |
| Ledgers.DetachKeeps | fs/inode.c:200-208 | giving a sector back keeps it |
| Volume.AppendChunk | fs/file.c:389-410 | a chunk spliced in behind the last byte appends to the file's bytes |
| Volume.OthersUnchanged | fs/file.c:226-415 | work on one inode changes no other file's bytes |
| Volume.DataWrite | fs/file.c:403 | writing a data sector keeps the partition sound |
| FileCode.Partition.BlockAlloc | fs/file.c:65-73 | the first free block, and a failed assertion exactly without one |
| FileCode.Partition.Grow | fs/file.c:303-319 | the allocation loops fill exactly the new positions |
| FileCode.Partition.FirstBlock | fs/file.c:255-268 | a file that was never written gets its first block |
| FileCode.Partition.CollectSame | fs/file.c:282-291 | the case without new blocks |
| FileCode.Partition.CollectDirect | fs/file.c:296-320 | the case of direct blocks |
| FileCode.Partition.CollectAcross | fs/file.c:321-360 | the case that creates the table |
| FileCode.Partition.CollectBeyond | fs/file.c:361-383 | the case of an existing table |
| FileCode.Partition.Collect | fs/file.c:256-384 | all cases: exactly blocks 0 to (size + count) / 512 are allocated, and the old bytes stay |
| FileCode.Partition.WriteData | fs/file.c:387-410 | the data loop appends the buffer |
| FileCode.Partition.FileWrite | fs/file.c:226-415 | refused, failed or done, each exactly under its condition; done means that the bytes are the old bytes and the buffer, the blocks are those of the new size, and other inodes are untouched |
| FileCode.Partition.Gather | fs/file.c:446-488 | the block addresses for a read, in all cases |
| FileCode.Partition.FileRead | fs/file.c:418-510 | -1, a failed assertion or exactly the bytes from `fd_pos` to the end of request or file; the position one below zero, which a write of no bytes leaves, is one of the failures |
| FileCode.Partition.InodeRelease | fs/inode.c:171-225 | exactly the inode's sectors, its table included, become free; its assertions hold |
| Entries.FromTo | lib/dir.h:18-22 | an entry of 24 bytes is read back as it was written |
| Entries.SlotsSplice | fs/dir.c:198-204 | writing a slot changes that slot alone |
| DirTable.RoomBelow252 | fs/dir.c:139-209 | below 252 entries there is a free slot or block among the twelve |
| DirTable.FirstRoomIsFirst | fs/dir.c:139-209 | the place of a new entry is the first: everything before it is allocated and in use |
| DirTable.InsertedKeeps | fs/dir.c:117-212 | an inserted entry adds its name to the map, and the directory stays well formed |
| DirTable.RemovedKeeps | fs/dir.c:215-323 | a removed entry takes its name out; every other block keeps a live entry |
| DirCode.SearchDirEntry | fs/dir.c:32-91 | the entry of a name, or none exactly when the map has none |
| DirCode.SyncDirEntry | fs/dir.c:117-212 | the entry goes to the first free slot or a new block; the size grows by 24; a failure exactly without a free block when one is needed |
| DirCode.DeleteDirEntry | fs/dir.c:215-323 | the one proper entry with the inode number goes, with its block when it was the last; false exactly without such an entry |
| DirCode.ScanMeans | fs/dir.c:248-266 | what the counting loop knows about a block |
| DirList.DirRead | fs/dir.c:326-374 | the entry at the position, or nothing at the end |
| DirList.ListingIsTheMap | fs/dir.c:326-374 | the listing has every entry of the map exactly once |
| DirList.ReadAll | fs/fs.c:694-697 | repeated reading yields the listing and then nothing |
| Tree.GrowRooted | fs/fs.c:541-655 | a new child keeps the tree: every inode but the root has exactly one entry, and depth counts the way up |
| Tree.PruneRooted | fs/fs.c:490-538 | removing a file or an empty directory keeps it |
| FsCode.FileSystem.constructor | fs/fs.c:166-194 | a partition with the root directory alone, its inode in slot 0 of the table and an empty file table |
| FsCode.FileSystem.Create | fs/file.c:98-184 | the tree gets an empty file with the least free inode number, open in the first free slot, and only the directory's inode changes, behind its first sector; refused without change exactly when the file table is full; a failure exactly without inode or block; afterwards disk and tree agree exactly when the number is below 256 |
| FsCode.FileSystem.Mkdir | fs/fs.c:571-630 | the tree gets a directory with its two dots in the first free sector; a failure exactly without inode or blocks; disk and tree agree exactly when the number is below 256 |
| FsCode.FileSystem.Unlink | fs/fs.c:506-537 | a file with a slot in the file table stays; another one leaves the tree |
| FsCode.FileSystem.Rmdir | fs/dir.c:377-405 | on the disk: it succeeds exactly for an empty directory, whose inode has one sector, and the assertion on its block slots holds |
| FsCode.FileSystem.Write | fs/file.c:226-415 | the file's bytes in the tree get the buffer appended, nothing else changes |
| FsCode.FileSystem.Read | fs/file.c:418-510 | the bytes of the tree are read |
| FsCode.FileSystem.Lookup | fs/dir.c:32-91 | the directory's map |
| FsCode.FileSystem.InodeSync | fs/inode.c:43-74 | on the disk that holds tree and files: the inode goes to the slot of its low byte, no file or directory changes, and below 256 the table holds it |
| FsCode.FileSystem.InodeDelete | fs/inode.c:146-168 | the slot of a released inode is cleared, and the table holds all others |
| FsCode.FileSystem.InodeFromDisk | fs/inode.c:77-126 | in a valid file system, opening any inode from disk gives the size and addresses it has in the tree |
| FsCode.FileSystem.RmdirSelf | fs/dir.c:384-405 | removal with the directory as its own parent releases an empty one and deletes no entry |
| FsBroken.NoTree | fs/dir.c:384-405 | sectors and inodes from which an empty directory was released while its entry stayed are those of no tree, whichever witnesses are chosen |
| InodeArea.TabledStays | fs/inode.c:21-40 | work in the data area leaves every slot of the table as it was |
| InodeArea.HighSound | fs/inode.c:43-74 | work in the table leaves the references and bytes of every inode as they were |
| FsCode.EmptyDir | fs/dir.c:377-393 | a directory of 48 bytes has only its dots and only its first block |
| OpenInodes.EnteredExactlyWhen | fs/file.c:157-164 | entering a new inode keeps one copy per open inode, each equal to its inode, exactly when its number is not in memory |
| OpenInodes.MadeExactlyWhen | fs/fs.c:627-632 | making a directory without entering it keeps them exactly when a dead copy of its number is equal to the new inode |
| OpenInodes.OpenedOk | fs/inode.c:77-126 | opening adds one to the uses of a number and keeps the copies right |
| OpenInodes.ClosedOk | fs/inode.c:129-143 | closing takes one away, the last one with the copy, and keeps them right |
| Mounts.Mounted.constructor | fs/dir.c:17-20 | the list with the root alone |
| Mounts.Mounted.InodeOpen | fs/inode.c:77-126 | while everything is valid, whoever opens a live inode gets it, from memory or from disk |
| Mounts.Mounted.Create | fs/file.c:98-184 | with the list: all copies stay right exactly when the number is below 256 and no copy of it is in memory; otherwise the dead directory's copy stays behind the new one |
| Mounts.Mounted.Mkdir | fs/fs.c:571-642 | with the list: all copies stay right exactly when the number is below 256 and a copy of it in memory is of a directory that had the same first sector |
| Mounts.Mounted.Unlink | fs/fs.c:506-537 | a deleted file has no copy in memory, and leaves none |
| Mounts.Mounted.Rmdir | fs/fs.c:718-729 | a deleted directory that somebody has open stays in memory under a free number; everything else stays right |
| Mounts.Mounted.Open | fs/fs.c:354-360 | the file gets the first free slot and one more use, and the directory that the search left open stays open, with or without a slot |
| Mounts.Mounted.Close | fs/file.c:215-223 | the slot is free and the inode has one use less |
| FsRuns.Format | fs/fs.c:128-194 | a formatted partition, its inode table written, is the tree of one empty root |
| FsRuns.Perform | fs/fs.c:490-731 | one call does to the tree, the file table and the open directories what it describes, and fails only for want of blocks or inodes or at 71680 bytes; everything stays valid exactly when it loses no inode: one from 256 on, or one with a copy in memory that is not equal to it |
| FsRuns.Run | fs/fs.c:490-731 | every run of create, write, open, close, unlink, mkdir, rmdir, opendir and closedir keeps sectors, bitmaps, inode table, file table and copies in memory valid and leaves the world that the calls describe, up to the first call that loses an inode, which is named; with blocks enough and no tight spot no assertion fails |
| FsInputs.TooManyInodes | fs/inode.c:43-47 | 256 directories on any formatted partition: exactly the last call loses an inode |
| FsInputs.StaleInode | fs/fs.c:354-360 | open of `/d/e` leaves `/d` open, `/d` is removed, a new file gets its number and 600 bytes: opened again it is the dead directory with 48 bytes |
| FsInputs.FullFileStops | fs/file.c:226-384 | 71680 bytes into a new file stop the kernel |
| FsInputs.LastBlockUnread | fs/file.c:418-444 | a file of 71169 bytes is written, and its last byte cannot be read |
| Paths.PathParse | fs/fs.c:197-212 | the first name of a path and the rest |
| Paths.WashPath | shell/buildin_cmd.c:12-50 | the string editing computes the stack resolution of the names |
| Paths.WashedTwice | shell/buildin_cmd.c:12-50 | the result has no `.`, no `..` and no empty part, and washing again changes nothing |
| Paths.SplitJoin | fs/fs.c:197-212 | splitting undoes joining |
| TreePaths.WashedDirectory | shell/buildin_cmd.c:12-50 | where a path leads to a directory, the washed path leads to the same one |
| TreePaths.WashedEntry | shell/buildin_cmd.c:12-50 | where all but the last name lead to a directory, both paths find the same entry |
| TreePaths.CwdIsWashedPath | fs/fs.c:791-838 | the path of the directory that a washed path leads to is that string |
| PathCode.SearchFile | fs/fs.c:234-299 | the walk of the names on the tree, the directory reached and the part of the path looked at |
| PathCode.Chdir | fs/fs.c:841-856 | the working directory changes exactly when the path names a directory |
| PathCode.ParentNr | fs/fs.c:734-745 | slot 1 of the first block is the parent, and the assertions hold |
| PathCode.ChildName | fs/fs.c:749-786 | the name under which the parent has the child |
| PathCode.GetCwd | fs/fs.c:791-838 | the loop ends and returns the path of the working directory, and fails exactly when it is longer than the buffer |
| PathCode.Reverse | fs/fs.c:829-835 | the reversal loop puts the names in order |
| PathCode.CdThenPwd | shell/buildin_cmd.c:69-102 | after `cd p`, `pwd` shows the washed p |
| SysCalls.PathDepth | fs/fs.c:215-231 | the number of names |
| SysCalls.SysMkdir | fs/fs.c:541-655 | it succeeds exactly when the last name is missing in an existing directory, and then the tree has the directory there, all of it valid exactly when no inode is lost; otherwise nothing changes |
| SysCalls.SysCreate | fs/fs.c:302-365 | the same for `sys_open` with O_CREAT, refused for a trailing slash and a full file table; the result is the lowest free descriptor, which refers to the lowest free slot, on the new inode, and -1 also when the file was made and no descriptor is free |
| SysCalls.SysOpen | fs/fs.c:302-365 | it opens exactly a file that the whole path names: the result is the lowest free descriptor, which refers to the lowest free slot, on that file's inode, and no other descriptor or slot changes; unless the path has one name, the file's directory stays open, also when there is no slot or descriptor |
| SysCalls.WholePathExactlyWhen | fs/fs.c:234-299 | the file a search ends at is the one that the whole path names exactly when no proper prefix of the names leads to a regular file |
| SysCalls.SysUnlink | fs/fs.c:490-538 | it deletes exactly a regular file that is found and not open, which is the one the whole path names exactly when no proper prefix leads to a regular file; it fails its assertion exactly for the root |
| SysCalls.SysRmdir | fs/fs.c:705-731 | for every path: it succeeds exactly on an empty directory, fails its assertion exactly for the root, and leaves a tree exactly unless the path ends in `.` on an empty directory |
| NameSpace.MakesNames | fs/fs.c:541-655 | after `mkdir` or a creating `open` the new name leads to the least free inode with its kind, every path that does not pass the new entry leads where it led, and every file has the bytes it had |
| NameSpace.DeletesNames | fs/fs.c:490-538 | after `unlink` or `rmdir` exactly the paths that passed the entry lead nowhere, all others lead where they led, and every other inode is what it was |
| NameSpace.GrowIsFound | fs/fs.c:571-630 | a new directory is found under every path to its parent followed by its name, and its dots lead to itself and that parent |
| NameSpace.RmdirUndoesMkdir | fs/fs.c:705-731 | `rmdir` undoes `mkdir` |
| NameSpace.UnlinkUndoesCreate | fs/fs.c:490-538 | a file that is made, closed and unlinked leaves tree, file table and open directories as they were |
| NameSpace.CloseUndoesOpen | fs/fs.c:376-393 | closing a file or a directory just opened leaves everything as it was |
| NameSpace.WriteNames | fs/file.c:226-415 | a write changes the bytes of that file, by appending or not at all, and no name and no other file |
| PathInputs.UnlinkBehindFile | fs/fs.c:490-538 | with a file `d` in the root, `unlink("/d/e")` succeeds and deletes `d` |
| PathInputs.RmdirByDot | fs/fs.c:705-731 | with an empty directory `d` in the root, `rmdir("/d/.")` succeeds and leaves no tree |
| InodeTable.FromToSlot | fs/inode.c:43-74 | an inode in 76 bytes is read back as it was written |
| InodeTable.StoreSlot | fs/inode.c:60-73 | storing a slot, in one sector or two, leaves every other slot as it was |
| InodeTable.StoreElsewhere | fs/inode.c:60-73 | and every other sector |
| InodeCache.CountInRuns | fs/inode.c:77-143 | in every run the count of an open inode is the number of times it was given out and not closed, and it leaves the list with the last |
| InodeCache.ReopenedExactlyWhen | fs/inode.c:43-143 | over every run from a formatted table: with no copy in memory an inode comes back as last synced exactly when its number is below 256 and no later sync had its low byte; with a copy in memory it does when the copies agreed at the sync and were not touched |
| InodeCache.SharedExactlyWhen | fs/inode.c:77-143 | after a sync, a copy in memory is what was synced in every continuation that leaves the number alone, exactly when no copy in memory differed at the sync |
| InodeCache.OneCopyExactlyWhen | fs/inode.c:77-126 | a call keeps one copy per number exactly when an open finds one or reads a number that is not in memory, and a push is of such a number |
| InodeCache.OneCopyInRuns | fs/inode.c:77-126 | over every run, one copy per number in all states exactly when all calls were such |
| InodeCache.DeadCopyReturns | fs/inode.c:77-126 | a directory deleted while it is open, and a file of its number: two copies, and after the file is synced and closed opening it gives the directory |
| InodeCache.Inode256IsLost | fs/inode.c:43-47 | inode 256 is made, written, synced and closed on a formatted table: opened again it is an erased inode, and the root is inode 256 |
| InodeCache.Cache.InodeOpen | fs/inode.c:77-126 | the first copy in the list with one more opening, or whatever the slot holds, pushed to the front |
| InodeCache.Cache.InodeClose | fs/inode.c:129-143 | one opening less, and removal with the last |
| InodeCache.Cache.InodeSync | fs/inode.c:43-74 | the slot of the low byte of the number gets the inode |
| InodeCache.Cache.InodeDelete | fs/inode.c:146-168 | the slot is cleared |
| InodeTable.WriteSlot | fs/inode.c:60-73 | read, splice and write back, in one sector or two, store exactly the slot |

## Left out

- Boot code, interrupt entry, port I/O, console, keyboard tables, printing and the shell's line editing: hardware or user interface.
- Disk timing and the controller: a sector is read or written in one step. Of the sectors before the data area only the inode table is modelled; super block and on-disk bitmaps are not.
- TLB effects, and reading a thread's pid after its page is unmapped: the pid is taken before.
- Widths: sums of a position or a size with a byte count stay below 2^32, as the contracts of reading and writing say; block addresses, pids and counts are unbounded integers otherwise.
- KernelPages.KernelMemory.MallocPage: the bit after the virtual page bitmap is set; `Bitmaps` and `VaddrGet` say what changes when it is not.
- UserFrames.Machine.MallocUser: the bit after the process's bitmap is set, as above.
- UserFrames.Machine.Fork: the kernel pages for the child's control block, directory, bitmap and the copy buffer are not counted, only its page tables.
- The `write_deny` flag and opening for writing: files are opened for reading or by their creation. Regular files shared across fork, whose slot the first close gives up: the pipe model has only pipes in descriptors from 3 on, and the file system one holder per slot.
- Directories that a call opens and closes again on its way: only the directory it works on is opened in the model.
- PipeCode.FileTable.SysPipe: there is a free slot in the file table; without one the code uses the -1 of the search as an index.
- Directories of 252 entries and more, names of more than 15 characters, and paths of several slashes only: the code does not handle them. What calls do after one has lost an inode, beyond the runs shown.
- The on-disk copy of the block bitmap, and the tail of the bitmap that formatting clears: only the bitmap in memory is claimed, and it is taken to end with the data area.
- The user heap: `sys_malloc` for a process uses the same code with its own lists, which fork does not carry over; the model is the kernel heap.
- The contents of heap blocks and the zeroing of pages: only addresses, sizes and pages are modelled.
- Copying of registers and kernel stacks, ELF loading and exec, signals of other kinds: register moves.
- Failure half way through a page allocation: `bitmap_scan` fails its assertion first, so the rollback that the code omits is never reached.
- Starvation of threads that block: delays are exact under timer ticks and after a yield or a wake-up, not under any calls of other threads in between.
- Kernel.Enabled: a thread releases only locks it holds and exits holding none, as the kernel's callers do; the pid lock is taken to be free.
- WaitSlots.StepKeeps: the queue's lock is seen through its property of having at most one owner; the order in which lock waiters are woken is any order.
- Lists.List.Pop: the list is not empty, as every caller ensures; on an empty list the code follows the null pointer of the tail.
- FsRuns.Format: the bitmaps are those in memory; their copies on disk and the super block are not written.
