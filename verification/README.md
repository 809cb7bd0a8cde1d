# Vamos OS kernel: a verified model

A Dafny model of the parts of the kernel that hold state: the round-robin
scheduler with its two block pools, threads and context switch, the mutex, the
physical page allocator, and the console (keyboard ring, scrolling text screen,
line editor, tokenizer, decimal conversions).

## How it is built

Each part comes in two forms. A specification on values (datatypes and
functions) says what an operation does; the properties are lemmas about it, most
of them over whole runs. The code itself is a class or a method that updates its
fields and arrays in place and is proved to compute the specification.

| code, in place | specification and properties |
|---|---|
| `Scheduler` (linked blocks, `enqueue`/`dequeue` walks, `schedule`, create, exit, kill, mutex lists) | `KernelState`, `KernelInvariant`, `KernelRuns`, `KernelFairness`, `KernelExits`, `KernelBlocks`, `KernelLocks`, `KernelWitness`, `RunQueue` |
| `PhysicalMemory.PageAllocator` (packed 32-bit words, cached count) | `PageSet`, `Bitmap`, `PhysicalMemory` |
| `Keyboard.Driver` (256-byte ring) | `Keyboard` |
| `Vga.Terminal` (2000 cells, row, column, colour) | `Console` |
| `Shell` (line buffer, in-place NULs, digit loops) | `LineEditor`, `Tokens`, `Decimal` |

`MutexSteps` is a second model of the mutex, one memory access per step, with timer
switches anywhere; `MutexTimer` says which of those switches do harm.

Integer widths that matter are written out: addresses of the memory map, pids and
tids, the pid that `killprocess` reads and the ring indices wrap as in the C code.
C strings are values without their NUL, except in `Shell`, where they sit in
arrays with it.

## Hypotheses

The run properties of the scheduler hold for runs whose operations are `Allowed`
(module `KernelInvariant`), which writes down:

- idle never exits, is never removed, and never locks; it is also the boot and
  shell context (`src/scheduler.c:100`);
- only threads lock (`src/mutex.c:22`); a thread inside `mutex_lock` does nothing
  else until the call returns;
- `killprocess` and `thread_delete` targets are not the current block, not idle, on
  no mutex wait list, and not the last woken thread still to retry a free mutex that
  has waiters left;
- pid and tid counters do not wrap;
- running code does not write another block's stack page;
- page clients free only what they were given (the kernel operations do this by
  proof, not by hypothesis).

The failed branch of `mutex_lock` and the body of `mutex_unlock` are single steps
in `KernelState`. The TCB pool counts as dead until its first use
(`src/thread.c:13-21`). `vga_set_cursor` is called with a cell of the screen.

## Where the code falls short of what it is for

Each of these is proved, with the exact condition where there is one.

- `MutexTimer.TimerIsSafeExactlyWhen`: a timer switch between the failed xchg of
  `mutex_lock` and its call of `schedule()` can leave a thread blocked for ever, and
  one between the test of the wait list in `mutex_unlock` and the store of the new
  head can lose a waiter or follow a null one. Everywhere else a switch is harmless.
- `PhysicalMemory.EntryIsExactWhenHarmless`: a map entry whose end reaches 4 GiB
  wraps and loses its pages.
- `PhysicalMemory.KernelIsProtectedExactlyWhen`: a kernel end above 0xFFFFF000 rounds up
  to 0 pages in 32 bits, and then nothing of the kernel is protected.
- `PhysicalMemory.WalkEndsExactlyWhen`: the memory map walk ends if and only if it
  meets no address twice on the way. It can revisit itself for ever although no
  `size + 4` wraps, because entry addresses can (`PhysicalMemory.WalkMayNotEnd`).
- `PageSet.FreeIsSafeExactlyWhen`: freeing NULL makes page 0 allocatable.
- `KernelRuns.KillIsSafeExactlyWhen`, `KernelRuns.DeleteIsSafeExactlyWhen` and
  `KernelRuns.ExitIsSafeExactlyWhen`: which removals break the kernel's invariant.
  Besides the current block, idle and a queued waiter this is the thread that an
  unlock has woken and that alone would have retried: with it gone the other waiters
  sleep beside a free mutex (`KernelWitness.LastRetrierIsReachable` gives a run).
- `Shell.ArgumentHitsAThreadExactlyWhen`: `killprocess` removes a thread instead of a
  process exactly when the number its argument starts with is a multiple of 2^32,
  because threads have pid 0: no number at all, 0, or 2^32 (`Shell.ReadsAsZero`).
  A nonzero uint32 kills the process with that number (`Shell.NumberKillsItsProcess`).
- `Console.UptimeIsWholeExactlyWhen`: the status bar cuts the uptime off from
  100000 seconds on.

Where comments and code differ the model follows the code: the run queue is
called circular (`src/scheduler.c:11`) but is a NULL-terminated list, and a new
stack holds only the entry address, no register frame (`src/scheduler.c:113-125`).

## Model

| member | source | states |
|---|---|---|
| `KernelFairness.Fairness` | src/scheduler.c:138-168 | Round-robin fairness over every lawful run: a READY block that is not taken off the queue becomes current within (circular distance + blocks created meanwhile + one round per exit) calls of schedule(), whatever the others do |
| `KernelExits.FairnessDespiteExits` | src/scheduler.c:138-187 | The same without regard to exits: a READY block that is not taken off the queue becomes current within (circular distance + blocks created meanwhile + p(p+1)/2) calls of schedule(), p its index on the queue, however many other blocks exit |
| `KernelExits.StepLowersRank` | src/scheduler.c:138-187 | The ranking function behind that: distance plus what exits may still add falls by one with every call, rises by one per block made, and no exit raises it |
| `KernelExits.ReachedHasIdleFirst` | src/scheduler.c:95-101 | In every reachable state idle is the head of the queue |
| `KernelFairness.OneRoundReachesEveryReadyBlock` | src/scheduler.c:138-168 | While only the timer runs, every READY block is dispatched within one tick per block on the queue |
| `KernelFairness.ScheduleTakesNearestReady` | src/scheduler.c:141-165 | schedule() switches to the first READY block in circular order after the current one; it stays exactly when current is idle and nothing is READY |
| `KernelFairness.SearchIsCircular` | src/scheduler.c:141-151 | The block found is READY, is reached by following its distance in links with the wrap to the head, and nothing met before it is READY |
| `KernelFairness.StepBringsNearer` | src/scheduler.c:57-66 | Ranking function: no operation moves a READY block farther than one link per creation (or a round per exit), and every call of schedule() brings it at least one link nearer or dispatches it |
| `KernelFairness.ScheduleApproaches` | src/scheduler.c:138-168 | One call of schedule() keeps the queue and either dispatches a READY block or leaves it READY and strictly nearer |
| `KernelFairness.DistanceInverts` | src/scheduler.c:141-150 | Distance and the block that many links ahead are inverse to each other on a duplicate-free queue |
| `KernelFairness.RemovalNeverDelays` | src/scheduler.c:68-80 | Taking another block off the queue never moves a block farther away |
| `KernelFairness.AppendDelaysByOne` | src/scheduler.c:57-66 | A block joining at the tail delays any other by at most one link |
| `KernelRuns.ReachedKeepsInv` | src/scheduler.c:106-187 | Every state reached from scheduler_init satisfies the whole invariant |
| `KernelRuns.RunKeepsInv` | src/scheduler.c:57-80 | Over every lawful run: the queue holds exactly the non-DEAD PCBs and TCBs once each, one block RUNNING and it is current, stacks, names, wait lists and saved contexts stay as they must |
| `KernelInvariant.StepKeepsInv` | src/scheduler.c:106-187 | Every operation keeps that invariant: create, block, wake, tick, exit, kill, delete, slot reuse |
| `KernelRuns.BootEstablishesInv` | src/scheduler.c:84-104 | scheduler_init fails exactly when no page can be allocated and otherwise establishes the invariant |
| `KernelInvariant.SearchFinds` | src/scheduler.c:153-157 | The search finds a READY block whenever current is not idle, so the idle fallback's assignment is never needed |
| `KernelInvariant.DispatchEffect` | src/scheduler.c:161-167 | A switch changes the states of two blocks and one stored stack pointer and nothing else |
| `KernelInvariant.DispatchKeepsRoles` | src/scheduler.c:161-165 | After a switch exactly the block entered is RUNNING and idle is READY unless it is the one |
| `KernelInvariant.DispatchKeepsContexts` | src/context_switch.asm:23-29 | A switch leaves every block that is not current resumable: its slot holds what was last stored or its untouched entry frame |
| `KernelInvariant.ScheduleKeepsCore` | src/scheduler.c:138-168 | schedule() keeps all of the invariant and seats a RUNNING current block even when its caller has just blocked itself |
| `KernelInvariant.CreateKeepsInv` | src/scheduler.c:106-136 | create_process keeps the invariant, with a fresh pid and a fresh page |
| `KernelInvariant.NewKeepsInv` | src/shell.c:283-287 | newprocess keeps it although the process is BLOCKED at once |
| `KernelInvariant.SpawnKeepsInv` | src/thread.c:33-59 | create_thread keeps it, first use of the TCB pool included |
| `KernelInvariant.DeadTcbIsFree` | src/thread.c:23-31 | The TCB that alloc_tcb picks is on neither the queue nor any wait list |
| `KernelInvariant.EnsureTcbPoolKeepsInv` | src/thread.c:13-21 | Marking the static TCB pool dead on first use changes no live block |
| `KernelInvariant.ExitKeepsInv` | src/scheduler.c:174-187 | process_exit keeps the invariant when the caller is not idle and no waiters depend on it alone |
| `KernelInvariant.ExitIsSwitchThenRetire` | src/scheduler.c:174-187 | process_exit is a switch to idle followed by the removal of the block left |
| `KernelInvariant.ExitViaRetire` | src/scheduler.c:181-186 | The zero stored in the dying block's stack pointer is overwritten by context_switch |
| `KernelInvariant.KillKeepsInv` | src/shell.c:169-176 | killprocess keeps the invariant for a removable target |
| `KernelInvariant.DeleteKeepsInv` | src/thread.c:66-82 | thread_delete keeps it for a removable target |
| `KernelInvariant.RetireKeepsStacks` | src/shell.c:172-176 | Removing a block returns its page while the others go on owning theirs, pairwise distinct and marked used |
| `KernelInvariant.RetireKeepsNoStranded` | src/shell.c:172-174 | Removing a woken thread strands no waiter as long as another one is about to retry |
| `KernelInvariant.StoreKeepsInv` | src/scheduler.c:117-125 | Stores outside the other blocks' stack pages disturb no saved context |
| `KernelInvariant.ParkKeepsWaitLists` | src/mutex.c:17-26 | The failed attempt puts the thread on that lock's list, once, and on no other |
| `KernelInvariant.ParkKeepsNoStranded` | src/mutex.c:17-29 | It strands nobody: the lock word stays 1 |
| `KernelInvariant.TakeKeepsInv` | src/mutex.c:16-17 | A successful attempt, also one that barges in before a woken thread retries, keeps the invariant |
| `KernelInvariant.UnlockKeepsWaitLists` | src/mutex.c:32-41 | Unlock takes exactly one thread off exactly one list |
| `KernelInvariant.UnlockKeepsNoStranded` | src/mutex.c:32-41 | No stranded waiter: with the word 0 and a waiter left, some woken thread is still in the loop about to retry |
| `KernelInvariant.UnlockKeepsInv` | src/mutex.c:32-41 | mutex_unlock keeps the whole invariant |
| `KernelRuns.WaitEndsByUnlock` | src/mutex.c:16-41 | One step ends a wait in mutex_lock only by being the unlock that pops that very thread |
| `KernelRuns.WaitLastsUntilUnlock` | src/mutex.c:19-28 | In every run without an unlock of that mutex a blocked thread stays blocked, listed and off the processor |
| `KernelLocks.WordTellsTheCalls` | src/mutex.c:16-41 | Over every lawful run a lock word is 1 exactly when the latest mutex_lock of that lock to return came after its latest mutex_unlock; returning is seen from the caller going on, not from the word |
| `KernelLocks.WordTellsTheCallsSinceBoot` | src/mutex.c:11-41 | From scheduler_init on no lock counts as held before a mutex_lock has returned |
| `KernelLocks.StepFollowsCalls` | src/mutex.c:16-41 | Every step moves each word as the calls that return say |
| `KernelLocks.StepOnWord` | src/mutex.c:5-33 | An attempt leaves its word 1, failed or not, an unlock leaves it 0, with or without waiters, and no other operation on this or another lock changes it |
| `KernelLocks.AttemptReturnsExactlyWhen` | src/mutex.c:16-30 | mutex_lock returns to its caller at once exactly when the word was 0 |
| `KernelLocks.TakenUntilReleased` | src/mutex.c:16-33 | Mutual exclusion over kernel runs: once a mutex_lock has returned, no mutex_lock of that mutex returns before the next mutex_unlock |
| `KernelLocks.ReleasedLockIsTaken` | src/mutex.c:16-41 | After mutex_unlock, with or without waiters and whatever runs meanwhile, the first thread to try that mutex gets it: the word is 1, it stays current and RUNNING, and it is in no retry loop |
| `KernelRuns.RunConserves` | src/scheduler.c:106-136 | Over every run, free pages plus live blocks is constant |
| `KernelRuns.StepConserves` | src/scheduler.c:174-181 | Every single operation keeps that sum |
| `KernelRuns.FailedCreateChangesNothing` | src/scheduler.c:106-111 | create_process fails exactly when all 64 slots are live or no page can be allocated, and then changes nothing |
| `KernelRuns.FailedSpawnChangesNothing` | src/thread.c:33-38 | The same for create_thread, up to the marking of the untouched TCB pool |
| `KernelRuns.KillIsSafeExactlyWhen` | src/shell.c:163-183 | killprocess keeps the invariant if and only if its target, if any, is not current, not idle, on no wait list, and not the last woken thread to retry a free mutex with waiters left |
| `KernelRuns.DeleteIsSafeExactlyWhen` | src/thread.c:66-82 | The same if and only if for thread_delete |
| `KernelRuns.ExitIsSafeExactlyWhen` | src/scheduler.c:174-187 | process_exit keeps it if and only if the caller is neither idle nor the last woken thread to retry a free mutex with waiters left |
| `KernelRuns.KillRemovesExactly` | src/shell.c:169-181 | The pid of a live process makes killprocess remove that process and no other block, safely exactly when it is neither current nor idle |
| `KernelRuns.KillHitsAThreadExactlyWhen` | src/shell.c:169-176 | A pid is found exactly when a live block has it, and the block found is a thread exactly when the pid is 0 |
| `KernelRuns.NonzeroPidKillsItsProcess` | src/shell.c:169-181 | A nonzero pid kills the one process that has it and no other block, or changes nothing |
| `KernelWitness.LastRetrierIsReachable` | src/mutex.c:16-41 | A reachable state of three threads in which one woken thread alone would retry a free mutex with a waiter left |
| `KernelRuns.EveryLoadIsRight` | src/context_switch.asm:19-29 | In every reachable state each loaded ESP was set by the block's own previous event: its creation, and then this is its first dispatch, the return goes to its entry function and leaves ESP at the end of a page, or its most recent switch-out; idle is only resumed where it left off |
| `KernelRuns.NothingIsResumedTwice` | src/context_switch.asm:23-29 | Between two loads of one block it was switched out, or its slot was filled anew |
| `KernelRuns.LoadsAreJustified` | src/context_switch.asm:23-29 | The log invariant read at any position |
| `KernelBlocks.FirstDispatchHasAWholePage` | src/scheduler.c:113-130 | Every switch of every run loads the stack pointer of the block entered; on its first dispatch control goes to its entry function with the stack pointer at stack_base + 4096, and the 4096 bytes below are no other live block's |
| `KernelBlocks.CreatedProcess` | src/scheduler.c:106-136 | A process made takes the lowest dead PCB and the lowest free page, the next pid, READY and the priority given; esp + 4 is stack_base + 4096, the word there is the entry address, it joins the queue's tail, and nothing else changes |
| `KernelBlocks.CreatedBlocked` | src/shell.c:283-287 | A process made by newprocess is the same with priority 1, but BLOCKED |
| `KernelBlocks.CreatedThread` | src/thread.c:33-59 | A thread made takes the lowest dead TCB and the lowest free page, the next tid, pid 0, READY, its parent's priority or 1; esp + 4 is stack_base + 4096, the word there is the entry address, and it joins the queue's tail |
| `KernelBlocks.PickedPcb` | src/scheduler.c:31-45 | Any dead PCB makes alloc_pcb succeed; one with pid 0 is preferred, and among equals the lowest |
| `KernelBlocks.NewProcessNeverRuns` | src/shell.c:275-287 | A process made by newprocess is live and BLOCKED on no wait list, and in every lawful run from there, as long as it stays on the queue, it is still BLOCKED on no wait list, never current, and its stack pointer is never loaded or saved |
| `KernelBlocks.DormantForEver` | src/scheduler.c:141-165 | The same of any block that is BLOCKED on no wait list |
| `KernelBlocks.KillRemoves` | src/shell.c:169-181 | The first block on the queue with that pid, and no other, leaves it; its own page comes back and its slot is DEAD and names neither page nor pid |
| `KernelBlocks.DeleteRemoves` | src/thread.c:66-82 | The same for the live thread with that tid, which its slot forgets |
| `KernelBlocks.ExitRemoves` | src/scheduler.c:174-187 | The same for the caller of process_exit, with idle RUNNING and current instead |
| `KernelBlocks.NoPageIsNamedTwice` | src/scheduler.c:174-187 | In every reachable state no two slots, live or dead, name one stack page, and none names a free one |
| `RunQueue.Append` | src/scheduler.c:57-66 | Writing the tail's link appends to the list the links spell |
| `RunQueue.Unlink` | src/scheduler.c:68-80 | The link writes of dequeue remove exactly that node, at the head or after its predecessor |
| `RunQueue.ChainIsUnique` | src/scheduler.c:57-80 | The links spell one queue only: finite, without repetition, NULL-terminated |
| `RunQueue.RotationIsCircuit` | src/scheduler.c:141-151 | Following next with the wrap to the head visits the rotation that starts after the current block and then starts over |
| `RunQueue.FirstReadyAt` | src/scheduler.c:147-151 | Where the walk stops is the first READY block of the order, or there is none |
| `RunQueue.PushKeepsChains` | src/mutex.c:24-25 | Pushing on one wait list leaves every wait list a proper chain |
| `RunQueue.PopKeepsChains` | src/mutex.c:36-38 | So does popping |
| `Scheduler.Kernel.constructor` | src/scheduler.c:8-16 | The zero-filled statics are the all-zero state |
| `Scheduler.Kernel.SchedulerInit` | src/scheduler.c:84-104 | The in-place code boots exactly as specified, or fails exactly when the specification does |
| `Scheduler.Kernel.Enqueue` | src/scheduler.c:57-66 | The walk to the tail and the two stores append the block to the queue |
| `Scheduler.Kernel.Dequeue` | src/scheduler.c:68-80 | The walk and its stores remove the block wherever it is, or nothing |
| `Scheduler.Kernel.NextReady` | src/scheduler.c:142-151 | The pointer walk terminates and returns the first READY block in circular order, or NULL when there is none |
| `Scheduler.Kernel.Schedule` | src/scheduler.c:138-168 | The code computes the specified new state, and leaves with the stack pointer of the block entered; before scheduler_init it changes nothing |
| `Scheduler.Kernel.ContextSwitch` | src/context_switch.asm:19-29 | ESP into the old block, ESP from the new one |
| `Scheduler.Kernel.AllocPcb` | src/scheduler.c:31-45 | Two passes: a DEAD slot with pid 0 first, then any DEAD slot, else NULL |
| `Scheduler.Kernel.CreateProcess` | src/scheduler.c:106-136 | Same new state and result as the specification (`KernelBlocks.CreatedProcess` says it in numbers), both failures included; in the block itself READY and esp + 4 == stack_base + 4096 |
| `Scheduler.Kernel.NewProcess` | src/shell.c:283-287 | create_process and the immediate BLOCKED, which `KernelBlocks.NewProcessNeverRuns` follows over runs; the block returned is the one created, or NULL, and its state field is BLOCKED |
| `Scheduler.Kernel.AllocTcb` | src/thread.c:23-31 | First DEAD entry of the pool after its initialisation |
| `Scheduler.Kernel.CreateThread` | src/thread.c:33-59 | Same new state and result as the specification (`KernelBlocks.CreatedThread` says it in numbers); in the block itself READY and esp + 4 == stack_base + 4096 |
| `Scheduler.Kernel.ProcessExit` | src/scheduler.c:174-187 | Same new state; control leaves on idle's saved stack pointer |
| `Scheduler.Kernel.KillProcess` | src/shell.c:169-183 | The first block on the queue with that pid is removed; found exactly when there is one |
| `Scheduler.Kernel.ThreadDelete` | src/thread.c:66-82 | The live thread with that tid is removed; 1 is returned exactly when there is one |
| `Scheduler.Mutex.TestAndSet` | src/mutex.c:5-9 | Stores 1, returns what was there |
| `Scheduler.Kernel.LockOnce` | src/mutex.c:16-30 | One pass of the loop: the word is 1 afterwards, acquired exactly when it was 0; otherwise blocked, pushed and rescheduled |
| `Scheduler.Kernel.Release` | src/mutex.c:32-41 | The lock word is 0 afterwards whether or not anybody waits (`KernelLocks.ReleasedLockIsTaken` follows it over runs), and the first waiter, if any, is popped and READY |
| `MutexSteps.MutualExclusion` | src/mutex.c:5-33 | For any number of threads and every interleaving with switches between any two instructions: at most one thread between its successful test_and_set and its `lock = 0`, and the word is 1 exactly when there is one |
| `MutexSteps.ActKeepsExclusive` | src/mutex.c:16-41 | Every instruction and every timer switch keeps that |
| `MutexSteps.HoldersChangeOnlyAtTheWord` | src/mutex.c:18-40 | No instruction but the xchg and the releasing store changes the word or who holds it |
| `MutexSteps.LostWakeup` | src/mutex.c:17-41 | With the timer anywhere a waiter can be stranded: a concrete run of two threads |
| `MutexTimer.TimerIsSafeExactlyWhen` | src/mutex.c:16-41 | If the timer may switch at least between calls, before an xchg and inside the critical section: no run of any number of threads strands a waiter or follows a null one if and only if it never switches at one of seven other positions |
| `MutexTimer.ListIsExact` | src/mutex.c:16-41 | With the timer at the harmless positions: the list visits each thread on it once and stops, and holds exactly the blocked threads, but for the current one while it joins and those taken off and about to be woken; a free lock with waiters has a thread that can run and will retry or wake one |
| `MutexTimer.RestingSwitchesStrandNobody` | src/mutex.c:16-41 | With the timer out of the failed attempt and the unlock altogether: at rest the list holds each blocked thread once and no other, and a free lock with waiters has an unblocked thread about to retry |
| `MutexTimer.AttemptRun` | src/mutex.c:19-26 | A run with a switch at any of the four positions inside the failed attempt ends with a thread blocked on a free lock and nobody to wake it |
| `MutexTimer.NullWaiterRun` | src/mutex.c:35-36 | A run with a switch between the test of the list and the load of its head follows a null waiter |
| `MutexTimer.LostHeadRun` | src/mutex.c:36-37 | A run with a switch between that load and the store of the new head drops a thread from the list for ever |
| `MutexTimer.StepKeepsSettled` | src/mutex.c:16-41 | Every memory access and every harmless switch keeps the invariant behind that, with the list changed on the way |
| `PageSet.AllocIsFresh` | src/pmm.c:93-106 | NULL exactly when no free page lies below 32*floor(total/32); otherwise an aligned, nonzero, previously free page leaves the set and the count drops by one |
| `PageSet.LowestFrom` | src/pmm.c:94-103 | The page chosen is the lowest free one in range |
| `PageSet.AllocIsLowest` | src/pmm.c:93-106 | What is handed out is the lowest free page, provided its 32-page word lies below the total; NULL exactly when every free page is in a last partial word |
| `PageSet.PageIsHandedOutOnce` | src/pmm.c:93-106 | In every run of allocs and frees a page is not handed out again before it is freed |
| `PageSet.FreeUndoesAlloc` | src/pmm.c:108-117 | Freeing what was just allocated restores the allocator exactly |
| `PageSet.FreeAddsOne` | src/pmm.c:108-117 | Returning a used page in range adds exactly one page |
| `PageSet.FreeChangesExactlyWhen` | src/pmm.c:108-117 | The set changes exactly for the address of a used page below the total, and by that page |
| `PageSet.FreeIsSafeExactlyWhen` | src/pmm.c:108-117 | Page 0 stays out of the free set if and only if NULL is not freed (or there are no pages) |
| `Bitmap.MarkRemoves` | src/pmm.c:18-20 | Setting a bit takes exactly that page out of the free set |
| `Bitmap.UnmarkAdds` | src/pmm.c:22-24 | Clearing a bit adds exactly that page |
| `Bitmap.OnlyFullHasAllBits` | src/pmm.c:95 | Only 0xFFFFFFFF has all 32 bits set |
| `Bitmap.FullWordMeansUsed` | src/pmm.c:95 | A word is 0xFFFFFFFF exactly when its 32 pages are used |
| `PhysicalMemory.EntryIsExactWhenHarmless` | src/pmm.c:61-74 | An entry frees exactly the pages wholly inside its region if and only if its 32-bit arithmetic is harmless |
| `PhysicalMemory.InitComputesAvailablePages` | src/pmm.c:38-91 | For harmless maps a page is free afterwards iff it is below the total, at or above the kernel's page count and wholly inside an available entry with addr_high 0; order and overlap do not matter |
| `PhysicalMemory.InitLeaves` | src/pmm.c:38-91 | In bytes, for harmless maps: a page is free after pmm_init exactly when it is below the total, lies wholly inside an available entry and starts at or above kernel_end; the last condition is dropped exactly when kernel_end is above 0xFFFFF000 |
| `PhysicalMemory.TotalIsMemorySize` | src/pmm.c:43-51 | In bytes: a page is below the total exactly when it ends within 256 MiB and, if mem_upper is given, within 1 MiB + mem_upper KiB taken modulo 2^32 KiB |
| `PhysicalMemory.KernelIsProtectedExactlyWhen` | src/pmm.c:82-90 | No page that starts below kernel_end is free if and only if kernel_end is at most 0xFFFFF000, or no available page is below the total at all |
| `PhysicalMemory.MapIsReadBack` | src/pmm.c:54-79 | Entries laid out one after another, each at its own size plus 4 from the last, are read back by the walk exactly and in order, and the walk ends |
| `PhysicalMemory.WrappedEndLosesPages` | src/pmm.c:67 | An entry ending at 4 GiB frees nothing |
| `PhysicalMemory.InitIsSound` | src/pmm.c:82-90 | With the kernel loaded at 1 MiB page 0 is never free |
| `PhysicalMemory.WalkEndsExactlyWhen` | src/pmm.c:60-79 | The walk ends if and only if it meets no address twice before the end; and if and only if it has ended after as many entries as the end address |
| `PhysicalMemory.WalkEndsWithoutWrap` | src/pmm.c:60-79 | So it ends whenever no entry met carries it past 32 bits |
| `PhysicalMemory.WalkMayNotEnd` | src/pmm.c:77-78 | `size + 4` not wrapping is not enough: a map on which the walk meets an address twice and never ends |
| `PhysicalMemory.PageAllocator.Init` | src/pmm.c:38-91 | The bitmap loops compute that set, with the cached count equal to the clear bits; on harmless maps the free pages are those below the total, wholly inside an available entry and at or above kernel_end, in bytes |
| `PhysicalMemory.PageAllocator.WalkMap` | src/pmm.c:54-80 | The variable-stride walk frees what its entries pick |
| `PhysicalMemory.PageAllocator.FreeRegion` | src/pmm.c:61-75 | The region loop frees exactly the pages the entry picks below the total and counts each once |
| `PhysicalMemory.PageAllocator.ProtectKernel` | src/pmm.c:83-90 | The kernel's pages leave the set; the count is positive whenever it is decremented, so its guard never decides |
| `PhysicalMemory.PageAllocator.FirstClear` | src/pmm.c:96-98 | A word other than 0xFFFFFFFF always yields its lowest free page |
| `PhysicalMemory.PageAllocator.AllocPage` | src/pmm.c:93-106 | The word-skipping search computes the lowest-free specification |
| `PhysicalMemory.PageAllocator.FreePage` | src/pmm.c:108-117 | Misaligned, out-of-range and already free pages change nothing |
| `PhysicalMemory.PageAllocator.FreePageCount` | src/pmm.c:119-121 | The cached count is the size of the free set |
| `Keyboard.DeliversInOrder` | src/keyboard.c:193-219 | With handler runs between any two steps of the reader: delivered characters are a prefix of the accepted ones, in order, none lost or repeated, the rest is held, and at most 255 are held |
| `Keyboard.KeyIsEnqueue` | src/keyboard.c:193-204 | A handler run appends its character exactly when it has one and fewer than 255 are held |
| `Keyboard.ReadIsDequeue` | src/keyboard.c:214-219 | A reader step answers nothing, or 0 with nothing held, or removes and answers the oldest character |
| `Keyboard.OnlyAFullRingDrops` | src/keyboard.c:198-204 | In every run in which no key meets 255 held characters, everything typed is accepted in order |
| `Keyboard.ShiftIsTheLatestCode` | src/keyboard.c:179-188 | After any run shift is held exactly when the latest of the codes 0x2A, 0x36, 0xAA and 0xB6 in it is 0x2A or 0x36, and is as at the start when there is none |
| `Keyboard.LettersFollowTheShiftKeys` | src/keyboard.c:179-203 | A letter key after any run, with room in the ring, is accepted as the capital when the latest shift code is a press and as the small letter otherwise |
| `Keyboard.PushAppends` | src/keyboard.c:199-203 | On the indices: push appends, and is refused exactly at 255 |
| `Keyboard.AdvanceRemovesFirst` | src/keyboard.c:216-217 | On the indices: the load and the store take the oldest character |
| `Keyboard.TablesAreTypable` | src/keyboard.c:20-166 | Both tables have 128 entries, each 0 or printable, newline, tab or backspace |
| `Keyboard.ShiftChangesTheCharacterOnly` | src/keyboard.c:179-196 | Exactly the shift, control and function keys, the break codes and the unused codes type nothing, with and without shift; shift makes letters capitals |
| `Keyboard.EveryCharacterHasAKey` | src/keyboard.c:20-166 | Every printable ASCII character, newline, tab and backspace is typed by some key |
| `Keyboard.Driver.KeyboardHandler` | src/keyboard.c:175-205 | The handler in place: 0x2A and 0x36 set shift, 0xAA and 0xB6 clear it, nothing else touches it, and the ring is as specified |
| `Keyboard.Driver.KeyboardGetchar` | src/keyboard.c:214-219 | 0 exactly when nothing is held, otherwise the oldest character leaves |
| `Console.ScreenIsWindow` | src/vga.c:137-178 | Over every run of characters, colours, cursor moves, clears and status bars: rows 1-24 are the last 24 rows of the page that never scrolls, the cursor agrees, and row 0 is what the status bar last drew |
| `Console.PutShows` | src/vga.c:153-178 | One character keeps the screen a window onto the page, leaves row 0 alone and the cursor in rows 1-24, columns 0-79 |
| `Console.LandShows` | src/vga.c:137-149 | Scrolling the screen is growing the page by one blank row |
| `Console.HistoryIsKept` | src/vga.c:137-178 | The page never shrinks, and rows that have left the window are never rewritten (backspace is clamped at the top visible row) |
| `Console.PlainTextLands` | src/vga.c:170-174 | Text without control characters lands in order from the cursor on, across any number of wraps and scrolls |
| `Console.LinesLandOnTheirRows` | src/vga.c:153-178 | Lines of fewer than 80 characters printed from the start of a row take one row each, in order, across any number of scrolls |
| `Console.NewlineEndsTheRow` | src/vga.c:157-159 | A newline goes to column 0 of the next row, added blank in the current colour when there is none, and touches no text |
| `Console.ReturnGoesToTheMargin` | src/vga.c:160-161 | A carriage return goes to column 0 of the same row and touches nothing |
| `Console.BackspaceTakesBack` | src/vga.c:162-169 | A backspace after any other character puts the cursor back and leaves a space, across rows too |
| `Console.PrintIsARun` | src/vga.c:180-182 | vga_print is a run of the screen, so all run properties hold of printed text |
| `Console.PrintColorIsARun` | src/vga.c:184-189 | So is vga_print_color, with the colour set before and the old one set again after |
| `Console.BlankScreenShowsBlankPage` | src/vga.c:123-133 | vga_init shows a page of 24 blank rows |
| `Console.UptimeIsWholeExactlyWhen` | src/vga.c:88-108 | Row 0 shows the name, and the whole uptime if and only if it is below 100000 seconds |
| `Console.UptimeIsReadBack` | src/vga.c:83-109 | Below 100000 seconds row 0 reads UP: , digits and s from column 70 on, and the number those digits stand for is the whole seconds of 100 ticks; between name and uptime it is blank |
| `Vga.Terminal.constructor` | src/vga.c:123-133 | The whole screen blank, row 0 included |
| `Vga.Terminal.PutChar` | src/vga.c:153-178 | The in-place code computes the specified character step |
| `Vga.Terminal.Scroll` | src/vga.c:137-149 | The cell-by-cell copy moves rows 2-24 up and blanks the last one in the current colour, cursor at its start |
| `Vga.Terminal.Clear` | src/vga.c:113-121 | Every cell of rows 1-24 blank in the current colour, cursor at row 1, column 0, row 0 kept |
| `Vga.Terminal.Print` | src/vga.c:180-182 | One character after another |
| `Vga.Terminal.PrintColor` | src/vga.c:184-189 | The text in that colour, and the old colour restored |
| `Vga.Terminal.PrintAt` | src/vga.c:72-76 | The text laid over one row, cut off at its right edge, nothing else touched |
| `Vga.Terminal.FormatUptime` | src/vga.c:93-106 | The digits fit the 8-byte and the text the 16-byte buffer, for every tick count |
| `Vga.Terminal.DrawStatusbar` | src/vga.c:83-109 | Row 0 as specified, rows 1-24 and the cursor untouched |
| `LineEditor.LineAndPageAgree` | src/shell.c:394-423 | After any stream of keys, with the status bar redrawn anywhere in between, the page holds exactly the edited line after the prompt, the cursor just behind it, and everything before the prompt's end is untouched, across wraps and scrolls |
| `LineEditor.InputsAgree` | src/shell.c:394-423 | The same from any point of the line on |
| `LineEditor.InputsShow` | src/shell.c:394-423 | Rows 1-24 go on showing that page, and row 0 the latest status bar |
| `LineEditor.OnlySpacesFollow` | src/vga.c:153-178 | Only spaces follow the cursor in every run without carriage returns and cursor moves |
| `LineEditor.ErasingUndoesTyping` | src/shell.c:418-422 | As many backspaces as characters typed restore the line |
| `LineEditor.TypingAppends` | src/shell.c:420-423 | Text without backspaces is appended up to 255 characters and what exceeds them is ignored |
| `Shell.CommandLine.EditKey` | src/shell.c:418-423 | The line in memory and the screen take one key as specified |
| `Shell.CommandLine.Enter` | src/shell.c:409-413 | The line is terminated and parsed into its first 16 words, and a new line begins |
| `Shell.Parse` | src/shell.c:360-376 | argv holds exactly the first 16 maximal words, each NUL-terminated and intact at the end; only spaces were overwritten |
| `Shell.WordTaken` | src/shell.c:369-373 | Terminating one word in place leaves all earlier ones intact and the rest of the words still to come |
| `Tokens.WordsOfJoin` | src/shell.c:360-376 | Parsing words joined by single spaces gives them back |
| `Tokens.ReparsingGivesTheWordsBack` | src/shell.c:366-374 | So does parsing again the first words of any line |
| `Tokens.WordsSplitAtSpace` | src/shell.c:368-374 | A space anywhere separates the words before it from those after it |
| `Tokens.WordIsOneWord` | src/shell.c:372 | A text without spaces is one word |
| `Tokens.WordsKeepTheInk` | src/shell.c:368-374 | The words carry every non-space character, in order |
| `Shell.StrCmp` | src/shell.c:15-18 | 0 exactly for equal strings, negative exactly in dictionary order |
| `Shell.FindCommand` | src/shell.c:347-354 | The entry of the table whose name is argv[0], found exactly when there is one |
| `Shell.Itoa` | src/shell.c:27-34 | The decimal digits of every uint32, NUL-terminated, within 12 bytes |
| `Decimal.Collect` | src/shell.c:30 | The digit loop terminates with the digits, last one first |
| `Decimal.TurnRound` | src/shell.c:32 | They are turned round in the buffer |
| `Decimal.ValueOfDigits` | src/shell.c:27-34 | The digits stand for the number |
| `Decimal.DigitsAreFew` | src/shell.c:29 | A number has at most k digits if and only if it is below 10^k |
| `Shell.ReadPid` | src/shell.c:165-167 | The loop reads the number at the start of its argument, modulo 2^32 |
| `Shell.PrintedPidIsReadBack` | src/shell.c:27-34 | Reading inverts printing if and only if the number is a uint32 |
| `Shell.PrintedPidKillsItsProcess` | src/shell.c:163-183 | Typing killprocess and a printed pid is parsed into those words and removes exactly that process |
| `Shell.ArgumentHitsAThreadExactlyWhen` | src/shell.c:165-176 | killprocess finds something exactly when a live block has the pid read, and then a thread exactly when the number its argument starts with is a multiple of 2^32 |
| `Shell.NumberKillsItsProcess` | src/shell.c:165-181 | An argument that starts with a nonzero uint32 kills the process with that number and no other block, or changes nothing |
| `Shell.ReadsAsZero` | src/shell.c:165-167 | No digits, the digit 0 and 2^32 all read as pid 0 |
| `Shell.KillCommand` | src/shell.c:163-183 | The command on the kernel: it kills what the pid read names and reports whether it found anything; without an argument it changes nothing |

## Left out

- Port I/O, inline assembly and chip programming (`src/pic.c`, `src/serial.c`, the hardware cursor, reboot and exit): device behaviour is not visible in the code.
- Boot, GDT, IDT and interrupt stubs: constant tables and bit packing.
- End-of-interrupt timing, the interrupt flag and callee-saved registers across a switch: `schedule()` is one step, and nothing is claimed about preemption recurring after a first dispatch.
- `MutexSteps`: one mutex; a thread that follows a null waiter is given an arbitrary list head, and what it writes at address 0 is not modelled.
- `PhysicalMemory.InitComputesAvailablePages`: one direction for a whole map, because overlapping entries can make up for one another; the exact condition is given per entry.
- `KernelRuns.KillIsSafeExactlyWhen`: says nothing of a victim that holds a mutex, because the mutex records no owner; that mutex then stays taken, which the invariant allows.
- `KernelFairness.Fairness`: charges one round per exit, because process_exit resumes at idle and not at the next block; `KernelExits.FairnessDespiteExits` is the bound that does not grow with exits.
- process_exit runs on its own stack after freeing that page; between the free and the switch no other code runs in the model.
- Priorities are stored and never read, as in the code.
- `src/pit.c`, `meminfo`, banners, help and listings: constant text or one-line arithmetic.
- The shell commands `thread` and `killthread` described in the repository's README are not in the command table; `create_thread` and `thread_delete` are modelled as calls.
- The shell's endless loop: its body is `Shell.CommandLine`, its runs are the lemmas of `LineEditor`.
- Text printed by other code while a line is being typed.
- Aliasing of C strings other than argv into the line.
