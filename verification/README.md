# Verification models for the task worker, the connection pool and the small algorithms

A Dafny 4.11 project that models four parts of the repository and proves what they are for.
`dafny verify dfyconfig.toml` checks everything.

**The task worker** (`languages/cxx/taskmgr/worker.cpp`, `languages/cxx/taskmgr/async_queue.cpp`). Any number of
clients post, clear, cancel, pause, wait and shut down; one thread pops tasks and runs them. `WorkerMachine` is a
step machine over the two mutexes, the two condition variables, the flags and the queue. Every access to an atomic,
every acquisition and release of a lock, every notification and every change of the queue is a step of its own, and
steps of different threads interleave freely, with spurious wakeups. Atomics are sequentially consistent (section
29.3 of ISO/IEC 14882:2011). A task may itself call the interface from the worker's thread. The client calls are the
program points of `Pc` (`worker.cpp:223-332`, `409-447`, `465-471`; `async_queue.cpp:39-63`, `91-102`); the loop is
`WorkerPc` (`worker.cpp:179-214`; `async_queue.cpp:66-89`). History fields record what was accepted, dropped,
started and finished; no branch depends on them. `AsyncQueue.Queue` is the queue's sequential contract.
`WorkerCalls.Script` writes down what each call of the interface does to memory, without the machine's program points,
and the theorem beside it is that in every run each call does exactly that, whatever the other threads do meanwhile.

**The connection pool** (`languages/cxx/chain_proxy/12-mutex.cpp`). `PoolMachine` has any number of threads that
ask `Proxy::operator->` for a connection, use it and give it back, or switch the proxy to another pool, which
interrupts, locks and destroys the old one. Each probe of a connection, each growth and each hand-over of a pre-lock
is a step, and `PoolCalls` says what each call does to the proxy and its pools. `Interrupt` is `MyDB`, whose `exec` polls an atomic flag that `interrupt` clears, for any number of polls
(20 in `12-mutex.cpp`, 10 in `00-proxy-interrupt.cpp`). `SingleProxy` puts it behind the proxy of
`languages/cxx/chain_proxy/00-proxy-interrupt.cpp`, whose users keep the lock for the whole of `exec`.

**Bit length** (`languages/cxx/t/higher_bit.cpp`). The loop of `bits0` computes `Bits.Len`, and `bits1` to `bits5` are
proved to agree with it. The steps of the fast forms are lemmas over any width. For `bits1` and `bits5` a double is a
pair of words encoded as in section 3.4 of IEEE 754-2019; the machine's subtraction and conversion are parameters of
which only correct rounding is asked, and lemmas show that such operations exist.

**Smaller parts.** The floor searches of `algorithms/binary_search`, and the order in which
`buildsystems/ext-deps/bash/ext-deps` installs its targets, with `tsort` as a parameter that obeys its POSIX contract
and exits with an error on a loop.

## What turned out differently

- `wait_completion` tests its two conditions one after the other, so a task may be running when it returns
  (`WorkerLimits.TaskMayRunWhenWaitReturns`). `WorkerTheorems.CompletionWaited` says exactly when: if and only if one
  was taken between the two tests, and then it is that one.
- A clear notifies nobody, so a caller of `wait_completion` may go on sleeping with nothing queued and nothing
  running (`WorkerLimits.WaiterMayBeForgotten`). `WorkerWaiters.ForgottenExactly` and
  `WorkerWaiters.ForgottenIffStranded` say exactly which clears do that, and to whom.
- An empty task ends the loop and leaves `m_executing` set (`WorkerTheorems.ExecutingExactly`). No wait returns after
  that (`WorkerWaiters.NoWaitReturns`), and `cancel` then sleeps for ever (`WorkerLimits.WaiterMayOutliveLoop`).
- A shutdown leaves callers of `wait_completion` asleep if it comes while no task is in hand
  (`WorkerLimits.WaiterMayBeLeftBehind`). `WorkerWaiters.OverIffFinished` says exactly which steps are the end of all
  notifications.
- So a caller asleep in `wait_completion` is not always woken. `WorkerWaking.CompletionSleeper` divides the states into
  four cases: a task in hand brings the notification (`WorkerWaiters.NotificationComes`), it will never come
  (`WorkerWaiters.NobodyIsNotified`), the next task brings it unless somebody hinders that
  (`WorkerWaking.UnhinderedSleeperIsNotified`), or the next task is withheld, and it does not come unless somebody
  releases one (`WorkerWaking.WithheldSleeperWaits`). `HelpEndsExactly` and `HelpBeginsExactly` say which steps do that.
- The pool probes its connections one by one, and they are released without its mutex. It may therefore grow past
  the most connections ever in use at once (`PoolLimits.PoolMayOutgrowPeak`) or pass over a free one
  (`PoolLimits.RequestMayPassOverFree`).
  `PoolGrowth.AlwaysTightIff`, `PoolFirstFit.FirstFit` and `PoolFirstFit.GrowthIsNeeded` say exactly when: if and only
  if a connection is released behind a search that has already looked at it.
- A normal return of `MyDB::exec` leaves its flag set, so the next call is refused (`Interrupt.SecondExecIsRefused`),
  unless an interrupt came after the last poll (`Interrupt.RefusedExactly`).
- `bits5(0)` wraps to 0xFFFFFC02 (`Binary64.Bits5`).
- `binsearch_generic` compares with an undefined index on a range of one entry, unless its optional argument was
  given, which it then trusts. `BinarySearch.BinsearchTable` says exactly when the answer is wrong.
- `ext-deps` puts an empty name first when no script declares a dependency. `ExtDeps.EmptyNameChosen` and
  `ExtDeps.EmptyNameInstalled` say exactly when it is among the targets and when it is handed on.
- `exec` is declared const but resets `m_canceled`; the model has the reset.

## Model

| member | source | states |
|---|---|---|
| AsyncQueue.Queue.Push | languages/cxx/taskmgr/async_queue.cpp:39-52 | The new value goes behind the older ones, or alone into the queue when they are cleared; the pause flag stays. |
| AsyncQueue.Queue.ClearPush | languages/cxx/taskmgr/async_queue.cpp:54-56 | The value is alone in the queue afterwards. |
| AsyncQueue.Queue.Pop | languages/cxx/taskmgr/async_queue.cpp:66-89 | Once the wake condition holds: a stopped queue hands out the end value and changes nothing; otherwise the front is handed out and removed and the mark is set. |
| AsyncQueue.Queue.Block | languages/cxx/taskmgr/async_queue.cpp:58-63 | Pausing keeps the contents. |
| AsyncQueue.Queue.Clear | languages/cxx/taskmgr/async_queue.cpp:91-96 | Everything queued is dropped and the pause flag stays. |
| AsyncQueue.Queue.Empty | languages/cxx/taskmgr/async_queue.cpp:98-102 | True exactly when nothing is queued. |
| WorkerTheorems.KeepsInv | languages/cxx/taskmgr/worker.cpp:172-447 | Every step of every thread keeps the whole invariant: locks, accounting, wakeups, waits, shutdown, cancellation. |
| WorkerTheorems.TasksConserved | languages/cxx/taskmgr/worker.cpp:172-194 | In every reachable state the accepted tasks without the dropped ones are the started ones followed by the queued ones, in order; none starts twice or is both started and dropped. |
| WorkerTheorems.ExecutingExactly | languages/cxx/taskmgr/worker.cpp:181-192 | The executing flag is set exactly from the mark in `pop` to the completion section, and for ever after an empty task; while it is clear all started tasks have finished. |
| WorkerTheorems.SomeHolderCanMove | languages/cxx/taskmgr/worker.cpp:264-447 | No deadlock over the two mutexes: while one is held, some holder can take its next step. |
| WorkerTheorems.ThreadsCanMove | languages/cxx/taskmgr/worker.cpp:223-332 | A thread inside a call can always step, sleeping or not, unless another thread holds a mutex or it waits for a loop that has not ended. |
| WorkerTheorems.LoopCanMove | languages/cxx/taskmgr/worker.cpp:172-194 | So can the loop, until it has ended. |
| WorkerTheorems.TestsAreWakeCondition | languages/cxx/taskmgr/async_queue.cpp:73-76 | The three tests of the wait in `pop` are the wake condition of the queue. |
| WorkerCalls.CallPerforms | languages/cxx/taskmgr/worker.cpp:223-332 | In every run, the steps of a call other than `post` are exactly the changes of memory written down for it, in that order, with the queue's changes under its mutex, and otherwise only locking; so also for the shutdown that a planned one performs. |
| WorkerCalls.PostPerforms | languages/cxx/taskmgr/worker.cpp:427-447 | Likewise for `post`, by the policy at its first look under the mutex. |
| WorkerProgress.CallsAreShort | languages/cxx/taskmgr/worker.cpp:223-332 | In every run a thread inside a call makes at most eleven steps of its own, given by its position, before it returns or sleeps. |
| WorkerProgress.CallsAreOpen | languages/cxx/taskmgr/worker.cpp:223-487 | Clients make any call at any time; a running task any call but the waits, which refuse it. |
| WorkerProgress.SleepersMayWake | languages/cxx/taskmgr/worker.cpp:274 | A sleeper may wake at any time, notified or not, and then goes for the mutex. |
| WorkerEffects.PostEffect | languages/cxx/taskmgr/worker.cpp:427-447 | An admitted post puts its task behind everything queued in exactly one step, a supplanting one after cancelling and then clearing; a refused post changes nothing but locks. |
| WorkerEffects.PlannedShutdownEffect | languages/cxx/taskmgr/worker.cpp:465-471 | `planned_shutdown` puts its closure behind everything queued and changes nothing else but locks. |
| WorkerEffects.PlannedShutdownDrains | languages/cxx/taskmgr/worker.cpp:465-471 | When the loop has ended, nobody else shut it down and no clear took effect, everything accepted before the push has been started if and only if no job before it but the last one ends the loop; if none at all does, exactly those and the shutdown have been started. |
| WorkerEffects.WaitShutdownEffect | languages/cxx/taskmgr/worker.cpp:311-332 | `wait_shutdown` clears only after the loop has ended, so it drops nothing the loop might have taken, and at its return everything accepted before that clear has been started or dropped. |
| WorkerWaits.WaitRunningTaskEffect | languages/cxx/taskmgr/worker.cpp:264-275 | `wait_running_task` returns only after a look under the mutex at which every started task had completed. |
| WorkerWaits.WaitCompletionEffect | languages/cxx/taskmgr/worker.cpp:393-417 | `wait_completion` returns only after it has seen the loop idle and then the queue empty without letting go of the mutex; at its return nothing accepted before the second look is queued, and one of it is unfinished if and only if it was taken between the looks. |
| WorkerWaits.WaitChangesNothing | languages/cxx/taskmgr/worker.cpp:264-275 | The waits change nothing but locks. |
| WorkerCancellation.EmitCancelEffect | languages/cxx/taskmgr/worker.cpp:249-259 | `emit_cancel` stores the cancellation in exactly one step and changes nothing else. |
| WorkerCancellation.CanceledIff | languages/cxx/taskmgr/worker.cpp:202-213 | In every run the flag is set if and only if a cancellation has been stored since the last reset. |
| WorkerCancellation.CancelComesFromCall | languages/cxx/taskmgr/worker.cpp:249-259 | Every cancellation is stored inside a call of `emit_cancel`, `emit_shutdown` or a supplanting `post`. |
| WorkerCancellation.SeesCanceledIff | languages/cxx/taskmgr/worker.cpp:202-214 | A running task that asks is told that it is canceled if and only if a cancellation has been stored since the last reset, which is its own. |
| WorkerTheorems.WorkerIsWoken | languages/cxx/taskmgr/async_queue.cpp:39-63 | No lost wakeup: if the worker sleeps un-notified although its wake condition holds, some thread is between its store and its notification. |
| WorkerTheorems.CancelWaitsForTask | languages/cxx/taskmgr/worker.cpp:376-379 | The wait inside `cancel` ends exactly at a look when no task is in flight. |
| WorkerTheorems.CompletionWaited | languages/cxx/taskmgr/worker.cpp:409-416 | When `wait_completion` returns, every task accepted before its last look at the queue has left the queue, none has completed since its first look, and one of them is unfinished if and only if it was taken between the two looks; that one is then in flight and the last started. |
| WorkerTheorems.GracefulDrain | languages/cxx/taskmgr/worker.cpp:465-471 | If only planned shutdowns stopped the worker, the last started task is the first one that stops it, whatever throws; without a clear the started tasks are exactly the accepted ones up to it. |
| WorkerDraining.DrainIsBounded | languages/cxx/taskmgr/worker.cpp:465-471 | With a planned shutdown queued behind `k` jobs, no pause and nothing cleared, the loop ends within 15 of its own steps per job and at most 24 more, given by its position. |
| WorkerTheorems.ShutdownIsPrompt | languages/cxx/taskmgr/worker.cpp:284-297 | After the shutdown flag is set at most one more task starts, none if a running task set it, and the loop ends within a number of its own steps, at most eleven, given by its position. |
| WorkerTheorems.PolicyRefuses | languages/cxx/taskmgr/worker.cpp:427-447 | While the policy refuses, at most one more task enters through `post`, and none unless a caller was already past the switch. |
| WorkerStopping.StopNowQuiesces | languages/cxx/taskmgr/worker.cpp:342-352 | At the last look of `stop_now` no task is in flight and every task accepted before its clear has completed or been dropped; at most one task is queued, exactly if a caller already past the switch pushed it after the clear and nothing has taken or dropped it, as long as nobody makes `post` go on or pushes directly. |
| WorkerTheorems.CancellationDoesNotLeak | languages/cxx/taskmgr/worker.cpp:202-214 | A task that sees itself canceled was canceled after its own reset, with no other reset between. |
| WorkerWaiters.RunningSleeper | languages/cxx/taskmgr/worker.cpp:264-275 | A caller asleep un-notified in `wait_running_task` will be notified next thing if and only if the loop has not taken an empty task; an ended loop has such sleepers only if it ended on one. |
| WorkerWaking.CompletionSleeper | languages/cxx/taskmgr/worker.cpp:409-416 | One asleep un-notified in `wait_completion` is in exactly one of four cases: a task in hand, no notification ever, the next task can be taken, the next task is withheld; he is forgotten by a clear exactly if the queue is empty and the loop neither has a task in hand nor took an empty one. |
| WorkerWaking.UnhinderedSleeperIsNotified | languages/cxx/taskmgr/worker.cpp:179-192 | With a task in hand or one that the loop can take, a sleeper is notified within at most fifteen of the loop's own steps, given by its position, unless somebody hinders it. |
| WorkerWaking.HelpEndsExactly | languages/cxx/taskmgr/async_queue.cpp:39-63 | Until the notification, a task stays there for the loop to take if and only if nobody clears, shuts down, pauses in time, or replaces everything by an empty task. |
| WorkerWaking.WithheldSleeperWaits | languages/cxx/taskmgr/async_queue.cpp:73-76 | While the next task is withheld, by a pause, an empty queue or an empty task in front, or the loop is over, nobody is notified in any continuation unless somebody releases a task. |
| WorkerWaking.HelpBeginsExactly | languages/cxx/taskmgr/async_queue.cpp:39-63 | It ceases to be withheld if and only if somebody resumes the loop with a task to take, or pushes one to the front of a loop that is not paused. |
| WorkerWaiters.NotificationComes | languages/cxx/taskmgr/worker.cpp:188-192 | With a task in hand that is not empty, a sleeper is notified within at most eight of the loop's own steps, given by its position. |
| WorkerWaiters.NobodyIsNotified | languages/cxx/taskmgr/worker.cpp:179-193 | Once the loop is over, nobody is notified in any continuation. |
| WorkerWaiters.OverIffFinished | languages/cxx/taskmgr/worker.cpp:179-193 | In every run the loop is over if and only if the shutdown flag was set with no task in hand, an empty task was taken, or the last notification was made with the flag set. |
| WorkerWaiters.NoWaitReturns | languages/cxx/taskmgr/worker.cpp:181-184 | After an empty task has been taken, no wait returns in any continuation that has not looked before. |
| WorkerWaiters.ForgottenExactly | languages/cxx/taskmgr/worker.cpp:236-244 | A step leaves a sleeper in `wait_completion` with nothing queued or in flight if and only if it is a clear of a queue with something in it while nothing is in flight, or he was so before and nothing is accepted. |
| WorkerWaiters.ForgottenIffStranded | languages/cxx/taskmgr/worker.cpp:236-244 | In every run he is so if and only if such a clear came after he decided to sleep and nothing has been accepted since. |
| WorkerInvariants.KeepsLocks | languages/cxx/taskmgr/worker.cpp:264-447 | Every step keeps each mutex with exactly the thread whose position says that it holds it. |
| WorkerInvariants.RemainingAfterDrop | languages/cxx/taskmgr/async_queue.cpp:91-96 | Dropping what is queued leaves exactly what had been started. |
| WorkerShutdown.StepAfterShutdown | languages/cxx/taskmgr/worker.cpp:179-193 | After shutdown every loop step lowers the rank, no other step raises it, and no step adds to the tasks started or committed to. |
| WorkerPosting.StepRefused | languages/cxx/taskmgr/worker.cpp:430-446 | Under a refusing policy no step adds to the tasks posted or past the switch. |
| WorkerLimits.TaskMayRunWhenWaitReturns | languages/cxx/taskmgr/worker.cpp:416 | A run in which a task is running when `wait_completion` returns. |
| WorkerLimits.WaiterMayOutliveLoop | languages/cxx/taskmgr/worker.cpp:181-184 | A run in which a caller of `wait_running_task` sleeps although the loop has ended on an empty task. |
| WorkerLimits.TaskMayPush | languages/cxx/taskmgr/worker.cpp:440-442 | A run in which a running task puts another one into its own queue. |
| WorkerLimits.WaiterMayBeLeftBehind | languages/cxx/taskmgr/worker.cpp:284-289 | A run in which a caller of `wait_completion` sleeps un-notified although the loop has ended on shutdown. |
| WorkerLimits.WaiterMayBeForgotten | languages/cxx/taskmgr/worker.cpp:236-244 | A run in which a clear leaves a caller of `wait_completion` asleep with nothing queued and nothing in flight. |
| PoolInvariants.KeepsInv | languages/cxx/chain_proxy/12-mutex.cpp:101-198 | Every step keeps the invariant of the proxy, its pools and their connections, or ends the program. |
| PoolTheorems.ExclusiveNeverThrows | languages/cxx/chain_proxy/12-mutex.cpp:104-121 | Neither a second pre-lock nor a simultaneous access is ever reached. |
| PoolTheorems.OneLockablePerConnection | languages/cxx/chain_proxy/12-mutex.cpp:115-121 | Two threads never hold the same connection, and a held one belongs to a pool that still exists. |
| PoolTheorems.NoPreLockBetweenCalls | languages/cxx/chain_proxy/12-mutex.cpp:104-121 | No pre-lock survives outside a call of the proxy. |
| PoolTheorems.HolderCanMove | languages/cxx/chain_proxy/12-mutex.cpp:137-198 | No deadlock: the thread that holds the proxy's mutex can always take its next step. |
| PoolTheorems.ThreadsCanMove | languages/cxx/chain_proxy/12-mutex.cpp:137-198 | A thread waits only for the proxy's mutex of another. |
| PoolTheorems.PoolMutexIsHolders | languages/cxx/chain_proxy/12-mutex.cpp:137-168 | A pool's mutex is held only by the thread that holds the proxy's. |
| PoolTheorems.UseLeavesNoOldLockable | languages/cxx/chain_proxy/12-mutex.cpp:150-187 | When `use` is about to return, every live connection belongs to the pool now in the proxy. |
| PoolCalls.RequestEffect | languages/cxx/chain_proxy/12-mutex.cpp:137-149 | In every run, a request that finds a pool under the proxy's mutex ends with a connection of it, which it found free and locked or added, and changes nothing else; one that finds none ends without and changes nothing. |
| PoolProgress.HoldersAreShort | languages/cxx/chain_proxy/12-mutex.cpp:137-198 | In every run the holder of the proxy's mutex lets it go within a number of its own steps: a constant beyond the size of the pool for a request, twice that for a switch. |
| PoolCalls.ReturnEffect | languages/cxx/chain_proxy/12-mutex.cpp:62-83 | The end of a `Lockable` frees its connection and changes nothing else. |
| PoolCalls.UseEffect | languages/cxx/chain_proxy/12-mutex.cpp:150-187 | A `use` that returns has put the new pool, or none, into the proxy, and then destroyed the old one, every connection of which it had interrupted and after that found free and locked; it changes nothing else. |
| PoolTheorems.UseSwitchesForGood | languages/cxx/chain_proxy/12-mutex.cpp:181-196 | From then on, in every continuation, no thread is served from or uses a replaced pool. |
| PoolTheorems.LiveCountIsThreads | languages/cxx/chain_proxy/12-mutex.cpp:137-149 | The number of connections in use is the number of threads that hold one. |
| PoolTheorems.SizeIsPeak | languages/cxx/chain_proxy/12-mutex.cpp:137-149 | A pool is never smaller than the most connections in use at once, and exactly that large when none was released under the pool's mutex. |
| PoolTheorems.PeakIsMaximum | languages/cxx/chain_proxy/12-mutex.cpp:137-149 | The recorded peak is the largest number in use at any moment of the run, and was reached. |
| PoolGrowth.AlwaysTightIff | languages/cxx/chain_proxy/12-mutex.cpp:137-149 | In every run and for each pool: it always has exactly its peak of connections if and only if, whenever it hands out a new one, no other of its was released after the search for a free one had looked at it. |
| PoolFirstFit.FreeIffReleasedBehind | languages/cxx/chain_proxy/12-mutex.cpp:141-145 | A connection that a search has left behind is free if and only if it was released during that search after its probe. |
| PoolFirstFit.FirstFit | languages/cxx/chain_proxy/12-mutex.cpp:141-145 | A request gets a free connection, and the lowest free one if and only if none before it was released behind the scan. |
| PoolFirstFit.GrowthIsNeeded | languages/cxx/chain_proxy/12-mutex.cpp:146-148 | When a pool grows, all its connections are in use if and only if none was released behind the scan. |
| PoolGrowth.JustifiedIffUnreleased | languages/cxx/chain_proxy/12-mutex.cpp:141-148 | When a new connection is handed out all the others are in use if and only if none was released behind the search, also between the growth and the hand-over. |
| PoolLimits.PoolMayOutgrowPeak | languages/cxx/chain_proxy/12-mutex.cpp:137-149 | A run after which a pool has two connections although no two were ever in use at once. |
| PoolLimits.RequestMayPassOverFree | languages/cxx/chain_proxy/12-mutex.cpp:141-145 | A run in which a request is about to take the second connection although the first one is free. |
| Interrupt.InterruptedExactly | languages/cxx/chain_proxy/12-mutex.cpp:26-41 | An execution ends interrupted if and only if an interrupt came between its first and its last look at the flag, in every interleaving. |
| Interrupt.RefusedExactly | languages/cxx/chain_proxy/12-mutex.cpp:26-29 | A call is refused if and only if an earlier execution returned normally and no interrupt came since that one's last look. |
| Interrupt.LookSetsFlag | languages/cxx/chain_proxy/12-mutex.cpp:27-33 | Whatever a look finds, it leaves the flag set, until an interrupt or the exception clears it. |
| Interrupt.SecondExecIsRefused | languages/cxx/chain_proxy/12-mutex.cpp:26-41 | For any number of polls, an execution that nobody interrupts returns normally and the next one is refused. |
| Interrupt.InterruptIsPrompt | languages/cxx/chain_proxy/12-mutex.cpp:31-36 | An interrupt while a poll is left is answered by a poll and the exception, the next two steps of the executing thread, with nothing before them, in every continuation. |
| SingleProxy.ExecutionKeepsObject | languages/cxx/chain_proxy/00-proxy-interrupt.cpp:62-79 | No object is replaced while it is executed or about to be interrupted, and no two threads execute at once. |
| SingleProxyCalls.UseEffect | languages/cxx/chain_proxy/00-proxy-interrupt.cpp:62-70 | In every run, `use` interrupts the object in the proxy once and without the mutex, and then replaces it with the mutex, at a moment when nothing is executed; an empty proxy it only fills. |
| SingleProxyCalls.UseInterruptsExecution | languages/cxx/chain_proxy/00-proxy-interrupt.cpp:27-32 | An execution that has a poll left at that interrupt ends with the exception, after one more poll and before the replacement. |
| SingleProxyCalls.CallDescends | languages/cxx/chain_proxy/00-proxy-interrupt.cpp:22-79 | Every step of a call's own brings it nearer to its return, by a measure that no other thread's step raises. |
| SingleProxyCalls.ThreadsCanMove | languages/cxx/chain_proxy/00-proxy-interrupt.cpp:62-79 | A thread waits only for the mutex of another; so the interruption by `use` waits for nothing. |
| SingleProxyCalls.HolderCanMove | languages/cxx/chain_proxy/00-proxy-interrupt.cpp:62-79 | The holder of the mutex can always take its next step. |
| SingleProxyCalls.ExecEffect | languages/cxx/chain_proxy/00-proxy-interrupt.cpp:71-79 | A use of the proxy executes the object that it finds under the mutex, from the beginning to one outcome, without giving up the mutex, and touches nothing else; with an empty proxy it touches nothing. |
| SingleProxy.SwitchInterruptsExactly | languages/cxx/chain_proxy/00-proxy-interrupt.cpp:22-37 | Behind the proxy too an execution ends interrupted if and only if `use` interrupted it between its first and its last look. |
| Bits.LenBound | languages/cxx/t/higher_bit.cpp:29-33 | The bit length is the least exponent whose power of two exceeds the number. |
| Bits.SmearStep | languages/cxx/t/higher_bit.cpp:47-51 | Or-ing a number with itself moved right by `k` doubles a run of `k` ones at its top, for any width. |
| Bits.FilledCompletely | languages/cxx/t/higher_bit.cpp:47-51 | Once the run covers the length the number is one below two to the length. |
| Bits.NarrowStep | languages/cxx/t/higher_bit.cpp:62-65 | For any width, the conditional move right accounts for exactly the length that is lost. |
| Bits.WidenStep | languages/cxx/t/higher_bit.cpp:73-76 | For any width, the upper bits are empty exactly when moving left by their number loses no set bit. |
| Bits.SubtractFields | languages/cxx/t/higher_bit.cpp:53 | Subtracting the masked neighbours leaves in every pair of bits their sum, for any even width. |
| Bits.AddFields | languages/cxx/t/higher_bit.cpp:54 | Adding the masked halves leaves in every field the sum of its two halves, for any field and word width. |
| Bits.AddThenMask | languages/cxx/t/higher_bit.cpp:55 | Masking after the addition does the same where no sum overflows its field. |
| BitLength.Bits0 | languages/cxx/t/higher_bit.cpp:29-33 | The loop counts the bit length. |
| BitLength.Smear | languages/cxx/t/higher_bit.cpp:47-51 | The five smear steps give two to the length, minus one. |
| BitLength.CountOnes | languages/cxx/t/higher_bit.cpp:52-56 | The sums count the ones of any 32-bit word. |
| BitLength.FieldsCount | languages/cxx/t/higher_bit.cpp:52-56 | No sum wraps, and the multiplication moves the total into the top byte. |
| BitLength.Bits2 | languages/cxx/t/higher_bit.cpp:46-57 | Smear and count give the bit length for every input. |
| BitLength.Narrow | languages/cxx/t/higher_bit.cpp:62-65 | One narrowing step, with its `or`, keeps the sum of what is counted and what is left. |
| BitLength.Bits3 | languages/cxx/t/higher_bit.cpp:60-68 | Narrowing gives the bit length for every input. |
| BitLength.Widen | languages/cxx/t/higher_bit.cpp:73-76 | Where the test of a step succeeds its shift does not wrap and adds its width to the length. |
| BitLength.Bits4 | languages/cxx/t/higher_bit.cpp:70-79 | Widening gives the bit length for every input. |
| Binary64.ExponentIsLength | languages/cxx/t/higher_bit.cpp:43 | Any double that equals a positive 32-bit integer has a biased exponent of 1022 plus the integer's length. |
| Binary64.SubtractionIsExact | languages/cxx/t/higher_bit.cpp:40-42 | The difference of the two doubles is the integer, which is itself a double, so that no rounding takes place. |
| Binary64.Bits1 | languages/cxx/t/higher_bit.cpp:35-44 | The bit length for every input, with any correctly rounded subtraction. |
| Binary64.Bits5 | languages/cxx/t/higher_bit.cpp:83-87 | The bit length for every positive input with any correctly rounded conversion, and what zero gives. |
| Binary64.SubtractionExists | languages/cxx/t/higher_bit.cpp:42 | There is a correctly rounded subtraction. |
| Binary64.ConversionExists | languages/cxx/t/higher_bit.cpp:85 | There is a correctly rounded conversion. |
| BinarySearch.CeilLog2Meaning | algorithms/binary_search/binary_search.pl:10-18 | The bound on the probes is the least exponent whose power of two reaches the size. |
| BinarySearch.BinsearchGeneric | algorithms/binary_search/binary_search.pl:5-20 | Which of its four outcomes each input has; two or more entries give the last index not above, within the logarithm of the size in probes, whatever the final choice between `mid` and `low`. |
| BinarySearch.BinsearchTable | algorithms/binary_search/binary_search.pl:5-26 | On a sorted table the default below the first key; otherwise the row of the last key not above the value, if and only if the table does not consist of one row whose comparison with the unprobed default misleads it; which answer it then gives; within the bound. |
| BinarySearch.BoundaryTable.Lookup | algorithms/binary_search/binary_search.awk:17-29 | Inside the table's bounds the line of the last boundary not above the address, otherwise nothing, within the bound, although `m` survives from line to line. |
| ExtDeps.SortableIffAcyclic | buildsystems/ext-deps/bash/ext-deps:101-106 | There is an order that agrees with the pairs if and only if no name requires itself through others. |
| ExtDeps.TsortFailsOnCycles | buildsystems/ext-deps/bash/ext-deps:101-106 | Sorting fails exactly on a loop of requirements. |
| ExtDeps.TsortExists | buildsystems/ext-deps/bash/ext-deps:103 | The contract asked of `tsort` can be met. |
| ExtDeps.UniqMeaning | buildsystems/ext-deps/bash/ext-deps:80 | Each line stays once, and two stay in the order in which they were first seen. |
| ExtDeps.UniqExtends | buildsystems/ext-deps/bash/ext-deps:78-81 | Names already told apart stay in front; independent ones go behind them. |
| ExtDeps.KeptMeaning | buildsystems/ext-deps/bash/ext-deps:75 | Exactly the lines that equal a pattern stay, in their order. |
| ExtDeps.Installation.ExtendUniq | buildsystems/ext-deps/bash/ext-deps:79-81 | The loop with its table of seen lines leaves the first occurrences of the targets and then of the names. |
| ExtDeps.Installation.FilterBy | buildsystems/ext-deps/bash/ext-deps:74-76 | The loop leaves the targets that equal one of the names; no name at all stands for the empty one. |
| ExtDeps.Installation.FindMissing | buildsystems/ext-deps/bash/ext-deps:58-65 | The first name that is no recipe, if there is one. |
| ExtDeps.Installation.Plan | buildsystems/ext-deps/bash/ext-deps:154-162 | Exactly which inputs stop the script and how, which unknown name is the one reported, and otherwise the targets as chosen from the sorted names. |
| ExtDeps.PrerequisitesComeFirst | buildsystems/ext-deps/bash/ext-deps:101-106 | Of the chosen targets, each comes after all that it requires, directly or through others, even where those in between are not chosen. |
| ExtDeps.AllRecipesOnce | buildsystems/ext-deps/bash/ext-deps:154-162 | With all targets every recipe is chosen once, and an empty name besides exactly when there is no pair. |
| ExtDeps.NamedRecipesInOrder | buildsystems/ext-deps/bash/ext-deps:159-162 | With named targets those and no others, each once, in the order that all targets would have. |
| ExtDeps.EmptyNameChosen | buildsystems/ext-deps/bash/ext-deps:80 | A name that is no recipe is among the chosen targets if and only if there is neither a pair nor a named target. |
| ExtDeps.EmptyNameInstalled | buildsystems/ext-deps/bash/ext-deps:145 | It is handed on to be installed if and only if, besides, all targets are asked for. |

## Left out

- The worker, the pool and `MyDB` are modelled on values, as step machines: their methods run concurrently, and a
  class verified method by method would miss every interleaving.
- AsyncQueue.Queue.Push: the class is the sequential contract; locking and notification are in `WorkerMachine`.
- `stop_when_done`, `resume`, `reset`, `cancel`, `shutdown`, `clear_post` and `wait_shutdown_finished` are sequences of
  modelled calls and have no steps of their own; so is `stop_now`, whose joint effect is in `WorkerStopping`.
- `wait_task` has no body to model; policy WAIT admits a task as the code does.
- More than one worker on a queue: `notify_one` might then wake the wrong one.
- The worker's constructor, the window before `m_tid` is assigned, thread naming, the static list of workers, and
  two threads racing to join. A second `wait_shutdown` after the join does nothing in the code; in the model it clears
  the queue again.
- Tracing, printing, sleeping, `main` functions, `pool.cpp`, `group.cpp` and the earlier drafts of the pool.
- Termination of a task or of a client's call: bounds count the steps of the loop, of which a running task is one.
- PoolTheorems.ExclusiveNeverThrows: assumes that `try_lock` does not fail spuriously and that no thread nests two
  acquisitions; both would reach the exceptions.
- PoolTheorems.UseLeavesNoOldLockable: `use` may instead end the program, when a connection stays in use so long
  that an exception leaves the destructor of the pool; the model stops there.
- `Proxy::interrupt`, `Pool::interrupt` on its own, `Shared` and `Manager`; the first reads without the lock.
- The flag of `MyDB` in `12-mutex.cpp` has no initializer; the model starts it clear, as the other file does.
- SingleProxy.ExecutionKeepsObject: `use` reads the object without the lock, so only one thread may switch.
- Binary64.Bits1: which of two equally near doubles is chosen does not matter, so rounding to even is not modelled.
- `bits6` (inline assembler, undefined for zero), `uni` and the timing loop.
- Reading files and parsing hexadecimal addresses in the awk script.
- ExtDeps.Installation.Plan: takes the pairs that `extract_prerequisites` prints as given, and script names without
  blanks, which `tsort` would split; finding scripts, options, hashes, time stamps and the installation are left out.
