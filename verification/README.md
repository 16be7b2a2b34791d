# libthreads, modelled and proved

A Dafny model of the four concurrent protocols of this C library, and proofs about them for any number of threads
and every interleaving of their steps:

- `lusem`, a lightweight semaphore: a signed atomic counter in front of a kernel semaphore, with spinning, timed
  waits and a fix-up loop after a timeout;
- `pthread_barrier`, a cyclic barrier with a wrapping round number;
- `thpool`, a thread pool with a ring buffer, a mutex and two condition variables;
- `lfthpool`, a thread pool over a lock-free queue of heap-allocated task nodes.

## How it is built

Each protocol has a `...Model` module: a state with one program counter per thread and a total function `Next` that
takes one step of one thread, where a step is one atomic access, or one lock, unlock, condition-variable or
kernel-semaphore action. A schedule is a sequence of such events; an event its thread cannot take changes nothing, so
a statement about all schedules is a statement about all interleavings. Condition variables wake an arbitrary sleeper
and may wake one by themselves. The `...Invariant` and `...Theorems` modules prove what every step keeps and what
follows over whole runs; the `...Progress` modules hold the progress arguments, the `...Drain` modules say what a
shutdown leaves behind, `ThPoolHold` when it hangs, `ThPoolLimits` when a waiter is woken. The `...Alone` modules
state what each call does when nobody else moves, branch by branch; `ThPoolRuns` holds what the runs are made of.

The `...Code` modules hold the C structs as classes whose fields are updated in place. Every access is proved to be
the step `Next` takes, and is recorded on a ghost trail. `LusemCode` and `BarrierCode` write the C functions with the
C loops. The pools' functions are written step by step, one handler per program point, and a call is one loop that
takes the next step until it returns; the ring buffer of `thpool` and the deletion loop of `lfthpool` are below the
model's level, the other handlers follow it line by line. A whole call runs in the company of other threads: `env` is
the schedule around it, and the call promises what it returns, what the calling thread itself took, gave, inserted or
ran (its ledger), that the trail is exactly its own steps and the turns it used, and that it used all of them if it
has not returned. `Trails.PathRuns` ties the trail to the model's runs, so the theorems over schedules hold of the classes.

`Sums` counts threads by weight, `Trails` folds schedules and holds the trail predicates, `Tasks` and `Options` the shared datatypes.

Check everything with `dafny verify dfyconfig.toml`.

## What was found

- `lusem_init` gives the initial count to the counter and to the kernel semaphore (`include/threads/lusem.h:23-24`).
  The usual law, acquires <= initial + signals, therefore holds exactly for an initial count of 0; the supply is
  twice the initial count (`SupplyLawIff`, `DoubleSupply`).
- The barrier's comparison of wrapped round numbers is safe on all runs exactly with at most `count` threads, or with
  `count` 1. With one more, a woken thread can miss 2^32 rounds and go back to sleep (`WrapSafeIff`,
  `SleepsThroughWrap`).
- `thpool_wait` is woken for certain exactly if no second thread may wait and no other thread may use
  `thpool_worker_try_once`; in every pool that allows either, a caller can sleep on with nothing left to do
  (`WakeupIff`).
- A task that `thpool_add_task` accepts after the last worker has decided to leave stays queued for good unless a
  `thpool_worker_try_once` takes it. These tasks and no others are lost (`LeftBehind`, `Drained`, `LateInsertIsLost`).
- `lfthpool_wait` is described in the repository's README as waiting for all jobs (line 78), and its header warns of
  tasks prepared but not begun (`include/threads/lfthpool.h:108`). The code is followed: it can return before a task
  accepted earlier has begun, and exactly when is proved (`WaitCompleteIff`, `WaitIsWeak`).
- `thpool_shutdown` of a pool on hold hangs until somebody resumes the pool or runs its tasks, unless every worker is
  already leaving or nothing is queued but what a worker past its hold test is about to take (`ShutdownOnHoldIff`,
  `PausedShutdownHangs`).
- `lfthpool_destroy` frees the tasks still queued without running them, where `thpool` runs them first; how many is
  settled at the shutdown store (`ShutdownLeaves`, `AllRunIff`, `DestroyDropsTask`).
- The README says that a pause stops all workers (lines 51 and 80). In `thpool` they take at most one more task
  together, and can take it exactly if one of them is past its hold test at that moment; in `lfthpool` the same holds
  of each worker by itself (`PauseBound` and `PauseStopsIff` of both).
- With a full queue `thpool_add_task_try` makes max_try + 1 attempts and `lfthpool_add_task_try` max_try + 2.

## Model

| member | source | states |
|---|---|---|
| LusemModel.InitInv | include/threads/lusem.h:21-25 | lusem_init gives the initial count to the counter and to the kernel semaphore: the counting identity holds with s0 equal to the initial count, and the supply is twice that count |
| LusemModel.AccessBalance | src/threads/lusem.c:3-39 | one atomic access changes the waiters past their fetch-sub by exactly what it changes in the negative part of the counter, the kernel value and the posts owed |
| LusemModel.NextInv | src/threads/lusem.c:3-39 | every access of every thread keeps W + s0 == max(0, -m_count) + s + R |
| LusemModel.RunInv | src/threads/lusem.c:3-53 | the identity holds in every reachable state, for any number of waiters, timed waiters and signallers |
| LusemModel.NextRefines | include/threads/lusem.h:31-59 | a wait call returning 0 takes one permit and finds one, a signal gives `count` at its fetch-add, every other access leaves max(0, m_count) + s + R alone |
| LusemModel.RunRefines | src/threads/lusem.c:3-53 | every run over every schedule, read through its calls, is a run of an atomic counting semaphore that never takes from an empty one |
| LusemTheorems.Conservation | src/threads/lusem.c:3-53 | acquires + final value == initial value + signals over every schedule: no permit is lost in flight or made |
| LusemTheorems.Bounds | src/threads/lusem.c:13-38 | the counter never falls below -(waiters + s0) nor rises above supply plus signals, and kernel permits plus owed posts never exceed waiters + s0 |
| LusemTheorems.PostFindsRoom | include/threads/usem.h:133-141 | with no more threads than the kernel semaphore can count, a post still owed always finds room: the retry loop around sem_post never goes round on a full semaphore |
| LusemTheorems.NoStrandedPermit | include/threads/lusem.h:45-59 | a thread still waiting with nothing in the kernel and no post owed means that no permit is left anywhere |
| LusemTheorems.BlockedMeansExhausted | src/threads/lusem.c:13-23 | a run that ends with every thread out of the library or asleep, and one asleep, has acquired every permit ever supplied |
| LusemTheorems.FixupSeesPermit | src/threads/lusem.c:31-35 | in the fix-up loop a non-negative counter means that a permit is in the kernel or owed to it |
| LusemTheorems.FixupReturns | src/threads/lusem.c:31-38 | with no post pending the fix-up loop run alone returns within three accesses, from any of its points and from a stale read |
| LusemTheorems.SupplyLawIff | include/threads/lusem.h:21-25 | for every initial count lusem_init accepts: acquires <= initial count + signals on every schedule if and only if the initial count is 0 |
| LusemTheorems.DoubleSupply | include/threads/lusem.h:21-25 | what does hold for every initial count: acquires <= twice the initial count + signals |
| LusemTheorems.OneTooMany | include/threads/lusem.h:21-39 | from counter m with anything in the kernel there is a schedule of one thread's steps only in which it acquires m + 1 permits without a signal |
| LusemTheorems.SpinOut | src/threads/lusem.c:5-18 | a blocking wait at counter 0, run alone, spins itself out, lowers the counter to -1 by its fetch-sub and returns 0 with one of the kernel's permits; nothing else changes |
| LusemAlone.TryWaitAlone | include/threads/lusem.h:31-39 | lusem_try_wait run alone returns 0 with a permit from the counter if it has one, else -1, and changes nothing more |
| LusemAlone.TryAgain | include/threads/lusem.h:33-38 | after a compare-exchange that failed, for whatever reason, it tries again as long as the counter holds a permit |
| LusemAlone.SpinTakes | src/threads/lusem.c:6-10 | a spinning thread that finds a permit takes it in two accesses |
| LusemAlone.SpinAgain | src/threads/lusem.c:6-12 | a failed compare-exchange costs a spinning thread one turn of the spinning and no more |
| LusemAlone.WaitAlone | src/threads/lusem.c:3-53 | lusem_wait and lusem_timed_wait run alone return 0 with a permit from the counter if it has one, else with one from the kernel |
| LusemAlone.TimedOut | src/threads/lusem.c:20-39 | lusem_timed_wait without a permit anywhere: a run of the caller's own events in which it sleeps with its deadline, returns -1 and leaves everything as it was |
| LusemAlone.SleepsOn | src/threads/lusem.c:16-19 | lusem_wait sleeps on: nothing the thread does and no deadline ends its sleep |
| LusemAlone.FixupAlone | src/threads/lusem.c:31-38 | the fix-up loop run alone from its top: 0 with a kernel permit if the counter is not negative, else -1 with the count put back, in two accesses |
| LusemTheorems.PostAll | include/threads/usem.h:137-141 | the posting loop run alone makes exactly the posts it was asked for |
| LusemTheorems.SignalCountAlone | include/threads/lusem.h:45-52 | signal_count(n) from a counter of any sign adds n to it and min(n, -counter) posts, none if the counter is not negative |
| LusemTheorems.SingleSignals | include/threads/lusem.h:54-59 | n single signals end in the same state as one signal_count(n), for a counter of any sign |
| LusemCode.Lusem.Initialise | include/threads/lusem.h:21-25 | the fields after lusem_init, and its failure above the kernel's maximum |
| LusemCode.Lusem.Load | include/threads/lusem.h:31-33 | the fetch-add of 0 as a step of the machine, for the three places that load the counter |
| LusemCode.Lusem.CompareExchange | src/threads/lusem.c:9-36 | strong and weak compare-exchange: it succeeds exactly on the expected value, barring a spurious failure, and hands back the value found, as a step of the machine with its ledger entry |
| LusemCode.Lusem.FetchSub | src/threads/lusem.c:13-15 | the fetch-sub and its fast return |
| LusemCode.Lusem.FetchAdd | include/threads/lusem.h:47-50 | the fetch-add of a signal and the number of posts it announces |
| LusemCode.Lusem.KernelWait | include/threads/usem.h:92-131 | one look of usem_wait or usem_timed_wait at the kernel semaphore: a permit, a deadline, or neither; a deadline only with a timeout |
| LusemCode.Lusem.KernelTryWait | include/threads/usem.h:101-107 | usem_try_wait |
| LusemCode.Lusem.KernelPost | include/threads/usem.h:133-141 | sem_post, which fails at the maximum and is retried |
| LusemCode.Lusem.PostLoop | include/threads/usem.h:137-141 | in any company the posting loop gives and takes nothing more than its announced posts, and ends after the last of them |
| LusemCode.Lusem.TryWaitLoop | include/threads/lusem.h:31-39 | the CAS loop in any company: 0 with one permit taken, or on to where the caller continues with none, and then only because one of its own looks, at a stated past state, found no permit on the counter |
| LusemCode.Lusem.SpinLoop | src/threads/lusem.c:5-15 | the spin loop in any company: one permit and 0, or asleep in the kernel with none |
| LusemCode.Lusem.SleepLoop | include/threads/usem.h:92-131 | usem_wait and usem_timed_wait in any company: one permit for 0, none for -1, which needs a timeout; an interruption goes round again |
| LusemCode.Lusem.FixupLoop | src/threads/lusem.c:31-38 | the fix-up loop in any company: 0 with one permit taken late, or -1 with the count put back and none taken |
| LusemCode.Lusem.WaitWithPartSpin | src/threads/lusem.c:3-39 | the whole function in any company; -1 only with a timeout |
| LusemCode.Lusem.Wait | src/threads/lusem.c:41-53 | lusem_wait and lusem_timed_wait in any company: exactly one permit for 0; for -1 none, a deadline that passed during the call and a counter without a permit at a stated past state; asleep only with the caller's timeout; the trail is the entry and the turns taken, all of them if the call has not returned |
| LusemCode.Lusem.TryWait | include/threads/lusem.h:31-39 | lusem_try_wait in any company: one permit for 0; for -1 none, and the counter held none at a stated past state during the call |
| LusemCode.Lusem.SignalCount | include/threads/lusem.h:45-59 | gives exactly `count` permits in any company, none for count <= 0, and returns only after every announced post |
| BarrierModel.InitInv | src/pthread_barrier.c:10-49 | the initial values of count, left and round start the invariant |
| BarrierModel.ArriveSleeps | src/pthread_barrier.c:65-69 | an arrival that is not the last lowers left, joins the current round and sleeps with its number, and keeps the invariant |
| BarrierModel.ArriveOpens | src/pthread_barrier.c:72-77 | the last arrival changes the round number, restores left, closes the round with `count` distinct arrivals, wakes every sleeper and no one else and is the serial one, and keeps the invariant |
| BarrierModel.NextInv | src/pthread_barrier.c:63-79 | every step, spurious wakeup and re-entry of any number of threads keeps the invariant |
| BarrierModel.RunInv | src/pthread_barrier.c:63-79 | the invariant in every reachable state |
| BarrierTheorems.Conservation | src/pthread_barrier.c:63-79 | total arrivals == count * completed rounds + (count - left), and one serial thread per completed round |
| BarrierTheorems.NoEarlyReturn | src/pthread_barrier.c:63-79 | a thread that returned was one of `count` distinct arrivals of a completed round, and got the serial value if and only if it was the last |
| BarrierTheorems.RunRecent | src/pthread_barrier.c:63-79 | with at most `count` threads everybody inside holds the current round or the one before |
| BarrierTheorems.RecentAgrees | src/pthread_barrier.c:66-69 | then the wrapping comparison agrees with that of unbounded round numbers, across any number of wraps |
| BarrierTheorems.StuckMeansWaiting | src/pthread_barrier.c:65-77 | with at most `count` threads, if nobody can move then everybody is out or asleep in the round in progress: no wakeup is lost |
| BarrierTheorems.WokenByChance | src/pthread_barrier.c:67-69 | a spurious wakeup in a round in progress: the thread looks and sleeps again, and nothing else has changed |
| BarrierTheorems.RoundCompletes | src/pthread_barrier.c:63-79 | in every barrier `count` threads that arrive one after the other all return, the last with the serial value and the others with 0 |
| BarrierTheorems.RoundWithout0 | src/pthread_barrier.c:63-79 | with one thread more than `count`, a whole round can pass while a woken thread waits for the mutex |
| BarrierTheorems.SleepsThroughWrap | src/pthread_barrier.c:66-69 | with more threads than `count` >= 2 there is a run in which a thread woken in the first round compares after 2^32 rounds and goes back to sleep |
| BarrierTheorems.WrapSafeIff | src/pthread_barrier.c:66-69 | the wrapping comparison is right on every run if and only if there are at most `count` threads or `count` is 1 |
| BarrierTheorems.Pigeonhole | src/pthread_barrier.c:63-79 | distinct arrivals as many as there are threads are all the threads: the step from `count` arrivals to everybody |
| BarrierCode.NextJoined | src/pthread_barrier.c:64-77 | a thread joins a round by its own arrival and in no other way |
| BarrierCode.Barrier.Initialise | src/pthread_barrier.c:10-49 | EINVAL for count 0, else the initial fields |
| BarrierCode.Barrier.Arrival | src/pthread_barrier.c:65-76 | the critical section of an arrival in `unsigned` arithmetic, on the fields |
| BarrierCode.Barrier.Recheck | src/pthread_barrier.c:67-69 | the loop test: back to sleep if and only if the saved round equals the present one |
| BarrierCode.Barrier.Acquire | src/pthread_barrier.c:64-68 | the lock, or the condition wait and its re-lock, however often it has to be asked for |
| BarrierCode.Barrier.SleepLoop | src/pthread_barrier.c:67-69 | the do-while loop ends only by leaving with 0, in the round it slept in |
| BarrierCode.Barrier.Wait | src/pthread_barrier.c:63-79 | in any company a call that returns joined exactly one round, complete by then, and has the serial value if and only if it arrived last; a call that has not returned used all its turns |
| ThPoolInvariant.InitInv | src/threads/thpool.c:60-117 | a pool with all workers at the loop top starts the invariant |
| ThPoolInvariant.QuietMeansDone | src/threads/thpool.c:221-225 | nothing queued and running_count 0 means that every accepted task has run to its end |
| ThPoolInvariant.NextInv | src/threads/thpool.c:137-352 | every step of every worker and client keeps mutual exclusion, the FIFO, the owner of each started task, the running_count, the pause count, the wakeups and the joins |
| ThPoolInvariant.ScheduleInv | src/threads/thpool.c:137-352 | the same over every schedule |
| ThPoolTheorems.DispatchOrder | src/threads/thpool.c:152-342 | over every interleaving the successful inserts, in order, are the dispatched tasks followed by the queue, and the queue never exceeds queue_size |
| ThPoolTheorems.ExecutedOnce | src/threads/thpool.c:287-348 | a task's function runs once if it has completed and never otherwise |
| ThPoolTheorems.WaitMeansDone | src/threads/thpool.c:217-230 | when thpool_wait has returned, every task accepted before its last check has run exactly once, whoever ran it |
| ThPoolTheorems.TotalIsExact | src/threads/thpool.c:207-215 | thpool_total_tasks is exactly the accepted tasks whose running_count has not been lowered |
| ThPoolTheorems.WorkFindsWorker | src/threads/thpool.c:152-325 | with work queued, no adder between insert and signal and a worker left, some worker that has not exited is awake |
| ThPoolTheorems.NoLostShutdown | src/threads/thpool.c:232-237 | after the broadcast no worker sleeps on notify or is about to, ever again |
| ThPoolDrain.LeftBehind | src/threads/thpool.c:309-317 | once every worker has decided to leave, what is queued is what was inserted after the last such decision, less what try_once took since |
| ThPoolDrain.Drained | src/threads/thpool.c:309-351 | with every worker exited and no try_once running, every accepted task has run exactly once if and only if each insert after the last worker's decision to leave was made good by a try_once; without try_once, if and only if there was no such insert; none after the shutdown store is enough |
| ThPoolDrain.OrphansStay | src/threads/thpool.c:309-317 | once every worker has decided to leave, nothing but a try_once ever takes what is queued |
| ThPoolDrain.LateInsertIsLost | src/threads/thpool.c:144-159 | in every pool: after one thread's thpool_shutdown has returned, another's (or its own) thpool_add_task returns 0, and on no continuation without try_once is the task taken |
| ThPoolTheorems.JoinWaitsForAll | src/threads/thpool.c:238-240 | thpool_shutdown returns if and only if it has joined every worker, and then all have exited |
| ThPoolTheorems.PauseBound | src/threads/thpool.c:192-345 | after the hold store and before a resume the workers together take at most one more task |
| ThPoolTheorems.PauseStopsIff | src/threads/thpool.c:192-345 | they take none on any run if and only if no worker was past its hold test at the store: the one more task is taken on some run otherwise |
| ThPoolProgress.CompletionIsSignalled | src/threads/thpool.c:217-325 | one waiter, try_once by nobody else: whenever it sleeps with nothing queued or running, some worker is between its loop top and the signal on notify_empty |
| ThPoolProgress.RescueArrives | src/threads/thpool.c:306-312 | that worker, given the lock, wakes the waiter within four steps, before it can sleep or exit |
| ThPoolProgress.EndingMeasure | src/threads/thpool.c:300-352 | after the broadcast, with no task kept back by a pause, every worker step lowers 8 * queue_count + the ranks of the workers' positions, and no other step but an insert raises it |
| ThPoolProgress.WorkersRunOut | src/threads/thpool.c:300-352 | so under any scheduling that neither inserts nor pauses the workers take boundedly many more steps |
| ThPoolProgress.ShutdownCompletes | src/threads/thpool.c:232-352 | and from any such state, also on hold if the queue is empty or every worker is leaving, there is a continuation of steps of calls already made, without an insert or a pause, in which every worker exits |
| ThPoolProgress.ShutdownReturns | src/threads/thpool.c:232-352 | after the broadcast, with hold off, some continuation of steps of calls already made ends with every worker exited and the thread in thpool_shutdown returned |
| ThPoolHold.ShutdownOnHoldIff | src/threads/thpool.c:232-331 | after the broadcast, with nobody to resume, in try_once or past the lock of an add: thpool_shutdown can return without a further call if and only if hold is off, or every worker is leaving, or no more is queued than the workers past their hold test will take |
| ThPoolHold.PausedShutdownHangs | src/threads/thpool.c:192-241 | in every pool: a pause, an add and a thpool_shutdown after which, on every continuation without a further call, the shutdown does not return |
| ThPoolProgress.JoinsComplete | src/threads/thpool.c:238-240 | then the thread in thpool_shutdown returns |
| ThPoolLimits.WakeupIff | src/threads/thpool.c:217-351 | for every pool and every choice of who may call thpool_wait and who may call try_once: on all such runs whoever sleeps with nothing left to wait for has a worker on its way to the signal, if and only if no two different threads may, the one wait and the other wait or use try_once |
| ThPoolLimits.TryOnceStrandsWaiter | src/threads/thpool.c:287-292 | in every pool, for every two clients: a run in which only the one calls thpool_wait and only the other try_once ends with the waiter asleep, nothing queued or running and nobody to move |
| ThPoolLimits.TwoWaitersStrandOne | src/threads/thpool.c:310-312 | in every pool, for every two clients: a run in which only these call thpool_wait and nobody calls try_once ends the same way, the one signal having woken the other waiter |
| ThPoolLimits.QuietStays | src/threads/thpool.c:217-230 | in the end states of these two runs no thread moves by itself |
| ThPoolRuns.AddAlone | src/threads/thpool.c:137-160 | thpool_add_task run alone with room and nobody asleep: the task is last in the queue, 0 is returned and nothing else changes |
| ThPoolAlone.AddWakes | src/threads/thpool.c:152-159 | with a worker asleep it wakes that worker as well |
| ThPoolAlone.AddFull | src/threads/thpool.c:162-190 | thpool_add_task_try run alone on a full queue returns -1 after max_try + 1 attempts, at once for a negative max_try, and changes nothing |
| ThPoolAlone.TryFindsNothing | src/threads/thpool.c:263-269 | thpool_worker_try_once run alone on an empty queue returns -1 and changes nothing |
| ThPoolAlone.TryRuns | src/threads/thpool.c:263-293 | on any other it runs the first task and returns 0, whether the pool is on hold or not |
| ThPoolAlone.WaitReturns | src/threads/thpool.c:219-226 | thpool_wait run alone with nothing queued or running returns at once, whether the pool is on hold or not |
| ThPoolRuns.WaitSleeps | src/threads/thpool.c:219-227 | with anything queued or running it goes to sleep |
| ThPoolAlone.WaiterWokenByChance | src/threads/thpool.c:219-229 | a spurious wakeup of a waiter with anything queued or running: it looks again and sleeps again, and nothing else has changed |
| ThPoolAlone.WorkerWokenByChance | src/threads/thpool.c:309-325 | the same for a worker with nothing queued |
| ThPoolAlone.TotalAlone | src/threads/thpool.c:207-215 | thpool_total_tasks run alone returns queue_count plus running_count |
| ThPoolAlone.PausesAlone | src/threads/thpool.c:192-194 | thpool_pause run alone sets hold |
| ThPoolAlone.ResumesAlone | src/threads/thpool.c:196-201 | thpool_resume run alone clears hold, returns and changes nothing else, if nobody sleeps |
| ThPoolAlone.ResumeWakes | src/threads/thpool.c:196-201 | it wakes a sleeping worker as well |
| ThPoolAlone.WorkerHolds | src/threads/thpool.c:326-331 | a worker run alone on hold goes round its loop and leaves the queue as it is |
| ThPoolAlone.WorkerRuns | src/threads/thpool.c:306-351 | with hold off it runs the first task to its end and is back at its loop top |
| ThPoolAlone.ResumeServes | src/threads/thpool.c:196-351 | from any state with a queued task and a worker at its loop top: after a resume that worker can run the task, once, without a further call |
| ThPoolAlone.PauseAddResume | src/threads/thpool.c:137-351 | in every pool: after a pause, an add and a resume by any client there is a continuation without a call in which a worker runs the task, once |
| ThPoolCode.ThPool.constructor | src/threads/thpool.c:60-117 | the fields of a new pool are the model's initial state |
| ThPoolCode.ThPool.Put | src/threads/thpool.c:152-154 | writing at tail appends to the queue the ring buffer stands for |
| ThPoolCode.ThPool.Get | src/threads/thpool.c:277-282 | reading at head takes the first of that queue, whatever the wrap |
| ThPoolCode.ThPool.WorkerCode | src/threads/thpool.c:300-331 | _thpool_worker outside the handling of a task, on the fields, is the model's worker step |
| ThPoolCode.ThPool.PopCode | src/threads/thpool.c:277-342 | taking a task is the model's dequeue |
| ThPoolCode.ThPool.AddCode | src/threads/thpool.c:137-190 | both adds, on the fields, are the model's add steps |
| ThPoolCode.ThPool.WaitCode | src/threads/thpool.c:217-230 | thpool_wait, on the fields, is the model's wait step |
| ThPoolCode.ThPool.ControlCode | src/threads/thpool.c:192-269 | try_once before it has a task, pause and resume, on the fields; what these amount to is in the rows of ThPoolAlone, TryOnce and SetHold |
| ThPoolCode.ThPool.TotalCode | src/threads/thpool.c:207-215 | thpool_total_tasks, on the fields |
| ThPoolCode.ThPool.Execute | src/threads/thpool.c:137-352 | one event of any thread on the fields is exactly the model's step, recorded on the trail |
| ThPoolCode.ThPool.AddTaskTry | src/threads/thpool.c:137-190 | in any company 0 means that exactly this task was inserted once, -1 that none was and that max_try + 1 tests of its own, at stated and different past states, found queue_count equal to queue_size; the trail is the entry and the turns taken |
| ThPoolCode.ThPool.TryOnce | src/threads/thpool.c:255-293 | in any company 0 means exactly one task run to its end, -1 none and an empty queue at a stated past state during the call |
| ThPoolCode.ThPool.SetHold | src/threads/thpool.c:192-201 | thpool_pause and thpool_resume in any company: when they return, hold was set, or clear, at a stated past state during the call |
| ThPoolCode.ThPool.TotalTasks | src/threads/thpool.c:207-215 | in any company the number returned is that of the tasks queued and running at a stated past state during the call |
| ThPoolCode.ThPool.WaitForAll | src/threads/thpool.c:217-230 | in any company, when it returns every task accepted before the call has completed |
| ThPoolCode.ThPool.ShutDown | src/threads/thpool.c:232-241 | in any company, when it returns every worker has exited |
| Trails.PathRuns | src/threads/thpool.c:137-352 | of this class as of the other three: the present fields are what the model makes of any earlier ones and the events since |
| LfPoolInvariant.InitInv | src/threads/lfthpool.c:62-111 | a new pool with all workers at the loop top starts the invariant |
| LfPoolInvariant.StepOwner | src/threads/lfthpool.c:127-291 | every step keeps exactly one owner (adder, queue or executor) for a live node and none for a freed one |
| LfPoolInvariant.StepRun | src/threads/lfthpool.c:231-291 | every step keeps: a dequeued node has run once, or the thread that dequeued it still has to run it |
| LfPoolInvariant.NextInv | src/threads/lfthpool.c:127-291 | every step of every thread keeps the invariant or deletes the pool without a fault |
| LfPoolInvariant.ScheduleInv | src/threads/lfthpool.c:127-291 | the same over every schedule |
| LfPoolTheorems.NeverFaults | src/threads/lfthpool.c:127-291 | over every schedule no node is used after free and none is freed twice, also not by the deletion of the queue |
| LfPoolTheorems.UniqueOwner | src/threads/lfthpool.c:127-291 | two threads never have the same node, and nobody has a queued or freed one |
| LfPoolTheorems.OwnedSomewhere | src/threads/lfthpool.c:127-291 | a live node that is not queued is in some thread's hands |
| LfPoolTheorems.FreedOnce | src/threads/lfthpool.c:127-291 | over every run an allocated node has been freed exactly once if it is not alive and never if it is |
| LfPoolTheorems.RunOnce | src/threads/lfthpool.c:222-285 | over every run, also one that ends with the pool destroyed, a task runs at most once, and only if its node was enqueued |
| LfPoolTheorems.DestroyFreesAll | src/threads/lfthpool.c:222-229 | after destroy every node has been freed if and only if no thread had one in its hands |
| LfPoolDrain.ShutdownLeaves | src/threads/lfthpool.c:211-279 | from the shutdown store on, with no other user and no new call: once the workers are gone, or the pool is freed, as many accepted tasks have not run as were queued at the store beyond the workers then at their dequeue, or past their shutdown test with hold off |
| LfPoolDrain.AllRunIff | src/threads/lfthpool.c:211-279 | so every accepted task runs, once, if and only if no more were queued at the store than there were such workers |
| LfPoolDrain.DestroyDropsTask | src/threads/lfthpool.c:222-229 | in every pool: a run in which one thread adds a task with success and destroys the pool, and the task's node is freed without having run |
| LfPoolTheorems.WaitGuarantee | src/threads/lfthpool.c:190-209 | at the last re-check of lfthpool_wait an accepted task has run, or exactly one thread stands between its dequeue and its increment with it |
| LfPoolTheorems.WaitCompleteIff | src/threads/lfthpool.c:190-209 | lfthpool_wait returns with all those tasks done if and only if no thread stands in that window with one of them |
| LfPoolTheorems.WaitShortfall | src/threads/lfthpool.c:190-209 | the unfinished ones number at most the threads in that window |
| LfPoolTheorems.WaitIsWeak | src/threads/lfthpool.c:276-282 | in every pool: a run in which lfthpool_wait returns although a task that the same thread had added before the call has not begun |
| LfPoolTheorems.PauseBound | src/threads/lfthpool.c:174-279 | after the hold store and before a resume each worker dequeues at most one more task |
| LfPoolTheorems.PauseStopsIff | src/threads/lfthpool.c:174-279 | a worker dequeues none on any run if and only if at the store it was not between its hold test and its dequeue |
| LfPoolProgress.WorkerLeaves | src/threads/lfthpool.c:211-291 | after the shutdown store a worker has exited once it has had at most seven steps of its own, whatever the others do; it dequeues at most one more node, and only if it was past its shutdown test |
| LfPoolProgress.JoinsComplete | src/threads/lfthpool.c:211-220 | from any such state there is a continuation without a new call in which every join of lfthpool_shutdown completes and it returns, or goes on to destroy |
| LfPoolAlone.AddAlone | src/threads/lfthpool.c:127-172 | both adds run alone with room return 0, whatever max_try, with the task last in the queue in a node of its own |
| LfPoolAlone.AddTryFull | src/threads/lfthpool.c:156-169 | lfthpool_add_task_try run alone on a full queue returns -1 after max_try + 2 attempts, at least one, with its node freed |
| LfPoolAlone.AddFull | src/threads/lfthpool.c:137-141 | lfthpool_add_task on a full queue returns -1 after one, with its node freed |
| LfPoolAlone.AddFails | src/threads/lfthpool.c:127-162 | without memory both return -1 and change nothing; on another error of the queue they free the node and return -1, or that error |
| LfPoolAlone.TryFindsNothing | src/threads/lfthpool.c:231-238 | lfthpool_worker_try_once run alone on an empty queue returns -1 and changes nothing |
| LfPoolAlone.TryRuns | src/threads/lfthpool.c:231-255 | on any other it runs the first task, frees its node and returns 0, on hold or not |
| LfPoolAlone.WorkerRuns | src/threads/lfthpool.c:261-291 | a worker run alone with hold off runs the first task, frees its node and is back at its loop top |
| LfPoolAlone.WorkerIdles | src/threads/lfthpool.c:261-279 | on hold, or with nothing queued, it goes round its loop and changes nothing |
| LfPoolAlone.WaitReturns | src/threads/lfthpool.c:190-209 | lfthpool_wait run alone with nothing queued or running returns, on hold or not |
| LfPoolAlone.WaitLooksAgain | src/threads/lfthpool.c:190-199 | with anything queued or running it looks again from the start |
| LfPoolAlone.WaitRechecks | src/threads/lfthpool.c:202-206 | so it does if something is running at its last look |
| LfPoolAlone.HoldAlone | src/threads/lfthpool.c:174-180 | lfthpool_pause sets hold, lfthpool_resume clears it, and neither does more |
| LfPoolAlone.ResumeServes | src/threads/lfthpool.c:178-291 | from any state with a queued task and a worker at its loop top: after a resume that worker runs the task in seven steps |
| LfPoolAlone.PauseAddResume | src/threads/lfthpool.c:127-291 | in every pool: after a pause, an add by either call and a resume by any client, worker 0 runs the task, once, and frees its node |
| LfPoolDrain.ShutdownAlone | src/threads/lfthpool.c:211-220 | lfthpool_shutdown of a pool whose workers stand at their loop top: they exit, the call returns, the queue is left as it is |
| LfPoolCode.LfPool.constructor | src/threads/lfthpool.c:62-111 | the fields of a new pool are the model's initial state |
| LfPoolCode.LfPool.DeleteQueue | src/threads/lfthpool.c:226-226 | deleting the queue frees each remaining node, one by one, as the model does |
| LfPoolCode.LfPool.ControlCode | src/threads/lfthpool.c:174-235 | the dequeue of try_once, pause, resume, the ends of shutdown and destroy, on the fields |
| LfPoolCode.LfPool.Execute | src/threads/lfthpool.c:127-291 | one event of any thread on the fields is exactly the model's step, recorded on the trail |
| LfPoolCode.LfPool.AddTask | src/threads/lfthpool.c:127-172 | in any company 0 means that exactly this task was enqueued in a node of its own; otherwise nothing was and no node is left; each attempt counted as full, at stated and different past states, found the queue at its capacity; barring errors it gives up after max_try + 2 of them, one at least; any other code returned is that of an error of the queue, and only from lfthpool_add_task_try |
| LfPoolCode.LfPool.TryOnce | src/threads/lfthpool.c:231-255 | in any company 0 means exactly one task run and one node freed, -1 neither and an empty queue at a stated past state during the call |
| LfPoolCode.LfPool.SetHold | src/threads/lfthpool.c:174-180 | lfthpool_pause and lfthpool_resume in any company: when they return, hold was set, or clear, at a stated past state during the call |
| LfPoolCode.LfPool.WaitForAll | src/threads/lfthpool.c:190-209 | in any company, when it returns the accepted tasks still unfinished number at most the threads in the window |
| LfPoolCode.LfPool.ShutDown | src/threads/lfthpool.c:211-220 | in any company, when it returns every worker has exited |

## Left out

- `psem`: it has no state or predicate, so there is nothing to keep invariant.
- CPU counts, macOS dispatch semaphores, clocks, `sleep`, `usleep`, `sched_yield` and `errno`: platform calls. A sleep
  is a step that does nothing; a deadline that passes is an event of the environment.
- Creation and destruction: allocation failures in the create functions, thread creation, attributes,
  `pthread_barrier_destroy`, `lusem_destroy` and the frees of `thpool_destroy` after its shutdown. Runs start from a
  built object with all workers at the loop top; nothing is modelled after `lfthpool_destroy` has freed the pool.
- The ring queue under `lfthpool` and `size_to_power_of_2`: the library that provides them is not part of this model.
  The queue is an atomic bounded FIFO whose length is read exactly and whose deletion frees each element left in it.
- The loop nesting of the pools' C functions: their program points and branches are those of the C code, the loops
  around them are not written out.
- Weaker memory orders: the atomic accesses are sequentially consistent.
- What a task's function does: it ends, and is recorded as one event. A task that calls the pool it runs in is not
  modelled.
- Integer widths of `m_count`, `running_count` and the queue counters: they are unbounded, except that a decrement of
  `running_count` below 0 would wrap (the invariant excludes it). `LusemTheorems.Bounds` gives the range `m_count`
  stays in. The barrier's `unsigned` fields do wrap.
- Liveness of `thpool_wait` beyond the condition of `WakeupIff`: the code does not provide it.
- Fairness as such: the end of a shutdown is stated as a bound on the workers' steps and a continuation that reaches
  it.
- `thpool_active_tasks`, `thpool_workers_count`, `lfthpool_active_tasks`, `lfthpool_workers_count` and
  `lfthpool_total_tasks` as calls of their own: they read one or two counters.
- LfPoolCode.LfPool.AddTask: an error of the queue other than fullness carries a code that is assumed not to be 0, as
  the queue's own success code is.
- LfPoolCode.LfPool.WaitForAll: no call in its company destroys the pool, which the library does not allow either.
- The order in which waiting threads get a mutex: a lock is one try per step, neither fair nor first-come.
- Benchmarks, tests and the build files.
