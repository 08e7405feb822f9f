# Tpool: verified protocols

Tpool is a C++ thread pool built on mutexes and condition variables. This project models its
concurrent protocols in Dafny and proves what each of them promises, for any number of threads,
tasks and operations.

| file | models |
|---|---|
| `PoolProtocol`, `PoolInvariants`, `PoolTheorems`, `PoolLiveness`, `FixedThreadPool` | stopping the pool: `StopAsync`, `Stop`, `StopNow`, `AddTask`, the worker loop and its end |
| `TimerQueue` | the deadline heap and the timer's critical section, on mutable task objects |
| `TimerProtocol`, `TimerTheorems`, `TimerThread` | the timer thread among submitters, cancellers and stoppers; the heap simulates its queue |
| `QueueProtocol`, `QueueRefinement`, `QueueLiveness`, `BlockingQueue` | both blocking queues, with an explicit lock |
| `CyclicBarrier`, `CancelableThread`, `TaskLifecycle`, `FutureTask` | the barrier, thread cancellation, task cancellation, futures |
| `ThreadPoolTimerTask`, `TimedWait`, `BracketScanner` | the pool's timer task, clock arithmetic, the bracket matcher of `cpplint.py` |
| `Sums`, `Wrappers` | sums over sequences, `Option` |

How the protocols are modelled. Each protocol has a state, a set of steps with `Enabled` and
`Apply`, and `Path` for a run of any length. A step is one atomic read or write or one critical
section; the queue protocol goes further and makes taking the lock, testing, sleeping, notifying,
mutating and releasing steps of their own, and `QueueRefinement` shows that the calls then take
effect one at a time, so that the pool may take a push or a pop as one step. The methods of
`BlockingQueues.BlockingQueue` perform uninterrupted passes of that protocol. A condition wait is two
steps, going to sleep and testing again; a sleeper moves only when it is notified or, at any time,
spuriously. The lockers of `include/ConditionVariable.h` are these steps. Main theorems speak of
every state on every path from an initial state; fields described as accounting record history, and
no step's guard or effect on other fields reads them.

The classes carry the fields of the C++ objects. Their methods are the source's methods, cut at
the waits; `View()` is the protocol state of the object, and a method says which step it takes. Where
a method spans several steps, `Preempt` stands for everything the other threads may do in
between: callers know only that some run of other threads' steps has happened.

Conditions under which the guarantees hold, and lemmas that show they are needed:

- a pool needs a thread (`PoolLiveness.EmptyPoolNeverFinishes`);
- when `Run` was called once and is over, the task is RUNNING if and only if an exception other than
  the cancel exception escaped (`TaskLifecycle.SingleRunEscapes`). When calls of `Run` overlap, the
  last write of the state decides: once nobody is inside `Run`, the task is RUNNING if and only if
  the runner that wrote last is one that escaped (`TaskLifecycle.RunningIffLastWriterEscaped`), so
  an escape can also leave it FINISHED (`TaskLifecycle.OverlappingEscapeIsHidden`). A task left
  RUNNING, or never run, is exactly what strands its cancellers
  (`TaskLifecycle.EscapeStrandsCancellers`);
- a finished pool has an EndTask missing or left over if and only if some worker was lost to an
  escaping exception, or to a cancellation found before it had popped an EndTask
  (`PoolTheorems.NoEndLeftIff`, `PoolTheorems.EscapeLeavesEnd`);
- a finished cancel is final if and only if no other runner is past its check
  (`TaskLifecycle.StoppedForever`), and that other runner can exist
  (`TaskLifecycle.ReturnedCancelCanBeUndone`);
- the timer thread can time out from the deadline on, plus the time between reading the clock and
  arming the timeout, and that can be after the deadline (`TimerTheorems.LatenessIsBounded`,
  `TimerTheorems.TimeoutCanBeLate`);
- a barrier waiter released by a trip returns 1 if `Reset` comes first
  (`CyclicBarrierProtocol.ReleasedCallerMayReturnOne`, `CyclicBarrierProtocol.ReturnsOneIffReset`);
- producers and consumers complete when their plans fit, provided no thread is both
  (`QueueLiveness.StuckOnlyWhenDone`, `QueueLiveness.DoneOnlyWhenPlansFit`,
  `QueueLiveness.MixedProgramCanStick`).

## Model

| member | source | states |
|---|---|---|
| PoolTheorems.GracefulStopDrains | include/FixedThreadPool.h:180-256 | in every run without StopNow and without an escaping exception, when the pool is finished every popped task, so every task pushed before an EndTask, was run exactly once; no EndTask is left; leftovers were admitted before the CAS |
| PoolTheorems.DrainsUnlessLost | include/FixedThreadPool.h:180-256 | the same in any run, StopNow included, after which no worker has its cancel flag set or was lost to an exception |
| PoolTheorems.CausesOfLoss | include/FixedThreadPool.h:180-223 | a worker's cancel flag is set iff a call of StopNow set it for that worker; a worker is lost iff an exception escaped from a task it ran; a task is asked to cancel itself iff a call of StopNow found a worker with it; the stop flag is set iff a CAS was made |
| PoolTheorems.CancelledWorkerTakesNothing | src/WorkerThread.cpp:93-103 | a worker whose cancel flag is set before one of its first two checks never takes anything from the queue again |
| PoolTheorems.RunsAreAccounted | src/WorkerThread.cpp:107-117 | calls of Run are those that returned or escaped plus the workers inside one |
| PoolTheorems.NoEndLeftIff | include/FixedThreadPool.h:202-206 | a finished pool has pushed all EndTasks and left none queued if and only if no worker left by an escaping exception, or by a cancellation found when it had popped nothing or a task |
| PoolTheorems.EscapeLeavesEnd | src/WorkerThread.cpp:93-120 | that happens: an exception escapes from a task, the pool finishes, Stop returns, and its EndTask is still queued |
| PoolTheorems.EndsStillQueued | include/FixedThreadPool.h:202-206 | queued EndTasks are those pushed less the workers that took one; once nobody is pushing, one per worker was pushed |
| PoolTheorems.FinishedOnceAndLast | include/FixedThreadPool.h:259-276 | FINISHED is written at most once, and only after every worker's increment |
| PoolTheorems.StopIsSignalled | include/FixedThreadPool.h:153-176 | a sleeper in Stop implies the stop flag and an unfinished pool; Stop returns only when finished, StopNow only when every thread is gone |
| PoolTheorems.TasksAreConserved | src/WorkerThread.cpp:93-126 | every accepted occurrence is in exactly one of queue, a worker's hands, runs, drops; no two workers have the same one; a dropped one was dropped by a cancelled worker that left with it |
| PoolTheorems.OneRunAfterCancel | src/WorkerThread.cpp:93-120 | once its cancel flag is set a worker calls Run at most once more |
| PoolTheorems.StopNowWarns | include/FixedThreadPool.h:211-223 | from cancelling a worker's task to joining the worker, it can run only a task that was asked to cancel itself |
| PoolTheorems.NoWorkerStarves | src/WorkerThread.cpp:74-126 | once all EndTasks are pushed, a worker holding its guard in Pop finds the queue non-empty and releases the guard at its next step |
| PoolLiveness.StopIsDeadlockFree | include/FixedThreadPool.h:153-240 | while any stop call is under way some worker or stopper can move |
| PoolLiveness.MoveDecreases | include/FixedThreadPool.h:153-276 | every move of a worker or stopper lowers a measure of the whole pool |
| PoolLiveness.StoppingCompletes | include/FixedThreadPool.h:153-276 | in any run, moves of workers and stoppers and pushes of clients are bounded by a measure plus what new stop calls, spurious wakeups and AddTask calls from before the CAS give; calls of AddTask after it give nothing; and when no worker or stopper can move every stop call has returned |
| PoolLiveness.StepPays | include/FixedThreadPool.h:243-256 | each push of a client uses up what reading the unset stop flag gave it, and every other step keeps the same account |
| PoolLiveness.EmptyPoolNeverFinishes | include/FixedThreadPool.h:259-276 | without workers the pool never finishes and no Stop returns |
| PoolInvariants.StepKeepsInv | include/FixedThreadPool.h:153-302 | every step of workers, clients and stoppers keeps the pool invariant |
| PoolInvariants.WorkersChange | src/WorkerThread.cpp:93-126 | a worker's step changes that worker only, a push only wakes, a cancel request only sets the flag |
| PoolInvariants.StepKeepsEndsInv | include/BlockingQueue.h:33-50 | the number of popped EndTasks stays equal to the number of workers that took one |
| PoolInvariants.StepKeepsRanksInv | include/FixedThreadPool.h:259-276 | increments give each worker its own rank and FINISHED belongs to the worker with the last one |
| PoolInvariants.LastOneWritesOnce | include/FixedThreadPool.h:269-275 | the worker whose increment reached the number of threads finds the pool unfinished |
| PoolInvariants.StepKeepsStoppersInv | include/FixedThreadPool.h:153-240 | what is known at each point of Stop and StopNow stays true under all steps |
| PoolInvariants.StepKeepsWinnerInv | include/FixedThreadPool.h:180-208 | one stopper at a time pushes EndTasks, and some stopper does until all are pushed |
| PoolInvariants.StepKeepsConservationInv | src/WorkerThread.cpp:93-126 | every step keeps the count of places of each occurrence |
| PoolInvariants.WarnedStays | src/WorkerThread.cpp:74-84 | no step gives a warned worker a task that was not asked to cancel itself |
| ThreadPool.FixedThreadPool.DoAddTask | include/FixedThreadPool.h:243-256 | refused exactly when the flag is set at the test; otherwise pushed last, even if a stop comes in between |
| ThreadPool.FixedThreadPool.StopAsync | include/FixedThreadPool.h:180-208 | under interference the winner of the CAS leaves exactly one EndTask per thread pushed and a loser pushes none |
| ThreadPool.FixedThreadPool.CompareAndSet | include/FixedThreadPool.h:182 | the CAS step of the protocol; it wins iff the flag was unset |
| ThreadPool.FixedThreadPool.PushEndTask | include/FixedThreadPool.h:205 | one push of an EndTask is the protocol step, waking workers of an empty queue |
| ThreadPool.FixedThreadPool.StopPass | include/FixedThreadPool.h:162-165 | one pass of the wait in Stop returns iff the pool is finished and otherwise sleeps |
| ThreadPool.FixedThreadPool.PopPass | src/WorkerThread.cpp:122-126 | takes the oldest element or sleeps; never sleeps once all EndTasks are pushed |
| ThreadPool.FixedThreadPool.NotifyWhenThreadsStop | include/FixedThreadPool.h:259-276 | under interference the last worker leaves the pool finished; a finished pool has nobody asleep in Stop |
| PoolTimerTask.ThreadPoolTimerTask.DoRun | include/FixedThreadPool.h:314-332 | a task being cancelled is run, which makes exactly the steps of a skipped Run, wakes its cancellers and leaves it CANCELLED unless other runners move; otherwise the task is pushed unless the pool is stopping; whenever it was not pushed the timer task cancels itself and throws |
| TimerQueues.RootIsMinimum | src/Timer.cpp:58-62 | the root of the heap has the least deadline of all queued tasks |
| TimerQueues.TimerQueue.PopMin | src/Timer.cpp:64-70 | removes the root and leaves a heap of the rest, whatever the root's own deadline is |
| TimerQueues.TimerQueue.PopMinAndPush | src/Timer.cpp:72-80 | leaves a heap of the same tasks even if the root's deadline was changed before |
| TimerQueues.TimerQueue.Insert | src/Timer.cpp:86 | leaves a heap with the task added |
| TimerQueues.TimerQueue.Clear | src/Timer.cpp:121-124 | popping until nothing is left ends with an empty queue |
| TimerQueues.SiftUpStep | src/Timer.cpp:84-91 | one step up moves the only misplaced entry up |
| TimerQueues.SinkStep | src/Timer.cpp:64-70 | one step down along the earlier child keeps all other entries ordered |
| TimerQueues.Timer.Rearm | src/Timer.cpp:196-197 | raising the root's deadline in place and re-pushing leaves a heap of the same tasks with no other deadline moved |
| TimerQueues.Timer.Pass | src/Timer.cpp:179-208 | the minimum task is dropped, fired, fired and re-armed, or slept for, exactly by its flags and deadline |
| TimerQueues.Timer.Drain | src/Timer.cpp:163-216 | at a fixed clock the loop ends; every due task is dropped, or fired exactly once and re-armed iff it has an interval |
| TimerQueues.Timer.PassDecreases | src/Timer.cpp:163-216 | queued plus due tasks decrease at every pass that does not sleep |
| TimerQueues.Timer.DoRunLater | src/Timer.cpp:229-249 | accepts iff not stopping and never submitted before; queues the task with deadline now + delay |
| TimerQueues.Timer.DoRunEvery | src/Timer.cpp:251-279 | likewise, with first deadline now or now + interval and the interval stored |
| TimerQueues.Timer.StopAsync | src/Timer.cpp:281-286 | sets the cancel flag and empties the queue |
| TimerThread.DequeuePass | src/Timer.cpp:179-208 | a pass on the heap is the protocol's ReadMin and Decide on the set of tasks |
| TimerThread.PushTask | src/Timer.cpp:84-91 | PushTask on the heap is the protocol's Push on the set, which wakes the thread |
| TimerThread.ClearQueue | src/Timer.cpp:119-126 | Clear on the heap is the protocol's Clear, which wakes the thread |
| TimerProtocol.StepKeepsInv | src/Timer.cpp:163-286 | every step of thread, submitters, cancellers and stoppers keeps the timer invariant |
| TimerProtocol.DecideKeepsTask | src/Timer.cpp:191-203 | re-arming keeps first deadline + fires * interval at or below the deadline |
| TimerProtocol.MinimumStays | src/Timer.cpp:163-216 | a queued minimum stays one until a push, a clear or the thread's own decision |
| TimerTheorems.NoMissedWakeup | src/Timer.cpp:163-286 | asleep in Wait means an empty queue, asleep in TimedWait means the armed deadline is the minimum; a pending stop has its Clear to come, which wakes the thread |
| TimerTheorems.LatenessIsBounded | src/Timer.cpp:204-208 | the thread can time out exactly from the armed deadline on plus the time between reading the clock and arming |
| TimerTheorems.TimeoutCanBeLate | src/Timer.cpp:204-208 | with 3 ms between reading and arming, a deadline can have come while the thread may not yet time out |
| TimerTheorems.StoppedThreadEnds | src/Timer.cpp:281-292 | once some StopAsync cleared the queue the thread takes at most five more steps, can always take one until it has exited, and never sleeps |
| TimerTheorems.NothingAfterStop | src/Timer.cpp:281-286 | after a StopAsync returned nothing is dequeued and at most one body, dequeued before, is run |
| TimerTheorems.NeverBeforeDeadline | src/Timer.cpp:179-215 | a body never begins before the deadline its task came due at |
| TimerTheorems.ExecutionBound | src/Timer.cpp:191-203 | a one-shot body runs at most once ever; an interval body at most 1 + (t - d) / interval times by t, and never before d |
| TimerTheorems.EveryFiringRuns | src/Timer.cpp:191-215 | an uncancelled task's body has begun once for each time it came due, save the firing under way; until a clear, an accepted one-shot task is queued, about to run, or has run exactly once, and an accepted interval task is queued; a cancelled one is queued, about to be dealt with, CANCELLED or done before |
| TimerTheorems.ThreadMovesOn | src/Timer.cpp:163-216 | an awake thread can always step and reaches its next decision or sleep within seven own steps; asleep with tasks queued it can go on from the earliest deadline plus the arming gap; a decision on a due task fires it |
| TimerTheorems.BodiesAreAccounted | src/TaskBase.cpp:37-52 | bodies begun are those that ended plus the one under way |
| TimerTheorems.ExitsOnlyWhenStopped | src/Timer.cpp:163-216 | the thread exits only after a stop request or an exception that escaped from a body |
| TimerTheorems.EscapeEndsTimer | src/Timer.cpp:211-215 | after such an escape nothing is dequeued or run in any run |
| TimerTheorems.DeadlinesAsAsked | src/Timer.cpp:229-279 | a task's first deadline and interval are the clock plus delay, and the interval, of a call of its submitter |
| TimerTheorems.StopRefusesSubmissions | src/Timer.cpp:234-237 | a task whose submitter had not passed its check when a stop was requested is never queued |
| TimerTheorems.CancelledExactly | src/TaskBase.cpp:37-73 | a timer task is asked to cancel itself iff CancelAsync was called on it, and is CANCELLED iff it found the request |
| TimerTheorems.OneSubmission | src/Timer.cpp:239-247 | first deadline and interval are fixed by the first accepted submission; deadlines only move forward |
| TimerTheorems.CancelledNeverRuns | src/TaskBase.cpp:37-52 | once cancellation of a timer task is requested its body never begins again |
| TimedWait.ComputeTimeout | src/ConditionVariable.cpp:46-55 | the timeout is normalised and exactly now plus the delay |
| TimedWait.CurrentTime | src/Timer.cpp:14-21 | the time in milliseconds, truncated |
| TimedWait.ExpiryMeetsDeadline | src/Timer.cpp:206-207 | a timeout armed for deadline - now finds the deadline reached when it expires, and is late only by the time between the two clock readings |
| TimedWait.TimeoutIsUnique | src/ConditionVariable.cpp:49-55 | two normalised timeouts are equal iff they name the same instant |
| TimedWait.RetryInterrupted | src/ConditionVariable.cpp:57-67 | interrupted waits are repeated; the first other result decides |
| QueueRefinement.PathRefinesAtomicQueue | include/BoundedBlockingQueue.h:48-144 | along every run of fine steps the calls take effect one at a time as on an atomic queue, with the same results |
| QueueRefinement.EffectStep | include/BoundedBlockingQueue.h:48-144 | a mutating step, or a refusing test, is the atomic effect of that call |
| QueueRefinement.SilentStep | include/ConditionVariable.h:53-136 | all other steps are invisible to the atomic queue |
| QueueRefinement.FirstInFirstOut | include/BlockingQueue.h:33-76 | pushed = popped followed by contents; the bound holds; each producer's elements leave in call order with the values of the calls |
| QueueRefinement.NeverBothAsleep | include/BoundedBlockingQueue.h:48-95 | a sleeper on the empty condition implies an empty queue, on the full condition a full one; never both kinds |
| QueueProtocol.StepKeepsInv | include/BoundedBlockingQueue.h:48-144 | every fine step keeps mutual exclusion, the wait conditions, the contents and the order |
| QueueProtocol.MutateKeepsWaitInv | include/BoundedBlockingQueue.h:48-95 | changing the queue after notifying only on the transition leaves nobody asleep wrongly |
| QueueLiveness.StuckOnlyWhenDone | include/BoundedBlockingQueue.h:48-95 | producers and consumers whose plans fit are never stuck before every call is over |
| QueueLiveness.DoneOnlyWhenPlansFit | include/BoundedBlockingQueue.h:48-130 | for any programs of blocking calls the condition is necessary, and the queue then holds the difference |
| QueueLiveness.EveryStepUsesUp | include/BoundedBlockingQueue.h:48-144 | every step but a spurious wakeup lowers a measure |
| QueueLiveness.RunsAreBounded | include/BoundedBlockingQueue.h:48-144 | so, for any programs, the steps of a run are bounded by the measure and the number of its spurious wakeups |
| QueueLiveness.MixedProgramCanStick | include/BoundedBlockingQueue.h:82-95 | a thread that pops before it pushes gets stuck though its plan fits |
| QueueLiveness.StepKeepsBalance | include/BoundedBlockingQueue.h:48-130 | contents plus what threads still owe is constant |
| BlockingQueues.BlockingQueue.Push | include/BoundedBlockingQueue.h:48-58 | appends, or sleeps exactly when full; the pass is a run of protocol steps |
| BlockingQueues.BlockingQueue.NonblockingPush | include/BoundedBlockingQueue.h:60-73 | appends, or refuses exactly when full |
| BlockingQueues.BlockingQueue.Pop | include/BoundedBlockingQueue.h:82-95 | removes and returns the oldest element, or sleeps exactly when empty |
| BlockingQueues.BlockingQueue.NonblockingPop | include/BoundedBlockingQueue.h:97-115 | removes and returns the oldest element, or refuses exactly when empty |
| BlockingQueues.BlockingQueue.Front | include/BoundedBlockingQueue.h:117-130 | returns the oldest element and leaves the queue alone |
| BlockingQueues.BlockingQueue.NonblockingFront | include/BoundedBlockingQueue.h:132-144 | likewise, refusing exactly when empty |
| CyclicBarrierProtocol.StepKeepsInv | include/CyclicBarrier.h:22-58 | every step keeps the accounting of arrivals, generations and waiters |
| CyclicBarrierProtocol.BarrierAccounting | include/CyclicBarrier.h:22-58 | 1 <= count <= max; max - count callers hold the current ticket; calls of Wait = max * trips + discarded + (max - count) |
| CyclicBarrierProtocol.OldGenerationsLeave | include/CyclicBarrier.h:37-47 | whoever belongs to a generation that is over is awake and leaves at its next pass |
| CyclicBarrierProtocol.ReturnValue | include/CyclicBarrier.h:24-49 | 0 means exactly max callers arrived in the caller's generation; 1 means a later reset index |
| CyclicBarrierProtocol.ReturnsOneIffReset | include/CyclicBarrier.h:35-47 | a blocked caller returns 1 iff Reset was called between its arrival and its last pass, else 0 after a trip |
| CyclicBarrierProtocol.ReleasedCallerMayReturnOne | include/CyclicBarrier.h:43-46 | a caller released by a trip can still return 1 |
| CyclicBarrierProtocol.CyclicBarrier.Enter | include/CyclicBarrier.h:22-41 | the arrival trips the barrier iff it is the last one, else sleeps with the current ticket |
| CyclicBarrierProtocol.CyclicBarrier.Reenter | include/CyclicBarrier.h:37-49 | sleeps again iff the ticket is current, else returns by the reset index |
| CyclicBarrierProtocol.CyclicBarrier.ResetAll | include/CyclicBarrier.h:52-58 | refills the count, starts a generation and wakes everybody |
| TaskLifecycle.StepKeepsInv | src/TaskBase.cpp:37-73 | every step of runners and cancellers keeps the task invariant |
| TaskLifecycle.SleeperIsAwaited | src/TaskBase.cpp:37-67 | a sleeper in Cancel has its request recorded and, if the task is stopped, a runner whose pending notification wakes it |
| TaskLifecycle.RunningHasOwner | src/TaskBase.cpp:41-45 | RUNNING implies a runner inside DoRun, or one that an exception took out of it |
| TaskLifecycle.RunningIffLastWriterEscaped | src/TaskBase.cpp:37-57 | for any number of overlapping runs: once nobody is inside Run, the task is RUNNING iff the runner that wrote the state last is one that escaped |
| TaskLifecycle.SingleRunEscapes | src/TaskBase.cpp:39-51 | when Run was called once and is over, the task is RUNNING iff an exception escaped |
| TaskLifecycle.SingleRunOutcome | src/TaskBase.cpp:37-57 | run once, a task is FINISHED iff DoRun returned and CANCELLED iff the request was found or thrown; the request is on record iff Cancel or CancelAsync was called; without it and without an escape the task ends FINISHED |
| TaskLifecycle.OverlappingEscapeIsHidden | src/TaskBase.cpp:39-51 | with two runs an escape can leave the task FINISHED |
| TaskLifecycle.EscapeStrandsCancellers | src/TaskBase.cpp:37-67 | when nobody is inside Run, a waiting canceller returns in no run without a further call of Run iff nothing wrote the state yet or the last writer escaped |
| TaskLifecycle.EscapeIsReachable | src/TaskBase.cpp:39-51 | that situation occurs |
| TaskLifecycle.StoppedForever | src/TaskBase.cpp:59-67 | a cancelled, stopped task stays stopped in every run iff no runner is between its check and RUNNING |
| TaskLifecycle.ReturnedCancelCanBeUndone | src/TaskBase.cpp:37-67 | the failing case is reachable: Cancel has returned from a FINISHED task and a second runner is about to write RUNNING |
| TaskLifecycle.CancelMakesProgress | src/TaskBase.cpp:37-67 | while a task is being run its runners can step, at most four times each, and when they are out without an escape every waiting canceller is awake and returns at its next test |
| TaskLifecycle.CancelIsFinal | src/TaskBase.cpp:59-67 | with a single Run, Cancel returns in a stop state that never changes |
| TaskLifecycle.TaskBase.Run | src/TaskBase.cpp:37-57 | under interference the runner makes exactly the steps of one of the four ends of Run; DoRun is skipped only, and always, for a recorded request; nobody is asleep in Cancel afterwards unless an exception escaped; with no other runner moving the state is CANCELLED, FINISHED or RUNNING by that end |
| TaskLifecycle.TaskBase.WaitPass | src/TaskBase.cpp:64-66 | returns with the task stopped and the request on record; if it sleeps, whatever step stops the task leaves its runner about to wake this caller |
| TaskLifecycle.TaskBase.NotifyStopped | src/TaskBase.cpp:54-56 | the conditional notification leaves nobody asleep |
| CancelableThreadProtocol.SleeperIsAwaited | src/CancelableThread.cpp:53-59 | a sleeper in Cancel implies the flag and an unfinished thread |
| CancelableThreadProtocol.FinishActionRunsOnce | src/CancelableThread.cpp:137-158 | the finish action runs at most once, and has run when FINISHED is visible |
| CancelableThreadProtocol.CancelMakesProgress | src/CancelableThread.cpp:53-158 | a waiting Cancel can test or the thread can move, at most five more times |
| CancelableThreadProtocol.EarlyCancelSkipsWork | src/CancelableThread.cpp:139-144 | a request before the first check keeps the thread out of the work function in every run |
| CancelableThreadProtocol.WorkIsDone | src/CancelableThread.cpp:137-158 | a thread that is over without any request has been through its work function |
| CancelableThreadProtocol.CancelableThread.ThreadFunction | src/CancelableThread.cpp:137-158 | under interference, on every path of the work function: exactly the thread's own steps in order, FINISHED, one run of the finish action, nobody asleep; the work is skipped always and only for a recorded request |
| CancelableThreadProtocol.CancelableThread.Notify | src/CancelableThread.cpp:130-135 | notifies by the flag and then writes FINISHED, as one step |
| CancelableThreadProtocol.CancelableThread.WaitPass | src/CancelableThread.cpp:56-58 | returns with the thread gone and the finish action run; if it sleeps, in no run is this caller still asleep when the thread is finished |
| FutureTaskProtocol.FinishedMeansReady | include/FutureTask.h:68-98 | once FINISHED is seen TryGetResult succeeds ever after, with the latest result |
| FutureTaskProtocol.FinishedIffCallReturned | include/FutureTask.h:68-80 | run once and over, the task is FINISHED iff Call returned, which it does unless cancelled or escaped from |
| FutureTaskProtocol.FinishedIffLastCallReturned | include/FutureTask.h:68-80 | with overlapping runs over, the task is FINISHED iff the runner that wrote the state last is one whose Call returned, and RUNNING iff it is one that escaped |
| FutureTaskProtocol.NoCallAfterCancel | src/TaskBase.cpp:41-44 | once a request is on record a runner that has not passed its check never enters DoRun |
| FutureTaskProtocol.GetReturnsOnlyResults | include/FutureTask.h:55-66 | a caller of GetResult stays in it until it has a value |
| FutureTaskProtocol.ResultsAreProduced | include/FutureTask.h:55-66 | a value a waiter got was returned by some completed Call |
| FutureTaskProtocol.SleeperHasNoResult | include/FutureTask.h:55-80 | a sleeper implies no result and nobody inside Call; a test sleeps iff nothing was produced |
| FutureTaskProtocol.StepKeepsInv | include/FutureTask.h:55-98 | every step keeps the future's invariant |
| FutureTaskProtocol.FutureTask.DoRun | include/FutureTask.h:68-80 | publishes exactly Call's value with nobody left asleep, or changes nothing if Call throws |
| FutureTaskProtocol.FutureTask.GetPass | include/FutureTask.h:55-66 | returns what the latest Call produced; if it sleeps, nothing was produced, nobody is inside Call, and whoever enters DoRun next wakes this caller |
| FutureTaskProtocol.FutureTask.TryGetResult | include/FutureTask.h:88-98 | a produced value, or the exception only before FINISHED and before any result |
| BracketScanner.ScanMatchesGrammar | cpplint.py:2484-2500 | the scan ends after s and its closer iff s is the balanced text there |
| BracketScanner.InsideIsUnique | cpplint.py:2484-2500 | at most one text is inside |
| BracketScanner.ScanSkipsBalanced | cpplint.py:2487-2495 | balanced text leaves the stack as it was |
| BracketScanner.ScanCrosses | cpplint.py:2487-2495 | a successful scan crosses some balanced text before it pops |
| BracketScanner.GetTextInside | cpplint.py:2447-2500 | returns s iff s is the balanced text inside the bracket, None iff there is none; the assertions fail iff the match does not end in an opening bracket |

## Left out

- pthread, boost and the C++ library: mutexes, condition variables and atomics are primitive steps; thread creation and its retry loops, thread ids and memory ordering are not modelled.
- TimerQueues.TimerQueue.PopMin: `std::priority_queue` is not part of this model's source; its heap is the usual binary one whose pop moves the last element to the root.
- The timer inside the pool: that `StopAsync` stops it first, that `Stop` and `StopNow` wait for it, and its creation on demand; the two protocols are proved apart.
- Workers are records in the pool's `threads` sequence rather than objects of their own, so aliasing between a pool and its workers is not captured; the same holds for callers of every class.
- PoolLiveness.StoppingCompletes: user tasks are taken to return; how many spurious wakeups and new stop calls a run has is not bounded, because nothing bounds it in the program either.
- TimerQueues.TimerQueue.Insert, and likewise Clear and TimerQueues.Timer.StopAsync: the notification of the timer thread is not in the heap's own class; it is the protocol step that TimerThread.PushTask and TimerThread.ClearQueue tie the heap to.
- PoolTheorems.GracefulStopDrains: clients are taken not to push an `EndTask` of their own, which the program does not prevent.
- TimerTheorems.ExecutionBound: one submitter per timer task and no caller of `Run` but the timer, because the program's test for an earlier submission is not atomic with the push.
- TimedWait.ComputeTimeout: integers are unbounded, so overflow of the casts to `long` is not modelled; the same holds for barrier indices and deadlines.
- `ConditionWaitLocker::TimedWait` and `ConditionNotifyLocker`: nothing in the library uses them.
- `OnCancel` and `OnCallCancel`: hooks that do nothing.
- `Size`, `IsEmpty`, `IsFull`, `MaxSize`, the state queries, `CountDownLatch`, `LinearTaskQueue`, `FunctorTask`, `ThreadLocal`: they would only add easy members.
- `PriorityTaskQueue`, `MakeFunctorFutureTask`, `AddFutureTask`: an empty push and a helper that calls itself have no meaningful contract.
- The rest of `cpplint.py`, and everything under `examples/` and `unittest/`.
