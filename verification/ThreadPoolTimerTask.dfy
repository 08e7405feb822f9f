/** The timer task that feeds a task to the pool: ThreadPoolTimerTask in include/FixedThreadPool.h. */
module PoolTimerTask {
  import PoolProtocol
  import ThreadPool
  import TaskLifecycle

  class ThreadPoolTimerTask {
    const threadPool: ThreadPool.FixedThreadPool
    const task: TaskLifecycle.TaskBase
    // The TaskBase part of the timer task itself.
    const base: TaskLifecycle.TaskBase

    constructor (threadPool: ThreadPool.FixedThreadPool, task: TaskLifecycle.TaskBase, base: TaskLifecycle.TaskBase)
      ensures this.threadPool == threadPool && this.task == task && this.base == base
    {
      this.threadPool, this.task, this.base := threadPool, task, base;
    }

    /** DoRun, by client c of the pool and as runner r of the task. When the task is being cancelled,
        it is run, which skips its body: r makes exactly the steps of a skipped Run, nobody is asleep
        in Cancel afterwards, and the task is CANCELLED unless other runners move meanwhile. Otherwise
        the task is pushed, unless the pool is stopping. Whenever it was not pushed, the timer task
        requests its own cancellation and throws, and the timer then never runs it again
        (TimerTheorems.CancelledNeverRuns). Others may request the task's cancellation between the
        test and the push, and a worker may be running the task by the time this returns. */
    method DoRun(c: nat, ghost r: nat, ghost alone: bool) returns (threw: bool)
      requires task != base && threadPool.Valid() && TaskLifecycle.Inv(task.View())
      requires c < |threadPool.clients| && threadPool.clients[c] == PoolProtocol.Outside
      requires TaskLifecycle.RunnerAt(task.View(), r, TaskLifecycle.Outside)
      modifies threadPool, task, base
      ensures threadPool.Valid() && TaskLifecycle.Inv(task.View())
      ensures old(task.isRequestCancel) ==> task.isRequestCancel
      ensures old(task.isRequestCancel) ==> forall k :: 0 <= k < |task.cancellers| ==>
                task.cancellers[k] != TaskLifecycle.Asleep
      ensures TaskLifecycle.Did(
                old(task.View()), r, alone,
                if old(task.isRequestCancel) then TaskLifecycle.RunSteps(r, TaskLifecycle.Skipped) else [],
                task.View())
      ensures old(task.isRequestCancel) && alone ==> task.state == TaskLifecycle.Cancelled
      ensures threw <==> old(task.isRequestCancel) || old(threadPool.isRequestStop)
      ensures threw ==> base.isRequestCancel && threadPool.View() == old(threadPool.View())
      ensures !threw ==> base.View() == old(base.View())
      ensures TaskLifecycle.RunnerAt(task.View(), r, TaskLifecycle.Outside)
      ensures !threw ==> |threadPool.taskQueue| > 0
                         && threadPool.taskQueue[|threadPool.taskQueue| - 1] == PoolProtocol.Task(old(threadPool.clock))
    {
      if task.isRequestCancel {
        var end := task.Run(r, alone);
        base.RequestCancel();
        return true;
      }
      ghost var start := task.View();
      TaskLifecycle.DidNothing(start, r, alone);
      task.Yield(start, r, alone, []);
      var accepted := threadPool.DoAddTask(c);
      task.Yield(start, r, alone, []);
      if !accepted {
        base.RequestCancel();
      }
      threw := !accepted;
    }
  }
}
