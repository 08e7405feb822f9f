/**
 The deadline heap of the timer: Timer::TimerQueue in src/Timer.cpp, and the part of
 Timer::ThreadFunction that works on it with the lock held.

 std::priority_queue is a binary heap in a vector; push sifts up, and pop moves the last element
 to the root, lets it sink to a leaf along the earlier children and sifts it up again, so the old
 root's deadline is never compared. Tasks are objects whose deadlines change in place.
 */
module TimerQueues {
  class TimerTask {
    var deadline: nat
    var interval: nat
    // What IsCancelled and IsRequestCancel read.
    var isCancelled: bool
    var isRequestCancel: bool

    constructor ()
      ensures deadline == 0 && interval == 0 && !isCancelled && !isRequestCancel
    {
      deadline, interval, isCancelled, isRequestCancel := 0, 0, false, false;
    }
  }

  function Parent(i: nat): (p: nat)
    requires i > 0
    ensures i == 2 * p + 1 || i == 2 * p + 2
  {
    (i - 1) / 2
  }

  ghost predicate Ordered(q: seq<TimerTask>, i: nat)
    requires 0 < i < |q|
    reads q
  {
    q[Parent(i)].deadline <= q[i].deadline
  }

  ghost predicate Heap(q: seq<TimerTask>)
    reads q
  {
    forall i :: 0 < i < |q| ==> Ordered(q, i)
  }

  // All that PopMin needs: nothing is asked of the root.
  ghost predicate HeapBelowRoot(q: seq<TimerTask>)
    reads q
  {
    forall i :: 0 < i < |q| && Parent(i) != 0 ==> Ordered(q, i)
  }

  // Only the entry at `hole` may be too early for its place.
  ghost predicate HeapExceptUp(q: seq<TimerTask>, hole: nat)
    reads q
  {
    && hole < |q|
    && (forall i :: 0 < i < |q| && i != hole ==> Ordered(q, i))
    && (forall i :: 0 < i < |q| && hole > 0 && Parent(i) == hole ==> q[Parent(hole)].deadline <= q[i].deadline)
  }

  // Nothing is known of the entry at `hole`, above or below it.
  ghost predicate HeapExceptAt(q: seq<TimerTask>, hole: nat)
    reads q
  {
    && hole < |q|
    && (forall i :: 0 < i < |q| && i != hole && Parent(i) != hole ==> Ordered(q, i))
    && (forall i :: 0 < i < |q| && hole > 0 && Parent(i) == hole ==> q[Parent(hole)].deadline <= q[i].deadline)
  }

  function Swapped(q: seq<TimerTask>, i: nat, j: nat): (r: seq<TimerTask>)
    requires i < |q| && j < |q|
    ensures multiset(r) == multiset(q)
  {
    q[i := q[j]][j := q[i]]
  }

  // No task is queued twice.
  ghost predicate Distinct(q: seq<TimerTask>) {
    forall t <- q :: multiset(q)[t] == 1
  }

  lemma DistinctEntries(q: seq<TimerTask>)
    requires Distinct(q)
    ensures forall i, j :: 0 <= i < j < |q| ==> q[i] != q[j]
  {
    forall i, j | 0 <= i < j < |q| ensures q[i] != q[j] {
      assert q == q[..i] + [q[i]] + q[i + 1..j] + [q[j]] + q[j + 1..];
      assert multiset(q)
          == multiset(q[..i]) + multiset{q[i]} + multiset(q[i + 1..j]) + multiset{q[j]} + multiset(q[j + 1..]);
      assert q[i] in q;
    }
  }

  /** The root is a minimum over the whole queue. */
  lemma {:induction false} RootIsMinimum(q: seq<TimerTask>, i: nat)
    requires Heap(q) && i < |q|
    ensures q[0].deadline <= q[i].deadline
    decreases i
  {
    if i > 0 {
      RootIsMinimum(q, Parent(i));
      assert Ordered(q, i);
    }
  }

  lemma SiftUpStep(q: seq<TimerTask>, hole: nat)
    requires HeapExceptUp(q, hole) && hole > 0 && !Ordered(q, hole)
    ensures HeapExceptUp(Swapped(q, hole, Parent(hole)), Parent(hole))
  {
    var up := Parent(hole);
    var r := Swapped(q, hole, up);
    forall i | 0 < i < |r| && i != up ensures Ordered(r, i) {
      if i != hole && Parent(i) == up {
        assert Ordered(q, i);
      } else if i != hole && Parent(i) != hole {
        assert Ordered(q, i);
      }
    }
    forall i | 0 < i < |r| && up > 0 && Parent(i) == up ensures r[Parent(up)].deadline <= r[i].deadline {
      assert Ordered(q, up);
      assert i != hole ==> Ordered(q, i);
    }
  }

  // The child that Sink follows.
  ghost predicate EarlierChild(q: seq<TimerTask>, hole: nat, child: nat)
    requires hole < |q|
    reads q
  {
    && 0 < child < |q| && Parent(child) == hole
    && forall i :: 0 < i < |q| && Parent(i) == hole ==> q[child].deadline <= q[i].deadline
  }

  lemma SinkStep(q: seq<TimerTask>, hole: nat, child: nat)
    requires HeapExceptAt(q, hole) && EarlierChild(q, hole, child)
    ensures HeapExceptAt(Swapped(q, hole, child), child)
  {
    var r := Swapped(q, hole, child);
    forall i | 0 < i < |r| && i != child && Parent(i) != child ensures Ordered(r, i) {
      if i != hole && Parent(i) != hole {
        assert Ordered(q, i);
      }
    }
    forall i | 0 < i < |r| && Parent(i) == child ensures r[Parent(child)].deadline <= r[i].deadline {
      assert Ordered(q, i);
    }
  }

  // The comparison of the two children.
  function PickChild(q: seq<TimerTask>, hole: nat): (child: nat)
    requires 2 * hole + 1 < |q|
    reads q
    ensures EarlierChild(q, hole, child)
  {
    var child := 2 * hole + 2;
    if child >= |q| || q[child].deadline > q[child - 1].deadline then child - 1 else child
  }

  lemma LeafIsUp(q: seq<TimerTask>, hole: nat)
    requires HeapExceptAt(q, hole) && 2 * hole + 1 >= |q|
    ensures HeapExceptUp(q, hole)
  {}

  // What is left when the last entry replaces the root.
  lemma LastForRoot(q: seq<TimerTask>)
    requires |q| > 1
    ensures multiset(q[..|q| - 1][0 := q[|q| - 1]]) == multiset(q) - multiset{q[0]}
  {
    var rest := q[1..|q| - 1];
    var last := q[|q| - 1];
    assert q == [q[0]] + rest + [last];
    assert q[..|q| - 1][0 := last] == [last] + rest;
  }

  class TimerQueue {
    var queue: seq<TimerTask>

    constructor ()
      ensures queue == []
    {
      queue := [];
    }

    predicate IsEmpty()
      reads this
    {
      queue == []
    }

    method GetMin() returns (t: TimerTask)
      requires !IsEmpty() && Heap(queue)
      ensures t == queue[0]
      ensures forall u <- queue :: t.deadline <= u.deadline
    {
      t := queue[0];
      forall i | 0 <= i < |queue| ensures t.deadline <= queue[i].deadline {
        RootIsMinimum(queue, i);
      }
    }

    method SiftUp(start: nat)
      requires HeapExceptUp(queue, start)
      modifies this
      ensures Heap(queue) && multiset(queue) == multiset(old(queue))
    {
      var hole := start;
      while hole > 0 && queue[Parent(hole)].deadline > queue[hole].deadline
        invariant HeapExceptUp(queue, hole)
        invariant multiset(queue) == multiset(old(queue))
        decreases hole
      {
        SiftUpStep(queue, hole);
        queue := Swapped(queue, hole, Parent(hole));
        hole := Parent(hole);
      }
    }

    // From the root to a leaf along the earlier child.
    method Sink() returns (hole: nat)
      requires |queue| > 0 && HeapExceptAt(queue, 0)
      modifies this
      ensures HeapExceptUp(queue, hole) && multiset(queue) == multiset(old(queue))
    {
      hole := 0;
      while 2 * hole + 1 < |queue|
        invariant HeapExceptAt(queue, hole)
        invariant multiset(queue) == multiset(old(queue))
        decreases |queue| - hole
      {
        var child := PickChild(queue, hole);
        SinkStep(queue, hole, child);
        queue := Swapped(queue, hole, child);
        hole := child;
      }
      LeafIsUp(queue, hole);
    }

    /** Removes the root, and leaves a heap even if the root's own deadline was changed. */
    method PopMin() returns (t: TimerTask)
      requires !IsEmpty() && HeapBelowRoot(queue)
      modifies this
      ensures t == old(queue)[0]
      ensures Heap(queue) && multiset(queue) == multiset(old(queue)) - multiset{t}
    {
      t := queue[0];
      if |queue| == 1 {
        assert queue == [t];
        queue := [];
      } else {
        LastForRoot(queue);
        queue := queue[..|queue| - 1][0 := queue[|queue| - 1]];
        var hole := Sink();
        SiftUp(hole);
      }
    }

    method Insert(t: TimerTask)
      requires Heap(queue)
      modifies this
      ensures Heap(queue) && multiset(queue) == multiset(old(queue)) + multiset{t}
    {
      queue := queue + [t];
      forall i | 0 < i < |queue| - 1 ensures Ordered(queue, i) {
        assert Ordered(old(queue), i);
      }
      SiftUp(|queue| - 1);
    }

    method PopMinAndPush()
      requires !IsEmpty() && HeapBelowRoot(queue)
      modifies this
      ensures Heap(queue) && multiset(queue) == multiset(old(queue))
    {
      var t := PopMin();
      Insert(t);
    }

    method Clear()
      requires Heap(queue)
      modifies this
      ensures queue == []
    {
      while !IsEmpty()
        invariant Heap(queue)
        decreases |queue|
      {
        var before := multiset(queue);
        var _ := PopMin();
        assert |multiset(queue)| < |before|;
      }
    }
  }

  // What one pass of the timer's critical section does with the task at the root.
  datatype Outcome = Dropped | Fired | Rearmed | SleepFor(delay: nat)

  ghost predicate Healthy(q: seq<TimerTask>)
    reads q
  {
    Heap(q) && Distinct(q)
  }

  // The tasks due at `now`.
  function Due(q: seq<TimerTask>, now: nat): set<TimerTask>
    reads q
  {
    set t | t in q && t.deadline <= now
  }

  // Iterations left before the timer sleeps: queued tasks count once, due tasks twice.
  function Work(q: seq<TimerTask>, now: nat): nat
    reads q
  {
    |q| + |Due(q, now)|
  }

  // Where a task can be, some passes at `now` after its deadline was `d`: not reached yet,
  // re-armed, fired for good, or dropped. Its deadline now is `current`.
  ghost predicate ProgressedTo(q: seq<TimerTask>, fired: seq<TimerTask>, now: nat, t: TimerTask, d: nat, current: nat)
    reads t
  {
    || (t in q && t !in fired && current == d)
    || (t in q && multiset(fired)[t] == 1 && current == now + t.interval
        && d <= now && t.interval > 0 && !t.isCancelled && !t.isRequestCancel)
    || (t !in q && multiset(fired)[t] == 1 && current == d
        && !t.isCancelled && (t.isRequestCancel || (d <= now && t.interval == 0)))
    || (t !in q && t !in fired && current == d && t.isCancelled)
  }

  ghost predicate Progressed(q: seq<TimerTask>, fired: seq<TimerTask>, now: nat, t: TimerTask, d: nat)
    reads t
  {
    ProgressedTo(q, fired, now, t, d, t.deadline)
  }

  predicate Fires(outcome: Outcome) {
    outcome.Fired? || outcome.Rearmed?
  }

  predicate Stays(outcome: Outcome) {
    outcome.Rearmed? || outcome.SleepFor?
  }

  // What a pass does to the task at the root, whose deadline was `was`.
  ghost predicate SettledBy(task: TimerTask, now: nat, was: nat, outcome: Outcome)
    reads task
  {
    && (outcome.Dropped? <==> task.isCancelled)
    && (outcome.Fired? ==> task.isRequestCancel || (was <= now && task.interval == 0))
    && (outcome.Rearmed? ==> !task.isRequestCancel && was <= now && task.interval > 0)
    && task.deadline == if outcome.Rearmed? then now + task.interval else was
  }

  lemma NothingNew(before: seq<TimerTask>, after: seq<TimerTask>, task: TimerTask, same: bool)
    requires multiset(after) == if same then multiset(before) else multiset(before) - multiset{task}
    ensures forall t <- after :: t in before
  {
    forall t | t in after ensures t in before {
      assert t in multiset(after);
    }
  }

  lemma PassProgresses(
      before: seq<TimerTask>, q: seq<TimerTask>, fired: seq<TimerTask>, task: TimerTask, outcome: Outcome,
      now: nat, t: TimerTask, d: nat, was: nat)
    requires Distinct(before) && task in before && ProgressedTo(before, fired, now, t, d, was)
    requires multiset(q) == if Stays(outcome) then multiset(before) else multiset(before) - multiset{task}
    requires if t == task then SettledBy(t, now, was, outcome) else t.deadline == was
    ensures Progressed(q, if Fires(outcome) then fired + [task] else fired, now, t, d)
  {
    assert t in multiset(q) <==> t in q;
    assert t in multiset(before) <==> t in before;
    assert multiset(fired + [task])[t] == multiset(fired)[t] + (if t == task then 1 else 0);
    assert t in multiset(fired) <==> t in fired;
  }

  // The next pass at `now` would sleep.
  ghost predicate Quiet(q: seq<TimerTask>, now: nat)
    reads q
  {
    q != [] ==> !q[0].isCancelled && !q[0].isRequestCancel && forall t <- q :: now < t.deadline
  }

  class Timer {
    const timerQueue: TimerQueue
    // The cancel flag of the timer thread.
    var isRequestCancel: bool

    constructor ()
      ensures fresh(timerQueue) && timerQueue.queue == [] && !isRequestCancel
    {
      timerQueue := new TimerQueue();
      isRequestCancel := false;
    }

    lemma InsertKeepsDistinct(before: seq<TimerTask>, after: seq<TimerTask>, t: TimerTask)
      requires Distinct(before) && t !in before && multiset(after) == multiset(before) + multiset{t}
      ensures Distinct(after)
    {
      forall u | u in after ensures multiset(after)[u] == 1 {
        assert u != t ==> u in multiset(after) && u in multiset(before);
      }
    }

    /** DoRunLater with nobody in between: a task that has a deadline already, or a timer that is
        stopping, refuses and changes nothing. */
    method DoRunLater(task: TimerTask, delay: nat, now: nat) returns (accepted: bool)
      requires Healthy(timerQueue.queue) && (task.deadline == 0 ==> task !in timerQueue.queue)
      modifies timerQueue, task`deadline
      ensures Healthy(timerQueue.queue)
      ensures accepted <==> !isRequestCancel && old(task.deadline) == 0
      ensures accepted ==> task.deadline == now + delay
                           && multiset(timerQueue.queue) == multiset(old(timerQueue.queue)) + multiset{task}
      ensures !accepted ==> task.deadline == old(task.deadline) && timerQueue.queue == old(timerQueue.queue)
    {
      var taskDeadline := now + delay;
      if isRequestCancel || task.deadline != 0 {
        return false;
      }
      accepted := Submit(task, taskDeadline);
    }

    /** DoRunEvery: the first deadline is now, or one interval from now. */
    method DoRunEvery(task: TimerTask, interval: nat, isRunNow: bool, now: nat) returns (accepted: bool)
      requires Healthy(timerQueue.queue) && (task.deadline == 0 ==> task !in timerQueue.queue)
      modifies timerQueue, task`deadline, task`interval
      ensures Healthy(timerQueue.queue)
      ensures accepted <==> !isRequestCancel && old(task.deadline) == 0
      ensures accepted ==> task.deadline == (if isRunNow then now else now + interval) && task.interval == interval
                           && multiset(timerQueue.queue) == multiset(old(timerQueue.queue)) + multiset{task}
      ensures !accepted ==> task.deadline == old(task.deadline) && task.interval == old(task.interval)
                            && timerQueue.queue == old(timerQueue.queue)
    {
      if isRequestCancel || task.deadline != 0 {
        return false;
      }
      task.interval := interval;
      accepted := Submit(task, if isRunNow then now else now + interval);
    }

    method Submit(task: TimerTask, deadline: nat) returns (accepted: bool)
      requires Healthy(timerQueue.queue) && task !in timerQueue.queue
      modifies timerQueue, task`deadline
      ensures Healthy(timerQueue.queue) && accepted && task.deadline == deadline
      ensures multiset(timerQueue.queue) == multiset(old(timerQueue.queue)) + multiset{task}
    {
      ghost var before := timerQueue.queue;
      task.deadline := deadline;
      forall i | 0 < i < |before| ensures Ordered(before, i) {
        assert old(Ordered(timerQueue.queue, i));
      }
      timerQueue.Insert(task);
      InsertKeepsDistinct(before, timerQueue.queue, task);
      accepted := true;
    }

    method StopAsync()
      requires Healthy(timerQueue.queue)
      modifies this`isRequestCancel, timerQueue
      ensures isRequestCancel && timerQueue.queue == []
    {
      isRequestCancel := true;
      timerQueue.Clear();
    }

    /** Raises the minimum task's deadline in place to `now + interval`, while it still is the
        root, and then pops and pushes it. The result is a heap of the same tasks in which no
        other deadline has moved, so the next minimum is the true one. */
    method Rearm(now: nat)
      requires !timerQueue.IsEmpty() && Healthy(timerQueue.queue)
      modifies timerQueue, (set t | t in timerQueue.queue)`deadline
      ensures Healthy(timerQueue.queue)
      ensures multiset(timerQueue.queue) == multiset(old(timerQueue.queue))
      ensures forall t <- old(timerQueue.queue) ::
                t.deadline == if t == old(timerQueue.queue[0]) then now + t.interval else old(t.deadline)
    {
      var task := timerQueue.queue[0];
      DistinctEntries(timerQueue.queue);
      task.deadline := now + task.interval;
      ghost var q := timerQueue.queue;
      forall i | 0 < i < |q| && Parent(i) != 0 ensures Ordered(q, i) {
        assert old(Ordered(timerQueue.queue, i));
      }
      timerQueue.PopMinAndPush();
      forall t | t in timerQueue.queue ensures multiset(timerQueue.queue)[t] == 1 {
        assert t in multiset(q);
      }
    }

    /** One pass of ThreadFunction with a non-empty queue and the lock held, up to the wait. */
    method Pass(now: nat) returns (task: TimerTask, outcome: Outcome)
      requires !timerQueue.IsEmpty() && Healthy(timerQueue.queue)
      modifies timerQueue, (set t | t in timerQueue.queue)`deadline
      ensures Healthy(timerQueue.queue)
      ensures task == old(timerQueue.queue)[0] && forall t <- old(timerQueue.queue) :: old(task.deadline <= t.deadline)
      ensures outcome.Dropped? <==> task.isCancelled
      ensures outcome.SleepFor? <==> !task.isCancelled && !task.isRequestCancel && now < old(task.deadline)
      ensures outcome.Rearmed? <==>
                !task.isCancelled && !task.isRequestCancel && old(task.deadline) <= now && task.interval > 0
      ensures outcome.SleepFor? ==> timerQueue.queue == old(timerQueue.queue) && now + outcome.delay == task.deadline
      ensures outcome.Rearmed? ==> task.deadline == now + task.interval
                                   && multiset(timerQueue.queue) == multiset(old(timerQueue.queue))
      ensures !outcome.Rearmed? ==> task.deadline == old(task.deadline)
      ensures outcome.Fired? || outcome.Dropped? ==>
                multiset(timerQueue.queue) == multiset(old(timerQueue.queue)) - multiset{task}
      ensures forall t <- old(timerQueue.queue) :: t != task ==> t.deadline == old(t.deadline)
    {
      task := timerQueue.GetMin();
      if task.isCancelled {
        outcome := Dropped;
        var _ := timerQueue.PopMin();
      } else if task.isRequestCancel {
        outcome := Fired;
        var _ := timerQueue.PopMin();
      } else if task.deadline <= now {
        if task.interval > 0 {
          outcome := Rearmed;
          Rearm(now);
        } else {
          outcome := Fired;
          var _ := timerQueue.PopMin();
        }
      } else {
        outcome := SleepFor(task.deadline - now);
      }
    }
  
    /** All passes between two sleeps, at a fixed clock, while tasks return and nobody pushes:
        the loop ends, whatever mixture of cancelled, one-shot and interval tasks is queued.
        Every due task is then settled: cancelled ones are dropped, the others have fired
        exactly once, and interval tasks wait for now + interval. */
    method Drain(now: nat) returns (fired: seq<TimerTask>)
      requires Healthy(timerQueue.queue)
      modifies timerQueue, (set t | t in timerQueue.queue)`deadline
      ensures Healthy(timerQueue.queue) && Quiet(timerQueue.queue, now)
      ensures forall t <- old(timerQueue.queue) ::
                Progressed(timerQueue.queue, fired, now, t, old(t.deadline))
                && (old(t.deadline) <= now && t in timerQueue.queue ==> t in fired)
      ensures forall t <- fired :: t in old(timerQueue.queue)
    {
      fired := [];
      ghost var tasks := timerQueue.queue;
      ghost var d := map t | t in tasks :: t.deadline;
      var quiet := timerQueue.IsEmpty();
      while !quiet
        invariant quiet ==> Quiet(timerQueue.queue, now)
        invariant !quiet ==> !timerQueue.IsEmpty()
        invariant Healthy(timerQueue.queue)
        invariant forall t <- timerQueue.queue :: t in tasks
        invariant forall t <- tasks :: Progressed(timerQueue.queue, fired, now, t, d[t])
        invariant forall t <- fired :: t in tasks
        decreases !quiet, Work(timerQueue.queue, now)
      {
        fired, quiet := DrainPass(now, fired, tasks, d);
      }
    }

    // One iteration of Drain; `quiet` when the pass would sleep or the queue has become empty.
    method DrainPass(now: nat, fired: seq<TimerTask>, ghost tasks: seq<TimerTask>, ghost d: map<TimerTask, nat>)
      returns (fired': seq<TimerTask>, quiet: bool)
      requires Healthy(timerQueue.queue) && !timerQueue.IsEmpty()
      requires d.Keys == (set t | t in tasks) && (forall t <- timerQueue.queue :: t in tasks)
      requires (forall t <- fired :: t in tasks)
      requires forall t <- tasks :: Progressed(timerQueue.queue, fired, now, t, d[t])
      modifies timerQueue, (set t | t in timerQueue.queue)`deadline
      ensures Healthy(timerQueue.queue) && forall t <- timerQueue.queue :: t in tasks
      ensures forall t <- fired' :: t in tasks
      ensures forall t <- tasks :: Progressed(timerQueue.queue, fired', now, t, d[t])
      ensures if quiet then Quiet(timerQueue.queue, now) else !timerQueue.IsEmpty()
      ensures !quiet ==> Work(timerQueue.queue, now) < old(Work(timerQueue.queue, now))
    {
      ghost var before, due := timerQueue.queue, Due(timerQueue.queue, now);
      var task, outcome := Pass(now);
      fired' := if Fires(outcome) then fired + [task] else fired;
      ghost var q := timerQueue.queue;
      forall t | t in tasks ensures Progressed(q, fired', now, t, d[t]) {
        assert old(Progressed(before, fired, now, t, d[t]));
        assert t != task ==> t.deadline == old(t.deadline);
        PassProgresses(before, q, fired, task, outcome, now, t, d[t], old(t.deadline));
      }
      NothingNew(before, q, task, Stays(outcome));
      if !outcome.SleepFor? {
        PassDecreases(before, due, task, outcome, now);
      }
      quiet := outcome.SleepFor? || timerQueue.IsEmpty();
    }

    lemma PassDecreases(before: seq<TimerTask>, due: set<TimerTask>, task: TimerTask, outcome: Outcome, now: nat)
      requires !outcome.SleepFor? && task in before
      requires due <= (set t | t in before)
      requires forall t <- timerQueue.queue :: t != task ==> (t.deadline <= now ==> t in due)
      requires outcome.Rearmed? ==> task in due && task.deadline > now && multiset(timerQueue.queue) == multiset(before)
      requires !outcome.Rearmed? ==> multiset(timerQueue.queue) == multiset(before) - multiset{task}
      requires !outcome.Rearmed? && task in timerQueue.queue && task.deadline <= now ==> task in due
      ensures Work(timerQueue.queue, now) < |before| + |due|
    {
      var after := timerQueue.queue;
      SameSize(before, after, task, outcome.Rearmed?);
      forall t | t in after ensures t in before {
        assert t in multiset(after);
      }
      if outcome.Rearmed? {
        assert Due(after, now) <= due - {task};
        SubsetSize(Due(after, now), due - {task});
      } else {
        assert Due(after, now) <= due;
        SubsetSize(Due(after, now), due);
      }
    }
  }

  lemma SameSize<T>(before: seq<T>, after: seq<T>, t: T, same: bool)
    requires t in before
    requires multiset(after) == if same then multiset(before) else multiset(before) - multiset{t}
    ensures |after| == if same then |before| else |before| - 1
  {
    assert |multiset(after)| == |after| && |multiset(before)| == |before|;
  }

  lemma SubsetSize<T>(a: set<T>, b: set<T>)
    requires a <= b
    ensures |a| <= |b|
  {
    assert b == a + (b - a);
  }
}
