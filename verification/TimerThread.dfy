/** The heap does what the timer protocol asks of its queue. */
module TimerThread {
  import opened TimerQueues
  import TimerProtocol

  // The objects in the heap are the tasks of the protocol state, under the numbering `ids`.
  ghost predicate Matches(q: seq<TimerTask>, ids: map<TimerTask, nat>, s: TimerProtocol.State)
    reads ids.Keys, q
  {
    && Healthy(q)
    && (forall t <- q :: t in ids)
    && (forall t, u :: t in ids && u in ids && t != u ==> ids[t] != ids[u])
    && s.queue == (set t | t in q :: ids[t])
    && (forall t <- ids :: ids[t] < |s.tasks| && Agrees(t, s.tasks[ids[t]]))
  }

  predicate Agrees(t: TimerTask, r: TimerProtocol.Task)
    reads t
  {
    t.deadline == r.deadline && t.interval == r.interval
    && t.isCancelled == r.cancelled && t.isRequestCancel == r.requestCancel
  }

  // The state after ReadMin and Decide on task i.
  function Decided(s: TimerProtocol.State, i: nat): TimerProtocol.State
    requires i < |s.tasks|
  {
    TimerProtocol.DecideOn(s.(pc := TimerProtocol.AtDecide(i, s.now)), i, s.now)
  }

  lemma TwoSteps(s: TimerProtocol.State, i: nat)
    requires s.pc == TimerProtocol.AtRead && TimerProtocol.IsMin(s, i)
    ensures TimerProtocol.Path(s, [TimerProtocol.ReadMin(i), TimerProtocol.Decide], Decided(s, i))
  {
    var s1 := TimerProtocol.Apply(s, TimerProtocol.ReadMin(i));
    assert TimerProtocol.Path(Decided(s, i), [], Decided(s, i));
    assert TimerProtocol.Path(s1, [TimerProtocol.Decide], Decided(s, i));
    assert [TimerProtocol.ReadMin(i), TimerProtocol.Decide][1..] == [TimerProtocol.Decide];
  }

  lemma MinimumMatches(q: seq<TimerTask>, ids: map<TimerTask, nat>, s: TimerProtocol.State)
    requires q != [] && Matches(q, ids, s)
    ensures TimerProtocol.IsMin(s, ids[q[0]])
  {
    forall j | j in s.queue ensures s.tasks[ids[q[0]]].deadline <= s.tasks[j].deadline {
      var k :| 0 <= k < |q| && ids[q[k]] == j;
      RootIsMinimum(q, k);
      assert q[k] in ids && q[0] in ids;
    }
  }

  // The numbers of the queued tasks after one task has left, or none.
  lemma QueueMatches(
      before: seq<TimerTask>, after: seq<TimerTask>, ids: map<TimerTask, nat>, task: TimerTask, stays: bool)
    requires Distinct(before) && task in before && forall t <- before :: t in ids
    requires forall t, u :: t in ids && u in ids && t != u ==> ids[t] != ids[u]
    requires multiset(after) == if stays then multiset(before) else multiset(before) - multiset{task}
    ensures forall t <- after :: t in ids
    ensures (set t | t in after :: ids[t]) ==
            if stays then (set t | t in before :: ids[t]) else (set t | t in before :: ids[t]) - {ids[task]}
  {
    forall t ensures t in after <==> t in before && (t != task || stays) {
      assert t in after <==> t in multiset(after);
      assert t in before <==> t in multiset(before);
    }
  }

  // The pass, seen from the object at the root: which outcome it takes and what becomes of the
  // deadline.
  predicate Follows(task: TimerTask, d: nat, now: nat, outcome: Outcome)
    reads task
  {
    match outcome
    case Dropped => task.isCancelled && task.deadline == d
    case Fired => !task.isCancelled && (task.isRequestCancel || (d <= now && task.interval == 0)) && task.deadline == d
    case Rearmed =>
      && !task.isCancelled && !task.isRequestCancel && d <= now && task.interval > 0
      && task.deadline == now + task.interval
    case SleepFor(delay) =>
      !task.isCancelled && !task.isRequestCancel && now < d && delay == d - now && task.deadline == d
  }

  lemma DecidedAgrees(task: TimerTask, d: nat, outcome: Outcome, s: TimerProtocol.State, i: nat)
    requires i < |s.tasks| && Follows(task, d, s.now, outcome)
    requires s.tasks[i].deadline == d && s.tasks[i].interval == task.interval
    requires s.tasks[i].cancelled == task.isCancelled && s.tasks[i].requestCancel == task.isRequestCancel
    ensures var s' := Decided(s, i);
            && |s'.tasks| == |s.tasks| && Agrees(task, s'.tasks[i])
            && (forall j :: 0 <= j < |s.tasks| && j != i ==> s'.tasks[j] == s.tasks[j])
            && s'.queue == (if outcome.Rearmed? || outcome.SleepFor? then s.queue else s.queue - {i})
            && s'.pc == match outcome
                        case Dropped => TimerProtocol.AtLock
                        case SleepFor(delay) => TimerProtocol.AtTimedWait(i, delay, s.now)
                        case _ => TimerProtocol.Fired(i, d)
  {}

  // The heap after a pass, and the protocol state after its two steps.
  lemma MatchesDecided(
      before: seq<TimerTask>, after: seq<TimerTask>, ids: map<TimerTask, nat>, task: TimerTask, d: nat,
      outcome: Outcome, s: TimerProtocol.State)
    requires Healthy(after) && Distinct(before) && task in before && task in ids && forall t <- before :: t in ids
    requires forall t, u :: t in ids && u in ids && t != u ==> ids[t] != ids[u]
    requires s.queue == (set t | t in before :: ids[t])
    requires multiset(after) == if Stays(outcome) then multiset(before) else multiset(before) - multiset{task}
    requires forall t <- ids :: ids[t] < |s.tasks| && (t != task ==> Agrees(t, s.tasks[ids[t]]))
    requires Follows(task, d, s.now, outcome)
    requires s.tasks[ids[task]].deadline == d && s.tasks[ids[task]].interval == task.interval
    requires s.tasks[ids[task]].cancelled == task.isCancelled
    requires s.tasks[ids[task]].requestCancel == task.isRequestCancel
    ensures Matches(after, ids, Decided(s, ids[task]))
  {
    QueueMatches(before, after, ids, task, Stays(outcome));
    DecidedAgrees(task, d, outcome, s, ids[task]);
  }

  /** One pass of the timer's critical section on the heap is the two protocol steps ReadMin and
      Decide on the set: it picks a minimum, and leaves queue, deadlines and control in step. */
  method DequeuePass(timer: Timer, now: nat, ghost ids: map<TimerTask, nat>, ghost s: TimerProtocol.State)
    returns (task: TimerTask, outcome: Outcome)
    requires !timer.timerQueue.IsEmpty() && Matches(timer.timerQueue.queue, ids, s)
    requires s.pc == TimerProtocol.AtRead && s.now == now
    modifies timer.timerQueue, (set t | t in timer.timerQueue.queue)`deadline
    ensures task in ids && ids[task] < |s.tasks| && Follows(task, old(task.deadline), now, outcome)
    ensures TimerProtocol.Path(s, [TimerProtocol.ReadMin(ids[task]), TimerProtocol.Decide], Decided(s, ids[task]))
    ensures Matches(timer.timerQueue.queue, ids, Decided(s, ids[task]))
  {
    ghost var before := timer.timerQueue.queue;
    MinimumMatches(before, ids, s);
    task, outcome := timer.Pass(now);
    TwoSteps(s, ids[task]);
    assert old(Agrees(task, s.tasks[ids[task]]));
    forall t | t in ids && t != task ensures Agrees(t, s.tasks[ids[t]]) {
      assert old(Agrees(t, s.tasks[ids[t]]));
      assert t in before ==> t.deadline == old(t.deadline);
    }
    MatchesDecided(before, timer.timerQueue.queue, ids, task, old(task.deadline), outcome, s);
  }

  /** The push of a submitter on the heap is the protocol's Push on the set, which wakes the timer
      thread. */
  method PushTask(timer: Timer, task: TimerTask, ghost ids: map<TimerTask, nat>, ghost s: TimerProtocol.State)
    requires Matches(timer.timerQueue.queue, ids, s) && TimerProtocol.TasksInv(s)
    requires task in ids && TimerProtocol.Enabled(s, TimerProtocol.Push(ids[task]))
    modifies timer.timerQueue
    ensures Matches(timer.timerQueue.queue, ids, TimerProtocol.Apply(s, TimerProtocol.Push(ids[task])))
  {
    ghost var before := timer.timerQueue.queue;
    assert TimerProtocol.TaskInv(s.tasks[ids[task]], ids[task] in s.queue, s.now);
    timer.timerQueue.Insert(task);
    ghost var after := timer.timerQueue.queue;
    timer.InsertKeepsDistinct(before, after, task);
    forall t ensures t in after <==> t in before || t == task {
      assert t in after <==> t in multiset(after);
      assert t in before <==> t in multiset(before);
    }
  }

  /** The second half of StopAsync on the heap is the protocol's Clear, which wakes the timer thread. */
  method ClearQueue(timer: Timer, ghost ids: map<TimerTask, nat>, ghost s: TimerProtocol.State, ghost k: nat)
    requires Matches(timer.timerQueue.queue, ids, s) && TimerProtocol.Enabled(s, TimerProtocol.Clear(k))
    modifies timer.timerQueue
    ensures Matches(timer.timerQueue.queue, ids, TimerProtocol.Apply(s, TimerProtocol.Clear(k)))
  {
    timer.timerQueue.Clear();
  }
}
