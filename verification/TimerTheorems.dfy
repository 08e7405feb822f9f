/** What the timer promises over whole runs. */
module TimerTheorems {
  import opened TimerProtocol

  lemma StepOnlyAdvances(s: State, e: Step)
    requires Enabled(s, e)
    ensures var t := Apply(s, e);
            && s.now <= t.now && (s.cleared ==> t.cleared)
            && |t.tasks| == |s.tasks| && |t.stoppers| == |s.stoppers|
  {}

  lemma {:induction false} PathKeepsInv(s: State, es: seq<Step>, t: State)
    requires Inv(s) && Path(s, es, t)
    ensures Inv(t) && s.now <= t.now && (s.cleared ==> t.cleared)
    ensures |t.tasks| == |s.tasks| && |t.stoppers| == |s.stoppers|
    decreases es
  {
    if es != [] {
      StepKeepsInv(s, es[0]);
      StepOnlyAdvances(s, es[0]);
      PathKeepsInv(Apply(s, es[0]), es[1..], t);
    }
  }

  lemma ReachableInv(now: nat, n: nat, m: nat, es: seq<Step>, t: State)
    requires now > 0 && Path(Initial(now, n, m), es, t)
    ensures Inv(t)
  {
    PathKeepsInv(Initial(now, n, m), es, t);
  }

  /** No missed wakeup. While the timer thread is unsignalled in Wait the queue is empty; while
      unsignalled in TimedWait the deadline it armed is the minimum over the whole queue, new
      arrivals included, and the timeout is not before it; and if a stop has been requested
      while it sleeps, some StopAsync has not reached its Clear, which will wake it. */
  lemma NoMissedWakeup(now: nat, n: nat, m: nat, es: seq<Step>, t: State)
    requires now > 0 && Path(Initial(now, n, m), es, t) && Asleep(t.pc)
    ensures t.pc.Waiting? ==> t.queue == {}
    ensures t.pc.TimedWaiting? ==>
              && (exists i: nat :: i in t.queue && i < |t.tasks| && t.tasks[i].deadline == t.pc.armed)
              && (forall j <- t.queue :: j < |t.tasks| && t.pc.armed <= t.tasks[j].deadline)
              && t.pc.armed <= t.pc.until
    ensures t.requestCancel ==> exists k :: Enabled(t, Clear(k)) && !Asleep(Apply(t, Clear(k)).pc)
  {
    ReachableInv(now, n, m, es, t);
    if t.pc.TimedWaiting? {
      var i: nat :| IsMin(t, i) && t.tasks[i].deadline == t.pc.armed;
    }
    if t.requestCancel {
      var k :| 0 <= k < |t.stoppers| && t.stoppers[k].Clearing?;
      assert Enabled(t, Clear(k));
    }
  }

  /** How late the thread can be. It waits for a deadline that was still ahead when it read the
      clock, and it can time out exactly from that deadline on, plus the time that passed between
      reading the clock and arming the timeout: never early, and late by no more than that. */
  lemma LatenessIsBounded(now: nat, n: nat, m: nat, es: seq<Step>, t: State)
    requires now > 0 && Path(Initial(now, n, m), es, t) && t.pc.TimedWaiting?
    ensures t.pc.readAt <= t.pc.armedAt <= t.now && t.pc.readAt < t.pc.armed
    ensures Enabled(t, Timeout) <==> t.pc.armed + (t.pc.armedAt - t.pc.readAt) <= t.now
  {
    ReachableInv(now, n, m, es, t);
  }

  lemma {:induction false} PathAppend(s: State, es: seq<Step>, t: State, e: Step)
    requires Path(s, es, t) && Enabled(t, e)
    ensures Path(s, es + [e], Apply(t, e))
    decreases es
  {
    if es == [] {
      assert ([] + [e])[1..] == [];
    } else {
      assert (es + [e])[1..] == es[1..] + [e];
      PathAppend(Apply(s, es[0]), es[1..], t, e);
    }
  }

  ghost predicate Leads(s: State, t: State) {
    exists es :: Path(s, es, t)
  }

  lemma Take(s: State, t: State, e: Step, u: State)
    requires Leads(s, t) && Enabled(t, e) && Apply(t, e) == u
    ensures Leads(s, u)
  {
    var es :| Path(s, es, t);
    PathAppend(s, es, t, e);
  }

  // A timer with one one-shot task, due at 15, the thread being about to lock.
  function OneTask(now: nat, pc: ThreadPc): State {
    State(now, [Task(15, 0, false, false, Outside, 15, 0, 0)], {0}, false, pc, [], false, [], [])
  }

  lemma OneTaskIsQueued()
    ensures Leads(Initial(10, 1, 0), OneTask(10, AtLock))
  {
    var s := Initial(10, 1, 0);
    var task := Task(0, 0, false, false, Outside, 0, 0, 0);
    assert s.tasks == [task] && Path(s, [], s);
    var s1 := s.(tasks := [task.(submitter := Computed(15, 0))]);
    Take(s, s, Compute(0, 5, 0), s1);
    var s2 := s.(tasks := [task.(submitter := Checked(15, 0))]);
    Take(s, s1, CheckSubmit(0), s2);
    var s3 := s.(tasks := [task.(deadline := 15, first := 15, submitter := Pushing)]);
    Take(s, s2, StoreDeadline(0), s3);
    Take(s, s3, Push(0), OneTask(10, AtLock));
  }

  lemma ThreadFindsTask()
    ensures Leads(Initial(10, 1, 0), OneTask(10, AtRead))
  {
    var s := Initial(10, 1, 0);
    OneTaskIsQueued();
    Take(s, OneTask(10, AtLock), Lock, OneTask(10, AtTest));
    Take(s, OneTask(10, AtTest), TestEmpty, OneTask(10, AtCheck));
    Take(s, OneTask(10, AtCheck), Check, OneTask(10, AtRead));
  }

  lemma DelayIsComputed()
    ensures Leads(Initial(10, 1, 0), OneTask(10, AtTimedWait(0, 5, 10)))
  {
    var s := Initial(10, 1, 0);
    ThreadFindsTask();
    Take(s, OneTask(10, AtRead), ReadMin(0), OneTask(10, AtDecide(0, 10)));
    Take(s, OneTask(10, AtDecide(0, 10)), Decide, OneTask(10, AtTimedWait(0, 5, 10)));
  }

  /** The lateness is real: when the clock moves between the reading and the arming, the deadline
      can have come while the thread may not yet time out. */
  lemma TimeoutCanBeLate(t: State)
    requires t == OneTask(15, TimedWaiting(15, 18, 10, 13))
    ensures Leads(Initial(10, 1, 0), t) && t.pc.armed <= t.now && !Enabled(t, Timeout)
  {
    var s := Initial(10, 1, 0);
    DelayIsComputed();
    Take(s, OneTask(10, AtTimedWait(0, 5, 10)), Tick(3), OneTask(13, AtTimedWait(0, 5, 10)));
    Take(s, OneTask(13, AtTimedWait(0, 5, 10)), ArmTimeout, OneTask(13, TimedWaiting(15, 18, 10, 13)));
    Take(s, OneTask(13, TimedWaiting(15, 18, 10, 13)), Tick(2), t);
  }

  lemma {:induction false} ClearedStaysQuiet(s: State, es: seq<Step>, t: State)
    requires Inv(s) && s.cleared && Path(s, es, t)
    ensures t.dequeued == s.dequeued
    ensures t.bodies == s.bodies || (s.pc.Fired? && !t.pc.Fired? && |t.bodies| == |s.bodies| + 1)
    ensures t.pc.Fired? ==> s.pc == t.pc
    decreases es
  {
    if es != [] {
      StepKeepsInv(s, es[0]);
      ClearedStaysQuiet(Apply(s, es[0]), es[1..], t);
    }
  }

  /** Stop is final: after some StopAsync has returned, nothing more is dequeued in any run, and
      at most one more body is executed, that of the task dequeued before. */
  lemma NothingAfterStop(now: nat, n: nat, m: nat, es: seq<Step>, s: State, k: nat, later: seq<Step>, t: State)
    requires now > 0 && Path(Initial(now, n, m), es, s) && k < |s.stoppers| && s.stoppers[k] == Stopped
    requires Path(s, later, t)
    ensures t.dequeued == s.dequeued
    ensures |s.bodies| <= |t.bodies| <= |s.bodies| + 1
    ensures |t.bodies| > |s.bodies| ==> s.pc.Fired?
    ensures t.requestCancel && !Committed(t.pc)
  {
    ReachableInv(now, n, m, es, s);
    ClearedStaysQuiet(s, later, t);
    PathKeepsInv(s, later, t);
  }

  // Steps of the timer thread itself.
  predicate OwnStep(e: Step) {
    e.Lock? || e.TestEmpty? || e.CheckEmpty? || e.Wait? || e.Relock? || e.Check? || e.ReadMin? || e.Decide?
    || e.ArmTimeout? || e.Timeout? || e.RunCheck? || e.BodyReturns? || e.BodyThrows?
  }

  function OwnSteps(es: seq<Step>): nat {
    if es == [] then 0 else (if OwnStep(es[0]) then 1 else 0) + OwnSteps(es[1..])
  }

  // Own steps left, at most, once the queue has been cleared for a stop.
  function StopRank(pc: ThreadPc): nat {
    match pc
    case Fired(_, _) => 5
    case InBody(_) => 4
    case AtLock => 3
    case Woken => 3
    case AtTest => 2
    case AtCheckEmpty => 1
    case AtCheck => 1
    case _ => 0
  }

  // The own step that is enabled then; a body is taken to return.
  function NextOwn(pc: ThreadPc): Step {
    match pc
    case Fired(_, _) => RunCheck
    case InBody(_) => BodyReturns
    case AtLock => Lock
    case Woken => Relock
    case AtTest => TestEmpty
    case AtCheckEmpty => CheckEmpty
    case _ => Check
  }

  lemma StepTowardsExit(s: State, e: Step)
    requires Inv(s) && s.cleared && Enabled(s, e)
    ensures StopRank(Apply(s, e).pc) + (if OwnStep(e) then 1 else 0) <= StopRank(s.pc)
  {}

  lemma {:induction false} OwnStepsAreBounded(s: State, es: seq<Step>, t: State)
    requires Inv(s) && s.cleared && Path(s, es, t)
    ensures OwnSteps(es) + StopRank(t.pc) <= StopRank(s.pc)
    decreases es
  {
    if es != [] {
      StepKeepsInv(s, es[0]);
      StepOnlyAdvances(s, es[0]);
      StepTowardsExit(s, es[0]);
      OwnStepsAreBounded(Apply(s, es[0]), es[1..], t);
    }
  }

  /** Stop does not wait forever for the thread: once some StopAsync has cleared the queue, the
      thread takes at most five more steps, whatever submitters and other stoppers do, and until it
      has exited it can take one, so it never sleeps again. */
  lemma StoppedThreadEnds(now: nat, n: nat, m: nat, es: seq<Step>, s: State, later: seq<Step>, t: State)
    requires now > 0 && Path(Initial(now, n, m), es, s) && s.cleared && Path(s, later, t)
    ensures OwnSteps(later) <= 5
    ensures !t.pc.Exited? ==> OwnStep(NextOwn(t.pc)) && Enabled(t, NextOwn(t.pc))
  {
    ReachableInv(now, n, m, es, s);
    OwnStepsAreBounded(s, later, t);
    PathKeepsInv(s, later, t);
  }

  /** Never early: every execution of a body began at or after the deadline its task had when
      it was dequeued, also for tasks dequeued before their deadline because they were
      cancelled, whose bodies do not run at all. */
  lemma NeverBeforeDeadline(now: nat, n: nat, m: nat, es: seq<Step>, t: State, x: Execution)
    requires now > 0 && Path(Initial(now, n, m), es, t) && x in t.bodies
    ensures x.due <= x.at <= t.now
  {
    ReachableInv(now, n, m, es, t);
  }

  function Executions(xs: seq<Execution>, i: nat): nat {
    if xs == [] then 0 else Executions(xs[..|xs| - 1], i) + (if xs[|xs| - 1].task == i then 1 else 0)
  }

  ghost predicate Counted(s: State) {
    forall i: nat :: i < |s.tasks| ==> s.tasks[i].runs == Executions(s.bodies, i)
  }

  lemma RunCheckKeepsCount(s: State)
    requires Counted(s) && Enabled(s, RunCheck)
    ensures Counted(Apply(s, RunCheck))
  {
    var s' := Apply(s, RunCheck);
    if |s'.bodies| > |s.bodies| {
      assert s'.bodies[..|s'.bodies| - 1] == s.bodies;
    }
  }

  lemma OtherStepKeepsRuns(s: State, e: Step)
    requires Enabled(s, e) && !e.RunCheck?
    ensures var t := Apply(s, e);
            && t.bodies == s.bodies && |t.tasks| == |s.tasks|
            && forall i :: 0 <= i < |s.tasks| ==> t.tasks[i].runs == s.tasks[i].runs
  {}

  lemma StepKeepsCount(s: State, e: Step)
    requires Counted(s) && Enabled(s, e)
    ensures Counted(Apply(s, e))
  {
    if e.RunCheck? {
      RunCheckKeepsCount(s);
    } else {
      OtherStepKeepsRuns(s, e);
    }
  }

  lemma {:induction false} PathKeepsCount(s: State, es: seq<Step>, t: State)
    requires Counted(s) && Path(s, es, t)
    ensures Counted(t)
    decreases es
  {
    if es != [] {
      StepKeepsCount(s, es[0]);
      PathKeepsCount(Apply(s, es[0]), es[1..], t);
    }
  }

  lemma Quotient(a: int, interval: nat, b: nat)
    requires interval > 0 && a * interval <= b
    ensures a <= b / interval
  {
    var q := b / interval;
    assert b == q * interval + b % interval;
    assert (a - q) * interval == a * interval - q * interval;
    if a - q >= 1 {
      AtLeastOneMultiple(a - q, interval);
    }
  }

  lemma AtLeastOneMultiple(d: int, k: nat)
    requires d >= 1
    ensures d * k >= k
  {
    assert (d - 1) * k >= 0;
  }

  lemma RunsAreBounded(t: Task, queued: bool, now: nat)
    requires TaskInv(t, queued, now)
    ensures t.interval == 0 ==> t.runs <= 1
    ensures now < t.first ==> t.runs == 0
    ensures t.interval > 0 && t.first <= now ==> t.runs <= 1 + (now - t.first) / t.interval
  {
    if t.fires > 0 {
      assert (t.fires - 1) * t.interval >= 0;
      if t.interval > 0 {
        Quotient(t.fires - 1, t.interval, now - t.first);
      }
    }
  }

  /** How often a body runs. A one-shot task's body runs at most once ever, whatever its submitter
      tries; an interval task submitted with first deadline d runs at most 1 + (t - d) / interval
      times by any time t from d on, and not at all before d. */
  lemma ExecutionBound(now: nat, n: nat, m: nat, es: seq<Step>, t: State, i: nat)
    requires now > 0 && Path(Initial(now, n, m), es, t) && i < |t.tasks|
    ensures t.tasks[i].interval == 0 ==> Executions(t.bodies, i) <= 1
    ensures t.now < t.tasks[i].first ==> Executions(t.bodies, i) == 0
    ensures t.tasks[i].interval > 0 && t.tasks[i].first <= t.now ==>
              Executions(t.bodies, i) <= 1 + (t.now - t.tasks[i].first) / t.tasks[i].interval
  {
    ReachableInv(now, n, m, es, t);
    PathKeepsCount(Initial(now, n, m), es, t);
    RunsAreBounded(t.tasks[i], i in t.queue, t.now);
  }

  // ---------- Nothing is forgotten ----------

  predicate IsFired(s: State, i: nat) {
    s.pc.Fired? && s.pc.fired == i
  }

  // In the timer's care: submitted, and no StopAsync has cleared the queue.
  predicate Accepted(s: State, i: nat) {
    i < |s.tasks| && s.tasks[i].deadline > 0 && !s.tasks[i].submitter.Pushing? && !s.cleared
  }

  // What has become of one task: each firing but the last has begun a body, unless cancellation was
  // requested, and an accepted task is queued until it is done with.
  ghost predicate Served(s: State, i: nat)
    requires i < |s.tasks|
  {
    var t := s.tasks[i];
    && (t.cancelled ==> t.requestCancel)
    && (!t.requestCancel ==> t.runs == t.fires - (if IsFired(s, i) then 1 else 0))
    && (Accepted(s, i) ==>
          || i in s.queue || (IsFired(s, i) && t.requestCancel)
          || t.cancelled || (t.interval == 0 && t.fires == 1))
    && (Accepted(s, i) && t.interval > 0 && !t.requestCancel ==> i in s.queue)
  }

  lemma DecideServes(s: State, i: nat)
    requires Inv(s) && i < |s.tasks| && Served(s, i) && Enabled(s, Decide)
    ensures Served(Apply(s, Decide), i)
  {
    assert TaskInv(s.tasks[i], i in s.queue, s.now);
  }

  lemma RunServes(s: State, e: Step, i: nat)
    requires i < |s.tasks| && Served(s, i) && Enabled(s, e) && (e.RunCheck? || e.BodyReturns? || e.BodyThrows?)
    ensures i < |Apply(s, e).tasks| && Served(Apply(s, e), i)
  {}

  lemma SubmitServes(s: State, e: Step, i: nat)
    requires Inv(s) && i < |s.tasks| && Served(s, i) && Enabled(s, e)
    requires e.Compute? || e.CheckSubmit? || e.StoreDeadline? || e.Push? || e.CancelTask?
    ensures i < |Apply(s, e).tasks| && Served(Apply(s, e), i)
  {
    assert TaskInv(s.tasks[i], i in s.queue, s.now);
  }

  predicate IsQuiet(e: Step) {
    && !e.Decide? && !e.RunCheck? && !e.BodyReturns? && !e.BodyThrows?
    && !e.Compute? && !e.CheckSubmit? && !e.StoreDeadline? && !e.Push? && !e.CancelTask?
  }

  // The other steps change no task, and of the queue only Clear changes anything.
  lemma QuietStep(s: State, e: Step)
    requires Enabled(s, e) && IsQuiet(e)
    ensures var t := Apply(s, e);
            && t.tasks == s.tasks && (t.cleared || (t.queue == s.queue && !s.cleared))
            && !s.pc.Fired? == !t.pc.Fired? && (s.pc.Fired? ==> t.pc == s.pc)
  {}

  lemma OtherStepServes(s: State, e: Step, i: nat)
    requires i < |s.tasks| && Served(s, i) && Enabled(s, e) && IsQuiet(e)
    ensures i < |Apply(s, e).tasks| && Served(Apply(s, e), i)
  {
    QuietStep(s, e);
  }

  lemma StepServes(s: State, e: Step, i: nat)
    requires Inv(s) && i < |s.tasks| && Served(s, i) && Enabled(s, e)
    ensures i < |Apply(s, e).tasks| && Served(Apply(s, e), i)
  {
    if e.Decide? {
      DecideServes(s, i);
    } else if e.RunCheck? || e.BodyReturns? || e.BodyThrows? {
      RunServes(s, e, i);
    } else if e.Compute? || e.CheckSubmit? || e.StoreDeadline? || e.Push? || e.CancelTask? {
      SubmitServes(s, e, i);
    } else {
      OtherStepServes(s, e, i);
    }
  }

  lemma {:induction false} PathServes(s: State, es: seq<Step>, t: State, i: nat)
    requires Inv(s) && i < |s.tasks| && Served(s, i) && Path(s, es, t)
    ensures i < |t.tasks| && Served(t, i)
    decreases es
  {
    if es != [] {
      StepServes(s, es[0], i);
      StepKeepsInv(s, es[0]);
      PathServes(Apply(s, es[0]), es[1..], t, i);
    }
  }

  /** How often a body runs at least. A task that nobody asked to cancel has had its body begun once
      for each time it came due, save for a firing whose turn is just coming. As long as no StopAsync
      has cleared the queue, an accepted one-shot task is queued, or about to run, or has been run
      exactly once, and an accepted interval task is queued; and a task that somebody did ask to
      cancel is queued, or about to be dealt with, or CANCELLED, or had come due for good before. */
  lemma EveryFiringRuns(now: nat, n: nat, m: nat, es: seq<Step>, t: State, i: nat)
    requires now > 0 && Path(Initial(now, n, m), es, t) && i < |t.tasks|
    ensures var task := t.tasks[i];
            && (!task.requestCancel ==>
                  Executions(t.bodies, i) == task.fires - (if IsFired(t, i) then 1 else 0))
            && (!task.requestCancel && Accepted(t, i) && task.interval == 0 ==>
                  i in t.queue || IsFired(t, i) || Executions(t.bodies, i) == 1)
            && (!task.requestCancel && Accepted(t, i) && task.interval > 0 ==> i in t.queue)
            && (task.requestCancel && Accepted(t, i) ==>
                  i in t.queue || IsFired(t, i) || task.cancelled || (task.interval == 0 && task.fires == 1))
  {
    var s := Initial(now, n, m);
    PathKeepsCount(s, es, t);
    PathKeepsInv(s, es, t);
    PathServes(s, es, t, i);
  }

  // ---------- The thread moves on ----------

  // Own steps until the next decision or sleep, at most.
  function TurnRank(pc: ThreadPc): nat {
    match pc
    case Fired(_, _) => 7
    case InBody(_) => 6
    case AtLock => 5
    case Woken => 5
    case AtTest => 4
    case AtCheckEmpty => 3
    case AtCheck => 3
    case AtRead => 2
    case AtDecide(_, _) => 1
    case AtWait => 1
    case AtTimedWait(_, _, _) => 1
    case _ => 0
  }

  ghost predicate CanStep(s: State) {
    exists e :: OwnStep(e) && Enabled(s, e)
  }

  lemma MinimumExists(s: State, q: set<nat>) returns (i: nat)
    requires q != {} && forall j <- q :: j < |s.tasks|
    ensures i in q && forall j <- q :: s.tasks[i].deadline <= s.tasks[j].deadline
    decreases |q|
  {
    i :| i in q;
    if q != {i} {
      var k := MinimumExists(s, q - {i});
      if s.tasks[k].deadline < s.tasks[i].deadline {
        i := k;
      }
    }
  }

  lemma AwakeCanStep(s: State)
    requires Inv(s) && !Asleep(s.pc) && !s.pc.Exited?
    ensures CanStep(s)
  {
    if s.pc.AtRead? {
      var i := MinimumExists(s, s.queue);
      assert Enabled(s, ReadMin(i));
    } else {
      var e := match s.pc
        case AtWait => Wait
        case AtDecide(_, _) => Decide
        case AtTimedWait(_, _, _) => ArmTimeout
        case _ => NextOwn(s.pc);
      assert OwnStep(e) && Enabled(s, e);
    }
  }

  lemma OwnStepLowersRank(s: State, e: Step)
    requires Enabled(s, e) && OwnStep(e) && !e.Decide? && !e.Timeout?
    ensures TurnRank(Apply(s, e).pc) < TurnRank(s.pc)
  {}

  lemma OthersLeaveThread(s: State, e: Step)
    requires Enabled(s, e) && !OwnStep(e) && !Asleep(s.pc)
    ensures Apply(s, e).pc == s.pc
  {}

  lemma DueTaskFires(s: State)
    requires Enabled(s, Decide)
    ensures var task := s.tasks[s.pc.task];
            !task.cancelled && !task.requestCancel && task.deadline <= s.pc.readNow ==>
              && |Apply(s, Decide).tasks| == |s.tasks| && IsFired(Apply(s, Decide), s.pc.task)
              && Apply(s, Decide).tasks[s.pc.task].fires == task.fires + 1
  {}

  /** The thread always gets to its next decision. While it is awake and has not exited it can take a
      step, and each of its own steps but the decision, or the end of a sleep, lowers a rank of at
      most seven, which nobody else raises unless by waking it. Asleep with tasks queued it waits
      for the earliest of them, and can go on from that deadline plus the time it took to arm the
      timeout. A decision on a due task that is neither cancelled nor asked to be fires it. */
  lemma ThreadMovesOn(now: nat, n: nat, m: nat, es: seq<Step>, t: State, e: Step)
    requires now > 0 && Path(Initial(now, n, m), es, t) && Enabled(t, e)
    ensures !Asleep(t.pc) && !t.pc.Exited? ==> CanStep(t)
    ensures OwnStep(e) && !e.Decide? && !e.Timeout? ==> TurnRank(Apply(t, e).pc) < TurnRank(t.pc) <= 7
    ensures !OwnStep(e) && !Asleep(t.pc) ==> Apply(t, e).pc == t.pc
    ensures Asleep(t.pc) && t.queue != {} ==>
              t.pc.TimedWaiting? && (t.pc.armed + (t.pc.armedAt - t.pc.readAt) <= t.now ==> Enabled(t, Timeout))
    ensures e.Decide? ==>
              var task := t.tasks[t.pc.task];
              !task.cancelled && !task.requestCancel && task.deadline <= t.pc.readNow ==>
                IsFired(Apply(t, e), t.pc.task) && Apply(t, e).tasks[t.pc.task].fires == task.fires + 1
  {
    ReachableInv(now, n, m, es, t);
    if !Asleep(t.pc) && !t.pc.Exited? {
      AwakeCanStep(t);
    }
    if e.Decide? {
      DueTaskFires(t);
    } else if OwnStep(e) && !e.Timeout? {
      OwnStepLowersRank(t, e);
    } else if !OwnStep(e) && !Asleep(t.pc) {
      OthersLeaveThread(t, e);
    }
  }

  /** An exception that escapes from a body ends the timer thread: in no run afterwards is anything
      dequeued or run, although submissions are still accepted. */
  lemma {:induction false} EscapeEndsTimer(s: State, es: seq<Step>, t: State)
    requires Enabled(s, BodyThrows(true)) && Path(Apply(s, BodyThrows(true)), es, t)
    ensures t.pc.Exited? && t.dequeued == s.dequeued && t.bodies == s.bodies
  {
    ExitedStays(Apply(s, BodyThrows(true)), es, t);
  }

  lemma {:induction false} ExitedStays(s: State, es: seq<Step>, t: State)
    requires s.pc.Exited? && Path(s, es, t)
    ensures t.pc.Exited? && t.dequeued == s.dequeued && t.bodies == s.bodies
    decreases es
  {
    if es != [] {
      ExitedStays(Apply(s, es[0]), es[1..], t);
    }
  }

  lemma StepExits(s: State, e: Step)
    requires Enabled(s, e)
    ensures Apply(s, e).pc.Exited? ==> s.pc.Exited? || s.requestCancel || e == BodyThrows(true)
    ensures Apply(s, e).requestCancel <==> s.requestCancel || e.RequestStop?
  {}

  lemma {:induction false} PathExits(s: State, es: seq<Step>, t: State)
    requires Path(s, es, t)
    ensures t.pc.Exited? ==> s.pc.Exited? || t.requestCancel || BodyThrows(true) in es
    ensures t.requestCancel <==> s.requestCancel || exists k :: RequestStop(k) in es
    decreases es
  {
    if es != [] {
      StepExits(s, es[0]);
      PathExits(Apply(s, es[0]), es[1..], t);
      if es[0].RequestStop? {
        assert RequestStop(es[0].k) in es;
      }
    }
  }

  /** And nothing else ends it but a stop: a thread that has exited was asked to, or an exception has
      escaped from a body. */
  lemma ExitsOnlyWhenStopped(now: nat, n: nat, m: nat, es: seq<Step>, t: State)
    requires Path(Initial(now, n, m), es, t)
    ensures t.requestCancel <==> exists k :: RequestStop(k) in es
    ensures t.pc.Exited? ==> (exists k :: RequestStop(k) in es) || BodyThrows(true) in es
  {
    PathExits(Initial(now, n, m), es, t);
  }

  // Ends of bodies among the steps.
  function BodyEnds(es: seq<Step>): nat {
    if es == [] then 0 else (if es[0].BodyReturns? || es[0].BodyThrows? then 1 else 0) + BodyEnds(es[1..])
  }

  function Inside(pc: ThreadPc): nat {
    if pc.InBody? then 1 else 0
  }

  lemma StepBodies(s: State, e: Step)
    requires Enabled(s, e)
    ensures |Apply(s, e).bodies| - |s.bodies|
            == Inside(Apply(s, e).pc) - Inside(s.pc) + if e.BodyReturns? || e.BodyThrows? then 1 else 0
  {}

  lemma {:induction false} PathBodies(s: State, es: seq<Step>, t: State)
    requires Path(s, es, t)
    ensures |t.bodies| - |s.bodies| == Inside(t.pc) - Inside(s.pc) + BodyEnds(es)
    decreases es
  {
    if es != [] {
      StepBodies(s, es[0]);
      PathBodies(Apply(s, es[0]), es[1..], t);
    }
  }

  /** Every body begun is over, one way or the other, or the thread is inside it. */
  lemma BodiesAreAccounted(now: nat, n: nat, m: nat, es: seq<Step>, t: State)
    requires Path(Initial(now, n, m), es, t)
    ensures |t.bodies| == BodyEnds(es) + Inside(t.pc)
  {
    PathBodies(Initial(now, n, m), es, t);
  }

  // ---------- What was asked for ----------

  // In the run from s, the submitter of task i computes a first deadline `at` for interval `every`.
  ghost predicate Asked(s: State, es: seq<Step>, i: nat, at: nat, every: nat)
    decreases es
  {
    && es != [] && Enabled(s, es[0])
    && (Asks(s, es[0], i, at, every) || Asked(Apply(s, es[0]), es[1..], i, at, every))
  }

  predicate Asks(s: State, e: Step, i: nat, at: nat, every: nat) {
    e.Compute? && e.i == i && e.every == every && s.now + e.delay == at
  }

  // The submitter is under way with this schedule, or the task has it.
  ghost predicate Scheduled(s: State, i: nat, at: nat, every: nat) {
    && i < |s.tasks|
    && var t := s.tasks[i];
       || ((t.submitter.Computed? || t.submitter.Checked?) && t.submitter.at == at && t.submitter.every == every)
       || (t.deadline > 0 && t.first == at && t.interval == every)
  }

  lemma StepSchedules(s: State, e: Step, i: nat, at: nat, every: nat)
    requires Inv(s) && Enabled(s, e) && Scheduled(Apply(s, e), i, at, every)
    ensures Scheduled(s, i, at, every) || Asks(s, e, i, at, every)
  {
    StepOnlyAdvances(s, e);
    assert TaskInv(s.tasks[i], i in s.queue, s.now);
    if Touched(s, e) != i {
      UntouchedKeepsTask(s, e, i);
    }
  }

  lemma {:induction false} PathSchedules(s: State, es: seq<Step>, t: State, i: nat, at: nat, every: nat)
    requires Inv(s) && Path(s, es, t) && Scheduled(t, i, at, every)
    ensures Scheduled(s, i, at, every) || Asked(s, es, i, at, every)
    decreases es
  {
    if es != [] {
      StepKeepsInv(s, es[0]);
      PathSchedules(Apply(s, es[0]), es[1..], t, i, at, every);
      if Scheduled(Apply(s, es[0]), i, at, every) {
        StepSchedules(s, es[0], i, at, every);
      }
    }
  }

  /** Deadlines are those asked for: a task's first deadline is the clock at some call of its
      submitter plus the delay of that call, and its interval is the one of that call. */
  lemma DeadlinesAsAsked(now: nat, n: nat, m: nat, es: seq<Step>, t: State, i: nat)
    requires now > 0 && Path(Initial(now, n, m), es, t) && i < |t.tasks| && t.tasks[i].deadline > 0
    ensures Asked(Initial(now, n, m), es, i, t.tasks[i].first, t.tasks[i].interval)
  {
    PathKeepsInv(Initial(now, n, m), es, t);
    PathSchedules(Initial(now, n, m), es, t, i, t.tasks[i].first, t.tasks[i].interval);
  }

  // In the run from s, task i finds its request: at the check of Run, or thrown out of its body.
  ghost predicate FindsRequest(s: State, es: seq<Step>, i: nat)
    decreases es
  {
    es != [] && Enabled(s, es[0]) && (Finds(s, es[0], i) || FindsRequest(Apply(s, es[0]), es[1..], i))
  }

  predicate Finds(s: State, e: Step, i: nat)
    requires Enabled(s, e)
  {
    || (e.RunCheck? && s.pc.fired == i && s.tasks[i].requestCancel)
    || (e == BodyThrows(false) && s.pc.running == i)
  }

  lemma StepCancels(s: State, e: Step, i: nat)
    requires Enabled(s, e) && i < |s.tasks|
    ensures i < |Apply(s, e).tasks|
    ensures Apply(s, e).tasks[i].cancelled <==> s.tasks[i].cancelled || Finds(s, e, i)
  {}

  lemma StepRequests(s: State, e: Step, i: nat)
    requires Enabled(s, e) && i < |s.tasks|
    ensures i < |Apply(s, e).tasks|
    ensures Apply(s, e).tasks[i].requestCancel <==> s.tasks[i].requestCancel || e == CancelTask(i)
  {}

  lemma {:induction false} PathCancels(s: State, es: seq<Step>, t: State, i: nat)
    requires Path(s, es, t) && i < |s.tasks|
    ensures i < |t.tasks|
    ensures t.tasks[i].cancelled <==> s.tasks[i].cancelled || FindsRequest(s, es, i)
    ensures t.tasks[i].requestCancel <==> s.tasks[i].requestCancel || CancelTask(i) in es
    decreases es
  {
    if es != [] {
      StepCancels(s, es[0], i);
      StepRequests(s, es[0], i);
      PathCancels(Apply(s, es[0]), es[1..], t, i);
    }
  }

  /** A timer task is asked to cancel itself exactly when somebody calls CancelAsync on it, and it is
      CANCELLED exactly when it found that request. */
  lemma CancelledExactly(now: nat, n: nat, m: nat, es: seq<Step>, t: State, i: nat)
    requires Path(Initial(now, n, m), es, t) && i < n
    ensures i < |t.tasks|
    ensures t.tasks[i].requestCancel <==> CancelTask(i) in es
    ensures t.tasks[i].cancelled <==> FindsRequest(Initial(now, n, m), es, i)
  {
    PathCancels(Initial(now, n, m), es, t, i);
  }

  lemma {:induction false} NeverAccepted(s: State, es: seq<Step>, t: State, i: nat)
    requires Inv(s) && s.requestCancel && Path(s, es, t) && i < |s.tasks| && s.tasks[i].deadline == 0
    requires s.tasks[i].submitter.Outside? || s.tasks[i].submitter.Computed?
    ensures i < |t.tasks| && t.tasks[i].deadline == 0 && i !in t.queue && t.tasks[i].fires == 0
    decreases es
  {
    assert TaskInv(s.tasks[i], i in s.queue, s.now);
    if es != [] {
      StepKeepsInv(s, es[0]);
      RefusedStays(s, es[0], i);
      NeverAccepted(Apply(s, es[0]), es[1..], t, i);
    }
  }

  lemma RefusedStays(s: State, e: Step, i: nat)
    requires TasksInv(s) && s.requestCancel && Enabled(s, e) && i < |s.tasks| && s.tasks[i].deadline == 0
    requires SleepInv(s) && (s.tasks[i].submitter.Outside? || s.tasks[i].submitter.Computed?)
    ensures var t := Apply(s, e);
            && t.requestCancel && i < |t.tasks| && t.tasks[i].deadline == 0
            && (t.tasks[i].submitter.Outside? || t.tasks[i].submitter.Computed?)
  {
    assert TaskInv(s.tasks[i], i in s.queue, s.now);
  }

  /** A stopping timer accepts nothing: a task that has no deadline yet, and whose submitter has not
      passed its check when a stop is requested, is never queued and never comes due. */
  lemma StopRefusesSubmissions(
      now: nat, n: nat, m: nat, es: seq<Step>, s: State, k: nat, later: seq<Step>, t: State, i: nat)
    requires now > 0 && Path(Initial(now, n, m), es, s) && Enabled(s, RequestStop(k))
    requires i < |s.tasks| && s.tasks[i].deadline == 0
    requires s.tasks[i].submitter.Outside? || s.tasks[i].submitter.Computed?
    requires Path(Apply(s, RequestStop(k)), later, t)
    ensures i < |t.tasks| && t.tasks[i].deadline == 0 && i !in t.queue && t.tasks[i].fires == 0
  {
    ReachableInv(now, n, m, es, s);
    StepKeepsInv(s, RequestStop(k));
    NeverAccepted(Apply(s, RequestStop(k)), later, t, i);
  }

  lemma StepKeepsSchedule(s: State, e: Step, i: nat)
    requires TasksInv(s) && Enabled(s, e) && i < |s.tasks| && s.tasks[i].deadline > 0
    ensures var t := Apply(s, e).tasks[i];
            t.first == s.tasks[i].first && t.interval == s.tasks[i].interval && s.tasks[i].deadline <= t.deadline
  {
    assert TaskInv(s.tasks[i], i in s.queue, s.now);
  }

  /** A task cannot be submitted twice: once it has a deadline, its first deadline and its
      interval never change again, and its deadline only moves forward. */
  lemma {:induction false} OneSubmission(s: State, es: seq<Step>, t: State, i: nat)
    requires Inv(s) && Path(s, es, t) && i < |s.tasks| && s.tasks[i].deadline > 0
    ensures i < |t.tasks| && t.tasks[i].first == s.tasks[i].first && t.tasks[i].interval == s.tasks[i].interval
    ensures s.tasks[i].deadline <= t.tasks[i].deadline
    decreases es
  {
    if es != [] {
      StepKeepsInv(s, es[0]);
      StepKeepsSchedule(s, es[0], i);
      OneSubmission(Apply(s, es[0]), es[1..], t, i);
    }
  }

  lemma StepSparesCancelled(s: State, e: Step, i: nat)
    requires Enabled(s, e) && i < |s.tasks| && s.tasks[i].requestCancel
    ensures i < |Apply(s, e).tasks| && Apply(s, e).tasks[i].requestCancel
    ensures Executions(Apply(s, e).bodies, i) == Executions(s.bodies, i)
  {
    var s' := Apply(s, e);
    if |s'.bodies| > |s.bodies| {
      assert s'.bodies[..|s'.bodies| - 1] == s.bodies;
    }
  }

  lemma {:induction false} RequestedNeverRuns(s: State, es: seq<Step>, t: State, i: nat)
    requires Path(s, es, t) && i < |s.tasks| && s.tasks[i].requestCancel
    ensures Executions(t.bodies, i) == Executions(s.bodies, i)
    decreases es
  {
    if es != [] {
      StepSparesCancelled(s, es[0], i);
      RequestedNeverRuns(Apply(s, es[0]), es[1..], t, i);
    }
  }

  /** Cancelling works: once somebody has called CancelAsync on a task its body never begins again, in
      any run, even if the task fires. */
  lemma CancelledNeverRuns(s: State, es: seq<Step>, t: State, i: nat)
    requires Enabled(s, CancelTask(i)) && Path(Apply(s, CancelTask(i)), es, t)
    ensures Executions(t.bodies, i) == Executions(s.bodies, i)
  {
    RequestedNeverRuns(Apply(s, CancelTask(i)), es, t, i);
  }
}
