/**
 The timer thread among submitters, cancellers and stoppers: src/Timer.cpp.

 The queue is a set of task numbers; TimerQueues shows that the heap delivers a minimum of it.
 The timer thread holds the queue lock over many steps, the others for one. Each task has one
 submitter, which may submit it any number of times. The clock is monotone and starts above 0.
 */
module TimerProtocol {

  // Where the submitter of a task is: outside, with a deadline computed, past its two checks,
  // or with the deadline stored and the push still to do.
  datatype Submitter = Outside | Computed(at: nat, every: nat) | Checked(at: nat, every: nat) | Pushing

  datatype Task = Task(
    deadline: nat,
    interval: nat,
    requestCancel: bool,
    cancelled: bool,
    submitter: Submitter,
    // Accounting: the deadline it was submitted with, how often it came due, how often its body ran.
    first: nat,
    fires: nat,
    runs: nat)

  datatype ThreadPc =
    | AtLock
    | AtTest                            // from here on the lock is held ...
    | AtCheckEmpty
    | AtWait
    | AtCheck
    | AtRead
    | AtDecide(task: nat, readNow: nat)
    | AtTimedWait(next: nat, delay: nat, readAt: nat) // ... up to here
    | Waiting
    | Woken                             // signalled in Wait, has still to reacquire the lock
    // The deadline waited for and when the wait times out; for accounting, the clock when the
    // delay was computed and when it was armed.
    | TimedWaiting(armed: nat, until: nat, readAt: nat, armedAt: nat)
    | Fired(fired: nat, due: nat)
    | InBody(running: nat)
    | Exited

  datatype Stopper = Idle | Clearing | Stopped

  // An execution of a task's body: which task, the deadline it came due at, and when it began.
  datatype Execution = Execution(task: nat, due: nat, at: nat)

  datatype State = State(
    now: nat,
    tasks: seq<Task>,
    queue: set<nat>,
    requestCancel: bool,
    pc: ThreadPc,
    stoppers: seq<Stopper>,
    // Whether some StopAsync has cleared the queue; what was dequeued; which bodies ran.
    cleared: bool,
    dequeued: seq<nat>,
    bodies: seq<Execution>)

  datatype Step =
    | Tick(ms: nat)
    // submitters and cancellers
    | Compute(i: nat, delay: nat, every: nat)
    | CheckSubmit(i: nat)
    | StoreDeadline(i: nat)
    | Push(i: nat)
    | CancelTask(i: nat)
    // stoppers
    | RequestStop(k: nat)
    | Clear(k: nat)
    // the timer thread
    | Lock
    | TestEmpty
    | CheckEmpty
    | Wait
    | Spurious
    | Relock
    | Check
    | ReadMin(i: nat)
    | Decide
    | ArmTimeout
    | Timeout
    | RunCheck
    | BodyReturns
    | BodyThrows(escapes: bool)

  function Initial(now: nat, tasks: nat, stoppers: nat): State {
    State(now, seq(tasks, _ => Task(0, 0, false, false, Outside, 0, 0, 0)), {}, false, AtLock,
          seq(stoppers, _ => Idle), false, [], [])
  }

  predicate HoldsLock(pc: ThreadPc) {
    pc.AtTest? || pc.AtCheckEmpty? || pc.AtWait? || pc.AtCheck? || pc.AtRead? || pc.AtDecide? || pc.AtTimedWait?
  }

  predicate Asleep(pc: ThreadPc) {
    pc.Waiting? || pc.TimedWaiting?
  }

  predicate IsMin(s: State, i: nat) {
    && i in s.queue && i < |s.tasks|
    && forall j <- s.queue :: j < |s.tasks| ==> s.tasks[i].deadline <= s.tasks[j].deadline
  }

  predicate Enabled(s: State, e: Step) {
    match e
    case Tick(_) => true
    case Compute(i, _, _) => i < |s.tasks| && s.tasks[i].submitter == Outside
    case CheckSubmit(i) => i < |s.tasks| && s.tasks[i].submitter.Computed?
    case StoreDeadline(i) => i < |s.tasks| && s.tasks[i].submitter.Checked?
    case Push(i) => i < |s.tasks| && s.tasks[i].submitter.Pushing? && !HoldsLock(s.pc)
    case CancelTask(i) => i < |s.tasks|
    case RequestStop(k) => k < |s.stoppers| && !s.stoppers[k].Clearing?
    case Clear(k) => k < |s.stoppers| && s.stoppers[k].Clearing? && !HoldsLock(s.pc)
    case Lock => s.pc.AtLock?
    case TestEmpty => s.pc.AtTest?
    case CheckEmpty => s.pc.AtCheckEmpty?
    case Wait => s.pc.AtWait?
    case Spurious => Asleep(s.pc)
    case Relock => s.pc.Woken?
    case Check => s.pc.AtCheck?
    case ReadMin(i) => s.pc.AtRead? && IsMin(s, i)
    case Decide => s.pc.AtDecide? && s.pc.task < |s.tasks|
    case ArmTimeout => s.pc.AtTimedWait? && s.pc.next < |s.tasks|
    case Timeout => s.pc.TimedWaiting? && s.pc.until <= s.now
    case RunCheck => s.pc.Fired? && s.pc.fired < |s.tasks|
    case BodyReturns => s.pc.InBody?
    case BodyThrows(escapes) =>
      s.pc.InBody? && s.pc.running < |s.tasks| && (!escapes ==> s.tasks[s.pc.running].requestCancel)
  }

  // Where a notification, or a spurious wakeup, takes the timer thread.
  function Signalled(pc: ThreadPc): ThreadPc {
    if pc.Waiting? then Woken else if pc.TimedWaiting? then AtLock else pc
  }

  function Update(s: State, i: nat, t: Task): State
    requires i < |s.tasks|
  {
    s.(tasks := s.tasks[i := t])
  }

  function DecideOn(s: State, i: nat, readNow: nat): State
    requires i < |s.tasks|
  {
    var t := s.tasks[i];
    var s' := s.(queue := s.queue - {i}, dequeued := s.dequeued + [i]);
    if t.cancelled then s'.(pc := AtLock)
    else if t.requestCancel then s'.(pc := Fired(i, t.deadline))
    else if t.deadline <= readNow then
      if t.interval > 0 then
        Update(s'.(queue := s.queue, pc := Fired(i, t.deadline)), i,
               t.(deadline := readNow + t.interval, fires := t.fires + 1))
      else
        Update(s'.(pc := Fired(i, t.deadline)), i, t.(fires := t.fires + 1))
    else s.(pc := AtTimedWait(i, t.deadline - readNow, readNow))
  }

  function Apply(s: State, e: Step): State
    requires Enabled(s, e)
  {
    match e
    case Tick(ms) => s.(now := s.now + ms)
    case Compute(i, delay, every) => Update(s, i, s.tasks[i].(submitter := Computed(s.now + delay, every)))
    case CheckSubmit(i) =>
      var t := s.tasks[i];
      Update(s, i, t.(submitter := if s.requestCancel || t.deadline != 0 then Outside
                                   else Checked(t.submitter.at, t.submitter.every)))
    case StoreDeadline(i) =>
      var t := s.tasks[i];
      Update(s, i, t.(deadline := t.submitter.at, interval := t.submitter.every, first := t.submitter.at,
                      submitter := Pushing))
    case Push(i) =>
      Update(s.(queue := s.queue + {i}, pc := Signalled(s.pc)), i, s.tasks[i].(submitter := Outside))
    case CancelTask(i) => Update(s, i, s.tasks[i].(requestCancel := true))
    case RequestStop(k) => s.(requestCancel := true, stoppers := s.stoppers[k := Clearing])
    case Clear(k) => s.(queue := {}, cleared := true, stoppers := s.stoppers[k := Stopped], pc := Signalled(s.pc))
    case Lock => s.(pc := AtTest)
    case TestEmpty => s.(pc := if s.queue == {} then AtCheckEmpty else AtCheck)
    case CheckEmpty => s.(pc := if s.requestCancel then Exited else AtWait)
    case Wait => s.(pc := Waiting)
    case Spurious => s.(pc := Signalled(s.pc))
    case Relock => s.(pc := AtTest)
    case Check => s.(pc := if s.requestCancel then Exited else AtRead)
    case ReadMin(i) => s.(pc := AtDecide(i, s.now))
    case Decide => DecideOn(s, s.pc.task, s.pc.readNow)
    case ArmTimeout =>
      s.(pc := TimedWaiting(s.tasks[s.pc.next].deadline, s.now + s.pc.delay, s.pc.readAt, s.now))
    case Timeout => s.(pc := AtLock)
    case RunCheck =>
      var i := s.pc.fired;
      var t := s.tasks[i];
      if t.requestCancel then Update(s.(pc := AtLock), i, t.(cancelled := true))
      else Update(s.(pc := InBody(i), bodies := s.bodies + [Execution(i, s.pc.due, s.now)]), i, t.(runs := t.runs + 1))
    case BodyReturns => s.(pc := AtLock)
    case BodyThrows(escapes) =>
      if escapes then s.(pc := Exited)
      else Update(s.(pc := AtLock), s.pc.running, s.tasks[s.pc.running].(cancelled := true))
  }

  ghost predicate Path(s: State, es: seq<Step>, t: State)
    decreases es
  {
    if es == [] then s == t else Enabled(s, es[0]) && Path(Apply(s, es[0]), es[1..], t)
  }

  // The history of one task at time `now`; `queued` whether it is in the queue.
  predicate TaskInv(t: Task, queued: bool, now: nat) {
    && (t.deadline == 0 ==> t.fires == 0 && !queued && !t.submitter.Pushing?)
    && (t.submitter.Computed? || t.submitter.Checked? ==> t.submitter.at > 0)
    && (t.submitter.Checked? ==> t.deadline == 0)
    && (t.submitter.Pushing? ==> t.fires == 0 && !queued)
    && t.runs <= t.fires
    // Each firing pushed the deadline on by at least the interval.
    && (t.deadline > 0 ==> t.first + t.fires * t.interval <= t.deadline)
    && (t.fires > 0 ==> t.first + (t.fires - 1) * t.interval <= now)
    && (t.interval == 0 ==> t.fires <= 1 && (t.fires == 1 ==> !queued))
  }

  ghost predicate TasksInv(s: State) {
    && s.now > 0
    && (forall i <- s.queue :: i < |s.tasks|)
    && (forall i: nat :: i < |s.tasks| ==> TaskInv(s.tasks[i], i in s.queue, s.now))
  }

  ghost predicate FiredInv(s: State) {
    && (s.pc.Fired? ==> s.pc.fired < |s.tasks|)
    && (s.pc.Fired? && !s.tasks[s.pc.fired].requestCancel ==>
          s.pc.due <= s.now && s.tasks[s.pc.fired].runs < s.tasks[s.pc.fired].fires)
    && (forall x <- s.bodies :: x.due <= x.at <= s.now)
  }

  ghost predicate SleepInv(s: State) {
    && (s.pc.AtCheckEmpty? || s.pc.AtWait? || s.pc.Waiting? ==> s.queue == {})
    && (s.pc.AtDecide? ==> IsMin(s, s.pc.task) && s.pc.readNow <= s.now)
    && (s.pc.AtTimedWait? ==>
          && IsMin(s, s.pc.next) && s.pc.readAt <= s.now
          && s.pc.delay > 0 && s.tasks[s.pc.next].deadline == s.pc.readAt + s.pc.delay)
    && (s.pc.TimedWaiting? ==>
          && s.pc.readAt < s.pc.armed && s.pc.readAt <= s.pc.armedAt <= s.now
          && s.pc.until - s.pc.armed == s.pc.armedAt - s.pc.readAt
          && (exists i: nat :: IsMin(s, i) && s.tasks[i].deadline == s.pc.armed))
    && (s.pc.AtCheck? || s.pc.AtRead? ==> s.queue != {})
  }

  // Past the check of the cancel flag: about to sleep, asleep, or about to dequeue.
  predicate Committed(pc: ThreadPc) {
    pc.AtWait? || pc.AtRead? || pc.AtDecide? || pc.AtTimedWait? || Asleep(pc)
  }

  ghost predicate StopInv(s: State) {
    && (s.cleared ==> s.requestCancel && !Committed(s.pc))
    && (s.requestCancel && !s.cleared ==> exists k :: 0 <= k < |s.stoppers| && s.stoppers[k].Clearing?)
    && (forall k :: 0 <= k < |s.stoppers| && s.stoppers[k] != Idle ==> s.requestCancel)
    && (forall k :: 0 <= k < |s.stoppers| && s.stoppers[k] == Stopped ==> s.cleared)
  }

  ghost predicate Inv(s: State) {
    TasksInv(s) && FiredInv(s) && SleepInv(s) && StopInv(s)
  }

  lemma StepKeepsStopInv(s: State, e: Step)
    requires StopInv(s) && Enabled(s, e)
    ensures StopInv(Apply(s, e))
  {
    var s' := Apply(s, e);
    if !e.Clear? && !e.RequestStop? {
      assert s'.stoppers == s.stoppers;
    } else {
      assert s'.stoppers[e.k] == if e.Clear? then Stopped else Clearing;
    }
  }

  lemma DecideKeepsTask(s: State)
    requires TasksInv(s) && SleepInv(s) && Enabled(s, Decide)
    ensures var s' := Apply(s, Decide); TaskInv(s'.tasks[s.pc.task], s.pc.task in s'.queue, s'.now)
  {
    var t := s.tasks[s.pc.task];
    assert TaskInv(t, true, s.now);
    assert (t.fires + 1) * t.interval == t.fires * t.interval + t.interval;
  }

  // The task a step may change, or -1.
  function Touched(s: State, e: Step): int
    requires Enabled(s, e)
  {
    match e
    case Compute(i, _, _) => i
    case CheckSubmit(i) => i
    case StoreDeadline(i) => i
    case Push(i) => i
    case CancelTask(i) => i
    case Decide => s.pc.task
    case RunCheck => s.pc.fired
    case BodyThrows(_) => s.pc.running
    case _ => -1
  }

  lemma SubmitterKeepsTask(s: State, e: Step)
    requires TasksInv(s) && Enabled(s, e)
    requires e.Compute? || e.CheckSubmit? || e.StoreDeadline? || e.Push? || e.CancelTask?
    ensures var s' := Apply(s, e); TaskInv(s'.tasks[e.i], e.i in s'.queue, s'.now)
  {
    assert TaskInv(s.tasks[e.i], e.i in s.queue, s.now);
  }

  lemma BodyKeepsTask(s: State, e: Step)
    requires TasksInv(s) && FiredInv(s) && Enabled(s, e) && (e.RunCheck? || e.BodyThrows?)
    ensures var i := Touched(s, e); var s' := Apply(s, e); TaskInv(s'.tasks[i], i in s'.queue, s'.now)
  {
    assert TaskInv(s.tasks[Touched(s, e)], Touched(s, e) in s.queue, s.now);
  }

  lemma UntouchedKeepsTask(s: State, e: Step, i: nat)
    requires TasksInv(s) && Enabled(s, e) && i < |s.tasks| && Touched(s, e) != i
    ensures var s' := Apply(s, e); s'.tasks[i] == s.tasks[i] && TaskInv(s'.tasks[i], i in s'.queue, s'.now)
  {
    assert TaskInv(s.tasks[i], i in s.queue, s.now);
  }

  lemma TouchedKeepsTask(s: State, e: Step)
    requires TasksInv(s) && SleepInv(s) && FiredInv(s) && Enabled(s, e) && 0 <= Touched(s, e) < |s.tasks|
    ensures var i := Touched(s, e); var s' := Apply(s, e);
            i < |s'.tasks| && TaskInv(s'.tasks[i], i in s'.queue, s'.now)
  {
    if e.Decide? {
      DecideKeepsTask(s);
    } else if e.RunCheck? || e.BodyThrows? {
      BodyKeepsTask(s, e);
    } else {
      SubmitterKeepsTask(s, e);
    }
  }

  lemma StepKeepsTasksInv(s: State, e: Step)
    requires TasksInv(s) && SleepInv(s) && FiredInv(s) && Enabled(s, e)
    ensures TasksInv(Apply(s, e))
  {
    var s' := Apply(s, e);
    QueueStaysInRange(s, e);
    forall i: nat | i < |s'.tasks| ensures TaskInv(s'.tasks[i], i in s'.queue, s'.now) {
      if Touched(s, e) == i {
        TouchedKeepsTask(s, e);
      } else {
        UntouchedKeepsTask(s, e, i);
      }
    }
  }

  lemma QueueStaysInRange(s: State, e: Step)
    requires TasksInv(s) && Enabled(s, e)
    ensures forall i <- Apply(s, e).queue :: i < |Apply(s, e).tasks|
    ensures Apply(s, e).now > 0 && |Apply(s, e).tasks| == |s.tasks|
  {}

  lemma DecideKeepsFiredInv(s: State)
    requires FiredInv(s) && SleepInv(s) && TasksInv(s) && Enabled(s, Decide)
    ensures FiredInv(Apply(s, Decide))
  {
    assert TaskInv(s.tasks[s.pc.task], true, s.now);
  }

  lemma RunCheckKeepsFiredInv(s: State)
    requires FiredInv(s) && Enabled(s, RunCheck)
    ensures FiredInv(Apply(s, RunCheck))
  {}

  // The other steps leave what has fired alone, or are not made by the thread.
  lemma OtherStepKeepsFired(s: State, e: Step)
    requires Enabled(s, e) && !e.Decide? && !e.RunCheck?
    ensures var t := Apply(s, e);
            && t.bodies == s.bodies && s.now <= t.now && |t.tasks| == |s.tasks|
            && (t.pc.Fired? ==> t.pc == s.pc)
            && (forall i :: 0 <= i < |s.tasks| ==>
                  && t.tasks[i].runs == s.tasks[i].runs && t.tasks[i].fires == s.tasks[i].fires
                  && (s.tasks[i].requestCancel ==> t.tasks[i].requestCancel))
  {}

  lemma StepKeepsFiredInv(s: State, e: Step)
    requires FiredInv(s) && SleepInv(s) && TasksInv(s) && Enabled(s, e)
    ensures FiredInv(Apply(s, e))
  {
    if e.Decide? {
      DecideKeepsFiredInv(s);
    } else if e.RunCheck? {
      RunCheckKeepsFiredInv(s);
    } else {
      OtherStepKeepsFired(s, e);
    }
  }

  // Deadlines of queued tasks only move when the timer thread decides.
  lemma MinimumStays(s: State, e: Step, i: nat)
    requires TasksInv(s) && Enabled(s, e) && !e.Decide? && !e.Push? && !e.Clear? && IsMin(s, i)
    ensures var s' := Apply(s, e); IsMin(s', i) && s'.tasks[i].deadline == s.tasks[i].deadline
  {
    var s' := Apply(s, e);
    forall j | j in s.queue && j < |s.tasks| ensures s'.tasks[j].deadline == s.tasks[j].deadline {
      assert TaskInv(s.tasks[j], true, s.now);
    }
  }

  predicate OthersStep(e: Step) {
    e.Tick? || e.Compute? || e.CheckSubmit? || e.StoreDeadline? || e.CancelTask? || e.RequestStop?
  }

  lemma OthersKeepSleepInv(s: State, e: Step)
    requires SleepInv(s) && TasksInv(s) && Enabled(s, e) && OthersStep(e)
    ensures SleepInv(Apply(s, e))
  {
    forall i: nat | IsMin(s, i)
      ensures IsMin(Apply(s, e), i) && Apply(s, e).tasks[i].deadline == s.tasks[i].deadline
    {
      MinimumStays(s, e, i);
    }
  }

  // The thread's own way into its waits.
  lemma ThreadKeepsSleepInv(s: State, e: Step)
    requires SleepInv(s) && TasksInv(s) && Enabled(s, e) && (e.ReadMin? || e.Decide? || e.ArmTimeout?)
    ensures SleepInv(Apply(s, e))
  {
    if e.ArmTimeout? {
      MinimumStays(s, e, s.pc.next);
    } else if e.ReadMin? {
      MinimumStays(s, e, e.i);
    } else {
      assert IsMin(s, s.pc.task);
    }
  }

  lemma OtherStepKeepsSleepInv(s: State, e: Step)
    requires SleepInv(s) && TasksInv(s) && Enabled(s, e)
    requires !OthersStep(e) && !e.ReadMin? && !e.Decide? && !e.ArmTimeout?
    ensures SleepInv(Apply(s, e))
  {}

  lemma StepKeepsSleepInv(s: State, e: Step)
    requires SleepInv(s) && TasksInv(s) && Enabled(s, e)
    ensures SleepInv(Apply(s, e))
  {
    if OthersStep(e) {
      OthersKeepSleepInv(s, e);
    } else if e.ReadMin? || e.Decide? || e.ArmTimeout? {
      ThreadKeepsSleepInv(s, e);
    } else {
      OtherStepKeepsSleepInv(s, e);
    }
  }

  lemma StepKeepsInv(s: State, e: Step)
    requires Inv(s) && Enabled(s, e)
    ensures Inv(Apply(s, e))
  {
    StepKeepsTasksInv(s, e);
    StepKeepsFiredInv(s, e);
    StepKeepsSleepInv(s, e);
    StepKeepsStopInv(s, e);
  }
}
