/**
 A task with a result: include/FutureTask.h on top of src/TaskBase.cpp.

 DoRun takes the result lock, notifies if no result is there yet, and keeps the lock while the
 user's Call computes; GetResult waits on the same lock's condition. The notification therefore
 precedes the result, and waiters that a cancelled Call has woken must go back to sleep.
 */
module FutureTaskProtocol {
  import opened Wrappers
  import TaskLifecycle

  // Where one caller of Run is. Calling holds the result lock; Completed and Thrown have
  // released it and have still to write FINISHED and CANCELLED.
  datatype FutureRunner =
    | Idle | AtCheck | AtStart | Turned | AtLock | Calling | Completed | Thrown | Lost

  // Where one caller of GetResult or TryGetResult is.
  datatype Waiter<T> = NotWaiting | Waiting | Sleeping | Got(value: T) | NotReady

  datatype FutureState<T> = FutureState(
    state: TaskLifecycle.TaskState,
    requestCancel: bool,
    result: T,
    isReturned: bool,
    lock: Option<nat>,
    runners: seq<FutureRunner>,
    waiters: seq<Waiter<T>>,
    produced: seq<T>)

  datatype FutureStep<T> =
    | CallRun(r: nat)
    | Check(r: nat)
    | WriteRunning(r: nat)
    | EnterDoRun(r: nat)
    | CallReturns(r: nat, v: T)
    | CallCancelled(r: nat)
    | CallEscapes(r: nat)
    | WriteFinished(r: nat)
    | WriteCancelled(r: nat)
    | RequestCancel
    | CallGet(w: nat)
    | TestReturned(w: nat)
    | TryGet(w: nat)
    | Spurious(w: nat)

  function Initial<T>(runners: nat, waiters: nat, junk: T): FutureState<T> {
    FutureState(
      TaskLifecycle.Init, false, junk, false, None, seq(runners, _ => Idle), seq(waiters, _ => NotWaiting), [])
  }

  predicate Is<T>(s: FutureState<T>, r: nat, pc: FutureRunner) {
    r < |s.runners| && s.runners[r] == pc
  }

  predicate Enabled<T>(s: FutureState<T>, e: FutureStep<T>) {
    match e
    case CallRun(r) => Is(s, r, Idle)
    case Check(r) => Is(s, r, AtCheck)
    case WriteRunning(r) => Is(s, r, AtStart)
    case EnterDoRun(r) => Is(s, r, AtLock) && s.lock == None
    case CallReturns(r, _) => Is(s, r, Calling)
    case CallCancelled(r) => Is(s, r, Calling) && s.requestCancel
    case CallEscapes(r) => Is(s, r, Calling)
    case WriteFinished(r) => Is(s, r, Completed)
    case WriteCancelled(r) => Is(s, r, Turned) || Is(s, r, Thrown)
    case RequestCancel => true
    case CallGet(w) => w < |s.waiters| && !s.waiters[w].Waiting? && !s.waiters[w].Sleeping?
    case TestReturned(w) => w < |s.waiters| && s.waiters[w].Waiting? && s.lock == None
    case TryGet(w) => w < |s.waiters| && !s.waiters[w].Waiting? && !s.waiters[w].Sleeping? && s.lock == None
    case Spurious(w) => w < |s.waiters| && s.waiters[w].Sleeping?
  }

  function WakeWaiters<T>(ws: seq<Waiter<T>>): seq<Waiter<T>> {
    seq(|ws|, i requires 0 <= i < |ws| => if ws[i].Sleeping? then Waiting else ws[i])
  }

  function To<T>(s: FutureState<T>, r: nat, pc: FutureRunner): FutureState<T>
    requires r < |s.runners|
  {
    s.(runners := s.runners[r := pc])
  }

  function Apply<T>(s: FutureState<T>, e: FutureStep<T>): FutureState<T>
    requires Enabled(s, e)
  {
    match e
    case CallRun(r) => To(s, r, AtCheck)
    case Check(r) => To(s, r, if s.requestCancel then Turned else AtStart)
    case WriteRunning(r) => To(s.(state := TaskLifecycle.Running), r, AtLock)
    case EnterDoRun(r) =>
      To(s.(lock := Some(r), waiters := if s.isReturned then s.waiters else WakeWaiters(s.waiters)), r, Calling)
    case CallReturns(r, v) =>
      To(s.(result := v, isReturned := true, lock := None, produced := s.produced + [v]), r, Completed)
    case CallCancelled(r) => To(s.(lock := None), r, Thrown)
    case CallEscapes(r) => To(s.(lock := None), r, Lost)
    case WriteFinished(r) => To(s.(state := TaskLifecycle.Finished), r, Idle)
    case WriteCancelled(r) => To(s.(state := TaskLifecycle.Cancelled), r, Idle)
    case RequestCancel => s.(requestCancel := true)
    case CallGet(w) => s.(waiters := s.waiters[w := Waiting])
    case TestReturned(w) => s.(waiters := s.waiters[w := if s.isReturned then Got(s.result) else Sleeping])
    case TryGet(w) => s.(waiters := s.waiters[w := if s.isReturned then Got(s.result) else NotReady])
    case Spurious(w) => s.(waiters := s.waiters[w := Waiting])
  }

  ghost predicate Path<T>(s: FutureState<T>, es: seq<FutureStep<T>>, t: FutureState<T>)
    decreases es
  {
    if es == [] then s == t else Enabled(s, es[0]) && Path(Apply(s, es[0]), es[1..], t)
  }

  // Whoever is inside Call holds the lock, and whoever is past Call has published.
  ghost predicate RunnersInv<T>(s: FutureState<T>) {
    && (s.lock.Some? ==> s.lock.value < |s.runners|)
    && forall r :: 0 <= r < |s.runners| ==>
         && (s.runners[r] == Calling <==> s.lock == Some(r))
         && (s.runners[r] == Completed ==> s.isReturned)
         && (s.runners[r] == Turned || s.runners[r] == Thrown ==> s.requestCancel)
  }

  ghost predicate ResultInv<T>(s: FutureState<T>) {
    && (s.isReturned <==> s.produced != [])
    && (s.isReturned ==> s.result == s.produced[|s.produced| - 1])
    && (s.state == TaskLifecycle.Finished ==> s.isReturned)
    && (s.state == TaskLifecycle.Cancelled ==> s.requestCancel)
  }

  ghost predicate WaiterOk<T>(s: FutureState<T>, x: Waiter<T>) {
    && (x.Sleeping? ==> !s.isReturned && s.lock == None)
    && (x.Got? ==> x.value in s.produced)
  }

  ghost predicate Inv<T>(s: FutureState<T>) {
    RunnersInv(s) && ResultInv(s) && forall w :: 0 <= w < |s.waiters| ==> WaiterOk(s, s.waiters[w])
  }

  // Steps of a runner outside Call.
  predicate IsRunStep<T>(e: FutureStep<T>) {
    e.CallRun? || e.Check? || e.WriteRunning? || e.WriteFinished? || e.WriteCancelled?
  }

  predicate EndsCall<T>(e: FutureStep<T>) {
    e.CallReturns? || e.CallCancelled? || e.CallEscapes?
  }

  lemma RunStepKeepsInv<T>(s: FutureState<T>, e: FutureStep<T>)
    requires Inv(s) && Enabled(s, e) && IsRunStep(e)
    ensures Inv(Apply(s, e)) && s.produced == Apply(s, e).produced
  {
    var t := Apply(s, e);
    assert t.waiters == s.waiters && t.isReturned == s.isReturned && t.lock == s.lock;
    forall w | 0 <= w < |t.waiters| ensures WaiterOk(t, t.waiters[w]) {
      assert WaiterOk(s, s.waiters[w]);
    }
  }

  lemma EnterKeepsInv<T>(s: FutureState<T>, r: nat)
    requires Inv(s) && Enabled(s, EnterDoRun(r))
    ensures Inv(Apply(s, EnterDoRun(r))) && s.produced == Apply(s, EnterDoRun(r)).produced
  {
    var t := Apply(s, EnterDoRun(r));
    forall w | 0 <= w < |t.waiters| ensures WaiterOk(t, t.waiters[w]) {
      assert WaiterOk(s, s.waiters[w]);
    }
  }

  // Nobody is asleep when Call ends, because somebody holds the lock.
  lemma EndOfCallKeepsInv<T>(s: FutureState<T>, e: FutureStep<T>)
    requires Inv(s) && Enabled(s, e) && EndsCall(e)
    ensures Inv(Apply(s, e)) && s.produced <= Apply(s, e).produced
  {
    var t := Apply(s, e);
    forall w | 0 <= w < |t.waiters| ensures WaiterOk(t, t.waiters[w]) {
      assert WaiterOk(s, s.waiters[w]);
    }
  }

  lemma WaiterStepKeepsInv<T>(s: FutureState<T>, e: FutureStep<T>)
    requires Inv(s) && Enabled(s, e) && (e.CallGet? || e.TestReturned? || e.TryGet? || e.Spurious?)
    ensures Inv(Apply(s, e)) && s.produced == Apply(s, e).produced
  {
    var t := Apply(s, e);
    assert t == s.(waiters := s.waiters[e.w := t.waiters[e.w]]);
    assert WaiterOk(t, t.waiters[e.w]);
    forall w | 0 <= w < |t.waiters| ensures WaiterOk(t, t.waiters[w]) {
      assert WaiterOk(s, s.waiters[w]);
    }
  }

  lemma StepKeepsInv<T>(s: FutureState<T>, e: FutureStep<T>)
    requires Inv(s) && Enabled(s, e)
    ensures Inv(Apply(s, e)) && s.produced <= Apply(s, e).produced
  {
    if IsRunStep(e) {
      RunStepKeepsInv(s, e);
    } else if EndsCall(e) {
      EndOfCallKeepsInv(s, e);
    } else if e.EnterDoRun? {
      EnterKeepsInv(s, e.r);
    } else if e.RequestCancel? {
      assert forall x :: WaiterOk(s, x) ==> WaiterOk(Apply(s, e), x);
    } else {
      WaiterStepKeepsInv(s, e);
    }
  }

  lemma {:induction false} PathKeepsInv<T>(s: FutureState<T>, es: seq<FutureStep<T>>, t: FutureState<T>)
    requires Inv(s) && Path(s, es, t)
    ensures Inv(t) && s.produced <= t.produced
    ensures |t.runners| == |s.runners| && |t.waiters| == |s.waiters|
    decreases es
  {
    if es != [] {
      StepKeepsInv(s, es[0]);
      PathKeepsInv(Apply(s, es[0]), es[1..], t);
    }
  }

  /** The result is published with completion: a reader that finds the state FINISHED can no
      longer get ResultNotReadyException, in that state or any later one, and what it gets is
      what the latest completed Call returned. */
  lemma FinishedMeansReady<T>(
      n: nat, m: nat, junk: T, es: seq<FutureStep<T>>, s: FutureState<T>,
      later: seq<FutureStep<T>>, t: FutureState<T>, w: nat)
    requires Path(Initial(n, m, junk), es, s) && s.state == TaskLifecycle.Finished
    requires Path(s, later, t) && Enabled(t, TryGet(w))
    ensures t.produced != [] && Apply(t, TryGet(w)).waiters[w] == Got(t.produced[|t.produced| - 1])
  {
    PathKeepsInv(Initial(n, m, junk), es, s);
    PathKeepsInv(s, later, t);
  }

  /** Every value a waiter holds was returned by some completed Call. */
  lemma ResultsAreProduced<T>(
      n: nat, m: nat, junk: T, es: seq<FutureStep<T>>, t: FutureState<T>, w: nat)
    requires Path(Initial(n, m, junk), es, t) && w < |t.waiters| && t.waiters[w].Got?
    ensures exists r :: CallReturns(r, t.waiters[w].value) in es
  {
    PathKeepsInv(Initial(n, m, junk), es, t);
    ProducedByCalls(Initial(n, m, junk), es, t, t.waiters[w].value);
  }

  lemma {:induction false} ProducedByCalls<T>(
      s: FutureState<T>, es: seq<FutureStep<T>>, t: FutureState<T>, v: T)
    requires Path(s, es, t) && v in t.produced && v !in s.produced
    ensures exists r :: CallReturns(r, v) in es
    decreases es
  {
    var s' := Apply(s, es[0]);
    if v in s'.produced {
      assert es[0] == CallReturns(es[0].r, v);
    } else {
      ProducedByCalls(s', es[1..], t, v);
      var r :| CallReturns(r, v) in es[1..];
      assert CallReturns(r, v) in es;
    }
  }

  /** No lost wakeup: an unsignalled waiter means that the result flag is unset and that nobody
      is inside Call. In particular everyone is awake when Call returns; and after a cancelled
      or escaped Call a waiter that tests goes back to sleep. */
  lemma SleeperHasNoResult<T>(
      n: nat, m: nat, junk: T, es: seq<FutureStep<T>>, t: FutureState<T>, w: nat)
    requires Path(Initial(n, m, junk), es, t) && w < |t.waiters|
    ensures t.waiters[w].Sleeping? ==> !t.isReturned && forall r :: !Is(t, r, Calling)
    ensures t.waiters[w].Waiting? && t.lock == None ==>
              Apply(t, TestReturned(w)).waiters[w].Sleeping? == (t.produced == [])
  {
    PathKeepsInv(Initial(n, m, junk), es, t);
  }

  // Nobody is inside Run.
  predicate NobodyRuns<T>(s: FutureState<T>) {
    forall r :: 0 <= r < |s.runners| ==> s.runners[r] == Idle || s.runners[r] == Lost
  }

  function WriterBy<T>(e: FutureStep<T>, before: Option<nat>): Option<nat> {
    if e.WriteRunning? || e.WriteFinished? || e.WriteCancelled? then Some(e.r) else before
  }

  // The runner whose write of the state is the last one among the steps.
  function LastWriter<T>(es: seq<FutureStep<T>>, before: Option<nat>): Option<nat> {
    if es == [] then before else LastWriter(es[1..], WriterBy(es[0], before))
  }

  function BackBy<T>(e: FutureStep<T>, before: set<nat>): set<nat> {
    if e.CallRun? then before - {e.r} else if e.CallReturns? then before + {e.r} else before
  }

  // The runners in whose latest run Call has returned.
  function CameBack<T>(es: seq<FutureStep<T>>, before: set<nat>): set<nat> {
    if es == [] then before else CameBack(es[1..], BackBy(es[0], before))
  }

  // Between the write of RUNNING and the write that follows DoRun, or lost there.
  predicate PastStart(pc: FutureRunner) {
    pc == AtLock || pc == Calling || pc == Completed || pc == Thrown || pc == Lost
  }

  ghost predicate BackInv<T>(s: FutureState<T>, back: set<nat>) {
    forall r :: 0 <= r < |s.runners| && s.runners[r] != Idle ==> (r in back <==> s.runners[r] == Completed)
  }

  ghost predicate WriterInv<T>(s: FutureState<T>, writer: Option<nat>, back: set<nat>) {
    match writer
    case None => s.state == TaskLifecycle.Init && forall r :: 0 <= r < |s.runners| ==> !PastStart(s.runners[r])
    case Some(w) =>
      && s.state != TaskLifecycle.Init && w < |s.runners|
      && (s.state == TaskLifecycle.Running <==> PastStart(s.runners[w]))
      && (s.runners[w] == Idle ==> (s.state == TaskLifecycle.Finished <==> w in back))
  }

  lemma {:induction false} PathKeepsWriter<T>(
      s: FutureState<T>, writer: Option<nat>, back: set<nat>, es: seq<FutureStep<T>>, t: FutureState<T>)
    requires BackInv(s, back) && WriterInv(s, writer, back) && Path(s, es, t)
    ensures BackInv(t, CameBack(es, back)) && WriterInv(t, LastWriter(es, writer), CameBack(es, back))
    decreases es
  {
    if es != [] {
      StepKeepsWriter(s, writer, back, es[0]);
      PathKeepsWriter(Apply(s, es[0]), WriterBy(es[0], writer), BackBy(es[0], back), es[1..], t);
    }
  }

  lemma StepKeepsBack<T>(s: FutureState<T>, back: set<nat>, e: FutureStep<T>)
    requires BackInv(s, back) && Enabled(s, e)
    ensures BackInv(Apply(s, e), BackBy(e, back))
  {
    var t := Apply(s, e);
    if Actor(e) >= 0 {
      assert t.runners == s.runners[e.r := t.runners[e.r]];
    } else {
      assert t.runners == s.runners;
    }
  }

  // Only a write changes the state, and only its runner's place.
  lemma RunnersStep<T>(s: FutureState<T>, e: FutureStep<T>)
    requires Enabled(s, e)
    ensures var t := Apply(s, e);
            && |t.runners| == |s.runners|
            && (forall r :: 0 <= r < |s.runners| && r != Actor(e) ==> t.runners[r] == s.runners[r])
            && (t.state == s.state || WriterBy(e, None) == Some(Actor(e)))
  {}

  lemma WriteKeepsWriter<T>(s: FutureState<T>, writer: Option<nat>, back: set<nat>, e: FutureStep<T>)
    requires BackInv(s, back) && WriterInv(s, writer, back) && Enabled(s, e) && WriterBy(e, None).Some?
    ensures WriterInv(Apply(s, e), Some(e.r), BackBy(e, back))
  {}

  lemma MoveKeepsWriter<T>(s: FutureState<T>, writer: Option<nat>, back: set<nat>, e: FutureStep<T>)
    requires BackInv(s, back) && WriterInv(s, writer, back) && Enabled(s, e) && WriterBy(e, None).None?
    ensures WriterInv(Apply(s, e), writer, BackBy(e, back))
  {
    var t := Apply(s, e);
    RunnersStep(s, e);
    if Actor(e) >= 0 {
      assert PastStart(t.runners[e.r]) <==> PastStart(s.runners[e.r]);
      assert t.runners[e.r] != Idle;
    }
  }

  lemma StepKeepsWriter<T>(s: FutureState<T>, writer: Option<nat>, back: set<nat>, e: FutureStep<T>)
    requires BackInv(s, back) && WriterInv(s, writer, back) && Enabled(s, e)
    ensures BackInv(Apply(s, e), BackBy(e, back))
    ensures WriterInv(Apply(s, e), WriterBy(e, writer), BackBy(e, back))
  {
    StepKeepsBack(s, back, e);
    if WriterBy(e, None).Some? {
      WriteKeepsWriter(s, writer, back, e);
    } else {
      MoveKeepsWriter(s, writer, back, e);
    }
  }

  /** What decides the state in the end, for any number of overlapping runs. Once nobody is inside
      Run, the task is FINISHED if and only if the runner that wrote the state last is one whose Call
      returned, and RUNNING if and only if it is one that an exception took out of Call. */
  lemma FinishedIffLastCallReturned<T>(n: nat, m: nat, junk: T, es: seq<FutureStep<T>>, t: FutureState<T>)
    requires Path(Initial(n, m, junk), es, t) && NobodyRuns(t)
    ensures t.state == TaskLifecycle.Finished
       <==> LastWriter(es, None).Some? && LastWriter(es, None).value in CameBack(es, {})
    ensures t.state == TaskLifecycle.Running
       <==> LastWriter(es, None).Some? && Is(t, LastWriter(es, None).value, Lost)
    ensures t.state == TaskLifecycle.Init <==> LastWriter(es, None).None?
    ensures t.state == TaskLifecycle.Cancelled ==> t.requestCancel
  {
    PathKeepsWriter(Initial(n, m, junk), None, {}, es, t);
    PathKeepsInv(Initial(n, m, junk), es, t);
  }

  // Calls of Run among the steps.
  function Runs<T>(es: seq<FutureStep<T>>): nat {
    if es == [] then 0 else (if es[0].CallRun? then 1 else 0) + Runs(es[1..])
  }

  // What holds when Run has been called at most once; `unused` says it has not been called yet.
  ghost predicate SingleInv<T>(s: FutureState<T>, unused: bool) {
    && (unused ==> s.state == TaskLifecycle.Init && s.produced == [])
    && (unused ==> forall r :: 0 <= r < |s.runners| ==> s.runners[r] == Idle)
    && (unused || s.state != TaskLifecycle.Init || exists r :: 0 <= r < |s.runners| && s.runners[r] != Idle)
    && (forall r, q :: 0 <= r < q < |s.runners| ==> s.runners[r] == Idle || s.runners[q] == Idle)
    && (forall r :: 0 <= r < |s.runners| && s.runners[r] != Idle ==>
          (s.runners[r] == Completed <==> s.produced != []) && s.state != TaskLifecycle.Finished)
    && (s.produced != [] ==> s.state == TaskLifecycle.Finished || exists r :: Is(s, r, Completed))
  }

  lemma {:induction false} SingleRun<T>(
      s: FutureState<T>, unused: bool, es: seq<FutureStep<T>>, t: FutureState<T>)
    requires Inv(s) && SingleInv(s, unused) && Path(s, es, t) && Runs(es) <= (if unused then 1 else 0)
    ensures SingleInv(t, unused && Runs(es) == 0)
    decreases es
  {
    if es != [] {
      StepKeepsInv(s, es[0]);
      SingleStep(s, unused, es[0]);
      SingleRun(Apply(s, es[0]), unused && !es[0].CallRun?, es[1..], t);
    }
  }

  lemma SingleStep<T>(s: FutureState<T>, unused: bool, e: FutureStep<T>)
    requires Inv(s) && SingleInv(s, unused) && Enabled(s, e) && (e.CallRun? ==> unused)
    ensures SingleInv(Apply(s, e), unused && !e.CallRun?)
  {
    var t := Apply(s, e);
    if Actor(e) >= 0 {
      var r: nat := e.r;
      assert t.runners == s.runners[r := t.runners[r]];
      forall q | 0 <= q < |s.runners| && q != r ensures t.runners[q] == Idle {
        assert e.CallRun? || s.runners[r] != Idle;
      }
      if e.CallReturns? {
        assert Is(t, r, Completed);
      }
    } else {
      assert t.runners == s.runners && t.produced == s.produced && t.state == s.state;
      if r :| Is(s, r, Completed) {
        assert Is(t, r, Completed);
      }
    }
  }

  lemma {:induction false} CallsProduce<T>(s: FutureState<T>, es: seq<FutureStep<T>>, t: FutureState<T>, r: nat, v: T)
    requires Path(s, es, t) && CallReturns(r, v) in es
    ensures v in t.produced
    decreases es
  {
    if es[0] == CallReturns(r, v) {
      ProducedStays(Apply(s, es[0]), es[1..], t, v);
    } else {
      CallsProduce(Apply(s, es[0]), es[1..], t, r, v);
    }
  }

  lemma {:induction false} ProducedStays<T>(s: FutureState<T>, es: seq<FutureStep<T>>, t: FutureState<T>, v: T)
    requires Path(s, es, t) && v in s.produced
    ensures v in t.produced
    decreases es
  {
    if es != [] {
      ProducedStays(Apply(s, es[0]), es[1..], t, v);
    }
  }

  lemma {:induction false} PathRequests<T>(s: FutureState<T>, es: seq<FutureStep<T>>, t: FutureState<T>)
    requires Path(s, es, t)
    ensures t.requestCancel <==> s.requestCancel || RequestCancel in es
    decreases es
  {
    if es != [] {
      PathRequests(Apply(s, es[0]), es[1..], t);
    }
  }

  /** When Run is called once and is over, the task is FINISHED if and only if Call returned. And
      without a cancellation or an escape Call did return, so the result is there. */
  lemma FinishedIffCallReturned<T>(n: nat, m: nat, junk: T, es: seq<FutureStep<T>>, t: FutureState<T>)
    requires Path(Initial(n, m, junk), es, t) && Runs(es) <= 1 && NobodyRuns(t)
    ensures t.state == TaskLifecycle.Finished <==> exists r, v :: CallReturns(r, v) in es
    ensures t.state == TaskLifecycle.Finished ==> t.isReturned
    ensures t.requestCancel <==> RequestCancel in es
    ensures Runs(es) == 1 && !t.requestCancel && (forall r :: !Is(t, r, Lost)) ==> t.state == TaskLifecycle.Finished
  {
    var s := Initial(n, m, junk);
    PathRequests(s, es, t);
    PathKeepsInv(s, es, t);
    SingleRun(s, true, es, t);
    FinishedIffLastCallReturned(n, m, junk, es, t);
    if r, v :| CallReturns(r, v) in es {
      CallsProduce(s, es, t, r, v);
    }
    if t.produced != [] {
      ProducedByCalls(s, es, t, t.produced[0]);
    }
    if Runs(es) == 1 && (forall r :: !Is(t, r, Lost)) {
      forall r | 0 <= r < |t.runners| ensures t.runners[r] == Idle {
        assert !Is(t, r, Lost);
      }
    }
  }

  /** Cancelling works: once a request is on record, a runner that has not passed its check yet never
      enters DoRun. */
  lemma {:induction false} NoCallAfterCancel<T>(
      s: FutureState<T>, es: seq<FutureStep<T>>, t: FutureState<T>, r: nat)
    requires Enabled(s, RequestCancel) && Path(Apply(s, RequestCancel), es, t)
    requires Is(s, r, Idle) || Is(s, r, AtCheck) || Is(s, r, Turned)
    ensures EnterDoRun(r) !in es && (Is(t, r, Idle) || Is(t, r, AtCheck) || Is(t, r, Turned))
    decreases es
  {
    var s' := Apply(s, RequestCancel);
    if es != [] {
      var s'' := Apply(s', es[0]);
      assert Apply(s'', RequestCancel) == s'';
      NoCallAfterCancel(s'', es[1..], t, r);
    }
  }

  // Inside GetResult, or back from it with a value.
  predicate GetsResult<T>(x: Waiter<T>) {
    x.Waiting? || x.Sleeping? || x.Got?
  }

  lemma {:induction false} GetterStays<T>(
      s: FutureState<T>, es: seq<FutureStep<T>>, t: FutureState<T>, w: nat)
    requires w < |s.waiters| && GetsResult(s.waiters[w]) && Path(s, es, t) && TryGet(w) !in es
    ensures w < |t.waiters| && GetsResult(t.waiters[w])
    decreases es
  {
    if es != [] {
      assert es[0] != TryGet(w) && forall e <- es[1..] :: e in es;
      GetterStays(Apply(s, es[0]), es[1..], t, w);
    }
  }

  /** GetResult returns nothing but a result: its caller stays in it, through any number of wakeups,
      spurious ones included, until it has a value. */
  lemma GetReturnsOnlyResults<T>(s: FutureState<T>, es: seq<FutureStep<T>>, t: FutureState<T>, w: nat)
    requires Enabled(s, CallGet(w)) && Path(Apply(s, CallGet(w)), es, t) && TryGet(w) !in es
    ensures w < |t.waiters| && GetsResult(t.waiters[w])
  {
    GetterStays(Apply(s, CallGet(w)), es, t, w);
  }

  function Actor<T>(e: FutureStep<T>): int {
    match e
    case CallRun(r) => r
    case Check(r) => r
    case WriteRunning(r) => r
    case EnterDoRun(r) => r
    case CallReturns(r, _) => r
    case CallCancelled(r) => r
    case CallEscapes(r) => r
    case WriteFinished(r) => r
    case WriteCancelled(r) => r
    case _ => -1
  }

  // A run in which runner r does not move.
  ghost predicate Interference<T(!new)>(s: FutureState<T>, r: nat, t: FutureState<T>) {
    exists es :: Path(s, es, t) && forall e <- es :: Actor(e) != r
  }

  lemma {:induction false} InterferenceKeepsRunner<T>(
      s: FutureState<T>, r: nat, es: seq<FutureStep<T>>, t: FutureState<T>)
    requires Inv(s) && Path(s, es, t) && (forall e <- es :: Actor(e) != r) && r < |s.runners|
    ensures Inv(t) && |t.runners| == |s.runners| && t.runners[r] == s.runners[r]
    ensures s.runners[r] == Calling ==> t.result == s.result && t.isReturned == s.isReturned && t.produced == s.produced
    decreases es
  {
    if es != [] {
      assert Actor(es[0]) != r && forall e <- es[1..] :: e in es;
      StepKeepsInv(s, es[0]);
      InterferenceKeepsRunner(Apply(s, es[0]), r, es[1..], t);
    }
  }

  // When runner q enters DoRun, the sleeping waiter w wakes.
  predicate Wakes<T>(s: FutureState<T>, q: nat, w: nat)
    requires Enabled(s, EnterDoRun(q))
  {
    w < |s.waiters| && s.waiters[w].Sleeping? && Apply(s, EnterDoRun(q)).waiters[w].Waiting?
  }

  class FutureTask<T(!new)> {
    var state: TaskLifecycle.TaskState
    var isRequestCancel: bool
    var result: T
    var isResultReturned: bool
    ghost var lock: Option<nat>
    ghost var runners: seq<FutureRunner>
    ghost var waiters: seq<Waiter<T>>
    ghost var produced: seq<T>

    ghost function View(): FutureState<T>
      reads this
    {
      FutureState(state, isRequestCancel, result, isResultReturned, lock, runners, waiters, produced)
    }

    constructor (ghost n: nat, ghost m: nat, junk: T)
      ensures View() == Initial(n, m, junk)
    {
      state, isRequestCancel, result, isResultReturned := TaskLifecycle.Init, false, junk, false;
      lock, runners, waiters, produced := None, seq(n, _ => Idle), seq(m, _ => NotWaiting), [];
    }

    // Everything the other runners, the waiters and the cancellers may do meanwhile; callers
    // know only this contract.
    method Preempt(ghost me: nat)
      modifies this
      ensures Interference(old(View()), me, View())
    {
      assert Path(View(), [], View());
    }

    // What a runner may rely on across such an interruption.
    method Yield(ghost me: nat)
      requires Inv(View()) && me < |runners|
      modifies this
      ensures Inv(View()) && me < |runners| && runners[me] == old(runners[me])
      ensures runners[me] == Calling ==>
                result == old(result) && isResultReturned == old(isResultReturned) && produced == old(produced)
    {
      ghost var s := View();
      Preempt(me);
      ghost var es :| Path(s, es, View()) && forall e <- es :: Actor(e) != me;
      InterferenceKeepsRunner(s, me, es, View());
    }

    method LockAndNotify(ghost me: nat)
      requires Inv(View()) && Enabled(View(), EnterDoRun(me))
      modifies this
      ensures View() == Apply(old(View()), EnterDoRun(me)) && Inv(View())
    {
      StepKeepsInv(View(), EnterDoRun(me));
      lock := Some(me);
      if !isResultReturned {
        waiters := WakeWaiters(waiters);
      }
      runners := runners[me := Calling];
    }

    // The result is stored and the lock released.
    method Publish(ghost me: nat, value: T)
      requires Inv(View()) && Is(View(), me, Calling)
      modifies this
      ensures View() == Apply(old(View()), CallReturns(me, value)) && Inv(View())
      ensures forall w :: 0 <= w < |waiters| ==> !waiters[w].Sleeping?
    {
      StepKeepsInv(View(), CallReturns(me, value));
      forall w | 0 <= w < |waiters| ensures !waiters[w].Sleeping? {
        assert WaiterOk(View(), waiters[w]);
      }
      result := value;
      isResultReturned := true;
      lock, produced := None, produced + [value];
      runners := runners[me := Completed];
    }

    // An exception leaves Call and the lock is released.
    method Unwind(ghost me: nat)
      requires Inv(View()) && Is(View(), me, Calling)
      modifies this
      ensures || (old(isRequestCancel) && View() == Apply(old(View()), CallCancelled(me)))
              || View() == Apply(old(View()), CallEscapes(me))
      ensures Inv(View())
    {
      ghost var cancelled: bool :| cancelled ==> isRequestCancel;
      StepKeepsInv(View(), if cancelled then CallCancelled(me) else CallEscapes(me));
      lock := None;
      runners := runners[me := if cancelled then Thrown else Lost];
    }

    /** DoRun from the moment the lock is available. `value` is what Call returns, None when it
        throws. Either exactly that value is published, with nobody left asleep, or nothing
        has changed. */
    method DoRun(ghost me: nat, value: Option<T>)
      requires Inv(View()) && Enabled(View(), EnterDoRun(me))
      modifies this
      ensures Inv(View()) && lock == None
      ensures value.Some? ==> Is(View(), me, Completed) && isResultReturned && result == value.value
      ensures value.Some? ==> produced == old(produced) + [value.value]
      ensures value.Some? ==> forall w :: 0 <= w < |waiters| ==> !waiters[w].Sleeping?
      ensures value.None? ==> Is(View(), me, Thrown) || Is(View(), me, Lost)
      ensures value.None? ==>
                isResultReturned == old(isResultReturned) && result == old(result) && produced == old(produced)
    {
      LockAndNotify(me);
      Yield(me);
      if value.Some? {
        Publish(me, value.value);
      } else {
        Unwind(me);
      }
    }

    /** One pass of the wait loop of GetResult, from acquiring the lock to releasing it. What it
        returns is what the latest Call produced. If it goes to sleep, nothing was ever produced
        and nobody is inside Call, so that whoever enters DoRun next wakes this caller. */
    method GetPass(w: nat) returns (r: Option<T>)
      requires Inv(View()) && Enabled(View(), TestReturned(w))
      modifies this
      ensures View() == Apply(old(View()), TestReturned(w)) && Inv(View())
      ensures r.Some? ==> produced != [] && r.value == produced[|produced| - 1]
      ensures r.None? ==> produced == [] && forall q :: !Is(View(), q, Calling)
      ensures r.None? ==> forall q :: Enabled(View(), EnterDoRun(q)) ==> Wakes(View(), q, w)
    {
      StepKeepsInv(View(), TestReturned(w));
      r := if isResultReturned then Some(result) else None;
      waiters := waiters[w := if isResultReturned then Got(result) else Sleeping];
    }

    // TryGetResult; None stands for ResultNotReadyException.
    method TryGetResult(w: nat) returns (r: Option<T>)
      requires Inv(View()) && Enabled(View(), TryGet(w))
      modifies this
      ensures View() == Apply(old(View()), TryGet(w))
      ensures r.Some? ==> r.value in produced
      ensures r.None? ==> old(state) != TaskLifecycle.Finished && produced == []
    {
      r := if isResultReturned then Some(result) else None;
      waiters := waiters[w := if isResultReturned then Got(result) else NotReady];
    }
  }
}
