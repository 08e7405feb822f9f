/**
 The life cycle of one task: src/TaskBase.cpp.

 Any number of runners may call Run on the same task, one after another or at the same time,
 and any number of cancellers may call Cancel or CancelAsync. The cancel flag is written
 outside the state guard and never cleared; the state is written under it; the notification
 at the end of Run is conditional on the flag.
 */
module TaskLifecycle {
  import opened Wrappers
  import opened Sums

  datatype TaskState = Init | Running | Finished | Cancelled

  // Where one caller of Run is. Refused: the first check threw. Escaped: DoRun threw anything
  // but the cancel exception, which Run does not catch.
  datatype Runner = Outside | Checking | Refused | Starting | InDoRun | Notifying | Escaped

  // Where one caller of Cancel is.
  datatype Canceller = Away | Testing | Asleep | Returned

  datatype State = State(
    state: TaskState,
    requestCancel: bool,
    runners: seq<Runner>,
    cancellers: seq<Canceller>)

  datatype Step =
    | CallRun(r: nat)
    | CheckCancellation(r: nat)
    | SetRunning(r: nat)
    | DoRunReturns(r: nat)
    | DoRunCancelled(r: nat)
    | DoRunEscapes(r: nat)
    | SetCancelled(r: nat)
    | Notify(r: nat)
    | CancelAsync
    | CallCancel(c: nat)
    | TestStopped(c: nat)
    | Spurious(c: nat)

  function Initial(runners: nat, cancellers: nat): State {
    State(Init, false, seq(runners, _ => Outside), seq(cancellers, _ => Away))
  }

  predicate IsStopState(state: TaskState) {
    state == Finished || state == Cancelled
  }

  predicate RunnerAt(s: State, r: nat, pc: Runner) {
    r < |s.runners| && s.runners[r] == pc
  }

  predicate CancellerAt(s: State, c: nat, pc: Canceller) {
    c < |s.cancellers| && s.cancellers[c] == pc
  }

  predicate Enabled(s: State, e: Step) {
    match e
    case CallRun(r) => RunnerAt(s, r, Outside)
    case CheckCancellation(r) => RunnerAt(s, r, Checking)
    case SetRunning(r) => RunnerAt(s, r, Starting)
    case DoRunReturns(r) => RunnerAt(s, r, InDoRun)
    case DoRunCancelled(r) => RunnerAt(s, r, InDoRun) && s.requestCancel
    case DoRunEscapes(r) => RunnerAt(s, r, InDoRun)
    case SetCancelled(r) => RunnerAt(s, r, Refused)
    case Notify(r) => RunnerAt(s, r, Notifying)
    case CancelAsync => true
    case CallCancel(c) => CancellerAt(s, c, Away) || CancellerAt(s, c, Returned)
    case TestStopped(c) => CancellerAt(s, c, Testing)
    case Spurious(c) => CancellerAt(s, c, Asleep)
  }

  function WakeAll(cs: seq<Canceller>): seq<Canceller> {
    seq(|cs|, i requires 0 <= i < |cs| => if cs[i] == Asleep then Testing else cs[i])
  }

  function Move(s: State, r: nat, pc: Runner): State
    requires r < |s.runners|
  {
    s.(runners := s.runners[r := pc])
  }

  function Apply(s: State, e: Step): State
    requires Enabled(s, e)
  {
    match e
    case CallRun(r) => Move(s, r, Checking)
    case CheckCancellation(r) => Move(s, r, if s.requestCancel then Refused else Starting)
    case SetRunning(r) => Move(s.(state := Running), r, InDoRun)
    case DoRunReturns(r) => Move(s.(state := Finished), r, Notifying)
    case DoRunCancelled(r) => Move(s.(state := Cancelled), r, Notifying)
    case DoRunEscapes(r) => Move(s, r, Escaped)
    case SetCancelled(r) => Move(s.(state := Cancelled), r, Notifying)
    case Notify(r) =>
      Move(s.(cancellers := if s.requestCancel then WakeAll(s.cancellers) else s.cancellers), r, Outside)
    case CancelAsync => s.(requestCancel := true)
    case CallCancel(c) => s.(requestCancel := true, cancellers := s.cancellers[c := Testing])
    case TestStopped(c) =>
      s.(cancellers := s.cancellers[c := if IsStopState(s.state) then Returned else Asleep])
    case Spurious(c) => s.(cancellers := s.cancellers[c := Testing])
  }

  ghost predicate Path(s: State, es: seq<Step>, t: State)
    decreases es
  {
    if es == [] then s == t else Enabled(s, es[0]) && Path(Apply(s, es[0]), es[1..], t)
  }

  ghost predicate Inv(s: State) {
    // A canceller's request stays recorded, and a stop state seen by a sleeper is always
    // about to be notified.
    && (forall c :: 0 <= c < |s.cancellers| && s.cancellers[c] != Away ==> s.requestCancel)
    && (forall c :: 0 <= c < |s.cancellers| && s.cancellers[c] == Asleep && IsStopState(s.state) ==>
          exists r :: RunnerAt(s, r, Notifying))
    // RUNNING has an owner.
    && (s.state == Running ==> exists r :: RunnerAt(s, r, InDoRun) || RunnerAt(s, r, Escaped))
    && (forall r :: 0 <= r < |s.runners| && s.runners[r] == Refused ==> s.requestCancel)
    // The task is cancelled on request only.
    && (s.state == Cancelled ==> s.requestCancel)
  }

  lemma StepKeepsInv(s: State, e: Step)
    requires Inv(s) && Enabled(s, e)
    ensures Inv(Apply(s, e))
  {
    var t := Apply(s, e);
    match e
    case SetRunning(r) => assert RunnerAt(t, r, InDoRun);
    case DoRunReturns(r) => assert RunnerAt(t, r, Notifying);
    case DoRunCancelled(r) => assert RunnerAt(t, r, Notifying);
    case SetCancelled(r) => assert RunnerAt(t, r, Notifying);
    case DoRunEscapes(r) => assert RunnerAt(t, r, Escaped); OthersStay(s, e);
    case _ => OthersStay(s, e);
  }

  lemma OthersStay(s: State, e: Step)
    requires Enabled(s, e)
    ensures forall r, pc :: RunnerAt(s, r, pc) && (Mover(e) != r as int) ==> RunnerAt(Apply(s, e), r, pc)
  {}

  // The runner that a step moves, or -1.
  function Mover(e: Step): int {
    match e
    case CallRun(r) => r
    case CheckCancellation(r) => r
    case SetRunning(r) => r
    case DoRunReturns(r) => r
    case DoRunCancelled(r) => r
    case DoRunEscapes(r) => r
    case SetCancelled(r) => r
    case Notify(r) => r
    case _ => -1
  }

  lemma {:induction false} PathKeepsInv(s: State, es: seq<Step>, t: State)
    requires Inv(s) && Path(s, es, t)
    ensures Inv(t)
    ensures |t.runners| == |s.runners| && |t.cancellers| == |s.cancellers|
    ensures s.requestCancel ==> t.requestCancel
    decreases es
  {
    if es != [] {
      StepKeepsInv(s, es[0]);
      PathKeepsInv(Apply(s, es[0]), es[1..], t);
    }
  }

  /** No lost wakeup, for any number of runners and cancellers, re-runs included: an unsignalled
      sleeper in Cancel implies the request is recorded, and either the task is not stopped or
      a runner that wrote a stop state has still to notify, and that step wakes the sleeper. */
  lemma SleeperIsAwaited(n: nat, m: nat, es: seq<Step>, t: State, c: nat)
    requires Path(Initial(n, m), es, t) && CancellerAt(t, c, Asleep)
    ensures t.requestCancel
    ensures IsStopState(t.state) ==>
              exists r :: Enabled(t, Notify(r)) && CancellerAt(Apply(t, Notify(r)), c, Testing)
  {
    PathKeepsInv(Initial(n, m), es, t);
    if IsStopState(t.state) {
      var r :| RunnerAt(t, r, Notifying);
      assert Enabled(t, Notify(r));
    }
  }

  /** RUNNING always has an owner: a runner inside DoRun, or one that an exception other than
      the cancel exception took out of it. */
  lemma RunningHasOwner(n: nat, m: nat, es: seq<Step>, t: State)
    requires Path(Initial(n, m), es, t) && t.state == Running
    ensures exists r :: RunnerAt(t, r, InDoRun) || RunnerAt(t, r, Escaped)
  {
    PathKeepsInv(Initial(n, m), es, t);
  }

  // Calls of Run among the steps.
  function Calls(es: seq<Step>): nat {
    if es == [] then 0 else (if es[0].CallRun? then 1 else 0) + Calls(es[1..])
  }

  // Nobody is inside Run: each runner is outside, or an exception took it out for good.
  predicate NobodyRuns(s: State) {
    forall r :: 0 <= r < |s.runners| ==> s.runners[r] == Outside || s.runners[r] == Escaped
  }

  predicate Waits(s: State, c: nat) {
    CancellerAt(s, c, Testing) || CancellerAt(s, c, Asleep)
  }

  predicate WritesState(e: Step) {
    e.SetRunning? || e.DoRunReturns? || e.DoRunCancelled? || e.SetCancelled?
  }

  // The runner whose write of the state is the last one among the steps; `before` if there is none.
  function LastWriter(es: seq<Step>, before: Option<nat>): Option<nat> {
    if es == [] then before
    else LastWriter(es[1..], if WritesState(es[0]) then Some(es[0].r) else before)
  }

  // What the last write tells: its runner is inside DoRun, or was taken out of it, if and only if
  // the state is RUNNING.
  ghost predicate WriterInv(s: State, writer: Option<nat>) {
    match writer
    case None =>
      s.state == Init && forall r :: 0 <= r < |s.runners| ==> s.runners[r] != InDoRun && s.runners[r] != Escaped
    case Some(w) =>
      && s.state != Init && w < |s.runners|
      && (s.state == Running <==> s.runners[w] == InDoRun || s.runners[w] == Escaped)
  }

  lemma {:induction false} PathKeepsWriter(s: State, writer: Option<nat>, es: seq<Step>, t: State)
    requires WriterInv(s, writer) && Path(s, es, t)
    ensures WriterInv(t, LastWriter(es, writer))
    decreases es
  {
    if es != [] {
      PathKeepsWriter(Apply(s, es[0]), if WritesState(es[0]) then Some(es[0].r) else writer, es[1..], t);
    }
  }

  // The state after a step, by what the step is for.
  function WrittenBy(e: Step, before: TaskState): TaskState {
    match e
    case SetRunning(_) => Running
    case DoRunReturns(_) => Finished
    case DoRunCancelled(_) => Cancelled
    case SetCancelled(_) => Cancelled
    case _ => before
  }

  // What the last write of the state among the steps writes; `before` if there is none.
  function Written(es: seq<Step>, before: TaskState): TaskState {
    if es == [] then before else Written(es[1..], WrittenBy(es[0], before))
  }

  lemma {:induction false} StateIsWritten(s: State, es: seq<Step>, t: State)
    requires Path(s, es, t)
    ensures t.state == Written(es, s.state)
    decreases es
  {
    if es != [] {
      StateIsWritten(Apply(s, es[0]), es[1..], t);
    }
  }

  /** Who decides what an escaping exception leaves behind, for any number of overlapping runs: once
      nobody is inside Run, the task is RUNNING if and only if the runner that wrote the state last
      is one that an exception took out of DoRun. */
  lemma RunningIffLastWriterEscaped(n: nat, m: nat, es: seq<Step>, t: State)
    requires Path(Initial(n, m), es, t) && NobodyRuns(t)
    ensures t.state == Running
       <==> LastWriter(es, None).Some? && RunnerAt(t, LastWriter(es, None).value, Escaped)
  {
    PathKeepsWriter(Initial(n, m), None, es, t);
  }

  // No run of the others brings caller c of Cancel back, unless somebody calls Run.
  ghost predicate Stranded(s: State, c: nat) {
    forall es, t :: Path(s, es, t) && Calls(es) == 0 ==> !CancellerAt(t, c, Returned)
  }

  lemma {:induction false} UnstoppedStays(s: State, es: seq<Step>, t: State, c: nat)
    requires !IsStopState(s.state) && NobodyRuns(s) && Waits(s, c) && Path(s, es, t) && Calls(es) == 0
    ensures t.state == s.state && Waits(t, c)
    decreases es
  {
    if es != [] {
      UnstoppedStays(Apply(s, es[0]), es[1..], t, c);
    }
  }

  lemma AwakeReturns(s: State, c: nat)
    requires IsStopState(s.state) && CancellerAt(s, c, Testing)
    ensures !Stranded(s, c)
  {
    var t := Apply(s, TestStopped(c));
    assert Path(t, [], t);
    PathPrepend(s, TestStopped(c), [], t);
    var es := [TestStopped(c)] + [];
    assert es[1..] == [];
    assert Calls(es) == 0;
    assert CancellerAt(t, c, Returned);
  }

  /** What the escape costs the cancellers. When nobody is inside Run, a caller of Cancel that has
      not returned never will, short of another call of Run, if and only if no run ever reached a
      write of the state, or the last write is that of a runner that let an exception escape. */
  lemma EscapeStrandsCancellers(n: nat, m: nat, es: seq<Step>, t: State, c: nat)
    requires Path(Initial(n, m), es, t) && NobodyRuns(t) && Waits(t, c)
    ensures Stranded(t, c)
       <==> (LastWriter(es, None).Some? ==> RunnerAt(t, LastWriter(es, None).value, Escaped))
  {
    PathKeepsWriter(Initial(n, m), None, es, t);
    PathKeepsInv(Initial(n, m), es, t);
    if IsStopState(t.state) {
      AwakeReturns(t, c);
    } else {
      forall later, u | Path(t, later, u) && Calls(later) == 0 ensures !CancellerAt(u, c, Returned) {
        UnstoppedStays(t, later, u, c);
      }
    }
  }

  lemma PathPrepend(s: State, e: Step, es: seq<Step>, t: State)
    requires Enabled(s, e) && Path(Apply(s, e), es, t)
    ensures Path(s, [e] + es, t)
  {
    assert ([e] + es)[1..] == es;
  }

  ghost predicate Leads(s: State, t: State) {
    exists es :: Path(s, es, t)
  }

  lemma LeadsBefore(s: State, e: Step, t: State)
    requires Enabled(s, e) && Leads(Apply(s, e), t)
    ensures Leads(s, t)
  {
    var es :| Path(Apply(s, e), es, t);
    PathPrepend(s, e, es, t);
  }

  /** That stranded situation is reachable with one runner and one canceller. */
  lemma EscapeIsReachable(t: State)
    requires t == State(Running, true, [Escaped], [Asleep])
    ensures Leads(Initial(1, 1), t)
  {
    var inside := State(Running, false, [InDoRun], [Away]);
    assert [Testing][0 := Asleep] == [Asleep] && [Away][0 := Testing] == [Testing];
    assert [InDoRun][0 := Escaped] == [Escaped] && [Starting][0 := InDoRun] == [InDoRun];
    assert [Checking][0 := Starting] == [Starting] && [Outside][0 := Checking] == [Checking];
    assert Path(t, [], t);
    LeadsBefore(State(Running, true, [Escaped], [Testing]), TestStopped(0), t);
    LeadsBefore(State(Running, false, [Escaped], [Away]), CallCancel(0), t);
    LeadsBefore(inside, DoRunEscapes(0), t);
    LeadsBefore(State(Init, false, [Starting], [Away]), SetRunning(0), t);
    LeadsBefore(State(Init, false, [Checking], [Away]), CheckCancellation(0), t);
    assert Initial(1, 1) == State(Init, false, [Outside], [Away]);
    LeadsBefore(Initial(1, 1), CallRun(0), t);
  }

  // Where two overlapping runs and one canceller can get, step by step.
  lemma TwoRunsStart(t: State)
    requires Leads(State(Init, false, [Starting, Starting], [Away]), t)
    ensures Leads(Initial(2, 1), t)
  {
    assert [Outside, Outside][0 := Checking] == [Checking, Outside];
    assert [Checking, Outside][1 := Checking] == [Checking, Checking];
    assert [Checking, Checking][0 := Starting] == [Starting, Checking];
    assert [Starting, Checking][1 := Starting] == [Starting, Starting];
    LeadsBefore(State(Init, false, [Starting, Checking], [Away]), CheckCancellation(1), t);
    LeadsBefore(State(Init, false, [Checking, Checking], [Away]), CheckCancellation(0), t);
    LeadsBefore(State(Init, false, [Checking, Outside], [Away]), CallRun(1), t);
    assert Initial(2, 1) == State(Init, false, [Outside, Outside], [Away]);
    LeadsBefore(Initial(2, 1), CallRun(0), t);
  }

  /** An escape need not leave the task RUNNING: when two runs overlap, one can escape after the
      other has written FINISHED. */
  lemma OverlappingEscapeIsHidden(t: State)
    requires t == State(Finished, false, [Escaped, Outside], [Away])
    ensures Leads(Initial(2, 1), t)
  {
    assert [Escaped, Notifying][1 := Outside] == [Escaped, Outside];
    assert [InDoRun, Notifying][0 := Escaped] == [Escaped, Notifying];
    assert [InDoRun, InDoRun][1 := Notifying] == [InDoRun, Notifying];
    assert [InDoRun, Starting][1 := InDoRun] == [InDoRun, InDoRun];
    assert [Starting, Starting][0 := InDoRun] == [InDoRun, Starting];
    assert Path(t, [], t);
    LeadsBefore(State(Finished, false, [Escaped, Notifying], [Away]), Notify(1), t);
    LeadsBefore(State(Finished, false, [InDoRun, Notifying], [Away]), DoRunEscapes(0), t);
    LeadsBefore(State(Running, false, [InDoRun, InDoRun], [Away]), DoRunReturns(1), t);
    LeadsBefore(State(Running, false, [InDoRun, Starting], [Away]), SetRunning(1), t);
    LeadsBefore(State(Init, false, [Starting, Starting], [Away]), SetRunning(0), t);
    TwoRunsStart(t);
  }

  // Steps of a run left before it is over, if nothing escapes.
  function RunnerRank(pc: Runner): int {
    match pc
    case Checking => 4
    case Starting => 3
    case InDoRun => 2
    case Refused => 2
    case Notifying => 1
    case _ => 0
  }

  function Rank(s: State): int {
    Sum(s.runners, RunnerRank)
  }

  predicate IsInside(pc: Runner) {
    pc != Outside && pc != Escaped
  }

  // The step a runner inside Run takes next when DoRun returns.
  function NextOwn(r: nat, pc: Runner): Step
    requires IsInside(pc)
  {
    match pc
    case Checking => CheckCancellation(r)
    case Starting => SetRunning(r)
    case InDoRun => DoRunReturns(r)
    case Refused => SetCancelled(r)
    case Notifying => Notify(r)
  }

  lemma RunnerStepLowersRank(s: State, e: Step)
    requires Enabled(s, e) && Mover(e) >= 0 && !e.CallRun?
    ensures Rank(Apply(s, e)) < Rank(s)
  {
    var t := Apply(s, e);
    assert t.runners == s.runners[e.r := t.runners[e.r]];
    SumUpdate(s.runners, e.r, t.runners[e.r], RunnerRank);
  }

  /** Cancel makes progress while the task is being run. As long as some runner is inside Run it
      has an enabled step, and every step of a run under way lowers a rank of at most four for each
      runner; when all of them are out and the last write is not one of an escaped runner, whoever
      waits in Cancel is awake and returns at its next test. */
  lemma CancelMakesProgress(n: nat, m: nat, es: seq<Step>, t: State, c: nat)
    requires Path(Initial(n, m), es, t) && Waits(t, c)
    ensures CancellerAt(t, c, Testing) ==> Enabled(t, TestStopped(c))
    ensures forall r: nat :: r < |t.runners| && IsInside(t.runners[r]) ==> Enabled(t, NextOwn(r, t.runners[r]))
    ensures forall e :: Enabled(t, e) && Mover(e) >= 0 && !e.CallRun? ==> Rank(Apply(t, e)) < Rank(t)
    ensures 0 <= Rank(t) <= 4 * n
    ensures NobodyRuns(t) && LastWriter(es, None).Some? && !RunnerAt(t, LastWriter(es, None).value, Escaped) ==>
              CancellerAt(t, c, Testing) && CancellerAt(Apply(t, TestStopped(c)), c, Returned)
  {
    PathKeepsInv(Initial(n, m), es, t);
    PathKeepsWriter(Initial(n, m), None, es, t);
    forall e | Enabled(t, e) && Mover(e) >= 0 && !e.CallRun? ensures Rank(Apply(t, e)) < Rank(t) {
      RunnerStepLowersRank(t, e);
    }
    SumBetween(t.runners, RunnerRank, 4);
  }

  // The task is stopped and cancelled, and no runner is past the check but short of RUNNING.
  predicate Settled(s: State) {
    && s.requestCancel && IsStopState(s.state)
    && forall r :: 0 <= r < |s.runners| ==> s.runners[r] != Starting
  }

  lemma {:induction false} SettledStays(s: State, es: seq<Step>, t: State)
    requires Settled(s) && Path(s, es, t)
    ensures Settled(t)
    decreases es
  {
    if es != [] {
      SettledStays(Apply(s, es[0]), es[1..], t);
    }
  }

  ghost predicate AlwaysStopped(s: State) {
    forall es, t :: Path(s, es, t) ==> IsStopState(t.state)
  }

  /** What Cancel promises its caller. Cancel returns in a stopped state with the request
      recorded; from there the task is stopped in every later state, whoever calls Run again,
      if and only if no runner had passed its check and not yet written RUNNING. */
  lemma StoppedForever(s: State)
    requires s.requestCancel && IsStopState(s.state)
    ensures AlwaysStopped(s)
       <==> (forall r :: 0 <= r < |s.runners| ==> s.runners[r] != Starting)
  {
    if Settled(s) {
      forall es, t | Path(s, es, t) ensures IsStopState(t.state) {
        SettledStays(s, es, t);
      }
    } else {
      var r :| 0 <= r < |s.runners| && s.runners[r] == Starting;
      var t := Apply(s, SetRunning(r));
      assert Path(t, [], t);
      PathPrepend(s, SetRunning(r), [], t);
      assert t.state == Running;
    }
  }

  /** The other case occurs: Cancel has returned, the task is FINISHED, and a second runner that
      passed its check long ago is about to write RUNNING. */
  lemma ReturnedCancelCanBeUndone(t: State)
    requires t == State(Finished, true, [Outside, Starting], [Returned])
    ensures Leads(Initial(2, 1), t) && !AlwaysStopped(t)
  {
    assert [Notifying, Starting][0 := Outside] == [Outside, Starting];
    assert [InDoRun, Starting][0 := Notifying] == [Notifying, Starting];
    assert [Starting, Starting][0 := InDoRun] == [InDoRun, Starting];
    assert [Testing][0 := Returned] == [Returned] && [Away][0 := Testing] == [Testing];
    assert WakeAll([Returned]) == [Returned];
    assert Path(t, [], t);
    LeadsBefore(State(Finished, true, [Notifying, Starting], [Returned]), Notify(0), t);
    LeadsBefore(State(Finished, true, [Notifying, Starting], [Testing]), TestStopped(0), t);
    LeadsBefore(State(Finished, false, [Notifying, Starting], [Away]), CallCancel(0), t);
    LeadsBefore(State(Running, false, [InDoRun, Starting], [Away]), DoRunReturns(0), t);
    LeadsBefore(State(Init, false, [Starting, Starting], [Away]), SetRunning(0), t);
    TwoRunsStart(t);
    assert t.runners[1] == Starting;
    StoppedForever(t);
  }

  // What holds when Run has been called at most once; `unused` says it has not been called yet.
  ghost predicate SingleInv(s: State, unused: bool) {
    && (unused ==> s.state == Init)
    && (unused ==> forall r :: 0 <= r < |s.runners| ==> s.runners[r] == Outside)
    && (forall r, q :: 0 <= r < q < |s.runners| ==> s.runners[r] == Outside || s.runners[q] == Outside)
    && (IsStopState(s.state) ==> forall r :: 0 <= r < |s.runners| ==>
          s.runners[r] == Outside || s.runners[r] == Notifying)
    && (forall r :: 0 <= r < |s.runners| && (s.runners[r] == InDoRun || s.runners[r] == Escaped) ==>
          s.state == Running)
    && (forall c :: 0 <= c < |s.cancellers| ==>
          (s.cancellers[c] == Returned ==> IsStopState(s.state)) && (s.cancellers[c] != Away ==> s.requestCancel))
  }

  lemma SingleStep(s: State, unused: bool, e: Step)
    requires SingleInv(s, unused) && Enabled(s, e) && (e.CallRun? ==> unused)
    ensures SingleInv(Apply(s, e), unused && !e.CallRun?)
    ensures IsStopState(s.state) ==> Apply(s, e).state == s.state
  {}

  lemma {:induction false} SingleRun(s: State, unused: bool, es: seq<Step>, t: State)
    requires SingleInv(s, unused) && Path(s, es, t) && Calls(es) <= (if unused then 1 else 0)
    ensures exists f :: SingleInv(t, f)
    ensures IsStopState(s.state) ==> t.state == s.state
    decreases es
  {
    if es == [] {
      assert SingleInv(t, unused);
    } else {
      SingleStep(s, unused, es[0]);
      SingleRun(Apply(s, es[0]), unused && !es[0].CallRun?, es[1..], t);
    }
  }

  /** When Run is called once only, a Cancel that has returned did so in a stop state, and the
      task is in that very state ever after. */
  lemma CancelIsFinal(n: nat, m: nat, es: seq<Step>, s: State, c: nat, later: seq<Step>, t: State)
    requires Path(Initial(n, m), es, s) && Calls(es) <= 1 && CancellerAt(s, c, Returned)
    requires Path(s, later, t) && Calls(later) == 0
    ensures IsStopState(s.state) && t.state == s.state
  {
    SingleRun(Initial(n, m), true, es, s);
    var f :| SingleInv(s, f);
    SingleRun(s, f, later, t);
  }

  /** And when Run is called once only, the plain statement holds: once that call is over, the task
      is RUNNING if and only if an exception escaped. */
  lemma SingleRunEscapes(n: nat, m: nat, es: seq<Step>, t: State)
    requires Path(Initial(n, m), es, t) && Calls(es) <= 1 && NobodyRuns(t)
    ensures t.state == Running <==> exists r :: RunnerAt(t, r, Escaped)
  {
    SingleRun(Initial(n, m), true, es, t);
    PathKeepsInv(Initial(n, m), es, t);
  }

  // How the only call of Run has ended, as its steps tell.
  ghost predicate Ended(es: seq<Step>, t: State) {
    && (t.state == Finished <==> exists r :: DoRunReturns(r) in es)
    && (t.state == Cancelled <==> exists r :: SetCancelled(r) in es || DoRunCancelled(r) in es)
  }

  // At most one of these steps is taken in a single run, and it writes the state last.
  ghost predicate EndInv(s: State, unused: bool, es: seq<Step>) {
    && Ended(es, s)
    && (unused || s.state != Init || exists r :: 0 <= r < |s.runners| && s.runners[r] != Outside)
    && (forall r :: 0 <= r < |s.runners| && s.runners[r] == Notifying ==> IsStopState(s.state))
    && (forall r :: 0 <= r < |s.runners| && s.runners[r] != Outside && s.runners[r] != Notifying ==>
          s.state == (if s.runners[r] == InDoRun || s.runners[r] == Escaped then Running else Init))
  }

  lemma EndsLater(es: seq<Step>, e: Step)
    ensures forall x :: x in es + [e] <==> x in es || x == e
  {}

  lemma EndInvStep(s: State, before: seq<Step>, unused: bool, e: Step)
    requires EndInv(s, unused, before) && SingleInv(s, unused) && Enabled(s, e) && (e.CallRun? ==> unused)
    ensures EndInv(Apply(s, e), unused && !e.CallRun?, before + [e])
  {
    OthersStay(s, e);
    if Mover(e) >= 0 && !e.Notify? {
      assert Apply(s, e).runners[e.r] != Outside;
    }
    EndsLater(before, e);
    if e.DoRunReturns? || e.DoRunCancelled? || e.SetCancelled? {
      assert s.runners[e.r] != Outside && !IsStopState(s.state);
      assert e in before + [e];
    }
  }

  lemma {:induction false} EndInvPath(s: State, before: seq<Step>, unused: bool, es: seq<Step>, t: State)
    requires EndInv(s, unused, before) && SingleInv(s, unused) && Path(s, es, t)
    requires Calls(es) <= (if unused then 1 else 0)
    ensures EndInv(t, unused && Calls(es) == 0, before + es)
    decreases es
  {
    if es == [] {
      assert before + es == before;
    } else {
      EndInvStep(s, before, unused, es[0]);
      SingleStep(s, unused, es[0]);
      EndInvPath(Apply(s, es[0]), before + [es[0]], unused && !es[0].CallRun?, es[1..], t);
      assert before + [es[0]] + es[1..] == before + es;
    }
  }

  lemma {:induction false} PathRequests(s: State, es: seq<Step>, t: State)
    requires Path(s, es, t)
    ensures t.requestCancel <==> s.requestCancel || exists e :: e in es && (e.CancelAsync? || e.CallCancel?)
    decreases es
  {
    if es != [] {
      PathRequests(Apply(s, es[0]), es[1..], t);
      assert es[0] in es;
    }
  }

  /** How a task that is run once ends: FINISHED exactly when DoRun returned, CANCELLED exactly when
      the request was found by the first check or thrown out of DoRun, and the latter only on
      request. So a task nobody asked to cancel, whose run is over without an escape, is FINISHED. */
  lemma SingleRunOutcome(n: nat, m: nat, es: seq<Step>, t: State)
    requires Path(Initial(n, m), es, t) && Calls(es) <= 1
    ensures t.state == Finished <==> exists r :: DoRunReturns(r) in es
    ensures t.state == Cancelled <==> exists r :: SetCancelled(r) in es || DoRunCancelled(r) in es
    ensures t.state == Cancelled ==> t.requestCancel
    ensures t.requestCancel <==> exists e :: e in es && (e.CancelAsync? || e.CallCancel?)
    ensures Calls(es) == 1 && NobodyRuns(t) && !t.requestCancel && (forall r :: !RunnerAt(t, r, Escaped)) ==>
              t.state == Finished
  {
    EndInvPath(Initial(n, m), [], true, es, t);
    PathRequests(Initial(n, m), es, t);
    assert [] + es == es;
    PathKeepsInv(Initial(n, m), es, t);
    if NobodyRuns(t) {
      SingleRunEscapes(n, m, es, t);
    }
  }

  // The steps that runner r makes in a run.
  function StepsOf(es: seq<Step>, r: nat): seq<Step> {
    if es == [] then [] else (if Mover(es[0]) == r then [es[0]] else []) + StepsOf(es[1..], r)
  }

  // No other runner moves.
  predicate Alone(es: seq<Step>, r: nat) {
    forall i :: 0 <= i < |es| ==> Mover(es[i]) == r || Mover(es[i]) == -1
  }

  // A run from s to t in which runner r makes exactly the steps `mine`, and is alone if `alone`.
  ghost predicate Did(s: State, r: nat, alone: bool, mine: seq<Step>, t: State) {
    exists es :: Path(s, es, t) && StepsOf(es, r) == mine && (alone ==> Alone(es, r))
  }

  lemma {:induction false} PathConcat(s: State, es: seq<Step>, t: State, more: seq<Step>, u: State, r: nat)
    requires Path(s, es, t) && Path(t, more, u)
    ensures Path(s, es + more, u) && StepsOf(es + more, r) == StepsOf(es, r) + StepsOf(more, r)
    decreases es
  {
    if es == [] {
      assert [] + more == more;
    } else {
      assert (es + more)[1..] == es[1..] + more;
      PathConcat(Apply(s, es[0]), es[1..], t, more, u, r);
    }
  }

  lemma DidThen(s: State, r: nat, alone: bool, mine: seq<Step>, t: State, next: seq<Step>, u: State)
    requires Did(s, r, alone, mine, t) && Did(t, r, alone, next, u)
    ensures Did(s, r, alone, mine + next, u)
  {
    var es :| Path(s, es, t) && StepsOf(es, r) == mine && (alone ==> Alone(es, r));
    var more :| Path(t, more, u) && StepsOf(more, r) == next && (alone ==> Alone(more, r));
    PathConcat(s, es, t, more, u, r);
  }

  // One step more.
  lemma DidStep(s: State, r: nat, alone: bool, mine: seq<Step>, t: State, e: Step)
    requires Did(s, r, alone, mine, t) && Enabled(t, e) && Mover(e) == r
    ensures Did(s, r, alone, mine + [e], Apply(t, e))
  {
    var u := Apply(t, e);
    assert Path(u, [], u) && [e][1..] == [];
    assert Path(t, [e], u);
    assert StepsOf([e], r) == [e];
    DidThen(s, r, alone, mine, t, [e], u);
  }

  lemma DidNothing(s: State, r: nat, alone: bool)
    ensures Did(s, r, alone, [], s)
  {
    assert Path(s, [], s) && StepsOf([], r) == [];
  }

  lemma {:induction false} StillRunnerStays(s: State, r: nat, es: seq<Step>, t: State)
    requires Path(s, es, t) && StepsOf(es, r) == [] && r < |s.runners|
    ensures |t.runners| == |s.runners| && t.runners[r] == s.runners[r]
    decreases es
  {
    if es != [] {
      StillRunnerStays(Apply(s, es[0]), r, es[1..], t);
    }
  }

  // What a runner may rely on while it does not move.
  lemma InterferenceIsSafe(s: State, r: nat, alone: bool, t: State)
    requires Inv(s) && Did(s, r, alone, [], t) && r < |s.runners|
    ensures Inv(t) && |t.runners| == |s.runners| && t.runners[r] == s.runners[r]
    ensures s.requestCancel ==> t.requestCancel
  {
    var es :| Path(s, es, t) && StepsOf(es, r) == [] && (alone ==> Alone(es, r));
    PathKeepsInv(s, es, t);
    StillRunnerStays(s, r, es, t);
  }

  lemma {:induction false} OwnStepsWrite(es: seq<Step>, r: nat, before: TaskState)
    requires Alone(es, r)
    ensures Written(es, before) == Written(StepsOf(es, r), before)
  {
    if es != [] {
      var rest := StepsOf(es[1..], r);
      forall i | 0 <= i < |es[1..]| ensures Mover(es[1..][i]) == r || Mover(es[1..][i]) == -1 {
        assert es[1..][i] == es[i + 1];
      }
      OwnStepsWrite(es[1..], r, WrittenBy(es[0], before));
      if Mover(es[0]) == r {
        assert StepsOf(es, r) == [es[0]] + rest;
        assert StepsOf(es, r)[1..] == rest;
      } else {
        assert StepsOf(es, r) == rest;
      }
    }
  }

  // When r is alone, the state is what its own steps write last.
  lemma AloneDecides(s: State, r: nat, mine: seq<Step>, t: State)
    requires Did(s, r, true, mine, t)
    ensures t.state == Written(mine, s.state)
  {
    var es :| Path(s, es, t) && StepsOf(es, r) == mine && Alone(es, r);
    StateIsWritten(s, es, t);
    OwnStepsWrite(es, r, s.state);
  }

  // How a call of Run ends.
  datatype RunEnd = Skipped | Completed | Thrown | Escape

  // The steps that Run consists of.
  function RunSteps(r: nat, end: RunEnd): seq<Step> {
    [CallRun(r), CheckCancellation(r)] +
    match end
    case Skipped => [SetCancelled(r), Notify(r)]
    case Completed => [SetRunning(r), DoRunReturns(r), Notify(r)]
    case Thrown => [SetRunning(r), DoRunCancelled(r), Notify(r)]
    case Escape => [SetRunning(r), DoRunEscapes(r)]
  }

  function EndState(end: RunEnd): TaskState {
    match end
    case Completed => Finished
    case Escape => Running
    case _ => Cancelled
  }

  lemma {:induction false} LastWrites(es: seq<Step>, e: Step, before: TaskState)
    ensures Written(es + [e], before) == WrittenBy(e, Written(es, before))
  {
    if es == [] {
      assert ([] + [e])[1..] == [];
    } else {
      assert (es + [e])[1..] == es[1..] + [e];
      LastWrites(es[1..], e, WrittenBy(es[0], before));
    }
  }

  lemma RunStepsWrite(r: nat, end: RunEnd, before: TaskState)
    ensures Written(RunSteps(r, end), before) == EndState(end)
  {
    var start := [CallRun(r), CheckCancellation(r)];
    if end.Skipped? {
      LastWrites(start, SetCancelled(r), before);
      LastWrites(start + [SetCancelled(r)], Notify(r), before);
      assert RunSteps(r, end) == start + [SetCancelled(r)] + [Notify(r)];
    } else {
      var body := start + [SetRunning(r)];
      LastWrites(start, SetRunning(r), before);
      LastWrites(body, BodyEnd(r, end), before);
      LastWrites(body + [BodyEnd(r, end)], Notify(r), before);
      if end.Escape? {
        assert RunSteps(r, end) == body + [BodyEnd(r, end)];
      } else {
        assert RunSteps(r, end) == body + [BodyEnd(r, end)] + [Notify(r)];
      }
    }
  }

  // The step that ends DoRun.
  function BodyEnd(r: nat, end: RunEnd): Step
    requires !end.Skipped?
  {
    match end
    case Completed => DoRunReturns(r)
    case Thrown => DoRunCancelled(r)
    case Escape => DoRunEscapes(r)
  }

  // Runner r is about to notify, and that wakes the caller c of Cancel.
  predicate Wakes(s: State, r: int, c: nat) {
    r >= 0 && Enabled(s, Notify(r)) && CancellerAt(Apply(s, Notify(r)), c, Testing)
  }

  class TaskBase {
    var state: TaskState
    var isRequestCancel: bool
    ghost var runners: seq<Runner>
    ghost var cancellers: seq<Canceller>

    ghost function View(): State
      reads this
    {
      State(state, isRequestCancel, runners, cancellers)
    }

    constructor (ghost n: nat, ghost m: nat)
      ensures View() == Initial(n, m)
    {
      state, isRequestCancel := Init, false;
      runners, cancellers := seq(n, _ => Outside), seq(m, _ => Away);
    }

    // Everything the other runners and the cancellers may do meanwhile, or the cancellers only if
    // this runner is alone; callers know only this contract.
    method Preempt(ghost me: nat, ghost alone: bool)
      modifies this
      ensures Did(old(View()), me, alone, [], View())
    {
      DidNothing(View(), me, alone);
    }

    // What a runner that has made the steps `mine` since `start` may rely on across such an
    // interruption.
    method Yield(ghost start: State, ghost me: nat, ghost alone: bool, ghost mine: seq<Step>)
      requires Inv(View()) && me < |runners| && Did(start, me, alone, mine, View())
      modifies this
      ensures Inv(View()) && me < |runners| && runners[me] == old(runners[me])
      ensures old(isRequestCancel) ==> isRequestCancel
      ensures Did(start, me, alone, mine, View())
    {
      ghost var s := View();
      Preempt(me, alone);
      InterferenceIsSafe(s, me, alone, View());
      DidThen(start, me, alone, mine, s, [], View());
      assert mine + [] == mine;
    }

    method SetState(ghost me: nat, s: TaskState, ghost e: Step)
      requires Inv(View()) && Enabled(View(), e) && Mover(e) == me
      requires match e
               case SetRunning(_) => s == Running
               case DoRunReturns(_) => s == Finished
               case DoRunCancelled(_) => s == Cancelled
               case SetCancelled(_) => s == Cancelled
               case _ => false
      modifies this
      ensures View() == Apply(old(View()), e) && Inv(View())
    {
      StepKeepsInv(View(), e);
      state := s;
      runners := runners[me := if s == Running then InDoRun else Notifying];
    }

    method NotifyStopped(ghost me: nat)
      requires Inv(View()) && Enabled(View(), Notify(me))
      modifies this
      ensures View() == Apply(old(View()), Notify(me)) && Inv(View())
      ensures forall c :: 0 <= c < |cancellers| ==> cancellers[c] != Asleep
    {
      StepKeepsInv(View(), Notify(me));
      if isRequestCancel {
        cancellers := WakeAll(cancellers);
      }
      runners := runners[me := Outside];
    }

    method RequestCancel()
      modifies this`isRequestCancel
      ensures View() == Apply(old(View()), CancelAsync)
    {
      isRequestCancel := true;
    }

    // CancelAsync by the caller of Cancel.
    method CancelRequest(c: nat)
      requires Enabled(View(), CallCancel(c))
      modifies this
      ensures View() == Apply(old(View()), CallCancel(c))
    {
      isRequestCancel := true;
      cancellers := cancellers[c := Testing];
    }

    /** One pass of the wait loop of Cancel, from acquiring the state guard to releasing it. It
        returns with the task stopped and the request on record. If it goes to sleep instead,
        the notification is still to come: whatever step makes the task stop, its runner goes on
        to wake this caller. */
    method WaitPass(c: nat) returns (done: bool)
      requires Inv(View()) && Enabled(View(), TestStopped(c))
      modifies this
      ensures View() == Apply(old(View()), TestStopped(c)) && Inv(View())
      ensures done ==> IsStopState(state) && isRequestCancel && CancellerAt(View(), c, Returned)
      ensures !done ==> forall e :: Enabled(View(), e) && IsStopState(Apply(View(), e).state) ==>
                Wakes(Apply(View(), e), Mover(e), c)
    {
      StepKeepsInv(View(), TestStopped(c));
      done := state == Finished || state == Cancelled;
      cancellers := cancellers[c := if done then Returned else Asleep];
    }

    // DoRun, which may end in three ways, and the write of the state that follows it.
    method RunBody(ghost start: State, ghost me: nat, ghost alone: bool, ghost mine: seq<Step>)
      returns (end: RunEnd)
      requires Inv(View()) && RunnerAt(View(), me, InDoRun) && Did(start, me, alone, mine, View())
      modifies this
      ensures Inv(View()) && !end.Skipped? && (end.Thrown? ==> isRequestCancel)
      ensures RunnerAt(View(), me, if end.Escape? then Escaped else Notifying)
      ensures Did(start, me, alone, mine + [BodyEnd(me, end)], View())
    {
      end :| !end.Skipped? && (end.Thrown? ==> isRequestCancel);
      DidStep(start, me, alone, mine, View(), BodyEnd(me, end));
      if end.Escape? {
        StepKeepsInv(View(), DoRunEscapes(me));
        runners := runners[me := Escaped];
      } else {
        SetState(me, if end.Thrown? then Cancelled else Finished, BodyEnd(me, end));
      }
    }

    /** Run, under arbitrary interference by other runners and by cancellers. The runner makes
        exactly the steps of Run, in order, for one of its four ends; DoRun is skipped whenever a
        request is on record at the start, and only if one was found. Unless an exception other
        than the cancel exception escapes, nobody is asleep in Cancel at the end. If no other
        runner moves meanwhile, the task is CANCELLED after a skipped or cancelled DoRun, FINISHED
        after one that returned, and RUNNING after an escape. */
    method Run(ghost me: nat, ghost alone: bool) returns (end: RunEnd)
      requires Inv(View()) && RunnerAt(View(), me, Outside)
      modifies this
      ensures Did(old(View()), me, alone, RunSteps(me, end), View())
      ensures alone ==> state == EndState(end)
      ensures Inv(View()) && RunnerAt(View(), me, if end.Escape? then Escaped else Outside)
      ensures !end.Escape? ==> forall c :: 0 <= c < |cancellers| ==> cancellers[c] != Asleep
      ensures end.Skipped? || end.Thrown? ==> isRequestCancel
      ensures old(isRequestCancel) ==> end.Skipped? && isRequestCancel
    {
      ghost var start := View();
      ghost var steps := [CallRun(me)];
      Enter(me, alone);
      Yield(start, me, alone, steps);
      var go := PassesCheck(start, me, alone, steps);
      steps := steps + [CheckCancellation(me)];
      Yield(start, me, alone, steps);
      if go {
        end := RunAdmitted(start, me, alone);
      } else {
        end := Skipped;
        RunRefused(start, me, alone);
      }
      RunStepsWrite(me, end, start.state);
      if alone {
        AloneDecides(start, me, RunSteps(me, end), View());
      }
    }

    method Enter(ghost me: nat, ghost alone: bool)
      requires Inv(View()) && RunnerAt(View(), me, Outside)
      modifies this`runners
      ensures View() == Apply(old(View()), CallRun(me)) && Inv(View())
      ensures Did(old(View()), me, alone, [CallRun(me)], View())
    {
      StepKeepsInv(View(), CallRun(me));
      DidNothing(View(), me, alone);
      DidStep(View(), me, alone, [], View(), CallRun(me));
      assert [] + [CallRun(me)] == [CallRun(me)];
      runners := runners[me := Checking];
    }

    // The first check of Run: whether to go on.
    method PassesCheck(ghost start: State, ghost me: nat, ghost alone: bool, ghost mine: seq<Step>)
      returns (go: bool)
      requires Inv(View()) && RunnerAt(View(), me, Checking) && Did(start, me, alone, mine, View())
      modifies this`runners
      ensures View() == Apply(old(View()), CheckCancellation(me)) && Inv(View())
      ensures Did(start, me, alone, mine + [CheckCancellation(me)], View())
      ensures go <==> !isRequestCancel
    {
      StepKeepsInv(View(), CheckCancellation(me));
      DidStep(start, me, alone, mine, View(), CheckCancellation(me));
      go := !isRequestCancel;
      runners := runners[me := if go then Starting else Refused];
    }

    // The rest of Run after the check threw.
    method RunRefused(ghost start: State, ghost me: nat, ghost alone: bool)
      requires Inv(View()) && RunnerAt(View(), me, Refused)
      requires Did(start, me, alone, [CallRun(me), CheckCancellation(me)], View())
      modifies this
      ensures Inv(View()) && RunnerAt(View(), me, Outside) && isRequestCancel
      ensures Did(start, me, alone, RunSteps(me, Skipped), View())
      ensures forall c :: 0 <= c < |cancellers| ==> cancellers[c] != Asleep
    {
      ghost var steps := [CallRun(me), CheckCancellation(me)];
      DidStep(start, me, alone, steps, View(), SetCancelled(me));
      SetState(me, Cancelled, SetCancelled(me));
      FinishRun(start, me, alone, steps + [SetCancelled(me)]);
      assert RunSteps(me, Skipped) == steps + [SetCancelled(me)] + [Notify(me)];
    }

    // From the write of a stop state to the end of Run.
    method FinishRun(ghost start: State, ghost me: nat, ghost alone: bool, ghost mine: seq<Step>)
      requires Inv(View()) && RunnerAt(View(), me, Notifying) && Did(start, me, alone, mine, View())
      modifies this
      ensures Inv(View()) && RunnerAt(View(), me, Outside)
      ensures Did(start, me, alone, mine + [Notify(me)], View())
      ensures old(isRequestCancel) ==> isRequestCancel
      ensures forall c :: 0 <= c < |cancellers| ==> cancellers[c] != Asleep
    {
      Yield(start, me, alone, mine);
      DidStep(start, me, alone, mine, View(), Notify(me));
      NotifyStopped(me);
    }

    // The rest of Run after the check passed.
    method RunAdmitted(ghost start: State, ghost me: nat, ghost alone: bool) returns (end: RunEnd)
      requires Inv(View()) && RunnerAt(View(), me, Starting)
      requires Did(start, me, alone, [CallRun(me), CheckCancellation(me)], View())
      modifies this
      ensures Inv(View()) && RunnerAt(View(), me, if end.Escape? then Escaped else Outside)
      ensures !end.Skipped? && (end.Thrown? ==> isRequestCancel)
      ensures Did(start, me, alone, RunSteps(me, end), View())
      ensures !end.Escape? ==> forall c :: 0 <= c < |cancellers| ==> cancellers[c] != Asleep
    {
      ghost var steps := [CallRun(me), CheckCancellation(me)];
      DidStep(start, me, alone, steps, View(), SetRunning(me));
      SetState(me, Running, SetRunning(me));
      steps := steps + [SetRunning(me)];
      Yield(start, me, alone, steps);
      end := RunBody(start, me, alone, steps);
      steps := steps + [BodyEnd(me, end)];
      if end.Escape? {
        assert RunSteps(me, end) == steps;
      } else {
        FinishRun(start, me, alone, steps);
        assert RunSteps(me, end) == steps + [Notify(me)];
      }
    }
  }
}
