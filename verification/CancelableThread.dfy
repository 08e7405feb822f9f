/**
 A thread with cooperative cancellation: src/CancelableThread.cpp.

 The thread runs SetState(RUNNING), one cancellation check, the work function, the finish
 action and NotifyFinished. Any number of other threads call Cancel or CancelAsync meanwhile.
 One step is one atomic access or one critical section; a condition wait is two steps, the
 one that goes to sleep and the one that tests again. Sleepers may wake spuriously.
 */
module CancelableThreadProtocol {

  datatype ThreadState = Init | Running | Finished

  // Where the thread itself is.
  datatype Pc = Starting | FirstCheck | Working | Finishing | Notifying | Gone

  // Where one caller of Cancel is.
  datatype Canceller = Outside | Testing | Asleep | Returned

  // How the work function ends.
  datatype WorkEnd = ReturnedNormally | CancelThrown | OtherThrown

  datatype State = State(
    state: ThreadState,
    requestCancel: bool,
    pc: Pc,
    cancellers: seq<Canceller>,
    finishRuns: nat)

  datatype Step =
    | SetRunning
    | CheckFirst
    | EndWork(how: WorkEnd)
    | RunFinishAction
    | NotifyFinished
    | CancelAsync
    | BeginCancel(c: nat)
    | TestFinished(c: nat)
    | Spurious(c: nat)

  function Initial(n: nat): State {
    State(Init, false, Starting, seq(n, _ => Outside), 0)
  }

  predicate At(s: State, c: nat, pc: Canceller) {
    c < |s.cancellers| && s.cancellers[c] == pc
  }

  predicate Enabled(s: State, e: Step) {
    match e
    case SetRunning => s.pc == Starting
    case CheckFirst => s.pc == FirstCheck
    case EndWork(how) => s.pc == Working && (how == CancelThrown ==> s.requestCancel)
    case RunFinishAction => s.pc == Finishing
    case NotifyFinished => s.pc == Notifying
    case CancelAsync => true
    case BeginCancel(c) => At(s, c, Outside) || At(s, c, Returned)
    case TestFinished(c) => At(s, c, Testing)
    case Spurious(c) => At(s, c, Asleep)
  }

  // NotifyAll on the state guard.
  function WakeAll(cs: seq<Canceller>): seq<Canceller> {
    seq(|cs|, i requires 0 <= i < |cs| => if cs[i] == Asleep then Testing else cs[i])
  }

  function Apply(s: State, e: Step): State
    requires Enabled(s, e)
  {
    match e
    case SetRunning => s.(state := Running, pc := FirstCheck)
    case CheckFirst => s.(pc := if s.requestCancel then Finishing else Working)
    case EndWork(_) => s.(pc := Finishing)
    case RunFinishAction => s.(finishRuns := s.finishRuns + 1, pc := Notifying)
    case NotifyFinished =>
      // The flag is read first; the state is written before the lock is released.
      s.(cancellers := if s.requestCancel then WakeAll(s.cancellers) else s.cancellers,
         state := Finished, pc := Gone)
    case CancelAsync => s.(requestCancel := true)
    case BeginCancel(c) => s.(requestCancel := true, cancellers := s.cancellers[c := Testing])
    case TestFinished(c) =>
      s.(cancellers := s.cancellers[c := if s.state == Finished then Returned else Asleep])
    case Spurious(c) => s.(cancellers := s.cancellers[c := Testing])
  }

  // Steps of the thread itself, as opposed to those of its cancellers.
  predicate OwnStep(e: Step) {
    e.SetRunning? || e.CheckFirst? || e.EndWork? || e.RunFinishAction? || e.NotifyFinished?
  }

  ghost predicate Path(s: State, es: seq<Step>, t: State)
    decreases es
  {
    if es == [] then s == t else Enabled(s, es[0]) && Path(Apply(s, es[0]), es[1..], t)
  }

  ghost predicate Inv(s: State) {
    && (s.state == Init <==> s.pc == Starting)
    && (s.state == Finished <==> s.pc == Gone)
    && s.finishRuns == (if s.pc == Notifying || s.pc == Gone then 1 else 0)
    && (forall c :: 0 <= c < |s.cancellers| ==>
          && (s.cancellers[c] != Outside ==> s.requestCancel)
          && (s.cancellers[c] == Asleep ==> s.state != Finished)
          && (s.cancellers[c] == Returned ==> s.state == Finished))
  }

  lemma StepKeepsInv(s: State, e: Step)
    requires Inv(s) && Enabled(s, e)
    ensures Inv(Apply(s, e))
  {}

  lemma {:induction false} PathKeepsInv(s: State, es: seq<Step>, t: State)
    requires Inv(s) && Path(s, es, t)
    ensures Inv(t)
    ensures s.finishRuns <= t.finishRuns && |t.cancellers| == |s.cancellers|
    ensures s.requestCancel ==> t.requestCancel
    ensures s.state == Finished ==> t.state == Finished
    decreases es
  {
    if es != [] {
      StepKeepsInv(s, es[0]);
      PathKeepsInv(Apply(s, es[0]), es[1..], t);
    }
  }

  /** No lost wakeup: in every reachable state an unsignalled sleeper in Cancel has its request
      recorded and the thread is not finished, although NotifyFinished reads the flag and
      notifies before it writes FINISHED. */
  lemma SleeperIsAwaited(n: nat, es: seq<Step>, t: State, c: nat)
    requires Path(Initial(n), es, t) && At(t, c, Asleep)
    ensures t.requestCancel && t.state != Finished && t.pc != Gone
  {
    PathKeepsInv(Initial(n), es, t);
  }

  lemma {:induction false} PathFinishes(s: State, es: seq<Step>, t: State)
    requires Path(s, es, t)
    ensures t.finishRuns == s.finishRuns + FinishRuns(es)
    decreases es
  {
    if es != [] {
      PathFinishes(Apply(s, es[0]), es[1..], t);
    }
  }

  // Runs of the finish action among the steps.
  function FinishRuns(es: seq<Step>): nat {
    if es == [] then 0 else (if es[0].RunFinishAction? then 1 else 0) + FinishRuns(es[1..])
  }

  /** The finish action runs exactly once, and before FINISHED is visible, however the work
      function ends. */
  lemma FinishActionRunsOnce(n: nat, es: seq<Step>, t: State)
    requires Path(Initial(n), es, t)
    ensures FinishRuns(es) == t.finishRuns <= 1
    ensures t.state == Finished ==> FinishRuns(es) == 1
  {
    PathKeepsInv(Initial(n), es, t);
    PathFinishes(Initial(n), es, t);
  }

  // Own steps left before the thread is gone.
  function Rank(pc: Pc): nat {
    match pc
    case Starting => 5
    case FirstCheck => 4
    case Working => 3
    case Finishing => 2
    case Notifying => 1
    case Gone => 0
  }

  // The step the thread takes next when its work function returns.
  function NextOwn(pc: Pc): Step
    requires pc != Gone
  {
    match pc
    case Starting => SetRunning
    case FirstCheck => CheckFirst
    case Working => EndWork(ReturnedNormally)
    case Finishing => RunFinishAction
    case Notifying => NotifyFinished
  }

  /** Cancel cannot wait forever: while a caller has not returned, either it can test again or
      the thread has an enabled step, and each of the at most five own steps makes the
      remaining number smaller. */
  lemma CancelMakesProgress(n: nat, es: seq<Step>, t: State, c: nat)
    requires Path(Initial(n), es, t) && (At(t, c, Testing) || At(t, c, Asleep))
    ensures At(t, c, Testing) ==> Enabled(t, TestFinished(c))
    ensures t.pc == Gone ==> At(t, c, Testing) && At(Apply(t, TestFinished(c)), c, Returned)
    ensures t.pc != Gone ==> Enabled(t, NextOwn(t.pc))
    ensures forall e :: OwnStep(e) && Enabled(t, e) ==> Rank(Apply(t, e).pc) < Rank(t.pc)
  {
    PathKeepsInv(Initial(n), es, t);
  }

  // A request of cancellation, by CancelAsync or by Cancel.
  predicate Requests(e: Step) {
    e.CancelAsync? || e.BeginCancel?
  }

  lemma {:induction false} NeverEntersWork(s: State, es: seq<Step>, t: State)
    requires s.requestCancel && s.pc != Working && Path(s, es, t)
    ensures forall how :: EndWork(how) !in es
    decreases es
  {
    if es != [] {
      NeverEntersWork(Apply(s, es[0]), es[1..], t);
    }
  }

  lemma {:induction false} NotYetChecked(s: State, es: seq<Step>, t: State)
    requires (s.pc == Starting || s.pc == FirstCheck) && CheckFirst !in es && Path(s, es, t)
    ensures (t.pc == Starting || t.pc == FirstCheck) && forall how :: EndWork(how) !in es
    decreases es
  {
    if es != [] {
      NotYetChecked(Apply(s, es[0]), es[1..], t);
    }
  }

  /** A request that comes before the first check keeps the thread out of its work function, in
      every run. */
  lemma EarlyCancelSkipsWork(n: nat, es: seq<Step>, s: State, e: Step, later: seq<Step>, t: State)
    requires Path(Initial(n), es, s) && CheckFirst !in es
    requires Enabled(s, e) && Requests(e) && Path(Apply(s, e), later, t)
    ensures forall how :: EndWork(how) !in es + [e] + later
  {
    NotYetChecked(Initial(n), es, s);
    NeverEntersWork(Apply(s, e), later, t);
  }

  lemma {:induction false} WorksUnlessCancelled(s: State, es: seq<Step>, t: State)
    requires Path(s, es, t) && t.pc != Starting && t.pc != FirstCheck && t.pc != Working
    requires !s.requestCancel && (s.pc == Starting || s.pc == FirstCheck || s.pc == Working)
    ensures (exists how :: EndWork(how) in es) || exists e :: e in es && Requests(e)
    decreases es
  {
    if !es[0].EndWork? && !Requests(es[0]) {
      WorksUnlessCancelled(Apply(s, es[0]), es[1..], t);
    } else {
      assert es[0] in es;
    }
  }

  /** And nothing else does: a thread that is over has been through its work function, unless
      somebody requested its cancellation. */
  lemma WorkIsDone(n: nat, es: seq<Step>, t: State)
    requires Path(Initial(n), es, t) && t.pc == Gone
    ensures (exists how :: EndWork(how) in es) || exists e :: e in es && Requests(e)
  {
    WorksUnlessCancelled(Initial(n), es, t);
  }

  // The steps of a run that the thread itself makes.
  function OwnSteps(es: seq<Step>): seq<Step> {
    if es == [] then [] else (if OwnStep(es[0]) then [es[0]] else []) + OwnSteps(es[1..])
  }

  // A run from s to t in which the thread makes exactly the steps `mine`.
  ghost predicate Did(s: State, mine: seq<Step>, t: State) {
    exists es :: Path(s, es, t) && OwnSteps(es) == mine
  }

  lemma {:induction false} PathConcat(s: State, es: seq<Step>, t: State, more: seq<Step>, u: State)
    requires Path(s, es, t) && Path(t, more, u)
    ensures Path(s, es + more, u) && OwnSteps(es + more) == OwnSteps(es) + OwnSteps(more)
    decreases es
  {
    if es == [] {
      assert [] + more == more;
    } else {
      assert (es + more)[1..] == es[1..] + more;
      PathConcat(Apply(s, es[0]), es[1..], t, more, u);
    }
  }

  lemma DidThen(s: State, mine: seq<Step>, t: State, next: seq<Step>, u: State)
    requires Did(s, mine, t) && Did(t, next, u)
    ensures Did(s, mine + next, u)
  {
    var es :| Path(s, es, t) && OwnSteps(es) == mine;
    var more :| Path(t, more, u) && OwnSteps(more) == next;
    PathConcat(s, es, t, more, u);
  }

  lemma DidNothing(s: State)
    ensures Did(s, [], s)
  {
    assert Path(s, [], s) && OwnSteps([]) == [];
  }

  lemma DidStep(s: State, mine: seq<Step>, t: State, e: Step)
    requires Did(s, mine, t) && Enabled(t, e) && OwnStep(e)
    ensures Did(s, mine + [e], Apply(t, e))
  {
    var u := Apply(t, e);
    assert Path(u, [], u) && [e][1..] == [];
    assert Path(t, [e], u) && OwnSteps([e]) == [e];
    DidThen(s, mine, t, [e], u);
  }

  lemma {:induction false} StillThreadStays(s: State, es: seq<Step>, t: State)
    requires Path(s, es, t) && OwnSteps(es) == []
    ensures t.pc == s.pc && t.state == s.state && t.finishRuns == s.finishRuns
    ensures s.requestCancel ==> t.requestCancel
    decreases es
  {
    if es != [] {
      StillThreadStays(Apply(s, es[0]), es[1..], t);
    }
  }

  // What the thread may rely on while it does not move.
  lemma InterferenceIsSafe(s: State, t: State)
    requires Inv(s) && Did(s, [], t)
    ensures Inv(t) && t.pc == s.pc && t.state == s.state && t.finishRuns == s.finishRuns
    ensures s.requestCancel ==> t.requestCancel
  {
    var es :| Path(s, es, t) && OwnSteps(es) == [];
    PathKeepsInv(s, es, t);
    StillThreadStays(s, es, t);
  }

  // The steps of the thread function, with the work done or skipped.
  function ThreadSteps(worked: bool, how: WorkEnd): seq<Step> {
    [SetRunning, CheckFirst] + (if worked then [EndWork(how)] else []) + [RunFinishAction, NotifyFinished]
  }

  // In every run, c is not left asleep by a thread that is over.
  ghost predicate WokenInTime(s: State, c: nat) {
    forall es, t :: Path(s, es, t) && t.state == Finished ==> !At(t, c, Asleep)
  }

  lemma FinishedLeavesNobodyAsleep(s: State, c: nat)
    requires Inv(s)
    ensures WokenInTime(s, c)
  {
    forall es, t | Path(s, es, t) && t.state == Finished ensures !At(t, c, Asleep) {
      PathKeepsInv(s, es, t);
    }
  }

  class CancelableThread {
    var state: ThreadState
    var isRequestCancel: bool
    ghost var pc: Pc
    ghost var cancellers: seq<Canceller>
    ghost var finishRuns: nat

    ghost function View(): State
      reads this
    {
      State(state, isRequestCancel, pc, cancellers, finishRuns)
    }

    constructor (ghost callers: nat)
      ensures View() == Initial(callers)
    {
      state, isRequestCancel := Init, false;
      pc, cancellers, finishRuns := Starting, seq(callers, _ => Outside), 0;
    }

    // Whatever the cancellers do between two steps of the thread; callers of this method know
    // only its contract.
    method Preempt()
      modifies this
      ensures Did(old(View()), [], View())
    {
      DidNothing(View());
    }

    // What the thread, which has made the steps `mine` since `start`, may rely on across such an
    // interruption.
    method Yield(ghost start: State, ghost mine: seq<Step>)
      requires Inv(View()) && Did(start, mine, View())
      modifies this
      ensures Inv(View()) && pc == old(pc) && state == old(state) && finishRuns == old(finishRuns)
      ensures old(isRequestCancel) ==> isRequestCancel
      ensures Did(start, mine, View())
    {
      ghost var s := View();
      Preempt();
      InterferenceIsSafe(s, View());
      DidThen(start, mine, s, [], View());
      assert mine + [] == mine;
    }

    method SetState(s: ThreadState)
      requires pc == Starting && s == Running
      modifies this
      ensures View() == Apply(old(View()), SetRunning)
    {
      state := s;
      pc := FirstCheck;
    }

    // The check before the work function: whether to go on.
    method PassesCheck() returns (go: bool)
      requires pc == FirstCheck
      modifies this`pc
      ensures View() == Apply(old(View()), CheckFirst)
      ensures go <==> !isRequestCancel
    {
      go := !isRequestCancel;
      pc := if go then Working else Finishing;
    }

    // The work function. All three ends are caught; the cancel exception needs a recorded request.
    method Work() returns (how: WorkEnd)
      requires pc == Working
      modifies this`pc
      ensures Enabled(old(View()), EndWork(how)) && View() == Apply(old(View()), EndWork(how))
    {
      how :| how == CancelThrown ==> isRequestCancel;
      pc := Finishing;
    }

    method FinishAction()
      requires pc == Finishing
      modifies this`pc, this`finishRuns
      ensures View() == Apply(old(View()), RunFinishAction)
    {
      finishRuns := finishRuns + 1;
      pc := Notifying;
    }

    // CancelAsync, and the first half of Cancel by caller c.
    method CancelRequest(c: nat)
      requires Enabled(View(), BeginCancel(c))
      modifies this
      ensures View() == Apply(old(View()), BeginCancel(c))
    {
      isRequestCancel := true;
      cancellers := cancellers[c := Testing];
    }

    /** One pass of the wait loop of Cancel, from acquiring the lock to releasing it. It returns
        when the thread is over and the finish action has run. If it goes to sleep instead, the
        thread is not over, and in no run is this caller still asleep when it is. */
    method WaitPass(c: nat) returns (done: bool)
      requires Inv(View()) && Enabled(View(), TestFinished(c))
      modifies this
      ensures View() == Apply(old(View()), TestFinished(c)) && Inv(View())
      ensures done ==> pc == Gone && finishRuns == 1 && At(View(), c, Returned)
      ensures !done ==> isRequestCancel && pc != Gone && At(View(), c, Asleep)
      ensures WokenInTime(View(), c)
    {
      StepKeepsInv(View(), TestFinished(c));
      done := state == Finished;
      cancellers := cancellers[c := if done then Returned else Asleep];
      FinishedLeavesNobodyAsleep(View(), c);
    }

    method Notify()
      requires pc == Notifying
      modifies this
      ensures View() == Apply(old(View()), NotifyFinished)
    {
      if isRequestCancel {
        cancellers := WakeAll(cancellers);
      }
      state := Finished;
      pc := Gone;
    }

    /** The whole thread function under arbitrary interference by cancellers. The thread makes
        exactly its own steps, in order. Whatever way the work function ends, the thread ends
        FINISHED with the finish action run once and nobody asleep; the work function is skipped
        whenever a request was on record at the start, and only if one was found. */
    method ThreadFunction() returns (worked: bool, how: WorkEnd)
      requires Inv(View()) && pc == Starting
      modifies this
      ensures Did(old(View()), ThreadSteps(worked, how), View())
      ensures Inv(View()) && state == Finished
      ensures finishRuns == old(finishRuns) + 1
      ensures forall c :: 0 <= c < |cancellers| ==> cancellers[c] != Asleep
      ensures !worked ==> isRequestCancel
      ensures old(isRequestCancel) ==> !worked
    {
      ghost var start := View();
      worked := Begin();
      ghost var steps := [SetRunning] + [CheckFirst];
      how := ReturnedNormally;
      if worked {
        Yield(start, steps);
        ghost var inside := View();
        how := Work();
        DidStep(start, steps, inside, EndWork(how));
        StepKeepsInv(inside, EndWork(how));
        steps := steps + [EndWork(how)];
      }
      Finish(start, steps);
      assert ThreadSteps(worked, how) == steps + [RunFinishAction] + [NotifyFinished];
    }

    // From the start to the first check.
    method Begin() returns (go: bool)
      requires Inv(View()) && pc == Starting
      modifies this
      ensures Inv(View()) && pc == (if go then Working else Finishing) && finishRuns == old(finishRuns)
      ensures Did(old(View()), [SetRunning] + [CheckFirst], View())
      ensures !go ==> isRequestCancel
      ensures old(isRequestCancel) ==> !go
    {
      ghost var start := View();
      DidNothing(start);
      DidStep(start, [], start, SetRunning);
      StepKeepsInv(start, SetRunning);
      SetState(Running);
      assert [] + [SetRunning] == [SetRunning];
      Yield(start, [SetRunning]);
      DidStep(start, [SetRunning], View(), CheckFirst);
      StepKeepsInv(View(), CheckFirst);
      go := PassesCheck();
    }

    // From the end of the work function on.
    method Finish(ghost start: State, ghost mine: seq<Step>)
      requires Inv(View()) && pc == Finishing && Did(start, mine, View())
      modifies this
      ensures Inv(View()) && state == Finished && finishRuns == old(finishRuns) + 1
      ensures old(isRequestCancel) ==> isRequestCancel
      ensures Did(start, mine + [RunFinishAction] + [NotifyFinished], View())
      ensures forall c :: 0 <= c < |cancellers| ==> cancellers[c] != Asleep
    {
      Yield(start, mine);
      DidStep(start, mine, View(), RunFinishAction);
      StepKeepsInv(View(), RunFinishAction);
      FinishAction();
      ghost var steps := mine + [RunFinishAction];
      Yield(start, steps);
      DidStep(start, steps, View(), NotifyFinished);
      StepKeepsInv(View(), NotifyFinished);
      Notify();
    }
  }
}
