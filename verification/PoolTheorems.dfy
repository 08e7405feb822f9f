/** What stopping the pool promises, in every run. */
module PoolTheorems {
  import opened Wrappers
  import opened Sums
  import opened PoolProtocol
  import opened PoolInvariants

  lemma {:induction false} PathKeepsInv(s: State, es: seq<Step>, t: State)
    requires Inv(s) && Path(s, es, t)
    ensures Inv(t) && |t.workers| == |s.workers| && |t.stoppers| == |s.stoppers|
    ensures s.poolState == Finished ==> t.poolState == Finished
    decreases es
  {
    if es != [] {
      StepKeepsInv(s, es[0]);
      PoolOnlyAdvances(s, es[0]);
      PathKeepsInv(Apply(s, es[0]), es[1..], t);
    }
  }

  ghost predicate Reachable(n: nat, clients: nat, kinds: seq<Kind>, t: State) {
    exists es :: Path(Initial(n, clients, kinds), es, t)
  }

  lemma ReachableInv(n: nat, clients: nat, kinds: seq<Kind>, t: State)
    requires Reachable(n, clients, kinds, t)
    ensures Inv(t) && |t.workers| == n && |t.stoppers| == |kinds|
  {
    var es :| Path(Initial(n, clients, kinds), es, t);
    InitialInv(n, clients, kinds);
    PathKeepsInv(Initial(n, clients, kinds), es, t);
  }

  lemma {:induction false} PathAppend(s: State, es: seq<Step>, t: State, e: Step)
    requires Path(s, es, t) && Enabled(t, e)
    ensures Path(s, es + [e], Apply(t, e))
    decreases es
  {
    if es == [] {
      assert ([] + [e])[1..] == [];
    } else {
      assert (es + [e])[1..] == es[1..] + [e];
      PathAppend(Apply(s, es[0]), es[1..], t, e);
    }
  }

  lemma StepIsReachable(n: nat, clients: nat, kinds: seq<Kind>, s: State, e: Step)
    requires Reachable(n, clients, kinds, s) && Enabled(s, e)
    ensures Reachable(n, clients, kinds, Apply(s, e))
  {
    var es :| Path(Initial(n, clients, kinds), es, s);
    PathAppend(Initial(n, clients, kinds), es, s, e);
  }

  // ---------- FINISHED ----------

  /** FINISHED is written at most once, and only when the finish action of every worker has
      been counted. */
  lemma FinishedOnceAndLast(n: nat, clients: nat, kinds: seq<Kind>, t: State)
    requires n > 0 && Reachable(n, clients, kinds, t)
    ensures t.finishedWrites <= 1
    ensures t.poolState == Finished <==> t.finishedWrites == 1
    ensures t.poolState == Finished ==>
              t.stoppedThreadNum == n && forall w :: 0 <= w < |t.workers| ==> HasCounted(t.workers[w].pc)
  {
    ReachableInv(n, clients, kinds, t);
    if t.poolState == Finished {
      AllCounted(t);
    }
  }

  lemma AllCounted(t: State)
    requires Inv(t) && t.poolState == Finished
    ensures t.stoppedThreadNum == |t.workers| && forall w :: 0 <= w < |t.workers| ==> HasCounted(t.workers[w].pc)
  {
    var w :| 0 <= w < |t.workers| && Wrote(t, t.workers[w]);
    RanksAreBounded(t);
    SumAtMost(t.workers, IsCounted);
    forall v | 0 <= v < |t.workers| ensures HasCounted(t.workers[v].pc) {
      assert IsCounted(t.workers[v]) == 1;
    }
  }

  /** Correctly signalled: an unsignalled sleeper in Stop means that the stop flag is set and the
      pool is not finished; Stop returns only from a finished pool, and StopNow only when every
      worker thread is gone. */
  lemma StopIsSignalled(n: nat, clients: nat, kinds: seq<Kind>, t: State, k: nat)
    requires Reachable(n, clients, kinds, t) && k < |t.stoppers|
    ensures t.stoppers[k].pc.StateAsleep? ==> t.requestStop && t.poolState != Finished
    ensures t.stoppers[k].pc.JoinAsleep? ==>
              var i := t.stoppers[k].pc.i; i < |t.workers| && t.workers[i].requestCancel && t.workers[i].pc != Gone
    ensures t.stoppers[k] == Stopper(Graceful, Returned) ==> t.poolState == Finished
    ensures t.stoppers[k] == Stopper(Now, Returned) ==> forall w :: 0 <= w < |t.workers| ==> t.workers[w].pc == Gone
  {
    ReachableInv(n, clients, kinds, t);
    assert StopperOk(t, t.stoppers[k]);
  }

  // ---------- Draining ----------

  lemma {:induction false} CountEndsSplit(xs: seq<Item>, h: nat)
    requires h <= |xs|
    ensures CountEnds(xs) == CountEnds(xs[..h]) + CountEnds(xs[h..])
    decreases |xs|
  {
    if h < |xs| {
      var front := xs[..|xs| - 1];
      CountEndsSplit(front, h);
      assert front[..h] == xs[..h];
      assert xs[h..][..|xs| - h - 1] == front[h..];
    } else {
      assert xs[..h] == xs;
    }
  }

  lemma {:induction false} NoEndsCounted(xs: seq<Item>)
    ensures CountEnds(xs) == 0 <==> forall i :: 0 <= i < |xs| ==> xs[i].Task?
  {
    if xs != [] {
      var front := xs[..|xs| - 1];
      NoEndsCounted(front);
      forall i | 0 <= i < |front| ensures front[i] == xs[i] {}
    }
  }

  /** Counting: the EndTasks still queued are those pushed less the workers that took one. */
  lemma EndsStillQueued(n: nat, clients: nat, kinds: seq<Kind>, t: State)
    requires Reachable(n, clients, kinds, t)
    ensures t.head <= |t.pushed|
    ensures CountEnds(t.pushed[t.head..]) == t.ends - Sum(t.workers, EndTaken)
    ensures t.requestStop && (forall k :: 0 <= k < |t.stoppers| ==> !t.stoppers[k].pc.PushingEnds?) ==> t.ends == n
  {
    ReachableInv(n, clients, kinds, t);
    CountEndsSplit(t.pushed, t.head);
  }

  lemma TookEndEach(t: State)
    requires Inv(t) && t.poolState == Finished
    requires forall w :: 0 <= w < |t.workers| ==> t.workers[w].tookEnd
    ensures t.ends == |t.workers| && CountEnds(t.pushed[t.head..]) == 0
  {
    CountEndsSplit(t.pushed, t.head);
    SumAtMost(t.workers, EndTaken);
    AllOnes(t.workers, EndTaken);
  }

  lemma {:induction false} AllOnes(ws: seq<Worker>, f: Worker -> int)
    requires forall w :: 0 <= w < |ws| ==> f(ws[w]) == 1
    ensures Sum(ws, f) == |ws|
  {
    if ws != [] {
      AllOnes(ws[1..], f);
    }
  }

  lemma RunExactlyOnce(t: State, i: nat)
    requires Inv(t) && t.poolState == Finished && t.dropLog == [] && i < t.head && t.pushed[i].Task?
    ensures multiset(t.runLog)[i] == 1
  {
    AllCounted(t);
    SumZero(t.workers, Holding(i));
    assert Places(t, i) == 1;
  }

  lemma NobodyLost(t: State)
    requires Inv(t) && forall w :: 0 <= w < |t.workers| ==> HasCounted(t.workers[w].pc)
    requires forall w :: 0 <= w < |t.workers| ==> !t.workers[w].requestCancel && t.workers[w].exit != ByEscape
    ensures t.dropLog == [] && forall w :: 0 <= w < |t.workers| ==> t.workers[w].tookEnd
  {
    forall w | 0 <= w < |t.workers| ensures t.workers[w].tookEnd {
      assert WorkerOk(t, t.workers[w]);
    }
    if t.dropLog != [] {
      var w := DropperOf(t, t.dropLog[0]);
    }
  }

  /** A pool that lost no worker drains exactly. If no worker was cancelled and no task let an
      exception escape, then when the pool is finished: every task pushed before some EndTask, indeed every
      task popped, has had Run called exactly once, and the call is over; no EndTask is left; and
      whatever is left was pushed by a client that read the stop flag before the CAS. */
  lemma DrainsUnlessLost(n: nat, clients: nat, kinds: seq<Kind>, t: State)
    requires n > 0 && Reachable(n, clients, kinds, t) && t.poolState == Finished
    requires forall w :: 0 <= w < |t.workers| ==> !t.workers[w].requestCancel && t.workers[w].exit != ByEscape
    ensures t.requestStop && t.ends == |t.workers| && t.dropLog == []
    ensures forall i: nat :: i < |t.pushed| && i < t.head && t.pushed[i].Task? ==> multiset(t.runLog)[i] == 1
    ensures forall w :: 0 <= w < |t.workers| ==> t.workers[w].pc != InRun
    ensures forall j :: 0 <= j < |t.pushed| && t.pushed[j].End? ==> j < t.head
    ensures forall i :: t.head <= i < |t.pushed| ==>
              t.pushed[i].Task? && t.casAt.Some? && t.pushed[i].readAt < t.casAt.value
  {
    ReachableInv(n, clients, kinds, t);
    AllCounted(t);
    NobodyLost(t);
    TookEndEach(t);
    QueueEnds(t);
    forall i: nat | i < t.head && t.pushed[i].Task? ensures multiset(t.runLog)[i] == 1 {
      RunExactlyOnce(t, i);
    }
  }

  // ---------- What costs a worker ----------

  // The step sets the cancel flag of worker w.
  predicate Aims(s: State, e: Step, w: nat) {
    (e.CancelFlag? || e.JoinFlag?) && StopperAims(s, e.k, w)
  }

  predicate StopperAims(s: State, k: nat, w: nat) {
    && k < |s.stoppers|
    && (s.stoppers[k].pc == Cancelling(w) || s.stoppers[k].pc == Joining(w))
  }

  // In the run from s, a call of StopNow sets the cancel flag of worker w.
  ghost predicate AimedAt(s: State, es: seq<Step>, w: nat)
    decreases es
  {
    && es != [] && Enabled(s, es[0])
    && ((Aims(s, es[0], w) && s.stoppers[es[0].k].kind == Now) || AimedAt(Apply(s, es[0]), es[1..], w))
  }

  // The step asks occurrence i of a task to cancel itself.
  predicate AsksTask(s: State, e: Step, i: nat) {
    && e.CancelRunning? && e.k < |s.stoppers| && s.stoppers[e.k].pc.Guarding?
    && s.stoppers[e.k].pc.i < |s.workers| && s.workers[s.stoppers[e.k].pc.i].runningTask == Some(i)
  }

  // In the run from s, a call of StopNow asks occurrence i to cancel itself.
  ghost predicate AskedToCancel(s: State, es: seq<Step>, i: nat)
    decreases es
  {
    && es != [] && Enabled(s, es[0])
    && ((AsksTask(s, es[0], i) && s.stoppers[es[0].k].kind == Now) || AskedToCancel(Apply(s, es[0]), es[1..], i))
  }

  lemma MoverKeepsFlag(s: State, e: Step)
    requires Enabled(s, e) && IsWorkerStep(e)
    ensures e.w < |Apply(s, e).workers| && Apply(s, e).workers[e.w].requestCancel == s.workers[e.w].requestCancel
  {}

  lemma AimChange(s: State, e: Step)
    requires Enabled(s, e) && (e.CancelFlag? || e.JoinFlag?)
    ensures var i := s.stoppers[e.k].pc.i;
            Apply(s, e).workers == s.workers[i := s.workers[i].(requestCancel := true)]
  {}

  lemma OthersKeepWorkers(s: State, e: Step)
    requires Enabled(s, e) && !IsWorkerStep(e) && !IsEnqueue(e) && !e.CancelFlag? && !e.JoinFlag?
    ensures Apply(s, e).workers == s.workers
  {}

  lemma StepCancelsWorker(s: State, e: Step, w: nat)
    requires Enabled(s, e) && w < |s.workers|
    ensures w < |Apply(s, e).workers|
    ensures Apply(s, e).workers[w].requestCancel <==> s.workers[w].requestCancel || Aims(s, e, w)
  {
    if IsWorkerStep(e) {
      WorkerStepChange(s, e);
      MoverKeepsFlag(s, e);
    } else if IsEnqueue(e) {
      EnqueueChange(s, e);
    } else if e.CancelFlag? || e.JoinFlag? {
      AimChange(s, e);
    } else {
      OthersKeepWorkers(s, e);
    }
  }

  lemma StepLosesWorker(s: State, e: Step, w: nat)
    requires WorkersInv(s) && Enabled(s, e) && w < |s.workers|
    ensures w < |Apply(s, e).workers|
    ensures Apply(s, e).workers[w].exit == ByEscape <==> s.workers[w].exit == ByEscape || e == RunEscapes(w)
  {
    WorkersChange(s, e);
    assert WorkerOk(s, s.workers[w]);
    if IsWorkerStep(e) && e.w == w {
      MoverKeepsExit(s, e);
    }
  }

  // A worker's exit is set once, on leaving.
  lemma MoverKeepsExit(s: State, e: Step)
    requires Enabled(s, e) && IsWorkerStep(e) && (s.workers[e.w].exit != NotYet <==> HasLeft(s.workers[e.w].pc))
    ensures var y := Apply(s, e).workers[e.w];
            && (s.workers[e.w].exit != NotYet ==> y.exit == s.workers[e.w].exit)
            && (s.workers[e.w].exit == NotYet ==> (y.exit == ByEscape <==> e.RunEscapes?))
  {}

  lemma StepAsksTasks(s: State, e: Step, i: nat)
    requires Enabled(s, e)
    ensures i in Apply(s, e).cancelRequested <==> i in s.cancelRequested || AsksTask(s, e, i)
  {}

  // Only StopNow gets as far as cancelling.
  lemma OnlyNowCancels(s: State, e: Step)
    requires StoppersInv(s) && Enabled(s, e) && (e.CancelFlag? || e.JoinFlag? || e.CancelRunning?)
    ensures s.stoppers[e.k].kind == Now
  {
    assert StopperOk(s, s.stoppers[e.k]);
  }

  lemma {:induction false} PathLosesWorkers(s: State, es: seq<Step>, t: State, w: nat)
    requires Inv(s) && Path(s, es, t) && w < |s.workers|
    ensures w < |t.workers|
    ensures t.workers[w].requestCancel <==> s.workers[w].requestCancel || AimedAt(s, es, w)
    ensures t.workers[w].exit == ByEscape <==> s.workers[w].exit == ByEscape || RunEscapes(w) in es
    decreases es
  {
    if es != [] {
      StepKeepsInv(s, es[0]);
      StepCancelsWorker(s, es[0], w);
      StepLosesWorker(s, es[0], w);
      if es[0].CancelFlag? || es[0].JoinFlag? {
        OnlyNowCancels(s, es[0]);
      }
      PathLosesWorkers(Apply(s, es[0]), es[1..], t, w);
    }
  }

  lemma {:induction false} PathAsksTasks(s: State, es: seq<Step>, t: State, i: nat)
    requires Inv(s) && Path(s, es, t)
    ensures i in t.cancelRequested <==> i in s.cancelRequested || AskedToCancel(s, es, i)
    decreases es
  {
    if es != [] {
      StepKeepsInv(s, es[0]);
      StepAsksTasks(s, es[0], i);
      if es[0].CancelRunning? {
        OnlyNowCancels(s, es[0]);
      }
      PathAsksTasks(Apply(s, es[0]), es[1..], t, i);
    }
  }

  /** What costs the pool a worker or a task, exactly: a worker's cancel flag is set if and only if
      some call of StopNow set it for that worker; a worker is lost to an exception if and only if
      one escaped from a task that it ran; and an occurrence is asked to cancel itself if and only if
      some call of StopNow found a worker to have it. The stop flag itself is set by a CAS only. */
  lemma CausesOfLoss(n: nat, clients: nat, kinds: seq<Kind>, es: seq<Step>, t: State, w: nat, i: nat)
    requires Path(Initial(n, clients, kinds), es, t) && w < n
    ensures w < |t.workers|
    ensures t.workers[w].requestCancel <==> AimedAt(Initial(n, clients, kinds), es, w)
    ensures t.workers[w].exit == ByEscape <==> RunEscapes(w) in es
    ensures i in t.cancelRequested <==> AskedToCancel(Initial(n, clients, kinds), es, i)
    ensures t.requestStop <==> exists k :: Cas(k) in es
  {
    PathRequestsStop(Initial(n, clients, kinds), es, t);
    InitialInv(n, clients, kinds);
    PathLosesWorkers(Initial(n, clients, kinds), es, t, w);
    PathAsksTasks(Initial(n, clients, kinds), es, t, i);
  }

  lemma CancelledMoverLeaves(s: State, e: Step)
    requires Enabled(s, e) && IsWorkerStep(e) && s.workers[e.w].requestCancel
    ensures var y := Apply(s, e).workers[e.w];
            && (s.workers[e.w].pc == FirstCheck ==> !e.CheckLoop? && HasLeft(y.pc))
            && (s.workers[e.w].pc == LoopCheck ==> HasLeft(y.pc))
            && (HasLeft(s.workers[e.w].pc) ==> !e.CheckLoop? && !e.TakeGuard? && HasLeft(y.pc))
  {}

  lemma {:induction false} LeaverStaysAway(s: State, es: seq<Step>, t: State, w: nat)
    requires Path(s, es, t) && w < |s.workers| && s.workers[w].requestCancel && HasLeft(s.workers[w].pc)
    ensures CheckLoop(w) !in es && TakeGuard(w) !in es
    decreases es
  {
    if es != [] {
      CancelledWorkerStays(s, es[0], w);
      LeaverStaysAway(Apply(s, es[0]), es[1..], t, w);
    }
  }

  lemma CancelledWorkerStays(s: State, e: Step, w: nat)
    requires Enabled(s, e) && w < |s.workers| && s.workers[w].requestCancel
    ensures w < |Apply(s, e).workers| && Apply(s, e).workers[w].requestCancel
    ensures var x, y := s.workers[w], Apply(s, e).workers[w];
            && (x.pc == FirstCheck ==> e != CheckLoop(w) && e != TakeGuard(w) && (y.pc == FirstCheck || HasLeft(y.pc)))
            && (x.pc == LoopCheck ==> e != TakeGuard(w) && (y.pc == LoopCheck || HasLeft(y.pc)))
            && (HasLeft(x.pc) ==> e != CheckLoop(w) && e != TakeGuard(w) && HasLeft(y.pc))
  {
    StepCancelsWorker(s, e, w);
    WorkersChange(s, e);
    if IsWorkerStep(e) && e.w == w {
      CancelledMoverLeaves(s, e);
    }
  }

  /** A cancelled worker goes home: once its cancel flag is set at one of its two first checks it never
      locks its guard again, so it takes nothing more from the queue; and if the request came before
      the check that precedes the work function, it never enters the loop. */
  lemma {:induction false} CancelledWorkerTakesNothing(s: State, es: seq<Step>, t: State, w: nat)
    requires Path(s, es, t) && w < |s.workers| && s.workers[w].requestCancel
    requires s.workers[w].pc == FirstCheck || s.workers[w].pc == LoopCheck
    ensures TakeGuard(w) !in es
    ensures s.workers[w].pc == FirstCheck ==> CheckLoop(w) !in es
    decreases es
  {
    if es != [] {
      CancelledWorkerStays(s, es[0], w);
      if HasLeft(Apply(s, es[0]).workers[w].pc) {
        LeaverStaysAway(Apply(s, es[0]), es[1..], t, w);
      } else {
        CancelledWorkerTakesNothing(Apply(s, es[0]), es[1..], t, w);
      }
    }
  }

  // Ends of calls of Run among the steps.
  function RunEnds(es: seq<Step>): nat {
    if es == [] then 0 else (if es[0].RunReturns? || es[0].RunEscapes? then 1 else 0) + RunEnds(es[1..])
  }

  function Runs(x: Worker): int {
    if x.pc == InRun then 1 else 0
  }

  lemma MoverRuns(s: State, e: Step)
    requires Enabled(s, e) && IsWorkerStep(e)
    ensures |Apply(s, e).runLog| - |s.runLog|
            == Runs(Apply(s, e).workers[e.w]) - Runs(s.workers[e.w]) + RunEnds([e])
  {
    assert [e][1..] == [];
  }

  lemma OthersLeaveLog(s: State, e: Step)
    requires Enabled(s, e) && !IsWorkerStep(e)
    ensures Apply(s, e).runLog == s.runLog && RunEnds([e]) == 0
  {
    assert [e][1..] == [];
  }

  lemma {:induction false} RunsPath(s: State, es: seq<Step>, t: State)
    requires Path(s, es, t)
    ensures |t.runLog| - |s.runLog| == Sum(t.workers, Runs) - Sum(s.workers, Runs) + RunEnds(es)
    decreases es
  {
    if es != [] {
      SumAfterStep(s, es[0], Runs);
      if IsWorkerStep(es[0]) {
        MoverRuns(s, es[0]);
      } else {
        OthersLeaveLog(s, es[0]);
      }
      assert [es[0]][1..] == [];
      RunsPath(Apply(s, es[0]), es[1..], t);
    }
  }

  /** Every call of Run is over, one way or the other, or some worker is inside it. */
  lemma RunsAreAccounted(n: nat, clients: nat, kinds: seq<Kind>, es: seq<Step>, t: State)
    requires Path(Initial(n, clients, kinds), es, t)
    ensures |t.runLog| == Sum(t.workers, Runs) + RunEnds(es)
  {
    SumZero(Initial(n, clients, kinds).workers, Runs);
    RunsPath(Initial(n, clients, kinds), es, t);
  }

  lemma StepRequestsStop(s: State, e: Step)
    requires Enabled(s, e)
    ensures Apply(s, e).requestStop <==> s.requestStop || e.Cas?
  {}

  lemma {:induction false} PathRequestsStop(s: State, es: seq<Step>, t: State)
    requires Path(s, es, t)
    ensures t.requestStop <==> s.requestStop || exists k :: Cas(k) in es
    decreases es
  {
    if es != [] {
      StepRequestsStop(s, es[0]);
      PathRequestsStop(Apply(s, es[0]), es[1..], t);
      if es[0].Cas? {
        assert Cas(es[0].k) in es;
      }
    }
  }

  lemma StepKeepsKinds(s: State, e: Step)
    requires Enabled(s, e)
    ensures |Apply(s, e).stoppers| == |s.stoppers|
    ensures forall k :: 0 <= k < |s.stoppers| ==> Apply(s, e).stoppers[k].kind == s.stoppers[k].kind
  {}

  lemma {:induction false} NobodyAims(s: State, es: seq<Step>, w: nat)
    requires forall k :: 0 <= k < |s.stoppers| ==> s.stoppers[k].kind != Now
    ensures !AimedAt(s, es, w)
    decreases es
  {
    if es != [] && Enabled(s, es[0]) {
      StepKeepsKinds(s, es[0]);
      NobodyAims(Apply(s, es[0]), es[1..], w);
    }
  }

  /** A graceful stop drains exactly. In every run without StopNow and without an escaping exception,
      when the pool is finished: every task pushed before some EndTask, indeed every task popped, has
      had Run called exactly once, and the call is over; every EndTask was pushed and none is left;
      and whatever is left was pushed by a client that read the stop flag before the CAS. */
  lemma GracefulStopDrains(n: nat, clients: nat, kinds: seq<Kind>, es: seq<Step>, t: State)
    requires n > 0 && Path(Initial(n, clients, kinds), es, t) && t.poolState == Finished
    requires forall k :: 0 <= k < |kinds| ==> kinds[k] != Now
    requires forall w :: RunEscapes(w) !in es
    ensures t.requestStop && t.ends == |t.workers| && t.dropLog == []
    ensures forall i: nat :: i < |t.pushed| && i < t.head && t.pushed[i].Task? ==> multiset(t.runLog)[i] == 1
    ensures forall w :: 0 <= w < |t.workers| ==> t.workers[w].pc != InRun
    ensures forall j :: 0 <= j < |t.pushed| && t.pushed[j].End? ==> j < t.head
    ensures forall i :: t.head <= i < |t.pushed| ==>
              t.pushed[i].Task? && t.casAt.Some? && t.pushed[i].readAt < t.casAt.value
  {
    var s := Initial(n, clients, kinds);
    assert Reachable(n, clients, kinds, t);
    ReachableInv(n, clients, kinds, t);
    forall w: nat | w < |t.workers| ensures !t.workers[w].requestCancel && t.workers[w].exit != ByEscape {
      CausesOfLoss(n, clients, kinds, es, t, w, 0);
      NobodyAims(s, es, w);
    }
    DrainsUnlessLost(n, clients, kinds, t);
  }

  // The worker left its loop with no EndTask in hand: an exception escaped from its task, or a
  // check found its cancel flag set when it had popped nothing yet, or a task.
  predicate LeftEarly(t: State, x: Worker) {
    || x.exit == ByEscape
    || (x.exit == ByCancel
        && (x.runningTask.Some? && x.runningTask.value < |t.pushed| ==> t.pushed[x.runningTask.value].Task?))
  }

  lemma LeftEarlyIff(t: State, w: nat)
    requires Inv(t) && w < |t.workers| && HasCounted(t.workers[w].pc)
    ensures t.workers[w].tookEnd <==> !LeftEarly(t, t.workers[w])
  {
    assert WorkerOk(t, t.workers[w]);
  }

  /** And the condition is the right one: a finished pool has all its EndTasks pushed and none
      left in the queue if and only if no worker was lost to an exception, or to a cancellation
      that a check found before the worker had popped an EndTask. */
  lemma NoEndLeftIff(n: nat, clients: nat, kinds: seq<Kind>, t: State)
    requires n > 0 && Reachable(n, clients, kinds, t) && t.poolState == Finished
    ensures t.head <= |t.pushed|
    ensures t.ends == |t.workers| && (forall j :: t.head <= j < |t.pushed| ==> t.pushed[j].Task?)
            <==> forall w :: 0 <= w < |t.workers| ==> !LeftEarly(t, t.workers[w])
  {
    ReachableInv(n, clients, kinds, t);
    AllCounted(t);
    QueueEnds(t);
    forall w: nat | w < |t.workers| ensures t.workers[w].tookEnd <==> !LeftEarly(t, t.workers[w]) {
      LeftEarlyIff(t, w);
    }
    if forall w :: 0 <= w < |t.workers| ==> t.workers[w].tookEnd {
      TookEndEach(t);
    }
    if CountEnds(t.pushed[t.head..]) == 0 && t.ends == |t.workers| {
      EveryoneTookEnd(t);
    }
  }

  // A pool of one worker with one client and one caller of Stop.
  function Solo(s: State, x: Worker): State {
    s.(workers := [x])
  }

  lemma Take(s: State, e: Step, t: State)
    requires Reachable(1, 1, [Graceful], s) && Enabled(s, e) && Apply(s, e) == t
    ensures Reachable(1, 1, [Graceful], t)
  {
    StepIsReachable(1, 1, [Graceful], s, e);
  }

  const newcomer: Worker := Worker(FirstCheck, false, None, 0, false, NotYet, 0)

  // The client adds a task,
  lemma TaskIsAdded() returns (s: State)
    ensures Reachable(1, 1, [Graceful], s)
    ensures s == State(false, Running, 0, [Task(0)], 0, [newcomer], [Outside], [Stopper(Graceful, Idle)],
                       0, 0, [], [], {}, 1, None)
  {
    var s0 := Initial(1, 1, [Graceful]);
    assert s0.workers == [newcomer] && s0.clients == [Outside] && s0.stoppers == [Stopper(Graceful, Idle)];
    assert Path(s0, [], s0);
    var s1 := s0.(clients := [Admitted(0)], clock := 1);
    Take(s0, ReadStop(0), s1);
    s := s1.(clients := [Outside], pushed := [Task(0)]);
    assert WakePoppers([newcomer]) == [newcomer];
    Take(s1, PushTask(0), s);
  }

  // the worker fetches it
  lemma TaskIsFetched(s: State) returns (t: State)
    requires Reachable(1, 1, [Graceful], s) && s.workers == [newcomer] && s.head == 0 && s.pushed == [Task(0)]
    ensures Reachable(1, 1, [Graceful], t)
    ensures t == Solo(s, newcomer.(pc := PostCheck, runningTask := Some(0))).(head := 1)
  {
    var s1 := Solo(s, newcomer.(pc := LoopCheck));
    Take(s, CheckFirst(0), s1);
    var s2 := Solo(s, newcomer.(pc := AtGuard));
    Take(s1, CheckLoop(0), s2);
    var s3 := Solo(s, newcomer.(pc := InPop));
    Take(s2, TakeGuard(0), s3);
    t := Solo(s, newcomer.(pc := PostCheck, runningTask := Some(0))).(head := 1);
    Take(s3, Pop(0), t);
  }

  // and runs it, and an exception escapes;
  lemma TaskEscapes(s: State) returns (t: State)
    requires Reachable(1, 1, [Graceful], s) && s.pushed == [Task(0)] && s.runLog == []
    requires s.workers == [newcomer.(pc := PostCheck, runningTask := Some(0))]
    ensures Reachable(1, 1, [Graceful], t)
    ensures t == Solo(s, newcomer.(pc := Exiting, runningTask := Some(0), exit := ByEscape)).(runLog := [0])
  {
    var s1 := Solo(s, newcomer.(pc := Dispatch, runningTask := Some(0)));
    Take(s, CheckPost(0), s1);
    var s2 := Solo(s, newcomer.(pc := InRun, runningTask := Some(0))).(runLog := [0]);
    Take(s1, DispatchTask(0), s2);
    t := Solo(s, newcomer.(pc := Exiting, runningTask := Some(0), exit := ByEscape)).(runLog := [0]);
    Take(s2, RunEscapes(0), t);
  }

  // Stop pushes its EndTask,
  lemma StopPushesEnd(s: State, x: Worker) returns (t: State)
    requires Reachable(1, 1, [Graceful], s) && s.pushed == [Task(0)] && s.head == 1 && s.clock == 1 && s.ends == 0
    requires !s.requestStop && s.workers == [x] && x.pc == Exiting && s.stoppers == [Stopper(Graceful, Idle)]
    ensures Reachable(1, 1, [Graceful], t)
    ensures t == s.(requestStop := true, casAt := Some(1), pushed := [Task(0), End], ends := 1,
                    stoppers := [Stopper(Graceful, AtState)])
  {
    var s1 := s.(stoppers := [Stopper(Graceful, AtCas)]);
    Take(s, CallStop(0), s1);
    var s2 := s.(requestStop := true, casAt := Some(1), stoppers := [Stopper(Graceful, PushingEnds(0))]);
    Take(s1, Cas(0), s2);
    t := s2.(pushed := [Task(0), End], ends := 1, stoppers := [Stopper(Graceful, AtState)]);
    assert WakePoppers([x]) == [x];
    Take(s2, PushEnd(0), t);
  }

  // the worker finishes the pool,
  lemma WorkerFinishesPool(s: State, x: Worker) returns (t: State)
    requires Reachable(1, 1, [Graceful], s) && s.poolState == Running && s.stoppedThreadNum == s.finishedWrites == 0
    requires s.workers == [x] && x.pc == Exiting && s.stoppers == [Stopper(Graceful, AtState)]
    ensures Reachable(1, 1, [Graceful], t)
    ensures t == Solo(s, x.(pc := Notifying, rank := 1)).(
                   stoppedThreadNum := 1, poolState := Finished, finishedWrites := 1)
  {
    var s1 := Solo(s, x.(pc := Counted, rank := 1)).(stoppedThreadNum := 1);
    Take(s, CountStopped(0), s1);
    t := Solo(s1, x.(pc := Notifying, rank := 1)).(poolState := Finished, finishedWrites := 1);
    assert WakeStoppers(s1.stoppers) == s1.stoppers;
    Take(s1, WriteFinished(0), t);
  }

  // and Stop returns.
  lemma StopReturns(s: State) returns (t: State)
    requires Reachable(1, 1, [Graceful], s) && s.poolState == Finished && s.stoppers == [Stopper(Graceful, AtState)]
    ensures Reachable(1, 1, [Graceful], t) && t == s.(stoppers := [Stopper(Graceful, Returned)])
  {
    t := s.(stoppers := [Stopper(Graceful, Returned)]);
    Take(s, TestState(0), t);
  }

  /** That happens: with one worker, one client and one caller of Stop, a task lets an exception
      escape, the pool finishes and Stop returns, and the EndTask is still queued. */
  lemma EscapeLeavesEnd(t: State)
    requires t == State(
                    true, Finished, 1, [Task(0), End], 1, [Worker(Notifying, false, Some(0), 1, false, ByEscape, 0)],
                    [Outside], [Stopper(Graceful, Returned)], 1, 1, [0], [], {}, 1, Some(1))
    ensures Reachable(1, 1, [Graceful], t) && t.ends == |t.workers| && t.pushed[t.head..] == [End]
  {
    var s := TaskIsAdded();
    s := TaskIsFetched(s);
    s := TaskEscapes(s);
    s := StopPushesEnd(s, s.workers[0]);
    s := WorkerFinishesPool(s, s.workers[0]);
    s := StopReturns(s);
    assert s == t;
  }

  lemma QueueEnds(t: State)
    requires t.head <= |t.pushed|
    ensures CountEnds(t.pushed[t.head..]) == 0 <==> forall j :: t.head <= j < |t.pushed| ==> t.pushed[j].Task?
  {
    var queue := t.pushed[t.head..];
    NoEndsCounted(queue);
    assert forall j :: t.head <= j < |t.pushed| ==> t.pushed[j] == queue[j - t.head];
    assert forall i :: 0 <= i < |queue| ==> queue[i] == t.pushed[t.head + i];
  }

  lemma EveryoneTookEnd(t: State)
    requires Inv(t) && CountEnds(t.pushed[t.head..]) == 0 && t.ends == |t.workers|
    ensures forall w :: 0 <= w < |t.workers| ==> t.workers[w].tookEnd
  {
    CountEndsSplit(t.pushed, t.head);
    SumAtMost(t.workers, EndTaken);
    forall w | 0 <= w < |t.workers| ensures t.workers[w].tookEnd {
      assert EndTaken(t.workers[w]) == 1;
    }
  }

  // ---------- Conservation ----------

  lemma DropperOf(t: State, i: nat) returns (w: nat)
    requires Inv(t) && i in t.dropLog
    ensures w < |t.workers| && DroppedBy(t.workers[w], i) && t.workers[w].requestCancel
  {
    w :| w < |t.workers| && DroppedBy(t.workers[w], i);
    assert WorkerOk(t, t.workers[w]);
  }

  /** Tasks are conserved, whoever cancels: every accepted occurrence is in exactly one place,
      counted with multiplicity, among the queue, the hands of a worker, the runs and the
      drops; and no two workers ever have the same occurrence. */
  lemma TasksAreConserved(n: nat, clients: nat, kinds: seq<Kind>, t: State, i: nat)
    requires Reachable(n, clients, kinds, t) && i < |t.pushed| && t.pushed[i].Task?
    ensures (if i >= t.head then 1 else 0)
            + Sum(t.workers, Holding(i)) + multiset(t.runLog)[i] + multiset(t.dropLog)[i] == 1
    ensures forall v, w :: 0 <= v < w < |t.workers| && t.workers[v].runningTask == Some(i) ==>
              t.workers[w].runningTask != Some(i)
    ensures t.dropLog != [] ==> exists w: nat :: w < |t.workers| && t.workers[w].requestCancel
    ensures i in t.dropLog ==>
              exists w: nat :: w < |t.workers| && DroppedBy(t.workers[w], i) && t.workers[w].requestCancel
  {
    ReachableInv(n, clients, kinds, t);
    assert Places(t, i) == if i < t.head then 1 else 0;
    forall j | j in t.dropLog
      ensures exists w: nat :: w < |t.workers| && DroppedBy(t.workers[w], j) && t.workers[w].requestCancel
    {
      var w := DropperOf(t, j);
    }
    if t.dropLog != [] {
      var w := DropperOf(t, t.dropLog[0]);
    }
  }

  /** Once its cancel flag is set a worker calls Run at most once more. */
  lemma OneRunAfterCancel(n: nat, clients: nat, kinds: seq<Kind>, t: State, w: nat)
    requires Reachable(n, clients, kinds, t) && w < |t.workers|
    ensures t.workers[w].runsAfterCancel <= 1
    ensures t.workers[w].runsAfterCancel == 1 ==> t.workers[w].requestCancel && !HoldsGuard(t.workers[w].pc)
  {
    ReachableInv(n, clients, kinds, t);
    assert WorkerOk(t, t.workers[w]);
  }

  /** StopNow warns whatever still runs: from the moment it has cancelled the running task of
      worker i until it has joined that worker, the only task that the worker can be running, or
      can still call Run on, is one that has been asked to cancel itself. */
  lemma StopNowWarns(n: nat, clients: nat, kinds: seq<Kind>, t: State, k: nat)
    requires Reachable(n, clients, kinds, t) && k < |t.stoppers|
    requires t.stoppers[k].pc.Joining? || t.stoppers[k].pc.JoinTest? || t.stoppers[k].pc.JoinAsleep?
    ensures var i := t.stoppers[k].pc.i; i < |t.workers| && Warned(t, t.workers[i])
    ensures forall w :: 0 <= w < |t.workers| ==> t.workers[w].requestCancel
  {
    ReachableInv(n, clients, kinds, t);
    assert StopperOk(t, t.stoppers[k]);
  }

  // ---------- Starvation ----------

  /** No worker starves: once the winner of the CAS has pushed its EndTasks, a worker in Pop,
      which holds its task guard, finds the queue non-empty; so it is not asleep there, and its
      next step releases the guard that a StopNow may be waiting for. */
  lemma NoWorkerStarves(n: nat, clients: nat, kinds: seq<Kind>, t: State, w: nat)
    requires Reachable(n, clients, kinds, t) && t.ends == |t.workers| && w < |t.workers| && HoldsGuard(t.workers[w].pc)
    ensures t.head < |t.pushed| && t.workers[w].pc == InPop
    ensures Enabled(t, Pop(w)) && !HoldsGuard(Apply(t, Pop(w)).workers[w].pc)
  {
    ReachableInv(n, clients, kinds, t);
    PopperHasWork(t, w);
  }

  lemma PopperHasWork(t: State, w: nat)
    requires Inv(t) && t.ends == |t.workers| && w < |t.workers| && HoldsGuard(t.workers[w].pc)
    ensures t.head < |t.pushed| && t.workers[w].pc == InPop
  {
    assert WorkerOk(t, t.workers[w]);
    SumAtMost(t.workers, EndTaken);
    assert EndTaken(t.workers[w]) == 0;
    assert t.pushed[..|t.pushed|] == t.pushed;
  }
}
