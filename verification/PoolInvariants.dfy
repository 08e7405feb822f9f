/** What every step of the pool keeps. */
module PoolInvariants {
  import opened Wrappers
  import opened Sums
  import opened PoolProtocol

  predicate HasLeft(pc: WorkerPc) {
    pc == Exiting || pc == Counted || pc == Notifying || pc == Gone
  }

  predicate HasCounted(pc: WorkerPc) {
    pc == Counted || pc == Notifying || pc == Gone
  }

  // Between popping a task and being rid of it.
  predicate Carries(pc: WorkerPc) {
    pc == PostCheck || pc == Dispatch || pc == InRun
  }

  // One worker.
  ghost predicate WorkerOk(s: State, x: Worker) {
    && (Carries(x.pc) ==> x.runningTask.Some?)
    && (x.runningTask.Some? ==> x.runningTask.value < s.head <= |s.pushed|)
    && (x.tookEnd ==> x.runningTask.Some? && s.pushed[x.runningTask.value].End?
                      && (x.pc == PostCheck || x.pc == Dispatch || HasLeft(x.pc)))
    && (!x.tookEnd && x.runningTask.Some? ==> s.pushed[x.runningTask.value].Task?)
    && (x.exit != NotYet <==> HasLeft(x.pc))
    && (x.exit == ByEnd ==> x.tookEnd)
    && (x.exit == ByCancel ==> x.requestCancel)
    && (x.exit == ByEscape ==> !x.tookEnd)
    && (x.rank > 0 <==> HasCounted(x.pc))
    && x.rank <= s.stoppedThreadNum
    && x.runsAfterCancel <= (if x.requestCancel then 1 else 0)
    && (x.pc == LoopCheck || x.pc == InRun || HasLeft(x.pc) || x.runsAfterCancel == 0)
    && (x.pc == PopAsleep ==> s.head == |s.pushed|)
  }

  ghost predicate WorkersInv(s: State) {
    s.head <= |s.pushed| && forall w :: 0 <= w < |s.workers| ==> WorkerOk(s, s.workers[w])
  }

  // No two workers have popped the same occurrence.
  ghost predicate DistinctInv(s: State) {
    forall v, w :: 0 <= v < w < |s.workers| && s.workers[v].runningTask.Some? ==>
      s.workers[v].runningTask != s.workers[w].runningTask
  }

  function CountEnds(xs: seq<Item>): nat {
    if xs == [] then 0 else CountEnds(xs[..|xs| - 1]) + (if xs[|xs| - 1].End? then 1 else 0)
  }

  function EndTaken(x: Worker): int {
    if x.tookEnd then 1 else 0
  }

  // Each EndTask that has been popped was popped by a worker of its own.
  ghost predicate EndsInv(s: State) {
    && CountEnds(s.pushed) == s.ends
    && s.head <= |s.pushed|
    && CountEnds(s.pushed[..s.head]) == Sum(s.workers, EndTaken)
  }

  function IsCounted(x: Worker): int {
    if HasCounted(x.pc) then 1 else 0
  }

  // This worker's increment reached the number of threads, and it has written FINISHED.
  predicate Wrote(s: State, x: Worker) {
    x.rank >= |s.workers| && (x.pc == Notifying || x.pc == Gone)
  }

  ghost predicate RanksInv(s: State) {
    && s.stoppedThreadNum == Sum(s.workers, IsCounted)
    && (forall v, w :: 0 <= v < w < |s.workers| && s.workers[v].rank > 0 ==> s.workers[v].rank != s.workers[w].rank)
    && (s.stoppedThreadNum > 0 ==> exists w :: 0 <= w < |s.workers| && s.workers[w].rank == s.stoppedThreadNum)
    && s.finishedWrites == (if s.poolState == Finished then 1 else 0)
    && (s.poolState == Finished <==> exists w :: 0 <= w < |s.workers| && Wrote(s, s.workers[w]))
  }

  // The worker runs, or will run, only a task that has been asked to cancel itself.
  predicate Warned(s: State, x: Worker) {
    x.requestCancel
    && (x.pc == Dispatch || x.pc == InRun ==> x.runningTask.Some? && x.runningTask.value in s.cancelRequested)
  }

  // One stopper. StopNow has joined the workers below its index.
  ghost predicate StopperOk(s: State, x: Stopper) {
    && (x.pc != Idle && x.pc != AtCas ==> s.requestStop)
    && (x.pc.PushingEnds? ==> x.pc.i == s.ends < |s.workers|)
    && (x.pc.AtState? || x.pc.StateAsleep? ==> x.kind == Graceful)
    && (x.pc.Cancelling? || x.pc.Guarding? || x.pc.Joining? || x.pc.JoinTest? || x.pc.JoinAsleep? ==> x.kind == Now)
    && (x.pc.StateAsleep? ==> s.poolState != Finished)
    && (x.pc.Cancelling? || x.pc.Guarding? || x.pc.Joining? || x.pc.JoinTest? || x.pc.JoinAsleep? ==>
          x.pc.i < |s.workers|)
    && (x.pc.Cancelling? ==> forall w :: 0 <= w < x.pc.i ==> s.workers[w].requestCancel)
    && (x.pc.Guarding? || x.pc.Joining? || x.pc.JoinTest? || x.pc.JoinAsleep? ==>
          && (forall w :: 0 <= w < |s.workers| ==> s.workers[w].requestCancel)
          && (forall w :: 0 <= w < x.pc.i ==> s.workers[w].pc == Gone))
    && (x.pc.Joining? || x.pc.JoinTest? || x.pc.JoinAsleep? ==> Warned(s, s.workers[x.pc.i]))
    && (x.pc.JoinAsleep? ==> s.workers[x.pc.i].pc != Gone)
    && (x.pc.Returned? && x.kind == Graceful ==> s.poolState == Finished)
    && (x.pc.Returned? && x.kind == Now ==> forall w :: 0 <= w < |s.workers| ==> s.workers[w].pc == Gone)
  }

  ghost predicate StoppersInv(s: State) {
    forall k :: 0 <= k < |s.stoppers| ==> StopperOk(s, s.stoppers[k])
  }

  // Only the winner of the CAS pushes EndTasks, one for each worker.
  ghost predicate WinnerInv(s: State) {
    && s.ends <= |s.workers|
    && (!s.requestStop ==> s.ends == 0)
    && (s.requestStop && s.ends < |s.workers| ==> exists k :: 0 <= k < |s.stoppers| && s.stoppers[k].pc.PushingEnds?)
    && (forall j, k :: 0 <= j < k < |s.stoppers| ==> !s.stoppers[j].pc.PushingEnds? || !s.stoppers[k].pc.PushingEnds?)
  }

  // Whoever pushes a task read the stop flag before the CAS.
  predicate Early(s: State, readAt: nat) {
    readAt < s.clock && (s.casAt.Some? ==> readAt < s.casAt.value)
  }

  ghost predicate TimesInv(s: State) {
    && (s.requestStop <==> s.casAt.Some?)
    && (forall c :: 0 <= c < |s.clients| && s.clients[c].Admitted? ==> Early(s, s.clients[c].readAt))
    && (forall i :: 0 <= i < |s.pushed| && s.pushed[i].Task? ==> Early(s, s.pushed[i].readAt))
  }

  function Holding(i: nat): Worker -> int {
    (x: Worker) => if Holds(x) && x.runningTask == Some(i) then 1 else 0
  }

  // Where occurrence i is, counted: in a worker's hands, run, dropped.
  function Places(s: State, i: nat): int {
    Sum(s.workers, Holding(i)) + multiset(s.runLog)[i] + multiset(s.dropLog)[i]
  }

  ghost predicate ConservationInv(s: State) {
    && (forall i: nat :: i < |s.pushed| && s.pushed[i].Task? ==> Places(s, i) == if i < s.head then 1 else 0)
    && LogsInv(s)
  }

  ghost predicate LogsInv(s: State) {
    && s.head <= |s.pushed|
    && (forall i :: i in s.runLog ==> i < s.head && s.pushed[i].Task?)
    && (forall i :: i in s.dropLog ==> i < s.head)
    && (forall i :: i in s.dropLog ==> exists w: nat :: w < |s.workers| && DroppedBy(s.workers[w], i))
  }

  // The worker left on finding its cancel flag set, with occurrence i in its hands.
  predicate DroppedBy(x: Worker, i: nat) {
    x.exit == ByCancel && x.runningTask == Some(i)
  }

  ghost predicate Inv(s: State) {
    && WorkersInv(s) && DistinctInv(s) && EndsInv(s) && RanksInv(s)
    && StoppersInv(s) && WinnerInv(s) && TimesInv(s) && ConservationInv(s)
  }

  predicate IsWorkerStep(e: Step) {
    e.CheckFirst? || e.CheckLoop? || e.TakeGuard? || e.Pop? || e.CheckPost? || e.DispatchTask? || e.RunReturns?
    || e.RunEscapes? || e.CountStopped? || e.WriteFinished? || e.NotifyFinished? || e.SpuriousPop?
  }

  predicate IsEnqueue(e: Step) {
    e.PushTask? || e.PushEnd?
  }

  lemma WorkerStepChange(s: State, e: Step)
    requires Enabled(s, e) && IsWorkerStep(e)
    ensures var ws := Apply(s, e).workers;
            |ws| == |s.workers| && e.w < |ws| && ws == s.workers[e.w := ws[e.w]]
  {}

  lemma EnqueueChange(s: State, e: Step)
    requires Enabled(s, e) && IsEnqueue(e)
    ensures var ws := Apply(s, e).workers; |ws| == |s.workers| && (ws == s.workers || ws == WakePoppers(s.workers))
  {}

  lemma RequestChange(s: State, e: Step)
    requires Enabled(s, e) && !IsWorkerStep(e) && !IsEnqueue(e)
    ensures var ws := Apply(s, e).workers;
            && |ws| == |s.workers|
            && forall w :: 0 <= w < |ws| ==> ws[w] == s.workers[w] || ws[w] == s.workers[w].(requestCancel := true)
  {}

  /** A worker's step changes that worker only; a push wakes sleepers; a request sets a flag. */
  lemma WorkersChange(s: State, e: Step)
    requires Enabled(s, e)
    ensures var ws := Apply(s, e).workers;
            && |ws| == |s.workers|
            && (IsWorkerStep(e) ==> e.w < |ws| && ws == s.workers[e.w := ws[e.w]])
            && (IsEnqueue(e) ==> ws == s.workers || ws == WakePoppers(s.workers))
            && (!IsWorkerStep(e) && !IsEnqueue(e) ==> forall w :: 0 <= w < |ws| ==>
                  ws[w] == s.workers[w] || ws[w] == s.workers[w].(requestCancel := true))
  {
    if IsWorkerStep(e) {
      WorkerStepChange(s, e);
    } else if IsEnqueue(e) {
      EnqueueChange(s, e);
    } else {
      RequestChange(s, e);
    }
  }

  // A measure that neither waking nor requesting cancellation changes.
  ghost predicate Steady(f: Worker -> int) {
    && (forall x: Worker :: x.pc == PopAsleep ==> f(x.(pc := InPop)) == f(x))
    && (forall x: Worker :: f(x.(requestCancel := true)) == f(x))
  }

  lemma SumAfterStep(s: State, e: Step, f: Worker -> int)
    requires Enabled(s, e) && Steady(f)
    ensures var ws := Apply(s, e).workers;
            Sum(ws, f) == Sum(s.workers, f) + if IsWorkerStep(e) then f(ws[e.w]) - f(s.workers[e.w]) else 0
  {
    WorkersChange(s, e);
    var ws := Apply(s, e).workers;
    if IsWorkerStep(e) {
      SumUpdate(s.workers, e.w, ws[e.w], f);
    } else {
      SumSame(s.workers, ws, f);
    }
  }

  // The shared data that WorkerOk looks at only grows.
  lemma SharedGrows(s: State, e: Step)
    requires s.head <= |s.pushed| && Enabled(s, e)
    ensures var t := Apply(s, e);
            && s.pushed <= t.pushed && s.head <= t.head <= |t.pushed| && s.stoppedThreadNum <= t.stoppedThreadNum
            && (!IsEnqueue(e) ==> t.pushed == s.pushed)
            && (!e.Pop? ==> t.head == s.head)
            && (e.Pop? ==> t.head == if s.head < |s.pushed| then s.head + 1 else s.head)
  {}

  lemma OtherWorkerOk(s: State, e: Step, w: nat)
    requires WorkersInv(s) && Enabled(s, e) && w < |s.workers| && !(IsWorkerStep(e) && e.w == w)
    ensures w < |Apply(s, e).workers| && WorkerOk(Apply(s, e), Apply(s, e).workers[w])
  {
    assert WorkerOk(s, s.workers[w]);
    SharedGrows(s, e);
    WorkersChange(s, e);
  }

  lemma CheckingWorkerOk(s: State, e: Step)
    requires WorkersInv(s) && Enabled(s, e) && (e.CheckFirst? || e.CheckLoop? || e.CheckPost?)
    ensures e.w < |Apply(s, e).workers| && WorkerOk(Apply(s, e), Apply(s, e).workers[e.w])
  {
    assert WorkerOk(s, s.workers[e.w]);
  }

  lemma TakingWorkerOk(s: State, e: Step)
    requires WorkersInv(s) && Enabled(s, e) && (e.Pop? || e.DispatchTask?)
    ensures e.w < |Apply(s, e).workers| && WorkerOk(Apply(s, e), Apply(s, e).workers[e.w])
  {
    assert WorkerOk(s, s.workers[e.w]);
  }

  lemma LeavingWorkerOk(s: State, e: Step)
    requires WorkersInv(s) && Enabled(s, e)
    requires e.RunEscapes? || e.CountStopped? || e.WriteFinished? || e.NotifyFinished?
    ensures e.w < |Apply(s, e).workers| && WorkerOk(Apply(s, e), Apply(s, e).workers[e.w])
  {
    assert WorkerOk(s, s.workers[e.w]);
  }

  lemma MovingWorkerOk(s: State, e: Step)
    requires WorkersInv(s) && Enabled(s, e) && IsWorkerStep(e)
    ensures e.w < |Apply(s, e).workers| && WorkerOk(Apply(s, e), Apply(s, e).workers[e.w])
  {
    if e.CheckFirst? || e.CheckLoop? || e.CheckPost? {
      CheckingWorkerOk(s, e);
    } else if e.Pop? || e.DispatchTask? {
      TakingWorkerOk(s, e);
    } else if e.RunEscapes? || e.CountStopped? || e.WriteFinished? || e.NotifyFinished? {
      LeavingWorkerOk(s, e);
    } else {
      assert WorkerOk(s, s.workers[e.w]);
    }
  }

  lemma StepKeepsWorkersInv(s: State, e: Step)
    requires WorkersInv(s) && Enabled(s, e)
    ensures WorkersInv(Apply(s, e))
  {
    var t := Apply(s, e);
    SharedGrows(s, e);
    WorkersChange(s, e);
    forall w: nat | w < |t.workers| ensures WorkerOk(t, t.workers[w]) {
      if IsWorkerStep(e) && e.w == w {
        MovingWorkerOk(s, e);
      } else {
        OtherWorkerOk(s, e, w);
      }
    }
  }

  lemma OtherStepKeepsRunningTask(s: State, e: Step, w: nat)
    requires Enabled(s, e) && w < |s.workers| && !(e.Pop? && e.w == w)
    ensures w < |Apply(s, e).workers| && Apply(s, e).workers[w].runningTask == s.workers[w].runningTask
  {
    WorkersChange(s, e);
  }

  lemma StepKeepsDistinctInv(s: State, e: Step)
    requires DistinctInv(s) && WorkersInv(s) && Enabled(s, e)
    ensures DistinctInv(Apply(s, e))
  {
    var t := Apply(s, e);
    WorkersChange(s, e);
    forall w: nat | w < |s.workers| && !(e.Pop? && e.w == w)
      ensures t.workers[w].runningTask == s.workers[w].runningTask
      ensures s.workers[w].runningTask != Some(s.head)
    {
      OtherStepKeepsRunningTask(s, e, w);
      assert WorkerOk(s, s.workers[w]);
    }
  }

  lemma CountEndsAppend(xs: seq<Item>, x: Item)
    ensures CountEnds(xs + [x]) == CountEnds(xs) + (if x.End? then 1 else 0)
  {
    assert (xs + [x])[..|xs|] == xs;
  }

  lemma PushKeepsEndsInv(s: State, e: Step)
    requires EndsInv(s) && Enabled(s, e) && IsEnqueue(e)
    ensures EndsInv(Apply(s, e))
  {
    var t := Apply(s, e);
    SumAfterStep(s, e, EndTaken);
    var x := if e.PushEnd? then End else Task(s.clients[e.c].readAt);
    CountEndsAppend(s.pushed, x);
    assert t.pushed == s.pushed + [x];
    assert t.pushed[..t.head] == s.pushed[..s.head];
  }

  lemma PopKeepsEndsInv(s: State, w: nat)
    requires EndsInv(s) && Enabled(s, Pop(w)) && !s.workers[w].tookEnd
    ensures EndsInv(Apply(s, Pop(w)))
  {
    SumUpdate(s.workers, w, Apply(s, Pop(w)).workers[w], EndTaken);
    if s.head < |s.pushed| {
      CountEndsAppend(s.pushed[..s.head], s.pushed[s.head]);
      assert s.pushed[..s.head + 1] == s.pushed[..s.head] + [s.pushed[s.head]];
    }
  }

  // The other steps leave the queue alone and nobody's hands are touched.
  lemma OtherStepKeepsQueue(s: State, e: Step)
    requires Enabled(s, e) && !e.Pop? && !IsEnqueue(e)
    ensures var t := Apply(s, e);
            && t.pushed == s.pushed && t.head == s.head && t.ends == s.ends
            && (IsWorkerStep(e) ==> e.w < |t.workers| && t.workers[e.w].tookEnd == s.workers[e.w].tookEnd)
  {}

  lemma StepKeepsEndsInv(s: State, e: Step)
    requires EndsInv(s) && WorkersInv(s) && Enabled(s, e)
    ensures EndsInv(Apply(s, e))
  {
    if IsEnqueue(e) {
      PushKeepsEndsInv(s, e);
    } else if e.Pop? {
      assert WorkerOk(s, s.workers[e.w]);
      PopKeepsEndsInv(s, e.w);
    } else {
      OtherStepKeepsQueue(s, e);
      SumAfterStep(s, e, EndTaken);
    }
  }

  lemma {:induction false} SumAtMost(ws: seq<Worker>, f: Worker -> int)
    requires forall x :: 0 <= f(x) <= 1
    ensures 0 <= Sum(ws, f) <= |ws|
    ensures Sum(ws, f) == |ws| ==> forall w :: 0 <= w < |ws| ==> f(ws[w]) == 1
  {
    if ws != [] {
      SumAtMost(ws[1..], f);
    }
  }

  // Steps other than the increment and the write leave ranks and the pool state alone.
  lemma OtherStepKeepsPoolState(s: State, e: Step)
    requires Enabled(s, e) && !e.WriteFinished? && !e.CountStopped?
    ensures var t := Apply(s, e);
            && t.stoppedThreadNum == s.stoppedThreadNum
            && t.poolState == s.poolState && t.finishedWrites == s.finishedWrites
  {}

  lemma MoverKeepsRank(s: State, e: Step)
    requires Enabled(s, e) && IsWorkerStep(e) && !e.WriteFinished? && !e.CountStopped?
    ensures e.w < |Apply(s, e).workers| == |s.workers|
    ensures SameRank(s, s.workers[e.w], Apply(s, e), Apply(s, e).workers[e.w])
  {}

  lemma OtherStepKeepsRank(s: State, e: Step, w: nat)
    requires Enabled(s, e) && !e.WriteFinished? && !e.CountStopped? && w < |s.workers|
    ensures w < |Apply(s, e).workers| == |s.workers| && SameRank(s, s.workers[w], Apply(s, e), Apply(s, e).workers[w])
  {
    WorkersChange(s, e);
    if IsWorkerStep(e) {
      MoverKeepsRank(s, e);
    }
  }

  ghost predicate SameRank(s: State, x: Worker, t: State, y: Worker) {
    x.rank == y.rank && IsCounted(x) == IsCounted(y) && (Wrote(s, x) <==> Wrote(t, y))
  }

  lemma SameRanksKeepInv(s: State, t: State)
    requires RanksInv(s) && |t.workers| == |s.workers|
    requires t.stoppedThreadNum == s.stoppedThreadNum
    requires t.poolState == s.poolState && t.finishedWrites == s.finishedWrites
    requires forall w :: 0 <= w < |s.workers| ==> SameRank(s, s.workers[w], t, t.workers[w])
    ensures RanksInv(t)
  {
    SumSame(s.workers, t.workers, IsCounted);
    if s.stoppedThreadNum > 0 {
      var w :| 0 <= w < |s.workers| && s.workers[w].rank == s.stoppedThreadNum;
      assert SameRank(s, s.workers[w], t, t.workers[w]);
    }
    if s.poolState == Finished {
      var w :| 0 <= w < |s.workers| && Wrote(s, s.workers[w]);
      assert SameRank(s, s.workers[w], t, t.workers[w]);
    }
  }

  lemma RanksAreBounded(s: State)
    requires RanksInv(s) && WorkersInv(s)
    ensures s.stoppedThreadNum <= |s.workers|
    ensures forall w :: 0 <= w < |s.workers| ==> s.workers[w].rank <= s.stoppedThreadNum
  {
    SumAtMost(s.workers, IsCounted);
    forall w | 0 <= w < |s.workers| ensures s.workers[w].rank <= s.stoppedThreadNum {
      assert WorkerOk(s, s.workers[w]);
    }
  }

  lemma CountChange(s: State, w: nat)
    requires Enabled(s, CountStopped(w))
    ensures var t := Apply(s, CountStopped(w));
            && t.workers == s.workers[w := s.workers[w].(pc := Counted, rank := s.stoppedThreadNum + 1)]
            && t.stoppedThreadNum == s.stoppedThreadNum + 1
            && t.poolState == s.poolState && t.finishedWrites == s.finishedWrites
  {}

  // The next rank, given to a worker that has none, keeps ranks apart, and writes nothing.
  ghost predicate NextRankGiven(s: State, w: nat, t: State) {
    && WorkerAt(s, w, Exiting)
    && t.workers == s.workers[w := s.workers[w].(pc := Counted, rank := s.stoppedThreadNum + 1)]
    && t.stoppedThreadNum == s.stoppedThreadNum + 1
  }

  lemma NextRankIsDistinct(s: State, w: nat, t: State)
    requires RanksInv(s) && WorkersInv(s) && NextRankGiven(s, w, t)
    ensures forall u, v :: 0 <= u < v < |t.workers| && t.workers[u].rank > 0 ==> t.workers[u].rank != t.workers[v].rank
  {
    RanksAreBounded(s);
    forall v: nat | v < |s.workers| && v != w ensures t.workers[v] == s.workers[v] {}
  }

  lemma NextRankWritesNothing(s: State, w: nat, t: State)
    requires NextRankGiven(s, w, t)
    ensures forall v :: 0 <= v < |s.workers| ==> (Wrote(t, t.workers[v]) <==> Wrote(s, s.workers[v]))
  {}

  lemma NextRankKeepsInv(s: State, w: nat, t: State)
    requires RanksInv(s) && WorkersInv(s) && NextRankGiven(s, w, t)
    requires t.poolState == s.poolState && t.finishedWrites == s.finishedWrites
    ensures RanksInv(t)
  {
    SumUpdate(s.workers, w, t.workers[w], IsCounted);
    NextRankIsDistinct(s, w, t);
    NextRankWritesNothing(s, w, t);
    assert t.workers[w].rank == t.stoppedThreadNum;
  }

  lemma CountKeepsRanks(s: State, w: nat)
    requires RanksInv(s) && WorkersInv(s) && Enabled(s, CountStopped(w))
    ensures RanksInv(Apply(s, CountStopped(w)))
  {
    CountChange(s, w);
    NextRankKeepsInv(s, w, Apply(s, CountStopped(w)));
  }

  lemma PassByKeepsRanks(s: State, w: nat)
    requires RanksInv(s) && Enabled(s, WriteFinished(w)) && s.workers[w].rank < |s.workers|
    ensures RanksInv(Apply(s, WriteFinished(w)))
  {
    var t := Apply(s, WriteFinished(w));
    forall v | 0 <= v < |s.workers| ensures SameRank(s, s.workers[v], t, t.workers[v]) {}
    SameRanksKeepInv(s, t);
  }

  lemma FinishKeepsRanks(s: State, w: nat)
    requires RanksInv(s) && WorkersInv(s) && Enabled(s, WriteFinished(w)) && s.workers[w].rank >= |s.workers|
    ensures RanksInv(Apply(s, WriteFinished(w)))
  {
    var t := Apply(s, WriteFinished(w));
    SumUpdate(s.workers, w, t.workers[w], IsCounted);
    LastOneWritesOnce(s, w);
    assert Wrote(t, t.workers[w]);
    forall v | 0 <= v < |s.workers| ensures t.workers[v].rank == s.workers[v].rank {}
    if s.stoppedThreadNum > 0 {
      var v :| 0 <= v < |s.workers| && s.workers[v].rank == s.stoppedThreadNum;
      assert t.workers[v].rank == t.stoppedThreadNum;
    }
  }

  // The increment returns the number of threads to one worker only.
  lemma LastOneWritesOnce(s: State, w: nat)
    requires RanksInv(s) && WorkersInv(s) && WorkerAt(s, w, Counted) && s.workers[w].rank >= |s.workers|
    ensures s.poolState != Finished
  {
    RanksAreBounded(s);
    forall v: nat | v < |s.workers| ensures !Wrote(s, s.workers[v]) {
      assert v != w ==> s.workers[v].rank != s.workers[w].rank;
    }
  }

  lemma StepKeepsRanksInv(s: State, e: Step)
    requires RanksInv(s) && WorkersInv(s) && Enabled(s, e)
    ensures RanksInv(Apply(s, e))
  {
    if e.WriteFinished? {
      if s.workers[e.w].rank >= |s.workers| {
        FinishKeepsRanks(s, e.w);
      } else {
        PassByKeepsRanks(s, e.w);
      }
    } else if e.CountStopped? {
      CountKeepsRanks(s, e.w);
    } else {
      OtherStepKeepsPoolState(s, e);
      WorkersChange(s, e);
      forall w: nat | w < |s.workers| ensures SameRank(s, s.workers[w], Apply(s, e), Apply(s, e).workers[w]) {
        OtherStepKeepsRank(s, e, w);
      }
      SameRanksKeepInv(s, Apply(s, e));
    }
  }

  lemma ClientStepKeepsTimesInv(s: State, e: Step)
    requires TimesInv(s) && Enabled(s, e) && (e.ReadStop? || IsEnqueue(e) || e.Cas?)
    ensures TimesInv(Apply(s, e))
  {}

  lemma OtherStepKeepsTimes(s: State, e: Step)
    requires Enabled(s, e) && !e.ReadStop? && !IsEnqueue(e) && !e.Cas?
    ensures var t := Apply(s, e);
            && t.requestStop == s.requestStop && t.casAt == s.casAt && t.clients == s.clients
            && t.pushed == s.pushed && t.clock == s.clock
  {}

  lemma StepKeepsTimesInv(s: State, e: Step)
    requires TimesInv(s) && Enabled(s, e)
    ensures TimesInv(Apply(s, e))
  {
    if e.ReadStop? || IsEnqueue(e) || e.Cas? {
      ClientStepKeepsTimesInv(s, e);
    } else {
      OtherStepKeepsTimes(s, e);
    }
  }

  lemma PushEndKeepsWinner(s: State, k: nat)
    requires WinnerInv(s) && StoppersInv(s) && Enabled(s, PushEnd(k))
    ensures WinnerInv(Apply(s, PushEnd(k)))
  {
    var t := Apply(s, PushEnd(k));
    assert StopperOk(s, s.stoppers[k]);
    if t.ends < |t.workers| {
      assert t.stoppers[k].pc.PushingEnds?;
    }
  }

  lemma CasKeepsWinner(s: State, k: nat)
    requires WinnerInv(s) && StoppersInv(s) && Enabled(s, Cas(k))
    ensures WinnerInv(Apply(s, Cas(k)))
  {
    var t := Apply(s, Cas(k));
    if !s.requestStop {
      forall j | 0 <= j < |s.stoppers| ensures !s.stoppers[j].pc.PushingEnds? {
        assert StopperOk(s, s.stoppers[j]);
      }
      if t.ends < |t.workers| {
        assert t.stoppers[k].pc.PushingEnds?;
      }
    } else if t.ends < |t.workers| {
      var j :| 0 <= j < |s.stoppers| && s.stoppers[j].pc.PushingEnds?;
      assert t.stoppers[j].pc.PushingEnds?;
    }
  }

  // The other steps neither start nor end a loop of pushes.
  lemma OtherStepKeepsPushing(s: State, e: Step)
    requires Enabled(s, e) && !e.Cas? && !e.PushEnd?
    ensures var t := Apply(s, e);
            && |t.stoppers| == |s.stoppers| && t.ends == s.ends && |t.workers| == |s.workers|
            && t.requestStop == s.requestStop
            && forall k :: 0 <= k < |s.stoppers| ==> (t.stoppers[k].pc.PushingEnds? <==> s.stoppers[k].pc.PushingEnds?)
  {}

  lemma StepKeepsWinnerInv(s: State, e: Step)
    requires WinnerInv(s) && StoppersInv(s) && Enabled(s, e)
    ensures WinnerInv(Apply(s, e))
  {
    if e.Cas? {
      CasKeepsWinner(s, e.k);
    } else if e.PushEnd? {
      PushEndKeepsWinner(s, e.k);
    } else {
      OtherStepKeepsPushing(s, e);
      if s.requestStop && s.ends < |s.workers| {
        var k :| 0 <= k < |s.stoppers| && s.stoppers[k].pc.PushingEnds?;
        assert Apply(s, e).stoppers[k].pc.PushingEnds?;
      }
    }
  }

  predicate IsStopperStep(e: Step) {
    e.CallStop? || e.Cas? || e.PushEnd? || e.TestState? || e.CancelFlag? || e.CancelRunning? || e.JoinFlag?
    || e.TestGone? || e.SpuriousStop?
  }

  // Requests and ends are never taken back.
  lemma PoolOnlyAdvances(s: State, e: Step)
    requires Enabled(s, e)
    ensures var t := Apply(s, e);
            && |t.workers| == |s.workers| && |t.stoppers| == |s.stoppers|
            && (s.requestStop ==> t.requestStop) && (s.poolState == Finished ==> t.poolState == Finished)
            && (!e.PushEnd? ==> t.ends == s.ends)
            && (!e.WriteFinished? ==> t.poolState == s.poolState)
  {}

  lemma WorkerOnlyAdvances(s: State, e: Step, w: nat)
    requires Enabled(s, e) && w < |s.workers|
    ensures var t := Apply(s, e);
            && w < |t.workers|
            && (s.workers[w].requestCancel ==> t.workers[w].requestCancel)
            && (s.workers[w].pc == Gone ==> t.workers[w].pc == Gone)
            && (!e.NotifyFinished? ==> t.workers[w].pc == Gone ==> s.workers[w].pc == Gone)
  {
    WorkersChange(s, e);
  }

  lemma MoverStaysWarned(s: State, e: Step)
    requires Enabled(s, e) && IsWorkerStep(e) && Warned(s, s.workers[e.w])
    ensures e.w < |Apply(s, e).workers| && Warned(s, Apply(s, e).workers[e.w])
  {}

  lemma RequestsStay(s: State, e: Step)
    requires Enabled(s, e)
    ensures s.cancelRequested <= Apply(s, e).cancelRequested
  {}

  /** No step gives a warned worker a task that was not asked to cancel itself: it finds its cancel
      flag set at the check that follows a pop. */
  lemma WarnedStays(s: State, e: Step, w: nat)
    requires Enabled(s, e) && w < |s.workers| && Warned(s, s.workers[w])
    ensures w < |Apply(s, e).workers| && Warned(Apply(s, e), Apply(s, e).workers[w])
  {
    WorkersChange(s, e);
    RequestsStay(s, e);
    if IsWorkerStep(e) && e.w == w {
      MoverStaysWarned(s, e);
    }
  }

  // The two steps that wake a stopper.
  lemma FinishingChange(s: State, w: nat)
    requires Enabled(s, WriteFinished(w))
    ensures var t := Apply(s, WriteFinished(w));
            && t.workers == s.workers[w := s.workers[w].(pc := Notifying)]
            && t.requestStop == s.requestStop && t.ends == s.ends && t.cancelRequested == s.cancelRequested
            && (t.stoppers == WakeStoppers(s.stoppers) || t.stoppers == s.stoppers)
            && (t.poolState == s.poolState || t.poolState == Finished)
            && (s.requestStop && t.poolState != s.poolState ==> t.stoppers == WakeStoppers(s.stoppers))
  {}

  lemma FinishingKeepsStopper(s: State, w: nat, k: nat)
    requires StoppersInv(s) && Enabled(s, WriteFinished(w)) && k < |s.stoppers|
    ensures var t := Apply(s, WriteFinished(w)); k < |t.stoppers| && StopperOk(t, t.stoppers[k])
  {
    var t := Apply(s, WriteFinished(w));
    assert StopperOk(s, s.stoppers[k]);
    FinishingChange(s, w);
    forall v: nat | v < |s.workers|
      ensures t.workers[v].requestCancel == s.workers[v].requestCancel
      ensures s.workers[v].pc == Gone <==> t.workers[v].pc == Gone
      ensures Warned(s, s.workers[v]) ==> Warned(t, t.workers[v])
    {}
  }

  lemma LeavingKeepsStopper(s: State, w: nat, k: nat)
    requires StoppersInv(s) && Enabled(s, NotifyFinished(w)) && k < |s.stoppers|
    ensures var t := Apply(s, NotifyFinished(w)); k < |t.stoppers| && StopperOk(t, t.stoppers[k])
  {
    assert StopperOk(s, s.stoppers[k]);
  }

  lemma OtherStopperStays(s: State, e: Step, k: nat)
    requires Enabled(s, e) && k < |s.stoppers| && !(IsStopperStep(e) && e.k == k)
    requires !e.WriteFinished? && !e.NotifyFinished?
    ensures k < |Apply(s, e).stoppers| && Apply(s, e).stoppers[k] == s.stoppers[k]
  {}

  lemma OtherStopperOk(s: State, e: Step, k: nat)
    requires StoppersInv(s) && WinnerInv(s) && Enabled(s, e) && k < |s.stoppers| && !(IsStopperStep(e) && e.k == k)
    ensures k < |Apply(s, e).stoppers| && StopperOk(Apply(s, e), Apply(s, e).stoppers[k])
  {
    assert StopperOk(s, s.stoppers[k]);
    if e.WriteFinished? {
      FinishingKeepsStopper(s, e.w, k);
    } else if e.NotifyFinished? {
      LeavingKeepsStopper(s, e.w, k);
    } else {
      OtherStopperStays(s, e, k);
      PoolOnlyAdvances(s, e);
      forall w: nat | w < |s.workers|
        ensures s.workers[w].requestCancel ==> Apply(s, e).workers[w].requestCancel
        ensures s.workers[w].pc == Gone <==> Apply(s, e).workers[w].pc == Gone
        ensures Warned(s, s.workers[w]) ==> Warned(Apply(s, e), Apply(s, e).workers[w])
      {
        WorkerOnlyAdvances(s, e, w);
        if Warned(s, s.workers[w]) {
          WarnedStays(s, e, w);
        }
      }
      StopperStaysOk(s, Apply(s, e), s.stoppers[k]);
    }
  }

  lemma StopperStaysOk(s: State, t: State, x: Stopper)
    requires StopperOk(s, x) && |t.workers| == |s.workers|
    requires (s.requestStop ==> t.requestStop) && s.poolState == t.poolState
    requires x.pc.PushingEnds? ==> s.ends == t.ends
    requires forall w :: 0 <= w < |s.workers| && s.workers[w].requestCancel ==> t.workers[w].requestCancel
    requires forall w :: 0 <= w < |s.workers| ==> (s.workers[w].pc == Gone <==> t.workers[w].pc == Gone)
    requires forall w :: 0 <= w < |s.workers| && Warned(s, s.workers[w]) ==> Warned(t, t.workers[w])
    ensures StopperOk(t, x)
  {}

  lemma RequestingStopperOk(s: State, e: Step)
    requires StoppersInv(s) && WorkersInv(s) && Enabled(s, e) && (e.CancelFlag? || e.CancelRunning? || e.JoinFlag?)
    ensures e.k < |Apply(s, e).stoppers| && StopperOk(Apply(s, e), Apply(s, e).stoppers[e.k])
  {
    assert StopperOk(s, s.stoppers[e.k]);
    assert WorkerOk(s, s.workers[s.stoppers[e.k].pc.i]);
  }

  lemma StoppingStopperOk(s: State, e: Step)
    requires StoppersInv(s) && WinnerInv(s) && Enabled(s, e) && (e.CallStop? || e.Cas? || e.PushEnd?)
    ensures e.k < |Apply(s, e).stoppers| && StopperOk(Apply(s, e), Apply(s, e).stoppers[e.k])
  {
    assert StopperOk(s, s.stoppers[e.k]);
  }

  lemma WaitingStopperOk(s: State, e: Step)
    requires StoppersInv(s) && Enabled(s, e) && (e.TestState? || e.TestGone? || e.SpuriousStop?)
    ensures e.k < |Apply(s, e).stoppers| && StopperOk(Apply(s, e), Apply(s, e).stoppers[e.k])
  {
    assert StopperOk(s, s.stoppers[e.k]);
  }

  lemma StepKeepsStoppersInv(s: State, e: Step)
    requires StoppersInv(s) && WinnerInv(s) && WorkersInv(s) && Enabled(s, e)
    ensures StoppersInv(Apply(s, e))
  {
    PoolOnlyAdvances(s, e);
    forall k: nat | k < |s.stoppers| ensures StopperOk(Apply(s, e), Apply(s, e).stoppers[k]) {
      if !IsStopperStep(e) || e.k != k {
        OtherStopperOk(s, e, k);
      } else if e.CancelFlag? || e.CancelRunning? || e.JoinFlag? {
        RequestingStopperOk(s, e);
      } else if e.CallStop? || e.Cas? || e.PushEnd? {
        StoppingStopperOk(s, e);
      } else {
        WaitingStopperOk(s, e);
      }
    }
  }

  // How a step moves occurrence i between a worker's hands and the two logs.
  lemma HandOverKeepsPlaces(s: State, e: Step, i: nat)
    requires WorkersInv(s) && Enabled(s, e) && (e.CheckPost? || e.DispatchTask?)
    requires i < |s.pushed| && s.pushed[i].Task?
    ensures Places(Apply(s, e), i) == Places(s, i)
  {
    SumUpdate(s.workers, e.w, Apply(s, e).workers[e.w], Holding(i));
    assert WorkerOk(s, s.workers[e.w]);
  }

  lemma OtherStepKeepsLogs(s: State, e: Step)
    requires Enabled(s, e) && !e.CheckPost? && !e.DispatchTask?
    ensures Apply(s, e).runLog == s.runLog && Apply(s, e).dropLog == s.dropLog
  {}

  lemma OtherStepKeepsHands(s: State, e: Step, i: nat)
    requires Enabled(s, e) && !e.Pop? && !e.CheckPost? && !e.DispatchTask? && IsWorkerStep(e)
    ensures e.w < |Apply(s, e).workers| && Holding(i)(Apply(s, e).workers[e.w]) == Holding(i)(s.workers[e.w])
  {}

  lemma PopMovesOne(s: State, w: nat, i: nat)
    requires Enabled(s, Pop(w)) && s.head <= |s.pushed|
    ensures Places(Apply(s, Pop(w)), i) == Places(s, i) + if i == s.head < |s.pushed| then 1 else 0
  {
    SumUpdate(s.workers, w, Apply(s, Pop(w)).workers[w], Holding(i));
  }

  lemma PlacesAfterStep(s: State, e: Step, i: nat)
    requires WorkersInv(s) && Enabled(s, e) && i < |s.pushed| && s.pushed[i].Task?
    ensures Places(Apply(s, e), i) == Places(s, i) + if e.Pop? && i == s.head then 1 else 0
  {
    if e.Pop? {
      PopMovesOne(s, e.w, i);
    } else if e.CheckPost? || e.DispatchTask? {
      HandOverKeepsPlaces(s, e, i);
    } else {
      SumAfterStep(s, e, Holding(i));
      OtherStepKeepsLogs(s, e);
      if IsWorkerStep(e) {
        OtherStepKeepsHands(s, e, i);
      }
    }
  }

  // A task that has just been pushed is in nobody's hands and in no log.
  lemma NewTaskHasNoPlace(s: State, i: nat)
    requires WorkersInv(s) && i >= s.head && LogsInv(s)
    ensures Places(s, i) == 0
  {
    forall w | 0 <= w < |s.workers| ensures Holding(i)(s.workers[w]) == 0 {
      assert WorkerOk(s, s.workers[w]);
    }
    SumZero(s.workers, Holding(i));
    assert i !in s.runLog && i !in s.dropLog;
  }

  lemma HandOverKeepsLogs(s: State, e: Step)
    requires ConservationInv(s) && WorkersInv(s) && Enabled(s, e) && (e.CheckPost? || e.DispatchTask?)
    ensures var t := Apply(s, e);
            && (forall i :: i in t.runLog ==> i < t.head && t.pushed[i].Task?)
            && (forall i :: i in t.dropLog ==> i < t.head)
            && e.w < |t.workers|
            && (forall i :: i in t.dropLog ==> i in s.dropLog || DroppedBy(t.workers[e.w], i))
  {
    assert WorkerOk(s, s.workers[e.w]);
  }

  // Whoever has left keeps what it had.
  lemma DropperStays(s: State, e: Step, w: nat, i: nat)
    requires WorkersInv(s) && Enabled(s, e) && w < |s.workers| && DroppedBy(s.workers[w], i)
    ensures w < |Apply(s, e).workers| && DroppedBy(Apply(s, e).workers[w], i)
  {
    assert WorkerOk(s, s.workers[w]);
    WorkersChange(s, e);
    if IsWorkerStep(e) && e.w == w {
      LeaverKeepsRecord(s, e);
    }
  }

  lemma LeaverKeepsRecord(s: State, e: Step)
    requires Enabled(s, e) && IsWorkerStep(e) && HasLeft(s.workers[e.w].pc)
    ensures var y := Apply(s, e).workers[e.w];
            y.exit == s.workers[e.w].exit && y.runningTask == s.workers[e.w].runningTask
  {}

  lemma StepKeepsLogs(s: State, e: Step)
    requires ConservationInv(s) && WorkersInv(s) && Enabled(s, e)
    ensures LogsInv(Apply(s, e))
  {
    var t := Apply(s, e);
    SharedGrows(s, e);
    WorkersChange(s, e);
    if e.CheckPost? || e.DispatchTask? {
      HandOverKeepsLogs(s, e);
    } else {
      OtherStepKeepsLogs(s, e);
    }
    forall i | i in t.dropLog ensures exists w: nat :: w < |t.workers| && DroppedBy(t.workers[w], i) {
      if i in s.dropLog {
        var w: nat :| w < |s.workers| && DroppedBy(s.workers[w], i);
        DropperStays(s, e, w, i);
      } else {
        assert DroppedBy(t.workers[e.w], i);
      }
    }
  }

  lemma StepKeepsConservationInv(s: State, e: Step)
    requires ConservationInv(s) && WorkersInv(s) && Enabled(s, e)
    ensures ConservationInv(Apply(s, e))
  {
    var t := Apply(s, e);
    StepKeepsLogs(s, e);
    StepKeepsWorkersInv(s, e);
    SharedGrows(s, e);
    forall i: nat | i < |t.pushed| && t.pushed[i].Task? ensures Places(t, i) == if i < t.head then 1 else 0 {
      if i < |s.pushed| {
        PlacesAfterStep(s, e, i);
      } else {
        NewTaskHasNoPlace(t, i);
      }
    }
  }

  lemma StepKeepsInv(s: State, e: Step)
    requires Inv(s) && Enabled(s, e)
    ensures Inv(Apply(s, e))
  {
    StepKeepsWorkersInv(s, e);
    StepKeepsDistinctInv(s, e);
    StepKeepsEndsInv(s, e);
    StepKeepsRanksInv(s, e);
    StepKeepsStoppersInv(s, e);
    StepKeepsWinnerInv(s, e);
    StepKeepsTimesInv(s, e);
    StepKeepsConservationInv(s, e);
  }

  lemma InitialInv(workers: nat, clients: nat, kinds: seq<Kind>)
    ensures Inv(Initial(workers, clients, kinds))
  {
    var s := Initial(workers, clients, kinds);
    SumZero(s.workers, EndTaken);
    SumZero(s.workers, IsCounted);
  }
}
