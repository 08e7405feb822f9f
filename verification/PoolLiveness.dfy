/**
 Stopping the pool cannot get stuck: while a stopper has not returned, some worker or stopper can
 move, and every such move uses something up. So does every push of a client, and once the stop
 flag is set clients are given nothing more to push.
 */
module PoolLiveness {
  import opened Sums
  import opened PoolProtocol
  import opened PoolInvariants
  import opened PoolTheorems

  // The moves of workers and of stoppers under way. Returning from a task is one: user tasks are
  // taken to return. New calls, client steps and spurious wakeups are not.
  predicate Productive(e: Step) {
    (IsWorkerStep(e) && !e.SpuriousPop?) || (IsStopperStep(e) && !e.CallStop? && !e.SpuriousStop?)
  }

  ghost predicate CanMove(t: State) {
    exists e :: Enabled(t, e) && Productive(e)
  }

  // A stop call under way.
  predicate Underway(pc: StopperPc) {
    !pc.Idle? && !pc.Returned?
  }

  lemma WorkerCanMove(t: State, w: nat)
    requires Inv(t) && w < |t.workers| && t.workers[w].pc != PopAsleep && t.workers[w].pc != Gone
    ensures CanMove(t)
  {
    assert WorkerOk(t, t.workers[w]);
    var e := match t.workers[w].pc
      case FirstCheck => CheckFirst(w)
      case LoopCheck => CheckLoop(w)
      case AtGuard => TakeGuard(w)
      case InPop => Pop(w)
      case PostCheck => CheckPost(w)
      case Dispatch => DispatchTask(w)
      case InRun => RunReturns(w)
      case Exiting => CountStopped(w)
      case Counted => WriteFinished(w)
      case _ => NotifyFinished(w);
    assert Enabled(t, e) && Productive(e);
  }

  // A worker asleep in Pop has a winner still pushing EndTasks behind it.
  lemma SleepingWorkerIsServed(t: State, w: nat)
    requires Inv(t) && t.requestStop && w < |t.workers| && t.workers[w].pc == PopAsleep
    ensures CanMove(t)
  {
    if t.ends == |t.workers| {
      PopperHasWork(t, w);
    }
    var k :| 0 <= k < |t.stoppers| && t.stoppers[k].pc.PushingEnds?;
    assert Enabled(t, PushEnd(k));
  }

  lemma LiveWorkerCanMove(t: State, w: nat)
    requires Inv(t) && t.requestStop && w < |t.workers| && t.workers[w].pc != Gone
    ensures CanMove(t)
  {
    if t.workers[w].pc == PopAsleep {
      SleepingWorkerIsServed(t, w);
    } else {
      WorkerCanMove(t, w);
    }
  }

  lemma UnfinishedPoolHasLiveWorker(t: State) returns (w: nat)
    requires Inv(t) && |t.workers| > 0 && t.poolState != Finished
    ensures w < |t.workers| && t.workers[w].pc != Gone
  {
    if forall v :: 0 <= v < |t.workers| ==> t.workers[v].pc == Gone {
      forall v | 0 <= v < |t.workers| ensures IsCounted(t.workers[v]) == 1 {}
      AllOnes(t.workers, IsCounted);
      var v :| 0 <= v < |t.workers| && t.workers[v].rank == t.stoppedThreadNum;
      assert Wrote(t, t.workers[v]);
    }
    w :| w < |t.workers| && t.workers[w].pc != Gone;
  }

  // What is known of a stop call under way.
  lemma UnderwayFacts(n: nat, clients: nat, kinds: seq<Kind>, t: State, k: nat)
    requires Reachable(n, clients, kinds, t) && k < |t.stoppers|
    ensures var pc := t.stoppers[k].pc;
            && (pc.StateAsleep? ==> t.requestStop && t.poolState != Finished)
            && (pc.Cancelling? || pc.Guarding? || pc.Joining? || pc.JoinTest? || pc.JoinAsleep? ==>
                  t.requestStop && pc.i < |t.workers|)
            && (pc.JoinAsleep? ==> t.workers[pc.i].pc != Gone)
  {
    ReachableInv(n, clients, kinds, t);
    assert StopperOk(t, t.stoppers[k]);
  }

  lemma LiveWorkerMoves(n: nat, clients: nat, kinds: seq<Kind>, t: State, w: nat)
    requires Reachable(n, clients, kinds, t) && t.requestStop && w < |t.workers| && t.workers[w].pc != Gone
    ensures CanMove(t)
  {
    ReachableInv(n, clients, kinds, t);
    LiveWorkerCanMove(t, w);
  }

  lemma UnfinishedPoolMoves(n: nat, clients: nat, kinds: seq<Kind>, t: State)
    requires n > 0 && Reachable(n, clients, kinds, t) && t.requestStop && t.poolState != Finished
    ensures CanMove(t)
  {
    ReachableInv(n, clients, kinds, t);
    var w := UnfinishedPoolHasLiveWorker(t);
    LiveWorkerCanMove(t, w);
  }

  // The step that a stop call takes next, unless it sleeps or waits for a worker's guard.
  function NextOwn(k: nat, pc: StopperPc): Step
    requires Underway(pc) && !pc.StateAsleep? && !pc.JoinAsleep?
  {
    match pc
    case AtCas => Cas(k)
    case PushingEnds(_) => PushEnd(k)
    case AtState => TestState(k)
    case Cancelling(_) => CancelFlag(k)
    case Guarding(_) => CancelRunning(k)
    case Joining(_) => JoinFlag(k)
    case JoinTest(_) => TestGone(k)
  }

  lemma StopperCanMove(t: State, k: nat)
    requires k < |t.stoppers|
    requires var pc := t.stoppers[k].pc;
             && Underway(pc) && !pc.StateAsleep? && !pc.JoinAsleep?
             && (pc.Cancelling? || pc.Guarding? || pc.Joining? || pc.JoinTest? ==> pc.i < |t.workers|)
             && (pc.Guarding? ==> !HoldsGuard(t.workers[pc.i].pc))
    ensures CanMove(t)
  {
    var e := NextOwn(k, t.stoppers[k].pc);
    assert Enabled(t, e) && Productive(e);
  }

  /** Deadlock freedom: as long as some call of StopAsync, Stop or StopNow is under way, some
      worker or stopper can move. */
  lemma StopIsDeadlockFree(n: nat, clients: nat, kinds: seq<Kind>, t: State, k: nat)
    requires n > 0 && Reachable(n, clients, kinds, t) && k < |t.stoppers| && Underway(t.stoppers[k].pc)
    ensures CanMove(t)
  {
    UnderwayFacts(n, clients, kinds, t, k);
    var pc := t.stoppers[k].pc;
    if pc.StateAsleep? {
      UnfinishedPoolMoves(n, clients, kinds, t);
    } else if pc.JoinAsleep? || (pc.Guarding? && HoldsGuard(t.workers[pc.i].pc)) {
      LiveWorkerMoves(n, clients, kinds, t, pc.i);
    } else {
      StopperCanMove(t, k);
    }
  }

  // ---------- Termination ----------

  // Leaving pays for waking every stopper, twice; taking a task pays for one turn of the loop.
  function WorkerWeight(m: nat): Worker -> int {
    (x: Worker) =>
      match x.pc
      case Gone => 0
      case Notifying => m + 1
      case Counted => 2 * m + 2
      case Exiting => 2 * m + 3
      case PopAsleep => 2 * m + 4
      case InPop => 2 * m + 5
      case AtGuard => 2 * m + 6
      case LoopCheck => 2 * m + 7
      case FirstCheck => 2 * m + 8
      case InRun => 2 * m + 8
      case Dispatch => 2 * m + 9
      case PostCheck => 2 * m + 10
  }

  function StopperWeight(n: nat): Stopper -> int {
    (x: Stopper) =>
      match x.pc
      case Idle => 0
      case Returned => 0
      case StateAsleep => 0
      case AtState => 1
      case JoinAsleep(i) => 4 * (n - i)
      case JoinTest(i) => 4 * (n - i) + 1
      case Joining(i) => 4 * (n - i) + 2
      case Guarding(i) => 4 * (n - i) + 3
      case Cancelling(i) => 4 * n + 4 + (n - i)
      case PushingEnds(_) => 5 * n + 6
      case AtCas => 5 * n + 7
  }

  function Queued(s: State): int {
    |s.pushed| - s.head
  }

  function Measure(s: State): int {
    (|s.workers| + 7) * (|s.workers| - s.ends) + 6 * Queued(s)
    + Sum(s.workers, WorkerWeight(|s.stoppers|)) + Sum(s.stoppers, StopperWeight(|s.workers|))
  }

  // A worker's move makes that worker's weight smaller, by enough for what it does to the rest.
  lemma InnerWeightDrops(s: State, e: Step)
    requires Enabled(s, e) && IsWorkerStep(e) && !e.SpuriousPop? && !e.WriteFinished? && !e.NotifyFinished?
    ensures var t := Apply(s, e); var f := WorkerWeight(|s.stoppers|);
            e.w < |t.workers| && f(t.workers[e.w]) < f(s.workers[e.w]) + 6 * (t.head - s.head)
  {}

  lemma LeavingWeightDrops(s: State, e: Step)
    requires Enabled(s, e) && (e.WriteFinished? || e.NotifyFinished?)
    ensures var t := Apply(s, e); var f := WorkerWeight(|s.stoppers|);
            e.w < |t.workers| && f(t.workers[e.w]) == f(s.workers[e.w]) - |s.stoppers| - 1
  {}

  lemma WorkerMoveLeaves(s: State, e: Step)
    requires Enabled(s, e) && IsWorkerStep(e)
    ensures var t := Apply(s, e);
            && |t.stoppers| == |s.stoppers| && t.pushed == s.pushed && t.ends == s.ends
            && (e.Pop? || t.head == s.head)
            && (!e.WriteFinished? && !e.NotifyFinished? ==> t.stoppers == s.stoppers)
  {}

  lemma LeavingWakesStoppers(s: State, e: Step)
    requires Enabled(s, e) && (e.WriteFinished? || e.NotifyFinished?)
    ensures var f := StopperWeight(|s.workers|); Sum(Apply(s, e).stoppers, f) <= Sum(s.stoppers, f) + |s.stoppers|
  {
    SumSlack(s.stoppers, Apply(s, e).stoppers, StopperWeight(|s.workers|), 1);
  }

  lemma WorkerMoveDecreases(s: State, e: Step)
    requires Enabled(s, e) && IsWorkerStep(e) && !e.SpuriousPop?
    ensures Measure(Apply(s, e)) < Measure(s)
  {
    WorkerStepChange(s, e);
    WorkerMoveLeaves(s, e);
    if e.WriteFinished? || e.NotifyFinished? {
      LeavingWeightDrops(s, e);
      LeavingWakesStoppers(s, e);
    } else {
      InnerWeightDrops(s, e);
    }
    SumUpdate(s.workers, e.w, Apply(s, e).workers[e.w], WorkerWeight(|s.stoppers|));
  }

  lemma StopperWeightDrops(s: State, e: Step)
    requires Enabled(s, e) && IsStopperStep(e) && !e.CallStop? && !e.SpuriousStop?
    ensures var t := Apply(s, e); var f := StopperWeight(|s.workers|);
            && e.k < |t.stoppers| && t.stoppers == s.stoppers[e.k := t.stoppers[e.k]]
            && f(t.stoppers[e.k]) <= f(s.stoppers[e.k])
            && (!e.PushEnd? ==> f(t.stoppers[e.k]) < f(s.stoppers[e.k]))
  {}

  lemma StopperMoveLeaves(s: State, e: Step)
    requires Enabled(s, e) && IsStopperStep(e) && !e.PushEnd?
    ensures var t := Apply(s, e);
            && t.pushed == s.pushed && t.head == s.head && t.ends == s.ends && |t.workers| == |s.workers|
            && forall w :: 0 <= w < |s.workers| ==> t.workers[w].pc == s.workers[w].pc
  {}

  lemma StopperMoveDecreases(s: State, e: Step)
    requires Enabled(s, e) && IsStopperStep(e) && !e.CallStop? && !e.SpuriousStop? && !e.PushEnd?
    ensures Measure(Apply(s, e)) < Measure(s)
  {
    StopperWeightDrops(s, e);
    StopperMoveLeaves(s, e);
    SumSame(s.workers, Apply(s, e).workers, WorkerWeight(|s.stoppers|));
    SumUpdate(s.stoppers, e.k, Apply(s, e).stoppers[e.k], StopperWeight(|s.workers|));
  }

  lemma PushEndDecreases(s: State, k: nat)
    requires Enabled(s, PushEnd(k))
    ensures Measure(Apply(s, PushEnd(k))) < Measure(s)
  {
    var t := Apply(s, PushEnd(k));
    var n := |s.workers|;
    StopperWeightDrops(s, PushEnd(k));
    SumUpdate(s.stoppers, k, t.stoppers[k], StopperWeight(n));
    SumSlack(s.workers, t.workers, WorkerWeight(|s.stoppers|), 1);
    assert (n + 7) * (n - (s.ends + 1)) == (n + 7) * (n - s.ends) - (n + 7);
  }

  lemma MoveDecreases(s: State, e: Step)
    requires Enabled(s, e) && Productive(e)
    ensures Measure(Apply(s, e)) < Measure(s)
  {
    if e.PushEnd? {
      PushEndDecreases(s, e.k);
    } else if IsWorkerStep(e) {
      WorkerMoveDecreases(s, e);
    } else {
      StopperMoveDecreases(s, e);
    }
  }

  lemma StopperWeightsAreNatural(s: State)
    requires StoppersInv(s)
    ensures Sum(s.stoppers, StopperWeight(|s.workers|)) >= 0
  {
    forall k | 0 <= k < |s.stoppers| ensures StopperWeight(|s.workers|)(s.stoppers[k]) >= 0 {
      assert StopperOk(s, s.stoppers[k]);
    }
    SumAtLeastZero(s.stoppers, StopperWeight(|s.workers|));
  }

  lemma ProductIsNatural(a: nat, b: nat)
    ensures a * b >= 0
  {}

  lemma MeasureIsNatural(s: State)
    requires s.ends <= |s.workers| && s.head <= |s.pushed| && StoppersInv(s)
    ensures Measure(s) >= 0
  {
    SumAtLeastZero(s.workers, WorkerWeight(|s.stoppers|));
    StopperWeightsAreNatural(s);
    ProductIsNatural(|s.workers| + 7, |s.workers| - s.ends);
  }

  // What a push of an admitted client will cost: the element, and the workers it wakes.
  function ClientWeight(n: nat): Client -> int {
    (x: Client) => if x.Admitted? then n + 7 else 0
  }

  function Potential(s: State): int {
    Measure(s) + Sum(s.clients, ClientWeight(|s.workers|))
  }

  // Moves that use something up: those above, and the pushes of clients.
  predicate Counts(e: Step) {
    Productive(e) || e.PushTask?
  }

  function Moves(es: seq<Step>): nat {
    if es == [] then 0 else (if Counts(es[0]) then 1 else 0) + Moves(es[1..])
  }

  // What the other steps give to use up: a new stop call, a spurious wakeup, and AddTask calls that
  // read the stop flag before it was set. AddTask calls after that give nothing.
  function Gift(n: nat, stopping: bool, e: Step): nat {
    match e
    case CallStop(_) => 5 * n + 7
    case SpuriousPop(_) => 1
    case SpuriousStop(_) => 1
    case ReadStop(_) => if stopping then 0 else n + 7
    case _ => 0
  }

  function Gifts(n: nat, stopping: bool, es: seq<Step>): nat {
    if es == [] then 0 else Gift(n, stopping, es[0]) + Gifts(n, stopping, es[1..])
  }

  lemma OtherStepLeavesClients(s: State, e: Step)
    requires Enabled(s, e) && !e.ReadStop? && !e.PushTask?
    ensures Apply(s, e).clients == s.clients
  {}

  lemma WakingCosts(s: State)
    ensures Sum(WakePoppers(s.workers), WorkerWeight(|s.stoppers|))
            <= Sum(s.workers, WorkerWeight(|s.stoppers|)) + |s.workers|
  {
    SumSlack(s.workers, WakePoppers(s.workers), WorkerWeight(|s.stoppers|), 1);
  }

  lemma PushTaskDecreases(s: State, c: nat)
    requires Enabled(s, PushTask(c))
    ensures Potential(Apply(s, PushTask(c))) < Potential(s)
  {
    WakingCosts(s);
    SumUpdate(s.clients, c, Outside, ClientWeight(|s.workers|));
  }

  lemma ReadStopGives(s: State, c: nat)
    requires Enabled(s, ReadStop(c))
    ensures Potential(Apply(s, ReadStop(c))) <= Potential(s) + if s.requestStop then 0 else |s.workers| + 7
  {
    SumUpdate(s.clients, c, Admitted(s.clock), ClientWeight(|s.workers|));
  }

  lemma CallStopGives(s: State, k: nat)
    requires Enabled(s, CallStop(k))
    ensures Potential(Apply(s, CallStop(k))) <= Potential(s) + 5 * |s.workers| + 7
  {
    SumUpdate(s.stoppers, k, s.stoppers[k].(pc := AtCas), StopperWeight(|s.workers|));
  }

  lemma SpuriousGives(s: State, e: Step)
    requires Enabled(s, e) && (e.SpuriousPop? || e.SpuriousStop?)
    ensures Potential(Apply(s, e)) <= Potential(s) + 1
  {
    if e.SpuriousPop? {
      SumUpdate(s.workers, e.w, s.workers[e.w].(pc := InPop), WorkerWeight(|s.stoppers|));
    } else {
      SumUpdate(s.stoppers, e.k, Apply(s, e).stoppers[e.k], StopperWeight(|s.workers|));
    }
  }

  /** The account of one step: what counts uses something up, and the rest gives no more than its
      gift. */
  lemma StepPays(s: State, e: Step)
    requires Enabled(s, e)
    ensures Potential(Apply(s, e)) + (if Counts(e) then 1 else 0) <= Potential(s) + Gift(|s.workers|, s.requestStop, e)
  {
    if Productive(e) {
      MoveDecreases(s, e);
      OtherStepLeavesClients(s, e);
      PoolOnlyAdvances(s, e);
    } else {
      match e
      case PushTask(c) => PushTaskDecreases(s, c);
      case ReadStop(c) => ReadStopGives(s, c);
      case CallStop(k) => CallStopGives(s, k);
      case _ => SpuriousGives(s, e);
    }
  }

  lemma PotentialIsNatural(s: State)
    requires s.ends <= |s.workers| && s.head <= |s.pushed| && StoppersInv(s)
    ensures Potential(s) >= 0
  {
    MeasureIsNatural(s);
    SumAtLeastZero(s.clients, ClientWeight(|s.workers|));
  }

  lemma {:induction false} FewerGifts(n: nat, stopping: bool, es: seq<Step>)
    ensures Gifts(n, true, es) <= Gifts(n, stopping, es)
  {
    if es != [] {
      FewerGifts(n, stopping, es[1..]);
    }
  }

  /** Stopping completes. In any run from a reachable state, the moves of workers, the moves of stop
      calls under way and the pushes of clients number at most Potential, plus what the other steps
      give. Once the stop flag is set AddTask gives nothing, so clients that keep calling cannot hold
      up a stop. And when no worker and no stopper can move, every stop call has returned; so every
      Stop found the pool finished and every StopNow all workers gone. */
  lemma {:induction false} StoppingCompletes(
      n: nat, clients: nat, kinds: seq<Kind>, s: State, es: seq<Step>, t: State)
    requires n > 0 && Reachable(n, clients, kinds, s) && Path(s, es, t)
    ensures Moves(es) <= Potential(s) + Gifts(n, s.requestStop, es)
    ensures !CanMove(t) ==> forall k :: 0 <= k < |t.stoppers| ==> !Underway(t.stoppers[k].pc)
    decreases es
  {
    ReachableInv(n, clients, kinds, s);
    if es == [] {
      PotentialIsNatural(s);
      AllReturned(n, clients, kinds, t);
    } else {
      StepPays(s, es[0]);
      PoolOnlyAdvances(s, es[0]);
      StepIsReachable(n, clients, kinds, s, es[0]);
      StoppingCompletes(n, clients, kinds, Apply(s, es[0]), es[1..], t);
      FewerGifts(n, s.requestStop, es[1..]);
    }
  }

  lemma AllReturned(n: nat, clients: nat, kinds: seq<Kind>, t: State)
    requires n > 0 && Reachable(n, clients, kinds, t)
    ensures !CanMove(t) ==> forall k :: 0 <= k < |t.stoppers| ==> !Underway(t.stoppers[k].pc)
  {
    forall k: nat | k < |t.stoppers| && Underway(t.stoppers[k].pc) ensures CanMove(t) {
      StopIsDeadlockFree(n, clients, kinds, t, k);
    }
  }

  /** A pool needs a thread: without workers nobody ever writes FINISHED, and no Stop returns. */
  lemma EmptyPoolNeverFinishes(clients: nat, kinds: seq<Kind>, t: State, k: nat)
    requires Reachable(0, clients, kinds, t)
    ensures t.poolState != Finished
    ensures k < |t.stoppers| && t.stoppers[k].kind == Graceful ==> !t.stoppers[k].pc.Returned?
  {
    ReachableInv(0, clients, kinds, t);
    if k < |t.stoppers| {
      assert StopperOk(t, t.stoppers[k]);
    }
  }
}
