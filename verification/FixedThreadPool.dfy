/**
 The pool object. Its methods run under arbitrary interference by the other workers, clients and
 stoppers, which may move at every Yield.
 */
module ThreadPool {
  import opened Wrappers
  import opened PoolProtocol
  import opened PoolInvariants
  import opened PoolTheorems

  // Who makes a step.
  datatype Actor = AWorker(w: nat) | AClient(c: nat) | AStopper(k: nat)

  predicate MadeBy(e: Step, me: Actor) {
    match me
    case AWorker(w) => IsWorkerStep(e) && e.w == w
    case AClient(c) => (e.ReadStop? || e.PushTask?) && e.c == c
    case AStopper(k) => IsStopperStep(e) && e.k == k
  }

  // A run in which `me` does not move.
  ghost predicate Interference(s: State, me: Actor, t: State) {
    exists es :: Path(s, es, t) && forall i :: 0 <= i < |es| ==> !MadeBy(es[i], me)
  }

  // Not asleep, so that nobody can wake it.
  predicate Awake(s: State, me: Actor) {
    match me
    case AWorker(w) => w < |s.workers| && s.workers[w].pc != PopAsleep
    case AClient(c) => c < |s.clients|
    case AStopper(k) => k < |s.stoppers| && !s.stoppers[k].pc.StateAsleep? && !s.stoppers[k].pc.JoinAsleep?
  }

  // What the others cannot touch: a worker's record but for its cancel flag, a client's, a
  // stopper's, and the number of EndTasks while the stopper is pushing them.
  predicate Untouched(s: State, me: Actor, t: State) {
    && |t.workers| == |s.workers| && |t.clients| == |s.clients| && |t.stoppers| == |s.stoppers|
    && (s.requestStop ==> t.requestStop)
    && Awake(s, me)
    && match me
       case AWorker(w) =>
         t.workers[w] == s.workers[w] || t.workers[w] == s.workers[w].(requestCancel := true)
       case AClient(c) => t.clients[c] == s.clients[c]
       case AStopper(k) => t.stoppers[k] == s.stoppers[k] && (s.stoppers[k].pc.PushingEnds? ==> t.ends == s.ends)
  }

  lemma SizesStay(s: State, e: Step)
    requires Enabled(s, e)
    ensures var t := Apply(s, e);
            |t.workers| == |s.workers| && |t.clients| == |s.clients| && |t.stoppers| == |s.stoppers|
  {}

  lemma StepLeavesWorker(s: State, w: nat, e: Step)
    requires Enabled(s, e) && Awake(s, AWorker(w)) && !MadeBy(e, AWorker(w))
    ensures Untouched(s, AWorker(w), Apply(s, e))
  {
    SizesStay(s, e);
    PoolOnlyAdvances(s, e);
    WorkersChange(s, e);
  }

  lemma StepLeavesClient(s: State, c: nat, e: Step)
    requires Enabled(s, e) && Awake(s, AClient(c)) && !MadeBy(e, AClient(c))
    ensures Untouched(s, AClient(c), Apply(s, e))
  {
    SizesStay(s, e);
    PoolOnlyAdvances(s, e);
  }

  lemma StepLeavesStopper(s: State, k: nat, e: Step)
    requires WinnerInv(s) && Enabled(s, e) && Awake(s, AStopper(k)) && !MadeBy(e, AStopper(k))
    ensures Untouched(s, AStopper(k), Apply(s, e))
  {
    SizesStay(s, e);
    PoolOnlyAdvances(s, e);
    if !e.WriteFinished? && !e.NotifyFinished? {
      OtherStopperStays(s, e, k);
    }
  }

  ghost predicate From(n: nat, clients: nat, kinds: seq<Kind>, s: State) {
    Reachable(n, clients, kinds, s)
  }

  lemma {:induction false} InterferenceIsSafe(
      n: nat, clients: nat, kinds: seq<Kind>, s: State, me: Actor, es: seq<Step>, t: State)
    requires From(n, clients, kinds, s) && Awake(s, me) && Path(s, es, t)
    requires forall i :: 0 <= i < |es| ==> !MadeBy(es[i], me)
    ensures From(n, clients, kinds, t) && Untouched(s, me, t)
    decreases es
  {
    if es != [] {
      ReachableInv(n, clients, kinds, s);
      match me {
        case AWorker(w) => StepLeavesWorker(s, w, es[0]);
        case AClient(c) => StepLeavesClient(s, c, es[0]);
        case AStopper(k) => StepLeavesStopper(s, k, es[0]);
      }
      StepIsReachable(n, clients, kinds, s, es[0]);
      InterferenceIsSafe(n, clients, kinds, Apply(s, es[0]), me, es[1..], t);
    }
  }

  // What the methods below need of the invariant.
  lemma HeadInRange(n: nat, clients: nat, kinds: seq<Kind>, s: State)
    requires From(n, clients, kinds, s)
    ensures s.head <= |s.pushed| && |s.workers| == n
  {
    ReachableInv(n, clients, kinds, s);
  }

  lemma PusherKnowsEnds(n: nat, clients: nat, kinds: seq<Kind>, s: State, k: nat)
    requires From(n, clients, kinds, s) && k < |s.stoppers| && s.stoppers[k].pc.PushingEnds?
    ensures s.stoppers[k].pc.i == s.ends < n
  {
    ReachableInv(n, clients, kinds, s);
    assert StopperOk(s, s.stoppers[k]);
  }

  lemma EndsAreCounted(n: nat, clients: nat, kinds: seq<Kind>, s: State)
    requires From(n, clients, kinds, s)
    ensures CountEnds(s.pushed) == s.ends
  {
    ReachableInv(n, clients, kinds, s);
  }

  lemma NobodyAsleepWhenFinished(n: nat, clients: nat, kinds: seq<Kind>, s: State)
    requires From(n, clients, kinds, s) && s.poolState == Finished
    ensures forall k :: 0 <= k < |s.stoppers| ==> !s.stoppers[k].pc.StateAsleep?
  {
    ReachableInv(n, clients, kinds, s);
    forall k | 0 <= k < |s.stoppers| ensures !s.stoppers[k].pc.StateAsleep? {
      assert StopperOk(s, s.stoppers[k]);
    }
  }

  class FixedThreadPool {
    const threadNum: nat
    ghost const callers: nat
    ghost const kinds: seq<Kind>
    var isRequestStop: bool
    var state: PoolState
    var stoppedThreadNum: nat
    var taskQueue: seq<Item>
    var threads: seq<Worker>
    ghost var pushed: seq<Item>
    var head: nat
    var clients: seq<Client>
    ghost var stoppers: seq<Stopper>
    ghost var ends: nat
    ghost var finishedWrites: nat
    ghost var runLog: seq<nat>
    ghost var dropLog: seq<nat>
    ghost var cancelRequested: set<nat>
    var clock: nat
    ghost var casAt: Option<nat>

    ghost function View(): State
      reads this
    {
      State(isRequestStop, state, stoppedThreadNum, pushed, head, threads, clients, stoppers, ends,
            finishedWrites, runLog, dropLog, cancelRequested, clock, casAt)
    }

    // In a state that the protocol reaches, with the queue at hand.
    ghost predicate Valid()
      reads this
    {
      From(threadNum, callers, kinds, View()) && QueueAtHand() && |threads| == threadNum
    }

    ghost predicate QueueAtHand()
      reads this
    {
      head <= |pushed| && taskQueue == pushed[head..]
    }

    constructor (threadNum: nat, callers: nat, ghost kinds: seq<Kind>)
      ensures Valid() && View() == Initial(threadNum, callers, kinds)
      ensures this.threadNum == threadNum && this.callers == callers && this.kinds == kinds
    {
      this.threadNum, this.callers, this.kinds := threadNum, callers, kinds;
      isRequestStop, state, stoppedThreadNum, taskQueue := false, Running, 0, [];
      threads := seq(threadNum, _ => Worker(FirstCheck, false, None, 0, false, NotYet, 0));
      pushed, head, clients, stoppers := [], 0, seq(callers, _ => Outside), Initial(threadNum, callers, kinds).stoppers;
      ends, finishedWrites, runLog, dropLog, cancelRequested, clock, casAt := 0, 0, [], [], {}, 0, None;
      new;
      assert Path(Initial(threadNum, callers, kinds), [], View());
    }

    // Whatever everybody else does meanwhile; callers know only this contract.
    method Preempt(ghost me: Actor)
      requires QueueAtHand()
      modifies this
      ensures Interference(old(View()), me, View()) && (head <= |pushed| ==> QueueAtHand())
    {
      assert Path(View(), [], View());
    }

    // What an actor that is not asleep may rely on across such an interruption.
    method Yield(ghost me: Actor)
      requires Valid() && Awake(View(), me)
      modifies this
      ensures Valid() && Untouched(old(View()), me, View())
    {
      ghost var s := View();
      Preempt(me);
      ghost var es :| Path(s, es, View()) && forall i :: 0 <= i < |es| ==> !MadeBy(es[i], me);
      InterferenceIsSafe(threadNum, callers, kinds, s, me, es, View());
      HeadInRange(threadNum, callers, kinds, View());
    }

    // The protocol allows step e here.
    lemma Allows(e: Step)
      requires Valid() && Enabled(View(), e)
      ensures From(threadNum, callers, kinds, Apply(View(), e))
    {
      StepIsReachable(threadNum, callers, kinds, View(), e);
    }

    // BlockingQueue::Push on the task queue.
    method Enqueue(x: Item)
      requires QueueAtHand()
      modifies this`taskQueue, this`threads, this`pushed
      ensures View() == PoolProtocol.Enqueue(old(View()), x) && QueueAtHand()
      ensures taskQueue == old(taskQueue) + [x] && |threads| == |old(threads)|
    {
      if taskQueue == [] {
        threads := WakePoppers(threads);
      }
      taskQueue := taskQueue + [x];
      pushed := pushed + [x];
    }

    // The test of the stop flag in DoAddTask.
    method Admit(c: nat) returns (admitted: bool)
      requires Valid() && Enabled(View(), ReadStop(c))
      modifies this`clients, this`clock
      ensures View() == Apply(old(View()), ReadStop(c)) && Valid()
      ensures admitted <==> !old(isRequestStop)
    {
      Allows(ReadStop(c));
      admitted := !isRequestStop;
      if admitted {
        clients, clock := clients[c := Admitted(clock)], clock + 1;
      }
    }

    // The push in DoAddTask.
    method PushAdmitted(c: nat)
      requires Valid() && Enabled(View(), PushTask(c))
      modifies this
      ensures View() == Apply(old(View()), PushTask(c)) && Valid()
      ensures taskQueue == old(taskQueue) + [Task(old(clients[c].readAt))]
    {
      Allows(PushTask(c));
      var task := Task(clients[c].readAt);
      clients := clients[c := Outside];
      Enqueue(task);
    }

    /** DoAddTask. The task is refused exactly when the stop flag is set at the test; a stop that
        comes between the test and the push does not keep the task out. */
    method DoAddTask(c: nat) returns (accepted: bool)
      requires Valid() && c < |clients| && clients[c] == Outside
      modifies this
      ensures Valid() && c < |clients| && clients[c] == Outside
      ensures accepted <==> !old(isRequestStop)
      ensures accepted ==> |taskQueue| > 0 && taskQueue[|taskQueue| - 1] == Task(old(clock))
      ensures !accepted ==> View() == old(View())
    {
      accepted := Admit(c);
      if accepted {
        Yield(AClient(c));
        PushAdmitted(c);
      }
    }

    method CompareAndSet(k: nat) returns (won: bool)
      requires Valid() && StopperAt(View(), k, AtCas) && threadNum > 0
      modifies this`isRequestStop, this`casAt, this`stoppers
      ensures View() == Apply(old(View()), Cas(k)) && Valid()
      ensures won <==> !old(isRequestStop)
    {
      Allows(Cas(k));
      won := !isRequestStop;
      if won {
        isRequestStop, casAt := true, Some(clock);
        stoppers := stoppers[k := stoppers[k].(pc := PushingEnds(0))];
      } else {
        stoppers := stoppers[k := stoppers[k].(pc := AfterAsync(stoppers[k].kind, |threads|))];
      }
    }

    method PushEndTask(k: nat)
      requires Valid() && Enabled(View(), PushEnd(k))
      modifies this
      ensures View() == Apply(old(View()), PushEnd(k)) && Valid()
    {
      Allows(PushEnd(k));
      ends := ends + 1;
      Enqueue(End);
      var i := stoppers[k].pc.i;
      stoppers := stoppers[k := stoppers[k].(pc :=
        if i + 1 < |threads| then PushingEnds(i + 1) else AfterAsync(stoppers[k].kind, |threads|))];
    }

    // One turn of the loop of StopAsync, after whatever the others did.
    method PushNextEnd(k: nat, i: nat)
      requires Valid() && StopperAt(View(), k, PushingEnds(i)) && ends == i && isRequestStop
      modifies this
      ensures Valid() && isRequestStop && ends == i + 1
      ensures k < |stoppers| && stoppers[k].kind == old(stoppers[k].kind)
      ensures stoppers[k].pc ==
                if i + 1 < threadNum then PushingEnds(i + 1) else AfterAsync(stoppers[k].kind, threadNum)
    {
      Yield(AStopper(k));
      PushEndTask(k);
    }

    /** StopAsync. Whoever wins the CAS leaves one EndTask pushed for every thread, however the
        pushes of others interleave; whoever loses it pushes none. */
    method StopAsync(k: nat) returns (won: bool)
      requires Valid() && StopperAt(View(), k, AtCas) && threadNum > 0
      modifies this
      ensures Valid() && isRequestStop && k < |stoppers| && stoppers[k].kind == old(stoppers[k].kind)
      ensures stoppers[k].pc == AfterAsync(stoppers[k].kind, threadNum)
      ensures won <==> !old(isRequestStop)
      ensures won ==> CountEnds(pushed) == threadNum
      ensures !won ==> View() == Apply(old(View()), Cas(k))
    {
      won := CompareAndSet(k);
      if won {
        var i := 0;
        PusherKnowsEnds(threadNum, callers, kinds, View(), k);
        while i < threadNum
          invariant Valid() && isRequestStop && i <= threadNum && ends == i
          invariant k < |stoppers| && stoppers[k].kind == old(stoppers[k].kind)
          invariant stoppers[k].pc == if i < threadNum then PushingEnds(i) else AfterAsync(stoppers[k].kind, threadNum)
        {
          PushNextEnd(k, i);
          i := i + 1;
        }
        EndsAreCounted(threadNum, callers, kinds, View());
      }
    }

    // One pass of the wait loop of Stop.
    method StopPass(k: nat) returns (done: bool)
      requires Valid() && Enabled(View(), TestState(k))
      modifies this`stoppers
      ensures View() == Apply(old(View()), TestState(k)) && Valid()
      ensures done <==> state == Finished
    {
      Allows(TestState(k));
      done := state == Finished;
      stoppers := stoppers[k := stoppers[k].(pc := if done then Returned else StateAsleep)];
    }

    /** One pass of Pop inside GetTaskFromTaskQueue: takes the oldest element, or sleeps with the
        guard held. Once all EndTasks are pushed it never sleeps. */
    method PopPass(w: nat) returns (popped: Option<Item>)
      requires Valid() && Enabled(View(), PoolProtocol.Pop(w))
      modifies this
      ensures View() == Apply(old(View()), PoolProtocol.Pop(w)) && Valid()
      ensures popped == if old(taskQueue) == [] then None else Some(old(taskQueue)[0])
      ensures old(taskQueue) != [] ==> taskQueue == old(taskQueue)[1..]
      ensures old(ends) == threadNum ==> popped.Some?
    {
      Allows(PoolProtocol.Pop(w));
      if ends == threadNum {
        NoWorkerStarves(threadNum, callers, kinds, View(), w);
      }
      if taskQueue == [] {
        popped := None;
        threads := threads[w := threads[w].(pc := PopAsleep)];
      } else {
        popped := Some(taskQueue[0]);
        taskQueue := taskQueue[1..];
        threads := threads[w := threads[w].(pc := PostCheck, runningTask := Some(head),
                                            tookEnd := threads[w].tookEnd || popped.value.End?)];
        head := head + 1;
      }
    }

    method IncrementStopped(w: nat) returns (stopped: nat)
      requires Valid() && Enabled(View(), CountStopped(w))
      modifies this`stoppedThreadNum, this`threads
      ensures View() == Apply(old(View()), CountStopped(w)) && Valid()
      ensures stopped == stoppedThreadNum == old(stoppedThreadNum) + 1 && threads[w].rank == stopped
    {
      Allows(CountStopped(w));
      stoppedThreadNum := stoppedThreadNum + 1;
      stopped := stoppedThreadNum;
      threads := threads[w := threads[w].(pc := Counted, rank := stopped)];
    }

    // The locked part of NotifyWhenThreadsStop: notify by the flag and then write the state.
    method FinishPool()
      modifies this`stoppers, this`state, this`finishedWrites
      ensures stoppers == if isRequestStop then WakeStoppers(old(stoppers)) else old(stoppers)
      ensures state == Finished && finishedWrites == old(finishedWrites) + 1
    {
      if isRequestStop {
        stoppers := WakeStoppers(stoppers);
      }
      state := Finished;
      finishedWrites := finishedWrites + 1;
    }

    method SetFinished(w: nat, stopped: nat)
      requires Valid() && Enabled(View(), WriteFinished(w)) && threads[w].rank == stopped
      modifies this`threads, this`stoppers, this`state, this`finishedWrites
      ensures View() == Apply(old(View()), WriteFinished(w)) && Valid()
    {
      Allows(WriteFinished(w));
      ghost var goal := WriteFinishedResult(View(), w);
      threads := threads[w := threads[w].(pc := Notifying)];
      if stopped >= |threads| {
        FinishPool();
      }
      assert View() == goal;
    }

    /** NotifyWhenThreadsStop, the finish action of worker w, with interference between the
        increment and the write. If all the others have been counted before, the pool is
        finished at the end; and when it is, nobody is asleep in Stop. */
    method NotifyWhenThreadsStop(w: nat)
      requires Valid() && WorkerAt(View(), w, Exiting)
      modifies this
      ensures Valid() && WorkerAt(View(), w, Notifying)
      ensures old(stoppedThreadNum) + 1 >= threadNum ==> state == Finished
      ensures state == Finished ==> forall k :: 0 <= k < |stoppers| ==> !stoppers[k].pc.StateAsleep?
    {
      var stopped := IncrementStopped(w);
      Yield(AWorker(w));
      SetFinished(w, stopped);
      if state == Finished {
        NobodyAsleepWhenFinished(threadNum, callers, kinds, View());
      }
    }
  }
}
