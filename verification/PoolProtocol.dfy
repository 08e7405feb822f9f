/**
 The thread pool's shutdown protocol: include/FixedThreadPool.h, src/WorkerThread.cpp and
 src/CancelableThread.cpp over the blocking queue.

 Any positive number of workers, any number of clients calling AddTask and of stoppers calling
 StopAsync, Stop or StopNow, all interleaved step by step. The queue is the tail `pushed[head..]`
 of everything ever pushed, which QueueRefinement justifies; the place of an element in
 `pushed` names that occurrence of a task.
 */
module PoolProtocol {
  import opened Wrappers

  // A task, with the time at which its client read the stop flag as unset, or an EndTask.
  datatype Item = Task(readAt: nat) | End

  datatype PoolState = Running | Finished

  datatype WorkerPc =
    | FirstCheck   // the check of CancelableThread::ThreadFunction
    | LoopCheck    // step 1 of WorkFunction
    | AtGuard      // about to lock m_runningTaskGuard
    | InPop        // holding it, about to test the queue
    | PopAsleep    // holding it, asleep in Pop
    | PostCheck    // step 2.5
    | Dispatch     // step 3
    | InRun
    | Exiting      // about to increment m_stoppedThreadNum
    | Counted      // about to compare and perhaps write FINISHED
    | Notifying    // about to run CancelableThread::NotifyFinished
    | Gone

  // Why a worker left its loop.
  datatype Exit = NotYet | ByEnd | ByCancel | ByEscape

  datatype Worker = Worker(
    pc: WorkerPc,
    requestCancel: bool,
    runningTask: Option<nat>,
    // What its increment of m_stoppedThreadNum gave it, 0 before: a local variable of the source.
    rank: nat,
    // Accounting: whether it has popped an EndTask, why it left, how often it called Run with its
    // cancel flag set.
    tookEnd: bool,
    exit: Exit,
    runsAfterCancel: nat)

  // A caller of AddTask: outside, or past the test of the stop flag.
  datatype Client = Outside | Admitted(readAt: nat)

  datatype Kind = Async | Graceful | Now

  datatype StopperPc =
    | Idle
    | AtCas
    | PushingEnds(i: nat)
    | AtState            // about to test the pool state
    | StateAsleep
    | Cancelling(i: nat) // first loop of StopNow
    | Guarding(i: nat)   // second loop: cancel the running task of worker i,
    | Joining(i: nat)    // request its cancellation again,
    | JoinTest(i: nat)   // and wait for it
    | JoinAsleep(i: nat)
    | Returned

  datatype Stopper = Stopper(kind: Kind, pc: StopperPc)

  datatype State = State(
    requestStop: bool,
    poolState: PoolState,
    stoppedThreadNum: nat,
    pushed: seq<Item>,
    head: nat,
    workers: seq<Worker>,
    clients: seq<Client>,
    stoppers: seq<Stopper>,
    // Accounting: EndTasks pushed, writes of FINISHED, occurrences on which Run was called and
    // occurrences dropped, occurrences that StopNow asked to cancel themselves, reads of the stop
    // flag so far and how many preceded the winning CAS.
    ends: nat,
    finishedWrites: nat,
    runLog: seq<nat>,
    dropLog: seq<nat>,
    cancelRequested: set<nat>,
    clock: nat,
    casAt: Option<nat>)

  datatype Step =
    // workers
    | CheckFirst(w: nat)
    | CheckLoop(w: nat)
    | TakeGuard(w: nat)
    | Pop(w: nat)
    | CheckPost(w: nat)
    | DispatchTask(w: nat)
    | RunReturns(w: nat)
    | RunEscapes(w: nat)
    | CountStopped(w: nat)
    | WriteFinished(w: nat)
    | NotifyFinished(w: nat)
    | SpuriousPop(w: nat)
    // clients
    | ReadStop(c: nat)
    | PushTask(c: nat)
    // stoppers
    | CallStop(k: nat)
    | Cas(k: nat)
    | PushEnd(k: nat)
    | TestState(k: nat)
    | CancelFlag(k: nat)
    | CancelRunning(k: nat)
    | JoinFlag(k: nat)
    | TestGone(k: nat)
    | SpuriousStop(k: nat)

  function Initial(workers: nat, clients: nat, kinds: seq<Kind>): State {
    State(false, Running, 0, [], 0,
          seq(workers, _ => Worker(FirstCheck, false, None, 0, false, NotYet, 0)),
          seq(clients, _ => Outside),
          seq(|kinds|, i requires 0 <= i < |kinds| => Stopper(kinds[i], Idle)),
          0, 0, [], [], {}, 0, None)
  }

  predicate WorkerAt(s: State, w: nat, pc: WorkerPc) {
    w < |s.workers| && s.workers[w].pc == pc
  }

  predicate StopperAt(s: State, k: nat, pc: StopperPc) {
    k < |s.stoppers| && s.stoppers[k].pc == pc
  }

  predicate HoldsGuard(pc: WorkerPc) {
    pc == InPop || pc == PopAsleep
  }

  predicate Holds(w: Worker) {
    (w.pc == PostCheck || w.pc == Dispatch) && w.runningTask.Some?
  }

  predicate Enabled(s: State, e: Step) {
    match e
    case CheckFirst(w) => WorkerAt(s, w, FirstCheck)
    case CheckLoop(w) => WorkerAt(s, w, LoopCheck)
    case TakeGuard(w) => WorkerAt(s, w, AtGuard)
    case Pop(w) => WorkerAt(s, w, InPop)
    case CheckPost(w) => WorkerAt(s, w, PostCheck) && s.workers[w].runningTask.Some?
    case DispatchTask(w) =>
      WorkerAt(s, w, Dispatch) && s.workers[w].runningTask.Some? && s.workers[w].runningTask.value < |s.pushed|
    case RunReturns(w) => WorkerAt(s, w, InRun)
    case RunEscapes(w) => WorkerAt(s, w, InRun)
    case CountStopped(w) => WorkerAt(s, w, Exiting)
    case WriteFinished(w) => WorkerAt(s, w, Counted)
    case NotifyFinished(w) => WorkerAt(s, w, Notifying)
    case SpuriousPop(w) => WorkerAt(s, w, PopAsleep)
    case ReadStop(c) => c < |s.clients| && s.clients[c].Outside?
    case PushTask(c) => c < |s.clients| && s.clients[c].Admitted?
    case CallStop(k) => StopperAt(s, k, Idle) || StopperAt(s, k, Returned)
    case Cas(k) => StopperAt(s, k, AtCas)
    case PushEnd(k) => k < |s.stoppers| && s.stoppers[k].pc.PushingEnds?
    case TestState(k) => StopperAt(s, k, AtState)
    case CancelFlag(k) => k < |s.stoppers| && s.stoppers[k].pc.Cancelling? && s.stoppers[k].pc.i < |s.workers|
    case CancelRunning(k) =>
      k < |s.stoppers| && s.stoppers[k].pc.Guarding? && s.stoppers[k].pc.i < |s.workers|
      && !HoldsGuard(s.workers[s.stoppers[k].pc.i].pc)
    case JoinFlag(k) => k < |s.stoppers| && s.stoppers[k].pc.Joining? && s.stoppers[k].pc.i < |s.workers|
    case TestGone(k) => k < |s.stoppers| && s.stoppers[k].pc.JoinTest? && s.stoppers[k].pc.i < |s.workers|
    case SpuriousStop(k) => k < |s.stoppers| && (s.stoppers[k].pc.StateAsleep? || s.stoppers[k].pc.JoinAsleep?)
  }

  function SetWorker(s: State, w: nat, x: Worker): State
    requires w < |s.workers|
  {
    s.(workers := s.workers[w := x])
  }

  function SetStopper(s: State, k: nat, pc: StopperPc): State
    requires k < |s.stoppers|
  {
    s.(stoppers := s.stoppers[k := s.stoppers[k].(pc := pc)])
  }

  // NotifyAll on the three condition variables.
  function WakePoppers(ws: seq<Worker>): seq<Worker> {
    seq(|ws|, i requires 0 <= i < |ws| => if ws[i].pc == PopAsleep then ws[i].(pc := InPop) else ws[i])
  }

  function WakeStoppers(ks: seq<Stopper>): seq<Stopper> {
    seq(|ks|, i requires 0 <= i < |ks| => if ks[i].pc.StateAsleep? then ks[i].(pc := AtState) else ks[i])
  }

  function WakeJoiners(ks: seq<Stopper>, w: nat): seq<Stopper> {
    seq(|ks|, i requires 0 <= i < |ks| => if ks[i].pc == JoinAsleep(w) then ks[i].(pc := JoinTest(w)) else ks[i])
  }

  // BlockingQueue::Push notifies when the queue was empty.
  function Enqueue(s: State, x: Item): State {
    s.(pushed := s.pushed + [x],
       workers := if s.head == |s.pushed| then WakePoppers(s.workers) else s.workers)
  }

  // What follows StopAsync in StopAsync itself, Stop and StopNow; the loops of StopNow end at
  // once when there are no workers.
  function AfterAsync(kind: Kind, workers: nat): StopperPc {
    match kind
    case Async => Returned
    case Graceful => AtState
    case Now => if workers == 0 then Returned else Cancelling(0)
  }

  function PopResult(s: State, w: nat): State
    requires w < |s.workers|
  {
    var x := s.workers[w];
    if s.head >= |s.pushed| then SetWorker(s, w, x.(pc := PopAsleep))
    else SetWorker(s.(head := s.head + 1), w,
                   x.(pc := PostCheck, runningTask := Some(s.head), tookEnd := x.tookEnd || s.pushed[s.head].End?))
  }

  function DispatchResult(s: State, w: nat): State
    requires w < |s.workers| && s.workers[w].runningTask.Some? && s.workers[w].runningTask.value < |s.pushed|
  {
    var x := s.workers[w];
    if s.pushed[x.runningTask.value].End? then SetWorker(s, w, x.(pc := Exiting, exit := ByEnd))
    else SetWorker(s.(runLog := s.runLog + [x.runningTask.value]), w,
                   x.(pc := InRun, runsAfterCancel := x.runsAfterCancel + (if x.requestCancel then 1 else 0)))
  }

  function WriteFinishedResult(s: State, w: nat): State
    requires w < |s.workers|
  {
    var t := SetWorker(s, w, s.workers[w].(pc := Notifying));
    if s.workers[w].rank >= |s.workers| then
      t.(stoppers := if s.requestStop then WakeStoppers(s.stoppers) else s.stoppers,
         poolState := Finished, finishedWrites := s.finishedWrites + 1)
    else t
  }

  function Apply(s: State, e: Step): State
    requires Enabled(s, e)
  {
    match e
    case CheckFirst(w) =>
      var x := s.workers[w];
      SetWorker(s, w, if x.requestCancel then x.(pc := Exiting, exit := ByCancel) else x.(pc := LoopCheck))
    case CheckLoop(w) =>
      var x := s.workers[w];
      SetWorker(s, w, if x.requestCancel then x.(pc := Exiting, exit := ByCancel) else x.(pc := AtGuard))
    case TakeGuard(w) => SetWorker(s, w, s.workers[w].(pc := InPop))
    case Pop(w) => PopResult(s, w)
    case CheckPost(w) =>
      var x := s.workers[w];
      if x.requestCancel then
        SetWorker(s.(dropLog := s.dropLog + [x.runningTask.value]), w, x.(pc := Exiting, exit := ByCancel))
      else SetWorker(s, w, x.(pc := Dispatch))
    case DispatchTask(w) => DispatchResult(s, w)
    case RunReturns(w) => SetWorker(s, w, s.workers[w].(pc := LoopCheck))
    case RunEscapes(w) => SetWorker(s, w, s.workers[w].(pc := Exiting, exit := ByEscape))
    case CountStopped(w) =>
      SetWorker(s.(stoppedThreadNum := s.stoppedThreadNum + 1), w,
                s.workers[w].(pc := Counted, rank := s.stoppedThreadNum + 1))
    case WriteFinished(w) => WriteFinishedResult(s, w)
    case NotifyFinished(w) =>
      SetWorker(s.(stoppers := if s.workers[w].requestCancel then WakeJoiners(s.stoppers, w) else s.stoppers),
                w, s.workers[w].(pc := Gone))
    case SpuriousPop(w) => SetWorker(s, w, s.workers[w].(pc := InPop))
    case ReadStop(c) =>
      if s.requestStop then s
      else s.(clients := s.clients[c := Admitted(s.clock)], clock := s.clock + 1)
    case PushTask(c) => Enqueue(s.(clients := s.clients[c := Outside]), Task(s.clients[c].readAt))
    case CallStop(k) => SetStopper(s, k, AtCas)
    case Cas(k) =>
      if s.requestStop then SetStopper(s, k, AfterAsync(s.stoppers[k].kind, |s.workers|))
      else SetStopper(s.(requestStop := true, casAt := Some(s.clock)), k,
                      if |s.workers| == 0 then AfterAsync(s.stoppers[k].kind, 0) else PushingEnds(0))
    case PushEnd(k) =>
      SetStopper(Enqueue(s.(ends := s.ends + 1), End), k,
                 if s.stoppers[k].pc.i + 1 < |s.workers| then PushingEnds(s.stoppers[k].pc.i + 1)
                 else AfterAsync(s.stoppers[k].kind, |s.workers|))
    case TestState(k) => SetStopper(s, k, if s.poolState == Finished then Returned else StateAsleep)
    case CancelFlag(k) =>
      var i := s.stoppers[k].pc.i;
      SetStopper(SetWorker(s, i, s.workers[i].(requestCancel := true)), k,
                 if i + 1 < |s.workers| then Cancelling(i + 1) else Guarding(0))
    case CancelRunning(k) =>
      var x := s.workers[s.stoppers[k].pc.i];
      SetStopper(s.(cancelRequested := s.cancelRequested + (if x.runningTask.Some? then {x.runningTask.value} else {})),
                 k, Joining(s.stoppers[k].pc.i))
    case JoinFlag(k) =>
      var i := s.stoppers[k].pc.i;
      SetStopper(SetWorker(s, i, s.workers[i].(requestCancel := true)), k, JoinTest(i))
    case TestGone(k) =>
      var i := s.stoppers[k].pc.i;
      SetStopper(s, k, if s.workers[i].pc != Gone then JoinAsleep(i)
                       else if i + 1 < |s.workers| then Guarding(i + 1) else Returned)
    case SpuriousStop(k) =>
      SetStopper(s, k, if s.stoppers[k].pc.StateAsleep? then AtState else JoinTest(s.stoppers[k].pc.i))
  }

  ghost predicate Path(s: State, es: seq<Step>, t: State)
    decreases es
  {
    if es == [] then s == t else Enabled(s, es[0]) && Path(Apply(s, es[0]), es[1..], t)
  }
}
