/**
 The two blocking queues, step by step: include/BoundedBlockingQueue.h and
 include/BlockingQueue.h, with the lockers of include/ConditionVariable.h.

 The lock is explicit here: acquiring it, testing the wait condition, going to sleep, notifying,
 changing the queue and releasing the lock are steps of their own, and the steps of any number
 of threads interleave. The unbounded queue is the case `max == None`: it is never full, so its
 Push never waits and its Pop never notifies. Each thread runs a program, any finite sequence
 of operations.
 */
module QueueProtocol {
  import opened Wrappers

  datatype Op<T> = Push(value: T) | Pop | Front | TryPush(value: T) | TryPop | TryFront

  datatype Result<T> = Done | Value(value: T) | Refused

  // Asleep threads wait for the queue to be non-empty, or non-full, as their operation says.
  datatype Pc<T> = Ready | Testing | Noting | Mutating | Unlocking(result: Result<T>) | Asleep

  datatype Thread<T> = Thread(pc: Pc<T>, program: seq<Op<T>>, done: nat, results: seq<Result<T>>)

  // An element, with the thread that pushed it and the place of the call in that thread's program.
  datatype Entry<T> = Entry(producer: nat, index: nat, value: T)

  datatype State<T> = State(
    max: Option<nat>,
    queue: seq<Entry<T>>,
    lock: Option<nat>,
    threads: seq<Thread<T>>,
    // Everything ever pushed and popped, in order.
    pushed: seq<Entry<T>>,
    popped: seq<Entry<T>>)

  datatype Step =
    | Acquire(t: nat)
    | Test(t: nat)
    | Notify(t: nat)
    | Mutate(t: nat)
    | Unlock(t: nat)
    | Spurious(t: nat)

  function Initial<T>(max: Option<nat>, programs: seq<seq<Op<T>>>): State<T> {
    State(max, [], None, seq(|programs|, i requires 0 <= i < |programs| => Thread(Ready, programs[i], 0, [])), [], [])
  }

  predicate IsFull<T>(max: Option<nat>, queue: seq<T>) {
    max.Some? && |queue| == max.value
  }

  predicate Adds<T>(op: Op<T>) {
    op.Push? || op.TryPush?
  }

  predicate Removes<T>(op: Op<T>) {
    op.Pop? || op.TryPop?
  }

  predicate Waits<T>(op: Op<T>) {
    op.Push? || op.Pop? || op.Front?
  }

  // The operation cannot take effect on this queue.
  predicate Blocked<T>(max: Option<nat>, queue: seq<Entry<T>>, op: Op<T>) {
    if Adds(op) then IsFull(max, queue) else queue == []
  }

  predicate Active<T>(s: State<T>, t: nat) {
    t < |s.threads| && s.threads[t].done < |s.threads[t].program|
  }

  function Current<T>(s: State<T>, t: nat): Op<T>
    requires Active(s, t)
  {
    s.threads[t].program[s.threads[t].done]
  }

  ghost predicate At<T>(s: State<T>, t: nat, pc: Pc<T>) {
    Active(s, t) && s.threads[t].pc == pc
  }

  ghost predicate Enabled<T>(s: State<T>, e: Step) {
    match e
    case Acquire(t) => At(s, t, Ready) && s.lock == None
    case Test(t) => At(s, t, Testing)
    case Notify(t) => At(s, t, Noting)
    case Mutate(t) => At(s, t, Mutating) && (Adds(Current(s, t)) || s.queue != [])
    case Unlock(t) => Active(s, t) && s.threads[t].pc.Unlocking?
    case Spurious(t) => At(s, t, Asleep)
  }

  function WakeOne<T>(th: Thread<T>, adders: bool): Thread<T> {
    if th.pc == Asleep && th.done < |th.program| && Adds(th.program[th.done]) == adders then th.(pc := Ready) else th
  }

  // NotifyAll on the full condition (`adders`) or on the empty condition.
  function WakeAll<T>(ts: seq<Thread<T>>, adders: bool): seq<Thread<T>> {
    seq(|ts|, i requires 0 <= i < |ts| => WakeOne(ts[i], adders))
  }

  function Move<T>(s: State<T>, t: nat, pc: Pc<T>): State<T>
    requires t < |s.threads|
  {
    s.(threads := s.threads[t := s.threads[t].(pc := pc)])
  }

  function Notified<T>(s: State<T>, op: Op<T>): seq<Thread<T>> {
    if Adds(op) && s.queue == [] then WakeAll(s.threads, false)
    else if Removes(op) && IsFull(s.max, s.queue) then WakeAll(s.threads, true)
    else s.threads
  }

  function Apply<T>(s: State<T>, e: Step): State<T>
    requires Enabled(s, e)
  {
    match e
    case Acquire(t) => Move(s.(lock := Some(t)), t, Testing)
    case Test(t) =>
      if !Blocked(s.max, s.queue, Current(s, t)) then Move(s, t, Noting)
      else if Waits(Current(s, t)) then Move(s.(lock := None), t, Asleep)
      else Move(s, t, Unlocking(Refused))
    case Notify(t) => Move(s.(threads := Notified(s, Current(s, t))), t, Mutating)
    case Mutate(t) =>
      var op := Current(s, t);
      if Adds(op) then
        var x := Entry(t, s.threads[t].done, op.value);
        Move(s.(queue := s.queue + [x], pushed := s.pushed + [x]), t, Unlocking(Done))
      else if Removes(op) then
        Move(s.(queue := s.queue[1..], popped := s.popped + [s.queue[0]]), t, Unlocking(Value(s.queue[0].value)))
      else
        Move(s, t, Unlocking(Value(s.queue[0].value)))
    case Unlock(t) =>
      var th := s.threads[t];
      s.(lock := None,
         threads := s.threads[t := Thread(Ready, th.program, th.done + 1, th.results + [th.pc.result])])
    case Spurious(t) => Move(s, t, Ready)
  }

  ghost predicate Path<T>(s: State<T>, es: seq<Step>, t: State<T>)
    decreases es
  {
    if es == [] then s == t else Enabled(s, es[0]) && Path(Apply(s, es[0]), es[1..], t)
  }

  predicate HoldsLock<T>(pc: Pc<T>) {
    pc.Testing? || pc.Noting? || pc.Mutating? || pc.Unlocking?
  }

  // Mutual exclusion.
  ghost predicate LockInv<T>(s: State<T>) {
    && (forall t: nat :: t < |s.threads| ==> (HoldsLock(s.threads[t].pc) <==> s.lock == Some(t)))
    && (s.lock.Some? ==> s.lock.value < |s.threads|)
    && (forall t: nat :: t < |s.threads| && s.threads[t].pc != Ready ==> Active(s, t))
  }

  // Nobody sleeps through the condition it waits for, and whoever goes on may go on.
  ghost predicate WaitInv<T>(s: State<T>) {
    && (forall t: nat :: At(s, t, Asleep) ==> Waits(Current(s, t)) && Blocked(s.max, s.queue, Current(s, t)))
    && (forall t: nat :: At(s, t, Noting) || At(s, t, Mutating) ==> !Blocked(s.max, s.queue, Current(s, t)))
    && (forall t: nat, u: nat :: At(s, t, Mutating) && At(s, u, Asleep) ==>
          && !(Adds(Current(s, t)) && s.queue == [] && !Adds(Current(s, u)))
          && !(Removes(Current(s, t)) && IsFull(s.max, s.queue) && Adds(Current(s, u))))
  }

  ghost predicate FifoInv<T>(s: State<T>) {
    && s.pushed == s.popped + s.queue
    && (s.max.Some? ==> |s.queue| <= s.max.value)
  }

  // Each logged element comes from its producer's program, in program order.
  ghost predicate OrderInv<T>(s: State<T>) {
    && (forall x <- s.pushed :: Originates(s, x))
    && (forall i, j :: 0 <= i < j < |s.pushed| && s.pushed[i].producer == s.pushed[j].producer ==>
          s.pushed[i].index < s.pushed[j].index)
  }

  // A push is logged when it mutates, before its call is over.
  ghost predicate Originates<T>(s: State<T>, x: Entry<T>) {
    && x.producer < |s.threads|
    && var th := s.threads[x.producer];
       && x.index < |th.program| && Adds(th.program[x.index]) && th.program[x.index].value == x.value
       && x.index < th.done + (if th.pc.Unlocking? then 1 else 0)
  }

  ghost predicate Inv<T>(s: State<T>) {
    LockInv(s) && WaitInv(s) && FifoInv(s) && OrderInv(s) && (s.max.Some? ==> s.max.value > 0)
  }

  lemma InitialInv<T>(max: Option<nat>, programs: seq<seq<Op<T>>>)
    requires max.Some? ==> max.value > 0
    ensures Inv(Initial(max, programs))
  {}

  lemma StepKeepsLockInv<T>(s: State<T>, e: Step)
    requires LockInv(s) && Enabled(s, e)
    ensures LockInv(Apply(s, e))
  {}

  lemma StepKeepsFifoInv<T>(s: State<T>, e: Step)
    requires FifoInv(s) && WaitInv(s) && Enabled(s, e)
    ensures FifoInv(Apply(s, e))
  {}

  lemma StepKeepsOrderInv<T>(s: State<T>, e: Step)
    requires OrderInv(s) && LockInv(s) && Enabled(s, e)
    ensures OrderInv(Apply(s, e))
  {
    var t := Apply(s, e);
    forall x | x in s.pushed ensures Originates(t, x) {
      assert Originates(s, x);
    }
    if e.Mutate? && Adds(Current(s, e.t)) {
      forall i | 0 <= i < |s.pushed| && s.pushed[i].producer == e.t ensures s.pushed[i].index < s.threads[e.t].done {
        assert Originates(s, s.pushed[i]);
      }
    }
  }

  // The steps that neither change the queue nor wake anybody move one thread.
  lemma PlainStepKeepsWaitInv<T>(s: State<T>, e: Step)
    requires LockInv(s) && WaitInv(s) && Enabled(s, e) && !e.Mutate? && !e.Notify?
    ensures WaitInv(Apply(s, e))
  {
    var s' := Apply(s, e);
    forall t: nat, pc | At(s', t, pc) && t != e.t ensures At(s, t, pc) && Current(s', t) == Current(s, t) {}
  }

  lemma NotifyKeepsWaitInv<T>(s: State<T>, t: nat)
    requires LockInv(s) && WaitInv(s) && Enabled(s, Notify(t))
    ensures WaitInv(Apply(s, Notify(t)))
  {
    var s' := Apply(s, Notify(t));
    forall u: nat | Active(s', u) && u != t
      ensures Active(s, u) && Current(s', u) == Current(s, u)
      ensures s'.threads[u].pc == s.threads[u].pc || (At(s, u, Asleep) && At(s', u, Ready))
    {}
  }

  lemma MutateKeepsWaitInv<T>(s: State<T>, t: nat)
    requires LockInv(s) && WaitInv(s) && FifoInv(s) && Enabled(s, Mutate(t))
    requires s.max.Some? ==> s.max.value > 0
    ensures WaitInv(Apply(s, Mutate(t)))
  {
    var s' := Apply(s, Mutate(t));
    forall u: nat, pc | At(s', u, pc) && u != t ensures At(s, u, pc) && Current(s', u) == Current(s, u) {}
    forall u: nat | At(s', u, Asleep) ensures Blocked(s'.max, s'.queue, Current(s', u)) {
      assert At(s, u, Asleep);
    }
  }

  lemma StepKeepsInv<T>(s: State<T>, e: Step)
    requires Inv(s) && Enabled(s, e)
    ensures Inv(Apply(s, e))
  {
    StepKeepsLockInv(s, e);
    StepKeepsFifoInv(s, e);
    StepKeepsOrderInv(s, e);
    if e.Mutate? {
      MutateKeepsWaitInv(s, e.t);
    } else if e.Notify? {
      NotifyKeepsWaitInv(s, e.t);
    } else {
      PlainStepKeepsWaitInv(s, e);
    }
  }
}
