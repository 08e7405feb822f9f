/**
 Producers and consumers on a blocking queue cannot deadlock, although a push notifies only an
 empty queue and a pop only a full one.
 */
module QueueLiveness {
  import opened Wrappers
  import opened QueueProtocol
  import opened Sums

  // A producer only pushes, a consumer only pops, both blocking.
  predicate Producer<T>(program: seq<Op<T>>) {
    forall i :: 0 <= i < |program| ==> program[i].Push?
  }

  predicate Consumer<T>(program: seq<Op<T>>) {
    forall i :: 0 <= i < |program| ==> program[i].Pop?
  }

  predicate OneSided<T>(programs: seq<seq<Op<T>>>) {
    forall i :: 0 <= i < |programs| ==> Producer(programs[i]) || Consumer(programs[i])
  }

  // Every call waits until it can take effect.
  predicate Blocking<T>(program: seq<Op<T>>) {
    forall i :: 0 <= i < |program| ==> Waits(program[i])
  }

  // What operations that take effect add to the queue, less what they remove.
  function Effect<T>(ops: seq<Op<T>>): int {
    if ops == [] then 0
    else (if Adds(ops[0]) then 1 else if Removes(ops[0]) then -1 else 0) + Effect(ops[1..])
  }

  // Calls that have taken effect.
  function Past<T>(th: Thread<T>): nat {
    th.done + (if th.pc.Unlocking? then 1 else 0)
  }

  // Elements the thread will still add, or remove if negative.
  function Owed<T>(th: Thread<T>): int {
    if Past(th) <= |th.program| then Effect(th.program[Past(th)..]) else 0
  }

  // What the queue will hold when every call has taken effect.
  function Balance<T>(s: State<T>): int {
    |s.queue| + Sum(s.threads, Owed<T>)
  }

  predicate AllDone<T>(s: State<T>) {
    forall t :: 0 <= t < |s.threads| ==> s.threads[t].done == |s.threads[t].program|
  }

  // Nothing but a spurious wakeup can happen.
  ghost predicate Stuck<T>(s: State<T>) {
    forall e :: Enabled(s, e) ==> e.Spurious?
  }

  // Nobody is past the end of its program.
  ghost predicate WithinPrograms<T>(s: State<T>) {
    forall t :: 0 <= t < |s.threads| ==> s.threads[t].done <= |s.threads[t].program|
  }

  lemma StepKeepsWithinPrograms<T>(s: State<T>, e: Step)
    requires WithinPrograms(s) && Enabled(s, e)
    ensures WithinPrograms(Apply(s, e))
  {}

  ghost predicate AllBlocking<T>(s: State<T>) {
    forall t :: 0 <= t < |s.threads| ==> Blocking(s.threads[t].program)
  }

  lemma StepKeepsPrograms<T>(s: State<T>, e: Step)
    requires Enabled(s, e)
    ensures |Apply(s, e).threads| == |s.threads|
    ensures forall t :: 0 <= t < |s.threads| ==> Apply(s, e).threads[t].program == s.threads[t].program
  {}

  // Only Mutate changes what a thread owes, by what it adds to the queue.
  lemma MutateChangesOwed<T>(s: State<T>, t: nat)
    requires Enabled(s, Mutate(t))
    ensures var s' := Apply(s, Mutate(t));
            && |s'.queue| - |s.queue| == Owed(s.threads[t]) - Owed(s'.threads[t])
            && s'.threads == s.threads[t := s'.threads[t]]
  {
    var th := s.threads[t];
    assert th.program[th.done..][0] == Current(s, t) && th.program[th.done..][1..] == th.program[th.done + 1..];
  }

  lemma OtherStepKeepsPast<T>(s: State<T>, e: Step)
    requires AllBlocking(s) && Enabled(s, e) && !e.Notify? && !e.Mutate?
    ensures var s' := Apply(s, e);
            && s'.queue == s.queue && |s'.threads| == |s.threads|
            && e.t < |s.threads| && s'.threads == s.threads[e.t := s'.threads[e.t]]
            && s'.threads[e.t].program == s.threads[e.t].program && Past(s'.threads[e.t]) == Past(s.threads[e.t])
  {
    if e.Test? {
      assert Waits(Current(s, e.t));
    }
  }

  lemma SamePastOwesSame<T>(x: Thread<T>, y: Thread<T>)
    requires x.program == y.program && Past(x) == Past(y)
    ensures Owed(x) == Owed(y)
  {}

  lemma NotifyKeepsPast<T>(s: State<T>, t: nat)
    requires Enabled(s, Notify(t))
    ensures var s' := Apply(s, Notify(t));
            && s'.queue == s.queue && |s'.threads| == |s.threads|
            && forall i :: 0 <= i < |s.threads| ==>
                 s'.threads[i].program == s.threads[i].program && Past(s'.threads[i]) == Past(s.threads[i])
  {}

  lemma NotifyKeepsBalance<T>(s: State<T>, t: nat)
    requires Enabled(s, Notify(t))
    ensures Balance(Apply(s, Notify(t))) == Balance(s)
  {
    var s' := Apply(s, Notify(t));
    NotifyKeepsPast(s, t);
    forall i | 0 <= i < |s.threads| ensures Owed<T>(s'.threads[i]) == Owed<T>(s.threads[i]) {
      SamePastOwesSame(s.threads[i], s'.threads[i]);
    }
    SumSame(s.threads, s'.threads, Owed<T>);
  }

  lemma StepKeepsBalance<T>(s: State<T>, e: Step)
    requires AllBlocking(s) && Enabled(s, e)
    ensures Balance(Apply(s, e)) == Balance(s)
  {
    if e.Notify? {
      NotifyKeepsBalance(s, e.t);
    } else {
      var x := Apply(s, e).threads[e.t];
      if e.Mutate? {
        MutateChangesOwed(s, e.t);
      } else {
        OtherStepKeepsPast(s, e);
        SamePastOwesSame(s.threads[e.t], x);
      }
      SumUpdate(s.threads, e.t, x, Owed<T>);
    }
  }

  lemma {:induction false} PathKeepsBalance<T>(s: State<T>, es: seq<Step>, t: State<T>)
    requires Inv(s) && WithinPrograms(s) && AllBlocking(s) && Path(s, es, t)
    ensures Inv(t) && WithinPrograms(t) && Balance(t) == Balance(s) && t.max == s.max
    ensures |t.threads| == |s.threads|
    ensures forall i :: 0 <= i < |s.threads| ==> t.threads[i].program == s.threads[i].program
    decreases es
  {
    if es != [] {
      StepKeepsInv(s, es[0]);
      StepKeepsPrograms(s, es[0]);
      StepKeepsWithinPrograms(s, es[0]);
      StepKeepsBalance(s, es[0]);
      PathKeepsBalance(Apply(s, es[0]), es[1..], t);
    }
  }

  lemma HolderCanStep<T>(s: State<T>) returns (e: Step)
    requires Inv(s) && s.lock.Some?
    ensures Enabled(s, e) && !e.Spurious?
  {
    var h := s.lock.value;
    match s.threads[h].pc
    case Testing => e := Test(h);
    case Noting => e := Notify(h);
    case Mutating => e := Mutate(h);
    case Unlocking(_) => e := Unlock(h);
  }

  lemma StuckMeansAsleep<T>(s: State<T>)
    requires Inv(s) && Stuck(s)
    ensures forall t: nat :: Active(s, t) ==> At(s, t, Asleep)
  {
    if s.lock.Some? {
      var e := HolderCanStep(s);
    }
    forall t: nat | Active(s, t) ensures At(s, t, Asleep) {
      assert !Enabled(s, Acquire(t));
    }
  }

  // All planned pushes minus all planned pops.
  function Plan<T>(programs: seq<seq<Op<T>>>): int {
    Sum(programs, Effect<T>)
  }

  predicate AllBlock<T>(programs: seq<seq<Op<T>>>) {
    forall i :: 0 <= i < |programs| ==> Blocking(programs[i])
  }

  lemma {:induction false} InitialBalance<T>(ts: seq<Thread<T>>, programs: seq<seq<Op<T>>>)
    requires |ts| == |programs| && forall i :: 0 <= i < |ts| ==> ts[i] == Thread(Ready, programs[i], 0, [])
    ensures Sum(ts, Owed<T>) == Plan(programs)
  {
    if ts != [] {
      assert programs[0][0..] == programs[0];
      assert Owed(ts[0]) == Effect(programs[0]);
      InitialBalance(ts[1..], programs[1..]);
    }
  }

  lemma ReachableBalance<T>(max: Option<nat>, programs: seq<seq<Op<T>>>, es: seq<Step>, t: State<T>)
    requires (max.Some? ==> max.value > 0) && AllBlock(programs) && Path(Initial(max, programs), es, t)
    ensures Inv(t) && WithinPrograms(t) && Balance(t) == Plan(programs) && t.max == max
    ensures |t.threads| == |programs| && forall i :: 0 <= i < |programs| ==> t.threads[i].program == programs[i]
  {
    var s := Initial(max, programs);
    InitialBalance(s.threads, programs);
    PathKeepsBalance(s, es, t);
  }

  // What is left of a one-sided program adds, or removes, only.
  lemma {:induction false} OneSidedEffect<T>(ops: seq<Op<T>>)
    ensures Producer(ops) ==> Effect(ops) == |ops|
    ensures Consumer(ops) ==> Effect(ops) == -|ops|
  {
    if ops != [] {
      OneSidedEffect(ops[1..]);
      assert Producer(ops) ==> ops[0].Push? && Producer(ops[1..]);
      assert Consumer(ops) ==> ops[0].Pop? && Consumer(ops[1..]);
    }
  }

  // A thread asleep on one side, or done, owes only what its side does.
  lemma OwedBySide<T>(s: State<T>, u: nat, adds: bool)
    requires Inv(s) && WithinPrograms(s) && u < |s.threads|
    requires Producer(s.threads[u].program) || Consumer(s.threads[u].program)
    requires Active(s, u) ==> At(s, u, Asleep) && Adds(Current(s, u)) == adds
    ensures if adds then Owed(s.threads[u]) >= 0 else Owed(s.threads[u]) <= 0
    ensures Active(s, u) ==> Owed(s.threads[u]) != 0
  {
    var th := s.threads[u];
    assert !th.pc.Unlocking?;
    var rest := th.program[th.done..];
    assert Producer(th.program) ==> Producer(rest);
    assert Consumer(th.program) ==> Consumer(rest);
    OneSidedEffect(rest);
  }

  lemma SleeperUnbalances<T>(s: State<T>, t: nat)
    requires Inv(s) && WithinPrograms(s) && At(s, t, Asleep)
    requires forall u :: 0 <= u < |s.threads| ==> Producer(s.threads[u].program) || Consumer(s.threads[u].program)
    requires forall u: nat :: Active(s, u) ==> At(s, u, Asleep)
    ensures Balance(s) < 0 || (s.max.Some? && s.max.value < Balance(s))
  {
    var adds := Adds(Current(s, t));
    forall u: nat | u < |s.threads|
      ensures if adds then Owed(s.threads[u]) >= 0 else Owed(s.threads[u]) <= 0
      ensures u == t ==> Owed(s.threads[u]) != 0
    {
      if Active(s, u) {
        assert At(s, u, Asleep) && Adds(Current(s, u)) == adds;
      }
      OwedBySide(s, u, adds);
    }
    if adds {
      SumNonNegative(s.threads, t, Owed<T>);
    } else {
      SumNonPositive(s.threads, t, Owed<T>);
    }
  }

  lemma StuckIsDone<T>(s: State<T>)
    requires Inv(s) && WithinPrograms(s) && Stuck(s)
    requires forall u :: 0 <= u < |s.threads| ==> Producer(s.threads[u].program) || Consumer(s.threads[u].program)
    requires 0 <= Balance(s) && (s.max.Some? ==> Balance(s) <= s.max.value)
    ensures AllDone(s)
  {
    StuckMeansAsleep(s);
    forall t: nat | t < |s.threads| ensures s.threads[t].done == |s.threads[t].program| {
      if Active(s, t) {
        SleeperUnbalances(s, t);
      }
    }
  }

  /** When the producers' plans and the consumers' plans fit, no reachable state is stuck before
      every call is over. */
  lemma StuckOnlyWhenDone<T>(max: Option<nat>, programs: seq<seq<Op<T>>>, es: seq<Step>, t: State<T>)
    requires (max.Some? ==> max.value > 0) && OneSided(programs) && Path(Initial(max, programs), es, t)
    requires 0 <= Plan(programs) && (max.Some? ==> Plan(programs) <= max.value)
    ensures Stuck(t) ==> AllDone(t)
  {
    assert AllBlock(programs);
    ReachableBalance(max, programs, es, t);
    if Stuck(t) {
      forall u | 0 <= u < |t.threads| ensures Producer(t.threads[u].program) || Consumer(t.threads[u].program) {
        assert t.threads[u].program == programs[u];
      }
      StuckIsDone(t);
    }
  }

  /** And the condition is necessary, for any programs of blocking calls, whoever pushes and pops
      in whatever order: a state in which every call is over is reachable only when the plans fit,
      and then the queue holds exactly the difference. */
  lemma DoneOnlyWhenPlansFit<T>(max: Option<nat>, programs: seq<seq<Op<T>>>, es: seq<Step>, t: State<T>)
    requires (max.Some? ==> max.value > 0) && AllBlock(programs) && Path(Initial(max, programs), es, t)
    requires AllDone(t)
    ensures |t.queue| == Plan(programs)
    ensures 0 <= Plan(programs) && (max.Some? ==> Plan(programs) <= max.value)
  {
    ReachableBalance(max, programs, es, t);
    SumZero(t.threads, Owed<T>);
  }

  // Calls not yet past their notification.
  function Uncommitted<T>(th: Thread<T>): int {
    |th.program| - th.done - (if th.pc.Mutating? || th.pc.Unlocking? then 1 else 0)
  }

  function Weight<T>(pc: Pc<T>): int {
    match pc
    case Mutating => 5
    case Unlocking(_) => 4
    case Ready => 3
    case Testing => 2
    case Noting => 1
    case Asleep => 0
  }

  // A call that commits pays for waking every other thread.
  function Potential<T>(k: int): Thread<T> -> int {
    (th: Thread<T>) => k * Uncommitted(th) + Weight(th.pc)
  }

  function Measure<T>(s: State<T>): int {
    Sum(s.threads, Potential<T>(3 * |s.threads| + 6))
  }

  lemma OneThreadPays<T>(k: int, before: Thread<T>, after: Thread<T>)
    requires Uncommitted(after) == Uncommitted(before) - 1 && Weight(after.pc) <= Weight(before.pc) + 5
    ensures Potential<T>(k)(after) <= Potential<T>(k)(before) - k + 5
  {
    assert k * (Uncommitted(before) - 1) == k * Uncommitted(before) - k;
  }

  lemma NotifyDecreases<T>(s: State<T>, t: nat)
    requires Enabled(s, Notify(t))
    ensures Measure(Apply(s, Notify(t))) < Measure(s)
  {
    var k := 3 * |s.threads| + 6;
    var f := Potential<T>(k);
    var woken := Notified(s, Current(s, t));
    var s' := Apply(s, Notify(t));
    forall i | 0 <= i < |s.threads| ensures f(woken[i]) <= f(s.threads[i]) + 3 {}
    SumSlack(s.threads, woken, f, 3);
    SumUpdate(woken, t, s'.threads[t], f);
    OneThreadPays(k, woken[t], s'.threads[t]);
  }

  // Any other step moves one thread: on within its call, or past a refused one.
  lemma OtherStepChange<T>(s: State<T>, e: Step)
    requires Enabled(s, e) && !e.Notify? && !e.Spurious?
    ensures var s' := Apply(s, e);
            && e.t < |s.threads| && |s'.threads| == |s.threads|
            && s'.threads == s.threads[e.t := s'.threads[e.t]]
            && var before, after := s.threads[e.t], s'.threads[e.t];
               if Uncommitted(after) == Uncommitted(before) then Weight(after.pc) < Weight(before.pc)
               else Uncommitted(after) == Uncommitted(before) - 1 && Weight(after.pc) <= Weight(before.pc) + 5
  {}

  lemma OtherStepDecreases<T>(s: State<T>, e: Step)
    requires Enabled(s, e) && !e.Notify? && !e.Spurious?
    ensures Measure(Apply(s, e)) < Measure(s)
  {
    var k := 3 * |s.threads| + 6;
    var after := Apply(s, e).threads[e.t];
    OtherStepChange(s, e);
    SumUpdate(s.threads, e.t, after, Potential<T>(k));
    if Uncommitted(after) != Uncommitted(s.threads[e.t]) {
      OneThreadPays(k, s.threads[e.t], after);
    }
  }

  /** Progress: every step but a spurious wakeup uses up something, so in particular a run
      without spurious wakeups ends, and by StuckOnlyWhenDone it ends with every call over.
      This holds for any programs, one-sided or not. */
  lemma EveryStepUsesUp<T>(s: State<T>, e: Step)
    requires Enabled(s, e) && !e.Spurious?
    ensures Measure(Apply(s, e)) < Measure(s)
  {
    if e.Notify? {
      NotifyDecreases(s, e.t);
    } else {
      OtherStepDecreases(s, e);
    }
  }

  lemma MeasureIsNatural<T>(s: State<T>)
    requires WithinPrograms(s) && LockInv(s)
    ensures Measure(s) >= 0
  {
    var k := 3 * |s.threads| + 6;
    forall t: nat | t < |s.threads| ensures Potential<T>(k)(s.threads[t]) >= 0 {
      assert s.threads[t].pc != Ready ==> Active(s, t);
      assert Uncommitted(s.threads[t]) >= 0 ==> k * Uncommitted(s.threads[t]) >= 0;
    }
    if s.threads != [] {
      SumNonNegative(s.threads, 0, Potential<T>(k));
    }
  }

  lemma SpuriousCosts<T>(s: State<T>, t: nat)
    requires Enabled(s, Spurious(t))
    ensures Measure(Apply(s, Spurious(t))) == Measure(s) + 3
  {
    var th := s.threads[t].(pc := Ready);
    SumUpdate(s.threads, t, th, Potential<T>(3 * |s.threads| + 6));
  }

  function SpuriousWakeups(es: seq<Step>): nat {
    if es == [] then 0 else (if es[0].Spurious? then 1 else 0) + SpuriousWakeups(es[1..])
  }

  /** The bound, for any programs: a run has at most Measure(start) steps that are not spurious
      wakeups, plus three for each spurious wakeup. */
  lemma {:induction false} RunsAreBounded<T>(s: State<T>, es: seq<Step>, t: State<T>)
    requires Inv(s) && WithinPrograms(s) && Path(s, es, t)
    ensures |es| - SpuriousWakeups(es) <= Measure(s) + 3 * SpuriousWakeups(es)
    decreases es
  {
    if es == [] {
      MeasureIsNatural(s);
    } else {
      StepKeepsInv(s, es[0]);
      StepKeepsWithinPrograms(s, es[0]);
      if es[0].Spurious? {
        SpuriousCosts(s, es[0].t);
      } else {
        EveryStepUsesUp(s, es[0]);
      }
      RunsAreBounded(Apply(s, es[0]), es[1..], t);
    }
  }

  /** One-sidedness is needed: a single thread that pops before it pushes has a plan that fits
      and gets stuck at once. */
  lemma MixedProgramCanStick<T>(v: T)
    ensures exists es, t ::
              Path(Initial(Some(1), [[Pop, Push(v)]]), es, t) && Stuck(t) && !AllDone(t) && t.queue == []
  {
    var s0 := Initial(Some(1), [[Pop, Push(v)]]);
    var s1 := Apply(s0, Acquire(0));
    var s2 := Apply(s1, Test(0));
    assert Path(s2, [], s2);
    assert Path(s1, [Test(0)], s2);
    var es := [Acquire(0), Test(0)];
    assert es[1..] == [Test(0)];
    assert Path(s0, es, s2);
    assert At(s2, 0, Asleep) && |s2.threads| == 1;
    assert Stuck(s2) && !AllDone(s2);
  }
}
