/**
 The queue object itself, one method for each operation. A call of a method is one pass of
 its critical section: it either completes the operation or leaves the caller asleep, to make
 another pass when it is awake again.
 */
module BlockingQueues {
  import opened Wrappers
  import opened QueueProtocol
  import opened QueueRefinement

  // The steps of a pass that completes, that goes to sleep, that refuses.
  function Completes(t: nat): seq<Step> {
    [Acquire(t), Test(t), Notify(t), Mutate(t), Unlock(t)]
  }

  function Sleeps(t: nat): seq<Step> {
    [Acquire(t), Test(t)]
  }

  function Refuses(t: nat): seq<Step> {
    [Acquire(t), Test(t), Unlock(t)]
  }

  lemma {:induction false} PathAppend<T>(s: State<T>, es: seq<Step>, t: State<T>, e: Step)
    requires Path(s, es, t) && Enabled(t, e)
    ensures Path(s, es + [e], Apply(t, e))
    decreases es
  {
    if es == [] {
      assert ([e])[1..] == [];
    } else {
      assert (es + [e])[1..] == es[1..] + [e];
      PathAppend(Apply(s, es[0]), es[1..], t, e);
    }
  }

  class BlockingQueue<T> {
    const maxSize: Option<nat>
    var queue: seq<T>
    ghost var entries: seq<Entry<T>>
    ghost var lock: Option<nat>
    ghost var threads: seq<Thread<T>>
    ghost var pushed: seq<Entry<T>>
    ghost var popped: seq<Entry<T>>
    // The pass under way: where it began and its steps so far.
    ghost var began: State<T>
    ghost var steps: seq<Step>

    ghost function View(): State<T>
      reads this
    {
      State(maxSize, entries, lock, threads, pushed, popped)
    }

    ghost predicate Valid()
      reads this
    {
      queue == Values(entries) && Path(began, steps, View())
    }

    // Ready to begin a pass for the operation `op`.
    ghost predicate Calls(me: nat, op: Op<T>)
      reads this
    {
      Valid() && lock == None && At(View(), me, Ready) && Current(View(), me) == op
    }

    constructor (max: Option<nat>, ghost programs: seq<seq<Op<T>>>)
      requires max.Some? ==> max.value > 0
      ensures Valid() && View() == Initial(max, programs) && Inv(View())
    {
      maxSize := max;
      queue, entries, lock, pushed, popped := [], [], None, [], [];
      threads := Initial(max, programs).threads;
      began, steps := Initial(max, programs), [];
    }

    // The lock, at the beginning of a pass.
    method Lock(ghost me: nat)
      requires Valid() && Enabled(View(), Acquire(me))
      modifies this
      ensures View() == Apply(old(View()), Acquire(me))
      ensures Valid() && began == old(View()) && steps == [Acquire(me)] && queue == old(queue)
    {
      began, steps := View(), [];
      PathAppend(began, steps, View(), Acquire(me));
      lock := Some(me);
      threads := threads[me := threads[me].(pc := Testing)];
      steps := [Acquire(me)];
      assert [] + [Acquire(me)] == steps;
    }

    // The test of the wait condition, and pthread_cond_wait when it holds of a blocking call.
    method TestCondition(ghost me: nat, blocked: bool, waits: bool)
      requires Valid() && Enabled(View(), Test(me))
      requires blocked == Blocked(maxSize, entries, Current(View(), me)) && waits == Waits(Current(View(), me))
      modifies this
      ensures View() == Apply(old(View()), Test(me))
      ensures Valid() && began == old(began) && steps == old(steps) + [Test(me)] && queue == old(queue)
    {
      PathAppend(began, steps, View(), Test(me));
      if blocked && waits {
        lock := None;
      }
      var pc := if !blocked then Noting else if waits then Asleep else Unlocking(Refused);
      threads := threads[me := threads[me].(pc := pc)];
      steps := steps + [Test(me)];
    }

    // The conditional NotifyAll; `empty` and `full` are the conditions that are notified.
    method NotifyAll(ghost me: nat, empty: bool, full: bool)
      requires Valid() && Enabled(View(), Notify(me))
      requires empty <==> Adds(Current(View(), me)) && entries == []
      requires full <==> Removes(Current(View(), me)) && IsFull(maxSize, entries)
      modifies this
      ensures View() == Apply(old(View()), Notify(me))
      ensures Valid() && began == old(began) && steps == old(steps) + [Notify(me)] && queue == old(queue)
    {
      PathAppend(began, steps, View(), Notify(me));
      if empty {
        threads := WakeAll(threads, false);
      }
      if full {
        threads := WakeAll(threads, true);
      }
      threads := threads[me := threads[me].(pc := Mutating)];
      steps := steps + [Notify(me)];
    }

    method Append(ghost me: nat, elem: T)
      requires Valid() && Enabled(View(), Mutate(me))
      requires Adds(Current(View(), me)) && Current(View(), me).value == elem
      modifies this
      ensures View() == Apply(old(View()), Mutate(me))
      ensures Valid() && began == old(began) && steps == old(steps) + [Mutate(me)] && queue == old(queue) + [elem]
    {
      PathAppend(began, steps, View(), Mutate(me));
      queue := queue + [elem];
      ghost var x := Entry(me, threads[me].done, elem);
      entries, pushed := entries + [x], pushed + [x];
      threads := threads[me := threads[me].(pc := Unlocking(Done))];
      steps := steps + [Mutate(me)];
    }

    // front(), and pop() when the operation removes.
    method Take(ghost me: nat, removes: bool) returns (elem: T)
      requires Valid() && Enabled(View(), Mutate(me)) && !Adds(Current(View(), me))
      requires removes == Removes(Current(View(), me))
      modifies this
      ensures View() == Apply(old(View()), Mutate(me))
      ensures Valid() && began == old(began) && steps == old(steps) + [Mutate(me)]
      ensures old(queue) != [] && elem == old(queue)[0]
      ensures queue == if removes then old(queue)[1..] else old(queue)
    {
      PathAppend(began, steps, View(), Mutate(me));
      elem := queue[0];
      if removes {
        queue := queue[1..];
        popped, entries := popped + [entries[0]], entries[1..];
      }
      threads := threads[me := threads[me].(pc := Unlocking(Value(elem)))];
      steps := steps + [Mutate(me)];
    }

    method Release(ghost me: nat)
      requires Valid() && Enabled(View(), Unlock(me))
      modifies this
      ensures View() == Apply(old(View()), Unlock(me))
      ensures Valid() && began == old(began) && steps == old(steps) + [Unlock(me)] && queue == old(queue)
    {
      PathAppend(began, steps, View(), Unlock(me));
      ghost var th := threads[me];
      lock := None;
      threads := threads[me := Thread(Ready, th.program, th.done + 1, th.results + [th.pc.result])];
      steps := steps + [Unlock(me)];
    }

    predicate Full()
      reads this
    {
      maxSize.Some? && |queue| == maxSize.value
    }

    /** One pass of Push. A full queue puts the caller to sleep and changes nothing else. */
    method Push(ghost me: nat, elem: T) returns (done: bool)
      requires Calls(me, Op.Push(elem))
      modifies this
      ensures Valid() && lock == None
      ensures done == !old(Full()) && queue == if done then old(queue) + [elem] else old(queue)
      ensures began == old(View()) && (done ==> steps == Completes(me)) && (!done ==> steps == Sleeps(me))
    {
      Lock(me);
      done := !Full();
      TestCondition(me, !done, true);
      if done {
        NotifyAll(me, |queue| == 0, false);
        Append(me, elem);
        Release(me);
      }
    }

    /** NonblockingPush refuses exactly when the queue is full. */
    method NonblockingPush(ghost me: nat, elem: T) returns (done: bool)
      requires Calls(me, TryPush(elem))
      modifies this
      ensures Valid() && lock == None
      ensures done == !old(Full()) && queue == if done then old(queue) + [elem] else old(queue)
      ensures began == old(View()) && (done ==> steps == Completes(me)) && (!done ==> steps == Refuses(me))
    {
      Lock(me);
      done := !Full();
      TestCondition(me, !done, false);
      if done {
        NotifyAll(me, |queue| == 0, false);
        Append(me, elem);
      }
      Release(me);
    }

    /** One pass of Pop. An empty queue puts the caller to sleep. */
    method Pop(ghost me: nat) returns (elem: Option<T>)
      requires Calls(me, Op.Pop)
      modifies this
      ensures Valid() && lock == None
      ensures old(queue) == [] ==> elem == None && queue == []
      ensures old(queue) != [] ==> elem == Some(old(queue)[0]) && queue == old(queue)[1..]
      ensures began == old(View()) && (elem.Some? ==> steps == Completes(me)) && (!elem.Some? ==> steps == Sleeps(me))
    {
      Lock(me);
      TestCondition(me, |queue| == 0, true);
      if |queue| == 0 {
        return None;
      }
      NotifyAll(me, false, Full());
      var x := Take(me, true);
      Release(me);
      elem := Some(x);
    }

    /** NonblockingPop refuses exactly when the queue is empty. */
    method NonblockingPop(ghost me: nat) returns (elem: Option<T>)
      requires Calls(me, TryPop)
      modifies this
      ensures Valid() && lock == None
      ensures old(queue) == [] ==> elem == None && queue == []
      ensures old(queue) != [] ==> elem == Some(old(queue)[0]) && queue == old(queue)[1..]
      ensures began == old(View()) && (elem.Some? ==> steps == Completes(me)) && (!elem.Some? ==> steps == Refuses(me))
    {
      elem := None;
      Lock(me);
      TestCondition(me, |queue| == 0, false);
      if |queue| > 0 {
        NotifyAll(me, false, Full());
        var x := Take(me, true);
        elem := Some(x);
      }
      Release(me);
    }

    /** One pass of Front: the queue is only read. */
    method Front(ghost me: nat) returns (elem: Option<T>)
      requires Calls(me, Op.Front)
      modifies this
      ensures Valid() && lock == None && queue == old(queue)
      ensures elem == if queue == [] then None else Some(queue[0])
      ensures began == old(View()) && (elem.Some? ==> steps == Completes(me)) && (!elem.Some? ==> steps == Sleeps(me))
    {
      Lock(me);
      TestCondition(me, |queue| == 0, true);
      if |queue| == 0 {
        return None;
      }
      NotifyAll(me, false, false);
      var x := Take(me, false);
      Release(me);
      elem := Some(x);
    }

    method NonblockingFront(ghost me: nat) returns (elem: Option<T>)
      requires Calls(me, TryFront)
      modifies this
      ensures Valid() && lock == None && queue == old(queue)
      ensures elem == if queue == [] then None else Some(queue[0])
      ensures began == old(View()) && (elem.Some? ==> steps == Completes(me)) && (!elem.Some? ==> steps == Refuses(me))
    {
      elem := None;
      Lock(me);
      TestCondition(me, |queue| == 0, false);
      if |queue| > 0 {
        NotifyAll(me, false, false);
        var x := Take(me, false);
        elem := Some(x);
      }
      Release(me);
    }
  }
}
