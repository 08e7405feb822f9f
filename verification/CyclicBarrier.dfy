/**
 The reusable barrier: include/CyclicBarrier.h.

 A generation is named by the pair of indices that a waiter copies on arrival, its ticket. A
 trip starts the next generation by advancing the barrier index, Reset by advancing the reset
 index. One step is one critical section; indices are unbounded.
 */
module CyclicBarrierProtocol {
  import opened Wrappers

  datatype Ticket = Ticket(barrier: nat, reset: nat)

  // Where one caller of Wait is.
  datatype Waiter =
    | Outside
    | Blocked(ticket: Ticket, asleep: bool)
    | Left(ret: int, ticket: Ticket)

  datatype State = State(
    maxCount: nat,
    count: int,
    barrierIndex: nat,
    resetIndex: nat,
    waiters: seq<Waiter>,
    // Accounting: arrivals in all, arrivals thrown away by Reset, arrivals of each generation,
    // and the callers blocked with the current ticket.
    arrivals: nat,
    discarded: nat,
    arrived: map<Ticket, nat>,
    inside: set<nat>)

  datatype Step = Arrive(w: nat) | Recheck(w: nat) | Reset | Spurious(w: nat)

  function Initial(max: nat, n: nat): State {
    State(max, max, 0, 0, seq(n, _ => Outside), 0, 0, map[], {})
  }

  function Current(s: State): Ticket {
    Ticket(s.barrierIndex, s.resetIndex)
  }

  predicate Enabled(s: State, e: Step) {
    match e
    case Arrive(w) => w < |s.waiters| && !s.waiters[w].Blocked?
    case Recheck(w) => w < |s.waiters| && s.waiters[w].Blocked? && !s.waiters[w].asleep
    case Reset => true
    case Spurious(w) => w < |s.waiters| && s.waiters[w].Blocked? && s.waiters[w].asleep
  }

  function WakeAll(ws: seq<Waiter>): seq<Waiter> {
    seq(|ws|, i requires 0 <= i < |ws| => if ws[i].Blocked? then ws[i].(asleep := false) else ws[i])
  }

  function Arrived(s: State, g: Ticket): nat {
    if g in s.arrived then s.arrived[g] else 0
  }

  // The arrival itself is counted, whatever happens next.
  function Counted(s: State): State {
    s.(count := s.count - 1, arrivals := s.arrivals + 1,
       arrived := s.arrived[Current(s) := Arrived(s, Current(s)) + 1])
  }

  function Apply(s: State, e: Step): State
    requires Enabled(s, e)
  {
    match e
    case Arrive(w) =>
      var c := Counted(s);
      if c.count == 0 then
        c.(waiters := WakeAll(s.waiters)[w := Left(0, Current(s))],
           count := s.maxCount, barrierIndex := s.barrierIndex + 1, inside := {})
      else
        c.(waiters := s.waiters[w := Blocked(Current(s), true)], inside := s.inside + {w})
    case Recheck(w) =>
      var k := s.waiters[w].ticket;
      s.(waiters := s.waiters[w :=
           if k == Current(s) then Blocked(k, true)
           else Left(if k.reset != s.resetIndex then 1 else 0, k)])
    case Reset =>
      s.(waiters := WakeAll(s.waiters), count := s.maxCount, resetIndex := s.resetIndex + 1,
         discarded := s.discarded + (if s.count <= s.maxCount then s.maxCount - s.count else 0), inside := {})
    case Spurious(w) => s.(waiters := s.waiters[w := s.waiters[w].(asleep := false)])
  }

  ghost predicate Path(s: State, es: seq<Step>, t: State)
    decreases es
  {
    if es == [] then s == t else Enabled(s, es[0]) && Path(Apply(s, es[0]), es[1..], t)
  }

  ghost predicate WaiterInv(s: State, w: Waiter) {
    match w
    case Outside => true
    case Blocked(k, asleep) =>
      k.barrier <= s.barrierIndex && k.reset <= s.resetIndex && k in s.arrived && (asleep ==> k == Current(s))
    case Left(ret, k) =>
      && (ret == 0 || ret == 1)
      && (ret == 0 ==> Arrived(s, k) == s.maxCount && k.barrier < s.barrierIndex)
      && (ret == 1 ==> k.reset < s.resetIndex)
  }

  ghost predicate Accounting(s: State) {
    && 1 <= s.count <= s.maxCount
    && s.arrivals == s.maxCount * s.barrierIndex + s.discarded + (s.maxCount - s.count)
    && Arrived(s, Current(s)) == s.maxCount - s.count
  }

  ghost predicate Insiders(s: State) {
    && |s.inside| == s.maxCount - s.count
    && (forall w: nat :: w in s.inside <==>
          w < |s.waiters| && s.waiters[w].Blocked? && s.waiters[w].ticket == Current(s))
  }

  ghost predicate Generations(s: State) {
    && (forall k <- s.arrived :: k.barrier <= s.barrierIndex && k.reset <= s.resetIndex)
    // A generation that ended without a Reset ended full.
    && (forall k <- s.arrived :: k.barrier < s.barrierIndex && k.reset == s.resetIndex ==> s.arrived[k] == s.maxCount)
  }

  ghost predicate Waiters(s: State) {
    forall w :: 0 <= w < |s.waiters| ==> WaiterInv(s, s.waiters[w])
  }

  ghost predicate Inv(s: State) {
    Accounting(s) && Insiders(s) && Generations(s) && Waiters(s)
  }

  lemma StepKeepsInv(s: State, e: Step)
    requires Inv(s) && Enabled(s, e)
    ensures Inv(Apply(s, e))
  {
    match e
    case Arrive(w) => ArriveKeepsInv(s, w);
    case Recheck(w) =>
    case Reset => ResetKeepsInv(s);
    case Spurious(w) =>
  }

  lemma ArriveKeepsInv(s: State, w: nat)
    requires Inv(s) && Enabled(s, Arrive(w))
    ensures Inv(Apply(s, Arrive(w)))
  {
    ArriveKeepsAccounting(s, w);
    ArriveKeepsWaiters(s, w);
    assert w !in s.inside;
  }

  lemma ArriveKeepsAccounting(s: State, w: nat)
    requires Accounting(s) && Generations(s) && Enabled(s, Arrive(w))
    ensures Accounting(Apply(s, Arrive(w))) && Generations(Apply(s, Arrive(w)))
  {
    assert s.maxCount * (s.barrierIndex + 1) == s.maxCount * s.barrierIndex + s.maxCount;
  }

  lemma ArriveKeepsWaiters(s: State, w: nat)
    requires Accounting(s) && Waiters(s) && Enabled(s, Arrive(w))
    ensures Waiters(Apply(s, Arrive(w)))
  {
    var t := Apply(s, Arrive(w));
    forall v | 0 <= v < |t.waiters| ensures WaiterInv(t, t.waiters[v]) {
      assert WaiterInv(s, s.waiters[v]);
    }
  }

  lemma ResetKeepsInv(s: State)
    requires Inv(s)
    ensures Inv(Apply(s, Reset))
  {
    var t := Apply(s, Reset);
    assert Current(t) !in t.arrived;
    forall v | 0 <= v < |t.waiters| ensures WaiterInv(t, t.waiters[v]) {
      assert WaiterInv(s, s.waiters[v]);
    }
  }

  // Calls of Reset among the steps.
  function Resets(es: seq<Step>): nat {
    if es == [] then 0 else (if es[0].Reset? then 1 else 0) + Resets(es[1..])
  }

  // Calls of Wait among the steps.
  function Arrivals(es: seq<Step>): nat {
    if es == [] then 0 else (if es[0].Arrive? then 1 else 0) + Arrivals(es[1..])
  }

  lemma {:induction false} PathKeepsInv(s: State, es: seq<Step>, t: State)
    requires Inv(s) && Path(s, es, t)
    ensures Inv(t) && t.maxCount == s.maxCount && |t.waiters| == |s.waiters|
    ensures t.resetIndex == s.resetIndex + Resets(es) && s.barrierIndex <= t.barrierIndex
    ensures t.arrivals == s.arrivals + Arrivals(es)
    decreases es
  {
    if es != [] {
      StepKeepsInv(s, es[0]);
      PathKeepsInv(Apply(s, es[0]), es[1..], t);
    }
  }

  /** Accounting across any number of generations: the count stays within its bounds, exactly
      max - count callers are blocked with the current ticket, and every arrival belongs to a
      trip, to a Reset or to the generation under way. */
  lemma BarrierAccounting(max: nat, n: nat, es: seq<Step>, t: State)
    requires max > 0 && Path(Initial(max, n), es, t)
    ensures 1 <= t.count <= max
    ensures |set w: nat | w < |t.waiters| && t.waiters[w].Blocked? && t.waiters[w].ticket == Current(t)|
            == max - t.count
    ensures Arrivals(es) == t.arrivals == max * t.barrierIndex + t.discarded + (max - t.count)
  {
    PathKeepsInv(Initial(max, n), es, t);
    assert t.inside == set w: nat | w < |t.waiters| && t.waiters[w].Blocked? && t.waiters[w].ticket == Current(t);
  }

  /** No lost wakeup: an unsignalled sleeper holds the current ticket, so whoever belongs to a
      generation that is over is awake and leaves at its next pass. */
  lemma OldGenerationsLeave(max: nat, n: nat, es: seq<Step>, t: State, w: nat)
    requires max > 0 && Path(Initial(max, n), es, t) && w < |t.waiters| && t.waiters[w].Blocked?
    requires t.waiters[w].ticket != Current(t)
    ensures !t.waiters[w].asleep && Enabled(t, Recheck(w))
    ensures Apply(t, Recheck(w)).waiters[w].Left?
  {
    PathKeepsInv(Initial(max, n), es, t);
    assert WaiterInv(t, t.waiters[w]);
  }

  /** What the return value means. A return of 0 says that exactly max callers arrived in the
      caller's generation and that the generation is over; a return of 1 says that the reset
      index has moved past the caller's. */
  lemma ReturnValue(max: nat, n: nat, es: seq<Step>, t: State, w: nat)
    requires max > 0 && Path(Initial(max, n), es, t) && w < |t.waiters| && t.waiters[w].Left?
    ensures t.waiters[w].ret == 0 ==>
              Arrived(t, t.waiters[w].ticket) == max && t.waiters[w].ticket.barrier < t.barrierIndex
    ensures t.waiters[w].ret != 0 ==> t.waiters[w].ret == 1 && t.waiters[w].ticket.reset < t.resetIndex
  {
    PathKeepsInv(Initial(max, n), es, t);
    assert WaiterInv(t, t.waiters[w]);
  }

  /** Exactly when a blocked caller returns 1: from its arrival in state s to its last pass in
      state t, its generation is over and Reset was called at least once. Without a Reset it
      returns 0, and only after the barrier tripped. */
  lemma ReturnsOneIffReset(max: nat, n: nat, before: seq<Step>, s: State, w: nat, es: seq<Step>, t: State)
    requires max > 0 && Path(Initial(max, n), before, s) && w < |s.waiters|
    requires s.waiters[w] == Blocked(Current(s), true)
    requires Path(s, es, t) && w < |t.waiters| && t.waiters[w] == Blocked(Current(s), false)
    ensures var u := Apply(t, Recheck(w)).waiters[w];
            && (u.Left? <==> Current(t) != Current(s))
            && (u.Left? && u.ret == 1 <==> Resets(es) > 0)
            && (u.Left? && u.ret == 0 <==> Resets(es) == 0 && s.barrierIndex < t.barrierIndex)
  {
    PathKeepsInv(Initial(max, n), before, s);
    PathKeepsInv(s, es, t);
  }

  /** A trip does not decide the return value: with two callers, one that the trip released
      still returns 1 when Reset comes before it has the lock again. */
  lemma ReleasedCallerMayReturnOne()
    ensures exists es, t :: Path(Initial(2, 2), es, t)
              && t.waiters == [Left(1, Ticket(0, 0)), Left(0, Ticket(0, 0))] && Arrived(t, Ticket(0, 0)) == 2
  {
    var s0 := Initial(2, 2);
    var s1 := Apply(s0, Arrive(0));
    var s2 := Apply(s1, Arrive(1));
    assert s2.waiters == [Blocked(Ticket(0, 0), false), Left(0, Ticket(0, 0))];
    var s3 := Apply(s2, Reset);
    assert s3.waiters == s2.waiters;
    var s4 := Apply(s3, Recheck(0));
    var es := [Arrive(0), Arrive(1), Reset, Recheck(0)];
    assert es[1..] == [Arrive(1), Reset, Recheck(0)] && es[1..][1..] == [Reset, Recheck(0)];
    assert [Reset, Recheck(0)][1..] == [Recheck(0)] && [Recheck(0)][1..] == [];
    assert Path(s4, [], s4) && Path(s3, [Recheck(0)], s4);
    assert Path(s2, [Reset, Recheck(0)], s4);
    assert Path(s1, es[1..], s4);
    assert Path(s0, es, s4);
  }

  class CyclicBarrier {
    const maxCount: nat
    var count: int
    var barrierIndex: nat
    var resetIndex: nat
    ghost var waiters: seq<Waiter>
    ghost var arrivals: nat
    ghost var discarded: nat
    ghost var arrived: map<Ticket, nat>
    ghost var inside: set<nat>

    ghost function View(): State
      reads this
    {
      State(maxCount, count, barrierIndex, resetIndex, waiters, arrivals, discarded, arrived, inside)
    }

    constructor (max: nat, ghost callers: nat)
      requires max > 0
      ensures View() == Initial(max, callers) && Inv(View())
    {
      maxCount := max;
      count, barrierIndex, resetIndex := max, 0, 0;
      waiters, arrivals, discarded, arrived, inside := seq(callers, _ => Outside), 0, 0, map[], {};
    }

    // The first pass of Wait, from acquiring the lock to releasing it: either the caller trips the
    // barrier and returns 0, or it goes to sleep with the current ticket.
    method Enter(me: nat) returns (ret: Option<int>, ticket: Ticket)
      requires Enabled(View(), Arrive(me))
      modifies this
      ensures View() == Apply(old(View()), Arrive(me))
      ensures ticket == old(Current(View()))
      ensures ret == if old(count) == 1 then Some(0) else None
      ensures ret == None ==> waiters[me] == Blocked(Current(View()), true)
    {
      ticket, ret := Ticket(barrierIndex, resetIndex), None;
      arrivals := arrivals + 1;
      arrived := arrived[ticket := (if ticket in arrived then arrived[ticket] else 0) + 1];
      count := count - 1;
      if count == 0 {
        waiters, inside := WakeAll(waiters)[me := Left(0, ticket)], {};
        count := maxCount;
        barrierIndex := barrierIndex + 1;
        ret := Some(0);
      } else {
        waiters, inside := waiters[me := Blocked(ticket, true)], inside + {me};
      }
    }

    // One more pass of the wait loop, after a wakeup.
    method Reenter(me: nat, ticket: Ticket) returns (ret: Option<int>)
      requires Inv(View()) && Enabled(View(), Recheck(me)) && waiters[me].ticket == ticket
      modifies this
      ensures View() == Apply(old(View()), Recheck(me)) && Inv(View())
      ensures ret.None? <==> ticket == Current(View())
      ensures ret.Some? ==> waiters[me] == Left(ret.value, ticket)
    {
      StepKeepsInv(View(), Recheck(me));
      if ticket.barrier == barrierIndex && ticket.reset == resetIndex {
        ret := None;
        waiters := waiters[me := Blocked(ticket, true)];
      } else {
        ret := Some(0);
        if ticket.reset != resetIndex {
          ret := Some(1);
        }
        waiters := waiters[me := Left(ret.value, ticket)];
      }
    }

    method ResetAll()
      requires Inv(View())
      modifies this
      ensures View() == Apply(old(View()), Reset) && Inv(View())
      ensures forall w :: 0 <= w < |waiters| && waiters[w].Blocked? ==> !waiters[w].asleep
    {
      StepKeepsInv(View(), Reset);
      discarded, inside := discarded + (maxCount - count), {};
      waiters := WakeAll(waiters);
      count := maxCount;
      resetIndex := resetIndex + 1;
    }
  }
}
