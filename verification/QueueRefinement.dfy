/**
 Both blocking queues refine an atomic first-in first-out queue: an operation that has not
 finished is pending, and takes effect at one instant between its call and its return.
 */
module QueueRefinement {
  import opened Wrappers
  import opened QueueProtocol

  // What one operation does to the whole contents at once; None when it has to wait.
  datatype Effect<T> = Effect(contents: seq<T>, result: Result<T>)

  function Atomically<T>(max: Option<nat>, contents: seq<T>, op: Op<T>): Option<Effect<T>> {
    var full := IsFull(max, contents);
    match op
    case Push(v) => if full then None else Some(Effect(contents + [v], Done))
    case TryPush(v) => Some(if full then Effect(contents, Refused) else Effect(contents + [v], Done))
    case Pop => if contents == [] then None else Some(Effect(contents[1..], Value(contents[0])))
    case TryPop => Some(if contents == [] then Effect(contents, Refused) else Effect(contents[1..], Value(contents[0])))
    case Front => if contents == [] then None else Some(Effect(contents, Value(contents[0])))
    case TryFront => Some(if contents == [] then Effect(contents, Refused) else Effect(contents, Value(contents[0])))
  }

  // A client of the atomic queue: the results it has been given, the call under way included
  // once it has taken effect.
  datatype Client<T> = Client(program: seq<Op<T>>, results: seq<Result<T>>)

  datatype Atomic<T> = Atomic(max: Option<nat>, contents: seq<T>, clients: seq<Client<T>>)

  // Client c's next operation.
  function Next<T>(a: Atomic<T>, c: nat): Op<T>
    requires c < |a.clients| && |a.clients[c].results| < |a.clients[c].program|
  {
    a.clients[c].program[|a.clients[c].results|]
  }

  // Client c's next operation can take effect, and what it then does.
  predicate CanTake<T>(a: Atomic<T>, c: nat) {
    && c < |a.clients| && |a.clients[c].results| < |a.clients[c].program|
    && Atomically(a.max, a.contents, Next(a, c)).Some?
  }

  function Take<T>(a: Atomic<T>, c: nat): Atomic<T>
    requires CanTake(a, c)
  {
    var e := Atomically(a.max, a.contents, Next(a, c)).value;
    Atomic(a.max, e.contents, a.clients[c := Client(a.clients[c].program, a.clients[c].results + [e.result])])
  }

  ghost predicate AtomicPath<T>(a: Atomic<T>, cs: seq<nat>, b: Atomic<T>)
    decreases cs
  {
    if cs == [] then a == b else CanTake(a, cs[0]) && AtomicPath(Take(a, cs[0]), cs[1..], b)
  }

  function Values<T>(q: seq<Entry<T>>): seq<T> {
    seq(|q|, i requires 0 <= i < |q| => q[i].value)
  }

  function AbstractThread<T>(th: Thread<T>): Client<T> {
    Client(th.program, if th.pc.Unlocking? then th.results + [th.pc.result] else th.results)
  }

  function Abstract<T>(s: State<T>): Atomic<T> {
    Atomic(s.max, Values(s.queue), seq(|s.threads|, i requires 0 <= i < |s.threads| => AbstractThread(s.threads[i])))
  }

  // The call takes effect when the queue is changed or read, or when a non-blocking call finds
  // that it cannot go on.
  ghost predicate IsEffect<T>(s: State<T>, e: Step)
    requires Enabled(s, e)
  {
    e.Mutate? || (e.Test? && Blocked(s.max, s.queue, Current(s, e.t)) && !Waits(Current(s, e.t)))
  }

  ghost predicate ResultsInv<T>(s: State<T>) {
    forall t :: 0 <= t < |s.threads| ==> |s.threads[t].results| == s.threads[t].done
  }

  lemma StepKeepsResultsInv<T>(s: State<T>, e: Step)
    requires ResultsInv(s) && Enabled(s, e)
    ensures ResultsInv(Apply(s, e))
  {}

  lemma SilentStep<T>(s: State<T>, e: Step)
    requires Enabled(s, e) && !IsEffect(s, e)
    ensures Abstract(Apply(s, e)) == Abstract(s)
  {
    var s' := Apply(s, e);
    forall i | 0 <= i < |s.threads| ensures AbstractThread(s'.threads[i]) == AbstractThread(s.threads[i]) {}
  }

  lemma EffectStep<T>(s: State<T>, e: Step)
    requires Inv(s) && ResultsInv(s) && Enabled(s, e) && IsEffect(s, e)
    ensures CanTake(Abstract(s), e.t) && Take(Abstract(s), e.t) == Abstract(Apply(s, e))
  {
    var op := Current(s, e.t);
    var s' := Apply(s, e);
    var a := Abstract(s);
    var effect := Atomically(a.max, a.contents, op);
    assert a.clients[e.t] == Client(s.threads[e.t].program, s.threads[e.t].results);
    assert e.Mutate? ==> At(s, e.t, Mutating) && !Blocked(s.max, s.queue, op);
    assert effect.Some? && Values(s'.queue) == effect.value.contents;
    assert s'.threads[e.t].pc == Unlocking(effect.value.result);
    var c := a.clients[e.t];
    assert Abstract(s').clients == a.clients[e.t := Client(c.program, c.results + [effect.value.result])];
  }

  // The threads whose calls take effect along a path, in order.
  ghost function Effects<T>(s: State<T>, es: seq<Step>, t: State<T>): seq<nat>
    requires Path(s, es, t)
    decreases es
  {
    if es == [] then []
    else
      var rest := Effects(Apply(s, es[0]), es[1..], t);
      if IsEffect(s, es[0]) then [es[0].t] + rest else rest
  }

  /** Refinement: along every path the calls of all threads take effect one at a time, each as
      the atomic queue prescribes, with the results the threads really get. */
  lemma {:induction false} PathRefinesAtomicQueue<T>(s: State<T>, es: seq<Step>, t: State<T>)
    requires Inv(s) && ResultsInv(s) && Path(s, es, t)
    ensures AtomicPath(Abstract(s), Effects(s, es, t), Abstract(t))
    decreases es
  {
    if es != [] {
      var s' := Apply(s, es[0]);
      StepKeepsInv(s, es[0]);
      StepKeepsResultsInv(s, es[0]);
      PathRefinesAtomicQueue(s', es[1..], t);
      if IsEffect(s, es[0]) {
        EffectStep(s, es[0]);
        var cs := Effects(s, es, t);
        assert cs[1..] == Effects(s', es[1..], t);
      } else {
        SilentStep(s, es[0]);
      }
    }
  }

  lemma {:induction false} PathKeepsInv<T>(s: State<T>, es: seq<Step>, t: State<T>)
    requires Inv(s) && Path(s, es, t)
    ensures Inv(t) && t.max == s.max && |t.threads| == |s.threads|
    ensures s.pushed <= t.pushed && s.popped <= t.popped
    decreases es
  {
    if es != [] {
      StepKeepsInv(s, es[0]);
      PathKeepsInv(Apply(s, es[0]), es[1..], t);
    }
  }

  /** First in, first out: what was pushed is what was popped followed by the contents, the
      bound is never exceeded, and each producer's elements are popped in the order of its
      calls, each carrying the value of its call. */
  lemma FirstInFirstOut<T>(max: Option<nat>, programs: seq<seq<Op<T>>>, es: seq<Step>, t: State<T>)
    requires (max.Some? ==> max.value > 0) && Path(Initial(max, programs), es, t)
    ensures t.pushed == t.popped + t.queue
    ensures max.Some? ==> |t.queue| <= max.value
    ensures forall i, j :: 0 <= i < j < |t.popped| && t.popped[i].producer == t.popped[j].producer ==>
              t.popped[i].index < t.popped[j].index
    ensures forall x <- t.popped :: x.producer < |t.threads| && x.index < |t.threads[x.producer].program|
              && Adds(t.threads[x.producer].program[x.index]) && t.threads[x.producer].program[x.index].value == x.value
  {
    PathKeepsInv(Initial(max, programs), es, t);
    assert t.popped <= t.pushed;
    forall x | x in t.popped ensures Originates(t, x) {
      assert x in t.pushed;
    }
  }

  /** Producers and consumers are never both asleep: a sleeper on the empty condition means an
      empty queue, a sleeper on the full condition a full one. */
  lemma NeverBothAsleep<T>(max: Option<nat>, programs: seq<seq<Op<T>>>, es: seq<Step>, t: State<T>, u: nat, v: nat)
    requires (max.Some? ==> max.value > 0) && Path(Initial(max, programs), es, t)
    requires At(t, u, Asleep)
    ensures if Adds(Current(t, u)) then max.Some? && |t.queue| == max.value else t.queue == []
    ensures At(t, v, Asleep) ==> Adds(Current(t, u)) == Adds(Current(t, v))
  {
    PathKeepsInv(Initial(max, programs), es, t);
  }
}
