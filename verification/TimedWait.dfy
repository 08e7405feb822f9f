/**
 The clock arithmetic behind a timed wait: ConditionVariable::TimedWait in
 src/ConditionVariable.cpp and GetCurrentTime in src/Timer.cpp.

 Integers are unbounded: the casts to long and the sums are assumed not to overflow.
 */
module TimedWait {

  const EINTR := 4

  // What gettimeofday returns.
  datatype TimeVal = TimeVal(sec: nat, usec: nat)

  datatype TimeSpec = TimeSpec(sec: nat, nsec: nat)

  predicate ValidTimeVal(t: TimeVal) {
    t.usec < 1_000_000
  }

  predicate Normalised(t: TimeSpec) {
    t.nsec < 1_000_000_000
  }

  function Micros(t: TimeVal): nat {
    t.sec * 1_000_000 + t.usec
  }

  function Nanos(t: TimeSpec): nat {
    t.sec * 1_000_000_000 + t.nsec
  }

  /** The absolute timeout is normalised and exactly `delayMs` after `now`, although the code
      carries at most once and computes the fraction in microseconds first. */
  method ComputeTimeout(now: TimeVal, delayMs: nat) returns (timeout: TimeSpec)
    requires ValidTimeVal(now)
    ensures Normalised(timeout)
    ensures Nanos(timeout) == Micros(now) * 1000 + delayMs * 1_000_000
  {
    var sec := now.sec + delayMs / 1000;
    var nsec := now.usec + (delayMs % 1000) * 1000;
    if nsec >= 1_000_000 {
      sec := sec + 1;
      nsec := nsec % 1_000_000;
    }
    nsec := nsec * 1000;
    timeout := TimeSpec(sec, nsec);
  }

  // GetCurrentTime: milliseconds, truncated.
  method CurrentTime(now: TimeVal) returns (ms: nat)
    requires ValidTimeVal(now)
    ensures ms * 1000 <= Micros(now) < (ms + 1) * 1000
  {
    ms := now.sec;
    ms := ms * 1000 + now.usec / 1000;
  }

  /** Normalisation makes the timeout the only one for its instant. */
  lemma TimeoutIsUnique(a: TimeSpec, b: TimeSpec)
    requires Normalised(a) && Normalised(b)
    ensures Nanos(a) == Nanos(b) <==> a == b
  {}

  /** Never early. The timer reads the clock at `read`, computes the delay to a later deadline,
      and arms a timeout at `armed`. If the wait ends by that timeout, the clock then reads at
      least the deadline, in spite of the two truncations; the clock must not run backwards.
      And it is not late by more than the time that passed between the two readings. */
  lemma ExpiryMeetsDeadline(read: TimeVal, readMs: nat, deadline: nat, armed: TimeVal, timeout: TimeSpec,
                            wake: TimeVal, wakeMs: nat)
    requires ValidTimeVal(read) && ValidTimeVal(armed) && ValidTimeVal(wake)
    requires readMs * 1000 <= Micros(read) < (readMs + 1) * 1000
    requires wakeMs * 1000 <= Micros(wake) < (wakeMs + 1) * 1000
    requires Micros(read) <= Micros(armed) && readMs < deadline
    requires Normalised(timeout) && Nanos(timeout) == Micros(armed) * 1000 + (deadline - readMs) * 1_000_000
    ensures Nanos(timeout) <= Micros(wake) * 1000 ==> deadline <= wakeMs
    ensures wakeMs < deadline ==> Micros(wake) * 1000 < Nanos(timeout)
    ensures Nanos(timeout) < (deadline + 1) * 1_000_000 + (Micros(armed) - Micros(read)) * 1000
  {
    assert Micros(armed) >= readMs * 1000;
  }

  /** The retry loop: interrupted waits are repeated and the first other result decides. */
  method RetryInterrupted(results: seq<int>) returns (signalled: bool, tries: nat)
    requires exists i :: 0 <= i < |results| && results[i] != EINTR
    ensures tries < |results| && results[tries] != EINTR
    ensures forall i :: 0 <= i < tries ==> results[i] == EINTR
    ensures signalled <==> results[tries] == 0
  {
    tries := 0;
    while results[tries] == EINTR
      invariant 0 <= tries < |results|
      invariant forall i :: 0 <= i < tries ==> results[i] == EINTR
      invariant exists i :: tries <= i < |results| && results[i] != EINTR
      decreases |results| - tries
    {
      tries := tries + 1;
    }
    signalled := results[tries] == 0;
  }
}
