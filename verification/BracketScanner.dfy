/**
 The bracket matcher of cpplint.py, _GetTextInside: a scan with a stack of the closing
 brackets still expected, proved against a grammar of balanced text.

 Regular expressions are not part of this model: `matchEnd` is where the match of the start
 pattern ends, None when it does not match.
 */
module BracketScanner {
  import opened Wrappers

  // The assertion on the start pattern failed, or the function returned.
  datatype Outcome = AssertionFailed | Returned(text: Option<string>)

  predicate IsOpen(c: char) {
    c == '(' || c == '{' || c == '['
  }

  predicate IsClose(c: char) {
    c == ')' || c == '}' || c == ']'
  }

  function Closer(c: char): char
    requires IsOpen(c)
  {
    if c == '(' then ')' else if c == '{' then '}' else ']'
  }

  /** Derivations of balanced text: nothing, a character that is no bracket, or a bracketed
      balanced text, followed by balanced text. */
  datatype Tree = Empty | Plain(c: char, rest: Tree) | Group(open: char, inner: Tree, rest: Tree)

  predicate WellFormed(t: Tree) {
    match t
    case Empty => true
    case Plain(c, rest) => !IsOpen(c) && !IsClose(c) && WellFormed(rest)
    case Group(open, inner, rest) => IsOpen(open) && WellFormed(inner) && WellFormed(rest)
  }

  function Yield(t: Tree): string
    requires WellFormed(t)
  {
    match t
    case Empty => ""
    case Plain(c, rest) => [c] + Yield(rest)
    case Group(open, inner, rest) => [open] + Yield(inner) + [Closer(open)] + Yield(rest)
  }

  ghost predicate Balanced(s: string) {
    exists t :: WellFormed(t) && Yield(t) == s
  }

  // `text` continues at `at` with `s`.
  predicate Occurs(text: string, at: nat, s: string) {
    at + |s| <= |text| && text[at..at + |s|] == s
  }

  lemma OccursConcat(text: string, at: nat, a: string, b: string)
    ensures Occurs(text, at, a + b) <==> Occurs(text, at, a) && Occurs(text, at + |a|, b)
  {
    if at + |a| + |b| <= |text| {
      var whole := text[at..at + |a| + |b|];
      assert whole[..|a|] == text[at..at + |a|] && whole[|a|..] == text[at + |a|..at + |a| + |b|];
      assert (a + b)[..|a|] == a && (a + b)[|a|..] == b;
      assert whole == whole[..|a|] + whole[|a|..];
    }
  }

  // `s` is balanced and `text` continues at `start` with `s` and then `close`.
  ghost predicate Inside(text: string, start: nat, close: char, s: string) {
    && Occurs(text, start, s)
    && Occurs(text, start + |s|, [close])
    && Balanced(s)
  }

  // The stack of expected closers, as a list and as the sequence the loop keeps (top last).
  datatype Stack = Bottom | Push(top: char, below: Stack)

  function OfSeq(s: seq<char>): Stack {
    if s == [] then Bottom else Push(s[|s| - 1], OfSeq(s[..|s| - 1]))
  }

  predicate Closers(stack: Stack) {
    stack.Push? ==> IsClose(stack.top) && Closers(stack.below)
  }

  // What the loop computes: where the stack becomes empty, None if it does not.
  function Scan(stack: Stack, text: string, position: nat): Option<nat>
    requires position <= |text|
    decreases |text| - position
  {
    if stack == Bottom then Some(position)
    else if position == |text| then None
    else
      var c := text[position];
      if c == stack.top then Scan(stack.below, text, position + 1)
      else if IsClose(c) then None
      else Scan(if IsOpen(c) then Push(Closer(c), stack) else stack, text, position + 1)
  }

  // Scanning from p comes to scanning from q with the same stack.
  predicate Skips(stack: Stack, text: string, p: nat, q: nat) {
    p <= |text| && q <= |text| && Scan(stack, text, p) == Scan(stack, text, q)
  }

  lemma SkipsPlain(stack: Stack, text: string, p: nat, q: nat)
    requires stack != Bottom && IsClose(stack.top)
    requires p < |text| && !IsOpen(text[p]) && !IsClose(text[p]) && Skips(stack, text, p + 1, q)
    ensures Skips(stack, text, p, q)
  {}

  lemma SkipsGroup(stack: Stack, text: string, p: nat, m: nat, q: nat)
    requires stack != Bottom && IsClose(stack.top) && p < |text| && IsOpen(text[p])
    requires Skips(Push(Closer(text[p]), stack), text, p + 1, m)
    requires m < |text| && text[m] == Closer(text[p]) && Skips(stack, text, m + 1, q)
    ensures Skips(stack, text, p, q)
  {
    assert Scan(Push(Closer(text[p]), stack), text, m) == Scan(stack, text, m + 1);
  }

  lemma OccursCharacter(text: string, at: nat, c: char)
    requires Occurs(text, at, [c])
    ensures at < |text| && text[at] == c
  {
    assert text[at..at + 1][0] == c;
  }

  lemma PlainParts(text: string, at: nat, c: char, rest: Tree)
    requires WellFormed(Plain(c, rest)) && Occurs(text, at, Yield(Plain(c, rest)))
    ensures at < |text| && text[at] == c && Occurs(text, at + 1, Yield(rest))
    ensures |Yield(Plain(c, rest))| == 1 + |Yield(rest)|
  {
    OccursConcat(text, at, [c], Yield(rest));
    OccursCharacter(text, at, c);
  }

  lemma GroupParts(text: string, at: nat, open: char, inner: Tree, rest: Tree)
    requires WellFormed(Group(open, inner, rest)) && Occurs(text, at, Yield(Group(open, inner, rest)))
    ensures var m := at + 1 + |Yield(inner)|;
            && m < |text| && text[at] == open && text[m] == Closer(open)
            && Occurs(text, at + 1, Yield(inner)) && Occurs(text, m + 1, Yield(rest))
            && at + |Yield(Group(open, inner, rest))| == m + 1 + |Yield(rest)|
  {
    OccursGroup(text, at, open, inner, rest);
    OccursCharacter(text, at, open);
    OccursCharacter(text, at + 1 + |Yield(inner)|, Closer(open));
  }

  /** Balanced text leaves the stack as it was. */
  lemma {:induction false} ScanSkipsBalanced(stack: Stack, text: string, position: nat, t: Tree)
    requires stack != Bottom && IsClose(stack.top) && WellFormed(t) && Occurs(text, position, Yield(t))
    ensures Skips(stack, text, position, position + |Yield(t)|)
    decreases t
  {
    match t
    case Empty =>
    case Plain(c, rest) =>
      PlainParts(text, position, c, rest);
      ScanSkipsBalanced(stack, text, position + 1, rest);
      SkipsPlain(stack, text, position, position + 1 + |Yield(rest)|);
    case Group(open, inner, rest) =>
      var m := position + 1 + |Yield(inner)|;
      GroupParts(text, position, open, inner, rest);
      ScanSkipsBalanced(Push(Closer(open), stack), text, position + 1, inner);
      ScanSkipsBalanced(stack, text, m + 1, rest);
      SkipsGroup(stack, text, position, m, m + 1 + |Yield(rest)|);
  }

  lemma OccursGroup(text: string, at: nat, open: char, inner: Tree, rest: Tree)
    requires IsOpen(open) && WellFormed(inner) && WellFormed(rest)
    ensures var k := |Yield(inner)|;
            Occurs(text, at, Yield(Group(open, inner, rest))) <==>
              && Occurs(text, at, [open]) && Occurs(text, at + 1, Yield(inner))
              && Occurs(text, at + 1 + k, [Closer(open)]) && Occurs(text, at + 2 + k, Yield(rest))
  {
    OccursConcat(text, at, [open] + Yield(inner) + [Closer(open)], Yield(rest));
    OccursConcat(text, at, [open] + Yield(inner), [Closer(open)]);
    OccursConcat(text, at, [open], Yield(inner));
  }

  // `text` continues at `at` with the balanced text of `t` and then `close`.
  predicate Crosses(close: char, text: string, at: nat, t: Tree) {
    WellFormed(t) && Occurs(text, at, Yield(t)) && Occurs(text, at + |Yield(t)|, [close])
  }

  lemma CrossesNothing(close: char, text: string, at: nat)
    requires at < |text| && text[at] == close
    ensures Crosses(close, text, at, Empty) && |Yield(Empty)| == 0
  {}

  lemma CrossesGroup(close: char, text: string, at: nat, inner: Tree, rest: Tree) returns (t: Tree)
    requires at < |text| && IsOpen(text[at]) && Crosses(Closer(text[at]), text, at + 1, inner)
    requires Crosses(close, text, at + 2 + |Yield(inner)|, rest)
    ensures Crosses(close, text, at, t) && |Yield(t)| == 2 + |Yield(inner)| + |Yield(rest)|
  {
    t := Group(text[at], inner, rest);
    OccursGroup(text, at, text[at], inner, rest);
  }

  lemma CrossesPlain(close: char, text: string, at: nat, rest: Tree) returns (t: Tree)
    requires at < |text| && !IsOpen(text[at]) && !IsClose(text[at]) && Crosses(close, text, at + 1, rest)
    ensures Crosses(close, text, at, t) && |Yield(t)| == 1 + |Yield(rest)|
  {
    t := Plain(text[at], rest);
    OccursConcat(text, at, [text[at]], Yield(rest));
  }

  /** A scan that succeeds crosses some balanced text and then takes the top of the stack away. */
  lemma {:induction false} ScanCrosses(stack: Stack, text: string, position: nat) returns (t: Tree)
    requires stack != Bottom && Closers(stack) && position <= |text| && Scan(stack, text, position).Some?
    ensures Crosses(stack.top, text, position, t)
    ensures Scan(stack, text, position) == Scan(stack.below, text, position + |Yield(t)| + 1)
    decreases |text| - position
  {
    var c := text[position];
    if c == stack.top {
      t := Empty;
      CrossesNothing(c, text, position);
      assert Scan(stack, text, position) == Scan(stack.below, text, position + 1);
    } else if IsOpen(c) {
      assert Scan(stack, text, position) == Scan(Push(Closer(c), stack), text, position + 1);
      var inner := ScanCrosses(Push(Closer(c), stack), text, position + 1);
      var rest := ScanCrosses(stack, text, position + 2 + |Yield(inner)|);
      t := CrossesGroup(stack.top, text, position, inner, rest);
    } else {
      assert Scan(stack, text, position) == Scan(stack, text, position + 1);
      var rest := ScanCrosses(stack, text, position + 1);
      t := CrossesPlain(stack.top, text, position, rest);
    }
  }

  /** Sound and complete: the scan ends right after the closer of `s` if and only if `s` is the
      balanced text inside the bracket. */
  lemma ScanMatchesGrammar(text: string, start: nat, close: char, s: string)
    requires IsClose(close) && start <= |text|
    ensures Inside(text, start, close, s) <==>
              Occurs(text, start, s)
              && Scan(Push(close, Bottom), text, start) == Some(start + |s| + 1)
  {
    if Inside(text, start, close, s) {
      var t :| WellFormed(t) && Yield(t) == s;
      ScanSkipsBalanced(Push(close, Bottom), text, start, t);
      assert text[start + |s|] == close;
      assert Scan(Push(close, Bottom), text, start + |s|) == Scan(Bottom, text, start + |s| + 1);
    }
    if Occurs(text, start, s)
       && Scan(Push(close, Bottom), text, start) == Some(start + |s| + 1) {
      var t := ScanCrosses(Push(close, Bottom), text, start);
      assert Scan(Bottom, text, start + |Yield(t)| + 1) == Some(start + |Yield(t)| + 1);
      assert Yield(t) == s;
    }
  }

  /** At most one text is inside. */
  lemma InsideIsUnique(text: string, start: nat, close: char, s: string, s': string)
    requires IsClose(close) && start <= |text|
    requires Inside(text, start, close, s) && Inside(text, start, close, s')
    ensures s == s'
  {
    ScanMatchesGrammar(text, start, close, s);
    ScanMatchesGrammar(text, start, close, s');
  }

  lemma {:induction false} ScanEndsLater(stack: Stack, text: string, position: nat)
    requires stack != Bottom && position <= |text|
    ensures Scan(stack, text, position).Some? ==> position < Scan(stack, text, position).value <= |text|
    decreases |text| - position
  {
    if position < |text| {
      var c := text[position];
      var next := if c == stack.top then stack.below else if IsOpen(c) then Push(Closer(c), stack) else stack;
      if next != Bottom {
        ScanEndsLater(next, text, position + 1);
      }
    }
  }

  /** The result of a scan, as the text inside. */
  lemma ScanDecidesInside(text: string, start: nat, close: char)
    requires IsClose(close) && start <= |text|
    ensures var end := Scan(Push(close, Bottom), text, start);
            && (end.Some? ==> start < end.value <= |text|)
            && (forall s :: Inside(text, start, close, s) <==> end.Some? && s == text[start..end.value - 1])
  {
    ScanEndsLater(Push(close, Bottom), text, start);
    forall s ensures Inside(text, start, close, s) <==>
                       && Scan(Push(close, Bottom), text, start).Some?
                       && s == text[start..Scan(Push(close, Bottom), text, start).value - 1]
    {
      ScanMatchesGrammar(text, start, close, s);
    }
  }

  /** The function itself. The assertions fail unless the match ends in an opening bracket; a
      text is returned if and only if it is the balanced text inside that bracket, so None is
      returned if and only if there is none. */
  method GetTextInside(text: string, matchEnd: Option<nat>) returns (r: Outcome)
    requires matchEnd.Some? ==> matchEnd.value <= |text|
    ensures r.AssertionFailed? <==> matchEnd.Some? && (matchEnd.value == 0 || !IsOpen(text[matchEnd.value - 1]))
    ensures matchEnd.None? ==> r == Returned(None)
    ensures matchEnd.Some? && r.Returned? ==>
              forall s :: Inside(text, matchEnd.value, Closer(text[matchEnd.value - 1]), s) <==> r.text == Some(s)
  {
    if matchEnd.None? {
      return Returned(None);
    }
    var start := matchEnd.value;
    if !(start > 0) || !IsOpen(text[start - 1]) {
      return AssertionFailed;
    }
    ScanDecidesInside(text, start, Closer(text[start - 1]));
    var end := ScanLoop(text, start);
    r := Returned(if end.Some? then Some(text[start..end.value - 1]) else None);
  }

  // The loop, and the two returns of None around it.
  method ScanLoop(text: string, start: nat) returns (end: Option<nat>)
    requires 0 < start <= |text| && IsOpen(text[start - 1])
    ensures end == Scan(Push(Closer(text[start - 1]), Bottom), text, start)
  {
    var stack := [Closer(text[start - 1])];
    var position := start;
    while stack != [] && position < |text|
      invariant start <= position <= |text|
      invariant Scan(OfSeq(stack), text, position) == Scan(Push(Closer(text[start - 1]), Bottom), text, start)
      decreases |text| - position
    {
      if text[position] == stack[|stack| - 1] {
        stack := stack[..|stack| - 1];
      } else if IsClose(text[position]) {
        return None;
      } else if IsOpen(text[position]) {
        ghost var before := stack;
        stack := stack + [Closer(text[position])];
        assert stack[..|stack| - 1] == before;
      }
      position := position + 1;
    }
    if stack != [] {
      return None;
    }
    end := Some(position);
  }
}
