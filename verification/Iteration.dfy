/** Repeating a partial step. */
module Iteration {
  import opened Wrappers

  /** The state after a number of turns, or `None` if the repetition has ended before. */
  function Turns<S>(step: S -> Option<S>, start: S, n: nat): Option<S> {
    if n == 0 then Some(start)
    else
      var before := Turns(step, start, n - 1);
      if before.None? then None else step(before.value)
  }

  lemma {:induction false} TurnsAdd<S>(step: S -> Option<S>, start: S, m: nat, n: nat)
    requires Turns(step, start, m).Some?
    ensures Turns(step, start, m + n) == Turns(step, Turns(step, start, m).value, n)
  {
    if n > 0 {
      TurnsAdd(step, start, m, n - 1);
    }
  }

  lemma {:induction false} EarlierTurns<S>(step: S -> Option<S>, start: S, m: nat, n: nat)
    requires m <= n && Turns(step, start, n).Some?
    ensures Turns(step, start, m).Some?
  {
    if m < n {
      EarlierTurns(step, start, m, n - 1);
    }
  }

  /** The first turn of a number of turns. */
  lemma FirstTurn<S>(step: S -> Option<S>, s: S, turns: nat)
    requires turns > 0
    ensures step(s).None? ==> Turns(step, s, turns).None?
    ensures step(s).Some? ==> Turns(step, s, turns) == Turns(step, step(s).value, turns - 1)
  {
    assert Turns(step, s, 0) == Some(s);
    assert Turns(step, s, 1) == step(s);
    if step(s).Some? {
      TurnsAdd(step, s, 1, turns - 1);
    } else if Turns(step, s, turns).Some? {
      EarlierTurns(step, s, 1, turns);
    }
  }

  lemma LastTurn<S>(step: S -> Option<S>, start: S, n: nat) returns (before: S, after: S)
    requires 1 <= n && Turns(step, start, n).Some?
    ensures Turns(step, start, n - 1) == Some(before) && Turns(step, start, n) == Some(after)
    ensures step(before) == Some(after)
  {
    before, after := Turns(step, start, n - 1).value, Turns(step, start, n).value;
  }

  /** What every step keeps holds after any number of turns. */
  lemma {:induction false} TurnsKeep<S(!new)>(step: S -> Option<S>, kept: S -> bool, start: S, n: nat)
    requires kept(start) && forall s :: kept(s) && step(s).Some? ==> kept(step(s).value)
    requires Turns(step, start, n).Some?
    ensures kept(Turns(step, start, n).value)
  {
    if n > 0 {
      TurnsKeep(step, kept, start, n - 1);
    }
  }

  /** A repetition that cannot leave states from which it goes on never ends. */
  lemma {:induction false} NeverEnds<S(!new)>(step: S -> Option<S>, kept: S -> bool, start: S, n: nat)
    requires kept(start) && forall s :: kept(s) ==> step(s).Some? && kept(step(s).value)
    ensures Turns(step, start, n).Some? && kept(Turns(step, start, n).value)
  {
    if n > 0 {
      NeverEnds(step, kept, start, n - 1);
    }
  }

  /** A step that does all that another does makes the same turns. */
  lemma {:induction false} TurnsExtend<S(!new)>(step: S -> Option<S>, further: S -> Option<S>, start: S, n: nat)
    requires forall s :: step(s).Some? ==> further(s) == step(s)
    requires Turns(step, start, n).Some?
    ensures Turns(further, start, n) == Turns(step, start, n)
  {
    if n > 0 {
      TurnsExtend(step, further, start, n - 1);
    }
  }

  ghost predicate Reaches<S>(step: S -> Option<S>, start: S, s: S) {
    exists n: nat :: Turns(step, start, n) == Some(s)
  }

  // ------------------------------------------------------------ where a repetition ends

  /** The state a repetition ends in, if it ends within a number of turns. */
  function Final<S>(step: S -> Option<S>, start: S, turns: nat): Option<S>
    decreases turns
  {
    if turns == 0 then None
    else
      var next := step(start);
      if next.None? then Some(start) else Final(step, next.value, turns - 1)
  }

  /** A repetition has come to a state after some of a number of turns. */
  ghost predicate Follows<S>(step: S -> Option<S>, start: S, s: S, turn: nat, turns: nat) {
    && turn <= turns && Turns(step, start, turn) == Some(s)
    && Final(step, start, turns) == Final(step, s, turns - turn)
  }

  lemma FollowsOn<S>(step: S -> Option<S>, start: S, s: S, next: Option<S>, turn: nat, turns: nat)
    requires turn < turns && Follows(step, start, s, turn, turns) && step(s) == next
    ensures next.None? ==> Final(step, start, turns) == Some(s)
    ensures next.Some? ==> Follows(step, start, next.value, turn + 1, turns)
  {
  }

  /** A repetition has ended or it goes on, and it ends in a state it comes to and cannot leave. */
  lemma {:induction false} FinalOrGoingOn<S>(step: S -> Option<S>, start: S, turns: nat)
    ensures Final(step, start, turns).Some? <==> Turns(step, start, turns).None?
    ensures Final(step, start, turns).Some? ==>
              step(Final(step, start, turns).value).None?
              && exists n: nat :: n < turns && Turns(step, start, n) == Final(step, start, turns)
    decreases turns
  {
    if turns > 0 {
      FirstTurn(step, start, turns);
      var next := step(start);
      assert Turns(step, start, 0) == Some(start);
      if next.Some? {
        FinalOrGoingOn(step, next.value, turns - 1);
        if Final(step, next.value, turns - 1).Some? {
          var n: nat :| n < turns - 1 && Turns(step, next.value, n) == Final(step, next.value, turns - 1);
          FirstTurn(step, start, n + 1);
          assert Turns(step, start, n + 1) == Final(step, start, turns);
        }
      }
    }
  }

  /** What a repetition has come to on the way still leads to its end. */
  lemma ReachesFinal<S>(step: S -> Option<S>, start: S, s: S, turns: nat)
    requires Reaches(step, start, s) && Final(step, start, turns).Some?
    ensures Reaches(step, s, Final(step, start, turns).value)
  {
    FinalOrGoingOn(step, start, turns);
    var m: nat :| Turns(step, start, m) == Some(s);
    var n: nat :| n < turns && Turns(step, start, n) == Final(step, start, turns);
    if n < m {
      EarlierTurns(step, start, n + 1, m);
    } else {
      TurnsAdd(step, start, m, n - m);
      assert Turns(step, s, n - m) == Final(step, start, turns);
    }
  }

  /** A repetition ends in what it comes to and cannot leave. */
  lemma ReachedEnd<S>(step: S -> Option<S>, start: S, s: S) returns (turns: nat)
    requires Reaches(step, start, s) && step(s).None?
    ensures Final(step, start, turns) == Some(s)
  {
    var n: nat :| Turns(step, start, n) == Some(s);
    turns := n + 1;
    FinalOrGoingOn(step, start, turns);
    ReachesFinal(step, start, s, turns);
    StaysAt(step, s, Final(step, start, turns).value);
  }

  lemma StaysAt<S>(step: S -> Option<S>, s: S, t: S)
    requires step(s).None? && Reaches(step, s, t)
    ensures s == t
  {
    var n: nat :| Turns(step, s, n) == Some(t);
    if n > 0 {
      EarlierTurns(step, s, 1, n);
      assert Turns(step, s, 0) == Some(s);
    }
  }

  /** More turns change nothing once a repetition has ended. */
  lemma {:induction false} FinalStays<S>(step: S -> Option<S>, start: S, turns: nat, more: nat)
    requires turns <= more && Final(step, start, turns).Some?
    ensures Final(step, start, more) == Final(step, start, turns)
    decreases turns
  {
    var next := step(start);
    if next.Some? {
      FinalStays(step, next.value, turns - 1, more - 1);
    }
  }

  // ------------------------------------------------------------ states that behave alike

  predicate BothOrNeither<S>(alike: (S, S) -> bool, a: Option<S>, b: Option<S>) {
    (a.Some? <==> b.Some?) && (a.Some? ==> alike(a.value, b.value))
  }

  ghost predicate Respects<S(!new)>(step: S -> Option<S>, alike: (S, S) -> bool) {
    forall a, b :: alike(a, b) ==> BothOrNeither(alike, step(a), step(b))
  }

  lemma {:induction false} TurnsAlike<S(!new)>(step: S -> Option<S>, alike: (S, S) -> bool, a: S, b: S, n: nat)
    requires Respects(step, alike) && alike(a, b)
    ensures BothOrNeither(alike, Turns(step, a, n), Turns(step, b, n))
  {
    if n > 0 {
      TurnsAlike(step, alike, a, b, n - 1);
    }
  }

  /** After coming to a state that behaves like an earlier one, the repetition goes round for ever. */
  lemma {:induction false} GoesRound<S(!new)>(
    step: S -> Option<S>, alike: (S, S) -> bool, start: S, m: nat, n: nat, k: nat)
    requires Respects(step, alike)
    requires m < n && Turns(step, start, m).Some? && Turns(step, start, n).Some?
    requires alike(Turns(step, start, m).value, Turns(step, start, n).value)
    ensures Turns(step, start, k).Some?
    decreases k
  {
    if k <= n {
      EarlierTurns(step, start, k, n);
    } else {
      GoesRound(step, alike, start, m, n, m + (k - n));
      TurnsAdd(step, start, m, k - n);
      TurnsAdd(step, start, n, k - n);
      TurnsAlike(step, alike, Turns(step, start, m).value, Turns(step, start, n).value, k - n);
    }
  }

  // ------------------------------------------------------------ repetition without returning to a number

  ghost predicate Bounded<S(!new)>(step: S -> Option<S>, number: S -> nat, numbers: set<nat>) {
    forall s :: step(s).Some? ==> number(step(s).value) in numbers
  }

  /** The state a repetition ends in, or `None` if it comes to one number twice. */
  ghost function Chain<S(!new)>(
    step: S -> Option<S>, number: S -> nat, numbers: set<nat>, s: S, seen: set<nat>): Option<S>
    requires Bounded(step, number, numbers)
    decreases numbers - seen
  {
    var next := step(s);
    if next.None? then Some(s)
    else if number(next.value) in seen then None
    else Chain(step, number, numbers, next.value, seen + {number(next.value)})
  }

  /** A repetition that comes to no number twice ends after at most one turn more than there are numbers. */
  lemma {:induction false} ChainIsFinal<S(!new)>(
    step: S -> Option<S>, number: S -> nat, numbers: set<nat>, s: S, seen: set<nat>, turns: nat)
    requires Bounded(step, number, numbers) && Chain(step, number, numbers, s, seen).Some?
    requires |numbers - seen| < turns
    ensures Final(step, s, turns) == Chain(step, number, numbers, s, seen)
    decreases turns
  {
    var next := step(s);
    if next.Some? {
      var n := number(next.value);
      assert numbers - (seen + {n}) == numbers - seen - {n};
      ChainIsFinal(step, number, numbers, next.value, seen + {n}, turns - 1);
    }
  }

  predicate SameNumber<S>(step: S -> Option<S>, number: S -> nat, start: S, m: nat, n: nat) {
    && Turns(step, start, m).Some? && Turns(step, start, n).Some?
    && number(Turns(step, start, m).value) == number(Turns(step, start, n).value)
  }

  /** A repetition that is cut off has come to a number it came to before, or that was seen before it. */
  lemma {:induction false} ChainRepeats<S(!new)>(
    step: S -> Option<S>, number: S -> nat, numbers: set<nat>, s: S, seen: set<nat>) returns (m: nat, n: nat)
    requires Bounded(step, number, numbers) && Chain(step, number, numbers, s, seen).None?
    ensures m < n && Turns(step, s, n).Some?
    ensures number(Turns(step, s, n).value) in seen || (1 <= m && SameNumber(step, number, s, m, n))
    decreases numbers - seen
  {
    var next := step(s).value;
    assert Turns(step, s, 0) == Some(s);
    assert Turns(step, s, 1) == Some(next);
    if number(next) in seen {
      m, n := 0, 1;
    } else {
      m, n := ChainRepeats(step, number, numbers, next, seen + {number(next)});
      EarlierTurns(step, next, m, n);
      TurnsAdd(step, s, 1, m);
      TurnsAdd(step, s, 1, n);
      m, n := if number(Turns(step, next, n).value) == number(next) then 1 else m + 1, n + 1;
    }
  }

  /** If the number decides how a repetition goes on, it ends if and only if it comes to no number twice. */
  lemma EndsExactly<S(!new)>(
    step: S -> Option<S>, number: S -> nat, numbers: set<nat>, alike: (S, S) -> bool, start: S)
    requires Bounded(step, number, numbers) && Respects(step, alike)
    requires forall m, n :: 1 <= m < n && SameNumber(step, number, start, m, n) ==>
                alike(Turns(step, start, m).value, Turns(step, start, n).value)
    ensures Chain(step, number, numbers, start, {}).Some? <==> exists n: nat :: Turns(step, start, n).None?
  {
    if Chain(step, number, numbers, start, {}).Some? {
      assert numbers - {} == numbers;
      ChainIsFinal(step, number, numbers, start, {}, |numbers| + 1);
      FinalOrGoingOn(step, start, |numbers| + 1);
    } else {
      var m, n := ChainRepeats(step, number, numbers, start, {});
      forall k: nat
        ensures Turns(step, start, k).Some?
      {
        GoesRound(step, alike, start, m, n, k);
      }
    }
  }
}
