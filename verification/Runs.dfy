/** Runs of a step machine under an arbitrary scheduler.

    A machine is a total function `next` from a state and a scheduler action to a
    state; an action that is not possible in a state (a blocked thread, a thread
    number that does not exist) leaves the state as it is. A run is what a finite
    schedule, that is any sequence of actions, makes of a start state.
 */
module Runs {

  function Exec<S, A>(next: (S, A) -> S, s: S, schedule: seq<A>): S
    decreases |schedule|
  {
    if schedule == [] then s
    else next(Exec(next, s, schedule[..|schedule| - 1]), schedule[|schedule| - 1])
  }

  /** The number of positions of the schedule at which the machine does work. */
  function Work<S, A>(next: (S, A) -> S, works: (S, A) -> bool, s: S, schedule: seq<A>): nat
    decreases |schedule|
  {
    if schedule == [] then 0
    else
      var before := schedule[..|schedule| - 1];
      Work(next, works, s, before)
      + if works(Exec(next, s, before), schedule[|schedule| - 1]) then 1 else 0
  }

  lemma {:induction false} Invariance<S(!new), A(!new)>(
      next: (S, A) -> S, inv: S -> bool, s: S, schedule: seq<A>)
    requires inv(s)
    requires forall x: S, a: A {:trigger next(x, a)} :: inv(x) ==> inv(next(x, a))
    ensures inv(Exec(next, s, schedule))
    decreases |schedule|
  {
    if schedule != [] {
      Invariance(next, inv, s, schedule[..|schedule| - 1]);
    }
  }

  /** A measure that no step raises and every working step lowers bounds the
      number of working steps of every run, whatever the scheduler does. */
  lemma {:induction false} BoundedWork<S(!new), A(!new)>(
      next: (S, A) -> S, inv: S -> bool, works: (S, A) -> bool, measure: S -> nat,
      s: S, schedule: seq<A>)
    requires inv(s)
    requires forall x: S, a: A {:trigger next(x, a)} :: inv(x) ==> inv(next(x, a))
    requires forall x: S, a: A {:trigger next(x, a)} ::
               inv(x) ==> measure(next(x, a)) + (if works(x, a) then 1 else 0) <= measure(x)
    ensures Work(next, works, s, schedule) + measure(Exec(next, s, schedule)) <= measure(s)
    decreases |schedule|
  {
    if schedule != [] {
      var before := schedule[..|schedule| - 1];
      BoundedWork(next, inv, works, measure, s, before);
      Invariance(next, inv, s, before);
    }
  }

  /** Every state of the run has property p. */
  ghost predicate Throughout<S, A>(next: (S, A) -> S, p: S -> bool, s: S, schedule: seq<A>) {
    forall i :: 0 <= i <= |schedule| ==> p(Exec(next, s, schedule[..i]))
  }

  /** The same bound for runs in which a property p holds throughout, from steps
      that keep p. */
  lemma {:induction false} BoundedWorkWhile<S(!new), A(!new)>(
      next: (S, A) -> S, inv: S -> bool, p: S -> bool, works: (S, A) -> bool, measure: S -> nat,
      s: S, schedule: seq<A>)
    requires inv(s) && Throughout(next, p, s, schedule)
    requires forall x: S, a: A {:trigger next(x, a)} :: inv(x) ==> inv(next(x, a))
    requires forall x: S, a: A {:trigger next(x, a)} :: inv(x) && p(x) && p(next(x, a)) ==>
               measure(next(x, a)) + (if works(x, a) then 1 else 0) <= measure(x)
    ensures Work(next, works, s, schedule) + measure(Exec(next, s, schedule)) <= measure(s)
    decreases |schedule|
  {
    if schedule != [] {
      var n := |schedule| - 1;
      var before := schedule[..n];
      assert schedule[..|schedule|] == schedule;
      assert forall i :: 0 <= i <= n ==> before[..i] == schedule[..i];
      BoundedWorkWhile(next, inv, p, works, measure, s, before);
      Invariance(next, inv, s, before);
      assert p(Exec(next, s, schedule[..n]));
      assert p(Exec(next, s, schedule[..n + 1]));
    }
  }

  lemma ExecOne<S, A>(next: (S, A) -> S, s: S, a: A)
    ensures Exec(next, s, [a]) == next(s, a)
  {
    assert [a][..0] == [];
  }

  lemma ExecOneMore<S, A>(next: (S, A) -> S, s: S, schedule: seq<A>, a: A)
    ensures Exec(next, s, schedule + [a]) == next(Exec(next, s, schedule), a)
  {
    assert (schedule + [a])[..|schedule|] == schedule;
  }

  lemma ExecTwo<S, A>(next: (S, A) -> S, s: S, a: A, b: A)
    ensures Exec(next, s, [a, b]) == next(next(s, a), b)
  {
    ExecOne(next, s, a);
    assert [a, b][..1] == [a];
  }

  lemma ExecFour<S, A>(next: (S, A) -> S, s: S, a: A, b: A, c: A, d: A)
    ensures Exec(next, s, [a, b, c, d]) == next(next(next(next(s, a), b), c), d)
  {
    ExecTwo(next, s, a, b);
    assert [a, b, c][..2] == [a, b];
    assert Exec(next, s, [a, b, c]) == next(next(next(s, a), b), c);
    assert [a, b, c, d][..3] == [a, b, c];
  }

  lemma {:induction false} ExecConcat<S, A>(next: (S, A) -> S, s: S, first: seq<A>, second: seq<A>)
    ensures Exec(next, s, first + second) == Exec(next, Exec(next, s, first), second)
    decreases |second|
  {
    if second == [] {
      assert first + second == first;
    } else {
      var n := |second| - 1;
      assert (first + second)[..|first| + n] == first + second[..n];
      ExecConcat(next, s, first, second[..n]);
    }
  }

  ghost predicate CanImprove<S(!new), A(!new)>(next: (S, A) -> S, measure: S -> nat, s: S) {
    exists on: seq<A> :: measure(Exec(next, s, on)) < measure(s)
  }

  /** If every state of the invariant that is not final can be led to a smaller
      measure, then it can be led to a final state. */
  lemma {:induction false} CanFinish<S(!new), A(!new)>(
      next: (S, A) -> S, inv: S -> bool, final: S -> bool, measure: S -> nat, s: S)
    returns (schedule: seq<A>)
    requires inv(s)
    requires forall x: S, a: A {:trigger next(x, a)} :: inv(x) ==> inv(next(x, a))
    requires forall x: S {:trigger final(x)} :: inv(x) && !final(x) ==>
               CanImprove(next, measure, x)
    ensures final(Exec(next, s, schedule))
    decreases measure(s)
  {
    if final(s) {
      return [];
    }
    var on: seq<A> :| measure(Exec(next, s, on)) < measure(s);
    Invariance(next, inv, s, on);
    var rest := CanFinish(next, inv, final, measure, Exec(next, s, on));
    ExecConcat(next, s, on, rest);
    return on + rest;
  }

  ghost predicate CanAdvance<S(!new), A(!new)>(
      next: (S, A) -> S, keep: S -> bool, measure: S -> nat, s: S) {
    exists a: A {:trigger next(s, a)} :: keep(next(s, a)) && measure(next(s, a)) < measure(s)
  }

  /** If every state with a property that is not final has a step that keeps the
      property and lowers the measure, then some run ends with the property. */
  lemma {:induction false} FinishKeeping<S(!new), A(!new)>(
      next: (S, A) -> S, keep: S -> bool, final: S -> bool, measure: S -> nat, s: S)
    returns (schedule: seq<A>)
    requires keep(s)
    requires forall x: S {:trigger final(x)} :: keep(x) && !final(x) ==> CanAdvance(next, keep, measure, x)
    ensures keep(Exec(next, s, schedule)) && final(Exec(next, s, schedule))
    decreases measure(s)
  {
    if final(s) {
      return [];
    }
    var a: A :| keep(next(s, a)) && measure(next(s, a)) < measure(s);
    var rest := FinishKeeping(next, keep, final, measure, next(s, a));
    ExecOne(next, s, a);
    ExecConcat(next, s, [a], rest);
    return [a] + rest;
  }
}

/** The two threads of Peterson's algorithm and a pair of per-thread values. */
module TwoThreads {

  datatype Tid = Zero | One {
    /** `!self` in the sources. */
    function Other(): Tid {
      if this == Zero then One else Zero
    }
  }

  datatype Two<T> = Two(zero: T, one: T) {
    function At(t: Tid): T {
      if t == Zero then zero else one
    }

    function With(t: Tid, v: T): Two<T> {
      if t == Zero then this.(zero := v) else this.(one := v)
    }
  }
}
