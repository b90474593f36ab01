/** Runs of a program given by a step function and a condition under which each action may happen. */
module Runs {

  ghost predicate Legal<S(!new), A(!new)>(enabled: (S, A) -> bool, step: (S, A) -> S, s: S, actions: seq<A>)
    decreases actions
  {
    actions == [] || (enabled(s, actions[0]) && Legal(enabled, step, step(s, actions[0]), actions[1..]))
  }

  ghost function Exec<S, A>(step: (S, A) -> S, s: S, actions: seq<A>): S
    decreases actions
  {
    if actions == [] then s else Exec(step, step(s, actions[0]), actions[1..])
  }

  lemma {:induction false} ExecAppend<S(!new), A(!new)>(
    enabled: (S, A) -> bool, step: (S, A) -> S, s: S, a: seq<A>, b: seq<A>)
    requires Legal(enabled, step, s, a) && Legal(enabled, step, Exec(step, s, a), b)
    ensures Legal(enabled, step, s, a + b) && Exec(step, s, a + b) == Exec(step, Exec(step, s, a), b)
    decreases a
  {
    if a == [] {
      assert a + b == b;
    } else {
      assert (a + b)[1..] == a[1..] + b;
      ExecAppend(enabled, step, step(s, a[0]), a[1..], b);
    }
  }

  ghost predicate Inductive<S(!new), A(!new)>(enabled: (S, A) -> bool, step: (S, A) -> S, inv: S -> bool) {
    forall s, a :: inv(s) && enabled(s, a) ==> inv(step(s, a))
  }

  /** What every step keeps, every run keeps. */
  lemma {:induction false} InvariantHolds<S(!new), A(!new)>(
    enabled: (S, A) -> bool, step: (S, A) -> S, inv: S -> bool, s: S, actions: seq<A>)
    requires Inductive(enabled, step, inv) && inv(s) && Legal(enabled, step, s, actions)
    ensures inv(Exec(step, s, actions))
    decreases actions
  {
    if actions != [] {
      InvariantHolds(enabled, step, inv, step(s, actions[0]), actions[1..]);
    }
  }

  /** How a run may change a state, step by step and all together. */
  ghost predicate Progress<S(!new), A(!new)>(
    enabled: (S, A) -> bool, step: (S, A) -> S, inv: S -> bool, rel: (S, S) -> bool)
  {
    && Inductive(enabled, step, inv)
    && (forall s :: rel(s, s))
    && (forall s, t, u :: rel(s, t) && rel(t, u) ==> rel(s, u))
    && (forall s, a :: inv(s) && enabled(s, a) ==> rel(s, step(s, a)))
  }

  lemma {:induction false} ProgressHolds<S(!new), A(!new)>(
    enabled: (S, A) -> bool, step: (S, A) -> S, inv: S -> bool, rel: (S, S) -> bool, s: S, actions: seq<A>)
    requires Progress(enabled, step, inv, rel) && inv(s) && Legal(enabled, step, s, actions)
    ensures rel(s, Exec(step, s, actions))
    decreases actions
  {
    if actions != [] {
      ProgressHolds(enabled, step, inv, rel, step(s, actions[0]), actions[1..]);
    }
  }

  /** The outputs of a run, one after the other. */
  ghost function Outputs<A, R>(output: A -> seq<R>, actions: seq<A>): seq<R>
    decreases actions
  {
    if actions == [] then [] else output(actions[0]) + Outputs(output, actions[1..])
  }

  /** A log to which every step appends its output holds the outputs of the run. */
  lemma {:induction false} LogHolds<S(!new), A(!new), R>(
    enabled: (S, A) -> bool, step: (S, A) -> S, log: S -> seq<R>, output: A -> seq<R>, s: S, actions: seq<A>)
    requires forall t, a :: enabled(t, a) && a in actions ==> log(step(t, a)) == log(t) + output(a)
    requires Legal(enabled, step, s, actions)
    ensures log(Exec(step, s, actions)) == log(s) + Outputs(output, actions)
    decreases actions
  {
    if actions != [] {
      LogHolds(enabled, step, log, output, step(s, actions[0]), actions[1..]);
    }
  }

  /** One state can be reached from another. */
  ghost predicate Reaches<S(!new), A(!new)>(enabled: (S, A) -> bool, step: (S, A) -> S, s: S, s': S) {
    exists actions: seq<A> :: Legal(enabled, step, s, actions) && Exec(step, s, actions) == s'
  }

  lemma ReachesSelf<S(!new), A(!new)>(enabled: (S, A) -> bool, step: (S, A) -> S, s: S)
    ensures Reaches(enabled, step, s, s)
  {
    var none: seq<A> := [];
    assert Legal(enabled, step, s, none) && Exec(step, s, none) == s;
  }

  lemma ReachesOne<S(!new), A(!new)>(enabled: (S, A) -> bool, step: (S, A) -> S, s: S, a: A)
    requires enabled(s, a)
    ensures Reaches(enabled, step, s, step(s, a))
  {
    var one := [a];
    var rest: seq<A> := one[1..];
    assert Legal(enabled, step, step(s, a), rest) && Exec(step, step(s, a), rest) == step(s, a);
    assert Legal(enabled, step, s, one) && Exec(step, s, one) == step(s, a);
  }

  lemma ReachesThen<S(!new), A(!new)>(enabled: (S, A) -> bool, step: (S, A) -> S, s: S, t: S, u: S)
    requires Reaches(enabled, step, s, t) && Reaches(enabled, step, t, u)
    ensures Reaches(enabled, step, s, u)
  {
    var a: seq<A> :| Legal(enabled, step, s, a) && Exec(step, s, a) == t;
    var b: seq<A> :| Legal(enabled, step, t, b) && Exec(step, t, b) == u;
    ExecAppend(enabled, step, s, a, b);
  }

  /** A countdown: as long as `left(s, k)` holds for a positive k the action may happen and leads to k - 1. */
  ghost predicate Countdown<S(!new), A(!new)>(
    enabled: (S, A) -> bool, step: (S, A) -> S, a: A, left: (S, nat) -> bool)
  {
    forall s, k: nat :: k > 0 && left(s, k) ==> enabled(s, a) && left(step(s, a), k - 1)
  }

  lemma {:induction false} CountdownReaches<S(!new), A(!new)>(
    enabled: (S, A) -> bool, step: (S, A) -> S, a: A, left: (S, nat) -> bool, s: S, n: nat) returns (s': S)
    requires Countdown(enabled, step, a, left) && left(s, n)
    ensures Reaches(enabled, step, s, s') && left(s', 0)
    decreases n
  {
    if n == 0 {
      s' := s;
      ReachesSelf(enabled, step, s);
    } else {
      ReachesOne(enabled, step, s, a);
      s' := CountdownReaches(enabled, step, a, left, step(s, a), n - 1);
      ReachesThen(enabled, step, s, step(s, a), s');
    }
  }
}
