/** Why something that gets closer with every effective step ends under every fair schedule. */
module Fairness {

  /** The state before step n of an endless schedule. */
  function At<S, T>(apply: (S, T) -> S, s: S, schedule: nat -> T, n: nat): S {
    if n == 0 then s else apply(At(apply, s, schedule, n - 1), schedule(n - 1))
  }

  ghost predicate CanMove<S, T(!new)>(effective: (S, T) -> bool, s: S) {
    exists step :: effective(s, step)
  }

  ghost predicate MoveAt<S, T>(apply: (S, T) -> S, effective: (S, T) -> bool, s: S, schedule: nat -> T, m: nat) {
    effective(At(apply, s, schedule, m), schedule(m))
  }

  /** Some effective step is taken from step n on. */
  ghost predicate MovesFrom<S, T>(apply: (S, T) -> S, effective: (S, T) -> bool, s: S, schedule: nat -> T, n: nat) {
    exists m: nat :: n <= m && MoveAt(apply, effective, s, schedule, m)
  }

  /** Whenever somebody can move, somebody sooner or later does. */
  ghost predicate Fair<S, T(!new)>(apply: (S, T) -> S, effective: (S, T) -> bool, s: S, schedule: nat -> T) {
    forall n: nat :: CanMove(effective, At(apply, s, schedule, n)) ==> MovesFrom(apply, effective, s, schedule, n)
  }

  /** Good states stay good, no step raises the measure, and effective ones lower it. */
  ghost predicate Descends<S(!new), T(!new)>(apply: (S, T) -> S, effective: (S, T) -> bool, measure: S -> nat, good: S -> bool) {
    forall x, t :: good(x) ==>
      && good(apply(x, t)) && measure(apply(x, t)) <= measure(x)
      && (effective(x, t) ==> measure(apply(x, t)) < measure(x))
  }

  lemma {:induction false} StaysGood<S(!new), T(!new)>(apply: (S, T) -> S, effective: (S, T) -> bool, measure: S -> nat, good: S -> bool,
                                                     s: S, schedule: nat -> T, n: nat, m: nat)
    requires Descends(apply, effective, measure, good) && good(At(apply, s, schedule, n)) && n <= m
    ensures good(At(apply, s, schedule, m)) && measure(At(apply, s, schedule, m)) <= measure(At(apply, s, schedule, n))
    decreases m
  {
    if n < m {
      StaysGood(apply, effective, measure, good, s, schedule, n, m - 1);
    }
  }

  lemma OneStep<S(!new), T(!new)>(apply: (S, T) -> S, effective: (S, T) -> bool, measure: S -> nat, good: S -> bool, x: S, t: T)
    requires Descends(apply, effective, measure, good) && good(x) && effective(x, t)
    ensures good(apply(x, t)) && measure(apply(x, t)) < measure(x)
  {
  }

  lemma FairMoves<S, T(!new)>(apply: (S, T) -> S, effective: (S, T) -> bool, s: S, schedule: nat -> T, n: nat)
    requires Fair(apply, effective, s, schedule) && CanMove(effective, At(apply, s, schedule, n))
    ensures MovesFrom(apply, effective, s, schedule, n)
  {
  }

  /** From a good state from which somebody moves: the next effective step, after which the state is good and lower. */
  lemma NextMove<S(!new), T(!new)>(apply: (S, T) -> S, effective: (S, T) -> bool, measure: S -> nat, good: S -> bool,
                                   s: S, schedule: nat -> T, n: nat) returns (k: nat)
    requires Descends(apply, effective, measure, good)
    requires good(At(apply, s, schedule, n)) && MovesFrom(apply, effective, s, schedule, n)
    ensures good(At(apply, s, schedule, k)) && measure(At(apply, s, schedule, k)) < measure(At(apply, s, schedule, n))
  {
    var m: nat :| n <= m && MoveAt(apply, effective, s, schedule, m);
    MoveLowers(apply, effective, measure, good, s, schedule, n, m);
    k := m + 1;
  }

  lemma MoveLowers<S(!new), T(!new)>(apply: (S, T) -> S, effective: (S, T) -> bool, measure: S -> nat, good: S -> bool,
                                     s: S, schedule: nat -> T, n: nat, m: nat)
    requires Descends(apply, effective, measure, good) && n <= m
    requires good(At(apply, s, schedule, n)) && effective(At(apply, s, schedule, m), schedule(m))
    ensures good(At(apply, s, schedule, m + 1)) && measure(At(apply, s, schedule, m + 1)) < measure(At(apply, s, schedule, n))
  {
    StaysGood(apply, effective, measure, good, s, schedule, n, m);
    OneStep(apply, effective, measure, good, At(apply, s, schedule, m), schedule(m));
  }

  /** Nobody is stuck before the end. */
  ghost predicate NeverStuck<S(!new), T(!new)>(effective: (S, T) -> bool, good: S -> bool, done: S -> bool) {
    forall x :: good(x) && !done(x) ==> CanMove(effective, x)
  }

  lemma EndsAfter<S(!new), T(!new)>(apply: (S, T) -> S, effective: (S, T) -> bool, measure: S -> nat, good: S -> bool, done: S -> bool,
                                    s: S, schedule: nat -> T, n: nat) returns (m: nat)
    requires Descends(apply, effective, measure, good) && NeverStuck(effective, good, done)
    requires good(At(apply, s, schedule, n)) && Fair(apply, effective, s, schedule)
    ensures done(At(apply, s, schedule, m))
    decreases measure(At(apply, s, schedule, n))
  {
    m := n;
    if !done(At(apply, s, schedule, n)) {
      FairMoves(apply, effective, s, schedule, n);
      var k := NextMove(apply, effective, measure, good, s, schedule, n);
      m := EndsAfter(apply, effective, measure, good, done, s, schedule, k);
    }
  }
}
