/** State machines: a step function gives the state after one atomic action, or None where the action
    cannot be taken. */
module Runs {
  import opened Base

  /** The state after a whole run, if every step of it could be taken. */
  function Run<S, T>(next: (S, T) -> Option<S>, s: S, steps: seq<T>): Option<S>
    decreases |steps|
  {
    if steps == [] then Some(s)
    else match next(s, steps[0])
         case None => None
         case Some(s') => Run(next, s', steps[1..])
  }

  /** Some run of any length leads from init to s. */
  ghost predicate Reachable<S(!new), T(!new)>(next: (S, T) -> Option<S>, init: S, s: S) {
    exists steps :: Run(next, init, steps) == Some(s)
  }

  ghost predicate Inductive<S(!new), T(!new)>(next: (S, T) -> Option<S>, inv: S -> bool) {
    forall s, step :: inv(s) && next(s, step).Some? ==> inv(next(s, step).value)
  }

  /** What every step keeps, every run keeps. */
  lemma {:induction false} RunKeeps<S(!new), T(!new)>(next: (S, T) -> Option<S>, inv: S -> bool, s: S, steps: seq<T>)
    requires Inductive(next, inv) && inv(s) && Run(next, s, steps).Some?
    ensures inv(Run(next, s, steps).value)
    decreases |steps|
  {
    if steps == [] {
    } else {
      RunKeeps(next, inv, next(s, steps[0]).value, steps[1..]);
    }
  }

  lemma ReachableKeeps<S(!new), T(!new)>(next: (S, T) -> Option<S>, inv: S -> bool, init: S, s: S)
    requires Inductive(next, inv) && inv(init) && Reachable(next, init, s)
    ensures inv(s)
  {
    var steps :| Run(next, init, steps) == Some(s);
    RunKeeps(next, inv, init, steps);
  }

  lemma {:induction false} RunSnoc<S, T>(next: (S, T) -> Option<S>, s: S, steps: seq<T>, last: T)
    requires Run(next, s, steps).Some?
    ensures Run(next, s, steps + [last]) == next(Run(next, s, steps).value, last)
    decreases |steps|
  {
    if steps == [] {
      assert [last][1..] == [];
    } else {
      RunSnoc(next, next(s, steps[0]).value, steps[1..], last);
      assert (steps + [last])[1..] == steps[1..] + [last];
    }
  }

  lemma ReachInit<S(!new), T(!new)>(next: (S, T) -> Option<S>, init: S)
    ensures Reachable(next, init, init)
  {
    assert Run(next, init, []) == Some(init);
  }

  lemma ReachStep<S(!new), T(!new)>(next: (S, T) -> Option<S>, init: S, s: S, step: T)
    requires Reachable(next, init, s) && next(s, step).Some?
    ensures Reachable(next, init, next(s, step).value)
  {
    var steps :| Run(next, init, steps) == Some(s);
    RunSnoc(next, init, steps, step);
  }

  /** part takes only steps that whole takes too, and to the same state. */
  ghost predicate Restricts<S(!new), T(!new)>(part: (S, T) -> Option<S>, whole: (S, T) -> Option<S>) {
    forall s, step :: part(s, step).Some? ==> whole(s, step) == part(s, step)
  }

  lemma {:induction false} RestrictedRun<S(!new), T(!new)>(part: (S, T) -> Option<S>, whole: (S, T) -> Option<S>,
                                                           s: S, steps: seq<T>)
    requires Restricts(part, whole) && Run(part, s, steps).Some?
    ensures Run(whole, s, steps) == Run(part, s, steps)
    decreases |steps|
  {
    if steps == [] {
    } else {
      RestrictedRun(part, whole, part(s, steps[0]).value, steps[1..]);
    }
  }

  lemma RestrictedReachable<S(!new), T(!new)>(part: (S, T) -> Option<S>, whole: (S, T) -> Option<S>, init: S, s: S)
    requires Restricts(part, whole) && Reachable(part, init, s)
    ensures Reachable(whole, init, s)
  {
    var steps :| Run(part, init, steps) == Some(s);
    RestrictedRun(part, whole, init, steps);
  }
}
