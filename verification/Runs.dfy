/** Runs of step systems: a step is either not possible in a state or leads to one next state. */
module Runs {
  import opened Wrappers

  /** The state after the steps, or None when one of them is not possible. */
  function Run<S, T>(next: (S, T) -> Option<S>, s: S, steps: seq<T>): Option<S> {
    if steps == [] then Some(s)
    else
      var n := |steps| - 1;
      match Run(next, s, steps[..n])
      case None => None
      case Some(m) => next(m, steps[n])
  }

  /** What the first state has and every step keeps, every state of every run has. */
  lemma {:induction false} InvariantHolds<S(!new), T(!new)>(next: (S, T) -> Option<S>, inv: S -> bool, s: S, steps: seq<T>)
    requires inv(s)
    requires forall m, t | inv(m) && next(m, t).Some? :: inv(next(m, t).value)
    ensures Run(next, s, steps).Some? ==> inv(Run(next, s, steps).value)
  {
    if steps != [] {
      InvariantHolds(next, inv, s, steps[..|steps| - 1]);
    }
  }

  lemma RunOneMore<S, T>(next: (S, T) -> Option<S>, s: S, steps: seq<T>, t: T)
    ensures Run(next, s, steps + [t]) ==
            match Run(next, s, steps) { case None => None case Some(m) => next(m, t) }
  {
    assert (steps + [t])[..|steps|] == steps;
  }

  /** A run that goes through has gone through at every earlier moment. */
  lemma {:induction false} RunPrefix<S, T>(next: (S, T) -> Option<S>, s: S, steps: seq<T>, n: nat)
    requires n <= |steps| && Run(next, s, steps).Some?
    ensures Run(next, s, steps[..n]).Some?
  {
    if n < |steps| {
      RunPrefix(next, s, steps[..|steps| - 1], n);
      assert steps[..|steps| - 1][..n] == steps[..n];
    } else {
      assert steps[..n] == steps;
    }
  }

  /** The state in which step `i` of a run is taken. */
  function At<S, T>(next: (S, T) -> Option<S>, s: S, steps: seq<T>, i: nat): Option<S>
    requires i <= |steps|
  {
    Run(next, s, steps[..i])
  }

  /** How many steps of a run are taken in states of which `p` holds. */
  function CountIn<S, T>(next: (S, T) -> Option<S>, s: S, steps: seq<T>, p: (S, T) -> bool): nat {
    if steps == [] then 0
    else
      var n := |steps| - 1;
      CountIn(next, s, steps[..n], p)
      + match At(next, s, steps, n) { case None => 0 case Some(m) => if p(m, steps[n]) then 1 else 0 }
  }

  lemma CountOneMore<S, T>(next: (S, T) -> Option<S>, s: S, steps: seq<T>, p: (S, T) -> bool)
    requires steps != [] && At(next, s, steps, |steps| - 1).Some?
    ensures var n := |steps| - 1;
            CountIn(next, s, steps, p)
            == CountIn(next, s, steps[..n], p) + if p(At(next, s, steps, n).value, steps[n]) then 1 else 0
  {
  }
}
