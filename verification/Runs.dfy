/** Runs of a step system, and the two ways this project reasons about all of them. */
module Runs {
  /** A non-empty sequence of states that starts initially and moves by steps. */
  ghost predicate IsRun<S(!new)>(init: S -> bool, next: (S, S) -> bool, run: seq<S>) {
    && run != []
    && init(run[0])
    && forall i, j | 0 <= i && j == i + 1 < |run| :: next(run[i], run[j])
  }

  /** What holds initially and is kept by every step holds throughout every run. */
  lemma {:induction false} Always<S(!new)>(init: S -> bool, next: (S, S) -> bool, inv: S -> bool,
                                           run: seq<S>, i: nat)
    requires IsRun(init, next, run) && i < |run|
    requires forall s :: init(s) ==> inv(s)
    requires forall s, t :: inv(s) && next(s, t) ==> inv(t)
    ensures inv(run[i])
  {
    if i > 0 {
      Always(init, next, inv, run, i - 1);
      assert next(run[i - 1], run[i]);
    }
  }

  /** A reflexive and transitive relation kept by every step of the reachable states
      relates every earlier state of a run to every later one. */
  lemma {:induction false} Throughout<S(!new)>(init: S -> bool, next: (S, S) -> bool, inv: S -> bool,
                                               rel: (S, S) -> bool, run: seq<S>, i: nat, j: nat)
    requires IsRun(init, next, run) && i <= j < |run|
    requires forall k | 0 <= k < |run| :: inv(run[k])
    requires forall s, t :: inv(s) && next(s, t) ==> rel(s, t)
    requires forall s :: rel(s, s)
    requires forall s, t, u :: rel(s, t) && rel(t, u) ==> rel(s, u)
    ensures rel(run[i], run[j])
  {
    if i < j {
      Throughout(init, next, inv, rel, run, i, j - 1);
      assert next(run[j - 1], run[j]);
    }
  }
}
