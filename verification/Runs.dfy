/** Runs of a deterministic step function over a sequence of events, and the induction
    principles every protocol below uses. */
module Runs {

  /** The state after all of `es`. */
  function Run<S, E>(step: (S, E) -> S, s: S, es: seq<E>): S
    decreases |es|
  {
    if es == [] then s else step(Run(step, s, es[..|es| - 1]), es[|es| - 1])
  }

  ghost predicate Preserves<S(!new), E(!new)>(step: (S, E) -> S, inv: S -> bool) {
    forall s, e :: inv(s) ==> inv(step(s, e))
  }

  /** `q`, once true in a state satisfying `inv`, stays true. */
  ghost predicate Stable<S(!new), E(!new)>(step: (S, E) -> S, inv: S -> bool, q: S -> bool) {
    forall s, e :: inv(s) && q(s) ==> q(step(s, e))
  }

  lemma RunSnoc<S, E>(step: (S, E) -> S, s: S, es: seq<E>, k: nat)
    requires k < |es|
    ensures Run(step, s, es[..k + 1]) == step(Run(step, s, es[..k]), es[k])
  {
    assert es[..k + 1][..k] == es[..k];
  }

  lemma {:induction false} RunKeeps<S(!new), E(!new)>(step: (S, E) -> S, inv: S -> bool, s: S, es: seq<E>)
    requires inv(s) && Preserves(step, inv)
    ensures inv(Run(step, s, es))
    decreases |es|
  {
    if es != [] { RunKeeps(step, inv, s, es[..|es| - 1]); }
  }

  lemma {:induction false} StaysTrue<S(!new), E(!new)>(step: (S, E) -> S, inv: S -> bool, q: S -> bool, s: S, es: seq<E>)
    requires inv(s) && q(s) && Preserves(step, inv) && Stable(step, inv, q)
    ensures q(Run(step, s, es))
    decreases |es|
  {
    if es != [] {
      RunKeeps(step, inv, s, es[..|es| - 1]);
      StaysTrue(step, inv, q, s, es[..|es| - 1]);
    }
  }

  lemma {:induction false} RunSplit<S, E>(step: (S, E) -> S, s: S, a: seq<E>, b: seq<E>)
    ensures Run(step, s, a + b) == Run(step, Run(step, s, a), b)
    decreases |b|
  {
    if b == [] {
      assert a + b == a;
    } else {
      var init := b[..|b| - 1];
      RunSplit(step, s, a, init);
      assert (a + b)[..|a + b| - 1] == a + init;
      assert (a + b)[|a + b| - 1] == b[|b| - 1];
    }
  }

  /** A stable fact that does not hold at first and holds at the end became true at exactly one
      event: false up to it, true ever after. */
  lemma {:induction false} TurningPoint<S(!new), E(!new)>(step: (S, E) -> S, inv: S -> bool, q: S -> bool, s: S, es: seq<E>)
    returns (k: nat)
    requires inv(s) && Preserves(step, inv) && Stable(step, inv, q)
    requires !q(s) && q(Run(step, s, es))
    ensures k < |es|
    ensures forall j :: 0 <= j <= k ==> !q(Run(step, s, es[..j]))
    ensures forall j :: k < j <= |es| ==> q(Run(step, s, es[..j]))
    decreases |es|
  {
    var init := es[..|es| - 1];
    assert es[..|es|] == es;
    if q(Run(step, s, init)) {
      k := TurningPoint(step, inv, q, s, init);
      assert forall j :: 0 <= j < |es| ==> init[..j] == es[..j];
    } else {
      k := |es| - 1;
      forall j | 0 <= j <= k ensures !q(Run(step, s, es[..j])) {
        if q(Run(step, s, es[..j])) {
          RunKeeps(step, inv, s, es[..j]);
          RunSplit(step, s, es[..j], init[j..]);
          assert es[..j] + init[j..] == init;
          StaysTrue(step, inv, q, Run(step, s, es[..j]), init[j..]);
          assert false;
        }
      }
    }
  }
}
