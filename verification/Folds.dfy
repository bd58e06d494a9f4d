/** Runs of any transition system, so that reasoning about long runs need not look at the steps. */
module Folds {

  function Fold<S, E>(next: (S, E) -> S, s: S, es: seq<E>): S {
    if es == [] then s else next(Fold(next, s, es[..|es| - 1]), es[|es| - 1])
  }

  /** Each event is enabled where it happens. */
  predicate Allowed<S, E>(enabled: (S, E) -> bool, next: (S, E) -> S, s: S, es: seq<E>) {
    es == [] || (Allowed(enabled, next, s, es[..|es| - 1]) && enabled(Fold(next, s, es[..|es| - 1]), es[|es| - 1]))
  }

  /** A run can be cut in two anywhere. */
  lemma {:induction false} FoldSplit<S, E>(enabled: (S, E) -> bool, next: (S, E) -> S, s: S, xs: seq<E>, ys: seq<E>)
    ensures Fold(next, s, xs + ys) == Fold(next, Fold(next, s, xs), ys)
    ensures Allowed(enabled, next, s, xs + ys) <==>
              Allowed(enabled, next, s, xs) && Allowed(enabled, next, Fold(next, s, xs), ys)
  {
    if ys == [] {
      assert xs + ys == xs;
    } else {
      var n := |ys| - 1;
      FoldSplit(enabled, next, s, xs, ys[..n]);
      assert (xs + ys)[..|xs + ys| - 1] == xs + ys[..n];
    }
  }

  lemma FoldOne<S, E>(enabled: (S, E) -> bool, next: (S, E) -> S, s: S, x: E)
    ensures Fold(next, s, [x]) == next(s, x)
    ensures Allowed(enabled, next, s, [x]) <==> enabled(s, x)
  {
    assert [x][..0] == [];
  }

  // ---------------------------------------------------------------------------
  // What a run gives out
  // ---------------------------------------------------------------------------

  /** The outputs of all events, in order. */
  function Trail<S, E, O>(next: (S, E) -> S, out: (S, E) -> seq<O>, s: S, es: seq<E>): seq<O> {
    if es == [] then []
    else Trail(next, out, s, es[..|es| - 1]) + out(Fold(next, s, es[..|es| - 1]), es[|es| - 1])
  }

  lemma {:induction false} TrailSplit<S, E, O>(next: (S, E) -> S, out: (S, E) -> seq<O>, s: S, xs: seq<E>, ys: seq<E>)
    ensures Trail(next, out, s, xs + ys) == Trail(next, out, s, xs) + Trail(next, out, Fold(next, s, xs), ys)
  {
    if ys == [] {
      assert xs + ys == xs;
    } else {
      var n := |ys| - 1;
      TrailSplit(next, out, s, xs, ys[..n]);
      FoldSplit((t, e) => true, next, s, xs, ys[..n]);
      assert (xs + ys)[..|xs + ys| - 1] == xs + ys[..n];
    }
  }

  lemma TrailOne<S, E, O>(next: (S, E) -> S, out: (S, E) -> seq<O>, s: S, x: E)
    ensures Trail(next, out, s, [x]) == out(s, x)
  {
    assert [x][..0] == [];
  }
}
