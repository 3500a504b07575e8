/** Runs of a deterministic machine: the state after a finite list of events, or
    after the first n events of an endless stream. */
module Runs {

  function After<S, E>(step: (S, E) -> S, s: S, es: seq<E>): S {
    if es == [] then s else step(After(step, s, es[..|es| - 1]), es[|es| - 1])
  }

  lemma AfterOneMore<S, E>(step: (S, E) -> S, s: S, es: seq<E>, k: nat)
    requires k < |es|
    ensures After(step, s, es[..k + 1]) == step(After(step, s, es[..k]), es[k])
  {
    assert es[..k + 1][..k] == es[..k];
  }

  lemma AfterAppended<S, E>(step: (S, E) -> S, s: S, es: seq<E>, e: E)
    ensures After(step, s, es + [e]) == step(After(step, s, es), e)
  {
    assert (es + [e])[..|es|] == es;
  }

  lemma AfterOne<S, E>(step: (S, E) -> S, s: S, e: E)
    ensures After(step, s, [e]) == step(s, e)
  {
    assert [e][..0] == [];
  }

  lemma AfterTwo<S, E>(step: (S, E) -> S, s: S, a: E, b: E)
    ensures After(step, s, [a, b]) == step(step(s, a), b)
  {
    assert [a, b][..1] == [a] && [a][..0] == [];
    assert After(step, s, [a]) == step(After(step, s, []), a);
  }

  lemma {:induction false} AfterBoth<S, E>(step: (S, E) -> S, s: S, a: seq<E>, b: seq<E>)
    ensures After(step, s, a + b) == After(step, After(step, s, a), b)
  {
    if b == [] {
      assert a + b == a;
    } else {
      AfterBoth(step, s, a, b[..|b| - 1]);
      assert (a + b)[..|a + b| - 1] == a + b[..|b| - 1];
    }
  }

  function Along<S, E>(step: (S, E) -> S, s: S, es: nat -> E, from: nat, n: nat): S
    decreases n
  {
    if n == 0 then s else Along(step, step(s, es(from)), es, from + 1, n - 1)
  }

  lemma {:induction false} AlongSplits<S, E>(step: (S, E) -> S, s: S, es: nat -> E, from: nat, a: nat, b: nat)
    ensures Along(step, s, es, from, a + b) == Along(step, Along(step, s, es, from, a), es, from + a, b)
    decreases a
  {
    if a == 0 {
    } else {
      AlongSplits(step, step(s, es(from)), es, from + 1, a - 1, b);
    }
  }
}
