/** Sequences as runs use them: lists without repetition, and conservation laws that chain
    up along a run. */
module Sequences {

  ghost predicate Distinct<T>(q: seq<T>) {
    forall i, j | 0 <= i < j < |q| :: q[i] != q[j]
  }

  /** Two conservation steps "what there was plus what came in is what went out plus what is
      left" compose. */
  lemma Glue<T>(a: seq<T>, q: seq<T>, w: seq<T>, a': seq<T>, q': seq<T>, w': seq<T>, e: seq<T>)
    requires a + q == w + a' && a' + q' == w' + e
    ensures a + (q + q') == (w + w') + e
  {
    assert a + (q + q') == (a + q) + q';
    assert (w + a') + q' == w + (a' + q');
    assert w + (w' + e) == (w + w') + e;
  }

  lemma Regroup<T>(a: seq<T>, b: seq<T>, c: seq<T>)
    ensures (a + b) + c == a + (b + c)
  {
  }
}
