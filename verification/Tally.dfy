/** Sums of a weight over a sequence of threads, and how one thread's move changes them. */
module Tally {

  function Sum<T>(ts: seq<T>, w: T -> int): int
  {
    if |ts| == 0 then 0 else Sum(ts[..|ts| - 1], w) + w(ts[|ts| - 1])
  }

  /** Replacing one element changes a sum by the difference of its weights. */
  lemma {:induction false} Update<T>(ts: seq<T>, i: nat, t: T, w: T -> int)
    requires i < |ts|
    ensures Sum(ts[i := t], w) == Sum(ts, w) - w(ts[i]) + w(t)
  {
    var n := |ts| - 1;
    if i < n {
      assert ts[i := t][..n] == ts[..n][i := t];
      Update(ts[..n], i, t, w);
    } else {
      assert ts[i := t][..n] == ts[..n];
    }
  }

  lemma {:induction false} Nonnegative<T>(ts: seq<T>, w: T -> int)
    requires forall i | 0 <= i < |ts| :: w(ts[i]) >= 0
    ensures Sum(ts, w) >= 0
  {
    if |ts| != 0 {
      Nonnegative(ts[..|ts| - 1], w);
    }
  }

  /** No element of a nonnegative family outweighs the sum. */
  lemma {:induction false} AtLeast<T>(ts: seq<T>, w: T -> int, i: nat)
    requires i < |ts| && forall k | 0 <= k < |ts| :: w(ts[k]) >= 0
    ensures Sum(ts, w) >= w(ts[i])
  {
    var n := |ts| - 1;
    if i < n {
      AtLeast(ts[..n], w, i);
    } else {
      Nonnegative(ts[..n], w);
    }
  }

  /** Two different elements together do not outweigh the sum either. */
  lemma {:induction false} AtLeastTwo<T>(ts: seq<T>, w: T -> int, i: nat, j: nat)
    requires i < j < |ts| && forall k | 0 <= k < |ts| :: w(ts[k]) >= 0
    ensures Sum(ts, w) >= w(ts[i]) + w(ts[j])
  {
    var n := |ts| - 1;
    if j < n {
      AtLeastTwo(ts[..n], w, i, j);
    } else {
      AtLeast(ts[..n], w, i);
    }
  }

  lemma {:induction false} AllZero<T>(ts: seq<T>, w: T -> int)
    requires forall i | 0 <= i < |ts| :: w(ts[i]) == 0
    ensures Sum(ts, w) == 0
  {
    if |ts| != 0 {
      AllZero(ts[..|ts| - 1], w);
    }
  }

  lemma {:induction false} Add<T>(ts: seq<T>, u: T -> int, v: T -> int, w: T -> int)
    requires forall i | 0 <= i < |ts| :: w(ts[i]) == u(ts[i]) + v(ts[i])
    ensures Sum(ts, w) == Sum(ts, u) + Sum(ts, v)
  {
    if |ts| != 0 {
      Add(ts[..|ts| - 1], u, v, w);
    }
  }
}
