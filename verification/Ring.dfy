/** Circular buffers as the C programs keep them: a fixed array, a start index,
    and indices that advance by `(i + 1) % N`. */
module Ring {

  /** The index update of every ring in the repository. */
  function Next(i: nat, n: nat): (r: nat)
    requires i < n
    ensures r == if i + 1 == n then 0 else i + 1
  {
    (i + 1) % n
  }

  /** The array index of the k-th cell counted cyclically from `start`. */
  function Slot(start: nat, k: nat, n: nat): (r: nat)
    requires start < n && k <= n
    ensures r == if start + k < n then start + k else start + k - n
  {
    WrapsOnce(start + k, n);
    (start + k) % n
  }

  lemma WrapsOnce(a: nat, n: nat)
    requires 0 < n && a < 2 * n
    ensures a % n == if a < n then a else a - n
  {
    if n <= a {
      var q := a / n;
      assert q < 2 || n * q >= n * 2;
    }
  }

  /** The `len` cells read cyclically from `start`. */
  function Slots<T>(buf: seq<T>, start: nat, len: nat): (q: seq<T>)
    requires start < |buf| && len <= |buf|
    ensures |q| == len
  {
    seq(len, (k: int) requires 0 <= k < len => buf[Slot(start, k, |buf|)])
  }

  /** Writing the first cell past the contents leaves the contents alone. */
  lemma WriteFree<T>(buf: seq<T>, start: nat, len: nat, x: T)
    requires start < |buf| && len < |buf|
    ensures Slots(buf[Slot(start, len, |buf|) := x], start, len) == Slots(buf, start, len)
  {
  }

  /** A ring whose cell past the contents holds x, grown by one cell, has x appended. */
  lemma Grow<T>(buf: seq<T>, start: nat, len: nat)
    requires start < |buf| && len < |buf|
    ensures Slots(buf, start, len + 1) == Slots(buf, start, len) + [buf[Slot(start, len, |buf|)]]
    ensures Next(Slot(start, len, |buf|), |buf|) == Slot(start, len + 1, |buf|)
  {
  }

  /** Advancing the start by one drops the first element and moves no other. */
  lemma Shrink<T>(buf: seq<T>, start: nat, len: nat)
    requires start < |buf| && 0 < len <= |buf|
    ensures Slots(buf, start, len)[0] == buf[start]
    ensures Slots(buf, Next(start, |buf|), len - 1) == Slots(buf, start, len)[1..]
    ensures Slot(Next(start, |buf|), len - 1, |buf|) == Slot(start, len, |buf|)
  {
    var n := |buf|;
    forall k | 0 <= k < len - 1
      ensures Slots(buf, Next(start, n), len - 1)[k] == Slots(buf, start, len)[1..][k]
    {
      assert Slot(Next(start, n), k, n) == Slot(start, k + 1, n);
    }
  }
}
