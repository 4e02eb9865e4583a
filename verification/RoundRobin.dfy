/** The ready queue and the timer-driven scheduler of advUNIX/UserLevelContextSwitch, for
    a ring of any size and any number of tasks. Only the choice of the next task is
    modelled, not the stacks that `swapcontext` exchanges. */
module RoundRobin {
  import Ring
  import opened Sequences

  /** `readyQueue`, `front`, `rear` and `currentTask`. */
  datatype Sched = Sched(ready: seq<int>, front: nat, rear: nat, current: int)

  predicate Sized(s: Sched) {
    s.front < |s.ready| && s.rear < |s.ready|
  }

  function Enqueue(s: Sched, id: int): (s': Sched)
    requires Sized(s)
    ensures Sized(s')
  {
    s.(ready := s.ready[s.rear := id], rear := Ring.Next(s.rear, |s.ready|))
  }

  /** The dequeued id, or -1 when `front == rear`. */
  function Dequeue(s: Sched): (r: (Sched, int))
    requires Sized(s)
    ensures Sized(r.0)
  {
    if s.front == s.rear then (s, -1)
    else (s.(front := Ring.Next(s.front, |s.ready|)), s.ready[s.front])
  }

  /** The SIGALRM handler. */
  function Tick(s: Sched): (s': Sched)
    requires Sized(s)
    ensures Sized(s')
  {
    var (s', next) := Dequeue(Enqueue(s, s.current));
    s'.(current := next)
  }

  /** The fill loop of `main`: ids 0 to k-1 enter a zeroed ring of n cells. */
  function Fill(n: nat, k: nat): (s: Sched)
    requires 0 < n
    ensures Sized(s) && |s.ready| == n && s.front == 0 && s.current == -1
  {
    if k == 0 then Sched(seq(n, _ => 0), 0, 0, -1) else Enqueue(Fill(n, k - 1), k - 1)
  }

  /** `main` up to its `setcontext`. */
  function Boot(n: nat, k: nat): (s: Sched)
    requires 0 < n
    ensures Sized(s)
  {
    var (s, first) := Dequeue(Fill(n, k));
    s.(current := first)
  }

  function Ticks(s: Sched, t: nat): (e: Sched)
    requires Sized(s)
    ensures Sized(e)
  {
    if t == 0 then s else Tick(Ticks(s, t - 1))
  }

  // ----- Rotation -----

  /** Task r runs and the queue holds r+1, r+2, ... cyclically, k-1 tasks in all. */
  ghost predicate Rotated(s: Sched, k: nat, r: nat) {
    && r < k < |s.ready| && Sized(s)
    && s.current == r
    && s.rear == Ring.Slot(s.front, k - 1, |s.ready|)
    && forall j | 0 <= j < k - 1 :: Queue(s, k)[j] == Ring.Slot(r, j + 1, k)
  }

  function Queue(s: Sched, k: nat): seq<int>
    requires Sized(s) && 0 < k < |s.ready|
  {
    Ring.Slots(s.ready, s.front, k - 1)
  }

  lemma {:induction false} FillQueues(n: nat, k: nat)
    requires k < n
    ensures Fill(n, k).rear == k
    ensures forall j | 0 <= j < k :: Fill(n, k).ready[j] == j
  {
    if k != 0 {
      FillQueues(n, k - 1);
    }
  }

  lemma BootRotated(n: nat, k: nat)
    requires 0 < k < n
    ensures |Boot(n, k).ready| == n && Rotated(Boot(n, k), k, 0)
  {
    FillQueues(n, k);
  }

  lemma TickRotates(s: Sched, k: nat, r: nat)
    requires Rotated(s, k, r)
    ensures |Tick(s).ready| == |s.ready| && Rotated(Tick(s), k, Ring.Next(r, k))
  {
    var e, n := Enqueue(s, s.current), |s.ready|;
    Ring.WriteFree(s.ready, s.front, k - 1, s.current);
    Ring.Grow(e.ready, s.front, k - 1);
    Ring.Shrink(e.ready, s.front, k);
    var all := Ring.Slots(e.ready, s.front, k);
    assert all == Queue(s, k) + [s.current];
    forall j | 0 <= j < k
      ensures all[j] == Ring.Slot(r, if j < k - 1 then j + 1 else 0, k)
    {
    }
  }

  lemma NextIsModular(t: nat, k: nat)
    requires 0 < k
    ensures (t + 1) % k == Ring.Next(t % k, k)
  {
    var q, r := t / k, t % k;
    assert t == k * q + r;
    if r + 1 < k {
      RemainderOf(t + 1, k, q, r + 1);
    } else {
      assert t + 1 == k * (q + 1);
      RemainderOf(t + 1, k, q + 1, 0);
    }
  }

  lemma RemainderOf(a: nat, k: nat, q: int, r: nat)
    requires r < k && a == k * q + r
    ensures a % k == r
  {
    var d := a / k - q;
    assert k * d == r - a % k by {
      assert a == k * (a / k) + a % k;
      assert k * (a / k) == k * q + k * d;
    }
    assert d >= 1 ==> k * d >= k;
    assert d <= -1 ==> k * d <= 0 - k;
  }

  /** With fewer tasks than cells the scheduler is round robin: after t ticks task t mod k
      runs, and the queue holds its successors in cyclic order. */
  lemma {:induction false} Rotation(n: nat, k: nat, t: nat)
    requires 0 < k < n
    ensures Rotated(Ticks(Boot(n, k), t), k, t % k)
  {
    if t == 0 {
      BootRotated(n, k);
    } else {
      Rotation(n, k, t - 1);
      TickRotates(Ticks(Boot(n, k), t - 1), k, (t - 1) % k);
      NextIsModular(t - 1, k);
    }
  }

  /** The running task and the queue are always a permutation of the ids. */
  lemma RotatedIsPermutation(s: Sched, k: nat, r: nat)
    requires Rotated(s, k, r)
    ensures var all := [s.current] + Queue(s, k);
      && |all| == k && Distinct(all)
      && forall id | 0 <= id < k :: id in all
  {
    var all := [s.current] + Queue(s, k);
    assert forall j | 0 <= j < k :: all[j] == Ring.Slot(r, j, k);
    forall id | 0 <= id < k ensures id in all {
      var j := if r <= id then id - r else id + k - r;
      assert all[j] == id;
    }
  }

  lemma PlusIsSlot(t: nat, j: nat, k: nat)
    requires j < k
    ensures (t + j) % k == Ring.Slot(t % k, j, k)
  {
    var q, r := t / k, t % k;
    assert t == k * q + r;
    if r + j < k {
      RemainderOf(t + j, k, q, r + j);
    } else {
      assert t + j == k * (q + 1) + (r + j - k);
      RemainderOf(t + j, k, q + 1, r + j - k);
    }
  }

  /** No task starves: in every k consecutive ticks each task is chosen exactly once. */
  lemma OncePerCycle(n: nat, k: nat, t: nat, id: nat) returns (u: nat)
    requires 0 < k < n && id < k
    ensures t <= u < t + k && Ticks(Boot(n, k), u).current == id
    ensures forall v | t <= v < t + k && v != u :: Ticks(Boot(n, k), v).current != id
  {
    var r := t % k;
    var at := if r <= id then id - r else id + k - r;
    u := t + at;
    PlusIsSlot(t, at, k);
    Rotation(n, k, u);
    forall v | t <= v < t + k && v != u
      ensures Ticks(Boot(n, k), v).current != id
    {
      Rotation(n, k, v);
      PlusIsSlot(t, v - t, k);
    }
  }

  // ----- The full ring -----

  lemma {:induction false} FillWraps(n: nat, k: nat)
    requires 0 < n
    ensures Fill(n, k).rear == k % n
    ensures forall j | 0 <= j < n :: Fill(n, k).ready[j] >= 0
  {
    if k != 0 {
      FillWraps(n, k - 1);
      NextIsModular(k - 1, n);
    }
  }

  /** The first `dequeue` finds a task exactly when the number of tasks is not a multiple of
      the ring size: a full ring looks empty. */
  lemma FirstDequeueIff(n: nat, k: nat)
    requires 0 < n
    ensures Boot(n, k).current == -1 <==> k % n == 0
  {
    FillWraps(n, k);
  }

  /** `main` as written puts as many tasks as there are cells: no task ever runs, however
      often the timer fires. */
  lemma {:induction false} FullRingNeverRuns(n: nat, t: nat)
    requires 0 < n
    ensures var s := Ticks(Boot(n, n), t); s.current == -1 && s.front == s.rear
  {
    if t == 0 {
      FillWraps(n, n);
    } else {
      FullRingNeverRuns(n, t - 1);
    }
  }

  /** So among 1 to n tasks the scheduler works exactly for fewer than n. */
  lemma WorksIff(n: nat, k: nat)
    requires 0 < k <= n
    ensures (forall t: nat :: Ticks(Boot(n, k), t).current == t % k) <==> k < n
  {
    if k < n {
      forall t: nat ensures Ticks(Boot(n, k), t).current == t % k {
        Rotation(n, k, t);
      }
    } else {
      FullRingNeverRuns(n, 0);
      assert Ticks(Boot(n, k), 0).current != 0 % k;
    }
  }

  // ----- The program -----

  class Scheduler {
    const readyQueue: array<int>
    var front: nat
    var rear: nat
    var currentTask: int

    function Abs(): Sched
      reads this, readyQueue
    {
      Sched(readyQueue[..], front, rear, currentTask)
    }

    constructor (n: nat)
      requires 0 < n
      ensures fresh(readyQueue) && Abs() == Fill(n, 0)
    {
      readyQueue := new int[n](_ => 0);
      front, rear, currentTask := 0, 0, -1;
      new;
      assert readyQueue[..] == seq(n, _ => 0);
    }

    method EnqueueTask(id: int)
      requires Sized(Abs())
      modifies this`rear, readyQueue
      ensures Abs() == Enqueue(old(Abs()), id)
    {
      readyQueue[rear] := id;
      rear := (rear + 1) % readyQueue.Length;
    }

    method DequeueTask() returns (id: int)
      requires Sized(Abs())
      modifies this`front
      ensures (Abs(), id) == Dequeue(old(Abs()))
    {
      if front == rear {
        return -1;
      }
      id := readyQueue[front];
      front := (front + 1) % readyQueue.Length;
    }

    /** `scheduler`. */
    method OnTimer()
      requires Sized(Abs())
      modifies this, readyQueue
      ensures Abs() == Tick(old(Abs()))
    {
      var previousTask := currentTask;
      EnqueueTask(previousTask);
      currentTask := DequeueTask();
    }

    /** `main` with k tasks and the timer firing `ticks` times. */
    method Run(k: nat, ticks: nat)
      requires 0 < readyQueue.Length && Abs() == Fill(readyQueue.Length, 0)
      modifies this, readyQueue
      ensures Abs() == Ticks(Boot(readyQueue.Length, k), ticks)
      ensures 0 < k < readyQueue.Length ==> currentTask == ticks % k
      ensures k == readyQueue.Length ==> currentTask == -1
    {
      for i := 0 to k
        invariant Abs() == Fill(readyQueue.Length, i)
      {
        EnqueueTask(i);
      }
      currentTask := DequeueTask();
      for t := 0 to ticks
        invariant Abs() == Ticks(Boot(readyQueue.Length, k), t)
      {
        OnTimer();
      }
      if 0 < k < readyQueue.Length {
        Rotation(readyQueue.Length, k, ticks);
      }
      if k == readyQueue.Length {
        FullRingNeverRuns(k, ticks);
      }
    }
  }
}
