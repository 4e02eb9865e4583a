/** The counting-semaphore simulator of advUNIX/HW2. Its ring has neither a full nor an
    empty test: how much of it is in use is only implied by `value`. */
module SemaphoreSim {
  import Ring
  import opened Sequences

  datatype TaskState = READY | BLOCKED

  /** The globals `sem` and `tasks`; the ring and the task table both have MAX entries. */
  datatype Sim = Sim(value: int, queue: seq<int>, front: nat, rear: nat, tasks: seq<TaskState>)

  function Length(s: Sim): nat {
    if s.value < 0 then -s.value else 0
  }

  predicate Sized(s: Sim) {
    && |s.queue| == |s.tasks| && s.front < |s.queue| && s.rear < |s.queue|
    && Length(s) <= |s.queue|
  }

  /** The ring read from `front`. */
  function Waiting(s: Sim): seq<int>
    requires Sized(s)
  {
    Ring.Slots(s.queue, s.front, Length(s))
  }

  /** The ring lists exactly the blocked tasks, each once, and `rear` follows the last. */
  ghost predicate Inv(s: Sim) {
    && Sized(s)
    && s.rear == Ring.Slot(s.front, Length(s), |s.queue|)
    && Distinct(Waiting(s))
    && (forall k | 0 <= k < Length(s) :: 0 <= Waiting(s)[k] < |s.tasks|)
    && forall id | 0 <= id < |s.tasks| :: s.tasks[id] == BLOCKED <==> id in Waiting(s)
  }

  datatype Op = Wait(id: nat) | Post

  /** Only a task that is not blocked can call `sem_wait`. */
  predicate Legal(s: Sim, op: Op) {
    op.Wait? ==> op.id < |s.tasks| && s.tasks[op.id] == READY
  }

  function Apply(s: Sim, op: Op): Sim
    requires Sized(s) && Legal(s, op)
    requires op.Post? && s.value < 0 ==> 0 <= s.queue[s.front] < |s.tasks|
  {
    match op
    case Wait(id) =>
      var s := s.(value := s.value - 1);
      if s.value < 0 then
        s.(tasks := s.tasks[id := BLOCKED],
           queue := s.queue[s.rear := id],
           rear := Ring.Next(s.rear, |s.queue|))
      else
        s.(tasks := s.tasks[id := READY])
    case Post =>
      var s := s.(value := s.value + 1);
      if s.value <= 0 then
        s.(tasks := s.tasks[s.queue[s.front] := READY],
           front := Ring.Next(s.front, |s.queue|))
      else s
  }

  /** `sem_init`. */
  function Init(s: Sim, v: int): Sim {
    s.(value := v, front := 0, rear := 0)
  }

  /** With all tasks ready, `sem_init(v)` sets up a sound simulator exactly for v >= 0: a
      negative value claims waiters that the ring does not hold. */
  lemma InitIff(s: Sim, v: int)
    requires |s.queue| == |s.tasks| > 0 && forall i | 0 <= i < |s.tasks| :: s.tasks[i] == READY
    ensures Inv(Init(s, v)) <==> v >= 0
  {
    var s' := Init(s, v);
    if v < 0 && Sized(s') {
      assert Waiting(s')[0] in Waiting(s');
    }
  }

  // ----- Pigeonhole -----

  lemma {:induction false} DistinctBelow(q: seq<int>, n: nat)
    requires Distinct(q) && forall k | 0 <= k < |q| :: 0 <= q[k] < n
    ensures |q| <= n
  {
    assert |q| == 0 || 0 <= q[0] < n;
    if n != 0 {
      if i :| 0 <= i < |q| && q[i] == n - 1 {
        var rest := q[..i] + q[i + 1..];
        assert forall k | 0 <= k < |rest| :: rest[k] == q[if k < i then k else k + 1];
        DistinctBelow(rest, n - 1);
      } else {
        DistinctBelow(q, n - 1);
      }
    }
  }

  /** Distinct ids below n that miss one id are fewer than n. */
  lemma Pigeonhole(q: seq<int>, n: nat, id: nat)
    requires Distinct(q) && id < n && id !in q
    requires forall k | 0 <= k < |q| :: 0 <= q[k] < n
    ensures |q| < n
  {
    DistinctBelow(q + [id], n);
  }

  // ----- One operation -----

  /** A ready task finds room in the unchecked ring and queues up last. */
  lemma WaitStep(s: Sim, id: nat)
    requires Inv(s) && Legal(s, Wait(id))
    ensures s.value <= 0 ==> Length(s) < |s.queue|
    ensures Inv(Apply(s, Wait(id)))
    ensures Waiting(Apply(s, Wait(id))) == if s.value > 0 then Waiting(s) else Waiting(s) + [id]
  {
    if s.value <= 0 {
      var s' := Apply(s, Wait(id));
      Pigeonhole(Waiting(s), |s.tasks|, id);
      Ring.WriteFree(s.queue, s.front, Length(s), id);
      Ring.Grow(s'.queue, s.front, Length(s));
      assert Waiting(s') == Waiting(s) + [id];
    }
  }

  /** A post that finds waiters reads an occupied cell: the longest waiter's. */
  lemma PostStep(s: Sim)
    requires Inv(s)
    ensures s.value < 0 ==> Length(s) > 0 && s.queue[s.front] == Waiting(s)[0]
    ensures s.value < 0 ==> 0 <= s.queue[s.front] < |s.tasks|
    ensures Inv(Apply(s, Post))
    ensures Waiting(Apply(s, Post)) == if s.value < 0 then Waiting(s)[1..] else Waiting(s)
  {
    if s.value < 0 {
      Ring.Shrink(s.queue, s.front, Length(s));
      assert Waiting(s)[0] == s.queue[s.front];
      var s' := Apply(s, Post);
      assert Waiting(s') == Waiting(s)[1..];
      assert Waiting(s) == [Waiting(s)[0]] + Waiting(s)[1..];
    }
  }

  lemma OpKeeps(s: Sim, op: Op)
    requires Inv(s) && Legal(s, op)
    ensures op.Post? && s.value < 0 ==> 0 <= s.queue[s.front] < |s.tasks|
    ensures Inv(Apply(s, op))
  {
    if op.Post? {
      PostStep(s);
    } else {
      WaitStep(s, op.id);
    }
  }

  // ----- Runs -----

  ghost function Next(s: Sim, op: Op): (s': Sim)
    requires Inv(s) && Legal(s, op)
    ensures Inv(s')
  {
    OpKeeps(s, op);
    Apply(s, op)
  }

  ghost predicate IsRun(s: Sim, ops: seq<Op>)
    requires Inv(s)
    decreases |ops|
  {
    |ops| == 0 || (Legal(s, ops[0]) && IsRun(Next(s, ops[0]), ops[1..]))
  }

  ghost function Exec(s: Sim, ops: seq<Op>): (e: Sim)
    requires Inv(s) && IsRun(s, ops)
    ensures Inv(e)
    decreases |ops|
  {
    if |ops| == 0 then s else Exec(Next(s, ops[0]), ops[1..])
  }

  function Posts(ops: seq<Op>): nat {
    if |ops| == 0 then 0 else (if ops[0].Post? then 1 else 0) + Posts(ops[1..])
  }

  /** The tasks that had to queue up during a run, in order. */
  ghost function Queued(s: Sim, ops: seq<Op>): seq<int>
    requires Inv(s) && IsRun(s, ops)
    decreases |ops|
  {
    if |ops| == 0 then []
    else (if ops[0].Wait? && s.value <= 0 then [ops[0].id] else [])
         + Queued(Next(s, ops[0]), ops[1..])
  }

  /** The tasks woken during a run, in order. */
  ghost function Woken(s: Sim, ops: seq<Op>): seq<int>
    requires Inv(s) && IsRun(s, ops)
    decreases |ops|
  {
    if |ops| == 0 then []
    else (if ops[0].Post? && s.value < 0 then [s.queue[s.front]] else [])
         + Woken(Next(s, ops[0]), ops[1..])
  }

  /** Waits that entered at once. */
  ghost function Entered(s: Sim, ops: seq<Op>): nat
    requires Inv(s) && IsRun(s, ops)
    decreases |ops|
  {
    if |ops| == 0 then 0
    else (if ops[0].Wait? && s.value > 0 then 1 else 0) + Entered(Next(s, ops[0]), ops[1..])
  }

  function Surplus(s: Sim): nat {
    if s.value > 0 then s.value else 0
  }

  /** One operation moves nobody past anybody else. */
  lemma OpKeepsOrder(s: Sim, op: Op)
    requires Inv(s) && Legal(s, op)
    ensures Waiting(s) + (if op.Wait? && s.value <= 0 then [op.id] else [])
         == (if op.Post? && s.value < 0 then [s.queue[s.front]] else []) + Waiting(Next(s, op))
  {
    if op.Wait? {
      WaitStep(s, op.id);
    } else {
      PostStep(s);
    }
  }

  /** Wake-ups happen in blocking order: those who waited or queued up are those woken
      followed by those who still wait. */
  lemma {:induction false} WakesInOrder(s: Sim, ops: seq<Op>)
    requires Inv(s) && IsRun(s, ops)
    ensures Waiting(s) + Queued(s, ops) == Woken(s, ops) + Waiting(Exec(s, ops))
    decreases |ops|
  {
    if |ops| != 0 {
      var s', rest := Next(s, ops[0]), ops[1..];
      var queued := if ops[0].Wait? && s.value <= 0 then [ops[0].id] else [];
      var woken := if ops[0].Post? && s.value < 0 then [s.queue[s.front]] else [];
      WakesInOrder(s', rest);
      OpKeepsOrder(s, ops[0]);
      Glue(Waiting(s), queued, woken, Waiting(s'), Queued(s', rest), Woken(s', rest),
           Waiting(Exec(s', rest)));
    }
  }

  /** As long as there are waiters, each post wakes exactly one. */
  lemma {:induction false} PostsWake(s: Sim, ops: seq<Op>)
    requires Inv(s) && IsRun(s, ops)
    ensures |Woken(s, ops)| <= Posts(ops)
    ensures Posts(ops) <= Length(s) ==> |Woken(s, ops)| == Posts(ops)
    ensures Posts(ops) >= Length(s) ==> |Woken(s, ops)| >= Length(s)
    decreases |ops|
  {
    if |ops| != 0 {
      PostsWake(Next(s, ops[0]), ops[1..]);
    }
  }

  /** A task at position p wakes on the (p+1)-th later post: not on an earlier one, and
      whatever else happens in between. */
  lemma WakesOnItsPost(s: Sim, ops: seq<Op>, p: nat)
    requires Inv(s) && IsRun(s, ops) && p < Length(s)
    ensures Posts(ops) <= p ==>
              && p - Posts(ops) < Length(Exec(s, ops))
              && Waiting(Exec(s, ops))[p - Posts(ops)] == Waiting(s)[p]
              && |Woken(s, ops)| == Posts(ops)
    ensures Posts(ops) > p ==> p < |Woken(s, ops)| && Woken(s, ops)[p] == Waiting(s)[p]
  {
    WakesInOrder(s, ops);
    PostsWake(s, ops);
    assert (Waiting(s) + Queued(s, ops))[p] == Waiting(s)[p];
  }

  /** Grants minus posts is what has been taken from the semaphore's surplus; from an
      initial value v this is v - max(value, 0). */
  lemma {:induction false} GrantsBalance(s: Sim, ops: seq<Op>)
    requires Inv(s) && IsRun(s, ops)
    ensures Entered(s, ops) + |Woken(s, ops)| - Posts(ops) == Surplus(s) - Surplus(Exec(s, ops))
    decreases |ops|
  {
    if |ops| != 0 {
      GrantsBalance(Next(s, ops[0]), ops[1..]);
    }
  }

  // ----- The critical section -----

  /** Who is inside, when whoever posts leaves. A task may enter more than once. */
  ghost function Inside(s: Sim, inside: multiset<int>, op: Op, who: int): multiset<int>
    requires Inv(s) && Legal(s, op)
  {
    match op
    case Wait(id) => if s.value > 0 then inside + multiset{id} else inside
    case Post =>
      (inside - multiset{who}) + if s.value < 0 then multiset{s.queue[s.front]} else multiset{}
  }

  /** Each operation with the task that performs it; only insiders post. */
  ghost predicate Disciplined(s: Sim, inside: multiset<int>, ops: seq<(Op, int)>)
    requires Inv(s)
    decreases |ops|
  {
    |ops| == 0 ||
    (var (op, who) := ops[0];
     && Legal(s, op) && (op.Post? ==> who in inside)
     && Disciplined(Next(s, op), Inside(s, inside, op, who), ops[1..]))
  }

  ghost function Occupants(s: Sim, inside: multiset<int>, ops: seq<(Op, int)>): (Sim, multiset<int>)
    requires Inv(s) && Disciplined(s, inside, ops)
    decreases |ops|
  {
    if |ops| == 0 then (s, inside)
    else Occupants(Next(s, ops[0].0), Inside(s, inside, ops[0].0, ops[0].1), ops[1..])
  }

  /** The semaphore's promise: with initial value v and nobody inside, never more than v
      tasks are inside, and fewer exactly when a wait would enter at once. */
  lemma {:induction false} AtMostInside(s: Sim, inside: multiset<int>, ops: seq<(Op, int)>, v: nat)
    requires Inv(s) && Disciplined(s, inside, ops)
    requires |inside| + Surplus(s) == v
    ensures var (e, occupants) := Occupants(s, inside, ops);
      && |occupants| == v - Surplus(e) <= v && (|occupants| < v <==> e.value > 0)
    decreases |ops|
  {
    if |ops| != 0 {
      AtMostInside(Next(s, ops[0].0), Inside(s, inside, ops[0].0, ops[0].1), ops[1..], v);
    }
  }

  // ----- The program -----

  class Simulator {
    var value: int
    const queue: array<int>
    var front: nat
    var rear: nat
    const tasks: array<TaskState>

    function Abs(): Sim
      reads this, queue, tasks
    {
      Sim(value, queue[..], front, rear, tasks[..])
    }

    /** The globals, the initialisation loop of `main` and `sem_init(val)`. */
    constructor (max: nat, val: int)
      requires 0 < max
      ensures fresh(queue) && fresh(tasks) && queue.Length == tasks.Length == max
      ensures Inv(Abs()) <==> val >= 0
      ensures value == val && forall i | 0 <= i < max :: tasks[i] == READY
    {
      queue := new int[max](_ => 0);
      tasks := new TaskState[max](_ => READY);
      new;
      SemInit(val);
      InitIff(Abs(), val);
      assert Init(Abs(), val) == Abs();
    }

    method SemInit(val: int)
      modifies this
      ensures Abs() == Init(old(Abs()), val)
    {
      value := val;
      front, rear := 0, 0;
    }

    method Enqueue(id: int)
      requires rear < queue.Length
      modifies queue, this`rear
      ensures queue[..] == old(queue[..])[old(rear) := id]
      ensures rear == Ring.Next(old(rear), queue.Length)
    {
      queue[rear] := id;
      rear := (rear + 1) % queue.Length;
    }

    method Dequeue() returns (id: int)
      requires front < queue.Length
      modifies this`front
      ensures id == queue[old(front)] && front == Ring.Next(old(front), queue.Length)
    {
      id := queue[front];
      front := (front + 1) % queue.Length;
    }

    method SemWait(id: nat)
      requires Inv(Abs()) && Legal(Abs(), Wait(id))
      modifies this, queue, tasks
      ensures Inv(Abs()) && Abs() == Apply(old(Abs()), Wait(id))
    {
      OpKeeps(Abs(), Wait(id));
      value := value - 1;
      if value < 0 {
        tasks[id] := BLOCKED;
        Enqueue(id);
      } else {
        tasks[id] := READY;
      }
    }

    method SemPost()
      requires Inv(Abs())
      modifies this, queue, tasks
      ensures Inv(Abs())
      ensures old(value) < 0 ==> 0 <= old(queue[front]) < tasks.Length
      ensures Abs() == Apply(old(Abs()), Post)
    {
      OpKeeps(Abs(), Post);
      value := value + 1;
      if value <= 0 {
        var id := Dequeue();
        tasks[id] := READY;
      }
    }
  }
}
