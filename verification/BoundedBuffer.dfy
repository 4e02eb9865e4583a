/** The bounded buffer of advUNIX/ProducerConsumerSema: any number of producer and
    consumer threads over one ring guarded by the semaphores `empty`, `full` and `mutex`.
    Every statement that touches shared memory is one atomic step. */
module BoundedBuffer {
  import Ring
  import opened Sequences
  import opened Tally

  datatype Role = Producer | Consumer

  /** The statement a thread executes next. */
  datatype Pc = Draw | Wait | Lock | Access | Advance | Unlock | Post

  /** `left` counts loop iterations not completed yet; `item` is the local variable. */
  datatype Thread = Thread(role: Role, pc: Pc, left: nat, item: int)

  /** `produced` and `consumed` record the critical sections in the order in which
      `in` and `out` move. */
  datatype State = State(
    buffer: seq<int>, inn: nat, out: nat,
    empty: nat, full: nat, mutex: nat,
    threads: seq<Thread>,
    produced: seq<int>, consumed: seq<int>)

  /** Thread `tid` moves; `x` is what `rand() % 100` yields if the move draws a number. */
  datatype Label = Label(tid: nat, x: int)

  function Top(role: Role): Pc {
    if role == Producer then Draw else Wait
  }

  predicate Finished(t: Thread) {
    t.left == 0 && t.pc == Top(t.role)
  }

  /** Whether the next statement of t can complete with these semaphore values. */
  predicate CanMove(t: Thread, empty: nat, full: nat, mutex: nat) {
    match t.pc
    case Draw => t.left > 0
    case Wait => t.left > 0 && (if t.role == Producer then empty > 0 else full > 0)
    case Lock => mutex > 0
    case _ => true
  }

  predicate Enabled(s: State, tid: nat)
    requires tid < |s.threads|
  {
    CanMove(s.threads[tid], s.empty, s.full, s.mutex)
  }

  predicate CanTake(s: State, l: Label) {
    && l.tid < |s.threads| && Enabled(s, l.tid)
    && s.inn < |s.buffer| && s.out < |s.buffer|
  }

  /** The thread `t` after its step, given the cell at `out`. */
  function Moved(t: Thread, x: int, cell: int): Thread {
    match t.pc
    case Draw => t.(item := x, pc := Wait)
    case Wait => t.(pc := Lock)
    case Lock => t.(pc := Access)
    case Access => t.(pc := Advance, item := if t.role == Producer then t.item else cell)
    case Advance => t.(pc := Unlock)
    case Unlock => t.(pc := Post)
    case Post => t.(pc := Top(t.role), left := if t.left == 0 then 0 else t.left - 1)
  }

  function Step(s: State, l: Label): State
    requires CanTake(s, l)
  {
    var t, n := s.threads[l.tid], |s.buffer|;
    var s := s.(threads := s.threads[l.tid := Moved(t, l.x, s.buffer[s.out])]);
    match (t.pc, t.role)
    case (Draw, _) => s
    case (Wait, Producer) => s.(empty := s.empty - 1)
    case (Wait, Consumer) => s.(full := s.full - 1)
    case (Lock, _) => s.(mutex := s.mutex - 1)
    case (Access, Producer) => s.(buffer := s.buffer[s.inn := t.item])
    case (Access, Consumer) => s
    case (Advance, Producer) => s.(inn := Ring.Next(s.inn, n), produced := s.produced + [t.item])
    case (Advance, Consumer) => s.(out := Ring.Next(s.out, n), consumed := s.consumed + [t.item])
    case (Unlock, _) => s.(mutex := s.mutex + 1)
    case (Post, Producer) => s.(full := s.full + 1)
    case (Post, Consumer) => s.(empty := s.empty + 1)
  }

  /** What `main` sets up: an empty ring, `empty` at the capacity, `full` at 0, `mutex`
      at 1, and every thread at the top of its loop. */
  ghost predicate Initial(s: State) {
    && 0 < |s.buffer| && s.inn == 0 && s.out == 0
    && s.empty == |s.buffer| && s.full == 0 && s.mutex == 1
    && s.produced == [] && s.consumed == []
    && forall i | 0 <= i < |s.threads| :: s.threads[i].pc == Top(s.threads[i].role)
  }

  ghost predicate AllFinished(s: State) {
    forall i | 0 <= i < |s.threads| :: Finished(s.threads[i])
  }

  ghost predicate Stuck(s: State) {
    forall i | 0 <= i < |s.threads| :: !Enabled(s, i)
  }

  // ----- Weights of a thread -----

  /** Holding the mutex. */
  function InCritical(t: Thread): int {
    if t.pc in {Access, Advance, Unlock} then 1 else 0
  }

  /** Holding a free slot: reserved by a producer, or emptied and not yet posted. */
  function HoldsSlot(t: Thread): int {
    match t.role
    case Producer => if t.pc in {Lock, Access, Advance} then 1 else 0
    case Consumer => if t.pc in {Unlock, Post} then 1 else 0
  }

  /** Holding an item: stored and not yet posted, or claimed by a consumer. */
  function HoldsItem(t: Thread): int {
    match t.role
    case Producer => if t.pc in {Unlock, Post} then 1 else 0
    case Consumer => if t.pc in {Lock, Access, Advance} then 1 else 0
  }

  /** Between its first `sem_wait` and its last `sem_post`. */
  function InFlight(t: Thread): int {
    if t.pc in {Lock, Access, Advance, Unlock, Post} then 1 else 0
  }

  function Iterations(t: Thread): int {
    if t.pc in {Unlock, Post} then t.left - 1 else t.left
  }

  /** Items the thread has yet to put into the ring. */
  function ToProduce(t: Thread): int {
    if t.role == Producer then Iterations(t) else 0
  }

  /** Items the thread has yet to take out of the ring. */
  function ToConsume(t: Thread): int {
    if t.role == Consumer then Iterations(t) else 0
  }

  function Rank(pc: Pc): int {
    match pc
    case Draw => 0 case Wait => 1 case Lock => 2 case Access => 3
    case Advance => 4 case Unlock => 5 case Post => 6
  }

  /** Steps the thread can still take, at most. */
  function Work(t: Thread): int {
    if t.left == 0 then 0 else 7 * t.left - Rank(t.pc)
  }

  // ----- The invariant -----

  ghost predicate ThreadOk(t: Thread) {
    && (t.pc != Top(t.role) ==> t.left > 0)
    && (t.role == Consumer ==> t.pc != Draw)
  }

  ghost predicate Tokens(s: State) {
    && (forall i | 0 <= i < |s.threads| :: ThreadOk(s.threads[i]))
    && s.mutex + Sum(s.threads, InCritical) == 1
    && s.empty + Sum(s.threads, HoldsSlot) == |s.buffer| - (|s.produced| - |s.consumed|)
    && s.full + Sum(s.threads, HoldsItem) == |s.produced| - |s.consumed|
  }

  /** The ring read cyclically from `out` is exactly what was produced and not consumed;
      `in` is the first cell past it, and a thread about to move a pointer has already
      transferred its item. */
  ghost predicate Queued(s: State) {
    && s.out < |s.buffer| && s.inn < |s.buffer|
    && 0 <= |s.produced| - |s.consumed| <= |s.buffer|
    && s.inn == Ring.Slot(s.out, |s.produced| - |s.consumed|, |s.buffer|)
    && s.produced == s.consumed + Contents(s)
    && forall i | 0 <= i < |s.threads| && s.threads[i].pc == Advance ::
         s.threads[i].item == s.buffer[if s.threads[i].role == Producer then s.inn else s.out]
  }

  ghost predicate Inv(s: State) {
    Tokens(s) && Queued(s)
  }

  /** The ring as a queue. */
  function Contents(s: State): seq<int>
    requires s.out < |s.buffer| && 0 <= |s.produced| - |s.consumed| <= |s.buffer|
  {
    Ring.Slots(s.buffer, s.out, |s.produced| - |s.consumed|)
  }

  ghost function TotalToProduce(s: State): int {
    |s.produced| + Sum(s.threads, ToProduce)
  }

  ghost function TotalToConsume(s: State): int {
    |s.consumed| + Sum(s.threads, ToConsume)
  }

  lemma InitialKeepsInv(s: State)
    requires Initial(s)
    ensures Inv(s) && Contents(s) == []
  {
    AllZero(s.threads, InCritical);
    AllZero(s.threads, HoldsSlot);
    AllZero(s.threads, HoldsItem);
  }

  lemma StepSums(s: State, l: Label, w: Thread -> int)
    requires CanTake(s, l)
    ensures Sum(Step(s, l).threads, w)
         == Sum(s.threads, w) - w(s.threads[l.tid]) + w(Step(s, l).threads[l.tid])
  {
    Update(s.threads, l.tid, Step(s, l).threads[l.tid], w);
  }

  lemma StepKeepsTokens(s: State, l: Label)
    requires Tokens(s) && CanTake(s, l)
    ensures Tokens(Step(s, l))
  {
    StepSums(s, l, InCritical);
    StepSums(s, l, HoldsSlot);
    StepSums(s, l, HoldsItem);
  }

  /** Only one thread is between `sem_wait(&mutex)` and `sem_post(&mutex)`. */
  lemma MutualExclusion(s: State, i: nat, j: nat)
    requires Tokens(s) && i < j < |s.threads|
    ensures InCritical(s.threads[i]) + InCritical(s.threads[j]) <= 1
  {
    AtLeastTwo(s.threads, InCritical, i, j);
  }

  /** A producer in its critical section has a slot that no unread item uses; a consumer
      in its critical section has an item to read. */
  lemma AccessIsSafe(s: State, i: nat)
    requires Inv(s) && i < |s.threads| && s.threads[i].pc in {Access, Advance}
    ensures s.threads[i].role == Producer ==>
              && |Contents(s)| < |s.buffer|
              && forall k | 0 <= k < |Contents(s)| :: Ring.Slot(s.out, k, |s.buffer|) != s.inn
    ensures s.threads[i].role == Consumer ==>
              && |Contents(s)| > 0 && Contents(s)[0] == s.buffer[s.out]
  {
    AtLeast(s.threads, HoldsSlot, i);
    AtLeast(s.threads, HoldsItem, i);
  }

  lemma OthersOutside(s: State, i: nat)
    requires Tokens(s) && i < |s.threads| && InCritical(s.threads[i]) == 1
    ensures forall j | 0 <= j < |s.threads| && j != i :: InCritical(s.threads[j]) == 0
  {
    forall j | 0 <= j < |s.threads| && j != i
      ensures InCritical(s.threads[j]) == 0
    {
      MutualExclusion(s, if j < i then j else i, if j < i then i else j);
    }
  }

  lemma ProducerKeepsQueued(s: State, l: Label)
    requires Inv(s) && CanTake(s, l)
    requires s.threads[l.tid].role == Producer && s.threads[l.tid].pc in {Access, Advance}
    ensures Queued(Step(s, l))
  {
    var t, len := s.threads[l.tid], |s.produced| - |s.consumed|;
    AccessIsSafe(s, l.tid);
    OthersOutside(s, l.tid);
    if t.pc == Access {
      Ring.WriteFree(s.buffer, s.out, len, t.item);
      assert Contents(Step(s, l)) == Contents(s);
    } else {
      Ring.Grow(s.buffer, s.out, len);
      assert Contents(Step(s, l)) == Contents(s) + [t.item];
    }
  }

  lemma ConsumerKeepsQueued(s: State, l: Label)
    requires Inv(s) && CanTake(s, l)
    requires s.threads[l.tid].role == Consumer && s.threads[l.tid].pc in {Access, Advance}
    ensures Queued(Step(s, l))
  {
    var t, len := s.threads[l.tid], |s.produced| - |s.consumed|;
    AccessIsSafe(s, l.tid);
    OthersOutside(s, l.tid);
    if t.pc == Advance {
      Ring.Shrink(s.buffer, s.out, len);
      assert Contents(Step(s, l)) == Contents(s)[1..];
    } else {
      assert Contents(Step(s, l)) == Contents(s);
    }
  }

  lemma StepKeepsQueued(s: State, l: Label)
    requires Inv(s) && CanTake(s, l)
    ensures Queued(Step(s, l))
  {
    var t := s.threads[l.tid];
    if t.pc in {Access, Advance} {
      if t.role == Producer {
        ProducerKeepsQueued(s, l);
      } else {
        ConsumerKeepsQueued(s, l);
      }
    } else {
      assert Contents(Step(s, l)) == Contents(s);
    }
  }

  lemma StepLowersWork(s: State, l: Label)
    requires Tokens(s) && CanTake(s, l)
    ensures Sum(Step(s, l).threads, Work) < Sum(s.threads, Work)
  {
    StepSums(s, l, Work);
    assert ThreadOk(s.threads[l.tid]);
  }

  lemma StepKeepsTotals(s: State, l: Label)
    requires Tokens(s) && CanTake(s, l)
    ensures TotalToProduce(Step(s, l)) == TotalToProduce(s)
    ensures TotalToConsume(Step(s, l)) == TotalToConsume(s)
  {
    StepSums(s, l, ToProduce);
    StepSums(s, l, ToConsume);
    assert ThreadOk(s.threads[l.tid]);
  }

  /** The conserved item totals, and the measure every step lowers. */
  lemma StepConserves(s: State, l: Label)
    requires Inv(s) && CanTake(s, l)
    ensures TotalToProduce(Step(s, l)) == TotalToProduce(s)
    ensures TotalToConsume(Step(s, l)) == TotalToConsume(s)
    ensures Sum(Step(s, l).threads, Work) < Sum(s.threads, Work)
  {
    StepKeepsTotals(s, l);
    StepLowersWork(s, l);
  }

  // ----- Refinement of a bounded FIFO queue -----

  /** The specification: a queue of capacity `cap`, changed by one operation or not at all. */
  datatype QueueOp = Stutter | Put(x: int) | Get(x: int)

  ghost predicate QueueStep(q: seq<int>, op: QueueOp, q': seq<int>, cap: nat) {
    match op
    case Stutter => q' == q
    case Put(x) => |q| < cap && q' == q + [x]
    case Get(x) => |q| > 0 && x == q[0] && q' == q[1..]
  }

  /** The queue operation a step performs: the one that moves `in` or `out`. */
  function OpOf(s: State, l: Label): QueueOp
    requires CanTake(s, l)
  {
    var t := s.threads[l.tid];
    if t.pc != Advance then Stutter else if t.role == Producer then Put(t.item) else Get(t.item)
  }

  /** Every atomic step of every thread is a step of the bounded FIFO queue. */
  lemma StepRefinesQueue(s: State, l: Label)
    requires Inv(s) && CanTake(s, l)
    ensures Inv(Step(s, l))
    ensures QueueStep(Contents(s), OpOf(s, l), Contents(Step(s, l)), |s.buffer|)
  {
    StepKeepsTokens(s, l);
    StepKeepsQueued(s, l);
    var t, s' := s.threads[l.tid], Step(s, l);
    if t.pc in {Access, Advance} {
      AccessIsSafe(s, l.tid);
      assert s.produced == s.consumed + Contents(s);
      assert s'.produced == s'.consumed + Contents(s');
      assert Contents(s) == s.produced[|s.consumed|..];
      assert Contents(s') == s'.produced[|s'.consumed|..];
    }
  }

  // ----- Runs -----

  ghost predicate IsRun(s: State, ls: seq<Label>)
    decreases |ls|
  {
    |ls| == 0 || (CanTake(s, ls[0]) && IsRun(Step(s, ls[0]), ls[1..]))
  }

  ghost function Exec(s: State, ls: seq<Label>): State
    requires IsRun(s, ls)
    decreases |ls|
  {
    if |ls| == 0 then s else Exec(Step(s, ls[0]), ls[1..])
  }

  /** Any interleaving from any good state: the invariant and the totals stay, and the
      number of steps is bounded by the work there was. */
  lemma {:induction false} RunsKeep(s: State, ls: seq<Label>)
    requires Inv(s) && IsRun(s, ls)
    ensures Inv(Exec(s, ls))
    ensures |Exec(s, ls).buffer| == |s.buffer|
    ensures TotalToProduce(Exec(s, ls)) == TotalToProduce(s)
    ensures TotalToConsume(Exec(s, ls)) == TotalToConsume(s)
    ensures |ls| + Sum(Exec(s, ls).threads, Work) <= Sum(s.threads, Work)
    decreases |ls|
  {
    if |ls| != 0 {
      StepRefinesQueue(s, ls[0]);
      StepConserves(s, ls[0]);
      RunsKeep(Step(s, ls[0]), ls[1..]);
    }
  }

  /** The number a producer has drawn and not yet put into the ring. */
  function InHand(t: Thread): seq<int> {
    if t.role == Producer && t.pc in {Wait, Lock, Access, Advance} then [t.item] else []
  }

  /** The numbers thread i draws during a run. */
  ghost function Drawn(s: State, ls: seq<Label>, i: nat): seq<int>
    requires IsRun(s, ls)
    decreases |ls|
  {
    if |ls| == 0 then []
    else (if ls[0].tid == i && s.threads[i].pc == Draw then [ls[0].x] else [])
         + Drawn(Step(s, ls[0]), ls[1..], i)
  }

  /** The items thread i puts into the ring during a run. */
  ghost function PutBy(s: State, ls: seq<Label>, i: nat): seq<int>
    requires IsRun(s, ls)
    decreases |ls|
  {
    if |ls| == 0 then []
    else (if ls[0].tid == i && OpOf(s, ls[0]).Put? then [OpOf(s, ls[0]).x] else [])
         + PutBy(Step(s, ls[0]), ls[1..], i)
  }

  lemma StepKeepsHand(s: State, l: Label, i: nat)
    requires CanTake(s, l) && i < |s.threads| && s.threads[i].role == Producer
    ensures Step(s, l).threads[i].role == Producer
    ensures InHand(s.threads[i]) + (if l.tid == i && s.threads[i].pc == Draw then [l.x] else [])
      == (if l.tid == i && OpOf(s, l).Put? then [OpOf(s, l).x] else []) + InHand(Step(s, l).threads[i])
  {
  }

  /** Whatever the other threads do, a producer puts exactly what it has drawn, in order. */
  lemma {:induction false} PutsWhatItDraws(s: State, ls: seq<Label>, i: nat)
    requires IsRun(s, ls) && i < |s.threads| && s.threads[i].role == Producer
    ensures |Exec(s, ls).threads| == |s.threads|
    ensures InHand(s.threads[i]) + Drawn(s, ls, i) == PutBy(s, ls, i) + InHand(Exec(s, ls).threads[i])
    decreases |ls|
  {
    if |ls| != 0 {
      var s', l, rest := Step(s, ls[0]), ls[0], ls[1..];
      PutsWhatItDraws(s', rest, i);
      var drawn := if l.tid == i && s.threads[i].pc == Draw then [l.x] else [];
      var put := if l.tid == i && OpOf(s, l).Put? then [OpOf(s, l).x] else [];
      StepKeepsHand(s, l, i);
      Glue(InHand(s.threads[i]), drawn, put, InHand(s'.threads[i]),
           Drawn(s', rest, i), PutBy(s', rest, i), InHand(Exec(s', rest).threads[i]));
    }
  }

  /** Every semaphore token is in a semaphore or with a thread in flight. */
  lemma TokenConservation(s: State)
    requires Tokens(s)
    ensures s.empty + s.full + Sum(s.threads, InFlight) == |s.buffer|
  {
    Add(s.threads, HoldsSlot, HoldsItem, InFlight);
  }

  /** When a thread has to wait: a producer exactly while every slot is filled or reserved, a
      consumer exactly while every stored item is claimed or not yet announced, and at the
      mutex exactly while another thread is in its critical section. */
  lemma BlockedIff(s: State, i: nat)
    requires Inv(s) && i < |s.threads| && !Finished(s.threads[i])
    ensures var t := s.threads[i];
      !Enabled(s, i) <==>
        || (t.pc == Wait && t.role == Producer && |Contents(s)| + Sum(s.threads, HoldsSlot) == |s.buffer|)
        || (t.pc == Wait && t.role == Consumer && |Contents(s)| == Sum(s.threads, HoldsItem))
        || (t.pc == Lock && Sum(s.threads, InCritical) == 1)
  {
    assert ThreadOk(s.threads[i]);
    Nonnegative(s.threads, InCritical);
  }

  /** When no thread can move, every thread that is not finished waits at its first
      semaphore, and no token is in flight. */
  lemma StuckShape(s: State)
    requires Inv(s) && Stuck(s)
    ensures forall i | 0 <= i < |s.threads| :: Finished(s.threads[i]) || s.threads[i].pc == Wait
    ensures s.mutex == 1
    ensures s.full == |s.produced| - |s.consumed| && s.empty == |s.buffer| - s.full
  {
    forall i | 0 <= i < |s.threads| ensures InCritical(s.threads[i]) == 0 {
      assert !Enabled(s, i);
    }
    AllZero(s.threads, InCritical);
    forall i | 0 <= i < |s.threads|
      ensures Finished(s.threads[i]) || s.threads[i].pc == Wait
    {
      assert !Enabled(s, i) && ThreadOk(s.threads[i]);
    }
    AllZero(s.threads, HoldsSlot);
    AllZero(s.threads, HoldsItem);
  }

  /** The exact condition for the joins in `main` to return: a state without a next step
      has all threads finished if and only if the totals fit. */
  lemma StuckIsFinishedIff(s: State)
    requires Inv(s) && Stuck(s)
    ensures AllFinished(s) <==>
              TotalToConsume(s) <= TotalToProduce(s) <= TotalToConsume(s) + |s.buffer|
    ensures AllFinished(s) ==>
              && s.full == TotalToProduce(s) - TotalToConsume(s)
              && s.empty == |s.buffer| - s.full && s.mutex == 1
              && (s.full == 0 ==> s.inn == s.out)
  {
    StuckShape(s);
    assert forall i | 0 <= i < |s.threads| :: ThreadOk(s.threads[i]);
    if AllFinished(s) {
      AllZero(s.threads, ToProduce);
      AllZero(s.threads, ToConsume);
    } else {
      var i :| 0 <= i < |s.threads| && !Finished(s.threads[i]);
      assert !Enabled(s, i);
      if s.threads[i].role == Producer {
        NoneLeft(s, Consumer, ToConsume);
        AtLeast(s.threads, ToProduce, i);
      } else {
        NoneLeft(s, Producer, ToProduce);
        AtLeast(s.threads, ToConsume, i);
      }
    }
  }

  /** With the semaphore of the other role available, that role has nothing left to do. */
  lemma NoneLeft(s: State, role: Role, w: Thread -> int)
    requires Inv(s) && Stuck(s)
    requires if role == Producer then s.empty > 0 else s.full > 0
    requires w == if role == Producer then ToProduce else ToConsume
    ensures Sum(s.threads, w) == 0
  {
    StuckShape(s);
    forall i | 0 <= i < |s.threads| ensures w(s.threads[i]) == 0 {
      assert !Enabled(s, i) && ThreadOk(s.threads[i]);
    }
    AllZero(s.threads, w);
  }

  /** Any number of threads, any capacity, any item counts, any interleaving from `main`:
      what was consumed is a prefix of what was produced, the rest is in the ring, and if
      no thread can move any more the joins return exactly when the totals fit. */
  lemma EveryRun(s: State, ls: seq<Label>)
    requires Initial(s) && IsRun(s, ls)
    ensures var e := Exec(s, ls);
      && |ls| <= Sum(s.threads, Work)
      && Inv(e) && e.produced == e.consumed + Contents(e)
      && (var p, c := Sum(s.threads, ToProduce), Sum(s.threads, ToConsume);
          && (Stuck(e) ==> (AllFinished(e) <==> c <= p <= c + |s.buffer|))
          && (AllFinished(e) ==>
                && |e.produced| == p && |e.consumed| == c
                && e.full == p - c && e.empty == |s.buffer| - e.full && e.mutex == 1)
          && (AllFinished(e) && p == c ==> e.inn == e.out && e.consumed == e.produced))
  {
    var e := Exec(s, ls);
    InitialKeepsInv(s);
    RunsKeep(s, ls);
    Nonnegative(e.threads, Work);
    if Stuck(e) {
      StuckIsFinishedIff(e);
    }
    if AllFinished(e) {
      WhenFinished(e);
    }
  }

  lemma WhenFinished(s: State)
    requires Inv(s) && AllFinished(s)
    ensures |s.produced| == TotalToProduce(s) && |s.consumed| == TotalToConsume(s)
    ensures s.full == TotalToProduce(s) - TotalToConsume(s)
    ensures s.empty == |s.buffer| - s.full && s.mutex == 1
    ensures s.full == 0 ==> s.inn == s.out && s.consumed == s.produced
  {
    forall i | 0 <= i < |s.threads| ensures !Enabled(s, i) {
      assert Finished(s.threads[i]);
    }
    StuckIsFinishedIff(s);
    assert forall i | 0 <= i < |s.threads| :: ThreadOk(s.threads[i]);
    AllZero(s.threads, ToProduce);
    AllZero(s.threads, ToConsume);
  }

  /** No deadlock on the way: with fitting totals every reachable state that is not the
      end has a thread that can move. */
  lemma NoDeadlock(s: State, ls: seq<Label>) returns (tid: nat)
    requires Initial(s) && IsRun(s, ls) && !AllFinished(Exec(s, ls))
    requires Sum(s.threads, ToConsume) <= Sum(s.threads, ToProduce)
                                       <= Sum(s.threads, ToConsume) + |s.buffer|
    ensures tid < |Exec(s, ls).threads| && CanTake(Exec(s, ls), Label(tid, 0))
  {
    EveryRun(s, ls);
    tid :| 0 <= tid < |Exec(s, ls).threads| && Enabled(Exec(s, ls), tid);
  }

  // ----- The program -----

  function Fresh(role: Role, items: nat): Thread {
    Thread(role, Top(role), items, 0)
  }

  /** The threads `main` creates: p producers, then c consumers, with `items` rounds each. */
  function Pool(p: nat, c: nat, items: nat): seq<Thread> {
    if c > 0 then Pool(p, c - 1, items) + [Fresh(Consumer, items)]
    else if p > 0 then Pool(p - 1, 0, items) + [Fresh(Producer, items)]
    else []
  }

  lemma {:induction false} PoolTotals(p: nat, c: nat, items: nat)
    ensures Sum(Pool(p, c, items), ToProduce) == p * items
    ensures Sum(Pool(p, c, items), ToConsume) == c * items
    ensures forall i | 0 <= i < |Pool(p, c, items)| ::
              Pool(p, c, items)[i].pc == Top(Pool(p, c, items)[i].role)
  {
    if c > 0 {
      PoolTotals(p, c - 1, items);
      assert Pool(p, c, items)[..|Pool(p, c, items)| - 1] == Pool(p, c - 1, items);
      assert c * items == (c - 1) * items + items;
    } else if p > 0 {
      PoolTotals(p - 1, 0, items);
      assert Pool(p, 0, items)[..|Pool(p, 0, items)| - 1] == Pool(p - 1, 0, items);
      assert p * items == (p - 1) * items + items;
    }
  }

  /** The globals of the program, updated in place. */
  class Program {
    const buffer: array<int>
    var inn: nat
    var out: nat
    var empty: nat
    var full: nat
    var mutex: nat
    const threads: array<Thread>
    ghost var produced: seq<int>
    ghost var consumed: seq<int>

    ghost function Abs(): State
      reads this, buffer, threads
    {
      State(buffer[..], inn, out, empty, full, mutex, threads[..], produced, consumed)
    }

    constructor (capacity: nat, producers: nat, consumers: nat, items: nat)
      requires 0 < capacity
      ensures Initial(Abs()) && fresh(buffer) && fresh(threads)
      ensures buffer.Length == capacity && Abs().threads == Pool(producers, consumers, items)
    {
      var pool := Pool(producers, consumers, items);
      buffer := new int[capacity](_ => 0);
      threads := new Thread[|pool|](i requires 0 <= i < |pool| => pool[i]);
      inn, out := 0, 0;
      empty, full, mutex := capacity, 0, 1;
      produced, consumed := [], [];
      new;
      assert threads[..] == pool;
      PoolTotals(producers, consumers, items);
    }

    /** One atomic statement of one thread. */
    method Move(tid: nat, x: int)
      requires CanTake(Abs(), Label(tid, x))
      modifies this, buffer, threads
      ensures Abs() == Step(old(Abs()), Label(tid, x))
    {
      var t := threads[tid];
      threads[tid] := Moved(t, x, buffer[out]);
      match (t.pc, t.role) {
        case (Draw, _) =>
        case (Wait, Producer) => empty := empty - 1;
        case (Wait, Consumer) => full := full - 1;
        case (Lock, _) => mutex := mutex - 1;
        case (Access, Producer) => buffer[inn] := t.item;
        case (Access, Consumer) =>
        case (Advance, Producer) =>
          produced := produced + [t.item];
          inn := (inn + 1) % buffer.Length;
        case (Advance, Consumer) =>
          consumed := consumed + [t.item];
          out := (out + 1) % buffer.Length;
        case (Unlock, _) => mutex := mutex + 1;
        case (Post, Producer) => full := full + 1;
        case (Post, Consumer) => empty := empty + 1;
      }
    }

    /** Some thread that can move does; the scheduler and `rand` choose freely. */
    method MoveAny()
      requires Inv(Abs()) && exists i :: 0 <= i < threads.Length && CanMove(threads[i], empty, full, mutex)
      modifies this, buffer, threads
      ensures Inv(Abs())
      ensures TotalToProduce(Abs()) == old(TotalToProduce(Abs()))
      ensures TotalToConsume(Abs()) == old(TotalToConsume(Abs()))
      ensures 0 <= Sum(Abs().threads, Work) < old(Sum(Abs().threads, Work))
    {
      var tid :| 0 <= tid < threads.Length && CanMove(threads[tid], empty, full, mutex);
      var x: int := *;
      assert Enabled(Abs(), tid);
      StepRefinesQueue(Abs(), Label(tid, x));
      StepConserves(Abs(), Label(tid, x));
      Move(tid, x);
      WorkNonnegative(Abs());
    }

    /** Lets threads move in an arbitrary order until none can: this always ends, and it
        ends with all threads joined exactly when producers and consumers fit. */
    method RunThreads(producers: nat, consumers: nat, items: nat)
      requires Initial(Abs()) && Abs().threads == Pool(producers, consumers, items)
      modifies this, buffer, threads
      ensures Inv(Abs()) && Stuck(Abs())
      ensures AllFinished(Abs()) <==>
                consumers * items <= producers * items <= consumers * items + buffer.Length
      ensures producers == consumers ==>
                && AllFinished(Abs()) && consumed == produced && |produced| == producers * items
                && empty == buffer.Length && full == 0 && mutex == 1 && inn == out
    {
      PoolTotals(producers, consumers, items);
      InitialKeepsInv(Abs());
      while exists i :: 0 <= i < threads.Length && CanMove(threads[i], empty, full, mutex)
        invariant Inv(Abs())
        invariant TotalToProduce(Abs()) == producers * items
        invariant TotalToConsume(Abs()) == consumers * items
        decreases Sum(Abs().threads, Work)
      {
        MoveAny();
      }
      assert Stuck(Abs()) by {
        assert forall i | 0 <= i < |Abs().threads| :: Abs().threads[i] == threads[i];
      }
      AtTheEnd(Abs());
    }
  }

  /** What the final state of a run looks like. */
  lemma AtTheEnd(s: State)
    requires Inv(s) && Stuck(s)
    ensures AllFinished(s) <==>
              TotalToConsume(s) <= TotalToProduce(s) <= TotalToConsume(s) + |s.buffer|
    ensures AllFinished(s) && TotalToProduce(s) == TotalToConsume(s) ==>
              && s.consumed == s.produced && |s.produced| == TotalToProduce(s)
              && s.empty == |s.buffer| && s.full == 0 && s.mutex == 1 && s.inn == s.out
  {
    StuckIsFinishedIff(s);
    if AllFinished(s) {
      AllZero(s.threads, ToProduce);
      AllZero(s.threads, ToConsume);
    }
  }

  lemma WorkNonnegative(s: State)
    requires Inv(s)
    ensures Sum(s.threads, Work) >= 0
  {
    assert forall i | 0 <= i < |s.threads| :: ThreadOk(s.threads[i]);
    Nonnegative(s.threads, Work);
  }
}
