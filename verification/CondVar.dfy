/** The condition-variable hand-off of advUNIX/pthread-basic: one producer counts `data` up
    and signals, one consumer waits in a loop while it is 0 and counts it down. Waiting
    threads may wake up without a signal. */
module CondVar {

  datatype PPc = PLock | PIncrement | PSignal | PUnlock

  /** `Waiting` is inside `pthread_cond_wait` with the mutex released, `Woken` before it
      has the mutex again. */
  datatype CPc = CLock | CTest | CWaiting | CWoken | CConsume | CUnlock

  datatype Mutex = Free | ByProducer | ByConsumer

  /** `pLeft` and `cLeft` count loop iterations not completed yet. */
  datatype Sys = Sys(ppc: PPc, pLeft: nat, cpc: CPc, cLeft: nat,
                     mutex: Mutex, data: int, produced: nat, consumed: nat)

  datatype Move = Producer | Consumer | Spurious

  function Start(p: nat, c: nat): Sys {
    Sys(PLock, p, CLock, c, Free, 0, 0, 0)
  }

  predicate ProducerCanMove(ppc: PPc, pLeft: nat, mutex: Mutex) {
    ppc == PLock ==> pLeft > 0 && mutex == Free
  }

  predicate ConsumerCanMove(cpc: CPc, cLeft: nat, mutex: Mutex) {
    match cpc
    case CLock => cLeft > 0 && mutex == Free
    case CWaiting => false
    case CWoken => mutex == Free
    case _ => true
  }

  predicate Enabled(s: Sys, m: Move) {
    match m
    case Producer => ProducerCanMove(s.ppc, s.pLeft, s.mutex)
    case Consumer => ConsumerCanMove(s.cpc, s.cLeft, s.mutex)
    case Spurious => s.cpc == CWaiting
  }

  function Less(n: nat): nat {
    if n == 0 then 0 else n - 1
  }

  function Step(s: Sys, m: Move): Sys
    requires Enabled(s, m)
  {
    match m
    case Producer =>
      (match s.ppc
       case PLock => s.(ppc := PIncrement, mutex := ByProducer)
       case PIncrement => s.(ppc := PSignal, data := s.data + 1, produced := s.produced + 1)
       case PSignal => s.(ppc := PUnlock, cpc := if s.cpc == CWaiting then CWoken else s.cpc)
       case PUnlock => s.(ppc := PLock, mutex := Free, pLeft := Less(s.pLeft)))
    case Consumer =>
      (match s.cpc
       case CLock => s.(cpc := CTest, mutex := ByConsumer)
       case CTest => if s.data == 0 then s.(cpc := CWaiting, mutex := Free) else s.(cpc := CConsume)
       case CWaiting => s
       case CWoken => s.(cpc := CTest, mutex := ByConsumer)
       case CConsume => s.(cpc := CUnlock, data := s.data - 1, consumed := s.consumed + 1)
       case CUnlock => s.(cpc := CLock, mutex := Free, cLeft := Less(s.cLeft)))
    case Spurious => s.(cpc := CWoken)
  }

  ghost predicate Finished(s: Sys) {
    s.ppc == PLock && s.pLeft == 0 && s.cpc == CLock && s.cLeft == 0
  }

  /** `p` and `c` are the iterations the two loops started with. */
  ghost predicate Inv(p: nat, c: nat, s: Sys) {
    && (s.mutex == ByProducer <==> s.ppc != PLock)
    && (s.mutex == ByConsumer <==> s.cpc in {CTest, CConsume, CUnlock})
    && (s.ppc != PLock ==> s.pLeft > 0) && (s.cpc != CLock ==> s.cLeft > 0)
    && s.data == s.produced - s.consumed >= (if s.cpc == CConsume then 1 else 0)
    && (s.cpc == CWaiting ==> s.data == 0 || s.ppc == PSignal)
    && s.produced + s.pLeft - (if s.ppc in {PSignal, PUnlock} then 1 else 0) == p
    && s.consumed + s.cLeft - (if s.cpc == CUnlock then 1 else 0) == c
  }

  lemma StepKeepsInv(p: nat, c: nat, s: Sys, m: Move)
    requires Inv(p, c, s) && Enabled(s, m)
    ensures Inv(p, c, Step(s, m))
  {
  }

  /** No wakeup is lost: a consumer left waiting has nothing to take, or the producer that
      made it something still has the mutex and is about to signal. */
  lemma NoLostWakeup(p: nat, c: nat, s: Sys)
    requires Inv(p, c, s) && s.cpc == CWaiting && s.data > 0
    ensures s.ppc == PSignal && s.mutex == ByProducer
    ensures Enabled(s, Producer) && Step(s, Producer).cpc == CWoken
  {
  }

  /** When a thread has to wait: for the mutex exactly while the other is in its critical
      section, and in `pthread_cond_wait`; a waiting thread can always wake up spuriously. */
  lemma BlockedIff(p: nat, c: nat, s: Sys)
    requires Inv(p, c, s)
    ensures !Enabled(s, Producer) <==>
      s.ppc == PLock && (s.pLeft == 0 || s.cpc in {CTest, CConsume, CUnlock})
    ensures !Enabled(s, Consumer) <==>
      || s.cpc == CWaiting
      || (s.cpc == CLock && s.cLeft == 0)
      || (s.cpc in {CLock, CWoken} && s.ppc != PLock)
    ensures Enabled(s, Spurious) <==> s.cpc == CWaiting
  {
  }

  /** Without help from spurious wakeups the threads stop only at the end or, exactly when
      the consumer asks for more than is ever produced, with the consumer waiting. */
  lemma StopsIff(p: nat, c: nat, s: Sys)
    requires Inv(p, c, s) && !Enabled(s, Producer) && !Enabled(s, Consumer)
    ensures s.ppc == PLock && s.pLeft == 0 && s.mutex == Free
    ensures Finished(s) <==> c <= p
    ensures if c <= p then s.data == p - c else s.data == 0 && s.cpc == CWaiting && s.consumed == p
  {
  }

  // ----- Termination -----

  function Rank(cpc: CPc): int {
    match cpc
    case CLock => 0 case CWoken => 1 case CTest => 2
    case CWaiting => 3 case CConsume => 3 case CUnlock => 4
  }

  function ProducerRank(ppc: PPc): int {
    match ppc case PLock => 0 case PIncrement => 1 case PSignal => 2 case PUnlock => 3
  }

  /** A signal can send the consumer around its loop once more, so a producer step weighs
      more than that detour. */
  function Work(s: Sys): int {
    4 * (4 * s.pLeft - ProducerRank(s.ppc)) + 6 * s.cLeft - Rank(s.cpc)
  }

  lemma StepLowersWork(p: nat, c: nat, s: Sys, m: Move)
    requires Inv(p, c, s) && Enabled(s, m)
    ensures 0 <= Work(Step(s, m)) && Work(Step(s, m)) < Work(s) + if m == Spurious then 3 else 0
  {
  }

  // ----- Runs -----

  ghost predicate IsRun(s: Sys, ms: seq<Move>)
    decreases |ms|
  {
    |ms| == 0 || (Enabled(s, ms[0]) && IsRun(Step(s, ms[0]), ms[1..]))
  }

  ghost function Exec(s: Sys, ms: seq<Move>): Sys
    requires IsRun(s, ms)
    decreases |ms|
  {
    if |ms| == 0 then s else Exec(Step(s, ms[0]), ms[1..])
  }

  function SpuriousIn(ms: seq<Move>): nat {
    if |ms| == 0 then 0 else (if ms[0] == Spurious then 1 else 0) + SpuriousIn(ms[1..])
  }

  lemma {:induction false} RunsKeep(p: nat, c: nat, s: Sys, ms: seq<Move>)
    requires Inv(p, c, s) && IsRun(s, ms)
    ensures Inv(p, c, Exec(s, ms))
    ensures |ms| + Work(Exec(s, ms)) <= Work(s) + 3 * SpuriousIn(ms)
    decreases |ms|
  {
    if |ms| != 0 {
      StepKeepsInv(p, c, s, ms[0]);
      StepLowersWork(p, c, s, ms[0]);
      RunsKeep(p, c, Step(s, ms[0]), ms[1..]);
    }
  }

  lemma StartIsGood(p: nat, c: nat)
    ensures Inv(p, c, Start(p, c)) && Work(Start(p, c)) == 16 * p + 6 * c
  {
  }

  lemma Consequences(p: nat, c: nat, s: Sys)
    requires Inv(p, c, s)
    ensures 0 <= Work(s)
    ensures Finished(s) ==> s.data == p - c
    ensures !Enabled(s, Producer) && !Enabled(s, Consumer) ==> (Finished(s) <==> c <= p)
  {
    if !Enabled(s, Producer) && !Enabled(s, Consumer) {
      StopsIff(p, c, s);
    }
  }

  /** Any scheduling with any spurious wakeups: `data` is always produced minus consumed and
      never negative, the length of a run is bounded by its spurious wakeups, and when the
      threads stop they have both finished if and only if enough was produced. */
  lemma EveryRun(p: nat, c: nat, ms: seq<Move>)
    requires IsRun(Start(p, c), ms)
    ensures var e := Exec(Start(p, c), ms);
      && e.data == e.produced - e.consumed >= 0
      && |ms| <= 16 * p + 6 * c + 3 * SpuriousIn(ms)
      && (!Enabled(e, Producer) && !Enabled(e, Consumer) ==> (Finished(e) <==> c <= p))
      && (Finished(e) ==> e.data == p - c)
  {
    var e := Exec(Start(p, c), ms);
    StartIsGood(p, c);
    RunsKeep(p, c, Start(p, c), ms);
    Consequences(p, c, e);
  }

  // ----- The program -----

  class HandOff {
    var ppc: PPc
    var pLeft: nat
    var cpc: CPc
    var cLeft: nat
    var mutex: Mutex
    var data: int
    ghost var produced: nat
    ghost var consumed: nat

    ghost function Abs(): Sys
      reads this
    {
      Sys(ppc, pLeft, cpc, cLeft, mutex, data, produced, consumed)
    }

    constructor (p: nat, c: nat)
      ensures Abs() == Start(p, c)
    {
      ppc, pLeft, cpc, cLeft := PLock, p, CLock, c;
      mutex, data, produced, consumed := Free, 0, 0, 0;
    }

    method ProducerStep()
      requires Enabled(Abs(), Producer)
      modifies this
      ensures Abs() == Step(old(Abs()), Producer)
    {
      match ppc {
        case PLock => ppc, mutex := PIncrement, ByProducer;
        case PIncrement => ppc, data, produced := PSignal, data + 1, produced + 1;
        case PSignal =>
          if cpc == CWaiting {
            cpc := CWoken;
          }
          ppc := PUnlock;
        case PUnlock => ppc, mutex, pLeft := PLock, Free, Less(pLeft);
      }
    }

    method ConsumerStep()
      requires Enabled(Abs(), Consumer)
      modifies this
      ensures Abs() == Step(old(Abs()), Consumer)
    {
      if cpc == CLock || cpc == CWoken {
        cpc, mutex := CTest, ByConsumer;
      } else if cpc == CTest && data == 0 {
        cpc, mutex := CWaiting, Free;
      } else if cpc == CTest {
        cpc := CConsume;
      } else if cpc == CConsume {
        cpc, data, consumed := CUnlock, data - 1, consumed + 1;
      } else {
        cpc, mutex, cLeft := CLock, Free, Less(cLeft);
      }
    }

    /** One of the threads that can move does. */
    method MoveAny(ghost p: nat, ghost c: nat)
      requires Inv(p, c, Abs())
      requires ProducerCanMove(ppc, pLeft, mutex) || ConsumerCanMove(cpc, cLeft, mutex)
      modifies this
      ensures Inv(p, c, Abs()) && 0 <= Work(Abs()) < old(Work(Abs()))
    {
      var first: bool := *;
      if ProducerCanMove(ppc, pLeft, mutex) && (first || !ConsumerCanMove(cpc, cLeft, mutex)) {
        StepKeepsInv(p, c, Abs(), Producer);
        StepLowersWork(p, c, Abs(), Producer);
        ProducerStep();
      } else {
        StepKeepsInv(p, c, Abs(), Consumer);
        StepLowersWork(p, c, Abs(), Consumer);
        ConsumerStep();
      }
    }

    /** Arbitrary scheduling with at most `spurious` unsignalled wakeups: the joins return
        exactly when c <= p, and after equal loops nothing is left over. */
    method Run(p: nat, c: nat, spurious: nat)
      requires Abs() == Start(p, c)
      modifies this
      ensures Finished(Abs()) <==> c <= p
      ensures c <= p ==> data == p - c && produced == p && consumed == c
    {
      var budget := spurious;
      StartIsGood(p, c);
      while ProducerCanMove(ppc, pLeft, mutex) || ConsumerCanMove(cpc, cLeft, mutex)
        invariant Inv(p, c, Abs())
        decreases Work(Abs()) + 3 * budget
      {
        var wake: bool := *;
        if wake && budget > 0 && cpc == CWaiting {
          StepKeepsInv(p, c, Abs(), Spurious);
          StepLowersWork(p, c, Abs(), Spurious);
          budget := budget - 1;
          cpc := CWoken;
        } else {
          MoveAny(p, c);
        }
      }
      StopsIff(p, c, Abs());
    }
  }
}
