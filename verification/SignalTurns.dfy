/** The turn taking of advUNIX/signalSynchronization: parent and child print one line each
    in turn and pass the turn with SIGUSR1 and SIGUSR2. A pending signal is a single bit,
    and `sigsuspend` unblocks, waits, runs the handler and blocks again in one step
    (section 2.4 of the System Interfaces volume of POSIX.1-2017). */
module SignalTurns {

  /** The statement a process executes next. `Test` is the loop test of WAIT_PARENT and
      WAIT_CHILD, `Suspend` the call of `sigsuspend`, `Clear` the reset of `sigflag`;
      `Finish` is `waitpid` in the parent and `exit` in the child. */
  datatype Pc = Print | Tell | Test | Suspend | Clear | Restore | Finish | Exited

  /** `col` characters of the current line are out; `flag` is `sigflag`; `pending` and
      `masked` belong to the one signal this process gets from its peer. */
  datatype Proc = Proc(pc: Pc, round: nat, col: nat, flag: bool, pending: bool, masked: bool)

  datatype Script = Script(rounds: nat, parentLine: string, childLine: string)

  datatype Sys = Sys(parent: Proc, child: Proc, out: string)

  /** A process moves, or an unblocked pending signal runs its handler. */
  datatype Move = ParentMoves | ChildMoves | ParentHandler | ChildHandler

  /** The head of each loop in `main`. */
  function ParentHead(sc: Script, p: Proc): Proc {
    p.(pc := if p.round < sc.rounds then Print else Restore)
  }

  function ChildHead(sc: Script, c: Proc): Proc {
    c.(pc := if c.round < sc.rounds then Test else Restore)
  }

  /** After TELL_WAIT and `fork`: both signals blocked, nothing pending, flags 0. */
  function Start(sc: Script): Sys {
    var p := Proc(Print, 0, 0, false, false, true);
    Sys(ParentHead(sc, p), ChildHead(sc, p), "")
  }

  predicate Enabled(s: Sys, m: Move) {
    match m
    case ParentMoves =>
      (match s.parent.pc
       case Suspend => s.parent.pending
       case Finish => s.child.pc == Exited
       case Exited => false
       case _ => true)
    case ChildMoves =>
      (match s.child.pc
       case Suspend => s.child.pending
       case Exited => false
       case _ => true)
    case ParentHandler => s.parent.pending && !s.parent.masked && s.parent.pc != Exited
    case ChildHandler => s.child.pending && !s.child.masked && s.child.pc != Exited
  }

  /** What both processes do alike: print a character, test, suspend, restore, exit. */
  function Common(p: Proc, line: string): Proc {
    match p.pc
    case Print => if p.col < |line| then p.(col := p.col + 1) else p.(pc := Tell, col := 0)
    case Test => p.(pc := if p.flag then Clear else Suspend)
    case Suspend => p.(pc := Test, flag := true, pending := false)
    case Restore => p.(pc := Finish, masked := false)
    case Finish => p.(pc := Exited)
    case _ => p
  }

  function Put(p: Proc, line: string): string {
    if p.pc == Print && p.col < |line| then [line[p.col]] else []
  }

  function Step(sc: Script, s: Sys, m: Move): Sys
    requires Enabled(s, m)
  {
    match m
    case ParentMoves =>
      (match s.parent.pc
       case Tell => s.(parent := s.parent.(pc := Test), child := s.child.(pending := true))
       case Clear => s.(parent := ParentHead(sc, s.parent.(flag := false, round := s.parent.round + 1)))
       case _ => s.(parent := Common(s.parent, sc.parentLine), out := s.out + Put(s.parent, sc.parentLine)))
    case ChildMoves =>
      (match s.child.pc
       case Tell =>
         s.(child := ChildHead(sc, s.child.(round := s.child.round + 1)),
            parent := s.parent.(pending := true))
       case Clear => s.(child := s.child.(flag := false, pc := Print))
       case _ => s.(child := Common(s.child, sc.childLine), out := s.out + Put(s.child, sc.childLine)))
    case ParentHandler => s.(parent := s.parent.(pending := false, flag := true))
    case ChildHandler => s.(child := s.child.(pending := false, flag := true))
  }

  ghost predicate Done(s: Sys) {
    s.parent.pc == Exited && s.child.pc == Exited
  }

  // ----- The turn token -----

  function Bit(b: bool): nat {
    if b then 1 else 0
  }

  predicate ParentHolds(s: Sys) {
    s.parent.pc in {Print, Tell, Restore, Finish, Exited}
  }

  predicate ChildHolds(s: Sys) {
    s.child.pc in {Print, Tell}
  }

  /** Where the turn can be: at a statement, in a flag, or in a pending bit. */
  function Tokens(s: Sys): nat {
    Bit(ParentHolds(s)) + Bit(s.parent.flag) + Bit(s.parent.pending)
    + Bit(ChildHolds(s)) + Bit(s.child.flag) + Bit(s.child.pending)
  }

  /** The local consistency of a process. */
  ghost predicate Local(p: Proc) {
    && (p.flag ==> p.pc in {Test, Clear})
    && (p.pending ==> p.pc in {Test, Suspend})
    && (p.pc == Clear ==> p.flag)
    && (p.pc != Print ==> p.col == 0)
    && (p.masked <==> p.pc !in {Finish, Exited})
  }

  /** The full dialogue of n rounds. */
  function Dialogue(sc: Script, n: nat): string {
    if n == 0 then "" else Dialogue(sc, n - 1) + sc.parentLine + sc.childLine
  }

  /** The output that belongs to a position of the turn. */
  function Expected(sc: Script, s: Sys): string {
    if s.parent.pc == Print && s.parent.col <= |sc.parentLine| then
      Dialogue(sc, s.parent.round) + sc.parentLine[..s.parent.col]
    else if s.parent.pc == Tell || s.child.flag || s.child.pending then
      Dialogue(sc, s.parent.round) + sc.parentLine
    else if s.child.pc == Print && s.child.col <= |sc.childLine| then
      Dialogue(sc, s.child.round) + sc.parentLine + sc.childLine[..s.child.col]
    else if s.child.pc == Tell then
      Dialogue(sc, s.child.round + 1)
    else
      Dialogue(sc, s.child.round)
  }

  ghost predicate Inv(sc: Script, s: Sys) {
    var p, c := s.parent, s.child;
    && Tokens(s) == 1 && Local(p) && Local(c)
    && p.col <= |sc.parentLine| && c.col <= |sc.childLine|
    && p.round <= sc.rounds && c.round <= sc.rounds
    && (p.round < sc.rounds <==> p.pc in {Print, Tell, Test, Suspend, Clear})
    && (c.round < sc.rounds <==> c.pc in {Print, Tell, Test, Suspend, Clear})
    && c.round == p.round + (if p.flag || p.pending then 1 else 0)
    && (p.pc == Exited ==> c.pc == Exited)
    && s.out == Expected(sc, s)
  }

  lemma StartKeepsInv(sc: Script)
    ensures Inv(sc, Start(sc))
  {
  }

  lemma ParentKeepsInv(sc: Script, s: Sys)
    requires Inv(sc, s) && Enabled(s, ParentMoves)
    ensures Inv(sc, Step(sc, s, ParentMoves))
  {
    var p := s.parent;
    if p.pc == Print && p.col < |sc.parentLine| {
      assert sc.parentLine[..p.col + 1] == sc.parentLine[..p.col] + [sc.parentLine[p.col]];
    }
  }

  lemma ChildKeepsInv(sc: Script, s: Sys)
    requires Inv(sc, s) && Enabled(s, ChildMoves)
    ensures Inv(sc, Step(sc, s, ChildMoves))
  {
    var c := s.child;
    if c.pc == Print && c.col < |sc.childLine| {
      assert sc.childLine[..c.col + 1] == sc.childLine[..c.col] + [sc.childLine[c.col]];
    }
  }

  lemma StepKeepsInv(sc: Script, s: Sys, m: Move)
    requires Inv(sc, s) && Enabled(s, m)
    ensures Inv(sc, Step(sc, s, m))
  {
    if m == ParentMoves {
      ParentKeepsInv(sc, s);
    } else if m == ChildMoves {
      ChildKeepsInv(sc, s);
    }
  }

  /** Signals are never merged, and nobody sleeps on a delivered one: when a process sends
      the turn, its peer has nothing pending; a process in `sigsuspend` has a clear flag;
      no handler ever runs outside `sigsuspend`; both lines' characters come in turn. */
  lemma NoSignalIsLost(sc: Script, s: Sys)
    requires Inv(sc, s)
    ensures s.parent.pc == Tell ==> !s.child.pending && !s.child.flag
    ensures s.child.pc == Tell ==> !s.parent.pending && !s.parent.flag
    ensures s.parent.pc == Suspend ==> !s.parent.flag
    ensures s.child.pc == Suspend ==> !s.child.flag
    ensures !Enabled(s, ParentHandler) && !Enabled(s, ChildHandler)
    ensures !(s.parent.pc == Print && s.child.pc == Print)
  {
  }

  /** When a process has to wait: in `sigsuspend` exactly while the turn is with its peer, and
      in `waitpid` exactly until the child has exited; nowhere else. */
  lemma BlockedIff(sc: Script, s: Sys)
    requires Inv(sc, s)
    ensures !Enabled(s, ParentMoves) <==>
      || s.parent.pc == Exited
      || (s.parent.pc == Suspend && (ChildHolds(s) || s.child.flag || s.child.pending))
      || (s.parent.pc == Finish && s.child.pc != Exited)
    ensures !Enabled(s, ChildMoves) <==>
      || s.child.pc == Exited
      || (s.child.pc == Suspend && (ParentHolds(s) || s.parent.flag || s.parent.pending))
  {
  }

  /** A state in which nobody can move is the end. */
  lemma NoDeadlock(sc: Script, s: Sys)
    requires Inv(sc, s) && !Enabled(s, ParentMoves) && !Enabled(s, ChildMoves)
    ensures Done(s) && s.out == Dialogue(sc, sc.rounds)
    ensures s.parent.round == sc.rounds && s.child.round == sc.rounds
    ensures !s.parent.pending && !s.child.pending && !s.parent.masked && !s.child.masked
  {
  }

  // ----- Termination -----

  /** Steps into the round of a process that prints `len` characters, starting at its
      loop head; the parent prints first, the child waits first. */
  function ParentProgress(p: Proc, len: nat): nat {
    match p.pc
    case Print => p.col
    case Tell => len + 1
    case Test => if p.flag then len + 4 else len + 2
    case Suspend => len + 3
    case _ => len + 5
  }

  function ChildProgress(c: Proc, len: nat): nat {
    match c.pc
    case Test => if c.flag then 2 else 0
    case Suspend => 1
    case Clear => 3
    case Print => 4 + c.col
    case _ => len + 5
  }

  function Tail(p: Proc): nat {
    match p.pc
    case Restore => 2
    case Finish => 1
    case _ => 0
  }

  function Rounds(n: nat, len: nat): nat {
    if n == 0 then 0 else Rounds(n - 1, len) + len + 6
  }

  function ParentWork(sc: Script, p: Proc): int {
    if p.round < sc.rounds
    then 2 + Rounds(sc.rounds - p.round, |sc.parentLine|) - ParentProgress(p, |sc.parentLine|)
    else Tail(p)
  }

  function ChildWork(sc: Script, c: Proc): int {
    if c.round < sc.rounds
    then 2 + Rounds(sc.rounds - c.round, |sc.childLine|) - ChildProgress(c, |sc.childLine|)
    else Tail(c)
  }

  /** An upper bound on the steps still to come. */
  function Work(sc: Script, s: Sys): int {
    ParentWork(sc, s.parent) + ChildWork(sc, s.child)
  }

  lemma WorkNonnegative(sc: Script, s: Sys)
    requires Inv(sc, s)
    ensures 0 <= Work(sc, s)
  {
  }

  /** The other process's work does not change when it is sent a signal. */
  lemma ParentLowersWork(sc: Script, s: Sys)
    requires Inv(sc, s) && Enabled(s, ParentMoves)
    ensures ParentWork(sc, Step(sc, s, ParentMoves).parent) < ParentWork(sc, s.parent)
    ensures ChildWork(sc, Step(sc, s, ParentMoves).child) == ChildWork(sc, s.child)
  {
  }

  lemma ChildLowersWork(sc: Script, s: Sys)
    requires Inv(sc, s) && Enabled(s, ChildMoves)
    ensures ChildWork(sc, Step(sc, s, ChildMoves).child) < ChildWork(sc, s.child)
    ensures ParentWork(sc, Step(sc, s, ChildMoves).parent) == ParentWork(sc, s.parent)
  {
  }

  lemma StepLowersWork(sc: Script, s: Sys, m: Move)
    requires Inv(sc, s) && Enabled(s, m)
    ensures 0 <= Work(sc, Step(sc, s, m)) < Work(sc, s)
  {
    NoSignalIsLost(sc, s);
    StepKeepsInv(sc, s, m);
    WorkNonnegative(sc, Step(sc, s, m));
    if m == ParentMoves {
      ParentLowersWork(sc, s);
    } else {
      ChildLowersWork(sc, s);
    }
  }

  // ----- Runs -----

  ghost predicate IsRun(sc: Script, s: Sys, ms: seq<Move>)
    decreases |ms|
  {
    |ms| == 0 || (Enabled(s, ms[0]) && IsRun(sc, Step(sc, s, ms[0]), ms[1..]))
  }

  ghost function Exec(sc: Script, s: Sys, ms: seq<Move>): Sys
    requires IsRun(sc, s, ms)
    decreases |ms|
  {
    if |ms| == 0 then s else Exec(sc, Step(sc, s, ms[0]), ms[1..])
  }

  lemma {:induction false} RunsKeepInv(sc: Script, s: Sys, ms: seq<Move>)
    requires Inv(sc, s) && IsRun(sc, s, ms)
    ensures Inv(sc, Exec(sc, s, ms))
    ensures |ms| == 0 || |ms| <= Work(sc, s)
    decreases |ms|
  {
    if |ms| != 0 {
      StepKeepsInv(sc, s, ms[0]);
      StepLowersWork(sc, s, ms[0]);
      RunsKeepInv(sc, Step(sc, s, ms[0]), ms[1..]);
    }
  }

  lemma {:induction false} DialogueGrows(sc: Script, m: nat, n: nat)
    requires m <= n
    ensures Dialogue(sc, m) <= Dialogue(sc, n)
    decreases n
  {
    if m < n {
      DialogueGrows(sc, m, n - 1);
    }
  }

  /** The output of any state reached is a prefix of the full dialogue. */
  lemma OutputIsPrefix(sc: Script, s: Sys)
    requires Inv(sc, s)
    ensures s.out <= Dialogue(sc, sc.rounds)
  {
    if s.parent.round < sc.rounds && s.child.round < sc.rounds {
      var r := s.child.round;
      DialogueGrows(sc, r + 1, sc.rounds);
      assert s.out <= Dialogue(sc, r + 1);
    } else {
      DialogueGrows(sc, s.child.round, sc.rounds);
    }
  }

  /** Any number of rounds, any two lines, any scheduling: the characters printed so far are
      a prefix of (parent line, child line) repeated, runs are bounded, and a run that
      cannot go on has both processes finished and everything printed. */
  lemma EveryRun(sc: Script, ms: seq<Move>)
    requires IsRun(sc, Start(sc), ms)
    ensures var e := Exec(sc, Start(sc), ms);
      && Tokens(e) == 1 && e.out <= Dialogue(sc, sc.rounds)
      && (|ms| > 0 ==> |ms| <= Work(sc, Start(sc)))
      && (Done(e) <==> forall m :: !Enabled(e, m))
      && (Done(e) ==> e.out == Dialogue(sc, sc.rounds))
      && (e.parent.pc == Exited ==> e.child.pc == Exited)
  {
    var e := Exec(sc, Start(sc), ms);
    StartKeepsInv(sc);
    RunsKeepInv(sc, Start(sc), ms);
    OutputIsPrefix(sc, e);
    NoSignalIsLost(sc, e);
    if forall m :: !Enabled(e, m) {
      NoDeadlock(sc, e);
    }
  }

  /** Why TELL_WAIT blocks the signals first: with them unblocked, whatever the lines and for
      any number of rounds but none, the parent's first signal can be handled after the
      child's test of `sigflag` and before its `sigsuspend`; then both sleep forever. */
  lemma UnblockedSignalsDeadlock(sc: Script) returns (ms: seq<Move>)
    requires sc.rounds > 0
    ensures IsRun(sc, UnblockedStart(sc), ms)
    ensures var e := Exec(sc, UnblockedStart(sc), ms); !Done(e) && forall m :: !Enabled(e, m)
  {
    var s := UnblockedStart(sc);
    ms := Oversleep(sc, Step(sc, s, ChildMoves));
    assert ([ChildMoves] + ms)[1..] == ms;
    ms := [ChildMoves] + ms;
  }

  /** The start without the call of `sigprocmask` in TELL_WAIT. */
  function UnblockedStart(sc: Script): Sys {
    var s := Start(sc);
    s.(parent := s.parent.(masked := false), child := s.child.(masked := false))
  }

  /** The child has tested its flag too early; the parent prints its line, signals, and waits. */
  lemma {:induction false} Oversleep(sc: Script, s: Sys) returns (ms: seq<Move>)
    requires s.child.pc == Suspend && !s.child.masked
    requires s.parent.pc in {Print, Tell, Test, Suspend} && !s.parent.flag && !s.parent.pending
    requires s.child.pending ==> s.parent.pc in {Test, Suspend}
    requires s.parent.pc == Suspend ==> !s.child.pending
    requires s.parent.col <= |sc.parentLine|
    ensures IsRun(sc, s, ms)
    ensures var e := Exec(sc, s, ms); !Done(e) && forall m :: !Enabled(e, m)
    decreases match s.parent.pc
      case Print => |sc.parentLine| - s.parent.col + 4
      case Tell => 3
      case _ => (if s.child.pending then 1 else 0) + if s.parent.pc == Test then 1 else 0
  {
    if s.parent.pc == Suspend {
      ms := [];
    } else {
      var m := if s.child.pending then ChildHandler else ParentMoves;
      ms := Oversleep(sc, Step(sc, s, m));
      assert ([m] + ms)[1..] == ms;
      ms := [m] + ms;
    }
  }

  // ----- The program -----

  /** Both processes and the terminal they share. */
  class Processes {
    const script: Script
    var parent: Proc
    var child: Proc
    var out: string

    function Abs(): Sys
      reads this
    {
      Sys(parent, child, out)
    }

    /** TELL_WAIT and `fork`. */
    constructor (script: Script)
      ensures this.script == script && Abs() == Start(script)
    {
      this.script := script;
      var waiting := Proc(Print, 0, 0, false, false, true);
      parent := ParentHead(script, waiting);
      child := ChildHead(script, waiting);
      out := "";
    }

    method ParentStep()
      requires Enabled(Abs(), ParentMoves)
      modifies this
      ensures Abs() == Step(script, old(Abs()), ParentMoves)
    {
      if parent.pc == Tell {
        child := child.(pending := true);
        parent := parent.(pc := Test);
      } else if parent.pc == Clear {
        parent := parent.(flag := false, round := parent.round + 1);
        parent := ParentHead(script, parent);
      } else {
        out := out + Put(parent, script.parentLine);
        parent := Common(parent, script.parentLine);
      }
    }

    method ChildStep()
      requires Enabled(Abs(), ChildMoves)
      modifies this
      ensures Abs() == Step(script, old(Abs()), ChildMoves)
    {
      if child.pc == Tell {
        parent := parent.(pending := true);
        child := child.(round := child.round + 1);
        child := ChildHead(script, child);
      } else if child.pc == Clear {
        child := child.(flag := false);
        child := child.(pc := Print);
      } else {
        out := out + Put(child, script.childLine);
        child := Common(child, script.childLine);
      }
    }

    /** Lets either process move in an arbitrary order: both always finish, and the
        terminal shows the whole dialogue. */
    method Run()
      requires Abs() == Start(script)
      modifies this
      ensures Done(Abs()) && out == Dialogue(script, script.rounds)
    {
      StartKeepsInv(script);
      while Enabled(Abs(), ParentMoves) || Enabled(Abs(), ChildMoves)
        invariant Inv(script, Abs())
        decreases Work(script, Abs())
      {
        var m :| Enabled(Abs(), m) && m in {ParentMoves, ChildMoves};
        StepKeepsInv(script, Abs(), m);
        StepLowersWork(script, Abs(), m);
        if m == ParentMoves {
          ParentStep();
        } else {
          ChildStep();
        }
      }
      NoDeadlock(script, Abs());
    }
  }
}
