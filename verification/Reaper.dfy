/** The fork servers of advUNIX/simpleSocketServer and advUNIX/HTTPWebServer: an endless
    accept/fork loop whose children are reaped by a SIGCHLD handler. Children exit at any
    moment, and any number of exits leaves one pending signal. */
module Reaper {

  /** The echo server saves `errno` in its handler and gives up when `fork` fails; the
      HTTP server does neither. */
  datatype Variant = Echo | Http

  const ECHILD: int := 10

  /** `Looping` is before a call of `waitpid`, `Leaving` after the one that found nothing.
      SIGCHLD is blocked while its handler runs. */
  datatype Handler = Idle | Looping | Leaving

  /** `Reporting` is before the `perror` that prints the failure e. */
  datatype MainPc =
    | Accepting
    | Forking(fd: nat)
    | Closing(fd: nat)
    | Reporting(e: int, after: MainPc)
    | Exited

  datatype Sys = Sys(
    main: MainPc, handler: Handler, pending: bool,
    running: set<nat>, zombies: set<nat>, forked: nat, reaped: nat,
    fds: set<nat>, errno: int, saved: int)

  datatype Event =
    | Accept(fd: nat)
    | AcceptFails(e: int)
    | Fork(pid: nat)
    | ForkFails(e: int)
    | Report
    | CloseClient
    | ChildExits(pid: nat)
    | HandlerEnters
    | WaitPid(pid: nat)
    | HandlerReturns

  function Start(listener: nat): Sys {
    Sys(Accepting, Idle, false, {}, {}, 0, 0, {listener}, 0, 0)
  }

  /** Events of the accept/fork loop; all others are exits and the handler. */
  predicate OfMain(ev: Event) {
    ev.Accept? || ev.AcceptFails? || ev.Fork? || ev.ForkFails? || ev.Report? || ev.CloseClient?
  }

  predicate Enabled(s: Sys, ev: Event) {
    && s.main != Exited
    && (OfMain(ev) ==> s.handler == Idle)
    && match ev
       case Accept(fd) => s.main == Accepting && fd !in s.fds
       case AcceptFails(_) => s.main == Accepting
       case Fork(pid) => s.main.Forking? && pid !in s.running + s.zombies
       case ForkFails(_) => s.main.Forking?
       case Report => s.main.Reporting?
       case CloseClient => s.main.Closing?
       case ChildExits(pid) => pid in s.running
       case HandlerEnters => s.handler == Idle && s.pending
       case WaitPid(pid) => s.handler == Looping && (s.zombies != {} ==> pid in s.zombies)
       case HandlerReturns => s.handler == Leaving
  }

  function Step(v: Variant, s: Sys, ev: Event): Sys
    requires Enabled(s, ev)
  {
    match ev
    case Accept(fd) => s.(main := Forking(fd), fds := s.fds + {fd})
    case AcceptFails(e) => s.(main := Reporting(e, Accepting), errno := e)
    case Fork(pid) =>
      s.(main := Closing(s.main.fd), running := s.running + {pid}, forked := s.forked + 1)
    case ForkFails(e) =>
      s.(main := Reporting(e, if v == Echo then Exited else Closing(s.main.fd)), errno := e)
    case Report => s.(main := s.main.after)
    case CloseClient => s.(main := Accepting, fds := s.fds - {s.main.fd})
    case ChildExits(pid) =>
      s.(running := s.running - {pid}, zombies := s.zombies + {pid}, pending := true)
    case HandlerEnters => s.(handler := Looping, pending := false, saved := s.errno)
    case WaitPid(pid) =>
      if s.zombies != {} then s.(zombies := s.zombies - {pid}, reaped := s.reaped + 1)
      else s.(handler := Leaving, errno := if s.running == {} then ECHILD else s.errno)
    case HandlerReturns =>
      s.(handler := Idle, errno := if v == Echo then s.saved else s.errno)
  }

  // ----- The invariant -----

  /** A zombie has a pending signal or a handler that has yet to call `waitpid`. */
  ghost predicate Watched(s: Sys) {
    s.zombies != {} ==> s.pending || s.handler == Looping
  }

  /** The descriptors the parent should have at its current statement. */
  function Needed(listener: nat, main: MainPc): set<nat> {
    match main
    case Forking(fd) => {listener, fd}
    case Closing(fd) => {listener, fd}
    case Reporting(_, after) => Needed(listener, after)
    case _ => {listener}
  }

  ghost predicate MainOk(listener: nat, main: MainPc) {
    match main
    case Forking(fd) => fd != listener
    case Closing(fd) => fd != listener
    case Reporting(_, after) => !after.Reporting? && MainOk(listener, after)
    case _ => true
  }

  predicate Gone(main: MainPc) {
    main == Exited || (main.Reporting? && main.after == Exited)
  }

  ghost predicate Inv(listener: nat, s: Sys) {
    && Watched(s)
    && s.running !! s.zombies
    && s.forked == |s.running| + |s.zombies| + s.reaped
    && MainOk(listener, s.main)
    && (!Gone(s.main) ==> s.fds == Needed(listener, s.main))
  }

  lemma LoopKeepsInv(v: Variant, listener: nat, s: Sys, ev: Event)
    requires Inv(listener, s) && Enabled(s, ev) && OfMain(ev)
    ensures Inv(listener, Step(v, s, ev))
  {
  }

  lemma ReapingKeepsInv(v: Variant, listener: nat, s: Sys, ev: Event)
    requires Inv(listener, s) && Enabled(s, ev) && !OfMain(ev)
    ensures Inv(listener, Step(v, s, ev))
  {
  }

  lemma StepKeepsInv(v: Variant, listener: nat, s: Sys, ev: Event)
    requires Inv(listener, s) && Enabled(s, ev)
    ensures Inv(listener, Step(v, s, ev))
  {
    if OfMain(ev) {
      LoopKeepsInv(v, listener, s, ev);
    } else {
      ReapingKeepsInv(v, listener, s, ev);
    }
  }

  /** A server at rest has no zombies, and nothing else makes it rest: while there is a
      zombie the handler can run. */
  lemma QuiescentHasNoZombies(listener: nat, s: Sys)
    requires Inv(listener, s)
    ensures !s.pending && s.handler == Idle ==> s.zombies == {}
    ensures s.zombies != {} && s.main != Exited ==>
      || Enabled(s, HandlerEnters)
      || Enabled(s, HandlerReturns)
      || exists pid :: pid in s.zombies && Enabled(s, WaitPid(pid))
  {
    if s.handler == Looping && s.zombies != {} {
      var pid :| pid in s.zombies;
      assert s.main != Exited ==> Enabled(s, WaitPid(pid));
    }
  }

  /** Each turn of the handler's loop that continues has one zombie less to find; the one
      that ends it found none. */
  lemma HandlerLoopProgress(v: Variant, listener: nat, s: Sys, pid: nat)
    requires Inv(listener, s) && Enabled(s, WaitPid(pid))
    ensures var s' := Step(v, s, WaitPid(pid));
      if s'.handler == Looping
      then |s'.zombies| == |s.zombies| - 1 && s'.reaped == s.reaped + 1 && pid !in s'.zombies
      else s.zombies == {} && s'.zombies == {}
  {
  }

  /** A child inherits the listener and its own client's descriptor, no other client's; and
      the loop is back at `accept` with the listener alone. */
  lemma NoDescriptorLeaks(listener: nat, s: Sys)
    requires Inv(listener, s)
    ensures s.main.Forking? ==> s.fds == {listener, s.main.fd}
    ensures s.main == Accepting ==> s.fds == {listener}
  {
  }

  // ----- Runs -----

  ghost predicate IsRun(v: Variant, s: Sys, evs: seq<Event>)
    decreases |evs|
  {
    |evs| == 0 || (Enabled(s, evs[0]) && IsRun(v, Step(v, s, evs[0]), evs[1..]))
  }

  ghost function Exec(v: Variant, s: Sys, evs: seq<Event>): Sys
    requires IsRun(v, s, evs)
    decreases |evs|
  {
    if |evs| == 0 then s else Exec(v, Step(v, s, evs[0]), evs[1..])
  }

  lemma ExecOne(v: Variant, s: Sys, ev: Event, rest: seq<Event>)
    requires Enabled(s, ev) && IsRun(v, Step(v, s, ev), rest)
    ensures IsRun(v, s, [ev] + rest)
    ensures Exec(v, s, [ev] + rest) == Exec(v, Step(v, s, ev), rest)
  {
    assert ([ev] + rest)[1..] == rest;
  }

  /** Any number of clients and children, any coalescing of signals: every forked child is
      running, a watched zombie, or reaped, and each is reaped once. */
  lemma {:induction false} RunsKeepInv(v: Variant, listener: nat, s: Sys, evs: seq<Event>)
    requires Inv(listener, s) && IsRun(v, s, evs)
    ensures Inv(listener, Exec(v, s, evs))
    decreases |evs|
  {
    if |evs| != 0 {
      StepKeepsInv(v, listener, s, evs[0]);
      RunsKeepInv(v, listener, Step(v, s, evs[0]), evs[1..]);
    }
  }

  /** An upper bound on exits and handler statements to come while the loop is idle. */
  function Unrest(s: Sys): nat {
    6 * |s.running| + |s.zombies| + (if s.pending then 3 else 0)
    + match s.handler case Idle => 0 case Looping => 2 case Leaving => 1
  }

  lemma StepLowersUnrest(v: Variant, listener: nat, s: Sys, ev: Event)
    requires Inv(listener, s) && Enabled(s, ev) && !OfMain(ev)
    ensures Unrest(Step(v, s, ev)) < Unrest(s)
    ensures Step(v, s, ev).main == s.main
  {
  }

  /** While no new client comes, exits and handler runs stop after boundedly many steps;
      where they stop there is neither a zombie nor a running child left. */
  lemma {:induction false} SettlesWithoutZombies(v: Variant, listener: nat, s: Sys, evs: seq<Event>)
    requires Inv(listener, s) && IsRun(v, s, evs) && s.main != Exited
    requires forall i | 0 <= i < |evs| :: !OfMain(evs[i])
    ensures |evs| <= Unrest(s)
    ensures (forall ev | !OfMain(ev) :: !Enabled(Exec(v, s, evs), ev)) ==>
      && Exec(v, s, evs).zombies == {} && Exec(v, s, evs).running == {}
      && Exec(v, s, evs).reaped == s.forked
    decreases |evs|
  {
    if |evs| != 0 {
      StepKeepsInv(v, listener, s, evs[0]);
      StepLowersUnrest(v, listener, s, evs[0]);
      SettlesWithoutZombies(v, listener, Step(v, s, evs[0]), evs[1..]);
    } else if forall ev | !OfMain(ev) :: !Enabled(s, ev) {
      assert !Enabled(s, HandlerEnters) && !Enabled(s, HandlerReturns);
      QuiescentHasNoZombies(listener, s);
      if pid :| pid in s.running {
        assert Enabled(s, ChildExits(pid));
      }
    }
  }

  // ----- errno -----

  /** The failure to be reported is in `errno`, or saved by a handler that has interrupted. */
  ghost predicate ErrnoIntact(s: Sys) {
    s.main.Reporting? ==> s.main.e == if s.handler == Idle then s.errno else s.saved
  }

  /** The echo server reports the failure that occurred, whatever its handler does: over
      every run from the start. */
  lemma EchoKeepsErrno(listener: nat, evs: seq<Event>)
    requires IsRun(Echo, Start(listener), evs)
    ensures ErrnoIntact(Exec(Echo, Start(listener), evs))
  {
    EchoRunsKeepErrno(listener, Start(listener), evs);
  }

  lemma {:induction false} EchoRunsKeepErrno(listener: nat, s: Sys, evs: seq<Event>)
    requires Inv(listener, s) && ErrnoIntact(s) && IsRun(Echo, s, evs)
    ensures ErrnoIntact(Exec(Echo, s, evs))
    decreases |evs|
  {
    if |evs| != 0 {
      StepKeepsInv(Echo, listener, s, evs[0]);
      EchoRunsKeepErrno(listener, Step(Echo, s, evs[0]), evs[1..]);
    }
  }

  /** Exits and complete handler runs between two statements of the loop. */
  ghost predicate Interruption(v: Variant, s: Sys, evs: seq<Event>) {
    && IsRun(v, s, evs) && Exec(v, s, evs).handler == Idle
    && forall i | 0 <= i < |evs| :: !OfMain(evs[i])
  }

  /** A handler that does not save `errno` leaves it alone or sets it to ECHILD. */
  lemma {:induction false} OnlyEchild(s: Sys, evs: seq<Event>)
    requires IsRun(Http, s, evs) && forall i | 0 <= i < |evs| :: !OfMain(evs[i])
    ensures Exec(Http, s, evs).errno in {s.errno, ECHILD}
    decreases |evs|
  {
    if |evs| != 0 {
      OnlyEchild(Step(Http, s, evs[0]), evs[1..]);
    }
  }

  lemma {:induction false} EchoInterruption(s: Sys, evs: seq<Event>, e: int)
    requires IsRun(Echo, s, evs) && forall i | 0 <= i < |evs| :: !OfMain(evs[i])
    requires e == if s.handler == Idle then s.errno else s.saved
    ensures var t := Exec(Echo, s, evs); e == if t.handler == Idle then t.errno else t.saved
    decreases |evs|
  {
    if |evs| != 0 {
      EchoInterruption(Step(Echo, s, evs[0]), evs[1..], e);
    }
  }

  /** Until the last child has exited, a handler run leaves the HTTP server's `errno` alone. */
  lemma {:induction false} ErrnoWhileChildrenRun(s: Sys, evs: seq<Event>)
    requires IsRun(Http, s, evs) && forall i | 0 <= i < |evs| :: !OfMain(evs[i])
    ensures Exec(Http, s, evs).running <= s.running
    ensures Exec(Http, s, evs).running != {} ==> Exec(Http, s, evs).errno == s.errno
    decreases |evs|
  {
    if |evs| != 0 {
      ErrnoWhileChildrenRun(Step(Http, s, evs[0]), evs[1..]);
    }
  }

  /** Once all have exited and been looked for, it is ECHILD. */
  lemma {:induction false} ErrnoWhenSettled(s: Sys, evs: seq<Event>)
    requires IsRun(Http, s, evs) && forall i | 0 <= i < |evs| :: !OfMain(evs[i])
    requires s.running != {} || s.pending || s.handler == Looping || s.errno == ECHILD
    ensures var t := Exec(Http, s, evs);
      t.running != {} || t.pending || t.handler == Looping || t.errno == ECHILD
    decreases |evs|
  {
    if |evs| != 0 {
      ErrnoWhenSettled(Step(Http, s, evs[0]), evs[1..]);
    }
  }

  /** What a given interruption leaves in the HTTP server's `errno`: the old value while a
      child still runs, ECHILD once there is no child and no signal left, nothing else ever. */
  lemma HttpErrnoAfter(s: Sys, evs: seq<Event>)
    requires Interruption(Http, s, evs) && s.handler == Idle
    ensures var t := Exec(Http, s, evs);
      && (t.running != {} ==> t.errno == s.errno)
      && (t.running == {} && !t.pending && (s.running != {} || s.pending) ==> t.errno == ECHILD)
      && t.errno in {s.errno, ECHILD}
  {
    OnlyEchild(s, evs);
    ErrnoWhileChildrenRun(s, evs);
    if s.running != {} || s.pending {
      ErrnoWhenSettled(s, evs);
    }
  }

  /** With a child to exit or a handler run to come, letting all children exit and the handler
      finish ends with ECHILD in the HTTP server's `errno`. */
  lemma {:induction false} ReachesEchild(listener: nat, s: Sys) returns (evs: seq<Event>)
    requires Inv(listener, s) && s.main != Exited
    requires s.running != {} || s.pending || s.handler == Looping
    ensures Interruption(Http, s, evs) && Exec(Http, s, evs).errno == ECHILD
    ensures Exec(Http, s, evs).main == s.main
    decreases Unrest(s)
  {
    var ev;
    if s.running != {} {
      var pid :| pid in s.running;
      ev := ChildExits(pid);
    } else if s.handler == Leaving {
      ev := HandlerReturns;
    } else if s.handler == Idle {
      ev := HandlerEnters;
    } else if s.zombies != {} {
      var pid :| pid in s.zombies;
      ev := WaitPid(pid);
    } else {
      ev := WaitPid(0);
    }
    var s' := Step(Http, s, ev);
    StepKeepsInv(Http, listener, s, ev);
    StepLowersUnrest(Http, listener, s, ev);
    var rest := [HandlerReturns];
    if s.handler == Looping && s.running == {} && s.zombies == {} {
      ExecOne(Http, s', HandlerReturns, []);
    } else {
      rest := ReachesEchild(listener, s');
    }
    ExecOne(Http, s, ev, rest);
    evs := [ev] + rest;
  }

  /** When `perror` is sure to report the failure that has just occurred: in the echo server
      always, in the HTTP server exactly if the failure is ECHILD itself or no child is left
      to exit and no signal is pending. */
  lemma ReportsFailureIff(v: Variant, listener: nat, s: Sys)
    requires Inv(listener, s) && s.main.Reporting? && s.handler == Idle && s.errno == s.main.e
    ensures (forall evs | Interruption(v, s, evs) :: Exec(v, s, evs).errno == s.main.e)
      <==> v == Echo || s.main.e == ECHILD || (s.running == {} && !s.pending)
  {
    if v == Echo || s.main.e == ECHILD || (s.running == {} && !s.pending) {
      forall evs | Interruption(v, s, evs) ensures Exec(v, s, evs).errno == s.main.e {
        if v == Echo {
          EchoInterruption(s, evs, s.main.e);
        } else if s.main.e == ECHILD {
          OnlyEchild(s, evs);
        } else {
          assert |evs| == 0 || !OfMain(evs[0]);
        }
      }
    } else {
      var evs := ReachesEchild(listener, s);
    }
  }

  /** The same, seen from before the call of `accept` or `fork` that fails. */
  lemma FailureReportedIff(v: Variant, listener: nat, s: Sys, ev: Event)
    requires Inv(listener, s) && Enabled(s, ev) && (ev.AcceptFails? || ev.ForkFails?)
    ensures (forall evs | Interruption(v, Step(v, s, ev), evs) :: Exec(v, Step(v, s, ev), evs).errno == ev.e)
      <==> v == Echo || ev.e == ECHILD || (s.running == {} && !s.pending)
  {
    StepKeepsInv(v, listener, s, ev);
    ReportsFailureIff(v, listener, Step(v, s, ev));
  }

  /** A run of the HTTP server from its start in which a failure of `accept` is lost: one
      client is served, then `accept` fails while the child exits. */
  lemma HttpLosesErrno(listener: nat, fd: nat, pid: nat, e: int) returns (evs: seq<Event>)
    requires fd != listener && e != ECHILD
    ensures var s := Start(listener);
      && IsRun(Http, s, evs) && Exec(Http, s, evs).handler == Idle
      && Exec(Http, s, evs).main == Reporting(e, Accepting)
      && Exec(Http, s, evs).errno != e
  {
    var s0 := Start(listener);
    var s1 := Step(Http, s0, Accept(fd));
    var s2 := Step(Http, s1, Fork(pid));
    var s3 := Step(Http, s2, CloseClient);
    var s4 := Step(Http, s3, AcceptFails(e));
    StepKeepsInv(Http, listener, s0, Accept(fd));
    StepKeepsInv(Http, listener, s1, Fork(pid));
    StepKeepsInv(Http, listener, s2, CloseClient);
    StepKeepsInv(Http, listener, s3, AcceptFails(e));
    assert pid in s4.running;
    evs := ReachesEchild(listener, s4);
    ExecOne(Http, s3, AcceptFails(e), evs);
    evs := [AcceptFails(e)] + evs;
    ExecOne(Http, s2, CloseClient, evs);
    evs := [CloseClient] + evs;
    ExecOne(Http, s1, Fork(pid), evs);
    evs := [Fork(pid)] + evs;
    ExecOne(Http, s0, Accept(fd), evs);
    evs := [Accept(fd)] + evs;
  }

  // ----- The program -----

  class Server {
    const variant: Variant
    const listener: nat
    var main: MainPc
    var handler: Handler
    var pending: bool
    var running: set<nat>
    var zombies: set<nat>
    ghost var forked: nat
    ghost var reaped: nat
    var fds: set<nat>
    var errno: int
    var saved: int

    ghost function Abs(): Sys
      reads this
    {
      Sys(main, handler, pending, running, zombies, forked, reaped, fds, errno, saved)
    }

    ghost predicate Ok()
      reads this
    {
      Inv(listener, Abs())
    }

    constructor (variant: Variant, listener: nat)
      ensures this.variant == variant && this.listener == listener
      ensures Abs() == Start(listener) && Ok()
    {
      this.variant, this.listener := variant, listener;
      main, handler, pending := Accepting, Idle, false;
      running, zombies, forked, reaped := {}, {}, 0, 0;
      fds, errno, saved := {listener}, 0, 0;
    }

    method Happen(ev: Event)
      requires Ok() && Enabled(Abs(), ev)
      modifies this
      ensures Ok() && Abs() == Step(variant, old(Abs()), ev)
      ensures !OfMain(ev) ==> Unrest(Abs()) < old(Unrest(Abs()))
    {
      StepKeepsInv(variant, listener, Abs(), ev);
      if !OfMain(ev) {
        StepLowersUnrest(variant, listener, Abs(), ev);
      }
      Update(ev);
    }

    /** One event, in place. */
    method Update(ev: Event)
      requires Enabled(Abs(), ev)
      modifies this
      ensures Abs() == Step(variant, old(Abs()), ev)
    {
      match ev {
        case Accept(fd) =>
          fds, main := fds + {fd}, Forking(fd);
        case AcceptFails(e) =>
          errno, main := e, Reporting(e, Accepting);
        case Fork(pid) =>
          running, forked, main := running + {pid}, forked + 1, Closing(main.fd);
        case ForkFails(e) =>
          errno, main := e, Reporting(e, if variant == Echo then Exited else Closing(main.fd));
        case Report =>
          main := main.after;
        case CloseClient =>
          fds, main := fds - {main.fd}, Accepting;
        case ChildExits(pid) =>
          running, zombies, pending := running - {pid}, zombies + {pid}, true;
        case HandlerEnters =>
          pending, handler, saved := false, Looping, errno;
        case WaitPid(pid) =>
          if zombies != {} {
            zombies, reaped := zombies - {pid}, reaped + 1;
          } else {
            handler := Leaving;
            if running == {} {
              errno := ECHILD;
            }
          }
        case HandlerReturns =>
          handler := Idle;
          if variant == Echo {
            errno := saved;
          }
      }
    }

    /** No child can exit and no signal is pending. */
    predicate Quiet()
      reads this
    {
      running == {} && !pending
    }

    /** What exits and handler runs leave alone. */
    twostate predicate LoopUntouched()
      reads this
    {
      && main == old(main) && fds == old(fds) && forked == old(forked)
      && running <= old(running) && running + zombies <= old(running + zombies)
      && Unrest(Abs()) <= old(Unrest(Abs()))
    }

    /** The environment: any number of children exit here. */
    method ChildrenExit()
      requires Ok() && main != Exited
      modifies this
      ensures Ok() && LoopUntouched()
      ensures handler == old(handler) && errno == old(errno) && saved == old(saved)
      ensures pending == (old(pending) || running != old(running))
    {
      while running != {}
        invariant Ok() && LoopUntouched()
        invariant handler == old(handler) && errno == old(errno) && saved == old(saved)
        invariant pending == (old(pending) || running != old(running))
        decreases running
      {
        var enough: bool := *;
        if enough {
          break;
        }
        var pid :| pid in running;
        Happen(ChildExits(pid));
      }
    }

    /** `waitpid(-1, NULL, WNOHANG) > 0`. */
    method WaitPidFinds() returns (found: bool)
      requires Ok() && handler == Looping && main != Exited
      modifies this
      ensures Ok() && LoopUntouched() && Unrest(Abs()) < old(Unrest(Abs()))
      ensures found == (old(zombies) != {}) && reaped == old(reaped) + if found then 1 else 0
      ensures handler == if found then Looping else Leaving
      ensures saved == old(saved) && running == old(running) && pending == old(pending)
      ensures errno == if !found && running == {} then ECHILD else old(errno)
    {
      found := zombies != {};
      var pid := 0;
      if found {
        pid :| pid in zombies;
      }
      Happen(WaitPid(pid));
    }

    /** The handler's loop. */
    method ReapLoop()
      requires Ok() && main != Exited && handler == Looping
      modifies this
      ensures Ok() && LoopUntouched() && handler == Leaving
      ensures saved == old(saved) && errno in {old(errno), ECHILD}
      ensures running != {} ==> errno == old(errno)
      ensures running == {} && !pending ==> errno == ECHILD
    {
      ChildrenExit();
      var more := WaitPidFinds();
      while more
        invariant Ok() && LoopUntouched()
        invariant handler == (if more then Looping else Leaving)
        invariant saved == old(saved) && errno in {old(errno), ECHILD}
        invariant more || running != {} ==> errno == old(errno)
        invariant !more && running == {} && !pending ==> errno == ECHILD
        decreases Unrest(Abs())
      {
        ChildrenExit();
        more := WaitPidFinds();
      }
    }

    /** `sigchld_handler`, with children exiting between any two of its statements: it
        returns, and then every zombie left has its own signal pending. */
    method SigchldHandler()
      requires Ok() && main != Exited && handler == Idle && pending
      modifies this
      ensures Ok() && LoopUntouched() && Unrest(Abs()) < old(Unrest(Abs()))
      ensures handler == Idle && (zombies != {} ==> pending)
      ensures errno == old(errno) || (variant == Http && errno == ECHILD)
      ensures running != {} ==> errno == old(errno)
      ensures variant == Http && running == {} && !pending ==> errno == ECHILD
    {
      Happen(HandlerEnters);
      ReapLoop();
      ChildrenExit();
      Happen(HandlerReturns);
    }

    /** Between two statements of the loop: any exits and any number of handler runs. */
    method Signals()
      requires Ok() && main != Exited && handler == Idle
      modifies this
      ensures Ok() && LoopUntouched() && handler == Idle
      ensures errno == old(errno) || (variant == Http && errno == ECHILD)
      ensures old(Quiet()) ==> Quiet() && errno == old(errno)
      ensures running != {} ==> errno == old(errno)
    {
      ChildrenExit();
      while pending
        invariant Ok() && LoopUntouched() && handler == Idle
        invariant errno == old(errno) || (variant == Http && errno == ECHILD)
        invariant old(Quiet()) ==> Quiet() && errno == old(errno)
        invariant running != {} ==> errno == old(errno)
        decreases Unrest(Abs())
      {
        var later: bool := *;
        if later {
          break;
        }
        SigchldHandler();
        ChildrenExit();
      }
    }

    /** `perror`, with whatever happens between the failing call and it. */
    method ReportError() returns (reported: int)
      requires Ok() && handler == Idle && main.Reporting?
      modifies this
      ensures Ok() && handler == Idle && main == old(main.after)
      ensures fds == old(fds) && forked == old(forked) && running <= old(running)
      ensures reported == old(errno) || (variant == Http && reported == ECHILD)
      ensures variant == Echo || old(Quiet()) || running != {} ==> reported == old(errno)
      ensures old(Quiet()) ==> Quiet()
    {
      Signals();
      reported := errno;
      Happen(Report);
    }

    /** One turn of the server's endless loop. `accepted` and `forkedPid` are what `accept`
        and `fork` return, negative for failure with error e; `reported` is what `perror`
        finds in `errno`. The condition for the right report is that of ReportsFailureIff. */
    method ServeOne(accepted: int, forkedPid: int, e: int) returns (reported: int)
      requires Ok() && main == Accepting && handler == Idle
      requires accepted >= 0 ==> accepted !in fds
      requires forkedPid > 0 ==> forkedPid !in running + zombies
      modifies this
      ensures Ok() && handler == Idle
      ensures main == Exited <==> variant == Echo && accepted >= 0 && forkedPid <= 0
      ensures main != Exited ==> main == Accepting && fds == {listener}
      ensures forked == old(forked) + if accepted >= 0 && forkedPid > 0 then 1 else 0
      ensures accepted < 0 || forkedPid <= 0 ==>
        && (reported == e || (variant == Http && reported == ECHILD))
        && (variant == Echo || e == ECHILD || old(Quiet()) || running != {} ==> reported == e)
    {
      reported := 0;
      Signals();
      if accepted < 0 {
        Happen(AcceptFails(e));
        reported := ReportError();
        return;
      }
      Happen(Accept(accepted));
      Signals();
      if forkedPid > 0 {
        Happen(Fork(forkedPid));
      } else {
        Happen(ForkFails(e));
        reported := ReportError();
        if variant == Echo {
          return;
        }
      }
      Signals();
      Happen(CloseClient);
    }
  }
}
