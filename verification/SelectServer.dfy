/** The select server of advUNIX/HTTPWebServer: one table of client descriptors, an fd set
    and `maxfd` rebuilt before every `select`, one accept and one service sweep after it.
    Requests and replies are reduced to the fact that they happened. */
module SelectServer {
  import opened Sequences

  const FREE: int := -1

  /** `open` is what the kernel holds open for accepted clients, `lost` the accepted clients
      for which the table had no slot. */
  datatype Server = Server(table: seq<int>, listener: int, open: set<int>, lost: set<int>)

  /** What one turn of the loop meets: the descriptors `select` reports, what `accept`
      returns if it is called, and the descriptors whose `read` returns 0 or less. */
  datatype Input = SelectFails | Input(ready: set<int>, accepted: int, eof: set<int>)

  datatype Action = Read(fd: int) | Reply(fd: int) | Close(fd: int)

  function Entries(t: seq<int>): set<int> {
    set i | 0 <= i < |t| && t[i] != FREE :: t[i]
  }

  /** The fd set passed to `select`. */
  function Watched(s: Server): set<int> {
    {s.listener} + Entries(s.table)
  }

  predicate Full(t: seq<int>) {
    FREE !in t
  }

  /** The first free slot, or |t|. */
  function FirstFree(t: seq<int>, from: nat): (k: nat)
    requires from <= |t|
    ensures from <= k <= |t| && (k < |t| ==> t[k] == FREE) && FREE !in t[from..k]
    decreases |t| - from
  {
    if from < |t| && t[from] != FREE then
      var k := FirstFree(t, from + 1);
      assert t[from..k] == [t[from]] + t[from + 1..k];
      k
    else from
  }

  /** The table with fd in its first free slot, if there is one. */
  function Insert(t: seq<int>, fd: int): (t': seq<int>)
    ensures |t'| == |t|
  {
    var k := FirstFree(t, 0);
    if k < |t| then t[k := fd] else t
  }

  /** The table after a service sweep: every reported client is gone. */
  function Sweep(t: seq<int>, ready: set<int>): (t': seq<int>)
    ensures |t'| == |t|
  {
    seq(|t|, i requires 0 <= i < |t| => if t[i] in ready then FREE else t[i])
  }

  function ServeSlot(fd: int, ready: set<int>, eof: set<int>): seq<Action> {
    if fd == FREE || fd !in ready then []
    else if fd in eof then [Read(fd), Close(fd)]
    else [Read(fd), Reply(fd), Close(fd)]
  }

  /** The system calls of a service sweep, in order. */
  function SweepLog(t: seq<int>, ready: set<int>, eof: set<int>): seq<Action> {
    if |t| == 0 then []
    else SweepLog(t[..|t| - 1], ready, eof) + ServeSlot(t[|t| - 1], ready, eof)
  }

  /** Entries are descriptors, each listed once. */
  ghost predicate TableOk(t: seq<int>) {
    && (forall i | 0 <= i < |t| && t[i] != FREE :: t[i] >= 0)
    && (forall i, j | 0 <= i < j < |t| && t[i] != FREE :: t[i] != t[j])
  }

  ghost predicate Inv(s: Server) {
    && (forall fd | fd in s.open :: fd >= 0)
    && s.listener >= 0 && s.listener !in s.open && TableOk(s.table)
    && s.open == Entries(s.table) + s.lost && Entries(s.table) !! s.lost
  }

  /** `select` reports watched descriptors only; the kernel returns an unused descriptor. */
  predicate Legal(s: Server, input: Input) {
    input.Input? ==>
      && input.ready <= Watched(s)
      && (input.accepted >= 0 ==> input.accepted !in s.open && input.accepted != s.listener)
  }

  /** A failed `accept` skips the rest of the turn. */
  predicate Skips(s: Server, input: Input) {
    input.SelectFails? || (s.listener in input.ready && input.accepted < 0)
  }

  predicate Accepts(s: Server, input: Input) {
    input.Input? && s.listener in input.ready && input.accepted >= 0
  }

  /** The table the service sweep works on. */
  function Swept(s: Server, input: Input): seq<int> {
    if Accepts(s, input) then Insert(s.table, input.accepted) else s.table
  }

  function Turn(s: Server, input: Input): (Server, seq<Action>) {
    if Skips(s, input) then (s, [])
    else
      var t := Swept(s, input);
      var joined := if Accepts(s, input) then {input.accepted} else {};
      (Server(Sweep(t, input.ready), s.listener,
              s.open + joined - (Entries(t) * input.ready),
              s.lost + if Full(s.table) then joined else {}),
       SweepLog(t, input.ready, input.eof))
  }

  // ----- The table -----

  /** Storing a client changes the first free slot, if there is one, and nothing else. */
  lemma InsertEntries(t: seq<int>, fd: int)
    requires TableOk(t) && fd >= 0 && fd !in Entries(t)
    ensures Full(t) ==> Insert(t, fd) == t
    ensures !Full(t) ==> exists k: nat ::
              k < |t| && t[k] == FREE && FREE !in t[..k] && Insert(t, fd) == t[k := fd]
    ensures TableOk(Insert(t, fd))
    ensures Entries(Insert(t, fd)) == Entries(t) + if Full(t) then {} else {fd}
  {
    var k := FirstFree(t, 0);
    if k < |t| {
      var t' := Insert(t, fd);
      assert t[..k] == t[0..k] && t' == t[k := fd];
      assert forall i | 0 <= i < |t| && t[i] != FREE :: t[i] in Entries(t) && t'[i] == t[i];
      assert t'[k] == fd;
      forall x | x in Entries(t') ensures x in Entries(t) + {fd} {
        var i :| 0 <= i < |t'| && t'[i] != FREE && t'[i] == x;
        assert i == k || t[i] == x;
      }
    } else {
      assert t[0..k] == t;
    }
  }

  lemma SweepEntries(t: seq<int>, ready: set<int>)
    ensures TableOk(t) ==> TableOk(Sweep(t, ready))
    ensures Entries(Sweep(t, ready)) == Entries(t) - ready
  {
    var t' := Sweep(t, ready);
    forall x | x in Entries(t) - ready ensures x in Entries(t') {
      var i :| 0 <= i < |t| && t[i] != FREE && t[i] == x;
      assert t'[i] == x;
    }
  }

  /** Entries stay distinct open descriptors, and every accepted client that is not closed is
      in the table or was accepted when all slots were taken. */
  lemma TurnKeepsInv(s: Server, input: Input)
    requires Inv(s) && Legal(s, input)
    ensures var (s', _) := Turn(s, input);
      && Inv(s')
      && (s'.lost != s.lost ==> Full(s.table) && Accepts(s, input))
  {
    if !Skips(s, input) {
      if Accepts(s, input) {
        InsertEntries(s.table, input.accepted);
      }
      var t, s' := Swept(s, input), Turn(s, input).0;
      SweepEntries(t, input.ready);
      assert s.listener !in Entries(t) && Entries(t) !! s'.lost;
      assert s'.open == Entries(t) + s'.lost - Entries(t) * input.ready;
    }
  }

  // ----- The system calls -----

  /** The calls about one descriptor, in order. */
  function About(log: seq<Action>, fd: int): seq<Action> {
    if |log| == 0 then []
    else About(log[..|log| - 1], fd) + if log[|log| - 1].fd == fd then [log[|log| - 1]] else []
  }

  lemma {:induction false} AboutConcat(a: seq<Action>, b: seq<Action>, fd: int)
    ensures About(a + b, fd) == About(a, fd) + About(b, fd)
  {
    if |b| == 0 {
      assert a + b == a;
    } else {
      var n := |b| - 1;
      assert (a + b)[..|a + b| - 1] == a + b[..n];
      AboutConcat(a, b[..n], fd);
    }
  }

  lemma AboutSlot(slot: int, ready: set<int>, eof: set<int>, fd: int)
    requires fd != FREE
    ensures About(ServeSlot(slot, ready, eof), fd) == if fd == slot then ServeSlot(slot, ready, eof) else []
  {
    var log := ServeSlot(slot, ready, eof);
    assert |log| >= 1 ==> About(log[..0], fd) == [] && log[..1][..0] == log[..0];
    assert |log| >= 2 ==> log[..2][..1] == log[..1];
    assert |log| >= 3 ==> log[..3] == log;
    assert |log| == 2 ==> log[..2] == log;
    if |log| >= 2 {
      assert About(log[..1], fd) == if fd == slot then log[..1] else [];
      assert About(log[..2], fd) == if fd == slot then log[..2] else [];
    }
  }

  /** The calls for one listed descriptor come in the right order, and slots in table order. */
  lemma {:induction false} SweepAbout(t: seq<int>, ready: set<int>, eof: set<int>, fd: int)
    requires TableOk(t) && fd != FREE
    ensures About(SweepLog(t, ready, eof), fd) == if fd in Entries(t) then ServeSlot(fd, ready, eof) else []
  {
    if |t| != 0 {
      var n := |t| - 1;
      SweepAbout(t[..n], ready, eof, fd);
      AboutConcat(SweepLog(t[..n], ready, eof), ServeSlot(t[n], ready, eof), fd);
      AboutSlot(t[n], ready, eof, fd);
      LastEntry(t);
    }
  }

  lemma {:induction false} SweepInTableOrder(t: seq<int>, u: seq<int>, ready: set<int>, eof: set<int>)
    ensures SweepLog(t + u, ready, eof) == SweepLog(t, ready, eof) + SweepLog(u, ready, eof)
  {
    if |u| == 0 {
      assert t + u == t;
    } else {
      var n := |u| - 1;
      assert (t + u)[..|t + u| - 1] == t + u[..n];
      SweepInTableOrder(t, u[..n], ready, eof);
      Regroup(SweepLog(t, ready, eof), SweepLog(u[..n], ready, eof), ServeSlot(u[n], ready, eof));
    }
  }

  lemma EntriesAre(t: seq<int>, fd: int)
    requires fd != FREE
    ensures fd in Entries(t) <==> fd in t
  {
  }

  function Calls(log: seq<Action>, a: Action): nat {
    multiset(log)[a]
  }

  lemma LastEntry(t: seq<int>)
    requires |t| > 0 && TableOk(t)
    ensures var last := t[|t| - 1];
      && Entries(t) == Entries(t[..|t| - 1]) + (if last == FREE then {} else {last})
      && last !in Entries(t[..|t| - 1])
  {
    var n := |t| - 1;
    assert t[..n + 1] == t;
    EntriesExtend(t, n);
    forall x | x in Entries(t[..n]) ensures x != t[n] {
      var i :| 0 <= i < n && t[..n][i] != FREE && t[..n][i] == x;
      assert t[i] == x;
    }
  }

  lemma SlotCalls(slot: int, ready: set<int>, eof: set<int>, fd: int)
    requires fd != FREE
    ensures var log, hit := ServeSlot(slot, ready, eof), fd == slot && fd in ready;
      && Calls(log, Read(fd)) == (if hit then 1 else 0)
      && Calls(log, Close(fd)) == (if hit then 1 else 0)
      && Calls(log, Reply(fd)) == (if hit && fd !in eof then 1 else 0)
  {
  }

  lemma {:induction false} SweepCalls(t: seq<int>, ready: set<int>, eof: set<int>, fd: int)
    requires TableOk(t) && fd != FREE
    ensures var log, hit := SweepLog(t, ready, eof), fd in Entries(t) && fd in ready;
      && Calls(log, Read(fd)) == (if hit then 1 else 0)
      && Calls(log, Close(fd)) == (if hit then 1 else 0)
      && Calls(log, Reply(fd)) == (if hit && fd !in eof then 1 else 0)
  {
    if |t| != 0 {
      var n := |t| - 1;
      SweepCalls(t[..n], ready, eof, fd);
      SlotCalls(t[n], ready, eof, fd);
      LastEntry(t);
    }
  }

  /** Exactly the reported clients are read and closed, once each, and answered unless their
      connection had ended; nothing is done with any other descriptor. */
  lemma TurnServesReported(s: Server, input: Input, fd: int)
    requires Inv(s) && Legal(s, input) && fd != FREE
    requires !(input.Input? && s.listener in input.ready && fd == input.accepted)
    ensures var (s', log) := Turn(s, input);
      var hit := input.Input? && (s.listener in input.ready ==> input.accepted >= 0)
                 && fd in s.table && fd in input.ready;
      && Calls(log, Read(fd)) == (if hit then 1 else 0)
      && Calls(log, Close(fd)) == (if hit then 1 else 0)
      && Calls(log, Reply(fd)) == (if hit && fd !in input.eof then 1 else 0)
      && (fd in s'.open <==> fd in s.open && !hit)
      && (fd in s'.table <==> fd in s.table && !hit)
      && About(log, fd) == (if !hit then []
                            else if fd in input.eof then [Read(fd), Close(fd)]
                            else [Read(fd), Reply(fd), Close(fd)])
  {
    if !Skips(s, input) {
      if Accepts(s, input) {
        InsertEntries(s.table, input.accepted);
      }
      SweepCalls(Swept(s, input), input.ready, input.eof, fd);
      SweepAbout(Swept(s, input), input.ready, input.eof, fd);
      SweepEntries(Swept(s, input), input.ready);
    }
    EntriesAre(s.table, fd);
    EntriesAre(Turn(s, input).0.table, fd);
  }

  /** A client just accepted is in the fd set of no turn before the next one: it is not read
      in the turn that accepts it, and it is listed unless all slots were taken. */
  lemma NewcomerWaits(s: Server, input: Input)
    requires Inv(s) && Legal(s, input)
    requires input.Input? && s.listener in input.ready && input.accepted >= 0
    ensures var ((s', log), fd) := (Turn(s, input), input.accepted);
      && Calls(log, Read(fd)) == Calls(log, Close(fd)) == 0
      && fd in s'.open
      && (fd in s'.table <==> FREE in s.table)
      && (fd in s'.lost <==> FREE !in s.table)
  {
    InsertEntries(s.table, input.accepted);
    SweepCalls(Swept(s, input), input.ready, input.eof, input.accepted);
    SweepEntries(Swept(s, input), input.ready);
    EntriesAre(Turn(s, input).0.table, input.accepted);
  }

  // ----- Runs -----

  ghost predicate IsRun(s: Server, inputs: seq<Input>)
    decreases |inputs|
  {
    |inputs| == 0 || (Legal(s, inputs[0]) && IsRun(Turn(s, inputs[0]).0, inputs[1..]))
  }

  ghost function Exec(s: Server, inputs: seq<Input>): Server
    decreases |inputs|
  {
    if |inputs| == 0 then s else Exec(Turn(s, inputs[0]).0, inputs[1..])
  }

  /** From an empty table, over any run: the invariant holds, and nothing was lost unless
      some accept found the table full. */
  lemma {:induction false} EveryRun(s: Server, inputs: seq<Input>)
    requires Inv(s) && IsRun(s, inputs)
    ensures Inv(Exec(s, inputs))
    ensures Exec(s, inputs).lost == s.lost ||
      exists k :: 0 <= k < |inputs| && Full(Exec(s, inputs[..k]).table)
                  && Accepts(Exec(s, inputs[..k]), inputs[k])
    decreases |inputs|
  {
    if |inputs| != 0 {
      var s', rest := Turn(s, inputs[0]).0, inputs[1..];
      TurnKeepsInv(s, inputs[0]);
      EveryRun(s', rest);
      if Exec(s, inputs).lost != s.lost {
        if s'.lost != s.lost {
          assert Exec(s, inputs[..0]) == s;
        } else {
          var k :| 0 <= k < |rest| && Full(Exec(s', rest[..k]).table)
                   && Accepts(Exec(s', rest[..k]), rest[k]);
          assert inputs[..k + 1][1..] == rest[..k];
          assert Exec(s, inputs[..k + 1]) == Exec(s', rest[..k]);
        }
      }
    }
  }

  // ----- The program -----

  class SelectLoop {
    const clients: array<int>
    const listener: int
    var readfds: set<int>
    var maxfd: int
    var open: set<int>
    ghost var lost: set<int>
    ghost var log: seq<Action>

    ghost function Abs(): Server
      reads this, clients
    {
      Server(clients[..], listener, open, lost)
    }

    constructor (maxClients: nat, listener: int)
      requires listener >= 0
      ensures fresh(clients) && clients.Length == maxClients && this.listener == listener
      ensures Inv(Abs()) && open == lost == {} && log == []
      ensures forall i | 0 <= i < maxClients :: clients[i] == FREE
    {
      clients := new int[maxClients](_ => FREE);
      this.listener := listener;
      readfds, maxfd, open, lost, log := {}, -1, {}, {}, [];
    }

    /** FD_ZERO, FD_SET of the listener and of every entry, and the running maximum. */
    method BuildFdSet()
      modifies this`readfds, this`maxfd
      ensures readfds == Watched(Abs())
      ensures forall fd :: fd in readfds <==> fd == listener || (fd != FREE && fd in clients[..])
      ensures maxfd in readfds && forall fd | fd in readfds :: fd <= maxfd
    {
      readfds, maxfd := {listener}, listener;
      for i := 0 to clients.Length
        invariant readfds == {listener} + Entries(clients[..i])
        invariant maxfd in readfds && forall fd | fd in readfds :: fd <= maxfd
      {
        var fd := clients[i];
        EntriesExtend(clients[..], i);
        if fd != FREE {
          readfds := readfds + {fd};
          if fd > maxfd {
            maxfd := fd;
          }
        }
      }
      assert clients[..clients.Length] == clients[..];
      forall fd | fd != FREE ensures fd in Entries(clients[..]) <==> fd in clients[..] {
        EntriesAre(clients[..], fd);
      }
    }

    /** The first free slot takes the new client; without one nothing is stored. */
    method StoreClient(fd: int)
      modifies clients
      ensures clients[..] == Insert(old(clients[..]), fd)
    {
      var i := 0;
      while i < clients.Length && clients[i] != FREE
        invariant i <= clients.Length
        invariant FirstFree(clients[..], 0) == FirstFree(clients[..], i)
      {
        i := i + 1;
      }
      if i < clients.Length {
        clients[i] := fd;
      }
    }

    /** Reads a request, answers it unless the connection has ended, and closes. */
    method Serve(fd: int, eof: set<int>)
      requires fd != FREE
      modifies this`open, this`log
      ensures log == old(log) + ServeSlot(fd, {fd}, eof) && open == old(open) - {fd}
    {
      log := log + [Read(fd)];
      if fd !in eof {
        log := log + [Reply(fd)];
      }
      log := log + [Close(fd)];
      open := open - {fd};
    }

    /** What follows an `accept` that yields fd. */
    method Admit(fd: int)
      requires TableOk(clients[..]) && fd >= 0 && fd !in Entries(clients[..])
      modifies clients, this`open, this`lost
      ensures clients[..] == Insert(old(clients[..]), fd) && TableOk(clients[..])
      ensures open == old(open) + {fd}
      ensures lost == old(lost) + if Full(old(clients[..])) then {fd} else {}
    {
      InsertEntries(clients[..], fd);
      open := open + {fd};
      if Full(clients[..]) {
        lost := lost + {fd};
      }
      StoreClient(fd);
    }

    /** The service sweep over the table. */
    method ServicePass(ready: set<int>, eof: set<int>)
      requires TableOk(clients[..])
      modifies clients, this`open, this`log
      ensures clients[..] == Sweep(old(clients[..]), ready)
      ensures log == old(log) + SweepLog(old(clients[..]), ready, eof)
      ensures open == old(open) - Entries(old(clients[..])) * ready
    {
      ghost var was := clients[..];
      for i := 0 to clients.Length
        invariant forall k | 0 <= k < clients.Length ::
          clients[k] == if k < i then Sweep(was, ready)[k] else was[k]
        invariant log == old(log) + SweepLog(was[..i], ready, eof)
        invariant open == old(open) - Entries(was[..i]) * ready
      {
        var fd := clients[i];
        EntriesExtend(was, i);
        assert was[..i + 1][..i] == was[..i];
        if fd != FREE && fd in ready {
          Serve(fd, eof);
          clients[i] := FREE;
        }
      }
      assert was[..clients.Length] == was;
    }

    /** One turn of the server's endless loop; `input` is what `select`, `accept` and `read`
        yield in it. The fd set at the call of `select` is exactly what it should be. */
    method OneTurn(input: Input)
      requires Inv(Abs()) && Legal(Abs(), input)
      modifies this, clients
      ensures Inv(Abs())
      ensures forall fd :: fd in readfds <==> fd == listener || (fd != FREE && fd in old(clients[..]))
      ensures maxfd in readfds && forall fd | fd in readfds :: fd <= maxfd
      ensures Abs() == Turn(old(Abs()), input).0
      ensures log == old(log) + Turn(old(Abs()), input).1
    {
      TurnKeepsInv(Abs(), input);
      BuildFdSet();
      if input.SelectFails? {
        return;
      }
      if listener in input.ready {
        if input.accepted < 0 {
          return;
        }
        Admit(input.accepted);
      }
      ServicePass(input.ready, input.eof);
    }
  }

  lemma EntriesExtend(t: seq<int>, i: nat)
    requires i < |t|
    ensures Entries(t[..i + 1]) == Entries(t[..i]) + if t[i] == FREE then {} else {t[i]}
  {
    forall x | x in Entries(t[..i + 1]) ensures x in Entries(t[..i]) || x == t[i] {
      var k :| 0 <= k < i + 1 && t[k] != FREE && t[k] == x;
      assert k == i || t[..i][k] == x;
    }
    forall x | x in Entries(t[..i]) ensures x in Entries(t[..i + 1]) {
      var k :| 0 <= k < i && t[k] != FREE && t[k] == x;
      assert t[..i + 1][k] == x;
    }
    assert t[..i + 1][i] == t[i];
  }
}
