/** The member list of the chat server in advUNIX/simpleChatting: clients join at the end,
    leave by having the last member moved into their place, and every other message goes to
    all members. */
module ChatRoom {
  import ExitCheck
  import opened Sequences

  const ESCAPE: string := "exit\n"

  /** What one sweep over the members does, in order. */
  datatype Action =
    | Broadcast(from: int, to: seq<int>, text: string)
    | Leave(who: int)

  function Actor(a: Action): int {
    match a case Broadcast(from, _, _) => from case Leave(who) => who
  }

  function Actors(log: seq<Action>): seq<int> {
    seq(|log|, i requires 0 <= i < |log| => Actor(log[i]))
  }

  /** The terminator occurs in the message, and no copy of its first character before it. */
  ghost predicate WantsOut(text: string) {
    var line := ExitCheck.CString(text);
    exists j: nat :: ExitCheck.OccursAt(line, ESCAPE, j) && ESCAPE[0] !in line[..j]
  }

  /** This is what the server's loop finds out about a message; the terminator is "exit",
      newline. */
  lemma WantsOutIff(text: string, line: string)
    requires line == ExitCheck.CString(text)
    ensures WantsOut(text) <==> ExitCheck.FirstHitEnds(line, ESCAPE, 5)
    ensures WantsOut(text) <==>
      exists j: nat :: ExitCheck.OccursAt(line, "exit\n", j) && 'e' !in line[..j]
  {
    assert ESCAPE[..5] == ESCAPE;
    ExitCheck.FoundIff(line, ESCAPE, 5);
  }

  /** The list without position i: the last member takes its place. */
  function SwapRemove(ms: seq<int>, i: nat): (r: seq<int>)
    requires i < |ms|
    ensures |r| == |ms| - 1
  {
    ms[i := ms[|ms| - 1]][..|ms| - 1]
  }

  predicate Speaks(fd: int, ready: set<int>, inbox: map<int, string>) {
    fd in ready && fd in inbox
  }

  /** What the member at position i makes the server do. */
  ghost function Act(ms: seq<int>, i: nat, ready: set<int>, inbox: map<int, string>): (r: seq<Action>)
    requires i < |ms|
    ensures |r| <= 1
  {
    if !Speaks(ms[i], ready, inbox) then []
    else if WantsOut(inbox[ms[i]]) then [Leave(ms[i])]
    else [Broadcast(ms[i], ms, inbox[ms[i]])]
  }

  ghost function After(ms: seq<int>, i: nat, ready: set<int>, inbox: map<int, string>): (r: seq<int>)
    requires i < |ms|
    ensures |r| <= |ms|
  {
    if Speaks(ms[i], ready, inbox) && WantsOut(inbox[ms[i]]) then SwapRemove(ms, i) else ms
  }

  /** The sweep from position i on. `ready` is what `select` reported, and `inbox` holds the
      text of every descriptor whose `recv` returns more than 0. */
  ghost function Sweep(ms: seq<int>, i: nat, ready: set<int>, inbox: map<int, string>): (seq<int>, seq<Action>)
    decreases |ms| - i
  {
    if |ms| <= i then (ms, [])
    else
      var (ms', log) := Sweep(After(ms, i, ready, inbox), i + 1, ready, inbox);
      (ms', Act(ms, i, ready, inbox) + log)
  }

  // ----- One visit -----

  /** Visiting position i removes at most its own member, and moves nobody between the
      positions still to be visited. */
  lemma VisitKeeps(ms: seq<int>, i: nat, ready: set<int>, inbox: map<int, string>)
    requires Distinct(ms) && i < |ms|
    ensures var next := After(ms, i, ready, inbox);
      && Distinct(next)
      && (forall x :: x in next <==> x in ms && Leave(x) !in Act(ms, i, ready, inbox))
      && (forall k | i < k < |next| :: next[k] == ms[k])
  {
    var next, n := After(ms, i, ready, inbox), |ms| - 1;
    forall x | x in ms && x != ms[i] ensures x in next {
      var k :| 0 <= k <= n && ms[k] == x;
      assert next[if k < |next| then k else i] == x;
    }
  }

  // ----- One sweep -----

  /** x stands at position i or later. */
  predicate AtOrAfter(ms: seq<int>, i: nat, x: int) {
    exists k :: i <= k < |ms| && ms[k] == x
  }

  ghost predicate Proper(ms: seq<int>, i: nat, ready: set<int>, inbox: map<int, string>, a: Action) {
    && AtOrAfter(ms, i, Actor(a)) && Speaks(Actor(a), ready, inbox)
    && (a.Leave? <==> WantsOut(inbox[Actor(a)]))
    && (a.Broadcast? ==> a.text == inbox[a.from])
  }

  ghost predicate AllProper(ms: seq<int>, i: nat, ready: set<int>, inbox: map<int, string>, log: seq<Action>) {
    forall b | 0 <= b < |log| :: Proper(ms, i, ready, inbox, log[b])
  }

  lemma ProperEarlier(ms: seq<int>, i: nat, ready: set<int>, inbox: map<int, string>, log: seq<Action>)
    requires Distinct(ms) && i < |ms|
    requires AllProper(After(ms, i, ready, inbox), i + 1, ready, inbox, log)
    ensures AllProper(ms, i, ready, inbox, log)
    ensures forall b | 0 <= b < |log| :: Actor(log[b]) != ms[i]
  {
    var next := After(ms, i, ready, inbox);
    VisitKeeps(ms, i, ready, inbox);
    forall b | 0 <= b < |log|
      ensures Actor(log[b]) != ms[i] && Proper(ms, i, ready, inbox, log[b])
    {
      assert Proper(next, i + 1, ready, inbox, log[b]);
      var k :| i + 1 <= k < |next| && next[k] == Actor(log[b]);
      assert ms[k] == next[k];
    }
  }

  lemma Prepend(x: int, q: seq<int>)
    requires Distinct(q) && x !in q
    ensures Distinct([x] + q)
  {
  }

  lemma ActsOnceMore(ms: seq<int>, i: nat, ready: set<int>, inbox: map<int, string>, rest: seq<Action>)
    requires i < |ms| && Distinct(Actors(rest))
    requires forall b | 0 <= b < |rest| :: Actor(rest[b]) != ms[i]
    ensures Distinct(Actors(Act(ms, i, ready, inbox) + rest))
  {
    var act := Act(ms, i, ready, inbox);
    if |act| == 1 {
      Prepend(ms[i], Actors(rest));
      assert Actors(act + rest) == [ms[i]] + Actors(rest);
    } else {
      assert act + rest == rest;
    }
  }

  lemma ActsProperly(ms: seq<int>, i: nat, ready: set<int>, inbox: map<int, string>, rest: seq<Action>)
    requires i < |ms| && AllProper(ms, i, ready, inbox, rest)
    ensures AllProper(ms, i, ready, inbox, Act(ms, i, ready, inbox) + rest)
  {
    var act := Act(ms, i, ready, inbox);
    forall b | 0 <= b < |act + rest| ensures Proper(ms, i, ready, inbox, (act + rest)[b]) {
      if b < |act| {
        assert AtOrAfter(ms, i, ms[i]);
      } else {
        assert (act + rest)[b] == rest[b - |act|];
      }
    }
  }

  /** Swap-remove makes nobody act twice: whoever acts stood at position i or later, had
      something to say, and acts once. */
  lemma {:induction false} SweepActors(ms: seq<int>, i: nat, ready: set<int>, inbox: map<int, string>)
    requires Distinct(ms)
    ensures var log := Sweep(ms, i, ready, inbox).1;
      Distinct(Actors(log)) && AllProper(ms, i, ready, inbox, log)
    decreases |ms| - i
  {
    if i < |ms| {
      var next, act := After(ms, i, ready, inbox), Act(ms, i, ready, inbox);
      var rest := Sweep(next, i + 1, ready, inbox).1;
      VisitKeeps(ms, i, ready, inbox);
      SweepActors(next, i + 1, ready, inbox);
      ProperEarlier(ms, i, ready, inbox, rest);
      ActsOnceMore(ms, i, ready, inbox, rest);
      ActsProperly(ms, i, ready, inbox, rest);
    }
  }

  /** Afterwards the members are those from before without those who left, each once. */
  lemma {:induction false} SweepMembers(ms: seq<int>, i: nat, ready: set<int>, inbox: map<int, string>)
    requires Distinct(ms)
    ensures var (ms', log) := Sweep(ms, i, ready, inbox);
      && Distinct(ms')
      && forall x :: x in ms' <==> x in ms && Leave(x) !in log
    decreases |ms| - i
  {
    if i < |ms| {
      VisitKeeps(ms, i, ready, inbox);
      SweepMembers(After(ms, i, ready, inbox), i + 1, ready, inbox);
    }
  }

  /** A broadcast at place b of the log reaches exactly the members of that moment, each
      once: those from before the sweep without those who left earlier in it. */
  ghost predicate Reaches(ms: seq<int>, log: seq<Action>, b: nat)
    requires b < |log|
  {
    log[b].Broadcast? ==>
      && Distinct(log[b].to)
      && forall x :: x in log[b].to <==> x in ms && Leave(x) !in log[..b]
  }

  ghost predicate AllReach(ms: seq<int>, log: seq<Action>) {
    forall b | 0 <= b < |log| :: Reaches(ms, log, b)
  }

  lemma {:induction false} SweepBroadcasts(ms: seq<int>, i: nat, ready: set<int>, inbox: map<int, string>)
    requires Distinct(ms)
    ensures AllReach(ms, Sweep(ms, i, ready, inbox).1)
    decreases |ms| - i
  {
    if i < |ms| {
      var next, act := After(ms, i, ready, inbox), Act(ms, i, ready, inbox);
      var rest := Sweep(next, i + 1, ready, inbox).1;
      var log := act + rest;
      VisitKeeps(ms, i, ready, inbox);
      SweepBroadcasts(next, i + 1, ready, inbox);
      forall b | 0 <= b < |log| ensures Reaches(ms, log, b) {
        if |act| <= b {
          assert log[..b] == act + rest[..b - |act|];
          assert Reaches(next, rest, b - |act|);
        }
      }
    }
  }

  predicate Before(ms: seq<int>, x: int, y: int) {
    exists j, k :: 0 <= j < k < |ms| && ms[j] == x && ms[k] == y
  }

  ghost predicate InListOrder(ms: seq<int>, log: seq<Action>) {
    forall b, c | 0 <= b < c < |log| :: Before(ms, Actor(log[b]), Actor(log[c]))
  }

  /** Both are ahead of position i, and in this order after the visit there. */
  lemma StillBefore(ms: seq<int>, i: nat, ready: set<int>, inbox: map<int, string>, x: int, y: int)
    requires Distinct(ms) && i < |ms| && x != ms[i] && y != ms[i]
    requires AtOrAfter(After(ms, i, ready, inbox), i + 1, x)
    requires AtOrAfter(After(ms, i, ready, inbox), i + 1, y)
    requires Before(After(ms, i, ready, inbox), x, y)
    ensures Before(ms, x, y)
  {
    var next := After(ms, i, ready, inbox);
    VisitKeeps(ms, i, ready, inbox);
    var j, k :| 0 <= j < k < |next| && next[j] == x && next[k] == y;
    var j' :| i + 1 <= j' < |next| && next[j'] == x;
    var k' :| i + 1 <= k' < |next| && next[k'] == y;
    assert j == j' && k == k';
    assert ms[j] == x && ms[k] == y;
  }

  lemma FirstBefore(ms: seq<int>, i: nat, ready: set<int>, inbox: map<int, string>, y: int)
    requires Distinct(ms) && i < |ms| && AtOrAfter(After(ms, i, ready, inbox), i + 1, y)
    ensures Before(ms, ms[i], y)
  {
    var next := After(ms, i, ready, inbox);
    VisitKeeps(ms, i, ready, inbox);
    var k :| i + 1 <= k < |next| && next[k] == y;
    assert ms[k] == y;
  }

  lemma OrderKept(ms: seq<int>, i: nat, ready: set<int>, inbox: map<int, string>, rest: seq<Action>)
    requires Distinct(ms) && i < |ms|
    requires AllProper(After(ms, i, ready, inbox), i + 1, ready, inbox, rest)
    requires InListOrder(After(ms, i, ready, inbox), rest)
    ensures InListOrder(ms, rest)
  {
    ProperEarlier(ms, i, ready, inbox, rest);
    forall b, c | 0 <= b < c < |rest| ensures Before(ms, Actor(rest[b]), Actor(rest[c])) {
      assert Proper(After(ms, i, ready, inbox), i + 1, ready, inbox, rest[b]);
      assert Proper(After(ms, i, ready, inbox), i + 1, ready, inbox, rest[c]);
      StillBefore(ms, i, ready, inbox, Actor(rest[b]), Actor(rest[c]));
    }
  }

  lemma FirstInOrder(ms: seq<int>, act: seq<Action>, rest: seq<Action>)
    requires |act| <= 1 && InListOrder(ms, rest)
    requires forall c | 0 <= c < |rest| :: |act| == 1 ==> Before(ms, Actor(act[0]), Actor(rest[c]))
    ensures InListOrder(ms, act + rest)
  {
    var log, n := act + rest, |act|;
    forall b, c | 0 <= b < c < |log| ensures Before(ms, Actor(log[b]), Actor(log[c])) {
      assert log[c] == rest[c - n];
      if n <= b {
        assert log[b] == rest[b - n];
      }
    }
  }

  /** The sweep goes through the list from front to back. */
  lemma {:induction false} SweepInListOrder(ms: seq<int>, i: nat, ready: set<int>, inbox: map<int, string>)
    requires Distinct(ms)
    ensures InListOrder(ms, Sweep(ms, i, ready, inbox).1)
    decreases |ms| - i
  {
    if i < |ms| {
      var next := After(ms, i, ready, inbox);
      VisitKeeps(ms, i, ready, inbox);
      SweepActors(next, i + 1, ready, inbox);
      var rest := Sweep(next, i + 1, ready, inbox).1;
      SweepInListOrder(next, i + 1, ready, inbox);
      OrderKept(ms, i, ready, inbox, rest);
      forall c | 0 <= c < |rest| ensures Before(ms, ms[i], Actor(rest[c])) {
        assert Proper(next, i + 1, ready, inbox, rest[c]);
        FirstBefore(ms, i, ready, inbox, Actor(rest[c]));
      }
      FirstInOrder(ms, Act(ms, i, ready, inbox), rest);
    }
  }

  /** While nobody leaves, everyone with something to say acts. */
  lemma {:induction false} NobodyMissedWithoutLeavers(
    ms: seq<int>, i: nat, ready: set<int>, inbox: map<int, string>, k: nat)
    requires i <= k < |ms| && Speaks(ms[k], ready, inbox)
    requires forall j | i <= j < |ms| && Speaks(ms[j], ready, inbox) :: !WantsOut(inbox[ms[j]])
    ensures Broadcast(ms[k], ms, inbox[ms[k]]) in Sweep(ms, i, ready, inbox).1
    decreases |ms| - i
  {
    assert After(ms, i, ready, inbox) == ms;
    if i < k {
      NobodyMissedWithoutLeavers(ms, i + 1, ready, inbox, k);
    } else {
      assert Act(ms, i, ready, inbox)[0] == Broadcast(ms[k], ms, inbox[ms[k]]);
    }
  }

  /** How many of the members at positions i to k-1 have something to say and want out. */
  ghost function Going(ms: seq<int>, i: nat, k: nat, ready: set<int>, inbox: map<int, string>): nat
    requires k <= |ms|
    decreases k - i
  {
    if k <= i then 0
    else (if Speaks(ms[i], ready, inbox) && WantsOut(inbox[ms[i]]) then 1 else 0)
         + Going(ms, i + 1, k, ready, inbox)
  }

  lemma {:induction false} GoingAgrees(
    ms: seq<int>, ms': seq<int>, i: nat, k: nat, ready: set<int>, inbox: map<int, string>)
    requires k <= |ms| && k <= |ms'| && forall j | i <= j < k :: ms[j] == ms'[j]
    ensures Going(ms, i, k, ready, inbox) == Going(ms', i, k, ready, inbox)
    decreases k - i
  {
    if i < k {
      GoingAgrees(ms, ms', i + 1, k, ready, inbox);
    }
  }

  lemma ActorsSplit(ms: seq<int>, i: nat, ready: set<int>, inbox: map<int, string>, x: int)
    requires i < |ms|
    ensures x in Actors(Sweep(ms, i, ready, inbox).1) <==>
      || (x == ms[i] && Speaks(x, ready, inbox))
      || x in Actors(Sweep(After(ms, i, ready, inbox), i + 1, ready, inbox).1)
  {
    var act := Act(ms, i, ready, inbox);
    var rest := Sweep(After(ms, i, ready, inbox), i + 1, ready, inbox).1;
    assert Actors(act + rest) == Actors(act) + Actors(rest);
    assert |act| == 1 ==> Actors(act) == [ms[i]];
  }

  /** Nobody acts from a position that has been visited or is gone. */
  lemma OnlyAhead(ms: seq<int>, i: nat, ready: set<int>, inbox: map<int, string>, x: int)
    requires Distinct(ms) && forall k | i <= k < |ms| :: ms[k] != x
    ensures x !in Actors(Sweep(ms, i, ready, inbox).1)
  {
    var log := Sweep(ms, i, ready, inbox).1;
    SweepActors(ms, i, ready, inbox);
    forall b | 0 <= b < |log| ensures Actors(log)[b] != x {
      assert Proper(ms, i, ready, inbox, log[b]);
    }
  }

  /** Who is served: the member at position k, exactly if it has something to say and the
      list is still longer than k when the sweep gets there. */
  lemma {:induction false} ServedIff(ms: seq<int>, i: nat, k: nat, ready: set<int>, inbox: map<int, string>)
    requires Distinct(ms) && i <= k < |ms|
    ensures ms[k] in Actors(Sweep(ms, i, ready, inbox).1) <==>
      Speaks(ms[k], ready, inbox) && k + Going(ms, i, k, ready, inbox) < |ms|
    decreases |ms| - i
  {
    var next := After(ms, i, ready, inbox);
    ActorsSplit(ms, i, ready, inbox, ms[k]);
    VisitKeeps(ms, i, ready, inbox);
    if i < k < |next| {
      GoingAgrees(ms, next, i + 1, k, ready, inbox);
      ServedIff(next, i + 1, k, ready, inbox);
    } else {
      NotAhead(ms, i, k, ready, inbox);
    }
  }

  /** A member visited now, or moved into the place visited now, does not act later on. */
  lemma NotAhead(ms: seq<int>, i: nat, k: nat, ready: set<int>, inbox: map<int, string>)
    requires Distinct(ms) && i <= k < |ms|
    requires i == k || |After(ms, i, ready, inbox)| <= k
    ensures ms[k] !in Actors(Sweep(After(ms, i, ready, inbox), i + 1, ready, inbox).1)
  {
    var next := After(ms, i, ready, inbox);
    VisitKeeps(ms, i, ready, inbox);
    assert forall j | i + 1 <= j < |next| :: next[j] == ms[j];
    OnlyAhead(next, i + 1, ready, inbox, ms[k]);
  }

  /** So everyone with something to say is served exactly if no speaker stands so far back
      that the leavers before it have shortened the list to its position. */
  lemma EveryoneServedIff(ms: seq<int>, ready: set<int>, inbox: map<int, string>)
    requires Distinct(ms)
    ensures (forall x | x in ms && Speaks(x, ready, inbox) :: x in Actors(Sweep(ms, 0, ready, inbox).1)) <==>
      (forall k | 0 <= k < |ms| && Speaks(ms[k], ready, inbox) :: k + Going(ms, 0, k, ready, inbox) < |ms|)
  {
    forall k | 0 <= k < |ms|
      ensures ms[k] in Actors(Sweep(ms, 0, ready, inbox).1) <==>
        Speaks(ms[k], ready, inbox) && k + Going(ms, 0, k, ready, inbox) < |ms|
    {
      ServedIff(ms, 0, k, ready, inbox);
    }
  }

  /** A member with a message who is missed: two members, and the first one says goodbye. */
  lemma MissedSpeaker(a: int, b: int, text: string)
    requires a != b
    ensures b !in Actors(Sweep([a, b], 0, {a, b}, map[a := ESCAPE, b := text]).1)
  {
    assert ExitCheck.CString(ESCAPE) == ESCAPE;
    assert ExitCheck.OccursAt(ESCAPE, ESCAPE, 0);
    assert WantsOut(ESCAPE);
    assert Going([a, b], 0, 1, {a, b}, map[a := ESCAPE, b := text]) == 1;
    ServedIff([a, b], 0, 1, {a, b}, map[a := ESCAPE, b := text]);
  }

  /** In particular the last member is passed over in the sweep in which anybody before it
      leaves, and stays a member. */
  lemma MovedMemberWaits(ms: seq<int>, i: nat, ready: set<int>, inbox: map<int, string>)
    requires Distinct(ms) && i < |ms| - 1
    requires Going(ms, i, |ms| - 1, ready, inbox) > 0
    ensures var ((ms', log), last) := (Sweep(ms, i, ready, inbox), ms[|ms| - 1]);
      last !in Actors(log) && last in ms'
  {
    var log, last := Sweep(ms, i, ready, inbox).1, ms[|ms| - 1];
    ServedIff(ms, i, |ms| - 1, ready, inbox);
    SweepMembers(ms, i, ready, inbox);
    NoActionNoLeave(log, last);
  }

  lemma NoActionNoLeave(log: seq<Action>, m: int)
    requires m !in Actors(log)
    ensures Leave(m) !in log
  {
    assert forall b | 0 <= b < |log| :: Actors(log)[b] == Actor(log[b]);
  }

  // ----- Runs -----

  /** The member list, with everyone ever accepted and everyone who has left. */
  datatype Chat = Chat(members: seq<int>, everyone: set<int>, left: set<int>)

  /** One turn of the loop: what `select` reports, what `accept` returns if it is called,
      and the texts to be received. */
  datatype Input = Input(ready: set<int>, accepted: int, inbox: map<int, string>)

  function Leavers(log: seq<Action>): set<int> {
    set i | 0 <= i < |log| && log[i].Leave? :: log[i].who
  }

  predicate Joins(listener: int, input: Input) {
    listener in input.ready && input.accepted != -1
  }

  function Joined(listener: int, s: Chat, input: Input): Chat {
    if Joins(listener, input) then
      s.(members := s.members + [input.accepted], everyone := s.everyone + {input.accepted})
    else s
  }

  ghost function Turn(listener: int, s: Chat, input: Input): (Chat, seq<Action>) {
    var s := Joined(listener, s, input);
    var (ms, log) := Sweep(s.members, 0, input.ready, input.inbox);
    (s.(members := ms, left := s.left + Leavers(log)), log)
  }

  /** No descriptor is ever closed, so the kernel never returns one twice; `select` reports
      only descriptors it was ever given. The list has room for `max` members. */
  predicate Legal(listener: int, max: nat, s: Chat, input: Input) {
    && input.ready <= s.everyone + {listener}
    && (Joins(listener, input) ==>
          |s.members| < max && input.accepted !in s.everyone && input.accepted != listener)
  }

  ghost predicate Inv(listener: int, max: nat, s: Chat) {
    && Distinct(s.members) && |s.members| <= max
    && (forall x :: x in s.members <==> x in s.everyone && x !in s.left)
    && s.left <= s.everyone && listener !in s.everyone
  }

  lemma {:induction false} SweepShrinks(ms: seq<int>, i: nat, ready: set<int>, inbox: map<int, string>)
    ensures |Sweep(ms, i, ready, inbox).0| <= |ms|
    decreases |ms| - i
  {
    if i < |ms| {
      SweepShrinks(After(ms, i, ready, inbox), i + 1, ready, inbox);
    }
  }

  lemma LeaversAre(log: seq<Action>, x: int)
    ensures x in Leavers(log) <==> Leave(x) in log
  {
    if Leave(x) in log {
      var i :| 0 <= i < |log| && log[i] == Leave(x);
      assert log[i].who in Leavers(log);
    }
  }

  /** The members are exactly the accepted clients that have not passed `exitCheck`; the
      turn removes those that pass it now, and a newcomer does nothing in its first turn. */
  lemma TurnKeepsInv(listener: int, max: nat, s: Chat, input: Input)
    requires Inv(listener, max, s) && Legal(listener, max, s, input)
    ensures var (s', log) := Turn(listener, s, input);
      && Inv(listener, max, s')
      && Distinct(Actors(log))
      && (forall x :: x in s'.left <==> x in s.left || Leave(x) in log)
      && (forall x | x in s'.left && x !in s.left ::
            x in input.ready && x in input.inbox && WantsOut(input.inbox[x]))
      && (var newcomers := if listener in input.ready && input.accepted != -1 then {input.accepted} else {};
          && s'.everyone == s.everyone + newcomers
          && forall x | x in newcomers :: x !in Actors(log) && x in s'.members)
  {
    var j := Joined(listener, s, input);
    var (s', log) := Turn(listener, s, input);
    SweepMembers(j.members, 0, input.ready, input.inbox);
    SweepActors(j.members, 0, input.ready, input.inbox);
    SweepShrinks(j.members, 0, input.ready, input.inbox);
    forall x ensures x in Leavers(log) <==> Leave(x) in log {
      LeaversAre(log, x);
    }
    forall x | Leave(x) in log
      ensures x in j.members && Speaks(x, input.ready, input.inbox) && WantsOut(input.inbox[x])
    {
      var b :| 0 <= b < |log| && log[b] == Leave(x);
      assert Proper(j.members, 0, input.ready, input.inbox, log[b]);
    }
    if Joins(listener, input) {
      forall b | 0 <= b < |log| ensures Actor(log[b]) != input.accepted {
        assert Proper(j.members, 0, input.ready, input.inbox, log[b]);
      }
      assert input.accepted in j.members by {
        assert j.members[|s.members|] == input.accepted;
      }
    }
  }

  lemma ActsOnce(log: seq<Action>, b: nat, m: int)
    requires Distinct(Actors(log)) && b < |log| && Actor(log[b]) == m
    ensures Leave(m) in log <==> log[b] == Leave(m)
  {
    if Leave(m) in log {
      var c :| 0 <= c < |log| && log[c] == Leave(m);
      assert Actors(log)[b] == Actors(log)[c];
    }
  }

  /** Those who act in a turn are members from before it, each acts once, and they act in the
      order of the list. */
  lemma TurnActors(listener: int, max: nat, s: Chat, input: Input)
    requires Inv(listener, max, s) && Legal(listener, max, s, input)
    ensures var log := Turn(listener, s, input).1;
      && Distinct(Actors(log)) && (forall x | x in Actors(log) :: x in s.members)
      && InListOrder(s.members, log)
  {
    var j, log := Joined(listener, s, input).members, Turn(listener, s, input).1;
    TurnKeepsInv(listener, max, s, input);
    SweepActors(j, 0, input.ready, input.inbox);
    assert Distinct(j);
    SweepInListOrder(j, 0, input.ready, input.inbox);
    forall b | 0 <= b < |log| ensures Actors(log)[b] in s.members {
      assert Proper(j, 0, input.ready, input.inbox, log[b]);
      assert Actors(log)[b] in j;
    }
    forall b, c | 0 <= b < c < |log| ensures Before(s.members, Actor(log[b]), Actor(log[c])) {
      assert Actors(log)[b] in s.members && Actors(log)[c] in s.members;
      InPrefix(s.members, j, Actor(log[b]), Actor(log[c]));
    }
  }

  lemma InPrefix(ms: seq<int>, j: seq<int>, x: int, y: int)
    requires Distinct(j) && ms <= j && x in ms && y in ms && Before(j, x, y)
    ensures Before(ms, x, y)
  {
    var a, b :| 0 <= a < b < |j| && j[a] == x && j[b] == y;
    var c, d :| 0 <= c < |ms| && 0 <= d < |ms| && ms[c] == x && ms[d] == y;
    assert j[c] == x && j[d] == y;
  }

  /** m acts once in `log`: it leaves, or its text goes to exactly the members of `ms` that
      have not left before. */
  ghost predicate Serves(ms: seq<int>, log: seq<Action>, m: int, text: string) {
    if WantsOut(text) then Leave(m) in log
    else
      && Leave(m) !in log
      && exists b :: 0 <= b < |log| && Reaches(ms, log, b)
                     && log[b].Broadcast? && log[b].from == m && log[b].text == text
  }

  lemma SweepServes(ms: seq<int>, ready: set<int>, inbox: map<int, string>, m: int)
    requires Distinct(ms)
    ensures var log := Sweep(ms, 0, ready, inbox).1;
      if m in Actors(log) then m in inbox && Serves(ms, log, m, inbox[m]) else Leave(m) !in log
  {
    var log := Sweep(ms, 0, ready, inbox).1;
    SweepActors(ms, 0, ready, inbox);
    SweepBroadcasts(ms, 0, ready, inbox);
    if m in Actors(log) {
      var b :| 0 <= b < |log| && Actors(log)[b] == m;
      assert Proper(ms, 0, ready, inbox, log[b]) && Reaches(ms, log, b);
      ActsOnce(log, b, m);
    } else {
      NoActionNoLeave(log, m);
    }
  }

  /** What a whole turn does for the member at position k of the list before it: it is served
      exactly if it is reported, has a message, and the list, with a newcomer at its end, is
      still long enough when the sweep gets there. Only those who leave are members no more. */
  lemma TurnServes(listener: int, max: nat, s: Chat, input: Input, k: nat)
    requires Inv(listener, max, s) && Legal(listener, max, s, input) && k < |s.members|
    ensures var ((s', log), m) := (Turn(listener, s, input), s.members[k]);
      var joined := if listener in input.ready && input.accepted != -1 then [input.accepted] else [];
      && (m in Actors(log) <==>
            && m in input.ready && m in input.inbox
            && k + Going(s.members, 0, k, input.ready, input.inbox) < |s.members| + |joined|)
      && (m in Actors(log) ==> Serves(s.members + joined, log, m, input.inbox[m]))
      && (m in s'.members <==> !(m in Actors(log) && WantsOut(input.inbox[m])))
  {
    var j, m := Joined(listener, s, input), s.members[k];
    var joined := if listener in input.ready && input.accepted != -1 then [input.accepted] else [];
    assert j.members == s.members + joined && j.members[k] == m;
    TurnKeepsInv(listener, max, s, input);
    assert Distinct(j.members);
    ServedIff(j.members, 0, k, input.ready, input.inbox);
    GoingAgrees(s.members, j.members, 0, k, input.ready, input.inbox);
    SweepMembers(j.members, 0, input.ready, input.inbox);
    SweepServes(j.members, input.ready, input.inbox, m);
  }

  ghost predicate IsRun(listener: int, max: nat, s: Chat, inputs: seq<Input>)
    decreases |inputs|
  {
    |inputs| == 0 ||
    (&& Legal(listener, max, s, inputs[0])
     && IsRun(listener, max, Turn(listener, s, inputs[0]).0, inputs[1..]))
  }

  ghost function Exec(listener: int, s: Chat, inputs: seq<Input>): Chat
    decreases |inputs|
  {
    if |inputs| == 0 then s else Exec(listener, Turn(listener, s, inputs[0]).0, inputs[1..])
  }

  lemma {:induction false} EveryRun(listener: int, max: nat, s: Chat, inputs: seq<Input>)
    requires Inv(listener, max, s) && IsRun(listener, max, s, inputs)
    ensures Inv(listener, max, Exec(listener, s, inputs))
    decreases |inputs|
  {
    if |inputs| != 0 {
      TurnKeepsInv(listener, max, s, inputs[0]);
      EveryRun(listener, max, Turn(listener, s, inputs[0]).0, inputs[1..]);
    }
  }

  // ----- The program -----

  class Server {
    const client_s: array<int>
    const listener: int
    var num_chat: nat
    ghost var everyone: set<int>
    ghost var left: set<int>
    ghost var log: seq<Action>

    predicate Sized()
      reads this
    {
      num_chat <= client_s.Length
    }

    function Members(): seq<int>
      requires Sized()
      reads this, client_s
    {
      client_s[..num_chat]
    }

    ghost function Abs(): Chat
      requires Sized()
      reads this, client_s
    {
      Chat(Members(), everyone, left)
    }

    constructor (maxSock: nat, listener: int)
      ensures fresh(client_s) && client_s.Length == maxSock && this.listener == listener
      ensures Sized() && Abs() == Chat([], {}, {}) && log == []
    {
      client_s := new int[maxSock](_ => -1);
      this.listener := listener;
      num_chat, everyone, left, log := 0, {}, {}, [];
    }

    /** `shutdown`, the swap, and the shorter count. */
    method Remove(i: nat)
      requires Sized() && i < num_chat
      modifies this`num_chat, this`log, client_s
      ensures Sized() && Members() == SwapRemove(old(Members()), i)
      ensures log == old(log) + [Leave(old(client_s[i]))]
    {
      log := log + [Leave(client_s[i])];
      if i != num_chat - 1 {
        client_s[i] := client_s[num_chat - 1];
      }
      num_chat := num_chat - 1;
    }

    /** The inner loop over all members. */
    method Tell(from: int, text: string)
      requires Sized()
      modifies this`log
      ensures log == old(log) + [Broadcast(from, Members(), text)]
    {
      var to := [];
      for j := 0 to num_chat
        invariant to == client_s[..j]
      {
        to := to + [client_s[j]];
      }
      log := log + [Broadcast(from, to, text)];
    }

    /** One visit of the sweep. */
    method Visit(i: nat, ready: set<int>, inbox: map<int, string>)
      requires Sized() && i < num_chat
      modifies this`num_chat, this`log, client_s
      ensures Sized() && Members() == After(old(Members()), i, ready, inbox)
      ensures log == old(log) + Act(old(Members()), i, ready, inbox)
    {
      var fd := client_s[i];
      if fd in ready && fd in inbox {
        var verdict := ExitCheck.Check(ExitCheck.CString(inbox[fd]), ESCAPE, 5);
        WantsOutIff(inbox[fd], ExitCheck.CString(inbox[fd]));
        if verdict == 1 {
          Remove(i);
          return;
        }
        Tell(fd, inbox[fd]);
      }
    }

    /** A visit brings the sweep forward by one position. */
    method VisitNext(ghost whole: (seq<int>, seq<Action>), ghost done: seq<Action>,
                     i: nat, ready: set<int>, inbox: map<int, string>)
      returns (ghost done': seq<Action>)
      requires Sized() && i < num_chat && Resumes(whole, done, Members(), i, ready, inbox)
      modifies this`num_chat, this`log, client_s
      ensures Sized() && num_chat <= old(num_chat)
      ensures Resumes(whole, done', Members(), i + 1, ready, inbox)
      ensures done <= done' && log == old(log) + done'[|done|..]
    {
      ResumesOn(whole, done, Members(), i, ready, inbox);
      done' := done + Act(Members(), i, ready, inbox);
      Visit(i, ready, inbox);
    }

    /** The sweep over the members; the list may shrink under it. */
    method ServeMembers(ready: set<int>, inbox: map<int, string>)
      requires Sized()
      modifies this`num_chat, this`log, client_s
      ensures Sized() && Members() == Sweep(old(Members()), 0, ready, inbox).0
      ensures log == old(log) + Sweep(old(Members()), 0, ready, inbox).1
    {
      ghost var whole := Sweep(Members(), 0, ready, inbox);
      ghost var done: seq<Action> := [];
      var i := 0;
      while i < num_chat
        invariant Sized() && Resumes(whole, done, Members(), i, ready, inbox) && log == old(log) + done
        decreases num_chat - i
      {
        done := VisitNext(whole, done, i, ready, inbox);
        i := i + 1;
      }
      ResumesToEnd(whole, done, Members(), i, ready, inbox);
    }

    /** One turn of the server's endless loop. */
    method OneTurn(input: Input)
      requires Sized() && Inv(listener, client_s.Length, Abs())
      requires Legal(listener, client_s.Length, Abs(), input)
      modifies this, client_s
      ensures Sized() && Inv(listener, client_s.Length, Abs())
      ensures Abs() == Turn(listener, old(Abs()), input).0
      ensures log == old(log) + Turn(listener, old(Abs()), input).1
    {
      TurnKeepsInv(listener, client_s.Length, Abs(), input);
      if listener in input.ready && input.accepted != -1 {
        client_s[num_chat] := input.accepted;
        num_chat := num_chat + 1;
        everyone := everyone + {input.accepted};
        assert Members() == old(Members()) + [input.accepted];
      }
      assert Abs() == Joined(listener, old(Abs()), input);
      ServeMembers(input.ready, input.inbox);
      left := left + Leavers(Turn(listener, old(Abs()), input).1);
      assert Abs() == Turn(listener, old(Abs()), input).0;
    }
  }

  /** A sweep with outcome `whole` that has done `done` and goes on at position i of `ms`. */
  ghost predicate Resumes(whole: (seq<int>, seq<Action>), done: seq<Action>, ms: seq<int>, i: nat,
                          ready: set<int>, inbox: map<int, string>) {
    var later := Sweep(ms, i, ready, inbox);
    whole.0 == later.0 && whole.1 == done + later.1
  }

  lemma ResumesOn(whole: (seq<int>, seq<Action>), done: seq<Action>, ms: seq<int>, i: nat,
                  ready: set<int>, inbox: map<int, string>)
    requires i < |ms| && Resumes(whole, done, ms, i, ready, inbox)
    ensures Resumes(whole, done + Act(ms, i, ready, inbox), After(ms, i, ready, inbox), i + 1, ready, inbox)
  {
    SweepOn(ms, i, ready, inbox, After(ms, i, ready, inbox), Act(ms, i, ready, inbox));
    Regroup(done, Act(ms, i, ready, inbox), Sweep(After(ms, i, ready, inbox), i + 1, ready, inbox).1);
  }

  lemma SweepOn(ms: seq<int>, i: nat, ready: set<int>, inbox: map<int, string>, next: seq<int>, act: seq<Action>)
    requires i < |ms| && next == After(ms, i, ready, inbox) && act == Act(ms, i, ready, inbox)
    ensures var (ms', later) := Sweep(next, i + 1, ready, inbox);
      Sweep(ms, i, ready, inbox) == (ms', act + later)
  {
  }

  lemma ResumesToEnd(whole: (seq<int>, seq<Action>), done: seq<Action>, ms: seq<int>, i: nat,
                     ready: set<int>, inbox: map<int, string>)
    requires |ms| <= i && Resumes(whole, done, ms, i, ready, inbox)
    ensures whole == (ms, done)
  {
    assert Sweep(ms, i, ready, inbox) == (ms, []) && done + [] == done;
  }
}
