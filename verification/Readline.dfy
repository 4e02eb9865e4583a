/** `readline` of the chat client (and server) in advUNIX/simpleChatting: bytes are read one
    at a time up to a newline, the end of the stream, or a full buffer. */
module Readline {

  /** What successive `read(fd, &c, 1)` calls yield: 1, 0, or -1. */
  datatype Event = Byte(c: char) | Eof | Error

  function At(input: seq<Event>, pos: nat): Event {
    if pos < |input| then input[pos] else Eof
  }

  /** The characters put into the buffer, the return value, and the stream position after. */
  datatype Outcome = Outcome(stored: string, ret: nat, pos: nat)

  /** The loop, entered with counter n. */
  function Loop(input: seq<Event>, pos: nat, n: nat, maxlen: int): Outcome
    decreases maxlen - n
  {
    if maxlen <= n then Outcome("", n, pos)
    else match At(input, pos)
      case Byte(c) =>
        if c == '\n' then Outcome([c], n, pos + 1)
        else
          var rest := Loop(input, pos + 1, n + 1, maxlen);
          rest.(stored := [c] + rest.stored)
      case Eof => Outcome("", if n == 1 then 0 else n, pos + 1)
      case Error => Loop(input, pos + 1, n + 1, maxlen)
  }

  /** The bytes the stream delivers from position a up to position b. */
  function Bytes(input: seq<Event>, a: nat, b: nat): string
    decreases b - a
  {
    if b <= a then ""
    else (if At(input, a).Byte? then [At(input, a).c] else "") + Bytes(input, a + 1, b)
  }

  function Errors(input: seq<Event>, a: nat, b: nat): nat
    decreases b - a
  {
    if b <= a then 0
    else (if At(input, a).Error? then 1 else 0) + Errors(input, a + 1, b)
  }

  predicate EndsLine(s: string) {
    |s| > 0 && s[|s| - 1] == '\n'
  }

  /** One call keeps every byte it consumes, in order, stops at the first newline, and fits
      the buffer with its terminator. Its result counts one for each stored byte, one for
      each failed read, and one more unless a newline was stored; it is 0 exactly when the
      first read already finds the end. */
  lemma {:induction false} CallIsFaithful(input: seq<Event>, pos: nat, n: nat, maxlen: int)
    requires 1 <= n
    ensures var o := Loop(input, pos, n, maxlen);
      && pos <= o.pos && (n < maxlen ==> pos < o.pos)
      && o.stored == Bytes(input, pos, o.pos)
      && (n <= maxlen ==> |o.stored| <= maxlen - n)
      && (forall i | 0 <= i < |o.stored| - 1 :: o.stored[i] != '\n')
      && (o.ret == 0 <==> n == 1 < maxlen && At(input, pos) == Eof)
      && (o.ret != 0 ==>
            o.ret == n - 1 + |o.stored| + Errors(input, pos, o.pos) + if EndsLine(o.stored) then 0 else 1)
    decreases maxlen - n
  {
    if n < maxlen {
      var o := Loop(input, pos, n, maxlen);
      if At(input, pos).Error? || (At(input, pos).Byte? && At(input, pos).c != '\n') {
        CallIsFaithful(input, pos + 1, n + 1, maxlen);
        assert Bytes(input, pos, o.pos)
            == (if At(input, pos).Byte? then [At(input, pos).c] else "") + Bytes(input, pos + 1, o.pos);
      } else {
        assert Bytes(input, pos + 1, pos + 1) == "";
      }
    }
  }

  /** An event after which a call reads no further. */
  predicate Stops(e: Event) {
    e == Eof || e == Byte('\n')
  }

  /** When a call ends: with the first newline or end of stream it meets, or after as many
      reads as the buffer has room for, and not before. */
  lemma {:induction false} CallEnds(input: seq<Event>, pos: nat, n: nat, maxlen: int)
    requires 1 <= n < maxlen
    ensures var o := Loop(input, pos, n, maxlen);
      && pos < o.pos && o.pos - pos <= maxlen - n
      && (forall q: nat | pos <= q < o.pos - 1 :: !Stops(At(input, q)))
      && (Stops(At(input, o.pos - 1)) || o.pos - pos == maxlen - n)
      && (EndsLine(o.stored) <==> At(input, o.pos - 1) == Byte('\n'))
    decreases maxlen - n
  {
    if !Stops(At(input, pos)) && n + 1 < maxlen {
      CallEnds(input, pos + 1, n + 1, maxlen);
    }
  }

  /** Without read errors a nonzero result is the stored length after a full line, and one
      more than the stored length otherwise. */
  lemma ResultWithoutErrors(input: seq<Event>, pos: nat, maxlen: int)
    requires forall i | 0 <= i < |input| :: !input[i].Error?
    ensures var o := Loop(input, pos, 1, maxlen);
      o.ret != 0 ==> o.ret == |o.stored| + if EndsLine(o.stored) then 0 else 1
  {
    CallIsFaithful(input, pos, 1, maxlen);
    NoErrors(input, pos, Loop(input, pos, 1, maxlen).pos);
  }

  lemma {:induction false} NoErrors(input: seq<Event>, a: nat, b: nat)
    requires forall i | 0 <= i < |input| :: !input[i].Error?
    ensures Errors(input, a, b) == 0
    decreases b - a
  {
    if a < b {
      NoErrors(input, a + 1, b);
    }
  }

  // ----- Successive calls -----

  /** What k calls in a row store, one after the other, and where they leave the stream. */
  function Calls(input: seq<Event>, pos: nat, maxlen: int, k: nat): (string, nat)
    decreases k
  {
    if k == 0 then ("", pos)
    else
      var o := Loop(input, pos, 1, maxlen);
      var (rest, end) := Calls(input, o.pos, maxlen, k - 1);
      (o.stored + rest, end)
  }

  lemma {:induction false} BytesConcat(input: seq<Event>, a: nat, b: nat, c: nat)
    requires a <= b <= c
    ensures Bytes(input, a, c) == Bytes(input, a, b) + Bytes(input, b, c)
    decreases b - a
  {
    if a < b {
      BytesConcat(input, a + 1, b, c);
    }
  }

  /** Nothing is lost or repeated between calls: together they store exactly the bytes
      consumed, and a buffer of two or more lets every call get on. */
  lemma {:induction false} CallsConcatenate(input: seq<Event>, pos: nat, maxlen: int, k: nat)
    ensures var (all, end) := Calls(input, pos, maxlen, k);
      && pos <= end && all == Bytes(input, pos, end)
      && (maxlen >= 2 ==> pos + k <= end)
    decreases k
  {
    if k != 0 {
      var o := Loop(input, pos, 1, maxlen);
      CallIsFaithful(input, pos, 1, maxlen);
      CallsConcatenate(input, o.pos, maxlen, k - 1);
      BytesConcat(input, pos, o.pos, Calls(input, pos, maxlen, k).1);
    }
  }

  lemma {:induction false} BytesPastEnd(input: seq<Event>, a: nat, b: nat)
    requires |input| <= a
    ensures Bytes(input, a, b) == ""
    decreases b - a
  {
    if a < b {
      BytesPastEnd(input, a + 1, b);
    }
  }

  /** So enough calls deliver the whole stream. */
  lemma EnoughCallsReadAll(input: seq<Event>, maxlen: int, k: nat)
    requires maxlen >= 2 && k >= |input|
    ensures Calls(input, 0, maxlen, k).0 == Bytes(input, 0, |input|)
  {
    CallsConcatenate(input, 0, maxlen, k);
    var end := Calls(input, 0, maxlen, k).1;
    BytesConcat(input, 0, |input|, end);
    BytesPastEnd(input, |input|, end);
  }

  // ----- The program -----

  class Stream {
    const input: seq<Event>
    var pos: nat

    constructor (input: seq<Event>)
      ensures this.input == input && pos == 0
    {
      this.input, pos := input, 0;
    }

    /** `read(fd, &c, 1)` */
    method Read() returns (rc: int, c: char)
      modifies this
      ensures pos == old(pos) + 1
      ensures match At(input, old(pos))
        case Byte(b) => rc == 1 && c == b
        case Eof => rc == 0
        case Error => rc == -1
    {
      c := '\0';
      match At(input, pos) {
        case Byte(b) => rc, c := 1, b;
        case Eof => rc := 0;
        case Error => rc := -1;
      }
      pos := pos + 1;
    }
  }

  /** The loop: bytes enter `buf` from the front; `len` is how far `ptr` has moved. */
  method Fill(fd: Stream, buf: array<char>, maxlen: int) returns (n: nat, len: nat)
    requires 1 <= buf.Length && maxlen <= buf.Length
    modifies fd, buf
    ensures var o := Loop(fd.input, old(fd.pos), 1, maxlen);
      && n == o.ret && fd.pos == o.pos && len == |o.stored| < buf.Length
      && buf[..len] == o.stored
    ensures forall k | len <= k < buf.Length :: buf[k] == old(buf[k])
  {
    ghost var o := Loop(fd.input, fd.pos, 1, maxlen);
    len := 0;
    n := 1;
    while n < maxlen
      invariant len < n && (n <= maxlen || n == 1)
      invariant forall k | len <= k < buf.Length :: buf[k] == old(buf[k])
      invariant Ahead(o, buf[..len], Loop(fd.input, fd.pos, n, maxlen))
      decreases maxlen - n
    {
      ghost var had, l := buf[..len], Loop(fd.input, fd.pos, n, maxlen);
      var rc, c := fd.Read();
      if rc == 1 {
        buf[len] := c;
        len := len + 1;
        assert buf[..len] == had + [c];
        assert o.stored == buf[..len] + l.stored[1..];
        if c == '\n' {
          return;
        }
      } else if rc == 0 {
        n := if n == 1 then 0 else n;
        return;
      }
      n := n + 1;
    }
  }

  /** The outcome o is what remains to be done, l, with `had` stored before it. */
  ghost predicate Ahead(o: Outcome, had: string, l: Outcome) {
    o.ret == l.ret && o.pos == l.pos && o.stored == had + l.stored
  }

  /** Fills `buf` and terminates it, except when it returns 0: then `buf` is as before. */
  method ReadLine(fd: Stream, buf: array<char>, maxlen: int) returns (n: nat)
    requires 1 <= buf.Length && maxlen <= buf.Length
    modifies fd, buf
    ensures var o := Loop(fd.input, old(fd.pos), 1, maxlen);
      && n == o.ret && fd.pos == o.pos && |o.stored| < buf.Length
      && (n == 0 ==> buf[..] == old(buf[..]))
      && (n != 0 ==> buf[..|o.stored|] == o.stored && buf[|o.stored|] == '\0')
      && forall k | |o.stored| < k < buf.Length :: buf[k] == old(buf[k])
    ensures maxlen > 1 ==>
      && (forall q: nat | old(fd.pos) <= q < fd.pos - 1 :: !Stops(At(fd.input, q)))
      && 0 < fd.pos - old(fd.pos) <= maxlen - 1
      && (Stops(At(fd.input, fd.pos - 1)) || fd.pos - old(fd.pos) == maxlen - 1)
    ensures n != 0 ==>
      var text := Bytes(fd.input, old(fd.pos), fd.pos);
      |text| < buf.Length && buf[..|text|] == text && buf[|text|] == '\0'
  {
    if maxlen > 1 {
      CallEnds(fd.input, fd.pos, 1, maxlen);
    }
    CallIsFaithful(fd.input, fd.pos, 1, maxlen);
    var len;
    n, len := Fill(fd, buf, maxlen);
    if n != 0 {
      buf[len] := '\0';
    }
  }
}
