/** `exitCheck` of the chat server in advUNIX/simpleChatting: does a message end a client's
    stay? Strings are what precedes the terminating NUL. */
module ExitCheck {

  /** The C string at the start of a buffer. */
  function CString(s: string): (r: string)
    ensures r <= s && '\0' !in r && (|r| < |s| ==> s[|r|] == '\0')
  {
    if |s| == 0 || s[0] == '\0' then [] else [s[0]] + CString(s[1..])
  }

  /** `s[0]`, which is NUL for the empty string. */
  function First(s: string): char {
    if |s| == 0 then '\0' else s[0]
  }

  function UpTo(s: string, n: nat): string {
    if n <= |s| then s[..n] else s
  }

  /** `strncmp(a, b, n) == 0` */
  predicate StrnEqual(a: string, b: string, n: nat) {
    UpTo(a, n) == UpTo(b, n)
  }

  /** Where c occurs first at or after `from`, or |line|. */
  function FirstHit(line: string, c: char, from: nat): (k: nat)
    requires from <= |line|
    ensures from <= k <= |line| && (k < |line| ==> line[k] == c)
    ensures forall j | from <= j < k :: line[j] != c
    decreases |line| - from
  {
    if from < |line| && line[from] != c then FirstHit(line, c, from + 1) else from
  }

  /** The first place where the terminator's first character occurs starts the terminator. */
  predicate FirstHitEnds(line: string, esc: string, len: nat) {
    var k := FirstHit(line, First(esc), 0);
    k < |line| && StrnEqual(line[k..], esc, len)
  }

  /** The loop as written: the cursor `tmp` stays where a comparison has failed. */
  method Check(line: string, esc: string, len: nat) returns (r: int)
    requires '\0' !in line && '\0' !in esc
    ensures r == if FirstHitEnds(line, esc, len) then 1 else -1
  {
    var max := |line|;
    var tmp := 0;
    for i := 0 to max
      invariant tmp <= i && FirstHit(line, First(esc), 0) == FirstHit(line, First(esc), tmp)
      invariant tmp < i ==> line[tmp] == First(esc) && !StrnEqual(line[tmp..], esc, len)
    {
      if line[tmp] == First(esc) {
        if StrnEqual(line[tmp..], esc, len) {
          return 1;
        }
      } else {
        tmp := tmp + 1;
      }
    }
    r := -1;
  }

  predicate OccursAt(line: string, pat: string, j: nat) {
    j + |pat| <= |line| && line[j..j + |pat|] == pat
  }

  /** Compared with a search for the terminator: the answer is yes exactly if some occurrence
      of it is preceded by no copy of its first character. */
  lemma FoundIff(line: string, esc: string, len: nat)
    requires 0 < len <= |esc|
    ensures FirstHitEnds(line, esc, len) <==>
      exists j: nat :: OccursAt(line, esc[..len], j) && esc[0] !in line[..j]
  {
    var k := FirstHit(line, esc[0], 0);
    if FirstHitEnds(line, esc, len) {
      assert line[k..][..len] == line[k..k + len];
      assert OccursAt(line, esc[..len], k);
    }
    if j: nat :| OccursAt(line, esc[..len], j) && esc[0] !in line[..j] {
      assert line[j] == line[j..j + len][0];
      assert forall i | 0 <= i < j :: line[i] == line[..j][i];
      assert k == j && line[j..][..len] == line[j..j + len];
    }
  }

  /** So a terminator that is there can go unnoticed. */
  lemma MissedTerminator()
    ensures OccursAt("see you, exit\n", "exit\n", 9)
    ensures !FirstHitEnds("see you, exit\n", "exit\n", 5)
  {
    var line := "see you, exit\n";
    assert FirstHit(line, 'e', 0) == FirstHit(line, 'e', 1) == 1;
    assert line[1..][..5][1] == 'e';
  }
}
