/** The string operations the agent uses, on strings of single-byte characters. */
module Text {

  predicate IsSpace(c: char) {
    9 <= c as int <= 13 || c as int in {32, 0x85, 0xA0}
  }

  function TrimLeft(s: string): string {
    if s != "" && IsSpace(s[0]) then TrimLeft(s[1..]) else s
  }

  function TrimRight(s: string): string {
    if s != "" && IsSpace(s[|s|-1]) then TrimRight(s[..|s|-1]) else s
  }

  function TrimSpace(s: string): string {
    TrimRight(TrimLeft(s))
  }

  /** Neither end is a space. */
  predicate Trimmed(s: string) {
    s == "" || (!IsSpace(s[0]) && !IsSpace(s[|s|-1]))
  }

  lemma TrimmedIsFixed(s: string)
    requires Trimmed(s)
    ensures TrimSpace(s) == s
  {
  }

  lemma TrimSpaceIsPart(s: string)
    ensures forall c | c in TrimSpace(s) :: c in s
  {
    TrimLeftIsPart(s);
    TrimRightIsPart(TrimLeft(s));
  }

  lemma TrimLeftIsPart(s: string)
    ensures forall c | c in TrimLeft(s) :: c in s
  {
  }

  lemma TrimRightIsPart(s: string)
    ensures forall c | c in TrimRight(s) :: c in s
  {
  }

  predicate AllSpace(s: string) {
    forall c | c in s :: IsSpace(c)
  }

  /** What is left of a string between any amount of space. */
  lemma TrimmingRemovesSpace(left: string, s: string, right: string)
    requires AllSpace(left) && AllSpace(right) && Trimmed(s)
    ensures TrimSpace(left + s + right) == s
  {
    TrimLeftSkips(left, s + right);
    assert left + (s + right) == left + s + right;
    if s == "" {
      assert s + right == right == right + "";
      TrimLeftSkips(right, "");
    } else {
      TrimRightSkips(s, right);
    }
  }

  lemma TrimLeftSkips(left: string, s: string)
    requires AllSpace(left)
    ensures TrimLeft(left + s) == TrimLeft(s)
  {
    if left == "" {
      assert left + s == s;
    } else {
      assert left[0] in left && (left + s)[1..] == left[1..] + s;
      TrimLeftSkips(left[1..], s);
    }
  }

  lemma TrimRightSkips(s: string, right: string)
    requires AllSpace(right)
    ensures TrimRight(s + right) == TrimRight(s)
  {
    if right == "" {
      assert s + right == s;
    } else {
      var n := |right| - 1;
      assert right[n] in right && (s + right)[..|s| + n] == s + right[..n];
      TrimRightSkips(s, right[..n]);
    }
  }

  /** Without its trailing newlines. */
  function TrimNewlines(s: string): (t: string)
    ensures t <= s
    ensures forall i | |t| <= i < |s| :: s[i] == '\n'
    ensures t != "" ==> t[|t|-1] != '\n'
  {
    if s != "" && s[|s|-1] == '\n' then TrimNewlines(s[..|s|-1]) else s
  }

  predicate OccursAt(s: string, part: string, i: int) {
    0 <= i && i + |part| <= |s| && s[i..i+|part|] == part
  }

  /** The first place where part occurs in s, or -1. */
  function Index(s: string, part: string): (i: int)
    ensures -1 <= i
    ensures 0 <= i ==> i + |part| <= |s|
  {
    if part <= s then 0
    else if s == "" then -1
    else
      var i := Index(s[1..], part);
      if i < 0 then -1 else i + 1
  }

  lemma IndexOccurs(s: string, part: string)
    requires Contains(s, part)
    ensures OccursAt(s, part, Index(s, part))
  {
    if !(part <= s) {
      IndexOccurs(s[1..], part);
      var i := Index(s[1..], part);
      assert s[i+1..i+1+|part|] == s[1..][i..i+|part|];
    }
  }

  lemma {:induction false} IndexIsFirst(s: string, part: string, k: nat)
    requires OccursAt(s, part, k)
    ensures 0 <= Index(s, part) <= k
    decreases |s|
  {
    if !(part <= s) {
      assert k > 0;
      assert s[1..][k-1..k-1+|part|] == s[k..k+|part|];
      IndexIsFirst(s[1..], part, k - 1);
    }
  }

  lemma OccursChar(s: string, part: string, i: nat, j: nat)
    requires OccursAt(s, part, i) && j < |part|
    ensures s[i+j] == part[j]
  {
    assert s[i..i+|part|][j] == s[i+j];
  }

  predicate Contains(s: string, part: string) {
    Index(s, part) >= 0
  }

  function Lines(s: string): (lines: seq<string>)
    ensures lines != []
    ensures forall l | l in lines :: '\n' !in l
  {
    var i := NewlineAt(s);
    if i == |s| then [s] else [s[..i]] + Lines(s[i+1..])
  }

  function NewlineAt(s: string): (i: nat)
    ensures i <= |s| && '\n' !in s[..i] && (i < |s| ==> s[i] == '\n')
  {
    if s == "" || s[0] == '\n' then 0 else 1 + NewlineAt(s[1..])
  }

  /** A line, a newline and the rest split into the line and the lines of the rest. */
  lemma LinesOf(line: string, rest: string)
    requires '\n' !in line
    ensures Lines(line) == [line]
    ensures Lines(line + "\n" + rest) == [line] + Lines(rest)
  {
    var s := line + "\n" + rest;
    NewlineIsFirst(line, |line|);
    NewlineIsFirst(s, |line|);
    assert s[..|line|] == line && s[|line|+1..] == rest;
  }

  lemma NewlineIsFirst(s: string, i: nat)
    requires i <= |s| && '\n' !in s[..i] && (i < |s| ==> s[i] == '\n')
    ensures NewlineAt(s) == i
  {
  }
}
