/** What sanitizing guarantees: well-formedness, nothing invented, nothing plain lost, turns independent. */
module SanitizeLaws {
  import opened Messages
  import opened Sanitize
  import opened Seqs

  // ---------------------------------------------------------------- the output is well formed

  /** Every message of s survives a first pass that starts at tail t. */
  predicate Admits(t: Tail, s: seq<Message>)
    decreases |s|
  {
    s == [] || (Keeps(t, s[0]) && Admits(TailAfter(s[0]), s[1..]))
  }

  lemma {:induction false} FirstPassAdmits(t: Tail, h: seq<Message>)
    ensures Admits(t, FirstPass(t, h))
    decreases |h|
  {
    if h != [] {
      FirstPassAdmits(if Keeps(t, h[0]) then TailAfter(h[0]) else t, h[1..]);
    }
  }

  lemma {:induction false} AdmitsAfterRun(t: Tail, s: seq<Message>)
    requires Admits(t, s)
    ensures var n := ToolRun(s); Admits(if n > 0 then AfterResult else t, s[n..])
    decreases |s|
  {
    if ToolRun(s) > 0 {
      AdmitsAfterRun(AfterResult, s[1..]);
      assert s[1..][ToolRun(s) - 1..] == s[ToolRun(s)..];
    }
  }

  lemma {:induction false} AdmittedPrefixStays(t: Tail, a: seq<Message>, b: seq<Message>)
    requires Admits(t, a)
    ensures FirstPass(t, a + b) == a + FirstPass(if a == [] then t else TailOf(a), b)
    decreases |a|
  {
    if a == [] {
      assert a + b == b;
    } else {
      assert (a + b)[1..] == a[1..] + b;
      AdmittedPrefixStays(TailAfter(a[0]), a[1..], b);
    }
  }

  /** The block kept for a group holds first answers only. */
  lemma {:induction false} MatchingIds(calls: seq<string>, results: seq<Message>, seen: set<string>)
    ensures var ids := ResultIds(Matching(calls, results, seen));
      && Distinct(ids)
      && forall id | id in ids :: id != "" && id in calls && id !in seen
    decreases |results|
  {
    if results != [] {
      var id := results[0].toolCallId;
      MatchingIds(calls, results[1..], seen);
      MatchingIds(calls, results[1..], seen + {id});
    }
  }

  lemma MatchingAreResults(calls: seq<string>, results: seq<Message>, seen: set<string>)
    requires forall m | m in results :: m.role == Tool
    ensures forall m | m in Matching(calls, results, seen) :: m.role == Tool
  {
  }

  lemma {:induction false} KeptBlockAnswers(calls: seq<string>, results: seq<Message>)
    requires calls != []
    requires Complete(calls, Matching(calls, results, {}))
    ensures Answered(calls, Matching(calls, results, {})) && Matching(calls, results, {}) != []
  {
    MatchingIds(calls, results, {});
    assert calls[0] in calls;
  }

  /** An answered group in front of a scanned history scans. */
  lemma GroupScans(u: Tail, m: Message, block: seq<Message>, rest: seq<Message>)
    requires m.CallsTools() && u in {AfterUser, AfterResult}
    requires Answered(m.toolCalls, block) && forall r | r in block :: r.role == Tool
    requires Scan(AfterResult, rest)
    ensures Scan(u, [m] + block + rest)
  {
    ToolRunSplit(block + rest, |block|);
    var out := [m] + block + rest;
    assert out[1..] == block + rest;
    assert (block + rest)[..|block|] == block && (block + rest)[|block|..] == rest;
  }

  /**
   * The second pass may only loosen what precedes a message: u stands for the tail of the output,
   * and allows a call whenever the tail t of the input did.
   */
  lemma {:induction false} SecondPassScans(t: Tail, u: Tail, s: seq<Message>)
    requires Admits(t, s)
    requires s == [] || s[0].role != Tool
    requires t in {AfterUser, AfterResult} ==> u in {AfterUser, AfterResult}
    ensures Scan(u, SecondPass(s))
    decreases |s|
  {
    if s == [] { return; }
    var m, r := s[0], s[1..];
    if m.CallsTools() {
      var n := ToolRun(r);
      AdmitsAfterRun(AfterCall, r);
      var block, rest := Matching(m.toolCalls, r[..n], {}), r[n..];
      if Complete(m.toolCalls, block) {
        KeptBlockAnswers(m.toolCalls, r[..n]);
        assert n > 0;
        SecondPassScans(AfterResult, AfterResult, rest);
        MatchingAreResults(m.toolCalls, r[..n], {});
        GroupScans(u, m, block, SecondPass(rest));
      } else {
        SecondPassScans(if n > 0 then AfterResult else AfterCall, u, rest);
      }
    } else {
      assert r != [] ==> r[0].role != Tool;
      SecondPassScans(TailAfter(m), TailAfter(m), r);
    }
  }

  lemma SanitizedIsWellFormed(h: seq<Message>)
    ensures WellFormed(Sanitized(h))
  {
    FirstPassAdmits(Nothing, h);
    SecondPassScans(Nothing, Nothing, FirstPass(Nothing, h));
    WellFormedIsScan(Sanitized(h));
  }

  // ---------------------------------------------------------------- nothing invented, nothing plain lost

  predicate IsSubsequence<T(==)>(a: seq<T>, b: seq<T>) {
    if a == [] then true
    else if b == [] then false
    else (a[0] == b[0] && IsSubsequence(a[1..], b[1..])) || IsSubsequence(a, b[1..])
  }

  lemma {:induction false} SubsequenceSkip<T>(a: seq<T>, skipped: seq<T>, b: seq<T>)
    requires IsSubsequence(a, b)
    ensures IsSubsequence(a, skipped + b)
  {
    if skipped == [] {
      assert skipped + b == b;
    } else {
      SubsequenceSkip(a, skipped[1..], b);
      assert (skipped + b)[1..] == skipped[1..] + b;
    }
  }

  lemma {:induction false} SubsequenceConcat<T>(a: seq<T>, b: seq<T>, c: seq<T>, d: seq<T>)
    requires IsSubsequence(a, b) && IsSubsequence(c, d)
    ensures IsSubsequence(a + c, b + d)
    decreases |b|
  {
    if a == [] {
      assert a + c == c;
      SubsequenceSkip(c, b, d);
    } else {
      assert (a + c)[1..] == a[1..] + c && (b + d)[1..] == b[1..] + d;
      if a[0] == b[0] && IsSubsequence(a[1..], b[1..]) {
        SubsequenceConcat(a[1..], b[1..], c, d);
      } else {
        SubsequenceConcat(a, b[1..], c, d);
      }
    }
  }

  lemma {:induction false} SubsequenceTransitive<T>(a: seq<T>, b: seq<T>, c: seq<T>)
    requires IsSubsequence(a, b) && IsSubsequence(b, c)
    ensures IsSubsequence(a, c)
    decreases |b| + |c|
  {
    if a != [] {
      if b[0] == c[0] && IsSubsequence(b[1..], c[1..]) {
        if a[0] == b[0] && IsSubsequence(a[1..], b[1..]) {
          SubsequenceTransitive(a[1..], b[1..], c[1..]);
        } else {
          SubsequenceTransitive(a, b[1..], c[1..]);
        }
      } else {
        SubsequenceTransitive(a, b, c[1..]);
      }
    }
  }

  lemma FirstPassSelects(t: Tail, h: seq<Message>)
    ensures IsSubsequence(FirstPass(t, h), h)
    decreases |h|
  {
  }

  lemma MatchingSelects(calls: seq<string>, results: seq<Message>, seen: set<string>)
    ensures IsSubsequence(Matching(calls, results, seen), results)
  {
  }

  lemma GroupSelects(m: Message, r: seq<Message>)
    requires m.CallsTools() && IsSubsequence(SecondPass(r[ToolRun(r)..]), r[ToolRun(r)..])
    ensures IsSubsequence(SecondPass([m] + r), [m] + r)
  {
    var run, rest := r[..ToolRun(r)], r[ToolRun(r)..];
    var kept := KeptGroup(m, run);
    SecondPassStep(m, r);
    KeptGroupSelects(m, run);
    SubsequenceConcat(kept, [m] + run, SecondPass(rest), rest);
    SplitAt(r, ToolRun(r));
    Assoc([m], run, rest);
  }

  lemma KeptGroupSelects(m: Message, run: seq<Message>)
    ensures IsSubsequence(KeptGroup(m, run), [m] + run)
  {
    var block := Matching(m.toolCalls, run, {});
    MatchingSelects(m.toolCalls, run, {});
    assert ([m] + block)[1..] == block && ([m] + run)[1..] == run;
  }

  lemma PlainSelects(m: Message, r: seq<Message>)
    requires !m.CallsTools() && IsSubsequence(SecondPass(r), r)
    ensures IsSubsequence(SecondPass([m] + r), [m] + r)
  {
    assert ([m] + r)[1..] == r && ([m] + SecondPass(r))[1..] == SecondPass(r);
  }

  lemma {:induction false} SecondPassSelects(s: seq<Message>)
    ensures IsSubsequence(SecondPass(s), s)
    decreases |s|
  {
    if s != [] {
      var m, r := s[0], s[1..];
      assert [m] + r == s;
      if m.CallsTools() {
        SecondPassSelects(r[ToolRun(r)..]);
        GroupSelects(m, r);
      } else {
        SecondPassSelects(r);
        PlainSelects(m, r);
      }
    }
  }

  lemma SanitizedIsSubsequence(h: seq<Message>)
    ensures IsSubsequence(Sanitized(h), h)
  {
    FirstPassSelects(Nothing, h);
    SecondPassSelects(FirstPass(Nothing, h));
    SubsequenceTransitive(Sanitized(h), FirstPass(Nothing, h), h);
  }

  /** The conversation proper: every message that is not part of the tool machinery. */
  function PlainOnly(h: seq<Message>): seq<Message> {
    if h == [] then []
    else if h[0].Plain() then [h[0]] + PlainOnly(h[1..])
    else PlainOnly(h[1..])
  }

  lemma {:induction false} PlainOnlyConcat(a: seq<Message>, b: seq<Message>)
    ensures PlainOnly(a + b) == PlainOnly(a) + PlainOnly(b)
  {
    if a == [] {
      assert a + b == b;
    } else {
      PlainOnlyConcat(a[1..], b);
      assert (a + b)[1..] == a[1..] + b;
    }
  }

  lemma NoPlainResults(block: seq<Message>)
    requires forall m | m in block :: m.role == Tool
    ensures PlainOnly(block) == []
  {
  }

  lemma GroupHasNoPlain(m: Message, block: seq<Message>, rest: seq<Message>)
    requires m.CallsTools() && forall r | r in block :: r.role == Tool
    ensures PlainOnly([m] + block + rest) == PlainOnly(rest)
  {
    NoPlainResults(block);
    PlainOnlyConcat(block, rest);
    assert ([m] + block + rest)[1..] == block + rest;
  }

  lemma FirstPassKeepsPlain(t: Tail, h: seq<Message>)
    ensures PlainOnly(FirstPass(t, h)) == PlainOnly(h)
    decreases |h|
  {
  }

  lemma {:induction false} SecondPassKeepsPlain(s: seq<Message>)
    ensures PlainOnly(SecondPass(s)) == PlainOnly(s)
    decreases |s|
  {
    if s == [] { return; }
    var m, r := s[0], s[1..];
    if m.CallsTools() {
      var n := ToolRun(r);
      var block, rest := Matching(m.toolCalls, r[..n], {}), r[n..];
      SecondPassKeepsPlain(rest);
      assert s == [m] + r[..n] + rest;
      GroupHasNoPlain(m, r[..n], rest);
      MatchingAreResults(m.toolCalls, r[..n], {});
      GroupHasNoPlain(m, block, SecondPass(rest));
    } else {
      SecondPassKeepsPlain(r);
    }
  }

  lemma SanitizedKeepsPlain(h: seq<Message>)
    ensures PlainOnly(Sanitized(h)) == PlainOnly(h)
  {
    FirstPassKeepsPlain(Nothing, h);
    SecondPassKeepsPlain(FirstPass(Nothing, h));
  }

  // ---------------------------------------------------------------- well-formed histories are untouched

  /** Every id answers a call that has no answer yet. */
  predicate FirstAnswers(calls: seq<string>, ids: seq<string>, seen: set<string>) {
    Distinct(ids) && forall i | 0 <= i < |ids| :: ids[i] != "" && ids[i] in calls && ids[i] !in seen
  }

  lemma FirstAnswersTail(calls: seq<string>, ids: seq<string>, seen: set<string>)
    requires ids != [] && FirstAnswers(calls, ids, seen)
    ensures FirstAnswers(calls, ids[1..], seen + {ids[0]})
  {
    forall i | 0 <= i < |ids| - 1
      ensures ids[1..][i] != "" && ids[1..][i] in calls && ids[1..][i] !in seen + {ids[0]}
    {
      assert ids[1..][i] == ids[i+1];
    }
  }

  lemma {:induction false} AnswersAreMatched(calls: seq<string>, results: seq<Message>, seen: set<string>)
    requires FirstAnswers(calls, ResultIds(results), seen)
    ensures Matching(calls, results, seen) == results
    decreases |results|
  {
    if results != [] {
      FirstAnswersTail(calls, ResultIds(results), seen);
      assert ResultIds(results)[1..] == ResultIds(results[1..]);
      AnswersAreMatched(calls, results[1..], seen + {results[0].toolCallId});
    }
  }

  lemma {:induction false} ResultsAreKept(t: Tail, s: seq<Message>)
    requires t in {AfterCall, AfterResult}
    ensures var n := ToolRun(s);
      FirstPass(t, s) == s[..n] + FirstPass(if n > 0 then AfterResult else t, s[n..])
    decreases |s|
  {
    if ToolRun(s) > 0 {
      ResultsAreKept(AfterResult, s[1..]);
      assert s[..ToolRun(s)] == [s[0]] + s[1..][..ToolRun(s) - 1];
      assert s[1..][ToolRun(s) - 1..] == s[ToolRun(s)..];
    } else {
      assert s[..0] == [] && s[0..] == s;
    }
  }

  lemma AnswersComplete(calls: seq<string>, results: seq<Message>)
    requires calls != [] && Answered(calls, results)
    ensures Matching(calls, results, {}) == results && Complete(calls, results) && results != []
  {
    AnswersAreMatched(calls, results, {});
    assert calls[0] in calls;
  }

  lemma GroupIsFixed(t: Tail, m: Message, r: seq<Message>)
    requires m.CallsTools() && t in {AfterUser, AfterResult}
    requires Answered(m.toolCalls, r[..ToolRun(r)])
    requires var rest := r[ToolRun(r)..]; FirstPass(AfterResult, rest) == rest && SecondPass(rest) == rest
    ensures FirstPass(t, [m] + r) == [m] + r && SecondPass([m] + r) == [m] + r
  {
    var run, rest := r[..ToolRun(r)], r[ToolRun(r)..];
    assert ([m] + r)[1..] == r;
    AnswersComplete(m.toolCalls, run);
    ResultsAreKept(AfterCall, r);
    SplitAt(r, ToolRun(r));
    SecondPassStep(m, r);
    Assoc([m], run, rest);
  }

  lemma PlainIsFixed(t: Tail, m: Message, r: seq<Message>)
    requires m.Plain() && FirstPass(TailAfter(m), r) == r && SecondPass(r) == r
    ensures FirstPass(t, [m] + r) == [m] + r && SecondPass([m] + r) == [m] + r
  {
    assert ([m] + r)[1..] == r;
  }

  lemma {:induction false} ScannedIsFixed(t: Tail, h: seq<Message>)
    requires Scan(t, h)
    ensures FirstPass(t, h) == h && SecondPass(h) == h
    decreases |h|
  {
    if h != [] {
      var m, r := h[0], h[1..];
      if m.CallsTools() {
        ScannedIsFixed(AfterResult, r[ToolRun(r)..]);
        GroupIsFixed(t, m, r);
      } else {
        ScannedIsFixed(TailAfter(m), r);
        PlainIsFixed(t, m, r);
      }
      assert [m] + r == h;
    }
  }

  lemma WellFormedIsFixed(h: seq<Message>)
    requires WellFormed(h)
    ensures Sanitized(h) == h
  {
    WellFormedIsScan(h);
    ScannedIsFixed(Nothing, h);
  }

  lemma SanitizingIsIdempotent(h: seq<Message>)
    ensures Sanitized(Sanitized(h)) == Sanitized(h)
  {
    SanitizedIsWellFormed(h);
    WellFormedIsFixed(Sanitized(h));
  }

  // ---------------------------------------------------------------- turns are sanitized independently

  lemma {:induction false} FirstPassSplits(t: Tail, a: seq<Message>, b: seq<Message>)
    requires b != [] && b[0].role == User
    ensures FirstPass(t, a + b) == FirstPass(t, a) + FirstPass(Nothing, b)
    decreases |a|
  {
    if a == [] {
      assert a + b == b;
    } else {
      assert (a + b)[1..] == a[1..] + b;
      FirstPassSplits(if Keeps(t, a[0]) then TailAfter(a[0]) else t, a[1..], b);
    }
  }

  /** What the second pass leaves of a group. */
  function KeptGroup(m: Message, run: seq<Message>): seq<Message> {
    var block := Matching(m.toolCalls, run, {});
    if Complete(m.toolCalls, block) then [m] + block else []
  }

  lemma SecondPassOfGroup(m: Message, r: seq<Message>, b: seq<Message>)
    requires m.CallsTools() && (b == [] || b[0].role != Tool)
    ensures var n := ToolRun(r);
      SecondPass([m] + r + b) == KeptGroup(m, r[..n]) + SecondPass(r[n..] + b)
  {
    RunAcross(r, b);
    SecondPassStep(m, r + b);
    Assoc([m], r, b);
  }

  lemma SecondPassStep(m: Message, t: seq<Message>)
    requires m.CallsTools()
    ensures SecondPass([m] + t) == KeptGroup(m, t[..ToolRun(t)]) + SecondPass(t[ToolRun(t)..])
  {
    assert ([m] + t)[1..] == t;
  }

  /** Results at the front of r end where they did, whatever follows r, unless it opens with results. */
  lemma RunAcross(r: seq<Message>, b: seq<Message>)
    requires b == [] || b[0].role != Tool
    ensures var n := ToolRun(r);
      ToolRun(r + b) == n && (r + b)[..n] == r[..n] && (r + b)[n..] == r[n..] + b
  {
    ToolRunSplit(r + b, ToolRun(r));
  }

  lemma {:induction false} SecondPassSplits(a: seq<Message>, b: seq<Message>)
    requires b == [] || b[0].role != Tool
    ensures SecondPass(a + b) == SecondPass(a) + SecondPass(b)
    decreases |a|
  {
    if a == [] {
      assert a + b == b;
    } else {
      var m, r := a[0], a[1..];
      assert a == [m] + r;
      if m.CallsTools() {
        var rest := r[ToolRun(r)..];
        SecondPassOfGroup(m, r, b);
        SecondPassOfGroup(m, r, []);
        assert [m] + r + [] == a && rest + [] == rest;
        SecondPassSplits(rest, b);
        Assoc(KeptGroup(m, r[..ToolRun(r)]), SecondPass(rest), SecondPass(b));
      } else {
        assert (a + b)[1..] == r + b;
        SecondPassSplits(r, b);
        Assoc([m], SecondPass(r), SecondPass(b));
      }
    }
  }

  /** Cutting at a user message and then sanitizing gives what sanitizing the whole gives there. */
  lemma SanitizingSplitsAtTurns(h: seq<Message>, k: nat)
    requires k < |h| && h[k].role == User
    ensures Sanitized(h) == Sanitized(h[..k]) + Sanitized(h[k..])
  {
    assert h == h[..k] + h[k..];
    FirstPassSplits(Nothing, h[..k], h[k..]);
    SecondPassSplits(FirstPass(Nothing, h[..k]), FirstPass(Nothing, h[k..]));
  }

  // ---------------------------------------------------------------- cutting well-formed histories

  lemma Unanswered(calls: seq<string>)
    requires calls != []
    ensures !Answered(calls, [])
  {
    assert calls[0] in calls;
  }

  /** How a scan takes a group whose results are those r opens with. */
  lemma ScanGroup(t: Tail, m: Message, r: seq<Message>, b: seq<Message>)
    requires m.CallsTools()
    requires b == [] || b[0].role != Tool
    ensures var n := ToolRun(r);
      Scan(t, [m] + r + b) <==>
        t in {AfterUser, AfterResult} && Answered(m.toolCalls, r[..n]) && Scan(AfterResult, r[n..] + b)
  {
    assert ([m] + r + b)[1..] == r + b;
    RunAcross(r, b);
  }

  function TailFrom(t: Tail, a: seq<Message>): Tail {
    if a == [] then t else TailOf(a)
  }

  lemma TailFromRest(t: Tail, m: Message, r: seq<Message>, n: nat)
    requires n <= |r| && (n == 0 ==> t == TailAfter(m)) && (n > 0 ==> t == TailAfter(r[n-1]))
    ensures TailOf([m] + r) == TailFrom(t, r[n..])
  {
  }

  lemma ScanConcatGroup(t: Tail, m: Message, r: seq<Message>, b: seq<Message>)
    requires m.CallsTools() && (b == [] || b[0].role != Tool) && ToolRun(r) > 0
    requires var rest := r[ToolRun(r)..];
      Scan(AfterResult, rest + b) <==> Scan(AfterResult, rest) && Scan(TailFrom(AfterResult, rest), b)
    ensures Scan(t, [m] + r + b) <==> Scan(t, [m] + r) && Scan(TailOf([m] + r), b)
  {
    var rest := r[ToolRun(r)..];
    ScanGroup(t, m, r, b);
    ScanGroup(t, m, r, []);
    assert [m] + r + [] == [m] + r && rest + [] == rest;
    TailFromRest(AfterResult, m, r, ToolRun(r));
  }

  /** A scan runs through a and goes on with b, unless b opens with results of a. */
  lemma {:induction false} ScanConcat(t: Tail, a: seq<Message>, b: seq<Message>)
    requires b == [] || b[0].role != Tool
    ensures Scan(t, a + b) <==> Scan(t, a) && Scan(TailFrom(t, a), b)
    decreases |a|
  {
    if a == [] {
      assert a + b == b;
      return;
    }
    var m, r := a[0], a[1..];
    assert a == [m] + r;
    if m.CallsTools() {
      if ToolRun(r) == 0 {
        Unanswered(m.toolCalls);
        ScanGroup(t, m, r, b);
        ScanGroup(t, m, r, []);
        assert [m] + r + [] == a;
      } else {
        ScanConcat(AfterResult, r[ToolRun(r)..], b);
        ScanConcatGroup(t, m, r, b);
      }
    } else {
      assert (a + b)[1..] == r + b;
      TailFromRest(TailAfter(m), m, r, 0);
      ScanConcat(TailAfter(m), r, b);
    }
  }

  /** A turn boundary is a safe cut: a history is well formed exactly when both sides of it are. */
  lemma WellFormedSplitsAtTurns(h: seq<Message>, k: nat)
    requires k < |h| && h[k].role == User
    ensures WellFormed(h) <==> WellFormed(h[..k]) && WellFormed(h[k..])
  {
    assert h == h[..k] + h[k..];
    ScanConcat(Nothing, h[..k], h[k..]);
    WellFormedIsScan(h);
    WellFormedIsScan(h[..k]);
    WellFormedIsScan(h[k..]);
  }
}
