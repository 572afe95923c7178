/** Repairing a stored history into one a strict provider accepts. */
module Sanitize {
  import opened Messages
  import opened Seqs

  /** First pass: whether m is kept after a message that leaves tail t. */
  predicate Keeps(t: Tail, m: Message) {
    match m.role
    case System => false
    case Tool => t in {AfterCall, AfterResult}
    case Assistant => m.CallsTools() ==> t in {AfterUser, AfterResult}
    case _ => true
  }

  function FirstPass(t: Tail, h: seq<Message>): seq<Message>
    decreases |h|
  {
    if h == [] then []
    else if Keeps(t, h[0]) then [h[0]] + FirstPass(TailAfter(h[0]), h[1..])
    else FirstPass(t, h[1..])
  }

  /** The results that answer a call not answered before. */
  function Matching(calls: seq<string>, results: seq<Message>, seen: set<string>): seq<Message> {
    if results == [] then []
    else
      var id := results[0].toolCallId;
      if id == "" || id !in calls || id in seen then Matching(calls, results[1..], seen)
      else [results[0]] + Matching(calls, results[1..], seen + {id})
  }

  function Found(block: seq<Message>): set<string> {
    set id | id in ResultIds(block)
  }

  predicate Complete(calls: seq<string>, block: seq<Message>) {
    "" !in calls && forall id | id in calls :: id in Found(block)
  }

  /** Second pass: a group missing an answer goes as a whole, and so does a stray result. */
  function SecondPass(s: seq<Message>): seq<Message>
    decreases |s|
  {
    if s == [] then []
    else
      var m, t := s[0], s[1..];
      if m.CallsTools() then
        var n := ToolRun(t);
        var block := Matching(m.toolCalls, t[..n], {});
        if Complete(m.toolCalls, block) then [m] + block + SecondPass(t[n..]) else SecondPass(t[n..])
      else if m.role == Tool then SecondPass(t)
      else [m] + SecondPass(t)
  }

  function Sanitized(h: seq<Message>): seq<Message> {
    SecondPass(FirstPass(Nothing, h))
  }

  // ---------------------------------------------------------------- the imperative form

  /** Whether the nearest message that is not a tool result calls tools. */
  predicate InGroup(kept: seq<Message>) {
    kept != [] &&
    var last := kept[|kept|-1];
    if last.role == Tool then InGroup(kept[..|kept|-1]) else last.CallsTools()
  }

  method FollowsToolCall(kept: seq<Message>) returns (found: bool)
    ensures found == InGroup(kept)
  {
    found := false;
    var i := |kept|;
    assert kept[..i] == kept;
    while i > 0
      invariant 0 <= i <= |kept|
      invariant InGroup(kept) == InGroup(kept[..i])
    {
      i := i - 1;
      assert kept[..i+1][..i] == kept[..i];
      if kept[i].role == Tool { continue; }
      return kept[i].CallsTools();
    }
  }

  /** Whether msg may follow the messages kept so far. */
  method IsPlaceable(kept: seq<Message>, msg: Message) returns (keep: bool)
    requires TailOf(kept) == AfterResult ==> InGroup(kept)
    ensures keep == Keeps(TailOf(kept), msg)
  {
    match msg.role {
      case System =>
        keep := false;
      case Tool =>
        if |kept| == 0 { return false; }
        keep := FollowsToolCall(kept);
      case Assistant =>
        if msg.toolCalls != [] {
          if |kept| == 0 { return false; }
          var prev := kept[|kept|-1];
          if prev.role != User && prev.role != Tool { return false; }
        }
        keep := true;
      case _ =>
        keep := true;
    }
  }

  lemma PlaceStep(kept: seq<Message>, history: seq<Message>, n: nat)
    requires n < |history|
    ensures var msg := history[n];
      kept + FirstPass(TailOf(kept), history[n..]) ==
        if Keeps(TailOf(kept), msg) then kept + [msg] + FirstPass(TailOf(kept + [msg]), history[n+1..])
        else kept + FirstPass(TailOf(kept), history[n+1..])
    ensures (kept + [history[n]])[..|kept|] == kept
  {
    assert history[n..][0] == history[n] && history[n..][1..] == history[n+1..];
    Assoc(kept, [history[n]], FirstPass(TailAfter(history[n]), history[n+1..]));
  }

  method KeepPlaceable(history: seq<Message>) returns (sanitized: seq<Message>)
    ensures sanitized == FirstPass(Nothing, history)
  {
    sanitized := [];
    for n := 0 to |history|
      invariant sanitized + FirstPass(TailOf(sanitized), history[n..]) == FirstPass(Nothing, history)
      invariant TailOf(sanitized) == AfterResult ==> InGroup(sanitized)
    {
      var msg := history[n];
      PlaceStep(sanitized, history, n);
      var keep := IsPlaceable(sanitized, msg);
      if keep {
        sanitized := sanitized + [msg];
      }
    }
    assert history[|history|..] == [];
  }

  lemma ResultIdsAppend(a: seq<Message>, m: Message)
    ensures ResultIds(a + [m]) == ResultIds(a) + [m.toolCallId]
  {
  }

  lemma MatchingStep(calls: seq<string>, m: Message, rest: seq<Message>, seen: set<string>)
    ensures Matching(calls, [m] + rest, seen) ==
      if m.toolCallId == "" || m.toolCallId !in calls || m.toolCallId in seen then Matching(calls, rest, seen)
      else [m] + Matching(calls, rest, seen + {m.toolCallId})
  {
    assert ([m] + rest)[1..] == rest;
  }

  /** The ids a call expects an answer to. */
  function Wanted(calls: seq<string>): set<string> {
    set id | id in calls && id != ""
  }

  function Marked(wanted: set<string>, found: set<string>): map<string, bool> {
    map id | id in wanted :: id in found
  }

  lemma MarkedStep(calls: seq<string>, block: seq<Message>, m: Message)
    ensures Found(block + [m]) == Found(block) + {m.toolCallId}
    ensures m.toolCallId in Wanted(calls) ==>
      Marked(Wanted(calls), Found(block + [m])) == Marked(Wanted(calls), Found(block))[m.toolCallId := true]
  {
    ResultIdsAppend(block, m);
  }

  method ExpectIds(calls: seq<string>) returns (expected: map<string, bool>, invalidToolCallId: bool)
    ensures invalidToolCallId == ("" in calls)
    ensures expected == Marked(Wanted(calls), {})
  {
    expected, invalidToolCallId := map[], false;
    for n := 0 to |calls|
      invariant invalidToolCallId == ("" in calls[..n])
      invariant expected == Marked(Wanted(calls[..n]), {})
    {
      if calls[n] == "" {
        invalidToolCallId := true;
      } else {
        expected := expected[calls[n] := false];
      }
    }
    assert calls[..|calls|] == calls;
  }

  /** What is known once the results before rest have been looked at. */
  predicate Collected(calls: seq<string>, run: seq<Message>, rest: seq<Message>,
                      block: seq<Message>, seen: set<string>, expected: map<string, bool>) {
    && seen == Found(block)
    && expected == Marked(Wanted(calls), seen)
    && block + Matching(calls, rest, seen) == Matching(calls, run, {})
  }

  lemma NothingCollected(calls: seq<string>, run: seq<Message>)
    ensures Collected(calls, run, run, [], {}, Marked(Wanted(calls), {}))
  {
  }

  lemma AllCollected(calls: seq<string>, run: seq<Message>,
                     block: seq<Message>, seen: set<string>, expected: map<string, bool>)
    requires Collected(calls, run, [], block, seen, expected)
    ensures block == Matching(calls, run, {}) && expected == Marked(Wanted(calls), Found(block))
  {
    assert block + [] == block;
  }

  method CollectResult(next: Message, ghost calls: seq<string>, ghost run: seq<Message>, ghost rest: seq<Message>,
                       block: seq<Message>, seenInBlock: set<string>, expected: map<string, bool>)
    returns (block': seq<Message>, seen': set<string>, expected': map<string, bool>)
    requires Collected(calls, run, [next] + rest, block, seenInBlock, expected)
    ensures Collected(calls, run, rest, block', seen', expected')
  {
    block', seen', expected' := block, seenInBlock, expected;
    MatchingStep(calls, next, rest, seenInBlock);
    if next.toolCallId == "" { return; }
    if next.toolCallId !in expected { return; }
    if next.toolCallId in seenInBlock { return; }
    MarkedStep(calls, block, next);
    Assoc(block, [next], Matching(calls, rest, seenInBlock + {next.toolCallId}));
    seen' := seenInBlock + {next.toolCallId};
    expected' := expected[next.toolCallId := true];
    block' := block + [next];
  }

  lemma RunEnds(s: seq<Message>, start: nat, j: nat)
    requires start <= j <= |s| && j <= start + ToolRun(s[start..])
    ensures j < start + ToolRun(s[start..]) <==> j < |s| && s[j].role == Tool
  {
    var t := s[start..];
    assert j < |s| ==> s[j] == t[j - start];
  }

  lemma RestOfRun(s: seq<Message>, start: nat, j: nat)
    requires start <= j <= |s| && j <= start + ToolRun(s[start..])
    ensures var end := start + ToolRun(s[start..]);
      if j < |s| && s[j].role == Tool then j < end && s[j..end] == [s[j]] + s[j+1..end] else j == end && s[j..end] == []
  {
    RunEnds(s, start, j);
  }

  /** The run of results from index start on: those that answer a call for the first time, and where it ends. */
  method CollectBlock(sanitized: seq<Message>, start: nat, ghost calls: seq<string>, unanswered: map<string, bool>)
    returns (block: seq<Message>, j: nat, expected: map<string, bool>)
    requires start <= |sanitized|
    requires unanswered == Marked(Wanted(calls), {})
    ensures j == start + ToolRun(sanitized[start..])
    ensures block == Matching(calls, sanitized[start..j], {})
    ensures expected == Marked(Wanted(calls), Found(block))
  {
    ghost var end := start + ToolRun(sanitized[start..]);
    ghost var run := sanitized[start..end];
    var seenInBlock: set<string> := {};
    block, j, expected := [], start, unanswered;
    NothingCollected(calls, run);
    while j < |sanitized| && sanitized[j].role == Tool
      invariant start <= j <= end <= |sanitized|
      invariant Collected(calls, run, sanitized[j..end], block, seenInBlock, expected)
    {
      RestOfRun(sanitized, start, j);
      block, seenInBlock, expected :=
        CollectResult(sanitized[j], calls, run, sanitized[j+1..end], block, seenInBlock, expected);
      j := j + 1;
    }
    RestOfRun(sanitized, start, j);
    AllCollected(calls, run, block, seenInBlock, expected);
  }

  lemma AllMarked(calls: seq<string>, found: set<string>, expected: map<string, bool>)
    requires expected == Marked(Wanted(calls), found)
    ensures "" !in calls ==>
      ((forall id | id in expected :: expected[id]) <==> (forall id | id in calls :: id in found))
  {
    if "" !in calls && forall id | id in expected :: expected[id] {
      forall id | id in calls ensures id in found {
        assert id in expected;
      }
    }
  }

  lemma GroupStep(m: Message, rest: seq<Message>, block: seq<Message>)
    requires m.CallsTools() && block == Matching(m.toolCalls, rest[..ToolRun(rest)], {})
    ensures SecondPass([m] + rest) ==
      (if Complete(m.toolCalls, block) then [m] + block else []) + SecondPass(rest[ToolRun(rest)..])
  {
    assert ([m] + rest)[1..] == rest;
  }

  lemma GroupTaken(sanitized: seq<Message>, i: nat, j: nat, block: seq<Message>, final: seq<Message>)
    requires i < |sanitized| && sanitized[i].CallsTools() && j == i + 1 + ToolRun(sanitized[i+1..])
    requires block == Matching(sanitized[i].toolCalls, sanitized[i+1..j], {})
    ensures final + SecondPass(sanitized[i..]) ==
      (if Complete(sanitized[i].toolCalls, block) then final + [sanitized[i]] + block else final)
      + SecondPass(sanitized[j..])
  {
    var msg, rest := sanitized[i], sanitized[i+1..];
    assert sanitized[i..] == [msg] + rest;
    assert sanitized[i+1..j] == rest[..ToolRun(rest)] && sanitized[j..] == rest[ToolRun(rest)..];
    GroupStep(msg, rest, block);
    Assoc(final, [msg], block);
    Assoc(final, [msg] + block, SecondPass(sanitized[j..]));
  }

  /** A group is appended whole, or not at all. */
  method KeepGroup(sanitized: seq<Message>, i: nat, final: seq<Message>) returns (final': seq<Message>, j: nat)
    requires i < |sanitized| && sanitized[i].CallsTools()
    ensures i < j <= |sanitized| && final' + SecondPass(sanitized[j..]) == final + SecondPass(sanitized[i..])
  {
    var msg := sanitized[i];
    var expected, invalidToolCallId := ExpectIds(msg.toolCalls);
    var block;
    block, j, expected := CollectBlock(sanitized, i + 1, msg.toolCalls, expected);
    var allFound := !invalidToolCallId && forall id | id in expected :: expected[id];
    AllMarked(msg.toolCalls, Found(block), expected);
    GroupTaken(sanitized, i, j, block, final);
    final' := final;
    if allFound {
      final' := final' + [msg];
      final' := final' + block;
    }
  }

  method KeepComplete(sanitized: seq<Message>) returns (final: seq<Message>)
    ensures final == SecondPass(sanitized)
  {
    final := [];
    var i := 0;
    while i < |sanitized|
      invariant 0 <= i <= |sanitized|
      invariant final + SecondPass(sanitized[i..]) == SecondPass(sanitized)
    {
      var msg := sanitized[i];
      if msg.CallsTools() {
        final, i := KeepGroup(sanitized, i, final);
      } else {
        assert sanitized[i..][1..] == sanitized[i+1..];
        i := i + 1;
        if msg.role != Tool {
          Assoc(final, [msg], SecondPass(sanitized[i..]));
          final := final + [msg];
        }
      }
    }
  }

  method SanitizeHistoryForProvider(history: seq<Message>) returns (final: seq<Message>)
    ensures final == Sanitized(history)
  {
    if |history| == 0 { return history; }
    var sanitized := KeepPlaceable(history);
    final := KeepComplete(sanitized);
  }
}
