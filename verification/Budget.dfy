/** Turn boundaries, safe cuts, and trimming a history until its prompt fits. */
module Budget {
  import opened Messages
  import opened Sanitize
  import opened SanitizeLaws

  // ---------------------------------------------------------------- turn boundaries

  /** The index starts a turn: the message there is a user message. */
  predicate StartsTurn(h: seq<Message>, i: int) {
    0 <= i < |h| && h[i].role == User
  }

  /** The indices that start turns, in order. */
  predicate TurnStarts(h: seq<Message>, starts: seq<nat>) {
    && (forall i | 0 <= i < |starts| :: StartsTurn(h, starts[i]))
    && (forall i | 0 <= i < |h| && h[i].role == User :: i in starts)
    && (forall i, j | 0 <= i < j < |starts| :: starts[i] < starts[j])
  }

  method ParseTurnBoundaries(history: seq<Message>) returns (starts: seq<nat>)
    ensures TurnStarts(history, starts)
    ensures |starts| == Users(history)
  {
    starts := [];
    for i := 0 to |history|
      invariant TurnStarts(history[..i], starts)
      invariant |starts| == Users(history[..i])
    {
      assert history[..i+1] == history[..i] + [history[i]];
      UsersConcat(history[..i], [history[i]]);
      if history[i].role == User {
        starts := starts + [i];
      }
    }
    assert history[..|history|] == history;
  }

  function Users(h: seq<Message>): (n: nat)
    ensures n <= |h|
  {
    if h == [] then 0 else (if h[0].role == User then 1 else 0) + Users(h[1..])
  }

  lemma {:induction false} UsersConcat(a: seq<Message>, b: seq<Message>)
    ensures Users(a + b) == Users(a) + Users(b)
  {
    if a == [] {
      assert a + b == b;
    } else {
      UsersConcat(a[1..], b);
      assert (a + b)[1..] == a[1..] + b;
    }
  }

  /** A turn contributes its one user message. */
  lemma UsersOfTurn(h: seq<Message>, s: nat, end: nat)
    requires StartsTurn(h, s) && s < end <= |h|
    requires forall i | s < i < end :: h[i].role != User
    ensures Users(h[s..]) == 1 + Users(h[end..])
  {
    var body, rest := h[s+1..end], h[end..];
    assert h[s..][1..] == body + rest;
    UsersConcat(body, rest);
    NoUsers(body);
  }

  /** Where the k-th turn ends: at the next one, or with the history. */
  function TurnEnd(h: seq<Message>, starts: seq<nat>, k: nat): nat
    requires k < |starts|
  {
    if k + 1 < |starts| then starts[k+1] else |h|
  }

  lemma NoUserWithinTurn(h: seq<Message>, starts: seq<nat>, k: nat, i: nat)
    requires TurnStarts(h, starts) && k < |starts| && starts[k] < i < TurnEnd(h, starts, k) && i < |h|
    ensures h[i].role != User
  {
    if h[i].role == User {
      var j :| 0 <= j < |starts| && starts[j] == i;
      assert false;
    }
  }

  /** From the k-th turn start on there are exactly the remaining turns. */
  lemma {:induction false} UsersFromTurn(h: seq<Message>, starts: seq<nat>, k: nat)
    requires TurnStarts(h, starts) && k < |starts|
    ensures Users(h[starts[k]..]) == |starts| - k
    decreases |starts| - k
  {
    var end := TurnEnd(h, starts, k);
    assert StartsTurn(h, starts[k]) && starts[k] < end <= |h|;
    forall i | starts[k] < i < end ensures h[i].role != User {
      NoUserWithinTurn(h, starts, k, i);
    }
    UsersOfTurn(h, starts[k], end);
    if k + 1 < |starts| {
      UsersFromTurn(h, starts, k + 1);
    }
  }

  lemma NoUsers(h: seq<Message>)
    ensures Users(h) == 0 <==> forall m | m in h :: m.role != User
  {
    assert forall m | m in h :: m == h[0] || m in h[1..];
  }

  // ---------------------------------------------------------------- the nearest safe cut

  predicate IsSafeBoundary(h: seq<Message>, index: int) {
    index <= 0 || index >= |h| || h[index].role == User
  }

  /**
   * Where a cut wanted at target lands. It never moves past an end; inside, it goes back to the last turn start
   * that still drops something, else forward to the first one, and reports 0 when the history is one single turn.
   */
  ghost predicate IsCutFor(h: seq<Message>, target: int, cut: nat) {
    if target <= 0 then cut == 0
    else if target >= |h| then cut == |h|
    else if Users(h) == 0 then cut == target
    else if exists i :: 0 < i <= target && StartsTurn(h, i) then
      StartsTurn(h, cut) && 0 < cut <= target && forall i | cut < i <= target :: !StartsTurn(h, i)
    else if exists i :: target < i && StartsTurn(h, i) then
      StartsTurn(h, cut) && target < cut && forall i | target < i < cut :: !StartsTurn(h, i)
    else cut == 0
  }

  method FindSafeBoundary(history: seq<Message>, targetIndex: int) returns (cut: nat)
    ensures IsCutFor(history, targetIndex, cut)
  {
    if |history| == 0 { return 0; }
    if targetIndex <= 0 { return 0; }
    if targetIndex >= |history| { return |history|; }
    var turns := ParseTurnBoundaries(history);
    if |turns| == 0 { return targetIndex; }

    var backward := -1;
    for n := 0 to |turns|
      invariant backward == -1 ==> forall k | 0 <= k < n :: turns[k] > targetIndex
      invariant backward != -1 ==> StartsTurn(history, backward) && backward <= targetIndex
      invariant forall k | 0 <= k < n && turns[k] <= targetIndex :: turns[k] <= backward
    {
      if turns[n] <= targetIndex {
        backward := turns[n];
      }
    }
    assert forall i | StartsTurn(history, i) :: i in turns;
    if backward > 0 {
      return backward;
    }
    assert forall i | 0 < i <= targetIndex :: !StartsTurn(history, i);
    for n := 0 to |turns|
      invariant forall k | 0 <= k < n :: turns[k] <= targetIndex
    {
      if turns[n] > targetIndex {
        assert forall k | n < k < |turns| :: turns[n] < turns[k];
        return turns[n];
      }
    }
    return 0;
  }

  /** There is one cut for every target, and unless the history has no turn at all, it leaves a user message first. */
  lemma CutIsUniqueAndSafe(h: seq<Message>, target: int, cut: nat, other: nat)
    requires IsCutFor(h, target, cut) && IsCutFor(h, target, other)
    ensures cut == other <= |h|
    ensures Users(h) > 0 ==> IsSafeBoundary(h, cut)
  {
  }

  // ---------------------------------------------------------------- trimming to a window

  /** The window a request must fit and how the estimator sizes a message. */
  datatype Window = Window(size: int, toolTokens: nat, maxTokens: int, tokens: Message -> nat)
  {
    function Estimate(messages: seq<Message>): int {
      toolTokens + maxTokens + Sum(messages)
    }

    function Sum(messages: seq<Message>): nat {
      if messages == [] then 0 else Sum(messages[..|messages|-1]) + tokens(messages[|messages|-1])
    }

    predicate Fits(messages: seq<Message>) {
      Estimate(messages) <= size
    }
  }

  method IsOverContextBudget(window: Window, messages: seq<Message>) returns (over: bool)
    ensures over == !window.Fits(messages)
  {
    var msgTokens := 0;
    for n := 0 to |messages|
      invariant msgTokens == window.Sum(messages[..n])
    {
      msgTokens := msgTokens + window.tokens(messages[n]);
      assert messages[..n+1][..n] == messages[..n];
    }
    assert messages[..|messages|] == messages;
    over := msgTokens + window.toolTokens + window.maxTokens > window.size;
  }

  lemma {:induction false} SumIsSame(w: Window, v: Window, messages: seq<Message>)
    requires w.tokens == v.tokens
    ensures w.Sum(messages) == v.Sum(messages)
    decreases |messages|
  {
    if messages != [] {
      SumIsSame(w, v, messages[..|messages|-1]);
    }
  }

  /** The room for messages is what tools and output leave of the window, and each message takes up its own size. */
  lemma RoomInWindow(window: Window, messages: seq<Message>, m: Message)
    ensures window.Fits([]) <==> window.maxTokens + window.toolTokens <= window.size
    ensures window.Fits(messages + [m]) <==>
      window.(size := window.size - window.tokens(m)).Fits(messages)
  {
    assert (messages + [m])[..|messages|] == messages;
    SumIsSame(window, window.(size := window.size - window.tokens(m)), messages);
  }

  /** Whether a suffix of h starts at the beginning, at a turn, or past the end. */
  predicate TurnAligned(h: seq<Message>, start: int) {
    start == 0 || start == |h| || StartsTurn(h, start)
  }

  /** A turn start other than the first, which a history that does not open a turn loses together with its head. */
  predicate LaterTurn(h: seq<Message>, start: int) {
    StartsTurn(h, start) && Users(h[..start]) > 0
  }

  /** The suffixes trimming tries. */
  predicate Tried(h: seq<Message>, start: int) {
    || start == 0 || start == |h|
    || LaterTurn(h, start)
    || (StartsTurn(h, start) && Users(h) == 1)
  }

  method NextHistoryTrimStart(history: seq<Message>) returns (start: nat)
    ensures history == [] ==> start == 0
    ensures history != [] ==> 0 < start <= |history| && Tried(history, start)
    ensures forall i | 0 < i < start :: !Tried(history, i)
  {
    if |history| == 0 { return 0; }
    var turns := ParseTurnBoundaries(history);
    if |turns| > 0 {
      assert forall i | 0 <= i < turns[0] :: history[i].role != User by {
        forall i | 0 <= i < turns[0] ensures history[i].role != User {
          assert i !in turns;
        }
      }
      NoUsers(history[..turns[0]]);
    }
    if |turns| >= 2 {
      FirstTurns(history, turns);
      return turns[1];
    }
    if |turns| == 1 {
      OnlyTurn(history, turns);
      if turns[0] > 0 {
        return turns[0];
      }
      return |history|;
    }
    NoUsers(history);
    return |history|;
  }

  lemma FirstTurns(h: seq<Message>, turns: seq<nat>)
    requires TurnStarts(h, turns) && |turns| >= 2 && Users(h) == |turns|
    ensures LaterTurn(h, turns[1]) && forall i | 0 < i < turns[1] :: !LaterTurn(h, i)
  {
    var first := turns[0];
    assert h[..turns[1]][first].role == User && h[..turns[1]][first] in h[..turns[1]];
    NoUsers(h[..turns[1]]);
    forall i | 0 < i < turns[1] ensures !LaterTurn(h, i) {
      if StartsTurn(h, i) {
        var k :| 0 <= k < |turns| && turns[k] == i;
        assert k == 0;
        forall m | m in h[..i] ensures m.role != User {
          var j :| 0 <= j < i && h[j] == m;
          assert j !in turns;
        }
        NoUsers(h[..i]);
      }
    }
  }

  lemma OnlyTurn(h: seq<Message>, turns: seq<nat>)
    requires TurnStarts(h, turns) && |turns| == 1
    ensures forall i | StartsTurn(h, i) :: i == turns[0]
    ensures forall i :: !LaterTurn(h, i)
  {
    forall i | StartsTurn(h, i) ensures i == turns[0] && Users(h[..i]) == 0 {
      assert i in turns;
      forall m | m in h[..i] ensures m.role != User {
        var j :| 0 <= j < i && h[j] == m;
        assert j !in turns;
      }
      NoUsers(h[..i]);
    }
  }

  /** Trying the suffixes of a suffix that opens a turn is trying the later suffixes of the whole. */
  lemma TriedInSuffix(h: seq<Message>, s: nat, i: nat)
    requires StartsTurn(h, s) && s + i <= |h| && 0 < i
    ensures Tried(h[s..], i) <==> s + i == |h| || StartsTurn(h, s + i)
    ensures Tried(h, s + i) <==> s + i == |h| || StartsTurn(h, s + i)
  {
    assert h[..s+i][s].role == User && h[..s+i][s] in h[..s+i];
    NoUsers(h[..s+i]);
    assert h[s..][..i][0].role == User && h[s..][..i][0] in h[s..][..i];
    NoUsers(h[s..][..i]);
    if StartsTurn(h[s..], i) {
      assert h[s..] == h[s..][..i] + h[s..][i..];
    }
  }

  /** No messages stand in front of the first of several turns. */
  predicate OpensWithTurn(h: seq<Message>) {
    h == [] || h[0].role == User || Users(h) <= 1
  }

  /** The turns before some index: none of them exactly when no message there is a user message. */
  lemma NoTurnBefore(h: seq<Message>, start: nat)
    requires start <= |h|
    ensures Users(h[..start]) == 0 <==> forall i | 0 <= i < start :: h[i].role != User
  {
    NoUsers(h[..start]);
    assert forall i | 0 <= i < start :: h[i] == h[..start][i] && h[..start][i] in h[..start];
  }

  lemma FirstTurn(h: seq<Message>) returns (first: nat)
    requires Users(h) > 0
    ensures StartsTurn(h, first) && Users(h[..first]) == 0
  {
    NoUsers(h);
    first := 0;
    while h[first].role != User
      invariant first < |h| && forall i | 0 <= i < first :: h[i].role != User
      decreases |h| - first
    {
      if first == |h| - 1 {
        assert false;
      }
      first := first + 1;
    }
    NoTurnBefore(h, first);
  }

  /** Behind a head that is no turn, the first of several turns is not tried. */
  lemma FirstTurnSkipped(h: seq<Message>) returns (first: nat)
    requires h != [] && h[0].role != User && Users(h) > 1
    ensures 0 < first && StartsTurn(h, first) && Users(h[..first]) == 0 && !Tried(h, first)
  {
    first := FirstTurn(h);
  }

  /** A lone turn is tried wherever it starts. */
  lemma LoneTurnTried(h: seq<Message>, start: nat)
    requires Users(h) <= 1 && start <= |h|
    ensures Tried(h, start) <==> TurnAligned(h, start)
  {
    if StartsTurn(h, start) {
      NoUsers(h);
    }
  }

  /** For such a history, what is tried is exactly the turn-aligned suffixes. */
  lemma TriedIsTurnAligned(h: seq<Message>, start: nat)
    requires OpensWithTurn(h) && start <= |h|
    ensures Tried(h, start) <==> TurnAligned(h, start)
  {
    if h != [] && h[0].role == User && 0 < start < |h| {
      TriedInSuffix(h, 0, start);
      assert h[0..] == h;
    } else if Users(h) <= 1 {
      LoneTurnTried(h, start);
    }
  }

  /** Every turn-aligned suffix is tried exactly when the history opens with a turn or has at most one. */
  lemma EveryTurnTriedExactlyWhen(h: seq<Message>)
    ensures (forall s | 0 <= s <= |h| :: Tried(h, s) <==> TurnAligned(h, s)) <==> OpensWithTurn(h)
  {
    if OpensWithTurn(h) {
      forall s | 0 <= s <= |h| ensures Tried(h, s) <==> TurnAligned(h, s) {
        TriedIsTurnAligned(h, s);
      }
    } else {
      var first := FirstTurnSkipped(h);
      assert TurnAligned(h, first);
    }
  }

  /**
   * The longest suffix tried whose prompt fits. Unless messages stand in front of the first of several turns, that is
   * the longest turn-aligned suffix that fits; a failure is reported only when not even the empty one does.
   */
  method TrimHistoryToFitContextWindow(
    history: seq<Message>, build: seq<Message> -> seq<Message>, window: Window)
    returns (kept: seq<Message>, messages: seq<Message>, fit: bool, ghost start: nat)
    ensures start <= |history| && kept == history[start..] && messages == build(kept)
    ensures fit ==> Tried(history, start) && window.Fits(build(history[start..]))
    ensures !fit ==> start == |history| && !window.Fits(build([]))
    ensures forall s | 0 <= s < start && Tried(history, s) :: !window.Fits(build(history[s..]))
    ensures OpensWithTurn(history) ==>
      && (fit ==> TurnAligned(history, start))
      && (forall s | 0 <= s < start && TurnAligned(history, s) :: !window.Fits(build(history[s..])))
  {
    forall s | 0 <= s <= |history| && OpensWithTurn(history)
      ensures Tried(history, s) <==> TurnAligned(history, s)
    {
      TriedIsTurnAligned(history, s);
    }
    messages := build(history);
    start := 0;
    assert history[0..] == history;
    var over := IsOverContextBudget(window, messages);
    if !over { return history, messages, true, 0; }
    var trimmed := history;
    while |trimmed| > 0
      invariant start <= |history| && trimmed == history[start..] && messages == build(trimmed)
      invariant start == 0 || start == |history| || StartsTurn(history, start)
      invariant Tried(history, start)
      invariant !window.Fits(messages)
      invariant forall s | 0 <= s < start && Tried(history, s) :: !window.Fits(build(history[s..]))
      decreases |trimmed|
    {
      var dropUntil := NextHistoryTrimStart(trimmed);
      ghost var next := start + dropUntil;
      assert Tried(history, next) && forall s | start < s < next :: !Tried(history, s) by {
        if start > 0 {
          TriedInSuffix(history, start, dropUntil);
          forall s | start < s < next ensures !Tried(history, s) {
            TriedInSuffix(history, start, s - start);
          }
        } else {
          assert trimmed == history;
        }
      }
      assert trimmed[dropUntil..] == history[next..];
      if dropUntil <= 0 || dropUntil >= |trimmed| {
        trimmed := [];
      } else {
        trimmed := trimmed[dropUntil..];
      }
      start := next;
      messages := build(trimmed);
      over := IsOverContextBudget(window, messages);
      if !over { return trimmed, messages, true, start; }
    }
    assert history[start..] == [];
    return [], messages, false, start;
  }

  /** A turn-aligned cut keeps a history well formed. */
  lemma CutKeepsWellFormed(h: seq<Message>, start: nat)
    requires WellFormed(h) && start <= |h| && TurnAligned(h, start)
    ensures WellFormed(h[start..])
  {
    if StartsTurn(h, start) {
      WellFormedSplitsAtTurns(h, start);
    } else if start == 0 {
      assert h[0..] == h;
    }
  }

  /** Cutting at a turn, then sanitizing, gives the tail of sanitizing everything, however malformed the history. */
  lemma CutThenSanitize(h: seq<Message>, start: nat)
    requires start <= |h| && TurnAligned(h, start)
    ensures |Sanitized(h[start..])| <= |Sanitized(h)|
    ensures Sanitized(h)[|Sanitized(h)| - |Sanitized(h[start..])|..] == Sanitized(h[start..])
  {
    if StartsTurn(h, start) {
      SanitizingSplitsAtTurns(h, start);
    } else if start == 0 {
      assert h[0..] == h;
    }
  }
}
