/** The Telegram window: how much recent conversation a turn carries into the model. */
module RecentWindow {
  import opened Messages
  import opened Budget

  /** Tool calls and results ride along with the turn that issued them. */
  predicate IsConversational(m: Message) {
    match m.role
    case User => true
    case Assistant => m.toolCalls == [] && m.toolCallId == ""
    case _ => false
  }

  function Conversation(h: seq<Message>): (n: nat)
    ensures n <= |h|
  {
    if h == [] then 0 else (if IsConversational(h[0]) then 1 else 0) + Conversation(h[1..])
  }

  lemma {:induction false} ConversationConcat(a: seq<Message>, b: seq<Message>)
    ensures Conversation(a + b) == Conversation(a) + Conversation(b)
  {
    if a == [] {
      assert a + b == b;
    } else {
      ConversationConcat(a[1..], b);
      assert (a + b)[1..] == a[1..] + b;
    }
  }

  lemma ConversationShrinks(h: seq<Message>, s: nat, t: nat)
    requires s <= t <= |h|
    ensures Conversation(h[t..]) <= Conversation(h[s..])
    ensures s < t && IsConversational(h[s]) ==> Conversation(h[t..]) < Conversation(h[s..])
  {
    assert h[s..] == h[s..t] + h[t..];
    ConversationConcat(h[s..t], h[t..]);
  }

  method CountConversationalMessages(history: seq<Message>) returns (count: nat)
    ensures count == Conversation(history)
  {
    count := 0;
    for n := 0 to |history|
      invariant count == Conversation(history[..n])
    {
      assert history[..n+1] == history[..n] + [history[n]];
      ConversationConcat(history[..n], [history[n]]);
      if IsConversational(history[n]) {
        count := count + 1;
      }
    }
    assert history[..|history|] == history;
  }

  predicate LastTurn(h: seq<Message>, s: int) {
    StartsTurn(h, s) && forall i | s < i < |h| :: !StartsTurn(h, i)
  }

  /** The suffix from s is the largest one that opens a turn and holds at most limit conversational messages. */
  predicate LargestFitting(h: seq<Message>, limit: int, s: int) {
    && StartsTurn(h, s)
    && Conversation(h[s..]) <= limit
    && forall i | 0 <= i < s && StartsTurn(h, i) :: Conversation(h[i..]) > limit
  }

  /** Where a budget of conversational messages cuts: the last turn stays whole even when it alone is over budget. */
  predicate CutsAt(h: seq<Message>, budget: int, s: nat) {
    || LargestFitting(h, budget, s)
    || (LastTurn(h, s) && Conversation(h[s..]) > budget)
  }

  /** A budget cuts in one place, and later turns of a history that is cut fit too. */
  lemma CutsAtOnePlace(h: seq<Message>, budget: int, s: nat, t: nat)
    requires CutsAt(h, budget, s) && StartsTurn(h, t)
    ensures CutsAt(h, budget, t) ==> s == t
    ensures s < t ==> Conversation(h[t..]) <= budget
    ensures t < s ==> Conversation(h[t..]) > budget
  {
    if s <= t {
      ConversationShrinks(h, s, t);
    } else {
      ConversationShrinks(h, t, s);
    }
  }

  /** Whether a budget leaves the history alone: it fits, has no turn to cut at, or is one single turn. */
  predicate LeavesWhole(h: seq<Message>, budget: int) {
    budget <= 0 || Conversation(h) <= budget || Users(h) == 0 || LastTurn(h, 0)
  }

  lemma FirstThatFits(h: seq<Message>, limit: int, starts: seq<nat>, n: nat)
    requires TurnStarts(h, starts) && n < |starts| && limit < Conversation(h)
    requires forall k | 0 <= k < n :: Conversation(h[starts[k]..]) > limit
    requires Conversation(h[starts[n]..]) <= limit
    ensures LargestFitting(h, limit, starts[n]) && !LastTurn(h, 0)
    ensures 0 < starts[n]
  {
    assert h[0..] == h;
    forall i | 0 <= i < starts[n] && StartsTurn(h, i) ensures Conversation(h[i..]) > limit {
      var k :| 0 <= k < |starts| && starts[k] == i;
    }
  }

  lemma NoneFits(h: seq<Message>, limit: int, starts: seq<nat>)
    requires TurnStarts(h, starts) && starts != []
    requires forall k | 0 <= k < |starts| :: Conversation(h[starts[k]..]) > limit
    ensures var s := starts[|starts|-1]; LastTurn(h, s) && CutsAt(h, limit, s)
  {
    var s := starts[|starts|-1];
    forall i | s < i < |h| ensures !StartsTurn(h, i) {
      assert i !in starts;
    }
  }

  method ProjectRecentHistory(history: seq<Message>, limit: int) returns (projected: seq<Message>, evicted: nat)
    ensures evicted <= |history| && projected == history[evicted..]
    ensures evicted == 0 <==> LeavesWhole(history, limit)
    ensures evicted > 0 ==> CutsAt(history, limit, evicted)
  {
    assert history[0..] == history;
    if limit <= 0 || |history| == 0 { return history, 0; }
    var total := CountConversationalMessages(history);
    if total <= limit { return history, 0; }
    var starts := ParseTurnBoundaries(history);
    for n := 0 to |starts|
      invariant forall k | 0 <= k < n :: Conversation(history[starts[k]..]) > limit
    {
      var count := CountConversationalMessages(history[starts[n]..]);
      if count <= limit {
        FirstThatFits(history, limit, starts, n);
        return history[starts[n]..], starts[n];
      }
    }
    if |starts| > 0 {
      var start := starts[|starts|-1];
      NoneFits(history, limit, starts);
      return history[start..], start;
    }
    return history, 0;
  }

  /** The user messages and the assistant messages that only answer. */
  predicate IsConversationalAt(h: seq<Message>, i: nat) {
    i < |h| && (h[i].role == User || (h[i].role == Assistant && h[i].toolCalls == [] && h[i].toolCallId == ""))
  }

  function ConversationalPlaces(h: seq<Message>): set<nat> {
    set i: nat | i < |h| && IsConversationalAt(h, i)
  }

  lemma OneMorePlace(h: seq<Message>, m: Message)
    ensures ConversationalPlaces(h + [m]) == ConversationalPlaces(h) + if IsConversational(m) then {|h|} else {}
  {
    forall i: nat ensures IsConversationalAt(h + [m], i) <==>
      IsConversationalAt(h, i) || (i == |h| && IsConversational(m))
    {
    }
  }

  /** Calls, results and system messages take up none of the budget. */
  lemma {:induction false} OnlyConversationCounts(h: seq<Message>)
    ensures Conversation(h) == |ConversationalPlaces(h)|
    decreases |h|
  {
    if h != [] {
      var n := |h| - 1;
      OnlyConversationCounts(h[..n]);
      ConversationConcat(h[..n], [h[n]]);
      OneMorePlace(h[..n], h[n]);
      assert h == h[..n] + [h[n]] && n !in ConversationalPlaces(h[..n]);
    }
  }

  const UNCOVERED_HOLD_FACTOR := 2

  predicate SummaryCoversEvicted(evicted: nat) {
    evicted == 0
  }

  /**
   * The history that reaches the prompt builder, which appends the current message itself: all of it while the
   * summarizer may still catch up, else the largest run of whole turns within limit - 1 conversational messages.
   * A limit of at least 2 bounds the result by twice the limit, except for a single turn and for no turns at all.
   */
  method ProjectRecentContext(history: seq<Message>, limit: int)
    returns (context: seq<Message>, coverageRequested: bool, ghost start: nat)
    ensures start <= |history| && context == history[start..]
    ensures start == 0 <==> LeavesWhole(history, limit - 1) || Conversation(history) <= 2 * limit
    ensures start > 0 ==> CutsAt(history, limit - 1, start)
    ensures coverageRequested <==> !LeavesWhole(history, limit - 1)
    ensures limit >= 2 ==>
      || Conversation(context) <= 2 * limit
      || LastTurn(history, start)
      || (Users(history) == 0 && context == history)
  {
    assert history[0..] == history;
    if limit <= 0 { return history, false, 0; }
    var historyBudget := limit - 1;
    if historyBudget < 0 {
      historyBudget := 0;
    }
    var projected, evicted := ProjectRecentHistory(history, historyBudget);
    if evicted == 0 { return projected, false, 0; }
    coverageRequested := false;
    if !SummaryCoversEvicted(evicted) {
      coverageRequested := true;
      var count := CountConversationalMessages(history);
      if count <= limit * UNCOVERED_HOLD_FACTOR {
        return history, coverageRequested, 0;
      }
    }
    return projected, coverageRequested, evicted;
  }

  /** Whatever the window keeps is well formed when the history was. */
  lemma WindowKeepsWellFormed(h: seq<Message>, budget: int, s: nat)
    requires WellFormed(h) && CutsAt(h, budget, s)
    ensures WellFormed(h[s..])
  {
    CutKeepsWellFormed(h, s);
  }
}
