/** What sanitizing makes of a single call with whatever results follow it. */
module SanitizeGroups {
  import opened Messages
  import opened Sanitize
  import opened SanitizeLaws

  predicate HasResultFor(run: seq<Message>, id: string) {
    exists i :: 0 <= i < |run| && run[i].toolCallId == id
  }

  lemma OneMoreResult(run: seq<Message>, m: Message, id: string)
    ensures HasResultFor(run + [m], id) <==> HasResultFor(run, id) || m.toolCallId == id
    ensures HasResultFor([m] + run, id) <==> HasResultFor(run, id) || m.toolCallId == id
  {
    if i :| 0 <= i < |run| && run[i].toolCallId == id {
      assert (run + [m])[i] == run[i] && ([m] + run)[i+1] == run[i];
    }
    assert (run + [m])[|run|] == m && ([m] + run)[0] == m;
  }

  /** Of the results, those that are the first to bring the id of a call. */
  function FirstToAnswer(calls: seq<string>, run: seq<Message>): seq<Message> {
    if run == [] then []
    else
      var n := |run| - 1;
      var id := run[n].toolCallId;
      FirstToAnswer(calls, run[..n])
      + if id != "" && id in calls && !HasResultFor(run[..n], id) then [run[n]] else []
  }

  predicate IsAnswered(calls: seq<string>, run: seq<Message>) {
    "" !in calls && forall id | id in calls :: HasResultFor(run, id)
  }

  lemma {:induction false} MatchingOneMore(calls: seq<string>, run: seq<Message>, m: Message, seen: set<string>)
    ensures var id := m.toolCallId;
      Matching(calls, run + [m], seen) == Matching(calls, run, seen)
        + if id == "" || id !in calls || id in seen || HasResultFor(run, id) then [] else [m]
    decreases |run|
  {
    if run == [] {
      assert [] + [m] == [m] && [m][1..] == [];
    } else {
      var id := run[0].toolCallId;
      assert (run + [m])[1..] == run[1..] + [m];
      MatchingOneMore(calls, run[1..], m, if id == "" || id !in calls || id in seen then seen else seen + {id});
      OneMoreResult(run[1..], run[0], m.toolCallId);
      assert [run[0]] + run[1..] == run;
    }
  }

  lemma {:induction false} MatchingIsFirstToAnswer(calls: seq<string>, run: seq<Message>)
    ensures Matching(calls, run, {}) == FirstToAnswer(calls, run)
    decreases |run|
  {
    if run != [] {
      var n := |run| - 1;
      MatchingIsFirstToAnswer(calls, run[..n]);
      MatchingOneMore(calls, run[..n], run[n], {});
      assert run == run[..n] + [run[n]];
    }
  }

  lemma {:induction false} FoundIds(calls: seq<string>, run: seq<Message>, id: string)
    requires id != "" && id in calls
    ensures id in Found(FirstToAnswer(calls, run)) <==> HasResultFor(run, id)
    decreases |run|
  {
    if run != [] {
      var n := |run| - 1;
      FoundIds(calls, run[..n], id);
      var before := FirstToAnswer(calls, run[..n]);
      ResultIdsAppend(before, run[n]);
      assert before + [] == before;
      OneMoreResult(run[..n], run[n], id);
      assert run == run[..n] + [run[n]];
    }
  }

  lemma CompleteExactlyWhenAnswered(calls: seq<string>, run: seq<Message>)
    ensures Complete(calls, Matching(calls, run, {})) <==> IsAnswered(calls, run)
  {
    MatchingIsFirstToAnswer(calls, run);
    forall id | id in calls && id != ""
      ensures id in Found(FirstToAnswer(calls, run)) <==> HasResultFor(run, id)
    {
      FoundIds(calls, run, id);
    }
  }

  lemma {:induction false} RunIsAdmitted(t: Tail, run: seq<Message>)
    requires t in {AfterCall, AfterResult} && forall m | m in run :: m.role == Tool
    ensures FirstPass(t, run) == run && ToolRun(run) == |run|
    decreases |run|
  {
    if run != [] {
      assert run[0] in run;
      RunIsAdmitted(AfterResult, run[1..]);
    }
  }

  lemma {:induction false} StrayResultsAreDropped(t: Tail, run: seq<Message>)
    requires t !in {AfterCall, AfterResult} && forall m | m in run :: m.role == Tool
    ensures FirstPass(t, run) == []
    decreases |run|
  {
    if run != [] {
      assert run[0] in run;
      StrayResultsAreDropped(t, run[1..]);
    }
  }

  lemma BaseStays(base: seq<Message>, more: seq<Message>)
    requires WellFormed(base)
    ensures FirstPass(Nothing, base + more) == base + FirstPass(if base == [] then Nothing else TailOf(base), more)
    ensures SecondPass(base) == base
  {
    WellFormedIsScan(base);
    ScannedIsFixed(Nothing, base);
    FirstPassAdmits(Nothing, base);
    AdmittedPrefixStays(Nothing, base, more);
  }

  /**
   * A call behind a well-formed history, followed by any results at all: it is kept, with the first result for each of
   * its ids and no other, exactly if it follows a user message or a result, no id is empty and each id has a result.
   * Otherwise it goes with all of them.
   */
  lemma GroupIsKeptExactlyWhenAnswered(base: seq<Message>, a: Message, run: seq<Message>)
    requires WellFormed(base) && base != [] && a.CallsTools() && forall m | m in run :: m.role == Tool
    ensures Sanitized(base + ([a] + run)) == base +
      if TailOf(base) in {AfterUser, AfterResult} && IsAnswered(a.toolCalls, run)
      then [a] + FirstToAnswer(a.toolCalls, run) else []
  {
    BaseStays(base, [a] + run);
    assert ([a] + run)[1..] == run;
    if TailOf(base) in {AfterUser, AfterResult} {
      RunIsAdmitted(AfterCall, run);
      SecondPassSplits(base, [a] + run);
      SecondPassStep(a, run);
      assert run[..|run|] == run && run[|run|..] == [];
      MatchingIsFirstToAnswer(a.toolCalls, run);
      CompleteExactlyWhenAnswered(a.toolCalls, run);
      assert KeptGroup(a, run) + [] == KeptGroup(a, run);
    } else {
      TailIsNoCall(base);
      StrayResultsAreDropped(TailOf(base), run);
      assert FirstPass(TailOf(base), [a] + run) == [] && base + [] == base;
    }
  }

  /** A well-formed history does not end in a call. */
  lemma TailIsNoCall(base: seq<Message>)
    requires WellFormed(base) && base != []
    ensures TailOf(base) != AfterCall
  {
    var i := |base| - 1;
    assert WellPlaced(base, i) && base[i+1..] == [];
    if base[i].CallsTools() {
      Unanswered(base[i].toolCalls);
    }
  }
}
