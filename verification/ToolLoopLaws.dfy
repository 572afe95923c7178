/** What the tool loop guarantees: one answer per call, in order, and a group that sanitizing keeps. */
module ToolLoopLaws {
  import opened Options
  import opened Messages
  import opened Text
  import opened Seqs
  import opened Sanitize
  import opened SanitizeLaws
  import opened ToolLoop

  function Results(ms: seq<Message>): seq<Message> {
    if ms == [] then []
    else if ms[0].role == Tool then [ms[0]] + Results(ms[1..])
    else Results(ms[1..])
  }

  lemma {:induction false} ResultsConcat(a: seq<Message>, b: seq<Message>)
    ensures Results(a + b) == Results(a) + Results(b)
  {
    if a == [] {
      assert a + b == b;
    } else {
      ResultsConcat(a[1..], b);
      assert (a + b)[1..] == a[1..] + b;
    }
  }

  lemma ResultsOfResults(ms: seq<Message>)
    requires forall m | m in ms :: m.role == Tool
    ensures Results(ms) == ms
  {
  }

  /** Recorded results are kept under the trimmed id of the call they answer. */
  predicate Keyed(completed: map<string, Message>) {
    forall k | k in completed :: completed[k].role == Tool && TrimSpace(completed[k].toolCallId) == k
  }

  /** One result per call, in call order, for an id that differs at most in surrounding space. */
  predicate Answers(calls: seq<ToolCall>, results: seq<Message>) {
    |results| == |calls| &&
    forall i | 0 <= i < |calls| ::
      results[i].role == Tool && TrimSpace(results[i].toolCallId) == TrimSpace(calls[i].id)
  }

  /** One result per call, in call order, each with its call's own id. */
  predicate OwnAnswers(calls: seq<ToolCall>, results: seq<Message>) {
    |results| == |calls| && forall i | 0 <= i < |calls| :: results[i].toolCallId == calls[i].id
  }

  lemma EffectAnswers(tc: ToolCall, env: CallEnv, completed: map<string, Message>)
    requires Keyed(completed)
    ensures var effect := EffectOf(tc, env, completed);
      !effect.Aborted? ==>
        && effect.message.role == Tool && TrimSpace(effect.message.toolCallId) == TrimSpace(tc.id)
        && (effect.message.toolCallId == tc.id || Lookup(completed, tc.id) == Some(effect.message))
        && (effect.Executed? ==> Keyed(Record(completed, tc.id, effect.message)))
  {
  }

  /** A result followed by a sub-turn's message, if any. */
  lemma FrontResults(m: Message, env: CallEnv, turn: Turn)
    requires m.role == Tool
    ensures Results([m]) == [m] && Results([m] + SubTurnMessages(env, turn)) == [m]
  {
    ResultsConcat([m], SubTurnMessages(env, turn));
  }

  lemma SkippedAnswers(calls: seq<ToolCall>, text: string)
    ensures var ms := Skipped(calls, text); Results(ms) == ms && OwnAnswers(calls, ms) && Answers(calls, ms)
  {
    ResultsOfResults(Skipped(calls, text));
  }

  /** What is known of the messages one call adds. */
  predicate StepAnswers(calls: seq<ToolCall>, step: Step, completed: map<string, Message>)
    requires calls != []
  {
    step.Abort? ||
    var rs := Results(step.front);
    && rs != [] && Answers(calls[..1], rs[..1])
    && (rs[0].toolCallId == calls[0].id || Lookup(completed, calls[0].id) == Some(rs[0]))
    && (step.Next? ==> |rs| == 1)
    && (step.Stop? ==> OwnAnswers(calls[1..], rs[1..]) && Answers(calls[1..], rs[1..]))
  }

  lemma StopAnswers(calls: seq<ToolCall>, m: Message, text: string, turn: Turn, completed: map<string, Message>)
    requires calls != [] && m.role == Tool && TrimSpace(m.toolCallId) == TrimSpace(calls[0].id)
    requires m.toolCallId == calls[0].id || Lookup(completed, calls[0].id) == Some(m)
    ensures StepAnswers(calls, Stop([m] + Skipped(calls[1..], text), turn), completed)
  {
    SkippedAnswers(calls[1..], text);
    ResultsConcat([m], Skipped(calls[1..], text));
    assert ([m] + Skipped(calls[1..], text))[1..] == Skipped(calls[1..], text);
  }

  /** One call's own result, and when the loop stops there, those of all later calls. */
  lemma StepResults(calls: seq<ToolCall>, env: CallEnv, turn: Turn)
    requires calls != [] && Keyed(turn.completed)
    ensures Keyed(StepOf(calls, env, turn).turn.completed)
    ensures StepAnswers(calls, StepOf(calls, env, turn), turn.completed)
  {
    var effect, step := EffectOf(calls[0], env, turn.completed), StepOf(calls, env, turn);
    EffectAnswers(calls[0], env, turn.completed);
    if step.Stop? {
      var text := if turn.pending + env.steering > 0 then SKIPPED_FOR_USER else SKIPPED_FOR_INTERRUPT;
      StopAnswers(calls, effect.message, text, step.turn, turn.completed);
    } else if step.Next? {
      FrontResults(effect.message, env, turn);
    }
  }

  lemma AnswersJoin(calls: seq<ToolCall>, rs: seq<Message>)
    requires calls != [] && rs != [] && Answers(calls[..1], rs[..1]) && Answers(calls[1..], rs[1..])
    ensures Answers(calls, rs)
  {
    forall i | 0 <= i < |calls| ensures rs[i].role == Tool && TrimSpace(rs[i].toolCallId) == TrimSpace(calls[i].id) {
      if i == 0 {
        assert rs[..1][0] == rs[0] && calls[..1][0] == calls[0];
      } else {
        assert rs[1..][i-1] == rs[i] && calls[1..][i-1] == calls[i];
      }
    }
  }

  lemma NextAnswers(calls: seq<ToolCall>, front: seq<Message>, rest: seq<Message>)
    requires calls != [] && |Results(front)| == 1
    requires Answers(calls[..1], Results(front)[..1]) && Answers(calls[1..], Results(rest))
    ensures Answers(calls, Results(front + rest))
  {
    var rs := Results(front) + Results(rest);
    ResultsConcat(front, rest);
    assert rs[..1] == Results(front)[..1] && rs[1..] == Results(rest);
    AnswersJoin(calls, rs);
  }

  /** Without an abort every call is answered exactly once and in order, whatever mix of outcomes occurs. */
  lemma {:induction false} EveryCallIsAnswered(calls: seq<ToolCall>, envs: seq<CallEnv>, turn: Turn)
    requires |calls| == |envs| && Keyed(turn.completed)
    ensures var r := RunCalls(calls, envs, turn);
      && Keyed(r.turn.completed)
      && (r.aborted.None? ==> Answers(calls, Results(r.appended)))
    decreases |calls|
  {
    if calls != [] {
      StepResults(calls, envs[0], turn);
      var step := StepOf(calls, envs[0], turn);
      match step {
        case Abort(_, _) =>
        case Stop(front, _) =>
          AnswersJoin(calls, Results(front));
        case Next(front, _, after) =>
          EveryCallIsAnswered(calls[1..], envs[1..], after);
          var rest := RunCalls(calls[1..], envs[1..], after);
          if rest.aborted.None? {
            NextAnswers(calls, front, rest.appended);
          }
      }
    }
  }

  // ---------------------------------------------------------------- when every answer carries its call's id

  predicate StoredIdsMatch(calls: seq<ToolCall>, completed: map<string, Message>) {
    forall i | 0 <= i < |calls| ::
      Lookup(completed, calls[i].id).Some? ==> Lookup(completed, calls[i].id).value.toolCallId == calls[i].id
  }

  predicate NoPaddedTwins(calls: seq<ToolCall>) {
    forall i, j | 0 <= i < j < |calls| ::
      TrimSpace(calls[i].id) == TrimSpace(calls[j].id) != "" ==> calls[i].id == calls[j].id
  }

  /**
   * No id differs from another one, called or recorded, in surrounding space only. While steering waits already,
   * the first executed call is the last one, so twins among the calls do not matter.
   */
  predicate IdsUnambiguous(calls: seq<ToolCall>, turn: Turn) {
    StoredIdsMatch(calls, turn.completed) && (turn.pending == 0 ==> NoPaddedTwins(calls))
  }

  lemma UnambiguousAfterStep(calls: seq<ToolCall>, env: CallEnv, turn: Turn)
    requires calls != [] && IdsUnambiguous(calls, turn)
    requires StepOf(calls, env, turn).Next?
    ensures IdsUnambiguous(calls[1..], StepOf(calls, env, turn).turn)
  {
    var step := StepOf(calls, env, turn);
    forall i | 0 <= i < |calls| - 1
      ensures Lookup(step.turn.completed, calls[1..][i].id).Some? ==>
        Lookup(step.turn.completed, calls[1..][i].id).value.toolCallId == calls[1..][i].id
    {
      assert calls[1..][i] == calls[i+1];
    }
  }

  lemma {:induction false} UnambiguousGiveOwnAnswers(calls: seq<ToolCall>, envs: seq<CallEnv>, turn: Turn)
    requires |calls| == |envs| && Keyed(turn.completed) && IdsUnambiguous(calls, turn)
    ensures var r := RunCalls(calls, envs, turn); r.aborted.None? ==> OwnAnswers(calls, Results(r.appended))
    decreases |calls|
  {
    if calls != [] {
      StepResults(calls, envs[0], turn);
      var step := StepOf(calls, envs[0], turn);
      if step.Next? {
        UnambiguousAfterStep(calls, envs[0], turn);
        UnambiguousGiveOwnAnswers(calls[1..], envs[1..], step.turn);
        ResultsConcat(step.front, RunCalls(calls[1..], envs[1..], step.turn).appended);
      }
    }
  }

  const DENY := CallEnv(false, false, Proceed, true, true, false, Keep, "", [], false, "denied", 0, false, None)
  const EXECUTE := CallEnv(false, true, Proceed, true, true, false, Keep, "done", [], false, "", 0, false, None)

  function Always(env: CallEnv, n: nat): (envs: seq<CallEnv>)
    ensures |envs| == n && forall i | 0 <= i < n :: envs[i] == env
  {
    seq(n, _ => env)
  }

  /** A run in which every call meets the same surroundings, one call further. */
  lemma AlwaysStep(calls: seq<ToolCall>, env: CallEnv, turn: Turn)
    requires calls != [] && StepOf(calls, env, turn).Next?
    ensures var step, r := StepOf(calls, env, turn), RunCalls(calls, Always(env, |calls|), turn);
      var rest := RunCalls(calls[1..], Always(env, |calls| - 1), step.turn);
      && r.appended == step.front + rest.appended && r.aborted == rest.aborted
  {
    assert Always(env, |calls|)[1..] == Always(env, |calls| - 1);
  }

  lemma DeniedStep(calls: seq<ToolCall>, turn: Turn)
    requires calls != []
    ensures var step, stored := StepOf(calls, DENY, turn), Lookup(turn.completed, calls[0].id);
      && step.Next? && step.turn.completed == turn.completed
      && step.front == [if stored.Some? then stored.value else ToolMessage("denied", calls[0].id)]
  {
  }

  /** The first answer is not the first call's own, or a later one is not its call's. */
  lemma ConfusedFromHere(calls: seq<ToolCall>, m: Message, rest: seq<Message>)
    requires calls != [] && m.role == Tool
    requires m.toolCallId != calls[0].id || !OwnAnswers(calls[1..], Results(rest))
    ensures !OwnAnswers(calls, Results([m] + rest))
  {
    ResultsConcat([m], rest);
    OwnTail(calls, [m], Results(rest));
  }

  /** The call at index i would be answered under another id by what is recorded for it. */
  predicate StoredUnderOther(calls: seq<ToolCall>, completed: map<string, Message>, i: nat)
    requires i < |calls|
  {
    var stored := Lookup(completed, calls[i].id);
    stored.Some? && stored.value.toolCallId != calls[i].id
  }

  lemma DeniedAnswer(calls: seq<ToolCall>, turn: Turn)
    requires calls != [] && Keyed(turn.completed)
    ensures var step := StepOf(calls, DENY, turn);
      && step.Next? && step.turn.completed == turn.completed
      && |step.front| == 1 && step.front[0].role == Tool && step.front == [step.front[0]]
      && (StoredUnderOther(calls, turn.completed, 0) ==> step.front[0].toolCallId != calls[0].id)
  {
    DeniedStep(calls, turn);
    EffectAnswers(calls[0], DENY, turn.completed);
  }

  lemma DenyingConfusesFromHere(calls: seq<ToolCall>, turn: Turn)
    requires calls != [] && Keyed(turn.completed)
    requires
      || StoredUnderOther(calls, turn.completed, 0)
      || !OwnAnswers(calls[1..],
           Results(RunCalls(calls[1..], Always(DENY, |calls| - 1), StepOf(calls, DENY, turn).turn).appended))
    ensures !OwnAnswers(calls, Results(RunCalls(calls, Always(DENY, |calls|), turn).appended))
  {
    DeniedAnswer(calls, turn);
    AlwaysStep(calls, DENY, turn);
    var step := StepOf(calls, DENY, turn);
    ConfusedFromHere(calls, step.front[0], RunCalls(calls[1..], Always(DENY, |calls| - 1), step.turn).appended);
  }

  /** Denying everything still reuses what is recorded, under the recorded id. */
  lemma {:induction false} DenyingReusesStored(calls: seq<ToolCall>, turn: Turn, i: nat)
    requires Keyed(turn.completed) && i < |calls| && StoredUnderOther(calls, turn.completed, i)
    ensures !OwnAnswers(calls, Results(RunCalls(calls, Always(DENY, |calls|), turn).appended))
    decreases |calls|
  {
    if i > 0 {
      DeniedStep(calls, turn);
      DenyingReusesStored(calls[1..], StepOf(calls, DENY, turn).turn, i - 1);
    }
    DenyingConfusesFromHere(calls, turn);
  }

  lemma {:induction false} DenyingGoesOn(calls: seq<ToolCall>, turn: Turn)
    ensures RunCalls(calls, Always(DENY, |calls|), turn).aborted.None?
    decreases |calls|
  {
    if calls != [] {
      DeniedStep(calls, turn);
      AlwaysStep(calls, DENY, turn);
      DenyingGoesOn(calls[1..], StepOf(calls, DENY, turn).turn);
    }
  }

  lemma OwnTail(calls: seq<ToolCall>, first: seq<Message>, rest: seq<Message>)
    requires calls != [] && |first| == 1
    ensures OwnAnswers(calls, first + rest) <==> first[0].toolCallId == calls[0].id && OwnAnswers(calls[1..], rest)
  {
    if OwnAnswers(calls, first + rest) {
      forall i | 0 <= i < |calls| - 1 ensures rest[i].toolCallId == calls[1..][i].id {
        assert rest[i] == (first + rest)[i+1];
      }
    }
  }

  /** Executing a call, or reusing what is recorded for it. */
  lemma ExecutedStep(calls: seq<ToolCall>, turn: Turn)
    requires calls != [] && turn.pending == 0
    ensures var step, stored := StepOf(calls, EXECUTE, turn), Lookup(turn.completed, calls[0].id);
      && step.Next? && step.turn.pending == 0
      && step.front == [if stored.Some? then stored.value else ToolMessage("done", calls[0].id)]
      && step.turn.completed ==
           if stored.Some? then turn.completed
           else Record(turn.completed, calls[0].id, ToolMessage("done", calls[0].id))
  {
  }

  lemma StoredTwinRemains(calls: seq<ToolCall>, turn: Turn, i: nat)
    requires 0 < i < |calls| && turn.pending == 0
    requires Lookup(turn.completed, calls[i].id).Some?
    requires Lookup(turn.completed, calls[i].id).value.toolCallId != calls[i].id
    requires Lookup(turn.completed, calls[0].id).Some? ==>
      Lookup(turn.completed, calls[0].id).value.toolCallId == calls[0].id
    ensures !StoredIdsMatch(calls[1..], StepOf(calls, EXECUTE, turn).turn.completed)
  {
    ExecutedStep(calls, turn);
    assert calls[1..][i-1] == calls[i];
  }

  lemma CallTwinRemains(calls: seq<ToolCall>, turn: Turn, i: nat, j: nat)
    requires i < j < |calls| && turn.pending == 0 && StoredIdsMatch(calls, turn.completed)
    requires TrimSpace(calls[i].id) == TrimSpace(calls[j].id) != "" && calls[i].id != calls[j].id
    ensures !IdsUnambiguous(calls[1..], StepOf(calls, EXECUTE, turn).turn)
  {
    ExecutedStep(calls, turn);
    assert calls[1..][j-1] == calls[j];
    if i > 0 {
      assert calls[1..][i-1] == calls[i];
    }
  }

  /** A first call that is answered under its own id leaves the ambiguity to the others. */
  lemma AmbiguityRemains(calls: seq<ToolCall>, turn: Turn)
    requires calls != [] && turn.pending == 0 && !IdsUnambiguous(calls, turn)
    requires Lookup(turn.completed, calls[0].id).Some? ==>
      Lookup(turn.completed, calls[0].id).value.toolCallId == calls[0].id
    ensures !IdsUnambiguous(calls[1..], StepOf(calls, EXECUTE, turn).turn)
  {
    if !StoredIdsMatch(calls, turn.completed) {
      var i :| 0 <= i < |calls| && Lookup(turn.completed, calls[i].id).Some?
        && Lookup(turn.completed, calls[i].id).value.toolCallId != calls[i].id;
      StoredTwinRemains(calls, turn, i);
    } else {
      var i, j :| 0 <= i < j < |calls| && TrimSpace(calls[i].id) == TrimSpace(calls[j].id) != ""
        && calls[i].id != calls[j].id;
      CallTwinRemains(calls, turn, i, j);
    }
  }

  lemma ExecutedKeepsKeyed(calls: seq<ToolCall>, turn: Turn)
    requires calls != [] && turn.pending == 0 && Keyed(turn.completed)
    ensures var step := StepOf(calls, EXECUTE, turn);
      step.Next? && |step.front| == 1 && step.front[0].role == Tool && Keyed(step.turn.completed)
  {
    ExecutedStep(calls, turn);
    EffectAnswers(calls[0], EXECUTE, turn.completed);
  }

  /** Executing everything answers the second of two padded twins with the first one's result. */
  lemma {:induction false} ExecutingConfusesTwins(calls: seq<ToolCall>, turn: Turn)
    requires turn.pending == 0 && !IdsUnambiguous(calls, turn)
    requires Keyed(turn.completed)
    ensures !OwnAnswers(calls, Results(RunCalls(calls, Always(EXECUTE, |calls|), turn).appended))
    decreases |calls|
  {
    ExecutedStep(calls, turn);
    ExecutedKeepsKeyed(calls, turn);
    AlwaysStep(calls, EXECUTE, turn);
    var step := StepOf(calls, EXECUTE, turn);
    if step.front[0].toolCallId == calls[0].id {
      AmbiguityRemains(calls, turn);
      ExecutingConfusesTwins(calls[1..], step.turn);
    }
    ConfusedFromHere(calls, step.front[0], RunCalls(calls[1..], Always(EXECUTE, |calls| - 1), step.turn).appended);
  }

  lemma {:induction false} ExecutingGoesOn(calls: seq<ToolCall>, turn: Turn)
    requires turn.pending == 0
    ensures RunCalls(calls, Always(EXECUTE, |calls|), turn).aborted.None?
    decreases |calls|
  {
    if calls != [] {
      ExecutedStep(calls, turn);
      AlwaysStep(calls, EXECUTE, turn);
      ExecutingGoesOn(calls[1..], StepOf(calls, EXECUTE, turn).turn);
    }
  }

  /** Every run that does not abort answers every call under its own id, exactly when no ids are padded twins. */
  lemma OwnAnswersExactlyWhenUnambiguous(calls: seq<ToolCall>, turn: Turn)
    requires Keyed(turn.completed)
    ensures IdsUnambiguous(calls, turn) <==>
      forall envs | |envs| == |calls| && RunCalls(calls, envs, turn).aborted.None? ::
        OwnAnswers(calls, Results(RunCalls(calls, envs, turn).appended))
  {
    if IdsUnambiguous(calls, turn) {
      forall envs | |envs| == |calls| && RunCalls(calls, envs, turn).aborted.None?
        ensures OwnAnswers(calls, Results(RunCalls(calls, envs, turn).appended))
      {
        UnambiguousGiveOwnAnswers(calls, envs, turn);
      }
    } else if turn.pending == 0 {
      ExecutingGoesOn(calls, turn);
      ExecutingConfusesTwins(calls, turn);
    } else {
      var i :| 0 <= i < |calls| && Lookup(turn.completed, calls[i].id).Some?
        && Lookup(turn.completed, calls[i].id).value.toolCallId != calls[i].id;
      DenyingGoesOn(calls, turn);
      DenyingReusesStored(calls, turn, i);
    }
  }

  /** Two distinct, non-empty ids that differ in surrounding space: the second call is answered under the first id. */
  lemma PaddedIdIsAnsweredUnderTheOther()
    ensures var calls := [ToolCall("call_0", "a"), ToolCall("call_0 ", "b")];
      Results(RunCalls(calls, [EXECUTE, EXECUTE], Turn(map[], 0, true, false)).appended)
        == [ToolMessage("done", "call_0"), ToolMessage("done", "call_0")]
  {
    var calls := [ToolCall("call_0", "a"), ToolCall("call_0 ", "b")];
    var m := ToolMessage("done", "call_0");
    TrimmedIsFixed("call_0");
    assert TrimLeft("call_0 ") == "call_0 " && "call_0 "[..6] == "call_0";
    assert TrimSpace("call_0 ") == "call_0";
    var turn := Turn(map["call_0" := m], 0, false, false);
    assert StepOf(calls, EXECUTE, Turn(map[], 0, true, false)) == Next([m], 0, turn);
    assert StepOf(calls[1..], EXECUTE, turn) == Next([m], 1, turn);
    assert RunCalls(calls[1..], [EXECUTE, EXECUTE][1..], turn).appended == [m];
    assert RunCalls(calls, [EXECUTE, EXECUTE], Turn(map[], 0, true, false)).appended == [m] + [m];
    ResultsConcat([m], [m]);
  }

  // ---------------------------------------------------------------- what sanitizing makes of the group

  /** The loop appends results and, after some of them, what sub-turns report. */
  predicate ResultsAndReports(ms: seq<Message>) {
    forall m | m in ms :: m.role == Tool || m.role == User
  }

  lemma StepAppendsResultsAndReports(calls: seq<ToolCall>, env: CallEnv, turn: Turn)
    requires calls != [] && Keyed(turn.completed)
    ensures var step := StepOf(calls, env, turn); !step.Abort? ==> ResultsAndReports(step.front)
  {
    EffectAnswers(calls[0], env, turn.completed);
  }

  lemma {:induction false} LoopAppendsResultsAndReports(calls: seq<ToolCall>, envs: seq<CallEnv>, turn: Turn)
    requires |calls| == |envs| && Keyed(turn.completed)
    ensures ResultsAndReports(RunCalls(calls, envs, turn).appended)
    decreases |calls|
  {
    if calls != [] {
      StepAppendsResultsAndReports(calls, envs[0], turn);
      var step := StepOf(calls, envs[0], turn);
      if step.Next? {
        StepResults(calls, envs[0], turn);
        LoopAppendsResultsAndReports(calls[1..], envs[1..], step.turn);
      }
    }
  }

  function Reports(ms: seq<Message>): seq<Message> {
    if ms == [] then []
    else if ms[0].role == Tool then Reports(ms[1..])
    else [ms[0]] + Reports(ms[1..])
  }

  lemma {:induction false} OutsideGroupOnlyReports(t: Tail, ms: seq<Message>)
    requires ResultsAndReports(ms) && t !in {AfterCall, AfterResult}
    ensures FirstPass(t, ms) == Reports(ms)
    decreases |ms|
  {
    if ms != [] {
      assert ms[0] in ms && forall m | m in ms[1..] :: m in ms;
      OutsideGroupOnlyReports(if ms[0].role == Tool then t else AfterUser, ms[1..]);
    }
  }

  lemma {:induction false} ReportsScan(t: Tail, ms: seq<Message>)
    requires forall m | m in ms :: m.role == User
    ensures Scan(t, ms)
    decreases |ms|
  {
    if ms != [] {
      assert ms[0] in ms && forall m | m in ms[1..] :: m in ms;
      ReportsScan(AfterUser, ms[1..]);
    }
  }

  lemma {:induction false} ReportsPass(ms: seq<Message>)
    requires forall m | m in ms :: m.role == User
    ensures SecondPass(ms) == ms
    decreases |ms|
  {
    if ms != [] {
      assert ms[0] in ms && forall m | m in ms[1..] :: m in ms;
      ReportsPass(ms[1..]);
    }
  }

  lemma ReportsAreUsers(ms: seq<Message>)
    requires ResultsAndReports(ms)
    ensures forall m | m in Reports(ms) :: m.role == User
    ensures ToolRun(ms) == 0 || ms[0].role == Tool
  {
    if ms != [] {
      assert ms[0] in ms && forall m | m in ms[1..] :: m in ms;
      ReportsAreUsers(ms[1..]);
    }
  }

  /** Results and reports split where the first report, if any, interrupts the results. */
  lemma ResultsOfRun(ms: seq<Message>)
    ensures var n := ToolRun(ms); Results(ms) == ms[..n] + Results(ms[n..])
  {
    var n := ToolRun(ms);
    SplitAt(ms, n);
    ResultsConcat(ms[..n], ms[n..]);
    ResultsOfResults(ms[..n]);
  }

  /** A group whose results come in one piece is well formed behind a history that may be followed by a call. */
  lemma WholeGroupIsWellFormed(base: seq<Message>, a: Message, appended: seq<Message>)
    requires WellFormed(base) && TailOf(base) in {AfterUser, AfterResult}
    requires a.CallsTools() && ResultsAndReports(appended)
    requires Distinct(a.toolCalls) && "" !in a.toolCalls && ResultIds(Results(appended)) == a.toolCalls
    requires ToolRun(appended) == |a.toolCalls|
    ensures WellFormed(base + ([a] + appended))
  {
    var n := ToolRun(appended);
    ResultsOfRun(appended);
    assert |Results(appended)| == |ResultIds(Results(appended))|;
    assert appended[..n] == Results(appended);
    SplitAt(appended, n);
    var reports := appended[n..];
    NoResultsLeft(appended, n);
    ReportsScan(AfterResult, reports);
    ScanGroup(TailOf(base), a, appended, []);
    assert [a] + appended + [] == [a] + appended && reports + [] == reports;
    ScanConcat(Nothing, base, [a] + appended);
    WellFormedIsScan(base);
    WellFormedIsScan(base + ([a] + appended));
  }

  lemma NoResultsLeft(ms: seq<Message>, n: nat)
    requires n <= |ms| && ResultsAndReports(ms) && Results(ms[n..]) == []
    ensures forall m | m in ms[n..] :: m.role == User
    decreases |ms| - n
  {
    if n < |ms| {
      assert ms[n..][1..] == ms[n+1..] && ms[n] in ms;
      NoResultsLeft(ms, n + 1);
      assert ms[n..] == [ms[n]] + ms[n+1..];
    }
  }

  /** The first pass over a torn group leaves the results before the first report, then only reports. */
  lemma FirstPassOfTorn(base: seq<Message>, a: Message, appended: seq<Message>)
    requires WellFormed(base) && TailOf(base) in {AfterUser, AfterResult}
    requires a.CallsTools() && ResultsAndReports(appended) && ToolRun(appended) < |appended|
    ensures var n := ToolRun(appended);
      FirstPass(Nothing, base + ([a] + appended)) == base + ([a] + (appended[..n] + Reports(appended[n..])))
    ensures Reports(appended[ToolRun(appended)..]) != []
    ensures forall m | m in Reports(appended[ToolRun(appended)..]) :: m.role == User
  {
    var n := ToolRun(appended);
    var torn := appended[n..];
    WellFormedIsScan(base);
    ScannedIsFixed(Nothing, base);
    FirstPassAdmits(Nothing, base);
    AdmittedPrefixStays(Nothing, base, [a] + appended);
    ResultsAreKept(AfterCall, appended);
    assert ([a] + appended)[1..] == appended;
    assert torn[0] in appended && forall m | m in torn :: m in appended;
    OutsideGroupOnlyReports(AfterOther, torn);
    FirstReportKept(torn);
    ReportsAreUsers(torn);
  }

  /** The second pass drops a call whose results stop short, with those results. */
  lemma SecondPassOfTorn(base: seq<Message>, a: Message, run: seq<Message>, reports: seq<Message>)
    requires WellFormed(base) && a.CallsTools()
    requires forall m | m in run :: m.role == Tool
    requires reports != [] && forall m | m in reports :: m.role == User
    requires !Complete(a.toolCalls, Matching(a.toolCalls, run, {}))
    ensures SecondPass(base + ([a] + (run + reports))) == base + reports
  {
    var group := [a] + (run + reports);
    WellFormedIsScan(base);
    ScannedIsFixed(Nothing, base);
    SecondPassSplits(base, group);
    assert reports[0] in reports;
    ToolRunSplit(run + reports, |run|);
    assert group[1..] == run + reports;
    assert (run + reports)[..|run|] == run && (run + reports)[|run|..] == reports;
    ReportsPass(reports);
  }

  /** A report between two results tears the group: sanitizing drops the call with all its results. */
  lemma TornGroupIsDropped(base: seq<Message>, a: Message, appended: seq<Message>)
    requires WellFormed(base) && TailOf(base) in {AfterUser, AfterResult}
    requires a.CallsTools() && ResultsAndReports(appended)
    requires Distinct(a.toolCalls) && ResultIds(Results(appended)) == a.toolCalls
    requires ToolRun(appended) < |a.toolCalls|
    ensures Sanitized(base + ([a] + appended)) == base + Reports(appended)
  {
    var n := ToolRun(appended);
    ResultsOfRun(appended);
    assert |Results(appended)| == |a.toolCalls|;
    ReportsOfRun(appended);
    FirstPassOfTorn(base, a, appended);
    IncompleteRun(a.toolCalls, Results(appended), n);
    SecondPassOfTorn(base, a, appended[..n], Reports(appended[n..]));
  }

  /** A user message is kept whatever precedes it. */
  lemma FirstReportKept(torn: seq<Message>)
    requires torn != [] && torn[0].role == User
    ensures forall t, u :: FirstPass(t, torn) == FirstPass(u, torn)
    ensures Reports(torn) != [] && Reports(torn)[0].role != Tool
  {
  }

  lemma ReportsOfRun(ms: seq<Message>)
    ensures Reports(ms) == Reports(ms[ToolRun(ms)..])
  {
    if ToolRun(ms) > 0 {
      ReportsOfRun(ms[1..]);
      assert ms[1..][ToolRun(ms) - 1..] == ms[ToolRun(ms)..];
    }
  }

  /** The results before a tear leave a call unanswered. */
  lemma IncompleteRun(calls: seq<string>, results: seq<Message>, n: nat)
    requires Distinct(calls) && ResultIds(results) == calls && n < |calls|
    ensures !Complete(calls, Matching(calls, results[..n], {}))
  {
    assert ResultIds(results[..n]) == calls[..n];
    assert calls[n] !in calls[..n] && calls[n] in calls;
    MatchingFromResults(calls, results[..n], {});
  }

  lemma {:induction false} MatchingFromResults(calls: seq<string>, results: seq<Message>, seen: set<string>)
    ensures forall id | id in ResultIds(Matching(calls, results, seen)) :: id in ResultIds(results)
    decreases |results|
  {
    if results != [] {
      MatchingFromResults(calls, results[1..], seen);
      MatchingFromResults(calls, results[1..], seen + {results[0].toolCallId});
    }
  }

  // ---------------------------------------------------------------- when a report tears the group

  /**
   * A sub-turn reports while calls are still to come: after a call that ran or was answered by a hook, is not the last
   * one, and does not make the loop stop.
   */
  predicate ReportBetween(calls: seq<ToolCall>, envs: seq<CallEnv>, turn: Turn)
    requires |calls| == |envs|
    decreases |calls|
  {
    |calls| > 1 &&
    var step := StepOf(calls, envs[0], turn);
    && step.Next?
    && (|| (EffectOf(calls[0], envs[0], turn.completed).Checkpoint() && SubTurnMessages(envs[0], turn) != [])
        || ReportBetween(calls[1..], envs[1..], step.turn))
  }

  lemma RunAfterResult(m: Message, rest: seq<Message>)
    requires m.role == Tool
    ensures ToolRun([m] + rest) == 1 + ToolRun(rest)
  {
    assert ([m] + rest)[1..] == rest;
  }

  lemma RunAfterReport(m: Message, report: Message, rest: seq<Message>)
    requires m.role == Tool && report.role == User
    ensures ToolRun([m] + [report] + rest) == 1
  {
    ToolRunSplit([m] + [report] + rest, 1);
  }

  /** What one call adds in front of the others' results: its own, and a report if one waits. */
  lemma NextFront(calls: seq<ToolCall>, env: CallEnv, turn: Turn)
    requires calls != [] && Keyed(turn.completed) && StepOf(calls, env, turn).Next?
    ensures var effect, front := EffectOf(calls[0], env, turn.completed), StepOf(calls, env, turn).front;
      && effect.message.role == Tool
      && (!effect.Checkpoint() || SubTurnMessages(env, turn) == [] ==> front == [effect.message])
      && (effect.Checkpoint() && SubTurnMessages(env, turn) != [] ==>
           front == [effect.message] + [SubTurnMessage(env.subTurn.value)])
  {
    EffectAnswers(calls[0], env, turn.completed);
  }

  lemma StopIsWhole(calls: seq<ToolCall>, env: CallEnv, turn: Turn)
    requires calls != [] && Keyed(turn.completed) && StepOf(calls, env, turn).Stop?
    ensures ToolRun(StepOf(calls, env, turn).front) == |calls|
  {
    EffectAnswers(calls[0], env, turn.completed);
    var front := StepOf(calls, env, turn).front;
    ToolRunSplit(front, |calls|);
  }

  lemma NextIsWhole(calls: seq<ToolCall>, env: CallEnv, turn: Turn, rest: seq<Message>)
    requires calls != [] && Keyed(turn.completed) && StepOf(calls, env, turn).Next?
    ensures var n := ToolRun(StepOf(calls, env, turn).front + rest);
      if EffectOf(calls[0], env, turn.completed).Checkpoint() && SubTurnMessages(env, turn) != [] then n == 1
      else n == 1 + ToolRun(rest)
  {
    var effect := EffectOf(calls[0], env, turn.completed);
    NextFront(calls, env, turn);
    if effect.Checkpoint() && SubTurnMessages(env, turn) != [] {
      RunAfterReport(effect.message, SubTurnMessage(env.subTurn.value), rest);
    } else {
      RunAfterResult(effect.message, rest);
    }
  }

  /** The results come in one piece exactly when no sub-turn reports while calls are still to come. */
  lemma {:induction false} WholeExactlyWhenNoReportBetween(calls: seq<ToolCall>, envs: seq<CallEnv>, turn: Turn)
    requires |calls| == |envs| && Keyed(turn.completed)
    requires RunCalls(calls, envs, turn).aborted.None?
    ensures ToolRun(RunCalls(calls, envs, turn).appended) == |calls| <==> !ReportBetween(calls, envs, turn)
    decreases |calls|
  {
    if calls != [] {
      var step := StepOf(calls, envs[0], turn);
      if step.Stop? {
        StopIsWhole(calls, envs[0], turn);
      } else if step.Next? {
        StepResults(calls, envs[0], turn);
        WholeExactlyWhenNoReportBetween(calls[1..], envs[1..], step.turn);
        NextIsWhole(calls, envs[0], turn, RunCalls(calls[1..], envs[1..], step.turn).appended);
      }
    }
  }

  /** In particular when no report can come in before the last call, as in a turn that is not itself a sub-turn. */
  predicate NoReportWaits(envs: seq<CallEnv>, turn: Turn) {
    forall i | 0 <= i < |envs| - 1 :: SubTurnMessages(envs[i], turn) == []
  }

  lemma {:induction false} NoneWaitsNoneBetween(calls: seq<ToolCall>, envs: seq<CallEnv>, turn: Turn)
    requires |calls| == |envs| && NoReportWaits(envs, turn)
    ensures !ReportBetween(calls, envs, turn)
    decreases |calls|
  {
    if |calls| > 1 && StepOf(calls, envs[0], turn).Next? {
      assert SubTurnMessages(envs[0], turn) == [];
      var next := StepOf(calls, envs[0], turn).turn;
      assert NoReportWaits(envs[1..], next) by {
        assert forall i | 0 <= i < |envs| - 2 :: envs[1..][i] == envs[i+1];
      }
      NoneWaitsNoneBetween(calls[1..], envs[1..], next);
    }
  }

  /** A sub-turn reports right after the first call; everything is executed. */
  function ReportingFirst(content: string, n: nat): (envs: seq<CallEnv>)
    requires n > 0
    ensures |envs| == n && forall i | 0 <= i < n :: envs[i].subTurn != None ==> i == 0
  {
    [EXECUTE.(subTurn := Some(content))] + Always(EXECUTE, n - 1)
  }

  /**
   * In a turn with a channel for them, a report can tear any group of several calls: the first call runs, and a
   * sub-turn reports right after it.
   */
  lemma {:induction false} ReportTearsGroup(calls: seq<ToolCall>, turn: Turn, content: string)
    requires turn.takesReports && |calls| > 1 && turn.pending == 0 && content != "" && Lookup(turn.completed, calls[0].id).None?
    ensures var envs := ReportingFirst(content, |calls|);
      RunCalls(calls, envs, turn).aborted.None? && ReportBetween(calls, envs, turn)
  {
    var envs := ReportingFirst(content, |calls|);
    assert envs[1..] == Always(EXECUTE, |calls| - 1);
    ExecutingGoesOn(calls[1..], StepOf(calls, envs[0], turn).turn);
  }

  /**
   * The group the loop leaves behind is kept as a whole exactly when no sub-turn reports while calls are still to
   * come; otherwise sanitizing drops all of it but the reports.
   */
  lemma GroupIsKeptExactlyWhenWhole(base: seq<Message>, a: Message, calls: seq<ToolCall>, envs: seq<CallEnv>, turn: Turn)
    requires WellFormed(base) && TailOf(base) in {AfterUser, AfterResult}
    requires |calls| == |envs| == |a.toolCalls| && forall i | 0 <= i < |calls| :: a.toolCalls[i] == calls[i].id
    requires a.CallsTools() && Distinct(a.toolCalls) && "" !in a.toolCalls
    requires Keyed(turn.completed) && IdsUnambiguous(calls, turn)
    requires RunCalls(calls, envs, turn).aborted.None?
    ensures var appended := RunCalls(calls, envs, turn).appended;
      var history := base + ([a] + appended);
      if ReportBetween(calls, envs, turn) then Sanitized(history) == base + Reports(appended) != history
      else Sanitized(history) == history
  {
    var appended := RunCalls(calls, envs, turn).appended;
    UnambiguousGiveOwnAnswers(calls, envs, turn);
    LoopAppendsResultsAndReports(calls, envs, turn);
    WholeExactlyWhenNoReportBetween(calls, envs, turn);
    assert ResultIds(Results(appended)) == a.toolCalls;
    ResultsOfRun(appended);
    if ReportBetween(calls, envs, turn) {
      assert ToolRun(appended) <= |Results(appended)| == |ResultIds(Results(appended))|;
      TornGroupIsDropped(base, a, appended);
      ReportsShorter(appended);
    } else {
      WholeGroupIsWellFormed(base, a, appended);
      WellFormedIsFixed(base + ([a] + appended));
    }
  }

  lemma ReportsShorter(ms: seq<Message>)
    ensures |Reports(ms)| <= |ms|
  {
  }
}
