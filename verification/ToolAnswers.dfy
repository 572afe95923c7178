/** When a call may run, what its answer holds, and what a turn records, told by what the surroundings decide. */
module ToolAnswers {
  import opened Options
  import opened Messages
  import opened Text
  import opened Seqs
  import opened ToolLoop
  import opened ToolLoopLaws

  // ---------------------------------------------------------------- one call

  /** A result is recorded for the call's id without its surrounding space. */
  predicate IsRecorded(tc: ToolCall, completed: map<string, Message>) {
    TrimSpace(tc.id) != "" && TrimSpace(tc.id) in completed
  }

  /** The hook before the call lets it go on; a response without a result counts as that. */
  predicate HookLetsPass(env: CallEnv) {
    env.before == Proceed || env.before == RespondWithoutResult
  }

  /** The turn profile, a hook, or the approval hook says no. */
  predicate IsRefused(env: CallEnv) {
    || !env.profileAllows
    || env.before == Deny
    || (HookLetsPass(env) && !(env.approved && env.profileAllowsRenamed))
  }

  /** The tool is started: nothing is recorded for it, both profile checks and the approval allow it, the hook lets it. */
  predicate IsStarted(tc: ToolCall, env: CallEnv, completed: map<string, Message>) {
    && !env.hardAbortRequested && !IsRecorded(tc, completed)
    && env.profileAllows && HookLetsPass(env) && env.approved && env.profileAllowsRenamed
  }

  /** The tool's result enters the conversation: no abort came in while it ran, and the hook after it keeps it. */
  predicate IsRun(tc: ToolCall, env: CallEnv, completed: map<string, Message>) {
    IsStarted(tc, env, completed) && !env.hardAbortDuring && env.after == Keep
  }

  predicate IsAnsweredByHook(tc: ToolCall, env: CallEnv, completed: map<string, Message>) {
    !env.hardAbortRequested && !IsRecorded(tc, completed) && env.profileAllows && env.before.Respond?
  }

  /** A hook, before or after the call, ends the turn; not an abort from outside that came first. */
  predicate IsAbortedByHook(tc: ToolCall, env: CallEnv, completed: map<string, Message>) {
    || (!env.hardAbortRequested && !IsRecorded(tc, completed) && env.profileAllows && env.before == AbortTurn)
    || (IsStarted(tc, env, completed) && !env.hardAbortDuring && env.after == AbortAfter)
  }

  predicate IsHardAborted(tc: ToolCall, env: CallEnv, completed: map<string, Message>) {
    || env.hardAbortRequested
    || (!IsRecorded(tc, completed) && env.profileAllows && env.before == HardAbort)
    || (IsStarted(tc, env, completed) && (env.hardAbortDuring || env.after == HardAbortAfter))
  }

  /** A message in answer to the call: its text, its id, and the media unless the user was answered with them. */
  predicate Holds(m: Message, id: string, content: string, media: seq<string>, handled: bool) {
    m.role == Tool && m.content == content && m.toolCallId == id && m.toolCalls == []
    && m.media == if handled then [] else media
  }

  /** Each call meets exactly one of six ends, and its answer holds what that end says. */
  lemma EachCallMeetsItsEnd(tc: ToolCall, env: CallEnv, completed: map<string, Message>)
    ensures var effect := EffectOf(tc, env, completed);
      && (effect.Executed? <==> IsRun(tc, env, completed))
      && (effect.Responded? <==> IsAnsweredByHook(tc, env, completed))
      && (effect.Reused? <==> !env.hardAbortRequested && IsRecorded(tc, completed))
      && (effect.Denied? <==> !env.hardAbortRequested && !IsRecorded(tc, completed) && IsRefused(env))
      && (effect == Aborted(true) <==> IsAbortedByHook(tc, env, completed))
      && (effect == Aborted(false) <==> IsHardAborted(tc, env, completed))
    ensures var effect := EffectOf(tc, env, completed);
      && (effect.Executed? ==>
           && effect.responseHandled == env.responseHandled
           && Holds(effect.message, tc.id, env.result, env.media, env.responseHandled))
      && (effect.Responded? ==>
           && effect.responseHandled == env.before.responseHandled
           && Holds(effect.message, tc.id, env.before.content, env.before.media, env.before.responseHandled))
      && (effect.Reused? ==> effect.message == completed[TrimSpace(tc.id)])
      && (effect.Denied? ==> Holds(effect.message, tc.id, env.denial, [], false))
  {
  }

  // ---------------------------------------------------------------- one call in its turn

  /** The call ran or was answered by a hook, and steering or an interrupt waits by then. */
  predicate StopsAfter(tc: ToolCall, env: CallEnv, before: Turn) {
    && (IsRun(tc, env, before.completed) || IsAnsweredByHook(tc, env, before.completed))
    && (before.pending + env.steering > 0 || env.gracefulInterrupt)
  }

  /** What a turn carries on after a call that did not abort it. */
  predicate CarriesOn(tc: ToolCall, env: CallEnv, before: Turn, m: Message, after: Turn) {
    var ran, answered := IsRun(tc, env, before.completed), IsAnsweredByHook(tc, env, before.completed);
    && after.completed ==
         (if ran && TrimSpace(tc.id) != "" then before.completed[TrimSpace(tc.id) := m] else before.completed)
    && after.pending == (if ran || answered then before.pending + env.steering else before.pending)
    && after.handled == (before.handled &&
         if ran then env.responseHandled
         else if answered then env.before.responseHandled
         else IsRecorded(tc, before.completed))
    && after.takesReports == before.takesReports
  }

  /** The answer to a call, and what the turn carries on. */
  predicate IsDue(tc: ToolCall, env: CallEnv, before: Turn, m: Message, after: Turn) {
    && !IsAbortedByHook(tc, env, before.completed) && !IsHardAborted(tc, env, before.completed)
    && CarriesOn(tc, env, before, m, after)
    && if IsRecorded(tc, before.completed) then m == before.completed[TrimSpace(tc.id)]
       else if IsRefused(env) then Holds(m, tc.id, env.denial, [], false)
       else if env.before.Respond? then Holds(m, tc.id, env.before.content, env.before.media, env.before.responseHandled)
       else Holds(m, tc.id, env.result, env.media, env.responseHandled)
  }

  /** A report of a sub-turn comes in after a call that ran or was answered by a hook, unless the loop stops there. */
  predicate ReportsIn(tc: ToolCall, env: CallEnv, before: Turn, report: seq<Message>) {
    if (IsRun(tc, env, before.completed) || IsAnsweredByHook(tc, env, before.completed))
       && before.takesReports && env.subTurn.Some? && env.subTurn.value != ""
    then report == [Message(User, "[SubTurn Result] " + env.subTurn.value, [], "", [])]
    else report == []
  }

  predicate AreSkipped(calls: seq<ToolCall>, ms: seq<Message>, text: string) {
    |ms| == |calls| && forall i | 0 <= i < |calls| :: Holds(ms[i], calls[i].id, text, [], false)
  }

  lemma StepIsDue(calls: seq<ToolCall>, env: CallEnv, turn: Turn) returns (m: Message, more: seq<Message>)
    requires calls != []
    ensures var step, tc := StepOf(calls, env, turn), calls[0];
      && (step.Abort? <==> IsAbortedByHook(tc, env, turn.completed) || IsHardAborted(tc, env, turn.completed))
      && (step.Abort? ==> step.turn == turn && step.byHook == IsAbortedByHook(tc, env, turn.completed))
      && (step.Stop? <==> StopsAfter(tc, env, turn))
      && (!step.Abort? ==> IsDue(tc, env, turn, m, step.turn) && step.front == [m] + more)
      && (step.Next? ==> ReportsIn(tc, env, turn, more))
      && (step.Next? ==> step.seen == if IsRecorded(tc, turn.completed) then 1 else 0)
      && (step.Stop? ==>
           var text := if step.turn.pending > 0 then "Skipped due to queued user message."
                       else "Skipped due to graceful interrupt.";
           AreSkipped(calls[1..], more, text))
  {
    EachCallMeetsItsEnd(calls[0], env, turn.completed);
    var effect, step := EffectOf(calls[0], env, turn.completed), StepOf(calls, env, turn);
    if step.Abort? {
      m, more := ToolMessage("", ""), [];
    } else {
      m, more := effect.message, step.front[1..];
      assert step.front == [m] + more;
    }
  }

  // ---------------------------------------------------------------- a whole run

  /** A call that was handled: what the turn carried before and after, its answer, and the reports that came in. */
  datatype Handled = Handled(
    tc: ToolCall, env: CallEnv, before: Turn, answer: Message, reports: seq<Message>, after: Turn)
  {
    predicate Stops() {
      StopsAfter(tc, env, before)
    }

    predicate Reuses() {
      IsRecorded(tc, before.completed)
    }

    predicate AsDue() {
      && IsDue(tc, env, before, answer, after)
      && if Stops() then reports == [] else ReportsIn(tc, env, before, reports)
    }
  }

  /** What the turn carries when it comes to a call. */
  function TurnAt(turn: Turn, trace: seq<Handled>, i: nat): Turn
    requires i <= |trace|
  {
    if i == 0 then turn else trace[i-1].after
  }

  function MessagesOf(trace: seq<Handled>): seq<Message> {
    if trace == [] then [] else [trace[0].answer] + trace[0].reports + MessagesOf(trace[1..])
  }

  /** The first calls, one after the other, each from what the one before left. */
  predicate Follows(calls: seq<ToolCall>, envs: seq<CallEnv>, turn: Turn, trace: seq<Handled>)
    requires |calls| == |envs|
  {
    |trace| <= |calls| &&
    forall i | 0 <= i < |trace| ::
      trace[i].tc == calls[i] && trace[i].env == envs[i] && trace[i].before == TurnAt(turn, trace, i)
  }

  /** They are answered as is due, the loop going on after each but the last. */
  predicate TraceIsDue(calls: seq<ToolCall>, envs: seq<CallEnv>, turn: Turn, trace: seq<Handled>)
    requires |calls| == |envs|
  {
    && Follows(calls, envs, turn, trace)
    && (forall h | h in trace :: h.AsDue())
    && (forall i | 0 <= i < |trace| - 1 :: !trace[i].Stops())
  }

  /**
   * A run ends with the call that aborts it; or, once steering or an interrupt waits, with all later calls skipped; or
   * with the last call.
   */
  predicate EndIsDue(calls: seq<ToolCall>, envs: seq<CallEnv>, turn: Turn, trace: seq<Handled>, skipped: seq<Message>,
      aborted: Option<bool>, end: Turn)
    requires |trace| <= |calls| == |envs|
  {
    var n := |trace|;
    var stopped := n > 0 && trace[n-1].Stops();
    && end == TurnAt(turn, trace, n)
    && match aborted
       case Some(byHook) =>
         && n < |calls| && !stopped && skipped == []
         && if byHook then IsAbortedByHook(calls[n], envs[n], end.completed)
            else IsHardAborted(calls[n], envs[n], end.completed)
       case None =>
         if stopped then
           var text := if end.pending > 0 then "Skipped due to queued user message."
                       else "Skipped due to graceful interrupt.";
           AreSkipped(calls[n..], skipped, text)
         else n == |calls| && skipped == []
  }

  lemma FollowsOneMore(calls: seq<ToolCall>, envs: seq<CallEnv>, turn: Turn, h: Handled, trace: seq<Handled>)
    requires |calls| == |envs| && calls != [] && Follows(calls[1..], envs[1..], h.after, trace)
    requires h.tc == calls[0] && h.env == envs[0] && h.before == turn
    ensures Follows(calls, envs, turn, [h] + trace)
  {
    var all := [h] + trace;
    forall i | 0 <= i < |all|
      ensures all[i].tc == calls[i] && all[i].env == envs[i] && all[i].before == TurnAt(turn, all, i)
    {
      if i > 0 {
        assert all[i] == trace[i-1] && calls[1..][i-1] == calls[i] && envs[1..][i-1] == envs[i];
        assert TurnAt(turn, all, i) == TurnAt(h.after, trace, i - 1);
      }
    }
  }

  lemma OneMoreHandled(calls: seq<ToolCall>, envs: seq<CallEnv>, turn: Turn, h: Handled, trace: seq<Handled>)
    requires |calls| == |envs| && calls != [] && TraceIsDue(calls[1..], envs[1..], h.after, trace)
    requires h.tc == calls[0] && h.env == envs[0] && h.before == turn && h.AsDue() && !h.Stops()
    ensures TraceIsDue(calls, envs, turn, [h] + trace)
  {
    var all := [h] + trace;
    FollowsOneMore(calls, envs, turn, h, trace);
    forall i | 0 <= i < |all| - 1 ensures !all[i].Stops() {
      assert i > 0 ==> all[i] == trace[i-1];
    }
  }

  lemma EndAfterOneMore(calls: seq<ToolCall>, envs: seq<CallEnv>, turn: Turn, h: Handled, trace: seq<Handled>,
      skipped: seq<Message>, aborted: Option<bool>, end: Turn)
    requires |calls| == |envs| && calls != [] && |trace| <= |calls| - 1 && !h.Stops()
    requires EndIsDue(calls[1..], envs[1..], h.after, trace, skipped, aborted, end)
    ensures EndIsDue(calls, envs, turn, [h] + trace, skipped, aborted, end)
  {
    var all, n := [h] + trace, |trace|;
    assert TurnAt(turn, all, n + 1) == TurnAt(h.after, trace, n);
    assert all[n] == if n == 0 then h else trace[n-1];
    assert calls[1..][n..] == calls[n+1..];
  }

  lemma StoppedMessages(h: Handled, skipped: seq<Message>)
    requires h.reports == [] && !h.Reuses()
    ensures MessagesOf([h]) + skipped == [h.answer] + skipped && SeenIsDue([h], 0, 0)
  {
    MessagesOfOneMore(h, [], skipped);
  }

  lemma StoppedAtOnce(calls: seq<ToolCall>, envs: seq<CallEnv>, turn: Turn, h: Handled, skipped: seq<Message>)
    requires calls != [] && |calls| == |envs| && h.tc == calls[0] && h.env == envs[0] && h.before == turn
    requires h.AsDue() && h.Stops()
    requires var text := if h.after.pending > 0 then "Skipped due to queued user message."
                         else "Skipped due to graceful interrupt.";
      AreSkipped(calls[1..], skipped, text)
    ensures TraceIsDue(calls, envs, turn, [h]) && EndIsDue(calls, envs, turn, [h], skipped, None, h.after)
  {
  }

  /** The turn has seen everything up to the last answer that was reused. */
  predicate SeenIsDue(trace: seq<Handled>, seen: nat, published: nat) {
    && seen <= |trace| && published == |MessagesOf(trace[..seen])|
    && (seen > 0 ==> trace[seen-1].Reuses())
    && forall i | seen <= i < |trace| :: !trace[i].Reuses()
  }

  lemma SeenAfterOneMore(h: Handled, trace: seq<Handled>, seen: nat, published: nat) returns (seen': nat)
    requires SeenIsDue(trace, seen, published) && (h.Reuses() ==> h.reports == [])
    ensures SeenIsDue([h] + trace, seen',
      if published > 0 then |[h.answer] + h.reports| + published else if h.Reuses() then 1 else 0)
  {
    var all := [h] + trace;
    seen' := if seen > 0 then seen + 1 else if h.Reuses() then 1 else 0;
    if seen' > 0 {
      assert all[..seen'][0] == h && all[..seen'][1..] == trace[..seen' - 1];
    }
    if seen > 0 {
      assert trace[..seen] != [];
    }
    forall i | seen' <= i < |all| ensures !all[i].Reuses() {
      assert i > 0 ==> all[i] == trace[i-1];
    }
    assert seen' > 0 ==> all[seen'-1] == if seen > 0 then trace[seen-1] else h;
  }

  lemma MessagesOfOneMore(h: Handled, trace: seq<Handled>, skipped: seq<Message>)
    ensures MessagesOf([h] + trace) + skipped == [h.answer] + h.reports + (MessagesOf(trace) + skipped)
  {
    assert ([h] + trace)[1..] == trace;
    Assoc([h.answer] + h.reports, MessagesOf(trace), skipped);
  }

  /** One call further, the rest of the run being as is due. */
  lemma RunOneMore(calls: seq<ToolCall>, envs: seq<CallEnv>, turn: Turn, h: Handled, trace: seq<Handled>,
      skipped: seq<Message>, seen: nat, rest: Outcome) returns (seen': nat)
    requires |calls| == |envs| && calls != [] && TraceIsDue(calls[1..], envs[1..], h.after, trace)
    requires h.tc == calls[0] && h.env == envs[0] && h.before == turn && h.AsDue() && !h.Stops()
    requires EndIsDue(calls[1..], envs[1..], h.after, trace, skipped, rest.aborted, rest.turn)
    requires rest.appended == MessagesOf(trace) + skipped && SeenIsDue(trace, seen, rest.published)
    ensures TraceIsDue(calls, envs, turn, [h] + trace)
    ensures EndIsDue(calls, envs, turn, [h] + trace, skipped, rest.aborted, rest.turn)
    ensures var r := After([h.answer] + h.reports, if h.Reuses() then 1 else 0, rest);
      r.appended == MessagesOf([h] + trace) + skipped && SeenIsDue([h] + trace, seen', r.published)
  {
    OneMoreHandled(calls, envs, turn, h, trace);
    EndAfterOneMore(calls, envs, turn, h, trace, skipped, rest.aborted, rest.turn);
    seen' := SeenAfterOneMore(h, trace, seen, rest.published);
    MessagesOfOneMore(h, trace, skipped);
  }

  /** Every run goes as is due. */
  lemma {:induction false} RunGoesAsDue(calls: seq<ToolCall>, envs: seq<CallEnv>, turn: Turn)
    returns (trace: seq<Handled>, skipped: seq<Message>, seen: nat)
    requires |calls| == |envs|
    ensures TraceIsDue(calls, envs, turn, trace)
    ensures var r := RunCalls(calls, envs, turn);
      && EndIsDue(calls, envs, turn, trace, skipped, r.aborted, r.turn)
      && r.appended == MessagesOf(trace) + skipped && SeenIsDue(trace, seen, r.published)
    decreases |calls|
  {
    trace, skipped, seen := [], [], 0;
    if calls != [] {
      var step := StepOf(calls, envs[0], turn);
      var m, more := StepIsDue(calls, envs[0], turn);
      if step.Stop? {
        var h := Handled(calls[0], envs[0], turn, m, [], step.turn);
        trace, skipped := [h], more;
        StoppedAtOnce(calls, envs, turn, h, more);
        StoppedMessages(h, more);
      } else if step.Next? {
        var h := Handled(calls[0], envs[0], turn, m, more, step.turn);
        var r, rest := RunCalls(calls[1..], envs[1..], step.turn), trace;
        rest, skipped, seen := RunGoesAsDue(calls[1..], envs[1..], step.turn);
        trace := [h] + rest;
        seen := RunOneMore(calls, envs, turn, h, rest, skipped, seen, r);
      }
    }
  }

  // ---------------------------------------------------------------- what a turn records

  /** The call was let through, and this is its result. */
  predicate IsResultOf(m: Message, tc: ToolCall, env: CallEnv) {
    && env.profileAllows && HookLetsPass(env) && env.approved && env.profileAllowsRenamed
    && Holds(m, tc.id, env.result, env.media, env.responseHandled)
  }

  predicate GainedByCall(calls: seq<ToolCall>, envs: seq<CallEnv>, id: string, m: Message)
    requires |calls| == |envs|
  {
    exists i | 0 <= i < |calls| :: TrimSpace(calls[i].id) == id && IsResultOf(m, calls[i], envs[i])
  }

  lemma StepRecords(calls: seq<ToolCall>, env: CallEnv, turn: Turn)
    requires calls != []
    ensures var before, after := turn.completed, StepOf(calls, env, turn).turn.completed;
      && (forall id | id in before :: id in after && after[id] == before[id])
      && (forall id | id in after && id !in before ::
            TrimSpace(calls[0].id) == id && IsResultOf(after[id], calls[0], env))
  {
    var m, more := StepIsDue(calls, env, turn);
  }

  lemma GainedLater(calls: seq<ToolCall>, envs: seq<CallEnv>, id: string, m: Message)
    requires |calls| == |envs| && calls != [] && GainedByCall(calls[1..], envs[1..], id, m)
    ensures GainedByCall(calls, envs, id, m)
  {
    var i :| 0 <= i < |calls| - 1 && TrimSpace(calls[1..][i].id) == id && IsResultOf(m, calls[1..][i], envs[1..][i]);
    assert TrimSpace(calls[i+1].id) == id && IsResultOf(m, calls[i+1], envs[i+1]);
  }

  /** What a turn has recorded stays, and whatever it gains is the result of a call that was allowed and approved. */
  lemma {:induction false} OnlyApprovedResultsAreRecorded(calls: seq<ToolCall>, envs: seq<CallEnv>, turn: Turn)
    requires |calls| == |envs|
    ensures var completed := RunCalls(calls, envs, turn).turn.completed;
      && (forall id | id in turn.completed :: id in completed && completed[id] == turn.completed[id])
      && (forall id | id in completed && id !in turn.completed :: GainedByCall(calls, envs, id, completed[id]))
    decreases |calls|
  {
    if calls != [] {
      var step := StepOf(calls, envs[0], turn);
      StepRecords(calls, envs[0], turn);
      if step.Next? {
        OnlyApprovedResultsAreRecorded(calls[1..], envs[1..], step.turn);
        var completed := RunCalls(calls[1..], envs[1..], step.turn).turn.completed;
        forall id | id in completed && id !in turn.completed ensures GainedByCall(calls, envs, id, completed[id]) {
          if id !in step.turn.completed {
            GainedLater(calls, envs, id, completed[id]);
          }
        }
      }
    }
  }
}
