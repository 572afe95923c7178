/** Executing the tool calls of one model response: every call gets its answer. */
module ToolLoop {
  import opened Options
  import opened Messages
  import opened Text
  import opened Seqs

  datatype ToolCall = ToolCall(id: string, name: string)

  datatype BeforeDecision = Proceed | Respond(content: string, media: seq<string>, responseHandled: bool)
                          | RespondWithoutResult
                          | Deny | AbortTurn | HardAbort

  datatype AfterDecision = Keep | AbortAfter | HardAbortAfter

  /** What the surroundings decide while one call is handled. */
  datatype CallEnv = CallEnv(
    hardAbortRequested: bool,      // seen before the call
    profileAllows: bool,           // the turn profile, for the tool as called
    before: BeforeDecision,
    approved: bool,
    profileAllowsRenamed: bool,    // the turn profile, for the tool a hook put in its place
    hardAbortDuring: bool,         // seen after the tool ran
    after: AfterDecision,
    result: string,
    media: seq<string>,            // what the result refers to
    responseHandled: bool,         // as it stands once attached media was delivered
    denial: string,
    steering: nat,                 // steering messages that arrived by now
    gracefulInterrupt: bool,
    subTurn: Option<string>)       // a finished sub-turn's result, if one waits

  datatype Control = Continue | Break

  function ToolMessage(content: string, id: string): Message {
    Message(Tool, content, [], id, [])
  }

  /** A result brings its media into the conversation, unless the user was answered with it already. */
  function ResultMessage(content: string, id: string, media: seq<string>, responseHandled: bool): Message {
    ToolMessage(content, id).(media := if responseHandled then [] else media)
  }

  function SubTurnMessage(content: string): Message {
    Message(User, "[SubTurn Result] " + content, [], "", [])
  }

  const SKIPPED_FOR_USER := "Skipped due to queued user message."
  const SKIPPED_FOR_INTERRUPT := "Skipped due to graceful interrupt."

  /** How one call ends: the turn is aborted, or the call is answered. */
  datatype Effect = Aborted(byHook: bool)
                  | Reused(message: Message)
                  | Denied(message: Message)
                  | Responded(message: Message, responseHandled: bool)
                  | Executed(message: Message, responseHandled: bool)
  {
    /** After an answer that ran or came from a hook, the loop looks for reasons to stop early. */
    predicate Checkpoint() {
      Responded? || Executed?
    }
  }

  /** Results are recorded under the trimmed id, so that is what they are found by. */
  function Lookup(completed: map<string, Message>, id: string): Option<Message> {
    if TrimSpace(id) != "" && TrimSpace(id) in completed then Some(completed[TrimSpace(id)]) else None
  }

  function Record(completed: map<string, Message>, id: string, m: Message): map<string, Message> {
    if TrimSpace(id) == "" then completed else completed[TrimSpace(id) := m]
  }

  function EffectOf(tc: ToolCall, env: CallEnv, completed: map<string, Message>): Effect {
    if env.hardAbortRequested then Aborted(false)
    else if Lookup(completed, tc.id).Some? then Reused(Lookup(completed, tc.id).value)
    else if !env.profileAllows then Denied(ToolMessage(env.denial, tc.id))
    else match env.before
      case Respond(content, media, handled) => Responded(ResultMessage(content, tc.id, media, handled), handled)
      case Deny => Denied(ToolMessage(env.denial, tc.id))
      case AbortTurn => Aborted(true)
      case HardAbort => Aborted(false)
      case _ =>
        if !env.approved || !env.profileAllowsRenamed then Denied(ToolMessage(env.denial, tc.id))
        else if env.hardAbortDuring || env.after == HardAbortAfter then Aborted(false)
        else if env.after == AbortAfter then Aborted(true)
        else Executed(ResultMessage(env.result, tc.id, env.media, env.responseHandled), env.responseHandled)
  }

  /** What a turn carries from one call to the next; results of sub-turns reach it only through a channel of its own. */
  datatype Turn = Turn(completed: map<string, Message>, pending: nat, handled: bool, takesReports: bool)

  /** One call's part of the loop: the messages it appends, and how many of them the turn sees at once. */
  datatype Step = Abort(byHook: bool, turn: Turn)
                | Stop(front: seq<Message>, turn: Turn)
                | Next(front: seq<Message>, seen: nat, turn: Turn)

  function Skipped(calls: seq<ToolCall>, text: string): (ms: seq<Message>)
    ensures |ms| == |calls|
    ensures forall i | 0 <= i < |ms| :: ms[i] == ToolMessage(text, calls[i].id)
  {
    if calls == [] then [] else [ToolMessage(text, calls[0].id)] + Skipped(calls[1..], text)
  }

  /** The first of the remaining calls is handled; queued steering or an interrupt answers all later ones too. */
  function StepOf(calls: seq<ToolCall>, env: CallEnv, turn: Turn): (step: Step)
    requires calls != []
    ensures step.Next? ==> step.seen == 0 || step.seen == |step.front|
  {
    var effect := EffectOf(calls[0], env, turn.completed);
    match effect
    case Aborted(byHook) => Abort(byHook, turn)
    case Reused(m) => Next([m], 1, turn)
    case Denied(m) => Next([m], 0, turn.(handled := false))
    case _ =>
      var m := effect.message;
      var turn' := Turn(
        if effect.Executed? then Record(turn.completed, calls[0].id, m) else turn.completed,
        turn.pending + env.steering,
        turn.handled && effect.responseHandled,
        turn.takesReports);
      if turn'.pending > 0 then Stop([m] + Skipped(calls[1..], SKIPPED_FOR_USER), turn')
      else if env.gracefulInterrupt then Stop([m] + Skipped(calls[1..], SKIPPED_FOR_INTERRUPT), turn')
      else Next([m] + SubTurnMessages(env, turn), 0, turn')
  }

  function SubTurnMessages(env: CallEnv, turn: Turn): seq<Message> {
    if turn.takesReports && env.subTurn.Some? && env.subTurn.value != ""
    then [SubTurnMessage(env.subTurn.value)]
    else []
  }

  /** The outcome of the loop; published is how much of appended the turn has seen if the loop aborts. */
  datatype Outcome = Outcome(appended: seq<Message>, published: nat, turn: Turn, aborted: Option<bool>)

  function RunCalls(calls: seq<ToolCall>, envs: seq<CallEnv>, turn: Turn): (r: Outcome)
    requires |calls| == |envs|
    ensures r.published <= |r.appended|
    decreases |calls|
  {
    if calls == [] then Outcome([], 0, turn, None)
    else match StepOf(calls, envs[0], turn)
      case Abort(byHook, turn') => Outcome([], 0, turn', Some(byHook))
      case Stop(front, turn') => Outcome(front, 0, turn', None)
      case Next(front, seen, turn') => After(front, seen, RunCalls(calls[1..], envs[1..], turn'))
  }

  /** The outcome when rest follows what was appended first, of which the turn has seen the given part. */
  function After(front: seq<Message>, published: nat, rest: Outcome): Outcome {
    rest.(appended := front + rest.appended,
          published := if rest.published == 0 then published else |front| + rest.published)
  }

  lemma AfterAfter(a: seq<Message>, p: nat, b: seq<Message>, q: nat, rest: Outcome)
    ensures After(a, p, After(b, q, rest)) == After(a + b, if q == 0 then p else |a| + q, rest)
  {
    Assoc(a, b, rest.appended);
  }

  /** The outcome after the calls before index i, one call further. */
  lemma Unfold(calls: seq<ToolCall>, envs: seq<CallEnv>, i: nat, turn: Turn,
    appended: seq<Message>, published: nat, total: Outcome)
    requires |calls| == |envs| && i < |calls|
    requires total == After(appended, published, RunCalls(calls[i..], envs[i..], turn))
    ensures match StepOf(calls[i..], envs[i], turn)
      case Abort(byHook, turn') => total == Outcome(appended, published, turn', Some(byHook))
      case Stop(front, turn') => total == Outcome(appended + front, published, turn', None)
      case Next(front, seen, turn') =>
        total == After(appended + front, if seen == 0 then published else |appended| + seen,
          RunCalls(calls[i+1..], envs[i+1..], turn'))
  {
    assert calls[i..][1..] == calls[i+1..] && envs[i..][1..] == envs[i+1..];
    var step := StepOf(calls[i..], envs[i], turn);
    if step.Next? {
      AfterAfter(appended, published, step.front, step.seen, RunCalls(calls[i+1..], envs[i+1..], step.turn));
    }
  }

  // ---------------------------------------------------------------- the imperative form

  lemma AfterNothing(appended: seq<Message>, published: nat, turn: Turn)
    ensures After(appended, published, RunCalls([], [], turn)) == Outcome(appended, published, turn, None)
  {
    assert appended + [] == appended;
  }

  /** The loop's own list, and how much of what was appended to it the turn has seen. */
  predicate Sees(start: seq<Message>, local: seq<Message>, messages: seq<Message>, appended: seq<Message>, published: nat) {
    published <= |appended| && local == start + appended && messages == start + appended[..published]
  }

  lemma SeesNext(start: seq<Message>, local: seq<Message>, messages: seq<Message>, appended: seq<Message>, published: nat,
      front: seq<Message>, seen: nat)
    requires Sees(start, local, messages, appended, published) && (seen == 0 || seen == |front|)
    ensures Sees(start, local + front, if seen == 0 then messages else local + front, appended + front,
                 if seen == 0 then published else |appended| + seen)
  {
    Assoc(start, appended, front);
    assert (appended + front)[..published] == appended[..published];
    assert (appended + front)[..|appended + front|] == appended + front;
  }

  class TurnExecution {
    var messages: seq<Message>
    var pendingMessages: nat
    var allResponsesHandled: bool
    var abortedByHook: bool
    var abortedByHardAbort: bool
    var completed: map<string, Message>
    const takesReports: bool         // has a channel for results of sub-turns

    method Abort(byHook: bool)
      modifies `abortedByHook, `abortedByHardAbort
      ensures abortedByHook == (old(abortedByHook) || byHook)
      ensures abortedByHardAbort == (old(abortedByHardAbort) || !byHook)
    {
      if byHook {
        abortedByHook := true;
      } else {
        abortedByHardAbort := true;
      }
    }

    /** What one call comes to; an answer that does not satisfy delivery is noted on the way. */
    method HandleCall(tc: ToolCall, env: CallEnv) returns (effect: Effect)
      modifies `allResponsesHandled, `abortedByHook, `abortedByHardAbort, `completed
      ensures effect == EffectOf(tc, env, old(completed))
      ensures allResponsesHandled ==
        (old(allResponsesHandled) && !effect.Denied? && (effect.Checkpoint() ==> effect.responseHandled))
      ensures abortedByHook == (old(abortedByHook) || (effect.Aborted? && effect.byHook))
      ensures abortedByHardAbort == (old(abortedByHardAbort) || (effect.Aborted? && !effect.byHook))
      ensures completed == if effect.Executed? then Record(old(completed), tc.id, effect.message) else old(completed)
    {
      if env.hardAbortRequested {
        Abort(false);
        return Aborted(false);
      }
      var prior := Lookup(completed, tc.id);
      if prior.Some? { return Reused(prior.value); }
      if !env.profileAllows {
        allResponsesHandled := false;
        return Denied(ToolMessage(env.denial, tc.id));
      }
      match env.before {
        case Respond(content, media, responseHandled) =>
          if !responseHandled {
            allResponsesHandled := false;
          }
          var hookMsg := ToolMessage(content, tc.id);
          if |media| > 0 && !responseHandled {
            hookMsg := hookMsg.(media := media);
          }
          return Responded(hookMsg, responseHandled);
        case Deny =>
          allResponsesHandled := false;
          return Denied(ToolMessage(env.denial, tc.id));
        case AbortTurn =>
          Abort(true);
          return Aborted(true);
        case HardAbort =>
          Abort(false);
          return Aborted(false);
        case _ =>
      }
      if !env.approved || !env.profileAllowsRenamed {
        allResponsesHandled := false;
        return Denied(ToolMessage(env.denial, tc.id));
      }
      if env.hardAbortDuring {
        Abort(false);
        return Aborted(false);
      }
      match env.after {
        case Keep =>
        case AbortAfter =>
          Abort(true);
          return Aborted(true);
        case HardAbortAfter =>
          Abort(false);
          return Aborted(false);
      }
      if !env.responseHandled {
        allResponsesHandled := false;
      }
      var toolResultMsg := ToolMessage(env.result, tc.id);
      if |env.media| > 0 && !env.responseHandled {
        toolResultMsg := toolResultMsg.(media := env.media);
      }
      completed := Record(completed, tc.id, toolResultMsg);
      return Executed(toolResultMsg, env.responseHandled);
    }

    ghost function State(): Turn
      reads `completed, `pendingMessages, `allResponsesHandled
    {
      Turn(completed, pendingMessages, allResponsesHandled, takesReports)
    }

    /** The first of the remaining calls, and the answers to all later ones if the loop is to stop here. */
    method TakeStep(calls: seq<ToolCall>, env: CallEnv) returns (step: Step)
      requires calls != []
      modifies `allResponsesHandled, `abortedByHook, `abortedByHardAbort, `completed, `pendingMessages
      ensures step == StepOf(calls, env, old(State())) && State() == step.turn
      ensures abortedByHook == (old(abortedByHook) || (step.Abort? && step.byHook))
      ensures abortedByHardAbort == (old(abortedByHardAbort) || (step.Abort? && !step.byHook))
    {
      var effect := HandleCall(calls[0], env);
      if effect.Aborted? {
        return Step.Abort(effect.byHook, Turn(completed, pendingMessages, allResponsesHandled, takesReports));
      }
      var front := [effect.message];
      if effect.Checkpoint() {
        pendingMessages := pendingMessages + env.steering;
        var turn := Turn(completed, pendingMessages, allResponsesHandled, takesReports);
        if pendingMessages > 0 || env.gracefulInterrupt {
          var text := if pendingMessages > 0 then SKIPPED_FOR_USER else SKIPPED_FOR_INTERRUPT;
          return Stop(front + Skipped(calls[1..], text), turn);
        }
        return Next(front + SubTurnMessages(env, turn), 0, turn);
      }
      return Next(front, if effect.Reused? then 1 else 0,
                  Turn(completed, pendingMessages, allResponsesHandled, takesReports));
    }

    /** The loop over the calls; on a normal exit the turn has seen everything that was appended. */
    method HandleCalls(calls: seq<ToolCall>, envs: seq<CallEnv>) returns (aborted: bool, ghost r: Outcome)
      requires |calls| == |envs|
      modifies this
      ensures r == RunCalls(calls, envs, old(State())) && State() == r.turn && aborted == r.aborted.Some?
      ensures messages == old(messages) + if aborted then r.appended[..r.published] else r.appended
      ensures abortedByHook == (old(abortedByHook) || r.aborted == Some(true))
      ensures abortedByHardAbort == (old(abortedByHardAbort) || r.aborted == Some(false))
    {
      r := RunCalls(calls, envs, State());
      ghost var start := messages;
      var local := messages;
      ghost var appended: seq<Message>, published: nat := [], 0;
      assert calls[0..] == calls && envs[0..] == envs;
      for i := 0 to |calls|
        invariant Sees(start, local, messages, appended, published)
        invariant abortedByHook == old(abortedByHook) && abortedByHardAbort == old(abortedByHardAbort)
        invariant r == After(appended, published, RunCalls(calls[i..], envs[i..], State()))
      {
        Unfold(calls, envs, i, State(), appended, published, r);
        var step := TakeStep(calls[i..], envs[i]);
        if step.Abort? {
          return true, r;
        }
        Assoc(start, appended, step.front);
        if step.Stop? {
          messages := local + step.front;
          return false, r;
        }
        SeesNext(start, local, messages, appended, published, step.front, step.seen);
        local := local + step.front;
        published := if step.seen == 0 then published else |appended| + step.seen;
        appended := appended + step.front;
        if step.seen > 0 {
          messages := local;
        }
      }
      AfterNothing(appended, published, State());
      assert calls[|calls|..] == [];
      messages := local;
      return false, r;
    }

    method ExecuteTools(calls: seq<ToolCall>, envs: seq<CallEnv>, lateSteering: nat) returns (control: Control)
      requires |calls| == |envs|
      modifies this
      ensures var r := RunCalls(calls, envs, old(State()));
        && completed == r.turn.completed
        && abortedByHook == (old(abortedByHook) || r.aborted == Some(true))
        && abortedByHardAbort == (old(abortedByHardAbort) || r.aborted == Some(false))
        && (r.aborted.Some? ==>
              control == Break && messages == old(messages) + r.appended[..r.published] && State() == r.turn)
        && (r.aborted.None? ==>
              && messages == old(messages) + r.appended
              && pendingMessages == (if r.turn.pending > 0 then r.turn.pending else lateSteering)
              && (control == Break <==> pendingMessages == 0 && r.turn.handled)
              && (allResponsesHandled <==> control == Break))
    {
      var aborted, _ := HandleCalls(calls, envs);
      if aborted { return Break; }
      if pendingMessages > 0 {
        allResponsesHandled := false;
        return Continue;
      }
      if lateSteering > 0 {
        pendingMessages := pendingMessages + lateSteering;
        allResponsesHandled := false;
        return Continue;
      }
      return if allResponsesHandled then Break else Continue;
    }
  }
}
