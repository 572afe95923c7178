/** What a caller of a hook is told is what the process wrote for it, or why the process ended. */
module HookAnswers {
  import opened HookCalls

  /** Somewhere in the run the reader takes a line with this body for the call, which is pending then. */
  predicate LineTaken(st: State, actions: seq<Action>, c: nat, body: string)
    decreases |actions|
  {
    actions != [] && Enabled(st, actions[0]) &&
    (|| (actions[0] == ReadLine(IdOf(c), body) && IdOf(c) in st.pending)
     || LineTaken(Apply(st, actions[0]), actions[1..], c, body))
  }

  /** The reply is on its way to the call, or was sent, or was taken. */
  predicate IsFor(st: State, c: nat, r: Reply) {
    || st.reader == Delivering(c, r)
    || (r.ExitError? && st.exit == FailPut(c, r.reason))
    || (c < |st.calls| && (Put(r) in st.calls[c].channel.log || st.calls[c].phase == Left(Got(r))))
  }

  /** The caller can take the reply, or left with it. */
  predicate Sees(st: State, c: nat, r: Reply) {
    c < |st.calls| &&
    (|| st.calls[c].phase == Left(Got(r))
     || (st.calls[c].phase.Waiting? && Got(r) in Available(st.calls[c].channel)))
  }

  // ---------------------------------------------------------------- where a response comes from

  lemma ReaderBringsOnlyItsLine(st: State, a: Action, c: nat, r: Reply)
    requires Enabled(st, a) && ByReader(a) && IsFor(Apply(st, a), c, r) && !IsFor(st, c, r)
    ensures r.Response? && a == ReadLine(r.id, r.body) && r.id == IdOf(c) && r.id in st.pending
  {
  }

  lemma CallersBringNothing(st: State, a: Action, c: nat, r: Reply)
    requires Enabled(st, a) && ByCaller(a) && IsFor(Apply(st, a), c, r)
    ensures IsFor(st, c, r)
  {
    if a.Receive? {
      var log := st.calls[a.call].channel.log;
      assert log != [] ==> log[0] in log;
    } else if a.Remove? {
    } else {
    }
  }

  lemma ExitBringsOnlyItsError(st: State, a: Action, c: nat, r: Reply)
    requires Enabled(st, a) && !ByReader(a) && !ByCaller(a) && IsFor(Apply(st, a), c, r) && !IsFor(st, c, r)
    ensures r.ExitError? && a == FailOne(c) && st.exit == Failing(r.reason)
  {
  }

  lemma {:induction false} ResponseWasRead(st: State, actions: seq<Action>, end: State, c: nat, r: Reply)
    requires Leads(st, actions, end) && r.Response? && IsFor(end, c, r)
    ensures IsFor(st, c, r) || (r.id == IdOf(c) && LineTaken(st, actions, c, r.body))
    decreases |actions|
  {
    if actions != [] {
      ResponseWasRead(Apply(st, actions[0]), actions[1..], end, c, r);
      if IsFor(Apply(st, actions[0]), c, r) && !IsFor(st, c, r) {
        if ByReader(actions[0]) {
          ReaderBringsOnlyItsLine(st, actions[0], c, r);
        } else if ByCaller(actions[0]) {
          CallersBringNothing(st, actions[0], c, r);
        } else {
          ExitBringsOnlyItsError(st, actions[0], c, r);
        }
      }
    }
  }

  // ---------------------------------------------------------------- where an exit error comes from

  predicate ExitedWith(e: Exit, reason: string) {
    (e.Exited? || e.Failing? || e.FailPut? || e.FailShut?) && e.reason == reason
  }

  lemma ExitedByProcess(st: State, a: Action, reason: string)
    requires Enabled(st, a) && ExitedWith(Apply(st, a).exit, reason)
    ensures ExitedWith(st.exit, reason) || a == ProcessExits(reason)
  {
  }

  lemma {:induction false} ErrorIsTheExits(st: State, actions: seq<Action>, end: State, c: nat, reason: string)
    requires Leads(st, actions, end) && (IsFor(end, c, ExitError(reason)) || ExitedWith(end.exit, reason))
    requires !st.reader.Delivering? || st.reader.reply.Response?
    ensures IsFor(st, c, ExitError(reason)) || ExitedWith(st.exit, reason) || ProcessExits(reason) in actions
    decreases |actions|
  {
    if actions != [] {
      var a, next, r := actions[0], Apply(st, actions[0]), ExitError(reason);
      ErrorIsTheExits(next, actions[1..], end, c, reason);
      if ExitedWith(next.exit, reason) {
        ExitedByProcess(st, a, reason);
      } else if IsFor(next, c, r) && !IsFor(st, c, r) {
        if ByReader(a) {
          ReaderBringsOnlyItsLine(st, a, c, r);
        } else if ByCaller(a) {
          CallersBringNothing(st, a, c, r);
        } else {
          ExitBringsOnlyItsError(st, a, c, r);
        }
      }
    }
  }

  // ---------------------------------------------------------------- and nothing else is seen

  lemma ReplyStays(st: State, a: Action, c: nat, r: Reply)
    requires Enabled(st, a) && IsFor(st, c, r) && Inv(st)
    ensures IsFor(Apply(st, a), c, r)
  {
    assert CallIsFine(st, c);
    if ByCaller(a) {
    } else if ByReader(a) {
    } else {
    }
  }

  lemma {:induction false} TakenLineIsForItsCall(st: State, actions: seq<Action>, end: State, c: nat, body: string)
    requires Inv(st) && Leads(st, actions, end)
    requires LineTaken(st, actions, c, body) || IsFor(st, c, Response(IdOf(c), body))
    ensures IsFor(end, c, Response(IdOf(c), body))
    decreases |actions|
  {
    if actions != [] {
      InvIsKept(st, actions[0]);
      if IsFor(st, c, Response(IdOf(c), body)) {
        ReplyStays(st, actions[0], c, Response(IdOf(c), body));
      }
      TakenLineIsForItsCall(Apply(st, actions[0]), actions[1..], end, c, body);
    }
  }

  /** Whoever left with a reply took it from its channel. */
  predicate TakenFromChannel(st: State) {
    forall c | 0 <= c < |st.calls| && st.calls[c].phase.Left? && st.calls[c].phase.outcome.Got? ::
      Put(st.calls[c].phase.outcome.reply) in st.calls[c].channel.log
  }

  lemma StepKeepsTaken(st: State, a: Action)
    requires TakenFromChannel(st) && Enabled(st, a)
    ensures TakenFromChannel(Apply(st, a))
  {
    if ByCaller(a) {
    } else if ByReader(a) {
    } else {
    }
  }

  lemma {:induction false} RunKeepsTaken(st: State, actions: seq<Action>, end: State)
    requires TakenFromChannel(st) && Leads(st, actions, end)
    ensures TakenFromChannel(end)
    decreases |actions|
  {
    if actions != [] {
      StepKeepsTaken(st, actions[0]);
      RunKeepsTaken(Apply(st, actions[0]), actions[1..], end);
    }
  }

  lemma OneReplyIsSeen(st: State, c: nat, r: Reply, other: Reply)
    requires Inv(st) && TakenFromChannel(st) && Sees(st, c, r) && IsFor(st, c, other)
    ensures r == other
  {
    assert CallIsFine(st, c);
  }

  /**
   * In every run, a reply that a caller leaves with or can take is, word for word, a line the reader took for that call
   * while it was pending, or the reason the process exited with; and a line taken for it is the only reply it sees.
   */
  lemma CallersSeeWhatWasRead(actions: seq<Action>, st: State, c: nat, r: Reply)
    requires Leads(START, actions, st) && Sees(st, c, r)
    ensures r.Response? ==> r.id == IdOf(c) && LineTaken(START, actions, c, r.body)
    ensures r.ExitError? ==> ProcessExits(r.reason) in actions
    ensures forall body | LineTaken(START, actions, c, body) :: r == Response(IdOf(c), body)
  {
    InvOnRuns(START, actions, st);
    RunKeepsTaken(START, actions, st);
    if r.Response? {
      ResponseWasRead(START, actions, st, c, r);
    } else {
      ErrorIsTheExits(START, actions, st, c, r.reason);
    }
    forall body | LineTaken(START, actions, c, body) ensures r == Response(IdOf(c), body) {
      TakenLineIsForItsCall(START, actions, st, c, body);
      OneReplyIsSeen(st, c, r, Response(IdOf(c), body));
    }
  }

  /** A line that answers no pending call changes nothing, however often it comes. */
  lemma OtherLinesChangeNothing(st: State, id: nat, body: string)
    requires Reachable(st) && Enabled(st, ReadLine(id, body))
    ensures Apply(st, ReadLine(id, body)) == st <==> !exists c: nat :: IdOf(c) == id && IsPending(st, c)
  {
    assert id > 0 && IdOf(id - 1) == id;
  }

  /** A closed hook admits no further call. */
  lemma {:induction false} ClosedAdmitsNone(st: State, actions: seq<Action>, end: State)
    requires st.closed && Leads(st, actions, end)
    ensures end.closed && |end.calls| == |st.calls|
    decreases |actions|
  {
    if actions != [] {
      ClosedAdmitsNone(Apply(st, actions[0]), actions[1..], end);
    }
  }
}
