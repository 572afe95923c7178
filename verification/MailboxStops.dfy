/** A stop that is left pending goes to the next look of its session, which may be that of another message. */
module MailboxStops {
  import opened Options
  import opened Mailbox
  import opened MailboxRuns
  import opened MailboxLaws

  // ---------------------------------------------------------------- who takes a stop

  predicate IsLook(e: Event, session: string) {
    e.Looked? && e.session == session
  }

  /** A stop was left, and nobody of the session has looked since. */
  predicate WaitsToBeTaken(history: seq<Event>, session: string) {
    exists j | 0 <= j < |history| ::
      history[j] == Armed(session) && forall k | j < k < |history| :: !IsLook(history[k], session)
  }

  /** The same, from the end of the record. */
  predicate StopIsPending(history: seq<Event>, session: string) {
    history != [] &&
    var n := |history| - 1;
    history[n] == Armed(session) || (!IsLook(history[n], session) && StopIsPending(history[..n], session))
  }

  lemma {:induction false} PendingMeansWaiting(history: seq<Event>, session: string)
    ensures StopIsPending(history, session) <==> WaitsToBeTaken(history, session)
    decreases |history|
  {
    if history != [] {
      var n := |history| - 1;
      PendingMeansWaiting(history[..n], session);
      if StopIsPending(history[..n], session) && !IsLook(history[n], session) {
        var j :| 0 <= j < n && history[..n][j] == Armed(session)
          && forall k | j < k < n :: !IsLook(history[..n][k], session);
        forall k | j < k <= n ensures !IsLook(history[k], session) {
          assert k < n ==> history[..n][k] == history[k];
        }
        assert history[j] == Armed(session);
      }
      if WaitsToBeTaken(history, session) && history[n] != Armed(session) {
        var j :| 0 <= j <= n && history[j] == Armed(session) && forall k | j < k <= n :: !IsLook(history[k], session);
        assert j < n && history[..n][j] == Armed(session);
        assert !IsLook(history[n], session);
        assert forall k | j < k < n :: !IsLook(history[..n][k], session);
      }
    }
  }

  lemma OneMoreChange(history: seq<Event>, e: Event, session: string)
    ensures StopIsPending(history + [e], session) <==>
      e == Armed(session) || (!IsLook(e, session) && StopIsPending(history, session))
  {
    assert (history + [e])[..|history|] == history;
  }

  /** What the record gains tells what happens to the pending stops. */
  predicate TellsStops(st: State, next: State) {
    if next.history == st.history then next.pendingStops == st.pendingStops
    else
      next.history != [] && var e := next.history[|next.history|-1];
      && next.history == st.history + [e]
      && (e.Looked? ==> (e.hit <==> e.session in st.pendingStops))
      && next.pendingStops ==
         (if e.Armed? then st.pendingStops + {e.session}
          else if e.Looked? then st.pendingStops - {e.session}
          else st.pendingStops)
  }

  lemma MoveTellsStops(st: State, next: State, w: nat)
    requires Moves(st, next, w)
    ensures TellsStops(st, next)
  {
    var noted := Noted(st, w, next.workers[w].phase);
    if noted != [] {
      assert next.history == st.history + [noted[0]];
    } else {
      assert next.history == st.history;
    }
  }

  lemma StepTellsStops(st: State, a: Action)
    requires Enabled(st, a)
    ensures TellsStops(st, Apply(st, a))
  {
    if IsQuiet(a) {
      QuietStep(st, a);
    } else if IsMove(a) {
      MoveStep(st, a);
      MoveTellsStops(st, Apply(st, a), Mover(st, a));
    }
  }

  /** Every look on record hit exactly if a stop was pending then, and the pending stops are those on record. */
  ghost predicate RecordIsTrue(st: State) {
    && (forall i | 0 <= i < |st.history| && st.history[i].Looked? ::
          st.history[i].hit <==> StopIsPending(st.history[..i], st.history[i].session))
    && (forall s :: s in st.pendingStops <==> StopIsPending(st.history, s))
  }

  lemma StepKeepsRecord(st: State, next: State)
    requires RecordIsTrue(st) && TellsStops(st, next)
    ensures RecordIsTrue(next)
  {
    if next.history != st.history {
      var n := |st.history|;
      var e := next.history[n];
      forall s ensures s in next.pendingStops <==> StopIsPending(next.history, s) {
        OneMoreChange(st.history, e, s);
      }
      forall i | 0 <= i <= n && next.history[i].Looked?
        ensures next.history[i].hit <==> StopIsPending(next.history[..i], next.history[i].session)
      {
        assert next.history[..i] == st.history[..i];
        assert i == n ==> st.history[..i] == st.history;
      }
    }
  }

  lemma {:induction false} RunKeepsRecord(st: State, actions: seq<Action>, end: State)
    requires RecordIsTrue(st) && Leads(st, actions, end)
    ensures RecordIsTrue(end)
    decreases |actions|
  {
    if actions != [] {
      StepTellsStops(st, actions[0]);
      StepKeepsRecord(st, Apply(st, actions[0]));
      RunKeepsRecord(Apply(st, actions[0]), actions[1..], end);
    }
  }

  lemma ReachableKeepsRecord(capacity: nat, st: State)
    requires Reachable(capacity, st)
    ensures RecordIsTrue(st)
  {
    var actions :| Leads(Initial(capacity), actions, st);
    RunKeepsRecord(Initial(capacity), actions, st);
  }

  /** In every run, on any channel, a look finds a stop exactly if one was left after the session's previous look. */
  lemma LookHitsExactlyWhenArmed(capacity: nat, st: State, i: nat)
    requires Reachable(capacity, st) && i < |st.history| && st.history[i].Looked?
    ensures st.history[i].hit <==> WaitsToBeTaken(st.history[..i], st.history[i].session)
  {
    ReachableKeepsRecord(capacity, st);
    PendingMeansWaiting(st.history[..i], st.history[i].session);
  }

  /** A stop stays pending until a look of its session takes it; the look ends the worker's run, or the turn. */
  lemma StopIsTakenByALook(st: State, a: Action, session: string)
    requires Enabled(st, a) && session in st.pendingStops
    ensures session !in Apply(st, a).pendingStops <==>
      || (a.CheckStop? && st.workers[a.worker].session == session)
      || (a.Look? && st.workers[a.worker].session == session)
      || a == LookBeside(session)
    ensures session !in Apply(st, a).pendingStops && !a.LookBeside? ==>
      Apply(st, a).workers[a.worker].phase == if a.CheckStop? then Draining else Aborting
    ensures session !in Apply(st, a).pendingStops && a.CheckStop? ==> session !in Apply(st, a).active
  {
    if IsQuiet(a) {
    } else if IsMove(a) {
      MoveStep(st, a);
    }
  }

  // ---------------------------------------------------------------- stopped before the first message

  /** Has yet to look for a pending stop before its first message. */
  predicate Unchecked(p: Phase) {
    p.Unspawned? || p.Waiting? || p.Ready?
  }

  /** On the way out, or stopped: starts no message any more. */
  predicate Out(p: Phase) {
    p.Draining? || !AtWork(p)
  }

  /** The worker has a stop coming, or is out. */
  predicate Doomed(st: State, w: nat) {
    w < |st.workers| &&
    (Out(st.workers[w].phase) || (Unchecked(st.workers[w].phase) && st.workers[w].session in st.pendingStops))
  }

  /** The session is fed by channels that answer each message, and no turn beside its mailbox took a stop. */
  predicate OnlyItsOwnLook(history: seq<Event>, session: string) {
    FedIndependently(history, session) && Looked(session, OtherTurn, true) !in history
  }

  lemma OwnLooksGoBack(history: seq<Event>, more: seq<Event>, session: string)
    requires OnlyItsOwnLook(more, session) && history <= more
    ensures OnlyItsOwnLook(history, session)
  {
    assert more == history + more[|history|..];
    FeedingGoesBack(history, more[|history|..], session);
  }

  lemma OtherLookIsOnRecord(st: State, session: string)
    requires session in st.pendingStops
    ensures Looked(session, OtherTurn, true) in Apply(st, LookBeside(session)).history
  {
    assert Apply(st, LookBeside(session)).history[|st.history|] == Looked(session, OtherTurn, true);
  }

  /** A pending stop of a session is taken by its one worker at work, if by any. */
  lemma OnlyTheWorkerTakes(st: State, a: Action, w: nat)
    requires Inv(st) && Enabled(st, a) && w < |st.workers| && AtWork(st.workers[w].phase)
    requires OnlyItsOwnLook(Apply(st, a).history, st.workers[w].session)
    requires st.workers[w].session in st.pendingStops && st.workers[w].session !in Apply(st, a).pendingStops
    ensures (a.CheckStop? || a.Look?) && a.worker == w && w < |Apply(st, a).workers|
    ensures Apply(st, a).workers[w].phase == if a.CheckStop? then Draining else Aborting
  {
    var session := st.workers[w].session;
    StopIsTakenByALook(st, a, session);
    StepAddsToRecord(st, a);
    OwnLooksGoBack(st.history, Apply(st, a).history, session);
    OtherLookIsOnRecord(st, session);
    assert Owns(st.table, session, w) && AtWork(st.workers[a.worker].phase) && Owns(st.table, session, a.worker);
  }

  /** What a step can do to a worker. */
  predicate Follows(worker: Worker, next: Worker) {
    && next.session == worker.session
    && var p, q := worker.phase, next.phase;
      || next == worker
      || Edge(p, q)
      || (p.Finished? && (q.Placing? || q.Leaving?))
      || (p.Releasing? && q.Gone?)
  }

  lemma StepOfWorker(st: State, a: Action, w: nat)
    requires Enabled(st, a) && w < |st.workers|
    ensures w < |Apply(st, a).workers| && Follows(st.workers[w], Apply(st, a).workers[w])
  {
    if IsQuiet(a) {
      QuietStep(st, a);
    } else if IsMove(a) {
      MoveStep(st, a);
    }
  }

  lemma StartsOfStep(st: State, a: Action, w: nat)
    requires Enabled(st, a) && w < |st.workers|
    ensures StartedBy(Apply(st, a).history, w) ==
      StartedBy(st.history, w) + if a == Start(w) then [st.workers[w].current] else []
  {
    if IsQuiet(a) {
      QuietStep(st, a);
      if Apply(st, a).history != st.history {
        OneMoreEvent(st.history, Apply(st, a).history[|st.history|], "", w);
      }
    } else if IsMove(a) {
      StartsOfMove(st, a, w);
    } else if a.Receive? {
      StartsOfReceiving(st, a.session, a.msg, w);
    }
  }

  lemma StartsOfReceiving(st: State, session: string, msg: Inbound, w: nat)
    ensures StartedBy(Received(st, session, msg).history, w) == StartedBy(st.history, w)
  {
    OneMoreEvent(st.history, Received(st, session, msg).history[|st.history|], session, w);
  }

  lemma StartsOfMove(st: State, a: Action, w: nat)
    requires Enabled(st, a) && IsMove(a)
    ensures StartedBy(Apply(st, a).history, w) ==
      StartedBy(st.history, w) + if a == Start(w) then [st.workers[w].current] else []
  {
    var next, v := Apply(st, a), Mover(st, a);
    MoveStep(st, a);
    var noted := Noted(st, v, next.workers[v].phase);
    if noted != [] {
      OneMoreEvent(st.history, noted[0], "", w);
      assert next.history == st.history + [noted[0]];
    } else {
      assert next.history == st.history;
    }
  }

  /** Someone who looks finds what is pending. */
  lemma LookerFinds(st: State, a: Action, w: nat)
    requires Enabled(st, a) && w < |st.workers| && Looks(st.workers[w].phase)
    requires st.workers[w].session in st.pendingStops
    ensures w < |Apply(st, a).workers|
    ensures var q := Apply(st, a).workers[w].phase; q == st.workers[w].phase || q.Draining? || q.Aborting?
  {
    if IsQuiet(a) {
      QuietStep(st, a);
    } else if IsMove(a) {
      MoveStep(st, a);
    }
  }

  /** What a step does to a worker of a session in which only it looks, as long as it is at work. */
  predicate GoesOnAlone(st: State, next: State, w: nat) {
    && w < |st.workers| && w < |next.workers| && Follows(st.workers[w], next.workers[w])
    && var worker, q := st.workers[w], next.workers[w].phase;
      var stopped := q.Draining? || q.Aborting?;
      && StartedBy(next.history, w) ==
           StartedBy(st.history, w) + (if q.Handling? && worker.phase.Starting? then [worker.current] else [])
      && (AtWork(worker.phase) && worker.session in st.pendingStops ==>
           && (worker.session !in next.pendingStops ==> stopped)
           && (Looks(worker.phase) && q != worker.phase ==> stopped))
  }

  lemma TakenFromIsStopped(st: State, a: Action, w: nat)
    requires Inv(st) && Enabled(st, a) && w < |st.workers| && AtWork(st.workers[w].phase)
    requires OnlyItsOwnLook(Apply(st, a).history, st.workers[w].session) && st.workers[w].session in st.pendingStops
    requires w < |Apply(st, a).workers|
    ensures var worker, q := st.workers[w], Apply(st, a).workers[w].phase;
      && (worker.session !in Apply(st, a).pendingStops ==> q.Draining? || q.Aborting?)
      && (Looks(worker.phase) && q != worker.phase ==> q.Draining? || q.Aborting?)
  {
    if st.workers[w].session !in Apply(st, a).pendingStops {
      OnlyTheWorkerTakes(st, a, w);
    }
    if Looks(st.workers[w].phase) {
      LookerFinds(st, a, w);
    }
  }

  lemma StartMoves(st: State, a: Action, w: nat)
    requires Enabled(st, a) && w < |st.workers| && w < |Apply(st, a).workers|
    ensures a == Start(w) <==> st.workers[w].phase.Starting? && Apply(st, a).workers[w].phase.Handling?
  {
    if IsQuiet(a) {
      QuietStep(st, a);
    } else if IsMove(a) {
      MoveStep(st, a);
    }
  }

  lemma StepGoesOnAlone(st: State, a: Action, w: nat)
    requires Inv(st) && Enabled(st, a) && w < |st.workers|
    requires OnlyItsOwnLook(Apply(st, a).history, st.workers[w].session)
    ensures GoesOnAlone(st, Apply(st, a), w)
  {
    StepOfWorker(st, a, w);
    StartsOfStep(st, a, w);
    StartMoves(st, a, w);
    if AtWork(st.workers[w].phase) && st.workers[w].session in st.pendingStops {
      TakenFromIsStopped(st, a, w);
    }
  }

  lemma DoomedGoesOn(st: State, next: State, w: nat)
    requires Doomed(st, w) && GoesOnAlone(st, next, w)
    ensures Doomed(next, w) && StartedBy(next.history, w) == StartedBy(st.history, w)
  {
  }

  lemma {:induction false} DoomedStartsNothing(st: State, actions: seq<Action>, end: State, w: nat)
    requires Inv(st) && Doomed(st, w) && Leads(st, actions, end)
    requires OnlyItsOwnLook(end.history, st.workers[w].session)
    ensures Doomed(end, w) && end.workers[w].session == st.workers[w].session
    ensures StartedBy(end.history, w) == StartedBy(st.history, w)
    decreases |actions|
  {
    if actions != [] {
      var next := Apply(st, actions[0]);
      RecordGrows(next, actions[1..], end);
      OwnLooksGoBack(next.history, end.history, st.workers[w].session);
      StepGoesOnAlone(st, actions[0], w);
      DoomedGoesOn(st, next, w);
      InvIsKept(st, actions[0]);
      DoomedStartsNothing(next, actions[1..], end, w);
    }
  }

  // ---------------------------------------------------------------- stopped in its turn

  /** The look of the current message's turn, if it gets one, is still to come. */
  predicate BeforeLook(p: Phase) {
    p.Placing? || p.Starting? || p.Handling? || p.Looking?
  }

  predicate Since(history: seq<Event>, from: nat, e: Event) {
    exists i | from <= i < |history| :: history[i] == e
  }

  /** The turn of the worker's nth message looked, and found a stop. */
  predicate StoppedSince(st: State, from: nat, w: nat, nth: nat)
    requires w < |st.workers|
  {
    Since(st.history, from, Looked(st.workers[w].session, TurnOf(w, nth), true))
  }

  predicate LookedSince(st: State, from: nat, w: nat, nth: nat)
    requires w < |st.workers|
  {
    StoppedSince(st, from, w, nth) || Since(st.history, from, Looked(st.workers[w].session, TurnOf(w, nth), false))
  }

  /** The turn of the worker's nth message has looked, or ended without. */
  predicate Beyond(st: State, w: nat, nth: nat) {
    w < |st.workers| &&
    var begun, p := |StartedBy(st.history, w)|, st.workers[w].phase;
    nth < begun || (nth == begun && !p.Handling? && !p.Looking?)
  }

  lemma StepStaysBeyond(st: State, a: Action, w: nat, nth: nat)
    requires Beyond(st, w, nth) && Enabled(st, a)
    ensures Beyond(Apply(st, a), w, nth)
  {
    StepOfWorker(st, a, w);
    StartsOfStep(st, a, w);
  }

  /** Only the turn of the current message looks, as the one it is. */
  lemma LookIsOfCurrent(st: State, a: Action, session: string, w: nat, nth: nat, hit: bool)
    requires Enabled(st, a) && w < |st.workers| && Apply(st, a).history != st.history
    requires Apply(st, a).history[|st.history|] == Looked(session, TurnOf(w, nth), hit)
    ensures a == Look(w) && nth == |StartedBy(st.history, w)|
    ensures hit <==> st.workers[w].session in st.pendingStops
  {
    if IsQuiet(a) {
      QuietStep(st, a);
    } else if IsMove(a) {
      MoveStep(st, a);
    }
  }

  lemma BeyondNeverLooks(st: State, a: Action, w: nat, nth: nat)
    requires Beyond(st, w, nth) && Enabled(st, a)
    ensures |Apply(st, a).workers| > w && !LookedSince(Apply(st, a), |st.history|, w, nth)
  {
    StepOfWorker(st, a, w);
    if LookedSince(Apply(st, a), |st.history|, w, nth) {
      var session, hit :|
        session == st.workers[w].session
        && Since(Apply(st, a).history, |st.history|, Looked(session, TurnOf(w, nth), hit));
      StepTellsStops(st, a);
      LookIsOfCurrent(st, a, session, w, nth, hit);
    }
  }

  lemma SinceSplits(history: seq<Event>, middle: seq<Event>, end: seq<Event>, e: Event)
    requires history <= middle <= end
    ensures Since(end, |history|, e) <==> Since(middle, |history|, e) || Since(end, |middle|, e)
  {
    if Since(middle, |history|, e) {
      var i :| |history| <= i < |middle| && middle[i] == e;
      assert end[i] == e;
    }
    if Since(end, |history|, e) {
      var i :| |history| <= i < |end| && end[i] == e;
      assert i < |middle| ==> middle[i] == e;
    }
  }

  lemma {:induction false} NoLookBeyond(st: State, actions: seq<Action>, end: State, w: nat, nth: nat)
    requires Beyond(st, w, nth) && Leads(st, actions, end)
    ensures Beyond(end, w, nth) && end.workers[w].session == st.workers[w].session
    ensures !LookedSince(end, |st.history|, w, nth)
    decreases |actions|
  {
    if actions != [] {
      var next, session := Apply(st, actions[0]), st.workers[w].session;
      StepOfWorker(st, actions[0], w);
      StepStaysBeyond(st, actions[0], w, nth);
      BeyondNeverLooks(st, actions[0], w, nth);
      NoLookBeyond(next, actions[1..], end, w, nth);
      StepAddsToRecord(st, actions[0]);
      RecordGrows(next, actions[1..], end);
      SinceSplits(st.history, next.history, end.history, Looked(session, TurnOf(w, nth), true));
      SinceSplits(st.history, next.history, end.history, Looked(session, TurnOf(w, nth), false));
    }
  }

  /** The turn of the worker's nth message is still to look, with a stop pending. */
  predicate Awaits(st: State, w: nat, nth: nat) {
    && w < |st.workers| && BeforeLook(st.workers[w].phase) && |Begun(st, w)| == nth
    && st.workers[w].session in st.pendingStops
  }

  lemma AwaitingGoesOn(st: State, next: State, w: nat, nth: nat)
    requires Awaits(st, w, nth) && GoesOnAlone(st, next, w)
    ensures Awaits(next, w, nth) || Beyond(next, w, nth)
  {
  }

  lemma NoMissWhilePending(st: State, a: Action, w: nat, nth: nat)
    requires Enabled(st, a) && w < |st.workers| && st.workers[w].session in st.pendingStops
    ensures !Since(Apply(st, a).history, |st.history|, Looked(st.workers[w].session, TurnOf(w, nth), false))
  {
    StepTellsStops(st, a);
  }

  lemma {:induction false} AwaitingMissesNone(st: State, actions: seq<Action>, end: State, w: nat, nth: nat)
    requires Inv(st) && Awaits(st, w, nth) && Leads(st, actions, end)
    requires OnlyItsOwnLook(end.history, st.workers[w].session)
    ensures w < |end.workers| && end.workers[w].session == st.workers[w].session
    ensures !Since(end.history, |st.history|, Looked(st.workers[w].session, TurnOf(w, nth), false))
    decreases |actions|
  {
    if actions != [] {
      var next := Apply(st, actions[0]);
      StepAddsToRecord(st, actions[0]);
      RecordGrows(next, actions[1..], end);
      OwnLooksGoBack(next.history, end.history, st.workers[w].session);
      StepGoesOnAlone(st, actions[0], w);
      AwaitingGoesOn(st, next, w, nth);
      NoMissWhilePending(st, actions[0], w, nth);
      SinceSplits(st.history, next.history, end.history, Looked(st.workers[w].session, TurnOf(w, nth), false));
      if Awaits(next, w, nth) {
        InvIsKept(st, actions[0]);
        AwaitingMissesNone(next, actions[1..], end, w, nth);
      } else {
        NoLookBeyond(next, actions[1..], end, w, nth);
      }
    }
  }

  /**
   * A stop that is left pending is meant for the message a worker of the session has at the time. A worker that has
   * not looked yet starts nothing any more, in any continuation. Otherwise the turn of that message is stopped if and
   * only if the stop was left before the look of that turn, and the turn does get to its look.
   */
  lemma StopHitsItsMessageExactlyWhen(capacity: nat, st: State, w: nat, actions: seq<Action>, end: State)
    requires Reachable(capacity, st) && st.dispatcher.Arming? && w < |st.workers|
    requires st.workers[w].session == st.dispatcher.session
    requires AtWork(st.workers[w].phase) && !st.workers[w].phase.Draining?
    requires Leads(Apply(st, Arm), actions, end) && OnlyItsOwnLook(end.history, st.dispatcher.session)
    ensures w < |end.workers|
    ensures Unchecked(st.workers[w].phase) ==>
      Out(end.workers[w].phase) || (Unchecked(end.workers[w].phase) && st.dispatcher.session in end.pendingStops)
    ensures Unchecked(st.workers[w].phase) ==> StartedBy(end.history, w) == StartedBy(st.history, w)
    ensures !Unchecked(st.workers[w].phase) ==>
      var nth, from := |Begun(st, w)|, |st.history|;
      StoppedSince(end, from, w, nth) <==> BeforeLook(st.workers[w].phase) && LookedSince(end, from, w, nth)
  {
    var armed, session, nth := Apply(st, Arm), st.dispatcher.session, |Begun(st, w)|;
    ReachableKeepsInv(capacity, st);
    InvIsKept(st, Arm);
    StartsOfStep(st, Arm, w);
    RecordGrows(armed, actions, end);
    if Unchecked(st.workers[w].phase) {
      DoomedStartsNothing(armed, actions, end, w);
    } else {
      if BeforeLook(st.workers[w].phase) {
        AwaitingMissesNone(armed, actions, end, w, nth);
      } else {
        NoLookBeyond(armed, actions, end, w, nth);
      }
      SinceSplits(st.history, armed.history, end.history, Looked(session, TurnOf(w, nth), true));
      SinceSplits(st.history, armed.history, end.history, Looked(session, TurnOf(w, nth), false));
    }
  }

  // ---------------------------------------------------------------- a stop that hits another message

  lemma FirstTurn(first: Inbound, second: Inbound) returns (st: State)
    requires second.independent && !second.control
    ensures Reachable(1, st) && st.dispatcher.Receiving? && st.slots == 1 && st.pendingStops == {}
    ensures st.table == map["s" := Box(0, [second])] && st.workers == [Worker("s", first, Turning)]
    ensures st.active == map["s" := Running]
  {
    st := FirstStarts(first, second);
    st := Reaches(1, st, Begin(0));
    st := Reaches(1, st, Look(0));
    assert st.active == map["s" := Running] && st.pendingStops == {};
  }

  lemma FirstStarts(first: Inbound, second: Inbound) returns (st: State)
    requires second.independent && !second.control
    ensures Reachable(1, st) && st.dispatcher.Receiving? && st.slots == 1 && st.pendingStops == {}
    ensures st.table == map["s" := Box(0, [second])] && st.workers == [Worker("s", first, Handling)]
    ensures st.active == map["s" := Pending]
  {
    st := ClaimAndSpawn(first);
    st := Reaches(1, st, Acquire(0));
    st := Reaches(1, st, CheckStop(0));
    st := Reaches(1, st, Receive("s", second));
    assert [] + [second] == [second];
    assert st.table == map["s" := Box(0, [second])];
    st := Reaches(1, st, Start(0));
  }

  /** The turn of the message in hand takes place as far as its look. */
  lemma TurnLooks(from: State, st: State) returns (end: State)
    requires LeadsTo(from, st) && |st.workers| == 1 && IsWorkerIn(st, 0, Starting)
    ensures LeadsTo(from, end) && end.dispatcher == st.dispatcher && end.table == st.table
    ensures var worker := st.workers[0];
      && end.workers == [worker.(phase := if worker.session in st.pendingStops then Aborting else Turning)]
      && end.pendingStops == st.pendingStops - {worker.session}
  {
    end := Follow(from, st, Start(0));
    end := Follow(from, end, Begin(0));
    end := Follow(from, end, Look(0));
  }

  lemma BetweenTurns(first: Inbound, second: Inbound) returns (st: State)
    requires second.independent && !second.control
    ensures Reachable(1, st) && st.dispatcher.Receiving? && st.slots == 1 && st.pendingStops == {}
    ensures st.table == map["s" := Box(0, [])] && st.workers == [Worker("s", second, Placing)] && st.active == map[]
  {
    st := FirstTurn(first, second);
    st := Reaches(1, st, TurnState("s", None));
    st := Reaches(1, st, EndTurn(0));
    st := Reaches(1, st, Take(0));
    assert [second][1..] == [];
    assert st.table == map["s" := Box(0, [])];
  }

  /** A worker about to start the second of two messages, when a stop arrives that sees the second placeholder. */
  lemma StopFindsPlaceholder(first: Inbound, second: Inbound, stop: Inbound) returns (st: State)
    requires second.independent && !second.control && stop.control
    ensures Reachable(1, st) && st.dispatcher == Stopping("s") && st.pendingStops == {}
    ensures st.table == map["s" := Box(0, [])] && st.workers == [Worker("s", second, Starting)]
    ensures st.active == map["s" := Pending]
  {
    st := BetweenTurns(first, second);
    st := Reaches(1, st, Place(0));
    assert st.active == map["s" := Pending];
    st := Reaches(1, st, Receive("s", stop));
  }

  /** The third message is queued, and its turn finds the stop. */
  lemma NextTurnIsStopped(from: State, done: State, third: Inbound) returns (end: State)
    requires LeadsTo(from, done) && done.dispatcher.Receiving? && done.pendingStops == {"s"}
    requires done.table == map["s" := Box(0, [])] && |done.workers| == 1
    requires done.workers[0].session == "s" && done.workers[0].phase.Finished?
    requires third.independent && !third.control
    ensures LeadsTo(from, end) && end.workers == [Worker("s", third, Aborting)] && end.pendingStops == {}
  {
    end := Follow(from, done, Receive("s", third));
    assert [] + [third] == [third];
    assert end.table == map["s" := Box(0, [third])];
    end := Follow(from, end, Take(0));
    end := Follow(from, end, Place(0));
    end := TurnLooks(from, end);
  }

  lemma AtFirst(st: State)
    ensures LeadsTo(st, st)
  {
    assert Leads(st, [], st);
  }

  lemma TurnEndsThenNextIsStopped(armed: State, third: Inbound) returns (end: State)
    requires armed.dispatcher.Receiving? && armed.pendingStops == {"s"} && armed.table == map["s" := Box(0, [])]
    requires |armed.workers| == 1 && armed.workers[0].session == "s" && armed.workers[0].phase.Turning?
    requires third.independent && !third.control
    ensures LeadsTo(armed, end) && end.workers == [Worker("s", third, Aborting)] && end.pendingStops == {}
  {
    AtFirst(armed);
    end := Follow(armed, armed, TurnState("s", None));
    end := Follow(armed, end, EndTurn(0));
    end := NextTurnIsStopped(armed, end, third);
  }

  /** Left once the second turn has looked: that turn runs on, and the third one is aborted. */
  lemma LateStopHitsTheNext(first: Inbound, second: Inbound, stop: Inbound, third: Inbound)
    returns (found: State, armed: State, end: State)
    requires second.independent && third.independent && !second.control && !third.control && stop.control
    ensures Reachable(1, found) && found.dispatcher == Stopping("s") && found.workers == [Worker("s", second, Starting)]
    ensures found.active == map["s" := Pending]
    ensures LeadsTo(found, armed) && armed.pendingStops == {"s"} && armed.workers == [Worker("s", second, Turning)]
    ensures LeadsTo(armed, end) && end.pendingStops == {} && end.workers == [Worker("s", third, Aborting)]
  {
    found := StopFindsPlaceholder(first, second, stop);
    AtFirst(found);
    armed := Follow(found, found, FindPending);
    armed := TurnLooks(found, armed);
    armed := Follow(found, armed, Arm);
    end := TurnEndsThenNextIsStopped(armed, third);
  }

  /** Left in time, but for a message that is handled without a turn: that is done, and the third one's turn is aborted. */
  lemma StopForACommandHitsTheNext(first: Inbound, second: Inbound, stop: Inbound, third: Inbound)
    returns (armed: State, done: State, end: State)
    requires second.independent && third.independent && !second.control && !third.control && stop.control
    ensures Reachable(1, armed) && armed.pendingStops == {"s"} && armed.workers == [Worker("s", second, Starting)]
    ensures LeadsTo(armed, done) && done.pendingStops == {"s"} && done.workers == [Worker("s", second, Finished)]
    ensures LeadsTo(done, end) && end.pendingStops == {} && end.workers == [Worker("s", third, Aborting)]
  {
    armed := StopFindsPlaceholder(first, second, stop);
    armed := Reaches(1, armed, FindPending);
    armed := Reaches(1, armed, Arm);
    AtFirst(armed);
    done := Follow(armed, armed, Start(0));
    done := Follow(armed, done, EndTurn(0));
    AtFirst(done);
    end := NextTurnIsStopped(done, done, third);
  }

  /** Taken by another turn of the session before the waiting worker looks: its message is started all the same. */
  lemma OtherTurnTakesTheStop(first: Inbound, second: Inbound, stop: Inbound) returns (armed: State, end: State)
    requires second.independent && !second.control && stop.control
    ensures Reachable(1, armed) && armed.pendingStops == {"s"} && armed.workers == [Worker("s", first, Waiting)]
    ensures LeadsTo(armed, end) && end.pendingStops == {} && end.workers == [Worker("s", first, Handling)]
  {
    armed := StopForWaiting(first, second, stop);
    AtFirst(armed);
    end := Follow(armed, armed, LookBeside("s"));
    end := Follow(armed, end, Acquire(0));
    end := Follow(armed, end, CheckStop(0));
    end := Follow(armed, end, Start(0));
  }

  lemma StopForWaiting(first: Inbound, second: Inbound, stop: Inbound) returns (armed: State)
    requires second.independent && !second.control && stop.control
    ensures Reachable(1, armed) && armed.capacity == 1 && armed.slots == 0
    ensures armed.pendingStops == {"s"} && armed.workers == [Worker("s", first, Waiting)]
  {
    armed := QueueAndStop(first, second, stop);
    armed := Reaches(1, armed, FindPending);
    armed := Reaches(1, armed, Arm);
  }
}
