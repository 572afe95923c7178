/** What the dispatcher does with a message, and what becomes of the placeholders it leaves for turns to come. */
module MailboxDispatch {
  import opened Options
  import opened Mailbox
  import opened MailboxRuns
  import opened MailboxLaws

  // ---------------------------------------------------------------- where a message goes

  /** The message finds the mailbox of its session and is added to it, told how many requests go first. */
  predicate JoinsMailbox(st: State, next: State, session: string, msg: Inbound) {
    session in st.table &&
    var box := st.table[session];
    && next.history == st.history + [Queued(session, msg, box.owner, 1 + |box.independent|)]
    && next.table == st.table[session := Box(box.owner, box.independent + [msg])]
    && next.workers == st.workers && next.dispatcher == Receiving
  }

  /** The message gets an empty mailbox of its own and a worker, which the dispatcher is about to announce and spawn. */
  predicate OpensMailbox(st: State, next: State, session: string, msg: Inbound) {
    var w := |st.workers|;
    && next.history == st.history + [Claimed(session, msg, w)]
    && next.table == st.table[session := Box(w, [])]
    && next.workers == st.workers + [Worker(session, msg, Unspawned)] && next.dispatcher == Registering(w)
  }

  /** The message is handled at once: /stop as a command, another one as steering for the running turn. */
  predicate GoesBeside(st: State, next: State, session: string, msg: Inbound) {
    && next.history == st.history + [Beside(session, msg)]
    && next.table == st.table && next.workers == st.workers
    && next.dispatcher == if msg.control then Stopping(session) else Receiving
  }

  /**
   * A message whose session has a mailbox is queued exactly if it asks for an answer of its own and is no control
   * traffic, takes the mailbox over exactly if it is a steering message and no turn is active, and is handled beside
   * it otherwise. Without a mailbox any message opens one.
   */
  lemma WhereAMessageGoes(st: State, session: string, msg: Inbound)
    requires st.dispatcher.Receiving?
    ensures var next := Apply(st, Receive(session, msg));
      && (JoinsMailbox(st, next, session, msg) <==> session in st.table && msg.independent && !msg.control)
      && (OpensMailbox(st, next, session, msg) <==>
           session !in st.table || (!msg.independent && !msg.control && session !in st.active))
      && (GoesBeside(st, next, session, msg) <==>
           session in st.table && (msg.control || (!msg.independent && session in st.active)))
      && next.active == st.active && next.pendingStops == st.pendingStops && next.slots == st.slots
  {
    var next, n := Received(st, session, msg), |st.history|;
    assert next.history[n].Claimed? || next.history[n].Queued? || next.history[n].Beside?;
  }

  /** On record, what met a mailbox was queued exactly if it asks for an answer of its own and is no control traffic. */
  predicate RecordIsSorted(history: seq<Event>) {
    forall e | e in history && (e.Queued? || e.Beside?) :: e.Queued? <==> e.msg.independent && !e.msg.control
  }

  lemma MovesKeepSorted(st: State, next: State, w: nat)
    requires RecordIsSorted(st.history) && Moves(st, next, w)
    ensures RecordIsSorted(next.history)
  {
  }

  lemma ReceivingKeepsSorted(st: State, session: string, msg: Inbound)
    requires RecordIsSorted(st.history)
    ensures RecordIsSorted(Received(st, session, msg).history)
  {
  }

  lemma StepKeepsSorted(st: State, a: Action)
    requires RecordIsSorted(st.history) && Enabled(st, a)
    ensures RecordIsSorted(Apply(st, a).history)
  {
    if IsQuiet(a) {
      QuietStep(st, a);
    } else if IsMove(a) {
      MoveStep(st, a);
      MovesKeepSorted(st, Apply(st, a), Mover(st, a));
    } else if a.Receive? {
      ReceivingKeepsSorted(st, a.session, a.msg);
    }
  }

  lemma {:induction false} RunKeepsSorted(st: State, actions: seq<Action>, end: State)
    requires RecordIsSorted(st.history) && Leads(st, actions, end)
    ensures RecordIsSorted(end.history)
    decreases |actions|
  {
    if actions != [] {
      StepKeepsSorted(st, actions[0]);
      RunKeepsSorted(Apply(st, actions[0]), actions[1..], end);
    }
  }

  lemma EveryRecordIsSorted(capacity: nat, st: State)
    requires Reachable(capacity, st)
    ensures RecordIsSorted(st.history)
  {
    var actions :| Leads(Initial(capacity), actions, st);
    RunKeepsSorted(Initial(capacity), actions, st);
  }

  // ---------------------------------------------------------------- placeholders do not outlive their workers

  /** Has not yet come to the point where a worker clears what placeholder is left. */
  predicate MayLeavePlaceholder(p: Phase) {
    !p.Releasing? && !p.Gone?
  }

  predicate HasWorker(st: State, session: string) {
    exists w | 0 <= w < |st.workers| ::
      st.workers[w].session == session && MayLeavePlaceholder(st.workers[w].phase)
  }

  /** A session with a placeholder has a worker that will replace it or clear it. */
  ghost predicate PlaceholdersAreKept(st: State) {
    forall s | s in st.active && st.active[s].Pending? :: HasWorker(st, s)
  }

  /** No turn beside the mailboxes leaves a placeholder of its own. */
  predicate OnlyMailboxPlaceholders(actions: seq<Action>) {
    forall a | a in actions && a.TurnState? :: a.state != Some(Pending)
  }

  /** What a worker's move does to the active-turn table. */
  lemma MovesAndPlaceholders(st: State, a: Action)
    requires Enabled(st, a) && IsMove(a)
    ensures var w, next := Mover(st, a), Apply(st, a);
      && (forall s | s in next.active && s != st.workers[w].session :: s in st.active && next.active[s] == st.active[s])
      && (!MayLeavePlaceholder(next.workers[w].phase) ==>
           var s := st.workers[w].session; s in next.active ==> !next.active[s].Pending?)
  {
  }

  lemma MovesKeepPlaceholders(st: State, a: Action)
    requires PlaceholdersAreKept(st) && Enabled(st, a) && IsMove(a)
    ensures PlaceholdersAreKept(Apply(st, a))
  {
    var w, next := Mover(st, a), Apply(st, a);
    MovesAndPlaceholders(st, a);
    MoveStep(st, a);
    forall s | s in next.active && next.active[s].Pending? ensures HasWorker(next, s) {
      if s == st.workers[w].session {
        assert next.workers[w].session == s;
      } else {
        var v :| 0 <= v < |st.workers| && st.workers[v].session == s && MayLeavePlaceholder(st.workers[v].phase);
        assert next.workers[v] == st.workers[v];
      }
    }
  }

  lemma SameWorkersKeepPlaceholders(st: State, next: State)
    requires PlaceholdersAreKept(st) && |st.workers| <= |next.workers|
    requires forall w | 0 <= w < |st.workers| && MayLeavePlaceholder(st.workers[w].phase) ::
      next.workers[w].session == st.workers[w].session && MayLeavePlaceholder(next.workers[w].phase)
    requires forall s | s in next.active && next.active[s].Pending? ::
      (s in st.active && st.active[s].Pending?) || HasWorker(next, s)
    ensures PlaceholdersAreKept(next)
  {
    forall s | s in next.active && next.active[s].Pending? ensures HasWorker(next, s) {
      if s in st.active && st.active[s].Pending? {
        var v :| 0 <= v < |st.workers| && st.workers[v].session == s && MayLeavePlaceholder(st.workers[v].phase);
        assert next.workers[v].session == s;
      }
    }
  }

  lemma StepKeepsPlaceholders(st: State, a: Action)
    requires PlaceholdersAreKept(st) && Enabled(st, a) && OnlyMailboxPlaceholders([a])
    ensures PlaceholdersAreKept(Apply(st, a))
  {
    assert a in [a];
    if IsMove(a) {
      MovesKeepPlaceholders(st, a);
    } else {
      if a.Register? {
        assert st.workers[st.dispatcher.worker].phase.Unspawned?;
      }
      SameWorkersKeepPlaceholders(st, Apply(st, a));
    }
  }

  lemma {:induction false} RunKeepsPlaceholders(st: State, actions: seq<Action>, end: State)
    requires PlaceholdersAreKept(st) && Leads(st, actions, end) && OnlyMailboxPlaceholders(actions)
    ensures PlaceholdersAreKept(end)
    decreases |actions|
  {
    if actions != [] {
      assert OnlyMailboxPlaceholders([actions[0]]) && OnlyMailboxPlaceholders(actions[1..]);
      StepKeepsPlaceholders(st, actions[0]);
      RunKeepsPlaceholders(Apply(st, actions[0]), actions[1..], end);
    }
  }

  /**
   * A placeholder, which would keep steering messages from ever opening a mailbox, is never left behind: in every run,
   * cancellations, stops, errors and panics included, once all workers of a session are on their way out, it has none.
   */
  lemma NoPlaceholderIsLeftBehind(capacity: nat, actions: seq<Action>, st: State, session: string)
    requires Leads(Initial(capacity), actions, st) && OnlyMailboxPlaceholders(actions)
    requires forall w | 0 <= w < |st.workers| && st.workers[w].session == session ::
      st.workers[w].phase.Releasing? || st.workers[w].phase.Gone?
    ensures session in st.active ==> st.active[session] != Pending
  {
    RunKeepsPlaceholders(Initial(capacity), actions, st);
  }

  // ---------------------------------------------------------------- a turn that is registered is no placeholder

  predicate IsRegistered(p: Phase) {
    p.Looking? || p.Turning? || p.Aborting?
  }

  predicate HasPlaceholder(st: State, session: string) {
    session in st.active && st.active[session].Pending?
  }

  /** While a worker's turn is registered, its session has no placeholder. */
  predicate TurnsAreRegistered(st: State, session: string) {
    forall w | 0 <= w < |st.workers| && st.workers[w].session == session && IsRegistered(st.workers[w].phase) ::
      !HasPlaceholder(st, session)
  }

  /** Who puts a placeholder in place, and who registers a turn. */
  lemma WhoChangesPlaceholders(st: State, a: Action, session: string)
    requires Enabled(st, a) && OnlyMailboxPlaceholders([a])
    ensures HasPlaceholder(Apply(st, a), session) && !HasPlaceholder(st, session) ==>
      || (a.Register? && st.workers[st.dispatcher.worker].session == session)
      || (a.Place? && st.workers[a.worker].session == session)
    ensures a.Begin? ==> !HasPlaceholder(Apply(st, a), st.workers[a.worker].session)
  {
    assert a in [a];
  }

  lemma WhoIsRegistered(st: State, a: Action, w: nat)
    requires Enabled(st, a) && w < |Apply(st, a).workers| && IsRegistered(Apply(st, a).workers[w].phase)
    ensures w < |st.workers| && Apply(st, a).workers[w].session == st.workers[w].session
    ensures IsRegistered(st.workers[w].phase) || a == Begin(w)
  {
    if IsQuiet(a) {
      QuietStep(st, a);
    } else if IsMove(a) {
      MoveStep(st, a);
    }
  }

  lemma StepKeepsRegistered(st: State, a: Action, session: string)
    requires Inv(st) && Enabled(st, a) && TurnsAreRegistered(st, session) && OnlyMailboxPlaceholders([a])
    requires FedIndependently(st.history, session)
    ensures TurnsAreRegistered(Apply(st, a), session)
  {
    var next := Apply(st, a);
    WhoChangesPlaceholders(st, a, session);
    forall w | 0 <= w < |next.workers| && next.workers[w].session == session && IsRegistered(next.workers[w].phase)
      ensures !HasPlaceholder(next, session)
    {
      WhoIsRegistered(st, a, w);
      if IsRegistered(st.workers[w].phase) {
        assert Owns(st.table, session, w);
        if a.Register? {
          assert Owns(st.table, st.workers[st.dispatcher.worker].session, st.dispatcher.worker)
            || st.workers[st.dispatcher.worker].session != session;
        }
        if a.Place? {
          assert Owns(st.table, st.workers[a.worker].session, a.worker) || st.workers[a.worker].session != session;
        }
      }
    }
  }

  lemma {:induction false} RunKeepsRegistered(st: State, actions: seq<Action>, end: State, session: string)
    requires Inv(st) && Leads(st, actions, end) && TurnsAreRegistered(st, session) && OnlyMailboxPlaceholders(actions)
    requires FedIndependently(end.history, session)
    ensures TurnsAreRegistered(end, session)
    decreases |actions|
  {
    if actions != [] {
      assert OnlyMailboxPlaceholders([actions[0]]) && OnlyMailboxPlaceholders(actions[1..]);
      RecordGrows(st, actions, end);
      assert end.history == st.history + end.history[|st.history|..];
      FeedingGoesBack(st.history, end.history[|st.history|..], session);
      StepKeepsRegistered(st, actions[0], session);
      InvIsKept(st, actions[0]);
      RunKeepsRegistered(Apply(st, actions[0]), actions[1..], end, session);
    }
  }

  /**
   * In a session fed by channels that answer each message, a /stop that looks while a turn is registered finds no
   * placeholder: it aborts that turn, and leaves nothing pending.
   */
  lemma StopDuringATurnLeavesNothing(capacity: nat, actions: seq<Action>, st: State, w: nat)
    requires Leads(Initial(capacity), actions, st) && OnlyMailboxPlaceholders(actions) && st.dispatcher.Stopping?
    requires w < |st.workers| && IsRegistered(st.workers[w].phase) && st.workers[w].session == st.dispatcher.session
    requires FedIndependently(st.history, st.dispatcher.session)
    ensures !Enabled(st, FindPending) && Enabled(st, FindOther)
    ensures Apply(st, FindOther).pendingStops == st.pendingStops
  {
    StartIsFine(capacity, "");
    RunKeepsRegistered(Initial(capacity), actions, st, st.dispatcher.session);
  }

  /** A worker that cleans up after itself never clears the state of a turn that is registered. */
  lemma OnlyPlaceholdersAreCleared(st: State, a: Action, session: string)
    requires Enabled(st, a) && (a.ReleaseSlot? || a.ClearPlaceholder? || a.ReleaseMailbox?)
    requires session in st.active && st.active[session].Running?
    ensures session in Apply(st, a).active && Apply(st, a).active[session].Running?
  {
  }
}
