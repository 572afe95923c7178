/** What holds in every run of the mailbox protocol. */
module MailboxLaws {
  import opened Mailbox
  import opened MailboxRuns

  lemma StartIsFine(capacity: nat, session: string)
    ensures Inv(Initial(capacity)) && Conserved(Initial(capacity), session)
  {
  }

  /** Some actions lead from one state to the other. */
  ghost predicate LeadsTo(st: State, end: State) {
    exists actions :: Leads(st, actions, end)
  }

  /** The state at the end of some run. */
  ghost predicate Reachable(capacity: nat, st: State) {
    LeadsTo(Initial(capacity), st)
  }

  lemma ReachableKeepsInv(capacity: nat, st: State)
    requires Reachable(capacity, st)
    ensures Inv(st) && st.capacity == capacity
  {
    var actions :| Leads(Initial(capacity), actions, st);
    StartIsFine(capacity, "");
    InvOnRuns(Initial(capacity), actions, st);
    RecordGrows(Initial(capacity), actions, st);
  }

  lemma StepAddsToRecord(st: State, a: Action)
    requires Enabled(st, a)
    ensures st.history <= Apply(st, a).history && Apply(st, a).capacity == st.capacity
  {
    if IsQuiet(a) {
      QuietStep(st, a);
    } else if IsMove(a) {
      MoveStep(st, a);
    }
  }

  lemma {:induction false} RecordGrows(st: State, actions: seq<Action>, end: State)
    requires Leads(st, actions, end)
    ensures st.history <= end.history && end.capacity == st.capacity
    decreases |actions|
  {
    if actions != [] {
      StepAddsToRecord(st, actions[0]);
      RecordGrows(Apply(st, actions[0]), actions[1..], end);
    }
  }

  lemma CalmGoesBack(history: seq<Event>, more: seq<Event>, session: string)
    requires Calm(more, session) && history <= more
    ensures Calm(history, session)
  {
    assert more == history + more[|history|..];
    FeedingGoesBack(history, more[|history|..], session);
  }

  lemma StepConserves(st: State, a: Action, session: string)
    requires Inv(st) && Enabled(st, a) && Conserved(st, session) && Calm(Apply(st, a).history, session)
    ensures Inv(Apply(st, a)) && Conserved(Apply(st, a), session)
  {
    InvIsKept(st, a);
    StepAddsToRecord(st, a);
    CalmGoesBack(st.history, Apply(st, a).history, session);
    if IsQuiet(a) {
      QuietStep(st, a);
      RestsConserve(st, Apply(st, a), session);
    } else if IsMove(a) {
      MoveStep(st, a);
      MovesConserve(st, Apply(st, a), Mover(st, a), session);
    } else if a.Receive? {
      ReceiveConserves(st, a.session, a.msg, session);
    } else if a.Take? {
      TakeConserves(st, a.worker, session);
    } else {
      ReleaseConserves(st, a.worker, session);
    }
  }

  lemma {:induction false} RunConserves(st: State, actions: seq<Action>, end: State, session: string)
    requires Inv(st) && Leads(st, actions, end) && Conserved(st, session) && Calm(end.history, session)
    ensures Inv(end) && Conserved(end, session)
    decreases |actions|
  {
    if actions != [] {
      var next := Apply(st, actions[0]);
      RecordGrows(next, actions[1..], end);
      CalmGoesBack(next.history, end.history, session);
      StepConserves(st, actions[0], session);
      RunConserves(next, actions[1..], end, session);
    }
  }

  // ---------------------------------------------------------------- nothing is lost, repeated or reordered

  /**
   * In a session fed by channels that answer each message, with no stop left pending and no waiting worker cancelled:
   * the admitted messages are those started, then the one in the worker's hand, then the queue. What remains has a
   * worker at work on it; once none of the session is at work, every message has been started.
   */
  lemma EveryMessageStartsOnceInOrder(capacity: nat, st: State, session: string)
    requires Reachable(capacity, st) && Calm(st.history, session)
    ensures MailboxesAreOwned(st)
    ensures Admitted(st.history, session) == StartedIn(st.history, session) + Remaining(st, session)
    ensures Remaining(st, session) != [] ==> session in st.table && AtWork(st.workers[st.table[session].owner].phase)
    ensures (forall w | 0 <= w < |st.workers| && st.workers[w].session == session :: !AtWork(st.workers[w].phase)) ==>
      Admitted(st.history, session) == StartedIn(st.history, session)
  {
    var actions :| Leads(Initial(capacity), actions, st);
    StartIsFine(capacity, session);
    RunConserves(Initial(capacity), actions, st, session);
    if forall w | 0 <= w < |st.workers| && st.workers[w].session == session :: !AtWork(st.workers[w].phase) {
      assert session !in st.table;
      assert Remaining(st, session) == [];
    }
  }

  /** In every run, stops and cancellations included, one worker at a time runs turns of such a session. */
  lemma TurnsDoNotOverlap(capacity: nat, st: State, v: nat, w: nat)
    requires Reachable(capacity, st)
    requires v < |st.workers| && w < |st.workers| && st.workers[v].session == st.workers[w].session
    requires FedIndependently(st.history, st.workers[v].session)
    requires AtWork(st.workers[v].phase) && AtWork(st.workers[w].phase)
    ensures v == w
  {
    ReachableKeepsInv(capacity, st);
    assert Owns(st.table, st.workers[v].session, v) && Owns(st.table, st.workers[w].session, w);
  }

  /** The workers that hold a slot are as many as the semaphore counts, never more than it has. */
  lemma SlotsStayWithinCapacity(capacity: nat, st: State)
    requires Reachable(capacity, st)
    ensures Holders(st.workers) == st.slots <= capacity
  {
    ReachableKeepsInv(capacity, st);
  }

  // ---------------------------------------------------------------- superseded workers, on any channel

  /** A worker only ever starts what it claimed or what was queued in its own mailbox, in that order. */
  lemma WorkersStartOnlyTheirOwn(capacity: nat, st: State, w: nat)
    requires Reachable(capacity, st) && w < |st.workers|
    ensures StartedBy(st.history, w) <= AssignedTo(st.history, w)
  {
    ReachableKeepsInv(capacity, st);
    assert KeepsToItsOwn(st, w);
  }

  lemma TableStays(st: State, a: Action)
    requires Enabled(st, a) && (IsQuiet(a) || IsMove(a))
    ensures Apply(st, a).table == st.table
  {
    if IsQuiet(a) {
      QuietStep(st, a);
    } else {
      MoveStep(st, a);
    }
  }

  lemma TakingFromMailbox(st: State, w: nat, session: string)
    requires MailboxesAreOwned(st) && IsWorkerIn(st, w, Finished) && session in st.table
    ensures var next, box := Taken(st, w).table, st.table[session];
      && (session !in next ==> w == box.owner && box.independent == [])
      && (session in next && next[session] != box ==>
           && w == box.owner && next[session].owner == w
           && box.independent == [Taken(st, w).workers[w].current] + next[session].independent)
  {
    var queue := st.table[session].independent;
    if Owns(st.table, session, w) && queue != [] {
      assert queue == [queue[0]] + queue[1..];
    }
  }

  lemma ReceivingIntoMailbox(st: State, from: string, msg: Inbound, session: string)
    requires session in st.table
    ensures var next, box := Received(st, from, msg).table, st.table[session];
      && session in next
      && (next[session].owner != box.owner ==>
           from == session && !msg.independent && !msg.control && session !in st.active)
      && (next[session] != box ==>
           && from == session
           && (next[session] == Box(|st.workers|, []) || next[session] == Box(box.owner, box.independent + [msg])))
  {
  }

  /**
   * The mailbox of a session changes in four ways only: its owner takes its oldest message, its owner gives it up,
   * a message is queued at its end, or the dispatcher puts an empty one in its place for a steering message that
   * found no active turn.
   */
  lemma OnlyOwnersTouchMailboxes(capacity: nat, st: State, a: Action, session: string)
    requires Reachable(capacity, st) && Enabled(st, a) && session in st.table
    ensures var next, box := Apply(st, a).table, st.table[session];
      && (session !in next ==>
           && (a.Take? || a.ReleaseMailbox?) && a.worker == box.owner
           && (a.Take? ==> box.independent == []))
      && (session in next && next[session].owner != box.owner ==>
           && a.Receive? && a.session == session && !a.msg.independent && !a.msg.control && session !in st.active
           && next[session] == Box(|st.workers|, []))
      && (session in next && next[session].owner == box.owner && next[session] != box ==>
           || (a.Receive? && a.session == session && next[session].independent == box.independent + [a.msg])
           || (a.Take? && a.worker == box.owner
               && box.independent == [Apply(st, a).workers[a.worker].current] + next[session].independent))
  {
    ReachableKeepsInv(capacity, st);
    if IsQuiet(a) || IsMove(a) {
      TableStays(st, a);
    } else if a.Receive? {
      ReceivingIntoMailbox(st, a.session, a.msg, session);
    } else if a.Take? {
      TakingFromMailbox(st, a.worker, session);
    } else {
    }
  }

  // ---------------------------------------------------------------- the position a queued message is told

  lemma {:induction false} MoreIsAssigned(history: seq<Event>, more: seq<Event>, w: nat)
    requires history <= more
    ensures AssignedTo(history, w) <= AssignedTo(more, w)
    decreases |more|
  {
    if |history| < |more| {
      MoreIsAssigned(history, more[..|more|-1], w);
    } else {
      assert history == more;
    }
  }

  lemma {:induction false} WorkersOnlyAdded(st: State, actions: seq<Action>, end: State)
    requires Leads(st, actions, end)
    ensures |st.workers| <= |end.workers|
    decreases |actions|
  {
    if actions != [] {
      if IsQuiet(actions[0]) {
        QuietStep(st, actions[0]);
      } else if IsMove(actions[0]) {
        MoveStep(st, actions[0]);
      }
      WorkersOnlyAdded(Apply(st, actions[0]), actions[1..], end);
    }
  }

  /** What a worker has started so far, and has in its hand. */
  function Begun(st: State, w: nat): seq<Inbound>
    requires w < |st.workers|
  {
    StartedBy(st.history, w) + InHand(st.workers[w])
  }

  lemma QueueingAssigns(st: State, session: string, msg: Inbound)
    requires Inv(st) && session in st.table
    requires ClaimPosition(st.table, session in st.active, |st.workers|, session, msg).queued
    requires var p := st.workers[st.table[session].owner].phase; AtWork(p) && !p.Draining?
    ensures var owner := st.table[session].owner;
      && AssignedTo(Received(st, session, msg).history, owner) == Begun(st, owner) + st.table[session].independent + [msg]
      && EndsWith(Begun(st, owner), st.workers[owner].current)
  {
    var box := st.table[session];
    assert KeepsToItsOwn(st, box.owner);
    OneMoreEvent(st.history, Queued(session, msg, box.owner, |box.independent + [msg]|), session, box.owner);
  }

  lemma LaterStartsAreAssigned(st: State, actions: seq<Action>, end: State, w: nat)
    requires Inv(st) && Leads(st, actions, end) && w < |st.workers|
    ensures w < |end.workers| && StartedBy(end.history, w) <= AssignedTo(end.history, w)
    ensures AssignedTo(st.history, w) <= AssignedTo(end.history, w)
  {
    InvOnRuns(st, actions, end);
    RecordGrows(st, actions, end);
    MoreIsAssigned(st.history, end.history, w);
    WorkersOnlyAdded(st, actions, end);
    assert KeepsToItsOwn(end, w);
  }

  /** After the current message, the worker starts the waiting ones and then msg, as far as it gets. */
  predicate GoesOn(begun: seq<Inbound>, queue: seq<Inbound>, msg: Inbound, ahead: nat, started: seq<Inbound>) {
    var current := |begun| - 1;
    && ahead == 1 + |queue|
    && (|started| > current ==> started[..current+1] == begun)
    && (|started| > current + ahead ==> started[current+1..current+ahead] == queue && started[current+ahead] == msg)
  }

  lemma PrefixGoesOn(begun: seq<Inbound>, queue: seq<Inbound>, msg: Inbound, given: seq<Inbound>, started: seq<Inbound>)
    requires begun + queue + [msg] <= given && started <= given && begun != []
    ensures GoesOn(begun, queue, msg, 1 + |queue|, started)
  {
    var upTo := begun + queue + [msg];
    assert upTo[..|begun|] == begun && upTo[|begun|..|begun|+|queue|] == queue && upTo[|begun|+|queue|] == msg;
    assert given[..|upTo|] == upTo && given[..|started|] == started;
    if |started| >= |begun| {
      assert started[..|begun|] == given[..|begun|] == upTo[..|begun|];
    }
    if |started| > |begun| + |queue| {
      assert started[|begun|..|begun|+|queue|] == given[|begun|..|begun|+|queue|] == upTo[|begun|..|begun|+|queue|];
    }
  }

  lemma OwnerGoesOn(st: State, session: string, msg: Inbound, later: seq<Action>, end: State)
    requires Inv(st) && st.dispatcher.Receiving? && session in st.table
    requires ClaimPosition(st.table, session in st.active, |st.workers|, session, msg).queued
    requires var p := st.workers[st.table[session].owner].phase; AtWork(p) && !p.Draining?
    requires Leads(Received(st, session, msg), later, end)
    ensures var box := st.table[session];
      && EndsWith(Begun(st, box.owner), st.workers[box.owner].current)
      && GoesOn(Begun(st, box.owner), box.independent, msg, 1 + |box.independent|, StartedBy(end.history, box.owner))
  {
    var next, box := Received(st, session, msg), st.table[session];
    QueueingAssigns(st, session, msg);
    assert Apply(st, Receive(session, msg)) == next;
    InvIsKept(st, Receive(session, msg));
    LaterStartsAreAssigned(next, later, end, box.owner);
    PrefixGoesOn(Begun(st, box.owner), box.independent, msg, AssignedTo(end.history, box.owner),
                 StartedBy(end.history, box.owner));
  }

  /**
   * A queued message is told how many requests go first: the current one of the worker that owns the mailbox, and
   * those queued before. In any continuation of the run, on any channel, that worker starts exactly those between its
   * current message and this one, if it starts this one at all.
   */
  lemma AheadIsExact(capacity: nat, st: State, session: string, msg: Inbound, later: seq<Action>, end: State)
    requires Reachable(capacity, st) && st.dispatcher.Receiving? && session in st.table
    requires ClaimPosition(st.table, session in st.active, |st.workers|, session, msg).queued
    requires Leads(Received(st, session, msg), later, end)
    ensures MailboxesAreOwned(st)
    ensures var box := st.table[session];
      var ahead := ClaimPosition(st.table, session in st.active, |st.workers|, session, msg).ahead;
      var p := st.workers[box.owner].phase;
      && ahead == 1 + |box.independent|
      && (AtWork(p) && !p.Draining? ==>
           && EndsWith(Begun(st, box.owner), st.workers[box.owner].current)
           && GoesOn(Begun(st, box.owner), box.independent, msg, ahead, StartedBy(end.history, box.owner)))
  {
    ReachableKeepsInv(capacity, st);
    var p := st.workers[st.table[session].owner].phase;
    if AtWork(p) && !p.Draining? {
      OwnerGoesOn(st, session, msg, later, end);
    }
  }

  // ---------------------------------------------------------------- what a pending stop costs

  lemma OneMoreStep(st: State, actions: seq<Action>, end: State, a: Action)
    requires Leads(st, actions, end) && Enabled(end, a)
    ensures Leads(st, actions + [a], Apply(end, a))
    decreases |actions|
  {
    if actions == [] {
      assert Leads(Apply(st, a), [], Apply(end, a));
    } else {
      OneMoreStep(Apply(st, actions[0]), actions[1..], end, a);
      assert (actions + [a])[1..] == actions[1..] + [a];
    }
  }

  lemma Follow(from: State, st: State, a: Action) returns (next: State)
    requires LeadsTo(from, st) && Enabled(st, a)
    ensures next == Apply(st, a) && LeadsTo(from, next)
  {
    var run :| Leads(from, run, st);
    OneMoreStep(from, run, st, a);
    next := Apply(st, a);
  }

  lemma Reaches(capacity: nat, st: State, a: Action) returns (next: State)
    requires Reachable(capacity, st) && Enabled(st, a)
    ensures next == Apply(st, a) && Reachable(capacity, next)
  {
    next := Follow(Initial(capacity), st, a);
  }

  lemma ClaimAndSpawn(first: Inbound) returns (st: State)
    ensures Reachable(1, st)
    ensures st == State(1, map["s" := Box(0, [])], [Worker("s", first, Waiting)], Receiving, 0, map["s" := Pending], {},
                        [Claimed("s", first, 0)])
  {
    assert Leads(Initial(1), [], Initial(1));
    st := Reaches(1, Initial(1), Receive("s", first));
    st := Reaches(1, st, Register);
    st := Reaches(1, st, Spawn);
  }

  lemma QueueAndStop(first: Inbound, second: Inbound, stop: Inbound) returns (st: State)
    requires second.independent && !second.control && stop.control
    ensures Reachable(1, st)
    ensures st == State(1, map["s" := Box(0, [second])], [Worker("s", first, Waiting)], Stopping("s"), 0,
                        map["s" := Pending], {},
                        [Claimed("s", first, 0), Queued("s", second, 0, 1), Beside("s", stop)])
  {
    st := ClaimAndSpawn(first);
    st := Reaches(1, st, Receive("s", second));
    assert [] + [second] == [second];
    assert st.table == map["s" := Box(0, [second])];
    st := Reaches(1, st, Receive("s", stop));
  }

  /** A claimed message and one queued behind it, and a stop that arrives before the first has begun. */
  lemma StopBeforeTheFirstTurn(first: Inbound, second: Inbound, stop: Inbound) returns (st: State)
    requires second.independent && !second.control && stop.control
    ensures Reachable(1, st)
    ensures st == State(1, map["s" := Box(0, [second])], [Worker("s", first, Draining)], Receiving, 1, map[], {},
                        [Claimed("s", first, 0), Queued("s", second, 0, 1), Beside("s", stop), Armed("s"),
                         Looked("s", FirstLook(0), true)])
  {
    st := QueueAndStop(first, second, stop);
    st := Reaches(1, st, FindPending);
    st := Reaches(1, st, Arm);
    assert st.pendingStops == {"s"};
    st := Reaches(1, st, Acquire(0));
    st := Reaches(1, st, CheckStop(0));
    assert st.active == map[] && st.pendingStops == {};
  }

  lemma ThenLeaves(st: State) returns (end: State)
    requires Reachable(1, st) && IsWorkerIn(st, 0, Draining) && st.slots > 0
    ensures Reachable(1, end) && end.table == st.table && end.history == st.history
    ensures end.workers == st.workers[0 := st.workers[0].(phase := Unwinding)]
  {
    end := Reaches(1, st, EndDrain(0));
    end := Reaches(1, end, ReleaseSlot(0));
  }

  lemma ThenGivesUp(st: State) returns (end: State)
    requires Reachable(1, st) && IsWorkerIn(st, 0, Draining) && st.slots > 0 && Owns(st.table, st.workers[0].session, 0)
    ensures Reachable(1, end) && IsWorkerIn(end, 0, Gone) && end.history == st.history
    ensures end.table == st.table - {st.workers[0].session}
  {
    end := ThenLeaves(st);
    end := Reaches(1, end, ClearPlaceholder(0));
    end := Reaches(1, end, ReleaseMailbox(0));
  }

  lemma RecordBeforeStop(first: Inbound, second: Inbound)
    ensures var h := [Claimed("s", first, 0), Queued("s", second, 0, 1)];
      Admitted(h, "s") == [first, second] && StartedIn(h, "s") == []
  {
    var a, b := Claimed("s", first, 0), Queued("s", second, 0, 1);
    OneMoreEvent([], a, "s", 0);
    OneMoreEvent([a], b, "s", 0);
    assert [] + [a] == [a] && [a] + [b] == [a, b];
  }

  lemma RecordOfStop(first: Inbound, second: Inbound, stop: Inbound)
    ensures var h := [Claimed("s", first, 0), Queued("s", second, 0, 1), Beside("s", stop), Armed("s"),
                      Looked("s", FirstLook(0), true)];
      Admitted(h, "s") == [first, second] && StartedIn(h, "s") == []
  {
    var h, c, d, e := [Claimed("s", first, 0), Queued("s", second, 0, 1)], Beside("s", stop), Armed("s"),
      Looked("s", FirstLook(0), true);
    RecordBeforeStop(first, second);
    OneMoreEvent(h, c, "s", 0);
    OneMoreEvent(h + [c], d, "s", 0);
    OneMoreEvent(h + [c] + [d], e, "s", 0);
    assert h + [c] + [d] + [e] == [h[0], h[1], c, d, e];
  }

  /** A stop left pending makes the worker give up its mailbox with both messages: neither is ever started. */
  lemma PendingStopDiscards(first: Inbound, second: Inbound, stop: Inbound) returns (st: State)
    requires first.independent && second.independent && stop.independent && !second.control && stop.control
    ensures Reachable(1, st) && FedIndependently(st.history, "s") && !Undisturbed(st.history, "s")
    ensures st.table == map[] && IsWorkerIn(st, 0, Gone)
    ensures Admitted(st.history, "s") == [first, second] && StartedIn(st.history, "s") == []
  {
    var before := StopBeforeTheFirstTurn(first, second, stop);
    RecordOfStop(first, second, stop);
    st := ThenGivesUp(before);
    assert st.history[3] == Armed("s");
  }
}
