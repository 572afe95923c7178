/**
 * The mailbox protocol: a dispatcher that claims or queues, workers that wait for a slot and then run turn after
 * turn, /stop, cancellation, and turns that end in a panic. Every action is one atomic section of the program.
 */
module MailboxRuns {
  import opened Options
  import opened Mailbox

  /** What a worker does next. */
  datatype Phase =
    | Unspawned       // claimed by the dispatcher, not running yet
    | Waiting         // for a slot
    | Ready           // has a slot, has not looked for a pending stop
    | Draining        // stopped before its first turn, runs what was steered to the session
    | Starting        // about to handle its current message
    | Handling        // handling it, its turn is not registered; a command, or what fails early, needs none
    | Looking         // its turn is registered and about to look for a pending stop
    | Turning         // found none, runs the turn
    | Aborting        // found one, undoes the turn
    | Finished        // done with the message, normally or in a panic
    | Placing         // took its next message, has not registered it
    | Leaving         // done, still holds its slot
    | Unwinding       // gave its slot back
    | Releasing       // about to give its mailbox back
    | Gone

  datatype Worker = Worker(session: string, current: Inbound, phase: Phase)

  datatype Dispatcher = Receiving | Registering(worker: nat) | Spawning(worker: nat)
                      | Stopping(session: string) | Arming(session: string)

  /** Who looks for a pending stop: a worker before its messages, the turn of its nth message, or some other turn. */
  datatype Looker = FirstLook(worker: nat) | TurnOf(worker: nat, nth: nat) | OtherTurn

  /** What happened, for the record. */
  datatype Event =
    | Claimed(session: string, msg: Inbound, worker: nat)
    | Queued(session: string, msg: Inbound, worker: nat, ahead: nat)
    | Beside(session: string, msg: Inbound)
    | Started(session: string, msg: Inbound, worker: nat)
    | Armed(session: string)
    | Looked(session: string, looker: Looker, hit: bool)
    | Cancelled(session: string)

  datatype State = State(
    capacity: nat,
    table: Table,
    workers: seq<Worker>,
    dispatcher: Dispatcher,
    slots: nat,
    active: map<string, TurnState>,
    pendingStops: set<string>,
    history: seq<Event>)

  function Initial(capacity: nat): State {
    State(capacity, map[], [], Receiving, 0, map[], {}, [])
  }

  datatype Action =
    | Receive(session: string, msg: Inbound)
    | Register
    | Spawn
    | FindPending             // /stop sees a turn that has not begun
    | FindOther               // /stop aborts a running turn, or finds none
    | Arm
    | TurnState(session: string, state: Option<TurnState>)  // other turns register, turns end or are aborted
    | Acquire(worker: nat)
    | Cancel(worker: nat)     // the context ends while the worker waits for its slot
    | CheckStop(worker: nat)
    | EndDrain(worker: nat)
    | Start(worker: nat)
    | Begin(worker: nat)      // the turn registers itself
    | Look(worker: nat)
    | LookBeside(session: string)  // a turn for steering messages, a system message or a direct call
    | EndTurn(worker: nat)    // normally, with an error, or in a panic confined to the message
    | Take(worker: nat)
    | Place(worker: nat)
    | ReleaseSlot(worker: nat)
    | ClearPlaceholder(worker: nat)
    | ReleaseMailbox(worker: nat)

  predicate IsWorkerIn(st: State, w: nat, phase: Phase) {
    w < |st.workers| && st.workers[w].phase == phase
  }

  predicate Enabled(st: State, a: Action) {
    match a
    case Receive(_, _) => st.dispatcher.Receiving?
    case Register => st.dispatcher.Registering? && IsWorkerIn(st, st.dispatcher.worker, Unspawned)
    case Spawn => st.dispatcher.Spawning? && IsWorkerIn(st, st.dispatcher.worker, Unspawned)
    case FindPending =>
      && st.dispatcher.Stopping?
      && st.dispatcher.session in st.active && st.active[st.dispatcher.session].Pending?
    case FindOther => st.dispatcher.Stopping?
    case Arm => st.dispatcher.Arming?
    case TurnState(_, _) => true
    case Acquire(w) => IsWorkerIn(st, w, Waiting) && st.slots < st.capacity
    case Cancel(w) => IsWorkerIn(st, w, Waiting)
    case CheckStop(w) => IsWorkerIn(st, w, Ready)
    case EndDrain(w) => IsWorkerIn(st, w, Draining)
    case Start(w) => IsWorkerIn(st, w, Starting)
    case Begin(w) => IsWorkerIn(st, w, Handling)
    case Look(w) => IsWorkerIn(st, w, Looking)
    case LookBeside(_) => true
    case EndTurn(w) => IsWorkerIn(st, w, Handling) || IsWorkerIn(st, w, Turning) || IsWorkerIn(st, w, Aborting)
    case Take(w) => IsWorkerIn(st, w, Finished)
    case Place(w) => IsWorkerIn(st, w, Placing)
    case ReleaseSlot(w) => IsWorkerIn(st, w, Leaving) && st.slots > 0
    case ClearPlaceholder(w) => IsWorkerIn(st, w, Unwinding)
    case ReleaseMailbox(w) => IsWorkerIn(st, w, Releasing)
  }

  function Moved(st: State, w: nat, phase: Phase): State
    requires w < |st.workers|
  {
    st.(workers := st.workers[w := st.workers[w].(phase := phase)])
  }

  function Logged(st: State, e: Event): State {
    st.(history := st.history + [e])
  }

  function Received(st: State, session: string, msg: Inbound): State {
    var p := ClaimPosition(st.table, session in st.active, |st.workers|, session, msg);
    if p.claimed then
      Logged(st, Claimed(session, msg, p.owner)).(
        table := p.table,
        workers := st.workers + [Worker(session, msg, Unspawned)],
        dispatcher := Registering(p.owner))
    else if p.queued then
      Logged(st, Queued(session, msg, p.owner, p.ahead)).(table := p.table)
    else
      Logged(st, Beside(session, msg)).(dispatcher := if msg.control then Stopping(session) else Receiving)
  }

  function Taken(st: State, w: nat): State
    requires w < |st.workers|
  {
    var (table, next) := TakeNext(st.table, st.workers[w].session, w);
    match next
    case None => Moved(st, w, Leaving).(table := table)
    case Some(msg) => st.(workers := st.workers[w := st.workers[w].(current := msg, phase := Placing)], table := table)
  }

  /** A pending stop of the session goes to whoever looks. */
  function AfterLook(st: State, session: string, looker: Looker): State {
    Logged(st, Looked(session, looker, session in st.pendingStops)).(pendingStops := st.pendingStops - {session})
  }

  function Checked(st: State, w: nat): State
    requires w < |st.workers|
  {
    var session := st.workers[w].session;
    var next := AfterLook(st, session, FirstLook(w));
    if session in st.pendingStops then Moved(next, w, Draining).(active := st.active - {session})
    else Moved(next, w, Starting)
  }

  function TurnLooked(st: State, w: nat): State
    requires w < |st.workers|
  {
    var session := st.workers[w].session;
    var next := AfterLook(st, session, TurnOf(w, |StartedBy(st.history, w)|));
    Moved(next, w, if session in st.pendingStops then Aborting else Turning)
  }

  function Cleared(st: State, w: nat): State
    requires w < |st.workers|
  {
    var session := st.workers[w].session;
    Moved(st, w, Releasing).(
      active := if session in st.active && st.active[session].Pending? then st.active - {session} else st.active)
  }

  function Released(st: State, w: nat): State
    requires w < |st.workers|
  {
    Moved(st, w, Gone).(table := Release(st.table, st.workers[w].session, w))
  }

  function Apply(st: State, a: Action): State
    requires Enabled(st, a)
  {
    match a
    case Receive(session, msg) => Received(st, session, msg)
    case Register =>
      var w := st.dispatcher.worker;
      st.(dispatcher := Spawning(w), active := st.active[st.workers[w].session := Pending])
    case Spawn => Moved(st, st.dispatcher.worker, Waiting).(dispatcher := Receiving)
    case FindPending => st.(dispatcher := Arming(st.dispatcher.session))
    case FindOther => st.(dispatcher := Receiving)
    case Arm =>
      var session := st.dispatcher.session;
      Logged(st, Armed(session)).(pendingStops := st.pendingStops + {session}, dispatcher := Receiving)
    case TurnState(session, None) => st.(active := st.active - {session})
    case TurnState(session, Some(t)) => st.(active := st.active[session := t])
    case Acquire(w) => Moved(st, w, Ready).(slots := st.slots + 1)
    case Cancel(w) =>
      Moved(Logged(st, Cancelled(st.workers[w].session)), w, Releasing).(active := st.active - {st.workers[w].session})
    case CheckStop(w) => Checked(st, w)
    case EndDrain(w) => Moved(st, w, Leaving)
    case Start(w) => Moved(Logged(st, Started(st.workers[w].session, st.workers[w].current, w)), w, Handling)
    case Begin(w) => Moved(st, w, Looking).(active := st.active[st.workers[w].session := Running])
    case Look(w) => TurnLooked(st, w)
    case LookBeside(session) => AfterLook(st, session, OtherTurn)
    case EndTurn(w) => Moved(st, w, Finished)
    case Take(w) => Taken(st, w)
    case Place(w) => Moved(st, w, Starting).(active := st.active[st.workers[w].session := Pending])
    case ReleaseSlot(w) => Moved(st, w, Unwinding).(slots := st.slots - 1)
    case ClearPlaceholder(w) => Cleared(st, w)
    case ReleaseMailbox(w) => Released(st, w)
  }

  /** The actions lead from one state to the other. */
  predicate Leads(st: State, actions: seq<Action>, end: State)
    decreases |actions|
  {
    if actions == [] then end == st
    else Enabled(st, actions[0]) && Leads(Apply(st, actions[0]), actions[1..], end)
  }

  // ---------------------------------------------------------------- reading the record

  /** The messages of a session that were given a mailbox, in order. */
  function Admitted(history: seq<Event>, session: string): seq<Inbound> {
    if history == [] then []
    else
      var e := history[|history|-1];
      Admitted(history[..|history|-1], session)
      + if (e.Claimed? || e.Queued?) && e.session == session then [e.msg] else []
  }

  /** The messages of a session whose turn was started, in order. */
  function StartedIn(history: seq<Event>, session: string): seq<Inbound> {
    if history == [] then []
    else
      var e := history[|history|-1];
      StartedIn(history[..|history|-1], session) + if e.Started? && e.session == session then [e.msg] else []
  }

  /** What a worker claimed, and what was queued in its mailbox. */
  function AssignedTo(history: seq<Event>, w: nat): seq<Inbound> {
    if history == [] then []
    else
      var e := history[|history|-1];
      AssignedTo(history[..|history|-1], w) + if (e.Claimed? || e.Queued?) && e.worker == w then [e.msg] else []
  }

  function StartedBy(history: seq<Event>, w: nat): seq<Inbound> {
    if history == [] then []
    else
      var e := history[|history|-1];
      StartedBy(history[..|history|-1], w) + if e.Started? && e.worker == w then [e.msg] else []
  }

  /** Every message of the session came from a channel that answers each message on its own. */
  predicate FedIndependently(history: seq<Event>, session: string) {
    forall e | e in history && (e.Claimed? || e.Queued? || e.Beside?) && e.session == session :: e.msg.independent
  }

  /** No stop was left pending for the session, and no worker of it was cancelled while it waited. */
  predicate Undisturbed(history: seq<Event>, session: string) {
    Armed(session) !in history && Cancelled(session) !in history
  }

  lemma OneMoreEvent(history: seq<Event>, e: Event, session: string, w: nat)
    ensures Admitted(history + [e], session) ==
      Admitted(history, session) + if (e.Claimed? || e.Queued?) && e.session == session then [e.msg] else []
    ensures StartedIn(history + [e], session) ==
      StartedIn(history, session) + if e.Started? && e.session == session then [e.msg] else []
    ensures AssignedTo(history + [e], w) ==
      AssignedTo(history, w) + if (e.Claimed? || e.Queued?) && e.worker == w then [e.msg] else []
    ensures StartedBy(history + [e], w) == StartedBy(history, w) + if e.Started? && e.worker == w then [e.msg] else []
  {
    assert (history + [e])[..|history|] == history;
  }

  // ---------------------------------------------------------------- what every step keeps

  predicate HoldsSlot(p: Phase) {
    (AtWork(p) && !p.Unspawned? && !p.Waiting?) || p.Leaving?
  }

  /** Has turns to run, or runs them: not on the way out. */
  predicate AtWork(p: Phase) {
    !p.Leaving? && !p.Unwinding? && !p.Releasing? && !p.Gone?
  }

  /** The worker still has to start its current message. */
  predicate HasInHand(p: Phase) {
    p.Unspawned? || p.Waiting? || p.Ready? || p.Starting? || p.Placing?
  }

  function InHand(w: Worker): seq<Inbound> {
    if HasInHand(w.phase) then [w.current] else []
  }

  function Holders(workers: seq<Worker>): nat {
    if workers == [] then 0
    else Holders(workers[..|workers|-1]) + if HoldsSlot(workers[|workers|-1].phase) then 1 else 0
  }

  /** Every mailbox belongs to a worker of its session that has not released it. */
  predicate MailboxesAreOwned(st: State) {
    forall s | s in st.table ::
      && st.table[s].owner < |st.workers|
      && st.workers[st.table[s].owner].session == s && !st.workers[st.table[s].owner].phase.Gone?
  }

  predicate SlotsAreCounted(st: State) {
    st.slots == Holders(st.workers) <= st.capacity
  }

  /** A worker at work owns the mailbox of its session, where no steering message could replace it. */
  predicate OwnersWorkAlone(st: State) {
    forall w | 0 <= w < |st.workers| && AtWork(st.workers[w].phase) ::
      FedIndependently(st.history, st.workers[w].session) ==> Owns(st.table, st.workers[w].session, w)
  }

  predicate EndsWith(done: seq<Inbound>, msg: Inbound) {
    done != [] && done[|done|-1] == msg
  }

  /** A worker starts what it was assigned, in order; what its mailbox holds is what remains after its current message. */
  predicate KeepsToItsOwn(st: State, w: nat)
    requires w < |st.workers|
  {
    var session := st.workers[w].session;
    var done := StartedBy(st.history, w) + InHand(st.workers[w]);
    if Owns(st.table, session, w) && !st.workers[w].phase.Draining? && AtWork(st.workers[w].phase)
    then AssignedTo(st.history, w) == done + st.table[session].independent && EndsWith(done, st.workers[w].current)
    else done <= AssignedTo(st.history, w)
  }

  predicate WorkersKeepToTheirOwn(st: State) {
    forall w | 0 <= w < |st.workers| :: KeepsToItsOwn(st, w)
  }

  /** What a session is still going to start. */
  function Remaining(st: State, session: string): seq<Inbound>
    requires MailboxesAreOwned(st)
  {
    if session in st.table then InHand(st.workers[st.table[session].owner]) + st.table[session].independent else []
  }

  /** Nothing admitted is lost, and what remains has a worker that will get to it. */
  predicate Conserved(st: State, session: string)
    requires MailboxesAreOwned(st)
  {
    && Admitted(st.history, session) == StartedIn(st.history, session) + Remaining(st, session)
    && (session in st.table ==>
      var p := st.workers[st.table[session].owner].phase; AtWork(p) && !p.Draining?)
    && session !in st.pendingStops
  }

  predicate RecordNamesWorkers(st: State) {
    forall e | e in st.history && (e.Claimed? || e.Queued? || e.Started?) :: e.worker < |st.workers|
  }

  predicate Inv(st: State) {
    && MailboxesAreOwned(st) && SlotsAreCounted(st) && OwnersWorkAlone(st)
    && RecordNamesWorkers(st) && WorkersKeepToTheirOwn(st)
  }

  // ---------------------------------------------------------------- kinds of steps

  /** From one phase to the next, while the mailboxes stay as they are. */
  predicate Edge(p: Phase, q: Phase) {
    match p
    case Unspawned => q.Waiting?
    case Waiting => q.Ready? || q.Releasing?
    case Ready => q.Draining? || q.Starting?
    case Draining => q.Leaving?
    case Starting => q.Handling?
    case Handling => q.Looking? || q.Finished?
    case Looking => q.Turning? || q.Aborting?
    case Turning => q.Finished?
    case Aborting => q.Finished?
    case Placing => q.Starting?
    case Leaving => q.Unwinding?
    case Unwinding => q.Releasing?
    case _ => false
  }

  /** What the record gains when a worker moves. */
  function Noted(st: State, w: nat, q: Phase): seq<Event>
    requires w < |st.workers|
  {
    var worker := st.workers[w];
    if q.Handling? then [Started(worker.session, worker.current, w)]
    else if worker.phase.Waiting? && q.Releasing? then [Cancelled(worker.session)]
    else if worker.phase.Ready? then [Looked(worker.session, FirstLook(w), q.Draining?)]
    else if worker.phase.Looking? then [Looked(worker.session, TurnOf(w, |StartedBy(st.history, w)|), q.Aborting?)]
    else []
  }

  /** One worker moves along; the mailboxes stay as they are. */
  predicate Moves(st: State, next: State, w: nat) {
    && w < |st.workers| == |next.workers|
    && var q := next.workers[w].phase;
      && Edge(st.workers[w].phase, q)
      && next.workers == st.workers[w := st.workers[w].(phase := q)]
      && next.history == st.history + Noted(st, w, q)
      && next.table == st.table
      && next.capacity == st.capacity
      && next.slots == st.slots + (if q.Ready? then 1 else 0) - (if q.Unwinding? then 1 else 0)
      && (q.Ready? ==> st.slots < st.capacity)
      && next.pendingStops == (if Looks(st.workers[w].phase) then st.pendingStops - {st.workers[w].session}
                               else st.pendingStops)
      && (Looks(st.workers[w].phase) ==> (q.Draining? || q.Aborting? <==> st.workers[w].session in st.pendingStops))
  }

  predicate Looks(p: Phase) {
    p.Ready? || p.Looking?
  }

  /** What may happen to pending stops without a worker: one is left, or some other turn looks. */
  predicate Notes(st: State, next: State, e: Event) {
    || (e.Armed? && next.pendingStops == st.pendingStops + {e.session})
    || (e.Looked? && e.looker.OtherTurn? && e.hit == (e.session in st.pendingStops)
        && next.pendingStops == st.pendingStops - {e.session})
  }

  /** Neither mailboxes nor workers change; at most a stop is left pending or taken. */
  predicate Rests(st: State, next: State) {
    && next.table == st.table && next.workers == st.workers && next.slots == st.slots && next.capacity == st.capacity
    && if next.history == st.history then next.pendingStops == st.pendingStops
       else next.history != [] && var e := next.history[|next.history|-1];
         next.history == st.history + [e] && Notes(st, next, e)
  }

  /** The action leaves the mailboxes alone, and the workers. */
  predicate IsQuiet(a: Action) {
    a.Register? || a.FindPending? || a.FindOther? || a.Arm? || a.TurnState? || a.LookBeside?
  }

  lemma QuietStep(st: State, a: Action)
    requires Enabled(st, a) && IsQuiet(a)
    ensures Rests(st, Apply(st, a))
  {
  }

  predicate IsMove(a: Action) {
    a.Spawn? || a.Acquire? || a.Cancel? || a.CheckStop? || a.EndDrain? || a.Start? || a.Begin? || a.Look?
    || a.EndTurn? || a.Place? || a.ReleaseSlot? || a.ClearPlaceholder?
  }

  function Mover(st: State, a: Action): nat
    requires Enabled(st, a) && IsMove(a)
  {
    if a.Spawn? then st.dispatcher.worker else a.worker
  }

  lemma MoveStep(st: State, a: Action)
    requires Enabled(st, a) && IsMove(a)
    ensures Moves(st, Apply(st, a), Mover(st, a))
  {
    var w, next := Mover(st, a), Apply(st, a);
    assert next.workers == st.workers[w := st.workers[w].(phase := next.workers[w].phase)];
  }

  // ---------------------------------------------------------------- slots

  lemma {:induction false} HoldersAfter(workers: seq<Worker>, w: nat, worker: Worker)
    requires w < |workers|
    ensures Holders(workers[w := worker]) + (if HoldsSlot(workers[w].phase) then 1 else 0)
         == Holders(workers) + if HoldsSlot(worker.phase) then 1 else 0
    decreases |workers|
  {
    var n := |workers| - 1;
    if w == n {
      assert workers[w := worker][..n] == workers[..n];
    } else {
      HoldersAfter(workers[..n], w, worker);
      assert workers[w := worker][..n] == workers[..n][w := worker];
    }
  }

  lemma MovesKeepSlots(st: State, next: State, w: nat)
    requires SlotsAreCounted(st) && Moves(st, next, w)
    ensures SlotsAreCounted(next)
  {
    HoldersAfter(st.workers, w, next.workers[w]);
  }

  // ---------------------------------------------------------------- owners

  lemma FeedingGoesBack(history: seq<Event>, more: seq<Event>, session: string)
    requires FedIndependently(history + more, session)
    ensures FedIndependently(history, session)
  {
    forall e | e in history ensures e in history + more {
    }
  }

  lemma MovesKeepOwners(st: State, next: State, w: nat)
    requires MailboxesAreOwned(st) && RecordNamesWorkers(st) && Moves(st, next, w)
    ensures MailboxesAreOwned(next) && RecordNamesWorkers(next)
  {
  }

  lemma MovesKeepAlone(st: State, next: State, w: nat)
    requires OwnersWorkAlone(st) && Moves(st, next, w)
    ensures OwnersWorkAlone(next)
  {
    forall v | 0 <= v < |next.workers| && AtWork(next.workers[v].phase)
               && FedIndependently(next.history, next.workers[v].session)
      ensures Owns(next.table, next.workers[v].session, v)
    {
      FeedingGoesBack(st.history, Noted(st, w, next.workers[w].phase), next.workers[v].session);
    }
  }

  lemma StartKeepsToItsOwn(st: State, next: State, w: nat)
    requires Moves(st, next, w) && next.workers[w].phase.Handling? && KeepsToItsOwn(st, w)
    ensures KeepsToItsOwn(next, w)
  {
    OneMoreEvent(st.history, Started(st.workers[w].session, st.workers[w].current, w), "", w);
    assert StartedBy(next.history, w) + InHand(next.workers[w]) == StartedBy(st.history, w) + InHand(st.workers[w]);
  }

  /** A move adds nothing to what another worker was assigned or started, nor to its own unless it starts a message. */
  lemma NotedAboutMover(st: State, next: State, w: nat, v: nat)
    requires Moves(st, next, w) && (v != w || !next.workers[w].phase.Handling?)
    ensures AssignedTo(next.history, v) == AssignedTo(st.history, v)
    ensures StartedBy(next.history, v) == StartedBy(st.history, v)
  {
    var noted := Noted(st, w, next.workers[w].phase);
    if noted != [] {
      OneMoreEvent(st.history, noted[0], "", v);
      assert next.history == st.history + [noted[0]];
    } else {
      assert next.history == st.history;
    }
  }

  /** A worker on its way out need only have started its own. */
  lemma LeavingKeepsToItsOwn(st: State, next: State, w: nat)
    requires w < |st.workers| && w < |next.workers| && KeepsToItsOwn(st, w)
    requires InHand(next.workers[w]) == [] && (next.workers[w].phase.Draining? || !AtWork(next.workers[w].phase))
    requires AssignedTo(next.history, w) == AssignedTo(st.history, w)
    requires StartedBy(next.history, w) == StartedBy(st.history, w)
    ensures KeepsToItsOwn(next, w)
  {
    assert StartedBy(st.history, w) + [] == StartedBy(st.history, w);
  }

  lemma StayingKeepsToItsOwn(st: State, next: State, w: nat)
    requires w < |st.workers| && w < |next.workers| && KeepsToItsOwn(st, w) && next.table == st.table
    requires next.workers[w] == st.workers[w].(phase := next.workers[w].phase)
    requires InHand(next.workers[w]) == InHand(st.workers[w])
    requires AtWork(st.workers[w].phase) && !st.workers[w].phase.Draining?
    requires AssignedTo(next.history, w) == AssignedTo(st.history, w)
    requires StartedBy(next.history, w) == StartedBy(st.history, w)
    ensures KeepsToItsOwn(next, w)
  {
  }

  lemma HandsOnEdges(p: Phase, q: Phase)
    requires Edge(p, q) && !q.Handling?
    ensures if q.Draining? || !AtWork(q) then !HasInHand(q)
      else AtWork(p) && !p.Draining? && HasInHand(p) == HasInHand(q)
  {
  }

  lemma OtherMoveKeepsToItsOwn(st: State, next: State, w: nat)
    requires Moves(st, next, w) && !next.workers[w].phase.Handling? && KeepsToItsOwn(st, w)
    ensures KeepsToItsOwn(next, w)
  {
    NotedAboutMover(st, next, w, w);
    HandsOnEdges(st.workers[w].phase, next.workers[w].phase);
    if next.workers[w].phase.Draining? || !AtWork(next.workers[w].phase) {
      LeavingKeepsToItsOwn(st, next, w);
    } else {
      StayingKeepsToItsOwn(st, next, w);
    }
  }

  lemma OthersKeepToTheirOwn(st: State, next: State, w: nat, v: nat)
    requires Moves(st, next, w) && v < |st.workers| && v != w && KeepsToItsOwn(st, v)
    ensures KeepsToItsOwn(next, v)
  {
    NotedAboutMover(st, next, w, v);
    assert next.workers[v] == st.workers[v] && next.table == st.table;
    Unconcerned(st, next, v);
  }

  lemma MovesKeepToTheirOwn(st: State, next: State, w: nat)
    requires WorkersKeepToTheirOwn(st) && Moves(st, next, w)
    ensures WorkersKeepToTheirOwn(next)
  {
    forall v | 0 <= v < |next.workers| ensures KeepsToItsOwn(next, v) {
      assert KeepsToItsOwn(st, v);
      if v == w {
        if next.workers[w].phase.Handling? {
          StartKeepsToItsOwn(st, next, w);
        } else {
          OtherMoveKeepsToItsOwn(st, next, w);
        }
      } else {
        OthersKeepToTheirOwn(st, next, w, v);
      }
    }
  }

  /** What a move keeps. */
  lemma MovesKeep(st: State, next: State, w: nat)
    requires Inv(st) && Moves(st, next, w)
    ensures Inv(next)
  {
    MovesKeepSlots(st, next, w);
    MovesKeepOwners(st, next, w);
    MovesKeepAlone(st, next, w);
    MovesKeepToTheirOwn(st, next, w);
  }

  lemma RestsKeepAlone(st: State, next: State)
    requires OwnersWorkAlone(st) && Rests(st, next)
    ensures OwnersWorkAlone(next)
  {
    forall v | 0 <= v < |next.workers| && AtWork(next.workers[v].phase)
               && FedIndependently(next.history, next.workers[v].session)
      ensures Owns(next.table, next.workers[v].session, v)
    {
      assert next.history == st.history + next.history[|st.history|..];
      FeedingGoesBack(st.history, next.history[|st.history|..], next.workers[v].session);
    }
  }

  lemma RestsKeepToTheirOwn(st: State, next: State)
    requires WorkersKeepToTheirOwn(st) && Rests(st, next)
    ensures WorkersKeepToTheirOwn(next)
  {
    forall v | 0 <= v < |next.workers| ensures KeepsToItsOwn(next, v) {
      assert KeepsToItsOwn(st, v);
      if next.history != st.history {
        OneMoreEvent(st.history, next.history[|st.history|], "", v);
      }
    }
  }

  lemma RestsKeep(st: State, next: State)
    requires Inv(st) && Rests(st, next)
    ensures Inv(next)
  {
    RestsKeepAlone(st, next);
    RestsKeepToTheirOwn(st, next);
  }

  // ---------------------------------------------------------------- giving a mailbox up

  lemma TakeKeepsSlotsAndOwners(st: State, w: nat)
    requires Inv(st) && IsWorkerIn(st, w, Finished)
    ensures SlotsAreCounted(Taken(st, w)) && MailboxesAreOwned(Taken(st, w)) && RecordNamesWorkers(Taken(st, w))
  {
    HoldersAfter(st.workers, w, Taken(st, w).workers[w]);
  }

  lemma TakeKeepsAlone(st: State, w: nat)
    requires MailboxesAreOwned(st) && OwnersWorkAlone(st) && IsWorkerIn(st, w, Finished)
    ensures OwnersWorkAlone(Taken(st, w))
  {
  }

  lemma TakerKeepsToItsOwn(st: State, w: nat)
    requires MailboxesAreOwned(st) && IsWorkerIn(st, w, Finished) && KeepsToItsOwn(st, w)
    ensures KeepsToItsOwn(Taken(st, w), w)
  {
    var session := st.workers[w].session;
    if Owns(st.table, session, w) && st.table[session].independent != [] {
      var started, queue := StartedBy(st.history, w), st.table[session].independent;
      assert (started + []) + queue == (started + [queue[0]]) + queue[1..];
    }
  }

  lemma TakeKeepsToTheirOwn(st: State, w: nat)
    requires MailboxesAreOwned(st) && WorkersKeepToTheirOwn(st) && IsWorkerIn(st, w, Finished)
    ensures WorkersKeepToTheirOwn(Taken(st, w))
  {
    forall v | 0 <= v < |st.workers| ensures KeepsToItsOwn(Taken(st, w), v) {
      assert KeepsToItsOwn(st, v);
      if v == w {
        TakerKeepsToItsOwn(st, w);
      } else {
        Unconcerned(st, Taken(st, w), v);
      }
    }
  }

  lemma ReleaseKeeps(st: State, w: nat)
    requires Inv(st) && IsWorkerIn(st, w, Releasing)
    ensures Inv(Released(st, w))
  {
    HoldersAfter(st.workers, w, Released(st, w).workers[w]);
    forall v | 0 <= v < |st.workers| ensures KeepsToItsOwn(Released(st, w), v) {
      assert KeepsToItsOwn(st, v);
    }
  }

  // ---------------------------------------------------------------- receiving

  lemma {:induction false} UnknownWorker(history: seq<Event>, w: nat)
    requires forall e | e in history && (e.Claimed? || e.Queued? || e.Started?) :: e.worker < w
    ensures AssignedTo(history, w) == [] && StartedBy(history, w) == []
    decreases |history|
  {
    if history != [] {
      UnknownWorker(history[..|history|-1], w);
      assert history[|history|-1] in history;
    }
  }

  /** What claiming a mailbox does. */
  lemma ClaimedState(st: State, session: string, msg: Inbound)
    requires ClaimPosition(st.table, session in st.active, |st.workers|, session, msg).claimed
    ensures var next, w := Received(st, session, msg), |st.workers|;
      && next.workers == st.workers + [Worker(session, msg, Unspawned)] && next.pendingStops == st.pendingStops
      && next.table == st.table[session := Box(w, [])] && next.history == st.history + [Claimed(session, msg, w)]
  {
  }

  /** What queueing a message does. */
  lemma QueuedState(st: State, session: string, msg: Inbound)
    requires session in st.table && ClaimPosition(st.table, session in st.active, |st.workers|, session, msg).queued
    ensures var next, box := Received(st, session, msg), st.table[session];
      && next.workers == st.workers && next.pendingStops == st.pendingStops
      && next.table == st.table[session := Box(box.owner, box.independent + [msg])]
      && next.history == st.history + [Queued(session, msg, box.owner, |box.independent + [msg]|)]
  {
  }

  /** What a message handled beside the mailboxes does. */
  lemma BesideState(st: State, session: string, msg: Inbound)
    requires var p := ClaimPosition(st.table, session in st.active, |st.workers|, session, msg); !p.claimed && !p.queued
    ensures var next := Received(st, session, msg);
      && next.workers == st.workers && next.table == st.table && next.slots == st.slots && next.capacity == st.capacity
      && next.history == st.history + [Beside(session, msg)]
  {
  }

  lemma ClaimKeepsSlotsAndOwners(st: State, session: string, msg: Inbound)
    requires SlotsAreCounted(st) && MailboxesAreOwned(st) && RecordNamesWorkers(st)
    requires ClaimPosition(st.table, session in st.active, |st.workers|, session, msg).claimed
    ensures var next := Received(st, session, msg);
      SlotsAreCounted(next) && MailboxesAreOwned(next) && RecordNamesWorkers(next)
  {
    var next := Received(st, session, msg);
    ClaimedState(st, session, msg);
    assert next.workers[..|st.workers|] == st.workers;
  }

  lemma QueueKeepsSlotsAndOwners(st: State, session: string, msg: Inbound)
    requires SlotsAreCounted(st) && MailboxesAreOwned(st) && RecordNamesWorkers(st) && session in st.table
    requires ClaimPosition(st.table, session in st.active, |st.workers|, session, msg).queued
    ensures var next := Received(st, session, msg);
      SlotsAreCounted(next) && MailboxesAreOwned(next) && RecordNamesWorkers(next)
  {
    QueuedState(st, session, msg);
  }

  lemma ReceiveKeepsSlotsAndOwners(st: State, session: string, msg: Inbound)
    requires SlotsAreCounted(st) && MailboxesAreOwned(st) && RecordNamesWorkers(st)
    ensures var next := Received(st, session, msg);
      SlotsAreCounted(next) && MailboxesAreOwned(next) && RecordNamesWorkers(next)
  {
    var p := ClaimPosition(st.table, session in st.active, |st.workers|, session, msg);
    if p.claimed {
      ClaimKeepsSlotsAndOwners(st, session, msg);
    } else if p.queued {
      QueueKeepsSlotsAndOwners(st, session, msg);
    } else {
      BesideState(st, session, msg);
    }
  }

  lemma ReceiveKeepsAlone(st: State, session: string, msg: Inbound)
    requires MailboxesAreOwned(st) && OwnersWorkAlone(st)
    ensures OwnersWorkAlone(Received(st, session, msg))
  {
    var next := Received(st, session, msg);
    forall v | 0 <= v < |next.workers| && AtWork(next.workers[v].phase)
               && FedIndependently(next.history, next.workers[v].session)
      ensures Owns(next.table, next.workers[v].session, v)
    {
      assert next.history == st.history + [next.history[|st.history|]];
      FeedingGoesBack(st.history, [next.history[|st.history|]], next.workers[v].session);
      assert next.history[|st.history|] in next.history;
    }
  }

  lemma AppendToQueue(given: seq<Inbound>, done: seq<Inbound>, queue: seq<Inbound>, msg: Inbound)
    ensures given == done + queue ==> given + [msg] == done + (queue + [msg])
    ensures done <= given ==> done <= given + [msg]
  {
    assert done + (queue + [msg]) == (done + queue) + [msg];
  }

  lemma LongerQueueIsItsOwn(st: State, next: State, session: string, msg: Inbound)
    requires MailboxesAreOwned(st) && session in st.table && KeepsToItsOwn(st, st.table[session].owner)
    requires next.workers == st.workers && session in next.table
    requires next.table[session] == Box(st.table[session].owner, st.table[session].independent + [msg])
    requires var w := st.table[session].owner;
      && AssignedTo(next.history, w) == AssignedTo(st.history, w) + [msg]
      && StartedBy(next.history, w) == StartedBy(st.history, w)
    ensures KeepsToItsOwn(next, st.table[session].owner)
  {
    var box := st.table[session];
    AppendToQueue(AssignedTo(st.history, box.owner), StartedBy(st.history, box.owner) + InHand(st.workers[box.owner]),
                  box.independent, msg);
  }

  lemma QueueingKeepsToItsOwn(st: State, session: string, msg: Inbound)
    requires MailboxesAreOwned(st) && session in st.table && KeepsToItsOwn(st, st.table[session].owner)
    requires ClaimPosition(st.table, session in st.active, |st.workers|, session, msg).queued
    ensures KeepsToItsOwn(Received(st, session, msg), st.table[session].owner)
  {
    var box := st.table[session];
    QueuedState(st, session, msg);
    OneMoreEvent(st.history, Queued(session, msg, box.owner, |box.independent + [msg]|), session, box.owner);
    LongerQueueIsItsOwn(st, Received(st, session, msg), session, msg);
  }

  /** Nothing changes for a worker whose mailbox is left as it is, or replaced. */
  lemma Unconcerned(st: State, next: State, v: nat)
    requires v < |st.workers| && v < |next.workers| && next.workers[v] == st.workers[v] && KeepsToItsOwn(st, v)
    requires AssignedTo(next.history, v) == AssignedTo(st.history, v)
    requires StartedBy(next.history, v) == StartedBy(st.history, v)
    requires var s := st.workers[v].session; Owns(next.table, s, v) ==> s in st.table && next.table[s] == st.table[s]
    ensures KeepsToItsOwn(next, v)
  {
  }

  lemma OtherMailboxesStay(st: State, session: string, msg: Inbound, v: nat)
    requires MailboxesAreOwned(st) && v < |st.workers|
    requires !(Received(st, session, msg).history[|st.history|].Queued? && Owns(st.table, session, v))
    ensures var next, s := Received(st, session, msg), st.workers[v].session;
      && |st.workers| <= |next.workers| && next.workers[v] == st.workers[v]
      && (Owns(next.table, s, v) ==> s in st.table && next.table[s] == st.table[s])
  {
  }

  lemma ReceiveKeepsToItsOwn(st: State, session: string, msg: Inbound, v: nat)
    requires MailboxesAreOwned(st) && v < |st.workers| && KeepsToItsOwn(st, v)
    ensures KeepsToItsOwn(Received(st, session, msg), v)
  {
    var next := Received(st, session, msg);
    var e := next.history[|st.history|];
    if e.Queued? && e.worker == v {
      QueueingKeepsToItsOwn(st, session, msg);
    } else {
      OneMoreEvent(st.history, e, session, v);
      OtherMailboxesStay(st, session, msg, v);
      Unconcerned(st, next, v);
    }
  }

  lemma NewWorkerIsItsOwn(next: State, w: nat)
    requires w < |next.workers| && next.workers[w].phase.Unspawned?
    requires var worker := next.workers[w];
      && worker.session in next.table && next.table[worker.session] == Box(w, [])
      && AssignedTo(next.history, w) == [worker.current] && StartedBy(next.history, w) == []
    ensures KeepsToItsOwn(next, w)
  {
  }

  lemma NewWorkerKeepsToItsOwn(st: State, session: string, msg: Inbound)
    requires RecordNamesWorkers(st) && ClaimPosition(st.table, session in st.active, |st.workers|, session, msg).claimed
    ensures KeepsToItsOwn(Received(st, session, msg), |st.workers|)
  {
    ClaimedState(st, session, msg);
    UnknownWorker(st.history, |st.workers|);
    OneMoreEvent(st.history, Claimed(session, msg, |st.workers|), session, |st.workers|);
    NewWorkerIsItsOwn(Received(st, session, msg), |st.workers|);
  }

  lemma ReceiveKeepsToTheirOwn(st: State, session: string, msg: Inbound)
    requires MailboxesAreOwned(st) && RecordNamesWorkers(st) && WorkersKeepToTheirOwn(st)
    ensures WorkersKeepToTheirOwn(Received(st, session, msg))
  {
    var next := Received(st, session, msg);
    forall v | 0 <= v < |next.workers| ensures KeepsToItsOwn(next, v) {
      if v < |st.workers| {
        ReceiveKeepsToItsOwn(st, session, msg, v);
      } else {
        NewWorkerKeepsToItsOwn(st, session, msg);
      }
    }
  }

  // ---------------------------------------------------------------- every run

  lemma InvIsKept(st: State, a: Action)
    requires Inv(st) && Enabled(st, a)
    ensures Inv(Apply(st, a))
  {
    if IsQuiet(a) {
      QuietStep(st, a);
      RestsKeep(st, Apply(st, a));
    } else if IsMove(a) {
      MoveStep(st, a);
      MovesKeep(st, Apply(st, a), Mover(st, a));
    } else if a.Receive? {
      ReceiveKeepsSlotsAndOwners(st, a.session, a.msg);
      ReceiveKeepsAlone(st, a.session, a.msg);
      ReceiveKeepsToTheirOwn(st, a.session, a.msg);
    } else if a.Take? {
      TakeKeepsSlotsAndOwners(st, a.worker);
      TakeKeepsAlone(st, a.worker);
      TakeKeepsToTheirOwn(st, a.worker);
    } else {
      ReleaseKeeps(st, a.worker);
    }
  }

  lemma {:induction false} InvOnRuns(st: State, actions: seq<Action>, end: State)
    requires Inv(st) && Leads(st, actions, end)
    ensures Inv(end)
    decreases |actions|
  {
    if actions != [] {
      InvIsKept(st, actions[0]);
      InvOnRuns(Apply(st, actions[0]), actions[1..], end);
    }
  }

  // ---------------------------------------------------------------- nothing is lost

  /** The session is fed by channels that answer each message, and nothing disturbs it. */
  predicate Calm(history: seq<Event>, session: string) {
    FedIndependently(history, session) && Undisturbed(history, session)
  }

  lemma RestsConserve(st: State, next: State, session: string)
    requires Inv(st) && Inv(next) && Rests(st, next) && Conserved(st, session) && Calm(next.history, session)
    ensures Conserved(next, session)
  {
    if next.history == st.history {
      UntouchedIsConserved(st, next, session);
    } else {
      NotesConserve(st, next, session);
    }
  }

  lemma NotesConserve(st: State, next: State, session: string)
    requires MailboxesAreOwned(st) && MailboxesAreOwned(next) && Rests(st, next) && next.history != st.history
    requires Conserved(st, session) && Undisturbed(next.history, session)
    ensures Conserved(next, session)
  {
    var e := next.history[|st.history|];
    assert e in next.history;
    OneMoreEvent(st.history, e, session, 0);
    UntouchedIsConserved(st, next, session);
  }

  /** The session's mailbox, its owner and its record stay as they are. */
  lemma UntouchedIsConserved(st: State, next: State, session: string)
    requires MailboxesAreOwned(st) && MailboxesAreOwned(next) && Conserved(st, session)
    requires Admitted(next.history, session) == Admitted(st.history, session)
    requires StartedIn(next.history, session) == StartedIn(st.history, session)
    requires session !in next.pendingStops
    requires session in next.table <==> session in st.table
    requires session in st.table ==>
      && next.table[session] == st.table[session]
      && next.workers[st.table[session].owner] == st.workers[st.table[session].owner]
    ensures Conserved(next, session)
  {
  }

  /** Only the start of a message adds to what was started, and no move adds to what was admitted. */
  lemma MoveNotes(st: State, next: State, w: nat, session: string)
    requires Moves(st, next, w)
    ensures Admitted(next.history, session) == Admitted(st.history, session)
    ensures StartedIn(next.history, session) == StartedIn(st.history, session)
      + if next.workers[w].phase.Handling? && st.workers[w].session == session then [st.workers[w].current] else []
  {
    var noted := Noted(st, w, next.workers[w].phase);
    if noted != [] {
      OneMoreEvent(st.history, noted[0], session, w);
      assert next.history == st.history + [noted[0]];
    } else {
      assert next.history == st.history;
    }
  }

  /** The worker that moves does not own the session's mailbox. */
  lemma OtherMovesConserve(st: State, next: State, w: nat, session: string)
    requires MailboxesAreOwned(st) && MailboxesAreOwned(next) && Moves(st, next, w) && Conserved(st, session)
    requires st.workers[w].session != session || !AtWork(st.workers[w].phase)
    ensures Conserved(next, session)
  {
    MoveNotes(st, next, w, session);
    UntouchedIsConserved(st, next, session);
  }

  lemma FromHandToStarted(started: seq<Inbound>, m: Inbound, queue: seq<Inbound>)
    ensures started + ([m] + queue) == (started + [m]) + ([] + queue)
  {
  }

  /** The owner starts the message in its hand. */
  lemma StartedIsConserved(st: State, next: State, w: nat, session: string)
    requires MailboxesAreOwned(st) && MailboxesAreOwned(next) && Conserved(st, session) && Owns(st.table, session, w)
    requires w < |next.workers| && next.table == st.table && next.workers[w].phase.Handling?
    requires HasInHand(st.workers[w].phase) && session !in next.pendingStops
    requires Admitted(next.history, session) == Admitted(st.history, session)
    requires StartedIn(next.history, session) == StartedIn(st.history, session) + [st.workers[w].current]
    ensures Conserved(next, session)
  {
    FromHandToStarted(StartedIn(st.history, session), st.workers[w].current, st.table[session].independent);
  }

  /** The owner moves on with what it has in its hand. */
  lemma SameHandIsConserved(st: State, next: State, w: nat, session: string)
    requires MailboxesAreOwned(st) && MailboxesAreOwned(next) && Conserved(st, session) && Owns(st.table, session, w)
    requires w < |next.workers| && next.table == st.table && session !in next.pendingStops
    requires Admitted(next.history, session) == Admitted(st.history, session)
    requires StartedIn(next.history, session) == StartedIn(st.history, session)
    requires InHand(next.workers[w]) == InHand(st.workers[w])
    requires AtWork(next.workers[w].phase) && !next.workers[w].phase.Draining?
    ensures Conserved(next, session)
  {
  }

  /** What the owner of a calm session can do next, other than taking a message. */
  lemma OwnerOfCalmSession(st: State, next: State, w: nat, session: string)
    requires MailboxesAreOwned(st) && Moves(st, next, w) && Conserved(st, session) && Owns(st.table, session, w)
    requires Undisturbed(next.history, session)
    ensures var p, q := st.workers[w].phase, next.workers[w].phase;
      && AtWork(q) && !q.Draining? && st.workers[w].session == session
      && (q.Handling? ==> HasInHand(p))
      && (!q.Handling? ==> InHand(next.workers[w]) == InHand(st.workers[w]))
  {
    var noted := Noted(st, w, next.workers[w].phase);
    if noted != [] {
      assert next.history[|st.history|] == noted[0];
    }
  }

  lemma OwnerMovesConserve(st: State, next: State, w: nat, session: string)
    requires Inv(st) && Inv(next) && Moves(st, next, w) && Conserved(st, session) && Calm(next.history, session)
    requires Owns(st.table, session, w)
    ensures Conserved(next, session)
  {
    OwnerOfCalmSession(st, next, w, session);
    MoveNotes(st, next, w, session);
    if next.workers[w].phase.Handling? {
      StartedIsConserved(st, next, w, session);
    } else {
      SameHandIsConserved(st, next, w, session);
    }
  }

  lemma MovesConserve(st: State, next: State, w: nat, session: string)
    requires Inv(st) && Inv(next) && Moves(st, next, w) && Conserved(st, session) && Calm(next.history, session)
    ensures Conserved(next, session)
  {
    if st.workers[w].session == session && AtWork(st.workers[w].phase) {
      FeedingGoesBack(st.history, Noted(st, w, next.workers[w].phase), session);
      OwnerMovesConserve(st, next, w, session);
    } else {
      OtherMovesConserve(st, next, w, session);
    }
  }

  /** Taking the oldest message moves it from the queue to the hand; giving up takes place only with an empty queue. */
  lemma OwnerTakes(st: State, w: nat, session: string)
    requires MailboxesAreOwned(st) && IsWorkerIn(st, w, Finished) && Owns(st.table, session, w)
    requires MailboxesAreOwned(Taken(st, w))
    ensures Remaining(Taken(st, w), session) == Remaining(st, session)
    ensures session in Taken(st, w).table ==>
      Taken(st, w).table[session].owner == w && Taken(st, w).workers[w].phase.Placing?
  {
    var queue := st.table[session].independent;
    if queue != [] {
      assert [] + queue == [queue[0]] + queue[1..];
    } else {
      assert [] + queue == [];
    }
  }

  lemma TakeConserves(st: State, w: nat, session: string)
    requires Inv(st) && IsWorkerIn(st, w, Finished) && Inv(Taken(st, w))
    requires Conserved(st, session) && Calm(st.history, session)
    ensures Conserved(Taken(st, w), session)
  {
    if Owns(st.table, session, w) {
      OwnerTakes(st, w, session);
    } else {
      UntouchedIsConserved(st, Taken(st, w), session);
    }
  }

  lemma ReleaseConserves(st: State, w: nat, session: string)
    requires Inv(st) && IsWorkerIn(st, w, Releasing) && Inv(Released(st, w))
    requires Conserved(st, session)
    ensures Conserved(Released(st, w), session)
  {
  }

  lemma AppendAtEnd(started: seq<Inbound>, inHand: seq<Inbound>, queue: seq<Inbound>, msg: Inbound)
    ensures started + (inHand + queue) + [msg] == started + (inHand + (queue + [msg]))
  {
  }

  lemma LongerQueueIsConserved(st: State, next: State, session: string, msg: Inbound)
    requires MailboxesAreOwned(st) && MailboxesAreOwned(next) && session in st.table && Conserved(st, session)
    requires next.workers == st.workers && next.pendingStops == st.pendingStops && session in next.table
    requires next.table[session] == Box(st.table[session].owner, st.table[session].independent + [msg])
    requires Admitted(next.history, session) == Admitted(st.history, session) + [msg]
    requires StartedIn(next.history, session) == StartedIn(st.history, session)
    ensures Conserved(next, session)
  {
    var box := st.table[session];
    AppendAtEnd(StartedIn(st.history, session), InHand(st.workers[box.owner]), box.independent, msg);
  }

  lemma QueueingConserves(st: State, msg: Inbound, session: string)
    requires MailboxesAreOwned(st) && session in st.table && Conserved(st, session)
    requires ClaimPosition(st.table, session in st.active, |st.workers|, session, msg).queued
    requires MailboxesAreOwned(Received(st, session, msg))
    ensures Conserved(Received(st, session, msg), session)
  {
    var box := st.table[session];
    QueuedState(st, session, msg);
    OneMoreEvent(st.history, Queued(session, msg, box.owner, |box.independent + [msg]|), session, 0);
    LongerQueueIsConserved(st, Received(st, session, msg), session, msg);
  }

  lemma ClaimingConserves(st: State, msg: Inbound, session: string)
    requires MailboxesAreOwned(st) && session !in st.table && Conserved(st, session)
    requires MailboxesAreOwned(Received(st, session, msg))
    ensures Conserved(Received(st, session, msg), session)
  {
    OneMoreEvent(st.history, Claimed(session, msg, |st.workers|), session, 0);
  }

  lemma ReceivingElsewhere(st: State, from: string, msg: Inbound, session: string)
    requires MailboxesAreOwned(st)
    requires from != session || Received(st, from, msg).history[|st.history|].Beside?
    ensures var next := Received(st, from, msg);
      && Admitted(next.history, session) == Admitted(st.history, session)
      && StartedIn(next.history, session) == StartedIn(st.history, session)
  {
    OneMoreEvent(st.history, Received(st, from, msg).history[|st.history|], session, 0);
  }

  lemma ReceivingElsewhereConserves(st: State, from: string, msg: Inbound, session: string)
    requires MailboxesAreOwned(st) && MailboxesAreOwned(Received(st, from, msg)) && Conserved(st, session)
    requires from != session || Received(st, from, msg).history[|st.history|].Beside?
    ensures Conserved(Received(st, from, msg), session)
  {
    ReceivingElsewhere(st, from, msg, session);
    UntouchedIsConserved(st, Received(st, from, msg), session);
  }

  lemma ReceiveConserves(st: State, from: string, msg: Inbound, session: string)
    requires MailboxesAreOwned(st) && MailboxesAreOwned(Received(st, from, msg))
    requires Conserved(st, session) && Calm(Received(st, from, msg).history, session)
    ensures Conserved(Received(st, from, msg), session)
  {
    var e := Received(st, from, msg).history[|st.history|];
    assert e in Received(st, from, msg).history;
    if from != session || e.Beside? {
      ReceivingElsewhereConserves(st, from, msg, session);
    } else if e.Queued? {
      QueueingConserves(st, msg, session);
    } else {
      ClaimingConserves(st, msg, session);
    }
  }
}
