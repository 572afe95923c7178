/**
 * Calls to a hook process: callers, the reader of its answers, its exit and cancellation, meeting at the table of
 * pending calls. Every action is one atomic section of the program.
 */
module HookCalls {

  datatype Reply = Response(id: nat, body: string) | ExitError(reason: string)

  /** What is done to the channel of a call, which has room for one reply. */
  datatype Op = Put(reply: Reply) | Shut

  /** All that was done to it, in order, and whether the caller took a reply out. */
  datatype Channel = Channel(log: seq<Op>, taken: bool)

  datatype Outcome = Got(reply: Reply) | ClosedWhileWaiting | GaveUp

  datatype Phase =
    | Numbered                  // has an id
    | Sending                   // in the table of pending calls
    | Waiting                   // its request is written
    | Dropping                  // failed or cancelled, about to leave the table
    | Left(outcome: Outcome)

  datatype Call = Call(phase: Phase, channel: Channel)

  datatype Reader = Scanning | Delivering(call: nat, reply: Reply) | Closing(call: nat)

  datatype Exit = Alive | Exited(reason: string) | Failing(reason: string) | FailPut(call: nat, reason: string)
                | FailShut(call: nat, reason: string) | Done

  /** The n-th call has id n + 1: ids count up from 1. */
  datatype State = State(closed: bool, calls: seq<Call>, pending: set<nat>, reader: Reader, exit: Exit)

  const START := State(false, [], {}, Scanning, Alive)

  function IdOf(call: nat): nat { call + 1 }

  datatype Action =
    | Enter                                 // a caller that saw the hook open takes the next id
    | CloseHook
    | Register(call: nat)
    | Written(call: nat)                    // the request reached the pipe, which is closed before the exit is dealt with
    | Fail(call: nat)                       // marshalling or writing failed, or the context ended
    | Receive(call: nat)
    | Remove(call: nat)
    | ReadLine(id: nat, body: string)       // the reader finds an answer and looks up its call
    | Deliver
    | CloseDelivered
    | ProcessExits(reason: string)          // waiting for the process returns
    | LockToFail
    | FailOne(call: nat)
    | PutExit
    | ShutExit
    | FinishFailing

  /** The exiting hook holds the lock of the table from the first pending call to the last. */
  predicate LockIsFree(st: State) {
    st.exit.Alive? || st.exit.Exited? || st.exit.Done?
  }

  predicate InPhase(st: State, call: nat, phase: Phase) {
    call < |st.calls| && st.calls[call].phase == phase
  }

  /** What the caller can take out: nothing, a reply, or the mark of a closed channel. */
  function Available(c: Channel): seq<Outcome> {
    if !c.taken && c.log != [] && c.log[0].Put? then [Got(c.log[0].reply)]
    else if Shut in c.log then [ClosedWhileWaiting]
    else []
  }

  predicate Enabled(st: State, a: Action) {
    match a
    case Enter => !st.closed
    case CloseHook => true
    case Register(c) => InPhase(st, c, Numbered) && LockIsFree(st)
    case Written(c) => InPhase(st, c, Sending) && !st.exit.Done?
    case Fail(c) => InPhase(st, c, Sending) || InPhase(st, c, Waiting)
    case Receive(c) => InPhase(st, c, Waiting) && Available(st.calls[c].channel) != []
    case Remove(c) => InPhase(st, c, Dropping) && LockIsFree(st)
    case ReadLine(id, _) => st.reader.Scanning? && id > 0 && LockIsFree(st)
    case Deliver => st.reader.Delivering? && st.reader.call < |st.calls|
    case CloseDelivered => st.reader.Closing? && st.reader.call < |st.calls|
    case ProcessExits(_) => st.exit.Alive?
    case LockToFail => st.exit.Exited?
    case FailOne(c) => st.exit.Failing? && IdOf(c) in st.pending
    case PutExit => st.exit.FailPut? && st.exit.call < |st.calls|
    case ShutExit => st.exit.FailShut? && st.exit.call < |st.calls|
    case FinishFailing => st.exit.Failing? && st.pending == {}
  }

  function Moved(st: State, c: nat, phase: Phase): State
    requires c < |st.calls|
  {
    st.(calls := st.calls[c := st.calls[c].(phase := phase)])
  }

  /** One more operation on the channel of a call, whatever was done to it before. */
  function WithOp(st: State, c: nat, op: Op): State
    requires c < |st.calls|
  {
    var call := st.calls[c];
    st.(calls := st.calls[c := call.(channel := call.channel.(log := call.channel.log + [op]))])
  }

  function Received(st: State, c: nat): State
    requires c < |st.calls| && Available(st.calls[c].channel) != []
  {
    var call := st.calls[c];
    st.(calls := st.calls[c := call.(phase := Left(Available(call.channel)[0]), channel := call.channel.(taken := true))])
  }

  function Removed(st: State, c: nat): State
    requires c < |st.calls|
  {
    var left := Moved(st, c, Left(GaveUp));
    if IdOf(c) in st.pending then WithOp(left, c, Shut).(pending := st.pending - {IdOf(c)}) else left
  }

  function Apply(st: State, a: Action): State
    requires Enabled(st, a)
  {
    match a
    case Enter => st.(calls := st.calls + [Call(Numbered, Channel([], false))])
    case CloseHook => st.(closed := true)
    case Register(c) => Moved(st, c, Sending).(pending := st.pending + {IdOf(c)})
    case Written(c) => Moved(st, c, Waiting)
    case Fail(c) => Moved(st, c, Dropping)
    case Receive(c) => Received(st, c)
    case Remove(c) => Removed(st, c)
    case ReadLine(id, body) =>
      if id in st.pending then st.(pending := st.pending - {id}, reader := Delivering(id - 1, Response(id, body))) else st
    case Deliver => WithOp(st, st.reader.call, Put(st.reader.reply)).(reader := Closing(st.reader.call))
    case CloseDelivered => WithOp(st, st.reader.call, Shut).(reader := Scanning)
    case ProcessExits(reason) => st.(exit := Exited(reason))
    case LockToFail => st.(exit := Failing(st.exit.reason))
    case FailOne(c) => st.(pending := st.pending - {IdOf(c)}, exit := FailPut(c, st.exit.reason))
    case PutExit => WithOp(st, st.exit.call, Put(ExitError(st.exit.reason))).(exit := FailShut(st.exit.call, st.exit.reason))
    case ShutExit => WithOp(st, st.exit.call, Shut).(exit := Failing(st.exit.reason))
    case FinishFailing => st.(exit := Done)
  }

  predicate Leads(st: State, actions: seq<Action>, end: State)
    decreases |actions|
  {
    if actions == [] then end == st
    else Enabled(st, actions[0]) && Leads(Apply(st, actions[0]), actions[1..], end)
  }

  ghost predicate Reachable(st: State) {
    exists actions :: Leads(START, actions, st)
  }

  // ---------------------------------------------------------------- what every step keeps

  predicate IsPending(st: State, c: nat) {
    IdOf(c) in st.pending
  }

  predicate WithReader(st: State, c: nat) {
    !st.reader.Scanning? && st.reader.call == c
  }

  predicate WithExit(st: State, c: nat) {
    (st.exit.FailPut? || st.exit.FailShut?) && st.exit.call == c
  }

  /** A reply the caller may see: the answer to its own request, or the exit of the process. */
  predicate IsOwn(c: nat, r: Reply) {
    r.ExitError? || r.id == IdOf(c)
  }

  /** One reply and then the end, or, for a call that gave up before, the end alone. */
  predicate Settled(c: nat, call: Call) {
    || (|call.channel.log| == 2
        && call.channel.log[0].Put? && IsOwn(c, call.channel.log[0].reply) && call.channel.log[1].Shut?)
    || (call.channel.log == [Shut] && call.phase == Left(GaveUp))
  }

  /** One reply, its end still to come. */
  predicate Answered(c: nat, call: Call) {
    |call.channel.log| == 1 && call.channel.log[0].Put? && IsOwn(c, call.channel.log[0].reply)
  }

  /** The table, the reader or the exit holds a call's channel, never two of them; the log is what the holder expects. */
  predicate InOrder(st: State, c: nat, call: Call) {
    if call.phase.Numbered? then !IsPending(st, c) && !WithReader(st, c) && !WithExit(st, c) && call.channel.log == []
    else if IsPending(st, c) then !WithReader(st, c) && !WithExit(st, c) && call.channel.log == []
    else if WithReader(st, c) then
      && !WithExit(st, c)
      && if st.reader.Delivering? then call.channel.log == [] && IsOwn(c, st.reader.reply) else Answered(c, call)
    else if WithExit(st, c) then
      if st.exit.FailPut? then call.channel.log == [] else Answered(c, call)
    else Settled(c, call)
  }

  /** A reply is taken once, by a caller that leaves with it; nobody who is still waiting finds a closed channel. */
  predicate CallerIsServed(c: nat, call: Call) {
    && (call.channel.taken ==> call.phase.Left? && call.phase.outcome.Got? && IsOwn(c, call.phase.outcome.reply))
    && (call.phase.Left? ==> !call.phase.outcome.ClosedWhileWaiting?)
    && (call.phase.Left? && call.phase.outcome.Got? ==> call.channel.taken)
  }

  /** Only known calls are pending or dealt with; once failing is done, no call that waits is pending. */
  predicate TableIsKnown(st: State) {
    && (forall id | id in st.pending :: 0 < id <= |st.calls|)
    && (!st.reader.Scanning? ==> st.reader.call < |st.calls|)
    && (st.exit.FailPut? || st.exit.FailShut? ==> st.exit.call < |st.calls|)
    && (st.exit.Done? ==> forall c | 0 <= c < |st.calls| && st.calls[c].phase.Waiting? :: IdOf(c) !in st.pending)
  }

  predicate CallIsFine(st: State, c: nat) {
    c < |st.calls| ==> InOrder(st, c, st.calls[c]) && CallerIsServed(c, st.calls[c])
  }

  predicate Inv(st: State) {
    TableIsKnown(st) && forall c: nat | c < |st.calls| :: CallIsFine(st, c)
  }

  predicate ByCaller(a: Action) {
    a.Enter? || a.CloseHook? || a.Register? || a.Written? || a.Fail? || a.Receive? || a.Remove?
  }

  predicate ByReader(a: Action) {
    a.ReadLine? || a.Deliver? || a.CloseDelivered?
  }

  lemma TableStaysKnown(st: State, a: Action)
    requires Inv(st) && Enabled(st, a)
    ensures TableIsKnown(Apply(st, a))
  {
    if ByCaller(a) {
    } else if ByReader(a) {
    } else {
    }
  }

  lemma ReceivingKeeps(st: State, a: Action, c: nat)
    requires TableIsKnown(st) && CallIsFine(st, c) && Enabled(st, a) && a.Receive?
    ensures CallIsFine(Apply(st, a), c)
  {
  }

  lemma RemovingKeeps(st: State, a: Action, c: nat)
    requires TableIsKnown(st) && CallIsFine(st, c) && Enabled(st, a) && a.Remove?
    ensures CallIsFine(Apply(st, a), c)
  {
  }

  lemma CallersKeep(st: State, a: Action, c: nat)
    requires TableIsKnown(st) && CallIsFine(st, c) && Enabled(st, a) && ByCaller(a)
    ensures CallIsFine(Apply(st, a), c)
  {
    if a.Receive? {
      ReceivingKeeps(st, a, c);
    } else if a.Remove? {
      RemovingKeeps(st, a, c);
    } else if a.Enter? {
    } else {
    }
  }

  lemma ReaderKeeps(st: State, a: Action, c: nat)
    requires TableIsKnown(st) && CallIsFine(st, c) && Enabled(st, a) && ByReader(a)
    ensures CallIsFine(Apply(st, a), c)
  {
  }

  lemma ExitKeeps(st: State, a: Action, c: nat)
    requires TableIsKnown(st) && CallIsFine(st, c) && Enabled(st, a) && !ByCaller(a) && !ByReader(a)
    ensures CallIsFine(Apply(st, a), c)
  {
  }

  lemma InvIsKept(st: State, a: Action)
    requires Inv(st) && Enabled(st, a)
    ensures Inv(Apply(st, a))
  {
    TableStaysKnown(st, a);
    forall c: nat | c < |Apply(st, a).calls| ensures CallIsFine(Apply(st, a), c) {
      assert c < |st.calls| ==> CallIsFine(st, c);
      if ByCaller(a) {
        CallersKeep(st, a, c);
      } else if ByReader(a) {
        ReaderKeeps(st, a, c);
      } else {
        ExitKeeps(st, a, c);
      }
    }
  }

  lemma {:induction false} InvOnRuns(st: State, actions: seq<Action>, end: State)
    requires Inv(st) && Leads(st, actions, end)
    ensures Inv(end)
    decreases |actions|
  {
    if actions != [] {
      InvIsKept(st, actions[0]);
      InvOnRuns(Apply(st, actions[0]), actions[1..], end);
    }
  }

  lemma ReachableKeepsInv(st: State)
    requires Reachable(st)
    ensures Inv(st)
  {
    var actions :| Leads(START, actions, st);
    InvOnRuns(START, actions, st);
  }

  // ---------------------------------------------------------------- every run

  /** Sent on at most once, closed at most once, and never sent on once closed. */
  predicate UsedOnce(log: seq<Op>) {
    forall i, j | 0 <= i < j < |log| :: log[i].Put? && log[j].Shut?
  }

  lemma ChannelsAreUsedOnce(st: State, c: nat)
    requires Reachable(st) && c < |st.calls|
    ensures UsedOnce(st.calls[c].channel.log)
  {
    ReachableKeepsInv(st);
    assert CallIsFine(st, c);
  }

  /** A send finds a channel nothing was done to, so it never blocks; a close finds one that is not closed. */
  lemma NoSendBlocksAndNoCloseFails(st: State, a: Action)
    requires Reachable(st) && Enabled(st, a)
    ensures a.Deliver? ==> st.calls[st.reader.call].channel.log == []
    ensures a.PutExit? ==> st.calls[st.exit.call].channel.log == []
    ensures a.CloseDelivered? ==> Shut !in st.calls[st.reader.call].channel.log
    ensures a.ShutExit? ==> Shut !in st.calls[st.exit.call].channel.log
    ensures a.Remove? && IsPending(st, a.call) ==> st.calls[a.call].channel.log == []
  {
    ReachableKeepsInv(st);
    if a.Deliver? || a.CloseDelivered? {
      assert CallIsFine(st, st.reader.call);
    } else if a.PutExit? || a.ShutExit? {
      assert CallIsFine(st, st.exit.call);
    } else if a.Remove? {
      assert CallIsFine(st, a.call);
    }
  }

  /** A caller that leaves with a reply leaves with its own; none ever finds its channel closed while it waits. */
  lemma CallersLeaveWithTheirOwn(st: State, c: nat)
    requires Reachable(st) && c < |st.calls| && st.calls[c].phase.Left?
    ensures var outcome := st.calls[c].phase.outcome;
      outcome == GaveUp || (outcome.Got? && IsOwn(c, outcome.reply))
  {
    ReachableKeepsInv(st);
    assert CallIsFine(st, c);
  }

  /**
   * A caller that still waits either can take a reply of its own, or is in the table until the exit is dealt with, or
   * the reader or the exit is about to send it one. So once the exit is dealt with and the reader is between lines,
   * every caller that still waits has its reply.
   */
  lemma NoCallerIsStranded(st: State, c: nat)
    requires Reachable(st) && InPhase(st, c, Waiting)
    ensures var out := Available(st.calls[c].channel);
      || (|out| == 1 && out[0].Got? && IsOwn(c, out[0].reply))
      || (out == [] && IsPending(st, c) && !st.exit.Done?)
      || (out == [] && WithReader(st, c) && st.reader.Delivering?)
      || (out == [] && WithExit(st, c) && st.exit.FailPut?)
    ensures st.exit.Done? && st.reader.Scanning? ==>
      var out := Available(st.calls[c].channel);
      |out| == 1 && out[0].Got? && IsOwn(c, out[0].reply)
  {
    ReachableKeepsInv(st);
    assert CallIsFine(st, c);
  }

  // ---------------------------------------------------------------- the exit comes to its end

  /** A step of the exit while it holds the lock, or the one that gives it back. */
  predicate ByExit(a: Action) {
    a.FailOne? || a.PutExit? || a.ShutExit? || a.FinishFailing?
  }

  function ExitSteps(actions: seq<Action>): nat {
    if actions == [] then 0 else (if ByExit(actions[0]) then 1 else 0) + ExitSteps(actions[1..])
  }

  predicate HasLocked(st: State) {
    !st.exit.Alive? && !st.exit.Exited?
  }

  /** How many steps the exit still has to take: three for each pending call, and one to finish. */
  function StepsLeft(st: State): nat {
    match st.exit
    case FailPut(_, _) => 3 * |st.pending| + 3
    case FailShut(_, _) => 3 * |st.pending| + 2
    case Failing(_) => 3 * |st.pending| + 1
    case _ => 0
  }

  lemma EveryExitStepCounts(st: State, a: Action)
    requires HasLocked(st) && Enabled(st, a)
    ensures HasLocked(Apply(st, a)) && StepsLeft(st) == StepsLeft(Apply(st, a)) + if ByExit(a) then 1 else 0
  {
  }

  lemma SomeExitStepIsNext(st: State)
    requires Inv(st) && HasLocked(st) && !st.exit.Done?
    ensures exists a :: ByExit(a) && Enabled(st, a)
  {
    if st.exit.FailPut? {
      assert Enabled(st, PutExit);
    } else if st.exit.FailShut? {
      assert Enabled(st, ShutExit);
    } else if st.pending == {} {
      assert Enabled(st, FinishFailing);
    } else {
      var id :| id in st.pending;
      assert ByExit(FailOne(id - 1)) && Enabled(st, FailOne(id - 1));
    }
  }

  /** The exit is going to send its error to the call, or has sent it. */
  predicate IsAnsweredByExit(st: State, c: nat, reason: string) {
    && c < |st.calls|
    && (|| (st.exit.Failing? && st.exit.reason == reason && IsPending(st, c))
        || (st.exit.FailPut? && st.exit.reason == reason && (IsPending(st, c) || st.exit.call == c))
        || (st.exit.FailShut? && st.exit.reason == reason && IsPending(st, c))
        || (st.calls[c].channel.log != [] && st.calls[c].channel.log[0] == Put(ExitError(reason))))
  }

  lemma StaysAnsweredByExit(st: State, a: Action, c: nat, reason: string)
    requires Inv(st) && Enabled(st, a) && IsAnsweredByExit(st, c, reason)
    ensures IsAnsweredByExit(Apply(st, a), c, reason)
  {
    assert CallIsFine(st, c);
    if ByCaller(a) {
    } else if ByReader(a) {
    } else {
    }
  }

  lemma {:induction false} RunOfExit(st: State, actions: seq<Action>, end: State, c: nat, reason: string)
    requires Inv(st) && HasLocked(st) && Leads(st, actions, end)
    ensures Inv(end) && HasLocked(end) && StepsLeft(st) == StepsLeft(end) + ExitSteps(actions)
    ensures IsAnsweredByExit(st, c, reason) ==> IsAnsweredByExit(end, c, reason)
    decreases |actions|
  {
    if actions != [] {
      InvIsKept(st, actions[0]);
      EveryExitStepCounts(st, actions[0]);
      if IsAnsweredByExit(st, c, reason) {
        StaysAnsweredByExit(st, actions[0], c, reason);
      }
      RunOfExit(Apply(st, actions[0]), actions[1..], end, c, reason);
    }
  }

  /**
   * Whatever the callers and the reader do meanwhile, and in whatever order the pending calls are picked: once the exit
   * holds the lock it takes exactly the steps that are left, it can always take the next, and it is done after the
   * last.
   */
  lemma ExitComesToItsEnd(st: State, actions: seq<Action>, end: State)
    requires Reachable(st) && HasLocked(st) && Leads(st, actions, end)
    ensures StepsLeft(st) == StepsLeft(end) + ExitSteps(actions)
    ensures end.exit.Done? <==> ExitSteps(actions) == StepsLeft(st)
    ensures !end.exit.Done? ==> exists a :: ByExit(a) && Enabled(end, a)
  {
    ReachableKeepsInv(st);
    RunOfExit(st, actions, end, 0, "");
    if !end.exit.Done? {
      SomeExitStepIsNext(end);
    }
  }

  /** And then every caller that was pending when the exit took the lock, and still waits, has the exit's error. */
  lemma ExitAnswersWhoeverIsPending(st: State, c: nat, actions: seq<Action>, end: State)
    requires Reachable(st) && IsPending(st, c) && st.exit.Failing?
    requires Leads(st, actions, end) && end.exit.Done? && InPhase(end, c, Waiting)
    ensures Available(end.calls[c].channel) == [Got(ExitError(st.exit.reason))]
  {
    ReachableKeepsInv(st);
    RunOfExit(st, actions, end, c, st.exit.reason);
    assert CallIsFine(end, c);
  }
}
