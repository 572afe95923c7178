/**
 * The table of pending hook calls, as the objects that hold it. Each method is taken without interruption; HookCalls
 * has the finer steps, where a reply is sent after the lock of the table is given back.
 */
module HookTable {
  import opened HookCalls

  class ReplyChannel {
    var log: seq<Op>

    constructor ()
      ensures log == []
    {
      log := [];
    }
  }

  ghost predicate Apart(m: map<nat, ReplyChannel>) {
    forall i, j | i in m && j in m && i != j :: m[i] != m[j]
  }

  /** What is done once a channel is settled: told msg, unless its call is still in the table. */
  ghost predicate Told(all: map<nat, ReplyChannel>, left: set<nat>, msg: Reply)
    reads all.Values
  {
    forall id | id in all && id !in left :: all[id].log == [Put(msg), Shut]
  }

  class ProcessHook {
    var pending: map<nat, ReplyChannel>
    var nextID: nat

    constructor ()
      ensures pending == map[] && nextID == 0 && Valid()
    {
      pending, nextID := map[], 0;
    }

    /** No two calls share a channel, and nothing was sent to a pending call. */
    ghost predicate Valid()
      reads this, pending.Values
    {
      && (forall id | id in pending :: 0 < id <= nextID && pending[id].log == [])
      && Apart(pending)
    }

    method Register() returns (id: nat, respCh: ReplyChannel)
      requires Valid()
      modifies this
      ensures Valid() && fresh(respCh) && respCh.log == []
      ensures id == old(nextID) + 1 == nextID && pending == old(pending)[id := respCh]
    {
      nextID := nextID + 1;
      id := nextID;
      respCh := new ReplyChannel();
      pending := pending[id := respCh];
    }

    /** The answer goes to the call it names, if that is still pending, and to no other. */
    method Answer(msg: Reply)
      requires Valid() && msg.Response?
      modifies this, pending.Values
      ensures Valid() && nextID == old(nextID) && pending == old(pending) - {msg.id}
      ensures forall id | id in old(pending) :: old(pending)[id].log == if id == msg.id then [Put(msg), Shut] else []
    {
      if msg.id in pending {
        var respCh := pending[msg.id];
        pending := pending - {msg.id};
        respCh.log := respCh.log + [Put(msg)];
        respCh.log := respCh.log + [Shut];
      }
    }

    method FailOne(id: nat, msg: Reply)
      requires Valid() && id in pending
      modifies this`pending, pending[id]
      ensures Valid() && nextID == old(nextID) && pending == old(pending) - {id}
      ensures old(pending)[id].log == [Put(msg), Shut]
    {
      var ch := pending[id];
      pending := pending - {id};
      ch.log := ch.log + [Put(msg)];
      ch.log := ch.log + [Shut];
    }

    /** Every pending call is told that the process is gone. */
    method FailPending(reason: string)
      requires Valid()
      modifies this`pending, pending.Values
      ensures Valid() && pending == map[]
      ensures forall id | id in old(pending) :: old(pending)[id].log == [Put(ExitError(reason)), Shut]
    {
      ghost var all := pending;
      assert Apart(all);
      var msg := ExitError(reason);
      while pending != map[]
        invariant Valid() && nextID == old(nextID)
        invariant pending.Keys <= all.Keys && forall id | id in pending :: pending[id] == all[id]
        invariant Told(all, pending.Keys, msg)
        decreases |pending.Keys|
      {
        HasKey(pending);
        var id :| id in pending;
        FailOne(id, msg);
      }
    }

    method RemovePending(id: nat)
      requires Valid()
      modifies this`pending, pending.Values
      ensures Valid() && pending == old(pending) - {id}
      ensures forall i | i in old(pending) :: old(pending)[i].log == if i == id then [Shut] else []
    {
      if id in pending {
        var ch := pending[id];
        pending := pending - {id};
        ch.log := ch.log + [Shut];
      }
    }
  }

  lemma HasKey(m: map<nat, ReplyChannel>)
    ensures m == map[] || exists id :: id in m
  {
    if forall id :: id !in m {
      assert m == map[];
    }
  }
}
