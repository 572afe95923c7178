/** The mailboxes that give each routed session one owner, and what the dispatcher and the workers do to them. */
module Mailbox {
  import opened Options

  /** An inbound message; whether its channel answers each message on its own; whether it is control traffic (/stop). */
  datatype Inbound = Inbound(id: nat, independent: bool, control: bool)

  /** A mailbox, known by the number of its creation, and the messages waiting in it. */
  datatype Box = Box(owner: nat, independent: seq<Inbound>)

  type Table = map<string, Box>

  datatype Position = Position(table: Table, owner: nat, claimed: bool, queued: bool, ahead: nat)

  /** A message for a session: it opens a mailbox, waits in one, or is handled beside it. */
  function ClaimPosition(table: Table, active: bool, next: nat, session: string, msg: Inbound): Position {
    if session !in table then Position(table[session := Box(next, [])], next, true, false, 0)
    else
      var box := table[session];
      if msg.control then Position(table, box.owner, false, false, 0)
      else if !msg.independent && !active then Position(table[session := Box(next, [])], next, true, false, 0)
      else if !msg.independent then Position(table, box.owner, false, false, 0)
      else
        var waiting := box.independent + [msg];
        Position(table[session := box.(independent := waiting)], box.owner, false, true, |waiting|)
  }

  predicate Owns(table: Table, session: string, owner: nat) {
    session in table && table[session].owner == owner
  }

  /** The oldest waiting message, for the owner of the mailbox only; an owner that finds none gives the mailbox up. */
  function TakeNext(table: Table, session: string, owner: nat): (Table, Option<Inbound>) {
    if !Owns(table, session, owner) then (table, None)
    else if table[session].independent == [] then (table - {session}, None)
    else
      var box := table[session];
      (table[session := box.(independent := box.independent[1..])], Some(box.independent[0]))
  }

  function Release(table: Table, session: string, owner: nat): Table {
    if Owns(table, session, owner) then table - {session} else table
  }

  datatype TurnState = Pending | Running

  class SessionMailbox {
    var independent: seq<Inbound>
    ghost const number: nat

    constructor (ghost number: nat)
      ensures independent == [] && this.number == number
    {
      independent := [];
      this.number := number;
    }
  }

  class AgentLoop {
    var sessionMailboxes: map<string, SessionMailbox>
    var activeTurnStates: map<string, TurnState>
    /** Every mailbox ever made, in order. */
    ghost var made: seq<SessionMailbox>

    constructor ()
      ensures Valid() && View() == map[] && made == []
    {
      sessionMailboxes, activeTurnStates, made := map[], map[], [];
    }

    ghost predicate Made(box: SessionMailbox)
      reads this
    {
      box.number < |made| && made[box.number] == box
    }

    ghost predicate Valid()
      reads this
    {
      && (forall i | 0 <= i < |made| :: made[i].number == i)
      && (forall s | s in sessionMailboxes :: Made(sessionMailboxes[s]))
      && (forall s, t | s in sessionMailboxes && t in sessionMailboxes && s != t ::
            sessionMailboxes[s] != sessionMailboxes[t])
    }

    /** The mailboxes as values. */
    ghost function View(): Table
      reads this, sessionMailboxes.Values
    {
      map s | s in sessionMailboxes :: Box(sessionMailboxes[s].number, sessionMailboxes[s].independent)
    }

    /** A mailbox is told by its number. */
    lemma OwnsMine(sessionKey: string, owner: SessionMailbox)
      requires Valid() && Made(owner)
      ensures Owns(View(), sessionKey, owner.number) <==>
        sessionKey in sessionMailboxes && sessionMailboxes[sessionKey] == owner
    {
      assert sessionKey in sessionMailboxes ==> Made(sessionMailboxes[sessionKey]);
    }

    method NewMailbox(sessionKey: string) returns (mailbox: SessionMailbox)
      requires Valid()
      modifies this`sessionMailboxes, this`made
      ensures Valid() && fresh(mailbox) && Made(mailbox)
      ensures mailbox.number == |old(made)| && made == old(made) + [mailbox]
      ensures View() == old(View())[sessionKey := Box(mailbox.number, [])]
    {
      mailbox := new SessionMailbox(|made|);
      made := made + [mailbox];
      sessionMailboxes := sessionMailboxes[sessionKey := mailbox];
    }

    method ClaimSessionMailboxPosition(sessionKey: string, msg: Inbound)
      returns (owner: SessionMailbox, claimed: bool, queued: bool, ahead: nat)
      requires Valid()
      modifies this`sessionMailboxes, this`made, sessionMailboxes.Values
      ensures Valid() && Made(owner)
      ensures Position(View(), owner.number, claimed, queued, ahead) ==
        ClaimPosition(old(View()), sessionKey in activeTurnStates, |old(made)|, sessionKey, msg)
      ensures made == if claimed then old(made) + [owner] else old(made)
    {
      if sessionKey !in sessionMailboxes {
        owner := NewMailbox(sessionKey);
        return owner, true, false, 0;
      }
      var mailbox := sessionMailboxes[sessionKey];
      if msg.control {
        return mailbox, false, false, 0;
      }
      if !msg.independent {
        if sessionKey !in activeTurnStates {
          owner := NewMailbox(sessionKey);
          return owner, true, false, 0;
        }
        return mailbox, false, false, 0;
      }
      mailbox.independent := mailbox.independent + [msg];
      return mailbox, false, true, |mailbox.independent|;
    }

    method TakeNextSessionMessage(sessionKey: string, owner: SessionMailbox) returns (next: Option<Inbound>)
      requires Valid() && Made(owner)
      modifies this`sessionMailboxes, owner`independent
      ensures Valid() && Made(owner)
      ensures View() == TakeNext(old(View()), sessionKey, owner.number).0
      ensures next == TakeNext(old(View()), sessionKey, owner.number).1
    {
      OwnsMine(sessionKey, owner);
      if sessionKey !in sessionMailboxes || sessionMailboxes[sessionKey] != owner {
        return None;
      }
      var mailbox := sessionMailboxes[sessionKey];
      if |mailbox.independent| == 0 {
        sessionMailboxes := sessionMailboxes - {sessionKey};
        return None;
      }
      next := Some(mailbox.independent[0]);
      mailbox.independent := mailbox.independent[1..];
    }

    method ReleaseSessionMailbox(sessionKey: string, owner: SessionMailbox)
      requires Valid() && Made(owner)
      modifies this`sessionMailboxes
      ensures Valid() && Made(owner)
      ensures View() == Release(old(View()), sessionKey, owner.number)
    {
      OwnsMine(sessionKey, owner);
      if sessionKey in sessionMailboxes && sessionMailboxes[sessionKey] == owner {
        sessionMailboxes := sessionMailboxes - {sessionKey};
      }
    }
  }
}
