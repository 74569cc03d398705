/** The whole proxy: any number of connections, the dispatcher's work list and worker, and
    the upstream agents, in any interleaving.

    An event that the system cannot produce in the current state changes nothing, so what
    every event keeps, every run keeps. The theorems about runs are in module Runs. */
module Bridge {
  import opened Wrappers
  import opened Bytes
  import opened Frames
  import opened Handshake
  import opened Connection
  import Agent
  import WorkQueue

  /** The `index`-th message of a connection. The dispatcher holds a pointer to the
      connection's message, so a ticket reads the message as it is when it is used. */
  datatype Ticket = Ticket(conn: nat, index: nat)

  datatype System = System(
    setup: Agent.Setup,
    conns: map<nat, Conn>,
    contextList: seq<nat>,  // the connection manager's list, newest first
    ledger: WorkQueue.Ledger<Ticket>)

  datatype Event =
    | Connect(id: nat, listener: Listener, ok: bool)
    | Complete(id: nat, moved: seq<uint8>, ok: bool)
    | Lose(id: nat)                                       // a failed completion
    | StartWorker
    | WorkerTurn
    | WorkerReply(outcomes: seq<Agent.Outcome>, ok: bool) // process the request and answer
    | Stop
    | Drain

  function NoConnections(setup: Agent.Setup): System {
    System(setup, map[], [], WorkQueue.Open())
  }

  /** Erases a context from the list; its iterator points at its one occurrence. */
  function Erase(list: seq<nat>, id: nat): seq<nat> {
    if list == [] then [] else if list[0] == id then list[1..] else [list[0]] + Erase(list[1..], id)
  }

  /** A connection takes a step; the one that ends it removes it from the list. */
  function Update(s: System, id: nat, c: Conn): System
    requires id in s.conns
  {
    var list :=
      if c.state == Destroyed && s.conns[id].state != Destroyed then Erase(s.contextList, id) else s.contextList;
    s.(conns := s.conns[id := c], contextList := list)
  }

  /** A connection hands its message to the dispatcher, which may refuse it. */
  function PostMessage(s: System, id: nat): System
    requires id in s.conns && s.conns[id].delivered != []
  {
    var c := s.conns[id];
    var s' := s.(ledger := WorkQueue.Record(s.ledger, WorkQueue.Posted(Ticket(id, |c.delivered| - 1))));
    if s.ledger.queue.cancelled then Update(s', id, Dispose(c)) else s'
  }

  function OnComplete(s: System, id: nat, moved: seq<uint8>, ok: bool): System
    requires id in s.conns && s.conns[id].exchange <= |Script(s.conns[id].listener)|
  {
    var c := s.conns[id];
    var c' := DoIoCompletion(c, moved, ok);
    var s' := Update(s, id, c');
    if Emits(c, c') && c'.delivered != [] then PostMessage(s', id) else s'
  }

  /** The worker processes the message its ticket points at, in place, and calls the reply
      callback. */
  function OnReply(s: System, t: Ticket, outcomes: seq<Agent.Outcome>, ok: bool): System
    requires t.conn in s.conns && s.conns[t.conn].exchange <= |Script(s.conns[t.conn].listener)|
    requires |outcomes| == |s.setup.names|
  {
    var c := s.conns[t.conn];
    var c' :=
      match Agent.Reply(s.setup, c.message, outcomes)
      case Some(reply) => DoIoCompletion(c.(message := reply), [], ok)
      case None => Dispose(c);
    Update(s.(ledger := WorkQueue.Record(s.ledger, WorkQueue.Answered)), t.conn, c')
  }

  ghost function Next(s: System, e: Event): System {
    match e
    case Connect(id, listener, ok) =>
      if id in s.conns then s
      else
        var fresh' := Accept(listener);
        OnComplete(s.(conns := s.conns[id := fresh'], contextList := [id] + s.contextList), id, [], ok)
    case Complete(id, moved, ok) =>
      if id in s.conns && s.conns[id].exchange <= |Script(s.conns[id].listener)|
         && (Possible(s.conns[id], moved) || s.conns[id].state == Destroyed)
      then OnComplete(s, id, moved, ok) else s
    case Lose(id) => if id in s.conns then Update(s, id, Dispose(s.conns[id])) else s
    case StartWorker => s.(ledger := WorkQueue.Record(s.ledger, WorkQueue.Started))
    case WorkerTurn => s.(ledger := WorkQueue.Record(s.ledger, WorkQueue.Turned))
    case WorkerReply(outcomes, ok) =>
      var w := s.ledger.queue.worker;
      if w.Processing? && w.item.conn in s.conns && Agent.Plausible(s.setup, outcomes)
         && s.conns[w.item.conn].exchange <= |Script(s.conns[w.item.conn].listener)|
      then OnReply(s, w.item, outcomes, ok) else s
    case Stop => s.(ledger := WorkQueue.Record(s.ledger, WorkQueue.Cancelled))
    case Drain =>
      var list := s.ledger.queue.list;
      if WorkQueue.Stopped(s.ledger.queue) && list != [] && list[|list| - 1].conn in s.conns then
        var id := list[|list| - 1].conn;
        Update(s.(ledger := WorkQueue.Record(s.ledger, WorkQueue.Drained)), id, Dispose(s.conns[id]))
      else s
  }

  // ---------------------------------------------------------------- the invariant

  /** A waiting connection still holds the message it delivered last. */
  ghost predicate HoldsRequest(c: Conn) {
    c.state == WaitReply ==> c.delivered != [] && c.message == c.delivered[|c.delivered| - 1]
  }

  ghost predicate ConnInv(c: Conn) {
    Inv(c) && HoldsRequest(c)
  }

  ghost predicate ConnsInv(s: System) {
    forall id :: id in s.conns ==> ConnInv(s.conns[id])
  }

  /** Every delivered message was posted once, and nothing else was. */
  ghost predicate PostedOnce(s: System, t: Ticket) {
    s.ledger.posted[t] == if t.conn in s.conns && t.index < |s.conns[t.conn].delivered| then 1 else 0
  }

  ghost predicate PostedInv(s: System) {
    forall t: Ticket :: PostedOnce(s, t)
  }

  /** A ticket not yet answered is for the last message of its connection, which waits for
      the reply, unless it is gone; and a waiting connection's ticket is not lost. */
  ghost predicate TicketInv(s: System, t: Ticket) {
    && (t in WorkQueue.Unanswered(s.ledger.queue) ==>
          && t.conn in s.conns
          && t.index + 1 == |s.conns[t.conn].delivered|
          && (s.conns[t.conn].state == WaitReply || s.conns[t.conn].state == Destroyed))
    && (t.conn in s.conns && s.conns[t.conn].state == WaitReply && t.index + 1 == |s.conns[t.conn].delivered| ==>
          t in WorkQueue.Unanswered(s.ledger.queue))
  }

  ghost predicate TicketsInv(s: System) {
    forall t: Ticket :: TicketInv(s, t)
  }

  ghost predicate Distinct(list: seq<nat>) {
    forall i, j :: 0 <= i < j < |list| ==> list[i] != list[j]
  }

  /** The list holds each live connection once and nothing else. */
  ghost predicate ListInv(s: System) {
    && (forall id :: id in s.contextList <==> id in s.conns && s.conns[id].state != Destroyed)
    && Distinct(s.contextList)
  }

  ghost predicate SystemInv(s: System) {
    && ConnsInv(s) && WorkQueue.Balanced(s.ledger) && PostedInv(s) && TicketsInv(s) && ListInv(s)
  }

  // ---------------------------------------------------------------- the context list

  lemma {:induction false} EraseOne(list: seq<nat>, id: nat)
    requires Distinct(list)
    ensures Distinct(Erase(list, id))
    ensures forall x :: x in Erase(list, id) <==> x in list && x != id
  {
    if list != [] {
      var others := list[1..];
      assert list == [list[0]] + others;
      assert Distinct(others) && list[0] !in others;
      EraseOne(others, id);
    }
  }

  /** A connection that ends is on the list when it is removed, and only then. */
  lemma UpdateList(s: System, id: nat, c: Conn)
    requires ListInv(s) && id in s.conns
    requires s.conns[id].state == Destroyed ==> c.state == Destroyed
    ensures ListInv(Update(s, id, c))
    ensures c.state == Destroyed && s.conns[id].state != Destroyed ==> id in s.contextList
  {
    EraseOne(s.contextList, id);
  }

  // ---------------------------------------------------------------- tickets

  /** A step that delivers nothing and neither starts nor ends a wait, except by ending the
      connection. */
  ghost predicate Quiet(c: Conn, d: Conn) {
    && d.delivered == c.delivered
    && (d.state == WaitReply ==> c.state == WaitReply)
    && (c.state == WaitReply || c.state == Destroyed ==> d.state == WaitReply || d.state == Destroyed)
  }

  lemma QuietUpdate(s: System, id: nat, c: Conn)
    requires PostedInv(s) && TicketsInv(s) && id in s.conns && Quiet(s.conns[id], c)
    ensures PostedInv(Update(s, id, c)) && TicketsInv(Update(s, id, c))
  {
    hide Erase;
    var s' := Update(s, id, c);
    forall t: Ticket ensures TicketInv(s', t) && PostedOnce(s', t) {
      assert TicketInv(s, t) && PostedOnce(s, t);
    }
  }

  lemma SameTickets(s: System, d: System)
    requires PostedInv(s) && TicketsInv(s) && d.conns == s.conns && d.ledger.posted == s.ledger.posted
    requires WorkQueue.Unanswered(d.ledger.queue) == WorkQueue.Unanswered(s.ledger.queue)
    ensures PostedInv(d) && TicketsInv(d)
  {
    forall t: Ticket ensures TicketInv(d, t) && PostedOnce(d, t) {
      assert TicketInv(s, t) && PostedOnce(s, t);
    }
  }

  /** At most one message of a connection is waiting or being processed, at any time. */
  lemma OneOutstanding(s: System, t: Ticket, u: Ticket)
    requires SystemInv(s)
    requires t in WorkQueue.Unanswered(s.ledger.queue) && u in WorkQueue.Unanswered(s.ledger.queue)
    requires t.conn == u.conn
    ensures t == u && WorkQueue.Unanswered(s.ledger.queue)[t] == 1
  {
    hide WorkQueue.Unanswered, ConnsInv, ListInv;
    assert TicketInv(s, t) && TicketInv(s, u) && PostedOnce(s, t);
    assert s.ledger.posted[t] == s.ledger.answered[t] + WorkQueue.Unanswered(s.ledger.queue)[t];
  }

  /** Delivering a message and posting its ticket. */
  lemma DeliverTickets(s: System, id: nat, c: Conn)
    requires PostedInv(s) && TicketsInv(s) && id in s.conns
    requires s.conns[id].state == ReadBody && c.state == WaitReply
    requires |c.delivered| == |s.conns[id].delivered| + 1
    ensures var d := PostMessage(Update(s, id, c), id);
            PostedInv(d) && TicketsInv(d)
  {
    hide Erase, WorkQueue.Unanswered, PostedOnce, TicketInv;
    var mine := Ticket(id, |c.delivered| - 1);
    var d := PostMessage(Update(s, id, c), id);
    assert d.ledger.posted == s.ledger.posted + multiset{mine};
    WorkQueue.PostKeepsItems(s.ledger.queue, mine);
    assert d.ledger.queue == WorkQueue.Post(s.ledger.queue, mine);
    forall t: Ticket ensures TicketInv(d, t) && PostedOnce(d, t) {
      assert TicketInv(s, t) && PostedOnce(s, t);
      DeliverTicket(s, d, id, t);
    }
  }

  lemma DeliverTicket(s: System, d: System, id: nat, t: Ticket)
    requires PostedOnce(s, t) && TicketInv(s, t) && id in s.conns
    requires id in d.conns && d.conns == s.conns[id := d.conns[id]]
    requires var n := |d.conns[id].delivered| - 1;
             && n == |s.conns[id].delivered| && s.conns[id].state == ReadBody
             && d.ledger.posted == s.ledger.posted + multiset{Ticket(id, n)}
             && WorkQueue.Unanswered(d.ledger.queue) ==
                  WorkQueue.Unanswered(s.ledger.queue)
                  + (if s.ledger.queue.cancelled then multiset{} else multiset{Ticket(id, n)})
             && d.conns[id].state == if s.ledger.queue.cancelled then Destroyed else WaitReply
    ensures TicketInv(d, t) && PostedOnce(d, t)
  {
    hide WorkQueue.Unanswered;
  }

  /** Answering the ticket being processed. */
  lemma AnswerTickets(s: System, id: nat, c: Conn)
    requires PostedInv(s) && TicketsInv(s) && WorkQueue.Balanced(s.ledger)
    requires s.ledger.queue.worker.Processing? && s.ledger.queue.worker.item.conn == id && id in s.conns
    requires c.delivered == s.conns[id].delivered && c.state != WaitReply
    requires s.conns[id].state == Destroyed ==> c.state == Destroyed
    ensures var d := Update(s.(ledger := WorkQueue.Record(s.ledger, WorkQueue.Answered)), id, c);
            PostedInv(d) && TicketsInv(d)
  {
    hide Erase;
    var mine := s.ledger.queue.worker.item;
    var d := Update(s.(ledger := WorkQueue.Record(s.ledger, WorkQueue.Answered)), id, c);
    assert WorkQueue.Unanswered(s.ledger.queue) == WorkQueue.Unanswered(d.ledger.queue) + multiset{mine};
    RemoveTicket(s, d, mine, c);
  }

  /** Taking one outstanding ticket away, as its connection stops waiting. */
  lemma RemoveTicket(s: System, d: System, mine: Ticket, c: Conn)
    requires PostedInv(s) && TicketsInv(s) && WorkQueue.Balanced(s.ledger) && mine.conn in s.conns
    requires c.delivered == s.conns[mine.conn].delivered && c.state != WaitReply
    requires d.conns == s.conns[mine.conn := c] && d.ledger.posted == s.ledger.posted
    requires WorkQueue.Unanswered(s.ledger.queue) == WorkQueue.Unanswered(d.ledger.queue) + multiset{mine}
    ensures PostedInv(d) && TicketsInv(d)
  {
    hide Erase, WorkQueue.Unanswered;
    assert PostedOnce(s, mine) && TicketInv(s, mine);
    forall t: Ticket ensures TicketInv(d, t) && PostedOnce(d, t) {
      assert TicketInv(s, t) && PostedOnce(s, t);
    }
  }

  // ---------------------------------------------------------------- connections

  /** A step that is not a reply. */
  lemma CompleteConn(c: Conn, moved: seq<uint8>, ok: bool)
    requires ConnInv(c)
    requires Possible(c, moved) || c.state == Destroyed || (moved == [] && c.state == Handshaking && c.exchange == 0)
    ensures var d := DoIoCompletion(c, moved, ok);
            && ConnInv(d)
            && d.replies == c.replies
            && (Emits(c, d) ==> d.state == WaitReply && |d.delivered| == |c.delivered| + 1)
            && (!Emits(c, d) ==> Quiet(c, d))
            && (c.state == Destroyed ==> d.state == Destroyed)
  {
    hide DoIoCompletion, Settled, Safe, Script;
    var d := DoIoCompletion(c, moved, ok);
    StepEffect(c, moved, ok);
    assert c.state != WaitReply;
    if c.state != Destroyed {
      StepInv(c, moved, ok);
    }
  }

  lemma DisposeConn(c: Conn)
    requires ConnInv(c)
    ensures ConnInv(Dispose(c)) && Quiet(c, Dispose(c)) && Dispose(c).state == Destroyed
  {
    hide Inv;
    DisposeInv(c);
  }

  /** The worker writes a reply into the message a connection is waiting on. */
  lemma ReplyConn(c: Conn, reply: seq<uint8>, ok: bool)
    requires ConnInv(c) && (c.state == WaitReply || c.state == Destroyed)
    ensures var d := DoIoCompletion(c.(message := reply), [], ok);
            && ConnInv(d)
            && d.delivered == c.delivered && d.state != WaitReply
            && d.replies == c.replies + (if c.state == WaitReply then [reply] else [])
            && (c.state == Destroyed ==> d.state == Destroyed)
  {
    hide DoIoCompletion, Settled, Script, Agent.Reply;
    var c' := c.(message := reply);
    assert Inv(c') by {
      SameButMessage(c, c');
    }
    var d := DoIoCompletion(c', [], ok);
    StepEffect(c', [], ok);
    StepInv(c', [], ok);
  }

  lemma SameButMessage(c: Conn, d: Conn)
    requires Inv(c) && (c.state == WaitReply || c.state == Destroyed)
    requires d == c.(message := d.message)
    ensures Inv(d)
  {
    hide Decode, Stream, AllWithinLimit, HandshakeInput;
    if c.state == Destroyed {
      SafeIgnoresState(c, d);
    }
  }

  // ---------------------------------------------------------------- steps keep the invariant

  lemma UpdateInv(s: System, id: nat, c: Conn)
    requires SystemInv(s) && id in s.conns
    requires ConnInv(c) && Quiet(s.conns[id], c)
    requires s.conns[id].state == Destroyed ==> c.state == Destroyed
    ensures SystemInv(Update(s, id, c))
  {
    hide ConnInv, Quiet, PostedInv, TicketsInv, ListInv, WorkQueue.Balanced;
    QuietUpdate(s, id, c);
    UpdateList(s, id, c);
  }

  lemma CompleteInv(s: System, id: nat, moved: seq<uint8>, ok: bool)
    requires SystemInv(s) && id in s.conns
    requires var c := s.conns[id];
             Possible(c, moved) || c.state == Destroyed || (moved == [] && c.state == Handshaking && c.exchange == 0)
    requires s.conns[id].exchange <= |Script(s.conns[id].listener)|
    ensures SystemInv(OnComplete(s, id, moved, ok))
  {
    hide ConnInv, PostedInv, TicketsInv, ListInv, DoIoCompletion, Possible, Erase, Script;
    var c := s.conns[id];
    var c' := DoIoCompletion(c, moved, ok);
    assert ConnInv(c);
    CompleteConn(c, moved, ok);
    if Emits(c, c') {
      DeliverInv(s, id, c');
    } else {
      UpdateInv(s, id, c');
    }
  }

  lemma DeliverInv(s: System, id: nat, c: Conn)
    requires SystemInv(s) && id in s.conns && ConnInv(c)
    requires s.conns[id].state == ReadBody && c.state == WaitReply
    requires |c.delivered| == |s.conns[id].delivered| + 1
    ensures SystemInv(PostMessage(Update(s, id, c), id))
  {
    hide ConnInv, PostedInv, TicketsInv, ListInv, Erase;
    var s1 := Update(s, id, c);
    UpdateList(s, id, c);
    DeliverTickets(s, id, c);
    DisposeConn(c);
    var e := WorkQueue.Posted(Ticket(id, |c.delivered| - 1));
    WorkQueue.RecordBalanced(s.ledger, e);
    var s2 := s1.(ledger := WorkQueue.Record(s.ledger, e));
    assert ListInv(s2) by {
      SameList(s1, s2);
    }
    UpdateList(s2, id, Dispose(c));
  }

  lemma SameList(s: System, d: System)
    requires ListInv(s) && d.conns == s.conns && d.contextList == s.contextList
    ensures ListInv(d)
  {
  }

  /** Steps of the dispatcher that touch no connection. */
  lemma QueueInv(s: System, e: WorkQueue.Event<Ticket>)
    requires SystemInv(s) && (e.Started? || e.Turned? || e.Cancelled?)
    ensures SystemInv(s.(ledger := WorkQueue.Record(s.ledger, e)))
  {
    hide ConnInv, PostedInv, TicketsInv, ListInv, WorkQueue.Turn;
    WorkQueue.RecordBalanced(s.ledger, e);
    WorkQueue.TurnKeepsItems(s.ledger.queue);
    var d := s.(ledger := WorkQueue.Record(s.ledger, e));
    SameTickets(s, d);
    SameList(s, d);
  }

  lemma ReplyInv(s: System, outcomes: seq<Agent.Outcome>, ok: bool)
    requires SystemInv(s) && s.ledger.queue.worker.Processing? && Agent.Plausible(s.setup, outcomes)
    requires s.ledger.queue.worker.item.conn in s.conns
    requires var c := s.conns[s.ledger.queue.worker.item.conn]; c.exchange <= |Script(c.listener)|
    ensures SystemInv(OnReply(s, s.ledger.queue.worker.item, outcomes, ok))
  {
    hide ConnInv, ListInv, PostedOnce, DoIoCompletion, Erase, Script, Agent.Reply;
    var t := s.ledger.queue.worker.item;
    var c := s.conns[t.conn];
    assert TicketInv(s, t) && ConnInv(c);
    var s1 := s.(ledger := WorkQueue.Record(s.ledger, WorkQueue.Answered));
    WorkQueue.RecordBalanced(s.ledger, WorkQueue.Answered);
    SameList(s, s1);
    var d := match Agent.Reply(s.setup, c.message, outcomes)
             case Some(reply) => DoIoCompletion(c.(message := reply), [], ok)
             case None => Dispose(c);
    match Agent.Reply(s.setup, c.message, outcomes) {
      case Some(reply) =>
        ReplyConn(c, reply, ok);
      case None =>
        DisposeConn(c);
    }
    AnswerTickets(s, t.conn, d);
    UpdateList(s1, t.conn, d);
  }

  lemma DrainInv(s: System)
    requires SystemInv(s) && WorkQueue.Stopped(s.ledger.queue) && s.ledger.queue.list != []
    requires s.ledger.queue.list[|s.ledger.queue.list| - 1].conn in s.conns
    ensures SystemInv(Next(s, Drain))
  {
    hide ConnInv, ListInv, PostedOnce, TicketInv, Erase, WorkQueue.Balanced, WorkQueue.Unanswered;
    var list := s.ledger.queue.list;
    var t := list[|list| - 1];
    var c := s.conns[t.conn];
    assert ConnInv(c);
    var s1 := s.(ledger := WorkQueue.Record(s.ledger, WorkQueue.Drained));
    WorkQueue.RecordBalanced(s.ledger, WorkQueue.Drained);
    DrainUnanswered(s.ledger);
    SameList(s, s1);
    DisposeConn(c);
    UpdateList(s1, t.conn, Dispose(c));
    RemoveTicket(s, Update(s1, t.conn, Dispose(c)), t, Dispose(c));
  }

  lemma DrainUnanswered(l: WorkQueue.Ledger<Ticket>)
    requires WorkQueue.Stopped(l.queue) && l.queue.list != []
    ensures WorkQueue.Unanswered(l.queue) ==
      WorkQueue.Unanswered(WorkQueue.Record(l, WorkQueue.Drained).queue)
      + multiset{l.queue.list[|l.queue.list| - 1]}
  {
    WorkQueue.SplitLast(l.queue.list);
  }

  lemma ConnectInv(s: System, id: nat, listener: Listener, ok: bool)
    requires SystemInv(s) && id !in s.conns
    ensures SystemInv(Next(s, Connect(id, listener, ok)))
  {
    hide ConnInv, ListInv, DoIoCompletion, Erase, PostMessage;
    var c := Accept(listener);
    var d := s.(conns := s.conns[id := c], contextList := [id] + s.contextList);
    assert ConnInv(c) by {
      AcceptConn(listener);
    }
    forall t: Ticket ensures TicketInv(d, t) && PostedOnce(d, t) {
      assert TicketInv(s, t) && PostedOnce(s, t);
    }
    assert ListInv(d) by {
      AddToList(s, d, id);
    }
    CompleteInv(d, id, [], ok);
  }

  lemma AcceptConn(listener: Listener)
    ensures ConnInv(Accept(listener))
  {
    AcceptInv(listener);
  }

  lemma AddToList(s: System, d: System, id: nat)
    requires ListInv(s) && id !in s.conns && id in d.conns && d.conns[id].state != Destroyed
    requires d.conns == s.conns[id := d.conns[id]] && d.contextList == [id] + s.contextList
    ensures ListInv(d)
  {
  }

  lemma NextInv(s: System, e: Event)
    requires SystemInv(s)
    ensures SystemInv(Next(s, e))
  {
    hide ConnInv, ListInv, PostedOnce, TicketInv, WorkQueue.Balanced, DoIoCompletion, Erase, OnComplete, OnReply, Possible;
    match e
    case Connect(id, listener, ok) =>
      if id !in s.conns {
        ConnectInv(s, id, listener, ok);
      }
    case Complete(id, moved, ok) =>
      if Next(s, e) != s {
        CompleteInv(s, id, moved, ok);
      }
    case Lose(id) =>
      if id in s.conns {
        assert ConnInv(s.conns[id]);
        DisposeConn(s.conns[id]);
        UpdateInv(s, id, Dispose(s.conns[id]));
      }
    case StartWorker =>
      QueueInv(s, WorkQueue.Started);
    case WorkerTurn =>
      QueueInv(s, WorkQueue.Turned);
    case WorkerReply(outcomes, ok) =>
      if Next(s, e) != s {
        ReplyInv(s, outcomes, ok);
      }
    case Stop =>
      QueueInv(s, WorkQueue.Cancelled);
    case Drain =>
      if Next(s, e) != s {
        DrainInv(s);
      }
  }

  lemma StartInv(setup: Agent.Setup)
    ensures SystemInv(NoConnections(setup))
  {
  }

  lemma NextSetup(s: System, e: Event)
    ensures Next(s, e).setup == s.setup
  {
    hide DoIoCompletion, Erase, Possible, Script, Agent.Reply;
  }
}
