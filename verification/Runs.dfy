/** Every run of the bridge: what becomes of connections and messages.

    A run is the sequence of states a sequence of events leads through. What goes over the
    connections in a run is the subject of module Transcripts. */
module Runs {
  import opened Wrappers
  import opened Bytes
  import opened Frames
  import opened Handshake
  import opened Connection
  import opened Bridge
  import Agent
  import WorkQueue

  ghost predicate StepAt(run: seq<System>, events: seq<Event>, i: nat)
    requires i < |events| < |run|
  {
    run[i + 1] == Next(run[i], events[i])
  }

  ghost predicate IsRun(setup: Agent.Setup, run: seq<System>, events: seq<Event>) {
    && |run| == |events| + 1 && run[0] == NoConnections(setup)
    && forall i :: 0 <= i < |events| ==> StepAt(run, events, i)
  }

  /** Any sequence of events has its run. */
  lemma {:induction false} EveryScheduleRuns(setup: Agent.Setup, events: seq<Event>) returns (run: seq<System>)
    ensures IsRun(setup, run, events)
  {
    hide Next;
    if events == [] {
      run := [NoConnections(setup)];
    } else {
      var n := |events| - 1;
      var front := EveryScheduleRuns(setup, events[..n]);
      run := front + [Next(front[n], events[n])];
      forall i | 0 <= i < |events| ensures StepAt(run, events, i) {
        if i < n {
          assert StepAt(front, events[..n], i);
        }
      }
    }
  }

  lemma {:induction false} RunInv(setup: Agent.Setup, run: seq<System>, events: seq<Event>, n: nat)
    requires IsRun(setup, run, events) && n < |run|
    ensures SystemInv(run[n]) && run[n].setup == setup
  {
    hide SystemInv, Next;
    if n == 0 {
      StartInv(setup);
    } else {
      RunInv(setup, run, events, n - 1);
      assert StepAt(run, events, n - 1);
      NextInv(run[n - 1], events[n - 1]);
      NextSetup(run[n - 1], events[n - 1]);
    }
  }

  // ---------------------------------------------------------------- what becomes of a connection

  /** The context list is at all times the set of live connections, each once. */
  lemma ContextListIsLive(setup: Agent.Setup, run: seq<System>, events: seq<Event>, n: nat, id: nat)
    requires IsRun(setup, run, events) && n < |run|
    ensures id in run[n].contextList <==> id in run[n].conns && run[n].conns[id].state != Destroyed
    ensures Distinct(run[n].contextList)
  {
    hide IsRun, ConnsInv, PostedInv, TicketsInv, WorkQueue.Balanced;
    RunInv(setup, run, events, n);
  }

  /** What was read, sent, delivered and answered is never taken back. */
  ghost predicate Grows(c: Conn, d: Conn) {
    && d.listener == c.listener && c.received <= d.received && c.sent <= d.sent
    && c.delivered <= d.delivered && c.replies <= d.replies
  }

  lemma StepGrows(c: Conn, moved: seq<uint8>, ok: bool)
    requires c.exchange <= |Script(c.listener)|
    ensures Grows(c, DoIoCompletion(c, moved, ok))
  {
    hide ContinueHandshake, TakeHeader, TakeBody, WriteChunk, AwaitHeader, Script, Frame;
    match c.state
    case Handshaking => HandshakeGrows(c, moved, ok);
    case ReadHeader | ReadBody => ReadGrows(c, moved, ok);
    case WaitReply =>
      ChunkGrows(c.(state := WriteReply, unsent := Frame(c.message), replies := c.replies + [c.message]), ok);
    case WriteReply =>
      ChunkGrows(c, ok);
      AwaitGrows(c.(io := Idle), ok);
    case Ready => AwaitGrows(c, ok);
    case _ =>
  }

  lemma HandshakeGrows(c: Conn, moved: seq<uint8>, ok: bool)
    requires c.exchange <= |Script(c.listener)|
    ensures Grows(c, ContinueHandshake(c, moved, ok))
  {
    hide Script;
  }

  lemma ReadGrows(c: Conn, moved: seq<uint8>, ok: bool)
    ensures Grows(c, TakeHeader(c, moved, ok)) && Grows(c, TakeBody(c, moved, ok))
  {
    hide FromBe32;
  }

  lemma ChunkGrows(c: Conn, ok: bool)
    ensures Grows(c, WriteChunk(c, ok))
  {
  }

  lemma AwaitGrows(c: Conn, ok: bool)
    ensures Grows(c, AwaitHeader(c, ok))
  {
  }

  lemma CompleteGrows(s: System, k: nat, moved: seq<uint8>, ok: bool, id: nat)
    requires id in s.conns && k in s.conns && s.conns[k].exchange <= |Script(s.conns[k].listener)|
    ensures id in OnComplete(s, k, moved, ok).conns && Grows(s.conns[id], OnComplete(s, k, moved, ok).conns[id])
  {
    hide DoIoCompletion, Script, Erase, WorkQueue.Record, Emits;
    StepGrows(s.conns[k], moved, ok);
  }

  lemma ReplyGrows(s: System, t: Ticket, outcomes: seq<Agent.Outcome>, ok: bool, id: nat)
    requires id in s.conns && t.conn in s.conns && |outcomes| == |s.setup.names|
    requires s.conns[t.conn].exchange <= |Script(s.conns[t.conn].listener)|
    ensures id in OnReply(s, t, outcomes, ok).conns && Grows(s.conns[id], OnReply(s, t, outcomes, ok).conns[id])
  {
    hide DoIoCompletion, Script, Erase, WorkQueue.Record, Agent.Reply;
    var c := s.conns[t.conn];
    match Agent.Reply(s.setup, c.message, outcomes)
    case Some(reply) => StepGrows(c.(message := reply), [], ok);
    case None =>
  }

  lemma NextGrows(s: System, e: Event, id: nat)
    requires id in s.conns
    ensures id in Next(s, e).conns && Grows(s.conns[id], Next(s, e).conns[id])
  {
    hide OnComplete, OnReply, Script, Possible, Erase, WorkQueue.Record;
    match e
    case Connect(k, listener, ok) =>
      if k !in s.conns {
        CompleteGrows(s.(conns := s.conns[k := Accept(listener)], contextList := [k] + s.contextList), k, [], ok, id);
      }
    case Complete(k, moved, ok) =>
      if k in s.conns && s.conns[k].exchange <= |Script(s.conns[k].listener)| {
        CompleteGrows(s, k, moved, ok, id);
      }
    case WorkerReply(outcomes, ok) =>
      if Next(s, e) != s {
        ReplyGrows(s, s.ledger.queue.worker.item, outcomes, ok, id);
      }
    case _ =>
  }

  lemma DestroyedKept(s: System, e: Event, id: nat)
    requires id in s.conns && s.conns[id].state == Destroyed
    ensures id in Next(s, e).conns
    ensures Next(s, e).conns[id] == s.conns[id].(message := Next(s, e).conns[id].message)
  {
    hide Script, Possible, Agent.Reply, Agent.Plausible, Erase, WorkQueue.Record;
    hide ContinueHandshake, AwaitHeader, TakeHeader, TakeBody, BeginReply, WriteChunk;
  }

  /** As time goes on, connections stay, and their histories only grow. A lost connection
      stays as it is whatever happens later, except that the worker may still write into
      its message; it is never put back on the list. */
  lemma {:induction false} HistoryGrows(
      setup: Agent.Setup, run: seq<System>, events: seq<Event>, m: nat, n: nat, id: nat)
    requires IsRun(setup, run, events) && m <= n < |run| && id in run[m].conns
    ensures id in run[n].conns && Grows(run[m].conns[id], run[n].conns[id])
    ensures run[m].conns[id].state == Destroyed ==>
      run[n].conns[id] == run[m].conns[id].(message := run[n].conns[id].message) && id !in run[n].contextList
    decreases n - m
  {
    hide Next;
    ContextListIsLive(setup, run, events, n, id);
    if m < n {
      assert StepAt(run, events, n - 1);
      HistoryGrows(setup, run, events, m, n - 1, id);
      NextGrows(run[n - 1], events[n - 1], id);
      if run[m].conns[id].state == Destroyed {
        DestroyedKept(run[n - 1], events[n - 1], id);
      }
    }
  }

  // ---------------------------------------------------------------- what becomes of a message

  /** Every delivered message is posted once; its reply callback has been called once or
      its ticket is still outstanding, never both and never neither. Once the worker is
      gone and the destructor's loop is done, every callback has been called once. */
  lemma ExactlyOnce(setup: Agent.Setup, run: seq<System>, events: seq<Event>, n: nat, id: nat, k: nat)
    requires IsRun(setup, run, events) && n < |run|
    requires id in run[n].conns && k < |run[n].conns[id].delivered|
    ensures var l := run[n].ledger;
            && l.posted[Ticket(id, k)] == 1
            && l.answered[Ticket(id, k)] + WorkQueue.Unanswered(l.queue)[Ticket(id, k)] == 1
            && (WorkQueue.Stopped(l.queue) && l.queue.list == [] ==> l.answered[Ticket(id, k)] == 1)
  {
    hide IsRun, ConnsInv, TicketsInv, ListInv;
    RunInv(setup, run, events, n);
    assert PostedOnce(run[n], Ticket(id, k));
  }

  /** A connection has at most one message in the dispatcher, and has one exactly when it
      waits for a reply (or was lost while it waited). */
  lemma WaitingMeansOutstanding(
      setup: Agent.Setup, run: seq<System>, events: seq<Event>, n: nat, t: Ticket, u: Ticket)
    requires IsRun(setup, run, events) && n < |run|
    ensures var s := run[n];
            var open := WorkQueue.Unanswered(s.ledger.queue);
            && (t in open && u in open && t.conn == u.conn ==> t == u && open[t] == 1)
            && (t in open ==> t.conn in s.conns && (s.conns[t.conn].state == WaitReply || s.conns[t.conn].state == Destroyed))
            && (t.conn in s.conns && s.conns[t.conn].state == WaitReply ==>
                  t.index + 1 == |s.conns[t.conn].delivered| ==> t in open)
  {
    hide IsRun, WorkQueue.Unanswered, ConnsInv, PostedInv, ListInv;
    RunInv(setup, run, events, n);
    var s := run[n];
    assert TicketInv(s, t);
    if t in WorkQueue.Unanswered(s.ledger.queue) && u in WorkQueue.Unanswered(s.ledger.queue) && t.conn == u.conn {
      OneOutstanding(s, t, u);
    }
  }

  // ---------------------------------------------------------------- the dispatcher's part in a run

  /** What an event that leads from `s` to `d` is to the dispatcher: a post, if it makes a
      connection deliver one more message, or a step of its own. */
  ghost function DispatcherEvent(s: System, e: Event, d: System): seq<WorkQueue.Event<Ticket>> {
    match e
    case Connect(_, _, _) => []
    case Lose(_) => []
    case Complete(id, _, _) =>
      if id in s.conns && id in d.conns && |d.conns[id].delivered| > |s.conns[id].delivered|
      then [WorkQueue.Posted(Ticket(id, |s.conns[id].delivered|))]
      else []
    case StartWorker => [WorkQueue.Started]
    case WorkerTurn => [WorkQueue.Turned]
    case WorkerReply(outcomes, _) => if Agent.Plausible(s.setup, outcomes) then [WorkQueue.Answered] else []
    case Stop => [WorkQueue.Cancelled]
    case Drain => [WorkQueue.Drained]
  }

  ghost function DispatcherEvents(run: seq<System>, events: seq<Event>, n: nat): seq<WorkQueue.Event<Ticket>>
    requires n < |run| == |events| + 1
  {
    if n == 0 then []
    else DispatcherEvents(run, events, n - 1) + DispatcherEvent(run[n - 1], events[n - 1], run[n])
  }

  lemma NextLedger(s: System, e: Event)
    requires SystemInv(s)
    ensures var steps := DispatcherEvent(s, e, Next(s, e));
            Next(s, e).ledger == if steps == [] then s.ledger else WorkQueue.Record(s.ledger, steps[0])
  {
    hide WorkQueue.Record, Erase, OnComplete, OnReply, Agent.Plausible, ConnInv, Script, Possible, ListInv, PostedInv;
    match e
    case Connect(k, listener, ok) =>
      if k !in s.conns {
        ConnectLedger(s, k, listener, ok);
      }
    case Complete(k, moved, ok) =>
      if Next(s, e) != s {
        CompleteLedger(s, k, moved, ok);
      }
    case WorkerReply(outcomes, ok) =>
      if Agent.Plausible(s.setup, outcomes) {
        ReplyLedger(s, outcomes, ok);
      }
    case Drain =>
      DrainLedger(s);
    case _ =>
  }

  lemma ConnectLedger(s: System, k: nat, listener: Listener, ok: bool)
    requires k !in s.conns
    ensures OnComplete(s.(conns := s.conns[k := Accept(listener)], contextList := [k] + s.contextList), k, [], ok).ledger == s.ledger
  {
    hide DoIoCompletion, Script, Erase;
  }

  lemma CompleteLedger(s: System, k: nat, moved: seq<uint8>, ok: bool)
    requires SystemInv(s) && k in s.conns && s.conns[k].exchange <= |Script(s.conns[k].listener)|
    requires Possible(s.conns[k], moved) || s.conns[k].state == Destroyed
    ensures var c, d := s.conns[k], OnComplete(s, k, moved, ok);
            && k in d.conns
            && d.ledger == if |d.conns[k].delivered| > |c.delivered|
                           then WorkQueue.Record(s.ledger, WorkQueue.Posted(Ticket(k, |c.delivered|)))
                           else s.ledger
  {
    hide DoIoCompletion, Script, Erase, WorkQueue.Record, Settled, Safe, Possible;
    assert ConnInv(s.conns[k]);
    CompleteConn(s.conns[k], moved, ok);
  }

  lemma ReplyLedger(s: System, outcomes: seq<Agent.Outcome>, ok: bool)
    requires SystemInv(s) && Agent.Plausible(s.setup, outcomes)
    ensures Next(s, WorkerReply(outcomes, ok)).ledger == WorkQueue.Record(s.ledger, WorkQueue.Answered)
  {
    hide DoIoCompletion, Script, Erase, Settled, Safe, Agent.Reply, Follows, Output;
    var w := s.ledger.queue.worker;
    if w.Processing? {
      assert TicketInv(s, w.item) && ConnInv(s.conns[w.item.conn]);
    }
  }

  lemma DrainLedger(s: System)
    requires SystemInv(s)
    ensures Next(s, Drain).ledger == WorkQueue.Record(s.ledger, WorkQueue.Drained)
  {
    hide Erase, ConnInv;
    var list := s.ledger.queue.list;
    if list != [] {
      assert TicketInv(s, list[|list| - 1]);
    }
  }

  /** In every run the dispatcher goes through a run of its own: what the theorems of module
      WorkQueue say of its runs holds of it. */
  lemma {:induction false} LedgerIsRun(setup: Agent.Setup, run: seq<System>, events: seq<Event>, n: nat)
    requires IsRun(setup, run, events) && n < |run|
    ensures run[n].ledger == WorkQueue.RecordAll(DispatcherEvents(run, events, n))
  {
    hide Next, SystemInv, WorkQueue.Record, DispatcherEvent;
    if n > 0 {
      LedgerIsRun(setup, run, events, n - 1);
      RunInv(setup, run, events, n - 1);
      assert StepAt(run, events, n - 1);
      NextLedger(run[n - 1], events[n - 1]);
      var before, steps := DispatcherEvents(run, events, n - 1), DispatcherEvent(run[n - 1], events[n - 1], run[n]);
      OneStepAtMost(run[n - 1], events[n - 1], run[n]);
      if steps == [] {
        assert before + steps == before;
      } else {
        assert (before + steps)[..|before|] == before;
      }
    }
  }

  lemma OneStepAtMost(s: System, e: Event, d: System)
    ensures |DispatcherEvent(s, e, d)| <= 1
  {
  }

  // ---------------------------------------------------------------- which answer belongs to which request

  /** At event `i` the worker answers the `k`-th message of connection `id`: it has that
      ticket, the agents are asked with `request`, and `reply` is made of what they said. */
  ghost predicate AnsweredAt(
      run: seq<System>, events: seq<Event>, i: nat, id: nat, k: nat, request: seq<uint8>, reply: seq<uint8>)
    requires i < |events| < |run|
  {
    && events[i].WorkerReply?
    && run[i].ledger.queue.worker == WorkQueue.Processing(Ticket(id, k))
    && id in run[i].conns && run[i].conns[id].message == request
    && Agent.Plausible(run[i].setup, events[i].outcomes)
    && Agent.Reply(run[i].setup, request, events[i].outcomes) == Some(reply)
  }

  ghost predicate AnsweredBefore(
      run: seq<System>, events: seq<Event>, n: nat, id: nat, k: nat, request: seq<uint8>, reply: seq<uint8>)
    requires n < |run| == |events| + 1
  {
    exists i :: 0 <= i < n && AnsweredAt(run, events, i, id, k, request, reply)
  }

  /** The worker answers the message a connection waits on, which adds one reply to those
      the connection has. */
  ghost predicate AddsReply(s: System, outcomes: seq<Agent.Outcome>, id: nat, replies: seq<seq<uint8>>)
    requires id in s.conns
  {
    var c := s.conns[id];
    && Agent.Plausible(s.setup, outcomes)
    && s.ledger.queue.worker == WorkQueue.Processing(Ticket(id, |c.replies|))
    && |c.delivered| == |c.replies| + 1 && c.message == c.delivered[|c.replies|]
    && var r := Agent.Reply(s.setup, c.message, outcomes);
       r.Some? && replies == c.replies + [r.value]
  }

  lemma NextReplies(s: System, e: Event, id: nat)
    requires SystemInv(s) && id in s.conns && id in Next(s, e).conns
    ensures var replies := Next(s, e).conns[id].replies;
            replies == s.conns[id].replies || (e.WorkerReply? && AddsReply(s, e.outcomes, id, replies))
  {
    hide SystemInv, DoIoCompletion, Script, Possible, Erase, WorkQueue.Record, ConnInv, AddsReply, OnComplete, OnReply;
    match e
    case Connect(k, listener, ok) =>
      if k !in s.conns {
        OtherConn(s.(conns := s.conns[k := Accept(listener)], contextList := [k] + s.contextList), k, [], ok, id);
      }
    case Complete(k, moved, ok) =>
      if Next(s, e) != s {
        CompleteReplies(s, k, moved, ok, id);
      }
    case WorkerReply(outcomes, ok) =>
      if Next(s, e) != s {
        WorkerReplies(s, outcomes, ok, id);
      }
    case _ =>
  }

  lemma OtherConn(s: System, k: nat, moved: seq<uint8>, ok: bool, id: nat)
    requires id in s.conns && k in s.conns && k != id && s.conns[k].exchange <= |Script(s.conns[k].listener)|
    ensures id in OnComplete(s, k, moved, ok).conns && OnComplete(s, k, moved, ok).conns[id] == s.conns[id]
  {
    hide DoIoCompletion, Script, Erase, WorkQueue.Record, Emits;
  }

  lemma CompleteReplies(s: System, k: nat, moved: seq<uint8>, ok: bool, id: nat)
    requires SystemInv(s) && id in s.conns && k in s.conns && s.conns[k].exchange <= |Script(s.conns[k].listener)|
    requires Possible(s.conns[k], moved) || s.conns[k].state == Destroyed
    ensures OnComplete(s, k, moved, ok).conns[id].replies == s.conns[id].replies
  {
    hide DoIoCompletion, Script, Erase, WorkQueue.Record, Emits, Possible, ConnInv;
    if k == id {
      assert ConnInv(s.conns[k]);
      CompleteConn(s.conns[k], moved, ok);
    }
  }

  lemma WorkerReplies(s: System, outcomes: seq<Agent.Outcome>, ok: bool, id: nat)
    requires SystemInv(s) && id in s.conns && s.ledger.queue.worker.Processing?
    requires Agent.Plausible(s.setup, outcomes)
    requires var k := s.ledger.queue.worker.item.conn;
             k in s.conns && s.conns[k].exchange <= |Script(s.conns[k].listener)|
    ensures var replies := OnReply(s, s.ledger.queue.worker.item, outcomes, ok).conns[id].replies;
            replies == s.conns[id].replies || AddsReply(s, outcomes, id, replies)
  {
    hide DoIoCompletion, Script, Erase, WorkQueue.Record, Agent.Reply, Settled, Safe, ListInv, PostedInv;
    var t := s.ledger.queue.worker.item;
    var c := s.conns[t.conn];
    assert TicketInv(s, t) && ConnInv(c);
    match Agent.Reply(s.setup, c.message, outcomes)
    case Some(reply) => ReplyConn(c, reply, ok);
    case None =>
  }

  lemma NewConn(s: System, e: Event, id: nat)
    requires id !in s.conns && id in Next(s, e).conns
    ensures Next(s, e).conns[id].replies == []
  {
    hide ContinueHandshake, Script, Erase, WorkQueue.Record, Agent.Reply, Possible;
    match e
    case Connect(k, listener, ok) =>
      StartReplies(listener, ok);
    case _ =>
  }

  lemma StartReplies(listener: Listener, ok: bool)
    ensures DoIoCompletion(Accept(listener), [], ok).replies == []
  {
  }

  /** In every run each reply of a connection was made by one event, in which the worker had
      the ticket of the request of the same number, of the same connection, and asked the
      agents with that request's bytes. */
  lemma {:induction false} RepliesAreAnswers(setup: Agent.Setup, run: seq<System>, events: seq<Event>, n: nat, id: nat)
    requires IsRun(setup, run, events) && n < |run| && id in run[n].conns
    ensures var c := run[n].conns[id];
            && |c.replies| <= |c.delivered|
            && forall k :: 0 <= k < |c.replies| ==>
                 AnsweredBefore(run, events, n, id, k, c.delivered[k], c.replies[k])
  {
    hide SystemInv, Next, AnsweredAt, Grows;
    if n > 0 {
      var s, e := run[n - 1], events[n - 1];
      assert StepAt(run, events, n - 1);
      RunInv(setup, run, events, n - 1);
      if id !in s.conns {
        NewConn(s, e, id);
      } else {
        RepliesAreAnswers(setup, run, events, n - 1, id);
        NextReplies(s, e, id);
        OneMoreAnswer(run, events, n, id);
      }
    }
  }

  lemma OneMoreAnswer(run: seq<System>, events: seq<Event>, n: nat, id: nat)
    requires 0 < n < |run| == |events| + 1 && id in run[n - 1].conns && StepAt(run, events, n - 1)
    requires id in run[n].conns
    requires var c, replies, e := run[n - 1].conns[id], run[n].conns[id].replies, events[n - 1];
             && |c.replies| <= |c.delivered|
             && (forall k :: 0 <= k < |c.replies| ==>
                   AnsweredBefore(run, events, n - 1, id, k, c.delivered[k], c.replies[k]))
             && (replies == c.replies || (e.WorkerReply? && AddsReply(run[n - 1], e.outcomes, id, replies)))
    ensures var d := run[n].conns[id];
            && |d.replies| <= |d.delivered|
            && forall k :: 0 <= k < |d.replies| ==>
                 AnsweredBefore(run, events, n, id, k, d.delivered[k], d.replies[k])
  {
    hide Next, Agent.Reply, Agent.Plausible;
    var c, d := run[n - 1].conns[id], run[n].conns[id];
    NextGrows(run[n - 1], events[n - 1], id);
    forall k | 0 <= k < |d.replies| ensures AnsweredBefore(run, events, n, id, k, d.delivered[k], d.replies[k]) {
      if k < |c.replies| {
        assert AnsweredBefore(run, events, n - 1, id, k, c.delivered[k], c.replies[k]);
      } else {
        assert AnsweredAt(run, events, n - 1, id, k, d.delivered[k], d.replies[k]);
      }
    }
  }

  lemma HeldIsUnanswered(q: WorkQueue.Queue<Ticket>)
    requires q.worker.Processing?
    ensures q.worker.item in WorkQueue.Unanswered(q)
  {
  }

  lemma AnswerCounts(s: System, e: Event, t: Ticket)
    requires e.WorkerReply? && s.ledger.queue.worker == WorkQueue.Processing(t) && t.conn in s.conns
    requires Agent.Plausible(s.setup, e.outcomes) && ConnInv(s.conns[t.conn])
    ensures t in Next(s, e).ledger.answered
  {
    hide DoIoCompletion, Script, Erase, Agent.Reply, Settled, Safe, Follows, Output;
  }

  lemma {:induction false} AnsweredStays(
      setup: Agent.Setup, run: seq<System>, events: seq<Event>, m: nat, n: nat, t: Ticket)
    requires IsRun(setup, run, events) && m <= n < |run| && t in run[m].ledger.answered
    ensures t in run[n].ledger.answered
    decreases n - m
  {
    hide Next;
    if m < n {
      AnsweredStays(setup, run, events, m, n - 1, t);
      assert StepAt(run, events, n - 1);
      NextKeepsAnswered(run[n - 1], events[n - 1], t);
    }
  }

  lemma NextKeepsAnswered(s: System, e: Event, t: Ticket)
    requires t in s.ledger.answered
    ensures t in Next(s, e).ledger.answered
  {
    hide DoIoCompletion, Script, Erase, Agent.Reply, Possible, Emits, WorkQueue.Turn, WorkQueue.Post;
  }

  /** No message is answered by two events. */
  lemma AnsweredByOneEvent(
      setup: Agent.Setup, run: seq<System>, events: seq<Event>, i: nat, j: nat, id: nat, k: nat,
      request: seq<uint8>, reply: seq<uint8>, request': seq<uint8>, reply': seq<uint8>)
    requires IsRun(setup, run, events) && i < |events| && j < |events|
    requires AnsweredAt(run, events, i, id, k, request, reply) && AnsweredAt(run, events, j, id, k, request', reply')
    ensures i == j && request == request' && reply == reply'
  {
    hide Next, Agent.Reply, Agent.Plausible;
    if i < j {
      AnsweredEarlier(setup, run, events, i, j, Ticket(id, k));
      assert false;
    } else if j < i {
      AnsweredEarlier(setup, run, events, j, i, Ticket(id, k));
      assert false;
    }
  }

  /** Once answered, a ticket is never again in the worker's hands. */
  lemma AnsweredEarlier(setup: Agent.Setup, run: seq<System>, events: seq<Event>, i: nat, j: nat, t: Ticket)
    requires IsRun(setup, run, events) && i < j < |events|
    requires events[i].WorkerReply? && run[i].ledger.queue.worker == WorkQueue.Processing(t) && t.conn in run[i].conns
    requires Agent.Plausible(run[i].setup, events[i].outcomes)
    ensures run[j].ledger.queue.worker != WorkQueue.Processing(t)
  {
    hide Next, ConnInv, ListInv, WorkQueue.Unanswered, Agent.Plausible;
    assert StepAt(run, events, i);
    RunInv(setup, run, events, i);
    AnswerCounts(run[i], events[i], t);
    AnsweredStays(setup, run, events, i + 1, j, t);
    RunInv(setup, run, events, j);
    assert PostedOnce(run[j], t);
    if run[j].ledger.queue.worker == WorkQueue.Processing(t) {
      HeldIsUnanswered(run[j].ledger.queue);
      assert false;
    }
  }
}
