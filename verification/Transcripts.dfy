/** What goes over the connections in the runs of the bridge.

    The input of a connection is what the completions of its reads have moved, its output
    what the writes it issued were given: both are read off the run and its events, not
    off the histories the machine keeps. */
module Transcripts {
  import opened Wrappers
  import opened Bytes
  import opened Frames
  import opened Handshake
  import opened Connection
  import opened Bridge
  import opened Runs
  import Agent
  import WorkQueue

  /** Whether an event is a step of a live connection: the completion of its operation, or
      the answer it waits for. */
  ghost predicate Steps(s: System, e: Event, id: nat)
    requires id in s.conns
  {
    var c, w := s.conns[id], s.ledger.queue.worker;
    match e
    case Complete(k, moved, _) => k == id && c.state != Destroyed && Possible(c, moved)
    case WorkerReply(outcomes, _) =>
      w.Processing? && w.item.conn == id && Agent.Plausible(s.setup, outcomes) && c.state == WaitReply
    case _ => false
  }

  /** The bytes an event brings to a connection: those its outstanding read has moved. */
  ghost function HeardAt(s: System, e: Event, id: nat): seq<uint8> {
    if id in s.conns && Steps(s, e, id) && e.Complete? && s.conns[id].io.Reading? then e.moved else []
  }

  /** The bytes an event hands to a write on a connection, which then is in state `d`. */
  ghost function ToldAt(s: System, e: Event, d: System, id: nat): seq<uint8> {
    if id in d.conns && (id in s.conns ==> Steps(s, e, id)) && d.conns[id].io.Writing?
    then d.conns[id].io.chunk
    else []
  }

  ghost function Heard(run: seq<System>, events: seq<Event>, n: nat, id: nat): seq<uint8>
    requires n < |run| == |events| + 1
  {
    if n == 0 then [] else Heard(run, events, n - 1, id) + HeardAt(run[n - 1], events[n - 1], id)
  }

  ghost function Told(run: seq<System>, events: seq<Event>, n: nat, id: nat): seq<uint8>
    requires n < |run| == |events| + 1
  {
    if n == 0 then [] else Told(run, events, n - 1, id) + ToldAt(run[n - 1], events[n - 1], run[n], id)
  }

  // ---------------------------------------------------------------- the machine's histories are these

  lemma NewConnTells(s: System, e: Event, id: nat)
    requires id !in s.conns && id in Next(s, e).conns
    ensures e.Connect? && e.id == id && Next(s, e).conns[id].listener == e.listener
    ensures Next(s, e).conns[id].received == [] && HeardAt(s, e, id) == []
    ensures Next(s, e).conns[id].sent == ToldAt(s, e, Next(s, e), id)
    ensures Next(s, e).conns[id].state == Destroyed <==> !e.ok
  {
    hide DoIoCompletion, Script, Erase, WorkQueue.Record, Agent.Reply, Possible, Inv, Fatal;
    match e
    case Connect(k, listener, ok) =>
      FirstStep(listener, ok);
    case _ =>
  }

  lemma FirstStep(listener: Listener, ok: bool)
    ensures var d := DoIoCompletion(Accept(listener), [], ok);
            && d.listener == listener && d.received == [] && !Emits(Accept(listener), d)
            && d.sent == (if d.io.Writing? then d.io.chunk else [])
            && (d.state == Destroyed <==> !ok)
  {
    hide DoIoCompletion, Script;
    AcceptInv(listener);
    StepHears(Accept(listener), [], ok);
    StepTells(Accept(listener), [], ok);
    StepEffect(Accept(listener), [], ok);
    LostOnlyFor(Accept(listener), [], ok);
  }

  lemma CompleteTells(s: System, moved: seq<uint8>, ok: bool, id: nat)
    requires SystemInv(s) && id in s.conns && s.conns[id].exchange <= |Script(s.conns[id].listener)|
    requires Possible(s.conns[id], moved) || s.conns[id].state == Destroyed
    ensures var c, d := s.conns[id], OnComplete(s, id, moved, ok).conns[id];
            && d.listener == c.listener
            && d.received == c.received + (if c.state != Destroyed && c.io.Reading? then moved else [])
            && d.sent == c.sent + (if c.state != Destroyed && d.io.Writing? then d.io.chunk else [])
            && (c.state != Destroyed && d.state == Destroyed <==>
                  c.state != Destroyed && (Fatal(c, moved, ok)
                    || (s.ledger.queue.cancelled && c.state == ReadBody && |moved| == c.need)))
  {
    hide DoIoCompletion, Script, Erase, WorkQueue.Record, Settled, Safe, Follows, Output, Fatal;
    var c := s.conns[id];
    assert ConnInv(c);
    StepEffect(c, moved, ok);
    if c.state != Destroyed {
      StepHears(c, moved, ok);
      StepTells(c, moved, ok);
      LostOnlyFor(c, moved, ok);
      BodyEnds(c, moved, ok);
      CompleteConn(c, moved, ok);
    }
    var none: seq<uint8> := [];
    assert c.received + none == c.received && c.sent + none == c.sent;
  }

  lemma BodyEnds(c: Conn, moved: seq<uint8>, ok: bool)
    requires Inv(c) && Possible(c, moved)
    ensures Emits(c, DoIoCompletion(c, moved, ok)) <==> c.state == ReadBody && |moved| == c.need
    ensures Emits(c, DoIoCompletion(c, moved, ok)) ==> !DoIoCompletion(c, moved, ok).io.Writing?
  {
    hide Settled, Safe, Frame, Follows, Output, Script, FromBe32;
  }

  lemma ReplyTells(s: System, outcomes: seq<Agent.Outcome>, ok: bool)
    requires SystemInv(s) && s.ledger.queue.worker.Processing? && Agent.Plausible(s.setup, outcomes)
    requires var k := s.ledger.queue.worker.item.conn;
             k in s.conns && s.conns[k].exchange <= |Script(s.conns[k].listener)|
    ensures var k := s.ledger.queue.worker.item.conn;
            var c, d := s.conns[k], OnReply(s, s.ledger.queue.worker.item, outcomes, ok).conns[k];
            && d.listener == c.listener && d.received == c.received
            && d.sent == c.sent + (if c.state == WaitReply && d.io.Writing? then d.io.chunk else [])
            && (c.state != Destroyed && d.state == Destroyed <==> c.state != Destroyed && (c.message == [] || !ok))
  {
    hide DoIoCompletion, Script, Erase, WorkQueue.Record, Settled, Safe, Agent.Reply;
    var t := s.ledger.queue.worker.item;
    var c := s.conns[t.conn];
    assert TicketInv(s, t) && ConnInv(c);
    NoReplyToNothing(s.setup, c.message, outcomes);
    match Agent.Reply(s.setup, c.message, outcomes)
    case Some(reply) =>
      var c' := c.(message := reply);
      SameButMessage(c, c');
      StepHears(c', [], ok);
      StepTells(c', [], ok);
      StepEffect(c', [], ok);
      if c.state != Destroyed {
        LostOnlyFor(c', [], ok);
      }
    case None =>
      var none: seq<uint8> := [];
      assert c.sent + none == c.sent;
  }

  lemma NoReplyToNothing(setup: Agent.Setup, request: seq<uint8>, outcomes: seq<Agent.Outcome>)
    requires |outcomes| == |setup.names|
    ensures Agent.Reply(setup, request, outcomes) == None <==> request == []
  {
  }

  /** Why an event ends a live connection. */
  ghost predicate Ends(s: System, e: Event, id: nat)
    requires id in s.conns && s.conns[id].exchange <= |Script(s.conns[id].listener)|
  {
    var c, queue := s.conns[id], s.ledger.queue;
    match e
    case Complete(_, moved, ok) =>
      Steps(s, e, id)
      && (Fatal(c, moved, ok) || (queue.cancelled && c.state == ReadBody && |moved| == c.need))
    case WorkerReply(_, ok) => Steps(s, e, id) && (c.message == [] || !ok)
    case Lose(k) => k == id
    case Drain =>
      WorkQueue.Stopped(queue) && queue.list != [] && queue.list[|queue.list| - 1].conn == id
    case _ => false
  }

  lemma NextTells(s: System, e: Event, id: nat)
    requires SystemInv(s) && id in s.conns
    requires id in Next(s, e).conns && s.conns[id].exchange <= |Script(s.conns[id].listener)|
    ensures var c, d := s.conns[id], Next(s, e).conns[id];
            && d.listener == c.listener
            && d.received == c.received + HeardAt(s, e, id)
            && d.sent == c.sent + ToldAt(s, e, Next(s, e), id)
            && (c.state != Destroyed ==> (d.state == Destroyed <==> Ends(s, e, id)))
  {
    hide SystemInv, DoIoCompletion, Script, Possible, Erase, WorkQueue.Record, OnComplete, OnReply, Fatal;
    var c := s.conns[id];
    var none: seq<uint8> := [];
    assert c.received + none == c.received && c.sent + none == c.sent;
    match e
    case Connect(k, listener, ok) =>
      if k !in s.conns {
        OtherConn(s.(conns := s.conns[k := Accept(listener)], contextList := [k] + s.contextList), k, [], ok, id);
      }
    case Complete(k, moved, ok) =>
      if k in s.conns && s.conns[k].exchange <= |Script(s.conns[k].listener)|
         && (Possible(s.conns[k], moved) || s.conns[k].state == Destroyed) {
        if k == id {
          CompleteTells(s, moved, ok, id);
        } else {
          OtherConn(s, k, moved, ok, id);
        }
      }
    case WorkerReply(outcomes, ok) =>
      WorkerTells(s, outcomes, ok, id);
    case _ =>
  }

  lemma WorkerTells(s: System, outcomes: seq<Agent.Outcome>, ok: bool, id: nat)
    requires SystemInv(s) && id in s.conns && s.conns[id].exchange <= |Script(s.conns[id].listener)|
    ensures var e := WorkerReply(outcomes, ok);
            id in Next(s, e).conns
            && var c, d := s.conns[id], Next(s, e).conns[id];
            && d.listener == c.listener
            && d.received == c.received
            && d.sent == c.sent + ToldAt(s, e, Next(s, e), id)
            && (c.state != Destroyed ==> (d.state == Destroyed <==> Ends(s, e, id)))
  {
    hide DoIoCompletion, Script, Erase, WorkQueue.Record, Settled, Safe, Agent.Reply, Agent.Plausible, ConnsInv;
    var c, w := s.conns[id], s.ledger.queue.worker;
    var none: seq<uint8> := [];
    assert c.received + none == c.received && c.sent + none == c.sent;
    if w.Processing? && w.item.conn in s.conns && Agent.Plausible(s.setup, outcomes)
       && s.conns[w.item.conn].exchange <= |Script(s.conns[w.item.conn].listener)| {
      assert TicketInv(s, w.item);
      if w.item.conn == id {
        ReplyTells(s, outcomes, ok);
      }
    }
  }

  lemma ExchangeBounded(s: System, id: nat)
    requires SystemInv(s) && id in s.conns
    ensures s.conns[id].exchange <= |Script(s.conns[id].listener)|
  {
    hide Settled, Safe, ListInv, PostedInv, TicketsInv;
    assert ConnInv(s.conns[id]);
  }

  /** What a machine's connection has recorded is what it has heard and told; and it is a
      connection to the listener it was accepted from. */
  lemma {:induction false} HistoriesAreReal(setup: Agent.Setup, run: seq<System>, events: seq<Event>, n: nat, id: nat)
    requires IsRun(setup, run, events) && n < |run|
    ensures id !in run[n].conns ==> Heard(run, events, n, id) == [] && Told(run, events, n, id) == []
    ensures id in run[n].conns ==>
      && run[n].conns[id].received == Heard(run, events, n, id)
      && run[n].conns[id].sent == Told(run, events, n, id)
      && exists i :: 0 <= i < n && events[i].Connect? && events[i].id == id
                     && events[i].listener == run[n].conns[id].listener
  {
    hide Next, SystemInv, Script, Steps, Possible;
    if n > 0 {
      var s, e := run[n - 1], events[n - 1];
      assert StepAt(run, events, n - 1);
      HistoriesAreReal(setup, run, events, n - 1, id);
      RunInv(setup, run, events, n - 1);
      if id in s.conns {
        NextGrows(s, e, id);
        ExchangeBounded(s, id);
        NextTells(s, e, id);
      } else if id in run[n].conns {
        NewConnTells(s, e, id);
      }
    }
  }

  /** A connection with what was heard and told in place of the machine's histories. */
  ghost function Observed(run: seq<System>, events: seq<Event>, n: nat, id: nat): Conn
    requires n < |run| == |events| + 1 && id in run[n].conns
  {
    run[n].conns[id].(received := Heard(run, events, n, id), sent := Told(run, events, n, id))
  }

  lemma ObservedIsReal(setup: Agent.Setup, run: seq<System>, events: seq<Event>, n: nat, id: nat)
    requires IsRun(setup, run, events) && n < |run| && id in run[n].conns
    ensures Observed(run, events, n, id) == run[n].conns[id]
  {
    hide IsRun;
    HistoriesAreReal(setup, run, events, n, id);
  }

  // ---------------------------------------------------------------- main theorems

  /** At every moment of every run, on every connection: nothing is delivered before the
      handshake is over; what is sent is the handshake's output, and then a prefix of a
      stream of reply frames; and the k-th reply frame is the answer the worker made to the
      k-th request frame of that connection's input, when it held that request's ticket and
      had asked the agents with that request, although it takes the newest ticket first. */
  lemma EndToEnd(setup: Agent.Setup, run: seq<System>, events: seq<Event>, n: nat, id: nat)
    requires IsRun(setup, run, events) && n < |run| && id in run[n].conns
    ensures var c := Observed(run, events, n, id);
            var requests := Decode(Requests(c));
            && (c.delivered == [] || HandshakeDone(c))
            && (c.sent <= HandshakeOutput(c.listener) || HandshakeOutput(c.listener) <= c.sent)
            && Written(c) <= Stream(c.replies)
            && |c.replies| <= |requests|
            && forall k :: 0 <= k < |c.replies| ==>
                 AnsweredBefore(run, events, n, id, k, requests[k], c.replies[k])
  {
    hide AnsweredBefore, SystemInv, HandshakeDone, Decode, Stream, HandshakeOutput, Requests, Written, Observed;
    RunInv(setup, run, events, n);
    ObservedIsReal(setup, run, events, n, id);
    RepliesAreAnswers(setup, run, events, n, id);
    ConnTranscript(run[n], id);
    var c := run[n].conns[id];
    forall k | 0 <= k < |c.replies|
      ensures AnsweredBefore(run, events, n, id, k, Decode(Requests(c))[k], c.replies[k])
    {
      assert Decode(Requests(c))[k] == c.delivered[k];
    }
  }

  lemma ConnTranscript(s: System, id: nat)
    requires SystemInv(s) && id in s.conns
    ensures var c := s.conns[id];
            && (c.delivered == [] || HandshakeDone(c))
            && (c.sent <= HandshakeOutput(c.listener) || HandshakeOutput(c.listener) <= c.sent)
            && Written(c) <= Stream(c.replies)
            && c.delivered <= Decode(Requests(c))
  {
    hide HandshakeDone, Gated, Decode, Stream, Inv, Safe, HandshakeOutput, Requests, Written, Lag;
    var c := s.conns[id];
    assert ConnInv(c);
    InvSafe(c);
    SafeMeans(c);
  }

  /** Input refinement: the messages a connection has handed to the dispatcher are the frames
      of its input after the handshake, each within the size limit. Only a last, empty
      message may lag behind, and it does exactly while its body of zero bytes is being
      read; or, once the connection is lost, if the input ends in the header of one. */
  lemma DeliveredIsDecoded(setup: Agent.Setup, run: seq<System>, events: seq<Event>, n: nat, id: nat)
    requires IsRun(setup, run, events) && n < |run| && id in run[n].conns
    ensures var c := Observed(run, events, n, id);
            && AllWithinLimit(c.delivered)
            && (c.state != Destroyed ==>
                  Decode(Requests(c)) == c.delivered + if c.state == ReadBody && c.need == 0 then [[]] else [])
            && (c.state == Destroyed ==>
                  Decode(Requests(c)) == c.delivered + if Requests(c) == Stream(c.delivered) + Be32(0) then [[]] else [])
  {
    hide Decode, Inv, IsRun, Safe, Requests, Written, Be32, Stream, Observed;
    RunInv(setup, run, events, n);
    ObservedIsReal(setup, run, events, n, id);
    var c := run[n].conns[id];
    assert ConnInv(c);
    InvSafe(c);
    SafeMeans(c);
    if c.state != Destroyed {
      LagMeans(c);
    }
    DecodedWithinLimit(Requests(c));
    assert forall k :: 0 <= k < |c.delivered| ==> c.delivered[k] == Decode(Requests(c))[k];
  }

  /** Between two requests nothing is missing: every request frame has been answered by the
      reply frame of the same number, and all of these have been written. */
  lemma BetweenRequests(setup: Agent.Setup, run: seq<System>, events: seq<Event>, n: nat, id: nat)
    requires IsRun(setup, run, events) && n < |run| && id in run[n].conns && run[n].conns[id].state == ReadHeader
    ensures var c := Observed(run, events, n, id);
            && Requests(c) == Stream(c.delivered) && Written(c) == Stream(c.replies)
            && |c.delivered| == |c.replies|
            && forall k :: 0 <= k < |c.delivered| ==>
                 AnsweredBefore(run, events, n, id, k, c.delivered[k], c.replies[k])
  {
    hide IsRun, Decode, Stream, HandshakeDone, Requests, Written, AnsweredBefore, Observed;
    RunInv(setup, run, events, n);
    ObservedIsReal(setup, run, events, n, id);
    RepliesAreAnswers(setup, run, events, n, id);
    var c := run[n].conns[id];
    assert ConnInv(c);
    assert Written(c) + [] == Written(c) && Stream(c.delivered) + [] == Stream(c.delivered);
  }

  /** No message reaches the dispatcher before the peer has shown the listener's nonce,
      and, on a Cygwin socket, before both sides have sent nonce and process information. */
  lemma HandshakeGates(setup: Agent.Setup, run: seq<System>, events: seq<Event>, n: nat, id: nat)
    requires IsRun(setup, run, events) && n < |run| && id in run[n].conns && run[n].conns[id].delivered != []
    ensures var c := Observed(run, events, n, id);
            match c.listener
            case Direct => true
            case Libassuan(nonce) => |c.received| >= NONCE_LENGTH && c.received[..NONCE_LENGTH] == nonce
            case Cygwin(nonce) =>
              && |c.received| >= NONCE_LENGTH + INFO_LENGTH && c.received[..NONCE_LENGTH] == nonce
              && |c.sent| >= NONCE_LENGTH + INFO_LENGTH
              && c.sent[..NONCE_LENGTH + INFO_LENGTH] == nonce + SERVER_INFO
  {
    hide IsRun, Inv, Safe, Observed;
    RunInv(setup, run, events, n);
    ObservedIsReal(setup, run, events, n, id);
    var c := run[n].conns[id];
    assert ConnInv(c);
    InvSafe(c);
    SafeMeans(c);
    DoneMeans(c);
  }

  /** At every moment of every run: a Cygwin peer was sent the nonce only after it had shown
      it, was listened to again only after that, and was sent the server's information only
      after it had given its own. */
  lemma HandshakeOrder(setup: Agent.Setup, run: seq<System>, events: seq<Event>, n: nat, id: nat)
    requires IsRun(setup, run, events) && n < |run| && id in run[n].conns
    ensures Paced(run[n].conns[id].listener, Heard(run, events, n, id), Told(run, events, n, id))
  {
    hide IsRun, Inv, Safe, Paced;
    RunInv(setup, run, events, n);
    HistoriesAreReal(setup, run, events, n, id);
    var c := run[n].conns[id];
    assert ConnInv(c);
    InvSafe(c);
    SafePaced(c);
  }

  lemma SafePaced(c: Conn)
    requires Safe(c)
    ensures Paced(c.listener, c.received, c.sent)
  {
    hide Decode, Stream;
    if !Gated(c) {
      DoneMeans(c);
      if c.listener.Cygwin? {
        assert c.listener.nonce == c.received[..NONCE_LENGTH];
        assert c.sent[..NONCE_LENGTH + INFO_LENGTH][..NONCE_LENGTH] == c.listener.nonce;
      }
    }
  }

  lemma DoneMeans(c: Conn)
    requires HandshakeDone(c)
    ensures match c.listener
            case Direct => true
            case Libassuan(nonce) => |c.received| >= NONCE_LENGTH && c.received[..NONCE_LENGTH] == nonce
            case Cygwin(nonce) =>
              && |c.received| >= NONCE_LENGTH + INFO_LENGTH && c.received[..NONCE_LENGTH] == nonce
              && |c.sent| >= NONCE_LENGTH + INFO_LENGTH
              && c.sent[..NONCE_LENGTH + INFO_LENGTH] == nonce + SERVER_INFO
  {
    hide Follows, Output, InputSize;
    var input := c.received[..HandshakeInputSize(c.listener)];
    HandshakeMeaning(c.listener, input);
    if c.listener.Cygwin? {
      assert input[..NONCE_LENGTH] == c.received[..NONCE_LENGTH];
    }
  }

  /** In every run, an event ends a live connection exactly for one of the causes `Ends`
      lists; and a connection does not survive being accepted exactly if its first operation
      is refused. */
  lemma EndsOnlyFor(setup: Agent.Setup, run: seq<System>, events: seq<Event>, n: nat, id: nat)
    requires IsRun(setup, run, events) && n < |events| && id in run[n + 1].conns
    requires id in run[n].conns ==> run[n].conns[id].state != Destroyed
    ensures id in run[n].conns ==>
      && run[n].conns[id].exchange <= |Script(run[n].conns[id].listener)|
      && (run[n + 1].conns[id].state == Destroyed <==> Ends(run[n], events[n], id))
    ensures id !in run[n].conns ==>
      events[n].Connect? && (run[n + 1].conns[id].state == Destroyed <==> !events[n].ok)
  {
    hide Next, SystemInv, Ends, Script;
    assert StepAt(run, events, n);
    RunInv(setup, run, events, n);
    if id in run[n].conns {
      ExchangeBounded(run[n], id);
      NextTells(run[n], events[n], id);
    } else {
      NewConnTells(run[n], events[n], id);
    }
  }
}
