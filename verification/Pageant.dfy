/** The Pageant listener's rendezvous with the dispatcher. The window's thread puts one
    message on the air and waits; the dispatcher's worker calls back; Cancel may come at
    any time and the callback after it.

    Each critical section is one step. What the listener gives back to its client is held
    to be the answer to that client's own request. */
module Pageant {
  import opened Wrappers
  import opened Bytes
  import opened Frames
  import Agent

  const MAX_PAGEANT_MESSAGE_SIZE: nat := 8192

  /** A request is known by its number. `outstanding` are the messages the dispatcher holds;
      `answered` records its callbacks, `returned` what clients were given. */
  datatype Listener = Listener(
    setup: Agent.Setup,
    messageOnAir: bool,
    messageStatus: bool,
    cancelFlag: bool,
    current: Option<nat>,       // the request the window's thread waits for
    message: seq<uint8>,        // its envelope's data
    next: nat,
    outstanding: map<nat, seq<uint8>>,
    answered: map<nat, Option<seq<uint8>>>,
    returned: map<nat, Option<seq<uint8>>>)

  datatype Event =
    | Request(data: seq<uint8>)
    | Answer(id: nat, outcomes: seq<Agent.Outcome>)
    | Cancel
    | Wake

  function Fresh(setup: Agent.Setup): Listener {
    Listener(setup, false, false, false, None, [], 0, map[], map[], map[])
  }

  /** A request arrives while none is waiting, since one thread serves the window. */
  function Begin(l: Listener, data: seq<uint8>): Listener {
    if l.cancelFlag then l.(next := l.next + 1, returned := l.returned[l.next := None])
    else
      l.(messageOnAir := true, current := Some(l.next), message := data,
         next := l.next + 1, outstanding := l.outstanding[l.next := data])
  }

  /** The dispatcher answers in place and calls back. */
  function Reply(l: Listener, id: nat, outcomes: seq<Agent.Outcome>): Listener
    requires id in l.outstanding && |outcomes| == |l.setup.names|
  {
    var reply := Agent.Reply(l.setup, l.outstanding[id], outcomes);
    l.(messageOnAir := false, messageStatus := reply.Some?,
       message := if l.current == Some(id) && reply.Some? then reply.value else l.message,
       outstanding := l.outstanding - {id}, answered := l.answered[id := reply])
  }

  function Abort(l: Listener): Listener {
    l.(messageOnAir := false, messageStatus := false, cancelFlag := true)
  }

  /** What the client finds in its file mapping. */
  function Returned(status: bool, message: seq<uint8>): Option<seq<uint8>> {
    if status && |message| + HEADER_SIZE <= MAX_PAGEANT_MESSAGE_SIZE then Some(Frame(message)) else None
  }

  function Finish(l: Listener, id: nat): Listener {
    l.(current := None, returned := l.returned[id := Returned(l.messageStatus, l.message)])
  }

  ghost function Next(l: Listener, e: Event): Listener {
    match e
    case Request(data) => if l.current == None then Begin(l, data) else l
    case Answer(id, outcomes) =>
      if id in l.outstanding && Agent.Plausible(l.setup, outcomes) then Reply(l, id, outcomes) else l
    case Cancel => Abort(l)
    case Wake => if l.current.Some? && !l.messageOnAir then Finish(l, l.current.value) else l
  }

  ghost function Run(setup: Agent.Setup, events: seq<Event>): Listener {
    if events == [] then Fresh(setup) else Next(Run(setup, events[..|events| - 1]), events[|events| - 1])
  }

  // ---------------------------------------------------------------- the invariant

  function Framed(reply: Option<seq<uint8>>): Option<seq<uint8>> {
    if reply.Some? then Returned(true, reply.value) else None
  }

  /** What a client was given is its own request's answer, or nothing; and nothing only if
      that was the answer, or the listener was cancelled. */
  ghost predicate Faithful(l: Listener, id: nat)
    requires id in l.returned
  {
    || (id in l.answered && l.returned[id] == Framed(l.answered[id]))
    || (l.cancelFlag && l.returned[id] == None)
  }

  ghost predicate Rendezvous(l: Listener) {
    && (forall id :: id in l.outstanding || id in l.answered || id in l.returned ==> id < l.next)
    && (forall id :: id in l.outstanding ==> id !in l.answered && (l.cancelFlag || l.next == id + 1))
    && (forall i, j :: i in l.outstanding && j in l.outstanding ==> i == j)
    && (l.current == None && !l.cancelFlag ==> l.outstanding == map[])
    && match l.current
       case None => !l.messageOnAir
       case Some(id) =>
         && l.next == id + 1 && id !in l.returned && l.outstanding.Keys <= {id}
         && (l.messageOnAir ==> id in l.outstanding)
         && (!l.messageOnAir && !l.messageStatus ==>
               l.cancelFlag || (id in l.answered && l.answered[id] == None))
         && (!l.messageOnAir && l.messageStatus ==>
               id in l.answered && l.answered[id] == Some(l.message))
         && (!l.cancelFlag && !l.messageOnAir ==> l.outstanding == map[])
  }

  ghost predicate Inv(l: Listener) {
    Rendezvous(l) && forall id :: id in l.returned ==> Faithful(l, id)
  }

  lemma BeginInv(l: Listener, data: seq<uint8>)
    requires Inv(l) && l.current == None
    ensures Inv(Begin(l, data))
  {
    hide Framed;
    var d := Begin(l, data);
    forall id | id in d.returned ensures Faithful(d, id) {
      assert id != l.next ==> Faithful(l, id);
    }
  }

  lemma ReplyInv(l: Listener, id: nat, outcomes: seq<Agent.Outcome>)
    requires Inv(l) && id in l.outstanding && |outcomes| == |l.setup.names|
    ensures Inv(Reply(l, id, outcomes))
  {
    hide Framed, Agent.Reply;
    var d := Reply(l, id, outcomes);
    forall k | k in d.returned ensures Faithful(d, k) {
      assert Faithful(l, k);
    }
  }

  lemma FinishInv(l: Listener)
    requires Inv(l) && l.current.Some? && !l.messageOnAir
    ensures Inv(Finish(l, l.current.value))
  {
    var d := Finish(l, l.current.value);
    forall k | k in d.returned ensures Faithful(d, k) {
      assert k != l.current.value ==> Faithful(l, k);
    }
  }

  lemma AbortInv(l: Listener)
    requires Inv(l)
    ensures Inv(Abort(l))
  {
    hide Framed;
    forall k | k in l.returned ensures Faithful(Abort(l), k) {
      assert Faithful(l, k);
    }
  }

  lemma {:induction false} RunInv(setup: Agent.Setup, events: seq<Event>)
    ensures Inv(Run(setup, events)) && Run(setup, events).setup == setup
  {
    hide Inv, Begin, Reply, Abort, Finish, Agent.Plausible;
    if events == [] {
      FreshInv(setup);
    } else {
      var l, e := Run(setup, events[..|events| - 1]), events[|events| - 1];
      RunInv(setup, events[..|events| - 1]);
      NextInv(l, e);
    }
  }

  lemma NextInv(l: Listener, e: Event)
    requires Inv(l)
    ensures Inv(Next(l, e)) && Next(l, e).setup == l.setup
  {
    hide Inv, Agent.Reply;
    match e
    case Request(data) =>
      if l.current == None {
        BeginInv(l, data);
      }
    case Answer(id, outcomes) =>
      if id in l.outstanding && Agent.Plausible(l.setup, outcomes) {
        ReplyInv(l, id, outcomes);
      }
    case Cancel =>
      AbortInv(l);
    case Wake =>
      if l.current.Some? && !l.messageOnAir {
        FinishInv(l);
      }
  }

  lemma FreshInv(setup: Agent.Setup)
    ensures Inv(Fresh(setup))
  {
  }

  /** A client does not wait for ever: once its request is answered, or the listener is
      cancelled, the next wake-up gives it a result. */
  lemma WakesUp(l: Listener, e: Event)
    requires Inv(l) && l.current.Some?
    requires e == Cancel || (e.Answer? && e.id == l.current.value && e.id in l.outstanding && Agent.Plausible(l.setup, e.outcomes))
    ensures var d := Next(Next(l, e), Wake);
            d.current == None && l.current.value in d.returned
  {
    hide Agent.Reply, Agent.Plausible;
  }

  // ---------------------------------------------------------------- whose answer it is

  /** Event `i` is the arrival of request number `id`, which carries `data`. */
  ghost predicate AskedAt(setup: Agent.Setup, events: seq<Event>, i: nat, id: nat, data: seq<uint8>) {
    && i < |events| && events[i] == Request(data)
    && var l := Run(setup, events[..i]);
       l.next == id && l.current == None && !l.cancelFlag
  }

  /** Event `j` is the dispatcher's callback for it, after the agents behaved like `outcomes`. */
  ghost predicate AnsweredAt(setup: Agent.Setup, events: seq<Event>, j: nat, id: nat, outcomes: seq<Agent.Outcome>) {
    && j < |events| && events[j] == Answer(id, outcomes) && Agent.Plausible(setup, outcomes)
    && id in Run(setup, events[..j]).outstanding
  }

  ghost predicate Asked(setup: Agent.Setup, events: seq<Event>, id: nat, data: seq<uint8>) {
    exists i :: AskedAt(setup, events, i, id, data)
  }

  /** `reply` is what the dispatcher made of the data that request `id` came with. */
  ghost predicate AnswerOf(setup: Agent.Setup, events: seq<Event>, id: nat, reply: Option<seq<uint8>>) {
    exists j, data, outcomes ::
      && Asked(setup, events, id, data) && AnsweredAt(setup, events, j, id, outcomes)
      && reply == Agent.Reply(setup, data, outcomes)
  }

  lemma AskedStill(setup: Agent.Setup, events: seq<Event>, id: nat, data: seq<uint8>)
    requires events != [] && Asked(setup, events[..|events| - 1], id, data)
    ensures Asked(setup, events, id, data)
  {
    hide Run;
    var front := events[..|events| - 1];
    var i: nat :| AskedAt(setup, front, i, id, data);
    assert front[..i] == events[..i] && front[i] == events[i];
    assert AskedAt(setup, events, i, id, data);
  }

  lemma AnswerStill(setup: Agent.Setup, events: seq<Event>, id: nat, reply: Option<seq<uint8>>)
    requires events != [] && AnswerOf(setup, events[..|events| - 1], id, reply)
    ensures AnswerOf(setup, events, id, reply)
  {
    hide Run, Agent.Reply, Asked;
    var front := events[..|events| - 1];
    var j: nat, data, outcomes :|
      && Asked(setup, front, id, data) && AnsweredAt(setup, front, j, id, outcomes)
      && reply == Agent.Reply(setup, data, outcomes);
    AskedStill(setup, events, id, data);
    assert front[..j] == events[..j] && front[j] == events[j];
    assert AnsweredAt(setup, events, j, id, outcomes);
  }

  /** What the dispatcher holds is what clients asked, and what it answered is answers to that. */
  lemma {:induction false} WhoseAnswer(setup: Agent.Setup, events: seq<Event>, id: nat)
    ensures id in Run(setup, events).outstanding ==> Asked(setup, events, id, Run(setup, events).outstanding[id])
    ensures id in Run(setup, events).answered ==> AnswerOf(setup, events, id, Run(setup, events).answered[id])
  {
    hide Asked, AnswerOf, Agent.Reply, Agent.Plausible, Inv;
    if events != [] {
      var front, e := events[..|events| - 1], events[|events| - 1];
      var l, d := Run(setup, front), Run(setup, events);
      WhoseAnswer(setup, front, id);
      RunInv(setup, front);
      assert d == Next(l, e);
      if id in d.outstanding {
        if id in l.outstanding && d.outstanding[id] == l.outstanding[id] {
          AskedStill(setup, events, id, d.outstanding[id]);
        } else {
          NewlyAsked(setup, events, id);
        }
      }
      if id in d.answered {
        if id in l.answered && d.answered[id] == l.answered[id] {
          AnswerStill(setup, events, id, d.answered[id]);
        } else {
          AskedStill(setup, events, id, l.outstanding[id]);
          NewlyAnswered(setup, events, id);
        }
      }
    }
  }

  lemma NewlyAsked(setup: Agent.Setup, events: seq<Event>, id: nat)
    requires events != []
    requires var l, d := Run(setup, events[..|events| - 1]), Run(setup, events);
             id in d.outstanding && !(id in l.outstanding && d.outstanding[id] == l.outstanding[id])
    ensures Asked(setup, events, id, Run(setup, events).outstanding[id])
  {
    hide Agent.Reply, Agent.Plausible;
    assert AskedAt(setup, events, |events| - 1, id, Run(setup, events).outstanding[id]);
  }

  lemma NewlyAnswered(setup: Agent.Setup, events: seq<Event>, id: nat)
    requires events != []
    requires var l, d := Run(setup, events[..|events| - 1]), Run(setup, events);
             && l.setup == setup && id in d.answered && !(id in l.answered && d.answered[id] == l.answered[id])
             && id in l.outstanding && Asked(setup, events, id, l.outstanding[id])
    ensures AnswerOf(setup, events, id, Run(setup, events).answered[id])
  {
    hide Agent.Reply, Agent.Plausible, Asked;
    assert AnsweredAt(setup, events, |events| - 1, id, events[|events| - 1].outcomes);
  }

  /** In every run: a client that is given a reply is given, framed and within the size limit,
      what the dispatcher made of the very data this client asked with; and as long as the
      listener has not been cancelled, a client is given a reply exactly when the dispatcher
      answered its request with one that fits. */
  lemma ReplyIsOwn(setup: Agent.Setup, events: seq<Event>, id: nat)
    requires id in Run(setup, events).returned
    ensures var l := Run(setup, events);
            && (l.returned[id].Some? ==>
                  && id in l.answered && l.answered[id].Some?
                  && AnswerOf(setup, events, id, l.answered[id])
                  && l.returned[id].value == Frame(l.answered[id].value)
                  && |l.returned[id].value| <= MAX_PAGEANT_MESSAGE_SIZE)
            && (!l.cancelFlag ==>
                  && id in l.answered && AnswerOf(setup, events, id, l.answered[id])
                  && (l.returned[id].Some? <==>
                        l.answered[id].Some? && |l.answered[id].value| + HEADER_SIZE <= MAX_PAGEANT_MESSAGE_SIZE))
  {
    hide Be32, Wrap32, Run, Rendezvous, AnswerOf, Asked;
    RunInv(setup, events);
    assert Faithful(Run(setup, events), id);
    WhoseAnswer(setup, events, id);
  }

  /** No request is answered to two clients: a number is given to one request only. */
  lemma AskedOnce(setup: Agent.Setup, events: seq<Event>, i: nat, j: nat, id: nat, data: seq<uint8>, data': seq<uint8>)
    requires AskedAt(setup, events, i, id, data) && AskedAt(setup, events, j, id, data')
    ensures i == j && data == data'
  {
    hide Run;
    if i < j {
      NumbersGrow(setup, events, i, j);
      assert false;
    } else if j < i {
      NumbersGrow(setup, events, j, i);
      assert false;
    }
  }

  lemma {:induction false} NumbersGrow(setup: Agent.Setup, events: seq<Event>, i: nat, j: nat)
    requires i < j <= |events| && events[i].Request? && Run(setup, events[..i]).current == None
    ensures Run(setup, events[..i]).next < Run(setup, events[..j]).next
    decreases j
  {
    hide Agent.Reply, Agent.Plausible;
    assert events[..j][..j - 1] == events[..j - 1] && events[..j][j - 1] == events[j - 1];
    if i < j - 1 {
      NumbersGrow(setup, events, i, j - 1);
    }
  }

  /** There is never more than one message in the dispatcher; before a cancellation it is
      the one the window's thread waits for, and it is on the air. */
  lemma OneOnAir(setup: Agent.Setup, events: seq<Event>, i: nat, j: nat)
    requires i in Run(setup, events).outstanding && j in Run(setup, events).outstanding
    ensures i == j
    ensures var l := Run(setup, events);
            !l.cancelFlag ==> l.current == Some(i) && l.messageOnAir
  {
    hide Run, Faithful;
    RunInv(setup, events);
  }

  // ---------------------------------------------------------------- the class

  class PageantListener {
    var cancelFlag: bool
    var messageOnAir: bool
    var messageStatus: bool

    constructor ()
      ensures !cancelFlag && !messageOnAir && !messageStatus
    {
      cancelFlag, messageOnAir, messageStatus := false, false, false;
    }

    /** The fields are those of `l`. */
    ghost predicate Shows(l: Listener)
      reads this
    {
      cancelFlag == l.cancelFlag && messageOnAir == l.messageOnAir && messageStatus == l.messageStatus
    }

    /** Takes a request out of the client's file mapping, which holds all of it, and posts
        it; `posted` is whether it did. */
    method BeginRequest(mapping: seq<uint8>, ghost l: Listener) returns (posted: bool, message: seq<uint8>)
      requires Shows(l) && Inv(l) && l.current == None
      requires |mapping| >= HEADER_SIZE && HEADER_SIZE + FromBe32(mapping[..HEADER_SIZE]) <= |mapping|
      modifies this
      ensures Frame(message) <= mapping
      ensures Shows(Begin(l, message)) && posted == (Begin(l, message).current == Some(l.next))
    {
      hide Be32, FromBe32;
      var length := FromBe32(mapping[..HEADER_SIZE]);
      Be32OfFromBe32(mapping[..HEADER_SIZE]);
      message := mapping[HEADER_SIZE..HEADER_SIZE + length];
      posted := false;
      if cancelFlag {
        return;
      }
      assert !messageOnAir;
      messageOnAir := true;
      posted := true;
    }

    method ReplyCallback(status: bool, ghost l: Listener, ghost id: nat, ghost outcomes: seq<Agent.Outcome>)
      requires Shows(l) && Inv(l) && id in l.outstanding && |outcomes| == |l.setup.names|
      requires status == Agent.Reply(l.setup, l.outstanding[id], outcomes).Some?
      modifies this
      ensures Shows(Reply(l, id, outcomes))
    {
      messageOnAir := false;
      messageStatus := status;
    }

    method Cancel(ghost l: Listener)
      requires Shows(l)
      modifies this
      ensures Shows(Abort(l))
    {
      messageOnAir := false;
      messageStatus := false;
      cancelFlag := true;
    }

    /** After the wait: what is copied into the file mapping, if anything. */
    method FinishRequest(message: seq<uint8>, ghost l: Listener) returns (mapped: Option<seq<uint8>>)
      requires Shows(l) && Inv(l) && l.current.Some? && !messageOnAir && message == l.message
      requires |message| < WORD32
      ensures mapped == Finish(l, l.current.value).returned[l.current.value]
    {
      hide Rendezvous, Faithful, Be32;
      if !messageStatus {
        return None;
      }
      if |message| + HEADER_SIZE > MAX_PAGEANT_MESSAGE_SIZE {
        return None;
      }
      mapped := Some(Be32(|message|) + message);
    }
  }
}
