/** One proxied connection as a machine on values: what each I/O completion does to it,
    and what it has read, written, delivered and been answered so far.

    The machine keeps no buffer and no offsets. The bytes of a reply still to be written
    are a sequence, the bytes of a message still to be read a number; the class in
    module Proxy implements this machine with the source's buffer and counters. */
module Connection {
  import opened Bytes
  import opened Frames
  import opened Handshake

  const MAX_BUFFER_SIZE: nat := 4 * 1024

  datatype State =
    | Initialized | Handshaking | Ready | ReadHeader | ReadBody | WaitReply | WriteReply | Destroyed

  datatype Conn = Conn(
    listener: Listener,
    state: State,
    exchange: nat,              // handshake exchanges started
    message: seq<uint8>,        // the message being read, or the reply being written
    need: nat,                  // bytes of the message still to be read
    unsent: seq<uint8>,         // bytes of the reply not yet given to a write
    io: Io,                     // the outstanding operation
    received: seq<uint8>,       // every byte read from the peer
    sent: seq<uint8>,           // every byte given to a write
    delivered: seq<seq<uint8>>, // messages handed to the dispatcher
    replies: seq<seq<uint8>>)   // replies whose writing has begun

  function Accept(listener: Listener): Conn {
    Conn(listener, Handshaking, 0, [], 0, [], Idle, [], [], [], [])
  }

  function Dispose(c: Conn): Conn {
    if c.state == Destroyed then c else c.(state := Destroyed, io := Idle, need := 0, unsent := [])
  }

  /** Starts an operation; `ok` is whether the system accepts it. */
  function Issue(c: Conn, io: Io, ok: bool): Conn {
    if !ok then Dispose(c)
    else c.(io := io, sent := c.sent + if io.Writing? then io.chunk else [])
  }

  function AwaitHeader(c: Conn, ok: bool): Conn {
    Issue(c.(state := ReadHeader, need := 0, message := []), Reading(HEADER_SIZE), ok)
  }

  function ContinueHandshake(c: Conn, moved: seq<uint8>, ok: bool): Conn
    requires c.exchange <= |Script(c.listener)|
  {
    var script := Script(c.listener);
    var c' := c.(io := Idle, received := c.received + if c.io.Reading? then moved else []);
    if c.exchange > 0 && !script[c.exchange - 1].SatisfiedBy(moved) then Dispose(c')
    else if c.exchange == |script| then AwaitHeader(c', ok)
    else Issue(c'.(exchange := c.exchange + 1), script[c.exchange].Operation(), ok)
  }

  function TakeHeader(c: Conn, moved: seq<uint8>, ok: bool): Conn {
    var c' := c.(state := ReadBody, io := Idle, received := c.received + moved);
    if |moved| != HEADER_SIZE then Dispose(c')
    else
      var n := FromBe32(moved);
      if n > MAX_MESSAGE_SIZE then Dispose(c')
      else Issue(c'.(need := n), Reading(Min(MAX_BUFFER_SIZE, n)), ok)
  }

  function TakeBody(c: Conn, moved: seq<uint8>, ok: bool): Conn {
    var c' := c.(io := Idle, received := c.received + moved);
    if |moved| > c.need then Dispose(c')
    else
      var c'' := c'.(message := c.message + moved, need := c.need - |moved|);
      if c''.need > 0 then Issue(c'', Reading(Min(MAX_BUFFER_SIZE, c''.need)), ok)
      else c''.(state := WaitReply, delivered := c.delivered + [c''.message])
  }

  /** Hands the next chunk of the reply to a write. */
  function WriteChunk(c: Conn, ok: bool): Conn {
    var n := Min(MAX_BUFFER_SIZE, |c.unsent|);
    Issue(c.(unsent := c.unsent[n..]), Writing(c.unsent[..n]), ok)
  }

  function BeginReply(c: Conn, ok: bool): Conn {
    WriteChunk(c.(state := WriteReply, unsent := Frame(c.message), replies := c.replies + [c.message]), ok)
  }

  /** The step taken when the outstanding operation has moved the bytes `moved`, or when
      the dispatcher has answered (`moved` is then empty). `ok` is whether the system
      accepts the operation this step starts. */
  function DoIoCompletion(c: Conn, moved: seq<uint8>, ok: bool): Conn
    requires c.exchange <= |Script(c.listener)|
  {
    match c.state
    case Handshaking => ContinueHandshake(c, moved, ok)
    case Ready => AwaitHeader(c, ok)
    case ReadHeader => TakeHeader(c, moved, ok)
    case ReadBody => TakeBody(c, moved, ok)
    case WaitReply => BeginReply(c, ok)
    case WriteReply => if c.unsent != [] then WriteChunk(c, ok) else AwaitHeader(c.(io := Idle), ok)
    case Initialized => Dispose(c)
    case Destroyed => Dispose(c)
  }

  /** Whether a step handed a message to the dispatcher. */
  predicate Emits(c: Conn, c': Conn) {
    c.state == ReadBody && c'.state == WaitReply
  }

  /** What the operating system may report for the outstanding operation: a read moves
      at most what it asked for; so does a write, and a write of reply bytes moves
      everything. */
  predicate Possible(c: Conn, moved: seq<uint8>) {
    match c.io
    case Idle => false
    case Reading(want) => |moved| <= want
    case Writing(chunk) => |moved| <= |chunk| && (c.state == WriteReply ==> |moved| == |chunk|)
  }

  // ---------------------------------------------------------------- the specification

  /** The bytes read and written after the handshake. */
  ghost function Requests(c: Conn): seq<uint8> {
    c.received[Min(HandshakeInputSize(c.listener), |c.received|)..]
  }

  ghost function Written(c: Conn): seq<uint8> {
    c.sent[Min(|HandshakeOutput(c.listener)|, |c.sent|)..]
  }

  ghost predicate Gated(c: Conn) {
    && c.delivered == [] && c.replies == []
    && c.sent <= HandshakeOutput(c.listener) && |c.received| <= HandshakeInputSize(c.listener)
    && Paced(c.listener, c.received, c.sent)
  }

  ghost predicate HandshakeDone(c: Conn) {
    && HandshakeInputSize(c.listener) <= |c.received|
    && |HandshakeOutput(c.listener)| <= |c.sent|
    && HandshakeInput(c.listener, c.received[..HandshakeInputSize(c.listener)])
    && c.sent[..|HandshakeOutput(c.listener)|] == HandshakeOutput(c.listener)
  }

  /** The message still to be delivered when the input ends in the header of an empty one:
      the source reads a body of zero bytes before it delivers it. */
  ghost function Lag(c: Conn): seq<seq<uint8>> {
    if Requests(c) == Stream(c.delivered) + Be32(0) then [[]] else []
  }

  /** What holds of a connection at every moment of every run.

      Either its handshake is not over, and then nothing was delivered or answered; or
      the handshake went as scripted, and then the messages delivered, and an empty one
      that may lag behind, are those the remaining input carries, and what was written
      after the handshake is a prefix of the framed replies, with at most one message
      unanswered. */
  ghost predicate Safe(c: Conn) {
    Gated(c)
    ||
    (&& HandshakeDone(c)
     && Decode(Requests(c)) == c.delivered + Lag(c)
     && Written(c) <= Stream(c.replies)
     && |c.replies| <= |c.delivered| <= |c.replies| + 1)
  }

  // ---------------------------------------------------------------- the invariant

  ghost predicate Settled(c: Conn, tail: seq<uint8>) {
    && HandshakeDone(c)
    && AllWithinLimit(c.delivered)
    && Requests(c) == Stream(c.delivered) + tail
    && Written(c) + c.unsent == Stream(c.replies)
  }

  ghost predicate Inv(c: Conn) {
    var script := Script(c.listener);
    && c.exchange <= |script|
    && match c.state
       case Handshaking =>
         && c.delivered == [] && c.replies == [] && c.unsent == []
         && c.sent == Output(script, c.exchange)
         && (if c.exchange == 0 then c.received == [] && c.io == Idle
             else c.io == script[c.exchange - 1].Operation() && Follows(script, c.exchange - 1, c.received))
       case ReadHeader =>
         && Settled(c, []) && c.unsent == [] && |c.replies| == |c.delivered|
         && c.io == Reading(HEADER_SIZE) && c.message == []
       case ReadBody =>
         && |c.message| + c.need <= MAX_MESSAGE_SIZE && (c.need == 0 ==> c.message == [])
         && Settled(c, Be32(|c.message| + c.need) + c.message)
         && c.unsent == [] && |c.replies| == |c.delivered|
         && c.io == Reading(Min(MAX_BUFFER_SIZE, c.need))
       case WaitReply =>
         && Settled(c, []) && c.unsent == [] && |c.delivered| == |c.replies| + 1
         && c.io == Idle
       case WriteReply =>
         && Settled(c, []) && |c.replies| == |c.delivered|
         && c.io.Writing?
       case Destroyed => c.io == Idle && Safe(c)
       case Initialized => false
       case Ready => false
  }

  lemma AcceptInv(listener: Listener)
    ensures Inv(Accept(listener))
  {
  }

  /** No complete frame, or just an empty message. */
  ghost predicate Unfinished(tail: seq<uint8>) {
    Decode(tail) == if tail == Be32(0) then [[]] else []
  }

  lemma SettledSafe(c: Conn, tail: seq<uint8>)
    requires Settled(c, tail) && Unfinished(tail)
    requires |c.replies| <= |c.delivered| <= |c.replies| + 1
    ensures Safe(c)
  {
    hide Decode, Stream, AllWithinLimit, HandshakeDone, Requests, Written, Be32;
    DecodeStream(c.delivered, tail);
    SameTail(Stream(c.delivered), tail, Be32(0));
  }

  lemma SameTail(s: seq<uint8>, t: seq<uint8>, u: seq<uint8>)
    ensures s + t == s + u <==> t == u
  {
    assert t == (s + t)[|s|..] && u == (s + u)[|s|..];
  }

  lemma ShortIsUnfinished(tail: seq<uint8>)
    requires |tail| < HEADER_SIZE
    ensures Unfinished(tail)
  {
  }

  lemma BodyIsUnfinished(n: uint32, body: seq<uint8>)
    requires |body| < n || body == []
    ensures Unfinished(Be32(n) + body)
  {
    hide Be32, FromBe32;
    var s := Be32(n) + body;
    assert s[..HEADER_SIZE] == Be32(n);
    FromBe32OfBe32(n);
    NoOtherHeader(n, body);
    if n == 0 {
      assert s == Be32(0) && s[HEADER_SIZE..HEADER_SIZE + n] == [];
      assert Decode(s) == [[]] + Decode(s[HEADER_SIZE + n..]);
    }
  }

  // ---------------------------------------------------------------- steps keep the invariant

  lemma EarlyIsGated(c: Conn)
    requires Inv(c) && c.state == Handshaking
    ensures Gated(c)
  {
    hide Paced, Follows;
    OutputPrefix(Script(c.listener), c.exchange);
    if c.exchange > 0 {
      FollowsSize(Script(c.listener), c.exchange - 1, c.received);
      InputSizeGrows(Script(c.listener), c.exchange - 1);
      PacedDuring(c.listener, c.exchange - 1, c.received, []);
      assert c.received + [] == c.received;
    } else {
      PacedAtFirst(c.listener);
    }
  }

  /** Every state of the machine is safe. */
  lemma InvSafe(c: Conn)
    requires Inv(c)
    ensures Safe(c)
  {
    hide Decode, Stream, Frame;
    match c.state
    case Handshaking =>
      EarlyIsGated(c);
    case ReadHeader =>
      ShortIsUnfinished([]);
      SettledSafe(c, []);
    case ReadBody =>
      BodyIsUnfinished(|c.message| + c.need, c.message);
      SettledSafe(c, Be32(|c.message| + c.need) + c.message);
    case WaitReply =>
      ShortIsUnfinished([]);
      SettledSafe(c, []);
    case WriteReply =>
      ShortIsUnfinished([]);
      SettledSafe(c, []);
    case Destroyed =>
  }

  /** Losing the connection, at any moment, keeps it safe. */
  lemma DisposeInv(c: Conn)
    requires Inv(c)
    ensures Inv(Dispose(c))
  {
    hide Decode, Stream, Frame;
    InvSafe(c);
    SafeIgnoresState(c, Dispose(c));
  }

  /** Both halves of `Safe` at once: what was delivered is what the input carries, and what
      was written is a prefix of the framed replies, whether or not the handshake is over. */
  lemma SafeMeans(c: Conn)
    requires Safe(c)
    ensures c.delivered == [] || HandshakeDone(c)
    ensures Decode(Requests(c)) == c.delivered + Lag(c)
    ensures c.sent <= HandshakeOutput(c.listener) || HandshakeOutput(c.listener) <= c.sent
    ensures Written(c) <= Stream(c.replies) && |c.replies| <= |c.delivered| <= |c.replies| + 1
  {
    hide HandshakeInput, HandshakeInputSize, HandshakeOutput;
    if Gated(c) {
      assert Requests(c) == [] && Written(c) == [];
    }
  }

  /** As long as a connection is not lost, a message lags behind exactly while its body of
      zero bytes is being read. */
  lemma LagMeans(c: Conn)
    requires Inv(c) && c.state != Destroyed
    ensures Lag(c) == if c.state == ReadBody && c.need == 0 then [[]] else []
  {
    hide Decode, Stream, AllWithinLimit, Written, Be32, HandshakeDone, Follows, Output, Script;
    match c.state
    case Handshaking =>
      EarlyIsGated(c);
      assert Requests(c) == [];
    case ReadBody =>
      var n := |c.message| + c.need;
      SameTail(Stream(c.delivered), Be32(n) + c.message, Be32(0));
      NoOtherHeader(n, c.message);
    case ReadHeader | WaitReply | WriteReply =>
      SameTail(Stream(c.delivered), [], Be32(0));
  }

  lemma NoOtherHeader(n: uint32, body: seq<uint8>)
    ensures Be32(n) + body == Be32(0) <==> n == 0 && body == []
  {
    hide Be32, FromBe32;
    FromBe32OfBe32(n);
    FromBe32OfBe32(0);
    assert (Be32(n) + body)[..HEADER_SIZE] == Be32(n);
    assert Be32(0)[..HEADER_SIZE] == Be32(0);
  }

  lemma SafeIgnoresState(c: Conn, d: Conn)
    requires Safe(c)
    requires c.listener == d.listener && c.received == d.received && c.sent == d.sent
    requires c.delivered == d.delivered && c.replies == d.replies
    ensures Safe(d)
  {
  }

  lemma MoreReceived(c: Conn, d: Conn, moved: seq<uint8>)
    requires HandshakeDone(c)
    requires d.listener == c.listener && d.received == c.received + moved && d.sent == c.sent
    ensures HandshakeDone(d) && Requests(d) == Requests(c) + moved && Written(d) == Written(c)
  {
    hide HandshakeInput, HandshakeInputSize, HandshakeOutput;
    var n := HandshakeInputSize(c.listener);
    assert d.received[..n] == c.received[..n];
  }

  lemma MoreSent(c: Conn, d: Conn, chunk: seq<uint8>)
    requires HandshakeDone(c)
    requires d.listener == c.listener && d.received == c.received && d.sent == c.sent + chunk
    ensures HandshakeDone(d) && Requests(d) == Requests(c) && Written(d) == Written(c) + chunk
  {
    hide HandshakeInput, HandshakeInputSize, HandshakeOutput;
    var n := |HandshakeOutput(c.listener)|;
    assert d.sent[..n] == c.sent[..n];
  }

  lemma AwaitHeaderInv(c: Conn, ok: bool)
    requires c.exchange <= |Script(c.listener)|
    requires Settled(c, []) && c.unsent == [] && |c.replies| == |c.delivered|
    requires c.state != Destroyed
    ensures Inv(AwaitHeader(c, ok))
  {
    hide Decode, Stream, HandshakeInput, HandshakeInputSize, HandshakeOutput, AllWithinLimit;
    var d := AwaitHeader(c, true);
    MoreSent(c, d, []);
    assert Inv(d);
    DisposeInv(d);
    DisposeIssue(c.(state := ReadHeader, need := 0, message := []), Reading(HEADER_SIZE), ok);
  }

  /** A refused operation and a lost connection leave the same thing behind, when the
      operation is a read. */
  lemma DisposeIssue(c: Conn, io: Io, ok: bool)
    requires c.state != Destroyed && !io.Writing?
    ensures Issue(c, io, ok) == if ok then Issue(c, io, true) else Dispose(Issue(c, io, true))
  {
    assert c.sent + [] == c.sent;
  }

  /** The connection once the completion of a handshake operation has been recorded. */
  function Recorded(c: Conn, moved: seq<uint8>): Conn {
    c.(io := Idle, received := c.received + if c.io.Reading? then moved else [])
  }

  lemma HandshakeInv(c: Conn, moved: seq<uint8>, ok: bool)
    requires Inv(c) && c.state == Handshaking
    requires if c.exchange == 0 then moved == [] else Possible(c, moved)
    ensures Inv(ContinueHandshake(c, moved, ok))
  {
    hide Decode, Stream, AllWithinLimit, AwaitHeader, Settled, HandshakeDone, Issue, Follows, Output, Paced;
    var script, k := Script(c.listener), c.exchange;
    var c' := Recorded(c, moved);
    OutputPrefix(script, k);
    if k > 0 && !script[k - 1].SatisfiedBy(moved) {
      NotTooMuch(c, moved);
      PacedDuring(c.listener, k - 1, c.received, if c.io.Reading? then moved else []);
      assert Gated(Dispose(c'));
    } else {
      FollowsSoFar(c, moved);
      if k == |script| {
        FollowsSize(script, k, c'.received);
        NothingYet(c');
        AwaitHeaderInv(c', ok);
      } else {
        NextExchangeInv(c', ok);
      }
    }
  }

  lemma NotTooMuch(c: Conn, moved: seq<uint8>)
    requires Inv(c) && c.state == Handshaking && c.exchange > 0 && Possible(c, moved)
    ensures |Recorded(c, moved).received| <= HandshakeInputSize(c.listener)
  {
    hide Output, HandshakeDone, Follows;
    FollowsSize(Script(c.listener), c.exchange - 1, c.received);
    InputSizeGrows(Script(c.listener), c.exchange);
  }

  lemma FollowsSoFar(c: Conn, moved: seq<uint8>)
    requires Inv(c) && c.state == Handshaking
    requires if c.exchange == 0 then moved == [] else Script(c.listener)[c.exchange - 1].SatisfiedBy(moved)
    ensures Follows(Script(c.listener), c.exchange, Recorded(c, moved).received)
  {
    hide Output;
    var script := Script(c.listener);
    if c.exchange > 0 {
      FollowsOneMore(script, c.exchange - 1, c.received, moved);
    }
  }

  lemma NextExchangeInv(c: Conn, ok: bool)
    requires c.exchange < |Script(c.listener)|
    requires c.delivered == [] && c.replies == [] && c.unsent == [] && c.state == Handshaking
    requires c.sent == Output(Script(c.listener), c.exchange) && Follows(Script(c.listener), c.exchange, c.received)
    ensures Inv(Issue(c.(exchange := c.exchange + 1), Script(c.listener)[c.exchange].Operation(), ok))
  {
    hide Script, Follows, HandshakeDone, Decode, Stream, Paced;
    var script, k := Script(c.listener), c.exchange;
    OutputPrefix(script, k);
    assert Output(script, k + 1) == Output(script, k) + script[k].Output();
    if !ok {
      FollowsSize(script, k, c.received);
      InputSizeGrows(script, k);
      PacedBetween(c.listener, k, c.received);
      assert Gated(Issue(c.(exchange := k + 1), script[k].Operation(), ok));
    }
  }

  lemma NothingYet(c: Conn)
    requires HandshakeInput(c.listener, c.received)
    requires HandshakeInputSize(c.listener) == |c.received|
    requires c.sent == HandshakeOutput(c.listener)
    requires c.delivered == [] && c.replies == [] && c.unsent == []
    ensures Settled(c, [])
  {
    assert c.received[..HandshakeInputSize(c.listener)] == c.received;
    assert c.sent[..|c.sent|] == c.sent;
  }

  lemma TakeHeaderInv(c: Conn, moved: seq<uint8>, ok: bool)
    requires Inv(c) && c.state == ReadHeader && Possible(c, moved)
    ensures Inv(TakeHeader(c, moved, ok))
  {
    hide Decode, Stream, HandshakeInput, HandshakeInputSize, HandshakeOutput, Be32, FromBe32, Safe;
    var c' := c.(state := ReadBody, io := Idle, received := c.received + moved);
    MoreReceived(c, c', moved);
    assert Settled(c', moved);
    if |moved| < HEADER_SIZE {
      ShortIsUnfinished(moved);
      SettledSafe(c', moved);
      SafeIgnoresState(c', Dispose(c'));
    } else {
      var n := FromBe32(moved);
      Be32OfFromBe32(moved);
      assert Be32(n) + [] == moved;
      BodyIsUnfinished(n, []);
      SettledSafe(c', moved);
      SafeIgnoresState(c', TakeHeader(c, moved, ok));
      if n <= MAX_MESSAGE_SIZE && ok {
        MoreSent(c', TakeHeader(c, moved, ok), []);
      }
    }
  }

  /** The connection once the bytes of a body read have been recorded. */
  function WithBody(c: Conn, moved: seq<uint8>): Conn
    requires |moved| <= c.need
  {
    c.(io := Idle, received := c.received + moved, message := c.message + moved, need := c.need - |moved|)
  }

  lemma TakeBodyInv(c: Conn, moved: seq<uint8>, ok: bool)
    requires Inv(c) && c.state == ReadBody && Possible(c, moved)
    ensures Inv(TakeBody(c, moved, ok))
  {
    hide Decode, Stream, HandshakeInput, HandshakeInputSize, HandshakeOutput, Be32, FromBe32, Safe, AllWithinLimit,
      HandshakeDone, Requests, Written;
    var n := |c.message| + c.need;
    var c' := WithBody(c, moved);
    MoreReceived(c, c', moved);
    assert Be32(n) + c.message + moved == Be32(n) + c'.message;
    assert Requests(c') == Stream(c.delivered) + (Be32(n) + c'.message);
    if c'.need > 0 {
      MoreBodyInv(c', ok);
    } else {
      WholeBodyInv(c');
      assert TakeBody(c, moved, ok) == c'.(state := WaitReply, delivered := c.delivered + [c'.message]);
    }
  }

  lemma MoreBodyInv(c: Conn, ok: bool)
    requires c.exchange <= |Script(c.listener)| && c.state == ReadBody && c.need > 0
    requires |c.message| + c.need <= MAX_MESSAGE_SIZE && |c.replies| == |c.delivered| && c.unsent == []
    requires Settled(c, Be32(|c.message| + c.need) + c.message)
    ensures Inv(Issue(c, Reading(Min(MAX_BUFFER_SIZE, c.need)), ok))
  {
    hide Decode, Stream, HandshakeInput, HandshakeInputSize, HandshakeOutput, Be32, FromBe32, Safe, AllWithinLimit,
      HandshakeDone, Requests, Written;
    var d := Issue(c, Reading(Min(MAX_BUFFER_SIZE, c.need)), ok);
    if ok {
      MoreSent(c, d, []);
    } else {
      BodyIsUnfinished(|c.message| + c.need, c.message);
      SettledSafe(c, Be32(|c.message| + c.need) + c.message);
      SafeIgnoresState(c, d);
    }
  }

  lemma WholeBodyInv(c: Conn)
    requires c.exchange <= |Script(c.listener)| && c.io == Idle
    requires |c.message| <= MAX_MESSAGE_SIZE && |c.replies| == |c.delivered| && c.unsent == []
    requires Settled(c, Be32(|c.message|) + c.message)
    ensures Inv(c.(state := WaitReply, delivered := c.delivered + [c.message]))
  {
    hide Decode, Stream, HandshakeInput, HandshakeInputSize, HandshakeOutput, Be32, Wrap32, Safe;
    WrapSmall(|c.message|);
    assert Be32(|c.message|) + c.message == Frame(c.message);
    StreamAppend(c.delivered, c.message);
    var d := c.(state := WaitReply, delivered := c.delivered + [c.message]);
    assert Requests(d) == Requests(c) == Stream(d.delivered) + [];
  }

  lemma WrapSmall(n: nat)
    requires n < WORD32
    ensures Wrap32(n) == n
  {
  }

  lemma WriteChunkInv(c: Conn, ok: bool)
    requires c.exchange <= |Script(c.listener)|
    requires c.state == WriteReply && Settled(c, []) && |c.replies| == |c.delivered|
    ensures Inv(WriteChunk(c, ok))
  {
    hide Decode, Stream, HandshakeInput, HandshakeInputSize, HandshakeOutput, AllWithinLimit, Safe;
    var n := Min(MAX_BUFFER_SIZE, |c.unsent|);
    var d := WriteChunk(c, ok);
    if ok {
      MoreSent(c, d, c.unsent[..n]);
      assert c.unsent == c.unsent[..n] + c.unsent[n..];
      assert Written(d) + d.unsent == Written(c) + c.unsent;
    } else {
      ShortIsUnfinished([]);
      SettledSafe(c, []);
      SafeIgnoresState(c, d);
    }
  }

  lemma BeginReplyInv(c: Conn, ok: bool)
    requires Inv(c) && c.state == WaitReply
    ensures Inv(BeginReply(c, ok))
  {
    hide Decode, Stream, HandshakeInput, HandshakeInputSize, HandshakeOutput, AllWithinLimit, Frame, Safe;
    var d := c.(state := WriteReply, unsent := Frame(c.message), replies := c.replies + [c.message]);
    StreamAppend(c.replies, c.message);
    MoreSent(c, d, []);
    assert Written(d) + d.unsent == Written(c) + Frame(c.message);
    WriteChunkInv(d, ok);
  }

  /** The invariant survives every step the environment can cause: a completion of the
      outstanding operation, the first step of a new connection, an answer to a waiting
      connection, and anything that comes too late. */
  lemma StepInv(c: Conn, moved: seq<uint8>, ok: bool)
    requires Inv(c)
    requires Possible(c, moved)
      || (moved == [] && (c.state == WaitReply || c.state == Destroyed || (c.state == Handshaking && c.exchange == 0)))
    ensures Inv(DoIoCompletion(c, moved, ok))
  {
    hide Follows, Output, Script;
    hide Settled, Safe, ContinueHandshake, TakeHeader, TakeBody, BeginReply, WriteChunk, AwaitHeader;
    match c.state
    case Handshaking =>
      HandshakeInv(c, moved, ok);
    case ReadHeader =>
      TakeHeaderInv(c, moved, ok);
    case ReadBody =>
      TakeBodyInv(c, moved, ok);
    case WaitReply =>
      BeginReplyInv(c, ok);
    case WriteReply =>
      if c.unsent != [] {
        WriteChunkInv(c, ok);
      } else {
        SettledIgnoresIo(c, c.(io := Idle));
        AwaitHeaderInv(c.(io := Idle), ok);
      }
    case Destroyed =>
  }

  lemma SettledIgnoresIo(c: Conn, d: Conn)
    requires Settled(c, []) && d == c.(io := Idle)
    ensures Settled(d, [])
  {
  }

  /** What a step does to the messages delivered and the replies begun. */
  lemma StepEffect(c: Conn, moved: seq<uint8>, ok: bool)
    requires Inv(c)
    ensures var d := DoIoCompletion(c, moved, ok);
            && d.listener == c.listener
            && (c.state == Destroyed ==> d == c)
            && (c.state == WaitReply ==> d.state == WriteReply || d.state == Destroyed)
            && d.replies == c.replies + (if c.state == WaitReply then [c.message] else [])
            && d.delivered == c.delivered + (if Emits(c, d) then [d.message] else [])
            && (d.state == WaitReply ==> Emits(c, d))
  {
    hide Settled, Safe, Frame, Script, Follows, Output, FromBe32;
    var none: seq<seq<uint8>> := [];
    assert c.replies + none == c.replies && c.delivered + none == c.delivered;
  }

  // ---------------------------------------------------------------- what a step reads, writes and ends

  /** What a connection has received grows by what a read has moved, and by nothing else. */
  lemma StepHears(c: Conn, moved: seq<uint8>, ok: bool)
    requires Inv(c)
    requires Possible(c, moved)
      || (moved == [] && (c.state == WaitReply || c.state == Destroyed || (c.state == Handshaking && c.exchange == 0)))
    ensures DoIoCompletion(c, moved, ok).received == c.received + if c.io.Reading? then moved else []
  {
    hide Settled, Safe, Frame, Script, Follows, Output, FromBe32;
    var none: seq<uint8> := [];
    assert c.received + none == c.received;
  }

  /** What it has sent grows by the chunk of the write a step issues. */
  lemma StepTells(c: Conn, moved: seq<uint8>, ok: bool)
    requires Inv(c)
    ensures var d := DoIoCompletion(c, moved, ok);
            d.sent == c.sent + if d.io.Writing? then d.io.chunk else []
  {
    hide Settled, Safe, Frame, Script, Follows, Output, FromBe32;
    var none: seq<uint8> := [];
    assert c.sent + none == c.sent;
  }

  /** Why a step ends a live connection: the handshake got something else than it expected,
      a header is not four bytes or announces more than 262144 bytes, or the system refuses
      the operation that is due. A complete message makes no operation due. */
  ghost predicate Fatal(c: Conn, moved: seq<uint8>, ok: bool)
    requires c.exchange <= |Script(c.listener)|
  {
    match c.state
    case Handshaking => !ok || (c.exchange > 0 && !Script(c.listener)[c.exchange - 1].SatisfiedBy(moved))
    case ReadHeader =>
      !ok || |moved| != 4
      || 16777216 * (moved[0] as int) + 65536 * (moved[1] as int) + 256 * (moved[2] as int) + moved[3] > 262144
    case ReadBody => !ok && |moved| < c.need
    case _ => !ok
  }

  lemma LostOnlyFor(c: Conn, moved: seq<uint8>, ok: bool)
    requires Inv(c) && c.state != Destroyed
    requires Possible(c, moved) || (moved == [] && (c.state == WaitReply || c.exchange == 0))
    ensures DoIoCompletion(c, moved, ok).state == Destroyed <==> Fatal(c, moved, ok)
  {
    hide Settled, Safe, Frame, Follows, Output;
  }

  /** The operation a connection has outstanding: four bytes of a header, the rest of a body
      but at most 4096 bytes, the next 4096 bytes of a reply or its end, or an exchange of
      the handshake; a waiting or lost one has none. */
  ghost predicate Busy(c: Conn) {
    match c.state
    case ReadHeader => c.io == Reading(4)
    case ReadBody => c.io == Reading(if c.need < 4096 then c.need else 4096)
    case WriteReply => c.io.Writing? && |c.io.chunk| <= 4096 && (c.unsent != [] ==> |c.io.chunk| == 4096)
    case Handshaking => c.io.Reading? || c.io.Writing?
    case _ => c.io == Idle
  }

  lemma StepBusy(c: Conn, moved: seq<uint8>, ok: bool)
    requires Inv(c)
    requires Possible(c, moved)
      || (moved == [] && (c.state == WaitReply || c.state == Destroyed || (c.state == Handshaking && c.exchange == 0)))
    ensures Busy(DoIoCompletion(c, moved, ok))
  {
    hide Settled, Safe, Frame, Follows, Output, FromBe32, Script, Busy;
    hide ContinueHandshake, TakeHeader, TakeBody, WriteChunk, AwaitHeader;
    match c.state
    case Handshaking => HandshakeBusy(c, moved, ok);
    case ReadHeader | ReadBody => ReadBusy(c, moved, ok);
    case WaitReply =>
      ChunkBusy(c.(state := WriteReply, unsent := Frame(c.message), replies := c.replies + [c.message]), ok);
    case WriteReply =>
      ChunkBusy(c, ok);
      AwaitBusy(c.(io := Idle), ok);
    case Destroyed => LostIsIdle(c);
  }

  lemma HandshakeBusy(c: Conn, moved: seq<uint8>, ok: bool)
    requires c.exchange <= |Script(c.listener)| && c.state == Handshaking
    ensures Busy(ContinueHandshake(c, moved, ok))
  {
    hide Script;
  }

  lemma ReadBusy(c: Conn, moved: seq<uint8>, ok: bool)
    requires c.state != Destroyed
    ensures Busy(TakeHeader(c, moved, ok)) && (c.state == ReadBody ==> Busy(TakeBody(c, moved, ok)))
  {
    hide FromBe32;
  }

  lemma ChunkBusy(c: Conn, ok: bool)
    requires c.state == WriteReply
    ensures Busy(WriteChunk(c, ok))
  {
  }

  lemma AwaitBusy(c: Conn, ok: bool)
    requires c.state != Destroyed
    ensures Busy(AwaitHeader(c, ok))
  {
  }

  lemma LostIsIdle(c: Conn)
    requires c.state == Destroyed && c.io == Idle
    ensures Busy(c)
  {
  }
}
