/** The full-duplex relay between a client and a GnuPG agent, as a machine on values.

    Each of the two directions alternates between a read from one side and as many writes
    to the other as it takes. The machine records what went in and out, so that the two
    directions can be compared with two lossless first-in first-out pipes. The class in
    module Forwarding implements the machine. */
module Relay {
  import opened Bytes

  const BUFFER_SIZE: nat := 4 * 1024

  type Side = i: int | 0 <= i < 2

  function PeerOf(i: Side): Side {
    1 - i
  }

  datatype Phase = Handshake | Established | Destroyed

  /** A direction is named after the side it reads from. `rest` are the bytes read and not
      yet written. */
  datatype Direction = Ready | Reading | Writing(rest: seq<uint8>) | Closed

  datatype Lane = Lane(
    direction: Direction,
    busy: bool,             // an operation was started and its completion not yet seen
    taken: seq<uint8>,      // everything read from this side
    put: seq<uint8>,        // everything of it written to the other side
    receiveShut: bool,      // this side was shut down for receiving
    sendShut: bool)         // this side was shut down for sending

  datatype Relay = Relay(
    phase: Phase,
    lanes: seq<Lane>,
    isSocket: seq<bool>,
    removals: nat)          // how often the context was taken off the manager's list

  predicate TwoSided(r: Relay) {
    |r.lanes| == 2 && |r.isSocket| == 2
  }

  function Fresh(isSocket: seq<bool>): Relay
    requires |isSocket| == 2
  {
    var lane := Lane(Ready, false, [], [], false, false);
    Relay(Handshake, [lane, lane], isSocket, 0)
  }

  function Dispose(r: Relay): Relay {
    if r.phase == Destroyed then r else r.(phase := Destroyed, removals := r.removals + 1)
  }

  function SetLane(r: Relay, i: Side, lane: Lane): Relay
    requires TwoSided(r)
  {
    r.(lanes := r.lanes[i := lane])
  }

  function StartRead(r: Relay, i: Side, ok: bool): Relay
    requires TwoSided(r)
  {
    var lane := r.lanes[i];
    if ok then SetLane(r, i, lane.(direction := Reading, busy := true)) else Dispose(r)
  }

  /** Passes the bytes of a direction to a write. */
  function StartWrite(r: Relay, i: Side, lane: Lane, ok: bool): Relay
    requires TwoSided(r)
  {
    var r' := SetLane(r, i, lane.(busy := ok));
    if ok then r' else Dispose(r')
  }

  /** The end of the input of a direction: the side is shut down for receiving, the other
      one for sending, so far as they are sockets. */
  function EndOfInput(r: Relay, i: Side): Relay
    requires TwoSided(r)
  {
    var j := PeerOf(i);
    var mine := r.lanes[i].(direction := Closed, busy := false, receiveShut := r.lanes[i].receiveShut || r.isSocket[i]);
    var other := r.lanes[j].(sendShut := r.lanes[j].sendShut || r.isSocket[j]);
    r.(lanes := r.lanes[i := mine][j := other])
  }

  function DisposeIfClosed(r: Relay): Relay
    requires TwoSided(r)
  {
    if r.lanes[0].direction == Closed && r.lanes[1].direction == Closed then Dispose(r) else r
  }

  /** One step of direction `i`. `moved` is what the completed operation moved; of a write
      only its length counts. */
  function DoForward(r: Relay, i: Side, moved: seq<uint8>, ok: bool): Relay
    requires TwoSided(r) && (r.lanes[i].direction.Writing? ==> |moved| <= |r.lanes[i].direction.rest|)
  {
    var lane := r.lanes[i];
    match lane.direction
    case Ready => StartRead(r, i, ok)
    case Reading =>
      if moved == [] then DisposeIfClosed(EndOfInput(r, i))
      else StartWrite(r, i, lane.(direction := Writing(moved), taken := lane.taken + moved), ok)
    case Writing(rest) =>
      var lane' := lane.(put := lane.put + rest[..|moved|], busy := false);
      if |moved| < |rest| then StartWrite(r, i, lane'.(direction := Writing(rest[|moved|..])), ok)
      else StartRead(SetLane(r, i, lane'.(direction := Ready)), i, ok)
    case Closed => Dispose(r)
  }

  /** The end of the handshake. `peerOk` is whether the agent could be reached, `ok` whether
      the two first reads were accepted. The phase is set to Established after both reads
      were started, whatever became of the second. */
  function Establish(r: Relay, peerOk: bool, ok: seq<bool>): Relay
    requires TwoSided(r) && |ok| == 2
    requires r.lanes[0].direction == Ready && r.lanes[1].direction == Ready
  {
    if !peerOk then Dispose(r)
    else
      var r0 := DoForward(r, 0, [], ok[0]);
      if r0.phase == Destroyed then r0
      else DoForward(r0, 1, [], ok[1]).(phase := Established)
  }

  datatype Event =
    | HandshakeDone(peerOk: bool, started: seq<bool>)
    | Complete(side: Side, moved: seq<uint8>, ok: bool)
    | Lose                   // a failed completion

  /** What the system may report for a direction: a read returns at most a buffer full, and
      nothing at the end of the input; a write takes at most what it was given. */
  predicate Possible(r: Relay, i: Side, moved: seq<uint8>)
    requires TwoSided(r)
  {
    && r.lanes[i].busy
    && match r.lanes[i].direction
       case Reading => |moved| <= BUFFER_SIZE
       case Writing(rest) => |moved| <= |rest|
       case _ => true
  }

  function Next(r: Relay, e: Event): Relay
    requires TwoSided(r)
  {
    match e
    case HandshakeDone(peerOk, ok) =>
      if r.phase == Handshake && |ok| == 2 && r.lanes[0].direction == Ready && r.lanes[1].direction == Ready
      then Establish(r, peerOk, ok) else r
    case Complete(i, moved, ok) =>
      if !Possible(r, i, moved) then r
      else if r.phase == Established then DoForward(r, i, moved, ok)
      else Dispose(r)
    case Lose => Dispose(r)
  }

  ghost function Run(isSocket: seq<bool>, events: seq<Event>): (r: Relay)
    requires |isSocket| == 2
    ensures TwoSided(r)
  {
    if events == [] then Fresh(isSocket)
    else Next(Run(isSocket, events[..|events| - 1]), events[|events| - 1])
  }

  // ---------------------------------------------------------------- conservation

  ghost function InFlight(lane: Lane): seq<uint8> {
    if lane.direction.Writing? then lane.direction.rest else []
  }

  /** A lossless first-in first-out pipe: what went in came out, in order, except for what
      is on its way. */
  ghost predicate Pipe(taken: seq<uint8>, put: seq<uint8>, inFlight: seq<uint8>) {
    taken == put + inFlight
  }

  /** A direction is a lossless pipe, and its buffer holds what is on its way. */
  ghost predicate Lossless(lane: Lane) {
    Pipe(lane.taken, lane.put, InFlight(lane)) && |InFlight(lane)| <= BUFFER_SIZE
  }

  ghost predicate Conserving(r: Relay) {
    TwoSided(r) && Lossless(r.lanes[0]) && Lossless(r.lanes[1])
  }

  lemma WriteConserves(lane: Lane, n: nat)
    requires Lossless(lane) && lane.direction.Writing? && n <= |lane.direction.rest|
    ensures var d := lane.(put := lane.put + lane.direction.rest[..n], busy := false);
            && Lossless(d.(direction := Writing(lane.direction.rest[n..])))
            && (n == |lane.direction.rest| ==> Lossless(d.(direction := Ready)))
  {
    var rest := lane.direction.rest;
    assert rest == rest[..n] + rest[n..];
    if n == |rest| {
      assert rest[..n] == rest;
    }
  }

  lemma ReadConserves(lane: Lane, moved: seq<uint8>)
    requires Lossless(lane) && !lane.direction.Writing? && |moved| <= BUFFER_SIZE
    ensures Lossless(lane.(direction := Writing(moved), taken := lane.taken + moved))
  {
    assert lane.put + [] == lane.put;
  }

  lemma SetLaneConserves(r: Relay, i: Side, lane: Lane)
    requires Conserving(r) && Lossless(lane)
    ensures Conserving(SetLane(r, i, lane))
  {
  }

  lemma DoForwardConserves(r: Relay, i: Side, moved: seq<uint8>, ok: bool)
    requires Conserving(r) && (r.lanes[i].busy ==> Possible(r, i, moved))
    requires !r.lanes[i].busy ==> r.lanes[i].direction == Ready
    ensures Conserving(DoForward(r, i, moved, ok))
  {
    hide Lossless;
    var lane := r.lanes[i];
    match lane.direction
    case Ready =>
      SameBytes(lane, lane.(direction := Reading, busy := true));
    case Reading =>
      if moved == [] {
        EndConserves(r, i);
      } else {
        ReadConserves(lane, moved);
        var lane' := lane.(direction := Writing(moved), taken := lane.taken + moved);
        SameBytes(lane', lane'.(busy := ok));
        SetLaneConserves(r, i, lane'.(busy := ok));
      }
    case Writing(rest) =>
      WriteConserves(lane, |moved|);
      var lane' := lane.(put := lane.put + rest[..|moved|], busy := false);
      if |moved| < |rest| {
        var lane'' := lane'.(direction := Writing(rest[|moved|..]));
        SameBytes(lane'', lane''.(busy := ok));
        SetLaneConserves(r, i, lane''.(busy := ok));
      } else {
        SameBytes(lane'.(direction := Ready), lane'.(direction := Reading, busy := true));
        SetLaneConserves(r, i, lane'.(direction := Ready));
        SetLaneConserves(SetLane(r, i, lane'.(direction := Ready)), i, lane'.(direction := Reading, busy := true));
      }
    case Closed =>
  }

  lemma SameBytes(lane: Lane, d: Lane)
    requires Lossless(lane) && d.taken == lane.taken && d.put == lane.put && InFlight(d) == InFlight(lane)
    ensures Lossless(d)
  {
  }

  lemma EndConserves(r: Relay, i: Side)
    requires Conserving(r) && r.lanes[i].direction == Reading
    ensures Conserving(DisposeIfClosed(EndOfInput(r, i)))
  {
  }

  /** A step of one direction moves no byte of the other. */
  lemma DirectionsIndependent(r: Relay, i: Side, moved: seq<uint8>, ok: bool)
    requires TwoSided(r) && (r.lanes[i].busy ==> Possible(r, i, moved))
    requires r.lanes[i].direction.Writing? ==> r.lanes[i].busy
    ensures var before, after := r.lanes[PeerOf(i)], DoForward(r, i, moved, ok).lanes[PeerOf(i)];
            after == before.(sendShut := after.sendShut)
  {
  }

  // ---------------------------------------------------------------- what events move

  /** Whether an event completes an operation of direction `i` of an established context. */
  ghost predicate Moves(r: Relay, e: Event, i: Side)
    requires TwoSided(r)
  {
    e.Complete? && e.side == i && r.phase == Established && Possible(r, i, e.moved)
  }

  /** The bytes an event brings from side `i`: those a read has moved. */
  ghost function ArrivedAt(r: Relay, e: Event, i: Side): seq<uint8>
    requires TwoSided(r)
  {
    if Moves(r, e, i) && r.lanes[i].direction.Reading? then e.moved else []
  }

  /** The bytes of side `i` an event takes to the other: of those given to a write, as many
      from the front as it has moved. */
  ghost function DepartedAt(r: Relay, e: Event, i: Side): seq<uint8>
    requires TwoSided(r)
  {
    if Moves(r, e, i) && r.lanes[i].direction.Writing? then r.lanes[i].direction.rest[..|e.moved|] else []
  }

  /** The input of side `i` ends with a read that moves nothing. */
  ghost predicate EndedAt(r: Relay, e: Event, i: Side)
    requires TwoSided(r)
  {
    Moves(r, e, i) && r.lanes[i].direction.Reading? && e.moved == []
  }

  ghost function Arrived(isSocket: seq<bool>, events: seq<Event>, i: Side): seq<uint8>
    requires |isSocket| == 2
  {
    if events == [] then []
    else
      var front, e := events[..|events| - 1], events[|events| - 1];
      Arrived(isSocket, front, i) + ArrivedAt(Run(isSocket, front), e, i)
  }

  ghost function Departed(isSocket: seq<bool>, events: seq<Event>, i: Side): seq<uint8>
    requires |isSocket| == 2
  {
    if events == [] then []
    else
      var front, e := events[..|events| - 1], events[|events| - 1];
      Departed(isSocket, front, i) + DepartedAt(Run(isSocket, front), e, i)
  }

  ghost predicate Ended(isSocket: seq<bool>, events: seq<Event>, i: Side)
    requires |isSocket| == 2
  {
    events != []
    && var front, e := events[..|events| - 1], events[|events| - 1];
       Ended(isSocket, front, i) || EndedAt(Run(isSocket, front), e, i)
  }

  lemma NextMoves(r: Relay, e: Event, i: Side)
    requires TwoSided(r)
    ensures var lane, after := r.lanes[i], Next(r, e).lanes[i];
            && after.taken == lane.taken + ArrivedAt(r, e, i)
            && after.put == lane.put + DepartedAt(r, e, i)
            && (after.direction == Closed <==> lane.direction == Closed || EndedAt(r, e, i))
  {
    hide DoForward, Establish, EndOfInput, Dispose;
    var lane := r.lanes[i];
    var none: seq<uint8> := [];
    assert lane.taken + none == lane.taken && lane.put + none == lane.put;
    match e
    case HandshakeDone(peerOk, ok) =>
      if |ok| == 2 && r.lanes[0].direction == Ready && r.lanes[1].direction == Ready {
        EstablishMoves(r, peerOk, ok, i);
      }
    case Complete(side, moved, ok) =>
      DisposeMoves(r, i);
      if Possible(r, side, moved) && r.phase == Established {
        if side == i {
          ForwardMoves(r, i, moved, ok);
        } else {
          OtherMoves(r, i, moved, ok);
        }
      }
    case Lose =>
      DisposeMoves(r, i);
  }

  lemma DisposeMoves(r: Relay, i: Side)
    requires TwoSided(r)
    ensures TwoSided(Dispose(r)) && Dispose(r).lanes == r.lanes
  {
  }

  lemma EstablishMoves(r: Relay, peerOk: bool, ok: seq<bool>, i: Side)
    requires TwoSided(r) && |ok| == 2 && r.lanes[0].direction == Ready && r.lanes[1].direction == Ready
    ensures var lane, after := r.lanes[i], Establish(r, peerOk, ok).lanes[i];
            after.taken == lane.taken && after.put == lane.put && after.direction != Closed
  {
  }

  lemma ForwardMoves(r: Relay, i: Side, moved: seq<uint8>, ok: bool)
    requires TwoSided(r) && r.phase == Established && Possible(r, i, moved)
    ensures var e, lane, after := Complete(i, moved, ok), r.lanes[i], DoForward(r, i, moved, ok).lanes[i];
            && after.taken == lane.taken + ArrivedAt(r, e, i)
            && after.put == lane.put + DepartedAt(r, e, i)
            && (after.direction == Closed <==> lane.direction == Closed || EndedAt(r, e, i))
  {
    var none: seq<uint8> := [];
    assert r.lanes[i].taken + none == r.lanes[i].taken && r.lanes[i].put + none == r.lanes[i].put;
  }

  lemma OtherMoves(r: Relay, i: Side, moved: seq<uint8>, ok: bool)
    requires TwoSided(r) && Possible(r, PeerOf(i), moved)
    ensures var lane, after := r.lanes[i], DoForward(r, PeerOf(i), moved, ok).lanes[i];
            after.taken == lane.taken && after.put == lane.put && after.direction == lane.direction
  {
    DirectionsIndependent(r, PeerOf(i), moved, ok);
  }

  /** What the machine has recorded of a direction is what the events have moved. */
  lemma {:induction false} RecordsAreReal(isSocket: seq<bool>, events: seq<Event>, i: Side)
    requires |isSocket| == 2
    ensures var lane := Run(isSocket, events).lanes[i];
            && lane.taken == Arrived(isSocket, events, i)
            && lane.put == Departed(isSocket, events, i)
            && (lane.direction == Closed <==> Ended(isSocket, events, i))
  {
    hide Next, ArrivedAt, DepartedAt, EndedAt;
    if events != [] {
      var front, e := events[..|events| - 1], events[|events| - 1];
      RecordsAreReal(isSocket, front, i);
      NextMoves(Run(isSocket, front), e, i);
    }
  }

  /** Every run conserves both directions: at every moment, and however reads and writes
      are split and interleaved, the bytes that reads have brought from a side are the bytes
      that writes have taken to the other, in order, followed by those in its buffer. */
  lemma EveryRunConserves(isSocket: seq<bool>, events: seq<Event>, i: Side)
    requires |isSocket| == 2
    ensures var flight := InFlight(Run(isSocket, events).lanes[i]);
            && Pipe(Arrived(isSocket, events, i), Departed(isSocket, events, i), flight)
            && |flight| <= BUFFER_SIZE
  {
    hide Run, Pipe;
    EveryRunLossless(isSocket, events);
    RecordsAreReal(isSocket, events, i);
  }

  lemma {:induction false} EveryRunLossless(isSocket: seq<bool>, events: seq<Event>)
    requires |isSocket| == 2
    ensures Conserving(Run(isSocket, events))
  {
    if events != [] {
      var before := Run(isSocket, events[..|events| - 1]);
      EveryRunLossless(isSocket, events[..|events| - 1]);
      NextConserves(before, events[|events| - 1]);
    }
  }

  lemma NextConserves(r: Relay, e: Event)
    requires Conserving(r)
    ensures Conserving(Next(r, e))
  {
    match e
    case HandshakeDone(peerOk, ok) =>
    case Complete(i, moved, ok) =>
      if Possible(r, i, moved) && r.phase == Established {
        DoForwardConserves(r, i, moved, ok);
      }
    case Lose =>
  }

  // ---------------------------------------------------------------- discipline

  /** The one way the handshake goes wrong: the first read is accepted, the second is not.
      The context is disposed and taken off the list, and then declared established. */
  ghost predicate Revives(e: Event) {
    e.HandshakeDone? && |e.started| == 2 && e.peerOk && e.started[0] && !e.started[1]
  }

  /** A direction with an operation outstanding reads or writes; sockets are shut down
      exactly at the ends of inputs. */
  ghost predicate LaneSound(r: Relay, i: Side)
    requires TwoSided(r)
  {
    var lane, other := r.lanes[i], r.lanes[PeerOf(i)];
    && (lane.busy ==> lane.direction.Reading? || lane.direction.Writing?)
    && (r.phase == Handshake ==> lane.direction == Ready)
    && (lane.receiveShut <==> lane.direction == Closed && r.isSocket[i])
    && (other.sendShut <==> lane.direction == Closed && r.isSocket[PeerOf(i)])
  }

  /** This survives every event, the revival of a context included. */
  ghost predicate Sound(r: Relay) {
    TwoSided(r) && LaneSound(r, 0) && LaneSound(r, 1)
  }

  lemma DisposeSound(r: Relay)
    requires Sound(r)
    ensures Sound(Dispose(r))
  {
  }

  /** A direction goes on without its input ending. */
  lemma GoOnSound(r: Relay, i: Side, lane: Lane)
    requires Sound(r) && r.phase != Handshake && r.lanes[i].direction != Closed && lane.direction != Closed
    requires lane.busy ==> lane.direction.Reading? || lane.direction.Writing?
    requires lane.receiveShut == r.lanes[i].receiveShut && lane.sendShut == r.lanes[i].sendShut
    ensures Sound(SetLane(r, i, lane))
  {
  }

  lemma EndSound(r: Relay, i: Side)
    requires Sound(r) && r.phase != Handshake && r.lanes[i].direction.Reading?
    ensures Sound(EndOfInput(r, i))
  {
    if i == 0 {
      assert PeerOf(i) == 1;
    } else {
      assert PeerOf(i) == 0;
    }
  }

  lemma DoForwardSound(r: Relay, i: Side, moved: seq<uint8>, ok: bool)
    requires Sound(r) && r.phase == Established && Possible(r, i, moved)
    ensures Sound(DoForward(r, i, moved, ok))
  {
    hide SetLane, EndOfInput, LaneSound, Dispose;
    IdleOrBusy(r, i);
    var lane := r.lanes[i];
    match lane.direction
    case Reading =>
      if moved == [] {
        EndSound(r, i);
        DisposeSound(EndOfInput(r, i));
      } else {
        WriteSound(r, i, lane.(direction := Writing(moved), taken := lane.taken + moved), ok);
      }
    case Writing(rest) =>
      var lane' := lane.(put := lane.put + rest[..|moved|], busy := false);
      if |moved| < |rest| {
        WriteSound(r, i, lane'.(direction := Writing(rest[|moved|..])), ok);
      } else {
        GoOnSound(r, i, lane'.(direction := Ready));
        ReadSound(r, i, lane'.(direction := Ready), ok);
      }
  }

  lemma IdleOrBusy(r: Relay, i: Side)
    requires Sound(r)
    ensures r.lanes[i].busy ==> r.lanes[i].direction.Reading? || r.lanes[i].direction.Writing?
  {
    assert LaneSound(r, i);
  }

  lemma WriteSound(r: Relay, i: Side, lane: Lane, ok: bool)
    requires Sound(r) && r.phase == Established && r.lanes[i].direction != Closed && lane.direction.Writing?
    requires lane.receiveShut == r.lanes[i].receiveShut && lane.sendShut == r.lanes[i].sendShut
    ensures Sound(StartWrite(r, i, lane, ok))
  {
    hide SetLane, LaneSound, Dispose;
    GoOnSound(r, i, lane.(busy := ok));
    DisposeSound(SetLane(r, i, lane.(busy := ok)));
  }

  lemma ReadSound(r: Relay, i: Side, lane: Lane, ok: bool)
    requires Sound(r) && r.phase == Established && r.lanes[i].direction != Closed
    requires lane.direction == Ready && !lane.busy
    requires lane.receiveShut == r.lanes[i].receiveShut && lane.sendShut == r.lanes[i].sendShut
    ensures Sound(StartRead(SetLane(r, i, lane), i, ok))
  {
    hide LaneSound, Dispose;
    var r' := SetLane(r, i, lane);
    GoOnSound(r, i, lane);
    GoOnSound(r', i, lane.(direction := Reading, busy := true));
    DisposeSound(r');
  }

  lemma EstablishSound(r: Relay, peerOk: bool, ok: seq<bool>)
    requires Sound(r) && r.phase == Handshake && |ok| == 2
    ensures r.lanes[0].direction == Ready && r.lanes[1].direction == Ready
    ensures Sound(Establish(r, peerOk, ok))
  {
  }

  lemma NextSound(r: Relay, e: Event)
    requires Sound(r)
    ensures Sound(Next(r, e))
  {
    hide Establish, DoForward, LaneSound;
    match e
    case HandshakeDone(peerOk, ok) =>
      if r.phase == Handshake && |ok| == 2 {
        EstablishSound(r, peerOk, ok);
      }
    case Complete(i, moved, ok) =>
      DisposeSound(r);
      if Possible(r, i, moved) && r.phase == Established {
        DoForwardSound(r, i, moved, ok);
      }
    case Lose =>
      DisposeSound(r);
  }

  lemma {:induction false} EveryRunSound(isSocket: seq<bool>, events: seq<Event>)
    requires |isSocket| == 2
    ensures Sound(Run(isSocket, events))
  {
    hide Next;
    if events == [] {
      FreshSound(isSocket);
    } else {
      EveryRunSound(isSocket, events[..|events| - 1]);
      NextSound(Run(isSocket, events[..|events| - 1]), events[|events| - 1]);
    }
  }

  lemma FreshSound(isSocket: seq<bool>)
    requires |isSocket| == 2
    ensures Sound(Fresh(isSocket))
  {
  }

  /** In the established phase a direction has an operation outstanding exactly when it
      reads or writes, and it does unless its input has ended. */
  ghost predicate LaneInv(r: Relay, i: Side)
    requires TwoSided(r)
  {
    var lane := r.lanes[i];
    && LaneSound(r, i)
    && (r.phase == Established ==>
          match lane.direction
          case Ready => false
          case Reading => lane.busy
          case Writing(rest) => lane.busy && rest != []
          case Closed => !lane.busy)
  }

  ghost predicate Disciplined(r: Relay) {
    && TwoSided(r) && LaneInv(r, 0) && LaneInv(r, 1)
    && r.removals == (if r.phase == Destroyed then 1 else 0)
    && (r.phase == Established ==> !(r.lanes[0].direction == Closed && r.lanes[1].direction == Closed))
  }

  lemma NextDisciplined(r: Relay, e: Event)
    requires Disciplined(r) && !Revives(e)
    ensures Disciplined(Next(r, e))
  {
    match e
    case HandshakeDone(peerOk, ok) =>
    case Complete(i, moved, ok) =>
      if Possible(r, i, moved) && r.phase == Established {
        DoForwardDisciplined(r, i, moved, ok);
      }
    case Lose =>
  }

  lemma DoForwardDisciplined(r: Relay, i: Side, moved: seq<uint8>, ok: bool)
    requires Disciplined(r) && r.phase == Established && Possible(r, i, moved)
    ensures Disciplined(DoForward(r, i, moved, ok))
  {
    hide StartRead, StartWrite, DisposeIfClosed, EndOfInput;
    var lane := r.lanes[i];
    assert LaneInv(r, i) && LaneInv(r, PeerOf(i));
    match lane.direction
    case Reading =>
      if moved == [] {
        EndDisciplined(r, i);
      } else {
        WriteDisciplined(r, i, lane.(direction := Writing(moved), taken := lane.taken + moved), ok);
      }
    case Writing(rest) =>
      var lane' := lane.(put := lane.put + rest[..|moved|], busy := false);
      if |moved| < |rest| {
        WriteDisciplined(r, i, lane'.(direction := Writing(rest[|moved|..])), ok);
      } else {
        ReadDisciplined(r, i, lane'.(direction := Ready), ok);
      }
  }

  lemma EndDisciplined(r: Relay, i: Side)
    requires Disciplined(r) && r.phase == Established && r.lanes[i].direction == Reading
    ensures Disciplined(DisposeIfClosed(EndOfInput(r, i)))
  {
    if i == 0 {
      assert PeerOf(i) == 1;
    } else {
      assert PeerOf(i) == 0;
    }
  }

  lemma WriteDisciplined(r: Relay, i: Side, lane: Lane, ok: bool)
    requires Disciplined(r) && r.phase == Established && r.lanes[i].direction != Closed
    requires lane.direction.Writing? && lane.direction.rest != []
    requires lane.receiveShut == r.lanes[i].receiveShut && lane.sendShut == r.lanes[i].sendShut
    ensures Disciplined(StartWrite(r, i, lane, ok))
  {
  }

  lemma ReadDisciplined(r: Relay, i: Side, lane: Lane, ok: bool)
    requires Disciplined(r) && r.phase == Established && r.lanes[i].direction != Closed
    requires lane.direction == Ready && !lane.busy
    requires lane.receiveShut == r.lanes[i].receiveShut && lane.sendShut == r.lanes[i].sendShut
    ensures Disciplined(StartRead(SetLane(r, i, lane), i, ok))
  {
  }

  ghost predicate NeverRevives(events: seq<Event>) {
    forall k :: 0 <= k < |events| ==> !Revives(events[k])
  }

  /** In every run in which the handshake does not revive a disposed context: outstanding
      operations and states agree, a completed operation always belongs to a direction
      that reads or writes, a socket is shut down for sending exactly when the other
      side's input has ended, and the context leaves the list once, when it is
      destroyed. */
  lemma {:induction false} EveryRunDisciplined(isSocket: seq<bool>, events: seq<Event>)
    requires |isSocket| == 2 && NeverRevives(events)
    ensures Disciplined(Run(isSocket, events))
  {
    if events != [] {
      var front := events[..|events| - 1];
      assert forall k :: 0 <= k < |front| ==> front[k] == events[k];
      EveryRunDisciplined(isSocket, front);
      NextDisciplined(Run(isSocket, front), events[|events| - 1]);
    }
  }

  /** In every run, a revived context's included: the "illegal status" branch of a
      direction is not reached, and when the output side of a socket is closed everything
      has been written to it. */
  lemma NeverIllegal(isSocket: seq<bool>, events: seq<Event>, i: Side, moved: seq<uint8>)
    requires |isSocket| == 2
    ensures var r := Run(isSocket, events);
            && (Possible(r, i, moved) ==> r.lanes[i].direction.Reading? || r.lanes[i].direction.Writing?)
            && (r.lanes[PeerOf(i)].sendShut ==> Departed(isSocket, events, i) == Arrived(isSocket, events, i))
  {
    hide Run, Possible;
    EveryRunSound(isSocket, events);
    EveryRunConserves(isSocket, events, i);
    var r := Run(isSocket, events);
    assert LaneSound(r, i);
    PossibleIsBusy(r, i, moved);
    assert Departed(isSocket, events, i) + [] == Departed(isSocket, events, i);
  }

  lemma PossibleIsBusy(r: Relay, i: Side, moved: seq<uint8>)
    requires TwoSided(r)
    ensures Possible(r, i, moved) ==> r.lanes[i].busy
  {
  }

  // ---------------------------------------------------------------- the end

  /** No operation is refused and none fails. */
  ghost predicate NoError(e: Event) {
    match e
    case HandshakeDone(peerOk, ok) => peerOk && ok == [true, true]
    case Complete(_, _, ok) => ok
    case Lose => false
  }

  lemma NextEnds(r: Relay, e: Event)
    requires Disciplined(r) && NoError(e)
    requires r.phase == Destroyed <==> r.lanes[0].direction == Closed && r.lanes[1].direction == Closed
    ensures var d := Next(r, e);
            d.phase == Destroyed <==> d.lanes[0].direction == Closed && d.lanes[1].direction == Closed
  {
  }

  /** Without I/O errors, the context is disposed exactly when the inputs of both sides have
      ended, and then everything that came from either was taken to the other. */
  lemma EndsWhenBothClosed(isSocket: seq<bool>, events: seq<Event>)
    requires |isSocket| == 2
    requires forall k :: 0 <= k < |events| ==> NoError(events[k])
    ensures Run(isSocket, events).phase == Destroyed <==> Ended(isSocket, events, 0) && Ended(isSocket, events, 1)
    ensures Run(isSocket, events).phase == Destroyed ==>
      forall i: Side :: Departed(isSocket, events, i) == Arrived(isSocket, events, i)
  {
    hide Run, Ended, Arrived, Departed;
    BothClosed(isSocket, events);
    forall i: Side
      ensures Run(isSocket, events).lanes[i].direction == Closed <==> Ended(isSocket, events, i)
      ensures Run(isSocket, events).lanes[i].direction == Closed ==>
        Departed(isSocket, events, i) == Arrived(isSocket, events, i)
    {
      RecordsAreReal(isSocket, events, i);
      EveryRunConserves(isSocket, events, i);
      assert Departed(isSocket, events, i) + [] == Departed(isSocket, events, i);
    }
  }

  lemma {:induction false} BothClosed(isSocket: seq<bool>, events: seq<Event>)
    requires |isSocket| == 2
    requires forall k :: 0 <= k < |events| ==> NoError(events[k])
    ensures var r := Run(isSocket, events);
            && Disciplined(r)
            && (r.phase == Destroyed <==> r.lanes[0].direction == Closed && r.lanes[1].direction == Closed)
  {
    if events != [] {
      var front := events[..|events| - 1];
      assert forall k :: 0 <= k < |front| ==> front[k] == events[k];
      BothClosed(isSocket, front);
      assert NoError(events[|events| - 1]);
      NextEnds(Run(isSocket, front), events[|events| - 1]);
      NextDisciplined(Run(isSocket, front), events[|events| - 1]);
    }
  }

  // ---------------------------------------------------------------- the exception

  /** The handshake leaves a context that is off the list exactly if it is destroyed,
      unless it revives it. */
  lemma RevivedIffSecondReadRefused(isSocket: seq<bool>, peerOk: bool, ok: seq<bool>)
    requires |isSocket| == 2 && |ok| == 2
    ensures var d := Establish(Fresh(isSocket), peerOk, ok);
            (d.removals == if d.phase == Destroyed then 1 else 0) <==> !(peerOk && ok[0] && !ok[1])
  {
  }

  /** A revived context can be taken off the list twice: its first read, though cancelled,
      had already completed, and then the write it leads to is refused. */
  lemma RemovedTwice(isSocket: seq<bool>)
    requires |isSocket| == 2
    ensures Run(isSocket, [HandshakeDone(true, [true, false]), Complete(0, [0], false)]).removals == 2
  {
    var first := HandshakeDone(true, [true, false]);
    var events := [first, Complete(0, [0], false)];
    assert events[..1] == [first] && [first][..0] == [];
    assert Run(isSocket, [first]) == Next(Fresh(isSocket), first);
  }
}
