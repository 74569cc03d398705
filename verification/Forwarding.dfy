/** The source's relay context: for each direction a state, a buffer, a count of bytes to
    transfer and an offset. Its steps implement the machine of module Relay. */
module Forwarding {
  import opened Bytes
  import R = Relay

  datatype State = Initialized | Ready | Read | Write | Shutdown

  /** What the source keeps of a direction in its parallel arrays, at one index. */
  datatype Peer = Peer(
    state: State,
    needTransfer: int,
    bufferOffset: int,
    busy: bool,         // its OVERLAPPED is in use
    receiveShut: bool,  // the side was shut down for receiving
    sendShut: bool,     // and for sending
    taken: seq<uint8>,  // everything read from the side
    put: seq<uint8>)    // and written to the other
  {
    ghost predicate Valid() {
      state == Write ==> 0 <= bufferOffset && 0 <= needTransfer && bufferOffset + needTransfer <= R.BUFFER_SIZE
    }

    /** The direction, given the contents of its buffer. */
    ghost function Lane(buffer: seq<uint8>): R.Lane
      requires Valid() && |buffer| == R.BUFFER_SIZE
    {
      var direction := match state
                       case Initialized => R.Ready
                       case Ready => R.Ready
                       case Read => R.Reading
                       case Write => R.Writing(buffer[bufferOffset..bufferOffset + needTransfer])
                       case Shutdown => R.Closed;
      R.Lane(direction, busy, taken, put, receiveShut, sendShut)
    }
  }

  /** Writing `n` bytes of a direction moves them from its rest to what was put. */
  lemma WrittenLane(p: Peer, buffer: seq<uint8>, n: nat, written: seq<uint8>, more: Peer, done: Peer)
    requires p.state == Write && p.Valid() && |buffer| == R.BUFFER_SIZE && n <= p.needTransfer
    requires written == buffer[p.bufferOffset..p.bufferOffset + n]
    requires more == p.(needTransfer := p.needTransfer - n, put := p.put + written, busy := false,
                        bufferOffset := p.bufferOffset + n)
    requires done == p.(needTransfer := p.needTransfer - n, put := p.put + written, busy := false, state := Ready)
    ensures var lane := p.Lane(buffer);
            && lane.direction.Writing? && |lane.direction.rest| == p.needTransfer
            && more.Valid() && done.Valid()
            && var lane' := lane.(put := lane.put + lane.direction.rest[..n], busy := false);
               && more.Lane(buffer) == lane'.(direction := R.Writing(lane.direction.rest[n..]))
               && done.Lane(buffer) == lane'.(direction := R.Ready)
  {
    var rest := buffer[p.bufferOffset..p.bufferOffset + p.needTransfer];
    assert rest[..n] == buffer[p.bufferOffset..p.bufferOffset + n];
    assert rest[n..] == buffer[p.bufferOffset + n..p.bufferOffset + p.needTransfer];
  }

  /** Two lanes that differ from a relay's in the ones given. */
  lemma Lanes(lanes: seq<R.Lane>, i: R.Side, lane: R.Lane, other: R.Lane, l0: R.Lane, l1: R.Lane)
    requires |lanes| == 2
    requires if i == 0 then l0 == lane && l1 == other else l0 == other && l1 == lane
    ensures [l0, l1] == lanes[i := lane][R.PeerOf(i) := other]
    ensures other == lanes[R.PeerOf(i)] ==> [l0, l1] == lanes[i := lane]
  {
  }

  class ForwardIoContext {
    const isSocket: seq<bool>
    const buffer: seq<array<uint8>>

    var contextState: R.Phase
    var peers: seq<Peer>
    var removals: nat           // calls of RemoveContext

    ghost predicate Valid()
      reads this
    {
      && |isSocket| == |buffer| == |peers| == 2
      && buffer[0].Length == buffer[1].Length == R.BUFFER_SIZE
      && peers[0].Valid() && peers[1].Valid()
    }

    ghost function LaneOf(i: R.Side): R.Lane
      requires Valid()
      reads this, buffer
    {
      peers[i].Lane(buffer[i][..])
    }

    /** The context as the machine sees it. */
    ghost function Abs(): (r: R.Relay)
      requires Valid()
      ensures R.TwoSided(r)
      reads this, buffer
    {
      R.Relay(contextState, [LaneOf(0), LaneOf(1)], isSocket, removals)
    }

    constructor (isSocket: seq<bool>)
      requires |isSocket| == 2
      ensures Valid() && Abs() == R.Fresh(isSocket)
      ensures fresh(buffer[0]) && fresh(buffer[1]) && buffer[0] != buffer[1]
    {
      this.isSocket := isSocket;
      var b0, b1 := new uint8[R.BUFFER_SIZE], new uint8[R.BUFFER_SIZE];
      buffer := [b0, b1];
      contextState := R.Handshake;
      var peer := Peer(Initialized, 0, 0, false, false, false, [], []);
      peers := [peer, peer];
      removals := 0;
    }

    method Dispose()
      modifies this`contextState, this`removals
      ensures if old(contextState) == R.Destroyed then removals == old(removals) else removals == old(removals) + 1
      ensures contextState == R.Destroyed
    {
      if contextState != R.Destroyed {
        contextState := R.Destroyed;
        removals := removals + 1;
      }
    }

    /** The end of a step: nothing is left to do once both directions are shut down. */
    method DisposeIfClosed()
      requires Valid()
      modifies this`contextState, this`removals
      ensures Valid() && Abs() == R.DisposeIfClosed(old(Abs()))
    {
      var disposeFlag := true;
      var i := 0;
      while i < 2
        invariant 0 <= i <= 2
        invariant disposeFlag == forall k :: 0 <= k < i ==> peers[k].state == Shutdown
      {
        disposeFlag := disposeFlag && peers[i].state == Shutdown;
        i := i + 1;
      }
      if disposeFlag {
        Dispose();
      }
    }

    /** Whether direction `i` is past the handshake. */
    predicate Started(i: R.Side)
      requires |peers| == 2
      reads this
    {
      peers[i].state != Initialized
    }

    method StartRead(peerIdx: R.Side, ok: bool)
      requires Valid() && peers[peerIdx].state == Ready
      modifies this
      ensures Valid() && Abs() == R.StartRead(old(Abs()), peerIdx, ok)
      ensures Started(peerIdx) && peers[R.PeerOf(peerIdx)] == old(peers[R.PeerOf(peerIdx)])
    {
      if !ok {
        Dispose();
        return;
      }
      peers := peers[peerIdx := peers[peerIdx].(busy := true, state := Read)];
    }

    method EndOfInput(peerIdx: R.Side)
      requires Valid() && peers[peerIdx].state == Read
      modifies this`peers
      ensures Valid() && Abs() == R.EndOfInput(old(Abs()), peerIdx)
      ensures Started(peerIdx) && peers[R.PeerOf(peerIdx)].state == old(peers[R.PeerOf(peerIdx)]).state
    {
      ghost var before := Abs();
      var other := R.PeerOf(peerIdx);
      var receive, send := isSocket[peerIdx], isSocket[other];
      var p, q := peers[peerIdx], peers[other];
      p := p.(state := Shutdown, busy := false);
      if receive {
        p := p.(receiveShut := true);
      }
      if send {
        q := q.(sendShut := true);
      }
      peers := peers[peerIdx := p][other := q];
      Lanes(before.lanes, peerIdx, LaneOf(peerIdx), LaneOf(other), LaneOf(0), LaneOf(1));
    }

    /** Replaces what is kept of one direction. */
    method MoveOn(peerIdx: R.Side, p: Peer)
      requires Valid() && p.Valid()
      modifies this`peers
      ensures Valid() && peers[peerIdx] == p && peers[R.PeerOf(peerIdx)] == old(peers[R.PeerOf(peerIdx)])
      ensures Abs() == R.SetLane(old(Abs()), peerIdx, p.Lane(buffer[peerIdx][..]))
    {
      ghost var before := Abs();
      peers := peers[peerIdx := p];
      Lanes(before.lanes, peerIdx, LaneOf(peerIdx), LaneOf(R.PeerOf(peerIdx)), LaneOf(0), LaneOf(1));
    }

    /** Passes bytes of direction `peerIdx` to a write. */
    method StartWrite(peerIdx: R.Side, p: Peer, ok: bool)
      requires Valid() && p.Valid() && p.state == Write
      modifies this
      ensures Valid() && Abs() == R.StartWrite(old(Abs()), peerIdx, p.Lane(buffer[peerIdx][..]), ok)
      ensures Started(peerIdx) && peers[R.PeerOf(peerIdx)] == old(peers[R.PeerOf(peerIdx)])
    {
      MoveOn(peerIdx, p.(busy := ok));
      if !ok {
        Dispose();
      }
    }

    method ForwardRead(transferred: nat, peerIdx: R.Side, ok: bool, ghost moved: seq<uint8>)
      requires Valid() && peers[peerIdx].state == Read && 0 < transferred <= R.BUFFER_SIZE
      requires moved == buffer[peerIdx][..transferred]
      modifies this
      ensures Valid() && Abs() == R.DoForward(old(Abs()), peerIdx, moved, ok)
      ensures Started(peerIdx) && peers[R.PeerOf(peerIdx)] == old(peers[R.PeerOf(peerIdx)])
    {
      hide R.StartWrite;
      assert buffer[peerIdx][..][0..0 + transferred] == moved;
      StartWrite(peerIdx, peers[peerIdx].(
        needTransfer := transferred, bufferOffset := 0, state := Write,
        taken := peers[peerIdx].taken + buffer[peerIdx][..transferred]), ok);
    }

    method ForwardWritten(transferred: nat, peerIdx: R.Side, ok: bool, ghost moved: seq<uint8>)
      requires Valid() && peers[peerIdx].state == Write && transferred <= peers[peerIdx].needTransfer
      requires |moved| == transferred
      modifies this
      ensures Valid() && Abs() == R.DoForward(old(Abs()), peerIdx, moved, ok)
      ensures Started(peerIdx) && peers[R.PeerOf(peerIdx)] == old(peers[R.PeerOf(peerIdx)])
    {
      var p := peers[peerIdx];
      var written := buffer[peerIdx][p.bufferOffset..p.bufferOffset + transferred];
      var more := p.(needTransfer := p.needTransfer - transferred, put := p.put + written, busy := false,
                     bufferOffset := p.bufferOffset + transferred);
      var done := p.(needTransfer := p.needTransfer - transferred, put := p.put + written, busy := false, state := Ready);
      assert written == buffer[peerIdx][..][p.bufferOffset..p.bufferOffset + transferred];
      WrittenLane(p, buffer[peerIdx][..], transferred, written, more, done);
      hide Peer.Lane, Peer.Valid, R.StartWrite, R.StartRead, R.SetLane;
      if p.needTransfer - transferred > 0 {
        StartWrite(peerIdx, more, ok);
      } else {
        MoveOn(peerIdx, done);
        StartRead(peerIdx, ok);
      }
    }

    /** One step of direction `peerIdx`, whose operation has moved `transferred` bytes: of a
        read, the first bytes of its buffer. The test for the end of both directions that
        closes a step can succeed only after an end of input, and is made there. */
    method DoForward(transferred: nat, peerIdx: R.Side, ok: bool, ghost moved: seq<uint8>)
      requires Valid() && |moved| == transferred && Started(peerIdx)
      requires peers[peerIdx].state == Read ==>
        transferred <= R.BUFFER_SIZE && moved == buffer[peerIdx][..transferred]
      requires peers[peerIdx].state == Write ==> transferred <= peers[peerIdx].needTransfer
      modifies this
      ensures Valid() && Abs() == R.DoForward(old(Abs()), peerIdx, moved, ok)
      ensures Started(peerIdx) && peers[R.PeerOf(peerIdx)].state == old(peers[R.PeerOf(peerIdx)]).state
    {
      hide R.StartRead, R.StartWrite, R.EndOfInput, R.DisposeIfClosed;
      match peers[peerIdx].state {
        case Ready =>
          StartRead(peerIdx, ok);
        case Read =>
          if transferred == 0 {
            EndOfInput(peerIdx);
            DisposeIfClosed();
          } else {
            ForwardRead(transferred, peerIdx, ok, moved);
          }
        case Write =>
          ForwardWritten(transferred, peerIdx, ok, moved);
        case Shutdown =>
          Dispose();
      }
    }

    /** The step that follows a completed handshake. */
    method Establish(peerOk: bool, ok: seq<bool>)
      requires Valid() && contextState == R.Handshake && |ok| == 2
      requires peers[0].state == peers[1].state == Initialized
      modifies this
      ensures Valid() && Abs() == R.Establish(old(Abs()), peerOk, ok)
    {
      if !peerOk {
        Dispose();
        return;
      }
      PreparePeer();
      var finished := FirstReads(ok);
      if finished {
        contextState := R.Established;
      }
    }

    method PreparePeer()
      requires Valid() && peers[0].state == peers[1].state == Initialized
      modifies this`peers
      ensures Valid() && Abs() == old(Abs()) && peers[0].state == peers[1].state == Ready
    {
      peers := [peers[0].(state := Ready), peers[1].(state := Ready)];
    }

    method FirstReads(ok: seq<bool>) returns (finished: bool)
      requires Valid() && contextState != R.Destroyed && |ok| == 2
      requires peers[0].state == peers[1].state == Ready
      modifies this
      ensures Valid()
      ensures var first := R.DoForward(old(Abs()), 0, [], ok[0]);
              && finished == (first.phase != R.Destroyed)
              && Abs() == if finished then R.DoForward(first, 1, [], ok[1]) else first
    {
      ghost var first := R.DoForward(Abs(), 0, [], ok[0]);
      assert R.TwoSided(first) && first.lanes[1].direction == R.Ready;
      hide Peer.Lane, Peer.Valid, R.DoForward;
      var i := 0;
      while i < 2
        invariant 0 <= i <= 2 && Valid() && Started(0) && Started(1)
        invariant i < 2 ==> peers[1].state == Ready
        invariant i == 0 ==> Abs() == old(Abs()) && peers[0].state == Ready
        invariant i == 1 ==> Abs() == first
        invariant i == 2 ==> first.phase != R.Destroyed && Abs() == R.DoForward(first, 1, [], ok[1])
      {
        if contextState != R.Destroyed {
          DoForward(0, i, ok[i], []);
        } else {
          return false;
        }
        i := i + 1;
      }
      finished := true;
    }

    /** A completion of the operation of direction `idx`. */
    method DoIoCompletion(transferred: nat, idx: R.Side, ok: bool, ghost moved: seq<uint8>)
      requires Valid() && contextState != R.Handshake
      requires Started(0) && Started(1)
      requires |moved| == transferred && R.Possible(Abs(), idx, moved)
      requires peers[idx].state == Read ==> moved == buffer[idx][..transferred]
      modifies this
      ensures Valid() && Abs() == R.Next(old(Abs()), R.Complete(idx, moved, ok))
    {
      match contextState {
        case Established =>
          DoForward(transferred, idx, ok, moved);
        case Destroyed =>
          Dispose();
      }
    }
  }
}
