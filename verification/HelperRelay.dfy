/** The relay of the WSL helper: one process, one buffer, blocking sends, and poll.

    The world outside is a script: the bytes each side will send, into what pieces receives
    and sends fall, which of them fail, and what each poll reports. Every behaviour of the
    sockets in a finite stretch of a run is some script. */
module HelperRelay {
  import opened Bytes
  import R = Relay

  const BUFFER_SIZE: nat := 8 * 1024

  type Side = R.Side

  datatype Take = Chunk(n: nat) | ReceiveError
  datatype Give = Accept(n: nat) | Interrupted | SendError

  /** One socket. With no script left, a receive takes all it can and a send all it has. */
  datatype End = End(
    inbound: seq<uint8>,   // bytes the other party has yet to send before it closes
    received: seq<uint8>,  // bytes received so far
    sent: seq<uint8>,      // bytes sent so far
    takes: seq<Take>,
    gives: seq<Give>,
    receiveShut: bool,
    sendShut: bool)

  datatype Events = Events(error: bool, readable: bool, hangup: bool)
  datatype Poll = Failed(interrupted: bool) | Reported(events: seq<Events>)

  /** How a call of DoForward comes out. `Running` means that the script of polls is used
      up. `HungUp` says for each side whether its input was read up to its end. */
  datatype Result = Running | PollFailed | SocketFailed | ReceiveFailed | SendFailed | HungUp(atEnd: seq<bool>)

  // ---------------------------------------------------------------- what a script holds in store

  /** What a side received and what the other party has yet to send do not change together. */
  ghost function Input(e: End): seq<uint8> {
    e.received + e.inbound
  }

  /** A later state of a socket: nothing is taken back, and no error is left in its script
      that was not there before. */
  ghost predicate Continues(e: End, f: End) {
    && Input(f) == Input(e) && e.received <= f.received && e.sent <= f.sent
    && (ReceiveError in f.takes ==> ReceiveError in e.takes)
    && (SendError in f.gives ==> SendError in e.gives)
  }

  lemma NothingYet(e: End)
    ensures Continues(e, e)
  {
  }

  lemma Meanwhile(e: End, f: End, g: End)
    requires Continues(e, f) && Continues(f, g)
    ensures Continues(e, g) && Input(g) == Input(e) && |f.received| <= |g.received|
    ensures ReceiveError in f.takes ==> ReceiveError in e.takes
    ensures SendError in f.gives ==> SendError in e.gives
  {
  }

  /** Receiving takes away from what is to come. */
  lemma LessToCome(e: End, f: End, r: int)
    requires Continues(e, f) && |f.received| == |e.received| + if r > 0 then r else 0
    ensures |f.inbound| == |e.inbound| - if r > 0 then r else 0
  {
    assert |Input(e)| == |e.received| + |e.inbound| && |Input(f)| == |f.received| + |f.inbound|;
  }

  lemma ShutContinues(e: End, f: End)
    requires Continues(e, f)
    ensures Continues(e, f.(receiveShut := true)) && Continues(e, f.(sendShut := true))
  {
  }

  predicate HangsUp(e: Events) {
    e.hangup && !e.readable
  }

  /** A poll that lets the relay go on, unless a socket it reads from has something to say. */
  predicate Calm(p: Poll) {
    match p
    case Failed(interrupted) => interrupted
    case Reported(events) => forall i :: 0 <= i < |events| ==> !events[i].error && !HangsUp(events[i])
  }

  predicate WellFormed(polls: seq<Poll>) {
    forall k :: 0 <= k < |polls| && polls[k].Reported? ==> |polls[k].events| == 2
  }

  function Readable(p: Poll, i: Side): nat
    requires p.Reported? ==> |p.events| == 2
  {
    if p.Reported? && p.events[i].readable then 1 else 0
  }

  predicate ErrorAt(polls: seq<Poll>, n: nat, i: Side)
    requires WellFormed(polls)
  {
    n < |polls| && polls[n].Reported? && polls[n].events[i].error
  }

  predicate ActiveAt(polls: seq<Poll>, n: nat, i: Side)
    requires WellFormed(polls)
  {
    n < |polls| && polls[n].Reported? && (polls[n].events[i].readable || polls[n].events[i].hangup)
  }

  /** Some poll reports that a side has hung up, with nothing left to read. */
  ghost predicate SomeHangup(polls: seq<Poll>)
    requires WellFormed(polls)
  {
    exists n, i: Side :: 0 <= n < |polls| && polls[n].Reported? && HangsUp(polls[n].events[i])
  }

  /** How many of the first `n` polls report side `i` readable. */
  function ReadableCount(polls: seq<Poll>, n: nat, i: Side): nat
    requires WellFormed(polls) && n <= |polls|
  {
    if n == 0 then 0 else ReadableCount(polls, n - 1, i) + Readable(polls[n - 1], i)
  }

  /** No call fails: neither a poll, nor a receive, nor a send, nor a socket. */
  ghost predicate NoErrors(polls: seq<Poll>, ends: seq<End>) {
    && (forall k :: 0 <= k < |polls| ==>
          match polls[k]
          case Failed(interrupted) => interrupted
          case Reported(events) => forall i :: 0 <= i < |events| ==> !events[i].error)
    && forall i :: 0 <= i < |ends| ==> ReceiveError !in ends[i].takes && SendError !in ends[i].gives
  }

  class Session {
    const ioBuffer: array<uint8>
    var ends: seq<End>

    constructor (e0: End, e1: End)
      ensures Valid() && ends == [e0, e1] && fresh(ioBuffer)
    {
      ioBuffer := new uint8[BUFFER_SIZE];
      ends := [e0, e1];
    }

    predicate Valid()
      reads this
    {
      |ends| == 2 && ioBuffer.Length == BUFFER_SIZE
    }

    /** The bytes received from side `i` and those sent to the other. */
    ghost predicate Forwarded(i: Side)
      requires Valid()
      reads this
    {
      R.Pipe(ends[i].received, ends[R.PeerOf(i)].sent, [])
    }

    ghost predicate Prefix(i: Side)
      requires Valid()
      reads this
    {
      ends[R.PeerOf(i)].sent <= ends[i].received
    }

    ghost predicate Open(i: Side)
      requires Valid()
      reads this
    {
      !ends[i].receiveShut && !ends[R.PeerOf(i)].sendShut
    }

    ghost predicate Shut(i: Side)
      requires Valid()
      reads this
    {
      ends[i].receiveShut && ends[i].sendShut
    }

    /** Returns -1 for an error, 0 at the end of the input, and otherwise the number of bytes
        put into the buffer. */
    method Receive(i: Side) returns (r: int)
      requires Valid() && !ends[i].receiveShut
      modifies this`ends, ioBuffer
      ensures Valid() && -1 <= r <= BUFFER_SIZE
      ensures ends[R.PeerOf(i)] == old(ends[R.PeerOf(i)])
      ensures ends[i] == old(ends[i]).(inbound := ends[i].inbound, received := ends[i].received, takes := ends[i].takes)
      ensures Continues(old(ends[i]), ends[i])
      ensures if r > 0 then ends[i].received == old(ends[i].received) + ioBuffer[..r]
              else ends[i].received == old(ends[i].received)
      ensures r == 0 ==> ends[i].inbound == []
      ensures r < 0 ==> ReceiveError in old(ends[i].takes)
    {
      var e := ends[i];
      var count := Min(BUFFER_SIZE, |e.inbound|);
      if e.takes != [] {
        var take := e.takes[0];
        e := e.(takes := e.takes[1..]);
        ends := ends[i := e];
        if take == ReceiveError {
          return -1;
        }
        count := Min(count, if take.n == 0 then 1 else take.n);
      }
      if e.inbound == [] {
        return 0;
      }
      forall k | 0 <= k < count {
        ioBuffer[k] := e.inbound[k];
      }
      assert ioBuffer[..count] == e.inbound[..count];
      assert e.inbound == e.inbound[..count] + e.inbound[count..];
      ends := ends[i := e.(received := e.received + ioBuffer[..count], inbound := e.inbound[count..])];
      r := count;
    }

    /** One call of send for the bytes of the buffer from `from` to `to`. */
    method Send(i: Side, from: nat, to: nat) returns (r: int, interrupted: bool)
      requires Valid() && from < to <= BUFFER_SIZE && !ends[i].sendShut
      modifies this`ends
      ensures Valid() && ends[R.PeerOf(i)] == old(ends[R.PeerOf(i)])
      ensures ends[i] == old(ends[i]).(sent := ends[i].sent, gives := ends[i].gives)
      ensures Continues(old(ends[i]), ends[i])
      ensures if r < 0 then ends[i].sent == old(ends[i].sent)
              else from + r <= to && ends[i].sent == old(ends[i].sent) + ioBuffer[from..from + r]
      ensures |ends[i].gives| < |old(ends[i].gives)| || (ends[i].gives == old(ends[i].gives) && r == to - from)
      ensures r < 0 && !interrupted ==> SendError in old(ends[i].gives)
    {
      interrupted := false;
      var e := ends[i];
      if e.gives == [] {
        ends := ends[i := e.(sent := e.sent + ioBuffer[from..to])];
        return to - from, false;
      }
      var give := e.gives[0];
      e := e.(gives := e.gives[1..]);
      match give {
        case Accept(n) =>
          r := Min(n, to - from);
          ends := ends[i := e.(sent := e.sent + ioBuffer[from..from + r])];
        case Interrupted =>
          r, interrupted := -1, true;
          ends := ends[i := e];
        case SendError =>
          r := -1;
          ends := ends[i := e];
      }
    }

    /** Sends the first `length` bytes of the buffer, in as many pieces as it takes. It
        fails only if a send does. */
    method SendBuffer(i: Side, length: nat) returns (ok: bool)
      requires Valid() && length <= BUFFER_SIZE && !ends[i].sendShut
      modifies this`ends
      ensures Valid() && ends[R.PeerOf(i)] == old(ends[R.PeerOf(i)])
      ensures ends[i] == old(ends[i]).(sent := ends[i].sent, gives := ends[i].gives)
      ensures Continues(old(ends[i]), ends[i])
      ensures ok ==> ends[i].sent == old(ends[i].sent) + ioBuffer[..length]
      ensures !ok ==> old(ends[i].sent) <= ends[i].sent <= old(ends[i].sent) + ioBuffer[..length]
      ensures !ok ==> SendError in old(ends[i].gives)
    {
      var sentBytes := 0;
      while sentBytes != length
        invariant 0 <= sentBytes <= length && Valid()
        invariant ends[R.PeerOf(i)] == old(ends[R.PeerOf(i)])
        invariant ends[i] == old(ends[i]).(sent := ends[i].sent, gives := ends[i].gives)
        invariant Continues(old(ends[i]), ends[i])
        invariant ends[i].sent == old(ends[i].sent) + ioBuffer[..sentBytes]
        decreases |ends[i].gives|, length - sentBytes
      {
        var r, interrupted := Send(i, sentBytes, length);
        if r < 0 {
          if interrupted {
            continue;
          }
          return false;
        }
        assert ioBuffer[..sentBytes + r] == ioBuffer[..sentBytes] + ioBuffer[sentBytes..sentBytes + r];
        sentBytes := sentBytes + r;
      }
      ok := true;
    }

    /** Forwards everything side `i` still sends, and then passes the end of its input on.
        `atEnd` is false when a receive failed instead. It is called for one side and then,
        as the `second` half, for the other, which by then is shut down for sending: its
        party knows that nothing more will come, and can end its own input. */
    method Finish(i: Side, ghost second: bool) returns (ok: bool, atEnd: bool)
      requires Valid() && Open(i) && Forwarded(i) && second == ends[i].sendShut
      modifies this`ends, ioBuffer
      ensures Valid() && Prefix(i) && (ok ==> Forwarded(i) && (atEnd ==> ends[i].inbound == []))
      ensures Continues(old(ends[i]), ends[i]) && Continues(old(ends[R.PeerOf(i)]), ends[R.PeerOf(i)])
      ensures ends[i].sent == old(ends[i].sent) && ends[i].sendShut == old(ends[i].sendShut)
      ensures ends[R.PeerOf(i)].received == old(ends[R.PeerOf(i)].received)
      ensures ends[R.PeerOf(i)].inbound == old(ends[R.PeerOf(i)].inbound)
      ensures ends[R.PeerOf(i)].receiveShut == old(ends[R.PeerOf(i)].receiveShut)
      ensures ok ==> ends[i].receiveShut && ends[R.PeerOf(i)].sendShut
      ensures !ok ==> ends[i].receiveShut == old(ends[i].receiveShut)
      ensures !ok ==> ends[R.PeerOf(i)].sendShut == old(ends[R.PeerOf(i)].sendShut)
      ensures !ok ==> SendError in old(ends[R.PeerOf(i)].gives)
      ensures ok && !atEnd ==> ReceiveError in old(ends[i].takes)
    {
      hide Input, Continues;
      var j := R.PeerOf(i);
      assert ends[j].sent + [] == ends[j].sent;
      NothingYet(ends[i]);
      NothingYet(ends[j]);
      atEnd := false;
      var rr := 1;
      while rr > 0
        invariant Valid() && Open(i) && ends[j].sent == ends[i].received
        invariant Continues(old(ends[i]), ends[i]) && Continues(old(ends[j]), ends[j])
        invariant ends[i].sent == old(ends[i].sent) && ends[i].sendShut == old(ends[i].sendShut)
        invariant ends[j] == old(ends[j]).(sent := ends[j].sent, gives := ends[j].gives)
        invariant rr == 0 ==> ends[i].inbound == []
        invariant rr < 0 ==> ReceiveError in old(ends[i].takes)
        invariant -1 <= rr
        decreases |ends[i].inbound|, rr
      {
        ghost var before := ends;
        rr := Receive(i);
        LessToCome(before[i], ends[i], rr);
        Meanwhile(old(ends[i]), before[i], ends[i]);
        if rr > 0 {
          var sent := SendBuffer(j, rr);
          Meanwhile(old(ends[j]), before[j], ends[j]);
          if !sent {
            return false, false;
          }
        }
      }
      atEnd := rr == 0;
      ShutContinues(old(ends[i]), ends[i]);
      ShutContinues(old(ends[j]), ends[j]);
      ends := ends[i := ends[i].(receiveShut := true)];
      ends := ends[j := ends[j].(sendShut := true)];
      assert ends[j].sent + [] == ends[j].sent;
      ok := true;
    }

    /** Called when side `i` has hung up: finishes its direction, then the other. */
    method GracefullyHup(i: Side) returns (result: Result)
      requires Valid() && Open(0) && Open(1) && Forwarded(0) && Forwarded(1)
      modifies this`ends, ioBuffer
      ensures Valid() && Prefix(0) && Prefix(1)
      ensures Continues(old(ends[0]), ends[0]) && Continues(old(ends[1]), ends[1])
      ensures result == SendFailed || (result.HungUp? && |result.atEnd| == 2)
      ensures result == SendFailed ==> SendError in old(ends[0].gives) || SendError in old(ends[1].gives)
      ensures result.HungUp? ==> Forwarded(0) && Forwarded(1) && Shut(0) && Shut(1)
      ensures result == SendFailed ==> !ends[R.PeerOf(i)].receiveShut && !ends[i].sendShut
      ensures !(ends[i].receiveShut && ends[R.PeerOf(i)].sendShut) ==>
        ends[R.PeerOf(i)].received == old(ends[R.PeerOf(i)].received)
      ensures result.HungUp? ==> forall k: Side ::
        if result.atEnd[k] then ends[k].inbound == [] else ReceiveError in old(ends[k].takes)
    {
      hide Input, Continues;
      var ok, first := Finish(i, false);
      if !ok {
        return SendFailed;
      }
      ghost var between := ends;
      var second: bool;
      ok, second := Finish(R.PeerOf(i), true);
      Meanwhile(old(ends[0]), between[0], ends[0]);
      Meanwhile(old(ends[1]), between[1], ends[1]);
      if !ok {
        return SendFailed;
      }
      result := HungUp(if i == 0 then [first, second] else [second, first]);
    }

    /** The relay is at work, as it was when the two sockets were those of `start`. */
    ghost predicate InStep(start: seq<End>)
      requires |start| == 2
      reads this
    {
      && Valid() && Open(0) && Open(1) && Forwarded(0) && Forwarded(1)
      && Continues(start[0], ends[0]) && Continues(start[1], ends[1])
    }

    /** How the relay may stop: with everything forwarded that was received, unless a send
        failed; with everything forwarded that was ever sent, after a hang-up without a
        receive error; and with an error only if there was one. A hang-up has shut down both
        sockets in both directions; anything else but a failed send leaves them open. */
    ghost predicate Stopped(result: Result, start: seq<End>)
      requires |start| == 2
      reads this
    {
      && Valid() && Prefix(0) && Prefix(1)
      && Continues(start[0], ends[0]) && Continues(start[1], ends[1])
      && (result != SendFailed ==> Forwarded(0) && Forwarded(1))
      && (result == SendFailed ==> SendError in start[0].gives || SendError in start[1].gives)
      && (result == ReceiveFailed ==> ReceiveError in start[0].takes || ReceiveError in start[1].takes)
      && (result.HungUp? ==> Shut(0) && Shut(1))
      && (result != SendFailed && !result.HungUp? ==> Open(0) && Open(1))
      && (result.HungUp? ==>
            && |result.atEnd| == 2
            && forall k: Side ::
                 if result.atEnd[k] then ends[R.PeerOf(k)].sent == Input(start[k]) else ReceiveError in start[k].takes)
    }

    ghost predicate NoLess(before: seq<End>)
      requires |before| == |ends| == 2
      reads this
    {
      |ends[0].received| >= |before[0].received| && |ends[1].received| >= |before[1].received|
    }

    method HangUp(i: Side, ghost start: seq<End>) returns (result: Result)
      requires |start| == 2 && InStep(start)
      modifies this`ends, ioBuffer
      ensures Valid() && Stopped(result, start) && (result == SendFailed || result.HungUp?)
      ensures NoLess(old(ends))
    {
      hide Continues;
      ghost var before := ends;
      result := GracefullyHup(i);
      Meanwhile(start[0], before[0], ends[0]);
      Meanwhile(start[1], before[1], ends[1]);
      if result.HungUp? {
        forall k: Side | result.atEnd[k] ensures ends[R.PeerOf(k)].sent == Input(start[k]) {
          assert ends[k].inbound == [] && Forwarded(k);
          assert ends[k].received + [] == ends[k].received;
        }
      }
    }

    /** Reads some from side `i`, then writes it to the other. */
    method Pass(i: Side, ghost start: seq<End>) returns (goOn: bool, result: Result)
      requires |start| == 2 && InStep(start)
      modifies this`ends, ioBuffer
      ensures Valid() && if goOn then InStep(start) else Stopped(result, start)
      ensures NoLess(old(ends)) && (goOn ==> |ends[i].received| > |old(ends[i].received)|)
      ensures !goOn ==> result == SendFailed || result == ReceiveFailed || result.HungUp?
    {
      hide Input, Continues;
      goOn := false;
      var j := R.PeerOf(i);
      ghost var before := ends;
      var rr := Receive(i);
      Meanwhile(start[i], before[i], ends[i]);
      if rr < 0 {
        result := ReceiveFailed;
      } else if rr == 0 {
        result := HangUp(i, start);
      } else {
        assert before[j].sent + [] == before[j].sent;
        goOn := SendBuffer(j, rr);
        Meanwhile(start[j], before[j], ends[j]);
        result := if goOn then Running else SendFailed;
      }
    }

    /** One side's events of one poll. */
    method Serve(i: Side, events: Events, ghost start: seq<End>) returns (goOn: bool, result: Result)
      requires |start| == 2 && InStep(start)
      modifies this`ends, ioBuffer
      ensures Valid() && if goOn then InStep(start) else Stopped(result, start)
      ensures goOn ==> !events.error && !HangsUp(events)
      ensures NoLess(old(ends)) && (goOn && events.readable ==> |ends[i].received| > |old(ends[i].received)|)
      ensures !goOn ==> result != Running && result != PollFailed
      ensures !goOn && result == SocketFailed ==> events.error
      ensures !goOn && result != SocketFailed ==> events.readable || events.hangup
    {
      hide Input, Continues;
      goOn, result := false, Running;
      if events.error {
        result := SocketFailed;
        StoppedInStep(result, start);
      } else if events.readable {
        goOn, result := Pass(i, start);
      } else if events.hangup {
        result := HangUp(i, start);
      } else {
        goOn := true;
      }
    }

    lemma StoppedInStep(result: Result, start: seq<End>)
      requires |start| == 2 && InStep(start)
      requires result == SocketFailed || result == PollFailed || result == Running
      ensures Stopped(result, start)
    {
      assert ends[0].sent + [] == ends[0].sent && ends[1].sent + [] == ends[1].sent;
    }

    /** Every report of a readable side has brought bytes since `start`: those of the first
        `n` polls, and those of the next one for sides before `i`. */
    ghost predicate Served(polls: seq<Poll>, n: nat, i: nat, start: seq<End>)
      requires |start| == 2 && WellFormed(polls) && n <= |polls| && (i > 0 ==> n < |polls|) && |ends| == 2
      reads this
    {
      forall k: Side :: |ends[k].received| >=
        |start[k].received| + ReadableCount(polls, n, k) + if k < i then Readable(polls[n], k) else 0
    }

    /** The result says why the relay stopped after serving `n` polls: none of these could
        stop it; the next one did, by having failed, by reporting an error, or by reporting
        a side that then hung up, or failed to receive or to be sent; or there is none. */
    ghost predicate Justified(result: Result, polls: seq<Poll>, n: nat, start: seq<End>)
      requires |start| == 2 && WellFormed(polls) && |ends| == 2
      reads this
    {
      && n <= |polls| && (forall k :: 0 <= k < n ==> Calm(polls[k])) && Served(polls, n, 0, start)
      && match result
         case Running => n == |polls|
         case PollFailed => n < |polls| && polls[n] == Failed(false)
         case SocketFailed => exists i: Side :: ErrorAt(polls, n, i)
         case _ => exists i: Side :: ActiveAt(polls, n, i)
    }

    /** Both sides of one poll. */
    method ServeBoth(polls: seq<Poll>, n: nat, ghost start: seq<End>) returns (goOn: bool, result: Result)
      requires |start| == 2 && WellFormed(polls) && n < |polls| && polls[n].Reported?
      requires InStep(start) && Valid() && Served(polls, n, 0, start)
      requires forall k :: 0 <= k < n ==> Calm(polls[k])
      modifies this`ends, ioBuffer
      ensures Valid()
      ensures goOn ==> InStep(start) && Served(polls, n, 2, start) && Calm(polls[n])
      ensures !goOn ==> result != Running && Stopped(result, start) && Justified(result, polls, n, start)
    {
      hide InStep, Stopped, ReadableCount, Input, Continues;
      goOn, result := true, Running;
      var i := 0;
      while i < 2
        invariant 0 <= i <= 2 && InStep(start) && Valid() && Served(polls, n, i, start) && goOn
        invariant forall k :: 0 <= k < i ==> !polls[n].events[k].error && !HangsUp(polls[n].events[k])
      {
        goOn, result := Serve(i, polls[n].events[i], start);
        if !goOn {
          assert if result == SocketFailed then ErrorAt(polls, n, i) else ActiveAt(polls, n, i);
          return;
        }
        i := i + 1;
      }
    }

    /** The relay's loop. At every moment what was sent to a side is a prefix of what was
        received from the other; while the loop runs it is all of it. `served` is the number
        of polls it served without stopping. If no call fails and some poll reports a
        hang-up, the relay ends by hanging up, and everything both sides ever sent was
        forwarded. */
    method DoForward(polls: seq<Poll>) returns (result: Result, ghost served: nat)
      requires Valid() && Open(0) && Open(1) && Forwarded(0) && Forwarded(1) && WellFormed(polls)
      modifies this`ends, ioBuffer
      ensures Stopped(result, old(ends)) && Justified(result, polls, served, old(ends))
      ensures NoErrors(polls, old(ends)) ==> result == Running || result == HungUp([true, true])
      ensures NoErrors(polls, old(ends)) && SomeHangup(polls) ==>
        && result == HungUp([true, true]) && Shut(0) && Shut(1)
        && ends[1].sent == old(Input(ends[0])) && ends[0].sent == old(Input(ends[1]))
    {
      hide InStep, Stopped, Calm, Input, Continues;
      ghost var start := ends;
      StartInStep();
      var next, goOn := 0, true;
      result := Running;
      while goOn && next < |polls|
        invariant 0 <= next <= |polls| && Valid()
        invariant goOn ==> InStep(start) && Served(polls, next, 0, start)
        invariant goOn ==> forall n :: 0 <= n < next ==> Calm(polls[n])
        invariant !goOn ==> result != Running && Stopped(result, start) && Justified(result, polls, next, start)
        decreases |polls| - next, goOn
      {
        match polls[next] {
          case Failed(interrupted) =>
            if !interrupted {
              StoppedInStep(PollFailed, start);
              goOn, result := false, PollFailed;
              continue;
            }
            InterruptedIsCalm(polls[next]);
          case Reported(events) =>
            goOn, result := ServeBoth(polls, next, start);
            if !goOn {
              continue;
            }
        }
        next := next + 1;
      }
      if goOn {
        result := Running;
        StoppedInStep(result, start);
      }
      served := next;
      WithoutErrors(result, polls, served, start);
    }

    lemma StartInStep()
      requires Valid() && Open(0) && Open(1) && Forwarded(0) && Forwarded(1)
      ensures InStep(ends)
    {
    }

    lemma InterruptedIsCalm(p: Poll)
      requires p == Failed(true)
      ensures Calm(p)
    {
    }

    /** Where the relay can have stopped if no call has failed. */
    lemma WithoutErrors(result: Result, polls: seq<Poll>, n: nat, start: seq<End>)
      requires |start| == 2 && WellFormed(polls) && Valid()
      requires Stopped(result, start) && Justified(result, polls, n, start)
      ensures NoErrors(polls, start) ==> result == Running || result == HungUp([true, true])
      ensures NoErrors(polls, start) && SomeHangup(polls) ==>
        && result == HungUp([true, true]) && Shut(0) && Shut(1)
        && ends[1].sent == Input(start[0]) && ends[0].sent == Input(start[1])
    {
      hide Input, Continues, Served;
      if NoErrors(polls, start) {
        assert result != SocketFailed by {
          if i: Side :| ErrorAt(polls, n, i) {
            assert polls[n].Reported?;
          }
        }
        if result.HungUp? {
          assert ReceiveError !in start[0].takes && ReceiveError !in start[1].takes;
          assert result.atEnd == [true, true];
        }
      }
    }
  }
}
