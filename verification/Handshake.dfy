/** The handshakes that precede the message protocol on a connection.

    A handshake is specified as a script: the listener expects some bytes, sends some
    bytes, or takes a number of bytes whatever they are, one exchange at a time. The
    class at the end is the source's state machine, with its states and buffers. */
module Handshake {
  import opened Bytes

  const NONCE_LENGTH: nat := 16
  const INFO_LENGTH: nat := 12

  /** Process id, user id and group id, all 1, as a little-endian machine lays them out. */
  const SERVER_INFO: seq<uint8> := [1, 0, 0, 0, 1, 0, 0, 0, 1, 0, 0, 0]

  type Nonce = s: seq<uint8> | |s| == 16 witness [0, 0, 0, 0, 0, 0, 0, 0, 0, 0, 0, 0, 0, 0, 0, 0]

  /** Unix-domain, named-pipe and Hyper-V listeners have no handshake: `Direct`. */
  datatype Listener = Direct | Libassuan(nonce: Nonce) | Cygwin(nonce: Nonce)

  /** The asynchronous operation a connection has outstanding. */
  datatype Io = Idle | Reading(want: nat) | Writing(chunk: seq<uint8>)

  datatype Exchange = Expect(bytes: seq<uint8>) | Send(bytes: seq<uint8>) | Take(count: nat)
  {
    function Operation(): Io {
      match this
      case Expect(b) => Reading(|b|)
      case Send(b) => Writing(b)
      case Take(n) => Reading(n)
    }

    /** Whether a completion that moved `moved` bytes satisfies the exchange. A send is
        complete when it moved as many bytes as it had to. */
    predicate SatisfiedBy(moved: seq<uint8>) {
      match this
      case Expect(b) => moved == b
      case Send(b) => |moved| == |b|
      case Take(n) => |moved| == n
    }

    function InputSize(): nat {
      match this
      case Expect(b) => |b|
      case Send(_) => 0
      case Take(n) => n
    }

    function Output(): seq<uint8> {
      if Send? then bytes else []
    }
  }

  function Script(listener: Listener): seq<Exchange> {
    match listener
    case Direct => []
    case Libassuan(nonce) => [Expect(nonce)]
    case Cygwin(nonce) => [Expect(nonce), Send(nonce), Take(INFO_LENGTH), Send(SERVER_INFO)]
  }

  /** What the first `k` exchanges of a script read and write. */
  function InputSize(script: seq<Exchange>, k: nat): nat
    requires k <= |script|
  {
    if k == 0 then 0 else InputSize(script, k - 1) + script[k - 1].InputSize()
  }

  function Output(script: seq<Exchange>, k: nat): seq<uint8>
    requires k <= |script|
  {
    if k == 0 then [] else Output(script, k - 1) + script[k - 1].Output()
  }

  /** `input` is what a peer that follows the script sends in its first `k` exchanges. */
  ghost predicate Follows(script: seq<Exchange>, k: nat, input: seq<uint8>)
    requires k <= |script|
  {
    if k == 0 then input == []
    else
      var last := script[k - 1];
      var n := last.InputSize();
      && n <= |input|
      && (last.Expect? ==> input[|input| - n..] == last.bytes)
      && Follows(script, k - 1, input[..|input| - n])
  }

  lemma FollowsOneMore(script: seq<Exchange>, k: nat, input: seq<uint8>, moved: seq<uint8>)
    requires k < |script| && Follows(script, k, input)
    requires script[k].SatisfiedBy(moved)
    ensures Follows(script, k + 1, input + if script[k].Send? then [] else moved)
  {
    var all := input + if script[k].Send? then [] else moved;
    assert all[..|all| - script[k].InputSize()] == input;
  }

  lemma {:induction false} FollowsSize(script: seq<Exchange>, k: nat, input: seq<uint8>)
    requires k <= |script| && Follows(script, k, input)
    ensures |input| == InputSize(script, k)
  {
    if k > 0 {
      FollowsSize(script, k - 1, input[..|input| - script[k - 1].InputSize()]);
    }
  }

  lemma {:induction false} OutputPrefix(script: seq<Exchange>, k: nat)
    requires k <= |script|
    ensures Output(script, k) <= Output(script, |script|)
    decreases |script| - k
  {
    if k < |script| {
      OutputPrefix(script, k + 1);
    }
  }

  lemma {:induction false} InputSizeGrows(script: seq<Exchange>, k: nat)
    requires k <= |script|
    ensures InputSize(script, k) <= InputSize(script, |script|)
    decreases |script| - k
  {
    if k < |script| {
      InputSizeGrows(script, k + 1);
    }
  }

  function HandshakeInputSize(listener: Listener): nat {
    InputSize(Script(listener), |Script(listener)|)
  }

  function HandshakeOutput(listener: Listener): seq<uint8> {
    Output(Script(listener), |Script(listener)|)
  }

  ghost predicate HandshakeInput(listener: Listener, input: seq<uint8>) {
    Follows(Script(listener), |Script(listener)|, input)
  }

  /** What a completed handshake read and wrote, for the three kinds of listener:
      nothing; the nonce; the nonce and 12 bytes of process information, answered by the
      nonce and the server's own information. */
  lemma HandshakeMeaning(listener: Listener, input: seq<uint8>)
    ensures HandshakeInput(listener, input) <==>
      match listener
      case Direct => input == []
      case Libassuan(nonce) => input == nonce
      case Cygwin(nonce) => |input| == NONCE_LENGTH + INFO_LENGTH && input[..NONCE_LENGTH] == nonce
    ensures HandshakeOutput(listener) ==
      match listener
      case Direct => []
      case Libassuan(_) => []
      case Cygwin(nonce) => nonce + SERVER_INFO
  {
    match listener
    case Direct =>
    case Libassuan(nonce) =>
      OnlyNonce(listener, input);
    case Cygwin(nonce) =>
      var s := Script(listener);
      assert input[..|input| - 0] == input;
      assert Follows(s, 4, input) <==> Follows(s, 3, input);
      if |input| >= INFO_LENGTH {
        var first := input[..|input| - INFO_LENGTH];
        assert first[..|first| - 0] == first;
        assert Follows(s, 3, input) <==> Follows(s, 2, first);
        assert Follows(s, 2, first) <==> Follows(s, 1, first);
        OnlyNonce(listener, first);
      }
      assert Output(s, 2) == Output(s, 1) + nonce == nonce;
      assert Output(s, 3) == nonce;
  }

  lemma OnlyNonce(listener: Listener, input: seq<uint8>)
    requires !listener.Direct?
    ensures Follows(Script(listener), 1, input) <==> input == listener.nonce
    ensures Output(Script(listener), 1) == []
  {
    var n := |listener.nonce|;
    if |input| >= n && input[..|input| - n] == [] {
      assert input[|input| - n..] == input;
    }
  }

  // ---------------------------------------------------------------- the order of exchanges

  /** A Cygwin peer hears the nonce only after it has shown it, is listened to again only
      after that, and hears the server's information only after it has given its own. */
  ghost predicate Paced(listener: Listener, received: seq<uint8>, sent: seq<uint8>) {
    match listener
    case Direct => true
    case Libassuan(_) => true
    case Cygwin(nonce) =>
      && (sent != [] ==> nonce <= received)
      && (|received| > |nonce| ==> nonce <= sent)
      && (|sent| > |nonce| ==> |received| >= |nonce| + INFO_LENGTH)
  }

  lemma PacedAtFirst(listener: Listener)
    ensures Paced(listener, [], [])
  {
  }

  /** The first `k` exchanges of a Cygwin handshake, one by one. */
  lemma CygwinExchanges(listener: Listener, k: nat, input: seq<uint8>)
    requires listener.Cygwin? && k <= 4 && Follows(Script(listener), k, input)
    ensures |input| == (if k == 0 then 0 else if k < 3 then 16 else 28)
    ensures k > 0 ==> listener.nonce <= input
    ensures Output(Script(listener), k) ==
      if k < 2 then [] else if k < 4 then listener.nonce else listener.nonce + SERVER_INFO
  {
    hide Output;
    var s := Script(listener);
    OutputsOf(listener);
    if k > 0 {
      var before := input[..|input| - s[k - 1].InputSize()];
      CygwinExchanges(listener, k - 1, before);
      if k == 1 {
        OnlyNonce(listener, input);
      }
    }
  }

  lemma OutputsOf(listener: Listener)
    requires listener.Cygwin?
    ensures var s, nonce := Script(listener), listener.nonce;
            && Output(s, 0) == Output(s, 1) == [] && Output(s, 2) == Output(s, 3) == nonce
            && Output(s, 4) == nonce + SERVER_INFO
  {
    var s, nonce := Script(listener), listener.nonce;
    assert Output(s, 1) == Output(s, 0) + [];
    assert Output(s, 2) == Output(s, 1) + nonce == nonce;
    assert Output(s, 3) == Output(s, 2) + [] == nonce;
  }

  /** While exchange `k` is going on, of which the bytes `partial` were read. */
  lemma PacedDuring(listener: Listener, k: nat, done: seq<uint8>, partial: seq<uint8>)
    requires k < |Script(listener)| && Follows(Script(listener), k, done)
    requires |partial| <= Script(listener)[k].InputSize()
    ensures Paced(listener, done + partial, Output(Script(listener), k + 1))
  {
    hide Follows, Output;
    if listener.Cygwin? {
      CygwinExchanges(listener, k, done);
      OutputsOf(listener);
    }
  }

  /** Before exchange `k` is begun. */
  lemma PacedBetween(listener: Listener, k: nat, done: seq<uint8>)
    requires k <= |Script(listener)| && Follows(Script(listener), k, done)
    ensures Paced(listener, done, Output(Script(listener), k))
  {
    hide Follows, Output;
    if listener.Cygwin? {
      CygwinExchanges(listener, k, done);
    }
  }

  // ---------------------------------------------------------------- the classes

  datatype HandshakeState = Start | ReadNonce | WriteNonce | ReadInfo | WriteInfo

  /** How many exchanges of the script have been started. */
  function Started(state: HandshakeState): nat {
    match state
    case Start => 0
    case ReadNonce => 1
    case WriteNonce => 2
    case ReadInfo => 3
    case WriteInfo => 4
  }

  datatype Step = Continue(io: Io) | Failed | Finished

  /** The listener-specific data of a connection, and the handshakes that work on it.
      The operation a step starts is its result; the caller issues it. */
  class ListenerConnectionData {
    const nonce: array<uint8>
    const info: array<uint8>
    var state: HandshakeState
    var clientInfo: seq<uint8>

    constructor ()
      ensures Valid() && fresh(nonce) && fresh(info) && state == Start
    {
      nonce := new uint8[NONCE_LENGTH];
      info := new uint8[INFO_LENGTH];
      state := Start;
      clientInfo := [];
    }

    ghost predicate Valid()
      reads this
    {
      nonce.Length == NONCE_LENGTH && info.Length == INFO_LENGTH && nonce != info
    }

    /** Where the outstanding read, if any, delivers its bytes. */
    ghost function Buffer(): array<uint8>
      reads this
    {
      if state == ReadInfo then info else nonce
    }

    method DoHandshake(listener: Listener, transferred: nat, ghost moved: seq<uint8>) returns (step: Step)
      requires Valid() && Started(state) <= |Script(listener)| && |moved| == transferred
      requires state == ReadNonce || state == ReadInfo ==>
        transferred <= Buffer().Length && moved == Buffer()[..transferred]
      modifies this`state, this`clientInfo, info
      ensures Valid() && Started(state) <= |Script(listener)|
      ensures var script, k := Script(listener), old(Started(state));
        if k > 0 && !script[k - 1].SatisfiedBy(moved) then step == Failed && state == old(state)
        else if k == |script| then step == Finished && state == old(state)
        else step == Continue(script[k].Operation()) && Started(state) == k + 1
      ensures listener.Cygwin? && old(state) == ReadInfo && step.Continue? ==> clientInfo == moved
    {
      match listener {
        case Direct =>
          step := Finished;
        case Libassuan(expected) =>
          match state {
            case Start =>
              state := ReadNonce;
              step := Continue(Reading(NONCE_LENGTH));
            case ReadNonce =>
              if transferred != NONCE_LENGTH {
                return Failed;
              }
              if nonce[..] != expected {
                return Failed;
              }
              step := Finished;
          }
        case Cygwin(expected) =>
          match state {
            case Start =>
              state := ReadNonce;
              step := Continue(Reading(NONCE_LENGTH));
            case ReadNonce =>
              if transferred != NONCE_LENGTH {
                return Failed;
              }
              if nonce[..] != expected {
                return Failed;
              }
              state := WriteNonce;
              step := Continue(Writing(expected));
            case WriteNonce =>
              if transferred != NONCE_LENGTH {
                return Failed;
              }
              state := ReadInfo;
              step := Continue(Reading(INFO_LENGTH));
            case ReadInfo =>
              if transferred != INFO_LENGTH {
                return Failed;
              }
              clientInfo := info[..];
              state := WriteInfo;
              forall i | 0 <= i < INFO_LENGTH {
                info[i] := SERVER_INFO[i];
              }
              assert info[..] == SERVER_INFO;
              step := Continue(Writing(info[..]));
            case WriteInfo =>
              if transferred != INFO_LENGTH {
                return Failed;
              }
              step := Finished;
          }
      }
    }
  }
}
