/** What the dispatcher does with one request: it asks the upstream agents and makes one
    reply of their answers.

    An upstream agent is an oracle. Each handler contacts each client at most once, so a
    sequence of outcomes, one per client, stands for everything the agents can do. */
module Agent {
  import opened Wrappers
  import opened Bytes
  import opened Codec

  const SSH_AGENT_FAILURE: uint8 := 5
  const SSH_AGENT_SUCCESS: uint8 := 6
  const REQUEST_IDENTITIES: uint8 := 11
  const SIGN_REQUEST: uint8 := 13
  const SIGN_RESPONSE: uint8 := 14
  const ADD_IDENTITY: uint8 := 17
  const REMOVE_IDENTITY: uint8 := 18
  const REMOVE_ALL_IDENTITIES: uint8 := 19

  /** What one SendSshMessage call does: fail, or overwrite the message with a reply.
      A client that reports success has set length and data to the same size. */
  datatype Outcome = Failed | Answered(data: seq<uint8>)

  datatype Sent = Sent(client: nat, data: seq<uint8>)

  datatype Setup = Setup(names: seq<seq<uint8>>, mangleComment: bool)

  ghost predicate Plausible(setup: Setup, outcomes: seq<Outcome>) {
    && |outcomes| == |setup.names|
    && forall i :: 0 <= i < |outcomes| && outcomes[i].Answered? ==> |outcomes[i].data| < WORD32
  }

  // ---------------------------------------------------------------- the replies

  predicate Wanted(o: Outcome, kind: uint8) {
    o.Answered? && o.data != [] && o.data[0] == kind
  }

  /** How many clients are asked when the first reply of the given kind ends the search. */
  function Asked(outcomes: seq<Outcome>, kind: uint8): (n: nat)
    ensures n <= |outcomes|
  {
    if outcomes == [] then 0
    else if Wanted(outcomes[0], kind) then 1
    else 1 + Asked(outcomes[1..], kind)
  }

  function FirstReply(outcomes: seq<Outcome>, kind: uint8): seq<uint8> {
    if outcomes == [] then [SSH_AGENT_FAILURE]
    else if Wanted(outcomes[0], kind) then outcomes[0].data
    else FirstReply(outcomes[1..], kind)
  }

  function Mangle(id: Identity, name: seq<uint8>): Identity {
    id.(comment := id.comment + [0x20, 0x5B] + name + [0x5D])
  }

  function MangleAll(ids: seq<Identity>, name: seq<uint8>): (r: seq<Identity>)
    ensures |r| == |ids| && forall i :: 0 <= i < |ids| ==> r[i] == Mangle(ids[i], name)
  {
    seq(|ids|, i requires 0 <= i < |ids| => Mangle(ids[i], name))
  }

  /** The identities a client contributes to the combined answer: all of a well-formed
      answer, or none. */
  function Contribution(name: seq<uint8>, mangle: bool, o: Outcome): seq<Identity> {
    if !Wanted(o, IDENTITIES_ANSWER) then []
    else
      match DecodeAnswer(o.data)
      case Malformed => []
      case Ok(ids, _) => if mangle then MangleAll(ids, name) else ids
  }

  /** The identities of the first `n` clients, in client order. */
  function Collected(setup: Setup, outcomes: seq<Outcome>, n: nat): seq<Identity>
    requires n <= |outcomes| == |setup.names|
  {
    if n == 0 then []
    else
      Collected(setup, outcomes, n - 1)
      + Contribution(setup.names[n - 1], setup.mangleComment, outcomes[n - 1])
  }

  /** The reply to a request, or none for an empty message. */
  function Reply(setup: Setup, request: seq<uint8>, outcomes: seq<Outcome>): Option<seq<uint8>>
    requires |outcomes| == |setup.names|
  {
    if request == [] then None
    else if request[0] == ADD_IDENTITY then Some(FirstReply(outcomes, SSH_AGENT_SUCCESS))
    else if request[0] == REMOVE_IDENTITY then Some(FirstReply(outcomes, SSH_AGENT_SUCCESS))
    else if request[0] == REMOVE_ALL_IDENTITIES then Some([SSH_AGENT_SUCCESS])
    else if request[0] == REQUEST_IDENTITIES then Some(EncodeAnswer(Collected(setup, outcomes, |outcomes|)))
    else if request[0] == SIGN_REQUEST then Some(FirstReply(outcomes, SIGN_RESPONSE))
    else Some([SSH_AGENT_FAILURE])
  }

  /** The clients contacted for a request. */
  function Contacted(setup: Setup, request: seq<uint8>, outcomes: seq<Outcome>): (n: nat)
    requires |outcomes| == |setup.names|
    ensures n <= |outcomes|
  {
    if request == [] then 0
    else if request[0] == ADD_IDENTITY || request[0] == REMOVE_IDENTITY then Asked(outcomes, SSH_AGENT_SUCCESS)
    else if request[0] == REMOVE_ALL_IDENTITIES || request[0] == REQUEST_IDENTITIES then |outcomes|
    else if request[0] == SIGN_REQUEST then Asked(outcomes, SIGN_RESPONSE)
    else 0
  }

  // ---------------------------------------------------------------- what the replies mean

  /** The reply is the first one of the wanted kind, unchanged, nobody after its sender
      was asked, and failure is reported exactly when no client gave such a reply. */
  lemma {:induction false} FirstReplyMeaning(outcomes: seq<Outcome>, kind: uint8)
    requires kind != SSH_AGENT_FAILURE
    ensures var n := Asked(outcomes, kind);
            && (forall i :: 0 <= i < n - 1 ==> !Wanted(outcomes[i], kind))
            && (FirstReply(outcomes, kind) != [SSH_AGENT_FAILURE] ==>
                  n > 0 && Wanted(outcomes[n - 1], kind) && FirstReply(outcomes, kind) == outcomes[n - 1].data)
            && (FirstReply(outcomes, kind) == [SSH_AGENT_FAILURE] <==>
                  forall i :: 0 <= i < |outcomes| ==> !Wanted(outcomes[i], kind))
            && (FirstReply(outcomes, kind) == [SSH_AGENT_FAILURE] ==> n == |outcomes|)
  {
    if outcomes != [] {
      if Wanted(outcomes[0], kind) {
      } else {
        var others := outcomes[1..];
        FirstReplyMeaning(others, kind);
        assert forall i :: 0 < i < |outcomes| ==> outcomes[i] == others[i - 1];
        assert forall i :: 0 <= i < |others| ==> others[i] == outcomes[i + 1];
      }
    }
  }

  /** The answer of client `i` begins with `kind`, and that of no client before it. */
  ghost predicate FirstWith(outcomes: seq<Outcome>, kind: uint8, i: nat) {
    && i < |outcomes| && outcomes[i].Answered? && [kind] <= outcomes[i].data
    && forall j :: 0 <= j < i && outcomes[j].Answered? ==> !([kind] <= outcomes[j].data)
  }

  ghost predicate NoneWith(outcomes: seq<Outcome>, kind: uint8) {
    forall j :: 0 <= j < |outcomes| && outcomes[j].Answered? ==> !([kind] <= outcomes[j].data)
  }

  /** A request that the first client with an answer of type `kind` settles: its answer is
      the reply and nobody after it is asked; without one, all are asked and the reply is
      SSH_AGENT_FAILURE, which is 5. */
  ghost predicate SettledByFirst(setup: Setup, request: seq<uint8>, outcomes: seq<Outcome>, kind: uint8)
    requires |outcomes| == |setup.names|
  {
    && (forall i: nat :: FirstWith(outcomes, kind, i) ==>
          Reply(setup, request, outcomes) == Some(outcomes[i].data) && Contacted(setup, request, outcomes) == i + 1)
    && (NoneWith(outcomes, kind) ==>
          Reply(setup, request, outcomes) == Some([5]) && Contacted(setup, request, outcomes) == |outcomes|)
  }

  lemma {:induction false} FirstWins(outcomes: seq<Outcome>, kind: uint8, i: nat)
    requires FirstWith(outcomes, kind, i)
    ensures FirstReply(outcomes, kind) == outcomes[i].data && Asked(outcomes, kind) == i + 1
  {
    if i > 0 {
      var others := outcomes[1..];
      assert forall j :: 0 <= j < |others| ==> others[j] == outcomes[j + 1];
      FirstWins(others, kind, i - 1);
      assert outcomes[0].Answered? ==> !([kind] <= outcomes[0].data);
    }
  }

  lemma {:induction false} NoneWins(outcomes: seq<Outcome>, kind: uint8)
    requires NoneWith(outcomes, kind)
    ensures FirstReply(outcomes, kind) == [5] && Asked(outcomes, kind) == |outcomes|
  {
    if outcomes != [] {
      var others := outcomes[1..];
      assert forall j :: 0 <= j < |others| ==> others[j] == outcomes[j + 1];
      NoneWins(others, kind);
      assert outcomes[0].Answered? ==> !([kind] <= outcomes[0].data);
    }
  }

  lemma SettledBy(setup: Setup, request: seq<uint8>, outcomes: seq<Outcome>, kind: uint8)
    requires |outcomes| == |setup.names|
    requires Reply(setup, request, outcomes) == Some(FirstReply(outcomes, kind))
    requires Contacted(setup, request, outcomes) == Asked(outcomes, kind)
    ensures SettledByFirst(setup, request, outcomes, kind)
  {
    hide Reply, Contacted;
    forall i: nat | FirstWith(outcomes, kind, i)
      ensures Reply(setup, request, outcomes) == Some(outcomes[i].data) && Contacted(setup, request, outcomes) == i + 1
    {
      FirstWins(outcomes, kind, i);
    }
    if NoneWith(outcomes, kind) {
      NoneWins(outcomes, kind);
    }
  }

  /** What is done with a request, by the message numbers of draft-miller-ssh-agent. Signing
      (13) waits for a signature (14); adding (17) and removing (18) wait for a success (6);
      removing all (19) asks everybody and answers success; listing (11) asks everybody.
      Anything else is answered with a failure (5) and reaches no client; an empty request
      gets no reply. */
  lemma ReplyMeaning(setup: Setup, request: seq<uint8>, outcomes: seq<Outcome>)
    requires |outcomes| == |setup.names|
    ensures request == [] ==>
      Reply(setup, request, outcomes) == None && Contacted(setup, request, outcomes) == 0
    ensures [13] <= request ==> SettledByFirst(setup, request, outcomes, 14)
    ensures [17] <= request || [18] <= request ==> SettledByFirst(setup, request, outcomes, 6)
    ensures [19] <= request ==>
      Reply(setup, request, outcomes) == Some([6]) && Contacted(setup, request, outcomes) == |outcomes|
    ensures [11] <= request ==>
      Reply(setup, request, outcomes).Some? && Contacted(setup, request, outcomes) == |outcomes|
    ensures request != [] && request[0] !in [11, 13, 17, 18, 19] ==>
      Reply(setup, request, outcomes) == Some([5]) && Contacted(setup, request, outcomes) == 0
  {
    hide SettledByFirst, Collected, EncodeAnswer;
    if request != [] {
      if request[0] == 13 {
        SettledBy(setup, request, outcomes, 14);
      } else if request[0] == 17 || request[0] == 18 {
        SettledBy(setup, request, outcomes, 6);
      }
    }
  }

  /** Decoding the reply to an identities request gives every identity of every client
      that answered well, in client order, exactly when the reply is short enough for the
      32-bit length of its envelope. */
  lemma AggregationMeaning(setup: Setup, request: seq<uint8>, outcomes: seq<Outcome>)
    requires |outcomes| == |setup.names|
    requires [11] <= request
    ensures var reply := Reply(setup, request, outcomes).value;
            DecodeAnswer(reply[..Wrap32(|reply|)]) == Ok(Collected(setup, outcomes, |outcomes|), [])
            <==> |reply| < WORD32
  {
    AnswerInEnvelope(Collected(setup, outcomes, |outcomes|));
  }

  lemma AnswersAreTyped(data: seq<uint8>)
    ensures DecodeAnswer(data).Ok? ==> data != [] && data[0] == IDENTITIES_ANSWER
  {
  }

  /** Each identity of a well-formed answer is in the combined one, after those of all
      earlier clients, with its blob unchanged and its comment as sent, or as sent with
      " [", the client's name and "]" appended. */
  lemma {:induction false} CollectedMeaning(setup: Setup, outcomes: seq<Outcome>, n: nat, k: nat, j: nat)
    requires k < n <= |outcomes| == |setup.names|
    requires outcomes[k].Answered? && DecodeAnswer(outcomes[k].data).Ok?
    requires j < |DecodeAnswer(outcomes[k].data).value|
    ensures var all := Collected(setup, outcomes, n);
            var at := |Collected(setup, outcomes, k)| + j;
            var id := DecodeAnswer(outcomes[k].data).value[j];
            && at < |all|
            && all[at].blob == id.blob
            && all[at].comment ==
               if setup.mangleComment then id.comment + [0x20, 0x5B] + setup.names[k] + [0x5D] else id.comment
  {
    hide DecodeAnswer;
    AnswersAreTyped(outcomes[k].data);
    if n > k + 1 {
      CollectedMeaning(setup, outcomes, n - 1, k, j);
    }
  }

  /** Nothing else is in the combined answer: its size is the sum of the well-formed
      answers' sizes. */
  function WellFormedCount(outcomes: seq<Outcome>, n: nat): nat
    requires n <= |outcomes|
  {
    if n == 0 then 0
    else
      var o := outcomes[n - 1];
      WellFormedCount(outcomes, n - 1)
      + if o.Answered? && DecodeAnswer(o.data).Ok? then |DecodeAnswer(o.data).value| else 0
  }

  lemma {:induction false} CollectedSize(setup: Setup, outcomes: seq<Outcome>, n: nat)
    requires n <= |outcomes| == |setup.names|
    ensures |Collected(setup, outcomes, n)| == WellFormedCount(outcomes, n)
  {
    hide DecodeAnswer;
    if n > 0 {
      if outcomes[n - 1].Answered? {
        AnswersAreTyped(outcomes[n - 1].data);
      }
      CollectedSize(setup, outcomes, n - 1);
    }
  }

  // ---------------------------------------------------------------- the class

  /** The requests sent to the first `n` clients. */
  function Copies(request: seq<uint8>, n: nat): (s: seq<Sent>)
    ensures |s| == n && forall i :: 0 <= i < n ==> s[i] == Sent(i, request)
  {
    seq(n, i requires 0 <= i < n => Sent(i, request))
  }

  lemma {:induction false} AskedSoFar(outcomes: seq<Outcome>, kind: uint8, i: nat)
    requires i <= |outcomes|
    requires forall j :: 0 <= j < i ==> !Wanted(outcomes[j], kind)
    ensures Asked(outcomes, kind) == i + Asked(outcomes[i..], kind)
    ensures FirstReply(outcomes, kind) == FirstReply(outcomes[i..], kind)
  {
    if i == 0 {
      assert outcomes[0..] == outcomes;
    } else {
      AskedSoFar(outcomes[1..], kind, i - 1);
      assert outcomes[1..][i - 1..] == outcomes[i..];
    }
  }

  class RequestHandler {
    const setup: Setup
    ghost var log: seq<Sent>  // every message sent upstream

    constructor (setup: Setup)
      ensures this.setup == setup && log == []
    {
      this.setup := setup;
      log := [];
    }

    /** One call of client `i`, which behaves as `outcome` says. */
    method SendSshMessage(i: nat, message: SshMessageEnvelope, outcome: Outcome) returns (status: bool)
      requires outcome.Answered? ==> |outcome.data| < WORD32
      modifies message, this`log
      ensures log == old(log) + [Sent(i, old(message.data))]
      ensures status == outcome.Answered?
      ensures status ==> message.data == outcome.data && message.Consistent()
    {
      log := log + [Sent(i, message.data)];
      match outcome {
        case Failed =>
          status := false;
        case Answered(data) =>
          message.data := data;
          message.length := |data|;
          status := true;
      }
    }

    method ProcessRequest(envelope: SshMessageEnvelope, outcomes: seq<Outcome>) returns (status: bool)
      requires envelope.Consistent() && Plausible(setup, outcomes)
      modifies envelope, this`log
      ensures status == Reply(setup, old(envelope.data), outcomes).Some?
      ensures if status then Reply(setup, old(envelope.data), outcomes) == Some(envelope.data)
              else envelope.data == old(envelope.data)
      ensures |envelope.data| < WORD32 ==> envelope.Consistent()
      ensures log == old(log) + Copies(old(envelope.data), Contacted(setup, old(envelope.data), outcomes))
    {
      if envelope.length == 0 {
        assert log == log + Copies(envelope.data, 0);
        return false;
      }
      var kind := envelope.data[0];
      if kind == ADD_IDENTITY {
        HandleFirstSuccess(envelope, SSH_AGENT_SUCCESS, outcomes);
      } else if kind == REMOVE_IDENTITY {
        HandleFirstSuccess(envelope, SSH_AGENT_SUCCESS, outcomes);
      } else if kind == REMOVE_ALL_IDENTITIES {
        HandleRemoveAllIdentity(envelope, outcomes);
      } else if kind == REQUEST_IDENTITIES {
        HandleIdentitiesRequest(envelope, outcomes);
      } else if kind == SIGN_REQUEST {
        HandleFirstSuccess(envelope, SIGN_RESPONSE, outcomes);
      } else {
        assert log == log + Copies(envelope.data, 0);
        WriteGeneric(envelope, SSH_AGENT_FAILURE);
      }
      status := true;
    }

    static method WriteGeneric(envelope: SshMessageEnvelope, id: uint8)
      modifies envelope
      ensures envelope.data == [id] && envelope.Consistent()
    {
      var writer := new SshAgentMessageBufferWriter(envelope);
      writer.Init();
      writer.WriteByte(id);
    }

    /** Adding, removing and signing: try every client until one gives a reply of the
        wanted kind. */
    method HandleFirstSuccess(envelope: SshMessageEnvelope, wanted: uint8, outcomes: seq<Outcome>)
      requires envelope.Consistent() && Plausible(setup, outcomes)
      modifies envelope, this`log
      ensures envelope.data == FirstReply(outcomes, wanted) && envelope.Consistent()
      ensures log == old(log) + Copies(old(envelope.data), Asked(outcomes, wanted))
    {
      ghost var request := envelope.data;
      var i := 0;
      while i < |setup.names|
        invariant 0 <= i <= |outcomes| && envelope.data == request && envelope.Consistent()
        invariant forall j :: 0 <= j < i ==> !Wanted(outcomes[j], wanted)
        invariant log == old(log) + Copies(request, i)
      {
        AskedSoFar(outcomes, wanted, i);
        assert Copies(request, i + 1) == Copies(request, i) + [Sent(i, request)];
        var tmpMessage := new SshMessageEnvelope(envelope.length, envelope.data);
        var status := SendSshMessage(i, tmpMessage, outcomes[i]);
        if status {
          if tmpMessage.length > 0 && tmpMessage.data[0] == wanted {
            envelope.length := tmpMessage.length;
            envelope.data := tmpMessage.data;
            return;
          }
        }
        i := i + 1;
      }
      AskedSoFar(outcomes, wanted, i);
      WriteGeneric(envelope, SSH_AGENT_FAILURE);
    }

    method HandleRemoveAllIdentity(envelope: SshMessageEnvelope, outcomes: seq<Outcome>)
      requires envelope.Consistent() && Plausible(setup, outcomes)
      modifies envelope, this`log
      ensures envelope.data == [SSH_AGENT_SUCCESS] && envelope.Consistent()
      ensures log == old(log) + Copies(old(envelope.data), |outcomes|)
    {
      ghost var request := envelope.data;
      var i := 0;
      while i < |setup.names|
        invariant 0 <= i <= |outcomes| && envelope.data == request && envelope.Consistent()
        invariant log == old(log) + Copies(request, i)
      {
        assert Copies(request, i + 1) == Copies(request, i) + [Sent(i, request)];
        var tmpMessage := new SshMessageEnvelope(envelope.length, envelope.data);
        var _ := SendSshMessage(i, tmpMessage, outcomes[i]);
        i := i + 1;
      }
      WriteGeneric(envelope, SSH_AGENT_SUCCESS);
    }

    method HandleIdentitiesRequest(envelope: SshMessageEnvelope, outcomes: seq<Outcome>)
      requires envelope.Consistent() && Plausible(setup, outcomes)
      modifies envelope, this`log
      ensures envelope.data == EncodeAnswer(Collected(setup, outcomes, |outcomes|))
      ensures |envelope.data| < WORD32 ==> envelope.Consistent()
      ensures log == old(log) + Copies(old(envelope.data), |outcomes|)
    {
      hide DecodeAnswer, EncodeAnswer;
      ghost var request := envelope.data;
      var ans := new SshAgentMessageRequestIdentitiesAnswer();
      var i := 0;
      while i < |setup.names|
        invariant 0 <= i <= |outcomes| && envelope.data == request && envelope.Consistent()
        invariant ans.identities == Collected(setup, outcomes, i)
        invariant log == old(log) + Copies(request, i)
        modifies ans, this`log
      {
        assert Copies(request, i + 1) == Copies(request, i) + [Sent(i, request)];
        var tmpMessage := new SshMessageEnvelope(envelope.length, envelope.data);
        var status := SendSshMessage(i, tmpMessage, outcomes[i]);
        if status && tmpMessage.length > 0 && tmpMessage.data[0] == IDENTITIES_ANSWER {
          var partial := ReadPartial(tmpMessage, i);
          ans.identities := ans.identities + partial;
          assert partial == Contribution(setup.names[i], setup.mangleComment, outcomes[i]);
        } else {
          assert Contribution(setup.names[i], setup.mangleComment, outcomes[i]) == [];
        }
        i := i + 1;
      }
      var writer := new SshAgentMessageBufferWriter(envelope);
      writer.Init();
      ans.ToBuffer(writer);
      assert [] + EncodeAnswer(ans.identities) == EncodeAnswer(ans.identities);
    }

    /** The identities client `i` contributes with the reply in `reply`. */
    method ReadPartial(reply: SshMessageEnvelope, i: nat) returns (ids: seq<Identity>)
      requires reply.Consistent() && i < |setup.names|
      ensures ids ==
        match DecodeAnswer(reply.data)
        case Malformed => []
        case Ok(ids, _) => if setup.mangleComment then MangleAll(ids, setup.names[i]) else ids
    {
      hide DecodeAnswer;
      var partialAns := new SshAgentMessageRequestIdentitiesAnswer();
      var reader := new SshAgentMessageBufferReader(reply);
      assert reader.Remaining() == reply.data;
      var ok := partialAns.FromBuffer(reader);
      if !ok {
        return [];
      }
      ids := partialAns.identities;
      if setup.mangleComment {
        ids := MangleComments(ids, setup.names[i]);
      }
    }

    static method MangleComments(before: seq<Identity>, name: seq<uint8>) returns (ids: seq<Identity>)
      ensures ids == MangleAll(before, name)
    {
      hide Mangle;
      ids := before;
      var j := 0;
      while j < |ids|
        invariant 0 <= j <= |ids| == |before|
        invariant forall k :: 0 <= k < j ==> ids[k] == Mangle(before[k], name)
        invariant forall k :: j <= k < |ids| ==> ids[k] == before[k]
      {
        MangledComment(ids[j], name);
        ids := ids[j := ids[j].(comment := ids[j].comment + [0x20, 0x5B] + name + [0x5D])];
        j := j + 1;
      }
    }
  }

  lemma MangledComment(id: Identity, name: seq<uint8>)
    ensures id.(comment := id.comment + [0x20, 0x5B] + name + [0x5D]) == Mangle(id, name)
  {
  }
}
