/** The SSH agent message codec: the envelope, the reader and writer over it, and the
    identities answer (section 4.4 of draft-miller-ssh-agent) with the string encoding
    of section 5 of RFC 4251.

    The functions say what the wire format is; the classes are the source's reader,
    writer and answer, which move a cursor and append to a buffer. */
module Codec {
  import opened Bytes

  const IDENTITIES_ANSWER: uint8 := 12

  datatype Identity = Identity(blob: seq<uint8>, comment: seq<uint8>)

  datatype Parsed<T> = Ok(value: T, rest: seq<uint8>) | Malformed

  // ---------------------------------------------------------------- wire format

  function EncodeString(s: seq<uint8>): seq<uint8> {
    Be32(Wrap32(|s|)) + s
  }

  function EncodeIdentity(id: Identity): seq<uint8> {
    EncodeString(id.blob) + EncodeString(id.comment)
  }

  function EncodeIdentities(ids: seq<Identity>): seq<uint8> {
    if ids == [] then [] else EncodeIdentity(ids[0]) + EncodeIdentities(ids[1..])
  }

  function EncodeAnswer(ids: seq<Identity>): seq<uint8> {
    [IDENTITIES_ANSWER] + Be32(Wrap32(|ids|)) + EncodeIdentities(ids)
  }

  function DecodeUInt32(s: seq<uint8>): Parsed<uint32> {
    if |s| < 4 then Malformed else Ok(FromBe32(s[..4]), s[4..])
  }

  function DecodeString(s: seq<uint8>): Parsed<seq<uint8>> {
    match DecodeUInt32(s)
    case Malformed => Malformed
    case Ok(n, rest) => if |rest| < n then Malformed else Ok(rest[..n], rest[n..])
  }

  function DecodeIdentity(s: seq<uint8>): Parsed<Identity> {
    match DecodeString(s)
    case Malformed => Malformed
    case Ok(blob, rest) =>
      match DecodeString(rest)
      case Malformed => Malformed
      case Ok(comment, rest') => Ok(Identity(blob, comment), rest')
  }

  function DecodeIdentities(count: nat, s: seq<uint8>): Parsed<seq<Identity>> {
    if count == 0 then Ok([], s)
    else
      match DecodeIdentity(s)
      case Malformed => Malformed
      case Ok(id, rest) =>
        match DecodeIdentities(count - 1, rest)
        case Malformed => Malformed
        case Ok(ids, rest') => Ok([id] + ids, rest')
  }

  function DecodeAnswer(s: seq<uint8>): Parsed<seq<Identity>> {
    if |s| < 5 || s[0] != IDENTITIES_ANSWER then Malformed
    else DecodeIdentities(FromBe32(s[1..5]), s[5..])
  }

  // ---------------------------------------------------------------- round trips

  ghost predicate IdentityFits(id: Identity) {
    |id.blob| < WORD32 && |id.comment| < WORD32
  }

  /** Every size the format carries is representable in its 32-bit field. */
  ghost predicate Fits(ids: seq<Identity>) {
    && |ids| < WORD32
    && forall i :: 0 <= i < |ids| ==> IdentityFits(ids[i])
  }

  function AnswerSize(ids: seq<Identity>): nat {
    if ids == [] then 5
    else 8 + |ids[0].blob| + |ids[0].comment| + AnswerSize(ids[1..])
  }

  lemma {:induction false} EncodedSize(ids: seq<Identity>)
    ensures |EncodeAnswer(ids)| == AnswerSize(ids)
    ensures AnswerSize(ids) >= 5 + 8 * |ids|
  {
    hide Be32, FromBe32;
    if ids != [] {
      EncodedSize(ids[1..]);
    }
  }

  /** The layout of an identity: length and bytes of the blob, then of the comment. */
  lemma IdentityLayout(id: Identity)
    ensures var w, b, c := EncodeIdentity(id), |id.blob|, |id.comment|;
            && |w| == 8 + b + c
            && w[..4] == Be32(b % 0x1_0000_0000) && w[4..4 + b] == id.blob
            && w[4 + b..8 + b] == Be32(c % 0x1_0000_0000) && w[8 + b..] == id.comment
  {
    hide Be32;
  }

  /** The layout of an answer: the number 12, the count of its identities, most significant
      byte first, and the identities in order. */
  lemma AnswerLayout(ids: seq<Identity>)
    ensures var w := EncodeAnswer(ids);
            && w[0] == 12
            && 16777216 * (w[1] as int) + 65536 * (w[2] as int) + 256 * (w[3] as int) + w[4] == |ids| % 0x1_0000_0000
            && w[5..] == EncodeIdentities(ids)
  {
    Be32Order(Wrap32(|ids|));
    hide Be32;
    var w := EncodeAnswer(ids);
    assert w[1..5] == Be32(Wrap32(|ids|));
  }

  /** The identities come one after another: the first `i`, then identity `i`. */
  lemma {:induction false} IdentitiesLayout(ids: seq<Identity>, i: nat)
    requires i < |ids|
    ensures EncodeIdentities(ids[..i]) + EncodeIdentity(ids[i]) <= EncodeIdentities(ids)
  {
    hide EncodeIdentity;
    if i == 0 {
      assert ids[..0] == [];
      assert EncodeIdentities([]) + EncodeIdentity(ids[0]) == EncodeIdentity(ids[0]);
    } else {
      IdentitiesLayout(ids[1..], i - 1);
      assert ids[..i][0] == ids[0] && ids[..i][1..] == ids[1..][..i - 1];
      assert EncodeIdentities(ids[..i]) == EncodeIdentity(ids[0]) + EncodeIdentities(ids[1..][..i - 1]);
    }
  }

  lemma DecodeEncodedString(s: seq<uint8>, t: seq<uint8>)
    requires |s| < WORD32
    ensures DecodeString(EncodeString(s) + t) == Ok(s, t)
  {
    hide Be32, FromBe32;
    var w := EncodeString(s) + t;
    assert w[..4] == Be32(|s|);
    assert w[4..] == s + t;
    FromBe32OfBe32(|s|);
  }

  lemma DecodeEncodedIdentity(id: Identity, t: seq<uint8>)
    requires IdentityFits(id)
    ensures DecodeIdentity(EncodeIdentity(id) + t) == Ok(id, t)
  {
    hide Be32, FromBe32;
    var tail := EncodeString(id.comment) + t;
    assert EncodeIdentity(id) + t == EncodeString(id.blob) + tail;
    DecodeEncodedString(id.blob, tail);
    DecodeEncodedString(id.comment, t);
  }

  lemma {:induction false} DecodeEncodedIdentities(ids: seq<Identity>, t: seq<uint8>)
    requires forall i :: 0 <= i < |ids| ==> IdentityFits(ids[i])
    ensures DecodeIdentities(|ids|, EncodeIdentities(ids) + t) == Ok(ids, t)
  {
    hide Be32, FromBe32, EncodeIdentity, DecodeIdentity, IdentityFits;
    if ids == [] {
      assert EncodeIdentities(ids) + t == t;
    } else {
      var tail := EncodeIdentities(ids[1..]) + t;
      assert EncodeIdentities(ids) + t == EncodeIdentity(ids[0]) + tail;
      DecodeEncodedIdentity(ids[0], tail);
      DecodeEncodedIdentities(ids[1..], t);
      assert [ids[0]] + ids[1..] == ids;
    }
  }

  lemma StringUnambiguous(s: seq<uint8>)
    requires DecodeString(s).Ok?
    ensures |DecodeString(s).value| < WORD32
    ensures s == EncodeString(DecodeString(s).value) + DecodeString(s).rest
  {
    hide Be32, FromBe32;
    Be32OfFromBe32(s[..4]);
  }

  lemma IdentityUnambiguous(s: seq<uint8>)
    requires DecodeIdentity(s).Ok?
    ensures IdentityFits(DecodeIdentity(s).value)
    ensures s == EncodeIdentity(DecodeIdentity(s).value) + DecodeIdentity(s).rest
  {
    hide Be32, FromBe32, EncodeString, DecodeString;
    StringUnambiguous(s);
    StringUnambiguous(DecodeString(s).rest);
  }

  lemma {:induction false} IdentitiesUnambiguous(count: nat, s: seq<uint8>)
    requires DecodeIdentities(count, s).Ok?
    ensures var r := DecodeIdentities(count, s);
            && |r.value| == count
            && (forall i :: 0 <= i < count ==> IdentityFits(r.value[i]))
            && s == EncodeIdentities(r.value) + r.rest
  {
    hide Be32, FromBe32, EncodeIdentity, DecodeIdentity, IdentityFits;
    if count == 0 {
      assert s == [] + s;
    } else {
      IdentityUnambiguous(s);
      var Ok(id, rest) := DecodeIdentity(s);
      IdentitiesUnambiguous(count - 1, rest);
      var Ok(ids, rest') := DecodeIdentities(count - 1, rest);
      EncodeIdentitiesCons(id, ids);
      assert EncodeIdentity(id) + (EncodeIdentities(ids) + rest') == EncodeIdentities([id] + ids) + rest';
    }
  }

  lemma EncodeIdentitiesCons(id: Identity, ids: seq<Identity>)
    ensures EncodeIdentities([id] + ids) == EncodeIdentity(id) + EncodeIdentities(ids)
  {
    hide EncodeIdentity;
    assert ([id] + ids)[1..] == ids;
  }

  /** Decoding accepts nothing but an encoding: what it consumed is, byte for byte,
      the encoding of what it returned. */
  lemma AnswerUnambiguous(s: seq<uint8>)
    requires DecodeAnswer(s).Ok?
    ensures Fits(DecodeAnswer(s).value)
    ensures s == EncodeAnswer(DecodeAnswer(s).value) + DecodeAnswer(s).rest
    ensures |s| == AnswerSize(DecodeAnswer(s).value) + |DecodeAnswer(s).rest|
  {
    hide Be32, FromBe32, EncodeIdentities, DecodeIdentities, IdentityFits;
    var Ok(ids, rest) := DecodeAnswer(s);
    IdentitiesUnambiguous(FromBe32(s[1..5]), s[5..]);
    Be32OfFromBe32(s[1..5]);
    assert s == [s[0]] + s[1..5] + (EncodeIdentities(ids) + rest) == EncodeAnswer(ids) + rest;
    EncodedSize(ids);
  }

  /** An answer survives encoding and decoding, whatever follows it, exactly when its
      sizes fit the 32-bit fields of the format. */
  lemma AnswerRoundTrip(ids: seq<Identity>, t: seq<uint8>)
    ensures DecodeAnswer(EncodeAnswer(ids) + t) == Ok(ids, t) <==> Fits(ids)
  {
    hide Be32, FromBe32;
    var w := EncodeAnswer(ids) + t;
    if Fits(ids) {
      assert w[1..5] == Be32(|ids|);
      assert w[5..] == EncodeIdentities(ids) + t;
      FromBe32OfBe32(|ids|);
      DecodeEncodedIdentities(ids, t);
    } else if DecodeAnswer(w) == Ok(ids, t) {
      AnswerUnambiguous(w);
      assert false;
    }
  }

  /** What the envelope's 32-bit length leaves of an answer of any size: the reader sees
      the first `Wrap32(|encoding|)` bytes, and gets the answer back exactly when
      nothing was cut off. */
  lemma AnswerInEnvelope(ids: seq<Identity>)
    ensures var w := EncodeAnswer(ids);
            DecodeAnswer(w[..Wrap32(|w|)]) == Ok(ids, []) <==> |w| < WORD32
  {
    hide Be32, FromBe32;
    var w := EncodeAnswer(ids);
    var seen := w[..Wrap32(|w|)];
    if |w| < WORD32 {
      assert seen == w && w == w + [];
      SmallAnswerFits(ids);
      AnswerRoundTrip(ids, []);
    } else if DecodeAnswer(seen) == Ok(ids, []) {
      AnswerUnambiguous(seen);
      assert false;
    }
  }

  lemma {:induction false} SmallAnswerFits(ids: seq<Identity>)
    requires |EncodeAnswer(ids)| < WORD32
    ensures Fits(ids)
  {
    hide Be32, FromBe32;
    EncodedSize(ids);
    if ids != [] {
      EncodedSize(ids[1..]);
      SmallAnswerFits(ids[1..]);
      forall i | 0 <= i < |ids| ensures IdentityFits(ids[i]) {
        if i > 0 {
          assert ids[i] == ids[1..][i - 1];
        }
      }
    }
  }

  lemma {:induction false} EncodeIdentitiesConcat(a: seq<Identity>, b: seq<Identity>)
    ensures EncodeIdentities(a + b) == EncodeIdentities(a) + EncodeIdentities(b)
  {
    hide Be32, FromBe32;
    if a == [] {
      assert a + b == b;
    } else {
      assert (a + b)[1..] == a[1..] + b;
      EncodeIdentitiesConcat(a[1..], b);
    }
  }

  // ---------------------------------------------------------------- the classes

  /** A message on its way to or from an agent. The source's length field and the size of
      its data vector are separate; `Consistent` says they agree. */
  class SshMessageEnvelope {
    var length: uint32
    var data: seq<uint8>

    ghost predicate Consistent()
      reads this
    {
      length == |data|
    }

    constructor (length: uint32, data: seq<uint8>)
      ensures this.length == length && this.data == data
    {
      this.length := length;
      this.data := data;
    }
  }

  /** A cursor over an envelope. The cursor is a 64-bit unsigned number, which matters
      only for what a failed ReadString leaves in it. */
  class SshAgentMessageBufferReader {
    const envelope: SshMessageEnvelope
    var next: nat

    constructor (envelope: SshMessageEnvelope)
      ensures this.envelope == envelope && next == 0
    {
      this.envelope := envelope;
      next := 0;
    }

    ghost predicate Valid()
      reads this, envelope
    {
      envelope.Consistent() && next <= envelope.length
    }

    ghost function Remaining(): seq<uint8>
      requires Valid()
      reads this, envelope
    {
      envelope.data[next..]
    }

    predicate CanConsume(bytes: nat)
      reads this, envelope
    {
      next + bytes <= envelope.length
    }

    method ReadByte() returns (ok: bool, value: uint8)
      requires Valid()
      modifies this
      ensures Valid()
      ensures ok == (old(Remaining()) != [])
      ensures ok ==> old(Remaining()) == [value] + Remaining()
      ensures !ok ==> next == old(next)
    {
      if !CanConsume(1) {
        return false, 0;
      }
      value := envelope.data[next];
      next := next + 1;
      ok := true;
    }

    method ReadUInt32() returns (ok: bool, value: uint32)
      requires Valid()
      modifies this
      ensures Valid()
      ensures ok == DecodeUInt32(old(Remaining())).Ok?
      ensures ok ==> DecodeUInt32(old(Remaining())) == Ok(value, Remaining())
      ensures !ok ==> next == old(next)
    {
      hide Be32, FromBe32;
      if !CanConsume(4) {
        return false, 0;
      }
      value := FromBe32(envelope.data[next..next + 4]);
      ghost var before := Remaining();
      assert before[..4] == envelope.data[next..next + 4];
      next := next + 4;
      ok := true;
    }

    /** A failed read gives the four prefix bytes back, even when it never had them:
        the cursor is restored exactly when the prefix was readable, and otherwise ends
        four below where it was, modulo 2^64. */
    method ReadString() returns (ok: bool, value: seq<uint8>)
      requires Valid()
      modifies this
      ensures ok == DecodeString(old(Remaining())).Ok?
      ensures ok ==> Valid() && DecodeString(old(Remaining())) == Ok(value, Remaining())
      ensures !ok ==> (next == old(next) <==> old(CanConsume(4)))
      ensures !ok && !old(CanConsume(4)) ==> next == (old(next) - 4) % 0x1_0000_0000_0000_0000
    {
      hide Be32, FromBe32;
      value := [];
      var got, length := ReadUInt32();
      if !got || !CanConsume(length) {
        next := (next - 4) % 0x1_0000_0000_0000_0000;
        return false, [];
      }
      value := envelope.data[next..next + length];
      ghost var rest := Remaining();
      assert rest[..length] == value;
      next := next + length;
      assert Remaining() == rest[length..];
      ok := true;
    }
  }

  /** Appends to an envelope. The length counter is 32 bits wide and wraps. */
  class SshAgentMessageBufferWriter {
    const envelope: SshMessageEnvelope

    constructor (envelope: SshMessageEnvelope)
      ensures this.envelope == envelope
    {
      this.envelope := envelope;
    }

    /** The counter agrees with the data as far as 32 bits can tell; in particular the
        envelope is consistent as long as its data is shorter than 4 GiB. */
    ghost predicate Counting()
      reads envelope
    {
      envelope.length == Wrap32(|envelope.data|)
    }

    method Init()
      modifies envelope
      ensures envelope.data == [] && Counting()
    {
      envelope.data := [];
      envelope.length := 0;
    }

    method WriteByte(value: uint8)
      requires Counting()
      modifies envelope
      ensures envelope.data == old(envelope.data) + [value] && Counting()
    {
      hide Wrap32;
      Wrap32Add(|envelope.data|, 1);
      envelope.data := envelope.data + [value];
      envelope.length := Wrap32(envelope.length + 1);
    }

    method WriteUInt32(value: uint32)
      requires Counting()
      modifies envelope
      ensures envelope.data == old(envelope.data) + Be32(value) && Counting()
    {
      hide Be32, Wrap32;
      Wrap32Add(|envelope.data|, 4);
      envelope.data := envelope.data + Be32(value);
      envelope.length := Wrap32(envelope.length + 4);
    }

    method WriteString(value: seq<uint8>)
      requires Counting()
      modifies envelope
      ensures envelope.data == old(envelope.data) + EncodeString(value) && Counting()
    {
      hide Be32, Wrap32;
      WriteUInt32(Wrap32(|value|));
      Wrap32Add(|envelope.data|, |value|);
      envelope.data := envelope.data + value;
      envelope.length := Wrap32(envelope.length + |value|);
    }
  }

  class SshAgentMessageRequestIdentitiesAnswer {
    var identities: seq<Identity>

    constructor ()
      ensures identities == []
    {
      identities := [];
    }

    /** Reads an answer. On failure the identities read so far stay behind; callers must
        look at the result first. */
    method FromBuffer(reader: SshAgentMessageBufferReader) returns (ok: bool)
      requires reader.Valid()
      modifies this, reader
      ensures ok == DecodeAnswer(old(reader.Remaining())).Ok?
      ensures ok ==> reader.Valid()
      ensures ok ==> DecodeAnswer(old(reader.Remaining())) == Ok(identities, reader.Remaining())
    {
      hide Be32, FromBe32;
      identities := [];
      ghost var all := reader.Remaining();
      var gotId, id := reader.ReadByte();
      if !gotId || id != IDENTITIES_ANSWER {
        return false;
      }
      ghost var afterId := reader.Remaining();
      assert afterId == all[1..];
      var gotCount, count := reader.ReadUInt32();
      if !gotCount {
        return false;
      }
      assert afterId[..4] == all[1..5] && reader.Remaining() == all[5..];
      var i := 0;
      assert identities + [] == identities;
      PrependNothing(DecodeIdentities(count, reader.Remaining()));
      while i < count
        invariant 0 <= i <= count && reader.Valid()
        invariant |all| >= 5 && all[0] == IDENTITIES_ANSWER && count == FromBe32(all[1..5])
        invariant DecodeAnswer(all) == Prepend(identities, DecodeIdentities(count - i, reader.Remaining()))
      {
        ghost var before := reader.Remaining();
        var gotBlob, blob := reader.ReadString();
        if !gotBlob {
          return false;
        }
        var gotComment, comment := reader.ReadString();
        if !gotComment {
          return false;
        }
        assert DecodeIdentity(before) == Ok(Identity(blob, comment), reader.Remaining());
        PrependAppend(identities, Identity(blob, comment), DecodeIdentities(count - i - 1, reader.Remaining()));
        identities := identities + [Identity(blob, comment)];
        i := i + 1;
      }
      assert identities + [] == identities;
      ok := true;
    }

    static method WriteIdentity(id: Identity, writer: SshAgentMessageBufferWriter)
      requires writer.Counting()
      modifies writer.envelope
      ensures writer.Counting()
      ensures writer.envelope.data == old(writer.envelope.data) + EncodeIdentity(id)
    {
      hide Be32, Wrap32, EncodeString;
      writer.WriteString(id.blob);
      writer.WriteString(id.comment);
    }

    method ToBuffer(writer: SshAgentMessageBufferWriter)
      requires writer.Counting() && writer.envelope as object != this
      modifies writer.envelope
      ensures writer.Counting()
      ensures writer.envelope.data == old(writer.envelope.data) + EncodeAnswer(identities)
    {
      hide Be32, Wrap32, EncodeIdentity;
      writer.WriteByte(IDENTITIES_ANSWER);
      writer.WriteUInt32(Wrap32(|identities|));
      var i := 0;
      while i < |identities|
        invariant 0 <= i <= |identities| && writer.Counting()
        invariant writer.envelope.data ==
          old(writer.envelope.data) + [IDENTITIES_ANSWER] + Be32(Wrap32(|identities|))
          + EncodeIdentities(identities[..i])
      {
        EncodeIdentitiesConcat(identities[..i], [identities[i]]);
        assert identities[..i + 1] == identities[..i] + [identities[i]];
        EncodeIdentitiesCons(identities[i], []);
        assert EncodeIdentities([identities[i]]) == EncodeIdentity(identities[i]);
        WriteIdentity(identities[i], writer);
        i := i + 1;
      }
      assert identities[..|identities|] == identities;
    }
  }

  /** The result of a parse whose first identities were read before. */
  ghost function Prepend(first: seq<Identity>, r: Parsed<seq<Identity>>): Parsed<seq<Identity>> {
    match r
    case Malformed => Malformed
    case Ok(ids, rest) => Ok(first + ids, rest)
  }

  lemma PrependNothing(r: Parsed<seq<Identity>>)
    ensures Prepend([], r) == r
  {
    if r.Ok? {
      assert [] + r.value == r.value;
    }
  }

  lemma PrependAppend(first: seq<Identity>, id: Identity, r: Parsed<seq<Identity>>)
    ensures Prepend(first + [id], r) == Prepend(first, Prepend([id], r))
  {
    if r.Ok? {
      assert first + [id] + r.value == first + ([id] + r.value);
    }
  }
}
