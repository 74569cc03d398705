/** Framing of SSH agent messages on a byte stream (section 3 of
    draft-miller-ssh-agent): a four-byte big-endian length, then the message.

    This is the specification the proxy connection machine is held to: what messages a
    stream of bytes carries, whatever pieces it arrives in. */
module Frames {
  import opened Bytes

  const HEADER_SIZE: nat := 4
  const MAX_MESSAGE_SIZE: nat := 256 * 1024

  /** The frame of a message; the length field is 32 bits wide. */
  function Frame(message: seq<uint8>): seq<uint8> {
    Be32(Wrap32(|message|)) + message
  }

  function Stream(messages: seq<seq<uint8>>): seq<uint8> {
    if messages == [] then [] else Frame(messages[0]) + Stream(messages[1..])
  }

  /** The messages a byte stream carries. Decoding stops at an incomplete frame and, for
      good, at a length over MAX_MESSAGE_SIZE. */
  function Decode(s: seq<uint8>): (messages: seq<seq<uint8>>) {
    if |s| < HEADER_SIZE then []
    else
      var n := FromBe32(s[..HEADER_SIZE]);
      if n > MAX_MESSAGE_SIZE || |s| < HEADER_SIZE + n then []
      else [s[HEADER_SIZE..HEADER_SIZE + n]] + Decode(s[HEADER_SIZE + n..])
  }

  ghost predicate AllWithinLimit(messages: seq<seq<uint8>>) {
    forall i :: 0 <= i < |messages| ==> |messages[i]| <= MAX_MESSAGE_SIZE
  }

  lemma {:induction false} DecodedWithinLimit(s: seq<uint8>)
    ensures AllWithinLimit(Decode(s))
  {
    hide Be32, FromBe32;
    if Decode(s) != [] {
      DecodedWithinLimit(s[HEADER_SIZE + FromBe32(s[..HEADER_SIZE])..]);
    }
  }

  lemma DecodeOneFrame(message: seq<uint8>, s: seq<uint8>)
    requires |message| <= MAX_MESSAGE_SIZE
    ensures Decode(Frame(message) + s) == [message] + Decode(s)
  {
    hide Be32, FromBe32;
    var w := Frame(message) + s;
    assert w[..HEADER_SIZE] == Be32(|message|);
    FromBe32OfBe32(|message|);
    assert w[HEADER_SIZE..HEADER_SIZE + |message|] == message;
    assert w[HEADER_SIZE + |message|..] == s;
  }

  /** Decoding undoes framing, whatever unfinished bytes follow. */
  lemma {:induction false} DecodeStream(messages: seq<seq<uint8>>, tail: seq<uint8>)
    requires AllWithinLimit(messages)
    ensures Decode(Stream(messages) + tail) == messages + Decode(tail)
  {
    hide Frame, Decode;
    if messages == [] {
      assert Stream(messages) + tail == tail;
      assert [] + Decode(tail) == Decode(tail);
    } else {
      var others := Stream(messages[1..]) + tail;
      assert Stream(messages) + tail == Frame(messages[0]) + others;
      DecodeOneFrame(messages[0], others);
      DecodeStream(messages[1..], tail);
      assert [messages[0]] + (messages[1..] + Decode(tail)) == messages + Decode(tail);
    }
  }

  lemma {:induction false} StreamConcat(a: seq<seq<uint8>>, b: seq<seq<uint8>>)
    ensures Stream(a + b) == Stream(a) + Stream(b)
  {
    hide Frame;
    if a == [] {
      assert a + b == b;
    } else {
      assert (a + b)[1..] == a[1..] + b;
      StreamConcat(a[1..], b);
    }
  }

  lemma StreamAppend(a: seq<seq<uint8>>, m: seq<uint8>)
    ensures Stream(a + [m]) == Stream(a) + Frame(m)
  {
    hide Frame;
    StreamConcat(a, [m]);
    assert Stream([m]) == Frame(m) + Stream([]);
  }
}
