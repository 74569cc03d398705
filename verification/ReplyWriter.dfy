/** Writing a reply in chunks: how many writes it takes, and what becomes of it when a
    write completes short.

    The source advances its offset by what it asked to write, not by what was written.
    Its counters therefore come out right exactly when every write completes in full. */
module ReplyWriter {
  import opened Bytes
  import opened Frames
  import opened Handshake
  import opened Connection
  import Proxy

  // ---------------------------------------------------------------- the number of writes

  /** A connection after `n` writes have completed in full. */
  ghost function AfterWrites(c: Conn, n: nat): Conn
    requires c.exchange <= |Script(c.listener)|
    decreases n
  {
    if n == 0 || !c.io.Writing? then c
    else AfterWrites(DoIoCompletion(c, c.io.chunk, true), n - 1)
  }

  function WritesNeeded(bytes: nat): nat {
    (bytes + MAX_BUFFER_SIZE - 1) / MAX_BUFFER_SIZE
  }

  lemma OneWrite(c: Conn)
    requires c.exchange <= |Script(c.listener)| && c.state == WriteReply && c.io.Writing?
    ensures var d := DoIoCompletion(c, c.io.chunk, true);
            && d.exchange == c.exchange && d.listener == c.listener
            && (c.unsent == [] ==> d.state == ReadHeader && d.io.Reading?)
            && (c.unsent != [] ==>
                  && d.state == WriteReply && d.io.Writing?
                  && |d.unsent| == |c.unsent| - Min(MAX_BUFFER_SIZE, |c.unsent|)
                  && d.sent + d.unsent == c.sent + c.unsent)
  {
    hide Script;
    var k := Min(MAX_BUFFER_SIZE, |c.unsent|);
    assert c.unsent == c.unsent[..k] + c.unsent[k..];
  }

  /** A write that is followed by `n` more completes the bytes still unsent in `n` writes. */
  lemma {:induction false} RemainingWrites(c: Conn, n: nat)
    requires c.exchange <= |Script(c.listener)| && c.state == WriteReply && c.io.Writing?
    requires n == WritesNeeded(|c.unsent|)
    ensures AfterWrites(c, n).state == WriteReply && AfterWrites(c, n).unsent == []
    ensures AfterWrites(c, n).sent == c.sent + c.unsent
    ensures AfterWrites(c, n + 1).state == ReadHeader
    decreases n
  {
    hide DoIoCompletion, Script;
    OneWrite(c);
    var d := DoIoCompletion(c, c.io.chunk, true);
    if n == 0 {
      var none: seq<uint8> := [];
      assert c.unsent == [] && c.sent + none == c.sent;
      assert AfterWrites(c, 1) == AfterWrites(d, 0);
    } else {
      RemainingWrites(d, n - 1);
    }
  }

  /** A reply is written in exactly ceil((length + 4) / 4096) writes, whose bytes are the
      reply's frame; then the connection waits for the next header. */
  lemma ReplyWrites(c: Conn)
    requires c.exchange <= |Script(c.listener)| && c.state == WaitReply
    ensures var n := WritesNeeded(|c.message| + HEADER_SIZE);
            var d := BeginReply(c, true);
            && n > 0
            && AfterWrites(d, n - 1).state == WriteReply
            && AfterWrites(d, n - 1).sent == c.sent + Frame(c.message)
            && AfterWrites(d, n).state == ReadHeader
  {
    hide DoIoCompletion, Be32, Script;
    var frame := Frame(c.message);
    var d := BeginReply(c, true);
    var k := Min(MAX_BUFFER_SIZE, |frame|);
    assert d.unsent == frame[k..] && d.io == Writing(frame[..k]);
    assert d.sent == c.sent + frame[..k];
    assert frame == frame[..k] + frame[k..];
    RemainingWrites(d, WritesNeeded(|c.message| + HEADER_SIZE) - 1);
  }

  // ---------------------------------------------------------------- short writes

  /** The source's counters between two writes of a reply of `size` bytes, or how the
      writing ended. `OutOfBounds` is a copy from beyond the end of the reply. */
  datatype Progress = Busy(need: int, offset: nat, chunk: nat) | OutOfBounds | Whole

  function Begin(size: nat): Progress {
    var n := Min(MAX_BUFFER_SIZE, size + HEADER_SIZE);
    Busy(size + HEADER_SIZE, n - HEADER_SIZE, n)
  }

  function Completed(size: nat, p: Progress, transferred: nat): Progress {
    if !p.Busy? then p
    else
      var need := p.need - transferred;
      if need <= 0 then Whole
      else
        var n := Min(MAX_BUFFER_SIZE, need);
        if p.offset + n > size then OutOfBounds else Busy(need, p.offset + n, n)
  }

  /** The counters of a connection that writes a reply. */
  function Counters(c: Conn): Progress
    requires c.io.Writing? && |c.unsent| <= |c.message|
  {
    Busy(|c.io.chunk| + |c.unsent|, |c.message| - |c.unsent|, |c.io.chunk|)
  }

  /** They are the fields of the context that implements it. */
  lemma CountersAreFields(context: Proxy.ProxyIoContext)
    requires context.Valid() && context.state == WriteReply
    ensures |context.Abs().unsent| <= |context.Abs().message| == |context.message.data|
    ensures Counters(context.Abs()) == Busy(context.ioNeedBytes, context.ioDataOffset, |context.io.chunk|)
  {
    var left := context.message.data[context.ioDataOffset..];
    assert context.Abs().unsent == left && |left| == |context.message.data| - context.ioDataOffset;
  }

  /** As long as writes complete in full, they go as `Begin` and `Completed` say. */
  lemma CountersStep(c: Conn)
    requires c.exchange <= |Script(c.listener)|
    ensures c.state == WaitReply ==>
      var d := BeginReply(c, true);
      d.io.Writing? && d.message == c.message && |d.unsent| <= |d.message| && Counters(d) == Begin(|c.message|)
    ensures c.state == WriteReply && c.io.Writing? && |c.unsent| <= |c.message| ==>
      var d, after := DoIoCompletion(c, c.io.chunk, true), Completed(|c.message|, Counters(c), |c.io.chunk|);
      if c.unsent == [] then after == Whole && d.state == ReadHeader
      else d.io.Writing? && d.message == c.message && |d.unsent| <= |d.message| && after == Counters(d)
  {
    hide Script, Be32;
  }

  function AfterAll(size: nat, p: Progress, transfers: seq<nat>): Progress
    decreases |transfers|
  {
    if transfers == [] then p else AfterAll(size, Completed(size, p, transfers[0]), transfers[1..])
  }

  /** No write completes with more than it was asked for. */
  ghost predicate Possible(size: nat, p: Progress, transfers: seq<nat>)
    decreases |transfers|
  {
    transfers != [] && p.Busy? ==>
      transfers[0] <= p.chunk && Possible(size, Completed(size, p, transfers[0]), transfers[1..])
  }

  /** Every write completes with what it was asked for. */
  ghost predicate AllFull(size: nat, p: Progress, transfers: seq<nat>)
    decreases |transfers|
  {
    transfers != [] && p.Busy? ==>
      transfers[0] == p.chunk && AllFull(size, Completed(size, p, transfers[0]), transfers[1..])
  }

  /** How far the remaining-bytes counter is ahead of the bytes really left. */
  function Excess(size: nat, p: Progress): int {
    if p.Busy? then p.need - p.chunk - (size - p.offset) else 0
  }

  lemma {:induction false} WholeIffFull(size: nat, p: Progress, transfers: seq<nat>)
    requires p.Busy? ==> Excess(size, p) >= 0 && p.offset <= size
    requires p != OutOfBounds && Possible(size, p, transfers)
    requires !AfterAll(size, p, transfers).Busy?
    ensures AfterAll(size, p, transfers) == Whole <==>
      (Excess(size, p) == 0 && AllFull(size, p, transfers))
    decreases |transfers|
  {
    if p.Busy? {
      var q := Completed(size, p, transfers[0]);
      if q == OutOfBounds {
        Settled(size, q, transfers[1..]);
      } else {
        WholeIffFull(size, q, transfers[1..]);
      }
    } else {
      Settled(size, p, transfers);
    }
  }

  lemma {:induction false} Settled(size: nat, p: Progress, transfers: seq<nat>)
    requires !p.Busy?
    ensures AfterAll(size, p, transfers) == p
  {
    if transfers != [] {
      Settled(size, p, transfers[1..]);
    }
  }

  /** Once the writing of a reply is over, it was written as a whole exactly when every
      write completed in full; after any short write it ends with a copy from beyond the
      end of the reply. */
  lemma WholeReplyIffFullWrites(size: nat, transfers: seq<nat>)
    requires Possible(size, Begin(size), transfers)
    requires !AfterAll(size, Begin(size), transfers).Busy?
    ensures AfterAll(size, Begin(size), transfers) == Whole <==> AllFull(size, Begin(size), transfers)
    ensures AfterAll(size, Begin(size), transfers) == OutOfBounds <==> !AllFull(size, Begin(size), transfers)
  {
    WholeIffFull(size, Begin(size), transfers);
  }

  /** A five-byte reply, nine bytes with its header, of which the write takes eight: the
      source goes on to copy the sixth byte of the reply. */
  lemma ShortWriteExample()
    ensures Possible(5, Begin(5), [8]) && AfterAll(5, Begin(5), [8]) == OutOfBounds
  {
    assert Completed(5, Begin(5), 8) == OutOfBounds;
    assert AfterAll(5, Begin(5), [8]) == AfterAll(5, OutOfBounds, []);
  }
}
