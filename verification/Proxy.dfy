/** The source's connection context: a fixed buffer, a remaining-bytes counter and an
    offset into the message. Its one entry point implements the machine of module
    Connection, step for step. */
module Proxy {
  import opened Bytes
  import opened Frames
  import opened Handshake
  import opened Codec
  import opened Connection

  type int32 = x: int | -0x8000_0000 <= x < 0x8000_0000

  class ProxyIoContext {
    const listener: Listener
    const listenerData: ListenerConnectionData
    const message: SshMessageEnvelope
    const ioBuffer: array<uint8>

    var state: State
    var ioDataOffset: int32   // bytes of the reply already copied into the buffer
    var ioNeedBytes: int32    // bytes missing to complete the transaction
    var io: Io                // the OVERLAPPED operation in progress

    // what went over the connection so far
    ghost var received: seq<uint8>
    ghost var sent: seq<uint8>
    ghost var delivered: seq<seq<uint8>>
    ghost var replies: seq<seq<uint8>>

    ghost predicate WellFormed()
      reads this, listenerData
    {
      && ioBuffer.Length == MAX_BUFFER_SIZE
      && listenerData.Valid() && Started(listenerData.state) <= |Script(listener)|
    }

    ghost predicate Valid()
      reads this, listenerData, message
    {
      && WellFormed()
      && (state == ReadHeader ==> ioNeedBytes == HEADER_SIZE && message.data == [])
      && (state == ReadBody ==>
            && 0 <= ioNeedBytes
            && message.length == |message.data| + ioNeedBytes)
      && (state == WriteReply ==>
            && io.Writing?
            && 0 <= ioDataOffset <= |message.data|
            && |message.data| + HEADER_SIZE < 0x8000_0000
            && ioNeedBytes == |io.chunk| + |message.data| - ioDataOffset)
    }

    /** The context as the machine sees it. */
    ghost function Abs(): Conn
      requires Valid()
      reads this, listenerData, message
    {
      Conn(
        listener, state, Started(listenerData.state), message.data,
        if state == ReadBody then ioNeedBytes else 0,
        if state == WriteReply then message.data[ioDataOffset..] else [],
        io, received, sent, delivered, replies)
    }

    /** A context as DelegateConnection sets it up, before its first step. */
    constructor (listener: Listener)
      ensures Valid() && Abs() == Accept(listener)
      ensures fresh(listenerData) && fresh(message) && fresh(ioBuffer)
      ensures fresh(listenerData.nonce) && fresh(listenerData.info)
    {
      this.listener := listener;
      listenerData := new ListenerConnectionData();
      message := new SshMessageEnvelope(0, []);
      ioBuffer := new uint8[MAX_BUFFER_SIZE];
      state := Handshaking;
      ioDataOffset, ioNeedBytes, io := 0, 0, Idle;
      received, sent, delivered, replies := [], [], [], [];
    }

    method Dispose()
      requires WellFormed()
      modifies this`state, this`io
      ensures Valid() && state == Destroyed
      ensures io == if old(state) == Destroyed then old(io) else Idle
    {
      if state != Destroyed {
        state := Destroyed;
        io := Idle;
      }
    }

    /** Starts a read; `ok` is whether the system accepts it. */
    method ReadFile(count: nat, ok: bool)
      requires WellFormed() && state != Destroyed
      modifies this`io, this`state
      ensures WellFormed()
      ensures if ok then io == Reading(count) && state == old(state) else io == Idle && state == Destroyed
    {
      if ok {
        io := Reading(count);
      } else {
        Dispose();
      }
    }

    /** Whether `moved` is what the completed operation left in the buffer it works on. */
    ghost predicate Moved(transferred: nat, moved: seq<uint8>)
      requires Valid()
      reads this, listenerData, message, ioBuffer, listenerData.nonce, listenerData.info
    {
      && |moved| == transferred
      && (state == ReadHeader || state == ReadBody ==>
            transferred <= ioBuffer.Length && moved == ioBuffer[..transferred])
      && (state == Handshaking && (listenerData.state == ReadNonce || listenerData.state == ReadInfo) ==>
            transferred <= listenerData.Buffer().Length && moved == listenerData.Buffer()[..transferred])
    }

    /** One completion. The reply in a waiting context is consistent and its frame shorter
        than 2 GiB; a write of reply bytes completes in full. */
    method DoIoCompletion(transferred: nat, ok: bool, ghost moved: seq<uint8>) returns (emit: bool)
      requires Valid() && Moved(transferred, moved)
      requires state == WaitReply ==> message.Consistent() && message.length + HEADER_SIZE < 0x8000_0000
      requires state == WriteReply ==> transferred == |io.chunk|
      modifies this, message, ioBuffer, listenerData, listenerData.info
      ensures Valid()
      ensures Abs() == Connection.DoIoCompletion(old(Abs()), moved, ok)
      ensures emit == Emits(old(Abs()), Abs())
      ensures emit ==> message.Consistent()
    {
      emit := false;
      match state {
        case Handshaking =>
          ContinueHandshake(transferred, ok, moved);
        case Ready =>
          AwaitHeader(ok);
        case ReadHeader =>
          TakeHeader(transferred, ok, moved);
        case ReadBody =>
          emit := TakeBody(transferred, ok, moved);
        case WaitReply =>
          BeginReply(ok);
        case WriteReply =>
          ContinueReply(transferred, ok);
        case Initialized =>
          Dispose();
        case Destroyed =>
          Dispose();
      }
    }

    /** The dispatcher's answer: the reply is in place, or there is none. It may come after
        the connection was lost. */
    method PostMessageReply(status: bool, ok: bool)
      requires Valid() && (state == WaitReply || state == Destroyed)
      requires status && state == WaitReply ==> message.Consistent() && message.length + HEADER_SIZE < 0x8000_0000
      modifies this, message, ioBuffer, listenerData, listenerData.info
      ensures Valid()
      ensures Abs() == if status then Connection.DoIoCompletion(old(Abs()), [], ok) else Connection.Dispose(old(Abs()))
    {
      if status {
        var _ := DoIoCompletion(0, ok, []);
      } else {
        Dispose();
      }
    }

    method AwaitHeader(ok: bool)
      requires Valid() && (state == Handshaking || state == Ready)
      modifies this, message
      ensures Valid() && Abs() == Connection.AwaitHeader(old(Abs()), ok)
      ensures state == ReadHeader || state == Destroyed
    {
      state := ReadHeader;
      ioNeedBytes := HEADER_SIZE;
      message.data := [];
      ReadFile(HEADER_SIZE, ok);
      assert sent + [] == sent;
    }

    method ContinueHandshake(transferred: nat, ok: bool, ghost moved: seq<uint8>)
      requires Valid() && state == Handshaking && Moved(transferred, moved)
      modifies this, message, listenerData, listenerData.info
      ensures Valid() && Abs() == Connection.ContinueHandshake(old(Abs()), moved, ok)
      ensures state != WaitReply
    {
      hide Script;
      received := received + if io.Reading? then moved else [];
      io := Idle;
      var step := listenerData.DoHandshake(listener, transferred, moved);
      match step {
        case Failed =>
          Dispose();
        case Finished =>
          AwaitHeader(ok);
        case Continue(operation) =>
          if ok {
            io := operation;
            sent := sent + if io.Writing? then io.chunk else [];
          } else {
            Dispose();
          }
      }
    }

    method TakeHeader(transferred: nat, ok: bool, ghost moved: seq<uint8>)
      requires Valid() && state == ReadHeader && Moved(transferred, moved)
      modifies this, message
      ensures Valid() && Abs() == Connection.TakeHeader(old(Abs()), moved, ok)
      ensures state != WaitReply
    {
      hide FromBe32;
      received := received + moved;
      io := Idle;
      state := ReadBody;
      ioNeedBytes := ioNeedBytes - transferred;
      if ioNeedBytes != 0 {
        Dispose();
        return;
      }
      message.length := FromBe32(ioBuffer[..HEADER_SIZE]);
      if message.length > MAX_MESSAGE_SIZE {
        Dispose();
        return;
      }
      ioNeedBytes := message.length;
      ReadFile(Min(MAX_BUFFER_SIZE, ioNeedBytes), ok);
      assert sent + [] == sent;
    }

    method TakeBody(transferred: nat, ok: bool, ghost moved: seq<uint8>) returns (emit: bool)
      requires Valid() && state == ReadBody && Moved(transferred, moved)
      modifies this, message
      ensures Valid() && Abs() == Connection.TakeBody(old(Abs()), moved, ok)
      ensures emit == (state == WaitReply)
      ensures emit ==> message.Consistent()
    {
      emit := false;
      received := received + moved;
      io := Idle;
      ioNeedBytes := ioNeedBytes - transferred;
      if ioNeedBytes < 0 {
        Dispose();
        return;
      }
      message.data := message.data + ioBuffer[..transferred];
      if ioNeedBytes > 0 {
        ReadFile(Min(MAX_BUFFER_SIZE, ioNeedBytes), ok);
        assert sent + [] == sent;
      } else {
        state := WaitReply;
        delivered := delivered + [message.data];
        emit := true;
      }
    }

    /** Writes the first `count` bytes of the buffer. */
    method WriteFile(count: nat, ok: bool, ghost chunk: seq<uint8>)
      requires ioBuffer.Length == MAX_BUFFER_SIZE && listenerData.Valid()
      requires Started(listenerData.state) <= |Script(listener)|
      requires count <= ioBuffer.Length && chunk == ioBuffer[..count] && state == WriteReply
      requires 0 <= ioDataOffset <= |message.data| && |message.data| + HEADER_SIZE < 0x8000_0000
      requires ioNeedBytes == count + |message.data| - ioDataOffset
      modifies this
      ensures Valid()
      ensures Abs() ==
        Issue(Conn(listener, WriteReply, Started(listenerData.state), message.data, 0,
                   message.data[old(ioDataOffset)..], old(io), old(received), old(sent), old(delivered), old(replies)),
              Writing(chunk), ok)
      ensures state != WaitReply
    {
      if ok {
        io := Writing(ioBuffer[..count]);
        sent := sent + chunk;
      } else {
        state := Destroyed;
        io := Idle;
      }
    }

    /** Copies `bytes` into the buffer. */
    method Fill(at: nat, bytes: seq<uint8>)
      requires at + |bytes| <= ioBuffer.Length
      modifies ioBuffer
      ensures ioBuffer[..at + |bytes|] == old(ioBuffer[..at]) + bytes
    {
      forall i | 0 <= i < |bytes| {
        ioBuffer[at + i] := bytes[i];
      }
    }

    /** Lays the header and the first `n` bytes of the reply in the buffer. */
    method FillFirst(n: nat)
      requires ioBuffer.Length == MAX_BUFFER_SIZE && HEADER_SIZE + n <= MAX_BUFFER_SIZE
      requires message.Consistent() && n <= |message.data|
      modifies ioBuffer
      ensures ioBuffer[..HEADER_SIZE + n] == Frame(message.data)[..HEADER_SIZE + n]
    {
      hide Be32, Frame;
      Fill(0, Be32(message.length));
      Fill(HEADER_SIZE, message.data[..n]);
      FrameParts(message.data, n);
    }

    method BeginReply(ok: bool)
      requires Valid() && state == WaitReply
      requires message.Consistent() && message.length + HEADER_SIZE < 0x8000_0000
      modifies this, ioBuffer
      ensures Valid() && Abs() == Connection.BeginReply(old(Abs()), ok)
    {
      hide Frame, Issue, Connection.BeginReply, Script;
      FirstChunk(Abs(), ok);
      state := WriteReply;
      replies := replies + [message.data];
      ioNeedBytes := |message.data| + HEADER_SIZE;
      var writeLength := Min(MAX_BUFFER_SIZE, ioNeedBytes);
      ioDataOffset := writeLength - HEADER_SIZE;
      FillFirst(ioDataOffset);
      WriteFile(writeLength, ok, Frame(message.data)[..writeLength]);
    }

    method ContinueReply(transferred: nat, ok: bool)
      requires Valid() && state == WriteReply && transferred == |io.chunk|
      modifies this, message, ioBuffer
      ensures Valid() && Abs() == Connection.DoIoCompletion(old(Abs()), old(io.chunk), ok)
      ensures state != WaitReply
    {
      hide WriteChunk, Script;
      if ioNeedBytes - transferred > 0 {
        NextChunk(transferred, ok);
      } else {
        ioNeedBytes := ioNeedBytes - transferred;
        state := Ready;
        io := Idle;
        AwaitHeader(ok);
      }
    }

    method NextChunk(transferred: nat, ok: bool)
      requires Valid() && state == WriteReply && transferred == |io.chunk| && ioNeedBytes - transferred > 0
      modifies this, ioBuffer
      ensures Valid() && Abs() == WriteChunk(old(Abs()), ok)
      ensures state != WaitReply
    {
      hide Issue, Script;
      ghost var unsent := message.data[ioDataOffset..];
      ioNeedBytes := ioNeedBytes - transferred;
      var writeLength := Min(MAX_BUFFER_SIZE, ioNeedBytes);
      Fill(0, message.data[ioDataOffset..ioDataOffset + writeLength]);
      assert ioBuffer[..writeLength] == unsent[..writeLength];
      ioDataOffset := ioDataOffset + writeLength;
      assert message.data[ioDataOffset..] == unsent[writeLength..];
      WriteFile(writeLength, ok, unsent[..writeLength]);
    }
  }

  /** The first write of a reply takes its frame up to the size of the buffer. */
  lemma FirstChunk(c: Conn, ok: bool)
    requires |c.message| < WORD32
    ensures var n := Min(MAX_BUFFER_SIZE, |c.message| + HEADER_SIZE);
            && |Frame(c.message)| == |c.message| + HEADER_SIZE
            && Connection.BeginReply(c, ok) ==
                 Issue(c.(state := WriteReply, unsent := c.message[n - HEADER_SIZE..], replies := c.replies + [c.message]),
                       Writing(Frame(c.message)[..n]), ok)
  {
    hide Frame, Issue;
    FrameParts(c.message, Min(MAX_BUFFER_SIZE, |c.message| + HEADER_SIZE) - HEADER_SIZE);
  }

  /** A frame cut `n` bytes into its message. */
  lemma FrameParts(message: seq<uint8>, n: nat)
    requires n <= |message| < WORD32
    ensures |Frame(message)| == HEADER_SIZE + |message|
    ensures Frame(message)[..HEADER_SIZE + n] == Be32(|message|) + message[..n]
    ensures Frame(message)[HEADER_SIZE + n..] == message[n..]
  {
    hide Be32;
  }
}
