# ssh-agent-bridge: a verified model

ssh-agent-bridge lets programs of one world (Cygwin, WSL, GnuPG, PuTTY, Windows OpenSSH) use
the SSH agents of another. It accepts connections on sockets and pipes, cuts the bytes that
arrive into agent messages, asks the upstream agents, and writes the replies back; for GnuPG
it relays bytes in both directions. This project models that core in Dafny and proves what it
does in every run.

## How it is built

Each stateful part appears twice. A machine on values says what one step does, and carries
the theorems about whole runs. A class with the source's own fields, loops and buffers does
the same work in place, and each of its methods is proved to take the machine's step.
The histories a machine keeps are proved to be what the events of the run have moved, and the
theorems about input and output speak of the latter.

| file | what it models |
|---|---|
| Bytes.dfy, Wrappers.dfy | 32-bit wrap-around, network byte order, optional values |
| Codec.dfy | message envelope, reader and writer, identities answer |
| Frames.dfy | a byte stream as a sequence of length-prefixed messages |
| Handshake.dfy | the libassuan and Cygwin handshakes |
| Connection.dfy, Proxy.dfy | one proxied connection: the machine, and the context class |
| ReplyWriter.dfy, Progress.dfy | how many writes a reply takes; when a connection advances |
| Agent.dfy | what the dispatcher makes of one request |
| WorkQueue.dfy | the dispatcher's list, worker, cancellation and destruction |
| Bridge.dfy, Runs.dfy, Transcripts.dfy | everything so far at once, in any interleaving: the machine and its invariant, what becomes of connections and messages in all runs, and what goes over the connections |
| Relay.dfy, Forwarding.dfy | the full-duplex GnuPG relay: the machine, and the context class |
| HelperRelay.dfy | the WSL helper's blocking relay, held to the same pipe as the other |
| SocketFile.dfy | the socket file: its printer, its parser, and the language it accepts |
| EaList.dfy | the list of extended attributes: its builder, and the walk that reads it |
| Pageant.dfy | the Pageant window's rendezvous with the dispatcher |
| Refcount.dfy | the WSL helper's count of sessions |

## The main results

- `Transcripts.EndToEnd`: over every interleaving of connections, completions, worker steps,
  cancellation and losses, the k-th reply frame written to a connection is what the worker
  made of the k-th request frame read from that connection: there is an event at which it
  held this very request's ticket, asked the agents with its bytes, and got this reply. So
  answers are never mixed up, on one connection or between two, although the dispatcher
  takes the newest request first. `Runs.AnsweredByOneEvent`: that event is the only one.
- `Transcripts.DeliveredIsDecoded` and `Runs.ExactlyOnce`: what reaches the dispatcher is what a
  pure decoder finds in the input; each message is posted once and called back once.
- `Relay.EveryRunConserves` and `HelperRelay.Session.DoForward`: both relays are lossless
  first-in first-out pipes, however reads and writes are split; and if no call fails, the
  helper's forwards everything both sides ever send once one of them hangs up.
- `Agent.AggregationMeaning`, `Codec.AnswerRoundTrip`, `Codec.AnswerUnambiguous`: the combined
  identities answer decodes to the agents' identities, exactly when it fits its length field.
- `SocketFile.ParseMeaning`, `SocketFile.PrintParse`, `EaList.WalkIffFits`: what one program
  lays out, another reads back, with the exact condition.

## What is assumed of the environment

- A read completes with at most the bytes it asked for; no bytes means the end of the input.
- A write of the relay completes with at most the bytes it was given. A write of reply bytes
  by the proxy completes in full; `ReplyWriter.WholeReplyIffFullWrites` says what happens when
  one does not.
- One completion is one atomic step of its context, and so is each critical section.
- A client that reports success has set the length of the reply to the size of its data, and
  the data is shorter than 4 GiB. A frame is shorter than 2 GiB, the range of the counters.
- Signals between helpers are not merged. They may be delivered in any order; the results
  that need the order in which they were sent say so (`Refcount.LeavesInOrder`).
- `size_t` has 64 bits; the machine is little-endian.

## Where the code does not do what one would expect

These are kept as they are, with the exact condition under which they matter.

- The proxy advances its offset into a reply by what it asked to write, not by what was
  written (`proxy.cpp:340-349`). After a short write it goes on to copy bytes from beyond the
  reply: `ReplyWriter.WholeReplyIffFullWrites`, `ReplyWriter.ShortWriteExample`.
- The relay's handshake declares a context established after both first reads were started,
  even if the second was refused and the context disposed (`forwarding.cpp:161-172`). Such a
  context can be taken off the manager's list twice: `Relay.RevivedIffSecondReadRefused`,
  `Relay.RemovedTwice`. Nothing else breaks the discipline: `Relay.EveryRunDisciplined`.
- The parsers of the socket file skip every newline after the port, so a nonce that begins
  with a newline byte is never read: `SocketFile.PrintParse`.
- A failed `ReadString` moves the cursor back by four even if it had not moved it forward:
  `Codec.SshAgentMessageBufferReader.ReadString`.
- The length of an envelope is counted in 32 bits: `Codec.AnswerInEnvelope`.
- Names and values too long for their length fields are written all the same, and the walk
  then reads something else: `EaList.WalkIffFits`.
- A read of zero bytes in the middle of a message is simply repeated:
  `Progress.CompletionAdvances`. A message of no bytes is delivered one completion after its
  header, and `Transcripts.DeliveredIsDecoded` says exactly when it lags behind.
- A helper that announces its session while the last release is on its way is left without a
  server, and so is one whose announcement that release overtakes: `Refcount.LateJoinExample`,
  `Refcount.OvertakenExample`. Exactly when the server leaves somebody behind is stated for
  delivery in any order by `Refcount.LeavesAtLastRelease` and for delivery in the order sent
  by `Refcount.LeavesInOrder`.

## Model

| member | source | states |
|---|---|---|
| `Transcripts.EndToEnd` | src/protocol/connection_manager/proxy.cpp:217-384 | at every moment of every run, on every connection, nothing is delivered before the handshake is over, the bytes given to writes are the handshake's followed by a prefix of reply frames, and reply frame k was made by an event at which the worker held the ticket of request k of this connection and asked the agents with the bytes of frame k of what reads have moved |
| `Runs.RepliesAreAnswers` | src/message_dispatcher.cpp:37-45 | every reply of a connection was made by such an event for the message of the same number that the connection delivered |
| `Runs.AnsweredByOneEvent` | src/message_dispatcher.cpp:37-45 | no message is answered at two events, so each reply has one origin |
| `Transcripts.DeliveredIsDecoded` | src/protocol/connection_manager/proxy.cpp:232-314 | in every run the messages delivered are the frames that a length-prefix decoder finds in the bytes reads have moved after the handshake, each of at most 256 KiB; one empty message lags behind exactly while its body of no bytes is being read or, on a lost connection, exactly if the input ends in its header |
| `Transcripts.BetweenRequests` | src/protocol/connection_manager/proxy.cpp:232-244 | a connection that waits for a header has read whole frames only; each of them was answered by the reply of the same number, in the sense above, and the writes issued carried all replies |
| `Transcripts.HandshakeGates` | src/protocol/connection_manager/proxy.cpp:228-243 | once anything was delivered, the input begins with the listener's nonce and, for Cygwin, 12 more bytes, and the output with nonce and server information |
| `Transcripts.HandshakeOrder` | src/protocol/cygwin/listener.cpp:89-174 | at every moment of every run a Cygwin peer was sent the nonce only after it had shown it, was read from again only after that, and was sent the server information only after it had given its own |
| `Transcripts.HistoriesAreReal` | src/protocol/connection_manager/proxy.cpp:280-291 | what a connection has recorded as received and sent is the concatenation of what its reads have moved and of what its writes were given, and its listener is the one it was accepted from |
| `Transcripts.EndsOnlyFor` | src/protocol/connection_manager/proxy.cpp:217-384 | an event ends a live connection if and only if the handshake met something else, a header was short or announced more than 262144 bytes, an operation due was refused or failed, the dispatcher was cancelled, or the request was empty |
| `Runs.ExactlyOnce` | src/message_dispatcher.cpp:13-81 | each delivered message is posted once; its callback was called once or its ticket is outstanding, never both or neither; after worker and destructor are done it was called once |
| `Runs.WaitingMeansOutstanding` | src/protocol/connection_manager/proxy.cpp:306-313 | a connection has at most one message in the dispatcher; it waits for a reply only if it has one; an outstanding message's connection waits or is lost |
| `Bridge.OneOutstanding` | src/message_dispatcher.cpp:37-45 | two outstanding tickets of one connection are the same ticket, outstanding once, although the list is a stack |
| `Runs.ContextListIsLive` | src/protocol/connection_manager/proxy.cpp:152-170 | at every moment the context list holds each connection that is not destroyed once, and nothing else |
| `Bridge.UpdateList` | src/protocol/connection_manager/proxy.cpp:55-66 | a context that is disposed is on the list when it is removed, so each context is removed once |
| `Runs.HistoryGrows` | src/protocol/connection_manager/proxy.cpp:367-384 | as a run goes on, what a connection has read, sent, delivered and answered only grows; a destroyed one, whatever arrives late, stays as it is and off the list |
| `Bridge.NextInv` | src/protocol/connection_manager/proxy.cpp:120-384 | every event of the whole system keeps its invariant: connections, tickets, ledger and list |
| `Runs.RunInv` | src/protocol/connection_manager/proxy.cpp:120-384 | the invariant holds at every moment of every run |
| `Runs.LedgerIsRun` | src/message_dispatcher.cpp:13-81 | within a run of the whole system the dispatcher goes through a run of its own, of the messages delivered and its own steps |
| `Runs.EveryScheduleRuns` | src/protocol/connection_manager/proxy.cpp:172-215 | every sequence of events has a run, so the theorems are about all of them |
| `Connection.StepInv` | src/protocol/connection_manager/proxy.cpp:217-372 | every step the environment can cause keeps a connection's invariant: bytes consumed are the frames delivered and the partial frame in hand, bytes written and unsent are the frames of the replies |
| `Connection.InvSafe` | src/protocol/connection_manager/proxy.cpp:217-372 | the invariant implies that delivered messages are decoded input and output is a prefix of framed replies, in every state, destroyed included |
| `Connection.LagMeans` | src/protocol/connection_manager/proxy.cpp:276-313 | while a connection is not lost, an empty message is decoded but not yet delivered exactly in the body state with no byte missing |
| `Connection.DisposeInv` | src/protocol/connection_manager/proxy.cpp:55-66 | losing the connection at any moment keeps it safe |
| `Connection.StepEffect` | src/protocol/connection_manager/proxy.cpp:217-372 | one step delivers at most the message in hand, begins a reply only from the waiting state, and does nothing to a destroyed connection |
| `Connection.StepHears` | src/protocol/connection_manager/proxy.cpp:280-291 | a step adds to the input exactly the bytes its read has moved |
| `Connection.StepTells` | src/protocol/connection_manager/proxy.cpp:315-358 | a step adds to the output exactly the bytes of the write it issues |
| `Connection.LostOnlyFor` | src/protocol/connection_manager/proxy.cpp:228-358 | a completion ends a connection exactly for a wrong handshake, a header of other than four bytes or above 262144, or a refused operation |
| `Connection.StepBusy` | src/protocol/connection_manager/proxy.cpp:237-353 | the operation outstanding after a step reads 4 bytes of a header, min(4096, missing) bytes of a body, or writes 4096 bytes of a reply or its end |
| `Proxy.ProxyIoContext.constructor` | src/protocol/connection_manager/proxy.cpp:135-139 | a delegated context is a connection about to start its handshake |
| `Proxy.ProxyIoContext.DoIoCompletion` | src/protocol/connection_manager/proxy.cpp:217-372 | with buffer, offset and remaining-bytes counter, a completion takes the step of the connection machine; a message handed out has length equal to its size |
| `Proxy.ProxyIoContext.PostMessageReply` | src/protocol/connection_manager/proxy.cpp:374-384 | a reply takes the waiting context's step or disposes it; late ones do nothing |
| `Proxy.ProxyIoContext.TakeHeader` | src/protocol/connection_manager/proxy.cpp:245-279 | a short header or a length over 256 KiB ends the connection; otherwise the next read asks for at most 4 KiB of the body |
| `Proxy.ProxyIoContext.TakeBody` | src/protocol/connection_manager/proxy.cpp:280-314 | the bytes read are appended; the message is emitted exactly when none is missing |
| `Proxy.ProxyIoContext.BeginReply` | src/protocol/connection_manager/proxy.cpp:315-339 | the buffer holds the first 4 KiB of the frame of the reply, and the offset the rest |
| `Proxy.ProxyIoContext.ContinueReply` | src/protocol/connection_manager/proxy.cpp:340-366 | the next chunk follows the last, no copy leaves buffer or reply, and after the last chunk a header is awaited |
| `Proxy.ProxyIoContext.Dispose` | src/protocol/connection_manager/proxy.cpp:55-66 | the context is destroyed and its operation cancelled, once |
| `ReplyWriter.ReplyWrites` | src/protocol/connection_manager/proxy.cpp:315-366 | a reply takes exactly ceil((length + 4) / 4096) writes, whose bytes are its frame, and then a header is awaited |
| `ReplyWriter.CountersStep` | src/protocol/connection_manager/proxy.cpp:320-352 | under full writes, the counters of the short-write analysis are those of the connection, from the first chunk to the last |
| `ReplyWriter.CountersAreFields` | src/protocol/connection_manager/proxy.cpp:320-352 | and these are the remaining-bytes and offset fields of the context |
| `ReplyWriter.WholeReplyIffFullWrites` | src/protocol/connection_manager/proxy.cpp:340-349 | with writes that may be short, a reply is written whole if and only if every write completed in full; otherwise the source copies from beyond its end |
| `ReplyWriter.ShortWriteExample` | src/protocol/connection_manager/proxy.cpp:340-349 | a reply of five bytes, eight of nine written, leads to such a copy |
| `Progress.CompletionAdvances` | src/protocol/connection_manager/proxy.cpp:217-372 | a completion brings a connection nearer to its next message, measured by state and missing bytes, unless and only unless it is empty in the middle of a message |
| `Progress.WorkIsBounded` | src/protocol/connection_manager/proxy.cpp:217-372 | however many completions a connection takes before it waits or is lost, they are no more than its measure and the empty ones |
| `Frames.DecodeStream` | src/protocol/connection_manager/proxy.cpp:245-260 | decoding undoes framing, whatever unfinished bytes follow |
| `Frames.DecodedWithinLimit` | src/protocol/connection_manager/proxy.cpp:260-265 | no decoded message exceeds 256 KiB |
| `Handshake.HandshakeMeaning` | src/protocol/cygwin/listener.cpp:81-174 | a completed handshake has read the nonce (libassuan), or nonce and 12 bytes (Cygwin), and written nothing, or nonce and server information |
| `Handshake.CygwinExchanges` | src/protocol/cygwin/listener.cpp:89-174 | after each of the four exchanges it is known how many bytes were read, that they begin with the nonce, and what was written |
| `Handshake.ListenerConnectionData.DoHandshake` | src/protocol/cygwin/listener.cpp:81-174 | each completion of the handshake fails, finishes or starts the next exchange exactly as the script says; the Cygwin client's information is kept |
| `Codec.EncodedSize` | src/protocol/protocol_ssh_agent.cpp:138-146 | an encoded answer has 5 bytes and 8 plus blob plus comment for each identity |
| `Codec.AnswerRoundTrip` | src/protocol/protocol_ssh_agent.cpp:119-146 | decoding an encoded answer gives it back, whatever follows, if and only if its sizes fit 32 bits |
| `Codec.AnswerUnambiguous` | src/protocol/protocol_ssh_agent.cpp:119-136 | whatever is decoded, the bytes consumed are exactly its encoding |
| `Codec.AnswerInEnvelope` | src/protocol/protocol_ssh_helper.cpp:77-116 | read through the 32-bit length of its envelope, an answer comes back if and only if its encoding is shorter than 4 GiB |
| `Codec.AnswerLayout` | src/protocol/protocol_ssh_agent.cpp:138-146 | an encoded answer is the byte 12, the number of identities, most significant byte first, and the identities |
| `Codec.IdentityLayout` | src/protocol/protocol_ssh_agent.cpp:10-14 | an encoded identity is length and bytes of the blob, then length and bytes of the comment |
| `Codec.IdentitiesLayout` | src/protocol/protocol_ssh_agent.cpp:142-145 | identities are encoded in order |
| `Bytes.Be32Order` | src/protocol/protocol_ssh_helper.cpp:6-9 | numbers are written with the most significant byte first |
| `Codec.DecodeEncodedString` | src/protocol/protocol_ssh_helper.cpp:64-75 | a length-prefixed string survives writing and reading |
| `Codec.DecodeEncodedIdentity` | src/protocol/protocol_ssh_agent.cpp:4-14 | so does an identity |
| `Codec.SshAgentMessageBufferReader.ReadByte` | src/protocol/protocol_ssh_helper.cpp:26-33 | takes the first remaining byte, or fails and stays |
| `Codec.SshAgentMessageBufferReader.ReadUInt32` | src/protocol/protocol_ssh_helper.cpp:44-52 | decodes a big-endian number, or fails and stays |
| `Codec.SshAgentMessageBufferReader.ReadString` | src/protocol/protocol_ssh_helper.cpp:64-75 | succeeds exactly when a string can be decoded; a failure restores the cursor if and only if the length prefix was readable, and otherwise leaves it four too low |
| `Codec.SshAgentMessageBufferWriter.WriteUInt32` | src/protocol/protocol_ssh_helper.cpp:95-101 | appends the number, keeping length and data in step |
| `Codec.SshAgentMessageBufferWriter.WriteString` | src/protocol/protocol_ssh_helper.cpp:111-116 | appends prefix and bytes, keeping length and data in step modulo 2^32 |
| `Codec.SshAgentMessageRequestIdentitiesAnswer.FromBuffer` | src/protocol/protocol_ssh_agent.cpp:119-136 | succeeds exactly when an answer can be decoded from what remains, and then holds it |
| `Codec.SshAgentMessageRequestIdentitiesAnswer.ToBuffer` | src/protocol/protocol_ssh_agent.cpp:138-146 | appends the answer's encoding to the envelope |
| `Agent.ReplyMeaning` | src/message_dispatcher.cpp:83-241 | by message number: 13 is answered by the first client reply of type 14, 17 and 18 by the first of type 6, unchanged and asking nobody after it, or with 5 when there is none; 19 asks all and answers 6; 11 asks all; anything else is answered with 5 and reaches nobody; an empty request is not answered |
| `Agent.FirstReplyMeaning` | src/message_dispatcher.cpp:107-151 | the reply is the first of the wanted type, unchanged, nobody is asked after its sender, and failure is answered if and only if no client gave one |
| `Agent.AggregationMeaning` | src/message_dispatcher.cpp:167-206 | decoding the combined answer gives the collected identities if and only if it is shorter than 4 GiB |
| `Agent.CollectedMeaning` | src/message_dispatcher.cpp:171-200 | every identity of a well-formed answer is there, after those of earlier clients, blob unchanged, comment as sent or with " [name]" appended |
| `Agent.CollectedSize` | src/message_dispatcher.cpp:176-198 | nothing else is there: failed, mistyped and malformed answers contribute nothing |
| `Agent.RequestHandler.ProcessRequest` | src/message_dispatcher.cpp:83-105 | the envelope ends up with the reply, its length right below 4 GiB; the clients contacted got identical copies of the request, in order, each once |
| `Agent.RequestHandler.HandleFirstSuccess` | src/message_dispatcher.cpp:208-232 | tries client after client with a fresh copy and stops at the first reply of the wanted type |
| `Agent.RequestHandler.HandleRemoveAllIdentity` | src/message_dispatcher.cpp:153-165 | contacts every client once and answers success |
| `Agent.RequestHandler.HandleIdentitiesRequest` | src/message_dispatcher.cpp:167-206 | contacts every client once and encodes what they contribute, in client order |
| `Agent.RequestHandler.MangleComments` | src/message_dispatcher.cpp:185-192 | appends the name to every comment and touches nothing else |
| `WorkQueue.EveryRunBalanced` | src/message_dispatcher.cpp:13-81 | in every run, messages posted are those called back and those in the list or in work, none lost and none called twice |
| `WorkQueue.FinallyAllAnswered` | src/message_dispatcher.cpp:71-81 | after the worker has left and the destructor's loop is done, all were called back, once for each post |
| `WorkQueue.TurnMeaning` | src/message_dispatcher.cpp:32-52 | a worker that gets the mutex takes the newest message unless it is cancelled first; it sleeps if and only if there is nothing to do, and leaves if and only if it is cancelled |
| `WorkQueue.ListIsInOrder` | src/message_dispatcher.cpp:21 | in every run the list is in the order of posting, so that its end is the newest message |
| `WorkQueue.DrainMeaning` | src/message_dispatcher.cpp:71-81 | a round of the destructor answers the last message left, and only when the worker is gone |
| `WorkQueue.MessageDispatcher.PostRequest` | src/message_dispatcher.cpp:13-23 | appends, or calls back with a failure at once after cancellation |
| `WorkQueue.MessageDispatcher.TakeTurn` | src/message_dispatcher.cpp:32-52 | between two waits for the mutex the worker takes the newest message, sleeps or leaves, as the machine says |
| `WorkQueue.MessageDispatcher.Destroy` | src/message_dispatcher.cpp:71-81 | everything left is called back with a failure, newest first, and the list is empty |
| `Relay.EveryRunConserves` | src/protocol/connection_manager/forwarding.cpp:197-266 | in every run, the bytes reads have moved from a side are the bytes writes have moved to the other, in order, followed by those in its buffer |
| `Relay.RecordsAreReal` | src/protocol/connection_manager/forwarding.cpp:212-266 | what the machine records as read and written of a direction is what its completions have moved, and a direction is shut if and only if a read has moved nothing |
| `Relay.DoForwardConserves` | src/protocol/connection_manager/forwarding.cpp:197-266 | each step of a direction keeps its record of bytes read equal to bytes written and bytes in the buffer, for every split into partial writes |
| `Relay.NextMoves` | src/protocol/connection_manager/forwarding.cpp:197-266 | each event adds to these records exactly the bytes it has moved, from the front of what a write was given |
| `Relay.DirectionsIndependent` | src/protocol/connection_manager/forwarding.cpp:197-283 | a step of one direction changes nothing of the other, except that it may shut its socket for sending |
| `Relay.EveryRunSound` | src/protocol/connection_manager/forwarding.cpp:140-283 | in every run, also with a revived context, a direction with an operation outstanding reads or writes, and sockets are shut exactly at ends of input |
| `Relay.EveryRunDisciplined` | src/protocol/connection_manager/forwarding.cpp:140-283 | in every run without the revived context, a direction has one operation outstanding exactly when it reads or writes, none when shut; sockets are shut exactly at ends of input; the context leaves the list once |
| `Relay.NeverIllegal` | src/protocol/connection_manager/forwarding.cpp:267-271 | in every run, also with a revived context, no completion reaches the "illegal status" branch, and when a side is shut for sending, writes have moved to it everything reads have moved from the other |
| `Relay.EndsWhenBothClosed` | src/protocol/connection_manager/forwarding.cpp:273-282 | without I/O errors the context is disposed if and only if reads from both sides have met their ends, and then everything read was written |
| `Relay.RevivedIffSecondReadRefused` | src/protocol/connection_manager/forwarding.cpp:161-172 | after the handshake, being destroyed and being off the list agree, unless and only unless the first read was accepted and the second refused |
| `Relay.RemovedTwice` | src/protocol/connection_manager/forwarding.cpp:161-172 | a run in which such a context is removed twice |
| `Forwarding.ForwardIoContext.DoForward` | src/protocol/connection_manager/forwarding.cpp:197-283 | with buffers, counts and offsets, a step of a direction is the machine's |
| `Forwarding.ForwardIoContext.ForwardWritten` | src/protocol/connection_manager/forwarding.cpp:244-266 | after a partial write the next one takes exactly the bytes not yet written, inside the buffer; after the last a read follows |
| `Forwarding.ForwardIoContext.EndOfInput` | src/protocol/connection_manager/forwarding.cpp:213-227 | an end of input shuts the direction, its own side for receiving and the other for sending, if they are sockets |
| `Forwarding.ForwardIoContext.Establish` | src/protocol/connection_manager/forwarding.cpp:154-173 | the end of the handshake starts both reads in order, as the machine does |
| `Forwarding.ForwardIoContext.DoIoCompletion` | src/protocol/connection_manager/forwarding.cpp:140-195 | a completion steps its direction, or disposes |
| `Forwarding.ForwardIoContext.DisposeIfClosed` | src/protocol/connection_manager/forwarding.cpp:273-282 | the context is disposed exactly when both directions are shut |
| `HelperRelay.Session.SendBuffer` | wsl2_helper/main.cpp:487-503 | sends the whole buffer in pieces, retrying interruptions; it fails only if a send fails, and then a prefix was sent |
| `HelperRelay.Session.Finish` | wsl2_helper/main.cpp:527-533 | forwards what one side still sends and passes its end on by shutting it for receiving and the other for sending; the second half is begun only after that |
| `HelperRelay.Session.GracefullyHup` | wsl2_helper/main.cpp:523-543 | all that was received was sent both ways, unless a send fails; each side was read to its end, unless receiving from it fails; both sockets are shut down both ways, the one that hung up is finished first |
| `HelperRelay.Session.DoForward` | wsl2_helper/main.cpp:410-471 | for every script of polls, short sends and errors, bytes sent to a side are a prefix of those received from the other, and all of them unless a send fails; the relay stops for the first poll that can stop it and reports failures only when the script has them; if no call fails and some poll reports a hang-up, it has forwarded everything both sides ever sent and shut down both sockets |
| `HelperRelay.Session.ServeBoth` | wsl2_helper/main.cpp:436-468 | one poll: both sides are served in order, every side reported readable brings bytes, and the relay goes on only if neither reported an error or a hang-up |
| `SocketFile.ParseMeaning` | src/protocol/libassuan_socket_emulation/connector.cpp:57-74 | the parser accepts exactly white space, an optional sign, digits worth a port, newlines and a nonce that cannot be taken for more of these, and reads that port and nonce |
| `SocketFile.PrintParse` | src/protocol/libassuan_socket_emulation/listener.cpp:248-264 | what the listener prints is read back if and only if the nonce does not begin with a newline byte; otherwise the parse fails, and no other nonce is ever read |
| `SocketFile.PrintLayout` | src/protocol/libassuan_socket_emulation/listener.cpp:251-253 | the printed file is the port in decimal without leading zeros, one newline, and the nonce |
| `SocketFile.ValueOfDigits` | src/protocol/libassuan_socket_emulation/connector.cpp:57-58 | digits are read from the most significant one on |
| `SocketFile.ReadContact` | src/protocol/libassuan_socket_emulation/connector.cpp:57-74 | the parser over a stream with its cursor and failure state computes the result so described |
| `SocketFile.InputFile.ExtractInt` | src/protocol/libassuan_socket_emulation/connector.cpp:57-58 | extraction skips white space, takes sign and digits, and saturates and fails beyond 32 bits |
| `SocketFile.RunEnd` | src/protocol/libassuan_socket_emulation/connector.cpp:67-68 | a skipping loop ends at the first byte it does not skip |
| `EaList.WalkIffFits` | src/lxperm.cpp:137-169 | walking a list the builder laid out recovers flags, names and values in order if and only if names are shorter than 256 and values shorter than 65536 bytes |
| `EaList.WalkLayout` | src/lxperm.cpp:154-165 | from any record on, the distances lead through the rest of the list and end with it |
| `EaList.RecordsApart` | src/lxperm.cpp:141-156 | records are 4-byte aligned, do not overlap, and end inside the block |
| `EaList.StrideTight` | src/lxperm.cpp:140-147 | the stride is less than four bytes more than the longest record |
| `EaList.ReadBack` | src/lxperm.cpp:159-164 | a record whose lengths fit is read back as it was written |
| `EaList.RecordFields` | src/lxperm.cpp:157-164 | every byte of a record: distance and lengths with the least significant byte first, flags, name, a terminating zero, value |
| `EaList.EaInfoBuilder.FinishEaList` | src/lxperm.cpp:137-169 | the block holds every record in its place from an aligned base, and the size returned lies inside it |
| `EaList.EaInfoBuilder.ComputeStride` | src/lxperm.cpp:140-147 | the stride is the longest record rounded up to four |
| `EaList.EaInfoBuilder.WriteRecord` | src/lxperm.cpp:157-164 | writes one record byte for byte and nothing outside it |
| `Pageant.ReplyIsOwn` | src/protocol/pageant/listener.cpp:196-250 | in every run a client is given, framed and in at most 8192 bytes, what the dispatcher made of the very data this client asked with; before a cancellation, exactly if there was a fitting answer |
| `Pageant.WhoseAnswer` | src/protocol/pageant/listener.cpp:210-223 | the messages the dispatcher holds are the data of the requests with their numbers, and its answers are to these |
| `Pageant.AskedOnce` | src/protocol/pageant/listener.cpp:218-223 | a number is given to one request only |
| `Pageant.WakesUp` | src/protocol/pageant/listener.cpp:224-234 | an answered or cancelled client gets a result at the next wake-up |
| `Pageant.OneOnAir` | src/protocol/pageant/listener.cpp:218-228 | never more than one message is with the dispatcher, and before a cancellation it is the one waited for |
| `Pageant.RunInv` | src/protocol/pageant/listener.cpp:98-250 | every interleaving of requests, callbacks, cancellation and wake-ups keeps the rendezvous |
| `Pageant.PageantListener.BeginRequest` | src/protocol/pageant/listener.cpp:210-223 | takes the message out of the frame in the file mapping and puts it on the air, which nothing else is, or refuses it after a cancellation |
| `Pageant.PageantListener.ReplyCallback` | src/protocol/pageant/listener.cpp:201-209 | takes the request off the air with the answer's status |
| `Pageant.PageantListener.Cancel` | src/protocol/pageant/listener.cpp:98-107 | takes the request off the air without an answer, for good |
| `Pageant.PageantListener.FinishRequest` | src/protocol/pageant/listener.cpp:230-250 | gives the client the framed reply, or nothing for a failure or an overlong reply |
| `Refcount.RefcountIsSessions` | wsl2_helper/main.cpp:677-687 | in every run, whatever the order of delivery, the counter and the signals on their way make up the number of sessions announced and not released, and the server is there exactly while the counter is positive |
| `Refcount.SessionsAre` | wsl2_helper/main.cpp:217-255 | the sessions are the server's own and those announced while it was there, until they end |
| `Refcount.LeavesAtLastRelease` | wsl2_helper/main.cpp:682-687 | whatever the order of delivery, the server leaves exactly at a release that finds the counter at one, and leaves nobody behind if and only if as many announcements as releases are on their way |
| `Refcount.LeavesInOrder` | wsl2_helper/main.cpp:217-230 | delivered in the order sent, that release is the one of the last session counted, and nobody is left behind if and only if every announcement on its way is followed by the release of its session |
| `Refcount.LateJoinExample` | wsl2_helper/main.cpp:217-230 | a run in which a helper is left behind |
| `Refcount.OvertakenExample` | wsl2_helper/main.cpp:217-230 | a run in which the announcement is overtaken, with the same end |
| `Refcount.Server.AddRefHandler` | wsl2_helper/main.cpp:677-680 | counts a session |
| `Refcount.Server.ReleaseHandler` | wsl2_helper/main.cpp:682-687 | releases a session, and leaves at zero |

## Left out

- Win32, COM, WMI, Winsock and POSIX calls: they are completion events, scripts of partial transfers and failures, and agents that give any reply.
- Access control lists, SID checks, nonce generation, service registration, command line, wiring and logging, including the log line that reads the first byte of an empty message.
- `ParseIniFile`: what it does at the end of a file depends on the library.
- Hyper-V rebinding and GUID extraction, which follow foreign COM events.
- Races of threads inside one context; one completion is one step.
- The managers' lists as linked lists: the proxy's is a sequence of identifiers in the whole-system machine, not in a class, and a context's iterator is its identifier's place there; the relay counts removals instead.
- `ioBufferOffset` of the proxy's context, which is written once and never read.
- The relay's parallel arrays of states, counts and offsets appear as two records, updated in place; its two buffers are arrays.
- The relay's listener handshake is one step, which succeeds or not.
- Agent.RequestHandler.HandleFirstSuccess: adding, removing and signing have the same body in the source but for the reply type, and share this method.
- Proxy.ProxyIoContext.DoIoCompletion: replies whose frame exceeds 2 GiB are excluded, because the source's counters are signed 32-bit numbers.
- Progress.WorkIsBounded: bounds completions, not time; that the system completes an operation is not claimed.
- SocketFile.ReadContact: models the connector's check of the port; the WSL helper asserts it instead. Locales other than the classic one and sockets after the parse are not modelled.
- The Cygwin listener's own socket file format, and the 64-bit and Boolean primitives of reader and writer.
- The DSA, RSA, ECDSA and Ed25519 key records, which are sequences of the strings modelled here.
- Emission of owner and mode attributes (`SetLxPermissionByHandle`) and `MakeByteString`.
- Pageant.PageantListener.BeginRequest: a refusal by a cancelled dispatcher, which would call back while the mutex is held, is not a step of the model; the file mapping's owner and name are not checked in it, nor whether it is as long as the length in it says, which the source relies on.
- Refcount.RefcountIsSessions: merged signals, reused process identifiers, and a helper that becomes the next server are not modelled.
- The WSL helper's unused `ReceiveBuffer`, the connector's socket calls, and what its fork and accept loop do.
