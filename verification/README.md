# Libel, modelled and proved in Dafny

Libel is a reactor library: an event loop with a timer queue and two pollers, TCP connections that
write through a growing buffer, a thread pool, a checksummed message codec with an RPC protocol on
top, an incremental HTTP request parser, and table-driven number printing. This project models the
parts whose correctness depends on several pieces of state agreeing with each other, and proves what
every run of them keeps.

`dafny verify dfyconfig.toml` checks everything.

## How the model is built

Each component has three layers.

1. **A value for its state and a function for each step.** A run is a list of events; an event that
   is not possible in the current state is passed over, so a theorem about `Run(START, evs)` for all
   `evs` covers every interleaving. A step stands for one critical section, one read or write of a
   shared field outside any, or one uninterrupted stretch of loop-thread code. System calls appear as the answer they gave: how many bytes a write
   took, what `readv` scattered, which entries `poll` marked ready.
2. **Theorems over runs**: invariants, conservation laws, refinement of a simple form, round trips.
3. **Classes in the source's own form**, whose methods change fields in place. Their postconditions
   equate the new abstract state with the step function applied to the old one, so the theorems of
   the second layer are about this code.

| file | component |
|---|---|
| Sequences.dfy, Bytes.dfy, Buffer.dfy | shared sequence notions, byte order, `Buffer` and its refinement of a plain byte sequence |
| Adler32.dfy, Codec.dfy | checksum and framing of `ProtobufCodecLite` |
| FrameMeaning.dfy, FrameTag.dfy | what its receiver accepts and refuses; for which tags it stays inside a frame |
| RpcChannel.dfy | request/response protocol |
| Http.dfy | `HttpContext` |
| TcpConnection.dfy | output path and half-close |
| Delivery.dfy | codec and connection joined |
| EventLoop.dfy | cross-thread hand-off |
| ThreadPool.dfy | the pool as a Mesa monitor |
| TimerQueue.dfy | timers, cancelling, the kernel timer |
| Channel.dfy, Pollers.dfy | event masks, `PollPoller`, `EpollPoller` |
| Num2String.dfy | decimal printers |

## Where the code does less than it seems to promise

For each of these there is a theorem that says exactly when the code does meet the promise, and a
case in which it does not.

- Work queued by the loop thread before `loop()` waits for the first poll to time out
  (`StrandedExactly`, `StrandedBeforeLoop`).
- `quit()` does not wake the loop (`QuitIsHeardExactly`, `QuitInPollIsNotHeard`).
- `shutdown()` can close the write half ahead of a message that another thread's `send` accepted:
  one that is queued behind bytes still waiting, or one between its test of the state and its push
  (`ShutdownOvertakes`, `ShutdownDoesOvertake`, `ShutdownOvertakesPush`). Sends made in the loop
  thread are safe (`LoopSendsAreNotOvertaken`).
- A `shutdown()` of another thread that has tested the state when `handleClose` runs makes the
  connection disconnecting again, and the write half is closed on unsent bytes (`ReopenedExactly`,
  `ShutdownUndoesClose`); without one the state tells the truth (`DisciplineByState`).
- A `cancel` that overtakes the functor of `addTimer` is lost (`CancelIsKept`, `CancelCanBeLost`).
- A channel removed from a `PollPoller` keeps its index and cannot be registered again
  (`PollUpdateExactly`, `RemovedCannotReturn`); `EpollPoller` resets the index.
- `CallMethod` increments the counter and later reads it again, so a second thread in between makes
  the first call's record unfindable; and an identifier handed out again while its last holder is
  unanswered loses that holder's closure (`RecordKeepsExact`, `ExactAllAlong`, `CallsAtOnce`,
  `OneCallTooMany`).
- A closure does not learn that its call was refused (`FoundMeansServed`, `RefusalLooksEmpty`).
- The codec's constructor takes the tag's length from a string it has already moved from, so the
  minimum message length may leave the tag out (`TagStaysInFrame`, `LongTagIsUnsafe`).
- A request line that was refused may not be parsed again if it names a method (`RefusedAgain`,
  `MethodAloneIsRefused`).

The model follows the code where comments or names suggest something else: an unknown service is
answered with `WRONG_PROTO`; the HTTP query is looked for behind a space, which the path cannot
contain, so a query is never split off; any header line without a colon ends the headers.

## Model

| member | source | states |
|---|---|---|
| `Bytes.IntRoundTrip` | libel/net/buffer.h:182-205 | an integer of any width written in network order reads back as itself |
| `Bytes.BytesRoundTrip` | libel/net/buffer.h:211-244 | bytes read as an integer and written again are the same bytes |
| `Bytes.DecodeIntInjective` | libel/net/buffer.h:211-244 | two byte strings of one width that read as the same integer are equal |
| `Buffers.Buffer.constructor` | libel/net/buffer.h:37-40 | a new buffer is empty, with the cheap-prepend area in front |
| `Buffers.Buffer.FindCRLF` | libel/net/buffer.h:64-67 | the first CR LF of the readable bytes, or none |
| `Buffers.Buffer.RetrieveAll` | libel/net/buffer.h:88-91 | nothing readable is left and the prepend area is restored |
| `Buffers.Buffer.Retrieve` | libel/net/buffer.h:93-101 | exactly the first bytes are dropped; indices reset when nothing is left |
| `Buffers.Buffer.RetrieveAsString` | libel/net/buffer.h:129-134 | the result followed by what is left is what was readable |
| `Buffers.Buffer.HasWritten` | libel/net/buffer.h:148-151 | bytes placed in the writable area become readable behind the others |
| `Buffers.Buffer.Unwrite` | libel/net/buffer.h:153-156 | exactly the last bytes are dropped |
| `Buffers.Buffer.MakeSpace` | libel/net/buffer.h:353-366 | contents survive growth and compaction, the space is there, the compaction assertion holds, and storage stays within 2 len + readable + 7 or its old size |
| `Buffers.Buffer.EnsureWritableBytes` | libel/net/buffer.h:158-163 | the space is there, the contents are unchanged, and nothing happens when it was there already |
| `Buffers.Buffer.Append` | libel/net/buffer.h:165-169 | the readable bytes grow by exactly the argument, within the storage bound |
| `Buffers.Buffer.AppendInt` | libel/net/buffer.h:182-205 | the readable bytes grow by the network-order integer |
| `Buffers.Buffer.PeekInt` | libel/net/buffer.h:211-244 | the integer whose network-order bytes are in front |
| `Buffers.Buffer.ReadInt` | libel/net/buffer.h:250-280 | the integer read, written in front of what is left, is what was readable |
| `Buffers.Buffer.Prepend` | libel/net/buffer.h:283-288 | the argument is put in front of the readable bytes, in place |
| `Buffers.Buffer.PrependInt` | libel/net/buffer.h:293-319 | the network-order integer is put in front of the readable bytes |
| `Buffers.Buffer.Shrink` | libel/net/buffer.h:325-330 | same contents in storage of exactly the size needed, with the reserve free |
| `Buffers.Buffer.ReadFd` | libel/net/buffer.cpp:27-50 | every byte that readv scattered over buffer and overflow area is appended once and in order; on an error nothing changes |
| `Buffers.Perform` | libel/net/buffer.h:88-169 | each operation is the same operation on a plain byte sequence |
| `Buffers.Run` | libel/net/buffer.h:158-169 | any run of operations refines the run on a plain sequence and stops only at a violated assertion; appends of at most L bytes to at most R readable ones never push storage past max(old size, 2L + R + 7) |
| `Adler32.SumsAreReduced` | libel/net/protobuf/ProtobufCodecLite.cpp:143-145 | reducing after every byte equals reducing the plain sums once |
| `Adler32.ChecksumPacks` | libel/net/protobuf/ProtobufCodecLite.cpp:143-145 | the checksum holds the second plain sum in its high half and the first in its low half, both modulo 65521 |
| `Adler32.ReplaceMovesA` | libel/net/protobuf/ProtobufCodecLite.cpp:143-145 | replacing a byte moves the first plain sum by the difference |
| `Adler32.SwapMovesB` | libel/net/protobuf/ProtobufCodecLite.cpp:143-145 | exchanging neighbours keeps the first sum and moves the second by their difference |
| `Adler32.ChecksumSeparates` | libel/net/protobuf/ProtobufCodecLite.cpp:143-145 | checksums are equal exactly when both sums are |
| `Adler32.DetectsReplacement` | libel/net/protobuf/ProtobufCodecLite.cpp:143-145 | any change of one byte changes the checksum, whatever the length |
| `Adler32.DetectsSwap` | libel/net/protobuf/ProtobufCodecLite.cpp:143-145 | any exchange of distinct neighbours changes the checksum |
| `FrameCodec.FillEmptyBuffer` | libel/net/protobuf/ProtobufCodecLite.cpp:24-36 | the buffer holds exactly length, tag, payload and checksum of the message |
| `FrameCodec.JudgeHead` | libel/net/protobuf/ProtobufCodecLite.cpp:38-44 | waits, refuses or announces a whole frame, as the length field and the bytes at hand demand |
| `FrameCodec.OnMessage` | libel/net/protobuf/ProtobufCodecLite.cpp:38-62 | terminates and delivers, consumes and stops as the recursive receiver does |
| `FrameCodec.Receive` | libel/net/protobuf/ProtobufCodecLite.cpp:38-62 | what is left over is always a suffix of what was buffered |
| `FrameCodec.LengthFieldReads` | libel/net/protobuf/ProtobufCodecLite.cpp:137-141 | the length field of an encoded frame reads back as its length |
| `FrameCodec.ValidChecksumIsSealed` | libel/net/protobuf/ProtobufCodecLite.cpp:147-151 | the checksum test holds exactly for bytes that end in their own checksum |
| `FrameCodec.ParseOfEncoded` | libel/net/protobuf/ProtobufCodecLite.cpp:153-173 | parsing an encoded frame gives the message back |
| `FrameMeaning.ParsesExactly` | libel/net/protobuf/ProtobufCodecLite.cpp:153-173 | parse gives a message if and only if the bytes are the codec's tag, a payload of which it is the meaning, and their checksum |
| `FrameMeaning.RefusesExactly` | libel/net/protobuf/ProtobufCodecLite.cpp:153-173 | which bytes get which error: not ending in their checksum, sealed but with another tag, sealed with the tag but with an unreadable payload |
| `FrameCodec.HeadIsStable` | libel/net/protobuf/ProtobufCodecLite.cpp:38-44 | once the length field has been judged, later bytes do not change the judgement |
| `FrameCodec.ReceiveInTwo` | libel/net/protobuf/ProtobufCodecLite.cpp:38-62 | receiving x and then y equals receiving x + y, for every byte stream |
| `FrameCodec.ChunkingIsInvisible` | libel/net/protobuf/ProtobufCodecLite.cpp:38-62 | messages, leftover and verdict do not depend on how any stream is cut |
| `FrameMeaning.DeliversOnlyFrames` | libel/net/protobuf/ProtobufCodecLite.cpp:38-62 | every byte stream: what is consumed is frames of admissible length, each refused by the raw-message callback or carrying tag, checksum and the next message delivered, and the receiver stops in front of the rest for the reason it gives |
| `FrameCodec.ReceiveWhole` | libel/net/protobuf/ProtobufCodecLite.cpp:38-62 | whole frames in front are delivered in order, whatever follows |
| `FrameCodec.PrefixSplits` | libel/net/protobuf/ProtobufCodecLite.cpp:24-36 | every prefix of an encoded stream is whole frames and less than one more |
| `FrameCodec.DeliversInOrder` | libel/net/protobuf/ProtobufCodecLite.cpp:24-62 | encoded messages cut anywhere, end possibly missing: exactly the complete ones are delivered in order and exactly the unfinished frame stays buffered |
| `FrameCodec.DetectsDamagedByte` | libel/net/protobuf/ProtobufCodecLite.cpp:143-173 | one changed byte of tag, payload or checksum makes parse report a checksum error |
| `FrameCodec.DetectsSwappedBytes` | libel/net/protobuf/ProtobufCodecLite.cpp:143-173 | exchanged distinct neighbours in tag or payload make parse report a checksum error |
| `FrameCodec.DamagedFrameStops` | libel/net/protobuf/ProtobufCodecLite.cpp:38-62 | on the wire: messages before a damaged frame are delivered, nothing of it or after it is, and it is not consumed |
| `Delivery.DeliversPrefix` | libel/net/protobuf/ProtobufCodecLite.cpp:24-62 | frames accepted by a connection on any schedule, and any part of what its socket took arriving in any chunks: a prefix of the messages is delivered and the receiver waits |
| `Delivery.DeliversAll` | libel/net/tcp_connection.cpp:104-157 | once the write half is shut before handleClose and everything has arrived, exactly the messages sent are delivered and nothing is left over |
| `FrameTag.TagStaysInFrame` | libel/net/protobuf/ProtobufCodecLite.h:59-69 | for any minimum length the constructor may compute, with no raw-message callback or an accepting one: no byte stream makes onMessage look outside a frame if and only if the tag passes a test on the tag alone |
| `FrameTag.LongTagIsUnsafe` | libel/net/protobuf/ProtobufCodecLite.h:59-69 | every tag longer than four bytes fails the test when the minimum length leaves the tag out |
| `FrameTag.UnsafeTagEscapes` | libel/net/protobuf/ProtobufCodecLite.cpp:153-173 | for a tag that fails the test, a frame of admissible length that parse would read past |
| `FrameTag.RpcTagIsSafe` | libel/net/protorpc/RpcCodec.cpp:30 | four-byte tags such as the RPC codec's pass the test, whatever the minimum length |
| `FrameTag.NeverEscapes` | libel/net/protobuf/ProtobufCodecLite.cpp:38-62 | with a tag that passes, no byte stream makes onMessage look outside a frame, whatever the raw-message callback |
| `Rpc.RpcChannel.CallMethod` | libel/net/protorpc/RpcChannel.cpp:37-55 | a call without interruption is the two steps of the protocol, through 64-bit wrap-around |
| `Rpc.RpcChannel.StartCall` | libel/net/protorpc/RpcChannel.cpp:42-47 | the counter and the message become those of the protocol's first call step |
| `Rpc.RpcChannel.FinishCall` | libel/net/protorpc/RpcChannel.cpp:49-54 | the call is recorded under the counter's value at that time and sent under its own identifier, as in the protocol's second call step |
| `Rpc.RpcChannel.OnResponse` | libel/net/protorpc/RpcChannel.cpp:67-87 | the closure that runs and what it finds in its response object, or the ignored response, and the table are those of the protocol's answer step |
| `Rpc.RpcChannel.OnRequest` | libel/net/protorpc/RpcChannel.cpp:88-128 | exactly one of an error response under the request's identifier and a call of the service, which is made if and only if service, method and request all check out; each failing check has its own code; either outcome is what the protocol's receive step puts in the request's place |
| `Rpc.DispatchExactly` | libel/net/protorpc/RpcChannel.cpp:88-121 | which call is refused with which code, and which is served |
| `Rpc.RpcChannel.DoneCallback` | libel/net/protorpc/RpcChannel.cpp:134-142 | the response sent is the one of the protocol's service step, under the request's identifier |
| `Rpc.IdsRepeat` | libel/net/protorpc/RpcChannel.cpp:44-52 | two calls share an identifier exactly when they are a multiple of 2^64 apart |
| `Rpc.RecordKeepsExact` | libel/net/protorpc/RpcChannel.cpp:44-52 | recording a call keeps the table exact if and only if no other call has taken an identifier since and no unanswered call holds this one |
| `Rpc.FreshWithinIdSpace` | libel/net/protorpc/RpcChannel.cpp:37-55 | within 2^64 calls no unanswered call holds it |
| `Rpc.TraceIsUnique` | libel/net/protorpc/RpcChannel.cpp:37-142 | every issued call is in exactly one place: being issued, request, execution, response or completed |
| `Rpc.StepKeepsInv` | libel/net/protorpc/RpcChannel.cpp:37-142 | a step keeps labels truthful, the table exact and one trace per call if and only if it does not record a call in a wrong or taken place |
| `Rpc.ExactAllAlong` | libel/net/protorpc/RpcChannel.cpp:37-55 | along any run, with calls from any number of threads, the table is exact at every moment if and only if every call is recorded before another takes an identifier and in a free place |
| `Rpc.FewCallsAreFresh` | libel/net/protorpc/RpcChannel.cpp:37-55 | that is so for at most 2^64 calls made one at a time |
| `Rpc.EachCallAnsweredOnce` | libel/net/protorpc/RpcChannel.cpp:37-142 | over every run with at most 2^64 calls made one at a time, in any order of messages: closures run at most once, finding the server's reply to that very call, or nothing if it was refused; the table holds exactly the unanswered calls; no response is ignored |
| `Rpc.AnsweredOnceWhileFresh` | libel/net/protorpc/RpcChannel.cpp:37-142 | the same over every run of any number of calls from any threads, each recorded before another takes an identifier and in a free place |
| `Rpc.QuietMeansAnswered` | libel/net/protorpc/RpcChannel.cpp:62-142 | over those runs: when nothing is under way every call has been answered exactly once and the table is empty |
| `Rpc.FoundMeansServed` | libel/net/protorpc/RpcChannel.cpp:79-87 | a closure finds something if and only if its call was served and the service replied with something |
| `Rpc.RefusalLooksEmpty` | libel/net/protorpc/RpcChannel.cpp:79-87 | a refused call and one served with an empty reply end in the same way for their caller |
| `Rpc.CallsAtOnce` | libel/net/protorpc/RpcChannel.cpp:44-52 | a run of two overlapping calls after which the first is in the table under no identifier |
| `Rpc.OneCallTooMany` | libel/net/protorpc/RpcChannel.cpp:44-52 | the bound is sharp: after 2^64 unanswered calls, a state some run reaches, the next call overwrites the first one's entry |
| `HttpParser.HttpContext.constructor` | libel/net/http/http_context.h:26 | a new context expects a request line |
| `HttpParser.HttpContext.Reset` | libel/net/http/http_context.h:37-41 | resetting gives the context of a new one |
| `HttpParser.HttpContext.HandleLine` | libel/net/http/http_context.cpp:44-72 | one line moves state and request as the line function says |
| `HttpParser.HttpContext.ParseRequest` | libel/net/http/http_context.cpp:41-79 | terminates with the verdict, state, request and leftover of the recursive parser |
| `HttpParser.Parse` | libel/net/http/http_context.cpp:41-79 | what is left over is a suffix of the input, and unless refused or complete the parser can go on |
| `HttpParser.ParseInTwo` | libel/net/http/http_context.cpp:41-79 | parsing x and then y equals parsing x + y, for every byte stream |
| `HttpParser.LeavesQuiet` | libel/net/http/http_context.cpp:41-79 | a call that is neither complete nor refused leaves nothing that another call without new bytes would act on |
| `HttpParser.ChunkedEqualsWhole` | libel/net/http/http_context.cpp:41-79 | verdict, state, request and leftover do not depend on how any stream is cut |
| `HttpParser.AcceptsRequestLine` | libel/net/http/http_context.cpp:11-39 | a method, a path without spaces and a version are all read back from the line |
| `HttpParser.AcceptedLines` | libel/net/http/http_context.cpp:11-39 | a request line is accepted if and only if it has that form |
| `HttpParser.RefusedForVersion` | libel/net/http/http_context.cpp:11-39 | a line refused for its version has set method and path and nothing else |
| `HttpParser.RefusedForPath` | libel/net/http/http_context.cpp:11-39 | a line without a second space has set the method and nothing else |
| `HttpParser.KnownVersions` | libel/net/http/http_context.cpp:27-32 | the version texts, the separators and the line end, letter by letter |
| `HttpParser.MethodRoundTrip` | libel/net/http/http_request.h:30-47 | every method's text is recognised as that method |
| `HttpParser.KnownMethods` | libel/net/http/http_request.h:30-47 | the method texts, letter by letter |
| `HttpParser.ParseHeaders` | libel/net/http/http_context.cpp:58-72 | any block of header lines up to the first line without a colon, blank or not, completes the request and leaves exactly what follows |
| `HttpParser.RequestRoundTrip` | libel/net/http/http_context.cpp:11-79 | a complete request followed by anything and cut anywhere gives back method, path, version and exactly the bytes behind it |
| `HttpParser.RefusedAgain` | libel/net/http/http_request.h:30-47 | a refused request line is not consumed, and a second call on it passes the assertion in setMethod if and only if the line does not begin with a known method; then it is refused in the same way |
| `HttpParser.MethodAloneIsRefused` | libel/net/http/http_context.cpp:11-39 | a line that ends behind its method is such a line: refused, and not to be parsed again |
| `TcpOutput.TcpConnection.constructor` | libel/net/tcp_connection.cpp:36-52 | a new connection is connecting, with nothing queued or written |
| `TcpOutput.TcpConnection.ConnectEstablished` | libel/net/tcp_connection.cpp:224-232 | the connection becomes connected and starts reading |
| `TcpOutput.TcpConnection.SendInLoop` | libel/net/tcp_connection.cpp:104-142 | for every answer of the socket: what it took is on the wire, the rest is queued, the callbacks due are queued |
| `TcpOutput.TcpConnection.DirectWrite` | libel/net/tcp_connection.cpp:115-131 | what the socket answered decides what is on the wire, whether write-complete is queued and whether the error is fatal |
| `TcpOutput.TcpConnection.Send` | libel/net/tcp_connection.cpp:75-85 | a call without interruption, from either thread, only while connected: sent directly in the loop thread, tested and queued as a functor from another |
| `TcpOutput.TcpConnection.StartSend` | libel/net/tcp_connection.cpp:75-77 | another thread's test of the state, as one step |
| `TcpOutput.TcpConnection.FinishSend` | libel/net/tcp_connection.cpp:79-83 | its push, at any time after the test, as another |
| `TcpOutput.TcpConnection.Shutdown` | libel/net/tcp_connection.cpp:144-149 | a call without interruption, from either thread: does something only while connected, and the half-close happens in the loop thread |
| `TcpOutput.TcpConnection.StartShutdown` | libel/net/tcp_connection.cpp:144-145 | another thread's test of the state, as one step |
| `TcpOutput.TcpConnection.MarkShutdown` | libel/net/tcp_connection.cpp:146 | its change of the state, whatever has happened since the test |
| `TcpOutput.TcpConnection.FinishShutdown` | libel/net/tcp_connection.cpp:147 | its push of the half-close |
| `TcpOutput.TcpConnection.RunNextJob` | libel/net/tcp_connection.cpp:75-102 | the functor that a send or shutdown from another thread left behind does what the direct call does |
| `TcpOutput.TcpConnection.ShutdownInLoop` | libel/net/tcp_connection.cpp:151-157 | closes the write half unless bytes wait |
| `TcpOutput.TcpConnection.HandleWrite` | libel/net/tcp_connection.cpp:260-281 | moves what the socket takes from the backlog to the wire and, when it is empty, ends writing and a pending shutdown |
| `TcpOutput.TcpConnection.HandleClose` | libel/net/tcp_connection.cpp:283-293 | disconnected, with no interest left |
| `TcpOutput.StepKeepsInv` | libel/net/tcp_connection.cpp:75-157 | every step, with other threads between any two lines of send and shutdown, keeps write interest, backlog, state and half-close in agreement until handleClose runs |
| `TcpOutput.StreamConserved` | libel/net/tcp_connection.cpp:104-142 | over every run: wire followed by backlog is exactly the accepted bytes, none lost, repeated or reordered |
| `TcpOutput.WireIsWhatWasTaken` | libel/net/tcp_connection.cpp:104-142 | over every run the wire is exactly what the socket answered that it took of what it was offered: no byte is offered again |
| `TcpOutput.NoMessageIsLost` | libel/net/tcp_connection.cpp:75-85 | over every run functors run in the order in which they were queued, and every message accepted from another thread is on its way, queued or run, exactly once |
| `TcpOutput.ShutdownIsCarriedOut` | libel/net/tcp_connection.cpp:144-157 | over every run, until closed: once no shutdown is on its way or queued and no bytes wait, a disconnecting connection has its write half closed |
| `TcpOutput.OutputDiscipline` | libel/net/tcp_connection.cpp:260-281 | over every run, until handleClose has run: writing is on exactly while bytes wait, and when the write half is shut every accepted byte is on the wire |
| `TcpOutput.ReopenedExactly` | libel/net/tcp_connection.cpp:283-293 | after handleClose some schedule makes the connection disconnecting again if and only if a shutdown stood between its test and its change of the state |
| `TcpOutput.ShutdownUndoesClose` | libel/net/tcp_connection.cpp:144-149 | a run from a new connection in which that happens, and the write half is closed on unsent bytes that wait for no write event |
| `TcpOutput.DisciplineByState` | libel/net/tcp_connection.cpp:260-293 | on runs where handleClose never meets such a shutdown, the discipline holds as long as the state is not disconnected |
| `TcpOutput.NoticesAreTimely` | libel/net/tcp_connection.cpp:118-138 | write-complete is announced only with an empty backlog and always when it empties; high-water exactly when the mark is crossed |
| `TcpOutput.NoticesExactly` | libel/net/tcp_connection.cpp:118-138 | a step queues write-complete exactly when the socket took all that it was offered, high-water with the size exactly on crossing the mark, and nothing else |
| `TcpOutput.RunOvertakesNothing` | libel/net/tcp_connection.cpp:144-157 | from a safe state no schedule closes the write half ahead of an accepted message |
| `TcpOutput.DrainOvertakes` | libel/net/tcp_connection.cpp:260-281 | from a queue with messages behind a batch that leaves something to drain, a schedule that does |
| `TcpOutput.SendOnTheWayIsOvertaken` | libel/net/tcp_connection.cpp:75-85 | with a message between its test and its push, a schedule that does, whatever is in the queue |
| `TcpOutput.ShutdownOvertakes` | libel/net/tcp_connection.cpp:144-149 | shutdown, from either thread, overtakes no accepted message on any schedule if and only if, when it changes the state, no message stands between its test and its push and the loop's queue has one of the safe shapes |
| `TcpOutput.ShutdownDoesOvertake` | libel/net/tcp_connection.cpp:144-149 | a run from a new connection, for any two messages, in which shutdown overtakes the second, sent whole before it |
| `TcpOutput.ShutdownOvertakesPush` | libel/net/tcp_connection.cpp:75-85 | a run on an idle connection in which it overtakes a message between its test and its push |
| `TcpOutput.LoopSendsAreNotOvertaken` | libel/net/tcp_connection.cpp:144-157 | as long as only the loop thread sends, no run ever overtakes a message |
| `EventLoops.EventLoop.constructor` | libel/net/eventloop.cpp:40-62 | a new loop has nothing pending and has not been entered |
| `EventLoops.EventLoop.Wakeup` | libel/net/eventloop.cpp:178-183 | the eventfd counter grows, up to its maximum |
| `EventLoops.EventLoop.QueueInLoop` | libel/net/eventloop.cpp:120-126 | the functor is last in the queue, and the eventfd is non-zero unless the loop thread queued it outside a drain |
| `EventLoops.EventLoop.HandleRead` | libel/net/eventloop.cpp:185-190 | reading the eventfd empties it: the counter is zero |
| `EventLoops.EventLoop.RunBatch` | libel/net/eventloop.cpp:197-202 | the batch runs once and in order, and what its functors and other threads queue meanwhile stays queued in that order |
| `EventLoops.EventLoop.DoPendingFunctors` | libel/net/eventloop.cpp:192-204 | one call runs exactly the functors pending at its start and leaves exactly what its functors and other threads queued meanwhile, as a run of the step system |
| `EventLoops.EventLoop.PollReturned` | libel/net/eventloop.cpp:84-85 | a round starts, with the eventfd active exactly when it is non-zero |
| `EventLoops.EventLoop.HandleChannels` | libel/net/eventloop.cpp:89-95 | handling the active channels empties the eventfd if it is among them, so that only another thread can have left it non-zero, and keeps, in order, whatever the channels and other threads queue |
| `EventLoops.EventLoop.Iterate` | libel/net/eventloop.cpp:82-97 | one round runs everything that was pending or was queued before the drain, in order, and leaves exactly what was queued during it, as a run of the step system |
| `EventLoops.StepKeepsInv` | libel/net/eventloop.cpp:73-126 | every step keeps: work pending behind a drain or poll implies a wakeup made or about to be made |
| `EventLoops.StrandedExactly` | libel/net/eventloop.cpp:120-126 | in every interleaving work is stranded behind poll if and only if it is the first iteration and only the loop thread itself queued |
| `EventLoops.StrandedBeforeLoop` | libel/net/eventloop.cpp:120-126 | the failing family is not empty |
| `EventLoops.WakeReachesDrain` | libel/net/eventloop.cpp:82-97 | in every interleaving, whatever was pending while the loop was in poll has run or is in the batch once the next drain is under way |
| `EventLoops.CounterCountsWakes` | libel/net/eventloop.cpp:178-190 | over every run the counter is the number of writes since the last read, up to its maximum |
| `EventLoops.NoSpinning` | libel/net/eventloop.cpp:82-97 | over every run poll returns for the eventfd at most once for every time it was written |
| `EventLoops.StopsOnlyWhenTold` | libel/net/eventloop.cpp:73-110 | over every run the loop ends only after quit, nothing but quit tells it to, and rounds are counted |
| `EventLoops.FunctorsInOrder` | libel/net/eventloop.cpp:192-204 | executed, then the rest of the batch, then pending, is the push sequence, in every run |
| `EventLoops.DrainRunsItsBatch` | libel/net/eventloop.cpp:192-204 | whatever is pushed meanwhile, a drain runs at most its batch and can end only when all of it has run |
| `EventLoops.QuitEndsSoon` | libel/net/eventloop.cpp:73-110 | in every interleaving, after quit poll returns at most once more, and only if the loop was in it |
| `EventLoops.QuitIsHeardExactly` | libel/net/eventloop.cpp:102-110 | told to quit while in poll, the loop can end without a timeout and without anybody new waking it if and only if the eventfd is written or about to be |
| `EventLoops.HeardQuitEnds` | libel/net/eventloop.cpp:73-110 | once the eventfd is written, on every undisturbed run the loop makes a bounded number of steps |
| `EventLoops.HearingLoopCanMove` | libel/net/eventloop.cpp:73-110 | and as long as it has not stopped it has one to make |
| `EventLoops.QuitInPollIsNotHeard` | libel/net/eventloop.cpp:102-110 | a run that reaches the case where it is not |
| `ThreadPools.ThreadPool.constructor` | libel/base/threadpool.cpp:21-33 | a started pool has its workers at the top of their loops and an empty queue |
| `ThreadPools.ThreadPool.RunSection` | libel/base/threadpool.cpp:52-65 | one critical section of run is the producer's step: wait, give up, or push and signal |
| `ThreadPools.ThreadPool.TakeSection` | libel/base/threadpool.cpp:67-81 | one critical section of take is the worker's step: sleep, leave empty-handed, or pop and signal |
| `ThreadPools.ThreadPool.StopSection` | libel/base/threadpool.cpp:35-41 | running is off and every waiting thread is woken |
| `ThreadPools.TakeKeepsInv` | libel/base/threadpool.cpp:67-81 | taking keeps bound, order and both signal invariants |
| `ThreadPools.PutKeepsInv` | libel/base/threadpool.cpp:52-65 | running a task keeps bound, order and both signal invariants |
| `ThreadPools.PoolDiscipline` | libel/base/threadpool.cpp:52-105 | over every run: the queue respects its bound, tasks leave in push order, sleeping workers imply a signalled worker per queued task, waiting producers a signalled producer per free slot, and after stop nobody sleeps |
| `ThreadPools.NoTaskIsLost` | libel/base/threadpool.cpp:52-65 | over every run each task that run was called with is queued, in the hands of a thread still in run, or was given up by a call that found the pool stopped, exactly once |
| `ThreadPools.EveryTaskAccountedFor` | libel/base/threadpool.cpp:52-81 | from the start: the tasks of all calls are those taken, those queued, those in hand and those given up, and none is given up before stop |
| `ThreadPools.RunningGivesUpNothing` | libel/base/threadpool.cpp:52-65 | a pool that still runs has given up nothing |
| `ThreadPools.TakesTakeTasks` | libel/base/threadpool.cpp:67-81 | a worker that finds the queue non-empty takes a task, stopped or not |
| `ThreadPools.RunningKeepsWorkers` | libel/base/threadpool.cpp:67-105 | as long as the pool runs no worker leaves or comes back without a task |
| `ThreadPools.SomebodyIsUp` | libel/base/threadpool.cpp:52-86 | with a task queued not all workers sleep, with a free slot not all producers wait |
| `ThreadPools.TasksStartOnce` | libel/base/threadpool.cpp:67-105 | every task that leaves the queue is held by one worker or has been started, never both and never twice |
| `ThreadPools.StopStops` | libel/base/threadpool.cpp:35-41 | after stop the pool is not running and nobody sleeps |
| `ThreadPools.RunsUntilStopped` | libel/base/threadpool.cpp:35-41 | and nothing but stop ends it or starts it again |
| `ThreadPools.StopTerminates` | libel/base/threadpool.cpp:35-45 | after stop the workers make a bounded number of steps together and nothing more is queued |
| `ThreadPools.StoppedWorkerCanMove` | libel/base/threadpool.cpp:88-105 | and a worker that has not exited always has a step to make |
| `ThreadPools.OneMoreTaskEach` | libel/base/threadpool.cpp:88-105 | after stop each worker starts at most one more task |
| `TimerQueues.TimespecIsExact` | libel/net/timerqueue.cpp:29-38 | the time handed to the kernel is well-formed, never zero, and exactly the distance or the minimum |
| `TimerQueues.InsertEntry` | libel/net/timerqueue.cpp:174-192 | the ordered set gains exactly the entry and stays sorted |
| `TimerQueues.EraseEntry` | libel/net/timerqueue.cpp:105-118 | the ordered set loses exactly the entry and stays sorted |
| `TimerQueues.ExpiredCount` | libel/net/timerqueue.cpp:134-142 | the entries up to the bound are exactly those due |
| `TimerQueues.Timer.constructor` | libel/net/timer.h:23-28 | a timer keeps its sequence number, expiration and interval |
| `TimerQueues.Timer.Restart` | libel/net/timer.cpp:12-18 | a repeating timer expires at the last whole microsecond not past one interval from now, any other becomes invalid |
| `TimerQueues.TimerQueue.ResetTimerfd` | libel/net/timerqueue.cpp:50-61 | the kernel timer is set for the expiration, or for the minimum delay from now |
| `TimerQueues.TimerQueue.constructor` | libel/net/timerqueue.cpp:71-79 | a new queue is the empty one that runs start from |
| `TimerQueues.TimerQueue.Insert` | libel/net/timerqueue.cpp:174-192 | both sets gain the timer, and the result says whether it is the new earliest |
| `TimerQueues.TimerQueue.AddTimerInLoop` | libel/net/timerqueue.cpp:97-103 | the timer is in both sets and the kernel timer is set again if it is the earliest |
| `TimerQueues.TimerQueue.CancelInLoop` | libel/net/timerqueue.cpp:105-118 | an active timer leaves both sets; inside a batch another one is marked |
| `TimerQueues.TimerQueue.GetExpired` | libel/net/timerqueue.cpp:134-154 | both sets lose exactly the timers due, which are returned in order of expiration |
| `TimerQueues.TimerQueue.BeginFiring` | libel/net/timerqueue.cpp:120-126 | handleRead up to its first callback, whether the descriptor is still readable or was set again meanwhile |
| `TimerQueues.TimerQueue.Reset` | libel/net/timerqueue.cpp:156-172 | the repeating timers of the batch that were not cancelled are back, and the kernel timer is set for the earliest |
| `TimerQueues.TimerQueue.CreateTimer` | libel/net/timerqueue.cpp:87-91 | adding a timer makes an object with the given expiration and interval that is not yet in the queue |
| `TimerQueues.TimerQueue.HandleRead` | libel/net/timerqueue.cpp:120-132 | every timer due at the beginning is called once, in order of expiration, whatever the callbacks add and cancel; the whole is a run of the step system |
| `TimerQueues.ExpiryTakesDue` | libel/net/timerqueue.cpp:134-154 | exactly the timers due are taken out, in order of expiration, and the sets stay in agreement |
| `TimerQueues.ReinsertPutsBack` | libel/net/timerqueue.cpp:156-172 | no assertion fails in the loop of reset, and exactly the repeating, uncancelled timers come back one interval after now |
| `TimerQueues.BatchComesBack` | libel/net/timerqueue.cpp:156-172 | after a batch a timer of it is pending again if and only if its interval is positive and it was not cancelled meanwhile, at the last whole microsecond not past one interval from the batch; other timers stay as they were |
| `TimerQueues.RepeatingTimerStays` | libel/net/timerqueue.cpp:120-172 | on every run that does not cancel it, a repeating timer once pending is pending whenever no batch is being run |
| `TimerQueues.StepKeepsConsistent` | libel/net/timerqueue.cpp:97-192 | no assertion ever fails and every step keeps both sets in agreement |
| `TimerQueues.SizesAgree` | libel/net/timerqueue.cpp:134-192 | the two sets have the same size, as asserted before and after every operation |
| `TimerQueues.SetsDescribeSameTimers` | libel/net/timerqueue.cpp:97-192 | over every run both sets hold the same timers, each once, under its current expiration |
| `TimerQueues.PendingIsArmed` | libel/net/timerqueue.cpp:97-132 | over every run, between callbacks: a pending timer implies a kernel timer set no later than the earliest expiration or 100 microseconds after it was last set |
| `TimerQueues.SettingsExactly` | libel/net/timerqueue.cpp:97-172 | which steps set or clear the kernel timer and to what: a new strictly earliest timer, the earliest valid one after a batch, and reading it when readable |
| `TimerQueues.NoSpinning` | libel/net/timerqueue.cpp:120-132 | over every run the descriptor is found readable at most once for every time the timer was set |
| `TimerQueues.CancelledFiresNoMore` | libel/net/timerqueue.cpp:105-132 | after cancelling an added timer its callback starts at most once more, and only if it is still ahead in the running batch |
| `TimerQueues.CancelIsKept` | libel/net/timerqueue.cpp:87-118 | cancelling keeps that promise on every later run if and only if the timer had been added |
| `TimerQueues.CancelCanBeLost` | libel/net/timerqueue.cpp:87-118 | a run from an empty queue in which a cancel overtakes the add and the timer fires |
| `TimerQueues.DueTimerFires` | libel/net/timerqueue.cpp:97-132 | on every run that does not cancel it, a pending timer has been called, or is still ahead in the running batch, once handleRead has begun at or after its expiration |
| `TimerQueues.RepeatsKeepDistance` | libel/net/timerqueue.cpp:156-172 | two runs of one timer lie in batches at least its interval apart, and only repeating timers run twice |
| `Channels.InterestByFlag` | libel/net/channel.h:60-61 | reading and writing interest in terms of the single flags |
| `Channels.ChangeByFlag` | libel/net/channel.h:55-59 | each change sets or clears exactly the flags of the interest it names |
| `Channels.ChangeIsPrecise` | libel/net/channel.h:55-61 | each mask change sets the interest it names and leaves the other alone |
| `Channels.Channel.constructor` | libel/net/channel.cpp:15-24 | a new channel watches nothing and belongs to no poller |
| `Channels.Channel.SetEvents` | libel/net/channel.h:55-59 | the mask becomes the changed mask |
| `Pollers.PollPoller.constructor` | libel/net/poller/poll_poller.cpp:18 | a new poller watches nothing |
| `Pollers.PollPoller.UpdateChannel` | libel/net/poller/poll_poller.cpp:51-82 | under the source's assertions, the vector gains an entry or its entry is rewritten, negated when nothing is watched |
| `Pollers.PollPoller.RemoveChannel` | libel/net/poller/poll_poller.cpp:84-106 | the channel's entry is gone, the last entry takes its place, and the moved channel's index follows, also through the negated descriptor |
| `Pollers.PollPoller.FillActiveChannels` | libel/net/poller/poll_poller.cpp:37-49 | for any count: the active list is the first that many ready channels, or all of them, in the order of the vector, and each carries its events |
| `Pollers.PollUpdateKeepsInv` | libel/net/poller/poll_poller.cpp:51-82 | map, indices and vector stay inverse to each other |
| `Pollers.PollUpdateClears` | libel/net/poller/poll_poller.cpp:51-82 | an update leaves no earlier event on the entry, hides it from poll exactly when it empties the mask of a known channel, and leaves the other entries alone |
| `Pollers.PollRemoveKeepsInv` | libel/net/poller/poll_poller.cpp:84-106 | removal by exchange with the last keeps them inverse, and its assertions hold |
| `Pollers.PollUpdateExactly` | libel/net/poller/poll_poller.cpp:51-82 | the assertions hold if and only if the channel is registered, or never was and its descriptor is free |
| `Pollers.RemovedCannotReturn` | libel/net/poller/poll_poller.cpp:84-106 | a removed channel fails the assertions of a later update |
| `Pollers.FrontIsEnough` | libel/net/poller/poll_poller.cpp:37-49 | the early exit misses nothing: where the loop stops it has seen the counted ready entries, or all |
| `Pollers.ActiveExactlyOnce` | libel/net/poller/poll_poller.cpp:37-49 | with the count that poll reports, the active list holds every ready channel exactly once and no other |
| `Pollers.EpollPoller.constructor` | libel/net/poller/epoll_poller.cpp:35-42 | a new poller watches nothing |
| `Pollers.EpollPoller.Update` | libel/net/poller/epoll_poller.cpp:131-148 | the kernel set changes as the operation says |
| `Pollers.EpollPoller.UpdateChannel` | libel/net/poller/epoll_poller.cpp:83-112 | kernel set, map and three-state index move together |
| `Pollers.EpollPoller.RemoveChannel` | libel/net/poller/epoll_poller.cpp:114-129 | the channel leaves kernel set and map, and its index is reset |
| `Pollers.EpollUpdateLegal` | libel/net/poller/epoll_poller.cpp:83-112 | only legal operations are issued and the index stays truthful |
| `Pollers.EpollWatchesExactly` | libel/net/poller/epoll_poller.cpp:83-112 | after an update the kernel watches the channel with its mask unless the update emptied the mask of a channel it was watching; other descriptors are not touched |
| `Pollers.EpollRemoveLegal` | libel/net/poller/epoll_poller.cpp:114-129 | the same for removal |
| `Pollers.EpollRemovedCanReturn` | libel/net/poller/epoll_poller.cpp:114-129 | a removed channel can be registered again |
| `Pollers.StepAgrees` | libel/net/poller/epoll_poller.cpp:83-148 | every allowed call meets both pollers' assertions, issues a legal operation and keeps both pollers in agreement |
| `Pollers.PollersAgree` | libel/net/poller/epoll_poller.cpp:83-148 | over every run: kernel mask, visible poll mask and the channel's own mask are equal for every descriptor |
| `Num2String.DecimalReadsBack` | libel/base/num2string.cpp:38-101 | reading canonical digits back gives the number, with a leading zero only for zero |
| `Num2String.DecimalIsCanonical` | libel/base/num2string.cpp:38-101 | no other string of digits without a leading zero denotes the number |
| `Num2String.TableDigits` | libel/base/num2string.cpp:14-28 | entry i of the table is i in two digits |
| `Num2String.DecimalSplits` | libel/base/num2string.cpp:128-147 | the last four digits of a larger number can be written on their own |
| `Num2String.LeadingDigits` | libel/base/num2string.cpp:149-178 | the comparisons against powers of ten select exactly the digits in front of the last eight |
| `Num2String.PutShort` | libel/base/num2string.cpp:118-148 | fewer than nine digits: exactly the canonical ones, nothing else touched |
| `Num2String.PutMedium` | libel/base/num2string.cpp:149-187 | nine to sixteen digits: exactly the canonical ones |
| `Num2String.PutTop` | libel/base/num2string.cpp:193-212 | the first one to four of seventeen or more digits |
| `Num2String.PutLong` | libel/base/num2string.cpp:188-250 | seventeen or more digits: exactly the canonical ones |
| `Num2String.U32toa` | libel/base/num2string.cpp:38-101 | every 32-bit value: exactly its canonical decimal digits, at most ten, and the exact length |
| `Num2String.U64toa` | libel/base/num2string.cpp:116-255 | every 64-bit value: exactly its canonical decimal digits, at most twenty, and the exact length |
| `Num2String.Magnitude32` | libel/base/num2string.cpp:103-114 | complement and increment at 32 bits give the absolute value, also of the minimum |
| `Num2String.Magnitude64` | libel/base/num2string.cpp:257-267 | the same at 64 bits |
| `Num2String.I32toa` | libel/base/num2string.cpp:103-114 | every signed 32-bit value, the minimum included: sign and canonical digits, at most eleven characters |
| `Num2String.I64toa` | libel/base/num2string.cpp:257-267 | every signed 64-bit value, the minimum included: sign and canonical digits, at most twenty characters |
| `Num2String.SignedReadsBack` | libel/base/num2string.cpp:257-267 | reading sign and digits back gives the value |

## Left out

- System calls (`write`, `readv`, `poll`, `epoll_ctl`, `timerfd_settime`, the eventfd) are replaced by the answers they can give, as parameters or event data.
- `Buffer`'s storage and `PollPoller`'s vector are fields of type `seq`, as `std::vector`s that are resized; `findEOL`, which looks for a line feed alone, and the forms of retrieving that take a pointer or a fixed width are not modelled.
- Buffers.Buffer.ReadFd: the saved error number is a result, 0 without an error, where the source leaves the caller's variable alone.
- `TcpConnection`: callbacks are taken to be installed and the high-water mark is the default 64 MB; `forceClose`, `forceCloseWithDelay`, `connectDestroyed`, reading and TCP options are not modelled.
- `EventLoop`: `runInLoop` called in the loop thread is an ordinary call; the ten-second poll timeout is a `PollReturns` that may happen at any time.
- `ThreadPool`: tasks do not throw, the maximum queue size is fixed before `start`, and a pool without threads, which runs each task in the caller, is not modelled.
- Reads and writes of plain shared flags are single atomic steps.
- Timer intervals are `real` where the source has `double`, so rounding is not modelled; times do not overflow; timers with equal expirations are ordered by sequence number where the source orders by address.
- `RpcChannel`: messages of type ERROR, which are only logged; recording a call and handing its request to the codec are one step, since the request only joins what is on the way; a caller always supplies a response object, and a service runs its closure once.
- Protobuf serialisation is an abstract pair of functions, inverse to each other where a round trip needs it; descriptors and reflection are a table of services and methods.
- `EpollPoller::fillActiveChannels`, which hands on the channels that the kernel put into its event array.
- HTTP header storage, which the source does not do either, the request body, and responses.
- `parseRequest` is not entered again after it has completed: in the source its loop would not end.
- The 16-bit printers, which call the 32-bit ones.
- Logging, waiters, latches, loop thread pools, acceptors, sockets and addresses, and the lifetimes of servers, clients and connections.
