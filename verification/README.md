# Model and proofs of the client protocol

GLIDE's language clients talk to a shared Rust core over a Unix socket. Requests and responses are
length-delimited frames; many requests are in flight at once, replies come back in any order, and
slots, buffers and message objects are reused. This project models that protocol in Dafny and proves
that reuse, batching, chunking and interleaving never lose, duplicate, reorder, misdeliver or strand
anything.

To check the whole project, use `dafny verify dfyconfig.toml`.

| file | what it models |
|---|---|
| `Wrappers.dfy`, `Sequences.dfy` | helpers |
| `Varint.dfy`, `Framing.dfy` | the length prefix ("Base 128 Varints" in the Protocol Buffers encoding specification), delimited frames, and the one declarative parser every reader refines |
| `RotatingBuffers.dfy` | the listener's read buffer |
| `Coalescing.dfy` | the append-then-drain protocol of all three writers, and the listener's writer |
| `SlotTables.dfy` | callback slots and free lists |
| `Protocol.dfy`, `PythonClients.dfy`, `NodeClients.dfy` | messages, and the two event-loop clients |
| `NodeSessions.dfy` | the event-loop client and the tasks that answer it, message by message |
| `Matching.dfy`, `Sessions.dfy` | client and listener together: first at the level of messages, then down to the bytes |
| `Progress.dfy` | no session is ever stuck |
| `Reconnection.dfy`, `RoundRobin.dfy` | the self-healing connection and reading from replicas in turn |
| `Messages.dfy` | the two-party completion race and the message pool |
| `Dispatchers.dfy` | the multi-threaded callback dispatcher |
| `Replies.dfy` | reply normalisation between protocol versions |

How it is built:

- An object whose methods update fields is a class. Its methods equate the new state with a function of
  the old one; the theorems are about those functions and about every run of events over them.
- Code between two awaits is one step. For the multi-threaded parts (reconnection under its mutex, the
  completion race, the dispatcher) every atomic operation is one step, and the classes beside those
  state machines give the same code run by one thread.
- What tasks, native calls and peers report comes in with the events of a run, and the theorems compare
  what callers get with those events.
- A run is any finite sequence of events whose guards hold. Invariants are stated per future, message,
  id or slot, and proved for every run. "Never stuck" means that every run has a continuation, built in
  the proof, that finishes what is in flight.
- Every theorem about bytes asks only that the messages actually sent have an encoding: a body that
  parses back and fits the 32-bit length, and a 32-bit slot. `PlainNetServes` exhibits codecs that meet
  every hypothesis.
- Futures, promises and operations are numbered. These numbers are labels for stating the theorems;
  slots, payloads, values and ids come only from the bytes, tables and queues the program has.

What was found on the way, each with its exact condition:

- A Python request that raises between taking its slot and registering its future loses the slot. The
  table stays sound exactly when no freed slot was taken or the lost one was the highest; otherwise a
  later request displaces a live future (`FailedBuildKeepsTable`, `LostSlotDisplaces`,
  `FailedBuildCanDisplace`).
- The Python client documents that closing fails every open future. A closing error that names a live
  slot leaves that slot's future unsettled, and only then (`ClosingErrorSettles`,
  `ClosingErrorCanStrand`).
- A response that cannot be encoded takes the accumulated responses with it, unless there are none
  (`ErrorPathsLose`, `FailedEncodeCanLose`).
- A reply that holds a map, set, double or boolean its command does not declare, on its own or nested,
  reaches the caller in different shapes in the two protocol versions (`ShapesConvertAlike`, `UndeclaredMapDiffers`).

## Model

| member | source | states |
|---|---|---|
| `Sessions.EveryReplyReachesItsRequest` | glide-core/src/socket_listener.rs:477-510 | For every run of client and listener (tasks finishing in any order, slots reused, both sockets cutting the bytes anywhere): a task runs the request issued with its future, payload and all; a completed future holds what its caller is owed for the result that very task reported or, once the client has closed, the text of the reported result that closed it; nothing is completed twice, no box is reclaimed twice, and the session ends only by closing. |
| `Sessions.ResultsAreReported` | glide-core/src/socket_listener.rs:178-239 | In every run the results on record are exactly those the tasks reported, each once. |
| `Sessions.LedgerIsIssued` | python/python/glide/redis_client.py:183-203 | In every run the requests on record carry the payloads they were issued with, in order. |
| `Progress.EveryRunCanFinish` | glide-core/src/socket_listener.rs:477-510 | Nothing is ever stranded: every run, whatever its tasks, buffers and sockets hold, has a continuation without new requests after which every request ever issued has the answer its own task's reported result is owed, or the session has closed; it stays open if no task had produced a closing result. |
| `Progress.EveryStepShrinks` | glide-core/src/socket_listener.rs:477-510 | On every schedule, whatever a task answers and however little a read or write moves, every step but a new request or a write of nothing leaves less to do or ends the session, so nothing goes on for ever. |
| `Progress.HaltedMeansAnswered` | glide-core/src/socket_listener.rs:477-510 | A run in which no such step is left has answered every request with what its own task's reported result is owed, or has closed. |
| `Progress.SomeoneCanMove` | python/python/glide/redis_client.py:164-181 | An open session has answered everything, or one side has an enabled step that is not a new request. |
| `Progress.StaysHarmless` | python/python/glide/redis_client.py:260-283 | Without a closing result no read, write or answer ever ends a session, however the bytes are cut. |
| `Progress.RunStarves` | glide-core/src/rotating_buffer.rs:49-52 | In every open run neither side carries a whole message it has not handled. |
| `Sessions.ListenerObtainsWhatWasAppended` | python/python/glide/redis_client.py:164-181 | However requests are batched and the bytes are cut, the listener has obtained a prefix of the appended requests, once each and in order, and all of them when nothing is buffered or unread. |
| `Sessions.BoxesAreConserved` | glide-core/src/socket_listener.rs:189-196 | In every open session the leaked boxes are exactly those named by responses still on their way, one response each, each holding the value that response's task reported. |
| `Sessions.SettlementsArePermanent` | python/python/glide/redis_client.py:260-283 | Whatever a future was completed with stays the same in every continuation of the run. |
| `Sessions.RunKeepsInv` | python/python/glide/redis_client.py:183-203 | Every run keeps the invariant: bytes between the sides encode exactly the messages in flight, and each slot in use belongs to one future that is in flight exactly once. |
| `Sessions.ReceiveAllIsDispatchAll` | python/python/glide/redis_client.py:238-283 | The responses handled in a session are handled exactly as the client's reader loop handles them. |
| `Matching.DispatchSettles` | python/python/glide/redis_client.py:260-283 | A response on its way back frees its own request's slot, reclaims its own box and settles its own future with what the result owes the caller (value, nil, OK, or the error class and text). |
| `Matching.ReceiveNext` | python/python/glide/redis_client.py:260-283 | Handling the next response keeps the matching, or, for a closing error, closes without touching any answer already given. |
| `Matching.FinishKeeps` | glide-core/src/socket_listener.rs:178-239 | Answering a request (by value, nil, OK, request error or closing error) keeps the matching of slots, futures, results and boxes. |
| `Matching.IssueKeeps` | python/python/glide/redis_client.py:193-201 | Issuing a request under a fresh or reused slot keeps the matching. |
| `Matching.QuietMeansAnswered` | python/python/glide/redis_client.py:183-203 | When nothing is in flight any more, every future ever handed out has the answer it is owed and no box is live. |
| `Varint.EncodeVarint` | python/python/glide/protobuf_codec.py:52-59 | The encoder's loop produces the base-128 encoding. |
| `Varint.DecodeVarint` | python/python/glide/protobuf_codec.py:29-44 | The decoder's loop reports the value and length, missing bytes, or too many groups, exactly as the declarative reading of the bytes says. |
| `Varint.VarintRoundTrip` | python/python/glide/protobuf_codec.py:29-59 | For every 32-bit value and any trailing bytes, decoding the encoding returns the value and exactly the encoding's length (at most five bytes); no proper prefix decodes. |
| `Varint.DecodeStable` | python/python/glide/protobuf_codec.py:29-44 | Bytes that arrive later never change a decoded value or an overlong verdict. |
| `Varint.DecodeExact` | python/python/glide/protobuf_codec.py:29-44 | No proper prefix of any decoded varint decodes, canonical or not. |
| `Framing.EncodeDelimited` | python/python/glide/protobuf_codec.py:98-103 | Appended to an encoded stream, the result is the stream with exactly that message added; behind any bytes, the added part reads back as the message whatever follows it. |
| `Framing.DecodeDelimited` | python/python/glide/protobuf_codec.py:72-96 | Peels exactly one message off the declarative parse of the bytes at the offset, or says why there is none. |
| `Framing.ParseAccounts` | glide-core/src/rotating_buffer.rs:20-54 | Consumed frames ++ leftover is the input; after a clean stop the leftover holds no whole frame; error stops sit on the offending bytes. |
| `Framing.ChunkingInvariance` | glide-core/src/rotating_buffer.rs:20-54 | For arbitrary bytes a and b, parsing a and carrying its leftover into b equals parsing a ++ b, errors included. |
| `Framing.PipeRead` | glide-core/src/rotating_buffer.rs:20-54 | Reading any part of a stream of encodings yields a prefix of the messages; leftover ++ unread bytes encode the rest. |
| `Framing.ReadAllIsParse` | glide-core/src/rotating_buffer.rs:20-54 | Any run of chunked reads obtains what a single read of all bytes would. |
| `Framing.AnyChunkingYieldsTheStream` | glide-core/src/rotating_buffer.rs:20-54 | Every chunking of an encoded stream with an incomplete last frame yields exactly its messages in order and carries exactly the incomplete tail. |
| `RotatingBuffers.RotatingBuffer.GetRequests` | glide-core/src/rotating_buffer.rs:20-54 | Returns the messages of the declarative parse and keeps its leftover; a malformed body returns an error and leaves the buffer empty. |
| `RotatingBuffers.RotatingBuffer.NextValues` | glide-core/src/socket_listener.rs:97-125 | End of socket, parsed requests or an error for one readiness event, with the buffer's new content. |
| `RotatingBuffers.ListenerRefinesParser` | glide-core/src/socket_listener.rs:97-125 | Over any chunking, a run of readiness events gives exactly the requests and the leftover of one pass over all the bytes, or fails exactly when that pass does. |
| `RotatingBuffers.RequestsAcrossChunks` | glide-core/src/rotating_buffer.rs:20-54 | Two passes over consecutive chunks equal one pass over both, malformed input included. |
| `RotatingBuffers.LeftoverIsIncomplete` | glide-core/src/rotating_buffer.rs:49-52 | The carried bytes never start with a request that could already be handled. |
| `Coalescing.NothingStranded` | glide-core/src/socket_listener.rs:128-162 | In every run of the append-then-drain protocol no byte is lost, duplicated or reordered, and a free lock means nothing is pending. |
| `Coalescing.DrainsInTwo` | glide-core/src/socket_listener.rs:134-161 | Once appends stop, two completions commit everything and free the lock. |
| `Coalescing.NoResponseStranded` | glide-core/src/socket_listener.rs:128-162 | For any number of tasks in any interleaving: sent ++ unsent ++ accumulated is the responses in append order, and a free lock means all of them are sent. |
| `Coalescing.WriteRefines` | glide-core/src/socket_listener.rs:241-251 | Writing a response refines the protocol's append step. |
| `Coalescing.ProgressRefines` | glide-core/src/socket_listener.rs:138-161 | A partial write is invisible to the protocol, the write that empties the buffer is its completion step, and the bytes left shrink by exactly the bytes written. |
| `Coalescing.ErrorPathsLose` | glide-core/src/socket_listener.rs:139-143 | A failed encode keeps every appended byte exactly when nothing had accumulated; a drainer that finds the socket not writable always loses its remainder, and only that. |
| `Coalescing.FailedEncodeCanLose` | glide-core/src/socket_listener.rs:241-259 | A concrete writer in which a failed encode loses an earlier response. |
| `Coalescing.ListenerWriter.WriteToWriter` | glide-core/src/socket_listener.rs:241-261 | New writer state after a response, encodable or not. |
| `Coalescing.ListenerWriter.WriteToOutput` | glide-core/src/socket_listener.rs:128-137 | Becomes the drainer unless the lock is taken or nothing has accumulated. |
| `Coalescing.ListenerWriter.Resume` | glide-core/src/socket_listener.rs:138-161 | New writer state for each thing the socket can report. |
| `PythonClients.PyWriterRefines` | python/python/glide/redis_client.py:164-181 | Write tasks and drains refine the append-then-drain protocol on the encoded requests. |
| `PythonClients.NoRequestStranded` | python/python/glide/redis_client.py:164-181 | In every run, written ++ encode(buffered) == encode(all requests appended so far), and no write in progress means nothing is buffered. |
| `PythonClients.PythonClient.WriteOrBufferRequest` | python/python/glide/redis_client.py:164-172 | New writer state of a write task up to its first await. |
| `PythonClients.PythonClient.AfterDrain` | python/python/glide/redis_client.py:168-172 | New writer state after an awaited drain: the next batch, or the lock released. |
| `PythonClients.PythonClient.WriteBufferedRequests` | python/python/glide/redis_client.py:174-181 | Hands the encodings of all buffered requests to the socket, in order, and empties the buffer. |
| `SlotTables.RegisterIsFresh` | python/python/glide/redis_client.py:145-148 | A registration never displaces a live future; free and used slots stay disjoint and cover [0, n), so the table's length is fresh when no slot is free. |
| `SlotTables.ReleaseFreesSlot` | python/python/glide/redis_client.py:260-270 | Completing a slot frees exactly that slot. |
| `SlotTables.SizeIsPeak` | python/python/glide/redis_client.py:231-236 | Over every run of takes and puts the pool's size equals the peak number of indexes taken at once. |
| `SlotTables.TakeUndoesPut` | python/python/glide/redis_client.py:231-236 | The index freed last is the next one taken, and taking it undoes the freeing. |
| `Sessions.SlotsArePeak` | python/python/glide/redis_client.py:231-236 | In every open session the number of slots, used and free, is exactly the most ever in use at once, the handshake's included. |
| `SlotTables.FailedBuildKeepsTable` | python/python/glide/redis_client.py:193-200 | A request that fails between taking and registering its slot keeps the table sound exactly when no freed slot was taken or the lost one was the highest. |
| `SlotTables.LostSlotDisplaces` | python/python/glide/redis_client.py:193-200 | Every other lost slot displaces a live future: once the slots still free are in use again, the next request is given a slot in use. |
| `SlotTables.FailedBuildCanDisplace` | python/python/glide/redis_client.py:231-236 | A concrete table in which a lost slot makes the next request displace a live future. |
| `PythonClients.PythonClient.GetCallbackIndex` | python/python/glide/redis_client.py:231-236 | Pops the last freed slot, or takes the number of outstanding futures. |
| `PythonClients.PythonClient.ExecuteCommand` | python/python/glide/redis_client.py:183-203 | Refuses on a closed client; otherwise registers a new future under the next slot and builds its request. |
| `PythonClients.PythonClient.CloseClient` | python/python/glide/redis_client.py:127-140 | Fails exactly the futures in the table that are not done. |
| `PythonClients.PythonClient.HandleResponse` | python/python/glide/redis_client.py:260-283 | New client state for every kind of response, known slot or not. |
| `PythonClients.PythonClient.ReaderTurn` | python/python/glide/redis_client.py:238-283 | One turn of the reader: end of socket, or dispatch the parsed responses and carry the leftover. |
| `PythonClients.ReaderRefinesParser` | python/python/glide/redis_client.py:238-258 | Over any chunking the reader loop dispatches exactly the stream's messages in order, until one ends it, and carries exactly the incomplete suffix. |
| `PythonClients.ClosingIsTold` | python/python/glide/redis_client.py:260-268 | A closing error, or a reply to an unknown slot, closes every future still open with the reported text, or with the slot. |
| `PythonClients.ClosingErrorSettles` | python/python/glide/redis_client.py:260-268 | A closing error settles every outstanding future exactly when it names none of them. |
| `PythonClients.ClosingErrorCanStrand` | python/python/glide/redis_client.py:260-268 | A concrete client whose only future is left unsettled by the closing error that names its slot. |
| `NodeClients.CloseSettlesEverythingForGood` | node/src/BaseClient.ts:1047-1054 | However the close came about, every promise ever handed out is settled, and nothing later settles, re-settles or hands out any. |
| `NodeClients.SettlementsArePermanent` | node/src/BaseClient.ts:208-269 | First settlement wins: over every continuation of every run, a promise keeps what it was first settled with, through later replies, a close and whatever follows a close. |
| `NodeSessions.EveryPromiseGetsItsResult` | node/src/BaseClient.ts:235-265 | For every run of client and tasks, answering in any order, slots reused: each settled promise holds what its caller is owed for the result its own task reported or, once the client has closed, the user's reason or the text of the reported result that closed it; a closed client has settled every promise. |
| `NodeSessions.ResultsAreReported` | node/src/BaseClient.ts:235-265 | In every run the results on record are exactly those the tasks reported, each once. |
| `NodeClients.ReplySettles` | node/src/BaseClient.ts:240-265 | The response for a result, to a slot in use, settles that slot's promise with what the caller is owed (value, nil, OK, or the error class and text), frees the slot and takes the box over. |
| `NodeClients.ClosingIsTold` | node/src/BaseClient.ts:235-239 | Closing tells every open promise the reason; a closing error's reason is its text. |
| `NodeClients.ArrayIsPeak` | node/src/BaseClient.ts:291-296 | In every open run the callback array is exactly as long as the most slots ever in use at once. |
| `NodeClients.HandlerRefinesParser` | node/src/BaseClient.ts:208-269 | Over any chunking the data handler dispatches exactly the stream's messages in order, until one stops it, and carries exactly the incomplete suffix. |
| `NodeClients.ReplyKeeps` | node/src/BaseClient.ts:240-265 | A reply to a slot in use settles an unsettled promise and keeps the table sound. |
| `NodeClients.HandOutKeeps` | node/src/BaseClient.ts:328-332 | A new promise takes a free slot, whose old callbacks belong to a settled promise, or a fresh one. |
| `NodeClients.SlotsRefinePool` | node/src/BaseClient.ts:291-296 | A new promise takes an index, and a reply frees one, exactly as the pool does. |
| `NodeClients.NoRequestStranded` | node/src/BaseClient.ts:298-313 | In every run of the writer, written ++ buffered == encode(all requests so far), and no write in progress means nothing is buffered. |
| `NodeClients.NodeClient.CreateWritePromise` | node/src/BaseClient.ts:315-333 | Throws on a closed client; otherwise hands out a promise under the next slot and buffers its request. |
| `NodeClients.NodeClient.WriteOrBufferRequest` | node/src/BaseClient.ts:369-380 | New writer state: the protocol's append step. |
| `NodeClients.NodeClient.WriteCompleted` | node/src/BaseClient.ts:303-309 | New writer state: the protocol's completion step. |
| `NodeClients.NodeClient.GetCallbackIndex` | node/src/BaseClient.ts:291-296 | Pops the last freed slot, or takes the array's length. |
| `NodeClients.NodeClient.HandleResponse` | node/src/BaseClient.ts:235-265 | New client state for every kind of response, including a slot that never existed. |
| `NodeClients.NodeClient.HandleReadData` | node/src/BaseClient.ts:208-269 | New client state and carried bytes after one data event; bytes are carried only when the whole chunk was handled. |
| `NodeClients.NodeClient.CloseClient` | node/src/BaseClient.ts:1047-1054 | Rejects the callbacks of every slot; promises already settled keep their settlement. |
| `Reconnection.SignalFollowsState` | glide-core/src/client/reconnecting_connection.rs:172-241 | In every reachable state: with the mutex free the signal is set exactly when a connection is installed; at most one reconnect task is live; a reconnecting connection in use has exactly one. |
| `Reconnection.AlwaysRecoverable` | glide-core/src/client/reconnecting_connection.rs:197-233 | Never stuck: from every such state of a connection in use a step towards an installed connection is enabled, at most ten steps away; a task never runs out of retries. |
| `Reconnection.EveryRunCanRecover` | glide-core/src/client/reconnecting_connection.rs:181-234 | Every run of a connection in use, whatever its callers and tasks have done, extends by at most ten steps to one with the mutex free, a connection installed and the signal set. |
| `Reconnection.EveryWaiterCanReturn` | glide-core/src/client/reconnecting_connection.rs:172-179 | Nobody waits in vain: from every run of a connection in use at most twelve more steps return a connection to any caller waiting for one. |
| `Reconnection.OnlyAnsweringConnections` | glide-core/src/client/reconnecting_connection.rs:208-228 | In every run, the connection that is installed and every connection a caller was given is the first one, or one whose task connected to it and then, with nothing in between, got an answer to its ping. |
| `Reconnection.FailuresAreRetried` | glide-core/src/client/reconnecting_connection.rs:199-231 | After a failed attempt or an unanswered ping a task sleeps and tries again and cannot install; once the clients are dropped it stops at its next turn, and not before. |
| `Reconnection.WokenReturns` | glide-core/src/client/reconnecting_connection.rs:163-179 | A woken caller that finds the mutex free returns the installed connection if the signal is still set, and waits again otherwise. |
| `Reconnection.RunKeepsInv` | glide-core/src/client/reconnecting_connection.rs:181-234 | Every interleaving of callers, tasks and drops keeps the invariant, intermediate states under the mutex included. |
| `Reconnection.ReconnectingConnection.constructor` | glide-core/src/client/reconnecting_connection.rs:54-101 | A failed first connection leaves a reconnection already started. |
| `Reconnection.ReconnectingConnection.Reconnect` | glide-core/src/client/reconnecting_connection.rs:181-192 | The critical section: nothing if already reconnecting, otherwise signal reset, state set, one task asked for. |
| `Reconnection.ReconnectingConnection.Retry` | glide-core/src/client/reconnecting_connection.rs:197-233 | The first attempt that connects and answers its ping is installed, unless the clients were dropped before it. |
| `Reconnection.ReconnectingConnection.TryGetConnection` | glide-core/src/client/reconnecting_connection.rs:163-170 | Under the invariant, a woken waiter finds a connection exactly when the signal is set, and it is the installed one. |
| `RoundRobin.EveryReplicaOncePerRound` | glide-core/src/client/standalone_client.rs:145-175 | Fairness: with m connected replicas, any m consecutive reads return each exactly once, wherever the index stood. |
| `RoundRobin.StandaloneClient.RoundRobinRead` | glide-core/src/client/standalone_client.rs:145-175 | Returns the first connected replica going round after the index, the primary if and only if there is none; looks at no more nodes than there are; keeps the index in range whether or not the exchange succeeds. |
| `RoundRobin.StandaloneClient.GetConnection` | glide-core/src/client/standalone_client.rs:177-188 | When the primary is used and when reads go round. |
| `RoundRobin.CollectNodes` | glide-core/src/client/standalone_client.rs:70-138 | Every contacted node is kept, in the order they answered and connected or not; the primary is the first that reports itself master; which failure is reported otherwise. |
| `RoundRobin.ErrorsAreTheFailures` | glide-core/src/client/standalone_client.rs:105-115 | The reported errors are those of the failed contacts, all of them, each once and in order. |
| `Messages.ResumedExactlyOnce` | csharp/lib/Message.cs:39-75 | In every interleaving of any number of operations a caller is resumed at most once, with what its own native call reported, and a finished operation was resumed and returned its message exactly once. |
| `Messages.RepliesAreReported` | csharp/lib/Message.cs:39-58 | In every run the reply on record for an operation is exactly the one its native call reported, once. |
| `Messages.ResumesOnlyWhenReady` | csharp/lib/Message.cs:60-75 | The thread that resumes finds both the native call's reported reply and the caller's continuation stored; an await never finds its message already executed. |
| `Messages.EveryOperationCanFinish` | csharp/lib/Message.cs:39-121 | No caller is left behind and none waits for another: from every reachable state at most thirteen steps of its own two threads finish an operation, resumed exactly once with what its own native call reported, its message returned once. |
| `Messages.UnfinishedCanMove` | csharp/lib/Message.cs:60-121 | Every unfinished operation has an enabled step that leaves fewer before it. |
| `Messages.PoolIsPartitioned` | csharp/lib/MessageContainer.cs:8-37 | A message's index is its place in the list; the queue holds none twice and exactly those no unfinished operation has. |
| `Messages.OwnersDiffer` | csharp/lib/MessageContainer.cs:13-37 | No two unfinished operations share a message, so a result is read before its message is handed on. |
| `Messages.CompletionSource.StartTask` | csharp/lib/Message.cs:85-94 | Resets the message for a new operation. |
| `Messages.CompletionSource.CheckRace` | csharp/lib/Message.cs:60-75 | The exchange, and the continuation to run for the second thread only. |
| `Messages.CompletionSource.SetReply` | csharp/lib/Message.cs:39-58 | Stores the result or exception, then races. |
| `Messages.CompletionSource.OnCompleted` | csharp/lib/Message.cs:117-121 | Stores the continuation, then races. |
| `Messages.CompletionSource.GetResult` | csharp/lib/Message.cs:131-138 | The exception if there is one, else the result. |
| `Messages.MessageContainer.GetMessage` | csharp/lib/MessageContainer.cs:8-11 | The message at an index is the one with that index. |
| `Messages.MessageContainer.GetMessageForCall` | csharp/lib/MessageContainer.cs:13-32 | The oldest free message, or a new one at the end of the list, reset either way. |
| `Messages.MessageContainer.ReturnFreeMessage` | csharp/lib/MessageContainer.cs:34-37 | Appends to the queue of free messages; the message is in it once exactly when it was not in it before. |
| `Dispatchers.IdsArePartitioned` | java/client/src/main/java/glide/connectors/handlers/CallbackDispatcher.java:43-77 | Under every interleaving of atomic operations, every id the 32-bit counter has produced is mapped, free (once) or in the hand of exactly one thread, and only one of these, until 2^32 ids exist. |
| `Dispatchers.OutstandingIdsDiffer` | java/client/src/main/java/glide/connectors/handlers/CallbackDispatcher.java:43-53 | Requests outstanding at the same time have different ids. |
| `Dispatchers.FuturesGetTheirOwnReply` | java/client/src/main/java/glide/connectors/handlers/CallbackDispatcher.java:65-77 | In every run a future is only ever completed with the reply that arrived for its own request. |
| `Dispatchers.RepliesArrived` | java/client/src/main/java/glide/connectors/handlers/CallbackDispatcher.java:65-77 | In every run what is being handled for, or was given to, a future is exactly the reply that arrived for its request. |
| `Dispatchers.EveryFutureCanComplete` | java/client/src/main/java/glide/connectors/handlers/CallbackDispatcher.java:43-77 | No request waits for another thread: from every reachable state a future's own operations, at most six, complete it with the reply that arrived for its own request. |
| `Dispatchers.CallbackDispatcher.RegisterRequest` | java/client/src/main/java/glide/connectors/handlers/CallbackDispatcher.java:43-53 | Equals the machine's poll, count and put taken by one thread; in a sound dispatcher the id is one no outstanding request has, and the dispatcher stays sound. |
| `Dispatchers.CallbackDispatcher.CompleteRequest` | java/client/src/main/java/glide/connectors/handlers/CallbackDispatcher.java:65-77 | In a sound dispatcher the reply to a known id equals the machine's remove, offer and complete, and completes exactly the future registered under that id with that reply; an unknown id is only freed. |
| `Replies.PairUp` | glide-core/src/client/value_conversion.rs:23-38 | The map branch's loop pairs the items up, or fails on a leftover key. |
| `Replies.PassesThrough` | glide-core/src/client/value_conversion.rs:15-60 | Without a declared type every reply passes; nil passes for maps, sets and doubles that may be null. |
| `Replies.MapMeaning` | glide-core/src/client/value_conversion.rs:20-45 | A declared map: a map stays, an array becomes the map that lists exactly its items in order, and exactly an odd array or anything else but nil is an error, each with its own. |
| `Replies.SetMeaning` | glide-core/src/client/value_conversion.rs:46-56 | A declared set: a set stays, an array becomes the set of exactly its items, and exactly anything else but nil is an error. |
| `Replies.ScalarMeaning` | glide-core/src/client/value_conversion.rs:57-63 | A declared double or boolean is exactly what the client library reads, and an error exactly when it reads nothing. |
| `Replies.ShapesConvertAlike` | glide-core/src/client/value_conversion.rs:15-63 | A reply converts alike in both protocol shapes, whatever it nests, if and only if its command declares its map, set, double or boolean (a scalar being read alike) and nothing inside is one, or it is a flat map with a key too many. |
| `Replies.UndeclaredMapDiffers` | glide-core/src/client/value_conversion.rs:15-17 | A concrete reply of a command without a declared type that reaches the caller in two shapes. |
| `Replies.PlainLooksTheSame` | glide-core/src/client/value_conversion.rs:19-63 | A value looks the same in both protocols if and only if it holds no map, set, double or boolean at any depth. |
| `Replies.ConvertIsIdempotent` | glide-core/src/client/value_conversion.rs:19-56 | Converting a converted map or set changes nothing. |
| `Replies.ConvertAllMeaning` | glide-core/src/client/mod.rs:174-191 | Replies are converted position by position over the shorter of replies and commands; a failure is the earliest reply's. |
| `Replies.TransactionMeaning` | glide-core/src/client/mod.rs:138-191 | An aborted transaction answers nil; otherwise the answer lists the converted replies position by position, or is the earliest error; a bare reply is accepted from a single command only. |
| `Replies.TransactionShapes` | glide-core/src/client/mod.rs:138-191 | A transaction whose replies, or whose bare reply, are alike gives the same result, or the same error, in both protocol shapes; one that succeeds gives the same result only if they are alike, a bare map or set apart. |
| `Replies.OddMapFailsTransaction` | glide-core/src/client/mod.rs:138-191 | A flat map with a key too many fails the transaction, with that error unless an earlier reply failed. |

## Left out

- Body encodings: protobuf serialisation is a codec; a request or response without an encoding, or with a slot beyond 32 bits, is not sent in the runs of `Sessions`.
- `u32::decode_var` in the listener: it is external; it is given the Python decoder's reading, and `RotatingBuffers.Requests` takes its overlong prefix as missing bytes.
- Framing.ChunkingInvariance: after a malformed body it keeps the rest of the bytes, as the declarative parser does; the listener drops them, which is `RotatingBuffers.RotatingBuffer.GetRequests`.
- The protobuf.js reader's treatment of overlong prefixes is external; the model closes the client there.
- Sockets, TLS and the server: a read is any non-empty chunk, a write any partial write.
- The connection handshake: sessions start after it, with slot 0 free again; the first message being a connection request is not modelled.
- Sessions.EveryReplyReachesItsRequest: ends with the client's close; what the listener still does afterwards cannot reach a future. Runs contain no encode failure and no unwritable socket, whose effect is `ErrorPathsLose`.
- Cancelling a Python future from outside: completing it afterwards would raise in the reader.
- NodeClients.CloseSettlesEverythingForGood: while the client is open its peer answers slots in use, as the listener does; a second reply to one slot would put that slot on the free list twice.
- Coalescing.ListenerWriter.Resume: does not model the closing notice sent after a failed write.
- Messages.ResumedExactlyOnce: runs before `Dispose`; each native call fires one callback; the unmanaged key and value memory is not modelled.
- Messages: the list of messages holds values and the queue their places; that the queue holds references to the same objects is in `MessageContainer` only.
- Dispatchers: the `connect` path, replies to unknown ids and `shutdownGracefully`; each reply names an outstanding request once.
- Reconnection: delays are not timed.
- RoundRobin.EveryReplicaOncePerRound: sequential reads whose exchange succeeds, with a fixed set of connected replicas; the heartbeat is not modelled.
- Replies: scalar conversions are abstract readings of values that are not arrays, maps or sets, which the client library never reads as scalars, and the older protocol's text of a double is any text; the table from commands to expected types is not modelled.
- Replies.TransactionShapes: the "only if" leaves out a bare map or set, which the older protocol sends as an array and the code then takes for a list of replies.
- Cluster routing, aggregation policies, scripts, command builders, configuration, logging and foreign-function glue: they would only add easy members.
