# PulseCore: a verified model of the reactor/worker server

PulseCore is a single-reactor TCP server. It decodes binary frames, gives each request a
sequence number on its connection, hands it to worker threads through a bounded queue, and puts
the results, which arrive in any order, back into request order before writing them. The same
repository holds a simple blocking server. The central theorem here is that, in every
interleaving of the reactor and the workers and for every way `recv` and `send` cut the byte
streams, a client is sent a prefix of what the blocking server sends for the same input, and
exactly that when it is let go after a half-close (`Theorems.EpollRefinesBlocking`).

`dafny verify dfyconfig.toml` checks the whole project.

## How it is built

| file | what it holds |
|---|---|
| `Codec.dfy`, `Streams.dfy` | the frame format; the meaning of a whole byte stream (`Parse`), free of buffers and chunks |
| `FrameDecoder.dfy` | the incremental decoder as a class, and all runs of its calls |
| `Handler.dfy` | the request handler with its 64-bit hash loops and work bounds |
| `Connection.dfy` | sockets as oracles; the non-blocking connection as a class |
| `Reading.dfy` | the outcomes of a read are exactly those of its loop over all `recv` results |
| `BlockingServer.dfy` | the blocking server, whose loop is proved to send `BlockingOutput` |
| `Reactor.dfy` | what the reactor owns, as a class whose handlers keep registry, flows and interest set in agreement |
| `Pool.dfy` | the bounded queue and the worker pool as classes |
| `Server.dfy` | the whole server as a step system over labels |
| `Invariants.dfy`, `Preservation.dfy`, `StepInvariants.dfy`, `Reachability.dfy` | what every step keeps, and the proof |
| `Theorems.dfy` | what holds in every reachable state |
| `InputLimit.dfy` | the input limit over runs, in both directions |
| `Progress.dfy` | how connections develop: isolation, finality, the half-close measure |
| `Identity.dfy` | the keys of connections, and what becomes of the one that gets the last id |
| `Draining.dfy` | every schedule with a reading peer ends a half-closed connection, with everything sent |
| `Quiescence.dfy`, `Stopping.dfy` | every schedule of the server's threads comes to rest with every request answered; every schedule of a stopped pool ends with all workers gone and every item answered once |
| `Events.dfy` | a connection event from its report to its end, and the order of results |
| `Scenario.dfy` | the exact causes for cutting a connection off |
| `Conversation.dfy` | runs from the first byte to the last for all batches of requests that fit, finished by the workers in any order |

The parts compose. The connection's methods are proved against `ReadOutcome`, `WriteOutcome` and
`Queued`; the reactor's methods against `Remove`, `UpdatedInterest`, `Flush`, `Complete`,
`Conclude`, `Accept` and `RemoveAll`. The step system is built from these same predicates and
functions, and the agreement of the three maps that each reactor method keeps (`Coherent`) is part
of the invariant of the step system. A label carries what the environment decides (which thread
runs, what a call transfers, which sleeper a notification wakes, in which order a hash map yields
its keys), and a label that the present state does not allow changes nothing, so
`Execute(cfg, labels)` over all label sequences is every run there is. `Reading.ReadOutcomeIsExact`
says that a read step exists exactly if the loop of the source has a read that comes to it, so the
statements that some run exists do not rest on reads the server does not have.

The steps are as fine as the shared accesses of the source. A push, its `notify_one` and the
increment of the request counter are three steps (src/network/epoll_echo_server.cpp:536-539,
include/pulsecore/core/bounded_queue.hpp:25-36), so a worker may finish a request that the counter
does not cover yet. Each read of the eventfd and the swap of the deque are separate steps. A worker
pops, computes, stores its result and writes the counter in four steps, may wake spuriously, and
sleeps only when it found the queue open and empty. Events may be stale.

Two statements of the documentation differ from the code, and the model follows the code.
docs/protocol.md:56 speaks of matching responses by request id rather than by completion order,
while the server always restores request order (as docs/architecture.md:70 says). docs/protocol.md:49-50
names two reasons to reject a work request and leaves out the third, the cap on iterations times
seed length, which docs/adr/ADR-010-deterministic-work-request.md:17 has.

Three properties hold only under a condition. A connection key avoids the keys reserved for the
listener, the wake-up and the shutdown signal if and only if it is not the very last id that the
registry's guard lets through; that id is the shutdown key (`Identity.LiveKeys`), some run of
every configuration gives it out (`Identity.ShutdownKeyIsGivenOut`), and the connection that gets it
is never read from or written to (`Identity.LastIdIsNeverServed`). Closing all connections can
come to an end if and only if every flow has a connection (`Reactors.ClosingEndsIff`); that the two
maps always have the same keys is what makes the shutdown end in every run (`Theorems.ClosingEnds`).
A well-formed frame is decoded only if it fits in the input buffer, and one that does not fit is
never got past (`InputLimits.InputLimitIsExact`, `InputLimits.OversizedIsNeverServed`).

## Model

| member | source | states |
|---|---|---|
| `Codec.ReadWrite` | src/protocol/codec.cpp:10-54 | at every width, reading a big-endian field that was written gives the value back |
| `Codec.WriteRead` | src/protocol/codec.cpp:10-54 | at every width, writing a field that was read gives the same bytes |
| `Codec.DecodeEncode` | src/protocol/codec.cpp:104-172 | decoding an encoded message followed by any bytes gives the message and consumes exactly its encoding |
| `Codec.EncodeDecode` | src/protocol/codec.cpp:104-172 | whenever decoding consumes some bytes, encoding the decoded message gives exactly those bytes |
| `Codec.ByteAt` | src/protocol/codec.cpp:10-31 | byte i of a field of n bytes is the value divided by 256^(n-1-i), modulo 256, at every width |
| `Codec.WireFormat` | src/protocol/codec.cpp:85-125 | in plain numbers: exactly the messages of types 1 to 5 with at most 65536 bytes have a frame, and every byte of it is given |
| `Codec.GoldenFrame` | tests/unit/protocol_codec_test.cpp:55-74 | the golden frame of an echo request, encoded and decoded |
| `Codec.VerdictIsStable` | src/protocol/codec.cpp:127-172 | a Decoded or Error verdict does not change when bytes are appended; the size-overflow verdict never occurs |
| `Streams.RejectsExactlyNonFrames` | src/protocol/codec.cpp:127-172 | a head shorter than a header is never judged; a complete header is rejected if and only if no frame begins with the bytes and they begin with no frame; each error is reported if and only if its field is the first at which the bytes leave the format |
| `Streams.ParseAppend` | src/protocol/codec.cpp:127-186 | the meaning of a stream does not depend on where it is cut |
| `Streams.ParseStops` | src/protocol/codec.cpp:127-186 | what a parse leaves over yields no further frame, and its error if it has one |
| `Streams.ParseEncodeAll` | src/protocol/codec.cpp:104-186 | the frames of any encodable messages parse back to these messages, followed by what comes behind |
| `Streams.EncodeAllParse` | src/protocol/codec.cpp:104-186 | every stream is exactly the frames of its messages followed by its leftover |
| `FrameDecoding.Store.Compacted` | src/protocol/codec.cpp:192-207 | compaction keeps the unread bytes, establishes the storage bound, and is lazy: the storage is left alone if and only if nothing was read or the dead prefix plus one is shorter than the live part |
| `FrameDecoding.Store.Appended` | src/protocol/codec.cpp:174-176 | appending adds to the unread bytes and keeps the storage bound |
| `FrameDecoding.Store.Advanced` | src/protocol/codec.cpp:178-186 | `Next` takes exactly the decoded frame from the unread bytes, or nothing |
| `FrameDecoding.FrameDecoder.Append` | src/protocol/codec.cpp:174-176 | the mutable decoder does what `Store.Appended` says |
| `FrameDecoding.FrameDecoder.Next` | src/protocol/codec.cpp:178-186 | the verdict is that of the unread bytes, the new state that of `Store.Advanced` |
| `FrameDecoding.FrameDecoder.CompactIfNeeded` | src/protocol/codec.cpp:192-207 | the in-place compaction does what `Store.Compacted` says |
| `FrameDecoding.FrameDecoder.BufferedSize` | src/protocol/codec.cpp:188-190 | the number of unread bytes |
| `FrameDecoding.ChunkIndependence` | src/protocol/codec.cpp:174-190 | after any sequence of `Append` and `Next`, the messages returned are the first of the whole stream, and the next verdict is fixed by the stream and their number |
| `FrameDecoding.ErrorRepeats` | src/protocol/codec.cpp:178-186 | an error is reported for ever, with no message in between, whatever is appended |
| `FrameDecoding.ConsumedIsEncoded` | src/protocol/codec.cpp:174-190 | the bytes fed are the frames of the messages returned followed by the unread bytes |
| `FrameDecoding.CompactionBounds` | src/protocol/codec.cpp:174-207 | in every reachable state the offset is zero or the storage less than twice the unread part; all bytes that calls really moved are at most those consumed plus the number of moves |
| `Handling.WordsAre` | src/core/handler.cpp:73-79 | the operations of a round on 64-bit words, written out: the round number and a byte widened, the prime, the shift by 32 |
| `Handling.RoundLaw` | src/core/handler.cpp:71-80 | the hash starts from the literal offset, and each round mixes in its own number, then the seed, and folds |
| `Handling.SeedLaw` | src/core/handler.cpp:75-78 | each byte of the seed is mixed in by exclusive or and multiplication |
| `Handling.GoldenDigest` | tests/unit/handler_test.cpp:30-43 | three iterations over the seed AA BB give A2 89 7E 00 44 62 2F 90 |
| `Handling.DigestInjective` | src/core/handler.cpp:82-85 | different hashes have different digests |
| `Handling.MixBijective` | src/core/handler.cpp:73-78 | exclusive-or and multiplication modulo 2^64 have a two-sided inverse |
| `Handling.FoldInvolutive` | src/core/handler.cpp:79-79 | folding the high half into the low half undoes itself |
| `Handling.RoundBijective` | src/core/handler.cpp:72-80 | each round is a bijection on 64-bit words for every seed and round number |
| `Handling.HashSeparates` | src/core/handler.cpp:71-80 | after one round, seeds of equal length with the same hash cannot differ in one byte only |
| `Handling.DigestSeparates` | src/core/handler.cpp:49-97 | with one iteration, requests whose seeds differ in exactly one byte get different digests |
| `Handling.AcceptsWorkIff` | src/core/handler.cpp:55-69 | for every payload: the overflow-free tests accept exactly those of at least four bytes whose prefix, written out, is at most 1000000 and, times the seed length or one for an empty seed, at most 67108864 |
| `Handling.ComputeWorkResponsePayload` | src/core/handler.cpp:49-86 | the nested loops compute the digest of the specification with exactly iterations times one plus seed length multiplications, at most iterations plus 2^26, and none for a rejected request |
| `Handling.WorkPayloadRoundTrip` | src/core/handler.cpp:90-97 | the payload encoding of a work request, byte by byte, and that it gives iterations and seed back |
| `Handling.WorkRequestAnswer` | src/core/handler.cpp:90-123 | an encoded work request is answered by its digest exactly within the bounds, else by the error response |
| `Handling.Replies` | src/core/handler.cpp:107-135 | every reply, by type number and exact error text: echo, digest, rejected work, unexpected response, unknown type, and the worker's answer for a handler that throws |
| `Handling.ResponsesAreEncodable` | src/core/handler.cpp:99-135 | every decodable request, and every one whose handler throws, is answered under its own id by an encodable message; echo by the same payload, work by a digest if and only if acceptable, all others by an error |
| `Sockets.Socket.Recv` | src/network/connection.cpp:144-165 | the oracle: some of the incoming bytes, finitely many interruptions, would-block, closed |
| `Sockets.Socket.Send` | src/network/connection.cpp:233-255 | the oracle: a non-empty prefix is taken, finitely many interruptions, would-block, closed |
| `Connections.Connection.DrainDecoder` | src/network/connection.cpp:267-281 | takes out exactly the messages that the unread bytes parse to, leaves the leftover, returns the error |
| `Connections.Connection.SendChunk` | src/network/connection.cpp:230-259 | one `send` of the pending bytes within the budget |
| `Connections.Connection.ReceiveChunk` | src/network/connection.cpp:141-169 | one `recv` within the budget and the space left in the input buffer |
| `Connections.Connection.ReadAvailable` | src/network/connection.cpp:121-171 | stays in budget and buffer limit, returns what the stream parses to, all from frames that fit in the buffer, is rejected if and only if the stream holds an error or the unfinished head filled the buffer; over any run of calls the messages are the first ones of all bytes received; by the recorded `recv` calls, the peer is reported closed if and only if the last call found it so, blocked if and only if the last call would block and nothing came of the read, and each call asked for the least of 4096, budget and space left |
| `Connections.Connection.QueueOutput` | src/network/connection.cpp:173-198 | accepts exactly messages of types 1 to 5 with at most 65536 bytes whose frame fits; a rejected one changes nothing pending; sent and pending bytes are always the frames of the accepted messages, storage within the limit |
| `Connections.Connection.CompactOutputBuffer` | src/network/connection.cpp:200-214 | keeps the pending bytes and drops the sent prefix |
| `Connections.Connection.WriteAvailable` | src/network/connection.cpp:216-265 | sends a prefix of the pending bytes within budget; ends Ok only when all is sent or the budget is used up; conserves the output stream; by the recorded `send` calls, reports the peer gone or the write blocked if and only if the last call found it so, and each call offered all that budget and output allowed |
| `Reading.ReadOutcomeIsExact` | src/network/connection.cpp:121-171 | what a read may come to is exactly what its loop comes to for some sequence of `recv` results: every outcome the step system uses is a read of the server, and every read is such an outcome |
| `Connections.BufferedFit` | src/network/connection.cpp:136-143 | a buffer within the limit holds only frames within the limit |
| `Connections.LimitRejection` | src/network/connection.cpp:136-139 | a read is rejected without a stream error only if the frame at the head cannot fit, and never under a limit of header plus maximum payload |
| `Connections.WellFormedPrefix` | src/network/connection.cpp:121-171 | a prefix of well-formed frames parses without error to the first messages, and what is left is a proper part of the next frame |
| `Connections.PrefixOfFrames` | src/network/connection.cpp:121-171 | a prefix of well-formed fitting frames parses without error to the first messages and a leftover below the limit |
| `Connections.FittingStreamsAreNeverRejected` | src/network/connection.cpp:121-171 | a client that sends well-formed fitting frames is never rejected, however its bytes are cut into reads |
| `Connections.EmptyBufferAccepts` | src/network/connection.cpp:173-198 | under the default limit an empty output buffer takes every encodable message |
| `Blocking.SendAll` | src/network/blocking_tcp.cpp:99-125 | all bytes are sent, in order, through any partial sends |
| `Blocking.SendMessage` | src/network/blocking_tcp.cpp:204-210 | sends exactly the frame of the message; throws, with nothing sent, if and only if it has none |
| `Blocking.ReadMessage` | src/network/blocking_tcp.cpp:212-240 | returns the next message of the stream still to come, or its error, or its end, the latter if and only if the last `recv` found it; asks for 4096 bytes each time |
| `Blocking.ServeClient` | src/network/blocking_tcp.cpp:127-140 | over a whole conversation the client is sent exactly the frames of the responses to the parse of its input |
| `Blocking.BlockingOutputMonotone` | src/network/blocking_tcp.cpp:127-140 | more input only adds responses at the end |
| `Reactors.Reactor.RemoveConnection` | src/network/epoll_echo_server.cpp:605-626 | takes the connection out of all three maps and nothing else; the maps agree afterwards even if the interest of this connection was out of date; changes nothing if the registry lacks it; a connection without a flow counts as registered |
| `Reactors.Reactor.UpdateInterest` | src/network/epoll_echo_server.cpp:578-603 | whatever the interest was before, it is afterwards what the connection's state calls for and all maps agree; no other connection and no buffer changes |
| `Reactors.Reactor.FlushReadyResponses` | src/network/epoll_echo_server.cpp:545-576 | if the connection stays, the frames of the unbroken run of completed responses were added to its output, these alone left the reorder map, and the next one is missing; it stays if and only if no response was refused and it is not a half-closed client that has been sent everything; the maps agree, no other connection changes |
| `Reactors.FlushLoopRun` | src/network/epoll_echo_server.cpp:548-561 | the flush loop, said without a loop: an unbroken run of responses that have frames is queued in order, ending at the first gap or at a response that cannot be queued |
| `Reactors.Reactor.HandleCompletedWork` | src/network/epoll_echo_server.cpp:501-515 | a result is kept by its sequence, without replacing one that is there, and the flush follows; it changes at most its own connection and leaves the maps in agreement; for an unknown connection it changes nothing |
| `Reactors.Reactor.ConcludeConnectionEvent` | src/network/epoll_echo_server.cpp:415-439 | the connection ends if and only if the read was rejected, the peer was gone, or a half-closed client has been sent everything; if it stays, it is half-closed exactly if it was or the peer closed, exactly the sent bytes left its output, and it is not due for closing; the maps agree, no other connection changes |
| `Reactors.SettleCoheres` | src/network/epoll_echo_server.cpp:429-439 | however a handler settles its connection, all maps agree again, a removed connection is in none of them, and no other connection changes |
| `Reactors.Reactor.CloseAllConnections` | src/network/epoll_echo_server.cpp:628-632 | ends whatever order the hash map yields, and leaves all three maps empty |
| `Reactors.StrandedFlow` | src/network/epoll_echo_server.cpp:605-632 | a flow without a connection survives any number of removals |
| `Reactors.ClosingEndsIff` | src/network/epoll_echo_server.cpp:605-632 | closing can come to an end if and only if every flow has a connection |
| `Reactors.ClosingEmpties` | src/network/epoll_echo_server.cpp:628-632 | removals in any order keep the maps in agreement, and when the flows have run out all three maps are empty |
| `Reactors.Reactor.AcceptOne` | src/network/epoll_echo_server.cpp:361-385 | turned away at the limit, out of ids at 2^64-1, registered under the next id and fresh, or taken back out of both maps, its id spent, when epoll refuses, each exactly when the source does so; the maps agree, old connections are untouched, the limit holds |
| `Reactors.Reactor.HandleListenerEvent` | src/network/epoll_echo_server.cpp:355-387 | accepts in order, at most 64 sockets, and stops early exactly at the first socket that throws; the maps agree, old connections are untouched, the limit holds |
| `Reactors.IdsAndReservedKeys` | src/network/connection_registry.cpp:11-31 | over any number of accepts ids strictly increase, new connections have new ids, old ones are untouched, and a key is a reserved one if and only if it is the shutdown key |
| `Pools.BoundedQueue.TryPush` | include/pulsecore/core/bounded_queue.hpp:25-36 | accepts if and only if open and below capacity; accepted items are popped items followed by queued ones |
| `Pools.BoundedQueue.Pop` | include/pulsecore/core/bounded_queue.hpp:38-49 | returns the oldest item; a closed queue is emptied before it reports its end |
| `Pools.BoundedQueue.Close` | include/pulsecore/core/bounded_queue.hpp:51-57 | the queue is closed and keeps its items |
| `Pools.WorkerPool.TrySubmit` | src/network/worker_pool.cpp:57-59 | accepts if and only if the queue is open and has room |
| `Pools.WorkerPool.Stop` | src/network/worker_pool.cpp:61-92 | every item still queued is answered exactly once, in order, under its own connection and sequence, by the handler or the error response |
| `Invariants.WorkerMovesWork` | src/network/worker_pool.cpp:74-92 | no step of a worker makes, loses or duplicates work |
| `Preservation.FlushLoopOk` | src/network/epoll_echo_server.cpp:545-561 | the flush loop keeps sent plus pending bytes equal to the first responses and stops only at a gap or a refusal |
| `Reachability.StepInv` | src/network/epoll_echo_server.cpp:355-662 | every step of every thread keeps the invariant of streams, conservation, interest, wake-ups, sleep and queue |
| `Reachability.Reachable` | src/network/epoll_echo_server.cpp:291-662 | the invariant holds after every sequence of steps |
| `Theorems.SentIsPrefixOfResponses` | src/network/epoll_echo_server.cpp:389-570 | in every run a connection was sent a prefix of the responses to its parsed input in request order; while it lives, sent plus pending bytes are the responses to its first requests; if drained, it was sent all of them |
| `Theorems.EpollRefinesBlocking` | src/network/epoll_echo_server.cpp:389-570 | with the default handler the bytes sent are a prefix of what the blocking server sends for the same or any longer input, and equal to it for a drained connection |
| `Theorems.FittingClientIsHeard` | src/network/connection.cpp:121-171 | in no run is a read of a client that sends well-formed fitting frames rejected |
| `InputLimits.InputLimitIsExact` | src/network/connection.cpp:121-171 | in every run all requests ever decoded fit in the input buffer, the leftover does too, and a read is rejected without a stream error only if the frame at the head cannot fit |
| `InputLimits.OversizedIsNeverServed` | src/network/connection.cpp:136-143 | in every run a client that sends well-formed frames is decoded only up to its first frame that does not fit, of which at most a buffer is taken, and is rejected only there |
| `Theorems.Conservation` | src/network/epoll_echo_server.cpp:465-570 | the right answer to each unanswered submitted request of a live connection is in exactly one of queue, worker, completion deque, batch or reorder map; nothing else for it is anywhere; nothing is ever duplicated |
| `Theorems.NoLostWakeup` | src/network/epoll_echo_server.cpp:442-474 | stored results imply a positive counter, a worker about to write it, or a reactor on its way to the deque; every write of the counter, by a worker or a request to stop, adds one unless it is at 2^64-2 |
| `Theorems.NoWorkerOversleeps` | include/pulsecore/core/bounded_queue.hpp:25-57 | while a worker sleeps, the queued items are covered by owed notifications and woken workers, and a closed queue by an owed broadcast |
| `Theorems.QuietMeansAnswered` | src/network/epoll_echo_server.cpp:442-570 | when nothing is signalled, queued or worked on, every request received from a live connection has been answered |
| `Theorems.InterestAgrees` | src/network/epoll_echo_server.cpp:545-603 | registry and flows have the same keys; registration equals membership; read interest iff not half-closed; write interest iff output is pending; an unregistered connection's next response is under way |
| `Theorems.ClosingEnds` | src/network/epoll_echo_server.cpp:326-332 | in every run, closing all connections can come to an end, and whatever the order all three maps are empty then |
| `Theorems.ResourceBounds` | src/network/epoll_echo_server.cpp:355-387 | bounds on live connections, queue, in-flight requests, reorder map (limit minus one, keys above the next response) and both buffers in every reachable state |
| `Theorems.PoolDeliversExactlyOnce` | src/network/worker_pool.cpp:57-92 | accepted items are popped ones followed by queued ones; popped ones are published or in hand; once all workers left, the results are those of the accepted items as a multiset |
| `Events.EventInFull` | src/network/epoll_echo_server.cpp:389-440 | in every run and however the workers interleave, an event without error reads exactly if it is readable and the client is not half-closed, and exactly if it is writable and the read was not rejected adds the first n pending bytes to what was sent, all of them or the whole budget if the write is well; it half-closes, and it removes the connection, exactly when the source does |
| `Events.EventMayEnd` | src/network/epoll_echo_server.cpp:422-427 | the event can end in exactly the ways that `send` allows |
| `Events.OrphanIsRemoved` | src/network/epoll_echo_server.cpp:395-399 | an event for a connection without a flow removes the connection from everything and touches nothing else |
| `Events.ResultsKeepTheirOrder` | src/network/epoll_echo_server.cpp:465-473 | in every run results reach the reactor in the order in which the workers published them |
| `Progress.Isolation` | src/network/epoll_echo_server.cpp:501-515 | apart from shutdown, a step changes no connection but the one it is about |
| `Progress.GoneSubject` | src/network/epoll_echo_server.cpp:389-515 | an event or a result for a connection that is gone changes no connection at all |
| `Progress.EndedIsFinal` | src/network/connection_registry.cpp:11-51 | an ended id is never used again and its past is final in every continuation of every run |
| `Progress.EmplaceNeverCollides` | src/network/epoll_echo_server.cpp:513-513 | in no run does a result meet an entry of its sequence in the reorder map |
| `Progress.HalfCloseDrains` | src/network/epoll_echo_server.cpp:408-576 | a half-closed connection's lexicographic measure is positive, never rises, and falls with each result and each accepted byte until removal; removed by draining it was sent everything |
| `Stopping.EveryStopDelivers` | src/network/worker_pool.cpp:61-92 | once the queue is closed, every schedule of workers and broadcast has boundedly many steps, none is left if and only if all workers have left and no broadcast is owed, and then the results are those of the accepted items as a multiset |
| `Stopping.StopComesToItsEnd` | src/network/worker_pool.cpp:61-68 | from every state with a stopped or failed reactor, closing, the broadcast and the workers' steps lead to all workers gone and every item answered once |
| `Quiescence.EveryStepLightens` | src/network/epoll_echo_server.cpp:442-570 | every step that a thread of a running server takes by itself lowers the bound on the steps left |
| `Quiescence.QuietIffAtRest` | src/network/epoll_echo_server.cpp:442-570 | a running server is quiet if and only if no thread of it has a step to take |
| `Quiescence.EveryScheduleQuiesces` | src/network/epoll_echo_server.cpp:291-570 | from every reachable state, every schedule of the threads has boundedly many steps, and where none is left every request received from every remaining connection has been answered |
| `Quiescence.CanAlwaysQuiesce` | src/network/epoll_echo_server.cpp:291-570 | in particular the threads can come to rest without the network |
| `Draining.HalfCloseStays` | src/network/epoll_echo_server.cpp:408-440 | once half-closed, a connection stays half-closed while it lives |
| `Draining.ResultIsQueued` | src/network/epoll_echo_server.cpp:545-561 | in every reachable state, a result of a connection whose responses left fit in the output buffer is queued and never costs the connection |
| `Draining.EveryDrainEnds` | src/network/epoll_echo_server.cpp:408-576 | however the server's threads and the writes to a peer that reads are scheduled, a half-closed connection is gone after at most the weight of the state plus twice the bytes left steps, with all its responses sent if it was let go |
| `Draining.EveryDrainDelivers` | src/network/epoll_echo_server.cpp:408-576 | if moreover its responses left fit in the output buffer and no write finds the peer gone, then under every such schedule it is sent all of them and let go |
| `Draining.HalfClosedCanFinish` | src/network/epoll_echo_server.cpp:408-576 | in particular such a schedule exists from every reachable state, first without the network and then with writes only |
| `Scenario.FlushStopsForCause` | src/network/epoll_echo_server.cpp:548-561 | the flush fails if and only if it stops at a response that cannot be queued |
| `Scenario.CutOffForCause` | src/network/epoll_echo_server.cpp:389-440 | a live connection is cut off by a step if and only if there is a cause: shutdown, error event, in-flight or queue limit, rejected read, dead peer, response without room |
| `Scenario.ResponsesHaveFrames` | src/network/epoll_echo_server.cpp:554-557 | with the default handler queueing a response fails if and only if there is no room, and never on an empty buffer under the default limit |
| `Identity.LiveKeys` | src/network/epoll_echo_server.cpp:27-29 | in every run a live connection's key is a reserved one if and only if it is the shutdown key |
| `Identity.ShutdownKeyIsGivenOut` | src/network/connection_registry.cpp:16-23 | some run of every configuration gives a live connection the shutdown key |
| `Identity.LastIdIsNeverServed` | src/network/epoll_echo_server.cpp:308-323 | in every run the connection with the shutdown key, while it lives, has been read nothing from and sent nothing, because its events go to the signal handling |
| `Conversation.ServedInFull` | src/network/epoll_echo_server.cpp:355-570 | whenever the server is quiet and has room, there is a run in which a new client sends any number of batches of requests within the buffer, in-flight, queue and worker limits, the workers finish each batch in any given order, the client is sent all responses in request order whatever the budgets, and is let go after its half-close |
| `Conversation.EveryRequestCanBeServed` | src/network/connection.cpp:121-265 | under the default handler and limits every request that has a frame, the largest included, can be served in full from the start |

## Left out

- `SubmitWork`, `HandleConnectionEvent`, `HandleWorkerWakeup` and `Run` are steps of the step system, not methods, because steps of the workers fall between their parts; the class `Reactor` has the uninterrupted pieces.
- Reactors.Reactor: holds connections as values (unread input, pending output) in its `connections` field, which stands for the registry; references to connections and their aliasing are not modelled. The decoder and output storage behind these values are in the class `Connection`.
- Pools.WorkerPool.Stop: runs one worker to the end of the queue; several workers, their interleaving, the blocking wait of `Pop` and the `join` of all of them are in the step system (`Theorems.PoolDeliversExactlyOnce`, `Stopping.EveryStopDelivers`).
- Sequence numbers are unbounded naturals: a wrap-around after 2^64 requests on one connection is not modelled.
- Creation of sockets, epoll, eventfd and signalfd, errno translation, `fcntl`, the listening socket and the check of the registry for an invalid descriptor.
- Unexpected failures of system calls that throw, except the refused registration of a new connection, which is modelled.
- Signals and signal masks: a shutdown is one step that may happen between any two events, and the batch of events already reported is not remembered, since events may be stale anyway.
- Draining at shutdown, which docs/adr/ADR-006-graceful-shutdown-signal-path.md:32 does not promise.
- Custom handlers: the theorems hold for an arbitrary total function from requests to responses, and the refinement is stated for the default handler; a handler with state is not modelled.
- Shutdown signals are taken to be configured. Without them an event with the shutdown key makes the reactor read a descriptor it does not have, which throws (src/network/epoll_echo_server.cpp:476-499).
- The digest is not claimed to be FNV: its offset is not the usual 64-bit offset basis.
- C++ memory ordering and the inside of mutexes: each locked region is one step.
- `UniqueFd`, the client helper functions, command-line parsing, printing and the benchmark with its floating-point figures, which would only add easy members.
