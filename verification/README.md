# Verification of the duplex RPC connection and the agent's reconciler

This project models two cores of the repository in Dafny and proves properties of the
models.

- **The RPC connection** (`protocol/pkg/protocol`, `protocol/pkg/protocolserver`). One
  byte stream carries commands and responses in both directions. Senders, handlers and
  the reader's error replies share it through a write lock; handlers finish in any
  order; requests time out, are cancelled, or outlive the connection. A supervisor swaps
  outbound connections while old retry loops still run.
- **The reconciler** (`agent/internal/agent`, `agent/internal/runtime`). A control loop
  drives a host's containers to a desired list while any of its operations may fail.

A small third part is the round-robin endpoint picker (`server/internal/cluster`).

Verify everything with `dafny verify dfyconfig.toml`.

## How it is built

| file | what it holds |
|---|---|
| `Runs` | options, runs of step functions, small sequence facts |
| `Wire` | the wire format on values: integers, messages, commands, responses, frames, and what a receiver makes of a frame |
| `Codec`, `Frames` | the encoders and decoders on arrays, in place, and the loops that write and read frames in short chunks |
| `Pools`, `PoolsKeep`, `Receiving` | ownership of pooled buffers over all interleavings, and that none leaks; `handleMessage`, `handleCommand` and `writeResponse` in memory |
| `Line`, `Failures`, `Connections` | one direction of a connection: `writeFrame` and `close` as a transition system, why it fails and closes, and the connection object's statements tied to it |
| `Duplex`, `DuplexInv`, `Requests` | two peers over two Lines, the invariant, and the pending map with its counter as a class tied to the steps |
| `History`, `Correlation`, `Delivery`, `Outcomes` | what every run of the two peers guarantees: whose answer a call gets, that no frame is lost, and why calls and readers end as they do |
| `WellFormed`, `Wraparound` | runs without malformed frames, and that the bounds on the number of commands are tight |
| `Exhaust`, `Progress` | that runs are finite, and that writers and calls come to an end by steps of their own |
| `Outbound`, `OutboundInv`, `OutboundRuns`, `OutboundServer` | the outbound supervisor as a transition system, its invariants, what connecting, disconnecting and reconnecting achieve, and the Server's critical sections as a class tied to its steps |
| `Task`, `Ports`, `Docker`, `Reconcile` | `CompareTo`, port maps, the runtime's effects on a world of containers, and the reconciler's loops, each method proved to compute a function of the old world |
| `Convergence`, `Stability` | what one pass and many passes achieve |
| `RoundRobin` | the picker and its fairness |

Three transition systems carry the concurrency. Their steps are the critical sections,
blocking points and system calls of the source:

- `Line.Step`: `connection.go:43-98`, one step per lock operation, context check, deadline
  call, socket write, callback action, and statement of `close`, and one each for a
  deadline that passes and a network that fails. No write succeeds after the deadline, and
  none fails on an open socket without one of the two.
- `Duplex.Step`: `server.go:226-466`, one step per registration, network step, frame read,
  table lookup, channel send, channel receive, return, cleanup, and handler action. An
  endpoint sees nothing of its peer but the bytes the peer's socket has accepted.
- `Outbound.Step`: `server.go:91-222`, one step per dial, critical section, close, and
  decision of a loop.

`Pools.Step` adds the pool operations of `handleMessage` and `writeResponse`.

### Assumptions

- Connection IDs are unique: connections are numbered and no number is used twice.
- `Execute` returns a response or an error reply, never nil; its result is arbitrary.
- A frame has at most 512 MiB, so its length fits in 32 bits; `int` has 64 bits.
- Contexts end, timers fire, writes and reads are cut short, and the network fails, all at
  arbitrary moments.
- Clearing the write deadline of an open socket succeeds (its result is ignored in the
  source). Setting one may fail in `Line`; in `Connections` only a closed socket refuses it.
- Where a theorem says so, fewer than 2^32 commands were registered on its side.
- In the reconciler: only the agent changes containers during a pass, and the registry
  does not change. Desired names are distinct where a theorem says so.
- Docker: stop leaves a running or paused container exited and is harmless otherwise;
  remove works on created and exited containers; start works on created, exited and
  running ones. Which states a plain container listing shows, what an image adds to a
  container's environment and command, the daemon's own validation of a configuration,
  and the conversion of cores to NanoCPUs and back are parameters about which nothing is
  assumed.

### Results that differ from the documentation

- `EncodeCommandInto` writes no database name although its comment lists one (`protocol.go:161-162`);
  the model follows the code.
- A connection that ends right after a length prefix is reported as closed by the client,
  like one that ends between frames (`Frames.ReadFrameInto`).
- Request correlation needs its bound: it holds in all runs with n commands exactly if n is
  below 2^32 (`Wraparound.BoundIsTight`), and in all runs without malformed frames exactly
  if n is at most 2^32 (`Wraparound.CleanBoundIsTight`).
- `CompareTo` compares port maps as equal exactly when no desired host port is empty
  (`Task.PortsTestIsEqualityExactly`), and is transitive exactly then
  (`Task.TransitiveExactly`).
- Convergence has exact conditions (`Convergence.StepConvergesExactly`). A paused container
  that already matches, for instance, is never resumed, since starting it fails.
- A configuration with a host port under a key that is not canonical, with two keys for one
  port, whose memory does not fit, or whose CPU value changes in conversion is never
  accepted, and its container is made anew in every pass in which nothing fails for it
  (`Stability.ChurnsForever`).
- Retrying does not always help. A task gets well exactly from the stated containers and
  configurations, and otherwise never does (`Stability.TaskHealsExactly`, `Stability.FaultsHeal`).
- A removal that fails after its stop is made good exactly if exited containers are listed
  (`Stability.FailedRemovalIsFinal`).
- The round-robin counter is shared by all ports of a service, so calls for one port are
  spread evenly exactly if the caller's pattern is level (`RoundRobin.FairExactly`); calls
  for two ports in turn can starve an endpoint (`RoundRobin.SharedCounterStarves`).

## Model

| member | source | states |
|---|---|---|
| Wire.MessageRoundTrip | protocol/pkg/protocol/protocol.go:78-151 | decoding an encoded message, whatever bytes follow, gives it back exactly when it has version 1, a known type and a non-empty payload |
| Wire.MessageCanonical | protocol/pkg/protocol/protocol.go:78-117 | whatever the message decoder accepts is valid and re-encodes to exactly the bytes it consumed |
| Wire.MessageIgnoresTrailing | protocol/pkg/protocol/protocol.go:106-114 | bytes after the payload never change what is decoded |
| Wire.MessageLayout | protocol/pkg/protocol/protocol.go:71-148 | an encoded message is 0x67, version, flags, type, the payload's length as four bytes from the most significant, and the payload |
| Wire.MessageErrorsExactly | protocol/pkg/protocol/protocol.go:78-117 | for every input, which error the decoder gives, in the source's order of checks, or that it accepts, and then what it takes from where |
| Wire.CommandRoundTrip | protocol/pkg/protocol/protocol.go:165-219 | decoding an encoded command of encodable size gives it back, whatever follows |
| Wire.CommandCanonical | protocol/pkg/protocol/protocol.go:197-219 | a body decodes as a command exactly when it starts with some encoded command, and then with the one decoded |
| Wire.CommandLayout | protocol/pkg/protocol/protocol.go:165-189 | an encoded command is its request ID in four bytes, command ID in two, the payload's length in four, and the payload |
| Wire.BodyErrorsExactly | protocol/pkg/protocol/protocol.go:197-290 | commands and responses are refused exactly if they are shorter than their header or than what it announces, and always as too short |
| Wire.ResponseRoundTrip | protocol/pkg/protocol/protocol.go:235-290 | the same round trip for responses |
| Wire.ResponseCanonical | protocol/pkg/protocol/protocol.go:267-290 | the same canonicity for responses |
| Wire.ResponseLayout | protocol/pkg/protocol/protocol.go:235-259 | an encoded response is its request ID in four bytes, status in two, the payload's length in four, and the payload |
| Wire.ArrivedFramed | protocol/pkg/protocol/protocol.go:22-44 | a whole frame of legal size at the head of the stream is what the reader finds, whatever follows |
| Wire.ArrivedPartial | protocol/pkg/protocol/protocol.go:22-44 | a torn frame is found to be incomplete, never a frame nor a bad length |
| Wire.FrameLayout | protocol/pkg/protocol/protocol.go:53-57 | a frame on the connection is its length in four bytes, then its bytes |
| Wire.ArrivesExactly | protocol/pkg/protocol/protocol.go:22-44 | a length is illegal exactly if it is 0 or above 512 MiB, which is judged before the bytes are there, and a whole frame is the bytes it announces |
| Wire.CommandArrives | protocol/pkg/protocolserver/server.go:252-273 | a command frame is received as exactly the command that was sent |
| Wire.ResponseArrives | protocol/pkg/protocolserver/server.go:252-275 | a response frame is received as exactly the response that was sent |
| Wire.RunsExactly | protocol/pkg/protocolserver/server.go:252-273 | a frame is run as a command exactly if it holds a command message with that body, whatever its flags and what follows |
| Wire.RespondsExactly | protocol/pkg/protocolserver/server.go:252-275 | a frame counts as a response exactly if it holds a response message whose body starts with that encoded response |
| Wire.MalformedSays | protocol/pkg/protocolserver/server.go:252-283 | what is answered to a frame that is not understood, from its bytes |
| Wire.ErrorReplyLayout | protocol/pkg/protocolserver/server.go:254-257 | an error reply is request ID 0, status 400 and the text, byte by byte |
| Codec.PutUint16 | protocol/pkg/protocol/protocol.go:181-182 | two bytes of an array become the big-endian value, no other byte changes |
| Codec.PutUint32 | protocol/pkg/protocol/protocol.go:147 | four bytes of an array become the big-endian value, no other byte changes |
| Codec.GetUint16 | protocol/pkg/protocol/protocol.go:208 | reads the first two bytes of a slice as the wire format defines them |
| Codec.GetUint32 | protocol/pkg/protocol/protocol.go:106 | reads the first four bytes of a slice as the wire format defines them |
| Codec.Sized | protocol/pkg/protocol/protocol.go:137-141 | the target's own memory when its capacity suffices, fresh memory of exactly the length otherwise |
| Codec.Copy | protocol/pkg/protocol/protocol.go:148 | copies the source as it was before, even if the two overlap |
| Codec.EncodeMessageInto | protocol/pkg/protocol/protocol.go:132-151 | whatever the target's stale content and capacity, the output is the wire encoding, in place if it fits, and nothing around it changes; if the header overwrites payload bytes still to be copied, it is the encoding of the payload so overwritten |
| Codec.EncodeCommandInto | protocol/pkg/protocol/protocol.go:165-189 | the same for commands |
| Codec.EncodeResponseInto | protocol/pkg/protocol/protocol.go:235-259 | the same for responses |
| Codec.DecodeMessageInto | protocol/pkg/protocol/protocol.go:78-117 | the same outcome and value as the wire format's decoder, error by error; the payload is a window on the input, and stays as it was on an error |
| Codec.DecodeCommandInto | protocol/pkg/protocol/protocol.go:197-219 | the same for command bodies |
| Codec.DecodeResponseInto | protocol/pkg/protocol/protocol.go:267-290 | the same for response bodies |
| Frames.ReadFull | protocol/pkg/protocol/protocol.go:24-41 | however the reads are cut, the target holds the next bytes of the stream and exactly those are consumed, or the stream ended as the outcome says, or some read reported a failure |
| Frames.ReadFrameInto | protocol/pkg/protocol/protocol.go:22-44 | returns the frame at the head of the stream and consumes exactly it; a bad length, an early end and an end that looks like a close are told apart exactly, and a failure is reported only if a read failed; memory is reused or fresh |
| Frames.WriteFrame | protocol/pkg/protocol/protocol.go:53-69 | however short the writes, the whole length-prefixed frame is handed over and nothing else, unless and only unless a write failed or took nothing; then a prefix of it is |
| Frames.ParseFlatten | protocol/pkg/protocol/protocol.go:22-69 | reading back what was written gives the frames, in order, for legal sizes, whatever follows them |
| Frames.ParsedIsPrefix | protocol/pkg/protocol/protocol.go:22-44 | the frames read are, byte for byte, a prefix of any stream |
| Frames.TornTailIsNoFrame | protocol/pkg/protocol/protocol.go:57-68 | a frame cut off by a failed write adds no frame |
| Frames.MalformedFrameIsIsolated | protocol/pkg/protocolserver/server.go:252-283 | a malformed message in a well-formed frame leaves the commands and responses before and after it as if it were absent |
| Frames.ReadAll | protocol/pkg/protocolserver/server.go:217-221 | the receive loop, over one reused buffer, takes exactly the frames of the stream, or a prefix of them only if a read failed |
| Frames.Transfer | protocol/pkg/protocol/protocol.go:22-69 | frames written one after another and read back over any two plans of cuts and failures come out as the first of those frames, in order, and all of them if no write is broken and no read fails |
| Receiving.Pools.GetRequestBuffer | protocol/pkg/protocol/object_pool.go:41-43 | an empty buffer that leaves the pool, or a new one |
| Receiving.Pools.PutRequestBuffer | protocol/pkg/protocol/object_pool.go:45-51 | the buffer is pooled exactly if its capacity is at most 64 KiB |
| Receiving.Pools.GetResponseBuffer | protocol/pkg/protocol/object_pool.go:55-57 | the same for the response pool |
| Receiving.Pools.PutResponseBuffer | protocol/pkg/protocol/object_pool.go:59-65 | the same for the response pool |
| Receiving.Pools.PutMessage | protocol/pkg/protocol/object_pool.go:71-79 | the struct is blank before it is pooled |
| Receiving.WriteResponse | protocol/pkg/protocolserver/server.go:344-368 | the connection gets the response's frame, whole unless and only unless a write was broken, whatever the pooled buffers held; the pools gain only what was theirs or new and lose no message struct and no buffer but those too small |
| Receiving.Dispatch | protocol/pkg/protocolserver/server.go:251-283 | the outcome is what the frame means, and its payload is in fresh memory |
| Receiving.Complain | protocol/pkg/protocolserver/server.go:254-257 | an error reply with ID 0 and status 400 goes out, whole unless and only unless a write was broken |
| Receiving.HandleMessage | protocol/pkg/protocolserver/server.go:226-284 | consumes one frame, delivers what it means or replies to it, and leaves behind no payload that shares memory with a pooled buffer; closes exactly for an incomplete frame, an invalid length (after replying), a failed read, or a reply that could not be written; what it took from the pools is back there, unless it was too small |
| Receiving.HandleCommand | protocol/pkg/protocolserver/server.go:286-304 | the reply has the decoded command's ID and exactly the status and payload Execute returned, or ID 0 and status 400 for a body that is not a command; the command struct is back in its pool |
| Receiving.Pools.PutCommand | protocol/pkg/protocol/object_pool.go:85-92 | the command struct is blank before it is pooled |
| Pools.NeverOwnedTwice | protocol/pkg/protocol/object_pool.go:7-79 | over all interleavings no buffer and no message struct is owned twice, by calls or pools; pooled buffers are small and pooled structs blank |
| Pools.OutsideStaysOutside | protocol/pkg/protocolserver/server.go:229-277 | what a spawned command, a delivered response or a handler can reach is in no pool and is never read or encoded into, then or later |
| Pools.EncodersNeverOverlap | protocol/pkg/protocolserver/server.go:345-359 | the buffers of one encoding are distinct from its source, from each other, and from every other call's |
| PoolsKeep.NothingLeaks | protocol/pkg/protocol/object_pool.go:41-79 | over all interleavings a buffer in use or in a pool stays owned unless it is outgrown, put back at more than 64 KiB, or collected, and a message struct always; when all calls have returned they are in the pools |
| PoolsKeep.EachToItsPool | protocol/pkg/protocol/object_pool.go:41-65 | request buffers go back to the request pool and response buffers to the response pool, and neither kind of call touches the other pool |
| Line.BytesAreFrames | protocol/pkg/protocolserver/connection.go:55-98 | in every run the bytes on the connection are whole frames in lock order, then a proper prefix of the lock holder's frame or of one failed write |
| Line.FailedWriteIsLast | protocol/pkg/protocolserver/connection.go:85-97 | after a failed write no byte follows, ever, and the connection is closed once its writer has let go of the lock |
| Line.NextWriterStartsClean | protocol/pkg/protocolserver/connection.go:71-89 | whenever the lock is free and the socket open, no write deadline is set and no earlier callback can still touch the socket |
| Line.OutcomeIsHonest | protocol/pkg/protocolserver/connection.go:85-97 | success means the frame is in the stream exactly once; an error on a connection that is not closed means that none of it is |
| Failures.OnlyFailuresClose | protocol/pkg/protocolserver/connection.go:56-97 | in every run a writer is in close only if one of its writes failed or its deadline was refused, and once one of these has happened it is on its way there, in it, or the connection is closed |
| Failures.RefusedWritesNothing | protocol/pkg/protocolserver/connection.go:56-70 | a request whose context ended, or whose connection is closing, before the second look under the lock never sends a byte and never goes into close, whatever happens after |
| Failures.ErrorsHaveCauses | protocol/pkg/protocolserver/connection.go:56-97 | an error means that the context has ended or the connection is closing; the callback runs only for an ended context; a write with a deadline is never under way without one on the socket, and one without never with one |
| Failures.CallbackIsAwaited | protocol/pkg/protocolserver/connection.go:78-89 | a cancellation callback that has started has finished before the deadline is reset and anything after it is done |
| Line.HolderCanMove | protocol/pkg/protocolserver/connection.go:56-89 | a cancelled holder of the lock always has a step that is its own, its callback's or a statement of the close it is inside; its blocked write fails because a deadline is past or the socket closed |
| Progress.WriterLetsGo | protocol/pkg/protocolserver/connection.go:78-97 | in any run the steps of a writer, its callback and close are bounded, and when they are used up it has returned; at most twelve are left once its write can no longer succeed |
| Connections.Connection.TryLock | protocol/pkg/protocolserver/connection.go:56-58 | takes the lock exactly when the transition system lets this writer acquire it |
| Connections.Connection.StillLive | protocol/pkg/protocolserver/connection.go:65-70 | decides between going on and refusing exactly as the transition system does |
| Connections.Connection.SetWriteDeadline | protocol/pkg/protocolserver/connection.go:71-76 | sets the caller's deadline, or fails exactly for a timed caller on a closed socket, as one of the two steps |
| Connections.Connection.Interrupt | protocol/pkg/protocolserver/connection.go:81-84 | the callback's deadline takes effect on an open socket only |
| Connections.Connection.WriteChunk | protocol/pkg/protocol/protocol.go:59-66 | one write accepts a prefix of the rest of the frame and is the chunk step or the failing step; it fails for sure after the deadline or close, and otherwise only on a broken network |
| Connections.Connection.ResetDeadline | protocol/pkg/protocolserver/connection.go:89 | clears the deadline of an open socket |
| Connections.Connection.Unlock | protocol/pkg/protocolserver/connection.go:58 | gives the lock back as the release step |
| Connections.Connection.Close | protocol/pkg/protocolserver/connection.go:43-51 | the first call runs the three statements of the once, any other none |
| DuplexInv.ReadsTheLog | protocol/pkg/protocolserver/server.go:233-250 | what the reader can find next is the peer's next whole frame or nothing, never a bad length |
| Correlation.AnswersAreGenuine | protocol/pkg/protocolserver/server.go:286-466 | in every run with fewer than 2^32 commands on a side, a response that sendCmd returns has the status and payload that the peer's Execute returned, in some event of the run, when called with exactly the command ID and payload that this sendCmd was started with, under the request ID it was sent with |
| Correlation.OneToken | protocol/pkg/protocolserver/server.go:313-454 | each request ID has at most one live token among command in flight, handler, response in flight, reader and response channel |
| Correlation.ExecutedOnce | protocol/pkg/protocolserver/server.go:265-273 | a command is executed at most once |
| Correlation.ChannelsAndEntries | protocol/pkg/protocolserver/server.go:322-428 | without any bound: each channel gets at most one send and the reader's send is never blocked; registered IDs belong to unfinished calls; the map is empty when all calls have returned, also after a close that raced a registration |
| Correlation.FramesArriveInOrder | protocol/pkg/protocolserver/server.go:217-250 | the reader has consumed exactly the first frames of the peer's log, in order, and finds next the next one or nothing |
| Correlation.CounterCountsCommands | protocol/pkg/protocolserver/server.go:420-423 | up to 2^32 registrations every registration takes exactly one tick of the counter |
| Correlation.ResponseAuthor | protocol/pkg/protocolserver/server.go:286-304 | a frame that reads as a response was written by a handler that produced it, if its ID is not 0 or its side has sent neither malformed frames nor error replies |
| Correlation.CommandAuthor | protocol/pkg/protocolserver/server.go:433-441 | a frame that reads as a command was written by a call, and is its command |
| Correlation.EnteringNeverBlocks | protocol/pkg/protocolserver/connection.go:55-63 | nothing but the lock keeps a job of sendable size from entering writeFrame |
| Wraparound.BoundIsTight | protocol/pkg/protocolserver/server.go:420-454 | in all runs with n commands on a side every answer was executed by the peer for that very command, exactly if n is below 2^32 |
| Wraparound.CleanBoundIsTight | protocol/pkg/protocolserver/server.go:420-454 | in all runs with n commands on a side and no malformed frame every answer was executed by the peer for that very command, exactly if n is at most 2^32 |
| WellFormed.NoErrorReplies | protocol/pkg/protocolserver/server.go:252-299 | in every run without an injected malformed frame neither side writes an error reply, of the reader or of a handler |
| Delivery.NoResponseLost | protocol/pkg/protocolserver/server.go:322-341 | with fewer than 2^32 commands on a side, a response to a call, once read, is the one the peer's handler produced for it, and is with the reader, in the call's channel, or the call is leaving or gone, or the connection closed; a call that still waits when the reader is back at the stream can take it |
| Delivery.NoFrameLost | protocol/pkg/protocolserver/server.go:252-283 | in every run, for every command frame read there is a handler with exactly its body, and for every malformed frame an error reply with exactly its text |
| Outcomes.OutcomesAreHonest | protocol/pkg/protocolserver/server.go:403-466 | in every run a response was taken from the call's own channel after its command was written whole, a timeout means that its context has ended, a closed connection that it is closing, a failed write one of the two |
| Outcomes.ReaderStops | protocol/pkg/protocolserver/server.go:217-283 | in every run the reader stops only after a failed read or a reply that could not be written, and never goes on after the latter |
| Outcomes.BadLengthStops | protocol/pkg/protocolserver/server.go:232-245 | an illegal length, from whatever peer, is answered with its text, and the reader stops when the answer is written |
| Outcomes.EndedMeansEnded | protocol/pkg/protocolserver/server.go:403-412 | over any continuation, no command is started on a connection that is closing and no frame is read from a closed socket |
| Wraparound.LateResponseAnswersAnother | protocol/pkg/protocolserver/server.go:322-454 | for every n above 2^32 there is a run with n commands and no malformed frame in which a late response is returned to a different command |
| Wraparound.AnswersHappen | protocol/pkg/protocolserver/server.go:286-454 | there is a run in which a command is sent, executed and answered, so the correlation theorems are about something |
| Exhaust.NoReplyStorms | protocol/pkg/protocolserver/server.go:226-368 | every run's length is bounded by a constant per command started and per malformed frame injected |
| Exhaust.ResponsesCauseNothing | protocol/pkg/protocolserver/server.go:274-341 | a frame that writeResponse emits is taken as a response and causes no goroutine and no write |
| Progress.CallCanMove | protocol/pkg/protocolserver/server.go:403-466 | in every reachable state with fewer than 2^32 pending requests a call that has not returned has a step of its own, of its writer or callback, the end of its own context, or a statement of the close its writer is inside, whatever the peer does; a failing write among them cannot but fail |
| Progress.CallReturns | protocol/pkg/protocolserver/server.go:403-466 | in any run such steps of one call, with the statements of close, number at most its payload's size plus 43, and when they are used up it has returned |
| Progress.CallCanFinish | protocol/pkg/protocolserver/server.go:403-466 | from every reachable state with fewer than 2^32 pending requests some run of such steps of the call alone ends with its return |
| Progress.IdleMeansReturned | protocol/pkg/protocolserver/server.go:403-466 | where no call has such a step left, with fewer than 2^32 pending requests, every call has returned and the pending map is empty, whatever else can still happen |
| Requests.UsedIds | protocol/pkg/protocolserver/server.go:420-423 | if the next n IDs are all in use, at least n requests are pending |
| Requests.AllocatesUnique | protocol/pkg/protocolserver/server.go:420-423 | the allocation loop has one possible outcome |
| Requests.NeverZeroBeforeWrap | protocol/pkg/protocolserver/server.go:420-423 | an allocated ID is 0 only after 2^32 increments, and equals its tick before |
| Requests.PendingTable.Register | protocol/pkg/protocolserver/server.go:419-426 | the loop ends within one increment more than there are pending requests, with an unused ID, and overwrites no other entry |
| Requests.PendingTable.Take | protocol/pkg/protocolserver/server.go:322-335 | looks up and removes one entry, or finds none and changes nothing |
| Requests.PendingTable.RunCleanup | protocol/pkg/protocolserver/server.go:427-431 | the deferred cleanup on the table is the Cleanup step of the two-peer system, and touches one ID |
| Requests.PendingTable.RunClear | protocol/pkg/protocolserver/connection.go:47-49 | clearing the table is the last step of close in the two-peer system, after which no response finds a channel |
| Requests.CleanupIsOwn | protocol/pkg/protocolserver/server.go:424-431 | the cleanup deletes by ID without looking; below 2^32 commands no other call loses its channel by it |
| Requests.PendingTable.RunRegister | protocol/pkg/protocolserver/server.go:419-426 | registering on the table is the Register step of the two-peer system |
| Requests.PendingTable.RunMatch | protocol/pkg/protocolserver/server.go:322-335 | matching on the table is the Match step of the two-peer system |
| OutboundInv.SupervisorInvariant | protocol/pkg/protocolserver/server.go:91-222 | a cancel function is stored exactly when one loop is uncancelled, and is its own; clientConn is that loop's peer in service, nil while it retries; the registered outbound peers are exactly clientConn or none |
| OutboundInv.CancelledNeverInstalls | protocol/pkg/protocolserver/server.go:175-186 | in any continuation of any run a cancelled loop serves at most the peer it had, and no peer of its is clientConn or registered again |
| OutboundInv.CancelledLoopReturns | protocol/pkg/protocolserver/server.go:138-190 | in any run a cancelled loop stays cancelled, takes at most seven more steps of its own, and has returned when they are used up |
| OutboundInv.LoopCanMove | protocol/pkg/protocolserver/server.go:111-213 | in every reachable state a loop that has not returned has a step, or the ConnectTo call that will start it has |
| OutboundInv.GoNeverBlocks | protocol/pkg/protocolserver/server.go:111-116 | the call that installed a loop can always start it |
| OutboundInv.DisconnectStops | protocol/pkg/protocolserver/server.go:121-136 | after Disconnect, and until a ConnectTo installs, clientConn stays nil and only accepted connections are registered |
| OutboundInv.NoConnectionLeaks | protocol/pkg/protocolserver/server.go:91-213 | an open outbound connection is registered or held by a goroutine that will install or close it; once all calls and loops have returned none is open or registered |
| OutboundInv.AcceptedUntouched | protocol/pkg/protocolserver/server.go:119-136 | ConnectTo, Disconnect and the loops never touch accepted connections |
| OutboundRuns.ConnectToConnects | protocol/pkg/protocolserver/server.go:91-119 | in every reachable state a ConnectTo whose dial succeeded makes its open connection clientConn and the one registered outbound peer, cancels every other loop, and goes on to close the connection it replaced |
| OutboundRuns.ConnectToGoesOn | protocol/pkg/protocolserver/server.go:111-118 | the call then closes exactly the connection it replaced and starts serving the one it installed |
| OutboundRuns.DisconnectDisconnects | protocol/pkg/protocolserver/server.go:121-136 | after Disconnect no outbound peer is registered or clientConn, every loop is cancelled, and the call goes on to close the connection there was |
| OutboundRuns.DisconnectCloses | protocol/pkg/protocolserver/server.go:133-135 | and that closes exactly this connection |
| OutboundRuns.ReconnectInstalls | protocol/pkg/protocolserver/server.go:174-189 | in every reachable state a loop that has redialled makes its open connection clientConn, registers and serves it, if it is not cancelled; a cancelled one changes nothing and closes it |
| OutboundRuns.Reconnects | protocol/pkg/protocolserver/server.go:138-213 | the whole cycle: a lost connection is closed and unregistered, commands are refused, and after a successful dial the new connection is registered, clientConn and served, all else being as before |
| OutboundRuns.AcceptedServed | protocol/pkg/protocolserver/server.go:191-213 | an accepted connection is registered while it is served, then closed and unregistered, nothing else changing |
| OutboundRuns.DialsAndAccepts | protocol/pkg/protocolserver/server.go:75-97 | a failed dial changes nothing; a connection dialled or accepted is new, open, and held by the goroutine that goes on to register it |
| OutboundServer.Server.Install | protocol/pkg/protocolserver/server.go:99-110 | ConnectTo's critical section on the fields: the old context is cancelled, the old peer unregistered and returned, the new peer registered and stored with its cancel function |
| OutboundServer.Server.TakeDown | protocol/pkg/protocolserver/server.go:122-132 | Disconnect's critical section on the fields: the context is cancelled, the peer unregistered and returned, nothing stored |
| OutboundServer.Server.Reinstall | protocol/pkg/protocolserver/server.go:176-185 | reconnect's critical section on the fields: exactly if the context is not cancelled the peer is stored and registered, and otherwise nothing changes |
| OutboundServer.Server.Unregister | protocol/pkg/protocolserver/server.go:207-212 | unregisters the peer and clears clientConn only if it is this peer |
| OutboundServer.Server.RegisterAccepted | protocol/pkg/protocolserver/server.go:196-198 | registers an accepted peer and changes nothing outbound |
| Task.CompareTo | agent/internal/runtime/runtime.go:77-119 | true exactly when name, image, CPU and memory agree, the desired command is empty or equal, every desired environment entry is there, the port test holds, and the volumes are equal as multisets |
| Task.SortedIsUnique | agent/internal/runtime/runtime.go:110-117 | two sorted lists of strings with the same elements are equal, so comparing sorted clones compares multisets |
| Task.SortedClone | agent/internal/runtime/runtime.go:111-114 | a sorted copy with the same elements, the original untouched |
| Task.PortsTestIsEqualityExactly | agent/internal/runtime/runtime.go:101-108 | size plus containment is equality of maps exactly when no desired host port is empty |
| Task.MatchesItself | agent/internal/runtime/runtime.go:77-119 | the relation is reflexive exactly for CPU values other than NaN |
| Task.MatchesIsTransitive | agent/internal/runtime/runtime.go:77-119 | the relation is transitive when the first configuration has no empty host port |
| Task.EmptyHostPortBreaksTransitivity | agent/internal/runtime/runtime.go:101-108 | from every configuration with an empty host port it is not |
| Task.TransitiveExactly | agent/internal/runtime/runtime.go:77-119 | from a configuration on, the relation is transitive exactly if it matches nothing or no desired host port is empty |
| Task.MutualMatch | agent/internal/runtime/runtime.go:77-119 | two configurations match each other exactly when they are the same up to the order of volumes, the order and repetition of environment entries, and the keys of ports without a host port |
| Task.MatchesFieldByField | agent/internal/runtime/runtime.go:77-119 | how far a matching configuration may change and still match, exactly, for each field: not at all in name, image, CPU, memory and a desired command, and as stated in the rest |
| Task.MatchesPins | agent/internal/runtime/runtime.go:77-119 | two configurations that satisfy one desired one agree in name, image, CPU, memory, a desired command, volumes as multisets and number of ports |
| Ports.PrintsBackExactly | agent/internal/runtime/docker.go:277-281 | a parsed port key is printed as it was written exactly when it is canonical |
| Ports.KnownPorts | agent/internal/runtime/docker.go:329-347 | port keys are decimal numbers, leading zeros allowed, and nothing else |
| Ports.LargestPort | agent/internal/runtime/docker.go:329-347 | 65535 is a port and 65536 is not |
| Ports.ConvertPortBindings | agent/internal/runtime/docker.go:329-347 | fails exactly if some key does not parse, and otherwise binds every key's number to its host port, the last key visited winning |
| Ports.CollectPorts | agent/internal/runtime/docker.go:276-281 | in any order of iteration, the first host port of each bound port under its printed number |
| Ports.PortsReadBackExactly | agent/internal/runtime/docker.go:276-347 | bound and read back, a port map is what it was exactly when its keys are canonical, in whatever order they were visited |
| Docker.MemoryReadsBackExactly | agent/internal/runtime/docker.go:174-273 | a limit in MB survives the trip through int64 bytes exactly when it lies in [-2^43, 2^43) |
| Docker.DockerRuntime.PullImage | agent/internal/runtime/docker.go:70-84 | makes the registry's image the local one under its reference, or fails and changes nothing |
| Docker.DockerRuntime.StartTask | agent/internal/runtime/docker.go:86-143 | the container, the calls and the outcome of finding, creating and starting, for every fault |
| Docker.StartTaskExactly | agent/internal/runtime/docker.go:86-143 | exactly when a start succeeds and what it leaves: success means a running container, an existing one is never changed otherwise, a new one stays behind if only its start fails |
| Docker.DockerRuntime.CreateContainer | agent/internal/runtime/docker.go:145-181 | creates the labelled container of the configuration exactly if it can be marshalled, its ports parse, the name is free, the image is local and the daemon accepts |
| Docker.DockerRuntime.StopTask | agent/internal/runtime/docker.go:191-199 | stops the named container or fails and changes nothing |
| Docker.DockerRuntime.RemoveTask | agent/internal/runtime/docker.go:201-209 | removes the named container if it is neither running nor stuck, or fails and changes nothing |
| Docker.DockerRuntime.GetTaskStatus | agent/internal/runtime/docker.go:211-233 | running or stopped exactly for a labelled container that is running or has exited; anything else, missing and unlabelled ones included, has unknown status, without an error |
| Docker.DockerRuntime.ListTasks | agent/internal/runtime/docker.go:235-259 | exactly the containers with the agent's label in a state that the daemon lists, each with its status |
| Docker.DockerRuntime.GetTaskInfo | agent/internal/runtime/docker.go:261-293 | the configuration as read back, none without an error if there is no container |
| Docker.DockerRuntime.IsTaskImageCurrent | agent/internal/runtime/docker.go:295-307 | compares the container's image with the local one, or fails |
| Reconcile.Agent.Examine | agent/internal/agent/reconcile.go:61-100 | pulls the image, changes nothing else, and decides between giving up, leaving, starting and replacing |
| Reconcile.Agent.Discard | agent/internal/agent/reconcile.go:89-96 | stops unless known to be stopped, then removes; the world after each failure |
| Reconcile.Agent.ReconcileTask | agent/internal/agent/reconcile.go:61-114 | the world, the calls and the outcome are those of the step function, for every fault; no other container changes |
| Reconcile.Agent.IsWanted | agent/internal/agent/reconcile.go:29-35 | whether a name is in the desired list |
| Reconcile.Agent.PurgeTask | agent/internal/agent/reconcile.go:38-45 | stops and removes one container; the world after each failure |
| Reconcile.Agent.Purge | agent/internal/agent/reconcile.go:28-48 | in whatever order the running map is iterated, the world after it is the same, and only undesired listed labelled names are called on |
| Reconcile.Agent.ReconcileTasks | agent/internal/agent/reconcile.go:50-56 | every desired entry gets its step in list order, and an error on one does not stop the loop |
| Reconcile.Agent.Reconcile | agent/internal/agent/reconcile.go:12-59 | nothing is touched without the desired list or the listing; otherwise the purge and the steps, and only then no error |
| Convergence.ReadBackAcceptedExactly | agent/internal/runtime/docker.go:145-293 | CompareTo accepts a container made from a configuration exactly when its CPU value, its memory and its ports survive the trip |
| Convergence.PortTestAfterReadBack | agent/internal/runtime/docker.go:276-347 | a port map that was bound and read back passes CompareTo's test exactly when no two keys denote one port and every key with a host port is canonical |
| Convergence.StepConvergesExactly | agent/internal/agent/reconcile.go:61-114 | without faults, a step ends with a running, matching container on the registry's image exactly from the stated containers and configurations |
| Convergence.StepReportsExactly | agent/internal/agent/reconcile.go:61-114 | success means a running container of the image just pulled that CompareTo accepts or that was made from the configuration; without faults, exactly when success is reported |
| Convergence.CallsInOrder | agent/internal/agent/reconcile.go:83-113 | the calls of a step are a beginning of stop, remove, create, start for an outdated container, the stop being skipped exactly for the agent's exited ones, and of create and start, or start alone, otherwise |
| Convergence.FailedQueryChangesNothing | agent/internal/agent/reconcile.go:62-82 | if the status, the pull, the configuration or the image comparison fails, nothing is called and nothing changes |
| Convergence.StopsOnlyToReplace | agent/internal/agent/reconcile.go:67-96 | nothing is stopped or removed unless the new image was pulled and the container is out of date |
| Convergence.PassConvergesExactly | agent/internal/agent/reconcile.go:12-114 | if faults hit only some names, every other desired name converges exactly if it can, and every other undesired labelled listed container that is not stuck is gone, all else being unchanged |
| Convergence.PassOnDesired | agent/internal/agent/reconcile.go:50-56 | what a pass does to a desired name depends on its own container, configuration and faults alone |
| Convergence.PassOnOthers | agent/internal/agent/reconcile.go:28-48 | what a pass does to any other name: purged if labelled, listed and undesired, else untouched |
| Convergence.PurgedExactly | agent/internal/agent/reconcile.go:24-48 | what a pass leaves under a name that is not desired, for every fault, in terms of the container's own label and state |
| Convergence.PassOnImages | agent/internal/agent/reconcile.go:67-70 | the local images after the steps: the registry's for every reference pulled, unchanged for the rest |
| Convergence.OrderDoesNotMatter | agent/internal/agent/reconcile.go:28-56 | the world after a pass does not depend on the order of the desired list |
| Stability.SettledForever | agent/internal/agent/reconcile.go:12-114 | a converged world with labelled desired containers is absorbing: under any faults in any number of passes, no stop, remove, create or start is called and no container changes |
| Stability.OthersUntouched | agent/internal/runtime/docker.go:235-259 | an undesired container without the agent's label stays exactly as it is through any passes with any faults, and a free undesired name stays free |
| Stability.QuietExactly | agent/internal/runtime/docker.go:86-143 | a container at its goal is left alone under every fault exactly if it is labelled or the configuration's ports do not parse |
| Stability.TaskHealsExactly | agent/internal/agent/reconcile.go:12-126 | for distinct desired names: after any passes with any faults, one pass in which nothing fails for a task's name takes it to its goal in a labelled container, for good, exactly if its image is in the registry and its container, kept, is startable and labelled, or else is absent or not stuck and the configuration can be created and survives; otherwise it is at its goal after no passes whatever |
| Stability.FaultsHeal | agent/internal/agent/reconcile.go:12-126 | for distinct desired names: after any passes with any faults, one pass in which nothing fails for the desired names and the containers present settles the world for good, exactly if every desired task heals and no listed undesired container is stuck; otherwise the world is settled after no passes whatever |
| Stability.ChurnsForever | agent/internal/agent/reconcile.go:83-113 | a configuration that does not survive the trip is not accepted after any passes with any faults; if it can be created, its image is in the registry and its container is not stuck, every pass in which nothing fails for it makes its container anew, running or not |
| Stability.FailedRemovalIsFinal | agent/internal/agent/reconcile.go:36-47 | an undesired container whose removal fails after its stop is removed by a later pass in which nothing fails for it exactly if containers in the state it was left in are listed and it is not stuck; otherwise it stays as it is through any passes |
| RoundRobin.Service.PickEndpoint | server/internal/cluster/model.go:46-65 | no endpoint for an unknown port or strategy, a panic exactly for an empty list, the endpoint at counter modulo length in the round-robin branch, and the counter moves only there |
| RoundRobin.EveryPositionIsServed | server/internal/cluster/model.go:56-61 | in any window of m picks for one port with k endpoints and any starting counter, each position is picked floor(m/k) or ceil(m/k) times |
| RoundRobin.PositionsStayLevel | server/internal/cluster/model.go:56-61 | two positions are never more than one pick apart |
| RoundRobin.HitsByResidue | server/internal/cluster/model.go:56-61 | whatever other ports are called between, a position gets as many picks as the port has calls at indices of one residue, which the starting counter selects |
| RoundRobin.FairExactly | server/internal/cluster/model.go:56-61 | for any series of calls, each position of a port gets floor or ceiling of its share from every starting counter exactly if the numbers of the port's calls at indices of each residue differ by at most one |
| RoundRobin.SharedCounterStarves | server/internal/cluster/model.go:56-61 | with calls for two ports in turn and two endpoints, one of them is never picked |

## Left out

- Correlation.AnswersAreGenuine: is stated for fewer than 2^32 commands per side, because with more it is false (Wraparound.BoundIsTight).
- Delivery.NoResponseLost: is stated for the same bound; above it a frame with a call's ID need not be for that call (Wraparound.LateResponseAnswersAnother).
- Correlation.OneToken: is stated for the same bound and for IDs other than 0, which error replies use.
- Frames.ReadFrameInto: says nothing about how much was consumed when a read fails, after which the source closes the connection.
- Receiving.HandleMessage: is one goroutine between two context switches; other goroutines' steps in between are in Pools.
- Receiving.WriteResponse: writes to the socket directly; the write lock and deadlines around it are in Line.
- Connections.Connection.Close: waiting for another goroutine inside the once is in Line only.
- Exhaust.NoReplyStorms: counts commands that handlers send as causes of their own.
- Ports.ConvertPortBindings: takes the order of map iteration as a parameter, fixed for one map within a pass; keys with a slash are taken as errors, and protocols other than tcp are not modelled.
- Docker.DockerRuntime.StartTask: host ports taken by other containers count as faults of the start.
- Docker.DockerRuntime.GetTaskInfo: a name that is also the beginning of a container ID is not modelled.
- TCP sockets, listeners, dialling, real clocks and timers, backoff delays, logging and ID generation: nondeterministic steps or assumptions.
- The Docker SDK, containerd and JSON: only their effects on the abstract world; NaN is the one value that cannot be marshalled.
- Float rounding of CPU values: the conversion is an abstract function; infinities are not modelled.
- Command dispatch, middleware and authentication: Execute is an arbitrary result.
- The pool of response structs, which nothing takes from, and the interleavings of the pool of command structs, which works like that of message structs.
- Gateway forwarding, ping, cluster and node stores, and the server's reconciler, whose body is commented out: plumbing or easy map operations.
- Random load balancing beyond its index being in range, and data races on the round-robin counter.
- Memory-model effects below the granularity of the mutexes, channels and the write lock.
