# Direct-message relay: a Dafny model

This project models the core of a small chat relay written in Go. Clients
connect over TCP and register a display name with a handshake: one length
byte, then the name. They then send `Message{To, From, Content, Error}`
envelopes, and the server routes each envelope by recipient name.

The server (`cmd/server/server.go`) is modelled as a sequential state machine.
A `Server` object holds four fields:

- the registry `connections` (name to socket);
- the FIFO message queue;
- an outbox that records every message written to a socket;
- the set of closed sockets.

Each iteration of the source's three loops is one atomic method:

- `AcceptConnection`: the handshake and admission;
- `ReceiveMessage`: the size check, sender stamping and enqueue, or disconnect and unregister;
- `RouteNext`: deliver, bounce or drop.

Each method's postcondition gives the whole new state in terms of a pure
decision function: `AdmissionOf`, `InboundStep` or `RouteOf`. Every method
preserves the object invariant `Valid()`, which says:

- a registered socket is open;
- no socket is registered under two names;
- only messages within the size limits are queued;
- the queue never holds more than the channel capacity of 256.

The client (`cmd/client/client.go`) is modelled through its pure parts:

- the handshake frame;
- the username guard of `main`;
- `strings.Split`/`strings.Join` on single spaces;
- `handle_send_cmd`;
- the console dispatch of `main`.

The handshake frame and the server's handshake read form a proved round
trip.

Files:

- `common.dfy`: bytes, `MAX_USERNAME_LENGTH = 32`, `MAX_MESSAGE_LENGTH = 2048`, the `Message` record and the size invariant `WithinLimits`.
- `handshake.dfy`: the frame and its parse.
- `client.dfy`: command parsing.
- `server.dfy`: decision functions, invariants, the `Server` class, and four scenario methods.

The scenario methods drive the class through its contracts only:

- `DirectMessageScenario`: alice's message reaches bob, stamped with alice as sender.
- `DuplicateNameScenario`: a second "alice" gets one error envelope and is closed, and the first "alice" keeps the name.
- `BothGoneScenario`: sender and recipient both leave before routing, and the message is dropped with nothing written.
- `BounceScenario`: alice writes to bob, who never connected, and alice gets one error envelope naming bob.

Strings are byte sequences, because Go's `len` counts bytes. The fixed texts
the programs send are written as their ASCII byte values, with the text
beside them in a comment.

## Model

| member | source | states |
|---|---|---|
| Handshake.Frame | cmd/client/client.go:37-44 | the frame is the length byte (the length modulo 256, as `uint8` truncates) followed by the name; for names of at most 32 bytes the server's parse returns exactly that name |
| Handshake.ParseHandshake | cmd/server/server.go:42-66 | a declared length above 32 is refused (`TooLong`, nothing written) exactly when the first byte exceeds 32; a missing length byte or a too-short name is a read failure; an accepted name is at most 32 bytes and the stream is its length byte, the name and the rest |
| Handshake.HandshakeRoundTrip | cmd/client/client.go:38-44 | for any name of at most 32 bytes and anything sent after it, the server's parse of the client's frame returns that name and leaves the rest unread |
| Handshake.ParseInvertsFrame | cmd/server/server.go:43-66 | every accepted handshake stream is the client's frame of the parsed name followed by the rest |
| Handshake.UnguardedLengthWraps | cmd/client/client.go:38 | without the guard, a 256-byte name is announced as length 0 and the server reads an empty name |
| Client.Join | cmd/client/client.go:126 | `strings.Join(tokens, " ")`: no tokens join to the empty string, the first token begins the join, and a single space follows it when more tokens come; with `Split` it forms the proved inverse pair (`Client.Split`, `Client.SplitJoin`) |
| Client.SplitFromSpec | cmd/client/client.go:117 | the split scan yields one more piece than there are spaces, no piece holds a space, and joining the pieces with single spaces gives back the input |
| Client.Split | cmd/client/client.go:117 | `strings.Split(s, " ")` keeps empty pieces: one piece more than there are spaces, each space-free, and `Join(Split(s)) == s` |
| Client.SplitAfterWord | cmd/client/client.go:117 | a space-free word followed by a space becomes the first token, and the rest is split on its own |
| Client.SplitJoin | cmd/client/client.go:117-126 | on a nonempty list of space-free tokens, Split is the inverse of Join |
| Client.HandleSendCmd | cmd/client/client.go:116-145 | only a usage hint (nothing sent) exactly when the line has fewer than two spaces; a sent message has an empty `From`, `Error` false, a space-free recipient and both sizes within the limits |
| Client.SendCmdShape | cmd/client/client.go:117-142 | for a line `cmd + " " + to + " " + body` the recipient is `to` and the body is exactly everything after the second space; a recipient over 32 bytes or a body over 2048 is rejected, and exactly 32 and 2048 are sent as `Message{to, "", body, false}` |
| Client.CommandWordIgnored | cmd/client/client.go:117-118 | the first word of the line never affects the outcome |
| Client.ConsoleDispatch | cmd/client/client.go:184-193 | `exit` quits; a line is handed to handle_send_cmd if and only if it starts with `send`; anything else is unrecognized |
| Client.StartsWith | cmd/client/client.go:189 | `strings.HasPrefix(line, prefix)` holds exactly when the line is the prefix followed by something |
| Client.SendPrefixedLineSends | cmd/client/client.go:189-190 | a line whose first word merely begins with `send` (such as `sendx`) is dispatched and sent like `send` |
| Client.UsernameAllowed | cmd/client/client.go:170-173 | the client's guard lets a name through if and only if the server's parse of the client's frame returns exactly that name, so the guard is both needed and sufficient |
| Server.ErrorEnvelope | cmd/server/server.go:122-123 | the error envelope has empty `To` and `From`, the error text as content, and `Error` set |
| Server.NotConnectedText | cmd/server/server.go:160 | the bounce text starts with a quote, holds the recipient at offset 1, and ends with the bytes of `' is not connected` and a newline; it is 20 bytes longer than the recipient |
| Server.NotConnectedTextNamesRecipient | cmd/server/server.go:160 | two bounce texts are equal if and only if the two recipients are, so the text identifies the unreachable recipient |
| Server.AdmissionOf | cmd/server/server.go:180-195 | a failed handshake is refused; an accepted name is taken if and only if it is already registered, otherwise it is registered; the name is the parsed one, at most 32 bytes |
| Server.NameStaysTaken | cmd/server/server.go:187-195 | right after a name is inserted into the registry, a handshake for the same name is answered as taken |
| Server.NameLengthBoundary | cmd/server/server.go:53-56 | a free 32-byte name is registered; a 33-byte name is refused |
| Server.AcceptsAsWritten | cmd/server/server.go:87-108 | the size check as written compares each length modulo 65536 (`uint16`) with its limit; it never rejects a message within the limits |
| Server.AsWrittenAgreesBelowWrap | cmd/server/server.go:87-108 | below 65536 bytes the as-written check and the intended check agree |
| Server.InboundStepAsWritten | cmd/server/server.go:83-110 | the pipeline step as written queues a message, stamped with the pipeline's name, if and only if it decoded and passes the truncating check |
| Server.AsWrittenDiffersIffWrapped | cmd/server/server.go:87-108 | the step as written and the intended step differ if and only if the message passes the truncating check with a recipient or body of 65536 bytes or more; where they differ, the step as written queues a message that breaks the limits |
| Server.WrappedRecipientWitness | cmd/server/server.go:87-90 | there is a message, with a 65536-byte recipient, that the step as written queues while the intended step ends the pipeline |
| Server.InboundStep | cmd/server/server.go:83-110 | a message is queued if and only if it decoded and is within the limits (32 and 2048 allowed); the queued message carries the pipeline's registered name as `From` and the client's `To`, `Content` and `Error` unchanged |
| Server.SenderCannotBeSpoofed | cmd/server/server.go:109-110 | the `From` a client sends never influences what is queued |
| Server.ContentLengthBoundary | cmd/server/server.go:100-108 | a 2048-byte body is queued; a 2049-byte body ends the pipeline |
| Server.RouteOf | cmd/server/server.go:147-164 | a message goes verbatim to the recipient if and only if the recipient is registered; otherwise the sender gets the "not connected" envelope if and only if the sender is registered; otherwise it is dropped |
| Server.RouteWrites | cmd/server/server.go:159-168 | a delivery or a bounce writes exactly one message, the route's own, to the route's socket; a drop writes nothing |
| Server.RelayEndToEnd | cmd/server/server.go:109-164 | a message within the limits to a registered recipient results in exactly one write: to the recipient, with the sender's registered name as `From` and the client's other fields |
| Server.RegisterKeepsRegistryOk | cmd/server/server.go:187-195 | registering a fresh socket under a free name keeps every registered socket open and keeps one name per socket |
| Server.CloseFreshKeepsRegistryOk | cmd/server/server.go:46-63 | closing a refused, never registered socket keeps the registry invariant |
| Server.UnregisterKeepsRegistryOk | cmd/server/server.go:114-115 | closing a pipeline's socket and deleting its name keeps the registry invariant, because no other name refers to that socket |
| Server.EnqueueKeepsQueueOk | cmd/server/server.go:87-110 | enqueueing a checked message into a channel with room keeps every queued message within the limits and the queue bounded |
| Server.DequeueKeepsQueueOk | cmd/server/server.go:141 | taking the oldest message keeps the queue invariant |
| Server.Server.constructor | cmd/server/server.go:219-220 | the server starts with an empty registry, queue, outbox and closed set, and satisfies its invariant |
| Server.Server.AcceptConnection | cmd/server/server.go:178-198 | a refused handshake closes the socket and writes nothing; a taken name gets exactly one "Username is taken" error envelope and a closed socket, with the registry unchanged; otherwise the registry gains `name -> socket` and every other entry is unchanged; the invariant is kept |
| Server.Server.ReceiveMessage | cmd/server/server.go:78-118 | a message that passes the check is appended to the queue with `From` stamped, nothing else changing; a decode failure or size violation closes the socket and deletes its name, with the queue unchanged; the invariant is kept |
| Server.Server.RouteNext | cmd/server/server.go:139-169 | takes the oldest queued message (FIFO) and appends the writes of its routing decision to the outbox; the registry and the closed set are never changed; every write goes to an open socket; an empty queue changes nothing |

## How the model treats particular behaviours of the code

- Follows the code: the admission error text is "Username is taken" followed by a newline (cmd/server/server.go:190).
- Follows the code: the router forwards the whole message verbatim (cmd/server/server.go:163-164). That includes `To` and the client-supplied `Error` flag, which the server never clears.
- Follows the code: the bounce text is `'<to>' is not connected` followed by a newline (cmd/server/server.go:160).
- Corrects the code: the size check compares `uint16` truncations of the lengths (cmd/server/server.go:87-108). The check as written is kept as `AcceptsAsWritten` and `InboundStepAsWritten`. The `Server` class uses the corrected check `WithinLimits`; see "## Findings".
- Abstracts the code: the handshake name is read with a single `conn.Read` (cmd/server/server.go:59). The model treats the read as complete; see the `Handshake.ParseHandshake` line under "## Left out".

## Left out

- Gob encoding and decoding (cmd/server/server.go:81-83, 124-125, 163-164; cmd/client/client.go:56-57, 94-96) is a foreign library. Messages are already-decoded records, and a decode failure or closed stream is `None`. A write to a socket is an outbox entry.
- Goroutines, the channel and the unsynchronised shared map are not modelled as concurrency. Each loop iteration is an atomic step.
- Server.Server.ReceiveMessage: the channel's blocking when full is modelled by the precondition that the queue has room whenever a message is to be queued. A step that would block simply does not happen.
- Server.Server.ReceiveMessage: requires that the pipeline's name maps to its own socket. This holds in the source, because only a pipeline deletes its own name. So the case of deleting an absent name never arises here; Go's `delete` would make it a no-op.
- Server.Server.RouteNext: a receive on an empty channel blocks in the source. Here it returns `None` and changes nothing. The channel is never closed, so the `!ok` return is not modelled.
- Write failures (`log.Fatal` at cmd/server/server.go:127 and 166) end the process. Writes are infallible here.
- Handshake.ParseHandshake: a stream that ends inside the name is a read failure. The source's single `conn.Read` could instead return a short read and keep the zero-filled rest of the buffer as part of the name.
- `ln.Accept` errors, `net.Dial` and the rest of `setup_connection` are network I/O. So are the `send_message` goroutine and the client's `receive_messages` display. Only the frame and the message built by `handle_send_cmd` are modelled.
- `receive_error` and the `MESSAGE_CODE`/`ERROR_CODE` constants (cmd/client/client.go:65-83, internal/common/common.go:7-8) are never used by either program.
- Argument parsing, the console's printing, logging and colour output are presentation only. The `exit` command's effect is not modelled: the process terminates.

## Findings

| source | as written | input that shows it | evidently intended | confidence | as-written member | corrected member |
|---|---|---|---|---|---|---|
| cmd/server/server.go:87-108 | `uint16(len(msg.To)) > 32` and `uint16(len(msg.Content)) > 2048`, so lengths are taken modulo 65536 (`Server.AcceptsAsWritten`, `Server.InboundStepAsWritten`; the difference is characterised by `Server.AsWrittenDiffersIffWrapped`) | a message whose `To` is 65536 bytes long wraps to length 0 and is queued | reject any `To` over 32 bytes and any `Content` over 2048 bytes, as the limits' comment in internal/common/common.go:10-14 states | high; not executed | Server.WrappedRecipientWitness | Server.InboundStep |

The server model uses the corrected check `WithinLimits`. That is why the
invariant "every queued message is within the limits" can be proved.
