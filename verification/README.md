# Verified model of the MIP clients

The MIP clients (Rust, TypeScript, Python) speak the MSIP protocol: frames of a 24-byte header and
a payload over TCP. This project models the wire format, the incremental framing loops of the three
clients, the concurrent send path and message ids of the Rust client, and the connection and
reconnection handling of the TypeScript client, and proves what they promise.

| file | what it holds |
|---|---|
| `Bytes.dfy`, `Wrappers.dfy` | big-endian numbers and machine widths; `Option` and `Result` |
| `Protocol.dfy` | the header: encoder, decoder, round trip, canonical form |
| `Payload.dfy` | the PUBLISH/EVENT payload |
| `Framing.dfy` | how a stream is cut into frames, one specification for the three dialects of the loop |
| `Dispatch.dfy` | what listeners are told; logs as projections of the stream |
| `RustReader.dfy`, `TsReader.dfy`, `PyReader.dfy` | the three buffer loops as code, proved against the specification |
| `RustChunking.dfy` | chunk independence, byte conservation and resynchronisation in Rust |
| `Agreement.dfy` | when the three clients hear the same frames and build the same headers |
| `SendPath.dfy`, `Connection.dfy` | the Rust send path as a transition system, and its functions as code over it |
| `EndToEnd.dfy` | delivery from the queue of a Rust client to its peer's listeners |
| `Shutdown.dfy` | what the wire of a Rust client ends with, and exactly when CLOSE is last |
| `MessageIds.dfy` | message ids under concurrent calls (Rust) and under any clock (TypeScript) |
| `Lifecycle.dfy`, `LifecycleClient.dfy` | the TypeScript connection state machine, and `MIPClient` as a class proved against it |
| `LifecycleProofs.dfy`, `LifecycleTheorems.dfy` | its invariants and what follows for whole runs |
| `LifecycleEvents.dfy` | what each event does to log, fields and sockets |

## Main results

- **Delivery.** In every interleaving of callers, ping task, `connect`/`disconnect`, write task (with
  a write failing after any number of bytes) and flag changes from outside, and for every cutting of
  the received bytes into reads, the peer's listeners hear exactly the accepted frames that have
  arrived whole, in order, and nothing else (`EndToEndDelivery`; `DeliveryToOtherClients` for
  TypeScript and Python peers). In terms of `publish`, the peer hears the published topics and
  messages, in order (`PublishedMessagesArrive`).
- **Chunk independence.** Rust up to its first bad magic, TypeScript always, Python up to repeats of
  one error (`RepeatedMagicError` is a run with such a repeat). Past the first bad magic Rust is chunk independent for exactly the streams described by
  `ResyncCannotShow` (`ResyncExactly`); `NoiseThenPing` is a stream for which it is not.
- **Shutdown.** CLOSE is followed on the wire by at most one PING (`ShutdownOrder`). CLOSE is certain
  to be last exactly unless, when `disconnect` begins, the connected flag is up, the ping task is past
  both its flag checks and the write task is running (`CloseIsLastExactly`); `PingMayFollowClose` is a
  run with the PING on the wire.
- **Message ids.** Ordered for calls that do not overlap (`EarlierCallsGetSmallerIds`). Given the
  order of the steps of a run, two calls can get the same id under some clock that does not go back
  exactly if one of them begins and ends inside the other (`CollisionNeedsNesting`); calls that merely
  overlap never do. `OverlappingCallsMayCollide` is a run with equal ids.
- **Reconnection.** Never stuck, numbered without gaps, final after `disconnect`, and over after a
  bounded number of steps (`NoStuckState`, `AttemptNumbering`, `DisconnectIsFinal`,
  `RetriesTerminate`). In every run the attempts used are the closes, CLOSE frames and rejection
  handlers without a pending timer since the last successful dial, up to the maximum
  (`AttemptsAccount`).

- **Operation by operation.** What the whole-run results build on is pinned down in the protocol's own
  terms: every byte of a header and a payload (`HeaderOnTheWire`, `PayloadOnTheWire`), the frame each
  send queues (`Connection.dfy`), what listeners hear for each frame type (`HeardAs`) and for each
  event of the TypeScript client (`HeardOf`), and what becomes of a lost connection
  (`NothingNewAfterLoss`).

Some things one might expect are false of the code, and the model says so with concrete runs and
says exactly when they hold:

- One outage is not one attempt: a CLOSE frame followed by the socket's close costs two
  (`OneOutageCountedTwice`), except that with one attempt left it costs that one, which is then never
  made because the close clears its timer (`AnnouncedOutageCost`). A failed dial costs one attempt if
  its close event precedes its rejection handler and otherwise behaves in the same way
  (`RejectionBeforeCloseCostsTwo`, with the runs of `FailedDialCosts`).
- The late close of an older socket ends a newer session (`OldSocketEndsNewSession`, with the exact
  rule `StaysConnectedExactly`).
- An older dial survives `disconnect` and can still connect (`OlderDialSurvivesDisconnect`, with the
  exact rule `ReconnectedAfterDisconnectExactly`).
- Every `connect` event that comes while connected leaves one `setInterval` behind, and nothing else
  does (`LeakedIntervals`); `OverlapLeaksInterval` is a run that leaks one.

Where the option's name and the code disagree, the code is followed: `disconnect()` clears
`autoReconnect` for good, so a client connected again afterwards does not reconnect
(`DisconnectIsFinal`).

## Assumptions

- Listeners only record what they are told; they do not call back into the client. Every event has
  exactly one listener, `error` included.
- Text decoding is the identity on bytes.
- `usize` is 64 bits wide, so header size plus announced length does not overflow.
- A `Client` in `SendPath` is one connection: its queue, its write task, its ping task. `&mut self`
  makes `connect` and `disconnect` exclusive with `send_frame`. Other connections of the same client
  appear only through the two shared flags.
- The clock of the Rust message-id results does not go back and neither clock nor counter leaves 64
  bits; both are hypotheses of the lemmas.

## Model

| member | source | states |
|---|---|---|
| Bytes.ValueOfBigEndian | mip-client-rust/src/protocol/header.rs:116-121 | a number that fits its field survives being written big-endian and read back |
| Bytes.BigEndianOfValue | mip-client-rust/src/protocol/header.rs:145-160 | reading any field and writing it back gives the same bytes |
| Protocol.FrameTypeFrom | mip-client-rust/src/protocol/header.rs:34-52 | exactly the codes 1 to 10 are frame types, and the conversion inverts the cast to u16 |
| Protocol.MessageKindFrom | mip-client-rust/src/protocol/header.rs:64-77 | exactly the codes 1 to 5 are message kinds, and the conversion inverts the cast to u16 |
| Protocol.CodesOnTheWire | mip-client-rust/src/protocol/header.rs:20-77 | the two bytes of every frame type and message kind, one by one |
| Protocol.CopyFromSlice | mip-client-rust/src/protocol/header.rs:112-121 | overwrites one stretch of the buffer and nothing else |
| Protocol.Encode | mip-client-rust/src/protocol/header.rs:109-124 | filling the zeroed buffer slice by slice gives the README's field layout |
| Protocol.HeaderOnTheWire | mip-client-rust/src/protocol/header.rs:109-124 | an encoded header byte for byte: magic, version, flags, type, kind, reserved, length and id |
| Protocol.HeaderOfRust | mip-client-rust/src/client/internals.rs:49-56 | the constants and arguments in the header of every frame sent |
| Protocol.FlagBits | mip-client-rust/src/protocol/header.rs:140-143 | masking keeps each of the low three bits and clears the rest |
| Protocol.DecodeOfEncoded | mip-client-rust/src/protocol/header.rs:109-162 | decoding an encoded header returns it with only the undefined flag bits dropped |
| Protocol.RoundTrip | mip-client-rust/src/protocol/header.rs:90-162 | decode after encode is the identity exactly for headers with the right magic and version and defined flags |
| Protocol.ReEncode | mip-client-rust/src/protocol/header.rs:109-162 | re-encoding any buffer that decodes gives it back with byte 5 masked and bytes 10-11 zeroed |
| Protocol.CanonicalDecodesAlike | mip-client-rust/src/protocol/header.rs:130-161 | that normalisation is invisible to the decoder and idempotent |
| Protocol.DecodeIsInjectiveUpToCanonical | mip-client-rust/src/protocol/header.rs:130-161 | two accepted buffers mean the same header exactly when their canonical forms agree |
| Protocol.DecodeAccepts | mip-client-rust/src/protocol/header.rs:130-161 | acceptance in terms of bytes, both directions; the "invalid flags" error is unreachable |
| Protocol.DecodeRefuses | mip-client-rust/src/protocol/header.rs:130-161 | which error a refused buffer gets, in terms of its bytes and the order of the tests |
| Protocol.MagicAsNumber | mip-client-ts/index.ts:351-353 | comparing the magic as a number (TypeScript, Python) and as bytes (Rust) is one test |
| Payload.BuildPublishPayload | mip-client-rust/src/client/mod.rs:362-366 | growing the vector in steps yields length, topic, message |
| Payload.PayloadOnTheWire | mip-client-rust/src/client/mod.rs:362-366 | the payload byte for byte: two length bytes, topic, message |
| Payload.PublishedSplit | mip-client-rust/src/client/internals.rs:321-340 | every published payload parses; topic and message are the sent bytes split at the topic length mod 65536 |
| Payload.PublishRoundTrip | mip-client-rust/src/client/mod.rs:358-376 | topic and message come back exactly when the topic is shorter than 65536 bytes |
| Payload.ParsedIsPublished | mip-client-rust/src/client/internals.rs:321-340 | a payload parses exactly when some publish call could have built it, and rebuilding from the parse gives it back |
| Payload.CheckedPublishAgrees | mip-client-ts/index.ts:217-234 | the range-checked builders of TypeScript and Python succeed exactly on the topics that round-trip, with Rust's bytes |
| Framing.ScanIsTheReading | mip-client-rust/src/client/internals.rs:218-261 | the one-shot parse is the only way to read a stream that fits positions, magic, lengths and header verdicts; pieces and rest concatenate to the stream and no complete frame is left |
| Framing.NextIsStable | mip-client-rust/src/client/internals.rs:219-237 | once the loop has decided about the front of the buffer, later bytes do not change the decision |
| Framing.ScanResumes | mip-client-rust/src/client/internals.rs:218-261 | parsing may stop after any prefix and resume on the rest, for all three loops |
| Framing.RestIsFinal | mip-client-rust/src/client/internals.rs:235-237 | what a parse leaves behind is left alone by the next turn, for the same reason |
| Dispatch.DispatchIsProjection | mip-client-rust/src/client/internals.rs:267-296 | raw-frame, ack, message and event logs are the corresponding projections of the stream, in order |
| Dispatch.OtherSignalsAreProjections | mip-client-rust/src/client/internals.rs:297-313 | pongs, server errors, protocol errors, magic errors and close handling match their frames one to one |
| Dispatch.SignalsInOrder | mip-client-rust/src/client/internals.rs:274-306 | at every place of every log the raw frame precedes its other signals and an event its message |
| Dispatch.OtherTypesAreOnlyFrames | mip-client-ts/index.ts:389-424 | a frame of a type without a case of its own is heard as a raw frame only |
| RustReader.ReadTask.ProcessFrame | mip-client-rust/src/client/internals.rs:267-315 | the callbacks invoked for one frame, appended to the log |
| RustReader.ReadTask.HandleData | mip-client-rust/src/client/internals.rs:218-261 | the draining loop takes exactly the pieces of the recursive parse, keeps its rest, and tells listeners about exactly these pieces |
| RustReader.ReadTask.Run | mip-client-rust/src/client/internals.rs:115-142 | any run of reads amounts to the specified sequence of turns |
| RustChunking.RunAgainstScan | mip-client-rust/src/client/internals.rs:218-261 | a run of reads compared with the one-shot parse, including what is thrown away at a bad magic and where reading starts afresh |
| RustChunking.RunConserves | mip-client-rust/src/client/internals.rs:218-261 | frames, skipped headers, discarded buffers and the remaining buffer are the received bytes; the remainder holds no complete frame |
| RustChunking.EachItemTakesAHeader | mip-client-rust/src/client/internals.rs:219-260 | every effective turn removes at least 24 bytes |
| RustChunking.ChunkIndependence | mip-client-rust/src/client/internals.rs:218-261 | the log through the first magic error does not depend on the reads; without one, pieces and remaining buffer agree too |
| RustChunking.CleanRun | mip-client-rust/src/client/internals.rs:218-261 | without a bad magic every frame of the stream is heard, whatever the reads |
| RustChunking.DetectionPoint | mip-client-rust/src/client/internals.rs:221-229 | the least number of bytes after which the bad magic is noticed |
| RustChunking.ResyncExactly | mip-client-rust/src/client/internals.rs:221-229 | past the first bad magic the log is independent of the reads exactly when less than a header, or one waiting header, follows the point where it is noticed |
| RustChunking.NoiseThenPing | mip-client-rust/src/client/internals.rs:221-229 | a concrete stream whose log depends on the reads |
| TsReader.FrameReader.ProcessFrame | mip-client-ts/index.ts:389-424 | the events emitted for one frame, appended to the log |
| TsReader.FrameReader.HandleData | mip-client-ts/index.ts:347-375 | the loop that advances after dispatch resumes the specified parse and destroys the socket exactly at a bad magic |
| TsReader.FrameReader.Run | mip-client-ts/index.ts:176-176 | all data events of one connection |
| TsReader.TsChunkIndependence | mip-client-ts/index.ts:347-375 | any segmentation of any stream gives the log of the one-shot parse, bad magic included |
| PyReader.FrameReader.ProcessFrame | mip-client-python/src/mip_client/__init__.py:447-475 | the callbacks run for one frame, appended to the log |
| PyReader.FrameReader.HandleData | mip-client-python/src/mip_client/__init__.py:407-430 | the loop resumes the specified parse, raises exactly on an unknown frame type, and reports a bad magic it is stuck on again with every read |
| PyReader.FrameReader.Run | mip-client-python/src/mip_client/__init__.py:392-399 | the read loop over a run of reads |
| PyReader.RunScansJoin | mip-client-python/src/mip_client/__init__.py:407-430 | the run's pieces and stop are those of the one-shot parse, and the magic error is reported once for every read after which the bytes received so far run into it |
| PyReader.PyChunkIndependence | mip-client-python/src/mip_client/__init__.py:407-430 | frames and final state do not depend on the reads, and the log exactly when the loop was not already stuck before the last one |
| PyReader.RepeatedMagicError | mip-client-python/src/mip_client/__init__.py:407-416 | concrete reads that report one bad magic twice |
| Agreement.ViewsAgree | mip-client-rust/src/protocol/header.rs:130-161 | Rust's decoded header is the plain field reading exactly for well-formed headers |
| Agreement.RustAgreesExactly | mip-client-ts/index.ts:350-374 | on any stream Rust delivers TypeScript's frames exactly when all of them are well formed |
| Agreement.PythonAgreesExactly | mip-client-python/src/mip_client/__init__.py:432-445 | on any stream Python delivers TypeScript's frames exactly when all are of known type |
| Agreement.ThreeClientsAgree | mip-client-rust/src/client/internals.rs:218-261 | on every stream of well-formed frames the three clients, each with its own reads, hear the same frames in the same order, Rust up to its first magic error if the stream ends in one |
| Agreement.BuildHeader | mip-client-ts/index.ts:291-319 | writing field after field at a moving offset gives the checked header, or an error for a value out of range |
| Agreement.CheckedHeaderRanges | mip-client-ts/index.ts:300-316 | the checked builders refuse exactly the values outside their fields |
| Agreement.BuildersAgree | mip-client-python/src/mip_client/__init__.py:342-365 | the checked builders and Rust's encoder give the same 24 bytes exactly when the length fits its field |
| SendPath.QueueKept | mip-client-rust/src/client/mod.rs:231-233 | every step keeps the queue equal to the accepted commands not yet taken, and within its 100 slots |
| SendPath.WireKept | mip-client-rust/src/client/internals.rs:185-212 | every step keeps the wire equal to the completed frames and a proper beginning of the next |
| SendPath.ShutdownKept | mip-client-rust/src/client/mod.rs:299-319 | every step keeps the order of CLOSE, late PING and stop |
| SendPath.StopKept | mip-client-rust/src/client/internals.rs:198-208 | stops are only where disconnect put them and the write task never passes one |
| SendPath.RunInv | mip-client-rust/src/client/internals.rs:62-101 | all of this in every state of every interleaving |
| SendPath.NothingAcceptedWhileDown | mip-client-rust/src/client/internals.rs:70-74 | while the connected flag is down and nobody is past its check, no frame is accepted in any continuation |
| SendPath.NothingNewAfterLoss | mip-client-rust/src/client/internals.rs:144-152 | once the connection is lost the flag is down and stays down, and no more frames are accepted than there were senders past their check; with none, none |
| SendPath.ReturnedIsDisconnected | mip-client-rust/src/client/mod.rs:313-318 | after disconnect has returned the client is not connected, in every run |
| SendPath.OnlyPingsAfterwards | mip-client-rust/src/client/mod.rs:299-319 | after disconnect has returned or another connect has taken over, only PINGs can be accepted, and none once the ping task has ended |
| SendPath.ConnectionEndings | mip-client-rust/src/client/internals.rs:388-407 | the ping task aborted, disconnect returning, the connection taken over |
| SendPath.WriterEndings | mip-client-rust/src/client/internals.rs:189-210 | a failed write ends the write task, and otherwise only the loss of all senders or a stop does |
| Connection.Shared.TrySend | mip-client-rust/src/client/internals.rs:83-84 | admission to the queue, and refusal when it is full or its receiver gone |
| Connection.Shared.PollSend | mip-client-rust/src/client/internals.rs:98-98 | one poll of an awaited send: done with the command queued, done without it when the receiver is gone, waiting when the queue is full |
| Connection.Shared.SendFrame | mip-client-rust/src/client/internals.rs:62-87 | on success exactly the frame of the arguments is queued, type, flags, length and id in its header; on refusal nothing changes; refused exactly when not connected, full, gone or not admitted; keeps the invariant |
| Connection.Shared.Subscribe | mip-client-rust/src/client/mod.rs:322-337 | queues a SUBSCRIBE frame with the topic, ACK_REQUIRED if asked for |
| Connection.Shared.Unsubscribe | mip-client-rust/src/client/mod.rs:340-355 | queues an UNSUBSCRIBE frame with the topic, ACK_REQUIRED if asked for |
| Connection.Shared.Publish | mip-client-rust/src/client/mod.rs:358-376 | queues a PUBLISH frame with topic and message and the flags given |
| Connection.Shared.Ping | mip-client-rust/src/client/mod.rs:379-388 | queues an empty PING frame |
| Connection.Shared.SendHello | mip-client-rust/src/client/mod.rs:272-292 | on success a HELLO with the client id is queued; a refused one drops both flags, one after the other |
| Connection.Shared.PingRound | mip-client-rust/src/client/internals.rs:357-380 | one round, begun or resumed: two flag checks, then an empty PING queued; left waiting exactly when the queue is full |
| Connection.Shared.SendCloseInternal | mip-client-rust/src/client/internals.rs:89-101 | begun or resumed: an empty CLOSE is queued and its place recorded, exactly when the connected flag was up and there is room |
| Connection.Shared.SendStop | mip-client-rust/src/client/mod.rs:311-311 | the stop is queued once there is room |
| Connection.Shared.Disconnect | mip-client-rust/src/client/mod.rs:299-311 | begun or resumed after a wait: running is cleared, then CLOSE queued if connected, then the stop, each once |
| Connection.Shared.WriterTurn | mip-client-rust/src/client/internals.rs:190-210 | one turn of the write task, with a write failing after any number of bytes, none included; keeps the invariant |
| EndToEnd.FrameRoundTrip | mip-client-rust/src/client/internals.rs:76-81 | a frame on the wire is read back as itself by each client exactly when its payload is shorter than 2^32 bytes; Rust alone drops undefined flags |
| EndToEnd.WhatArrives | mip-client-rust/src/client/internals.rs:190-197 | any part of the wire is the maximal number of whole accepted frames and a part of the next |
| EndToEnd.EndToEndDelivery | mip-client-rust/src/client/internals.rs:185-261 | for every interleaving and every re-chunking the peer hears the accepted frames in order, as many as have arrived, and all owed once everything is written; no errors |
| EndToEnd.DeliveryToOtherClients | mip-client-ts/index.ts:347-375 | the same for TypeScript and Python peers, headers exactly as submitted and whole logs included: no errors, and nothing but what the arrived frames cause |
| EndToEnd.DefinedFlagsTravel | mip-client-rust/src/protocol/header.rs:140-143 | the header handed over is the one submitted, at a Rust peer exactly when its flags are defined, at the others always |
| EndToEnd.HeardAs | mip-client-rust/src/client/internals.rs:267-315 | what listeners are told for a frame of each type, the header field for field, in all three clients |
| EndToEnd.PublishedIsHeard | mip-client-rust/src/client/mod.rs:358-376 | a published message is heard as itself exactly when its topic is shorter than 65536 bytes |
| EndToEnd.EndToEndMessages | mip-client-rust/src/client/internals.rs:279-291 | the messages heard are those of the frames that have arrived, in order |
| Shutdown.ShutdownOrder | mip-client-rust/src/client/mod.rs:299-319 | once disconnect has queued CLOSE, the wire is a beginning of: earlier frames, CLOSE, at most one PING |
| Shutdown.HaltedForGood | mip-client-rust/src/client/internals.rs:198-208 | after the write task stops no byte is written in any continuation |
| Shutdown.Drain | mip-client-rust/src/client/internals.rs:189-197 | from any reachable state before a stop, a running write task can write out all that is queued |
| Shutdown.LatePing | mip-client-rust/src/client/internals.rs:361-379 | with the connected flag up, the ping task past its checks and the write task running, some continuation puts CLOSE and then a PING on the wire |
| Shutdown.CloseIsLastExactly | mip-client-rust/src/client/mod.rs:299-319 | nothing follows disconnect's CLOSE in any continuation, exactly unless those three conditions hold when disconnect begins |
| Shutdown.PingMayFollowClose | mip-client-rust/src/client/internals.rs:361-379 | a concrete run with HELLO, CLOSE and a PING on the wire, in this order |
| EndToEnd.PublishedMessagesArrive | mip-client-rust/src/client/mod.rs:358-376 | if every accepted message frame is a publish call whose topic fits, the messages heard are exactly the pairs of topic and message published first, in order |
| EndToEnd.PublishedMessagesArriveElsewhere | mip-client-ts/index.ts:389-402 | the same at TypeScript and Python peers |
| MessageIds.EarlierCallsGetSmallerIds | mip-client-rust/src/client/internals.rs:36-43 | a call that ends before another begins gets a strictly smaller id, in every interleaving |
| MessageIds.IdIsClockPlusRank | mip-client-rust/src/client/internals.rs:36-43 | an id is the clock reading plus the number of calls that began before |
| MessageIds.IdWraps | mip-client-rust/src/client/internals.rs:38-42 | the sum modulo 2^64 otherwise |
| MessageIds.EqualIdsNest | mip-client-rust/src/client/internals.rs:36-43 | ids are equal exactly when clock and count differences cancel, and then one call lies inside the other |
| MessageIds.NestedCallsCollide | mip-client-rust/src/client/internals.rs:36-43 | if one call lies inside another, some advancing clock gives both the same id, with the same steps in the same order |
| MessageIds.CollisionNeedsNesting | mip-client-rust/src/client/internals.rs:36-43 | for every order of steps, some advancing clock gives two calls the same id exactly if one lies inside the other |
| MessageIds.OverlappingCallsMayCollide | mip-client-rust/src/client/internals.rs:36-43 | a concrete interleaving, one call inside another, with equal ids |
| MessageIds.IdGenerator.GenerateMsgId | mip-client-ts/index.ts:286-289 | one call of the generator |
| MessageIds.GenerateAll | mip-client-ts/index.ts:286-289 | a run of calls of one generator gives the ids the other lemmas are about |
| MessageIds.TsIdsCollideExactly | mip-client-ts/index.ts:286-289 | under any clock ids are equal exactly when it went back by the right amount; never within a million calls |
| MessageIds.TsIdsIncrease | mip-client-ts/index.ts:286-289 | ids increase when the clock does not go back |
| MessageIds.TsIdsFit | mip-client-ts/index.ts:286-289 | up to the stated clock and counter values every id fits 64 bits, and the bound is tight |
| LifecycleClient.MIPClient.constructor | mip-client-ts/index.ts:115-127 | a new client satisfies the invariant |
| LifecycleClient.MIPClient.Cleanup | mip-client-ts/index.ts:494-503 | no timer is left pending, and of the live intervals only those leaked by overlapping connects remain |
| LifecycleClient.MIPClient.ScheduleReconnect | mip-client-ts/index.ts:457-482 | afterwards a timer is pending or the attempts are used up; numbering and timer counts stay exact |
| LifecycleClient.MIPClient.HandleClose | mip-client-ts/index.ts:443-455 | the session and its ping timer are gone, with reconnection on a timer is pending or the attempts are used up, and the invariant holds whatever the sockets are |
| LifecycleClient.MIPClient.Connect | mip-client-ts/index.ts:139-186 | nothing while connected; otherwise one new socket, dialling and current, and nothing else; restores the invariant after a timer has fired |
| LifecycleClient.MIPClient.SetupPingInterval | mip-client-ts/index.ts:484-492 | with pings on, the handle remembered is a new one and the older intervals stay live |
| LifecycleClient.MIPClient.OnConnect | mip-client-ts/index.ts:149-164 | connected with all attempts back and a ping timer exactly when pings are on; keeps the invariant |
| LifecycleClient.MIPClient.OnError | mip-client-ts/index.ts:166-182 | an error neither ends the session nor costs an attempt; keeps the invariant |
| LifecycleClient.MIPClient.Disconnect | mip-client-ts/index.ts:189-198 | no session, socket, timer or reconnection is left and nothing is reported; keeps the invariant |
| LifecycleClient.MIPClient.Deliver | mip-client-ts/index.ts:173-182 | one event of any kind is one step of the state machine and keeps the invariant |
| LifecycleClient.MIPClient.DeliverAll | mip-client-ts/index.ts:139-198 | a run of events is a run of the state machine; at its end the ping timer is set exactly when connected with pings on and the attempts are within the maximum |
| LifecycleProofs.RunInv | mip-client-ts/index.ts:443-503 | timers, numbering, sessions, ping timers, sockets and progress are in order in every state of every run |
| LifecycleTheorems.NoStuckState | mip-client-ts/index.ts:443-482 | with reconnection on, a disconnected client with nothing outstanding has used up its attempts; it is never connected without a live socket |
| LifecycleTheorems.AttemptNumbering | mip-client-ts/index.ts:457-482 | reconnecting events are numbered 1, 2, ... between connects, within the maximum, and equal timers fired, cleared and pending |
| LifecycleTheorems.EveryCloseCounts | mip-client-ts/index.ts:443-503 | the exact cost and log of a close, also when a timer is already pending |
| LifecycleTheorems.AnnouncedOutageCost | mip-client-ts/index.ts:420-482 | a CLOSE frame and the socket's close cost one attempt exactly if one was left, and then no timer remains; otherwise two |
| LifecycleTheorems.AttemptsAccount | mip-client-ts/index.ts:443-482 | in every run the attempts used are the closes, CLOSE frames and rejection handlers without a pending timer since the last successful dial, capped at the maximum |
| LifecycleTheorems.OneOutageCountedTwice | mip-client-ts/index.ts:420-455 | a concrete run in which one outage costs two attempts |
| LifecycleTheorems.RejectionBeforeCloseCostsTwo | mip-client-ts/index.ts:473-480 | what a failed dial costs, exactly, for both orders of close event and rejection handler and any maximum |
| LifecycleTheorems.FailedDialCosts | mip-client-ts/index.ts:166-186 | concrete runs from the start showing both costs |
| LifecycleTheorems.SessionAccounting | mip-client-ts/index.ts:149-198 | the ping timer is set exactly when connected with pings on; every disconnect event has its own connect event |
| LifecycleTheorems.LeakedIntervals | mip-client-ts/index.ts:484-503 | live intervals beyond the session's own equal the connect events received while connected |
| LifecycleTheorems.OverlapLeaksInterval | mip-client-ts/index.ts:484-503 | a concrete run in which two dials succeed and one interval outlives disconnect |
| LifecycleTheorems.StaysConnectedExactly | mip-client-ts/index.ts:443-455 | which events end a session: any socket's close, a CLOSE frame, disconnect, and no others |
| LifecycleTheorems.OldSocketEndsNewSession | mip-client-ts/index.ts:177-177 | a concrete run in which a late close ends a newer session |
| LifecycleTheorems.DisconnectIsFinal | mip-client-ts/index.ts:189-198 | after disconnect no timer, no reconnecting event and no dial but those of later connect calls, in every continuation |
| LifecycleTheorems.StaysDisconnected | mip-client-ts/index.ts:189-198 | disconnect destroys the current socket; without an older dial the client is neither connected nor dialling in any continuation without a connect call |
| LifecycleTheorems.ReconnectedAfterDisconnectExactly | mip-client-ts/index.ts:143-198 | the client can be connected again without a connect call exactly if an older dial is under way when disconnect is called |
| LifecycleTheorems.OlderDialSurvivesDisconnect | mip-client-ts/index.ts:146-198 | a concrete run in which an older dial connects after disconnect |
| LifecycleEvents.PossibleExactly | mip-client-ts/index.ts:173-182 | which events a socket can deliver in which phase |
| LifecycleEvents.HeardOf | mip-client-ts/index.ts:139-198 | what listeners hear of each event, exactly and in order |
| LifecycleEvents.FieldsAfter | mip-client-ts/index.ts:443-503 | connection, attempts and reconnect timer after each event |
| LifecycleEvents.PingTimerAfter | mip-client-ts/index.ts:484-503 | ping timer and live intervals after each event |
| LifecycleEvents.SocketsAfter | mip-client-ts/index.ts:139-198 | all sockets after each event |
| LifecycleEvents.CurrentSocketAfter | mip-client-ts/index.ts:139-198 | the current socket and the outstanding rejections after each event |
| LifecycleEvents.ConnectDialsOnce | mip-client-ts/index.ts:139-147 | connect() does nothing on a connected client and otherwise dials once, whole state given |
| LifecycleEvents.NoDialWhileConnected | mip-client-ts/index.ts:139-147 | no socket is created in any stretch of events through which the client is connected |
| LifecycleEvents.DisconnectEvents | mip-client-ts/index.ts:443-451 | a disconnect event comes exactly with a close or a CLOSE frame while connected |
| LifecycleEvents.DisconnectIsSilent | mip-client-ts/index.ts:189-198 | disconnect() reports nothing, and without an older dial or a connect call no disconnect event comes in any continuation |
| LifecycleEvents.BadMagicDestroys | mip-client-ts/index.ts:353-357 | non-MSIP data destroys the current socket, which then owes its close; the session lasts until that |
| LifecycleTheorems.WorkIsPaidFor | mip-client-ts/index.ts:166-186 | in any run the internal steps are bounded by the initial energy and the dials and successes on the way |
| LifecycleTheorems.RetriesTerminate | mip-client-ts/index.ts:457-482 | with a maximum set and no connect call or success, a bounded number of internal steps remains |

## Left out

- Sockets, schedulers and real time: reads are arbitrary chunks, writes append to a byte sequence, timers may fire at any later step.
- Reconnection in Rust: the read task announces an attempt and sleeps but does not dial again, so there is nothing to prove about it.
- Connection handling in Python: only its codec, framing loop and read loop are modelled; what happens after `_handle_data` raises is not.
- Invalid UTF-8: lossy replacement in Rust and TypeScript and the decoding error in Python are not modelled.
- Listeners that call back into the client, and several or no listeners for one event.
- Data of an older TypeScript socket arriving after a new dial: the framing results are about the data of one connection.
- The bytes TypeScript writes, its `clientId` after HELLO and the effect of a ping interval that fires.
- Callback registration, option builders, frame-type names, logging and the example program.
- LifecycleTheorems.RetriesTerminate: bounds socket errors, closes, timer firings and rejection handlers; CLOSE frames and non-MSIP data that a peer keeps sending on an open socket are input, and are not bounded.
- MessageIds.EarlierCallsGetSmallerIds: assumes a clock that does not go back and no wrap-around of timestamp or counter; the wrap-around itself is in the model's `RustId` and `Step`.
