# Verified model of the Roammand host core

Roammand's host is built from small state machines that never touch the network themselves.
This project models the ones that carry its promises and proves those promises for every
input, every run and every failure of what lies beneath.

Each stateful component appears twice, on purpose. A `class` has the fields, branches, loops
and error cases of the source. A datatype (or a set of functions) of the same shape gives the
meaning of one call, and every method of the class is proved to leave exactly the state and
return exactly the answer that this meaning prescribes (`ensures (View(), r) == old(View()).Op(...)`).
What the meaning of a call is, independently of its branches, is stated by the lemmas named `...Iff`:
when exactly it succeeds, and what it then leaves. The theorems about whole runs are lemmas about it; the shortest of these methods,
such as reading a queue's slot, have no row below. Where the environment decides
(a native input backend, the store, the WebRTC peer, the host service) the class is proved
directly against contracts that hold whatever the environment does, and a `Drive` method runs
any sequence of calls.

| files | component |
|---|---|
| `Framing`, `FrameDecoding` | length-prefixed frames: a reference parse, and the decoder that keeps a partial header and payload |
| `Transcript`, `TranscriptCodec` | canonical transcript printer and parser |
| `BridgeAuth` | bridge authentication and its bounded nonce cache |
| `SessionRoutes`, `Leases`, `Broker` | the privileged broker: route machine, lease machine and the session over both |
| `BridgeFrames`, `EventQueues`, `BridgeRpc`, `BridgeWire`, `Proxy`, `HelperProtocol` | the three ends of the privileged bridge |
| `EventDelivery`, `EventConservation`, `EventOvertaking` | Helper, Broker and Host composed: what of the Helper's events reaches the Host, what is kept, what is lost and what that costs |
| `Renewal` | Host and Broker composed over two clocks: lease renewal |
| `Pairing`, `PairingCalls`, `PairingRuns`, `PairingOutput` | the pairing coordinator, where its grants come from, what it ever sends |
| `InputSink`, `HostSession`, `RemoteSession` | input injection over an unreliable backend, the peer session, the coordinator with its reconnect window |
| `OfferVerifier` | session offers, their signed transcripts, the pruned replay cache |
| `Authorization` | the grant registry against its store |
| `CargoRoles` | the dependency-role worklist of the release tooling |

Main results, hardest first:

1. **Event delivery** (`EventDelivery`, `EventConservation`, `EventOvertaking`). Over every interleaving
   of Helper, Broker and Host, with any responses, garbage and broken connections on the links, the Host
   is handed exactly the first n events the Helper's backend raised, unaltered (`EventsArriveAsRaised`,
   `DeliveryIsAPrefix`). While neither end has
   failed, every undelivered critical event is on the links, once and in order (`NothingCriticalIsLost`),
   and an event on neither link is a fast pointer that a newer one replaced while it waited, the newer one
   being there (`OnlyReplacedPointersAreLost`; `OverwriteAtBrokerIsLost` and `OverwriteAtHostIsLost` are the
   converse). Losing an event has a price: neither it nor any event after it is ever delivered
   (`LostEventEndsDelivery`). The same holds for a pointer that waits while a newer critical event is queued
   on its link, because critical events leave first (`OvertakenPointerEndsDelivery`).
2. **Two-clock renewal** (`Renewal`). `NeverTooSoon` and `NeverExpires` hold in runs of any length;
   `MarginIsExact` shows the 250 ms exact: from any grant, the first renewal sent as it falls due is
   too soon if and only if the Broker's clock lost more.
3. **Pairing provenance, informed decision and output discipline** (`GrantProvenance`, `DecisionIsInformed`,
   `OutputDiscipline`).
4. **Broker authority and operation numbering** (`BrokerAuthority`, `RoutedIff`, `OperationsAreNumbered`,
   `RejectionIsFinalForTheLease`) over leases that are never revived (`ExpiryIsFinal`, `ActiveLeaseIsUnbroken`).
5. **Chunking does not matter** (`ChunkingDoesNotMatter`, `RechunkedRoundTrip`).
6. **The pruned replay cache refines a log that forgets nothing** (`PrunedCacheRefinesLog`), and, for
   clocks that move in any way, exactly when a repeated offer is caught (`RepeatIsCaughtIffUnpruned`):
   the code does not promise it when the clock falls back (`ClockFallingBackExample`).
7. **No stuck input and a reconnect window that cannot be stretched** (`HostSession.Drive`,
   `RemoteSession.Drive`): each returns the history of the run and ensures its claim at every moment of it.
8. **Transcript printer and parser are mutual inverses** (`MutualInverses`).
9. **Memory and store agree and reload to the same grants**, from any snapshot the code accepts
   (`AcceptedSnapshotIsWellFormed`, `ReloadGivesSameGrants`, `Authorization.Drive`).
10. **The worklist computes exact reachability** (`CargoDependencyRoles`, `ExactIsUnique`).
11. **The action log reconstructs the route machine** (`LogReconstructsState`, `SessionsAreSeparated`).
12. **Sliding-window distinctness of nonces** (`AcceptedWindowsAreDistinct`).

Conventions: bytes are `Byte` (0..255); fixed-width integers are subset types and every checked,
saturating or overflowing step is written out. Cryptography is opaque: functions passed in, with the
one fact used about them stated where it is used (`Crypto.Sound`: a hello verifies only for the
device that sent it). Randomness, clocks and what arrives from a peer are parameters.

## Model

| member | source | states |
|---|---|---|
| `Framing.EncodeFrameWithLimit` | crates/ipc/src/framing.rs:36-44 | encoding succeeds exactly for a valid limit and a payload of 1..limit bytes, and the reference parse of the result is that payload with nothing left over |
| `Framing.ParseIsIncremental` | crates/ipc/src/framing.rs:125-158 | parsing a stream in two pieces, carrying only the open remainder, is parsing it whole |
| `Framing.OpenRestIsPartial` | crates/ipc/src/framing.rs:125-158 | what an unfinished parse leaves over contains no complete frame and no rejected length |
| `Framing.ParseInvertsEncoding` | crates/ipc/src/framing.rs:36-44 | any list of payloads of 1..limit bytes, encoded and concatenated, parses to exactly that list |
| `Framing.ParsedBytesAreEncodings` | crates/ipc/src/framing.rs:110-158 | the bytes consumed by a parse that was not rejected are exactly the encodings of the frames it returned, followed by the open remainder |
| `Framing.ParseIffEncoding` | crates/ipc/src/framing.rs:110-158 | a stream ends between frames having yielded a list iff it is that list's concatenated encoding |
| `FrameDecoding.WithLimit` | crates/ipc/src/framing.rs:75-83 | a limit of zero or beyond the four-byte prefix is refused, any other gives a decoder that holds nothing and has not failed |
| `FrameDecoding.FrameDecoder.Push` | crates/ipc/src/framing.rs:91-103 | one push delivers what the reference parse of the retained bytes plus the chunk delivers, retains its remainder, and latches failure on a zero or oversized length |
| `FrameDecoding.FrameDecoder.PushValid` | crates/ipc/src/framing.rs:125-158 | the loop over the chunk agrees with the reference parse at every offset |
| `FrameDecoding.FrameDecoder.Finish` | crates/ipc/src/framing.rs:110-118 | finishing succeeds exactly when the decoder has not failed and retains nothing |
| `FrameDecoding.FrameDecoder.BufferedBytes` | crates/ipc/src/framing.rs:121-123 | counts the retained bytes, a completed header aside, and stays below a header or the limit |
| `FrameDecoding.FrameDecoder.PendingIsPartial` | crates/ipc/src/framing.rs:47-54 | a decoder that has not failed always holds a proper part of one frame |
| `FrameDecoding.ChunkingDoesNotMatter` | crates/ipc/src/framing.rs:91-158 | for every stream and every way of cutting it: failure iff the parse of the whole stream meets a rejected length, delivered frames a prefix of that parse, all of it when nothing failed |
| `FrameDecoding.SameBytesSameDecoder` | crates/ipc/src/framing.rs:91-158 | two cuts of one stream leave decoders in the same state with the same frames delivered |
| `FrameDecoding.RechunkedRoundTrip` | crates/ipc/src/framing.rs:36-158 | a run ends cleanly with a list of payloads delivered iff the bytes pushed are their concatenated encodings |
| `FrameDecoding.DecodeExactBridgeFrame` | crates/privileged-bridge/src/framing.rs:36-46 | succeeds iff the input is exactly one encoded frame, returns its payload, and otherwise says why |
| `Transcript.ValidIffWellFormed` | gen/rust/src/canonical_transcript.rs:184-228 | the field checks pass iff the fields are exactly the required tags in order, each of its fixed length |
| `Transcript.NeverTooLong` | gen/rust/src/canonical_transcript.rs:92-129 | encoding succeeds iff the transcript is well formed, and the 4,096-byte limit is never what stops it |
| `Transcript.DecodeInvertsEncode` | gen/rust/src/canonical_transcript.rs:92-178 | decoding an encoded transcript gives it back |
| `Transcript.EncodeInvertsDecode` | gen/rust/src/canonical_transcript.rs:92-178 | accepted bytes are the encoding of what they decode to, so there is one encoding per transcript |
| `Transcript.MutualInverses` | gen/rust/src/canonical_transcript.rs:92-178 | for all bytes and transcripts, decode(b) = Ok(t) iff encode(t) = Ok(b) |
| `Transcript.EncodingIsInjective` | gen/rust/src/canonical_transcript.rs:92-129 | distinct transcripts, also of different purposes, never share bytes |
| `TranscriptCodec.Encode` | gen/rust/src/canonical_transcript.rs:92-129 | the buffer-filling loop writes the specified encoding, and what it writes decodes to the input |
| `TranscriptCodec.Decode` | gen/rust/src/canonical_transcript.rs:131-178 | the reader-driven parser is the specified decoder, with the same error first, and what it accepts re-encodes to the same bytes |
| `TranscriptCodec.ValidateFields` | gen/rust/src/canonical_transcript.rs:184-228 | the checking loop passes exactly the well-formed field lists |
| `TranscriptCodec.ReadFields` | gen/rust/src/canonical_transcript.rs:150-170 | reading the announced number of fields consumes exactly their bytes, or fails where the specification fails |
| `BridgeAuth.AcceptedWindowsAreDistinct` | crates/privileged-bridge/src/auth.rs:69-81 | over any run of claims, any capacity + 1 consecutive accepted nonces are pairwise distinct |
| `BridgeAuth.NonceReplayGuard.CacheIsTheQueue` | crates/privileged-bridge/src/auth.rs:46-81 | the set holds exactly the queue's contents, without duplicates, at most `capacity` of them |
| `BridgeAuth.NonceReplayGuard.Claim` | crates/privileged-bridge/src/auth.rs:69-81 | a nonce is refused iff it is among the last `capacity` ever accepted; otherwise it is appended to that history |
| `BridgeAuth.NewReplayGuard` | crates/privileged-bridge/src/auth.rs:58-67 | a zero capacity is refused, any other gives an empty guard |
| `BridgeAuth.BridgeAuthenticator.Authenticate` | crates/privileged-bridge/src/auth.rs:120-157 | succeeds exactly on a first, well-formed, unreflected and proved nonce outside the replay window, and only then; no nonce is spent on any other request |
| `SessionRoutes.SessionStateMachine.Apply` | crates/privileged-bridge/src/session.rs:84-100 | applies a route event with the answer and state the meaning of that event prescribes |
| `SessionRoutes.SessionStateMachine.BeginControl` | crates/privileged-bridge/src/session.rs:101-109 | control begins only on the current route's own generation |
| `SessionRoutes.LogReconstructsState` | crates/privileged-bridge/src/session.rs:84-197 | after any run, replaying the emitted actions and the successful control calls gives back the current route and the input switch |
| `SessionRoutes.GenerationsRiseByOne` | crates/privileged-bridge/src/session.rs:131-197 | a failed operation changes and emits nothing; a generation rises by exactly one after the first; input is frozen and released whenever it rises |
| `SessionRoutes.AvailableIff` | crates/privileged-bridge/src/session.rs:131-164 | an available session is published exactly when it is of the next generation, has an OS session and keeps that of the current route; whatever was controlled is frozen first; each refusal has its reason |
| `SessionRoutes.UnavailableIff` | crates/privileged-bridge/src/session.rs:165-197 | an event that makes the route unavailable takes effect exactly when it is of the next generation: no route, control or input is left, freezing comes first and a published route is cleared |
| `SessionRoutes.BeginIff` | crates/privileged-bridge/src/session.rs:101-109 | control begins exactly on the published route's own generation |
| `SessionRoutes.SessionsAreSeparated` | crates/privileged-bridge/src/session.rs:131-197 | in any run, two published routes of different OS sessions have a ClearRoute between them |
| `Leases.LeaseManager.Acquire` | crates/privileged-bridge/src/lease.rs:239-281 | grants the sole lease, or refuses with the first failing check and no change |
| `Leases.LeaseManager.Renew` | crates/privileged-bridge/src/lease.rs:282-313 | renews a live lease no sooner than 5,000 ms after its last renewal; an expired one is frozen; an unrepresentable expiry is reported after the renewal time was written |
| `Leases.LeaseManager.AuthorizeCommand` | crates/privileged-bridge/src/lease.rs:314-336 | authorizes exactly the next command number of a live lease |
| `Leases.LeaseManager.ReleaseOrClose` | crates/privileged-bridge/src/lease.rs:343-390 | ends the named lease, or recognises the one just released |
| `Leases.ReleaseIsFinal` | crates/privileged-bridge/src/lease.rs:343-390 | in any run after a release, until another lease is granted, releasing again answers false and changes nothing, and no renewal or command of that lease succeeds |
| `Leases.AcquireIff` | crates/privileged-bridge/src/lease.rs:239-281 | a lease is granted exactly to the connected Host of that generation, while none is active, under a valid name and a nonzero identifier, for 15,000 ms; each refusal has its reason and changes nothing |
| `Leases.RenewIff` | crates/privileged-bridge/src/lease.rs:282-313 | a renewal succeeds exactly when it names the active lease, at least 5,000 ms after the last renewal and before the expiry, and then runs 15,000 ms from now; an expired lease ends instead |
| `Leases.AuthorizeIff` | crates/privileged-bridge/src/lease.rs:314-336 | a command is authorized exactly when it names the live lease and carries its next number |
| `Leases.ReleaseIff` | crates/privileged-bridge/src/lease.rs:343-390 | a release ends exactly the lease it names, and recognises the one just ended |
| `Leases.OtherCallsIff` | crates/privileged-bridge/src/lease.rs:216-231 | expiry, disconnection and connection, each with its exact condition and whole effect |
| `Leases.ExpiryIsFinal` | crates/privileged-bridge/src/lease.rs:290-293 | in any run, with any clock, once an operation has read a clock at or past the expiry of the lease it names, no lease is active and no renewal or command succeeds until another is granted |
| `Leases.ActiveLeaseIsUnbroken` | crates/privileged-bridge/src/lease.rs:239-313 | in every run, with any clock, an active lease was granted and then renewed in a chain of gaps of at least 5,000 and less than 15,000 ms, and expires 15,000 ms after its last link |
| `Broker.HostBrokerSession.Handle` | crates/privileged-bridge/src/broker.rs:192-258 | dispatches a request with the checks, counters, leases and Helper exchange its meaning prescribes |
| `Broker.HostBrokerSession.Acquire` | crates/privileged-bridge/src/broker.rs:294-325 | a granted lease resets the operation counter and fixes the permission list |
| `Broker.HostBrokerSession.ForwardAuthorized` | crates/privileged-bridge/src/broker.rs:327-357 | a routed request is counted before the lease is asked, so a refused one still consumes its number |
| `Broker.HostBrokerSession.Forward` | crates/privileged-bridge/src/broker.rs:359-376 | one exchange with the Helper, whose answer must echo the request and name the route |
| `Broker.HostBrokerSession.TryEvent` | crates/privileged-bridge/src/broker.rs:259-278 | only an event of the active lease's route passes |
| `Broker.NewSession` | crates/privileged-bridge/src/runtime.rs:637-655 | the connection setup builds exactly the state the runs below start from, with secure attention allowed only on a Windows route at its login or secure desktop |
| `Broker.SetupIsConsistent` | crates/privileged-bridge/src/runtime.rs:637-655 | that state satisfies the invariant tying route, leases, permissions, counters and history |
| `Broker.GrantedLeaseBeginsControl` | crates/privileged-bridge/src/broker.rs:294-325 | in a consistent session `begin_control` cannot refuse a lease that was just granted |
| `Broker.RunKeepsInv` | crates/privileged-bridge/src/broker.rs:169-376 | every run keeps the permission list, the lease's `may_control_input`, both counters and the history in agreement |
| `Broker.BrokerAuthority` | crates/privileged-bridge/src/broker.rs:192-357 | in every run from the setup for a route, an input or secure attention reaches the Helper only under a lease active and unexpired at that time, named exactly, granted with input control; and secure attention is allowed just as that route allows it |
| `Broker.RoutedIff` | crates/privileged-bridge/src/broker.rs:192-376 | a routed request is handed to the Helper exactly when it is allowed, names the live lease and its controller, carries the next number and the link works; it is answered exactly when the Helper then answers it for that route, with the Helper's answer; otherwise it is at most counted |
| `Broker.RefusalNamesItsFault` | crates/privileged-bridge/src/broker.rs:327-376 | every refusal of a routed request names something that is wrong |
| `Broker.RenewalIff` | crates/privileged-bridge/src/broker.rs:192-258 | a renewal succeeds exactly when the lease can be renewed, and answers with the renewed lease |
| `Broker.ReleaseRequestIff` | crates/privileged-bridge/src/broker.rs:192-258 | a release succeeds exactly when the Helper acknowledges it and the lease is, or was just, the one named |
| `Broker.AcquisitionIff` | crates/privileged-bridge/src/broker.rs:294-325 | an acquisition succeeds exactly when the lease manager grants and the route can be controlled, and starts the count anew |
| `Broker.PollIff` | crates/privileged-bridge/src/broker.rs:259-278 | a poll passes exactly an event of the active lease's route, and fails the link on one of another |
| `Broker.EndingsIff` | crates/privileged-bridge/src/broker.rs:279-293 | expiry and shutdown, with their exact condition and whole effect |
| `Broker.OperationsAreNumbered` | crates/privileged-bridge/src/broker.rs:343-356 | in every run, the operations forwarded since the current grant are numbered 1..k |
| `Broker.RejectionIsFinalForTheLease` | crates/privileged-bridge/src/lease.rs:314-336 | once the lease manager refuses a routed operation, every later routed operation of any continuation is refused until another grant |
| `EventQueues.EventQueue.PushCritical` | crates/privileged-bridge/src/framing.rs:187-203 | critical events queue in order; the 257th empties the queue and latches failure |
| `EventQueues.EventQueue.PushFast` | crates/privileged-bridge/src/framing.rs:204-216 | the newest fast event replaces the one waiting |
| `EventQueues.QueueIff` | crates/privileged-bridge/src/framing.rs:187-231 | each operation of the queue, with its exact condition and whole effect |
| `EventQueues.RequestTracker.Begin` | crates/privileged-bridge/src/framing.rs:126-144 | at most 32 distinct identifiers of 1..64 UTF-8 bytes are pending, each refusal with its reason |
| `EventQueues.RequestTracker.Complete` | crates/privileged-bridge/src/framing.rs:145-151 | an identifier completes exactly once |
| `BridgeRpc.FramedBridgeRpc.Call` | crates/privileged-bridge/src/rpc.rs:81-111 | the receive loop queues events and ends at the first response, an error or a broken link, sending one frame at most |
| `BridgeRpc.FramedBridgeRpc.TryEvent` | crates/privileged-bridge/src/rpc.rs:112-134 | a queued event goes first, critical before fast; otherwise at most one item is received; an unsolicited response fails the link |
| `BridgeRpc.FramedBridgeRpc.EnqueueEvent` | crates/privileged-bridge/src/rpc.rs:39-62 | fast pointers go to the slot, other events to the queue, responses are handed back |
| `BridgeRpc.ResponseIsCorrelated` | crates/privileged-bridge/src/rpc.rs:81-111 | a returned response carries the request's id and number, was received, and is no event; every error fails the link |
| `BridgeRpc.AwaitIff` | crates/privileged-bridge/src/rpc.rs:81-111 | a wait ends with a response exactly when one arrives behind nothing but events for which the queue has room; those are then queued in order, the newest pointer waiting |
| `BridgeRpc.CallIff` | crates/privileged-bridge/src/rpc.rs:81-111 | a call sends its request once, exactly if the link works |
| `BridgeRpc.TryEventIff` | crates/privileged-bridge/src/rpc.rs:64-134 | a poll hands over the oldest critical event, else the waiting pointer, else the event just arriving |
| `BridgeWire.ProtobufBridgeWire.Call` | crates/privileged-bridge/src/client.rs:346-384 | one numbered frame per call, bound to one route, closing on any mismatch |
| `BridgeWire.ProtobufBridgeWire.RenewIfDue` | crates/privileged-bridge/src/client.rs:414-439 | renews once 5,250 ms have passed by its own clock, and dates the renewal by the clock read after the answer |
| `BridgeWire.ProtobufBridgeWire.Perform` | crates/privileged-bridge/src/client.rs:471-571 | every operation but close and release renews first, and accepts only its own kind of answer |
| `BridgeWire.ProtobufBridgeWire.TryEvent` | crates/privileged-bridge/src/client.rs:573-616 | an event is reported with its route and number, anything else closes the wire |
| `BridgeWire.WireCallIff` | crates/privileged-bridge/src/client.rs:346-384 | a call sends one frame with its payload, number and identifier exactly when the wire can still send for that route, and succeeds exactly when the link answers it |
| `BridgeWire.RenewIfDueIff` | crates/privileged-bridge/src/client.rs:414-439 | a renewal is attempted exactly when 5,250 ms have passed, and succeeds exactly on a lease of the very route |
| `BridgeWire.PerformIff` | crates/privileged-bridge/src/client.rs:471-571 | an operation renews first unless it closes or releases, sends exactly its own request, and succeeds exactly on an answer of its own kind |
| `BridgeWire.PollIff` | crates/privileged-bridge/src/client.rs:573-616 | a poll reports exactly an event frame that is complete, with its own number and route |
| `BridgeWire.RequestIdsAreDistinct` | crates/privileged-bridge/src/client.rs:754-759 | no two frames share a request identifier, within a route or across generations |
| `Proxy.ProxyShared.Perform` | crates/privileged-bridge/src/proxy.rs:298-330 | numbers each request and closes on any error, foreign route or foreign number |
| `Proxy.ProxyShared.Close` | crates/privileged-bridge/src/proxy.rs:377-388 | attempts both the close and the release, once |
| `Proxy.ProxyShared.TryRecv` | crates/privileged-bridge/src/proxy.rs:456-482 | hands out only the event numbered next and of the proxy's route |
| `Proxy.OneErrorIsTheEnd` | crates/privileged-bridge/src/proxy.rs:298-388 | after any operation, poll or close that reports an error (numbers not about to run out), every continuation leaves the wire as it is and every later operation or poll reports FailedClosed |
| `Proxy.ProxyPerformIff` | crates/privileged-bridge/src/proxy.rs:298-330 | an operation succeeds exactly when the wire answers for the proxy's route and number; any other end closes the proxy |
| `Proxy.ProxyRecvIff` | crates/privileged-bridge/src/proxy.rs:456-482 | a poll hands out exactly the event of the proxy's route numbered next |
| `Proxy.ProxyCloseIff` | crates/privileged-bridge/src/proxy.rs:377-388 | closing performs a close and a release, once, whatever becomes of the first |
| `HelperProtocol.Helper.Handle` | crates/privileged-bridge/src/helper.rs:176-195 | carries out a request as its meaning prescribes; a backend failure latches |
| `HelperProtocol.Helper.TryEvent` | crates/privileged-bridge/src/helper.rs:196-218 | numbers an event for the attached route, or latches on a backend failure |
| `HelperProtocol.GenerationsNeverFallBack` | crates/privileged-bridge/src/helper.rs:42-195 | in any run, until a release succeeds, of two requests that succeed the later names a route generation at least as new as the earlier |
| `HelperProtocol.HandleIff` | crates/privileged-bridge/src/helper.rs:42-195 | a request succeeds exactly when it names the attached route, or starts a strictly newer one, and the backend carries it out; the answer echoes it |
| `HelperProtocol.OnlyTheBackendFails` | crates/privileged-bridge/src/helper.rs:176-195 | a failure of the backend, and nothing else, fails the Helper and detaches its route |
| `HelperProtocol.EventIff` | crates/privileged-bridge/src/helper.rs:196-218 | an event is passed on, unaltered, under the next number and for the attached route, exactly when a route is attached and a number is left |
| `EventDelivery.RunKeepsInv` | crates/privileged-bridge/src/rpc.rs:39-133 | in every run, every event frame in any queue or inbox is the emitted frame of its number |
| `EventDelivery.DeliveryIsAPrefix` | crates/privileged-bridge/src/proxy.rs:456-482 | in every run, the events handed to the Host are exactly the first n emitted, in order, all of its route |
| `EventDelivery.EventsArriveAsRaised` | crates/privileged-bridge/src/helper.rs:196-218 | in every run, the events handed to the Host are exactly the first n the backend raised, unaltered, each raised while the proxy's route was attached; frame i carries raised event i and the route then attached |
| `EventDelivery.FailedProxyDeliversNothing` | crates/privileged-bridge/src/proxy.rs:456-482 | a proxy that failed closed stays so and delivers nothing more in any continuation |
| `EventDelivery.PollDeliversOrFails` | crates/privileged-bridge/src/proxy.rs:456-482 | a poll delivers one more event, finds none, or closes the proxy for good |
| `EventDelivery.LostMeansOnNeitherLink` | crates/privileged-bridge/src/framing.rs:166-241 | in a reachable state, the invariant used for lost events says exactly that no inbox or queue of either link holds event n |
| `EventDelivery.LostEventEndsDelivery` | crates/privileged-bridge/src/proxy.rs:456-482 | for every undelivered event n on neither link, every continuation delivers fewer than n events |
| `EventDelivery.OverwriteAtBrokerIsLost` | crates/privileged-bridge/src/rpc.rs:39-111 | a fast pointer that waits, or arrives, on the Helper's link and is replaced during an exchange of the Broker is lost in the sense above |
| `EventDelivery.OverwriteAtHostIsLost` | crates/privileged-bridge/src/rpc.rs:39-111 | the same on the Host's link, for every operation of the proxy that reaches it |
| `EventDelivery.TwoPointersOverwrite` | crates/privileged-bridge/src/framing.rs:204-216 | two fast pointers that arrive one after the other are such a replacement |
| `EventConservation.NothingCriticalIsLost` | crates/privileged-bridge/src/rpc.rs:39-133 | in every run in which neither end failed, the undelivered critical events are exactly those the Host's link and then the Helper's link hold, in order; the fast pointers there are undelivered, each once and in order, and the newest undelivered one is among them |
| `EventConservation.NothingIsLost` | crates/privileged-bridge/src/rpc.rs:39-133 | if moreover no fast pointer was sent, that is every undelivered event |
| `EventConservation.LostIsAnOlderPointer` | crates/privileged-bridge/src/framing.rs:166-241 | in such a state an event on neither link is a fast pointer, and a newer one is on a link |
| `EventConservation.OnlyReplacedPointersAreLost` | crates/privileged-bridge/src/framing.rs:204-216 | in every run in which neither end failed, moreover a newer pointer arrived on its link, at some step, while the lost one was waiting |
| `EventOvertaking.AheadGives` | crates/privileged-bridge/src/rpc.rs:64-73 | an event that is ahead of a pointer on a link is handed over before it |
| `EventOvertaking.OvertakenPointerEndsDelivery` | crates/privileged-bridge/src/rpc.rs:64-73 | from a moment at which pointer n waits while a newer critical event is queued on the same link, every continuation delivers fewer than n events |
| `Renewal.PerformIsCheckThenTraffic` | crates/privileged-bridge/src/client.rs:471-571 | every wire operation is a renewal check, if it renews, followed by traffic that leaves route and renewal time alone |
| `Renewal.PollIsCheckThenTraffic` | crates/privileged-bridge/src/client.rs:573-616 | the same for polling |
| `Renewal.RunKeepsInStep` | crates/privileged-bridge/src/client.rs:414-439 | in every run, both ends date the last renewal from the same exchange as long as the wire has not failed |
| `Renewal.NeverTooSoon` | crates/privileged-bridge/src/client.rs:36-40 | from the grant on, in runs of any length, on two clocks that never run back, no renewal is answered RenewedTooSoon if the Broker's clock never loses more than 250 ms over an interval |
| `Renewal.TooSoonIff` | crates/privileged-bridge/src/lease.rs:282-313 | with both ends in step, a renewal is too soon iff less than 5,000 ms passed since the last on the Broker's clock and the lease has not expired |
| `Renewal.MarginIsExact` | crates/privileged-bridge/src/client.rs:36-40 | from any grant, the first renewal sent and handled just as it falls due is answered RenewedTooSoon iff the Broker's clock lost more than 250 ms since |
| `Renewal.NeverExpires` | crates/privileged-bridge/src/lease.rs:282-366 | on two clocks that never run back, the Broker's at least 15,000 ms below the largest u64, with checks at most P ms apart, legs of at most R ms, 5,500 + P + 2R < 15,000 and drift within 250 ms, the lease is active after every step and every due check renews it |
| `Pairing.HostPairingCoordinator.Start` | crates/host-agent/src/pairing.rs:249-325 | opens one invitation at a time with a 120,000 ms deadline, queueing its creation, or fails without opening one |
| `Pairing.HostPairingCoordinator.HandleEvent` | crates/host-agent/src/pairing.rs:333-379 | expiry is checked before every event |
| `Pairing.HostPairingCoordinator.HandleCreated` | crates/host-agent/src/pairing.rs:564-602 | confirms the creation and lowers the deadline to the server's, or completes a creation cancelled meanwhile |
| `Pairing.HostPairingCoordinator.HandleJoined` | crates/host-agent/src/pairing.rs:604-635 | admits one other device to a confirmed invitation |
| `Pairing.HostPairingCoordinator.HandleRouted` | crates/host-agent/src/pairing.rs:637-687 | any violation of order, sender or cryptography ends the pairing |
| `Pairing.HostPairingCoordinator.HandleHello` | crates/host-agent/src/pairing.rs:689-745 | a verified hello fixes controller, digest and keys and queues the sealed proof |
| `Pairing.HostPairingCoordinator.HandleReady` | crates/host-agent/src/pairing.rs:747-778 | only a ready message with the hello's digest leads to the local decision |
| `Pairing.HostPairingCoordinator.HandleClosed` | crates/host-agent/src/pairing.rs:780-806 | a server close ends the pairing once |
| `Pairing.HostPairingCoordinator.Accept` | crates/host-agent/src/pairing.rs:387-423 | asks the registry for the verified controller before anything is sent; a refusal fails the pairing |
| `Pairing.HostPairingCoordinator.Reject` | crates/host-agent/src/pairing.rs:430-448 | sends a sealed refusal, granting nothing |
| `Pairing.HostPairingCoordinator.Cancel` | crates/host-agent/src/pairing.rs:455-478 | gives the rendezvous up, remembering a creation not yet confirmed |
| `Pairing.HostPairingCoordinator.Tick` | crates/host-agent/src/pairing.rs:480-497 | at the deadline the pairing is given up as expired |
| `Pairing.HostPairingCoordinator.SignalingLost` | crates/host-agent/src/pairing.rs:499-505 | ends the pairing without output and leaves queued output in place |
| `PairingCalls.StartIff` | crates/host-agent/src/pairing.rs:249-325 | a pairing starts exactly when signaling is up, none is active, the request is good and randomness is at hand; the whole new pairing is given |
| `PairingCalls.CreatedIff` | crates/host-agent/src/pairing.rs:564-602 | a confirmation counts exactly when it names the creation under way, or one cancelled before it |
| `PairingCalls.JoinedIff` | crates/host-agent/src/pairing.rs:604-635 | exactly one other device joins a confirmed invitation before its deadline; a desktop code is then sent its invitation |
| `PairingCalls.RoutedIff` | crates/host-agent/src/pairing.rs:637-778 | a relayed message is taken exactly from the joined peer and in its turn, a hello that verifies, can be answered and whose words can be derived, or a ready message with its digest; any other ends the pairing |
| `PairingCalls.ClosedIff` | crates/host-agent/src/pairing.rs:780-806 | a server close ends exactly the pairing it names, as its completion says |
| `PairingCalls.AcceptIff` | crates/host-agent/src/pairing.rs:387-423 | an acceptance succeeds exactly when it can be decided, the registry grants and the decision can be sealed; it then announces the grant |
| `PairingCalls.RejectIff` | crates/host-agent/src/pairing.rs:430-448 | a rejection succeeds exactly when it can be decided and sealed, and announces no grant |
| `PairingCalls.EndingsIff` | crates/host-agent/src/pairing.rs:455-514 | cancelling, losing signaling and shutting down, each with its exact condition and whole effect |
| `PairingCalls.ReturnIff` | crates/host-agent/src/pairing.rs:521-541 | exactly a finished pairing returns to idle |
| `PairingCalls.EventIff` | crates/host-agent/src/pairing.rs:333-379 | an event first ends an overdue pairing and is then handled by its kind; an error message ends the pairing |
| `PairingRuns.RunIsTraced` | crates/host-agent/src/pairing.rs:564-778 | in every run the active pairing rests on handled events in order, as far as its phase has come, with the deadline they imply |
| `PairingRuns.GrantProvenance` | crates/host-agent/src/pairing.rs:387-423 | in every run, every grant for a controller follows, for one rendezvous and in order, its start, creation, join, verified hello, whose words could be derived for a desktop code, and a matching ready, before both deadlines |
| `PairingRuns.RunTells` | crates/host-agent/src/pairing.rs:808-900 | in every run the published status tells the phase, the invitation and its deadline, and, to be decided on, the controller and the words |
| `PairingRuns.DecisionIsInformed` | crates/host-agent/src/pairing.rs:689-778 | in every run, when a local decision is asked for, the controller and words shown are those of the verified hello, the words derived from its digest for a desktop code, and the proof with its digest and the signature of its transcript has been sent |
| `PairingOutput.RunKeeps` | crates/host-agent/src/pairing.rs:304-505 | with fresh rendezvous, every run keeps the outputs of each rendezvous at the stage its pairing's phase calls for |
| `PairingOutput.LegalIsDisciplined` | crates/host-agent/src/pairing.rs:900-932 | the stages allow only a Create, Relays, at most one final Complete, one key, rising sequence numbers, success only after a sealed acceptance |
| `PairingOutput.OutputDiscipline` | crates/host-agent/src/pairing.rs:689-745 | so in every run for everything ever queued for one rendezvous, also when it is cancelled or expires while still being created |
| `InputSink.PlatformInputSink.SetKey` | crates/host-platform/src/input.rs:148-168 | a failed press counts as pressed, a failed release stays pressed, and the backend is called once for a transition not yet made, not at all otherwise |
| `InputSink.PlatformInputSink.SetButton` | crates/host-platform/src/input.rs:170-194 | the same for buttons |
| `InputSink.PlatformInputSink.ReconcileModifiers` | crates/host-platform/src/input.rs:127-146 | on success the eight modifiers, the key being typed aside, are as the bits say; on failure it stopped at the failing one |
| `InputSink.ReconciledExactly` | crates/host-platform/src/input.rs:127-146 | a key is pressed after reconciling iff its bit is set, if it is a reconciled modifier, and iff it was before, if not |
| `InputSink.PlatformInputSink.ReconcilePointerButtons` | crates/host-platform/src/input.rs:196-210 | on success exactly the buttons in the bits are pressed |
| `InputSink.PlatformInputSink.ClickButton` | crates/host-platform/src/input.rs:220-233 | a click presses and releases the button as often as asked, and leaves it released, or remembered if a transition failed |
| `InputSink.PlatformInputSink.Keyboard` | crates/host-platform/src/input.rs:237-250 | on success exactly the modifier calls needed, then the key's; every partial failure is one of the listed states |
| `InputSink.PlatformInputSink.PointerButton` | crates/host-platform/src/input.rs:252-268 | the pointer moves to the pixel of the coordinates, then exactly the calls of the action follow; the effect of each action on the remembered buttons |
| `InputSink.PlatformInputSink.PointerMove` | crates/host-platform/src/input.rs:270-278 | buttons are reconciled before the pointer moves |
| `InputSink.PlatformInputSink.ReleaseAll` | crates/host-platform/src/input.rs:290-313 | every remembered item is released once; exactly those whose release failed stay remembered, and success means nothing is physically held |
| `InputSink.ScaleIsNearest` | crates/host-platform/src/input.rs:316-333 | a normalized coordinate maps to the nearest pixel, always on the display, the edges exactly |
| `InputSink.ScaleIsMonotone` | crates/host-platform/src/input.rs:316-333 | the mapping preserves order |
| `HostSession.HostPeerSession.HeldMeansConnectedOrPending` | crates/host-webrtc/src/session.rs:50-62 | in every valid state anything physically held means permission and either a connection or a cleanup still owed |
| `HostSession.HostPeerSession.AcceptOffer` | crates/host-webrtc/src/session.rs:106-131 | only a new session negotiates; a failed or malformed answer closes it |
| `HostSession.HostPeerSession.MarkConnected` | crates/host-webrtc/src/session.rs:138-150 | connects from exactly three states |
| `HostSession.HostPeerSession.BeginReconnect` | crates/host-webrtc/src/session.rs:157-172 | enters reconnecting only with nothing held |
| `HostSession.HostPeerSession.AcceptReconnectOffer` | crates/host-webrtc/src/session.rs:179-202 | a failed restart leaves the session reconnecting |
| `HostSession.HostPeerSession.HandleReliable` | crates/host-webrtc/src/session.rs:228-255 | a refused envelope changes nothing; an applied one is the next in order, moves the session's and the sink's pressed sets as its event says and makes exactly its native calls; an injection failure, which some native call reported, closes the session |
| `HostSession.HostPeerSession.HandlePointerFast` | crates/host-webrtc/src/session.rs:262-306 | stale envelopes are dropped, invalid ones refused untouched, applied ones become the newest |
| `HostSession.SensibleIff` | crates/host-webrtc/src/session.rs:328-420 | the checks pass exactly on events that are in range and fit what is pressed, each refusal for its reason |
| `HostSession.HostPeerSession.AppliesIff` | crates/host-webrtc/src/session.rs:228-255 | an envelope is applied exactly when input is allowed, the session is connected, and it is this session's next sensible event |
| `HostSession.HeldAfter` | crates/host-webrtc/src/session.rs:328-420 | the session holds exactly what was pressed and not let go since |
| `HostSession.SinkFollows` | crates/host-webrtc/src/session.rs:328-420 | a key that is no modifier and a button that exists are pressed in the sink exactly when the session holds them |
| `HostSession.ModifiersFollow` | crates/host-platform/src/input.rs:166-195 | a modifier ends as the bits sent with a key say |
| `HostSession.HostPeerSession.Close` | crates/host-webrtc/src/session.rs:313-326 | closes the peer once; success means nothing held; a later close retries only owed releases |
| `HostSession.HostPeerSession.ReleaseAll` | crates/host-webrtc/src/session.rs:421-427 | a cleanup is owed exactly when a release failed |
| `HostSession.Perform` | crates/host-webrtc/src/session.rs:106-326 | any call keeps the invariant, moves between states only as that call may, closed being final, and does what it owes: asks the peer, moves on, applies exactly the input that is due, or ends the session on a native failure |
| `HostSession.Drive` | crates/host-webrtc/src/session.rs:64-434 | for every sequence of calls and every pattern of native failures, at every moment of the returned history: held input only with permission and while connected or owed, the peer closed exactly when the session is, and each call moved the session only as it may and did what it owes; a successful last close leaves nothing held |
| `RemoteSession.PendingSession.PushCandidate` | crates/host-agent/src/remote_session_state.rs:47-65 | at most 64 candidates and 65,536 bytes are kept, the limit reported otherwise |
| `RemoteSession.RemoteSessionCoordinator.BeginActiveReconnect` | crates/host-agent/src/remote_reconnect.rs:18-38 | the first loss sets the deadline, later ones leave it, and no input is applied; it fails only over input it cannot release or a status it cannot publish |
| `RemoteSession.RemoteSessionCoordinator.ExpireActiveReconnect` | crates/host-agent/src/remote_reconnect.rs:40-56 | at the deadline the session is gone, even if its cleanup reports an error; before it nothing moves |
| `RemoteSession.RemoteSessionCoordinator.AddActiveCandidate` | crates/host-agent/src/remote_reconnect.rs:104-128 | a candidate goes to a live peer, and otherwise into the bounded restart attempt |
| `RemoteSession.RemoteSessionCoordinator.AddActiveDescription` | crates/host-agent/src/remote_reconnect.rs:129-141 | only an offer counts; it opens the window, leaves an open deadline alone, and joins the restart once, unless input cannot be released or the status not published |
| `RemoteSession.RemoteSessionCoordinator.HandleActiveNegotiation` | crates/host-agent/src/remote_reconnect.rs:90-144 | a negotiation of another session, or without a body, changes nothing; none moves the deadline or applies input |
| `RemoteSession.RemoteSessionCoordinator.RestartActive` | crates/host-agent/src/remote_reconnect.rs:203-260 | the generation rises by one exactly when the offer is verified anew for this controller and session, the peer answers, the new generation is signed and the candidates are taken; a ready restart that fails has one of these to blame |
| `RemoteSession.RemoteSessionCoordinator.TryRestartActive` | crates/host-agent/src/remote_reconnect.rs:164-201 | a ready restart is used once and answered to the controller: with the signed generation, or with one error if a step of it failed |
| `RemoteSession.RemoteSessionCoordinator.HandleActiveOffer` | crates/host-agent/src/remote_reconnect.rs:58-88 | an offer joins the restart once if it is of this controller and session, and then fails only over input that cannot be released or a service call that failed |
| `RemoteSession.RemoteSessionCoordinator.HandleActiveReconnectEnvelope` | crates/host-agent/src/remote_reconnect.rs:58-88 | only an offer for this controller and session joins the restart, once; what is refused of the session changes none of it, and its deadline and input state survive every envelope |
| `RemoteSession.RemoteSessionCoordinator.HandleActiveEnvelope` | crates/host-agent/src/remote_session.rs:699-722 | only a closing status for this session ends it |
| `RemoteSession.RemoteSessionCoordinator.HandlePendingEnvelope` | crates/host-agent/src/remote_session.rs:617-697 | each envelope adds its one part to the pending attempt, or is refused with its reason; a session starts only from one that completes what the same controller had already begun |
| `RemoteSession.RemoteSessionCoordinator.SetUpSession` | crates/host-agent/src/remote_session.rs:871-925 | signing, registration, the grant's record, every candidate and the status succeed in that order, or one of them failed |
| `RemoteSession.RemoteSessionCoordinator.ActivateVerifiedSession` | crates/host-agent/src/remote_session.rs:839-940 | a session becomes active, negotiating and without a window, only when the service verified the offer for its controller, session and permission and then did every setup step, in order |
| `RemoteSession.RemoteSessionCoordinator.TryStartPending` | crates/host-agent/src/remote_session.rs:724-762 | a ready attempt is used once; if it does not start, a call of the service or of the new peer failed, the offer is of no allowed length, or it was verified for another controller or session, and the failure is remembered |
| `RemoteSession.RemoteSessionCoordinator.ExpirePending` | crates/host-agent/src/remote_session.rs:970-983 | pending and failed attempts lapse after 30,000 ms, not at it |
| `RemoteSession.RemoteSessionCoordinator.CloseActive` | crates/host-agent/src/remote_session.rs:985-1022 | the session is taken and closed whatever fails; the service is told, unregisters it and publishes its end, and the answer says which of the steps failed |
| `RemoteSession.RemoteSessionCoordinator.HandleRouted` | crates/host-agent/src/remote_session.rs:264-317 | a misrouted envelope changes nothing; a well-routed one at or after the deadline leaves no session; without a session it adds exactly its part to what is pending, unless it is about an attempt that just failed; another device is told busy; no input, no deadline moved |
| `RemoteSession.RemoteSessionCoordinator.HandlePeerEvent` | crates/host-agent/src/remote_session.rs:324-428 | a local stop closes the session and tells the controller, or fails without touching it; input outside the window is applied exactly when the session does not refuse it, and ends the session if it is refused, ends it or fails natively; inside the window it changes nothing; a loss opens the window; Connected always connects and clears the deadline, and nothing else does; any event at or after it leaves no session |
| `RemoteSession.RemoteSessionCoordinator.TakeEvent` | crates/host-agent/src/remote_session.rs:435-485 | an event taken off the queue is handled as above and its answer passed on, and a failed queue ends the session |
| `RemoteSession.RemoteSessionCoordinator.PollPeerEvent` | crates/host-agent/src/remote_session.rs:435-447 | a poll at or after the deadline leaves no session |
| `RemoteSession.RemoteSessionCoordinator.PollPeerEvents` | crates/host-agent/src/remote_session.rs:462-485 | the same for a batch, which passes the first answer on, and without a Connected neither moves the deadline nor applies input inside the window |
| `RemoteSession.RemoteSessionCoordinator.HandleTermination` | crates/host-agent/src/remote_session.rs:522-541 | ends only the session it names |
| `RemoteSession.RemoteSessionCoordinator.SignalingLost` | crates/host-agent/src/remote_session.rs:572-590 | keeps a session only inside a window with input suspended |
| `RemoteSession.RemoteSessionCoordinator.PrivilegedRouteChanged` | crates/host-agent/src/remote_session.rs:597-602 | opens the window, or fails over input it cannot release or a status it cannot publish |
| `RemoteSession.RemoteSessionCoordinator.Shutdown` | crates/host-agent/src/remote_session.rs:609-615 | no session is left even if cleanup fails, and only then is the coordinator not closed |
| `RemoteSession.Perform` | crates/host-agent/src/remote_session.rs:264-447 | any call keeps the invariant, dates any new window from now, lets no input through inside a window, ends the session if it enforces an overdue one, and leaves none after a local stop or shutdown that succeeds |
| `RemoteSession.Drive` | crates/host-agent/src/remote_reconnect.rs:18-56 | over any run, at every moment of the returned history: the session was verified, signed for, registered and recorded by the service; an open window ends 45,000 ms after the one call that opened it, its session is not connected; between any two moments no input is applied inside the window, its deadline stands, the first enforcing call from the deadline on leaves no session, and neither does a local stop that succeeds |
| `OfferVerifier.NormalizePermissions` | crates/host-agent/src/session_auth.rs:287-312 | the loop accepts exactly [view] and [view, control] |
| `OfferVerifier.FixedFieldsEncode` | crates/host-agent/src/session_auth.rs:170-249 | once field lengths and permissions pass, an offer, answer or reconnect always has a transcript |
| `OfferVerifier.TranscriptBindsAllFields` | crates/host-agent/src/session_auth.rs:170-249 | equal transcript bytes mean the same kind of message and the same value of every signed field |
| `OfferVerifier.SignedBytesState` | crates/host-agent/src/session_auth.rs:170-249 | what is signed decodes to a transcript that states every field of the offer, answer or reconnect under its own tag |
| `OfferVerifier.SignedIff` | crates/host-agent/src/session_auth.rs:313-338 | a signature counts exactly when it verifies over the only bytes that state the offer |
| `OfferVerifier.AuthenticIff` | crates/host-agent/src/session_auth.rs:102-137 | the checks before the cache pass exactly on authentic offers |
| `OfferVerifier.RefusalNamesItsFault` | crates/host-agent/src/session_auth.rs:102-137 | each of their refusals names something that is wrong |
| `OfferVerifier.NonceKeyIsInjective` | crates/host-agent/src/session_auth.rs:340-345 | a cache key determines controller and nonce |
| `OfferVerifier.Verifier.VerifyOffer` | crates/host-agent/src/session_auth.rs:102-161 | an offer is accepted exactly when it is well shaped, for this Host, timely, intact, within its controller's grant, signed with the granted key over a statement of all its fields, its nonce is not live and there is room; every refusal names its fault; pruning happens only after the signature |
| `OfferVerifier.PrunedCacheRefinesLog` | crates/host-agent/src/session_auth.rs:102-161 | after any offers, read at or after the latest clock that pruned, the pruned cache gives exactly the verdict of a log that forgets nothing, replay and cache-full included |
| `OfferVerifier.NonceReuseNeedsExpiry` | crates/host-agent/src/session_auth.rs:139-154 | a controller's nonce is accepted again only after the earlier offer expired |
| `OfferVerifier.NoOfferTwice` | crates/host-agent/src/session_auth.rs:139-154 | with a clock that never runs back, no identical offer is accepted twice in a run |
| `OfferVerifier.EverythingExpires` | crates/host-agent/src/session_auth.rs:267-285 | more than 40,000 ms after the last acceptance every cache entry is prunable, whatever the clock did |
| `OfferVerifier.EntryStaysIffUnpruned` | crates/host-agent/src/session_auth.rs:139-154 | for arbitrary clocks, until its nonce is accepted anew, an accepted offer is in the cache with its own expiry iff no offer that reached the cache since was read after that expiry |
| `OfferVerifier.RepeatIsCaughtIffUnpruned` | crates/host-agent/src/session_auth.rs:139-154 | for arbitrary clocks: an accepted offer sent again, its nonce not accepted in between, is answered Replay iff no offer that reached the cache in between was read after its expiry; otherwise it is accepted again if there is room |
| `OfferVerifier.NoOfferTwiceUnlessPruned` | crates/host-agent/src/session_auth.rs:139-154 | no identical offer is accepted twice while nothing between was pruned past its expiry |
| `OfferVerifier.ClockFallingBackExample` | crates/host-agent/src/session_auth.rs:139-154 | concrete offers on which it is not: accepted, pruned away by another read after its expiry, and accepted again with the clock back |
| `Authorization.NormalizeStored` | crates/host-agent/src/authorization.rs:293-311 | accepts the two permission sets in any order without repeats and returns them ascending |
| `Authorization.LoadRegistry` | crates/host-agent/src/authorization.rs:63-98 | a Host identifier that is not 32 bytes, a foreign store and a faulty grant are refused, the first fault deciding; otherwise the registry holds what the store lists |
| `Authorization.StoredIff` | crates/host-agent/src/authorization.rs:239-269 | a stored grant is valid exactly when it is complete, for this Host, of another valid device, with its permissions in normal order |
| `Authorization.LoadIff` | crates/host-agent/src/authorization.rs:63-98 | a snapshot is accepted exactly when it holds at most 256 valid grants, no two for one controller or under one identifier |
| `Authorization.AcceptedSnapshotIsWellFormed` | crates/host-agent/src/authorization.rs:63-98 | any snapshot accepted, sorted or not, gives well-formed grants that agree with it |
| `Authorization.ReloadGivesSameGrants` | crates/host-agent/src/authorization.rs:63-98 | loading whatever agrees with a well-formed registry, in any order, always succeeds with the same grants |
| `Authorization.ListingIsUnique` | crates/host-agent/src/authorization.rs:100-103 | the ordered list of a map is unique |
| `Authorization.CreateLists` | crates/host-agent/src/authorization.rs:115-158 | appending a new controller's grant and sorting lists the extended map |
| `Authorization.ReplaceLists` | crates/host-agent/src/authorization.rs:167-192 | replacing an entry in place lists the updated map |
| `Authorization.RevokeLists` | crates/host-agent/src/authorization.rs:199-220 | filtering an entry out lists the reduced map |
| `Authorization.MemoryGrantStore.Load` | crates/host-agent/src/grant_store.rs:138-145 | an empty store gives no grants, a foreign one a mismatch |
| `Authorization.MemoryGrantStore.Persist` | crates/host-agent/src/grant_store.rs:147-164 | a failed persist leaves the snapshot as it was |
| `Authorization.AuthorizationRegistry.Create` | crates/host-agent/src/authorization.rs:115-158 | every outcome by its cause: the identical grant, a conflict, the limit, no fresh id to be drawn, a failed persist (each without change), or a new grant with the first id drawn that is not in use; map and store agree afterwards |
| `Authorization.AuthorizationRegistry.GenerateGrantId` | crates/host-agent/src/authorization.rs:222-236 | the result is the first of at most sixteen draws that is not in use, or none |
| `Authorization.FirstFreeIff` | crates/host-agent/src/authorization.rs:222-236 | an id is given iff it is drawn within sixteen draws, is not in use, and every draw before it succeeded and was in use |
| `Authorization.AuthorizationRegistry.RecordAuthenticatedSession` | crates/host-agent/src/authorization.rs:167-192 | only a later time is recorded, in map and store alike |
| `Authorization.AuthorizationRegistry.Revoke` | crates/host-agent/src/authorization.rs:199-220 | removes exactly the grant of that id from both, or changes neither |
| `Authorization.AuthorizationRegistry.ListControllerGrants` | crates/host-agent/src/authorization.rs:100-103 | lists exactly the registry's grants, ascending |
| `Authorization.Drive` | crates/host-agent/src/authorization.rs:63-237 | from any accepted snapshot, after any operations with any persist failures: each operation made exactly the change it stands for or none, and reloading from the store succeeds and gives the same grants |
| `CargoRoles.CargoDependencyRoles` | scripts/macos_release_compliance/collectors.py:182-253 | terminates; DEPENDS_ON iff an incoming runtime edge from a reachable visit, BUILD_DEPENDENCY_OF iff any other incoming edge, nothing else; without roots, every package with a source |
| `CargoRoles.ExactIsUnique` | scripts/macos_release_compliance/collectors.py:182-253 | there is only one exact answer, so the order of roots and visits is immaterial |
| `CargoRoles.RuntimeWalksStayRuntime` | scripts/macos_release_compliance/collectors.py:228-231 | a runtime visit is reached through runtime edges only |
| `CargoRoles.FollowDeps` | scripts/macos_release_compliance/collectors.py:213-240 | the loop over detailed dependencies follows exactly those with a kind that is not dev and a package |
| `CargoRoles.FollowPlain` | scripts/macos_release_compliance/collectors.py:241-252 | the plain list is followed in the role of the visit |
| `CargoRoles.MarkAllExactly` | scripts/macos_release_compliance/collectors.py:233-239 | a package marked DEPENDS_ON is never marked down |

## Left out

- Broker: the session's locking, sockets, threads and the polling loop around it; the version field of frames is taken as valid.
- Proxy: `ProxyRouteControl::migrate`, which the Host never uses, and the conversions of native input events.
- BridgeWire.ProtobufBridgeWire.Call: the protocol version of a response is not modelled; the strict decoder beneath the link (crates/privileged-bridge/src/rpc.rs:34-37, gen/rust/src/validation.rs:995-1008) refuses a foreign one before the wire sees it, and the model has a refused frame as a malformed one.
- BridgeWire.ProtobufBridgeWire.Perform: a peer's answer is its SDP; its type and fingerprint length are not modelled, and that decoder refuses other values first (gen/rust/src/validation.rs:435-445 and 569-578).
- BridgeWire.ProtobufBridgeWire.TryEvent: unknown peer-state codes, events without a candidate and the version field are refused there too, and so are malformed frames here.
- BridgeWire: building peer configurations, parsing DTLS fingerprints out of SDP and the protobuf encoding; an offer whose fingerprint cannot be parsed is a flag of the operation.
- HelperProtocol: native backends; a command carries an outcome chosen by the environment.
- EventDelivery: frames on the wire between the ends are taken as decoded values or as garbage; the byte level is the subject of FrameDecoding; the answer a call waits for is taken to be in the inbox already, so nothing arrives during the wait that was not on its way when it began.
- Renewal.NeverTooSoon: the Broker's clock is Unix time (crates/privileged-bridge/src/runtime.rs:890-899) and may be set back; the theorem is about clocks that are not.
- Renewal.NeverExpires: likewise.
- Renewal: one lease per run; the run ends with that lease, and a second acquisition starts another run.
- Pairing: cryptography is opaque and a sealed envelope is its key, number and plaintext; the host identity and the signaling endpoint arrive validated; fingerprints in the public snapshot are not modelled.
- PairingOutput: assumes that no start draws a rendezvous used before; with a repeated one the outputs of two pairings share an identifier.
- InputSink: key code tables and the native backends; scroll and text hold nothing.
- HostSession: decoding of input envelopes (a `None` stands for bytes that do not decode) and the inbound session gate.
- RemoteSession: which service calls fail, and with which service error, is left open, but every call and its outcome is recorded; outbound envelopes are named by kind, not by content, and the time budget of a batch is any point in it.
- OfferVerifier: Ed25519 and SHA-256; the hash of the SDP and the signature check are inputs.
- Authorization.AuthorizationRegistry.Create: the checks of a controller's key and derived identifier are one predicate; a device identifier is the number its 32 bytes spell.
- Authorization: the file store, its envelope and its atomic write; a failed file write may have replaced the file, and nothing is claimed about it.
- CargoRoles: turning the metadata's lists into dictionaries, and malformed documents beyond entries that are not objects.
- Other code: WebSocket and IPC runtimes, key storage, native WebRTC, indicators, brand and release scripts.
