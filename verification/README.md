# Verified model of ReactiveSocket

This project models the state machines of the ReactiveSocket C++ library and proves what they promise. The code is in
modules that follow the library's components.

- **Session resumption** (`SentLog`, `ResumeState`, `ResumeLaws`, `ResumeCaches`, `ConnectionState`, `EndpointLaws`,
  `ConnectionAutomata`, `ResumeProtocol`, `ResumeLimits`): the byte-addressed cache of sent frames, the resume paths of a
  connection, and two endpoints joined by links that lose an arbitrary tail at every disconnect. The protocol is the
  section "Resuming Operation" of the RSocket Protocol.
- **Length framing** (`Wire`, `Framing`, `FramingLaws`, `Framed`) and **version detection** (`Autodetection`).
- **Flow control** (`Allowances`, `Credits`, `FlowControl`, `FlowControlLaws`, `CreditRefinement`, `CreditRuns`) and
  **stream lifecycle** (`StreamAutomata`, `StreamLaws`, `StreamPairs`, `StreamTable`, `Streams`).
- **Frame formats** 1.0, 0.0 and 0.1 (`WireFrames`, `SerializerV1`, `SerializerV1Laws`, `SerializerV0`,
  `SerializerV0Laws`).
- **yarpl pipelines** (`Pipelines`, `PipelineLaws`, `PipelineLists`, `PipelineLimits`, `SynchronousSource`).
- **Frame transport queues** (`TransportState`, `FrameTransports`) and the **keepalive timer** (`KeepaliveTimer`).

Objects of the library that update their fields are classes whose methods are proved to perform the transition of a
function on values of the same name; the laws are proved about those functions, over every run. `dafny verify
dfyconfig.toml` checks everything.

## What is assumed

- Every public entry point is one step, on one executor. Callbacks of the application do not call back into a connection
  or a frame transport. They do call back into the framed reader (a subscriber may request or cancel inside `onNext`) and
  into yarpl pipelines.
- Resumption: both ends are resumable from the start; RESUME frames of abandoned attempts do not arrive late; tracked
  frames are not empty; cache capacities are below 2^63 and positions do not overflow 63 bits. The stream layer is a
  black box that produces frames and does not close the connection. A RESUME frame is a record of its two positions
  (one before 1.0), and the text of ERROR frames is left open.
- Buffers are byte sequences. The 64-bit wrap-around of sizes and credits is explicit. The automata take every
  `request` argument; the flow-control results over runs are for subscribers that ask for no negative number (rule 3.9 of
  Reactive Streams).
- The run results of the framed reader are for byte streams that do not deliver the next chunk inside the `onNext` of a
  subscriber; `Framed.FramedReader.OnNext` covers that call.
- `StreamPairs`: the connection stays open, frames arrive in order, and the opening frame is heard, for which
  `StreamTable.OpeningIsHeardIff` is the exact condition.
- Framing results that count credit ask for a total demand below 2^64 - 1, the value that stands for unlimited credit;
  order and prefix do not. The same holds for flow control.
- Pipelines: the number of source values plus the limit of each take stays below 2^63 - 1, so that the source's counter
  cannot turn into the value that means unlimited; batches are at least 2.
- The keepalive timer is started, stopped and fired fewer than 2^32 times, so that its generation does not wrap around.

## What the code does not do

- `ResumeCache`: an oversize frame leaves a hole before the next cached frame, a later reset wraps `size_` around, and
  the next eviction loops forever (`ResumeLaws.OversizeFrameDesynchronizes`); it also lets a server accept a RESUME that
  its client cannot complete (`ResumeLimits.OversizeFrameStrandsClient`). A reset into a frame desynchronizes `size_`
  (`ResumeLaws.MisalignedResetDesynchronizes`). `ResumeLaws.TrackSentExactIffFits` and `ResumeLaws.ResetExactIffAligned`
  are the exact conditions.
- `FramedReader`: detection is attempted from 12 bytes on, but needs 13 for 1.0 and 16 for a 0.x SETUP, so an early look
  fails the connection (`FramingLaws.DetectsV1OverRuns`, `FramingLaws.DetectsV0OverRuns`).
- `AllowanceSemaphore`: unlimited credit ignores the limit of a drain (`Allowances.DrainIsLimitedIffFinite`), which
  breaks REQUEST_N (`FlowControlLaws.RequestIsCarriedIffFinite`) and fails a CHECK of a new channel.
- `ChannelRequester::onSubscribe` checks that the automaton is new before it asks whether it has been terminated, so a
  subscription after a cancellation fails the CHECK (`StreamLaws.OnSubscribeOk`).
- Responders ignore ERROR frames, and a second request of a request-response requester ends it without a frame: the
  responder stays in its map until its application or the connection ends it (`StreamPairs.AbandonedStays`). Otherwise,
  once all frames have arrived, neither side stays when the other has left (`StreamPairs.EveryRun`).
- Stream ids are taken when a requester is created, and its opening frame is written with its first request. If a younger
  requester asks first, the opening frame of the older one is dropped by the peer, and nobody is told
  (`StreamTable.OpeningIsHeardIff`).
- A negative first request of a stream gives the requester a huge allowance, of which its peer is told the low 32 bits
  (`FlowControlLaws.FirstRequestIsToldIff`).
- yarpl: when two takes of one pipeline run out with the same value, such as `take(2)` on `take(2)`, the upper one cancels
  through an upstream reference that the lower one has already reset (`SynchronousSource.SynchronousSubscription.Run`
  has the exact condition, `PipelineLimits.TogetherIff` the same on lists). A take that ends with the last source value
  completes its subscriber twice (`PipelineLimits.WithLastIff`).

## Model

| member | source | states |
|---|---|---|
| SentLog.BoundaryIncreases | src/ResumeCache.cpp:57-81 | the end positions of tracked frames strictly increase, so a position identifies at most one frame border |
| ResumeLaws.AvailableIffCachedBoundary | src/ResumeCache.cpp:106-117 | a position is available if and only if it is a border of the sent log from the oldest cached frame on |
| ResumeLaws.AvailableIffBoundary | src/ResumeCache.cpp:106-117 | without a hole: available if and only if it is a border at or behind the reset position |
| ResumeLaws.LowerBoundOfEntries | src/ResumeCache.cpp:176-201 | the binary-search lookup agrees with the linear position of a frame in the log |
| ResumeLaws.ReplayIsLogSuffix | src/ResumeCache.cpp:176-201 | replaying from a border yields exactly the frames of the log behind it, in order |
| ResumeLaws.ResetRepresents | src/ResumeCache.cpp:83-104 | any reset, aligned or not, leaves the cached frames a contiguous end of the sent log |
| ResumeLaws.ResetExactIffAligned | src/ResumeCache.cpp:83-104 | a reset keeps size, stream map, statistics and reset position consistent if and only if it is a no-op, complete, or goes to a frame border |
| ResumeLaws.EvictFits | src/ResumeCache.cpp:135-150 | the eviction loop ends and drops no frame more than the capacity forces it to |
| ResumeLaws.TrackSentExact | src/ResumeCache.cpp:57-81 | after a frame that fits, the cache is the longest end of what it held plus the frame that the capacity allows, and is consistent |
| ResumeLaws.TrackSentExactIffFits | src/ResumeCache.cpp:57-81 | tracking keeps the cache consistent if and only if the frame is not longer than the capacity |
| ResumeLaws.TrackSentRepresents | src/ResumeCache.cpp:57-81 | even with oversize frames the cached frames stay a contiguous end of the log, or eviction never ends |
| ResumeLaws.WellUsedRunsAreExact | src/ResumeCache.cpp:57-201 | over every history of a new cache with fitting frames and aligned resets: eviction ends, the log is the tracked frames sent, frames_ is exactly the log from resetPosition_ to position_, size_ is their distance and at most the capacity, streamMap_ holds the last end of each cached stream, statistics equal the cache |
| ResumeLaws.DebugChecksHold | src/ResumeCache.cpp:83-104 | the alignment and zero-size debug checks never fire on a consistent cache reset to a border |
| ResumeLaws.DestructionSettlesStatistics | src/ResumeCache.cpp:43-45 | destroying a consistent cache takes all reported statistics back to zero |
| ResumeLaws.OversizeFrameLeavesHole | src/ResumeCache.cpp:66-70 | an oversize frame is not cached and the next frame is cached behind a hole |
| ResumeLaws.OversizeFrameDesynchronizes | src/ResumeCache.cpp:66-70 | concrete history: after an oversize frame a reset wraps size_ around and the next eviction never ends |
| ResumeLaws.MisalignedResetDesynchronizes | src/ResumeCache.cpp:102-103 | concrete history: a reset into a frame leaves size_ counting bytes of no frame |
| ResumeCaches.ResumeCache.TrackReceivedFrame | src/ResumeCache.cpp:47-55 | only tracked types advance the implied position, by the frame length; otherwise nothing changes |
| ResumeCaches.ResumeCache.TrackSentFrame | src/ResumeCache.cpp:57-81 | performs the transition that the laws are about; fails exactly if eviction finds nothing to evict; the log grows by the frame |
| ResumeCaches.ResumeCache.ResetUpToPosition | src/ResumeCache.cpp:83-104 | performs the reset of the laws and keeps the cache a representation of the same log |
| ResumeCaches.ResumeCache.EraseStreams | src/ResumeCache.cpp:92-98 | the loop forgets exactly the streams that end by the position |
| ResumeCaches.ResumeCache.FirstFrom | src/ResumeCache.cpp:159-165 | the binary search finds the first cached frame at or behind the position |
| ResumeCaches.ResumeCache.ClearFramesTo | src/ResumeCache.cpp:152-174 | drops the frames before the position and adjusts size and statistics, with unsigned wrap-around |
| ResumeCaches.ResumeCache.AddFrame | src/ResumeCache.cpp:135-142 | the eviction loop equals repeated eviction of the specification, then stores the frame |
| ResumeCaches.ResumeCache.EvictFrame | src/ResumeCache.cpp:144-150 | evicting is a reset to the start of the second frame, or to the end |
| ResumeCaches.ResumeCache.IsPositionAvailable | src/ResumeCache.cpp:106-117 | the binary search decides availability |
| ResumeCaches.ResumeCache.SendFramesFromPosition | src/ResumeCache.cpp:176-201 | the loop sends exactly the replay of the specification |
| ResumeCaches.ResumeCache.Destroy | src/ResumeCache.cpp:43-45 | a consistent cache leaves no statistics behind |
| EndpointLaws.OutputFrameWrites | src/ConnectionAutomaton.cpp:829-840 | a frame that is output is written once and, if tracked, logged once at the end of the log |
| EndpointLaws.OutputAllWrites | src/ConnectionAutomaton.cpp:788-803 | a queue that is output is written and logged in order |
| EndpointLaws.ResumeFromPositionOk | src/ConnectionAutomaton.cpp:788-803 | resuming from a border writes the log behind it and then the queued frames, and keeps the endpoint consistent |
| EndpointLaws.KeepaliveTrims | src/ConnectionAutomaton.cpp:430-454 | a keepalive at a border drops only frames that end by it |
| EndpointLaws.ReceiveDataOk | src/ConnectionAutomaton.cpp:362-406 | a received tracked frame advances the implied position by its length |
| EndpointLaws.CloseWithErrorOk | src/ConnectionAutomaton.cpp:231-269 | closing with an error writes at most the ERROR frame and keeps the log |
| ConnectionAutomata.ConnectionAutomaton.OutputFrame | src/ConnectionAutomaton.cpp:829-840 | tracks, then writes; performs the transition of the endpoint model |
| ConnectionAutomata.ConnectionAutomaton.OutputFrameOrEnqueue | src/ConnectionAutomaton.cpp:805-814 | writes if connected and not resuming, else queues |
| ConnectionAutomata.ConnectionAutomaton.SendPendingFrames | src/ConnectionAutomaton.cpp:788-803 | moves the queue out and sends it oldest first |
| ConnectionAutomata.ConnectionAutomaton.SendKeepalive | src/ConnectionAutomaton.cpp:716-728 | a keepalive carries the received position |
| ConnectionAutomata.ConnectionAutomaton.Disconnect | src/ConnectionAutomaton.cpp:139-155 | drops the transport and keeps cache and queue |
| ConnectionAutomata.ConnectionAutomaton.Close | src/ConnectionAutomaton.cpp:157-218 | closes once |
| ConnectionAutomata.ConnectionAutomaton.CloseWithError | src/ConnectionAutomaton.cpp:231-269 | writes the error frame, then closes |
| ConnectionAutomata.ConnectionAutomaton.ResumeFromPosition | src/ConnectionAutomaton.cpp:788-803 | replays the cache and then sends the queue |
| ConnectionAutomata.ConnectionAutomaton.ResumeFromPositionOrClose | src/ConnectionAutomaton.cpp:759-786 | the server checks both positions and answers with RESUME_OK and the replay, or closes with an error |
| ConnectionAutomata.ConnectionAutomaton.TryResumeServer | src/ReactiveSocket.cpp:242-262 | disconnects the old transport, attaches the new one and resumes or closes |
| ConnectionAutomata.ConnectionAutomaton.TryClientResume | src/ConnectionAutomaton.cpp:730-743 | the client attaches a new transport and waits for RESUME_OK |
| ConnectionAutomata.ConnectionAutomaton.ProcessFrame | src/ConnectionAutomaton.cpp:362-406 | counts, then dispatches; stream frames during resumption close the connection |
| ConnectionAutomata.ConnectionAutomaton.HandleConnectionFrame | src/ConnectionAutomaton.cpp:426-568 | KEEPALIVE trims the cache and is answered, RESUME_OK replays or closes, ERROR closes, the rest is refused |
| ResumeProtocol.StepInv | src/ConnectionAutomaton.cpp:730-814 | every send, read, keepalive, loss, RESUME and answer keeps the invariant of the two endpoints and the links |
| ResumeProtocol.ExactlyOnceInOrder | src/ConnectionAutomaton.cpp:730-814 | over every run the tracked frames received in each direction are a prefix of those the peer produced |
| ResumeProtocol.NothingIsLost | src/ConnectionAutomaton.cpp:788-814 | on a quiet established connection everything produced, in all earlier connections or queued in between, has been received |
| ResumeProtocol.AcceptedServerReplays | src/ConnectionAutomaton.cpp:759-803 | an accepting server sends RESUME_OK, then exactly the frames the client lacks, then what it queued |
| ResumeProtocol.AcceptedClientReplays | src/ConnectionAutomaton.cpp:513-533 | an accepting client sends exactly the frames the server lacks, then what it queued |
| ResumeProtocol.ServerAcceptsIff | src/ConnectionAutomaton.cpp:767-775 | the server accepts if and only if it still caches every frame the client lacks and, with the client position in RESUME, the client has kept every byte the server lacks |
| ResumeProtocol.ClientAcceptsIff | src/ConnectionAutomaton.cpp:513-533 | the check of RESUME_OK succeeds if and only if the client still caches every frame the server lacks |
| ResumeProtocol.ServerAcceptsThenClientAccepts | src/ResumeCache.h:72-74 | under 1.0 an accepted RESUME never strands the client, even after evictions, if no client frame was oversize |
| ResumeProtocol.NeverRefusedWithoutEviction | src/ConnectionAutomaton.cpp:513-533 | without capacity eviction no RESUME and no RESUME_OK is refused |
| ResumeProtocol.KeepaliveKeepsTheUnreceived | src/ConnectionAutomaton.cpp:430-454 | a keepalive never drops a cached frame the peer has not received, and the alignment check never fires |
| ResumeProtocol.NeverStuckWithoutOversize | src/ResumeCache.cpp:135-150 | no eviction loop ever hangs if no produced frame is oversize |
| ResumeProtocol.SessionsEndOnlyByRefusal | src/ConnectionAutomaton.cpp:362-406 | a session ends only by a refused RESUME or RESUME_OK or a notice of that; all other error branches are unreachable |
| ResumeProtocol.EveryRun | src/ConnectionAutomaton.cpp:730-814 | the promises above, over every run from the start |
| ResumeLimits.OversizeFrameStrandsClient | src/ResumeCache.cpp:66-70 | concrete run: with an oversize frame the server accepts and the client must close, its frame undelivered |
| Allowances.ReleaseSaturates | src/AllowanceSemaphore.h:30-37 | the unsigned wrap-around test is saturating addition |
| Allowances.ReleasesBatch | src/AllowanceSemaphore.h:30-37 | releases commute, and two releases are one release of their sum |
| Allowances.DrainIsLimitedIffFinite | src/AllowanceSemaphore.h:51-60 | a drain stays in its limit and conserves credit if and only if the credit is finite |
| Allowances.AllowanceSemaphore.TryAcquire | src/AllowanceSemaphore.h:19-28 | takes credit exactly if there is enough; unlimited credit stays |
| Allowances.AllowanceSemaphore.Release | src/AllowanceSemaphore.h:30-37 | adds with saturation and returns the old value |
| Allowances.AllowanceSemaphore.DrainWithLimit | src/AllowanceSemaphore.h:51-60 | hands out and keeps what the specification says |
| Allowances.AllowanceSemaphore.Drain | src/AllowanceSemaphore.h:47-49 | hands out everything; only unlimited credit stays |
| Wire.ReadsBack | src/framed/FramedWriter.cpp:11-28 | big-endian writing is undone by reading |
| Wire.HighByteFirst | src/framed/FramedReader.cpp:50-67 | reading most significant byte first |
| FramingLaws.LengthReadsBack | src/framed/FramedReader.cpp:50-67 | the reader reads the length the writer wrote; the sign extension of a fourth byte never shows |
| FramingLaws.RoundTripIff | src/framed/FramedReader.cpp:107-126 | an encoded frame is read back if and only if its length is at least a header; a shorter one is reported as invalid |
| FramingLaws.PartIsIncomplete | src/framed/FramedReader.cpp:102-119 | a proper part of a frame is neither a frame nor an error |
| FramingLaws.ParseConserves | src/framed/FramedReader.cpp:88-135 | credit plus delivered frames is the demand, until the demand saturates |
| FramingLaws.ParseEarly | src/framed/FramedReader.cpp:76-86 | parsing before more bytes come equals parsing afterwards |
| FramingLaws.RequestLate | src/framed/FramedReader.cpp:157-161 | parsing before more credit comes equals parsing afterwards |
| FramingLaws.ChunkingIsIrrelevant | src/framed/FramedReader.cpp:50-135 | any run of chunks and requests, valid stream or not, ends like giving all bytes and all requests at once |
| FramingLaws.IdleMeansStarved | src/framed/FramedReader.cpp:88-135 | an idle open reader has no credit or no whole frame in its buffer |
| FramingLaws.DeliversWhatWasWritten | src/framed/FramedReader.cpp:50-135 | over every run on a written stream: delivered frames are a prefix of the written ones, never more than requested, no false error, and every frame that has fully arrived is delivered while there is credit |
| FramingLaws.DeliversEverything | src/framed/FramedReader.cpp:50-135 | with all bytes and credit left, everything has been delivered |
| FramingLaws.DetectingV1Iff | src/framed/FramedReader.cpp:180-215 | detection on a 1.0 connection waits below 12 bytes, fails at exactly 12 and succeeds from 13 on |
| FramingLaws.DetectingV0Iff | src/framed/FramedReader.cpp:180-215 | detection on a 0.x SETUP waits below 12 bytes, fails from 12 to 15 and succeeds from 16 on |
| FramingLaws.WritesTheAccepted | src/framed/FramedWriter.cpp:86-110 | the byte stream is the encoding of the batches before the first one with an oversize frame |
| FramingLaws.StaysOpenIff | src/framed/FramedWriter.cpp:86-110 | the writer stays open if and only if it is never handed an oversize frame |
| FramingLaws.BatchIsOneByOneIff | src/framed/FramedWriter.cpp:96-110 | a batch equals its frames one by one if and only if all fit or the first does not |
| FramingLaws.DetectsV1OverRuns | src/framed/FramedReader.cpp:180-215 | over every run on a 1.0 connection, detection fails if and only if at some point there is credit and there are 12 bytes |
| FramingLaws.DetectsV0OverRuns | src/framed/FramedReader.cpp:180-215 | over every run on a 0.x connection that starts with SETUP, detection fails if and only if at some point there is credit and there are 12 to 15 bytes |
| Framed.FramedReader.constructor | src/framed/FramedReader.h:20-28 | starts empty, open and without credit |
| Framed.FramedReader.OnNext | src/framed/FramedReader.cpp:76-86 | performs the chunk step, and an open reader with credit has asked for the next chunk; a chunk that arrives inside the onNext of the subscriber is only buffered |
| Framed.FramedReader.Request | src/framed/FramedReader.cpp:157-161 | outside onNext performs the request step; inside, only adds credit |
| Framed.FramedReader.Cancel | src/framed/FramedReader.cpp:170-178 | ends the stream once |
| Framed.FramedReader.OnComplete | src/framed/FramedReader.cpp:137-145 | ends the stream once |
| Framed.FramedReader.OnError | src/framed/FramedReader.cpp:147-155 | fails the stream once |
| Framed.FramedReader.RequestStream | src/framed/FramedReader.cpp:163-168 | an open reader with credit has always asked for bytes |
| Framed.FramedReader.ReadFrameLength | src/framed/FramedReader.cpp:50-67 | the loop reads the length, with the sign extension of four-byte lengths |
| Framed.FramedReader.EnsureOrAutodetectProtocolVersion | src/framed/FramedReader.cpp:180-215 | the version is detected once |
| Framed.FramedReader.ParseFrames | src/framed/FramedReader.cpp:88-135 | the loop, with nested requests from the subscriber, equals the parse function |
| Framed.FramedReader.Dispatch | src/framed/FramedReader.cpp:128-132 | one credit, one frame, then the reaction of the subscriber |
| Framed.FramedWriter.WriteFrameLength | src/framed/FramedWriter.cpp:11-28 | the loop writes the big-endian length |
| Framed.FramedWriter.AppendSize | src/framed/FramedWriter.cpp:55-84 | the encoding, or nothing if the frame is too long |
| Framed.FramedWriter.OnNext | src/framed/FramedWriter.cpp:86-94 | writes the frame or cancels |
| Framed.FramedWriter.OnNextMultiple | src/framed/FramedWriter.cpp:96-110 | writes the whole batch or cancels without writing any of it |
| Autodetection.Unambiguous | src/FrameSerializer.cpp:62-69 | no byte string is recognized as both 1.0 and 0.x, with and without length fields |
| Autodetection.DetectsV1Iff | src/versions/FrameSerializer_v1_0.cpp:627-679 | 1.0 is recognized if and only if the bytes start a 1.0 SETUP or RESUME on stream 0 |
| Autodetection.StartsV0 | src/versions/FrameSerializer_v0_1.cpp:15-75 | a 0.x SETUP is recognized with its own minor version |
| Autodetection.AutodetectsOwnVersion | src/FrameSerializer.cpp:62-69 | every SETUP or RESUME start selects a serializer of its own family |
| Autodetection.RecognizesV1Iff | src/framed/FramedReader.cpp:180-202 | the reader needs one byte more than its gate asks for |
| Autodetection.RecognizesV0Iff | src/framed/FramedReader.cpp:204-215 | a 0.x SETUP needs four bytes more than the gate asks for, a RESUME none |
| FlowControlLaws.CreditIsConserved | src/automata/ConsumerBase.cpp:26-85 | while total demand is finite, whatever the responder does: told plus owed credit is the demand, allowance is demand less delivered, every credit frame is in range |
| FlowControlLaws.SurplusIsCaughtIff | src/automata/ConsumerBase.cpp:57-69 | the next payload is a flow-control error if and only if all demand is delivered |
| FlowControlLaws.WellBehavedNeverFails | src/automata/ConsumerBase.cpp:87-92 | a responder within its credit never causes a flow-control error |
| FlowControlLaws.OwedCreditIsFollowedByPayloads | src/automata/ConsumerBase.cpp:77-85 | owed credit implies that more credit was told than used, and that a payload or unused credit is on the wire or at the publisher: no deadlock |
| FlowControlLaws.QuietMeansSatisfied | src/automata/PublisherBase.h:26-52 | when nothing moves and the publisher has used its credit, all demand is delivered |
| FlowControlLaws.OpenedOk | src/automata/StreamRequester.cpp:14-41 | the split of a first request loses nothing |
| FlowControlLaws.FirstPayloadOk | src/automata/ChannelRequester.cpp:23-47 | the credit gathered before a channel opens is told in full |
| FlowControlLaws.FirstRequestIsToldIff | src/automata/StreamRequester.cpp:8-48 | a first request is told in full or stays owed if and only if it is not negative |
| FlowControlLaws.RequestIsCarriedIffFinite | src/automata/ConsumerBase.cpp:77-85 | the count of a REQUEST_N frame is in range if and only if the owed credit is finite |
| FlowControlLaws.UnlimitedDemandBreaksRequestN | src/AllowanceSemaphore.h:51-54 | concrete run: three large requests write a count that reads as -1 and stays owed |
| CreditRefinement.RequestRefines | src/automata/StreamRequester.cpp:8-48 | a request of an automaton moves the same credit, with the same frames, as the flow-control model |
| CreditRefinement.FirstPayloadRefines | src/automata/ChannelRequester.cpp:23-47 | so does the first payload of a channel |
| CreditRefinement.PayloadRefines | src/automata/ConsumerBase.cpp:57-69 | so does a payload within the allowance |
| CreditRefinement.SurplusRefines | src/automata/ConsumerBase.cpp:87-92 | a payload beyond it is an ERROR frame, an error to the subscriber and the end of the stream |
| CreditRefinement.CreditRefines | src/automata/PublisherBase.h:26-52 | so do arriving credit and the subscription of the application |
| CreditRefinement.StartRefines | src/ConnectionAutomaton.cpp:649-681 | so does the frame that opens the stream |
| CreditRefinement.StartsRefine | src/automata/ConsumerBase.cpp:26-85 | new automata are where the flow starts |
| CreditRuns.StepTogether | src/automata/ConsumerBase.cpp:26-85 | every event of an automaton that stays in the map is a run of the flow with the same frames |
| CreditRuns.AutomataConserveCredit | src/automata/ConsumerBase.cpp:26-85 | over every run of an automaton that consumes payloads, with finite demand and whatever the peer does: credit in the written frames plus owed credit is the demand, allowance is demand less delivered payloads, every credit frame is in range |
| StreamLaws.StepOk | src/ConnectionAutomaton.cpp:296-326 | every call and frame keeps: in the map if and only if not CLOSED, last signals, cancellation and frame order; and a check fails if and only if the event is one of the fatal ones listed (frame for a NEW requester, late onSubscribe of a channel requester, first payload with unlimited credit) |
| StreamLaws.CloseStreamOk | src/automata/StreamAutomatonBase.cpp:79-82 | leaving the map closes the automaton, tells its subscriber and cancels its publisher, without failing the debug checks |
| StreamLaws.RequestOk | src/automata/StreamRequester.cpp:8-48 | a request keeps every consuming automaton in order and never fails a check |
| StreamLaws.HandlePayloadOk | src/automata/RequestResponseRequester.cpp:97-122 | fails exactly for a NEW requester; the CLOSED check is unreachable |
| StreamLaws.HandleStreamPayloadOk | src/automata/ChannelResponder.cpp:109-132 | payload, completion and flow-control error in one frame keep the automaton in order |
| StreamLaws.OnNextPayloadOk | src/automata/ChannelRequester.cpp:23-57 | fails exactly for the first payload of a channel with unlimited gathered credit |
| StreamLaws.OnSubscribeOk | src/automata/ChannelRequester.cpp:11-21 | fails exactly for a channel requester that is no longer NEW |
| StreamLaws.OnEndOk | src/automata/ChannelRequester.cpp:60-87 | completion and error of the application keep the automaton in order, also where the state is left to endStream |
| StreamLaws.CancelOk | src/automata/StreamRequester.cpp:50-63 | cancellation by the application keeps the automaton in order |
| StreamLaws.HandleEndOk | src/automata/StreamRequester.cpp:106-120 | an error frame fails exactly for a NEW requester; error and cancel frames keep the automaton in order |
| StreamLaws.SilentOutsideMap | src/ConnectionAutomaton.cpp:312-326 | outside the map nothing is written or signalled any more and the stream does not come back |
| StreamLaws.SilentRun | src/ConnectionAutomaton.cpp:312-326 | the same over every later run |
| StreamLaws.EveryRun | src/ConnectionAutomaton.cpp:296-341 | over every run: map membership if and only if not CLOSED, exactly one last signal once gone and none before, publisher cancelled exactly once, a closing frame is the last |
| StreamTable.IdsAreNeverReused | src/StreamsFactory.cpp:56-78 | over every run the next stream, own or accepted, gets an id never used before and larger than all of its parity |
| StreamTable.ParityIsKept | src/StreamsFactory.cpp:56-61 | own ids keep one parity and counters never go back |
| StreamTable.ClosingEndsEachOnce | src/ConnectionAutomaton.cpp:328-341 | closing empties the map, ends each stream in it exactly once and leaves the others alone |
| StreamTable.ApplyOk | src/ConnectionAutomaton.cpp:570-713 | every frame, call, new stream and closing keeps the table in order |
| StreamTable.OpeningIsHeardIff | src/StreamsFactory.cpp:63-78 | over every run the opening frame of a peer stream adds the stream if and only if no frame with a larger id of the peer came before it, and is dropped otherwise |
| StreamPairs.StepInv | src/ConnectionAutomaton.cpp:570-713 | every call and every arriving frame keeps the invariant of a requester and its responder |
| StreamPairs.RequesterLeaves | src/automata/ChannelRequester.cpp:60-177 | a requester leaves the map exactly as it ends its peer, was told to end, never opened, or abandons its peer |
| StreamPairs.ResponderLeaves | src/automata/ChannelResponder.cpp:38-143 | a responder that leaves has written a frame that ends the requester, or was ended by it |
| StreamPairs.EveryRun | src/ConnectionAutomaton.cpp:570-713 | over every run of a requester and its responder joined by the frames they write: no arriving frame fails a check or closes a connection; when all have arrived, a responder that has left leaves no requester behind, and a requester that has left no responder unless it abandoned it |
| StreamPairs.AbandonedStays | src/automata/StreamAutomatonBase.cpp:22-24 | an ERROR frame of a requester, or its silent end, changes nothing at the responder |
| Streams.StreamAutomaton.EndStream | src/automata/ChannelRequester.cpp:121-135 | closes the automaton, cancels its publisher and dismisses its subscriber, as specified |
| Streams.StreamAutomaton.CloseStream | src/automata/StreamAutomatonBase.cpp:79-82 | calls back through the connection, which calls endStream if the stream is in its map |
| Streams.StreamAutomaton.WriteAndClose | src/automata/StreamAutomatonBase.cpp:49-77 | the closing frame comes before the stream leaves the map |
| Streams.StreamAutomaton.SendRequests | src/automata/ConsumerBase.cpp:77-85 | drains what one frame can carry |
| Streams.StreamAutomaton.GenerateRequest | src/automata/ConsumerBase.cpp:26-30 | adds to allowance and owed credit, then syncs |
| Streams.StreamAutomaton.Request | src/automata/StreamRequester.cpp:8-48 | the new state is that of the specification for each kind, and the map loses at most this stream |
| Streams.StreamAutomaton.Cancel | src/automata/ChannelRequester.cpp:106-119 | the new state is that of the specification, and the map loses at most this stream |
| Streams.StreamAutomaton.Attach | src/automata/ConsumerBase.cpp:14-24 | a terminated automaton completes its subscriber at once |
| Streams.StreamAutomaton.OnSubscribe | src/automata/StreamResponder.cpp:11-18 | cancels if terminated, else hands the gathered credit on |
| Streams.StreamAutomaton.OnNext | src/automata/ChannelRequester.cpp:23-57 | the new state is that of the specification, and the map loses at most this stream |
| Streams.StreamAutomaton.OnComplete | src/automata/StreamResponder.cpp:32-41 | the new state is that of the specification, and the map loses at most this stream |
| Streams.StreamAutomaton.OnError | src/automata/StreamResponder.cpp:43-53 | the new state is that of the specification, and the map loses at most this stream |
| Streams.StreamAutomaton.ProcessPayload | src/automata/ConsumerBase.cpp:57-69 | allowance, sync, delivery, or flow-control error |
| Streams.StreamAutomaton.HandleFlowControlError | src/automata/ConsumerBase.cpp:87-92 | tells the subscriber, writes the error, leaves the map |
| Streams.StreamAutomaton.HandlePayload | src/automata/ChannelRequester.cpp:137-161 | the new state is that of the specification, and the map loses at most this stream |
| Streams.StreamAutomaton.HandleError | src/automata/ChannelRequester.cpp:163-177 | the new state is that of the specification, and the map loses at most this stream |
| Streams.StreamAutomaton.HandleCancel | src/automata/ChannelResponder.cpp:134-143 | the new state is that of the specification, and the map loses at most this stream |
| Streams.StreamAutomaton.HandleRequestN | src/automata/PublisherBase.h:40-52 | the new state is that of the specification, and the map loses at most this stream |
| Streams.Connection.EndStreamInternal | src/ConnectionAutomaton.cpp:312-326 | removes the stream before notifying it; false if it is not there |
| Streams.Connection.CloseStreams | src/ConnectionAutomaton.cpp:328-341 | the loop over the smallest id empties the map and ends every stream in it |
| Streams.Connection.Close | src/ConnectionAutomaton.cpp:157-188 | only the first close acts |
| Streams.Connection.GetNextStreamId | src/StreamsFactory.cpp:56-61 | ids of the factory |
| Streams.Connection.RegisterNewPeerStreamId | src/StreamsFactory.cpp:63-78 | accepts exactly larger ids of the other parity |
| Streams.Connection.AddStream | src/ConnectionAutomaton.cpp:287-294 | puts a new stream under an unused id |
| Streams.Connection.CreateRequester | src/StreamsFactory.cpp:36-44 | a new stream under the next own id |
| Streams.Connection.RequestFireAndForget | src/ConnectionAutomaton.cpp:816-822 | takes the next own id and keeps no stream |
| Streams.Connection.HandleStreamFrame | src/ConnectionAutomaton.cpp:570-635 | forwards to the stream, ignores unknown frame types, or closes the connection |
| Streams.Connection.HandleUnknownStream | src/ConnectionAutomaton.cpp:637-713 | ignores stale ids, opens a stream, or closes the connection |
| Streams.Connection.ProcessFrame | src/ConnectionAutomaton.cpp:362-406 | a closed connection drops the frame |
| SerializerV1Laws.KindRoundTrip | src/versions/FrameSerializer_v1_0.cpp:28-34 | frame types survive their six bits |
| SerializerV1Laws.HeaderRoundTripIff | src/versions/FrameSerializer_v1_0.cpp:36-57 | a header reads back if and only if its stream id fits 31 bits |
| SerializerV1Laws.PeeksAgree | src/versions/FrameSerializer_v1_0.cpp:176-199 | peeked type and stream id are those of the full parse, on every byte string |
| SerializerV1Laws.PayloadRoundTripIff | src/versions/FrameSerializer_v1_0.cpp:59-128 | a payload reads back, up to empty data, if and only if the METADATA flag matches |
| SerializerV1Laws.RoundTripIff | src/versions/FrameSerializer_v1_0.cpp:201-625 | for all fourteen types: parsing what was printed gives the frame back, up to empty data, if and only if the frame is well-formed |
| SerializerV1Laws.SetupRoundTripIff | src/versions/FrameSerializer_v1_0.cpp:293-333 | SETUP: positive times of 31 bits, token only if announced |
| SerializerV1Laws.ResumeRoundTripIff | src/versions/FrameSerializer_v1_0.cpp:349-371 | RESUME: positions that are not negative |
| SerializerV1Laws.SelectsItself | src/versions/FrameSerializer_v1_0.cpp:627-679 | a printed 1.0 SETUP or RESUME is detected as 1.0 |
| SerializerV0Laws.KindRoundTrip | src/versions/FrameSerializer_v0.cpp:71-137 | the shifted type numbering composes to the identity |
| SerializerV0Laws.FlagsRoundTrip | src/versions/FrameSerializer_v0.cpp:139-160 | exactly the flags with a bit in the old format survive |
| SerializerV0Laws.HeaderRoundTrip | src/versions/FrameSerializer_v0.cpp:162-181 | headers read back up to dropped flags |
| SerializerV0Laws.PeeksAgree | src/versions/FrameSerializer_v0.cpp:304-323 | peeked type and stream id are those of the full parse, on every byte string |
| SerializerV0Laws.PayloadRoundTripIff | src/versions/FrameSerializer_v0.cpp:183-254 | a payload reads back if and only if metadata is announced when present and not empty |
| SerializerV0Laws.RoundTripIff | src/versions/FrameSerializer_v0.cpp:325-772 | for all fourteen types: parsing what was printed gives the frame back without exactly what the format drops, if and only if metadata is announced and not empty and tokens have 16 bytes |
| SerializerV0Laws.SetupRoundTripIff | src/versions/FrameSerializer_v0.cpp:442-488 | SETUP: clamped times, token of 16 bytes if announced |
| SerializerV0Laws.ResumeRoundTripIff | src/versions/FrameSerializer_v0.cpp:503-512 | RESUME: token of 16 bytes; version and client position are not on the wire |
| SerializerV0Laws.SelectsItself | src/versions/FrameSerializer_v0_1.cpp:15-75 | a printed 0.x SETUP or RESUME is detected as 0.x, with its minor version for SETUP |
| PipelineLaws.RequestSettles | experimental/yarpl/include/yarpl/flowable/FlowableOperator.h:221-227 | a request of any operator asks the source for exactly what is then wanted of it in addition; each take keeps min(wanted, limit) under way |
| PipelineLaws.NextSettles | experimental/yarpl/include/yarpl/flowable/FlowableOperator.h:124-219 | a value is handled as on lists, every take keeps outstanding credit equal to min(wanted below, remaining limit), and the line crashes if and only if two takes run out with it |
| PipelineLaws.FilteredOut | experimental/yarpl/include/yarpl/flowable/FlowableOperator.h:163-173 | a dropped value is made up for by one more request |
| PipelineLaws.TakeSettles | experimental/yarpl/include/yarpl/flowable/FlowableOperator.h:208-219 | a take lets the value through, and takes the line down with its last one |
| PipelineLaws.ConsumeOk | experimental/yarpl/include/yarpl/flowable/Subscribers.h:80-87 | the batching subscriber always has at least one value under way |
| PipelineLaws.RunOutOk | experimental/yarpl/include/yarpl/flowable/FlowableOperator.h:70-74 | running out cancels and completes an attached line, and crashes a detached one |
| PipelineLists.AppliedToOne | experimental/yarpl/include/yarpl/flowable/FlowableOperator.h:124-219 | value by value, the operators compute the list functions |
| PipelineLists.OpenUnlessRunningOut | experimental/yarpl/include/yarpl/flowable/FlowableOperator.h:208-219 | all takes stay open if and only if none runs out |
| PipelineLists.WantedIffOpen | experimental/yarpl/include/yarpl/flowable/FlowableOperator.h:221-227 | something is wanted of the source if and only if all takes are open |
| PipelineLists.TwoTakesIff | experimental/yarpl/include/yarpl/flowable/FlowableOperator.h:214-217 | two adjacent takes run out together if and only if their limits are equal and reached |
| PipelineLimits.TogetherIff | experimental/yarpl/include/yarpl/flowable/FlowableOperator.h:208-219 | for any composition: two takes run out together if and only if both first reach their limits, counted on the list functions of the operators before them, with the same source value and no take reaches its limit earlier |
| PipelineLimits.WithLastIff | experimental/yarpl/include/yarpl/flowable/FlowableOperator.h:208-219 | for any composition: a take runs out with the last value if and only if it first reaches its limit with it, on lists, and none does earlier |
| SynchronousSource.EmitOne | experimental/yarpl/include/yarpl/flowable/Flowables.h:22-25 | after the last value of a take the generator has no credit left, so it emits nothing after the cancellation |
| SynchronousSource.Settle | experimental/yarpl/include/yarpl/flowable/Flowable.h:241-249 | subtracting what was emitted keeps the counter equal to what is wanted |
| SynchronousSource.FirstRequest | experimental/yarpl/include/yarpl/flowable/Subscribers.h:74-78 | subscribing starts the run in balance |
| SynchronousSource.SynchronousSubscription.Emit | experimental/yarpl/include/yarpl/flowable/Flowables.h:17-35 | the generator loops of range and justN |
| SynchronousSource.SynchronousSubscription.Process | experimental/yarpl/include/yarpl/flowable/Flowable.h:209-251 | the loop ends with everything received; it crashes, and completes as often, exactly as the list functions say |
| SynchronousSource.SynchronousSubscription.Run | experimental/yarpl/include/yarpl/flowable/Flowable.h:146-251 | the subscriber receives exactly what the list functions give, for any composition of map, filter and take and any batch of at least 2; it crashes if and only if two takes run out with the same value; the subscriber hears of the end not at all if a take was closed from the start, twice if a take ends with the last source value, and once otherwise |
| TransportState.EveryRun | src/FrameTransport.cpp:47-216 | over every run: frames handed in are frames written then frames queued, writes within allowance, queued frames of an open transport mean no allowance, frames heard then frames kept are the frames that arrived |
| TransportState.EarlyReturnLosesNothing | src/FrameTransport.cpp:151-166 | the early return of request equals draining |
| TransportState.ProcessorCatchesUp | src/FrameTransport.cpp:47-69 | a new processor hears all kept frames in order, then the terminal |
| TransportState.StepOk | src/FrameTransport.cpp:47-216 | every call keeps the invariant |
| FrameTransports.FrameTransport.FlushWrites | src/FrameTransport.cpp:201-216 | the loop writes as many queued frames as there is allowance for |
| FrameTransports.FrameTransport.SetFrameProcessor | src/FrameTransport.cpp:47-69 | connects, drains both queues, then delivers the terminal |
| FrameTransports.FrameTransport.TerminateFrameProcessor | src/FrameTransport.cpp:122-139 | tells the processor or keeps the terminal |
| FrameTransports.FrameTransport.CloseTransport | src/FrameTransport.cpp:71-96 | no processor, no connection |
| FrameTransports.FrameTransport.OnNext | src/FrameTransport.cpp:112-120 | delivers or keeps the frame |
| FrameTransports.FrameTransport.Request | src/FrameTransport.cpp:151-166 | adds allowance, drains if there was none |
| FrameTransports.FrameTransport.OutputFrameOrEnqueue | src/FrameTransport.cpp:173-199 | drains first, then writes or queues |
| KeepaliveTimer.EveryRun | src/folly/FollyKeepaliveTimer.cpp:22-68 | over every run without generation wrap-around: exactly one live callback while running, none otherwise; a callback acts if and only if it is live, and disconnects if and only if the keepalive before it is unanswered |
| KeepaliveTimer.OldCallbacksNeverAct | src/folly/FollyKeepaliveTimer.cpp:51-64 | callbacks scheduled before a stop or restart never act, whenever they fire |
| KeepaliveTimer.StepOk | src/folly/FollyKeepaliveTimer.cpp:22-68 | every call and firing keeps the invariant |
| KeepaliveTimer.FollyKeepaliveTimer.RunCallback | src/folly/FollyKeepaliveTimer.cpp:22-32 | compares the captured generation, then acts or does nothing |
| KeepaliveTimer.FollyKeepaliveTimer.SendKeepaliveOrDisconnect | src/folly/FollyKeepaliveTimer.cpp:34-48 | disconnects if the last keepalive is unanswered, else sends and schedules |
| KeepaliveTimer.FollyKeepaliveTimer.StopTimer | src/folly/FollyKeepaliveTimer.cpp:51-55 | invalidates what is scheduled |
| KeepaliveTimer.FollyKeepaliveTimer.StartTimer | src/folly/FollyKeepaliveTimer.cpp:58-64 | a new generation with one callback |

## Left out

- TCP, sockets, event loops, executors, threads, futures, logging and flags: input and output, or code outside the
  repository. A hop between executors is one step.
- Buffer chains, headroom, allocation sizes and reference counts: buffers are byte sequences.
- Nested calls of applications into a connection or a frame transport, and the pause and resume hooks.
- Setting up a connection: SETUP handling, leases, `metadataPush`, fire-and-forget beyond its stream id, and connection
  acceptors; they add branches without state that matters here.
- Statistics other than those of the resume cache; its deltas are not truncated to `int`. The queue of `StreamState` is
  modelled as part of the connection, its statistics are not.
- `isPositionAvailable(position, streamId)`: nothing in the repository calls it.
- Stream frames that do not parse, which close the connection like an unexpected frame.
- Protocol 0.0 accepts any unknown stream id: `StreamTable` is for versions above 0.0.
- Debug checks that a publisher holds a subscription when it calls `onNext`: rule 2.8 of Reactive Streams lets calls
  arrive after a cancellation, and release builds do not check.
- The six stream automata are one value and one class with a `kind`, and the operator subscriptions of a pipeline are
  stages of one value, because there is no inheritance; the order of frames of different streams on one connection is
  not modelled in `Streams`.
- ConnectionAutomata.ConnectionAutomaton.Close: the ending of the streams, the listeners and the notice to a resume callback
  are not in its contract; `Streams.Connection.Close` ends the streams.
- ConnectionAutomata.ConnectionAutomaton.HandleConnectionFrame: SETUP, and RESUME on a live resumable server, go to the
  request handler, which is outside the model.
- Streams.Connection.HandleUnknownStream: protocol 0.0, which skips the check of the id, is not modelled.
- Pipelines after cancellation or completion, `subscribeOn`, `Single`, `Observable`, and a batch of 1, which stalls after
  one value.
- `SubscriptionHelper`, whose `consumeCredits` turns a cancelled counter back to 0; nothing modelled here uses it.
- The wrap-around of the timer's generation after 2^32 starts and stops.
