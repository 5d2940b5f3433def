# Verified model of a Raspberry Pi camera service

A Dafny model of the stateful core of a WebRTC camera service written in C++: the protocols that
keep a stream published, the transport that carries files over data channels, the frames and
buffers that travel to the encoder, the peers that come and go, and a few algorithms that have a
simple specification. `dafny verify dfyconfig.toml` checks everything.

Code that changes state step by step is modelled by classes and loops. Where several threads or
callbacks interleave, the state is also a datatype with a step function; each method of the class is
proved to take exactly its step, and the properties are proved of the steps, over all runs: every
sequence of steps that the environment (network, kernel, driver, timers, other threads) allows. Beside
the invariants, each state is told from the history alone: which events, in which order, have led to
what is published, registered, mapped, sent or shown.

| module | models | main results |
|---|---|---|
| `StreamTransport` | chunked streams over data channels, and the sequence filter of the lossy channel | `StreamsArriveIntact`, `SentBodiesArrive`, `HandedOnOnlyIfWhole`, `FileDeliveredIffLengthMatches`, `AcceptedSequencesIncrease` |
| `CloudflareProtocol`, `CloudflareService` | the Cloudflare publisher and all its pending callbacks | `AlwaysOneConnection`, `PublishingGoesOn`, `ReadyIsHeard`, `RepliesCountedIff`, `AnswersReachTheRightPeer` |
| `CloudflareHistory` | the same publisher, told from its events | `HealthCheckDecides`, `PublishesWhileWanted`, `PublicationFollowsEvents`, `ConnectsAgain` |
| `WebSocketClient` | the client's write queue and closing | `RunsAreDisciplined`, `MessagesReachTheOwner`, `ClosedWithItsReason`, `AcceptedIsWhatWasSent`, `OneCloseFrameIff` |
| `FrameLayout` | repacking frames between strides, in place | `RepackKeepsPicture`, `AlwaysKeepsPictureIffEven` |
| `BufferPools` | the bounded queue, the scaler's surfaces, the codec's input indices | `SurfacesAreConserved`, `JetsonScaler.Destroy`, `NoIndexLostIff` |
| `RtcPeer` | offers, glare and renegotiation | `NeedLeadsToOffer`, `RemoteOfferIsAnswered`, `NextStepIsSafeIff`, `RolledBackOfferIsResumed` |
| `PeerRegistry` | the registry and its cleaner thread | `NoExpiryIsLostIff`, `EachSweptOnce`, `CleanerGetsThere` |
| `MqttService` | topics, and the maps between clients and peers | `MapsFollowEvents`, `ExpiryUnmapsExactlyItsPeer`, `ClientRoundTripIff` |
| `UnixSocketServer` | the latest-value broadcast | `ClientsGetWholeMessages`, `PublishedIsWhatWasSet`, `RegisteredIff`, `FlushReachesEveryone` |
| `LatencyTracer` | histogram percentiles | `PercentilesAreFair` |
| `Base64` | the encoder with a wrapping accumulator | `ToBase64`, `RoundTrip` |
| `OlderFiles` | the search for older recordings | `FindOlderFiles`, `WalkReaches`, `FoundIff`, `ReturnsTheNewest` |
| `LiveKitQuery` | percent-encoded query strings | `TargetRoundTrip`, `EncodingRoundTrip` |

## What holds only under a condition

Some properties one would expect of the code do not hold on all inputs. Each is proved together with
the exact condition.

- The Cloudflare publisher counts outstanding replies right if and only if it never handles `joined`
  while a reply is still to come on that connection (`RepliesCountedIff`); `LateJoinedHappens` is a
  run that does, and then applies an answer to the wrong offer.
- A `WebSocketClient` sends at most one close frame in every run if and only if its open callback
  does not call `Close` before it sends anything (`OneCloseFrameIff`).
- Repacking a frame between any two layouts at least as large as its picture is sure to keep the
  picture if and only if the size is even (`AlwaysKeepsPictureIffEven`): odd pictures lose their last
  chroma column or row.
- A percentile is at least the sample at its rank if and only if that sample is at most 128 ms
  (`PercentilesAreFair`).
- No input index of the codec is lost if and only if it has at most eight input buffers
  (`NoIndexLostIff`).
- At any moment of a peer's run, its next step leaves every needed negotiation safe from being
  forgotten if and only if it does not report negotiation to be needed while a local offer is pending
  and no rollback is about to be reported (`NextStepIsSafeIff`, `TooEarlyIsForgotten`). A peer
  connection is assumed to report this in the stable state only. The assumption is needed:
  `LocalOfferPending` is a run that comes to where such a report would be too early.
- A run of the registry loses no expiry if and only if each peer that had expired before it was
  added came while a sweep was still to come (`NoExpiryIsLostIff`).
- A client id can be told from its topic if and only if it has no '/' (`ClientRoundTripIff`), and the
  topic's type if and only if the topic names a client (`TypeRoundTripIff`).
- The expiry of a peer removes its entry from the MQTT maps if and only if the peer had been mapped
  by then (`MapsAlwaysAgree`); `ReportedBeforeMapped` is a run in which it had not, and the entry
  stays (`StaleForGood`).
- A request for no files gives none in dated folders, but all older files in a flat folder
  (`OlderFiles.FindOlderFiles`).

## Model

| member | source | states |
|---|---|---|
| `StreamTransport.PiecesConcat` | src/rtc/datachannel/rtc_channel.cpp:200-207 | the pieces of a body, each of 64 KiB at most and none empty, put together again give the body |
| `StreamTransport.MemoryPlanIsComplete` | src/rtc/datachannel/rtc_channel.cpp:196-209 | a body sent from memory always declares exactly the length of what its chunks carry |
| `StreamTransport.RtcChannel.SendBody` | src/rtc/datachannel/rtc_channel.cpp:196-209 | queues exactly a header with the length, the body's pieces with their offsets, and last a trailer without a reason, behind what is queued already |
| `StreamTransport.RtcChannel.SendNextPiece` | src/rtc/datachannel/rtc_channel.cpp:200-207 | each round of the loop queues the next piece at its own offset and advances |
| `StreamTransport.RtcChannel.SendFile` | src/rtc/datachannel/rtc_channel.cpp:211-239 | queues the reads of a file, of any sizes, with running offsets; the last packet is a trailer that reports an error exactly if they do not add up to the declared length |
| `StreamTransport.RtcChannel.SendLoopRound` | src/rtc/datachannel/rtc_channel.cpp:124-149 | nothing queued is lost, repeated or reordered on its way to the wire |
| `StreamTransport.SentIsTransmission` | src/rtc/datachannel/rtc_channel.cpp:156-194 | what the sender queues for a stream is a transmission the receiver's theorem speaks about |
| `StreamTransport.IpcChannel.OnStreamHeader` | src/rtc/datachannel/ipc_channel.cpp:152-160 | takes the receiver's step: a new, zeroed assembly of the declared size |
| `StreamTransport.IpcChannel.OnStreamChunk` | src/rtc/datachannel/ipc_channel.cpp:162-179 | takes the receiver's step: overwrites at the offset, or drops the whole assembly when the chunk does not fit; other streams keep theirs |
| `StreamTransport.IpcChannel.OnStreamTrailer` | src/rtc/datachannel/ipc_channel.cpp:181-211 | takes the receiver's step: forgets the assembly and hands the body on only if it is complete, error-free and not empty |
| `StreamTransport.AssembledSince` | src/rtc/datachannel/ipc_channel.cpp:152-179 | chunks that fit the header before them make a body with the byte of the last chunk at each position it covers, and zero where none does |
| `StreamTransport.NothingWhole` | src/rtc/datachannel/ipc_channel.cpp:181-211 | a trailer hands nothing on unless a header came with no trailer in between, all chunks since fit, and their sizes add up to the declared length |
| `StreamTransport.HandedOnOnlyIfWhole` | src/rtc/datachannel/ipc_channel.cpp:152-211 | whatever arrives from whatever senders, each packet hands on the body that its own stream's packets make whole, and nothing if they do not or the trailer has a reason |
| `StreamTransport.ReorderedChunksRebuildBody` | src/rtc/datachannel/ipc_channel.cpp:162-179 | the chunks of a complete plan, in any order, fill the buffer with exactly the body and count it as complete |
| `StreamTransport.TransmissionResult` | src/rtc/datachannel/ipc_channel.cpp:152-211 | a stream hands its body on at its trailer and nowhere else, and only if the reads add up to the declared length |
| `StreamTransport.StreamsAreIndependent` | src/rtc/datachannel/ipc_channel.cpp:152-211 | under any interleaving, the assembly of a stream depends on that stream's packets alone |
| `StreamTransport.StreamsArriveIntact` | src/rtc/datachannel/ipc_channel.cpp:152-211 | for any number of streams, interleaved in any way and with chunks in any order, exactly the non-empty bodies of complete streams are handed on, byte for byte, in trailer order; every stream ends exactly once; and no assembly remains |
| `StreamTransport.OneBodyPerStream` | src/rtc/datachannel/ipc_channel.cpp:181-211 | as many bodies are handed on as there are complete, non-empty streams |
| `StreamTransport.SentBodiesArrive` | src/rtc/datachannel/rtc_channel.cpp:196-209 | bodies sent from memory under distinct ids, packets interleaved in any way, arrive as they were sent, each non-empty one once |
| `StreamTransport.FileDeliveredIffLengthMatches` | src/rtc/datachannel/rtc_channel.cpp:211-239 | among any other streams and senders, a file is handed on, once and on behalf of the sender of its trailer, if and only if its reads give exactly the declared, non-zero, length |
| `StreamTransport.AloneOnTheChannel` | src/rtc/datachannel/ipc_channel.cpp:181-211 | with no other stream on the channel, that is all that is handed on |
| `StreamTransport.IpcChannel.AcceptSequence` | src/rtc/datachannel/ipc_channel.cpp:81-96 | accepts by the last number of the same sender and endpoint, and remembers only what it accepts |
| `StreamTransport.AcceptedSequencesIncrease` | src/rtc/datachannel/ipc_channel.cpp:81-96 | of one sender and endpoint, packets accepted less than a second apart have strictly increasing numbers, whatever arrives in between |
| `StreamTransport.AcceptedIff` | src/rtc/datachannel/ipc_channel.cpp:81-96 | a packet is accepted if and only if it has no number, is the first with one, has a higher number than the last one accepted, or comes a second or more after that |
| `CloudflareProtocol.LinkInvStep` | src/signaling/cloudflare_service.cpp:101-234 | every step keeps exactly one of token request, live socket and reconnect timer for the current connection epoch |
| `CloudflareProtocol.AlwaysOneConnection` | src/signaling/cloudflare_service.cpp:87-234 | in every run, whatever stale callbacks are queued, the service has one connection under way and no second live socket; once stopped it has none |
| `CloudflareProtocol.WakePublishesIffConductor` | src/signaling/cloudflare_service.cpp:329-338 | a wake leads to a peer or a pending retry if and only if there is a conductor |
| `CloudflareProtocol.PubInvStep` | src/signaling/cloudflare_service.cpp:424-622 | every step keeps: a peer only while publishing, with its health timer running for this publication, or else a retry pending |
| `CloudflareProtocol.PublishingGoesOn` | src/signaling/cloudflare_service.cpp:424-622 | in every run with a conductor, publishing goes on as long as it is wanted and stops when it is not |
| `CloudflareProtocol.QueueInvStep` | src/signaling/cloudflare_service.cpp:470-534 | what the signaling thread posts never concerns a publication that has not begun, and only one that has a peer while it is the current one |
| `CloudflareProtocol.ReadyInvStep` | src/signaling/cloudflare_service.cpp:294-327 | every step keeps what ties `ready` to the connection it was sent on and to the peer's reported states |
| `CloudflareProtocol.ReadyIsHeard` | src/signaling/cloudflare_service.cpp:245-250 | in every run, across drops and rejoins, a connected peer on a joined connection has sent `ready` on that same connection, or the event that sends it is queued |
| `CloudflareProtocol.ReplyInvStep` | src/signaling/cloudflare_service.cpp:312-313 | a step keeps the counter equal to the replies still to come if and only if it does not handle `joined` while there are any |
| `CloudflareProtocol.RepliesCountedIff` | src/signaling/cloudflare_service.cpp:359-380 | a whole run counts replies right if and only if `joined` is never handled late |
| `CloudflareProtocol.AnswerAppliedIffCurrent` | src/signaling/cloudflare_service.cpp:340-349 | while the count is right, an answer is applied if and only if it replies to the newest offer and that offer belongs to the current publication |
| `CloudflareProtocol.AnswerAppliedOnlyIfCurrent` | src/signaling/cloudflare_service.cpp:340-349 | a count that is too high never makes an answer be applied to the wrong offer |
| `CloudflareProtocol.AnswersReachTheRightPeer` | src/signaling/cloudflare_service.cpp:340-349 | in every such run an answer, even before `joined`, is applied only if it replies to the newest offer and that belongs to the current publication; after `joined`, if and only if |
| `CloudflareProtocol.InvStep` | src/signaling/cloudflare_service.cpp:87-622 | every step of the service or its environment keeps all invariants together |
| `CloudflareProtocol.LateJoinedMisleads` | src/signaling/cloudflare_service.cpp:312-313 | wherever `joined` comes late, one more offer makes the reply to an older one be applied |
| `CloudflareProtocol.LateJoinedHappens` | src/signaling/cloudflare_service.cpp:312-313 | a run in which `joined` comes late and the answer to the first publication's offer is applied to the peer of the second |
| `CloudflareHistory.HealthCheckDecides` | src/signaling/cloudflare_service.cpp:585-622 | in every run a check gives the peer up, with a retry armed, if and only if it finds it down, a check found it down 20 seconds ago or more, or 10 if it has been connected before, and no check or report found it connected in between; else the peer stays and is checked again |
| `CloudflareHistory.ClosedPeerIsGivenUp` | src/signaling/cloudflare_service.cpp:593-596 | a peer that has closed is given up by the next check |
| `CloudflareHistory.PublicationFollowsEvents` | src/signaling/cloudflare_service.cpp:294-570 | in every run: a wake or the retry timer begins a publication, with a peer exactly if it can be created; a refused offer, one without tracks, or a failed peer leads to a retry; rest ends it; nothing else touches it |
| `CloudflareHistory.PublishesWhileWanted` | src/signaling/cloudflare_service.cpp:329-357 | in every run the device publishes, or tries to, exactly while it has been woken and not put to rest since |
| `CloudflareHistory.OffersFollowEvents` | src/signaling/cloudflare_service.cpp:477-520 | in every run an offer goes out exactly when the current peer has made one with tracks and the connection can carry it, and is replied to by answers and offer errors only |
| `CloudflareHistory.GenerationIsOfTheAnswer` | src/signaling/cloudflare_service.cpp:340-349 | in every run the generation that a reconnect asks for is that of the last answer applied in this publication, or none |
| `CloudflareHistory.ReadyFollowsEvents` | src/signaling/cloudflare_service.cpp:245-250 | in every run `ready` is sent when the peer reports its first connection, or when the device is let in while its peer is connected, and never else |
| `CloudflareHistory.ConnectsAgain` | src/signaling/cloudflare_service.cpp:101-224 | from whatever a run has come to, five successes at most (timer, token, socket, `joined`) lead to a connection on which the device was let in and can send |
| `CloudflareHistory.WaitsLonger` | src/signaling/cloudflare_service.cpp:187-213 | in every run the losses in a row are followed by waits of 1, 2, 4, 8, 16 and then 30 seconds, and one to another device with the same id by at least 16 |
| `CloudflareService.CloudflareService.Connect` | src/signaling/cloudflare_service.cpp:85-85 | the service is then in the first state of every run, and its connection has one thing under way |
| `CloudflareService.CloudflareService.Disconnect` | src/signaling/cloudflare_service.cpp:87-95 | takes the protocol's step Stop: no socket stays live, publishing ends, and all invariants still hold |
| `CloudflareService.CloudflareService.StartConnection` | src/signaling/cloudflare_service.cpp:101-107 | from between two attempts it brings about the single-connection invariant: a token request is under way that no earlier reply can be taken for |
| `CloudflareService.CloudflareService.OnTokenReply` | src/signaling/cloudflare_service.cpp:109-177 | takes the protocol's step for a token reply, stale or current, and keeps one connection under way and every other invariant |
| `CloudflareService.CloudflareService.OnSocketFinished` | src/signaling/cloudflare_service.cpp:167-173 | takes the protocol's step for a closed socket, stale or current, and keeps one connection under way and every other invariant |
| `CloudflareService.CloudflareService.OnSocketClosed` | src/signaling/cloudflare_service.cpp:179-196 | brings the single-connection invariant about with a reconnect pending; publishing is untouched, or has ended and keeps its invariant when the id was taken over |
| `CloudflareService.CloudflareService.ScheduleReconnect` | src/signaling/cloudflare_service.cpp:198-224 | afterwards the reconnect timer is the one thing under way, whatever was lost before, armed for the delay that grows with the losses |
| `CloudflareService.CloudflareService.DropSocket` | src/signaling/cloudflare_service.cpp:226-234 | no socket is live afterwards if only the current one was |
| `CloudflareService.CloudflareService.OnReconnectTimer` | src/signaling/cloudflare_service.cpp:215-223 | takes the protocol's step when the reconnect timer's handler runs, and keeps one connection under way and every other invariant |
| `CloudflareService.CloudflareService.SendReady` | src/signaling/cloudflare_service.cpp:245-250 | what is sent is recorded for the current connection, as long as there is one connection only |
| `CloudflareService.CloudflareService.OnSocketMessage` | src/signaling/cloudflare_service.cpp:160-166 | a message on the socket of any connection takes the protocol's step; on a stale one, or after Disconnect, nothing changes |
| `CloudflareService.CloudflareService.OnMessage` | src/signaling/cloudflare_service.cpp:256-292 | a message on the current connection takes the protocol's step and keeps every invariant |
| `CloudflareService.CloudflareService.OnJoined` | src/signaling/cloudflare_service.cpp:294-327 | keeps every invariant; a connected peer's `ready` has then been sent on this very connection; the reply count is right exactly if no reply was still to come |
| `CloudflareService.CloudflareService.OnWake` | src/signaling/cloudflare_service.cpp:329-338 | keeps every invariant; publishing goes on from then if and only if there is a conductor |
| `CloudflareService.CloudflareService.OnAnswer` | src/signaling/cloudflare_service.cpp:340-349 | keeps every invariant; with no reply uncounted the peer is given the answer only if it replies to the newest offer and that belongs to the current publication, and with the right count if and only if |
| `CloudflareService.CloudflareService.OnSleep` | src/signaling/cloudflare_service.cpp:351-357 | keeps every invariant; nothing queued, and no health check under way, belongs to the publication that is current then |
| `CloudflareService.CloudflareService.OnOfferError` | src/signaling/cloudflare_service.cpp:359-380 | keeps every invariant; while the count is right only an error about the current publication's newest offer ends the publication |
| `CloudflareService.CloudflareService.StopPublishing` | src/signaling/cloudflare_service.cpp:536-551 | begins a publication that nothing queued and no health check in progress belongs to, and that remembers nothing of the one before |
| `CloudflareService.CloudflareService.RetryPublishing` | src/signaling/cloudflare_service.cpp:553-570 | publishing goes on if it did before, by a new attempt |
| `CloudflareService.CloudflareService.StartPublishing` | src/signaling/cloudflare_service.cpp:424-534 | brings the publishing invariant about in a new publication, and publishing goes on if and only if there is a conductor |
| `CloudflareService.CloudflareService.OnRetryTimer` | src/signaling/cloudflare_service.cpp:560-569 | takes the protocol's step when the retry timer's handler runs, keeps every invariant, and publishing goes on |
| `CloudflareService.CloudflareService.OnHealthTimer` | src/signaling/cloudflare_service.cpp:585-622 | takes the protocol's step when the health timer's handler runs, keeps every invariant, and publishing goes on |
| `CloudflareService.CloudflareService.RunPosted` | src/signaling/cloudflare_service.cpp:470-534 | takes the protocol's step for the next posted lambda, keeps every invariant, and the worker knows, or is about to, of a connected peer |
| `CloudflareService.CloudflareService.OnPeerState` | src/signaling/cloudflare_service.cpp:572-583 | keeps the publishing invariant; once the peer has connected `ready` has been sent for its publication, and once it has failed another publication is due |
| `WebSocketClient.StepKeepsInv` | src/signaling/websocket_client.cpp:215-414 | every completion and call keeps the writer's discipline |
| `WebSocketClient.RunsAreDisciplined` | src/signaling/websocket_client.cpp:281-358 | in every run: one write at a time and its frame at the front; the wire carries the accepted frames in order and none is forgotten; a close frame follows all of them; nothing gets stuck; OnClose comes once, last |
| `WebSocketClient.NothingAfterClose` | src/signaling/websocket_client.cpp:383-414 | from the moment OnClose has fired, at every later moment of the run, the owner has seen nothing more and nothing more has been sent |
| `WebSocketClient.MessagesReachTheOwner` | src/signaling/websocket_client.cpp:262-272 | in every run the owner has seen exactly the server's binary messages, in order, until the client finished |
| `WebSocketClient.ClosedWithItsReason` | src/signaling/websocket_client.cpp:240-259 | a finished client was ended by one event, and OnClose has the code of that event: the server's, the one asked for first, or none |
| `WebSocketClient.NotFinishedBefore` | src/signaling/websocket_client.cpp:383-414 | a client finishes at one of these events and at no other |
| `WebSocketClient.AcceptedIsWhatWasSent` | src/signaling/websocket_client.cpp:281-293 | in every run what was accepted for the wire is exactly what the owner sent while the client was open and before it asked for a close, with the pings in between |
| `WebSocketClient.OpenSinceHandshake` | src/signaling/websocket_client.cpp:215-233 | a client is open exactly from a successful handshake until it finishes |
| `WebSocketClient.HandshakeKeepsInv` | src/signaling/websocket_client.cpp:215-233 | whatever the open callback does, the client is reading afterwards; two close frames are out exactly if it closed first |
| `WebSocketClient.OneCloseFrameIff` | src/signaling/websocket_client.cpp:331-358 | no run sends two close frames if and only if the open callback does not close the client before sending |
| `WebSocketClient.WebSocketClient.OnHandshake` | src/signaling/websocket_client.cpp:215-233 | takes the step of a completed handshake, and keeps the discipline whatever the open callback does |
| `WebSocketClient.WebSocketClient.OnRead` | src/signaling/websocket_client.cpp:235-279 | takes the step of a completed read (a message, a text ping, a close or a loss), and keeps the discipline whatever the owner does |
| `WebSocketClient.WebSocketClient.Queue` | src/signaling/websocket_client.cpp:283-293 | a frame is accepted, behind all earlier ones, exactly while the client is open and not closing; the discipline is kept and something is being written then |
| `WebSocketClient.WebSocketClient.DoWrite` | src/signaling/websocket_client.cpp:295-329 | brings progress about: queued frames are being written, and a requested close is under way, with one write at a time |
| `WebSocketClient.WebSocketClient.OnWritten` | src/signaling/websocket_client.cpp:306-328 | takes the step of a completed write, and keeps the discipline |
| `WebSocketClient.WebSocketClient.Close` | src/signaling/websocket_client.cpp:331-344 | keeps the discipline and all accepted frames; the client is finished, or the close follows them |
| `WebSocketClient.WebSocketClient.OnCloseDone` | src/signaling/websocket_client.cpp:346-358 | takes the step of a completed close, and keeps the discipline |
| `WebSocketClient.WebSocketClient.Finish` | src/signaling/websocket_client.cpp:383-414 | from any state, even after a failed write, leaves a finished client that has told its owner once |
| `FrameLayout.TimesIsProduct` | src/codecs/v4l2/v4l2_codec.cpp:11-16 | the running row offsets are the products of row and stride |
| `FrameLayout.PlaneEnd` | src/common/v4l2_frame_buffer.cpp:146-179 | the planes follow one another without overlap and fill the frame |
| `FrameLayout.AddressInFrame` | src/common/v4l2_frame_buffer.cpp:146-179 | every sample of the picture is read inside its own plane |
| `FrameLayout.CopyRowsHits` | src/codecs/v4l2/v4l2_codec.cpp:11-16 | each byte of each copied row arrives at its row and column of the destination |
| `FrameLayout.CopyRowsMisses` | src/codecs/v4l2/v4l2_codec.cpp:11-16 | no other byte changes |
| `FrameLayout.CopyRowsInto` | src/codecs/v4l2/v4l2_codec.cpp:11-16 | the loop over rows writes in bounds, and exactly what the two facts above speak about |
| `FrameLayout.RepackKeepsPicture` | src/codecs/v4l2/v4l2_codec.cpp:210-229 | for even sizes and any two layouts that hold the picture, YUV420 or NV12, the destination reads as the same picture as the source |
| `FrameLayout.AlwaysKeepsPictureIffEven` | src/codecs/v4l2/v4l2_codec.cpp:210-229 | for any two layouts at least as large as the picture, repacking keeps it for all contents if and only if width and height are even |
| `FrameLayout.OddSizeLosesChroma` | src/codecs/v4l2/v4l2_codec.cpp:223-228 | for every odd size, in every two layouts at least as large, there are frames whose last chroma sample is lost |
| `FrameLayout.V4L2Codec.CopyPlanesInto` | src/codecs/v4l2/v4l2_codec.cpp:210-229 | writes the planes into the buffer in place, in bounds; the rest of the buffer keeps its bytes |
| `FrameLayout.V4L2Codec.FillInput` | src/codecs/v4l2/v4l2_codec.cpp:162-181 | a repacked frame of even size, and a plainly copied one of any size its layout holds, shows its picture in the queue's layout; one that is too long is refused and nothing is written |
| `FrameLayout.SameBytesSamePicture` | src/codecs/v4l2/v4l2_codec.cpp:203-208 | a plain copy shows the same picture, of any size the layout holds, when stride and plane height agree |
| `BufferPools.ThreadSafeQueue.Push` | src/common/thread_safe_queue.h:19-30 | appends, unless the queue is full |
| `BufferPools.ThreadSafeQueue.Pop` | src/common/thread_safe_queue.h:32-56 | takes the oldest element, or nothing from an empty queue |
| `BufferPools.ThreadSafeQueue.Clear` | src/common/thread_safe_queue.h:82-85 | leaves the queue empty |
| `BufferPools.ScalerNextKeeps` | src/codecs/jetson/jetson_scaler.cpp:94-157 | every queue operation of any thread keeps the surfaces partitioned and loses none |
| `BufferPools.SurfacesAreConserved` | src/codecs/jetson/jetson_scaler.cpp:94-243 | in every interleaving the surfaces are partitioned among the two queues, the producers and the worker, and whoever holds one finds room in both queues |
| `BufferPools.FramesComeOutInOrder` | src/codecs/jetson/jetson_scaler.cpp:130-157 | in every interleaving the worker takes the submitted frames in order, and none is left out |
| `BufferPools.JetsonScaler.Initialize` | src/codecs/jetson/jetson_scaler.cpp:65-84 | the free queue holds the surfaces allocated before the first failure |
| `BufferPools.JetsonScaler.EmplaceBuffer` | src/codecs/jetson/jetson_scaler.cpp:94-157 | the oldest free surface joins the queued captures, behind them, or goes back when the transform fails; with none free nothing changes; a transformed frame is never refused |
| `BufferPools.JetsonScaler.CaptureBuffer` | src/codecs/jetson/jetson_scaler.cpp:236-243 | the oldest queued capture is delivered and its surface becomes free |
| `BufferPools.JetsonScaler.DrainTasks` | src/codecs/jetson/jetson_scaler.cpp:30-33 | unused captures give their surfaces back without loss |
| `BufferPools.JetsonScaler.Destroy` | src/codecs/jetson/jetson_scaler.cpp:26-49 | every surface that was allocated is destroyed exactly once, also after a failed initialization |
| `BufferPools.CodecNextKeeps` | src/codecs/v4l2/v4l2_codec.cpp:150-188 | every operation keeps the indices in play and loses none, with at most eight in play |
| `BufferPools.PrepareBuffer` | src/codecs/v4l2/v4l2_codec.cpp:95-98 | pushing the indices one by one leaves the first eight free, in order, and loses exactly the others |
| `BufferPools.IndicesAreConserved` | src/codecs/v4l2/v4l2_codec.cpp:150-269 | in every interleaving the first eight indices are partitioned among free queue, threads and driver, and the others never come back |
| `BufferPools.NoIndexLostIff` | src/codecs/v4l2/v4l2_codec.cpp:95-98 | no index is ever lost if and only if there are at most eight input buffers |
| `RtcPeer.StepKeepsInvIff` | src/rtc/rtc_peer.cpp:262-529 | every step keeps what safety rests on, except a report that negotiation is needed while a local offer is pending and no rollback is about to be reported |
| `RtcPeer.SafeIff` | src/rtc/rtc_peer.cpp:262-529 | after a step no continuation ever forgets a needed negotiation, if and only if the step is not such a report |
| `RtcPeer.NextStepIsSafeIff` | src/rtc/rtc_peer.cpp:262-529 | the same at every moment of every run, for whatever comes next |
| `RtcPeer.NeverForgotten` | src/rtc/rtc_peer.cpp:262-359 | in every run a connected, stable peer needs no negotiation, except between a rollback and the remote offer that follows; with nothing pending, no rolled-back offer is still owed |
| `RtcPeer.NeedLeadsToOffer` | src/rtc/rtc_peer.cpp:348-360 | in every run a report that negotiation is needed has led to a local offer by the time the direct peer is connected and nothing is pending |
| `RtcPeer.OffersHaveReasons` | src/rtc/rtc_peer.cpp:262-286 | a direct peer makes no offer unless, since its last one, negotiation was reported to be needed or an offer of its own was rolled back |
| `RtcPeer.RemoteOfferIsAnswered` | src/rtc/rtc_peer.cpp:458-529 | in every run a remote offer, also one that meets a local offer, has been answered by the time nothing is pending, unless the peer was closed |
| `RtcPeer.SessionFollowsTheStandard` | src/rtc/rtc_peer.cpp:262-286 | the session moves as section 3.2 of RFC 8829 allows; an answer ends the offer it is for and changes nothing otherwise; the end is the end |
| `RtcPeer.ConnectedIff` | src/rtc/rtc_peer.cpp:310-329 | a peer is connected if and only if the last thing said of its connection is that it is |
| `RtcPeer.RolledBackOfferIsResumed` | src/rtc/rtc_peer.cpp:262-279 | once everything pending is reported, a rolled-back offer has been made again |
| `RtcPeer.SettledOffer` | src/rtc/rtc_peer.cpp:273-279 | a local offer, and the need for one, survive everything that is pending |
| `RtcPeer.TooEarlyIsForgotten` | src/rtc/rtc_peer.cpp:348-359 | after such a report, connecting and the remote answer leave a connected, stable peer with a need that nothing acts on |
| `RtcPeer.LocalOfferPending` | src/rtc/rtc_peer.cpp:348-359 | runs of a direct peer come to where such a report would be too early |
| `RtcPeer.OthersNeverRenegotiate` | src/rtc/rtc_peer.cpp:84-85 | a peer that is not direct never needs renegotiation |
| `RtcPeer.CallbacksStay` | src/rtc/rtc_peer.cpp:279-285 | in every run the local callbacks stay until Terminate, except in a peer that renegotiates and sends its candidates in the description |
| `RtcPeer.ExpiryIsAnnouncedOnce` | src/rtc/rtc_peer.cpp:134-142 | expiry is announced once if the connection closes before the peer is terminated, and otherwise never |
| `RtcPeer.RtcPeer.CreateOffer` | src/rtc/rtc_peer.cpp:26-33 | from a stable state without a need it puts everything in order: an offer is pending, none is owed, nothing is forgotten; in any other state nothing happens |
| `RtcPeer.RtcPeer.OnSignalingChange` | src/rtc/rtc_peer.cpp:262-286 | back in the stable state nothing is forgotten; and after a remote offer a connected peer has made the local offer that was needed, with none owed any more |
| `RtcPeer.RtcPeer.OnRenegotiationNeeded` | src/rtc/rtc_peer.cpp:348-359 | takes the step: offers at once when connected and stable, else remembers the need; nothing is forgotten unless the report comes too early |
| `RtcPeer.RtcPeer.OnConnectionChange` | src/rtc/rtc_peer.cpp:310-334 | takes the step of connecting, failing or closing, and nothing is forgotten |
| `RtcPeer.RtcPeer.MarkExpired` | src/rtc/rtc_peer.cpp:134-142 | however often it is called the expiry is announced once at most, and not again once the peer has expired |
| `RtcPeer.RtcPeer.Terminate` | src/rtc/rtc_peer.cpp:59-80 | closes and expires the peer without an announcement |
| `RtcPeer.RtcPeer.SetRemoteSdp` | src/rtc/rtc_peer.cpp:458-529 | takes the step of a remote offer or answer, rolling a pending local offer back, and nothing is forgotten |
| `RtcPeer.RtcPeer.OnAnswerCreated` | src/rtc/rtc_peer.cpp:371-398 | takes the step of a created answer, which has no effect in a state that does not allow it |
| `RtcPeer.RtcPeer.OnRollbackDone` | src/rtc/rtc_peer.cpp:489-497 | takes the step that applies the remote offer again |
| `PeerRegistry.StepKeepsNoneLost` | src/signaling/peer_registry.cpp:67-80 | a step keeps every expired registered peer due for a sweep if and only if it does not add an expired peer when no sweep is to come |
| `PeerRegistry.NoExpiryIsLost` | src/signaling/peer_registry.cpp:9-44 | in every run in which no peer that had expired is added without a sweep to come, each expired peer still registered has a posted wake, a pending expiry, or a worker about to visit it |
| `PeerRegistry.NoExpiryIsLostIff` | src/signaling/peer_registry.cpp:67-80 | a whole run loses no expiry if and only if each peer that had expired before it was added came while a sweep was still to come |
| `PeerRegistry.EachSweptOnce` | src/signaling/peer_registry.cpp:108-153 | in every run, even when peers expire during a sweep, each swept peer is terminated once and then reported once, in the order of sweeping |
| `PeerRegistry.RegisteredIff` | src/signaling/peer_registry.cpp:46-106 | the registry holds exactly the peers that were added and not removed, stopped or swept since, and knows exactly which of them have expired |
| `PeerRegistry.SweptIsFound` | src/signaling/peer_registry.cpp:108-141 | exactly the peers that a sweep finds expired are swept, in that order |
| `PeerRegistry.OnlyExpiredAreSwept` | src/signaling/peer_registry.cpp:130-139 | a sweep takes out only peers that have expired |
| `PeerRegistry.CleanerGetsThere` | src/signaling/peer_registry.cpp:21-41 | unless nothing is left to do, the cleaner or a posted wake has a step to take, and each brings it closer to the end |
| `PeerRegistry.QuietMeansClean` | src/signaling/peer_registry.cpp:108-153 | with nothing left to do, all swept peers are terminated and reported, and in a run of that kind no registered peer has expired |
| `PeerRegistry.PeerRegistry.Wake` | src/signaling/peer_registry.cpp:9-15 | marks an expiry as pending |
| `PeerRegistry.PeerRegistry.Add` | src/signaling/peer_registry.cpp:67-80 | registers the peer under its id and touches no other |
| `PeerRegistry.PeerRegistry.Get` | src/signaling/peer_registry.cpp:82-89 | gives a registered peer, but never an expired one |
| `PeerRegistry.PeerRegistry.Remove` | src/signaling/peer_registry.cpp:91-106 | takes the peer out and terminates it, if it was there |
| `PeerRegistry.PeerRegistry.Sweep` | src/signaling/peer_registry.cpp:108-153 | takes out exactly the peers that have expired when they are visited, and terminates and reports each of them once |
| `MqttService.TypeRoundTripIff` | src/signaling/mqtt_service.cpp:366-399 | the type is found again in a topic if and only if the topic names a client or the type is unknown |
| `MqttService.TopicsAsWritten` | src/signaling/mqtt_service.cpp:364-385 | the topics as they are written out: device id, offer, answer or ice, client id |
| `MqttService.ClientRoundTripIff` | src/signaling/mqtt_service.cpp:284-307 | the client id is found again in a topic if and only if it has no '/' |
| `MqttService.FindSlash` | src/signaling/mqtt_service.cpp:296-296 | gives the first '/' from a position on, and nothing exactly if there is none |
| `MqttService.StepKeepsMaps` | src/signaling/mqtt_service.cpp:228-267 | every step of a message handler or the cleaner keeps the two maps in agreement |
| `MqttService.MapsAlwaysAgree` | src/signaling/mqtt_service.cpp:228-267 | in every interleaving a client's peer leads back to it, every mapped peer leads to the client it was created for, and a reported peer is still mapped exactly if it was mapped after its report |
| `MqttService.MapsFollowEvents` | src/signaling/mqtt_service.cpp:228-267 | in every interleaving a client has exactly the peer it was mapped to last, unless that was reported since or the service has disconnected, and a peer exactly the client it was mapped to |
| `MqttService.HandlerFollowsEvents` | src/signaling/mqtt_service.cpp:209-267 | what is mapped is the client of the message being handled and the peer created for it |
| `MqttService.MessageFindsItsPeer` | src/signaling/mqtt_service.cpp:228-236 | a message is handled with the peer its client has by then |
| `MqttService.StaleForGood` | src/signaling/mqtt_service.cpp:261-265 | an entry of a peer that was reported before it was mapped stays until the service disconnects |
| `MqttService.ReportedBeforeMapped` | src/signaling/mqtt_service.cpp:240-265 | a run that leaves such an entry |
| `MqttService.ExpiryUnmapsExactlyItsPeer` | src/signaling/mqtt_service.cpp:45-61 | an expired peer is taken from every client that has it, and a client's newer peer stays |
| `MqttService.MqttService.OnMessage` | src/signaling/mqtt_service.cpp:209-236 | ignores a topic without a known type and client, else looks the client's peer up |
| `MqttService.MqttService.FindOrCreate` | src/signaling/mqtt_service.cpp:238-259 | takes the step of finding or creating the peer, and keeps the maps in agreement |
| `MqttService.MqttService.MapPeer` | src/signaling/mqtt_service.cpp:261-265 | takes the step that maps client and peer to each other, and keeps the maps in agreement |
| `MqttService.MqttService.OnPeerExpired` | src/signaling/mqtt_service.cpp:45-61 | takes the step of the cleaner's report, and keeps the maps in agreement |
| `UnixSocketServer.SendKeeps` | src/ipc/unix_socket_server.cpp:79-110 | whatever the kernel answers, a client that is kept has been sent whole messages in order with one unread at most |
| `UnixSocketServer.ClientsGetWholeMessages` | src/ipc/unix_socket_server.cpp:56-125 | in every interleaving of publishes, accepts, flushes, reads and departures, the bytes sent to a registered client are whole published messages in strictly increasing order, and no more than the last is unread |
| `UnixSocketServer.PublishedIsWhatWasSet` | src/ipc/unix_socket_server.cpp:118-124 | the versions are the messages that were handed to the server, each one, in order |
| `UnixSocketServer.RegisteredIff` | src/ipc/unix_socket_server.cpp:203-240 | a client is registered if and only if it was accepted and has neither left nor been dropped by a flush since, which is told by what the kernel answered |
| `UnixSocketServer.AcceptedStartsEmpty` | src/ipc/unix_socket_server.cpp:203-207 | a client that has just been accepted has been sent nothing |
| `UnixSocketServer.UnreadIsTheNewest` | src/ipc/unix_socket_server.cpp:84-91 | what a client has yet to read is the end of the newest message it was sent |
| `UnixSocketServer.FlushReachesEveryone` | src/ipc/unix_socket_server.cpp:56-116 | right after a flush, in every run, each client still registered has been sent the latest message, or still reads an older one and has nothing else to read, or its send would have blocked |
| `UnixSocketServer.FlushOutcome` | src/ipc/unix_socket_server.cpp:79-110 | exactly whom a flush drops, and whom it leaves behind |
| `UnixSocketServer.OnlyAFlushCatchesUp` | src/ipc/unix_socket_server.cpp:84-91 | a client passed over stays behind until the next flush, whatever it reads and whatever is published meanwhile |
| `UnixSocketServer.UnixSocketServer.TrySend` | src/ipc/unix_socket_server.cpp:79-110 | a client that is kept still has whole messages in order, and has the latest unless an older one is unread or the send would have blocked; the others are left alone |
| `UnixSocketServer.UnixSocketServer.FlushLatest` | src/ipc/unix_socket_server.cpp:56-77 | visits every client once, in any order, and erases exactly those whose send failed |
| `UnixSocketServer.UnixSocketServer.PublishLatest` | src/ipc/unix_socket_server.cpp:118-125 | the message becomes the latest, as one more version, and is then flushed |
| `UnixSocketServer.UnixSocketServer.AcceptClient` | src/ipc/unix_socket_server.cpp:203-209 | registers a client that has been sent nothing, then flushes |
| `UnixSocketServer.UnixSocketServer.RemoveClient` | src/ipc/unix_socket_server.cpp:231-240 | unregisters the client |
| `LatencyTracer.CountsAddUp` | src/common/latency_tracer.cpp:309-331 | the buckets up to an edge count exactly the samples below it |
| `LatencyTracer.SortedPermutes` | src/common/latency_tracer.cpp:169-213 | the reference for ranks is the recorded samples, sorted |
| `LatencyTracer.RankByCount` | src/common/latency_tracer.cpp:186-199 | the running count passes a rank at the bucket of the sorted sample at that rank, and not before |
| `LatencyTracer.PercentilesAreFair` | src/common/latency_tracer.cpp:169-213 | the count is that of the samples; p50 and p95 are at least the sorted sample at their rank if and only if it is at most 128 ms, exceed it by at most one 500 microsecond bucket, and p50 <= p95 <= max |
| `LatencyTracer.Histogram.Record` | src/common/latency_tracer.cpp:309-331 | adds one sample: negative durations count as zero, long ones in the last bucket |
| `LatencyTracer.Histogram.TakeSnapshot` | src/common/latency_tracer.cpp:169-213 | reports the percentiles of exactly the samples since the last snapshot and starts over |
| `LatencyTracer.Histogram.EmptyBuckets` | src/common/latency_tracer.cpp:174-177 | takes exactly the counts of the recorded samples, which add up to their number, and leaves all buckets empty |
| `LatencyTracer.Histogram.Percentiles` | src/common/latency_tracer.cpp:186-206 | the loop over buckets finds the upper edges of the buckets of both ranks |
| `Base64.ToBase64` | src/recorder/media_query.cpp:27-46 | gives the encoding of section 4 of RFC 4648 for every input, although the 32-bit accumulator wraps |
| `Base64.Consume` | src/recorder/media_query.cpp:33-40 | one byte completes the same letters whatever is left in the high bits of the accumulator |
| `Base64.Finish` | src/recorder/media_query.cpp:41-45 | the pending bits and the padding complete the last group |
| `Base64.ShiftIn` | src/recorder/media_query.cpp:34-34 | however often the accumulator has wrapped, its low 16 bits are the last two bytes |
| `Base64.AlphabetIsStandard` | src/recorder/media_query.cpp:30-31 | the 64 characters are those of the standard's alphabet |
| `Base64.CompleteIsEncode` | src/recorder/media_query.cpp:33-45 | letters emitted byte by byte make up the encoding by groups of three |
| `Base64.RoundTrip` | src/recorder/media_query.cpp:27-46 | a decoder recovers every input |
| `Base64.EncodedLength` | src/recorder/media_query.cpp:44-45 | the output has 4 * ceil(n / 3) characters |
| `OlderFiles.FindOlderFiles` | src/recorder/media_query.cpp:262-340 | the first requested entries of the full list of older files, in each layout; nothing for a missing file; a negative request counts as one of almost 2^64 |
| `OlderFiles.FindNested` | src/recorder/media_query.cpp:287-340 | terminates, and returns the first requested entries of the list the walk makes up |
| `OlderFiles.FindFlat` | src/recorder/media_query.cpp:271-285 | the newest older files of one folder; all of them when none are requested |
| `OlderFiles.AddFolder` | src/recorder/media_query.cpp:293-304 | one folder adds its older files, newest first, until the request is met |
| `OlderFiles.PreviousIsTheDayBefore` | src/recorder/media_query.cpp:85-96 | the previous date is the day before, across months, years and leap years |
| `OlderFiles.NamesFollowDays` | src/recorder/media_query.cpp:85-96 | date folders' names are in the order of their days |
| `OlderFiles.NextDescends` | src/recorder/media_query.cpp:306-336 | each move goes to fewer earlier dates, or to fewer earlier hours of the same date |
| `OlderFiles.WalkDescends` | src/recorder/media_query.cpp:291-337 | no folder is looked into twice, and each comes after the earlier ones in time |
| `OlderFiles.WalkReaches` | src/recorder/media_query.cpp:291-337 | exactly which folders are looked into: earlier ones of the same date, and those of earlier dates up to a dated one as long as no day without a dated folder lies between |
| `OlderFiles.FoundIff` | src/recorder/media_query.cpp:291-337 | a recording is found exactly if it is older, has the extension, and lies in such a folder |
| `OlderFiles.ReturnsTheNewest` | src/recorder/media_query.cpp:262-340 | when folders agree with write times the result is newest first, and nothing left out is newer than anything returned |
| `OlderFiles.CandidatesCount` | src/recorder/media_query.cpp:48-60 | a listing gives its older recordings with the extension, each as often as it is listed |
| `OlderFiles.EachReturnedOnce` | src/recorder/media_query.cpp:291-337 | no recording is returned twice, if none is listed twice |
| `OlderFiles.SortedFacts` | src/recorder/media_query.cpp:294-294 | sorting a listing keeps its files, puts the newest first, and those of one time by descending path |
| `OlderFiles.FindLatestSubDir` | src/recorder/media_query.cpp:62-83 | the greatest folder name of two or eight digits, if there is one |
| `OlderFiles.FindEarlierHour` | src/recorder/media_query.cpp:309-320 | the greatest folder name below the current hour, if there is one |
| `LiveKitQuery.UrlEncode` | src/signaling/livekit_service.cpp:12-26 | gives the percent-encoding whose properties the next rows state |
| `LiveKitQuery.EncodingRoundTrip` | src/signaling/livekit_service.cpp:12-26 | decoding gives every byte string back; the encoding is unreserved characters and upper-case triplets only, no unreserved byte being escaped |
| `LiveKitQuery.CanonicalIsEncoded` | src/signaling/livekit_service.cpp:12-26 | every text of that form is an encoding, that of what it decodes to |
| `LiveKitQuery.BuildWebSocketTarget` | src/signaling/livekit_service.cpp:28-44 | gives the target that the next row reads back |
| `LiveKitQuery.TargetRoundTrip` | src/signaling/livekit_service.cpp:28-44 | the target is the path up to its first '?'; splitting the rest at '&' and '=' and decoding gives the parameters back, for all values, given keys without '&' and '=' and a path without '?' |

## Left out

- StreamTransport.IpcChannel.OnStreamChunk: does not model that `offset + size` wraps at 64 bits; offsets there are those of chunks that a sender numbers from zero.
- StreamTransport.RtcChannel.SendLoopRound: one round of the send thread while the channel is open and has room; waiting, closing and packets dropped after `Terminate` are not modelled.
- Stream ids are given to the sender rather than drawn, and packets are typed messages: protobuf, the framing of payloads, and what an endpoint does with a body are not part of this model.
- CloudflareProtocol.PubInvStep: the events of the io_context are steps of their own; what an answer, a channel list or a voice offer does inside the peer connection is left out, as are ICE servers, the token's body, the jitter of a reconnect, and the seconds that the retry and health timers wait.
- CloudflareProtocol.RunInv: the worker is assumed to reply only to offers, in order and no more than once; that it does so is not part of this model. A peer's state changes and the posting of the change are one step. `Connect` is called once.
- CloudflareHistory.HealthCheckDecides: the clock that the checks read starts above zero and does not go back, as a steady clock does; the source takes a reading of zero for none.
- CloudflareService: the fields that make the connection, and those that make the publication, are two records of the class rather than single fields.
- WebSocketClient.RunsAreDisciplined: the transport below (resolving, TLS, the frames' bytes), the timers' lengths and pings by control frame are left out; a ping is the text frame the client queues.
- FrameLayout.V4L2Codec.FillInput: the DMA buffer path, whose contents never pass through the program, and picture formats other than YUV420 and NV12 when they need no repacking are left out; frame offsets are unbounded integers, while the source's are `int`.
- FrameLayout: row offsets are written as repeated addition, `Times`, which `TimesIsProduct` shows to be the product. `V4L2FrameBuffer::Clone`, and the conversion of ToI420 by libyuv, are not modelled: the picture is what the plane addresses given to it read.
- BufferPools.JetsonScaler.EmplaceBuffer: what the transform writes into a surface is left out, as is the extra surface for frames from CPU memory. Interleavings of threads are the subject of `ScalerNext`; the class is one call after the other.
- BufferPools.IndicesAreConserved: the driver is assumed to grant the number of buffers that was requested. The pairing of encoded outputs with callbacks depends on the driver's timing and is left out.
- RtcPeer.NextStepIsSafeIff: set-description calls that the session state allows succeed, creating a local offer and setting it is one step, and remote descriptions are offers or answers; `pranswer` and a remote `rollback` are left out.
- RtcPeer: ICE candidates, the connect deadline, data channels, and the delays with which local descriptions are emitted are left out.
- PeerRegistry.PeerRegistry.Sweep: takes one order of expiries during the sweep, those in `late` just before their turn; every other order is covered by the steps. Registered peers are assumed to be terminated only by the registry, and a missing callback, a null peer in the map and the destructor are left out.
- MqttService.MqttService.OnMessage: one message is handled at a time, as the MQTT loop does; the SDP and ICE payloads that follow the mapping, and everything JSON, are left out.
- UnixSocketServer.ClientsGetWholeMessages: `Write`, which sends to the same clients with blocking sends, the messages that clients send, and `Stop` are left out. The clients of one flush are visited in any order, and what a client reads during its turn comes first in it.
- LatencyTracer.Histogram.Record: bucket counters do not wrap at 32 bits, and the atomic updates of one sample are one step; a snapshot is one step as well.
- OlderFiles.FindOlderFiles: file and folder names are numbers in string order, and date folders the numbers of their days, an order that `NamesFollowDays` shows to be that of their names; date folders whose names are not dates are left out. The file system does not change during a search.
- OlderFiles: `FindLatestCompleteFile` and the search by time, thumbnails and durations are not modelled.
- LiveKitQuery.BuildWebSocketTarget: the map is the sequence of its entries in key order; the rest of the LiveKit service is left out.
- Capturers, encoders, audio, recording and muxing, the WHEP service, option parsing and the protocols' wire formats are left out: foreign calls with little logic of their own.
