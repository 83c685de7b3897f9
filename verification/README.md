# MoQ over V2X: publisher, relay, receivers, and the Veins layers below them

This project models five parts of a simulation of Media over QUIC between vehicles and proves what they
are relied on for.

1. **MoQ sending and forwarding** (draft-ietf-moq-transport-14). A publisher holds objects in priority order,
   writes them in slices onto one QUIC stream per subgroup, sheds objects past their delivery timeout, resets
   streams, and ends all subscriptions when its buffer overflows. A relay does the same per subscriber. The
   receivers find the objects again only by length prefixes inside the streams. `SendQueue` holds what the two
   senders share; `Publisher` and `Relay` say what each event does as functions; `PublisherApp` and `RelayApp`
   are the classes that update their fields in place and are proved to compute those functions; `PublisherRuns`,
   `RelayRuns`, `RelayStreams`, `Pacing`, `RelayPacing` and `EndToEnd` are about whole runs. `PublisherDelivery`,
   `RelayDelivery`, `RelayTables`, `RelayEndings` and `DeliveryTimeouts` say what becomes of each object, subscriber and
   connection: who gets an object, what may be shed and when, how subscriptions end. `ReceivePump` and `SubscriberApp`
   are the receive side, where a packet does not say which stream it came from.
2. **The Veins connection manager**: a cell grid with a hand-written hash set of 74 slots that must find exactly
   the pairs of radios in range, on a plain playground or a torus (`GridGeometry`, `RangeGeometry`, `CoordSet`,
   `Connections`, `ConnectionManager`).
3. **ChannelInfo**: which air frames are kept after they ended, with an iterator that erases while it walks
   (`IntervalMatrix`, `ChannelRetention`, `ChannelInfo`).
4. **Signals**: a sweep that finds the maximal interference over continuous time, and a threshold test that
   applies channel models only as far as needed (`Signal`, `Interference`, `SignalUtils`, `ChannelSensing`).
5. **Framing**: MoQ object and control frames, UDP fragments, and MQTT v5.0 packets (`MoqFraming`, `MoqControl`,
   `UdpFragments`, `MqttFraming`), over the generic byte stream of `ByteStream`. `WireFormats` gives every format once
   more in literal bytes.

Simulation times are integers, doubles are exact reals, bytes are integers from 0 to 255. QUIC is an environment:
a queue length reported during an event, blocked and drained signals, and first-in first-out streams.

Where the code and its comments disagree, the model follows the code:

- `MoqPublisherApp.h:92-94` says that an overflow evicts the lowest-priority, oldest object; the code ends all
  subscriptions (`MoqPublisherApp.cc:563-626`).
- `MoqRelayApp.cc:259-261` and `:280-281` say that the streams of a subscription are closed before PUBLISH_DONE;
  the code resets only the streams with a partly written object in the queue (`:290-297`).
  `RelayRuns.AllStreamsClosedIff` says exactly when none stays open, and `RelayRuns.StreamLeftOpen` is a run in
  which one does: its only object was written whole before the track ended.
- `ChannelInfo.h:396-398` promises complete answers for intervals inside an active air frame; at the first instant
  of that frame the answer can miss a frame that ended then (`ChannelRetention.CompleteIffAfterStart`).
- On a torus the padding of the cells makes the last one narrower than the interference distance, so that the grid
  can miss pairs in range (`GridGeometry.CoversIffSlack`, `Connections.GridEqualsBruteForce`).

## Model

| member | source | states |
|---|---|---|
| MoqFraming.I64RoundTrip | MoQVeinsSim/src/models/MoqFraming.h:154-165 | a 64-bit field comes back exactly when the value fits 64 bits |
| MoqFraming.PutI64 | MoQVeinsSim/src/models/MoqFraming.h:154-157 | the shifting loop appends the eight little-endian bytes |
| MoqFraming.ReadI64 | MoQVeinsSim/src/models/MoqFraming.h:161-165 | the loop from the top byte down reads them back |
| MoqFraming.EncodeFrame | MoQVeinsSim/src/models/MoqFraming.h:168-187 | builds the specified frame of an object |
| MoqFraming.ParseEncoded | MoQVeinsSim/src/models/MoqFraming.h:168-207 | a frame parses to its object and consumes exactly its own bytes, whatever follows |
| MoqFraming.ParsePartial | MoQVeinsSim/src/models/MoqFraming.h:191-194 | no proper part of a frame parses |
| MoqFraming.RoundTripIffFits | MoQVeinsSim/src/models/MoqFraming.h:168-207 | the round trip holds exactly while the body is shorter than 2^32 bytes |
| MoqFraming.ReceiveAnyChunking | MoQVeinsSim/src/applications/moq/MoqSubscriberApp.cc:220-249 | any part of a stream of frames, cut anywhere, yields exactly its whole frames in order and keeps the rest |
| MoqFraming.StreamReassembler.OnData | MoQVeinsSim/src/applications/moq/MoqSubscriberApp.cc:227-247 | the append-and-parse loop drains the buffer as specified |
| MoqFraming.QuicPriorityMonotone | MoQVeinsSim/src/models/MoqFraming.h:86-91 | the mapping to QUIC priorities keeps the send order, is one more up to 254, and never reaches the control stream's |
| WireFormats.ObjectOnTheWire | MoQVeinsSim/src/models/MoqFraming.h:168-187 | an object frame in literal bytes: its length, seven little-endian numbers, its alias with its length, zeros |
| WireFormats.ControlOnTheWire | MoQVeinsSim/src/models/MoqFraming.h:223-245 | a control frame in literal bytes: its length, type, nine numbers, four texts with their lengths |
| WireFormats.EnvelopeOnTheWire | MoQVeinsSim/src/models/MoqFraming.h:289-296 | on a TCP stream a byte 1 comes before a control frame, a byte 2 before an object |
| ByteStream.FeedPrefix | MoQVeinsSim/src/applications/moq/MoqSubscriberApp.cc:220-249 | for any self-delimiting encoding, chunking does not change what is received |
| MoqControl.ParseEncodedControl | MoQVeinsSim/src/models/MoqFraming.h:223-268 | a control frame comes back whole and consumes exactly its own bytes |
| MoqControl.ParsePartialControl | MoQVeinsSim/src/models/MoqFraming.h:247-250 | no proper part of a control frame parses |
| MoqControl.MixedStreamAnyChunking | MoQVeinsSim/src/models/MoqFraming.h:284-314 | control and object frames mixed on a TCP stream, cut anywhere, come out as the same messages |
| SendQueue.AcceptValid | MoQVeinsSim/src/applications/moq/MoqPublisherApp.cc:382-417 | queueing an object, on a new stream or an open one, keeps every stream parseable |
| SendQueue.WriteFrontValid | MoQVeinsSim/src/applications/moq/MoqPublisherApp.cc:450-481 | writing the next slice of the first object keeps every stream parseable |
| SendQueue.DropValid | MoQVeinsSim/src/applications/moq/MoqPublisherApp.cc:652-676 | dropping an object of which nothing is out, or whose stream was reset, keeps every stream parseable |
| SendQueue.ResetStreamValid | MoQVeinsSim/src/applications/moq/MoqPublisherApp.cc:527-532 | a reset keeps every other stream parseable and its own silent |
| SendQueue.NeverDesynchronised | MoQVeinsSim/src/applications/moq/MoqSubscriberApp.cc:220-249 | whatever is delivered of a stream parses to whole offered objects in ascending id; all of it to exactly those fully written |
| SendQueue.CutObjectStillQueued | MoQVeinsSim/src/applications/moq/MoqPublisherApp.cc:450-481 | on an open stream the object cut off at the end is still queued at that offset, with the bytes that complete it |
| PriorityBuffer.PushBack | MoQVeinsSim/src/applications/moq/MoqPublisherApp.cc:563-567 | appending to the queue of a priority is inserting into the send order |
| PriorityBuffer.EraseAt | MoQVeinsSim/src/applications/moq/MoqPublisherApp.cc:541-561 | erasing inside one priority's queue removes exactly that object from the send order |
| Publisher.FlushStepShrinks | MoQVeinsSim/src/applications/moq/MoqPublisherApp.cc:638-693 | every turn of the flush loop lowers bytes plus objects left, so it ends |
| Publisher.FlushStepBuffer | MoQVeinsSim/src/applications/moq/MoqPublisherApp.cc:650-692 | a turn takes out the first object or moves it on, and touches no other |
| DeliveryTimeouts.FlushTurn | MoQVeinsSim/src/applications/moq/MoqPublisherApp.cc:650-692 | a turn discards the first object if its subgroup was reset or `now > createdAt + timeout > createdAt`, with a reset if part is out, and counts it; else writes exactly its next slice |
| DeliveryTimeouts.SweepExact | MoQVeinsSim/src/applications/moq/MoqPublisherApp.cc:541-561 | before a teardown exactly the objects with `timeout <= 0` or `now <= createdAt + timeout` stay, in order; per track the others are counted; the partly written are reset; nothing is written |
| PublisherInvariant.InitialInv | MoQVeinsSim/src/applications/moq/MoqPublisherApp.h:69-140 | the initial state satisfies the invariant |
| PublisherRuns.StepInv | MoQVeinsSim/src/applications/moq/MoqPublisherApp.cc:374-694 | every event keeps the invariant of streams, queues, wire and books |
| PublisherRuns.ReceiverNeverDesynchronised | MoQVeinsSim/src/applications/moq/MoqPublisherApp.cc:382-481 | in every run every stream yields the objects of its subgroup as offered, each whole, in ascending id |
| PublisherRuns.Conservation | MoQVeinsSim/src/applications/moq/MoqPublisherApp.cc:122-166 | per track, offered is sent plus shed plus buffered; after a teardown the triggering track alone misses fewer than one group |
| PublisherRuns.TeardownOrder | MoQVeinsSim/src/applications/moq/MoqPublisherApp.cc:586-626 | every stream ever opened is reset before the first PUBLISH_DONE, and there is one of those per track, last (section 9.12) |
| PublisherRuns.SilentAfterTeardown | MoQVeinsSim/src/applications/moq/MoqPublisherApp.cc:374-378 | after the teardown no event sends, queues or counts anything |
| PublisherRuns.ReliableTrackLosesNothing | MoQVeinsSim/src/applications/moq/MoqPublisherApp.cc:464-470 | a track without delivery timeout loses nothing and has no stream reset before the teardown |
| PublisherRuns.StreamDiscipline | MoQVeinsSim/src/applications/moq/MoqPublisherApp.cc:389-403 | ids are positive multiples of 4, a subgroup never gets a second stream, no data follows a reset, open and reset are disjoint |
| PublisherRuns.MostUrgentFirst | MoQVeinsSim/src/applications/moq/MoqPublisherApp.cc:645-650 | a turn of the flush loop gives at most one command, and if that writes data it is the next slice of an object of the lowest waiting priority number, the least id of its stream |
| PublisherRuns.RunGrows | MoQVeinsSim/src/applications/moq/MoqPublisherApp.cc:527-532 | no recorded reset cause ever changes, no stream changes owner, nothing sent is taken back |
| PublisherDelivery.LeavesOnlyLateOrReset | MoQVeinsSim/src/applications/moq/MoqPublisherApp.cc:374-694 | outside a teardown, which only a burst brings about, an object leaves the buffer written whole, past its time, or with its subgroup reset, and for no other reason; the buffer stays within its limit |
| PublisherDelivery.OfferOneExact | MoQVeinsSim/src/applications/moq/MoqPublisherApp.cc:374-417 | an object of a burst is offered as the latest on its subgroup's stream unless the subgroup is reset or all has ended; one more than the buffer may hold ends the subscriptions |
| PublisherDelivery.BufferWithinLimit | MoQVeinsSim/src/applications/moq/MoqPublisherApp.cc:563-579 | in every run the buffer holds no more objects than it may |
| PublisherDelivery.ObjectsComeFromBursts | MoQVeinsSim/src/applications/moq/MoqPublisherApp.cc:122-154 | in every run an object on a stream was emitted by a burst: its creation time is the burst's, its group id the burst's number and its id divided by the objects per group |
| PublisherDelivery.ExpiryExact | MoQVeinsSim/src/applications/moq/MoqPublisherApp.cc:494-517 | unless the queue of QUIC is empty, exactly the subgroups of objects written and past their timeout are reset, and exactly those still in time stay watched |
| PublisherDelivery.BlockedUntilDrained | MoQVeinsSim/src/applications/moq/MoqPublisherApp.cc:740-753 | blocked, the publisher writes nothing until QUIC has drained |
| Pacing.QueueStaysWithinLimit | MoQVeinsSim/src/applications/moq/MoqPublisherApp.cc:630-694 | what QUIC holds plus what it has yet to enqueue never exceeds limit - 1 + chunk, over any trace of publisher and QUIC steps |
| PublisherApp.MoqPublisherApp.FlushSendBuffer | MoQVeinsSim/src/applications/moq/MoqPublisherApp.cc:630-694 | the loop computes the specified flush, whose every turn is `DeliveryTimeouts.FlushTurn` |
| PublisherApp.MoqPublisherApp.SweepSendBufferTimeouts | MoQVeinsSim/src/applications/moq/MoqPublisherApp.cc:541-561 | the erasing walk computes the specified sweep, which is `DeliveryTimeouts.SweepExact` |
| PublisherApp.MoqPublisherApp.CheckOutstandingTimeouts | MoQVeinsSim/src/applications/moq/MoqPublisherApp.cc:494-517 | expires or forgets what was written to QUIC |
| PublisherApp.MoqPublisherApp.TerminateSubscriptions | MoQVeinsSim/src/applications/moq/MoqPublisherApp.cc:586-626 | resets in key order, counts and discards the buffer, then one PUBLISH_DONE per track |
| PublisherApp.MoqPublisherApp.SendObjectFrame | MoQVeinsSim/src/applications/moq/MoqPublisherApp.cc:374-417 | refuses, queues or ends the subscriptions, then flushes |
| PublisherApp.MoqPublisherApp.OnTrackTimer | MoQVeinsSim/src/applications/moq/MoqPublisherApp.cc:122-166 | one burst of a group on one subgroup |
| PublisherApp.MoqPublisherApp.HandleAll | MoQVeinsSim/src/applications/moq/MoqPublisherApp.cc:39-166 | any sequence of events leaves the object in the state of the run |
| Pacing.NeverBeyondLimit | MoQVeinsSim/src/applications/moq/MoqPublisherApp.cc:630-694 | from the start of the simulation, in every trace, the two together stay at or below limit - 1 + chunk |
| Pacing.FlushEnds | MoQVeinsSim/src/applications/moq/MoqPublisherApp.cc:638-650 | a flush ends only when blocked, at the limit, or with nothing left |
| Relay.FlushStepShrinks | MoQVeinsSim/src/applications/moq/MoqRelayApp.cc:746-793 | every turn of the relay's flush loop lowers bytes plus objects left |
| Relay.TrackOf | MoQVeinsSim/src/applications/moq/MoqRelayApp.cc:532-540 | an alias is cut at its first slash and joins up again; none without a slash |
| RelayRuns.StepInv | MoQVeinsSim/src/applications/moq/MoqRelayApp.cc:529-873 | every event keeps streams parseable, counters right, streams and objects with their own connection, and only arrived objects on them |
| RelayRuns.ForwardingCounters | MoQVeinsSim/src/applications/moq/MoqRelayApp.cc:602-606 | in every run pendingForwardCount is the sum of the connections' counts and each count is its queue's length |
| RelayRuns.OnlyFrontPartlyWritten | MoQVeinsSim/src/applications/moq/MoqRelayApp.cc:749-792 | of the queued objects of one priority only the first can be partly written |
| RelayRuns.EndSubscriberTrackExact | MoQVeinsSim/src/applications/moq/MoqRelayApp.cc:282-315 | exactly the track's objects leave the subscriber's queue, partly written ones with a reset before the PUBLISH_DONE; which streams stay open |
| RelayRuns.ForwardedFaithfully | MoQVeinsSim/src/applications/moq/MoqRelayApp.cc:529-627 | a downstream stream carries one subgroup for one subscriber: whole objects, ascending, each one the relay was given |
| RelayDelivery.ObjectReachesAll | MoQVeinsSim/src/applications/moq/MoqRelayApp.cc:529-585 | an object that arrives is the last one offered on a stream of every connected subscriber of its track whose subgroup is not reset; each stream gets it at most once, no other stream gets anything |
| RelayDelivery.EveryArrivalForwarded | MoQVeinsSim/src/applications/moq/MoqRelayApp.cc:529-585 | in every run, whoever is subscribed and connected when an object arrives has it on a stream for good, unless its subgroup is reset by then |
| RelayTables.TablesAfterRun | MoQVeinsSim/src/applications/moq/MoqRelayApp.cc:194-227 | after every run the timeout of a track is the one last announced, and a subscriber is connected exactly when it subscribed over a connection that has not closed since |
| RelayTables.SubscribeExact | MoQVeinsSim/src/applications/moq/MoqRelayApp.cc:218-227 | a SUBSCRIBE adds exactly that subscription and the way to reach the subscriber |
| RelayTables.WaitsInTurn | MoQVeinsSim/src/applications/moq/MoqRelayApp.cc:567-606 | an object for a blocked connection with room joins its queue behind all that is as urgent, whole, with its creation time and the timeout announced for its track; nothing is sent |
| RelayEndings.TooFarBehind | MoQVeinsSim/src/applications/moq/MoqRelayApp.cc:608-625 | forwarding ends no subscription while the queue has room; else one PUBLISH_DONE with status 6 for each track of that subscriber, whose objects no longer wait, and nobody else is touched |
| RelayEndings.BlockedOnlyQueues | MoQVeinsSim/src/applications/moq/MoqRelayApp.cc:749-752 | forwarding to a blocked connection writes nothing |
| RelayEndings.FlushedWhenDrained | MoQVeinsSim/src/applications/moq/MoqRelayApp.cc:892-902 | a drained connection alone is unblocked and flushed until nothing is left or the limit is reached |
| RelayDelivery.UnsubscribeRemoves | MoQVeinsSim/src/applications/moq/MoqRelayApp.cc:309-314 | the end of a subscription removes that one and no other |
| DeliveryTimeouts.RelayFlushTurn | MoQVeinsSim/src/applications/moq/MoqRelayApp.cc:746-793 | a turn discards the first object of one connection if its subgroup was reset or its time is over, else writes exactly its next slice; other queues stay |
| RelayInvariant.GiveUpCore | MoQVeinsSim/src/applications/moq/MoqRelayApp.cc:721-727 | giving up an object, with a reset when part of it is out, keeps the invariant |
| RelayInvariant.WriteCore | MoQVeinsSim/src/applications/moq/MoqRelayApp.cc:687-700 | forwarding the next slice keeps the invariant |
| RelayRuns.AllStreamsClosedIff | MoQVeinsSim/src/applications/moq/MoqRelayApp.cc:282-315 | no stream of the subscription is open after its PUBLISH_DONE exactly when each that was open had a partly written object queued |
| RelayRuns.StreamLeftOpen | MoQVeinsSim/src/applications/moq/MoqRelayApp.cc:282-315 | a run of three events after which a stream of the ended subscription is open, its PUBLISH_DONE being the last command |
| RelayEndings.TrackEndsForAll | MoQVeinsSim/src/applications/moq/MoqRelayApp.cc:249-255 | when a track ends upstream every connected subscriber of it gets one PUBLISH_DONE with status 2 and has nothing of it waiting; no other subscription ends, no object of another track is lost |
| RelayPacing.FlushPaced | MoQVeinsSim/src/applications/moq/MoqRelayApp.cc:731-795 | a flush ends only when blocked, at the limit, or with nothing left; the connection's tally grows by what is written and stays within a chunk of the limit, other tallies stay |
| RelayStreams.LaterStreamsLaterObjects | MoQVeinsSim/src/applications/moq/MoqRelayApp.cc:567-585 | in every run, should a subgroup have had two streams, the earlier is closed and all its objects come before those of the later |
| RelayStreams.OneStreamPerSubgroup | MoQVeinsSim/src/applications/moq/MoqRelayApp.cc:567-585 | in every run in which no subscriber returns after its connection closed, a subgroup of a subscriber has one stream |
| RelayRuns.OnClosedInv | MoQVeinsSim/src/applications/moq/MoqRelayApp.cc:840-873 | closing a connection drops its state and keeps the invariant of all others |
| RelayEndings.ClosedExact | MoQVeinsSim/src/applications/moq/MoqRelayApp.cc:840-873 | a closed connection takes its queue, its subscribers and what was known of their streams with it, and nothing else |
| RelayApp.MoqRelayApp.FlushSocket | MoQVeinsSim/src/applications/moq/MoqRelayApp.cc:731-795 | the loop computes the specified flush of one connection, whose every turn is `DeliveryTimeouts.RelayFlushTurn` |
| RelayApp.MoqRelayApp.EndSubscriberTrack | MoQVeinsSim/src/applications/moq/MoqRelayApp.cc:282-315 | gives up the track's objects, sends PUBLISH_DONE, forgets the subscription |
| RelayApp.MoqRelayApp.ForwardToSubscriber | MoQVeinsSim/src/applications/moq/MoqRelayApp.cc:551-627 | refuses or queues the object, ends the subscriber's tracks on overflow, flushes |
| RelayApp.MoqRelayApp.OnObjectFrame | MoQVeinsSim/src/applications/moq/MoqRelayApp.cc:529-548 | the loop computes the specified forwarding to each subscriber of the track, which is `RelayDelivery.ObjectReachesAll` |
| RelayApp.MoqRelayApp.SocketClosed | MoQVeinsSim/src/applications/moq/MoqRelayApp.cc:840-873 | drops all state of the connection and of its subscribers' streams |
| RelayApp.MoqRelayApp.HandleAll | MoQVeinsSim/src/applications/moq/MoqRelayApp.cc:194-902 | any sequence of events leaves the object in the state of the run |
| EndToEnd.CutBytesAreTheFrame | MoQVeinsSim/src/applications/moq/MoqRelayApp.cc:182-185 | the bytes the relay cuts off and forwards are the publisher's frame, byte for byte |
| EndToEnd.AllArrivable | MoQVeinsSim/src/applications/moq/MoqRelayApp.cc:179-188 | what comes from the publisher's streams, in any interleaving, arrives per subgroup in ascending id |
| EndToEnd.RecordedIsSubsequenceOfOffered | MoQVeinsSim/src/applications/moq/MoqSubscriberApp.cc:239-248 | from publisher over relay and receive pump to subscriber: all that is recorded from a subgroup, over every stream and connection, is an unaltered, strictly ascending subsequence of what was offered in it |
| EndToEnd.RecordedOnOneStream | MoQVeinsSim/src/applications/moq/MoqSubscriberApp.cc:220-248 | with one stream per subgroup, that is what the parser makes of the packets filed under the one stream |
| ReceivePump.NoLostWakeup | MoQVeinsSim/src/applications/moq/MoqRelayApp.cc:133-163 | at most one recv outstanding and at most one answer on its way, none in vain, packets attributed to the right stream, unread bytes always announced, waiting or asked for, no byte lost |
| ReceivePump.QuietMeansAllReceived | MoQVeinsSim/src/applications/moq/MoqSubscriberApp.cc:203-222 | when nothing is under way, everything that arrived has been received, stream by stream |
| ReceivePump.StepComesNearer | MoQVeinsSim/src/applications/moq/MoqSubscriberApp.cc:203-250 | without new data every step lowers a measure, so the pump comes to rest |
| ReceivePump.LeastFirst | MoQVeinsSim/src/applications/moq/MoqSubscriberApp.cc:203-218 | the next recv is for the least waiting stream, which waits no longer |
| SubscriberApp.MoqSubscriberApp.SocketDataAvailable | MoQVeinsSim/src/applications/moq/MoqSubscriberApp.cc:203-208 | notes the stream or leaves it to the outstanding recv |
| SubscriberApp.MoqSubscriberApp.SocketDataArrived | MoQVeinsSim/src/applications/moq/MoqSubscriberApp.cc:220-251 | files the packet, and keeps recorded objects equal to what the parser makes of each stream's packets |
| UdpFragments.FragmentRoundTripIffFits | MoQVeinsSim/src/models/MoqFraming.h:334-400 | a datagram parses back exactly when every field fits its width |
| UdpFragments.FragmentFrame | MoQVeinsSim/src/models/MoqFraming.h:354-372 | the loop emits the specified fragment for every chunk |
| UdpFragments.ChunkInPlace | MoQVeinsSim/src/models/MoqFraming.h:365-370 | every byte of the frame travels in exactly one fragment, at its offset |
| UdpFragments.FragmentSizes | MoQVeinsSim/src/models/MoqFraming.h:354-372 | all fragments but the last are as long as they may be, the last has the rest; each says its place, their number and the whole length |
| WireFormats.FragmentOnTheWire | MoQVeinsSim/src/models/MoqFraming.h:334-350 | a fragment in literal bytes |
| UdpFragments.UdpObjectReassembler.Add | MoQVeinsSim/src/models/MoqFraming.h:416-435 | the update computes the specified state and result |
| UdpFragments.ReassemblyInvertsFragmentation | MoQVeinsSim/src/models/MoqFraming.h:354-435 | in any order with any duplicates and losses: true exactly at the last missing fragment, once, and then the data is the frame |
| MqttFraming.VarIntRoundTripIffFits | MoQVeinsSim/src/models/MqttFraming.h:88-128 | a Variable Byte Integer comes back, using varIntSize bytes, exactly below 2^28 |
| MqttFraming.PutVarInt | MoQVeinsSim/src/models/MqttFraming.h:88-95 | the loop appends the specified bytes |
| MqttFraming.ReadVarInt | MoQVeinsSim/src/models/MqttFraming.h:110-122 | the loop of at most four bytes reads the specified value |
| MqttFraming.PacketRoundTripIffFits | MoQVeinsSim/src/models/MqttFraming.h:131-235 | a packet comes back exactly when its body is shorter than 2^28 bytes |
| MqttFraming.PacketsAnyChunking | MoQVeinsSim/src/models/MqttFraming.h:220-235 | a stream of packets cut anywhere yields exactly those packets |
| MqttFraming.PublishRoundTripIff | MoQVeinsSim/src/models/MqttFraming.h:160-278 | a message comes back exactly when its topic is at most 65535 bytes, its QoS below 4, and without QoS it has no packet id |
| MqttFraming.PublishBytesRoundTripIff | MoQVeinsSim/src/models/MqttFraming.h:131-278 | the framed bytes come back as that message, consumed to their last byte, exactly when also the body is shorter than 2^28 bytes |
| MqttFraming.SubscribeRoundTripIff | MoQVeinsSim/src/models/MqttFraming.h:191-302 | a topic list comes back exactly when it is not empty, its topics are at most 65535 bytes and its QoS is below 4 |
| MqttFraming.SubscribeBytesRoundTripIff | MoQVeinsSim/src/models/MqttFraming.h:131-302 | the framed bytes come back as that subscription, consumed to their last byte, exactly when also the body is shorter than 2^28 bytes |
| MqttFraming.EncodeSubscription | MoQVeinsSim/src/models/MqttFraming.h:191-201 | the loop builds the specified packet, byte for byte that of `WireFormats.SubscribeOnTheWire` |
| MqttFraming.ReadTopics | MoQVeinsSim/src/models/MqttFraming.h:292-301 | the parse loop computes the specified topic list |
| WireFormats.VarIntOnTheWire | MoQVeinsSim/src/models/MqttFraming.h:88-95 | a Variable Byte Integer in literal bytes, seven bits each, the lowest first |
| WireFormats.PublishOnTheWire | MoQVeinsSim/src/models/MqttFraming.h:131-188 | a framed PUBLISH in literal bytes: `0x30 + 2 * (qos % 4)`, the remaining length, the topic behind two length bytes, two bytes of packet id if there is a QoS, the expiry property behind a byte 2, two numbers, zeros |
| WireFormats.SubscribeOnTheWire | MoQVeinsSim/src/models/MqttFraming.h:131-201 | a framed SUBSCRIBE in literal bytes: 0x82, the remaining length, two bytes of packet id, no properties, each filter behind two length bytes and before its QoS |
| GridGeometry.CoversIffSlack | veins-veins-5.3.1/src/veins/base/connectionManager/BaseConnectionManager.cc:85-153 | the searched cells contain every pair in range exactly when the playground is plain or each torus axis of more than three cells leaves the slack |
| GridGeometry.MissedPairExample | veins-veins-5.3.1/src/veins/base/connectionManager/BaseConnectionManager.cc:120-142 | a 4 km torus with 1 km range, where radios at 0 and 3 km are in range and not searched |
| RangeGeometry.OneAxisRange | veins-veins-5.3.1/src/veins/base/connectionManager/BaseConnectionManager.cc:275-286 | on a plain playground radios that differ on one axis are in range exactly when at most the interference distance apart |
| RangeGeometry.OneAxisSquare | veins-veins-5.3.1/src/veins/base/connectionManager/BaseConnectionManager.cc:283 | along one axis of a plain playground the squared distance is the square of the difference |
| RangeGeometry.RightAngles | veins-veins-5.3.1/src/veins/base/connectionManager/BaseConnectionManager.cc:275-286 | the squared distances along an axis and across it add up, plain or torus |
| RangeGeometry.TorusAxisLeast | veins-veins-5.3.1/src/veins/base/connectionManager/BaseConnectionManager.cc:36-53 | the distance along a torus axis is the least over all ways around it, and some way has it |
| RangeGeometry.OneAxisTorusRange | veins-veins-5.3.1/src/veins/base/connectionManager/BaseConnectionManager.cc:55-61 | on a torus radios that differ on one axis are in range exactly when some way around it is at most the interference distance |
| RangeGeometry.TorusRangeIff | veins-veins-5.3.1/src/veins/base/connectionManager/BaseConnectionManager.cc:55-61 | on a torus radios are in range exactly when some way around the three axes is short enough |
| CoordSet.SlotsSuffice | veins-veins-5.3.1/src/veins/base/connectionManager/BaseConnectionManager.h:165-215 | with neighbours of at most two cells in the set, probing for any of them ends within 37 tries |
| CoordSet.CoordSet.Insert | veins-veins-5.3.1/src/veins/base/connectionManager/BaseConnectionManager.h:165-176 | step-2 probing stores the cell unless it is there |
| CoordSet.CoordSet.Add | veins-veins-5.3.1/src/veins/base/connectionManager/BaseConnectionManager.h:207-212 | the set gains exactly that cell |
| CoordSet.CoordSet.Next | veins-veins-5.3.1/src/veins/base/connectionManager/BaseConnectionManager.h:217-232 | returns each stored cell once, then nothing |
| Connections.RegisterExact | veins-veins-5.3.1/src/veins/base/connectionManager/BaseConnectionManager.cc:318-353 | registering keeps links equal to the all-pairs definition |
| Connections.MoveExact | veins-veins-5.3.1/src/veins/base/connectionManager/BaseConnectionManager.cc:405-415 | moving keeps links equal to the all-pairs definition |
| Connections.UnregisterExact | veins-veins-5.3.1/src/veins/base/connectionManager/BaseConnectionManager.cc:355-403 | removing keeps them so, with no link left to the removed radio |
| Connections.GridEqualsBruteForce | veins-veins-5.3.1/src/veins/base/connectionManager/BaseConnectionManager.cc:191-415 | over all runs the grid agrees with the all-pairs definition exactly when the playground is plain or leaves the slack |
| Connections.LinksFromOperations | veins-veins-5.3.1/src/veins/base/connectionManager/BaseConnectionManager.cc:318-415 | after every run two radios are linked exactly when both are where the operations last put them, not removed, and in range |
| ConnectionManager.Manager.FillUnionWithNeighbors | veins-veins-5.3.1/src/veins/base/connectionManager/BaseConnectionManager.cc:253-273 | the nested wrapping loops add exactly the neighbours |
| ConnectionManager.Manager.UpdateNicConnections | veins-veins-5.3.1/src/veins/base/connectionManager/BaseConnectionManager.cc:288-316 | links the radio with those of a cell that are in range, as `RangeGeometry` says what that is, and unlinks it from the others |
| ConnectionManager.Manager.CheckGrid | veins-veins-5.3.1/src/veins/base/connectionManager/BaseConnectionManager.cc:191-228 | moves the radio's grid entry and updates it against all searched cells |
| ConnectionManager.Manager.RegisterNic | veins-veins-5.3.1/src/veins/base/connectionManager/BaseConnectionManager.cc:318-353 | computes the specified registration |
| ConnectionManager.Manager.UpdateNicPos | veins-veins-5.3.1/src/veins/base/connectionManager/BaseConnectionManager.cc:405-415 | computes the specified move; an unknown radio changes nothing |
| ConnectionManager.Manager.UnregisterNic | veins-veins-5.3.1/src/veins/base/connectionManager/BaseConnectionManager.cc:355-403 | computes the specified removal |
| ConnectionManager.Manager.HandleAll | veins-veins-5.3.1/src/veins/base/connectionManager/BaseConnectionManager.cc:318-415 | after any run from an empty world the links are those of the all-pairs definition |
| IntervalMatrix.IntersectionIterator.Next | veins-veins-5.3.1/src/veins/base/phyLayer/ChannelInfo.h:148-180 | returns the next frame meeting the interval and steps only over frames that do not |
| IntervalMatrix.IntersectionIterator.EraseAirFrame | veins-veins-5.3.1/src/veins/base/phyLayer/ChannelInfo.h:213-237 | erases exactly the frame returned last; what is ahead stays as it was |
| IntervalMatrix.IntervalMap.PushBack | veins-veins-5.3.1/src/veins/base/phyLayer/ChannelInfo.cc:46-47 | the frame joins the list of its end time |
| IntervalMatrix.IntervalMap.Delete | veins-veins-5.3.1/src/veins/base/phyLayer/ChannelInfo.cc:129-145 | exactly that frame leaves, and an emptied list with it |
| ChannelInfo.GetIntersections | veins-veins-5.3.1/src/veins/base/phyLayer/ChannelInfo.cc:202-211 | the walk is a filter: every frame meeting the interval, once, in the order of the map |
| ChannelInfo.AnyIntersection | veins-veins-5.3.1/src/veins/base/phyLayer/ChannelInfo.cc:196-200 | true exactly when some frame meets the interval |
| ChannelInfo.ChannelInfo.AddAirFrame | veins-veins-5.3.1/src/veins/base/phyLayer/ChannelInfo.cc:33-53 | the frame is active from now on |
| ChannelInfo.ChannelInfo.RemoveAirFrame | veins-veins-5.3.1/src/veins/base/phyLayer/ChannelInfo.cc:79-105 | computes the specified removal and returns the earliest start on record, or -1 |
| ChannelInfo.ChannelInfo.CheckAndCleanInterval | veins-veins-5.3.1/src/veins/base/phyLayer/ChannelInfo.cc:157-178 | erases exactly the inactive frames meeting the interval that nothing needs |
| ChannelInfo.ChannelInfo.StartRecording | veins-veins-5.3.1/src/veins/base/phyLayer/ChannelInfo.h:429-439 | computes the specified change of the record start |
| ChannelInfo.ChannelInfo.StopRecording | veins-veins-5.3.1/src/veins/base/phyLayer/ChannelInfo.h:447-454 | drops what only the recording kept |
| ChannelInfo.ChannelInfo.IsChannelEmpty | veins-veins-5.3.1/src/veins/base/phyLayer/ChannelInfo.h:469-474 | the assertion on the way holds: outside recordings no active frame means no frame |
| ChannelInfo.ChannelInfo.GetAirFrames | veins-veins-5.3.1/src/veins/base/phyLayer/ChannelInfo.cc:213-220 | returns every frame on record meeting the interval, once each |
| ChannelRetention.ExactRetention | veins-veins-5.3.1/src/veins/base/phyLayer/ChannelInfo.cc:107-194 | over every run a frame off the air is kept only while needed, and always while a frame it coexisted with is on the air and meets it |
| ChannelRetention.EmptyWhenIdle | veins-veins-5.3.1/src/veins/base/phyLayer/ChannelInfo.h:469-474 | outside recordings an idle channel holds nothing |
| ChannelRetention.CompleteIffAfterStart | veins-veins-5.3.1/src/veins/base/phyLayer/ChannelInfo.h:392-402 | a query inside an active frame is complete in every chronological run exactly when it starts after that frame's first instant |
| ChannelRetention.CompleteWhileRecording | veins-veins-5.3.1/src/veins/base/phyLayer/ChannelInfo.h:415-439 | a query that starts after the record start is complete |
| ChannelRetention.OnAirExact | veins-veins-5.3.1/src/veins/base/phyLayer/ChannelInfo.cc:33-105 | after every run a frame is on the air exactly when it began and has not finished; the recording is the last one started unless stopped |
| ChannelRetention.MeetsAtInstant | veins-veins-5.3.1/src/veins/base/phyLayer/ChannelInfo.h:148-180 | a frame meets an interval exactly when they have an instant in common |
| Signal.AppliedTwice | veins-veins-5.3.1/src/veins/base/toolbox/Signal.cc:227-245 | applying models in two bouts is applying them in one |
| Signal.FirstModelFirst | veins-veins-5.3.1/src/veins/base/toolbox/Signal.cc:227-245 | models are applied in the order of their list |
| Signal.Signal.ApplyAnalogueModel | veins-veins-5.3.1/src/veins/base/toolbox/Signal.cc:227-235 | applies the model at the index unless done; the models applied stay a prefix when none is skipped |
| Signal.Signal.ApplyAllAnalogueModels | veins-veins-5.3.1/src/veins/base/toolbox/Signal.cc:237-245 | the powers become those after every model |
| Signal.Signal.SmallerAtCenterFrequency | veins-veins-5.3.1/src/veins/base/toolbox/Signal.cc:196-210 | stops early; for models that never increase power the answer is that after all models |
| Signal.Signal.GreaterAtCenterFrequency | veins-veins-5.3.1/src/veins/base/toolbox/Signal.cc:180-194 | likewise for the opposite question |
| ChannelSensing.IsChannelPowerBelowThreshold | veins-veins-5.3.1/src/veins/base/toolbox/SignalUtils.cc:96-135 | each signal got the next models of its list; for attenuating models the answer is whether the power summed over the frames on the air and not excluded, after all models, is below the threshold; no frames at all are below any |
| ChannelSensing.LazyAnswer | veins-veins-5.3.1/src/veins/base/toolbox/SignalUtils.cc:113-134 | stopping early or at the end gives the eager answer |
| ChannelSensing.CollectInterferers | veins-veins-5.3.1/src/veins/base/toolbox/SignalUtils.cc:103-111 | there are strictly increasing places, exactly those of the frames that are on the air now and not excluded, and the result is their signals in that order |
| ChannelSensing.InterferersPlaced | veins-veins-5.3.1/src/veins/base/toolbox/SignalUtils.cc:103-111 | each frame on the air and not excluded gives its signal once, in their order |
| ChannelSensing.SumIsPowerOnAir | veins-veins-5.3.1/src/veins/base/toolbox/SignalUtils.cc:103-135 | the sum compared with the threshold is over the fields of just those frames |
| SignalUtils.GetMaxInterference | veins-veins-5.3.1/src/veins/base/toolbox/SignalUtils.cc:42-83 | the sweep computes the highest sum seen at any beginning; its queue is never empty when read |
| SignalUtils.SweepFindsMaximum | veins-veins-5.3.1/src/veins/base/toolbox/SignalUtils.cc:42-83 | that is the maximum over all instants of the interval of the power of the other transmissions |
| Interference.PeakBounds | veins-veins-5.3.1/src/veins/base/toolbox/SignalUtils.cc:73-79 | no instant has a higher sum |
| Interference.PeakReached | veins-veins-5.3.1/src/veins/base/toolbox/SignalUtils.cc:52-80 | some instant of the interval has it |
| Interference.PeakUpdated | veins-veins-5.3.1/src/veins/base/toolbox/SignalUtils.cc:76-79 | updating the maximum on the burst's data frequencies is enough |
| SignalUtils.GetMinSINR | veins-veins-5.3.1/src/veins/base/toolbox/SignalUtils.cc:137-159 | the least ratio of the signal to noise plus the power of the other transmissions then on the air, over data frequencies and all instants of the interval, reached at one of them |
| SignalUtils.PowerIsInterference | veins-veins-5.3.1/src/veins/base/toolbox/SignalUtils.cc:42-83 | the interference at an instant is the sum of the final powers of the other transmissions on the air then |
| SignalUtils.MinimalIsLeast | veins-veins-5.3.1/src/veins/base/toolbox/SignalUtils.cc:137-159 | the least ratio in terms of the frames |

## Left out

- QUIC, INET, OMNeT++ and SUMO themselves: gates, timers as messages, sockets, signals, scalars, lifecycle and parameter reading appear only as events and parameters.
- Statistics without effect on behaviour: dwell times, byte and delay counters, forward and shed counters of the relay, per-track statistics of the subscriber.
- The publisher's TCP and UDP paths, the relay's TCP and UDP control handlers, and the MQTT applications, which repeat the modelled ideas; their framing is modelled.
- Control streams over QUIC: ANNOUNCE, SUBSCRIBE and upstream PUBLISH_DONE are events of the relay, and the content of control frames written is reduced to PUBLISH_DONE.
- The relay's sweep over objects already written to QUIC: its timer is never dispatched (`MoqRelayApp.cc:908-914`), so the list of such objects is only ever appended to and has no effect.
- RelayApp.MoqRelayApp.OnObjectFrame: walks a copy of the subscriber list, because the program walks the list itself while an overflow may change it, which C++ leaves undefined.
- RelayApp.MoqRelayApp.FlushSocket: keeps each connection's map of priorities as one sequence in send order; `PriorityBuffer` proves for the publisher that the map is walked so.
- `std::unordered_map` leaves the iteration order of subscriptions open; the model walks them in the order of a sequence, and the publisher's tracks in ascending id.
- A second SUBSCRIBE of one subscriber for one track, or from another connection, is excluded from the relay's runs: the program would then forward objects twice or use one stream id on two connections.
- EndToEnd.RecordedIsSubsequenceOfOffered: assumes one publisher whose tracks have distinct aliases; a peer's reset, which only discards a partial object, is covered as bytes not delivered. What a subscriber records over several connections is taken connection by connection, in the order of the relay's stream ids.
- MoqFraming.ParseEncoded: assumes a non-negative payload length; for a negative one the program throws while building the frame.
- Prefixes smaller than the fields behind them make the C++ parsers read past the buffer; the model marks these inputs and says no more about them.
- Pacing.QueueStaysWithinLimit: assumes a positive chunk size, as all sending theorems do; with a size of zero the flush loop would not end.
- RelayPacing.FlushPaced: speaks of one flush; the joint run with QUIC's queue is proved for the publisher (`Pacing.NeverBeyondLimit`).
- ReceivePump.NoLostWakeup: assumes FIFO channels, a recv that drains its stream, an announcement whenever a stream without unread bytes gets some, and no stream resets.
- Gate objects of the connection manager's NIC entries: links are sets of NIC ids.
- Hash values of cells: cell coordinates are not negative inside the playground, and 32-bit overflow of the hash is not modelled.
- The field for the earliest information point is not refreshed when a recording stops, so it can outlive the last frame; `getEarliestInfoPoint` and its assertion are not modelled.
- SignalUtils.GetMaxInterference: assumes positive durations, powers that are not negative and are zero outside the data range; with a duration of zero the program would read an empty queue. The simulation-time interval is over reals.
- SignalUtils.GetMinSINR: assumes positive noise, so that no ratio is a division by zero.
- Analogue models are functions of the signal's powers; positions, antennas and path loss inside them are not modelled.
