# Live streaming server: media path, subscriptions and viewer counts

The server takes a live stream over RTMP and hands it to any number of WebSocket viewers. This project models
three parts of it and proves what they keep over every run.

**The media path.** An RTMP session reads H.264 units and AAC messages from a byte stream, cuts them into pooled,
reference-counted buffers, and publishes each chunk to the bounded queue of every consumer. A consumer sees no
video before a key frame, gets the retained metadata and codec headers first, and is thrown out when its queue is
full. Its writer thread turns chunks back into WebSocket frames and releases them.

- `Prelude`, `Wire`, `Packets`: integers, byte formats, messages, framing and the key-frame gate.
- `Readers`, `Ingest`: readers that deliver in arbitrary pieces, and what a session publishes for its input.
- `Machine`: the state machine. A step is one lock section, one channel operation or one reference-count operation
  of one thread; a run is any sequence of steps of the session, any number of consumers and the collector.
- `Accounting`, `Contents`, `History`, `HeaderHistory`: the four parts of the invariant.
- `Runs`: the theorems about every reachable state. `EndToEnd`: from units to parsed frames.
  `Witnesses`: concrete runs.
- `Server`: the methods of the session, the publisher and the writer loop on one mutable process. Between any two
  steps the other threads do anything the machine allows. `Valid()` says that the process is in a reachable state,
  so each method refines the machine, and the theorems of `Runs` hold at each of its steps.
- `Buffers`, `WsMedia`: `SharedBuffer` and the frame writer in place, over arrays.

**The subscription index** (`PubSub`, `Subscriptions`): the event bus, its subscriber, and the two maps of the
WebSocket transport; all four maps stand for one set of (connection, topic) pairs.

**Viewer counts** (`Viewers`): the nested counters and the numbers they publish.

## Where the code does not do what one may expect

Each is stated as the code has it: first the exact condition, then a concrete input or run.

- A send refused in `SendMessage` keeps the reference acquired for it (transport/media_channel/publisher.go:163-165;
  compare 85), so that buffer never returns to its pool: `Runs.LedgerGrows`, `Runs.LostForever`;
  `Witnesses.RefusedSendKeepsBuffer`.
- A forwarded unit of encoded length 1 is neither sent nor released (transport/rtmp/rtmp.go:126-135):
  `Server.Process.SendVideoData`, `Ingest.UnitsForgottenExactly`; `Ingest.LoneTypeForgotten`,
  `Witnesses.LoneTypeKeepsBuffer`. Every other buffer of a session is released: `Server.Process.Serve`,
  `Runs.AllReturned`.
- Lengths wrap in uint32 for an encoded length of 0 and above 2^32 - 11. The first chunk then goes out under a wrong
  length, even if the read fails later: `Ingest.UnitFramedExactly`, `Ingest.SessionFramedExactly`;
  `Ingest.ZeroLengthUnitBreaks`.
- Audio has no gate, so a join inside an audio message breaks the framing for that consumer, and nothing else does:
  `Runs.FramingExactly`; `Witnesses.MidAudioJoinBreaksFraming`.
- `discardNALU` fails when the last bytes come together with EOF, `ReadN` does not: `Readers.LoopsDisagreeExactly`;
  `Readers.DiscardRefusesWhatReadNTakes`.
- Headers are read and the consumer is inserted in two lock sections, so a header published in between is missed:
  `Runs.HeadersCurrentExactly`; `Witnesses.JoinerMissesHeader`.
- And a header whose message is announced but not yet published when it is read comes twice, if the consumer is
  inserted in time: `Runs.HeaderDoubledExactly`; `Witnesses.JoinerGetsHeaderTwice`.
- A consumer that is still joining when the publisher stops is not stopped: `Runs.StopReachesExactly`;
  `Witnesses.JoinerMissesStop`.
- An event reaches a connection more than once when any connection holds a proper section of its topic, and a
  connection that holds only a section gets nothing: `Subscriptions.DeliveredOnceExactly`;
  `Subscriptions.AnotherSubscriptionDuplicates`, `Subscriptions.SectionBringsNothing`.
- `readEvents` looks connections up without the lock, so that its send panics on a connection that was closed in
  between: `Subscriptions.Transport.PickThenSend`; the shortest such sequence of calls is the one call `Close(conn)`.

## Model

| member | source | states |
|---|---|---|
| EndToEnd.UnitsArriveAsFrames | transport/rtmp/rtmp.go:107-190 | End to end from the first byte of an H.264 message: for every list of length-prefixed units and every chunking, what an inserted, never refused consumer has written for it is one final frame of opcode 2 (RFC 6455, section 5.2) per type 1/5 unit of length at least 2, in order, which a client reads as video with the message's timestamp, key frame exactly for type 5, and the unit with its prefix; all of them if the gate was open, and those from the first type 5 unit on if it was closed |
| EndToEnd.AudioArrivesAsFrame | transport/rtmp/rtmp.go:192-245 | End to end for an AAC message: for every chunking one final binary frame, which a client reads as audio with the message's timestamp and the announced bytes, whether or not the gate is open |
| EndToEnd.VideoHeaderArrives | transport/rtmp/rtmp.go:60-79 | End to end for an H.264 codec header of up to 512 bytes: one frame, read as the video header with just those bytes |
| EndToEnd.AudioHeaderArrives | transport/rtmp/rtmp.go:60-79 | End to end for an AAC codec header of up to 512 bytes: one frame, read as the audio header with just those bytes |
| EndToEnd.MetaArrives | transport/media_channel/publisher.go:179-198 | One frame of 14 bytes of payload, from which a client reads the metadata as it was |
| EndToEnd.OutputParses | transport/ws_media/consumer.go:81-115 | Between messages, everything a staying consumer has written is complete final binary frames, one for each message it accepted, retained headers included |
| Witnesses.MidAudioJoinBreaksFraming | transport/media_channel/publisher.go:153-158 | For every queue length, a reachable run that publishes exactly the session of one 513-byte audio message (a full buffer and one byte), in which a consumer inserted between the two chunks has written bytes that no run of frames begins with |
| Witnesses.JoinerMissesStop | transport/media_channel/publisher.go:200-245 | For every queue length, a reachable run in which a consumer that was still joining when the publisher stopped is inserted afterwards and stays open |
| Witnesses.JoinerMissesHeader | transport/media_channel/publisher.go:92-97 | For every queue length, a reachable run that publishes exactly the session of one metadata message, between the reading of the headers and the insertion: it never reaches the consumer |
| Witnesses.JoinerGetsHeaderTwice | transport/media_channel/publisher.go:92-97 | For every queue length from 2 on, a reachable run of the same session in which the consumer gets the metadata twice |
| Witnesses.RefusedSendKeepsBuffer | transport/media_channel/publisher.go:158-165 | For every queue length n, a reachable run that publishes exactly the session of n + 1 whole audio messages to a consumer that does not read: when it is between messages again, nobody holds the buffer of the last one, one reference remains, and in every continuation the buffer stays out of its pool |
| Witnesses.AudioPublished | transport/rtmp/rtmp.go:192-245 | What a session publishes for an AAC message that comes in one delivery is the plain cutting of its body |
| Witnesses.LoneTypeKeepsBuffer | transport/rtmp/rtmp.go:126-135 | A reachable run in which the buffer of a unit of length 1 is dropped with its reference and stays out of its pool in every continuation |
| Runs.StepKeeps | transport/media_channel/publisher.go:71-245 | The invariant (accounting, pools, contents, history, headers) is kept by every step of the session, of any joining or leaving thread, of any writer thread and of the collector |
| Runs.ReachableInv | transport/media_channel/publisher.go:71-245 | The invariant holds in every state that any schedule reaches |
| Runs.NoPanic | core/media/shared_buffer.go:101-108 | In no run is a buffer released more often than acquired, and nothing is ever sent on a closed queue |
| Runs.ExactReferences | core/media/shared_buffer.go:97-108 | In every reachable state a buffer's count is exactly its creator's hold, the references acquired and not yet distributed, retained holds, lost references, queued copies, copies being written and copies being offered on joining |
| Runs.ReturnedExactly | core/media/shared_buffer.go:101-108 | A buffer is in its pool (once) or collected from it if and only if nobody holds it and no reference to it was lost |
| Runs.ReturnedAtLastRelease | core/media/shared_buffer.go:101-108 | A buffer goes back into its pool in exactly those steps that give back its last reference: once each time it is taken |
| Runs.AllReturned | core/media/shared_buffer.go:101-108 | With nothing queued, in writing or on offer, the buffers that did not come back are exactly the retained ones, those of refused sends and those the session dropped |
| Runs.AcquiredIsFree | transport/media_channel/publisher.go:50-60 | An acquired buffer was held by nobody, is empty, full-sized and out of its pool |
| Runs.NoPrematureReuse | transport/media_channel/publisher.go:146-168 | What is queued, being written or being filled is in no pool, and what is queued or being written still reads as when it was accepted |
| Runs.LedgerGrows | transport/media_channel/publisher.go:146-168 | A reference is lost exactly when a full queue refuses a message that passed the gate, or the session drops the buffer it was filling, one reference each (Server.Process.SendVideoData says when it does); retained holds are never given back |
| Runs.RetainedForever | transport/media_channel/publisher.go:62-69 | Once retained, a header buffer keeps a reference and its bytes in every later state and never enters a pool, even after it was replaced |
| Runs.LostForever | transport/media_channel/publisher.go:158-165 | A buffer with a lost reference never returns to its pool |
| Runs.GapFree | transport/media_channel/publisher.go:92-177 | An inserted consumer has accepted the latest metadata, video header and audio header as of the moment they were read, then every message published from its insertion to its first refusal or removal that passes the key-frame gate, each once and in order (Runs.HeaderDoubledExactly says when one of those is a header it had already) |
| Runs.HeaderDoubledExactly | transport/media_channel/publisher.go:92-97 | A message reaches a consumer both as a retained header and as a published message if and only if it is the header that was announced but not yet published when the headers were read, and the consumer was inserted before it was |
| Runs.DoubledMeansTwice | transport/media_channel/publisher.go:92-97 | The payload of a message that comes twice is among the headers, and the message is the first one after them |
| Runs.HeadersCurrentExactly | transport/media_channel/publisher.go:93-97 | The headers a consumer got are still the latest at its insertion if and only if no kind of header was published, with other bytes in the end, between their reading and the insertion; if they are ahead of the log, then by one message |
| HeaderHistory.CurrentExactly | transport/media_channel/publisher.go:92-133 | Later messages leave the initial messages as they are if and only if they bring no header, or the same one |
| Runs.UpToDate | transport/media_channel/publisher.go:146-176 | Between messages, a consumer that was never refused has accepted all that passes its gate |
| Runs.FirstVideoAccepted | transport/media_channel/publisher.go:153-162 | The first video message a consumer accepts is a key frame's first chunk |
| Runs.Lifecycle | transport/media_channel/publisher.go:170-236 | While the publisher is not stopped, an inserted consumer is in the map and open, or refused and about to be evicted, or out of the map and stopped; between messages it is in the map if and only if it is open |
| Runs.StopReachesExactly | transport/media_channel/publisher.go:238-245 | In every state after a stop, a consumer that is still inserted is closed if and only if it was in the map when the publisher stopped, or had been refused |
| Runs.FramingExactly | transport/media_channel/publisher.go:146-168 | For an unbroken session, what a consumer accepted is misframed if and only if it was inserted inside a message that has no gate and was offered something since |
| Runs.OutputIsFramed | transport/ws_media/consumer.go:81-115 | Under every interleaving of joins, refusals, removals, stops, read errors and write errors, each consumer's bytes are the beginning of a run of complete frames, unless it joined inside such a message |
| Runs.FramedAllAlong | transport/ws_media/consumer.go:81-115 | If the log is unbroken in the end, every output was framed in every earlier state |
| Runs.ReaderProgresses | transport/ws_media/consumer.go:101-115 | On a closed queue a writer that has not returned can take a step, and each of its steps leaves less to do |
| Runs.OthersLeaveReader | transport/ws_media/consumer.go:101-115 | No step of another thread touches what a writer has written or released or has at hand; the queue only grows, and not at all once it is closed, so that the writer has no more to do |
| Runs.WriterCanFinish | transport/ws_media/consumer.go:81-99 | A writer with a message at hand can, on a connection that takes everything, put out the rest of its wire form, release it and be ready for the next |
| Runs.FinishedReleasedAll | transport/ws_media/consumer.go:101-115 | Accepted messages are released once each: released, queued and in writing add up to accepted, and a writer that returned has released all and left an empty closed queue |
| Runs.QueueBounded | transport/media_channel/publisher.go:71-78 | In no reachable state does a queue hold more than its capacity |
| Runs.HeaderRefusedExactly | transport/media_channel/publisher.go:71-90 | A retained header is refused on joining if and only if the joiner's queue is full; otherwise it is queued |
| Runs.HeadersAreFew | transport/media_channel/publisher.go:92-133 | Before its insertion a consumer's queue holds fewer messages than there are retained headers, which are three at most |
| Accounting.JoinKeepsMemory | transport/media_channel/publisher.go:80-90 | Every step of joining and leaving keeps the accounting and the pools |
| Accounting.ReaderKeepsMemory | transport/ws_media/consumer.go:81-115 | Every step of a writer keeps the accounting and the pools |
| Accounting.SessionKeepsMemory | transport/media_channel/publisher.go:135-198 | Every step of the session keeps the accounting and the pools, with references acquired in bulk and refused sends included |
| Contents.JoinKeepsContent | transport/media_channel/publisher.go:92-133 | Joining and leaving keep the agreement between queues, records and bytes |
| Contents.ReaderKeepsContent | transport/ws_media/consumer.go:81-115 | A writer's output stays the wire form of what it released, and the rest of its queue reads as accepted |
| Contents.SessionKeepsContent | transport/media_channel/publisher.go:135-177 | Publishing changes no byte of a queued message |
| History.JoinKeepsHistory | transport/media_channel/publisher.go:200-236 | Joining and leaving keep every consumer's history; nothing is sent on a closed queue |
| History.OfferKeepsHistory | transport/media_channel/publisher.go:152-166 | One round of the distribution loop extends the history of one consumer as the gate and its queue say, and no other's |
| History.SessionKeepsHistory | transport/media_channel/publisher.go:135-177 | Every step of the session keeps every consumer's history |
| HeaderHistory.HeadersRead | transport/media_channel/publisher.go:93-131 | What is read under the lock is the latest metadata and headers that were announced |
| HeaderHistory.InitialOrder | transport/media_channel/publisher.go:99-130 | Metadata first, then the video header, then the audio header |
| HeaderHistory.SessionKeepsHeaders | transport/media_channel/publisher.go:135-198 | Retained headers stay the latest ones announced |
| Server.DiscardNALU | transport/rtmp/rtmp.go:81-105 | The loop over the scratch buffer skips as the reference function says (see Readers.DiscardSkips) |
| Server.Process.AddConsumer | transport/media_channel/publisher.go:200-215 | With any other steps in between: the consumer ends in the map, open, with exactly the retained headers accepted, or out of the map and stopped; the latter only if its capacity is below the number of headers, so never with room for three |
| Server.Process.SendInitialData | transport/media_channel/publisher.go:92-133 | All headers queued, or the joiner is out of the map and stopped, only if its capacity is below their number |
| Server.Process.SendMessageStop | transport/media_channel/publisher.go:80-90 | One header queued, or its reference given back and the joiner stopped, only if its capacity is below the number of headers |
| Server.Process.OfferHeaderTo | transport/media_channel/publisher.go:71-78 | A header is queued if and only if there is room |
| Server.Process.RemoveConsumer | transport/media_channel/publisher.go:217-236 | Afterwards the consumer is out of the map and stopped |
| Server.Process.OfferTo | transport/media_channel/publisher.go:152-166 | One round of the loop is exactly the distribution step of the state machine |
| Server.Process.Distribute | transport/media_channel/publisher.go:146-176 | The message is appended to the log, all consumers are served, and those that refused are evicted |
| Server.Process.SendMessage | transport/media_channel/publisher.go:135-177 | The log grows by exactly this message with the bytes of its buffer; the creator still holds its reference |
| Server.Process.SendMetaData | transport/media_channel/publisher.go:179-198 | The log grows by the encoded record |
| Server.Process.StopPublisher | transport/media_channel/publisher.go:238-245 | Exactly the consumers in the map are stopped |
| Server.Process.WriteMessage | transport/ws_media/consumer.go:81-99 | On an open or a closed queue: one message is received, its wire form written as far as the connection takes it, and its reference given back, with other threads in between |
| Server.Process.ReadMessages | transport/ws_media/consumer.go:101-115 | Started on an open or a closed queue: when it returns, the queue is closed and empty, every accepted message was released, and the connection was given the wire form of all of them, or as much of it as it takes; before that, that of the released ones; once the queue is closed it returns after one round per message left |
| Server.Process.SendChunks | transport/rtmp/rtmp.go:132-164 | The chunk loop, with other threads in between, publishes what the reference cutting says and drops no buffer: also on a read error the one at hand is released |
| Server.Process.SendVideoData | transport/rtmp/rtmp.go:107-167 | One unit: the published packets, the error and the reader position are those of the reference parser; exactly one buffer is dropped if the header was read and announces a type 1/5 unit of length 1, and none otherwise |
| Server.Process.SendUnits | transport/rtmp/rtmp.go:180-188 | The loop over all units of a message publishes, reports, consumes and drops what the reference parser says |
| Server.Process.SendSeqHeader | transport/rtmp/rtmp.go:60-79 | Publishes, reports and consumes what Ingest.SeqHeaderExactly says, and releases its buffer either way |
| Server.Process.OnVideoMessage | transport/rtmp/rtmp.go:169-190 | Publishes and reports what the reference for the message does (Ingest.VideoHeaderHandled, VideoUnitsHandled, VideoRefused), with other threads in between |
| Server.Process.OnAudioMessage | transport/rtmp/rtmp.go:192-245 | Publishes and reports what the reference for the message does (Ingest.AudioHeaderHandled, AudioDataHandled, AudioRefused), with other threads in between |
| Server.Process.Serve | transport/rtmp/rtmp.go:318-357 | A whole session publishes exactly the session log of its messages, drops exactly the buffers of its lone type bytes and stops the publisher; its log is misframed if and only if something it forwards overflows; if it is not, every consumer outside JoinedInside has been given the beginning of a run of frames |
| Ingest.SplitIsExact | transport/rtmp/rtmp.go:132-164 | Cutting yields ceil(total/capacity) pieces, none empty, all but the last full, that join to the original bytes |
| Ingest.ChunksCut | transport/rtmp/rtmp.go:135-164 | For any capacity and any chunking of the reader, a loop that succeeds publishes exactly that cutting, only the first piece without the continuation flag, and consumes exactly those bytes |
| Ingest.ChunksTrace | transport/rtmp/rtmp.go:135-164 | However the loop ends, it continues an unbroken run, and it completes the message if and when it succeeds |
| Ingest.UnitFramedExactly | transport/rtmp/rtmp.go:116-164 | Whatever the reader delivers, in error or not, the packets of a unit break the framing if and only if it is forwarded, its announced length leaves no room in uint32 for the bytes added to it, and the bytes of its first chunk are delivered |
| Ingest.UnitsFramedExactly | transport/rtmp/rtmp.go:180-188 | The same for all units of a message: if and only if one of those that are read overflows |
| Ingest.AudioFramedExactly | transport/rtmp/rtmp.go:192-225 | The same for an audio message |
| Ingest.ZeroLengthUnit | transport/rtmp/rtmp.go:116-164 | A unit of announced length 0 breaks the framing if and only if at least 65531 bytes follow its header |
| Ingest.ZeroLengthUnitBreaks | transport/rtmp/rtmp.go:116-164 | One source that does |
| Ingest.UnitsForgottenExactly | transport/rtmp/rtmp.go:126-135 | For every list of units and every chunking, one buffer is dropped for each type 1/5 unit of length 1 and for no other |
| Ingest.LoneTypeForgotten | transport/rtmp/rtmp.go:126-135 | A source of one such unit: one buffer dropped, nothing published, no error |
| Ingest.UnitsThroughGate | transport/rtmp/rtmp.go:107-190 | What a closed gate lets through of a list of units is, whole and in order, the carried ones from the first key unit on |
| Ingest.UnitForwarded | transport/rtmp/rtmp.go:107-167 | On a unit at the head of the stream the parser consumes exactly that unit, for every chunking: the position stays a unit boundary |
| Ingest.UnitsForwarded | transport/rtmp/rtmp.go:107-190 | The messages published for a list of units are the filter of the list by type 1/5 (and length at least 2), in order, each behind its header |
| Ingest.AudioForwarded | transport/rtmp/rtmp.go:192-225 | The chunks of an audio message finish exactly one message, the announced bytes behind their header |
| Ingest.SeqHeaderExactly | transport/rtmp/rtmp.go:60-79 | For every reader: a codec header is published if and only if it is at most 512 bytes and they come before the first error; then as one message of that kind with flags and timestamp 0 and just those bytes, and else not at all |
| Ingest.VideoHeaderHandled | transport/rtmp/rtmp.go:169-179 | An H.264 header message (codec 7, packet type 0) publishes exactly one video header message with the announced bytes, or fails and publishes nothing |
| Ingest.VideoUnitsHandled | transport/rtmp/rtmp.go:180-188 | An H.264 data message (codec 7, packet type 1) publishes exactly its carried units, and to a closed gate those from the first key unit on |
| Ingest.VideoRefused | transport/rtmp/rtmp.go:169-190 | Any other video message, or one that breaks off in its tag header, fails and publishes nothing |
| Ingest.AudioHeaderHandled | transport/rtmp/rtmp.go:227-237 | An AAC header message (codec 10, packet type 0) publishes exactly one audio header message with the announced bytes, or fails and publishes nothing |
| Ingest.AudioDataHandled | transport/rtmp/rtmp.go:192-243 | An AAC data message (codec 10, packet type 1) publishes exactly one audio message with the announced bytes |
| Ingest.AudioRefused | transport/rtmp/rtmp.go:227-245 | Any other audio message, or one that breaks off in its tag header, fails and publishes nothing |
| Ingest.MetaHandled | transport/media_channel/publisher.go:179-198 | A metadata message publishes one message from which the record is read back |
| Ingest.SessionLogExactly | transport/rtmp/rtmp.go:326-356 | A session publishes what its messages publish, in order, up to the first that fails, the first request to close, or the end |
| Ingest.UnitHeaderExactly | transport/rtmp/rtmp.go:108-114 | For every reader: the message is done if and only if it ends right at the unit header; fewer than five bytes, or a reader that fails before any, is an error |
| Ingest.UnitSkippedExactly | transport/rtmp/rtmp.go:116-124 | For every reader: a unit of another type publishes nothing and is skipped, to its last byte, if and only if its bytes come strictly before an error or up to one that comes without bytes |
| Ingest.UnitFailsExactly | transport/rtmp/rtmp.go:132-164 | With a reader that reports errors without bytes, a forwarded unit fails if and only if too few bytes come |
| Ingest.ChunksFailExactly | transport/rtmp/rtmp.go:135-164 | With such a reader, a loop that fails has published exactly the chunks that could be filled |
| Ingest.CutFields | transport/rtmp/rtmp.go:147-158 | Every chunk carries kind, timestamp, length and, in bit 0, the key flag of its message, and all but the first carry the continuation flag, in bit 1 |
| Ingest.SessionFramedExactly | transport/rtmp/rtmp.go:326-356 | A session publishes a misframed run if and only if something it forwards overflows |
| Readers.ReadConserves | core/media/shared_buffer.go:60-91 | No read loses or invents a byte |
| Readers.ReadNTakes | core/media/shared_buffer.go:60-91 | ReadN succeeds if and only if enough bytes come before or with the first error; data and rest always make up the stream; on error all that was available is taken, and EOF is reported as unexpected |
| Readers.DiscardSkips | transport/rtmp/rtmp.go:81-105 | Skipping succeeds if and only if the bytes come strictly before an error, or up to one that comes without bytes; then exactly those bytes are consumed; which error is reported otherwise |
| Readers.LoopsDisagreeExactly | transport/rtmp/rtmp.go:81-105 | The two reading loops disagree if and only if the last wanted byte comes together with an error, and then skipping fails and reading succeeds |
| Readers.DiscardRefusesWhatReadNTakes | transport/rtmp/rtmp.go:96-101 | A source on which they disagree: last bytes delivered together with EOF |
| Packets.MessageHeaderDecodes | transport/ws_media/consumer.go:49-57 | For any flags byte, the six bytes determine type, flags and timestamp |
| Packets.MessageReads | transport/ws_media/consumer.go:49-57 | A client's decoder of the six bytes, with its own literals for types, flag bits and byte order, gives back kind, flags, timestamp and payload |
| Packets.WireIsFrames | transport/ws_media/consumer.go:33-43 | An unbroken run of messages is, on the wire, complete frames and at most one open frame whose header announces what is still to come |
| Packets.FinishedRunParses | transport/ws_media/consumer.go:81-99 | A receiver of a finished run recovers exactly the messages, each in one frame with FIN and opcode 2 |
| Packets.FirstVideoIsKeyFrame | transport/media_channel/publisher.go:153-157 | The first video message that the gate lets through is the first chunk of a key frame |
| Packets.OtherKindsAreDelivered | transport/media_channel/publisher.go:153-165 | The gate holds back nothing but video |
| Packets.OpenGateDeliversAll | transport/media_channel/publisher.go:153-165 | An open gate withholds nothing |
| Packets.ClosedGateStartsAnew | transport/media_channel/publisher.go:153-165 | A gate that is still closed decides on what follows as a new consumer's does |
| Packets.JoinFraming | transport/media_channel/publisher.go:153-165 | Joining at a position breaks the framing if and only if that position is inside a message of a kind without a gate and something follows |
| Wire.BigEndianDecodes | core/media/message.go:53-59 | Encoding then decoding an integer gives it back |
| Wire.FromBigEndianEncodes | core/media/message.go:53-59 | Decoding then encoding bytes gives them back |
| Wire.FrameHeaderParses | transport/ws_media/consumer.go:33-43 | From any stream that starts with it, a client reads the frame header as FIN, opcode 2, unmasked and the given length, across the 125 and 65535 thresholds |
| Wire.FrameHeaderIsShortest | transport/ws_media/consumer.go:33-43 | 2, 4 or 10 bytes: always the shortest form |
| Wire.PartialFrameParses | transport/ws_media/consumer.go:33-43 | No proper prefix of a frame is taken for a frame |
| Wire.FramesParse | transport/ws_media/consumer.go:81-99 | Concatenated frames decode uniquely, whatever follows, each as final and binary |
| Wire.MetaRoundTrip | core/media/message.go:37-61 | The 14-byte record and its bytes determine each other, both ways |
| Wire.MetaExample | core/media/message.go:49-61 | One record, byte for byte |
| Wire.EncodeMeta | core/media/message.go:49-61 | A short buffer is refused and untouched; otherwise exactly the first 14 bytes are written |
| Buffers.SharedBuffer.CopySlice | core/media/shared_buffer.go:31-37 | A private copy of the filled part, with capacity its length and no reference |
| Buffers.SharedBuffer.Write | core/media/shared_buffer.go:43-58 | Appends what fits, leaves what was there, and reports a short write exactly when something did not fit |
| Buffers.SharedBuffer.ReadN | core/media/shared_buffer.go:60-91 | In place: appends exactly what Readers.ReadN takes, never past the capacity, earlier bytes untouched; the count is the growth, also on errors |
| Buffers.SharedBuffer.Acquire | core/media/shared_buffer.go:97-99 | Adds to the count and changes nothing else |
| Buffers.SharedBuffer.Release | core/media/shared_buffer.go:101-108 | The last release empties the buffer and puts it in its pool; panics exactly below zero |
| Buffers.MemoryReleases | core/media/shared_buffer.go:101-108 | The state machine's release does the same to buffer, pool and panic flag as the method |
| Buffers.BufferPool.Acquire | transport/media_channel/publisher.go:50-60 | An empty buffer of the pool's size with one reference, either taken from the pool or new |
| WsMedia.WsHeader.Write | transport/ws_media/consumer.go:24-31 | Refuses what does not fit, otherwise replaces the content |
| WsMedia.WsHeader.Encode | transport/ws_media/consumer.go:33-43 | The frame header always fits its 14 bytes and announces the uint32 sum (Wire.FrameHeaderParses says how a client reads it) |
| WsMedia.WsConsumer.EncodeHeader | transport/ws_media/consumer.go:53-57 | The array holds the message header (Packets.MessageReads says how a client reads it) |
| WsMedia.WsConsumer.WriteMessage | transport/ws_media/consumer.go:81-99 | The connection gets the message's wire form or the part it takes, and the reference is given back in both cases |
| PubSub.SectionsExact | infra/mem_pubsub/events.go:20-28 | The callback gets exactly the proper prefixes that end before a dot and the topic itself, each once, in strictly increasing length |
| PubSub.HitsCountSections | infra/mem_pubsub/events.go:50-63 | A subscriber is hit once for each section it has subscribed to |
| PubSub.OfferedTimesIs | infra/mem_pubsub/events.go:55-60 | Repeated non-blocking sends deliver as many copies as the room of 16 allows |
| PubSub.Bus.Subscribe | infra/mem_pubsub/events.go:30-39 | One registration is added |
| PubSub.Bus.Unsubscribe | infra/mem_pubsub/events.go:41-48 | One registration is removed; the topic's entry stays |
| PubSub.Bus.Publish | infra/mem_pubsub/events.go:50-63 | Every registered subscriber gets the event once per subscribed section, capped by its room; no closed queue is sent to |
| PubSub.Subscriber.Subscribe | infra/mem_pubsub/subscriber.go:18-23 | The subscriber's topics go on mirroring its registrations |
| PubSub.Subscriber.Unsubscribe | infra/mem_pubsub/subscriber.go:25-30 | The topics still mirror the registrations, and no other subscriber is affected |
| PubSub.Subscriber.Read | infra/mem_pubsub/subscriber.go:32-38 | Events come out in order, also after the close |
| PubSub.Subscriber.Close | infra/mem_pubsub/subscriber.go:40-48 | After the loop no topic of the bus mentions the subscriber; the others keep their topics |
| Subscriptions.Transport.FourMapsAgree | transport/ws_main/ws.go:113-149 | A pair is in one map if and only if it is in the other, and the bus and the shared subscriber have a topic if and only if some connection holds it |
| Subscriptions.Transport.Subscribe | transport/ws_main/ws.go:113-131 | The relation gains exactly one pair, the four maps still agree; no bus queue that may be sent to becomes closed or overfull |
| Subscriptions.Transport.Unsubscribe | transport/ws_main/ws.go:133-149 | The relation loses exactly that pair, if it was there; no bus queue that may be sent to becomes closed or overfull |
| Subscriptions.Transport.CloseConn | transport/ws_main/ws.go:40-55 | The relation loses exactly the pairs of the connection, which is closed; no bus queue that may be sent to becomes closed or overfull |
| Subscriptions.Transport.ForwardAll | transport/ws_main/ws.go:159-182 | With no call between a lookup and its sends, every connection gets the queued events of exactly its own topics, in order |
| Subscriptions.Transport.PickThenSend | transport/ws_main/ws.go:170-185 | With any calls of the connections' threads between the lookup of a connection and the send to it, the send hits a closed channel if and only if one of the calls closed that connection, and else delivers the event once |
| Subscriptions.Transport.PublishAndForward | transport/ws_main/ws.go:159-182 | One event behind any queue: the queue takes a copy for each section of its topic that any connection holds, as far as it has room, and every connection gets exactly those queued events and copies that are of its own topics; with an empty queue, exactly TimesDelivered copies. No closed bus queue is sent to; lookup and sends are one step, see PickThenSend |
| Subscriptions.DeliveredOnceExactly | transport/ws_main/ws.go:170-182 | It arrives exactly once if and only if the connection holds the topic and nobody holds a proper section of it; never if and only if it does not hold the topic |
| Subscriptions.AnotherSubscriptionDuplicates | transport/ws_main/ws.go:170-182 | A concrete subscription of another connection that makes an event arrive twice |
| Subscriptions.SectionBringsNothing | transport/ws_main/ws.go:170-182 | A connection that holds only a section of a concrete topic gets nothing, whatever the others hold |
| Viewers.RunsAreTidy | core/service/stream.go:41-75 | After every run of calls no inner map is empty and every stored count is positive |
| Viewers.CountsEveryAddress | core/service/stream.go:41-75 | Every stored count is the saturating fold of the adds and removes of its user and address |
| Viewers.KeysAreWatchers | core/service/stream.go:41-75 | The inner map's keys are exactly the addresses with a positive count |
| Viewers.PublishedNumberIsCurrent | core/service/stream.go:37-75 | After every run, the number published last for a user (0 if none) is its current number of distinct addresses |
| Viewers.PublishesExactly | core/service/stream.go:41-75 | Every add publishes exactly one event, a remove does if and only if the user has viewers and the address's count is at most 1, and the event carries the number of distinct addresses after the call |
| Viewers.SilenceIsSafe | core/service/stream.go:60-69 | A call that publishes nothing changes no number |
| Viewers.StreamService.AddViewer | core/service/stream.go:41-54 | Table and published events are those of the run with this call added |
| Viewers.StreamService.RemoveViewer | core/service/stream.go:56-75 | Table and published events are those of the run with this call added, also when it publishes nothing |

## Left out

- The RTMP library, `net.Conn`, `net.Buffers` and the two WebSocket libraries: a reader is a script of deliveries in
  which a read without an error makes progress, a connection takes some bytes and then fails, and the frame header
  follows RFC 6455, section 5.2.
- Goroutine scheduling and memory-level races: threads interleave at lock sections, channel operations and
  reference-count operations. Filling a buffer and reading the headers are one step each.
- `sync.Pool`: `Get` returns any pooled buffer or a new one, and pooled buffers may vanish at any time.
- The int32 width of the reference count, and the int width of lengths on 32-bit platforms.
- Inner Go maps are values in `Subscriptions`, `PubSub` and `Viewers`; the sharing of an inner map between a
  reader and a writer is not modelled.
- One publisher with one session; consumer identifiers are unique, so ErrConsumerExists is not reached.
- `AddPublisher`'s check-then-act over two locks, and the plain map in transport/media_channel/channel.go:
  only `RemovePublisher` calling `Stop` is used.
- A consumer without a publisher: it is not added and not stopped (transport/ws_media/consumer.go:122-125).
- The lookup of the publisher before a removal (transport/media_channel/channel.go:55-60): a removal after the stop is
  a step that may be taken, when the lookup came first, or not taken, when it came too late.
- The queue length of 128 is any capacity here.
- A failed start of the stream service, and messages that the RTMP library does not support.
- JSON encoding, and the blocking of a send in `readEvents` until the connection's writer takes the data.
- Subscriptions.Transport.ForwardAll: lookup and sends are one step; Subscriptions.Transport.PickThenSend is about the
  calls in between.
- Subscriptions.Transport.PublishAndForward: likewise.
- Concurrent callers of one bus subscriber: the transport calls it under its own lock.
- transport/ws_media/packet.go, HTTP handlers, configuration, database, authentication: plumbing and wrappers.
