/** Concrete runs in which the code does not do what one may expect: each is a reachable state. */
module Witnesses {
  import opened Prelude
  import opened Wire
  import opened Packets
  import opened Ingest
  import opened Machine
  import opened Runs
  import opened Accounting
  import opened HeaderHistory
  import Readers

  // ---- A stop can be missed ----

  lemma HeadersReadEarly(capacity: nat) returns (s: State)
    ensures Reachable(s) && s == Start(capacity).(cons := [NEW_CONSUMER.(join := Sending([]))])
  {
    assert Start(capacity) == Run(Start(capacity), []);
    s := HeadersSkipped(Start(capacity));
  }

  lemma StoppedWithoutIt(capacity: nat) returns (s: State)
    ensures Reachable(s) && s.sess.Stopped? && s.consumers == map[] && s.capacity == capacity
    ensures s.cons == [NEW_CONSUMER.(join := Sending([]))]
  {
    var s0 := HeadersReadEarly(capacity);
    s := Next(s0, Publishing(Stop));
    ReachableNext(s0, Publishing(Stop));
    hide Reachable;
  }

  /** A consumer that has read the headers when the publisher stops is inserted afterwards: the stop has
      missed it, and its queue stays open. */
  lemma JoinerMissesStop(capacity: nat)
    ensures exists s: State ::
      Reachable(s) && s.capacity == capacity && s.sess.Stopped? && |s.cons| == 1 && 0 in s.consumers && s.cons[0].join.Member? && !s.cons[0].closed
  {
    var s0 := StoppedWithoutIt(capacity);
    var s := Next(s0, Joining(0, Insert));
    ReachableNext(s0, Joining(0, Insert));
    hide Reachable;
    assert s.cons == [NEW_CONSUMER.(join := Member, joinedAt := |s0.log|)];
  }

  // ---- A header can be missed ----

  const META := MetaData(25, 2500, 640, 480, 2, 128, 44100)

  /** Metadata is published to nobody while a consumer stands between reading the headers and being inserted. */
  lemma MetaPublished(capacity: nat) returns (s: State)
    ensures Reachable(s) && s.capacity == capacity && s.sess.Idle? && s.consumers == map[] && s.log == [Ingest.MetaPacket(META)]
    ensures s.cons == [NEW_CONSUMER.(join := Sending([]))]
  {
    var s0 := HeadersReadEarly(capacity);
    var s1 := Next(s0, Publishing(ArmMeta(META)));
    var s2 := Next(s1, Publishing(Begin));
    var s3 := Next(s2, Publishing(EndDistribution));
    s := Next(s3, Publishing(Settle));
    ReachableNext(s0, Publishing(ArmMeta(META)));
    ReachableNext(s1, Publishing(Begin));
    ReachableNext(s2, Publishing(EndDistribution));
    ReachableNext(s3, Publishing(Settle));
    hide Reachable;
    hide MetaBytes;
    assert s1.sess == Armed(Message(Kind.Meta, 0, 0, META_SIZE, 0), false) && s1.mem.Bytes(0) == MetaBytes(META);
    assert s2.sess == Distributing(s1.sess.mesg, false, {}, {}) && s2.log == [Ingest.MetaPacket(META)];
  }

  lemma MetaSession()
    ensures SessionLog([MetaDataMessage(META)]) == [Ingest.MetaPacket(META)]
  {
    hide MetaBytes;
    hide Ingest.MetaPacket;
    assert [MetaDataMessage(META)][1..] == [];
  }

  /** Then it is inserted, with no headers, and never gets the metadata. */
  lemma JoinerMissesHeader(capacity: nat)
    ensures exists s: State ::
      && Reachable(s) && s.capacity == capacity && s.log == SessionLog([MetaDataMessage(META)])
      && |s.cons| == 1 && s.cons[0].join.Member? && s.cons[0].joinedAt == |s.log| == 1
      && s.cons[0].accepted == s.cons[0].snapshot == []
      && Latest(s.log, Kind.Meta) == Some(MetaBytes(META))
  {
    var s0 := MetaPublished(capacity);
    MetaSession();
    hide SessionLog;
    var s := Next(s0, Joining(0, Insert));
    ReachableNext(s0, Joining(0, Insert));
    hide Reachable;
    hide MetaBytes;
    assert s.cons == [NEW_CONSUMER.(join := Member, joinedAt := 1)];
  }

  // ---- A header can come twice ----

  lemma ConsumerChecked(capacity: nat) returns (s: State)
    ensures Reachable(s) && s == Start(capacity).(cons := [NEW_CONSUMER.(join := Checked)])
  {
    var s0 := Start(capacity);
    assert s0 == Run(Start(capacity), []);
    var s1 := Next(s0, Create);
    s := Next(s1, Joining(0, Check));
    ReachableNext(s0, Create);
    ReachableNext(s1, Joining(0, Check));
    hide Reachable;
    assert s1.cons == [NEW_CONSUMER];
  }

  const META_MESSAGE := Message(Kind.Meta, 0, 0, META_SIZE, 0)

  lemma MetaAnnounced(capacity: nat) returns (s: State)
    ensures Reachable(s) && s.capacity == capacity && s.log == [] && s.consumers == map[] && !s.sentOnClosed
    ensures s.sess == Armed(META_MESSAGE, false) && PacketOf(s.mem, META_MESSAGE) == Ingest.MetaPacket(META)
    ensures |s.mem.heap| == 1 && s.cons == [NEW_CONSUMER.(join := Checked)]
    ensures Headers(s) == [META_MESSAGE]
  {
    var s0 := ConsumerChecked(capacity);
    s := Next(s0, Publishing(ArmMeta(META)));
    ReachableNext(s0, Publishing(ArmMeta(META)));
    hide Reachable;
    hide MetaBytes;
    assert s.mem.Bytes(0) == MetaBytes(META);
  }

  /** A consumer reads the headers while metadata is about to be published, */
  lemma MetaRead(capacity: nat) returns (s: State)
    ensures Reachable(s) && s.capacity == capacity && s.log == [] && s.consumers == map[] && !s.sentOnClosed
    ensures s.sess == Armed(META_MESSAGE, false) && PacketOf(s.mem, META_MESSAGE) == Ingest.MetaPacket(META)
    ensures |s.mem.heap| == 1
    ensures s.cons == [NEW_CONSUMER.(join := Sending([META_MESSAGE]), snapshot := [Ingest.MetaPacket(META)], snapshotAt := 1)]
  {
    hide MetaBytes;
    hide Ingest.MetaPacket;
    var s0 := MetaAnnounced(capacity);
    s := Next(s0, Joining(0, ReadHeaders));
    ReachableNext(s0, Joining(0, ReadHeaders));
    hide Reachable;
    assert PacketsOf(s0.mem, [META_MESSAGE]) == [Ingest.MetaPacket(META)] && |Announced(s0)| == 1;
    hide Headers;
    hide PacketsOf;
    hide PacketOf;
    hide Announced;
  }

  /** gets it as a retained header, */
  lemma MetaQueued(capacity: nat) returns (s: State)
    requires capacity >= 2
    ensures Reachable(s) && s.capacity == capacity && s.log == [] && s.consumers == map[] && !s.sentOnClosed
    ensures s.sess == Armed(META_MESSAGE, false) && PacketOf(s.mem, META_MESSAGE) == Ingest.MetaPacket(META)
    ensures |s.cons| == 1 && s.cons[0].join == Sending([]) && s.cons[0].snapshotAt == 1 && !s.cons[0].closed
    ensures |s.cons[0].queue| == 1 && s.cons[0].accepted == s.cons[0].snapshot == [Ingest.MetaPacket(META)]
  {
    hide MetaBytes;
    hide Ingest.MetaPacket;
    hide Headers;
    hide PacketsOf;
    hide Announced;
    var s0 := MetaRead(capacity);
    var s1 := Next(s0, Joining(0, AcquireHeader));
    s := Next(s1, Joining(0, OfferHeader));
    ReachableNext(s0, Joining(0, AcquireHeader));
    ReachableNext(s1, Joining(0, OfferHeader));
    hide Reachable;
    assert PacketOf(s1.mem, META_MESSAGE) == PacketOf(s0.mem, META_MESSAGE);
    hide PacketOf;
    assert [META_MESSAGE][1..] == [];
  }

  /** is inserted, and gets it again when it is published. */
  lemma JoinerGetsHeaderTwice(capacity: nat)
    requires capacity >= 2
    ensures exists s: State ::
      && Reachable(s) && s.capacity == capacity && s.log == SessionLog([MetaDataMessage(META)])
      && |s.cons| == 1 && s.cons[0].join.Member?
      && s.cons[0].snapshot == [Ingest.MetaPacket(META)]
      && s.cons[0].accepted == [Ingest.MetaPacket(META), Ingest.MetaPacket(META)]
  {
    var s0 := MetaQueued(capacity);
    var s := InsertedAndPublished(s0);
    MetaSession();
    hide *;
    assert s.log == SessionLog([MetaDataMessage(META)]);
  }

  lemma InsertedAndBegun(s: State) returns (s': State)
    requires Reachable(s) && s.log == [] && s.consumers == map[]
    requires s.sess == Armed(META_MESSAGE, false) && PacketOf(s.mem, META_MESSAGE) == Ingest.MetaPacket(META)
    requires |s.cons| == 1 && s.cons[0].join == Sending([])
    ensures Reachable(s') && s'.capacity == s.capacity && s'.log == [Ingest.MetaPacket(META)]
    ensures s'.cons == [s.cons[0].(join := Member, joinedAt := 0)] && s'.consumers == map[0 := false]
    ensures s'.sess == Distributing(META_MESSAGE, false, {0}, {}) && PacketOf(s'.mem, META_MESSAGE) == Ingest.MetaPacket(META)
  {
    hide MetaBytes;
    hide Ingest.MetaPacket;
    var s1 := Next(s, Joining(0, Insert));
    s' := Next(s1, Publishing(Begin));
    ReachableNext(s, Joining(0, Insert));
    ReachableNext(s1, Publishing(Begin));
    hide Reachable;
    hide Headers;
    hide PacketsOf;
    hide Announced;
    assert s1.consumers == map[0 := false];
  }

  lemma InsertedAndPublished(s: State) returns (s': State)
    requires Reachable(s) && s.capacity >= 2 && s.log == [] && s.consumers == map[]
    requires s.sess == Armed(META_MESSAGE, false) && PacketOf(s.mem, META_MESSAGE) == Ingest.MetaPacket(META)
    requires |s.cons| == 1 && s.cons[0].join == Sending([]) && !s.cons[0].closed && |s.cons[0].queue| == 1
    ensures Reachable(s') && s'.capacity == s.capacity && s'.log == [Ingest.MetaPacket(META)]
    ensures |s'.cons| == 1 && s'.cons[0].join.Member? && s'.cons[0].snapshot == s.cons[0].snapshot
    ensures s'.cons[0].accepted == s.cons[0].accepted + [Ingest.MetaPacket(META)]
  {
    hide MetaBytes;
    hide Ingest.MetaPacket;
    var s1 := InsertedAndBegun(s);
    s' := Next(s1, Publishing(Distribute(0)));
    ReachableNext(s1, Publishing(Distribute(0)));
    hide Reachable;
    hide PacketOf;
  }

  // ---- Sessions of audio messages ----

  /** An AAC message as the session reads it: the two bytes of the tag header, then the body, in one delivery. */
  function AudioSource(body: seq<byte>): Readers.Source {
    [Readers.DeliveryFields([16 * CODEC_AAC, PACKET_DATA] + body, None)]
  }

  function AudioInbound(body: seq<byte>): Inbound
    requires |body| < 65536
  {
    AudioMessage(|body| + AUDIO_TAG_HEADER, 0, AudioSource(body))
  }

  lemma AudioSourceIs(body: seq<byte>)
    ensures Readers.Clean(AudioSource(body)) && Readers.Stream(AudioSource(body)) == [160, 1] + body
  {
    assert AudioSource(body)[1..] == [] && Readers.Stream([]) == [];
  }

  /** What the session publishes for it: the plain cutting of the body. */
  lemma AudioPublished(body: seq<byte>)
    requires 0 < |body| < 65536
    ensures var s := Handle(AudioInbound(body));
      s.err.None? && s.packets == Cut(Template(Audio, false, 0, |body|), Split(body, AUDIO_BUFFER), true)
  {
    hide AudioSource;
    hide OnAudio;
    hide OnVideo;
    hide AudioChunks;
    hide Readers.ReadFull;
    hide Readers.Stream;
    hide Readers.Clean;
    hide Cut;
    hide Split;
    var src := AudioSource(body);
    AudioSourceIs(body);
    TagComes(src, [160, 1], body);
    DataIsAudio(|body| + AUDIO_TAG_HEADER, src);
    BodyPublished(body, Readers.ReadFull(src, AUDIO_TAG_HEADER).rest);
  }

  lemma DataIsAudio(length: uint32, src: Readers.Source)
    requires var t := Readers.ReadFull(src, AUDIO_TAG_HEADER); t.err.None? && t.data == [160, 1]
    ensures OnAudio(length, 0, src) == AudioChunks(length, 0, Readers.ReadFull(src, AUDIO_TAG_HEADER).rest)
  {
    hide Readers.ReadFull;
    hide AudioChunks;
    assert 160 / 16 == CODEC_AAC;
  }

  lemma BodyPublished(body: seq<byte>, src: Readers.Source)
    requires 0 < |body| < 65536 && Readers.Clean(src) && Readers.Stream(src) == body
    ensures var s := AudioChunks(|body| + AUDIO_TAG_HEADER, 0, src);
      s.err.None? && s.packets == Cut(Template(Audio, false, 0, |body|), Split(body, AUDIO_BUFFER), true)
  {
    hide Readers.Stream;
    hide Chunks;
    hide Cut;
    hide Split;
    var m := Template(Audio, false, 0, |body|);
    assert body[..|body|] == body && [] + body == body;
    CleanChunksSucceed(m, [], AUDIO_BUFFER, true, |body|, src);
    ChunksCut(m, [], AUDIO_BUFFER, true, |body|, src);
  }

  /** A chunk of audio is taken, filled and armed. */
  lemma ChunkArmed(s: State, p: Packet)
    requires Reachable(s) && s.sess.Idle? && s.mem.vanished == {} && p.kind.Audio? && |p.payload| <= AUDIO_BUFFER
    ensures var b := |s.mem.heap|;
      Reachable(s.(mem := s.mem.(heap := s.mem.heap + [Buf(AudioPool, AUDIO_BUFFER, p.payload, 1)]),
                   sess := Armed(Message(Audio, p.flags, p.timestamp, p.length, b), true)))
  {
    var b := |s.mem.heap|;
    var s1 := Next(s, Publishing(Acquire(AudioPool, None)));
    var s2 := Next(s1, Publishing(Fill(p.payload)));
    var s3 := Next(s2, Publishing(Arm(Audio, p.flags, p.timestamp, p.length)));
    ReachableNext(s, Publishing(Acquire(AudioPool, None)));
    ReachableNext(s1, Publishing(Fill(p.payload)));
    ReachableNext(s2, Publishing(Arm(Audio, p.flags, p.timestamp, p.length)));
    hide Reachable;
    assert s1.mem.heap == s.mem.heap + [Buf(AudioPool, AUDIO_BUFFER, [], 1)];
    assert [] + p.payload == p.payload;
    assert s2.mem.heap == s.mem.heap + [Buf(AudioPool, AUDIO_BUFFER, p.payload, 1)];
  }

  /** One consumer is in the map and has not read anything; its queue holds n messages. */
  ghost predicate Waiting(s: State, n: nat) {
    && Reachable(s) && s.mem.vanished == {} && s.consumers == map[0 := false] && |s.cons| == 1
    && var r := s.cons[0];
      && r.reader.Ready? && r.out == [] && |r.queue| == n
      && !r.closed && r.endedAt.None? && r.join.Member?
  }

  /** A chunk of audio is published, up to the read-locked loop. */
  lemma AudioBegun(s: State, p: Packet, n: nat) returns (s': State, b: BufId)
    requires Waiting(s, n) && s.sess.Idle? && p.kind.Audio? && |p.payload| <= AUDIO_BUFFER
    ensures Waiting(s', n) && s'.capacity == s.capacity && s'.log == s.log + [p] && s'.cons == s.cons
    ensures b < |s'.mem.heap| && s'.mem.Refs(b) == 2
    ensures s'.sess == Distributing(Message(Audio, p.flags, p.timestamp, p.length, b), true, {0}, {})
    ensures PacketOf(s'.mem, s'.sess.mesg) == p
  {
    ChunkArmed(s, p);
    b := |s.mem.heap|;
    var s1 := s.(mem := s.mem.(heap := s.mem.heap + [Buf(AudioPool, AUDIO_BUFFER, p.payload, 1)]),
                 sess := Armed(Message(Audio, p.flags, p.timestamp, p.length, b), true));
    s' := Next(s1, Publishing(Begin));
    ReachableNext(s1, Publishing(Begin));
    hide Reachable;
    assert s.consumers.Keys == {0} && |{0}| == 1;
  }

  /** With room in the queue it is accepted. */
  lemma AudioAccepted(s: State, p: Packet, n: nat) returns (s': State)
    requires Waiting(s, n) && s.sess.Idle? && p.kind.Audio? && |p.payload| <= AUDIO_BUFFER && n < s.capacity
    ensures Waiting(s', n + 1) && s'.capacity == s.capacity && s'.log == s.log + [p]
    ensures PacketOf(s'.mem, s'.cons[0].queue[n]) == p && s'.cons[0].joinedAt == s.cons[0].joinedAt
    ensures s'.sess.Distributing? && s'.sess.todo == {} && s'.sess.refused == {}
  {
    var s0, b := AudioBegun(s, p, n);
    s' := Next(s0, Publishing(Distribute(0)));
    ReachableNext(s0, Publishing(Distribute(0)));
    hide Reachable;
    hide PacketOf;
  }

  /** And the session goes on. */
  lemma AudioSettled(s: State, p: Packet, n: nat) returns (s': State)
    requires Waiting(s, n) && s.sess.Idle? && p.kind.Audio? && |p.payload| <= AUDIO_BUFFER && n < s.capacity
    ensures Waiting(s', n + 1) && s'.capacity == s.capacity && s'.log == s.log + [p] && s'.sess.Idle?
  {
    var s0 := AudioAccepted(s, p, n);
    var s1 := Next(s0, Publishing(EndDistribution));
    s' := Next(s1, Publishing(Settle));
    ReachableNext(s0, Publishing(EndDistribution));
    ReachableNext(s1, Publishing(Settle));
    hide Reachable;
    hide PacketOf;
  }

  /** A consumer comes when there are no headers, and is inserted. */
  lemma JoinsWithoutHeaders(s: State) returns (s': State)
    requires Reachable(s) && s.sess.Idle? && s.mem.vanished == {} && s.consumers == map[] && s.cons == []
    requires s.videoSeqHdr.None? && s.audioSeqHdr.None? && s.meta.None?
    ensures Waiting(s', 0) && s'.sess.Idle? && s'.capacity == s.capacity && s'.log == s.log
    ensures s'.cons[0].joinedAt == |s.log|
  {
    var s1 := HeadersSkipped(s);
    s' := Next(s1, Joining(0, Insert));
    ReachableNext(s1, Joining(0, Insert));
    hide Reachable;
    hide Headers;
    hide PacketsOf;
    hide Announced;
  }

  lemma HeadersSkipped(s: State) returns (s': State)
    requires Reachable(s) && s.sess.Idle? && s.consumers == map[] && s.cons == []
    requires s.videoSeqHdr.None? && s.audioSeqHdr.None? && s.meta.None?
    ensures Reachable(s') && s' == s.(cons := [NEW_CONSUMER.(join := Sending([]), snapshotAt := |s.log|)])
  {
    var s1 := Next(s, Create);
    var s2 := Next(s1, Joining(0, Check));
    s' := Next(s2, Joining(0, ReadHeaders));
    ReachableNext(s, Create);
    ReachableNext(s1, Joining(0, Check));
    ReachableNext(s2, Joining(0, ReadHeaders));
    hide Reachable;
    assert s1.cons == [NEW_CONSUMER];
    assert s2 == s1.(cons := [NEW_CONSUMER.(join := Checked)]);
    assert Headers(s2) == [] && PacketsOf(s2.mem, []) == [] && Announced(s2) == s2.log;
    hide Headers;
    hide PacketsOf;
    hide Announced;
  }

  // ---- Audio has no gate ----

  /** A body one byte longer than a buffer. */
  const FULL: seq<byte> := seq(AUDIO_BUFFER, _ => 1)
  const LONG_BODY: seq<byte> := FULL + [2]
  const FIRST_CHUNK := Packet(Audio, 0, 0, 513, FULL)
  const SECOND_CHUNK := Packet(Audio, 2, 0, 513, [2])

  lemma LongBodyInTwo()
    ensures SessionLog([AudioInbound(LONG_BODY)]) == [FIRST_CHUNK, SECOND_CHUNK]
  {
    var m := Template(Audio, false, 0, 513);
    AudioPublished(LONG_BODY);
    SplitHead([], FULL, [2], AUDIO_BUFFER);
    assert [] + (FULL + [2]) == LONG_BODY && [] + FULL == FULL;
    assert Split(LONG_BODY, AUDIO_BUFFER) == [FULL] + [[2]];
    CutHead(m, FULL, [[2]], true);
    assert [[2]][1..] == [];
    assert Cut(m, [[2]], false) == [SECOND_CHUNK];
    hide Handle;
    hide Cut;
    hide Split;
    assert [AudioInbound(LONG_BODY)][1..] == [];
  }

  /** Its first chunk, published to nobody. */
  lemma FirstChunkPublished(capacity: nat) returns (s: State)
    ensures Reachable(s) && s.sess.Idle? && s.mem.vanished == {} && s.capacity == capacity
    ensures s.log == [FIRST_CHUNK] && s.consumers == map[] && s.cons == []
    ensures s.videoSeqHdr.None? && s.audioSeqHdr.None? && s.meta.None?
  {
    var s0 := Start(capacity);
    assert s0 == Run(Start(capacity), []);
    ChunkArmed(s0, FIRST_CHUNK);
    var b := |s0.mem.heap|;
    var s1 := s0.(mem := s0.mem.(heap := s0.mem.heap + [Buf(AudioPool, AUDIO_BUFFER, FULL, 1)]),
                  sess := Armed(Message(Audio, 0, 0, 513, b), true));
    var s2 := Next(s1, Publishing(Begin));
    var s3 := Next(s2, Publishing(EndDistribution));
    s := Next(s3, Publishing(Settle));
    ReachableNext(s1, Publishing(Begin));
    ReachableNext(s2, Publishing(EndDistribution));
    ReachableNext(s3, Publishing(Settle));
    hide Reachable;
    assert s2.sess == Distributing(s1.sess.mesg, true, {}, {});
    assert s2.log == [FIRST_CHUNK];
  }

  lemma SecondChunkReceived(capacity: nat) returns (s: State)
    requires capacity > 0
    ensures Reachable(s) && s.log == [FIRST_CHUNK, SECOND_CHUNK] && s.capacity == capacity
    ensures |s.cons| == 1 && s.cons[0].out == [] && s.cons[0].reader.Writing? && s.cons[0].reader.done == 0
    ensures PacketOf(s.mem, s.cons[0].reader.mesg) == SECOND_CHUNK
    ensures s.cons[0].join.Member? && s.cons[0].joinedAt == 1 && s.cons[0].endedAt.None?
    ensures s.sess.Distributing? && s.sess.todo == {}
  {
    var s0 := FirstChunkPublished(capacity);
    var s1 := JoinsWithoutHeaders(s0);
    var s2 := AudioAccepted(s1, SECOND_CHUNK, 0);
    s := Next(s2, Reading(0, Receive));
    ReachableNext(s2, Reading(0, Receive));
    hide Reachable;
    hide PacketOf;
    assert [FIRST_CHUNK] + [SECOND_CHUNK] == [FIRST_CHUNK, SECOND_CHUNK];
  }

  lemma SecondChunkWritten(capacity: nat) returns (s: State)
    requires capacity > 0
    ensures Reachable(s) && s.log == [FIRST_CHUNK, SECOND_CHUNK] && s.capacity == capacity
    ensures |s.cons| == 1 && s.cons[0].out == [2] && s.cons[0].join.Member? && s.cons[0].joinedAt == 1 && End(s, 0) == 2
  {
    var s0 := SecondChunkReceived(capacity);
    s := Next(s0, Reading(0, Write(1)));
    ReachableNext(s0, Reading(0, Write(1)));
    SecondChunkWire();
    StepKeepsCapacity(s0, Write(1));
    hide Reachable;
    hide WireOf;
    hide PacketOf;
    hide MessageHeader;
  }

  lemma StepKeepsCapacity(s: State, op: ReaderOp)
    requires |s.cons| == 1
    ensures ReaderStep(s, 0, op).capacity == s.capacity
  {
    hide PacketOf;
    hide WireOf;
  }

  lemma SecondChunkWire()
    ensures WireOf(SECOND_CHUNK) == [2]
  {
  }

  lemma ChunksTraced()
    ensures Trace([FIRST_CHUNK]) == Within(Audio, 1) && Trace([FIRST_CHUNK, SECOND_CHUNK]).Boundary?
  {
    assert [FIRST_CHUNK][..0] == [] && [FIRST_CHUNK, SECOND_CHUNK][..1] == [FIRST_CHUNK];
  }

  /** A consumer inserted inside an audio message writes bytes that no run of frames begins with, although
      the session published one whole message of 513 bytes. Every queue length allows it. */
  lemma MidAudioJoinBreaksFraming(capacity: nat)
    requires capacity > 0
    ensures exists s: State ::
      && Reachable(s) && s.capacity == capacity && |s.cons| == 1
      && s.log == SessionLog([AudioInbound(LONG_BODY)])
      && Trace(s.log).Boundary? && JoinedInside(s, 0)
      && s.cons[0].out == [2] && !StartsFrames(s.cons[0].out)
  {
    var s := SecondChunkWritten(capacity);
    LongBodyInTwo();
    hide Reachable;
    hide SessionLog;
    ChunksTraced();
    TwoIsNoFrame();
    assert s.log[..1] == [FIRST_CHUNK];
    assert JoinedInside(s, 0);
  }

  lemma TwoIsNoFrame()
    ensures !StartsFrames([2])
  {
    forall bodies: seq<seq<byte>> | ShortBodies(bodies)
      ensures !([2] <= FrameAll(bodies))
    {
      if |bodies| > 0 {
        assert FrameAll(bodies)[0] == FrameHeader(|bodies[0]|)[0] == FIN_BINARY;
      }
    }
  }

  lemma NeverPooled(s: State, b: BufId)
    requires Reachable(s) && s.mem.Lost(b) > 0
    ensures forall steps :: Run(s, steps).mem.pooled[b] == 0
  {
    ReachableInv(s);
    forall steps
      ensures Run(s, steps).mem.pooled[b] == 0
    {
      LostForever(s, steps, b);
      hide *;
    }
  }

  // ---- A refused send keeps its reference ----

  const SHORT_BODY: seq<byte> := [3]
  const SHORT_PACKET := Packet(Audio, 0, 0, 1, SHORT_BODY)

  function ShortMessages(n: nat): seq<Inbound> {
    seq(n, _ => AudioInbound(SHORT_BODY))
  }

  lemma ShortBodyInOne()
    ensures Handle(AudioInbound(SHORT_BODY)).err.None? && Handle(AudioInbound(SHORT_BODY)).packets == [SHORT_PACKET]
  {
    AudioPublished(SHORT_BODY);
    hide Handle;
    assert Split(SHORT_BODY, AUDIO_BUFFER) == [SHORT_BODY];
    assert [SHORT_BODY][1..] == [];
  }

  lemma {:induction false} ShortMessagesPublished(n: nat)
    ensures SessionLog(ShortMessages(n)) == seq(n, _ => SHORT_PACKET)
  {
    hide Handle;
    if n > 0 {
      ShortBodyInOne();
      assert ShortMessages(n)[1..] == ShortMessages(n - 1);
      ShortMessagesPublished(n - 1);
      assert [SHORT_PACKET] + seq(n - 1, _ => SHORT_PACKET) == seq(n, _ => SHORT_PACKET);
    }
  }

  /** A session of n whole messages fills the queue of a consumer that does not read, as far as it goes. */
  lemma {:induction false} QueueFilled(capacity: nat, n: nat) returns (s: State)
    requires n <= capacity
    ensures Waiting(s, n) && s.sess.Idle? && s.capacity == capacity && s.log == seq(n, _ => SHORT_PACKET)
  {
    hide Waiting;
    if n == 0 {
      assert Start(capacity) == Run(Start(capacity), []);
      s := JoinsWithoutHeaders(Start(capacity));
    } else {
      var s0 := QueueFilled(capacity, n - 1);
      s := AudioSettled(s0, SHORT_PACKET, n - 1);
      assert seq(n - 1, _ => SHORT_PACKET) + [SHORT_PACKET] == seq(n, _ => SHORT_PACKET);
    }
  }

  /** The next message is refused, */
  lemma OneRefused(capacity: nat) returns (s: State, b: BufId)
    ensures Reachable(s) && b < |s.mem.heap| && s.mem.Refs(b) == 2 && s.mem.unpaid[b] > 0
    ensures s.log == seq(capacity + 1, _ => SHORT_PACKET) && s.capacity == capacity
    ensures s.sess.Distributing? && s.sess.mesg.data == b && s.sess.own && s.sess.todo == {} && s.sess.refused == {0}
  {
    var s0 := QueueFilled(capacity, capacity);
    var s1: State;
    s1, b := AudioBegun(s0, SHORT_PACKET, capacity);
    s := Next(s1, Publishing(Distribute(0)));
    ReachableNext(s1, Publishing(Distribute(0)));
    hide Reachable;
    hide PacketOf;
    assert seq(capacity, _ => SHORT_PACKET) + [SHORT_PACKET] == seq(capacity + 1, _ => SHORT_PACKET);
  }

  lemma RefusedEvicted(capacity: nat) returns (s: State, b: BufId)
    ensures Reachable(s) && b < |s.mem.heap| && s.mem.Refs(b) == 2 && s.mem.unpaid[b] > 0
    ensures s.log == seq(capacity + 1, _ => SHORT_PACKET) && s.capacity == capacity
    ensures s.sess.Settling? && s.sess.mesg.data == b && s.sess.own
  {
    var s0: State;
    s0, b := OneRefused(capacity);
    var s1 := Next(s0, Publishing(EndDistribution));
    s := Next(s1, Publishing(Evict));
    ReachableNext(s0, Publishing(EndDistribution));
    ReachableNext(s1, Publishing(Evict));
    hide Reachable;
    hide CloseAll;
  }

  lemma RefusedSettled(capacity: nat) returns (s: State, b: BufId)
    ensures Reachable(s) && s.sess.Idle? && b < |s.mem.heap| && s.mem.Refs(b) == 1 && s.mem.unpaid[b] > 0
    ensures s.log == seq(capacity + 1, _ => SHORT_PACKET) && s.capacity == capacity
  {
    var s0: State;
    s0, b := RefusedEvicted(capacity);
    s := Next(s0, Publishing(Settle));
    ReachableNext(s0, Publishing(Settle));
    hide Reachable;
  }

  /** A session of one message more than the queue holds, whatever its length, and a consumer that does not
      read: when the last message is published, nobody holds its buffer, yet one reference remains. The buffer
      is not in its pool, and never will be. */
  lemma RefusedSendKeepsBuffer(capacity: nat)
    ensures exists s: State, b: BufId ::
      && Reachable(s) && s.capacity == capacity && s.log == SessionLog(ShortMessages(capacity + 1))
      && s.sess.Idle? && b < |s.mem.heap|
      && s.mem.kept[b] == 0 && AllHold(s.cons, b) == 0 && s.mem.forgotten[b] == 0
      && s.mem.Refs(b) == s.mem.unpaid[b] == 1
      && forall steps :: Run(s, steps).mem.pooled[b] == 0
  {
    var s, b := RefusedSettled(capacity);
    ShortMessagesPublished(capacity + 1);
    ExactReferences(s, b);
    NeverPooled(s, b);
    hide Reachable;
    hide Run;
    hide SessionLog;
    hide ShortMessages;
  }

  // ---- A unit of its type byte alone ----

  /** Its buffer is taken, filled with its header and dropped; it never reaches its pool. */
  lemma LoneTypeKeepsBuffer()
    ensures exists s: State, b: BufId ::
      && Reachable(s) && s.sess.Idle? && s.log == [] && b < |s.mem.heap|
      && s.mem.Refs(b) == s.mem.forgotten[b] == 1
      && forall steps :: Run(s, steps).mem.pooled[b] == 0
  {
    var s := LoneTypeDropped();
    NeverPooled(s, 0);
    hide Reachable;
    hide Run;
  }

  lemma LoneTypeDropped() returns (s: State)
    ensures Reachable(s) && s.sess.Idle? && s.log == [] && |s.mem.heap| == 1
    ensures s.mem.Refs(0) == 1 && s.mem.forgotten == multiset{0}
  {
    var s0 := Start(1);
    assert s0 == Run(Start(1), []);
    var s1 := Next(s0, Publishing(Acquire(VideoPool, None)));
    var s2 := Next(s1, Publishing(Fill([0, 0, 0, 1, 65])));
    s := Next(s2, Publishing(Abandon));
    ReachableNext(s0, Publishing(Acquire(VideoPool, None)));
    ReachableNext(s1, Publishing(Fill([0, 0, 0, 1, 65])));
    ReachableNext(s2, Publishing(Abandon));
    hide Reachable;
  }
}
