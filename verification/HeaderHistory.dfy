/** The retained headers are always the latest announced ones, and what a joiner is sent first is the
    headers as they were when it read them. */
module HeaderHistory {
  import opened Prelude
  import opened Wire
  import opened Packets
  import opened Machine
  import opened Accounting
  import opened Contents

  function Latest(ps: seq<Packet>, kind: Kind): Option<seq<byte>> {
    if |ps| == 0 then None
    else if ps[|ps| - 1].kind == kind then Some(ps[|ps| - 1].payload)
    else Latest(ps[..|ps| - 1], kind)
  }

  function HeaderPacket(kind: Kind, payload: Option<seq<byte>>): seq<Packet> {
    if payload.None? then [] else [Packet(kind, 0, 0, Wrap32(|payload.value|), payload.value)]
  }

  /** The metadata, the video header and the audio header of a run of messages: the latest of each. */
  function InitialPackets(ps: seq<Packet>): seq<Packet> {
    HeaderPacket(Meta, Latest(ps, Meta))
    + HeaderPacket(VideoSeqHdr, Latest(ps, VideoSeqHdr))
    + HeaderPacket(AudioSeqHdr, Latest(ps, AudioSeqHdr))
  }

  ghost predicate HeaderIs(mem: Memory, b: Option<BufId>, payload: Option<seq<byte>>) {
    if b.None? then payload.None? else payload == Some(mem.Bytes(b.value))
  }

  ghost predicate LatestOk(s: State) {
    && HeaderIs(s.mem, s.meta, Latest(Announced(s), Meta))
    && HeaderIs(s.mem, s.videoSeqHdr, Latest(Announced(s), VideoSeqHdr))
    && HeaderIs(s.mem, s.audioSeqHdr, Latest(Announced(s), AudioSeqHdr))
  }

  /** Whole, in one chunk, and small enough for any frame header. */
  ghost predicate SmallWhole(ps: seq<Packet>) {
    forall i :: 0 <= i < |ps| ==>
      !ps[i].IsContinuation() && ps[i].length == |ps[i].payload| && |ps[i].payload| <= Ingest.VIDEO_BUFFER
  }

  ghost predicate SnapshotOk(announced: seq<Packet>, r: Consumer) {
    r.join.Created? || r.join.Checked? ||
    (r.snapshotAt <= |announced| && r.snapshot == InitialPackets(announced[..r.snapshotAt]) && SmallWhole(r.snapshot)
     && (WasInserted(r.join) ==> r.snapshotAt <= r.joinedAt + 1))
  }

  predicate WasInserted(join: Join) {
    join.Member? || join.Left?
  }

  ghost predicate SnapshotsOk(s: State) {
    forall c :: 0 <= c < |s.cons| ==> SnapshotOk(Announced(s), s.cons[c])
  }

  ghost predicate HeadersOk(s: State) {
    LatestOk(s) && SnapshotsOk(s)
  }

  lemma SnapshotGrows(announced: seq<Packet>, announced': seq<Packet>, r: Consumer)
    requires SnapshotOk(announced, r) && announced <= announced'
    ensures SnapshotOk(announced', r)
  {
    if !r.join.Created? && !r.join.Checked? {
      assert announced'[..r.snapshotAt] == announced[..r.snapshotAt];
    }
  }

  /** The retained header is still there, byte for byte. */
  lemma HeaderStays(s: State, s': State, b: Option<BufId>, payload: Option<seq<byte>>)
    requires MemoryOk(s) && MemoryOk(s') && BytesStay(s, s') && s.mem.kept <= s'.mem.kept
    requires KeptHeader(s.mem, b) && HeaderIs(s.mem, b, payload)
    ensures HeaderIs(s'.mem, b, payload)
  {
    if b.Some? {
      KeptBytesStay(s, s', b.value);
    }
  }

  lemma LatestStays(s: State, s': State)
    requires MemoryOk(s) && MemoryOk(s') && BytesStay(s, s') && s.mem.kept <= s'.mem.kept && LatestOk(s)
    requires s'.meta == s.meta && s'.videoSeqHdr == s.videoSeqHdr && s'.audioSeqHdr == s.audioSeqHdr
    requires Announced(s') == Announced(s)
    ensures LatestOk(s')
  {
    hide Announced;
    HeaderStays(s, s', s.meta, Latest(Announced(s), Meta));
    HeaderStays(s, s', s.videoSeqHdr, Latest(Announced(s), VideoSeqHdr));
    HeaderStays(s, s', s.audioSeqHdr, Latest(Announced(s), AudioSeqHdr));
  }

  lemma AnnouncedStays(s: State, s': State)
    requires MemoryOk(s) && MemoryOk(s') && BytesStay(s, s') && s'.sess == s.sess && s'.log == s.log && s.mem.kept <= s'.mem.kept
    ensures Announced(s') == Announced(s)
  {
    if s.sess.Armed? {
      MessageStays(s, s', s.sess.mesg, s.sess.own);
    }
  }

  lemma ReaderKeepsHeaders(s: State, c: ConsumerId, op: ReaderOp)
    requires MemoryOk(s) && HeadersOk(s) && c < |s.cons|
    ensures HeadersOk(ReaderStep(s, c, op))
  {
    var s' := ReaderStep(s, c, op);
    ReaderKeepsMemory(s, c, op);
    ReaderBytesStay(s, c, op);
    ReaderFrame(s, c, op);
    ReaderFrameOthers(s, c, op);
    ReaderSnapshot(s, c, op);
    hide ReaderStep;
    AnnouncedStays(s, s');
    LatestStays(s, s');
    hide MemoryOk;
    hide LatestOk;
    forall i | 0 <= i < |s'.cons|
      ensures SnapshotOk(Announced(s'), s'.cons[i])
    {
      assert SnapshotOk(Announced(s), s.cons[i]);
    }
  }

  ghost predicate SameSnapshot(r: Consumer, r': Consumer) {
    && r'.snapshot == r.snapshot && r'.snapshotAt == r.snapshotAt && r'.joinedAt == r.joinedAt
    && (WasInserted(r'.join) <==> WasInserted(r.join))
    && (r'.join.Created? || r'.join.Checked? <==> r.join.Created? || r.join.Checked?)
  }

  lemma ReaderSnapshot(s: State, c: ConsumerId, op: ReaderOp)
    requires c < |s.cons|
    ensures var s' := ReaderStep(s, c, op);
      |s'.cons| == |s.cons| && forall i :: 0 <= i < |s.cons| ==> SameSnapshot(s.cons[i], s'.cons[i])
  {
    hide PacketOf;
    hide WireOf;
  }

  lemma HeaderMessageIs(s: State, kind: Kind, b: Option<BufId>, payload: Option<seq<byte>>)
    requires MemoryOk(s) && KeptHeader(s.mem, b) && HeaderIs(s.mem, b, payload)
    ensures PacketsOf(s.mem, HeaderMessage(s.mem, kind, b)) == HeaderPacket(kind, payload)
    ensures SmallWhole(HeaderPacket(kind, payload))
  {
    if b.Some? {
      assert s.mem.Refs(b.value) == Holders(s, b.value);
      assert BufferOk(s.mem, b.value);
      assert Wrap32(|s.mem.Bytes(b.value)|) == |s.mem.Bytes(b.value)|;
    }
  }

  lemma PacketsOfAppend(mem: Memory, a: seq<Message>, b: seq<Message>)
    ensures PacketsOf(mem, a + b) == PacketsOf(mem, a) + PacketsOf(mem, b)
  {
    hide PacketOf;
  }

  /** What sendInitialData reads under the lock. */
  lemma HeadersRead(s: State)
    requires MemoryOk(s) && LatestOk(s)
    ensures PacketsOf(s.mem, Headers(s)) == InitialPackets(Announced(s))
    ensures SmallWhole(InitialPackets(Announced(s)))
  {
    hide Announced;
    hide Latest;
    hide PacketsOf;
    var ps := Announced(s);
    HeaderMessageIs(s, Meta, s.meta, Latest(ps, Meta));
    HeaderMessageIs(s, VideoSeqHdr, s.videoSeqHdr, Latest(ps, VideoSeqHdr));
    HeaderMessageIs(s, AudioSeqHdr, s.audioSeqHdr, Latest(ps, AudioSeqHdr));
    var m, v, a := HeaderMessage(s.mem, Meta, s.meta), HeaderMessage(s.mem, VideoSeqHdr, s.videoSeqHdr), HeaderMessage(s.mem, AudioSeqHdr, s.audioSeqHdr);
    PacketsOfAppend(s.mem, m, v);
    PacketsOfAppend(s.mem, m + v, a);
  }

  lemma JoinSnapshot(s: State, c: ConsumerId, op: JoinOp)
    requires c < |s.cons|
    ensures var r, r' := s.cons[c], JoinStep(s, c, op).cons[c];
      if op.ReadHeaders? && r.join.Checked?
      then r'.snapshot == PacketsOf(s.mem, Headers(s)) && r'.snapshotAt == |Announced(s)|
      else r'.snapshot == r.snapshot && r'.snapshotAt == r.snapshotAt
           && (r.join.Created? || r.join.Checked? ==> r'.join.Created? || r'.join.Checked? || r'.join.Rejected?)
    ensures var r, r' := s.cons[c], JoinStep(s, c, op).cons[c];
      WasInserted(r'.join) ==> (WasInserted(r.join) && r'.joinedAt == r.joinedAt) || r'.joinedAt == |s.log|
  {
    hide PacketsOf;
    hide Headers;
    hide Announced;
    hide PacketOf;
  }

  lemma JoinerSnapshotOk(s: State, c: ConsumerId, op: JoinOp)
    requires MemoryOk(s) && HeadersOk(s) && c < |s.cons| && !JoinStep(s, c, op).cons[c].join.Rejected?
    ensures SnapshotOk(Announced(s), JoinStep(s, c, op).cons[c])
  {
    HeadersRead(s);
    JoinSnapshot(s, c, op);
    OneAhead(s);
    assert SnapshotOk(Announced(s), s.cons[c]);
    assert Announced(s)[..|Announced(s)|] == Announced(s);
    hide JoinStep;
    hide MemoryOk;
    hide LatestOk;
    hide InitialPackets;
    hide Announced;
    hide PacketsOf;
    hide Headers;
  }

  lemma JoinKeepsHeaders(s: State, c: ConsumerId, op: JoinOp)
    requires MemoryOk(s) && HeadersOk(s) && c < |s.cons| && !JoinStep(s, c, op).cons[c].join.Rejected?
    ensures HeadersOk(JoinStep(s, c, op))
  {
    var s' := JoinStep(s, c, op);
    JoinKeepsMemory(s, c, op);
    JoinBytesStay(s, c, op);
    JoinFrame(s, c, op);
    JoinFrameOthers(s, c, op);
    JoinerSnapshotOk(s, c, op);
    hide JoinStep;
    AnnouncedStays(s, s');
    LatestStays(s, s');
    hide MemoryOk;
    hide LatestOk;
    hide SnapshotOk;
    hide Announced;
    forall i | 0 <= i < |s'.cons|
      ensures SnapshotOk(Announced(s'), s'.cons[i])
    {
      assert SnapshotOk(Announced(s), s.cons[i]);
    }
  }

  lemma OneAhead(s: State)
    ensures |Announced(s)| <= |s.log| + 1
  {
  }

  // ---- The session ----

  /** One more message is announced: the header of its kind, if any, is now its payload. */
  ghost predicate Announces(s: State, s': State, p: Packet) {
    && Announced(s') == Announced(s) + [p]
    && (forall x: BufId :: x < |s.mem.heap| ==> s'.mem.Bytes(x) == s.mem.Bytes(x))
    && (if p.kind.Meta? then HeaderIs(s'.mem, s'.meta, Some(p.payload)) else s'.meta == s.meta)
    && (if p.kind.VideoSeqHdr? then HeaderIs(s'.mem, s'.videoSeqHdr, Some(p.payload)) else s'.videoSeqHdr == s.videoSeqHdr)
    && (if p.kind.AudioSeqHdr? then HeaderIs(s'.mem, s'.audioSeqHdr, Some(p.payload)) else s'.audioSeqHdr == s.audioSeqHdr)
  }

  lemma LatestAppend(ps: seq<Packet>, p: Packet, kind: Kind)
    ensures Latest(ps + [p], kind) == if p.kind == kind then Some(p.payload) else Latest(ps, kind)
  {
    assert (ps + [p])[..|ps|] == ps;
  }

  lemma AnnouncesLatest(s: State, s': State, p: Packet)
    requires MemoryOk(s) && LatestOk(s) && Announces(s, s', p)
    ensures LatestOk(s')
  {
    HeldBelow(s);
    LatestAppend(Announced(s), p, Meta);
    LatestAppend(Announced(s), p, VideoSeqHdr);
    LatestAppend(Announced(s), p, AudioSeqHdr);
    hide Announced;
    hide Latest;
    hide MemoryOk;
  }

  lemma ArmAnnounces(s: State, kind: Kind, flags: byte, timestamp: uint32, length: uint32)
    requires s.sess.Filling? && s.mem.Refs(s.sess.buf) > 0 && !kind.Meta?
    ensures Announces(s, SessionStep(s, Arm(kind, flags, timestamp, length)),
                      Packet(kind, flags, timestamp, length, s.mem.Bytes(s.sess.buf)))
  {
  }

  lemma ArmLatest(s: State, kind: Kind, flags: byte, timestamp: uint32, length: uint32)
    requires MemoryOk(s) && LatestOk(s) && s.sess.Filling?
    ensures var s' := SessionStep(s, Arm(kind, flags, timestamp, length)); LatestOk(s') && Announced(s) <= Announced(s')
  {
    var s', b := SessionStep(s, Arm(kind, flags, timestamp, length)), s.sess.buf;
    if !kind.Meta? {
      assert s.mem.Refs(b) == Holders(s, b);
      ArmAnnounces(s, kind, flags, timestamp, length);
      hide SessionStep;
      hide MemoryOk;
      AnnouncesLatest(s, s', Packet(kind, flags, timestamp, length, s.mem.Bytes(b)));
    }
  }

  /** Every retained header is a buffer that exists. */
  lemma HeldBelow(s: State)
    requires MemoryOk(s)
    ensures s.meta.Some? ==> s.meta.value < |s.mem.heap|
    ensures s.videoSeqHdr.Some? ==> s.videoSeqHdr.value < |s.mem.heap|
    ensures s.audioSeqHdr.Some? ==> s.audioSeqHdr.value < |s.mem.heap|
  {
    assert s.meta.Some? ==> s.mem.Refs(s.meta.value) == Holders(s, s.meta.value);
    assert s.videoSeqHdr.Some? ==> s.mem.Refs(s.videoSeqHdr.value) == Holders(s, s.videoSeqHdr.value);
    assert s.audioSeqHdr.Some? ==> s.mem.Refs(s.audioSeqHdr.value) == Holders(s, s.audioSeqHdr.value);
  }

  lemma ArmMetaLatest(s: State, metaData: MetaData)
    requires MemoryOk(s) && LatestOk(s) && s.sess.Idle?
    ensures var s' := SessionStep(s, ArmMeta(metaData)); LatestOk(s') && Announced(s) <= Announced(s')
  {
    ArmMetaAnnounces(s, metaData);
    AnnouncesLatest(s, SessionStep(s, ArmMeta(metaData)), Ingest.MetaPacket(metaData));
    hide *;
  }

  lemma ArmMetaAnnounces(s: State, metaData: MetaData)
    requires s.sess.Idle?
    ensures var s' := SessionStep(s, ArmMeta(metaData));
      Announces(s, s', Ingest.MetaPacket(metaData)) && Announced(s) <= Announced(s')
  {
    hide MetaBytes;
  }

  lemma QuietAnnounced(s: State, op: SessionOp)
    requires MemoryOk(s) && MemoryOk(SessionStep(s, op)) && !(s.sess.Filling? && op.Arm?) && !(s.sess.Idle? && op.ArmMeta?)
    ensures var s' := SessionStep(s, op);
      && Announced(s') == Announced(s)
      && s'.meta == s.meta && s'.videoSeqHdr == s.videoSeqHdr && s'.audioSeqHdr == s.audioSeqHdr
  {
    hide MemoryOk;
    hide CloseAll;
    hide Withheld;
    hide PacketOf;
  }

  lemma SessionSnapshots(s: State, op: SessionOp)
    ensures var s' := SessionStep(s, op);
      |s'.cons| == |s.cons| && forall i :: 0 <= i < |s.cons| ==> SameSnapshot(s.cons[i], s'.cons[i])
  {
    if op.Distribute? {
      hide PacketOf;
      hide Withheld;
    } else {
      SessionFrame(s, op);
      hide SessionStep;
    }
  }

  lemma SessionKeepsHeaders(s: State, op: SessionOp)
    requires MemoryOk(s) && HeadersOk(s)
    ensures HeadersOk(SessionStep(s, op))
  {
    var s' := SessionStep(s, op);
    SessionKeepsMemory(s, op);
    if s.sess.Filling? && op.Arm? {
      ArmLatest(s, op.kind, op.flags, op.timestamp, op.length);
    } else if s.sess.Idle? && op.ArmMeta? {
      ArmMetaLatest(s, op.metaData);
    } else {
      QuietAnnounced(s, op);
      SessionBytesStay(s, op);
      KeptStays(s, op);
      hide SessionStep;
      LatestStays(s, s');
    }
    SessionSnapshots(s, op);
    hide SessionStep;
    hide MemoryOk;
    hide LatestOk;
    forall i | 0 <= i < |s'.cons|
      ensures SnapshotOk(Announced(s'), s'.cons[i])
    {
      SnapshotGrows(Announced(s), Announced(s'), s.cons[i]);
    }
  }

  lemma KeptStays(s: State, op: SessionOp)
    ensures s.mem.kept <= SessionStep(s, op).mem.kept
  {
    if op.Distribute? {
      hide PacketOf;
      hide Withheld;
    } else {
      SessionKeepsHeld(s, op);
    }
  }

  // ---- Headers that changed ----

  predicate IsHeader(kind: Kind) {
    kind.Meta? || kind.VideoSeqHdr? || kind.AudioSeqHdr?
  }

  /** Later messages bring no header, or bring it with the same bytes in the end. */
  ghost predicate NothingNew(earlier: seq<Packet>, later: seq<Packet>) {
    forall kind :: IsHeader(kind) ==> Latest(later, kind).None? || Latest(later, kind) == Latest(earlier, kind)
  }

  lemma {:induction false} LatestOfAll(a: seq<Packet>, b: seq<Packet>, kind: Kind)
    ensures Latest(a + b, kind) == if Latest(b, kind).Some? then Latest(b, kind) else Latest(a, kind)
  {
    if |b| == 0 {
      assert a + b == a;
    } else {
      LatestOfAll(a, b[..|b| - 1], kind);
      assert (a + b)[..|a + b| - 1] == a + b[..|b| - 1];
    }
  }

  /** The initial packets tell the latest header of each kind. */
  lemma InitialTells(ps: seq<Packet>, kind: Kind)
    requires IsHeader(kind)
    ensures Latest(InitialPackets(ps), kind) == Latest(ps, kind)
  {
    var m, v, a := Latest(ps, Meta), Latest(ps, VideoSeqHdr), Latest(ps, AudioSeqHdr);
    LatestOfAll(HeaderPacket(Meta, m) + HeaderPacket(VideoSeqHdr, v), HeaderPacket(AudioSeqHdr, a), kind);
    LatestOfAll(HeaderPacket(Meta, m), HeaderPacket(VideoSeqHdr, v), kind);
    LatestOfOne(Meta, m, kind);
    LatestOfOne(VideoSeqHdr, v, kind);
    LatestOfOne(AudioSeqHdr, a, kind);
  }

  lemma LatestOfOne(kind: Kind, payload: Option<seq<byte>>, wanted: Kind)
    ensures Latest(HeaderPacket(kind, payload), wanted) == if wanted == kind then payload else None
  {
    if payload.Some? {
      LatestAppend([], HeaderPacket(kind, payload)[0], wanted);
      assert [] + HeaderPacket(kind, payload) == HeaderPacket(kind, payload);
    }
  }

  lemma LatestNow(earlier: seq<Packet>, later: seq<Packet>, kind: Kind)
    requires IsHeader(kind)
    ensures Latest(InitialPackets(earlier), kind) == Latest(earlier, kind)
    ensures Latest(InitialPackets(earlier + later), kind) == Latest(earlier + later, kind)
    ensures Latest(earlier + later, kind) == if Latest(later, kind).Some? then Latest(later, kind) else Latest(earlier, kind)
  {
    InitialTells(earlier, kind);
    InitialTells(earlier + later, kind);
    LatestOfAll(earlier, later, kind);
    hide *;
  }

  /** Where the latest message of a kind stands. */
  function LatestAt(ps: seq<Packet>, kind: Kind): (at: Option<nat>)
    ensures at.Some? ==> at.value < |ps|
  {
    if |ps| == 0 then None
    else if ps[|ps| - 1].kind == kind then Some(|ps| - 1)
    else LatestAt(ps[..|ps| - 1], kind)
  }

  function Rank(kind: Kind): nat {
    match kind
    case Meta => 0
    case VideoSeqHdr => 1
    case AudioSeqHdr => 2
    case _ => 3
  }

  /** The metadata comes first, then the video header, then the audio header, and nothing else. */
  lemma InitialOrder(ps: seq<Packet>)
    ensures forall i, j :: 0 <= i < j < |InitialPackets(ps)| ==> Rank(InitialPackets(ps)[i].kind) < Rank(InitialPackets(ps)[j].kind)
    ensures forall i :: 0 <= i < |InitialPackets(ps)| ==> IsHeader(InitialPackets(ps)[i].kind)
  {
    hide Latest;
  }

  lemma {:induction false} LatestStandsThere(ps: seq<Packet>, kind: Kind)
    ensures var at := LatestAt(ps, kind);
      && Latest(ps, kind) == (if at.None? then None else Some(ps[at.value].payload))
      && (at.Some? ==> ps[at.value].kind == kind)
  {
    if |ps| > 0 && ps[|ps| - 1].kind != kind {
      LatestStandsThere(ps[..|ps| - 1], kind);
    }
  }

  /** The latest header of a kind is among the initial packets. */
  lemma InitialHas(ps: seq<Packet>, kind: Kind)
    requires IsHeader(kind) && Latest(ps, kind).Some?
    ensures HeaderPacket(kind, Latest(ps, kind))[0] in InitialPackets(ps)
  {
    hide Latest;
    var m, v, a := HeaderPacket(Meta, Latest(ps, Meta)), HeaderPacket(VideoSeqHdr, Latest(ps, VideoSeqHdr)), HeaderPacket(AudioSeqHdr, Latest(ps, AudioSeqHdr));
    assert InitialPackets(ps) == m + v + a;
  }

  lemma CurrentExactly(earlier: seq<Packet>, later: seq<Packet>)
    ensures InitialPackets(earlier) == InitialPackets(earlier + later) <==> NothingNew(earlier, later)
  {
    hide Latest;
    hide HeaderPacket;
    LatestNow(earlier, later, Meta);
    LatestNow(earlier, later, VideoSeqHdr);
    LatestNow(earlier, later, AudioSeqHdr);
  }
}
