/** The media path as a state machine. A state holds every shared buffer, the two pools, one publisher,
    its session and any number of consumers; a step is one lock section, one channel operation or one
    reference-count operation of one thread. Fields marked "record" only remember what happened. */
module Machine {
  import opened Prelude
  import opened Wire
  import opened Packets
  import Ingest

  type BufId = nat
  type ConsumerId = nat

  // ---- Shared buffers and their pools (core/media/shared_buffer.go) ----

  datatype Pool = VideoPool | AudioPool

  function PoolSize(pool: Pool): nat {
    match pool
    case VideoPool => Ingest.VIDEO_BUFFER
    case AudioPool => Ingest.AUDIO_BUFFER
  }

  /** A buffer by value: `bytes` is what Bytes() returns, `capacity` the length of the backing slice. */
  datatype Buf = Buf(pool: Pool, capacity: nat, bytes: seq<byte>, refs: int) {
    /** One reference fewer; without references it is empty. */
    function Released(): Buf {
      this.(refs := refs - 1, bytes := if refs == 1 then [] else bytes)
    }
  }

  datatype Memory = Memory(
    heap: seq<Buf>,              // every buffer ever made, by identifier
    pooled: multiset<BufId>,     // what lies in the two pools
    vanished: set<BufId>,        // record: pooled buffers that the garbage collector took
    kept: multiset<BufId>,       // record: the references that holdBuffer took and that are never given back
    unpaid: multiset<BufId>,     // record: the references acquired for sends that were then refused
    forgotten: multiset<BufId>,  // record: the creators' references that went out of scope unreleased
    overReleased: bool)          // record: "released more times than acquired"
  {
    /** The references that nobody will give back any more. */
    function Lost(b: BufId): nat {
      unpaid[b] + forgotten[b]
    }

    function Refs(b: BufId): int {
      if b < |heap| then heap[b].refs else 0
    }

    function Bytes(b: BufId): seq<byte> {
      if b < |heap| then heap[b].bytes else []
    }

    function Acquire(b: BufId, n: nat): Memory {
      if b < |heap| then this.(heap := heap[b := heap[b].(refs := heap[b].refs + n)]) else this
    }

    /** The last release empties the buffer and puts it in its pool. */
    function Release(b: BufId): Memory {
      if b >= |heap| then this
      else
        var refs := heap[b].refs - 1;
        if refs < 0 then this.(heap := heap[b := heap[b].(refs := refs)], overReleased := true)
        else if refs > 0 then this.(heap := heap[b := heap[b].(refs := refs)])
        else this.(heap := heap[b := heap[b].(refs := 0, bytes := [])], pooled := pooled + multiset{b})
    }

    /** Pool.Get, then Acquire(1): a pooled buffer of that pool or, failing that, a new one. */
    function Get(pool: Pool, pick: Option<BufId>): (Memory, BufId) {
      if pick.Some? && pooled[pick.value] > 0 && pick.value < |heap| && heap[pick.value].pool == pool then
        (this.(pooled := pooled - multiset{pick.value}).Acquire(pick.value, 1), pick.value)
      else
        (this.(heap := heap + [Buf(pool, PoolSize(pool), [], 1)]), |heap|)
    }

    /** NewSharedBuffer around existing bytes, then holdBuffer's Acquire(1). */
    function Hold(pool: Pool, bytes: seq<byte>): (Memory, BufId) {
      (this.(heap := heap + [Buf(pool, |bytes|, bytes, 1)], kept := kept + multiset{|heap|}), |heap|)
    }

    function Append(b: BufId, data: seq<byte>): Memory {
      if b < |heap| then this.(heap := heap[b := heap[b].(bytes := heap[b].bytes + data)]) else this
    }

    function Room(b: BufId): int {
      if b < |heap| then heap[b].capacity - |heap[b].bytes| else 0
    }
  }

  /** media.Message: the bytes stay in the shared buffer. */
  datatype Message = Message(kind: Kind, flags: byte, timestamp: uint32, length: uint32, data: BufId)

  function PacketOf(mem: Memory, m: Message): Packet {
    Packet(m.kind, m.flags, m.timestamp, m.length, mem.Bytes(m.data))
  }

  function PacketsOf(mem: Memory, ms: seq<Message>): (ps: seq<Packet>)
    ensures |ps| == |ms|
  {
    seq(|ms|, i requires 0 <= i < |ms| => PacketOf(mem, ms[i]))
  }

  // ---- Consumers (transport/ws_media/consumer.go) ----

  /** Where readMessages stands: waiting in its first loop, in a write of which `done` bytes are out,
      in its second loop, or returned. */
  datatype Reader = Ready | Writing(mesg: Message, done: nat) | Draining | Finished

  /** Where AddConsumer, and later RemoveConsumer, stands for this consumer. */
  datatype Join =
    | Created
    | Checked
    | Sending(todo: seq<Message>)
    | Offering(todo: seq<Message>)
    | Refused(data: BufId)
    | Stopping
    | Failed
    | Rejected
    | Member
    | Left

  datatype Consumer = Consumer(
    queue: seq<Message>,
    closed: bool,
    reader: Reader,
    join: Join,
    out: seq<byte>,               // what was written to the connection
    accepted: seq<Packet>,        // record: every message the queue took
    released: nat,                // record: how many of those were released
    snapshot: seq<Packet>,        // record: the retained headers when they were read
    snapshotAt: nat,              // record: how many messages had been announced by then
    joinedAt: nat,                // record: how many messages had been published on insertion
    endedAt: Option<nat>)         // record: the first message it was refused, or the count when it left

  const NEW_CONSUMER := Consumer([], false, Ready, Created, [], [], 0, [], 0, 0, None)

  // ---- The session (transport/rtmp/rtmp.go) and its calls into the publisher ----

  datatype Session =
    | Idle
    | Filling(buf: BufId)                                  // holds the creator's reference
    | Armed(mesg: Message, own: bool)                      // about to publish; own: still holds that reference
    | Distributing(mesg: Message, own: bool, todo: set<ConsumerId>, refused: set<ConsumerId>)
    | Evicting(mesg: Message, own: bool, refused: set<ConsumerId>)
    | Settling(mesg: Message, own: bool)
    | Stopped

  datatype State = State(
    capacity: nat,                           // of every consumer's queue
    mem: Memory,
    consumers: map<ConsumerId, bool>,        // publisher.consumers, with sentVideoKeyFrame
    videoSeqHdr: Option<BufId>,
    audioSeqHdr: Option<BufId>,
    meta: Option<BufId>,
    cons: seq<Consumer>,                     // every consumer ever made, by identifier
    sess: Session,
    log: seq<Packet>,                        // record: every message published, in order
    sentOnClosed: bool)                      // record: "send on closed channel"

  function Start(capacity: nat): State {
    State(capacity, Memory([], multiset{}, {}, multiset{}, multiset{}, multiset{}, false), map[], None, None, None, [], Idle, [], false)
  }

  /** AddConsumer and RemoveConsumer, by the consumer's own connection thread. */
  datatype JoinOp = Check | ReadHeaders | AcquireHeader | OfferHeader | ReleaseHeader | StopSelf | Insert | Remove

  /** readMessages, by the consumer's writer thread. */
  datatype ReaderOp = Receive | Write(n: nat) | WriteDone | WriteFail | Drain | Finish

  datatype SessionOp =
    | Acquire(pool: Pool, pick: Option<BufId>)
    | Fill(data: seq<byte>)
    | Abort
    | Abandon
    | Arm(kind: Kind, flags: byte, timestamp: uint32, length: uint32)
    | ArmMeta(metaData: MetaData)
    | Begin
    | Distribute(c: ConsumerId)
    | EndDistribution
    | Evict
    | Settle
    | Stop

  datatype Step =
    | Create
    | Collect(buf: BufId)
    | Joining(c: ConsumerId, join: JoinOp)
    | Reading(c: ConsumerId, read: ReaderOp)
    | Publishing(op: SessionOp)

  /** pub.mu is read-locked while SendMessage walks the consumers; write-locked sections must wait. */
  predicate WriteLockFree(s: State) {
    !s.sess.Distributing?
  }

  // ---- AddConsumer and RemoveConsumer, section by section ----

  function HeaderMessage(mem: Memory, kind: Kind, b: Option<BufId>): seq<Message> {
    if b.None? then [] else [Message(kind, 0, 0, Wrap32(|mem.Bytes(b.value)|), b.value)]
  }

  /** sendInitialData: metadata first, then the video header, then the audio header. */
  function Headers(s: State): seq<Message> {
    HeaderMessage(s.mem, Meta, s.meta)
    + HeaderMessage(s.mem, VideoSeqHdr, s.videoSeqHdr)
    + HeaderMessage(s.mem, AudioSeqHdr, s.audioSeqHdr)
  }

  /** Everything published, and what is about to be. */
  function Announced(s: State): seq<Packet> {
    if s.sess.Armed? then s.log + [PacketOf(s.mem, s.sess.mesg)] else s.log
  }

  function Accept(r: Consumer, m: Message, p: Packet): Consumer {
    r.(queue := r.queue + [m], accepted := r.accepted + [p])
  }

  function JoinStep(s: State, c: ConsumerId, op: JoinOp): (s': State)
    requires c < |s.cons|
    ensures |s'.cons| == |s.cons|
  {
    var r := s.cons[c];
    match op
    case Check =>
      if !r.join.Created? then s
      else s.(cons := s.cons[c := r.(join := if c in s.consumers then Rejected else Checked)])
    case ReadHeaders =>
      if !r.join.Checked? then s
      else s.(cons := s.cons[c := r.(join := Sending(Headers(s)), snapshot := PacketsOf(s.mem, Headers(s)), snapshotAt := |Announced(s)|)])
    case AcquireHeader =>
      if !r.join.Sending? || r.join.todo == [] then s
      else s.(mem := s.mem.Acquire(r.join.todo[0].data, 1), cons := s.cons[c := r.(join := Join.Offering(r.join.todo))])
    case OfferHeader =>
      if !r.join.Offering? || r.join.todo == [] then s
      else
        var m := r.join.todo[0];
        if r.closed then s.(sentOnClosed := true)
        else if |r.queue| < s.capacity then
          s.(cons := s.cons[c := Accept(r, m, PacketOf(s.mem, m)).(join := Sending(r.join.todo[1..]))])
        else s.(cons := s.cons[c := r.(join := Refused(m.data))])
    case ReleaseHeader =>
      if !r.join.Refused? then s
      else s.(mem := s.mem.Release(r.join.data), cons := s.cons[c := r.(join := Stopping)])
    case StopSelf =>
      if !r.join.Stopping? || !WriteLockFree(s) then s
      else s.(consumers := s.consumers - {c}, cons := s.cons[c := r.(join := Failed, closed := true)])
    case Insert =>
      if r.join != Sending([]) || !WriteLockFree(s) then s
      else s.(consumers := s.consumers[c := false], cons := s.cons[c := r.(join := Member, joinedAt := |s.log|)])
    case Remove =>
      if !r.join.Member? || !WriteLockFree(s) then s
      else
        var ended := if r.endedAt.None? then Some(|s.log|) else r.endedAt;
        s.(consumers := s.consumers - {c}, cons := s.cons[c := r.(join := Left, closed := true, endedAt := ended)])
  }

  // ---- readMessages and writeMessage ----

  function ReaderStep(s: State, c: ConsumerId, op: ReaderOp): (s': State)
    requires c < |s.cons|
    ensures |s'.cons| == |s.cons|
  {
    var r := s.cons[c];
    match op
    case Receive =>
      if !r.reader.Ready? || r.queue == [] then s
      else s.(cons := s.cons[c := r.(queue := r.queue[1..], reader := Writing(r.queue[0], 0))])
    case Write(n) =>
      if !r.reader.Writing? then s
      else
        // The bytes are read from the buffer when they are written.
        var wire := WireOf(PacketOf(s.mem, r.reader.mesg));
        var done := r.reader.done;
        if done + n > |wire| then s
        else s.(cons := s.cons[c := r.(reader := Writing(r.reader.mesg, done + n), out := r.out + wire[done..done + n])])
    case WriteDone =>
      if !r.reader.Writing? || r.reader.done != |WireOf(PacketOf(s.mem, r.reader.mesg))| then s
      else s.(mem := s.mem.Release(r.reader.mesg.data), cons := s.cons[c := r.(reader := Ready, released := r.released + 1)])
    case WriteFail =>
      if !r.reader.Writing? then s
      else s.(mem := s.mem.Release(r.reader.mesg.data), cons := s.cons[c := r.(reader := Draining, released := r.released + 1)])
    case Drain =>
      if !r.reader.Draining? || r.queue == [] then s
      else s.(mem := s.mem.Release(r.queue[0].data), cons := s.cons[c := r.(queue := r.queue[1..], released := r.released + 1)])
    case Finish =>
      if !(r.reader.Ready? || r.reader.Draining?) || r.queue != [] || !r.closed then s
      else s.(cons := s.cons[c := r.(reader := Finished)])
  }

  // ---- SendMessage, SendMetaData and Stop ----

  /** holdBuffer(mesg.Data, true): later joiners get a private copy. */
  function Retain(s: State, m: Message): State {
    if m.data >= |s.mem.heap| then s
    else
      var (mem, b) := s.mem.Hold(s.mem.heap[m.data].pool, s.mem.Bytes(m.data));
      if m.kind.VideoSeqHdr? then s.(mem := mem, videoSeqHdr := Some(b))
      else if m.kind.AudioSeqHdr? then s.(mem := mem, audioSeqHdr := Some(b))
      else s
  }

  /** The number of messages published before the latest. */
  function Before(log: seq<Packet>): nat {
    if log == [] then 0 else |log| - 1
  }

  /** One round of the loop in SendMessage. A refused message keeps the reference acquired for it. */
  function Offer(s: State, c: ConsumerId): State
    requires s.sess.Distributing? && c in s.sess.todo && c in s.consumers && c < |s.cons|
  {
    var Distributing(m, own, todo, refused) := s.sess;
    var r, p := s.cons[c], PacketOf(s.mem, m);
    var s' := s.(sess := Distributing(m, own, todo - {c}, refused));
    if Withheld(s.consumers[c], p) then s'.(mem := s.mem.Release(m.data))
    else if r.closed then s.(sentOnClosed := true)
    else if |r.queue| < s.capacity then
      var open := s.consumers[c] || (m.kind.Video? && p.IsKeyFrame());
      s'.(cons := s.cons[c := Accept(r, m, p)], consumers := s.consumers[c := open])
    else
      s'.(mem := s.mem.(unpaid := s.mem.unpaid + multiset{m.data}),
          cons := s.cons[c := r.(endedAt := Some(Before(s.log)))],
          sess := Distributing(m, own, todo - {c}, refused + {c}))
  }

  /** Stop on each of some consumers. */
  function CloseAll(cons: seq<Consumer>, which: set<ConsumerId>): (cs: seq<Consumer>)
    ensures |cs| == |cons|
  {
    seq(|cons|, i requires 0 <= i < |cons| => if i in which then cons[i].(closed := true) else cons[i])
  }

  function SessionStep(s: State, op: SessionOp): State {
    match s.sess
    case Idle =>
      (match op
       case Acquire(pool, pick) => var (mem, b) := s.mem.Get(pool, pick); s.(mem := mem, sess := Filling(b))
       case ArmMeta(metaData) =>
         var (mem, b) := s.mem.Hold(AudioPool, MetaBytes(metaData));
         s.(mem := mem, meta := Some(b), sess := Armed(Message(Meta, 0, 0, META_SIZE, b), false))
       case Stop => s.(cons := CloseAll(s.cons, s.consumers.Keys), sess := Stopped)
       case _ => s)
    case Filling(b) =>
      (match op
       case Fill(data) => if |data| <= s.mem.Room(b) then s.(mem := s.mem.Append(b, data)) else s
       case Abort => s.(mem := s.mem.Release(b), sess := Idle)
       case Abandon => s.(mem := s.mem.(forgotten := s.mem.forgotten + multiset{b}), sess := Idle)
       case Arm(kind, flags, timestamp, length) =>
         if kind.Meta? then s
         else var m := Message(kind, flags, timestamp, length, b); Retain(s, m).(sess := Armed(m, true))
       case _ => s)
    case Armed(m, own) =>
      if op.Begin? then
        s.(mem := s.mem.Acquire(m.data, |s.consumers|), log := s.log + [PacketOf(s.mem, m)],
           sess := Distributing(m, own, s.consumers.Keys, {}))
      else s
    case Distributing(m, own, todo, refused) =>
      if op.Distribute? && op.c in todo && op.c in s.consumers && op.c < |s.cons| then Offer(s, op.c)
      else if op.EndDistribution? && todo == {} then
        s.(sess := if refused == {} then Settling(m, own) else Evicting(m, own, refused))
      else s
    case Evicting(m, own, refused) =>
      if op.Evict? then
        s.(consumers := s.consumers - refused, cons := CloseAll(s.cons, refused), sess := Settling(m, own))
      else s
    case Settling(m, own) =>
      if !op.Settle? then s
      else s.(mem := if own then s.mem.Release(m.data) else s.mem, sess := Idle)
    case Stopped => s
  }

  /** One step; a step that is not enabled changes nothing. */
  function Next(s: State, step: Step): State {
    match step
    case Create => s.(cons := s.cons + [NEW_CONSUMER])
    case Collect(b) =>
      if s.mem.pooled[b] == 0 then s
      else s.(mem := s.mem.(pooled := s.mem.pooled - multiset{b}, vanished := s.mem.vanished + {b}))
    case Joining(c, op) => if c < |s.cons| then JoinStep(s, c, op) else s
    case Reading(c, op) => if c < |s.cons| then ReaderStep(s, c, op) else s
    case Publishing(op) => SessionStep(s, op)
  }

  /** Any schedule of any threads. */
  function Run(s: State, steps: seq<Step>): State {
    if |steps| == 0 then s else Next(Run(s, steps[..|steps| - 1]), steps[|steps| - 1])
  }
}
