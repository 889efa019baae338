/** What lies in a queue or is being written is what was sent: the bytes of a buffer do not change while
    somebody may still look at them, so every consumer's output is the wire form of what it accepted. */
module Contents {
  import opened Prelude
  import opened Wire
  import opened Packets
  import opened Machine
  import opened Accounting

  ghost predicate QueueOk(mem: Memory, r: Consumer) {
    && |r.queue| <= |r.accepted|
    && (forall i :: 0 <= i < |r.queue| ==> PacketOf(mem, r.queue[i]) == r.accepted[|r.accepted| - |r.queue| + i])
  }

  /** Every accepted message is queued, being written, or released once; and what was written is the wire
      form of the released ones and of a part of the one being written. */
  ghost predicate ReaderOk(mem: Memory, r: Consumer) {
    match r.reader
    case Ready =>
      && r.released + |r.queue| == |r.accepted|
      && r.out == WireAll(r.accepted[..r.released])
    case Writing(m, done) =>
      && r.released + 1 + |r.queue| == |r.accepted|
      && PacketOf(mem, m) == r.accepted[r.released]
      && done <= |WireOf(r.accepted[r.released])|
      && r.out == WireAll(r.accepted[..r.released]) + WireOf(r.accepted[r.released])[..done]
    case Draining =>
      && r.released + |r.queue| == |r.accepted|
      && r.out <= WireAll(r.accepted)
    case Finished =>
      && r.released == |r.accepted| && r.queue == [] && r.closed
      && r.out <= WireAll(r.accepted)
  }

  /** How far the retained headers were delivered. */
  ghost predicate JoinOk(mem: Memory, r: Consumer) {
    match r.join
    case Created => r.accepted == []
    case Checked => r.accepted == []
    case Sending(todo) => r.accepted + PacketsOf(mem, todo) == r.snapshot
    case Offering(todo) => todo != [] && r.accepted + PacketsOf(mem, todo) == r.snapshot
    case Member => r.snapshot <= r.accepted
    case Left => r.snapshot <= r.accepted
    case _ => r.accepted <= r.snapshot
  }

  ghost predicate ConsumerOk(mem: Memory, r: Consumer) {
    QueueOk(mem, r) && ReaderOk(mem, r) && JoinOk(mem, r)
  }

  ghost predicate SessionOk(s: State) {
    s.sess.Distributing? ==> s.log != [] && PacketOf(s.mem, s.sess.mesg) == s.log[|s.log| - 1]
  }

  ghost predicate ConsumersOk(s: State) {
    forall c :: 0 <= c < |s.cons| ==> ConsumerOk(s.mem, s.cons[c])
  }

  ghost predicate OnlyMembers(s: State) {
    forall c :: c in s.consumers ==> c < |s.cons| && s.cons[c].join.Member?
  }

  ghost predicate ContentOk(s: State) {
    ConsumersOk(s) && SessionOk(s) && OnlyMembers(s)
  }

  // ---- Bytes under a reference stay ----

  /** Between two states, only buffers that nobody refers to, or the one being filled, change. */
  ghost predicate BytesStay(s: State, s': State) {
    forall b: BufId :: s.mem.Refs(b) > 0 && s'.mem.Refs(b) > 0 && s.sess != Filling(b) ==> s'.mem.Bytes(b) == s.mem.Bytes(b)
  }

  lemma JoinBytesStay(s: State, c: ConsumerId, op: JoinOp)
    requires c < |s.cons|
    ensures BytesStay(s, JoinStep(s, c, op))
  {
    hide PacketOf;
    hide PacketsOf;
    hide Headers;
    hide Announced;
  }

  lemma ReleaseBytesStay(mem: Memory, x: BufId, b: BufId)
    requires mem.Release(x).Refs(b) > 0
    ensures mem.Release(x).Bytes(b) == mem.Bytes(b)
  {
  }

  /** A step of a writer leaves the memory alone, or releases one buffer. */
  lemma ReaderMemory(s: State, c: ConsumerId, op: ReaderOp)
    requires c < |s.cons|
    ensures var s' := ReaderStep(s, c, op);
      s'.sess == s.sess && (s'.mem == s.mem || exists x: BufId :: s'.mem == s.mem.Release(x))
  {
    hide WireOf;
    hide PacketOf;
  }

  lemma ReaderBytesStay(s: State, c: ConsumerId, op: ReaderOp)
    requires c < |s.cons|
    ensures BytesStay(s, ReaderStep(s, c, op))
  {
    ReaderMemory(s, c, op);
    hide ReaderStep;
    var s' := ReaderStep(s, c, op);
    if s'.mem != s.mem {
      var x: BufId :| s'.mem == s.mem.Release(x);
      forall b: BufId | s'.mem.Refs(b) > 0
        ensures s'.mem.Bytes(b) == s.mem.Bytes(b)
      {
        ReleaseBytesStay(s.mem, x, b);
      }
    }
  }

  lemma SessionBytesStay(s: State, op: SessionOp)
    ensures BytesStay(s, SessionStep(s, op))
  {
    if s.sess.Idle? || (s.sess.Filling? && op.Arm?) {
      TakingBytesStay(s, op);
      hide SessionStep;
    } else if s.sess.Filling? {
      FillingBytesStay(s, op);
      hide SessionStep;
    } else if op.Distribute? && CanOffer(s, op.c) {
      OfferBytesStay(s, op.c);
      hide Offer;
    } else {
      hide Offer;
      hide PacketOf;
      hide CloseAll;
    }
  }

  lemma FillingBytesStay(s: State, op: SessionOp)
    requires s.sess.Filling? && !op.Arm?
    ensures BytesStay(s, SessionStep(s, op))
  {
  }

  lemma OfferBytesStay(s: State, c: ConsumerId)
    requires CanOffer(s, c)
    ensures BytesStay(s, Offer(s, c))
  {
    hide PacketOf;
    hide Withheld;
  }

  lemma GetBytesStay(mem: Memory, pool: Pool, pick: Option<BufId>, b: BufId)
    requires mem.Refs(b) > 0
    ensures mem.Get(pool, pick).0.Bytes(b) == mem.Bytes(b)
  {
  }

  lemma HoldBytesStay(mem: Memory, pool: Pool, bytes: seq<byte>, b: BufId)
    requires mem.Refs(b) > 0
    ensures mem.Hold(pool, bytes).0.Bytes(b) == mem.Bytes(b)
  {
  }

  lemma RetainBytesStay(s: State, m: Message, b: BufId)
    requires s.mem.Refs(b) > 0
    ensures Retain(s, m).mem.Bytes(b) == s.mem.Bytes(b)
  {
  }

  /** The steps that take a buffer from a pool, or make one. */
  lemma TakingBytesStay(s: State, op: SessionOp)
    requires s.sess.Idle? || (s.sess.Filling? && op.Arm?)
    ensures BytesStay(s, SessionStep(s, op))
  {
    hide CloseAll;
    hide MetaBytes;
    forall b: BufId | s.mem.Refs(b) > 0
      ensures SessionStep(s, op).mem.Bytes(b) == s.mem.Bytes(b)
    {
      match op
      case Acquire(pool, pick) => GetBytesStay(s.mem, pool, pick, b);
      case ArmMeta(metaData) => HoldBytesStay(s.mem, AudioPool, MetaBytes(metaData), b);
      case Arm(kind, flags, timestamp, length) =>
        if s.sess.Filling? {
          RetainBytesStay(s, Message(kind, flags, timestamp, length, s.sess.buf), b);
        }
      case _ =>
      hide Retain;
    }
    hide SessionStep;
  }

  lemma HeldBytesStay(s: State, s': State, c: ConsumerId, b: BufId)
    requires MemoryOk(s) && MemoryOk(s') && BytesStay(s, s')
    requires c < |s.cons| && c < |s'.cons|
    requires ConsumerHolds(s.cons[c], b) > 0 && ConsumerHolds(s'.cons[c], b) > 0
    ensures s'.mem.Bytes(b) == s.mem.Bytes(b)
  {
    ConsumerHeld(s, c, b);
    ConsumerHeld(s', c, b);
  }

  lemma KeptBytesStay(s: State, s': State, b: BufId)
    requires MemoryOk(s) && MemoryOk(s') && BytesStay(s, s')
    requires s.mem.kept[b] > 0 && s'.mem.kept[b] > 0
    ensures s'.mem.Bytes(b) == s.mem.Bytes(b)
  {
    assert s.mem.Refs(b) == Holders(s, b) && s'.mem.Refs(b) == Holders(s', b);
  }

  lemma TodoStays(s: State, s': State, todo: seq<Message>)
    requires MemoryOk(s) && MemoryOk(s') && BytesStay(s, s')
    requires KeptTodo(s.mem, todo) && s.mem.kept <= s'.mem.kept
    ensures PacketsOf(s'.mem, todo) == PacketsOf(s.mem, todo)
  {
    forall i | 0 <= i < |todo|
      ensures PacketOf(s'.mem, todo[i]) == PacketOf(s.mem, todo[i])
    {
      KeptBytesStay(s, s', todo[i].data);
    }
  }

  ghost predicate SameQueue(r: Consumer, r': Consumer) {
    && r'.queue == r.queue && r'.reader == r.reader && r'.accepted == r.accepted
    && r'.out == r.out && r'.released == r.released && (r.closed ==> r'.closed)
  }

  lemma SameQueueOk(s: State, s': State, c: ConsumerId)
    requires MemoryOk(s) && MemoryOk(s') && BytesStay(s, s')
    requires c < |s.cons| && c < |s'.cons| && SameQueue(s.cons[c], s'.cons[c])
    requires QueueOk(s.mem, s.cons[c]) && ReaderOk(s.mem, s.cons[c])
    ensures QueueOk(s'.mem, s'.cons[c]) && ReaderOk(s'.mem, s'.cons[c])
  {
    hide MemoryOk;
    hide BytesStay;
    var r := s.cons[c];
    forall i | 0 <= i < |r.queue|
      ensures PacketOf(s'.mem, r.queue[i]) == PacketOf(s.mem, r.queue[i])
    {
      CountHas(r.queue, i);
      HeldBytesStay(s, s', c, r.queue[i].data);
    }
    if r.reader.Writing? {
      HeldBytesStay(s, s', c, r.reader.mesg.data);
    }
  }

  /** A consumer that a step leaves alone, but for closing its queue, stays as it should be. */
  lemma BystanderOk(s: State, s': State, c: ConsumerId)
    requires MemoryOk(s) && MemoryOk(s') && BytesStay(s, s') && s.mem.kept <= s'.mem.kept
    requires c < |s.cons| && c < |s'.cons| && ConsumerOk(s.mem, s.cons[c])
    requires SameQueue(s.cons[c], s'.cons[c])
    requires s'.cons[c].join == s.cons[c].join && s'.cons[c].snapshot == s.cons[c].snapshot
    ensures ConsumerOk(s'.mem, s'.cons[c])
  {
    SameQueueOk(s, s', c);
    assert KeptTodo(s.mem, Todo(s.cons[c].join));
    TodoStays(s, s', Todo(s.cons[c].join));
  }

  lemma SessionOkStays(s: State, s': State)
    requires MemoryOk(s) && MemoryOk(s') && BytesStay(s, s') && SessionOk(s) && s.mem.kept <= s'.mem.kept
    requires s'.sess.Distributing? ==> s.sess.Distributing? && s'.sess.mesg == s.sess.mesg && s'.sess.own == s.sess.own && s'.log == s.log
    ensures SessionOk(s')
  {
    if s'.sess.Distributing? {
      MessageStays(s, s', s.sess.mesg, s.sess.own);
    }
  }

  lemma MessageStays(s: State, s': State, m: Message, own: bool)
    requires MemoryOk(s) && MemoryOk(s') && BytesStay(s, s') && s.mem.kept <= s'.mem.kept
    requires s.sess == Armed(m, own) || (s.sess.Distributing? && s.sess.mesg == m && s.sess.own == own)
    requires s'.sess == Armed(m, own) || (s'.sess.Distributing? && s'.sess.mesg == m && s'.sess.own == own)
    ensures PacketOf(s'.mem, m) == PacketOf(s.mem, m)
  {
    assert s.mem.Refs(m.data) == Holders(s, m.data);
    assert s'.mem.Refs(m.data) == Holders(s', m.data);
  }

  // ---- The consumer's own steps ----

  lemma JoinProgress(s: State, c: ConsumerId, op: JoinOp)
    requires c < |s.cons| && JoinOk(s.mem, s.cons[c]) && !op.OfferHeader?
    ensures JoinOk(s.mem, JoinStep(s, c, op).cons[c])
    ensures SameQueue(s.cons[c], JoinStep(s, c, op).cons[c])
  {
    hide Headers;
    hide PacketOf;
    hide Announced;
    var r := s.cons[c];
    assert [] + PacketsOf(s.mem, Headers(s)) == PacketsOf(s.mem, Headers(s));
    assert r.join == Sending([]) ==> r.accepted + [] == r.snapshot;
    assert r.accepted + [] == r.accepted;
  }

  lemma JoinerOk(s: State, c: ConsumerId, op: JoinOp)
    requires MemoryOk(s) && c < |s.cons| && ConsumerOk(s.mem, s.cons[c])
    ensures ConsumerOk(JoinStep(s, c, op).mem, JoinStep(s, c, op).cons[c])
  {
    var s' := JoinStep(s, c, op);
    if op.OfferHeader? {
      OfferedHeaderOk(s, c);
    } else {
      JoinKeepsMemory(s, c, op);
      JoinBytesStay(s, c, op);
      JoinFrame(s, c, op);
      JoinProgress(s, c, op);
      TodosOf(s');
      assert KeptTodo(s.mem, Todo(s'.cons[c].join));
      hide JoinStep;
      hide MemoryOk;
      hide BytesStay;
      TodoStays(s, s', Todo(s'.cons[c].join));
      SameQueueOk(s, s', c);
    }
  }

  lemma TodoHead(mem: Memory, todo: seq<Message>, accepted: seq<Packet>)
    requires todo != []
    ensures accepted + [PacketOf(mem, todo[0])] + PacketsOf(mem, todo[1..]) == accepted + PacketsOf(mem, todo)
  {
    hide PacketOf;
  }

  lemma OfferedHeaderOk(s: State, c: ConsumerId)
    requires c < |s.cons| && ConsumerOk(s.mem, s.cons[c])
    ensures var s' := JoinStep(s, c, OfferHeader); ConsumerOk(s'.mem, s'.cons[c])
  {
    hide PacketOf;
    hide PacketsOf;
    hide QueueOk;
    var s', r := JoinStep(s, c, OfferHeader), s.cons[c];
    if r.join.Offering? {
      TodoHead(s.mem, r.join.todo, r.accepted);
      if !r.closed && |r.queue| < s.capacity {
        AcceptedOk(s.mem, r, r.join.todo[0]);
        OfferedReaderOk(s.mem, r, s'.cons[c], r.join.todo[0]);
      } else {
        RefusedReaderOk(s.mem, r, s'.cons[c]);
      }
    }
  }

  lemma OfferedReaderOk(mem: Memory, r: Consumer, r': Consumer, m: Message)
    requires var a := Accept(r, m, PacketOf(mem, m)); QueueOk(mem, a) && ReaderOk(mem, a) && r' == a.(join := r'.join)
    ensures QueueOk(mem, r') && ReaderOk(mem, r')
  {
    hide PacketOf;
    hide WireOf;
  }

  lemma RefusedReaderOk(mem: Memory, r: Consumer, r': Consumer)
    requires QueueOk(mem, r) && ReaderOk(mem, r) && r' == r.(join := r'.join)
    ensures QueueOk(mem, r') && ReaderOk(mem, r')
  {
    hide PacketOf;
    hide WireOf;
  }

  lemma AcceptedOk(mem: Memory, r: Consumer, m: Message)
    requires QueueOk(mem, r) && ReaderOk(mem, r) && !r.closed
    ensures var r' := Accept(r, m, PacketOf(mem, m)); QueueOk(mem, r') && ReaderOk(mem, r')
  {
    hide PacketOf;
    hide WireOf;
    hide WireAll;
    var r' := Accept(r, m, PacketOf(mem, m));
    assert r.released <= |r.accepted| && r'.accepted[..r.released] == r.accepted[..r.released];
    WireAllAppend(r.accepted, [PacketOf(mem, m)]);
  }

  lemma ReceiveOk(s: State, c: ConsumerId)
    requires c < |s.cons| && ConsumerOk(s.mem, s.cons[c])
    ensures var s' := ReaderStep(s, c, Receive); ConsumerOk(s'.mem, s'.cons[c])
  {
    hide PacketOf;
    hide PacketsOf;
    hide WireOf;
    var s', r := ReaderStep(s, c, Receive), s.cons[c];
    if s' != s {
      assert WireOf(r.accepted[r.released])[..0] == [];
      assert WireAll(r.accepted[..r.released]) + [] == WireAll(r.accepted[..r.released]);
    }
  }

  lemma WroteOk(s: State, c: ConsumerId, n: nat)
    requires c < |s.cons| && ConsumerOk(s.mem, s.cons[c])
    ensures var s' := ReaderStep(s, c, Write(n)); ConsumerOk(s'.mem, s'.cons[c])
  {
    hide PacketOf;
    hide PacketsOf;
    hide WireOf;
    hide WireAll;
    var s', r := ReaderStep(s, c, Write(n)), s.cons[c];
    if s' != s {
      var wire, done := WireOf(r.accepted[r.released]), r.reader.done;
      assert wire[..done] + wire[done..done + n] == wire[..done + n];
      Associative(WireAll(r.accepted[..r.released]), wire[..done], wire[done..done + n]);
    }
  }

  lemma WireAllNext(ps: seq<Packet>, n: nat)
    requires n < |ps|
    ensures WireAll(ps[..n + 1]) == WireAll(ps[..n]) + WireOf(ps[n])
  {
    hide WireOf;
    assert ps[..n + 1][..n] == ps[..n];
  }

  lemma WireAllPrefix(ps: seq<Packet>, n: nat)
    requires n < |ps|
    ensures WireAll(ps[..n + 1]) == WireAll(ps[..n]) + WireOf(ps[n])
    ensures WireAll(ps[..n + 1]) <= WireAll(ps)
  {
    hide WireAll;
    hide WireOf;
    WireAllNext(ps, n);
    assert ps == ps[..n + 1] + ps[n + 1..];
    WireAllAppend(ps[..n + 1], ps[n + 1..]);
  }

  lemma WriteEndOk(s: State, c: ConsumerId, op: ReaderOp)
    requires c < |s.cons| && ConsumerOk(s.mem, s.cons[c]) && (op.WriteDone? || op.WriteFail?)
    requires s.cons[c].reader.Writing?
    ensures var s' := ReaderStep(s, c, op);
      s' != s ==> ReaderOk(s.mem, s'.cons[c]) && QueueOk(s.mem, s'.cons[c])
  {
    hide PacketOf;
    hide WireOf;
    var s', r := ReaderStep(s, c, op), s.cons[c];
    WireAllPrefix(r.accepted, r.released);
    var wire := WireOf(r.accepted[r.released]);
    assert wire[..|wire|] == wire;
    assert WireAll(r.accepted[..r.released]) + wire[..r.reader.done] <= WireAll(r.accepted[..r.released]) + wire;
  }

  /** After a release, what the consumer still holds reads as before. */
  lemma RemainingOk(s: State, s': State, c: ConsumerId)
    requires MemoryOk(s) && MemoryOk(s') && BytesStay(s, s') && s'.mem.kept == s.mem.kept
    requires c < |s.cons| && c < |s'.cons| && s'.cons[c].join == s.cons[c].join && s'.cons[c].snapshot == s.cons[c].snapshot
    requires s'.cons[c].accepted == s.cons[c].accepted && !s'.cons[c].reader.Writing?
    requires s'.cons[c].queue == s.cons[c].queue || (s.cons[c].queue != [] && s'.cons[c].queue == s.cons[c].queue[1..])
    requires ReaderOk(s.mem, s'.cons[c]) && QueueOk(s.mem, s'.cons[c]) && JoinOk(s.mem, s.cons[c])
    ensures ConsumerOk(s'.mem, s'.cons[c])
  {
    hide MemoryOk;
    hide BytesStay;
    hide WireAll;
    hide WireOf;
    hide PacketsOf;
    var r, r' := s.cons[c], s'.cons[c];
    forall i | 0 <= i < |r'.queue|
      ensures PacketOf(s'.mem, r'.queue[i]) == PacketOf(s.mem, r'.queue[i])
    {
      CountHas(r'.queue, i);
      CountHas(r.queue, if r'.queue == r.queue then i else i + 1);
      HeldBytesStay(s, s', c, r'.queue[i].data);
    }
    assert KeptTodo(s.mem, Todo(r.join)) by {
      assert TodosKept(s) by {
        TodosOf(s);
      }
    }
    TodoStays(s, s', Todo(r.join));
  }

  lemma TodosOf(s: State)
    requires MemoryOk(s)
    ensures TodosKept(s)
  {
  }

  lemma DrainedOk(s: State, c: ConsumerId)
    requires c < |s.cons| && ConsumerOk(s.mem, s.cons[c])
    ensures var s' := ReaderStep(s, c, Drain); ReaderOk(s.mem, s'.cons[c]) && QueueOk(s.mem, s'.cons[c])
  {
    hide PacketOf;
    hide PacketsOf;
    hide WireAll;
    hide WireOf;
  }

  lemma ReleaseFrame(s: State, c: ConsumerId, op: ReaderOp)
    requires c < |s.cons| && (op.WriteDone? || op.WriteFail? || op.Drain?) && ReaderStep(s, c, op) != s
    ensures var r, r' := s.cons[c], ReaderStep(s, c, op).cons[c];
      && ReaderStep(s, c, op).mem.kept == s.mem.kept
      && r'.join == r.join && r'.snapshot == r.snapshot && r'.accepted == r.accepted && !r'.reader.Writing?
      && (r'.queue == r.queue || (r.queue != [] && r'.queue == r.queue[1..]))
      && (!op.Drain? ==> r.reader.Writing?)
  {
    hide PacketOf;
    hide WireOf;
  }

  lemma ReleasedOk(s: State, c: ConsumerId, op: ReaderOp)
    requires MemoryOk(s) && c < |s.cons| && ConsumerOk(s.mem, s.cons[c])
    requires op.WriteDone? || op.WriteFail? || op.Drain?
    ensures var s' := ReaderStep(s, c, op); s' != s ==> ConsumerOk(s'.mem, s'.cons[c])
  {
    var s' := ReaderStep(s, c, op);
    if s' != s {
      ReaderKeepsMemory(s, c, op);
      ReaderBytesStay(s, c, op);
      ReaderFrame(s, c, op);
      ReleaseFrame(s, c, op);
      hide ReaderStep;
      if op.Drain? {
        DrainedOk(s, c);
      } else {
        WriteEndOk(s, c, op);
      }
      RemainingOk(s, s', c);
    }
  }

  lemma OwnReaderOk(s: State, c: ConsumerId, op: ReaderOp)
    requires MemoryOk(s) && c < |s.cons| && ConsumerOk(s.mem, s.cons[c])
    ensures ConsumerOk(ReaderStep(s, c, op).mem, ReaderStep(s, c, op).cons[c])
  {
    match op
    case Receive => ReceiveOk(s, c);
    case Write(n) => WroteOk(s, c, n);
    case Finish =>
      hide PacketOf;
      hide PacketsOf;
      hide WireAll;
      assert s.cons[c].accepted[..|s.cons[c].accepted|] == s.cons[c].accepted;
    case _ => ReleasedOk(s, c, op);
  }

  // ---- Every step ----

  lemma OthersOk(s: State, s': State, c: ConsumerId)
    requires MemoryOk(s) && MemoryOk(s') && BytesStay(s, s') && s.mem.kept <= s'.mem.kept
    requires ConsumersOk(s) && c < |s.cons| && |s'.cons| == |s.cons|
    requires forall i :: 0 <= i < |s.cons| && i != c ==> s'.cons[i] == s.cons[i]
    requires ConsumerOk(s'.mem, s'.cons[c])
    ensures ConsumersOk(s')
  {
    hide MemoryOk;
    hide BytesStay;
    hide ConsumerOk;
    forall i | 0 <= i < |s'.cons|
      ensures ConsumerOk(s'.mem, s'.cons[i])
    {
      if i != c {
        BystanderOk(s, s', i);
      }
    }
  }

  lemma AllBystandersOk(s: State, s': State)
    requires MemoryOk(s) && MemoryOk(s') && BytesStay(s, s') && s.mem.kept <= s'.mem.kept
    requires ConsumersOk(s) && |s'.cons| == |s.cons|
    requires forall i :: 0 <= i < |s.cons| ==> SameQueue(s.cons[i], s'.cons[i])
    requires forall i :: 0 <= i < |s.cons| ==> s'.cons[i].join == s.cons[i].join && s'.cons[i].snapshot == s.cons[i].snapshot
    ensures ConsumersOk(s')
  {
    hide MemoryOk;
    hide BytesStay;
    hide ConsumerOk;
    forall i | 0 <= i < |s'.cons|
      ensures ConsumerOk(s'.mem, s'.cons[i])
    {
      BystanderOk(s, s', i);
    }
  }

  lemma JoinFrameOthers(s: State, c: ConsumerId, op: JoinOp)
    requires c < |s.cons|
    ensures var s' := JoinStep(s, c, op);
      |s'.cons| == |s.cons| && s'.log == s.log && forall i :: 0 <= i < |s.cons| && i != c ==> s'.cons[i] == s.cons[i]
  {
    hide Headers;
    hide PacketOf;
    hide PacketsOf;
    hide Announced;
  }

  lemma ReaderFrameOthers(s: State, c: ConsumerId, op: ReaderOp)
    requires c < |s.cons|
    ensures var s' := ReaderStep(s, c, op);
      && |s'.cons| == |s.cons| && s'.log == s.log && s'.consumers == s.consumers
      && (forall i :: 0 <= i < |s.cons| && i != c ==> s'.cons[i] == s.cons[i])
  {
    hide PacketOf;
    hide WireOf;
  }

  lemma JoinMembers(s: State, c: ConsumerId, op: JoinOp)
    requires c < |s.cons| && OnlyMembers(s)
    ensures OnlyMembers(JoinStep(s, c, op))
  {
    hide Headers;
    hide PacketOf;
    hide PacketsOf;
    hide Announced;
  }

  lemma JoinKeepsContent(s: State, c: ConsumerId, op: JoinOp)
    requires MemoryOk(s) && ContentOk(s) && c < |s.cons|
    ensures ContentOk(JoinStep(s, c, op))
  {
    JoinerOk(s, c, op);
    JoinKeepsMemory(s, c, op);
    JoinBytesStay(s, c, op);
    JoinFrame(s, c, op);
    JoinFrameOthers(s, c, op);
    JoinMembers(s, c, op);
    hide JoinStep;
    hide MemoryOk;
    hide BytesStay;
    hide OnlyMembers;
    OthersOk(s, JoinStep(s, c, op), c);
    SessionOkStays(s, JoinStep(s, c, op));
  }

  lemma ReaderKeepsContent(s: State, c: ConsumerId, op: ReaderOp)
    requires MemoryOk(s) && ContentOk(s) && c < |s.cons|
    ensures ContentOk(ReaderStep(s, c, op))
  {
    OwnReaderOk(s, c, op);
    ReaderKeepsMemory(s, c, op);
    ReaderBytesStay(s, c, op);
    ReaderFrame(s, c, op);
    ReaderFrameOthers(s, c, op);
    ReaderJoins(s, c, op);
    hide ReaderStep;
    hide MemoryOk;
    hide BytesStay;
    OthersOk(s, ReaderStep(s, c, op), c);
    SessionOkStays(s, ReaderStep(s, c, op));
  }

  // ---- The session's steps ----

  lemma OfferAcceptedOk(s: State, c: ConsumerId)
    requires ContentOk(s) && CanOffer(s, c)
    requires !Withheld(s.consumers[c], PacketOf(s.mem, s.sess.mesg)) && !s.cons[c].closed && |s.cons[c].queue| < s.capacity
    ensures var s' := Offer(s, c);
      && s'.mem == s.mem && ConsumerOk(s'.mem, s'.cons[c])
      && (forall i :: 0 <= i < |s.cons| && i != c ==> s'.cons[i] == s.cons[i])
  {
    OfferAcceptedShape(s, c);
    hide Offer;
    var p := PacketOf(s.mem, s.sess.mesg);
    AcceptedOk(s.mem, s.cons[c], s.sess.mesg);
    assert JoinOk(s.mem, s.cons[c]) && s.cons[c].join.Member?;
    MemberAccepts(s.mem, s.cons[c], s.sess.mesg, p);
    assert ConsumerOk(s.mem, Accept(s.cons[c], s.sess.mesg, p));
    hide *;
  }

  lemma MemberAccepts(mem: Memory, r: Consumer, m: Message, p: Packet)
    requires r.join.Member? && JoinOk(mem, r)
    ensures JoinOk(mem, Accept(r, m, p))
  {
    hide PacketsOf;
  }

  lemma OfferAcceptedShape(s: State, c: ConsumerId)
    requires CanOffer(s, c)
    requires !Withheld(s.consumers[c], PacketOf(s.mem, s.sess.mesg)) && !s.cons[c].closed && |s.cons[c].queue| < s.capacity
    ensures var s' := Offer(s, c);
      s'.mem == s.mem && s'.cons == s.cons[c := Accept(s.cons[c], s.sess.mesg, PacketOf(s.mem, s.sess.mesg))]
  {
    hide PacketOf;
    hide Withheld;
  }

  lemma OfferNotAcceptedOk(s: State, c: ConsumerId)
    requires CanOffer(s, c)
    requires Withheld(s.consumers[c], PacketOf(s.mem, s.sess.mesg)) || s.cons[c].closed || |s.cons[c].queue| >= s.capacity
    ensures var s' := Offer(s, c);
      forall i :: 0 <= i < |s.cons| ==> SameQueue(s.cons[i], s'.cons[i]) && s'.cons[i].snapshot == s.cons[i].snapshot
  {
    hide PacketOf;
    hide Withheld;
  }

  lemma OfferMembers(s: State, c: ConsumerId)
    requires OnlyMembers(s) && CanOffer(s, c)
    ensures OnlyMembers(Offer(s, c))
  {
    hide PacketOf;
    hide Withheld;
    assert forall i :: i in Offer(s, c).consumers <==> i in s.consumers.Keys;
  }

  lemma OfferKeepsContent(s: State, c: ConsumerId)
    requires MemoryOk(s) && ContentOk(s) && CanOffer(s, c)
    ensures ContentOk(Offer(s, c))
  {
    var s' := Offer(s, c);
    assert s' == SessionStep(s, Distribute(c));
    DistributeAccounts(s, c);
    SessionBytesStay(s, Distribute(c));
    OfferFrame(s, c);
    OfferLog(s, c);
    OfferMembers(s, c);
    hide MemoryOk;
    hide BytesStay;
    hide OnlyMembers;
    SessionOkStays(s, s');
    if !Withheld(s.consumers[c], PacketOf(s.mem, s.sess.mesg)) && !s.cons[c].closed && |s.cons[c].queue| < s.capacity {
      OfferAcceptedOk(s, c);
      hide Offer;
      OthersOk(s, s', c);
    } else {
      OfferNotAcceptedOk(s, c);
      hide Offer;
      AllBystandersOk(s, s');
    }
  }

  lemma OfferLog(s: State, c: ConsumerId)
    requires CanOffer(s, c)
    ensures Offer(s, c).log == s.log
  {
    hide PacketOf;
    hide Withheld;
  }

  ghost predicate OnlyCloses(cons: seq<Consumer>, cons': seq<Consumer>) {
    |cons'| == |cons| && forall i :: 0 <= i < |cons| ==> cons'[i] == cons[i] || cons'[i] == cons[i].(closed := true)
  }

  lemma CloseAllCloses(cons: seq<Consumer>, which: set<ConsumerId>)
    ensures OnlyCloses(cons, CloseAll(cons, which))
  {
  }

  lemma SessionKeepsHeld(s: State, op: SessionOp)
    requires !op.Distribute?
    ensures s.mem.kept <= SessionStep(s, op).mem.kept
  {
    hide PacketOf;
    hide MetaBytes;
    hide CloseAll;
  }

  lemma SessionKeys(s: State, op: SessionOp)
    requires !op.Distribute?
    ensures SessionStep(s, op).consumers.Keys <= s.consumers.Keys
  {
    hide PacketOf;
    hide MetaBytes;
    hide CloseAll;
  }

  /** The session's other steps touch no queue, but may close some. */
  lemma SameCloses(cons: seq<Consumer>)
    ensures OnlyCloses(cons, cons)
  {
  }

  lemma SessionFrame(s: State, op: SessionOp)
    requires !op.Distribute?
    ensures OnlyCloses(s.cons, SessionStep(s, op).cons)
  {
    hide PacketOf;
    hide MetaBytes;
    hide CloseAll;
    hide OnlyCloses;
    SameCloses(s.cons);
    if s.sess.Idle? {
      CloseAllCloses(s.cons, s.consumers.Keys);
    } else if s.sess.Evicting? {
      CloseAllCloses(s.cons, s.sess.refused);
    }
  }

  lemma BeginOk(s: State)
    requires MemoryOk(s) && s.sess.Armed?
    ensures SessionOk(SessionStep(s, Begin))
  {
    var m := s.sess.mesg;
    assert s.mem.Acquire(m.data, |s.consumers|).Bytes(m.data) == s.mem.Bytes(m.data);
  }

  lemma QuietSessionContent(s: State, s': State)
    requires MemoryOk(s) && MemoryOk(s') && BytesStay(s, s') && s.mem.kept <= s'.mem.kept
    requires ContentOk(s) && OnlyCloses(s.cons, s'.cons) && s'.consumers.Keys <= s.consumers.Keys && SessionOk(s')
    ensures ContentOk(s')
  {
    hide MemoryOk;
    hide BytesStay;
    hide SessionOk;
    hide ConsumerOk;
    assert forall i :: i in s'.consumers ==> i in s.consumers.Keys;
    AllBystandersOk(s, s');
  }

  lemma NoOffer(s: State, c: ConsumerId)
    requires !CanOffer(s, c)
    ensures SessionStep(s, Distribute(c)) == s
  {
    hide Offer;
  }

  lemma QuietKeepsContent(s: State, op: SessionOp)
    requires MemoryOk(s) && ContentOk(s) && !op.Distribute?
    ensures ContentOk(SessionStep(s, op))
  {
    SessionKeepsMemory(s, op);
    SessionBytesStay(s, op);
    SessionFrame(s, op);
    SessionKeepsHeld(s, op);
    SessionKeys(s, op);
    SessionNotDistributing(s, op);
    if s.sess.Armed? && op.Begin? {
      BeginOk(s);
    }
    hide SessionStep;
    hide MemoryOk;
    hide BytesStay;
    hide ContentOk;
    hide OnlyCloses;
    QuietSessionContent(s, SessionStep(s, op));
  }

  lemma SessionKeepsContent(s: State, op: SessionOp)
    requires MemoryOk(s) && ContentOk(s)
    ensures ContentOk(SessionStep(s, op))
  {
    hide SessionStep;
    hide ContentOk;
    hide MemoryOk;
    hide Offer;
    if !op.Distribute? {
      QuietKeepsContent(s, op);
    } else if CanOffer(s, op.c) {
      OfferKeepsContent(s, op.c);
      OfferIsStep(s, op.c);
    } else {
      NoOffer(s, op.c);
    }
  }

  lemma OfferIsStep(s: State, c: ConsumerId)
    requires CanOffer(s, c)
    ensures SessionStep(s, Distribute(c)) == Offer(s, c)
  {
    hide Offer;
  }

  lemma SessionNotDistributing(s: State, op: SessionOp)
    requires !op.Distribute? && SessionOk(s)
    ensures (s.sess.Armed? && op.Begin?) || SessionOk(SessionStep(s, op))
  {
    hide PacketOf;
    hide MetaBytes;
    hide CloseAll;
  }

  lemma CreateKeepsMemory(s: State)
    requires MemoryOk(s)
    ensures MemoryOk(Next(s, Create))
  {
    var s' := Next(s, Create);
    assert s'.cons[..|s.cons|] == s.cons;
    assert forall b: BufId :: AllHold(s'.cons, b) == AllHold(s.cons, b);
    assert TodosKept(s') by {
      assert forall c :: 0 <= c < |s.cons| ==> KeptTodo(s.mem, Todo(s.cons[c].join));
    }
    hide AllHold;
    hide PoolsOk;
    SessionChange(s, s', 0, 0);
  }

  lemma CreateKeeps(s: State)
    requires MemoryOk(s)
    ensures MemoryOk(Next(s, Create))
    ensures ContentOk(s) ==> ContentOk(Next(s, Create))
  {
    CreateKeepsMemory(s);
    hide MemoryOk;
    assert WireAll([]) == [] && NEW_CONSUMER.accepted[..0] == [];
    hide WireAll;
  }

  lemma CollectPools(s: State, b: BufId)
    requires PoolsOk(s.mem) && s.mem.pooled[b] > 0
    ensures PoolsOk(Next(s, Collect(b)).mem)
  {
    var s' := Next(s, Collect(b));
    forall x | 0 <= x < |s'.mem.heap|
      ensures BufferOk(s'.mem, x)
    {
      assert BufferOk(s.mem, x);
    }
  }

  lemma CollectKeepsMemory(s: State, b: BufId)
    requires MemoryOk(s) && s.mem.pooled[b] > 0
    ensures MemoryOk(Next(s, Collect(b)))
  {
    var s' := Next(s, Collect(b));
    CollectPools(s, b);
    hide PoolsOk;
    hide AllHold;
    SessionChange(s, s', 0, 0);
    hide Accounted;
    assert TodosKept(s') by {
      SameJoins(s, s');
    }
  }

  lemma CollectKeeps(s: State, b: BufId)
    requires MemoryOk(s)
    ensures MemoryOk(Next(s, Collect(b)))
    ensures ContentOk(s) ==> ContentOk(Next(s, Collect(b)))
  {
    var s' := Next(s, Collect(b));
    if s' != s {
      CollectKeepsMemory(s, b);
      hide MemoryOk;
      if ContentOk(s) {
        AllBystandersOk(s, s');
        hide ConsumersOk;
      }
    }
  }
}
