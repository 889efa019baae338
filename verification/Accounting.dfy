/** Who holds which buffer, and that the reference counts say exactly that in every run. */
module Accounting {
  import opened Prelude
  import opened Wire
  import opened Packets
  import opened Machine

  // ---- Holders ----

  function Count(queue: seq<Message>, b: BufId): nat {
    if |queue| == 0 then 0 else (if queue[0].data == b then 1 else 0) + Count(queue[1..], b)
  }

  function One(held: BufId, b: BufId): nat {
    if held == b then 1 else 0
  }

  /** The copies in the queue, the one being written, and the one being offered on joining. */
  function ConsumerHolds(r: Consumer, b: BufId): nat {
    Count(r.queue, b) + ReaderHolds(r.reader, b) + JoinHolds(r.join, b)
  }

  function ReaderHolds(reader: Reader, b: BufId): nat {
    if reader.Writing? then One(reader.mesg.data, b) else 0
  }

  function JoinHolds(join: Join, b: BufId): nat {
    match join
    case Offering(todo) => if todo == [] then 0 else One(todo[0].data, b)
    case Refused(data) => One(data, b)
    case _ => 0
  }

  function AllHold(cons: seq<Consumer>, b: BufId): nat {
    if |cons| == 0 then 0 else AllHold(cons[..|cons| - 1], b) + ConsumerHolds(cons[|cons| - 1], b)
  }

  /** The creator's reference, and those acquired for consumers that were not yet served. */
  function SessionHolds(sess: Session, b: BufId): nat {
    match sess
    case Idle => 0
    case Filling(buf) => One(buf, b)
    case Armed(m, own) => if own then One(m.data, b) else 0
    case Distributing(m, own, todo, _) => if m.data == b then (if own then 1 else 0) + |todo| else 0
    case Evicting(m, own, _) => if own then One(m.data, b) else 0
    case Settling(m, own) => if own then One(m.data, b) else 0
    case Stopped => 0
  }

  ghost predicate SameLosses(mem: Memory, mem': Memory) {
    mem'.unpaid == mem.unpaid && mem'.forgotten == mem.forgotten
  }

  function Holders(s: State, b: BufId): nat {
    SessionHolds(s.sess, b) + s.mem.kept[b] + s.mem.Lost(b) + AllHold(s.cons, b)
  }

  // ---- The invariant ----

  /** Every reference is somebody's, and the panic on a release too many was never reached. */
  ghost predicate Accounted(s: State) {
    && !s.mem.overReleased
    && (forall b: BufId :: s.mem.Refs(b) == Holders(s, b))
  }

  /** A buffer without references lies in its pool once, unless the collector took it; and a pooled buffer
      is empty and of its pool's size. */
  ghost predicate PoolsOk(mem: Memory) {
    && (forall b: BufId :: mem.pooled[b] > 0 ==>
          b < |mem.heap| && mem.pooled[b] == 1 && mem.heap[b].refs == 0 && mem.heap[b].bytes == [])
    && (forall b :: 0 <= b < |mem.heap| ==> BufferOk(mem, b))
    && (forall b :: b in mem.vanished ==> b < |mem.heap| && mem.heap[b].refs == 0 && mem.pooled[b] == 0)
  }

  ghost predicate BufferOk(mem: Memory, b: BufId)
    requires b < |mem.heap|
  {
    && |mem.heap[b].bytes| <= mem.heap[b].capacity
    && (mem.heap[b].refs == 0 ==> mem.pooled[b] == 1 || b in mem.vanished)
    && (mem.kept[b] == 0 ==> mem.heap[b].capacity == PoolSize(mem.heap[b].pool))
    && (mem.kept[b] > 0 ==> mem.heap[b].capacity <= Ingest.VIDEO_BUFFER)
  }

  ghost predicate KeptHeader(mem: Memory, b: Option<BufId>) {
    b.Some? ==> mem.kept[b.value] > 0
  }

  function Todo(j: Join): seq<Message> {
    match j
    case Sending(todo) => todo
    case Offering(todo) => todo
    case _ => []
  }

  ghost predicate KeptTodo(mem: Memory, todo: seq<Message>) {
    forall i :: 0 <= i < |todo| ==> mem.kept[todo[i].data] > 0
  }

  ghost predicate TodosKept(s: State) {
    forall c :: 0 <= c < |s.cons| ==> KeptTodo(s.mem, Todo(s.cons[c].join))
  }

  ghost predicate SessionKept(s: State) {
    match s.sess
    case Filling(b) => s.mem.Refs(b) == 1
    case Armed(m, own) => own || s.mem.kept[m.data] > 0
    case Distributing(m, own, todo, _) => (own || s.mem.kept[m.data] > 0) && todo <= s.consumers.Keys
    case Evicting(m, own, _) => own || s.mem.kept[m.data] > 0
    case Settling(m, own) => own || s.mem.kept[m.data] > 0
    case _ => true
  }

  /** Retained headers are held for good, a buffer being filled by its creator alone, and the one being
      published by its creator or for good. */
  ghost predicate HoldsOk(s: State) {
    && KeptHeader(s.mem, s.videoSeqHdr) && KeptHeader(s.mem, s.audioSeqHdr) && KeptHeader(s.mem, s.meta)
    && TodosKept(s)
    && SessionKept(s)
    && (forall c :: c in s.consumers ==> c < |s.cons|)
  }

  ghost predicate MemoryOk(s: State) {
    Accounted(s) && PoolsOk(s.mem) && HoldsOk(s)
  }

  // ---- Sums ----

  lemma {:induction false} AllHoldUpdate(cons: seq<Consumer>, c: nat, r: Consumer, b: BufId)
    requires c < |cons|
    ensures AllHold(cons[c := r], b) == AllHold(cons, b) - ConsumerHolds(cons[c], b) + ConsumerHolds(r, b)
    ensures AllHold(cons, b) >= ConsumerHolds(cons[c], b)
  {
    hide ConsumerHolds;
    var n := |cons| - 1;
    if c == n {
      assert cons[c := r][..n] == cons[..n];
    } else {
      assert cons[c := r][..n] == cons[..n][c := r];
      AllHoldUpdate(cons[..n], c, r, b);
    }
  }

  lemma {:induction false} CountAppend(queue: seq<Message>, m: Message, b: BufId)
    ensures Count(queue + [m], b) == Count(queue, b) + One(m.data, b)
  {
    if |queue| == 0 {
      assert queue + [m] == [m];
    } else {
      assert (queue + [m])[1..] == queue[1..] + [m];
      CountAppend(queue[1..], m, b);
    }
  }

  lemma {:induction false} CountHas(queue: seq<Message>, i: nat)
    requires i < |queue|
    ensures Count(queue, queue[i].data) > 0
  {
    if i > 0 {
      CountHas(queue[1..], i - 1);
    }
  }

  /** One consumer's holdings change by delta on one buffer, and its count with them. */
  lemma ConsumerChange(s: State, s': State, c: ConsumerId, r: Consumer, b: BufId, delta: int)
    requires Accounted(s) && c < |s.cons| && s'.cons == s.cons[c := r]
    requires s'.sess == s.sess && s'.mem.kept == s.mem.kept && SameLosses(s.mem, s'.mem)
    requires !s'.mem.overReleased
    requires forall x: BufId :: ConsumerHolds(r, x) == ConsumerHolds(s.cons[c], x) + if x == b then delta else 0
    requires forall x: BufId :: s'.mem.Refs(x) == s.mem.Refs(x) + if x == b then delta else 0
    ensures Accounted(s')
  {
    hide ConsumerHolds;
    forall x: BufId
      ensures s'.mem.Refs(x) == Holders(s', x)
    {
      AllHoldUpdate(s.cons, c, r, x);
    }
  }

  lemma ConsumerHeld(s: State, c: ConsumerId, b: BufId)
    requires Accounted(s) && c < |s.cons|
    ensures s.mem.Refs(b) >= ConsumerHolds(s.cons[c], b) + s.mem.kept[b] + SessionHolds(s.sess, b)
  {
    AllHoldUpdate(s.cons, c, s.cons[c], b);
  }

  // ---- Memory operations ----

  lemma AcquireOk(mem: Memory, b: BufId, n: nat)
    requires PoolsOk(mem) && mem.Refs(b) > 0
    ensures PoolsOk(mem.Acquire(b, n))
    ensures forall x: BufId :: mem.Acquire(b, n).Refs(x) == mem.Refs(x) + if x == b then n else 0
  {
    var m := mem.Acquire(b, n);
    forall x | 0 <= x < |m.heap|
      ensures BufferOk(m, x)
    {
      assert BufferOk(mem, x);
    }
  }

  lemma ReleaseOk(mem: Memory, b: BufId)
    requires PoolsOk(mem) && mem.Refs(b) > mem.kept[b] && !mem.overReleased
    ensures var m := mem.Release(b);
      && PoolsOk(m) && !m.overReleased && m.kept == mem.kept && SameLosses(mem, m)
      && (forall x: BufId :: m.Refs(x) == mem.Refs(x) - if x == b then 1 else 0)
  {
    var m := mem.Release(b);
    forall x | 0 <= x < |m.heap|
      ensures BufferOk(m, x)
    {
      assert BufferOk(mem, x);
    }
  }

  // ---- Every step keeps it ----

  lemma AcquireHeaderAccounts(s: State, c: ConsumerId)
    requires MemoryOk(s) && c < |s.cons|
    ensures var s' := JoinStep(s, c, AcquireHeader); Accounted(s') && PoolsOk(s'.mem)
  {
    hide PoolsOk;
    hide Count;
    hide AllHold;
    var s', r := JoinStep(s, c, AcquireHeader), s.cons[c];
    if s' != s {
      var b := r.join.todo[0].data;
      assert KeptTodo(s.mem, Todo(r.join));
      ConsumerHeld(s, c, b);
      AcquireOk(s.mem, b, 1);
      ConsumerChange(s, s', c, s'.cons[c], b, 1);
    }
  }

  /** The reference taken for a header moves from the joiner into the queue, or stays with the joiner. */
  lemma OfferedHolds(r: Consumer, p: Packet, x: BufId)
    requires r.join.Offering? && r.join.todo != []
    ensures ConsumerHolds(Accept(r, r.join.todo[0], p).(join := Sending(r.join.todo[1..])), x) == ConsumerHolds(r, x)
    ensures ConsumerHolds(r.(join := Refused(r.join.todo[0].data)), x) == ConsumerHolds(r, x)
  {
    CountAppend(r.queue, r.join.todo[0], x);
    hide Count;
  }

  lemma OfferHeaderAccounts(s: State, c: ConsumerId)
    requires MemoryOk(s) && c < |s.cons|
    ensures var s' := JoinStep(s, c, OfferHeader); Accounted(s') && PoolsOk(s'.mem)
  {
    hide PoolsOk;
    hide PacketOf;
    hide ConsumerHolds;
    hide AllHold;
    hide HoldsOk;
    var s', r := JoinStep(s, c, OfferHeader), s.cons[c];
    if s'.cons != s.cons {
      forall x: BufId {
        OfferedHolds(r, PacketOf(s.mem, r.join.todo[0]), x);
      }
      ConsumerChange(s, s', c, s'.cons[c], 0, 0);
      hide JoinStep;
    }
  }

  lemma ReleaseHeaderAccounts(s: State, c: ConsumerId)
    requires MemoryOk(s) && c < |s.cons|
    ensures var s' := JoinStep(s, c, ReleaseHeader); Accounted(s') && PoolsOk(s'.mem)
  {
    hide PoolsOk;
    hide Count;
    hide AllHold;
    var s', r := JoinStep(s, c, ReleaseHeader), s.cons[c];
    if s' != s {
      var b := r.join.data;
      ConsumerHeld(s, c, b);
      ReleaseOk(s.mem, b);
      ConsumerChange(s, s', c, s'.cons[c], b, -1);
    }
  }

  lemma JoinAccounts(s: State, c: ConsumerId, op: JoinOp)
    requires MemoryOk(s) && c < |s.cons|
    ensures var s' := JoinStep(s, c, op); Accounted(s') && PoolsOk(s'.mem)
  {
    hide PoolsOk;
    hide Count;
    hide AllHold;
    hide HoldsOk;
    match op
    case AcquireHeader => AcquireHeaderAccounts(s, c);
    case OfferHeader => OfferHeaderAccounts(s, c);
    case ReleaseHeader => ReleaseHeaderAccounts(s, c);
    case _ =>
      var s' := JoinStep(s, c, op);
      if s' != s {
        ConsumerChange(s, s', c, s'.cons[c], 0, 0);
      }
  }

  lemma HeadersAreKept(s: State)
    requires HoldsOk(s)
    ensures KeptTodo(s.mem, Headers(s))
  {
  }

  /** A step of another thread leaves the session, the headers and what is kept alone. */
  ghost predicate SameFrame(s: State, s': State) {
    && s'.sess == s.sess && s'.mem.kept == s.mem.kept
    && s'.videoSeqHdr == s.videoSeqHdr && s'.audioSeqHdr == s.audioSeqHdr && s'.meta == s.meta
    && |s.cons| <= |s'.cons|
    && (forall c :: c in s'.consumers ==> c in s.consumers || c < |s.cons|)
    && (s.sess.Distributing? ==> s.consumers.Keys <= s'.consumers.Keys)
  }

  lemma HoldsFrame(s: State, s': State)
    requires HoldsOk(s) && SameFrame(s, s') && TodosKept(s')
    requires s.sess.Filling? ==> s'.mem.Refs(s.sess.buf) == s.mem.Refs(s.sess.buf)
    ensures HoldsOk(s')
  {
  }

  lemma JoinFrame(s: State, c: ConsumerId, op: JoinOp)
    requires c < |s.cons|
    ensures SameFrame(s, JoinStep(s, c, op))
  {
    hide Headers;
    hide PacketsOf;
    hide PacketOf;
    hide Announced;
  }

  lemma TodosUpdate(s: State, s': State, c: ConsumerId)
    requires TodosKept(s) && s'.mem.kept == s.mem.kept && c < |s.cons|
    requires |s'.cons| == |s.cons| && s'.cons == s.cons[c := s'.cons[c]]
    requires KeptTodo(s.mem, Todo(s'.cons[c].join))
    ensures TodosKept(s')
  {
    forall i | 0 <= i < |s'.cons|
      ensures KeptTodo(s'.mem, Todo(s'.cons[i].join))
    {
      assert KeptTodo(s.mem, Todo(s.cons[i].join));
    }
  }

  lemma JoinShape(s: State, c: ConsumerId, op: JoinOp)
    requires c < |s.cons|
    ensures var s' := JoinStep(s, c, op);
      s'.mem.kept == s.mem.kept && |s'.cons| == |s.cons| && s'.cons == s.cons[c := s'.cons[c]]
  {
    hide Headers;
    hide PacketsOf;
    hide PacketOf;
    hide Announced;
  }

  /** Nothing is added to what a consumer has still to be sent, but the headers. */
  lemma JoinTodoShape(s: State, c: ConsumerId, op: JoinOp)
    requires c < |s.cons|
    ensures |JoinStep(s, c, op).cons| == |s.cons|
    ensures var todo, todo' := Todo(s.cons[c].join), Todo(JoinStep(s, c, op).cons[c].join);
      todo' == todo || todo' == Headers(s) || todo' == [] || (todo != [] && todo' == todo[1..])
  {
    hide Headers;
    hide PacketsOf;
    hide PacketOf;
    hide Announced;
  }

  lemma JoinTodos(s: State, c: ConsumerId, op: JoinOp)
    requires HoldsOk(s) && c < |s.cons|
    ensures TodosKept(JoinStep(s, c, op))
  {
    HeadersAreKept(s);
    hide Headers;
    assert KeptTodo(s.mem, Todo(s.cons[c].join));
    JoinShape(s, c, op);
    JoinTodoShape(s, c, op);
    hide JoinStep;
    hide Todo;
    TodosUpdate(s, JoinStep(s, c, op), c);
  }

  ghost predicate SameBuffer(mem: Memory, mem': Memory, b: BufId) {
    mem'.Refs(b) == mem.Refs(b) && mem'.Bytes(b) == mem.Bytes(b) && mem'.Room(b) == mem.Room(b)
  }

  /** No other thread touches the buffer that the session fills. */
  lemma JoinSparesFilling(s: State, c: ConsumerId, op: JoinOp)
    requires Accounted(s) && HoldsOk(s) && c < |s.cons| && s.sess.Filling?
    ensures SameBuffer(s.mem, JoinStep(s, c, op).mem, s.sess.buf)
  {
    hide Count;
    hide AllHold;
    hide Headers;
    ConsumerHeld(s, c, s.sess.buf);
    assert KeptTodo(s.mem, Todo(s.cons[c].join));
  }

  lemma JoinKeepsMemory(s: State, c: ConsumerId, op: JoinOp)
    requires MemoryOk(s) && c < |s.cons|
    ensures MemoryOk(JoinStep(s, c, op))
  {
    JoinAccounts(s, c, op);
    JoinTodos(s, c, op);
    JoinFrame(s, c, op);
    if s.sess.Filling? {
      JoinSparesFilling(s, c, op);
    }
    hide JoinStep;
    HoldsFrame(s, JoinStep(s, c, op));
  }

  // ---- The reader ----

  lemma ReceiveAccounts(s: State, c: ConsumerId)
    requires MemoryOk(s) && c < |s.cons|
    ensures var s' := ReaderStep(s, c, Receive); Accounted(s') && PoolsOk(s'.mem)
  {
    hide PoolsOk;
    hide AllHold;
    var s' := ReaderStep(s, c, Receive);
    if s' != s {
      ConsumerChange(s, s', c, s'.cons[c], 0, 0);
    }
  }

  lemma WriteEndAccounts(s: State, c: ConsumerId, op: ReaderOp)
    requires MemoryOk(s) && c < |s.cons| && (op.WriteDone? || op.WriteFail?)
    ensures var s' := ReaderStep(s, c, op); Accounted(s') && PoolsOk(s'.mem)
  {
    hide PoolsOk;
    hide AllHold;
    hide Count;
    hide WireOf;
    var s', r := ReaderStep(s, c, op), s.cons[c];
    if s' != s {
      var b := r.reader.mesg.data;
      ConsumerHeld(s, c, b);
      ReleaseOk(s.mem, b);
      ConsumerChange(s, s', c, s'.cons[c], b, -1);
    }
  }

  lemma DrainAccounts(s: State, c: ConsumerId)
    requires MemoryOk(s) && c < |s.cons|
    ensures var s' := ReaderStep(s, c, Drain); Accounted(s') && PoolsOk(s'.mem)
  {
    hide PoolsOk;
    hide AllHold;
    var s', r := ReaderStep(s, c, Drain), s.cons[c];
    if s' != s {
      var b := r.queue[0].data;
      ConsumerHeld(s, c, b);
      ReleaseOk(s.mem, b);
      ConsumerChange(s, s', c, s'.cons[c], b, -1);
    }
  }

  lemma ReaderAccounts(s: State, c: ConsumerId, op: ReaderOp)
    requires MemoryOk(s) && c < |s.cons|
    ensures var s' := ReaderStep(s, c, op); Accounted(s') && PoolsOk(s'.mem)
  {
    hide PoolsOk;
    hide AllHold;
    hide Count;
    hide WireOf;
    hide HoldsOk;
    match op
    case Receive => ReceiveAccounts(s, c);
    case Drain => DrainAccounts(s, c);
    case WriteDone => WriteEndAccounts(s, c, op);
    case WriteFail => WriteEndAccounts(s, c, op);
    case _ =>
      var s' := ReaderStep(s, c, op);
      if s' != s {
        ConsumerChange(s, s', c, s'.cons[c], 0, 0);
      }
  }

  lemma ReaderSparesFilling(s: State, c: ConsumerId, op: ReaderOp)
    requires Accounted(s) && HoldsOk(s) && c < |s.cons| && s.sess.Filling?
    ensures SameBuffer(s.mem, ReaderStep(s, c, op).mem, s.sess.buf)
  {
    hide AllHold;
    hide WireOf;
    ConsumerHeld(s, c, s.sess.buf);
  }

  lemma ReaderFrame(s: State, c: ConsumerId, op: ReaderOp)
    requires c < |s.cons|
    ensures SameFrame(s, ReaderStep(s, c, op))
  {
    hide WireOf;
    hide PacketOf;
  }

  lemma ReaderJoins(s: State, c: ConsumerId, op: ReaderOp)
    requires c < |s.cons|
    ensures var s' := ReaderStep(s, c, op);
      |s'.cons| == |s.cons| && forall i :: 0 <= i < |s.cons| ==> s'.cons[i].join == s.cons[i].join
  {
    hide WireOf;
    hide PacketOf;
  }

  lemma SameJoins(s: State, s': State)
    requires TodosKept(s) && |s'.cons| == |s.cons| && s.mem.kept <= s'.mem.kept
    requires forall i :: 0 <= i < |s.cons| ==> s'.cons[i].join == s.cons[i].join
    ensures TodosKept(s')
  {
    forall i | 0 <= i < |s'.cons|
      ensures KeptTodo(s'.mem, Todo(s'.cons[i].join))
    {
      assert KeptTodo(s.mem, Todo(s.cons[i].join));
    }
  }

  lemma ReaderKeepsMemory(s: State, c: ConsumerId, op: ReaderOp)
    requires MemoryOk(s) && c < |s.cons|
    ensures MemoryOk(ReaderStep(s, c, op))
  {
    ReaderAccounts(s, c, op);
    ReaderFrame(s, c, op);
    ReaderJoins(s, c, op);
    SameJoins(s, ReaderStep(s, c, op));
    if s.sess.Filling? {
      ReaderSparesFilling(s, c, op);
    }
    hide ReaderStep;
    HoldsFrame(s, ReaderStep(s, c, op));
  }

  // ---- The session ----

  lemma TakePools(mem: Memory, b: BufId)
    requires PoolsOk(mem) && mem.pooled[b] > 0
    ensures b < |mem.heap| && PoolsOk(mem.(pooled := mem.pooled - multiset{b}).Acquire(b, 1))
  {
    var m := mem.(pooled := mem.pooled - multiset{b}).Acquire(b, 1);
    forall x | 0 <= x < |m.heap|
      ensures BufferOk(m, x)
    {
      assert BufferOk(mem, x);
    }
  }

  lemma NewPools(mem: Memory, pool: Pool)
    requires PoolsOk(mem) && mem.kept[|mem.heap|] == 0
    ensures PoolsOk(mem.(heap := mem.heap + [Buf(pool, PoolSize(pool), [], 1)]))
  {
    var m := mem.(heap := mem.heap + [Buf(pool, PoolSize(pool), [], 1)]);
    assert mem.pooled[|mem.heap|] == 0;
    forall x | 0 <= x < |m.heap|
      ensures BufferOk(m, x)
    {
      if x < |mem.heap| {
        assert BufferOk(mem, x);
      }
    }
  }

  lemma GetPools(mem: Memory, pool: Pool, pick: Option<BufId>)
    requires PoolsOk(mem) && mem.kept[|mem.heap|] == 0
    ensures PoolsOk(mem.Get(pool, pick).0)
  {
    NewPools(mem, pool);
    if pick.Some? && mem.pooled[pick.value] > 0 {
      TakePools(mem, pick.value);
    }
    hide PoolsOk;
  }

  lemma GetOk(mem: Memory, pool: Pool, pick: Option<BufId>)
    requires PoolsOk(mem) && mem.kept[|mem.heap|] == 0
    ensures var (m, b) := mem.Get(pool, pick);
      && PoolsOk(m) && m.kept == mem.kept && SameLosses(mem, m) && m.overReleased == mem.overReleased
      && mem.Refs(b) == 0
      && (forall x: BufId :: m.Refs(x) == mem.Refs(x) + if x == b then 1 else 0)
  {
    GetPools(mem, pool, pick);
    assert pick.Some? && mem.pooled[pick.value] > 0 ==> mem.heap[pick.value].refs == 0;
    hide PoolsOk;
  }

  lemma HoldOk(mem: Memory, pool: Pool, bytes: seq<byte>)
    requires PoolsOk(mem) && |bytes| <= Ingest.VIDEO_BUFFER
    ensures var (m, b) := mem.Hold(pool, bytes);
      && PoolsOk(m) && SameLosses(mem, m) && m.overReleased == mem.overReleased
      && m.kept == mem.kept + multiset{b} && m.Bytes(b) == bytes && b == |mem.heap|
      && (forall x: BufId :: m.Refs(x) == mem.Refs(x) + if x == b then 1 else 0)
  {
    var (m, b) := mem.Hold(pool, bytes);
    forall x | 0 <= x < |m.heap|
      ensures BufferOk(m, x)
    {
      if x < |mem.heap| {
        assert BufferOk(mem, x);
      }
    }
  }

  /** The holdings outside the consumers change by delta on one buffer, and its count with them. */
  lemma SessionChange(s: State, s': State, b: BufId, delta: int)
    requires Accounted(s) && (forall x: BufId :: AllHold(s'.cons, x) == AllHold(s.cons, x)) && !s'.mem.overReleased
    requires forall x: BufId :: SessionHolds(s'.sess, x) + s'.mem.kept[x] + s'.mem.Lost(x)
                             == SessionHolds(s.sess, x) + s.mem.kept[x] + s.mem.Lost(x) + if x == b then delta else 0
    requires forall x: BufId :: s'.mem.Refs(x) == s.mem.Refs(x) + if x == b then delta else 0
    ensures Accounted(s')
  {
    hide SessionHolds;
    hide AllHold;
  }

  lemma AcquireAccounts(s: State, pool: Pool, pick: Option<BufId>)
    requires MemoryOk(s) && s.sess.Idle?
    ensures MemoryOk(SessionStep(s, Acquire(pool, pick)))
  {
    var s' := SessionStep(s, Acquire(pool, pick));
    assert s.mem.Refs(|s.mem.heap|) == Holders(s, |s.mem.heap|);
    GetOk(s.mem, pool, pick);
    hide PoolsOk;
    hide AllHold;
    SessionChange(s, s', s'.sess.buf, 1);
    SameJoins(s, s');
  }

  lemma ArmMetaAccounts(s: State, metaData: MetaData)
    requires MemoryOk(s) && s.sess.Idle?
    ensures MemoryOk(SessionStep(s, ArmMeta(metaData)))
  {
    var s' := SessionStep(s, ArmMeta(metaData));
    HoldOk(s.mem, AudioPool, MetaBytes(metaData));
    hide PoolsOk;
    hide AllHold;
    hide MetaBytes;
    SessionChange(s, s', |s.mem.heap|, 1);
    SameJoins(s, s');
  }

  lemma AbortAccounts(s: State)
    requires MemoryOk(s) && s.sess.Filling?
    ensures MemoryOk(SessionStep(s, Abort))
  {
    var s', b := SessionStep(s, Abort), s.sess.buf;
    assert s.mem.Refs(b) == Holders(s, b);
    ReleaseOk(s.mem, b);
    hide PoolsOk;
    hide AllHold;
    SessionChange(s, s', b, -1);
    SameJoins(s, s');
  }

  lemma AbandonAccounts(s: State)
    requires MemoryOk(s) && s.sess.Filling?
    ensures MemoryOk(SessionStep(s, Abandon))
  {
    var s', b := SessionStep(s, Abandon), s.sess.buf;
    assert s.mem.Refs(b) == Holders(s, b);
    hide AllHold;
    SessionChange(s, s', b, 0);
    SameJoins(s, s');
    forall x | 0 <= x < |s'.mem.heap|
      ensures BufferOk(s'.mem, x)
    {
      assert BufferOk(s.mem, x);
    }
  }

  lemma FillingAccounts(s: State, op: SessionOp)
    requires MemoryOk(s) && s.sess.Filling? && !op.Arm?
    ensures MemoryOk(SessionStep(s, op))
  {
    if op.Abort? {
      AbortAccounts(s);
    } else if op.Abandon? {
      AbandonAccounts(s);
    } else if op.Fill? {
      FillOk(s, op.data);
    }
    hide MemoryOk;
  }

  lemma AppendOk(mem: Memory, b: BufId, data: seq<byte>)
    requires PoolsOk(mem) && mem.Refs(b) > 0 && |data| <= mem.Room(b)
    ensures PoolsOk(mem.Append(b, data))
    ensures forall x: BufId :: mem.Append(b, data).Refs(x) == mem.Refs(x)
  {
    var m := mem.Append(b, data);
    forall x | 0 <= x < |m.heap|
      ensures BufferOk(m, x)
    {
      assert BufferOk(mem, x);
    }
  }

  lemma FillOk(s: State, data: seq<byte>)
    requires MemoryOk(s) && s.sess.Filling?
    ensures MemoryOk(SessionStep(s, Fill(data)))
  {
    var s', b := SessionStep(s, Fill(data)), s.sess.buf;
    if |data| <= s.mem.Room(b) {
      AppendOk(s.mem, b, data);
      hide PoolsOk;
      hide AllHold;
      SessionChange(s, s', b, 0);
      SameJoins(s, s');
    }
  }

  lemma RetainOk(s: State, m: Message)
    requires Accounted(s) && PoolsOk(s.mem) && TodosKept(s) && m.data < |s.mem.heap|
    requires m.kind.VideoSeqHdr? || m.kind.AudioSeqHdr?
    ensures var s' := Retain(s, m);
      && Accounted(s') && PoolsOk(s'.mem) && TodosKept(s') && s.mem.kept <= s'.mem.kept
      && (forall b: BufId :: b < |s.mem.heap| ==> s'.mem.Refs(b) == s.mem.Refs(b) && s'.mem.Bytes(b) == s.mem.Bytes(b))
      && (m.kind.VideoSeqHdr? ==> KeptHeader(s'.mem, s'.videoSeqHdr))
      && (m.kind.AudioSeqHdr? ==> KeptHeader(s'.mem, s'.audioSeqHdr))
  {
    var s', b := Retain(s, m), m.data;
    assert BufferOk(s.mem, b);
    HoldOk(s.mem, s.mem.heap[b].pool, s.mem.Bytes(b));
    hide PoolsOk;
    hide AllHold;
    SessionChange(s, s', |s.mem.heap|, 1);
    SameJoins(s, s');
  }

  /** Retaining a header adds a hold and changes nothing else. */
  lemma RetainedOk(s: State, m: Message)
    requires MemoryOk(s) && s.sess == Filling(m.data)
    ensures var r := Retain(s, m);
      && Accounted(r) && PoolsOk(r.mem) && TodosKept(r)
      && r.sess == s.sess && r.cons == s.cons && r.consumers == s.consumers
      && KeptHeader(r.mem, r.videoSeqHdr) && KeptHeader(r.mem, r.audioSeqHdr) && KeptHeader(r.mem, r.meta)
  {
    assert s.mem.Refs(m.data) == Holders(s, m.data);
    if m.kind.VideoSeqHdr? || m.kind.AudioSeqHdr? {
      RetainOk(s, m);
    }
    hide PoolsOk;
    hide AllHold;
  }

  lemma ArmAccounts(s: State, kind: Kind, flags: byte, timestamp: uint32, length: uint32)
    requires MemoryOk(s) && s.sess.Filling?
    ensures MemoryOk(SessionStep(s, Arm(kind, flags, timestamp, length)))
  {
    var s' := SessionStep(s, Arm(kind, flags, timestamp, length));
    var m := Message(kind, flags, timestamp, length, s.sess.buf);
    if !kind.Meta? {
      RetainedOk(s, m);
      hide Retain;
      hide PoolsOk;
      hide AllHold;
      assert Accounted(s') by {
        SessionChange(Retain(s, m), s', 0, 0);
      }
      hide Accounted;
      assert TodosKept(s') by {
        SameJoins(Retain(s, m), s');
      }
      hide TodosKept;
    }
  }

  lemma ArmedHeld(s: State, m: Message, own: bool)
    requires MemoryOk(s)
    requires s.sess == Armed(m, own) || s.sess == Evicting(m, own, {}) || s.sess == Settling(m, own)
    ensures s.mem.Refs(m.data) > 0 && (own ==> s.mem.Refs(m.data) > s.mem.kept[m.data])
  {
    assert s.mem.Refs(m.data) == Holders(s, m.data);
  }

  lemma BeginAccounts(s: State)
    requires MemoryOk(s) && s.sess.Armed?
    ensures MemoryOk(SessionStep(s, Begin))
  {
    var s', m := SessionStep(s, Begin), s.sess.mesg;
    ArmedHeld(s, m, s.sess.own);
    AcquireOk(s.mem, m.data, |s.consumers|);
    hide PoolsOk;
    hide AllHold;
    hide PacketOf;
    assert |s.consumers| == |s.consumers.Keys|;
    SessionChange(s, s', m.data, |s.consumers|);
    SameJoins(s, s');
  }

  lemma {:induction false} CloseAllHolds(cons: seq<Consumer>, which: set<ConsumerId>, b: BufId)
    ensures AllHold(CloseAll(cons, which), b) == AllHold(cons, b)
  {
    if |cons| > 0 {
      var n := |cons| - 1;
      assert CloseAll(cons, which)[..n] == CloseAll(cons[..n], which);
      CloseAllHolds(cons[..n], which, b);
    }
  }

  lemma CloseCounts(s: State, s': State, which: set<ConsumerId>)
    requires Accounted(s) && s'.cons == CloseAll(s.cons, which) && s'.mem == s.mem
    requires forall b: BufId :: SessionHolds(s'.sess, b) == SessionHolds(s.sess, b)
    ensures Accounted(s')
  {
    hide SessionHolds;
    forall b: BufId
      ensures s'.mem.Refs(b) == Holders(s', b)
    {
      CloseAllHolds(s.cons, which, b);
      assert s.mem.Refs(b) == Holders(s, b);
    }
  }

  lemma CloseHolds(s: State, s': State)
    requires HoldsOk(s) && Accounted(s') && PoolsOk(s.mem) && TodosKept(s') && s'.mem == s.mem
    requires s'.videoSeqHdr == s.videoSeqHdr && s'.audioSeqHdr == s.audioSeqHdr && s'.meta == s.meta
    requires s'.consumers.Keys <= s.consumers.Keys && |s'.cons| == |s.cons|
    requires (s.sess.Idle? && s'.sess.Stopped?) || (s.sess.Evicting? && s'.sess == Settling(s.sess.mesg, s.sess.own))
    ensures MemoryOk(s')
  {
    hide Accounted;
    hide PoolsOk;
    hide TodosKept;
    assert forall c :: c in s'.consumers ==> c in s.consumers.Keys;
  }

  lemma CloseSessionHolds(s: State, s': State)
    requires (s.sess.Idle? && s'.sess.Stopped?) || (s.sess.Evicting? && s'.sess == Settling(s.sess.mesg, s.sess.own))
    ensures forall b: BufId :: SessionHolds(s'.sess, b) == SessionHolds(s.sess, b)
  {
  }

  lemma CloseJoins(cons: seq<Consumer>, which: set<ConsumerId>)
    ensures forall i :: 0 <= i < |cons| ==> CloseAll(cons, which)[i].join == cons[i].join
  {
  }

  lemma CloseAccounts(s: State, s': State, which: set<ConsumerId>)
    requires MemoryOk(s) && s'.cons == CloseAll(s.cons, which) && s'.mem == s.mem
    requires s'.videoSeqHdr == s.videoSeqHdr && s'.audioSeqHdr == s.audioSeqHdr && s'.meta == s.meta
    requires s'.consumers.Keys <= s.consumers.Keys
    requires (s.sess.Idle? && s'.sess.Stopped?) || (s.sess.Evicting? && s'.sess == Settling(s.sess.mesg, s.sess.own))
    ensures MemoryOk(s')
  {
    hide AllHold;
    hide PoolsOk;
    hide TodosKept;
    hide Accounted;
    CloseSessionHolds(s, s');
    hide SessionHolds;
    CloseCounts(s, s', which);
    CloseJoins(s.cons, which);
    hide CloseAll;
    SameJoins(s, s');
    CloseHolds(s, s');
  }

  lemma StopAccounts(s: State)
    requires MemoryOk(s) && s.sess.Idle?
    ensures MemoryOk(SessionStep(s, Stop))
  {
    hide MemoryOk;
    hide CloseAll;
    CloseAccounts(s, SessionStep(s, Stop), s.consumers.Keys);
  }

  lemma EvictAccounts(s: State)
    requires MemoryOk(s) && s.sess.Evicting?
    ensures MemoryOk(SessionStep(s, Evict))
  {
    hide MemoryOk;
    hide CloseAll;
    CloseAccounts(s, SessionStep(s, Evict), s.sess.refused);
  }

  lemma SettleAccounts(s: State)
    requires MemoryOk(s) && s.sess.Settling?
    ensures MemoryOk(SessionStep(s, Settle))
  {
    var s', m := SessionStep(s, Settle), s.sess.mesg;
    ArmedHeld(s, m, s.sess.own);
    if s.sess.own {
      ReleaseOk(s.mem, m.data);
    }
    hide PoolsOk;
    hide AllHold;
    SessionChange(s, s', m.data, if s.sess.own then -1 else 0);
    SameJoins(s, s');
  }

  /** A consumer takes over one of the references acquired for the round. */
  lemma OfferAccepted(s: State, s': State, c: ConsumerId, r: Consumer, b: BufId)
    requires Accounted(s) && c < |s.cons| && s'.cons == s.cons[c := r] && s'.mem == s.mem
    requires forall x: BufId :: ConsumerHolds(r, x) == ConsumerHolds(s.cons[c], x) + One(b, x)
    requires forall x: BufId :: SessionHolds(s.sess, x) == SessionHolds(s'.sess, x) + One(b, x)
    ensures Accounted(s')
  {
    hide ConsumerHolds;
    hide SessionHolds;
    forall x: BufId
      ensures s'.mem.Refs(x) == Holders(s', x)
    {
      AllHoldUpdate(s.cons, c, r, x);
      assert s.mem.Refs(x) == Holders(s, x);
    }
  }

  ghost predicate CanOffer(s: State, c: ConsumerId) {
    s.sess.Distributing? && c in s.sess.todo && c in s.consumers && c < |s.cons|
  }

  lemma OfferTakesOne(s: State, c: ConsumerId, refused: set<ConsumerId>)
    requires CanOffer(s, c)
    ensures var Distributing(m, own, todo, _) := s.sess;
      && |todo - {c}| == |todo| - 1
      && (forall x: BufId :: SessionHolds(s.sess, x) == SessionHolds(Distributing(m, own, todo - {c}, refused), x) + One(m.data, x))
  {
  }

  lemma OfferWithheldAccounts(s: State, c: ConsumerId)
    requires MemoryOk(s) && CanOffer(s, c)
    requires Withheld(s.consumers[c], PacketOf(s.mem, s.sess.mesg))
    ensures var s' := Offer(s, c); Accounted(s') && PoolsOk(s'.mem)
  {
    var s', b := Offer(s, c), s.sess.mesg.data;
    OfferTakesOne(s, c, s.sess.refused);
    assert s.mem.Refs(b) == Holders(s, b);
    ReleaseOk(s.mem, b);
    hide PoolsOk;
    hide AllHold;
    hide Withheld;
    hide PacketOf;
    hide SessionHolds;
    SessionChange(s, s', b, -1);
  }

  lemma OfferSentAccounts(s: State, c: ConsumerId)
    requires MemoryOk(s) && CanOffer(s, c)
    requires !Withheld(s.consumers[c], PacketOf(s.mem, s.sess.mesg))
    ensures var s' := Offer(s, c); Accounted(s') && PoolsOk(s'.mem)
  {
    var s', r, m := Offer(s, c), s.cons[c], s.sess.mesg;
    hide PoolsOk;
    hide AllHold;
    hide Withheld;
    hide PacketOf;
    if !r.closed {
      if |r.queue| < s.capacity {
        OfferTakesOne(s, c, s.sess.refused);
        forall x: BufId {
          CountAppend(r.queue, m, x);
        }
        hide Count;
        hide SessionHolds;
        OfferAccepted(s, s', c, s'.cons[c], m.data);
      } else {
        OfferRefusedAccounts(s, c);
      }
    }
  }

  lemma OfferRefusedAccounts(s: State, c: ConsumerId)
    requires MemoryOk(s) && CanOffer(s, c) && !s.cons[c].closed && |s.cons[c].queue| >= s.capacity
    requires !Withheld(s.consumers[c], PacketOf(s.mem, s.sess.mesg))
    ensures var s' := Offer(s, c); Accounted(s') && PoolsOk(s'.mem)
  {
    var s', r, b := Offer(s, c), s.cons[c], s.sess.mesg.data;
    OfferTakesOne(s, c, s.sess.refused + {c});
    forall x | 0 <= x < |s'.mem.heap|
      ensures BufferOk(s'.mem, x)
    {
      assert BufferOk(s.mem, x);
    }
    hide PoolsOk;
    hide Withheld;
    hide PacketOf;
    hide SessionHolds;
    forall x: BufId {
      AllHoldUpdate(s.cons, c, s'.cons[c], x);
    }
    hide AllHold;
    SessionChange(s, s', b, 0);
  }

  lemma OfferFrame(s: State, c: ConsumerId)
    requires CanOffer(s, c)
    ensures var s' := Offer(s, c);
      && s'.mem.kept == s.mem.kept && s'.consumers.Keys == s.consumers.Keys && |s'.cons| == |s.cons|
      && s'.videoSeqHdr == s.videoSeqHdr && s'.audioSeqHdr == s.audioSeqHdr && s'.meta == s.meta
      && (forall i :: 0 <= i < |s.cons| ==> s'.cons[i].join == s.cons[i].join)
      && s'.sess.Distributing? && s'.sess.mesg == s.sess.mesg && s'.sess.own == s.sess.own && s'.sess.todo <= s.sess.todo
  {
    hide Withheld;
    hide PacketOf;
  }

  lemma OfferHolds(s: State, c: ConsumerId)
    requires HoldsOk(s) && CanOffer(s, c)
    ensures HoldsOk(Offer(s, c))
  {
    OfferFrame(s, c);
    hide Offer;
    SameJoins(s, Offer(s, c));
    assert forall i :: i in Offer(s, c).consumers ==> i in s.consumers.Keys;
    hide TodosKept;
  }

  lemma DistributeAccounts(s: State, c: ConsumerId)
    requires MemoryOk(s) && CanOffer(s, c)
    ensures MemoryOk(Offer(s, c))
  {
    if Withheld(s.consumers[c], PacketOf(s.mem, s.sess.mesg)) {
      OfferWithheldAccounts(s, c);
    } else {
      OfferSentAccounts(s, c);
    }
    OfferHolds(s, c);
  }

  lemma EndDistributionAccounts(s: State)
    requires MemoryOk(s) && s.sess.Distributing?
    ensures MemoryOk(SessionStep(s, EndDistribution))
  {
    var s' := SessionStep(s, EndDistribution);
    hide AllHold;
    hide PoolsOk;
    SessionChange(s, s', 0, 0);
    hide Accounted;
    hide TodosKept;
  }

  lemma SessionKeepsMemory(s: State, op: SessionOp)
    requires MemoryOk(s)
    ensures MemoryOk(SessionStep(s, op))
  {
    match s.sess
    case Idle =>
      match op {
        case Acquire(pool, pick) => AcquireAccounts(s, pool, pick);
        case ArmMeta(metaData) => ArmMetaAccounts(s, metaData);
        case Stop => StopAccounts(s);
        case _ =>
      }
    case Filling(_) =>
      match op {
        case Arm(kind, flags, timestamp, length) => ArmAccounts(s, kind, flags, timestamp, length);
        case _ => FillingAccounts(s, op);
      }
    case Armed(_, _) => BeginAccounts(s);
    case Distributing(_, _, _, _) =>
      match op {
        case Distribute(c) => if CanOffer(s, c) { DistributeAccounts(s, c); }
        case EndDistribution => EndDistributionAccounts(s);
        case _ =>
      }
    case Evicting(_, _, _) => EvictAccounts(s);
    case Settling(_, _) => SettleAccounts(s);
    case Stopped =>
  }
}
