/** The theorems about the media path: what holds in every state that any schedule of the session, the
    joining threads and the writer threads can reach. */
module Runs {
  import opened Prelude
  import opened Wire
  import opened Packets
  import opened Machine
  import opened Accounting
  import opened Contents
  import opened History
  import opened HeaderHistory

  ghost predicate Inv(s: State) {
    MemoryOk(s) && ContentOk(s) && HistoryOk(s) && HeadersOk(s)
  }

  ghost predicate Reachable(s: State) {
    exists capacity: nat, steps: seq<Step> :: s == Run(Start(capacity), steps)
  }

  lemma StartOk(capacity: nat)
    ensures Inv(Start(capacity))
  {
  }

  lemma JoinKeeps(s: State, c: ConsumerId, op: JoinOp)
    requires Inv(s) && c < |s.cons|
    ensures Inv(JoinStep(s, c, op))
  {
    hide JoinStep;
    hide MemoryOk;
    hide ContentOk;
    hide HeadersOk;
    JoinKeepsMemory(s, c, op);
    JoinKeepsContent(s, c, op);
    JoinKeepsHistory(s, c, op);
    assert LifeOk(JoinStep(s, c, op), c) by {
      assert |JoinStep(s, c, op).cons| == |s.cons| by {
        JoinFrameOthers(s, c, op);
      }
    }
    JoinKeepsHeaders(s, c, op);
  }

  /** The invariant is kept by every step of every thread. */
  lemma StepKeeps(s: State, step: Step)
    requires Inv(s)
    ensures Inv(Next(s, step))
  {
    hide JoinStep;
    hide ReaderStep;
    hide SessionStep;
    hide MemoryOk;
    hide ContentOk;
    hide HistoryOk;
    hide HeadersOk;
    match step
    case Create =>
      CreateKeeps(s);
      SpawnKeepsHistory(s, step);
      SpawnKeepsHeaders(s, step);
    case Collect(b) =>
      CollectKeeps(s, b);
      SpawnKeepsHistory(s, step);
      SpawnKeepsHeaders(s, step);
    case Joining(c, op) =>
      if c < |s.cons| {
        JoinKeeps(s, c, op);
      }
    case Reading(c, op) =>
      if c < |s.cons| {
        ReaderKeepsMemory(s, c, op);
        ReaderKeepsContent(s, c, op);
        ReaderKeepsHistory(s, c, op);
        ReaderKeepsHeaders(s, c, op);
      }
    case Publishing(op) =>
      SessionKeepsMemory(s, op);
      SessionKeepsContent(s, op);
      SessionKeepsHistory(s, op);
      SessionKeepsHeaders(s, op);
  }

  lemma SpawnKeepsHeaders(s: State, step: Step)
    requires MemoryOk(s) && HeadersOk(s) && (step.Create? || step.Collect?)
    ensures HeadersOk(Next(s, step))
  {
    var s' := Next(s, step);
    assert Announced(s') == Announced(s);
    hide Announced;
    hide Latest;
    hide InitialPackets;
    forall i | 0 <= i < |s'.cons|
      ensures SnapshotOk(Announced(s'), s'.cons[i])
    {
      if i < |s.cons| {
        assert SnapshotOk(Announced(s), s.cons[i]);
      }
    }
  }

  lemma {:induction false} RunKeeps(s: State, steps: seq<Step>)
    requires Inv(s)
    ensures Inv(Run(s, steps))
  {
    if |steps| > 0 {
      RunKeeps(s, steps[..|steps| - 1]);
      StepKeeps(Run(s, steps[..|steps| - 1]), steps[|steps| - 1]);
    }
  }

  lemma ReachableInv(s: State)
    requires Reachable(s)
    ensures Inv(s)
  {
    hide Inv;
    var capacity: nat, steps: seq<Step> :| s == Run(Start(capacity), steps);
    StartOk(capacity);
    RunKeeps(Start(capacity), steps);
  }

  lemma ReachableNext(s: State, step: Step)
    requires Reachable(s)
    ensures Reachable(Next(s, step))
  {
    hide Next;
    var capacity: nat, steps: seq<Step> :| s == Run(Start(capacity), steps);
    assert (steps + [step])[..|steps|] == steps;
    assert Next(s, step) == Run(Start(capacity), steps + [step]);
  }

  // ---- References and pools ----

  /** Neither panic is ever reached, and no consumer is turned away as existing already. */
  lemma NoPanic(s: State)
    requires Reachable(s)
    ensures !s.mem.overReleased && !s.sentOnClosed
    ensures forall c :: 0 <= c < |s.cons| ==> !s.cons[c].join.Rejected?
  {
    ReachableInv(s);
    forall c | 0 <= c < |s.cons|
      ensures !s.cons[c].join.Rejected?
    {
      assert LifeOk(s, c);
    }
  }

  /** The reference count is the number of holders, always. */
  lemma ExactReferences(s: State, b: BufId)
    requires Reachable(s)
    ensures s.mem.Refs(b) == SessionHolds(s.sess, b) + s.mem.kept[b] + s.mem.Lost(b) + AllHold(s.cons, b)
  {
    ReachableInv(s);
    assert s.mem.Refs(b) == Holders(s, b);
  }

  /** A buffer is back in its pool, once, or was collected from it, exactly when nobody holds it: not the
      session, not a consumer, not as a retained header, and no reference to it was lost. */
  lemma ReturnedExactly(s: State, b: BufId)
    requires Reachable(s) && b < |s.mem.heap|
    ensures s.mem.pooled[b] <= 1
    ensures s.mem.pooled[b] == 1 || b in s.mem.vanished
        <==> SessionHolds(s.sess, b) == 0 && AllHold(s.cons, b) == 0 && s.mem.kept[b] == 0 && s.mem.Lost(b) == 0
  {
    ReachableInv(s);
    assert s.mem.Refs(b) == Holders(s, b);
    assert BufferOk(s.mem, b);
  }

  /** The session is between messages or over, and no consumer has anything queued, in writing or on offer. */
  ghost predicate AtRest(s: State) {
    && (s.sess.Idle? || s.sess.Stopped?)
    && forall c :: 0 <= c < |s.cons| ==>
         s.cons[c].queue == [] && !s.cons[c].reader.Writing? && !s.cons[c].join.Offering? && !s.cons[c].join.Refused?
  }

  lemma {:induction false} NothingHeld(cons: seq<Consumer>, b: BufId)
    requires forall c :: 0 <= c < |cons| ==>
      cons[c].queue == [] && !cons[c].reader.Writing? && !cons[c].join.Offering? && !cons[c].join.Refused?
    ensures AllHold(cons, b) == 0
  {
    if |cons| > 0 {
      NothingHeld(cons[..|cons| - 1], b);
    }
  }

  /** When all is at rest, the buffers that did not come back are the retained ones, those of a refused
      send, and those that the session forgot: no others. */
  lemma AllReturned(s: State, b: BufId)
    requires Reachable(s) && AtRest(s) && b < |s.mem.heap|
    ensures s.mem.pooled[b] == 1 || b in s.mem.vanished
        <==> s.mem.kept[b] == 0 && s.mem.unpaid[b] == 0 && s.mem.forgotten[b] == 0
  {
    hide Reachable;
    hide AllHold;
    NothingHeld(s.cons, b);
    ReturnedExactly(s, b);
    hide AtRest;
  }

  /** Steps make no buffer vanish, and new buffers are held by somebody. */
  ghost predicate HeapGrows(mem: Memory, mem': Memory) {
    && mem'.vanished == mem.vanished && |mem.heap| <= |mem'.heap|
    && forall b :: |mem.heap| <= b < |mem'.heap| ==> mem'.heap[b].refs > 0
  }

  lemma JoinHeap(s: State, c: ConsumerId, op: JoinOp)
    requires c < |s.cons|
    ensures HeapGrows(s.mem, JoinStep(s, c, op).mem)
  {
    hide PacketOf;
    hide PacketsOf;
    hide Headers;
    hide Announced;
  }

  lemma ReaderHeap(s: State, c: ConsumerId, op: ReaderOp)
    requires c < |s.cons|
    ensures HeapGrows(s.mem, ReaderStep(s, c, op).mem)
  {
    ReaderMemory(s, c, op);
    hide ReaderStep;
  }

  lemma OfferHeap(s: State, c: ConsumerId)
    requires CanOffer(s, c)
    ensures HeapGrows(s.mem, Offer(s, c).mem)
  {
    hide PacketOf;
    hide Withheld;
  }

  lemma RetainHeap(s: State, m: Message)
    ensures HeapGrows(s.mem, Retain(s, m).mem)
  {
  }

  lemma IdleHeap(s: State, op: SessionOp)
    requires s.sess.Idle?
    ensures HeapGrows(s.mem, SessionStep(s, op).mem)
  {
    hide MetaBytes;
    hide CloseAll;
  }

  lemma FillingHeap(s: State, op: SessionOp)
    requires s.sess.Filling?
    ensures HeapGrows(s.mem, SessionStep(s, op).mem)
  {
    if op.Arm? {
      RetainHeap(s, Message(op.kind, op.flags, op.timestamp, op.length, s.sess.buf));
    }
    hide Retain;
  }

  lemma SessionHeap(s: State, op: SessionOp)
    ensures HeapGrows(s.mem, SessionStep(s, op).mem)
  {
    if s.sess.Idle? {
      IdleHeap(s, op);
      hide SessionStep;
    } else if s.sess.Filling? {
      FillingHeap(s, op);
      hide SessionStep;
    } else if op.Distribute? && CanOffer(s, op.c) {
      OfferHeap(s, op.c);
      hide Offer;
    } else {
      hide Offer;
      hide PacketOf;
      hide CloseAll;
    }
  }

  lemma StepHeap(s: State, step: Step)
    requires !step.Collect?
    ensures HeapGrows(s.mem, Next(s, step).mem)
  {
    match step
    case Joining(c, op) => if c < |s.cons| { JoinHeap(s, c, op); }
    case Reading(c, op) => if c < |s.cons| { ReaderHeap(s, c, op); }
    case Publishing(op) => SessionHeap(s, op);
    case _ =>
    hide JoinStep;
    hide ReaderStep;
    hide SessionStep;
  }

  /** A buffer goes back into its pool once for each time it was taken: in the very step that gives back its
      last reference, and in no other. */
  lemma ReturnedAtLastRelease(s: State, step: Step, b: BufId)
    requires Reachable(s)
    ensures var s' := Next(s, step);
      && s'.mem.pooled[b] <= s.mem.pooled[b] + 1
      && (s'.mem.pooled[b] > s.mem.pooled[b] <==> s.mem.Refs(b) > 0 && s'.mem.Refs(b) == 0)
  {
    ReachableInv(s);
    if !step.Collect? {
      StepKeeps(s, step);
      StepHeap(s, step);
      hide Next;
      PooledExactly(s, b);
      PooledExactly(Next(s, step), b);
    }
  }

  lemma PooledExactly(s: State, b: BufId)
    requires Inv(s)
    ensures s.mem.Refs(b) >= 0 && s.mem.pooled[b] <= 1
    ensures s.mem.pooled[b] == 1 || b in s.mem.vanished <==> b < |s.mem.heap| && s.mem.Refs(b) == 0
    ensures b in s.mem.vanished ==> s.mem.pooled[b] == 0
  {
    assert s.mem.Refs(b) == Holders(s, b);
    if b < |s.mem.heap| {
      assert BufferOk(s.mem, b);
    }
  }

  /** What the pool hands out is empty, full-sized, and in nobody's hands. */
  lemma AcquiredIsFree(s: State, pool: Pool, pick: Option<BufId>)
    requires Reachable(s) && s.sess.Idle?
    ensures var s' := SessionStep(s, Acquire(pool, pick));
      && s'.sess.Filling? && Holders(s, s'.sess.buf) == 0
      && s'.mem.Bytes(s'.sess.buf) == [] && s'.mem.Room(s'.sess.buf) == PoolSize(pool)
      && s'.mem.pooled[s'.sess.buf] == 0
  {
    ReachableInv(s);
    var s' := SessionStep(s, Acquire(pool, pick));
    var b := s'.sess.buf;
    assert s.mem.Refs(b) == Holders(s, b);
    if b < |s.mem.heap| {
      assert BufferOk(s.mem, b);
    }
  }

  /** No premature reuse: what is queued, being written or being filled is in no pool, and what is queued
      or being written still has the bytes it had when it was accepted. */
  lemma NoPrematureReuse(s: State, c: ConsumerId)
    requires Reachable(s) && c < |s.cons|
    ensures var r := s.cons[c];
      && (forall i :: 0 <= i < |r.queue| ==>
            s.mem.pooled[r.queue[i].data] == 0
            && |r.queue| <= |r.accepted| && PacketOf(s.mem, r.queue[i]) == r.accepted[|r.accepted| - |r.queue| + i])
      && (r.reader.Writing? ==>
            s.mem.pooled[r.reader.mesg.data] == 0
            && r.released < |r.accepted| && PacketOf(s.mem, r.reader.mesg) == r.accepted[r.released])
    ensures s.sess.Filling? ==> s.mem.pooled[s.sess.buf] == 0 && s.mem.Refs(s.sess.buf) == 1
  {
    ReachableInv(s);
    var r := s.cons[c];
    assert ConsumerOk(s.mem, r);
    forall i | 0 <= i < |r.queue|
      ensures s.mem.pooled[r.queue[i].data] == 0
    {
      CountHas(r.queue, i);
      ConsumerHeld(s, c, r.queue[i].data);
    }
    if r.reader.Writing? {
      ConsumerHeld(s, c, r.reader.mesg.data);
    }
  }

  lemma JoinLedger(s: State, c: ConsumerId, op: JoinOp)
    requires c < |s.cons|
    ensures JoinStep(s, c, op).mem.kept == s.mem.kept && SameLosses(s.mem, JoinStep(s, c, op).mem)
  {
    hide PacketOf;
    hide PacketsOf;
    hide Headers;
    hide Announced;
  }

  lemma ReaderLedger(s: State, c: ConsumerId, op: ReaderOp)
    requires c < |s.cons|
    ensures ReaderStep(s, c, op).mem.kept == s.mem.kept && SameLosses(s.mem, ReaderStep(s, c, op).mem)
  {
    hide PacketOf;
    hide WireOf;
  }

  /** A full queue refuses a message that the gate lets through. */
  ghost predicate Refuses(s: State, op: SessionOp) {
    && op.Distribute? && CanOffer(s, op.c)
    && !Withheld(s.consumers[op.c], PacketOf(s.mem, s.sess.mesg))
    && !s.cons[op.c].closed && |s.cons[op.c].queue| >= s.capacity
  }

  /** The session drops the buffer it was filling. */
  ghost predicate Forgets(s: State, op: SessionOp) {
    op.Abandon? && s.sess.Filling?
  }

  lemma OfferLedger(s: State, c: ConsumerId)
    requires CanOffer(s, c)
    ensures var s', refuses := SessionStep(s, Distribute(c)), Refuses(s, Distribute(c));
      && s'.mem.unpaid == s.mem.unpaid + (if refuses then multiset{s.sess.mesg.data} else multiset{})
      && s'.mem.forgotten == s.mem.forgotten && s'.mem.kept == s.mem.kept
  {
    hide PacketOf;
    hide Withheld;
  }

  lemma IdleLedger(s: State, op: SessionOp)
    requires s.sess.Idle?
    ensures SameLosses(s.mem, SessionStep(s, op).mem)
  {
    hide MetaBytes;
    hide CloseAll;
  }

  lemma FillingLedger(s: State, op: SessionOp)
    requires s.sess.Filling?
    ensures var s' := SessionStep(s, op);
      && s'.mem.unpaid == s.mem.unpaid
      && s'.mem.forgotten == s.mem.forgotten + (if Forgets(s, op) then multiset{s.sess.buf} else multiset{})
  {
  }

  lemma SessionLedger(s: State, op: SessionOp)
    ensures var s' := SessionStep(s, op);
      && s'.mem.unpaid == s.mem.unpaid + (if Refuses(s, op) then multiset{s.sess.mesg.data} else multiset{})
      && s'.mem.forgotten == s.mem.forgotten + (if Forgets(s, op) then multiset{s.sess.buf} else multiset{})
  {
    if s.sess.Idle? {
      IdleLedger(s, op);
      hide SessionStep;
    } else if s.sess.Filling? {
      FillingLedger(s, op);
      hide SessionStep;
    } else if op.Distribute? && CanOffer(s, op.c) {
      OfferLedger(s, op.c);
      hide SessionStep;
    } else {
      hide Offer;
      hide PacketOf;
      hide CloseAll;
      hide Withheld;
    }
  }

  /** References are lost at two steps only, exactly one each time: a refusal, and a buffer dropped by the
      session. Retained holds are never given back. */
  lemma LedgerGrows(s: State, step: Step)
    ensures s.mem.kept <= Next(s, step).mem.kept
    ensures Next(s, step).mem.unpaid == s.mem.unpaid
      + (if step.Publishing? && Refuses(s, step.op) then multiset{s.sess.mesg.data} else multiset{})
    ensures Next(s, step).mem.forgotten == s.mem.forgotten
      + (if step.Publishing? && Forgets(s, step.op) then multiset{s.sess.buf} else multiset{})
  {
    match step
    case Joining(c, op) =>
      if c < |s.cons| {
        JoinLedger(s, c, op);
        hide JoinStep;
      }
    case Reading(c, op) =>
      if c < |s.cons| {
        ReaderLedger(s, c, op);
        hide ReaderStep;
      }
    case Publishing(op) =>
      SessionLedger(s, op);
      KeptStays(s, op);
      hide SessionStep;
    case _ =>
  }

  lemma StepBytesStay(s: State, step: Step)
    ensures BytesStay(s, Next(s, step))
  {
    match step
    case Joining(c, op) =>
      if c < |s.cons| {
        JoinBytesStay(s, c, op);
        hide JoinStep;
      }
    case Reading(c, op) =>
      if c < |s.cons| {
        ReaderBytesStay(s, c, op);
        hide ReaderStep;
      }
    case Publishing(op) =>
      SessionBytesStay(s, op);
      hide SessionStep;
    case _ =>
  }

  /** Retained headers are immortal: once retained, a buffer keeps a reference and its bytes in every
      later state, and never enters a pool, even when another header has replaced it. */
  lemma {:induction false} RetainedForever(s: State, steps: seq<Step>, b: BufId)
    requires Inv(s) && s.mem.kept[b] > 0
    ensures var s' := Run(s, steps);
      && s'.mem.kept[b] > 0 && s'.mem.Refs(b) > 0 && s'.mem.pooled[b] == 0
      && s'.mem.Bytes(b) == s.mem.Bytes(b)
  {
    RunKeeps(s, steps);
    var s' := Run(s, steps);
    if |steps| > 0 {
      var before, step := Run(s, steps[..|steps| - 1]), steps[|steps| - 1];
      RetainedForever(s, steps[..|steps| - 1], b);
      RunKeeps(s, steps[..|steps| - 1]);
      LedgerGrows(before, step);
      StepBytesStay(before, step);
      hide Next;
      KeptBytesStay(before, s', b);
    }
    assert s'.mem.Refs(b) == Holders(s', b);
  }

  /** A lost reference, of a refused send or of a unit without a body, keeps its buffer from its pool for good. */
  lemma {:induction false} LostForever(s: State, steps: seq<Step>, b: BufId)
    requires Inv(s) && s.mem.Lost(b) > 0
    ensures var s' := Run(s, steps); s'.mem.Lost(b) > 0 && s'.mem.pooled[b] == 0 && s'.mem.Refs(b) > 0
  {
    RunKeeps(s, steps);
    var s' := Run(s, steps);
    if |steps| > 0 {
      LostForever(s, steps[..|steps| - 1], b);
      LedgerGrows(Run(s, steps[..|steps| - 1]), steps[|steps| - 1]);
    }
    assert s'.mem.Refs(b) == Holders(s', b);
  }

  // ---- Queues ----

  ghost predicate QueuesFit(s: State) {
    forall c :: 0 <= c < |s.cons| ==> |s.cons[c].queue| <= s.capacity
  }

  lemma JoinKeepsQueues(s: State, c: ConsumerId, op: JoinOp)
    requires c < |s.cons| && |s.cons[c].queue| <= s.capacity
    ensures JoinStep(s, c, op).capacity == s.capacity && |JoinStep(s, c, op).cons[c].queue| <= s.capacity
  {
    hide PacketOf;
    hide PacketsOf;
    hide Headers;
    hide Announced;
  }

  lemma ReaderKeepsQueues(s: State, c: ConsumerId, op: ReaderOp)
    requires c < |s.cons| && |s.cons[c].queue| <= s.capacity
    ensures ReaderStep(s, c, op).capacity == s.capacity && |ReaderStep(s, c, op).cons[c].queue| <= s.capacity
  {
    hide PacketOf;
    hide WireOf;
  }

  lemma OfferKeepsQueues(s: State, c: ConsumerId)
    requires CanOffer(s, c) && QueuesFit(s)
    ensures Offer(s, c).capacity == s.capacity && QueuesFit(Offer(s, c))
  {
    hide PacketOf;
    hide Withheld;
  }

  lemma SessionKeepsCapacity(s: State, op: SessionOp)
    ensures SessionStep(s, op).capacity == s.capacity
  {
    hide PacketOf;
    hide MetaBytes;
    hide CloseAll;
    hide Withheld;
  }

  lemma SessionKeepsQueues(s: State, op: SessionOp)
    requires QueuesFit(s)
    ensures QueuesFit(SessionStep(s, op))
  {
    hide SessionStep;
    hide Offer;
    SessionKeepsCapacity(s, op);
    if !op.Distribute? {
      SessionFrame(s, op);
    } else if CanOffer(s, op.c) {
      OfferKeepsQueues(s, op.c);
      OfferIsStep(s, op.c);
    } else {
      NoOffer(s, op.c);
    }
  }

  lemma StepKeepsQueues(s: State, step: Step)
    requires QueuesFit(s)
    ensures QueuesFit(Next(s, step))
  {
    hide JoinStep;
    hide ReaderStep;
    hide SessionStep;
    match step
    case Joining(c, op) =>
      if c < |s.cons| {
        JoinKeepsQueues(s, c, op);
        JoinFrameOthers(s, c, op);
      }
    case Reading(c, op) =>
      if c < |s.cons| {
        ReaderKeepsQueues(s, c, op);
        ReaderFrameOthers(s, c, op);
      }
    case Publishing(op) => SessionKeepsQueues(s, op);
    case _ =>
  }

  lemma {:induction false} RunKeepsQueues(s: State, steps: seq<Step>)
    requires QueuesFit(s)
    ensures QueuesFit(Run(s, steps))
  {
    hide Next;
    if |steps| > 0 {
      RunKeepsQueues(s, steps[..|steps| - 1]);
      StepKeepsQueues(Run(s, steps[..|steps| - 1]), steps[|steps| - 1]);
    }
  }

  /** No queue ever holds more than it has room for. */
  lemma QueueBounded(s: State, c: ConsumerId)
    requires Reachable(s) && c < |s.cons|
    ensures |s.cons[c].queue| <= s.capacity
  {
    var capacity: nat, steps: seq<Step> :| s == Run(Start(capacity), steps);
    RunKeepsQueues(Start(capacity), steps);
    hide Run;
  }

  /** A retained header is refused on joining if and only if the joiner's queue is full, and otherwise queued. */
  lemma HeaderRefusedExactly(s: State, c: ConsumerId)
    requires Reachable(s) && c < |s.cons| && s.cons[c].join.Offering?
    ensures var r, r' := s.cons[c], JoinStep(s, c, OfferHeader).cons[c];
      && r.join.todo != []
      && (r'.join.Refused? <==> |r.queue| == s.capacity)
      && (!r'.join.Refused? ==>
            && r'.join == Sending(r.join.todo[1..]) && r'.queue == r.queue + [r.join.todo[0]]
            && r'.accepted == r.accepted + [PacketOf(s.mem, r.join.todo[0])])
  {
    QueueBounded(s, c);
    ReachableInv(s);
    assert ConsumerOk(s.mem, s.cons[c]) && LifeOk(s, c);
    hide Reachable;
    hide Inv;
    hide PacketOf;
    hide PacketsOf;
  }

  /** Before it is inserted a consumer is given retained headers only, three at most; so a queue with room for
      three never refuses one. */
  lemma HeadersAreFew(s: State, c: ConsumerId)
    requires Reachable(s) && c < |s.cons| && s.cons[c].join.Offering?
    ensures |s.cons[c].queue| < |s.cons[c].snapshot| <= 3
  {
    ReachableInv(s);
    assert ConsumerOk(s.mem, s.cons[c]) && SnapshotOk(Announced(s), s.cons[c]);
    hide Reachable;
    hide Inv;
    hide PacketOf;
    hide Announced;
    hide Latest;
  }

  // ---- What a consumer is given ----

  predicate Inserted(r: Consumer) {
    WasInserted(r.join)
  }

  /** The number of published messages whose fate with this consumer is settled. */
  function End(s: State, c: ConsumerId): nat
    requires c < |s.cons|
  {
    match s.cons[c].endedAt
    case None => |Seen(s, c)|
    case Some(end) => end
  }

  lemma InsertedGiven(s: State, c: ConsumerId)
    requires Reachable(s) && c < |s.cons| && Inserted(s.cons[c])
    ensures var r := s.cons[c];
      && r.joinedAt <= End(s, c) <= |s.log|
      && r.accepted == r.snapshot + Deliver(s.log[..End(s, c)][r.joinedAt..])
      && r.snapshotAt <= |Announced(s)| && r.snapshot == InitialPackets(Announced(s)[..r.snapshotAt])
      && SmallWhole(r.snapshot) && r.snapshotAt <= r.joinedAt + 1
  {
    ReachableInv(s);
    assert LifeOk(s, c) && SnapshotOk(Announced(s), s.cons[c]);
    hide Deliver;
    hide Announced;
    assert s.log[..|s.log|] == s.log;
  }

  /** Gap-free delivery: a consumer that was inserted has accepted the latest metadata and headers at the
      time they were read, and then every message published from its insertion to its first refusal or
      removal that passes the key-frame gate: none missing, none twice, none out of order. */
  lemma GapFree(s: State, c: ConsumerId)
    requires Reachable(s) && c < |s.cons| && Inserted(s.cons[c])
    ensures var r := s.cons[c];
      && r.joinedAt <= End(s, c) <= |s.log| && r.snapshotAt <= |Announced(s)|
      && r.accepted == InitialPackets(Announced(s)[..r.snapshotAt]) + Deliver(s.log[r.joinedAt..End(s, c)])
  {
    InsertedGiven(s, c);
    assert s.log[..End(s, c)][s.cons[c].joinedAt..] == s.log[s.cons[c].joinedAt..End(s, c)];
  }

  /** When the headers that a consumer got are still the latest ones at its insertion: exactly if every kind
      of header that was published between the two lock sections was last published with the same bytes. A
      header read while its message was about to be published is ahead of the log, by that one message. */
  lemma HeadersCurrentExactly(s: State, c: ConsumerId)
    requires Reachable(s) && c < |s.cons| && Inserted(s.cons[c])
    ensures var r := s.cons[c];
      && r.joinedAt <= |s.log| && r.snapshotAt <= r.joinedAt + 1
      && (r.snapshotAt <= r.joinedAt ==>
            (r.snapshot == InitialPackets(s.log[..r.joinedAt])
             <==> NothingNew(s.log[..r.snapshotAt], s.log[r.snapshotAt..r.joinedAt])))
      && (r.snapshotAt > r.joinedAt ==>
            r.joinedAt < |Announced(s)| && r.snapshot == InitialPackets(Announced(s)[..r.joinedAt + 1]))
  {
    InsertedGiven(s, c);
    var r := s.cons[c];
    if r.snapshotAt <= r.joinedAt {
      assert Announced(s)[..r.snapshotAt] == s.log[..r.snapshotAt];
      assert s.log[..r.joinedAt] == s.log[..r.snapshotAt] + s.log[r.snapshotAt..r.joinedAt];
      CurrentExactly(s.log[..r.snapshotAt], s.log[r.snapshotAt..r.joinedAt]);
    }
    hide *;
  }

  /** One and the same message reached a consumer as a retained header and again as a published message. */
  ghost predicate HeaderDoubled(s: State, c: ConsumerId)
    requires c < |s.cons| && s.cons[c].snapshotAt <= |Announced(s)|
  {
    exists kind :: IsHeader(kind) && DoubledAs(s, c, kind)
  }

  ghost predicate DoubledAs(s: State, c: ConsumerId, kind: Kind)
    requires c < |s.cons| && s.cons[c].snapshotAt <= |Announced(s)|
  {
    var at := LatestAt(Announced(s)[..s.cons[c].snapshotAt], kind);
    at.Some? && s.cons[c].joinedAt <= at.value < End(s, c)
  }

  /** The only doubling there is: a header is read while its message is about to be published, and the
      consumer is inserted before it is. */
  lemma HeaderDoubledExactly(s: State, c: ConsumerId)
    requires Reachable(s) && c < |s.cons| && Inserted(s.cons[c])
    ensures var r := s.cons[c];
      && r.snapshotAt <= |Announced(s)| && r.joinedAt <= End(s, c) <= |s.log|
      && (HeaderDoubled(s, c) <==> r.snapshotAt == r.joinedAt + 1 && r.joinedAt < End(s, c) && IsHeader(s.log[r.joinedAt].kind))
  {
    InsertedGiven(s, c);
    var r := s.cons[c];
    var read := Announced(s)[..r.snapshotAt];
    forall kind
      ensures LatestAt(read, kind).Some? ==> read[LatestAt(read, kind).value].kind == kind
    {
      LatestStandsThere(read, kind);
    }
    if r.snapshotAt == r.joinedAt + 1 && r.joinedAt < End(s, c) {
      var p := s.log[r.joinedAt];
      assert read[r.joinedAt] == p;
      assert LatestAt(read, p.kind) == Some(r.joinedAt);
      assert IsHeader(p.kind) ==> DoubledAs(s, c, p.kind);
    }
    hide Reachable;
    hide End;
    hide LatestAt;
    hide Deliver;
    hide InitialPackets;
  }

  /** What the consumer has then: the same payload among the headers and as the first message after them. */
  lemma DoubledMeansTwice(s: State, c: ConsumerId)
    requires Reachable(s) && c < |s.cons| && Inserted(s.cons[c])
    requires s.cons[c].snapshotAt == s.cons[c].joinedAt + 1 && s.cons[c].joinedAt < End(s, c) <= |s.log|
    requires IsHeader(s.log[s.cons[c].joinedAt].kind)
    ensures var r, p := s.cons[c], s.log[s.cons[c].joinedAt];
      && HeaderPacket(p.kind, Some(p.payload))[0] in r.snapshot
      && r.snapshot < r.accepted && r.accepted[|r.snapshot|] == p
  {
    InsertedGiven(s, c);
    var r, p := s.cons[c], s.log[s.cons[c].joinedAt];
    var read, given := Announced(s)[..r.snapshotAt], s.log[..End(s, c)][r.joinedAt..];
    assert read[r.joinedAt] == p && given[0] == p;
    hide Announced;
    hide End;
    hide Reachable;
    assert Latest(read, p.kind) == Some(p.payload);
    hide Latest;
    InitialHas(read, p.kind);
    OtherKindFirst(given);
    hide Deliver;
    hide InitialPackets;
  }

  /** Between messages, a consumer that stays has accepted all that passes its gate. */
  lemma UpToDate(s: State, c: ConsumerId)
    requires Reachable(s) && c < |s.cons| && Inserted(s.cons[c]) && s.cons[c].endedAt.None? && s.sess.Idle?
    ensures s.cons[c].joinedAt <= |s.log|
    ensures s.cons[c].accepted == s.cons[c].snapshot + Deliver(s.log[s.cons[c].joinedAt..])
  {
    ReachableInv(s);
    assert LifeOk(s, c);
  }

  /** The first video message a consumer accepts is the first chunk of a key frame. */
  lemma FirstVideoAccepted(s: State, c: ConsumerId, i: nat)
    requires Reachable(s) && c < |s.cons| && Inserted(s.cons[c])
    requires var acc := s.cons[c].accepted;
      i < |acc| && acc[i].kind.Video? && forall k :: 0 <= k < i ==> !acc[k].kind.Video?
    ensures s.cons[c].accepted[i].IsKeyFrame() && !s.cons[c].accepted[i].IsContinuation()
  {
    InsertedGiven(s, c);
    var r := s.cons[c];
    HeadersAreNoVideo(Announced(s)[..r.snapshotAt]);
    FirstVideoGiven(r.snapshot, s.log[..End(s, c)][r.joinedAt..], i);
    hide *;
  }

  lemma HeadersAreNoVideo(ps: seq<Packet>)
    ensures forall k :: 0 <= k < |InitialPackets(ps)| ==> !InitialPackets(ps)[k].kind.Video?
  {
    hide HeaderHistory.Latest;
  }

  lemma FirstVideoGiven(snapshot: seq<Packet>, given: seq<Packet>, i: nat)
    requires var acc := snapshot + Deliver(given);
      i < |acc| && acc[i].kind.Video? && forall k :: 0 <= k < i ==> !acc[k].kind.Video?
    requires forall k :: 0 <= k < |snapshot| ==> !snapshot[k].kind.Video?
    ensures var p := (snapshot + Deliver(given))[i]; p.IsKeyFrame() && !p.IsContinuation()
  {
    hide Deliver;
    var acc := snapshot + Deliver(given);
    assert forall k :: 0 <= k < |Deliver(given)| ==> Deliver(given)[k] == acc[|snapshot| + k];
    FirstVideoIsKeyFrame(given, i - |snapshot|);
  }

  /** Lifecycle: while the session lives, an inserted consumer is in the map and open, or was refused and
      is about to be evicted, or is out of the map and stopped. */
  lemma Lifecycle(s: State, c: ConsumerId)
    requires Reachable(s) && c < |s.cons| && Inserted(s.cons[c]) && !s.sess.Stopped?
    ensures var r := s.cons[c];
      || (c in s.consumers && !r.closed && r.endedAt.None?)
      || (c in s.consumers && r.endedAt.Some? && BeingEvicted(s, c))
      || (c !in s.consumers && r.closed && r.endedAt.Some?)
    ensures s.sess.Idle? ==> (c in s.consumers <==> !s.cons[c].closed)
  {
    ReachableInv(s);
    assert LifeOk(s, c);
    hide Deliver;
    hide GateOpen;
  }

  /** After a stop that found cs in the map: those are closed for good, and who is inserted later stays open. */
  ghost predicate StoppedWith(s: State, cs: set<ConsumerId>) {
    && s.sess.Stopped?
    && (forall c :: c in cs ==> c < |s.cons|)
    && (forall c :: 0 <= c < |s.cons| ==> StoppedAs(s.cons[c], c in cs))
  }

  ghost predicate StoppedAs(r: Consumer, found: bool) {
    if found then r.join.Left? || (r.join.Member? && r.closed)
    else r.join.Member? && r.endedAt.None? ==> !r.closed
  }

  lemma StopStarts(s: State)
    requires Reachable(s) && s.sess.Idle?
    ensures StoppedWith(Next(s, Publishing(Stop)), s.consumers.Keys)
  {
    ReachableInv(s);
    hide Reachable;
    hide GateOpen;
    hide Given;
    var s' := Next(s, Publishing(Stop));
    forall c | 0 <= c < |s'.cons|
      ensures StoppedAs(s'.cons[c], c in s.consumers.Keys)
    {
      StopsEach(s, c);
    }
  }

  lemma StopsEach(s: State, c: ConsumerId)
    requires Inv(s) && s.sess.Idle? && c < |s.cons|
    ensures StoppedAs(Next(s, Publishing(Stop)).cons[c], c in s.consumers.Keys)
  {
    assert OnlyMembers(s) && LifeOk(s, c);
    StopShape(s, c);
    hide Next;
    hide Inv;
    hide Given;
    hide GateOpen;
  }

  lemma StopShape(s: State, c: ConsumerId)
    requires s.sess.Idle? && c < |s.cons|
    ensures |Next(s, Publishing(Stop)).cons| == |s.cons|
    ensures Next(s, Publishing(Stop)).cons[c] == if c in s.consumers then s.cons[c].(closed := true) else s.cons[c]
  {
  }

  lemma JoinStopped(s: State, c: ConsumerId, op: JoinOp, found: bool)
    requires c < |s.cons| && LifeOk(s, c) && StoppedAs(s.cons[c], found)
    ensures |JoinStep(s, c, op).cons| == |s.cons| && StoppedAs(JoinStep(s, c, op).cons[c], found)
  {
    hide PacketOf;
    hide PacketsOf;
    hide Headers;
    hide Announced;
    hide Given;
  }

  lemma StopLasts(s: State, step: Step, cs: set<ConsumerId>)
    requires Inv(s) && StoppedWith(s, cs)
    ensures StoppedWith(Next(s, step), cs)
  {
    match step
    case Joining(c, op) =>
      if c < |s.cons| {
        assert LifeOk(s, c);
        JoinStopped(s, c, op, c in cs);
        JoinFrame(s, c, op);
        JoinFrameOthers(s, c, op);
        hide JoinStep;
        hide StoppedAs;
      }
    case Reading(c, op) =>
      if c < |s.cons| {
        ReaderLife(s, c, op);
        ReaderFrame(s, c, op);
        hide ReaderStep;
      }
    case _ =>
  }

  lemma {:induction false} StopHolds(s: State, steps: seq<Step>, cs: set<ConsumerId>)
    requires Inv(s) && StoppedWith(s, cs)
    ensures StoppedWith(Run(s, steps), cs)
  {
    if |steps| > 0 {
      StopHolds(s, steps[..|steps| - 1], cs);
      RunKeeps(s, steps[..|steps| - 1]);
      StopLasts(Run(s, steps[..|steps| - 1]), steps[|steps| - 1], cs);
    }
  }

  /** Whom a stop reaches: of the consumers that are still inserted in any later state, exactly those are
      closed that were in the map when the publisher stopped, or that were thrown out before. */
  lemma StopReachesExactly(s: State, steps: seq<Step>, c: ConsumerId)
    requires Reachable(s) && s.sess.Idle?
    requires var e := Run(Next(s, Publishing(Stop)), steps); c < |e.cons| && e.cons[c].join.Member?
    ensures var e := Run(Next(s, Publishing(Stop)), steps);
      e.cons[c].closed <==> c in s.consumers || e.cons[c].endedAt.Some?
  {
    ReachableInv(s);
    StopStarts(s);
    StepKeeps(s, Publishing(Stop));
    hide Next;
    StopHolds(Next(s, Publishing(Stop)), steps, s.consumers.Keys);
    RunKeeps(Next(s, Publishing(Stop)), steps);
    var e := Run(Next(s, Publishing(Stop)), steps);
    assert LifeOk(e, c) && StoppedAs(e.cons[c], c in s.consumers.Keys);
    hide Run;
  }

  // ---- Framing ----

  lemma {:induction false} SmallWholeIsBoundary(ps: seq<Packet>)
    requires SmallWhole(ps)
    ensures Trace(ps).Boundary?
  {
    if |ps| > 0 {
      SmallWholeIsBoundary(ps[..|ps| - 1]);
    }
  }

  /** The consumer was inserted while a message that no gate protects was being published, and something
      was offered to it since. */
  predicate JoinedInside(s: State, c: ConsumerId)
    requires c < |s.cons|
  {
    var r := s.cons[c];
    Inserted(r) && r.joinedAt < End(s, c) <= |s.log| && InsideUngated(Trace(s.log[..r.joinedAt]))
  }

  /** For a session that publishes an unbroken run, what an inserted consumer accepts is broken exactly if
      it was inserted inside an audio message (or a header) and was offered anything afterwards. */
  lemma FramingExactly(s: State, c: ConsumerId)
    requires Reachable(s) && c < |s.cons| && Inserted(s.cons[c]) && !Trace(s.log).Broken?
    ensures Trace(s.cons[c].accepted).Broken? <==> JoinedInside(s, c)
  {
    InsertedGiven(s, c);
    var r, upTo := s.cons[c], s.log[..End(s, c)];
    BrokenStaysBroken(s.log, End(s, c));
    JoinFraming(upTo, r.joinedAt);
    assert upTo[..r.joinedAt] == s.log[..r.joinedAt];
    SmallWholeIsBoundary(r.snapshot);
    TraceFromBoundary(r.snapshot, Deliver(upTo[r.joinedAt..]));
  }

  lemma AcceptedPrefixOfSnapshot(s: State, c: ConsumerId)
    requires Reachable(s) && c < |s.cons| && !Inserted(s.cons[c])
    ensures !Trace(s.cons[c].accepted).Broken?
  {
    ReachableInv(s);
    var r := s.cons[c];
    assert ConsumerOk(s.mem, r) && SnapshotOk(Announced(s), r);
    if !r.join.Created? && !r.join.Checked? {
      assert r.accepted <= r.snapshot;
      SmallWholeIsBoundary(r.accepted);
    }
  }

  /** Framing in every run: whatever joins, refusals, removals, stops, write errors and read errors there
      are, and in whatever order, the bytes on every consumer's connection are the beginning of a run of
      complete frames, unless it was inserted inside a message that no gate protects. */
  lemma OutputIsFramed(s: State, c: ConsumerId)
    requires Reachable(s) && c < |s.cons| && !Trace(s.log).Broken? && !JoinedInside(s, c)
    ensures StartsFrames(s.cons[c].out)
  {
    if Inserted(s.cons[c]) {
      FramingExactly(s, c);
    } else {
      AcceptedPrefixOfSnapshot(s, c);
    }
    ReachableInv(s);
    OutputIsAccepted(s, c);
    UnbrokenStartsFrames(s.cons[c].accepted, s.cons[c].out);
  }

  lemma LogGrows(s: State, step: Step)
    ensures s.log <= Next(s, step).log
  {
    match step
    case Joining(c, op) =>
      if c < |s.cons| {
        JoinFrameOthers(s, c, op);
        hide JoinStep;
      }
    case Reading(c, op) =>
      if c < |s.cons| {
        ReaderFrameOthers(s, c, op);
        hide ReaderStep;
      }
    case _ =>
      hide PacketOf;
      hide MetaBytes;
      hide CloseAll;
      hide Withheld;
  }

  lemma {:induction false} RunLogGrows(s: State, steps: seq<Step>)
    ensures s.log <= Run(s, steps).log
  {
    if |steps| > 0 {
      RunLogGrows(s, steps[..|steps| - 1]);
      LogGrows(Run(s, steps[..|steps| - 1]), steps[|steps| - 1]);
    }
  }

  /** It is enough that the log is unbroken in the end: then every output was framed all along. */
  lemma FramedAllAlong(s: State, steps: seq<Step>, c: ConsumerId)
    requires Reachable(s) && c < |s.cons| && !Trace(Run(s, steps).log).Broken? && !JoinedInside(s, c)
    ensures StartsFrames(s.cons[c].out)
  {
    RunLogGrows(s, steps);
    var log := Run(s, steps).log;
    BrokenStaysBroken(log, |s.log|);
    assert log[..|s.log|] == s.log;
    OutputIsFramed(s, c);
  }

  lemma OutputIsAccepted(s: State, c: ConsumerId)
    requires Inv(s) && c < |s.cons|
    ensures var r := s.cons[c];
      && r.out <= WireAll(r.accepted)
      && (r.reader.Ready? && r.queue == [] ==> r.out == WireAll(r.accepted))
  {
    hide WireOf;
    var r := s.cons[c];
    assert ConsumerOk(s.mem, r);
    match r.reader
    case Ready =>
      if r.released < |r.accepted| {
        WireAllPrefix(r.accepted, r.released);
      } else {
        assert r.accepted[..r.released] == r.accepted;
      }
    case Writing(_, done) =>
      WireAllPrefix(r.accepted, r.released);
      assert WireAll(r.accepted[..r.released]) + WireOf(r.accepted[r.released])[..done] <= WireAll(r.accepted[..r.released + 1]);
    case _ =>
  }

  // ---- The writer thread ----

  /** What is left to do: messages in the queue, and the steps of the one at hand. */
  function Work(s: State, c: ConsumerId): nat
    requires c < |s.cons|
  {
    match s.cons[c].reader
    case Writing(m, done) => 2 + if done <= |WireOf(PacketOf(s.mem, m))| then |WireOf(PacketOf(s.mem, m))| - done else 0
    case Finished => 0
    case _ => 1
  }

  /** Once the queue is closed, the writer can always go on, every step of its own leaves less to do, and
      no other thread gives it more: so it finishes. */
  lemma ReaderProgresses(s: State, c: ConsumerId)
    requires Reachable(s) && c < |s.cons| && s.cons[c].closed && !s.cons[c].reader.Finished?
    ensures exists op :: ReaderStep(s, c, op) != s
    ensures forall op :: ReaderStep(s, c, op) != s ==>
      var s' := ReaderStep(s, c, op);
      && |s'.cons| == |s.cons|
      && (|s'.cons[c].queue| < |s.cons[c].queue|
          || (s'.cons[c].queue == s.cons[c].queue && Work(s', c) < Work(s, c)))
  {
    ReachableInv(s);
    ReaderCanStep(s, c);
    forall op | ReaderStep(s, c, op) != s
      ensures var s' := ReaderStep(s, c, op);
        && |s'.cons| == |s.cons|
        && (|s'.cons[c].queue| < |s.cons[c].queue|
            || (s'.cons[c].queue == s.cons[c].queue && Work(s', c) < Work(s, c)))
    {
      ReaderWorks(s, c, op);
    }
  }

  lemma ReaderCanStep(s: State, c: ConsumerId)
    requires c < |s.cons| && s.cons[c].closed && !s.cons[c].reader.Finished?
    ensures exists op :: ReaderStep(s, c, op) != s
  {
    hide WireOf;
    hide PacketOf;
    var r := s.cons[c];
    var op := if r.reader.Writing? then WriteFail else if r.queue == [] then Finish else if r.reader.Ready? then Receive else Drain;
    var s' := ReaderStep(s, c, op);
    assert s'.cons[c].reader != r.reader || s'.cons[c].queue != r.queue;
    assert ReaderStep(s, c, op) != s;
  }

  lemma ReaderWorks(s: State, c: ConsumerId, op: ReaderOp)
    requires c < |s.cons| && ReaderStep(s, c, op) != s
    ensures var s' := ReaderStep(s, c, op);
      && |s'.cons| == |s.cons|
      && (|s'.cons[c].queue| < |s.cons[c].queue|
          || (s'.cons[c].queue == s.cons[c].queue && Work(s', c) < Work(s, c)))
  {
    hide WireOf;
    hide PacketOf;
    if op.Write? && op.n == 0 {
      WriteNothing(s, c);
    }
  }

  lemma WriteNothing(s: State, c: ConsumerId)
    requires c < |s.cons|
    ensures ReaderStep(s, c, Write(0)) == s
  {
    var r := s.cons[c];
    if r.reader.Writing? && r.reader.done <= |WireOf(PacketOf(s.mem, r.reader.mesg))| {
      hide WireOf;
      hide PacketOf;
      var wire := WireOf(PacketOf(s.mem, r.reader.mesg));
      assert r.out + wire[r.reader.done..r.reader.done + 0] == r.out;
      assert r.(reader := Writing(r.reader.mesg, r.reader.done + 0), out := r.out) == r;
      assert s.cons[c := r] == s.cons;
    }
  }

  /** The writer's own business is as it was; the queue may have got more, unless it was closed. */
  ghost predicate SameReader(r: Consumer, r': Consumer) {
    && r'.reader == r.reader && r'.released == r.released && r'.out == r.out
    && r.queue <= r'.queue && r.accepted <= r'.accepted
    && (r.closed ==> r'.closed && r'.queue == r.queue && r'.accepted == r.accepted)
  }

  lemma OthersLeaveRecord(s: State, step: Step, c: ConsumerId)
    requires c < |s.cons| && !(step.Reading? && step.c == c)
    ensures |Next(s, step).cons| >= |s.cons| && SameReader(s.cons[c], Next(s, step).cons[c])
  {
    match step
    case Joining(d, op) => if d < |s.cons| { JoinLeavesReader(s, d, op, c); }
    case Reading(d, op) => if d < |s.cons| { ReaderFrameOthers(s, d, op); }
    case Publishing(op) => SessionLeavesReader(s, op, c);
    case _ =>
    hide JoinStep;
    hide ReaderStep;
    hide SessionStep;
  }

  lemma OthersLeaveReader(s: State, step: Step, c: ConsumerId)
    requires Inv(s) && c < |s.cons| && !(step.Reading? && step.c == c)
    ensures var s' := Next(s, step);
      |s'.cons| >= |s.cons| && SameReader(s.cons[c], s'.cons[c]) && Work(s', c) == Work(s, c)
  {
    OthersLeaveRecord(s, step, c);
    StepKeeps(s, step);
    StepBytesStay(s, step);
    hide Next;
    if s.cons[c].reader.Writing? {
      HeldBytesStay(s, Next(s, step), c, s.cons[c].reader.mesg.data);
    }
  }

  lemma JoinLeavesReader(s: State, d: ConsumerId, op: JoinOp, c: ConsumerId)
    requires d < |s.cons| && c < |s.cons|
    ensures var s' := JoinStep(s, d, op); |s'.cons| == |s.cons| && SameReader(s.cons[c], s'.cons[c])
  {
    if d == c {
      JoinerLeavesReader(s, c, op);
    } else {
      JoinFrameOthers(s, d, op);
    }
    hide JoinStep;
  }

  lemma JoinerLeavesReader(s: State, c: ConsumerId, op: JoinOp)
    requires c < |s.cons|
    ensures SameReader(s.cons[c], JoinStep(s, c, op).cons[c])
  {
    hide PacketOf;
    hide PacketsOf;
    hide Headers;
    hide Announced;
  }

  lemma SessionLeavesReader(s: State, op: SessionOp, c: ConsumerId)
    requires c < |s.cons|
    ensures var s' := SessionStep(s, op); |s'.cons| == |s.cons| && SameReader(s.cons[c], s'.cons[c])
  {
    if op.Distribute? {
      hide PacketOf;
      hide Withheld;
    } else {
      SessionFrame(s, op);
      hide SessionStep;
    }
  }

  /** What a writer still has to do for its message on a connection that takes everything: the rest of the
      wire form goes out, then the reference goes back, and it is ready for the next message. */
  lemma WriterCanFinish(s: State, c: ConsumerId)
    requires Reachable(s) && c < |s.cons| && s.cons[c].reader.Writing?
    ensures var r, wire := s.cons[c], WireOf(PacketOf(s.mem, s.cons[c].reader.mesg));
      && r.reader.done <= |wire|
      && var s1 := ReaderStep(s, c, Write(|wire| - r.reader.done));
      && s1.cons[c] == r.(reader := Writing(r.reader.mesg, |wire|), out := r.out + wire[r.reader.done..])
      && ReaderStep(s1, c, WriteDone).cons[c] == s1.cons[c].(reader := Ready, released := r.released + 1)
  {
    hide *;
    WrittenPart(s, c);
    var wire := WireOf(PacketOf(s.mem, s.cons[c].reader.mesg));
    RestCanGoOut(s, c, wire);
    MessageCanEnd(ReaderStep(s, c, Write(|wire| - s.cons[c].reader.done)), c);
    assert PacketOf(ReaderStep(s, c, Write(|wire| - s.cons[c].reader.done)).mem, s.cons[c].reader.mesg) == PacketOf(s.mem, s.cons[c].reader.mesg);
  }

  lemma WrittenPart(s: State, c: ConsumerId)
    requires Reachable(s) && c < |s.cons| && s.cons[c].reader.Writing?
    ensures s.cons[c].reader.done <= |WireOf(PacketOf(s.mem, s.cons[c].reader.mesg))|
  {
    ReachableInv(s);
    assert ConsumerOk(s.mem, s.cons[c]);
    hide Reachable;
    hide WireAll;
    hide WireOf;
    hide PacketOf;
  }

  lemma RestCanGoOut(s: State, c: ConsumerId, wire: seq<byte>)
    requires c < |s.cons| && s.cons[c].reader.Writing? && wire == WireOf(PacketOf(s.mem, s.cons[c].reader.mesg))
    requires s.cons[c].reader.done <= |wire|
    ensures var r, s1 := s.cons[c], ReaderStep(s, c, Write(|wire| - s.cons[c].reader.done));
      && s1.cons[c] == r.(reader := Writing(r.reader.mesg, |wire|), out := r.out + wire[r.reader.done..])
      && s1.mem == s.mem
  {
    hide WireOf;
    hide PacketOf;
    var done := s.cons[c].reader.done;
    assert wire[done..done + (|wire| - done)] == wire[done..];
  }

  lemma MessageCanEnd(s: State, c: ConsumerId)
    requires c < |s.cons| && s.cons[c].reader.Writing?
    requires s.cons[c].reader.done == |WireOf(PacketOf(s.mem, s.cons[c].reader.mesg))|
    ensures ReaderStep(s, c, WriteDone).cons[c] == s.cons[c].(reader := Ready, released := s.cons[c].released + 1)
  {
    hide WireOf;
    hide PacketOf;
  }

  /** A writer that is done has released every accepted message exactly once, and its queue is closed
      and empty. */
  lemma FinishedReleasedAll(s: State, c: ConsumerId)
    requires Reachable(s) && c < |s.cons|
    ensures var r := s.cons[c];
      && r.released + |r.queue| + (if r.reader.Writing? then 1 else 0) == |r.accepted|
      && (r.reader.Finished? ==> r.closed && r.queue == [] && r.released == |r.accepted|)
  {
    ReachableInv(s);
    assert ConsumerOk(s.mem, s.cons[c]);
  }
}
