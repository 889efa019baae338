/** The methods of the RTMP session and of the publisher, in the form the source has them, each run with
    every other thread doing whatever it likes in between. */
module Server {
  import opened Prelude
  import opened Wire
  import opened Packets
  import opened Readers
  import opened Ingest
  import opened Machine
  import Accounting
  import Contents
  import History
  import HeaderHistory
  import Runs

  /** discardNALU: read into a scratch buffer until the unit is gone. */
  method DiscardNALU(source: Source, naluLen: uint32) returns (err: Option<Failure>, rest: Source)
    ensures Skipped(err, rest) == Discard(source, naluLen, DISCARD_BUFFER)
  {
    rest := source;
    var discarded: uint32 := 0;
    while discarded < naluLen
      invariant discarded <= naluLen
      invariant Discard(source, naluLen, DISCARD_BUFFER) == Discard(rest, naluLen - discarded, DISCARD_BUFFER)
    {
      var toRead := DISCARD_BUFFER;
      if naluLen - discarded < toRead {
        toRead := naluLen - discarded;
      }
      var r := Read(rest, toRead);
      rest := r.rest;
      discarded := discarded + |r.data|;
      if r.err.Some? {
        if r.err == Some(EOF) {
          return Some(if discarded < naluLen then UnexpectedEOF else EndOfFile), rest;
        }
        return Some(ReadFailed), rest;
      }
    }
    return None, rest;
  }

  /** One publisher with its session, its consumers and their shared memory. */
  class Process {
    const capacity: nat
    var mem: Memory
    var consumers: map<ConsumerId, bool>
    var videoSeqHdr: Option<BufId>
    var audioSeqHdr: Option<BufId>
    var meta: Option<BufId>
    var cons: seq<Consumer>
    var sess: Session
    var log: seq<Packet>
    var sentOnClosed: bool

    function Value(): State
      reads this
    {
      State(capacity, mem, consumers, videoSeqHdr, audioSeqHdr, meta, cons, sess, log, sentOnClosed)
    }

    /** The process is in a state that some schedule reaches. */
    ghost predicate Valid()
      reads this
    {
      Runs.Reachable(Value())
    }

    constructor (capacity: nat)
      ensures Valid() && this.capacity == capacity && sess.Idle? && log == [] && cons == []
    {
      this.capacity := capacity;
      var s := Start(capacity);
      mem, consumers, cons := s.mem, s.consumers, s.cons;
      videoSeqHdr, audioSeqHdr, meta := None, None, None;
      sess, log, sentOnClosed := Idle, [], false;
      new;
      assert Value() == Run(Start(capacity), []);
    }

    /** Any number of steps of the other threads: joins, removals, writes, the garbage collector. */
    method Interfere()
      requires Valid()
      modifies this
      ensures Valid() && SessionUndisturbed(old(Value()), Value())
    {
      var n: nat := *;
      while n > 0
        invariant Valid() && SessionUndisturbed(old(Value()), Value())
      {
        var step: Step := *;
        if !step.Publishing? {
          OtherStepFrame(Value(), step);
          Runs.ReachableNext(Value(), step);
          Become(Next(Value(), step));
        }
        n := n - 1;
      }
    }

    method Become(s: State)
      requires s.capacity == capacity
      modifies this
      ensures Value() == s
    {
      mem, consumers, cons := s.mem, s.consumers, s.cons;
      videoSeqHdr, audioSeqHdr, meta := s.videoSeqHdr, s.audioSeqHdr, s.meta;
      sess, log, sentOnClosed := s.sess, s.log, s.sentOnClosed;
    }

    // ---- publisher.AddConsumer and RemoveConsumer, by a consumer's own thread ----

    /** Any number of steps of the other threads, the session included. */
    method InterfereWithJoiner(c: ConsumerId)
      requires Valid() && c < |cons|
      modifies this
      ensures Valid() && JoinerUndisturbed(old(Value()), Value(), c)
    {
      var n: nat := *;
      while n > 0
        invariant Valid() && JoinerUndisturbed(old(Value()), Value(), c)
      {
        var step: Step := *;
        if !(step.Joining? && step.c == c) {
          JoinerFrame(Value(), step, c);
          Runs.ReachableNext(Value(), step);
          Become(Next(Value(), step));
        }
        n := n - 1;
      }
    }

    /** pub.mu.Lock: other threads go on, and the session leaves its read-locked section. */
    method WaitForLock(c: ConsumerId)
      requires Valid() && c < |cons|
      modifies this
      ensures Valid() && JoinerUndisturbed(old(Value()), Value(), c) && !sess.Distributing?
    {
      InterfereWithJoiner(c);
      while sess.Distributing?
        invariant Valid() && JoinerUndisturbed(old(Value()), Value(), c)
        decreases if sess.Distributing? then |sess.todo| + 1 else 0
      {
        if sess.todo == {} {
          JoinerFrame(Value(), Publishing(SessionOp.EndDistribution), c);
          Runs.ReachableNext(Value(), Publishing(SessionOp.EndDistribution));
          Become(Next(Value(), Publishing(SessionOp.EndDistribution)));
        } else {
          var d :| d in sess.todo;
          JoinerFrame(Value(), Publishing(SessionOp.Distribute(d)), c);
          OfferTakes(Value(), d);
          Runs.ReachableNext(Value(), Publishing(SessionOp.Distribute(d)));
          Become(Next(Value(), Publishing(SessionOp.Distribute(d))));
        }
      }
    }

    /** AddConsumer: refuse a known identifier, send the retained headers, then insert. */
    method AddConsumer(c: ConsumerId) returns (ok: bool)
      requires Valid() && c < |cons| && cons[c].join.Created?
      modifies this
      ensures Valid() && c < |cons|
      ensures ok ==> cons[c].join.Member? && c in consumers && !consumers[c] && !cons[c].closed
                     && cons[c].joinedAt == |log| && cons[c].accepted == cons[c].snapshot
                     && cons[c].snapshotAt <= |Announced(Value())|
                     && cons[c].snapshot == HeaderHistory.InitialPackets(Announced(Value())[..cons[c].snapshotAt])
      ensures !ok ==> cons[c].join.Failed? && c !in consumers && cons[c].closed && capacity < |cons[c].snapshot| <= 3
      ensures capacity >= 3 ==> ok
    {
      InterfereWithJoiner(c);
      HasConsumer(c);
      InterfereWithJoiner(c);
      ok := SendInitialData(c);
      if ok {
        WaitForLock(c);
        InsertConsumer(c);
      }
    }

    /** hasConsumer: identifiers are unique, so the answer is no. */
    method HasConsumer(c: ConsumerId)
      requires Valid() && c < |cons| && cons[c].join.Created?
      modifies this
      ensures Valid() && c < |cons| && cons[c].join.Checked?
      ensures Value() == Next(old(Value()), Joining(c, Check))
    {
      Runs.ReachableNext(Value(), Joining(c, Check));
      cons := cons[c := cons[c].(join := if c in consumers then Rejected else Checked)];
      Runs.NoPanic(Value());
    }

    /** sendInitialData: read the headers under the lock, then queue each; on the first that does not fit,
        give its reference back and stop. */
    method SendInitialData(c: ConsumerId) returns (ok: bool)
      requires Valid() && c < |cons| && cons[c].join.Checked?
      modifies this
      ensures Valid() && c < |cons|
      ensures if ok then cons[c].join == Sending([]) else cons[c].join.Failed? && c !in consumers && cons[c].closed
      ensures !ok ==> capacity < |cons[c].snapshot| <= 3
    {
      Runs.ReachableNext(Value(), Joining(c, ReadHeaders));
      var todo := Headers(Value());
      cons := cons[c := cons[c].(join := Sending(todo), snapshot := PacketsOf(mem, todo), snapshotAt := |Announced(Value())|)];
      while todo != []
        invariant Valid() && c < |cons| && cons[c].join == Sending(todo)
      {
        InterfereWithJoiner(c);
        ok := SendMessageStop(c);
        if !ok {
          return;
        }
        todo := todo[1..];
      }
      InterfereWithJoiner(c);
      ok := true;
    }

    /** sendMessageStop */
    method SendMessageStop(c: ConsumerId) returns (sent: bool)
      requires Valid() && c < |cons| && cons[c].join.Sending? && cons[c].join.todo != []
      modifies this
      ensures Valid() && c < |cons|
      ensures if sent then cons[c].join == Sending(old(cons[c].join.todo)[1..])
              else cons[c].join.Failed? && c !in consumers && cons[c].closed
      ensures cons[c].snapshot == old(cons[c].snapshot) && (!sent ==> capacity < |cons[c].snapshot| <= 3)
    {
      hide Runs.Reachable;
      var todo := cons[c].join.todo;
      Runs.ReachableNext(Value(), Joining(c, AcquireHeader));
      mem := mem.Acquire(todo[0].data, 1);
      cons := cons[c := cons[c].(join := Join.Offering(todo))];
      InterfereWithJoiner(c);
      sent := OfferHeaderTo(c);
      if sent {
        return;
      }
      InterfereWithJoiner(c);
      Runs.ReachableNext(Value(), Joining(c, ReleaseHeader));
      mem := mem.Release(cons[c].join.data);
      cons := cons[c := cons[c].(join := Stopping)];
      WaitForLock(c);
      StopRefused(c);
    }

    /** The non-blocking send of one header. */
    method OfferHeaderTo(c: ConsumerId) returns (sent: bool)
      requires Valid() && c < |cons| && cons[c].join.Offering?
      modifies this
      ensures Valid() && |cons| == old(|cons|)
      ensures var todo := old(cons[c].join.todo);
        todo != [] && cons[c].join == if sent then Sending(todo[1..]) else Refused(todo[0].data)
      ensures sent <==> |old(cons[c].queue)| < capacity
      ensures cons[c].snapshot == old(cons[c].snapshot) && (!sent ==> capacity < |cons[c].snapshot| <= 3)
      ensures Value() == Next(old(Value()), Joining(c, OfferHeader))
    {
      hide Runs.Reachable;
      OfferingIsReady(Value(), c);
      Runs.HeadersAreFew(Value(), c);
      Runs.ReachableNext(Value(), Joining(c, OfferHeader));
      var r := cons[c];
      var m := r.join.todo[0];
      sent := |r.queue| < capacity;
      if sent {
        cons := cons[c := Accept(r, m, PacketOf(mem, m)).(join := Sending(r.join.todo[1..]))];
      } else {
        cons := cons[c := r.(join := Refused(m.data))];
      }
    }

    /** stopConsumer on the joiner itself. */
    method StopRefused(c: ConsumerId)
      requires Valid() && c < |cons| && cons[c].join.Stopping? && !sess.Distributing?
      modifies this
      ensures Valid() && c < |cons| && cons[c].join.Failed? && c !in consumers && cons[c].closed
      ensures cons[c].snapshot == old(cons[c].snapshot)
      ensures Value() == Next(old(Value()), Joining(c, StopSelf))
    {
      Runs.ReachableNext(Value(), Joining(c, StopSelf));
      consumers := consumers - {c};
      cons := cons[c := cons[c].(join := Join.Failed, closed := true)];
    }

    method InsertConsumer(c: ConsumerId)
      requires Valid() && c < |cons| && cons[c].join == Sending([]) && !sess.Distributing?
      modifies this
      ensures Valid() && |cons| == old(|cons|) && log == old(log) && sess == old(sess)
      ensures consumers == old(consumers)[c := false]
      ensures cons[c].join.Member? && !cons[c].closed && cons[c].joinedAt == |log| && cons[c].accepted == cons[c].snapshot
      ensures cons[c].snapshotAt <= |Announced(Value())|
           && cons[c].snapshot == HeaderHistory.InitialPackets(Announced(Value())[..cons[c].snapshotAt])
      ensures Value() == Next(old(Value()), Joining(c, Insert))
    {
      ReadyToInsert(Value(), c);
      Runs.ReachableNext(Value(), Joining(c, Insert));
      consumers := consumers[c := false];
      cons := cons[c := cons[c].(join := Member, joinedAt := |log|)];
    }

    /** RemoveConsumer, by a consumer that was added. */
    method RemoveConsumer(c: ConsumerId)
      requires Valid() && c < |cons| && cons[c].join.Member?
      modifies this
      ensures Valid() && c < |cons| && cons[c].join.Left? && c !in consumers && cons[c].closed
    {
      WaitForLock(c);
      Runs.ReachableNext(Value(), Joining(c, Remove));
      var ended := if cons[c].endedAt.None? then Some(|log|) else cons[c].endedAt;
      consumers := consumers - {c};
      cons := cons[c := cons[c].(join := Left, closed := true, endedAt := ended)];
    }

    // ---- wsConsumer.readMessages, by a consumer's writer thread ----

    /** Any number of steps of the other threads. */
    method InterfereWithReader(c: ConsumerId)
      requires Valid() && c < |cons|
      modifies this
      ensures Valid() && ReaderUnaffected(old(Value()), Value(), c)
    {
      var n: nat := *;
      while n > 0
        invariant Valid() && ReaderUnaffected(old(Value()), Value(), c)
      {
        var step: Step := *;
        if !(step.Reading? && step.c == c) {
          ReaderOthersFrame(Value(), step, c);
          Runs.ReachableNext(Value(), step);
          Become(Next(Value(), step));
        }
        n := n - 1;
      }
    }

    /** readMessages on a connection that takes so many more bytes, watched for a number of rounds of its two
        loops; in a round without a message it waits. If it returns, its queue is closed and empty, every
        accepted message was released, and the connection was given the wire form of all of them or the
        beginning of it that it takes. As long as it has not returned, the connection was given the wire form
        of the messages released so far, or has failed after taking all it takes. Once the queue is closed it
        returns after one round for each message left; in any case every round releases one of those. */
    method ReadMessages(c: ConsumerId, budget: nat, rounds: nat) returns (returned: bool)
      requires Valid() && c < |cons| && cons[c].reader.Ready?
      modifies this
      ensures Valid() && c < |cons| && old(cons[c].accepted) <= cons[c].accepted
      ensures returned ==>
        && cons[c].reader.Finished? && cons[c].closed && cons[c].queue == []
        && cons[c].released == |cons[c].accepted|
      ensures returned ==> var wire := WireAll(cons[c].accepted);
        cons[c].out == wire[..Min(|wire|, |old(cons[c].out)| + budget)]
      ensures !returned ==>
        && cons[c].out <= WireAll(cons[c].accepted) && cons[c].released <= |cons[c].accepted|
        && (if cons[c].reader.Ready? then cons[c].out == WireAll(cons[c].accepted[..cons[c].released])
              && |cons[c].out| <= |old(cons[c].out)| + budget
            else cons[c].reader.Draining? && |cons[c].out| == |old(cons[c].out)| + budget)
      ensures cons[c].released >= old(cons[c].released) + Min(rounds, |old(cons[c].queue)|)
      ensures old(cons[c].closed) && rounds >= |old(cons[c].queue)| ==> returned
    {
      hide WireAll;
      hide Runs.Reachable;
      hide Next;
      InterfereWithReader(c);
      var ok, left, round := WriteQueue(c, budget, rounds);
      if !ok {
        DrainQueue(c, rounds - round);
      }
      returned := cons[c].closed && cons[c].queue == [];
      WrittenSoFar(Value(), c);
      if returned {
        Finish(c);
      }
    }

    /** The first loop of readMessages, for so many rounds. */
    method WriteQueue(c: ConsumerId, budget: nat, rounds: nat) returns (ok: bool, left: nat, round: nat)
      requires Valid() && c < |cons| && cons[c].reader.Ready?
      modifies this
      ensures Valid() && c < |cons| && old(cons[c].accepted) <= cons[c].accepted && round <= rounds
      ensures ok ==> cons[c].reader.Ready? && |cons[c].out| + left == |old(cons[c].out)| + budget
      ensures ok ==> round == rounds || (cons[c].closed && cons[c].queue == [])
      ensures !ok ==> cons[c].reader.Draining? && |cons[c].out| == |old(cons[c].out)| + budget
      ensures Released(old(Value()), Value(), c, round)
      ensures old(cons[c].closed) ==> cons[c].closed && |cons[c].queue| + round <= |old(cons[c].queue)|
    {
      hide Runs.Reachable;
      hide Next;
      ok, left, round := true, budget, 0;
      while ok && !(cons[c].closed && cons[c].queue == []) && round < rounds
        invariant Valid() && c < |cons| && old(cons[c].accepted) <= cons[c].accepted && round <= rounds
        invariant ok ==> cons[c].reader.Ready? && |cons[c].out| + left == |old(cons[c].out)| + budget
        invariant !ok ==> cons[c].reader.Draining? && |cons[c].out| == |old(cons[c].out)| + budget
        invariant Released(old(Value()), Value(), c, round)
        invariant old(cons[c].closed) ==> cons[c].closed && |cons[c].queue| + round <= |old(cons[c].queue)|
        decreases rounds - round
      {
        round := round + 1;
        if cons[c].queue != [] {
          ok, left := WriteMessage(c, left);
        }
        InterfereWithReader(c);
      }
    }

    /** The second loop of readMessages, after a failed write, for so many rounds. */
    method DrainQueue(c: ConsumerId, rounds: nat)
      requires Valid() && c < |cons| && cons[c].reader.Draining?
      modifies this
      ensures Valid() && c < |cons| && cons[c].reader.Draining? && cons[c].out == old(cons[c].out)
      ensures old(cons[c].accepted) <= cons[c].accepted && Released(old(Value()), Value(), c, rounds)
      ensures old(cons[c].closed) ==> cons[c].closed && (rounds >= |old(cons[c].queue)| ==> cons[c].queue == [])
    {
      hide Runs.Reachable;
      var round := 0;
      while !(cons[c].closed && cons[c].queue == []) && round < rounds
        invariant Valid() && c < |cons| && cons[c].reader.Draining? && cons[c].out == old(cons[c].out)
        invariant old(cons[c].accepted) <= cons[c].accepted && round <= rounds
        invariant Released(old(Value()), Value(), c, round)
        invariant old(cons[c].closed) ==> cons[c].closed && |cons[c].queue| + round <= |old(cons[c].queue)|
        decreases rounds - round
      {
        round := round + 1;
        if cons[c].queue != [] {
          DrainOne(c);
        }
        InterfereWithReader(c);
      }
    }

    /** Both loops end on a closed and empty queue. */
    method Finish(c: ConsumerId)
      requires Valid() && c < |cons| && cons[c].closed && cons[c].queue == []
      requires cons[c].reader.Ready? || cons[c].reader.Draining?
      modifies this
      ensures Valid() && |cons| == old(|cons|) && cons[c] == old(cons[c]).(reader := Finished)
      ensures cons[c].released == |cons[c].accepted|
      ensures Value() == Next(old(Value()), Reading(c, ReaderOp.Finish))
    {
      Runs.ReachableNext(Value(), Reading(c, ReaderOp.Finish));
      cons := cons[c := cons[c].(reader := Finished)];
      Runs.FinishedReleasedAll(Value(), c);
    }

    /** Receive one message, write it as far as the connection takes it, and release it; the queue may be open
        or closed. */
    method WriteMessage(c: ConsumerId, budget: nat) returns (ok: bool, left: nat)
      requires Valid() && c < |cons| && cons[c].reader.Ready? && cons[c].queue != []
      modifies this
      ensures Valid() && c < |cons| && old(cons[c].accepted) <= cons[c].accepted && old(cons[c].queue)[1..] <= cons[c].queue
      ensures old(cons[c].closed) ==>
        cons[c].closed && cons[c].accepted == old(cons[c].accepted) && cons[c].queue == old(cons[c].queue)[1..]
      ensures cons[c].released == old(cons[c].released) + 1
      ensures if ok then cons[c].reader.Ready? else cons[c].reader.Draining?
      ensures Wrote(WireOf(old(PacketOf(mem, cons[c].queue[0]))), old(cons[c].out), budget, cons[c].out, left, ok)
    {
      hide Runs.Reachable;
      hide WireOf;
      Runs.ReachableNext(Value(), Reading(c, Receive));
      var m := cons[c].queue[0];
      cons := cons[c := cons[c].(queue := cons[c].queue[1..], reader := Writing(m, 0))];
      InterfereWithReader(c);
      var wire := WireOf(PacketOf(mem, m));
      var n := Min(|wire|, budget);
      Runs.ReachableNext(Value(), Reading(c, Write(n)));
      cons := cons[c := cons[c].(reader := Writing(m, 0 + n), out := cons[c].out + wire[0..0 + n])];
      InterfereWithReader(c);
      ok := EndWrite(c, n == |wire|);
      left := budget - n;
    }

    /** The deferred Release at the end of writeMessage. */
    method EndWrite(c: ConsumerId, done: bool) returns (ok: bool)
      requires Valid() && c < |cons| && cons[c].reader.Writing?
      requires done ==> cons[c].reader.done == |WireOf(PacketOf(mem, cons[c].reader.mesg))|
      modifies this
      ensures Valid() && |cons| == old(|cons|) && ok == done
      ensures cons[c] == old(cons[c]).(reader := if ok then Ready else Draining, released := old(cons[c].released) + 1)
      ensures Value() == Next(old(Value()), Reading(c, if done then WriteDone else WriteFail))
    {
      hide Runs.Reachable;
      hide WireOf;
      var m := cons[c].reader.mesg;
      ok := done;
      if done {
        Runs.ReachableNext(Value(), Reading(c, WriteDone));
        cons := cons[c := cons[c].(reader := Ready, released := cons[c].released + 1)];
      } else {
        Runs.ReachableNext(Value(), Reading(c, WriteFail));
        cons := cons[c := cons[c].(reader := Draining, released := cons[c].released + 1)];
      }
      mem := mem.Release(m.data);
    }

    /** One round of the second loop. */
    method DrainOne(c: ConsumerId)
      requires Valid() && c < |cons| && cons[c].reader.Draining? && cons[c].queue != []
      modifies this
      ensures Valid() && |cons| == old(|cons|)
      ensures cons[c] == old(cons[c]).(queue := old(cons[c].queue)[1..], released := old(cons[c].released) + 1)
      ensures Value() == Next(old(Value()), Reading(c, Drain))
    {
      hide Runs.Reachable;
      Runs.ReachableNext(Value(), Reading(c, Drain));
      mem := mem.Release(cons[c].queue[0].data);
      cons := cons[c := cons[c].(queue := cons[c].queue[1..], released := cons[c].released + 1)];
    }

    // ---- The session's buffer ----

    /** AcquireVideoBuffer and AcquireAudioBuffer: the pool picks. */
    method AcquireBuffer(pool: Pool)
      requires Valid() && sess.Idle?
      modifies this
      ensures Valid() && log == old(log) && sess.Filling?
      ensures mem.Bytes(sess.buf) == [] && mem.Room(sess.buf) == PoolSize(pool)
      ensures mem.forgotten == old(mem.forgotten)
    {
      var pick: Option<BufId> := *;
      Runs.AcquiredIsFree(Value(), pool, pick);
      Runs.ReachableNext(Value(), Publishing(Acquire(pool, pick)));
      var (m, b) := mem.Get(pool, pick);
      mem := m;
      sess := Filling(b);
    }

    /** Bytes go into the buffer that the session holds: Write, or what ReadN reads. */
    method Append(data: seq<byte>)
      requires Valid() && sess.Filling? && |data| <= mem.Room(sess.buf)
      modifies this
      ensures Valid() && log == old(log) && sess == old(sess)
      ensures mem.Bytes(sess.buf) == old(mem.Bytes(sess.buf)) + data
      ensures mem.Room(sess.buf) == old(mem.Room(sess.buf)) - |data|
      ensures Value() == Next(old(Value()), Publishing(Fill(data)))
      ensures mem.forgotten == old(mem.forgotten)
    {
      HeldInHeap(Value());
      Runs.ReachableNext(Value(), Publishing(Fill(data)));
      hide Runs.Reachable;
      mem := mem.Append(sess.buf, data);
    }

    /** Release without publishing, after a read error. */
    method ReleaseUnsent()
      requires Valid() && sess.Filling?
      modifies this
      ensures Valid() && log == old(log) && sess.Idle?
      ensures Value() == Next(old(Value()), Publishing(Abort))
      ensures mem.forgotten == old(mem.forgotten)
    {
      Runs.ReachableNext(Value(), Publishing(Abort));
      mem := mem.Release(sess.buf);
      sess := Idle;
    }

    /** The variable goes out of scope with the buffer neither sent nor released. */
    method Forget()
      requires Valid() && sess.Filling?
      modifies this
      ensures Valid() && log == old(log) && sess.Idle?
      ensures mem.forgotten == old(mem.forgotten) + multiset{old(sess.buf)}
      ensures Value() == Next(old(Value()), Publishing(Abandon))
    {
      Runs.ReachableNext(Value(), Publishing(Abandon));
      mem := mem.(forgotten := mem.forgotten + multiset{sess.buf});
      sess := Idle;
    }

    // ---- publisher.SendMessage ----

    /** SendMessage with the buffer that the session holds. */
    method SendMessage(kind: Kind, flags: byte, timestamp: uint32, length: uint32)
      requires Valid() && sess.Filling? && !kind.Meta?
      modifies this
      ensures Valid() && sess == Settling(Message(kind, flags, timestamp, length, old(sess.buf)), true)
      ensures log == old(log) + [Packet(kind, flags, timestamp, length, old(mem.Bytes(sess.buf)))]
      ensures mem.forgotten == old(mem.forgotten)
    {
      Prepare(kind, flags, timestamp, length);
      Distribute();
    }

    /** The beginning of SendMessage: a retained kind of header is copied for later joiners. */
    method Prepare(kind: Kind, flags: byte, timestamp: uint32, length: uint32)
      requires Valid() && sess.Filling? && !kind.Meta?
      modifies this
      ensures Valid() && log == old(log) && sess == Armed(Message(kind, flags, timestamp, length, old(sess.buf)), true)
      ensures mem.Bytes(sess.mesg.data) == old(mem.Bytes(sess.buf))
      ensures Value() == Next(old(Value()), Publishing(Arm(kind, flags, timestamp, length)))
      ensures mem.forgotten == old(mem.forgotten)
    {
      HeldInHeap(Value());
      Runs.ReachableNext(Value(), Publishing(Arm(kind, flags, timestamp, length)));
      hide Runs.Reachable;
      ghost var before := Value();
      var b := sess.buf;
      if kind == VideoSeqHdr {
        var (m, copy) := mem.Hold(mem.heap[b].pool, mem.Bytes(b));
        mem, videoSeqHdr := m, Some(copy);
      } else if kind == AudioSeqHdr {
        var (m, copy) := mem.Hold(mem.heap[b].pool, mem.Bytes(b));
        mem, audioSeqHdr := m, Some(copy);
      }
      sess := Armed(Message(kind, flags, timestamp, length, b), true);
      assert Value() == Next(before, Publishing(Arm(kind, flags, timestamp, length)));
    }

    /** The read-locked loop over the consumers, in any order, and the eviction of those that refused. */
    method Distribute()
      requires Valid() && sess.Armed?
      modifies this
      ensures Valid() && sess == Settling(old(sess.mesg), old(sess.own))
      ensures log == old(log) + [old(PacketOf(mem, sess.mesg))]
      ensures mem.forgotten == old(mem.forgotten)
    {
      Interfere();
      var Armed(m, own) := sess;
      ghost var p := PacketOf(mem, m);
      Begin();
      while sess.todo != {}
        invariant Valid() && sess.Distributing? && sess.mesg == m && sess.own == own
        invariant log == old(log) + [p] && PacketOf(mem, m) == p && mem.forgotten == old(mem.forgotten)
        decreases sess.todo
      {
        Interfere();
        var c :| c in sess.todo;
        OfferTo(c);
      }
      EndDistribution();
      Interfere();
      if sess.Evicting? {
        EvictRefused();
      }
    }

    method Begin()
      requires Valid() && sess.Armed?
      modifies this
      ensures Valid() && sess == Distributing(old(sess.mesg), old(sess.own), old(consumers).Keys, {})
      ensures log == old(log) + [old(PacketOf(mem, sess.mesg))]
      ensures PacketOf(mem, sess.mesg) == old(PacketOf(mem, sess.mesg))
      ensures Value() == Next(old(Value()), Publishing(SessionOp.Begin))
      ensures mem.forgotten == old(mem.forgotten)
    {
      Runs.ReachableNext(Value(), Publishing(SessionOp.Begin));
      var Armed(m, own) := sess;
      log := log + [PacketOf(mem, m)];
      mem := mem.Acquire(m.data, |consumers|);
      sess := Distributing(m, own, consumers.Keys, {});
    }

    /** One round of the loop. */
    method OfferTo(c: ConsumerId)
      requires Valid() && sess.Distributing? && c in sess.todo
      modifies this
      ensures Valid() && log == old(log) && PacketOf(mem, old(sess.mesg)) == old(PacketOf(mem, sess.mesg))
      ensures sess.Distributing? && sess.mesg == old(sess.mesg) && sess.own == old(sess.own)
      ensures sess.todo == old(sess.todo) - {c}
      ensures Value() == Next(old(Value()), Publishing(SessionOp.Distribute(c)))
      ensures mem.forgotten == old(mem.forgotten)
    {
      hide Runs.Reachable;
      ghost var before := Value();
      OfferStays(before, c);
      OfferShape(before, c);
      Runs.ReachableNext(before, Publishing(SessionOp.Distribute(c)));
      hide SessionStep;
      var Distributing(m, own, todo, refused) := sess;
      var p := PacketOf(mem, m);
      sess := Distributing(m, own, todo - {c}, refused);
      if p.kind == Video && !consumers[c] && (!p.IsKeyFrame() || p.IsContinuation()) {
        mem := mem.Release(m.data);
      } else if |cons[c].queue| < capacity {
        cons := cons[c := Accept(cons[c], m, p)];
        if p.kind == Video && p.IsKeyFrame() && !consumers[c] {
          consumers := consumers[c := true];
        }
      } else {
        mem := mem.(unpaid := mem.unpaid + multiset{m.data});
        cons := cons[c := cons[c].(endedAt := Some(Before(log)))];
        sess := Distributing(m, own, todo - {c}, refused + {c});
      }
      assert Value() == Offer(before, c);
      hide Offer;
    }

    method EndDistribution()
      requires Valid() && sess.Distributing? && sess.todo == {}
      modifies this
      ensures Valid() && log == old(log)
      ensures sess == if old(sess.refused) == {} then Settling(old(sess.mesg), old(sess.own))
                      else Evicting(old(sess.mesg), old(sess.own), old(sess.refused))
      ensures Value() == Next(old(Value()), Publishing(SessionOp.EndDistribution))
      ensures mem.forgotten == old(mem.forgotten)
    {
      Runs.ReachableNext(Value(), Publishing(SessionOp.EndDistribution));
      var Distributing(m, own, _, refused) := sess;
      sess := if refused == {} then Settling(m, own) else Evicting(m, own, refused);
    }

    /** stopConsumer for each that refused, under the write lock. */
    method EvictRefused()
      requires Valid() && sess.Evicting?
      modifies this
      ensures Valid() && log == old(log) && sess == Settling(old(sess.mesg), old(sess.own))
      ensures consumers == old(consumers) - old(sess.refused) && cons == CloseAll(old(cons), old(sess.refused))
      ensures Value() == Next(old(Value()), Publishing(Evict))
      ensures mem.forgotten == old(mem.forgotten)
    {
      Runs.ReachableNext(Value(), Publishing(Evict));
      var Evicting(m, own, refused) := sess;
      consumers := consumers - refused;
      cons := CloseAll(cons, refused);
      sess := Settling(m, own);
    }

    /** The creator's Release after SendMessage. */
    method ReleaseSent()
      requires Valid() && sess.Settling?
      modifies this
      ensures Valid() && log == old(log) && sess.Idle?
      ensures Value() == Next(old(Value()), Publishing(Settle))
      ensures mem.forgotten == old(mem.forgotten)
    {
      Runs.ReachableNext(Value(), Publishing(Settle));
      if sess.own {
        mem := mem.Release(sess.mesg.data);
      }
      sess := Idle;
    }

    // ---- rtmp.go ----

    /** A buffer of the pool at hand, with some room left, or none. */
    ghost predicate HasRoom(pool: Pool)
      reads this
    {
      sess.Idle? || (sess.Filling? && |mem.Bytes(sess.buf)| < PoolSize(pool)
                     && mem.Room(sess.buf) == PoolSize(pool) - |mem.Bytes(sess.buf)|)
    }

    /** One round of the chunk loops: take a buffer if there is none, fill it, send it, release it. */
    method SendChunk(m: Template, pool: Pool, firstMesg: bool, remaining: nat, source: Source)
      returns (n: nat, err: Option<Failure>, rest: Source)
      requires Valid() && !m.kind.Meta? && HasRoom(pool) && remaining > 0
      modifies this
      ensures Valid() && sess.Idle?
      ensures var t := ReadN(source, Min(remaining, PoolSize(pool) - |old(Held())|));
        && n == |t.data| && err == t.err && rest == t.rest
        && log == if t.err.Some? then old(log) else old(log) + [m.Chunk(firstMesg, old(Held()) + t.data)]
      ensures mem.forgotten == old(mem.forgotten)
    {
      hide Runs.Reachable;
      if sess.Idle? {
        AcquireBuffer(pool);
      }
      Interfere();
      var t := ReadN(source, Min(remaining, mem.Room(sess.buf)));
      n, err, rest := |t.data|, t.err, t.rest;
      Append(t.data);
      Interfere();
      if t.err.Some? {
        ReleaseUnsent();
        return;
      }
      SendMessage(m.kind, Flags(m.key, !firstMesg), m.timestamp, m.length);
      Interfere();
      ReleaseSent();
    }

    /** The chunk loops of sendVideoData and sendAudioData, from a buffer that may already hold the first
        bytes of the message. */
    method SendChunks(m: Template, pool: Pool, length: nat, source: Source) returns (err: Option<Failure>, rest: Source)
      requires Valid() && !m.kind.Meta? && HasRoom(pool)
      modifies this
      ensures Valid() && (if length > 0 then sess.Idle? else sess == old(sess))
      ensures var s := Chunks(m, old(Held()), PoolSize(pool), true, length, source);
        err == s.err && rest == s.rest && log == old(log) + s.packets
      ensures mem.forgotten == old(mem.forgotten)
    {
      hide ReadN;
      hide Chunks;
      hide Runs.Reachable;
      rest := source;
      var remaining: nat := length;
      var firstMesg := true;
      ghost var all := Chunks(m, Held(), PoolSize(pool), true, length, source);
      ghost var goal := log + all.packets;
      while remaining > 0
        invariant Valid() && remaining <= length && HasRoom(pool)
        invariant remaining < length ==> sess.Idle?
        invariant remaining == length ==> sess == old(sess)
        invariant mem.forgotten == old(mem.forgotten)
        invariant StillToSend(log, Chunks(m, Held(), PoolSize(pool), firstMesg, remaining, rest), goal, all)
      {
        NextChunk(m, Held(), PoolSize(pool), firstMesg, remaining, rest, log, goal, all);
        var n;
        n, err, rest := SendChunk(m, pool, firstMesg, remaining, rest);
        if err.Some? {
          return;
        }
        remaining := remaining - n;
        firstMesg := false;
      }
      NoChunks(m, Held(), PoolSize(pool), firstMesg, rest);
      err := None;
    }

    function Held(): seq<byte>
      reads this
    {
      if sess.Filling? then mem.Bytes(sess.buf) else []
    }

    /** sendVideoData: one length-prefixed unit. */
    method SendVideoData(source: Source, timestamp: uint32) returns (done: bool, err: Option<Failure>, rest: Source)
      requires Valid() && sess.Idle?
      modifies this
      ensures Valid() && sess.Idle?
      ensures var u := VideoUnit(source, timestamp);
        done == u.done && err == u.sent.err && rest == u.sent.rest && log == old(log) + u.sent.packets
      ensures Forgot(old(mem.forgotten), mem.forgotten, if UnitForgotten(source) then 1 else 0)
    {
      hide Runs.Reachable;
      var t := ReadFull(source, NALU_HEADER);
      if t.err.Some? {
        if t.err == Some(EndOfFile) {
          return true, None, t.rest;
        }
        return false, Some(UnexpectedEOF), t.rest;
      }
      var naluLen := BodyLength(t.data);
      var naluType := t.data[4] % 32;
      if naluType != 1 && naluType != 5 {
        err, rest := DiscardNALU(t.rest, naluLen);
        return false, err, rest;
      }
      err, rest := ForwardUnit(t.data, naluLen, t.rest, timestamp);
      done := false;
    }

    /** The second half of sendVideoData, for a unit that is forwarded. */
    method ForwardUnit(header: seq<byte>, naluLen: uint32, source: Source, timestamp: uint32)
      returns (err: Option<Failure>, rest: Source)
      requires Valid() && sess.Idle? && |header| == NALU_HEADER
      modifies this
      ensures Valid() && sess.Idle?
      ensures var s := Chunks(UnitTemplate(header, timestamp), header, VIDEO_BUFFER, true, naluLen, source);
        err == s.err && rest == s.rest && log == old(log) + s.packets
      ensures Forgot(old(mem.forgotten), mem.forgotten, if naluLen == 0 then 1 else 0)
    {
      hide Runs.Reachable;
      hide Chunks;
      AcquireBuffer(VideoPool);
      Interfere();
      Append(header);
      Interfere();
      assert Held() == header;
      err, rest := SendChunks(UnitTemplate(header, timestamp), VideoPool, naluLen, source);
      if sess.Filling? {
        Forget();
      }
    }

    /** sendSeqHeader */
    method SendSeqHeader(kind: Kind, source: Source, toRead: uint32) returns (err: Option<Failure>, rest: Source)
      requires Valid() && sess.Idle? && (kind.VideoSeqHdr? || kind.AudioSeqHdr?)
      modifies this
      ensures Valid() && sess.Idle?
      ensures var s := SeqHeader(kind, source, toRead); err == s.err && rest == s.rest && log == old(log) + s.packets
      ensures mem.forgotten == old(mem.forgotten)
    {
      hide Runs.Reachable;
      AcquireBuffer(AudioPool);
      Interfere();
      var t := ReadN(source, Min(toRead, mem.Room(sess.buf)));
      rest := t.rest;
      Append(t.data);
      assert [] + t.data == t.data;
      Interfere();
      if t.err.Some? {
        ReleaseUnsent();
        return t.err, rest;
      }
      if |t.data| != toRead {
        ReleaseUnsent();
        return Some(HeaderNotRead), rest;
      }
      SendMessage(kind, 0, 0, |t.data|);
      Interfere();
      ReleaseSent();
      err := None;
    }

    /** The loop of onVideoMessage over the units. */
    method SendUnits(source: Source, timestamp: uint32) returns (err: Option<Failure>, rest: Source)
      requires Valid() && sess.Idle?
      modifies this
      ensures Valid() && sess.Idle?
      ensures var s := VideoUnits(source, timestamp); err == s.err && rest == s.rest && log == old(log) + s.packets
      ensures Forgot(old(mem.forgotten), mem.forgotten, UnitsForgotten(source, timestamp))
    {
      var done := false;
      rest, err := source, None;
      ghost var all := VideoUnits(source, timestamp);
      ghost var goal := log + all.packets;
      ghost var drops: nat := 0;
      while !done && err.None?
        invariant Valid() && sess.Idle?
        invariant done || err.Some? ==> goal == log && all.err == err && all.rest == rest
        invariant !done && err.None? ==>
          var more := VideoUnits(rest, timestamp); goal == log + more.packets && all.err == more.err && all.rest == more.rest
        invariant Forgot(old(mem.forgotten), mem.forgotten, drops)
        invariant UnitsForgotten(source, timestamp) == drops + if done || err.Some? then 0 else UnitsForgotten(rest, timestamp)
        decreases !done && err.None?, |Stream(rest)|
      {
        UnitShrinks(rest, timestamp);
        UnitsUnfold(rest, timestamp);
        hide VideoUnits;
        hide VideoUnit;
        hide UnitsForgotten;
        drops := drops + if UnitForgotten(rest) then 1 else 0;
        hide UnitForgotten;
        Interfere();
        ghost var u, before := VideoUnit(rest, timestamp), log;
        done, err, rest := SendVideoData(rest, timestamp);
        Associative(before, u.sent.packets, VideoUnits(rest, timestamp).packets);
      }
    }

    method OnVideoMessage(length: uint32, timestamp: uint32, data: Source) returns (err: Option<Failure>)
      requires Valid() && sess.Idle?
      modifies this
      ensures Valid() && sess.Idle?
      ensures var s := OnVideo(length, timestamp, data); err == s.err && log == old(log) + s.packets
      ensures Forgot(old(mem.forgotten), mem.forgotten, Forgotten(VideoMessage(length, timestamp, data)))
    {
      var t := ReadFull(data, VIDEO_TAG_HEADER);
      if t.err.Some? {
        return t.err;
      }
      if t.data[0] % 16 != CODEC_H264 {
        return Some(InvalidCodec);
      }
      var rest: Source;
      if t.data[1] == PACKET_SEQ_HEADER {
        err, rest := SendSeqHeader(VideoSeqHdr, t.rest, Wrap32(length - VIDEO_TAG_HEADER));
        return;
      }
      if t.data[1] != PACKET_DATA {
        return Some(InvalidPacket);
      }
      err, rest := SendUnits(t.rest, timestamp);
    }

    method OnAudioMessage(length: uint32, timestamp: uint32, data: Source) returns (err: Option<Failure>)
      requires Valid() && sess.Idle?
      modifies this
      ensures Valid() && sess.Idle?
      ensures var s := OnAudio(length, timestamp, data); err == s.err && log == old(log) + s.packets
      ensures mem.forgotten == old(mem.forgotten)
    {
      var t := ReadFull(data, AUDIO_TAG_HEADER);
      if t.err.Some? {
        return t.err;
      }
      if t.data[0] / 16 != CODEC_AAC {
        return Some(InvalidCodec);
      }
      var rest: Source;
      if t.data[1] == PACKET_SEQ_HEADER {
        err, rest := SendSeqHeader(AudioSeqHdr, t.rest, Wrap32(length - AUDIO_TAG_HEADER));
      } else if t.data[1] == PACKET_DATA {
        var size := Wrap32(length - AUDIO_TAG_HEADER);
        err, rest := SendChunks(Template(Audio, false, timestamp, size), AudioPool, size, t.rest);
      } else {
        err := Some(InvalidPacket);
      }
    }

    /** SendMetaData: the record is retained as it is, and nobody gives its first reference back. */
    method SendMetaData(metaData: MetaData)
      requires Valid() && sess.Idle?
      modifies this
      ensures Valid() && sess.Idle? && log == old(log) + [MetaPacket(metaData)]
      ensures mem.forgotten == old(mem.forgotten)
    {
      Runs.ReachableNext(Value(), Publishing(ArmMeta(metaData)));
      var (m, b) := mem.Hold(AudioPool, MetaBytes(metaData));
      mem, meta := m, Some(b);
      sess := Armed(Message(Kind.Meta, 0, 0, META_SIZE, b), false);
      Distribute();
      Interfere();
      ReleaseSent();
    }

    /** publisher.Stop, by RemovePublisher. */
    method StopPublisher()
      requires Valid() && sess.Idle?
      modifies this
      ensures Valid() && sess.Stopped? && log == old(log)
      ensures consumers == old(consumers) && cons == CloseAll(old(cons), consumers.Keys)
      ensures Value() == Next(old(Value()), Publishing(Stop))
    {
      Runs.ReachableNext(Value(), Publishing(Stop));
      cons := CloseAll(cons, consumers.Keys);
      sess := Stopped;
    }

    method OnMessage(m: Inbound) returns (err: Option<Failure>)
      requires Valid() && sess.Idle?
      modifies this
      ensures Valid() && sess.Idle?
      ensures var s := Handle(m); err == s.err && log == old(log) + s.packets
      ensures Forgot(old(mem.forgotten), mem.forgotten, Forgotten(m))
    {
      err := None;
      match m
      case VideoMessage(length, timestamp, data) => err := OnVideoMessage(length, timestamp, data);
      case AudioMessage(length, timestamp, data) => err := OnAudioMessage(length, timestamp, data);
      case MetaDataMessage(metaData) => SendMetaData(metaData);
      case CloseStream =>
    }

    /** onConn, from the added publisher on: handle messages until one fails, the stream is closed or the
        connection ends; then stop the publisher. */
    method Serve(messages: seq<Inbound>)
      requires Valid() && sess.Idle?
      modifies this
      ensures Valid() && sess.Stopped? && log == old(log) + SessionLog(messages)
      ensures Trace(old(log)).Boundary? ==> (Trace(log).Broken? <==> !SessionFits(messages))
      ensures !Trace(log).Broken? ==>
        forall c :: 0 <= c < |cons| && !Runs.JoinedInside(Value(), c) ==> StartsFrames(cons[c].out)
      ensures Forgot(old(mem.forgotten), mem.forgotten, SessionForgotten(messages))
    {
      SessionFramed(messages, log);
      hide Trace;
      hide SessionLog;
      hide SessionFits;
      hide Runs.Reachable;
      hide Runs.JoinedInside;
      hide StartsFrames;
      HandleAll(messages);
      Interfere();
      StopPublisher();
      OutputsFramed(Value());
    }

    method HandleAll(messages: seq<Inbound>)
      requires Valid() && sess.Idle?
      modifies this
      ensures Valid() && sess.Idle? && log == old(log) + SessionLog(messages)
      ensures Forgot(old(mem.forgotten), mem.forgotten, SessionForgotten(messages))
    {
      hide Handle;
      hide SessionLog;
      hide Runs.Reachable;
      var i := 0;
      var err: Option<Failure> := None;
      ghost var goal := log + SessionLog(messages);
      ghost var drops: nat := 0;
      hide SessionForgotten;
      hide Forgotten;
      assert messages[0..] == messages;
      SessionUnfold(messages, 0);
      while i < |messages| && err.None? && !messages[i].CloseStream?
        invariant Valid() && sess.Idle? && i <= |messages|
        invariant goal == if err.Some? then log else log + SessionLog(messages[i..])
        invariant Forgot(old(mem.forgotten), mem.forgotten, drops)
        invariant SessionForgotten(messages) == drops + if err.Some? then 0 else SessionForgotten(messages[i..])
        invariant SessionAt(messages, i)
        decreases |messages| - i, err.None?
      {
        Interfere();
        ghost var s, before := Handle(messages[i]), log;
        drops := drops + Forgotten(messages[i]);
        err := OnMessage(messages[i]);
        Associative(before, s.packets, SessionLog(messages[i + 1..]));
        i := i + 1;
        SessionUnfold(messages, i);
      }
    }
  }

  lemma HeldInHeap(s: State)
    requires Runs.Reachable(s) && s.sess.Filling?
    ensures s.sess.buf < |s.mem.heap|
  {
    Runs.ReachableInv(s);
    hide Runs.Reachable;
  }

  /** The writer's own record, and the wire form of what it writes, are as it left them. */
  ghost predicate ReaderUnaffected(s: State, s': State, c: ConsumerId) {
    && s'.capacity == s.capacity && c < |s.cons| <= |s'.cons| && Runs.SameReader(s.cons[c], s'.cons[c])
    && (s.cons[c].reader.Writing? ==> PacketOf(s'.mem, s.cons[c].reader.mesg) == PacketOf(s.mem, s.cons[c].reader.mesg))
  }

  /** Of the messages that were waiting, one was released in every round, as long as there were any. */
  ghost predicate Released(s: State, s': State, c: ConsumerId, rounds: nat) {
    && c < |s.cons| && c < |s'.cons|
    && s'.cons[c].released >= s.cons[c].released + Min(rounds, |s.cons[c].queue|)
    && |s'.cons[c].queue| + s'.cons[c].released >= |s.cons[c].queue| + s.cons[c].released
  }

  /** How the output relates to what was accepted and released. */
  lemma WrittenSoFar(s: State, c: ConsumerId)
    requires Runs.Reachable(s) && c < |s.cons|
    ensures var r := s.cons[c];
      && r.out <= WireAll(r.accepted) && r.released <= |r.accepted|
      && (r.reader.Ready? ==> r.out == WireAll(r.accepted[..r.released]))
      && (r.reader.Ready? && r.queue == [] ==> r.out == WireAll(r.accepted))
  {
    Runs.ReachableInv(s);
    assert Contents.ConsumerOk(s.mem, s.cons[c]);
    Runs.OutputIsAccepted(s, c);
    hide Runs.Reachable;
    hide Runs.Inv;
    hide WireAll;
    hide WireOf;
    hide PacketOf;
  }

  lemma ReaderOthersFrame(s: State, step: Step, c: ConsumerId)
    requires Runs.Reachable(s) && c < |s.cons| && !(step.Reading? && step.c == c)
    ensures ReaderUnaffected(s, Next(s, step), c)
  {
    Runs.ReachableInv(s);
    Runs.OthersLeaveReader(s, step, c);
    StepCapacity(s, step);
    if s.cons[c].reader.Writing? {
      WrittenStays(s, step, c);
    }
    hide Next;
  }

  lemma StepCapacity(s: State, step: Step)
    ensures Next(s, step).capacity == s.capacity
  {
    match step
    case Joining(c, op) => if c < |s.cons| { JoinCapacity(s, c, op); }
    case Reading(c, op) => if c < |s.cons| { ReaderCapacity(s, c, op); }
    case Publishing(op) => SessionCapacity(s, op);
    case _ =>
    hide JoinStep;
    hide ReaderStep;
    hide SessionStep;
  }

  lemma WrittenStays(s: State, step: Step, c: ConsumerId)
    requires Runs.Inv(s) && c < |s.cons| && c < |Next(s, step).cons| && s.cons[c].reader.Writing?
    requires Next(s, step).cons[c].reader == s.cons[c].reader
    ensures PacketOf(Next(s, step).mem, s.cons[c].reader.mesg) == PacketOf(s.mem, s.cons[c].reader.mesg)
  {
    Runs.StepKeeps(s, step);
    Runs.StepBytesStay(s, step);
    hide Next;
    Contents.HeldBytesStay(s, Next(s, step), c, s.cons[c].reader.mesg.data);
  }

  ghost predicate JoinerUndisturbed(s: State, s': State, c: ConsumerId) {
    && s'.capacity == s.capacity && c < |s.cons| <= |s'.cons|
    && s'.cons[c].join == s.cons[c].join
    && s'.cons[c].snapshot == s.cons[c].snapshot && s'.cons[c].snapshotAt == s.cons[c].snapshotAt
  }

  /** Where a joining thread stands is its own business. */
  lemma JoinerFrame(s: State, step: Step, c: ConsumerId)
    requires Runs.Reachable(s) && c < |s.cons| && !(step.Joining? && step.c == c)
    ensures JoinerUndisturbed(s, Next(s, step), c)
  {
    Runs.ReachableInv(s);
    hide Runs.Inv;
    match step
    case Joining(d, op) =>
      if d < |s.cons| {
        Contents.JoinFrameOthers(s, d, op);
        JoinCapacity(s, d, op);
      }
    case Reading(d, op) =>
      if d < |s.cons| {
        Accounting.ReaderJoins(s, d, op);
        HeaderHistory.ReaderSnapshot(s, d, op);
        ReaderCapacity(s, d, op);
      }
    case Publishing(op) =>
      HeaderHistory.SessionSnapshots(s, op);
      SessionJoins(s, op);
    case _ =>
    hide JoinStep;
    hide ReaderStep;
    hide SessionStep;
  }

  lemma OfferingIsReady(s: State, c: ConsumerId)
    requires Runs.Reachable(s) && c < |s.cons| && s.cons[c].join.Offering?
    ensures !s.cons[c].closed && s.cons[c].join.todo != []
  {
    Runs.ReachableInv(s);
    assert Contents.ConsumerOk(s.mem, s.cons[c]) && History.LifeOk(s, c);
    hide Runs.Reachable;
    hide Runs.Inv;
  }

  lemma ReadyToInsert(s: State, c: ConsumerId)
    requires Runs.Reachable(s) && c < |s.cons| && s.cons[c].join == Sending([])
    ensures !s.cons[c].closed && s.cons[c].accepted == s.cons[c].snapshot
    ensures s.cons[c].snapshotAt <= |Announced(s)|
    ensures s.cons[c].snapshot == HeaderHistory.InitialPackets(Announced(s)[..s.cons[c].snapshotAt])
  {
    Runs.ReachableInv(s);
    assert Contents.ConsumerOk(s.mem, s.cons[c]) && History.LifeOk(s, c);
    assert HeaderHistory.SnapshotOk(Announced(s), s.cons[c]);
    assert PacketsOf(s.mem, []) == [] && s.cons[c].accepted + [] == s.cons[c].accepted;
  }

  lemma SessionJoins(s: State, op: SessionOp)
    ensures var s' := SessionStep(s, op);
      && s'.capacity == s.capacity && |s'.cons| == |s.cons|
      && (forall i :: 0 <= i < |s.cons| ==> s'.cons[i].join == s.cons[i].join)
  {
    SessionCapacity(s, op);
    if op.Distribute? {
      if Accounting.CanOffer(s, op.c) {
        Accounting.OfferFrame(s, op.c);
        hide Offer;
      }
    } else {
      Contents.SessionFrame(s, op);
      hide SessionStep;
    }
  }

  lemma SessionCapacity(s: State, op: SessionOp)
    ensures SessionStep(s, op).capacity == s.capacity
  {
    hide PacketOf;
    hide MetaBytes;
    hide CloseAll;
    hide Withheld;
  }

  lemma OfferTakes(s: State, c: ConsumerId)
    requires Runs.Reachable(s) && s.sess.Distributing? && c in s.sess.todo
    ensures var s' := SessionStep(s, SessionOp.Distribute(c));
      s'.sess.Distributing? && |s'.sess.todo| < |s.sess.todo|
  {
    MemberIsOpen(s, c);
    hide PacketOf;
    hide Withheld;
    assert |s.sess.todo - {c}| == |s.sess.todo| - 1;
  }

  ghost predicate SessionUndisturbed(s: State, s': State) {
    && s'.capacity == s.capacity && s'.sess == s.sess && s'.log == s.log && s'.mem.forgotten == s.mem.forgotten
    && (s.sess.Filling? ==> s'.mem.Bytes(s.sess.buf) == s.mem.Bytes(s.sess.buf) && s'.mem.Room(s.sess.buf) == s.mem.Room(s.sess.buf))
    && (s.sess.Armed? || s.sess.Distributing? ==> PacketOf(s'.mem, s.sess.mesg) == PacketOf(s.mem, s.sess.mesg))
    && (s.sess.Distributing? ==> s.consumers.Keys <= s'.consumers.Keys)
  }

  lemma FrameUndisturbed(s: State, s': State)
    requires Accounting.MemoryOk(s) && Accounting.MemoryOk(s') && Contents.BytesStay(s, s')
    requires Accounting.SameFrame(s, s') && s'.log == s.log && s'.capacity == s.capacity
    requires s'.mem.forgotten == s.mem.forgotten
    requires s.sess.Filling? ==> Accounting.SameBuffer(s.mem, s'.mem, s.sess.buf)
    ensures SessionUndisturbed(s, s')
  {
    if s.sess.Armed? || s.sess.Distributing? {
      Contents.MessageStays(s, s', s.sess.mesg, s.sess.own);
    }
  }

  lemma JoinUndisturbed(s: State, c: ConsumerId, op: JoinOp)
    requires Accounting.MemoryOk(s) && c < |s.cons|
    ensures SessionUndisturbed(s, JoinStep(s, c, op))
  {
    Accounting.JoinKeepsMemory(s, c, op);
    Contents.JoinBytesStay(s, c, op);
    Accounting.JoinFrame(s, c, op);
    Contents.JoinFrameOthers(s, c, op);
    Runs.JoinLedger(s, c, op);
    JoinCapacity(s, c, op);
    if s.sess.Filling? {
      Accounting.JoinSparesFilling(s, c, op);
    }
    hide JoinStep;
    FrameUndisturbed(s, JoinStep(s, c, op));
  }

  lemma ReaderUndisturbed(s: State, c: ConsumerId, op: ReaderOp)
    requires Accounting.MemoryOk(s) && c < |s.cons|
    ensures SessionUndisturbed(s, ReaderStep(s, c, op))
  {
    Accounting.ReaderKeepsMemory(s, c, op);
    Contents.ReaderBytesStay(s, c, op);
    Accounting.ReaderFrame(s, c, op);
    Contents.ReaderFrameOthers(s, c, op);
    Runs.ReaderLedger(s, c, op);
    ReaderCapacity(s, c, op);
    if s.sess.Filling? {
      Accounting.ReaderSparesFilling(s, c, op);
    }
    hide ReaderStep;
    FrameUndisturbed(s, ReaderStep(s, c, op));
  }

  lemma SpawnUndisturbed(s: State, step: Step)
    requires step.Create? || step.Collect?
    ensures SessionUndisturbed(s, Next(s, step))
  {
  }

  /** What the session holds is changed by no step of another thread. */
  lemma OtherStepFrame(s: State, step: Step)
    requires Runs.Reachable(s) && !step.Publishing?
    ensures SessionUndisturbed(s, Next(s, step))
  {
    Runs.ReachableInv(s);
    hide Runs.Reachable;
    hide Accounting.MemoryOk;
    hide JoinStep;
    hide ReaderStep;
    hide SessionUndisturbed;
    SameUndisturbed(s);
    match step
    case Joining(c, op) =>
      if c < |s.cons| {
        JoinUndisturbed(s, c, op);
      }
    case Reading(c, op) =>
      if c < |s.cons| {
        ReaderUndisturbed(s, c, op);
      }
    case _ =>
      SpawnUndisturbed(s, step);
  }

  lemma SameUndisturbed(s: State)
    ensures SessionUndisturbed(s, s)
  {
  }

  /** The packets of more, appended to what was published, make the goal. */
  ghost predicate StillToSend(log: seq<Packet>, more: Sent, goal: seq<Packet>, all: Sent) {
    goal == log + more.packets && all.err == more.err && all.rest == more.rest
  }

  lemma NextChunk(m: Template, held: seq<byte>, capacity: nat, first: bool, remaining: nat, src: Source,
                  log: seq<Packet>, goal: seq<Packet>, all: Sent)
    requires |held| < capacity && remaining > 0
    requires StillToSend(log, Chunks(m, held, capacity, first, remaining, src), goal, all)
    ensures var t := ReadN(src, Min(remaining, capacity - |held|));
      if t.err.Some? then goal == log && all.err == t.err && all.rest == t.rest
      else StillToSend(log + [m.Chunk(first, held + t.data)], Chunks(m, [], capacity, false, remaining - |t.data|, t.rest), goal, all)
  {
    var t := ReadN(src, Min(remaining, capacity - |held|));
    if t.err.None? {
      Associative(log, [m.Chunk(first, held + t.data)], Chunks(m, [], capacity, false, remaining - |t.data|, t.rest).packets);
    }
    hide ReadN;
  }

  lemma NoChunks(m: Template, held: seq<byte>, capacity: nat, first: bool, src: Source)
    requires |held| < capacity
    ensures Chunks(m, held, capacity, first, 0, src) == Sent([], None, src)
  {
  }

  /** n more buffers were dropped. */
  ghost predicate Forgot(before: multiset<BufId>, after: multiset<BufId>, n: nat) {
    before <= after && |after| == |before| + n
  }

  lemma SessionFramed(messages: seq<Inbound>, before: seq<Packet>)
    ensures Trace(before).Boundary? ==> (Trace(before + SessionLog(messages)).Broken? <==> !SessionFits(messages))
  {
    if Trace(before).Boundary? {
      SessionFramedExactly(messages, before);
    }
    hide *;
  }

  /** Whatever happened before the stop, every connection has been given the beginning of a run of frames. */
  lemma OutputsFramed(s: State)
    requires Runs.Reachable(s)
    ensures !Trace(s.log).Broken? ==>
      forall c :: 0 <= c < |s.cons| && !Runs.JoinedInside(s, c) ==> StartsFrames(s.cons[c].out)
  {
    if !Trace(s.log).Broken? {
      forall c | 0 <= c < |s.cons| && !Runs.JoinedInside(s, c)
        ensures StartsFrames(s.cons[c].out)
      {
        Runs.OutputIsFramed(s, c);
      }
    }
    hide *;
  }

  ghost predicate SessionAt(messages: seq<Inbound>, i: nat)
    requires i <= |messages|
  {
    && SessionLog(messages[i..]) == (
      if i == |messages| || messages[i].CloseStream? then []
      else if Handle(messages[i]).err.Some? then Handle(messages[i]).packets
      else Handle(messages[i]).packets + SessionLog(messages[i + 1..]))
    && SessionForgotten(messages[i..]) ==
      if i == |messages| || messages[i].CloseStream? then 0
      else Forgotten(messages[i]) + if Handle(messages[i]).err.Some? then 0 else SessionForgotten(messages[i + 1..])
  }

  lemma SessionUnfold(messages: seq<Inbound>, i: nat)
    requires i <= |messages|
    ensures SessionAt(messages, i)
  {
    hide Handle;
    hide Forgotten;
    if i < |messages| {
      assert messages[i..][1..] == messages[i + 1..];
    }
  }

  lemma UnitsUnfold(source: Source, timestamp: uint32)
    ensures var u, all := VideoUnit(source, timestamp), VideoUnits(source, timestamp);
      all == if u.done || u.sent.err.Some? then u.sent
             else (var more := VideoUnits(u.sent.rest, timestamp); Sent(u.sent.packets + more.packets, more.err, more.rest))
    ensures var u := VideoUnit(source, timestamp);
      UnitsForgotten(source, timestamp) == (if UnitForgotten(source) then 1 else 0)
        + if u.done || u.sent.err.Some? then 0 else UnitsForgotten(u.sent.rest, timestamp)
  {
    hide VideoUnit;
  }

  /** A consumer in the map of a live publisher is open, so a round of the loop always ends in one of
      three ways: withheld, accepted or refused. */
  lemma MemberIsOpen(s: State, c: ConsumerId)
    requires Runs.Reachable(s) && s.sess.Distributing? && c in s.sess.todo
    ensures Accounting.CanOffer(s, c) && !s.cons[c].closed
  {
    Runs.ReachableInv(s);
    assert c in s.consumers.Keys;
    assert History.LifeOk(s, c);
  }

  /** A round of the loop is an offer, which leaves the rest of the session's affairs alone. */
  lemma OfferShape(s: State, c: ConsumerId)
    requires Accounting.CanOffer(s, c) && !s.cons[c].closed
    ensures var s' := Offer(s, c);
      && SessionStep(s, SessionOp.Distribute(c)) == s'
      && s'.capacity == s.capacity && s'.log == s.log && s'.mem.forgotten == s.mem.forgotten
      && s'.sess.Distributing? && s'.sess.mesg == s.sess.mesg && s'.sess.own == s.sess.own
      && s'.sess.todo == s.sess.todo - {c}
  {
    hide PacketOf;
    hide Withheld;
  }

  lemma OfferStays(s: State, c: ConsumerId)
    requires Runs.Reachable(s) && s.sess.Distributing? && c in s.sess.todo
    ensures c in s.consumers && c < |s.cons| && !s.cons[c].closed
    ensures PacketOf(Offer(s, c).mem, s.sess.mesg) == PacketOf(s.mem, s.sess.mesg)
  {
    MemberIsOpen(s, c);
    Runs.ReachableInv(s);
    hide Accounting.MemoryOk;
    hide Contents.BytesStay;
    var s' := Offer(s, c);
    assert s' == SessionStep(s, SessionOp.Distribute(c));
    Accounting.DistributeAccounts(s, c);
    Contents.SessionBytesStay(s, SessionOp.Distribute(c));
    Accounting.OfferFrame(s, c);
    hide Offer;
    Contents.MessageStays(s, s', s.sess.mesg, s.sess.own);
  }

  lemma JoinCapacity(s: State, c: ConsumerId, op: JoinOp)
    requires c < |s.cons|
    ensures JoinStep(s, c, op).capacity == s.capacity
  {
    hide PacketOf;
    hide PacketsOf;
    hide Headers;
    hide Announced;
  }

  lemma ReaderCapacity(s: State, c: ConsumerId, op: ReaderOp)
    requires c < |s.cons|
    ensures ReaderStep(s, c, op).capacity == s.capacity
  {
    hide PacketOf;
    hide WireOf;
  }
}
