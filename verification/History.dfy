/** What each consumer was given, and when: the retained headers as they were, then every message that
    passes the gate, up to the first refusal; and that nothing is sent on a closed queue. */
module History {
  import opened Prelude
  import opened Wire
  import opened Packets
  import opened Machine
  import opened Accounting
  import opened Contents

  /** The published messages that were already offered to a consumer. */
  function Seen(s: State, c: ConsumerId): seq<Packet> {
    if s.sess.Distributing? && c in s.sess.todo then s.log[..Before(s.log)] else s.log
  }

  /** Given everything from its insertion on, up to some point, that passes the gate. */
  ghost predicate Given(r: Consumer, log: seq<Packet>) {
    r.joinedAt <= |log| && r.accepted == r.snapshot + Deliver(log[r.joinedAt..])
  }

  ghost predicate BeingEvicted(s: State, c: ConsumerId) {
    || (s.sess.Distributing? && c in s.sess.refused && c !in s.sess.todo)
    || (s.sess.Evicting? && c in s.sess.refused)
  }

  /** An inserted consumer is in the map and open, up to date and with the gate as recorded; or it was
      refused or removed, was given everything before that, and is out of the map and closed as soon as
      the refusal is dealt with. */
  ghost predicate InsertedOk(s: State, c: ConsumerId)
    requires c < |s.cons|
  {
    var r := s.cons[c];
    match r.endedAt
    case None =>
      && c in s.consumers && Given(r, Seen(s, c))
      && s.consumers[c] == GateOpen(Seen(s, c)[r.joinedAt..])
      && (r.closed ==> s.sess.Stopped?)
    case Some(end) =>
      && end <= |s.log| && Given(r, s.log[..end])
      && (if c in s.consumers then BeingEvicted(s, c) else r.closed)
  }

  ghost predicate LifeOk(s: State, c: ConsumerId)
    requires c < |s.cons|
  {
    var r := s.cons[c];
    match r.join
    case Member => InsertedOk(s, c)
    case Left => r.endedAt.Some? && InsertedOk(s, c)
    case Failed => r.closed
    case Rejected => false
    case _ => !r.closed && r.endedAt.None?
  }

  ghost predicate LivesOk(s: State) {
    forall c :: 0 <= c < |s.cons| ==> LifeOk(s, c)
  }

  /** Whoever is to be evicted was refused something. */
  ghost predicate RefusalsOk(s: State) {
    s.sess.Distributing? || s.sess.Evicting? ==>
      forall c :: c in s.sess.refused ==> c < |s.cons| && s.cons[c].endedAt.Some?
  }

  ghost predicate HistoryOk(s: State) {
    !s.sentOnClosed && LivesOk(s) && RefusalsOk(s)
  }

  // ---- Steps of other threads ----

  /** A step that leaves the session, the log, a consumer's record and its map entry alone. */
  lemma BystanderLife(s: State, s': State, c: ConsumerId)
    requires c < |s.cons| && c < |s'.cons| && LifeOk(s, c)
    requires s'.sess == s.sess && s'.log == s.log
    requires (c in s'.consumers <==> c in s.consumers) && (c in s.consumers ==> s'.consumers[c] == s.consumers[c])
    requires SameLife(s.cons[c], s'.cons[c])
    ensures LifeOk(s', c)
  {
    hide Deliver;
    hide GateOpen;
  }

  ghost predicate SameLife(r: Consumer, r': Consumer) {
    && r'.join == r.join && r'.accepted == r.accepted && r'.snapshot == r.snapshot
    && r'.joinedAt == r.joinedAt && r'.endedAt == r.endedAt && r'.closed == r.closed
  }

  lemma ReaderLife(s: State, c: ConsumerId, op: ReaderOp)
    requires c < |s.cons|
    ensures var s' := ReaderStep(s, c, op);
      s'.sentOnClosed == s.sentOnClosed && |s'.cons| == |s.cons| && forall i :: 0 <= i < |s.cons| ==> SameLife(s.cons[i], s'.cons[i])
  {
    hide PacketOf;
    hide WireOf;
  }

  lemma ReaderKeepsHistory(s: State, c: ConsumerId, op: ReaderOp)
    requires HistoryOk(s) && c < |s.cons|
    ensures HistoryOk(ReaderStep(s, c, op))
  {
    var s' := ReaderStep(s, c, op);
    ReaderLife(s, c, op);
    ReaderFrame(s, c, op);
    ReaderFrameOthers(s, c, op);
    hide ReaderStep;
    hide LifeOk;
    forall i | 0 <= i < |s'.cons|
      ensures LifeOk(s', i)
    {
      BystanderLife(s, s', i);
    }
  }

  lemma JoinOthersLife(s: State, c: ConsumerId, op: JoinOp)
    requires c < |s.cons|
    ensures var s' := JoinStep(s, c, op);
      forall i :: i != c ==> (i in s'.consumers <==> i in s.consumers) && (i in s.consumers ==> s'.consumers[i] == s.consumers[i])
    ensures s.cons[c].endedAt.Some? ==> JoinStep(s, c, op).cons[c].endedAt.Some?
  {
    hide PacketOf;
    hide PacketsOf;
    hide Headers;
    hide Announced;
  }

  lemma JoinOwnLife(s: State, c: ConsumerId, op: JoinOp)
    requires c < |s.cons| && LifeOk(s, c) && !s.sentOnClosed && OnlyMembers(s) && JoinOk(s.mem, s.cons[c])
    ensures var s' := JoinStep(s, c, op); LifeOk(s', c) && !s'.sentOnClosed
  {
    hide PacketOf;
    hide Headers;
    hide Announced;
    var s', r := JoinStep(s, c, op), s.cons[c];
    if op.Insert? && s' != s {
      assert PacketsOf(s.mem, []) == [];
      assert s.log[|s.log|..] == [];
      assert r.accepted + [] == r.accepted;
    } else if op.Remove? && s' != s {
      assert s.log[..|s.log|] == s.log;
    }
  }

  lemma JoinBystander(s: State, c: ConsumerId, op: JoinOp, i: ConsumerId)
    requires c < |s.cons| && i < |s.cons| && i != c && LifeOk(s, i)
    ensures LifeOk(JoinStep(s, c, op), i)
  {
    JoinOthersLife(s, c, op);
    JoinFrame(s, c, op);
    JoinFrameOthers(s, c, op);
    hide JoinStep;
    hide LifeOk;
    BystanderLife(s, JoinStep(s, c, op), i);
  }

  lemma JoinRefusals(s: State, c: ConsumerId, op: JoinOp)
    requires c < |s.cons| && RefusalsOk(s)
    ensures RefusalsOk(JoinStep(s, c, op))
  {
    JoinOthersLife(s, c, op);
    JoinFrame(s, c, op);
    JoinFrameOthers(s, c, op);
    hide JoinStep;
  }

  lemma JoinKeepsHistory(s: State, c: ConsumerId, op: JoinOp)
    requires ContentOk(s) && HistoryOk(s) && c < |s.cons|
    ensures HistoryOk(JoinStep(s, c, op))
  {
    var s' := JoinStep(s, c, op);
    JoinOwnLife(s, c, op);
    JoinRefusals(s, c, op);
    hide JoinStep;
    hide LifeOk;
    hide ContentOk;
    hide RefusalsOk;
    forall i | 0 <= i < |s'.cons|
      ensures LifeOk(s', i)
    {
      if i != c {
        JoinBystander(s, c, op, i);
      }
    }
  }

  // ---- The session ----

  lemma OfferedNext(s: State, c: ConsumerId)
    requires CanOffer(s, c) && SessionOk(s) && Given(s.cons[c], Seen(s, c))
    ensures var seen, p, j := Seen(s, c), PacketOf(s.mem, s.sess.mesg), s.cons[c].joinedAt;
      && s.log == seen + [p] && s.log[..|s.log| - 1] == seen && s.log[j..] == seen[j..] + [p]
  {
    hide PacketOf;
    hide Deliver;
  }

  /** What an offer does to the consumer's record and its gate. */
  lemma OfferEffect(s: State, c: ConsumerId)
    requires CanOffer(s, c) && SessionOk(s) && OnlyMembers(s) && LifeOk(s, c) && !s.sentOnClosed
    ensures var s', r, p := Offer(s, c), s.cons[c], PacketOf(s.mem, s.sess.mesg);
      var r' := s'.cons[c];
      && !s'.sentOnClosed && s'.log == s.log && s'.sess.Distributing? && c !in s'.sess.todo && c in s'.consumers
      && r' == r.(queue := r'.queue, accepted := r'.accepted, endedAt := r'.endedAt)
      && if Withheld(s.consumers[c], p) then r' == r && s'.consumers == s.consumers
         else if r'.endedAt.None? then
           && r'.accepted == r.accepted + [p]
           && s'.consumers[c] == (s.consumers[c] || (p.kind.Video? && p.IsKeyFrame()))
         else r'.accepted == r.accepted && r'.endedAt == Some(|s.log| - 1) && c in s'.sess.refused
  {
    hide Deliver;
    hide GateOpen;
    hide Withheld;
  }

  lemma OfferLife(s: State, c: ConsumerId)
    requires CanOffer(s, c) && SessionOk(s) && OnlyMembers(s) && LifeOk(s, c) && !s.sentOnClosed
    ensures var s' := Offer(s, c); LifeOk(s', c) && !s'.sentOnClosed
  {
    var r, p, seen := s.cons[c], PacketOf(s.mem, s.sess.mesg), Seen(s, c);
    OfferEffect(s, c);
    hide Offer;
    OfferedNext(s, c);
    DeliverStep(seen[r.joinedAt..], p);
    Associative(r.snapshot, Deliver(seen[r.joinedAt..]), [p]);
    hide PacketOf;
    hide Deliver;
    hide GateOpen;
  }

  lemma OfferOthersLife(s: State, c: ConsumerId, i: ConsumerId)
    requires CanOffer(s, c) && i < |s.cons| && i != c && LifeOk(s, i)
    ensures LifeOk(Offer(s, c), i)
  {
    OfferOthersShape(s, c, i);
    hide Offer;
    hide Given;
    hide GateOpen;
  }

  lemma OfferOthersShape(s: State, c: ConsumerId, i: ConsumerId)
    requires CanOffer(s, c) && i < |s.cons| && i != c
    ensures var s' := Offer(s, c);
      && s'.log == s.log && |s'.cons| == |s.cons| && s'.cons[i] == s.cons[i] && s'.sess.Distributing?
      && (i in s'.consumers <==> i in s.consumers) && (i in s.consumers ==> s'.consumers[i] == s.consumers[i])
      && (i in s'.sess.todo <==> i in s.sess.todo) && (i in s'.sess.refused <==> i in s.sess.refused)
  {
    hide PacketOf;
    hide Withheld;
  }

  lemma OfferRefusals(s: State, c: ConsumerId)
    requires CanOffer(s, c) && RefusalsOk(s)
    ensures RefusalsOk(Offer(s, c))
  {
    hide PacketOf;
    hide Withheld;
  }

  lemma OfferKeepsHistory(s: State, c: ConsumerId)
    requires CanOffer(s, c) && ContentOk(s) && HistoryOk(s)
    ensures HistoryOk(Offer(s, c))
  {
    OfferLife(s, c);
    OfferRefusals(s, c);
    OfferFrame(s, c);
    hide LifeOk;
    forall i | 0 <= i < |s.cons| && i != c
      ensures LifeOk(Offer(s, c), i)
    {
      OfferOthersLife(s, c, i);
    }
    hide Offer;
  }

  lemma BeginLife(s: State, c: ConsumerId)
    requires s.sess.Armed? && c < |s.cons| && LifeOk(s, c)
    ensures LifeOk(SessionStep(s, Begin), c)
  {
    hide PacketOf;
    hide Deliver;
    hide GateOpen;
    var s' := SessionStep(s, Begin);
    assert s'.log[..|s.log|] == s.log;
    if s.cons[c].endedAt.Some? && s.cons[c].endedAt.value <= |s.log| {
      assert s'.log[..s.cons[c].endedAt.value] == s.log[..s.cons[c].endedAt.value];
    }
  }

  ghost predicate Calm(s: State, op: SessionOp) {
    (s.sess.Idle? && !op.Stop?) || s.sess.Filling? || (s.sess.Armed? && !op.Begin?) || s.sess.Settling? || s.sess.Stopped?
  }

  lemma CalmShape(s: State, op: SessionOp)
    requires Calm(s, op)
    ensures var s' := SessionStep(s, op);
      && s'.log == s.log && s'.consumers == s.consumers && s'.cons == s.cons
      && !s'.sess.Distributing? && !s'.sess.Evicting? && (s.sess.Stopped? ==> s'.sess.Stopped?)
  {
    hide PacketOf;
    hide MetaBytes;
  }

  /** A step that neither publishes, evicts nor stops. */
  lemma CalmLife(s: State, op: SessionOp, c: ConsumerId)
    requires c < |s.cons| && LifeOk(s, c) && Calm(s, op)
    ensures LifeOk(SessionStep(s, op), c)
  {
    CalmShape(s, op);
    hide SessionStep;
    hide Given;
    hide GateOpen;
  }

  lemma LoopLife(s: State, op: SessionOp, c: ConsumerId)
    requires c < |s.cons| && LifeOk(s, c) && RefusalsOk(s)
    requires (s.sess.Distributing? && !op.Distribute?) || s.sess.Evicting?
    ensures c < |SessionStep(s, op).cons| && LifeOk(SessionStep(s, op), c)
  {
    hide PacketOf;
    hide Deliver;
    hide GateOpen;
  }

  lemma StopLife(s: State, c: ConsumerId)
    requires c < |s.cons| && LifeOk(s, c) && OnlyMembers(s) && s.sess.Idle?
    ensures c < |SessionStep(s, SessionOp.Stop).cons| && LifeOk(SessionStep(s, SessionOp.Stop), c)
  {
    var s', r := SessionStep(s, SessionOp.Stop), s.cons[c];
    assert s'.cons[c] == if c in s.consumers then r.(closed := true) else r;
    assert s'.log == s.log && s'.consumers == s.consumers && s'.sess.Stopped?;
    hide SessionStep;
    hide CloseAll;
    hide Given;
    hide GateOpen;
    assert c in s.consumers ==> r.join.Member?;
    assert r.join.Member? || r.join.Left? ==> InsertedOk(s', c);
  }

  lemma QuietLife(s: State, op: SessionOp, c: ConsumerId)
    requires c < |s.cons| && LifeOk(s, c) && RefusalsOk(s) && OnlyMembers(s)
    requires !op.Distribute? && !(s.sess.Armed? && op.Begin?)
    ensures |SessionStep(s, op).cons| == |s.cons| && LifeOk(SessionStep(s, op), c)
  {
    SessionFrame(s, op);
    if Calm(s, op) {
      CalmLife(s, op, c);
    } else if s.sess.Idle? {
      StopLife(s, c);
    } else {
      LoopLife(s, op, c);
    }
    hide LifeOk;
    hide SessionStep;
  }

  lemma QuietRefusals(s: State, op: SessionOp)
    requires RefusalsOk(s) && !op.Distribute?
    ensures RefusalsOk(SessionStep(s, op)) && SessionStep(s, op).sentOnClosed == s.sentOnClosed
  {
    hide PacketOf;
    hide MetaBytes;
  }

  lemma SessionKeepsHistory(s: State, op: SessionOp)
    requires ContentOk(s) && HistoryOk(s)
    ensures HistoryOk(SessionStep(s, op))
  {
    if op.Distribute? {
      if CanOffer(s, op.c) {
        OfferKeepsHistory(s, op.c);
      }
    } else {
      SessionFrame(s, op);
      QuietRefusals(s, op);
      hide LifeOk;
      forall c | 0 <= c < |s.cons|
        ensures LifeOk(SessionStep(s, op), c)
      {
        if s.sess.Armed? && op.Begin? {
          BeginLife(s, c);
        } else {
          QuietLife(s, op, c);
        }
      }
      hide SessionStep;
    }
  }

  lemma SpawnKeepsHistory(s: State, step: Step)
    requires HistoryOk(s) && (step.Create? || step.Collect?)
    ensures HistoryOk(Next(s, step))
  {
    var s' := Next(s, step);
    hide LifeOk;
    forall i | 0 <= i < |s'.cons|
      ensures LifeOk(s', i)
    {
      if i < |s.cons| {
        BystanderLife(s, s', i);
      } else {
        NewLife(s', i);
      }
    }
  }

  lemma NewLife(s: State, c: ConsumerId)
    requires c < |s.cons| && s.cons[c] == NEW_CONSUMER
    ensures LifeOk(s, c)
  {
  }
}
