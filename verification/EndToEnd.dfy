/** From length-prefixed units on the publisher's side to parsed frames on the consumer's. */
module EndToEnd {
  import opened Prelude
  import opened Wire
  import opened Packets
  import Readers
  import opened Ingest
  import opened Machine
  import opened Runs

  /** The consumer was inserted, was never refused or removed, and has written all it was given so far; the
      session is between messages, and the last thing it handled is m. */
  ghost predicate CaughtUp(s: State, c: ConsumerId, earlier: seq<Packet>, m: Inbound) {
    && Reachable(s) && c < |s.cons| && Inserted(s.cons[c]) && s.cons[c].endedAt.None? && s.sess.Idle?
    && s.log == earlier + Handle(m).packets && s.cons[c].joinedAt <= |earlier|
    && s.cons[c].reader.Ready? && s.cons[c].queue == []
  }

  /** What it has written since is complete frames that a client reads as these messages. */
  ghost predicate Arrived(s: State, c: ConsumerId, earlier: seq<Packet>, messages: seq<Received>)
    requires c < |s.cons| && s.cons[c].joinedAt <= |earlier|
  {
    exists written ::
      && s.cons[c].out == WireAll(s.cons[c].snapshot + Deliver(earlier[s.cons[c].joinedAt..])) + written
      && ReadsAs(written, messages)
  }

  /** For every H.264 message, every list of units in it and every chunking of its bytes: what a consumer wrote
      for it is exactly one final binary frame per carried unit, in order, which the client reads as video with
      the message's timestamp, a key frame exactly for type 5, and the unit as it came, length prefix included;
      from the first unit on if the consumer's gate was open, and from the first key unit on if it was closed. */
  lemma UnitsArriveAsFrames(s: State, c: ConsumerId, earlier: seq<Packet>, length: uint32, timestamp: uint32,
                            data: Readers.Source, tag: seq<byte>, units: seq<seq<byte>>)
    requires CaughtUp(s, c, earlier, VideoMessage(length, timestamp, data))
    requires Readers.Clean(data) && |tag| == 5 && tag[0] % 16 == 7 && tag[1] == 1
    requires Readers.Stream(data) == tag + UnitsBytes(units) && UnitsShort(units)
    ensures var mine := earlier[s.cons[c].joinedAt..];
      Arrived(s, c, earlier, UnitMessages(if GateOpen(mine) then units else FromKeyUnit(units), timestamp))
  {
    var r, sent := s.cons[c], Handle(VideoMessage(length, timestamp, data)).packets;
    var mine := earlier[r.joinedAt..];
    var passed := if GateOpen(mine) then sent else Deliver(sent);
    var arrived := if GateOpen(mine) then units else FromKeyUnit(units);
    VideoUnitsHandled(length, timestamp, data, tag, units);
    UnitBodiesRead(arrived, timestamp);
    BodiesArrive(passed, UnitMessages(arrived, timestamp));
    assert CaughtUp(s, c, earlier, VideoMessage(length, timestamp, data));
    assert c < |s.cons| && Inserted(s.cons[c]) && s.cons[c].endedAt.None? && s.sess.Idle?;
    hide Handle;
    hide Reachable;
    hide Deliver;
    hide GateOpen;
    hide WireAll;
    hide ReadsAs;
    hide Bodies;
    hide Trace;
    OutputIsEverything(s, c, earlier, sent);
  }

  lemma BodiesArrive(sent: seq<Packet>, messages: seq<Received>)
    requires Trace(sent).Boundary? && |Bodies(sent)| == |messages|
    requires forall i :: 0 <= i < |messages| ==> Decode(WsFrame(true, 2, Bodies(sent)[i])) == Some(messages[i])
    ensures ReadsAs(WireAll(sent), messages)
  {
    FinishedRunParses(sent);
    hide WireAll;
    hide Bodies;
    hide Trace;
    hide Decode;
  }

  /** Messages without a gate arrive whatever the state of the gate. */
  lemma OthersArrive(s: State, c: ConsumerId, earlier: seq<Packet>, m: Inbound, messages: seq<Received>)
    requires CaughtUp(s, c, earlier, m)
    requires var sent := Handle(m).packets;
      && Trace(sent).Boundary? && |Bodies(sent)| == |messages|
      && (forall i :: 0 <= i < |sent| ==> !sent[i].kind.Video?)
      && (forall i :: 0 <= i < |messages| ==> Decode(WsFrame(true, 2, Bodies(sent)[i])) == Some(messages[i]))
    ensures Arrived(s, c, earlier, messages)
  {
    var r, sent := s.cons[c], Handle(m).packets;
    BodiesArrive(sent, messages);
    hide Handle;
    hide Reachable;
    hide Deliver;
    hide GateOpen;
    hide WireAll;
    hide ReadsAs;
    hide Bodies;
    hide Trace;
    hide Decode;
    OutputSoFar(s, c);
    DropOfAppend(earlier, sent, r.joinedAt);
    OtherKindsAreDelivered(earlier[r.joinedAt..], sent);
    Associative(r.snapshot, Deliver(earlier[r.joinedAt..]), sent);
    WireAllAppend(r.snapshot + Deliver(earlier[r.joinedAt..]), sent);
  }

  /** An AAC message arrives as one frame with the announced bytes. */
  lemma AudioArrivesAsFrame(s: State, c: ConsumerId, earlier: seq<Packet>, length: uint32, timestamp: uint32,
                            data: Readers.Source, tag: seq<byte>, body: seq<byte>)
    requires CaughtUp(s, c, earlier, AudioMessage(length, timestamp, data))
    requires Readers.Clean(data) && |tag| == 2 && tag[0] / 16 == 10 && tag[1] == 1
    requires Readers.Stream(data) == tag + body && 2 < length <= TWO_TO_32 - 5 && length - 2 <= |body|
    ensures Arrived(s, c, earlier, [Received(Audio, false, false, timestamp, body[..length - 2])])
  {
    AudioDataHandled(length, timestamp, data, tag, body);
    MessageReads(Audio, false, false, timestamp, body[..length - 2]);
    OthersArrive(s, c, earlier, AudioMessage(length, timestamp, data), [Received(Audio, false, false, timestamp, body[..length - 2])]);
    hide *;
  }

  /** A message of one packet, whole. */
  lemma WholeArrives(s: State, c: ConsumerId, earlier: seq<Packet>, m: Inbound, kind: Kind, payload: seq<byte>)
    requires CaughtUp(s, c, earlier, m) && !kind.Video? && |payload| + MESSAGE_HEADER_SIZE < TWO_TO_32
    requires Handle(m).packets == [Packet(kind, 0, 0, |payload|, payload)]
    ensures Arrived(s, c, earlier, [Received(kind, false, false, 0, payload)])
  {
    var p := Packet(kind, 0, 0, |payload|, payload);
    assert [p][..0] == [];
    assert Bodies([p]) == [MessageHeader(kind, 0, 0) + payload];
    WholePacketTrace(p, []);
    assert [] + [p] == [p];
    assert Flags(false, false) == 0;
    MessageReads(kind, false, false, 0, payload);
    hide Bodies;
    hide Trace;
    hide MessageHeader;
    OthersArrive(s, c, earlier, m, [Received(kind, false, false, 0, payload)]);
  }

  /** The video codec header, */
  lemma VideoHeaderArrives(s: State, c: ConsumerId, earlier: seq<Packet>, length: uint32, timestamp: uint32,
                           data: Readers.Source, tag: seq<byte>, body: seq<byte>)
    requires CaughtUp(s, c, earlier, VideoMessage(length, timestamp, data))
    requires Readers.Clean(data) && |tag| == 5 && tag[0] % 16 == 7 && tag[1] == 0
    requires Readers.Stream(data) == tag + body && 5 <= length <= 517 && length - 5 <= |body|
    ensures Arrived(s, c, earlier, [Received(VideoSeqHdr, false, false, 0, body[..length - 5])])
  {
    hide Handle;
    hide CaughtUp;
    hide Arrived;
    hide Readers.Stream;
    hide Readers.Clean;
    VideoHeaderHandled(length, timestamp, data, tag, body);
    assert Wrap32(length - 5) == length - 5;
    WholeArrives(s, c, earlier, VideoMessage(length, timestamp, data), VideoSeqHdr, body[..length - 5]);
  }

  /** the audio codec header, */
  lemma AudioHeaderArrives(s: State, c: ConsumerId, earlier: seq<Packet>, length: uint32, timestamp: uint32,
                           data: Readers.Source, tag: seq<byte>, body: seq<byte>)
    requires CaughtUp(s, c, earlier, AudioMessage(length, timestamp, data))
    requires Readers.Clean(data) && |tag| == 2 && tag[0] / 16 == 10 && tag[1] == 0
    requires Readers.Stream(data) == tag + body && 2 <= length <= 514 && length - 2 <= |body|
    ensures Arrived(s, c, earlier, [Received(AudioSeqHdr, false, false, 0, body[..length - 2])])
  {
    hide Handle;
    hide CaughtUp;
    hide Arrived;
    hide Readers.Stream;
    hide Readers.Clean;
    AudioHeaderHandled(length, timestamp, data, tag, body);
    assert Wrap32(length - 2) == length - 2;
    WholeArrives(s, c, earlier, AudioMessage(length, timestamp, data), AudioSeqHdr, body[..length - 2]);
  }

  /** and the metadata arrive as one frame each. */
  lemma MetaArrives(s: State, c: ConsumerId, earlier: seq<Packet>, meta: MetaData)
    requires CaughtUp(s, c, earlier, MetaDataMessage(meta))
    ensures exists payload ::
      && |payload| == 14 && ReadMeta(payload) == meta
      && Arrived(s, c, earlier, [Received(Meta, false, false, 0, payload)])
  {
    MetaHandled(meta);
    var payload := Handle(MetaDataMessage(meta)).packets[0].payload;
    assert Handle(MetaDataMessage(meta)).packets == [Packet(Meta, 0, 0, 14, payload)] && |payload| == 14;
    hide Handle;
    hide Reachable;
    hide ReadMeta;
    WholeArrives(s, c, earlier, MetaDataMessage(meta), Meta, payload);
    hide Arrived;
  }

  lemma OutputIsEverything(s: State, c: ConsumerId, earlier: seq<Packet>, sent: seq<Packet>)
    requires Reachable(s) && c < |s.cons| && Inserted(s.cons[c]) && s.cons[c].endedAt.None? && s.sess.Idle?
    requires s.log == earlier + sent && s.cons[c].joinedAt <= |earlier|
    requires s.cons[c].reader.Ready? && s.cons[c].queue == []
    ensures var mine := earlier[s.cons[c].joinedAt..];
      s.cons[c].out == WireAll(s.cons[c].snapshot + Deliver(mine)) + WireAll(if GateOpen(mine) then sent else Deliver(sent))
  {
    hide *;
    var r := s.cons[c];
    GateWire(r.snapshot, earlier[r.joinedAt..], sent);
    OutputSoFar(s, c);
    DropOfAppend(earlier, sent, r.joinedAt);
  }

  lemma DropOfAppend<T>(a: seq<T>, b: seq<T>, j: nat)
    requires j <= |a|
    ensures (a + b)[j..] == a[j..] + b
  {
  }

  lemma GateWire(snapshot: seq<Packet>, mine: seq<Packet>, sent: seq<Packet>)
    ensures WireAll(snapshot + Deliver(mine + sent)) ==
      WireAll(snapshot + Deliver(mine)) + WireAll(if GateOpen(mine) then sent else Deliver(sent))
  {
    var passed := if GateOpen(mine) then sent else Deliver(sent);
    if GateOpen(mine) {
      OpenGateDeliversAll(mine, sent);
    } else {
      ClosedGateStartsAnew(mine, sent);
    }
    hide *;
    Associative(snapshot, Deliver(mine), passed);
    WireAllAppend(snapshot + Deliver(mine), passed);
  }

  lemma OutputSoFar(s: State, c: ConsumerId)
    requires Reachable(s) && c < |s.cons| && Inserted(s.cons[c]) && s.cons[c].endedAt.None? && s.sess.Idle?
    requires s.cons[c].reader.Ready? && s.cons[c].queue == []
    ensures s.cons[c].joinedAt <= |s.log|
    ensures s.cons[c].out == WireAll(s.cons[c].snapshot + Deliver(s.log[s.cons[c].joinedAt..]))
  {
    UpToDate(s, c);
    ReachableInv(s);
    OutputIsAccepted(s, c);
  }

  /** Between messages, a consumer that stays and has written all it accepted has written complete frames
      and nothing else: one for each message it accepted, retained headers included, in order. */
  lemma OutputParses(s: State, c: ConsumerId)
    requires Reachable(s) && c < |s.cons| && Inserted(s.cons[c]) && s.cons[c].endedAt.None? && s.sess.Idle?
    requires Trace(s.log).Boundary? && !JoinedInside(s, c)
    requires s.cons[c].reader.Ready? && s.cons[c].queue == []
    ensures ParseFrames(s.cons[c].out) == Frames(Binary(Bodies(s.cons[c].accepted)), [])
  {
    var r := s.cons[c];
    InsertedGiven(s, c);
    UpToDate(s, c);
    EverythingWritten(s, c);
    assert End(s, c) == |s.log| by {
      hide Reachable;
    }
    DeliveredToBoundary(s.log, r.joinedAt);
    SmallWholeIsBoundary(r.snapshot);
    TraceFromBoundary(r.snapshot, Deliver(s.log[r.joinedAt..]));
    FinishedRunParses(r.accepted);
    hide *;
  }

  lemma DeliveredToBoundary(log: seq<Packet>, j: nat)
    requires j <= |log| && Trace(log).Boundary? && !(j < |log| && InsideUngated(Trace(log[..j])))
    ensures Trace(Deliver(log[j..])).Boundary?
  {
    hide Advance;
    hide Withheld;
    if j == |log| {
      assert log[j..] == [];
    } else {
      GateKeepsStep(log, j);
    }
  }

  lemma EverythingWritten(s: State, c: ConsumerId)
    requires Reachable(s) && c < |s.cons| && s.cons[c].reader.Ready? && s.cons[c].queue == []
    ensures s.cons[c].out == WireAll(s.cons[c].accepted)
  {
    ReachableInv(s);
    OutputIsAccepted(s, c);
    hide *;
  }
}
