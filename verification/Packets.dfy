/** Messages as a consumer sees them: their flags, their bytes on the wire, how runs of them make
    frames, and the key-frame gate that decides which of them a late joiner is given. */
module Packets {
  import opened Prelude
  import opened Wire

  datatype Kind = Video | VideoSeqHdr | Audio | AudioSeqHdr | Meta

  function KindCode(k: Kind): byte {
    match k
    case Video => 0
    case VideoSeqHdr => 1
    case Audio => 2
    case AudioSeqHdr => 3
    case Meta => 4
  }

  /** FlagKeyFrame is bit 0 of the flags and FlagContinuation is bit 1. */
  function Flags(key: bool, continuation: bool): byte {
    (if key then 1 else 0) + (if continuation then 2 else 0)
  }

  /** A message together with the bytes of its buffer. */
  datatype Packet = Packet(kind: Kind, flags: byte, timestamp: uint32, length: uint32, payload: seq<byte>) {
    predicate IsKeyFrame() {
      flags % 2 == 1
    }

    predicate IsContinuation() {
      flags / 2 % 2 == 1
    }
  }

  // ---- The wire form (transport/ws_media/consumer.go) ----

  const MESSAGE_HEADER_SIZE := 6

  function MessageHeader(kind: Kind, flags: byte, timestamp: uint32): (h: seq<byte>)
    ensures |h| == MESSAGE_HEADER_SIZE
  {
    [KindCode(kind), flags] + BigEndian(4, timestamp)
  }

  /** A first chunk is preceded by the frame header, whose length is computed in uint32, and by the
      message header; a continuation is bare. */
  function WireOf(p: Packet): seq<byte> {
    if p.IsContinuation() then p.payload
    else FrameHeader(Wrap32(p.length + MESSAGE_HEADER_SIZE)) + MessageHeader(p.kind, p.flags, p.timestamp) + p.payload
  }

  function WireAll(ps: seq<Packet>): seq<byte> {
    if |ps| == 0 then [] else WireAll(ps[..|ps| - 1]) + WireOf(ps[|ps| - 1])
  }

  /** What it means that a connection with room for budget bytes is given some: all of them or, with an error,
      as many as it takes. */
  predicate Wrote(bytes: seq<byte>, before: seq<byte>, budget: nat, out: seq<byte>, left: nat, ok: bool) {
    && ok == (|bytes| <= budget) && left == budget - Min(|bytes|, budget)
    && out == before + bytes[..Min(|bytes|, budget)]
  }

  lemma {:induction false} WireAllAppend(a: seq<Packet>, b: seq<Packet>)
    ensures WireAll(a + b) == WireAll(a) + WireAll(b)
  {
    if |b| == 0 {
      assert a + b == a;
    } else {
      WireAllAppend(a, b[..|b| - 1]);
      assert (a + b)[..|a + b| - 1] == a + b[..|b| - 1];
      Associative(WireAll(a), WireAll(b[..|b| - 1]), WireOf(b[|b| - 1]));
    }
  }

  lemma MessageHeaderDecodes(kind: Kind, flags: byte, timestamp: uint32, kind': Kind, flags': byte, timestamp': uint32)
    ensures FromBigEndian(MessageHeader(kind, flags, timestamp)[2..6]) == timestamp
    ensures MessageHeader(kind, flags, timestamp) == MessageHeader(kind', flags', timestamp')
        ==> kind == kind' && flags == flags' && timestamp == timestamp'
  {
    PowersOf256();
    BigEndianDecodes(4, timestamp);
    BigEndianDecodes(4, timestamp');
    assert MessageHeader(kind, flags, timestamp)[2..6] == BigEndian(4, timestamp);
    assert MessageHeader(kind', flags', timestamp')[2..6] == BigEndian(4, timestamp');
    var h, h' := MessageHeader(kind, flags, timestamp), MessageHeader(kind', flags', timestamp');
    if h == h' {
      assert h[0] == KindCode(kind) && h'[0] == KindCode(kind');
      assert h[1] == flags && h'[1] == flags';
    }
  }

  // ---- What a client makes of a frame ----

  /** A message as the client reads it. */
  datatype Received = Received(kind: Kind, key: bool, continuation: bool, timestamp: nat, payload: seq<byte>)

  function KindOf(code: byte): Option<Kind> {
    if code == 0 then Some(Video)
    else if code == 1 then Some(VideoSeqHdr)
    else if code == 2 then Some(Audio)
    else if code == 3 then Some(AudioSeqHdr)
    else if code == 4 then Some(Meta)
    else None
  }

  function FourBytes(a: nat, b: nat, c: nat, d: nat): nat {
    16777216 * a + 65536 * b + 256 * c + d
  }

  /** A client's decoder of one frame: the type in byte 0, the key-frame and continuation flags in bits 0 and 1
      of byte 1, the timestamp in bytes 2 to 5, most significant first, and then the payload. */
  function Decode(frame: WsFrame): Option<Received> {
    var s := frame.body;
    if !frame.fin || frame.opcode != 2 || |s| < 6 || KindOf(s[0]).None? then None
    else
      Some(Received(KindOf(s[0]).value, s[1] % 2 == 1, s[1] / 2 % 2 == 1, FourBytes(s[2], s[3], s[4], s[5]), s[6..]))
  }

  /** The bytes are complete frames that the client reads as just these messages. */
  ghost predicate ReadsAs(wire: seq<byte>, messages: seq<Received>) {
    var parsed := ParseFrames(wire);
    && parsed.rest == [] && |parsed.frames| == |messages|
    && forall i :: 0 <= i < |messages| ==> Decode(parsed.frames[i]) == Some(messages[i])
  }

  /** The decoder inverts the encoder. */
  lemma MessageReads(kind: Kind, key: bool, continuation: bool, timestamp: uint32, payload: seq<byte>)
    ensures Decode(WsFrame(true, 2, MessageHeader(kind, Flags(key, continuation), timestamp) + payload))
         == Some(Received(kind, key, continuation, timestamp, payload))
  {
    var s := MessageHeader(kind, Flags(key, continuation), timestamp) + payload;
    TimestampReads(timestamp);
    assert s[2..6] == BigEndian(4, timestamp) && s[6..] == payload;
    assert s[0] == KindCode(kind) && s[1] == Flags(key, continuation);
    assert forall i :: 0 <= i < 4 ==> s[2 + i] == s[2..6][i];
    hide BigEndian;
    hide MessageHeader;
  }

  lemma TimestampReads(x: uint32)
    ensures var t := BigEndian(4, x); FourBytes(t[0], t[1], t[2], t[3]) == x
  {
    PowersOf256();
    BigEndianDecodes(4, x);
    FourDigits(BigEndian(4, x));
    hide *;
  }

  lemma FourDigits(t: seq<byte>)
    requires |t| == 4
    ensures FromBigEndian(t) == FourBytes(t[0], t[1], t[2], t[3])
  {
    assert t[..3][..2] == t[..2] && t[..2][..1] == t[..1] && t[..1][..0] == [];
    var a: nat, b: nat, c: nat := t[0], t[1], t[2];
    assert FromBigEndian(t[..1]) == a;
    assert FromBigEndian(t[..2]) == 256 * a + b;
    assert FromBigEndian(t[..3]) == 65536 * a + 256 * b + c;
  }

  // ---- How far into a message a run of packets has got ----

  datatype Progress = Boundary | Within(kind: Kind, remaining: nat) | Broken

  function After(kind: Kind, remaining: nat): Progress {
    if remaining == 0 then Boundary else Within(kind, remaining)
  }

  /** A first chunk may only come at a message boundary, a continuation only directly after the earlier
      chunks of the same message, and the chunks may not exceed the announced length, which must leave
      room for the message header in uint32. */
  function Advance(g: Progress, p: Packet): Progress {
    if p.IsContinuation() then
      if g.Within? && g.kind == p.kind && 0 < |p.payload| <= g.remaining
      then After(g.kind, g.remaining - |p.payload|) else Broken
    else
      if g.Boundary? && |p.payload| <= p.length && p.length + MESSAGE_HEADER_SIZE < TWO_TO_32
      then After(p.kind, p.length - |p.payload|) else Broken
  }

  function Trace(ps: seq<Packet>): Progress {
    if |ps| == 0 then Boundary else Advance(Trace(ps[..|ps| - 1]), ps[|ps| - 1])
  }

  /** The messages so far and one more packet: a continuation belongs to the last of them. */
  function Extend(bodies: seq<seq<byte>>, p: Packet): seq<seq<byte>> {
    if !p.IsContinuation() then bodies + [MessageHeader(p.kind, p.flags, p.timestamp) + p.payload]
    else if |bodies| == 0 then []
    else bodies[..|bodies| - 1] + [bodies[|bodies| - 1] + p.payload]
  }

  /** The messages the packets carry, header included; the last one may still be short. */
  function Bodies(ps: seq<Packet>): seq<seq<byte>> {
    if |ps| == 0 then [] else Extend(Bodies(ps[..|ps| - 1]), ps[|ps| - 1])
  }

  /** The wire form of the last, unfinished message: its header announces what is still to come. */
  function OpenFrame(body: seq<byte>, remaining: nat): seq<byte> {
    FrameHeader(|body| + remaining) + body
  }

  /** The wire form of messages of which the last may be short by what g says. */
  ghost predicate Framed(wire: seq<byte>, bodies: seq<seq<byte>>, g: Progress) {
    && !g.Broken?
    && (forall i :: 0 <= i < |bodies| ==> |bodies[i]| < TWO_TO_32)
    && (g.Boundary? ==> wire == FrameAll(bodies))
    && (g.Within? ==>
        && |bodies| > 0 && |bodies[|bodies| - 1]| + g.remaining < TWO_TO_32
        && wire == FrameAll(bodies[..|bodies| - 1]) + OpenFrame(bodies[|bodies| - 1], g.remaining))
  }

  lemma OpenFrameIsFramed(done: seq<seq<byte>>, body: seq<byte>, remaining: nat, kind: Kind)
    requires forall i :: 0 <= i < |done| ==> |done[i]| < TWO_TO_32
    requires |body| + remaining < TWO_TO_32
    ensures Framed(FrameAll(done) + OpenFrame(body, remaining), done + [body], After(kind, remaining))
  {
    hide FrameHeader;
    FrameAllAppend(done, [body]);
    assert FrameAll([body]) == Frame(body) + FrameAll([]);
    assert (done + [body])[..|done|] == done;
  }

  lemma ContinueFrame(wire: seq<byte>, bodies: seq<seq<byte>>, g: Progress, payload: seq<byte>)
    requires Framed(wire, bodies, g) && g.Within? && |payload| <= g.remaining
    ensures var last := bodies[|bodies| - 1] + payload;
      Framed(wire + payload, bodies[..|bodies| - 1] + [last], After(g.kind, g.remaining - |payload|))
  {
    hide FrameHeader;
    var done, open, rem := bodies[..|bodies| - 1], bodies[|bodies| - 1], g.remaining;
    Associative(FrameAll(done), OpenFrame(open, rem), payload);
    Associative(FrameHeader(|open| + rem), open, payload);
    assert |open| + rem == |open + payload| + (rem - |payload|);
    OpenFrameIsFramed(done, open + payload, rem - |payload|, g.kind);
  }

  lemma StartFrame(wire: seq<byte>, bodies: seq<seq<byte>>, p: Packet)
    requires Framed(wire, bodies, Boundary)
    requires !p.IsContinuation() && !Advance(Boundary, p).Broken?
    ensures Framed(wire + WireOf(p), bodies + [MessageHeader(p.kind, p.flags, p.timestamp) + p.payload], Advance(Boundary, p))
  {
    hide FrameHeader;
    hide MessageHeader;
    var header := MessageHeader(p.kind, p.flags, p.timestamp);
    Associative(FrameHeader(p.length + MESSAGE_HEADER_SIZE), header, p.payload);
    assert Wrap32(p.length + MESSAGE_HEADER_SIZE) == |header + p.payload| + (p.length - |p.payload|);
    OpenFrameIsFramed(bodies, header + p.payload, p.length - |p.payload|, p.kind);
  }

  lemma FrameStep(wire: seq<byte>, bodies: seq<seq<byte>>, g: Progress, p: Packet)
    requires Framed(wire, bodies, g) && !Advance(g, p).Broken?
    ensures Framed(wire + WireOf(p), Extend(bodies, p), Advance(g, p))
  {
    hide FrameHeader;
    hide MessageHeader;
    hide OpenFrame;
    hide FrameAll;
    if p.IsContinuation() {
      ContinueFrame(wire, bodies, g, p.payload);
    } else {
      StartFrame(wire, bodies, p);
    }
  }

  /** A run that is not broken is, on the wire, a run of complete frames and at most one open frame. */
  lemma {:induction false} WireIsFrames(ps: seq<Packet>)
    requires !Trace(ps).Broken?
    ensures Framed(WireAll(ps), Bodies(ps), Trace(ps))
  {
    if |ps| > 0 {
      hide Framed;
      hide WireOf;
      var front := ps[..|ps| - 1];
      WireIsFrames(front);
      FrameStep(WireAll(front), Bodies(front), Trace(front), ps[|ps| - 1]);
    }
  }

  /** Some sequence of complete frames starts with these bytes. */
  ghost predicate StartsFrames(out: seq<byte>) {
    exists bodies: seq<seq<byte>> :: ShortBodies(bodies) && out <= FrameAll(bodies)
  }

  lemma UnbrokenStartsFrames(ps: seq<Packet>, out: seq<byte>)
    requires !Trace(ps).Broken? && out <= WireAll(ps)
    ensures StartsFrames(out)
  {
    hide FrameHeader;
    WireIsFrames(ps);
    var bs, g := Bodies(ps), Trace(ps);
    if g.Boundary? {
      assert ShortBodies(bs);
    } else {
      var done, open := bs[..|bs| - 1], bs[|bs| - 1];
      var last := open + seq(g.remaining, _ => 0);
      FrameAllAppend(done, [last]);
      assert FrameAll([last]) == Frame(last) + FrameAll([]);
      Associative(FrameHeader(|last|), open, seq(g.remaining, _ => 0));
      assert OpenFrame(open, g.remaining) + seq(g.remaining, _ => 0) == Frame(last);
      assert ShortBodies(done + [last]) && out <= FrameAll(done + [last]);
    }
  }

  /** A receiver of a finished run recovers exactly the messages, each in one final binary frame. */
  lemma FinishedRunParses(ps: seq<Packet>)
    requires Trace(ps).Boundary?
    ensures ParseFrames(WireAll(ps)) == Frames(Binary(Bodies(ps)), [])
  {
    WireIsFrames(ps);
    assert WireAll(ps) == FrameAll(Bodies(ps)) + [];
    FramesParse(Bodies(ps), []);
    assert Binary(Bodies(ps)) + [] == Binary(Bodies(ps));
  }

  lemma ExtendAfter(xs: seq<seq<byte>>, ys: seq<seq<byte>>, p: Packet)
    requires p.IsContinuation() ==> |ys| > 0
    ensures Extend(xs + ys, p) == xs + Extend(ys, p)
  {
    hide MessageHeader;
  }

  lemma {:induction false} TraceFromBoundary(a: seq<Packet>, b: seq<Packet>)
    requires Trace(a).Boundary?
    ensures Trace(a + b) == Trace(b)
    ensures !Trace(b).Broken? ==> Bodies(a + b) == Bodies(a) + Bodies(b)
    ensures Trace(b).Within? ==> |Bodies(b)| > 0
  {
    hide Extend;
    if |b| == 0 {
      assert a + b == a;
    } else {
      TraceFromBoundary(a, b[..|b| - 1]);
      assert (a + b)[..|a + b| - 1] == a + b[..|b| - 1];
      if !Trace(b).Broken? {
        ExtendAfter(Bodies(a), Bodies(b[..|b| - 1]), b[|b| - 1]);
        ExtendAfter([], Bodies(b[..|b| - 1]), b[|b| - 1]);
        BodiesOfOpen(b);
      }
    }
  }

  lemma BodiesOfOpen(b: seq<Packet>)
    requires |b| > 0 && !Trace(b).Broken?
    requires Trace(b[..|b| - 1]).Within? ==> |Bodies(b[..|b| - 1])| > 0
    ensures |Bodies(b)| > 0
  {
  }

  lemma {:induction false} BrokenStaysBroken(ps: seq<Packet>, j: nat)
    requires j <= |ps| && !Trace(ps).Broken?
    ensures !Trace(ps[..j]).Broken?
  {
    if j < |ps| {
      BrokenStaysBroken(ps[..|ps| - 1], j);
      assert ps[..|ps| - 1][..j] == ps[..j];
    } else {
      assert ps[..j] == ps;
    }
  }

  // ---- The key-frame gate (transport/media_channel/publisher.go, SendMessage) ----

  /** Video is withheld until the gate is open or a first chunk of a key frame comes. */
  predicate Withheld(open: bool, p: Packet) {
    p.kind.Video? && !open && (!p.IsKeyFrame() || p.IsContinuation())
  }

  predicate OpensGate(p: Packet) {
    p.kind.Video? && p.IsKeyFrame()
  }

  /** Whether the gate is open after all of ps was offered to a consumer that started behind it. */
  predicate GateOpen(ps: seq<Packet>) {
    |ps| > 0 &&
    (GateOpen(ps[..|ps| - 1])
     || (!Withheld(GateOpen(ps[..|ps| - 1]), ps[|ps| - 1]) && OpensGate(ps[|ps| - 1])))
  }

  /** The packets that pass the gate. */
  function Deliver(ps: seq<Packet>): seq<Packet> {
    if |ps| == 0 then []
    else
      var front, p := ps[..|ps| - 1], ps[|ps| - 1];
      if Withheld(GateOpen(front), p) then Deliver(front) else Deliver(front) + [p]
  }

  lemma DeliverStep(ps: seq<Packet>, p: Packet)
    ensures Deliver(ps + [p]) == if Withheld(GateOpen(ps), p) then Deliver(ps) else Deliver(ps) + [p]
    ensures GateOpen(ps + [p]) == (GateOpen(ps) || (p.kind.Video? && p.IsKeyFrame() && !p.IsContinuation()))
  {
    assert (ps + [p])[..|ps|] == ps;
  }

  /** The first video packet let through is the first chunk of a key frame. */
  lemma {:induction false} FirstVideoIsKeyFrame(ps: seq<Packet>, i: nat)
    requires i < |Deliver(ps)| && Deliver(ps)[i].kind.Video?
    requires forall k :: 0 <= k < i ==> !Deliver(ps)[k].kind.Video?
    ensures Deliver(ps)[i].IsKeyFrame() && !Deliver(ps)[i].IsContinuation()
  {
    var front := ps[..|ps| - 1];
    if i < |Deliver(front)| {
      assert forall k :: 0 <= k < |Deliver(front)| ==> Deliver(front)[k] == Deliver(ps)[k];
      FirstVideoIsKeyFrame(front, i);
    } else {
      assert forall k :: 0 <= k < |Deliver(front)| ==> Deliver(front)[k] == Deliver(ps)[k];
      ClosedUntilVideo(front);
    }
  }

  lemma {:induction false} ClosedUntilVideo(ps: seq<Packet>)
    requires forall k :: 0 <= k < |Deliver(ps)| ==> !Deliver(ps)[k].kind.Video?
    ensures !GateOpen(ps)
  {
    if |ps| > 0 {
      var front, p := ps[..|ps| - 1], ps[|ps| - 1];
      assert forall k :: 0 <= k < |Deliver(front)| ==> Deliver(front)[k] == Deliver(ps)[k];
      ClosedUntilVideo(front);
      if !Withheld(false, p) {
        assert Deliver(ps)[|Deliver(front)|] == p;
      }
    }
  }

  /** An open gate lets everything through. */
  lemma {:induction false} OpenGateDeliversAll(a: seq<Packet>, b: seq<Packet>)
    requires GateOpen(a)
    ensures GateOpen(a + b) && Deliver(a + b) == Deliver(a) + b
  {
    if |b| == 0 {
      assert a + b == a;
    } else {
      OpenGateDeliversAll(a, b[..|b| - 1]);
      assert (a + b)[..|a + b| - 1] == a + b[..|b| - 1];
      assert b == b[..|b| - 1] + [b[|b| - 1]];
    }
  }

  /** A gate that is still closed decides on what follows as a new one would. */
  lemma {:induction false} ClosedGateStartsAnew(a: seq<Packet>, b: seq<Packet>)
    requires !GateOpen(a)
    ensures GateOpen(a + b) == GateOpen(b) && Deliver(a + b) == Deliver(a) + Deliver(b)
  {
    if |b| == 0 {
      assert a + b == a && Deliver(a) + [] == Deliver(a);
    } else {
      var front, p := b[..|b| - 1], b[|b| - 1];
      ClosedGateStartsAnew(a, front);
      DeliverStep(a + front, p);
      DeliverStep(front, p);
      hide Withheld;
      hide GateOpen;
      hide Deliver;
      assert b == front + [p];
      Associative(a, front, [p]);
      Associative(Deliver(a), Deliver(front), [p]);
    }
  }

  /** A closed gate lets no part of a message that is no key frame through. */
  lemma {:induction false} OtherFramesAreWithheld(ps: seq<Packet>)
    requires forall i :: 0 <= i < |ps| ==> ps[i].kind.Video? && !ps[i].IsKeyFrame()
    ensures !GateOpen(ps) && Deliver(ps) == []
  {
    if |ps| > 0 {
      OtherFramesAreWithheld(ps[..|ps| - 1]);
    }
  }

  /** A key frame that comes first opens the gate for itself and all that follows. */
  lemma KeyFrameOpens(ps: seq<Packet>)
    requires ps != [] && ps[0].kind.Video? && ps[0].IsKeyFrame() && !ps[0].IsContinuation()
    ensures Deliver(ps) == ps
  {
    var first, rest := [ps[0]], ps[1..];
    assert first[..0] == [] && ps == first + rest;
    assert Deliver(first) == first && GateOpen(first);
    hide Deliver;
    OpenGateDeliversAll(first, rest);
  }

  /** The gate holds back nothing but video. */
  lemma {:induction false} OtherKindsAreDelivered(a: seq<Packet>, b: seq<Packet>)
    requires forall i :: 0 <= i < |b| ==> !b[i].kind.Video?
    ensures Deliver(a + b) == Deliver(a) + b
  {
    if |b| == 0 {
      assert a + b == a;
    } else {
      hide GateOpen;
      hide Deliver;
      var front, p := b[..|b| - 1], b[|b| - 1];
      OtherKindsAreDelivered(a, front);
      OtherKindPasses(a + front, p);
      assert b == front + [p];
      Associative(a, front, [p]);
      Associative(Deliver(a), front, [p]);
    }
  }

  /** A message of another kind that comes first is delivered first. */
  lemma OtherKindFirst(ps: seq<Packet>)
    requires ps != [] && !ps[0].kind.Video?
    ensures Deliver(ps) != [] && Deliver(ps)[0] == ps[0]
  {
    var first := [ps[0]];
    assert first[..0] == [] && ps == first + ps[1..];
    assert Deliver(first) == first && !GateOpen(first);
    hide Deliver;
    hide GateOpen;
    ClosedGateStartsAnew(first, ps[1..]);
  }

  lemma OtherKindPasses(ps: seq<Packet>, p: Packet)
    requires !p.kind.Video?
    ensures Deliver(ps + [p]) == Deliver(ps) + [p]
  {
    DeliverStep(ps, p);
    hide Deliver;
    hide GateOpen;
  }

  predicate InsideUngated(g: Progress) {
    g.Within? && !g.kind.Video?
  }

  /** How the progress d of what was delivered relates to the progress g of the whole log. */
  predicate Together(g: Progress, d: Progress, open: bool) {
    && (d == g || (d.Boundary? && g.Within? && g.kind.Video? && !open))
    && (d.Within? && d.kind.Video? ==> open)
  }

  lemma TogetherNext(g: Progress, d: Progress, open: bool, p: Packet)
    requires Together(g, d, open) && !Advance(g, p).Broken?
    ensures Together(Advance(g, p), if Withheld(open, p) then d else Advance(d, p),
                     open || (p.kind.Video? && p.IsKeyFrame() && !p.IsContinuation()))
  {
  }

  ghost predicate InStep(log: seq<Packet>, j: nat)
    requires j <= |log|
  {
    Together(Trace(log), Trace(Deliver(log[j..])), GateOpen(log[j..]))
  }

  lemma TraceNext(ps: seq<Packet>, p: Packet)
    ensures Trace(ps + [p]) == Advance(Trace(ps), p)
  {
    assert (ps + [p])[..|ps|] == ps;
  }

  lemma {:induction false} GateKeepsStep(log: seq<Packet>, j: nat)
    requires j <= |log| && !Trace(log).Broken? && !InsideUngated(Trace(log[..j]))
    ensures InStep(log, j)
  {
    hide Advance;
    if j == |log| {
      assert log[..j] == log;
    } else {
      var front, p := log[..|log| - 1], log[|log| - 1];
      assert front[..j] == log[..j] && log[j..] == front[j..] + [p];
      assert !Trace(front).Broken? by {
        BrokenStaysBroken(log, |front|);
      }
      GateKeepsStep(front, j);
      DeliverStep(front[j..], p);
      TraceNext(Deliver(front[j..]), p);
      TogetherNext(Trace(front), Trace(Deliver(front[j..])), GateOpen(front[j..]), p);
      hide Together;
      hide Withheld;
      hide Deliver;
      hide GateOpen;
    }
  }

  /** Joining is safe at any point of a video message and at any boundary, and nowhere else: what a
      consumer that joined at j is given is unbroken exactly if j is not inside a message of another
      kind, or nothing was published since. */
  lemma JoinFraming(log: seq<Packet>, j: nat)
    requires j <= |log| && !Trace(log).Broken?
    ensures Trace(Deliver(log[j..])).Broken? <==> InsideUngated(Trace(log[..j])) && j < |log|
  {
    hide Advance;
    hide Withheld;
    if !InsideUngated(Trace(log[..j])) {
      GateKeepsStep(log, j);
    } else if j < |log| {
      InsideUngatedBreaks(log, j);
    } else {
      assert log[j..] == [];
    }
  }

  lemma {:induction false} InsideUngatedBreaks(log: seq<Packet>, j: nat)
    requires j < |log| && !Trace(log).Broken? && InsideUngated(Trace(log[..j]))
    ensures Trace(Deliver(log[j..])).Broken?
  {
    hide Withheld;
    hide Advance;
    var front, p := log[..|log| - 1], log[|log| - 1];
    assert log[j..] == front[j..] + [p] && front[..j] == log[..j];
    if j < |front| {
      BrokenStaysBroken(log, |front|);
      InsideUngatedBreaks(front, j);
      DeliverStep(front[j..], p);
      TraceNext(Deliver(front[j..]), p);
      BrokenForGood(p);
      hide Trace;
      hide Deliver;
      hide GateOpen;
    } else {
      assert front[j..] == [] && log[..j] == front;
      ContinuationAlone(Trace(front), p);
    }
  }

  lemma BrokenForGood(p: Packet)
    ensures Advance(Broken, p).Broken?
  {
  }

  /** A later chunk of a message that has no gate is let through, and cannot come first. */
  lemma ContinuationAlone(g: Progress, p: Packet)
    requires InsideUngated(g) && !Advance(g, p).Broken?
    ensures Trace(Deliver([p])).Broken?
  {
    assert [p][..0] == [];
  }
}
