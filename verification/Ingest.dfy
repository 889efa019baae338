/** What an RTMP session publishes for the messages it reads (transport/rtmp/rtmp.go): the packets, in
    order, as functions of the bytes that arrive, however they are chunked. */
module Ingest {
  import opened Prelude
  import opened Wire
  import opened Packets
  import opened Readers

  const VIDEO_BUFFER := 65536
  const AUDIO_BUFFER := 512
  const DISCARD_BUFFER := 16384
  const NALU_HEADER := 5
  const VIDEO_TAG_HEADER := 5
  const AUDIO_TAG_HEADER := 2
  const CODEC_H264 := 7
  const CODEC_AAC := 10
  const PACKET_SEQ_HEADER := 0
  const PACKET_DATA := 1

  /** The packets published, the error that ended the work if any, and the source afterwards. */
  datatype Sent = Sent(packets: seq<Packet>, err: Option<Failure>, rest: Source)

  // ---- The chunk loop of sendVideoData and sendAudioData ----

  /** What all chunks of one message share. */
  datatype Template = Template(kind: Kind, key: bool, timestamp: uint32, length: uint32) {
    function Chunk(first: bool, payload: seq<byte>): Packet {
      Packet(kind, Flags(key, !first), timestamp, length, payload)
    }
  }

  /** The loop from a buffer of the given capacity that already holds some bytes: each round fills the
      buffer as far as the message goes, publishes it, and takes an empty one. */
  function Chunks(m: Template, held: seq<byte>, capacity: nat, first: bool, remaining: nat, src: Source): Sent
    requires |held| < capacity
    decreases remaining
  {
    if remaining == 0 then Sent([], None, src)
    else
      var t := ReadN(src, Min(remaining, capacity - |held|));
      if t.err.Some? then Sent([], t.err, t.rest)
      else
        var more := Chunks(m, [], capacity, false, remaining - |t.data|, t.rest);
        Sent([m.Chunk(first, held + t.data)] + more.packets, more.err, more.rest)
  }

  /** The plain cutting of a byte string into pieces of the given size. */
  function Split(bytes: seq<byte>, size: nat): seq<seq<byte>>
    requires size > 0
    decreases |bytes|
  {
    if |bytes| <= size then [bytes] else [bytes[..size]] + Split(bytes[size..], size)
  }

  function Cut(m: Template, pieces: seq<seq<byte>>, first: bool): (ps: seq<Packet>)
    ensures |ps| == |pieces|
  {
    if |pieces| == 0 then [] else [m.Chunk(first, pieces[0])] + Cut(m, pieces[1..], false)
  }

  /** Fragmentation: there are as many pieces as needed and no more, none empty, all but the last full,
      and joined they are the original bytes. */
  lemma {:induction false} SplitIsExact(bytes: seq<byte>, size: nat)
    requires size > 0 && bytes != []
    ensures var pieces := Split(bytes, size);
      && Flat(pieces) == bytes
      && (|pieces| - 1) * size < |bytes| <= |pieces| * size
      && (forall i :: 0 <= i < |pieces| - 1 ==> |pieces[i]| == size)
      && 0 < |pieces[|pieces| - 1]| <= size
    decreases |bytes|
  {
    if |bytes| <= size {
      FlatCons(bytes, []);
      assert [bytes] + [] == [bytes];
    } else {
      var rest := bytes[size..];
      SplitIsExact(rest, size);
      var more := Split(rest, size);
      assert Split(bytes, size) == [bytes[..size]] + more;
      FlatCons(bytes[..size], more);
      OneMorePiece(|more|, size, |rest|);
      hide Split;
      hide Flat;
    }
  }

  lemma OneMorePiece(n: nat, size: nat, rest: nat)
    requires (n - 1) * size < rest <= n * size
    ensures (n + 1 - 1) * size < size + rest <= (n + 1) * size
  {
    assert (n - 1) * size == n * size - size && (n + 1) * size == n * size + size;
  }

  lemma SplitHead(held: seq<byte>, taken: seq<byte>, tail: seq<byte>, size: nat)
    requires |held| + |taken| == size > 0 && tail != []
    ensures Split(held + (taken + tail), size) == [held + taken] + Split(tail, size)
  {
    var all := held + (taken + tail);
    assert all[..size] == held + taken;
    assert all[size..] == tail;
  }

  /** Every chunk carries the message's kind, timestamp and length, and its key flag in bit 0; all but the first
      carry the continuation flag in bit 1. */
  lemma {:induction false} CutFields(m: Template, pieces: seq<seq<byte>>, first: bool, i: nat)
    requires i < |pieces|
    ensures Cut(m, pieces, first)[i] ==
      Packet(m.kind, (if m.key then 1 else 0) + (if first && i == 0 then 0 else 2), m.timestamp, m.length, pieces[i])
  {
    if i > 0 {
      CutFields(m, pieces[1..], false, i - 1);
    }
  }

  /** Whatever the chunking of the source, a loop that ends without error has published the plain cutting
      of the next bytes of the stream, and consumed just those. */
  lemma {:induction false} ChunksCut(m: Template, held: seq<byte>, capacity: nat, first: bool, remaining: nat, src: Source)
    requires |held| < capacity && remaining > 0
    requires Chunks(m, held, capacity, first, remaining, src).err.None?
    ensures var s := Chunks(m, held, capacity, first, remaining, src);
      && remaining <= |Stream(src)|
      && s.packets == Cut(m, Split(held + Stream(src)[..remaining], capacity), first)
      && Stream(s.rest) == Stream(src)[remaining..]
    decreases remaining
  {
    hide Stream;
    hide Chunks;
    hide Split;
    hide Cut;
    var n := Min(remaining, capacity - |held|);
    if n == remaining {
      LastChunkCut(m, held, capacity, first, remaining, src);
    } else {
      var t := FullChunk(m, held, capacity, first, remaining, src);
      ChunksCut(m, [], capacity, false, remaining - n, t.rest);
      CutMore(m, held, t.data, Stream(t.rest), remaining - n, capacity, first);
      assert (t.data + Stream(t.rest))[remaining..] == Stream(t.rest)[remaining - n..];
    }
  }

  /** One round of the loop that fills a buffer and leaves more to read. */
  lemma FullChunk(m: Template, held: seq<byte>, capacity: nat, first: bool, remaining: nat, src: Source) returns (t: Taken)
    requires |held| < capacity < |held| + remaining
    requires Chunks(m, held, capacity, first, remaining, src).err.None?
    ensures t == ReadN(src, capacity - |held|) && |t.data| == capacity - |held| && Stream(src) == t.data + Stream(t.rest)
    ensures var more := Chunks(m, [], capacity, false, remaining - |t.data|, t.rest);
      Chunks(m, held, capacity, first, remaining, src) == more.(packets := [m.Chunk(first, held + t.data)] + more.packets)
  {
    hide ReadN;
    hide Stream;
    t := ReadN(src, capacity - |held|);
    ReadNTakes(src, capacity - |held|);
    hide Available;
    hide ErrorComesAlone;
    hide Clean;
  }

  /** A full piece, and then the pieces of what follows. */
  lemma CutMore(m: Template, held: seq<byte>, taken: seq<byte>, later: seq<byte>, more: nat, capacity: nat, first: bool)
    requires |held| + |taken| == capacity > 0 && 0 < more <= |later|
    ensures Cut(m, Split(held + (taken + later)[..|taken| + more], capacity), first) ==
      [m.Chunk(first, held + taken)] + Cut(m, Split([] + later[..more], capacity), false)
  {
    var tail := later[..more];
    assert [] + tail == tail && (taken + later)[..|taken| + more] == taken + tail;
    SplitHead(held, taken, tail, capacity);
    CutHead(m, held + taken, Split(tail, capacity), first);
    hide *;
  }

  lemma LastChunkCut(m: Template, held: seq<byte>, capacity: nat, first: bool, remaining: nat, src: Source)
    requires 0 < remaining <= capacity - |held|
    requires Chunks(m, held, capacity, first, remaining, src).err.None?
    ensures var s := Chunks(m, held, capacity, first, remaining, src);
      && remaining <= |Stream(src)|
      && s.packets == Cut(m, Split(held + Stream(src)[..remaining], capacity), first)
      && Stream(s.rest) == Stream(src)[remaining..]
  {
    hide Stream;
    var t := ReadN(src, remaining);
    ReadNTakes(src, remaining);
    hide ReadN;
    assert Stream(src)[..remaining] == t.data;
    var none := Chunks(m, [], capacity, false, 0, t.rest);
    assert none.packets == [] && Split(held + t.data, capacity) == [held + t.data];
  }

  /** The pieces of a byte string that are full. */
  function FullPieces(bytes: seq<byte>, size: nat): seq<seq<byte>>
    requires size > 0
    decreases |bytes|
  {
    if |bytes| < size then [] else [bytes[..size]] + FullPieces(bytes[size..], size)
  }

  /** With a reader that reports its errors without bytes, the loop fails if and only if too few bytes come; then
      it has published every chunk that could be filled, and nothing of the one that could not. */
  lemma {:induction false} ChunksFailExactly(m: Template, held: seq<byte>, capacity: nat, first: bool, remaining: nat, src: Source)
    requires |held| < capacity && ErrorComesAlone(src)
    ensures var s := Chunks(m, held, capacity, first, remaining, src);
      && (s.err.Some? <==> remaining > Available(src))
      && (s.err.Some? ==> s.err.value == if FirstError(src) == EOF then UnexpectedEOF else ReadFailed)
      && (s.err.Some? ==> s.packets == Cut(m, FullPieces(held + Stream(src)[..Available(src)], capacity), first))
    decreases remaining
  {
    hide Stream;
    hide Available;
    hide ErrorComesAlone;
    hide FirstError;
    hide Cut;
    hide FullPieces;
    hide Chunks;
    hide ReadN;
    ChunksRound(m, held, capacity, first, remaining, src);
    if remaining > 0 {
      var n := Min(remaining, capacity - |held|);
      var t := ReadN(src, n);
      ReadNTakes(src, n);
      if n <= Available(src) {
        ReadNLeaves(src, n);
        ChunksFailExactly(m, [], capacity, false, remaining - n, t.rest);
        if remaining > Available(src) {
          FullPiecesMore(m, held, t.data, Stream(t.rest), Available(t.rest), capacity, first);
        }
      } else {
        NoFullPiece(m, held + Stream(src)[..Available(src)], capacity, first);
      }
    }
  }

  /** One round of the loop, or none. */
  lemma ChunksRound(m: Template, held: seq<byte>, capacity: nat, first: bool, remaining: nat, src: Source)
    requires |held| < capacity
    ensures var s, t := Chunks(m, held, capacity, first, remaining, src), ReadN(src, Min(remaining, capacity - |held|));
      if remaining == 0 then s == Sent([], None, src)
      else if t.err.Some? then s == Sent([], t.err, t.rest)
      else
        var more := Chunks(m, [], capacity, false, remaining - |t.data|, t.rest);
        s == Sent([m.Chunk(first, held + t.data)] + more.packets, more.err, more.rest)
  {
    hide ReadN;
  }

  lemma NoFullPiece(m: Template, bytes: seq<byte>, capacity: nat, first: bool)
    requires |bytes| < capacity
    ensures Cut(m, FullPieces(bytes, capacity), first) == []
  {
  }

  lemma FullPiecesMore(m: Template, held: seq<byte>, taken: seq<byte>, later: seq<byte>, more: nat, capacity: nat, first: bool)
    requires |held| + |taken| == capacity > 0 && more <= |later|
    ensures Cut(m, FullPieces(held + (taken + later)[..|taken| + more], capacity), first) ==
      [m.Chunk(first, held + taken)] + Cut(m, FullPieces([] + later[..more], capacity), false)
  {
    var tail := later[..more];
    assert [] + tail == tail && (taken + later)[..|taken| + more] == taken + tail;
    var all := held + (taken + tail);
    assert all[..capacity] == held + taken && all[capacity..] == tail;
    CutHead(m, held + taken, FullPieces(tail, capacity), first);
  }

  lemma CutHead(m: Template, head: seq<byte>, pieces: seq<seq<byte>>, first: bool)
    ensures Cut(m, [head] + pieces, first) == [m.Chunk(first, head)] + Cut(m, pieces, false)
  {
    assert ([head] + pieces)[1..] == pieces;
  }

  lemma {:induction false} CleanChunksSucceed(m: Template, held: seq<byte>, capacity: nat, first: bool, remaining: nat, src: Source)
    requires |held| < capacity && Clean(src) && remaining <= |Stream(src)|
    ensures var s := Chunks(m, held, capacity, first, remaining, src);
      s.err.None? && Clean(s.rest)
    decreases remaining
  {
    if remaining > 0 {
      var n := Min(remaining, capacity - |held|);
      CleanIsAvailable(src);
      ReadNTakes(src, n);
      hide ReadN;
      hide Available;
      hide ErrorComesAlone;
      hide Stream;
      hide Clean;
      var t := ReadN(src, n);
      CleanChunksSucceed(m, [], capacity, false, remaining - |t.data|, t.rest);
    }
  }

  /** Where the chunk loop stands in its message before a round. */
  ghost predicate AtChunk(m: Template, held: seq<byte>, first: bool, remaining: nat, before: seq<Packet>) {
    && m.length + MESSAGE_HEADER_SIZE < TWO_TO_32
    && (if first then Trace(before).Boundary? && m.length == |held| + remaining
        else held == [] && Trace(before) == After(m.kind, remaining))
  }

  /** However the loop ends, what it published continues an unbroken run, and it ends the message exactly
      when the loop ends without error. */
  lemma {:induction false} ChunksTrace(m: Template, held: seq<byte>, capacity: nat, first: bool, remaining: nat,
                                       src: Source, before: seq<Packet>)
    requires |held| < capacity
    requires remaining > 0 || !first
    requires AtChunk(m, held, first, remaining, before)
    ensures var s := Chunks(m, held, capacity, first, remaining, src);
      && !Trace(before + s.packets).Broken?
      && (s.err.None? ==> Trace(before + s.packets).Boundary?)
    decreases remaining
  {
    hide AtChunk;
    hide Chunks;
    hide ReadN;
    ChunksRound(m, held, capacity, first, remaining, src);
    var s := Chunks(m, held, capacity, first, remaining, src);
    if s.packets == [] {
      assert before + s.packets == before;
      AtChunkUnbroken(m, held, first, remaining, before);
    } else {
      var t := ReadN(src, Min(remaining, capacity - |held|));
      ChunkAdvances(m, held, first, remaining, before, t.data);
      var p := m.Chunk(first, held + t.data);
      ChunksTrace(m, [], capacity, false, remaining - |t.data|, t.rest, before + [p]);
      Associative(before, [p], s.packets[1..]);
      assert s.packets == [p] + s.packets[1..];
    }
  }

  lemma AtChunkUnbroken(m: Template, held: seq<byte>, first: bool, remaining: nat, before: seq<Packet>)
    requires AtChunk(m, held, first, remaining, before)
    ensures !Trace(before).Broken?
    ensures remaining == 0 && !first ==> Trace(before).Boundary?
  {
  }

  lemma ChunkAdvances(m: Template, held: seq<byte>, first: bool, remaining: nat, before: seq<Packet>, data: seq<byte>)
    requires AtChunk(m, held, first, remaining, before)
    requires 0 < |data| <= remaining
    ensures AtChunk(m, [], false, remaining - |data|, before + [m.Chunk(first, held + data)])
  {
    assert (before + [m.Chunk(first, held + data)])[..|before|] == before;
  }

  // ---- sendVideoData ----

  datatype Unit = Unit(done: bool, sent: Sent)

  predicate Forwards(naluType: byte) {
    naluType == 1 || naluType == 5
  }

  /** The announced length covers the type byte that is already read; the subtraction is in uint32. */
  function BodyLength(header: seq<byte>): uint32
    requires |header| == NALU_HEADER
  {
    Wrap32(FromBigEndian(header[..4]) - 1)
  }

  function UnitTemplate(header: seq<byte>, timestamp: uint32): Template
    requires |header| == NALU_HEADER
  {
    Template(Video, header[4] % 32 == 5, timestamp, Wrap32(NALU_HEADER + BodyLength(header)))
  }

  function VideoUnit(src: Source, timestamp: uint32): Unit {
    var t := ReadFull(src, NALU_HEADER);
    if t.err == Some(EndOfFile) then Unit(true, Sent([], None, t.rest))
    else if t.err.Some? then Unit(false, Sent([], Some(UnexpectedEOF), t.rest))
    else if !Forwards(t.data[4] % 32) then
      var d := Discard(t.rest, BodyLength(t.data), DISCARD_BUFFER);
      Unit(false, Sent([], d.err, d.rest))
    else
      Unit(false, Chunks(UnitTemplate(t.data, timestamp), t.data, VIDEO_BUFFER, true, BodyLength(t.data), t.rest))
  }

  lemma {:induction false} ChunksShrink(m: Template, held: seq<byte>, capacity: nat, first: bool, remaining: nat, src: Source)
    requires |held| < capacity
    ensures |Stream(Chunks(m, held, capacity, first, remaining, src).rest)| <= |Stream(src)|
    decreases remaining
  {
    if remaining > 0 {
      var n := Min(remaining, capacity - |held|);
      ReadNTakes(src, n);
      var t := ReadN(src, n);
      if t.err.None? {
        ChunksShrink(m, [], capacity, false, remaining - |t.data|, t.rest);
      }
    }
  }

  /** Every unit that is not the end of the message takes at least its header. */
  lemma UnitShrinks(src: Source, timestamp: uint32)
    ensures var u := VideoUnit(src, timestamp);
      !u.done && u.sent.err.None? ==> |Stream(u.sent.rest)| < |Stream(src)|
  {
    ReadNTakes(src, NALU_HEADER);
    var t := ReadFull(src, NALU_HEADER);
    if t.err.None? {
      if !Forwards(t.data[4] % 32) {
        DiscardSkips(t.rest, BodyLength(t.data), DISCARD_BUFFER);
      } else {
        ChunksShrink(UnitTemplate(t.data, timestamp), t.data, VIDEO_BUFFER, true, BodyLength(t.data), t.rest);
      }
    }
  }

  /** What is reported at the header of a unit: the end of the message if the stream ends right there; an error
      if fewer than five bytes come, or if the reader fails before any; and otherwise the unit is looked at. */
  lemma UnitHeaderExactly(src: Source, timestamp: uint32)
    ensures var u := VideoUnit(src, timestamp);
      && (u.done <==> Available(src) == 0 && FirstError(src) == EOF)
      && (u.done ==> u.sent.err.None? && u.sent.packets == [])
      && (!u.done && Available(src) < 5 ==> u.sent.err == Some(UnexpectedEOF) && u.sent.packets == [])
      && (UnitForgotten(src) ==> Available(src) >= 5)
  {
    ReadFullTakes(src, NALU_HEADER);
    hide ReadFull;
    hide Available;
    hide FirstError;
    hide Stream;
    hide Chunks;
    hide Discard;
  }

  /** A unit that is not forwarded: nothing is published, and it is skipped if and only if its bytes come
      strictly before an error, or up to one that comes without bytes. */
  lemma UnitSkippedExactly(src: Source, timestamp: uint32)
    requires var t := ReadFull(src, NALU_HEADER);
      t.err.None? && t.data[4] % 32 != 1 && t.data[4] % 32 != 5
    ensures var t, s := ReadFull(src, NALU_HEADER), VideoUnit(src, timestamp).sent;
      var left, length := t.rest, BodyLength(t.data);
      && s.packets == [] && !VideoUnit(src, timestamp).done
      && (s.err.None? <==> length == 0 || length < Available(left) || (length == Available(left) && ErrorComesAlone(left)))
      && (s.err.None? ==> length <= |Stream(left)| && Stream(s.rest) == Stream(left)[length..])
  {
    var t := ReadFull(src, NALU_HEADER);
    DiscardSkips(t.rest, BodyLength(t.data), DISCARD_BUFFER);
    hide ReadFull;
    hide Discard;
    hide Stream;
    hide Available;
    hide FirstError;
    hide ErrorComesAlone;
    hide BodyLength;
  }

  /** A unit that is forwarded, from a reader that reports its errors without bytes: it fails if and only if
      too few bytes come. */
  lemma UnitFailsExactly(src: Source, timestamp: uint32)
    requires var t := ReadFull(src, NALU_HEADER);
      t.err.None? && (t.data[4] % 32 == 1 || t.data[4] % 32 == 5) && ErrorComesAlone(t.rest)
    ensures var t, s := ReadFull(src, NALU_HEADER), VideoUnit(src, timestamp).sent;
      && !VideoUnit(src, timestamp).done
      && (s.err.Some? <==> BodyLength(t.data) > Available(t.rest))
  {
    var t := ReadFull(src, NALU_HEADER);
    ChunksFailExactly(UnitTemplate(t.data, timestamp), t.data, VIDEO_BUFFER, true, BodyLength(t.data), t.rest);
    hide ReadFull;
    hide Chunks;
    hide Stream;
    hide Available;
    hide FirstError;
    hide ErrorComesAlone;
    hide BodyLength;
  }

  /** The loop of onVideoMessage over the units of one message. */
  function VideoUnits(src: Source, timestamp: uint32): Sent
    decreases |Stream(src)|
  {
    var u := VideoUnit(src, timestamp);
    if u.done || u.sent.err.Some? then u.sent
    else
      UnitShrinks(src, timestamp);
      var more := VideoUnits(u.sent.rest, timestamp);
      Sent(u.sent.packets + more.packets, more.err, more.rest)
  }

  // ---- One message, and a whole session ----

  /** sendSeqHeader: the header must fit one audio buffer. */
  function SeqHeader(kind: Kind, src: Source, toRead: uint32): Sent {
    var t := ReadN(src, Min(toRead, AUDIO_BUFFER));
    if t.err.Some? then Sent([], t.err, t.rest)
    else if |t.data| != toRead then Sent([], Some(HeaderNotRead), t.rest)
    else Sent([Packet(kind, 0, 0, |t.data|, t.data)], None, t.rest)
  }

  /** A codec header is published if and only if it fits one buffer and comes before the first error; then it
      is one whole message of just those bytes, and otherwise there is none. */
  lemma SeqHeaderExactly(kind: Kind, src: Source, toRead: uint32)
    ensures var s := SeqHeader(kind, src, toRead);
      && (s.err.None? <==> toRead <= 512 && toRead <= Available(src))
      && (s.err.Some? ==> s.packets == [])
      && (s.err.None? ==>
            && toRead <= |Stream(src)|
            && s.packets == [Packet(kind, 0, 0, toRead, Stream(src)[..toRead])]
            && Stream(s.rest) == Stream(src)[toRead..])
  {
    ReadNTakes(src, Min(toRead, AUDIO_BUFFER));
    var t := ReadN(src, Min(toRead, AUDIO_BUFFER));
    hide ReadN;
    hide Stream;
    hide Available;
    hide FirstError;
    hide Clean;
    if t.err.None? && toRead <= AUDIO_BUFFER {
      assert (t.data + Stream(t.rest))[..toRead] == t.data && (t.data + Stream(t.rest))[toRead..] == Stream(t.rest);
    }
  }

  /** What conn.ReadStreamMessage returns: Length counts the tag header, which starts the data. */
  datatype Inbound =
    | VideoMessage(length: uint32, timestamp: uint32, data: Source)
    | AudioMessage(length: uint32, timestamp: uint32, data: Source)
    | MetaDataMessage(meta: MetaData)
    | CloseStream

  function OnVideo(length: uint32, timestamp: uint32, data: Source): Sent {
    var t := ReadFull(data, VIDEO_TAG_HEADER);
    if t.err.Some? then Sent([], t.err, t.rest)
    else if t.data[0] % 16 != CODEC_H264 then Sent([], Some(InvalidCodec), t.rest)
    else if t.data[1] == PACKET_SEQ_HEADER then SeqHeader(VideoSeqHdr, t.rest, Wrap32(length - VIDEO_TAG_HEADER))
    else if t.data[1] == PACKET_DATA then VideoUnits(t.rest, timestamp)
    else Sent([], Some(InvalidPacket), t.rest)
  }

  function AudioChunks(length: uint32, timestamp: uint32, src: Source): Sent {
    var size := Wrap32(length - AUDIO_TAG_HEADER);
    Chunks(Template(Audio, false, timestamp, size), [], AUDIO_BUFFER, true, size, src)
  }

  function OnAudio(length: uint32, timestamp: uint32, data: Source): Sent {
    var t := ReadFull(data, AUDIO_TAG_HEADER);
    if t.err.Some? then Sent([], t.err, t.rest)
    else if t.data[0] / 16 != CODEC_AAC then Sent([], Some(InvalidCodec), t.rest)
    else if t.data[1] == PACKET_SEQ_HEADER then SeqHeader(AudioSeqHdr, t.rest, Wrap32(length - AUDIO_TAG_HEADER))
    else if t.data[1] == PACKET_DATA then AudioChunks(length, timestamp, t.rest)
    else Sent([], Some(InvalidPacket), t.rest)
  }

  function MetaPacket(meta: MetaData): Packet {
    Packet(Meta, 0, 0, META_SIZE, MetaBytes(meta))
  }

  function Handle(m: Inbound): Sent {
    match m
    case VideoMessage(length, timestamp, data) => OnVideo(length, timestamp, data)
    case AudioMessage(length, timestamp, data) => OnAudio(length, timestamp, data)
    case MetaDataMessage(meta) => Sent([MetaPacket(meta)], None, [])
    case CloseStream => Sent([], None, [])
  }

  /** The loop of onConn: it ends at the first error, at a close, or when the connection does. */
  function SessionLog(messages: seq<Inbound>): seq<Packet> {
    if |messages| == 0 || messages[0].CloseStream? then []
    else
      var s := Handle(messages[0]);
      if s.err.Some? then s.packets else s.packets + SessionLog(messages[1..])
  }

  // ---- Buffers that are dropped ----

  /** A forwarded unit of its type byte alone: the buffer with its header is neither sent nor released. */
  predicate UnitForgotten(src: Source) {
    var t := ReadFull(src, NALU_HEADER);
    t.err.None? && Forwards(t.data[4] % 32) && BodyLength(t.data) == 0
  }

  function UnitsForgotten(src: Source, timestamp: uint32): nat
    decreases |Stream(src)|
  {
    var u := VideoUnit(src, timestamp);
    (if UnitForgotten(src) then 1 else 0)
    + if u.done || u.sent.err.Some? then 0 else (UnitShrinks(src, timestamp); UnitsForgotten(u.sent.rest, timestamp))
  }

  function Forgotten(m: Inbound): nat {
    match m
    case VideoMessage(_, timestamp, data) =>
      var t := ReadFull(data, VIDEO_TAG_HEADER);
      if t.err.None? && t.data[0] % 16 == CODEC_H264 && t.data[1] == PACKET_DATA then UnitsForgotten(t.rest, timestamp) else 0
    case _ => 0
  }

  function SessionForgotten(messages: seq<Inbound>): nat {
    if |messages| == 0 || messages[0].CloseStream? then 0
    else Forgotten(messages[0]) + if Handle(messages[0]).err.Some? then 0 else SessionForgotten(messages[1..])
  }

  // ---- When what a session publishes is well framed ----

  /** A message of so many bytes, and the bytes that are added to it on the wire, can be counted in uint32. */
  predicate Countable(length: nat) {
    length + MESSAGE_HEADER_SIZE < TWO_TO_32
  }

  /** The reader delivers what the first chunk needs. */
  predicate FirstChunkComes(held: nat, capacity: nat, remaining: nat, src: Source)
    requires held < capacity
  {
    0 < remaining && Min(remaining, capacity - held) <= Available(src)
  }

  lemma FirstChunk(m: Template, held: seq<byte>, capacity: nat, first: bool, remaining: nat, src: Source)
    requires |held| < capacity
    ensures Chunks(m, held, capacity, first, remaining, src).packets != [] <==> FirstChunkComes(|held|, capacity, remaining, src)
  {
    if remaining > 0 {
      ReadNTakes(src, Min(remaining, capacity - |held|));
    }
    hide ReadN;
    hide Available;
  }

  /** The chunk loop breaks the framing exactly if the message's length does not fit in uint32 and the
      reader delivers the first chunk; the end of the loop, in error or not, makes no difference. */
  lemma ChunksFramedExactly(m: Template, held: seq<byte>, capacity: nat, remaining: uint32, src: Source, before: seq<Packet>)
    requires |held| < capacity && Trace(before).Boundary? && m.length == Wrap32(|held| + remaining)
    ensures var s := Chunks(m, held, capacity, true, remaining, src);
      && (Trace(before + s.packets).Broken? <==>
            !Countable(|held| + remaining) && FirstChunkComes(|held|, capacity, remaining, src))
      && (s.err.None? && !Trace(before + s.packets).Broken? ==> Trace(before + s.packets).Boundary?)
  {
    var s := Chunks(m, held, capacity, true, remaining, src);
    FirstChunk(m, held, capacity, true, remaining, src);
    assert before + [] == before;
    if remaining > 0 && Countable(|held| + remaining) {
      ChunksTrace(m, held, capacity, true, remaining, src, before);
    } else if s.packets != [] {
      FirstChunkOverflows(m, held, capacity, remaining, src, before);
    }
    hide Chunks;
    hide Trace;
  }

  lemma FirstChunkOverflows(m: Template, held: seq<byte>, capacity: nat, remaining: uint32, src: Source, before: seq<Packet>)
    requires |held| < capacity && Trace(before).Boundary? && m.length == Wrap32(|held| + remaining)
    requires !Countable(|held| + remaining) && Chunks(m, held, capacity, true, remaining, src).packets != []
    ensures Trace(before + Chunks(m, held, capacity, true, remaining, src).packets).Broken?
  {
    var packets := Chunks(m, held, capacity, true, remaining, src).packets;
    var t := ReadN(src, Min(remaining, capacity - |held|));
    assert packets[0] == m.Chunk(true, held + t.data);
    hide Chunks;
    hide ReadN;
    TraceNext(before, packets[0]);
    assert Trace(before + [packets[0]]).Broken?;
    BrokenThroughout(before, packets, 1);
  }

  /** What is broken early is broken in the end. */
  lemma BrokenThroughout(before: seq<Packet>, packets: seq<Packet>, n: nat)
    requires n <= |packets| && Trace(before + packets[..n]).Broken?
    ensures Trace(before + packets).Broken?
  {
    assert (before + packets)[..|before| + n] == before + packets[..n];
    if !Trace(before + packets).Broken? {
      BrokenStaysBroken(before + packets, |before| + n);
    }
  }

  /** A forwarded unit whose length, with the bytes that are added to it, does not fit in uint32, and of
      which the first chunk is delivered. An encoded length of 0 is such a length, and so is one above
      2^32 - 11. */
  predicate UnitOverflows(src: Source) {
    var t := ReadFull(src, NALU_HEADER);
    && t.err.None? && Forwards(t.data[4] % 32)
    && !Countable(NALU_HEADER + BodyLength(t.data))
    && FirstChunkComes(NALU_HEADER, VIDEO_BUFFER, BodyLength(t.data), t.rest)
  }

  /** The bound on the length is exact: whatever the source delivers, and whether or not the unit is read to
      its end, its packets break the framing if and only if it overflows. */
  lemma UnitFramedExactly(src: Source, timestamp: uint32, before: seq<Packet>)
    requires Trace(before).Boundary?
    ensures var s := VideoUnit(src, timestamp).sent;
      && (Trace(before + s.packets).Broken? <==> UnitOverflows(src))
      && (s.err.None? && !UnitOverflows(src) ==> Trace(before + s.packets).Boundary?)
  {
    assert before + [] == before;
    var t := ReadFull(src, NALU_HEADER);
    if t.err.None? && Forwards(t.data[4] % 32) {
      ChunksFramedExactly(UnitTemplate(t.data, timestamp), t.data, VIDEO_BUFFER, BodyLength(t.data), t.rest, before);
    }
    hide Chunks;
    hide Trace;
    hide ReadFull;
    hide Discard;
    hide FirstChunkComes;
  }

  /** None of the units that are read overflows. */
  predicate UnitsFit(src: Source, timestamp: uint32)
    decreases |Stream(src)|
  {
    var u := VideoUnit(src, timestamp);
    && !UnitOverflows(src)
    && (!u.done && u.sent.err.None? ==> (UnitShrinks(src, timestamp); UnitsFit(u.sent.rest, timestamp)))
  }

  lemma {:induction false} UnitsFramedExactly(src: Source, timestamp: uint32, before: seq<Packet>)
    requires Trace(before).Boundary?
    ensures var s := VideoUnits(src, timestamp);
      && (Trace(before + s.packets).Broken? <==> !UnitsFit(src, timestamp))
      && (s.err.None? && UnitsFit(src, timestamp) ==> Trace(before + s.packets).Boundary?)
    decreases |Stream(src)|
  {
    hide VideoUnit;
    hide UnitOverflows;
    hide Trace;
    var u := VideoUnit(src, timestamp);
    UnitFramedExactly(src, timestamp, before);
    UnitShrinks(src, timestamp);
    if !u.done && u.sent.err.None? {
      var more := VideoUnits(u.sent.rest, timestamp);
      Associative(before, u.sent.packets, more.packets);
      if UnitOverflows(src) {
        assert (u.sent.packets + more.packets)[..|u.sent.packets|] == u.sent.packets;
        BrokenThroughout(before, u.sent.packets + more.packets, |u.sent.packets|);
      } else {
        UnitsFramedExactly(u.sent.rest, timestamp, before + u.sent.packets);
      }
    }
  }

  lemma WholePacketTrace(p: Packet, before: seq<Packet>)
    requires Trace(before).Boundary? && !p.IsContinuation()
    requires p.length == |p.payload| && Countable(p.length)
    ensures Trace(before + [p]).Boundary?
  {
    assert (before + [p])[..|before|] == before;
  }

  lemma SeqHeaderTrace(kind: Kind, src: Source, toRead: uint32, before: seq<Packet>)
    requires Trace(before).Boundary?
    ensures Trace(before + SeqHeader(kind, src, toRead).packets).Boundary?
  {
    var s := SeqHeader(kind, src, toRead);
    assert before + [] == before;
    if s.err.None? {
      WholePacketTrace(s.packets[0], before);
    }
  }

  /** The announced length is below that of the tag header, so that it wraps, and a first chunk is delivered. */
  predicate AudioOverflows(length: uint32, src: Source) {
    var size := Wrap32(length - AUDIO_TAG_HEADER);
    !Countable(size) && FirstChunkComes(0, AUDIO_BUFFER, size, src)
  }

  lemma AudioFramedExactly(length: uint32, timestamp: uint32, src: Source, before: seq<Packet>)
    requires Trace(before).Boundary?
    ensures var s := AudioChunks(length, timestamp, src);
      && (Trace(before + s.packets).Broken? <==> AudioOverflows(length, src))
      && (s.err.None? && !AudioOverflows(length, src) ==> Trace(before + s.packets).Boundary?)
  {
    var size := Wrap32(length - AUDIO_TAG_HEADER);
    ChunksFramedExactly(Template(Audio, false, timestamp, size), [], AUDIO_BUFFER, size, src, before);
    hide Chunks;
    hide Trace;
    hide FirstChunkComes;
  }

  /** Nothing that is forwarded of this message overflows. */
  predicate Fits(m: Inbound) {
    match m
    case VideoMessage(_, timestamp, data) =>
      var t := ReadFull(data, VIDEO_TAG_HEADER);
      t.err.None? && t.data[0] % 16 == CODEC_H264 && t.data[1] == PACKET_DATA ==> UnitsFit(t.rest, timestamp)
    case AudioMessage(length, _, data) =>
      var t := ReadFull(data, AUDIO_TAG_HEADER);
      t.err.None? && t.data[0] / 16 == CODEC_AAC && t.data[1] == PACKET_DATA ==> !AudioOverflows(length, t.rest)
    case _ => true
  }

  lemma HandleFramedExactly(m: Inbound, before: seq<Packet>)
    requires Trace(before).Boundary?
    ensures var s := Handle(m);
      && (Trace(before + s.packets).Broken? <==> !Fits(m))
      && (s.err.None? && Fits(m) ==> Trace(before + s.packets).Boundary?)
  {
    hide Trace;
    hide VideoUnits;
    hide AudioChunks;
    hide SeqHeader;
    hide UnitsFit;
    hide AudioOverflows;
    hide ReadFull;
    assert before + [] == before;
    match m
    case VideoMessage(length, timestamp, data) =>
      var rest := ReadFull(data, VIDEO_TAG_HEADER).rest;
      UnitsFramedExactly(rest, timestamp, before);
      SeqHeaderTrace(VideoSeqHdr, rest, Wrap32(length - VIDEO_TAG_HEADER), before);
    case AudioMessage(length, timestamp, data) =>
      var rest := ReadFull(data, AUDIO_TAG_HEADER).rest;
      AudioFramedExactly(length, timestamp, rest, before);
      SeqHeaderTrace(AudioSeqHdr, rest, Wrap32(length - AUDIO_TAG_HEADER), before);
    case MetaDataMessage(meta) =>
      WholePacketTrace(MetaPacket(meta), before);
    case CloseStream =>
  }

  /** None of the messages that are handled overflows. */
  predicate SessionFits(messages: seq<Inbound>) {
    |messages| == 0 || messages[0].CloseStream?
    || (Fits(messages[0]) && (Handle(messages[0]).err.None? ==> SessionFits(messages[1..])))
  }

  /** A session publishes an unbroken run, every message whole and in one piece but for the last one when
      reading it failed, if and only if nothing that it forwards overflows. */
  lemma {:induction false} SessionFramedExactly(messages: seq<Inbound>, before: seq<Packet>)
    requires Trace(before).Boundary?
    ensures Trace(before + SessionLog(messages)).Broken? <==> !SessionFits(messages)
  {
    hide Trace;
    hide Handle;
    hide Fits;
    assert before + [] == before;
    if |messages| > 0 && !messages[0].CloseStream? {
      HandleFramedExactly(messages[0], before);
      var s := Handle(messages[0]);
      if s.err.None? {
        var more := SessionLog(messages[1..]);
        Associative(before, s.packets, more);
        if Fits(messages[0]) {
          SessionFramedExactly(messages[1..], before + s.packets);
        } else {
          assert (s.packets + more)[..|s.packets|] == s.packets;
          BrokenThroughout(before, s.packets + more, |s.packets|);
        }
      }
    }
  }

  /** A length of 0 wraps. It breaks the framing as soon as a first chunk can be filled, even though the
      announced bytes never come and the session ends with a read error. */
  lemma ZeroLengthUnit(src: Source, tail: seq<byte>, timestamp: uint32)
    requires Clean(src) && Stream(src) == [0, 0, 0, 0, 1] + tail
    ensures Trace(VideoUnit(src, timestamp).sent.packets).Broken? <==> |tail| >= VIDEO_BUFFER - NALU_HEADER
  {
    hide Stream;
    hide ReadFull;
    hide Clean;
    TagComes(src, [0, 0, 0, 0, 1], tail);
    var t := ReadFull(src, NALU_HEADER);
    CleanIsAvailable(t.rest);
    ZeroLengthWraps(t.data);
    UnitFramedExactly(src, timestamp, []);
    assert [] + VideoUnit(src, timestamp).sent.packets == VideoUnit(src, timestamp).sent.packets;
    hide VideoUnit;
    hide ReadFull;
    hide Available;
  }

  lemma ZeroLengthWraps(header: seq<byte>)
    requires header == [0, 0, 0, 0, 1]
    ensures BodyLength(header) == TWO_TO_32 - 1
  {
    assert header[..4] == [0, 0, 0, 0];
    assert BigEndian(4, 0) == [0, 0, 0, 0];
    PowersOf256();
    BigEndianDecodes(4, 0);
  }

  /** One such source, of 65536 bytes in one delivery. */
  lemma ZeroLengthUnitBreaks(timestamp: uint32)
    ensures var bytes: seq<byte> := [0, 0, 0, 0, 1] + seq(65531, _ => 0);
      Trace(VideoUnit([DeliveryFields(bytes, None)], timestamp).sent.packets).Broken?
  {
    var tail: seq<byte> := seq(65531, _ => 0);
    var src: Source := [DeliveryFields([0, 0, 0, 0, 1] + tail, None)];
    assert src[1..] == [] && Stream([]) == [];
    assert Stream(src) == [0, 0, 0, 0, 1] + tail;
    ZeroLengthUnit(src, tail, timestamp);
  }


  // ---- End to end: from length-prefixed NAL units to messages ----

  /** A unit as ISO/IEC 14496-15 section 5 stores it: its length in four bytes, then the unit. */
  function Prefixed(unit: seq<byte>): seq<byte> {
    BigEndian(4, |unit|) + unit
  }

  function UnitsBytes(units: seq<seq<byte>>): seq<byte> {
    if |units| == 0 then [] else Prefixed(units[0]) + UnitsBytes(units[1..])
  }

  /** ITU-T H.264, Table 7-1: types 1 and 5 are the coded slices; a unit of its type byte alone is dropped. */
  predicate Carried(unit: seq<byte>) {
    |unit| > 1 && (unit[0] % 32 == 1 || unit[0] % 32 == 5)
  }

  function UnitBody(unit: seq<byte>, timestamp: uint32): seq<byte>
    requires |unit| > 0
  {
    MessageHeader(Video, Flags(unit[0] % 32 == 5, false), timestamp) + Prefixed(unit)
  }

  /** One body per carried unit, in order. */
  function UnitBodies(units: seq<seq<byte>>, timestamp: uint32): seq<seq<byte>> {
    if |units| == 0 then []
    else (if Carried(units[0]) then [UnitBody(units[0], timestamp)] else []) + UnitBodies(units[1..], timestamp)
  }

  /** Four bytes hold the length, and the frame header of a carried unit does not wrap. */
  predicate UnitShort(unit: seq<byte>) {
    0 < |unit| < TWO_TO_32 && (Carried(unit) ==> |unit| <= TWO_TO_32 - 11)
  }

  predicate UnitsShort(units: seq<seq<byte>>) {
    forall i :: 0 <= i < |units| ==> UnitShort(units[i])
  }

  lemma PrefixReads(unit: seq<byte>, tail: seq<byte>)
    requires 0 < |unit| < TWO_TO_32
    ensures var s := Prefixed(unit) + tail;
      && |s| >= NALU_HEADER && s[4] == unit[0]
      && FromBigEndian(s[..4]) == |unit|
      && s[NALU_HEADER..] == unit[1..] + tail
      && Prefixed(unit) == s[..NALU_HEADER] + unit[1..]
  {
    PowersOf256();
    BigEndianDecodes(4, |unit|);
    PrefixedSlices(BigEndian(4, |unit|), unit, tail);
    hide FromBigEndian;
    hide BigEndian;
  }

  lemma PrefixedSlices(length: seq<byte>, unit: seq<byte>, tail: seq<byte>)
    requires |length| == 4 && |unit| > 0
    ensures var s := length + unit + tail;
      && s[4] == unit[0] && s[..4] == length
      && s[5..] == unit[1..] + tail && length + unit == s[..5] + unit[1..]
  {
    assert unit == [unit[0]] + unit[1..];
  }

  lemma UnitHeaderReads(src: Source, unit: seq<byte>, tail: seq<byte>)
    requires Clean(src) && 0 < |unit| < TWO_TO_32 && Stream(src) == Prefixed(unit) + tail
    ensures var t := ReadFull(src, NALU_HEADER);
      && t.err.None? && t.data[4] == unit[0] && BodyLength(t.data) == |unit| - 1
      && t.data + unit[1..] == Prefixed(unit)
      && Clean(t.rest) && Stream(t.rest) == unit[1..] + tail
  {
    hide Prefixed;
    hide Stream;
    hide FromBigEndian;
    hide ReadFull;
    hide Clean;
    CleanIsAvailable(src);
    ReadFullTakes(src, NALU_HEADER);
    PrefixReads(unit, tail);
    hide Available;
    hide FirstError;
    var t := ReadFull(src, NALU_HEADER);
    assert t.data[..4] == Stream(src)[..4];
  }

  /** The parser on a unit at the head of the stream: it consumes just that unit, and publishes the cutting
      of its prefixed form if it is carried and nothing otherwise. */
  lemma UnitForwarded(src: Source, unit: seq<byte>, tail: seq<byte>, timestamp: uint32)
    requires Clean(src) && 0 < |unit| < TWO_TO_32 && Stream(src) == Prefixed(unit) + tail
    ensures var u := VideoUnit(src, timestamp);
      && !u.done && u.sent.err.None? && Clean(u.sent.rest) && Stream(u.sent.rest) == tail
      && u.sent.packets == if !Carried(unit) then [] else
           Cut(Template(Video, unit[0] % 32 == 5, timestamp, Wrap32(|unit| + 4)), Split(Prefixed(unit), VIDEO_BUFFER), true)
  {
    hide Prefixed;
    hide Stream;
    hide Split;
    UnitHeaderReads(src, unit, tail);
    var t := ReadFull(src, NALU_HEADER);
    CleanIsAvailable(t.rest);
    assert Stream(t.rest)[..|unit| - 1] == unit[1..];
    assert Stream(t.rest)[|unit| - 1..] == tail;
    if !Forwards(unit[0] % 32) {
      DiscardSkips(t.rest, |unit| - 1, DISCARD_BUFFER);
    } else {
      var m := UnitTemplate(t.data, timestamp);
      CleanChunksSucceed(m, t.data, VIDEO_BUFFER, true, |unit| - 1, t.rest);
      if |unit| > 1 {
        ChunksCut(m, t.data, VIDEO_BUFFER, true, |unit| - 1, t.rest);
      }
    }
  }

  lemma ContinuationBody(m: Template, piece: seq<byte>, before: seq<Packet>)
    requires |Bodies(before)| > 0
    ensures var bs := Bodies(before);
      Bodies(before + [m.Chunk(false, piece)]) == bs[..|bs| - 1] + [bs[|bs| - 1] + piece]
  {
    hide MessageHeader;
    BodiesNext(before, m.Chunk(false, piece));
    hide Bodies;
  }

  lemma BodiesNext(before: seq<Packet>, p: Packet)
    ensures Bodies(before + [p]) == Extend(Bodies(before), p)
  {
    hide Extend;
    assert (before + [p])[..|before|] == before;
  }

  lemma {:induction false} ContinuationBodies(m: Template, pieces: seq<seq<byte>>, before: seq<Packet>)
    requires |Bodies(before)| > 0
    ensures var bs := Bodies(before);
      Bodies(before + Cut(m, pieces, false)) == bs[..|bs| - 1] + [bs[|bs| - 1] + Flat(pieces)]
  {
    var bs := Bodies(before);
    if |pieces| == 0 {
      assert before + [] == before;
      assert bs[|bs| - 1] + [] == bs[|bs| - 1];
    } else {
      var p := m.Chunk(false, pieces[0]);
      ContinuationBody(m, pieces[0], before);
      ContinuationBodies(m, pieces[1..], before + [p]);
      Associative(before, [p], Cut(m, pieces[1..], false));
      FlatCons(pieces[0], pieces[1..]);
      assert [pieces[0]] + pieces[1..] == pieces;
      Associative(bs[|bs| - 1], pieces[0], Flat(pieces[1..]));
      hide Bodies;
      hide Flat;
    }
  }

  lemma CutBodies(m: Template, pieces: seq<seq<byte>>)
    requires |pieces| > 0
    ensures Bodies(Cut(m, pieces, true)) == [MessageHeader(m.kind, Flags(m.key, false), m.timestamp) + Flat(pieces)]
  {
    var p := m.Chunk(true, pieces[0]);
    var header := MessageHeader(m.kind, Flags(m.key, false), m.timestamp);
    assert [p][..0] == [];
    assert Bodies([p]) == [header + pieces[0]];
    ContinuationBodies(m, pieces[1..], [p]);
    FlatCons(pieces[0], pieces[1..]);
    assert [pieces[0]] + pieces[1..] == pieces;
    Associative(header, pieces[0], Flat(pieces[1..]));
  }

  /** For every list of units and every chunking of their bytes, the session publishes packets that finish
      their messages, and the messages are the carried units, in order, each behind its header. */
  lemma {:induction false} UnitsForwarded(src: Source, units: seq<seq<byte>>, timestamp: uint32)
    requires Clean(src) && UnitsShort(units) && Stream(src) == UnitsBytes(units)
    ensures var s := VideoUnits(src, timestamp);
      && s.err.None?
      && Trace(s.packets).Boundary?
      && Bodies(s.packets) == UnitBodies(units, timestamp)
    decreases |units|
  {
    var u, s := VideoUnit(src, timestamp), VideoUnits(src, timestamp);
    if |units| == 0 {
      CleanIsAvailable(src);
      ReadNTakes(src, NALU_HEADER);
    } else {
      UnitForwarded(src, units[0], UnitsBytes(units[1..]), timestamp);
      UnitsForwarded(u.sent.rest, units[1..], timestamp);
      CarriedUnitBodies(src, units[0], UnitsBytes(units[1..]), timestamp);
      TraceFromBoundary(u.sent.packets, VideoUnits(u.sent.rest, timestamp).packets);
    }
  }

  /** Type 5 is the coded slice of a picture from which decoding can start. */
  predicate IsKeyUnit(unit: seq<byte>) {
    Carried(unit) && unit[0] % 32 == 5
  }

  /** The units from the first key unit on. */
  function FromKeyUnit(units: seq<seq<byte>>): seq<seq<byte>> {
    if |units| == 0 || IsKeyUnit(units[0]) then units else FromKeyUnit(units[1..])
  }

  lemma CutKinds(m: Template, pieces: seq<seq<byte>>, first: bool)
    requires m.kind.Video? && !m.key
    ensures forall i :: 0 <= i < |Cut(m, pieces, first)| ==>
      Cut(m, pieces, first)[i].kind.Video? && !Cut(m, pieces, first)[i].IsKeyFrame()
  {
  }

  /** What a closed gate lets through of one unit and of what follows. */
  lemma UnitAtClosedGate(src: Source, unit: seq<byte>, tail: seq<byte>, timestamp: uint32, more: seq<Packet>)
    requires Clean(src) && 0 < |unit| < TWO_TO_32 && Stream(src) == Prefixed(unit) + tail
    ensures var packets := VideoUnit(src, timestamp).sent.packets;
      Deliver(packets + more) == if IsKeyUnit(unit) then packets + more else Deliver(more)
  {
    var packets := VideoUnit(src, timestamp).sent.packets;
    hide Prefixed;
    hide Stream;
    hide Clean;
    UnitForwarded(src, unit, tail, timestamp);
    hide VideoUnit;
    if !Carried(unit) {
      assert packets + more == more;
    } else {
      var m := Template(Video, unit[0] % 32 == 5, timestamp, Wrap32(|unit| + 4));
      var pieces := Split(Prefixed(unit), VIDEO_BUFFER);
      if m.key {
        assert packets[0] == m.Chunk(true, pieces[0]);
        KeyFrameOpens(packets + more);
      } else {
        CutKinds(m, pieces, true);
        OtherFramesAreWithheld(packets);
        ClosedGateStartsAnew(packets, more);
      }
    }
    hide Deliver;
    hide GateOpen;
  }

  /** The forwarded units of length 1. */
  function LoneTypes(units: seq<seq<byte>>): nat {
    if |units| == 0 then 0
    else (if |units[0]| == 1 && (units[0][0] % 32 == 1 || units[0][0] % 32 == 5) then 1 else 0) + LoneTypes(units[1..])
  }

  /** One buffer is dropped for each of them, and for no other unit. */
  lemma {:induction false} UnitsForgottenExactly(src: Source, units: seq<seq<byte>>, timestamp: uint32)
    requires Clean(src) && UnitsShort(units) && Stream(src) == UnitsBytes(units)
    ensures UnitsForgotten(src, timestamp) == LoneTypes(units)
    decreases |units|
  {
    if |units| == 0 {
      CleanIsAvailable(src);
      ReadNTakes(src, NALU_HEADER);
    } else {
      UnitForwarded(src, units[0], UnitsBytes(units[1..]), timestamp);
      UnitHeaderReads(src, units[0], UnitsBytes(units[1..]));
      hide VideoUnit;
      hide ReadFull;
      hide Prefixed;
      UnitsForgottenExactly(VideoUnit(src, timestamp).sent.rest, units[1..], timestamp);
    }
  }

  /** A source of one such unit, and nothing else. */
  lemma LoneTypeForgotten(timestamp: uint32)
    ensures var src: Source := [DeliveryFields([0, 0, 0, 1, 65], None)];
      UnitsForgotten(src, timestamp) == 1 && VideoUnits(src, timestamp) == Sent([], None, [])
  {
    var src: Source := [DeliveryFields([0, 0, 0, 1, 65], None)];
    var header: seq<byte> := [0, 0, 0, 1, 65];
    assert header[..4] == [0, 0, 0, 1];
    assert BigEndian(4, 1) == [0, 0, 0, 1];
    PowersOf256();
    BigEndianDecodes(4, 1);
    assert src[1..] == [];
    assert ReadFull(src, NALU_HEADER) == Taken(header, None, []);
    assert ReadFull([], NALU_HEADER).err == Some(EndOfFile);
    assert VideoUnit(src, timestamp) == Unit(false, Sent([], None, []));
    assert VideoUnit([], timestamp) == Unit(true, Sent([], None, []));
  }

  /** To a consumer whose gate is closed the session publishes, in effect, the units from the first key unit
      on, each whole. */
  lemma {:induction false} UnitsThroughGate(src: Source, units: seq<seq<byte>>, timestamp: uint32)
    requires Clean(src) && UnitsShort(units) && Stream(src) == UnitsBytes(units)
    ensures var passed := Deliver(VideoUnits(src, timestamp).packets);
      Trace(passed).Boundary? && Bodies(passed) == UnitBodies(FromKeyUnit(units), timestamp)
    decreases |units|
  {
    var u, s := VideoUnit(src, timestamp), VideoUnits(src, timestamp);
    UnitsForwarded(src, units, timestamp);
    if |units| == 0 {
      CleanIsAvailable(src);
      ReadNTakes(src, NALU_HEADER);
    } else {
      var more := VideoUnits(u.sent.rest, timestamp);
      UnitForwarded(src, units[0], UnitsBytes(units[1..]), timestamp);
      assert s.packets == u.sent.packets + more.packets;
      UnitAtClosedGate(src, units[0], UnitsBytes(units[1..]), timestamp, more.packets);
      if !IsKeyUnit(units[0]) {
        UnitsThroughGate(u.sent.rest, units[1..], timestamp);
      }
    }
    hide VideoUnits;
    hide VideoUnit;
    hide Deliver;
  }

  lemma CarriedUnitBodies(src: Source, unit: seq<byte>, tail: seq<byte>, timestamp: uint32)
    requires Clean(src) && UnitShort(unit) && Stream(src) == Prefixed(unit) + tail
    ensures var packets := VideoUnit(src, timestamp).sent.packets;
      && Trace(packets).Boundary?
      && Bodies(packets) == if Carried(unit) then [UnitBody(unit, timestamp)] else []
  {
    hide Stream;
    var packets := VideoUnit(src, timestamp).sent.packets;
    UnitForwarded(src, unit, tail, timestamp);
    UnitHeaderReads(src, unit, tail);
    if Carried(unit) {
      UnitFramedExactly(src, timestamp, []);
      assert [] + packets == packets;
      SplitIsExact(Prefixed(unit), VIDEO_BUFFER);
      CutBodies(Template(Video, unit[0] % 32 == 5, timestamp, Wrap32(|unit| + 4)), Split(Prefixed(unit), VIDEO_BUFFER));
    }
  }

  /** An audio message, whatever the chunking: its packets finish one message, which is the announced
      number of bytes behind its header. */
  lemma AudioForwarded(length: uint32, timestamp: uint32, src: Source)
    requires var size := Wrap32(length - AUDIO_TAG_HEADER);
      Clean(src) && 0 < size <= |Stream(src)| && size + MESSAGE_HEADER_SIZE < TWO_TO_32
    ensures var s, size := AudioChunks(length, timestamp, src), Wrap32(length - AUDIO_TAG_HEADER);
      && s.err.None?
      && Trace(s.packets).Boundary?
      && Bodies(s.packets) == [MessageHeader(Audio, Flags(false, false), timestamp) + Stream(src)[..size]]
  {
    hide Stream;
    var s, size := AudioChunks(length, timestamp, src), Wrap32(length - AUDIO_TAG_HEADER);
    var m, bytes := Template(Audio, false, timestamp, size), Stream(src)[..size];
    CleanChunksSucceed(m, [], AUDIO_BUFFER, true, size, src);
    ChunksCut(m, [], AUDIO_BUFFER, true, size, src);
    AudioFramedExactly(length, timestamp, src, []);
    assert [] + s.packets == s.packets && [] + bytes == bytes;
    SplitIsExact(bytes, AUDIO_BUFFER);
    CutBodies(m, Split(bytes, AUDIO_BUFFER));
  }

  lemma {:induction false} ChunksKind(m: Template, held: seq<byte>, capacity: nat, first: bool, remaining: nat, src: Source)
    requires |held| < capacity
    ensures forall i :: 0 <= i < |Chunks(m, held, capacity, first, remaining, src).packets| ==>
      Chunks(m, held, capacity, first, remaining, src).packets[i].kind == m.kind
    decreases remaining
  {
    if remaining > 0 {
      var t := ReadN(src, Min(remaining, capacity - |held|));
      if t.err.None? {
        ChunksKind(m, [], capacity, false, remaining - |t.data|, t.rest);
      }
    }
  }

  // ---- What a client gets of a message, from its first byte on ----

  /** A carried unit as the client is to read it. */
  function UnitMessages(units: seq<seq<byte>>, timestamp: uint32): seq<Received> {
    if |units| == 0 then []
    else
      (if Carried(units[0]) then [Received(Video, units[0][0] % 32 == 5, false, timestamp, Prefixed(units[0]))] else [])
      + UnitMessages(units[1..], timestamp)
  }

  /** Framed, the bodies of the carried units read as they should. */
  lemma {:induction false} UnitBodiesRead(units: seq<seq<byte>>, timestamp: uint32)
    ensures var bodies, messages := UnitBodies(units, timestamp), UnitMessages(units, timestamp);
      && |bodies| == |messages|
      && forall i :: 0 <= i < |bodies| ==> Decode(WsFrame(true, 2, bodies[i])) == Some(messages[i])
  {
    if |units| > 0 {
      UnitBodiesRead(units[1..], timestamp);
      if Carried(units[0]) {
        MessageReads(Video, units[0][0] % 32 == 5, false, timestamp, Prefixed(units[0]));
      }
      hide Decode;
      hide MessageHeader;
      hide Prefixed;
    }
  }

  /** The tag header of a video message is five bytes: codec 7 in the low half of the first is H.264, and the
      second says header (0) or units (1). The header has the announced length, less the tag. */
  lemma VideoHeaderHandled(length: uint32, timestamp: uint32, data: Source, tag: seq<byte>, body: seq<byte>)
    requires Clean(data) && |tag| == 5 && Stream(data) == tag + body && tag[0] % 16 == 7 && tag[1] == 0
    ensures var s, size := Handle(VideoMessage(length, timestamp, data)), Wrap32(length - 5);
      && (s.err.None? <==> size <= 512 && size <= |body|)
      && s.packets == if size <= 512 && size <= |body| then [Packet(VideoSeqHdr, 0, 0, size, body[..size])] else []
  {
    TagComes(data, tag, body);
    var rest := ReadFull(data, VIDEO_TAG_HEADER).rest;
    SeqHeaderExactly(VideoSeqHdr, rest, Wrap32(length - 5));
    CleanIsAvailable(rest);
    hide SeqHeader;
    hide ReadFull;
    hide Stream;
    hide Available;
    hide VideoUnits;
  }

  lemma TagComes(data: Source, tag: seq<byte>, body: seq<byte>)
    requires Clean(data) && Stream(data) == tag + body
    ensures var t := ReadFull(data, |tag|); t.err.None? && t.data == tag && Clean(t.rest) && Stream(t.rest) == body
  {
    CleanIsAvailable(data);
    ReadFullTakes(data, |tag|);
    hide ReadFull;
    hide Stream;
    assert (tag + body)[..|tag|] == tag && (tag + body)[|tag|..] == body;
  }

  lemma VideoUnitsHandled(length: uint32, timestamp: uint32, data: Source, tag: seq<byte>, units: seq<seq<byte>>)
    requires Clean(data) && |tag| == 5 && Stream(data) == tag + UnitsBytes(units) && tag[0] % 16 == 7 && tag[1] == 1
    requires UnitsShort(units)
    ensures var s := Handle(VideoMessage(length, timestamp, data));
      && s.err.None? && Trace(s.packets).Boundary? && Bodies(s.packets) == UnitBodies(units, timestamp)
      && Trace(Deliver(s.packets)).Boundary? && Bodies(Deliver(s.packets)) == UnitBodies(FromKeyUnit(units), timestamp)
  {
    hide ReadFull;
    hide Stream;
    hide VideoUnits;
    hide Deliver;
    TagComes(data, tag, UnitsBytes(units));
    var rest := ReadFull(data, VIDEO_TAG_HEADER).rest;
    UnitsForwarded(rest, units, timestamp);
    UnitsThroughGate(rest, units, timestamp);
    assert Handle(VideoMessage(length, timestamp, data)) == VideoUnits(rest, timestamp);
    hide Handle;
  }

  /** Whatever else comes as a video message is refused, and nothing of it is published. */
  lemma VideoRefused(length: uint32, timestamp: uint32, data: Source)
    requires Available(data) < 5 || Stream(data)[0] % 16 != 7 || (Stream(data)[1] != 0 && Stream(data)[1] != 1)
    ensures var s := Handle(VideoMessage(length, timestamp, data)); s.err.Some? && s.packets == []
  {
    ReadFullTakes(data, VIDEO_TAG_HEADER);
    hide ReadFull;
    hide Stream;
    hide Available;
    hide FirstError;
    hide VideoUnits;
    hide SeqHeader;
  }

  /** The tag header of an audio message is two bytes: codec 10 in the high half of the first is AAC, and the
      second says header (0) or data (1). */
  lemma AudioHeaderHandled(length: uint32, timestamp: uint32, data: Source, tag: seq<byte>, body: seq<byte>)
    requires Clean(data) && |tag| == 2 && Stream(data) == tag + body && tag[0] / 16 == 10 && tag[1] == 0
    ensures var s, size := Handle(AudioMessage(length, timestamp, data)), Wrap32(length - 2);
      && (s.err.None? <==> size <= 512 && size <= |body|)
      && s.packets == if size <= 512 && size <= |body| then [Packet(AudioSeqHdr, 0, 0, size, body[..size])] else []
  {
    TagComes(data, tag, body);
    var rest := ReadFull(data, AUDIO_TAG_HEADER).rest;
    SeqHeaderExactly(AudioSeqHdr, rest, Wrap32(length - 2));
    CleanIsAvailable(rest);
    hide SeqHeader;
    hide ReadFull;
    hide Stream;
    hide Available;
    hide AudioChunks;
  }

  lemma AudioDataHandled(length: uint32, timestamp: uint32, data: Source, tag: seq<byte>, body: seq<byte>)
    requires Clean(data) && |tag| == 2 && Stream(data) == tag + body && tag[0] / 16 == 10 && tag[1] == 1
    requires 2 < length <= TWO_TO_32 - 5 && length - 2 <= |body|
    ensures var s := Handle(AudioMessage(length, timestamp, data));
      && s.err.None? && Trace(s.packets).Boundary?
      && Bodies(s.packets) == [MessageHeader(Audio, Flags(false, false), timestamp) + body[..length - 2]]
      && forall i :: 0 <= i < |s.packets| ==> s.packets[i].kind.Audio?
  {
    hide ReadFull;
    hide Stream;
    hide Clean;
    hide AudioChunks;
    hide Trace;
    hide Bodies;
    hide MessageHeader;
    hide Flags;
    hide Handle;
    TagComes(data, tag, body);
    var rest := ReadFull(data, |tag|).rest;
    assert Wrap32(length - 2) == length - 2;
    AudioDataIsChunks(length, timestamp, data);
    AudioForwarded(length, timestamp, rest);
    AudioKind(length, timestamp, rest);
  }

  lemma AudioDataIsChunks(length: uint32, timestamp: uint32, data: Source)
    requires var t := ReadFull(data, 2); t.err.None? && t.data[0] / 16 == 10 && t.data[1] == 1
    ensures Handle(AudioMessage(length, timestamp, data)) == AudioChunks(length, timestamp, ReadFull(data, 2).rest)
  {
    hide ReadFull;
    hide AudioChunks;
  }

  lemma AudioKind(length: uint32, timestamp: uint32, src: Source)
    ensures var ps := AudioChunks(length, timestamp, src).packets; forall i :: 0 <= i < |ps| ==> ps[i].kind.Audio?
  {
    var size := Wrap32(length - AUDIO_TAG_HEADER);
    ChunksKind(Template(Audio, false, timestamp, size), [], AUDIO_BUFFER, true, size, src);
    hide Chunks;
  }

  lemma AudioRefused(length: uint32, timestamp: uint32, data: Source)
    requires Available(data) < 2 || Stream(data)[0] / 16 != 10 || (Stream(data)[1] != 0 && Stream(data)[1] != 1)
    ensures var s := Handle(AudioMessage(length, timestamp, data)); s.err.Some? && s.packets == []
  {
    ReadFullTakes(data, AUDIO_TAG_HEADER);
    hide ReadFull;
    hide Stream;
    hide Available;
    hide FirstError;
    hide AudioChunks;
    hide SeqHeader;
  }

  /** A record reaches a client's decoder as it was. */
  lemma MetaHandled(meta: MetaData)
    ensures var s := Handle(MetaDataMessage(meta));
      && s.err.None? && |s.packets| == 1 && s.packets[0] == Packet(Meta, 0, 0, 14, s.packets[0].payload)
      && ReadMeta(s.packets[0].payload) == meta
  {
    MetaRoundTrip(meta, MetaBytes(meta));
    hide MetaBytes;
    hide ReadMeta;
  }

  // ---- A whole session ----

  /** What so many messages publish, one after the other. */
  function AllPublished(messages: seq<Inbound>): seq<Packet> {
    if |messages| == 0 then [] else AllPublished(messages[..|messages| - 1]) + Handle(messages[|messages| - 1]).packets
  }

  lemma {:induction false} AllPublishedAppend(a: seq<Inbound>, b: seq<Inbound>)
    ensures AllPublished(a + b) == AllPublished(a) + AllPublished(b)
  {
    hide Handle;
    if |b| == 0 {
      assert a + b == a;
    } else {
      var front, m := b[..|b| - 1], b[|b| - 1];
      AllPublishedAppend(a, front);
      assert (a + b)[..|a + b| - 1] == a + front;
      Associative(AllPublished(a), AllPublished(front), Handle(m).packets);
    }
  }

  /** A session handles its messages in order, up to the first one that fails, which it still publishes as far
      as it got, or to the first request to close, or to the end. */
  lemma {:induction false} SessionLogExactly(messages: seq<Inbound>, n: nat)
    requires n <= |messages|
    requires forall i :: 0 <= i < n ==> !messages[i].CloseStream? && Handle(messages[i]).err.None?
    requires n == |messages| || messages[n].CloseStream? || Handle(messages[n]).err.Some?
    ensures SessionLog(messages) ==
      AllPublished(messages[..n]) + if n == |messages| || messages[n].CloseStream? then [] else Handle(messages[n]).packets
  {
    hide Handle;
    if n == 0 {
      assert messages[..0] == [];
    } else {
      var rest := messages[1..];
      SessionLogExactly(rest, n - 1);
      assert messages[..n] == [messages[0]] + rest[..n - 1];
      AllPublishedAppend([messages[0]], rest[..n - 1]);
      assert [messages[0]][..0] == [];
      assert AllPublished([messages[0]]) == Handle(messages[0]).packets;
      hide AllPublished;
      Associative(Handle(messages[0]).packets, AllPublished(rest[..n - 1]),
                  if n == |messages| || messages[n].CloseStream? then [] else Handle(messages[n]).packets);
    }
  }
}
