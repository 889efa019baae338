/** The byte formats: big-endian integers, RFC 6455 frame headers, the 6-byte message header
    and the 14-byte metadata record, each with its decoder. */
module Wire {
  import opened Prelude

  function Pow256(n: nat): nat {
    if n == 0 then 1 else 256 * Pow256(n - 1)
  }

  /** The n low-order bytes of x, most significant first. */
  function BigEndian(n: nat, x: nat): (s: seq<byte>)
    ensures |s| == n
  {
    if n == 0 then [] else BigEndian(n - 1, x / 256) + [x % 256]
  }

  function FromBigEndian(s: seq<byte>): nat {
    if |s| == 0 then 0 else 256 * FromBigEndian(s[..|s| - 1]) + s[|s| - 1]
  }

  lemma {:induction false} BigEndianDecodes(n: nat, x: nat)
    requires x < Pow256(n)
    ensures FromBigEndian(BigEndian(n, x)) == x
  {
    if n > 0 {
      BigEndianDecodes(n - 1, x / 256);
      assert BigEndian(n, x)[..n - 1] == BigEndian(n - 1, x / 256);
    }
  }

  lemma {:induction false} FromBigEndianEncodes(s: seq<byte>)
    ensures FromBigEndian(s) < Pow256(|s|)
    ensures BigEndian(|s|, FromBigEndian(s)) == s
  {
    if |s| > 0 {
      FromBigEndianEncodes(s[..|s| - 1]);
      assert FromBigEndian(s) / 256 == FromBigEndian(s[..|s| - 1]);
      assert s == s[..|s| - 1] + [s[|s| - 1]];
    }
  }

  lemma PowersOf256()
    ensures Pow256(1) == 256 && Pow256(2) == 65536 && Pow256(4) == TWO_TO_32
    ensures Pow256(8) == TWO_TO_32 * TWO_TO_32
  {
    assert Pow256(3) == 16777216;
    assert Pow256(4) == TWO_TO_32;
    assert Pow256(6) == 65536 * TWO_TO_32;
    assert Pow256(8) == 65536 * Pow256(6);
  }

  // ---- RFC 6455, section 5.2: an unmasked, final, binary frame ----

  const FIN_BINARY: byte := 0x82

  /** The header ws.WriteHeader emits for Fin, OpBinary and the given payload length. */
  function FrameHeader(length: nat): (h: seq<byte>)
    ensures 2 <= |h| <= 10
  {
    if length < 126 then [FIN_BINARY, length]
    else if length < 65536 then [FIN_BINARY, 126] + BigEndian(2, length)
    else [FIN_BINARY, 127] + BigEndian(8, length)
  }

  function Frame(body: seq<byte>): seq<byte> {
    FrameHeader(|body|) + body
  }

  datatype HeaderParse = NeedMore | Malformed | Parsed(fin: bool, opcode: nat, size: nat, length: nat)

  /** A client's reading of a frame header from a server. First octet: FIN, three reserved bits, which must be
      0, and the opcode. Second octet: the mask bit, which a server must not set, and a 7-bit length, with a
      16-bit or 64-bit extended length for 126 and 127. */
  function ParseHeader(s: seq<byte>): (p: HeaderParse)
    ensures p.Parsed? ==> 2 <= p.size <= |s|
  {
    if |s| < 2 then NeedMore
    else if s[0] / 16 % 8 != 0 || s[1] / 128 != 0 then Malformed
    else
      var fin, opcode := s[0] / 128 == 1, s[0] % 16;
      if s[1] < 126 then Parsed(fin, opcode, 2, s[1])
      else if s[1] == 126 then if |s| < 4 then NeedMore else Parsed(fin, opcode, 4, FromBigEndian(s[2..4]))
      else if |s| < 10 then NeedMore else Parsed(fin, opcode, 10, FromBigEndian(s[2..10]))
  }

  datatype WsFrame = WsFrame(fin: bool, opcode: nat, body: seq<byte>)

  datatype Frames = Frames(frames: seq<WsFrame>, rest: seq<byte>)

  /** The complete frames at the start of s, and what follows them. */
  function ParseFrames(s: seq<byte>): Frames
    decreases |s|
  {
    match ParseHeader(s)
    case Parsed(fin, opcode, size, length) =>
      if |s| - size < length then Frames([], s)
      else
        var more := ParseFrames(s[size + length..]);
        Frames([WsFrame(fin, opcode, s[size..size + length])] + more.frames, more.rest)
    case _ => Frames([], s)
  }

  /** Final binary frames, one for each body: opcode 2 is binary. */
  function Binary(bodies: seq<seq<byte>>): seq<WsFrame> {
    seq(|bodies|, i requires 0 <= i < |bodies| => WsFrame(true, 2, bodies[i]))
  }

  lemma FrameHeaderParses(length: nat, tail: seq<byte>)
    requires length < TWO_TO_32 * TWO_TO_32
    ensures ParseHeader(FrameHeader(length) + tail) == Parsed(true, 2, |FrameHeader(length)|, length)
  {
    PowersOf256();
    var s := FrameHeader(length) + tail;
    assert FIN_BINARY == 128 + 2;
    if 126 <= length < 65536 {
      BigEndianDecodes(2, length);
      assert s[2..4] == BigEndian(2, length);
    } else if 65536 <= length {
      BigEndianDecodes(8, length);
      assert s[2..10] == BigEndian(8, length);
    }
  }

  /** The shortest form that the length allows is used, as section 5.2 demands. */
  lemma FrameHeaderIsShortest(length: nat)
    ensures |FrameHeader(length)| == if length <= 125 then 2 else if length <= 65535 then 4 else 10
  {
  }

  /** A proper prefix of a frame is never taken for a complete frame. */
  lemma PartialFrameParses(body: seq<byte>, n: nat)
    requires |body| < TWO_TO_32 * TWO_TO_32
    requires n < |Frame(body)|
    ensures ParseFrames(Frame(body)[..n]) == Frames([], Frame(body)[..n])
  {
    var h := FrameHeader(|body|);
    var s := Frame(body)[..n];
    if |h| <= n {
      assert s == h + body[..n - |h|];
      FrameHeaderParses(|body|, body[..n - |h|]);
    } else {
      assert s == h[..n];
    }
  }

  function FrameAll(bodies: seq<seq<byte>>): seq<byte> {
    if |bodies| == 0 then [] else Frame(bodies[0]) + FrameAll(bodies[1..])
  }

  predicate ShortBodies(bodies: seq<seq<byte>>) {
    forall i :: 0 <= i < |bodies| ==> |bodies[i]| < TWO_TO_32 * TWO_TO_32
  }

  lemma OneFrameParses(body: seq<byte>, tail: seq<byte>)
    requires |body| < TWO_TO_32 * TWO_TO_32
    ensures ParseFrames(Frame(body) + tail)
         == Frames([WsFrame(true, 2, body)] + ParseFrames(tail).frames, ParseFrames(tail).rest)
  {
    var h := FrameHeader(|body|);
    var s := Frame(body) + tail;
    assert s == h + (body + tail);
    FrameHeaderParses(|body|, body + tail);
    assert s[|h|..|h| + |body|] == body && s[|h| + |body|..] == tail;
  }

  /** Frames decode uniquely from any stream: whatever follows, the receiver recovers exactly the
      bodies that were framed, each in one final binary frame, and goes on with the rest. */
  lemma {:induction false} FramesParse(bodies: seq<seq<byte>>, tail: seq<byte>)
    requires ShortBodies(bodies)
    ensures ParseFrames(FrameAll(bodies) + tail)
         == Frames(Binary(bodies) + ParseFrames(tail).frames, ParseFrames(tail).rest)
  {
    if |bodies| == 0 {
      assert FrameAll(bodies) + tail == tail;
    } else {
      FramesParse(bodies[1..], tail);
      FrameAllFirst(bodies);
      OneFrameParses(bodies[0], FrameAll(bodies[1..]) + tail);
      hide *;
      Associative(Frame(bodies[0]), FrameAll(bodies[1..]), tail);
      Associative([WsFrame(true, 2, bodies[0])], Binary(bodies[1..]), ParseFrames(tail).frames);
    }
  }

  lemma FrameAllFirst(bodies: seq<seq<byte>>)
    requires |bodies| > 0
    ensures FrameAll(bodies) == Frame(bodies[0]) + FrameAll(bodies[1..])
    ensures Binary(bodies) == [WsFrame(true, 2, bodies[0])] + Binary(bodies[1..])
  {
    hide Frame;
  }

  lemma {:induction false} FrameAllAppend(a: seq<seq<byte>>, b: seq<seq<byte>>)
    ensures FrameAll(a + b) == FrameAll(a) + FrameAll(b)
  {
    if |a| == 0 {
      assert a + b == b;
    } else {
      FrameAllAppend(a[1..], b);
      assert (a + b)[1..] == a[1..] + b && (a + b)[0] == a[0];
      hide Frame;
      Associative(Frame(a[0]), FrameAll(a[1..]), FrameAll(b));
    }
  }

  // ---- The metadata record (core/media/message.go) ----

  type uint8 = byte
  type uint16 = x: int | 0 <= x < 65536

  datatype MetaData = MetaData(
    videoFrameRate: uint8, videoDataRate: uint16, videoWidth: uint16, videoHeight: uint16,
    audioChannels: uint8, audioDataRate: uint16, audioSampleRate: uint32)

  const META_SIZE := 14

  /** The record's layout: width, height, frame rate, video rate, channels, sample rate, audio rate. */
  function MetaBytes(m: MetaData): (s: seq<byte>)
    ensures |s| == META_SIZE
  {
    BigEndian(2, m.videoWidth) + BigEndian(2, m.videoHeight) + [m.videoFrameRate]
    + BigEndian(2, m.videoDataRate) + [m.audioChannels]
    + BigEndian(4, m.audioSampleRate) + BigEndian(2, m.audioDataRate)
  }

  /** A client's decoder: every field read at its own offset. */
  function ReadMeta(s: seq<byte>): MetaData
    requires |s| == META_SIZE
  {
    MetaData(s[4], Field16(s, 5), Field16(s, 0), Field16(s, 2), s[7], Field16(s, 12), Field32(s, 8))
  }

  function Field16(s: seq<byte>, at: nat): uint16
    requires at + 2 <= |s|
  {
    PowersOf256();
    FromBigEndianEncodes(s[at..at + 2]);
    FromBigEndian(s[at..at + 2])
  }

  function Field32(s: seq<byte>, at: nat): uint32
    requires at + 4 <= |s|
  {
    PowersOf256();
    FromBigEndianEncodes(s[at..at + 4]);
    FromBigEndian(s[at..at + 4])
  }

  /** No two fields overlap and every byte belongs to one: the record and its bytes determine each other. */
  lemma MetaRoundTrip(m: MetaData, s: seq<byte>)
    requires |s| == META_SIZE
    ensures ReadMeta(MetaBytes(m)) == m
    ensures MetaBytes(ReadMeta(s)) == s
  {
    PowersOf256();
    MetaFieldsRead(m);
    FromBigEndianEncodes(s[0..2]);
    FromBigEndianEncodes(s[2..4]);
    FromBigEndianEncodes(s[5..7]);
    FromBigEndianEncodes(s[8..12]);
    FromBigEndianEncodes(s[12..14]);
    assert s == s[0..2] + s[2..4] + [s[4]] + s[5..7] + [s[7]] + s[8..12] + s[12..14];
  }

  lemma MetaFieldsRead(m: MetaData)
    ensures ReadMeta(MetaBytes(m)) == m
  {
    PowersOf256();
    BigEndianDecodes(2, m.videoWidth);
    BigEndianDecodes(2, m.videoHeight);
    BigEndianDecodes(2, m.videoDataRate);
    BigEndianDecodes(4, m.audioSampleRate);
    BigEndianDecodes(2, m.audioDataRate);
    var s := MetaBytes(m);
    assert s[0..2] == BigEndian(2, m.videoWidth);
    assert s[2..4] == BigEndian(2, m.videoHeight);
    assert s[5..7] == BigEndian(2, m.videoDataRate);
    assert s[8..12] == BigEndian(4, m.audioSampleRate);
    assert s[12..14] == BigEndian(2, m.audioDataRate);
  }

  // ---- Writing into a caller's buffer ----

  /** One record, byte for byte. */
  lemma MetaExample()
    ensures MetaBytes(MetaData(25, 2500, 640, 480, 2, 128, 44100))
         == [2, 128, 1, 224, 25, 9, 196, 2, 0, 0, 172, 68, 0, 128]
  {
    hide BigEndian;
    ExampleFields();
  }

  lemma ExampleFields()
    ensures BigEndian(2, 640) == [2, 128] && BigEndian(2, 480) == [1, 224] && BigEndian(2, 2500) == [9, 196]
    ensures BigEndian(2, 128) == [0, 128] && BigEndian(4, 44100) == [0, 0, 172, 68]
  {
    TwoBytes(640);
    TwoBytes(480);
    TwoBytes(2500);
    TwoBytes(128);
    TwoBytes(0);
    assert BigEndian(4, 44100) == BigEndian(3, 172) + [68] && BigEndian(3, 172) == BigEndian(2, 0) + [172];
  }

  lemma TwoBytes(x: nat)
    ensures BigEndian(2, x) == [x / 256 % 256, x % 256]
  {
    assert BigEndian(1, x / 256) == BigEndian(0, x / 256 / 256) + [x / 256 % 256];
  }

  /** binary.BigEndian.PutUint16 and PutUint32: n bytes at an offset, the others untouched. */
  method PutBigEndian(buf: array<byte>, at: nat, n: nat, x: nat)
    requires at + n <= buf.Length
    modifies buf
    ensures buf[..at] == old(buf[..at])
    ensures buf[..at + n] == old(buf[..at]) + BigEndian(n, x)
    ensures forall k :: at + n <= k < buf.Length ==> buf[k] == old(buf[k])
  {
    var i, v := n, x;
    while i > 0
      invariant 0 <= i <= n
      invariant BigEndian(n, x) == BigEndian(i, v) + buf[at + i..at + n]
      invariant buf[..at + i] == old(buf[..at + i]) && buf[at + n..] == old(buf[at + n..])
    {
      i := i - 1;
      buf[at + i] := v % 256;
      v := v / 256;
      assert buf[at + i..at + n] == [buf[at + i]] + buf[at + i + 1..at + n];
    }
    assert buf[..at + n] == buf[..at] + buf[at..at + n];
  }

  method PutByte(buf: array<byte>, at: nat, x: byte)
    requires at < buf.Length
    modifies buf
    ensures buf[..at] == old(buf[..at])
    ensures buf[..at + 1] == old(buf[..at]) + [x]
    ensures forall k :: at + 1 <= k < buf.Length ==> buf[k] == old(buf[k])
  {
    buf[at] := x;
  }

  /** MetaData.Encode: refuses a short buffer, otherwise fills its first 14 bytes. */
  method EncodeMeta(m: MetaData, buf: array<byte>) returns (ok: bool)
    modifies buf
    ensures ok == (buf.Length >= META_SIZE)
    ensures buf[..] == if ok then MetaBytes(m) + old(buf[META_SIZE..]) else old(buf[..])
  {
    if buf.Length < META_SIZE {
      return false;
    }
    hide BigEndian;
    PutBigEndian(buf, 0, 2, m.videoWidth);
    assert buf[..2] == BigEndian(2, m.videoWidth);
    PutBigEndian(buf, 2, 2, m.videoHeight);
    PutByte(buf, 4, m.videoFrameRate);
    PutBigEndian(buf, 5, 2, m.videoDataRate);
    PutByte(buf, 7, m.audioChannels);
    PutBigEndian(buf, 8, 4, m.audioSampleRate);
    PutBigEndian(buf, 12, 2, m.audioDataRate);
    assert buf[..] == buf[..META_SIZE] + buf[META_SIZE..];
    assert buf[META_SIZE..] == old(buf[META_SIZE..]);
    assert buf[..META_SIZE] == MetaBytes(m);
    return true;
  }
}
