/** transport/ws_media/consumer.go: how one queued message becomes bytes on the connection. */
module WsMedia {
  import opened Prelude
  import opened Wire
  import opened Packets
  import Buffers

  const MAX_HEADER_SIZE := 14

  /** wsHeader: a buffer that ws.WriteHeader writes to. */
  class WsHeader {
    var len: nat
    const data: array<byte>

    constructor ()
      ensures Valid() && fresh(data)
    {
      data := new byte[MAX_HEADER_SIZE](_ => 0);
      len := 0;
    }

    ghost predicate Valid()
      reads this
    {
      data.Length == MAX_HEADER_SIZE && len <= MAX_HEADER_SIZE
    }

    /** Write refuses what does not fit; what fits replaces the content. */
    method Write(bytes: seq<byte>) returns (ok: bool)
      requires Valid()
      modifies this, data
      ensures Valid() && ok == (|bytes| <= MAX_HEADER_SIZE)
      ensures ok ==> Bytes() == bytes
      ensures !ok ==> Bytes() == old(Bytes())
    {
      if |bytes| > MAX_HEADER_SIZE {
        return false;
      }
      for i := 0 to |bytes|
        invariant len == old(len) && data[..i] == bytes[..i]
      {
        data[i] := bytes[i];
      }
      len := |bytes|;
      ok := true;
    }

    /** The header of a final binary frame that announces the message and its 6-byte header; the sum is
        taken in uint32. It always fits. */
    method Encode(length: uint32) returns (ok: bool)
      requires Valid()
      modifies this, data
      ensures Valid() && ok && Bytes() == FrameHeader(Wrap32(length + MESSAGE_HEADER_SIZE))
    {
      ok := Write(FrameHeader(Wrap32(length + MESSAGE_HEADER_SIZE)));
    }

    function Bytes(): seq<byte>
      requires Valid()
      reads this, data
    {
      data[..len]
    }
  }

  /** A connection that takes some number of bytes and then fails. */
  class Conn {
    var out: seq<byte>
    var budget: nat

    constructor (budget: nat)
      ensures out == [] && this.budget == budget
    {
      out, this.budget := [], budget;
    }

    method Write(bytes: seq<byte>) returns (ok: bool)
      modifies this
      ensures Wrote(bytes, old(out), old(budget), out, budget, ok)
    {
      var n := Min(|bytes|, budget);
      assert bytes[..|bytes|] == bytes;
      out := out + bytes[..n];
      budget := budget - n;
      ok := n == |bytes|;
    }
  }

  function Joined(bufs: seq<seq<byte>>): seq<byte> {
    if |bufs| == 0 then [] else bufs[0] + Joined(bufs[1..])
  }

  class WsConsumer {
    const conn: Conn
    var bufs: seq<seq<byte>>
    const wsHdr: WsHeader
    const mesgHdr: array<byte>

    constructor (conn: Conn)
      ensures Valid() && bufs == [] && this.conn == conn && fresh(wsHdr) && fresh(wsHdr.data) && fresh(mesgHdr)
    {
      this.conn := conn;
      bufs := [];
      wsHdr := new WsHeader();
      mesgHdr := new byte[MESSAGE_HEADER_SIZE](_ => 0);
    }

    ghost predicate Valid()
      reads this, wsHdr
    {
      wsHdr.Valid() && mesgHdr.Length == MESSAGE_HEADER_SIZE && mesgHdr != wsHdr.data
    }

    /** mesgHeader.encode */
    method EncodeHeader(kind: Kind, flags: byte, timestamp: uint32)
      requires Valid()
      modifies mesgHdr
      ensures mesgHdr[..] == MessageHeader(kind, flags, timestamp)
    {
      mesgHdr[0] := KindCode(kind);
      mesgHdr[1] := flags;
      PutBigEndian(mesgHdr, 2, 4, timestamp);
      assert mesgHdr[..] == mesgHdr[..6];
      assert mesgHdr[..2] == [KindCode(kind), flags];
    }

    /** net.Buffers.WriteTo: what is written is consumed; on an error the rest stays. */
    method WriteBuffers() returns (ok: bool)
      modifies this`bufs, conn
      ensures Wrote(Joined(old(bufs)), old(conn.out), old(conn.budget), conn.out, conn.budget, ok)
      ensures ok ==> bufs == []
    {
      ghost var all, out, budget := Joined(bufs), conn.out, conn.budget;
      ghost var written: seq<byte> := [];
      while bufs != []
        invariant all == written + Joined(bufs)
        invariant conn.out == out + written && |written| <= budget && conn.budget == budget - |written|
        decreases |bufs|
      {
        ghost var head, tail := bufs[0], Joined(bufs[1..]);
        assert Joined(bufs) == head + tail;
        hide Joined;
        Associative(written, head, tail);
        ok := conn.Write(bufs[0]);
        if !ok {
          CutShort(written, head, tail, budget);
          Associative(out, written, head[..budget - |written|]);
          return;
        }
        Associative(out, written, head);
        written := written + head;
        bufs := bufs[1..];
      }
      ok := true;
      assert Joined([]) == [] && all == written && all[..|all|] == all;
    }

    /** writeMessage: a first chunk goes out behind the frame header and the message header, a continuation
        as it is; the message's reference is given back whether or not the connection took it. */
    method WriteMessage(m: Packet, data: Buffers.SharedBuffer) returns (ok: bool)
      requires Valid() && bufs == [] && data.Valid() && data.Value().bytes == m.payload && data.refs > 0
      requires data.buf != mesgHdr && data.buf != wsHdr.data
      modifies this`bufs, conn, wsHdr, wsHdr.data, mesgHdr, data, data.pool
      ensures Valid()
      ensures Wrote(WireOf(m), old(conn.out), old(conn.budget), conn.out, conn.budget, ok)
      ensures ok ==> bufs == []
      ensures data.Value() == old(data.Value()).Released()
      ensures data.pool.free == old(data.pool.free) + if data.refs == 0 then multiset{data} else multiset{}
    {
      var payload := data.buf[..data.len];
      if m.IsContinuation() {
        bufs := bufs + [payload];
        assert bufs == [payload];
        JoinedOne(payload);
      } else {
        var encoded := wsHdr.Encode(m.length);
        EncodeHeader(m.kind, m.flags, m.timestamp);
        bufs := bufs + [wsHdr.Bytes(), mesgHdr[..], payload];
        assert bufs == [wsHdr.Bytes(), mesgHdr[..], payload];
        JoinedThree(wsHdr.Bytes(), mesgHdr[..], payload);
      }
      assert Joined(bufs) == WireOf(m);
      hide WireOf;
      hide Joined;
      ok := WriteBuffers();
      var panics := data.Release();
    }
  }

  lemma CutShort(written: seq<byte>, head: seq<byte>, tail: seq<byte>, budget: nat)
    requires |written| <= budget < |written| + |head|
    ensures (written + (head + tail))[..budget] == written + head[..budget - |written|]
  {
  }

  lemma JoinedOne(a: seq<byte>)
    ensures Joined([a]) == a
  {
    assert [a][1..] == [];
  }

  lemma JoinedThree(a: seq<byte>, b: seq<byte>, c: seq<byte>)
    ensures Joined([a, b, c]) == a + b + c
  {
    assert [a, b, c][1..] == [b, c] && [b, c][1..] == [c];
    JoinedOne(c);
    Associative(a, b, c);
  }
}
