/** core/media/shared_buffer.go over real arrays: the methods, proved against the value-level operations
    that the state machine uses. */
module Buffers {
  import opened Prelude
  import opened Readers
  import Machine

  /** An io.Reader: what it will deliver is in its script. */
  class Reader {
    var script: Source

    constructor (script: Source)
      ensures this.script == script
    {
      this.script := script;
    }

    /** Read(p[lo:hi]) */
    method Read(p: array<byte>, lo: nat, hi: nat) returns (n: nat, err: Option<ReadError>)
      requires lo <= hi <= p.Length
      modifies this, p
      ensures var r := Readers.Read(old(script), hi - lo);
        && n == |r.data| && err == r.err && script == r.rest
        && p[..lo + n] == old(p[..lo]) + r.data
        && (forall k :: lo + n <= k < p.Length ==> p[k] == old(p[k]))
    {
      var r := Readers.Read(script, hi - lo);
      script := r.rest;
      n, err := |r.data|, r.err;
      for i := 0 to n
        invariant script == r.rest && p[..lo + i] == old(p[..lo]) + r.data[..i]
        invariant forall k :: lo + i <= k < p.Length ==> p[k] == old(p[k])
      {
        p[lo + i] := r.data[i];
      }
      assert r.data[..n] == r.data;
    }
  }

  /** A sync.Pool of buffers of one size. */
  class BufferPool {
    const kind: Machine.Pool
    var free: multiset<SharedBuffer>

    constructor (kind: Machine.Pool)
      ensures this.kind == kind && free == multiset{}
    {
      this.kind := kind;
      free := multiset{};
    }

    /** What lies in the pool is empty, unreferenced and of the right size. */
    ghost predicate Valid()
      reads this, set b | b in free, set b | b in free :: b.buf
    {
      forall b :: b in free ==>
        b.pool == this && b.Value() == Machine.Buf(kind, Machine.PoolSize(kind), [], 0)
    }

    /** Get, then Acquire(1): a pooled buffer, if there is one and the pool likes, or a new one. */
    method Acquire() returns (b: SharedBuffer)
      requires Valid()
      modifies this, set x | x in free
      ensures b.pool == this && b.Value() == Machine.Buf(kind, Machine.PoolSize(kind), [], 1)
      ensures if fresh(b) then free == old(free) else b in old(free) && free == old(free) - multiset{b}
      ensures b !in free ==> Valid()
    {
      var pooled: bool := *;
      if pooled && free != multiset{} {
        b :| b in free;
        free := free - multiset{b};
      } else {
        b := New();
      }
      b.Acquire(1);
    }

    /** The pool's New function. */
    method New() returns (b: SharedBuffer)
      ensures fresh(b) && b.pool == this && b.Value() == Machine.Buf(kind, Machine.PoolSize(kind), [], 0)
    {
      var data := new byte[Machine.PoolSize(kind)](_ => 0);
      b := new SharedBuffer(this, data, 0);
    }
  }

  class SharedBuffer {
    const pool: BufferPool
    const buf: array<byte>
    var refs: int
    var len: nat

    constructor (pool: BufferPool, buf: array<byte>, initLen: nat)
      requires initLen <= buf.Length
      ensures this.pool == pool && this.buf == buf && len == initLen && refs == 0
    {
      this.pool, this.buf, refs, len := pool, buf, 0, initLen;
    }

    ghost predicate Valid()
      reads this
    {
      len <= buf.Length
    }

    ghost function Value(): Machine.Buf
      reads this, buf
    {
      Machine.Buf(pool.kind, buf.Length, buf[..if len <= buf.Length then len else 0], refs)
    }

    /** Bytes() into a private copy. */
    method CopySlice() returns (copy: SharedBuffer)
      requires Valid()
      ensures fresh(copy) && fresh(copy.buf) && copy.pool == pool && copy.Valid()
      ensures copy.Value() == Value().(capacity := len, refs := 0)
    {
      var data := new byte[len];
      for i := 0 to len
        invariant data[..i] == buf[..i]
      {
        data[i] := buf[i];
      }
      copy := new SharedBuffer(pool, data, len);
    }

    /** Appends as much as fits, and says how much that was. */
    method Write(data: seq<byte>) returns (size: nat, short: bool)
      requires Valid()
      modifies this`len, buf
      ensures Valid() && size == Min(|data|, buf.Length - old(len)) && short == (size != |data|)
      ensures Value() == old(Value()).(bytes := old(Value()).bytes + data[..size])
    {
      var end := buf.Length;
      if |data| <= end - len {
        end := len + |data|;
      }
      size := end - len;
      for i := 0 to size
        invariant len == old(len) && buf[..len + i] == old(buf[..len]) + data[..i]
      {
        buf[len + i] := data[i];
      }
      len := len + size;
      short := size != |data|;
    }

    /** Appends, in order, what ReadN takes from the reader: at most toRead bytes and no more than fit. The
        bytes before stay, and the count is that of the bytes consumed whether or not there is an error. */
    method ReadN(r: Reader, toRead: nat) returns (nRead: nat, err: Option<Failure>)
      requires Valid()
      modifies this`len, buf, r
      ensures Valid()
      ensures var t := Readers.ReadN(old(r.script), Min(toRead, buf.Length - old(len)));
        && nRead == |t.data| && err == t.err && r.script == t.rest
        && Value() == old(Value()).(bytes := old(Value()).bytes + t.data)
    {
      var end := len + toRead;
      if end > buf.Length {
        end := buf.Length;
      }
      nRead, err := ReadUpTo(r, end);
    }

    /** The loop of ReadN. */
    method ReadUpTo(r: Reader, end: nat) returns (nRead: nat, err: Option<Failure>)
      requires len <= end <= buf.Length
      modifies this`len, buf, r
      ensures len <= end
      ensures var t := Readers.ReadN(old(r.script), end - old(len));
        nRead == |t.data| && err == t.err && r.script == t.rest && buf[..len] == old(buf[..len]) + t.data
    {
      hide Readers.ReadN;
      hide Readers.Read;
      var toRead := end - len;
      nRead, err := 0, None;
      ghost var goal := Readers.ReadN(r.script, toRead);
      ghost var start := buf[..len];
      ghost var got: seq<byte> := [];
      while nRead < toRead
        invariant 0 <= nRead <= toRead && len + toRead == end + nRead
        invariant nRead == |got| && buf[..len] == start + got
        invariant var more := Readers.ReadN(r.script, toRead - nRead);
          goal.data == got + more.data && goal.err == more.err && goal.rest == more.rest
        decreases toRead - nRead
      {
        ReadNUnfold(r.script, toRead - nRead);
        ghost var step := Readers.Read(r.script, toRead - nRead);
        Associative(got, step.data, Readers.ReadN(step.rest, toRead - nRead - |step.data|).data);
        Associative(start, got, step.data);
        var n, e := ReadOnce(r, end);
        nRead := nRead + n;
        got := got + step.data;
        if nRead == toRead {
          return;
        }
        if e == Some(EOF) {
          err := Some(UnexpectedEOF);
          return;
        }
        if e.Some? {
          err := Some(ReadFailed);
          return;
        }
      }
      ReadNothing(r.script);
    }

    method ReadOnce(r: Reader, end: nat) returns (n: nat, e: Option<ReadError>)
      requires len < end <= buf.Length
      modifies this`len, buf, r
      ensures var step := Readers.Read(old(r.script), end - old(len));
        && n == |step.data| && e == step.err && r.script == step.rest
        && len == old(len) + n && buf[..len] == old(buf[..len]) + step.data
    {
      n, e := r.Read(buf, len, end);
      if n > 0 {
        len := len + n;
      }
    }

    method Acquire(n: nat)
      modifies this`refs
      ensures Value() == old(Value()).(refs := old(refs) + n)
    {
      refs := refs + n;
    }

    /** The last release empties the buffer and gives it to its pool; one too many panics. */
    method Release() returns (panics: bool)
      requires Valid()
      modifies this, pool
      ensures Valid() && panics == (old(refs) <= 0)
      ensures Value() == old(Value()).Released()
      ensures pool.free == old(pool.free) + if refs == 0 then multiset{this} else multiset{}
    {
      refs := refs - 1;
      panics := refs < 0;
      if refs == 0 {
        len := 0;
        pool.free := pool.free + multiset{this};
      }
    }
  }

  /** The release that the state machine uses does to a buffer, its pool and the panic flag what the method does. */
  lemma MemoryReleases(mem: Machine.Memory, b: Machine.BufId)
    requires b < |mem.heap|
    ensures var m, refs := mem.Release(b), mem.heap[b].refs;
      && m.heap == mem.heap[b := mem.heap[b].Released()]
      && m.pooled == mem.pooled + (if refs - 1 == 0 then multiset{b} else multiset{})
      && m.overReleased == (mem.overReleased || refs <= 0)
  {
  }
}
