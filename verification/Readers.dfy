/** Byte sources that deliver in arbitrary chunks, and what the reading loops of the source take from them. */
module Readers {
  import opened Prelude

  /** io.EOF, or any other error a reader reports. */
  datatype ReadError = EOF | Failed

  /** What one read brings: bytes, an error, or both. A read without an error makes progress. */
  type Delivery = d: DeliveryFields | d.data != [] || d.err.Some? witness DeliveryFields([], Some(EOF))

  datatype DeliveryFields = DeliveryFields(data: seq<byte>, err: Option<ReadError>)

  /** The deliveries still to come; after the last one every read reports EOF. */
  type Source = seq<Delivery>

  datatype ReadResult = ReadResult(data: seq<byte>, err: Option<ReadError>, rest: Source)

  /** One call of Read with a buffer of max bytes: a delivery that does not fit is split. */
  function Read(src: Source, max: nat): (r: ReadResult)
    ensures |r.data| <= max
    ensures r.err.None? && max > 0 ==> |r.data| > 0
  {
    if max == 0 then ReadResult([], None, src)
    else if |src| == 0 then ReadResult([], Some(EOF), [])
    else if |src[0].data| <= max then ReadResult(src[0].data, src[0].err, src[1..])
    else ReadResult(src[0].data[..max], None, [DeliveryFields(src[0].data[max..], src[0].err)] + src[1..])
  }

  /** Every byte the source will ever deliver. */
  function Stream(src: Source): seq<byte> {
    if |src| == 0 then [] else src[0].data + Stream(src[1..])
  }

  /** The number of bytes delivered up to and including the first delivery that carries an error. */
  function Available(src: Source): (n: nat)
    ensures n <= |Stream(src)|
  {
    if |src| == 0 then 0
    else if src[0].err.Some? then |src[0].data|
    else |src[0].data| + Available(src[1..])
  }

  /** The first error that the source reports; after the last delivery that is EOF. */
  function FirstError(src: Source): ReadError {
    if |src| == 0 then EOF
    else if src[0].err.Some? then src[0].err.value
    else FirstError(src[1..])
  }

  /** Whether the first error, if any, comes without bytes. */
  predicate ErrorComesAlone(src: Source) {
    |src| == 0 || (if src[0].err.Some? then src[0].data == [] else ErrorComesAlone(src[1..]))
  }

  /** A source that never fails and reports EOF only by itself, at the end. */
  predicate Clean(src: Source) {
    forall i :: 0 <= i < |src| ==> src[i].err.None?
  }

  lemma {:induction false} CleanIsAvailable(src: Source)
    requires Clean(src)
    ensures Available(src) == |Stream(src)| && ErrorComesAlone(src)
  {
    if |src| > 0 {
      assert src[0].err.None?;
      CleanIsAvailable(src[1..]);
    }
  }

  lemma ReadConserves(src: Source, max: nat)
    ensures var r := Read(src, max);
      && Stream(src) == r.data + Stream(r.rest)
      && |r.data| <= Available(src)
      && (if r.err.None? then FirstError(r.rest) == FirstError(src) else r.err.value == FirstError(src))
      && (r.err.None? ==> Available(r.rest) == Available(src) - |r.data| && ErrorComesAlone(r.rest) == ErrorComesAlone(src))
      && (r.err.Some? ==> |r.data| == Available(src) && ErrorComesAlone(src) == (r.data == []))
      && (Clean(src) ==> Clean(r.rest) && (r.err.Some? ==> src == []))
  {
    if max > 0 && |src| > 0 && |src[0].data| > max {
      var r := Read(src, max);
      assert r.rest[1..] == src[1..];
      assert src[0].data == r.data + src[0].data[max..];
    }
  }

  // ---- SharedBuffer.ReadN and io.ReadFull ----

  datatype Failure = EndOfFile | UnexpectedEOF | ReadFailed | InvalidCodec | InvalidPacket | HeaderNotRead

  datatype Taken = Taken(data: seq<byte>, err: Option<Failure>, rest: Source)

  /** The loop of ReadN with room for toRead bytes: it stops at the first error that leaves it short,
      and an error that comes with the last byte wanted is dropped. */
  function ReadN(src: Source, toRead: nat): (t: Taken)
    ensures |t.data| <= toRead
    ensures t.err.None? ==> |t.data| == toRead
    decreases toRead
  {
    if toRead == 0 then Taken([], None, src)
    else
      var r := Read(src, toRead);
      if |r.data| == toRead then Taken(r.data, None, r.rest)
      else if r.err == Some(EOF) then Taken(r.data, Some(UnexpectedEOF), r.rest)
      else if r.err.Some? then Taken(r.data, Some(ReadFailed), r.rest)
      else
        var more := ReadN(r.rest, toRead - |r.data|);
        Taken(r.data + more.data, more.err, more.rest)
  }

  lemma ReadNothing(script: Source)
    ensures ReadN(script, 0) == Taken([], None, script)
  {
  }

  lemma ReadNUnfold(script: Source, want: nat)
    requires want > 0
    ensures var r := Read(script, want);
      ReadN(script, want) ==
        if |r.data| == want then Taken(r.data, None, r.rest)
        else if r.err == Some(EOF) then Taken(r.data, Some(UnexpectedEOF), r.rest)
        else if r.err.Some? then Taken(r.data, Some(ReadFailed), r.rest)
        else
          var more := ReadN(r.rest, want - |r.data|);
          Taken(r.data + more.data, more.err, more.rest)
  {
  }

  /** Reading neither loses nor invents bytes, succeeds exactly when enough bytes come before or with
      the first error, and on failure has taken every byte there was. */
  lemma {:induction false} ReadNTakes(src: Source, toRead: nat)
    ensures var t := ReadN(src, toRead);
      && Stream(src) == t.data + Stream(t.rest)
      && (t.err.None? <==> toRead <= Available(src))
      && (t.err.Some? ==> |t.data| == Available(src))
      && (t.err.Some? ==> t.err.value == if FirstError(src) == EOF then UnexpectedEOF else ReadFailed)
      && (toRead < Available(src) ==> Available(t.rest) == Available(src) - toRead)
      && (Clean(src) ==> Clean(t.rest))
    decreases toRead
  {
    if toRead > 0 {
      var r := Read(src, toRead);
      ReadConserves(src, toRead);
      ReadNUnfold(src, toRead);
      hide *;
      if |r.data| < toRead && r.err.None? {
        ReadNTakes(r.rest, toRead - |r.data|);
        Associative(r.data, ReadN(r.rest, toRead - |r.data|).data, Stream(ReadN(src, toRead).rest));
      }
    }
  }

  /** With a reader that reports its errors without bytes, what is left can be read on from exactly there. */
  lemma {:induction false} ReadNLeaves(src: Source, toRead: nat)
    requires ErrorComesAlone(src) && toRead <= Available(src)
    ensures var t := ReadN(src, toRead);
      ErrorComesAlone(t.rest) && Available(t.rest) == Available(src) - toRead && FirstError(t.rest) == FirstError(src)
    decreases toRead
  {
    if toRead > 0 {
      var r := Read(src, toRead);
      ReadConserves(src, toRead);
      ReadNUnfold(src, toRead);
      if |r.data| < toRead && r.err.None? {
        hide *;
        ReadNLeaves(r.rest, toRead - |r.data|);
      }
    }
  }

  /** io.ReadFull: as ReadN, but EOF before the first byte is reported as such. */
  function ReadFull(src: Source, size: nat): (t: Taken)
    ensures t.err.None? ==> |t.data| == size
  {
    var t := ReadN(src, size);
    if t.err == Some(UnexpectedEOF) && t.data == [] then t.(err := Some(EndOfFile)) else t
  }

  /** It fails exactly when too few bytes come up to the first error, and reports the end of the stream as such
      only when there is nothing before it. */
  lemma ReadFullTakes(src: Source, size: nat)
    ensures var t := ReadFull(src, size);
      && (t.err.None? <==> size <= Available(src))
      && (t.err.Some? ==> t.err.value == if FirstError(src) != EOF then ReadFailed
                          else if Available(src) == 0 then EndOfFile else UnexpectedEOF)
      && (t.err.None? ==> size <= |Stream(src)| && t.data == Stream(src)[..size] && Stream(t.rest) == Stream(src)[size..])
      && (Clean(src) ==> Clean(t.rest))
  {
    ReadNTakes(src, size);
    var t := ReadFull(src, size);
    hide ReadN;
    hide Stream;
    hide Available;
    hide FirstError;
    hide Clean;
    if t.err.None? {
      assert (t.data + Stream(t.rest))[..size] == t.data && (t.data + Stream(t.rest))[size..] == Stream(t.rest);
    }
  }

  // ---- discardNALU ----

  datatype Skipped = Skipped(err: Option<Failure>, rest: Source)

  /** The loop of discardNALU: any error ends it, even one that comes with the last byte to skip. */
  function Discard(src: Source, length: nat, bufSize: nat): Skipped
    requires bufSize > 0
    decreases length
  {
    if length == 0 then Skipped(None, src)
    else
      var r := Read(src, Min(bufSize, length));
      var left := length - |r.data|;
      if r.err.None? then Discard(r.rest, left, bufSize)
      else if r.err == Some(EOF) then
        Skipped(Some(if left > 0 then UnexpectedEOF else EndOfFile), r.rest)
      else Skipped(Some(ReadFailed), r.rest)
  }

  /** Skipping succeeds exactly when the bytes come strictly before an error, or run up to an error that
      comes without bytes; it then has consumed exactly the bytes to skip. */
  lemma {:induction false} DiscardSkips(src: Source, length: nat, bufSize: nat)
    requires bufSize > 0
    ensures var d := Discard(src, length, bufSize);
      && (d.err.None? <==> length == 0 || length < Available(src) || (length == Available(src) && ErrorComesAlone(src)))
      && (d.err.Some? ==> d.err.value == if FirstError(src) != EOF then ReadFailed
                          else if length > Available(src) then UnexpectedEOF else EndOfFile)
      && (d.err.None? ==> length <= |Stream(src)| && Stream(d.rest) == Stream(src)[length..])
      && (Clean(src) ==> Clean(d.rest))
    decreases length
  {
    if length > 0 {
      var r := Read(src, Min(bufSize, length));
      ReadConserves(src, Min(bufSize, length));
      if r.err.None? {
        var left := length - |r.data|;
        assert Discard(src, length, bufSize) == Discard(r.rest, left, bufSize);
        DiscardSkips(r.rest, left, bufSize);
        hide *;
        if left <= |Stream(r.rest)| {
          assert (r.data + Stream(r.rest))[length..] == Stream(r.rest)[left..];
        }
      }
    }
  }

  /** The two loops disagree exactly when the last wanted byte comes together with an error; and then it is
      always skipping that fails. */
  lemma LoopsDisagreeExactly(src: Source, n: nat, bufSize: nat)
    requires bufSize > 0
    ensures ReadN(src, n).err.None? != Discard(src, n, bufSize).err.None? <==> 0 < n == Available(src) && !ErrorComesAlone(src)
    ensures Discard(src, n, bufSize).err.None? ==> ReadN(src, n).err.None?
  {
    ReadNTakes(src, n);
    DiscardSkips(src, n, bufSize);
    hide *;
  }

  /** One such source: the same bytes, delivered together with EOF,
      are read without error but cannot be skipped. */
  lemma DiscardRefusesWhatReadNTakes(data: seq<byte>, bufSize: nat)
    requires 0 < |data| <= bufSize
    ensures var src: Source := [DeliveryFields(data, Some(EOF))];
      && ReadN(src, |data|) == Taken(data, None, [])
      && Discard(src, |data|, bufSize).err == Some(EndOfFile)
  {
  }
}
