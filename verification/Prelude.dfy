/** Machine integers, optional values and the sequence facts shared by every module. */
module Prelude {

  datatype Option<+T> = None | Some(value: T)

  const TWO_TO_32 := 0x1_0000_0000

  type byte = b: int | 0 <= b < 256
  type uint32 = x: int | 0 <= x < TWO_TO_32

  /** What a conversion to uint32 keeps of an integer. */
  function Wrap32(x: int): uint32 {
    x % TWO_TO_32
  }

  function Min(a: nat, b: nat): nat {
    if a < b then a else b
  }

  /** Concatenation of a sequence of byte strings. */
  function Flat(parts: seq<seq<byte>>): seq<byte> {
    if |parts| == 0 then [] else Flat(parts[..|parts| - 1]) + parts[|parts| - 1]
  }

  lemma {:induction false} FlatAppend(a: seq<seq<byte>>, b: seq<seq<byte>>)
    ensures Flat(a + b) == Flat(a) + Flat(b)
  {
    if |b| == 0 {
      assert a + b == a;
    } else {
      FlatAppend(a, b[..|b| - 1]);
      assert (a + b)[..|a + b| - 1] == a + b[..|b| - 1];
    }
  }

  lemma FlatCons(x: seq<byte>, rest: seq<seq<byte>>)
    ensures Flat([x] + rest) == x + Flat(rest)
  {
    FlatAppend([x], rest);
    assert [x][..0] == [];
  }

  lemma Associative<T>(a: seq<T>, b: seq<T>, c: seq<T>)
    ensures (a + b) + c == a + (b + c)
  {
  }
}
