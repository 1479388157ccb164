/** Bytes and the few characters the formats name. */
module Bytes {

  newtype Byte = x: int | 0 <= x < 256

  const LF: Byte := 10
  const CRLF: seq<Byte> := [13, 10]

  function Concat(parts: seq<seq<Byte>>): seq<Byte> {
    if parts == [] then [] else parts[0] + Concat(parts[1..])
  }

  function Length(parts: seq<seq<Byte>>): nat {
    if parts == [] then 0 else |parts[0]| + Length(parts[1..])
  }

  lemma {:induction false} LengthOfConcat(parts: seq<seq<Byte>>)
    ensures |Concat(parts)| == Length(parts)
  {
    if parts != [] {
      LengthOfConcat(parts[1..]);
    }
  }

  lemma {:induction false} ConcatAppends(a: seq<seq<Byte>>, b: seq<seq<Byte>>)
    ensures Concat(a + b) == Concat(a) + Concat(b) && Length(a + b) == Length(a) + Length(b)
  {
    if a == [] {
      assert a + b == b;
    } else {
      assert (a + b)[0] == a[0] && (a + b)[1..] == a[1..] + b;
      ConcatAppends(a[1..], b);
    }
  }

  lemma ConcatSnoc(parts: seq<seq<Byte>>, part: seq<Byte>)
    ensures Concat(parts + [part]) == Concat(parts) + part && Length(parts + [part]) == Length(parts) + |part|
  {
    assert [part][1..] == [];
    assert Concat([part]) == part + Concat([]) == part && Length([part]) == |part|;
    ConcatAppends(parts, [part]);
  }

}
