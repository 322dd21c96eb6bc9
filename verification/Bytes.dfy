// Bytes, big-endian numbers, and where parts lie in a sequence.
module Bytes {

  type Byte = b: int | 0 <= b < 256

  // ---- big-endian numbers ----

  function Power256(n: nat): (p: nat)
    ensures p > 0
  {
    if n == 0 then 1 else 256 * Power256(n - 1)
  }

  function Be(n: nat, v: nat): (s: seq<Byte>)
    ensures |s| == n
  {
    if n == 0 then [] else Be(n - 1, v / 256) + [v % 256]
  }

  function Rd(s: seq<Byte>): nat {
    if s == [] then 0 else Rd(s[..|s| - 1]) * 256 + s[|s| - 1]
  }

  // The number of n bytes at a place.
  function Num(s: seq<Byte>, at: nat, n: nat): nat
    requires at + n <= |s|
  {
    Rd(s[at..at + n])
  }

  lemma {:induction false} RdBe(n: nat, v: nat)
    requires v < Power256(n)
    ensures Rd(Be(n, v)) == v
  {
    if n > 0 { RdBe(n - 1, v / 256); }
  }

  lemma Powers()
    ensures Power256(4) == 0x1_0000_0000 && Power256(8) == 0x1_0000_0000_0000_0000
  {
    assert Power256(4) == 256 * Power256(3) && Power256(3) == 256 * Power256(2) && Power256(2) == 256 * Power256(1);
    assert Power256(8) == 256 * Power256(7) && Power256(7) == 256 * Power256(6) && Power256(6) == 256 * Power256(5)
           && Power256(5) == 256 * Power256(4);
  }

  const WRAP32: int := 0x1_0000_0000
  const WRAP64: int := 0x1_0000_0000_0000_0000

  function Zeros(n: nat): (z: seq<Byte>)
    ensures |z| == n
  {
    seq(n, _ => 0)
  }

  // ---- parts ----

  // s holds part from at on.
  predicate Holds(s: seq<Byte>, at: nat, part: seq<Byte>) { at + |part| <= |s| && s[at..at + |part|] == part }

  lemma HoldsInner(s: seq<Byte>, at: nat, part: seq<Byte>, off: nat, inner: seq<Byte>)
    requires Holds(s, at, part) && Holds(part, off, inner)
    ensures Holds(s, at + off, inner)
  {
    forall k | 0 <= k < |inner|
      ensures s[at + off + k] == inner[k]
    {
      assert s[at..at + |part|][off + k] == part[off + k] && part[off..off + |inner|][k] == inner[k];
    }
    assert s[at + off..at + off + |inner|] == inner;
  }

  lemma HoldsMiddle(a: seq<Byte>, b: seq<Byte>, c: seq<Byte>)
    ensures Holds(a + b + c, |a|, b)
  {
  }

  lemma HoldsMore(s: seq<Byte>, more: seq<Byte>, at: nat, part: seq<Byte>)
    requires Holds(s, at, part)
    ensures Holds(s + more, at, part)
  {
    assert (s + more)[at..at + |part|] == s[at..at + |part|];
  }
}
