// SFO files: the layout the writer emits, what the parser reads, and that it reads it back.
module SfoModel {
  import opened Collections
  import opened Bytes

  const HEADER: nat := 20
  const ENTRY: nat := 16
  const MAGIC: nat := 0x46535000
  const STRING: Byte := 2
  const INT: Byte := 4
  const MAX_KEY: nat := 128
  const MAX_STR: nat := 2048
  const MAX_PAIRS: nat := 256

  datatype Value = Str(s: seq<Byte>) | Int(v: nat)
  datatype Pair = Pair(key: seq<Byte>, value: Value)

  predicate Text(s: seq<Byte>) { forall i :: 0 <= i < |s| ==> s[i] != 0 }

  // What the writer's own arrays can hold.
  predicate PairOk(p: Pair) {
    && Text(p.key) && |p.key| < MAX_KEY
    && match p.value case Str(s) => Text(s) && |s| < MAX_STR case Int(v) => v < WRAP32
  }

  ghost predicate PairsOk(ps: seq<Pair>) {
    |ps| <= MAX_PAIRS && forall i :: 0 <= i < |ps| ==> PairOk(ps[i])
  }

  // ---- little-endian ----

  function Le(n: nat, v: nat): (s: seq<Byte>)
    ensures |s| == n
  {
    if n == 0 then [] else [v % 256] + Le(n - 1, v / 256)
  }

  function RdLe(s: seq<Byte>): nat {
    if s == [] then 0 else s[0] + 256 * RdLe(s[1..])
  }

  lemma {:induction false} RdLeOf(n: nat, v: nat)
    requires v < Power256(n)
    ensures RdLe(Le(n, v)) == v
  {
    if n > 0 { RdLeOf(n - 1, v / 256); }
  }

  lemma Power2()
    ensures Power256(2) == 0x1_0000
  {
    assert Power256(2) == 256 * Power256(1) && Power256(1) == 256 * Power256(0);
  }

  function AlignVal(n: nat, a: nat): nat
    requires a > 0
  {
    (n + a - 1) / a * a
  }

  lemma AlignUp(n: nat, a: nat)
    requires a > 0
    ensures n <= AlignVal(n, a) < n + a && exists q: nat :: AlignVal(n, a) == q * a
  {
    var q, r := (n + a - 1) / a, (n + a - 1) % a;
    assert n + a - 1 == q * a + r;
    assert AlignVal(n, a) == q * a;
  }

  // ---- layout ----

  // "TITLE", "LICENSE" and "TITLE_ID"
  const TITLE: seq<Byte> := [84, 73, 84, 76, 69]
  const LICENSE: seq<Byte> := [76, 73, 67, 69, 78, 83, 69]
  const TITLE_ID: seq<Byte> := [84, 73, 84, 76, 69, 95, 73, 68]

  function Alignment(key: seq<Byte>): (a: nat)
    ensures a in {4, 0x10, 0x80, 0x200}
  {
    if key == TITLE then 0x80 else if key == LICENSE then 0x200 else if key == TITLE_ID then 0x10 else 4
  }

  function Type(p: Pair): Byte { if p.value.Int? then INT else STRING }

  function ValueLen(p: Pair): nat { match p.value case Int(_) => 4 case Str(s) => |s| + 1 }

  function PaddedLen(p: Pair): nat { if p.value.Int? then 4 else AlignVal(ValueLen(p), Alignment(p.key)) }

  function KeyLength(ps: seq<Pair>): nat {
    if ps == [] then 0 else KeyLength(ps[..|ps| - 1]) + |ps[|ps| - 1].key| + 1
  }

  function ValueLength(ps: seq<Pair>): nat {
    if ps == [] then 0 else ValueLength(ps[..|ps| - 1]) + PaddedLen(ps[|ps| - 1])
  }

  function KeyStart(ps: seq<Pair>): nat { HEADER + ENTRY * |ps| }
  function ValueStart(ps: seq<Pair>): nat { AlignVal(KeyStart(ps) + KeyLength(ps), 4) }

  // ---- the bytes ----

  function Head(ps: seq<Pair>): (h: seq<Byte>)
    ensures |h| == HEADER
  {
    Le(4, MAGIC) + Le(4, 0x101) + Le(4, KeyStart(ps)) + Le(4, ValueStart(ps)) + Le(4, |ps|)
  }

  function Entry(ps: seq<Pair>, i: nat): (e: seq<Byte>)
    requires i < |ps|
    ensures |e| == ENTRY
  {
    Le(2, KeyLength(ps[..i]) % 0x1_0000) + [4, Type(ps[i])] + Le(4, ValueLen(ps[i])) + Le(4, PaddedLen(ps[i])) + Le(4, ValueLength(ps[..i]))
  }

  function Entries(ps: seq<Pair>, n: nat): (e: seq<Byte>)
    requires n <= |ps|
    ensures |e| == ENTRY * n
  {
    if n == 0 then [] else Entries(ps, n - 1) + Entry(ps, n - 1)
  }

  function Keys(ps: seq<Pair>): (s: seq<Byte>)
    ensures |s| == KeyLength(ps)
  {
    if ps == [] then [] else Keys(ps[..|ps| - 1]) + (ps[|ps| - 1].key + [0])
  }

  function ValueBytes(p: Pair): (s: seq<Byte>)
    ensures |s| == PaddedLen(p)
  {
    match p.value
    case Int(v) => Le(4, v)
    case Str(s) =>
      AlignUp(ValueLen(p), Alignment(p.key));
      s + [0] + Zeros(PaddedLen(p) - (|s| + 1))
  }

  function Values(ps: seq<Pair>): (s: seq<Byte>)
    ensures |s| == ValueLength(ps)
  {
    if ps == [] then [] else Values(ps[..|ps| - 1]) + ValueBytes(ps[|ps| - 1])
  }

  function KeyPad(ps: seq<Pair>): nat {
    AlignUp(KeyStart(ps) + KeyLength(ps), 4);
    ValueStart(ps) - (KeyStart(ps) + KeyLength(ps))
  }

  function Written(ps: seq<Pair>): seq<Byte> {
    Head(ps) + Entries(ps, |ps|) + Keys(ps) + Zeros(KeyPad(ps)) + Values(ps)
  }

  // ---- parsing ----

  datatype Kv = Kv(key: seq<Byte>, kind: Byte, intVal: nat, strVal: seq<Byte>,
                   keyOff: nat, unk1: Byte, valueLen: nat, paddedLen: nat, valueOff: nat)

  // Up to the terminator or the end, and no further than the array takes.
  function CString(data: seq<Byte>, at: nat, max: nat): seq<Byte>
    requires at <= |data| && max > 0
  {
    var n := Terminated(data[at..]);
    data[at..at + if n >= max then max - 1 else n]
  }

  function Terminated(s: seq<Byte>): (n: nat)
    ensures n <= |s| && Text(s[..n]) && (n < |s| ==> s[n] == 0)
  {
    if s == [] || s[0] == 0 then 0
    else
      var n := Terminated(s[1..]);
      assert s[..n + 1] == [s[0]] + s[1..][..n];
      n + 1
  }

  function NumLe(s: seq<Byte>, at: nat, n: nat): nat
    requires at + n <= |s|
  {
    RdLe(s[at..at + n])
  }

  // A place refused: the 32-bit sum is behind the end, or it wraps and the read would be.
  predicate Outside(data: seq<Byte>, at: nat) { at % WRAP32 >= |data| || at >= |data| }

  function ParsedAt(data: seq<Byte>, keys: nat, values: nat, i: nat): Option<Kv> {
    var at := HEADER + ENTRY * i;
    if at + ENTRY > |data| then None
    else
      var e := data[at..at + ENTRY];
      var keyOff, vlen, padded, valueOff := NumLe(e, 0, 2), NumLe(e, 4, 4), NumLe(e, 8, 4), NumLe(e, 12, 4);
      var k, v := keys + keyOff, values + valueOff;
      if Outside(data, k) then None
      else
        var kv := Kv(CString(data, k, MAX_KEY), e[3], 0, [], keyOff, e[2], vlen, padded, valueOff);
        if e[3] == STRING then
          if Outside(data, v) then None else Some(kv.(strVal := CString(data, v, MAX_STR)))
        else if e[3] == INT then
          if (v + 4) % WRAP32 > |data| || v + 4 > |data| then None else Some(kv.(intVal := NumLe(data, v, 4)))
        else Some(kv)
  }

  function ParsedUpTo(data: seq<Byte>, keys: nat, values: nat, n: nat): Option<seq<Kv>> {
    if n == 0 then Some([])
    else
      match ParsedUpTo(data, keys, values, n - 1)
      case None => None
      case Some(kvs) => match ParsedAt(data, keys, values, n - 1) case None => None case Some(kv) => Some(kvs + [kv])
  }

  function Parsed(data: seq<Byte>): Option<seq<Kv>> {
    if |data| < HEADER || NumLe(data, 0, 4) != MAGIC || NumLe(data, 4, 4) != 0x101 || NumLe(data, 16, 4) > MAX_PAIRS then None
    else ParsedUpTo(data, NumLe(data, 8, 4), NumLe(data, 12, 4), NumLe(data, 16, 4))
  }

  // ---- the layout holds ----

  lemma {:induction false} KeysShort(ps: seq<Pair>)
    requires PairsOk(ps)
    ensures KeyLength(ps) <= MAX_KEY * |ps|
  {
    if ps != [] { KeysShort(ps[..|ps| - 1]); }
  }

  lemma {:induction false} ValuesShort(ps: seq<Pair>)
    requires PairsOk(ps)
    ensures ValueLength(ps) <= (MAX_STR + 0x200) * |ps|
  {
    if ps != [] {
      ValuesShort(ps[..|ps| - 1]);
      var p := ps[|ps| - 1];
      if p.value.Str? { AlignUp(ValueLen(p), Alignment(p.key)); }
    }
  }

  lemma {:induction false} KeysGrow(ps: seq<Pair>, i: nat, j: nat)
    requires i < j <= |ps|
    ensures KeyLength(ps[..i]) + |ps[i].key| + 1 <= KeyLength(ps[..j])
    decreases j
  {
    assert ps[..j][..j - 1] == ps[..j - 1];
    if i < j - 1 { KeysGrow(ps, i, j - 1); }
  }

  lemma {:induction false} ValuesGrow(ps: seq<Pair>, i: nat, j: nat)
    requires i < j <= |ps|
    ensures ValueLength(ps[..i]) + PaddedLen(ps[i]) <= ValueLength(ps[..j])
    decreases j
  {
    assert ps[..j][..j - 1] == ps[..j - 1];
    if i < j - 1 { ValuesGrow(ps, i, j - 1); }
  }

  // No two keys or values overlap, the keys end before the values begin, every value has room
  // for itself, and no key offset wraps in its 16 bits.
  lemma RegionsApart(ps: seq<Pair>, i: nat, j: nat)
    requires PairsOk(ps) && i < j < |ps|
    ensures KeyLength(ps[..i]) + |ps[i].key| + 1 <= KeyLength(ps[..j])
    ensures ValueLength(ps[..i]) + PaddedLen(ps[i]) <= ValueLength(ps[..j])
    ensures KeyStart(ps) + KeyLength(ps[..j]) + |ps[j].key| + 1 <= ValueStart(ps)
    ensures ValueLen(ps[j]) <= PaddedLen(ps[j]) && KeyLength(ps[..j]) < 0x1_0000
  {
    KeysGrow(ps, i, j);
    ValuesGrow(ps, i, j);
    KeysGrow(ps, j, |ps|);
    assert ps[..|ps|] == ps;
    KeysShort(ps);
    AlignUp(KeyStart(ps) + KeyLength(ps), 4);
    if ps[j].value.Str? { AlignUp(ValueLen(ps[j]), Alignment(ps[j].key)); }
  }

  // ---- where the parts lie ----

  lemma {:induction false} EntryHeld(ps: seq<Pair>, n: nat, i: nat)
    requires i < n <= |ps|
    ensures Holds(Entries(ps, n), ENTRY * i, Entry(ps, i))
  {
    hide Entry, Holds;
    if i == n - 1 {
      HoldsMiddle(Entries(ps, n - 1), Entry(ps, i), []);
      assert Entries(ps, n - 1) + Entry(ps, i) + [] == Entries(ps, n);
    } else {
      EntryHeld(ps, n - 1, i);
      HoldsMore(Entries(ps, n - 1), Entry(ps, n - 1), ENTRY * i, Entry(ps, i));
    }
  }

  lemma {:induction false} KeyHeld(ps: seq<Pair>, i: nat)
    requires i < |ps|
    ensures Holds(Keys(ps), KeyLength(ps[..i]), ps[i].key + [0])
  {
    hide Holds;
    var n := |ps| - 1;
    if i == n {
      HoldsMiddle(Keys(ps[..n]), ps[n].key + [0], []);
      assert Keys(ps[..n]) + (ps[n].key + [0]) + [] == Keys(ps);
    } else {
      KeyHeld(ps[..n], i);
      assert ps[..n][..i] == ps[..i] && ps[..n][i] == ps[i];
      HoldsMore(Keys(ps[..n]), ps[n].key + [0], KeyLength(ps[..i]), ps[i].key + [0]);
    }
  }

  lemma {:induction false} ValueHeld(ps: seq<Pair>, i: nat)
    requires i < |ps|
    ensures Holds(Values(ps), ValueLength(ps[..i]), ValueBytes(ps[i]))
  {
    hide Holds, ValueBytes, PaddedLen;
    var n := |ps| - 1;
    if i == n {
      HoldsMiddle(Values(ps[..n]), ValueBytes(ps[n]), []);
      assert Values(ps[..n]) + ValueBytes(ps[n]) + [] == Values(ps);
    } else {
      ValueHeld(ps[..n], i);
      assert ps[..n][..i] == ps[..i] && ps[..n][i] == ps[i];
      HoldsMore(Values(ps[..n]), ValueBytes(ps[n]), ValueLength(ps[..i]), ValueBytes(ps[i]));
    }
  }

  lemma EntryPart(ps: seq<Pair>, i: nat)
    requires i < |ps|
    ensures Holds(Written(ps), HEADER + ENTRY * i, Entry(ps, i))
  {
    hide Head, Entries, Keys, Values, Entry, Holds, KeyPad;
    var rest := Keys(ps) + Zeros(KeyPad(ps)) + Values(ps);
    HoldsMiddle(Head(ps), Entries(ps, |ps|), rest);
    assert Head(ps) + Entries(ps, |ps|) + rest == Written(ps);
    EntryHeld(ps, |ps|, i);
    HoldsInner(Written(ps), HEADER, Entries(ps, |ps|), ENTRY * i, Entry(ps, i));
  }

  lemma KeyPart(ps: seq<Pair>, i: nat)
    requires i < |ps|
    ensures Holds(Written(ps), KeyStart(ps) + KeyLength(ps[..i]), ps[i].key + [0])
  {
    hide Head, Entries, Keys, Values, Holds, KeyPad;
    var front := Head(ps) + Entries(ps, |ps|);
    var rest := Zeros(KeyPad(ps)) + Values(ps);
    HoldsMiddle(front, Keys(ps), rest);
    assert front + Keys(ps) + rest == Written(ps);
    KeyHeld(ps, i);
    HoldsInner(Written(ps), KeyStart(ps), Keys(ps), KeyLength(ps[..i]), ps[i].key + [0]);
  }

  lemma ValuePart(ps: seq<Pair>, i: nat)
    requires i < |ps|
    ensures Holds(Written(ps), ValueStart(ps) + ValueLength(ps[..i]), ValueBytes(ps[i]))
  {
    hide Head, Entries, Keys, Values, Holds, ValueBytes;
    var front := Head(ps) + Entries(ps, |ps|) + Keys(ps) + Zeros(KeyPad(ps));
    HoldsMiddle(front, Values(ps), []);
    assert front + Values(ps) + [] == Written(ps);
    ValueHeld(ps, i);
    HoldsInner(Written(ps), ValueStart(ps), Values(ps), ValueLength(ps[..i]), ValueBytes(ps[i]));
  }

  // ---- the round trip ----

  lemma {:induction false} TerminatedAt(s: seq<Byte>, rest: seq<Byte>)
    requires Text(s)
    ensures Terminated(s + [0] + rest) == |s|
  {
    if s != [] {
      assert (s + [0] + rest)[1..] == s[1..] + [0] + rest;
      TerminatedAt(s[1..], rest);
    }
  }

  // A terminated string where it lies.
  lemma ReadBack(data: seq<Byte>, at: nat, s: seq<Byte>, max: nat)
    requires Holds(data, at, s + [0]) && Text(s) && |s| < max
    ensures at < |data| && CString(data, at, max) == s
  {
    var rest := data[at + |s| + 1..];
    assert data[at..] == data[at..at + |s + [0]|] + rest;
    assert data[at..] == s + [0] + rest;
    TerminatedAt(s, rest);
    assert data[at..at + |s|] == data[at..][..|s|] == s;
  }

  lemma EntryRead(ps: seq<Pair>, i: nat)
    requires PairsOk(ps) && i < |ps|
    ensures var e := Entry(ps, i);
            NumLe(e, 0, 2) == KeyLength(ps[..i]) && e[2] == 4 && e[3] == Type(ps[i]) && NumLe(e, 4, 4) == ValueLen(ps[i])
            && NumLe(e, 8, 4) == PaddedLen(ps[i]) && NumLe(e, 12, 4) == ValueLength(ps[..i])
  {
    Bounds(ps, i);
    FieldsRead(KeyLength(ps[..i]), Type(ps[i]), ValueLen(ps[i]), PaddedLen(ps[i]), ValueLength(ps[..i]), Entry(ps, i));
  }

  lemma Bounds(ps: seq<Pair>, i: nat)
    requires PairsOk(ps) && i < |ps|
    ensures KeyLength(ps[..i]) < 0x1_0000 && ValueLen(ps[i]) <= PaddedLen(ps[i]) && PaddedLen(ps[i]) < WRAP32
    ensures ValueStart(ps) + ValueLength(ps[..i]) + PaddedLen(ps[i]) <= ValueStart(ps) + ValueLength(ps) < WRAP32
    ensures KeyStart(ps) + KeyLength(ps[..i]) < ValueStart(ps)
  {
    hide AlignVal, Alignment, KeyLength, ValueLength, Text;
    KeysShort(ps);
    ValuesShort(ps);
    KeysGrow(ps, i, |ps|);
    ValuesGrow(ps, i, |ps|);
    assert ps[..|ps|] == ps;
    AlignUp(KeyStart(ps) + KeyLength(ps), 4);
    if ps[i].value.Str? { AlignUp(ValueLen(ps[i]), Alignment(ps[i].key)); }
  }

  lemma Five(p: seq<Byte>, q: seq<Byte>, r: seq<Byte>, s: seq<Byte>, t: seq<Byte>, d: seq<Byte>)
    requires |p| == 2 && |q| == 2 && |r| == 4 && |s| == 4 && |t| == 4 && d == p + q + r + s + t
    ensures |d| == ENTRY && d[0..2] == p && d[2] == q[0] && d[3] == q[1] && d[4..8] == r && d[8..12] == s && d[12..16] == t
  {
  }

  lemma FieldsRead(k: nat, kind: Byte, v: nat, p: nat, o: nat, d: seq<Byte>)
    requires k < 0x1_0000 && v < WRAP32 && p < WRAP32 && o < WRAP32
    requires d == Le(2, k % 0x1_0000) + [4, kind] + Le(4, v) + Le(4, p) + Le(4, o)
    ensures |d| == ENTRY && NumLe(d, 0, 2) == k && d[2] == 4 && d[3] == kind && NumLe(d, 4, 4) == v && NumLe(d, 8, 4) == p && NumLe(d, 12, 4) == o
  {
    hide Le, RdLe;
    Powers();
    Power2();
    RdLeOf(2, k);
    RdLeOf(4, v);
    RdLeOf(4, p);
    RdLeOf(4, o);
    Five(Le(2, k), [4, kind], Le(4, v), Le(4, p), Le(4, o), d);
  }

  // A pair with the places the writer gave it.
  function Read(ps: seq<Pair>, i: nat): Kv
    requires i < |ps|
  {
    Kv(ps[i].key, Type(ps[i]), if ps[i].value.Int? then ps[i].value.v else 0, if ps[i].value.Str? then ps[i].value.s else [],
       KeyLength(ps[..i]), 4, ValueLen(ps[i]), PaddedLen(ps[i]), ValueLength(ps[..i]))
  }

  lemma StringHeld(data: seq<Byte>, at: nat, p: Pair)
    requires Holds(data, at, ValueBytes(p)) && p.value.Str?
    ensures Holds(data, at, p.value.s + [0])
  {
    hide PaddedLen;
    var s := p.value.s + [0];
    assert ValueBytes(p)[..|s|] == s;
    HoldsInner(data, at, ValueBytes(p), 0, s);
  }

  lemma PairRead(ps: seq<Pair>, i: nat)
    requires PairsOk(ps) && i < |ps|
    ensures ParsedAt(Written(ps), KeyStart(ps), ValueStart(ps), i) == Some(Read(ps, i))
  {
    hide Written, Entry, NumLe, CString, KeyLength, ValueLength, KeyStart, ValueStart, ValueBytes, PaddedLen, Text, Le, RdLe;
    var data, p := Written(ps), ps[i];
    EntryPart(ps, i);
    EntryRead(ps, i);
    Bounds(ps, i);
    KeyPart(ps, i);
    ValuePart(ps, i);
    ReadBack(data, KeyStart(ps) + KeyLength(ps[..i]), p.key, MAX_KEY);
    var v := ValueStart(ps) + ValueLength(ps[..i]);
    if p.value.Str? {
      StringHeld(data, v, p);
      ReadBack(data, v, p.value.s, MAX_STR);
    } else {
      NumberRead(data, v, p);
    }
  }

  lemma NumberRead(data: seq<Byte>, at: nat, p: Pair)
    requires Holds(data, at, ValueBytes(p)) && p.value.Int? && p.value.v < WRAP32
    ensures at + 4 <= |data| && NumLe(data, at, 4) == p.value.v && PaddedLen(p) == 4
  {
    Powers();
    RdLeOf(4, p.value.v);
  }

  function AllRead(ps: seq<Pair>, n: nat): seq<Kv>
    requires n <= |ps|
  {
    seq(n, i requires 0 <= i < n => Read(ps, i))
  }

  lemma {:induction false} PairsRead(ps: seq<Pair>, n: nat)
    requires PairsOk(ps) && n <= |ps|
    ensures ParsedUpTo(Written(ps), KeyStart(ps), ValueStart(ps), n) == Some(AllRead(ps, n))
  {
    hide ParsedAt, Read, Written;
    if n > 0 {
      PairsRead(ps, n - 1);
      PairRead(ps, n - 1);
      assert AllRead(ps, n) == AllRead(ps, n - 1) + [Read(ps, n - 1)];
    } else {
      assert AllRead(ps, 0) == [];
    }
  }

  lemma HeadRead(ps: seq<Pair>)
    requires PairsOk(ps)
    ensures var h := Head(ps);
            NumLe(h, 0, 4) == MAGIC && NumLe(h, 4, 4) == 0x101 && NumLe(h, 8, 4) == KeyStart(ps) && NumLe(h, 12, 4) == ValueStart(ps)
            && NumLe(h, 16, 4) == |ps|
  {
    hide Le, RdLe, ValueStart, KeyLength;
    Powers();
    assert ValueStart(ps) < WRAP32 by { StartsSmall(ps); }
    RdLeOf(4, MAGIC);
    RdLeOf(4, 0x101);
    RdLeOf(4, KeyStart(ps));
    RdLeOf(4, ValueStart(ps));
    RdLeOf(4, |ps|);
    var h := Head(ps);
    assert h[0..4] == Le(4, MAGIC) && h[4..8] == Le(4, 0x101) && h[8..12] == Le(4, KeyStart(ps)) && h[12..16] == Le(4, ValueStart(ps));
    assert h[16..20] == Le(4, |ps|);
  }

  lemma StartsSmall(ps: seq<Pair>)
    requires PairsOk(ps)
    ensures ValueStart(ps) < WRAP32
  {
    KeysShort(ps);
    AlignUp(KeyStart(ps) + KeyLength(ps), 4);
  }

  // Parsing what was written gives every pair back: its key, its type, its value and its place.
  lemma RoundTrip(ps: seq<Pair>)
    requires PairsOk(ps)
    ensures Parsed(Written(ps)) == Some(AllRead(ps, |ps|))
  {
    hide Head, Entries, Keys, Values, KeyPad, AllRead, ParsedUpTo, KeyStart, ValueStart, RdLe;
    HeadRead(ps);
    PairsRead(ps, |ps|);
    var data, h := Written(ps), Head(ps);
    assert data[..HEADER] == h;
    assert data[0..4] == h[0..4] && data[4..8] == h[4..8] && data[8..12] == h[8..12] && data[12..16] == h[12..16] && data[16..20] == h[16..20];
  }
}
