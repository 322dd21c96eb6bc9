// sfo.c: the writer's two passes and the parser's loop.
module Sfo {
  import opened Collections
  import opened Bytes
  import opened SfoModel

  // The first pass fills the offset and length arrays.
  method Layout(ps: seq<Pair>) returns (keyOffs: array<nat>, valOffs: array<nat>, padLens: array<nat>, valLens: array<nat>,
                                        keyEnd: nat)
    requires PairsOk(ps)
    ensures fresh(keyOffs) && fresh(valOffs) && fresh(padLens) && fresh(valLens)
    ensures keyOffs.Length == valOffs.Length == padLens.Length == valLens.Length == |ps| && keyEnd == KeyLength(ps)
    ensures forall i :: 0 <= i < |ps| ==> keyOffs[i] == KeyLength(ps[..i]) && valOffs[i] == ValueLength(ps[..i])
    ensures forall i :: 0 <= i < |ps| ==> padLens[i] == PaddedLen(ps[i]) && valLens[i] == ValueLen(ps[i])
  {
    hide AlignVal, KeyLength, ValueLength, PaddedLen, ValueLen, PairsOk;
    keyOffs, valOffs := new nat[|ps|](_ => 0), new nat[|ps|](_ => 0);
    padLens, valLens := new nat[|ps|](_ => 0), new nat[|ps|](_ => 0);
    var keyOff, valueOff := 0, 0;
    var i := 0;
    LayoutStart(ps);
    while i < |ps|
      invariant 0 <= i <= |ps| && keyOff == KeyLength(ps[..i]) && valueOff == ValueLength(ps[..i])
      invariant forall k :: 0 <= k < i ==> keyOffs[k] == KeyLength(ps[..k]) && valOffs[k] == ValueLength(ps[..k])
      invariant forall k :: 0 <= k < i ==> padLens[k] == PaddedLen(ps[k]) && valLens[k] == ValueLen(ps[k])
    {
      LayoutNext(ps, i);
      keyOffs[i] := keyOff;
      keyOff := keyOff + |ps[i].key| + 1;
      valOffs[i] := valueOff;
      var pad, len := Measure(ps[i]);
      padLens[i], valLens[i] := pad, len;
      valueOff := valueOff + padLens[i];
      i := i + 1;
    }
    assert ps[..i] == ps;
    keyEnd := keyOff;
  }

  lemma LayoutStart(ps: seq<Pair>)
    ensures KeyLength(ps[..0]) == 0 && ValueLength(ps[..0]) == 0
  {
  }

  lemma LayoutNext(ps: seq<Pair>, i: nat)
    requires i < |ps|
    ensures KeyLength(ps[..i + 1]) == KeyLength(ps[..i]) + |ps[i].key| + 1
    ensures ValueLength(ps[..i + 1]) == ValueLength(ps[..i]) + PaddedLen(ps[i])
  {
    assert ps[..i + 1][..i] == ps[..i];
  }

  method Measure(p: Pair) returns (pad: nat, len: nat)
    ensures pad == PaddedLen(p) && len == ValueLen(p)
  {
    hide AlignVal;
    match p.value {
      case Int(_) =>
        pad, len := 4, 4;
      case Str(s) =>
        var alignment := 4;
        if p.key == TITLE {
          alignment := 0x80;
        } else if p.key == LICENSE {
          alignment := 0x200;
        } else if p.key == TITLE_ID {
          alignment := 0x10;
        }
        len := |s| + 1;
        pad := AlignVal(len, alignment);
    }
  }

  method Write(ps: seq<Pair>) returns (out: seq<Byte>)
    requires PairsOk(ps)
    ensures out == Written(ps)
  {
    hide AlignVal, Head, Entries, Keys, Values, KeyLength, ValueLength, Zeros, ValueLen, PaddedLen;
    var keyOffs, valOffs, padLens, valLens, keyEnd := Layout(ps);
    var keyStart := HEADER + ENTRY * |ps|;
    var valueStart := AlignVal(keyStart + keyEnd, 4);
    AlignUp(keyStart + keyEnd, 4);
    out := MakeHead(ps, keyStart, valueStart);
    out := WriteEntries(ps, out, keyOffs[..], valOffs[..], padLens[..], valLens[..]);
    out := WriteKeys(ps, out);
    out := out + Zeros(valueStart - (keyStart + keyEnd));
    out := WriteValues(ps, out);
  }

  method MakeHead(ps: seq<Pair>, keyStart: nat, valueStart: nat) returns (head: seq<Byte>)
    requires keyStart == KeyStart(ps) && valueStart == ValueStart(ps)
    ensures head == Head(ps)
  {
    hide Le;
    head := Le(4, MAGIC) + Le(4, 0x101) + Le(4, keyStart) + Le(4, valueStart) + Le(4, |ps|);
  }

  method WriteEntries(ps: seq<Pair>, front: seq<Byte>, keyOffs: seq<nat>, valOffs: seq<nat>, padLens: seq<nat>, valLens: seq<nat>)
    returns (out: seq<Byte>)
    requires |keyOffs| == |valOffs| == |padLens| == |valLens| == |ps|
    requires forall i :: 0 <= i < |ps| ==> keyOffs[i] == KeyLength(ps[..i]) && valOffs[i] == ValueLength(ps[..i])
    requires forall i :: 0 <= i < |ps| ==> padLens[i] == PaddedLen(ps[i]) && valLens[i] == ValueLen(ps[i])
    ensures out == front + Entries(ps, |ps|)
  {
    hide Le, KeyLength, ValueLength, PaddedLen, ValueLen;
    out := front;
    var i := 0;
    while i < |ps|
      invariant 0 <= i <= |ps| && out == front + Entries(ps, i)
    {
      var entry := Le(2, keyOffs[i] % 0x1_0000) + [4, Type(ps[i])] + Le(4, valLens[i]) + Le(4, padLens[i]) + Le(4, valOffs[i]);
      assert entry == Entry(ps, i);
      out := out + entry;
      i := i + 1;
    }
  }

  method WriteKeys(ps: seq<Pair>, front: seq<Byte>) returns (out: seq<Byte>)
    ensures out == front + Keys(ps)
  {
    out := front;
    var i := 0;
    assert ps[..0] == [];
    while i < |ps|
      invariant 0 <= i <= |ps| && out == front + Keys(ps[..i])
    {
      assert ps[..i + 1][..i] == ps[..i];
      out := out + ps[i].key;
      out := out + [0];
      i := i + 1;
    }
    assert ps[..i] == ps;
  }

  method WriteValues(ps: seq<Pair>, front: seq<Byte>) returns (out: seq<Byte>)
    ensures out == front + Values(ps)
  {
    hide ValueBytes, PaddedLen;
    out := front;
    var i := 0;
    assert ps[..0] == [];
    while i < |ps|
      invariant 0 <= i <= |ps| && out == front + Values(ps[..i])
    {
      assert ps[..i + 1][..i] == ps[..i];
      var bytes := WriteValue(ps[i]);
      out := out + bytes;
      i := i + 1;
    }
    assert ps[..i] == ps;
  }

  method WriteValue(p: Pair) returns (out: seq<Byte>)
    ensures out == ValueBytes(p)
  {
    hide AlignVal;
    match p.value {
      case Int(v) =>
        out := Le(4, v);
      case Str(s) =>
        AlignUp(ValueLen(p), Alignment(p.key));
        out := s + [0];
        var written := |s| + 1;
        while written < PaddedLen(p)
          invariant |s| + 1 <= written <= PaddedLen(p) && out == s + [0] + Zeros(written - (|s| + 1))
        {
          out := out + [0];
          written := written + 1;
          assert Zeros(written - (|s| + 1)) == Zeros(written - 1 - (|s| + 1)) + [0];
        }
    }
  }

  method ParseSfo(data: seq<Byte>) returns (r: Option<seq<Kv>>)
    ensures r == Parsed(data)
  {
    hide RdLe, ParsedAt;
    if |data| < HEADER { return None; }
    var keys, values, count := NumLe(data, 8, 4), NumLe(data, 12, 4), NumLe(data, 16, 4);
    if NumLe(data, 0, 4) != MAGIC { return None; }
    if NumLe(data, 4, 4) != 0x101 { return None; }
    if count > MAX_PAIRS { return None; }
    var kvs: seq<Kv> := [];
    var i := 0;
    while i < count
      invariant 0 <= i <= count && ParsedUpTo(data, keys, values, i) == Some(kvs)
    {
      var kv := ParsePair(data, keys, values, i);
      if kv.None? {
        NoneStays(data, keys, values, i + 1, count);
        return None;
      }
      kvs := kvs + [kv.value];
      i := i + 1;
    }
    r := Some(kvs);
  }

  lemma {:induction false} NoneStays(data: seq<Byte>, keys: nat, values: nat, i: nat, n: nat)
    requires i <= n && ParsedUpTo(data, keys, values, i) == None
    ensures ParsedUpTo(data, keys, values, n) == None
  {
    if i < n { NoneStays(data, keys, values, i, n - 1); }
  }

  // A string up to its terminator, the end of the file or the size of its array.
  method ReadString(data: seq<Byte>, at: nat, max: nat) returns (s: seq<Byte>)
    requires at < |data| && max > 0
    ensures s == CString(data, at, max)
  {
    var n := 0;
    while at + n < |data| && data[at + n] != 0
      invariant 0 <= n && at + n <= |data| && Text(data[at..at + n])
    {
      assert data[at..at + n + 1] == data[at..at + n] + [data[at + n]];
      n := n + 1;
    }
    assert data[at..][..n] == data[at..at + n];
    TerminatedIs(data[at..], n);
    if n >= max { n := max - 1; }
    s := data[at..at + n];
  }

  lemma {:induction false} TerminatedIs(s: seq<Byte>, n: nat)
    requires n <= |s| && Text(s[..n]) && (n < |s| ==> s[n] == 0)
    ensures Terminated(s) == n
  {
    if n > 0 {
      assert s[0] == s[..n][0];
      assert s[1..][..n - 1] == s[..n][1..];
      TerminatedIs(s[1..], n - 1);
    }
  }

  method ParsePair(data: seq<Byte>, keys: nat, values: nat, i: nat) returns (r: Option<Kv>)
    ensures r == ParsedAt(data, keys, values, i)
  {
    hide RdLe, CString;
    var at := HEADER + ENTRY * i;
    if at + ENTRY > |data| { return None; }
    var e := data[at..at + ENTRY];
    var keyOff, vlen, padded, valueOff := NumLe(e, 0, 2), NumLe(e, 4, 4), NumLe(e, 8, 4), NumLe(e, 12, 4);
    var k, v := keys + keyOff, values + valueOff;
    if Outside(data, k) { return None; }
    var key := ReadString(data, k, MAX_KEY);
    var kv := Kv(key, e[3], 0, [], keyOff, e[2], vlen, padded, valueOff);
    if e[3] == STRING {
      if Outside(data, v) { return None; }
      var s := ReadString(data, v, MAX_STR);
      return Some(kv.(strVal := s));
    }
    if e[3] == INT {
      if (v + 4) % WRAP32 > |data| || v + 4 > |data| { return None; }
      return Some(kv.(intVal := NumLe(data, v, 4)));
    }
    r := Some(kv);
  }
}
