// SFO files byte by byte: what the parser refuses and reads of any file, and where the writer puts things.
module SfoFormat {
  import opened Collections
  import opened Bytes
  import opened SfoModel

  // A string ends at the first zero, at the end of the file or after as many bytes as fit.
  lemma CStringIs(data: seq<Byte>, at: nat, max: nat)
    requires at <= |data| && max > 0
    ensures var s := CString(data, at, max);
      && |s| < max && Text(s) && at + |s| <= |data| && s == data[at..at + |s|]
      && (|s| == max - 1 || at + |s| == |data| || data[at + |s|] == 0)
  {
    var n := Terminated(data[at..]);
    var s := CString(data, at, max);
    assert forall i :: 0 <= i < |s| ==> s[i] == data[at..][..n][i];
  }

  // The entry at its place; kind 2 is a string, kind 4 a number, any other has no value.
  predicate Reads(data: seq<Byte>, keys: nat, values: nat, at: nat, kv: Kv)
    requires at + 16 <= |data|
  {
    && kv.keyOff == NumLe(data, at, 2) && kv.unk1 == data[at + 2] && kv.kind == data[at + 3]
    && kv.valueLen == NumLe(data, at + 4, 4) && kv.paddedLen == NumLe(data, at + 8, 4) && kv.valueOff == NumLe(data, at + 12, 4)
    && keys + kv.keyOff < |data| && kv.key == CString(data, keys + kv.keyOff, 128)
    && (kv.kind == 2 ==> values + kv.valueOff < |data| && kv.strVal == CString(data, values + kv.valueOff, 2048))
    && (kv.kind == 4 ==> values + kv.valueOff + 4 <= |data| && kv.intVal == NumLe(data, values + kv.valueOff, 4))
    && (kv.kind != 2 ==> kv.strVal == []) && (kv.kind != 4 ==> kv.intVal == 0)
  }

  // Read so or refused: an entry is refused if and only if nothing can be read of it so.
  lemma ParsedExactly(data: seq<Byte>, keys: nat, values: nat, i: nat, kv: Kv)
    ensures ParsedAt(data, keys, values, i) == Some(kv) <==> 20 + 16 * i + 16 <= |data| && Reads(data, keys, values, 20 + 16 * i, kv)
  {
    hide RdLe, CString;
    var at := 20 + 16 * i;
    if at + 16 <= |data| {
      var e := data[at..at + 16];
      assert e[0..2] == data[at..at + 2] && e[4..8] == data[at + 4..at + 8] && e[8..12] == data[at + 8..at + 12]
             && e[12..16] == data[at + 12..at + 16];
      OutsideIs(data, keys + NumLe(e, 0, 2));
      OutsideIs(data, values + NumLe(e, 12, 4));
      BehindIs(data, values + NumLe(e, 12, 4) + 4);
    }
  }

  lemma OutsideIs(data: seq<Byte>, at: nat)
    ensures Outside(data, at) <==> at >= |data|
  {
  }

  lemma BehindIs(data: seq<Byte>, at: nat)
    ensures at % WRAP32 > |data| || at > |data| <==> at > |data|
  {
  }

  // Pair after pair.
  lemma {:induction false} AllParsed(data: seq<Byte>, keys: nat, values: nat, n: nat, kvs: seq<Kv>)
    ensures ParsedUpTo(data, keys, values, n) == Some(kvs)
            <==> |kvs| == n && forall i :: 0 <= i < n ==> ParsedAt(data, keys, values, i) == Some(kvs[i])
  {
    hide ParsedAt;
    if n > 0 {
      if |kvs| == n {
        AllParsed(data, keys, values, n - 1, kvs[..n - 1]);
        assert kvs == kvs[..n - 1] + [kvs[n - 1]];
      }
      if ParsedUpTo(data, keys, values, n) == Some(kvs) {
        var front := ParsedUpTo(data, keys, values, n - 1).value;
        AllParsed(data, keys, values, n - 1, front);
        assert kvs[..n - 1] == front;
      }
    }
  }

  lemma EntriesExactly(data: seq<Byte>, keys: nat, values: nat, kvs: seq<Kv>)
    requires |data| >= 20
    ensures ParsedUpTo(data, keys, values, |kvs|) == Some(kvs) <==> 20 + 16 * |kvs| <= |data| && AllReads(data, keys, values, kvs)
  {
    hide Reads, ParsedAt, ParsedUpTo;
    AllParsed(data, keys, values, |kvs|, kvs);
    forall i | 0 <= i < |kvs|
      ensures ParsedAt(data, keys, values, i) == Some(kvs[i])
              <==> 20 + 16 * i + 16 <= |data| && Reads(data, keys, values, 20 + 16 * i, kvs[i])
    {
      ParsedExactly(data, keys, values, i, kvs[i]);
    }
    if ParsedUpTo(data, keys, values, |kvs|) == Some(kvs) {
      var last := |kvs| - 1;
      assert |kvs| > 0 ==> ParsedAt(data, keys, values, last) == Some(kvs[last]);
    }
  }

  predicate AllReads(data: seq<Byte>, keys: nat, values: nat, kvs: seq<Kv>)
    requires 20 + 16 * |kvs| <= |data|
  {
    forall i {:trigger kvs[i]} :: 0 <= i < |kvs| ==> Reads(data, keys, values, 20 + 16 * i, kvs[i])
  }

  // A file is read if and only if it has the magic, the version, at most 256 pairs, and each can be read.
  lemma FileExactly(data: seq<Byte>, kvs: seq<Kv>)
    ensures Parsed(data) == Some(kvs) <==>
      && |data| >= 20 && data[..8] == [0, 0x50, 0x53, 0x46, 1, 1, 0, 0] && NumLe(data, 16, 4) == |kvs| && |kvs| <= 256
      && 20 + 16 * |kvs| <= |data| && AllReads(data, NumLe(data, 8, 4), NumLe(data, 12, 4), kvs)
  {
    hide AllReads, ParsedUpTo, RdLe;
    if |data| >= 20 {
      FourBytes(data);
      EntriesExactly(data, NumLe(data, 8, 4), NumLe(data, 12, 4), kvs);
      if Parsed(data) == Some(kvs) { AllParsed(data, NumLe(data, 8, 4), NumLe(data, 12, 4), NumLe(data, 16, 4), kvs); }
    }
  }

  lemma FourBytes(data: seq<Byte>)
    requires |data| >= 8
    ensures NumLe(data, 0, 4) == 0x46535000 && NumLe(data, 4, 4) == 0x101 <==> data[..8] == [0, 0x50, 0x53, 0x46, 1, 1, 0, 0]
  {
    var d := data;
    NumberIs(d, 0);
    NumberIs(d, 4);
    assert NumLe(data, 0, 4) == 0x46535000 <==> d[0] == 0 && d[1] == 0x50 && d[2] == 0x53 && d[3] == 0x46 by { Digits(d[0], d[1], d[2], d[3], 0, 0x50, 0x53, 0x46); }
    assert NumLe(data, 4, 4) == 0x101 <==> d[4] == 1 && d[5] == 1 && d[6] == 0 && d[7] == 0 by { Digits(d[4], d[5], d[6], d[7], 1, 1, 0, 0); }
    assert data[..8] == [d[0], d[1], d[2], d[3], d[4], d[5], d[6], d[7]];
  }

  lemma NumberIs(data: seq<Byte>, at: nat)
    requires at + 4 <= |data|
    ensures NumLe(data, at, 4) == Number(data[at], data[at + 1], data[at + 2], data[at + 3])
  {
    var s := data[at..at + 4];
    assert s[1..] == data[at + 1..at + 4] && s[1..][1..] == data[at + 2..at + 4] && s[1..][1..][1..] == [data[at + 3]];
    assert RdLe([data[at + 3]]) == data[at + 3] by { assert [data[at + 3]][1..] == []; }
    assert RdLe(s[1..]) == data[at + 1] + 256 * RdLe(s[1..][1..]);
  }

  function Number(a: Byte, b: Byte, c: Byte, d: Byte): nat { a + 256 * (b + 256 * (c + 256 * d)) }

  lemma Digits(a: Byte, b: Byte, c: Byte, d: Byte, x: Byte, y: Byte, z: Byte, w: Byte)
    ensures Number(a, b, c, d) == Number(x, y, z, w) <==> a == x && b == y && c == z && d == w
  {
    Digit(a, b + 256 * (c + 256 * d), x, y + 256 * (z + 256 * w));
    Digit(b, c + 256 * d, y, z + 256 * w);
    Digit(c, d, z, w);
  }

  lemma Digit(a: Byte, m: nat, x: Byte, n: nat)
    ensures a + 256 * m == x + 256 * n <==> a == x && m == n
  {
  }

  // ---- the writer ----

  // Values begin at the first multiple of 4 behind the keys; a string's room is the least multiple of its
  // key's alignment that holds it and its terminator.
  lemma RoomsAreLeast(ps: seq<Pair>, p: Pair)
    ensures ValueStart(ps) % 4 == 0 && KeyStart(ps) + KeyLength(ps) <= ValueStart(ps) < KeyStart(ps) + KeyLength(ps) + 4
    ensures p.value.Str? ==> PaddedLen(p) % Alignment(p.key) == 0 && |p.value.s| + 1 <= PaddedLen(p) < |p.value.s| + 1 + Alignment(p.key)
    ensures p.value.Int? ==> PaddedLen(p) == 4
  {
    Multiple(KeyStart(ps) + KeyLength(ps), 4);
    if p.value.Str? { Multiple(|p.value.s| + 1, Alignment(p.key)); }
  }

  // The file ends with the last value's room; whatever no key or value needs is zero.
  lemma FilledWithZeros(ps: seq<Pair>, p: Pair)
    ensures var data := Written(ps);
      && |data| == ValueStart(ps) + ValueLength(ps)
      && forall i :: KeyStart(ps) + KeyLength(ps) <= i < ValueStart(ps) ==> data[i] == 0
    ensures p.value.Str? ==> ValueBytes(p)[..|p.value.s|] == p.value.s && forall i :: |p.value.s| <= i < |ValueBytes(p)| ==> ValueBytes(p)[i] == 0
  {
    hide Head, Entries, Keys, Values, ValueStart, AlignVal;
    var front := Head(ps) + Entries(ps, |ps|) + Keys(ps);
    assert |front| == KeyStart(ps) + KeyLength(ps);
  }

  lemma Multiple(n: nat, a: nat)
    requires a in {4, 0x10, 0x80, 0x200}
    ensures AlignVal(n, a) % a == 0 && n <= AlignVal(n, a) < n + a
  {
    AlignUp(n, a);
  }
}
