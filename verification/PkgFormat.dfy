// Packages of any content: what each byte is enciphered with, and what unpacking and listing refuse and
// read.
module PkgFormat {
  import opened Collections
  import opened Bytes
  import BitMath
  import opened PkgCipher
  import opened PkgFile

  // Byte i is enciphered with byte i % 16 of the hash under the counter i / 16 on.
  lemma {:induction false} CryptByte(sha: Sha, key: seq<Byte>, num: nat, x: seq<Byte>, i: nat)
    requires Hashes(sha) && |key| == 16 && num < WRAP64 && i < |x|
    ensures Crypt(sha, key, num, x)[i] == Xor(sha(Context(key, (num + i / 16) % WRAP64))[i % 16], x[i])
    decreases i
  {
    hide Context, Xor;
    if i >= 16 {
      CryptByte(sha, key, (num + 1) % WRAP64, x[16..], i - 16);
      Later(num, i);
    } else {
      Here(num, i);
    }
  }

  lemma Here(num: nat, i: nat)
    requires num < WRAP64 && i < 16
    ensures (num + i / 16) % WRAP64 == num && i % 16 == i
  {
  }

  lemma Later(num: nat, i: nat)
    requires i >= 16
    ensures ((num + 1) % WRAP64 + (i - 16) / 16) % WRAP64 == (num + i / 16) % WRAP64 && (i - 16) % 16 == i % 16
    ensures BitMath.Wrap(num + 1) == (num + 1) % WRAP64
  {
    var q := i / 16;
    assert (i - 16) / 16 == q - 1;
    Carry(num + 1, q - 1);
  }

  lemma Carry(a: int, b: int)
    ensures (a % WRAP64 + b) % WRAP64 == (a + b) % WRAP64
  {
  }

  // ---- unpacking ----

  // The item at a descriptor: its name lies in the data; a file whose bytes do not is empty.
  predicate Describes(dec: seq<Byte>, at: nat, item: Item)
    requires at + 32 <= |dec|
  {
    var nameOff, nameLen, off, size := Num(dec, at, 4), Num(dec, at + 4, 4), Num(dec, at + 8, 8), Num(dec, at + 16, 8);
    && nameOff + nameLen <= |dec| && item.name == dec[nameOff..nameOff + nameLen]
    && item.flags == Num(dec, at + 24, 4)
    && if item.flags % 256 == 4 then item.content == None
       else item.content == Some(if off + size <= |dec| then dec[off..off + size] else [])
  }

  lemma ItemExactly(dec: seq<Byte>, i: nat, item: Item)
    ensures ItemAt(dec, i) == Some(item) <==> 32 * i + 32 <= |dec| && Describes(dec, 32 * i, item)
  {
    hide Rd;
    var at := 32 * i;
    if at + 32 <= |dec| {
      Fields(dec, at);
    }
  }

  lemma Fields(s: seq<Byte>, at: nat)
    requires at + 32 <= |s|
    ensures var d := s[at..at + 32];
      && d[0..4] == s[at..at + 4] && d[4..8] == s[at + 4..at + 8] && d[8..16] == s[at + 8..at + 16]
      && d[16..24] == s[at + 16..at + 24] && d[24..28] == s[at + 24..at + 28]
  {
    Inner(s, at, 0, 4);
    Inner(s, at, 4, 8);
    Inner(s, at, 8, 16);
    Inner(s, at, 16, 24);
    Inner(s, at, 24, 28);
  }

  lemma Inner<T>(s: seq<T>, at: nat, lo: nat, hi: nat)
    requires lo <= hi <= 32 && at + 32 <= |s|
    ensures s[at..at + 32][lo..hi] == s[at + lo..at + hi]
  {
    var inner, outer := s[at..at + 32][lo..hi], s[at + lo..at + hi];
    assert forall k :: 0 <= k < hi - lo ==> inner[k] == outer[k];
  }

  predicate AllDescribe(dec: seq<Byte>, items: seq<Item>)
    requires 32 * |items| <= |dec|
  {
    forall i {:trigger items[i]} :: 0 <= i < |items| ==> Describes(dec, 32 * i, items[i])
  }

  lemma {:induction false} ItemsExactly(dec: seq<Byte>, n: nat, items: seq<Item>)
    ensures ItemsUpTo(dec, n) == Some(items) <==> |items| == n && 32 * n <= |dec| && AllDescribe(dec, items)
  {
    hide ItemAt, Describes;
    if n > 0 {
      if |items| == n {
        var front, last := items[..n - 1], items[n - 1];
        assert items == front + [last];
        ItemsExactly(dec, n - 1, front);
        ItemExactly(dec, n - 1, last);
      }
      if ItemsUpTo(dec, n) == Some(items) {
        ItemsExactly(dec, n - 1, ItemsUpTo(dec, n - 1).value);
      }
    }
  }

  // The data area: from its offset on, as long as the header says or the file lasts.
  function Area(data: seq<Byte>): (a: seq<Byte>)
    requires |data| >= 0x80 && Num(data, 32, 8) <= |data|
    ensures var off, size := Num(data, 32, 8), Num(data, 40, 8);
      && (off + size <= |data| ==> a == data[off..off + size]) && (off + size >= |data| ==> a == data[off..])
  {
    var off, size := Num(data, 32, 8), Num(data, 40, 8);
    data[off..if off + size <= |data| then off + size else |data|]
  }

  // A package is unpacked if and only if it is of type 1, its data begin within the file, and its data
  // area, deciphered with its digest, describes every item.
  lemma UnpackedExactly(sha: Sha, data: seq<Byte>, items: seq<Item>)
    requires Hashes(sha) && items != []
    ensures |data| >= 0x80 ==> forall dir ::
      Unpacked(sha, data) == Extracted(dir, items) <==>
        && Num(data, 4, 4) == 1 && Num(data, 20, 4) == |items| && Num(data, 32, 8) <= |data| && dir == data[0x30..0x60]
        && 32 * |items| <= |Area(data)| && AllDescribe(Crypt(sha, data[0x60..0x70], 0, Area(data)), items)
    ensures |data| < 0x80 ==> Unpacked(sha, data) == Refused
    ensures Unpacked(sha, data) == Empty <==> |data| >= 0x80 && Num(data, 4, 4) == 1 && Num(data, 20, 4) == 0
  {
    hide AllDescribe, ItemsUpTo, Crypt, Rd;
    if |data| >= 0x80 && Num(data, 32, 8) <= |data| {
      ItemsExactly(Crypt(sha, data[0x60..0x70], 0, Area(data)), Num(data, 20, 4), items);
    }
  }

  // ---- listing ----

  // A line: the descriptor's size and flags, and the name under the counter the keystream has come to.
  predicate Lists(sha: Sha, key: seq<Byte>, enc: seq<Byte>, descs: seq<Byte>, at: nat, counter: nat, line: Line)
    requires Hashes(sha) && |key| == 16 && at + 32 <= |descs|
  {
    var nameOff, nameLen := Num(descs, at, 4), Num(descs, at + 4, 4);
    && nameOff + nameLen <= |enc| && line.name == Crypt(sha, key, counter, enc[nameOff..nameOff + nameLen])
    && line.size == Num(descs, at + 16, 8) && line.flags == Num(descs, at + 24, 4)
  }

  // The blocks used up before name i: two for every descriptor, and those of the names so far.
  function Used(descs: seq<Byte>, count: nat, i: nat): nat
    requires i <= count && 32 * count <= |descs|
  {
    if i == 0 then 2 * count else Used(descs, count, i - 1) + (Num(descs, 32 * (i - 1) + 4, 4) + 15) / 16
  }

  lemma {:induction false} CounterIs(descs: seq<Byte>, count: nat, i: nat)
    requires i <= count && 32 * count <= |descs|
    ensures ListCounter(HeadersRead(descs, count), i) == Used(descs, count, i) % WRAP64
  {
    hide Rd;
    if i == 0 {
      assert Blocks(32 * count) == 2 * count;
    } else {
      CounterIs(descs, count, i - 1);
      HeaderIs(descs, count, i - 1);
      Carry(Used(descs, count, i - 1), (Num(descs, 32 * (i - 1) + 4, 4) + 15) / 16);
    }
  }

  lemma HeaderIs(descs: seq<Byte>, count: nat, i: nat)
    requires i < count && 32 * count <= |descs|
    ensures var fh := HeadersRead(descs, count)[i];
      && fh.nameOff == Num(descs, 32 * i, 4) && fh.nameLen == Num(descs, 32 * i + 4, 4)
      && fh.size == Num(descs, 32 * i + 16, 8) && fh.flags == Num(descs, 32 * i + 24, 4)
  {
    hide Rd;
    var at := 32 * i;
    Fields(descs, at);
  }

  lemma LineExactly(sha: Sha, key: seq<Byte>, enc: seq<Byte>, descs: seq<Byte>, count: nat, i: nat, line: Line)
    requires Hashes(sha) && |key| == 16 && i < count && 32 * count <= |descs|
    ensures ListName(sha, key, enc, HeadersRead(descs, count), i) == Some(line)
            <==> Lists(sha, key, enc, descs, 32 * i, Used(descs, count, i) % WRAP64, line)
  {
    hide Rd, Crypt, HeadersRead, ListCounter, Used;
    CounterIs(descs, count, i);
    HeaderIs(descs, count, i);
  }

  predicate AllListed(sha: Sha, key: seq<Byte>, enc: seq<Byte>, descs: seq<Byte>, count: nat, lines: seq<Line>)
    requires Hashes(sha) && |key| == 16 && |lines| <= count && 32 * count <= |descs|
  {
    forall i {:trigger lines[i]} :: 0 <= i < |lines| ==> Lists(sha, key, enc, descs, 32 * i, Used(descs, count, i) % WRAP64, lines[i])
  }

  // The name of descriptor i lies behind the end of the data.
  predicate NameOutside(enc: seq<Byte>, descs: seq<Byte>, i: nat)
    requires 32 * i + 32 <= |descs|
  {
    Num(descs, 32 * i, 4) + Num(descs, 32 * i + 4, 4) > |enc|
  }

  // Every name up to the first that lies outside.
  lemma {:induction false} LinesExactly(sha: Sha, key: seq<Byte>, enc: seq<Byte>, descs: seq<Byte>, count: nat, n: nat, lines: seq<Line>,
                                        complete: bool)
    requires Hashes(sha) && |key| == 16 && n <= count && 32 * count <= |descs|
    ensures LinesUpTo(sha, key, enc, HeadersRead(descs, count), n) == Lines(lines, complete) <==>
      && |lines| <= n && AllListed(sha, key, enc, descs, count, lines)
      && (complete <==> |lines| == n) && (|lines| < n ==> NameOutside(enc, descs, |lines|))
  {
    hide ListName, Lists, Used, Rd;
    if n > 0 {
      var fhs := HeadersRead(descs, count);
      var front := LinesUpTo(sha, key, enc, fhs, n - 1);
      LinesExactly(sha, key, enc, descs, count, n - 1, front.lines, front.complete);
      NoLine(sha, key, enc, descs, count, n - 1);
      if |lines| == n {
        LinesExactly(sha, key, enc, descs, count, n - 1, lines[..n - 1], true);
        LineExactly(sha, key, enc, descs, count, n - 1, lines[n - 1]);
        assert lines == lines[..n - 1] + [lines[n - 1]];
      } else {
        LinesExactly(sha, key, enc, descs, count, n - 1, lines, complete);
        LinesExactly(sha, key, enc, descs, count, n - 1, lines, true);
      }
    }
  }

  lemma NoLine(sha: Sha, key: seq<Byte>, enc: seq<Byte>, descs: seq<Byte>, count: nat, i: nat)
    requires Hashes(sha) && |key| == 16 && i < count && 32 * count <= |descs|
    ensures ListName(sha, key, enc, HeadersRead(descs, count), i) == None <==> NameOutside(enc, descs, i)
  {
    hide Rd, Crypt, HeadersRead, ListCounter;
    HeaderIs(descs, count, i);
  }

  // A package is listed if and only if it is of type 1 and its descriptors lie in the file.
  lemma ListedExactly(sha: Sha, data: seq<Byte>, lines: seq<Line>, complete: bool)
    requires Hashes(sha)
    ensures Listed(sha, data) == NoList <==>
      |data| < 0x80 || Num(data, 4, 4) != 1 || (Num(data, 20, 4) > 0 && Num(data, 32, 8) + 32 * Num(data, 20, 4) > |data|)
    ensures |data| >= 0x80 && Num(data, 4, 4) == 1 && Num(data, 20, 4) > 0 && Num(data, 32, 8) + 32 * Num(data, 20, 4) <= |data| ==>
      var count, enc := Num(data, 20, 4), data[Num(data, 32, 8)..];
      var descs := Crypt(sha, data[0x60..0x70], 0, enc[..32 * count]);
      Listed(sha, data) == Lines(lines, complete) <==>
        && |lines| <= count && AllListed(sha, data[0x60..0x70], enc, descs, count, lines)
        && (complete <==> |lines| == count) && (|lines| < count ==> NameOutside(enc, descs, |lines|))
  {
    hide AllListed, LinesUpTo, HeadersRead, Crypt, Rd, NameOutside;
    if |data| >= 0x80 && Num(data, 32, 8) + 32 * Num(data, 20, 4) <= |data| {
      var count, enc := Num(data, 20, 4), data[Num(data, 32, 8)..];
      LinesExactly(sha, data[0x60..0x70], enc, Crypt(sha, data[0x60..0x70], 0, enc[..32 * count]), count, count, lines, complete);
    }
  }
}
