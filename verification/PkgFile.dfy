// A whole package file, and what unpacking and listing read from it.
module PkgFile {
  import opened Collections
  import opened Bytes
  import BitMath
  import opened PkgCipher
  import opened PkgLayout

  const MAGIC: nat := 0x7F504B47
  const HEADER: nat := 0x80
  const DATA_OFF: nat := 0x140
  const LAST: nat := 0xFFFF_FFFF_FFFF_FFFF

  // The header up to the content id.
  function Fields(count: nat, size: nat): (h: seq<Byte>)
    ensures |h| == 0x30
  {
    Be(4, MAGIC) + Be(4, 1) + Be(4, 0xC0) + Be(4, 5) + Be(4, 0x80) + Be(4, count % WRAP32)
    + Be(8, size + 0x1A0) + Be(8, DATA_OFF) + Be(8, size)
  }

  function AllData(es: seq<Entry>): seq<Byte> {
    if es == [] then [] else AllData(es[..|es| - 1]) + if es[|es| - 1].dir then [] else es[|es| - 1].data
  }

  // What is digested: the files, the header without its content id, the descriptors and names.
  function QaInput(es: seq<Entry>): seq<Byte>
    requires EntriesOk(es)
  {
    QaFront(AllData(es), Fields(|es|, |Plain(es)|)) + (Descs(es, |es|) + Names(es))
  }

  function QaFront(data: seq<Byte>, fields: seq<Byte>): seq<Byte> {
    data + fields + Zeros(0x20) + Zeros(0x20) + Zeros(0x10)
  }

  function QaDigest(sha: Sha, es: seq<Entry>): (qa: seq<Byte>)
    requires Hashes(sha) && EntriesOk(es)
    ensures |qa| == 16
  {
    sha(QaInput(es))[..16]
  }

  function Header(sha: Sha, es: seq<Entry>, cid: seq<Byte>): (h: seq<Byte>)
    requires Hashes(sha) && EntriesOk(es)
    ensures |h| == HEADER
  {
    var qa := QaDigest(sha, es);
    Fields(|es|, |Plain(es)|) + ContentId(cid) + qa + Crypt(sha, qa, LAST, Zeros(0x10))
  }

  function MetaHeader(size: nat): (m: seq<Byte>)
    ensures |m| == 0x40
  {
    Be(4, 1) + Be(4, 4) + Be(4, 3) + Be(4, 2) + Be(4, 4) + Be(4, 5) + Be(4, 3) + Be(4, 4) + Be(4, 0x0e) + Be(4, 4) + Be(4, 8)
    + Be(2, 0) + Be(2, 0) + Be(4, size % WRAP32) + Be(4, 5) + Be(4, 4) + Be(2, 0x1061) + Be(2, 0)
  }

  // Between the header and the data: the checksums and their pads.
  function Middle(sha: Sha, header: seq<Byte>, size: nat): (m: seq<Byte>)
    requires Hashes(sha) && |header| == HEADER
    ensures |m| == DATA_OFF - HEADER
  {
    var meta := MetaHeader(size);
    var headerSha, metaSha := sha(header)[3..19], sha(meta)[3..19];
    var enc1 := Crypt(sha, metaSha, 0, Zeros(0x30));
    headerSha + Crypt(sha, headerSha, 0, enc1) + meta + metaSha + enc1
  }

  function Package(sha: Sha, es: seq<Entry>, cid: seq<Byte>): seq<Byte>
    requires Hashes(sha) && EntriesOk(es)
  {
    var header := Header(sha, es, cid);
    header + Middle(sha, header, |Plain(es)|) + Crypt(sha, QaDigest(sha, es), 0, Plain(es)) + Zeros(0x60)
  }

  // ---- reading ----

  // A descriptor as read.
  datatype FileHeader = FileHeader(nameOff: nat, nameLen: nat, off: nat, size: nat, flags: nat)

  function ReadDesc(d: seq<Byte>): FileHeader
    requires |d| == DESC
  {
    FileHeader(Num(d, 0, 4), Num(d, 4, 4), Num(d, 8, 8), Num(d, 16, 8), Num(d, 24, 4))
  }

  predicate IsDir(flags: nat) { flags % 256 == 4 }

  // An extracted path; a directory has no content.
  datatype Item = Item(name: seq<Byte>, flags: nat, content: Option<seq<Byte>>)

  function ItemAt(dec: seq<Byte>, i: nat): Option<Item> {
    if DESC * i + DESC > |dec| then None
    else
      var fh := ReadDesc(dec[DESC * i..DESC * i + DESC]);
      if fh.nameOff + fh.nameLen > |dec| then None
      else
        Some(Item(dec[fh.nameOff..fh.nameOff + fh.nameLen], fh.flags,
                  if IsDir(fh.flags) then None
                  else Some(if fh.off + fh.size <= |dec| then dec[fh.off..fh.off + fh.size] else [])))
  }

  function ItemsUpTo(dec: seq<Byte>, n: nat): Option<seq<Item>> {
    if n == 0 then Some([])
    else
      match ItemsUpTo(dec, n - 1)
      case None => None
      case Some(items) => match ItemAt(dec, n - 1) case None => None case Some(item) => Some(items + [item])
  }

  datatype Unpacking = Refused | Empty | Extracted(dir: seq<Byte>, items: seq<Item>)

  function Unpacked(sha: Sha, data: seq<Byte>): Unpacking
    requires Hashes(sha)
  {
    if |data| < HEADER || Num(data, 4, 4) != 1 then Refused
    else
      var count, off, size := Num(data, 20, 4), Num(data, 32, 8), Num(data, 40, 8);
      if count == 0 then Empty
      else if off > |data| then Refused
      else
        var length := if off + size > |data| then |data| - off else size;
        match ItemsUpTo(Crypt(sha, data[0x60..0x70], 0, data[off..off + length]), count)
        case None => Refused
        case Some(items) => Extracted(data[0x30..0x60], items)
  }

  // ---- the round trip ----

  // Offsets of names fit their field, and sizes theirs.
  ghost predicate InRange(es: seq<Entry>) {
    EntriesOk(es) && NameOff(es, |es|) < WRAP32 && |Plain(es)| + 0x1A0 < WRAP64
  }

  lemma {:induction false} NamesGrow(es: seq<Entry>, i: nat, j: nat)
    requires i <= j <= |es|
    ensures NamesLength(es[..i]) <= NamesLength(es[..j]) && (i < j ==> NamesLength(es[..i]) + |es[i].name| <= NamesLength(es[..j]))
    decreases j
  {
    if i < j {
      assert es[..j][..j - 1] == es[..j - 1];
      NamesGrow(es, i, j - 1);
    }
  }

  lemma {:induction false} FilesGrow(es: seq<Entry>, i: nat, j: nat)
    requires EntriesOk(es) && i < j <= |es|
    ensures |Files(es[..i])| + |Emitted(es[i])| <= |Files(es[..j])|
    decreases j
  {
    assert es[..j][..j - 1] == es[..j - 1];
    if i < j - 1 { FilesGrow(es, i, j - 1); }
  }

  // Entry i's descriptor says where its name and its data are.
  lemma DescRead(es: seq<Entry>, i: nat)
    requires InRange(es) && i < |es|
    ensures ReadDesc(Desc(es, i)) == FileHeader(NameOff(es, i), |es[i].name|, FileOff(es, i), Size(es[i]), Flags(es[i]))
  {
    hide Be, Rd;
    var d := Desc(es, i);
    Powers();
    assert NameOff(es, i) + |es[i].name| <= NameOff(es, |es|) by { NamesGrow(es, i, |es|); }
    assert FileOff(es, i) < WRAP64 && Size(es[i]) < WRAP64 by { SizesFit(es, i); }
    FieldsRead(NameOff(es, i), |es[i].name|, FileOff(es, i), Size(es[i]), Flags(es[i]), d);
  }

  lemma SizesFit(es: seq<Entry>, i: nat)
    requires InRange(es) && i < |es|
    ensures FileOff(es, i) < WRAP64 && Size(es[i]) < WRAP64
  {
    hide Descs, Names, Files, Emitted;
    PlanIsKept(es, i);
    FilesGrow(es, i, |es|);
    assert es[..|es|] == es;
    EmittedRoom(es[i]);
    if !es[i].dir { SizeHolds(es[i]); }
  }

  lemma Six(p: seq<Byte>, q: seq<Byte>, r: seq<Byte>, s: seq<Byte>, t: seq<Byte>, u: seq<Byte>, d: seq<Byte>)
    requires |p| == 4 && |q| == 4 && |r| == 8 && |s| == 8 && |t| == 4 && |u| == 4 && d == p + q + r + s + t + u
    ensures |d| == DESC && d[0..4] == p && d[4..8] == q && d[8..16] == r && d[16..24] == s && d[24..28] == t
  {
  }

  lemma FieldsRead(a: nat, b: nat, c: nat, e: nat, f: nat, d: seq<Byte>)
    requires a < WRAP32 && b < WRAP32 && c < WRAP64 && e < WRAP64 && f < WRAP32
    requires d == Be(4, a) + Be(4, b) + Be(8, c) + Be(8, e) + Be(4, f) + Be(4, 0)
    ensures |d| == DESC && ReadDesc(d) == FileHeader(a, b, c, e, f)
  {
    hide Be, Rd;
    Powers();
    RdBe(4, a);
    RdBe(4, b);
    RdBe(8, c);
    RdBe(8, e);
    RdBe(4, f);
    Six(Be(4, a), Be(4, b), Be(8, c), Be(8, e), Be(4, f), Be(4, 0), d);
  }

  // What entry i comes out as when its planned offset is where it was emitted.
  function Restored(e: Entry): Item
    requires EntryOk(e)
  {
    Item(e.name, Flags(e), if e.dir then None else if |Emitted(e)| >= Size(e) then Some(Emitted(e)[..Size(e)]) else None)
  }

  lemma Sliced(s: seq<Byte>, at: nat, part: seq<Byte>, n: nat)
    requires Holds(s, at, part) && n <= |part|
    ensures at + n <= |s| && s[at..at + n] == part[..n]
  {
    assert s[at..at + |part|][..n] == s[at..at + n];
  }

  lemma ItemRestored(es: seq<Entry>, i: nat)
    requires InRange(es) && i < |es| && forall k :: 0 <= k < i ==> PatchFits(es[k])
    ensures ItemAt(Plain(es), i) == Some(Restored(es[i]))
  {
    hide Plain, Emitted, Desc, ReadDesc, NameOff, FileOff, EmittedOff, Size, Flags, PatchFits;
    DescPart(es, i);
    NamePart(es, i);
    FilePart(es, i);
    PlanIsKept(es, i);
    DescRead(es, i);
    Sliced(Plain(es), DESC * i, Desc(es, i), DESC);
    Sliced(Plain(es), NameOff(es, i), es[i].name, |es[i].name|);
    if !es[i].dir {
      EmittedHolds(es[i]);
      Sliced(Plain(es), EmittedOff(es, i), Emitted(es[i]), Size(es[i]));
    }
    DirFlags(es[i]);
  }

  lemma EmittedHolds(e: Entry)
    requires EntryOk(e) && !e.dir
    ensures Size(e) <= |Emitted(e)|
  {
    EmittedRoom(e);
    SizeHolds(e);
  }

  lemma DirFlags(e: Entry)
    ensures IsDir(Flags(e)) <==> e.dir
  {
  }

  function AllRestored(es: seq<Entry>, n: nat): seq<Item>
    requires EntriesOk(es) && n <= |es|
  {
    seq(n, i requires 0 <= i < n => Restored(es[i]))
  }

  lemma {:induction false} ItemsRestored(es: seq<Entry>, n: nat)
    requires InRange(es) && n <= |es| && forall k :: 0 <= k < n - 1 ==> PatchFits(es[k])
    ensures ItemsUpTo(Plain(es), n) == Some(AllRestored(es, n))
  {
    hide ItemAt, Restored, Plain;
    if n > 0 {
      ItemsRestored(es, n - 1);
      ItemRestored(es, n - 1);
      assert AllRestored(es, n) == AllRestored(es, n - 1) + [Restored(es[n - 1])];
    }
  }

  lemma Cut(a: seq<Byte>, b: seq<Byte>, c: seq<Byte>, d: seq<Byte>)
    ensures (a + b + c + d)[|a| + |b|..|a| + |b| + |c|] == c
    ensures forall i, j :: 0 <= i <= j <= |a| ==> (a + b + c + d)[i..j] == a[i..j]
  {
  }

  lemma HeaderRead(sha: Sha, es: seq<Entry>, cid: seq<Byte>)
    requires Hashes(sha) && InRange(es)
    ensures var h := Header(sha, es, cid);
            Num(h, 4, 4) == 1 && Num(h, 20, 4) == |es| && Num(h, 32, 8) == DATA_OFF && Num(h, 40, 8) == |Plain(es)|
            && h[0x30..0x60] == ContentId(cid) && h[0x60..0x70] == QaDigest(sha, es)
  {
    hide Be, Rd, Plain, QaDigest, ContentId, Crypt;
    Powers();
    RdBe(4, 1);
    RdBe(4, |es|);
    RdBe(8, DATA_OFF);
    RdBe(8, |Plain(es)|);
    var h := Header(sha, es, cid);
    var f := Fields(|es|, |Plain(es)|);
    assert f[4..8] == Be(4, 1) && f[20..24] == Be(4, |es|) && f[32..40] == Be(8, DATA_OFF) && f[40..48] == Be(8, |Plain(es)|);
    assert h[4..8] == f[4..8] && h[20..24] == f[20..24] && h[32..40] == f[32..40] && h[40..48] == f[40..48];
  }

  // Unpacking a package yields every path, and every file's bytes as emitted, as long as the
  // plan is kept.
  lemma RoundTrip(sha: Sha, es: seq<Entry>, cid: seq<Byte>)
    requires Hashes(sha) && InRange(es) && es != [] && forall k :: 0 <= k < |es| - 1 ==> PatchFits(es[k])
    ensures Unpacked(sha, Package(sha, es, cid)) == Extracted(ContentId(cid), AllRestored(es, |es|))
  {
    hide Header, Middle, Crypt, Plain, QaDigest, ContentId, Restored, AllRestored;
    var p := Plain(es);
    var header := Header(sha, es, cid);
    var middle, enc := Middle(sha, header, |p|), Crypt(sha, QaDigest(sha, es), 0, p);
    var data := Package(sha, es, cid);
    assert data == header + middle + enc + Zeros(0x60);
    Cut(header, middle, enc, Zeros(0x60));
    HeaderRead(sha, es, cid);
    assert data[4..8] == header[4..8] && data[20..24] == header[20..24] && data[32..40] == header[32..40] && data[40..48] == header[40..48];
    assert data[0x30..0x60] == header[0x30..0x60] && data[0x60..0x70] == header[0x60..0x70];
    CryptTwice(sha, QaDigest(sha, es), 0, p);
    ItemsRestored(es, |es|);
    assert data[DATA_OFF..DATA_OFF + |p|] == enc;
  }

  // A file without NPDRM meta data comes back byte for byte; the renamed size of EBOOT.BIN
  // only adds zeros.
  lemma RawComesBack(e: Entry)
    requires EntryOk(e) && !e.dir && e.patch.NoPatch?
    ensures Restored(e) == Item(e.name, Flags(e), Some(e.data + Zeros(Size(e) - |e.data|)))
    ensures e.name != EBOOT ==> Restored(e).content == Some(e.data)
  {
    SizeHolds(e);
    EmittedRoom(e);
    assert Emitted(e)[..Size(e)] == e.data + Zeros(Size(e) - |e.data|);
    if e.name != EBOOT { assert e.data + Zeros(0) == e.data; }
  }

  // ---- listing ----

  // The keystream simply goes on: the descriptors, then name after name.
  function Blocks(n: nat): nat { (n + 15) / 16 }

  datatype Line = Line(name: seq<Byte>, size: nat, flags: nat)

  function ListCounter(fhs: seq<FileHeader>, i: nat): nat
    requires i <= |fhs|
  {
    if i == 0 then BitMath.Wrap(Blocks(DESC * |fhs|)) else BitMath.Wrap(ListCounter(fhs, i - 1) + Blocks(fhs[i - 1].nameLen))
  }

  function ListName(sha: Sha, key: seq<Byte>, enc: seq<Byte>, fhs: seq<FileHeader>, i: nat): Option<Line>
    requires Hashes(sha) && |key| == 16 && i < |fhs|
  {
    var fh := fhs[i];
    if fh.nameOff + fh.nameLen > |enc| then None
    else Some(Line(Crypt(sha, key, ListCounter(fhs, i), enc[fh.nameOff..fh.nameOff + fh.nameLen]), fh.size, fh.flags))
  }

  function Headers(es: seq<Entry>): (h: seq<FileHeader>)
    ensures |h| == |es|
  {
    seq(|es|, i requires 0 <= i < |es| => FileHeader(NameOff(es, i), |es[i].name|, FileOff(es, i), Size(es[i]), Flags(es[i])))
  }

  lemma NextName(es: seq<Entry>, i: nat)
    requires i < |es|
    ensures NameOff(es, i + 1) == NameOff(es, i) + 16 * Blocks(|es[i].name|)
  {
    assert es[..i + 1][..i] == es[..i];
  }

  lemma CounterNext(c: nat, b: nat)
    requires 16 * (c + b) < WRAP32
    ensures BitMath.Wrap(c + b) == c + b
  {
  }

  // The counter is always that of the next name's place.
  lemma {:induction false} InStep(es: seq<Entry>, i: nat)
    requires NameOff(es, |es|) < WRAP32 && i <= |es|
    ensures NameOff(es, i) == 16 * ListCounter(Headers(es), i)
  {
    hide NameOff, Blocks, BitMath.Wrap, FileOff, Size, Flags;
    FirstName(es);
    if i == 0 {
      WholeBlocks(|es|);
      CounterNext(2 * |es|, 0);
    } else {
      InStep(es, i - 1);
      NextName(es, i - 1);
      LaterName(es, i);
      CounterNext(ListCounter(Headers(es), i - 1), Blocks(|es[i - 1].name|));
    }
  }

  lemma LaterName(es: seq<Entry>, i: nat)
    requires i <= |es|
    ensures NameOff(es, i) <= NameOff(es, |es|)
  {
    NamesGrow(es, i, |es|);
  }

  lemma FirstName(es: seq<Entry>)
    ensures NameOff(es, 0) == DESC * |es| <= NameOff(es, |es|)
  {
  }

  lemma WholeBlocks(n: nat)
    ensures Blocks(DESC * n) == 2 * n
  {
    assert DESC * n + 15 == 16 * (2 * n) + 15;
  }

  // A part of the cipher text at a multiple of the block size, deciphered where it lies.
  lemma DecipheredInPlace(sha: Sha, key: seq<Byte>, plain: seq<Byte>, k: nat, part: seq<Byte>)
    requires Hashes(sha) && |key| == 16 && Holds(plain, 16 * k, part) && k < WRAP64
    ensures Crypt(sha, key, k, Crypt(sha, key, 0, plain)[16 * k..16 * k + |part|]) == part
  {
    hide Crypt;
    var a, b := plain[..16 * k], plain[16 * k..];
    assert plain == a + b;
    CryptSplit(sha, key, 0, k, a, b);
    var rest := b[|part|..];
    assert b == part + rest;
    CryptPrefix(sha, key, k, part, rest);
    var enc := Crypt(sha, key, 0, plain);
    assert enc[16 * k..] == Crypt(sha, key, k, b);
    assert enc[16 * k..16 * k + |part|] == Crypt(sha, key, k, b)[..|part|];
    CryptTwice(sha, key, k, part);
  }

  // Listing a package prints every name, with its size and flags.
  lemma ListsEveryName(sha: Sha, key: seq<Byte>, es: seq<Entry>, i: nat)
    requires Hashes(sha) && |key| == 16 && InRange(es) && i < |es|
    ensures ListName(sha, key, Crypt(sha, key, 0, Plain(es)), Headers(es), i) == Some(Line(es[i].name, Size(es[i]), Flags(es[i])))
  {
    hide Crypt, Plain, NameOff, FileOff, ListCounter;
    InStep(es, i);
    NamePart(es, i);
    LaterName(es, i);
    DecipheredInPlace(sha, key, Plain(es), ListCounter(Headers(es), i), es[i].name);
  }

  function HeadersRead(descs: seq<Byte>, count: nat): seq<FileHeader>
    requires DESC * count <= |descs|
  {
    seq(count, i requires 0 <= i < count => HeaderAt(descs, i))
  }

  function HeaderAt(descs: seq<Byte>, i: nat): FileHeader
    requires DESC * i + DESC <= |descs|
  {
    ReadDesc(descs[DESC * i..DESC * i + DESC])
  }

  datatype Listing = NoList | Lines(lines: seq<Line>, complete: bool)

  // The names up to n, or to the first that lies outside.
  function LinesUpTo(sha: Sha, key: seq<Byte>, enc: seq<Byte>, fhs: seq<FileHeader>, n: nat): (l: Listing)
    requires Hashes(sha) && |key| == 16 && n <= |fhs|
    ensures l.Lines?
  {
    if n == 0 then Lines([], true)
    else
      var front := LinesUpTo(sha, key, enc, fhs, n - 1);
      if !front.complete then front
      else match ListName(sha, key, enc, fhs, n - 1)
           case None => Lines(front.lines, false)
           case Some(line) => Lines(front.lines + [line], true)
  }

  function Listed(sha: Sha, data: seq<Byte>): Listing
    requires Hashes(sha)
  {
    if |data| < HEADER || Num(data, 4, 4) != 1 then NoList
    else
      var count, off := Num(data, 20, 4), Num(data, 32, 8);
      if count == 0 then Lines([], true)
      else if off + DESC * count > |data| then NoList
      else
        var key, enc := data[0x60..0x70], data[off..];
        LinesUpTo(sha, key, enc, HeadersRead(Crypt(sha, key, 0, enc[..DESC * count]), count), count)
  }

  function AllLines(es: seq<Entry>, n: nat): seq<Line>
    requires n <= |es|
  {
    seq(n, i requires 0 <= i < n => Line(es[i].name, Size(es[i]), Flags(es[i])))
  }

  lemma {:induction false} LinesOf(sha: Sha, key: seq<Byte>, es: seq<Entry>, tail: seq<Byte>, n: nat)
    requires Hashes(sha) && |key| == 16 && InRange(es) && n <= |es|
    ensures LinesUpTo(sha, key, Crypt(sha, key, 0, Plain(es)) + tail, Headers(es), n) == Lines(AllLines(es, n), true)
  {
    hide Crypt, Plain, Headers, ListName, ListCounter, NameOff;
    if n > 0 {
      LinesOf(sha, key, es, tail, n - 1);
      ListsEveryName(sha, key, es, n - 1);
      TailUnread(sha, key, Crypt(sha, key, 0, Plain(es)), tail, Headers(es), n - 1);
      assert AllLines(es, n) == AllLines(es, n - 1) + [Line(es[n - 1].name, Size(es[n - 1]), Flags(es[n - 1]))];
    }
  }

  lemma TailUnread(sha: Sha, key: seq<Byte>, enc: seq<Byte>, tail: seq<Byte>, fhs: seq<FileHeader>, i: nat)
    requires Hashes(sha) && |key| == 16 && i < |fhs| && ListName(sha, key, enc, fhs, i).Some?
    ensures ListName(sha, key, enc + tail, fhs, i) == ListName(sha, key, enc, fhs, i)
  {
    var fh := fhs[i];
    assert (enc + tail)[fh.nameOff..fh.nameOff + fh.nameLen] == enc[fh.nameOff..fh.nameOff + fh.nameLen];
  }

  lemma HeadersOf(es: seq<Entry>)
    requires InRange(es)
    ensures |Descs(es, |es|)| == DESC * |es| && HeadersRead(Descs(es, |es|), |es|) == Headers(es)
  {
    hide Descs, HeaderAt;
    forall i | 0 <= i < |es|
      ensures HeaderAt(Descs(es, |es|), i) == Headers(es)[i]
    {
      HeaderOf(es, i);
    }
  }

  lemma HeaderOf(es: seq<Entry>, i: nat)
    requires InRange(es) && i < |es|
    ensures HeaderAt(Descs(es, |es|), i) == Headers(es)[i]
  {
    hide Descs, Desc, ReadDesc, InRange;
    DescHeld(es, |es|, i);
    DescRead(es, i);
  }

  // Listing a package gives every path's name, size and flags.
  lemma ListRoundTrip(sha: Sha, es: seq<Entry>, cid: seq<Byte>)
    requires Hashes(sha) && InRange(es) && es != []
    ensures Listed(sha, Package(sha, es, cid)) == Lines(AllLines(es, |es|), true)
  {
    hide Header, Middle, Crypt, Plain, QaDigest, ContentId, AllLines, Headers, HeadersRead, Descs, LinesUpTo;
    var p := Plain(es);
    var header := Header(sha, es, cid);
    var key := QaDigest(sha, es);
    var middle, enc := Middle(sha, header, |p|), Crypt(sha, key, 0, p);
    var data := Package(sha, es, cid);
    assert data == header + middle + enc + Zeros(0x60);
    Cut(header, middle, enc, Zeros(0x60));
    HeaderRead(sha, es, cid);
    assert data[4..8] == header[4..8] && data[20..24] == header[20..24] && data[32..40] == header[32..40];
    assert data[0x60..0x70] == header[0x60..0x70];
    assert data[DATA_OFF..] == enc + Zeros(0x60);
    DescsFirst(es);
    var d := Descs(es, |es|);
    CryptPrefix(sha, key, 0, d, p[|d|..]);
    assert d + p[|d|..] == p;
    assert data[DATA_OFF..][..|d|] == enc[..|d|];
    CryptTwice(sha, key, 0, d);
    HeadersOf(es);
    LinesOf(sha, key, es, Zeros(0x60), |es|);
  }

  lemma DescsFirst(es: seq<Entry>)
    requires EntriesOk(es)
    ensures |Plain(es)| >= DESC * |es| == |Descs(es, |es|)| && Plain(es)[..DESC * |es|] == Descs(es, |es|)
  {
    hide Descs, Names, Files;
  }
}
