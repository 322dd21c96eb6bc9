// pkg.c: the cipher with its context, the packer's two passes, the unpacker and the lister.
module Pkg {
  import opened Collections
  import opened Bytes
  import BitMath
  import opened PkgCipher
  import opened PkgLayout
  import opened PkgFile

  lemma ContextParts(key: seq<Byte>, num: nat)
    requires |key| == 16
    ensures Context(key, num)[0x38..] == Be(8, num)
    ensures forall other :: Context(key, other) == Context(key, num)[..0x38] + Be(8, other)
  {
    hide Be;
    forall other
      ensures Context(key, other) == Context(key, num)[..0x38] + Be(8, other)
    {
      assert Context(key, num)[..0x38] == key[..8] + key[..8] + key[8..] + key[8..] + Zeros(24);
    }
  }

  method KeyToContext(key: seq<Byte>) returns (ctx: array<Byte>)
    requires |key| == 16
    ensures fresh(ctx) && ctx.Length == 64 && ctx[..] == Context(key, 0)
  {
    ZeroBytes();
    var bytes := key[..8] + key[..8] + key[8..] + key[8..] + Zeros(32);
    assert bytes == Context(key, 0);
    ctx := new Byte[64](i requires 0 <= i < 64 => bytes[i]);
    assert ctx[..] == bytes;
  }

  lemma ZeroBytes()
    ensures Be(8, 0) == Zeros(8)
  {
    ZeroBe(8);
  }

  lemma {:induction false} ZeroBe(n: nat)
    ensures Be(n, 0) == Zeros(n)
  {
    if n > 0 { ZeroBe(n - 1); }
  }

  // The byte at place i of an eight-byte number, as a shift and a narrowing pick it.
  function Picked(num: nat, i: nat): Byte
    requires i < 8
  {
    (num / Power256(7 - i)) % 256
  }

  lemma Quotient(v: nat, d: nat, q: nat, r: nat)
    requires v == q * d + r && r < d
    ensures v / d == q
  {
    var q', r' := v / d, v % d;
    assert v == q' * d + r';
    if q' < q { Apart(q', q, d); }
    if q < q' { Apart(q, q', d); }
  }

  lemma Apart(a: nat, b: nat, d: nat)
    requires a < b
    ensures a * d + d <= b * d
    decreases b - a
  {
    if b == a + 1 {
      assert b * d == a * d + d;
    } else {
      Apart(a, b - 1, d);
      assert b * d == (b - 1) * d + d;
    }
  }

  lemma DivDiv(v: nat, p: nat)
    requires p > 0
    ensures v / 256 / p == v / (256 * p)
  {
    var q, r := v / 256, v % 256;
    var t, u := q / p, q % p;
    assert q == t * p + u;
    assert v == t * (256 * p) + (256 * u + r);
    Quotient(v, 256 * p, t, 256 * u + r);
  }

  lemma {:induction false} BeAt(n: nat, v: nat, i: nat)
    requires i < n
    ensures Be(n, v)[i] == (v / Power256(n - 1 - i)) % 256
  {
    if i < n - 1 {
      BeAt(n - 1, v / 256, i);
      DivDiv(v, Power256(n - 2 - i));
    }
  }

  method SetContextNum(ctx: array<Byte>, num: nat, ghost key: seq<Byte>, ghost was: nat)
    requires ctx.Length == 64 && |key| == 16 && ctx[..] == Context(key, was)
    modifies ctx
    ensures ctx[..] == Context(key, num)
  {
    hide Be, Context, Power256;
    ContextParts(key, was);
    ghost var front := ctx[..0x38];
    var i := 0;
    while i < 8
      invariant 0 <= i <= 8 && ctx[..0x38] == front
      invariant forall j :: 0 <= j < i ==> ctx[0x38 + j] == Picked(num, j)
    {
      ctx[0x38 + i] := Picked(num, i);
      i := i + 1;
    }
    forall j | 0 <= j < 8
      ensures ctx[0x38..][j] == Be(8, num)[j]
    {
      BeAt(8, num, j);
      assert ctx[0x38..][j] == ctx[0x38 + j] == Picked(num, j);
    }
    assert ctx[0x38..] == Be(8, num);
    assert ctx[..] == front + Be(8, num);
  }

  method ManipulateContext(ctx: array<Byte>, ghost key: seq<Byte>, ghost num: nat)
    requires ctx.Length == 64 && |key| == 16 && ctx[..] == Context(key, num) && num < WRAP64
    modifies ctx
    ensures ctx[..] == Context(key, BitMath.Wrap(num + 1))
  {
    hide Be, Rd, Context;
    ContextParts(key, num);
    Powers();
    RdBe(8, num);
    assert ctx[0x38..0x40] == ctx[..][0x38..];
    var n := Rd(ctx[0x38..0x40]);
    SetContextNum(ctx, BitMath.Wrap(n + 1), key, num);
  }

  // The context's counter ends advanced by the number of blocks.
  method PkgCrypt(sha: Sha, ctx: array<Byte>, input: seq<Byte>, ghost key: seq<Byte>, ghost num: nat) returns (out: seq<Byte>)
    requires Hashes(sha) && ctx.Length == 64 && |key| == 16 && ctx[..] == Context(key, num) && num < WRAP64
    modifies ctx
    ensures out == Crypt(sha, key, num, input)
    ensures ctx[..] == Context(key, BitMath.Wrap(num + Blocks(|input|)))
  {
    hide BitMath.Wrap, Context, XorBlock, Crypt, Blocks;
    CryptNone(sha, key, num);
    NoBlocks();
    out := [];
    var offset, remaining := 0, |input|;
    ghost var now: nat := num;
    ghost var done: nat := 0;
    BitMath.WrapNone(num);
    while remaining > 0
      invariant 0 <= remaining && offset + remaining == |input| && |out| == offset
      invariant ctx[..] == Context(key, now) && now < WRAP64 && now == BitMath.Wrap(num + done)
      invariant done + Blocks(remaining) == Blocks(|input|)
      invariant out + Crypt(sha, key, now, input[offset..]) == Crypt(sha, key, num, input)
    {
      var block := if remaining > 0x10 then 0x10 else remaining;
      var hash := sha(ctx[..]);
      var part := input[offset..offset + block];
      assert input[offset..][block..] == input[offset + block..] && input[offset..][..block] == part;
      CryptStep(sha, key, now, input[offset..]);
      BlocksStep(remaining);
      out := out + XorBlock(part, hash);
      offset := offset + block;
      remaining := remaining - block;
      ManipulateContext(ctx, key, now);
      BitMath.WrapAdd(num + done, 1);
      now := BitMath.Wrap(now + 1);
      WrapLess(num + done + 1);
      done := done + 1;
    }
    assert input[offset..] == [];
    CryptNone(sha, key, now);
    assert out + [] == out;
  }

  lemma NoBlocks()
    ensures Blocks(0) == 0
  {
  }

  lemma BlocksStep(n: nat)
    requires n > 0
    ensures Blocks(n) == 1 + Blocks(n - if n > 16 then 16 else n)
  {
  }

  lemma WrapLess(n: nat)
    ensures BitMath.Wrap(n) < WRAP64
  {
  }

  // ---- pack ----

  // The first pass: names one after another, then files.
  method PlanNames(es: seq<Entry>) returns (nameOffs: seq<nat>, end: nat)
    ensures |nameOffs| == |es| && end == NameOff(es, |es|)
    ensures forall i :: 0 <= i < |es| ==> nameOffs[i] == NameOff(es, i) % WRAP32
  {
    hide Align16;
    nameOffs := [];
    end := DESC * |es|;
    var i := 0;
    assert es[..0] == [];
    while i < |es|
      invariant 0 <= i <= |es| && |nameOffs| == i && end == NameOff(es, i)
      invariant forall k :: 0 <= k < i ==> nameOffs[k] == NameOff(es, k) % WRAP32
    {
      nameOffs := nameOffs + [end % WRAP32];
      assert es[..i + 1][..i] == es[..i];
      end := end + Align16(|es[i].name|);
      i := i + 1;
    }
  }

  method PlanFiles(es: seq<Entry>, start: nat) returns (fileOffs: seq<nat>)
    requires start == NameOff(es, |es|)
    ensures |fileOffs| == |es| && forall i :: 0 <= i < |es| ==> fileOffs[i] == FileOff(es, i)
  {
    hide Align16, Size, NameOff;
    fileOffs := [];
    var cur := start;
    var i := 0;
    assert es[..0] == [];
    while i < |es|
      invariant 0 <= i <= |es| && |fileOffs| == i && cur == FileOff(es, i)
      invariant forall k :: 0 <= k < i ==> fileOffs[k] == FileOff(es, k)
    {
      fileOffs := fileOffs + [cur];
      assert es[..i + 1][..i] == es[..i];
      if !es[i].dir { cur := cur + Align16(Size(es[i])); }
      i := i + 1;
    }
  }

  // The second pass: descriptors and names, then what each file is emitted as.
  method EmitDescs(es: seq<Entry>, nameOffs: seq<nat>, fileOffs: seq<nat>) returns (buf: seq<Byte>)
    requires InRange(es) && |nameOffs| == |fileOffs| == |es|
    requires forall i :: 0 <= i < |es| ==> nameOffs[i] == NameOff(es, i) % WRAP32 && fileOffs[i] == FileOff(es, i)
    ensures buf == Descs(es, |es|)
  {
    hide Be, NameOff, FileOff, InRange;
    buf := [];
    var i := 0;
    while i < |es|
      invariant 0 <= i <= |es| && buf == Descs(es, i)
    {
      buf := buf + (Be(4, nameOffs[i]) + Be(4, |es[i].name|) + Be(8, fileOffs[i]) + Be(8, Size(es[i])) + Be(4, Flags(es[i])) + Be(4, 0));
      i := i + 1;
    }
  }

  method EmitNames(es: seq<Entry>, front: seq<Byte>) returns (buf: seq<Byte>)
    ensures buf == front + Names(es)
  {
    hide Names;
    buf := front;
    var i := 0;
    NoNames(es);
    while i < |es|
      invariant 0 <= i <= |es| && buf == front + Names(es[..i])
    {
      var name := es[i].name;
      var pad := Zeros(Align16(|name|) - |name|);
      NamesNext(es, i);
      Appended(front, Names(es[..i]), name, pad);
      buf := buf + name;
      buf := buf + pad;
      i := i + 1;
    }
    assert es[..i] == es;
  }

  lemma NoNames(es: seq<Entry>)
    ensures Names(es[..0]) == []
  {
  }

  lemma Appended(a: seq<Byte>, b: seq<Byte>, c: seq<Byte>, d: seq<Byte>)
    ensures a + b + c + d == a + (b + c + d)
  {
  }

  method EmitFiles(es: seq<Entry>, front: seq<Byte>) returns (buf: seq<Byte>)
    requires EntriesOk(es)
    ensures buf == front + Files(es)
  {
    hide Emitted;
    buf := front;
    var i := 0;
    assert es[..0] == [];
    while i < |es|
      invariant 0 <= i <= |es| && buf == front + Files(es[..i])
    {
      FilesNext(es, i);
      if !es[i].dir {
        var emitted := EmitFile(es[i]);
        buf := buf + emitted;
      }
      i := i + 1;
    }
    assert es[..i] == es;
  }

  lemma NamesNext(es: seq<Entry>, i: nat)
    requires i < |es|
    ensures Names(es[..i + 1]) == Names(es[..i]) + es[i].name + Zeros(Align16(|es[i].name|) - |es[i].name|)
  {
    assert es[..i + 1][..i] == es[..i];
  }

  lemma FilesNext(es: seq<Entry>, i: nat)
    requires EntriesOk(es) && i < |es|
    ensures Files(es[..i + 1]) == Files(es[..i]) + Emitted(es[i]) && (es[i].dir ==> Emitted(es[i]) == [])
  {
    assert es[..i + 1][..i] == es[..i];
  }

  method EmitFile(e: Entry) returns (buf: seq<Byte>)
    requires EntryOk(e) && !e.dir
    ensures buf == Emitted(e)
  {
    match e.patch {
      case MetaAt(off, meta) =>
        buf := e.data[..off];
        buf := buf + meta;
        if off + 0x80 <= |e.data| { buf := buf + e.data[off + 0x80..]; }
      case NoPatch =>
        buf := e.data;
    }
    assert buf == Body(e);
    var aligned := Align16(Size(e));
    if |e.data| < aligned { buf := buf + Zeros(aligned - |e.data|); } else { assert buf + Zeros(0) == buf; }
  }

  method Pack(sha: Sha, es: seq<Entry>, cid: seq<Byte>) returns (out: seq<Byte>)
    requires Hashes(sha) && InRange(es)
    ensures out == Package(sha, es, cid)
    ensures |out| == |Plain(es)| + 0x1A0      // the packageSize of its header
  {
    hide Descs, Names, Files, MetaHeader, Crypt, Context, ContentId, InRange, Header, Middle, QaDigest, Be;
    assert EntriesOk(es) by { RangeOk(es); }
    var nameOffs, end := PlanNames(es);
    var fileOffs := PlanFiles(es, end);
    var descs := EmitDescs(es, nameOffs, fileOffs);
    var front := EmitNames(es, descs);
    var buf := EmitFiles(es, front);
    assert buf == Plain(es);
    var fields := Fields(|es|, |buf|);
    var qa := QaOf(sha, es, fields, front);
    var header := MakeHeader(sha, es, cid, fields, qa);
    var middle := MakeMiddle(sha, header, |buf|);
    var ctx := KeyToContext(qa);
    var enc := PkgCrypt(sha, ctx, buf, qa, 0);
    out := header + middle + enc + Zeros(0x60);
  }

  lemma RangeOk(es: seq<Entry>)
    requires InRange(es)
    ensures EntriesOk(es)
  {
  }

  method QaOf(sha: Sha, es: seq<Entry>, fields: seq<Byte>, front: seq<Byte>) returns (qa: seq<Byte>)
    requires Hashes(sha) && EntriesOk(es) && fields == Fields(|es|, |Plain(es)|) && front == Descs(es, |es|) + Names(es)
    ensures qa == QaDigest(sha, es)
  {
    hide Descs, Names, Files, Fields, Plain, QaFront;
    var all := [];
    var i := 0;
    assert es[..0] == [];
    while i < |es|
      invariant 0 <= i <= |es| && all == AllData(es[..i])
    {
      assert es[..i + 1][..i] == es[..i];
      if !es[i].dir { all := all + es[i].data; }
      i := i + 1;
    }
    assert es[..i] == es;
    qa := sha(QaFront(all, fields) + front)[..16];
  }

  method MakeHeader(sha: Sha, es: seq<Entry>, cid: seq<Byte>, fields: seq<Byte>, qa: seq<Byte>) returns (header: seq<Byte>)
    requires Hashes(sha) && EntriesOk(es) && fields == Fields(|es|, |Plain(es)|) && qa == QaDigest(sha, es)
    ensures header == Header(sha, es, cid)
  {
    hide Descs, Names, Files, Fields, Plain, Crypt, QaDigest, ContentId, Context;
    var ctx := KeyToContext(qa);
    SetContextNum(ctx, LAST, qa, 0);
    var licensee := PkgCrypt(sha, ctx, Zeros(0x10), qa, LAST);
    header := fields + ContentId(cid) + qa + licensee;
  }

  method MakeMiddle(sha: Sha, header: seq<Byte>, size: nat) returns (middle: seq<Byte>)
    requires Hashes(sha) && |header| == HEADER
    ensures middle == Middle(sha, header, size)
  {
    hide MetaHeader, Crypt, Context;
    var meta := MetaHeader(size);
    var headerSha, metaSha := sha(header)[3..19], sha(meta)[3..19];
    var ctx := KeyToContext(metaSha);
    var enc1 := PkgCrypt(sha, ctx, Zeros(0x30), metaSha, 0);
    ctx := KeyToContext(headerSha);
    var enc2 := PkgCrypt(sha, ctx, enc1, headerSha, 0);
    middle := headerSha + enc2 + meta + metaSha + enc1;
  }

  // ---- unpack and list ----

  method UnpackPkg(sha: Sha, data: seq<Byte>) returns (r: Unpacking)
    requires Hashes(sha)
    ensures r == Unpacked(sha, data)
  {
    hide Crypt, Context, ItemAt, BitMath.Wrap, Rd;
    if |data| < HEADER { return Refused; }
    if Num(data, 4, 4) != 1 { return Refused; }
    var count, off, size := Num(data, 20, 4), Num(data, 32, 8), Num(data, 40, 8);
    if count == 0 { return Empty; }
    if off > |data| { return Refused; }
    var length := if off + size > |data| then |data| - off else size;
    var key := data[0x60..0x70];
    var ctx := KeyToContext(key);
    var dec := PkgCrypt(sha, ctx, data[off..off + length], key, 0);
    var items: seq<Item> := [];
    var i := 0;
    while i < count
      invariant 0 <= i <= count && ItemsUpTo(dec, i) == Some(items)
    {
      var item := ItemAt(dec, i);
      if item.None? {
        NoneStays(dec, i + 1, count);
        return Refused;
      }
      items := items + [item.value];
      i := i + 1;
    }
    r := Extracted(data[0x30..0x60], items);
  }

  lemma {:induction false} NoneStays(dec: seq<Byte>, i: nat, n: nat)
    requires i <= n && ItemsUpTo(dec, i) == None
    ensures ItemsUpTo(dec, n) == None
  {
    if i < n { NoneStays(dec, i, n - 1); }
  }

  method ListPkg(sha: Sha, data: seq<Byte>) returns (l: Listing)
    requires Hashes(sha)
    ensures l == Listed(sha, data)
  {
    hide Crypt, Context, ReadDesc, Rd, BitMath.Wrap, HeaderAt, ListName;
    if |data| < HEADER { return NoList; }
    if Num(data, 4, 4) != 1 { return NoList; }
    var count, off := Num(data, 20, 4), Num(data, 32, 8);
    if count == 0 { return Lines([], true); }
    if off + DESC * count > |data| { return NoList; }
    var key, enc := data[0x60..0x70], data[off..];
    var ctx := KeyToContext(key);
    var descs := PkgCrypt(sha, ctx, enc[..DESC * count], key, 0);
    ghost var fhs := HeadersRead(descs, count);
    var lines: seq<Line> := [];
    var i := 0;
    while i < count
      invariant 0 <= i <= count && LinesUpTo(sha, key, enc, fhs, i) == Lines(lines, true) && ctx.Length == 64 && fresh(ctx)
      invariant ctx[..] == Context(key, ListCounter(fhs, i))
    {
      var fh := HeaderAt(descs, i);
      assert fh == fhs[i];
      if fh.nameOff + fh.nameLen > |enc| {
        NoName(sha, key, enc, fhs, i);
        StopsThere(sha, key, enc, fhs, i + 1, count);
        return Lines(lines, false);
      }
      CounterLess(fhs, i);
      var name := PkgCrypt(sha, ctx, enc[fh.nameOff..fh.nameOff + fh.nameLen], key, ListCounter(fhs, i));
      IsName(sha, key, enc, fhs, i);
      lines := lines + [Line(name, fh.size, fh.flags)];
      i := i + 1;
    }
    l := Lines(lines, true);
  }

  lemma CounterLess(fhs: seq<FileHeader>, i: nat)
    requires i <= |fhs|
    ensures ListCounter(fhs, i) < WRAP64
  {
  }

  lemma NoName(sha: Sha, key: seq<Byte>, enc: seq<Byte>, fhs: seq<FileHeader>, i: nat)
    requires Hashes(sha) && |key| == 16 && i < |fhs| && fhs[i].nameOff + fhs[i].nameLen > |enc|
    ensures ListName(sha, key, enc, fhs, i) == None
  {
  }

  lemma IsName(sha: Sha, key: seq<Byte>, enc: seq<Byte>, fhs: seq<FileHeader>, i: nat)
    requires Hashes(sha) && |key| == 16 && i < |fhs| && fhs[i].nameOff + fhs[i].nameLen <= |enc|
    ensures ListName(sha, key, enc, fhs, i)
            == Some(Line(Crypt(sha, key, ListCounter(fhs, i), enc[fhs[i].nameOff..fhs[i].nameOff + fhs[i].nameLen]), fhs[i].size, fhs[i].flags))
  {
  }

  lemma {:induction false} StopsThere(sha: Sha, key: seq<Byte>, enc: seq<Byte>, fhs: seq<FileHeader>, i: nat, n: nat)
    requires Hashes(sha) && |key| == 16 && i <= n <= |fhs| && !LinesUpTo(sha, key, enc, fhs, i).complete
    ensures LinesUpTo(sha, key, enc, fhs, n) == LinesUpTo(sha, key, enc, fhs, i)
  {
    if i < n { StopsThere(sha, key, enc, fhs, i, n - 1); }
  }
}
