// Published answers and worked examples: what the formats and generators give for known input; sizes and limits.
module KnownAnswers {
  import B = Bytes
  import C = PkgCipher
  import L = PkgLayout
  import P = PkgFile
  import F = PkgSelf
  import M = BitMath
  import S = SfoModel
  import T = TwisterModel
  import A = ThreadModel
  import D = PathModel
  import E = Timeouts
  import G = WorkingDir
  import H = HeapModel
  import opened Sha1Model

  // ---- sizes, limits and error numbers ----

  lemma Sizes()
    ensures T.N == 624 && T.M == 397 && A.CHUNK == 32 && A.KEYS == 32 && A.NULL == 0 && D.PATH_MAX == 1024
    ensures E.MAX64 == 9223372036854775807 && E.MIN64 == -9223372036854775808 && E.MAX32 == 4294967295
    ensures E.EINTR == 4 && E.EFAULT == G.EFAULT == 14 && E.EINVAL == G.EINVAL == 22 && G.ERANGE == 34 && G.ENAMETOOLONG == 91
  {
  }

  // ---- the heap's words ----

  // A block: prev_size, size, and where a free one keeps its links.
  lemma HeaderWords(b: int)
    ensures H.PrevSizeAt(b) == b && H.SizeAt(b) == b + 8 && H.NextAt(b) == b + 16 && H.PrevAt(b) == b + 24
  {
  }

  // A client has everything behind the header, the next block's prev_size among it.
  lemma ClientWords(s: seq<H.Blk>, i: nat, a: int)
    requires i < |s| && s[i].used && s[i].at + 16 <= a <= s[i].at + s[i].size
    ensures H.ClientWord(s, a)
  {
  }

  // ---- packages ----

  // The fields in front of the content id.
  lemma HeaderFields(count: nat, size: nat)
    requires count < B.WRAP32 && size + 0x1A0 < B.WRAP64
    ensures var h := P.Fields(count, size);
      && B.Num(h, 0, 4) == 0x7F504B47 && B.Num(h, 4, 4) == 1 && B.Num(h, 8, 4) == 0xC0 && B.Num(h, 12, 4) == 5
      && B.Num(h, 16, 4) == 0x80 && B.Num(h, 20, 4) == count
      && B.Num(h, 24, 8) == size + 0x1A0 && B.Num(h, 32, 8) == 0x140 && B.Num(h, 40, 8) == size
  {
    hide B.Be, B.Rd;
    B.Powers();
    B.RdBe(4, 0x7F504B47);
    B.RdBe(4, 1);
    B.RdBe(4, 0xC0);
    B.RdBe(4, 5);
    B.RdBe(4, 0x80);
    B.RdBe(4, count);
    B.RdBe(8, size + 0x1A0);
    B.RdBe(8, 0x140);
    B.RdBe(8, size);
    var h := P.Fields(count, size);
    assert h[0..4] == B.Be(4, 0x7F504B47) && h[4..8] == B.Be(4, 1) && h[8..12] == B.Be(4, 0xC0) && h[12..16] == B.Be(4, 5);
    assert h[16..20] == B.Be(4, 0x80) && h[20..24] == B.Be(4, count);
    assert h[24..32] == B.Be(8, size + 0x1A0) && h[32..40] == B.Be(8, 0x140) && h[40..48] == B.Be(8, size);
  }

  // The sizes a header gives are the package's own.
  lemma HeaderSizes(sha: C.Sha, es: seq<L.Entry>, cid: seq<B.Byte>)
    requires C.Hashes(sha) && P.InRange(es)
    ensures var pkg := P.Package(sha, es, cid);
      |pkg| == 0x140 + |L.Plain(es)| + 0x60 && B.Num(pkg, 0, 4) == 0x7F504B47 && B.Num(pkg, 24, 8) == |pkg|
  {
    hide L.Plain, P.Fields, P.Middle, P.QaDigest, L.ContentId, C.Crypt, B.Rd;
    HeaderFields(|es|, |L.Plain(es)|);
    EntriesFew(es);
    var f, pkg := P.Fields(|es|, |L.Plain(es)|), P.Package(sha, es, cid);
    assert pkg[0..4] == f[0..4] && pkg[24..32] == f[24..32];
  }

  lemma EntriesFew(es: seq<L.Entry>)
    requires P.InRange(es)
    ensures |es| < B.WRAP32
  {
  }

  // Between the checksums.
  lemma MetaFields(size: nat)
    requires size < B.WRAP32
    ensures var h := P.MetaHeader(size);
      && (forall i :: 0 <= i < 11 ==> B.Num(h, 4 * i, 4) == [1, 4, 3, 2, 4, 5, 3, 4, 14, 4, 8][i])
      && B.Num(h, 44, 4) == 0 && B.Num(h, 48, 4) == size && B.Num(h, 52, 4) == 5 && B.Num(h, 56, 4) == 4
      && B.Num(h, 60, 4) == 0x10610000
  {
    hide B.Be, B.Rd;
    B.Powers();
    var h := P.MetaHeader(size);
    var xs := [1, 4, 3, 2, 4, 5, 3, 4, 14, 4, 8];
    forall i | 0 <= i < 11
      ensures B.Num(h, 4 * i, 4) == xs[i]
    {
      MetaPart(size, i);
      B.RdBe(4, xs[i]);
    }
    B.RdBe(4, size);
    B.RdBe(4, 5);
    B.RdBe(4, 4);
    assert h[48..52] == B.Be(4, size) && h[52..56] == B.Be(4, 5) && h[56..60] == B.Be(4, 4);
    assert h[44..48] == B.Be(2, 0) + B.Be(2, 0) && h[60..64] == B.Be(2, 0x1061) + B.Be(2, 0);
    Pairs();
  }

  lemma MetaPart(size: nat, i: nat)
    requires i < 11
    ensures P.MetaHeader(size)[4 * i..4 * i + 4] == B.Be(4, [1, 4, 3, 2, 4, 5, 3, 4, 14, 4, 8][i])
  {
    hide B.Be;
  }

  lemma Pairs()
    ensures B.Rd(B.Be(2, 0) + B.Be(2, 0)) == 0 && B.Rd(B.Be(2, 0x1061) + B.Be(2, 0)) == 0x10610000
  {
    Two(0);
    Two(0x1061);
  }

  lemma Two(v: nat)
    requires v < 0x10000
    ensures B.Rd(B.Be(2, v) + B.Be(2, 0)) == v * 0x10000
  {
    var x, y := v / 256, v % 256;
    assert B.Be(2, v) == [x, y] && B.Be(2, 0) == [0, 0];
    assert B.Be(2, v) + B.Be(2, 0) == [x, y, 0, 0];
    Four(x, y, 0, 0);
  }

  lemma Four(a: B.Byte, b: B.Byte, c: B.Byte, d: B.Byte)
    ensures B.Rd([a, b, c, d]) == ((a * 256 + b) * 256 + c) * 256 + d
  {
    assert [a, b, c, d][..3] == [a, b, c] && [a, b, c][..2] == [a, b] && [a, b][..1] == [a] && [a][..0] == [];
    assert B.Rd([a]) == a && B.Rd([a, b]) == a * 256 + b && B.Rd([a, b, c]) == (a * 256 + b) * 256 + c;
  }

  // The checksums: the header's with a pad under it, the meta data's with its own, each pad a
  // text of zeros or the other pad under the digest's key.
  lemma MiddleParts(sha: C.Sha, header: seq<B.Byte>, size: nat)
    requires C.Hashes(sha) && |header| == 0x80
    ensures var m := P.Middle(sha, header, size);
      && m[..0x10] == sha(header)[3..19] && m[0x40..0x80] == P.MetaHeader(size) && m[0x80..0x90] == sha(P.MetaHeader(size))[3..19]
      && C.Crypt(sha, m[..0x10], 0, m[0x10..0x40]) == m[0x90..0xc0] && C.Crypt(sha, m[0x80..0x90], 0, m[0x90..0xc0]) == B.Zeros(0x30)
  {
    hide C.Crypt, P.MetaHeader;
    var m, meta := P.Middle(sha, header, size), P.MetaHeader(size);
    var headerSha, metaSha := sha(header)[3..19], sha(meta)[3..19];
    var enc1 := C.Crypt(sha, metaSha, 0, B.Zeros(0x30));
    C.CryptTwice(sha, metaSha, 0, B.Zeros(0x30));
    C.CryptTwice(sha, headerSha, 0, enc1);
    assert m[0x10..0x40] == C.Crypt(sha, headerSha, 0, enc1) && m[0x90..0xc0] == enc1;
  }

  // The header ends with the digest and zeros under the digest's key and the last counter.
  lemma HeaderParts(sha: C.Sha, es: seq<L.Entry>, cid: seq<B.Byte>)
    requires C.Hashes(sha) && L.EntriesOk(es)
    ensures var h := P.Header(sha, es, cid);
      && h[..0x30] == P.Fields(|es|, |L.Plain(es)|) && h[0x30..0x60] == L.ContentId(cid)
      && h[0x60..0x70] == sha(P.QaInput(es))[..16]
      && C.Crypt(sha, h[0x60..0x70], 0xFFFF_FFFF_FFFF_FFFF, h[0x70..0x80]) == B.Zeros(0x10)
  {
    hide C.Crypt, P.Fields, L.ContentId, P.QaInput, L.Plain;
    var h, qa := P.Header(sha, es, cid), P.QaDigest(sha, es);
    C.CryptTwice(sha, qa, P.LAST, B.Zeros(0x10));
    assert h[0x60..0x70] == qa && h[0x70..0x80] == C.Crypt(sha, qa, P.LAST, B.Zeros(0x10));
  }

  // What is digested besides the files and the tables: the header's fields, the rest of it zero.
  lemma DigestedHeader(data: seq<B.Byte>, fields: seq<B.Byte>)
    requires |fields| == 0x30
    ensures var q := P.QaFront(data, fields);
      |q| == |data| + 0x80 && q[..|data|] == data && q[|data|..|data| + 0x30] == fields && forall i :: |data| + 0x30 <= i < |q| ==> q[i] == 0
  {
  }

  // ---- names and magic ----

  predicate Spells(s: seq<B.Byte>, text: string) { |s| == |text| && forall i :: 0 <= i < |text| ==> s[i] == text[i] as int }

  lemma NamesSpelt()
    ensures Spells(L.EBOOT, "USRDIR/EBOOT.BIN") && Spells(S.TITLE, "TITLE") && Spells(S.LICENSE, "LICENSE") && Spells(S.TITLE_ID, "TITLE_ID")
    ensures Spells(F.SELF_MAGIC[..3], "SCE") && F.SELF_MAGIC[3..] == [0, 0, 0, 0, 2, 0x80]
  {
  }

  lemma EntryTypes(e: L.Entry)
    ensures L.Flags(e) == if e.dir then 0x80000004 else if e.name == L.EBOOT then 0x80000001 else 0x80000003
  {
  }

  // A SELF is known by its first bytes as soon as its header is whole, and its type by the
  // application header, which may end the file.
  lemma SelfKnown(data: seq<B.Byte>)
    ensures F.IsSelf(data) <==> |data| >= 104 && data[..9] == F.SELF_MAGIC
    ensures |data| >= 104 ==> var at := B.Num(data, 40, 8);
      F.AppType(data) == if at + 24 <= |data| then B.Num(data, at + 12, 4) else 0
  {
  }

  // "NPD", 1, 3, 1 and the content id; then the digest, its complement, and the complement with
  // the bits of 0xaa turned over, the last one's lowest too.
  lemma NpdHead(cid: seq<B.Byte>)
    ensures var m := F.MetaHead(cid);
      && B.Num(m, 0, 4) == 0x4E504400 && B.Num(m, 4, 4) == 1 && B.Num(m, 8, 4) == 3 && B.Num(m, 12, 4) == 1 && m[16..] == L.ContentId(cid)
  {
    hide B.Be, B.Rd, L.ContentId;
    B.Powers();
    B.RdBe(4, 0x4E504400);
    B.RdBe(4, 1);
    B.RdBe(4, 3);
    var m := F.MetaHead(cid);
    assert m[0..4] == B.Be(4, 0x4E504400) && m[4..8] == B.Be(4, 1) && m[8..12] == B.Be(4, 3) && m[12..16] == B.Be(4, 1);
  }

  lemma NpdDigests(d: seq<B.Byte>, i: nat)
    requires |d| == 16 && i < 16
    ensures var m := F.MetaDigests(d);
      m[i] == d[i] && m[i] + m[16 + i] == 255 && C.Xor(m[32 + i], 0xaa) == if i == 15 then C.Xor(1, m[31]) else m[16 + i]
  {
    hide C.Xor;
    var c: B.Byte := 255 - d[i];
    C.XorTwice(C.Xor(if i == 15 then 1 else 0, c), 0xaa);
    XorNothing(c);
  }

  lemma XorNothing(x: B.Byte)
    ensures C.Xor(0, x) == x
  {
    C.XorTwice(x, 0);
    XorZero(x, 8);
    C.Pow8();
    C.XorCommutes(0, x, 8);
  }

  lemma {:induction false} XorZero(x: nat, n: nat)
    requires x < M.Pow2(n)
    ensures C.XorBits(x, 0, n) == x
  {
    if n > 0 { XorZero(x / 2, n - 1); }
  }

  // The cipher's block: each half of the key twice, zeros, and the counter.
  lemma CipherBlock(key: seq<B.Byte>, num: nat)
    requires |key| == 16 && num < B.WRAP64
    ensures var c := C.Context(key, num);
      && c[0..8] == key[0..8] && c[8..16] == key[0..8] && c[16..24] == key[8..16] && c[24..32] == key[8..16]
      && (forall i :: 32 <= i < 56 ==> c[i] == 0) && B.Num(c, 56, 8) == num
  {
    hide B.Be, B.Rd;
    B.Powers();
    B.RdBe(8, num);
    var c := C.Context(key, num);
    assert c[56..64] == B.Be(8, num) && key[8..16] == key[8..];
  }

  // ---- SFO files ----

  lemma SfoHead(ps: seq<S.Pair>)
    requires S.ValueStart(ps) < B.WRAP32 && |ps| < B.WRAP32
    ensures var h := S.Head(ps);
      h[..4] == [0, 0x50, 0x53, 0x46] && h[4..8] == [1, 1, 0, 0]
  {
    assert S.Le(4, 0x46535000) == [0, 0x50, 0x53, 0x46] by { LeFour(0, 0x50, 0x53, 0x46); }
    assert S.Le(4, 0x101) == [1, 1, 0, 0] by { LeFour(1, 1, 0, 0); }
  }

  // Least significant byte first.
  lemma LeFour(a: B.Byte, b: B.Byte, c: B.Byte, d: B.Byte)
    ensures S.Le(4, a + 256 * (b + 256 * (c + 256 * d))) == [a, b, c, d]
  {
    hide S.Le;
    LeFirst(4, a, b + 256 * (c + 256 * d));
    LeFirst(3, b, c + 256 * d);
    LeFirst(2, c, d);
    LeFirst(1, d, 0);
  }

  lemma LeFirst(n: nat, low: B.Byte, rest: nat)
    requires n > 0
    ensures S.Le(n, low + 256 * rest) == [low] + S.Le(n - 1, rest) && (n == 1 ==> S.Le(0, rest) == [])
  {
    assert (low + 256 * rest) % 256 == low && (low + 256 * rest) / 256 == rest;
  }

  // What strings are padded to.
  lemma SfoAlignments()
    ensures S.Alignment([84, 73, 84, 76, 69]) == 128 && S.Alignment([76, 73, 67, 69, 78, 83, 69]) == 512
    ensures S.Alignment([84, 73, 84, 76, 69, 95, 73, 68]) == 16 && S.Alignment([65, 80, 80, 95, 86, 69, 82]) == 4
  {
  }

  // ---- SHA-1 ----

  // The constants are the first 32 bits of the square roots of 2, 3, 5 and 10, one for each twenty
  // rounds, ...
  lemma ConstantsAreRoots(t: nat)
    requires t < 80
    ensures var c := if t < 20 then 2 else if t < 40 then 3 else if t < 60 then 5 else 10;
      var k := K(t) as nat;
      k * k <= c * 0x1000_0000_0000_0000 < (k + 1) * (k + 1)
  {
  }

  // ... the initial value counts nibbles up and down.
  lemma InitialCounts()
    ensures HashBytes(INITIAL) == [0x67, 0x45, 0x23, 0x01, 0xEF, 0xCD, 0xAB, 0x89, 0x98, 0xBA, 0xDC, 0xFE, 0x10, 0x32, 0x54, 0x76,
                                   0xC3, 0xD2, 0xE1, 0xF0]
  {
  }

  // "abc", a one, zeros, and its 24 bits counted in the last byte.
  lemma PaddedAbc()
    ensures var p := Padded([0x61, 0x62, 0x63]);
      |p| == 64 && p[..4] == [0x61, 0x62, 0x63, 0x80] && (forall i :: 4 <= i < 63 ==> p[i] == 0) && p[63] == 24
  {
    hide LengthByte;
    forall i | 0 <= i < 8
      ensures LengthByte(24, i) == if i == 7 then 24 else 0
    {
      LengthOf(i);
    }
    assert ZeroCount(3) == 52;
  }

  lemma LengthOf(i: nat)
    requires i < 8
    ensures LengthByte(24, i) == if i == 7 then 24 else 0
  {
    hide B.Power256;
    PowerIs(7 - i);
    if i < 7 { NoneLeft(24, B.Power256(7 - i)); }
  }

  lemma PowerIs(n: nat)
    ensures if n == 0 then B.Power256(n) == 1 else B.Power256(n) >= 256
  {
  }

  lemma NoneLeft(x: nat, d: nat)
    requires x < d
    ensures x / d == 0
  {
  }

  // Its schedule, as far as every tap has met the length or the text.
  lemma ScheduledAbc(block: seq<Byte>)
    requires |block| == 64 && block[..4] == [0x61, 0x62, 0x63, 0x80] && (forall i :: 4 <= i < 63 ==> block[i] == 0) && block[63] == 24
    ensures W(block, 16) == 0xC2C4C700 && W(block, 18) == 0x00000030 && W(block, 23) == 0x00000030 && W(block, 29) == 0x000000F0
  {
    hide Scheduled;
    FirstWords(block);
    Rotations();
    assert W(block, 16) == 0xC2C4C700;
    assert W(block, 17) == 0x0;
    assert W(block, 18) == 0x30;
    assert W(block, 20) == 0x0;
    assert W(block, 21) == 0x60;
    assert W(block, 23) == 0x30;
    assert W(block, 26) == 0x0;
    assert W(block, 29) == 0xF0;
  }

  lemma Rotations()
    ensures Scheduled(0, 0, 0, 0) == 0 && Scheduled(0x30, 0x30, 0, 0) == 0
    ensures Scheduled(0x0, 0x0, 0x0, 0x61626380) == 0xC2C4C700
    ensures Scheduled(0x18, 0x0, 0x0, 0x0) == 0x30
    ensures Scheduled(0x30, 0x0, 0x0, 0x0) == 0x60
    ensures Scheduled(0x0, 0x18, 0x0, 0x0) == 0x30
    ensures Scheduled(0x0, 0x60, 0x18, 0x0) == 0xF0
  {
  }

  lemma FirstWords(block: seq<Byte>)
    requires |block| == 64 && block[..4] == [0x61, 0x62, 0x63, 0x80] && (forall i :: 4 <= i < 63 ==> block[i] == 0) && block[63] == 24
    ensures W(block, 0) == 0x61626380 && W(block, 15) == 0x18 && forall t :: 1 <= t < 15 ==> W(block, t) == 0
  {
    assert block[0] == 0x61 && block[1] == 0x62 && block[2] == 0x63 && block[3] == 0x80;
  }

  // Eighty rounds over the schedule, added to what was there.
  predicate Schedules(words: seq<Word>, block: seq<Byte>)
    requires |block| == 64
  {
    && |words| == 80
    && (forall t {:trigger words[t]} :: 0 <= t < 16 ==> words[t] == BigEndian(block[4 * t], block[4 * t + 1], block[4 * t + 2], block[4 * t + 3]))
    && forall t {:trigger words[t]} :: 16 <= t < 80 ==> words[t] == Mixed(words[t - 3], words[t - 8], words[t - 14], words[t - 16])
  }

  function Mixed(w3: Word, w8: Word, w14: Word, w16: Word): Word { RotL(w3 ^ w8 ^ w14 ^ w16, 1) }

  lemma MixedIs(w3: Word, w8: Word, w14: Word, w16: Word)
    ensures Scheduled(w3, w8, w14, w16) == Mixed(w3, w8, w14, w16)
  {
    hide RotL;
  }

  predicate GoesBy(states: seq<Hash>, words: seq<Word>) {
    |words| == 80 && |states| == 81 && forall t {:trigger words[t]} :: 0 <= t < 80 ==> states[t + 1] == Round(states[t], t, words[t])
  }

  lemma CompressedIs(block: seq<Byte>, words: seq<Word>, states: seq<Hash>)
    requires |block| == 64 && Schedules(words, block) && GoesBy(states, words)
    ensures Compressed(states[0], block) == Plus(states[0], states[80])
  {
    StateIs(block, words, states, 80);
  }

  lemma {:induction false} WordIs(block: seq<Byte>, words: seq<Word>, t: nat)
    requires |block| == 64 && Schedules(words, block) && t < 80
    ensures W(block, t) == words[t]
  {
    hide Mixed, Scheduled, BigEndian;
    if t >= 16 {
      MixedIs(words[t - 3], words[t - 8], words[t - 14], words[t - 16]);
      WordIs(block, words, t - 3);
      WordIs(block, words, t - 8);
      WordIs(block, words, t - 14);
      WordIs(block, words, t - 16);
    }
  }

  lemma {:induction false} StateIs(block: seq<Byte>, words: seq<Word>, states: seq<Hash>, n: nat)
    requires |block| == 64 && Schedules(words, block) && GoesBy(states, words) && n <= 80
    ensures Rounds(states[0], block, n) == states[n]
  {
    hide Round, Schedules, W;
    if n > 0 {
      StateIs(block, words, states, n - 1);
      WordIs(block, words, n - 1);
    }
  }

  // The last addition of "abc", and its digest.
  lemma LastSum()
    ensures Plus(INITIAL, Hash(0x42541B35, 0x5738D5E1, 0x21834873, 0x681E6DF6, 0xD8FDF6AD))
         == Hash(0xA9993E36, 0x4706816A, 0xBA3E2571, 0x7850C26C, 0x9CD0D89D)
  {
  }

  // Rounds of "abc" at the ends of the four stages.
  lemma Round0()
    ensures Round(Hash(0x67452301, 0xEFCDAB89, 0x98BADCFE, 0x10325476, 0xC3D2E1F0), 0, 0x61626380) == Hash(0x0116FC33, 0x67452301, 0x7BF36AE2, 0x98BADCFE, 0x10325476)
  {
  }

  lemma Round19()
    ensures Round(Hash(0xDC64901D, 0x82AA6728, 0xD3A49608, 0xC82F758B, 0xC65AFB9D), 19, 0x85898E01) == Hash(0xFD9E1D7D, 0xDC64901D, 0x20AA99CA, 0xD3A49608, 0xC82F758B)
  {
  }

  lemma Round20()
    ensures Round(Hash(0xFD9E1D7D, 0xDC64901D, 0x20AA99CA, 0xD3A49608, 0xC82F758B), 20, 0x00000000) == Hash(0x1A37B0CA, 0xFD9E1D7D, 0x77192407, 0x20AA99CA, 0xD3A49608)
  {
  }

  lemma Round39()
    ensures Round(Hash(0x4C986405, 0xDC63973F, 0x03D447F6, 0xF72EEC32, 0x085E5AB5), 39, 0x000018C0) == Hash(0x32DE1CBA, 0x4C986405, 0xF718E5CF, 0x03D447F6, 0xF72EEC32)
  {
  }

  lemma Round40()
    ensures Round(Hash(0x32DE1CBA, 0x4C986405, 0xF718E5CF, 0x03D447F6, 0xF72EEC32), 40, 0xD2E138C4) == Hash(0xFC87DEDF, 0x32DE1CBA, 0x53261901, 0xF718E5CF, 0x03D447F6)
  {
  }

  lemma Round59()
    ensures Round(Hash(0x09D785FD, 0xD262FF50, 0xF211824F, 0xD79915AB, 0x5EDC7DDB), 59, 0x44584CB7) == Hash(0x3F52DE5A, 0x09D785FD, 0x3498BFD4, 0xF211824F, 0xD79915AB)
  {
  }

  lemma Round60()
    ensures Round(Hash(0x3F52DE5A, 0x09D785FD, 0x3498BFD4, 0xF211824F, 0xD79915AB), 60, 0x7BA06619) == Hash(0xD756C147, 0x3F52DE5A, 0x4275E17F, 0x3498BFD4, 0xF211824F)
  {
  }

  lemma Round79()
    ensures Round(Hash(0x5738D5E1, 0x860D21CC, 0x681E6DF6, 0xD8FDF6AD, 0xD7B9DA25), 79, 0x822E0879) == Hash(0x42541B35, 0x5738D5E1, 0x21834873, 0x681E6DF6, 0xD8FDF6AD)
  {
  }

  // ---- MT19937 ----

  // From the seed 5489: the second word, and of the terms 0, 1 and 397 the first new one, which is
  // handed out as 3499211612; the next is 581869302.
  lemma DefaultSeed()
    ensures T.SeedWord(5489, 0) == 5489 && T.SeedWord(5489, 1) == 1301868182 && T.SeedWord(5489, 2) == 2938499221
    ensures 3183906156 ^ T.Twist(5489, 1301868182) == 2601187879 && T.Temper(2601187879) == 3499211612
    ensures 1728556020 ^ T.Twist(1301868182, 2938499221) == 3919438689 && T.Temper(3919438689) == 581869302
  {
  }

  // The first steps of both stirrings for the key 0x123, 0x234, 0x345, 0x456, which begin from the
  // seed 19650218.
  lemma KeySteps()
    ensures T.SeedWord(19650218, 1) == 2194844435 && T.KeyWord(2194844435, 19650218, 0x123, 0) == 4287171284
    ensures T.LastWord(2540085905, 1400349479, 2) == 1371430253
  {
  }
}
