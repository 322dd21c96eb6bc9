// What pack_pkg looks for in a file: an NPDRM SELF, by its magic, its type and a walk along
// its digest headers; and the meta data it puts in their place.
module PkgSelf {
  import opened Collections
  import opened Bytes
  import opened PkgCipher
  import opened PkgLayout

  const SELF_MAGIC: seq<Byte> := [0x53, 0x43, 0x45, 0, 0, 0, 0, 2, 0x80]
  const SELF_HEADER: nat := 0x68
  const APP_INFO: nat := 0x18
  const DIGEST: nat := 0x10
  const NPDRM: nat := 3

  // ---- the walk along the digest headers ----

  datatype Walk = Found(at: nat) | Missing | Endless

  // Headers are dsize bytes apart; one that leads to itself is never left.
  function Search(data: seq<Byte>, off: nat): (w: Walk)
    ensures w.Found? ==> w.at + DIGEST <= |data| && Num(data, w.at, 4) == NPDRM
    decreases |data| - off
  {
    if off + DIGEST > |data| then Missing
    else if Num(data, off, 4) == NPDRM then Found(off)
    else if Num(data, off + 8, 8) != 1 then Missing
    else if Num(data, off + 4, 4) == 0 then Endless
    else Search(data, off + Num(data, off + 4, 4))
  }

  // Where the loop is after n rounds from off; None once it has ended.
  function After(data: seq<Byte>, off: nat, n: nat): Option<nat>
    decreases n
  {
    if off + DIGEST > |data| then None
    else if n == 0 then Some(off)
    else if Num(data, off, 4) == NPDRM || Num(data, off + 8, 8) != 1 then None
    else After(data, off + Num(data, off + 4, 4), n - 1)
  }

  lemma {:induction false} EndlessStays(data: seq<Byte>, off: nat, n: nat)
    requires Search(data, off).Endless?
    ensures After(data, off, n).Some?
    decreases n
  {
    if n > 0 { EndlessStays(data, off + Num(data, off + 4, 4), n - 1); }
  }

  lemma {:induction false} OthersEnd(data: seq<Byte>, off: nat) returns (n: nat)
    requires !Search(data, off).Endless?
    ensures After(data, off, n).None?
    decreases |data| - off
  {
    if off + DIGEST > |data| { n := 0; }
    else if Num(data, off, 4) == NPDRM || Num(data, off + 8, 8) != 1 { n := 1; }
    else { n := OthersEnd(data, off + Num(data, off + 4, 4)); n := n + 1; }
  }

  // Headers from off on, none of type 3, each announcing the next, which lies its length
  // further on; the last is of length zero and so announces itself.
  ghost predicate EndlessChain(data: seq<Byte>, off: nat, chain: seq<nat>) {
    && chain != [] && chain[0] == off
    && (forall k :: 0 <= k < |chain| ==> Announces(data, chain[k]))
    && (forall k :: 0 <= k < |chain| - 1 ==> chain[k + 1] == chain[k] + Num(data, chain[k] + 4, 4))
    && Num(data, chain[|chain| - 1] + 4, 4) == 0
  }

  predicate Announces(data: seq<Byte>, at: nat) {
    at + DIGEST <= |data| && Num(data, at, 4) != NPDRM && Num(data, at + 8, 8) == 1
  }

  lemma {:induction false} EndlessHasChain(data: seq<Byte>, off: nat) returns (chain: seq<nat>)
    requires Search(data, off).Endless?
    ensures EndlessChain(data, off, chain)
    decreases |data| - off
  {
    hide Num;
    if Num(data, off + 4, 4) == 0 {
      chain := [off];
    } else {
      var rest := EndlessHasChain(data, off + Num(data, off + 4, 4));
      chain := [off] + rest;
    }
  }

  lemma {:induction false} ChainIsEndless(data: seq<Byte>, off: nat, chain: seq<nat>)
    requires EndlessChain(data, off, chain)
    ensures Search(data, off).Endless?
    decreases |chain|
  {
    hide Num;
    assert Announces(data, chain[0]);
    if |chain| > 1 {
      var rest := chain[1..];
      assert Announces(data, rest[0]) && chain[1] == chain[0] + Num(data, chain[0] + 4, 4);
      ChainIsEndless(data, chain[1], rest);
    }
  }

  // The walk along a SELF's headers ends if and only if there is no such chain.
  lemma EndsExactly(data: seq<Byte>, off: nat)
    ensures (exists n :: After(data, off, n).None?) <==> !exists chain :: EndlessChain(data, off, chain)
    ensures Search(data, off).Endless? <==> exists chain :: EndlessChain(data, off, chain)
  {
    hide EndlessChain, Num;
    if Search(data, off).Endless? {
      forall n: nat
        ensures After(data, off, n).Some?
      {
        EndlessStays(data, off, n);
      }
      var chain := EndlessHasChain(data, off);
    } else {
      var n := OthersEnd(data, off);
      forall chain | EndlessChain(data, off, chain)
        ensures false
      {
        ChainIsEndless(data, off, chain);
      }
    }
  }

  method FindDigest(data: seq<Byte>, start: nat) returns (w: Walk)
    requires !exists chain :: EndlessChain(data, start, chain)
    ensures w == Search(data, start)
  {
    hide Num, EndlessChain;
    EndsExactly(data, start);
    var off := start;
    while off + DIGEST <= |data|
      invariant Search(data, off) == Search(data, start)
      decreases |data| - off
    {
      if Num(data, off, 4) == NPDRM { return Found(off); }
      if Num(data, off + 8, 8) != 1 { return Missing; }
      off := off + Num(data, off + 4, 4);
    }
    w := Missing;
  }

  // ---- detection ----

  predicate IsSelf(data: seq<Byte>) { |data| >= SELF_HEADER && data[..9] == SELF_MAGIC }

  function AppType(data: seq<Byte>): nat
    requires |data| >= SELF_HEADER
  {
    var at := Num(data, 40, 8);
    if at + APP_INFO <= |data| then Num(data, at + 12, 4) else 0
  }

  // The packer comes to an end on the file.
  ghost predicate Packable(data: seq<Byte>) { IsSelf(data) ==> !exists chain :: EndlessChain(data, Num(data, 88, 8), chain) }

  // The meta data starts behind the digest header.
  function MetaOff(data: seq<Byte>): (off: Option<nat>)
    ensures off.Some? ==> off.value <= |data|
  {
    if !IsSelf(data) then None
    else
      match Search(data, Num(data, 88, 8))
      case Found(at) => if AppType(data) == 8 then Some(at + DIGEST) else None
      case _ => None
  }

  // A digest, its complement, and that again under a mask.
  function MetaDigests(d: seq<Byte>): (m: seq<Byte>)
    requires |d| == 16
    ensures |m| == 0x30
  {
    var complement: seq<Byte> := seq(16, j requires 0 <= j < 16 => 255 - d[j]);
    d + complement + seq(16, j requires 0 <= j < 16 => Xor(Xor(if j == 15 then 1 else 0, complement[j]), 0xaa))
  }

  function MetaHead(cid: seq<Byte>): (m: seq<Byte>)
    ensures |m| == 0x40
  {
    Be(4, 0x4E504400) + Be(4, 1) + Be(4, 3) + Be(4, 1) + ContentId(cid)
  }

  function Meta(sha: Sha, cid: seq<Byte>, data: seq<Byte>): (m: seq<Byte>)
    requires Hashes(sha)
    ensures |m| == 0x80
  {
    MetaHead(cid) + MetaDigests(sha(data)[..16]) + Zeros(0x10)
  }

  // The patch pack makes in a file.
  function PatchOf(sha: Sha, cid: seq<Byte>, data: seq<Byte>): Patch
    requires Hashes(sha)
  {
    match MetaOff(data)
    case Some(off) => MetaAt(off, Meta(sha, cid, data))
    case None => NoPatch
  }

  method Detect(sha: Sha, cid: seq<Byte>, data: seq<Byte>) returns (p: Patch)
    requires Hashes(sha) && Packable(data)
    ensures p == PatchOf(sha, cid, data)
  {
    if !IsSelf(data) { return NoPatch; }
    var w := FindDigest(data, Num(data, 88, 8));
    if w.Found? && AppType(data) == 8 {
      p := MetaAt(w.at + DIGEST, Meta(sha, cid, data));
    } else {
      p := NoPatch;
    }
  }

  // Only the 0x80 bytes of the meta data differ from the file's own.
  lemma PatchedBytes(e: Entry, k: nat)
    requires EntryOk(e) && k < |e.data| && (e.patch.MetaAt? ==> k < e.patch.off || k >= e.patch.off + 0x80)
    ensures k < |Body(e)| && Body(e)[k] == e.data[k]
  {
    if e.patch.MetaAt? {
      var off, meta := e.patch.off, e.patch.meta;
      if k < off {
        assert Body(e)[k] == e.data[..off][k];
      } else {
        var rest := e.data[off + 0x80..];
        assert Body(e) == e.data[..off] + meta + rest;
        assert Body(e)[k] == rest[k - off - 0x80];
      }
    }
  }

  // Whatever is found, the entry is one the packer can emit.
  lemma DetectedOk(sha: Sha, cid: seq<Byte>, e: Entry)
    requires Hashes(sha) && e.patch == PatchOf(sha, cid, e.data)
    ensures EntryOk(e)
  {
    hide MetaOff, Meta;
  }

  lemma Pieces(a: seq<Byte>, b: seq<Byte>, c: seq<Byte>, d: seq<Byte>, x: seq<Byte>, y: seq<Byte>, z: seq<Byte>, data: seq<Byte>)
    requires |a| == 9 && |b| == 79 && |c| == 8 && |d| == 8 && |x| == 4 && |y| == 4 && |z| == 8
    requires data == a + b + c + d + x + y + z
    ensures |data| == 120 && data[..9] == a && data[88..96] == c && data[104..108] == x && data[108..112] == y && data[112..120] == z
  {
  }

  // A digest header of type 2 and length 0 that announces another.
  lemma SomeSelfIsEndless()
    ensures exists data: seq<Byte> :: !Packable(data)
  {
    hide Be, Rd, Zeros;
    var data := SELF_MAGIC + Zeros(79) + Be(8, 0x68) + Zeros(8) + Be(4, 2) + Be(4, 0) + Be(8, 1);
    Pieces(SELF_MAGIC, Zeros(79), Be(8, 0x68), Zeros(8), Be(4, 2), Be(4, 0), Be(8, 1), data);
    Powers();
    RdBe(8, 0x68);
    RdBe(8, 1);
    RdBe(4, 2);
    RdBe(4, 0);
    assert Num(data, 88, 8) == 0x68;
    var chain: seq<nat> := [0x68];
    assert EndlessChain(data, Num(data, 88, 8), chain);
    assert !Packable(data);
  }

  // An NPDRM SELF that ends right behind its digest header, so that the meta data lies behind
  // its end.
  const SHORT_HEAD: seq<Byte> := SELF_MAGIC + Zeros(31) + Be(8, 0x68) + Zeros(40) + Be(8, 0x80)
  const SHORT_REST: seq<Byte> := Zeros(20) + Be(4, 8) + Zeros(8) + Be(4, 3) + Zeros(12)
  const SHORT_SELF: seq<Byte> := SHORT_HEAD + SHORT_REST

  lemma HeadPieces(a: seq<Byte>, b: seq<Byte>, c: seq<Byte>, d: seq<Byte>, x: seq<Byte>, head: seq<Byte>)
    requires |a| == 9 && |b| == 31 && |c| == 8 && |d| == 40 && |x| == 8 && head == a + b + c + d + x
    ensures |head| == 96 && head[..9] == a && head[40..48] == c && head[88..96] == x
  {
  }

  lemma RestPieces(y: seq<Byte>, z: seq<Byte>, u: seq<Byte>, v: seq<Byte>, w: seq<Byte>, rest: seq<Byte>)
    requires |y| == 20 && |z| == 4 && |u| == 8 && |v| == 4 && |w| == 12 && rest == y + z + u + v + w
    ensures |rest| == 48 && rest[20..24] == z && rest[32..36] == v
  {
  }

  lemma ShortPieces(head: seq<Byte>, rest: seq<Byte>, data: seq<Byte>)
    requires |head| == 96 && |rest| == 48 && data == head + rest
    ensures |data| == 0x90 && data[..9] == head[..9] && data[40..48] == head[40..48] && data[88..96] == head[88..96]
    ensures data[116..120] == rest[20..24] && data[128..132] == rest[32..36]
  {
  }

  lemma ShortNumbers()
    ensures |SHORT_SELF| == 0x90 && IsSelf(SHORT_SELF)
    ensures Num(SHORT_SELF, 40, 8) == 0x68 && Num(SHORT_SELF, 88, 8) == 0x80
    ensures Num(SHORT_SELF, 116, 4) == 8 && Num(SHORT_SELF, 128, 4) == NPDRM
  {
    hide Be, Rd, Zeros;
    HeadPieces(SELF_MAGIC, Zeros(31), Be(8, 0x68), Zeros(40), Be(8, 0x80), SHORT_HEAD);
    RestPieces(Zeros(20), Be(4, 8), Zeros(8), Be(4, 3), Zeros(12), SHORT_REST);
    ShortPieces(SHORT_HEAD, SHORT_REST, SHORT_SELF);
    Powers();
    RdBe(8, 0x68);
    RdBe(8, 0x80);
    RdBe(4, 8);
    RdBe(4, 3);
  }

  lemma ShortIsPatched(sha: Sha, cid: seq<Byte>)
    requires Hashes(sha)
    ensures |SHORT_SELF| == 0x90 && Packable(SHORT_SELF)
    ensures PatchOf(sha, cid, SHORT_SELF).MetaAt? && PatchOf(sha, cid, SHORT_SELF).off == 0x90
  {
    hide Num, IsSelf, Meta, SHORT_SELF;
    ShortNumbers();
    EndsExactly(SHORT_SELF, 0x80);
  }

  lemma ShortMisses(es: seq<Entry>)
    requires EntriesOk(es) && |es| == 2 && !PatchFits(es[0])
    ensures FileOff(es, 1) < EmittedOff(es, 1)
  {
    hide FileOff, EmittedOff;
    PlanIsKept(es, 1);
  }

  // A file behind such a SELF does not lie where the plan has it.
  lemma SomePlanMisses(sha: Sha, cid: seq<Byte>)
    requires Hashes(sha)
    ensures exists es: seq<Entry> ::
      && EntriesOk(es) && |es| == 2 && FileOff(es, 1) < EmittedOff(es, 1)
      && forall i :: 0 <= i < 2 ==> Packable(es[i].data) && es[i].patch == PatchOf(sha, cid, es[i].data)
  {
    hide FileOff, EmittedOff, PatchOf, Packable, SHORT_SELF;
    ShortIsPatched(sha, cid);
    var e := Entry([], false, SHORT_SELF, PatchOf(sha, cid, SHORT_SELF));
    DetectedOk(sha, cid, e);
    ShortMisses([e, e]);
  }
}
