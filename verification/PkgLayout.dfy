// The data area of a package: descriptors, names and file data, as planned and as emitted.
module PkgLayout {
  import opened Bytes

  // The replacement pack makes in an NPDRM SELF: 0x80 bytes of meta data at an offset.
  datatype Patch = NoPatch | MetaAt(off: nat, meta: seq<Byte>)

  // A collected path, its file's bytes, and what the SELF detection found.
  datatype Entry = Entry(name: seq<Byte>, dir: bool, data: seq<Byte>, patch: Patch)

  // "USRDIR/EBOOT.BIN"
  const EBOOT: seq<Byte> := [85, 83, 82, 68, 73, 82, 47, 69, 66, 79, 79, 84, 46, 66, 73, 78]

  const TYPE_DIRECTORY: nat := 0x8000_0004
  const TYPE_NPDRMSELF: nat := 0x8000_0001
  const TYPE_RAW: nat := 0x8000_0003

  // The content id, cut or padded to 0x30 bytes.
  function ContentId(cid: seq<Byte>): (c: seq<Byte>)
    ensures |c| == 0x30
  {
    if |cid| >= 0x30 then cid[..0x30] else cid + Zeros(0x30 - |cid|)
  }

  function Align16(n: nat): nat { (n + 15) / 16 * 16 }

  // USRDIR/EBOOT.BIN is given a size of 0x30 more than a multiple of 0x40.
  function Size(e: Entry): nat {
    if e.dir then 0 else if e.name == EBOOT then (|e.data| + 15) / 64 * 64 + 0x30 else |e.data|
  }

  function Flags(e: Entry): nat { if e.dir then TYPE_DIRECTORY else if e.name == EBOOT then TYPE_NPDRMSELF else TYPE_RAW }

  // The digest the detection found lies in the file.
  predicate EntryOk(e: Entry) { e.patch.MetaAt? ==> e.patch.off <= |e.data| && |e.patch.meta| == 0x80 }

  lemma SizeHolds(e: Entry)
    requires !e.dir
    ensures |e.data| <= Size(e) <= Align16(Size(e))
  {
  }

  // EBOOT.BIN's is the one size within 63 bytes above the data that leaves 48 over 64.
  lemma EbootSize(e: Entry)
    requires !e.dir && e.name == EBOOT
    ensures Size(e) % 64 == 48 && |e.data| <= Size(e) <= |e.data| + 63
  {
  }

  // ---- the plan ----

  const DESC: nat := 32

  function NamesLength(es: seq<Entry>): nat {
    if es == [] then 0 else NamesLength(es[..|es| - 1]) + Align16(|es[|es| - 1].name|)
  }

  function NameOff(es: seq<Entry>, i: nat): nat
    requires i <= |es|
  {
    DESC * |es| + NamesLength(es[..i])
  }

  function Room(e: Entry): nat { if e.dir then 0 else Align16(Size(e)) }

  function PlannedLength(es: seq<Entry>): nat {
    if es == [] then 0 else PlannedLength(es[..|es| - 1]) + Room(es[|es| - 1])
  }

  function FileOff(es: seq<Entry>, i: nat): nat
    requires i <= |es|
  {
    NameOff(es, |es|) + PlannedLength(es[..i])
  }

  // ---- the bytes ----

  function Desc(es: seq<Entry>, i: nat): (d: seq<Byte>)
    requires i < |es|
    ensures |d| == DESC
  {
    Be(4, NameOff(es, i) % WRAP32) + Be(4, |es[i].name|) + Be(8, FileOff(es, i)) + Be(8, Size(es[i])) + Be(4, Flags(es[i])) + Be(4, 0)
  }

  function Descs(es: seq<Entry>, n: nat): (d: seq<Byte>)
    requires n <= |es|
    ensures |d| == DESC * n
  {
    if n == 0 then [] else Descs(es, n - 1) + Desc(es, n - 1)
  }

  function Names(es: seq<Entry>): (s: seq<Byte>)
    ensures |s| == NamesLength(es)
  {
    if es == [] then []
    else
      var name := es[|es| - 1].name;
      Names(es[..|es| - 1]) + name + Zeros(Align16(|name|) - |name|)
  }

  function Body(e: Entry): seq<Byte>
    requires EntryOk(e)
  {
    match e.patch
    case NoPatch => e.data
    case MetaAt(off, meta) => e.data[..off] + meta + (if off + 0x80 <= |e.data| then e.data[off + 0x80..] else [])
  }

  function Emitted(e: Entry): seq<Byte>
    requires EntryOk(e)
  {
    if e.dir then []
    else
      var room := Align16(Size(e));
      Body(e) + Zeros(if |e.data| < room then room - |e.data| else 0)
  }

  ghost predicate EntriesOk(es: seq<Entry>) { forall i :: 0 <= i < |es| ==> EntryOk(es[i]) }

  function Files(es: seq<Entry>): seq<Byte>
    requires EntriesOk(es)
  {
    if es == [] then [] else Files(es[..|es| - 1]) + Emitted(es[|es| - 1])
  }

  // What is enciphered.
  function Plain(es: seq<Entry>): seq<Byte>
    requires EntriesOk(es)
  {
    Descs(es, |es|) + Names(es) + Files(es)
  }

  // Where a file's bytes really begin.
  function EmittedOff(es: seq<Entry>, i: nat): nat
    requires EntriesOk(es) && i <= |es|
  {
    NameOff(es, |es|) + |Files(es[..i])|
  }

  // The meta data replaces bytes the file has.
  predicate PatchFits(e: Entry) { e.dir || e.patch.NoPatch? || e.patch.off + 0x80 <= |e.data| }

  lemma EmittedRoom(e: Entry)
    requires EntryOk(e)
    ensures |Emitted(e)| >= Room(e)
    ensures |Emitted(e)| == Room(e) <==> PatchFits(e)
    ensures PatchFits(e) && !e.dir ==> |Body(e)| == |e.data|
  {
    if !e.dir { SizeHolds(e); }
  }

  // The plan and the emission agree on a file's offset exactly when every earlier patch fits.
  lemma {:induction false} PlanIsKept(es: seq<Entry>, i: nat)
    requires EntriesOk(es) && i <= |es|
    ensures FileOff(es, i) <= EmittedOff(es, i)
    ensures FileOff(es, i) == EmittedOff(es, i) <==> forall k :: 0 <= k < i ==> PatchFits(es[k])
  {
    LengthsAgree(es[..i]);
    assert forall k :: 0 <= k < i ==> es[..i][k] == es[k];
  }

  lemma {:induction false} LengthsAgree(es: seq<Entry>)
    requires EntriesOk(es)
    ensures PlannedLength(es) <= |Files(es)|
    ensures PlannedLength(es) == |Files(es)| <==> forall k :: 0 <= k < |es| ==> PatchFits(es[k])
  {
    if es != [] {
      var n := |es| - 1;
      LengthsAgree(es[..n]);
      EmittedRoom(es[n]);
      assert forall k :: 0 <= k < n ==> es[..n][k] == es[k];
    }
  }

  // ---- where the parts lie ----

  lemma {:induction false} DescHeld(es: seq<Entry>, n: nat, i: nat)
    requires i < n <= |es|
    ensures Holds(Descs(es, n), DESC * i, Desc(es, i))
  {
    hide Desc, Holds;
    if i == n - 1 {
      HoldsMiddle(Descs(es, n - 1), Desc(es, i), []);
      assert Descs(es, n) == Descs(es, n - 1) + Desc(es, i) + [];
    } else {
      DescHeld(es, n - 1, i);
      HoldsMore(Descs(es, n - 1), Desc(es, n - 1), DESC * i, Desc(es, i));
    }
  }

  lemma {:induction false} NameHeld(es: seq<Entry>, i: nat)
    requires i < |es|
    ensures Holds(Names(es), NamesLength(es[..i]), es[i].name)
  {
    var n := |es| - 1;
    var name := es[n].name;
    var pad := Zeros(Align16(|name|) - |name|);
    if i == n {
      HoldsMiddle(Names(es[..n]), name, pad);
    } else {
      NameHeld(es[..n], i);
      assert es[..n][..i] == es[..i] && es[..n][i] == es[i];
      HoldsMore(Names(es[..n]), name + pad, NamesLength(es[..i]), es[i].name);
      assert Names(es[..n]) + (name + pad) == Names(es[..n]) + name + pad;
    }
  }

  lemma {:induction false} FileHeld(es: seq<Entry>, i: nat)
    requires EntriesOk(es) && i < |es|
    ensures Holds(Files(es), |Files(es[..i])|, Emitted(es[i]))
  {
    hide Emitted, Holds;
    var n := |es| - 1;
    if i == n {
      HoldsMiddle(Files(es[..n]), Emitted(es[n]), []);
      assert Files(es[..n]) + Emitted(es[n]) + [] == Files(es);
    } else {
      FileHeld(es[..n], i);
      assert es[..n][..i] == es[..i] && es[..n][i] == es[i];
      HoldsMore(Files(es[..n]), Emitted(es[n]), |Files(es[..i])|, Emitted(es[i]));
    }
  }

  // The three parts of entry i in the data area.
  lemma DescPart(es: seq<Entry>, i: nat)
    requires EntriesOk(es) && i < |es|
    ensures Holds(Plain(es), DESC * i, Desc(es, i))
  {
    hide Descs, Names, Files, Desc, Holds;
    var d, n, f := Descs(es, |es|), Names(es), Files(es);
    DescHeld(es, |es|, i);
    HoldsMore(d, n + f, DESC * i, Desc(es, i));
    assert d + (n + f) == Plain(es);
  }

  lemma NamePart(es: seq<Entry>, i: nat)
    requires EntriesOk(es) && i < |es|
    ensures Holds(Plain(es), NameOff(es, i), es[i].name)
  {
    hide Descs, Names, Files, Holds;
    var d, n, f := Descs(es, |es|), Names(es), Files(es);
    HoldsMiddle(d, n, f);
    NameHeld(es, i);
    HoldsInner(Plain(es), |d|, n, NamesLength(es[..i]), es[i].name);
  }

  lemma FilePart(es: seq<Entry>, i: nat)
    requires EntriesOk(es) && i < |es|
    ensures Holds(Plain(es), EmittedOff(es, i), Emitted(es[i]))
  {
    hide Descs, Names, Files, Holds, Emitted;
    var d, n, f := Descs(es, |es|), Names(es), Files(es);
    HoldsMiddle(d + n, f, []);
    assert d + n + f + [] == Plain(es);
    assert es[..|es|] == es;
    FileHeld(es, i);
    HoldsInner(Plain(es), |d + n|, f, |Files(es[..i])|, Emitted(es[i]));
  }
}
