// What each heap call means on the picture of the heap: the blocks in address order and
// the free list in list order.  No memory here.
module HeapSpec {
  import BitMath
  import opened HeapModel
  import opened HeapFreeList
  import opened HeapHole

  datatype State = State(blocks: seq<Blk>, list: seq<int>)

  // Memory m carries the heap described by st.
  ghost predicate Sound(m: Mem, p: Place, st: State) {
    && p.Ok()
    && Full(m, st.blocks, p.first, true, p.first, p.last)
    && Linked(m, p.head, st.list)
    && FreeIs(st.blocks, st.list)
  }

  predicate PowerOfTwo(n: int) {
    n == 1 || (n > 1 && n % 2 == 0 && PowerOfTwo(n / 2))
  }

  // The bytes an allocation of allocSize takes from a block of n bytes, header included.
  function UsedSize(allocSize: int): int {
    (if allocSize > MIN_BLOCK_SIZE - HEADER_SIZE then allocSize else MIN_BLOCK_SIZE - HEADER_SIZE) + HEADER_SIZE
  }

  function Taken(n: int, allocSize: int): int {
    if n + ALLOC_BONUS - UsedSize(allocSize) >= MIN_BLOCK_SIZE + ALLOC_BONUS
    then AlignUp(UsedSize(allocSize), PAGE_SIZE) else n
  }

  // What a request needs with its header; no request gets less than the links of a free block take.
  function Needs(size: int): int { HEADER_SIZE + if size > 2 * 8 then size else 2 * 8 }

  // u is the least a request may take of n bytes in a row: all of them if what is left could not be
  // a block, else the first page boundary at which the request ends.
  predicate Snug(u: int, n: int, size: int) {
    if n < Needs(size) + MIN_BLOCK_SIZE then u == n
    else Needs(size) <= u < Needs(size) + PAGE_SIZE && u % PAGE_SIZE == 0
  }

  lemma TakenIsSnug(n: int, size: int)
    ensures Snug(Taken(n, size), n, size)
  {
    var v := UsedSize(size);
    assert AlignUp(v, PAGE_SIZE) % PAGE_SIZE == 0 && v <= AlignUp(v, PAGE_SIZE) < v + PAGE_SIZE;
  }

  // Block i is cut at begin: the part in front stays free, the request gets a snug block, what is
  // left behind it is free.  The free parts take the block's place on the list, in address order.
  ghost predicate Carved(st: State, st': State, i: int, j: int, begin: int, size: int) {
    && 0 <= i < |st.blocks| && 0 <= j < |st.list|
    && exists u :: CarvedAs(st, st', i, j, begin, size, u)
  }

  predicate CarvedAs(st: State, st': State, i: int, j: int, begin: int, size: int, u: int)
    requires 0 <= i < |st.blocks| && 0 <= j < |st.list|
  {
    var b, x := st.blocks[i], begin - HEADER_SIZE;
    var front := if b.at < x then [Blk(b.at, x - b.at, false)] else [];
    var rest := if x + u < b.End() then [Blk(x + u, b.End() - (x + u), false)] else [];
    && Snug(u, b.End() - x, size)
    && st'.blocks == st.blocks[..i] + front + [Blk(x, u, true)] + rest + st.blocks[i + 1..]
    && st'.list == st.list[..j] + (if b.at < x then [b.at] else []) + (if x + u < b.End() then [x + u] else []) + st.list[j + 1..]
  }

  lemma AllocatedIsCarved(st: State, i: int, j: int, begin: int, size: int)
    requires 0 <= i < |st.blocks| && 0 <= j < |st.list| && st.list[j] == st.blocks[i].at
    requires st.blocks[i].at + HEADER_SIZE <= begin
    ensures Carved(st, Allocated(st, i, j, begin, size), i, j, begin, size)
  {
    hide Taken, Snug;
    var b, x := st.blocks[i], begin - HEADER_SIZE;
    var u := Taken(b.End() - x, size);
    TakenIsSnug(b.End() - x, size);
    assert CarvedAs(st, Allocated(st, i, j, begin, size), i, j, begin, size, u);
  }

  // Free block b becomes: what lies before the new block, the new block, what is left.
  function Pieces(b: Blk, offset: int, allocSize: int): seq<Blk> {
    var n := b.size - offset;
    var u := Taken(n, allocSize);
    (if offset > 0 then [Blk(b.at, offset, false)] else [])
    + [Blk(b.at + offset, u, true)]
    + (if u < n then [Blk(b.at + offset + u, n - u, false)] else [])
  }

  // Allocating size bytes at begin in block i, which is at position j of the free list.
  function Allocated(st: State, i: int, j: int, begin: int, size: int): State
    requires 0 <= i < |st.blocks| && 0 <= j < |st.list|
  {
    var b := st.blocks[i];
    var offset := begin - (b.at + HEADER_SIZE);
    var rest := begin - HEADER_SIZE + Taken(b.size - offset, size);
    var list :=
      if offset == 0 then
        if rest < b.End() then st.list[j := rest] else Removed(st.list, j)
      else
        if rest < b.End() then Inserted(st.list, j + 1, rest) else st.list;
    State(st.blocks[..i] + Pieces(b, offset, size) + st.blocks[i + 1..], list)
  }

  function IndexOf(list: seq<int>, a: int): (j: int)
    ensures 0 <= j <= |list| && (j < |list| ==> list[j] == a) && (a in list ==> j < |list|)
  {
    if list == [] || list[0] == a then 0 else 1 + IndexOf(list[1..], a)
  }

  // Position of the block at address a.
  function BlockIndex(s: seq<Blk>, a: int): (i: int)
    ensures 0 <= i <= |s| && (i < |s| ==> s[i].at == a) && (i == |s| ==> forall k :: 0 <= k < |s| ==> s[k].at != a)
  {
    if s == [] || s[0].at == a then 0
    else
      var i := BlockIndex(s[1..], a);
      assert forall k :: 1 <= k < |s| ==> s[k] == s[1..][k - 1];
      1 + i
  }

  predicate PrevFree(s: seq<Blk>, i: int)
    requires 0 <= i < |s|
  {
    i > 0 && !s[i - 1].used
  }

  predicate NextFree(s: seq<Blk>, i: int)
    requires 0 <= i < |s|
  {
    i + 1 < |s| && !s[i + 1].used
  }

  // Giving block i back, merged with whichever neighbours are free.
  function Freed(st: State, i: int): State
    requires 0 <= i < |st.blocks|
  {
    var s := st.blocks;
    var lo := if PrevFree(s, i) then i - 1 else i;
    var hi := if NextFree(s, i) then i + 2 else i + 1;
    var merged := Blk(s[lo].at, s[hi - 1].End() - s[lo].at, false);
    var list :=
      if NextFree(s, i) then
        var j := IndexOf(st.list, s[i + 1].at);
        if j == |st.list| then st.list
        else if PrevFree(s, i) then Removed(st.list, j) else st.list[j := s[i].at]
      else if PrevFree(s, i) then st.list
      else [s[i].at] + st.list;
    State(s[..lo] + [merged] + s[hi..], list)
  }

  // The highest address in the block that the request may start at, or 0.
  function CheckBlock(at: int, size: int, allocSize: int, alignment: int): int
    requires alignment > 0
  {
    var blockEnd := at + size;
    var floor := at + HEADER_SIZE;
    var ceiling := blockEnd - MIN_BLOCK_SIZE + HEADER_SIZE + PAGE_SIZE - 1;
    var highest := AlignDown(blockEnd + ALLOC_BONUS - allocSize, alignment);
    var begin := if highest > ceiling then AlignDown(ceiling, alignment) else highest;
    var freeSize := begin - HEADER_SIZE - at;
    if begin >= floor && (freeSize >= MIN_BLOCK_SIZE || freeSize == 0) then begin else 0
  }

  // Where the request would start in free block b; 0 when b does not admit it.
  function StartIn(b: Blk, size: int, alignment: int): int
    requires alignment >= 0
  {
    if b.size + Flag(true) <= size + HEADER_SIZE - ALLOC_BONUS then 0
    else if alignment == 0 then b.at + HEADER_SIZE
    else CheckBlock(b.at, b.size, size, alignment)
  }

  // Alignments below the page size put the new block off the page grid except for these sizes.
  predicate PageGrid(size: int, alignment: int)
    requires alignment >= 0
  {
    alignment % PAGE_SIZE == 0 || (size > MIN_BLOCK_SIZE - HEADER_SIZE && (-size) % PAGE_SIZE < alignment)
  }

  function BlkAt(s: seq<Blk>, a: int): Blk {
    var i := BlockIndex(s, a);
    if i < |s| then s[i] else Blk(a, 0, true)
  }

  // The first block in list order that admits the request; |list| when none does.
  function FirstFit(st: State, from: nat, size: int, alignment: int): (j: nat)
    requires from <= |st.list| && alignment >= 0
    ensures from <= j <= |st.list|
    ensures j < |st.list| ==> StartIn(BlkAt(st.blocks, st.list[j]), size, alignment) != 0
    ensures forall k :: from <= k < j ==> StartIn(BlkAt(st.blocks, st.list[k]), size, alignment) == 0
    decreases |st.list| - from
  {
    if from == |st.list| || StartIn(BlkAt(st.blocks, st.list[from]), size, alignment) != 0 then from
    else FirstFit(st, from + 1, size, alignment)
  }

  // ---- where a request may start ----

  lemma SmallPowers(a: int)
    requires PowerOfTwo(a)
    ensures a % PAGE_SIZE == 0 || a == 1 || a == 2 || a == 4
  {
    if a > 1 && a / 2 > 1 {
      assert PowerOfTwo(a / 2) && PowerOfTwo(a / 2 / 2);
    }
  }

  lemma AlignedDown(v: int, a: int)
    requires a > 0
    ensures AlignDown(v, a) % a == 0 && AlignDown(v, a) <= v < AlignDown(v, a) + a
  {
    assert AlignDown(v, a) == a * (v / a);
    MultipleOf(v / a, a);
  }

  lemma MultipleOf(k: int, a: int)
    requires a > 0
    ensures (a * k) % a == 0
  {
    var q, r := (a * k) / a, (a * k) % a;
    assert a * (k - q) == r;
    BitMath.Times(a, k - q);
  }

  // A multiple of a multiple of the page size is on the page grid.
  lemma OnGrid(v: int, a: int)
    requires a > 0 && v % a == 0 && a % PAGE_SIZE == 0
    ensures v % PAGE_SIZE == 0
  {
    var k, q := v / a, a / PAGE_SIZE;
    assert v == k * a && a == PAGE_SIZE * q;
    assert v == PAGE_SIZE * (q * k);
  }

  // A block on the page grid gives an answer on the page grid exactly for these requests.
  lemma StartOnGrid(b: Blk, size: int, alignment: int)
    requires Shape(b) && size >= 0 && (alignment == 0 || PowerOfTwo(alignment))
    requires alignment >= 0 && StartIn(b, size, alignment) != 0
    ensures StartIn(b, size, alignment) % PAGE_SIZE == 0 <==> PageGrid(size, alignment)
  {
    hide AlignDown, PowerOfTwo;
    if alignment > 0 {
      SmallPowers(alignment);
      var ceiling := b.End() - MIN_BLOCK_SIZE + HEADER_SIZE + PAGE_SIZE - 1;
      AlignedDown(b.End() + ALLOC_BONUS - size, alignment);
      AlignedDown(ceiling, alignment);
      if alignment % PAGE_SIZE == 0 {
        OnGrid(StartIn(b, size, alignment), alignment);
      } else {
        SmallStart(b.End(), size, alignment);
      }
    }
  }

  // Below the page size only the last page matters: the request ends on the grid or not.
  lemma SmallStart(blockEnd: int, size: int, alignment: int)
    requires blockEnd % PAGE_SIZE == 0 && size >= 0 && (alignment == 1 || alignment == 2 || alignment == 4)
    ensures var ceiling := blockEnd - MIN_BLOCK_SIZE + HEADER_SIZE + PAGE_SIZE - 1;
      var highest := AlignDown(blockEnd + ALLOC_BONUS - size, alignment);
      (if highest > ceiling then AlignDown(ceiling, alignment) else highest) % PAGE_SIZE == 0 <==> PageGrid(size, alignment)
  {
    hide AlignDown;
    var e, q, r := blockEnd / PAGE_SIZE, size / PAGE_SIZE, size % PAGE_SIZE;
    var t := if r == 0 then 0 else PAGE_SIZE - r;
    var k := if r == 0 then e + 1 - q else e - q;
    InPage(e - 2, 7, alignment);
    InPage(k, t, alignment);
    Mod8(k - e - 1, t);
    Mod8(e - 2, 7 - 7 % alignment);
    Mod8(k, t - t % alignment);
  }

  // Rounding down to 1, 2 or 4 works inside one page.
  lemma InPage(k: int, r: int, a: int)
    requires 0 <= r < PAGE_SIZE && (a == 1 || a == 2 || a == 4)
    ensures AlignDown(PAGE_SIZE * k + r, a) == PAGE_SIZE * k + (r - r % a)
  {
    if a == 2 { Mod2(4 * k, r); } else if a == 4 { Mod4(2 * k, r); }
  }

  lemma Mod2(k: int, r: int)
    ensures (2 * k + r) % 2 == r % 2
  {
  }

  lemma Mod4(k: int, r: int)
    ensures (4 * k + r) % 4 == r % 4
  {
  }

  lemma Mod8(k: int, r: int)
    requires 0 <= r < 8
    ensures (8 * k + r) % 8 == r
  {
  }

  // Where CheckBlock's answer lies, before the page grid comes in.
  lemma CheckBlockBounds(at: int, n: int, size: int, alignment: int)
    requires alignment > 0 && CheckBlock(at, n, size, alignment) != 0
    ensures var begin := CheckBlock(at, n, size, alignment);
      && begin % alignment == 0 && begin + size <= at + n + ALLOC_BONUS
      && begin <= at + n - MIN_BLOCK_SIZE + HEADER_SIZE + PAGE_SIZE - 1
      && (begin - HEADER_SIZE - at == 0 || begin - HEADER_SIZE - at >= MIN_BLOCK_SIZE)
  {
    hide AlignDown;
    AlignedDown(at + n + ALLOC_BONUS - size, alignment);
    AlignedDown(at + n - MIN_BLOCK_SIZE + HEADER_SIZE + PAGE_SIZE - 1, alignment);
  }

  // Any answer has the alignment asked for, lies behind the block's header, and leaves room for
  // the request before the end of the borrowed word.
  lemma StartInside(b: Blk, size: int, alignment: int)
    requires size >= 0 && alignment >= 0 && StartIn(b, size, alignment) != 0
    ensures var begin := StartIn(b, size, alignment);
      && (alignment > 0 ==> begin % alignment == 0)
      && b.at + HEADER_SIZE <= begin && begin + size <= b.End() + ALLOC_BONUS
      && (begin - HEADER_SIZE == b.at || begin - HEADER_SIZE >= b.at + MIN_BLOCK_SIZE)
      && (b.size >= MIN_BLOCK_SIZE ==> begin <= b.End() - MIN_BLOCK_SIZE + HEADER_SIZE + PAGE_SIZE - 1)
  {
    hide CheckBlock;
    if alignment > 0 { CheckBlockBounds(b.at, b.size, size, alignment); }
  }

  // What an answer guarantees: the alignment asked for, room for the request before the end
  // of the borrowed word, and whole minimal blocks on both sides of the cut.
  lemma StartFits(b: Blk, size: int, alignment: int)
    requires Shape(b) && size >= 0 && b.at >= 0 && (alignment == 0 || PowerOfTwo(alignment)) && alignment >= 0
    requires StartIn(b, size, alignment) != 0 && PageGrid(size, alignment)
    ensures var begin := StartIn(b, size, alignment);
      var offset := begin - HEADER_SIZE - b.at;
      && (alignment > 0 ==> begin % alignment == 0)
      && offset % PAGE_SIZE == 0 && (offset == 0 || offset >= MIN_BLOCK_SIZE)
      && b.size - offset >= MIN_BLOCK_SIZE
      && begin + size <= b.End() + ALLOC_BONUS
      && UsedSize(size) <= b.size - offset + ALLOC_BONUS
  {
    hide PowerOfTwo, PageGrid, UsedSize, StartIn;
    var begin := StartIn(b, size, alignment);
    StartOnGrid(b, size, alignment);
    StartInside(b, size, alignment);
    GridGap(begin, b.at);
    GridCeiling(begin, b.End());
    UsedSizeFits(size, b.End() - (begin - HEADER_SIZE));
  }

  lemma UsedSizeFits(size: int, n: int)
    requires n >= MIN_BLOCK_SIZE && size + HEADER_SIZE <= n + ALLOC_BONUS
    ensures UsedSize(size) <= n + ALLOC_BONUS
  {
  }

  lemma GridGap(begin: int, at: int)
    requires begin % PAGE_SIZE == 0 && at % PAGE_SIZE == 0
    ensures (begin - HEADER_SIZE - at) % PAGE_SIZE == 0
  {
  }

  lemma GridCeiling(begin: int, blockEnd: int)
    requires begin % PAGE_SIZE == 0 && blockEnd % PAGE_SIZE == 0
    ensures begin <= blockEnd - MIN_BLOCK_SIZE + HEADER_SIZE + PAGE_SIZE - 1 ==> begin <= blockEnd - HEADER_SIZE
  {
  }

  // The starts inside free block b that would leave every block whole and keep the request
  // in front of the end of the borrowed word.
  predicate LegalStart(b: Blk, size: int, alignment: int, begin: int)
    requires alignment > 0
  {
    && begin % alignment == 0 && begin + size <= b.End() + ALLOC_BONUS
    && (begin == b.at + HEADER_SIZE || b.at + HEADER_SIZE + MIN_BLOCK_SIZE <= begin)
    && begin - HEADER_SIZE + MIN_BLOCK_SIZE <= b.End()
  }

  lemma NoMultipleBetween(v: int, a: int, w: int)
    requires a > 0 && w % a == 0 && w <= v
    ensures w <= AlignDown(v, a)
  {
    AlignedDown(v, a);
    var d := w / a - v / a;
    assert w == a * (w / a) && AlignDown(v, a) == a * (v / a);
    assert w - AlignDown(v, a) == a * d;
    BitMath.Times(a, d);
  }

  // An aligned request is answered with the highest legal start there is ...
  lemma HighestStart(b: Blk, size: int, alignment: int, other: int)
    requires Shape(b) && 0 <= b.at && size >= 0 && PowerOfTwo(alignment) && alignment % PAGE_SIZE == 0
    requires alignment > 0 && StartIn(b, size, alignment) != 0 && LegalStart(b, size, alignment, other)
    ensures LegalStart(b, size, alignment, StartIn(b, size, alignment)) && other <= StartIn(b, size, alignment)
  {
    StartFits(b, size, alignment);
    NoMultipleBetween(b.End() + ALLOC_BONUS - size, alignment, other);
    NoMultipleBetween(b.End() - MIN_BLOCK_SIZE + HEADER_SIZE + PAGE_SIZE - 1, alignment, other);
  }

  // The highest aligned address that leaves the request in front of the end of the borrowed
  // word, and at most a minimal block's header in front of the end of the block.
  function HighestIn(b: Blk, size: int, alignment: int): int
    requires alignment > 0
  {
    var highest := AlignDown(b.End() + ALLOC_BONUS - size, alignment);
    var ceiling := AlignDown(b.End() - MIN_BLOCK_SIZE + HEADER_SIZE + PAGE_SIZE - 1, alignment);
    if highest <= ceiling then highest else ceiling
  }

  // ... but when that one would strand a piece too small to be a block, lower legal starts
  // are not tried: a block that has one is refused if and only if the front of the block is
  // aligned and the highest address lies less than a minimal block behind it.
  lemma RefusesExactly(b: Blk, size: int, alignment: int)
    requires Shape(b) && 0 <= b.at && size >= 0 && PowerOfTwo(alignment) && alignment % PAGE_SIZE == 0 && alignment > 0
    ensures var floor := b.at + HEADER_SIZE;
      StartIn(b, size, alignment) == 0 && (exists s :: LegalStart(b, size, alignment, s))
      <==> floor % alignment == 0 && 0 < HighestIn(b, size, alignment) - floor < MIN_BLOCK_SIZE
  {
    hide AlignDown, PowerOfTwo;
    var floor, top := b.at + HEADER_SIZE, HighestIn(b, size, alignment);
    var highest, ceiling := b.End() + ALLOC_BONUS - size, b.End() - MIN_BLOCK_SIZE + HEADER_SIZE + PAGE_SIZE - 1;
    AlignedDown(highest, alignment);
    AlignedDown(ceiling, alignment);
    if AlignDown(highest, alignment) <= ceiling { NoMultipleBetween(ceiling, alignment, AlignDown(highest, alignment)); }
    forall s | LegalStart(b, size, alignment, s)
      ensures floor <= s <= top && (s == floor || floor + MIN_BLOCK_SIZE <= s)
    {
      NoMultipleBetween(highest, alignment, s);
      NoMultipleBetween(ceiling, alignment, s);
    }
    if floor % alignment == 0 && 0 < top - floor < MIN_BLOCK_SIZE {
      assert LegalStart(b, size, alignment, floor);
    }
  }

  // Such a block: an unaligned request fits it, one aligned to 8 is refused.
  lemma RefusesBlockThatFits()
    ensures var b := Blk(0, 48, false);
      StartIn(b, 8, 8) == 0 && LegalStart(b, 8, 8, 16) && StartIn(b, 8, 0) == 16
  {
    assert AlignDown(48 + ALLOC_BONUS - 8, 8) == 48;
    assert AlignDown(48 - MIN_BLOCK_SIZE + HEADER_SIZE + PAGE_SIZE - 1, 8) == 32;
  }

  // With an alignment of 4 the block handed out for 8 bytes is shorter than a block may be,
  // so its links would overlap the tags behind it.
  lemma SmallAlignmentCutsTooShort()
    ensures var b := Blk(0, 64, false);
      var begin := StartIn(b, 8, 4);
      begin == 52 && b.End() - (begin - HEADER_SIZE) < MIN_BLOCK_SIZE && !PageGrid(8, 4)
  {
    assert AlignDown(64 + ALLOC_BONUS - 8, 4) == 64;
    assert AlignDown(64 - MIN_BLOCK_SIZE + HEADER_SIZE + PAGE_SIZE - 1, 4) == 52;
  }

  // An unaligned request starts behind the header, in every block it fits with the borrowed word.
  lemma UnalignedExactly(b: Blk, size: int)
    requires 0 <= b.at
    ensures StartIn(b, size, 0) == if HEADER_SIZE + size <= b.size + ALLOC_BONUS then b.at + HEADER_SIZE else 0
  {
  }

  // The powers of two are the powers of two.
  lemma {:induction false} PowersAre(k: nat)
    ensures PowerOfTwo(BitMath.Pow2(k))
  {
    if k > 0 {
      PowersAre(k - 1);
      assert BitMath.Pow2(k) == 2 * BitMath.Pow2(k - 1);
    }
  }
}
