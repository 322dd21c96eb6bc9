// One operation at a time, on raw memory: what each pattern of stores in the allocator does
// to the picture of the heap.
module HeapSteps {
  import BitMath
  import opened HeapModel
  import opened HeapFreeList
  import opened HeapHole
  import opened HeapSpec

  // ---- facts about a block in a sound heap ----

  lemma {:induction false} BlockFacts(m: Mem, s: seq<Blk>, from: int, used: bool, to: int, i: int)
    requires Seg(m, s, from, used, to) && 0 <= i < |s|
    ensures Shape(s[i]) && from <= s[i].at && s[i].End() <= to
    ensures SizeWord(m, s[i].at) == s[i].size + Flag(if i == 0 then used else s[i - 1].used)
    ensures !s[i].used ==> Load(m, s[i].End()) == s[i].size
    ensures i + 1 < |s| ==> s[i + 1].at == s[i].End() && (s[i].used || s[i + 1].used)
    ensures i + 1 == |s| ==> s[i].End() == to
  {
    SegRange(m, s, from, used, to);
    if i > 0 {
      BlockFacts(m, s[1..], s[0].End(), s[0].used, to, i - 1);
    }
  }

  lemma Parity(size: int, used: bool)
    requires size % PAGE_SIZE == 0
    ensures (size + Flag(used)) % 2 == Flag(used)
  {
  }

  lemma WrapEven(first: int, last: int)
    requires first % PAGE_SIZE == 0 && last % PAGE_SIZE == 0
    ensures WrapSize(first, last) % PAGE_SIZE == 0
  {
  }

  // The block or end marker behind block i says whether block i is in use.
  lemma FlagBehind(m: Mem, p: Place, st: State, i: int)
    requires Sound(m, p, st) && 0 <= i < |st.blocks|
    ensures SizeWord(m, st.blocks[i].End()) % 2 == Flag(st.blocks[i].used)
  {
    var s := st.blocks;
    BlockFacts(m, s, p.first, true, p.last, i);
    if i + 1 < |s| {
      BlockFacts(m, s, p.first, true, p.last, i + 1);
      Parity(s[i + 1].size, s[i].used);
    } else {
      WrapEven(p.first, p.last);
      Parity(WrapSize(p.first, p.last), s[i].used);
    }
  }

  // The tags the code reads around block i.
  lemma TagsAround(m: Mem, p: Place, st: State, i: int)
    requires Sound(m, p, st) && 0 <= i < |st.blocks|
    ensures var b := st.blocks[i];
      && Shape(b) && p.first <= b.at && b.End() <= p.last
      && BlockSize(m, b.at) == b.size
      && PrevUsed(m, b.at) == (i == 0 || st.blocks[i - 1].used)
      && PrevUsed(m, b.End()) == b.used
      && (b.End() == p.last <==> i + 1 == |st.blocks|)
      && (i + 1 < |st.blocks| ==> b.End() == st.blocks[i + 1].at && (b.used || st.blocks[i + 1].used))
      && (!b.used ==> Load(m, b.End()) == b.size)
      && p.last + HEADER_SIZE <= TWO64 && 0 <= p.first
  {
    var s := st.blocks;
    BlockFacts(m, s, p.first, true, p.last, i);
    Parity(s[i].size, if i == 0 then true else s[i - 1].used);
    FlagBehind(m, p, st, i);
    if i + 1 < |s| { BlockFacts(m, s, p.first, true, p.last, i + 1); }
  }

  // Where block i lies and what marks its end.
  lemma Bounds(m: Mem, p: Place, st: State, i: int)
    requires Sound(m, p, st) && 0 <= i < |st.blocks|
    ensures var b := st.blocks[i];
      && b.at % PAGE_SIZE == 0 && b.End() % PAGE_SIZE == 0 && b.size >= MIN_BLOCK_SIZE
      && SizeWord(m, b.End()) % 2 == Flag(b.used)
      && (i + 1 < |st.blocks| ==> b.End() == st.blocks[i + 1].at && (b.used || st.blocks[i + 1].used))
  {
    BlockFacts(m, st.blocks, p.first, true, p.last, i);
    FlagBehind(m, p, st, i);
  }

  lemma FreeIndex(m: Mem, p: Place, st: State, a: int) returns (i: int)
    requires Sound(m, p, st) && a in st.list
    ensures 0 <= i < |st.blocks| && st.blocks[i].at == a && !st.blocks[i].used
  {
    assert FreeAt(st.blocks, a);
    i :| 0 <= i < |st.blocks| && st.blocks[i].at == a && !st.blocks[i].used;
  }

  // Whether the address names a block at all, and whether that block is in use.
  predicate Known(s: seq<Blk>, a: int) {
    BlockIndex(s, a) < |s|
  }

  predicate Live(s: seq<Blk>, a: int) {
    Known(s, a) && s[BlockIndex(s, a)].used
  }

  // Everything heapFree reads before it decides how to merge block i.
  lemma FreeReads(m: Mem, p: Place, st: State, i: int)
    requires Sound(m, p, st) && 0 <= i < |st.blocks| && st.blocks[i].used
    ensures var s, b := st.blocks, st.blocks[i];
      && PrevUsed(m, b.at) == !PrevFree(s, i)
      && (b.End() == p.last ==> !NextFree(s, i))
      && (b.End() != p.last ==>
            && i + 1 < |s| && s[i + 1].at == b.End()
            && BlockSize(m, b.End()) == s[i + 1].size && s[i + 1].size > 0 && s[i + 1].End() <= p.last
            && PrevUsed(m, s[i + 1].End()) == !NextFree(s, i))
      && (PrevFree(s, i) ==>
            && Load(m, b.at) == s[i - 1].size && s[i - 1].size > 0 && s[i - 1].End() == b.at
            && p.first <= s[i - 1].at && PrevUsed(m, s[i - 1].at))
  {
    hide Sound;
    TagsAround(m, p, st, i);
    if i + 1 < |st.blocks| { TagsAround(m, p, st, i + 1); }
    if i > 0 { TagsAround(m, p, st, i - 1); }
    if i > 1 { TagsAround(m, p, st, i - 2); }
  }

  lemma EndInArena(m: Mem, p: Place, st: State, i: int)
    requires Sound(m, p, st) && 0 <= i < |st.blocks|
    ensures 0 <= st.blocks[i].End() < TWO64
  {
    BlockFacts(m, st.blocks, p.first, true, p.last, i);
  }

  lemma NoWrap(b: int, offset: int)
    requires 0 <= b + offset < TWO64
    ensures BlockAt(b, offset) == b + offset
  {
  }

  lemma OutsideIsUnknown(m: Mem, p: Place, st: State, ptr: int)
    requires Sound(m, p, st) && 0 <= ptr < TWO64
    requires !(p.first <= BlockAt(ptr, -HEADER_SIZE) <= p.last)
    ensures !Known(st.blocks, ptr - HEADER_SIZE)
  {
    SegRange(m, st.blocks, p.first, true, p.last);
  }

  // ---- closing steps ----

  lemma OneFree(m: Mem, x: int, y: int)
    requires x % PAGE_SIZE == 0 && y % PAGE_SIZE == 0 && x + MIN_BLOCK_SIZE <= y
    requires SizeWord(m, x) == y - x + Flag(true) && Load(m, y) == y - x
    ensures Seg(m, [Blk(x, y - x, false)], x, true, y)
  {
    assert Seg(m, [Blk(x, y - x, false)][1..], y, false, y);
  }

  // Free the whole hole: the tags heapFree writes last.
  lemma CloseFree(m: Mem, m': Mem, p: Place, pre: seq<Blk>, x: int, y: int, post: seq<Blk>, was: bool, list: seq<int>)
    requires x % PAGE_SIZE == 0 && y % PAGE_SIZE == 0
    requires Holed(m, p, Hole(pre, x, [Blk(x, y - x, false)], y, post), was, list)
    requires UsedAfter(pre, true) && (post == [] || post[0].used)
    requires m' == m[SizeAt(x) := y - x + 1][PrevSizeAt(y) := y - x]
                    [SizeAt(y) := SizeWord(m, y) - Flag(was)]
    ensures Sound(m', p, State(pre + [Blk(x, y - x, false)] + post, list))
    ensures forall a :: ClientWord(pre, a) || ClientWord(post, a) ==> Load(m, a) == Load(m', a)
  {
    var merged := Blk(x, y - x, false);
    var h := Hole(pre, x, [merged], y, post);
    HoledRange(m, p, h, was, list);
    forall f
      ensures FreeAt([merged], f) ==> f == x
    {
    }
    assert HoleWord(h, SizeAt(x)) && HoleWord(h, y);
    HoledRewrite(m, m', p, h, was, false, list);
    OneFree(m', x, y);
    HoledClose(m', p, h, false, list);
  }

  // The same hole with other planned blocks but the same free ones.
  lemma HoledReplan(m: Mem, p: Place, h: Hole, mid: seq<Blk>, used: bool, list: seq<int>)
    requires Holed(m, p, h, used, list) && Plan(mid, h.x, h.y)
    requires forall a :: FreeAt(mid, a) <==> FreeAt(h.mid, a)
    ensures Holed(m, p, h.(mid := mid), used, list)
  {
  }

  // The tags heapFree leaves around the merged block [x, y).
  function FreeTags(m: Mem, x: int, y: int): Mem {
    var m1 := m[SizeAt(x) := y - x + Flag(true)];
    var m2 := m1[PrevSizeAt(y) := y - x];
    m2[SizeAt(y) := BlockSize(m2, y)]
  }

  // The shared end of the four ways to free a block.
  lemma FreeClose(m: Mem, p: Place, pre: seq<Blk>, x: int, y: int, post: seq<Blk>, was: bool, list: seq<int>)
    requires x % PAGE_SIZE == 0 && y % PAGE_SIZE == 0
    requires Holed(m, p, Hole(pre, x, [Blk(x, y - x, false)], y, post), was, list)
    requires UsedAfter(pre, true) && (post == [] || post[0].used)
    requires SizeWord(m, y) % 2 == Flag(was)
    ensures Sound(FreeTags(m, x, y), p, State(pre + [Blk(x, y - x, false)] + post, list))
    ensures forall a :: ClientWord(pre, a) || ClientWord(post, a) ==> Load(m, a) == Load(FreeTags(m, x, y), a)
  {
    CloseFree(m, FreeTags(m, x, y), p, pre, x, y, post, was, list);
  }

  ghost predicate FreeStep(m: Mem, m': Mem, p: Place, st: State, i: int)
    requires 0 <= i < |st.blocks|
  {
    && Sound(m', p, Freed(st, i))
    && forall a :: ClientWord(Freed(st, i).blocks, a) ==> Load(m, a) == Load(m', a)
  }

  // No client owns a word of a free block.
  lemma ClientSides(pre: seq<Blk>, b: Blk, post: seq<Blk>)
    requires !b.used
    ensures forall a :: ClientWord(pre + [b] + post, a) ==> ClientWord(pre, a) || ClientWord(post, a)
  {
    forall a | ClientWord(pre + [b] + post, a)
      ensures ClientWord(pre, a) || ClientWord(post, a)
    {
      SpliceAt(pre, [b], post, a);
    }
  }

  // The free blocks among one, two or three.
  lemma OneAt(b: Blk, x: int, y: int)
    ensures forall a :: FreeAt([b], a) <==> !b.used && b.at == a
    ensures x <= b.at && b.End() <= y && b.size >= MIN_BLOCK_SIZE ==> Plan([b], x, y)
  {
    assert [b][0] == b;
  }

  lemma NoneAt(x: int, y: int)
    ensures Plan([], x, y) && forall a :: !FreeAt([], a)
  {
  }

  lemma LinksOfOne(b: Blk)
    ensures forall a :: LinkOfFree([b], a) ==> a == NextAt(b.at) || a == PrevAt(b.at)
  {
    OneAt(b, 0, 0);
  }

  lemma MoreAt(b: Blk, rest: seq<Blk>)
    ensures forall a :: FreeAt([b] + rest, a) <==> (!b.used && b.at == a) || FreeAt(rest, a)
  {
    OneAt(b, 0, 0);
    forall a
      ensures FreeAt([b] + rest, a) <==> (!b.used && b.at == a) || FreeAt(rest, a)
    {
      FreeAtConcat([b], rest, a);
    }
  }

  // The last steps, common to the four ways: write the tags, close the hole.
  lemma FreeFinish(m: Mem, m1: Mem, p: Place, st: State, i: int, pre: seq<Blk>, x: int, y: int, post: seq<Blk>,
                   was: bool, list: seq<int>)
    requires 0 <= i < |st.blocks| && x % PAGE_SIZE == 0 && y % PAGE_SIZE == 0
    requires Holed(m1, p, Hole(pre, x, [Blk(x, y - x, false)], y, post), was, list)
    requires UsedAfter(pre, true) && (post == [] || post[0].used)
    requires SizeWord(m1, y) == SizeWord(m, y) && SizeWord(m, y) % 2 == Flag(was)
    requires forall a :: ClientWord(pre, a) || ClientWord(post, a) ==> Load(m, a) == Load(m1, a)
    requires Freed(st, i) == State(pre + [Blk(x, y - x, false)] + post, list)
    ensures FreeStep(m, FreeTags(m1, x, y), p, st, i)
  {
    FreeClose(m1, p, pre, x, y, post, was, list);
    ClientSides(pre, Blk(x, y - x, false), post);
  }

  lemma Listed(m: Mem, p: Place, st: State, i: int)
    requires Sound(m, p, st) && 0 <= i < |st.blocks| && !st.blocks[i].used
    ensures st.blocks[i].at in st.list
  {
    assert FreeAt(st.blocks, st.blocks[i].at);
  }

  // Blocks lo .. hi of a sound heap, taken apart from the rest.
  lemma OpenBlocks(m: Mem, p: Place, st: State, lo: int, hi: int)
    requires Sound(m, p, st) && 0 <= lo < hi <= |st.blocks|
    ensures var s := st.blocks;
      && Holed(m, p, Hole(s[..lo], s[lo].at, s[lo..hi], s[hi - 1].End(), s[hi..]), s[hi - 1].used, st.list)
      && (UsedAfter(s[..lo], true) || s[lo].used)
      && Distinct(st.list) && forall a :: a in st.list <==> FreeAt(s, a)
  {
    hide Holed, Full, Seg, FreeAt, Place.Ok, Linked;
    var s := st.blocks;
    CutInThree(s, lo, hi);
    HoledOpen(m, p, s[..lo], s[lo..hi], s[hi..], st.list);
    FirstOfSeg(m, s[lo..hi], s[lo].at, UsedAfter(s[..lo], true), s[hi - 1].End());
  }

  lemma CutInThree(s: seq<Blk>, lo: int, hi: int)
    requires 0 <= lo < hi <= |s|
    ensures s == s[..lo] + s[lo..hi] + s[hi..]
    ensures s[lo..hi][0] == s[lo] && s[lo..hi][hi - lo - 1] == s[hi - 1]
  {
    assert s[..lo] + s[lo..hi] == s[..hi];
  }

  lemma FirstOfSeg(m: Mem, s: seq<Blk>, from: int, used: bool, to: int)
    requires Seg(m, s, from, used, to) && s != []
    ensures used || s[0].used
  {
  }

  lemma SliceTwo(s: seq<Blk>, i: int)
    requires 0 <= i && i + 2 <= |s|
    ensures s[i..i + 2] == [s[i], s[i + 1]]
  {
  }

  lemma SliceThree(s: seq<Blk>, i: int)
    requires 0 <= i && i + 3 <= |s|
    ensures s[i..i + 3] == [s[i], s[i + 1], s[i + 2]]
  {
  }

  // Neither neighbour is free: the block goes to the front of the list.
  lemma FreeAlone(m: Mem, p: Place, st: State, i: int)
    requires Sound(m, p, st) && 0 <= i < |st.blocks| && st.blocks[i].used
    requires !PrevFree(st.blocks, i) && !NextFree(st.blocks, i)
    ensures var b := st.blocks[i];
      FreeStep(m, FreeTags(InsertAfterLinks(m, p.head, b.at), b.at, b.End()), p, st, i)
  {
    hide Holed, Sound, Full, Seg, Place.Ok, FreeAt, ClientWord, FreeTags, RemoveLinks, InsertAfterLinks, ReplaceLinks, FreeStep;
    var s := st.blocks;
    var b, pre, post := s[i], s[..i], s[i + 1..];
    Bounds(m, p, st, i);
    OpenBlocks(m, p, st, i, i + 1);
    assert s[i..i + 1] == [b];
    var h := Hole(pre, b.at, [b], b.End(), post);
    var merged := Blk(b.at, b.End() - b.at, false);
    OneAt(b, b.at, b.End());
    OneAt(merged, b.at, b.End());
    HoledInsert(m, p, h, [merged], true, st.list, 0, b.at);
    var m1 := InsertAfterLinks(m, p.head, b.at);
    assert Inserted(st.list, 0, b.at) == [b.at] + st.list;
    FreeFinish(m, m1, p, st, i, pre, b.at, b.End(), post, true, [b.at] + st.list);
  }

  // The next block is free: the new free block takes its place in the list.
  lemma FreeBeforeFree(m: Mem, p: Place, st: State, i: int)
    requires Sound(m, p, st) && 0 <= i < |st.blocks| && st.blocks[i].used
    requires !PrevFree(st.blocks, i) && NextFree(st.blocks, i)
    ensures var b, n := st.blocks[i], st.blocks[i + 1];
      FreeStep(m, FreeTags(ReplaceLinks(m, n.at, b.at), b.at, n.End()), p, st, i)
  {
    hide Holed, Sound, Full, Seg, Place.Ok, FreeAt, ClientWord, FreeTags, RemoveLinks, InsertAfterLinks, ReplaceLinks, FreeStep;
    var s := st.blocks;
    var b, n, pre, post := s[i], s[i + 1], s[..i], s[i + 2..];
    Bounds(m, p, st, i);
    Bounds(m, p, st, i + 1);
    OpenBlocks(m, p, st, i, i + 2);
    SliceTwo(s, i);
    var h := Hole(pre, b.at, [b, n], n.End(), post);
    var merged := Blk(b.at, n.End() - b.at, false);
    OneAt(n, 0, 0);
    MoreAt(b, [n]);
    OneAt(merged, b.at, n.End());
    Listed(m, p, st, i + 1);
    var j := IndexOf(st.list, n.at);
    assert FreeAt([b] + [n], n.at) && [b] + [n] == [b, n];
    HoledReplace(m, p, h, [merged], false, st.list, j, b.at);
    FreeFinish(m, ReplaceLinks(m, n.at, b.at), p, st, i, pre, b.at, n.End(), post, false, st.list[j := b.at]);
  }

  // The previous block is free: it grows, and keeps its place in the list.
  lemma FreeAfterFree(m: Mem, p: Place, st: State, i: int)
    requires Sound(m, p, st) && 0 <= i < |st.blocks| && st.blocks[i].used
    requires PrevFree(st.blocks, i) && !NextFree(st.blocks, i)
    ensures var q, b := st.blocks[i - 1], st.blocks[i];
      FreeStep(m, FreeTags(m, q.at, b.End()), p, st, i)
  {
    hide Holed, Sound, Full, Seg, Place.Ok, FreeAt, ClientWord, FreeTags, RemoveLinks, InsertAfterLinks, ReplaceLinks, FreeStep;
    var s := st.blocks;
    var q, b, pre, post := s[i - 1], s[i], s[..i - 1], s[i + 1..];
    Bounds(m, p, st, i);
    Bounds(m, p, st, i - 1);
    OpenBlocks(m, p, st, i - 1, i + 1);
    SliceTwo(s, i - 1);
    var h := Hole(pre, q.at, [q, b], b.End(), post);
    var merged := Blk(q.at, b.End() - q.at, false);
    OneAt(b, 0, 0);
    MoreAt(q, [b]);
    assert [q] + [b] == [q, b];
    OneAt(merged, q.at, b.End());
    HoledReplan(m, p, h, [merged], true, st.list);
    FreeFinish(m, m, p, st, i, pre, q.at, b.End(), post, true, st.list);
  }

  lemma ThreeAt(q: Blk, b: Blk, n: Blk)
    requires !q.used && b.used && !n.used
    ensures forall a :: FreeAt([q, b, n], a) <==> a == q.at || a == n.at
  {
    OneAt(n, 0, 0);
    MoreAt(b, [n]);
    MoreAt(q, [b] + [n]);
    assert [q] + ([b] + [n]) == [q, b, n];
  }

  lemma FreedBetween(st: State, i: int)
    requires 0 <= i < |st.blocks| && PrevFree(st.blocks, i) && NextFree(st.blocks, i)
    requires st.blocks[i + 1].at in st.list
    ensures var s, q, n := st.blocks, st.blocks[i - 1], st.blocks[i + 1];
      Freed(st, i) == State(s[..i - 1] + [Blk(q.at, n.End() - q.at, false)] + s[i + 2..],
                            Removed(st.list, IndexOf(st.list, n.at)))
  {
  }

  // Both neighbours are free: the previous block takes all, the next one leaves the list.
  lemma FreeBetweenFree(m: Mem, p: Place, st: State, i: int)
    requires Sound(m, p, st) && 0 <= i < |st.blocks| && st.blocks[i].used
    requires PrevFree(st.blocks, i) && NextFree(st.blocks, i)
    ensures var q, n := st.blocks[i - 1], st.blocks[i + 1];
      FreeStep(m, FreeTags(RemoveLinks(m, n.at), q.at, n.End()), p, st, i)
  {
    hide Holed, Sound, Full, Seg, Place.Ok, FreeAt, ClientWord, FreeTags, RemoveLinks, InsertAfterLinks, ReplaceLinks, FreeStep, Freed, Removed;
    var s := st.blocks;
    var q, b, n, pre, post := s[i - 1], s[i], s[i + 1], s[..i - 1], s[i + 2..];
    Bounds(m, p, st, i);
    Bounds(m, p, st, i - 1);
    Bounds(m, p, st, i + 1);
    OpenBlocks(m, p, st, i - 1, i + 2);
    SliceThree(s, i - 1);
    var h := Hole(pre, q.at, [q, b, n], n.End(), post);
    var merged := Blk(q.at, n.End() - q.at, false);
    ThreeAt(q, b, n);
    OneAt(merged, q.at, n.End());
    Listed(m, p, st, i + 1);
    FreedBetween(st, i);
    var j := IndexOf(st.list, n.at);
    HoledRemove(m, p, h, [merged], false, st.list, j);
    FreeFinish(m, RemoveLinks(m, n.at), p, st, i, pre, q.at, n.End(), post, false, Removed(st.list, j));
  }

  // ---- allocating ----

  lemma WholeUsed(m: Mem, x: int, y: int, prevUsed: bool)
    requires x % PAGE_SIZE == 0 && y % PAGE_SIZE == 0 && x + MIN_BLOCK_SIZE <= y
    requires SizeWord(m, x) == y - x + Flag(prevUsed)
    ensures Seg(m, [Blk(x, y - x, true)], x, prevUsed, y)
  {
    assert Seg(m, [Blk(x, y - x, true)][1..], y, true, y);
  }

  // The hole becomes one block in use.
  lemma SplitWhole(m: Mem, p: Place, pre: seq<Blk>, x: int, y: int, post: seq<Blk>, list: seq<int>)
    requires x % PAGE_SIZE == 0 && y % PAGE_SIZE == 0
    requires Holed(m, p, Hole(pre, x, [], y, post), false, list)
    requires SizeWord(m, x) == y - x + Flag(UsedAfter(pre, true))
    requires SizeWord(m, y) % 2 == 0
    ensures var m' := m[SizeAt(y) := BlockSize(m, y) + Flag(true)];
      && Sound(m', p, State(pre + [Blk(x, y - x, true)] + post, list))
      && forall a :: ClientWord(pre, a) || ClientWord(post, a) ==> Load(m, a) == Load(m', a)
  {
    var m' := m[SizeAt(y) := BlockSize(m, y) + Flag(true)];
    var b := Blk(x, y - x, true);
    var h := Hole(pre, x, [b], y, post);
    HoledRange(m, p, Hole(pre, x, [], y, post), false, list);
    OneAt(b, x, y);
    HoledReplan(m, p, Hole(pre, x, [], y, post), [b], false, list);
    HoledRewrite(m, m', p, h, false, true, list);
    WholeUsed(m', x, y, UsedAfter(pre, true));
    HoledClose(m', p, h, true, list);
  }

  lemma UsedThenFree(m: Mem, x: int, z: int, y: int, prevUsed: bool)
    requires x % PAGE_SIZE == 0 && y % PAGE_SIZE == 0 && z % PAGE_SIZE == 0
    requires x + MIN_BLOCK_SIZE <= z && z + MIN_BLOCK_SIZE <= y
    requires SizeWord(m, x) == z - x + Flag(prevUsed)
    requires SizeWord(m, z) == y - z + Flag(true) && Load(m, y) == y - z
    ensures Seg(m, [Blk(x, z - x, true), Blk(z, y - z, false)], x, prevUsed, y)
  {
    OneFree(m, z, y);
    assert [Blk(x, z - x, true), Blk(z, y - z, false)][1..] == [Blk(z, y - z, false)];
  }

  // What __heap_block_split stores when it cuts a free block off at z.
  function SplitTags(m: Mem, anchor: int, x: int, z: int, y: int): Mem {
    var m1 := m[SizeAt(x) := z - x + SizeWord(m, x) % 2];
    var m2 := InsertAfterLinks(m1, anchor, z);
    var m3 := m2[SizeAt(z) := y - z + Flag(true)];
    var m4 := m3[PrevSizeAt(y) := y - z];
    m4[SizeAt(y) := BlockSize(m4, y)]
  }

  // Up to the links: the sizes of the front and the list of the rest.
  lemma SplitLinks(m: Mem, p: Place, pre: seq<Blk>, x: int, z: int, y: int, post: seq<Blk>, list: seq<int>, j: int)
    requires x % PAGE_SIZE == 0 && y % PAGE_SIZE == 0 && z % PAGE_SIZE == 0
    requires x + MIN_BLOCK_SIZE <= z && z + MIN_BLOCK_SIZE <= y
    requires Holed(m, p, Hole(pre, x, [], y, post), false, list) && 0 <= j <= |list|
    requires post == [] || post[0].used
    ensures var m2 := InsertAfterLinks(m[SizeAt(x) := z - x + SizeWord(m, x) % 2], Ring(p.head, list)[j], z);
      && Holed(m2, p, Hole(pre, x, [Blk(x, z - x, true), Blk(z, y - z, false)], y, post), false, Inserted(list, j, z))
      && SizeWord(m2, x) == z - x + SizeWord(m, x) % 2 && SizeWord(m2, y) == SizeWord(m, y)
      && forall a :: ClientWord(pre, a) || ClientWord(post, a) ==> Load(m, a) == Load(m2, a)
  {
    hide Holed, Full, Seg, Place.Ok, InsertAfterLinks, Inserted;
    var used, rest := Blk(x, z - x, true), Blk(z, y - z, false);
    var h0 := Hole(pre, x, [], y, post);
    HoledRange(m, p, h0, false, list);
    var m1 := m[SizeAt(x) := z - x + SizeWord(m, x) % 2];
    HoledRewrite(m, m1, p, h0, false, false, list);
    OneAt(rest, 0, 0);
    MoreAt(used, [rest]);
    assert [used] + [rest] == [used, rest];
    assert Plan([used, rest], x, y);
    HoledInsert(m1, p, h0, [used, rest], false, list, j, z);
    LinksOfRest(used, rest);
  }

  lemma LinksOfRest(used: Blk, rest: Blk)
    requires used.used && used.size >= MIN_BLOCK_SIZE && rest.at == used.End()
    ensures !LinkOfFree([used, rest], SizeAt(used.at))
  {
  }

  // The hole becomes a block in use and, behind it, a free one.
  lemma SplitRest(m: Mem, p: Place, pre: seq<Blk>, x: int, z: int, y: int, post: seq<Blk>, list: seq<int>, j: int)
    requires x % PAGE_SIZE == 0 && y % PAGE_SIZE == 0 && z % PAGE_SIZE == 0
    requires x + MIN_BLOCK_SIZE <= z && z + MIN_BLOCK_SIZE <= y
    requires Holed(m, p, Hole(pre, x, [], y, post), false, list) && 0 <= j <= |list|
    requires post == [] || post[0].used
    requires SizeWord(m, x) % 2 == Flag(UsedAfter(pre, true))
    requires SizeWord(m, y) % 2 == 0
    ensures var m' := SplitTags(m, Ring(p.head, list)[j], x, z, y);
      && Sound(m', p, State(pre + [Blk(x, z - x, true), Blk(z, y - z, false)] + post, Inserted(list, j, z)))
      && forall a :: ClientWord(pre, a) || ClientWord(post, a) ==> Load(m, a) == Load(m', a)
  {
    hide Holed, Full, Seg, Place.Ok, InsertAfterLinks, Sound, ClientWord, Inserted;
    var h := Hole(pre, x, [Blk(x, z - x, true), Blk(z, y - z, false)], y, post);
    SplitLinks(m, p, pre, x, z, y, post, list, j);
    var m2 := InsertAfterLinks(m[SizeAt(x) := z - x + SizeWord(m, x) % 2], Ring(p.head, list)[j], z);
    var m' := SplitTags(m, Ring(p.head, list)[j], x, z, y);
    SplitFinish(m2, m', p, h, Inserted(list, j, z));
    UsedThenFree(m', x, z, y, UsedAfter(pre, true));
    HoledClose(m', p, h, false, Inserted(list, j, z));
    MakeSound(m', p, h, false, Inserted(list, j, z));
  }

  lemma MakeSound(m: Mem, p: Place, h: Hole, used: bool, list: seq<int>)
    requires Holed(m, p, h, used, list)
    requires Full(m, h.pre + h.mid + h.post, p.first, true, p.first, p.last) && FreeIs(h.pre + h.mid + h.post, list)
    ensures Sound(m, p, State(h.pre + h.mid + h.post, list))
  {
  }

  lemma SplitFinish(m2: Mem, m': Mem, p: Place, h: Hole, list: seq<int>)
    requires |h.mid| == 2 && h.mid[0] == Blk(h.x, h.mid[1].at - h.x, true) && h.mid[1] == Blk(h.mid[1].at, h.y - h.mid[1].at, false)
    requires Holed(m2, p, h, false, list) && (h.post == [] || h.post[0].used)
    requires SizeWord(m2, h.y) % 2 == 0
    requires var z := h.mid[1].at;
      m' == m2[SizeAt(z) := h.y - z + Flag(true)][PrevSizeAt(h.y) := h.y - z][SizeAt(h.y) := SizeWord(m2, h.y)]
    ensures Holed(m', p, h, false, list)
    ensures forall a :: ClientWord(h.pre, a) || ClientWord(h.post, a) ==> Load(m2, a) == Load(m', a)
    ensures SizeWord(m', h.x) == SizeWord(m2, h.x)
  {
    HoledRange(m2, p, h, false, list);
    var z := h.mid[1].at;
    assert forall f :: FreeAt(h.mid, f) ==> f == z;
    assert HoleWord(h, SizeAt(z)) && HoleWord(h, h.y);
    HoledRewrite(m2, m', p, h, false, false, list);
  }

  lemma UpToPage(v: int)
    ensures AlignUp(v, PAGE_SIZE) % PAGE_SIZE == 0 && v <= AlignUp(v, PAGE_SIZE) < v + PAGE_SIZE
  {
  }

  lemma SamePage(v: int, w: int, limit: int)
    requires w % PAGE_SIZE == 0 && limit % PAGE_SIZE == 0 && v <= limit && w < v + PAGE_SIZE
    ensures w <= limit
  {
  }

  // How much of a block of n bytes a request takes: whole pages, room enough, and either all
  // of it or at least a minimal block less.
  lemma TakenFits(n: int, allocSize: int)
    requires n % PAGE_SIZE == 0 && n >= MIN_BLOCK_SIZE && UsedSize(allocSize) <= n + ALLOC_BONUS
    ensures var u := Taken(n, allocSize);
      && u % PAGE_SIZE == 0 && MIN_BLOCK_SIZE <= u <= n
      && (u < n ==> u + MIN_BLOCK_SIZE <= n)
      && (u < n <==> n + ALLOC_BONUS - UsedSize(allocSize) >= MIN_BLOCK_SIZE + ALLOC_BONUS)
      && HEADER_SIZE + allocSize <= u + ALLOC_BONUS
  {
    UpToPage(UsedSize(allocSize));
    if UsedSize(allocSize) <= n - MIN_BLOCK_SIZE {
      SamePage(UsedSize(allocSize), AlignUp(UsedSize(allocSize), PAGE_SIZE), n - MIN_BLOCK_SIZE);
    }
  }

  lemma PageSum(a: int, b: int)
    requires a % PAGE_SIZE == 0 && b % PAGE_SIZE == 0
    ensures (a + b) % PAGE_SIZE == 0 && (a - b) % PAGE_SIZE == 0
  {
  }

  // The block two on from the hole is never free: behind a block in use comes its flag, and
  // the last block's wrap-around size leads to the first block.
  // With nothing behind the hole the last block's size leads round to the first block.
  lemma RoundTheEnd(m: Mem, p: Place, pre: seq<Blk>, x: int, list: seq<int>)
    requires Holed(m, p, Hole(pre, x, [], p.last, []), false, list)
    requires pre == [] ==> PrevUsed(m, x)
    ensures PrevUsed(m, BlockAt(p.last, BlockSize(m, p.last)))
  {
    HoledRange(m, p, Hole(pre, x, [], p.last, []), false, list);
    WrapEven(p.first, p.last);
    Parity(WrapSize(p.first, p.last), false);
    WrapsToFirst(p.first, p.last);
    if pre != [] { Parity(pre[0].size, true); }
  }

  // The block behind the hole is used, as the flag of the one after it says.
  lemma BehindUsed(m: Mem, p: Place, post: seq<Blk>, y: int)
    requires p.Ok() && Full(m, post, y, false, p.first, p.last) && post != [] && post[0].used
    requires 0 <= y && p.last < TWO64
    ensures PrevUsed(m, BlockAt(y, BlockSize(m, y)))
  {
    var b := post[0];
    BlockFacts(m, post, y, false, p.last, 0);
    Parity(b.size, false);
    NoWrap(y, b.size);
    if |post| > 1 {
      BlockFacts(m, post, y, false, p.last, 1);
      Parity(post[1].size, true);
    } else {
      WrapEven(p.first, p.last);
      Parity(WrapSize(p.first, p.last), true);
    }
  }

  lemma NextNextUsed(m: Mem, p: Place, pre: seq<Blk>, x: int, y: int, post: seq<Blk>, list: seq<int>)
    requires Holed(m, p, Hole(pre, x, [], y, post), false, list)
    requires post == [] || post[0].used
    requires pre == [] ==> PrevUsed(m, x)
    ensures PrevUsed(m, BlockAt(y, BlockSize(m, y)))
  {
    hide PrevUsed, BlockAt, BlockSize;
    HoledRange(m, p, Hole(pre, x, [], y, post), false, list);
    if post == [] { RoundTheEnd(m, p, pre, x, list); } else { BehindUsed(m, p, post, y); }
  }

  lemma WrapsToFirst(first: int, last: int)
    requires 0 <= first < TWO64
    ensures BlockAt(last, WrapSize(first, last)) == first
  {
  }

  lemma InTheArena(m: Mem, p: Place, h: Hole, used: bool, list: seq<int>)
    requires Holed(m, p, h, used, list)
    ensures 0 <= p.first <= h.x && h.x + MIN_BLOCK_SIZE <= h.y <= p.last && p.last + HEADER_SIZE <= TWO64
    ensures h.pre == [] ==> h.x == p.first
  {
    HoledRange(m, p, h, used, list);
  }

  // Rewriting a size word keeps the flag of another block.
  lemma FlagElsewhere(m: Mem, b: int, v: int, c: int)
    requires PrevUsed(m, c) && v % PAGE_SIZE == 0
    ensures PrevUsed(m[SizeAt(b) := v + SizeWord(m, b) % 2], c)
  {
    var f := PrevUsed(m, b);
    assert SizeWord(m, b) % 2 == Flag(f);
    Parity(v, f);
  }

  lemma ReadSize(m: Mem, b: int, size: int, used: bool)
    requires size % PAGE_SIZE == 0 && SizeWord(m, b) == size + Flag(used)
    ensures BlockSize(m, b) == size && SizeWord(m, b) % 2 == Flag(used) && PrevUsed(m, b) == used
  {
    Parity(size, used);
  }

  // ---- taking a free block ----

  // A place in free block b where size bytes can go.
  predicate Fits(b: Blk, begin: int, size: int) {
    var offset := begin - HEADER_SIZE - b.at;
    && offset % PAGE_SIZE == 0 && (offset == 0 || offset >= MIN_BLOCK_SIZE)
    && b.size - offset >= MIN_BLOCK_SIZE
    && UsedSize(size) <= b.size - offset + ALLOC_BONUS
  }

  // Unlinking a free block leaves a hole in its place.
  lemma TakeOff(m: Mem, p: Place, st: State, i: int, j: int)
    requires Sound(m, p, st) && 0 <= i < |st.blocks| && 0 <= j < |st.list|
    requires !st.blocks[i].used && st.list[j] == st.blocks[i].at
    ensures var b, pre, post := st.blocks[i], st.blocks[..i], st.blocks[i + 1..];
      var m' := RemoveLinks(m, b.at);
      && Holed(m', p, Hole(pre, b.at, [], b.End(), post), false, Removed(st.list, j))
      && SizeWord(m', b.at) == b.size + Flag(true) && UsedAfter(pre, true)
      && SizeWord(m', b.End()) % 2 == 0
      && (post == [] || post[0].used)
      && forall a :: ClientWord(st.blocks, a) ==> Load(m, a) == Load(m', a)
    ensures Load(m, PrevAt(st.blocks[i].at)) == Ring(p.head, Removed(st.list, j))[j]
  {
    AnchorOf(m, p, st, j);
    hide Holed, Sound, Full, Seg, Place.Ok, RemoveLinks, Removed, Ring, UsedAfter, FreeAt, ClientWord;
    var b, pre, post := st.blocks[i], st.blocks[..i], st.blocks[i + 1..];
    Bounds(m, p, st, i);
    HeaderOf(m, p, st, i);
    OpenBlocks(m, p, st, i, i + 1);
    assert st.blocks[i..i + 1] == [b];
    OneAt(b, 0, 0);
    var h := Hole(pre, b.at, [b], b.End(), post);
    NoneAt(b.at, b.End());
    LinksOfOne(b);
    HoledRemove(m, p, h, [], false, st.list, j);
    ClientOfFree(st.blocks, i);
  }

  lemma ClientOfFree(s: seq<Blk>, i: int)
    requires 0 <= i < |s| && !s[i].used
    ensures forall a :: ClientWord(s, a) ==> ClientWord(s[..i], a) || ClientWord(s[i + 1..], a)
  {
    ClientSides(s[..i], s[i], s[i + 1..]);
    assert s == s[..i] + [s[i]] + s[i + 1..];
  }

  lemma HeaderOf(m: Mem, p: Place, st: State, i: int)
    requires Sound(m, p, st) && 0 <= i < |st.blocks| && !st.blocks[i].used
    ensures SizeWord(m, st.blocks[i].at) == st.blocks[i].size + Flag(true)
    ensures UsedAfter(st.blocks[..i], true)
  {
    BlockFacts(m, st.blocks, p.first, true, p.last, i);
    if i > 0 { BlockFacts(m, st.blocks, p.first, true, p.last, i - 1); }
  }

  lemma AnchorOf(m: Mem, p: Place, st: State, j: int)
    requires Sound(m, p, st) && 0 <= j < |st.list|
    ensures Load(m, PrevAt(st.list[j])) == Ring(p.head, st.list)[j]
    ensures Ring(p.head, st.list)[j] == Ring(p.head, Removed(st.list, j))[j]
  {
    assert LinkAt(m, Ring(p.head, st.list), j);
  }

  // What __heap_block_allocate_from_end stores before it splits.
  function CutTags(m: Mem, anchor: int, x: int, z: int, y: int): Mem {
    var m1 := InsertAfterLinks(m, anchor, x);
    var m2 := m1[SizeAt(x) := z - x + Flag(true)];
    var m3 := m2[PrevSizeAt(z) := z - x];
    m3[SizeAt(z) := y - z]
  }

  // The front of the hole becomes a free block again; the hole shrinks to [z, y).
  lemma CutEnd(m: Mem, p: Place, pre: seq<Blk>, x: int, z: int, y: int, post: seq<Blk>, list: seq<int>, j: int)
    requires x % PAGE_SIZE == 0 && z % PAGE_SIZE == 0
    requires x + MIN_BLOCK_SIZE <= z && z + MIN_BLOCK_SIZE <= y
    requires Holed(m, p, Hole(pre, x, [], y, post), false, list) && 0 <= j <= |list|
    requires UsedAfter(pre, true) && SizeWord(m, y) % 2 == 0 && (post == [] || post[0].used)
    ensures var m' := CutTags(m, Ring(p.head, list)[j], x, z, y);
      && Holed(m', p, Hole(pre + [Blk(x, z - x, false)], z, [], y, post), false, Inserted(list, j, x))
      && SizeWord(m', z) == y - z && SizeWord(m', y) % 2 == 0
      && forall a :: ClientWord(pre, a) || ClientWord(post, a) ==> Load(m, a) == Load(m', a)
  {
    hide Holed, Full, Seg, Place.Ok, InsertAfterLinks;
    var front := Blk(x, z - x, false);
    var h0, h := Hole(pre, x, [], y, post), Hole(pre, x, [front], y, post);
    HoledRange(m, p, h0, false, list);
    OneAt(front, x, y);
    HoledInsert(m, p, h0, [front], false, list, j, x);
    var m1 := InsertAfterLinks(m, Ring(p.head, list)[j], x);
    var m' := CutTags(m, Ring(p.head, list)[j], x, z, y);
    assert HoleWord(h, SizeAt(x)) && HoleWord(h, PrevSizeAt(z)) && HoleWord(h, SizeAt(z));
    HoledRewrite(m1, m', p, h, false, false, Inserted(list, j, x));
    OneFree(m', x, z);
    ShrinkHole(m', p, h, z, Inserted(list, j, x));
  }

  lemma ShrinkHole(m: Mem, p: Place, h: Hole, z: int, list: seq<int>)
    requires Holed(m, p, h, false, list) && h.mid == [Blk(h.x, z - h.x, false)] && z + MIN_BLOCK_SIZE <= h.y
    requires Seg(m, h.mid, h.x, true, z) && UsedAfter(h.pre, true)
    ensures Holed(m, p, Hole(h.pre + h.mid, z, [], h.y, h.post), false, list)
  {
    SegJoin(m, h.pre, h.mid, p.first, true, h.x, z);
    forall a
      ensures a in list <==> FreeAt(h.pre + h.mid, a) || FreeAt([], a) || FreeAt(h.post, a)
    {
      FreeAtConcat(h.pre, h.mid, a);
    }
  }

  // The picture after allocating, in terms of the splits above.
  lemma AllocatedBegin(st: State, i: int, j: int, begin: int, size: int)
    requires 0 <= i < |st.blocks| && 0 <= j < |st.list| && begin == st.blocks[i].at + HEADER_SIZE
    ensures var b, pre, post, list := st.blocks[i], st.blocks[..i], st.blocks[i + 1..], Removed(st.list, j);
      var u := Taken(b.size, size);
      Allocated(st, i, j, begin, size) ==
      if u < b.size
      then State(pre + [Blk(b.at, u, true), Blk(b.at + u, b.size - u, false)] + post, Inserted(list, j, b.at + u))
      else State(pre + [Blk(b.at, u, true)] + post, list)
  {
    hide Taken;
    var b := st.blocks[i];
    var u := Taken(b.size, size);
    assert Inserted(Removed(st.list, j), j, b.at + u) == st.list[j := b.at + u];
    assert Pieces(b, 0, size) == if u < b.size then [Blk(b.at, u, true), Blk(b.at + u, b.size - u, false)] else [Blk(b.at, u, true)];
  }

  lemma AllocatedEnd(st: State, i: int, j: int, begin: int, size: int)
    requires 0 <= i < |st.blocks| && 0 <= j < |st.list| && begin > st.blocks[i].at + HEADER_SIZE
    requires st.list[j] == st.blocks[i].at
    ensures var b, post, list := st.blocks[i], st.blocks[i + 1..], Inserted(Removed(st.list, j), j, st.blocks[i].at);
      var x := begin - HEADER_SIZE;
      var pre, n := st.blocks[..i] + [Blk(b.at, x - b.at, false)], b.End() - x;
      var u := Taken(n, size);
      Allocated(st, i, j, begin, size) ==
      if u < n
      then State(pre + [Blk(x, u, true), Blk(x + u, n - u, false)] + post, Inserted(list, j + 1, x + u))
      else State(pre + [Blk(x, u, true)] + post, list)
  {
    hide Taken, Pieces, Removed, Inserted;
    var b := st.blocks[i];
    var x := begin - HEADER_SIZE;
    var front, n := [Blk(b.at, x - b.at, false)], b.End() - x;
    var u := Taken(n, size);
    PutBackAt(st.list, j);
    var back := if u < n then [Blk(x, u, true), Blk(x + u, n - u, false)] else [Blk(x, u, true)];
    PiecesEnd(b, x, size);
    assert st.blocks[..i] + (front + back) == st.blocks[..i] + front + back;
  }

  lemma PutBackAt(list: seq<int>, j: int)
    requires 0 <= j < |list|
    ensures Inserted(Removed(list, j), j, list[j]) == list
  {
  }

  lemma PiecesEnd(b: Blk, x: int, size: int)
    requires x > b.at
    ensures var n := b.End() - x; var u := Taken(n, size);
      Pieces(b, x - b.at, size) == [Blk(b.at, x - b.at, false)]
                                   + if u < n then [Blk(x, u, true), Blk(x + u, n - u, false)] else [Blk(x, u, true)]
  {
    hide Taken;
  }

  lemma ClientPrefix(pre: seq<Blk>, more: seq<Blk>)
    ensures forall a :: ClientWord(pre, a) ==> ClientWord(pre + more, a)
  {
    forall a | ClientWord(pre, a)
      ensures ClientWord(pre + more, a)
    {
      FreeAtConcat(pre, more, a);
    }
  }

  lemma RemovedLength(list: seq<int>, j: int)
    requires 0 <= j < |list|
    ensures |Removed(list, j)| == |list| - 1
  {
  }

  lemma GridPoint(block: int, offset: int)
    requires block % PAGE_SIZE == 0 && offset % PAGE_SIZE == 0
    ensures (block + HEADER_SIZE + offset) % PAGE_SIZE == 0
  {
  }

  // ---- searching the list ----

  lemma FirstNode(m: Mem, p: Place, st: State, j: int)
    requires Sound(m, p, st) && 0 <= j <= |st.list|
    ensures Load(m, NextAt(Ring(p.head, st.list)[j])) == Ring(p.head, st.list)[j + 1]
  {
    assert LinkAt(m, Ring(p.head, st.list), j);
  }

  // The node at position j is a free block with the previous one in use; past the last node
  // comes the sentinel.
  lemma OnList(m: Mem, p: Place, st: State, j: int)
    requires Sound(m, p, st) && 0 <= j <= |st.list|
    requires Ring(p.head, st.list)[j + 1] != p.head
    ensures j < |st.list| && Ring(p.head, st.list)[j + 1] == st.list[j]
    ensures var i := BlockIndex(st.blocks, st.list[j]);
      && i < |st.blocks| && st.blocks[i].at == st.list[j] && !st.blocks[i].used
      && SizeWord(m, st.list[j]) == st.blocks[i].size + Flag(true)
      && BlockSize(m, st.list[j]) == st.blocks[i].size
      && Shape(st.blocks[i]) && 0 <= st.blocks[i].at
  {
    var a := st.list[j];
    assert a in st.list;
    var k := FreeIndex(m, p, st, a);
    var i := BlockIndex(st.blocks, a);
    SameStart(m, p, st, i, k);
    BlockFacts(m, st.blocks, p.first, true, p.last, i);
    HeaderOf(m, p, st, i);
    Parity(st.blocks[i].size, true);
  }

  lemma ListEnds(m: Mem, p: Place, st: State, j: int)
    requires Sound(m, p, st) && 0 <= j <= |st.list| && Ring(p.head, st.list)[j + 1] == p.head
    ensures j == |st.list|
  {
    SegRange(m, st.blocks, p.first, true, p.last);
    assert j < |st.list| ==> st.list[j] in st.list && FreeAt(st.blocks, st.list[j]);
  }

  lemma SameStart(m: Mem, p: Place, st: State, i: int, k: int)
    requires Sound(m, p, st) && 0 <= i < |st.blocks| && 0 <= k < |st.blocks|
    requires st.blocks[i].at == st.blocks[k].at
    ensures i == k
  {
    SegRange(m, st.blocks, p.first, true, p.last);
    if i < k { BlocksApart(m, st.blocks, p.first, true, p.last, i, k); }
    if k < i { BlocksApart(m, st.blocks, p.first, true, p.last, k, i); }
  }

  lemma SmallEnough(size: int)
    requires 0 <= size < TWO64 && (size + HEADER_SIZE - ALLOC_BONUS) % TWO64 >= size
    ensures (size + HEADER_SIZE - ALLOC_BONUS) % TWO64 == size + HEADER_SIZE - ALLOC_BONUS
  {
  }

  // A size that overflows is larger than any block.
  lemma {:induction false} TooLarge(m: Mem, p: Place, st: State, size: int, alignment: int, j: nat)
    requires Sound(m, p, st) && 0 <= size < TWO64 && alignment >= 0 && j <= |st.list|
    requires (size + HEADER_SIZE - ALLOC_BONUS) % TWO64 < size
    ensures FirstFit(st, j, size, alignment) == |st.list|
    decreases |st.list| - j
  {
    if j < |st.list| {
      var a := st.list[j];
      assert a in st.list;
      var k := FreeIndex(m, p, st, a);
      BlockFacts(m, st.blocks, p.first, true, p.last, BlockIndex(st.blocks, a));
      assert size + HEADER_SIZE - ALLOC_BONUS >= TWO64;
      TooLarge(m, p, st, size, alignment, j + 1);
    }
  }

  lemma FirstFitStep(st: State, j: nat, size: int, alignment: int)
    requires j < |st.list| && alignment >= 0
    ensures FirstFit(st, j, size, alignment)
      == if StartIn(BlkAt(st.blocks, st.list[j]), size, alignment) != 0 then j else FirstFit(st, j + 1, size, alignment)
  {
  }

  lemma FirstFitEnd(st: State, j: nat, size: int, alignment: int)
    requires j == |st.list| && alignment >= 0
    ensures FirstFit(st, j, size, alignment) == j
  {
  }

  // [begin, begin + size) meets no area in use.
  ghost predicate ApartFromUsed(s: seq<Blk>, begin: int, size: int) {
    forall k :: 0 <= k < |s| && s[k].used ==> begin + size <= s[k].at + HEADER_SIZE || s[k].End() + ALLOC_BONUS <= begin
  }

  // Whatever the alignment, the area starts behind the header of free block i and ends within
  // the borrowed word behind it: inside the heap, and clear of every area in use.
  lemma AreaIsApart(m: Mem, p: Place, st: State, i: int, size: int, alignment: int)
    requires Sound(m, p, st) && 0 <= i < |st.blocks| && !st.blocks[i].used
    requires size >= 0 && alignment >= 0 && StartIn(st.blocks[i], size, alignment) != 0
    ensures var begin := StartIn(st.blocks[i], size, alignment);
      && (alignment != 0 ==> begin % alignment == 0)
      && p.first + HEADER_SIZE <= begin && begin + size <= p.last + ALLOC_BONUS
      && ApartFromUsed(st.blocks, begin, size)
  {
    hide StartIn;
    var s, b := st.blocks, st.blocks[i];
    BlockFacts(m, s, p.first, true, p.last, i);
    StartInside(b, size, alignment);
    forall k | 0 <= k < |s| && s[k].used
      ensures var begin := StartIn(b, size, alignment);
        begin + size <= s[k].at + HEADER_SIZE || s[k].End() + ALLOC_BONUS <= begin
    {
      if k < i { BlocksApart(m, s, p.first, true, p.last, k, i); } else { BlocksApart(m, s, p.first, true, p.last, i, k); }
    }
  }

  // On the page grid the request fits the block.
  lemma AllocationFits(m: Mem, p: Place, st: State, i: int, size: int, alignment: int)
    requires Sound(m, p, st) && 0 <= i < |st.blocks| && !st.blocks[i].used
    requires size >= 0 && alignment >= 0 && (alignment == 0 || PowerOfTwo(alignment))
    requires StartIn(st.blocks[i], size, alignment) != 0 && PageGrid(size, alignment)
    ensures var begin := StartIn(st.blocks[i], size, alignment);
      Fits(st.blocks[i], begin, size) && begin % PAGE_SIZE == 0 && begin - HEADER_SIZE >= st.blocks[i].at
  {
    hide PowerOfTwo, PageGrid, StartIn, UsedSize;
    BlockFacts(m, st.blocks, p.first, true, p.last, i);
    StartInside(st.blocks[i], size, alignment);
    StartFits(st.blocks[i], size, alignment);
    StartOnGrid(st.blocks[i], size, alignment);
  }

  // Off the page grid no sound heap has the block that the answer calls for.
  lemma OffGridIsUnsound(b: Blk, size: int, alignment: int, m: Mem, p: Place, st: State, k: int)
    requires Shape(b) && size >= 0 && alignment >= 0 && (alignment == 0 || PowerOfTwo(alignment))
    requires StartIn(b, size, alignment) != 0 && !PageGrid(size, alignment)
    requires 0 <= k < |st.blocks| && st.blocks[k].at == StartIn(b, size, alignment) - HEADER_SIZE
    ensures !Sound(m, p, st)
  {
    hide PowerOfTwo, PageGrid, StartIn;
    StartOnGrid(b, size, alignment);
    OffsetOnGrid(StartIn(b, size, alignment));
    if Sound(m, p, st) { BlockFacts(m, st.blocks, p.first, true, p.last, k); }
  }

  lemma OffsetOnGrid(v: int)
    ensures (v - HEADER_SIZE) % PAGE_SIZE == 0 ==> v % PAGE_SIZE == 0
  {
  }

  // ---- what a whole run keeps ----

  // Block sizes always add up to what heapInit returned.
  lemma SizesAddUp(m: Mem, p: Place, st: State)
    requires Sound(m, p, st)
    ensures SumSizes(st.blocks) == p.last - p.first
  {
    SegSum(m, st.blocks, p.first, true, p.last);
  }

  // With nothing in use the heap is one free block again.
  lemma AllFree(m: Mem, p: Place, st: State)
    requires Sound(m, p, st) && forall a :: !UsedAt(st.blocks, a)
    ensures st == State([Blk(p.first, p.last - p.first, false)], [p.first])
  {
    var s := st.blocks;
    forall i | 0 <= i < |s|
      ensures !s[i].used
    {
      assert !UsedAt(s, s[i].at);
    }
    SegAllFree(m, s, p.first, true, p.last);
    forall a
      ensures a in st.list <==> a == p.first
    {
      assert s[0].at == p.first;
    }
    OnlyOne(st.list, p.first);
  }

  lemma OnlyOne(list: seq<int>, a: int)
    requires Distinct(list) && forall x :: x in list <==> x == a
    ensures list == [a]
  {
    assert a in list;
    assert list[0] in list && list[|list| - 1] in list;
  }

  // Freeing block i takes exactly that block out of use.
  lemma FreedUse(m: Mem, p: Place, st: State, i: int, a: int)
    requires Sound(m, p, st) && 0 <= i < |st.blocks| && st.blocks[i].used
    ensures UsedAt(Freed(st, i).blocks, a) <==> UsedAt(st.blocks, a) && a != st.blocks[i].at
  {
    hide Sound, UsedAt, FreeAt, ClientWord;
    var s := st.blocks;
    var lo := if PrevFree(s, i) then i - 1 else i;
    var hi := if NextFree(s, i) then i + 2 else i + 1;
    var merged := Blk(s[lo].at, s[hi - 1].End() - s[lo].at, false);
    SpliceAt(s[..lo], [merged], s[hi..], a);
    NotUsed(merged, a);
    UsedAround(s, lo, i, hi, a);
    OthersUsed(m, p, st, lo, i, hi, a);
  }

  lemma NotUsed(b: Blk, a: int)
    requires !b.used
    ensures !UsedAt([b], a)
  {
    assert [b][0] == b;
  }

  // Between lo and hi only block i is in use.
  lemma UsedAround(s: seq<Blk>, lo: int, i: int, hi: int, a: int)
    requires 0 <= lo <= i < hi <= |s|
    requires forall k :: lo <= k < hi && k != i ==> !s[k].used
    requires s[i].used
    ensures UsedAt(s, a) <==> UsedAt(s[..lo], a) || a == s[i].at || UsedAt(s[hi..], a)
  {
    assert s[..lo] + s[lo..hi] == s[..hi];
    assert s == s[..lo] + s[lo..hi] + s[hi..];
    SpliceAt(s[..lo], s[lo..hi], s[hi..], a);
    assert s[lo..hi][i - lo] == s[i];
  }

  lemma OthersUsed(m: Mem, p: Place, st: State, lo: int, i: int, hi: int, a: int)
    requires Sound(m, p, st) && 0 <= lo <= i < hi <= |st.blocks| && st.blocks[i].used
    ensures a == st.blocks[i].at ==> UsedAt(st.blocks, a) && !UsedAt(st.blocks[..lo], a) && !UsedAt(st.blocks[hi..], a)
  {
    var s := st.blocks;
    forall k | 0 <= k < |s| && k != i
      ensures s[k].at != s[i].at
    {
      if s[k].at == s[i].at { SameStart(m, p, st, i, k); }
    }
    assert forall k :: 0 <= k < |s[hi..]| ==> s[hi..][k] == s[k + hi];
  }

  // Allocating from block i puts exactly the new block in use.
  lemma AllocatedUse(st: State, i: int, j: int, begin: int, size: int, a: int)
    requires 0 <= i < |st.blocks| && 0 <= j < |st.list| && !st.blocks[i].used
    requires begin - HEADER_SIZE >= st.blocks[i].at
    ensures UsedAt(Allocated(st, i, j, begin, size).blocks, a) <==> UsedAt(st.blocks, a) || a == begin - HEADER_SIZE
  {
    var s, b := st.blocks, st.blocks[i];
    var offset := begin - HEADER_SIZE - b.at;
    SpliceAt(s[..i], Pieces(b, offset, size), s[i + 1..], a);
    SpliceAt(s[..i], [b], s[i + 1..], a);
    assert s == s[..i] + [b] + s[i + 1..];
    NotUsed(b, a);
    PiecesUse(b, offset, size, a);
  }

  lemma PiecesUse(b: Blk, offset: int, size: int, a: int)
    requires offset >= 0
    ensures UsedAt(Pieces(b, offset, size), a) <==> a == b.at + offset
  {
    hide Taken;
    var mid := Pieces(b, offset, size);
    var k := if offset > 0 then 1 else 0;
    assert mid[k].used && mid[k].at == b.at + offset;
    assert forall l :: 0 <= l < |mid| && l != k ==> !mid[l].used;
  }

  // Where heapInit puts the first block of an arena.
  function FirstBlockOf(start: int): int {
    AlignUp(start + HEADER_SIZE, PAGE_SIZE) - HEADER_SIZE
  }

  datatype Layout = NoRoom | Room(first: int, last: int)

  // __heap_get_first_last_block, with its wrapping arithmetic.
  function FirstLast(start: int, size: int): Layout {
    var heapEnd := (start + size) % TWO64;
    var allocBegin := AlignUp(start + HEADER_SIZE, PAGE_SIZE) % TWO64;
    var first := (allocBegin - HEADER_SIZE) % TWO64;
    var overhead := HEADER_SIZE + (first - start) % TWO64;
    var firstSize := AlignDown((size - overhead) % TWO64, PAGE_SIZE);
    if heapEnd < start || size <= overhead || firstSize < MIN_BLOCK_SIZE then NoRoom
    else Room(first, BlockAt(first, firstSize))
  }

  // The sum of two 64-bit numbers wraps below either of them.
  lemma WrapsBelow(a: int, b: int)
    requires 0 <= a < TWO64 && 0 <= b < TWO64
    ensures (a + b) % TWO64 == if a + b < TWO64 then a + b else a + b - TWO64
  {
  }

  // There is room exactly when the arena does not wrap and holds a minimal block and the
  // end marker behind the first block; then the last block is as far up as pages allow.
  lemma FirstLastBounds(start: int, size: int)
    requires 0 <= start < TWO64 && 0 <= size < TWO64
    ensures FirstLast(start, size).Room? <==>
      start + size < TWO64 && FirstBlockOf(start) + HEADER_SIZE + MIN_BLOCK_SIZE <= start + size
    ensures FirstLast(start, size).Room? ==>
      var l := FirstLast(start, size);
      && l.first % PAGE_SIZE == 0 && l.last % PAGE_SIZE == 0
      && start <= l.first < start + PAGE_SIZE && l.first + MIN_BLOCK_SIZE <= l.last
      && l.last + HEADER_SIZE <= start + size < l.last + HEADER_SIZE + PAGE_SIZE
  {
    UpToPage(start + HEADER_SIZE);
    WrapsBelow(start, size);
    var up := AlignUp(start + HEADER_SIZE, PAGE_SIZE);
    PageSum(up, HEADER_SIZE);
    if start + size < TWO64 && size > HEADER_SIZE && up < TWO64 {
      RoomyArena(start, size);
    } else {
      NoRoomInArena(start, size);
    }
  }

  lemma NoRoomInArena(start: int, size: int)
    requires 0 <= start < TWO64 && 0 <= size < TWO64
    requires start + size >= TWO64 || size <= HEADER_SIZE || AlignUp(start + HEADER_SIZE, PAGE_SIZE) >= TWO64
    ensures FirstLast(start, size).NoRoom?
  {
    hide AlignUp, AlignDown;
    UpToPage(start + HEADER_SIZE);
    WrapsBelow(start, size);
    var up := AlignUp(start + HEADER_SIZE, PAGE_SIZE);
    if start + size < TWO64 && size > HEADER_SIZE {
      // Then up wraps to less than a page, and the overhead is at least the rest of memory.
      assert TWO64 <= up < TWO64 + PAGE_SIZE;
      assert up % TWO64 == up - TWO64;
      assert (up - TWO64 - HEADER_SIZE) % TWO64 == up - HEADER_SIZE;
      BitMath.WrapNone(up - HEADER_SIZE - start);
    }
  }

  lemma RoomyArena(start: int, size: int)
    requires 0 <= start && 0 <= size && start + size < TWO64 && size > HEADER_SIZE
    requires AlignUp(start + HEADER_SIZE, PAGE_SIZE) < TWO64
    ensures var first := FirstBlockOf(start);
      var room := start + size - first - HEADER_SIZE;
      FirstLast(start, size) == if room < MIN_BLOCK_SIZE then NoRoom else Room(first, first + AlignDown(room, PAGE_SIZE))
    ensures var first := FirstBlockOf(start);
      var room := start + size - first - HEADER_SIZE;
      && first % PAGE_SIZE == 0 && start <= first < start + PAGE_SIZE
      && (first + AlignDown(room, PAGE_SIZE)) % PAGE_SIZE == 0
      && room - PAGE_SIZE < AlignDown(room, PAGE_SIZE) <= room
      && (AlignDown(room, PAGE_SIZE) < MIN_BLOCK_SIZE <==> room < MIN_BLOCK_SIZE)
  {
    hide AlignUp, AlignDown;
    UpToPage(start + HEADER_SIZE);
    var up := AlignUp(start + HEADER_SIZE, PAGE_SIZE);
    var first := up - HEADER_SIZE;
    var room := start + size - first - HEADER_SIZE;
    PageSum(up, HEADER_SIZE);
    BitMath.WrapNone(start + size);
    BitMath.WrapNone(up);
    BitMath.WrapNone(first);
    BitMath.WrapNone(first - start);
    AlignedDown(room, PAGE_SIZE);
    RoomForBlock(room);
    PageSum(first, AlignDown(room, PAGE_SIZE));
    if room >= 0 {
      BitMath.WrapNone(room);
      NoWrap(first, AlignDown(room, PAGE_SIZE));
    }
  }

  lemma RoomForBlock(v: int)
    ensures AlignDown(v, PAGE_SIZE) < MIN_BLOCK_SIZE <==> v < MIN_BLOCK_SIZE
  {
  }

  lemma WrappedSize(first: int, last: int)
    requires 0 <= first < last < TWO64
    ensures (first - last) % TWO64 == WrapSize(first, last)
  {
  }

  // The words heapInit leaves in the arena and the sentinel.
  lemma InitSound(m: Mem, head: int, first: int, last: int)
    requires Place(head, first, last).Ok()
    requires SizeWord(m, first) == last - first + Flag(true) && Load(m, last) == last - first
    requires SizeWord(m, last) == WrapSize(first, last)
    requires Load(m, NextAt(head)) == first && Load(m, PrevAt(head)) == first
    requires Load(m, NextAt(first)) == head && Load(m, PrevAt(first)) == head
    ensures Sound(m, Place(head, first, last), State([Blk(first, last - first, false)], [first]))
  {
    OneFree(m, first, last);
    InitLinks(m, head, first);
    OneAt(Blk(first, last - first, false), first, last);
  }

  // Boundary tags of the one free block and of the end marker; the first block's prev_size
  // word just records the end of the arena.
  function InitTags(m: Mem, first: int, last: int, firstSize: int, heapEnd: int, wrapSize: int): Mem {
    var m1 := m[PrevSizeAt(first) := heapEnd];
    var m2 := m1[SizeAt(first) := firstSize + Flag(true)];
    var m3 := m2[PrevSizeAt(last) := firstSize];
    m3[SizeAt(last) := wrapSize]
  }

  function InitList(m: Mem, head: int, first: int): Mem {
    m[NextAt(first) := head][PrevAt(first) := head][NextAt(head) := first][PrevAt(head) := first]
  }

  lemma InitReads(m: Mem, head: int, first: int, last: int, heapEnd: int)
    requires Place(head, first, last).Ok()
    ensures var m' := InitList(InitTags(m, first, last, last - first, heapEnd, WrapSize(first, last)), head, first);
      && SizeWord(m', first) == last - first + Flag(true) && Load(m', last) == last - first
      && SizeWord(m', last) == WrapSize(first, last)
      && Load(m', NextAt(head)) == first && Load(m', PrevAt(head)) == first
      && Load(m', NextAt(first)) == head && Load(m', PrevAt(first)) == head
  {
  }

  lemma InitLinks(m: Mem, head: int, first: int)
    requires Load(m, NextAt(head)) == first && Load(m, PrevAt(head)) == first
    requires Load(m, NextAt(first)) == head && Load(m, PrevAt(first)) == head
    ensures Linked(m, head, [first])
  {
    var ring := Ring(head, [first]);
    assert ring == [head, first, head];
    assert LinkAt(m, ring, 0) && LinkAt(m, ring, 1);
  }

  lemma LiveIsUsed(m: Mem, p: Place, st: State, a: int)
    requires Sound(m, p, st)
    ensures Live(st.blocks, a) <==> UsedAt(st.blocks, a)
  {
    if UsedAt(st.blocks, a) {
      var i :| 0 <= i < |st.blocks| && st.blocks[i].at == a && st.blocks[i].used;
      SameStart(m, p, st, BlockIndex(st.blocks, a), i);
    }
  }

  lemma LiveIsKnown(s: seq<Blk>, a: int)
    requires Live(s, a)
    ensures Known(s, a)
  {
  }

  lemma FreedLive(m: Mem, m': Mem, p: Place, st: State, i: int)
    requires Sound(m, p, st) && 0 <= i < |st.blocks| && st.blocks[i].used && Sound(m', p, Freed(st, i))
    ensures forall a :: Live(Freed(st, i).blocks, a) <==> Live(st.blocks, a) && a != st.blocks[i].at
  {
    hide Sound, Live, UsedAt, Freed;
    forall a
      ensures Live(Freed(st, i).blocks, a) <==> Live(st.blocks, a) && a != st.blocks[i].at
    {
      FreedUse(m, p, st, i, a);
      LiveIsUsed(m, p, st, a);
      LiveIsUsed(m', p, Freed(st, i), a);
    }
  }

  lemma AllocatedLive(m: Mem, m': Mem, p: Place, st: State, i: int, j: int, begin: int, size: int)
    requires Sound(m, p, st) && 0 <= i < |st.blocks| && 0 <= j < |st.list| && !st.blocks[i].used
    requires begin - HEADER_SIZE >= st.blocks[i].at && Sound(m', p, Allocated(st, i, j, begin, size))
    ensures forall a :: Live(Allocated(st, i, j, begin, size).blocks, a) <==> Live(st.blocks, a) || a == begin - HEADER_SIZE
  {
    hide Sound, Live, UsedAt, Allocated;
    forall a
      ensures Live(Allocated(st, i, j, begin, size).blocks, a) <==> Live(st.blocks, a) || a == begin - HEADER_SIZE
    {
      AllocatedUse(st, i, j, begin, size, a);
      LiveIsUsed(m, p, st, a);
      LiveIsUsed(m', p, Allocated(st, i, j, begin, size), a);
    }
  }

  lemma NothingLive(m: Mem, p: Place, st: State)
    requires Sound(m, p, st) && forall a :: !Live(st.blocks, a)
    ensures st == State([Blk(p.first, p.last - p.first, false)], [p.first])
  {
    forall a
      ensures !UsedAt(st.blocks, a)
    {
      LiveIsUsed(m, p, st, a);
    }
    AllFree(m, p, st);
  }
}
