// The heap in the middle of an operation: a hole [x, y) that the operation is rewriting,
// valid chains on both sides of it, and a free list that already counts the planned blocks.
module HeapHole {
  import opened HeapModel
  import opened HeapFreeList

  datatype Place = Place(head: int, first: int, last: int) {
    predicate Ok() {
      && 0 <= first && first % PAGE_SIZE == 0 && last % PAGE_SIZE == 0
      && first + MIN_BLOCK_SIZE <= last && last + HEADER_SIZE <= TWO64
      && Outside(head, first, last)
    }
  }

  // The planned contents: blocks in order, each at least minimal, inside the hole.
  ghost predicate Plan(mid: seq<Blk>, x: int, y: int) {
    && (forall i :: 0 <= i < |mid| ==> x <= mid[i].at && mid[i].End() <= y && mid[i].size >= MIN_BLOCK_SIZE)
    && (forall i, j :: 0 <= i < j < |mid| ==> mid[i].End() <= mid[j].at)
  }

  datatype Hole = Hole(pre: seq<Blk>, x: int, mid: seq<Blk>, y: int, post: seq<Blk>)

  ghost predicate Holed(m: Mem, p: Place, h: Hole, used: bool, list: seq<int>) {
    && p.Ok() && h.x + MIN_BLOCK_SIZE <= h.y
    && Seg(m, h.pre, p.first, true, h.x)
    && Full(m, h.post, h.y, used, p.first, p.last)
    && Plan(h.mid, h.x, h.y)
    && Linked(m, p.head, list) && Distinct(list)
    && (forall a :: a in list <==> FreeAt(h.pre, a) || FreeAt(h.mid, a) || FreeAt(h.post, a))
  }

  lemma HoledRange(m: Mem, p: Place, h: Hole, used: bool, list: seq<int>)
    requires Holed(m, p, h, used, list)
    ensures p.first <= h.x && h.y <= p.last
    ensures forall i :: 0 <= i < |h.pre| ==> p.first <= h.pre[i].at && h.pre[i].End() <= h.x && Shape(h.pre[i])
    ensures forall i :: 0 <= i < |h.post| ==> h.y <= h.post[i].at && h.post[i].End() <= p.last && Shape(h.post[i])
    ensures forall i :: 0 <= i < |list| ==> HasRoom(h, list[i])
  {
    SegRange(m, h.pre, p.first, true, h.x);
    SegRange(m, h.post, h.y, used, p.last);
    forall i | 0 <= i < |list|
      ensures HasRoom(h, list[i])
    {
      assert list[i] in list;
    }
  }

  // A free node lies left of the hole, right of it, or is a planned block.
  ghost predicate HasRoom(h: Hole, f: int) {
    f + MIN_BLOCK_SIZE <= h.x || h.y <= f || FreeAt(h.mid, f)
  }

  lemma HoledSpread(m: Mem, p: Place, h: Hole, used: bool, list: seq<int>)
    requires Holed(m, p, h, used, list)
    ensures Spread(p.head, list)
  {
    HoledRange(m, p, h, used, list);
    forall i, j | 0 <= i < j < |list|
      ensures Apart(list[i], list[j])
    {
      var a, b := list[i], list[j];
      assert a in list && b in list && a != b;
      NodesApart(m, p, h, used, list, a, b);
    }
    forall i | 0 <= i < |list|
      ensures Apart(p.head, list[i])
    {
      assert list[i] in list;
    }
  }

  lemma NodesApart(m: Mem, p: Place, h: Hole, used: bool, list: seq<int>, a: int, b: int)
    requires Holed(m, p, h, used, list) && a in list && b in list && a != b
    ensures Apart(a, b)
  {
    HoledRange(m, p, h, used, list);
    if FreeAt(h.pre, a) && FreeAt(h.pre, b) {
      FreeApart(m, h.pre, p.first, true, h.x, a, b);
    } else if FreeAt(h.post, a) && FreeAt(h.post, b) {
      FreeApart(m, h.post, h.y, used, p.last, a, b);
    }
  }

  lemma FreeApart(m: Mem, s: seq<Blk>, from: int, used: bool, to: int, a: int, b: int)
    requires Seg(m, s, from, used, to) && FreeAt(s, a) && FreeAt(s, b) && a != b
    ensures Apart(a, b)
  {
    SegRange(m, s, from, used, to);
    var k :| 0 <= k < |s| && s[k].at == a && !s[k].used;
    var l :| 0 <= l < |s| && s[l].at == b && !s[l].used;
    if k < l { BlocksApart(m, s, from, used, to, k, l); } else { BlocksApart(m, s, from, used, to, l, k); }
  }

  // A link word of one of the free blocks of s.
  ghost predicate LinkOfFree(s: seq<Blk>, a: int) {
    exists f :: FreeAt(s, f) && (a == NextAt(f) || a == PrevAt(f))
  }

  // Where the list's words are.
  ghost predicate ListHome(p: Place, h: Hole, a: int) {
    || a == NextAt(p.head) || a == PrevAt(p.head)
    || FreeInterior(h.pre, a) || FreeInterior(h.post, a)
    || (LinkOfFree(h.mid, a))
  }

  lemma HomeOfLinkWord(m: Mem, p: Place, h: Hole, used: bool, list: seq<int>, a: int)
    requires Holed(m, p, h, used, list) && LinkWord(Ring(p.head, list), a)
    ensures ListHome(p, h, a)
  {
    HoledRange(m, p, h, used, list);
    var ring := Ring(p.head, list);
    var k :| 0 <= k < |ring| && (a == NextAt(ring[k]) || a == PrevAt(ring[k]));
    if 0 < k < |list| + 1 {
      assert ring[k] == list[k - 1] && list[k - 1] in list;
    }
  }

  lemma HomeRange(m: Mem, p: Place, h: Hole, used: bool, list: seq<int>, a: int)
    requires Holed(m, p, h, used, list) && ListHome(p, h, a)
    ensures !ClientWord(h.pre, a) && !ClientWord(h.post, a)
    ensures a <= h.x ==> p.first < a ==> Interior(h.pre, a)
    ensures h.y < a <= SizeAt(p.last) ==> Interior(h.post, a)
    ensures h.x < a <= h.y ==> LinkOfFree(h.mid, a)
    ensures a != SizeAt(h.y)
  {
    HoledRange(m, p, h, used, list);
    if FreeInterior(h.pre, a) { FreeInteriorRange(m, h.pre, p.first, true, h.x, a); }
    if FreeInterior(h.post, a) { FreeInteriorRange(m, h.post, h.y, used, p.last, a); }
  }

  // Words inside the hole, apart from the links of planned free blocks, may be rewritten,
  // and so may the PREV_USED flag of the block behind the hole.
  ghost predicate HoleWord(h: Hole, a: int) {
    h.x < a <= h.y && !(LinkOfFree(h.mid, a))
  }

  lemma HoledRewrite(m: Mem, m': Mem, p: Place, h: Hole, was: bool, used: bool, list: seq<int>)
    requires Holed(m, p, h, was, list)
    requires used || h.post == [] || h.post[0].used
    requires SizeWord(m', h.y) == SizeWord(m, h.y) - Flag(was) + Flag(used)
    requires forall a :: Load(m, a) != Load(m', a) ==> HoleWord(h, a) || a == SizeAt(h.y)
    ensures Holed(m', p, h, used, list)
  {
    HoledRange(m, p, h, was, list);
    SegFrame(m, m', h.pre, p.first, true, h.x);
    FullSetFlag(m, m', h.post, h.y, was, used, p.first, p.last);
    forall a | LinkWord(Ring(p.head, list), a)
      ensures Load(m, a) == Load(m', a)
    {
      HomeOfLinkWord(m, p, h, was, list, a);
      HomeRange(m, p, h, was, list, a);
    }
    LinkedFrame(m, m', p.head, list);
  }

  // Relinking touches link words only, so both sides stay as they are.
  lemma HoledRelink(m: Mem, m': Mem, p: Place, h: Hole, used: bool, list: seq<int>, block: int)
    requires Holed(m, p, h, used, list)
    requires h.x <= block && block + MIN_BLOCK_SIZE <= h.y
    requires forall a :: Load(m, a) != Load(m', a)
                         ==> LinkWord(Ring(p.head, list), a) || a == NextAt(block) || a == PrevAt(block)
    ensures Seg(m', h.pre, p.first, true, h.x) && Full(m', h.post, h.y, used, p.first, p.last)
    ensures forall a :: ClientWord(h.pre, a) || ClientWord(h.post, a) ==> Load(m, a) == Load(m', a)
    ensures forall a :: h.x < a <= h.y && Load(m, a) != Load(m', a)
                        ==> a == NextAt(block) || a == PrevAt(block) || LinkOfFree(h.mid, a)
    ensures SizeWord(m', h.y) == SizeWord(m, h.y)
  {
    HoledRange(m, p, h, used, list);
    forall a | Load(m, a) != Load(m', a) && a != NextAt(block) && a != PrevAt(block)
      ensures ListHome(p, h, a)
      ensures !ClientWord(h.pre, a) && !ClientWord(h.post, a)
      ensures a <= h.x ==> p.first < a ==> Interior(h.pre, a)
      ensures h.y < a <= SizeAt(p.last) ==> Interior(h.post, a)
      ensures h.x < a <= h.y ==> LinkOfFree(h.mid, a)
      ensures a != SizeAt(h.y)
    {
      HomeOfLinkWord(m, p, h, used, list, a);
      HomeRange(m, p, h, used, list, a);
    }
    SegFrame(m, m', h.pre, p.first, true, h.x);
    FullFrame(m, m', h.post, h.y, used, p.first, p.last);
  }

  // Filling the hole.
  lemma HoledClose(m: Mem, p: Place, h: Hole, used: bool, list: seq<int>)
    requires Holed(m, p, h, used, list)
    requires Seg(m, h.mid, h.x, UsedAfter(h.pre, true), h.y) && used == UsedAfter(h.mid, UsedAfter(h.pre, true))
    ensures Full(m, h.pre + h.mid + h.post, p.first, true, p.first, p.last)
    ensures FreeIs(h.pre + h.mid + h.post, list)
  {
    SegJoin(m, h.pre, h.mid, p.first, true, h.x, h.y);
    SegJoin(m, h.pre + h.mid, h.post, p.first, true, h.y, p.last);
    var s := h.pre + h.mid + h.post;
    forall a
      ensures a in list <==> FreeAt(s, a)
    {
      SpliceAt(h.pre, h.mid, h.post, a);
    }
  }

  lemma SegPlan(m: Mem, mid: seq<Blk>, x: int, used: bool, y: int)
    requires Seg(m, mid, x, used, y)
    ensures Plan(mid, x, y)
  {
    SegRange(m, mid, x, used, y);
    forall i, j | 0 <= i < j < |mid|
      ensures mid[i].End() <= mid[j].at
    {
      BlocksApart(m, mid, x, used, y, i, j);
    }
  }

  lemma OpenParts(m: Mem, p: Place, pre: seq<Blk>, mid: seq<Blk>, post: seq<Blk>)
    requires Full(m, pre + mid + post, p.first, true, p.first, p.last) && mid != []
    ensures var x, y, used := mid[0].at, mid[|mid| - 1].End(), mid[|mid| - 1].used;
      && x + MIN_BLOCK_SIZE <= y
      && Seg(m, pre, p.first, true, x)
      && Seg(m, mid, x, UsedAfter(pre, true), y)
      && Full(m, post, y, used, p.first, p.last)
  {
    SegSplit(m, pre + mid, post, p.first, true, p.last);
    var y := SegEnd(pre + mid, p.first);
    SegSplit(m, pre, mid, p.first, true, y);
    var x := SegEnd(pre, p.first);
    SegRange(m, mid, x, UsedAfter(pre, true), y);
  }

  // Taking some neighbouring blocks of a sound heap apart from the rest.
  lemma HoledOpen(m: Mem, p: Place, pre: seq<Blk>, mid: seq<Blk>, post: seq<Blk>, list: seq<int>)
    requires p.Ok() && Full(m, pre + mid + post, p.first, true, p.first, p.last) && mid != []
    requires Linked(m, p.head, list) && FreeIs(pre + mid + post, list)
    ensures var x, y := mid[0].at, mid[|mid| - 1].End();
      && Holed(m, p, Hole(pre, x, mid, y, post), mid[|mid| - 1].used, list)
      && Seg(m, mid, x, UsedAfter(pre, true), y)
  {
    OpenParts(m, p, pre, mid, post);
    SegPlan(m, mid, mid[0].at, UsedAfter(pre, true), mid[|mid| - 1].End());
    forall a
      ensures a in list <==> FreeAt(pre, a) || FreeAt(mid, a) || FreeAt(post, a)
    {
      SpliceAt(pre, mid, post, a);
    }
  }

  // ---- list operations during an operation ----

  lemma HoledRemove(m: Mem, p: Place, h: Hole, mid: seq<Blk>, used: bool, list: seq<int>, j: int)
    requires Holed(m, p, h, used, list) && 0 <= j < |list| && FreeAt(h.mid, list[j])
    requires Plan(mid, h.x, h.y)
    requires forall a :: FreeAt(mid, a) <==> FreeAt(h.mid, a) && a != list[j]
    ensures var m' := RemoveLinks(m, list[j]);
      && Holed(m', p, h.(mid := mid), used, Removed(list, j))
      && SizeWord(m', h.y) == SizeWord(m, h.y)
      && (forall a :: ClientWord(h.pre, a) || ClientWord(h.post, a) ==> Load(m, a) == Load(m', a))
      && (forall a :: h.x < a <= h.y && Load(m, a) != Load(m', a) ==> LinkOfFree(h.mid, a))
  {
    HoledSpread(m, p, h, used, list);
    RemoveKeepsLinks(m, p.head, list, j);
    var m' := RemoveLinks(m, list[j]);
    HoledRange(m, p, h, used, list);
    HoledRelink(m, m', p, h, used, list, list[j]);
    forall a
      ensures a in Removed(list, j) <==> FreeAt(h.pre, a) || FreeAt(mid, a) || FreeAt(h.post, a)
    {
      assert a in Removed(list, j) <==> a in list && a != list[j];
      PlannedApart(m, p, h, used, list, list[j]);
    }
  }

  // A planned block is not one of the blocks on either side.
  lemma PlannedApart(m: Mem, p: Place, h: Hole, used: bool, list: seq<int>, f: int)
    requires Holed(m, p, h, used, list) && h.x <= f < h.y
    ensures !FreeAt(h.pre, f) && !FreeAt(h.post, f)
  {
    HoledRange(m, p, h, used, list);
  }

  lemma HoledInsert(m: Mem, p: Place, h: Hole, mid: seq<Blk>, used: bool, list: seq<int>, j: int, z: int)
    requires Holed(m, p, h, used, list) && 0 <= j <= |list|
    requires h.x <= z && z + MIN_BLOCK_SIZE <= h.y
    requires forall f :: FreeAt(h.mid, f) ==> Apart(z, f)
    requires Plan(mid, h.x, h.y)
    requires forall a :: FreeAt(mid, a) <==> FreeAt(h.mid, a) || a == z
    ensures var m' := InsertAfterLinks(m, Ring(p.head, list)[j], z);
      && Holed(m', p, h.(mid := mid), used, Inserted(list, j, z))
      && SizeWord(m', h.y) == SizeWord(m, h.y)
      && (forall a :: ClientWord(h.pre, a) || ClientWord(h.post, a) ==> Load(m, a) == Load(m', a))
      && (forall a :: h.x < a <= h.y && Load(m, a) != Load(m', a) ==> LinkOfFree(mid, a))
  {
    HoledSpread(m, p, h, used, list);
    HoledRange(m, p, h, used, list);
    InsertKeepsLinks(m, p.head, list, j, z);
    var m' := InsertAfterLinks(m, Ring(p.head, list)[j], z);
    HoledRelink(m, m', p, h, used, list, z);
    PlannedApart(m, p, h, used, list, z);
    assert z !in list;
    forall a
      ensures a in Inserted(list, j, z) <==> a in list || a == z
    {
    }
  }

  lemma ReplacedMembers(list: seq<int>, j: int, z: int)
    requires 0 <= j < |list| && Distinct(list) && z !in list
    ensures forall a :: a in list[j := z] <==> a == z || (a in list && a != list[j])
    ensures Distinct(list[j := z])
  {
    var r := list[j := z];
    forall a
      ensures a in r <==> a == z || (a in list && a != list[j])
    {
      if a == z { assert r[j] == z; }
      if a in list && a != list[j] {
        var i :| 0 <= i < |list| && list[i] == a;
        assert r[i] == a;
      }
    }
  }

  lemma HoledReplace(m: Mem, p: Place, h: Hole, mid: seq<Blk>, used: bool, list: seq<int>, j: int, z: int)
    requires Holed(m, p, h, used, list) && 0 <= j < |list|
    requires FreeAt(h.mid, list[j]) && forall f :: FreeAt(h.mid, f) ==> f == list[j]
    requires h.x <= z && z + MIN_BLOCK_SIZE <= list[j]
    requires Plan(mid, h.x, h.y)
    requires forall a :: FreeAt(mid, a) <==> a == z
    ensures var m' := ReplaceLinks(m, list[j], z);
      && Holed(m', p, h.(mid := mid), used, list[j := z])
      && SizeWord(m', h.y) == SizeWord(m, h.y)
      && (forall a :: ClientWord(h.pre, a) || ClientWord(h.post, a) ==> Load(m, a) == Load(m', a))
      && (forall a :: h.x < a <= h.y && Load(m, a) != Load(m', a) ==> LinkOfFree(mid, a) || LinkOfFree(h.mid, a))
  {
    HoledSpread(m, p, h, used, list);
    HoledRange(m, p, h, used, list);
    ReplaceKeepsLinks(m, p.head, list, j, z);
    var m' := ReplaceLinks(m, list[j], z);
    HoledRelink(m, m', p, h, used, list, z);
    PlannedApart(m, p, h, used, list, z);
    PlannedApart(m, p, h, used, list, list[j]);
    forall a
      ensures a in list[j := z] <==> FreeAt(h.pre, a) || FreeAt(mid, a) || FreeAt(h.post, a)
    {
      ReplacedMembers(list, j, z);
    }
  }
}
