// The circular, doubly linked list of free blocks, threaded through the blocks themselves.
// The sentinel (head and tail at once) lives in the control structure.
module HeapFreeList {
  import opened HeapModel

  // The list once round, from the sentinel back to it.
  function Ring(head: int, list: seq<int>): seq<int> { [head] + list + [head] }

  ghost predicate LinkAt(m: Mem, ring: seq<int>, k: int)
    requires 0 <= k < |ring| - 1
  {
    Load(m, NextAt(ring[k])) == ring[k + 1] && Load(m, PrevAt(ring[k + 1])) == ring[k]
  }

  ghost predicate Linked(m: Mem, head: int, list: seq<int>) {
    forall k {:trigger LinkAt(m, Ring(head, list), k)} :: 0 <= k < |list| + 1 ==> LinkAt(m, Ring(head, list), k)
  }

  // Distinct nodes lie at least one minimal block apart.
  ghost predicate Spread(head: int, list: seq<int>) {
    && (forall i, j :: 0 <= i < j < |list| ==> Apart(list[i], list[j]))
    && (forall i :: 0 <= i < |list| ==> Apart(head, list[i]))
  }

  predicate Apart(x: int, y: int) {
    x + MIN_BLOCK_SIZE <= y || y + MIN_BLOCK_SIZE <= x
  }

  function RemoveLinks(m: Mem, block: int): Mem {
    var m1 := m[NextAt(Load(m, PrevAt(block))) := Load(m, NextAt(block))];
    m1[PrevAt(Load(m1, NextAt(block))) := Load(m1, PrevAt(block))]
  }

  function InsertAfterLinks(m: Mem, anchor: int, block: int): Mem {
    var m1 := m[NextAt(block) := Load(m, NextAt(anchor))];
    var m2 := m1[PrevAt(block) := anchor];
    var m3 := m2[PrevAt(Load(m2, NextAt(anchor))) := block];
    m3[NextAt(anchor) := block]
  }

  function ReplaceLinks(m: Mem, oldBlock: int, newBlock: int): Mem {
    var m1 := m[NextAt(newBlock) := Load(m, NextAt(oldBlock))];
    var m2 := m1[PrevAt(newBlock) := Load(m1, PrevAt(oldBlock))];
    var m3 := m2[PrevAt(Load(m2, NextAt(oldBlock))) := newBlock];
    m3[NextAt(Load(m3, PrevAt(oldBlock))) := newBlock]
  }

  function Removed(list: seq<int>, j: int): seq<int>
    requires 0 <= j < |list|
  {
    list[..j] + list[j + 1..]
  }

  function Inserted(list: seq<int>, j: int, block: int): seq<int>
    requires 0 <= j <= |list|
  {
    list[..j] + [block] + list[j..]
  }

  // Words the list uses.
  ghost predicate LinkWord(ring: seq<int>, a: int) {
    exists k :: 0 <= k < |ring| && (a == NextAt(ring[k]) || a == PrevAt(ring[k]))
  }

  // Which node holds the k-th position, and that positions name nodes uniquely.
  lemma RingApart(head: int, list: seq<int>, i: int, k: int)
    requires Spread(head, list) && 0 <= i < |list| + 1 && 0 <= k < |list| + 1 && i != k
    ensures Apart(Ring(head, list)[i], Ring(head, list)[k])
  {
    var ring := Ring(head, list);
    if i > 0 { assert ring[i] == list[i - 1]; }
    if k > 0 { assert ring[k] == list[k - 1]; }
  }

  lemma LinkedFrame(m: Mem, m': Mem, head: int, list: seq<int>)
    requires Linked(m, head, list)
    requires forall a :: LinkWord(Ring(head, list), a) ==> Load(m, a) == Load(m', a)
    ensures Linked(m', head, list)
  {
    var ring := Ring(head, list);
    forall k | 0 <= k < |list| + 1
      ensures LinkAt(m', ring, k)
    {
      assert LinkAt(m, ring, k);
      assert LinkWord(ring, NextAt(ring[k])) && LinkWord(ring, PrevAt(ring[k + 1]));
    }
  }

  // Storing p.next and n.prev (and the links of a new block) leaves a link from x to y alone.
  lemma KeepLink(m: Mem, x: int, y: int, p: int, n: int, block: int)
    requires Load(m, NextAt(x)) == y && Load(m, PrevAt(y)) == x
    requires Apart(x, p) && Apart(y, n) && (x == n || Apart(x, n)) && (y == p || Apart(y, p))
    requires Apart(x, block) && Apart(y, block)
    ensures var m' := m[NextAt(block) := n][PrevAt(block) := p][PrevAt(n) := block][NextAt(p) := block];
      Load(m', NextAt(x)) == y && Load(m', PrevAt(y)) == x
  {
  }

  // Storing p.next and n.prev alone.
  lemma KeepTwo(m: Mem, x: int, y: int, p: int, n: int)
    requires Load(m, NextAt(x)) == y && Load(m, PrevAt(y)) == x
    requires Apart(x, p) && Apart(y, n) && (x == n || Apart(x, n)) && (y == p || Apart(y, p))
    ensures var m' := m[NextAt(p) := n][PrevAt(n) := p]; Load(m', NextAt(x)) == y && Load(m', PrevAt(y)) == x
  {
  }

  // What unlinking the node at position j stores.
  lemma RemoveStores(m: Mem, head: int, list: seq<int>, j: int)
    requires Linked(m, head, list) && Spread(head, list) && 0 <= j < |list|
    ensures var p, n := Ring(head, list)[j], Ring(head, list)[j + 2]; RemoveLinks(m, list[j]) == m[NextAt(p) := n][PrevAt(n) := p]
  {
    var ring := Ring(head, list);
    assert LinkAt(m, ring, j) && LinkAt(m, ring, j + 1) && ring[j + 1] == list[j];
    RingApart(head, list, j, j + 1);
  }

  lemma RemoveRing(head: int, list: seq<int>, j: int)
    requires 0 <= j < |list|
    ensures var ring, ring' := Ring(head, list), Ring(head, Removed(list, j));
      |ring'| == |ring| - 1 && (forall i :: 0 <= i <= j ==> ring'[i] == ring[i])
      && forall i :: j < i < |ring'| ==> ring'[i] == ring[i + 1]
  {
  }

  lemma RemoveSpread(head: int, list: seq<int>, j: int)
    requires Spread(head, list) && 0 <= j < |list|
    ensures Spread(head, Removed(list, j))
  {
  }

  lemma RemovedAt(m: Mem, head: int, list: seq<int>, j: int, k: int)
    requires Linked(m, head, list) && Spread(head, list) && 0 <= j < |list| && 0 <= k < |list|
    ensures LinkAt(RemoveLinks(m, list[j]), Ring(head, Removed(list, j)), k)
  {
    hide Spread, Removed, RemoveLinks;
    var ring := Ring(head, list);
    var p, n := ring[j], ring[j + 2];
    RemoveStores(m, head, list, j);
    RemoveRing(head, list, j);
    if k < j {
      assert LinkAt(m, ring, k);
      RingFarther(head, list, k, j);
      RingFarther(head, list, k, j + 1);
      KeepTwo(m, ring[k], ring[k + 1], p, n);
    } else if k > j {
      assert LinkAt(m, ring, k + 1);
      RingFarther(head, list, j, k + 1);
      RingFarther(head, list, j + 1, k + 1);
      KeepTwo(m, ring[k + 1], ring[k + 2], p, n);
    } else {
      RingFarther(head, list, j, j + 1);
    }
  }

  lemma RemoveKeepsLinks(m: Mem, head: int, list: seq<int>, j: int)
    requires Linked(m, head, list) && Spread(head, list) && 0 <= j < |list|
    ensures Linked(RemoveLinks(m, list[j]), head, Removed(list, j))
    ensures Spread(head, Removed(list, j))
    ensures forall a :: Load(m, a) != Load(RemoveLinks(m, list[j]), a) ==> LinkWord(Ring(head, list), a)
  {
    hide Spread, RemoveLinks;
    RemoveSpread(head, list, j);
    RemoveStores(m, head, list, j);
    forall k | 0 <= k < |list|
      ensures LinkAt(RemoveLinks(m, list[j]), Ring(head, Removed(list, j)), k)
    {
      RemovedAt(m, head, list, j, k);
    }
  }

  // Different positions before the end name different nodes, and so do different
  // positions after the start: the link words of LinkAt(i) and LinkAt(k) are distinct.
  lemma RingFarther(head: int, list: seq<int>, i: int, k: int)
    requires Spread(head, list) && 0 <= i < |list| + 1 && 0 <= k < |list| + 1 && i != k
    ensures var ring := Ring(head, list);
      Apart(ring[i], ring[k]) && Apart(ring[i + 1], ring[k + 1])
      && (ring[i] == ring[k + 1] || Apart(ring[i], ring[k + 1]))
      && (ring[k] == ring[i + 1] || Apart(ring[k], ring[i + 1]))
  {
    var ring := Ring(head, list);
    RingApart(head, list, i, k);
    assert ring[|list| + 1] == ring[0];
    RingApart(head, list, if i == |list| then 0 else i + 1, if k == |list| then 0 else k + 1);
    var i', k' := if i == |list| then 0 else i + 1, if k == |list| then 0 else k + 1;
    if i != k' { RingApart(head, list, i, k'); }
    if k != i' { RingApart(head, list, k, i'); }
  }

  // What linking block in behind position j stores.
  lemma InsertStores(m: Mem, head: int, list: seq<int>, j: int, block: int)
    requires Linked(m, head, list) && Spread(head, list) && 0 <= j <= |list|
    requires forall i :: 0 <= i < |list| + 1 ==> Apart(Ring(head, list)[i], block)
    ensures var p, n := Ring(head, list)[j], Ring(head, list)[j + 1];
      InsertAfterLinks(m, p, block) == m[NextAt(block) := n][PrevAt(block) := p][PrevAt(n) := block][NextAt(p) := block]
  {
    var ring := Ring(head, list);
    assert LinkAt(m, ring, j);
    assert j == |list| ==> ring[j + 1] == ring[0];
    assert Apart(ring[j], block);
    assert j < |list| ==> Apart(ring[j + 1], block);
  }

  lemma InsertRing(head: int, list: seq<int>, j: int, block: int)
    requires 0 <= j <= |list|
    ensures Ring(head, Inserted(list, j, block)) == Ring(head, list)[..j + 1] + [block] + Ring(head, list)[j + 1..]
  {
  }

  lemma InsertSpread(head: int, list: seq<int>, j: int, block: int)
    requires Spread(head, list) && 0 <= j <= |list|
    requires Apart(head, block) && forall i :: 0 <= i < |list| ==> Apart(block, list[i])
    ensures Spread(head, Inserted(list, j, block))
  {
  }

  lemma InsertKeepsLinks(m: Mem, head: int, list: seq<int>, j: int, block: int)
    requires Linked(m, head, list) && Spread(head, list) && 0 <= j <= |list|
    requires Apart(head, block) && forall i :: 0 <= i < |list| ==> Apart(block, list[i])
    ensures Linked(InsertAfterLinks(m, Ring(head, list)[j], block), head, Inserted(list, j, block))
    ensures Spread(head, Inserted(list, j, block))
    ensures forall a :: Load(m, a) != Load(InsertAfterLinks(m, Ring(head, list)[j], block), a)
                        ==> LinkWord(Ring(head, list), a) || a == NextAt(block) || a == PrevAt(block)
  {
    var ring, ring' := Ring(head, list), Ring(head, Inserted(list, j, block));
    InsertSpread(head, list, j, block);
    forall i | 0 <= i < |list| + 2
      ensures Apart(ring[i], block)
    {
      if 0 < i < |list| + 1 { assert ring[i] == list[i - 1]; }
    }
    InsertStores(m, head, list, j, block);
    InsertRing(head, list, j, block);
    var p, n := ring[j], ring[j + 1];
    var m' := InsertAfterLinks(m, p, block);
    forall k | 0 <= k < |list| + 2
      ensures LinkAt(m', ring', k)
    {
      if k < j {
        assert ring'[k] == ring[k] && ring'[k + 1] == ring[k + 1];
        assert LinkAt(m, ring, k);
        RingFarther(head, list, k, j);
        KeepLink(m, ring[k], ring[k + 1], p, n, block);
      } else if k > j + 1 {
        assert ring'[k] == ring[k - 1] && ring'[k + 1] == ring[k];
        assert LinkAt(m, ring, k - 1);
        RingFarther(head, list, j, k - 1);
        KeepLink(m, ring[k - 1], ring[k], p, n, block);
      } else if k == j {
        assert ring'[k] == p && ring'[k + 1] == block;
      } else {
        assert ring'[k] == block && ring'[k + 1] == n;
      }
    }
  }

  lemma ReplaceStores(m: Mem, head: int, list: seq<int>, j: int, block: int)
    requires Linked(m, head, list) && Spread(head, list) && 0 <= j < |list|
    requires forall i :: 0 <= i < |list| + 2 ==> Apart(Ring(head, list)[i], block)
    ensures var p, n := Ring(head, list)[j], Ring(head, list)[j + 2];
      ReplaceLinks(m, list[j], block)
      == m[NextAt(block) := n][PrevAt(block) := p][PrevAt(n) := block][NextAt(p) := block]
  {
    var ring := Ring(head, list);
    assert LinkAt(m, ring, j) && LinkAt(m, ring, j + 1);
    assert ring[j + 1] == list[j];
    RingFarther(head, list, j, j + 1);
  }

  lemma ReplaceSpread(head: int, list: seq<int>, j: int, block: int)
    requires Spread(head, list) && 0 <= j < |list|
    requires Apart(head, block) && forall i :: 0 <= i < |list| ==> Apart(block, list[i])
    ensures Spread(head, list[j := block])
    ensures forall i :: 0 <= i < |list| + 2 ==> Apart(Ring(head, list)[i], block)
    ensures Ring(head, list[j := block]) == Ring(head, list)[j + 1 := block]
  {
  }

  lemma ReplacedAt(m: Mem, head: int, list: seq<int>, j: int, block: int, k: int)
    requires Linked(m, head, list) && Spread(head, list) && 0 <= j < |list| && 0 <= k < |list| + 1
    requires forall i :: 0 <= i < |list| + 2 ==> Apart(Ring(head, list)[i], block)
    ensures LinkAt(ReplaceLinks(m, list[j], block), Ring(head, list)[j + 1 := block], k)
  {
    hide Spread, ReplaceLinks;
    var ring := Ring(head, list);
    var p, n := ring[j], ring[j + 2];
    ReplaceStores(m, head, list, j, block);
    if k < j {
      assert LinkAt(m, ring, k);
      RingFarther(head, list, k, j);
      RingFarther(head, list, k, j + 1);
      KeepLink(m, ring[k], ring[k + 1], p, n, block);
    } else if k > j + 1 {
      assert LinkAt(m, ring, k);
      RingFarther(head, list, j, k);
      RingFarther(head, list, j + 1, k);
      KeepLink(m, ring[k], ring[k + 1], p, n, block);
    } else {
      assert Apart(p, block) && Apart(n, block);
    }
  }

  lemma ReplaceKeepsLinks(m: Mem, head: int, list: seq<int>, j: int, block: int)
    requires Linked(m, head, list) && Spread(head, list) && 0 <= j < |list|
    requires Apart(head, block) && forall i :: 0 <= i < |list| ==> Apart(block, list[i])
    ensures Linked(ReplaceLinks(m, list[j], block), head, list[j := block])
    ensures Spread(head, list[j := block])
    ensures forall a :: Load(m, a) != Load(ReplaceLinks(m, list[j], block), a)
                        ==> LinkWord(Ring(head, list), a) || a == NextAt(block) || a == PrevAt(block)
  {
    hide Spread, ReplaceLinks;
    ReplaceSpread(head, list, j, block);
    ReplaceStores(m, head, list, j, block);
    var m', ring' := ReplaceLinks(m, list[j], block), Ring(head, list[j := block]);
    forall k | 0 <= k < |list| + 1
      ensures LinkAt(m', ring', k)
    {
      ReplacedAt(m, head, list, j, block, k);
    }
  }

  // ---- the list and the blocks ----

  ghost predicate Distinct(list: seq<int>) {
    forall i, j :: 0 <= i < j < |list| ==> list[i] != list[j]
  }

  // The list names exactly the free blocks, each once.
  ghost predicate FreeIs(s: seq<Blk>, list: seq<int>) {
    Distinct(list) && forall a :: a in list <==> FreeAt(s, a)
  }

  // The sentinel is not part of the arena.
  predicate Outside(head: int, first: int, last: int) {
    head + MIN_BLOCK_SIZE <= first || last + HEADER_SIZE <= head
  }

  // The inside of a free block, where its links are.
  ghost predicate FreeInterior(s: seq<Blk>, a: int) {
    exists i :: 0 <= i < |s| && !s[i].used && SizeAt(s[i].at) < a < s[i].End()
  }

  lemma FreeAtConcat(x: seq<Blk>, y: seq<Blk>, a: int)
    ensures FreeAt(x + y, a) <==> FreeAt(x, a) || FreeAt(y, a)
    ensures UsedAt(x + y, a) <==> UsedAt(x, a) || UsedAt(y, a)
    ensures ClientWord(x + y, a) <==> ClientWord(x, a) || ClientWord(y, a)
  {
    forall i | 0 <= i < |x| + |y|
      ensures (x + y)[i] == if i < |x| then x[i] else y[i - |x|]
    {
    }
    forall i | 0 <= i < |y|
      ensures (x + y)[i + |x|] == y[i]
    {
    }
  }

  // The membership questions about three parts, at once.
  lemma SpliceAt(pre: seq<Blk>, mid: seq<Blk>, post: seq<Blk>, a: int)
    ensures FreeAt(pre + mid + post, a) <==> FreeAt(pre, a) || FreeAt(mid, a) || FreeAt(post, a)
    ensures UsedAt(pre + mid + post, a) <==> UsedAt(pre, a) || UsedAt(mid, a) || UsedAt(post, a)
    ensures ClientWord(pre + mid + post, a) <==> ClientWord(pre, a) || ClientWord(mid, a) || ClientWord(post, a)
  {
    FreeAtConcat(pre + mid, post, a);
    FreeAtConcat(pre, mid, a);
  }

  lemma {:induction false} BlocksApart(m: Mem, s: seq<Blk>, from: int, used: bool, to: int, i: int, j: int)
    requires Seg(m, s, from, used, to) && 0 <= i < j < |s|
    ensures s[i].End() <= s[j].at
  {
    SegRange(m, s, from, used, to);
    if i > 0 {
      BlocksApart(m, s[1..], s[0].End(), s[0].used, to, i - 1, j - 1);
    }
  }

  // What a free block holds is no client's, and stays between its tags.
  lemma FreeInteriorRange(m: Mem, s: seq<Blk>, from: int, used: bool, to: int, a: int)
    requires Seg(m, s, from, used, to) && FreeInterior(s, a)
    ensures Interior(s, a) && SizeAt(from) < a < to && !ClientWord(s, a)
  {
    SegRange(m, s, from, used, to);
    var i :| 0 <= i < |s| && !s[i].used && SizeAt(s[i].at) < a < s[i].End();
    forall j | 0 <= j < |s| && s[j].used
      ensures !(s[j].at + HEADER_SIZE <= a <= s[j].End())
    {
      if i < j { BlocksApart(m, s, from, used, to, i, j); } else { BlocksApart(m, s, from, used, to, j, i); }
    }
  }
}
