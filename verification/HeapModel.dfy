// The block allocator's arena as raw words, and the picture the allocator keeps of it:
// a chain of blocks that tile the arena, plus the circular list of the free ones.
module HeapModel {

  const TWO64 := 0x1_0000_0000_0000_0000
  const PAGE_SIZE := 8         // CPU_ALIGNMENT
  const HEADER_SIZE := 16      // two words
  const ALLOC_BONUS := 8       // the next block's prev_size word
  const MIN_BLOCK_SIZE := 32   // boundary tags plus both links

  // Raw memory: one 64-bit word per address; a word never written reads as 0.
  type Mem = map<int, int>

  function Load(m: Mem, a: int): int {
    if a in m then m[a] else 0
  }

  // Fields of the block at address b.
  function PrevSizeAt(b: int): int { b }
  function SizeAt(b: int): int { b + 8 }
  function NextAt(b: int): int { b + 16 }
  function PrevAt(b: int): int { b + 24 }

  function SizeWord(m: Mem, b: int): int { Load(m, SizeAt(b)) }
  function BlockSize(m: Mem, b: int): int { SizeWord(m, b) - SizeWord(m, b) % 2 }
  predicate PrevUsed(m: Mem, b: int) { SizeWord(m, b) % 2 == 1 }
  function Flag(used: bool): int { if used then 1 else 0 }

  // Address arithmetic wraps like uintptr_t.
  function BlockAt(b: int, offset: int): int { (b + offset) % TWO64 }

  function AlignDown(v: int, alignment: int): int
    requires alignment > 0
  {
    v - v % alignment
  }

  function AlignUp(v: int, alignment: int): int
    requires alignment > 0
  {
    AlignDown(v + alignment - 1, alignment)
  }

  datatype Blk = Blk(at: int, size: int, used: bool) {
    function End(): int { at + size }
  }

  predicate Shape(b: Blk) {
    b.size >= MIN_BLOCK_SIZE && b.size % PAGE_SIZE == 0 && b.at % PAGE_SIZE == 0
  }

  // Whether the block before position |s| is in use, given the one before s.
  function UsedAfter(s: seq<Blk>, used: bool): bool {
    if s == [] then used else s[|s| - 1].used
  }

  // The blocks s tile [from, to), their size words carry exact PREV_USED flags, the word
  // behind a free block holds its size, and no two neighbours are free.
  ghost predicate Seg(m: Mem, s: seq<Blk>, from: int, used: bool, to: int) {
    if s == [] then from == to
    else
      var b := s[0];
      && b.at == from && Shape(b)
      && (used || b.used)
      && SizeWord(m, from) == b.size + Flag(used)
      && (!b.used ==> Load(m, PrevSizeAt(b.End())) == b.size)
      && Seg(m, s[1..], b.End(), b.used, to)
  }

  // The size of the last block wraps round to the first one.
  function WrapSize(first: int, last: int): int { TWO64 + first - last }

  // A segment that runs up to the last block, with that block's own size word.
  ghost predicate Full(m: Mem, s: seq<Blk>, from: int, used: bool, first: int, last: int) {
    && Seg(m, s, from, used, last)
    && SizeWord(m, last) == WrapSize(first, last) + Flag(UsedAfter(s, used))
  }

  // Words strictly between a block's own tags and the next block's.
  ghost predicate Interior(s: seq<Blk>, a: int) {
    exists i :: 0 <= i < |s| && SizeAt(s[i].at) < a < s[i].End()
  }

  ghost predicate FreeAt(s: seq<Blk>, a: int) {
    exists i :: 0 <= i < |s| && s[i].at == a && !s[i].used
  }

  ghost predicate UsedAt(s: seq<Blk>, a: int) {
    exists i :: 0 <= i < |s| && s[i].at == a && s[i].used
  }

  // The words a client may write: its area runs from behind the header into the next
  // block's prev_size word.
  ghost predicate ClientWord(s: seq<Blk>, a: int) {
    exists i :: 0 <= i < |s| && s[i].used && s[i].at + HEADER_SIZE <= a <= s[i].End()
  }

  function SumSizes(s: seq<Blk>): int {
    if s == [] then 0 else s[0].size + SumSizes(s[1..])
  }

  // ---- segments ----

  lemma {:induction false} SegSplit(m: Mem, x: seq<Blk>, y: seq<Blk>, from: int, used: bool, to: int)
    requires Seg(m, x + y, from, used, to)
    ensures var mid := SegEnd(x, from);
      Seg(m, x, from, used, mid) && Seg(m, y, mid, UsedAfter(x, used), to)
  {
    if x == [] {
      assert x + y == y;
    } else {
      assert (x + y)[1..] == x[1..] + y;
      SegSplit(m, x[1..], y, x[0].End(), x[0].used, to);
    }
  }

  function SegEnd(s: seq<Blk>, from: int): int {
    if s == [] then from else SegEnd(s[1..], s[0].End())
  }

  lemma {:induction false} SegJoin(m: Mem, x: seq<Blk>, y: seq<Blk>, from: int, used: bool, mid: int, to: int)
    requires Seg(m, x, from, used, mid) && Seg(m, y, mid, UsedAfter(x, used), to)
    ensures Seg(m, x + y, from, used, to)
  {
    if x == [] {
      assert x + y == y;
    } else {
      assert (x + y)[1..] == x[1..] + y;
      SegJoin(m, x[1..], y, x[0].End(), x[0].used, mid, to);
    }
  }

  lemma {:induction false} SegRange(m: Mem, s: seq<Blk>, from: int, used: bool, to: int)
    requires Seg(m, s, from, used, to)
    ensures from <= to && (s != [] ==> from + MIN_BLOCK_SIZE <= to) && SegEnd(s, from) == to
    ensures forall i :: 0 <= i < |s| ==> from <= s[i].at && s[i].End() <= to && Shape(s[i])
    ensures s != [] ==> s[|s| - 1].End() == to
    ensures s != [] ==> s[0].at == from
    ensures forall i :: 1 <= i < |s| ==> s[0].End() <= s[i].at
  {
    if s != [] {
      SegRange(m, s[1..], s[0].End(), s[0].used, to);
      forall i | 1 <= i < |s|
        ensures s[0].End() <= s[i].at
      {
        assert s[i] == s[1..][i - 1];
      }
      forall i | 0 <= i < |s|
        ensures from <= s[i].at && s[i].End() <= to && Shape(s[i])
      {
        if i > 0 { assert s[i] == s[1..][i - 1]; }
      }
      if |s| > 1 { assert s[|s| - 1] == s[1..][|s| - 2]; }
    }
  }

  // Writes that stay strictly inside blocks (or outside the segment) leave it as it is.
  lemma {:induction false} SegFrame(m: Mem, m': Mem, s: seq<Blk>, from: int, used: bool, to: int)
    requires Seg(m, s, from, used, to)
    requires forall a :: from < a <= to && Load(m, a) != Load(m', a) ==> Interior(s, a)
    ensures Seg(m', s, from, used, to)
  {
    SegRange(m, s, from, used, to);
    if s != [] {
      var b := s[0];
      assert s == [b] + s[1..];
      SegRange(m, s[1..], b.End(), b.used, to);
      forall a | b.End() < a <= to && Load(m, a) != Load(m', a)
        ensures Interior(s[1..], a)
      {
        var i :| 0 <= i < |s| && SizeAt(s[i].at) < a < s[i].End();
        assert s[i] == s[1..][i - 1];
      }
      assert !Interior(s, SizeAt(from)) && !Interior(s, b.End());
      SegFrame(m, m', s[1..], b.End(), b.used, to);
    }
  }

  lemma FullFrame(m: Mem, m': Mem, s: seq<Blk>, from: int, used: bool, first: int, last: int)
    requires Full(m, s, from, used, first, last)
    requires forall a :: from < a <= SizeAt(last) && Load(m, a) != Load(m', a) ==> Interior(s, a)
    ensures Full(m', s, from, used, first, last)
  {
    SegRange(m, s, from, used, last);
    SegFrame(m, m', s, from, used, last);
    assert !Interior(s, SizeAt(last));
  }

  // Changing the PREV_USED flag of the block that follows a segment boundary.
  lemma FullSetFlag(m: Mem, m': Mem, s: seq<Blk>, from: int, was: bool, used: bool, first: int, last: int)
    requires Full(m, s, from, was, first, last)
    requires used || s == [] || s[0].used
    requires SizeWord(m', from) == SizeWord(m, from) - Flag(was) + Flag(used)
    requires forall a :: from < a <= SizeAt(last) && a != SizeAt(from) && Load(m, a) != Load(m', a) ==> Interior(s, a)
    ensures Full(m', s, from, used, first, last)
  {
    SegRange(m, s, from, was, last);
    if s != [] {
      var b := s[0];
      SegRange(m, s[1..], b.End(), b.used, last);
      assert Full(m, s[1..], b.End(), b.used, first, last);
      forall a | b.End() < a <= SizeAt(last) && Load(m, a) != Load(m', a)
        ensures Interior(s[1..], a)
      {
        var i :| 0 <= i < |s| && SizeAt(s[i].at) < a < s[i].End();
        assert s[i] == s[1..][i - 1];
      }
      assert !Interior(s, b.End());
      FullFrame(m, m', s[1..], b.End(), b.used, first, last);
    }
  }

  // The total is fixed by where the segment starts and ends.
  lemma {:induction false} SegSum(m: Mem, s: seq<Blk>, from: int, used: bool, to: int)
    requires Seg(m, s, from, used, to)
    ensures SumSizes(s) == to - from
  {
    if s != [] { SegSum(m, s[1..], s[0].End(), s[0].used, to); }
  }

  // Two free blocks are never neighbours, so a heap with nothing in use is one block.
  lemma {:induction false} SegAllFree(m: Mem, s: seq<Blk>, from: int, used: bool, to: int)
    requires Seg(m, s, from, used, to) && from < to
    requires forall i :: 0 <= i < |s| ==> !s[i].used
    ensures used && s == [Blk(from, to - from, false)]
  {
    assert !s[0].used;
  }
}
