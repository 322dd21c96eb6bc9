// heap_cntrl and the calls that rewrite the arena behind it.  Every method keeps the raw
// words and the picture of them (blocks, free list) in step.
module HeapAllocator {
  import opened HeapModel
  import opened HeapFreeList
  import opened HeapHole
  import opened HeapSpec
  import opened HeapSteps

  class HeapCntrl {
    var mem: Mem
    const head: int          // address of the list sentinel inside the structure
    var firstBlock: int
    var lastBlock: int
    ghost var blocks: seq<Blk>
    ghost var list: seq<int>

    ghost function Where(): Place
      reads this
    {
      Place(head, firstBlock, lastBlock)
    }

    ghost function View(): State
      reads this
    {
      State(blocks, list)
    }

    ghost predicate Valid()
      reads this
    {
      Sound(mem, Where(), View())
    }

    predicate BlockInHeap(b: int)
      reads this
    {
      firstBlock <= b <= lastBlock
    }

    // A control structure at the given address; heapInit gives it an arena.
    constructor (theheap: int)
      ensures head == theheap
    {
      head := theheap;
      mem := map[];
      firstBlock, lastBlock := 0, 0;
      blocks, list := [], [];
    }

    // Lays out the arena [start, start + size) as one free block between the sentinels.
    method Init(start: int, size: int) returns (r: int)
      requires 0 <= start < TWO64 && 0 <= size < TWO64
      requires head + MIN_BLOCK_SIZE <= start || start + size <= head
      modifies this
      ensures r != 0 <==> start + size < TWO64 && FirstBlockOf(start) + HEADER_SIZE + MIN_BLOCK_SIZE <= start + size
      ensures r == 0 ==> mem == old(mem) && View() == old(View())
      ensures r != 0 ==> Valid() && r == lastBlock - firstBlock
                         && View() == State([Blk(firstBlock, r, false)], [firstBlock])
      ensures r != 0 ==> start <= firstBlock && firstBlock - start < PAGE_SIZE
                         && lastBlock + HEADER_SIZE <= start + size < lastBlock + HEADER_SIZE + PAGE_SIZE
    {
      hide AlignUp, AlignDown, FirstLast, FirstBlockOf, BlockAt, Sound, InitTags, InitList;
      FirstLastBounds(start, size);
      var layout := FirstLast(start, size);
      if layout.NoRoom? {
        return 0;
      }
      var first, last := layout.first, layout.last;
      var firstSize := last - first;
      var heapEnd := start + size;
      PageSum(last, first);
      WrapEven(first, last);
      WrappedSize(first, last);
      firstBlock, lastBlock := first, last;
      mem := InitTags(mem, first, last, firstSize, heapEnd, (first - last) % TWO64);
      mem := InitList(mem, head, first);
      blocks, list := [Blk(first, firstSize, false)], [first];
      InitReads(old(mem), head, first, last, heapEnd);
      InitSound(mem, head, first, last);
      return firstSize;
    }

    // Storing to the client's own area is always allowed, the borrowed prev_size word of the
    // next block included, and never disturbs the heap.
    method ClientStore(a: int, v: int)
      requires Valid() && ClientWord(blocks, a)
      modifies this`mem
      ensures Valid() && mem == old(mem)[a := v]
    {
      ghost var i :| 0 <= i < |blocks| && blocks[i].used && blocks[i].at + HEADER_SIZE <= a <= blocks[i].End();
      ghost var b := blocks[i];
      ghost var pre, post := blocks[..i], blocks[i + 1..];
      assert blocks == pre + [b] + post;
      HoledOpen(mem, Where(), pre, [b], post, list);
      ghost var h := Hole(pre, b.at, [b], b.End(), post);
      mem := mem[a := v];
      HoledRewrite(old(mem), mem, Where(), h, true, true, list);
      assert Seg(mem, [b][1..], b.End(), true, b.End());
      HoledClose(mem, Where(), h, true, list);
    }

    // Cuts allocSize bytes off the front of the hole [block, nextBlock) and returns the rest,
    // if it is worth a block, to the free list behind freeAnchor.
    method Split(block: int, nextBlock: int, freeAnchor: int, allocSize: int,
                 ghost pre: seq<Blk>, ghost post: seq<Blk>, ghost free: seq<int>, ghost j: int)
      requires Holed(mem, Where(), Hole(pre, block, [], nextBlock, post), false, free)
      requires 0 <= j <= |free| && freeAnchor == Ring(head, free)[j]
      requires post == [] || post[0].used
      requires block % PAGE_SIZE == 0 && nextBlock % PAGE_SIZE == 0
      requires SizeWord(mem, block) == nextBlock - block + Flag(UsedAfter(pre, true))
      requires SizeWord(mem, nextBlock) % 2 == 0
      requires UsedSize(allocSize) <= nextBlock - block + ALLOC_BONUS
      modifies this`mem
      ensures Snug(Taken(nextBlock - block, allocSize), nextBlock - block, allocSize)
      ensures var n := nextBlock - block;
        var u := Taken(n, allocSize);
        if u < n
        then Sound(mem, Where(), State(pre + [Blk(block, u, true), Blk(block + u, n - u, false)] + post,
                                       Inserted(free, j, block + u)))
        else Sound(mem, Where(), State(pre + [Blk(block, u, true)] + post, free))
      ensures forall a :: ClientWord(pre, a) || ClientWord(post, a) ==> Load(mem, a) == Load(old(mem), a)
    {
      hide Holed, Sound, InsertAfterLinks, ClientWord, UsedSize, PrevUsed, BlockSize, BlockAt, AlignUp, Ring, SizeWord, Snug;
      ghost var h := Hole(pre, block, [], nextBlock, post);
      HoledRange(mem, Where(), h, false, free);
      InTheArena(mem, Where(), h, false, free);
      PageSum(nextBlock, block);
      ReadSize(mem, block, nextBlock - block, UsedAfter(pre, true));
      var blockSize := BlockSize(mem, block);
      TakenFits(blockSize, allocSize);
      TakenIsSnug(blockSize, allocSize);
      var usedSize := UsedSize(allocSize);
      var usedBlockSize := AlignUp(usedSize, PAGE_SIZE);
      var freeSize := blockSize + ALLOC_BONUS - usedSize;
      if freeSize >= MIN_BLOCK_SIZE + ALLOC_BONUS {
        NoWrap(block, usedBlockSize);
        PageSum(block, usedBlockSize);
        var freeBlock := BlockAt(block, usedBlockSize);
        SplitRest(mem, Where(), pre, block, freeBlock, nextBlock, post, free, j);
        NextNextUsed(mem, Where(), pre, block, nextBlock, post, free);
        var freeBlockSize := blockSize - usedBlockSize;
        var nextNextBlock := BlockAt(nextBlock, BlockSize(mem, nextBlock));
        FlagElsewhere(mem, block, usedBlockSize, nextNextBlock);
        mem := mem[SizeAt(block) := usedBlockSize + SizeWord(mem, block) % 2];
        if PrevUsed(mem, nextNextBlock) {
          mem := InsertAfterLinks(mem, freeAnchor, freeBlock);
        } else {
          assert false;  // the block behind a free one is never free, so nothing to merge with
        }
        mem := mem[SizeAt(freeBlock) := freeBlockSize + Flag(true)];
        mem := mem[PrevSizeAt(nextBlock) := freeBlockSize];
        mem := mem[SizeAt(nextBlock) := BlockSize(mem, nextBlock)];
      } else {
        SplitWhole(mem, Where(), pre, block, nextBlock, post, free);
        mem := mem[SizeAt(nextBlock) := BlockSize(mem, nextBlock) + Flag(true)];
      }
    }

    // The request lies at the back of the hole: the front stays free, the new block starts
    // just before allocBegin.
    method AllocateFromEnd(block: int, nextBlock: int, freeAnchor: int, allocBegin: int, allocSize: int,
                           ghost pre: seq<Blk>, ghost post: seq<Blk>, ghost free: seq<int>, ghost j: int)
      returns (newBlock: int)
      requires Holed(mem, Where(), Hole(pre, block, [], nextBlock, post), false, free)
      requires 0 <= j <= |free| && freeAnchor == Ring(head, free)[j]
      requires post == [] || post[0].used
      requires block % PAGE_SIZE == 0 && nextBlock % PAGE_SIZE == 0 && allocBegin % PAGE_SIZE == 0
      requires SizeWord(mem, block) == nextBlock - block + Flag(true) && UsedAfter(pre, true)
      requires SizeWord(mem, nextBlock) % 2 == 0
      requires block + MIN_BLOCK_SIZE <= allocBegin - HEADER_SIZE
      requires allocBegin - HEADER_SIZE + MIN_BLOCK_SIZE <= nextBlock
      requires UsedSize(allocSize) <= nextBlock - (allocBegin - HEADER_SIZE) + ALLOC_BONUS
      modifies this`mem
      ensures newBlock == allocBegin - HEADER_SIZE
      ensures Snug(Taken(nextBlock - newBlock, allocSize), nextBlock - newBlock, allocSize)
      ensures var n := nextBlock - newBlock;
        var u := Taken(n, allocSize);
        var front := pre + [Blk(block, newBlock - block, false)];
        var list1 := Inserted(free, j, block);
        if u < n
        then Sound(mem, Where(), State(front + [Blk(newBlock, u, true), Blk(newBlock + u, n - u, false)] + post,
                                       Inserted(list1, j + 1, newBlock + u)))
        else Sound(mem, Where(), State(front + [Blk(newBlock, u, true)] + post, list1))
      ensures forall a :: ClientWord(pre, a) || ClientWord(post, a) ==> Load(mem, a) == Load(old(mem), a)
    {
      hide Holed, Sound, InsertAfterLinks, ClientWord, UsedSize, Taken, BlockAt, PrevUsed, SizeWord, Snug;
      InTheArena(mem, Where(), Hole(pre, block, [], nextBlock, post), false, free);
      NoWrap(allocBegin, -HEADER_SIZE);
      GridGap(allocBegin, 0);
      PageSum(nextBlock, block);
      ReadSize(mem, block, nextBlock - block, true);
      newBlock := BlockAt(allocBegin, -HEADER_SIZE);
      var newBlockSize := nextBlock - newBlock;
      var sizeAdjusted := newBlock - block;
      var anchor := freeAnchor;
      CutEnd(mem, Where(), pre, block, newBlock, nextBlock, post, free, j);
      if PrevUsed(mem, block) {
        mem := InsertAfterLinks(mem, anchor, block);
        anchor := block;
      } else {
        assert false;  // a free block never follows a free block
      }
      mem := mem[SizeAt(block) := sizeAdjusted + Flag(true)];
      mem := mem[PrevSizeAt(newBlock) := sizeAdjusted];
      mem := mem[SizeAt(newBlock) := newBlockSize];
      ghost var front := pre + [Blk(block, sizeAdjusted, false)];
      ghost var list1 := Inserted(free, j, block);
      assert Ring(head, list1)[j + 1] == block;
      ClientPrefix(pre, [Blk(block, sizeAdjusted, false)]);
      Split(newBlock, nextBlock, anchor, allocSize, front, post, list1, j + 1);
    }

    // Takes the free block off the list and carves the request out of it: from the front
    // when that is where its area begins, else from the back.
    method AllocateBlock(block: int, allocBegin: int, size: int, ghost i: int, ghost j: int) returns (newBlock: int)
      requires Valid() && 0 <= i < |blocks| && 0 <= j < |list|
      requires blocks[i].at == block && !blocks[i].used && list[j] == block
      requires Fits(blocks[i], allocBegin, size)
      modifies this`mem, this`blocks, this`list
      ensures Valid() && View() == Allocated(old(View()), i, j, allocBegin, size)
      ensures Carved(old(View()), View(), i, j, allocBegin, size)
      ensures newBlock == allocBegin - HEADER_SIZE
      ensures forall a :: ClientWord(old(blocks), a) ==> Load(mem, a) == Load(old(mem), a)
    {
      hide Sound, Holed, RemoveLinks, ClientWord, PrevUsed, BlockSize, BlockAt, Allocated, Taken, UsedSize, Removed, Inserted, SizeWord, UsedAfter, Carved;
      ghost var st := View();
      ghost var pre, b, post := blocks[..i], blocks[i], blocks[i + 1..];
      TagsAround(mem, Where(), st, i);
      Bounds(mem, Where(), st, i);
      ClientOfFree(blocks, i);
      TakeOff(mem, Where(), st, i, j);
      var areaBegin := block + HEADER_SIZE;
      var offset := allocBegin - areaBegin;
      var blockSize := BlockSize(mem, block);
      NoWrap(block, blockSize);
      var nextBlock := BlockAt(block, blockSize);
      var freeAnchor := head;
      if PrevUsed(mem, nextBlock) {
        assert false;  // the block is free, so the flag behind it is clear
      } else {
        freeAnchor := Load(mem, PrevAt(block));
        mem := RemoveLinks(mem, block);
      }
      RemovedLength(list, j);
      if offset < PAGE_SIZE {
        AllocatedBegin(st, i, j, allocBegin, size);
        Split(block, nextBlock, freeAnchor, size + offset, pre, post, Removed(list, j), j);
        newBlock := block;
      } else {
        AllocatedEnd(st, i, j, allocBegin, size);
        GridPoint(block, offset);
        newBlock := AllocateFromEnd(block, nextBlock, freeAnchor, allocBegin, size, pre, post, Removed(list, j), j);
      }
      AllocatedIsCarved(st, i, j, allocBegin, size);
      st := Allocated(st, i, j, allocBegin, size);
      blocks, list := st.blocks, st.list;
    }

    // First fit along the free list, for every alignment.  The answer is NULL exactly when no
    // block on the list admits the request; otherwise the area is aligned, inside the heap, and
    // apart from every area handed out before.
    method FindStart(size: int, alignment: int) returns (block: int, begin: int, ghost i: int, ghost j: int)
      requires Valid() && 0 <= size < TWO64 && 0 <= alignment < TWO64
      ensures j == FirstFit(View(), 0, size, alignment) && (begin == 0 <==> j == |list|)
      ensures begin != 0 ==>
        && block == list[j] && i == BlockIndex(blocks, block) && i < |blocks| && !blocks[i].used && blocks[i].at == block
        && begin == StartIn(blocks[i], size, alignment)
      ensures begin != 0 && alignment != 0 ==> begin % alignment == 0
      ensures begin != 0 ==> firstBlock + HEADER_SIZE <= begin && begin + size <= lastBlock + ALLOC_BONUS
      ensures begin != 0 ==> ApartFromUsed(blocks, begin, size)
    {
      hide Sound, ClientWord, RemoveLinks, UsedSize, AlignDown, FirstFit, CheckBlock;
      ghost var st := View();
      var sizeFloor := (size + HEADER_SIZE - ALLOC_BONUS) % TWO64;
      i, j := 0, 0;
      begin, block := 0, head;
      if sizeFloor < size {
        TooLarge(mem, Where(), st, size, alignment, 0);
        j := FirstFit(st, 0, size, alignment);
        return;
      }
      SmallEnough(size);
      FirstNode(mem, Where(), st, 0);
      block := Load(mem, NextAt(head));
      while block != head
        invariant 0 <= j <= |list| && block == Ring(head, list)[j + 1] && begin == 0
        invariant FirstFit(st, 0, size, alignment) == FirstFit(st, j, size, alignment)
        decreases |list| - j
      {
        OnList(mem, Where(), st, j);
        i := BlockIndex(blocks, block);
        FirstFitStep(st, j, size, alignment);
        if SizeWord(mem, block) > sizeFloor {
          if alignment == 0 {
            begin := block + HEADER_SIZE;
          } else {
            begin := CheckBlock(block, BlockSize(mem, block), size, alignment);
          }
        }
        assert begin == StartIn(blocks[i], size, alignment);
        if begin != 0 {
          AreaIsApart(mem, Where(), st, i, size, alignment);
          return;
        }
        FirstNode(mem, Where(), st, j + 1);
        block := Load(mem, NextAt(block));
        j := j + 1;
      }
      ListEnds(mem, Where(), st, j);
      FirstFitEnd(st, j, size, alignment);
    }

    // On the page grid the block is carved out, and the heap stays sound.
    method AllocateAligned(size: int, alignment: int) returns (p: int)
      requires Valid() && 0 <= size < TWO64 && 0 <= alignment < TWO64
      requires alignment == 0 || PowerOfTwo(alignment)
      requires PageGrid(size, alignment)
      modifies this`mem, this`blocks, this`list
      ensures Valid()
      ensures var j := FirstFit(old(View()), 0, size, alignment);
        if j == |old(list)| then p == 0 && View() == old(View()) && mem == old(mem)
        else
          var i := BlockIndex(old(blocks), old(list)[j]);
          && i < |old(blocks)|
          && p == StartIn(old(blocks)[i], size, alignment) != 0
          && View() == Allocated(old(View()), i, j, p, size)
          && Carved(old(View()), View(), i, j, p, size)
      ensures p != 0 ==> p % PAGE_SIZE == 0 && (alignment != 0 ==> p % alignment == 0)
      ensures p != 0 ==> firstBlock + HEADER_SIZE <= p && p + size <= lastBlock + ALLOC_BONUS
      ensures forall a :: Live(blocks, a) <==> Live(old(blocks), a) || (p != 0 && a == p - HEADER_SIZE)
      ensures p != 0 ==> ApartFromUsed(old(blocks), p, size)
      ensures forall a :: ClientWord(old(blocks), a) ==> Load(mem, a) == Load(old(mem), a)
    {
      hide Sound, PowerOfTwo, PageGrid, ClientWord, Allocated, RemoveLinks, UsedSize, AlignDown, FirstFit, Fits, Carved;
      hide StartIn, Live, ApartFromUsed;
      ghost var st := View();
      var block, begin, i, j := FindStart(size, alignment);
      if begin != 0 {
        AllocationFits(mem, Where(), st, i, size, alignment);
        var _ := AllocateBlock(block, begin, size, i, j);
        AllocatedLive(old(mem), mem, Where(), st, i, j, begin, size);
      }
      return begin;
    }

    method AllocateBytes(size: int) returns (p: int)
      requires Valid() && 0 <= size < TWO64
      modifies this`mem, this`blocks, this`list
      ensures Valid()
      ensures var j := FirstFit(old(View()), 0, size, 0);
        if j == |old(list)| then p == 0 && View() == old(View()) && mem == old(mem)
        else
          var i := BlockIndex(old(blocks), old(list)[j]);
          && i < |old(blocks)| && p == old(blocks)[i].at + HEADER_SIZE
          && View() == Allocated(old(View()), i, j, p, size)
          && Carved(old(View()), View(), i, j, p, size)
      ensures p != 0 ==> p % PAGE_SIZE == 0
      ensures p != 0 ==> firstBlock + HEADER_SIZE <= p && p + size <= lastBlock + ALLOC_BONUS
      ensures forall a :: Live(blocks, a) <==> Live(old(blocks), a) || (p != 0 && a == p - HEADER_SIZE)
      ensures p != 0 ==> ApartFromUsed(old(blocks), p, size)
      ensures forall a :: ClientWord(old(blocks), a) ==> Load(mem, a) == Load(old(mem), a)
    {
      hide Sound, Allocated, Live, ApartFromUsed, ClientWord, FirstFit, Carved;
      p := AllocateAligned(size, 0);
    }

    // Giving an area back.  A pointer outside the heap and a block already free are refused.
    method Free(ptr: int) returns (ok: bool)
      requires Valid() && 0 <= ptr < TWO64
      requires ptr == 0 || !BlockInHeap(BlockAt(ptr, -HEADER_SIZE)) || Known(blocks, ptr - HEADER_SIZE)
      modifies this`mem, this`blocks, this`list
      ensures Valid()
      ensures ok <==> ptr == 0 || Live(old(blocks), ptr - HEADER_SIZE)
      ensures if ptr != 0 && Live(old(blocks), ptr - HEADER_SIZE)
              then View() == Freed(old(View()), BlockIndex(old(blocks), ptr - HEADER_SIZE))
              else View() == old(View()) && mem == old(mem)
      ensures ptr != 0 ==> forall a :: Live(blocks, a) <==> Live(old(blocks), a) && a != ptr - HEADER_SIZE
      ensures forall a :: ClientWord(blocks, a) ==> Load(mem, a) == Load(old(mem), a)
    {
      hide Sound, Freed, RemoveLinks, ReplaceLinks, InsertAfterLinks, BlockAt, BlockSize, PrevUsed, Shape, ClientWord;
      if ptr == 0 {
        return true;
      }
      var block := BlockAt(ptr, -HEADER_SIZE);
      if !BlockInHeap(block) {
        OutsideIsUnknown(mem, Where(), View(), ptr);
        return false;
      }
      ghost var i := BlockIndex(blocks, ptr - HEADER_SIZE);
      TagsAround(mem, Where(), View(), i);
      NoWrap(ptr, -HEADER_SIZE);
      var blockSize := BlockSize(mem, block);
      NoWrap(block, blockSize);
      var nextBlock := BlockAt(block, blockSize);
      var size := blockSize;
      var prevFree, nextFree := false, false;
      if !BlockInHeap(nextBlock) || !PrevUsed(mem, nextBlock) {
        return false;
      }
      FreeReads(mem, Where(), View(), i);
      var nextBlockSize := BlockSize(mem, nextBlock);
      if nextBlock != lastBlock {
        NoWrap(nextBlock, nextBlockSize);
        var nextNextBlock := BlockAt(nextBlock, nextBlockSize);
        if !BlockInHeap(nextNextBlock) {
          return false;
        }
        nextFree := !PrevUsed(mem, nextNextBlock);
      }
      if !PrevUsed(mem, block) {
        var prevSize := Load(mem, PrevSizeAt(block));
        NoWrap(block, -prevSize);
        var prevBlock := BlockAt(block, -prevSize);
        if !BlockInHeap(prevBlock) || !PrevUsed(mem, prevBlock) {
          return false;
        }
        prevFree := true;
        size := size + prevSize;
        block := prevBlock;
      }
      if nextFree {
        size := size + nextBlockSize;
      }
      Coalesce(block, nextBlock, size, prevFree, nextFree, i);
      return true;
    }

    // The free neighbours are taken over, the list is brought up to date, and the tags of the
    // merged block are written.
    method Coalesce(block: int, nextBlock: int, size: int, prevFree: bool, nextFree: bool, ghost i: int)
      requires Valid() && 0 <= i < |blocks| && blocks[i].used
      requires prevFree == PrevFree(blocks, i) && nextFree == NextFree(blocks, i)
      requires block == if prevFree then blocks[i - 1].at else blocks[i].at
      requires nextBlock == blocks[i].End()
      requires block + size == if nextFree then blocks[i + 1].End() else blocks[i].End()
      modifies this`mem, this`blocks, this`list
      ensures Valid() && View() == Freed(old(View()), i)
      ensures forall a :: Live(blocks, a) <==> Live(old(blocks), a) && a != old(blocks)[i].at
      ensures forall a :: ClientWord(blocks, a) ==> Load(mem, a) == Load(old(mem), a)
    {
      hide Sound, Freed, RemoveLinks, ReplaceLinks, InsertAfterLinks, BlockAt, BlockSize, ClientWord, Live;
      Bounds(mem, Where(), View(), i);
      EndInArena(mem, Where(), View(), if nextFree then i + 1 else i);
      if prevFree {
        if nextFree {
          FreeBetweenFree(mem, Where(), View(), i);
          mem := RemoveLinks(mem, nextBlock);
        } else {
          FreeAfterFree(mem, Where(), View(), i);
        }
      } else if nextFree {
        FreeBeforeFree(mem, Where(), View(), i);
        mem := ReplaceLinks(mem, nextBlock, block);
      } else {
        FreeAlone(mem, Where(), View(), i);
        mem := InsertAfterLinks(mem, head, block);
      }
      ghost var linked := mem;
      mem := mem[SizeAt(block) := size + Flag(true)];
      NoWrap(block, size);
      var behind := BlockAt(block, size);
      mem := mem[PrevSizeAt(behind) := size];
      mem := mem[SizeAt(behind) := BlockSize(mem, behind)];
      assert mem == FreeTags(linked, block, behind);
      ghost var st := Freed(View(), i);
      FreedLive(old(mem), mem, Where(), View(), i);
      blocks, list := st.blocks, st.list;
    }

    // Giving back everything that is in use, in whatever order.
    method FreeAll(ptrs: seq<int>)
      requires Valid()
      requires forall k :: 0 <= k < |ptrs| ==> 0 < ptrs[k] < TWO64 && Live(blocks, ptrs[k] - HEADER_SIZE)
      requires forall k, l :: 0 <= k < l < |ptrs| ==> ptrs[k] != ptrs[l]
      requires forall a :: Live(blocks, a) ==> a + HEADER_SIZE in ptrs
      modifies this`mem, this`blocks, this`list
      ensures Valid() && View() == State([Blk(firstBlock, lastBlock - firstBlock, false)], [firstBlock])
    {
      hide Sound, Freed, Live, ClientWord, Known;
      for n := 0 to |ptrs|
        invariant Valid()
        invariant forall k :: n <= k < |ptrs| ==> Live(blocks, ptrs[k] - HEADER_SIZE)
        invariant forall a :: Live(blocks, a) ==> a + HEADER_SIZE in ptrs[n..]
      {
        LiveIsKnown(blocks, ptrs[n] - HEADER_SIZE);
        var ok := Free(ptrs[n]);
      }
      NothingLive(mem, Where(), View());
    }
  }
}
