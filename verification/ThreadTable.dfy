// The slot table in its chunks: the walks of pt_slot_from_handle, pt_slot_alloc_locked and
// pthread_key_create, against the table as one sequence of slots.
module ThreadTable {
  import opened Collections
  import opened ThreadModel

  ghost predicate Chunked(chunks: seq<seq<Slot>>) {
    forall c :: 0 <= c < |chunks| ==> |chunks[c]| == CHUNK
  }

  // The chunks' slots, one after another.
  ghost function Flat(chunks: seq<seq<Slot>>): seq<Slot> {
    if chunks == [] then [] else Flat(chunks[..|chunks| - 1]) + chunks[|chunks| - 1]
  }

  lemma {:induction false} FlatLength(chunks: seq<seq<Slot>>)
    requires Chunked(chunks)
    ensures |Flat(chunks)| == |chunks| * CHUNK
  {
    if chunks != [] { FlatLength(chunks[..|chunks| - 1]); }
  }

  lemma {:induction false} FlatAt(chunks: seq<seq<Slot>>, c: nat, i: nat)
    requires Chunked(chunks) && c < |chunks| && i < CHUNK
    ensures c * CHUNK + i < |Flat(chunks)| == |chunks| * CHUNK && Flat(chunks)[c * CHUNK + i] == chunks[c][i]
  {
    FlatLength(chunks);
    FlatLength(chunks[..|chunks| - 1]);
    if c < |chunks| - 1 { FlatAt(chunks[..|chunks| - 1], c, i); }
  }

  lemma {:induction false} FlatSet(chunks: seq<seq<Slot>>, c: nat, i: nat, slot: Slot)
    requires Chunked(chunks) && c < |chunks| && i < CHUNK
    ensures c * CHUNK + i < |Flat(chunks)|
    ensures Chunked(chunks[c := chunks[c][i := slot]])
    ensures Flat(chunks[c := chunks[c][i := slot]]) == Flat(chunks)[c * CHUNK + i := slot]
  {
    FlatAt(chunks, c, i);
    var n := |chunks| - 1;
    var updated := chunks[c := chunks[c][i := slot]];
    FlatLength(chunks[..n]);
    if c < n {
      assert updated[..n] == chunks[..n][c := chunks[..n][c][i := slot]];
      FlatSet(chunks[..n], c, i, slot);
    } else {
      assert updated[..n] == chunks[..n];
    }
  }

  lemma {:induction false} FirstFreeIs(slots: seq<Slot>, from: nat, j: nat)
    requires from <= j <= |slots| && (forall k :: from <= k < j ==> slots[k].used) && (j < |slots| ==> !slots[j].used)
    ensures FirstFree(slots, from) == j
    decreases j - from
  {
    if from < j { FirstFreeIs(slots, from + 1, j); }
  }

  // Setting up the first chunk makes no difference to what is handed out.
  lemma FirstChunkIs()
    ensures Flat([NewChunk(1)]) == NewChunk(1) && Allocated(NewChunk(1)) == Allocated([])
    ensures FirstFree(NewChunk(1), 0) == FirstFree([], 0)
  {
    assert [NewChunk(1)][..0] == [];
    var first := NewChunk(1);
    assert Allocated(first) == first[0 := Blank(first[0].handle)] == first;
    assert Allocated([]) == [] + NewChunk(1);
  }

  ghost predicate AllUsed(chunks: seq<seq<Slot>>, n: int) {
    forall k :: 0 <= k < n && k < |Flat(chunks)| ==> Flat(chunks)[k].used
  }

  lemma ChunkAt(chunks: seq<seq<Slot>>, c: nat, i: nat)
    requires Chunked(chunks) && c < |chunks| && i < CHUNK
    ensures |chunks[c]| == CHUNK && c * CHUNK + i < |Flat(chunks)| && Flat(chunks)[c * CHUNK + i] == chunks[c][i]
  {
    FlatAt(chunks, c, i);
  }

  class PtTable {
    var chunks: seq<seq<Slot>>      // pt_chunk0 and its next chain
    var nchunks: nat                // 0 until pt_chunk0 is set up
    var keys: seq<Key>
    var gens: int                   // keys created so far: tells one creation of an index from another

    ghost predicate Valid()
      reads this
    {
      && |chunks| >= 1 && Chunked(chunks) && |keys| == KEYS
      && (nchunks == |chunks| || (nchunks == 0 && chunks == [seq(CHUNK, _ => Blank(0))]))
    }

    ghost function Slots(): seq<Slot>
      reads this
    {
      if nchunks == 0 then [] else Flat(chunks)
    }

    constructor ()
      ensures Valid() && Slots() == [] && keys == seq(KEYS, _ => Key(false, false, -1)) && gens == 0
    {
      chunks := [seq(CHUNK, _ => Blank(0))];
      nchunks := 0;
      keys := seq(KEYS, _ => Key(false, false, -1));
      gens := 0;
    }

    method SlotFromHandle(handle: nat) returns (slot: Option<int>)
      requires Valid()
      ensures slot == SlotOf(Slots(), handle)
    {
      if handle == 0 || nchunks == 0 { return None; }
      var idx := handle - 1;
      FlatLength(chunks);
      var c := 0;
      var n := idx / CHUNK;
      while n > 0 && c < |chunks|
        invariant 0 <= n && c + n == idx / CHUNK && c <= |chunks|
      {
        c, n := c + 1, n - 1;
      }
      if c == |chunks| { return None; }
      FlatAt(chunks, c, idx % CHUNK);
      if !chunks[c][idx % CHUNK].used { return None; }
      return Some(idx);
    }

    // A free slot, cleared but keeping its handle; a new chunk when every slot is taken.
    method SlotAlloc() returns (j: nat)
      requires Valid()
      modifies this`chunks, this`nchunks
      ensures Valid() && Slots() == Allocated(old(Slots())) && j == FirstFree(old(Slots()), 0)
    {
      hide Flat, Allocated, FirstFree;
      if nchunks == 0 {
        FirstChunkIs();
        chunks := [NewChunk(1)];
        nchunks := 1;
      }
      j := AllocIn();
    }

    method AllocIn() returns (j: nat)
      requires Valid() && nchunks > 0
      modifies this`chunks, this`nchunks
      ensures Valid() && Slots() == Allocated(old(Slots())) && j == FirstFree(old(Slots()), 0)
    {
      hide FirstFree, Flat, Chunked;
      ghost var before := chunks;
      FlatLength(chunks);
      var c := 0;
      while c < |chunks|
        invariant 0 <= c <= |chunks| && chunks == before && Valid() && nchunks == |chunks|
        invariant |Flat(before)| == |before| * CHUNK && AllUsed(before, c * CHUNK)
      {
        var i := 0;
        while i < CHUNK
          invariant 0 <= i <= CHUNK && chunks == before && Valid() && nchunks == |chunks|
          invariant AllUsed(before, c * CHUNK + i)
        {
          ChunkAt(chunks, c, i);
          if !chunks[c][i].used {
            j := c * CHUNK + i;
            FirstFreeIs(Flat(before), 0, j);
            Reuse(c, i);
            return;
          }
          i := i + 1;
        }
        c := c + 1;
      }
      FirstFreeIs(Flat(before), 0, |Flat(before)|);
      j := nchunks * CHUNK;
      AddChunk();
    }

    // The slot is cleared, but keeps its handle.
    method Reuse(c: nat, i: nat)
      requires Valid() && nchunks > 0 && c < |chunks| && i < |chunks[c]| && i < CHUNK
      modifies this`chunks
      ensures c * CHUNK + i < |old(Slots())|
      ensures Valid() && Slots() == old(Slots())[c * CHUNK + i := Blank(old(Slots())[c * CHUNK + i].handle)]
    {
      hide Flat;
      ChunkAt(chunks, c, i);
      FlatSet(chunks, c, i, Blank(chunks[c][i].handle));
      chunks := chunks[c := chunks[c][i := Blank(chunks[c][i].handle)]];
    }

    method AddChunk()
      requires Valid() && nchunks > 0
      modifies this`chunks, this`nchunks
      ensures Valid() && Slots() == old(Slots()) + NewChunk(|old(Slots())| + 1)
    {
      FlatLength(chunks);
      chunks := chunks + [NewChunk(nchunks * CHUNK + 1)];
      nchunks := nchunks + 1;
      assert chunks[..|chunks| - 1] == old(chunks);
    }

    // A new key starts out NULL in every thread.
    method KeyCreate(dtor: bool) returns (key: int)
      requires Valid()
      modifies this
      ensures Valid() && gens == old(gens) + (if key == 0 then 0 else 1)
      ensures var i := FirstFreeKey(old(keys), 0);
              if i == KEYS then key == 0 && keys == old(keys) && Slots() == old(Slots())
              else key == i + 1 && keys == old(keys)[i := Key(true, dtor, old(gens))] && Slots() == Cleared(old(Slots()), i)
    {
      var i := 0;
      while i < KEYS && keys[i].used
        invariant 0 <= i <= KEYS && forall k :: 0 <= k < i ==> keys[k].used
      {
        i := i + 1;
      }
      FirstFreeKeyIs(keys, 0, i);
      if i == KEYS { return 0; }
      keys := keys[i := Key(true, dtor, gens)];
      gens := gens + 1;
      key := i + 1;
      if nchunks > 0 { ClearKey(i); }
    }

    method ClearKey(i: int)
      requires Valid() && nchunks > 0
      modifies this`chunks
      ensures Valid() && Slots() == Cleared(old(Slots()), i)
    {
      ghost var was := chunks;
      var c := 0;
      while c < |chunks|
        invariant 0 <= c <= |chunks| == |was|
        invariant forall d :: 0 <= d < |was| ==> chunks[d] == if d < c then Cleared(was[d], i) else was[d]
      {
        chunks := chunks[c := Cleared(chunks[c], i)];
        c := c + 1;
      }
      FlatCleared(was, chunks, i);
    }
  }

  lemma {:induction false} FirstFreeKeyIs(keys: seq<Key>, from: nat, i: nat)
    requires from <= i <= |keys| && (forall k :: from <= k < i ==> keys[k].used) && (i < |keys| ==> !keys[i].used)
    ensures FirstFreeKey(keys, from) == i
    decreases i - from
  {
    if from < i { FirstFreeKeyIs(keys, from + 1, i); }
  }

  lemma {:induction false} FlatCleared(was: seq<seq<Slot>>, now: seq<seq<Slot>>, i: int)
    requires |now| == |was| && forall d :: 0 <= d < |was| ==> now[d] == Cleared(was[d], i)
    ensures Flat(now) == Cleared(Flat(was), i)
  {
    if was != [] {
      var n := |was| - 1;
      FlatCleared(was[..n], now[..n], i);
      assert Cleared(Flat(was[..n]) + was[n], i) == Cleared(Flat(was[..n]), i) + Cleared(was[n], i);
    }
  }
}
