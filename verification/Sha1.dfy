// sha1.c: the compression with its loops, and the streaming context with its partial block.
module Sha1 {
  import Bytes
  import opened Sha1Model

  lemma WIs(block: seq<Byte>, t: nat)
    requires |block| == BLOCK
    ensures t < 16 ==> W(block, t) == BigEndian(block[4 * t], block[4 * t + 1], block[4 * t + 2], block[4 * t + 3])
    ensures t >= 16 ==> W(block, t) == Scheduled(W(block, t - 3), W(block, t - 8), W(block, t - 14), W(block, t - 16))
  {
  }

  // The words of the schedule, in a loop.
  method Schedule(block: seq<Byte>) returns (schedule: seq<Word>)
    requires |block| == BLOCK
    ensures |schedule| == 80 && forall t :: 0 <= t < 80 ==> schedule[t] == W(block, t)
  {
    hide Scheduled, BigEndian, W;
    var w := new Word[80](_ => 0);
    var t := 0;
    while t < 16
      invariant 0 <= t <= 16 && forall i :: 0 <= i < t ==> w[i] == W(block, i)
    {
      WIs(block, t);
      w[t] := BigEndian(block[t * 4 + 0], block[t * 4 + 1], block[t * 4 + 2], block[t * 4 + 3]);
      t := t + 1;
    }
    while t < 80
      invariant 16 <= t <= 80 && forall i :: 0 <= i < t ==> w[i] == W(block, i)
    {
      WIs(block, t);
      w[t] := Scheduled(w[t - 3], w[t - 8], w[t - 14], w[t - 16]);
      t := t + 1;
    }
    schedule := w[..];
  }

  // The round function as the code has it.
  function CodeF(t: nat, b: Word, c: Word, d: Word): Word {
    if t < 20 then (b & c) | (!b & d)
    else if t < 40 then b ^ c ^ d
    else if t < 60 then (b & c) | (b & d) | (c & d)
    else b ^ c ^ d
  }

  lemma CodeFIs(t: nat, b: Word, c: Word, d: Word)
    ensures CodeF(t, b, c, d) == F(t, b, c, d)
  {
    ChOr(b, c, d);
    MajOr(b, c, d);
  }

  method Compress(h: Hash, block: seq<Byte>) returns (h': Hash)
    requires |block| == BLOCK
    ensures h' == Compressed(h, block)
  {
    hide F, CodeF, K, RotL, W, Sum, Plus;
    var w := Schedule(block);
    var a, b, c, d, e := h.a, h.b, h.c, h.d, h.e;
    var t := 0;
    while t < 80
      invariant 0 <= t <= 80 && Hash(a, b, c, d, e) == Rounds(h, block, t)
    {
      CodeFIs(t, b, c, d);
      var tmp := Sum(a, CodeF(t, b, c, d), e, K(t), w[t]);
      e := d;
      d := c;
      c := RotL(b, 30);
      b := a;
      a := tmp;
      t := t + 1;
    }
    h' := Plus(h, Hash(a, b, c, d, e));
  }

  lemma FoldedMore(h: Hash, m: seq<Byte>, block: seq<Byte>)
    requires |m| % BLOCK == 0 && |block| == BLOCK
    ensures |m + block| % BLOCK == 0 && Folded(h, m + block) == Compressed(Folded(h, m), block)
  {
    assert (m + block)[..|m + block| - BLOCK] == m;
    assert (m + block)[|m + block| - BLOCK..] == block;
  }

  lemma BitsMore(bits: int, length: int, n: int)
    requires bits == 8 * length % Bytes.WRAP64
    ensures (bits + n * 8) % Bytes.WRAP64 == 8 * (length + n) % Bytes.WRAP64
  {
  }

  class Context {
    var h: Hash
    var totalBits: nat              // modulo 2^64
    const block: array<Byte>
    var blockLen: nat
    ghost var message: seq<Byte>    // all that was hashed since Init

    // What is folded so far is the whole blocks of the message; the rest is in the buffer.
    ghost predicate Valid()
      reads this, block
    {
      && block.Length == BLOCK && blockLen < BLOCK && blockLen <= |message|
      && var whole := |message| - blockLen;
      && whole % BLOCK == 0 && h == Folded(INITIAL, message[..whole]) && block[..blockLen] == message[whole..]
      && totalBits == 8 * |message| % Bytes.WRAP64
    }

    constructor ()
      ensures Valid() && message == [] && fresh(block)
    {
      block := new Byte[BLOCK](_ => 0);
      h, totalBits, blockLen, message := INITIAL, 0, 0, [];
    }

    method Init()
      requires block.Length == BLOCK
      modifies this
      ensures Valid() && message == []
    {
      h, totalBits, blockLen, message := INITIAL, 0, 0, [];
    }

    method Update(data: seq<Byte>)
      requires Valid()
      modifies this, block
      ensures Valid() && message == old(message) + data
    {
      hide Folded, Buffered, Filled;
      totalBits := (totalBits + |data| * 8) % Bytes.WRAP64;
      BitsMore(old(totalBits), |message|, |data|);
      IsBuffered();
      ghost var start := message;
      var p := 0;
      CutNone(start, data);
      if blockLen > 0 {
        p := TopUp(data);
      }
      while |data| - p >= 64
        invariant 0 <= p <= |data| && block.Length == BLOCK && message == start + data[..p] && Buffered()
        invariant totalBits == 8 * (|start| + |data|) % Bytes.WRAP64
        invariant p < |data| ==> blockLen == 0
      {
        CutMore(start, data, p, p + 64);
        Whole(data[p..p + 64]);
        p := p + 64;
      }
      CutMore(start, data, p, |data|);
      if |data| - p > 0 {
        Store(data[p..]);
      }
      IsValid();
    }

    lemma IsBuffered()
      requires block.Length == BLOCK && blockLen < BLOCK && blockLen <= |message| && (|message| - blockLen) % BLOCK == 0
      requires h == Folded(INITIAL, message[..|message| - blockLen]) && block[..blockLen] == message[|message| - blockLen..]
      ensures Buffered()
    {
    }

    lemma IsValid()
      requires Buffered() && totalBits == 8 * |message| % Bytes.WRAP64
      ensures Valid()
    {
    }

    // A whole block straight from the data.
    method Whole(part: seq<Byte>)
      requires Buffered() && blockLen == 0 && |part| == 64
      modifies this`h, this`message
      ensures Buffered() && message == old(message) + part
    {
      hide Folded, Compressed;
      assert message[..|message|] == message;
      h := Compress(h, part);
      FoldedMore(INITIAL, message, part);
      message := message + part;
      assert message[..|message|] == message;
    }

    // Valid, but for the count of bits.
    ghost predicate Buffered()
      reads this, block
    {
      Filled() && blockLen < BLOCK
    }

    // The buffer may be full.
    ghost predicate Filled()
      reads this, block
    {
      && block.Length == BLOCK && blockLen <= BLOCK && blockLen <= |message|
      && var whole := |message| - blockLen;
      && whole % BLOCK == 0 && h == Folded(INITIAL, message[..whole]) && block[..blockLen] == message[whole..]
    }

    method TopUp(data: seq<Byte>) returns (take: nat)
      requires Buffered() && blockLen > 0
      modifies this`h, this`blockLen, this`message, block
      ensures Buffered() && take <= |data| && message == old(message) + data[..take]
      ensures take < |data| ==> blockLen == 0
    {
      hide Folded, Compressed;
      var want := 64 - blockLen;
      take := if |data| < want then |data| else want;
      Add(data[..take]);
      if blockLen == 64 { Flush(); }
    }

    method Add(part: seq<Byte>)
      requires Filled() && blockLen + |part| <= BLOCK
      modifies this`blockLen, this`message, block
      ensures Filled() && message == old(message) + part && blockLen == old(blockLen) + |part|
    {
      hide Folded;
      ghost var whole := |message| - blockLen;
      ghost var kept := block[..blockLen];
      Copy(blockLen, part);
      blockLen := blockLen + |part|;
      assert block[..blockLen] == kept + part;
      message := message + part;
      assert message[..whole] == old(message)[..whole];
      assert message[whole..] == old(message)[whole..] + part;
    }

    method Flush()
      requires Filled() && blockLen == BLOCK
      modifies this`h, this`blockLen
      ensures Buffered() && blockLen == 0
    {
      hide Folded, Compressed;
      ghost var whole := |message| - blockLen;
      assert block[..] == message[whole..];
      FoldedMore(INITIAL, message[..whole], block[..]);
      assert message[..whole] + block[..] == message == message[..|message|];
      h := Compress(h, block[..]);
      blockLen := 0;
    }

    // The last, partial block.
    method Store(rest: seq<Byte>)
      requires Buffered() && blockLen == 0 && 0 < |rest| < 64
      modifies this`blockLen, this`message, block
      ensures Buffered() && message == old(message) + rest
    {
      hide Filled;
      Add(rest);
    }

    method Copy(at: nat, data: seq<Byte>)
      requires at + |data| <= block.Length
      modifies block
      ensures block[..at] == old(block[..at]) && block[at..at + |data|] == data
      ensures block[at + |data|..] == old(block[at + |data|..])
    {
      var i := 0;
      while i < |data|
        invariant 0 <= i <= |data|
        invariant forall j :: 0 <= j < block.Length ==> block[j] == if at <= j < at + i then data[j - at] else old(block[j])
      {
        block[at + i] := data[i];
        i := i + 1;
      }
    }

    method Clear(from: nat, to: nat)
      requires from <= to <= block.Length
      modifies block
      ensures block[..from] == old(block[..from]) && block[from..to] == Zeros(to - from) && block[to..] == old(block[to..])
    {
      Copy(from, Zeros(to - from));
    }

    // The digest of everything that was hashed.
    method Final() returns (digest: seq<Byte>)
      requires Valid()
      modifies this, block
      ensures digest == Digest(old(message)) && |digest| == 20
      ensures blockLen == 0 && block[..] == Zeros(64)
    {
      hide Folded, Compressed, WordBytes, Padded;
      var bits := totalBits;
      h := Pad(bits);
      digest := HashBytes(h);
      DigestLength(h);
      Clear(0, 64);
      assert block[..] == block[0..64];
      blockLen := 0;
    }

    // The hash with the padding folded in.
    method Pad(bits: nat) returns (final: Hash)
      requires Valid() && bits == totalBits
      modifies this`blockLen, block
      ensures final == Folded(INITIAL, Padded(message))
    {
      hide Folded, Compressed, LengthField, Padded, Zeros;
      ghost var whole := message[..|message| - blockLen];
      ghost var tail := block[..blockLen];
      assert whole + tail == message;
      PaddedFold(whole, tail, LengthField(bits));
      Mark();
      final := h;
      if blockLen > 56 { final := FlushMarked(final); }
      final := LastBlock(final, bits);
    }

    method Mark()
      requires block.Length == BLOCK && blockLen < BLOCK
      modifies this`blockLen, block
      ensures blockLen == old(blockLen) + 1 && block[..blockLen] == old(block[..blockLen]) + [0x80]
    {
      block[blockLen] := 0x80;
      blockLen := blockLen + 1;
    }

    // No room for the length: a block of zeros behind the mark.
    method FlushMarked(h0: Hash) returns (h1: Hash)
      requires block.Length == BLOCK && 56 < blockLen <= BLOCK
      modifies this`blockLen, block
      ensures blockLen == 0 && h1 == Compressed(h0, old(block[..blockLen]) + Zeros(64 - old(blockLen)))
    {
      hide Compressed;
      Clear(blockLen, 64);
      assert block[..] == old(block[..blockLen]) + Zeros(64 - blockLen);
      h1 := Compress(h0, block[..]);
      blockLen := 0;
    }

    method LastBlock(h0: Hash, bits: nat) returns (h1: Hash)
      requires block.Length == BLOCK && blockLen <= 56
      modifies block
      ensures h1 == Compressed(h0, old(block[..blockLen]) + Zeros(56 - blockLen) + LengthField(bits))
    {
      hide Compressed, LengthField;
      Clear(blockLen, 56);
      ghost var front := block[..56];
      assert front == old(block[..blockLen]) + Zeros(56 - blockLen);
      PutLength(bits);
      assert block[..] == front + LengthField(bits);
      h1 := Compress(h0, block[..]);
    }

    method PutLength(bits: nat)
      requires block.Length == BLOCK
      modifies block
      ensures block[..56] == old(block[..56]) && block[56..] == LengthField(bits)
    {
      var i := 0;
      while i < 8
        invariant 0 <= i <= 8
        invariant forall j :: 0 <= j < 56 ==> block[j] == old(block[j])
        invariant forall j :: 0 <= j < i ==> block[56 + j] == LengthByte(bits, j)
      {
        block[56 + i] := LengthByte(bits, i);
        i := i + 1;
      }
    }
  }

  lemma DigestLength(h: Hash)
    ensures |HashBytes(h)| == 20
  {
  }

  // Parts of the data, one after another.
  lemma CutNone(start: seq<Byte>, data: seq<Byte>)
    ensures start + data[..0] == start && |start + data| == |start| + |data|
  {
  }

  lemma CutMore(start: seq<Byte>, data: seq<Byte>, p: nat, q: nat)
    requires p <= q <= |data|
    ensures start + data[..p] + data[p..q] == start + data[..q]
    ensures q == |data| ==> data[p..q] == data[p..] && start + data[..q] == start + data
    ensures p == q ==> start + data[..p] == start + data[..q]
  {
    assert data[..p] + data[p..q] == data[..q];
  }

  // The last one or two blocks.
  lemma PaddedFold(whole: seq<Byte>, tail: seq<Byte>, field: seq<Byte>)
    requires |whole| % BLOCK == 0 && |tail| < BLOCK && |field| == 8 && field == LengthField(8 * |whole + tail| % Bytes.WRAP64)
    ensures var marked := tail + [0x80];
            var h := Folded(INITIAL, whole);
            Folded(INITIAL, Padded(whole + tail)) ==
            if |marked| <= 56 then Compressed(h, marked + Zeros(56 - |marked|) + field)
            else Compressed(Compressed(h, marked + Zeros(64 - |marked|)), [] + Zeros(56) + field)
  {
    hide Folded, Compressed, LengthField, Padded;
    if |tail| <= 55 {
      PaddedShort(whole, tail, field);
      FoldedMore(INITIAL, whole, tail + [0x80] + Zeros(55 - |tail|) + field);
    } else {
      PaddedLong(whole, tail, field);
      var first := tail + [0x80] + Zeros(63 - |tail|);
      FoldedMore(INITIAL, whole, first);
      FoldedMore(INITIAL, whole + first, Zeros(56) + field);
      assert [] + Zeros(56) + field == Zeros(56) + field;
    }
  }

  // The padding leaves one block, or fills up two.
  lemma PaddedShort(whole: seq<Byte>, tail: seq<Byte>, field: seq<Byte>)
    requires |whole| % BLOCK == 0 && |tail| <= 55 && field == LengthField(8 * |whole + tail| % Bytes.WRAP64)
    ensures Padded(whole + tail) == whole + (tail + [0x80] + Zeros(55 - |tail|) + field)
  {
    hide LengthField;
    ShortCount(|whole|, |tail|);
  }

  lemma ShortCount(w: nat, t: nat)
    requires w % BLOCK == 0 && t <= 55
    ensures ZeroCount(w + t) == 55 - t
  {
  }

  lemma PaddedLong(whole: seq<Byte>, tail: seq<Byte>, field: seq<Byte>)
    requires |whole| % BLOCK == 0 && 55 < |tail| < 64 && field == LengthField(8 * |whole + tail| % Bytes.WRAP64)
    ensures Padded(whole + tail) == whole + (tail + [0x80] + Zeros(63 - |tail|)) + (Zeros(56) + field)
  {
    hide LengthField;
    LongCount(|whole|, |tail|);
    assert Zeros(63 - |tail|) + Zeros(56) == Zeros(119 - |tail|);
  }

  lemma LongCount(w: nat, t: nat)
    requires w % BLOCK == 0 && 55 < t < 64
    ensures ZeroCount(w + t) == 119 - t
  {
  }

  // One call for a whole message.
  method OneShot(data: seq<Byte>) returns (digest: seq<Byte>)
    ensures digest == Digest(data)
  {
    var ctx := new Context();
    ctx.Update(data);
    assert [] + data == data;
    digest := ctx.Final();
  }

  function Joined(parts: seq<seq<Byte>>): seq<Byte> {
    if parts == [] then [] else Joined(parts[..|parts| - 1]) + parts[|parts| - 1]
  }

  // However the message is cut into calls, the digest is that of the whole.
  method Streamed(parts: seq<seq<Byte>>) returns (digest: seq<Byte>)
    ensures digest == Digest(Joined(parts))
  {
    var ctx := new Context();
    var i := 0;
    assert parts[..0] == [];
    while i < |parts|
      invariant 0 <= i <= |parts| && ctx.Valid() && ctx.message == Joined(parts[..i]) && fresh(ctx) && fresh(ctx.block)
    {
      ctx.Update(parts[i]);
      assert parts[..i + 1][..i] == parts[..i];
      i := i + 1;
    }
    assert parts[..i] == parts;
    digest := ctx.Final();
  }
}
