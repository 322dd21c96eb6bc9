// Seeding by an array, as one recurrence: every word written is made of the one written before it and of
// the one written 623 before, and the last 623 are what the table begins with.
module TwisterArray {
  import BitMath
  import opened TwisterModel

  const SPAN: int := 623

  // The word that write k finds in its place, and the one to its left.
  function Found(seed: seq<Word>, x: seq<Word>, k: nat): Word
    requires |seed| == N && k < |x| + SPAN
  {
    if k < SPAN then seed[1 + k] else x[k - SPAN]
  }

  function Left(seed: seq<Word>, x: seq<Word>, k: nat): Word
    requires |seed| == N && k <= |x|
  {
    if k == 0 then seed[0] else x[k - 1]
  }

  // As many writes with the key as it or the table is long, then 623 without.
  ghost predicate Writes(seed: seq<Word>, key: seq<Word>, x: seq<Word>)
    requires |seed| == N && key != []
  {
    var n := Rounds(key);
    && |x| == n + SPAN
    && (forall k {:trigger x[k]} :: 0 <= k < n ==> x[k] == KeyWord(Found(seed, x, k), Left(seed, x, k), key[k % |key|], k % |key|))
    && (forall k {:trigger x[k]} :: n <= k < |x| ==> x[k] == LastWord(Found(seed, x, k), Left(seed, x, k), 1 + k % SPAN))
  }

  function Rounds(key: seq<Word>): nat { if |key| <= 624 then 624 else |key| }

  // After k writes: the next place, what lies left of it, and what every coming write will find.
  ghost predicate Reached(t: Stir, seed: seq<Word>, x: seq<Word>, k: nat)
    requires |seed| == N && k <= |x|
  {
    && Ready(t) && t.i == 1 + k % SPAN && t.table[t.i - 1] == Left(seed, x, k)
    && forall m :: k <= m < k + SPAN ==> Finds(t, seed, x, m)
  }

  predicate Finds(t: Stir, seed: seq<Word>, x: seq<Word>, m: nat)
    requires |seed| == N && Ready(t) && m < |x| + SPAN
  {
    t.table[1 + m % SPAN] == Found(seed, x, m)
  }

  lemma NextPlace(k: nat)
    ensures (k + 1) % SPAN == if k % SPAN == SPAN - 1 then 0 else k % SPAN + 1
  {
  }

  lemma OtherPlace(k: nat, m: nat)
    requires k < m < k + SPAN
    ensures m % SPAN != k % SPAN
  {
  }

  lemma SamePlace(k: nat)
    ensures (k + SPAN) % SPAN == k % SPAN
  {
  }

  lemma Written(t: Stir, seed: seq<Word>, x: seq<Word>, k: nat)
    requires |seed| == N && k < |x| && Reached(t, seed, x, k)
    ensures Reached(Put(t, x[k]), seed, x, k + 1)
  {
    var u := Put(t, x[k]);
    NextPlace(k);
    SamePlace(k);
    forall m | k + 1 <= m < k + 1 + SPAN
      ensures Finds(u, seed, x, m)
    {
      if m < k + SPAN {
        OtherPlace(k, m);
        assert Finds(t, seed, x, m);
      }
    }
  }

  lemma {:induction false} TurnIs(n: nat, length: nat)
    requires length > 0
    ensures Turn(n, length) == n % length
  {
    if n == 0 {
      Below(0, length);
    } else {
      TurnIs(n - 1, length);
      After(n - 1, length);
    }
  }

  lemma Below(r: nat, d: nat)
    requires r < d
    ensures r % d == r
  {
  }

  lemma After(n: nat, d: nat)
    requires d > 0
    ensures (n + 1) % d == if n % d + 1 >= d then 0 else n % d + 1
  {
    var q, r := n / d, n % d;
    if r + 1 >= d {
      assert n + 1 == d * q + d;
      BitMath.RemainderIs(n + 1, d, q + 1, 0);
    } else {
      BitMath.RemainderIs(n + 1, d, q, r + 1);
    }
  }

  lemma {:induction false} KeyedReached(seed: seq<Word>, key: seq<Word>, x: seq<Word>, n: nat)
    requires |seed| == N && key != [] && Writes(seed, key, x) && n <= Rounds(key)
    ensures Reached(Keyed(Stir(seed, 1), key, n), seed, x, n)
  {
    hide Put, KeyWord, Reached;
    if n == 0 {
      Begun(seed, x);
    } else {
      KeyedReached(seed, key, x, n - 1);
      TurnIs(n - 1, |key|);
      var t := Keyed(Stir(seed, 1), key, n - 1);
      Meets(t, seed, x, n - 1);
      assert x[n - 1] == KeyWord(Found(seed, x, n - 1), Left(seed, x, n - 1), key[(n - 1) % |key|], (n - 1) % |key|);
      Written(t, seed, x, n - 1);
    }
  }

  lemma Begun(seed: seq<Word>, x: seq<Word>)
    requires |seed| == N
    ensures Reached(Stir(seed, 1), seed, x, 0)
  {
    forall m | 0 <= m < SPAN
      ensures Finds(Stir(seed, 1), seed, x, m)
    {
      Below(m, SPAN);
    }
  }

  // The next write finds these two.
  lemma Meets(t: Stir, seed: seq<Word>, x: seq<Word>, k: nat)
    requires |seed| == N && k <= |x| && Reached(t, seed, x, k)
    ensures Ready(t) && t.i == 1 + k % SPAN && t.table[t.i] == Found(seed, x, k) && t.table[t.i - 1] == Left(seed, x, k)
  {
    assert Finds(t, seed, x, k);
  }

  lemma {:induction false} StirredReached(t: Stir, seed: seq<Word>, key: seq<Word>, x: seq<Word>, n: nat)
    requires |seed| == N && key != [] && Writes(seed, key, x) && |x| == Rounds(key) + SPAN
    requires n <= SPAN && Ready(t) && Reached(t, seed, x, Rounds(key))
    ensures Reached(Stirred(t, n), seed, x, Rounds(key) + n)
  {
    hide Put, LastWord, Reached, Writes;
    if n > 0 {
      StirredReached(t, seed, key, x, n - 1);
      var u, k := Stirred(t, n - 1), Rounds(key) + n - 1;
      Meets(u, seed, x, k);
      LastIs(seed, key, x, k);
      Written(u, seed, x, k);
    }
  }

  lemma LastIs(seed: seq<Word>, key: seq<Word>, x: seq<Word>, k: nat)
    requires |seed| == N && key != [] && Writes(seed, key, x) && Rounds(key) <= k < |x|
    ensures x[k] == LastWord(Found(seed, x, k), Left(seed, x, k), 1 + k % SPAN)
  {
    hide LastWord, Found, Left;
  }

  // The table begins with its top bit alone, and behind it has the last 623 words written, each in the
  // place its number leads to.
  lemma ByArrayIs(key: seq<Word>, x: seq<Word>)
    requires key != [] && Writes(Seeded(19650218), key, x)
    ensures var table := ByArray(key);
      |table| == 624 && table[0] == 0x80000000 && forall k :: Rounds(key) <= k < |x| ==> table[1 + k % 623] == x[k]
  {
    hide Keyed, Stirred, Writes, Seeded;
    var seed, n := Seeded(19650218), Rounds(key);
    assert |seed| == N by { SeededLength(); }
    assert |x| == n + SPAN by { Length(seed, key, x); }
    KeyedReached(seed, key, x, n);
    var t := Keyed(Stir(seed, 1), key, n);
    assert Ready(t);
    StirredReached(t, seed, key, x, SPAN);
    var u := Stirred(t, SPAN);
    forall k | n <= k < |x|
      ensures u.table[1 + k % SPAN] == x[k]
    {
      assert Finds(u, seed, x, k + SPAN);
      SamePlace(k);
    }
  }

  lemma SeededLength()
    ensures |Seeded(19650218)| == N
  {
  }

  lemma Length(seed: seq<Word>, key: seq<Word>, x: seq<Word>)
    requires |seed| == N && key != [] && Writes(seed, key, x)
    ensures |x| == Rounds(key) + SPAN
  {
  }
}
