// libmt19937: the table is regenerated in place, half of it from words already overwritten.
module Twister {
  import opened TwisterModel

  class Generator {
    const mt: array<Word>
    var mti: nat
    ghost var seed: seq<Word>       // the table as seeded
    ghost var drawn: nat            // how many words have been handed out since

    // Each table word is the term its place stands for; mti == N + 1 until the first seeding.
    ghost predicate Valid()
      reads this, mt
    {
      && mt.Length == N && mti <= N + 1
      && (mti <= N ==> |seed| == N && forall i :: 0 <= i < N ==> mt[i] == Term(seed, drawn + N - mti + i))
    }

    constructor ()
      ensures Valid() && mti == N + 1 && fresh(mt)
    {
      mt := new Word[N](_ => 0);
      mti := N + 1;
      seed, drawn := [], 0;
    }

    method Init(s: Word)
      requires Valid()
      modifies this, mt
      ensures Valid() && mti == N && seed == Seeded(s) && drawn == 0 && mt[..] == seed
    {
      hide SeedNext, SeedWord, Term;
      SeedWordIs(s, 0);
      mt[0] := s;
      mti := 1;
      while mti < N
        invariant 1 <= mti <= N && forall i :: 0 <= i < mti ==> mt[i] == SeedWord(s, i)
      {
        SeedWordIs(s, mti);
        mt[mti] := SeedNext(mt[mti - 1], mti);
        mti := mti + 1;
      }
      SeededIs(s, mt[..]);
      Begin();
    }

    // The table as it is now is the seed.
    method Begin()
      requires mt.Length == N && mti == N
      modifies this`seed, this`drawn
      ensures Valid() && seed == mt[..] && drawn == 0
    {
      seed, drawn := mt[..], 0;
      TermsOfSeed(seed);
    }

    method InitByArray(key: seq<Word>)
      requires Valid() && key != []
      modifies this, mt
      ensures Valid() && mti == N && seed == ByArray(key) && drawn == 0 && mt[..] == seed
    {
      hide Seeded, Term, Keyed, Stirred, ByArray;
      Init(19650218);
      var n := if N > |key| then N else |key|;
      var i := KeyRounds(key, n);
      i := LastRounds(i);
      ByArrayIs(key);
      ghost var was := mt[..];
      mt[0] := UPPER;
      assert mt[..] == was[0 := UPPER];
      mti := N;
      Begin();
    }

    method KeyRounds(key: seq<Word>, n: nat) returns (i: nat)
      requires mt.Length == N && key != []
      modifies mt
      ensures 1 <= i < N && Stir(mt[..], i) == Keyed(Stir(old(mt[..]), 1), key, n)
    {
      hide KeyPut, Keyed, Turn;
      ghost var start := Stir(mt[..], 1);
      i := 1;
      var j, k := 0, n;
      KeyedIs(start, key, 0);
      while k > 0
        invariant 0 <= k <= n && j == Turn(n - k, |key|) && 1 <= i < N
        invariant Stir(mt[..], i) == Keyed(start, key, n - k)
      {
        KeyedIs(start, key, n - k + 1);
        i := StirKey(i, key[j], j);
        k := k - 1;
        j := if j + 1 >= |key| then 0 else j + 1;
      }
    }

    method LastRounds(start: nat) returns (i: nat)
      requires mt.Length == N && 1 <= start < N
      modifies mt
      ensures 1 <= i < N && Stir(mt[..], i) == Stirred(Stir(old(mt[..]), start), N - 1)
    {
      hide LastPut, Stirred;
      ghost var middle := Stir(mt[..], start);
      i := start;
      var k := N - 1;
      StirredIs(middle, 0);
      while k > 0
        invariant 0 <= k <= N - 1 && 1 <= i < N
        invariant Stir(mt[..], i) == Stirred(middle, N - 1 - k)
      {
        StirredIs(middle, N - k);
        i := StirLast(i);
        k := k - 1;
      }
    }

    method StirKey(i: nat, key: Word, j: nat) returns (next: nat)
      requires mt.Length == N && 1 <= i < N
      modifies mt
      ensures 1 <= next < N && Stir(mt[..], next) == KeyPut(Stir(old(mt[..]), i), key, j)
    {
      hide KeyWord;
      ghost var was := mt[..];
      mt[i] := KeyWord(mt[i], mt[i - 1], key, j);
      assert mt[..] == was[i := mt[i]];
      next := i + 1;
      if next >= N {
        mt[0] := mt[N - 1];
        next := 1;
        assert mt[..] == was[i := mt[i]][0 := mt[N - 1]];
      }
    }

    method StirLast(i: nat) returns (next: nat)
      requires mt.Length == N && 1 <= i < N
      modifies mt
      ensures 1 <= next < N && Stir(mt[..], next) == LastPut(Stir(old(mt[..]), i))
    {
      hide LastWord;
      ghost var was := mt[..];
      mt[i] := LastWord(mt[i], mt[i - 1], i);
      assert mt[..] == was[i := mt[i]];
      next := i + 1;
      if next >= N {
        mt[0] := mt[N - 1];
        next := 1;
        assert mt[..] == was[i := mt[i]][0 := mt[N - 1]];
      }
    }

    // Words before kk are of the next N terms, the others still of the last N.
    ghost predicate Renewed(base: nat, kk: nat)
      reads this`seed, mt
    {
      && mt.Length == N && |seed| == N && kk <= N
      && forall i :: 0 <= i < N ==> mt[i] == Term(seed, if i < kk then base + N + i else base + i)
    }

    // The word at kk, from two old neighbours, or the old last and the new first, and from a
    // word N - M places back in the sequence.
    method Renew(kk: nat, next: nat, from: nat, ghost base: nat)
      requires kk < N && Renewed(base, kk)
      requires next == if kk < N - 1 then kk + 1 else 0
      requires from == if kk < N - M then kk + M else kk + M - N
      modifies mt
      ensures Renewed(base, kk + 1)
    {
      hide Term, Twist;
      Next(seed, base + kk);
      mt[kk] := mt[from] ^ Twist(mt[kk], mt[next]);
    }

    // The next N terms take the place of the last N.
    method Regenerate()
      requires Valid() && mti == N
      modifies this`mti, mt
      ensures Valid() && mti == 0
    {
      hide Renewed;
      ghost var base := drawn;
      Fresh(base);
      var kk := 0;
      while kk < N - M
        invariant 0 <= kk <= N - M && mt.Length == N && Renewed(base, kk)
      {
        Renew(kk, kk + 1, kk + M, base);
        kk := kk + 1;
      }
      while kk < N - 1
        invariant N - M <= kk <= N - 1 && mt.Length == N && Renewed(base, kk)
      {
        Renew(kk, kk + 1, kk + M - N, base);
        kk := kk + 1;
      }
      Renew(N - 1, 0, M - 1, base);
      mti := 0;
      AllRenewed(base);
    }

    lemma Fresh(base: nat)
      requires Valid() && mti == N && base == drawn
      ensures Renewed(base, 0)
    {
    }

    lemma AllRenewed(base: nat)
      requires Renewed(base, N) && mti == 0 && base == drawn
      ensures Valid()
    {
    }

    // The k-th word handed out since the seeding is the tempered k-th term after the table;
    // without a seeding, the table of seed 5489 stands in.
    method RandInt32() returns (y: Word)
      requires Valid()
      modifies this, mt
      ensures Valid() && mti <= N
      ensures old(mti) <= N ==> seed == old(seed) && drawn == old(drawn) + 1
      ensures old(mti) == N + 1 ==> seed == Seeded(5489) && drawn == 1
      ensures |seed| == N && y == Temper(Term(seed, N + drawn - 1))
    {
      hide Term, Temper;
      if mti >= N {
        if mti == N + 1 { Init(5489); }
        Regenerate();
      }
      y := mt[mti];
      mti := mti + 1;
      drawn := drawn + 1;
      y := Temper(y);
    }
  }

  lemma Next(seed: seq<Word>, k: nat)
    requires |seed| == N
    ensures Term(seed, k + N) == Term(seed, k + M) ^ Twist(Term(seed, k), Term(seed, k + 1))
  {
  }

  lemma SeedWordIs(s: Word, i: nat)
    ensures SeedWord(s, i) == if i == 0 then s else SeedNext(SeedWord(s, i - 1), i)
  {
    hide SeedNext;
  }

  lemma SeededIs(s: Word, table: seq<Word>)
    requires |table| == N && forall i :: 0 <= i < N ==> table[i] == SeedWord(s, i)
    ensures table == Seeded(s)
  {
    hide SeedWord;
  }

  lemma KeyedIs(t: Stir, key: seq<Word>, n: nat)
    requires Ready(t) && key != []
    ensures Keyed(t, key, n) == if n == 0 then t else KeyPut(Keyed(t, key, n - 1), key[Turn(n - 1, |key|)], Turn(n - 1, |key|))
    ensures Turn(0, |key|) == 0
    ensures n > 0 ==> Turn(n, |key|) == if Turn(n - 1, |key|) + 1 >= |key| then 0 else Turn(n - 1, |key|) + 1
  {
    hide KeyPut;
  }

  lemma StirredIs(t: Stir, n: nat)
    requires Ready(t)
    ensures Stirred(t, n) == if n == 0 then t else LastPut(Stirred(t, n - 1))
  {
    hide LastPut;
  }

  lemma ByArrayIs(key: seq<Word>)
    requires key != []
    ensures var n := if N > |key| then N else |key|;
            ByArray(key) == Stirred(Keyed(Stir(Seeded(19650218), 1), key, n), N - 1).table[0 := UPPER]
  {
    hide Keyed, Stirred, Seeded;
  }

  lemma TermsOfSeed(seed: seq<Word>)
    requires |seed| == N
    ensures forall i :: 0 <= i < N ==> Term(seed, i) == seed[i]
  {
  }
}
