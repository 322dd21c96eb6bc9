// MT19937 as a recurrence over 32-bit words: x[k + 624] = x[k + 397] xor twist(x[k], x[k + 1]),
// of which the generator hands out the tempered terms from x[624] on.
module TwisterModel {
  type Word = bv32

  const N: int := 624
  const M: int := 397
  const MATRIX_A: Word := 0x9908b0df
  const UPPER: Word := 0x80000000
  const LOWER: Word := 0x7fffffff

  function Twist(upper: Word, lower: Word): Word {
    var y := (upper & UPPER) | (lower & LOWER);
    (y >> 1) ^ (if y & 1 == 1 then MATRIX_A else 0)
  }

  function Term(seed: seq<Word>, k: nat): Word
    requires |seed| == N
  {
    if k < N then seed[k] else Term(seed, k - N + M) ^ Twist(Term(seed, k - N), Term(seed, k - N + 1))
  }

  function Temper(y0: Word): Word {
    var y1 := y0 ^ (y0 >> 11);
    var y2 := y1 ^ ((y1 << 7) & 0x9d2c5680);
    var y3 := y2 ^ ((y2 << 15) & 0xefc60000);
    y3 ^ (y3 >> 18)
  }

  // ---- seeding ----

  function Narrow(i: int): Word { if 0 <= i < 0x1_0000_0000 then i as Word else 0 }

  function Mix(x: Word): Word { x ^ (x >> 30) }

  function SeedNext(left: Word, i: int): Word { 1812433253 * Mix(left) + Narrow(i) }
  function KeyWord(x: Word, left: Word, key: Word, j: int): Word { (x ^ (Mix(left) * 1664525)) + key + Narrow(j) }
  function LastWord(x: Word, left: Word, i: int): Word { (x ^ (Mix(left) * 1566083941)) - Narrow(i) }

  function SeedWord(s: Word, i: nat): Word { if i == 0 then s else SeedNext(SeedWord(s, i - 1), i) }

  function Seeded(s: Word): seq<Word> { seq(N, i requires 0 <= i < N => SeedWord(s, i)) }

  // One stirring: position i is rewritten from its left neighbour, and past the end the last
  // word goes round to the front.
  datatype Stir = Stir(table: seq<Word>, i: int)

  predicate Ready(t: Stir) { |t.table| == N && 1 <= t.i < N }

  function Put(t: Stir, x: Word): (u: Stir)
    requires Ready(t)
    ensures Ready(u)
  {
    var table := t.table[t.i := x];
    if t.i + 1 >= N then Stir(table[0 := table[N - 1]], 1) else Stir(table, t.i + 1)
  }

  function KeyPut(t: Stir, key: Word, j: int): (u: Stir)
    requires Ready(t)
    ensures Ready(u)
  {
    Put(t, KeyWord(t.table[t.i], t.table[t.i - 1], key, j))
  }

  function LastPut(t: Stir): (u: Stir)
    requires Ready(t)
    ensures Ready(u)
  {
    Put(t, LastWord(t.table[t.i], t.table[t.i - 1], t.i))
  }

  // Round and round the key.
  function Turn(n: nat, length: nat): (j: nat)
    requires length > 0
    ensures j < length
  {
    if n == 0 || Turn(n - 1, length) + 1 >= length then 0 else Turn(n - 1, length) + 1
  }

  // n stirrings with the key's words in turn, and n without.
  function Keyed(t: Stir, key: seq<Word>, n: nat): (u: Stir)
    requires Ready(t) && key != []
    ensures Ready(u)
  {
    if n == 0 then t else KeyPut(Keyed(t, key, n - 1), key[Turn(n - 1, |key|)], Turn(n - 1, |key|))
  }

  function Stirred(t: Stir, n: nat): (u: Stir)
    requires Ready(t)
    ensures Ready(u)
  {
    if n == 0 then t else LastPut(Stirred(t, n - 1))
  }

  function ByArray(key: seq<Word>): seq<Word>
    requires key != []
  {
    var n := if N > |key| then N else |key|;
    Stirred(Keyed(Stir(Seeded(19650218), 1), key, n), N - 1).table[0 := UPPER]
  }

  // ---- the state that would only ever repeat zero ----

  ghost predicate AllZero(seed: seq<Word>, k: nat)
    requires |seed| == N
  {
    Term(seed, k) & UPPER == 0 && forall n :: k < n < k + N ==> Term(seed, n) == 0
  }

  lemma TwistZero(a: Word, b: Word)
    requires Twist(a, b) == 0
    ensures a & UPPER == 0 && b & LOWER == 0
  {
  }

  lemma Halves(b: Word)
    requires b & UPPER == 0 && b & LOWER == 0
    ensures b == 0
  {
  }

  lemma XorZero(a: Word, b: Word)
    requires a == 0 && a ^ b == 0
    ensures b == 0
  {
  }

  // The recurrence cannot enter it: one step from it there is nothing but it.
  lemma ZeroBefore(seed: seq<Word>, k: nat)
    requires |seed| == N && AllZero(seed, k + 1)
    ensures AllZero(seed, k)
  {
    var a, b := Term(seed, k), Term(seed, k + 1);
    assert Term(seed, k + N) == 0 && Term(seed, k + M) == 0;
    XorZero(Term(seed, k + M), Twist(a, b));
    TwistZero(a, b);
    Halves(b);
  }

  lemma {:induction false} NeverZero(seed: seq<Word>, k: nat)
    requires |seed| == N && !AllZero(seed, 0)
    ensures !AllZero(seed, k)
  {
    if k > 0 {
      NeverZero(seed, k - 1);
      if AllZero(seed, k) { ZeroBefore(seed, k - 1); }
    }
  }

  lemma SecondWord(s: Word)
    ensures SeedWord(s, 1) == 0 ==> SeedWord(s, 2) == 2
  {
  }

  // Neither way of seeding leads there.
  lemma SeedsNeverZero(s: Word, k: nat)
    ensures |Seeded(s)| == N && !AllZero(Seeded(s), k)
  {
    var seed := Seeded(s);
    SecondWord(s);
    if AllZero(seed, 0) {
      assert Term(seed, 0 + 1) == seed[1] && Term(seed, 0 + 2) == seed[2];
    }
    NeverZero(seed, k);
  }

  lemma KeysNeverZero(key: seq<Word>, k: nat)
    requires key != []
    ensures |ByArray(key)| == N && !AllZero(ByArray(key), k)
  {
    var seed := ByArray(key);
    assert Term(seed, 0) == UPPER;
    assert UPPER & UPPER != 0;
    NeverZero(seed, k);
  }
}
