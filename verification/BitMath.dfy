// Powers of two and remainders: the arithmetic behind register masks.
module BitMath {

  const P32 := 0x1_0000_0000
  const P62 := 0x4000_0000_0000_0000
  const P64 := 0x1_0000_0000_0000_0000

  function Pow2(n: nat): (p: int)
    ensures p >= 1
  {
    if n == 0 then 1 else 2 * Pow2(n - 1)
  }

  function Min(a: nat, b: nat): nat { if a <= b then a else b }

  lemma {:induction false} PowAdd(a: nat, b: nat)
    ensures Pow2(a + b) == Pow2(a) * Pow2(b)
  {
    if b > 0 {
      PowAdd(a, b - 1);
      assert Pow2(a + b) == 2 * Pow2(a + (b - 1));
    }
  }

  lemma SmallPowers()
    ensures Pow2(1) == 2 && Pow2(2) == 4 && Pow2(3) == 8 && Pow2(4) == 16 && Pow2(5) == 32
  {
  }

  lemma Powers()
    ensures Pow2(2) == 4 && Pow2(30) == 0x4000_0000 && Pow2(32) == P32 && Pow2(62) == P62 && Pow2(64) == P64
  {
    hide Pow2;
    SmallPowers();
    PowAdd(5, 5);
    PowAdd(10, 10);
    PowAdd(20, 10);
    PowAdd(30, 2);
    PowAdd(32, 30);
    PowAdd(32, 32);
  }

  // The remainder is the only number in range that differs by a multiple.
  lemma RemainderIs(x: int, d: int, q: int, r: int)
    requires d > 0 && x == d * q + r && 0 <= r < d
    ensures x % d == r && x / d == q
  {
    var k := x / d - q;
    assert d * k == r - x % d by { assert x == d * (x / d) + x % d; }
    if k >= 1 { Times(d, k); } else if k <= -1 { Times(d, k); }
  }

  lemma Times(d: int, k: int)
    requires d > 0
    ensures k >= 1 ==> d * k >= d
    ensures k <= -1 ==> d * k <= -d
  {
  }

  lemma ModOfMultiple(x: int, a: int, b: int)
    requires a > 0 && b > 0
    ensures a * b > 0 && (x % (a * b)) % a == x % a
  {
    Times(a, b);
    var y := x % (a * b);
    var q := x / (a * b);
    assert x == (a * b) * q + y;
    assert y == a * (y / a) + y % a;
    assert x == a * (b * q + y / a) + y % a;
    RemainderIs(x, a, b * q + y / a, y % a);
  }

  // Narrowing twice is narrowing to the smaller width.
  lemma ModMod(x: int, n: nat, m: nat)
    ensures (x % Pow2(n)) % Pow2(m) == x % Pow2(Min(n, m))
  {
    if m <= n {
      PowAdd(m, n - m);
      ModOfMultiple(x, Pow2(m), Pow2(n - m));
    } else {
      PowAdd(n, m - n);
      var y := x % Pow2(n);
      assert y < Pow2(m) by { Times(Pow2(n), Pow2(m - n)); }
      RemainderIs(y, Pow2(m), 0, y);
    }
  }

  lemma ModShrinks(x: int, n: nat, m: nat)
    requires n <= m
    ensures x % Pow2(n) <= x % Pow2(m)
  {
    ModMod(x, m, n);
    ModAtMost(x % Pow2(m), Pow2(n));
  }

  lemma ModAtMost(y: int, d: int)
    requires y >= 0 && d > 0
    ensures y % d <= y
  {
    if y < d {
      RemainderIs(y, d, 0, y);
    }
  }

  // (4 * x) mod (4 * d) is 4 * (x mod d).
  lemma ModTimes4(x: int, d: int)
    requires d > 0
    ensures (4 * x) % (4 * d) == 4 * (x % d)
  {
    RemainderIs(4 * x, 4 * d, x / d, 4 * (x % d));
  }

  lemma Div4(a: int, c: int)
    requires 0 <= c < 4
    ensures (4 * a + c) / 4 == a
  {
  }

  lemma DivBelow(x: int, d: int, k: int)
    requires d > 0 && 0 <= x < d * k
    ensures 0 <= x / d < k
  {
    assert x == d * (x / d) + x % d;
    TimesMono(d, k, x / d);
  }

  lemma TimesMono(d: int, k: int, q: int)
    requires d > 0
    ensures q >= k ==> d * q >= d * k
  {
  }

  // The low n bits, and a 64-bit register's wrap-around.
  function Low(x: int, n: nat): (y: int)
    ensures 0 <= y
  {
    x % Pow2(n)
  }

  function Wrap(x: int): (y: int)
    ensures 0 <= y < P64
  {
    x % P64
  }

  lemma LowLow(x: int, n: nat, m: nat)
    ensures Low(Low(x, n), m) == Low(x, Min(n, m))
  {
    ModMod(x, n, m);
  }

  lemma LowShrinks(x: int, n: nat, m: nat)
    requires n <= m
    ensures Low(x, n) <= Low(x, m)
  {
    ModShrinks(x, n, m);
  }

  lemma LowBelow(x: int, n: nat)
    ensures Low(x, n) <= Pow2(n) - 1
  {
  }

  lemma LowSmall(k: int, n: nat)
    requires 0 <= k && (n == 32 || n == 64) && k < P32
    ensures Low(k, n) == k
  {
    Powers();
    RemainderIs(k, Pow2(n), 0, k);
  }

  lemma Low64(x: int)
    requires 0 <= x < P64
    ensures Low(x, 64) == x
  {
    Powers();
    RemainderIs(x, P64, 0, x);
  }

  lemma WrapNone(x: int)
    requires 0 <= x < P64
    ensures Wrap(x) == x
  {
  }

  lemma WrapAdd(a: int, b: int)
    ensures Wrap(Wrap(a) + b) == Wrap(a + b) && Wrap(b + Wrap(a)) == Wrap(a + b)
  {
    var q := (a % P64 + b) / P64;
    RemainderIs(a + b, P64, a / P64 + q, (a % P64 + b) % P64);
  }
}
