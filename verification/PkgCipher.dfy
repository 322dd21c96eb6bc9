// The package's counter-mode stream cipher over SHA-1.
module PkgCipher {
  import opened Bytes
  import BitMath

  // ---- exclusive or, bit by bit ----

  function XorBits(a: nat, b: nat, n: nat): nat {
    if n == 0 then 0 else 2 * XorBits(a / 2, b / 2, n - 1) + (a + b) % 2
  }

  lemma {:induction false} XorBounded(a: nat, b: nat, n: nat)
    ensures XorBits(a, b, n) < BitMath.Pow2(n)
  {
    if n > 0 { XorBounded(a / 2, b / 2, n - 1); }
  }

  lemma {:induction false} XorUndone(a: nat, b: nat, n: nat)
    requires a < BitMath.Pow2(n)
    ensures XorBits(XorBits(a, b, n), b, n) == a
  {
    if n > 0 {
      XorUndone(a / 2, b / 2, n - 1);
      var x := XorBits(a / 2, b / 2, n - 1);
      Halved(x, a, b);
    }
  }

  lemma Halved(x: nat, a: nat, b: nat)
    ensures (2 * x + (a + b) % 2) / 2 == x && ((2 * x + (a + b) % 2) + b) % 2 == a % 2
  {
  }

  lemma Pow8()
    ensures BitMath.Pow2(8) == 256
  {
    BitMath.SmallPowers();
    BitMath.PowAdd(4, 4);
  }

  function Xor(a: Byte, b: Byte): Byte {
    XorBounded(a, b, 8);
    Pow8();
    XorBits(a, b, 8)
  }

  lemma XorTwice(a: Byte, b: Byte)
    ensures Xor(Xor(a, b), b) == a
  {
    Pow8();
    XorUndone(a, b, 8);
  }

  // ---- the cipher ----

  type Sha = seq<Byte> -> seq<Byte>

  // What is known of the hash: twenty bytes.
  ghost predicate Hashes(sha: Sha) { forall x :: |sha(x)| == 20 }

  function Context(key: seq<Byte>, num: nat): (ctx: seq<Byte>)
    requires |key| == 16
    ensures |ctx| == 64
  {
    key[..8] + key[..8] + key[8..] + key[8..] + Zeros(24) + Be(8, num)
  }

  function XorBlock(x: seq<Byte>, hash: seq<Byte>): (y: seq<Byte>)
    requires |x| <= |hash|
    ensures |y| == |x|
  {
    seq(|x|, i requires 0 <= i < |x| => Xor(hash[i], x[i]))
  }

  function Block(sha: Sha, key: seq<Byte>, num: nat, x: seq<Byte>): (y: seq<Byte>)
    requires Hashes(sha) && |key| == 16 && |x| <= 16
    ensures |y| == |x|
  {
    XorBlock(x, sha(Context(key, num)))
  }

  // x enciphered, or deciphered, from counter num on.
  function Crypt(sha: Sha, key: seq<Byte>, num: nat, x: seq<Byte>): (y: seq<Byte>)
    requires Hashes(sha) && |key| == 16
    ensures |y| == |x|
    decreases |x|
  {
    if |x| <= 16 then Block(sha, key, num, x)
    else Block(sha, key, num, x[..16]) + Crypt(sha, key, BitMath.Wrap(num + 1), x[16..])
  }

  lemma XorCommutes(a: nat, b: nat, n: nat)
    ensures XorBits(a, b, n) == XorBits(b, a, n)
  {
  }

  lemma BlockTwice(sha: Sha, key: seq<Byte>, num: nat, x: seq<Byte>)
    requires Hashes(sha) && |key| == 16 && |x| <= 16
    ensures Block(sha, key, num, Block(sha, key, num, x)) == x
  {
    var h := sha(Context(key, num));
    forall i | 0 <= i < |x|
      ensures Xor(h[i], Xor(h[i], x[i])) == x[i]
    {
      XorCommutes(h[i], x[i], 8);
      XorCommutes(h[i], Xor(h[i], x[i]), 8);
      XorTwice(x[i], h[i]);
    }
  }

  // Enciphering again with the same key and counter gives the text back.
  lemma {:induction false} CryptTwice(sha: Sha, key: seq<Byte>, num: nat, x: seq<Byte>)
    requires Hashes(sha) && |key| == 16
    ensures Crypt(sha, key, num, Crypt(sha, key, num, x)) == x
    decreases |x|
  {
    if |x| <= 16 {
      BlockTwice(sha, key, num, x);
    } else {
      var y := Crypt(sha, key, num, x);
      var first := Block(sha, key, num, x[..16]);
      assert y[..16] == first && y[16..] == Crypt(sha, key, BitMath.Wrap(num + 1), x[16..]);
      BlockTwice(sha, key, num, x[..16]);
      CryptTwice(sha, key, BitMath.Wrap(num + 1), x[16..]);
    }
  }

  lemma CryptNone(sha: Sha, key: seq<Byte>, num: nat)
    requires Hashes(sha) && |key| == 16
    ensures Crypt(sha, key, num, []) == []
  {
  }

  // The first block and the rest.
  lemma CryptStep(sha: Sha, key: seq<Byte>, num: nat, x: seq<Byte>)
    requires Hashes(sha) && |key| == 16 && x != []
    ensures var n := if |x| > 16 then 16 else |x|;
            Crypt(sha, key, num, x) == XorBlock(x[..n], sha(Context(key, num))) + Crypt(sha, key, BitMath.Wrap(num + 1), x[n..])
  {
    if |x| <= 16 {
      assert x[..|x|] == x && x[|x|..] == [];
    }
  }

  lemma WrapLater(num: nat, k: nat)
    requires num == BitMath.Wrap(num) && k > 0
    ensures BitMath.Wrap(BitMath.Wrap(num + 1) + (k - 1)) == BitMath.Wrap(num + k)
    ensures BitMath.Wrap(BitMath.Wrap(num + 1)) == BitMath.Wrap(num + 1)
  {
    hide BitMath.Wrap;
    BitMath.WrapAdd(num + 1, 0);
    BitMath.WrapAdd(num + 1, k - 1);
  }

  // What comes after whole blocks is enciphered from a counter advanced by their number.
  lemma {:induction false} CryptSplit(sha: Sha, key: seq<Byte>, num: nat, k: nat, a: seq<Byte>, b: seq<Byte>)
    requires Hashes(sha) && |key| == 16 && |a| == 16 * k && num == BitMath.Wrap(num)
    ensures Crypt(sha, key, num, a + b) == Crypt(sha, key, num, a) + Crypt(sha, key, BitMath.Wrap(num + k), b)
    decreases k
  {
    hide BitMath.Wrap, Crypt, XorBlock, Context;
    if k == 0 {
      CryptNone(sha, key, num);
      assert a == [] && a + b == b;
    } else {
      var first, rest := a[..16], a[16..];
      CryptStep(sha, key, num, a + b);
      CryptStep(sha, key, num, a);
      assert (a + b)[..16] == first && (a + b)[16..] == rest + b;
      WrapLater(num, k);
      CryptSplit(sha, key, BitMath.Wrap(num + 1), k - 1, rest, b);
    }
  }

  // A prefix is enciphered as if nothing came after it.
  lemma {:induction false} CryptPrefix(sha: Sha, key: seq<Byte>, num: nat, a: seq<Byte>, b: seq<Byte>)
    requires Hashes(sha) && |key| == 16
    ensures Crypt(sha, key, num, a + b)[..|a|] == Crypt(sha, key, num, a)
    decreases |a|
  {
    if |a| <= 16 {
      if |a + b| > 16 { assert (a + b)[..16][..|a|] == a; }
    } else {
      assert (a + b)[..16] == a[..16] && (a + b)[16..] == a[16..] + b;
      CryptPrefix(sha, key, BitMath.Wrap(num + 1), a[16..], b);
    }
  }
}
