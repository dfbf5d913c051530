/** The string hash of the hash table: FNV-1a over 64-bit words.

    A `uint64_t` is a natural number below 2^64 and every multiplication is taken modulo 2^64.
    A C string is the sequence of its characters before the terminating NUL. */
module Fnv1a {

  const TWO_64: nat := 0x1_0000_0000_0000_0000
  const FNV_1A_OFFSET_BASIS: nat := 0xCBF29CE484222325
  const FNV_1A_PRIME: nat := 0x100000001B3

  /** The inverse of the prime modulo 2^64; it exists because the prime is odd. */
  const FNV_1A_INVERSE: nat := 0xCE965057AFF6957B

  type Word = n: nat | n < TWO_64

  /** The lowest bit of the exclusive or. */
  function Bit(a: nat, b: nat): (bit: nat)
    ensures bit < 2
  {
    if a % 2 == b % 2 then 0 else 1
  }

  /** Bitwise exclusive or. */
  function Xor(a: nat, b: nat): nat {
    if a == 0 then b
    else if b == 0 then a
    else 2 * Xor(a / 2, b / 2) + Bit(a, b)
  }

  function PowerOfTwo(n: nat): nat {
    if n == 0 then 1 else 2 * PowerOfTwo(n - 1)
  }

  lemma {:induction false} XorBound(a: nat, b: nat, n: nat)
    requires a < PowerOfTwo(n) && b < PowerOfTwo(n)
    ensures Xor(a, b) < PowerOfTwo(n)
  {
    if a != 0 && b != 0 && n != 0 {
      XorBound(a / 2, b / 2, n - 1);
    }
  }

  lemma XorParity(a: nat, b: nat)
    requires a != 0 && b != 0
    ensures Xor(a, b) / 2 == Xor(a / 2, b / 2)
    ensures Bit(Xor(a, b), b) == a % 2
  {
    var high := Xor(a / 2, b / 2);
    assert Xor(a, b) == 2 * high + Bit(a, b);
  }

  lemma {:induction false} XorCancels(a: nat, b: nat)
    ensures Xor(Xor(a, b), b) == a
  {
    if a == 0 {
      XorZero(b);
    } else if b != 0 {
      var x := Xor(a, b);
      XorParity(a, b);
      XorCancels(a / 2, b / 2);
    }
  }

  lemma {:induction false} XorZero(b: nat)
    ensures Xor(b, b) == 0
  {
    if b != 0 {
      XorZero(b / 2);
    }
  }

  lemma {:induction false} XorCommutes(a: nat, b: nat)
    ensures Xor(a, b) == Xor(b, a)
  {
    if a != 0 && b != 0 {
      XorCommutes(a / 2, b / 2);
    }
  }

  /** The binary digit of weight 2^i. */
  function BitAt(n: nat, i: nat): (bit: nat)
    ensures bit < 2
  {
    if i == 0 then n % 2 else BitAt(n / 2, i - 1)
  }

  lemma {:induction false} BitsOfZero(i: nat)
    ensures BitAt(0, i) == 0
  {
    if i > 0 {
      BitsOfZero(i - 1);
    }
  }

  /** A number is its binary digits. */
  lemma {:induction false} SameBits(m: nat, n: nat)
    requires forall i: nat :: BitAt(m, i) == BitAt(n, i)
    ensures m == n
    decreases m + n
  {
    assert BitAt(m, 0) == BitAt(n, 0);
    if m + n > 0 {
      forall i: nat
        ensures BitAt(m / 2, i) == BitAt(n / 2, i)
      {
        assert BitAt(m, i + 1) == BitAt(n, i + 1);
      }
      SameBits(m / 2, n / 2);
    }
  }

  /** A digit of the exclusive or is 1 exactly where the two numbers differ. */
  lemma {:induction false} XorBits(a: nat, b: nat, i: nat)
    ensures BitAt(Xor(a, b), i) == 1 <==> BitAt(a, i) != BitAt(b, i)
  {
    if a == 0 || b == 0 {
      BitsOfZero(i);
    } else if i > 0 {
      XorParity(a, b);
      XorBits(a / 2, b / 2, i - 1);
    }
  }

  lemma PowerOfTwoByEight(n: nat)
    ensures PowerOfTwo(n + 8) == 256 * PowerOfTwo(n)
  {
    assert PowerOfTwo(n + 4) == 16 * PowerOfTwo(n) by {
      assert PowerOfTwo(n + 2) == 4 * PowerOfTwo(n);
    }
    assert PowerOfTwo(n + 6) == 64 * PowerOfTwo(n);
  }

  lemma PowerOfTwo64()
    ensures PowerOfTwo(64) == TWO_64
  {
    PowerOfTwoByEight(0);
    PowerOfTwoByEight(8);
    PowerOfTwoByEight(16);
    PowerOfTwoByEight(24);
    PowerOfTwoByEight(32);
    PowerOfTwoByEight(40);
    PowerOfTwoByEight(48);
    PowerOfTwoByEight(56);
  }

  lemma XorWord(a: Word, b: Word)
    ensures Xor(a, b) < TWO_64
  {
    PowerOfTwo64();
    XorBound(a, b, 64);
  }

  /** One round of the loop: xor the byte in, then multiply by the prime, wrapping around. */
  function Mix(hash: Word, c: char): Word {
    Xor(hash, c as nat) * FNV_1A_PRIME % TWO_64
  }

  function HashFrom(hash: Word, s: string): Word
    decreases s
  {
    if s == "" then hash else HashFrom(Mix(hash, s[0]), s[1..])
  }

  function Hash(s: string): Word {
    HashFrom(FNV_1A_OFFSET_BASIS, s)
  }

  /** The hashing loop. */
  method Fnv1aStringHash(str: string) returns (hash: Word)
    ensures hash == Hash(str)
  {
    hash := FNV_1A_OFFSET_BASIS;
    var i := 0;
    while i < |str|
      invariant 0 <= i <= |str|
      invariant HashFrom(hash, str[i..]) == Hash(str)
    {
      hash := Mix(hash, str[i]);
      i := i + 1;
    }
  }

  /** The state after a concatenation is the state of the second string started from the first. */
  lemma {:induction false} HashConcat(hash: Word, s: string, t: string)
    ensures HashFrom(hash, s + t) == HashFrom(HashFrom(hash, s), t)
    decreases s
  {
    if s == "" {
      assert s + t == t;
    } else {
      assert (s + t)[1..] == s[1..] + t;
      HashConcat(Mix(hash, s[0]), s[1..], t);
    }
  }

  /** Whether `x` is `h` with exactly those binary digits flipped where `c` has a 1. */
  ghost predicate Flips(x: nat, h: nat, c: char) {
    forall i: nat :: BitAt(x, i) == (if BitAt(c as nat, i) == 1 then 1 - BitAt(h, i) else BitAt(h, i))
  }

  /** The recurrence of FNV-1a, in binary digits: the digits of the byte are flipped in the hash of what comes
      before it, and then the number with those digits is multiplied by 2^40 + 2^8 + 0xB3 modulo 2^64. There
      is such a number and only one. */
  lemma HashOneMore(s: string, c: char)
    ensures Hash("") == 0xCBF29CE484222325
    ensures exists x: nat :: Flips(x, Hash(s), c)
    ensures forall x: nat :: Flips(x, Hash(s), c) ==>
      Hash(s + [c]) == 0x100_0000_01B3 * x % 0x1_0000_0000_0000_0000
  {
    var x := Xor(Hash(s), c as nat);
    HashConcat(FNV_1A_OFFSET_BASIS, s, [c]);
    assert [c][1..] == "";
    assert Hash(s + [c]) == x * FNV_1A_PRIME % TWO_64;
    forall i: nat
      ensures BitAt(x, i) == (if BitAt(c as nat, i) == 1 then 1 - BitAt(Hash(s), i) else BitAt(Hash(s), i))
    {
      XorBits(Hash(s), c as nat, i);
    }
    assert Flips(x, Hash(s), c);
    forall y: nat | Flips(y, Hash(s), c)
      ensures y == x
    {
      SameBits(y, x);
    }
  }

  lemma MultipleIsFar(z: int, m: nat)
    ensures z >= 1 ==> z * m >= m
    ensures z <= -1 ==> z * m + m <= 0
  {
    if z >= 1 {
      assert z * m == (z - 1) * m + m;
    } else if z <= -1 {
      assert z * m == (z + 1) * m - m;
    }
  }

  /** If `p` has the inverse `q` modulo `m` and `d * p` is a multiple of `m`, so is `d`. */
  lemma CancelFactor(d: int, p: nat, q: nat, m: nat, t: nat, k: int)
    requires p * q == 1 + t * m && d * p == k * m
    ensures d == (k * q - d * t) * m
  {
    calc {
      d + (d * t) * m;
      d * (1 + t * m);
      d * (p * q);
      (d * p) * q;
      (k * m) * q;
      (k * q) * m;
    }
  }

  /** Multiplication by `p` modulo `m` loses nothing when `p` has an inverse `q`. */
  lemma MulInjective(x: nat, y: nat, p: nat, q: nat, m: nat, t: nat)
    requires x < m && y < m && p * q == 1 + t * m
    requires x * p % m == y * p % m
    ensures x == y
  {
    var k := x * p / m - y * p / m;
    var d := x - y;
    assert d * p == k * m;
    CancelFactor(d, p, q, m, t, k);
    MultipleIsFar(k * q - d * t, m);
  }

  lemma PrimeInjective(x: Word, y: Word)
    requires x * FNV_1A_PRIME % TWO_64 == y * FNV_1A_PRIME % TWO_64
    ensures x == y
  {
    MulInjective(x, y, FNV_1A_PRIME, FNV_1A_INVERSE, TWO_64, 887285111055);
  }

  /** A round is injective in the state for a fixed byte. */
  lemma MixInjectiveInState(h: Word, g: Word, c: char)
    requires Mix(h, c) == Mix(g, c)
    ensures h == g
  {
    XorWord(h, c as nat);
    XorWord(g, c as nat);
    PrimeInjective(Xor(h, c as nat), Xor(g, c as nat));
    XorCancels(h, c as nat);
    XorCancels(g, c as nat);
  }

  /** A round is injective in the byte for a fixed state. */
  lemma MixInjectiveInByte(h: Word, c: char, d: char)
    requires Mix(h, c) == Mix(h, d)
    ensures c == d
  {
    XorWord(h, c as nat);
    XorWord(h, d as nat);
    PrimeInjective(Xor(h, c as nat), Xor(h, d as nat));
    XorCommutes(h, c as nat);
    XorCommutes(h, d as nat);
    XorCancels(c as nat, h);
    XorCancels(d as nat, h);
  }

  lemma {:induction false} HashFromInjective(h: Word, g: Word, t: string)
    requires HashFrom(h, t) == HashFrom(g, t)
    ensures h == g
    decreases t
  {
    if t != "" {
      HashFromInjective(Mix(h, t[0]), Mix(g, t[0]), t[1..]);
      MixInjectiveInState(h, g, t[0]);
    }
  }

  /** A common suffix neither creates nor removes a collision. */
  lemma SuffixPreservesCollisions(s: string, s': string, t: string)
    ensures Hash(s + t) == Hash(s' + t) <==> Hash(s) == Hash(s')
  {
    HashConcat(FNV_1A_OFFSET_BASIS, s, t);
    HashConcat(FNV_1A_OFFSET_BASIS, s', t);
    if Hash(s + t) == Hash(s' + t) {
      HashFromInjective(Hash(s), Hash(s'), t);
    }
  }

  /** Strings that differ in exactly one byte never collide. */
  lemma OneByteChangesHash(s: string, i: nat, c: char)
    requires i < |s| && s[i] != c
    ensures Hash(s[i := c]) != Hash(s)
  {
    var pre, post := s[..i], s[i + 1..];
    assert s == (pre + [s[i]]) + post;
    assert s[i := c] == (pre + [c]) + post;
    SuffixPreservesCollisions(pre + [s[i]], pre + [c], post);
    HashConcat(FNV_1A_OFFSET_BASIS, pre, [s[i]]);
    HashConcat(FNV_1A_OFFSET_BASIS, pre, [c]);
    assert [c][1..] == "" && [s[i]][1..] == "";
    if Hash(pre + [c]) == Hash(pre + [s[i]]) {
      MixInjectiveInByte(Hash(pre), c, s[i]);
    }
  }
}
