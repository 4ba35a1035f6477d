/** The index arithmetic of the cuckoo table: masks, the exclusive-or of bucket indices, and the
    two candidate buckets of a hash value.  Words are natural numbers, so that an index can be used
    to subscript a sequence; the wrap-around of a 64-bit multiplication is written out. */
module Hashing {

  const WORD: nat := 0x1_0000_0000_0000_0000
  // The 64-bit MurmurHash2 constant that spreads a tag over a word.
  const MURMUR: nat := 0xc6a4a7935bd1e995
  // Number of bucket locks, 2^16.
  const NUM_LOCKS: nat := 0x1_0000

  function Pow2(n: nat): (p: nat)
    ensures p >= 1
  {
    if n == 0 then 1 else 2 * Pow2(n - 1)
  }

  /** Bitwise exclusive or. */
  function Xor(a: nat, b: nat): nat
    decreases a + b
  {
    if a == 0 && b == 0 then 0
    else (if a % 2 == b % 2 then 0 else 1) + 2 * Xor(a / 2, b / 2)
  }

  /** Bitwise and. */
  function And(a: nat, b: nat): nat
    decreases a + b
  {
    if a == 0 && b == 0 then 0
    else (if a % 2 == 1 && b % 2 == 1 then 1 else 0) + 2 * And(a / 2, b / 2)
  }

  function HashSize(hp: nat): nat { Pow2(hp) }

  function HashMask(hp: nat): nat { HashSize(hp) - 1 }

  function LockInd(bucket: nat): nat { And(bucket, NUM_LOCKS - 1) }

  function IndexHash(hp: nat, hv: nat): nat { And(hv, HashMask(hp)) }

  /** The upper byte of the hash value, as a signed char. */
  function PartialKey(hv: nat): int
  {
    var top := (hv / 0x100_0000_0000_0000) % 0x100;
    if top >= 0x80 then top - 0x100 else top
  }

  /** The tag with its lowest bit forced to one, times the constant, in 64-bit arithmetic. */
  function HashOfTag(partial: int): nat
  {
    var nonzeroTag := partial - partial % 2 + 1;
    (nonzeroTag * MURMUR) % WORD
  }

  function AltIndex(hp: nat, partial: int, index: nat): nat
  {
    And(Xor(index, HashOfTag(partial)), HashMask(hp))
  }

  /** Both candidate buckets of a hash value, the index bucket first. */
  function Index1(hp: nat, hv: nat): nat { IndexHash(hp, hv) }

  function Index2(hp: nat, hv: nat): nat { AltIndex(hp, PartialKey(hv), IndexHash(hp, hv)) }

  // ------------------------------------------------------------------ bit lemmas

  lemma {:induction false} XorCancels(a: nat, b: nat)
    ensures Xor(Xor(a, b), b) == a
    decreases a + b
  {
    if a != 0 || b != 0 {
      XorCancels(a / 2, b / 2);
      XorStep(a, b);
      XorStep(Xor(a, b), b);
    }
  }

  /** Masking with 2^k - 1 keeps the remainder modulo 2^k. */
  lemma {:induction false} MaskIsRemainder(a: nat, k: nat)
    ensures And(a, Pow2(k) - 1) == a % Pow2(k)
    decreases k, a
  {
    if k == 0 {
      AndZero(a);
    } else {
      MaskIsRemainder(a / 2, k - 1);
      MaskStep(a, Pow2(k - 1));
    }
  }

  lemma MaskStep(a: nat, p: nat)
    requires p >= 1 && And(a / 2, p - 1) == a / 2 % p
    ensures And(a, 2 * p - 1) == a % (2 * p)
  {
    AndOddMask(a, p);
    HalvesOfRemainder(a, p);
  }

  lemma AndOddMask(a: nat, p: nat)
    requires p >= 1
    ensures And(a, 2 * p - 1) == a % 2 + 2 * And(a / 2, p - 1)
  {
    var m := 2 * p - 1;
    assert m % 2 == 1 && m / 2 == p - 1;
  }

  lemma {:induction false} AndZero(a: nat)
    ensures And(a, 0) == 0
  {
    if a != 0 { AndZero(a / 2); }
  }

  lemma HalvesOfRemainder(a: nat, p: nat)
    requires p >= 1
    ensures a % (2 * p) == a % 2 + 2 * ((a / 2) % p)
  {
    var q, r := a / 2 / p, (a / 2) % p;
    assert a / 2 == q * p + r;
    assert a == 2 * (q * p + r) + a % 2;
    assert a == q * (2 * p) + (2 * r + a % 2);
    Remainder(a, 2 * p, q, 2 * r + a % 2);
  }

  lemma Remainder(a: int, m: int, q: int, r: int)
    requires m > 0 && 0 <= r < m && a == q * m + r
    ensures a % m == r && a / m == q
  {
    var q', r' := a / m, a % m;
    Multiple(q - q', m, r' - r);
  }

  lemma Multiple(d: int, m: int, e: int)
    requires m > 0 && d * m == e && -m < e < m
    ensures d == 0
  {
    if d >= 1 {
      MulAtLeast(d, m);
      assert false;
    } else if d <= -1 {
      MulAtLeast(-d, m);
      assert false;
    }
  }

  lemma MulAtLeast(d: int, m: int)
    requires d >= 1 && m > 0
    ensures d * m >= m
  {
    assert d * m == (d - 1) * m + m;
  }

  lemma RemainderOfRemainder(k: nat, n: nat, f: nat)
    requires n >= 1 && f >= 1
    ensures f * n >= 1 && (k % (f * n)) % n == k % n
  {
    PositiveProduct(f, n);
    var q, r := k / (f * n), k % (f * n);
    var q2, r2 := r / n, r % n;
    assert k == q * (f * n) + r && r == q2 * n + r2;
    assert q * (f * n) == (q * f) * n;
    assert k == (q * f + q2) * n + r2;
    Remainder(k, n, q * f + q2, r2);
  }

  lemma PositiveProduct(a: nat, b: nat)
    requires a >= 1 && b >= 1
    ensures a * b >= 1
  {
    assert a * b == (a - 1) * b + b;
    assert (a - 1) * b >= 0;
  }

  /** The low k bits of an exclusive or depend only on the low k bits of its operands. */
  lemma {:induction false} XorRemainder(a: nat, b: nat, k: nat)
    ensures Xor(a, b) % Pow2(k) == Xor(a % Pow2(k), b % Pow2(k)) < Pow2(k)
    decreases k
  {
    if k == 0 {
      assert a % 1 == 0 && b % 1 == 0;
    } else {
      XorRemainder(a / 2, b / 2, k - 1);
      XorRemainderStep(a, b, Pow2(k - 1));
    }
  }

  lemma XorRemainderStep(a: nat, b: nat, p: nat)
    requires p >= 1
    requires Xor(a / 2, b / 2) % p == Xor(a / 2 % p, b / 2 % p) < p
    ensures Xor(a, b) % (2 * p) == Xor(a % (2 * p), b % (2 * p)) < 2 * p
  {
    XorHigherBits(a, b, p);
    XorLowBits(a, b, p);
  }

  lemma XorLowBits(a: nat, b: nat, p: nat)
    requires p >= 1
    ensures Xor(a % (2 * p), b % (2 * p)) == (if a % 2 == b % 2 then 0 else 1) + 2 * Xor(a / 2 % p, b / 2 % p)
  {
    var a', b' := a % (2 * p), b % (2 * p);
    assert a' == a % 2 + 2 * (a / 2 % p) by { HalvesOfRemainder(a, p); }
    assert b' == b % 2 + 2 * (b / 2 % p) by { HalvesOfRemainder(b, p); }
    XorOfHalves(a % 2, a / 2 % p, b % 2, b / 2 % p);
  }

  lemma XorHigherBits(a: nat, b: nat, p: nat)
    requires p >= 1
    ensures Xor(a, b) % (2 * p) == (if a % 2 == b % 2 then 0 else 1) + 2 * (Xor(a / 2, b / 2) % p)
  {
    HalvesOfRemainder(Xor(a, b), p);
    XorStep(a, b);
  }

  lemma XorOfHalves(x: nat, u: nat, y: nat, w: nat)
    requires x < 2 && y < 2
    ensures Xor(x + 2 * u, y + 2 * w) == (if x == y then 0 else 1) + 2 * Xor(u, w)
  {
    var a, b := x + 2 * u, y + 2 * w;
    assert a % 2 == x && a / 2 == u && b % 2 == y && b / 2 == w;
    XorStep(a, b);
  }

  lemma XorStep(a: nat, b: nat)
    ensures Xor(a, b) % 2 == (if a % 2 == b % 2 then 0 else 1)
    ensures Xor(a, b) / 2 == Xor(a / 2, b / 2)
  {}

  lemma {:induction false} Pow2Split(a: nat, b: nat)
    ensures Pow2(a + b) == Pow2(a) * Pow2(b)
  {
    if a > 0 { Pow2Split(a - 1, b); }
  }

  lemma {:induction false} Pow2Monotone(a: nat, b: nat)
    requires a <= b
    ensures Pow2(a) <= Pow2(b)
  {
    if a < b { Pow2Monotone(a, b - 1); }
  }

  lemma NumLocksIsPow2()
    ensures Pow2(16) == NUM_LOCKS
  {
    assert Pow2(8) == 256;
    Pow2Split(8, 8);
  }

  lemma WordIsPow2()
    ensures Pow2(64) == WORD
  {
    NumLocksIsPow2();
    Pow2Split(16, 16);
    Pow2Split(32, 32);
  }

  /** Cutting a number to a word keeps its low bits. */
  lemma LowBitsOfWord(m: nat, k: nat)
    requires k <= 64
    ensures m % WORD % Pow2(k) == m % Pow2(k)
  {
    hide Pow2;
    WordIsPow2();
    Pow2Split(64 - k, k);
    RemainderOfRemainder(m, Pow2(k), Pow2(64 - k));
  }

  /** Exclusive or moves every word, unless it is with zero. */
  lemma {:induction false} XorFixes(i: nat, x: nat)
    ensures Xor(i, x) == i <==> x == 0
    decreases i + x
  {
    if i != 0 || x != 0 {
      XorFixes(i / 2, x / 2);
      XorStep(i, x);
    }
  }

  /** Whether a product with an odd number is a multiple of 2^k depends on the other factor only. */
  lemma {:induction false} OddFactor(t: nat, odd: nat, k: nat)
    requires odd % 2 == 1
    ensures t * odd % Pow2(k) == 0 <==> t % Pow2(k) == 0
    decreases k
  {
    if k > 0 {
      OddFactor(t / 2, odd, k - 1);
      OddFactorStep(t, odd, Pow2(k - 1));
    }
  }

  lemma OddFactorStep(t: nat, odd: nat, p: nat)
    requires odd % 2 == 1 && p >= 1 && (t / 2 * odd % p == 0 <==> t / 2 % p == 0)
    ensures t * odd % (2 * p) == 0 <==> t % (2 * p) == 0
  {
    HalvesOfRemainder(t, p);
    HalvesOfRemainder(t * odd, p);
    ParityOfProduct(t, odd);
  }

  lemma ParityOfProduct(t: nat, odd: nat)
    requires odd % 2 == 1
    ensures t * odd % 2 == t % 2
    ensures t % 2 == 0 ==> t * odd / 2 == t / 2 * odd
  {
    var h, o := t / 2, odd / 2;
    if t % 2 == 0 {
      assert t * odd == 2 * (h * odd);
    } else {
      assert t == 2 * h + 1 && odd == 2 * o + 1;
      OddProduct(h, o);
    }
  }

  // ------------------------------------------------------------------ the two candidate buckets

  lemma IndexForms(hp: nat, hv: nat, partial: int, i: nat)
    ensures IndexHash(hp, hv) == hv % Pow2(hp) < Pow2(hp)
    ensures AltIndex(hp, partial, i) == Xor(i, HashOfTag(partial)) % Pow2(hp) < Pow2(hp)
  {
    MaskIsRemainder(hv, hp);
    MaskIsRemainder(Xor(i, HashOfTag(partial)), hp);
  }

  lemma LockIndIsRemainder(b: nat)
    ensures LockInd(b) == b % NUM_LOCKS
  {
    NumLocksIsPow2();
    MaskIsRemainder(b, 16);
  }

  lemma TagHashIsOdd(partial: int)
    ensures HashOfTag(partial) % 2 == 1
  {
    WrappedOddProduct((partial - partial % 2) / 2, MURMUR / 2, WORD / 2);
  }

  lemma WrappedOddProduct(a: int, b: int, h: int)
    requires h >= 1
    ensures (2 * a + 1) * (2 * b + 1) % (2 * h) % 2 == 1
  {
    OddProduct(a, b);
    EvenModulus((2 * a + 1) * (2 * b + 1), h);
  }

  lemma OddProduct(a: int, b: int)
    ensures (2 * a + 1) * (2 * b + 1) % 2 == 1
  {
    assert (2 * a + 1) * (2 * b + 1) == 2 * (2 * a * b + a + b) + 1;
  }

  lemma EvenModulus(m: int, h: int)
    requires h >= 1
    ensures m % (2 * h) % 2 == m % 2
  {
    var q, r := m / (2 * h), m % (2 * h);
    assert m == 2 * (q * h) + r;
  }

  /** Exclusive or with an odd word, cut to p = 2^hp, moves every index and moves it back. */
  lemma OddXorInvolution(hp: nat, h: nat, i: nat)
    requires hp >= 1 && i < Pow2(hp) && h % 2 == 1
    ensures var a := Xor(i, h) % Pow2(hp); a != i && Xor(a, h) % Pow2(hp) == i
  {
    var p := Pow2(hp);
    XorWithinMask(i, h, hp);
    var a := Xor(i, h) % p;
    XorWithinMask(a, h, hp);
    XorCancels(i, h % p);
    OddXorMoves(i, h, Pow2(hp - 1));
  }

  lemma XorWithinMask(i: nat, h: nat, hp: nat)
    requires i < Pow2(hp)
    ensures Xor(i, h) % Pow2(hp) == Xor(i, h % Pow2(hp)) < Pow2(hp)
  {
    XorRemainder(i, h, hp);
    SmallRemainder(i, Pow2(hp));
  }

  lemma OddXorMoves(i: nat, h: nat, half: nat)
    requires half >= 1 && h % 2 == 1
    ensures Xor(i, h) % (2 * half) != i
  {
    HalvesOfRemainder(Xor(i, h), half);
    XorStep(i, h);
  }

  lemma SmallRemainder(a: nat, p: nat)
    requires a < p
    ensures a % p == a
  {}

  /** The alternate of the alternate is the bucket itself, and the two candidates always differ. */
  lemma AltIndexInvolution(hp: nat, partial: int, i: nat)
    requires hp >= 1 && i < Pow2(hp)
    ensures AltIndex(hp, partial, AltIndex(hp, partial, i)) == i
    ensures AltIndex(hp, partial, i) != i
  {
    IndexForms(hp, 0, partial, i);
    IndexForms(hp, 0, partial, AltIndex(hp, partial, i));
    TagHashIsOdd(partial);
    OddXorInvolution(hp, HashOfTag(partial), i);
  }

  lemma XorTopBit(hp: nat, h: nat, i: nat)
    ensures var p, x := Pow2(hp), Xor(i, h) % (2 * Pow2(hp));
            x == Xor(i % p, h) % p || x == Xor(i % p, h) % p + p
  {
    var p := Pow2(hp);
    TopBit(Xor(i, h), p);
    XorRemainder(i, h, hp);
    XorRemainder(i % p, h, hp);
    SmallRemainder(i % p, p);
  }

  /** One extra bit of hashpower adds one bit on top of either candidate. */
  lemma DoublingAddsTopBit(hp: nat, hv: nat, partial: int, i: nat)
    ensures IndexHash(hp + 1, hv) == IndexHash(hp, hv) || IndexHash(hp + 1, hv) == IndexHash(hp, hv) + Pow2(hp)
    ensures var a, a' := AltIndex(hp, partial, i % Pow2(hp)), AltIndex(hp + 1, partial, i);
            a' == a || a' == a + Pow2(hp)
  {
    IndexForms(hp, hv, partial, i % Pow2(hp));
    IndexForms(hp + 1, hv, partial, i);
    TopBit(hv, Pow2(hp));
    XorTopBit(hp, HashOfTag(partial), i);
  }

  lemma TopBit(a: nat, p: nat)
    requires p >= 1
    ensures a % (2 * p) == a % p || a % (2 * p) == a % p + p
    ensures a % (2 * p) % p == a % p
  {
    TopBitCases(a, p, a / p, a % p);
  }

  lemma TopBitCases(a: nat, p: nat, q: nat, r: nat)
    requires r < p && a == q * p + r
    ensures a % p == r
    ensures a % (2 * p) == r || a % (2 * p) == r + p
    ensures a % (2 * p) % p == r
  {
    Remainder(a, p, q, r);
    var h := q / 2;
    if q == 2 * h {
      assert q * p == h * (2 * p);
      Remainder(a, 2 * p, h, r);
      Remainder(r, p, 0, r);
    } else {
      assert q == 2 * h + 1;
      assert q * p == h * (2 * p) + p;
      Remainder(a, 2 * p, h, r + p);
      Remainder(r + p, p, 1, r);
    }
  }

  /** Both candidates of a hash value are buckets of the table, and they differ. */
  lemma CandidatesAreBuckets(hp: nat, hv: nat)
    requires hp >= 1
    ensures Index1(hp, hv) < Pow2(hp) && Index2(hp, hv) < Pow2(hp)
    ensures Index1(hp, hv) != Index2(hp, hv)
    ensures AltIndex(hp, PartialKey(hv), Index1(hp, hv)) == Index2(hp, hv)
    ensures AltIndex(hp, PartialKey(hv), Index2(hp, hv)) == Index1(hp, hv)
  {
    IndexForms(hp, hv, PartialKey(hv), Index1(hp, hv));
    AltIndexInvolution(hp, PartialKey(hv), Index1(hp, hv));
  }

  /** After doubling, each candidate is the old candidate or lies 2^hp further on. */
  lemma CandidatesAfterDoubling(hp: nat, hv: nat)
    ensures Index1(hp + 1, hv) == Index1(hp, hv) || Index1(hp + 1, hv) == Index1(hp, hv) + Pow2(hp)
    ensures Index2(hp + 1, hv) == Index2(hp, hv) || Index2(hp + 1, hv) == Index2(hp, hv) + Pow2(hp)
  {
    var i' := IndexHash(hp + 1, hv);
    IndexForms(hp, hv, 0, 0);
    IndexForms(hp + 1, hv, 0, 0);
    TopBit(hv, Pow2(hp));
    assert i' % Pow2(hp) == IndexHash(hp, hv);
    DoublingAddsTopBit(hp, hv, PartialKey(hv), i');
  }

  // ------------------------------------------------------------------ the first numbers as a set

  function Upto(n: nat): (r: set<nat>)
    ensures forall l: nat :: l in r <==> l < n
  {
    if n == 0 then {} else Upto(n - 1) + {n - 1}
  }

  lemma {:induction false} UptoSize(n: nat)
    ensures |Upto(n)| == n
  {
    if n > 0 { UptoSize(n - 1); }
  }

  lemma {:induction false} SubsetSize<T>(a: set<T>, b: set<T>)
    requires a <= b
    ensures |a| <= |b|
  {
    if a != {} {
      var x :| x in a;
      SubsetSize(a - {x}, b - {x});
    }
  }

  // ------------------------------------------------------------------ the bins of the cache-line tables

  lemma {:induction false} AndBound(a: nat, m: nat)
    ensures And(a, m) <= m
    decreases a + m
  {
    if a != 0 || m != 0 { AndBound(a / 2, m / 2); }
  }

  /** clht_hash: the key masked with num_buckets - 1. */
  function BinOf(n: nat, key: nat): (b: nat)
    requires n >= 1
    ensures b < n
  {
    AndBound(key, n - 1);
    And(key, n - 1)
  }
}
