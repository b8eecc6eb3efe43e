/**
 The constants and functions of SHA-256 by what FIPS 180-4 says they are: sections 4.2.2 and 5.3.3 (fractions of
 roots of the first primes) and section 4.1.2 (functions on the bits of words).
 */
module Sha256Constants {
  import opened Sha256

  // ----- the first primes

  ghost predicate IsPrime(n: nat) {
    n >= 2 && forall d: nat | 2 <= d < n :: n % d != 0
  }

  ghost predicate NextPrime(p: nat, q: nat) {
    p < q && IsPrime(q) && forall n | p < n < q :: !IsPrime(n)
  }

  const PRIMES: seq<nat> :=
    [2, 3, 5, 7, 11, 13, 17, 19] +
    [23, 29, 31, 37, 41, 43, 47, 53] +
    [59, 61, 67, 71, 73, 79, 83, 89] +
    [97, 101, 103, 107, 109, 113, 127, 131] +
    [137, 139, 149, 151, 157, 163, 167, 173] +
    [179, 181, 191, 193, 197, 199, 211, 223] +
    [227, 229, 233, 239, 241, 251, 257, 263] +
    [269, 271, 277, 281, 283, 293, 307, 311]

  predicate SmallFactor(n: nat) {
    n % 2 == 0 || n % 3 == 0 || n % 5 == 0 || n % 7 == 0 || n % 11 == 0 || n % 13 == 0 || n % 17 == 0
  }

  lemma FactorOfFactor(n: nat, d: nat, q: nat)
    requires d > 0 && q > 0 && n % d == 0 && d % q == 0
    ensures n % q == 0
  {
    var a, b := n / d, d / q;
    assert n == d * a && d == q * b;
    assert n == q * (b * a) by {
      assert q * b * a == q * (b * a);
    }
    MultipleHasNoRest(q, b * a);
  }

  lemma MultipleHasNoRest(q: nat, k: nat)
    requires q > 0
    ensures q * k % q == 0
  {
    QuotientIs(q * k, q, k, 0);
  }

  lemma OddSmall(d: nat)
    requires 2 <= d < 19 && d % 2 != 0 && d % 3 != 0 && d % 5 != 0
    ensures d == 7 || d == 11 || d == 13 || d == 17
  {
  }

  lemma SmallHasSmallFactor(n: nat, d: nat)
    requires 2 <= d < 19 && n % d == 0
    ensures SmallFactor(n)
  {
    if d % 2 == 0 {
      FactorOfFactor(n, d, 2);
    } else if d % 3 == 0 {
      FactorOfFactor(n, d, 3);
    } else if d % 5 == 0 {
      FactorOfFactor(n, d, 5);
    } else {
      OddSmall(d);
    }
  }

  /** A number below 19 * 19 is prime or has a factor of at most 17. */
  lemma PrimeIfNoSmallFactor(n: nat)
    requires 2 <= n < 361 && !SmallFactor(n)
    ensures IsPrime(n)
  {
    forall d: nat | 2 <= d < n
      ensures n % d != 0
    {
      NoFactor(n, d);
    }
  }

  lemma NoFactor(n: nat, d: nat)
    requires 2 <= d < n < 361 && !SmallFactor(n)
    ensures n % d != 0
  {
    if n % d == 0 {
      Factors(n, d);
      AnyFactor(n, d, n / d);
    }
  }

  lemma Factors(n: nat, d: nat)
    requires d > 0 && n % d == 0
    ensures n == d * (n / d)
  {
  }

  lemma AnyFactor(n: nat, d: nat, e: nat)
    requires n == d * e && 2 <= d < n < 361
    ensures SmallFactor(n)
  {
    if d < 19 {
      MultipleHasNoRest(d, e);
      SmallHasSmallFactor(n, d);
    } else {
      OtherFactorIsSmall(n, d, e);
      MultipleHasNoRest(e, d);
      assert d * e == e * d;
      SmallHasSmallFactor(n, e);
    }
  }

  lemma OtherFactorIsSmall(n: nat, d: nat, e: nat)
    requires n == d * e && d >= 19 && d < n < 361
    ensures 2 <= e < 19
  {
    assert (d - 19) * e >= 0;
    assert d * e == (d - 19) * e + 19 * e;
    assert e == 1 ==> d * e == d;
  }

  lemma NotPrime(n: nat)
    requires n > 17 && SmallFactor(n)
    ensures !IsPrime(n)
  {
    assert exists d: nat :: 2 <= d < n && n % d == 0 by {
      var d := if n % 2 == 0 then 2 else if n % 3 == 0 then 3 else if n % 5 == 0 then 5 else if n % 7 == 0 then 7
               else if n % 11 == 0 then 11 else if n % 13 == 0 then 13 else 17;
      assert n % d == 0;
    }
  }

  /** The next `count` numbers from n on. */
  predicate AllHaveSmallFactor(n: nat, count: nat)
    decreases count
  {
    count > 0 ==> SmallFactor(n) && AllHaveSmallFactor(n + 1, count - 1)
  }

  lemma {:induction false} EachHasSmallFactor(n: nat, count: nat, k: nat)
    requires AllHaveSmallFactor(n, count) && n <= k < n + count
    ensures SmallFactor(k)
    decreases count
  {
    if n < k {
      EachHasSmallFactor(n + 1, count - 1, k);
    }
  }

  predicate HasSuccessor(t: nat, p: nat, q: nat) {
    |PRIMES| == 64 && t < 63 && PRIMES[t] == p && PRIMES[t + 1] == q
  }

  ghost predicate NextAt(t: nat)
    requires t < 63
  {
    |PRIMES| == 64 && NextPrime(PRIMES[t], PRIMES[t + 1])
  }

  lemma Follows(t: nat, p: nat, first: nat, count: nat, q: nat)
    requires HasSuccessor(t, p, q) && 17 <= p < q < 361 && !SmallFactor(q)
    requires first == p + 1 && q == first + count && AllHaveSmallFactor(first, count)
    ensures NextAt(t)
  {
    PrimeIfNoSmallFactor(q);
    forall n | p < n < q
      ensures !IsPrime(n)
    {
      EachHasSmallFactor(first, count, n);
      NotPrime(n);
    }
  }

  lemma PrimesBelow17()
    ensures forall t | 0 <= t < 6 :: NextAt(t)
  {
    assert 4 % 2 == 0 && 6 % 2 == 0 && 8 % 2 == 0 && 9 % 3 == 0 && 10 % 2 == 0 && 12 % 2 == 0;
    assert 14 % 2 == 0 && 15 % 3 == 0 && 16 % 2 == 0;
    assert NextAt(0) && NextAt(1) && NextAt(2) && NextAt(3) && NextAt(4) && NextAt(5);
  }

  lemma Primes6()
    ensures forall t | 6 <= t < 10 :: NextAt(t)
  {
    Follows(6, 17, 18, 1, 19);
    Follows(7, 19, 20, 3, 23);
    Follows(8, 23, 24, 5, 29);
    Follows(9, 29, 30, 1, 31);
  }

  lemma Primes10()
    ensures forall t | 10 <= t < 14 :: NextAt(t)
  {
    Follows(10, 31, 32, 5, 37);
    Follows(11, 37, 38, 3, 41);
    Follows(12, 41, 42, 1, 43);
    Follows(13, 43, 44, 3, 47);
  }

  lemma Primes14()
    ensures forall t | 14 <= t < 18 :: NextAt(t)
  {
    Follows(14, 47, 48, 5, 53);
    Follows(15, 53, 54, 5, 59);
    Follows(16, 59, 60, 1, 61);
    Follows(17, 61, 62, 5, 67);
  }

  lemma Primes18()
    ensures forall t | 18 <= t < 22 :: NextAt(t)
  {
    Follows(18, 67, 68, 3, 71);
    Follows(19, 71, 72, 1, 73);
    Follows(20, 73, 74, 5, 79);
    Follows(21, 79, 80, 3, 83);
  }

  lemma Primes22()
    ensures forall t | 22 <= t < 26 :: NextAt(t)
  {
    Follows(22, 83, 84, 5, 89);
    Follows(23, 89, 90, 7, 97);
    Follows(24, 97, 98, 3, 101);
    Follows(25, 101, 102, 1, 103);
  }

  lemma Primes26()
    ensures forall t | 26 <= t < 30 :: NextAt(t)
  {
    Follows(26, 103, 104, 3, 107);
    Follows(27, 107, 108, 1, 109);
    Follows(28, 109, 110, 3, 113);
    Follows(29, 113, 114, 13, 127);
  }

  lemma Primes30()
    ensures forall t | 30 <= t < 34 :: NextAt(t)
  {
    Follows(30, 127, 128, 3, 131);
    Follows(31, 131, 132, 5, 137);
    Follows(32, 137, 138, 1, 139);
    Follows(33, 139, 140, 9, 149);
  }

  lemma Primes34()
    ensures forall t | 34 <= t < 38 :: NextAt(t)
  {
    Follows(34, 149, 150, 1, 151);
    Follows(35, 151, 152, 5, 157);
    Follows(36, 157, 158, 5, 163);
    Follows(37, 163, 164, 3, 167);
  }

  lemma Primes38()
    ensures forall t | 38 <= t < 42 :: NextAt(t)
  {
    Follows(38, 167, 168, 5, 173);
    Follows(39, 173, 174, 5, 179);
    Follows(40, 179, 180, 1, 181);
    Follows(41, 181, 182, 9, 191);
  }

  lemma Primes42()
    ensures forall t | 42 <= t < 46 :: NextAt(t)
  {
    Follows(42, 191, 192, 1, 193);
    Follows(43, 193, 194, 3, 197);
    Follows(44, 197, 198, 1, 199);
    Follows(45, 199, 200, 11, 211);
  }

  lemma Primes46()
    ensures forall t | 46 <= t < 50 :: NextAt(t)
  {
    Follows(46, 211, 212, 11, 223);
    Follows(47, 223, 224, 3, 227);
    Follows(48, 227, 228, 1, 229);
    Follows(49, 229, 230, 3, 233);
  }

  lemma Primes50()
    ensures forall t | 50 <= t < 54 :: NextAt(t)
  {
    Follows(50, 233, 234, 5, 239);
    Follows(51, 239, 240, 1, 241);
    Follows(52, 241, 242, 9, 251);
    Follows(53, 251, 252, 5, 257);
  }

  lemma Primes54()
    ensures forall t | 54 <= t < 58 :: NextAt(t)
  {
    Follows(54, 257, 258, 5, 263);
    Follows(55, 263, 264, 5, 269);
    Follows(56, 269, 270, 1, 271);
    Follows(57, 271, 272, 5, 277);
  }

  lemma Primes58()
    ensures forall t | 58 <= t < 62 :: NextAt(t)
  {
    Follows(58, 277, 278, 3, 281);
    Follows(59, 281, 282, 1, 283);
    Follows(60, 283, 284, 9, 293);
    Follows(61, 293, 294, 13, 307);
  }

  lemma Primes62()
    ensures forall t | 62 <= t < 63 :: NextAt(t)
  {
    Follows(62, 307, 308, 3, 311);
  }

  lemma FirstPrime()
    ensures |PRIMES| == 64 && PRIMES[0] == 2 && IsPrime(2)
  {
  }

  /** PRIMES lists the primes from 2 to 311 and misses none. */
  lemma PrimesAreFirst(t: nat)
    requires t < 63
    ensures |PRIMES| == 64 && PRIMES[0] == 2 && IsPrime(2) && NextPrime(PRIMES[t], PRIMES[t + 1])
  {
    FirstPrime();
    EveryNext(t);
  }

  lemma EveryNext(t: nat)
    requires t < 63
    ensures NextAt(t)
  {
    if t < 6 {
      PrimesBelow17();
    } else if t < 10 {
      Primes6();
    } else if t < 14 {
      Primes10();
    } else if t < 18 {
      Primes14();
    } else if t < 22 {
      Primes18();
    } else if t < 26 {
      Primes22();
    } else if t < 30 {
      Primes26();
    } else if t < 34 {
      Primes30();
    } else if t < 38 {
      Primes34();
    } else if t < 42 {
      Primes38();
    } else if t < 46 {
      Primes42();
    } else if t < 50 {
      Primes46();
    } else if t < 54 {
      Primes50();
    } else if t < 58 {
      Primes54();
    } else if t < 62 {
      Primes58();
    } else {
      Primes62();
    }
  }

  // ----- fractions of roots

  function Square(n: int): int {
    n * n
  }

  function Cube(n: int): int {
    n * n * n
  }

  const TWO_64 := TWO_32 * TWO_32

  const TWO_96 := TWO_64 * TWO_32

  /** The integer part of the cube root of a number from 1 to 342. */
  function CubeRoot(p: nat): (c: nat)
    requires 1 <= p < 343
    ensures Cube(c) <= p < Cube(c + 1)
  {
    if p < 8 then 1 else if p < 27 then 2 else if p < 64 then 3 else if p < 125 then 4 else if p < 216 then 5 else 6
  }

  /** The integer part of the square root of a number from 1 to 24. */
  function SquareRoot(p: nat): (c: nat)
    requires 1 <= p < 25
    ensures Square(c) <= p < Square(c + 1)
  {
    if p < 4 then 1 else if p < 9 then 2 else if p < 16 then 3 else 4
  }

  /** k is the first 32 bits of the fraction of the cube root of p. */
  predicate IsFractionOfCubeRoot(k: int, p: nat)
    requires 1 <= p < 343
  {
    var c := CubeRoot(p);
    0 <= k < TWO_32 && Cube(c * TWO_32 + k) <= p * TWO_96 < Cube(c * TWO_32 + k + 1)
  }

  /** k is the first 32 bits of the fraction of the square root of p. */
  predicate IsFractionOfSquareRoot(k: int, p: nat)
    requires 1 <= p < 25
  {
    var c := SquareRoot(p);
    0 <= k < TWO_32 && Square(c * TWO_32 + k) <= p * TWO_64 < Square(c * TWO_32 + k + 1)
  }

  predicate CubeRootAt(t: nat) {
    |PRIMES| == 64 && t < 64 && 1 <= PRIMES[t] < 343 && IsFractionOfCubeRoot(K(t), PRIMES[t])
  }

  lemma CubeRootIs(t: nat, k: int, p: nat)
    requires |PRIMES| == 64 && t < 64 && K(t) == k && PRIMES[t] == p < 343 && p > 0 && IsFractionOfCubeRoot(k, p)
    ensures CubeRootAt(t)
  {
  }

  lemma CubeRoots0()
    ensures forall t | 0 <= t < 4 :: CubeRootAt(t)
  {
    CubeRootIs(0, 0x428a2f98, 2);
    CubeRootIs(1, 0x71374491, 3);
    CubeRootIs(2, 0xb5c0fbcf, 5);
    CubeRootIs(3, 0xe9b5dba5, 7);
  }

  lemma CubeRoots4()
    ensures forall t | 4 <= t < 8 :: CubeRootAt(t)
  {
    CubeRootIs(4, 0x3956c25b, 11);
    CubeRootIs(5, 0x59f111f1, 13);
    CubeRootIs(6, 0x923f82a4, 17);
    CubeRootIs(7, 0xab1c5ed5, 19);
  }

  lemma CubeRoots8()
    ensures forall t | 8 <= t < 12 :: CubeRootAt(t)
  {
    CubeRootIs(8, 0xd807aa98, 23);
    CubeRootIs(9, 0x12835b01, 29);
    CubeRootIs(10, 0x243185be, 31);
    CubeRootIs(11, 0x550c7dc3, 37);
  }

  lemma CubeRoots12()
    ensures forall t | 12 <= t < 16 :: CubeRootAt(t)
  {
    CubeRootIs(12, 0x72be5d74, 41);
    CubeRootIs(13, 0x80deb1fe, 43);
    CubeRootIs(14, 0x9bdc06a7, 47);
    CubeRootIs(15, 0xc19bf174, 53);
  }

  lemma CubeRoots16()
    ensures forall t | 16 <= t < 20 :: CubeRootAt(t)
  {
    CubeRootIs(16, 0xe49b69c1, 59);
    CubeRootIs(17, 0xefbe4786, 61);
    CubeRootIs(18, 0x0fc19dc6, 67);
    CubeRootIs(19, 0x240ca1cc, 71);
  }

  lemma CubeRoots20()
    ensures forall t | 20 <= t < 24 :: CubeRootAt(t)
  {
    CubeRootIs(20, 0x2de92c6f, 73);
    CubeRootIs(21, 0x4a7484aa, 79);
    CubeRootIs(22, 0x5cb0a9dc, 83);
    CubeRootIs(23, 0x76f988da, 89);
  }

  lemma CubeRoots24()
    ensures forall t | 24 <= t < 28 :: CubeRootAt(t)
  {
    CubeRootIs(24, 0x983e5152, 97);
    CubeRootIs(25, 0xa831c66d, 101);
    CubeRootIs(26, 0xb00327c8, 103);
    CubeRootIs(27, 0xbf597fc7, 107);
  }

  lemma CubeRoots28()
    ensures forall t | 28 <= t < 32 :: CubeRootAt(t)
  {
    CubeRootIs(28, 0xc6e00bf3, 109);
    CubeRootIs(29, 0xd5a79147, 113);
    CubeRootIs(30, 0x06ca6351, 127);
    CubeRootIs(31, 0x14292967, 131);
  }

  lemma CubeRoots32()
    ensures forall t | 32 <= t < 36 :: CubeRootAt(t)
  {
    CubeRootIs(32, 0x27b70a85, 137);
    CubeRootIs(33, 0x2e1b2138, 139);
    CubeRootIs(34, 0x4d2c6dfc, 149);
    CubeRootIs(35, 0x53380d13, 151);
  }

  lemma CubeRoots36()
    ensures forall t | 36 <= t < 40 :: CubeRootAt(t)
  {
    CubeRootIs(36, 0x650a7354, 157);
    CubeRootIs(37, 0x766a0abb, 163);
    CubeRootIs(38, 0x81c2c92e, 167);
    CubeRootIs(39, 0x92722c85, 173);
  }

  lemma CubeRoots40()
    ensures forall t | 40 <= t < 44 :: CubeRootAt(t)
  {
    CubeRootIs(40, 0xa2bfe8a1, 179);
    CubeRootIs(41, 0xa81a664b, 181);
    CubeRootIs(42, 0xc24b8b70, 191);
    CubeRootIs(43, 0xc76c51a3, 193);
  }

  lemma CubeRoots44()
    ensures forall t | 44 <= t < 48 :: CubeRootAt(t)
  {
    CubeRootIs(44, 0xd192e819, 197);
    CubeRootIs(45, 0xd6990624, 199);
    CubeRootIs(46, 0xf40e3585, 211);
    CubeRootIs(47, 0x106aa070, 223);
  }

  lemma CubeRoots48()
    ensures forall t | 48 <= t < 52 :: CubeRootAt(t)
  {
    CubeRootIs(48, 0x19a4c116, 227);
    CubeRootIs(49, 0x1e376c08, 229);
    CubeRootIs(50, 0x2748774c, 233);
    CubeRootIs(51, 0x34b0bcb5, 239);
  }

  lemma CubeRoots52()
    ensures forall t | 52 <= t < 56 :: CubeRootAt(t)
  {
    CubeRootIs(52, 0x391c0cb3, 241);
    CubeRootIs(53, 0x4ed8aa4a, 251);
    CubeRootIs(54, 0x5b9cca4f, 257);
    CubeRootIs(55, 0x682e6ff3, 263);
  }

  lemma CubeRoots56()
    ensures forall t | 56 <= t < 60 :: CubeRootAt(t)
  {
    CubeRootIs(56, 0x748f82ee, 269);
    CubeRootIs(57, 0x78a5636f, 271);
    CubeRootIs(58, 0x84c87814, 277);
    CubeRootIs(59, 0x8cc70208, 281);
  }

  lemma CubeRoots60()
    ensures forall t | 60 <= t < 64 :: CubeRootAt(t)
  {
    CubeRootIs(60, 0x90befffa, 283);
    CubeRootIs(61, 0xa4506ceb, 293);
    CubeRootIs(62, 0xbef9a3f7, 307);
    CubeRootIs(63, 0xc67178f2, 311);
  }

  /** Section 4.2.2: the constants are the fractions of the cube roots of the first 64 primes. */
  lemma ConstantsAreCubeRoots(t: nat)
    requires t < 64
    ensures |PRIMES| == 64 && 1 <= PRIMES[t] < 343 && IsFractionOfCubeRoot(K(t), PRIMES[t])
  {
    assert CubeRootAt(t) by {
      if t < 4 {
        CubeRoots0();
      } else if t < 8 {
        CubeRoots4();
      } else if t < 12 {
        CubeRoots8();
      } else if t < 16 {
        CubeRoots12();
      } else if t < 20 {
        CubeRoots16();
      } else if t < 24 {
        CubeRoots20();
      } else if t < 28 {
        CubeRoots24();
      } else if t < 32 {
        CubeRoots28();
      } else if t < 36 {
        CubeRoots32();
      } else if t < 40 {
        CubeRoots36();
      } else if t < 44 {
        CubeRoots40();
      } else if t < 48 {
        CubeRoots44();
      } else if t < 52 {
        CubeRoots48();
      } else if t < 56 {
        CubeRoots52();
      } else if t < 60 {
        CubeRoots56();
      } else {
        CubeRoots60();
      }
    }
  }

  lemma SquareRootIs(w: Word, k: nat, p: nat)
    requires w == WordOf(k) && 1 <= p < 25 && IsFractionOfSquareRoot(k, p)
    ensures IsFractionOfSquareRoot(Value(w), p)
  {
    ValueOfWord(k);
  }

  /** Section 5.3.3: the initial hash value holds the fractions of the square roots of the first eight primes. */
  lemma InitialIsSquareRoots(r: Registers)
    requires r == Initial(MOD32)
    ensures IsFractionOfSquareRoot(Value(r.a), 2) && IsFractionOfSquareRoot(Value(r.b), 3)
    ensures IsFractionOfSquareRoot(Value(r.c), 5) && IsFractionOfSquareRoot(Value(r.d), 7)
    ensures IsFractionOfSquareRoot(Value(r.e), 11) && IsFractionOfSquareRoot(Value(r.f), 13)
    ensures IsFractionOfSquareRoot(Value(r.g), 17) && IsFractionOfSquareRoot(Value(r.h), 19)
  {
    SquareRootIs(r.a, 0x6a09e667, 2);
    SquareRootIs(r.b, 0xbb67ae85, 3);
    SquareRootIs(r.c, 0x3c6ef372, 5);
    SquareRootIs(r.d, 0xa54ff53a, 7);
    SquareRootIs(r.e, 0x510e527f, 11);
    SquareRootIs(r.f, 0x9b05688c, 13);
    SquareRootIs(r.g, 0x1f83d9ab, 17);
    SquareRootIs(r.h, 0x5be0cd19, 19);
  }

  // ----- the functions of section 4.1.2, bit by bit; bit j is the one of weight 2^j

  predicate Bit(w: Word, j: nat) {
    Digit(Value(w), j)
  }

  lemma BitIs(w: Word, j: nat)
    requires j < 32
    ensures Bit(w, j) == w[31 - j]
  {
    BinaryOfValue(w);
  }

  lemma ChChooses(x: Word, y: Word, z: Word, j: nat)
    requires j < 32
    ensures Bit(Ch(x, y, z), j) == if Bit(x, j) then Bit(y, j) else Bit(z, j)
  {
    BitIs(Ch(x, y, z), j);
    BitIs(x, j);
    BitIs(y, j);
    BitIs(z, j);
  }

  lemma MajIsMajority(x: Word, y: Word, z: Word, j: nat)
    requires j < 32
    ensures Bit(Maj(x, y, z), j)
        <==> (Bit(x, j) && Bit(y, j)) || (Bit(x, j) && Bit(z, j)) || (Bit(y, j) && Bit(z, j))
  {
    BitIs(Maj(x, y, z), j);
    BitIs(x, j);
    BitIs(y, j);
    BitIs(z, j);
  }

  /** An odd number of the three. */
  predicate Odd3(a: bool, b: bool, c: bool) {
    if a then b == c else b != c
  }

  lemma XorBits(p: Word, q: Word, r: Word, j: nat)
    requires j < 32
    ensures Bit(Xor(Xor(p, q), r), j) == Odd3(Bit(p, j), Bit(q, j), Bit(r, j))
  {
    BitIs(Xor(Xor(p, q), r), j);
    BitIs(p, j);
    BitIs(q, j);
    BitIs(r, j);
  }

  lemma RotrBit(x: Word, n: nat, j: nat)
    requires n < 32 && j < 32
    ensures Bit(Rotr(x, n), j) == Bit(x, (j + n) % 32)
  {
    BitIs(Rotr(x, n), j);
    BitIs(x, (j + n) % 32);
  }

  lemma ShrBit(x: Word, n: nat, j: nat)
    requires n < 32 && j < 32
    ensures Bit(Shr(x, n), j) == (j + n < 32 && Bit(x, j + n))
  {
    BitIs(Shr(x, n), j);
    if j + n < 32 {
      BitIs(x, j + n);
    }
  }

  lemma BigSigma0Bits(x: Word, j: nat)
    requires j < 32
    ensures Bit(BigSigma0(x), j) == Odd3(Bit(x, (j + 2) % 32), Bit(x, (j + 13) % 32), Bit(x, (j + 22) % 32))
  {
    XorBits(Rotr(x, 2), Rotr(x, 13), Rotr(x, 22), j);
    RotrBit(x, 2, j);
    RotrBit(x, 13, j);
    RotrBit(x, 22, j);
  }

  lemma BigSigma1Bits(x: Word, j: nat)
    requires j < 32
    ensures Bit(BigSigma1(x), j) == Odd3(Bit(x, (j + 6) % 32), Bit(x, (j + 11) % 32), Bit(x, (j + 25) % 32))
  {
    XorBits(Rotr(x, 6), Rotr(x, 11), Rotr(x, 25), j);
    RotrBit(x, 6, j);
    RotrBit(x, 11, j);
    RotrBit(x, 25, j);
  }

  lemma SmallSigma0Bits(x: Word, j: nat)
    requires j < 32
    ensures Bit(SmallSigma0(x), j) == Odd3(Bit(x, (j + 7) % 32), Bit(x, (j + 18) % 32), (j + 3 < 32 && Bit(x, j + 3)))
  {
    XorBits(Rotr(x, 7), Rotr(x, 18), Shr(x, 3), j);
    RotrBit(x, 7, j);
    RotrBit(x, 18, j);
    ShrBit(x, 3, j);
  }

  lemma SmallSigma1Bits(x: Word, j: nat)
    requires j < 32
    ensures Bit(SmallSigma1(x), j) == Odd3(Bit(x, (j + 17) % 32), Bit(x, (j + 19) % 32), (j + 10 < 32 && Bit(x, j + 10)))
  {
    XorBits(Rotr(x, 17), Rotr(x, 19), Shr(x, 10), j);
    RotrBit(x, 17, j);
    RotrBit(x, 19, j);
    ShrBit(x, 10, j);
  }
}
