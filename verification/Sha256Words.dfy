/**
 The words of Sha256 as bit vectors: every operation on them is the machine operation on 32 bits, so that
 examples can be computed.
 */
module Sha256Words {
  import opened Sha256

  // ----- vectors of bits, read from the right

  datatype Machine<!T> = Machine(odd: T -> bool, half: T -> T, xor: (T, T) -> T, and: (T, T) -> T,
                                 add: (T, T) -> T, turn: (T, nat) -> T, shift: (T, nat) -> T)

  /** The last n bits of a vector, the most significant first. */
  function BitsOf<T>(m: Machine<T>, x: T, n: nat): (bits: Bits)
    ensures |bits| == n
  {
    if n == 0 then [] else BitsOf(m, m.half(x), n - 1) + [m.odd(x)]
  }

  predicate XorLaw<T(==)>(m: Machine<T>, x: T, y: T) {
    m.odd(m.xor(x, y)) == (m.odd(x) != m.odd(y)) && m.half(m.xor(x, y)) == m.xor(m.half(x), m.half(y))
  }

  predicate AndLaw<T(==)>(m: Machine<T>, x: T, y: T) {
    m.odd(m.and(x, y)) == (m.odd(x) && m.odd(y)) && m.half(m.and(x, y)) == m.and(m.half(x), m.half(y))
  }

  /** Both operations work on each bit by itself. */
  ghost predicate Bitwise<T(!new)>(m: Machine<T>) {
    forall x: T, y: T :: XorLaw(m, x, y) && AndLaw(m, x, y)
  }

  lemma {:induction false} XorOfBits<T(!new)>(m: Machine<T>, x: T, y: T, n: nat, i: nat)
    requires Bitwise(m) && i < n
    ensures BitsOf(m, m.xor(x, y), n)[i] == (BitsOf(m, x, n)[i] != BitsOf(m, y, n)[i])
    decreases n
  {
    assert XorLaw(m, x, y);
    if i < n - 1 {
      XorOfBits(m, m.half(x), m.half(y), n - 1, i);
    }
  }

  lemma {:induction false} AndOfBits<T(!new)>(m: Machine<T>, x: T, y: T, n: nat, i: nat)
    requires Bitwise(m) && i < n
    ensures BitsOf(m, m.and(x, y), n)[i] == (BitsOf(m, x, n)[i] && BitsOf(m, y, n)[i])
    decreases n
  {
    assert AndLaw(m, x, y);
    if i < n - 1 {
      AndOfBits(m, m.half(x), m.half(y), n - 1, i);
    }
  }

  lemma {:induction false} WithoutFirst<T>(m: Machine<T>, x: T, n: nat)
    ensures BitsOf(m, x, n + 1)[1..] == BitsOf(m, x, n)
    decreases n
  {
    if n > 0 {
      WithoutFirst(m, m.half(x), n - 1);
    }
  }

  predicate NoneSet(bits: Bits) {
    forall i | 0 <= i < |bits| :: !bits[i]
  }

  lemma SameBits<T(!new)>(m: Machine<T>, x: T, y: T, n: nat)
    requires Bitwise(m) && NoneSet(BitsOf(m, m.xor(x, y), n))
    ensures BitsOf(m, x, n) == BitsOf(m, y, n)
  {
    forall i | 0 <= i < n
      ensures BitsOf(m, x, n)[i] == BitsOf(m, y, n)[i]
    {
      XorOfBits(m, x, y, n, i);
    }
  }

  // ----- 32 bits of the machine

  const BV: Machine<bv32> :=
    Machine((x: bv32) => x & 1 == 1, (x: bv32) => x >> 1, (x: bv32, y: bv32) => x ^ y, (x: bv32, y: bv32) => x & y,
            (x: bv32, y: bv32) => x + y, (x: bv32, n: nat) => Turned(x, n), (x: bv32, n: nat) => Shifted(x, n))

  function Right2(x: bv32): bv32 {
    (x >> 2) | (x << 30)
  }

  function Right6(x: bv32): bv32 {
    (x >> 6) | (x << 26)
  }

  function Right7(x: bv32): bv32 {
    (x >> 7) | (x << 25)
  }

  function Right11(x: bv32): bv32 {
    (x >> 11) | (x << 21)
  }

  function Right13(x: bv32): bv32 {
    (x >> 13) | (x << 19)
  }

  function Right17(x: bv32): bv32 {
    (x >> 17) | (x << 15)
  }

  function Right18(x: bv32): bv32 {
    (x >> 18) | (x << 14)
  }

  function Right19(x: bv32): bv32 {
    (x >> 19) | (x << 13)
  }

  function Right22(x: bv32): bv32 {
    (x >> 22) | (x << 10)
  }

  function Right25(x: bv32): bv32 {
    (x >> 25) | (x << 7)
  }

  function Turned(x: bv32, n: nat): bv32 {
    match n
    case 2 => Right2(x)
    case 6 => Right6(x)
    case 7 => Right7(x)
    case 11 => Right11(x)
    case 13 => Right13(x)
    case 17 => Right17(x)
    case 18 => Right18(x)
    case 19 => Right19(x)
    case 22 => Right22(x)
    case 25 => Right25(x)
    case _ => x
  }

  function Shifted(x: bv32, n: nat): bv32 {
    match n
    case 3 => x >> 3
    case 10 => x >> 10
    case _ => x
  }

  const TOP: bv32 := 0x8000_0000

  function WordIn<T>(m: Machine<T>, x: T): Word {
    BitsOf(m, x, 32)
  }

  function W(x: bv32): Word {
    WordIn(BV, x)
  }

  lemma HalfOfXor(x: bv32, y: bv32, z: bv32, hx: bv32, hy: bv32, hz: bv32)
    requires z == x ^ y && hx == x >> 1 && hy == y >> 1 && hz == z >> 1
    ensures hz == hx ^ hy
  {
  }

  lemma OddOfXor(x: bv32, y: bv32, z: bv32)
    requires z == x ^ y
    ensures (z & 1 == 1) == ((x & 1 == 1) != (y & 1 == 1))
  {
  }

  lemma HalfOfAnd(x: bv32, y: bv32, z: bv32, hx: bv32, hy: bv32, hz: bv32)
    requires z == x & y && hx == x >> 1 && hy == y >> 1 && hz == z >> 1
    ensures hz == hx & hy
  {
  }

  lemma OddOfAnd(x: bv32, y: bv32, z: bv32)
    requires z == x & y
    ensures (z & 1 == 1) == (x & 1 == 1 && y & 1 == 1)
  {
  }

  lemma HalfIs(x: bv32, h: bv32)
    requires h == x >> 1
    ensures BV.half(x) == h
  {
  }

  lemma XorIs(x: bv32, y: bv32, z: bv32)
    requires z == x ^ y
    ensures BV.xor(x, y) == z
  {
  }

  lemma AndIs(x: bv32, y: bv32, z: bv32)
    requires z == x & y
    ensures BV.and(x, y) == z
  {
  }

  lemma OddIs(x: bv32, odd: bool)
    requires odd == (x & 1 == 1)
    ensures BV.odd(x) == odd
  {
  }

  lemma XorOfMachine(x: bv32, y: bv32)
    ensures XorLaw(BV, x, y)
  {
    var z, hx, hy := x ^ y, x >> 1, y >> 1;
    var hz, ox, oy := z >> 1, x & 1 == 1, y & 1 == 1;
    var oz := z & 1 == 1;
    HalfOfXor(x, y, z, hx, hy, hz);
    OddOfXor(x, y, z);
    XorIs(x, y, z);
    XorIs(hx, hy, hz);
    HalfIs(x, hx);
    HalfIs(y, hy);
    HalfIs(z, hz);
    OddIs(x, ox);
    OddIs(y, oy);
    OddIs(z, oz);
  }

  lemma AndOfMachine(x: bv32, y: bv32)
    ensures AndLaw(BV, x, y)
  {
    var z, hx, hy := x & y, x >> 1, y >> 1;
    var hz, ox, oy := z >> 1, x & 1 == 1, y & 1 == 1;
    var oz := z & 1 == 1;
    HalfOfAnd(x, y, z, hx, hy, hz);
    OddOfAnd(x, y, z);
    AndIs(x, y, z);
    AndIs(hx, hy, hz);
    HalfIs(x, hx);
    HalfIs(y, hy);
    HalfIs(z, hz);
    OddIs(x, ox);
    OddIs(y, oy);
    OddIs(z, oz);
  }

  lemma MachineIsBitwise()
    ensures Bitwise(BV)
  {
    forall x: bv32, y: bv32
      ensures XorLaw(BV, x, y) && AndLaw(BV, x, y)
    {
      XorOfMachine(x, y);
      AndOfMachine(x, y);
    }
  }

  lemma XorAt(x: bv32, y: bv32, z: bv32, i: nat)
    requires Bitwise(BV) && z == BV.xor(x, y) && i < 32
    ensures W(z)[i] == (W(x)[i] != W(y)[i])
  {
    XorOfBits(BV, x, y, 32, i);
  }

  lemma AndAt(x: bv32, y: bv32, z: bv32, i: nat)
    requires Bitwise(BV) && z == BV.and(x, y) && i < 32
    ensures W(z)[i] == (W(x)[i] && W(y)[i])
  {
    AndOfBits(BV, x, y, 32, i);
  }

  lemma BitwiseXor(x: Word, y: Word, z: Word)
    requires forall i | 0 <= i < 32 :: z[i] == (x[i] != y[i])
    ensures Xor(x, y) == z
  {
  }

  lemma BitwiseAnd(x: Word, y: Word, z: Word)
    requires forall i | 0 <= i < 32 :: z[i] == (x[i] && y[i])
    ensures And(x, y) == z
  {
  }

  lemma XorOfWords(x: bv32, y: bv32, z: bv32)
    requires z == BV.xor(x, y)
    ensures Xor(W(x), W(y)) == W(z)
  {
    MachineIsBitwise();
    forall i | 0 <= i < 32
      ensures W(z)[i] == (W(x)[i] != W(y)[i])
    {
      XorAt(x, y, z, i);
    }
    BitwiseXor(W(x), W(y), W(z));
  }

  lemma AndOfWords(x: bv32, y: bv32, z: bv32)
    requires z == BV.and(x, y)
    ensures And(W(x), W(y)) == W(z)
  {
    MachineIsBitwise();
    forall i | 0 <= i < 32
      ensures W(z)[i] == (W(x)[i] && W(y)[i])
    {
      AndAt(x, y, z, i);
    }
    BitwiseAnd(W(x), W(y), W(z));
  }

  // ----- the top bit, shifts and turns by one

  lemma OneMoreZero(x: bv32, h: bv32, n: nat)
    requires n > 0 && h == x >> 1 && x & 1 == 0 && NoneSet(BitsOf(BV, h, n - 1))
    ensures NoneSet(BitsOf(BV, x, n))
  {
    HalfIs(x, h);
    OddIs(x, false);
  }

  lemma {:induction false} ZeroBits(n: nat)
    ensures NoneSet(BitsOf(BV, 0, n))
  {
    if n > 0 {
      ZeroBits(n - 1);
      OneMoreZero(0, 0, n);
    }
  }

  predicate OnlyFirstSet(bits: Bits) {
    |bits| > 0 && bits[0] && forall i | 1 <= i < |bits| :: !bits[i]
  }

  lemma OneZeroMore(x: bv32, h: bv32, n: nat)
    requires n > 0 && h == x >> 1 && x & 1 == 0 && OnlyFirstSet(BitsOf(BV, h, n - 1))
    ensures OnlyFirstSet(BitsOf(BV, x, n))
  {
    HalfIs(x, h);
    OddIs(x, false);
  }

  lemma OneIsSet()
    ensures OnlyFirstSet(BitsOf(BV, 1, 1))
  {
    OddIs(1, true);
  }

  lemma TopIsSet()
    ensures OnlyFirstSet(W(TOP))
  {
    OneIsSet();
    OneZeroMore(0x2, 0x1, 2);
    OneZeroMore(0x4, 0x2, 3);
    OneZeroMore(0x8, 0x4, 4);
    OneZeroMore(0x10, 0x8, 5);
    OneZeroMore(0x20, 0x10, 6);
    OneZeroMore(0x40, 0x20, 7);
    OneZeroMore(0x80, 0x40, 8);
    OneZeroMore(0x100, 0x80, 9);
    OneZeroMore(0x200, 0x100, 10);
    OneZeroMore(0x400, 0x200, 11);
    OneZeroMore(0x800, 0x400, 12);
    OneZeroMore(0x1000, 0x800, 13);
    OneZeroMore(0x2000, 0x1000, 14);
    OneZeroMore(0x4000, 0x2000, 15);
    OneZeroMore(0x8000, 0x4000, 16);
    OneZeroMore(0x10000, 0x8000, 17);
    OneZeroMore(0x20000, 0x10000, 18);
    OneZeroMore(0x40000, 0x20000, 19);
    OneZeroMore(0x80000, 0x40000, 20);
    OneZeroMore(0x100000, 0x80000, 21);
    OneZeroMore(0x200000, 0x100000, 22);
    OneZeroMore(0x400000, 0x200000, 23);
    OneZeroMore(0x800000, 0x400000, 24);
    OneZeroMore(0x1000000, 0x800000, 25);
    OneZeroMore(0x2000000, 0x1000000, 26);
    OneZeroMore(0x4000000, 0x2000000, 27);
    OneZeroMore(0x8000000, 0x4000000, 28);
    OneZeroMore(0x10000000, 0x8000000, 29);
    OneZeroMore(0x20000000, 0x10000000, 30);
    OneZeroMore(0x40000000, 0x20000000, 31);
    OneZeroMore(0x80000000, 0x40000000, 32);
  }

  /** Two vectors that differ at most in the top bit. */
  lemma LastBitsAgree(x: bv32, y: bv32, z: bv32)
    requires z == BV.xor(x, y) && (z == 0 || z == TOP)
    ensures BitsOf(BV, x, 31) == BitsOf(BV, y, 31)
  {
    MachineIsBitwise();
    ZeroBits(31);
    TopIsSet();
    WithoutFirst(BV, TOP, 31);
    SameBits(BV, x, y, 31);
  }

  lemma FirstBit(x: bv32, z: bv32)
    requires z == BV.and(x, TOP) && (z == 0 || z == TOP)
    ensures W(x)[0] == (z == TOP)
  {
    MachineIsBitwise();
    AndAt(x, TOP, z, 0);
    ZeroBits(32);
    TopIsSet();
  }

  lemma WordParts(x: bv32, h: bv32)
    requires h == BV.half(x)
    ensures W(x) == BitsOf(BV, h, 31) + [BV.odd(x)] && W(x) == [W(x)[0]] + BitsOf(BV, x, 31)
  {
    WithoutFirst(BV, x, 31);
    FirstAndRest(W(x));
  }

  lemma FirstAndRest(w: Word)
    ensures w == [w[0]] + w[1..]
  {
  }

  lemma DoubleFacts(x: bv32, d: bv32, h: bv32, z: bv32)
    requires d == x << 1 && h == d >> 1 && z == h ^ x
    ensures d & 1 == 0 && (z == 0 || z == TOP)
  {
  }

  lemma DoubleOfWord(x: bv32, d: bv32)
    requires d == x << 1
    ensures W(d) == W(x)[1..] + [false]
  {
    var h := d >> 1;
    var z := h ^ x;
    DoubleFacts(x, d, h, z);
    HalfIs(d, h);
    OddIs(d, false);
    XorIs(h, x, z);
    LastBitsAgree(h, x, z);
    WordParts(d, h);
    WordParts(x, BV.half(x));
  }

  lemma HalfFacts(h: bv32, x: bv32, z: bv32)
    requires h == x >> 1 && z == h & TOP
    ensures z == 0
  {
  }

  lemma ShiftBy1(x: bv32, h: bv32)
    requires h == x >> 1
    ensures Shr(W(x), 1) == W(h)
  {
    var z := h & TOP;
    HalfFacts(h, x, z);
    HalfIs(x, h);
    AndIs(h, TOP, z);
    FirstBit(h, z);
    WordParts(x, h);
    WordParts(h, BV.half(h));
  }

  lemma TurnFacts(x: bv32, t: bv32, h: bv32, z: bv32, top: bv32)
    requires t == (x >> 1) | (x << 31) && h == x >> 1 && z == t ^ h && top == t & TOP
    ensures (z == 0 || z == TOP) && (top == 0 || top == TOP) && (top == TOP) == (x & 1 == 1)
  {
  }

  lemma TurnedParts(x: bv32, t: bv32, h: bv32, odd: bool)
    requires t == (x >> 1) | (x << 31) && h == x >> 1 && odd == (x & 1 == 1)
    ensures BitsOf(BV, t, 31) == BitsOf(BV, h, 31) && W(t)[0] == odd
  {
    var z, top := t ^ h, t & TOP;
    TurnFacts(x, t, h, z, top);
    XorIs(t, h, z);
    LastBitsAgree(t, h, z);
    AndIs(t, TOP, top);
    FirstBit(t, top);
  }

  lemma TurnIs(w: Word, t: Word, s: Bits, b: bool)
    requires w == s + [b] && t == [b] + s
    ensures Rotr(w, 1) == t
  {
  }

  lemma TurnBy1(x: bv32, t: bv32)
    requires t == (x >> 1) | (x << 31)
    ensures Rotr(W(x), 1) == W(t)
  {
    var h, odd := x >> 1, x & 1 == 1;
    TurnedParts(x, t, h, odd);
    HalfIs(x, h);
    OddIs(x, odd);
    WordParts(x, h);
    WordParts(t, BV.half(t));
    TurnIs(W(x), W(t), BitsOf(BV, h, 31), odd);
  }

  // ----- addition

  lemma {:induction false} ValueOfFirst(b: bool, s: Bits)
    ensures Value([b] + s) == (if b then Power2(|s|) else 0) + Value(s)
    decreases |s|
  {
    var all := [b] + s;
    if s == [] {
      assert all[..0] == [];
    } else {
      var last := |s| - 1;
      ValueOfFirst(b, s[..last]);
      assert all[..|s|] == [b] + s[..last];
    }
  }

  /** Two of the three. */
  predicate Two(x: bool, y: bool, c: bool) {
    (x && y) || (x && c) || (y && c)
  }

  /** Bits of a sum with their carries: c[i] is the carry into position i. */
  ghost predicate IsSum(x: Word, y: Word, s: Word, c: Word) {
    && (forall i | 0 <= i < 32 :: s[i] == ((x[i] != y[i]) != c[i]))
    && !c[31] && forall i | 0 <= i < 31 :: c[i] == Two(x[i + 1], y[i + 1], c[i + 1])
  }

  function Carry(x: Word, y: Word, c: Word, n: nat): bool
    requires n <= 32
  {
    if n == 0 then false else Two(x[32 - n], y[32 - n], c[32 - n])
  }

  lemma OneMoreBit(x: bool, y: bool, s: bool, c: bool, carry: bool, vx: nat, vy: nat, vs: nat, p: nat)
    requires s == ((x != y) != c) && carry == Two(x, y, c) && vs + (if c then p else 0) == vx + vy
    ensures (if s then p else 0) + vs + (if carry then 2 * p else 0) == (if x then p else 0) + vx + ((if y then p else 0) + vy)
  {
  }

  lemma TailValue(x: Word, i: nat)
    requires i < 32
    ensures Value(x[i..]) == (if x[i] then Power2(31 - i) else 0) + Value(x[i + 1..])
  {
    ValueOfFirst(x[i], x[i + 1..]);
    assert x[i..] == [x[i]] + x[i + 1..];
  }

  /** The last n positions add up, but for the carry out of them. */
  lemma {:induction false} LastBitsAdd(x: Word, y: Word, s: Word, c: Word, n: nat)
    requires IsSum(x, y, s, c) && n <= 32
    ensures Value(s[32 - n..]) + (if Carry(x, y, c, n) then Power2(n) else 0) == Value(x[32 - n..]) + Value(y[32 - n..])
    ensures n < 32 ==> c[31 - n] == Carry(x, y, c, n)
    decreases n
  {
    if n > 0 {
      var i: nat := 32 - n;
      LastBitsAdd(x, y, s, c, n - 1);
      TailValue(x, i);
      TailValue(y, i);
      TailValue(s, i);
      CarryOut(x, y, s, c, n);
      OneMoreBit(x[i], y[i], s[i], c[i], Carry(x, y, c, n), Value(x[i + 1..]), Value(y[i + 1..]), Value(s[i + 1..]), Power2(n - 1));
    }
  }

  lemma CarryOut(x: Word, y: Word, s: Word, c: Word, n: nat)
    requires IsSum(x, y, s, c) && 0 < n <= 32
    ensures n < 32 ==> c[31 - n] == Carry(x, y, c, n)
    ensures s[32 - n] == ((x[32 - n] != y[32 - n]) != c[32 - n])
  {
    var i: nat := 32 - n;
    assert s[i] == ((x[i] != y[i]) != c[i]);
    if n < 32 {
      var j: nat := 31 - n;
      assert c[j] == Two(x[j + 1], y[j + 1], c[j + 1]);
    }
  }

  lemma Wraps(sum: nat, v: nat)
    requires v < TWO_32 && (sum == v || sum == v + TWO_32)
    ensures sum % TWO_32 == v % TWO_32
  {
  }

  lemma SameRemainder(n: int, k: int)
    requires n % TWO_32 == k % TWO_32
    ensures WordOf(n) == WordOf(k)
  {
  }

  lemma WrapsAround(x: Word, y: Word, s: Word, sum: nat)
    requires sum == Value(x) + Value(y) && (sum == Value(s) || sum == Value(s) + TWO_32)
    ensures Add(x, y) == s
  {
    WordOfValue(s);
    Wraps(sum, Value(s));
    SameRemainder(sum, Value(s));
  }

  lemma SumIsAddition(x: Word, y: Word, s: Word, c: Word)
    requires IsSum(x, y, s, c)
    ensures Add(x, y) == s
  {
    LastBitsAdd(x, y, s, c, 32);
    Power2Of32();
    assert x[0..] == x && y[0..] == y && s[0..] == s;
    WrapsAround(x, y, s, Value(x) + Value(y));
  }

  // The carries of a sum, eight at a time: each position passes on the majority of its bits.

  lemma CarryByte0(x: bv32, y: bv32, s: bv32, c: bv32, j: bv32)
    requires s == x + y && c == (x ^ y) ^ s && j == ((x & y) ^ (x & c)) ^ (y & c)
    ensures c & 0xff == (j << 1) & 0xff
  {
  }

  lemma CarryByte1(x: bv32, y: bv32, s: bv32, c: bv32, j: bv32)
    requires s == x + y && c == (x ^ y) ^ s && j == ((x & y) ^ (x & c)) ^ (y & c)
    ensures c & 0xff00 == (j << 1) & 0xff00
  {
  }

  lemma CarryByte2(x: bv32, y: bv32, s: bv32, c: bv32, j: bv32)
    requires s == x + y && c == (x ^ y) ^ s && j == ((x & y) ^ (x & c)) ^ (y & c)
    ensures c & 0xff0000 == (j << 1) & 0xff0000
  {
  }

  lemma CarryByte3(x: bv32, y: bv32, s: bv32, c: bv32, j: bv32)
    requires s == x + y && c == (x ^ y) ^ s && j == ((x & y) ^ (x & c)) ^ (y & c)
    ensures c & 0xff000000 == (j << 1) & 0xff000000
  {
  }

  lemma CarryBytes(x: bv32, y: bv32, s: bv32, c: bv32, j: bv32)
    requires s == x + y && c == (x ^ y) ^ s && j == ((x & y) ^ (x & c)) ^ (y & c)
    ensures c & 0xff == (j << 1) & 0xff
    ensures c & 0xff00 == (j << 1) & 0xff00
    ensures c & 0xff0000 == (j << 1) & 0xff0000
    ensures c & 0xff000000 == (j << 1) & 0xff000000
  {
    CarryByte0(x, y, s, c, j);
    CarryByte1(x, y, s, c, j);
    CarryByte2(x, y, s, c, j);
    CarryByte3(x, y, s, c, j);
  }

  lemma SameBytes(c: bv32, j: bv32)
    requires c & 0xff == (j << 1) & 0xff
    requires c & 0xff00 == (j << 1) & 0xff00
    requires c & 0xff0000 == (j << 1) & 0xff0000
    requires c & 0xff000000 == (j << 1) & 0xff000000
    ensures c == j << 1
  {
  }

  lemma CarryBits(x: bv32, y: bv32, s: bv32, c: bv32, j: bv32)
    requires s == x + y && c == (x ^ y) ^ s && j == ((x & y) ^ (x & c)) ^ (y & c)
    ensures c == j << 1
  {
    CarryBytes(x, y, s, c, j);
    SameBytes(c, j);
  }

  lemma MajorityOfWords(x: bv32, y: bv32, z: bv32, j: bv32)
    requires j == ((x & y) ^ (x & z)) ^ (y & z)
    ensures Maj(W(x), W(y), W(z)) == W(j)
  {
    BitVectorsXorAnd();
    MajOfWords(BV, x, y, z);
    MajorityIs(x, y, z, j);
  }

  lemma SumHasCarries(x: Word, y: Word, s: Word, c: Word, j: Word)
    requires c == Xor(Xor(x, y), s) && j == Maj(x, y, c) && c == j[1..] + [false]
    ensures IsSum(x, y, s, c)
  {
    forall i | 0 <= i < 31
      ensures c[i] == Two(x[i + 1], y[i + 1], c[i + 1])
    {
      assert c[i] == j[i + 1];
    }
  }

  lemma XorOfThree(x: bv32, y: bv32, z: bv32, w: bv32)
    requires w == (x ^ y) ^ z
    ensures Xor(Xor(W(x), W(y)), W(z)) == W(w)
  {
    var d := x ^ y;
    XorIs(x, y, d);
    XorOfWords(x, y, d);
    XorIs(d, z, w);
    XorOfWords(d, z, w);
  }

  lemma CarriesAre(x: bv32, y: bv32, c: bv32, j: bv32)
    requires j == ((x & y) ^ (x & c)) ^ (y & c) && c == j << 1
    ensures W(c) == Maj(W(x), W(y), W(c))[1..] + [false]
  {
    MajorityOfWords(x, y, c, j);
    DoubleOfWord(j, c);
  }

  lemma CarriesOfWords(x: bv32, y: bv32, s: bv32, c: bv32)
    requires s == x + y && c == (x ^ y) ^ s
    ensures W(c) == Maj(W(x), W(y), W(c))[1..] + [false]
  {
    var j := ((x & y) ^ (x & c)) ^ (y & c);
    CarryBits(x, y, s, c, j);
    CarriesAre(x, y, c, j);
  }

  lemma SumOfWords(x: bv32, y: bv32, s: bv32)
    requires s == x + y
    ensures Add(W(x), W(y)) == W(s)
  {
    var c := (x ^ y) ^ s;
    XorOfThree(x, y, s, c);
    CarriesOfWords(x, y, s, c);
    SumHasCarries(W(x), W(y), W(s), W(c), Maj(W(x), W(y), W(c)));
    SumIsAddition(W(x), W(y), W(s), W(c));
  }

  // ----- the functions of the standard

  lemma TurnsAdd(w: Word, m: nat, n: nat)
    requires m + n <= 32
    ensures Rotr(Rotr(w, m), n) == Rotr(w, m + n)
  {
  }

  lemma ShiftsAdd(w: Word, m: nat, n: nat)
    requires m + n <= 32
    ensures Shr(Shr(w, m), n) == Shr(w, m + n)
  {
  }

  lemma Turns2(x: bv32, y: bv32, t: bv32)
    requires y == (x >> 1) | (x << 31) && t == (x >> 2) | (x << 30)
    ensures t == (y >> 1) | (y << 31)
  {
  }

  lemma TurnBy2(x: bv32, t: bv32)
    requires t == (x >> 2) | (x << 30)
    ensures Rotr(W(x), 2) == W(t)
  {
    var y := (x >> 1) | (x << 31);
    Turns2(x, y, t);
    TurnBy1(x, y);
    TurnBy1(y, t);
    TurnsAdd(W(x), 1, 1);
  }

  lemma Turns4(x: bv32, y: bv32, t: bv32)
    requires y == (x >> 2) | (x << 30) && t == (x >> 4) | (x << 28)
    ensures t == (y >> 2) | (y << 30)
  {
  }

  lemma TurnBy4(x: bv32, t: bv32)
    requires t == (x >> 4) | (x << 28)
    ensures Rotr(W(x), 4) == W(t)
  {
    var y := (x >> 2) | (x << 30);
    Turns4(x, y, t);
    TurnBy2(x, y);
    TurnBy2(y, t);
    TurnsAdd(W(x), 2, 2);
  }

  lemma Turns8(x: bv32, y: bv32, t: bv32)
    requires y == (x >> 4) | (x << 28) && t == (x >> 8) | (x << 24)
    ensures t == (y >> 4) | (y << 28)
  {
  }

  lemma TurnBy8(x: bv32, t: bv32)
    requires t == (x >> 8) | (x << 24)
    ensures Rotr(W(x), 8) == W(t)
  {
    var y := (x >> 4) | (x << 28);
    Turns8(x, y, t);
    TurnBy4(x, y);
    TurnBy4(y, t);
    TurnsAdd(W(x), 4, 4);
  }

  lemma Turns6(x: bv32, y: bv32, t: bv32)
    requires y == (x >> 4) | (x << 28) && t == (x >> 6) | (x << 26)
    ensures t == (y >> 2) | (y << 30)
  {
  }

  lemma TurnBy6(x: bv32, t: bv32)
    requires t == (x >> 6) | (x << 26)
    ensures Rotr(W(x), 6) == W(t)
  {
    var y := (x >> 4) | (x << 28);
    Turns6(x, y, t);
    TurnBy4(x, y);
    TurnBy2(y, t);
    TurnsAdd(W(x), 4, 2);
  }

  lemma Turns7(x: bv32, y: bv32, t: bv32)
    requires y == (x >> 6) | (x << 26) && t == (x >> 7) | (x << 25)
    ensures t == (y >> 1) | (y << 31)
  {
  }

  lemma TurnBy7(x: bv32, t: bv32)
    requires t == (x >> 7) | (x << 25)
    ensures Rotr(W(x), 7) == W(t)
  {
    var y := (x >> 6) | (x << 26);
    Turns7(x, y, t);
    TurnBy6(x, y);
    TurnBy1(y, t);
    TurnsAdd(W(x), 6, 1);
  }

  lemma Turns11(x: bv32, y: bv32, t: bv32)
    requires y == (x >> 7) | (x << 25) && t == (x >> 11) | (x << 21)
    ensures t == (y >> 4) | (y << 28)
  {
  }

  lemma TurnBy11(x: bv32, t: bv32)
    requires t == (x >> 11) | (x << 21)
    ensures Rotr(W(x), 11) == W(t)
  {
    var y := (x >> 7) | (x << 25);
    Turns11(x, y, t);
    TurnBy7(x, y);
    TurnBy4(y, t);
    TurnsAdd(W(x), 7, 4);
  }

  lemma Turns13(x: bv32, y: bv32, t: bv32)
    requires y == (x >> 11) | (x << 21) && t == (x >> 13) | (x << 19)
    ensures t == (y >> 2) | (y << 30)
  {
  }

  lemma TurnBy13(x: bv32, t: bv32)
    requires t == (x >> 13) | (x << 19)
    ensures Rotr(W(x), 13) == W(t)
  {
    var y := (x >> 11) | (x << 21);
    Turns13(x, y, t);
    TurnBy11(x, y);
    TurnBy2(y, t);
    TurnsAdd(W(x), 11, 2);
  }

  lemma Turns17(x: bv32, y: bv32, t: bv32)
    requires y == (x >> 13) | (x << 19) && t == (x >> 17) | (x << 15)
    ensures t == (y >> 4) | (y << 28)
  {
  }

  lemma TurnBy17(x: bv32, t: bv32)
    requires t == (x >> 17) | (x << 15)
    ensures Rotr(W(x), 17) == W(t)
  {
    var y := (x >> 13) | (x << 19);
    Turns17(x, y, t);
    TurnBy13(x, y);
    TurnBy4(y, t);
    TurnsAdd(W(x), 13, 4);
  }

  lemma Turns18(x: bv32, y: bv32, t: bv32)
    requires y == (x >> 17) | (x << 15) && t == (x >> 18) | (x << 14)
    ensures t == (y >> 1) | (y << 31)
  {
  }

  lemma TurnBy18(x: bv32, t: bv32)
    requires t == (x >> 18) | (x << 14)
    ensures Rotr(W(x), 18) == W(t)
  {
    var y := (x >> 17) | (x << 15);
    Turns18(x, y, t);
    TurnBy17(x, y);
    TurnBy1(y, t);
    TurnsAdd(W(x), 17, 1);
  }

  lemma Turns19(x: bv32, y: bv32, t: bv32)
    requires y == (x >> 17) | (x << 15) && t == (x >> 19) | (x << 13)
    ensures t == (y >> 2) | (y << 30)
  {
  }

  lemma TurnBy19(x: bv32, t: bv32)
    requires t == (x >> 19) | (x << 13)
    ensures Rotr(W(x), 19) == W(t)
  {
    var y := (x >> 17) | (x << 15);
    Turns19(x, y, t);
    TurnBy17(x, y);
    TurnBy2(y, t);
    TurnsAdd(W(x), 17, 2);
  }

  lemma Turns22(x: bv32, y: bv32, t: bv32)
    requires y == (x >> 18) | (x << 14) && t == (x >> 22) | (x << 10)
    ensures t == (y >> 4) | (y << 28)
  {
  }

  lemma TurnBy22(x: bv32, t: bv32)
    requires t == (x >> 22) | (x << 10)
    ensures Rotr(W(x), 22) == W(t)
  {
    var y := (x >> 18) | (x << 14);
    Turns22(x, y, t);
    TurnBy18(x, y);
    TurnBy4(y, t);
    TurnsAdd(W(x), 18, 4);
  }

  lemma Turns25(x: bv32, y: bv32, t: bv32)
    requires y == (x >> 17) | (x << 15) && t == (x >> 25) | (x << 7)
    ensures t == (y >> 8) | (y << 24)
  {
  }

  lemma TurnBy25(x: bv32, t: bv32)
    requires t == (x >> 25) | (x << 7)
    ensures Rotr(W(x), 25) == W(t)
  {
    var y := (x >> 17) | (x << 15);
    Turns25(x, y, t);
    TurnBy17(x, y);
    TurnBy8(y, t);
    TurnsAdd(W(x), 17, 8);
  }

  lemma Shifts2(x: bv32, y: bv32, t: bv32)
    requires y == x >> 1 && t == x >> 2
    ensures t == y >> 1
  {
  }

  lemma ShiftBy2(x: bv32, t: bv32)
    requires t == x >> 2
    ensures Shr(W(x), 2) == W(t)
  {
    var y := x >> 1;
    Shifts2(x, y, t);
    ShiftBy1(x, y);
    ShiftBy1(y, t);
    ShiftsAdd(W(x), 1, 1);
  }

  lemma Shifts3(x: bv32, y: bv32, t: bv32)
    requires y == x >> 2 && t == x >> 3
    ensures t == y >> 1
  {
  }

  lemma ShiftBy3(x: bv32, t: bv32)
    requires t == x >> 3
    ensures Shr(W(x), 3) == W(t)
  {
    var y := x >> 2;
    Shifts3(x, y, t);
    ShiftBy2(x, y);
    ShiftBy1(y, t);
    ShiftsAdd(W(x), 2, 1);
  }

  lemma Shifts5(x: bv32, y: bv32, t: bv32)
    requires y == x >> 3 && t == x >> 5
    ensures t == y >> 2
  {
  }

  lemma ShiftBy5(x: bv32, t: bv32)
    requires t == x >> 5
    ensures Shr(W(x), 5) == W(t)
  {
    var y := x >> 3;
    Shifts5(x, y, t);
    ShiftBy3(x, y);
    ShiftBy2(y, t);
    ShiftsAdd(W(x), 3, 2);
  }

  lemma Shifts10(x: bv32, y: bv32, t: bv32)
    requires y == x >> 5 && t == x >> 10
    ensures t == y >> 5
  {
  }

  lemma ShiftBy10(x: bv32, t: bv32)
    requires t == x >> 10
    ensures Shr(W(x), 10) == W(t)
  {
    var y := x >> 5;
    Shifts10(x, y, t);
    ShiftBy5(x, y);
    ShiftBy5(y, t);
    ShiftsAdd(W(x), 5, 5);
  }

  // ----- what a machine must do

  ghost predicate XorAndWork<T(!new)>(m: Machine<T>) {
    && (forall x: T, y: T :: Xor(WordIn(m, x), WordIn(m, y)) == WordIn(m, m.xor(x, y)))
    && (forall x: T, y: T :: And(WordIn(m, x), WordIn(m, y)) == WordIn(m, m.and(x, y)))
  }

  ghost predicate WorksOnWords<T(!new)>(m: Machine<T>) {
    && XorAndWork(m)
    && (forall x: T, y: T :: Add(WordIn(m, x), WordIn(m, y)) == WordIn(m, m.add(x, y)))
    && (forall x: T, n: nat | n in TURNS :: Rotr(WordIn(m, x), n) == WordIn(m, m.turn(x, n)))
    && (forall x: T, n: nat | n in SHIFTS :: Shr(WordIn(m, x), n) == WordIn(m, m.shift(x, n)))
  }

  const TURNS: set<nat> := {2, 6, 7, 11, 13, 17, 18, 19, 22, 25}

  const SHIFTS: set<nat> := {3, 10}

  function BigSigma0In<T>(m: Machine<T>, x: T): T {
    m.xor(m.xor(m.turn(x, 2), m.turn(x, 13)), m.turn(x, 22))
  }

  lemma BigSigma0OfWord<T(!new)>(m: Machine<T>, x: T)
    requires WorksOnWords(m)
    ensures BigSigma0(WordIn(m, x)) == WordIn(m, BigSigma0In(m, x))
  {
    assert 2 in TURNS && 13 in TURNS && 22 in TURNS;
  }

  function BigSigma1In<T>(m: Machine<T>, x: T): T {
    m.xor(m.xor(m.turn(x, 6), m.turn(x, 11)), m.turn(x, 25))
  }

  lemma BigSigma1OfWord<T(!new)>(m: Machine<T>, x: T)
    requires WorksOnWords(m)
    ensures BigSigma1(WordIn(m, x)) == WordIn(m, BigSigma1In(m, x))
  {
    assert 6 in TURNS && 11 in TURNS && 25 in TURNS;
  }

  function SmallSigma0In<T>(m: Machine<T>, x: T): T {
    m.xor(m.xor(m.turn(x, 7), m.turn(x, 18)), m.shift(x, 3))
  }

  lemma SmallSigma0OfWord<T(!new)>(m: Machine<T>, x: T)
    requires WorksOnWords(m)
    ensures SmallSigma0(WordIn(m, x)) == WordIn(m, SmallSigma0In(m, x))
  {
    assert 7 in TURNS && 18 in TURNS && 3 in SHIFTS;
  }

  function SmallSigma1In<T>(m: Machine<T>, x: T): T {
    m.xor(m.xor(m.turn(x, 17), m.turn(x, 19)), m.shift(x, 10))
  }

  lemma SmallSigma1OfWord<T(!new)>(m: Machine<T>, x: T)
    requires WorksOnWords(m)
    ensures SmallSigma1(WordIn(m, x)) == WordIn(m, SmallSigma1In(m, x))
  {
    assert 17 in TURNS && 19 in TURNS && 10 in SHIFTS;
  }

  function ChIn<T>(m: Machine<T>, x: T, y: T, z: T): T {
    m.xor(m.and(x, y), m.xor(z, m.and(x, z)))
  }

  lemma ChWithoutNot(x: Word, y: Word, z: Word)
    ensures Ch(x, y, z) == Xor(And(x, y), Xor(z, And(x, z)))
  {
    forall i | 0 <= i < 32
      ensures Ch(x, y, z)[i] == Xor(And(x, y), Xor(z, And(x, z)))[i]
    {
    }
  }

  lemma ChOfWords<T(!new)>(m: Machine<T>, x: T, y: T, z: T)
    requires WorksOnWords(m)
    ensures Ch(WordIn(m, x), WordIn(m, y), WordIn(m, z)) == WordIn(m, ChIn(m, x, y, z))
  {
    ChWithoutNot(WordIn(m, x), WordIn(m, y), WordIn(m, z));
  }

  function MajIn<T>(m: Machine<T>, x: T, y: T, z: T): T {
    m.xor(m.xor(m.and(x, y), m.and(x, z)), m.and(y, z))
  }

  lemma MajOfWords<T(!new)>(m: Machine<T>, x: T, y: T, z: T)
    requires XorAndWork(m)
    ensures Maj(WordIn(m, x), WordIn(m, y), WordIn(m, z)) == WordIn(m, MajIn(m, x, y, z))
  {
  }

  // ----- steps of the schedule and rounds

  function StepIn<T>(m: Machine<T>, w2: T, w7: T, w15: T, w16: T): T {
    m.add(m.add(m.add(SmallSigma1In(m, w2), w7), SmallSigma0In(m, w15)), w16)
  }

  lemma StepOfWords<T(!new)>(m: Machine<T>, w2: T, w7: T, w15: T, w16: T)
    requires WorksOnWords(m)
    ensures ScheduleStep(MOD32, WordIn(m, w2), WordIn(m, w7), WordIn(m, w15), WordIn(m, w16))
         == WordIn(m, StepIn(m, w2, w7, w15, w16))
  {
    SmallSigma1OfWord(m, w2);
    SmallSigma0OfWord(m, w15);
  }

  function FirstSumIn<T>(m: Machine<T>, e: T, f: T, g: T, h: T, k: T, w: T): T {
    m.add(m.add(m.add(m.add(h, BigSigma1In(m, e)), ChIn(m, e, f, g)), k), w)
  }

  function SecondSumIn<T>(m: Machine<T>, a: T, b: T, c: T): T {
    m.add(BigSigma0In(m, a), MajIn(m, a, b, c))
  }

  function RegistersIn<T>(m: Machine<T>, a: T, b: T, c: T, d: T, e: T, f: T, g: T, h: T): Registers {
    Registers(WordIn(m, a), WordIn(m, b), WordIn(m, c), WordIn(m, d),
              WordIn(m, e), WordIn(m, f), WordIn(m, g), WordIn(m, h))
  }

  lemma RoundOfWords<T(!new)>(m: Machine<T>, a: T, b: T, c: T, d: T, e: T, f: T, g: T, h: T, k: T, w: T,
                              key: int, newA: T, newE: T)
    requires WorksOnWords(m) && WordOf(key) == WordIn(m, k)
    requires newA == m.add(FirstSumIn(m, e, f, g, h, k, w), SecondSumIn(m, a, b, c))
    requires newE == m.add(d, FirstSumIn(m, e, f, g, h, k, w))
    ensures Round(MOD32, RegistersIn(m, a, b, c, d, e, f, g, h), key, WordIn(m, w))
         == RegistersIn(m, newA, a, b, c, newE, e, f, g)
  {
    BigSigma1OfWord(m, e);
    ChOfWords(m, e, f, g);
    BigSigma0OfWord(m, a);
    MajOfWords(m, a, b, c);
  }

  // ----- bit vectors are such a machine

  lemma TurnIsRotation(x: bv32, n: nat, t: bv32)
    requires n in TURNS && t == BV.turn(x, n)
    ensures Rotr(W(x), n) == W(t)
  {
    match n
    case 2 => TurnBy2(x, t);
    case 6 => TurnBy6(x, t);
    case 7 => TurnBy7(x, t);
    case 11 => TurnBy11(x, t);
    case 13 => TurnBy13(x, t);
    case 17 => TurnBy17(x, t);
    case 18 => TurnBy18(x, t);
    case 19 => TurnBy19(x, t);
    case 22 => TurnBy22(x, t);
    case 25 => TurnBy25(x, t);
  }

  lemma ShiftIsShift(x: bv32, n: nat, t: bv32)
    requires n in SHIFTS && t == BV.shift(x, n)
    ensures Shr(W(x), n) == W(t)
  {
    match n
    case 3 => ShiftBy3(x, t);
    case 10 => ShiftBy10(x, t);
  }

  lemma BitVectorsXor(x: bv32, y: bv32)
    ensures Xor(WordIn(BV, x), WordIn(BV, y)) == WordIn(BV, BV.xor(x, y))
  {
    XorOfWords(x, y, BV.xor(x, y));
  }

  lemma BitVectorsAnd(x: bv32, y: bv32)
    ensures And(WordIn(BV, x), WordIn(BV, y)) == WordIn(BV, BV.and(x, y))
  {
    AndOfWords(x, y, BV.and(x, y));
  }

  lemma AddIs(x: bv32, y: bv32, s: bv32)
    requires s == x + y
    ensures BV.add(x, y) == s
  {
  }

  lemma BitVectorsAdd(x: bv32, y: bv32)
    ensures Add(WordIn(BV, x), WordIn(BV, y)) == WordIn(BV, BV.add(x, y))
  {
    var s := x + y;
    AddIs(x, y, s);
    SumOfWords(x, y, s);
  }

  lemma BitVectorsXorAnd()
    ensures XorAndWork(BV)
  {
    forall x: bv32, y: bv32 { BitVectorsXor(x, y); }
    forall x: bv32, y: bv32 { BitVectorsAnd(x, y); }
  }

  /** Every operation of the standard on words is the machine operation on bit vectors. */
  lemma BitVectorsWork()
    ensures WorksOnWords(BV)
  {
    BitVectorsXorAnd();
    forall x: bv32, y: bv32 { BitVectorsAdd(x, y); }
    forall x: bv32, n: nat | n in TURNS { TurnIsRotation(x, n, BV.turn(x, n)); }
    forall x: bv32, n: nat | n in SHIFTS { ShiftIsShift(x, n, BV.shift(x, n)); }
  }

  // ----- the operations, computed

  function Xor2(x: bv32, y: bv32): bv32 {
    x ^ y
  }

  lemma Xor2Is(x: bv32, y: bv32)
    ensures BV.xor(x, y) == Xor2(x, y)
  {
  }

  function Xor3(p: bv32, q: bv32, r: bv32): bv32 {
    Xor2(Xor2(p, q), r)
  }

  lemma Xor3Glue<T>(m: Machine<T>, p: T, q: T, r: T, d: T, z: T)
    requires m.xor(p, q) == d && m.xor(d, r) == z
    ensures m.xor(m.xor(p, q), r) == z
  {
  }

  lemma Xor3Is(p: bv32, q: bv32, r: bv32, d: bv32, z: bv32)
    requires d == Xor2(p, q) && z == Xor2(d, r)
    ensures BV.xor(BV.xor(p, q), r) == z
  {
    Xor2Is(p, q);
    Xor2Is(d, r);
    Xor3Glue(BV, p, q, r, d, z);
  }

  function BigSum0(x: bv32): bv32 {
    Xor3(Right2(x), Right13(x), Right22(x))
  }

  lemma BigSigma0Glue<T>(m: Machine<T>, x: T, p: T, q: T, r: T, z: T)
    requires m.turn(x, 2) == p && m.turn(x, 13) == q && m.turn(x, 22) == r && m.xor(m.xor(p, q), r) == z
    ensures BigSigma0In(m, x) == z
  {
  }

  lemma BigSigma0Parts(x: bv32, p: bv32, q: bv32, r: bv32, z: bv32)
    requires p == Right2(x) && q == Right13(x) && r == Right22(x) && z == Xor3(p, q, r)
    ensures BigSigma0In(BV, x) == z
  {
    Xor3Is(p, q, r, Xor2(p, q), z);
    BigSigma0Glue(BV, x, p, q, r, z);
  }

  lemma BigSigma0Is(x: bv32)
    ensures BigSigma0In(BV, x) == BigSum0(x)
  {
    var p, q, r := Right2(x), Right13(x), Right22(x);
    BigSigma0Parts(x, p, q, r, Xor3(p, q, r));
  }

  function BigSum1(x: bv32): bv32 {
    Xor3(Right6(x), Right11(x), Right25(x))
  }

  lemma BigSigma1Glue<T>(m: Machine<T>, x: T, p: T, q: T, r: T, z: T)
    requires m.turn(x, 6) == p && m.turn(x, 11) == q && m.turn(x, 25) == r && m.xor(m.xor(p, q), r) == z
    ensures BigSigma1In(m, x) == z
  {
  }

  lemma BigSigma1Parts(x: bv32, p: bv32, q: bv32, r: bv32, z: bv32)
    requires p == Right6(x) && q == Right11(x) && r == Right25(x) && z == Xor3(p, q, r)
    ensures BigSigma1In(BV, x) == z
  {
    Xor3Is(p, q, r, Xor2(p, q), z);
    BigSigma1Glue(BV, x, p, q, r, z);
  }

  lemma BigSigma1Is(x: bv32)
    ensures BigSigma1In(BV, x) == BigSum1(x)
  {
    var p, q, r := Right6(x), Right11(x), Right25(x);
    BigSigma1Parts(x, p, q, r, Xor3(p, q, r));
  }

  function SmallSum0(x: bv32): bv32 {
    Xor3(Right7(x), Right18(x), x >> 3)
  }

  lemma SmallSigma0Glue<T>(m: Machine<T>, x: T, p: T, q: T, r: T, z: T)
    requires m.turn(x, 7) == p && m.turn(x, 18) == q && m.shift(x, 3) == r && m.xor(m.xor(p, q), r) == z
    ensures SmallSigma0In(m, x) == z
  {
  }

  lemma SmallSigma0Parts(x: bv32, p: bv32, q: bv32, r: bv32, z: bv32)
    requires p == Right7(x) && q == Right18(x) && r == x >> 3 && z == Xor3(p, q, r)
    ensures SmallSigma0In(BV, x) == z
  {
    Xor3Is(p, q, r, Xor2(p, q), z);
    SmallSigma0Glue(BV, x, p, q, r, z);
  }

  lemma SmallSigma0Is(x: bv32)
    ensures SmallSigma0In(BV, x) == SmallSum0(x)
  {
    var p, q, r := Right7(x), Right18(x), x >> 3;
    SmallSigma0Parts(x, p, q, r, Xor3(p, q, r));
  }

  function SmallSum1(x: bv32): bv32 {
    Xor3(Right17(x), Right19(x), x >> 10)
  }

  lemma SmallSigma1Glue<T>(m: Machine<T>, x: T, p: T, q: T, r: T, z: T)
    requires m.turn(x, 17) == p && m.turn(x, 19) == q && m.shift(x, 10) == r && m.xor(m.xor(p, q), r) == z
    ensures SmallSigma1In(m, x) == z
  {
  }

  lemma SmallSigma1Parts(x: bv32, p: bv32, q: bv32, r: bv32, z: bv32)
    requires p == Right17(x) && q == Right19(x) && r == x >> 10 && z == Xor3(p, q, r)
    ensures SmallSigma1In(BV, x) == z
  {
    Xor3Is(p, q, r, Xor2(p, q), z);
    SmallSigma1Glue(BV, x, p, q, r, z);
  }

  lemma SmallSigma1Is(x: bv32)
    ensures SmallSigma1In(BV, x) == SmallSum1(x)
  {
    var p, q, r := Right17(x), Right19(x), x >> 10;
    SmallSigma1Parts(x, p, q, r, Xor3(p, q, r));
  }

  function Choice(x: bv32, y: bv32, z: bv32): bv32 {
    (x & y) ^ (z ^ (x & z))
  }

  lemma ChoiceIs(x: bv32, y: bv32, z: bv32, c: bv32)
    requires c == Choice(x, y, z)
    ensures ChIn(BV, x, y, z) == c
  {
  }

  function Majority(x: bv32, y: bv32, z: bv32): bv32 {
    ((x & y) ^ (x & z)) ^ (y & z)
  }

  lemma MajorityIs(x: bv32, y: bv32, z: bv32, c: bv32)
    requires c == Majority(x, y, z)
    ensures MajIn(BV, x, y, z) == c
  {
  }

  function Sum2(x: bv32, y: bv32): bv32 {
    x + y
  }

  lemma Sum2Is(x: bv32, y: bv32, s: bv32)
    requires s == Sum2(x, y)
    ensures BV.add(x, y) == s
  {
    AddIs(x, y, s);
  }

  function FirstSum(e: bv32, f: bv32, g: bv32, h: bv32, k: bv32, w: bv32): bv32 {
    Sum2(Sum2(Sum2(Sum2(h, BigSum1(e)), Choice(e, f, g)), k), w)
  }

  lemma FirstGlue<T>(m: Machine<T>, e: T, f: T, g: T, h: T, k: T, w: T, s: T, c: T, p: T, q: T, r: T, z: T)
    requires BigSigma1In(m, e) == s && ChIn(m, e, f, g) == c
    requires m.add(h, s) == p && m.add(p, c) == q && m.add(q, k) == r && m.add(r, w) == z
    ensures FirstSumIn(m, e, f, g, h, k, w) == z
  {
  }

  lemma FirstParts(e: bv32, f: bv32, g: bv32, h: bv32, k: bv32, w: bv32, s: bv32, c: bv32, p: bv32, q: bv32, r: bv32, z: bv32)
    requires s == BigSum1(e) && c == Choice(e, f, g)
    requires p == Sum2(h, s) && q == Sum2(p, c) && r == Sum2(q, k) && z == Sum2(r, w)
    ensures FirstSumIn(BV, e, f, g, h, k, w) == z
  {
    BigSigma1Is(e);
    ChoiceIs(e, f, g, c);
    Sum2Is(h, s, p);
    Sum2Is(p, c, q);
    Sum2Is(q, k, r);
    Sum2Is(r, w, z);
    FirstGlue(BV, e, f, g, h, k, w, s, c, p, q, r, z);
  }

  lemma FirstSumIs(e: bv32, f: bv32, g: bv32, h: bv32, k: bv32, w: bv32)
    ensures FirstSumIn(BV, e, f, g, h, k, w) == FirstSum(e, f, g, h, k, w)
  {
    var s, c := BigSum1(e), Choice(e, f, g);
    var p := Sum2(h, s);
    var q := Sum2(p, c);
    var r := Sum2(q, k);
    FirstParts(e, f, g, h, k, w, s, c, p, q, r, Sum2(r, w));
  }

  function SecondSum(a: bv32, b: bv32, c: bv32): bv32 {
    Sum2(BigSum0(a), Majority(a, b, c))
  }

  lemma SecondParts(a: bv32, b: bv32, c: bv32, s: bv32, j: bv32, z: bv32)
    requires s == BigSum0(a) && j == Majority(a, b, c) && z == Sum2(s, j)
    ensures SecondSumIn(BV, a, b, c) == z
  {
    BigSigma0Is(a);
    MajorityIs(a, b, c, j);
    Sum2Is(s, j, z);
    SecondGlue(BV, a, b, c, s, j, z);
  }

  lemma SecondGlue<T>(m: Machine<T>, a: T, b: T, c: T, s: T, j: T, z: T)
    requires BigSigma0In(m, a) == s && MajIn(m, a, b, c) == j && m.add(s, j) == z
    ensures SecondSumIn(m, a, b, c) == z
  {
  }

  lemma SecondSumIs(a: bv32, b: bv32, c: bv32)
    ensures SecondSumIn(BV, a, b, c) == SecondSum(a, b, c)
  {
    var s, j := BigSum0(a), Majority(a, b, c);
    SecondParts(a, b, c, s, j, Sum2(s, j));
  }

  function Step(w2: bv32, w7: bv32, w15: bv32, w16: bv32): bv32 {
    Sum2(Sum2(Sum2(SmallSum1(w2), w7), SmallSum0(w15)), w16)
  }

  lemma StepGlue<T>(m: Machine<T>, w2: T, w7: T, w15: T, w16: T, s1: T, s0: T, p: T, q: T, z: T)
    requires SmallSigma1In(m, w2) == s1 && SmallSigma0In(m, w15) == s0
    requires m.add(s1, w7) == p && m.add(p, s0) == q && m.add(q, w16) == z
    ensures StepIn(m, w2, w7, w15, w16) == z
  {
  }

  lemma StepParts(w2: bv32, w7: bv32, w15: bv32, w16: bv32, s1: bv32, s0: bv32, p: bv32, q: bv32, z: bv32)
    requires s1 == SmallSum1(w2) && s0 == SmallSum0(w15) && p == Sum2(s1, w7) && q == Sum2(p, s0) && z == Sum2(q, w16)
    ensures StepIn(BV, w2, w7, w15, w16) == z
  {
    SmallSigma1Is(w2);
    SmallSigma0Is(w15);
    Sum2Is(s1, w7, p);
    Sum2Is(p, s0, q);
    Sum2Is(q, w16, z);
    StepGlue(BV, w2, w7, w15, w16, s1, s0, p, q, z);
  }

  lemma StepIs(w2: bv32, w7: bv32, w15: bv32, w16: bv32)
    ensures StepIn(BV, w2, w7, w15, w16) == Step(w2, w7, w15, w16)
  {
    var s1, s0 := SmallSum1(w2), SmallSum0(w15);
    var p := Sum2(s1, w7);
    var q := Sum2(p, s0);
    StepParts(w2, w7, w15, w16, s1, s0, p, q, Sum2(q, w16));
  }

  // ----- the number of a bit vector

  function Nibble(x: bv32): nat {
    (if x & 8 == 8 then 8 else 0) + (if x & 4 == 4 then 4 else 0) + (if x & 2 == 2 then 2 else 0) + if x & 1 == 1 then 1 else 0
  }

  function Half(x: bv32): nat {
    0x1000 * Nibble(x >> 12) + 0x100 * Nibble(x >> 8) + 0x10 * Nibble(x >> 4) + Nibble(x)
  }

  function Number(x: bv32): nat {
    0x1_0000 * Half(x >> 16) + Half(x)
  }

  function If(b: bool, n: nat): nat {
    if b then n else 0
  }

  lemma LastBit<T>(m: Machine<T>, x: T, n: nat)
    requires n > 0
    ensures Value(BitsOf(m, x, n)) == 2 * Value(BitsOf(m, m.half(x), n - 1)) + If(m.odd(x), 1)
  {
    assert BitsOf(m, x, n)[..n - 1] == BitsOf(m, m.half(x), n - 1);
  }

  lemma LastFour<T>(m: Machine<T>, x: T, a: T, b: T, c: T, q: T, n: nat)
    requires n > 3 && a == m.half(x) && b == m.half(a) && c == m.half(b) && q == m.half(c)
    ensures Value(BitsOf(m, x, n))
         == 16 * Value(BitsOf(m, q, n - 4)) + If(m.odd(c), 8) + If(m.odd(b), 4) + If(m.odd(a), 2) + If(m.odd(x), 1)
  {
    LastBit(m, x, n);
    LastBit(m, a, n - 1);
    LastBit(m, b, n - 2);
    LastBit(m, c, n - 3);
  }

  lemma NibbleFacts(x: bv32, a: bv32, b: bv32, c: bv32, q: bv32)
    requires a == x >> 1 && b == a >> 1 && c == b >> 1 && q == x >> 4
    ensures q == c >> 1
    ensures (a & 1 == 1) == (x & 2 == 2) && (b & 1 == 1) == (x & 4 == 4) && (c & 1 == 1) == (x & 8 == 8)
  {
  }

  lemma NibbleParts(x: bv32, a: bv32, b: bv32, c: bv32)
    requires (a & 1 == 1) == (x & 2 == 2) && (b & 1 == 1) == (x & 4 == 4) && (c & 1 == 1) == (x & 8 == 8)
    ensures Nibble(x) == If(BV.odd(c), 8) + If(BV.odd(b), 4) + If(BV.odd(a), 2) + If(BV.odd(x), 1)
  {
    OddIs(x, x & 1 == 1);
    OddIs(a, x & 2 == 2);
    OddIs(b, x & 4 == 4);
    OddIs(c, x & 8 == 8);
  }

  lemma FourBits(x: bv32, q: bv32, n: nat)
    requires q == x >> 4 && n > 3
    ensures Value(BitsOf(BV, x, n)) == 16 * Value(BitsOf(BV, q, n - 4)) + Nibble(x)
  {
    var a := x >> 1;
    var b := a >> 1;
    var c := b >> 1;
    NibbleFacts(x, a, b, c, q);
    NibbleParts(x, a, b, c);
    HalfIs(x, a);
    HalfIs(a, b);
    HalfIs(b, c);
    HalfIs(c, q);
    LastFour(BV, x, a, b, c, q, n);
  }

  lemma SixteenBits(x: bv32, a: bv32, b: bv32, c: bv32, q: bv32, n: nat)
    requires a == x >> 4 && b == a >> 4 && c == b >> 4 && q == c >> 4 && n > 15
    ensures Value(BitsOf(BV, x, n))
         == 0x1_0000 * Value(BitsOf(BV, q, n - 16)) + 0x1000 * Nibble(c) + 0x100 * Nibble(b) + 0x10 * Nibble(a) + Nibble(x)
  {
    FourBits(x, a, n);
    FourBits(a, b, n - 4);
    FourBits(b, c, n - 8);
    FourBits(c, q, n - 12);
  }

  lemma NextNibbles(x: bv32, a: bv32, b: bv32)
    requires a == x >> 4 && b == x >> 8
    ensures b == a >> 4
  {
  }

  lemma ThirdNibble(x: bv32, b: bv32, c: bv32)
    requires b == x >> 8 && c == x >> 12
    ensures c == b >> 4
  {
  }

  lemma LastNibble(x: bv32, c: bv32, q: bv32)
    requires c == x >> 12 && q == x >> 16
    ensures q == c >> 4
  {
  }

  lemma HalfIsNibbles(x: bv32, a: bv32, b: bv32, c: bv32)
    requires a == x >> 4 && b == x >> 8 && c == x >> 12
    ensures Half(x) == 0x1000 * Nibble(c) + 0x100 * Nibble(b) + 0x10 * Nibble(a) + Nibble(x)
  {
  }

  lemma HalfOfBits(x: bv32, q: bv32, n: nat)
    requires q == x >> 16 && n > 15
    ensures Value(BitsOf(BV, x, n)) == 0x1_0000 * Value(BitsOf(BV, q, n - 16)) + Half(x)
  {
    var a, b, c := x >> 4, x >> 8, x >> 12;
    NextNibbles(x, a, b);
    ThirdNibble(x, b, c);
    LastNibble(x, c, q);
    HalfIsNibbles(x, a, b, c);
    SixteenBits(x, a, b, c, q, n);
  }

  lemma ValueOfBits(x: bv32)
    ensures Value(W(x)) == Number(x)
  {
    var q, z := x >> 16, x >> 16 >> 16;
    HalfOfBits(x, q, 32);
    HalfOfBits(q, z, 16);
    assert Value(BitsOf(BV, z, 0)) == 0;
  }

  lemma WordOfNumber(x: bv32, n: nat)
    requires Number(x) == n
    ensures WordOf(n) == W(x) && Value(W(x)) == n
  {
    ValueOfBits(x);
    WordOfValue(W(x));
  }
}
