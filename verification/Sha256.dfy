/**
 SHA-256 as in FIPS 180-4, sections 3.2 and 4.1.2 (words and functions), 4.2.2 (constants), 5.1.1
 (padding), 5.3.3 (initial value) and 6.2.2 (computation), and the loops that compute it without
 building the padded message.
 */
module Sha256 {
  import opened Leb128

  const TWO_32 := 0x1_0000_0000

  // ----- words of 32 bits, the most significant first

  type Bits = seq<bool>

  type Word = w: Bits | |w| == 32 witness seq(32, _ => false)

  function Value(bits: Bits): nat {
    if bits == [] then 0 else 2 * Value(bits[..|bits| - 1]) + if bits[|bits| - 1] then 1 else 0
  }

  function Power2(n: nat): (p: nat)
    ensures p > 0
  {
    if n == 0 then 1 else 2 * Power2(n - 1)
  }

  /** The last `width` binary digits of a number. */
  function Binary(n: nat, width: nat): (bits: Bits)
    ensures |bits| == width
  {
    seq(width, i requires 0 <= i < width => Digit(n, width - 1 - i))
  }

  predicate Digit(n: nat, k: nat) {
    n / Power2(k) % 2 == 1
  }

  /** A number as a word: what a conversion to 32 bits keeps of it. */
  function WordOf(n: int): Word {
    Binary(n % TWO_32, 32)
  }

  lemma {:induction false} DigitsShift(n: nat, k: nat)
    requires k > 0
    ensures n / 2 / Power2(k - 1) == n / Power2(k)
    decreases k
  {
    var p, q := Power2(k - 1), n / 2 / Power2(k - 1);
    var r := n / 2 - q * p;
    assert n / 2 == q * p + n / 2 % p;
    assert 0 <= r < p;
    assert n == q * (2 * p) + (2 * r + n % 2) by {
      assert q * (2 * p) == 2 * (q * p);
    }
    QuotientIs(n, 2 * p, q, 2 * r + n % 2);
  }

  lemma QuotientIs(x: nat, d: int, q: int, r: int)
    requires d > 0 && x == q * d + r && 0 <= r < d
    ensures x / d == q
  {
    var e := x / d;
    assert x == e * d + x % d;
    assert (e - q) * d == r - x % d by {
      assert (e - q) * d == e * d - q * d;
    }
    SmallMultiple(e - q, d);
    SmallMultiple(q - e, d);
  }

  lemma SmallMultiple(k: int, d: int)
    requires d > 0 && k * d < d
    ensures k <= 0
  {
    if k >= 1 {
      MultipleIsLarge(k, d);
    }
  }

  lemma MultipleIsLarge(k: int, d: int)
    requires d > 0 && k >= 1
    ensures k * d >= d
  {
    assert (k - 1) * d >= 0;
  }

  lemma DigitOfHalf(n: nat, k: nat)
    requires k > 0
    ensures Digit(n / 2, k - 1) == Digit(n, k)
  {
    DigitsShift(n, k);
  }

  lemma BinaryHalves(n: nat, width: nat)
    requires width > 0
    ensures Binary(n, width) == Binary(n / 2, width - 1) + [n % 2 == 1]
  {
    var whole, half := Binary(n, width), Binary(n / 2, width - 1) + [n % 2 == 1];
    forall i | 0 <= i < width
      ensures whole[i] == half[i]
    {
      if i < width - 1 {
        DigitOfHalf(n, width - 1 - i);
      } else {
        assert Power2(0) == 1;
      }
    }
  }

  lemma {:induction false} ValueOfBinary(n: nat, width: nat)
    requires n < Power2(width)
    ensures Value(Binary(n, width)) == n
    decreases width
  {
    if width == 0 {
      assert Power2(width) == 1;
    } else {
      BinaryHalves(n, width);
      ValueOfBinary(n / 2, width - 1);
      assert Binary(n, width)[..width - 1] == Binary(n / 2, width - 1);
    }
  }

  lemma {:induction false} BinaryOfValue(bits: Bits)
    ensures Value(bits) < Power2(|bits|) && Binary(Value(bits), |bits|) == bits
    decreases |bits|
  {
    if bits != [] {
      var last := |bits| - 1;
      BinaryOfValue(bits[..last]);
      BinaryHalves(Value(bits), |bits|);
      assert bits == bits[..last] + [bits[last]];
    }
  }

  lemma Power2Of32()
    ensures Power2(32) == TWO_32
  {
    assert Power2(8) == 0x100;
    assert Power2(16) == 0x1_0000;
    assert Power2(24) == 0x100_0000;
  }

  lemma ValueOfWord(n: int)
    ensures Value(WordOf(n)) == n % TWO_32
  {
    Power2Of32();
    ValueOfBinary(n % TWO_32, 32);
  }

  lemma SmallIsItself(n: nat)
    requires n < TWO_32
    ensures n % TWO_32 == n
  {
  }

  lemma WordOfValue(w: Word)
    ensures WordOf(Value(w)) == w && Value(w) < TWO_32
  {
    Power2Of32();
    BinaryOfValue(w);
    SmallIsItself(Value(w));
  }

  function And(x: Word, y: Word): Word {
    seq(32, i requires 0 <= i < 32 => x[i] && y[i])
  }

  function Or(x: Word, y: Word): Word {
    seq(32, i requires 0 <= i < 32 => x[i] || y[i])
  }

  function Xor(x: Word, y: Word): Word {
    seq(32, i requires 0 <= i < 32 => x[i] != y[i])
  }

  function Not(x: Word): Word {
    seq(32, i requires 0 <= i < 32 => !x[i])
  }

  function Shr(x: Word, n: nat): Word
    requires n <= 32
  {
    seq(n, _ => false) + x[..32 - n]
  }

  function Shl(x: Word, n: nat): Word
    requires n <= 32
  {
    x[n..] + seq(n, _ => false)
  }

  function Rotr(x: Word, n: nat): Word
    requires n <= 32
  {
    x[32 - n..] + x[..32 - n]
  }

  /** Addition modulo 2^32. */
  function Add(x: Word, y: Word): Word {
    WordOf(Value(x) + Value(y))
  }

  /** The number a bitwise operation of JavaScript returns: the word as a signed 32-bit integer. */
  function Signed(w: Word): int {
    if Value(w) < 0x8000_0000 then Value(w) else Value(w) - TWO_32
  }

  /** The arithmetic of words; MOD32 is that of the standard, and the only one the digest uses. */
  datatype Arithmetic = Arithmetic(wordOf: int -> Word, value: Word -> int, signed: Word -> int, add: (Word, Word) -> Word)

  const MOD32 := Arithmetic(n => WordOf(n), (w: Word) => Value(w), (w: Word) => Signed(w), (x: Word, y: Word) => Add(x, y))

  predicate AddsWords(m: Arithmetic, x: Word, y: Word) {
    m.add(x, y) == m.wordOf(m.value(x) + m.value(y))
  }

  /** Adding a word, signed or not, to a number and converting once is addition of words. */
  predicate AddsToNumber(m: Arithmetic, n: int, w: Word) {
    m.add(m.wordOf(n), w) == m.wordOf(n + m.value(w)) == m.wordOf(n + m.signed(w))
  }

  predicate AddsNumbers(m: Arithmetic, n: int, k: int) {
    m.add(m.wordOf(n), m.wordOf(k)) == m.wordOf(n + k)
  }

  predicate Restores(m: Arithmetic, w: Word) {
    m.wordOf(m.value(w)) == w
  }

  ghost predicate Modular(m: Arithmetic) {
    && (forall x: Word, y: Word :: AddsWords(m, x, y))
    && (forall n, w: Word :: AddsToNumber(m, n, w))
    && (forall n, k :: AddsNumbers(m, n, k))
    && forall w: Word :: Restores(m, w)
  }

  // ----- the standard's functions and constants

  function Ch(x: Word, y: Word, z: Word): Word {
    Xor(And(x, y), And(Not(x), z))
  }

  function Maj(x: Word, y: Word, z: Word): Word {
    Xor(Xor(And(x, y), And(x, z)), And(y, z))
  }

  function BigSigma0(x: Word): Word {
    Xor(Xor(Rotr(x, 2), Rotr(x, 13)), Rotr(x, 22))
  }

  function BigSigma1(x: Word): Word {
    Xor(Xor(Rotr(x, 6), Rotr(x, 11)), Rotr(x, 25))
  }

  function SmallSigma0(x: Word): Word {
    Xor(Xor(Rotr(x, 7), Rotr(x, 18)), Shr(x, 3))
  }

  function SmallSigma1(x: Word): Word {
    Xor(Xor(Rotr(x, 17), Rotr(x, 19)), Shr(x, 10))
  }

  const SHA256_K: seq<nat> :=
    [0x428a2f98, 0x71374491, 0xb5c0fbcf, 0xe9b5dba5, 0x3956c25b, 0x59f111f1, 0x923f82a4, 0xab1c5ed5] +
    [0xd807aa98, 0x12835b01, 0x243185be, 0x550c7dc3, 0x72be5d74, 0x80deb1fe, 0x9bdc06a7, 0xc19bf174] +
    [0xe49b69c1, 0xefbe4786, 0x0fc19dc6, 0x240ca1cc, 0x2de92c6f, 0x4a7484aa, 0x5cb0a9dc, 0x76f988da] +
    [0x983e5152, 0xa831c66d, 0xb00327c8, 0xbf597fc7, 0xc6e00bf3, 0xd5a79147, 0x06ca6351, 0x14292967] +
    [0x27b70a85, 0x2e1b2138, 0x4d2c6dfc, 0x53380d13, 0x650a7354, 0x766a0abb, 0x81c2c92e, 0x92722c85] +
    [0xa2bfe8a1, 0xa81a664b, 0xc24b8b70, 0xc76c51a3, 0xd192e819, 0xd6990624, 0xf40e3585, 0x106aa070] +
    [0x19a4c116, 0x1e376c08, 0x2748774c, 0x34b0bcb5, 0x391c0cb3, 0x4ed8aa4a, 0x5b9cca4f, 0x682e6ff3] +
    [0x748f82ee, 0x78a5636f, 0x84c87814, 0x8cc70208, 0x90befffa, 0xa4506ceb, 0xbef9a3f7, 0xc67178f2]

  function K(t: nat): int {
    if t < |SHA256_K| then SHA256_K[t] else 0
  }

  /** The eight working variables, also used for the hash value. */
  datatype Registers = Registers(a: Word, b: Word, c: Word, d: Word, e: Word, f: Word, g: Word, h: Word)

  function Initial(m: Arithmetic): Registers {
    Registers(m.wordOf(0x6a09e667), m.wordOf(0xbb67ae85), m.wordOf(0x3c6ef372), m.wordOf(0xa54ff53a),
              m.wordOf(0x510e527f), m.wordOf(0x9b05688c), m.wordOf(0x1f83d9ab), m.wordOf(0x5be0cd19))
  }

  // ----- padding and blocks

  function Power256(i: nat): nat {
    if i == 0 then 1 else 256 * Power256(i - 1)
  }

  lemma Power256Positive(i: nat)
    ensures Power256(i) > 0
  {
  }

  lemma Power256Values()
    ensures Power256(0) == 1 && Power256(1) == 0x100 && Power256(2) == 0x1_0000 && Power256(3) == 0x100_0000
    ensures Power256(4) == 0x1_0000_0000 && Power256(5) == 0x100_0000_0000
    ensures Power256(6) == 0x1_0000_0000_0000 && Power256(7) == 0x100_0000_0000_0000
  {
  }

  /** Section 5.1.1: the least number of zero bytes that makes the length 56 modulo 64 before the length field. */
  function ZeroCount(n: nat): (k: nat)
    ensures (n + 1 + k) % 64 == 56 && k < 64
  {
    (119 - n % 64) % 64
  }

  /** Byte i of the 64-bit big-endian bit length. */
  function LengthByte(bitLength: nat, i: nat): Byte
    requires i < 8
  {
    Power256Positive(7 - i);
    bitLength / Power256(7 - i) % 256
  }

  function Pad(message: Bytes): Bytes {
    message + [0x80] + seq(ZeroCount(|message|), _ => 0) + seq(8, i requires 0 <= i < 8 => LengthByte(8 * |message|, i))
  }

  /** A big-endian number. */
  function BigEndian(bytes: Bytes): (w: nat)
    ensures w < Power256(|bytes|)
  {
    if bytes == [] then 0 else 256 * BigEndian(bytes[..|bytes| - 1]) + bytes[|bytes| - 1]
  }

  /** Word j of a 64-byte block. */
  function BlockWord(m: Arithmetic, block: Bytes, j: nat): Word
    requires |block| == 64 && j < 16
  {
    m.wordOf(BigEndian(block[4 * j..4 * j + 4]))
  }

  // ----- the computation of section 6.2.2

  function ScheduleStep(m: Arithmetic, w2: Word, w7: Word, w15: Word, w16: Word): Word {
    m.add(m.add(m.add(SmallSigma1(w2), w7), SmallSigma0(w15)), w16)
  }

  /** The first n words of the message schedule. */
  function Schedule(m: Arithmetic, block: Bytes, n: nat): (w: seq<Word>)
    requires |block| == 64
    ensures |w| == n
    decreases |block|, n
  {
    if n == 0 then []
    else
      var w := Schedule(m, block, n - 1);
      var t := n - 1;
      w + [if t < 16 then BlockWord(m, block, t) else ScheduleStep(m, w[t - 2], w[t - 7], w[t - 15], w[t - 16])]
  }

  function Round(m: Arithmetic, r: Registers, k: int, w: Word): Registers {
    var t1 := m.add(m.add(m.add(m.add(r.h, BigSigma1(r.e)), Ch(r.e, r.f, r.g)), m.wordOf(k)), w);
    var t2 := m.add(BigSigma0(r.a), Maj(r.a, r.b, r.c));
    Registers(m.add(t1, t2), r.a, r.b, r.c, m.add(r.d, t1), r.e, r.f, r.g)
  }

  function Rounds(m: Arithmetic, r: Registers, w: seq<Word>, t: nat): Registers
    requires t <= |w|
    decreases |w|, t
  {
    if t == 0 then r else Round(m, Rounds(m, r, w, t - 1), K(t - 1), w[t - 1])
  }

  function AddRegisters(m: Arithmetic, r: Registers, s: Registers): Registers {
    Registers(m.add(r.a, s.a), m.add(r.b, s.b), m.add(r.c, s.c), m.add(r.d, s.d),
              m.add(r.e, s.e), m.add(r.f, s.f), m.add(r.g, s.g), m.add(r.h, s.h))
  }

  function Compress(m: Arithmetic, h: Registers, block: Bytes): Registers
    requires |block| == 64
  {
    AddRegisters(m, h, Rounds(m, h, Schedule(m, block, |block|), |block|))
  }

  /** The hash value after the first n blocks. */
  function HashBlocks(m: Arithmetic, padded: Bytes, n: nat): Registers
    requires 64 * n <= |padded|
  {
    if n == 0 then Initial(m) else Compress(m, HashBlocks(m, padded, n - 1), padded[64 * (n - 1)..64 * n])
  }

  function WordBytes(v: int): Bytes {
    [v / 0x100_0000 % 256, v / 0x1_0000 % 256, v / 0x100 % 256, v % 256]
  }

  function Digest(m: Arithmetic, h: Registers): Bytes {
    WordBytes(m.value(h.a)) + WordBytes(m.value(h.b)) + WordBytes(m.value(h.c)) + WordBytes(m.value(h.d))
    + WordBytes(m.value(h.e)) + WordBytes(m.value(h.f)) + WordBytes(m.value(h.g)) + WordBytes(m.value(h.h))
  }

  function DigestWith(m: Arithmetic, message: Bytes): Bytes {
    var padded := Pad(message);
    Digest(m, HashBlocks(m, padded, |padded| / 64))
  }

  function SHA256(message: Bytes): Bytes {
    DigestWith(MOD32, message)
  }

  // ----- padding on the fly

  /** The padded length: room for the message, the marker and the length field, in whole blocks. */
  function PaddedLength(n: nat): nat {
    (n + 9 + 63) / 64 * 64
  }

  lemma PaddedLengthIsPadLength(message: Bytes)
    ensures |Pad(message)| == PaddedLength(|message|) && PaddedLength(|message|) % 64 == 0
    ensures |message| < PaddedLength(|message|) - 8
  {
    var n := |message|;
    var q, r := n / 64, n % 64;
    assert n == 64 * q + r;
    assert r <= 55 ==> ZeroCount(n) == 55 - r;
    assert r > 55 ==> ZeroCount(n) == 119 - r;
  }

  /** The byte at an offset of the padded message, computed from the offset alone. */
  function PaddedByte(message: Bytes, offset: nat): Byte
    requires offset < PaddedLength(|message|)
  {
    var n, padded := |message|, PaddedLength(|message|);
    if offset + 8 >= padded then
      var lengthOffset := offset + 8 - padded;
      var word := if lengthOffset < 4 then 8 * n / 0x1_0000_0000 else 8 * n % 0x1_0000_0000;
      Power256Positive(3 - lengthOffset % 4);
      word / Power256(3 - lengthOffset % 4) % 256
    else if offset < n then message[offset]
    else if offset == n then 0x80
    else 0
  }

  lemma HighLengthBytes(x: nat)
    ensures x / 0x1_0000_0000 / 0x100_0000 == x / 0x100_0000_0000_0000
    ensures x / 0x1_0000_0000 / 0x1_0000 == x / 0x1_0000_0000_0000
    ensures x / 0x1_0000_0000 / 0x100 == x / 0x100_0000_0000
  {
  }

  /** The bytes of a number below 2^32 are those of any number it is the remainder of. */
  lemma LowLengthBytes(x: nat, high: nat, low: nat)
    requires low < 0x1_0000_0000 && x == 0x1_0000_0000 * high + low
    ensures low / 0x100_0000 % 256 == x / 0x100_0000 % 256
    ensures low / 0x1_0000 % 256 == x / 0x1_0000 % 256
    ensures low / 0x100 % 256 == x / 0x100 % 256
    ensures low % 256 == x % 256
  {
    LowBytes(high, low);
    SameLastByte(high, low / 0x100_0000);
    SameLastByte(0x100 * high, low / 0x1_0000);
    SameLastByte(0x1_0000 * high, low / 0x100);
    SameLastByte(0x100_0000 * high, low);
  }

  lemma SameLastByte(k: nat, n: nat)
    ensures (0x100 * k + n) % 256 == n % 256
  {
  }

  lemma LowBytes(high: nat, low: nat)
    requires low < 0x1_0000_0000
    ensures var x := 0x1_0000_0000 * high + low;
      && x / 0x100_0000 == 0x100 * high + low / 0x100_0000 && x / 0x1_0000 == 0x1_0000 * high + low / 0x1_0000
      && x / 0x100 == 0x100_0000 * high + low / 0x100
  {
  }

  lemma HighFieldByte(bitLength: nat, i: nat)
    requires i < 4
    ensures Power256(3 - i) > 0 && bitLength / 0x1_0000_0000 / Power256(3 - i) % 256 == LengthByte(bitLength, i)
  {
    Power256Values();
    HighLengthBytes(bitLength);
    assert i == 0 || i == 1 || i == 2 || i == 3;
  }

  lemma LowFieldByte(bitLength: nat, i: nat)
    requires 4 <= i < 8
    ensures Power256(7 - i) > 0 && bitLength % 0x1_0000_0000 / Power256(7 - i) % 256 == LengthByte(bitLength, i)
  {
    Power256Values();
    LowLengthBytes(bitLength, bitLength / 0x1_0000_0000, bitLength % 0x1_0000_0000);
    assert i == 4 || i == 5 || i == 6 || i == 7;
  }

  lemma LengthFieldByte(bitLength: nat, i: nat)
    requires i < 8
    ensures var word := if i < 4 then bitLength / 0x1_0000_0000 else bitLength % 0x1_0000_0000;
      Power256(3 - i % 4) > 0 && word / Power256(3 - i % 4) % 256 == LengthByte(bitLength, i)
  {
    if i < 4 {
      HighFieldByte(bitLength, i);
    } else {
      assert 3 - i % 4 == 7 - i;
      LowFieldByte(bitLength, i);
    }
  }

  /** The bytes computed by offset are the padded message: data, marker, zeros and length field never overlap. */
  lemma PaddingOnTheFly(message: Bytes, offset: nat)
    requires offset < PaddedLength(|message|)
    ensures offset < |Pad(message)| && Pad(message)[offset] == PaddedByte(message, offset)
  {
    PaddedLengthIsPadLength(message);
    var n, padded := |message|, PaddedLength(|message|);
    if offset + 8 >= padded {
      LengthFieldByte(8 * n, offset + 8 - padded);
    }
  }

  // ----- arithmetic on numbers, converted to words at the end

  /** The fallback's rotation: two shifts and an or. */
  function RotateRight(x: Word, n: nat): Word
    requires n <= 32
  {
    Or(Shr(x, n), Shl(x, 32 - n))
  }

  lemma RotationByShifts(x: Word, n: nat)
    requires n <= 32
    ensures RotateRight(x, n) == Rotr(x, n)
  {
  }

  lemma ModularSum(a: int, b: int)
    ensures (a % TWO_32 + b) % TWO_32 == (a + b) % TWO_32
    ensures b == -TWO_32 ==> (a + b) % TWO_32 == a % TWO_32
  {
  }

  lemma AddToNumber(n: int, w: Word)
    ensures Add(WordOf(n), w) == WordOf(n + Value(w)) == WordOf(n + Signed(w))
  {
    ValueOfWord(n);
    ModularSum(n, Value(w));
    ModularSum(n + Value(w), -TWO_32);
  }

  lemma AddNumbers(m: int, n: int)
    ensures Add(WordOf(m), WordOf(n)) == WordOf(m + n)
  {
    ValueOfWord(m);
    ValueOfWord(n);
    ModularSum(m, n % TWO_32);
    ModularSum(n, m);
  }

  /** The words of the standard obey the laws the loops rely on. */
  lemma Mod32IsModular()
    ensures Modular(MOD32)
  {
    forall n, w: Word
      ensures AddsToNumber(MOD32, n, w)
    {
      AddToNumber(n, w);
    }
    forall n, k
      ensures AddsNumbers(MOD32, n, k)
    {
      AddNumbers(n, k);
    }
    forall w: Word
      ensures Restores(MOD32, w)
    {
      WordOfValue(w);
    }
    assert forall x: Word, y: Word :: AddsWords(MOD32, x, y);
  }

  // ----- the loops

  /** The four bytes of a word, each computed from its offset. */
  method BlockWordAt(m: Arithmetic, message: Bytes, blockOffset: nat, index: nat, ghost block: Bytes) returns (word: Word)
    requires index < 16 && blockOffset + 64 <= PaddedLength(|message|) == |Pad(message)|
    requires block == Pad(message)[blockOffset..blockOffset + 64]
    ensures |block| == 64 && word == BlockWord(m, block, index)
  {
    var number: nat := 0;
    for byteIndex := 0 to 4
      invariant number == BigEndian(block[4 * index..4 * index + byteIndex])
    {
      var offset := blockOffset + index * 4 + byteIndex;
      PaddingOnTheFly(message, offset);
      ghost var more := block[4 * index..4 * index + byteIndex + 1];
      assert more[..byteIndex] == block[4 * index..4 * index + byteIndex];
      number := 256 * number + PaddedByte(message, offset);
    }
    word := m.wordOf(number);
  }

  /** The sum the fallback makes of four numbers is the standard's sum of four words, in another order. */
  lemma SumOfFour(m: Arithmetic, w16: Word, sigma0: Word, w7: Word, sigma1: Word)
    requires Modular(m)
    ensures m.wordOf(m.value(w16) + m.signed(sigma0) + m.value(w7) + m.signed(sigma1)) == m.add(m.add(m.add(sigma1, w7), sigma0), w16)
  {
    var n := m.value(sigma1) + m.value(w7);
    assert AddsWords(m, sigma1, w7);
    assert AddsToNumber(m, n, sigma0);
    assert AddsToNumber(m, n + m.signed(sigma0), w16);
    assert AddsToNumber(m, m.value(w7) + m.signed(sigma0) + m.value(w16), sigma1);
  }

  lemma SumOfFive(m: Arithmetic, h: Word, sum1: Word, choice: Word, k: int, w: Word)
    requires Modular(m)
    ensures m.wordOf(m.value(h) + m.signed(sum1) + m.signed(choice) + k + m.value(w))
         == m.add(m.add(m.add(m.add(h, sum1), choice), m.wordOf(k)), w)
  {
    var n := m.value(h) + m.signed(sum1) + m.signed(choice);
    assert Restores(m, h);
    assert AddsToNumber(m, m.value(h), sum1);
    assert AddsToNumber(m, m.value(h) + m.signed(sum1), choice);
    assert AddsNumbers(m, n, k);
    assert AddsToNumber(m, n + k, w);
  }

  lemma SumOfTwo(m: Arithmetic, x: Word, y: Word)
    requires Modular(m)
    ensures m.wordOf(m.signed(x) + m.signed(y)) == m.add(x, y) == m.wordOf(m.value(x) + m.value(y))
  {
    assert AddsWords(m, x, y);
    assert AddsToNumber(m, m.value(x), y);
    assert AddsToNumber(m, m.signed(y), x);
  }

  method SmallSum0(w: Word) returns (s: Word)
    ensures s == SmallSigma0(w)
  {
    RotationByShifts(w, 7);
    RotationByShifts(w, 18);
    s := Xor(Xor(RotateRight(w, 7), RotateRight(w, 18)), Shr(w, 3));
  }

  method SmallSum1(w: Word) returns (s: Word)
    ensures s == SmallSigma1(w)
  {
    RotationByShifts(w, 17);
    RotationByShifts(w, 19);
    s := Xor(Xor(RotateRight(w, 17), RotateRight(w, 19)), Shr(w, 10));
  }

  method BigSum0(w: Word) returns (s: Word)
    ensures s == BigSigma0(w)
  {
    RotationByShifts(w, 2);
    RotationByShifts(w, 13);
    RotationByShifts(w, 22);
    s := Xor(Xor(RotateRight(w, 2), RotateRight(w, 13)), RotateRight(w, 22));
  }

  method BigSum1(w: Word) returns (s: Word)
    ensures s == BigSigma1(w)
  {
    RotationByShifts(w, 6);
    RotationByShifts(w, 11);
    RotationByShifts(w, 25);
    s := Xor(Xor(RotateRight(w, 6), RotateRight(w, 11)), RotateRight(w, 25));
  }

  method NextWord(m: Arithmetic, w2: Word, w7: Word, w15: Word, w16: Word) returns (word: Word)
    requires Modular(m)
    ensures word == ScheduleStep(m, w2, w7, w15, w16)
  {
    var sigma0 := SmallSum0(w15);
    var sigma1 := SmallSum1(w2);
    SumOfFour(m, w16, sigma0, w7, sigma1);
    word := m.wordOf(m.value(w16) + m.signed(sigma0) + m.value(w7) + m.signed(sigma1));
  }

  method FirstWords(m: Arithmetic, message: Bytes, blockOffset: nat, words: array<Word>, ghost block: Bytes)
    requires blockOffset + 64 <= PaddedLength(|message|) == |Pad(message)| && words.Length == 64
    requires block == Pad(message)[blockOffset..blockOffset + 64]
    modifies words
    ensures |block| == 64 && words[..16] == Schedule(m, block, 16)
  {
    for index := 0 to 16
      invariant words[..index] == Schedule(m, block, index)
    {
      var word := BlockWordAt(m, message, blockOffset, index, block);
      words[index] := word;
      assert words[..index + 1] == words[..index] + [word];
    }
  }

  method ExtendWords(m: Arithmetic, words: array<Word>, ghost block: Bytes)
    requires Modular(m) && words.Length == |block| == 64 && words[..16] == Schedule(m, block, 16)
    modifies words
    ensures words[..] == Schedule(m, block, |block|)
  {
    for index := 16 to words.Length
      invariant words[..index] == Schedule(m, block, index)
    {
      ghost var w := words[..index];
      assert w[index - 2] == words[index - 2] && w[index - 7] == words[index - 7];
      assert w[index - 15] == words[index - 15] && w[index - 16] == words[index - 16];
      var word := NextWord(m, words[index - 2], words[index - 7], words[index - 15], words[index - 16]);
      words[index] := word;
      assert words[..index + 1] == w + [word];
    }
    assert words[..words.Length] == words[..];
  }

  method OneRound(m: Arithmetic, r: Registers, k: int, w: Word) returns (next: Registers)
    requires Modular(m)
    ensures next == Round(m, r, k, w)
  {
    var a, b, c, d, e, f, g, h := r.a, r.b, r.c, r.d, r.e, r.f, r.g, r.h;
    var sum1 := BigSum1(e);
    var choice := Xor(And(e, f), And(Not(e), g));
    SumOfFive(m, h, sum1, choice, k, w);
    var temp1 := m.wordOf(m.value(h) + m.signed(sum1) + m.signed(choice) + k + m.value(w));
    var sum0 := BigSum0(a);
    var majority := Xor(Xor(And(a, b), And(a, c)), And(b, c));
    SumOfTwo(m, sum0, majority);
    var temp2 := m.wordOf(m.signed(sum0) + m.signed(majority));
    SumOfTwo(m, d, temp1);
    SumOfTwo(m, temp1, temp2);
    h := g;
    g := f;
    f := e;
    e := m.wordOf(m.value(d) + m.value(temp1));
    d := c;
    c := b;
    b := a;
    a := m.wordOf(m.value(temp1) + m.value(temp2));
    next := Registers(a, b, c, d, e, f, g, h);
  }

  method CompressWords(m: Arithmetic, hash: Registers, words: array<Word>) returns (next: Registers)
    requires Modular(m) && words.Length == 64
    ensures next == AddRegisters(m, hash, Rounds(m, hash, words[..], words.Length))
  {
    var r := hash;
    ghost var w := words[..];
    for index := 0 to words.Length
      invariant r == Rounds(m, hash, w, index)
    {
      assert w[index] == words[index];
      r := OneRound(m, r, K(index), words[index]);
    }
    next := AddRegisters(m, hash, r);
  }

  lemma NextBlock(m: Arithmetic, padded: Bytes, n: nat, block: Bytes, h: Registers)
    requires 64 * n + 64 <= |padded| && block == padded[64 * n..64 * n + 64] && h == HashBlocks(m, padded, n)
    ensures HashBlocks(m, padded, n + 1) == AddRegisters(m, h, Rounds(m, h, Schedule(m, block, |block|), |block|))
  {
  }

  /** One turn of the outer loop. */
  method HashBlock(m: Arithmetic, message: Bytes, blockOffset: nat, words: array<Word>, hash: Registers, ghost padded: Bytes, ghost n: nat)
    returns (next: Registers)
    requires Modular(m) && words.Length == 64 && padded == Pad(message) && |padded| == PaddedLength(|message|)
    requires blockOffset == 64 * n && 64 * n + 64 <= |padded| && hash == HashBlocks(m, padded, n)
    modifies words
    ensures next == HashBlocks(m, padded, n + 1)
  {
    ghost var block := padded[blockOffset..blockOffset + 64];
    FirstWords(m, message, blockOffset, words, block);
    ExtendWords(m, words, block);
    next := CompressWords(m, hash, words);
    NextBlock(m, padded, n, block, hash);
  }

  lemma NoBlocks(m: Arithmetic, padded: Bytes)
    ensures HashBlocks(m, padded, 0) == Initial(m)
  {
  }

  method HashAllBlocks(m: Arithmetic, message: Bytes, paddedBytes: nat, words: array<Word>, start: Registers,
                       ghost padded: Bytes, ghost blocks: nat)
    returns (hash: Registers)
    requires Modular(m) && padded == Pad(message) && |padded| == paddedBytes == PaddedLength(|message|) == 64 * blocks
    requires words.Length == 64 && start == HashBlocks(m, padded, 0)
    modifies words
    ensures hash == HashBlocks(m, padded, blocks)
  {
    ghost var n := 0;
    hash := start;
    var blockOffset := 0;
    while blockOffset < paddedBytes
      invariant blockOffset == 64 * n && n <= blocks
      invariant hash == HashBlocks(m, padded, n)
    {
      assert n < blocks;
      assert 64 * n + 64 <= |padded|;
      hash := HashBlock(m, message, blockOffset, words, hash, padded, n);
      blockOffset, n := blockOffset + 64, n + 1;
    }
    assert n == blocks;
  }

  method HashMessage(m: Arithmetic, message: Bytes) returns (digest: Bytes)
    requires Modular(m)
    ensures digest == DigestWith(m, message)
  {
    PaddedLengthIsPadLength(message);
    ghost var padded := Pad(message);
    NoBlocks(m, padded);
    var words := new Word[64](_ => seq(32, _ => false));
    var hash := HashAllBlocks(m, message, PaddedLength(|message|), words, Initial(m), padded, |padded| / 64);
    digest := Digest(m, hash);
  }

  /** The digest of the standard, for every message whose bit length is an exact number. */
  method Sha256Fallback(message: Bytes) returns (digest: Bytes)
    requires 8 * |message| <= MAX_SAFE_INTEGER
    ensures digest == SHA256(message)
  {
    Mod32IsModular();
    digest := HashMessage(MOD32, message);
  }
}
