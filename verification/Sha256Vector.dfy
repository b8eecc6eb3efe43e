/**
 SHA-256 of one message of two blocks, computed: the example with which NIST illustrates FIPS 180-4. It pins
 what the laws of Sha256 leave to the definitions: the constants, the order of the registers, and the chain of
 blocks.
 */
module Sha256Vector {
  import opened Leb128
  import opened Sha256
  import opened Sha256Words

  // ----- four steps at a time

  /** The word of a bit vector, bit for bit. */
  function V(x: bv32): Word {
    seq(32, i requires 0 <= i < 32 => W(x)[i])
  }

  lemma SameWord(x: bv32)
    ensures V(x) == WordIn(BV, x)
  {
    var v, w := V(x), W(x);
    forall i | 0 <= i < 32
      ensures v[i] == w[i]
    {
    }
  }

  function ScheduleWord(block: Bytes, t: nat): Word
    requires |block| == 64
  {
    Schedule(MOD32, block, t + 1)[t]
  }

  lemma {:induction false} LaterSchedule(block: Bytes, t: nat, n: nat)
    requires |block| == 64 && t < n
    ensures Schedule(MOD32, block, n)[t] == ScheduleWord(block, t)
    decreases n
  {
    if t < n - 1 {
      LaterSchedule(block, t, n - 1);
    }
  }

  predicate FourWords(block: Bytes, t: nat, w0: bv32, w1: bv32, w2: bv32, w3: bv32)
    requires |block| == 64
  {
    && ScheduleWord(block, t) == V(w0) && ScheduleWord(block, t + 1) == V(w1)
    && ScheduleWord(block, t + 2) == V(w2) && ScheduleWord(block, t + 3) == V(w3)
  }

  lemma ScheduleWordIs(block: Bytes, t: nat)
    requires |block| == 64 && t >= 16
    ensures ScheduleWord(block, t)
         == ScheduleStep(MOD32, ScheduleWord(block, t - 2), ScheduleWord(block, t - 7),
                         ScheduleWord(block, t - 15), ScheduleWord(block, t - 16))
  {
    LaterSchedule(block, t - 2, t);
    LaterSchedule(block, t - 7, t);
    LaterSchedule(block, t - 15, t);
    LaterSchedule(block, t - 16, t);
  }

  lemma StepOfVectors(w2: bv32, w7: bv32, w15: bv32, w16: bv32, next: bv32)
    requires next == Step(w2, w7, w15, w16)
    ensures ScheduleStep(MOD32, V(w2), V(w7), V(w15), V(w16)) == V(next)
  {
    SameWord(w2);
    SameWord(w7);
    SameWord(w15);
    SameWord(w16);
    SameWord(next);
    BitVectorsWork();
    StepIs(w2, w7, w15, w16);
    StepOfWords(BV, w2, w7, w15, w16);
  }

  lemma NextWord(block: Bytes, t: nat, w2: bv32, w7: bv32, w15: bv32, w16: bv32, next: bv32)
    requires |block| == 64 && t >= 16
    requires ScheduleWord(block, t - 2) == V(w2) && ScheduleWord(block, t - 7) == V(w7)
    requires ScheduleWord(block, t - 15) == V(w15) && ScheduleWord(block, t - 16) == V(w16)
    requires next == Step(w2, w7, w15, w16)
    ensures ScheduleWord(block, t) == V(next)
  {
    ScheduleWordIs(block, t);
    StepOfVectors(w2, w7, w15, w16, next);
  }

  lemma NextFourWords(block: Bytes, t: nat, w0: bv32, w1: bv32, w2: bv32, w3: bv32, w4: bv32, w5: bv32, w6: bv32, w7: bv32,
                      w8: bv32, w9: bv32, w10: bv32, w11: bv32, w12: bv32, w13: bv32, w14: bv32, w15: bv32,
                      n0: bv32, n1: bv32, n2: bv32, n3: bv32)
    requires |block| == 64 && t >= 16
    requires FourWords(block, t - 16, w0, w1, w2, w3) && FourWords(block, t - 12, w4, w5, w6, w7)
    requires FourWords(block, t - 8, w8, w9, w10, w11) && FourWords(block, t - 4, w12, w13, w14, w15)
    requires n0 == Step(w14, w9, w1, w0) && n1 == Step(w15, w10, w2, w1)
    requires n2 == Step(n0, w11, w3, w2) && n3 == Step(n1, w12, w4, w3)
    ensures FourWords(block, t, n0, n1, n2, n3)
  {
    NextWord(block, t, w14, w9, w1, w0, n0);
    NextWord(block, t + 1, w15, w10, w2, w1, n1);
    NextWord(block, t + 2, n0, w11, w3, w2, n2);
    NextWord(block, t + 3, n1, w12, w4, w3, n3);
  }

  function Vectors(a: bv32, b: bv32, c: bv32, d: bv32, e: bv32, f: bv32, g: bv32, h: bv32): Registers {
    Registers(V(a), V(b), V(c), V(d), V(e), V(f), V(g), V(h))
  }

  lemma SameRegisters(a: bv32, b: bv32, c: bv32, d: bv32, e: bv32, f: bv32, g: bv32, h: bv32)
    ensures Vectors(a, b, c, d, e, f, g, h) == RegistersIn(BV, a, b, c, d, e, f, g, h)
  {
    SameWord(a);
    SameWord(b);
    SameWord(c);
    SameWord(d);
    SameWord(e);
    SameWord(f);
    SameWord(g);
    SameWord(h);
  }

  /** The registers after t rounds. */
  predicate Reaches(block: Bytes, start: Registers, t: nat, a: bv32, b: bv32, c: bv32, d: bv32,
                    e: bv32, f: bv32, g: bv32, h: bv32)
    requires |block| == 64 && t <= 64
  {
    Rounds(MOD32, start, Schedule(MOD32, block, |block|), t) == Vectors(a, b, c, d, e, f, g, h)
  }

  predicate IsRound(a: bv32, b: bv32, c: bv32, d: bv32, e: bv32, f: bv32, g: bv32, h: bv32, k: bv32, w: bv32,
                    newA: bv32, newE: bv32)
  {
    newA == Sum2(FirstSum(e, f, g, h, k, w), SecondSum(a, b, c)) && newE == Sum2(d, FirstSum(e, f, g, h, k, w))
  }

  predicate FourKeys(t: nat, k0: bv32, k1: bv32, k2: bv32, k3: bv32) {
    KeyWord(t) == V(k0) && KeyWord(t + 1) == V(k1) && KeyWord(t + 2) == V(k2) && KeyWord(t + 3) == V(k3)
  }

  /** The word of a constant, bit for bit. */
  function KeyWord(t: nat): Word {
    seq(32, i requires 0 <= i < 32 => WordOf(K(t))[i])
  }

  lemma SameKey(t: nat)
    ensures KeyWord(t) == WordOf(K(t))
  {
    var v, w := KeyWord(t), WordOf(K(t));
    forall i | 0 <= i < 32
      ensures v[i] == w[i]
    {
    }
  }

  lemma KeyIs(t: nat, k: bv32)
    requires K(t) == Number(k)
    ensures KeyWord(t) == V(k)
  {
    SameKey(t);
    WordOfNumber(k, K(t));
    SameWord(k);
  }

  lemma NextRound(block: Bytes, start: Registers, t: nat, a: bv32, b: bv32, c: bv32, d: bv32,
                  e: bv32, f: bv32, g: bv32, h: bv32, k: bv32, w: bv32, newA: bv32, newE: bv32)
    requires |block| == 64 && t < 64 && Reaches(block, start, t, a, b, c, d, e, f, g, h)
    requires KeyWord(t) == V(k) && ScheduleWord(block, t) == V(w) && IsRound(a, b, c, d, e, f, g, h, k, w, newA, newE)
    ensures Reaches(block, start, t + 1, newA, a, b, c, newE, e, f, g)
  {
    LaterSchedule(block, t, 64);
    SameKey(t);
    SameWord(k);
    FirstSumIs(e, f, g, h, k, w);
    SecondSumIs(a, b, c);
    Sum2Is(FirstSum(e, f, g, h, k, w), SecondSum(a, b, c), newA);
    Sum2Is(d, FirstSum(e, f, g, h, k, w), newE);
    SameRegisters(a, b, c, d, e, f, g, h);
    SameRegisters(newA, a, b, c, newE, e, f, g);
    SameWord(w);
    BitVectorsWork();
    RoundOfWords(BV, a, b, c, d, e, f, g, h, k, w, K(t), newA, newE);
  }

  lemma NextFourRounds(block: Bytes, start: Registers, t: nat, k0: bv32, k1: bv32, k2: bv32, k3: bv32,
                       w0: bv32, w1: bv32, w2: bv32, w3: bv32,
                       a: bv32, b: bv32, c: bv32, d: bv32, e: bv32, f: bv32, g: bv32, h: bv32,
                       a3: bv32, a2: bv32, a1: bv32, a0: bv32, e3: bv32, e2: bv32, e1: bv32, e0: bv32)
    requires |block| == 64 && t + 4 <= 64 && Reaches(block, start, t, a, b, c, d, e, f, g, h)
    requires FourKeys(t, k0, k1, k2, k3) && FourWords(block, t, w0, w1, w2, w3)
    requires IsRound(a, b, c, d, e, f, g, h, k0, w0, a0, e0) && IsRound(a0, a, b, c, e0, e, f, g, k1, w1, a1, e1)
    requires IsRound(a1, a0, a, b, e1, e0, e, f, k2, w2, a2, e2) && IsRound(a2, a1, a0, a, e2, e1, e0, e, k3, w3, a3, e3)
    ensures Reaches(block, start, t + 4, a3, a2, a1, a0, e3, e2, e1, e0)
  {
    NextRound(block, start, t, a, b, c, d, e, f, g, h, k0, w0, a0, e0);
    NextRound(block, start, t + 1, a0, a, b, c, e0, e, f, g, k1, w1, a1, e1);
    NextRound(block, start, t + 2, a1, a0, a, b, e1, e0, e, f, k2, w2, a2, e2);
    NextRound(block, start, t + 3, a2, a1, a0, a, e2, e1, e0, e, k3, w3, a3, e3);
  }

  // ----- the constants

  lemma Keys0()
    ensures FourKeys(0, 0x428a2f98, 0x71374491, 0xb5c0fbcf, 0xe9b5dba5)
  {
    KeyIs(0, 0x428a2f98);
    KeyIs(1, 0x71374491);
    KeyIs(2, 0xb5c0fbcf);
    KeyIs(3, 0xe9b5dba5);
  }

  lemma Keys4()
    ensures FourKeys(4, 0x3956c25b, 0x59f111f1, 0x923f82a4, 0xab1c5ed5)
  {
    KeyIs(4, 0x3956c25b);
    KeyIs(5, 0x59f111f1);
    KeyIs(6, 0x923f82a4);
    KeyIs(7, 0xab1c5ed5);
  }

  lemma Keys8()
    ensures FourKeys(8, 0xd807aa98, 0x12835b01, 0x243185be, 0x550c7dc3)
  {
    KeyIs(8, 0xd807aa98);
    KeyIs(9, 0x12835b01);
    KeyIs(10, 0x243185be);
    KeyIs(11, 0x550c7dc3);
  }

  lemma Keys12()
    ensures FourKeys(12, 0x72be5d74, 0x80deb1fe, 0x9bdc06a7, 0xc19bf174)
  {
    KeyIs(12, 0x72be5d74);
    KeyIs(13, 0x80deb1fe);
    KeyIs(14, 0x9bdc06a7);
    KeyIs(15, 0xc19bf174);
  }

  lemma Keys16()
    ensures FourKeys(16, 0xe49b69c1, 0xefbe4786, 0x0fc19dc6, 0x240ca1cc)
  {
    KeyIs(16, 0xe49b69c1);
    KeyIs(17, 0xefbe4786);
    KeyIs(18, 0x0fc19dc6);
    KeyIs(19, 0x240ca1cc);
  }

  lemma Keys20()
    ensures FourKeys(20, 0x2de92c6f, 0x4a7484aa, 0x5cb0a9dc, 0x76f988da)
  {
    KeyIs(20, 0x2de92c6f);
    KeyIs(21, 0x4a7484aa);
    KeyIs(22, 0x5cb0a9dc);
    KeyIs(23, 0x76f988da);
  }

  lemma Keys24()
    ensures FourKeys(24, 0x983e5152, 0xa831c66d, 0xb00327c8, 0xbf597fc7)
  {
    KeyIs(24, 0x983e5152);
    KeyIs(25, 0xa831c66d);
    KeyIs(26, 0xb00327c8);
    KeyIs(27, 0xbf597fc7);
  }

  lemma Keys28()
    ensures FourKeys(28, 0xc6e00bf3, 0xd5a79147, 0x06ca6351, 0x14292967)
  {
    KeyIs(28, 0xc6e00bf3);
    KeyIs(29, 0xd5a79147);
    KeyIs(30, 0x06ca6351);
    KeyIs(31, 0x14292967);
  }

  lemma Keys32()
    ensures FourKeys(32, 0x27b70a85, 0x2e1b2138, 0x4d2c6dfc, 0x53380d13)
  {
    KeyIs(32, 0x27b70a85);
    KeyIs(33, 0x2e1b2138);
    KeyIs(34, 0x4d2c6dfc);
    KeyIs(35, 0x53380d13);
  }

  lemma Keys36()
    ensures FourKeys(36, 0x650a7354, 0x766a0abb, 0x81c2c92e, 0x92722c85)
  {
    KeyIs(36, 0x650a7354);
    KeyIs(37, 0x766a0abb);
    KeyIs(38, 0x81c2c92e);
    KeyIs(39, 0x92722c85);
  }

  lemma Keys40()
    ensures FourKeys(40, 0xa2bfe8a1, 0xa81a664b, 0xc24b8b70, 0xc76c51a3)
  {
    KeyIs(40, 0xa2bfe8a1);
    KeyIs(41, 0xa81a664b);
    KeyIs(42, 0xc24b8b70);
    KeyIs(43, 0xc76c51a3);
  }

  lemma Keys44()
    ensures FourKeys(44, 0xd192e819, 0xd6990624, 0xf40e3585, 0x106aa070)
  {
    KeyIs(44, 0xd192e819);
    KeyIs(45, 0xd6990624);
    KeyIs(46, 0xf40e3585);
    KeyIs(47, 0x106aa070);
  }

  lemma Keys48()
    ensures FourKeys(48, 0x19a4c116, 0x1e376c08, 0x2748774c, 0x34b0bcb5)
  {
    KeyIs(48, 0x19a4c116);
    KeyIs(49, 0x1e376c08);
    KeyIs(50, 0x2748774c);
    KeyIs(51, 0x34b0bcb5);
  }

  lemma Keys52()
    ensures FourKeys(52, 0x391c0cb3, 0x4ed8aa4a, 0x5b9cca4f, 0x682e6ff3)
  {
    KeyIs(52, 0x391c0cb3);
    KeyIs(53, 0x4ed8aa4a);
    KeyIs(54, 0x5b9cca4f);
    KeyIs(55, 0x682e6ff3);
  }

  lemma Keys56()
    ensures FourKeys(56, 0x748f82ee, 0x78a5636f, 0x84c87814, 0x8cc70208)
  {
    KeyIs(56, 0x748f82ee);
    KeyIs(57, 0x78a5636f);
    KeyIs(58, 0x84c87814);
    KeyIs(59, 0x8cc70208);
  }

  lemma Keys60()
    ensures FourKeys(60, 0x90befffa, 0xa4506ceb, 0xbef9a3f7, 0xc67178f2)
  {
    KeyIs(60, 0x90befffa);
    KeyIs(61, 0xa4506ceb);
    KeyIs(62, 0xbef9a3f7);
    KeyIs(63, 0xc67178f2);
  }

  // ----- the first block

  lemma FirstWords16(block: Bytes)
    requires |block| == 64
    requires FourWords(block, 0, 0x61626364, 0x62636465, 0x63646566, 0x64656667)
    requires FourWords(block, 4, 0x65666768, 0x66676869, 0x6768696a, 0x68696a6b)
    requires FourWords(block, 8, 0x696a6b6c, 0x6a6b6c6d, 0x6b6c6d6e, 0x6c6d6e6f)
    requires FourWords(block, 12, 0x6d6e6f70, 0x6e6f7071, 0x80000000, 0x00000000)
    ensures FourWords(block, 16, 0xeb8012ad, 0xa7c3ae92, 0x76e93ba2, 0xba42e743)
    ensures FourWords(block, 20, 0x92a92204, 0xd847e75e, 0x9e160036, 0xb280a7cb)
    ensures FourWords(block, 24, 0xddeb1516, 0xf36586f4, 0x969cd048, 0xe959d99d)
    ensures FourWords(block, 28, 0x6accc0ec, 0xf54cb098, 0x2af1b2da, 0xee59c4c9)
  {
    NextFourWords(block, 16,
                  0x61626364, 0x62636465, 0x63646566, 0x64656667, 0x65666768, 0x66676869, 0x6768696a,
                  0x68696a6b, 0x696a6b6c, 0x6a6b6c6d, 0x6b6c6d6e, 0x6c6d6e6f, 0x6d6e6f70, 0x6e6f7071,
                  0x80000000, 0x00000000, 0xeb8012ad, 0xa7c3ae92, 0x76e93ba2, 0xba42e743);
    NextFourWords(block, 20,
                  0x65666768, 0x66676869, 0x6768696a, 0x68696a6b, 0x696a6b6c, 0x6a6b6c6d, 0x6b6c6d6e,
                  0x6c6d6e6f, 0x6d6e6f70, 0x6e6f7071, 0x80000000, 0x00000000, 0xeb8012ad, 0xa7c3ae92,
                  0x76e93ba2, 0xba42e743, 0x92a92204, 0xd847e75e, 0x9e160036, 0xb280a7cb);
    NextFourWords(block, 24,
                  0x696a6b6c, 0x6a6b6c6d, 0x6b6c6d6e, 0x6c6d6e6f, 0x6d6e6f70, 0x6e6f7071, 0x80000000,
                  0x00000000, 0xeb8012ad, 0xa7c3ae92, 0x76e93ba2, 0xba42e743, 0x92a92204, 0xd847e75e,
                  0x9e160036, 0xb280a7cb, 0xddeb1516, 0xf36586f4, 0x969cd048, 0xe959d99d);
    NextFourWords(block, 28,
                  0x6d6e6f70, 0x6e6f7071, 0x80000000, 0x00000000, 0xeb8012ad, 0xa7c3ae92, 0x76e93ba2,
                  0xba42e743, 0x92a92204, 0xd847e75e, 0x9e160036, 0xb280a7cb, 0xddeb1516, 0xf36586f4,
                  0x969cd048, 0xe959d99d, 0x6accc0ec, 0xf54cb098, 0x2af1b2da, 0xee59c4c9);
  }

  lemma FirstWords32(block: Bytes)
    requires |block| == 64
    requires FourWords(block, 16, 0xeb8012ad, 0xa7c3ae92, 0x76e93ba2, 0xba42e743)
    requires FourWords(block, 20, 0x92a92204, 0xd847e75e, 0x9e160036, 0xb280a7cb)
    requires FourWords(block, 24, 0xddeb1516, 0xf36586f4, 0x969cd048, 0xe959d99d)
    requires FourWords(block, 28, 0x6accc0ec, 0xf54cb098, 0x2af1b2da, 0xee59c4c9)
    ensures FourWords(block, 32, 0xa835e16a, 0x1dff4429, 0xd6e15959, 0xc397cd6e)
    ensures FourWords(block, 36, 0x6f1801ca, 0x21574205, 0x35ff7a84, 0x9743ee78)
    ensures FourWords(block, 40, 0xe44183e7, 0x0d09f00d, 0x9c89af54, 0x042d5bef)
    ensures FourWords(block, 44, 0x71f134d0, 0x0f94f463, 0x7e49dc63, 0x6f65c997)
  {
    NextFourWords(block, 32,
                  0xeb8012ad, 0xa7c3ae92, 0x76e93ba2, 0xba42e743, 0x92a92204, 0xd847e75e, 0x9e160036,
                  0xb280a7cb, 0xddeb1516, 0xf36586f4, 0x969cd048, 0xe959d99d, 0x6accc0ec, 0xf54cb098,
                  0x2af1b2da, 0xee59c4c9, 0xa835e16a, 0x1dff4429, 0xd6e15959, 0xc397cd6e);
    NextFourWords(block, 36,
                  0x92a92204, 0xd847e75e, 0x9e160036, 0xb280a7cb, 0xddeb1516, 0xf36586f4, 0x969cd048,
                  0xe959d99d, 0x6accc0ec, 0xf54cb098, 0x2af1b2da, 0xee59c4c9, 0xa835e16a, 0x1dff4429,
                  0xd6e15959, 0xc397cd6e, 0x6f1801ca, 0x21574205, 0x35ff7a84, 0x9743ee78);
    NextFourWords(block, 40,
                  0xddeb1516, 0xf36586f4, 0x969cd048, 0xe959d99d, 0x6accc0ec, 0xf54cb098, 0x2af1b2da,
                  0xee59c4c9, 0xa835e16a, 0x1dff4429, 0xd6e15959, 0xc397cd6e, 0x6f1801ca, 0x21574205,
                  0x35ff7a84, 0x9743ee78, 0xe44183e7, 0x0d09f00d, 0x9c89af54, 0x042d5bef);
    NextFourWords(block, 44,
                  0x6accc0ec, 0xf54cb098, 0x2af1b2da, 0xee59c4c9, 0xa835e16a, 0x1dff4429, 0xd6e15959,
                  0xc397cd6e, 0x6f1801ca, 0x21574205, 0x35ff7a84, 0x9743ee78, 0xe44183e7, 0x0d09f00d,
                  0x9c89af54, 0x042d5bef, 0x71f134d0, 0x0f94f463, 0x7e49dc63, 0x6f65c997);
  }

  lemma FirstWords48(block: Bytes)
    requires |block| == 64
    requires FourWords(block, 32, 0xa835e16a, 0x1dff4429, 0xd6e15959, 0xc397cd6e)
    requires FourWords(block, 36, 0x6f1801ca, 0x21574205, 0x35ff7a84, 0x9743ee78)
    requires FourWords(block, 40, 0xe44183e7, 0x0d09f00d, 0x9c89af54, 0x042d5bef)
    requires FourWords(block, 44, 0x71f134d0, 0x0f94f463, 0x7e49dc63, 0x6f65c997)
    ensures FourWords(block, 48, 0x0b706583, 0x179312ca, 0x503054e9, 0xba125c39)
    ensures FourWords(block, 52, 0x7e9392c9, 0xd5cbaa1e, 0x78e0585d, 0xf6e7611c)
    ensures FourWords(block, 56, 0x8ac830ce, 0x8b47a303, 0xfd6e627f, 0x8c6e2c6a)
    ensures FourWords(block, 60, 0x4001adf1, 0x1a3dd097, 0xa9df6f62, 0x6aa60a39)
  {
    NextFourWords(block, 48,
                  0xa835e16a, 0x1dff4429, 0xd6e15959, 0xc397cd6e, 0x6f1801ca, 0x21574205, 0x35ff7a84,
                  0x9743ee78, 0xe44183e7, 0x0d09f00d, 0x9c89af54, 0x042d5bef, 0x71f134d0, 0x0f94f463,
                  0x7e49dc63, 0x6f65c997, 0x0b706583, 0x179312ca, 0x503054e9, 0xba125c39);
    NextFourWords(block, 52,
                  0x6f1801ca, 0x21574205, 0x35ff7a84, 0x9743ee78, 0xe44183e7, 0x0d09f00d, 0x9c89af54,
                  0x042d5bef, 0x71f134d0, 0x0f94f463, 0x7e49dc63, 0x6f65c997, 0x0b706583, 0x179312ca,
                  0x503054e9, 0xba125c39, 0x7e9392c9, 0xd5cbaa1e, 0x78e0585d, 0xf6e7611c);
    NextFourWords(block, 56,
                  0xe44183e7, 0x0d09f00d, 0x9c89af54, 0x042d5bef, 0x71f134d0, 0x0f94f463, 0x7e49dc63,
                  0x6f65c997, 0x0b706583, 0x179312ca, 0x503054e9, 0xba125c39, 0x7e9392c9, 0xd5cbaa1e,
                  0x78e0585d, 0xf6e7611c, 0x8ac830ce, 0x8b47a303, 0xfd6e627f, 0x8c6e2c6a);
    NextFourWords(block, 60,
                  0x71f134d0, 0x0f94f463, 0x7e49dc63, 0x6f65c997, 0x0b706583, 0x179312ca, 0x503054e9,
                  0xba125c39, 0x7e9392c9, 0xd5cbaa1e, 0x78e0585d, 0xf6e7611c, 0x8ac830ce, 0x8b47a303,
                  0xfd6e627f, 0x8c6e2c6a, 0x4001adf1, 0x1a3dd097, 0xa9df6f62, 0x6aa60a39);
  }

  lemma FirstRounds0(block: Bytes, start: Registers, t: nat)
    requires |block| == 64 && t < 40
    requires Reaches(block, start, t, 0x6a09e667, 0xbb67ae85, 0x3c6ef372, 0xa54ff53a, 0x510e527f, 0x9b05688c, 0x1f83d9ab,
                     0x5be0cd19)
    requires FourWords(block, t, 0x61626364, 0x62636465, 0x63646566, 0x64656667)
    requires FourKeys(t, 0x428a2f98, 0x71374491, 0xb5c0fbcf, 0xe9b5dba5)
    requires FourWords(block, t + 4, 0x65666768, 0x66676869, 0x6768696a, 0x68696a6b)
    requires FourKeys(t + 4, 0x3956c25b, 0x59f111f1, 0x923f82a4, 0xab1c5ed5)
    ensures Reaches(block, start, t + 8, 0xd237e6db, 0x485835b7, 0x55c8ef48, 0xf921c212, 0xa401d211, 0x39a5b2ca, 0x7ff91c94,
                     0x05c4f88a)
  {
    NextFourRounds(block, start, t,
                   0x428a2f98, 0x71374491, 0xb5c0fbcf, 0xe9b5dba5,
                   0x61626364, 0x62636465, 0x63646566, 0x64656667,
                   0x6a09e667, 0xbb67ae85, 0x3c6ef372, 0xa54ff53a, 0x510e527f, 0x9b05688c, 0x1f83d9ab,
                   0x5be0cd19,
                   0x4a8d64d5, 0x97651825, 0x2f2d5fcf, 0x5d6aebb1, 0x6494841b, 0x62d5c49e, 0x4eb1cfce,
                   0xfa2a4606);
    NextFourRounds(block, start, t + 4,
                   0x3956c25b, 0x59f111f1, 0x923f82a4, 0xab1c5ed5,
                   0x65666768, 0x66676869, 0x6768696a, 0x68696a6b,
                   0x4a8d64d5, 0x97651825, 0x2f2d5fcf, 0x5d6aebb1, 0x6494841b, 0x62d5c49e, 0x4eb1cfce,
                   0xfa2a4606,
                   0xd237e6db, 0x485835b7, 0x55c8ef48, 0xf921c212, 0xa401d211, 0x39a5b2ca, 0x7ff91c94,
                   0x05c4f88a);
  }

  lemma FirstRounds8(block: Bytes, start: Registers)
    requires |block| == 64
    requires Reaches(block, start, 8, 0xd237e6db, 0x485835b7, 0x55c8ef48, 0xf921c212, 0xa401d211, 0x39a5b2ca, 0x7ff91c94,
                     0x05c4f88a)
    requires FourWords(block, 8, 0x696a6b6c, 0x6a6b6c6d, 0x6b6c6d6e, 0x6c6d6e6f)
    requires FourWords(block, 12, 0x6d6e6f70, 0x6e6f7071, 0x80000000, 0x00000000)
    requires FourWords(block, 16, 0xeb8012ad, 0xa7c3ae92, 0x76e93ba2, 0xba42e743)
    requires FourWords(block, 20, 0x92a92204, 0xd847e75e, 0x9e160036, 0xb280a7cb)
    ensures Reaches(block, start, 24, 0x59fce6b9, 0xae2e2d4f, 0x1b2b66b8, 0xd70ac17d, 0xa2c7d51d, 0xf074fc95, 0xd560b028,
                     0x7cc6b262)
  {
    Keys8();
    NextFourRounds(block, start, 8,
                   0xd807aa98, 0x12835b01, 0x243185be, 0x550c7dc3,
                   0x696a6b6c, 0x6a6b6c6d, 0x6b6c6d6e, 0x6c6d6e6f,
                   0xd237e6db, 0x485835b7, 0x55c8ef48, 0xf921c212, 0xa401d211, 0x39a5b2ca, 0x7ff91c94,
                   0x05c4f88a,
                   0x1762215c, 0xb8e2b4cb, 0x3a474b2b, 0x359f2bce, 0xee1c97a8, 0x443ed29e, 0x9037b3b8,
                   0xc09ffec4);
    Keys12();
    NextFourRounds(block, start, 12,
                   0x72be5d74, 0x80deb1fe, 0x9bdc06a7, 0xc19bf174,
                   0x6d6e6f70, 0x6e6f7071, 0x80000000, 0x00000000,
                   0x1762215c, 0xb8e2b4cb, 0x3a474b2b, 0x359f2bce, 0xee1c97a8, 0x443ed29e, 0x9037b3b8,
                   0xc09ffec4,
                   0xc3486194, 0xdd16cbb3, 0xd68e6457, 0x101a4861, 0x1496a54f, 0x9162aded, 0x9243f8af,
                   0x839a0fc9);
    Keys16();
    NextFourRounds(block, start, 16,
                   0xe49b69c1, 0xefbe4786, 0x0fc19dc6, 0x240ca1cc,
                   0xeb8012ad, 0xa7c3ae92, 0x76e93ba2, 0xba42e743,
                   0xc3486194, 0xdd16cbb3, 0xd68e6457, 0x101a4861, 0x1496a54f, 0x9162aded, 0x9243f8af,
                   0x839a0fc9,
                   0x2139187b, 0xf402f058, 0x046a193e, 0xb9dcacb1, 0x7c304206, 0x6f433549, 0x885370b6,
                   0xd4f64250);
    Keys20();
    NextFourRounds(block, start, 20,
                   0x2de92c6f, 0x4a7484aa, 0x5cb0a9dc, 0x76f988da,
                   0x92a92204, 0xd847e75e, 0x9e160036, 0xb280a7cb,
                   0x2139187b, 0xf402f058, 0x046a193e, 0xb9dcacb1, 0x7c304206, 0x6f433549, 0x885370b6,
                   0xd4f64250,
                   0x59fce6b9, 0xae2e2d4f, 0x1b2b66b8, 0xd70ac17d, 0xa2c7d51d, 0xf074fc95, 0xd560b028,
                   0x7cc6b262);
  }

  lemma FirstRounds24(block: Bytes, start: Registers)
    requires |block| == 64
    requires Reaches(block, start, 24, 0x59fce6b9, 0xae2e2d4f, 0x1b2b66b8, 0xd70ac17d, 0xa2c7d51d, 0xf074fc95, 0xd560b028,
                     0x7cc6b262)
    requires FourWords(block, 24, 0xddeb1516, 0xf36586f4, 0x969cd048, 0xe959d99d)
    requires FourWords(block, 28, 0x6accc0ec, 0xf54cb098, 0x2af1b2da, 0xee59c4c9)
    requires FourWords(block, 32, 0xa835e16a, 0x1dff4429, 0xd6e15959, 0xc397cd6e)
    requires FourWords(block, 36, 0x6f1801ca, 0x21574205, 0x35ff7a84, 0x9743ee78)
    ensures Reaches(block, start, 40, 0x7e4d30b8, 0x91ac9d5d, 0xa985b4be, 0x2c55d3a6, 0x9f5b9b6d, 0x68d8d590, 0xf72bf353,
                     0xb067c1af)
  {
    Keys24();
    NextFourRounds(block, start, 24,
                   0x983e5152, 0xa831c66d, 0xb00327c8, 0xbf597fc7,
                   0xddeb1516, 0xf36586f4, 0x969cd048, 0xe959d99d,
                   0x59fce6b9, 0xae2e2d4f, 0x1b2b66b8, 0xd70ac17d, 0xa2c7d51d, 0xf074fc95, 0xd560b028,
                   0x7cc6b262,
                   0x73f858af, 0x128661da, 0x573221da, 0x4a885065, 0xe77c797f, 0x1162d575, 0x36e74eb4,
                   0x763597fb);
    Keys28();
    NextFourRounds(block, start, 28,
                   0xc6e00bf3, 0xd5a79147, 0x06ca6351, 0x14292967,
                   0x6accc0ec, 0xf54cb098, 0x2af1b2da, 0xee59c4c9,
                   0x73f858af, 0x128661da, 0x573221da, 0x4a885065, 0xe77c797f, 0x1162d575, 0x36e74eb4,
                   0x763597fb,
                   0x5581ab07, 0xeb43f3ed, 0xdf7151a0, 0x74bcf468, 0xdf980085, 0x0635d880, 0x7629c961,
                   0x72abaecd);
    Keys32();
    NextFourRounds(block, start, 32,
                   0x27b70a85, 0x2e1b2138, 0x4d2c6dfc, 0x53380d13,
                   0xa835e16a, 0x1dff4429, 0xd6e15959, 0xc397cd6e,
                   0x5581ab07, 0xeb43f3ed, 0xdf7151a0, 0x74bcf468, 0xdf980085, 0x0635d880, 0x7629c961,
                   0x72abaecd,
                   0x0786dce8, 0x1df8e885, 0x9ce5a62f, 0x9fc905c8, 0xde2a21d1, 0x2a9e048e, 0x6ef3b6bd,
                   0xa94d2af1);
    Keys36();
    NextFourRounds(block, start, 36,
                   0x650a7354, 0x766a0abb, 0x81c2c92e, 0x92722c85,
                   0x6f1801ca, 0x21574205, 0x35ff7a84, 0x9743ee78,
                   0x0786dce8, 0x1df8e885, 0x9ce5a62f, 0x9fc905c8, 0xde2a21d1, 0x2a9e048e, 0x6ef3b6bd,
                   0xa94d2af1,
                   0x7e4d30b8, 0x91ac9d5d, 0xa985b4be, 0x2c55d3a6, 0x9f5b9b6d, 0x68d8d590, 0xf72bf353,
                   0xb067c1af);
  }

  lemma FirstRounds40(block: Bytes, start: Registers)
    requires |block| == 64
    requires Reaches(block, start, 40, 0x7e4d30b8, 0x91ac9d5d, 0xa985b4be, 0x2c55d3a6, 0x9f5b9b6d, 0x68d8d590, 0xf72bf353,
                     0xb067c1af)
    requires FourWords(block, 40, 0xe44183e7, 0x0d09f00d, 0x9c89af54, 0x042d5bef)
    requires FourWords(block, 44, 0x71f134d0, 0x0f94f463, 0x7e49dc63, 0x6f65c997)
    requires FourWords(block, 48, 0x0b706583, 0x179312ca, 0x503054e9, 0xba125c39)
    requires FourWords(block, 52, 0x7e9392c9, 0xd5cbaa1e, 0x78e0585d, 0xf6e7611c)
    ensures Reaches(block, start, 56, 0x9e57c4a0, 0xf907b313, 0x1d6de87a, 0xb8d55619, 0xeec13548, 0x61a41711, 0x3443bed4,
                     0x1c806a61)
  {
    Keys40();
    NextFourRounds(block, start, 40,
                   0xa2bfe8a1, 0xa81a664b, 0xc24b8b70, 0xc76c51a3,
                   0xe44183e7, 0x0d09f00d, 0x9c89af54, 0x042d5bef,
                   0x7e4d30b8, 0x91ac9d5d, 0xa985b4be, 0x2c55d3a6, 0x9f5b9b6d, 0x68d8d590, 0xf72bf353,
                   0xb067c1af,
                   0x167361de, 0xb62c7013, 0x508a16ab, 0x7e056794, 0x41dd3844, 0x80a92a00, 0x45459d97,
                   0x423b26c0);
    Keys44();
    NextFourRounds(block, start, 44,
                   0xd192e819, 0xd6990624, 0xf40e3585, 0x106aa070,
                   0x71f134d0, 0x0f94f463, 0x7e49dc63, 0x6f65c997,
                   0x167361de, 0xb62c7013, 0x508a16ab, 0x7e056794, 0x41dd3844, 0x80a92a00, 0x45459d97,
                   0x423b26c0,
                   0x13d82741, 0x165be9cd, 0x18f0d19d, 0xde71e2f2, 0xa7802a4d, 0xa483f080, 0x6b88472c,
                   0xff61c636);
    Keys48();
    NextFourRounds(block, start, 48,
                   0x19a4c116, 0x1e376c08, 0x2748774c, 0x34b0bcb5,
                   0x0b706583, 0x179312ca, 0x503054e9, 0xba125c39,
                   0x13d82741, 0x165be9cd, 0x18f0d19d, 0xde71e2f2, 0xa7802a4d, 0xa483f080, 0x6b88472c,
                   0xff61c636,
                   0x81c1cde0, 0x758ca97a, 0x543c99a1, 0x017b9d99, 0x5c47eb7b, 0x100cf2ea, 0x16f134b6,
                   0xaeb10b60);
    Keys52();
    NextFourRounds(block, start, 52,
                   0x391c0cb3, 0x4ed8aa4a, 0x5b9cca4f, 0x682e6ff3,
                   0x7e9392c9, 0xd5cbaa1e, 0x78e0585d, 0xf6e7611c,
                   0x81c1cde0, 0x758ca97a, 0x543c99a1, 0x017b9d99, 0x5c47eb7b, 0x100cf2ea, 0x16f134b6,
                   0xaeb10b60,
                   0x9e57c4a0, 0xf907b313, 0x1d6de87a, 0xb8d55619, 0xeec13548, 0x61a41711, 0x3443bed4,
                   0x1c806a61);
  }

  lemma FirstRounds56(block: Bytes, start: Registers)
    requires |block| == 64
    requires Reaches(block, start, 56, 0x9e57c4a0, 0xf907b313, 0x1d6de87a, 0xb8d55619, 0xeec13548, 0x61a41711, 0x3443bed4,
                     0x1c806a61)
    requires FourWords(block, 56, 0x8ac830ce, 0x8b47a303, 0xfd6e627f, 0x8c6e2c6a)
    requires FourWords(block, 60, 0x4001adf1, 0x1a3dd097, 0xa9df6f62, 0x6aa60a39)
    ensures Reaches(block, start, 64, 0x1bdc6f6f, 0x86126910, 0xf6f443f8, 0xbcfce922, 0x25d2430a, 0x2fc08f85, 0xacc75916,
                     0x962d8621)
  {
    Keys56();
    NextFourRounds(block, start, 56,
                   0x748f82ee, 0x78a5636f, 0x84c87814, 0x8cc70208,
                   0x8ac830ce, 0x8b47a303, 0xfd6e627f, 0x8c6e2c6a,
                   0x9e57c4a0, 0xf907b313, 0x1d6de87a, 0xb8d55619, 0xeec13548, 0x61a41711, 0x3443bed4,
                   0x1c806a61,
                   0xe18f259a, 0x921fccb6, 0x7c015a2c, 0x71629856, 0x51e15869, 0x43d8a034, 0xcb9d3dd0,
                   0x2f6c8c4e);
    Keys60();
    NextFourRounds(block, start, 60,
                   0x90befffa, 0xa4506ceb, 0xbef9a3f7, 0xc67178f2,
                   0x4001adf1, 0x1a3dd097, 0xa9df6f62, 0x6aa60a39,
                   0xe18f259a, 0x921fccb6, 0x7c015a2c, 0x71629856, 0x51e15869, 0x43d8a034, 0xcb9d3dd0,
                   0x2f6c8c4e,
                   0x1bdc6f6f, 0x86126910, 0xf6f443f8, 0xbcfce922, 0x25d2430a, 0x2fc08f85, 0xacc75916,
                   0x962d8621);
  }

  // ----- the second block

  lemma SecondWords16(block: Bytes)
    requires |block| == 64
    requires FourWords(block, 0, 0x00000000, 0x00000000, 0x00000000, 0x00000000)
    requires FourWords(block, 4, 0x00000000, 0x00000000, 0x00000000, 0x00000000)
    requires FourWords(block, 8, 0x00000000, 0x00000000, 0x00000000, 0x00000000)
    requires FourWords(block, 12, 0x00000000, 0x00000000, 0x00000000, 0x000001c0)
    ensures FourWords(block, 16, 0x00000000, 0x00d80000, 0x00000000, 0x00003677)
    ensures FourWords(block, 20, 0x00000000, 0x1df5600d, 0x000001c0, 0x1c00501c)
    ensures FourWords(block, 24, 0x01b00000, 0x220a8d94, 0x0000a365, 0x177017e7)
    ensures FourWords(block, 28, 0x63d38035, 0x090ab713, 0x4c7539ca, 0x0f19a8c9)
  {
    NextFourWords(block, 16,
                  0x00000000, 0x00000000, 0x00000000, 0x00000000, 0x00000000, 0x00000000, 0x00000000,
                  0x00000000, 0x00000000, 0x00000000, 0x00000000, 0x00000000, 0x00000000, 0x00000000,
                  0x00000000, 0x000001c0, 0x00000000, 0x00d80000, 0x00000000, 0x00003677);
    NextFourWords(block, 20,
                  0x00000000, 0x00000000, 0x00000000, 0x00000000, 0x00000000, 0x00000000, 0x00000000,
                  0x00000000, 0x00000000, 0x00000000, 0x00000000, 0x000001c0, 0x00000000, 0x00d80000,
                  0x00000000, 0x00003677, 0x00000000, 0x1df5600d, 0x000001c0, 0x1c00501c);
    NextFourWords(block, 24,
                  0x00000000, 0x00000000, 0x00000000, 0x00000000, 0x00000000, 0x00000000, 0x00000000,
                  0x000001c0, 0x00000000, 0x00d80000, 0x00000000, 0x00003677, 0x00000000, 0x1df5600d,
                  0x000001c0, 0x1c00501c, 0x01b00000, 0x220a8d94, 0x0000a365, 0x177017e7);
    NextFourWords(block, 28,
                  0x00000000, 0x00000000, 0x00000000, 0x000001c0, 0x00000000, 0x00d80000, 0x00000000,
                  0x00003677, 0x00000000, 0x1df5600d, 0x000001c0, 0x1c00501c, 0x01b00000, 0x220a8d94,
                  0x0000a365, 0x177017e7, 0x63d38035, 0x090ab713, 0x4c7539ca, 0x0f19a8c9);
  }

  lemma SecondWords32(block: Bytes)
    requires |block| == 64
    requires FourWords(block, 16, 0x00000000, 0x00d80000, 0x00000000, 0x00003677)
    requires FourWords(block, 20, 0x00000000, 0x1df5600d, 0x000001c0, 0x1c00501c)
    requires FourWords(block, 24, 0x01b00000, 0x220a8d94, 0x0000a365, 0x177017e7)
    requires FourWords(block, 28, 0x63d38035, 0x090ab713, 0x4c7539ca, 0x0f19a8c9)
    ensures FourWords(block, 32, 0x5df4b0c4, 0xe257036a, 0xc97bb6f1, 0xc5b46f4d)
    ensures FourWords(block, 36, 0xf8253c4e, 0xa558d189, 0x78696285, 0xed07117f)
    ensures FourWords(block, 40, 0x107358f6, 0x390ae496, 0x565010a2, 0xc51d7d44)
    ensures FourWords(block, 44, 0x9e74c972, 0x6614b561, 0x30fc129d, 0x9ac684a8)
  {
    NextFourWords(block, 32,
                  0x00000000, 0x00d80000, 0x00000000, 0x00003677, 0x00000000, 0x1df5600d, 0x000001c0,
                  0x1c00501c, 0x01b00000, 0x220a8d94, 0x0000a365, 0x177017e7, 0x63d38035, 0x090ab713,
                  0x4c7539ca, 0x0f19a8c9, 0x5df4b0c4, 0xe257036a, 0xc97bb6f1, 0xc5b46f4d);
    NextFourWords(block, 36,
                  0x00000000, 0x1df5600d, 0x000001c0, 0x1c00501c, 0x01b00000, 0x220a8d94, 0x0000a365,
                  0x177017e7, 0x63d38035, 0x090ab713, 0x4c7539ca, 0x0f19a8c9, 0x5df4b0c4, 0xe257036a,
                  0xc97bb6f1, 0xc5b46f4d, 0xf8253c4e, 0xa558d189, 0x78696285, 0xed07117f);
    NextFourWords(block, 40,
                  0x01b00000, 0x220a8d94, 0x0000a365, 0x177017e7, 0x63d38035, 0x090ab713, 0x4c7539ca,
                  0x0f19a8c9, 0x5df4b0c4, 0xe257036a, 0xc97bb6f1, 0xc5b46f4d, 0xf8253c4e, 0xa558d189,
                  0x78696285, 0xed07117f, 0x107358f6, 0x390ae496, 0x565010a2, 0xc51d7d44);
    NextFourWords(block, 44,
                  0x63d38035, 0x090ab713, 0x4c7539ca, 0x0f19a8c9, 0x5df4b0c4, 0xe257036a, 0xc97bb6f1,
                  0xc5b46f4d, 0xf8253c4e, 0xa558d189, 0x78696285, 0xed07117f, 0x107358f6, 0x390ae496,
                  0x565010a2, 0xc51d7d44, 0x9e74c972, 0x6614b561, 0x30fc129d, 0x9ac684a8);
  }

  lemma SecondWords48(block: Bytes)
    requires |block| == 64
    requires FourWords(block, 32, 0x5df4b0c4, 0xe257036a, 0xc97bb6f1, 0xc5b46f4d)
    requires FourWords(block, 36, 0xf8253c4e, 0xa558d189, 0x78696285, 0xed07117f)
    requires FourWords(block, 40, 0x107358f6, 0x390ae496, 0x565010a2, 0xc51d7d44)
    requires FourWords(block, 44, 0x9e74c972, 0x6614b561, 0x30fc129d, 0x9ac684a8)
    ensures FourWords(block, 48, 0x2b658dbd, 0xe290f793, 0x9eebb24c, 0x9713b5de)
    ensures FourWords(block, 52, 0x41061ab7, 0xe022e23b, 0x0772079e, 0x7de22d9c)
    ensures FourWords(block, 56, 0xc8b83778, 0x75a79849, 0xd93dbddb, 0x0a036c9d)
    ensures FourWords(block, 60, 0xcb4f6ac6, 0x823f97e2, 0xea2f2a7a, 0xb9018b52)
  {
    NextFourWords(block, 48,
                  0x5df4b0c4, 0xe257036a, 0xc97bb6f1, 0xc5b46f4d, 0xf8253c4e, 0xa558d189, 0x78696285,
                  0xed07117f, 0x107358f6, 0x390ae496, 0x565010a2, 0xc51d7d44, 0x9e74c972, 0x6614b561,
                  0x30fc129d, 0x9ac684a8, 0x2b658dbd, 0xe290f793, 0x9eebb24c, 0x9713b5de);
    NextFourWords(block, 52,
                  0xf8253c4e, 0xa558d189, 0x78696285, 0xed07117f, 0x107358f6, 0x390ae496, 0x565010a2,
                  0xc51d7d44, 0x9e74c972, 0x6614b561, 0x30fc129d, 0x9ac684a8, 0x2b658dbd, 0xe290f793,
                  0x9eebb24c, 0x9713b5de, 0x41061ab7, 0xe022e23b, 0x0772079e, 0x7de22d9c);
    NextFourWords(block, 56,
                  0x107358f6, 0x390ae496, 0x565010a2, 0xc51d7d44, 0x9e74c972, 0x6614b561, 0x30fc129d,
                  0x9ac684a8, 0x2b658dbd, 0xe290f793, 0x9eebb24c, 0x9713b5de, 0x41061ab7, 0xe022e23b,
                  0x0772079e, 0x7de22d9c, 0xc8b83778, 0x75a79849, 0xd93dbddb, 0x0a036c9d);
    NextFourWords(block, 60,
                  0x9e74c972, 0x6614b561, 0x30fc129d, 0x9ac684a8, 0x2b658dbd, 0xe290f793, 0x9eebb24c,
                  0x9713b5de, 0x41061ab7, 0xe022e23b, 0x0772079e, 0x7de22d9c, 0xc8b83778, 0x75a79849,
                  0xd93dbddb, 0x0a036c9d, 0xcb4f6ac6, 0x823f97e2, 0xea2f2a7a, 0xb9018b52);
  }

  lemma SecondRounds0(block: Bytes, start: Registers, t: nat)
    requires |block| == 64 && t < 40
    requires Reaches(block, start, t, 0x85e655d6, 0x417a1795, 0x3363376a, 0x624cde5c, 0x76e09589, 0xcac5f811, 0xcc4b32c1,
                     0xf20e533a)
    requires FourWords(block, t, 0x00000000, 0x00000000, 0x00000000, 0x00000000)
    requires FourKeys(t, 0x428a2f98, 0x71374491, 0xb5c0fbcf, 0xe9b5dba5)
    requires FourWords(block, t + 4, 0x00000000, 0x00000000, 0x00000000, 0x00000000)
    requires FourKeys(t + 4, 0x3956c25b, 0x59f111f1, 0x923f82a4, 0xab1c5ed5)
    ensures Reaches(block, start, t + 8, 0xbf9a93a0, 0x89bba3f1, 0x3eeb6c06, 0x185a5d79, 0x059abdd1, 0x0a34df03, 0xfe20cda6,
                     0x8dff3001)
  {
    NextFourRounds(block, start, t,
                   0x428a2f98, 0x71374491, 0xb5c0fbcf, 0xe9b5dba5,
                   0x00000000, 0x00000000, 0x00000000, 0x00000000,
                   0x85e655d6, 0x417a1795, 0x3363376a, 0x624cde5c, 0x76e09589, 0xcac5f811, 0xcc4b32c1,
                   0xf20e533a,
                   0xf268faa9, 0xfd1eebdc, 0x7c3c0f86, 0x7c20c838, 0xe20362ef, 0xaf71b9ea, 0x8c51be64,
                   0x4670ae6e);
    NextFourRounds(block, start, t + 4,
                   0x3956c25b, 0x59f111f1, 0x923f82a4, 0xab1c5ed5,
                   0x00000000, 0x00000000, 0x00000000, 0x00000000,
                   0xf268faa9, 0xfd1eebdc, 0x7c3c0f86, 0x7c20c838, 0xe20362ef, 0xaf71b9ea, 0x8c51be64,
                   0x4670ae6e,
                   0xbf9a93a0, 0x89bba3f1, 0x3eeb6c06, 0x185a5d79, 0x059abdd1, 0x0a34df03, 0xfe20cda6,
                   0x8dff3001);
  }

  lemma SecondRounds8(block: Bytes, start: Registers)
    requires |block| == 64
    requires Reaches(block, start, 8, 0xbf9a93a0, 0x89bba3f1, 0x3eeb6c06, 0x185a5d79, 0x059abdd1, 0x0a34df03, 0xfe20cda6,
                     0x8dff3001)
    requires FourWords(block, 8, 0x00000000, 0x00000000, 0x00000000, 0x00000000)
    requires FourWords(block, 12, 0x00000000, 0x00000000, 0x00000000, 0x000001c0)
    requires FourWords(block, 16, 0x00000000, 0x00d80000, 0x00000000, 0x00003677)
    requires FourWords(block, 20, 0x00000000, 0x1df5600d, 0x000001c0, 0x1c00501c)
    ensures Reaches(block, start, 24, 0xa4195b91, 0xf13ae55b, 0xd44dc81a, 0x20aad899, 0xeddbd6ed, 0x966aa287, 0x5bace62d,
                     0xcc4769f2)
  {
    Keys8();
    NextFourRounds(block, start, 8,
                   0xd807aa98, 0x12835b01, 0x243185be, 0x550c7dc3,
                   0x00000000, 0x00000000, 0x00000000, 0x00000000,
                   0xbf9a93a0, 0x89bba3f1, 0x3eeb6c06, 0x185a5d79, 0x059abdd1, 0x0a34df03, 0xfe20cda6,
                   0x8dff3001,
                   0x5eb4ec40, 0x5b35025b, 0x2d964e86, 0x2c096744, 0xe11b4548, 0x10e77723, 0xaa27ed82,
                   0xabfa465b);
    Keys12();
    NextFourRounds(block, start, 12,
                   0x72be5d74, 0x80deb1fe, 0x9bdc06a7, 0xc19bf174,
                   0x00000000, 0x00000000, 0x00000000, 0x000001c0,
                   0x5eb4ec40, 0x5b35025b, 0x2d964e86, 0x2c096744, 0xe11b4548, 0x10e77723, 0xaa27ed82,
                   0xabfa465b,
                   0x16a8cc79, 0x0cea5cbc, 0xd74080fa, 0x35ee996d, 0x0fcb1f6f, 0x60356548, 0x68aa893f,
                   0x5c24e2a2);
    Keys16();
    NextFourRounds(block, start, 16,
                   0xe49b69c1, 0xefbe4786, 0x0fc19dc6, 0x240ca1cc,
                   0x00000000, 0x00d80000, 0x00000000, 0x00003677,
                   0x16a8cc79, 0x0cea5cbc, 0xd74080fa, 0x35ee996d, 0x0fcb1f6f, 0x60356548, 0x68aa893f,
                   0x5c24e2a2,
                   0x76f1a2bc, 0xdcff40fd, 0x23dcb6c2, 0xf16f634e, 0x0dc84bb1, 0x69bf7b95, 0xca9182d3,
                   0x8b21cdc1);
    Keys20();
    NextFourRounds(block, start, 20,
                   0x2de92c6f, 0x4a7484aa, 0x5cb0a9dc, 0x76f988da,
                   0x00000000, 0x1df5600d, 0x000001c0, 0x1c00501c,
                   0x76f1a2bc, 0xdcff40fd, 0x23dcb6c2, 0xf16f634e, 0x0dc84bb1, 0x69bf7b95, 0xca9182d3,
                   0x8b21cdc1,
                   0xa4195b91, 0xf13ae55b, 0xd44dc81a, 0x20aad899, 0xeddbd6ed, 0x966aa287, 0x5bace62d,
                   0xcc4769f2);
  }

  lemma SecondRounds24(block: Bytes, start: Registers)
    requires |block| == 64
    requires Reaches(block, start, 24, 0xa4195b91, 0xf13ae55b, 0xd44dc81a, 0x20aad899, 0xeddbd6ed, 0x966aa287, 0x5bace62d,
                     0xcc4769f2)
    requires FourWords(block, 24, 0x01b00000, 0x220a8d94, 0x0000a365, 0x177017e7)
    requires FourWords(block, 28, 0x63d38035, 0x090ab713, 0x4c7539ca, 0x0f19a8c9)
    requires FourWords(block, 32, 0x5df4b0c4, 0xe257036a, 0xc97bb6f1, 0xc5b46f4d)
    requires FourWords(block, 36, 0xf8253c4e, 0xa558d189, 0x78696285, 0xed07117f)
    ensures Reaches(block, start, 40, 0x221b8a5a, 0xadca7a96, 0xd949682b, 0x2f11c939, 0x0b82c5eb, 0xc6cce4ff, 0x32d99008,
                     0xfed4ce1d)
  {
    Keys24();
    NextFourRounds(block, start, 24,
                   0x983e5152, 0xa831c66d, 0xb00327c8, 0xbf597fc7,
                   0x01b00000, 0x220a8d94, 0x0000a365, 0x177017e7,
                   0xa4195b91, 0xf13ae55b, 0xd44dc81a, 0x20aad899, 0xeddbd6ed, 0x966aa287, 0x5bace62d,
                   0xcc4769f2,
                   0x0d936bab, 0x9450fbbc, 0xaa6cb982, 0x4984fa79, 0x6e495d4b, 0x09166dda, 0x0b5eeea4,
                   0xa530d939);
    Keys28();
    NextFourRounds(block, start, 28,
                   0xc6e00bf3, 0xd5a79147, 0x06ca6351, 0x14292967,
                   0x63d38035, 0x090ab713, 0x4c7539ca, 0x0f19a8c9,
                   0x0d936bab, 0x9450fbbc, 0xaa6cb982, 0x4984fa79, 0x6e495d4b, 0x09166dda, 0x0b5eeea4,
                   0xa530d939,
                   0xb0eab1c5, 0x02ef3a5f, 0x1cfa5eb0, 0xd958b529, 0xf6d93952, 0x5da10665, 0x6c49db9f,
                   0xc2fa99b1);
    Keys32();
    NextFourRounds(block, start, 32,
                   0x27b70a85, 0x2e1b2138, 0x4d2c6dfc, 0x53380d13,
                   0x5df4b0c4, 0xe257036a, 0xc97bb6f1, 0xc5b46f4d,
                   0xb0eab1c5, 0x02ef3a5f, 0x1cfa5eb0, 0xd958b529, 0xf6d93952, 0x5da10665, 0x6c49db9f,
                   0xc2fa99b1,
                   0xecde4e0d, 0x9907f1b6, 0x4bd1df96, 0x0bfba73c, 0x5dc119e6, 0x66c3043d, 0x905e44ac,
                   0x8b99e3a9);
    Keys36();
    NextFourRounds(block, start, 36,
                   0x650a7354, 0x766a0abb, 0x81c2c92e, 0x92722c85,
                   0xf8253c4e, 0xa558d189, 0x78696285, 0xed07117f,
                   0xecde4e0d, 0x9907f1b6, 0x4bd1df96, 0x0bfba73c, 0x5dc119e6, 0x66c3043d, 0x905e44ac,
                   0x8b99e3a9,
                   0x221b8a5a, 0xadca7a96, 0xd949682b, 0x2f11c939, 0x0b82c5eb, 0xc6cce4ff, 0x32d99008,
                   0xfed4ce1d);
  }

  lemma SecondRounds40(block: Bytes, start: Registers)
    requires |block| == 64
    requires Reaches(block, start, 40, 0x221b8a5a, 0xadca7a96, 0xd949682b, 0x2f11c939, 0x0b82c5eb, 0xc6cce4ff, 0x32d99008,
                     0xfed4ce1d)
    requires FourWords(block, 40, 0x107358f6, 0x390ae496, 0x565010a2, 0xc51d7d44)
    requires FourWords(block, 44, 0x9e74c972, 0x6614b561, 0x30fc129d, 0x9ac684a8)
    requires FourWords(block, 48, 0x2b658dbd, 0xe290f793, 0x9eebb24c, 0x9713b5de)
    requires FourWords(block, 52, 0x41061ab7, 0xe022e23b, 0x0772079e, 0x7de22d9c)
    ensures Reaches(block, start, 56, 0x92952710, 0xd9f0c115, 0xec02560a, 0x4eca6fa0, 0x226806d6, 0x624150c4, 0x7151df8e,
                     0x989ed071)
  {
    Keys40();
    NextFourRounds(block, start, 40,
                   0xa2bfe8a1, 0xa81a664b, 0xc24b8b70, 0xc76c51a3,
                   0x107358f6, 0x390ae496, 0x565010a2, 0xc51d7d44,
                   0x221b8a5a, 0xadca7a96, 0xd949682b, 0x2f11c939, 0x0b82c5eb, 0xc6cce4ff, 0x32d99008,
                   0xfed4ce1d,
                   0xf2ad6322, 0x8300fca2, 0x2c794876, 0x12d97845, 0xcc48c7f3, 0xe0e3457c, 0xff6759ba,
                   0xe4213ca2);
    Keys44();
    NextFourRounds(block, start, 44,
                   0xd192e819, 0xd6990624, 0xf40e3585, 0x106aa070,
                   0x9e74c972, 0x6614b561, 0x30fc129d, 0x9ac684a8,
                   0xf2ad6322, 0x8300fca2, 0x2c794876, 0x12d97845, 0xcc48c7f3, 0xe0e3457c, 0xff6759ba,
                   0xe4213ca2,
                   0xd7354d5b, 0x0b3303a7, 0x104a7db4, 0x0f154e11, 0xaad55b6b, 0xbbe1c39a, 0x5348e8f6,
                   0x6f9517cb);
    Keys48();
    NextFourRounds(block, start, 48,
                   0x19a4c116, 0x1e376c08, 0x2748774c, 0x34b0bcb5,
                   0x2b658dbd, 0xe290f793, 0x9eebb24c, 0x9713b5de,
                   0xd7354d5b, 0x0b3303a7, 0x104a7db4, 0x0f154e11, 0xaad55b6b, 0xbbe1c39a, 0x5348e8f6,
                   0x6f9517cb,
                   0x1a6bcf6a, 0xd8aabcf9, 0x2748e5ec, 0xb736d7a6, 0xff5e99d0, 0x27844711, 0xd4b58576,
                   0x68f25260);
    Keys52();
    NextFourRounds(block, start, 52,
                   0x391c0cb3, 0x4ed8aa4a, 0x5b9cca4f, 0x682e6ff3,
                   0x41061ab7, 0xe022e23b, 0x0772079e, 0x7de22d9c,
                   0x1a6bcf6a, 0xd8aabcf9, 0x2748e5ec, 0xb736d7a6, 0xff5e99d0, 0x27844711, 0xd4b58576,
                   0x68f25260,
                   0x92952710, 0xd9f0c115, 0xec02560a, 0x4eca6fa0, 0x226806d6, 0x624150c4, 0x7151df8e,
                   0x989ed071);
  }

  lemma SecondRounds56(block: Bytes, start: Registers)
    requires |block| == 64
    requires Reaches(block, start, 56, 0x92952710, 0xd9f0c115, 0xec02560a, 0x4eca6fa0, 0x226806d6, 0x624150c4, 0x7151df8e,
                     0x989ed071)
    requires FourWords(block, 56, 0xc8b83778, 0x75a79849, 0xd93dbddb, 0x0a036c9d)
    requires FourWords(block, 60, 0xcb4f6ac6, 0x823f97e2, 0xea2f2a7a, 0xb9018b52)
    ensures Reaches(block, start, 64, 0x9ea7148b, 0x908c2123, 0xb25cef29, 0xa9f181dd, 0x2c5c4ed0, 0x9a392956, 0x2aa1bb13,
                     0x27ccb387)
  {
    Keys56();
    NextFourRounds(block, start, 56,
                   0x748f82ee, 0x78a5636f, 0x84c87814, 0x8cc70208,
                   0xc8b83778, 0x75a79849, 0xd93dbddb, 0x0a036c9d,
                   0x92952710, 0xd9f0c115, 0xec02560a, 0x4eca6fa0, 0x226806d6, 0x624150c4, 0x7151df8e,
                   0x989ed071,
                   0x1c4cddd9, 0x286fe5f0, 0x4348eb1f, 0x20d4d0e4, 0xf487a853, 0x54076664, 0xc21eddf9,
                   0x4e515a4d);
    Keys60();
    NextFourRounds(block, start, 60,
                   0x90befffa, 0xa4506ceb, 0xbef9a3f7, 0xc67178f2,
                   0xcb4f6ac6, 0x823f97e2, 0xea2f2a7a, 0xb9018b52,
                   0x1c4cddd9, 0x286fe5f0, 0x4348eb1f, 0x20d4d0e4, 0xf487a853, 0x54076664, 0xc21eddf9,
                   0x4e515a4d,
                   0x9ea7148b, 0x908c2123, 0xb25cef29, 0xa9f181dd, 0x2c5c4ed0, 0x9a392956, 0x2aa1bb13,
                   0x27ccb387);
  }

  // ----- the message

  /** The bytes of "abcdbcdecdefdefgefghfghighijhijkijkljklmklmnlmnomnopnopq". */
  function Example(): (m: Bytes)
    ensures |m| == 56
  {
    seq(56, i requires 0 <= i < 56 => 0x61 + i / 4 + i % 4)
  }

  lemma WordOfFourBytes(block: Bytes, t: nat, b0: nat, b1: nat, b2: nat, b3: nat, w: bv32)
    requires |block| == 64 && t < 16
    requires block[4 * t] == b0 && block[4 * t + 1] == b1 && block[4 * t + 2] == b2 && block[4 * t + 3] == b3
    requires Number(w) == 0x100_0000 * b0 + 0x1_0000 * b1 + 0x100 * b2 + b3
    ensures ScheduleWord(block, t) == V(w)
  {
    var four := block[4 * t..4 * t + 4];
    assert four == [b0, b1, b2, b3];
    assert four[..3] == [b0, b1, b2] && four[..3][..2] == [b0, b1] && four[..3][..2][..1] == [b0];
    assert BigEndian(four[..3]) == 256 * BigEndian(four[..3][..2]) + b2;
    assert BigEndian(four[..3][..2]) == 256 * BigEndian(four[..3][..2][..1]) + b1;
    assert BigEndian([b0]) == b0;
    assert BigEndian(four) == Number(w);
    WordOfNumber(w, Number(w));
    SameWord(w);
  }

  lemma ExamplePadding(i: nat)
    requires i < 128
    ensures |Pad(Example())| == 128 && Pad(Example())[i] == PaddedByte(Example(), i)
  {
    PaddedLengthIsPadLength(Example());
    PaddingOnTheFly(Example(), i);
  }

  lemma PaddedLetters(block: Bytes, t: nat)
    requires block == Pad(Example())[..64] && t < 14
    ensures |block| == 64 && block[4 * t] == 0x61 + t && block[4 * t + 1] == 0x62 + t
    ensures block[4 * t + 2] == 0x63 + t && block[4 * t + 3] == 0x64 + t
  {
    ExamplePadding(4 * t);
    ExamplePadding(4 * t + 1);
    ExamplePadding(4 * t + 2);
    ExamplePadding(4 * t + 3);
  }

  lemma PaddedZero(i: nat)
    requires 57 <= i < 126
    ensures |Pad(Example())| == 128 && Pad(Example())[i] == 0
  {
    ExamplePadding(i);
    if i >= 120 {
      Power256Values();
    }
  }

  lemma PaddedEnds()
    ensures |Pad(Example())| == 128 && Pad(Example())[56] == 0x80 && Pad(Example())[126] == 1 && Pad(Example())[127] == 0xc0
  {
    ExamplePadding(56);
    ExamplePadding(126);
    ExamplePadding(127);
    Power256Values();
  }

  lemma FirstStart0(block: Bytes)
    requires |Pad(Example())| == 128 && block == Pad(Example())[0..64]
    ensures |block| == 64 && FourWords(block, 0, 0x61626364, 0x62636465, 0x63646566, 0x64656667)
  {
    PaddedLetters(block, 0);
    PaddedLetters(block, 1);
    PaddedLetters(block, 2);
    PaddedLetters(block, 3);
    WordOfFourBytes(block, 0, 0x61, 0x62, 0x63, 0x64, 0x61626364);
    WordOfFourBytes(block, 1, 0x62, 0x63, 0x64, 0x65, 0x62636465);
    WordOfFourBytes(block, 2, 0x63, 0x64, 0x65, 0x66, 0x63646566);
    WordOfFourBytes(block, 3, 0x64, 0x65, 0x66, 0x67, 0x64656667);
  }

  lemma FirstStart4(block: Bytes)
    requires |Pad(Example())| == 128 && block == Pad(Example())[0..64]
    ensures |block| == 64 && FourWords(block, 4, 0x65666768, 0x66676869, 0x6768696a, 0x68696a6b)
  {
    PaddedLetters(block, 4);
    PaddedLetters(block, 5);
    PaddedLetters(block, 6);
    PaddedLetters(block, 7);
    WordOfFourBytes(block, 4, 0x65, 0x66, 0x67, 0x68, 0x65666768);
    WordOfFourBytes(block, 5, 0x66, 0x67, 0x68, 0x69, 0x66676869);
    WordOfFourBytes(block, 6, 0x67, 0x68, 0x69, 0x6a, 0x6768696a);
    WordOfFourBytes(block, 7, 0x68, 0x69, 0x6a, 0x6b, 0x68696a6b);
  }

  lemma FirstStart8(block: Bytes)
    requires |Pad(Example())| == 128 && block == Pad(Example())[0..64]
    ensures |block| == 64 && FourWords(block, 8, 0x696a6b6c, 0x6a6b6c6d, 0x6b6c6d6e, 0x6c6d6e6f)
  {
    PaddedLetters(block, 8);
    PaddedLetters(block, 9);
    PaddedLetters(block, 10);
    PaddedLetters(block, 11);
    WordOfFourBytes(block, 8, 0x69, 0x6a, 0x6b, 0x6c, 0x696a6b6c);
    WordOfFourBytes(block, 9, 0x6a, 0x6b, 0x6c, 0x6d, 0x6a6b6c6d);
    WordOfFourBytes(block, 10, 0x6b, 0x6c, 0x6d, 0x6e, 0x6b6c6d6e);
    WordOfFourBytes(block, 11, 0x6c, 0x6d, 0x6e, 0x6f, 0x6c6d6e6f);
  }

  lemma FirstStart12(block: Bytes)
    requires |Pad(Example())| == 128 && block == Pad(Example())[0..64]
    ensures |block| == 64 && FourWords(block, 12, 0x6d6e6f70, 0x6e6f7071, 0x80000000, 0x00000000)
  {
    PaddedLetters(block, 12);
    PaddedLetters(block, 13);
    PaddedEnds();
    forall i | 57 <= i < 64 {
      PaddedZero(i);
    }
    WordOfFourBytes(block, 12, 0x6d, 0x6e, 0x6f, 0x70, 0x6d6e6f70);
    WordOfFourBytes(block, 13, 0x6e, 0x6f, 0x70, 0x71, 0x6e6f7071);
    WordOfFourBytes(block, 14, 0x80, 0x00, 0x00, 0x00, 0x80000000);
    WordOfFourBytes(block, 15, 0x00, 0x00, 0x00, 0x00, 0x00000000);
  }

  lemma SecondStart0(block: Bytes)
    requires |Pad(Example())| == 128 && block == Pad(Example())[64..128]
    ensures |block| == 64 && FourWords(block, 0, 0x00000000, 0x00000000, 0x00000000, 0x00000000)
  {
    forall i | 64 <= i < 80 {
      PaddedZero(i);
    }
    WordOfFourBytes(block, 0, 0x00, 0x00, 0x00, 0x00, 0x00000000);
    WordOfFourBytes(block, 1, 0x00, 0x00, 0x00, 0x00, 0x00000000);
    WordOfFourBytes(block, 2, 0x00, 0x00, 0x00, 0x00, 0x00000000);
    WordOfFourBytes(block, 3, 0x00, 0x00, 0x00, 0x00, 0x00000000);
  }

  lemma SecondStart4(block: Bytes)
    requires |Pad(Example())| == 128 && block == Pad(Example())[64..128]
    ensures |block| == 64 && FourWords(block, 4, 0x00000000, 0x00000000, 0x00000000, 0x00000000)
  {
    forall i | 80 <= i < 96 {
      PaddedZero(i);
    }
    WordOfFourBytes(block, 4, 0x00, 0x00, 0x00, 0x00, 0x00000000);
    WordOfFourBytes(block, 5, 0x00, 0x00, 0x00, 0x00, 0x00000000);
    WordOfFourBytes(block, 6, 0x00, 0x00, 0x00, 0x00, 0x00000000);
    WordOfFourBytes(block, 7, 0x00, 0x00, 0x00, 0x00, 0x00000000);
  }

  lemma SecondStart8(block: Bytes)
    requires |Pad(Example())| == 128 && block == Pad(Example())[64..128]
    ensures |block| == 64 && FourWords(block, 8, 0x00000000, 0x00000000, 0x00000000, 0x00000000)
  {
    forall i | 96 <= i < 112 {
      PaddedZero(i);
    }
    WordOfFourBytes(block, 8, 0x00, 0x00, 0x00, 0x00, 0x00000000);
    WordOfFourBytes(block, 9, 0x00, 0x00, 0x00, 0x00, 0x00000000);
    WordOfFourBytes(block, 10, 0x00, 0x00, 0x00, 0x00, 0x00000000);
    WordOfFourBytes(block, 11, 0x00, 0x00, 0x00, 0x00, 0x00000000);
  }

  lemma SecondStart12(block: Bytes)
    requires |Pad(Example())| == 128 && block == Pad(Example())[64..128]
    ensures |block| == 64 && FourWords(block, 12, 0x00000000, 0x00000000, 0x00000000, 0x000001c0)
  {
    PaddedEnds();
    forall i | 112 <= i < 126 {
      PaddedZero(i);
    }
    WordOfFourBytes(block, 12, 0x00, 0x00, 0x00, 0x00, 0x00000000);
    WordOfFourBytes(block, 13, 0x00, 0x00, 0x00, 0x00, 0x00000000);
    WordOfFourBytes(block, 14, 0x00, 0x00, 0x00, 0x00, 0x00000000);
    WordOfFourBytes(block, 15, 0x00, 0x00, 0x01, 0xc0, 0x000001c0);
  }

  // ----- the hash values

  lemma Sum(x: bv32, y: bv32, z: bv32)
    requires z == Sum2(x, y)
    ensures Add(V(x), V(y)) == V(z)
  {
    SameWord(x);
    SameWord(y);
    SameWord(z);
    SumOfWords(x, y, z);
  }

  predicate HashIs(r: Registers, a: bv32, b: bv32, c: bv32, d: bv32, e: bv32, f: bv32, g: bv32, h: bv32) {
    r == Vectors(a, b, c, d, e, f, g, h)
  }

  lemma NumberIs(v: bv32, n: nat)
    requires n == Number(v)
    ensures WordOf(n) == V(v) && Value(V(v)) == n
  {
    WordOfNumber(v, n);
    SameWord(v);
  }

  lemma InitialIs()
    ensures HashIs(Initial(MOD32), 0x6a09e667, 0xbb67ae85, 0x3c6ef372, 0xa54ff53a, 0x510e527f, 0x9b05688c, 0x1f83d9ab,
                   0x5be0cd19)
  {
    NumberIs(0x6a09e667, 0x6a09e667);
    NumberIs(0xbb67ae85, 0xbb67ae85);
    NumberIs(0x3c6ef372, 0x3c6ef372);
    NumberIs(0xa54ff53a, 0xa54ff53a);
    NumberIs(0x510e527f, 0x510e527f);
    NumberIs(0x9b05688c, 0x9b05688c);
    NumberIs(0x1f83d9ab, 0x1f83d9ab);
    NumberIs(0x5be0cd19, 0x5be0cd19);
  }

  lemma FirstSchedule(block: Bytes)
    requires |Pad(Example())| == 128 && block == Pad(Example())[0..64]
    ensures |block| == 64
    ensures FourWords(block, 0, 0x61626364, 0x62636465, 0x63646566, 0x64656667)
    ensures FourWords(block, 4, 0x65666768, 0x66676869, 0x6768696a, 0x68696a6b)
    ensures FourWords(block, 8, 0x696a6b6c, 0x6a6b6c6d, 0x6b6c6d6e, 0x6c6d6e6f)
    ensures FourWords(block, 12, 0x6d6e6f70, 0x6e6f7071, 0x80000000, 0x00000000)
    ensures FourWords(block, 16, 0xeb8012ad, 0xa7c3ae92, 0x76e93ba2, 0xba42e743)
    ensures FourWords(block, 20, 0x92a92204, 0xd847e75e, 0x9e160036, 0xb280a7cb)
    ensures FourWords(block, 24, 0xddeb1516, 0xf36586f4, 0x969cd048, 0xe959d99d)
    ensures FourWords(block, 28, 0x6accc0ec, 0xf54cb098, 0x2af1b2da, 0xee59c4c9)
    ensures FourWords(block, 32, 0xa835e16a, 0x1dff4429, 0xd6e15959, 0xc397cd6e)
    ensures FourWords(block, 36, 0x6f1801ca, 0x21574205, 0x35ff7a84, 0x9743ee78)
    ensures FourWords(block, 40, 0xe44183e7, 0x0d09f00d, 0x9c89af54, 0x042d5bef)
    ensures FourWords(block, 44, 0x71f134d0, 0x0f94f463, 0x7e49dc63, 0x6f65c997)
    ensures FourWords(block, 48, 0x0b706583, 0x179312ca, 0x503054e9, 0xba125c39)
    ensures FourWords(block, 52, 0x7e9392c9, 0xd5cbaa1e, 0x78e0585d, 0xf6e7611c)
    ensures FourWords(block, 56, 0x8ac830ce, 0x8b47a303, 0xfd6e627f, 0x8c6e2c6a)
    ensures FourWords(block, 60, 0x4001adf1, 0x1a3dd097, 0xa9df6f62, 0x6aa60a39)
  {
    FirstStart0(block);
    FirstStart4(block);
    FirstStart8(block);
    FirstStart12(block);
    FirstWords16(block);
    FirstWords32(block);
    FirstWords48(block);
  }

  lemma FirstEight(block: Bytes, start: Registers)
    requires |block| == 64 && HashIs(start, 0x6a09e667, 0xbb67ae85, 0x3c6ef372, 0xa54ff53a, 0x510e527f,
                                            0x9b05688c, 0x1f83d9ab, 0x5be0cd19)
    requires FourWords(block, 0, 0x61626364, 0x62636465, 0x63646566, 0x64656667)
    requires FourWords(block, 4, 0x65666768, 0x66676869, 0x6768696a, 0x68696a6b)
    ensures Reaches(block, start, 8, 0xd237e6db, 0x485835b7, 0x55c8ef48, 0xf921c212, 0xa401d211, 0x39a5b2ca, 0x7ff91c94,
                   0x05c4f88a)
  {
    Keys0();
    Keys4();
    FirstRounds0(block, start, 0);
  }

  lemma FirstBlock(block: Bytes, start: Registers)
    requires |Pad(Example())| == 128 && block == Pad(Example())[0..64]
    requires HashIs(start, 0x6a09e667, 0xbb67ae85, 0x3c6ef372, 0xa54ff53a, 0x510e527f, 0x9b05688c, 0x1f83d9ab,
                   0x5be0cd19)
    ensures |block| == 64
    ensures Reaches(block, start, 64, 0x1bdc6f6f, 0x86126910, 0xf6f443f8, 0xbcfce922, 0x25d2430a, 0x2fc08f85, 0xacc75916,
                   0x962d8621)
  {
    FirstSchedule(block);
    FirstEight(block, start);
    FirstRounds8(block, start);
    FirstRounds24(block, start);
    FirstRounds40(block, start);
    FirstRounds56(block, start);
  }

  lemma FirstHash(block: Bytes, start: Registers)
    requires |Pad(Example())| == 128 && block == Pad(Example())[0..64]
    requires HashIs(start, 0x6a09e667, 0xbb67ae85, 0x3c6ef372, 0xa54ff53a, 0x510e527f, 0x9b05688c, 0x1f83d9ab,
                   0x5be0cd19)
    ensures |block| == 64
    ensures HashIs(Compress(MOD32, start, block), 0x85e655d6, 0x417a1795, 0x3363376a, 0x624cde5c, 0x76e09589, 0xcac5f811, 0xcc4b32c1,
                   0xf20e533a)
  {
    FirstBlock(block, start);
    Sum(0x6a09e667, 0x1bdc6f6f, 0x85e655d6);
    Sum(0xbb67ae85, 0x86126910, 0x417a1795);
    Sum(0x3c6ef372, 0xf6f443f8, 0x3363376a);
    Sum(0xa54ff53a, 0xbcfce922, 0x624cde5c);
    Sum(0x510e527f, 0x25d2430a, 0x76e09589);
    Sum(0x9b05688c, 0x2fc08f85, 0xcac5f811);
    Sum(0x1f83d9ab, 0xacc75916, 0xcc4b32c1);
    Sum(0x5be0cd19, 0x962d8621, 0xf20e533a);
  }

  lemma SecondSchedule(block: Bytes)
    requires |Pad(Example())| == 128 && block == Pad(Example())[64..128]
    ensures |block| == 64
    ensures FourWords(block, 0, 0x00000000, 0x00000000, 0x00000000, 0x00000000)
    ensures FourWords(block, 4, 0x00000000, 0x00000000, 0x00000000, 0x00000000)
    ensures FourWords(block, 8, 0x00000000, 0x00000000, 0x00000000, 0x00000000)
    ensures FourWords(block, 12, 0x00000000, 0x00000000, 0x00000000, 0x000001c0)
    ensures FourWords(block, 16, 0x00000000, 0x00d80000, 0x00000000, 0x00003677)
    ensures FourWords(block, 20, 0x00000000, 0x1df5600d, 0x000001c0, 0x1c00501c)
    ensures FourWords(block, 24, 0x01b00000, 0x220a8d94, 0x0000a365, 0x177017e7)
    ensures FourWords(block, 28, 0x63d38035, 0x090ab713, 0x4c7539ca, 0x0f19a8c9)
    ensures FourWords(block, 32, 0x5df4b0c4, 0xe257036a, 0xc97bb6f1, 0xc5b46f4d)
    ensures FourWords(block, 36, 0xf8253c4e, 0xa558d189, 0x78696285, 0xed07117f)
    ensures FourWords(block, 40, 0x107358f6, 0x390ae496, 0x565010a2, 0xc51d7d44)
    ensures FourWords(block, 44, 0x9e74c972, 0x6614b561, 0x30fc129d, 0x9ac684a8)
    ensures FourWords(block, 48, 0x2b658dbd, 0xe290f793, 0x9eebb24c, 0x9713b5de)
    ensures FourWords(block, 52, 0x41061ab7, 0xe022e23b, 0x0772079e, 0x7de22d9c)
    ensures FourWords(block, 56, 0xc8b83778, 0x75a79849, 0xd93dbddb, 0x0a036c9d)
    ensures FourWords(block, 60, 0xcb4f6ac6, 0x823f97e2, 0xea2f2a7a, 0xb9018b52)
  {
    SecondStart0(block);
    SecondStart4(block);
    SecondStart8(block);
    SecondStart12(block);
    SecondWords16(block);
    SecondWords32(block);
    SecondWords48(block);
  }

  lemma SecondEight(block: Bytes, start: Registers)
    requires |block| == 64 && HashIs(start, 0x85e655d6, 0x417a1795, 0x3363376a, 0x624cde5c, 0x76e09589,
                                            0xcac5f811, 0xcc4b32c1, 0xf20e533a)
    requires FourWords(block, 0, 0x00000000, 0x00000000, 0x00000000, 0x00000000)
    requires FourWords(block, 4, 0x00000000, 0x00000000, 0x00000000, 0x00000000)
    ensures Reaches(block, start, 8, 0xbf9a93a0, 0x89bba3f1, 0x3eeb6c06, 0x185a5d79, 0x059abdd1, 0x0a34df03, 0xfe20cda6,
                   0x8dff3001)
  {
    Keys0();
    Keys4();
    SecondRounds0(block, start, 0);
  }

  lemma SecondBlock(block: Bytes, start: Registers)
    requires |Pad(Example())| == 128 && block == Pad(Example())[64..128]
    requires HashIs(start, 0x85e655d6, 0x417a1795, 0x3363376a, 0x624cde5c, 0x76e09589, 0xcac5f811, 0xcc4b32c1,
                   0xf20e533a)
    ensures |block| == 64
    ensures Reaches(block, start, 64, 0x9ea7148b, 0x908c2123, 0xb25cef29, 0xa9f181dd, 0x2c5c4ed0, 0x9a392956, 0x2aa1bb13,
                   0x27ccb387)
  {
    SecondSchedule(block);
    SecondEight(block, start);
    SecondRounds8(block, start);
    SecondRounds24(block, start);
    SecondRounds40(block, start);
    SecondRounds56(block, start);
  }

  lemma SecondHash(block: Bytes, start: Registers)
    requires |Pad(Example())| == 128 && block == Pad(Example())[64..128]
    requires HashIs(start, 0x85e655d6, 0x417a1795, 0x3363376a, 0x624cde5c, 0x76e09589, 0xcac5f811, 0xcc4b32c1,
                   0xf20e533a)
    ensures |block| == 64
    ensures HashIs(Compress(MOD32, start, block), 0x248d6a61, 0xd20638b8, 0xe5c02693, 0x0c3e6039, 0xa33ce459, 0x64ff2167, 0xf6ecedd4,
                   0x19db06c1)
  {
    SecondBlock(block, start);
    Sum(0x85e655d6, 0x9ea7148b, 0x248d6a61);
    Sum(0x417a1795, 0x908c2123, 0xd20638b8);
    Sum(0x3363376a, 0xb25cef29, 0xe5c02693);
    Sum(0x624cde5c, 0xa9f181dd, 0x0c3e6039);
    Sum(0x76e09589, 0x2c5c4ed0, 0xa33ce459);
    Sum(0xcac5f811, 0x9a392956, 0x64ff2167);
    Sum(0xcc4b32c1, 0x2aa1bb13, 0xf6ecedd4);
    Sum(0xf20e533a, 0x27ccb387, 0x19db06c1);
  }

  lemma DigestWord(v: bv32, b0: nat, b1: nat, b2: nat, b3: nat)
    requires Number(v) == 0x100_0000 * b0 + 0x1_0000 * b1 + 0x100 * b2 + b3 && b0 < 256 && b1 < 256 && b2 < 256 && b3 < 256
    ensures WordBytes(MOD32.value(V(v))) == [b0, b1, b2, b3]
  {
    NumberIs(v, Number(v));
    BytesOfNumber(Number(v), b0, b1, b2, b3);
  }

  lemma BytesOfNumber(n: nat, b0: nat, b1: nat, b2: nat, b3: nat)
    requires n == 0x100_0000 * b0 + 0x1_0000 * b1 + 0x100 * b2 + b3 && b0 < 256 && b1 < 256 && b2 < 256 && b3 < 256
    ensures WordBytes(n) == [b0, b1, b2, b3]
  {
    assert n / 0x100_0000 == b0;
    assert n / 0x1_0000 == 0x100 * b0 + b1;
    assert n / 0x100 == 0x1_0000 * b0 + 0x100 * b1 + b2;
  }

  lemma DigestOfHash(r: Registers)
    requires HashIs(r, 0x248d6a61, 0xd20638b8, 0xe5c02693, 0x0c3e6039, 0xa33ce459, 0x64ff2167, 0xf6ecedd4,
                   0x19db06c1)
    ensures Digest(MOD32, r)
      == [0x24, 0x8d, 0x6a, 0x61] + [0xd2, 0x06, 0x38, 0xb8] + [0xe5, 0xc0, 0x26, 0x93] + [0x0c, 0x3e, 0x60, 0x39]
       + [0xa3, 0x3c, 0xe4, 0x59] + [0x64, 0xff, 0x21, 0x67] + [0xf6, 0xec, 0xed, 0xd4] + [0x19, 0xdb, 0x06, 0xc1]
  {
    DigestWord(0x248d6a61, 0x24, 0x8d, 0x6a, 0x61);
    DigestWord(0xd20638b8, 0xd2, 0x06, 0x38, 0xb8);
    DigestWord(0xe5c02693, 0xe5, 0xc0, 0x26, 0x93);
    DigestWord(0x0c3e6039, 0x0c, 0x3e, 0x60, 0x39);
    DigestWord(0xa33ce459, 0xa3, 0x3c, 0xe4, 0x59);
    DigestWord(0x64ff2167, 0x64, 0xff, 0x21, 0x67);
    DigestWord(0xf6ecedd4, 0xf6, 0xec, 0xed, 0xd4);
    DigestWord(0x19db06c1, 0x19, 0xdb, 0x06, 0xc1);
  }

  lemma HashOfExample(padded: Bytes)
    requires padded == Pad(Example())
    ensures |padded| == 128 && HashIs(HashBlocks(MOD32, padded, 2), 0x248d6a61, 0xd20638b8, 0xe5c02693, 0x0c3e6039, 0xa33ce459, 0x64ff2167, 0xf6ecedd4,
                   0x19db06c1)
  {
    PaddedEnds();
    InitialIs();
    NoBlocks(MOD32, padded);
    FirstHash(padded[0..64], HashBlocks(MOD32, padded, 0));
    SecondHash(padded[64..128], HashBlocks(MOD32, padded, 1));
  }

  /** The digest of the example, as published. */
  lemma DigestOfExample()
    ensures SHA256(Example())
      == [0x24, 0x8d, 0x6a, 0x61] + [0xd2, 0x06, 0x38, 0xb8] + [0xe5, 0xc0, 0x26, 0x93] + [0x0c, 0x3e, 0x60, 0x39]
       + [0xa3, 0x3c, 0xe4, 0x59] + [0x64, 0xff, 0x21, 0x67] + [0xf6, 0xec, 0xed, 0xd4] + [0x19, 0xdb, 0x06, 0xc1]
  {
    var padded := Pad(Example());
    HashOfExample(padded);
    DigestOfHash(HashBlocks(MOD32, padded, 2));
  }
}
