/** Variable-length integers and length-prefixed bytes, written in front of a tail and read off a sequence. */
module Leb128 {
  import Numbers
  import opened Wrappers

  type Byte = n: int | 0 <= n < 0x100
  type Bytes = seq<Byte>

  const MAX_SAFE_INTEGER := Numbers.MAX_SAFE_INTEGER

  datatype ErrorCode =
    | InvalidMagic | UnsupportedVersion | UnsupportedMessage | InvalidVarUint | InvalidUtf8
    | InvalidField | InvalidLength | Truncated | TrailingData | FrameTooLarge

  datatype Parsed<+T> = Parsed(value: T, rest: Bytes)

  type Reading<+T> = Result<Parsed<T>, ErrorCode>

  // ----- the canonical form

  /** Seven bits a byte, the least significant first. */
  function Leb(v: nat): (bytes: Bytes)
    ensures bytes != []
  {
    if v < 0x80 then [v] else [0x80 + v % 0x80] + Leb(v / 0x80)
  }

  function PutVar(v: int, tail: Bytes): Bytes {
    if v >= 0 then Leb(v) + tail else tail
  }

  function PutVarBytes(bytes: Bytes, tail: Bytes): Bytes {
    PutVar(|bytes|, bytes + tail)
  }

  function Pow128(k: nat): nat {
    if k == 0 then 1 else 0x80 * Pow128(k - 1)
  }

  lemma {:induction false} LebIsShort(v: nat, k: nat)
    requires k > 0 && v < Pow128(k)
    ensures |Leb(v)| <= k
    decreases k
  {
    if v >= 0x80 {
      assert k > 1;
      LebIsShort(v / 0x80, k - 1);
    }
  }

  // ----- reading

  /** Bytes up to the first one below 0x80, unless the sum leaves the safe range before it. */
  function ReadDigits(s: Bytes, num: nat, mult: nat): Reading<nat>
    decreases |s|
  {
    if s == [] then Err(InvalidVarUint)
    else
      var sum := num + s[0] % 0x80 * mult;
      if s[0] < 0x80 then Ok(Parsed(sum, s[1..]))
      else if sum > MAX_SAFE_INTEGER then Err(InvalidVarUint)
      else ReadDigits(s[1..], sum, mult * 0x80)
  }

  /** Any digits in range that have the length of the canonical form. */
  function ReadVarUint(s: Bytes, min: int, max: int): Reading<int> {
    var p :- ReadDigits(s, 0, 1);
    if p.value > MAX_SAFE_INTEGER || p.value < min || p.value > max then Err(InvalidField)
    else if |s| - |p.rest| != |Leb(p.value)| then Err(InvalidVarUint)
    else Ok(p)
  }

  function ReadBytes(s: Bytes, length: nat): Reading<Bytes> {
    if length > |s| then Err(Truncated) else Ok(Parsed(s[..length], s[length..]))
  }

  function ReadVarBytes(s: Bytes, min: nat, max: int): Reading<Bytes> {
    var p :- ReadVarUint(s, min, max);
    if p.value < 0 then Err(InvalidField) else ReadBytes(p.rest, p.value)
  }

  lemma SplitDigit(v: nat, mult: nat)
    ensures v % 0x80 * mult + v / 0x80 * (mult * 0x80) == v * mult
  {
  }

  lemma {:induction false} DigitsOfLeb(v: nat, tail: Bytes, num: nat, mult: nat)
    requires num + v * mult <= MAX_SAFE_INTEGER
    ensures ReadDigits(Leb(v) + tail, num, mult) == Ok(Parsed(num + v * mult, tail))
    decreases v
  {
    var s := Leb(v) + tail;
    if v < 0x80 {
      assert s[1..] == tail;
    } else {
      SplitDigit(v, mult);
      var sum := num + v % 0x80 * mult;
      assert 0 <= v / 0x80 * (mult * 0x80);
      assert s[1..] == Leb(v / 0x80) + tail;
      DigitsOfLeb(v / 0x80, tail, sum, mult * 0x80);
    }
  }

  /** The digits read are some v; if there are as many as in v's canonical form, they are that form. */
  lemma {:induction false} DigitsAreLeb(s: Bytes, num: nat, mult: nat) returns (v: nat)
    requires ReadDigits(s, num, mult).Ok?
    ensures var p := ReadDigits(s, num, mult).value;
      && p.value == num + v * mult && |p.rest| < |s|
      && (|s| - |p.rest| == |Leb(v)| ==> s == Leb(v) + p.rest)
    decreases |s|
  {
    var digit := s[0] % 0x80;
    var p := ReadDigits(s, num, mult).value;
    if s[0] < 0x80 {
      v := s[0];
      assert s == [s[0]] + s[1..];
    } else {
      var high := DigitsAreLeb(s[1..], num + digit * mult, mult * 0x80);
      v := digit + high * 0x80;
      SplitDigit(v, mult);
      assert v / 0x80 == high && v % 0x80 == digit;
      if |s| - |p.rest| == |Leb(v)| {
        assert s == [s[0]] + s[1..];
      }
    }
  }

  lemma ReadPutVar(v: int, tail: Bytes, min: int, max: int)
    requires 0 <= v <= MAX_SAFE_INTEGER && min <= v <= max
    ensures ReadVarUint(PutVar(v, tail), min, max) == Ok(Parsed(v, tail))
  {
    DigitsOfLeb(v, tail, 0, 1);
  }

  /** The length check admits exactly the canonical form. */
  lemma PutReadVar(s: Bytes, min: int, max: int)
    requires ReadVarUint(s, min, max).Ok?
    ensures var p := ReadVarUint(s, min, max).value;
      min <= p.value <= max && 0 <= p.value <= MAX_SAFE_INTEGER && s == PutVar(p.value, p.rest)
  {
    var v := DigitsAreLeb(s, 0, 1);
  }

  lemma ReadPutBytes(bytes: Bytes, tail: Bytes)
    ensures ReadBytes(bytes + tail, |bytes|) == Ok(Parsed(bytes, tail))
  {
  }

  lemma ReadPutVarBytes(bytes: Bytes, tail: Bytes, min: nat, max: int)
    requires min <= |bytes| <= max <= MAX_SAFE_INTEGER
    ensures ReadVarBytes(PutVarBytes(bytes, tail), min, max) == Ok(Parsed(bytes, tail))
  {
    ReadPutVar(|bytes|, bytes + tail, min, max);
    ReadPutBytes(bytes, tail);
  }

  lemma PutReadVarBytes(s: Bytes, min: nat, max: int)
    requires ReadVarBytes(s, min, max).Ok?
    ensures var p := ReadVarBytes(s, min, max).value; min <= |p.value| <= max && s == PutVarBytes(p.value, p.rest)
  {
    PutReadVar(s, min, max);
    var p, length := ReadVarBytes(s, min, max).value, ReadVarUint(s, min, max).value;
    assert length.rest == p.value + p.rest;
  }
}
