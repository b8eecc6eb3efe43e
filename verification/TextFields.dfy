/**
 Text fields of frames as the strings of the program, which are sequences of UTF-16 code units: what
 encoding them as UTF-8 and decoding that makes of them.
 */
module TextFields {
  import opened BoardFrames
  import opened BoardRoundTrip
  import opened CodeUnits
  import opened Leb128
  import opened Utf8Text
  import opened Wrappers

  // ----- code points

  predicate Surrogate(c: int) {
    0xd800 <= c <= 0xdfff
  }

  type CodePoint = p: int | 0 <= p < 0x11_0000 && !Surrogate(p) witness 0

  const REPLACEMENT: CodePoint := 0xfffd

  const MARK: CodePoint := 0xfeff

  function PointBytes(p: CodePoint): (s: Bytes)
    ensures s != []
  {
    if p < 0x80 then [p]
    else if p < 0x800 then [0xc0 + p / 0x40, 0x80 + p % 0x40]
    else if p < 0x1_0000 then [0xe0 + p / 0x1000, 0x80 + p / 0x40 % 0x40, 0x80 + p % 0x40]
    else [0xf0 + p / 0x4_0000, 0x80 + p / 0x1000 % 0x40, 0x80 + p / 0x40 % 0x40, 0x80 + p % 0x40]
  }

  function Above(b: int, base: int): int {
    b - base
  }

  /** The number in the well-formed character at the start of s. */
  function PointAt(s: Bytes): int
    requires CharLength(s) > 0
  {
    var n := CharLength(s);
    if n == 1 then s[0]
    else if n == 2 then Above(s[0], 0xc0) * 0x40 + Above(s[1], 0x80)
    else if n == 3 then Above(s[0], 0xe0) * 0x1000 + Above(s[1], 0x80) * 0x40 + Above(s[2], 0x80)
    else Above(s[0], 0xf0) * 0x4_0000 + Above(s[1], 0x80) * 0x1000 + Above(s[2], 0x80) * 0x40 + Above(s[3], 0x80)
  }

  lemma DigitsOfPoint(p: CodePoint, a: int, b: int, c: int, d: int)
    requires a == p / 0x4_0000 && b == p / 0x1000 % 0x40 && c == p / 0x40 % 0x40 && d == p % 0x40
    ensures 0 <= a <= 4 && 0 <= b < 0x40 && 0 <= c < 0x40 && 0 <= d < 0x40 && p == a * 0x4_0000 + b * 0x1000 + c * 0x40 + d
    ensures p < 0x4_0000 ==> p / 0x1000 == b
    ensures p < 0x1000 ==> p / 0x40 == c
  {
    var q, r := p / 0x40, p / 0x1000;
    assert p == q * 0x40 + d;
    assert r == q / 0x40 && q == r * 0x40 + c;
    assert a == r / 0x40 && r == a * 0x40 + b;
  }

  lemma ThreeBytes(p: CodePoint, b: nat, c: nat, d: nat, s: Bytes)
    requires 0x800 <= p < 0x1_0000 && p == b * 0x1000 + c * 0x40 + d && c < 0x40 && d < 0x40
    requires |s| >= 3 && s[0] == 0xe0 + b && s[1] == 0x80 + c && s[2] == 0x80 + d
    ensures CharLength(s) == 3 && PointAt(s) == p
  {
    assert b == 0 ==> c >= 0x20;
    assert !Surrogate(p);
    assert b == 0xd ==> c < 0x20;
  }

  lemma BytesAreACharacter(p: CodePoint, tail: Bytes)
    ensures CharLength(PointBytes(p) + tail) == |PointBytes(p)| && PointAt(PointBytes(p) + tail) == p
  {
    var a, b, c, d := p / 0x4_0000, p / 0x1000 % 0x40, p / 0x40 % 0x40, p % 0x40;
    DigitsOfPoint(p, a, b, c, d);
    if p < 0x80 {
    } else if p < 0x800 {
      assert PointBytes(p) == [0xc0 + c, 0x80 + d];
    } else if p < 0x1_0000 {
      ThreeBytes(p, b, c, d, PointBytes(p) + tail);
    } else {
      assert PointBytes(p) == [0xf0 + a, 0x80 + b, 0x80 + c, 0x80 + d];
    }
  }

  lemma PointsAreInRange(s: Bytes)
    requires CharLength(s) > 0
    ensures 0 <= PointAt(s) < 0x11_0000 && !Surrogate(PointAt(s))
  {
  }

  // ----- encoding and decoding texts

  function PairPoint(high: CodeUnit, low: CodeUnit): CodePoint
    requires High(high) && Low(low)
  {
    0x1_0000 + (high - 0xd800) * 0x400 + (low - 0xdc00)
  }

  function Points(t: Text): seq<CodePoint>
    decreases |t|
  {
    if t == [] then []
    else if StartsPair(t) then [PairPoint(t[0], t[1])] + Points(t[2..])
    else [if Surrogate(t[0]) then REPLACEMENT else t[0]] + Points(t[1..])
  }

  function Utf8Of(points: seq<CodePoint>): Bytes {
    if points == [] then [] else PointBytes(points[0]) + Utf8Of(points[1..])
  }

  function Units(p: CodePoint): Text {
    if p < 0x1_0000 then [p] else [0xd800 + (p - 0x1_0000) / 0x400, 0xdc00 + (p - 0x1_0000) % 0x400]
  }

  /** What the text encoder writes; a lone surrogate is written as U+FFFD. */
  function EncodeText(t: Text): Bytes {
    Utf8Of(Points(t))
  }

  /** What the text decoder reads. */
  function DecodeText(s: Utf8): Text
    decreases |s|
  {
    if s == [] then []
    else
      PointsAreInRange(s);
      Units(PointAt(s)) + DecodeText(s[CharLength(s)..])
  }

  /** The text with each lone surrogate replaced. */
  function Repaired(t: Text): Text
    decreases |t|
  {
    if t == [] then []
    else if StartsPair(t) then t[..2] + Repaired(t[2..])
    else [if Surrogate(t[0]) then REPLACEMENT else t[0]] + Repaired(t[1..])
  }

  predicate HasLoneSurrogate(t: Text)
    decreases |t|
  {
    t != [] && if StartsPair(t) then HasLoneSurrogate(t[2..]) else Surrogate(t[0]) || HasLoneSurrogate(t[1..])
  }

  lemma {:induction false} EncodedPointsAreValid(points: seq<CodePoint>)
    ensures ValidUtf8(Utf8Of(points))
    decreases |points|
  {
    if points != [] {
      var tail := Utf8Of(points[1..]);
      BytesAreACharacter(points[0], tail);
      EncodedPointsAreValid(points[1..]);
      assert (PointBytes(points[0]) + tail)[|PointBytes(points[0])|..] == tail;
    }
  }

  function UnitsOf(points: seq<CodePoint>): Text {
    if points == [] then [] else Units(points[0]) + UnitsOf(points[1..])
  }

  lemma {:induction false} DecodeEncodedPoints(points: seq<CodePoint>)
    ensures ValidUtf8(Utf8Of(points)) && DecodeText(Utf8Of(points)) == UnitsOf(points)
    decreases |points|
  {
    EncodedPointsAreValid(points);
    if points != [] {
      var tail := Utf8Of(points[1..]);
      BytesAreACharacter(points[0], tail);
      DecodeEncodedPoints(points[1..]);
      assert (PointBytes(points[0]) + tail)[|PointBytes(points[0])|..] == tail;
    }
  }

  lemma PairOfUnits(high: CodeUnit, low: CodeUnit)
    requires High(high) && Low(low)
    ensures Units(PairPoint(high, low)) == [high, low]
  {
  }

  lemma {:induction false} UnitsOfPoints(t: Text)
    ensures UnitsOf(Points(t)) == Repaired(t)
    decreases |t|
  {
    if t != [] {
      if StartsPair(t) {
        PairOfUnits(t[0], t[1]);
        UnitsOfPoints(t[2..]);
        assert t[..2] == [t[0], t[1]];
      } else {
        UnitsOfPoints(t[1..]);
      }
    }
  }

  /** Decoding what was encoded gives the text back, with its lone surrogates replaced. */
  lemma DecodeUndoesEncodeText(t: Text)
    ensures ValidUtf8(EncodeText(t)) && DecodeText(EncodeText(t)) == Repaired(t)
  {
    DecodeEncodedPoints(Points(t));
    UnitsOfPoints(t);
  }

  lemma DigitsAre(p: int, a: int, b: int, c: int, d: int)
    requires 0 <= b < 0x40 && 0 <= c < 0x40 && 0 <= d < 0x40 && p == a * 0x4_0000 + b * 0x1000 + c * 0x40 + d
    ensures p / 0x4_0000 == a && p / 0x1000 == a * 0x40 + b && p / 0x40 == a * 0x1000 + b * 0x40 + c && p % 0x40 == d
    ensures p / 0x1000 % 0x40 == b && p / 0x40 % 0x40 == c
  {
  }

  lemma ShortCharacter(s: Bytes)
    requires 0 < CharLength(s) <= 2
    ensures 0 <= PointAt(s) < 0x800 && PointBytes(PointAt(s)) == s[..CharLength(s)]
  {
    if CharLength(s) == 2 {
      DigitsAre(PointAt(s), 0, 0, Above(s[0], 0xc0), Above(s[1], 0x80));
      assert s[..2] == [s[0], s[1]];
    }
  }

  lemma ThreeByteCharacter(s: Bytes)
    requires CharLength(s) == 3
    ensures 0x800 <= PointAt(s) < 0x1_0000 && !Surrogate(PointAt(s)) && PointBytes(PointAt(s)) == s[..3]
  {
    DigitsAre(PointAt(s), 0, Above(s[0], 0xe0), Above(s[1], 0x80), Above(s[2], 0x80));
    PointsAreInRange(s);
    assert s[..3] == [s[0], s[1], s[2]];
  }

  lemma FourByteCharacter(s: Bytes)
    requires CharLength(s) == 4
    ensures 0x1_0000 <= PointAt(s) < 0x11_0000 && PointBytes(PointAt(s)) == s[..4]
  {
    DigitsAre(PointAt(s), Above(s[0], 0xf0), Above(s[1], 0x80), Above(s[2], 0x80), Above(s[3], 0x80));
    PointsAreInRange(s);
    assert s[..4] == [s[0], s[1], s[2], s[3]];
  }

  /** The bytes of a character are the ones its number is written with. */
  lemma BytesOfCharacter(s: Bytes)
    requires CharLength(s) > 0
    ensures 0 <= PointAt(s) < 0x11_0000 && !Surrogate(PointAt(s)) && PointBytes(PointAt(s)) == s[..CharLength(s)]
  {
    if CharLength(s) == 3 {
      ThreeByteCharacter(s);
    } else if CharLength(s) == 4 {
      FourByteCharacter(s);
    } else {
      ShortCharacter(s);
    }
  }

  lemma PointsOfUnits(p: CodePoint, rest: Text)
    ensures Points(Units(p) + rest) == [p] + Points(rest)
  {
    var t := Units(p) + rest;
    if p < 0x1_0000 {
      assert !Surrogate(p);
      assert t[0] == p && t[1..] == rest && !StartsPair(t);
    } else {
      assert t[0] == Units(p)[0] && t[1] == Units(p)[1] && t[2..] == rest;
      var q, r := (p - 0x1_0000) / 0x400, (p - 0x1_0000) % 0x400;
      assert p - 0x1_0000 == q * 0x400 + r && 0 <= q < 0x400;
      assert StartsPair(t) && PairPoint(t[0], t[1]) == p;
    }
  }

  lemma EncodeMore(p: CodePoint, rest: Text, tail: Bytes)
    requires EncodeText(rest) == tail
    ensures EncodeText(Units(p) + rest) == PointBytes(p) + tail
  {
    PointsOfUnits(p, rest);
    assert ([p] + Points(rest))[1..] == Points(rest);
  }

  /** Encoding what was decoded gives the bytes back: well-formed UTF-8 is what the encoder writes, and nothing else. */
  lemma {:induction false} EncodeUndoesDecodeText(s: Utf8)
    ensures EncodeText(DecodeText(s)) == s
    decreases |s|
  {
    if s != [] {
      var n := CharLength(s);
      BytesOfCharacter(s);
      EncodeUndoesDecodeText(s[n..]);
      EncodeMore(PointAt(s), DecodeText(s[n..]), s[n..]);
      assert s == s[..n] + s[n..];
    }
  }

  /** The first and the last number of each length, and a lone surrogate. */
  lemma Utf8Examples()
    ensures PointBytes(0x7f) == [0x7f] && PointBytes(0x80) == [0xc2, 0x80] && PointBytes(0x7ff) == [0xdf, 0xbf]
    ensures PointBytes(0x800) == [0xe0, 0xa0, 0x80] && PointBytes(0xffff) == [0xef, 0xbf, 0xbf]
    ensures PointBytes(0x1_0000) == [0xf0, 0x90, 0x80, 0x80] && PointBytes(0x10_ffff) == [0xf4, 0x8f, 0xbf, 0xbf]
    ensures PointBytes(REPLACEMENT) == [0xef, 0xbf, 0xbd] && PairPoint(0xd83d, 0xde00) == 0x1_f600
  {
  }

  lemma {:induction false} RepairedIff(t: Text)
    ensures |Repaired(t)| == |t| && (Repaired(t) == t <==> !HasLoneSurrogate(t))
    decreases |t|
  {
    if t != [] {
      if StartsPair(t) {
        RepairedIff(t[2..]);
        assert t == t[..2] + t[2..] && Repaired(t)[2..] == Repaired(t[2..]);
      } else {
        RepairedIff(t[1..]);
        assert t == [t[0]] + t[1..] && Repaired(t)[1..] == Repaired(t[1..]);
      }
    }
  }

  // ----- the mark at the start

  predicate StartsWithMark(t: Text) {
    t != [] && t[0] == MARK
  }

  lemma MarkBytes(p: CodePoint, tail: Bytes)
    ensures StartsWithBom(PointBytes(p) + tail) <==> p == MARK
    ensures PointBytes(MARK) == BOM
  {
    var s := PointBytes(p) + tail;
    assert PointBytes(MARK) == BOM;
    BytesAreACharacter(p, tail);
    if StartsWithBom(s) {
      assert s[..3][0] == 0xef && s[..3][1] == 0xbb && s[..3][2] == 0xbf;
    }
    if p == MARK {
      assert s[..3] == PointBytes(p);
    }
  }

  lemma EncodedMark(t: Text)
    ensures ValidUtf8(EncodeText(t)) && (StartsWithBom(EncodeText(t)) <==> StartsWithMark(t))
    ensures StartsWithMark(t) ==> DropBom(EncodeText(t)) == EncodeText(t[1..])
  {
    DecodeUndoesEncodeText(t);
    if t != [] {
      MarkBytes(Points(t)[0], Utf8Of(Points(t)[1..]));
    }
  }

  /** What arrives of a text is the text exactly when it has no lone surrogate and no mark at its start. */
  lemma TextArrivesIff(t: Text)
    ensures ValidUtf8(EncodeText(t))
    ensures DecodeText(DropBom(EncodeText(t))) == t <==> !HasLoneSurrogate(t) && !StartsWithMark(t)
  {
    EncodedMark(t);
    RepairedIff(t);
    if StartsWithMark(t) {
      DecodeUndoesEncodeText(t[1..]);
      RepairedIff(t[1..]);
    } else {
      DecodeUndoesEncodeText(t);
    }
  }

  // ----- control characters

  predicate HasControlUnits(t: Text) {
    exists i | 0 <= i < |t| :: t[i] < 0x20 || t[i] == 0x7f
  }

  lemma {:induction false} ControlsOfTail(a: Bytes, b: Bytes)
    ensures HasControls(a + b) <==> HasControls(a) || HasControls(b)
    decreases |a|
  {
    if a == [] {
      assert a + b == b;
    } else {
      assert (a + b)[1..] == a[1..] + b;
      ControlsOfTail(a[1..], b);
    }
  }

  lemma ControlsOfPoint(p: CodePoint)
    ensures HasControls(PointBytes(p)) <==> p < 0x20 || p == 0x7f
  {
    var s := PointBytes(p);
    if p < 0x80 {
      assert s[1..] == [];
    } else {
      HighBytesAreNoControls(s);
    }
  }

  lemma {:induction false} HighBytesAreNoControls(s: Bytes)
    requires forall i | 0 <= i < |s| :: s[i] >= 0x80
    ensures !HasControls(s)
    decreases |s|
  {
    if s != [] {
      HighBytesAreNoControls(s[1..]);
    }
  }

  /** Looking for control characters in the bytes is looking for them in the text. */
  lemma {:induction false} ControlsAgree(t: Text)
    ensures HasControls(EncodeText(t)) <==> HasControlUnits(t)
    decreases |t|
  {
    if t != [] {
      var p := Points(t)[0];
      var rest := if StartsPair(t) then t[2..] else t[1..];
      assert Points(t)[1..] == Points(rest);
      ControlsOfTail(PointBytes(p), EncodeText(rest));
      ControlsOfPoint(p);
      ControlsAgree(rest);
      FirstUnits(t, rest);
    }
  }

  lemma FirstUnits(t: Text, rest: Text)
    requires t != [] && rest == if StartsPair(t) then t[2..] else t[1..]
    ensures HasControlUnits(t) <==> t[0] < 0x20 || t[0] == 0x7f || HasControlUnits(rest)
  {
    var n := |t| - |rest|;
    assert forall i | 0 <= i < |rest| :: rest[i] == t[i + n];
    if HasControlUnits(t) {
      var i :| 0 <= i < |t| && (t[i] < 0x20 || t[i] == 0x7f);
      assert i >= n ==> rest[i - n] == t[i];
    }
    if HasControlUnits(rest) {
      var i :| 0 <= i < |rest| && (rest[i] < 0x20 || rest[i] == 0x7f);
      assert t[i + n] == rest[i];
    }
  }

  // ----- a frame with a text

  /**
     A frame whose text field is the string t: when its checks pass it is sent and received, and the string
     received is t if and only if t has no lone surrogate and no mark at its start.
   */
  lemma TextFieldArrivesIff(f: Frame, t: Text)
    requires TextOf(f).Some? && ValidUtf8(EncodeText(t)) && Check(WithText(f, EncodeText(t))).Ok?
    ensures var sent := Encode(WithText(f, EncodeText(t)));
      && sent.Ok? && Decode(sent.value).Ok? && TextOf(Decode(sent.value).value).Some?
      && (DecodeText(TextOf(Decode(sent.value).value).value) == t <==> !HasLoneSurrogate(t) && !StartsWithMark(t))
  {
    DecodeUndoesEncode(WithText(f, EncodeText(t)));
    TextArrivesIff(t);
  }

  /** A document key that is a lone surrogate passes every check and comes back as another one. */
  lemma SurrogateIsLost() returns (f: Frame)
    ensures Check(f).Ok? && TextOf(f) == Some(EncodeText([0xd800]))
    ensures Encode(f).Ok? && Decode(Encode(f).value) == Ok(f) && DecodeText(TextOf(f).value) == [0xfffd]
  {
    var t: Text := [0xd800];
    DecodeUndoesEncodeText(t);
    assert t[1..] == [] && Points(t) == [REPLACEMENT];
    assert Points(t)[1..] == [];
    assert EncodeText(t) == [0xef, 0xbf, 0xbd];
    ControlsAgree(t);
    f := SyncStep1(0, EncodeText(t), [0]);
    DecodeUndoesEncode(f);
    EncodedMark(t);
    assert Repaired(t) == [0xfffd];
  }
}
