/** Text as well-formed UTF-8 bytes, and the byte order mark that a text decoder drops. */
module Utf8Text {
  import opened Leb128

  predicate Continuation(b: Byte) {
    0x80 <= b <= 0xbf
  }

  /** The length of the well-formed character at the start of s, or 0. */
  function CharLength(s: Bytes): nat {
    if s == [] then 0
    else if s[0] < 0x80 then 1
    else if 0xc2 <= s[0] <= 0xdf && |s| >= 2 && Continuation(s[1]) then 2
    else if 0xe0 <= s[0] <= 0xef && |s| >= 3 && Continuation(s[1]) && Continuation(s[2])
         && (s[0] == 0xe0 ==> s[1] >= 0xa0) && (s[0] == 0xed ==> s[1] <= 0x9f) then 3
    else if 0xf0 <= s[0] <= 0xf4 && |s| >= 4 && Continuation(s[1]) && Continuation(s[2]) && Continuation(s[3])
         && (s[0] == 0xf0 ==> s[1] >= 0x90) && (s[0] == 0xf4 ==> s[1] <= 0x8f) then 4
    else 0
  }

  predicate ValidUtf8(s: Bytes)
    decreases |s|
  {
    s == [] || (CharLength(s) > 0 && ValidUtf8(s[CharLength(s)..]))
  }

  type Utf8 = s: Bytes | ValidUtf8(s) witness []

  const BOM: Bytes := [0xef, 0xbb, 0xbf]

  predicate StartsWithBom(s: Bytes) {
    |s| >= 3 && s[..3] == BOM
  }

  function DropBom(s: Utf8): Utf8 {
    if StartsWithBom(s) then
      assert CharLength(s) == 3;
      s[3..]
    else s
  }

  predicate HasControls(s: Bytes) {
    s != [] && (s[0] < 0x20 || s[0] == 0x7f || HasControls(s[1..]))
  }

  lemma BomIsNoControl(s: Utf8)
    ensures HasControls(DropBom(s)) <==> HasControls(s)
  {
    if StartsWithBom(s) {
      assert s[..3][0] == 0xef && s[..3][1] == 0xbb && s[..3][2] == 0xbf;
      assert s[1..][1..] == s[2..] && s[2..][1..] == s[3..];
      assert HasControls(s) == HasControls(s[1..]) && HasControls(s[1..]) == HasControls(s[2..]);
    }
  }
}
