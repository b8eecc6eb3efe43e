/**
 Fractional ranks: strings in code-unit order with a rank strictly between any two.
 The theorems about pages hold for every lawful rank library; MIDPOINTS is one.
 */
module ZRank {
  import opened CodeUnits
  import opened Wrappers

  /** Negative, zero or positive as the left string is below, equal to or above the right one. */
  method CompareCodeUnitStrings(left: Text, right: Text) returns (order: int)
    ensures order < 0 <==> Less(left, right)
    ensures order == 0 <==> left == right
    ensures order > 0 <==> Less(right, left)
  {
    LessIsTotal(left, right);
    var sharedLength := if |left| <= |right| then |left| else |right|;
    for index := 0 to sharedLength
      invariant left[..index] == right[..index]
    {
      LessAfterPrefix(left[..index], left[index..], right[index..]);
      LessAfterPrefix(left[..index], right[index..], left[index..]);
      assert left[..index] + left[index..] == left && right[..index] + right[index..] == right;
      var difference := left[index] as int - right[index] as int;
      if difference != 0 {
        return if difference < 0 then -1 else 1;
      }
    }
    LessAfterPrefix(left[..sharedLength], left[sharedLength..], right[sharedLength..]);
    LessAfterPrefix(left[..sharedLength], right[sharedLength..], left[sharedLength..]);
    assert left[..sharedLength] + left[sharedLength..] == left && right[..sharedLength] + right[sharedLength..] == right;
    return if |left| == |right| then 0 else if |left| < |right| then -1 else 1;
  }

  // ----- rank libraries

  /** `between(lower, upper, n)`: n ranks in increasing order, strictly between the bounds. */
  datatype RankLibrary = RankLibrary(valid: Text -> bool, between: (Option<Text>, Option<Text>, nat) -> seq<Text>)

  predicate Above(rank: Text, lower: Option<Text>) {
    lower.None? || Less(lower.value, rank)
  }

  predicate Under(rank: Text, upper: Option<Text>) {
    upper.None? || Less(rank, upper.value)
  }

  predicate Increasing(ranks: seq<Text>) {
    forall i, j | 0 <= i < j < |ranks| :: Less(ranks[i], ranks[j])
  }

  /** Ranks that fit above the last of an increasing sequence continue it. */
  lemma IncreasingAppend(s: seq<Text>, t: seq<Text>)
    requires Increasing(s) && Increasing(t)
    requires s != [] ==> forall j | 0 <= j < |t| :: Less(s[|s| - 1], t[j])
    ensures Increasing(s + t)
  {
    forall i, j | 0 <= i < |s| && 0 <= j < |t|
      ensures Less(s[i], t[j])
    {
      if i < |s| - 1 {
        LessIsTransitive(s[i], s[|s| - 1], t[j]);
      }
    }
  }

  predicate Fits(lib: RankLibrary, ranks: seq<Text>, lower: Option<Text>, upper: Option<Text>) {
    && Increasing(ranks)
    && forall i | 0 <= i < |ranks| :: lib.valid(ranks[i]) && Above(ranks[i], lower) && Under(ranks[i], upper)
  }

  predicate Bounds(lib: RankLibrary, lower: Option<Text>, upper: Option<Text>) {
    && (lower.Some? ==> lib.valid(lower.value))
    && (upper.Some? ==> lib.valid(upper.value))
    && (lower.Some? && upper.Some? ==> Less(lower.value, upper.value))
  }

  /** Valid ranks are not empty, and ranks fit strictly between every pair of valid bounds, in any number. */
  ghost predicate Lawful(lib: RankLibrary) {
    && (forall rank | lib.valid(rank) :: rank != [])
    && forall lower, upper, n: nat | Bounds(lib, lower, upper) ::
      |lib.between(lower, upper, n)| == n && Fits(lib, lib.between(lower, upper, n), lower, upper)
  }

  // ----- a dense library

  predicate Digit(c: CodeUnit) {
    0x30 <= c <= 0x39 || 0x41 <= c <= 0x5a || 0x61 <= c <= 0x7a
  }

  /** Letters and digits, not ending in the least digit: below each such string there is another one. */
  predicate DenseRank(s: Text) {
    s != [] && (forall i | 0 <= i < |s| :: Digit(s[i])) && s[|s| - 1] != 0x30
  }

  function DigitIndex(c: CodeUnit): (n: int)
    requires Digit(c)
    ensures 0 <= n < 62 && IndexDigit(n) == c
  {
    if c <= 0x39 then c - 0x30 else if c <= 0x5a then c - 0x41 + 10 else c - 0x61 + 36
  }

  function IndexDigit(n: int): (c: CodeUnit)
    requires 0 <= n < 62
    ensures Digit(c)
  {
    if n < 10 then 0x30 + n else if n < 36 then 0x41 + n - 10 else 0x61 + n - 36
  }

  predicate Tail(s: Text) {
    s == [] || DenseRank(s)
  }

  function Rest(s: Text): Text {
    if s == [] then [] else s[1..]
  }

  function Head(s: Text): int
    requires Tail(s)
  {
    if s == [] then 0 else DigitIndex(s[0])
  }

  /** A rank above a (the empty string is the lower end). */
  function After(a: Text): (r: Text)
    requires Tail(a)
    ensures DenseRank(r) && Less(a, r)
    decreases |a|
  {
    if Head(a) < 61 then [IndexDigit((Head(a) + 63) / 2)]
    else [IndexDigit(61)] + After(a[1..])
  }

  lemma DropHead(a: Text, b: Text)
    requires Tail(a) && DenseRank(b) && Less(a, b) && Head(a) == DigitIndex(b[0])
    ensures Tail(Rest(a)) && DenseRank(b[1..]) && Less(Rest(a), b[1..])
    ensures a != [] ==> a[0] == b[0]
  {
  }

  lemma HeadsAscend(a: Text, b: Text)
    requires Tail(a) && DenseRank(b) && Less(a, b)
    ensures Head(a) <= DigitIndex(b[0])
  {
  }

  /** A rank strictly between a and b. */
  function Midpoint(a: Text, b: Text): (r: Text)
    requires Tail(a) && DenseRank(b) && Less(a, b)
    ensures DenseRank(r) && Less(a, r) && Less(r, b)
    decreases |b|
  {
    var low, high := Head(a), DigitIndex(b[0]);
    HeadsAscend(a, b);
    if low == high then
      DropHead(a, b);
      [b[0]] + Midpoint(Rest(a), b[1..])
    else if high - low > 1 then [IndexDigit((low + high) / 2)]
    else if |b| > 1 then [b[0]]
    else [IndexDigit(low)] + After(Rest(a))
  }

  function DenseBetween(lower: Option<Text>, upper: Option<Text>): Text {
    var a := if lower.Some? then lower.value else [];
    if upper.Some? then
      (if Tail(a) && DenseRank(upper.value) && Less(a, upper.value) then Midpoint(a, upper.value) else [])
    else
      (if Tail(a) then After(a) else [])
  }

  function DenseRanks(lower: Option<Text>, upper: Option<Text>, n: nat): (ranks: seq<Text>)
    ensures |ranks| == n
    decreases n
  {
    if n == 0 then []
    else
      var first := DenseBetween(lower, upper);
      [first] + DenseRanks(Some(first), upper, n - 1)
  }

  const MIDPOINTS := RankLibrary(s => DenseRank(s), (lower, upper, n: nat) => DenseRanks(lower, upper, n))

  lemma {:induction false} DenseRanksFit(lower: Option<Text>, upper: Option<Text>, n: nat)
    requires Bounds(MIDPOINTS, lower, upper)
    ensures Fits(MIDPOINTS, DenseRanks(lower, upper, n), lower, upper)
    decreases n
  {
    if n > 0 {
      var first := DenseBetween(lower, upper);
      assert DenseRank(first) && Above(first, lower) && Under(first, upper);
      var rest := DenseRanks(Some(first), upper, n - 1);
      DenseRanksFit(Some(first), upper, n - 1);
      forall i | 0 <= i < |rest|
        ensures Above(rest[i], lower)
      {
        if lower.Some? {
          LessIsTransitive(lower.value, first, rest[i]);
        }
      }
    }
  }

  /** The dense library keeps the law on all valid bounds, so the law can be met. */
  lemma MidpointsAreLawful()
    ensures Lawful(MIDPOINTS)
  {
    forall lower, upper, n: nat | Bounds(MIDPOINTS, lower, upper)
      ensures |MIDPOINTS.between(lower, upper, n)| == n
      ensures Fits(MIDPOINTS, MIDPOINTS.between(lower, upper, n), lower, upper)
    {
      DenseRanksFit(lower, upper, n);
    }
  }
}
