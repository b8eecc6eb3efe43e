/**
 The stroke format: points on a grid of 1/64, stored as zigzag deltas. Coordinates are reals,
 so the rounding of the format is modelled and that of floating point is not.
 */
module Strokes {
  import opened Leb128
  import opened Wrappers

  const MAX_COORDINATE := 0x3fff_ffff
  const MAX_STROKE_POINTS := 1_000_000
  const STROKE_FORMAT_VERSION := 1
  const TWO_32 := 0x1_0000_0000

  datatype StrokePoint = StrokePoint(x: real, y: real, pressure: real)

  /** A point as it is stored: coordinates in 64ths, pressure in 255ths. */
  datatype GridPoint = GridPoint(x: int, y: int, pressure: Byte)

  datatype StrokeError = Empty | TooManyPoints | OutOfRange | InvalidData | UnsupportedFormat | InvalidVarint | TruncatedData | TrailingBytes

  datatype Scan<+T> = Scan(value: T, rest: Bytes)

  // ----- quantization

  function Round(v: real): int {
    (v + 0.5).Floor
  }

  function Clamp(v: real): real {
    if v < 0.0 then 0.0 else if v > 1.0 then 1.0 else v
  }

  function QuantizePressure(v: real): Byte {
    Round(Clamp(v) * 255.0)
  }

  function Quantize(p: StrokePoint): GridPoint {
    GridPoint(Round(p.x * 64.0), Round(p.y * 64.0), QuantizePressure(p.pressure))
  }

  predicate OnBoard(q: GridPoint) {
    -MAX_COORDINATE <= q.x <= MAX_COORDINATE && -MAX_COORDINATE <= q.y <= MAX_COORDINATE
  }

  function Restore(q: GridPoint): StrokePoint {
    StrokePoint(q.x as real / 64.0, q.y as real / 64.0, q.pressure as real / 255.0)
  }

  function Abs(v: real): real {
    if v < 0.0 then -v else v
  }

  /** Half a grid step in each coordinate, half a pressure step in the clamped pressure. */
  predicate Close(p: StrokePoint, r: StrokePoint) {
    Abs(p.x - r.x) <= 1.0 / 128.0 && Abs(p.y - r.y) <= 1.0 / 128.0 && Abs(Clamp(p.pressure) - r.pressure) <= 1.0 / 510.0
  }

  lemma RestoredIsClose(p: StrokePoint)
    ensures Close(p, Restore(Quantize(p)))
  {
  }

  lemma QuantizeRestores(q: GridPoint)
    ensures Quantize(Restore(q)) == q
  {
  }

  // ----- 32-bit zigzag

  function ToInt32(v: int): int {
    (v + 0x8000_0000) % TWO_32 - 0x8000_0000
  }

  function ToUint32(v: int): (u: int)
    ensures 0 <= u < TWO_32
  {
    v % TWO_32
  }

  /** The shift drops the top bit; the sign mask flips every bit of a negative number. */
  function ZigZagEncode(v: int): (u: int)
    ensures 0 <= u < TWO_32
  {
    var w := ToInt32(v);
    if w >= 0 then ToUint32(2 * w) else 0xffff_ffff - ToUint32(2 * w)
  }

  function ZigZagDecode(u: int): int {
    if u % 2 == 0 then u / 2 else -(u / 2) - 1
  }

  lemma WrapsOnce(v: int)
    requires -TWO_32 <= v < TWO_32
    ensures ToUint32(v) == if v < 0 then v + TWO_32 else v
  {
  }

  lemma ZigZagInverse(v: int)
    requires -0x8000_0000 <= v < 0x8000_0000
    ensures ZigZagDecode(ZigZagEncode(v)) == v
  {
    WrapsOnce(v + 0x8000_0000);
    WrapsOnce(2 * v);
  }

  /** The reason for the coordinate limit: no delta leaves the 32-bit range. */
  lemma DeltasFit(a: int, b: int)
    requires -MAX_COORDINATE <= a <= MAX_COORDINATE && -MAX_COORDINATE <= b <= MAX_COORDINATE
    ensures ZigZagDecode(ZigZagEncode(a - b)) == a - b
  {
    ZigZagInverse(a - b);
  }

  // ----- varints of at most five bytes

  /** The number in at most `left` groups of seven bits, the least significant first. */
  function Groups(s: Bytes, left: nat): Result<Scan<nat>, StrokeError>
    decreases left
  {
    if left == 0 then Err(InvalidVarint)
    else if s == [] then Err(TruncatedData)
    else if s[0] < 0x80 then Ok(Scan(s[0], s[1..]))
    else
      var high :- Groups(s[1..], left - 1);
      Ok(Scan(s[0] - 0x80 + 0x80 * high.value, high.rest))
  }

  /** Modulo 2^32: the shift of the fifth group keeps only four of its bits. */
  function ReadUint32(s: Bytes): (r: Result<Scan<int>, StrokeError>)
    ensures r.Ok? ==> 0 <= r.value.value < TWO_32
  {
    var number :- Groups(s, 5);
    Ok(Scan(ToUint32(number.value), number.rest))
  }

  lemma {:induction false} GroupsOfLeb(v: nat, tail: Bytes, left: nat)
    requires left > 0 && v < Pow128(left)
    ensures Groups(Leb(v) + tail, left) == Ok(Scan(v, tail))
    decreases left
  {
    var s := Leb(v) + tail;
    if v < 0x80 {
      assert s[1..] == tail;
    } else {
      assert s[1..] == Leb(v / 0x80) + tail;
      GroupsOfLeb(v / 0x80, tail, left - 1);
    }
  }

  // ----- the format as functions

  /** The deltas from the previous point and the pressure, in front of a tail. */
  function PutPoint(p: GridPoint, previous: GridPoint, tail: Bytes): Bytes {
    PutDelta(p.x, previous.x, PutDelta(p.y, previous.y, [p.pressure] + tail))
  }

  function PutDelta(a: int, b: int, tail: Bytes): Bytes {
    Leb(ZigZagEncode(a - b)) + tail
  }

  function PutMany(put: (GridPoint, GridPoint, Bytes) -> Bytes, points: seq<GridPoint>, previous: GridPoint): Bytes {
    if points == [] then [] else put(points[0], previous, PutMany(put, points[1..], points[0]))
  }

  const ORIGIN := GridPoint(0, 0, 0)

  function PutStroke(points: seq<GridPoint>): Bytes {
    [STROKE_FORMAT_VERSION] + (Leb(|points|) + PutMany(PutPoint, points, ORIGIN))
  }

  function QuantizeAll(points: seq<StrokePoint>): (grid: seq<GridPoint>)
    ensures |grid| == |points| && forall i | 0 <= i < |points| :: grid[i] == Quantize(points[i])
  {
    seq(|points|, i requires 0 <= i < |points| => Quantize(points[i]))
  }

  function RestoreAll(grid: seq<GridPoint>): (points: seq<StrokePoint>)
    ensures |points| == |grid| && forall i | 0 <= i < |grid| :: points[i] == Restore(grid[i])
  {
    seq(|grid|, i requires 0 <= i < |grid| => Restore(grid[i]))
  }

  predicate AllOnBoard(grid: seq<GridPoint>) {
    forall i | 0 <= i < |grid| :: OnBoard(grid[i])
  }

  function Encode(points: seq<StrokePoint>): Result<Bytes, StrokeError> {
    if points == [] then Err(Empty)
    else if |points| > MAX_STROKE_POINTS then Err(TooManyPoints)
    else if !AllOnBoard(QuantizeAll(points)) then Err(OutOfRange)
    else Ok(PutStroke(QuantizeAll(points)))
  }

  type Reader = (Bytes, GridPoint) -> Result<Scan<GridPoint>, StrokeError>

  function ReadPoint(s: Bytes, previous: GridPoint): Result<Scan<GridPoint>, StrokeError> {
    var x :- ReadDelta(s, previous.x);
    var y :- ReadDelta(x.rest, previous.y);
    if y.rest == [] then Err(TruncatedData) else Ok(Scan(GridPoint(x.value, y.value, y.rest[0]), y.rest[1..]))
  }

  function ReadDelta(s: Bytes, b: int): (r: Result<Scan<int>, StrokeError>)
    ensures r.Ok? ==> -0x8000_0000 <= r.value.value - b <= 0x8000_0000
  {
    var delta :- ReadUint32(s);
    Ok(Scan(b + ZigZagDecode(delta.value), delta.rest))
  }

  function ReadMany(read: Reader, s: Bytes, count: nat, previous: GridPoint): Result<Scan<seq<GridPoint>>, StrokeError>
    decreases count
  {
    if count == 0 then Ok(Scan([], s))
    else
      var p :- read(s, previous);
      var rest :- ReadMany(read, p.rest, count - 1, p.value);
      Ok(Scan([p.value] + rest.value, rest.rest))
  }

  /** The version and the number of points. */
  function ReadHeader(bytes: Bytes): (r: Result<Scan<nat>, StrokeError>)
    ensures r.Ok? ==> 0 < r.value.value <= MAX_STROKE_POINTS
  {
    if |bytes| < 2 then Err(InvalidData)
    else if bytes[0] != STROKE_FORMAT_VERSION then Err(UnsupportedFormat)
    else
      var count :- ReadUint32(bytes[1..]);
      if count.value <= 0 || count.value > MAX_STROKE_POINTS then Err(InvalidData) else Ok(Scan(count.value, count.rest))
  }

  function ReadStroke(bytes: Bytes): Result<seq<GridPoint>, StrokeError> {
    var count :- ReadHeader(bytes);
    var points :- ReadMany(ReadPoint, count.rest, count.value, ORIGIN);
    if points.rest != [] then Err(TrailingBytes) else Ok(points.value)
  }

  function Decode(bytes: Bytes): Result<seq<StrokePoint>, StrokeError> {
    var grid :- ReadStroke(bytes);
    Ok(RestoreAll(grid))
  }

  // ----- decode after encode

  lemma FiveGroupsSuffice()
    ensures Pow128(5) == 0x8_0000_0000
  {
  }

  lemma ReadLeb(v: nat, tail: Bytes)
    requires v < TWO_32
    ensures ReadUint32(Leb(v) + tail) == Ok(Scan(v, tail))
  {
    var s := Leb(v) + tail;
    assert Groups(s, 5) == Ok(Scan(v, tail)) by {
      FiveGroupsSuffice();
      GroupsOfLeb(v, tail, 5);
    }
    WrapsOnce(v);
  }

  lemma ReadPutDelta(a: int, b: int, tail: Bytes)
    requires -MAX_COORDINATE <= a <= MAX_COORDINATE && -MAX_COORDINATE <= b <= MAX_COORDINATE
    ensures ReadDelta(PutDelta(a, b, tail), b) == Ok(Scan(a, tail))
  {
    DeltasFit(a, b);
    ReadLeb(ZigZagEncode(a - b), tail);
  }

  lemma ReadPutPoint(p: GridPoint, previous: GridPoint, tail: Bytes)
    requires OnBoard(p) && OnBoard(previous)
    ensures ReadPoint(PutPoint(p, previous, tail), previous) == Ok(Scan(p, tail))
  {
    ReadPutDelta(p.y, previous.y, [p.pressure] + tail);
    ReadPutDelta(p.x, previous.x, PutDelta(p.y, previous.y, [p.pressure] + tail));
    assert ([p.pressure] + tail)[1..] == tail;
  }

  lemma {:induction false} ReadPutMany(read: Reader, put: (GridPoint, GridPoint, Bytes) -> Bytes, points: seq<GridPoint>, previous: GridPoint)
    requires forall p, q, tail | OnBoard(p) && OnBoard(q) :: read(put(p, q, tail), q) == Ok(Scan(p, tail))
    requires AllOnBoard(points) && OnBoard(previous)
    ensures ReadMany(read, PutMany(put, points, previous), |points|, previous) == Ok(Scan(points, []))
    decreases |points|
  {
    if points != [] {
      ReadPutMany(read, put, points[1..], points[0]);
      assert points == [points[0]] + points[1..];
    }
  }

  lemma ReadPutStroke(points: seq<GridPoint>)
    requires AllOnBoard(points) && 0 < |points| <= MAX_STROKE_POINTS
    ensures ReadStroke(PutStroke(points)) == Ok(points)
  {
    var bytes := PutStroke(points);
    assert bytes[1..] == Leb(|points|) + PutMany(PutPoint, points, ORIGIN);
    ReadLeb(|points|, PutMany(PutPoint, points, ORIGIN));
    forall p, q, tail | OnBoard(p) && OnBoard(q)
      ensures ReadPoint(PutPoint(p, q, tail), q) == Ok(Scan(p, tail))
    {
      ReadPutPoint(p, q, tail);
    }
    ReadPutMany(ReadPoint, PutPoint, points, ORIGIN);
  }

  /**
     Decoding an encoded stroke gives as many points, each within half a grid step of the
     original, and encoding those again gives the same bytes.
   */
  lemma StrokeRoundTrip(points: seq<StrokePoint>)
    requires Encode(points).Ok?
    ensures var decoded := Decode(Encode(points).value);
      && decoded.Ok? && |decoded.value| == |points|
      && (forall i | 0 <= i < |points| :: Close(points[i], decoded.value[i]))
      && Encode(decoded.value) == Encode(points)
  {
    var grid := QuantizeAll(points);
    ReadPutStroke(grid);
    var restored := RestoreAll(grid);
    forall i | 0 <= i < |points|
      ensures Close(points[i], restored[i]) && Quantize(restored[i]) == grid[i]
    {
      RestoredIsClose(points[i]);
      QuantizeRestores(grid[i]);
    }
    assert QuantizeAll(restored) == grid;
  }

  // ----- the grid on the wire

  /** The nearest multiple of 1 / scale, a half going up. */
  ghost predicate IsNearest(v: real, scale: real, r: real)
    requires scale > 0.0
  {
    && (exists n: int :: Multiple(n, scale) == r)
    && (forall k: int :: Abs(v - r) <= Abs(v - Multiple(k, scale)))
    && (r < v ==> forall k: int :: Multiple(k, scale) != r ==> Abs(v - r) < Abs(v - Multiple(k, scale)))
  }

  function Multiple(n: int, scale: real): real
    requires scale > 0.0
  {
    n as real / scale
  }

  lemma Distance(v: real, n: int, k: int)
    requires n == Round(v)
    ensures Abs(v - n as real) <= Abs(v - k as real)
    ensures n as real < v && k != n ==> Abs(v - n as real) < Abs(v - k as real)
  {
    var low, high := n as real - 0.5, n as real + 0.5;
    assert low <= v < high;
    if k < n {
      assert k as real <= n as real - 1.0;
    } else if k > n {
      assert k as real >= n as real + 1.0;
    }
  }

  lemma ScaledDistance(v: real, n: int, scale: real)
    requires scale == 64.0 || scale == 255.0
    ensures Abs(v - Multiple(n, scale)) * scale == Abs(v * scale - n as real)
  {
  }

  lemma RoundedIsNearest(v: real, scale: real)
    requires scale == 64.0 || scale == 255.0
    ensures IsNearest(v, scale, Multiple(Round(v * scale), scale))
  {
    var n := Round(v * scale);
    ScaledDistance(v, n, scale);
    forall k: int
      ensures Abs(v - Multiple(n, scale)) <= Abs(v - Multiple(k, scale))
      ensures Multiple(n, scale) < v && Multiple(k, scale) != Multiple(n, scale) ==>
                Abs(v - Multiple(n, scale)) < Abs(v - Multiple(k, scale))
    {
      ScaledDistance(v, k, scale);
      Distance(v * scale, n, k);
    }
  }

  lemma NearestX(p: StrokePoint, r: StrokePoint)
    requires r == Restore(Quantize(p))
    ensures IsNearest(p.x, 64.0, r.x)
  {
    RoundedIsNearest(p.x, 64.0);
    assert r.x == Multiple(Round(p.x * 64.0), 64.0);
  }

  lemma NearestY(p: StrokePoint, r: StrokePoint)
    requires r == Restore(Quantize(p))
    ensures IsNearest(p.y, 64.0, r.y)
  {
    RoundedIsNearest(p.y, 64.0);
    assert r.y == Multiple(Round(p.y * 64.0), 64.0);
  }

  lemma NearestPressure(p: StrokePoint, r: StrokePoint)
    requires r == Restore(Quantize(p))
    ensures IsNearest(Clamp(p.pressure), 255.0, r.pressure)
  {
    RoundedIsNearest(Clamp(p.pressure), 255.0);
    assert r.pressure == Multiple(Round(Clamp(p.pressure) * 255.0), 255.0);
  }

  /** What is decoded lies on the grid of 64ths, and of 255ths, at the nearest place. */
  lemma DecodedIsNearest(p: StrokePoint, r: StrokePoint)
    requires r == Restore(Quantize(p))
    ensures IsNearest(p.x, 64.0, r.x) && IsNearest(p.y, 64.0, r.y) && IsNearest(Clamp(p.pressure), 255.0, r.pressure)
  {
    NearestX(p, r);
    NearestY(p, r);
    NearestPressure(p, r);
  }

  /** Three grid points and their bytes: the version, the count, then two zigzag deltas and a pressure each. */
  lemma GoldenGrid(a: GridPoint, b: GridPoint, c: GridPoint)
    requires a == GridPoint(-784, 544, 64) && b == GridPoint(-752, 584, 204) && c == GridPoint(128008, -57632, 255)
    ensures PutStroke([a] + ([b] + ([c] + [])))
         == [1] + ([3] + ([0x9f, 0x0c] + ([0xc0, 0x08] + ([64] + ([0x40] + ([0x50] + ([204]
            + ([0xf0, 0xdb, 0x0f] + ([0xcf, 0x8d, 0x07] + ([255] + []))))))))))
  {
    Lebs();
    Deltas();
    MorePoints(a, ORIGIN, [b] + ([c] + []));
    MorePoints(b, a, [c] + []);
    MorePoints(c, b, []);
  }

  lemma MorePoints(p: GridPoint, previous: GridPoint, rest: seq<GridPoint>)
    ensures PutMany(PutPoint, [p] + rest, previous) == PutPoint(p, previous, PutMany(PutPoint, rest, p))
  {
    assert ([p] + rest)[1..] == rest;
  }

  lemma Deltas()
    ensures ZigZagEncode(-784) == 1567 && ZigZagEncode(544) == 1088 && ZigZagEncode(32) == 64 && ZigZagEncode(40) == 80
    ensures ZigZagEncode(128760) == 257520 && ZigZagEncode(-58216) == 116431
  {
  }

  lemma Lebs()
    ensures Leb(3) == [3] && Leb(64) == [0x40] && Leb(80) == [0x50]
    ensures Leb(1567) == [0x9f, 0x0c] && Leb(1088) == [0xc0, 0x08]
    ensures Leb(257520) == [0xf0, 0xdb, 0x0f] && Leb(116431) == [0xcf, 0x8d, 0x07]
  {
    assert Leb(1567) == [0x9f] + Leb(12) && Leb(1088) == [0xc0] + Leb(8);
    assert Leb(257520) == [0xf0] + Leb(2011) && Leb(2011) == [0xdb] + Leb(15);
    assert Leb(116431) == [0xcf] + Leb(909) && Leb(909) == [0x8d] + Leb(7);
  }

  predicate IsExample(points: seq<StrokePoint>) {
    && |points| == 3 && points[0] == StrokePoint(-12.25, 8.5, 0.25) && points[1] == StrokePoint(-11.75, 9.125, 0.8)
    && points[2] == StrokePoint(2000.125, -900.5, 1.0)
  }

  predicate IsDecodedExample(points: seq<StrokePoint>) {
    && |points| == 3 && points[0] == StrokePoint(-12.25, 8.5, 64.0 / 255.0)
    && points[1] == StrokePoint(-11.75, 9.125, 204.0 / 255.0) && points[2] == StrokePoint(2000.125, -900.5, 1.0)
  }

  const EXAMPLE_GRID: seq<GridPoint> :=
    [GridPoint(-784, 544, 64)] + ([GridPoint(-752, 584, 204)] + ([GridPoint(128008, -57632, 255)] + []))

  lemma ExampleGrid(points: seq<StrokePoint>, grid: seq<GridPoint>)
    requires IsExample(points) && grid == EXAMPLE_GRID
    ensures QuantizeAll(points) == grid
  {
    GoldenPoints(points, grid[0], grid[1], grid[2]);
  }

  lemma RestoredExample(grid: seq<GridPoint>)
    requires grid == EXAMPLE_GRID
    ensures |grid| == 3 && AllOnBoard(grid) && IsDecodedExample(RestoreAll(grid))
  {
  }

  /** The stroke of src/board/core/strokes.test.ts, encoded and decoded. */
  lemma GoldenStroke(points: seq<StrokePoint>)
    requires IsExample(points)
    ensures Encode(points)
         == Ok([1] + ([3] + ([0x9f, 0x0c] + ([0xc0, 0x08] + ([64] + ([0x40] + ([0x50] + ([204]
               + ([0xf0, 0xdb, 0x0f] + ([0xcf, 0x8d, 0x07] + ([255] + [])))))))))))
    ensures Decode(Encode(points).value).Ok? && IsDecodedExample(Decode(Encode(points).value).value)
  {
    var grid := EXAMPLE_GRID;
    ExampleGrid(points, grid);
    GoldenGrid(grid[0], grid[1], grid[2]);
    RestoredExample(grid);
    ReadPutStroke(grid);
  }

  lemma GoldenPoints(points: seq<StrokePoint>, a: GridPoint, b: GridPoint, c: GridPoint)
    requires |points| == 3 && points[0] == StrokePoint(-12.25, 8.5, 0.25)
    requires points[1] == StrokePoint(-11.75, 9.125, 0.8) && points[2] == StrokePoint(2000.125, -900.5, 1.0)
    requires a == GridPoint(-784, 544, 64) && b == GridPoint(-752, 584, 204) && c == GridPoint(128008, -57632, 255)
    ensures Quantize(points[0]) == a && Quantize(points[1]) == b && Quantize(points[2]) == c
  {
    assert Round(63.75) == 64 && Round(204.0) == 204 && Round(255.0) == 255;
  }

  // ----- whatever the bytes

  predicate Near(p: GridPoint, q: GridPoint) {
    -0x8000_0000 <= p.x - q.x <= 0x8000_0000 && -0x8000_0000 <= p.y - q.y <= 0x8000_0000
  }

  lemma PointIsNear(s: Bytes, previous: GridPoint)
    requires ReadPoint(s, previous).Ok?
    ensures Near(ReadPoint(s, previous).value.value, previous)
  {
  }

  predicate Within(q: GridPoint, steps: int) {
    && -0x8000_0000 * steps <= q.x <= 0x8000_0000 * steps
    && -0x8000_0000 * steps <= q.y <= 0x8000_0000 * steps
  }

  lemma {:induction false} SumsStaySmall(read: Reader, s: Bytes, count: nat, previous: GridPoint, done: nat)
    requires forall t, q | read(t, q).Ok? :: Near(read(t, q).value.value, q)
    requires ReadMany(read, s, count, previous).Ok? && Within(previous, done)
    ensures var points := ReadMany(read, s, count, previous).value.value;
      |points| == count && forall i | 0 <= i < count :: Within(points[i], done + i + 1)
    decreases count
  {
    if count > 0 {
      var p := read(s, previous).value;
      SumsStaySmall(read, p.rest, count - 1, p.value, done + 1);
      var points := ReadMany(read, s, count, previous).value.value;
      var rest := ReadMany(read, p.rest, count - 1, p.value).value.value;
      forall i | 0 <= i < count
        ensures Within(points[i], done + i + 1)
      {
        if i > 0 {
          assert Within(rest[i - 1], (done + 1) + (i - 1) + 1);
        }
      }
    }
  }

  predicate IsExact(v: int) {
    -MAX_SAFE_INTEGER <= v <= MAX_SAFE_INTEGER
  }

  function LastOf(points: seq<GridPoint>): GridPoint {
    if points == [] then ORIGIN else points[|points| - 1]
  }

  /**
     However hostile the bytes, every running sum of deltas is an exact integer below 2^53: those of all the
     points read, k of them, and those of the next one, even if reading it fails after its x or after its y.
   */
  lemma DecodedSumsAreExact(bytes: Bytes, k: nat)
    requires ReadHeader(bytes).Ok? && k <= ReadHeader(bytes).value.value
    requires ReadMany(ReadPoint, ReadHeader(bytes).value.rest, k, ORIGIN).Ok?
    ensures var read := ReadMany(ReadPoint, ReadHeader(bytes).value.rest, k, ORIGIN).value;
      var x := ReadDelta(read.rest, LastOf(read.value).x);
      && |read.value| == k
      && (forall i | 0 <= i < k :: IsExact(read.value[i].x) && IsExact(read.value[i].y))
      && (k < ReadHeader(bytes).value.value && x.Ok? ==>
            var y := ReadDelta(x.value.rest, LastOf(read.value).y);
            IsExact(x.value.value) && (y.Ok? ==> IsExact(y.value.value)))
  {
    forall t, q | ReadPoint(t, q).Ok?
      ensures Near(ReadPoint(t, q).value.value, q)
    {
      PointIsNear(t, q);
    }
    SumsStaySmall(ReadPoint, ReadHeader(bytes).value.rest, k, ORIGIN, 0);
    var grid := ReadMany(ReadPoint, ReadHeader(bytes).value.rest, k, ORIGIN).value.value;
    forall i | 0 <= i < k
      ensures Within(grid[i], k) && IsExact(grid[i].x) && IsExact(grid[i].y)
    {
      assert Within(grid[i], 0 + i + 1);
    }
  }

  // ----- the encoder and the decoder

  method PushVarUint(target: Bytes, value: nat) returns (output: Bytes)
    ensures output == target + Leb(value)
  {
    output := target;
    var remaining := value;
    while remaining > 0x7f
      invariant target + Leb(value) == output + Leb(remaining)
    {
      ghost var before := output;
      output := output + [0x80 + remaining % 0x80];
      assert before + Leb(remaining) == output + Leb(remaining / 0x80);
      remaining := remaining / 0x80;
    }
    output := output + [remaining];
  }

  method PushPoint(target: Bytes, p: GridPoint, previous: GridPoint) returns (output: Bytes)
    ensures forall tail: Bytes :: target + PutPoint(p, previous, tail) == output + tail
  {
    var first := PushVarUint(target, ZigZagEncode(p.x - previous.x));
    var second := PushVarUint(first, ZigZagEncode(p.y - previous.y));
    output := second + [p.pressure];
    forall tail: Bytes
      ensures target + PutPoint(p, previous, tail) == output + tail
    {
      var rest := [p.pressure] + tail;
      assert target + PutDelta(p.x, previous.x, PutDelta(p.y, previous.y, rest)) == first + PutDelta(p.y, previous.y, rest);
      assert first + PutDelta(p.y, previous.y, rest) == second + rest;
    }
  }

  method QuantizePoint(p: StrokePoint) returns (q: Option<GridPoint>)
    ensures q == if OnBoard(Quantize(p)) then Some(Quantize(p)) else None
  {
    var x := Round(p.x * 64.0);
    if x < -MAX_COORDINATE || x > MAX_COORDINATE {
      return None;
    }
    var y := Round(p.y * 64.0);
    if y < -MAX_COORDINATE || y > MAX_COORDINATE {
      return None;
    }
    return Some(GridPoint(x, y, QuantizePressure(p.pressure)));
  }

  method PushPoints(target: Bytes, points: seq<StrokePoint>, ghost grid: seq<GridPoint>) returns (result: Result<Bytes, StrokeError>)
    requires grid == QuantizeAll(points)
    ensures result == if AllOnBoard(grid) then Ok(target + PutMany(PutPoint, grid, ORIGIN)) else Err(OutOfRange)
  {
    var output, previous := target, ORIGIN;
    assert grid[0..] == grid;
    for index := 0 to |points|
      invariant AllOnBoard(grid[..index])
      invariant target + PutMany(PutPoint, grid, ORIGIN) == output + PutMany(PutPoint, grid[index..], previous)
    {
      var q := QuantizePoint(points[index]);
      assert q == if OnBoard(grid[index]) then Some(grid[index]) else None;
      if q.None? {
        return Err(OutOfRange);
      }
      assert grid[index..][1..] == grid[index + 1..];
      assert grid[..index + 1] == grid[..index] + [grid[index]];
      output := PushPoint(output, q.value, previous);
      previous := q.value;
    }
    assert grid[..|points|] == grid && grid[|points|..] == [];
    assert output + PutMany(PutPoint, [], previous) == output;
    return Ok(output);
  }

  method EncodeStrokePoints(points: seq<StrokePoint>) returns (result: Result<Bytes, StrokeError>)
    ensures result == Encode(points)
  {
    if |points| == 0 {
      return Err(Empty);
    }
    if |points| > MAX_STROKE_POINTS {
      return Err(TooManyPoints);
    }
    ghost var grid := QuantizeAll(points);
    var output := PushVarUint([STROKE_FORMAT_VERSION], |points|);
    result := PushPoints(output, points, grid);
    assert [STROKE_FORMAT_VERSION] + Leb(|points|) + PutMany(PutPoint, grid, ORIGIN) == PutStroke(grid);
  }

  /** The groups read so far make up `sum`; the number in the rest, shifted, completes it modulo 2^32. */
  ghost predicate Accumulated(all: Result<Scan<nat>, StrokeError>, rest: Result<Scan<nat>, StrokeError>, sum: nat, mult: nat) {
    if rest.Err? then all == Err(rest.error)
    else all.Ok? && all.value.rest == rest.value.rest && ToUint32(all.value.value) == ToUint32(sum + rest.value.value * mult)
  }

  function AddGroup(sum: nat, byte: Byte, mult: nat): nat {
    ToUint32(sum + byte % 0x80 * mult)
  }

  lemma ModularSum(a: int, b: int)
    ensures (a + b) % TWO_32 == (a % TWO_32 + b) % TWO_32
  {
  }

  lemma Distribute(low: nat, high: nat, mult: nat)
    ensures (low + 0x80 * high) * mult == low * mult + high * (mult * 0x80)
  {
  }

  lemma ShiftedSum(sum: nat, low: nat, high: nat, mult: nat)
    ensures ToUint32(sum + (low + 0x80 * high) * mult) == ToUint32(ToUint32(sum + low * mult) + high * (mult * 0x80))
  {
    Distribute(low, high, mult);
    ModularSum(sum + low * mult, high * (mult * 0x80));
  }

  lemma LowBits(byte: Byte)
    ensures byte % 0x80 == if byte < 0x80 then byte else byte - 0x80
  {
  }

  lemma MiddleGroup(all: Result<Scan<nat>, StrokeError>, high: Result<Scan<nat>, StrokeError>, whole: Result<Scan<nat>, StrokeError>,
                    low: nat, sum: nat, mult: nat)
    requires Accumulated(all, whole, sum, mult)
    requires if high.Err? then whole == Err(high.error) else whole == Ok(Scan(low + 0x80 * high.value.value, high.value.rest))
    ensures Accumulated(all, high, ToUint32(sum + low * mult), mult * 0x80)
  {
    if high.Ok? {
      ShiftedSum(sum, low, high.value.value, mult);
    }
  }

  lemma NextGroup(all: Result<Scan<nat>, StrokeError>, s: Bytes, left: nat, sum: nat, mult: nat)
    requires s != [] && left > 0 && Accumulated(all, Groups(s, left), sum, mult)
    ensures var next := AddGroup(sum, s[0], mult);
      if s[0] < 0x80 then all.Ok? && all.value.rest == s[1..] && ToUint32(all.value.value) == next
      else Accumulated(all, Groups(s[1..], left - 1), next, mult * 0x80)
  {
    LowBits(s[0]);
    if s[0] >= 0x80 {
      MiddleGroup(all, Groups(s[1..], left - 1), Groups(s, left), s[0] - 0x80, sum, mult);
    }
  }

  /** A read position in a byte sequence. */
  class Cursor {
    const bytes: Bytes
    var value: nat

    ghost predicate Valid()
      reads this
    {
      value <= |bytes|
    }

    function Rest(): Bytes
      reads this
      requires Valid()
    {
      bytes[value..]
    }

    constructor (bytes: Bytes)
      ensures Valid() && this.bytes == bytes && value == 0
    {
      this.bytes, value := bytes, 0;
    }

    method ReadVarUint() returns (result: Result<int, StrokeError>)
      requires Valid()
      modifies this`value
      ensures Valid()
      ensures var spec := ReadUint32(old(Rest()));
        if spec.Ok? then result == Ok(spec.value.value) && Rest() == spec.value.rest else result == Err(spec.error)
    {
      var sum: nat, mult: nat := 0, 1;
      ghost var all := Groups(Rest(), 5);
      for index := 0 to 5
        invariant Valid() && Accumulated(all, Groups(Rest(), 5 - index), sum, mult)
      {
        if value >= |bytes| {
          return Err(TruncatedData);
        }
        var byte := bytes[value];
        assert Rest()[1..] == bytes[value + 1..];
        NextGroup(all, Rest(), 5 - index, sum, mult);
        value := value + 1;
        sum := AddGroup(sum, byte, mult);
        if byte < 0x80 {
          return Ok(sum);
        }
        mult := mult * 0x80;
      }
      return Err(InvalidVarint);
    }

    method NextCoordinate(b: int) returns (result: Result<int, StrokeError>)
      requires Valid()
      modifies this`value
      ensures Valid()
      ensures var spec := ReadDelta(old(Rest()), b);
        if spec.Ok? then result == Ok(spec.value.value) && Rest() == spec.value.rest else result == Err(spec.error)
    {
      var delta :- ReadVarUint();
      return Ok(b + ZigZagDecode(delta));
    }

    method NextPoint(previous: GridPoint) returns (result: Result<GridPoint, StrokeError>)
      requires Valid()
      modifies this`value
      ensures Valid()
      ensures var spec := ReadPoint(old(Rest()), previous);
        if spec.Ok? then result == Ok(spec.value.value) && Rest() == spec.value.rest else result == Err(spec.error)
    {
      var x :- NextCoordinate(previous.x);
      var y :- NextCoordinate(previous.y);
      if value >= |bytes| {
        return Err(TruncatedData);
      }
      assert Rest()[1..] == bytes[value + 1..];
      value := value + 1;
      return Ok(GridPoint(x, y, bytes[value - 1]));
    }
  }

  lemma ReadManyStep(read: Reader, s: Bytes, count: nat, previous: GridPoint, p: GridPoint, tail: Bytes,
                     done: seq<GridPoint>, all: Result<Scan<seq<GridPoint>>, StrokeError>)
    requires count > 0 && read(s, previous) == Ok(Scan(p, tail)) && all == Continued(done, ReadMany(read, s, count, previous))
    ensures all == Continued(done + [p], ReadMany(read, tail, count - 1, p))
  {
    var rest := ReadMany(read, tail, count - 1, p);
    if rest.Ok? {
      assert done + ([p] + rest.value.value) == done + [p] + rest.value.value;
    }
  }

  lemma ReadManyStops(read: Reader, s: Bytes, count: nat, previous: GridPoint, done: seq<GridPoint>)
    requires count > 0 && read(s, previous).Err?
    ensures Continued(done, ReadMany(read, s, count, previous)) == Err(read(s, previous).error)
  {
  }

  /** A reading of the remaining points, after those already read. */
  function Continued(done: seq<GridPoint>, rest: Result<Scan<seq<GridPoint>>, StrokeError>): Result<Scan<seq<GridPoint>>, StrokeError> {
    if rest.Err? then rest else Ok(Scan(done + rest.value.value, rest.value.rest))
  }

  lemma AtStart(all: Result<Scan<seq<GridPoint>>, StrokeError>)
    ensures Continued([], all) == all
  {
    if all.Ok? {
      assert [] + all.value.value == all.value.value;
    }
  }

  lemma NothingLeft(read: Reader, done: seq<GridPoint>, s: Bytes, previous: GridPoint)
    ensures Continued(done, ReadMany(read, s, 0, previous)) == Ok(Scan(done, s))
  {
    assert done + [] == done;
  }

  lemma RestoreOneMore(grid: seq<GridPoint>, p: GridPoint)
    ensures RestoreAll(grid) + [Restore(p)] == RestoreAll(grid + [p])
  {
  }

  ghost predicate SameReading(read: Reader, s: Bytes, previous: GridPoint) {
    read(s, previous) == ReadPoint(s, previous)
  }

  /** The reader is ReadPoint; its steps are then taken out of sight. */
  ghost predicate ReadsPoints(read: Reader) {
    forall s, previous :: SameReading(read, s, previous)
  }

  method PointWith(cursor: Cursor, ghost read: Reader, previous: GridPoint) returns (p: Result<GridPoint, StrokeError>)
    requires ReadsPoints(read) && cursor.Valid()
    modifies cursor`value
    ensures cursor.Valid()
    ensures var spec := read(old(cursor.Rest()), previous);
      if spec.Ok? then p == Ok(spec.value.value) && cursor.Rest() == spec.value.rest else p == Err(spec.error)
  {
    assert SameReading(read, cursor.Rest(), previous);
    p := cursor.NextPoint(previous);
  }

  /** One turn of the decoding loop. */
  method DecodePoint(cursor: Cursor, ghost read: Reader, previous: GridPoint, ghost remaining: nat, ghost done: seq<GridPoint>,
                     ghost all: Result<Scan<seq<GridPoint>>, StrokeError>)
    returns (p: Result<GridPoint, StrokeError>, ghost rest: Result<Scan<seq<GridPoint>>, StrokeError>, ghost left: nat)
    requires ReadsPoints(read) && cursor.Valid() && remaining > 0 && all == Continued(done, ReadMany(read, cursor.Rest(), remaining, previous))
    modifies cursor`value
    ensures cursor.Valid()
    ensures left == remaining - 1
    ensures p.Ok? ==> all == Continued(done + [p.value], rest) && rest == ReadMany(read, cursor.Rest(), left, p.value)
    ensures p.Err? ==> all == Err(p.error)
  {
    ghost var s := cursor.Rest();
    left := remaining - 1;
    p := PointWith(cursor, read, previous);
    if p.Err? {
      ReadManyStops(read, s, remaining, previous, done);
      rest := Err(p.error);
    } else {
      ReadManyStep(read, s, remaining, previous, p.value, cursor.Rest(), done, all);
      rest := ReadMany(read, cursor.Rest(), left, p.value);
    }
  }

  method DecodePoints(cursor: Cursor, ghost read: Reader, count: nat) returns (result: Result<seq<StrokePoint>, StrokeError>)
    requires ReadsPoints(read) && cursor.Valid()
    modifies cursor`value
    ensures cursor.Valid()
    ensures var spec := ReadMany(read, old(cursor.Rest()), count, ORIGIN);
      if spec.Ok? then result == Ok(RestoreAll(spec.value.value)) && cursor.Rest() == spec.value.rest else result == Err(spec.error)
  {
    ghost var all := ReadMany(read, cursor.Rest(), count, ORIGIN);
    ghost var rest := all;
    ghost var grid: seq<GridPoint> := [];
    var points: seq<StrokePoint> := [];
    var previous := ORIGIN;
    ghost var left := count;
    AtStart(all);
    for index := 0 to count
      invariant cursor.Valid() && points == RestoreAll(grid) && left == count - index
      invariant all == Continued(grid, rest)
      invariant rest == ReadMany(read, cursor.Rest(), left, previous)
    {
      var p;
      p, rest, left := DecodePoint(cursor, read, previous, left, grid, all);
      if p.Err? {
        return Err(p.error);
      }
      RestoreOneMore(grid, p.value);
      points := points + [Restore(p.value)];
      grid := grid + [p.value];
      previous := p.value;
    }
    NothingLeft(read, grid, cursor.Rest(), previous);
    return Ok(points);
  }

  method DecodeStrokePoints(bytes: Bytes) returns (result: Result<seq<StrokePoint>, StrokeError>)
    ensures result == Decode(bytes)
  {
    if |bytes| < 2 {
      return Err(InvalidData);
    }
    var cursor := new Cursor(bytes);
    var version := bytes[0];
    cursor.value := 1;
    if version != STROKE_FORMAT_VERSION {
      return Err(UnsupportedFormat);
    }
    var pointCount :- cursor.ReadVarUint();
    if pointCount == 0 || pointCount > MAX_STROKE_POINTS {
      return Err(InvalidData);
    }
    var points :- DecodePoints(cursor, ReadPoint, pointCount);
    if cursor.value != |bytes| {
      return Err(TrailingBytes);
    }
    return Ok(points);
  }
}
