/**
   Board lines through several anchors: the smooth path, its samples and how far it strays from them,
   and the line object that stores the anchors. Floating-point rounding is not modelled.
 */
module PointLines {
  import opened LineGeometry
  import opened RealNumbers
  import opened Wrappers

  // ----- smooth paths through anchors

  /** One cubic piece of a path, with its two control points. */
  datatype Piece = Piece(start: Point, first: Point, second: Point, end: Point)

  function PieceAt(p: Piece, t: real): Point {
    Point(Cubic(p.start.x, p.first.x, p.second.x, p.end.x, t), Cubic(p.start.y, p.first.y, p.second.y, p.end.y, t))
  }

  /** The derivative of the piece at its start and at its end. */
  function StartVelocity(p: Piece): Point {
    Point(3.0 * (p.first.x - p.start.x), 3.0 * (p.first.y - p.start.y))
  }

  function EndVelocity(p: Piece): Point {
    Point(3.0 * (p.end.x - p.second.x), 3.0 * (p.end.y - p.second.y))
  }

  /** Cubic pieces between consecutive anchors, each tangent continued by the next. */
  ghost predicate SmoothThrough(path: seq<Piece>, points: seq<Point>) {
    && |path| + 1 == |points|
    && (forall i {:trigger path[i]} | 0 <= i < |path| :: path[i].start == points[i] && path[i].end == points[i + 1])
    && forall i {:trigger EndVelocity(path[i])} | 0 <= i < |path| - 1 :: EndVelocity(path[i]) == StartVelocity(path[i + 1])
  }

  function Halfway(from: Point, to: Point): Point {
    Point((to.x - from.x) / 2.0, (to.y - from.y) / 2.0)
  }

  /** The tangent at an inner anchor: half the way from the anchor before it to the one after it; at an end, to its one neighbour. */
  ghost predicate TangentsFollowNeighbours(path: seq<Piece>, points: seq<Point>)
    requires |path| + 1 == |points|
  {
    var last := |path| - 1;
    && (forall i {:trigger StartVelocity(path[i])} | 0 < i < |path| :: StartVelocity(path[i]) == Halfway(points[i - 1], points[i + 1]))
    && (path != [] ==> StartVelocity(path[0]) == Halfway(points[0], points[1]))
    && (path != [] ==> EndVelocity(path[last]) == Halfway(points[last], points[last + 1]))
  }

  /** A piece runs from its start to its end. */
  lemma PieceEnds(p: Piece)
    ensures PieceAt(p, 0.0) == p.start && PieceAt(p, 1.0) == p.end
  {
  }

  /** A cubic Catmull-Rom path: through every anchor, with a continuous derivative. Fewer than three anchors have none. */
  method BoardPointLineCubicPoints(points: seq<Point>) returns (path: Option<seq<Piece>>)
    ensures path.None? <==> |points| < 3
    ensures path.Some? ==> SmoothThrough(path.value, points) && TangentsFollowNeighbours(path.value, points)
  {
    if |points| < 3 {
      return None;
    }
    var pieces: seq<Piece> := [];
    for index := 0 to |points| - 1
      invariant |pieces| == index
      invariant forall i | 0 <= i < index :: pieces[i] == PieceOf(points, i)
    {
      pieces := pieces + [PieceOf(points, index)];
    }
    PiecesAreSmooth(points, pieces);
    return Some(pieces);
  }

  lemma PiecesAreSmooth(points: seq<Point>, path: seq<Piece>)
    requires |path| + 1 == |points| && forall i | 0 <= i < |path| :: path[i] == PieceOf(points, i)
    ensures SmoothThrough(path, points) && TangentsFollowNeighbours(path, points)
  {
  }

  function PieceOf(points: seq<Point>, index: nat): Piece
    requires index + 1 < |points|
  {
    var previous := points[if index > 0 then index - 1 else 0];
    var start, end := points[index], points[index + 1];
    var next := points[if index + 2 < |points| then index + 2 else |points| - 1];
    Piece(start,
          Point(start.x + (end.x - previous.x) / 6.0, start.y + (end.y - previous.y) / 6.0),
          Point(end.x - (next.x - start.x) / 6.0, end.y - (next.y - start.y) / 6.0),
          end)
  }

  // ----- sampling a path

  /** An equal share of the budget for each piece, but at least two samples. */
  function SamplesPerPiece(budget: int, pieces: int): (k: int)
    requires pieces >= 1
    ensures k >= 2
  {
    if budget / pieces > 2 then budget / pieces else 2
  }

  /** The budget is kept exactly when it allows two samples a piece. */
  lemma BudgetIsKeptIff(budget: int, pieces: int)
    requires budget >= 1 && pieces >= 1
    ensures pieces * SamplesPerPiece(budget, pieces) <= budget <==> 2 * pieces <= budget
  {
  }

  /** The default budget is kept for every line that parses: the two limits fit together. */
  lemma DefaultBudgetIsKept(points: seq<Point>)
    requires 3 <= |points| <= MAX_LINE_POINTS
    ensures (|points| - 1) * SamplesPerPiece(SegmentCap(None), |points| - 1) <= MAX_SAMPLE_SEGMENTS
  {
  }

  function PieceSamples(p: Piece, k: int): (samples: seq<Point>)
    requires k >= 1
    ensures |samples| == k
  {
    seq(k, j requires 0 <= j < k => PieceAt(p, (j + 1) as real / k as real))
  }

  function PathSamples(path: seq<Piece>, k: int): (samples: seq<Point>)
    requires k >= 1
    ensures |samples| == |path| * k
    decreases |path|
  {
    if path == [] then [] else
      var last := |path| - 1;
      PathSamples(path[..last], k) + PieceSamples(path[last], k)
  }

  /** The samples in one list: sample i k + j is piece i at parameter j / k, and sample i k is anchor i. */
  lemma {:induction false} SamplesLieOnPath(points: seq<Point>, path: seq<Piece>, k: int, i: nat, j: nat)
    requires k >= 1 && SmoothThrough(path, points) && i < |path| && j <= k
    ensures i * k <= i * k + j <= |path| * k
    ensures ([points[0]] + PathSamples(path, k))[i * k + j] == PieceAt(path[i], j as real / k as real)
    ensures j == 0 ==> ([points[0]] + PathSamples(path, k))[i * k] == points[i]
    ensures j == k ==> ([points[0]] + PathSamples(path, k))[i * k + k] == points[i + 1]
    decreases |path|
  {
    var last := |path| - 1;
    EndSamples(k);
    PieceEnds(path[i]);
    IndexWithin(i, last, k);
    var all := [points[0]] + PathSamples(path, k);
    var before := PathSamples(path[..last], k);
    assert all == [points[0]] + before + PieceSamples(path[last], k);
    if i < last {
      SamplesLieOnPath(points[..last + 1], path[..last], k, i, j);
    } else if j > 0 {
      assert all[i * k + j] == PieceSamples(path[last], k)[j - 1];
    } else if i > 0 {
      SamplesLieOnPath(points[..last + 1], path[..last], k, i - 1, k);
      assert (i - 1) * k + k == i * k;
    }
  }

  lemma IndexWithin(i: nat, last: nat, k: int)
    requires k >= 1 && i <= last
    ensures 0 <= i * k && (last + 1) * k == last * k + k
    ensures i < last ==> i * k + k <= last * k
  {
    if i < last {
      assert last * k - i * k - k == (last - i - 1) * k;
    }
  }

  method AddPieceSamples(sampled: seq<Point>, p: Piece, k: int) returns (next: seq<Point>)
    requires k >= 1
    ensures next == sampled + PieceSamples(p, k)
  {
    next := sampled;
    var samples := PieceSamples(p, k);
    for step := 1 to k + 1
      invariant next == sampled + samples[..step - 1]
    {
      next := next + [PieceAt(p, step as real / k as real)];
    }
  }

  lemma PathSamplesStep(path: seq<Piece>, k: int, n: nat)
    requires k >= 1 && n < |path|
    ensures PathSamples(path[..n + 1], k) == PathSamples(path[..n], k) + PieceSamples(path[n], k)
  {
    assert path[..n + 1][..n] == path[..n];
  }

  method SamplePath(start: Point, path: seq<Piece>, k: int) returns (sampled: seq<Point>)
    requires k >= 1
    ensures sampled == [start] + PathSamples(path, k)
  {
    sampled := [start];
    for segment := 0 to |path|
      invariant sampled == [start] + PathSamples(path[..segment], k)
    {
      sampled := AddPieceSamples(sampled, path[segment], k);
      PathSamplesStep(path, k, segment);
    }
    assert path[..|path|] == path;
  }

  /** Fewer than three anchors are their own samples; a path is sampled at equal parameters, piece by piece. */
  method SamplePointLine(points: seq<Point>, maximumSegments: Option<real>) returns (sampled: seq<Point>, ghost path: seq<Piece>)
    ensures |points| < 3 ==> sampled == points
    ensures |points| >= 3 ==>
      && SmoothThrough(path, points) && TangentsFollowNeighbours(path, points)
      && sampled == [points[0]] + PathSamples(path, SamplesPerPiece(SegmentCap(maximumSegments), |points| - 1))
  {
    path := [];
    var cubic := BoardPointLineCubicPoints(points);
    if cubic.None? {
      return points, [];
    }
    path := cubic.value;
    sampled := SamplePath(points[0], cubic.value, SamplesPerPiece(SegmentCap(maximumSegments), |points| - 1));
  }

  // ----- how far the path strays from its samples

  /** Half the second derivative of one coordinate, at the start and at the end, is at most m either way. */
  predicate BendWithin(s: real, f: real, g: real, e: real, m: real) {
    -m <= 3.0 * (s - 2.0 * f + g) <= m && -m <= 3.0 * (f - 2.0 * g + e) <= m
  }

  predicate PieceBendWithin(p: Piece, m: real) {
    BendWithin(p.start.x, p.first.x, p.second.x, p.end.x, m) && BendWithin(p.start.y, p.first.y, p.second.y, p.end.y, m)
  }

  lemma CubicAsPolynomial(s: real, f: real, g: real, e: real, t: real)
    ensures Cubic(s, f, g, e, t)
         == s + 3.0 * (f - s) * t + 3.0 * (s - 2.0 * f + g) * (t * t) + (e - 3.0 * g + 3.0 * f - s) * (t * (t * t))
  {
  }

  /** Between parameters a and b a cubic is its chord plus a factor times (t - a) (t - b). */
  lemma CubicGap(c0: real, c1: real, c2: real, c3: real, a: real, b: real, t: real, u: real, pa: real, pb: real, pt: real, z: real, g: real)
    requires t == a + (b - a) * u && z == a + b + t && g == (t - a) * (t - b)
    requires pa == CubicOf(c0, c1, c2, c3, a) && pb == CubicOf(c0, c1, c2, c3, b) && pt == CubicOf(c0, c1, c2, c3, t)
    ensures pt - Chord(pa, pb, u) == (c2 + c3 * z) * g
  {
  }

  function CubicOf(c0: real, c1: real, c2: real, c3: real, t: real): real {
    c0 + c1 * t + c2 * (t * t) + c3 * (t * (t * t))
  }

  lemma ProductWithin(f: real, g: real, m: real, ww: real)
    requires -m <= f <= m && -ww / 4.0 <= g <= 0.0
    ensures -(m * ww) / 4.0 <= f * g <= m * ww / 4.0
  {
    ProductSign(m + f, -g);
    ProductSign(m - f, -g);
    assert (m + f) * -g == -(m * g) - f * g && (m - f) * -g == -(m * g) + f * g;
    ProductSign(m, g + ww / 4.0);
    assert m * (g + ww / 4.0) == m * g + m * ww / 4.0;
  }

  /** An affine factor stays within its bounds at the two ends. */
  lemma FactorWithin(c2: real, c3: real, z: real, m: real)
    requires -m <= c2 <= m && -m <= c2 + 3.0 * c3 <= m && 0.0 <= z <= 3.0
    ensures -m <= c2 + c3 * z <= m
  {
    Scale(c3, 0.0, z);
    Scale(c3, z, 3.0);
  }

  ghost predicate IsCubic(f: Coordinate, c0: real, c1: real, c2: real, c3: real) {
    forall t {:trigger CubicOf(c0, c1, c2, c3, t)} :: f(t) == CubicOf(c0, c1, c2, c3, t)
  }

  /** A cubic with half its second derivative within m at parameters 0 and 1. */
  ghost predicate BentBy(f: Coordinate, m: real) {
    exists c0, c1, c2, c3 :: IsCubic(f, c0, c1, c2, c3) && -m <= c2 <= m && -m <= c2 + 3.0 * c3 <= m
  }

  lemma CoordinateGap(f: Coordinate, c0: real, c1: real, c2: real, c3: real, a: real, b: real, t: real, u: real, z: real, g: real)
    requires IsCubic(f, c0, c1, c2, c3) && t == a + (b - a) * u && z == a + b + t && g == (t - a) * (t - b)
    ensures f(t) - Chord(f(a), f(b), u) == (c2 + c3 * z) * g
  {
    var pa, pb, pt := CubicOf(c0, c1, c2, c3, a), CubicOf(c0, c1, c2, c3, b), CubicOf(c0, c1, c2, c3, t);
    assert f(a) == pa && f(b) == pb && f(t) == pt;
    CubicGap(c0, c1, c2, c3, a, b, t, u, pa, pb, pt, z, g);
  }

  lemma Along(a: real, b: real, t: real, u: real) returns (g: real)
    requires a <= b && OnCurve(u) && t == a + (b - a) * u
    ensures a <= t <= b && g == (t - a) * (t - b) && -((b - a) * (b - a)) / 4.0 <= g <= 0.0
  {
    var w := b - a;
    g := (t - a) * (t - b);
    QuarterBound(w, u);
    assert w * w == (b - a) * (b - a);
    ProductSign(w, u);
    ProductSign(w, 1.0 - u);
    assert w * (1.0 - u) == w - w * u;
    assert g == (w * u) * (w * u - w) by {
      assert t - a == w * u && t - b == w * u - w;
    }
  }

  lemma GapFactor(f: Coordinate, m: real, a: real, b: real, t: real, u: real, g: real) returns (factor: real)
    requires BentBy(f, m) && 0.0 <= a <= t <= b <= 1.0 && t == a + (b - a) * u && g == (t - a) * (t - b)
    ensures -m <= factor <= m && f(t) - Chord(f(a), f(b), u) == factor * g
  {
    var c0, c1, c2, c3 :| IsCubic(f, c0, c1, c2, c3) && -m <= c2 <= m && -m <= c2 + 3.0 * c3 <= m;
    var z := a + b + t;
    factor := c2 + c3 * z;
    FactorWithin(c2, c3, z, m);
    CoordinateGap(f, c0, c1, c2, c3, a, b, t, u, z, g);
  }

  lemma ChordBetween(pa: real, pb: real, u: real, chord: real)
    requires OnCurve(u) && chord == Chord(pa, pb, u)
    ensures Min(pa, pb) <= chord <= Max(pa, pb)
  {
    BetweenEnds(pa, pb, u);
    assert chord == (1.0 - u) * pa + u * pb;
  }

  /** A step of width w leaves the coordinate within m w^2 / 4 of a point of its chord. */
  lemma StaysNearChord(f: Coordinate, m: real, a: real, b: real, t: real, u: real, stray: real) returns (chord: real)
    requires BentBy(f, m) && 0.0 <= a <= b <= 1.0 && OnCurve(u) && t == a + (b - a) * u
    requires stray == m * ((b - a) * (b - a)) / 4.0
    ensures Min(f(a), f(b)) <= chord <= Max(f(a), f(b)) && chord - stray <= f(t) <= chord + stray
  {
    var g := Along(a, b, t, u);
    var factor := GapFactor(f, m, a, b, t, u, g);
    chord := Chord(f(a), f(b), u);
    ChordBetween(f(a), f(b), u, chord);
    ProductWithin(factor, g, m, (b - a) * (b - a));
  }

  lemma LocalParameter(n: real, j: real, t: real, a: real, b: real, u: real, w: real)
    requires n > 0.0 && a * n == j && b * n == j + 1.0 && 0.0 <= j && j + 1.0 <= n && u == t * n - j && w * n == 1.0
    ensures 0.0 <= a <= b <= 1.0 && b - a == w && t == a + (b - a) * u
  {
  }

  lemma FloorSample(k: int, tn: real) returns (j: nat, u: real)
    requires k >= 1 && 0.0 <= tn <= k as real
    ensures j < k && OnCurve(u) && tn == j as real + u
  {
    j := if tn < k as real then tn.Floor else k - 1;
    u := tn - j as real;
  }

  /** The sample before parameter t, the one after it, and where t lies between them. */
  lemma SampleBefore(k: int, t: real, w: real) returns (j: nat, u: real, before: real, after: real)
    requires k >= 1 && OnCurve(t) && w == 1.0 / k as real
    ensures j < k && OnCurve(u) && before == j as real / k as real && after == (j + 1) as real / k as real
    ensures 0.0 <= before <= after <= 1.0 && after - before == w && t == before + (after - before) * u
  {
    var n := k as real;
    j, u := FloorSample(k, t * n);
    var real0, real1 := j as real, (j + 1) as real;
    before, after := real0 / n, real1 / n;
    Quotient(real0, n, before);
    Quotient(real1, n, after);
    Quotient(1.0, n, w);
    LocalParameter(n, real0, t, before, after, u, w);
  }

  lemma Quotient(a: real, n: real, q: real)
    requires n >= 1.0 && q == a / n
    ensures q * n == a
  {
  }

  /**
     The path may leave the box of its samples, but not by more than m / (4 k k), where m bounds half the
     second derivative of each coordinate of the piece at its two ends and k is the number of samples a piece.
   */
  lemma PathStaysNearBox(points: seq<Point>, path: seq<Piece>, k: int, b: Bounds, i: nat, m: real, t: real)
    requires k >= 1 && SmoothThrough(path, points) && i < |path| && OnCurve(t) && PieceBendWithin(path[i], m)
    requires IsBox(b, [points[0]] + PathSamples(path, k))
    ensures InBox(Grown(b, Stray(m, k)), PieceAt(path[i], t))
  {
    var at := PieceFunction(path[i]);
    var point := PieceAt(path[i], t);
    assert at(t) == point;
    StaysNearBoxAt(points, path, k, b, i, m, t, at, point);
  }

  function Grown(b: Bounds, margin: real): Bounds {
    Bounds(b.minX - margin, b.minY - margin, b.maxX + margin, b.maxY + margin)
  }

  function Stray(m: real, k: int): real
    requires k >= 1
  {
    var w := 1.0 / k as real;
    m * (w * w) / 4.0
  }

  lemma PieceFunction(p: Piece) returns (at: real -> Point)
    ensures IsPieceAt(at, p)
  {
    at := t => PieceAt(p, t);
  }

  lemma StaysNearBoxAt(points: seq<Point>, path: seq<Piece>, k: int, b: Bounds, i: nat, m: real, t: real, at: real -> Point, point: Point)
    requires k >= 1 && SmoothThrough(path, points) && i < |path| && OnCurve(t) && PieceBendWithin(path[i], m)
    requires IsBox(b, [points[0]] + PathSamples(path, k)) && IsPieceAt(at, path[i]) && at(t) == point
    ensures InBox(Grown(b, Stray(m, k)), point)
  {
    var w := 1.0 / k as real;
    var before, after, u := SamplesAround(points, path, k, b, i, t, at, w);
    PointNearBox(path[i], b, m, t, at, before, after, u, w, Stray(m, k));
  }

  lemma PointNearBox(p: Piece, b: Bounds, m: real, t: real, at: real -> Point, before: real, after: real, u: real, w: real, stray: real)
    requires PieceBendWithin(p, m) && IsPieceAt(at, p) && InBox(b, at(before)) && InBox(b, at(after))
    requires 0.0 <= before <= after <= 1.0 && OnCurve(u) && t == before + (after - before) * u && after - before == w
    requires stray == m * (w * w) / 4.0
    ensures InBox(Grown(b, stray), at(t))
  {
    var x, y := Coordinates(p, m, at);
    StaysNearBox(x, y, at, b, m, before, after, t, u, stray);
  }

  ghost predicate IsPieceAt(at: real -> Point, p: Piece) {
    forall t {:trigger PieceAt(p, t)} :: at(t) == PieceAt(p, t)
  }

  lemma SamplesAround(points: seq<Point>, path: seq<Piece>, k: int, b: Bounds, i: nat, t: real, at: real -> Point, w: real)
    returns (before: real, after: real, u: real)
    requires k >= 1 && SmoothThrough(path, points) && i < |path| && OnCurve(t) && w == 1.0 / k as real
    requires IsBox(b, [points[0]] + PathSamples(path, k)) && IsPieceAt(at, path[i])
    ensures 0.0 <= before <= after <= 1.0 && OnCurve(u) && t == before + (after - before) * u && after - before == w
    ensures InBox(b, at(before)) && InBox(b, at(after))
  {
    var j;
    j, u, before, after := SampleBefore(k, t, w);
    SampleAtInBox(points, path, k, b, i, j, at, before);
    SampleAtInBox(points, path, k, b, i, j + 1, at, after);
  }

  lemma SampleAtInBox(points: seq<Point>, path: seq<Piece>, k: int, b: Bounds, i: nat, j: nat, at: real -> Point, r: real)
    requires k >= 1 && SmoothThrough(path, points) && i < |path| && j <= k && r == j as real / k as real
    requires IsBox(b, [points[0]] + PathSamples(path, k)) && IsPieceAt(at, path[i])
    ensures InBox(b, at(r))
  {
    SampleInBox(points, path, k, b, i, j);
  }

  lemma StaysNearBox(x: Coordinate, y: Coordinate, at: real -> Point, b: Bounds, m: real, before: real, after: real, t: real, u: real,
                     stray: real)
    requires BentBy(x, m) && BentBy(y, m) && forall p :: at(p) == Point(x(p), y(p))
    requires 0.0 <= before <= after <= 1.0 && OnCurve(u) && t == before + (after - before) * u
    requires stray == m * ((after - before) * (after - before)) / 4.0
    requires InBox(b, at(before)) && InBox(b, at(after))
    ensures b.minX - stray <= at(t).x <= b.maxX + stray && b.minY - stray <= at(t).y <= b.maxY + stray
  {
    var chordX := StaysNearChord(x, m, before, after, t, u, stray);
    var chordY := StaysNearChord(y, m, before, after, t, u, stray);
    assert at(before) == Point(x(before), y(before)) && at(after) == Point(x(after), y(after)) && at(t) == Point(x(t), y(t));
  }

  lemma SampleInBox(points: seq<Point>, path: seq<Piece>, k: int, b: Bounds, i: nat, j: nat)
    requires k >= 1 && SmoothThrough(path, points) && i < |path| && j <= k
    requires IsBox(b, [points[0]] + PathSamples(path, k))
    ensures InBox(b, PieceAt(path[i], j as real / k as real))
  {
    SamplesLieOnPath(points, path, k, i, j);
  }

  lemma CubicIsBent(s: real, f: real, g: real, e: real, m: real, p: Coordinate)
    requires BendWithin(s, f, g, e, m) && forall t :: p(t) == Cubic(s, f, g, e, t)
    ensures BentBy(p, m)
  {
    var c1, c2, c3 := 3.0 * (f - s), 3.0 * (s - 2.0 * f + g), e - 3.0 * g + 3.0 * f - s;
    forall t
      ensures p(t) == CubicOf(s, c1, c2, c3, t)
    {
      CubicAsPolynomial(s, f, g, e, t);
    }
    assert IsCubic(p, s, c1, c2, c3);
    assert c2 + 3.0 * c3 == 3.0 * (f - 2.0 * g + e);
  }

  /** The two coordinates of a piece. */
  lemma Coordinates(p: Piece, m: real, at: real -> Point) returns (x: Coordinate, y: Coordinate)
    requires PieceBendWithin(p, m) && IsPieceAt(at, p)
    ensures BentBy(x, m) && BentBy(y, m)
    ensures forall t :: at(t) == Point(x(t), y(t))
  {
    x := t => Cubic(p.start.x, p.first.x, p.second.x, p.end.x, t);
    y := t => Cubic(p.start.y, p.first.y, p.second.y, p.end.y, t);
    CubicIsBent(p.start.x, p.first.x, p.second.x, p.end.x, m, x);
    CubicIsBent(p.start.y, p.first.y, p.second.y, p.end.y, m, y);
    forall t
      ensures at(t) == Point(x(t), y(t))
    {
      assert at(t) == PieceAt(p, t);
    }
  }

  // ----- the box of a path

  predicate InBox(b: Bounds, p: Point) {
    b.minX <= p.x <= b.maxX && b.minY <= p.y <= b.maxY
  }

  /** b is the least box around the points. */
  ghost predicate IsBox(b: Bounds, points: seq<Point>) {
    && (forall i | 0 <= i < |points| :: InBox(b, points[i]))
    && (exists i | 0 <= i < |points| :: points[i].x == b.minX) && (exists i | 0 <= i < |points| :: points[i].y == b.minY)
    && (exists i | 0 <= i < |points| :: points[i].x == b.maxX) && (exists i | 0 <= i < |points| :: points[i].y == b.maxY)
  }

  method BoxOf(points: seq<Point>) returns (b: Bounds)
    requires points != []
    ensures IsBox(b, points)
  {
    b := Bounds(points[0].x, points[0].y, points[0].x, points[0].y);
    ghost var left, top, right, bottom := 0, 0, 0, 0;
    for index := 1 to |points|
      invariant forall i | 0 <= i < index :: b.minX <= points[i].x <= b.maxX && b.minY <= points[i].y <= b.maxY
      invariant 0 <= left < index && 0 <= top < index && 0 <= right < index && 0 <= bottom < index
      invariant points[left].x == b.minX && points[top].y == b.minY && points[right].x == b.maxX && points[bottom].y == b.maxY
    {
      var p := points[index];
      left, top := if p.x < b.minX then index else left, if p.y < b.minY then index else top;
      right, bottom := if p.x > b.maxX then index else right, if p.y > b.maxY then index else bottom;
      b := Bounds(Min(b.minX, p.x), Min(b.minY, p.y), Max(b.maxX, p.x), Max(b.maxY, p.y));
    }
  }

  /** The box of a line through anchors is the box of its samples, and contains every anchor. */
  method BoardPointLineBounds(points: seq<Point>) returns (b: Bounds, ghost path: seq<Piece>)
    requires points != []
    ensures forall i | 0 <= i < |points| :: InBox(b, points[i])
    ensures |points| < 3 ==> IsBox(b, points)
    ensures |points| >= 3 ==>
      && SmoothThrough(path, points) && TangentsFollowNeighbours(path, points)
      && IsBox(b, [points[0]] + PathSamples(path, SamplesPerPiece(SegmentCap(None), |points| - 1)))
  {
    var sampled;
    sampled, path := SamplePointLine(points, None);
    b := BoxOf(sampled);
    if |points| >= 3 {
      AnchorsInBox(points, path, SamplesPerPiece(SegmentCap(None), |points| - 1), b);
    }
  }

  lemma AnchorsInBox(points: seq<Point>, path: seq<Piece>, k: int, b: Bounds)
    requires k >= 1 && path != [] && SmoothThrough(path, points) && IsBox(b, [points[0]] + PathSamples(path, k))
    ensures forall i | 0 <= i < |points| :: InBox(b, points[i])
  {
    forall i | 0 <= i < |points|
      ensures InBox(b, points[i])
    {
      EndSamples(k);
      PieceEnds(path[if i < |path| then i else i - 1]);
      if i < |path| {
        SampleInBox(points, path, k, b, i, 0);
      } else {
        SampleInBox(points, path, k, b, i - 1, k);
      }
    }
  }

  /** Three anchors whose path turns back between two samples. */
  const OVERSHOOT: seq<Point> := [Point(0.0, 0.0), Point(1.0, 0.0), Point(-5.125, 0.0)]

  /** The box of the samples is not the box of the path: this path turns back outside it. */
  lemma PathCanLeaveBox(path: seq<Piece>, b: Bounds, k: int)
    requires SmoothThrough(path, OVERSHOOT) && TangentsFollowNeighbours(path, OVERSHOOT)
    requires k == SamplesPerPiece(SegmentCap(None), |path|) && IsBox(b, [OVERSHOOT[0]] + PathSamples(path, k))
    ensures OnCurve(0.8) && !InBox(b, PieceAt(path[0], 0.8))
  {
    var samples := [OVERSHOOT[0]] + PathSamples(path, k);
    OvershootControls(path);
    SamplesBelowTurn(path, k, samples);
    BoxBelow(b, samples, 1.24);
    TurnAt(path[0], PieceAt(path[0], 0.8));
  }

  lemma OvershootControls(path: seq<Piece>)
    requires SmoothThrough(path, OVERSHOOT) && TangentsFollowNeighbours(path, OVERSHOOT)
    ensures path[0].first.x == 1.0 / 6.0 && path[0].second.x == 89.0 / 48.0
    ensures path[1].first.x == 7.0 / 48.0 && path[1].second.x == -197.0 / 48.0
  {
    var points := OVERSHOOT;
    assert points[0].x == 0.0 && points[1].x == 1.0 && points[2].x == -5.125;
    ControlsOfThree(path, points);
  }

  lemma ControlsOfThree(path: seq<Piece>, points: seq<Point>)
    requires SmoothThrough(path, points) && TangentsFollowNeighbours(path, points)
    requires |points| == 3 && points[0].x == 0.0 && points[1].x == 1.0 && points[2].x == -5.125
    ensures path[0].first.x == 1.0 / 6.0 && path[0].second.x == 89.0 / 48.0
    ensures path[1].first.x == 7.0 / 48.0 && path[1].second.x == -197.0 / 48.0
  {
    VelocitiesAre(path[0], path[1], points[0], points[1], points[2]);
  }

  lemma VelocitiesAre(p: Piece, q: Piece, a: Point, b: Point, c: Point)
    requires p.start == a && p.end == q.start == b && q.end == c && a.x == 0.0 && b.x == 1.0 && c.x == -5.125
    requires StartVelocity(p) == Halfway(a, b) && EndVelocity(p) == StartVelocity(q) == Halfway(a, c) && EndVelocity(q) == Halfway(b, c)
    ensures p.first.x == 1.0 / 6.0 && p.second.x == 89.0 / 48.0 && q.first.x == 7.0 / 48.0 && q.second.x == -197.0 / 48.0
  {
  }

  lemma BoxBelow(b: Bounds, points: seq<Point>, limit: real)
    requires IsBox(b, points) && forall i | 0 <= i < |points| :: points[i].x < limit
    ensures b.maxX < limit
  {
  }

  lemma SamplesBelowTurn(path: seq<Piece>, k: int, samples: seq<Point>)
    requires SmoothThrough(path, OVERSHOOT) && TangentsFollowNeighbours(path, OVERSHOOT) && k == 128
    requires samples == [OVERSHOOT[0]] + PathSamples(path, k)
    ensures forall i | 0 <= i < |samples| :: samples[i].x < 1.24
  {
    forall n | 0 <= n < |samples|
      ensures samples[n].x < 1.24
    {
      SampleBelowTurn(path, k, n);
    }
  }

  lemma TurnAt(p: Piece, turn: Point)
    requires p.start.x == 0.0 && p.first.x == 1.0 / 6.0 && p.second.x == 89.0 / 48.0 && p.end.x == 1.0 && turn == PieceAt(p, 0.8)
    ensures turn.x == 1.24
  {
    FirstCubic(0.8, 0.0, 0.8 + 31.0 / 65.0, 0.0, 0.0);
  }

  lemma SampleBelowTurn(path: seq<Piece>, k: int, n: nat)
    requires SmoothThrough(path, OVERSHOOT) && TangentsFollowNeighbours(path, OVERSHOOT) && k == 128 && n <= 256
    ensures |[OVERSHOOT[0]] + PathSamples(path, k)| == 257
    ensures ([OVERSHOOT[0]] + PathSamples(path, k))[n].x < 1.24
  {
    var i, j := if n <= 128 then 0 else 1, if n <= 128 then n else n - 128;
    OvershootControls(path);
    SamplesLieOnPath(OVERSHOOT, path, k, i, j);
    var t := j as real / k as real;
    Parameter(j, k, t);
    if i == 0 {
      FirstBelow(path[i], t);
    } else {
      SecondBelow(path[i], t);
    }
  }

  /** No sample falls on the turning point. */
  lemma Parameter(j: nat, k: int, t: real)
    requires k == 128 && j <= k && t == j as real / k as real
    ensures OnCurve(t) && t != 0.8
  {
    assert t * 128.0 == j as real;
    assert 5 * j != 512;
  }

  lemma FirstBelow(p: Piece, t: real)
    requires p.start.x == 0.0 && p.first.x == 1.0 / 6.0 && p.second.x == 89.0 / 48.0 && p.end.x == 1.0
    requires OnCurve(t) && t != 0.8
    ensures PieceAt(p, t).x < 1.24
  {
    var d, r := t - 0.8, t + 31.0 / 65.0;
    var q := d * d;
    FirstCubic(t, d, r, q, q * r);
    SquareIsPositive(d, -d, q);
    ProductIsPositive(q, r, q * r);
  }

  lemma SecondBelow(p: Piece, t: real)
    requires p.start.x == 1.0 && p.first.x == 7.0 / 48.0 && p.second.x == -197.0 / 48.0 && p.end.x == -5.125 && OnCurve(t)
    ensures PieceAt(p, t).x < 1.24
  {
    SecondCubic(t);
  }

  lemma FirstCubic(t: real, d: real, r: real, q: real, p: real)
    requires d == t - 0.8 && r == t + 31.0 / 65.0 && q == d * d && p == q * r
    ensures Cubic(0.0, 1.0 / 6.0, 89.0 / 48.0, 1.0, t) == 1.24 - 4.0625 * p
  {
    CubicAsPolynomial(0.0, 1.0 / 6.0, 89.0 / 48.0, 1.0, t);
    var tt, c := t * t, t * (t * t);
    assert q == tt - 1.6 * t + 0.64;
    assert q * r == c - 1.6 * tt + 0.64 * t + (31.0 / 65.0) * (tt - 1.6 * t + 0.64);
  }

  lemma SecondCubic(t: real)
    requires OnCurve(t)
    ensures Cubic(1.0, 7.0 / 48.0, -197.0 / 48.0, -5.125, t) <= 1.0
  {
    CubicAsPolynomial(1.0, 7.0 / 48.0, -197.0 / 48.0, -5.125, t);
    var q, c := t * t, t * (t * t);
    CubeBelowSquare(t, q, c);
    assert Cubic(1.0, 7.0 / 48.0, -197.0 / 48.0, -5.125, t) == 1.0 - 2.5625 * t - 10.1875 * q + 6.625 * c;
  }

  lemma CubeBelowSquare(t: real, q: real, c: real)
    requires OnCurve(t) && q == t * t && c == t * q
    ensures 0.0 <= q && c <= q
  {
    ProductSign(t, t);
    Scale(q, t, 1.0);
  }

  lemma ProductIsPositive(a: real, b: real, q: real)
    requires a > 0.0 && b > 0.0 && q == a * b
    ensures q > 0.0
  {
  }

  lemma SquareIsPositive(d: real, e: real, q: real)
    requires d != 0.0 && e == -d && q == d * d
    ensures q > 0.0
  {
    if d > 0.0 {
      ProductIsPositive(d, d, q);
    } else {
      ProductIsPositive(e, e, q);
    }
  }

  // ----- line objects

  predicate Bounded(p: Point) {
    -MAX_LINE_COORDINATE <= p.x <= MAX_LINE_COORDINATE && -MAX_LINE_COORDINATE <= p.y <= MAX_LINE_COORDINATE
  }

  predicate AllBounded(points: seq<Point>) {
    forall i | 0 <= i < |points| :: Bounded(points[i])
  }

  /** What parsing stored anchors accepts. */
  predicate Parses(points: seq<Point>) {
    2 <= |points| <= MAX_LINE_POINTS && AllBounded(points)
  }

  datatype LineObject = LineObject(x: real, y: real, width: real, height: real, points: seq<Point>)

  predicate Fits(b: Bounds) {
    b.maxX - b.minX <= MAX_LINE_COORDINATE && b.maxY - b.minY <= MAX_LINE_COORDINATE
  }

  /**
     A line object at the corner of its box, at least one unit wide and high: adding the corner to a
     stored anchor gives the anchor back, and what is stored parses again.
   */
  method CreateBoardPointLine(points: seq<Point>) returns (result: Option<LineObject>)
    ensures result.Some? <==> Parses(points) && forall b | IsBox(b, points) :: Fits(b)
    ensures result.Some? ==>
      var o := result.value;
      && |o.points| == |points| && Parses(o.points) && o.width >= 1.0 && o.height >= 1.0
      && (forall i | 0 <= i < |points| :: Point(o.points[i].x + o.x, o.points[i].y + o.y) == points[i])
      && (forall i | 0 <= i < |points| :: 0.0 <= o.points[i].x <= o.width && 0.0 <= o.points[i].y <= o.height)
      && forall b | IsBox(b, points) ::
           o.x == b.minX && o.y == b.minY && o.width == Max(1.0, b.maxX - b.minX) && o.height == Max(1.0, b.maxY - b.minY)
  {
    if |points| < 2 || |points| > MAX_LINE_POINTS || !AllBounded(points) {
      return None;
    }
    var b := BoxOf(points);
    if !Fits(b) {
      return None;
    }
    var local := seq(|points|, i requires 0 <= i < |points| => Point(points[i].x - b.minX, points[i].y - b.minY));
    return Some(LineObject(b.minX, b.minY, Max(1.0, b.maxX - b.minX), Max(1.0, b.maxY - b.minY), local));
  }
}
