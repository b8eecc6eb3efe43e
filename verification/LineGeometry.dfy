/**
 Board lines over the reals: quadratic curves with their boxes, cubic forms and flattening,
 and smooth paths through editable anchors. Floating-point rounding is not modelled.
 */
module LineGeometry {
  import opened RealNumbers
  import opened Wrappers

  const MAX_LINE_COORDINATE := 2147483647.0 / 64.0
  const DEFAULT_SAMPLE_ERROR := 0.25
  const MAX_SAMPLE_SEGMENTS := 256
  const MAX_LINE_POINTS := 128

  datatype Point = Point(x: real, y: real)

  // ----- one coordinate of a quadratic curve

  function Quadratic(start: real, control: real, end: real, t: real): real {
    (1.0 - t) * (1.0 - t) * start + 2.0 * (1.0 - t) * t * control + t * t * end
  }

  function SecondDifference(start: real, control: real, end: real): real {
    start - 2.0 * control + end
  }

  // ----- degree elevation

  function Cubic(start: real, first: real, second: real, end: real, t: real): real {
    var r := 1.0 - t;
    r * r * r * start + 3.0 * (r * r) * t * first + 3.0 * r * (t * t) * second + t * t * t * end
  }

  /** The first and second control of the degree-elevated cubic. */
  function ElevatedControl(anchor: real, control: real): real {
    anchor + (control - anchor) * 2.0 / 3.0
  }

  /** The elevated cubic is the quadratic, at every parameter. */
  lemma ElevatedCubicIsQuadratic(s: real, c: real, e: real, t: real)
    ensures Cubic(s, ElevatedControl(s, c), ElevatedControl(e, c), e, t) == Quadratic(s, c, e, t)
  {
  }

  // ----- the box of a curve

  predicate OnCurve(t: real) {
    0.0 <= t <= 1.0
  }

  /** The curve is its chord minus d t (1 - t). */
  lemma ChordForm(s: real, c: real, e: real, t: real)
    ensures Quadratic(s, c, e, t) == (1.0 - t) * s + t * e - SecondDifference(s, c, e) * (t * (1.0 - t))
  {
  }

  /** Around a parameter v where the derivative vanishes, the curve is a parabola. */
  lemma VertexForm(s: real, c: real, e: real, v: real, t: real)
    requires SecondDifference(s, c, e) * v == s - c
    ensures Quadratic(s, c, e, t) == Quadratic(s, c, e, v) + SecondDifference(s, c, e) * ((t - v) * (t - v))
  {
  }

  lemma ProductSign(a: real, b: real)
    ensures a >= 0.0 && b >= 0.0 ==> a * b >= 0.0
    ensures a <= 0.0 && b >= 0.0 ==> a * b <= 0.0
    ensures a <= 0.0 && b <= 0.0 ==> a * b >= 0.0
  {
  }

  lemma BetweenEnds(s: real, e: real, t: real)
    requires OnCurve(t)
    ensures Min(s, e) <= (1.0 - t) * s + t * e <= Max(s, e)
  {
    ProductSign(1.0 - t, Max(s, e) - s);
    ProductSign(1.0 - t, s - Min(s, e));
    ProductSign(t, Max(s, e) - e);
    ProductSign(t, e - Min(s, e));
    assert (1.0 - t) * (Max(s, e) - s) == (1.0 - t) * Max(s, e) - (1.0 - t) * s;
    assert (1.0 - t) * (s - Min(s, e)) == (1.0 - t) * s - (1.0 - t) * Min(s, e);
    assert t * (Max(s, e) - e) == t * Max(s, e) - t * e;
    assert t * (e - Min(s, e)) == t * e - t * Min(s, e);
  }

  /** Squares of distances from a point outside [0, 1] are monotone on it. */
  lemma SquaresOutside(v: real, t: real, w: real, w0: real, w1: real)
    requires OnCurve(t) && (v <= 0.0 || v >= 1.0)
    requires w == (t - v) * (t - v) && w0 == (0.0 - v) * (0.0 - v) && w1 == (1.0 - v) * (1.0 - v)
    ensures w0 <= w <= w1 || w1 <= w <= w0
  {
    assert (t - v) * (t - v) - v * v == t * (t - 2.0 * v);
    assert (1.0 - v) * (1.0 - v) - (t - v) * (t - v) == (1.0 - t) * (1.0 + t - 2.0 * v);
    if v <= 0.0 {
      ProductSign(t, t - 2.0 * v);
      ProductSign(1.0 - t, 1.0 + t - 2.0 * v);
    } else {
      ProductSign(t - 2.0 * v, t);
      ProductSign(1.0 + t - 2.0 * v, 1.0 - t);
    }
  }

  lemma Scale(d: real, a: real, b: real)
    ensures d >= 0.0 && a <= b ==> d * a <= d * b
    ensures d <= 0.0 && a <= b ==> d * b <= d * a
    ensures d >= 0.0 && b <= a ==> d * b <= d * a
    ensures d <= 0.0 && b <= a ==> d * a <= d * b
  {
  }

  lemma AffineBetween(q: real, d: real, a: real, b: real, c: real)
    requires b <= a <= c || c <= a <= b
    ensures Min(q + d * b, q + d * c) <= q + d * a <= Max(q + d * b, q + d * c)
  {
    if d >= 0.0 {
      Scale(d, b, a);
      Scale(d, a, c);
    } else {
      Scale(d, a, b);
      Scale(d, c, a);
    }
    SumBetween(q, d * a, d * b, d * c);
  }

  lemma SumBetween(q: real, a: real, b: real, c: real)
    requires b <= a <= c || c <= a <= b
    ensures Min(q + b, q + c) <= q + a <= Max(q + b, q + c)
  {
  }

  predicate VertexOutside(s: real, c: real, e: real, v: real) {
    SecondDifference(s, c, e) == 0.0 || (SecondDifference(s, c, e) * v == s - c && (v <= 0.0 || v >= 1.0))
  }

  /** When the derivative has no zero strictly inside, the curve stays between its ends. */
  lemma MonotoneBetweenEnds(s: real, c: real, e: real, v: real, t: real)
    requires OnCurve(t) && VertexOutside(s, c, e, v)
    ensures Min(s, e) <= Quadratic(s, c, e, t) <= Max(s, e)
  {
    var d := SecondDifference(s, c, e);
    if d == 0.0 {
      ChordForm(s, c, e, t);
      BetweenEnds(s, e, t);
    } else {
      var q, w, w0, w1 := Quadratic(s, c, e, v), (t - v) * (t - v), (0.0 - v) * (0.0 - v), (1.0 - v) * (1.0 - v);
      assert Quadratic(s, c, e, t) == q + d * w by {
        VertexForm(s, c, e, v, t);
      }
      assert s == q + d * w0 by {
        VertexForm(s, c, e, v, 0.0);
        EndsOnCurve(s, c, e);
      }
      assert e == q + d * w1 by {
        VertexForm(s, c, e, v, 1.0);
        EndsOnCurve(s, c, e);
      }
      SquaresOutside(v, t, w, w0, w1);
      AffineBetween(q, d, w, w0, w1);
    }
  }

  lemma EndsOnCurve(s: real, c: real, e: real)
    ensures Quadratic(s, c, e, 0.0) == s && Quadratic(s, c, e, 1.0) == e
    ensures OnCurve(0.0) && OnCurve(1.0)
  {
  }

  /** low and high are the least and the greatest value of the coordinate on the curve. */
  ghost predicate IsRange(s: real, c: real, e: real, low: real, high: real) {
    && (forall t | OnCurve(t) :: low <= Quadratic(s, c, e, t) <= high)
    && (exists t :: OnCurve(t) && Quadratic(s, c, e, t) == low)
    && (exists t :: OnCurve(t) && Quadratic(s, c, e, t) == high)
  }

  lemma RangeWithoutVertex(s: real, c: real, e: real, v: real)
    requires VertexOutside(s, c, e, v)
    ensures IsRange(s, c, e, Min(s, e), Max(s, e))
  {
    EndsOnCurve(s, c, e);
    forall t | OnCurve(t)
      ensures Min(s, e) <= Quadratic(s, c, e, t) <= Max(s, e)
    {
      MonotoneBetweenEnds(s, c, e, v, t);
    }
  }

  /** A parabola lies on one side of its chord and on the other side of its vertex. */
  lemma BetweenChordAndVertex(q: real, chord: real, x: real, d: real, p: real, w: real, low: real, high: real)
    requires q == chord - d * p && q == x + d * w && p >= 0.0 && w >= 0.0 && low <= chord <= high
    ensures Min(low, x) <= q <= Max(high, x)
  {
    ProductSign(d, p);
    ProductSign(d, w);
  }

  lemma RangeWithVertex(s: real, c: real, e: real, v: real, x: real)
    requires 0.0 < v < 1.0 && SecondDifference(s, c, e) * v == s - c && x == Quadratic(s, c, e, v)
    ensures IsRange(s, c, e, Min(Min(s, e), x), Max(Max(s, e), x))
  {
    EndsOnCurve(s, c, e);
    assert OnCurve(v);
    forall t | OnCurve(t)
      ensures Min(Min(s, e), x) <= Quadratic(s, c, e, t) <= Max(Max(s, e), x)
    {
      NearVertex(s, c, e, v, t);
    }
  }

  lemma NearVertex(s: real, c: real, e: real, v: real, t: real)
    requires OnCurve(t) && SecondDifference(s, c, e) * v == s - c
    ensures var x := Quadratic(s, c, e, v);
      Min(Min(s, e), x) <= Quadratic(s, c, e, t) <= Max(Max(s, e), x)
  {
    var q, chord, x, d := Quadratic(s, c, e, t), (1.0 - t) * s + t * e, Quadratic(s, c, e, v), SecondDifference(s, c, e);
    var p, w := t * (1.0 - t), (t - v) * (t - v);
    assert q == x + d * w by {
      VertexForm(s, c, e, v, t);
    }
    assert q == chord - d * p by {
      ChordForm(s, c, e, t);
    }
    assert p >= 0.0 && w >= 0.0 by {
      ProductSign(t, 1.0 - t);
      ProductSign(t - v, t - v);
    }
    assert Min(s, e) <= chord <= Max(s, e) by {
      BetweenEnds(s, e, t);
    }
    BetweenChordAndVertex(q, chord, x, d, p, w, Min(s, e), Max(s, e));
  }

  /** Ends, and the turning point if there is one strictly inside. */
  method CoordinateRange(s: real, c: real, e: real) returns (low: real, high: real)
    ensures IsRange(s, c, e, low, high)
  {
    low, high := Min(s, e), Max(s, e);
    var divisor := s - 2.0 * c + e;
    if divisor != 0.0 {
      var progress := (s - c) / divisor;
      assert divisor * progress == s - c;
      if progress > 0.0 && progress < 1.0 {
        var x := Quadratic(s, c, e, progress);
        RangeWithVertex(s, c, e, progress, x);
        return Min(low, x), Max(high, x);
      }
      RangeWithoutVertex(s, c, e, progress);
    } else {
      RangeWithoutVertex(s, c, e, 0.0);
    }
  }

  datatype Bounds = Bounds(minX: real, minY: real, maxX: real, maxY: real)

  /** The box of a straight or quadratic line: exactly the range of the curve in each coordinate. */
  method BoardLineBounds(start: Point, control: Option<Point>, end: Point) returns (b: Bounds)
    ensures control.Some? ==> IsRange(start.x, control.value.x, end.x, b.minX, b.maxX)
    ensures control.Some? ==> IsRange(start.y, control.value.y, end.y, b.minY, b.maxY)
    ensures control.None? ==> b == Bounds(Min(start.x, end.x), Min(start.y, end.y), Max(start.x, end.x), Max(start.y, end.y))
  {
    if control.None? {
      return Bounds(Min(start.x, end.x), Min(start.y, end.y), Max(start.x, end.x), Max(start.y, end.y));
    }
    var minX, maxX := CoordinateRange(start.x, control.value.x, end.x);
    var minY, maxY := CoordinateRange(start.y, control.value.y, end.y);
    return Bounds(minX, minY, maxX, maxY);
  }

  // ----- flattening

  function At(start: Point, control: Point, end: Point, t: real): Point {
    Point(Quadratic(start.x, control.x, end.x, t), Quadratic(start.y, control.y, end.y, t))
  }

  /** The point of the segment from p to q at local parameter u. */
  function Chord(p: real, q: real, u: real): real {
    p + (q - p) * u
  }

  function Square(v: real): real {
    v * v
  }

  /** A coordinate as a function of the parameter. */
  type Coordinate = real -> real

  ghost predicate IsParabola(f: Coordinate, s: real, k: real, d: real) {
    forall t :: f(t) == s - k * t + d * (t * t)
  }

  /** Between parameters a and b a parabola is its chord plus d (t - a) (t - b). */
  lemma ChordGap(f: Coordinate, s: real, k: real, d: real, a: real, b: real, t: real, u: real)
    requires IsParabola(f, s, k, d) && t == a + (b - a) * u
    ensures f(t) - Chord(f(a), f(b), u) == d * ((t - a) * (t - b))
  {
  }

  /** The local parameters of a segment spread at most a quarter of its squared length. */
  lemma QuarterBound(w: real, u: real)
    requires OnCurve(u)
    ensures -(w * w) / 4.0 <= (w * u) * (w * u - w) <= 0.0
  {
    assert (w * u) * (w * u - w) == (w * w) * (u * (u - 1.0));
    assert u * (u - 1.0) + 0.25 == (u - 0.5) * (u - 0.5);
    ProductSign(u - 0.5, u - 0.5);
    ProductSign(u - 1.0, u);
    ProductSign(w, w);
    Scale(w * w, -0.25, u * (u - 1.0));
    Scale(w * w, u * (u - 1.0), 0.0);
  }

  datatype Curve = Curve(x: Coordinate, y: Coordinate)

  function CurveOf(start: Point, control: Point, end: Point): Curve {
    Curve(t => Quadratic(start.x, control.x, end.x, t), t => Quadratic(start.y, control.y, end.y, t))
  }

  /** The squared distance between a curve point and the matching point of the chord. */
  function SquaredGap(curve: Curve, a: real, b: real, u: real): real {
    var t := a + (b - a) * u;
    Square(curve.x(t) - Chord(curve.x(a), curve.x(b), u)) + Square(curve.y(t) - Chord(curve.y(a), curve.y(b), u))
  }

  /** Both coordinates are parabolas, and h is the length of their leading coefficients. */
  ghost predicate SecondDifferenceIs(curve: Curve, h: real) {
    exists sx, kx, dx, sy, ky, dy ::
      IsParabola(curve.x, sx, kx, dx) && IsParabola(curve.y, sy, ky, dy) && Square(dx) + Square(dy) == Square(h)
  }

  lemma CurveIsParabolic(start: Point, control: Point, end: Point, h: real)
    requires Square(SecondDifference(start.x, control.x, end.x)) + Square(SecondDifference(start.y, control.y, end.y)) == Square(h)
    ensures SecondDifferenceIs(CurveOf(start, control, end), h)
  {
    QuadraticIsParabola(start.x, control.x, end.x);
    QuadraticIsParabola(start.y, control.y, end.y);
    var curve := CurveOf(start, control, end);
    assert IsParabola(curve.x, start.x, 2.0 * (start.x - control.x), SecondDifference(start.x, control.x, end.x));
    assert IsParabola(curve.y, start.y, 2.0 * (start.y - control.y), SecondDifference(start.y, control.y, end.y));
  }

  lemma QuadraticIsParabola(s: real, c: real, e: real)
    ensures IsParabola(t => Quadratic(s, c, e, t), s, 2.0 * (s - c), SecondDifference(s, c, e))
  {
  }

  lemma SquareMonotone(a: real, b: real)
    requires 0.0 <= a <= b
    ensures a * a <= b * b
  {
  }

  /** The gap is the second difference, scaled. */
  lemma GapIsScaled(curve: Curve, a: real, b: real, u: real, h: real, g: real)
    requires SecondDifferenceIs(curve, h)
    requires var t := a + (b - a) * u; g == (t - a) * (t - b)
    ensures SquaredGap(curve, a, b, u) == Square(h * g)
  {
    var t := a + (b - a) * u;
    var sx, kx, dx, sy, ky, dy :|
      IsParabola(curve.x, sx, kx, dx) && IsParabola(curve.y, sy, ky, dy) && Square(dx) + Square(dy) == Square(h);
    ChordGap(curve.x, sx, kx, dx, a, b, t, u);
    ChordGap(curve.y, sy, ky, dy, a, b, t, u);
    var gx, gy := curve.x(t) - Chord(curve.x(a), curve.x(b), u), curve.y(t) - Chord(curve.y(a), curve.y(b), u);
    assert gx == dx * g && gy == dy * g;
    ScaledSquares(dx, dy, h, g);
    assert SquaredGap(curve, a, b, u) == Square(gx) + Square(gy);
  }

  lemma ScaledSquares(dx: real, dy: real, h: real, g: real)
    requires Square(dx) + Square(dy) == Square(h)
    ensures Square(dx * g) + Square(dy * g) == Square(h * g)
  {
  }

  /** A step of width w with h w^2 at most 4 eps keeps the arc within eps of its chord. */
  lemma FlatEnough(curve: Curve, h: real, eps: real, w: real, a: real, b: real, u: real)
    requires SecondDifferenceIs(curve, h) && b == a + w
    requires h >= 0.0 && OnCurve(u) && h * (w * w) <= 4.0 * eps
    ensures SquaredGap(curve, a, b, u) <= Square(eps)
  {
    var g := (w * u) * (w * u - w);
    assert var t := a + (b - a) * u; g == (t - a) * (t - b);
    GapIsScaled(curve, a, b, u, h, g);
    QuarterBound(w, u);
    SmallGap(h, w * w, g, eps);
  }

  lemma SmallGap(h: real, ww: real, g: real, eps: real)
    requires h >= 0.0 && -ww / 4.0 <= g <= 0.0 && h * ww <= 4.0 * eps
    ensures Square(h * g) <= Square(eps)
  {
    var hg := h * g;
    Scale(h, -ww / 4.0, g);
    ProductSign(g, h);
    assert h * (-ww / 4.0) == -(h * ww) / 4.0;
    SquareMonotone(-hg, eps);
    assert Square(-hg) == Square(hg);
  }

  function Ceil(v: real): int {
    -((-v).Floor)
  }

  /** The step count: the rounded-up root, between one and the cap. */
  function SegmentCount(root: real, cap: int): int {
    var wanted := Ceil(root);
    var bounded := if wanted < cap then wanted else cap;
    if bounded > 1 then bounded else 1
  }

  lemma EnoughSegments(h: real, eps: real, root: real, n: int)
    requires h >= 0.0 && eps > 0.0 && root >= 0.0 && root * root == h / (4.0 * eps) && n >= 1 && n as real >= root
    ensures var w := 1.0 / n as real; h * (w * w) <= 4.0 * eps
  {
    var m := n as real;
    var w := 1.0 / m;
    assert w * m == 1.0;
    SquareMonotone(root, m);
    assert h == 4.0 * eps * (root * root);
    Scale(4.0 * eps, root * root, m * m);
    assert h <= 4.0 * eps * (m * m);
    ProductSign(w, w);
    Scale(w * w, h, 4.0 * eps * (m * m));
    assert (w * w) * (4.0 * eps * (m * m)) == 4.0 * eps * ((w * m) * (w * m));
  }

  /** The cap on the number of segments; a request that is not finite gets the default. */
  function SegmentCap(maximumSegments: Option<real>): int {
    if maximumSegments.None? then MAX_SAMPLE_SEGMENTS
    else
      var asked := maximumSegments.value.Floor;
      var bounded := if asked < MAX_SAMPLE_SEGMENTS then asked else MAX_SAMPLE_SEGMENTS;
      if bounded > 1 then bounded else 1
  }

  function ErrorBound(maximumError: Option<real>): real {
    if maximumError.Some? && maximumError.value > 0.0 then maximumError.value else DEFAULT_SAMPLE_ERROR
  }

  /** The samples at k / n, the two ends taken as they are. */
  ghost predicate Samples(points: seq<Point>, start: Point, control: Point, end: Point, n: int) {
    && n >= 1 && |points| == n + 1
    && forall k | 0 <= k <= n :: points[k] == At(start, control, end, k as real / n as real)
  }

  /** No point of the curve is further from the chord of its segment than eps. */
  ghost predicate Flat(curve: Curve, n: int, eps: real)
    requires n >= 1
  {
    forall k, u | 0 <= k < n && OnCurve(u) :: SegmentGap(curve, n, k, u) <= Square(eps)
  }

  function SegmentGap(curve: Curve, n: int, k: int, u: real): real
    requires n >= 1
  {
    SquaredGap(curve, k as real / n as real, (k + 1) as real / n as real, u)
  }

  lemma UncappedIsFlat(curve: Curve, h: real, eps: real, root: real, n: int)
    requires SecondDifferenceIs(curve, h)
    requires h >= 0.0 && eps > 0.0 && root >= 0.0 && root * root == h / (4.0 * eps) && n >= 1 && n >= Ceil(root)
    ensures Flat(curve, n, eps)
  {
    var w := 1.0 / n as real;
    EnoughSegments(h, eps, root, n);
    forall k, u | 0 <= k < n && OnCurve(u)
      ensures SegmentGap(curve, n, k, u) <= Square(eps)
    {
      var a, b := k as real / n as real, (k + 1) as real / n as real;
      assert b == a + w;
      FlatEnough(curve, h, eps, w, a, b, u);
    }
  }

  lemma EndSamples(n: int)
    requires n >= 1
    ensures 0 as real / n as real == 0.0 && n as real / n as real == 1.0
  {
  }

  /**
     `secondDifference` and `root` are the results of the hypot and sqrt calls. Unless the count is
     capped, no point of the curve is further from its chord than the error bound.
   */
  method SampleBoardLine(start: Point, control: Option<Point>, end: Point, maximumError: Option<real>, maximumSegments: Option<real>,
                         secondDifference: real, root: real)
    returns (points: seq<Point>)
    requires secondDifference >= 0.0 && root >= 0.0
    requires control.Some? ==>
      && Square(SecondDifference(start.x, control.value.x, end.x)) + Square(SecondDifference(start.y, control.value.y, end.y))
         == Square(secondDifference)
      && root * root == secondDifference / (4.0 * ErrorBound(maximumError))
    ensures control.None? ==> points == [start, end]
    ensures control.Some? ==>
      var n := SegmentCount(root, SegmentCap(maximumSegments));
      && 1 <= n <= SegmentCap(maximumSegments) && Samples(points, start, control.value, end, n)
      && points[0] == start && points[n] == end
      && (Ceil(root) <= SegmentCap(maximumSegments) ==> Flat(CurveOf(start, control.value, end), n, ErrorBound(maximumError)))
  {
    if control.None? {
      return [start, end];
    }
    var c := control.value;
    var n := SegmentCount(root, SegmentCap(maximumSegments));
    EndsOnCurve(start.x, c.x, end.x);
    EndsOnCurve(start.y, c.y, end.y);
    points := [start];
    EndSamples(n);
    for index := 1 to n
      invariant |points| == index && points[0] == start
      invariant forall k | 0 <= k < index :: points[k] == At(start, c, end, k as real / n as real)
    {
      points := points + [At(start, c, end, index as real / n as real)];
    }
    points := points + [end];
    if Ceil(root) <= SegmentCap(maximumSegments) {
      CurveIsParabolic(start, c, end, secondDifference);
      UncappedIsFlat(CurveOf(start, c, end), secondDifference, ErrorBound(maximumError), root, n);
    }
  }
}
