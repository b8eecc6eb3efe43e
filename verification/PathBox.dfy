/**
 When the box of the samples contains the whole path: exactly when no coordinate turns back outside it.
 Square roots are values of a function that satisfies their equation; rounding is not modelled.
 */
module PathBox {
  import opened LineGeometry
  import opened PointLines
  import opened RealNumbers

  // ----- turning points of one coordinate

  /** The derivative of c0 + c1 t + c2 t^2 + c3 t^3. */
  function SlopeOf(c1: real, c2: real, c3: real, t: real): real {
    c1 + 2.0 * c2 * t + 3.0 * c3 * (t * t)
  }

  function Discriminant(c1: real, c2: real, c3: real): real {
    c2 * c2 - 3.0 * c1 * c3
  }

  /** A square root for every number that has one. */
  ghost predicate IsSqrt(sqrt: real -> real) {
    forall d | d >= 0.0 :: sqrt(d) >= 0.0 && sqrt(d) * sqrt(d) == d
  }

  /** The zeros of the derivative, unless it vanishes everywhere. */
  function Turns(c1: real, c2: real, c3: real, root: real): seq<real> {
    if c3 != 0.0 then
      if Discriminant(c1, c2, c3) < 0.0 then [] else [(-c2 - root) / (3.0 * c3), (-c2 + root) / (3.0 * c3)]
    else if c2 != 0.0 then [-c1 / (2.0 * c2)] else []
  }

  predicate IsRoot(root: real, d: real) {
    d >= 0.0 ==> root >= 0.0 && root * root == d
  }

  lemma ZeroProduct(a: real, b: real, ab: real)
    requires ab == a * b
    ensures ab == 0.0 <==> a == 0.0 || b == 0.0
  {
  }

  lemma SquareIsNotNegative(a: real, aa: real)
    requires aa == a * a
    ensures aa >= 0.0
  {
  }

  /** Completing the square. */
  lemma SlopeSquared(c1: real, c2: real, c3: real, t: real, h: real)
    requires h == 3.0 * c3 * t + c2
    ensures 3.0 * c3 * SlopeOf(c1, c2, c3, t) == h * h - Discriminant(c1, c2, c3)
  {
  }

  lemma SquaresAgree(h: real, root: real, hh: real, d: real)
    requires hh == h * h && d == root * root
    ensures hh == d <==> h == root || h == -root
  {
    ZeroProduct(h - root, h + root, (h - root) * (h + root));
    assert (h - root) * (h + root) == hh - d;
  }

  lemma SlopeVanishes(l: real, slope: real, h: real, d: real, root: real)
    requires l != 0.0 && l * slope == h * h - d && IsRoot(root, d)
    ensures slope == 0.0 <==> d >= 0.0 && (h == root || h == -root)
  {
    ZeroProduct(l, slope, l * slope);
    if d >= 0.0 {
      SquaresAgree(h, root, h * h, d);
    } else {
      SquareIsNotNegative(h, h * h);
    }
  }

  lemma CubicTurns(c1: real, c2: real, c3: real, root: real, v: real)
    requires c3 != 0.0 && IsRoot(root, Discriminant(c1, c2, c3))
    ensures v in Turns(c1, c2, c3, root) <==> SlopeOf(c1, c2, c3, v) == 0.0
  {
    var l := 3.0 * c3;
    SlopeSquared(c1, c2, c3, v, l * v + c2);
    SlopeVanishes(l, SlopeOf(c1, c2, c3, v), l * v + c2, Discriminant(c1, c2, c3), root);
    DivideBy(-c2 - root, l, v);
    DivideBy(-c2 + root, l, v);
  }

  /** The turns are the zeros of the derivative, all of them and no others. */
  lemma TurnsAreZeros(c1: real, c2: real, c3: real, root: real, v: real)
    requires c1 != 0.0 || c2 != 0.0 || c3 != 0.0
    requires IsRoot(root, Discriminant(c1, c2, c3))
    ensures v in Turns(c1, c2, c3, root) <==> SlopeOf(c1, c2, c3, v) == 0.0
  {
    if c3 != 0.0 {
      CubicTurns(c1, c2, c3, root, v);
    } else if c2 != 0.0 {
      DivideBy(-c1, 2.0 * c2, v);
    }
  }

  lemma DivideBy(a: real, n: real, q: real)
    requires n != 0.0
    ensures q == a / n <==> n * q == a
  {
  }

  // ----- between turning points a coordinate is monotone

  /** The derivative does not change its sign between a and b. */
  ghost predicate OneSign(c1: real, c2: real, c3: real, a: real, b: real) {
    || (forall t | a <= t <= b :: SlopeOf(c1, c2, c3, t) >= 0.0)
    || (forall t | a <= t <= b :: SlopeOf(c1, c2, c3, t) <= 0.0)
  }

  /** Simpson's rule is exact for the derivative of a cubic. */
  lemma MeanSlope(c0: real, c1: real, c2: real, c3: real, a: real, b: real, m: real)
    requires 2.0 * m == a + b
    ensures CubicOf(c0, c1, c2, c3, b) - CubicOf(c0, c1, c2, c3, a)
         == (b - a) * ((SlopeOf(c1, c2, c3, a) + 4.0 * SlopeOf(c1, c2, c3, m) + SlopeOf(c1, c2, c3, b)) / 6.0)
  {
  }

  lemma StepHasSign(c0: real, c1: real, c2: real, c3: real, a: real, b: real)
    requires a <= b && OneSign(c1, c2, c3, a, b)
    ensures (forall t | a <= t <= b :: SlopeOf(c1, c2, c3, t) >= 0.0) ==> CubicOf(c0, c1, c2, c3, a) <= CubicOf(c0, c1, c2, c3, b)
    ensures (forall t | a <= t <= b :: SlopeOf(c1, c2, c3, t) <= 0.0) ==> CubicOf(c0, c1, c2, c3, b) <= CubicOf(c0, c1, c2, c3, a)
  {
    var m := (a + b) / 2.0;
    MeanSlope(c0, c1, c2, c3, a, b, m);
    ProductSign((SlopeOf(c1, c2, c3, a) + 4.0 * SlopeOf(c1, c2, c3, m) + SlopeOf(c1, c2, c3, b)) / 6.0, b - a);
  }

  lemma BetweenMonotone(c0: real, c1: real, c2: real, c3: real, a: real, b: real, t: real, low: real, high: real)
    requires a <= t <= b && OneSign(c1, c2, c3, a, b)
    requires low <= CubicOf(c0, c1, c2, c3, a) <= high && low <= CubicOf(c0, c1, c2, c3, b) <= high
    ensures low <= CubicOf(c0, c1, c2, c3, t) <= high
  {
    StepHasSign(c0, c1, c2, c3, a, t);
    StepHasSign(c0, c1, c2, c3, t, b);
  }

  lemma FactoredSlope(c1: real, c2: real, c3: real, v: real, w: real, t: real, l: real)
    requires l == 3.0 * c3 && c1 == l * (v * w) && 2.0 * c2 == -(l * (v + w))
    ensures SlopeOf(c1, c2, c3, t) == l * ((t - v) * (t - w))
  {
  }

  lemma OutsideBothTurns(c1: real, c2: real, c3: real, v: real, w: real, a: real, b: real, l: real)
    requires l == 3.0 * c3 && c1 == l * (v * w) && 2.0 * c2 == -(l * (v + w))
    requires a <= b && (v <= a || v >= b) && (w <= a || w >= b)
    ensures OneSign(c1, c2, c3, a, b)
  {
    var positive := (v <= a && w <= a) || (v >= b && w >= b);
    forall t | a <= t <= b
      ensures positive == (l >= 0.0) ==> SlopeOf(c1, c2, c3, t) >= 0.0
      ensures positive == (l <= 0.0) ==> SlopeOf(c1, c2, c3, t) <= 0.0
    {
      var p := (t - v) * (t - w);
      FactoredSlope(c1, c2, c3, v, w, t, l);
      ProductSign(t - v, t - w);
      ProductSign(t - w, t - v);
      assert (t - w) * (t - v) == p;
      ProductSign(l, p);
      ProductSign(p, l);
    }
  }

  lemma OutsideOneTurn(c1: real, c2: real, c3: real, v: real, a: real, b: real)
    requires c3 == 0.0 && c1 == -2.0 * c2 * v && a <= b && (v <= a || v >= b)
    ensures OneSign(c1, c2, c3, a, b)
  {
    forall t | a <= t <= b
      ensures (v <= a) == (c2 >= 0.0) ==> SlopeOf(c1, c2, c3, t) >= 0.0
      ensures (v <= a) == (c2 <= 0.0) ==> SlopeOf(c1, c2, c3, t) <= 0.0
    {
      assert SlopeOf(c1, c2, c3, t) == 2.0 * c2 * (t - v);
      ProductSign(2.0 * c2, t - v);
      ProductSign(t - v, 2.0 * c2);
    }
  }

  lemma WithoutTurns(c1: real, c2: real, c3: real, a: real, b: real)
    requires (c3 != 0.0 && Discriminant(c1, c2, c3) <= 0.0) || (c3 == 0.0 && c2 == 0.0)
    ensures OneSign(c1, c2, c3, a, b)
  {
    forall t
      ensures c3 > 0.0 ==> SlopeOf(c1, c2, c3, t) >= 0.0
      ensures c3 < 0.0 ==> SlopeOf(c1, c2, c3, t) <= 0.0
      ensures c3 == 0.0 ==> SlopeOf(c1, c2, c3, t) == c1
    {
      var h := 3.0 * c3 * t + c2;
      SlopeSquared(c1, c2, c3, t, h);
      SquareIsNotNegative(h, h * h);
      PositiveQuotient(3.0 * c3, SlopeOf(c1, c2, c3, t), 3.0 * c3 * SlopeOf(c1, c2, c3, t));
    }
  }

  lemma PositiveQuotient(l: real, s: real, ls: real)
    requires ls == l * s && (l != 0.0 ==> ls >= 0.0)
    ensures (l > 0.0 ==> s >= 0.0) && (l < 0.0 ==> s <= 0.0)
  {
  }

  // ----- a coordinate stays between its ends and its turns

  predicate Strictly(v: real) {
    0.0 < v < 1.0
  }

  /** The nearest of 0, v, w and 1 on each side of t. */
  lemma Bracket(v: real, w: real, t: real) returns (a: real, b: real)
    requires OnCurve(t)
    ensures 0.0 <= a <= t <= b <= 1.0 && (v <= a || v >= b) && (w <= a || w >= b)
    ensures a == 0.0 || a == 1.0 || (a == v && Strictly(v)) || (a == w && Strictly(w))
    ensures b == 0.0 || b == 1.0 || (b == v && Strictly(v)) || (b == w && Strictly(w))
  {
    a := Max(if v <= t then Max(v, 0.0) else 0.0, if w <= t then Max(w, 0.0) else 0.0);
    b := Min(if v > t then Min(v, 1.0) else 1.0, if w > t then Min(w, 1.0) else 1.0);
  }

  ghost predicate Within(c0: real, c1: real, c2: real, c3: real, t: real, low: real, high: real) {
    low <= CubicOf(c0, c1, c2, c3, t) <= high
  }

  lemma TwoTurnsFactor(c1: real, c2: real, c3: real, root: real, v: real, w: real, l: real)
    requires c3 != 0.0 && l == 3.0 * c3 && root * root == Discriminant(c1, c2, c3)
    requires l * v == -c2 - root && l * w == -c2 + root
    ensures c1 == l * (v * w) && 2.0 * c2 == -(l * (v + w))
  {
    var lv, lw := l * v, l * w;
    assert lv * lw == c2 * c2 - root * root;
    assert lv * lw == l * (l * (v * w));
    assert l * (l * (v * w)) == l * c1;
    CancelFactor(l, l * (v * w), c1);
  }

  lemma CancelFactor(l: real, a: real, b: real)
    requires l != 0.0 && l * a == l * b
    ensures a == b
  {
  }

  /** What is known: the coordinate is within the bounds at the ends and at the turns strictly inside. */
  ghost predicate TurnsWithin(c0: real, c1: real, c2: real, c3: real, turns: seq<real>, low: real, high: real) {
    && Within(c0, c1, c2, c3, 0.0, low, high) && Within(c0, c1, c2, c3, 1.0, low, high)
    && forall v | v in turns && Strictly(v) :: Within(c0, c1, c2, c3, v, low, high)
  }

  lemma BetweenTwoTurns(c0: real, c1: real, c2: real, c3: real, v: real, w: real, t: real, low: real, high: real)
    requires OnCurve(t) && TurnsWithin(c0, c1, c2, c3, [v, w], low, high)
    requires c1 == 3.0 * c3 * (v * w) && 2.0 * c2 == -(3.0 * c3 * (v + w))
    ensures Within(c0, c1, c2, c3, t, low, high)
  {
    var a, b := Bracket(v, w, t);
    assert v in [v, w] && w in [v, w];
    OutsideBothTurns(c1, c2, c3, v, w, a, b, 3.0 * c3);
    BetweenMonotone(c0, c1, c2, c3, a, b, t, low, high);
  }

  lemma BetweenOneTurn(c0: real, c1: real, c2: real, v: real, t: real, low: real, high: real)
    requires OnCurve(t) && TurnsWithin(c0, c1, c2, 0.0, [v], low, high) && c1 == -2.0 * c2 * v
    ensures Within(c0, c1, c2, 0.0, t, low, high)
  {
    var a, b := Bracket(v, v, t);
    assert v in [v];
    OutsideOneTurn(c1, c2, 0.0, v, a, b);
    BetweenMonotone(c0, c1, c2, 0.0, a, b, t, low, high);
  }

  lemma TwoTurns(c1: real, c2: real, c3: real, root: real) returns (v: real, w: real)
    requires c3 != 0.0 && Discriminant(c1, c2, c3) >= 0.0 && IsRoot(root, Discriminant(c1, c2, c3))
    ensures Turns(c1, c2, c3, root) == [v, w]
    ensures c1 == 3.0 * c3 * (v * w) && 2.0 * c2 == -(3.0 * c3 * (v + w))
  {
    v, w := (-c2 - root) / (3.0 * c3), (-c2 + root) / (3.0 * c3);
    DivideBy(-c2 - root, 3.0 * c3, v);
    DivideBy(-c2 + root, 3.0 * c3, w);
    TwoTurnsFactor(c1, c2, c3, root, v, w, 3.0 * c3);
  }

  lemma OneTurn(c1: real, c2: real, root: real) returns (v: real)
    requires c2 != 0.0
    ensures Turns(c1, c2, 0.0, root) == [v] && c1 == -2.0 * c2 * v
  {
    v := -c1 / (2.0 * c2);
    DivideBy(-c1, 2.0 * c2, v);
  }

  /** Then it is within them everywhere. */
  lemma StaysBetweenTurns(c0: real, c1: real, c2: real, c3: real, root: real, t: real, low: real, high: real)
    requires OnCurve(t) && IsRoot(root, Discriminant(c1, c2, c3))
    requires TurnsWithin(c0, c1, c2, c3, Turns(c1, c2, c3, root), low, high)
    ensures Within(c0, c1, c2, c3, t, low, high)
  {
    if c3 != 0.0 && Discriminant(c1, c2, c3) >= 0.0 {
      var v, w := TwoTurns(c1, c2, c3, root);
      BetweenTwoTurns(c0, c1, c2, c3, v, w, t, low, high);
    } else if c3 == 0.0 && c2 != 0.0 {
      var v := OneTurn(c1, c2, root);
      BetweenOneTurn(c0, c1, c2, v, t, low, high);
    } else {
      WithoutTurns(c1, c2, c3, 0.0, 1.0);
      BetweenMonotone(c0, c1, c2, c3, 0.0, 1.0, t, low, high);
    }
  }

  // ----- pieces and paths

  /** The turning points of one coordinate of a piece, from its control points. */
  function CoordinateTurns(s: real, f: real, g: real, e: real, sqrt: real -> real): seq<real> {
    var c1, c2, c3 := 3.0 * (f - s), 3.0 * (s - 2.0 * f + g), e - 3.0 * g + 3.0 * f - s;
    Turns(c1, c2, c3, sqrt(Discriminant(c1, c2, c3)))
  }

  /** Each coordinate is in the box wherever it turns strictly inside the piece. */
  predicate TurnsInBox(p: Piece, b: Bounds, sqrt: real -> real) {
    && (forall v | v in CoordinateTurns(p.start.x, p.first.x, p.second.x, p.end.x, sqrt) ::
          Strictly(v) ==> b.minX <= PieceAt(p, v).x <= b.maxX)
    && (forall v | v in CoordinateTurns(p.start.y, p.first.y, p.second.y, p.end.y, sqrt) ::
          Strictly(v) ==> b.minY <= PieceAt(p, v).y <= b.maxY)
  }

  ghost predicate PieceInBox(p: Piece, b: Bounds) {
    forall t | OnCurve(t) :: InBox(b, PieceAt(p, t))
  }

  lemma SameCoordinate(s: real, f: real, g: real, e: real, c1: real, c2: real, c3: real, turns: seq<real>, low: real, high: real)
    requires c1 == 3.0 * (f - s) && c2 == 3.0 * (s - 2.0 * f + g) && c3 == e - 3.0 * g + 3.0 * f - s
    requires low <= s <= high && low <= e <= high
    requires forall v | v in turns && Strictly(v) :: low <= Cubic(s, f, g, e, v) <= high
    ensures TurnsWithin(s, c1, c2, c3, turns, low, high)
  {
    forall v | v in turns && Strictly(v)
      ensures Within(s, c1, c2, c3, v, low, high)
    {
      CubicAsPolynomial(s, f, g, e, v);
    }
    EndValues(s, c1, c2, c3);
  }

  lemma CurveStays(s: real, f: real, g: real, e: real, c1: real, c2: real, c3: real, root: real, t: real, low: real, high: real)
    requires c1 == 3.0 * (f - s) && c2 == 3.0 * (s - 2.0 * f + g) && c3 == e - 3.0 * g + 3.0 * f - s
    requires OnCurve(t) && IsRoot(root, Discriminant(c1, c2, c3))
    requires TurnsWithin(s, c1, c2, c3, Turns(c1, c2, c3, root), low, high)
    ensures low <= Cubic(s, f, g, e, t) <= high
  {
    StaysBetweenTurns(s, c1, c2, c3, root, t, low, high);
    CubicAsPolynomial(s, f, g, e, t);
  }

  lemma CoordinateStays(s: real, f: real, g: real, e: real, sqrt: real -> real, t: real, low: real, high: real)
    requires IsSqrt(sqrt) && OnCurve(t) && low <= s <= high && low <= e <= high
    requires forall v | v in CoordinateTurns(s, f, g, e, sqrt) && Strictly(v) :: low <= Cubic(s, f, g, e, v) <= high
    ensures low <= Cubic(s, f, g, e, t) <= high
  {
    var c1, c2, c3 := 3.0 * (f - s), 3.0 * (s - 2.0 * f + g), e - 3.0 * g + 3.0 * f - s;
    var root := sqrt(Discriminant(c1, c2, c3));
    SameCoordinate(s, f, g, e, c1, c2, c3, CoordinateTurns(s, f, g, e, sqrt), low, high);
    CurveStays(s, f, g, e, c1, c2, c3, root, t, low, high);
  }

  lemma EndValues(c0: real, c1: real, c2: real, c3: real)
    ensures CubicOf(c0, c1, c2, c3, 0.0) == c0 && CubicOf(c0, c1, c2, c3, 1.0) == c0 + c1 + c2 + c3
  {
  }

  lemma PieceInBoxIff(p: Piece, b: Bounds, sqrt: real -> real)
    requires IsSqrt(sqrt) && InBox(b, p.start) && InBox(b, p.end)
    ensures PieceInBox(p, b) <==> TurnsInBox(p, b, sqrt)
  {
    if TurnsInBox(p, b, sqrt) {
      forall t | OnCurve(t)
        ensures InBox(b, PieceAt(p, t))
      {
        PieceStays(p, b, sqrt, t);
      }
    }
    if PieceInBox(p, b) {
      TurnsStay(p, b, sqrt);
    }
  }

  lemma PieceStays(p: Piece, b: Bounds, sqrt: real -> real, t: real)
    requires IsSqrt(sqrt) && InBox(b, p.start) && InBox(b, p.end) && TurnsInBox(p, b, sqrt) && OnCurve(t)
    ensures InBox(b, PieceAt(p, t))
  {
    forall v | v in CoordinateTurns(p.start.x, p.first.x, p.second.x, p.end.x, sqrt) && Strictly(v)
      ensures b.minX <= Cubic(p.start.x, p.first.x, p.second.x, p.end.x, v) <= b.maxX
    {
      assert PieceAt(p, v).x == Cubic(p.start.x, p.first.x, p.second.x, p.end.x, v);
    }
    forall v | v in CoordinateTurns(p.start.y, p.first.y, p.second.y, p.end.y, sqrt) && Strictly(v)
      ensures b.minY <= Cubic(p.start.y, p.first.y, p.second.y, p.end.y, v) <= b.maxY
    {
      assert PieceAt(p, v).y == Cubic(p.start.y, p.first.y, p.second.y, p.end.y, v);
    }
    CoordinateStays(p.start.x, p.first.x, p.second.x, p.end.x, sqrt, t, b.minX, b.maxX);
    CoordinateStays(p.start.y, p.first.y, p.second.y, p.end.y, sqrt, t, b.minY, b.maxY);
  }

  lemma TurnStays(p: Piece, b: Bounds, v: real)
    requires PieceInBox(p, b) && Strictly(v)
    ensures InBox(b, PieceAt(p, v))
  {
  }

  lemma TurnsStay(p: Piece, b: Bounds, sqrt: real -> real)
    requires PieceInBox(p, b)
    ensures TurnsInBox(p, b, sqrt)
  {
    forall v | Strictly(v)
      ensures InBox(b, PieceAt(p, v))
    {
      TurnStays(p, b, v);
    }
  }

  /** The whole path lies in the box of its samples if and only if it does so wherever a coordinate turns. */
  lemma PathInBoxIff(points: seq<Point>, path: seq<Piece>, k: int, b: Bounds, sqrt: real -> real)
    requires k >= 1 && path != [] && SmoothThrough(path, points) && IsBox(b, [points[0]] + PathSamples(path, k)) && IsSqrt(sqrt)
    ensures (forall i | 0 <= i < |path| :: PieceInBox(path[i], b)) <==> (forall i | 0 <= i < |path| :: TurnsInBox(path[i], b, sqrt))
  {
    AnchorsInBox(points, path, k, b);
    forall i | 0 <= i < |path|
      ensures PieceInBox(path[i], b) <==> TurnsInBox(path[i], b, sqrt)
    {
      assert path[i].start == points[i] && path[i].end == points[i + 1];
      PieceInBoxIff(path[i], b, sqrt);
    }
  }

  // ----- a simple sufficient test

  lemma Weights(t: real, r: real) returns (w0: real, w1: real, w2: real, w3: real)
    requires OnCurve(t) && r == 1.0 - t
    ensures w0 == r * r * r && w1 == 3.0 * (r * r) * t && w2 == 3.0 * r * (t * t) && w3 == t * t * t
    ensures w0 >= 0.0 && w1 >= 0.0 && w2 >= 0.0 && w3 >= 0.0 && w0 + w1 + w2 + w3 == 1.0
  {
    w0, w1, w2, w3 := r * r * r, 3.0 * (r * r) * t, 3.0 * r * (t * t), t * t * t;
    ProductSign(r, r);
    ProductSign(t, t);
    ProductSign(r * r, r);
    ProductSign(3.0 * (r * r), t);
    ProductSign(3.0 * r, t * t);
    ProductSign(t * t, t);
  }

  lemma WeightsOfOne(w0: real, w1: real, w2: real, w3: real, a: real)
    requires w0 + w1 + w2 + w3 == 1.0
    ensures w0 * a + w1 * a + w2 * a + w3 * a == a
  {
  }

  lemma SumWithin(a: real, b: real, c: real, d: real, l0: real, l1: real, l2: real, l3: real, h0: real, h1: real, h2: real, h3: real)
    requires l0 <= a <= h0 && l1 <= b <= h1 && l2 <= c <= h2 && l3 <= d <= h3
    ensures l0 + l1 + l2 + l3 <= a + b + c + d <= h0 + h1 + h2 + h3
  {
  }

  lemma WeightedWithin(w0: real, w1: real, w2: real, w3: real, a: real, b: real, c: real, d: real, low: real, high: real)
    requires w0 >= 0.0 && w1 >= 0.0 && w2 >= 0.0 && w3 >= 0.0 && w0 + w1 + w2 + w3 == 1.0
    requires low <= a <= high && low <= b <= high && low <= c <= high && low <= d <= high
    ensures low <= w0 * a + w1 * b + w2 * c + w3 * d <= high
  {
    WeightWithin(w0, a, low, high);
    WeightWithin(w1, b, low, high);
    WeightWithin(w2, c, low, high);
    WeightWithin(w3, d, low, high);
    WeightsOfOne(w0, w1, w2, w3, low);
    WeightsOfOne(w0, w1, w2, w3, high);
    SumWithin(w0 * a, w1 * b, w2 * c, w3 * d, w0 * low, w1 * low, w2 * low, w3 * low, w0 * high, w1 * high, w2 * high, w3 * high);
  }

  lemma WeightWithin(w: real, a: real, low: real, high: real)
    requires w >= 0.0 && low <= a <= high
    ensures w * low <= w * a <= w * high
  {
    Scale(w, low, a);
    Scale(w, a, high);
  }

  lemma CubicWithin(s: real, f: real, g: real, e: real, t: real, low: real, high: real)
    requires OnCurve(t) && low <= s <= high && low <= f <= high && low <= g <= high && low <= e <= high
    ensures low <= Cubic(s, f, g, e, t) <= high
  {
    var w0, w1, w2, w3 := Weights(t, 1.0 - t);
    WeightedWithin(w0, w1, w2, w3, s, f, g, e, low, high);
  }

  /** Control points in the box of the samples keep the whole path in it. */
  lemma ControlsInBoxSuffice(points: seq<Point>, path: seq<Piece>, k: int, b: Bounds)
    requires k >= 1 && path != [] && SmoothThrough(path, points) && IsBox(b, [points[0]] + PathSamples(path, k))
    requires forall i | 0 <= i < |path| :: InBox(b, path[i].first) && InBox(b, path[i].second)
    ensures forall i | 0 <= i < |path| :: PieceInBox(path[i], b)
  {
    AnchorsInBox(points, path, k, b);
    forall i, t | 0 <= i < |path| && OnCurve(t)
      ensures InBox(b, PieceAt(path[i], t))
    {
      var p := path[i];
      assert p.start == points[i] && p.end == points[i + 1];
      CubicWithin(p.start.x, p.first.x, p.second.x, p.end.x, t, b.minX, b.maxX);
      CubicWithin(p.start.y, p.first.y, p.second.y, p.end.y, t, b.minY, b.maxY);
    }
  }
}
