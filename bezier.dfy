/** The curve geometry of `Humanization`: a cubic Bezier evaluator and the sampled mouse path. */
module Bezier {
  import opened Wrappers
  import opened Numeric

  datatype Point = Point(x: real, y: real)

  /** Linear interpolation from `a` (at `t = 0`) to `b` (at `t = 1`). */
  function Lerp(a: real, b: real, t: real): (r: real)
    ensures t == 0.0 ==> r == a
    ensures t == 1.0 ==> r == b
    ensures 0.0 <= t <= 1.0 ==> Min(a, b) <= r <= Max(a, b)
  {
    var span := b - a;
    var step := span * t;
    assert t == 0.0 ==> step == 0.0;
    assert t == 1.0 ==> step == span;
    if 0.0 <= t <= 1.0 then ScaleWithin(span, t); a + step
    else a + step
  }

  /** One coordinate of the cubic in Bernstein form. */
  function Bernstein(t: real, a0: real, a1: real, a2: real, a3: real): real
  {
    var u := 1.0 - t;
    var tt := t * t;
    var uu := u * u;
    var uuu := uu * u;
    var ttt := tt * t;
    uuu * a0 + 3.0 * uu * t * a1 + 3.0 * u * tt * a2 + ttt * a3
  }

  /** The cubic at `t`, without the domain check on `t`. */
  function BezierAt(t: real, p0: Point, p1: Point, p2: Point, p3: Point): Point
  {
    Point(Bernstein(t, p0.x, p1.x, p2.x, p3.x), Bernstein(t, p0.y, p1.y, p2.y, p3.y))
  }

  /** `cubic_bezier`: the point at parameter `t`, or `ValueError` outside `[0, 1]`. */
  function CubicBezier(t: real, p0: Point, p1: Point, p2: Point, p3: Point): (r: Result<Point>)
    ensures r.Err? <==> !(0.0 <= t <= 1.0)
    ensures r.Err? ==> r.error == ValueError
    ensures t == 0.0 ==> r == Ok(p0)
    ensures t == 1.0 ==> r == Ok(p3)
  {
    if !(0.0 <= t <= 1.0) then Err(ValueError)
    else
      BezierAtEnds(p0, p1, p2, p3);
      Ok(BezierAt(t, p0, p1, p2, p3))
  }

  lemma BezierAtEnds(p0: Point, p1: Point, p2: Point, p3: Point)
    ensures BezierAt(0.0, p0, p1, p2, p3) == p0
    ensures BezierAt(1.0, p0, p1, p2, p3) == p3
  {
  }

  /** A convex combination of four values lies between their bounds. */
  lemma WeightedWithin(w0: real, w1: real, w2: real, w3: real,
                       a0: real, a1: real, a2: real, a3: real, lo: real, hi: real)
    requires w0 >= 0.0 && w1 >= 0.0 && w2 >= 0.0 && w3 >= 0.0
    requires w0 + w1 + w2 + w3 == 1.0
    requires lo <= a0 <= hi && lo <= a1 <= hi && lo <= a2 <= hi && lo <= a3 <= hi
    ensures lo <= w0 * a0 + w1 * a1 + w2 * a2 + w3 * a3 <= hi
  {
    ScaleBetween(w0, a0, lo, hi);
    ScaleBetween(w1, a1, lo, hi);
    ScaleBetween(w2, a2, lo, hi);
    ScaleBetween(w3, a3, lo, hi);
    SumBetween(w0 * lo, w1 * lo, w2 * lo, w3 * lo, w0 * a0, w1 * a1, w2 * a2, w3 * a3,
               w0 * hi, w1 * hi, w2 * hi, w3 * hi);
    SumOfScaled(w0, w1, w2, w3, lo);
    SumOfScaled(w0, w1, w2, w3, hi);
  }

  lemma SumBetween(l0: real, l1: real, l2: real, l3: real, x0: real, x1: real, x2: real, x3: real,
                   h0: real, h1: real, h2: real, h3: real)
    requires l0 <= x0 <= h0 && l1 <= x1 <= h1 && l2 <= x2 <= h2 && l3 <= x3 <= h3
    ensures l0 + l1 + l2 + l3 <= x0 + x1 + x2 + x3 <= h0 + h1 + h2 + h3
  {
  }

  lemma SumOfScaled(w0: real, w1: real, w2: real, w3: real, c: real)
    requires w0 + w1 + w2 + w3 == 1.0
    ensures w0 * c + w1 * c + w2 * c + w3 * c == c
  {
    assert w0 * c + w1 * c + w2 * c + w3 * c == (w0 + w1 + w2 + w3) * c;
  }

  /** The Bernstein weights at `t` in `[0, 1]` are non-negative and sum to one. */
  lemma BernsteinWeights(t: real)
    requires 0.0 <= t <= 1.0
    ensures var u := 1.0 - t;
      && u * u * u >= 0.0 && 3.0 * (u * u) * t >= 0.0 && 3.0 * u * (t * t) >= 0.0 && t * t * t >= 0.0
      && u * u * u + 3.0 * (u * u) * t + 3.0 * u * (t * t) + t * t * t == 1.0
  {
    var u := 1.0 - t;
    MulNonNegative(u, u);
    MulNonNegative(t, t);
    MulNonNegative(u * u, u);
    MulNonNegative(u * u, t);
    MulNonNegative(u, t * t);
    MulNonNegative(t * t, t);
    CubeOfSum(u, t);
  }

  lemma CubeOfSum(u: real, t: real)
    ensures u * u * u + 3.0 * (u * u) * t + 3.0 * u * (t * t) + t * t * t == (u + t) * (u + t) * (u + t)
  {
    assert (u + t) * (u + t) == u * u + 2.0 * (u * t) + t * t;
    assert (u + t) * (u + t) * (u + t) == (u * u + 2.0 * (u * t) + t * t) * (u + t);
  }

  lemma BernsteinWithin(t: real, a0: real, a1: real, a2: real, a3: real)
    requires 0.0 <= t <= 1.0
    ensures Min(Min(a0, a1), Min(a2, a3)) <= Bernstein(t, a0, a1, a2, a3) <= Max(Max(a0, a1), Max(a2, a3))
  {
    var u := 1.0 - t;
    var w0, w1, w2, w3 := u * u * u, 3.0 * (u * u) * t, 3.0 * u * (t * t), t * t * t;
    assert Bernstein(t, a0, a1, a2, a3) == w0 * a0 + w1 * a1 + w2 * a2 + w3 * a3;
    BernsteinWeights(t);
    var lo, hi := Min(Min(a0, a1), Min(a2, a3)), Max(Max(a0, a1), Max(a2, a3));
    assert lo <= a0 <= hi && lo <= a1 <= hi && lo <= a2 <= hi && lo <= a3 <= hi;
    WeightedWithin(w0, w1, w2, w3, a0, a1, a2, a3, lo, hi);
  }

  /**
   * Every point of the curve lies in the axis-aligned box spanned by its four
   * control points (the convex-hull property, axis by axis).
   */
  lemma CubicBezierWithinControlBox(t: real, p0: Point, p1: Point, p2: Point, p3: Point)
    requires 0.0 <= t <= 1.0
    ensures CubicBezier(t, p0, p1, p2, p3).Ok?
    ensures var q := CubicBezier(t, p0, p1, p2, p3).value;
      && Min(Min(p0.x, p1.x), Min(p2.x, p3.x)) <= q.x <= Max(Max(p0.x, p1.x), Max(p2.x, p3.x))
      && Min(Min(p0.y, p1.y), Min(p2.y, p3.y)) <= q.y <= Max(Max(p0.y, p1.y), Max(p2.y, p3.y))
  {
    BernsteinWithin(t, p0.x, p1.x, p2.x, p3.x);
    BernsteinWithin(t, p0.y, p1.y, p2.y, p3.y);
  }

  /** One coordinate of a cubic whose inner controls sit at thirds of the chord. */
  lemma CollinearCoordinate(t: real, a: real, b: real)
    ensures Bernstein(t, a, Lerp(a, b, 1.0 / 3.0), Lerp(a, b, 2.0 / 3.0), b) == Lerp(a, b, t)
  {
    var u := 1.0 - t;
    var d := b - a;
    var w0, w1, w2, w3 := u * u * u, 3.0 * (u * u) * t, 3.0 * u * (t * t), t * t * t;
    assert Lerp(a, b, 1.0 / 3.0) == a + d / 3.0;
    assert Lerp(a, b, 2.0 / 3.0) == a + 2.0 * d / 3.0;
    assert Bernstein(t, a, a + d / 3.0, a + 2.0 * d / 3.0, b)
      == w0 * a + w1 * (a + d / 3.0) + w2 * (a + 2.0 * d / 3.0) + w3 * (a + d);
    assert w1 * (a + d / 3.0) == w1 * a + (u * u) * t * d;
    assert w2 * (a + 2.0 * d / 3.0) == w2 * a + 2.0 * u * (t * t) * d;
    assert w3 * (a + d) == w3 * a + w3 * d;
    CubeOfSum(u, t);
    assert w0 + w1 + w2 + w3 == 1.0;
    assert w0 * a + w1 * a + w2 * a + w3 * a == (w0 + w1 + w2 + w3) * a;
    assert (u * u) * t + 2.0 * u * (t * t) + t * t * t == t by {
      assert (u * u) * t + 2.0 * u * (t * t) + t * t * t == t * ((u + t) * (u + t));
    }
    assert (u * u) * t * d + 2.0 * u * (t * t) * d + w3 * d == ((u * u) * t + 2.0 * u * (t * t) + t * t * t) * d;
  }

  /**
   * With the inner control points at one and two thirds of the chord the cubic is
   * the straight segment itself, traversed at constant speed.
   */
  lemma CubicBezierCollinear(t: real, p0: Point, p3: Point)
    requires 0.0 <= t <= 1.0
    ensures CubicBezier(t, p0,
                        Point(Lerp(p0.x, p3.x, 1.0 / 3.0), Lerp(p0.y, p3.y, 1.0 / 3.0)),
                        Point(Lerp(p0.x, p3.x, 2.0 / 3.0), Lerp(p0.y, p3.y, 2.0 / 3.0)),
                        p3)
            == Ok(Point(Lerp(p0.x, p3.x, t), Lerp(p0.y, p3.y, t)))
  {
    CollinearCoordinate(t, p0.x, p3.x);
    CollinearCoordinate(t, p0.y, p3.y);
  }

  /** The collinear example of the tests: the middle of the curve is `(150, 150)`. */
  lemma CubicBezierCollinearMidpoint()
    ensures CubicBezier(0.5, Point(0.0, 0.0), Point(100.0, 100.0), Point(200.0, 200.0), Point(300.0, 300.0))
            == Ok(Point(150.0, 150.0))
  {
    CubicBezierCollinear(0.5, Point(0.0, 0.0), Point(300.0, 300.0));
  }

  /** The four uniform draws that displace the two inner control points. */
  datatype ControlDraws = ControlDraws(dx1: real, dy1: real, dx2: real, dy2: real)

  /** The default `steps` of `generate_bezier_points`. */
  const DefaultBezierSteps: int := 40

  /** Fractions of the chord at which the inner control points are placed. */
  const FirstControlAt: real := 0.33
  const SecondControlAt: real := 0.66

  /** The displacement cap: `min(50, 0.2 * dist)`. */
  function MaxControlOffset(dist: real): (m: real)
    ensures m <= 50.0 && m <= 0.2 * dist
    ensures m == 50.0 || m == 0.2 * dist
  {
    if 50.0 <= dist * 0.2 then 50.0 else dist * 0.2
  }

  /** Every draw lies in `[-m, m]`, the range of `uniform(-m, m)`. */
  predicate DrawsWithin(d: ControlDraws, m: real)
  {
    -m <= d.dx1 <= m && -m <= d.dy1 <= m && -m <= d.dx2 <= m && -m <= d.dy2 <= m
  }

  function SquaredDistance(p: Point, q: Point): (sq: real)
    ensures sq >= 0.0
  {
    var dx, dy := q.x - p.x, q.y - p.y;
    SquareNonNegative(dx);
    SquareNonNegative(dy);
    dx * dx + dy * dy
  }

  lemma SquareNonNegative(a: real)
    ensures a * a >= 0.0
  {
    if a < 0.0 {
      MulNonNegative(-a, -a);
    } else {
      MulNonNegative(a, a);
    }
  }

  /** The point a fraction `t` of the way from `p0` to `p3`. */
  function ChordPoint(p0: Point, p3: Point, t: real): Point
  {
    Point(Lerp(p0.x, p3.x, t), Lerp(p0.y, p3.y, t))
  }

  function Displaced(p: Point, dx: real, dy: real): Point
  {
    Point(p.x + dx, p.y + dy)
  }

  function FirstControl(p0: Point, p3: Point, d: ControlDraws): Point
  {
    Displaced(ChordPoint(p0, p3, FirstControlAt), d.dx1, d.dy1)
  }

  function SecondControl(p0: Point, p3: Point, d: ControlDraws): Point
  {
    Displaced(ChordPoint(p0, p3, SecondControlAt), d.dx2, d.dy2)
  }

  /**
   * `generate_bezier_points` with its random draws supplied: `steps` samples at
   * `t = i / (steps - 1)`; no samples for `steps <= 0`, division by zero for `steps == 1`.
   */
  function BezierPoints(p0: Point, p3: Point, steps: int, d: ControlDraws): (r: Result<seq<Point>>)
    ensures steps <= 0 ==> r == Ok([])
    ensures steps == 1 ==> r == Err(ZeroDivisionError)
    ensures steps >= 2 ==> r.Ok? && |r.value| == steps
    ensures steps >= 2 ==> r.value[0] == p0 && r.value[steps - 1] == p3
    ensures steps >= 2 ==> forall i :: 0 <= i < steps ==>
      Ok(r.value[i]) == CubicBezier(SampleAt(i, steps - 1), p0, FirstControl(p0, p3, d), SecondControl(p0, p3, d), p3)
  {
    if steps <= 0 then Ok([])
    else if steps == 1 then Err(ZeroDivisionError)
    else
      var p1 := FirstControl(p0, p3, d);
      var p2 := SecondControl(p0, p3, d);
      var pts := seq(steps, i requires 0 <= i < steps => BezierAt(SampleAt(i, steps - 1), p0, p1, p2, p3));
      BezierAtEnds(p0, p1, p2, p3);
      Ok(pts)
  }

  /** The curve parameter of sample `i` of `n + 1`: `i / n`, which runs from 0 to 1. */
  function SampleAt(i: int, n: int): (t: real)
    requires n > 0
    ensures 0 <= i <= n ==> 0.0 <= t <= 1.0
    ensures i == 0 ==> t == 0.0
    ensures i == n ==> t == 1.0
  {
    var t := i as real / n as real;
    assert t * n as real == i as real;
    t
  }

  /**
   * The control points stay within the cap of their chord positions: at most 50 and
   * at most a fifth of the endpoint distance on each axis.
   */
  lemma ControlPointsNearChord(p0: Point, p3: Point, dist: real, d: ControlDraws)
    requires 0.0 <= dist && dist * dist <= SquaredDistance(p0, p3)
    requires DrawsWithin(d, MaxControlOffset(dist))
    ensures NearChord(FirstControl(p0, p3, d), ChordPoint(p0, p3, FirstControlAt), SquaredDistance(p0, p3))
    ensures NearChord(SecondControl(p0, p3, d), ChordPoint(p0, p3, SecondControlAt), SquaredDistance(p0, p3))
  {
    DisplacedNear(ChordPoint(p0, p3, FirstControlAt), d.dx1, d.dy1, dist, SquaredDistance(p0, p3));
    DisplacedNear(ChordPoint(p0, p3, SecondControlAt), d.dx2, d.dy2, dist, SquaredDistance(p0, p3));
  }

  /** `p` is at most 50 from `anchor` on each axis, and at most a fifth of `sqrt(sq)`. */
  predicate NearChord(p: Point, anchor: Point, sq: real)
  {
    && Abs(p.x - anchor.x) <= 50.0 && Abs(p.y - anchor.y) <= 50.0
    && (p.x - anchor.x) * (p.x - anchor.x) <= 0.04 * sq
    && (p.y - anchor.y) * (p.y - anchor.y) <= 0.04 * sq
  }

  lemma DisplacedNear(anchor: Point, dx: real, dy: real, dist: real, sq: real)
    requires 0.0 <= dist && dist * dist <= sq
    requires -MaxControlOffset(dist) <= dx <= MaxControlOffset(dist)
    requires -MaxControlOffset(dist) <= dy <= MaxControlOffset(dist)
    ensures NearChord(Displaced(anchor, dx, dy), anchor, sq)
  {
    var p := Displaced(anchor, dx, dy);
    assert p.x - anchor.x == dx && p.y - anchor.y == dy;
    OffsetWithinCap(dx, dist, sq);
    OffsetWithinCap(dy, dist, sq);
  }

  /** A draw from `uniform(-m, m)` with `m = min(50, 0.2 * dist)` is at most 50 and at most `0.2 * dist`. */
  lemma OffsetWithinCap(o: real, dist: real, sq: real)
    requires 0.0 <= dist && dist * dist <= sq
    requires -MaxControlOffset(dist) <= o <= MaxControlOffset(dist)
    ensures Abs(o) <= 50.0
    ensures o * o <= 0.04 * sq
  {
    var m := MaxControlOffset(dist);
    SquareBelow(o, m);
    assert m * m <= (0.2 * dist) * (0.2 * dist) by {
      ScaleBetween(m, m, 0.0, 0.2 * dist);
      ScaleBetween(0.2 * dist, m, 0.0, 0.2 * dist);
    }
    assert (0.2 * dist) * (0.2 * dist) == 0.04 * (dist * dist);
  }

  lemma SquareBelow(o: real, m: real)
    requires -m <= o <= m
    ensures o * o <= m * m
  {
    assert m * m - o * o == (m - o) * (m + o);
    assert (m - o) * (m + o) >= 0.0;
  }

  /**
   * The three-step path of the tests from `(0, 0)` to `(100, 100)`: for every choice of
   * draws within the cap of 50 the middle sample lies strictly inside the square.
   */
  lemma ThreeStepPathMiddleInside(d: ControlDraws)
    requires DrawsWithin(d, 50.0)
    ensures var r := BezierPoints(Point(0.0, 0.0), Point(100.0, 100.0), 3, d);
      && r.Ok? && |r.value| == 3
      && r.value[0] == Point(0.0, 0.0) && r.value[2] == Point(100.0, 100.0)
      && 0.0 < r.value[1].x < 100.0 && 0.0 < r.value[1].y < 100.0
  {
    var p0, p3 := Point(0.0, 0.0), Point(100.0, 100.0);
    var r := BezierPoints(p0, p3, 3, d);
    assert (1 as real) / ((3 - 1) as real) == 0.5;
    assert Ok(r.value[1]) == CubicBezier(0.5, p0, FirstControl(p0, p3, d), SecondControl(p0, p3, d), p3);
    var p1, p2 := FirstControl(p0, p3, d), SecondControl(p0, p3, d);
    assert p1 == Point(33.0 + d.dx1, 33.0 + d.dy1);
    assert p2 == Point(66.0 + d.dx2, 66.0 + d.dy2);
    assert r.value[1] == Point((3.0 * p1.x + 3.0 * p2.x + 100.0) / 8.0, (3.0 * p1.y + 3.0 * p2.y + 100.0) / 8.0);
  }
}
