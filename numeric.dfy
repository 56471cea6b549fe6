/** The Python numeric built-ins the engine relies on, over unbounded integers and exact reals. */
module Numeric {

  function Min(a: real, b: real): real { if a <= b then a else b }

  function Max(a: real, b: real): real { if a <= b then b else a }

  function Abs(a: real): real { if a < 0.0 then -a else a }

  /** Scaling by a factor in `[0, 1]` stays between zero and the value scaled. */
  lemma ScaleWithin(w: real, t: real)
    requires 0.0 <= t <= 1.0
    ensures w >= 0.0 ==> 0.0 <= w * t <= w
    ensures w < 0.0 ==> w <= w * t <= 0.0
  {
    if w >= 0.0 {
      assert w - w * t == w * (1.0 - t);
    } else {
      assert w * t - w == -w * (1.0 - t);
    }
  }

  lemma MulNonNegative(a: real, b: real)
    requires a >= 0.0 && b >= 0.0
    ensures a * b >= 0.0
  {
  }

  /** `w * lo <= w * a <= w * hi` for a non-negative weight. */
  lemma ScaleBetween(w: real, a: real, lo: real, hi: real)
    requires w >= 0.0 && lo <= a <= hi
    ensures w * lo <= w * a <= w * hi
  {
    MulNonNegative(w, a - lo);
    MulNonNegative(w, hi - a);
    assert w * (a - lo) == w * a - w * lo;
    assert w * (hi - a) == w * hi - w * a;
  }

  /** `int(x)` on a float: truncation toward zero. */
  function Trunc(x: real): (r: int)
    ensures 0.0 <= x ==> r as real <= x < r as real + 1.0
    ensures x < 0.0 ==> r as real - 1.0 < x <= r as real
  {
    if x >= 0.0 then x.Floor else -((-x).Floor)
  }

  /** `a / b` truncated toward zero, on integers. */
  function TruncDiv(a: int, b: int): int
    requires b > 0
  {
    if a >= 0 then a / b else -((-a) / b)
  }

  /** Truncating a tenth on integers is `int()` of the real quotient. */
  lemma TruncDivTenths(a: int)
    ensures TruncDiv(a, 10) == Trunc(a as real / 10.0)
  {
    var q := (if a >= 0 then a else -a) / 10;
    var m := if a >= 0 then a else -a;
    assert q as real <= m as real / 10.0 < q as real + 1.0;
    if a < 0 {
      assert -(a as real / 10.0) == m as real / 10.0;
    }
  }

  lemma TruncDivTenthsMonotone(a: int, b: int)
    requires a <= b
    ensures TruncDiv(a, 10) <= TruncDiv(b, 10)
  {
  }

  /** `round(x)` on a float: the nearest integer, ties going to the even neighbour. */
  function RoundHalfEven(x: real): (r: int)
    ensures r as real - 0.5 <= x <= r as real + 0.5
    ensures x - x.Floor as real == 0.5 ==> r % 2 == 0
  {
    var f := x.Floor;
    var frac := x - f as real;
    if frac < 0.5 then f
    else if frac > 0.5 then f + 1
    else if f % 2 == 0 then f
    else f + 1
  }

  /** Rounding a value that lies between two integers stays between them. */
  lemma RoundWithin(x: real, lo: int, hi: int)
    requires lo as real <= x <= hi as real
    ensures lo <= RoundHalfEven(x) <= hi
  {
  }

  /** A real drawn by `uniform(a, b)`, which may be given its bounds in either order. */
  predicate Between(v: real, a: real, b: real)
  {
    Min(a, b) <= v <= Max(a, b)
  }

  /**
   * `max(lo, min(v, lo + width - 1))`: pins `v` to the last pixel of a row of `width`
   * pixels starting at `lo`; an empty row collapses to `lo`.
   */
  function Clamp(v: int, lo: int, width: int): (r: int)
    ensures width >= 1 ==> lo <= r <= lo + width - 1
    ensures width <= 0 ==> r == lo
    ensures lo <= v <= lo + width - 1 ==> r == v
    ensures v < lo ==> r == lo
    ensures width >= 1 && v > lo + width - 1 ==> r == lo + width - 1
  {
    if v <= lo + width - 1 then (if v >= lo then v else lo)
    else (if lo + width - 1 >= lo then lo + width - 1 else lo)
  }

  lemma ClampMonotone(a: int, b: int, lo: int, width: int)
    requires a <= b
    ensures Clamp(a, lo, width) <= Clamp(b, lo, width)
  {
  }

  /** `w` halved `n` times. */
  function Halved(w: real, n: nat): real
    decreases n
  {
    if n == 0 then w else Halved(w, n - 1) / 2.0
  }

  lemma SquareAbove(v: real)
    requires v >= 0.0
    ensures v < (v + 1.0) * (v + 1.0)
  {
    assert (v + 1.0) * (v + 1.0) == (v + 1.0) * v + (v + 1.0);
  }

  const SqrtHalvings: nat := 64

  /**
   * `v ** 0.5`, computed by bisection of `[0, v + 1]`: a non-negative root from below,
   * within `(v + 1) / 2^64` of the exact root.
   */
  method Sqrt(v: real) returns (r: real)
    requires v >= 0.0
    ensures r >= 0.0 && r * r <= v
    ensures v < (r + Halved(v + 1.0, SqrtHalvings)) * (r + Halved(v + 1.0, SqrtHalvings))
  {
    SquareAbove(v);
    var lo, hi := 0.0, v + 1.0;
    for i := 0 to SqrtHalvings
      invariant 0.0 <= lo < hi
      invariant lo * lo <= v < hi * hi
      invariant hi - lo == Halved(v + 1.0, i)
    {
      var mid := (lo + hi) / 2.0;
      if mid * mid <= v {
        lo := mid;
      } else {
        hi := mid;
      }
    }
    r := lo;
  }
}
