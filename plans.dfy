/**
 * What each operation of `Humanization` sends to the page: one predicate per
 * operation over the commands it appends, with the ranges its random draws can take,
 * and the lemmas that follow from them (counts, order, bounds).
 *
 * A log predicate describes the shape of the commands relative to the move's start and
 * target points; how those points follow from the element's box is stated apart, by
 * `Center` and `TargetChosen`, so that the two can be reasoned about separately.
 */
module Plans {
  import opened Wrappers
  import opened Numeric
  import opened Config
  import opened Commands
  import opened Bezier

  /** `get_box`: the element's bounding box (`width` and `height` renamed `w` and `h`). */
  datatype Box = Box(x: real, y: real, w: real, h: real)

  /** A bounding box as the browser reports it never has negative extent. */
  predicate ValidBox(b: Box)
  {
    b.w >= 0.0 && b.h >= 0.0
  }

  /** The integer region `move_to` works in: `int()` of each field of the box. */
  datatype Region = Region(x: int, y: int, w: int, h: int)

  function RegionOf(b: Box): (r: Region)
    ensures ValidBox(b) ==> r.w >= 0 && r.h >= 0
  {
    Region(Trunc(b.x), Trunc(b.y), Trunc(b.w), Trunc(b.h))
  }

  /** Where `move_to` starts: `x + w // 2, y + h // 2` (floor division, as Dafny's `/` by 2 is). */
  function Center(r: Region): (c: (int, int))
    ensures 0 <= r.w - 2 * (c.0 - r.x) <= 1 && 0 <= r.h - 2 * (c.1 - r.y) <= 1
    ensures r.w >= 1 ==> r.x <= c.0 <= r.x + r.w - 1
    ensures r.h >= 1 ==> r.y <= c.1 <= r.y + r.h - 1
  {
    (r.x + r.w / 2, r.y + r.h / 2)
  }

  // Ranges of the random draws, by profile.

  predicate InitialStepsOk(cfg: HumanizationConfig, k: int)
  {
    if cfg.fast then 5 <= k <= 10 else 30 <= k <= 150
  }

  predicate InitialPauseOk(cfg: HumanizationConfig, d: real)
  {
    if cfg.fast then 0.01 <= d <= 0.03 else 0.05 <= d <= 0.1
  }

  predicate BezierStepsOk(cfg: HumanizationConfig, n: int)
  {
    if cfg.fast then 20 <= n <= 30 else 80 <= n <= 120
  }

  function StepPauseMin(cfg: HumanizationConfig): real { if cfg.fast then 0.001 else 0.002 }

  function StepPauseMax(cfg: HumanizationConfig): real { if cfg.fast then 0.005 else 0.015 }

  /** The pause after one path point: the profile's range, or a hesitation when humanized. */
  predicate StepPauseOk(cfg: HumanizationConfig, d: real)
  {
    (StepPauseMin(cfg) <= d <= StepPauseMax(cfg)) || (cfg.humanize && 0.03 <= d <= 0.07)
  }

  predicate ClickDelayOk(cfg: HumanizationConfig, d: real)
  {
    if cfg.fast then 50.0 <= d <= 80.0 else 100.0 <= d <= 150.0
  }

  predicate ScrollStepsOk(cfg: HumanizationConfig, n: int)
  {
    if cfg.fast then 10 <= n <= 20 else 30 <= n <= 50
  }

  // Choosing the target point.

  /**
   * The range the horizontal target is drawn from before clamping: `int(x + w * 0.7)` to
   * `int(x + w * 0.8)` in input mode, the explicit offset, or a rounded draw of
   * `uniform(0, w)` added to `x`.
   */
  function RawRangeX(r: Region, offsetX: Option<int>, inputMode: bool): (int, int)
  {
    if inputMode then (TruncDiv(10 * r.x + 7 * r.w, 10), TruncDiv(10 * r.x + 8 * r.w, 10))
    else if offsetX.Some? then (r.x + offsetX.value, r.x + offsetX.value)
    else if r.w >= 0 then (r.x, r.x + r.w)
    else (r.x + r.w, r.x)
  }

  /** The same for the vertical target: the whole height in input mode. */
  function RawRangeY(r: Region, offsetY: Option<int>, inputMode: bool): (int, int)
  {
    if inputMode then (r.y, r.y + r.h)
    else if offsetY.Some? then (r.y + offsetY.value, r.y + offsetY.value)
    else if r.h >= 0 then (r.y, r.y + r.h)
    else (r.y + r.h, r.y)
  }

  /** The input-mode bounds are `int()` of `x + w * 0.7` and `x + w * 0.8` over the reals. */
  lemma InputRangeIsTruncation(r: Region)
    ensures RawRangeX(r, None, true).0 == Trunc(r.x as real + r.w as real * 0.7)
    ensures RawRangeX(r, None, true).1 == Trunc(r.x as real + r.w as real * 0.8)
  {
    TruncDivTenths(10 * r.x + 7 * r.w);
    TruncDivTenths(10 * r.x + 8 * r.w);
    assert (10 * r.x + 7 * r.w) as real / 10.0 == r.x as real + r.w as real * 0.7;
    assert (10 * r.x + 8 * r.w) as real / 10.0 == r.x as real + r.w as real * 0.8;
  }

  /**
   * The target is the clamp of some value of the raw range on each axis. Since clamping is
   * monotone and moves in unit steps, these are exactly the values between the clamps
   * of the range's ends.
   */
  predicate TargetChosen(r: Region, offsetX: Option<int>, offsetY: Option<int>, inputMode: bool, target: (int, int))
  {
    var (loX, hiX) := RawRangeX(r, offsetX, inputMode);
    var (loY, hiY) := RawRangeY(r, offsetY, inputMode);
    && Clamp(loX, r.x, r.w) <= target.0 <= Clamp(hiX, r.x, r.w)
    && Clamp(loY, r.y, r.h) <= target.1 <= Clamp(hiY, r.y, r.h)
  }

  /**
   * The returned target lies in the region on each axis, `x <= tx <= x + w - 1`, and
   * collapses to the region's corner along an axis of zero extent; an explicit offset
   * outside input mode is used as given whenever it lands inside.
   */
  lemma TargetInRegion(r: Region, offsetX: Option<int>, offsetY: Option<int>, inputMode: bool, target: (int, int))
    requires TargetChosen(r, offsetX, offsetY, inputMode, target)
    ensures r.w >= 1 ==> r.x <= target.0 <= r.x + r.w - 1
    ensures r.w <= 0 ==> target.0 == r.x
    ensures r.h >= 1 ==> r.y <= target.1 <= r.y + r.h - 1
    ensures r.h <= 0 ==> target.1 == r.y
    ensures !inputMode && offsetX.Some? ==> target.0 == Clamp(r.x + offsetX.value, r.x, r.w)
    ensures !inputMode && offsetY.Some? ==> target.1 == Clamp(r.y + offsetY.value, r.y, r.h)
  {
    var (loX, hiX) := RawRangeX(r, offsetX, inputMode);
    var (loY, hiY) := RawRangeY(r, offsetY, inputMode);
    assert Clamp(loX, r.x, r.w) <= target.0 <= Clamp(hiX, r.x, r.w);
    assert Clamp(loY, r.y, r.h) <= target.1 <= Clamp(hiY, r.y, r.h);
  }

  /**
   * In input mode the horizontal target lies in the 70–80% band of the region. (For a
   * negative `x` and a width under 5, truncation toward zero can put the upper end of the
   * band past the region, and clamping then decides.)
   */
  lemma InputTargetInBand(r: Region, target: (int, int))
    requires (r.x >= 0 || r.w >= 5) && r.w >= 1 && TargetChosen(r, None, None, true, target)
    ensures TruncDiv(10 * r.x + 7 * r.w, 10) <= target.0 <= TruncDiv(10 * r.x + 8 * r.w, 10)
  {
    var a, b := 10 * r.x + 7 * r.w, 10 * r.x + 8 * r.w;
    assert r.x <= TruncDiv(a, 10) by {
      if a < 0 {
        assert -a <= -10 * r.x;
        assert (-a) / 10 <= -r.x;
      }
    }
    assert TruncDiv(b, 10) <= r.x + r.w - 1 by {
      if b >= 0 {
        assert b < 10 * (r.x + r.w);
      } else {
        assert r.w >= 5;
        assert -b >= 10 * (1 - r.x - r.w);
        assert (-b) / 10 >= 1 - r.x - r.w;
      }
    }
  }

  // The log of one `move_to`.

  /**
   * The per-point part of a move, from position `from` on: a one-step `Move`, then its
   * pause, for every point.
   */
  predicate CurveTrace(cfg: HumanizationConfig, cmds: seq<Command>, from: nat)
  {
    |cmds| % 2 == 0 &&
    forall i :: from <= i < |cmds| ==>
      if i % 2 == 0 then cmds[i].Move? && cmds[i].steps == 1
      else cmds[i].Sleep? && StepPauseOk(cfg, cmds[i].seconds)
  }

  /** The opening of every move: a direct move to `start` in several steps, then a pause. */
  predicate Approach(cfg: HumanizationConfig, start: (int, int), cmds: seq<Command>)
  {
    && |cmds| >= 2
    && cmds[0].Move? && cmds[0].x == start.0 as real && cmds[0].y == start.1 as real
    && InitialStepsOk(cfg, cmds[0].steps)
    && cmds[1].Sleep? && InitialPauseOk(cfg, cmds[1].seconds)
  }

  /**
   * `move_to` appended `cmds`, starting from `start` and returning `target`: the approach,
   * then the curve's points, each a one-step move and a short pause; without jitter the
   * first point is the start and the last is the target itself.
   */
  predicate MoveToLog(cfg: HumanizationConfig, start: (int, int), cmds: seq<Command>, target: (int, int))
  {
    && Approach(cfg, start, cmds)
    && CurveTrace(cfg, cmds, 2)
    && BezierStepsOk(cfg, (|cmds| - 2) / 2)
    && (!cfg.humanize ==>
          && cmds[2] == Move(start.0 as real, start.1 as real, 1)
          && cmds[|cmds| - 2] == Move(target.0 as real, target.1 as real, 1))
  }

  /**
   * In input mode `randint` raises `ValueError` on an empty range: when `int(x + w * 0.7)`
   * exceeds `int(x + w * 0.8)`, or when the height is negative.
   */
  predicate InputRangeEmpty(r: Region)
    ensures InputRangeEmpty(r) <==>
      Trunc(r.x as real + r.w as real * 0.7) > Trunc(r.x as real + r.w as real * 0.8) || r.h < 0
  {
    InputRangeIsTruncation(r);
    RawRangeX(r, None, true).0 > RawRangeX(r, None, true).1 || r.h < 0
  }

  /** A region of non-negative extent, as every bounding box gives, never makes input mode raise. */
  lemma ValidRegionHasInputRange(r: Region)
    requires r.w >= 0 && r.h >= 0
    ensures !InputRangeEmpty(r)
  {
    TruncDivTenthsMonotone(10 * r.x + 7 * r.w, 10 * r.x + 8 * r.w);
  }

  /** A move that raised in input mode: only the approach was sent. */
  predicate MoveToAbortLog(cfg: HumanizationConfig, start: (int, int), cmds: seq<Command>)
  {
    |cmds| == 2 && Approach(cfg, start, cmds)
  }

  /** A move's log is its approach followed by the per-point commands of its curve. */
  lemma MoveToLogOf(cfg: HumanizationConfig, start: (int, int), approach: seq<Command>, curve: seq<Command>,
                    target: (int, int))
    requires |approach| == 2 && Approach(cfg, start, approach)
    requires CurveTrace(cfg, curve, 0) && BezierStepsOk(cfg, |curve| / 2)
    requires !cfg.humanize ==> |curve| >= 2 && curve[0] == Move(start.0 as real, start.1 as real, 1)
    requires !cfg.humanize ==> |curve| >= 2 && curve[|curve| - 2] == Move(target.0 as real, target.1 as real, 1)
    ensures MoveToLog(cfg, start, approach + curve, target)
  {
    var cmds := approach + curve;
    forall i | 2 <= i < |cmds|
      ensures cmds[i] == curve[i - 2] && (i - 2) % 2 == i % 2
    {
    }
  }

  /** The log of a move alternates `Move` and `Sleep`, starting with a `Move`. */
  /** A start or target of a move as a point of the plane. */
  function AsPoint(p: (int, int)): Point
  {
    Point(p.0 as real, p.1 as real)
  }

  /**
   * The mouse follows the sampled curve: `BezierPoints` with `steps` in the profile's range and
   * draws within the cap of a lower root `dist` of the endpoint distance, one move per point
   * after the approach, each exactly its point when there is no jitter.
   */
  predicate FollowsCurve(cfg: HumanizationConfig, start: (int, int), target: (int, int), cmds: seq<Command>,
                         steps: int, draws: ControlDraws, dist: real)
  {
    && CurveDrawn(cfg, start, target, steps, draws, dist)
    && MovesOnto(cmds, BezierPoints(AsPoint(start), AsPoint(target), steps, draws).value, cfg.humanize)
  }

  /** The curve's step count is in the profile's range, and its draws are within the cap of `dist`. */
  predicate CurveDrawn(cfg: HumanizationConfig, start: (int, int), target: (int, int),
                       steps: int, draws: ControlDraws, dist: real)
  {
    && BezierStepsOk(cfg, steps)
    && 0.0 <= dist && dist * dist <= SquaredDistance(AsPoint(start), AsPoint(target))
    && DrawsWithin(draws, MaxControlOffset(dist))
    && BezierPoints(AsPoint(start), AsPoint(target), steps, draws).Ok?
  }

  /** After a two-command approach, one move per point; without jitter, onto the point itself. */
  predicate MovesOnto(cmds: seq<Command>, pts: seq<Point>, jitter: bool)
  {
    && |cmds| == 2 + 2 * |pts|
    && (!jitter ==> forall j :: 0 <= j < |pts| ==> cmds[2 + 2 * j] == Move(pts[j].x, pts[j].y, 1))
  }

  /** Moves onto given points keep their places, shifted by two, behind a two-command approach. */
  lemma MovesAfterApproach(approach: seq<Command>, path: seq<Command>, pts: seq<Point>, jitter: bool)
    requires |approach| == 2 && |path| == 2 * |pts|
    requires !jitter ==> forall j :: 0 <= j < |pts| ==> path[2 * j] == Move(pts[j].x, pts[j].y, 1)
    ensures MovesOnto(approach + path, pts, jitter)
  {
    if !jitter {
      forall j | 0 <= j < |pts| ensures (approach + path)[2 + 2 * j] == Move(pts[j].x, pts[j].y, 1) {
        assert (approach + path)[2 + 2 * j] == path[2 * j];
      }
    }
  }

  /**
   * Every point of the sampled curve, and so (by `FollowsCurve`) every move along it without
   * jitter, stays within 50 pixels, on each axis, of the box spanned by the start and the
   * target: the curve lies in the box of its control points, and each inner control point
   * is at most 50 from a point of the chord.
   */
  lemma CurveNearChord(s: Point, t: Point, steps: int, draws: ControlDraws, dist: real, j: int)
    requires steps >= 2 && 0 <= j < steps && DrawsWithin(draws, MaxControlOffset(dist))
    ensures var pts := BezierPoints(s, t, steps, draws).value;
      && Min(s.x, t.x) - 50.0 <= pts[j].x <= Max(s.x, t.x) + 50.0
      && Min(s.y, t.y) - 50.0 <= pts[j].y <= Max(s.y, t.y) + 50.0
  {
    var p1, p2 := FirstControl(s, t, draws), SecondControl(s, t, draws);
    var pts := BezierPoints(s, t, steps, draws).value;
    var u := SampleAt(j, steps - 1);
    assert Ok(pts[j]) == CubicBezier(u, s, p1, p2, t);
    CubicBezierWithinControlBox(u, s, p1, p2, t);
    var m := MaxControlOffset(dist);
    ControlNearSpan(s.x, t.x, FirstControlAt, draws.dx1, m);
    ControlNearSpan(s.x, t.x, SecondControlAt, draws.dx2, m);
    ControlNearSpan(s.y, t.y, FirstControlAt, draws.dy1, m);
    ControlNearSpan(s.y, t.y, SecondControlAt, draws.dy2, m);
    HullNearSpan(s.x, t.x, p1.x, p2.x, pts[j].x);
    HullNearSpan(s.y, t.y, p1.y, p2.y, pts[j].y);
  }

  /** A chord point displaced by at most `m <= 50` is within 50 of the span of the ends. */
  lemma ControlNearSpan(a: real, b: real, f: real, d: real, m: real)
    requires 0.0 <= f <= 1.0 && -m <= d <= m && m <= 50.0
    ensures Min(a, b) - 50.0 <= Lerp(a, b, f) + d <= Max(a, b) + 50.0
  {
  }

  /** A value between the smallest and the largest of four, each within 50 of the span, is too. */
  lemma HullNearSpan(a: real, b: real, c1: real, c2: real, q: real)
    requires Min(a, b) - 50.0 <= c1 <= Max(a, b) + 50.0 && Min(a, b) - 50.0 <= c2 <= Max(a, b) + 50.0
    requires Min(Min(a, c1), Min(c2, b)) <= q <= Max(Max(a, c1), Max(c2, b))
    ensures Min(a, b) - 50.0 <= q <= Max(a, b) + 50.0
  {
  }

  lemma MoveToAlternates(cfg: HumanizationConfig, start: (int, int), cmds: seq<Command>, target: (int, int))
    requires MoveToLog(cfg, start, cmds, target)
    ensures Alternates(cmds, MoveKind, SleepKind)
  {
  }

  /**
   * A move issues one more `Move` than it has path points and as many sleeps, nothing else:
   * 21 to 31 moves when fast, 81 to 121 otherwise.
   */
  lemma MoveToCounts(cfg: HumanizationConfig, start: (int, int), cmds: seq<Command>, target: (int, int))
    requires MoveToLog(cfg, start, cmds, target)
    ensures Count(cmds, MoveKind) == Count(cmds, SleepKind) == |cmds| / 2
    ensures BezierStepsOk(cfg, Count(cmds, MoveKind) - 1)
    ensures forall k :: k != MoveKind && k != SleepKind ==> Count(cmds, k) == 0
  {
    MoveToAlternates(cfg, start, cmds, target);
    forall k
      ensures Count(cmds, k) == if k == MoveKind || k == SleepKind then |cmds| / 2 else 0
    {
      AlternatingCount(cmds, MoveKind, SleepKind, k);
    }
  }

  /** The case of the test suite: a fast move sends at least 21 mouse moves, so more than one. */
  lemma MoveToTestManyMoves(cfg: HumanizationConfig, start: (int, int), cmds: seq<Command>, target: (int, int))
    requires cfg.fast && MoveToLog(cfg, start, cmds, target)
    ensures Count(cmds, MoveKind) >= 21
  {
    MoveToCounts(cfg, start, cmds, target);
  }

  /** No pause of a move is negative. */
  lemma MoveToSleepsNonNegative(cfg: HumanizationConfig, start: (int, int), cmds: seq<Command>, target: (int, int))
    requires MoveToLog(cfg, start, cmds, target)
    ensures SleepsNonNegative(cmds)
  {
    forall i | 0 <= i < |cmds| && cmds[i].Sleep?
      ensures cmds[i].seconds >= 0.0
    {
      if i >= 2 {
        assert StepPauseOk(cfg, cmds[i].seconds);
      }
    }
  }

  // `click_at`.

  /** `clicktype.lower()` for ASCII letters. */
  function Lower(s: string): (r: string)
    ensures |r| == |s|
    ensures forall i :: 0 <= i < |r| ==> !('A' <= r[i] <= 'Z')
    ensures forall i :: 0 <= i < |s| && !('A' <= s[i] <= 'Z') ==> r[i] == s[i]
    ensures forall i :: 0 <= i < |s| && 'A' <= s[i] <= 'Z' ==> r[i] as int == s[i] as int + 32
  {
    seq(|s|, i requires 0 <= i < |s| => if 'A' <= s[i] <= 'Z' then (s[i] as int + 32) as char else s[i])
  }

  /** `click_at`: a move, then one click at the returned point with the lower-cased button. */
  predicate ClickAtLog(cfg: HumanizationConfig, start: (int, int), button: string,
                       cmds: seq<Command>, target: (int, int))
  {
    && |cmds| >= 1
    && MoveToLog(cfg, start, cmds[..|cmds| - 1], target)
    && cmds[|cmds| - 1].Click?
    && cmds[|cmds| - 1] == Click(target.0 as real, target.1 as real, Lower(button), cmds[|cmds| - 1].delay)
    && ClickDelayOk(cfg, cmds[|cmds| - 1].delay)
  }

  /** A click's log is the move's log followed by the click. */
  lemma ClickAtLogOf(cfg: HumanizationConfig, start: (int, int), button: string, moves: seq<Command>,
                     delay: real, target: (int, int))
    requires MoveToLog(cfg, start, moves, target) && ClickDelayOk(cfg, delay)
    ensures ClickAtLog(cfg, start, button, moves + [Click(target.0 as real, target.1 as real, Lower(button), delay)], target)
  {
    var cmds := moves + [Click(target.0 as real, target.1 as real, Lower(button), delay)];
    assert cmds[..|cmds| - 1] == moves;
  }

  /** A click issues exactly one `Click`, last, at the target, and presses no key. */
  lemma ClickAtSingleClick(cfg: HumanizationConfig, start: (int, int), button: string,
                           cmds: seq<Command>, target: (int, int))
    requires ClickAtLog(cfg, start, button, cmds, target)
    ensures Count(cmds, ClickKind) == 1
    ensures cmds[|cmds| - 1].Click? && cmds[|cmds| - 1].x == target.0 as real && cmds[|cmds| - 1].y == target.1 as real
    ensures Count(cmds, PressKind) == 0
    ensures BezierStepsOk(cfg, Count(cmds, MoveKind) - 1)
  {
    MoveToAlternates(cfg, start, cmds[..|cmds| - 1], target);
    AlternatingThenCount(cmds, MoveKind, SleepKind, ClickKind);
    AlternatingThenCount(cmds, MoveKind, SleepKind, PressKind);
    AlternatingThenCount(cmds, MoveKind, SleepKind, MoveKind);
  }


  // `type_at`.

  /** The default `inter_key_offset` and `key_press_delay_range` of `type_at`. */
  const TypeInterKeyOffset: real := 0.02
  const TypeKeyDelays: (real, real) := (100.0, 140.0)

  /** The sleep after typing `ch`: `max(0, base + offset)` with the jitter, plus a pause after a space when humanized. */
  predicate CharPauseOk(cfg: HumanizationConfig, base: real, offset: real, ch: char, s: real)
  {
    var lo := Max(0.0, base - Abs(offset));
    var hi := Max(0.0, base + Abs(offset));
    if cfg.humanize && ch == ' ' then lo + 0.05 <= s <= hi + 0.1 else lo <= s <= hi
  }

  /** One `Press` per character of `text`, in order, each followed by its sleep. */
  predicate TypeTrace(cfg: HumanizationConfig, text: string, base: real, offset: real,
                      keyDelays: (real, real), cmds: seq<Command>)
  {
    |cmds| == 2 * |text| &&
    forall i :: 0 <= i < |cmds| ==>
      if i % 2 == 0 then cmds[i].Press? && cmds[i].key == [text[i / 2]] && Between(cmds[i].delay, keyDelays.0, keyDelays.1)
      else cmds[i].Sleep? && CharPauseOk(cfg, base, offset, text[i / 2], cmds[i].seconds)
  }

  /**
   * `type_at`: the focusing click in input mode, then the typing; with a typing rate of
   * zero, `60 / rate` raises before any key is pressed.
   */
  predicate TypeAtLog(cfg: HumanizationConfig, start: (int, int), text: string, offset: real, keyDelays: (real, real),
                      cmds: seq<Command>, target: (int, int))
  {
    if cfg.charactersPerMinute == 0.0 then ClickAtLog(cfg, start, "left", cmds, target)
    else
      && |cmds| >= 2 * |text|
      && ClickAtLog(cfg, start, "left", cmds[..|cmds| - 2 * |text|], target)
      && TypeTrace(cfg, text, 60.0 / cfg.charactersPerMinute, offset, keyDelays, cmds[|cmds| - 2 * |text|..])
  }

  /** Typing's log is the click's log followed by the typed characters. */
  lemma TypeAtLogOf(cfg: HumanizationConfig, start: (int, int), text: string, offset: real, keyDelays: (real, real),
                    clicks: seq<Command>, typed: seq<Command>, target: (int, int))
    requires cfg.charactersPerMinute != 0.0
    requires ClickAtLog(cfg, start, "left", clicks, target)
    requires TypeTrace(cfg, text, 60.0 / cfg.charactersPerMinute, offset, keyDelays, typed)
    ensures TypeAtLog(cfg, start, text, offset, keyDelays, clicks + typed, target)
  {
    var cmds := clicks + typed;
    assert cmds[..|cmds| - 2 * |text|] == clicks;
    assert cmds[|cmds| - 2 * |text|..] == typed;
  }

  /** Each character as the one-character key name `keyboard.press` receives. */
  function Keystrokes(text: string): (keys: seq<string>)
    ensures |keys| == |text|
    ensures forall i :: 0 <= i < |text| ==> keys[i] == [text[i]]
  {
    seq(|text|, i requires 0 <= i < |text| => [text[i]])
  }

  /** The keys typed are the characters of `text`, one `Press` per character, in order. */
  lemma TypeTraceKeys(cfg: HumanizationConfig, text: string, base: real, offset: real,
                      keyDelays: (real, real), cmds: seq<Command>)
    requires TypeTrace(cfg, text, base, offset, keyDelays, cmds)
    ensures PressedKeys(cmds) == Keystrokes(text)
    ensures Alternates(cmds, PressKind, SleepKind)
  {
    assert Alternates(cmds, PressKind, SleepKind);
    AlternatingCount(cmds, PressKind, SleepKind, PressKind);
    forall j | 0 <= j < |text|
      ensures PressedKeys(cmds)[j] == Keystrokes(text)[j]
    {
      PressedKeyAt(cmds, j);
      assert (2 * j) % 2 == 0 && (2 * j) / 2 == j;
      assert cmds[2 * j].key == [text[j]];
    }
  }

  /**
   * Typing presses exactly the characters of `text`, in order, one `Press` each, after
   * exactly one click; nothing else is pressed.
   */
  lemma TypeAtPresses(cfg: HumanizationConfig, start: (int, int), text: string, offset: real, keyDelays: (real, real),
                      cmds: seq<Command>, target: (int, int))
    requires cfg.charactersPerMinute != 0.0
    requires TypeAtLog(cfg, start, text, offset, keyDelays, cmds, target)
    ensures PressedKeys(cmds) == Keystrokes(text)
    ensures Count(cmds, PressKind) == |text|
    ensures Count(cmds, ClickKind) == 1
  {
    var j := |cmds| - 2 * |text|;
    ClickAtSingleClick(cfg, start, "left", cmds[..j], target);
    TypeTraceKeys(cfg, text, 60.0 / cfg.charactersPerMinute, offset, keyDelays, cmds[j..]);
    AlternatingCount(cmds[j..], PressKind, SleepKind, ClickKind);
    CountSplit(cmds, j, ClickKind);
    PressedKeysAfterSilentPrefix(cmds, j);
  }

  /** With a typing rate of zero nothing is typed: the log is the click alone. */
  lemma TypeAtZeroRatePressesNothing(cfg: HumanizationConfig, start: (int, int), text: string, offset: real,
                                     keyDelays: (real, real), cmds: seq<Command>, target: (int, int))
    requires cfg.charactersPerMinute == 0.0
    requires TypeAtLog(cfg, start, text, offset, keyDelays, cmds, target)
    ensures Count(cmds, PressKind) == 0 && PressedKeys(cmds) == []
  {
    ClickAtSingleClick(cfg, start, "left", cmds, target);
  }

  /** The case of the test suite: typing `"test"` with the default settings presses four keys. */
  lemma TypeAtTestFourPresses(start: (int, int), cmds: seq<Command>, target: (int, int))
    requires TypeAtLog(DefaultConfig(), start, "test", TypeInterKeyOffset, TypeKeyDelays, cmds, target)
    ensures Count(cmds, PressKind) == 4
    ensures PressedKeys(cmds) == ["t", "e", "s", "t"]
  {
    TypeAtPresses(DefaultConfig(), start, "test", TypeInterKeyOffset, TypeKeyDelays, cmds, target);
  }

  /** Every sleep while typing is at least `max(0, base - |offset|)`, so never negative. */
  lemma TypeTraceSleepsNonNegative(cfg: HumanizationConfig, text: string, base: real, offset: real,
                                   keyDelays: (real, real), cmds: seq<Command>)
    requires TypeTrace(cfg, text, base, offset, keyDelays, cmds)
    ensures SleepsAtLeast(cmds, Max(0.0, base - Abs(offset)))
    ensures SleepsNonNegative(cmds)
  {
  }

  // `backspace_at`.

  /** The default `inter_key_offset` and `key_press_delay_range` of `backspace_at`. */
  const BackspaceInterKeyOffset: real := 0.005
  const BackspaceKeyDelays: (real, real) := (80.0, 120.0)

  /** The sleep after one backspace: `max(0, base + offset)`, sometimes plus a hesitation when humanized. */
  predicate BackspacePauseOk(cfg: HumanizationConfig, base: real, offset: real, s: real)
  {
    var lo := Max(0.0, base - Abs(offset));
    var hi := Max(0.0, base + Abs(offset));
    (lo <= s <= hi) || (cfg.humanize && lo + 0.01 <= s <= hi + 0.03)
  }

  /** `range(num_chars)`: no iterations for a negative count. */
  function Repetitions(numChars: int): (n: nat)
    ensures numChars >= 0 ==> n == numChars
    ensures numChars < 0 ==> n == 0
  {
    if numChars > 0 then numChars else 0
  }

  predicate BackspaceTrace(cfg: HumanizationConfig, n: nat, base: real, offset: real,
                           keyDelays: (real, real), cmds: seq<Command>)
  {
    |cmds| == 2 * n &&
    forall i :: 0 <= i < |cmds| ==>
      if i % 2 == 0 then cmds[i].Press? && cmds[i].key == "Backspace" && Between(cmds[i].delay, keyDelays.0, keyDelays.1)
      else cmds[i].Sleep? && BackspacePauseOk(cfg, base, offset, cmds[i].seconds)
  }

  /** `backspace_at`: the focusing click in input mode, then the deletions (or division by zero). */
  predicate BackspaceAtLog(cfg: HumanizationConfig, start: (int, int), numChars: int, offset: real,
                           keyDelays: (real, real), cmds: seq<Command>, target: (int, int))
  {
    var n := Repetitions(numChars);
    if cfg.backspaceCpm == 0.0 then ClickAtLog(cfg, start, "left", cmds, target)
    else
      && |cmds| >= 2 * n
      && ClickAtLog(cfg, start, "left", cmds[..|cmds| - 2 * n], target)
      && BackspaceTrace(cfg, n, 60.0 / cfg.backspaceCpm, offset, keyDelays, cmds[|cmds| - 2 * n..])
  }

  /** Deleting's log is the click's log followed by the deletions. */
  lemma BackspaceAtLogOf(cfg: HumanizationConfig, start: (int, int), numChars: int, offset: real,
                         keyDelays: (real, real), clicks: seq<Command>, deleted: seq<Command>, target: (int, int))
    requires cfg.backspaceCpm != 0.0
    requires ClickAtLog(cfg, start, "left", clicks, target)
    requires BackspaceTrace(cfg, Repetitions(numChars), 60.0 / cfg.backspaceCpm, offset, keyDelays, deleted)
    ensures BackspaceAtLog(cfg, start, numChars, offset, keyDelays, clicks + deleted, target)
  {
    var cmds := clicks + deleted;
    var n := Repetitions(numChars);
    assert cmds[..|cmds| - 2 * n] == clicks;
    assert cmds[|cmds| - 2 * n..] == deleted;
  }

  /** A run of deletions presses `Backspace` `n` times, and each pause lasts at least `max(0, base - |offset|)`. */
  lemma BackspaceTraceFacts(cfg: HumanizationConfig, n: nat, base: real, offset: real,
                            keyDelays: (real, real), cmds: seq<Command>)
    requires BackspaceTrace(cfg, n, base, offset, keyDelays, cmds)
    ensures Count(cmds, PressKind) == n
    ensures forall k :: k in PressedKeys(cmds) ==> k == "Backspace"
    ensures SleepsAtLeast(cmds, Max(0.0, base - Abs(offset)))
  {
    assert Alternates(cmds, PressKind, SleepKind);
    AlternatingCount(cmds, PressKind, SleepKind, PressKind);
    forall j | 0 <= j < n
      ensures PressedKeys(cmds)[j] == "Backspace"
    {
      PressedKeyAt(cmds, j);
      assert (2 * j) % 2 == 0;
    }
  }

  /** Deleting presses `Backspace` exactly `max(0, num_chars)` times and no other key. */
  lemma BackspaceAtPresses(cfg: HumanizationConfig, start: (int, int), numChars: int, offset: real,
                           keyDelays: (real, real), cmds: seq<Command>, target: (int, int))
    requires cfg.backspaceCpm != 0.0
    requires BackspaceAtLog(cfg, start, numChars, offset, keyDelays, cmds, target)
    ensures Count(cmds, PressKind) == Repetitions(numChars)
    ensures forall k :: k in PressedKeys(cmds) ==> k == "Backspace"
  {
    var j := |cmds| - 2 * Repetitions(numChars);
    ClickAtSingleClick(cfg, start, "left", cmds[..j], target);
    BackspaceTraceFacts(cfg, Repetitions(numChars), 60.0 / cfg.backspaceCpm, offset, keyDelays, cmds[j..]);
    PressedKeysAfterSilentPrefix(cmds, j);
  }

  /**
   * Each pause after a deletion lasts at least `max(0, 60 / backspace_cpm - |offset|)`,
   * hence is never negative.
   */
  lemma BackspaceAtPauses(cfg: HumanizationConfig, start: (int, int), numChars: int, offset: real,
                          keyDelays: (real, real), cmds: seq<Command>, target: (int, int))
    requires cfg.backspaceCpm != 0.0
    requires BackspaceAtLog(cfg, start, numChars, offset, keyDelays, cmds, target)
    ensures SleepsAtLeast(cmds[|cmds| - 2 * Repetitions(numChars)..], Max(0.0, 60.0 / cfg.backspaceCpm - Abs(offset)))
    ensures SleepsNonNegative(cmds[|cmds| - 2 * Repetitions(numChars)..])
  {
    var j := |cmds| - 2 * Repetitions(numChars);
    BackspaceTraceFacts(cfg, Repetitions(numChars), 60.0 / cfg.backspaceCpm, offset, keyDelays, cmds[j..]);
  }

  // `hover_at`.

  /** The default `dwell_time` of `hover_at`. */
  const DefaultDwell: real := 0.5

  /** `hover_at`: a move, then one dwell drawn from `[0.8 * dwell, 1.2 * dwell]`. */
  predicate HoverAtLog(cfg: HumanizationConfig, start: (int, int), dwell: real, cmds: seq<Command>, target: (int, int))
  {
    && |cmds| >= 1
    && MoveToLog(cfg, start, cmds[..|cmds| - 1], target)
    && cmds[|cmds| - 1].Sleep?
    && Between(cmds[|cmds| - 1].seconds, dwell * 0.8, dwell * 1.2)
  }

  /** Hovering's log is the move's log followed by the dwell. */
  lemma HoverAtLogOf(cfg: HumanizationConfig, start: (int, int), dwell: real, moves: seq<Command>, s: real,
                     target: (int, int))
    requires MoveToLog(cfg, start, moves, target) && Between(s, dwell * 0.8, dwell * 1.2)
    ensures HoverAtLog(cfg, start, dwell, moves + [Sleep(s)], target)
  {
    var cmds := moves + [Sleep(s)];
    assert cmds[..|cmds| - 1] == moves;
  }

  /** The final pause is within 20% of the dwell time, of either sign; it is the one extra sleep. */
  lemma HoverAtDwell(cfg: HumanizationConfig, start: (int, int), dwell: real, cmds: seq<Command>, target: (int, int))
    requires HoverAtLog(cfg, start, dwell, cmds, target)
    ensures Abs(cmds[|cmds| - 1].seconds - dwell) <= 0.2 * Abs(dwell)
    ensures Count(cmds, SleepKind) == Count(cmds, MoveKind) + 1
  {
    MoveToAlternates(cfg, start, cmds[..|cmds| - 1], target);
    AlternatingThenCount(cmds, MoveKind, SleepKind, SleepKind);
    AlternatingThenCount(cmds, MoveKind, SleepKind, MoveKind);
    DwellWithin(cmds[|cmds| - 1].seconds, dwell);
  }

  lemma DwellWithin(s: real, dwell: real)
    requires Between(s, dwell * 0.8, dwell * 1.2)
    ensures Abs(s - dwell) <= 0.2 * Abs(dwell)
  {
  }

  // `scroll_to`.

  /** One wheel step: `total / steps` scaled by a factor in `[0.9, 1.1]`. */
  predicate WheelStepOk(total: real, steps: int, d: real)
    requires steps > 0
  {
    Between(d, 0.9 * (total / steps as real), 1.1 * (total / steps as real))
  }

  /** `total / steps * (1 + u)` for `u` drawn from `uniform(-0.1, 0.1)` is an admissible wheel step. */
  lemma WheelStepFromFactor(total: real, steps: int, u: real)
    requires steps > 0 && Between(u, -0.1, 0.1)
    ensures WheelStepOk(total, steps, total / steps as real * (1.0 + u))
  {
    var q := total / steps as real;
    if q >= 0.0 {
      ScaleBetween(q, 1.0 + u, 0.9, 1.1);
    } else {
      ScaleBetween(-q, 1.0 + u, 0.9, 1.1);
    }
  }

  predicate ScrollTrace(total: real, steps: int, cmds: seq<Command>)
  {
    steps > 0 && |cmds| == 2 * steps &&
    forall i :: 0 <= i < |cmds| ==>
      if i % 2 == 0 then cmds[i].Wheel? && cmds[i].deltaX == 0.0 && WheelStepOk(total, steps, cmds[i].deltaY)
      else cmds[i].Sleep? && 0.01 <= cmds[i].seconds <= 0.03
  }

  /**
   * `scroll_to(locator, delta_y)` scrolled by `total` in `steps` wheel steps: the distance is
   * the element's offset from the current scroll position when an element is given, else the
   * explicit delta, else a whole number of pixels drawn from 100 to 500 in either direction.
   */
  predicate ScrollToLog(cfg: HumanizationConfig, locator: Option<Box>, deltaY: Option<real>, scrollY: real,
                        cmds: seq<Command>, total: real, steps: int)
  {
    && (locator.Some? ==> total == locator.value.y - scrollY)
    && (locator.None? && deltaY.Some? ==> total == deltaY.value)
    && (locator.None? && deltaY.None? ==> total == total.Floor as real && 100.0 <= Abs(total) <= 500.0)
    && ScrollStepsOk(cfg, steps)
    && ScrollTrace(total, steps, cmds)
  }

  /** `k` copies of `q` added up, which keeps the sign of `q`. */
  function Multiple(q: real, k: nat): (r: real)
    ensures q >= 0.0 ==> r >= 0.0
    ensures q <= 0.0 ==> r <= 0.0
  {
    if k == 0 then 0.0 else Multiple(q, k - 1) + q
  }

  lemma {:induction false} MultipleIsProduct(q: real, k: nat)
    ensures Multiple(q, k) == k as real * q
  {
    if k > 0 {
      MultipleIsProduct(q, k - 1);
      Distribute((k - 1) as real, q);
    }
  }

  lemma Distribute(k: real, q: real)
    ensures (k + 1.0) * q == k * q + q
  {
  }

  /** Partial sums of the wheel steps stay between 0.9 and 1.1 times their share of the total. */
  lemma {:induction false} WheelPartialSums(total: real, steps: int, q: real, cmds: seq<Command>, k: nat)
    requires ScrollTrace(total, steps, cmds) && q == total / steps as real
    requires k <= steps
    ensures Between(WheelTotal(cmds[..2 * k]), 0.9 * Multiple(q, k), 1.1 * Multiple(q, k))
    decreases k
  {
    if k == 0 {
      assert cmds[..0] == [];
    } else {
      WheelPartialSums(total, steps, q, cmds, k - 1);
      var d := ScrollStep(total, steps, cmds, k);
      BetweenAdd(WheelTotal(cmds[..2 * (k - 1)]), d, Multiple(q, k - 1), q);
    }
  }

  /** The `k`-th pair of a scroll adds its wheel step, `d`, to the running total. */
  lemma ScrollStep(total: real, steps: int, cmds: seq<Command>, k: nat) returns (d: real)
    requires ScrollTrace(total, steps, cmds)
    requires 0 < k <= steps
    ensures WheelStepOk(total, steps, d)
    ensures WheelTotal(cmds[..2 * k]) == WheelTotal(cmds[..2 * (k - 1)]) + d
  {
    var a := cmds[..2 * (k - 1)];
    var b := cmds[..2 * k - 1];
    assert b[..|b| - 1] == a;
    assert cmds[..2 * k][..2 * k - 1] == b;
    assert cmds[2 * k - 1].Sleep?;
    assert (2 * k - 2) % 2 == 0;
    d := cmds[2 * k - 2].deltaY;
  }

  /** Adding a step in `[0.9 q, 1.1 q]` to a sum in `[0.9 m, 1.1 m]`, with `m` and `q` of one sign. */
  lemma BetweenAdd(s: real, d: real, m: real, q: real)
    requires (q >= 0.0 ==> m >= 0.0) && (q <= 0.0 ==> m <= 0.0)
    requires Between(s, 0.9 * m, 1.1 * m) && Between(d, 0.9 * q, 1.1 * q)
    ensures Between(s + d, 0.9 * (m + q), 1.1 * (m + q))
  {
  }

  lemma WithinTenPercent(s: real, t: real)
    requires Between(s, 0.9 * t, 1.1 * t)
    ensures Abs(s - t) <= 0.1 * Abs(t)
  {
  }

  lemma SharesAddUp(total: real, steps: int)
    requires steps > 0
    ensures steps as real * (total / steps as real) == total
  {
  }

  /** The wheel deltas of a scroll add up to its distance within 10%: `|sum - total| <= 0.1 * |total|`. */
  lemma ScrollTraceTotal(total: real, steps: int, cmds: seq<Command>)
    requires ScrollTrace(total, steps, cmds)
    ensures Abs(WheelTotal(cmds) - total) <= 0.1 * Abs(total)
  {
    var q := total / steps as real;
    WheelPartialSums(total, steps, q, cmds, steps);
    assert cmds[..2 * steps] == cmds;
    MultipleIsProduct(q, steps);
    SharesAddUp(total, steps);
    WithinTenPercent(WheelTotal(cmds), total);
  }

  lemma ScrollTraceCounts(total: real, steps: int, cmds: seq<Command>)
    requires ScrollTrace(total, steps, cmds)
    ensures Count(cmds, WheelKind) == steps
    ensures SleepsNonNegative(cmds)
  {
    assert Alternates(cmds, WheelKind, SleepKind);
    AlternatingCount(cmds, WheelKind, SleepKind, WheelKind);
  }

  /**
   * A scroll moves the page by its distance within 10%, in exactly `steps` wheel commands
   * (10 to 20 when fast, 30 to 50 otherwise), horizontally not at all.
   */
  lemma ScrollSumBound(cfg: HumanizationConfig, locator: Option<Box>, deltaY: Option<real>, scrollY: real,
                       cmds: seq<Command>, total: real, steps: int)
    requires ScrollToLog(cfg, locator, deltaY, scrollY, cmds, total, steps)
    ensures Abs(WheelTotal(cmds) - total) <= 0.1 * Abs(total)
    ensures Count(cmds, WheelKind) == steps && ScrollStepsOk(cfg, steps)
    ensures SleepsNonNegative(cmds)
  {
    ScrollTraceTotal(total, steps, cmds);
    ScrollTraceCounts(total, steps, cmds);
  }

  // `drag_to`.

  /**
   * `drag_to`: the move to the source (the first `split` commands), the button goes down,
   * a pause of 0.1–0.3 s, the move to the target, and the button comes up.
   */
  predicate DragToLog(cfg: HumanizationConfig, sourceStart: (int, int), destStart: (int, int),
                      cmds: seq<Command>, split: int, sourcePoint: (int, int), destPoint: (int, int))
  {
    && 0 <= split && split + 3 <= |cmds|
    && MoveToLog(cfg, sourceStart, cmds[..split], sourcePoint)
    && cmds[split] == Down
    && cmds[split + 1].Sleep? && 0.1 <= cmds[split + 1].seconds <= 0.3
    && MoveToLog(cfg, destStart, cmds[split + 2..|cmds| - 1], destPoint)
    && cmds[|cmds| - 1] == Up
  }

  /** A drag's log: the move to the source, `Down`, the hold, the move to the destination, `Up`. */
  lemma DragToLogOf(cfg: HumanizationConfig, sourceStart: (int, int), destStart: (int, int),
                    toSource: seq<Command>, hold: real, toDest: seq<Command>, sourcePoint: (int, int), destPoint: (int, int))
    requires MoveToLog(cfg, sourceStart, toSource, sourcePoint) && MoveToLog(cfg, destStart, toDest, destPoint)
    requires 0.1 <= hold <= 0.3
    ensures DragToLog(cfg, sourceStart, destStart, toSource + [Down] + [Sleep(hold)] + toDest + [Up], |toSource|,
                      sourcePoint, destPoint)
  {
    var cmds := toSource + [Down] + [Sleep(hold)] + toDest + [Up];
    var split := |toSource|;
    assert cmds[..split] == toSource;
    assert cmds[split + 2..|cmds| - 1] == toDest;
  }

  /**
   * A drag presses the button once and releases it once, after it; only motion happens
   * before the press and between press and release, and the release is the last command.
   */
  lemma DragToOrder(cfg: HumanizationConfig, sourceStart: (int, int), destStart: (int, int),
                    cmds: seq<Command>, split: int, sourcePoint: (int, int), destPoint: (int, int))
    requires DragToLog(cfg, sourceStart, destStart, cmds, split, sourcePoint, destPoint)
    ensures Count(cmds, DownKind) == 1 && Count(cmds, UpKind) == 1
    ensures cmds[split] == Down && cmds[|cmds| - 1] == Up && split < |cmds| - 1
    ensures OnlyKinds(cmds[..split], {MoveKind, SleepKind})
    ensures OnlyKinds(cmds[split + 1..|cmds| - 1], {MoveKind, SleepKind})
    ensures Count(cmds, ClickKind) == 0 && Count(cmds, PressKind) == 0
  {
    MoveToAlternates(cfg, sourceStart, cmds[..split], sourcePoint);
    MoveToAlternates(cfg, destStart, cmds[split + 2..|cmds| - 1], destPoint);
    DragOrderOf(cmds, split);
  }

  /** The order facts of a drag, from the shape of its log alone. */
  lemma DragOrderOf(cmds: seq<Command>, split: int)
    requires 0 <= split && split + 3 <= |cmds| && cmds[split] == Down && cmds[|cmds| - 1] == Up
    requires cmds[split + 1].Sleep?
    requires Alternates(cmds[..split], MoveKind, SleepKind)
    requires Alternates(cmds[split + 2..|cmds| - 1], MoveKind, SleepKind)
    ensures Count(cmds, DownKind) == 1 && Count(cmds, UpKind) == 1
    ensures OnlyKinds(cmds[..split], {MoveKind, SleepKind})
    ensures OnlyKinds(cmds[split + 1..|cmds| - 1], {MoveKind, SleepKind})
    ensures Count(cmds, ClickKind) == 0 && Count(cmds, PressKind) == 0
  {
    DragSplit(cmds, split);
    DragShape(cmds[..split], cmds[split + 1], cmds[split + 2..|cmds| - 1]);
  }

  lemma DragSplit(cmds: seq<Command>, split: int)
    requires 0 <= split && split + 3 <= |cmds| && cmds[split] == Down && cmds[|cmds| - 1] == Up
    ensures cmds == cmds[..split] + [Down] + [cmds[split + 1]] + cmds[split + 2..|cmds| - 1] + [Up]
  {
  }

  /** Counting and ordering over the shape of a drag, given that both moves are pure motion. */
  lemma DragShape(a: seq<Command>, pause: Command, c: seq<Command>)
    requires pause.Sleep?
    requires Alternates(a, MoveKind, SleepKind) && Alternates(c, MoveKind, SleepKind)
    ensures var cmds := a + [Down] + [pause] + c + [Up];
      && Count(cmds, DownKind) == 1 && Count(cmds, UpKind) == 1
      && Count(cmds, ClickKind) == 0 && Count(cmds, PressKind) == 0
      && OnlyKinds(cmds[..|a|], {MoveKind, SleepKind})
      && OnlyKinds(cmds[|a| + 1..|cmds| - 1], {MoveKind, SleepKind})
  {
    DragShapeCount(a, pause, c, DownKind);
    DragShapeCount(a, pause, c, UpKind);
    DragShapeCount(a, pause, c, ClickKind);
    DragShapeCount(a, pause, c, PressKind);
    var cmds := a + [Down] + [pause] + c + [Up];
    assert cmds[..|a|] == a;
    assert cmds[|a| + 1..|cmds| - 1] == [pause] + c;
  }

  lemma DragShapeCount(a: seq<Command>, pause: Command, c: seq<Command>, k: Kind)
    requires pause.Sleep? && k != MoveKind && k != SleepKind
    requires Alternates(a, MoveKind, SleepKind) && Alternates(c, MoveKind, SleepKind)
    ensures Count(a + [Down] + [pause] + c + [Up], k) == (if k == DownKind then 1 else 0) + (if k == UpKind then 1 else 0)
  {
    CountConcat(a, [Down], k);
    CountConcat(a + [Down], [pause], k);
    CountConcat(a + [Down] + [pause], c, k);
    CountConcat(a + [Down] + [pause] + c, [Up], k);
    CountSingle(Down, k);
    CountSingle(pause, k);
    CountSingle(Up, k);
    AlternatingCount(a, MoveKind, SleepKind, k);
    AlternatingCount(c, MoveKind, SleepKind, k);
  }

  // `human_correct`.

  /** The default `overshoot_factor` of `human_correct`. */
  const DefaultOvershoot: real := 1.2

  /** Where `human_correct` first jumps to: `(x + w * factor, y + h * factor)`. */
  function OvershootPoint(box: Box, factor: real): (p: (real, real))
    ensures factor == 0.0 ==> p == (box.x, box.y)
    ensures factor == 1.0 ==> p == (box.x + box.w, box.y + box.h)
  {
    assert factor == 0.0 ==> box.w * factor == 0.0 && box.h * factor == 0.0;
    assert factor == 1.0 ==> box.w * factor == box.w && box.h * factor == box.h;
    (box.x + box.w * factor, box.y + box.h * factor)
  }

  /** For a factor above one the jump lands beyond the box, to the right of it and below it. */
  lemma OvershootBeyondBox(box: Box, factor: real)
    requires factor > 1.0 && box.w > 0.0 && box.h > 0.0
    ensures OvershootPoint(box, factor).0 > box.x + box.w
    ensures OvershootPoint(box, factor).1 > box.y + box.h
  {
    var p := OvershootPoint(box, factor);
    assert p.0 == box.x + box.w * factor && p.1 == box.y + box.h * factor;
    Overshoot(box.x, box.w, factor);
    Overshoot(box.y, box.h, factor);
  }

  lemma Overshoot(x: real, w: real, factor: real)
    requires factor > 1.0 && w > 0.0
    ensures x + w * factor > x + w
  {
    assert w * factor - w == w * (factor - 1.0);
    MulPositive(w, factor - 1.0);
  }

  lemma MulPositive(a: real, b: real)
    requires a > 0.0 && b > 0.0
    ensures a * b > 0.0
  {
  }

  /**
   * `human_correct` appended `cmds`: a one-step jump to `jump` and a pause of 0.05–0.1 s,
   * then an ordinary move to the element.
   */
  predicate HumanCorrectLog(cfg: HumanizationConfig, jump: (real, real), start: (int, int),
                            cmds: seq<Command>, target: (int, int))
  {
    && |cmds| >= 2
    && cmds[0] == Move(jump.0, jump.1, 1)
    && cmds[1].Sleep? && 0.05 <= cmds[1].seconds <= 0.1
    && MoveToLog(cfg, start, cmds[2..], target)
  }

  /** A correction's log: the jump, the pause, then the move's log. */
  lemma HumanCorrectLogOf(cfg: HumanizationConfig, jump: (real, real), pause: real, start: (int, int),
                          moves: seq<Command>, target: (int, int))
    requires 0.05 <= pause <= 0.1 && MoveToLog(cfg, start, moves, target)
    ensures HumanCorrectLog(cfg, jump, start, [Move(jump.0, jump.1, 1)] + [Sleep(pause)] + moves, target)
  {
    var cmds := [Move(jump.0, jump.1, 1)] + [Sleep(pause)] + moves;
    assert cmds[2..] == moves;
  }

  /**
   * The correction is one jump and one pause more than an ordinary move: the log still
   * alternates moves and sleeps, and has one more of each than the move itself.
   */
  lemma HumanCorrectShape(cfg: HumanizationConfig, jump: (real, real), start: (int, int),
                          cmds: seq<Command>, target: (int, int))
    requires HumanCorrectLog(cfg, jump, start, cmds, target)
    ensures Alternates(cmds, MoveKind, SleepKind)
    ensures Count(cmds, MoveKind) == Count(cmds[2..], MoveKind) + 1
    ensures Count(cmds, SleepKind) == Count(cmds[2..], SleepKind) + 1
    ensures Count(cmds, ClickKind) == 0 && Count(cmds, PressKind) == 0
  {
    MoveToAlternates(cfg, start, cmds[2..], target);
    HumanCorrectCounts(cmds);
  }

  lemma HumanCorrectCounts(cmds: seq<Command>)
    requires |cmds| >= 2 && cmds[0].Move? && cmds[1].Sleep? && Alternates(cmds[2..], MoveKind, SleepKind)
    ensures Alternates(cmds, MoveKind, SleepKind)
    ensures Count(cmds, MoveKind) == Count(cmds[2..], MoveKind) + 1
    ensures Count(cmds, SleepKind) == Count(cmds[2..], SleepKind) + 1
    ensures Count(cmds, ClickKind) == 0 && Count(cmds, PressKind) == 0
  {
    assert cmds == cmds[..2] + cmds[2..];
    assert Alternates(cmds[..2], MoveKind, SleepKind);
    AlternatesConcat(cmds[..2], cmds[2..], MoveKind, SleepKind);
    AlternatingCount(cmds, MoveKind, SleepKind, MoveKind);
    AlternatingCount(cmds, MoveKind, SleepKind, SleepKind);
    AlternatingCount(cmds, MoveKind, SleepKind, ClickKind);
    AlternatingCount(cmds, MoveKind, SleepKind, PressKind);
    AlternatingCount(cmds[2..], MoveKind, SleepKind, MoveKind);
    AlternatingCount(cmds[2..], MoveKind, SleepKind, SleepKind);
  }
}
