/**
 * `Humanization`: turns an element's bounding box into an ordered stream of mouse,
 * keyboard and wheel commands on the page, with pauses between them.
 *
 * Every operation returns, as a ghost, the commands it appended to the page's log,
 * and states them with the matching predicate of `Plans`.
 */
module Core {
  import opened Wrappers
  import opened Numeric
  import opened Bezier
  import opened Config
  import opened Commands
  import opened Plans
  import opened Devices

  class Humanization {
    const page: Page
    const config: HumanizationConfig
    const rng: RandomSource

    /** `Humanization(page, config)`: a missing configuration means the defaults. */
    constructor (page: Page, rng: RandomSource, config: Option<HumanizationConfig> := None)
      ensures this.page == page && this.rng == rng
      ensures this.config == if config.Some? then config.value else DefaultConfig()
    {
      this.page := page;
      this.config := if config.Some? then config.value else DefaultConfig();
      this.rng := rng;
    }

    /**
     * `generate_bezier_points`: the endpoint distance, the displacement cap, four draws
     * within the cap, then the sampled curve. The draws and the distance are returned
     * as ghosts so that the result can be related to `BezierPoints`.
     */
    method GenerateBezierPoints(p0: Point, p3: Point, steps: int := DefaultBezierSteps)
      returns (points: Result<seq<Point>>, ghost draws: ControlDraws, ghost dist: real)
      modifies rng
      ensures 0.0 <= dist && dist * dist <= SquaredDistance(p0, p3)
      ensures DrawsWithin(draws, MaxControlOffset(dist))
      ensures points == BezierPoints(p0, p3, steps, draws)
    {
      var d := Sqrt(SquaredDistance(p0, p3));
      var m := MaxControlOffset(d);
      var dx1 := rng.Uniform(-m, m);
      var dy1 := rng.Uniform(-m, m);
      var dx2 := rng.Uniform(-m, m);
      var dy2 := rng.Uniform(-m, m);
      var offsets := ControlDraws(dx1, dy1, dx2, dy2);
      points := BezierPoints(p0, p3, steps, offsets);
      draws, dist := offsets, d;
    }

    /**
     * `move_to`: a direct move to the centre and a pause, the choice and clamping of
     * the target, then one jittered move and one pause per curve point. Returns the
     * clamped target without jitter; in input mode an empty `randint` range raises
     * `ValueError` after the approach. The curve's step count, draws and distance are
     * returned as ghosts so that the moves can be related to `BezierPoints`.
     */
    method MoveTo(box: Box, offsetX: Option<int> := None, offsetY: Option<int> := None, inputMode: bool := false)
      returns (res: Result<(int, int)>, ghost cmds: seq<Command>,
               ghost steps: int, ghost draws: ControlDraws, ghost dist: real)
      modifies page`log, rng
      ensures page.log == old(page.log) + cmds
      ensures res.Err? <==> inputMode && InputRangeEmpty(RegionOf(box))
      ensures res.Err? ==> res.error == ValueError && MoveToAbortLog(config, Center(RegionOf(box)), cmds)
      ensures res.Ok? ==> TargetChosen(RegionOf(box), offsetX, offsetY, inputMode, res.value)
      ensures res.Ok? ==> MoveToLog(config, Center(RegionOf(box)), cmds, res.value)
      ensures res.Ok? ==> FollowsCurve(config, Center(RegionOf(box)), res.value, cmds, steps, draws, dist)
    {
      var r := RegionOf(box);
      var start := Center(r);
      ghost var before := page.log;
      var approach := MoveToStart(start);
      cmds := approach;
      var chosen := ChooseTarget(r, offsetX, offsetY, inputMode);
      if chosen.Err? {
        res := chosen;
        steps, draws, dist := 0, ControlDraws(0.0, 0.0, 0.0, 0.0), 0.0;
        return;
      }
      var target := chosen.value;
      var bezierSteps: int;
      if config.fast {
        bezierSteps := rng.RandInt(20, 30);
      } else {
        bezierSteps := rng.RandInt(80, 120);
      }
      var curve, offsets, d := GenerateBezierPoints(AsPoint(start), AsPoint(target), bezierSteps);
      var points := curve.value;
      var path := FollowCurve(points);
      AppendAssoc(before, approach, path);
      cmds := approach + path;
      if !config.humanize {
        assert path[2 * 0] == Move(points[0].x, points[0].y, 1);
        assert path[2 * (|points| - 1)] == Move(points[|points| - 1].x, points[|points| - 1].y, 1);
      }
      MoveToLogOf(config, start, approach, path, target);
      MovesAfterApproach(approach, path, points, config.humanize);
      assert CurveDrawn(config, start, target, bezierSteps, offsets, d);
      steps, draws, dist := bezierSteps, offsets, d;
      res := Ok(target);
    }

    /** The first two steps of `move_to`: a direct move to `start` in several steps, then a pause. */
    method MoveToStart(start: (int, int)) returns (ghost cmds: seq<Command>)
      modifies page`log, rng
      ensures page.log == old(page.log) + cmds
      ensures |cmds| == 2 && Approach(config, start, cmds)
    {
      var initialSteps: int;
      if config.fast {
        initialSteps := rng.RandInt(5, 10);
      } else {
        initialSteps := rng.RandInt(30, 150);
      }
      page.MouseMove(start.0 as real, start.1 as real, initialSteps);
      var pause: real;
      if config.fast {
        pause := rng.Uniform(0.01, 0.03);
      } else {
        pause := rng.Uniform(0.05, 0.1);
      }
      page.Sleep(pause);
      cmds := [Move(start.0 as real, start.1 as real, initialSteps), Command.Sleep(pause)];
    }

    /**
     * The target of `move_to`: the explicit or drawn offsets, replaced by draws from the
     * 70–80% band and the whole height in input mode (which raises on an empty range),
     * then clamped into the region.
     */
    method ChooseTarget(r: Region, offsetX: Option<int>, offsetY: Option<int>, inputMode: bool)
      returns (res: Result<(int, int)>)
      modifies rng
      ensures res.Err? <==> inputMode && InputRangeEmpty(r)
      ensures res.Err? ==> res.error == ValueError
      ensures res.Ok? ==> TargetChosen(r, offsetX, offsetY, inputMode, res.value)
    {
      var ox: int;
      if offsetX.Some? {
        ox := offsetX.value;
      } else {
        var u := rng.Uniform(0.0, r.w as real);
        ox := RoundHalfEven(u);
        if r.w >= 0 { RoundWithin(u, 0, r.w); } else { RoundWithin(u, r.w, 0); }
      }
      var oy: int;
      if offsetY.Some? {
        oy := offsetY.value;
      } else {
        var u := rng.Uniform(0.0, r.h as real);
        oy := RoundHalfEven(u);
        if r.h >= 0 { RoundWithin(u, 0, r.h); } else { RoundWithin(u, r.h, 0); }
      }
      var tx, ty := r.x + ox, r.y + oy;
      if inputMode {
        var minX := Trunc(r.x as real + r.w as real * 0.7);
        var maxX := Trunc(r.x as real + r.w as real * 0.8);
        InputRangeIsTruncation(r);
        if minX > maxX {
          res := Err(ValueError);
          return;
        }
        tx := rng.RandInt(minX, maxX);
        if r.h < 0 {
          res := Err(ValueError);
          return;
        }
        ty := rng.RandInt(r.y, r.y + r.h);
      }
      ChosenAfterClamp(r, offsetX, offsetY, inputMode, tx, ty);
      res := Ok((Clamp(tx, r.x, r.w), Clamp(ty, r.y, r.h)));
    }

    /**
     * The loop of `move_to` over the curve: each point, jittered when humanized, as a
     * one-step move, then a short pause or, now and then when humanized, a hesitation.
     */
    method FollowCurve(points: seq<Point>) returns (ghost cmds: seq<Command>)
      modifies page`log, rng
      ensures page.log == old(page.log) + cmds
      ensures |cmds| == 2 * |points| && CurveTrace(config, cmds, 0)
      ensures !config.humanize ==> forall j :: 0 <= j < |points| ==> cmds[2 * j] == Move(points[j].x, points[j].y, 1)
    {
      var sleepMin := if config.fast then 0.001 else 0.002;
      var sleepMax := if config.fast then 0.005 else 0.015;
      cmds := [];
      var i := 0;
      while i < |points|
        invariant 0 <= i <= |points|
        invariant page.log == old(page.log) + cmds
        invariant |cmds| == 2 * i && CurveTrace(config, cmds, 0)
        invariant !config.humanize ==> forall j :: 0 <= j < i ==> cmds[2 * j] == Move(points[j].x, points[j].y, 1)
      {
        var x, y := points[i].x, points[i].y;
        if config.humanize {
          var jx := rng.Gauss(0.0, 1.0);
          var jy := rng.Gauss(0.0, 1.0);
          x, y := x + jx, y + jy;
        }
        page.MouseMove(x, y, 1);
        var hesitate := false;
        if config.humanize {
          var f := rng.Random();
          hesitate := f < 0.05;
        }
        var d: real;
        if hesitate {
          d := rng.Uniform(0.03, 0.07);
        } else {
          d := rng.Uniform(sleepMin, sleepMax);
        }
        page.Sleep(d);
        cmds := cmds + [Move(x, y, 1), Command.Sleep(d)];
        i := i + 1;
      }
    }

    /** The clamp of a value drawn from the raw range is a target `TargetChosen` admits. */
    static lemma ChosenAfterClamp(r: Region, offsetX: Option<int>, offsetY: Option<int>, inputMode: bool, tx: int, ty: int)
      requires RawRangeX(r, offsetX, inputMode).0 <= tx <= RawRangeX(r, offsetX, inputMode).1
      requires RawRangeY(r, offsetY, inputMode).0 <= ty <= RawRangeY(r, offsetY, inputMode).1
      ensures TargetChosen(r, offsetX, offsetY, inputMode, (Clamp(tx, r.x, r.w), Clamp(ty, r.y, r.h)))
    {
      ClampMonotone(RawRangeX(r, offsetX, inputMode).0, tx, r.x, r.w);
      ClampMonotone(tx, RawRangeX(r, offsetX, inputMode).1, r.x, r.w);
      ClampMonotone(RawRangeY(r, offsetY, inputMode).0, ty, r.y, r.h);
      ClampMonotone(ty, RawRangeY(r, offsetY, inputMode).1, r.y, r.h);
    }

    /** `click_at`: a move, then one click at the returned point after a short hold. */
    method ClickAt(box: Box, clicktype: string := "left", inputMode: bool := false)
      returns (out: Outcome, ghost target: (int, int), ghost cmds: seq<Command>)
      modifies page`log, rng
      ensures page.log == old(page.log) + cmds
      ensures out.Raised? <==> inputMode && InputRangeEmpty(RegionOf(box))
      ensures out.Raised? ==> out.error == ValueError && MoveToAbortLog(config, Center(RegionOf(box)), cmds)
      ensures out.Completed? ==> TargetChosen(RegionOf(box), None, None, inputMode, target)
      ensures out.Completed? ==> ClickAtLog(config, Center(RegionOf(box)), clicktype, cmds, target)
    {
      ghost var before := page.log;
      var moved, moves, _, _, _ := MoveTo(box, inputMode := inputMode);
      cmds := moves;
      if moved.Err? {
        out, target := Raised(moved.error), (0, 0);
        return;
      }
      var point := moved.value;
      target := point;
      var button := Lower(clicktype);
      var delay: real;
      if config.fast {
        delay := rng.Uniform(50.0, 80.0);
      } else {
        delay := rng.Uniform(100.0, 150.0);
      }
      page.MouseClick(point.0 as real, point.1 as real, button, delay);
      AppendAssoc(before, moves, [Click(point.0 as real, point.1 as real, button, delay)]);
      cmds := moves + [Click(point.0 as real, point.1 as real, button, delay)];
      ClickAtLogOf(config, Center(RegionOf(box)), clicktype, moves, delay, point);
      out := Completed;
    }

    /**
     * `type_at`: the focusing click in input mode, then one key press and one pause per
     * character. A typing rate of zero raises `ZeroDivisionError` after the click.
     */
    method TypeAt(box: Box, text: string, interKeyOffset: real := TypeInterKeyOffset,
                  keyPressDelayRange: (real, real) := TypeKeyDelays)
      returns (out: Outcome, ghost target: (int, int), ghost cmds: seq<Command>)
      modifies page`log, rng
      ensures page.log == old(page.log) + cmds
      ensures out == Raised(ValueError) <==> InputRangeEmpty(RegionOf(box))
      ensures out == Raised(ZeroDivisionError) <==> !InputRangeEmpty(RegionOf(box)) && config.charactersPerMinute == 0.0
      ensures InputRangeEmpty(RegionOf(box)) ==> MoveToAbortLog(config, Center(RegionOf(box)), cmds)
      ensures !InputRangeEmpty(RegionOf(box)) ==> TargetChosen(RegionOf(box), None, None, true, target)
      ensures !InputRangeEmpty(RegionOf(box)) ==>
        TypeAtLog(config, Center(RegionOf(box)), text, interKeyOffset, keyPressDelayRange, cmds, target)
    {
      ghost var before := page.log;
      var clicked, t, clicks := ClickAt(box, inputMode := true);
      target, cmds := t, clicks;
      if clicked.Raised? {
        out := clicked;
        return;
      }
      if config.charactersPerMinute == 0.0 {
        out := Raised(ZeroDivisionError);
        return;
      }
      var baseDelay := 60.0 / config.charactersPerMinute;
      var typed := TypeText(text, baseDelay, interKeyOffset, keyPressDelayRange);
      AppendAssoc(before, clicks, typed);
      cmds := clicks + typed;
      TypeAtLogOf(config, Center(RegionOf(box)), text, interKeyOffset, keyPressDelayRange, clicks, typed, target);
      out := Completed;
    }

    /**
     * `backspace_at`: the focusing click in input mode, then `num_chars` presses of
     * `Backspace`, each followed by its pause. A deleting rate of zero raises
     * `ZeroDivisionError` after the click.
     */
    method BackspaceAt(box: Box, numChars: int, interKeyOffset: real := BackspaceInterKeyOffset,
                       keyPressDelayRange: (real, real) := BackspaceKeyDelays)
      returns (out: Outcome, ghost target: (int, int), ghost cmds: seq<Command>)
      modifies page`log, rng
      ensures page.log == old(page.log) + cmds
      ensures out == Raised(ValueError) <==> InputRangeEmpty(RegionOf(box))
      ensures out == Raised(ZeroDivisionError) <==> !InputRangeEmpty(RegionOf(box)) && config.backspaceCpm == 0.0
      ensures InputRangeEmpty(RegionOf(box)) ==> MoveToAbortLog(config, Center(RegionOf(box)), cmds)
      ensures !InputRangeEmpty(RegionOf(box)) ==> TargetChosen(RegionOf(box), None, None, true, target)
      ensures !InputRangeEmpty(RegionOf(box)) ==>
        BackspaceAtLog(config, Center(RegionOf(box)), numChars, interKeyOffset, keyPressDelayRange, cmds, target)
    {
      ghost var before := page.log;
      var clicked, t, clicks := ClickAt(box, inputMode := true);
      target, cmds := t, clicks;
      if clicked.Raised? {
        out := clicked;
        return;
      }
      if config.backspaceCpm == 0.0 {
        out := Raised(ZeroDivisionError);
        return;
      }
      var baseDelay := 60.0 / config.backspaceCpm;
      var deleted := DeleteChars(Repetitions(numChars), baseDelay, interKeyOffset, keyPressDelayRange);
      AppendAssoc(before, clicks, deleted);
      cmds := clicks + deleted;
      BackspaceAtLogOf(config, Center(RegionOf(box)), numChars, interKeyOffset, keyPressDelayRange, clicks, deleted, target);
      out := Completed;
    }

    /**
     * The loop of `type_at`: per character, an offset and a key delay are drawn, the key is
     * pressed, and the pause `max(0, base + offset)` follows, lengthened after a space when
     * humanized.
     */
    method TypeText(text: string, baseDelay: real, interKeyOffset: real, keyPressDelayRange: (real, real))
      returns (ghost typed: seq<Command>)
      modifies page`log, rng
      ensures page.log == old(page.log) + typed
      ensures TypeTrace(config, text, baseDelay, interKeyOffset, keyPressDelayRange, typed)
    {
      typed := [];
      var i := 0;
      while i < |text|
        invariant 0 <= i <= |text|
        invariant page.log == old(page.log) + typed
        invariant |typed| == 2 * i
        invariant forall k :: 0 <= k < |typed| ==>
          if k % 2 == 0 then typed[k].Press? && typed[k].key == [text[k / 2]]
            && Between(typed[k].delay, keyPressDelayRange.0, keyPressDelayRange.1)
          else typed[k].Sleep? && CharPauseOk(config, baseDelay, interKeyOffset, text[k / 2], typed[k].seconds)
      {
        var ch := text[i];
        var randomOffset := rng.Uniform(-interKeyOffset, interKeyOffset);
        var delay := Max(0.0, baseDelay + randomOffset);
        var keyDelay := rng.Uniform(keyPressDelayRange.0, keyPressDelayRange.1);
        page.KeyboardPress([ch], keyDelay);
        var pause := delay;
        if config.humanize && ch == ' ' {
          var extra := rng.Uniform(0.05, 0.1);
          pause := delay + extra;
        }
        page.Sleep(pause);
        typed := typed + [Press([ch], keyDelay), Command.Sleep(pause)];
        i := i + 1;
      }
    }

    /**
     * The loop of `backspace_at`: `n` presses of `Backspace`, each followed by the pause
     * `max(0, base + offset)`, now and then lengthened when humanized.
     */
    method DeleteChars(n: nat, baseDelay: real, interKeyOffset: real, keyPressDelayRange: (real, real))
      returns (ghost deleted: seq<Command>)
      modifies page`log, rng
      ensures page.log == old(page.log) + deleted
      ensures BackspaceTrace(config, n, baseDelay, interKeyOffset, keyPressDelayRange, deleted)
    {
      deleted := [];
      var i := 0;
      while i < n
        invariant 0 <= i <= n
        invariant page.log == old(page.log) + deleted
        invariant BackspaceTrace(config, i, baseDelay, interKeyOffset, keyPressDelayRange, deleted)
      {
        var randomOffset := rng.Uniform(-interKeyOffset, interKeyOffset);
        var delay := Max(0.0, baseDelay + randomOffset);
        var keyDelay := rng.Uniform(keyPressDelayRange.0, keyPressDelayRange.1);
        page.KeyboardPress("Backspace", keyDelay);
        var hesitate := false;
        if config.humanize {
          var f := rng.Random();
          hesitate := f < 0.05;
        }
        var pause := delay;
        if hesitate {
          var extra := rng.Uniform(0.01, 0.03);
          pause := delay + extra;
        }
        page.Sleep(pause);
        deleted := deleted + [Press("Backspace", keyDelay), Command.Sleep(pause)];
        i := i + 1;
      }
    }

    /** `hover_at`: a move, then a dwell of 80% to 120% of `dwell_time`. */
    method HoverAt(box: Box, dwellTime: real := DefaultDwell)
      returns (ghost target: (int, int), ghost cmds: seq<Command>)
      modifies page`log, rng
      ensures page.log == old(page.log) + cmds
      ensures TargetChosen(RegionOf(box), None, None, false, target)
      ensures HoverAtLog(config, Center(RegionOf(box)), dwellTime, cmds, target)
    {
      ghost var before := page.log;
      var moved, moves, _, _, _ := MoveTo(box);
      target := moved.value;
      var dwell := rng.Uniform(dwellTime * 0.8, dwellTime * 1.2);
      page.Sleep(dwell);
      AppendAssoc(before, moves, [Command.Sleep(dwell)]);
      cmds := moves + [Command.Sleep(dwell)];
      HoverAtLogOf(config, Center(RegionOf(box)), dwellTime, moves, dwell, target);
    }

    /**
     * `scroll_to`: the distance to scroll (to the element's top, the given delta, or
     * 100 to 500 pixels either way), then `steps` wheel steps each followed by a pause.
     */
    method ScrollTo(locator: Option<Box> := None, deltaY: Option<real> := None)
      returns (ghost total: real, ghost steps: int, ghost cmds: seq<Command>)
      modifies page`log, rng
      ensures page.log == old(page.log) + cmds
      ensures ScrollToLog(config, locator, deltaY, page.scrollY, cmds, total, steps)
    {
      var delta := ScrollDistance(locator, deltaY);
      var n: int;
      if config.fast {
        n := rng.RandInt(10, 20);
      } else {
        n := rng.RandInt(30, 50);
      }
      cmds := WheelSteps(delta, n);
      total, steps := delta, n;
    }

    /** The distance `scroll_to` covers: to the element's top, the given delta, or a random one. */
    method ScrollDistance(locator: Option<Box>, deltaY: Option<real>) returns (delta: real)
      modifies rng
      ensures locator.Some? ==> delta == locator.value.y - page.scrollY
      ensures locator.None? && deltaY.Some? ==> delta == deltaY.value
      ensures locator.None? && deltaY.None? ==> delta == delta.Floor as real && 100.0 <= Abs(delta) <= 500.0
    {
      if locator.Some? {
        delta := locator.value.y - page.scrollY;
      } else if deltaY.Some? {
        delta := deltaY.value;
      } else {
        var amount := rng.RandInt(100, 500);
        var f := rng.Random();
        var sign := if f > 0.5 then 1 else -1;
        delta := (amount * sign) as real;
      }
    }

    /** The loop of `scroll_to`: `n` wheel steps of about `delta / n`, each followed by a pause. */
    method WheelSteps(delta: real, n: int) returns (ghost cmds: seq<Command>)
      requires n > 0
      modifies page`log, rng
      ensures page.log == old(page.log) + cmds
      ensures ScrollTrace(delta, n, cmds)
    {
      cmds := [];
      var i := 0;
      while i < n
        invariant 0 <= i <= n
        invariant page.log == old(page.log) + cmds
        invariant |cmds| == 2 * i
        invariant forall k :: 0 <= k < |cmds| ==>
          if k % 2 == 0 then cmds[k].Wheel? && cmds[k].deltaX == 0.0 && WheelStepOk(delta, n, cmds[k].deltaY)
          else cmds[k].Sleep? && 0.01 <= cmds[k].seconds <= 0.03
      {
        var u := rng.Uniform(-0.1, 0.1);
        var stepDelta := delta / n as real * (1.0 + u);
        WheelStepFromFactor(delta, n, u);
        page.MouseWheel(0.0, stepDelta);
        var pause := rng.Uniform(0.01, 0.03);
        page.Sleep(pause);
        cmds := cmds + [Wheel(0.0, stepDelta), Command.Sleep(pause)];
        i := i + 1;
      }
    }

    /**
     * `drag_to`: a move to the source, the button down, a pause, a move to the
     * destination, the button up.
     */
    method DragTo(source: Box, dest: Box)
      returns (ghost split: int, ghost sourcePoint: (int, int), ghost destPoint: (int, int), ghost cmds: seq<Command>)
      modifies page`log, rng
      ensures page.log == old(page.log) + cmds
      ensures TargetChosen(RegionOf(source), None, None, false, sourcePoint)
      ensures TargetChosen(RegionOf(dest), None, None, false, destPoint)
      ensures DragToLog(config, Center(RegionOf(source)), Center(RegionOf(dest)), cmds, split, sourcePoint, destPoint)
    {
      ghost var before := page.log;
      var first, toSource, _, _, _ := MoveTo(source);
      page.MouseDown();
      AppendAssoc(before, toSource, [Down]);
      var hold := rng.Uniform(0.1, 0.3);
      page.Sleep(hold);
      AppendAssoc(before, toSource + [Down], [Command.Sleep(hold)]);
      var second, toDest, _, _, _ := MoveTo(dest);
      AppendAssoc(before, toSource + [Down] + [Command.Sleep(hold)], toDest);
      page.MouseUp();
      AppendAssoc(before, toSource + [Down] + [Command.Sleep(hold)] + toDest, [Up]);
      sourcePoint, destPoint := first.value, second.value;
      cmds := toSource + [Down] + [Command.Sleep(hold)] + toDest + [Up];
      split := |toSource|;
      DragToLogOf(config, Center(RegionOf(source)), Center(RegionOf(dest)), toSource, hold, toDest, sourcePoint, destPoint);
    }

    /**
     * `human_correct`: a one-step jump past the element, scaled by
     * `overshoot_factor`, a short pause, then an ordinary move to the element.
     */
    method HumanCorrect(box: Box, overshootFactor: real := DefaultOvershoot)
      returns (ghost target: (int, int), ghost cmds: seq<Command>)
      modifies page`log, rng
      ensures page.log == old(page.log) + cmds
      ensures TargetChosen(RegionOf(box), None, None, false, target)
      ensures HumanCorrectLog(config, OvershootPoint(box, overshootFactor), Center(RegionOf(box)), cmds, target)
    {
      ghost var before := page.log;
      var jump := OvershootPoint(box, overshootFactor);
      page.MouseMove(jump.0, jump.1, 1);
      var pause := rng.Uniform(0.05, 0.1);
      page.Sleep(pause);
      AppendAssoc(before, [Move(jump.0, jump.1, 1)], [Command.Sleep(pause)]);
      var moved, moves, _, _, _ := MoveTo(box);
      AppendAssoc(before, [Move(jump.0, jump.1, 1)] + [Command.Sleep(pause)], moves);
      target := moved.value;
      cmds := [Move(jump.0, jump.1, 1)] + [Command.Sleep(pause)] + moves;
      HumanCorrectLogOf(config, jump, pause, Center(RegionOf(box)), moves, target);
    }
  }
}
