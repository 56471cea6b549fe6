# Humanization: a verified model of human-like browser input

`Humanization` (humanization/core.py) drives a Playwright page the way a person
would. Mouse paths follow a randomly bent cubic Bezier curve toward a point chosen
inside the element's bounding box. The operations built on it are click, type,
delete, hover, scroll, drag and overshoot-and-correct. After every device call
comes a short random pause.

The model has two layers.

- **Curve geometry** (`bezier.dfy`, pure). `cubic_bezier` is a function that
  raises `ValueError` outside `[0, 1]`. `generate_bezier_points` is a function
  of its random draws: two control points at 0.33 and 0.66 of the chord, each
  displaced by at most `min(50, 0.2 * dist)` per axis, then `steps` samples at
  `t = i / (steps - 1)`.
- **Command sequencing** (`core.dfy`, imperative). `Humanization` is a class
  holding the page, the configuration and a random source.
  - Each operation is a method that appends to the page's command log
    (`devices.dfy`). The log holds `Move`, `Click`, `Press`, `Wheel`, `Down`,
    `Up` and `Sleep` entries.
  - Each loop of the source is a `while` loop with its invariants.
  - Each method returns, as a ghost, the commands it appended. It states them
    with one predicate per operation from `plans.dfy`. These predicates give the
    order of the commands and the range of every random draw.
  - The properties are lemmas about those predicates: command counts, order,
    typed keys, clamp bounds, the scroll-sum bound and non-negative pauses.

Supporting modules:
- `numeric.dfy`: Python's `int()`, `round()`, the clamp on `max`/`min`, and a
  bisection square root.
- `commands.dfy`: the command datatype, and counting over logs.
- `config.dfy`: `HumanizationConfig` and its defaults.
- `wrappers.dfy`: `Option`, `Result` and `Outcome` for the exceptions the code
  raises itself.

The random source states only the range of each draw, as the `random` module
documents it. Clocks, the browser and the network do not appear: every sleep is
a `Sleep` entry in the log, and the element's bounding box and the page's
`window.scrollY` are inputs.

The methods keep the source's default arguments: `steps=40`, `input_mode=False`, `clicktype="left"`, the typing and deleting offsets and key-delay ranges, `dwell_time=0.5`, `overshoot_factor=1.2`, and a missing locator or `delta_y`. The random source is an extra constructor argument.

Input mode needs care. `move_to` draws with `randint`, which raises on an empty
range. With the parameter names of `move_to`, the range is empty when
`int(x + w * 0.7) > int(x + w * 0.8)` or when `h < 0`. A browser never reports
such a box, but the model still handles it. `MoveTo` returns `Err(ValueError)`
after the opening move and pause, and `ClickAt`, `TypeAt` and `BackspaceAt`
pass the error on. `ValidRegionHasInputRange` shows this cannot happen for a
box of non-negative size.

## Model

| member | source | states |
|---|---|---|
| Config.DefaultConfig | humanization/core.py:10-17 | the defaults: fast, humanized, stealthy, 600 characters and 1200 deletions per minute, 5000 ms timeout |
| Numeric.Trunc | humanization/core.py:129-130 | `int()` of a float truncates toward zero: within one unit of the value, on the side of zero |
| Numeric.RoundHalfEven | humanization/core.py:139-141 | `round()`: the nearest integer, within one half, and the even one on a tie |
| Numeric.RoundWithin | humanization/core.py:139-141 | `round()` of a value between two integers stays between them, so `round(uniform(0, w))` lies in `[0, w]` (or `[w, 0]`) |
| Numeric.Clamp | humanization/core.py:152-153 | `max(lo, min(v, lo + w - 1))` lies in `[lo, lo + w - 1]` for `w >= 1`; it is `lo` for `w <= 0`; it leaves in-range values unchanged and pins the rest to the nearer end |
| Numeric.ClampMonotone | humanization/core.py:152-153 | the clamp preserves order |
| Numeric.TruncDivTenths | humanization/core.py:147-148 | integer division by ten truncated toward zero equals `int()` of the real quotient |
| Numeric.Sqrt | humanization/core.py:110 | `** 0.5` by bisection: a non-negative `r` with `r * r <= v < (r + (v + 1) / 2^64)^2` |
| Bezier.Lerp | humanization/core.py:107-108 | exact at both ends, and between `a` and `b` for `t` in `[0, 1]` |
| Bezier.CubicBezier | humanization/core.py:91-102 | `ValueError` exactly when `t` is outside `[0, 1]`; exactly `p0` at `t = 0`, exactly `p3` at `t = 1` |
| Bezier.CubicBezierWithinControlBox | humanization/core.py:95-101 | for `t` in `[0, 1]` the point lies in the box spanned by the four control points |
| Bezier.CubicBezierCollinear | humanization/core.py:95-101 | with inner controls at one and two thirds of the chord, the curve is the straight segment, traversed at the speed of `lerp` |
| Bezier.CubicBezierCollinearMidpoint | tests/test_core.py:15-24 | controls `(0,0), (100,100), (200,200), (300,300)` give exactly `(150, 150)` at `t = 0.5` |
| Bezier.MaxControlOffset | humanization/core.py:111 | the cap is at most 50 and at most `0.2 * dist`, and equals one of the two |
| Bezier.BezierPoints | humanization/core.py:104-121 | `steps <= 0` gives no points; `steps == 1` divides by zero; otherwise exactly `steps` points, the first `p0`, the last `p3`, the `i`-th `cubic_bezier(i / (steps - 1))` |
| Bezier.SampleAt | humanization/core.py:120 | `i / n` lies in `[0, 1]` for `0 <= i <= n`, and is 0 at `i = 0` and 1 at `i = n` |
| Bezier.ControlPointsNearChord | humanization/core.py:110-119 | each inner control point is within 50, and within a fifth of the endpoint distance, of its place on the chord on each axis |
| Bezier.ThreeStepPathMiddleInside | tests/test_core.py:26-37 | from `(0,0)` to `(100,100)` in 3 steps, with any draws of at most 50, the middle sample lies strictly inside the square |
| Plans.RegionOf | humanization/core.py:129-130 | the integer region of a box of non-negative size has non-negative size |
| Plans.Center | humanization/core.py:132-133 | `x + w // 2` with floor division: `w - 2 * (cx - x)` is 0 or 1, so for `w >= 1` the start lies in the region; the same for y |
| Plans.InputRangeIsTruncation | humanization/core.py:147-148 | the input-mode bounds are `int(x + w * 0.7)` and `int(x + w * 0.8)` |
| Plans.InputRangeEmpty | humanization/core.py:146-150 | an input-mode `randint` raises exactly when `int(x + w * 0.7) > int(x + w * 0.8)` or the height is negative |
| Plans.ValidRegionHasInputRange | humanization/core.py:146-150 | for a region of non-negative size, neither input-mode `randint` range is empty, so input mode never raises |
| Plans.TargetInRegion | humanization/core.py:138-153 | for explicit, drawn or input-mode offsets, `x <= tx <= x + w - 1` when `w >= 1`, and `tx == x` when `w <= 0`; the same for y; an explicit offset outside input mode is the clamp of `x + offset_x` |
| Plans.InputTargetInBand | humanization/core.py:146-149 | in input mode, for a region of width at least 1 that starts at a non-negative `x` or is at least 5 wide, the horizontal target lies between `int(x + 0.7 w)` and `int(x + 0.8 w)` |
| Plans.MoveToLogOf | humanization/core.py:134-171 | a move's log is the opening move and pause, followed by one move and one pause per curve point |
| Plans.MovesAfterApproach | humanization/core.py:158-167 | the per-point moves keep their places behind the opening move and pause: one move per curve point, exactly onto the point when there is no jitter |
| Plans.CurveNearChord | humanization/core.py:110-120 | every point of the sampled curve lies within 50 pixels, on each axis, of the box spanned by the start and the target; with `FollowsCurve`, so does every unjittered move of `MoveTo` |
| Plans.MoveToAlternates | humanization/core.py:134-171 | a move's log alternates `Move` and `Sleep`, starting with a `Move` |
| Plans.MoveToCounts | humanization/core.py:157-171 | a move sends as many sleeps as moves and nothing else; its moves after the opening one number 20 to 30 when fast and 80 to 120 otherwise |
| Plans.MoveToTestManyMoves | tests/test_core.py:54-61 | a fast move sends at least 21 mouse moves |
| Plans.MoveToSleepsNonNegative | humanization/core.py:136-171 | no pause of a move is negative |
| Plans.Lower | humanization/core.py:176 | `lower()` keeps the length, leaves no upper-case ASCII letter, and changes nothing else |
| Plans.ClickAtLogOf | humanization/core.py:174-178 | a click's log is the move's log, then one `Click` at the returned target with the lower-cased button and a delay from the profile's range |
| Plans.ClickAtSingleClick | humanization/core.py:174-178 | a click sends exactly one `Click`, as its last command, at the returned target, presses no key, and its moves after the opening one number as many as `bezier_steps` allows |
| Plans.TypeAtLogOf | humanization/core.py:184-207 | typing's log is the focusing click's log followed by one press and one pause per character |
| Plans.TypeTraceKeys | humanization/core.py:199-207 | the keys pressed are exactly the characters of `text`, in order, each followed by its pause |
| Plans.TypeAtPresses | humanization/core.py:180-207 | `type_at` presses exactly `len(text)` keys, the characters of `text` in order, and clicks exactly once |
| Plans.TypeAtZeroRatePressesNothing | humanization/core.py:198 | with a typing rate of zero, `60 / cpm` raises before any key is pressed |
| Plans.TypeAtTestFourPresses | tests/test_core.py:63-69 | typing `"test"` with the defaults presses `t, e, s, t`, four keys |
| Plans.TypeTraceSleepsNonNegative | humanization/core.py:200-207 | every pause while typing is at least `max(0, 60 / cpm - abs(offset))`, so never negative |
| Plans.Repetitions | humanization/core.py:216 | `range(num_chars)` runs `num_chars` times, or not at all when it is negative |
| Plans.BackspaceAtLogOf | humanization/core.py:213-224 | deleting's log is the focusing click's log followed by one press and one pause per deletion |
| Plans.BackspaceTraceFacts | humanization/core.py:216-224 | `n` deletions press exactly `n` keys, all `Backspace`, with every pause at least `max(0, base - abs(offset))` |
| Plans.BackspaceAtPresses | humanization/core.py:209-224 | `backspace_at` presses exactly `max(0, num_chars)` keys, all `Backspace` |
| Plans.BackspaceAtPauses | humanization/core.py:215-224 | each pause after a deletion is at least `max(0, 60 / backspace_cpm - abs(offset))`, so never negative |
| Plans.HoverAtLogOf | humanization/core.py:226-228 | hovering's log is the move's log followed by one dwell in `[0.8, 1.2]` times `dwell_time` |
| Plans.HoverAtDwell | humanization/core.py:226-228 | the dwell is within 20% of `abs(dwell_time)`, for a dwell time of either sign, and it is the one sleep beyond the move's |
| Plans.WheelStepFromFactor | humanization/core.py:240 | `delta_y / steps * (1 + uniform(-0.1, 0.1))` lies between `0.9` and `1.1` times `delta_y / steps` |
| Plans.WheelPartialSums | humanization/core.py:239-241 | after `k` wheel steps the sum lies between 0.9 and 1.1 times `k` shares of the distance |
| Plans.ScrollTraceTotal | humanization/core.py:239-241 | the wheel deltas sum to the distance within 10%: `abs(sum - delta_y) <= 0.1 * abs(delta_y)` |
| Plans.ScrollTraceCounts | humanization/core.py:238-242 | a scroll sends exactly `steps` wheel commands, and no pause is negative |
| Plans.ScrollSumBound | humanization/core.py:230-242 | `scroll_to` covers its distance within 10% in `steps` wheel steps, `steps` in `[10, 20]` when fast and `[30, 50]` otherwise; the distance is `box.y - scrollY` for an element, else the given delta, else a whole number of pixels from 100 to 500 in either direction |
| Plans.DragToLogOf | humanization/core.py:248-253 | a drag's log is the move to the source, `Down`, a pause of 0.1 to 0.3 s, the move to the destination, then `Up` |
| Plans.DragToOrder | humanization/core.py:248-253 | a drag presses the button once and releases it once, after it; only moves and sleeps come before, between and after; the release is the last command; no click or key press |
| Plans.OvershootPoint | humanization/core.py:257-258 | the jump lands on the box's corner for a factor of 0 and on its far corner for a factor of 1 |
| Plans.OvershootBeyondBox | humanization/core.py:257-258 | for a factor above 1 and a box of positive size, the jump lands to the right of and below the box |
| Plans.HumanCorrectLogOf | humanization/core.py:255-261 | a correction's log is the one-step jump, a pause of 0.05 to 0.1 s, then the move's log |
| Plans.HumanCorrectShape | humanization/core.py:255-261 | a correction alternates moves and sleeps, has one move and one sleep more than the move to the element, and no click or key press |
| Devices.Page.MouseMove | humanization/core.py:167 | `page.mouse.move(x, y, steps)` appends exactly one `Move` to the log |
| Devices.Page.MouseClick | humanization/core.py:178 | `page.mouse.click` appends exactly one `Click` with its button and delay |
| Devices.Page.MouseDown | humanization/core.py:250 | `page.mouse.down()` appends exactly one `Down` |
| Devices.Page.MouseUp | humanization/core.py:253 | `page.mouse.up()` appends exactly one `Up` |
| Devices.Page.MouseWheel | humanization/core.py:241 | `page.mouse.wheel(0, d)` appends exactly one `Wheel` |
| Devices.Page.KeyboardPress | humanization/core.py:203 | `page.keyboard.press(key, delay)` appends exactly one `Press` |
| Devices.Page.Sleep | humanization/core.py:136 | `asyncio.sleep(s)` appends exactly one `Sleep` of `s` seconds |
| Devices.RandomSource.Random | humanization/core.py:168 | `random.random()` lies in `[0, 1)` |
| Devices.RandomSource.Uniform | humanization/core.py:113 | `random.uniform(a, b)` lies between `a` and `b`, in either order |
| Devices.RandomSource.RandInt | humanization/core.py:134 | `random.randint(a, b)` lies in `[a, b]` |
| Devices.RandomSource.Gauss | humanization/core.py:165 | the stand-in for `random.gauss(mu, sigma)` lies within six `sigma` of `mu` |
| Core.Humanization.constructor | humanization/core.py:20-22 | a missing configuration, the default argument, means `HumanizationConfig()` |
| Core.Humanization.GenerateBezierPoints | humanization/core.py:104-121 | the points are `BezierPoints` of draws within `min(50, 0.2 * dist)`, where `dist` is a lower root of the squared endpoint distance |
| Core.Humanization.MoveTo | humanization/core.py:123-172 | raises `ValueError` exactly when input mode meets an empty range, after sending only the opening move and pause; otherwise returns a target admitted by the clamp, its log is `MoveToLog` from the region's centre, and the log follows `BezierPoints` from the centre to the target, with `bezier_steps` in the profile's range: one move per point, exactly that point without jitter |
| Core.Humanization.MoveToStart | humanization/core.py:132-136 | one move to the centre in 5 to 10 steps (30 to 150 when slow), then a pause of 0.01 to 0.03 s (0.05 to 0.1 s) |
| Core.Humanization.ChooseTarget | humanization/core.py:138-153 | the clamped target of an offset drawn from the raw range; `ValueError` exactly on an empty input-mode range |
| Core.Humanization.ChosenAfterClamp | humanization/core.py:152-153 | clamping a value of the raw range yields a target between the clamped ends of the range |
| Core.Humanization.FollowCurve | humanization/core.py:160-171 | one one-step move and one pause per point, the pause in the profile's range or a hesitation of 0.03 to 0.07 s; without jitter each move is exactly the point |
| Core.Humanization.ClickAt | humanization/core.py:174-178 | the move's error passes through; otherwise the log is `ClickAtLog` at the returned target |
| Core.Humanization.TypeAt | humanization/core.py:180-207 | `ValueError` exactly on an empty input range; `ZeroDivisionError` exactly when the typing rate is zero, after the click; otherwise the log is `TypeAtLog` |
| Core.Humanization.TypeText | humanization/core.py:198-207 | per character, a press of that character with a delay in range, then `max(0, base + offset)`, plus 0.05 to 0.1 s after a space when humanized |
| Core.Humanization.BackspaceAt | humanization/core.py:209-224 | `ValueError` exactly on an empty input range; `ZeroDivisionError` exactly when the deleting rate is zero, after the click; otherwise the log is `BackspaceAtLog` |
| Core.Humanization.DeleteChars | humanization/core.py:215-224 | `n` presses of `Backspace`, each followed by `max(0, base + offset)`, sometimes plus 0.01 to 0.03 s when humanized |
| Core.Humanization.HoverAt | humanization/core.py:226-228 | the log is `HoverAtLog` at a clamped target |
| Core.Humanization.ScrollTo | humanization/core.py:230-242 | the log is `ScrollToLog` for the page's current scroll position |
| Core.Humanization.ScrollDistance | humanization/core.py:231-237 | the element's top minus `scrollY`, else the given delta, else a whole number from 100 to 500 with a random sign |
| Core.Humanization.WheelSteps | humanization/core.py:238-242 | `n` wheel steps, each within 10% of `delta / n` and without horizontal motion, each followed by a pause of 0.01 to 0.03 s |
| Core.Humanization.DragTo | humanization/core.py:248-253 | the log is `DragToLog` between the two clamped targets |
| Core.Humanization.HumanCorrect | humanization/core.py:255-261 | the log is `HumanCorrectLog`, with the jump to `(x + w * factor, y + h * factor)` |

## Left out

- `undetected_launch`, `get_page_dimensions`: they launch a browser and run JavaScript in it; there is no logic to model.
- `get_box`: the bounding box is an input. The visibility check through `expect`, the swallowed `"Unsupported type"` error and the `None` box are not modelled; only the renaming of `width` and `height` to `w` and `h` is kept, in `Plans.Box`.
- The focus checks of `type_at` and `backspace_at` (`expect(...).to_be_focused`) are external assertions and are not modelled.
- `random_delay` and `human_wait` are one uniform draw each, and nothing in the core uses them.
- Logging through loguru, `humanization/__init__.py`, and the async scheduling of `asyncio.sleep` are left out: a sleep is a `Sleep` entry in the log.
- Numbers are exact reals and unbounded integers, not IEEE doubles: the model does not capture float rounding.
- Core.Humanization.GenerateBezierPoints: `** 0.5` is a bisection from below with 64 halvings, so `dist` may be smaller than the true root by up to `(v + 1) / 2^64`.
- Probability distributions are not modelled: the Gaussian shape of the jitter, the 5% hesitation rate, or which profile is faster on average. The random source is a linear congruential generator, and only the ranges of its draws are stated. `RandomSource.Gauss` is an Irwin–Hall approximation; no contract in the core depends on its value.
- Plans.FollowsCurve: with `humanize` set, the coordinates of the per-point moves are not stated. They are the curve's points plus `random.gauss(0, 1)` noise, which is unbounded. Without jitter each move is exactly its curve point.
- Devices.RandomSource.Gauss: bounded to six `sigma` around `mu`, unlike `random.gauss`; only the jittered moves use it, and no contract states their coordinates.
- Devices.RandomSource.RandInt: requires `a <= b`. Every call passes a non-empty range; the possibly empty input-mode ranges are checked first and raise `ValueError`, as `randint` does.
- Plans.Lower: only ASCII letters are lower-cased; Python's Unicode case mapping is not modelled.
- Core.Humanization.ScrollTo: wheel commands do not change `Page.scrollY`. Scrolling of the page itself is the browser's business.
- Plans.InputTargetInBand: requires `x >= 0` or a width of at least 5. For a negative `x` and a width under 5, truncation toward zero can put the upper end of the band past the region. Clamping then decides, and `TargetInRegion` still holds.
- Plans.ScrollToLog: `delta_y` is modelled as a real, although it is annotated `int`, because the distance computed for an element is a float.
- Inner control points at exactly one and two thirds of the chord would give a straight line. The code uses 0.33 and 0.66, and the model follows the code (`FirstControlAt`, `SecondControlAt`). `CubicBezierCollinear` records the exact-thirds identity that `test_cubic_bezier` relies on.
- Playwright's `mouse.move` without `steps` moves in one step; `human_correct`'s jump is modelled as `Move(x, y, 1)`.
