/**
 * What `Humanization` talks to: the Playwright page, seen as the log of the mouse,
 * keyboard and sleep calls made on it, and the `random` module, seen as a source of
 * draws whose contracts state only their ranges.
 */
module Devices {
  import opened Numeric
  import opened Commands

  /**
   * The page: every `page.mouse.*` and `page.keyboard.press` call, and every
   * `asyncio.sleep` between them, is appended to `log`; `scrollY` is what
   * `window.scrollY` evaluates to.
   */
  class Page {
    var log: seq<Command>
    var scrollY: real

    constructor (scrollY: real)
      ensures log == [] && this.scrollY == scrollY
    {
      log := [];
      this.scrollY := scrollY;
    }

    /** `page.mouse.move(x, y, steps=steps)`. */
    method MouseMove(x: real, y: real, steps: int)
      modifies this`log
      ensures log == old(log) + [Move(x, y, steps)]
    {
      log := log + [Move(x, y, steps)];
    }

    /** `page.mouse.click(x, y, button=button, delay=delay)`. */
    method MouseClick(x: real, y: real, button: string, delay: real)
      modifies this`log
      ensures log == old(log) + [Click(x, y, button, delay)]
    {
      log := log + [Click(x, y, button, delay)];
    }

    /** `page.mouse.down()`. */
    method MouseDown()
      modifies this`log
      ensures log == old(log) + [Down]
    {
      log := log + [Down];
    }

    /** `page.mouse.up()`. */
    method MouseUp()
      modifies this`log
      ensures log == old(log) + [Up]
    {
      log := log + [Up];
    }

    /** `page.mouse.wheel(dx, dy)`. */
    method MouseWheel(dx: real, dy: real)
      modifies this`log
      ensures log == old(log) + [Wheel(dx, dy)]
    {
      log := log + [Wheel(dx, dy)];
    }

    /** `page.keyboard.press(key, delay=delay)`. */
    method KeyboardPress(key: string, delay: real)
      modifies this`log
      ensures log == old(log) + [Press(key, delay)]
    {
      log := log + [Press(key, delay)];
    }

    /** `asyncio.sleep(seconds)`, recorded in order with the device calls. */
    method Sleep(seconds: real)
      modifies this`log
      ensures log == old(log) + [Command.Sleep(seconds)]
    {
      log := log + [Command.Sleep(seconds)];
    }
  }

  const Modulus: int := 0x8000_0000

  /**
   * The `random` module: a linear congruential generator. Only the ranges its draws
   * promise are stated; nothing relies on which values it produces.
   */
  class RandomSource {
    var state: int

    constructor (seed: int)
      ensures 0 <= state < Modulus
    {
      state := seed % Modulus;
    }

    /** `random.random()`: a real in `[0, 1)`. */
    method Random() returns (f: real)
      modifies this
      ensures 0.0 <= f < 1.0
    {
      state := (state * 1103515245 + 12345) % Modulus;
      f := state as real / Modulus as real;
    }

    /** `random.uniform(a, b)`: `a + (b - a) * random()`, between the bounds in either order. */
    method Uniform(a: real, b: real) returns (v: real)
      modifies this
      ensures Between(v, a, b)
    {
      var f := Random();
      var span := b - a;
      ScaleWithin(span, f);
      var step := span * f;
      v := a + step;
    }

    /** `random.randint(a, b)`: an integer in `[a, b]`; the caller rules out an empty range. */
    method RandInt(a: int, b: int) returns (n: int)
      requires a <= b
      modifies this
      ensures a <= n <= b
    {
      state := (state * 1103515245 + 12345) % Modulus;
      n := a + state % (b - a + 1);
    }

    /**
     * `random.gauss(mu, sigma)`, approximated by the Irwin–Hall sum of twelve uniform
     * draws: within six standard deviations of `mu`.
     */
    method Gauss(mu: real, sigma: real) returns (g: real)
      modifies this
      ensures Abs(g - mu) <= 6.0 * Abs(sigma)
    {
      var s := 0.0;
      for i := 0 to 12
        invariant 0.0 <= s <= i as real
      {
        var f := Random();
        s := s + f;
      }
      var z := s - 6.0;
      var e := sigma * z;
      g := mu + e;
      assert -6.0 <= z <= 6.0 && g - mu == e;
      if sigma >= 0.0 {
        ScaleBetween(sigma, z, -6.0, 6.0);
      } else {
        var m := -sigma;
        ScaleBetween(m, z, -6.0, 6.0);
        assert m * z == -e;
      }
    }
  }
}
