/**
 * JavaScript number operations on exact reals: `Math.floor`, `Math.ceil`,
 * truncation toward zero and the `%` operator (whose result takes the sign of
 * the dividend), plus the hours / minutes / seconds / milliseconds split that
 * several formatters compute the same way.
 */
module RealMath {

  /** `Math.floor`. */
  function Floor(x: real): (f: int)
    ensures f as real <= x < f as real + 1.0
  {
    x.Floor
  }

  /** `Math.ceil`. */
  function Ceil(x: real): (c: int)
    ensures c as real - 1.0 < x <= c as real
  {
    -((-x).Floor)
  }

  /** Truncation toward zero (`Math.trunc`, and what `new Date(ms)` applies). */
  function Trunc(x: real): (t: int)
    ensures x >= 0.0 ==> t == Floor(x)
    ensures x < 0.0 ==> t == Ceil(x)
  {
    if x >= 0.0 then x.Floor else -((-x).Floor)
  }

  /** The JavaScript remainder `x % n`: `x - n * trunc(x / n)`. */
  function JsRem(x: real, n: real): (r: real)
    requires n > 0.0
    ensures x >= 0.0 ==> r == x - n * Floor(x / n) as real
    ensures x < 0.0 ==> r == x - n * Ceil(x / n) as real
  {
    x - n * Trunc(x / n) as real
  }

  /** `Math.floor(t / 3600)`. */
  function Hours(t: real): int {
    Floor(t / 3600.0)
  }

  /** `Math.floor((t % 3600) / 60)`. */
  function MinutesOfHour(t: real): int {
    Floor(JsRem(t, 3600.0) / 60.0)
  }

  /** `Math.floor(t % 60)`. */
  function SecondsOfMinute(t: real): int {
    Floor(JsRem(t, 60.0))
  }

  /** `Math.floor((t % 1) * 1000)`. */
  function MillisOfSecond(t: real): int {
    Floor(JsRem(t, 1.0) * 1000.0)
  }

  /**
   * For a non-negative time the three clock fields are in range, hours are
   * never truncated, and together they give back the whole seconds of `t`.
   */
  lemma ClockFields(t: real)
    requires t >= 0.0
    ensures Hours(t) >= 0
    ensures 0 <= MinutesOfHour(t) < 60 && 0 <= SecondsOfMinute(t) < 60
    ensures Hours(t) * 3600 + MinutesOfHour(t) * 60 + SecondsOfMinute(t) == Floor(t)
  {
    var h := Hours(t);
    var a := Floor(t / 60.0);
    assert JsRem(t, 3600.0) == t - 3600.0 * h as real;
    assert MinutesOfHour(t) == a - 60 * h by {
      assert JsRem(t, 3600.0) / 60.0 == t / 60.0 - (60 * h) as real;
    }
    assert 60 * h <= a < 60 * h + 60;
    assert SecondsOfMinute(t) == Floor(t) - 60 * a by {
      assert JsRem(t, 60.0) == t - (60 * a) as real;
    }
    assert 60 * a <= Floor(t) < 60 * a + 60;
  }

  /** The milliseconds field is in range and completes the whole seconds to `floor(t * 1000)`. */
  lemma MillisField(t: real)
    requires t >= 0.0
    ensures 0 <= MillisOfSecond(t) < 1000
    ensures Floor(t) * 1000 + MillisOfSecond(t) == Floor(t * 1000.0)
  {
    var f := Floor(t);
    assert JsRem(t, 1.0) == t - f as real;
    assert JsRem(t, 1.0) * 1000.0 == t * 1000.0 - (1000 * f) as real;
  }
}
