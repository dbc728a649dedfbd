/**
  BrightnessDecider: pseudo-lux, sun window, user offset and instant to a brightness
  percentage. The natural logarithm is a parameter `ln`, of which the model knows only
  what IsLogarithm states: ln(1) = 0, ln(1201) > 0, and ln is monotone from 1 upwards.
 */
module Decider {
  import opened Chrono
  import opened Solar
  import opened Manager

  const MODEL_MAX_LUX := 1200.0
  const NIGHT_ZERO_LUX := 5.0
  const MIN_DAY_PERCENT := 5

  ghost predicate IsLogarithm(ln: real -> real) {
    && ln(1.0) == 0.0
    && ln(MODEL_MAX_LUX + 1.0) > 0.0
    && forall x, y :: 1.0 <= x <= y ==> ln(x) <= ln(y)
  }

  /** lux.coerceAtLeast(0f) */
  function SafeLux(lux: real): (s: real)
    ensures 0.0 <= s && lux <= s
    ensures 0.0 <= lux ==> s == lux
  {
    if lux < 0.0 then 0.0 else lux
  }

  /** ln(lux + 1) / ln(MODEL_MAX_LUX + 1): 0 at lux 0, 1 at lux 1200, monotone. */
  function Normalized(safeLux: real, ln: real -> real): (n: real)
    requires IsLogarithm(ln) && 0.0 <= safeLux
    ensures 0.0 <= n
    ensures safeLux == 0.0 ==> n == 0.0
    ensures safeLux == MODEL_MAX_LUX ==> n == 1.0
    ensures safeLux >= MODEL_MAX_LUX ==> n >= 1.0
  {
    var d := ln(MODEL_MAX_LUX + 1.0);
    assert ln(1.0) <= ln(safeLux + 1.0);
    DivMonotone(0.0, ln(safeLux + 1.0), d);
    assert safeLux >= MODEL_MAX_LUX ==> ln(safeLux + 1.0) / d >= 1.0 by {
      if safeLux >= MODEL_MAX_LUX {
        DivMonotone(d, ln(safeLux + 1.0), d);
      }
    }
    ln(safeLux + 1.0) / d
  }

  /** Division by a positive number keeps order. */
  lemma DivMonotone(a: real, b: real, d: real)
    requires 0.0 < d && a <= b
    ensures a / d <= b / d
    ensures d / d == 1.0 && 0.0 / d == 0.0
  {
    assert a == (a / d) * d && b == (b / d) * d;
  }

  lemma NormalizedMonotone(a: real, b: real, ln: real -> real)
    requires IsLogarithm(ln) && 0.0 <= a <= b
    ensures Normalized(a, ln) <= Normalized(b, ln)
  {
    assert ln(a + 1.0) <= ln(b + 1.0);
    DivMonotone(ln(a + 1.0), ln(b + 1.0), ln(MODEL_MAX_LUX + 1.0));
  }

  /** withOffset.coerceIn(floor, MAX_PERCENT), over the reals. */
  function ClampReal(x: real, lo: real, hi: real): (c: real)
    requires lo <= hi
    ensures lo <= c <= hi
    ensures lo <= x <= hi ==> c == x
  {
    if x < lo then lo else if x > hi then hi else x
  }

  /** The offset-adjusted value before the night rule and the clamp. */
  function WithOffset(lux: real, offsetPercent: real, ln: real -> real): real
    requires IsLogarithm(ln)
  {
    var scaled := MIN_PERCENT as real + Normalized(SafeLux(lux), ln) * (MAX_PERCENT - MIN_PERCENT) as real;
    scaled + offsetPercent
  }

  /**
    targetPercent. At night with at most NIGHT_ZERO_LUX the answer is 0 whatever the offset;
    otherwise the log-scaled value plus the offset is clamped to [0, 100] at night or
    [5, 100] by day and rounded half up.
   */
  function TargetPercent(lux: real, sunTimes: SunTimes, offsetPercent: real, now: ZonedDateTime,
                         ln: real -> real): (r: int)
    requires IsLogarithm(ln)
    ensures MIN_PERCENT <= r <= MAX_PERCENT
    ensures sunTimes.IsNight(now) && lux <= NIGHT_ZERO_LUX ==> r == MIN_PERCENT
    ensures !sunTimes.IsNight(now) ==> r >= MIN_DAY_PERCENT
  {
    var safeLux := SafeLux(lux);
    var withOffset := WithOffset(lux, offsetPercent, ln);
    if sunTimes.IsNight(now) && safeLux <= NIGHT_ZERO_LUX then
      MIN_PERCENT
    else
      var minNightPercent := if sunTimes.IsNight(now) then MIN_PERCENT else MIN_DAY_PERCENT;
      Round(ClampReal(withOffset, minNightPercent as real, MAX_PERCENT as real))
  }

  /** Negative lux is treated exactly as lux 0. */
  lemma NegativeLuxIsZeroLux(lux: real, sunTimes: SunTimes, offsetPercent: real, now: ZonedDateTime,
                             ln: real -> real)
    requires IsLogarithm(ln) && lux < 0.0
    ensures TargetPercent(lux, sunTimes, offsetPercent, now, ln)
         == TargetPercent(0.0, sunTimes, offsetPercent, now, ln)
  {
  }

  /** By day, full light (>= 1200) with a non-negative offset gives 100 %. */
  lemma DayFullLightIsMax(lux: real, sunTimes: SunTimes, offsetPercent: real, now: ZonedDateTime,
                          ln: real -> real)
    requires IsLogarithm(ln) && !sunTimes.IsNight(now)
    requires lux >= MODEL_MAX_LUX && offsetPercent >= 0.0
    ensures TargetPercent(lux, sunTimes, offsetPercent, now, ln) == MAX_PERCENT
  {
    assert Normalized(SafeLux(lux), ln) >= 1.0;
    assert WithOffset(lux, offsetPercent, ln) >= 100.0;
  }

  /** More light never lowers the result. */
  lemma {:induction false} MonotoneInLux(lux1: real, lux2: real, sunTimes: SunTimes, offsetPercent: real,
                                         now: ZonedDateTime, ln: real -> real)
    requires IsLogarithm(ln) && lux1 <= lux2
    ensures TargetPercent(lux1, sunTimes, offsetPercent, now, ln)
         <= TargetPercent(lux2, sunTimes, offsetPercent, now, ln)
  {
    NormalizedMonotone(SafeLux(lux1), SafeLux(lux2), ln);
    var night := sunTimes.IsNight(now);
    if night && SafeLux(lux1) <= NIGHT_ZERO_LUX {
    } else {
      var lo := if night then MIN_PERCENT as real else MIN_DAY_PERCENT as real;
      var w1 := WithOffset(lux1, offsetPercent, ln);
      var w2 := WithOffset(lux2, offsetPercent, ln);
      assert w1 <= w2;
      RoundMonotone(ClampReal(w1, lo, 100.0), ClampReal(w2, lo, 100.0));
    }
  }

  /** A larger offset never lowers the result. */
  lemma MonotoneInOffset(lux: real, sunTimes: SunTimes, offset1: real, offset2: real,
                         now: ZonedDateTime, ln: real -> real)
    requires IsLogarithm(ln) && offset1 <= offset2
    ensures TargetPercent(lux, sunTimes, offset1, now, ln)
         <= TargetPercent(lux, sunTimes, offset2, now, ln)
  {
    var night := sunTimes.IsNight(now);
    if !(night && SafeLux(lux) <= NIGHT_ZERO_LUX) {
      var lo := if night then MIN_PERCENT as real else MIN_DAY_PERCENT as real;
      RoundMonotone(ClampReal(WithOffset(lux, offset1, ln), lo, 100.0),
                    ClampReal(WithOffset(lux, offset2, ln), lo, 100.0));
    }
  }

  /** Darkness at 02:00 under the default window gives 0 %. */
  lemma DarkNightExample(zone: Zone, today: LocalDate, ln: real -> real)
    requires IsLogarithm(ln)
    ensures TargetPercent(0.0, DefaultSunTimes(zone, today), 0.0, Of(today, TimeOf(2, 0), zone), ln) == 0
  {
  }

  /** 1200 lux at 12:00 under the default window gives 100 %. */
  lemma BrightNoonExample(zone: Zone, today: LocalDate, ln: real -> real)
    requires IsLogarithm(ln)
    ensures TargetPercent(MODEL_MAX_LUX, DefaultSunTimes(zone, today), 0.0, Of(today, TimeOf(12, 0), zone), ln) == 100
  {
    DayFullLightIsMax(MODEL_MAX_LUX, DefaultSunTimes(zone, today), 0.0, Of(today, TimeOf(12, 0), zone), ln);
  }
}
