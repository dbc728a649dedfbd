/**
  BrightnessManager: turning a percentage into the 0..255 system brightness value and
  writing it. The system setting, the write permission and SystemClock.elapsedRealtime
  are a field, a field and a parameter respectively.
 */
module Manager {
  import opened Wrappers

  const MIN_PERCENT := 0
  const MAX_PERCENT := 100
  const MAX_SYSTEM_VALUE := 255

  /** Kotlin's roundToInt: the nearest integer, halves rounded up. */
  function Round(x: real): (n: int)
    ensures n as real - 0.5 <= x < n as real + 0.5
  {
    (x + 0.5).Floor
  }

  lemma RoundMonotone(x: real, y: real)
    requires x <= y
    ensures Round(x) <= Round(y)
  {
  }

  /** percent.coerceIn(MIN_PERCENT, MAX_PERCENT) */
  function ClampPercent(percent: int): (c: int)
    ensures MIN_PERCENT <= c <= MAX_PERCENT
    ensures MIN_PERCENT <= percent <= MAX_PERCENT ==> c == percent
    ensures percent < MIN_PERCENT ==> c == MIN_PERCENT
    ensures percent > MAX_PERCENT ==> c == MAX_PERCENT
  {
    if percent < MIN_PERCENT then MIN_PERCENT
    else if percent > MAX_PERCENT then MAX_PERCENT
    else percent
  }

  /** percentToValue: percent / 100 * 255, rounded, kept within 0..255. */
  function PercentToValue(percent: int): (v: int)
    ensures 0 <= v <= MAX_SYSTEM_VALUE
    ensures percent <= 0 ==> v == 0
    ensures percent >= 100 ==> v == MAX_SYSTEM_VALUE
    ensures 0 <= percent <= 100 ==> 100 * v - 50 <= 255 * percent < 100 * v + 50
  {
    var scaled := Round(percent as real / 100.0 * 255.0);
    if scaled < 0 then 0 else if scaled > MAX_SYSTEM_VALUE then MAX_SYSTEM_VALUE else scaled
  }

  /** A higher percentage never gives a lower system value. */
  lemma PercentToValueMonotone(p: int, q: int)
    requires p <= q
    ensures PercentToValue(p) <= PercentToValue(q)
  {
    RoundMonotone(p as real / 100.0 * 255.0, q as real / 100.0 * 255.0);
  }

  class BrightnessManager {
    /** Settings.System.SCREEN_BRIGHTNESS, None while the setting does not exist. */
    var setting: Option<int>
    /** SystemClock time of the last write made by the app. */
    var lastAutoUpdateAt: int
    /** Settings.System.canWrite for this app. */
    var writePermitted: bool

    constructor (setting: Option<int>, writePermitted: bool)
      ensures this.setting == setting && this.writePermitted == writePermitted
      ensures lastAutoUpdateAt == 0
    {
      this.setting := setting;
      this.writePermitted := writePermitted;
      lastAutoUpdateAt := 0;
    }

    method CanWriteSettings() returns (ok: bool)
      ensures ok == writePermitted
    {
      ok := writePermitted;
    }

    /** Settings.System.getInt(SCREEN_BRIGHTNESS, default). */
    function CurrentValue(default: int): (v: int)
      reads this
      ensures setting.Some? ==> v == setting.value
      ensures setting.None? ==> v == default
    {
      match setting
      case Some(value) => value
      case None => default
    }

    /** Every write stamps the time of the write. */
    method SetSystemBrightness(value: int, clock: int)
      modifies this`setting, this`lastAutoUpdateAt
      ensures setting == Some(value) && lastAutoUpdateAt == clock
    {
      lastAutoUpdateAt := clock;
      setting := Some(value);
    }

    method ApplyImmediatePercent(percent: int, clock: int)
      modifies this`setting, this`lastAutoUpdateAt
      ensures !writePermitted ==> setting == old(setting) && lastAutoUpdateAt == old(lastAutoUpdateAt)
      ensures writePermitted ==>
        setting == Some(PercentToValue(ClampPercent(percent))) && lastAutoUpdateAt == clock
    {
      var ok := CanWriteSettings();
      if !ok {
        return;
      }
      var constrained := ClampPercent(percent);
      SetSystemBrightness(PercentToValue(constrained), clock);
    }

    /**
      The animated write, by its final state: nothing happens without permission or when
      the current value already is the target; otherwise the last animation frame writes
      the target at time `clock`.
     */
    method ApplySmoothPercent(percent: int, clock: int)
      modifies this`setting, this`lastAutoUpdateAt
      ensures var target := PercentToValue(ClampPercent(percent));
        if !writePermitted || old(CurrentValue(target)) == target then
          setting == old(setting) && lastAutoUpdateAt == old(lastAutoUpdateAt)
        else
          setting == Some(target) && lastAutoUpdateAt == clock
    {
      var ok := CanWriteSettings();
      if !ok {
        return;
      }
      var constrainedPercent := ClampPercent(percent);
      var currentValue := CurrentValue(PercentToValue(constrainedPercent));
      var targetValue := PercentToValue(constrainedPercent);
      if currentValue == targetValue {
        return;
      }
      SetSystemBrightness(targetValue, clock);
    }

    method LastAutoUpdateAge(clock: int) returns (age: int)
      ensures age == clock - lastAutoUpdateAt
    {
      age := clock - lastAutoUpdateAt;
    }
  }
}
