# AutoBrilloSolar: solar window and brightness decision, in Dafny

This project models the decision core of AutoBrilloSolar, an Android app that sets the
screen brightness from a camera-derived pseudo-lux value, the sunrise/sunset window and
the user's preferences. It models:

- `Solar` (SunTimesCalculator): the fixed 07:00-20:00 fallback window, re-anchoring stored
  sunrise/sunset instants to today (`fromEpoch`), the night test, the angle and hour
  normalisers, `hoursToZoned` and the location/no-location choice of `computeSunTimes`.
- `Decider` (BrightnessDecider): `targetPercent`, the log compression, the night
  "force to 0" rule, the 5 % day floor and round-half-up.
- `Manager` (BrightnessManager): percent to the 0..255 system value, and a class holding the
  system brightness setting, the write permission and `lastAutoUpdateAt`.
- `LightMeter` (CameraLightMeter): the strided centre-half luma average over a byte plane,
  and the luma-to-pseudo-lux scale.
- `Prefs` (PreferencesRepository): the key/value store as a map, the defaulting read and all
  setters, as a class over that map.
- `Work` (BrightnessWorker): one `doWork` cycle as a priority of early returns, specified
  by a pure `Decide` function and carried out by a class over the store, the brightness
  manager, the pending schedule and the posted notifications.
- `Chrono` and `Wrappers` are support: java.time with fixed-offset zones, and `Option`.

Time is modelled as follows. Instants are epoch milliseconds. A zone is a fixed UTC offset. A
`LocalDate` is a day count since 1970-01-01 and a `LocalTime` is milliseconds since
midnight. The current date, the wall clock (`System.currentTimeMillis`), the monotonic
clock (`SystemClock.elapsedRealtime`) and the system zone are parameters. Float and Double
values are reals. The natural logarithm of the decider is a parameter `ln` that is only
known to satisfy `IsLogarithm`: `ln(1) = 0`, `ln(1201) > 0`, and `ln` is monotone from 1 up.

Two behaviours of the code that the model keeps as they are:

- `computeSunTimes` does not enforce sunset after sunrise: each UTC hour is normalised
  into [0, 24) of the same UTC date. `Solar.ComputeSunTimesCanInvert` shows an inverted
  pair, which is what a location well west of Greenwich gives. The order is repaired when
  the stored values are read back through `fromEpoch` (`Solar.StoredComputedWindowIsOrdered`).
- `isNight` compares instants. The boundary instants count as day, and the zones of the
  three values play no part.

## Model

| member | source | states |
|---|---|---|
| `Solar.SunTimes.IsNight` | app/src/main/java/com/autobrillo/solar/domain/SunTimesCalculator.kt:104-110 | night iff `now` is strictly before sunrise or strictly after sunset, compared as instants |
| `Solar.IsNightIgnoresZones` | app/src/main/java/com/autobrillo/solar/domain/SunTimesCalculator.kt:105-109 | re-zoning sunrise, sunset or `now` never changes the night test |
| `Solar.BoundariesAreDay` | app/src/main/java/com/autobrillo/solar/domain/SunTimesCalculator.kt:108 | the sunrise and sunset instants themselves are day |
| `Solar.DefaultSunTimes` | app/src/main/java/com/autobrillo/solar/domain/SunTimesCalculator.kt:28-33 | 07:00 and 20:00 on the wall clock of the zone, on today's date, 13 h apart |
| `Solar.FromEpoch` | app/src/main/java/com/autobrillo/solar/domain/SunTimesCalculator.kt:35-51 | a stored value <= 0 gives the default window; otherwise both local times of day are kept, sunrise is on today, sunset is strictly after sunrise, and sunset moves one day exactly when its time of day is not after sunrise's |
| `Solar.FromEpochOfDefault` | app/src/main/java/com/autobrillo/solar/domain/SunTimesCalculator.kt:35-51 | re-anchoring the default window's own instants gives the default window back |
| `Solar.TruncToInt` | app/src/main/java/com/autobrillo/solar/domain/SunTimesCalculator.kt:54 | `toLong` truncates toward zero: within 1 of the input, never past it away from 0 |
| `Solar.Normalize` | app/src/main/java/com/autobrillo/solar/domain/SunTimesCalculator.kt:85-89 | result in [0, 360), in-range inputs unchanged, and it differs from the input by a whole number of turns |
| `Solar.NormalizeHour` | app/src/main/java/com/autobrillo/solar/domain/SunTimesCalculator.kt:91-95 | result in [0, 24), in-range inputs unchanged, and it differs from the input by a whole number of days |
| `Solar.HoursToZoned` | app/src/main/java/com/autobrillo/solar/domain/SunTimesCalculator.kt:53-58 | the instant is UTC midnight of the date plus the truncated seconds of the hours, in the given zone; an hour in [0, 24) stays on that UTC date |
| `Solar.SolarTimeUtc` | app/src/main/java/com/autobrillo/solar/domain/SunTimesCalculator.kt:80-82 | the sunrise-equation hour always lies in [0, 24) |
| `Solar.ComputeSunTimes` | app/src/main/java/com/autobrillo/solar/domain/SunTimesCalculator.kt:15-26 | no location gives exactly the default window; with a location both events are in the zone and on today's UTC date |
| `Solar.ComputeSunTimesCanInvert` | app/src/main/java/com/autobrillo/solar/domain/SunTimesCalculator.kt:21-25 | a sunrise hour of 14 and a sunset hour of 2 UTC yield a sunset before the sunrise |
| `Solar.StoredComputedWindowIsOrdered` | app/src/main/java/com/autobrillo/solar/domain/SunTimesCalculator.kt:45-49 | whatever `computeSunTimes` stored, reading it back through `fromEpoch` gives sunset after sunrise, with sunrise on the reading day; a window stored after the epoch keeps the computed local times of day |
| `Decider.SafeLux` | app/src/main/java/com/autobrillo/solar/domain/BrightnessDecider.kt:16 | the clamped lux is non-negative, never below the input, and equal to it when it is non-negative |
| `Decider.Normalized` | app/src/main/java/com/autobrillo/solar/domain/BrightnessDecider.kt:8-17 | the log ratio is 0 at lux 0, 1 at lux 1200, at least 1 from 1200 up, and never negative |
| `Decider.NormalizedMonotone` | app/src/main/java/com/autobrillo/solar/domain/BrightnessDecider.kt:17 | the log ratio is non-decreasing in lux |
| `Decider.ClampReal` | app/src/main/java/com/autobrillo/solar/domain/BrightnessDecider.kt:24-26 | `coerceIn` lands in the bounds and leaves in-range values alone |
| `Decider.TargetPercent` | app/src/main/java/com/autobrillo/solar/domain/BrightnessDecider.kt:10-31 | result in [0, 100]; exactly 0 at night with lux <= 5 whatever the offset; at least 5 by day |
| `Decider.NegativeLuxIsZeroLux` | app/src/main/java/com/autobrillo/solar/domain/BrightnessDecider.kt:16 | negative lux gives the same result as lux 0 |
| `Decider.DayFullLightIsMax` | app/src/main/java/com/autobrillo/solar/domain/BrightnessDecider.kt:8-27 | by day, lux >= 1200 with offset >= 0 gives 100 |
| `Decider.MonotoneInLux` | app/src/main/java/com/autobrillo/solar/domain/BrightnessDecider.kt:16-27 | for a fixed window, offset and instant, more lux never gives a lower result |
| `Decider.MonotoneInOffset` | app/src/main/java/com/autobrillo/solar/domain/BrightnessDecider.kt:19-27 | for a fixed lux, window and instant, a larger offset never gives a lower result |
| `Decider.DarkNightExample` | app/src/main/java/com/autobrillo/solar/domain/BrightnessDecider.kt:20-22 | lux 0 at 02:00 under the default window gives 0 |
| `Decider.BrightNoonExample` | app/src/main/java/com/autobrillo/solar/domain/BrightnessDecider.kt:17-27 | lux 1200 at 12:00 under the default window gives 100 |
| `Manager.Round` | app/src/main/java/com/autobrillo/solar/domain/BrightnessManager.kt:54 | `roundToInt` gives the nearest integer, halves rounded up |
| `Manager.RoundMonotone` | app/src/main/java/com/autobrillo/solar/domain/BrightnessDecider.kt:27 | rounding keeps order |
| `Manager.ClampPercent` | app/src/main/java/com/autobrillo/solar/domain/BrightnessManager.kt:64-65 | the percent is coerced into [0, 100], unchanged when already inside |
| `Manager.PercentToValue` | app/src/main/java/com/autobrillo/solar/domain/BrightnessManager.kt:54 | result in [0, 255]; 0 maps to 0 and 100 to 255; inside [0, 100] it is the integer nearest to 2.55 times the percent |
| `Manager.PercentToValueMonotone` | app/src/main/java/com/autobrillo/solar/domain/BrightnessManager.kt:54 | a higher percent never gives a lower system value |
| `Manager.BrightnessManager.constructor` | app/src/main/java/com/autobrillo/solar/domain/BrightnessManager.kt:13-15 | `lastAutoUpdateAt` starts at 0 |
| `Manager.BrightnessManager.CanWriteSettings` | app/src/main/java/com/autobrillo/solar/domain/BrightnessManager.kt:17 | reports the write permission |
| `Manager.BrightnessManager.CurrentValue` | app/src/main/java/com/autobrillo/solar/domain/BrightnessManager.kt:27-31 | the stored system value, or the given default when none is stored |
| `Manager.BrightnessManager.SetSystemBrightness` | app/src/main/java/com/autobrillo/solar/domain/BrightnessManager.kt:56-59 | every write stores the value and stamps `lastAutoUpdateAt` with the current clock |
| `Manager.BrightnessManager.ApplyImmediatePercent` | app/src/main/java/com/autobrillo/solar/domain/BrightnessManager.kt:48-52 | without permission nothing changes; with it the value becomes `percentToValue(clamp(p))`, stamped now |
| `Manager.BrightnessManager.ApplySmoothPercent` | app/src/main/java/com/autobrillo/solar/domain/BrightnessManager.kt:24-46 | without permission, or when the current value already is the target, nothing changes; otherwise the final value is `percentToValue(clamp(p))`, stamped at the last frame |
| `Manager.BrightnessManager.LastAutoUpdateAge` | app/src/main/java/com/autobrillo/solar/domain/BrightnessManager.kt:61 | the age is the clock minus `lastAutoUpdateAt` |
| `LightMeter.Unsigned` | app/src/main/java/com/autobrillo/solar/domain/CameraLightMeter.kt:95 | a byte is read as the unsigned value in [0, 255] congruent to it modulo 256 |
| `LightMeter.InBoundsLumaBounds` | app/src/main/java/com/autobrillo/solar/domain/CameraLightMeter.kt:93-96 | at most one sample per visited index, each in [0, 255] |
| `LightMeter.SumBounds` | app/src/main/java/com/autobrillo/solar/domain/CameraLightMeter.kt:88-98 | the sum of n samples lies in [0, 255 n] |
| `LightMeter.AverageOfLumaBounds` | app/src/main/java/com/autobrillo/solar/domain/CameraLightMeter.kt:99 | the average (0 when nothing was counted) lies in [0, 255] |
| `LightMeter.RowIndicesLength` | app/src/main/java/com/autobrillo/solar/domain/CameraLightMeter.kt:92-93 | a row visits endX - startX indices |
| `LightMeter.WindowIndicesLength` | app/src/main/java/com/autobrillo/solar/domain/CameraLightMeter.kt:90-93 | the window visits (endY - startY) * (endX - startX) indices |
| `LightMeter.RowIndicesAre` | app/src/main/java/com/autobrillo/solar/domain/CameraLightMeter.kt:91-93 | an index is visited in a row iff it is rowOffset + x * pixelStride for an x of the row |
| `LightMeter.WindowIndicesAre` | app/src/main/java/com/autobrillo/solar/domain/CameraLightMeter.kt:90-93 | an index is visited iff it is y * rowStride + x * pixelStride for a pixel of the window |
| `LightMeter.CenterIndicesAreCenterPixels` | app/src/main/java/com/autobrillo/solar/domain/CameraLightMeter.kt:84-93 | only, and all, pixels with x in [w/4, w - w/4) and y in [h/4, h - h/4) are visited |
| `LightMeter.InBoundsLumaSnocIn` | app/src/main/java/com/autobrillo/solar/domain/CameraLightMeter.kt:95-96 | an in-bounds index adds its unsigned byte to the samples |
| `LightMeter.InBoundsLumaSnocOut` | app/src/main/java/com/autobrillo/solar/domain/CameraLightMeter.kt:94 | an index at or past the buffer end is skipped, never read |
| `LightMeter.AverageCenterLuma` | app/src/main/java/com/autobrillo/solar/domain/CameraLightMeter.kt:76-100 | the result is sum/count of the in-bounds centre samples, 0 when none, and lies in [0, 255] |
| `LightMeter.SumRow` | app/src/main/java/com/autobrillo/solar/domain/CameraLightMeter.kt:91-97 | after one row, `sum` and `count` are the total and number of in-bounds samples visited so far |
| `LightMeter.LuminanceToLux` | app/src/main/java/com/autobrillo/solar/domain/CameraLightMeter.kt:102-106 | the input is clamped to [0, 1] and scaled by 1200, so the output is in [0, 1200] |
| `LightMeter.LuminanceToLuxMonotone` | app/src/main/java/com/autobrillo/solar/domain/CameraLightMeter.kt:102-106 | a brighter frame never gives less lux |
| `LightMeter.FrameLux` | app/src/main/java/com/autobrillo/solar/domain/CameraLightMeter.kt:39-43 | a frame's pseudo-lux is its centre average / 255 * 1200, in [0, 1200] |
| `Prefs.KeyNamesDistinct` | app/src/main/java/com/autobrillo/solar/data/PreferencesRepository.kt:21-30 | the ten keys are stored under ten different names |
| `Prefs.Read` | app/src/main/java/com/autobrillo/solar/data/PreferencesRepository.kt:32-45 | stored values are read back; absent keys read as offset 0, override 0, reason "", flags false, lastLux and lastAppliedPercent -1, and sunrise/sunset as the default window's instants |
| `Prefs.EmptyStoreGivesDefaultWindow` | app/src/main/java/com/autobrillo/solar/data/PreferencesRepository.kt:89-95 | with nothing stored, the window the worker builds is exactly the 07:00-20:00 default |
| `Prefs.ClampOffset` | app/src/main/java/com/autobrillo/solar/data/PreferencesRepository.kt:50 | the offset is coerced into [-20, 20], unchanged when already inside |
| `Prefs.OffsetReadInRange` | app/src/main/java/com/autobrillo/solar/data/PreferencesRepository.kt:49-51 | every offset read back lies in [-20, 20], the range the decider relies on |
| `Prefs.PreferencesRepository.constructor` | app/src/main/java/com/autobrillo/solar/data/PreferencesRepository.kt:18-20 | a fresh store is empty |
| `Prefs.PreferencesRepository.CurrentPreferences` | app/src/main/java/com/autobrillo/solar/data/PreferencesRepository.kt:47 | the defaulting read of the current store, with the offset in [-20, 20] |
| `Prefs.PreferencesRepository.SetOffset` | app/src/main/java/com/autobrillo/solar/data/PreferencesRepository.kt:49-51 | stores the clamped offset and changes nothing else |
| `Prefs.PreferencesRepository.SetUserPaused` | app/src/main/java/com/autobrillo/solar/data/PreferencesRepository.kt:53-55 | changes only the paused key |
| `Prefs.PreferencesRepository.SetManualOverride` | app/src/main/java/com/autobrillo/solar/data/PreferencesRepository.kt:57-60 | stores now + duration as the override deadline and changes nothing else |
| `Prefs.PreferencesRepository.ClearManualOverride` | app/src/main/java/com/autobrillo/solar/data/PreferencesRepository.kt:62-64 | stores 0 as the override deadline and changes nothing else |
| `Prefs.PreferencesRepository.UpdateSunTimes` | app/src/main/java/com/autobrillo/solar/data/PreferencesRepository.kt:66-71 | writes exactly the sunrise and sunset keys |
| `Prefs.PreferencesRepository.SetServiceActive` | app/src/main/java/com/autobrillo/solar/data/PreferencesRepository.kt:73-75 | changes only the service-active key |
| `Prefs.PreferencesRepository.SetNightMode` | app/src/main/java/com/autobrillo/solar/data/PreferencesRepository.kt:77-79 | changes only the night-mode key |
| `Prefs.PreferencesRepository.UpdateLastMeasurement` | app/src/main/java/com/autobrillo/solar/data/PreferencesRepository.kt:81-87 | writes only lux, the percent as a float, and the reason |
| `Work.Decide` | app/src/main/java/com/autobrillo/solar/work/BrightnessWorker.kt:18-75 | brightness is written only with permission; night mode writes only 0; an automatic write is in [0, 100] and is recorded; a failure always posts a notice and changes nothing; a measurement happens iff not paused, not night mode and the override has run out |
| `Work.PausedDoesNothing` | app/src/main/java/com/autobrillo/solar/work/BrightnessWorker.kt:21-23 | paused wins over every later branch: success with no write, no record, no schedule |
| `Work.NightModeForcesZero` | app/src/main/java/com/autobrillo/solar/work/BrightnessWorker.kt:24-32 | night mode sets 0 only if writable, always records (0, 0, MODO_NOCHE) and schedules the next cycle |
| `Work.OverrideWaitsOut` | app/src/main/java/com/autobrillo/solar/work/BrightnessWorker.kt:33-38 | during the override, reschedule after exactly deadline - now, without measuring |
| `Work.CameraDeniedFails` | app/src/main/java/com/autobrillo/solar/work/BrightnessWorker.kt:47-49 | a camera SecurityException fails with a camera notice and no reschedule |
| `Work.MeasureFailureRetries` | app/src/main/java/com/autobrillo/solar/work/BrightnessWorker.kt:50-53 | any other measurement error reschedules and retries |
| `Work.NoPermissionFails` | app/src/main/java/com/autobrillo/solar/work/BrightnessWorker.kt:62-66 | without write permission: failure with a notice, no write and no record |
| `Work.AutoAppliesDecision` | app/src/main/java/com/autobrillo/solar/work/BrightnessWorker.kt:40-74 | applies `targetPercent` over `fromEpoch` of the stored window, records (lux, target, AUTO_NOCHE or AUTO_DIA) and schedules the next cycle |
| `Work.DarkNightUnderDefaults` | app/src/main/java/com/autobrillo/solar/work/BrightnessWorker.kt:40-61 | on a fresh install (empty store) with the clock after the epoch, a dark automatic cycle at night under the default window records 0 % as AUTO_NOCHE |
| `Work.BrightnessWorker.constructor` | app/src/main/java/com/autobrillo/solar/work/BrightnessWorker.kt:13-16 | nothing scheduled and nothing posted yet |
| `Work.BrightnessWorker.ScheduleNext` | app/src/main/java/com/autobrillo/solar/work/BrightnessWorkScheduler.kt:16-18 | the pending cycle is replaced by one with the given delay |
| `Work.BrightnessWorker.Notify` | app/src/main/java/com/autobrillo/solar/work/BrightnessWorker.kt:47-49 | the notice is appended to those posted |
| `Work.BrightnessWorker.DoWork` | app/src/main/java/com/autobrillo/solar/work/BrightnessWorker.kt:18-75 | the result, the store, the pending schedule, the notices and the brightness after one cycle are exactly what `Decide` prescribes, and the store invariant is kept |

## Left out

- The trigonometric sunrise equation (SunTimesCalculator.kt lines 60-79) is floating-point
  sin/atan/acos numerics. It is the parameter `rawUtHour`; only its final `normalizeHour` is modelled.
- Floating point in general: Float and Double are reals, so NaN, infinities and rounding of
  intermediate results are not modelled. `Solar.Normalize` and `Solar.NormalizeHour` can
  return exactly 360 or 24 in floating point for tiny negative inputs; over the reals they cannot.
- `Decider.TargetPercent`: the natural logarithm is abstract (the `ln` parameter), so the
  contract states the bounds, floors and monotonicity, not particular percentages between 0 and 100.
- `Solar.HoursToZoned`: `toLong` saturation at the 64-bit limits is not modelled. The hours passed in always lie in [0, 24).
- 64-bit and 32-bit overflow in general: `now + duration` in `setManualOverride`,
  `deadline - now` in the worker, and `y * rowStride + x * pixelStride` in the camera loop
  are unbounded integers.
- Time zones are fixed offsets; daylight-saving gaps and overlaps in `ZonedDateTime.of` and
  `plusDays` are not modelled. `LocalDate.now()`, `ZonedDateTime.now()`,
  `System.currentTimeMillis()` and `SystemClock.elapsedRealtime()` are parameters.
- `Work.BrightnessWorker.DoWork`: the source reads the clock three times in one cycle.
  `System.currentTimeMillis()` feeds the override check (BrightnessWorker.kt line 33).
  `ZonedDateTime.now()` feeds the decider after the camera measurement and its warm-up (line 60).
  `isNight()` reads a fresh clock for the reason code (line 71). The model uses the one instant
  `nowMillis` for all three, so a cycle that crosses sunrise, sunset or the override deadline
  while measuring is not modelled.
- `Manager.BrightnessManager.ApplySmoothPercent`: only the final state of the animation is
  modelled. The intermediate frame values, the 350 ms duration and the main-thread posting are out.
- `LightMeter.AverageCenterLuma`: widths, heights and strides are required to be
  non-negative, as the camera supplies them. The source's inner loop is the separate method
  `LightMeter.SumRow`, and the result is a real rather than a Float.
- Camera acquisition is out: CameraX binding, the 1 s warm-up, the missing-plane case and
  coroutine suspension (CameraLightMeter.kt lines 20-74 and 108-142). The measurement
  outcome is an input of the worker.
- DataStore, `Flow` and coroutines are a map field. A value of the wrong type under a key
  cannot occur, because the keys are typed (`Prefs.WellTyped`).
- `Prefs.PreferencesRepository.constructor`: the store starts empty, as on a fresh install.
  The invariant that a stored offset lies in [-20, 20] holds because `setOffset` is its only writer.
- BrightnessWorkScheduler is the `scheduled` field; only its 5-minute default delay is kept.
  The notifications are entries in `notices`.
- The service lifecycle, notifications and UI are out: AutoBrightnessService (including its
  initial snapshot and the 1500 ms self-write debounce), NotificationFactory, MainActivity,
  OffsetActivity, ScreenStateReceiver, SystemBrightnessObserver, LocationProvider and AutoBrilloApp.
- Concurrency is out: `@Volatile`, main-thread posting, and the worker running in parallel with the service.
