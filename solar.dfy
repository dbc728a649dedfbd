/**
  SunTimesCalculator: the sunrise/sunset window and the night test.

  The trigonometric sunrise equation (solarTimeUtc) is a parameter, `rawUtHour`,
  standing for everything it computes before its final normalizeHour; the model
  applies that normalisation itself. "Today" and the system zone are parameters.
 */
module Solar {
  import opened Chrono
  import opened Wrappers

  /** The fallback window, 07:00 and 20:00 local. */
  const DEFAULT_SUNRISE: LocalTime := TimeOf(7, 0)
  const DEFAULT_SUNSET: LocalTime := TimeOf(20, 0)

  datatype Location = Location(latitude: real, longitude: real)

  datatype SunTimes = SunTimes(sunrise: ZonedDateTime, sunset: ZonedDateTime) {

    /** Night is strictly before sunrise or strictly after sunset, both boundaries seen in the zone of `now`. */
    function IsNight(now: ZonedDateTime): (night: bool)
      ensures night <==> now.instant < sunrise.instant || sunset.instant < now.instant
    {
      var todaySunrise := sunrise.WithZoneSameInstant(now.zone);
      var todaySunset := sunset.WithZoneSameInstant(now.zone);
      now.IsBefore(todaySunrise) || now.IsAfter(todaySunset)
    }
  }

  /** The zones attached to the three values play no part in the night test. */
  lemma IsNightIgnoresZones(st: SunTimes, now: ZonedDateTime, z1: Zone, z2: Zone, z3: Zone)
    ensures st.IsNight(now)
        == SunTimes(st.sunrise.WithZoneSameInstant(z1), st.sunset.WithZoneSameInstant(z2))
             .IsNight(now.WithZoneSameInstant(z3))
  {
  }

  /** The sunrise and sunset instants themselves count as day. */
  lemma BoundariesAreDay(st: SunTimes)
    requires !st.sunset.IsBefore(st.sunrise)
    ensures !st.IsNight(st.sunrise) && !st.IsNight(st.sunset)
  {
  }

  /** defaultSunTimes: 07:00 and 20:00 on the wall clock of `zone`, on the date `today`. */
  function DefaultSunTimes(zone: Zone, today: LocalDate): (r: SunTimes)
    ensures r.sunrise.zone == zone && r.sunset.zone == zone
    ensures r.sunrise.ToLocalDate() == today && r.sunset.ToLocalDate() == today
    ensures r.sunrise.ToLocalTime() == 7 * MILLIS_PER_HOUR
    ensures r.sunset.ToLocalTime() == 20 * MILLIS_PER_HOUR
    ensures r.sunset.instant - r.sunrise.instant == 13 * MILLIS_PER_HOUR
  {
    SunTimes(Of(today, DEFAULT_SUNRISE, zone), Of(today, DEFAULT_SUNSET, zone))
  }

  /**
    fromEpoch: keep the local time of day of both stored instants, move sunrise onto
    today, and push sunset to the next day when it would not be after sunrise.
    A stored value <= 0 means "never set" and gives the default window.
   */
  function FromEpoch(sunriseMillis: int, sunsetMillis: int, zone: Zone, today: LocalDate): (r: SunTimes)
    ensures sunriseMillis <= 0 || sunsetMillis <= 0 ==> r == DefaultSunTimes(zone, today)
    ensures r.sunrise.zone == zone && r.sunset.zone == zone
    ensures r.sunrise.ToLocalDate() == today
    ensures r.sunset.IsAfter(r.sunrise)
    ensures sunriseMillis > 0 && sunsetMillis > 0 ==>
      var riseTime := AtZone(sunriseMillis, zone).ToLocalTime();
      var setTime := AtZone(sunsetMillis, zone).ToLocalTime();
      && r.sunrise.ToLocalTime() == riseTime
      && r.sunset.ToLocalTime() == setTime
      && r.sunset.instant - Of(today, setTime, zone).instant
         == (if setTime <= riseTime then MILLIS_PER_DAY else 0)
  {
    if sunriseMillis <= 0 || sunsetMillis <= 0 then
      DefaultSunTimes(zone, today)
    else
      var sunriseTime := AtZone(sunriseMillis, zone).ToLocalTime();
      var sunsetTime := AtZone(sunsetMillis, zone).ToLocalTime();
      var sunrise := Of(today, sunriseTime, zone);
      var sunset := Of(today, sunsetTime, zone);
      if !sunset.IsAfter(sunrise) then SunTimes(sunrise, sunset.PlusDays(1))
      else SunTimes(sunrise, sunset)
  }

  /** Re-anchoring the default window's own instants gives the default window back. */
  lemma FromEpochOfDefault(zone: Zone, today: LocalDate)
    ensures var d := DefaultSunTimes(zone, today);
      FromEpoch(d.sunrise.instant, d.sunset.instant, zone, today) == d
  {
    var d := DefaultSunTimes(zone, today);
    var r := FromEpoch(d.sunrise.instant, d.sunset.instant, zone, today);
    OfRecomposes(r.sunrise);
    OfRecomposes(d.sunrise);
    OfRecomposes(r.sunset);
    OfRecomposes(d.sunset);
  }

  /** Kotlin's Double.toLong: truncation toward zero. */
  function TruncToInt(x: real): (n: int)
    ensures 0.0 <= x ==> 0 <= n && n as real <= x < n as real + 1.0
    ensures x < 0.0 ==> n <= 0 && n as real - 1.0 < x <= n as real
  {
    if x >= 0.0 then x.Floor else -((-x).Floor)
  }

  predicate IsWhole(x: real) {
    x.Floor as real == x
  }

  /** normalize: Kotlin's truncated `value % 360`, then + 360 when negative. */
  function Normalize(value: real): (r: real)
    ensures 0.0 <= r < 360.0
    ensures 0.0 <= value < 360.0 ==> r == value
    ensures IsWhole((value - r) / 360.0)
  {
    var turns := TruncToInt(value / 360.0);
    var rem := value - 360.0 * turns as real;
    var r := if rem < 0.0 then rem + 360.0 else rem;
    assert (value - r) / 360.0 == (if rem < 0.0 then turns - 1 else turns) as real;
    r
  }

  /** normalizeHour: Kotlin's truncated `value % 24`, then + 24 when negative. */
  function NormalizeHour(value: real): (r: real)
    ensures 0.0 <= r < 24.0
    ensures 0.0 <= value < 24.0 ==> r == value
    ensures IsWhole((value - r) / 24.0)
  {
    var turns := TruncToInt(value / 24.0);
    var rem := value - 24.0 * turns as real;
    var r := if rem < 0.0 then rem + 24.0 else rem;
    assert (value - r) / 24.0 == (if rem < 0.0 then turns - 1 else turns) as real;
    r
  }

  /**
    hoursToZoned: UTC midnight of `date` plus the whole seconds of `hours`, seen in `zone`.
    An hour of day in [0, 24) lands on `date` in UTC.
   */
  function HoursToZoned(date: LocalDate, hours: real, zone: Zone): (r: ZonedDateTime)
    ensures r.zone == zone
    ensures r.instant == Of(date, 0, UTC).instant + TruncToInt(hours * 3600.0) * MILLIS_PER_SECOND
    ensures 0.0 <= hours < 24.0 ==> r.WithZoneSameInstant(UTC).ToLocalDate() == date
  {
    var totalSeconds := TruncToInt(hours * 3600.0);
    var base := Of(date, 0, UTC);
    base.PlusSeconds(totalSeconds).WithZoneSameInstant(zone)
  }

  /** solarTimeUtc: the raw sunrise equation, brought into [0, 24) by normalizeHour. */
  function SolarTimeUtc(date: LocalDate, latitude: real, longitude: real, sunrise: bool,
                        rawUtHour: (LocalDate, real, real, bool) -> real): (hour: real)
    ensures 0.0 <= hour < 24.0
  {
    NormalizeHour(rawUtHour(date, latitude, longitude, sunrise))
  }

  /**
    computeSunTimes: the default window without a location; otherwise both events are
    computed independently and each falls on `today` in UTC. Their order is not enforced.
   */
  function ComputeSunTimes(location: Option<Location>, zone: Zone, today: LocalDate,
                           rawUtHour: (LocalDate, real, real, bool) -> real): (r: SunTimes)
    ensures location.None? ==> r == DefaultSunTimes(zone, today)
    ensures location.Some? ==>
      && r.sunrise.zone == zone && r.sunset.zone == zone
      && r.sunrise.WithZoneSameInstant(UTC).ToLocalDate() == today
      && r.sunset.WithZoneSameInstant(UTC).ToLocalDate() == today
  {
    match location
    case None => DefaultSunTimes(zone, today)
    case Some(loc) =>
      var sunriseUtcHour := SolarTimeUtc(today, loc.latitude, loc.longitude, true, rawUtHour);
      var sunsetUtcHour := SolarTimeUtc(today, loc.latitude, loc.longitude, false, rawUtHour);
      SunTimes(HoursToZoned(today, sunriseUtcHour, zone), HoursToZoned(today, sunsetUtcHour, zone))
  }

  /**
    West of Greenwich the UTC sunset wraps past midnight and is normalised back onto
    the same UTC date: here sunrise at 14:00 UTC and sunset at 02:00 UTC (a location
    near 120 degrees west around the equinox) give a sunset before the sunrise.
   */
  lemma ComputeSunTimesCanInvert(zone: Zone, today: LocalDate)
    ensures var r := ComputeSunTimes(Some(Location(34.0, -118.0)), zone, today,
                                     (d: LocalDate, lat: real, lng: real, up: bool) => if up then 14.0 else 2.0);
            r.sunset.IsBefore(r.sunrise)
  {
  }

  /**
    The stored window is repaired on reading: whatever computeSunTimes stored, reading it
    back on any later day gives sunset after sunrise on that day; a window stored after
    the epoch also keeps the local times of day of the computed events.
   */
  lemma StoredComputedWindowIsOrdered(location: Option<Location>, zone: Zone, today: LocalDate,
                                      rawUtHour: (LocalDate, real, real, bool) -> real, later: LocalDate)
    ensures var c := ComputeSunTimes(location, zone, today, rawUtHour);
            var r := FromEpoch(c.sunrise.instant, c.sunset.instant, zone, later);
            && r.sunset.IsAfter(r.sunrise) && r.sunrise.ToLocalDate() == later
            && (c.sunrise.instant > 0 && c.sunset.instant > 0 ==>
                  && r.sunrise.ToLocalTime() == c.sunrise.ToLocalTime()
                  && r.sunset.ToLocalTime() == c.sunset.ToLocalTime())
  {
  }
}
