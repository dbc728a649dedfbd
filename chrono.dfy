/**
  The part of java.time the app relies on, with every zone a fixed UTC offset.

  An instant is a count of milliseconds since 1970-01-01T00:00Z, a LocalDate is a
  count of days since that date, and a LocalTime is the number of milliseconds
  since local midnight. Daylight-saving transitions are not modelled.
 */
module Chrono {

  const MILLIS_PER_SECOND := 1000
  const MILLIS_PER_HOUR := 3_600_000
  const MILLIS_PER_DAY := 86_400_000

  /** A zone with a fixed offset from UTC, in milliseconds. */
  datatype Zone = Zone(offsetMillis: int)

  const UTC := Zone(0)

  /** Days since 1970-01-01. */
  type LocalDate = int

  /** Milliseconds since local midnight. */
  type LocalTime = t: int | 0 <= t < MILLIS_PER_DAY

  /** An instant seen in a zone, as java.time.ZonedDateTime. */
  datatype ZonedDateTime = ZonedDateTime(instant: int, zone: Zone) {

    function LocalMillis(): int {
      instant + zone.offsetMillis
    }

    /** The calendar date on the wall clock of the zone (floor division, as java.time does). */
    function ToLocalDate(): LocalDate {
      LocalMillis() / MILLIS_PER_DAY
    }

    /** The time of day on the wall clock of the zone. */
    function ToLocalTime(): LocalTime {
      LocalMillis() % MILLIS_PER_DAY
    }

    /** java.time compares zoned date-times by their instants. */
    predicate IsBefore(other: ZonedDateTime) {
      instant < other.instant
    }

    predicate IsAfter(other: ZonedDateTime) {
      instant > other.instant
    }

    function WithZoneSameInstant(z: Zone): (r: ZonedDateTime)
      ensures r.instant == instant && r.zone == z
    {
      ZonedDateTime(instant, z)
    }

    /** Same wall-clock time on the next `days`-th date; with a fixed offset that is days * 24 h. */
    function PlusDays(days: int): (r: ZonedDateTime)
      ensures r.zone == zone
      ensures r.ToLocalTime() == ToLocalTime()
      ensures r.ToLocalDate() == ToLocalDate() + days
    {
      ZonedDateTime(instant + days * MILLIS_PER_DAY, zone)
    }

    function PlusSeconds(seconds: int): (r: ZonedDateTime)
      ensures r.zone == zone && r.instant - instant == seconds * MILLIS_PER_SECOND
    {
      ZonedDateTime(instant + seconds * MILLIS_PER_SECOND, zone)
    }
  }

  /** ZonedDateTime.of(date, time, zone): the instant whose wall clock in `zone` reads `date` `time`. */
  function Of(date: LocalDate, time: LocalTime, zone: Zone): (r: ZonedDateTime)
    ensures r.zone == zone
    ensures r.ToLocalDate() == date && r.ToLocalTime() == time
  {
    ZonedDateTime(date * MILLIS_PER_DAY + time - zone.offsetMillis, zone)
  }

  /** Instant.ofEpochMilli(millis).atZone(zone). */
  function AtZone(epochMillis: int, zone: Zone): ZonedDateTime {
    ZonedDateTime(epochMillis, zone)
  }

  /** LocalTime.of(hour, minute). */
  function TimeOf(hour: int, minute: int): (t: LocalTime)
    requires 0 <= hour < 24 && 0 <= minute < 60
  {
    hour * MILLIS_PER_HOUR + minute * 60_000
  }

  /** A zoned date-time is determined by its zone, local date and local time. */
  lemma OfRecomposes(z: ZonedDateTime)
    ensures Of(z.ToLocalDate(), z.ToLocalTime(), z.zone) == z
  {
  }
}
