/**
  PreferencesRepository: the DataStore of the app as a map from typed keys to values,
  the defaulting read that turns it into an AutoBrightnessPreferences record, and the
  setters. Coroutines and the Flow are not modelled; "today" and the system zone are
  parameters of the read.
 */
module Prefs {
  import opened Chrono
  import Solar

  const MIN_OFFSET := -20.0
  const MAX_OFFSET := 20.0

  datatype Key =
    | OffsetPercent | UserPaused | ManualOverrideUntil | SunriseMillis | SunsetMillis
    | ServiceActive | NightMode | LastLux | LastAppliedPercent | LastReason

  /** The name each key is stored under. */
  function KeyName(k: Key): string {
    match k
    case OffsetPercent => "offset_percent"
    case UserPaused => "user_paused"
    case ManualOverrideUntil => "manual_override_until"
    case SunriseMillis => "sunrise_millis"
    case SunsetMillis => "sunset_millis"
    case ServiceActive => "service_active"
    case NightMode => "night_mode"
    case LastLux => "last_lux"
    case LastAppliedPercent => "last_applied_percent"
    case LastReason => "last_reason"
  }

  /** No two keys share a stored name, so writing one never overwrites another. */
  lemma KeyNamesDistinct(k1: Key, k2: Key)
    requires k1 != k2
    ensures KeyName(k1) != KeyName(k2)
  {
  }

  datatype Value = FloatValue(f: real) | BoolValue(b: bool) | LongValue(l: int) | StringValue(s: string)

  /** floatPreferencesKey, booleanPreferencesKey, longPreferencesKey, stringPreferencesKey. */
  predicate HasKind(k: Key, v: Value) {
    match k
    case OffsetPercent | LastLux | LastAppliedPercent => v.FloatValue?
    case UserPaused | ServiceActive | NightMode => v.BoolValue?
    case ManualOverrideUntil | SunriseMillis | SunsetMillis => v.LongValue?
    case LastReason => v.StringValue?
  }

  ghost predicate WellTyped(store: map<Key, Value>) {
    forall k :: k in store ==> HasKind(k, store[k])
  }

  datatype AutoBrightnessPreferences = AutoBrightnessPreferences(
    offsetPercent: real,
    userPaused: bool,
    manualOverrideUntil: int,
    sunriseMillis: int,
    sunsetMillis: int,
    serviceActive: bool,
    nightMode: bool,
    lastLux: real,
    lastAppliedPercent: real,
    lastReason: string)

  function GetFloat(store: map<Key, Value>, k: Key, default: real): real {
    if k in store && store[k].FloatValue? then store[k].f else default
  }

  function GetBool(store: map<Key, Value>, k: Key, default: bool): bool {
    if k in store && store[k].BoolValue? then store[k].b else default
  }

  function GetLong(store: map<Key, Value>, k: Key, default: int): int {
    if k in store && store[k].LongValue? then store[k].l else default
  }

  function GetString(store: map<Key, Value>, k: Key, default: string): string {
    if k in store && store[k].StringValue? then store[k].s else default
  }

  /** defaultTimeMillis: `time` today in the system zone, as epoch millis. */
  function DefaultTimeMillis(time: LocalTime, today: LocalDate, zone: Zone): int {
    Of(today, time, zone).instant
  }

  /**
    preferencesFlow: every stored key read back, every absent key replaced by its default;
    absent sunrise and sunset read as the instants of the default 07:00-20:00 window.
   */
  function Read(store: map<Key, Value>, today: LocalDate, zone: Zone): (p: AutoBrightnessPreferences)
    requires WellTyped(store)
    ensures OffsetPercent in store ==> p.offsetPercent == store[OffsetPercent].f
    ensures UserPaused in store ==> p.userPaused == store[UserPaused].b
    ensures ManualOverrideUntil in store ==> p.manualOverrideUntil == store[ManualOverrideUntil].l
    ensures SunriseMillis in store ==> p.sunriseMillis == store[SunriseMillis].l
    ensures SunsetMillis in store ==> p.sunsetMillis == store[SunsetMillis].l
    ensures ServiceActive in store ==> p.serviceActive == store[ServiceActive].b
    ensures NightMode in store ==> p.nightMode == store[NightMode].b
    ensures LastLux in store ==> p.lastLux == store[LastLux].f
    ensures LastAppliedPercent in store ==> p.lastAppliedPercent == store[LastAppliedPercent].f
    ensures LastReason in store ==> p.lastReason == store[LastReason].s
    ensures OffsetPercent !in store ==> p.offsetPercent == 0.0
    ensures UserPaused !in store ==> !p.userPaused
    ensures ManualOverrideUntil !in store ==> p.manualOverrideUntil == 0
    ensures SunriseMillis !in store ==> p.sunriseMillis == Solar.DefaultSunTimes(zone, today).sunrise.instant
    ensures SunsetMillis !in store ==> p.sunsetMillis == Solar.DefaultSunTimes(zone, today).sunset.instant
    ensures ServiceActive !in store ==> !p.serviceActive
    ensures NightMode !in store ==> !p.nightMode
    ensures LastLux !in store ==> p.lastLux == -1.0
    ensures LastAppliedPercent !in store ==> p.lastAppliedPercent == -1.0
    ensures LastReason !in store ==> p.lastReason == ""
  {
    AutoBrightnessPreferences(
      offsetPercent := GetFloat(store, OffsetPercent, 0.0),
      userPaused := GetBool(store, UserPaused, false),
      manualOverrideUntil := GetLong(store, ManualOverrideUntil, 0),
      sunriseMillis := GetLong(store, SunriseMillis, DefaultTimeMillis(TimeOf(7, 0), today, zone)),
      sunsetMillis := GetLong(store, SunsetMillis, DefaultTimeMillis(TimeOf(20, 0), today, zone)),
      serviceActive := GetBool(store, ServiceActive, false),
      nightMode := GetBool(store, NightMode, false),
      lastLux := GetFloat(store, LastLux, -1.0),
      lastAppliedPercent := GetFloat(store, LastAppliedPercent, -1.0),
      lastReason := GetString(store, LastReason, ""))
  }

  /** On a fresh install the stored window re-anchors to exactly the default window. */
  lemma EmptyStoreGivesDefaultWindow(today: LocalDate, zone: Zone)
    ensures var p := Read(map[], today, zone);
      Solar.FromEpoch(p.sunriseMillis, p.sunsetMillis, zone, today) == Solar.DefaultSunTimes(zone, today)
  {
    Solar.FromEpochOfDefault(zone, today);
  }

  /** percent.coerceIn(-20f, 20f) */
  function ClampOffset(percent: real): (c: real)
    ensures MIN_OFFSET <= c <= MAX_OFFSET
    ensures MIN_OFFSET <= percent <= MAX_OFFSET ==> c == percent
    ensures percent < MIN_OFFSET ==> c == MIN_OFFSET
    ensures percent > MAX_OFFSET ==> c == MAX_OFFSET
  {
    if percent < MIN_OFFSET then MIN_OFFSET else if percent > MAX_OFFSET then MAX_OFFSET else percent
  }

  /** An offset only ever enters the store through setOffset, so every offset read lies in [-20, 20]. */
  ghost predicate OffsetInRange(store: map<Key, Value>) {
    OffsetPercent in store ==> store[OffsetPercent].FloatValue? && MIN_OFFSET <= store[OffsetPercent].f <= MAX_OFFSET
  }

  lemma OffsetReadInRange(store: map<Key, Value>, today: LocalDate, zone: Zone)
    requires WellTyped(store) && OffsetInRange(store)
    ensures MIN_OFFSET <= Read(store, today, zone).offsetPercent <= MAX_OFFSET
  {
  }

  class PreferencesRepository {
    var store: map<Key, Value>

    ghost predicate Valid()
      reads this
    {
      WellTyped(store) && OffsetInRange(store)
    }

    constructor ()
      ensures Valid() && store == map[]
    {
      store := map[];
    }

    method CurrentPreferences(today: LocalDate, zone: Zone) returns (p: AutoBrightnessPreferences)
      requires Valid()
      ensures p == Read(store, today, zone)
      ensures MIN_OFFSET <= p.offsetPercent <= MAX_OFFSET
    {
      p := Read(store, today, zone);
    }

    method SetOffset(percent: real)
      requires Valid()
      modifies this
      ensures Valid()
      ensures store == old(store)[OffsetPercent := FloatValue(ClampOffset(percent))]
      ensures forall d, z :: Read(store, d, z) == Read(old(store), d, z).(offsetPercent := ClampOffset(percent))
    {
      store := store[OffsetPercent := FloatValue(ClampOffset(percent))];
    }

    method SetUserPaused(paused: bool)
      requires Valid()
      modifies this
      ensures Valid()
      ensures store == old(store)[UserPaused := BoolValue(paused)]
      ensures forall d, z :: Read(store, d, z) == Read(old(store), d, z).(userPaused := paused)
    {
      store := store[UserPaused := BoolValue(paused)];
    }

    /** The override lasts until `nowMillis + durationMillis` (System.currentTimeMillis() is `nowMillis`). */
    method SetManualOverride(durationMillis: int, nowMillis: int)
      requires Valid()
      modifies this
      ensures Valid()
      ensures store == old(store)[ManualOverrideUntil := LongValue(nowMillis + durationMillis)]
      ensures forall d, z :: Read(store, d, z)
                          == Read(old(store), d, z).(manualOverrideUntil := nowMillis + durationMillis)
    {
      var until := nowMillis + durationMillis;
      store := store[ManualOverrideUntil := LongValue(until)];
    }

    method ClearManualOverride()
      requires Valid()
      modifies this
      ensures Valid()
      ensures store == old(store)[ManualOverrideUntil := LongValue(0)]
      ensures forall d, z :: Read(store, d, z) == Read(old(store), d, z).(manualOverrideUntil := 0)
    {
      store := store[ManualOverrideUntil := LongValue(0)];
    }

    method UpdateSunTimes(sunriseMillis: int, sunsetMillis: int)
      requires Valid()
      modifies this
      ensures Valid()
      ensures store == old(store)[SunriseMillis := LongValue(sunriseMillis)][SunsetMillis := LongValue(sunsetMillis)]
      ensures forall d, z :: Read(store, d, z)
                          == Read(old(store), d, z).(sunriseMillis := sunriseMillis, sunsetMillis := sunsetMillis)
    {
      store := store[SunriseMillis := LongValue(sunriseMillis)][SunsetMillis := LongValue(sunsetMillis)];
    }

    method SetServiceActive(active: bool)
      requires Valid()
      modifies this
      ensures Valid()
      ensures store == old(store)[ServiceActive := BoolValue(active)]
      ensures forall d, z :: Read(store, d, z) == Read(old(store), d, z).(serviceActive := active)
    {
      store := store[ServiceActive := BoolValue(active)];
    }

    method SetNightMode(enabled: bool)
      requires Valid()
      modifies this
      ensures Valid()
      ensures store == old(store)[NightMode := BoolValue(enabled)]
      ensures forall d, z :: Read(store, d, z) == Read(old(store), d, z).(nightMode := enabled)
    {
      store := store[NightMode := BoolValue(enabled)];
    }

    /** The percent is stored as a float. */
    method UpdateLastMeasurement(lux: real, percent: int, reason: string)
      requires Valid()
      modifies this
      ensures Valid()
      ensures store == old(store)[LastLux := FloatValue(lux)][LastAppliedPercent := FloatValue(percent as real)]
                                 [LastReason := StringValue(reason)]
      ensures forall d, z :: Read(store, d, z)
                          == Read(old(store), d, z).(lastLux := lux, lastAppliedPercent := percent as real,
                                                     lastReason := reason)
    {
      store := store[LastLux := FloatValue(lux)][LastAppliedPercent := FloatValue(percent as real)]
                    [LastReason := StringValue(reason)];
    }
  }
}
