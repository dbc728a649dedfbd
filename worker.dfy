/**
  BrightnessWorker.doWork: one cycle of the periodic job, as a fixed priority of early
  returns: paused, night mode, manual override window, measurement, write permission,
  apply. The camera result is an input, the write permission is the manager's
  `writePermitted`, and the WorkManager queue is the `scheduled` delay of the next cycle.
 */
module Work {
  import opened Wrappers
  import opened Chrono
  import opened Solar
  import opened Manager
  import opened Decider
  import opened Prefs

  const NIGHT_MODE_PERCENT := 0
  /** BrightnessWorkScheduler's default delay: five minutes. */
  const DEFAULT_DELAY_MILLIS := 5 * 60 * 1000

  /** What measureLux gave: a pseudo-lux value, a SecurityException, or any other failure. */
  datatype Measurement = Measured(lux: real) | CameraDenied | MeasureFailed

  datatype WorkResult = Success | Failure | Retry

  datatype Notice = CameraPermissionError | WriteSettingsMissing

  /** The brightness call of the cycle, if any. */
  datatype Action = Keep | Immediate(percent: int) | Smooth(percent: int)

  /** The arguments of updateLastMeasurement. */
  datatype Record = Record(lux: real, percent: int, reason: string)

  datatype Plan = Plan(action: Action, record: Option<Record>, nextDelay: Option<int>,
                       notice: Option<Notice>, measured: bool, result: WorkResult)

  /** The reason code recorded for an automatic decision. */
  function AutoReason(sunTimes: SunTimes, now: ZonedDateTime): string {
    if sunTimes.IsNight(now) then "AUTO_NOCHE" else "AUTO_DIA"
  }

  /**
    What one cycle does, given the stored preferences, the wall clock, the measurement
    outcome and the write permission.
   */
  function Decide(p: AutoBrightnessPreferences, nowMillis: int, zone: Zone, today: LocalDate,
                  m: Measurement, canWrite: bool, ln: real -> real): (r: Plan)
    requires IsLogarithm(ln)
    ensures r.action != Keep ==> canWrite
    ensures r.action.Immediate? ==> r.action.percent == NIGHT_MODE_PERCENT
    ensures r.action.Smooth? ==> MIN_PERCENT <= r.action.percent <= MAX_PERCENT
                                 && r.record.Some? && r.record.value.percent == r.action.percent
    ensures r.result.Failure? <==> r.notice.Some?
    ensures r.result.Failure? ==> r.action == Keep && r.record.None? && r.nextDelay.None?
    ensures r.nextDelay.Some? ==> r.nextDelay.value > 0
    ensures r.measured <==> !p.userPaused && !p.nightMode && p.manualOverrideUntil - nowMillis <= 0
    ensures r.record.Some? ==> r.nextDelay == Some(DEFAULT_DELAY_MILLIS) && r.result == Success
  {
    if p.userPaused then
      Plan(Keep, None, None, None, false, Success)
    else if p.nightMode then
      Plan(if canWrite then Immediate(NIGHT_MODE_PERCENT) else Keep,
           Some(Record(0.0, NIGHT_MODE_PERCENT, "MODO_NOCHE")), Some(DEFAULT_DELAY_MILLIS), None, false, Success)
    else
      var remainingOverride := p.manualOverrideUntil - nowMillis;
      if remainingOverride > 0 then
        Plan(Keep, None, Some(remainingOverride), None, false, Success)
      else
        var sunTimes := FromEpoch(p.sunriseMillis, p.sunsetMillis, zone, today);
        match m
        case CameraDenied => Plan(Keep, None, None, Some(CameraPermissionError), true, Failure)
        case MeasureFailed => Plan(Keep, None, Some(DEFAULT_DELAY_MILLIS), None, true, Retry)
        case Measured(lux) =>
          var now := AtZone(nowMillis, zone);
          var target := TargetPercent(lux, sunTimes, p.offsetPercent, now, ln);
          if !canWrite then
            Plan(Keep, None, None, Some(WriteSettingsMissing), true, Failure)
          else
            Plan(Smooth(target), Some(Record(lux, target, AutoReason(sunTimes, now))),
                 Some(DEFAULT_DELAY_MILLIS), None, true, Success)
  }

  /** Paused: success, and nothing is touched, whatever else is stored or measured. */
  lemma PausedDoesNothing(p: AutoBrightnessPreferences, nowMillis: int, zone: Zone, today: LocalDate,
                          m: Measurement, canWrite: bool, ln: real -> real)
    requires IsLogarithm(ln) && p.userPaused
    ensures Decide(p, nowMillis, zone, today, m, canWrite, ln) == Plan(Keep, None, None, None, false, Success)
  {
  }

  /** Night mode: 0 % only when writable, but the record and the next cycle always. */
  lemma NightModeForcesZero(p: AutoBrightnessPreferences, nowMillis: int, zone: Zone, today: LocalDate,
                            m: Measurement, canWrite: bool, ln: real -> real)
    requires IsLogarithm(ln) && !p.userPaused && p.nightMode
    ensures var r := Decide(p, nowMillis, zone, today, m, canWrite, ln);
      && r.action == (if canWrite then Immediate(0) else Keep)
      && r.record == Some(Record(0.0, 0, "MODO_NOCHE"))
      && r.nextDelay == Some(DEFAULT_DELAY_MILLIS)
      && !r.measured && r.result == Success
  {
  }

  /** Inside the manual override window: wait exactly the rest of it, without measuring. */
  lemma OverrideWaitsOut(p: AutoBrightnessPreferences, nowMillis: int, zone: Zone, today: LocalDate,
                         m: Measurement, canWrite: bool, ln: real -> real)
    requires IsLogarithm(ln) && !p.userPaused && !p.nightMode && p.manualOverrideUntil > nowMillis
    ensures Decide(p, nowMillis, zone, today, m, canWrite, ln)
         == Plan(Keep, None, Some(p.manualOverrideUntil - nowMillis), None, false, Success)
  {
  }

  /** A SecurityException from the camera: failure with a notice, and no next cycle. */
  lemma CameraDeniedFails(p: AutoBrightnessPreferences, nowMillis: int, zone: Zone, today: LocalDate,
                          canWrite: bool, ln: real -> real)
    requires IsLogarithm(ln) && !p.userPaused && !p.nightMode && p.manualOverrideUntil <= nowMillis
    ensures Decide(p, nowMillis, zone, today, CameraDenied, canWrite, ln)
         == Plan(Keep, None, None, Some(CameraPermissionError), true, Failure)
  {
  }

  /** Any other measurement failure: retry, with the next cycle scheduled. */
  lemma MeasureFailureRetries(p: AutoBrightnessPreferences, nowMillis: int, zone: Zone, today: LocalDate,
                              canWrite: bool, ln: real -> real)
    requires IsLogarithm(ln) && !p.userPaused && !p.nightMode && p.manualOverrideUntil <= nowMillis
    ensures Decide(p, nowMillis, zone, today, MeasureFailed, canWrite, ln)
         == Plan(Keep, None, Some(DEFAULT_DELAY_MILLIS), None, true, Retry)
  {
  }

  /** Measured, but settings not writable: failure with a notice, no change and no record. */
  lemma NoPermissionFails(p: AutoBrightnessPreferences, nowMillis: int, zone: Zone, today: LocalDate,
                          lux: real, ln: real -> real)
    requires IsLogarithm(ln) && !p.userPaused && !p.nightMode && p.manualOverrideUntil <= nowMillis
    ensures Decide(p, nowMillis, zone, today, Measured(lux), false, ln)
         == Plan(Keep, None, None, Some(WriteSettingsMissing), true, Failure)
  {
  }

  /**
    The automatic case: the decider's percentage for the re-anchored stored window is
    applied smoothly and recorded with AUTO_NOCHE or AUTO_DIA, and the next cycle follows.
   */
  lemma AutoAppliesDecision(p: AutoBrightnessPreferences, nowMillis: int, zone: Zone, today: LocalDate,
                            lux: real, ln: real -> real)
    requires IsLogarithm(ln) && !p.userPaused && !p.nightMode && p.manualOverrideUntil <= nowMillis
    ensures var sunTimes := FromEpoch(p.sunriseMillis, p.sunsetMillis, zone, today);
      var now := AtZone(nowMillis, zone);
      var target := TargetPercent(lux, sunTimes, p.offsetPercent, now, ln);
      var r := Decide(p, nowMillis, zone, today, Measured(lux), true, ln);
      && r.action == Smooth(target)
      && r.record == Some(Record(lux, target, if sunTimes.IsNight(now) then "AUTO_NOCHE" else "AUTO_DIA"))
      && r.nextDelay == Some(DEFAULT_DELAY_MILLIS)
      && r.result == Success
  {
  }

  /**
    On a fresh install (nothing stored) with the wall clock after the epoch, an automatic
    cycle in darkness at night under the default 07:00-20:00 window records 0 % as AUTO_NOCHE.
   */
  lemma DarkNightUnderDefaults(nowMillis: int, zone: Zone, today: LocalDate, lux: real, ln: real -> real)
    requires IsLogarithm(ln) && nowMillis >= 0 && lux <= NIGHT_ZERO_LUX
    requires DefaultSunTimes(zone, today).IsNight(AtZone(nowMillis, zone))
    ensures Decide(Read(map[], today, zone), nowMillis, zone, today, Measured(lux), true, ln).record
         == Some(Record(lux, 0, "AUTO_NOCHE"))
  {
    EmptyStoreGivesDefaultWindow(today, zone);
  }


  /** The record of updateLastMeasurement applied to a store. */
  function WithRecord(store: map<Key, Value>, record: Option<Record>): map<Key, Value> {
    match record
    case None => store
    case Some(rec) =>
      store[LastLux := FloatValue(rec.lux)][LastAppliedPercent := FloatValue(rec.percent as real)]
           [LastReason := StringValue(rec.reason)]
  }

  class BrightnessWorker {
    const prefs: PreferencesRepository
    const manager: BrightnessManager
    /** The delay of the cycle currently enqueued (unique work, REPLACE policy). */
    var scheduled: Option<int>
    /** Notifications posted, oldest first. */
    var notices: seq<Notice>

    constructor (prefs: PreferencesRepository, manager: BrightnessManager)
      ensures this.prefs == prefs && this.manager == manager
      ensures scheduled == None && notices == []
    {
      this.prefs := prefs;
      this.manager := manager;
      scheduled := None;
      notices := [];
    }

    method ScheduleNext(delayMillis: int)
      modifies this`scheduled
      ensures scheduled == Some(delayMillis)
    {
      scheduled := Some(delayMillis);
    }

    method Notify(notice: Notice)
      modifies this`notices
      ensures notices == old(notices) + [notice]
    {
      notices := notices + [notice];
    }

    /**
      doWork. `nowMillis` stands for all three clock readings of a cycle: the
      System.currentTimeMillis() of the override check, the ZonedDateTime.now() handed to
      the decider and the one behind the reason code. `clock` is
      SystemClock.elapsedRealtime() at the brightness write.
     */
    method DoWork(nowMillis: int, clock: int, zone: Zone, today: LocalDate, measurement: Measurement,
                  ln: real -> real) returns (result: WorkResult)
      requires prefs.Valid() && IsLogarithm(ln)
      modifies this`scheduled, this`notices, prefs, manager`setting, manager`lastAutoUpdateAt
      ensures prefs.Valid()
      ensures var plan := Decide(Read(old(prefs.store), today, zone), nowMillis, zone, today, measurement,
                                 manager.writePermitted, ln);
        && result == plan.result
        && prefs.store == WithRecord(old(prefs.store), plan.record)
        && scheduled == (if plan.nextDelay.Some? then plan.nextDelay else old(scheduled))
        && notices == old(notices) + (if plan.notice.Some? then [plan.notice.value] else [])
        && match plan.action
           case Keep =>
             manager.setting == old(manager.setting) && manager.lastAutoUpdateAt == old(manager.lastAutoUpdateAt)
           case Immediate(pct) =>
             manager.setting == Some(PercentToValue(pct)) && manager.lastAutoUpdateAt == clock
           case Smooth(pct) =>
             if old(manager.CurrentValue(PercentToValue(pct))) == PercentToValue(pct) then
               manager.setting == old(manager.setting) && manager.lastAutoUpdateAt == old(manager.lastAutoUpdateAt)
             else
               manager.setting == Some(PercentToValue(pct)) && manager.lastAutoUpdateAt == clock
    {
      var p := prefs.CurrentPreferences(today, zone);
      if p.userPaused {
        return Success;
      }
      if p.nightMode {
        var canWrite := manager.CanWriteSettings();
        if canWrite {
          manager.ApplyImmediatePercent(NIGHT_MODE_PERCENT, clock);
        }
        prefs.UpdateLastMeasurement(0.0, NIGHT_MODE_PERCENT, "MODO_NOCHE");
        ScheduleNext(DEFAULT_DELAY_MILLIS);
        return Success;
      }
      var remainingOverride := p.manualOverrideUntil - nowMillis;
      if remainingOverride > 0 {
        ScheduleNext(remainingOverride);
        return Success;
      }
      var sunTimes := FromEpoch(p.sunriseMillis, p.sunsetMillis, zone, today);
      var lux: real;
      match measurement {
        case CameraDenied =>
          Notify(CameraPermissionError);
          return Failure;
        case MeasureFailed =>
          ScheduleNext(DEFAULT_DELAY_MILLIS);
          return Retry;
        case Measured(l) =>
          lux := l;
      }
      var now := AtZone(nowMillis, zone);
      var targetPercent := TargetPercent(lux, sunTimes, p.offsetPercent, now, ln);
      var canWrite := manager.CanWriteSettings();
      if !canWrite {
        Notify(WriteSettingsMissing);
        return Failure;
      }
      manager.ApplySmoothPercent(targetPercent, clock);
      prefs.UpdateLastMeasurement(lux, targetPercent, if sunTimes.IsNight(now) then "AUTO_NOCHE" else "AUTO_DIA");
      ScheduleNext(DEFAULT_DELAY_MILLIS);
      return Success;
    }
  }
}
