/** The day-period clock (TimeManager.cpp): the stored sunrise and sunset
    instants, the once-a-day recompute gate, and the classification of an
    instant into a daylight period. Instants are seconds since the epoch
    (`time_t`); "now" and the local date are parameters, since the source reads
    them from the system clock. */
module Timekeeping {
  import opened Config

  // Transition lengths in minutes (TimeManager.h).
  const DAWN_DURATION: int := 30
  const SUNRISE_DURATION: int := 20
  const SUNSET_DURATION: int := 20
  const DUSK_DURATION: int := 30

  const SECONDS_PER_DAY: int := 86400
  /** The placeholder schedule: sunrise at 06:00:00, sunset at 18:00:00 local. */
  const SUNRISE_OFFSET: int := 6 * 3600
  const SUNSET_OFFSET: int := 18 * 3600

  datatype Option<T> = None | Some(value: T)

  function DawnStart(sunrise: int): int { sunrise - DAWN_DURATION * 60 }
  function SunriseEnd(sunrise: int): int { sunrise + SUNRISE_DURATION * 60 }
  function SunsetEnd(sunset: int): int { sunset + SUNSET_DURATION * 60 }
  function DuskEnd(sunset: int): int { sunset + (SUNSET_DURATION + DUSK_DURATION) * 60 }

  /** The interval chain of `getTimeOfDay` for a synchronised clock: half-open
      intervals tested in the order dawn, sunrise, day, sunset, dusk, else
      night, compared linearly on absolute instants. */
  function PeriodAt(now: int, sunrise: int, sunset: int): TimeOfDay {
    if DawnStart(sunrise) <= now < sunrise then Dawn
    else if sunrise <= now < SunriseEnd(sunrise) then Sunrise
    else if SunriseEnd(sunrise) <= now < sunset then Day
    else if sunset <= now < SunsetEnd(sunset) then Sunset
    else if SunsetEnd(sunset) <= now < DuskEnd(sunset) then Dusk
    else Night
  }

  /** The fields of a `TimeManager`. */
  datatype ClockState = ClockState(sunriseTime: int, sunsetTime: int, lastTimeUpdate: int, timeInitialized: bool)

  /** `getTimeOfDay`: day until the clock is synchronised. */
  function TimeOfDayIn(c: ClockState, now: int): TimeOfDay {
    if !c.timeInitialized then Day else PeriodAt(now, c.sunriseTime, c.sunsetTime)
  }

  /** `calculateSunTimes`, given the start of the current local date
      (`None` when local time is unavailable, in which case nothing changes). */
  function SunTimesFor(c: ClockState, localDay: Option<int>): ClockState {
    match localDay
    case None => c
    case Some(d) => c.(sunriseTime := d + SUNRISE_OFFSET, sunsetTime := d + SUNSET_OFFSET)
  }

  /** The gate of `update`: more than a day since the last recompute, or never. */
  predicate RecomputeDue(c: ClockState, now: int) {
    now - c.lastTimeUpdate > SECONDS_PER_DAY || c.lastTimeUpdate == 0
  }

  /** `update`. */
  function Updated(c: ClockState, now: int, localDay: Option<int>): ClockState {
    if RecomputeDue(c, now) then SunTimesFor(c, localDay).(lastTimeUpdate := now) else c
  }

  /** `begin` once its wait for time synchronisation is over: synchronised
      exactly when local time is available, and then the sun times computed. */
  function Begun(c: ClockState, localDay: Option<int>): ClockState {
    if localDay.Some? then SunTimesFor(c.(timeInitialized := true), localDay) else c.(timeInitialized := false)
  }

  class TimeManager {
    var sunriseTime: int
    var sunsetTime: int
    var lastTimeUpdate: int
    var timeInitialized: bool

    function State(): ClockState
      reads this
    {
      ClockState(sunriseTime, sunsetTime, lastTimeUpdate, timeInitialized)
    }

    /** `TimeManager()`: no sun times, never updated, not synchronised. */
    constructor ()
      ensures State() == ClockState(0, 0, 0, false)
    {
      sunriseTime := 0;
      sunsetTime := 0;
      lastTimeUpdate := 0;
      timeInitialized := false;
    }

    /** `begin` after the synchronisation wait (the wait itself is not modelled). */
    method Begin(localDay: Option<int>)
      modifies this
      ensures State() == Begun(old(State()), localDay)
      ensures IsTimeInitialized() <==> localDay.Some?
      ensures localDay.Some? ==>
        GetSunriseTime() == localDay.value + SUNRISE_OFFSET && GetSunsetTime() == localDay.value + SUNSET_OFFSET
    {
      if localDay.Some? {
        timeInitialized := true;
        CalculateSunTimes(localDay);
      } else {
        timeInitialized := false;
      }
    }

    /** `update`: recompute the sun times and remember `now` when the gate is open. */
    method Update(now: int, localDay: Option<int>)
      modifies this
      ensures State() == Updated(old(State()), now, localDay)
      ensures lastTimeUpdate == (if RecomputeDue(old(State()), now) then now else old(lastTimeUpdate))
    {
      if now - lastTimeUpdate > SECONDS_PER_DAY || lastTimeUpdate == 0 {
        CalculateSunTimes(localDay);
        lastTimeUpdate := now;
      }
    }

    /** `calculateSunTimes`: 06:00 and 18:00 of the current local date. */
    method CalculateSunTimes(localDay: Option<int>)
      modifies this
      ensures State() == SunTimesFor(old(State()), localDay)
      ensures localDay == None ==> sunriseTime == old(sunriseTime) && sunsetTime == old(sunsetTime)
      ensures localDay.Some? ==>
        GetSunriseTime() == localDay.value + SUNRISE_OFFSET && GetSunsetTime() == localDay.value + SUNSET_OFFSET
      ensures IsTimeInitialized() == old(IsTimeInitialized())
    {
      if localDay.Some? {
        sunriseTime := localDay.value + SUNRISE_OFFSET;
        sunsetTime := localDay.value + SUNSET_OFFSET;
      }
    }

    /** `getTimeOfDay` at the instant `now`. */
    function GetTimeOfDay(now: int): (t: TimeOfDay)
      reads this
      ensures !timeInitialized ==> t == Day
      ensures timeInitialized ==> t == PeriodAt(now, sunriseTime, sunsetTime)
    {
      TimeOfDayIn(State(), now)
    }

    /** `getSunriseTime`. */
    function GetSunriseTime(): int
      reads this
    {
      sunriseTime
    }

    /** `getSunsetTime`. */
    function GetSunsetTime(): int
      reads this
    {
      sunsetTime
    }

    /** `isTimeInitialized`. */
    function IsTimeInitialized(): bool
      reads this
    {
      timeInitialized
    }
  }

  // ---------------------------------------------------------------------------
  // Properties of the classification

  /** An unsynchronised clock reports day whatever sun times it holds. */
  lemma UnsynchronisedIsDay(c: ClockState, now: int)
    requires !c.timeInitialized
    ensures TimeOfDayIn(c, now) == Day
  {
  }

  /** The boundaries are half-open: each period starts at its own boundary
      instant, and the instant where one ends belongs to the next. */
  lemma BoundariesHalfOpen(sunrise: int, sunset: int)
    ensures PeriodAt(DawnStart(sunrise), sunrise, sunset) == Dawn
    ensures PeriodAt(sunrise - 1, sunrise, sunset) == Dawn
    ensures PeriodAt(sunrise, sunrise, sunset) == Sunrise
    ensures SunriseEnd(sunrise) < sunset ==> PeriodAt(SunriseEnd(sunrise), sunrise, sunset) == Day
    ensures SunriseEnd(sunrise) <= sunset ==>
      PeriodAt(sunset, sunrise, sunset) == Sunset &&
      PeriodAt(SunsetEnd(sunset), sunrise, sunset) == Dusk &&
      PeriodAt(DuskEnd(sunset) - 1, sunrise, sunset) == Dusk &&
      PeriodAt(DuskEnd(sunset), sunrise, sunset) == Night &&
      PeriodAt(DawnStart(sunrise) - 1, sunrise, sunset) == Night
  {
  }

  /** When the sunrise transition ends no later than sunset, the five periods
      are consecutive, disjoint half-open intervals and night is everything
      before dawn or from the end of dusk on. */
  lemma PeriodIntervals(now: int, sunrise: int, sunset: int)
    requires SunriseEnd(sunrise) <= sunset
    ensures var p := PeriodAt(now, sunrise, sunset);
      (p == Dawn <==> DawnStart(sunrise) <= now < sunrise) &&
      (p == Sunrise <==> sunrise <= now < SunriseEnd(sunrise)) &&
      (p == Day <==> SunriseEnd(sunrise) <= now < sunset) &&
      (p == Sunset <==> sunset <= now < SunsetEnd(sunset)) &&
      (p == Dusk <==> SunsetEnd(sunset) <= now < DuskEnd(sunset)) &&
      (p == Night <==> now < DawnStart(sunrise) || DuskEnd(sunset) <= now)
  {
  }

  /** Dusk starts exactly where the sunset transition ends. */
  lemma DuskFollowsSunset(sunset: int)
    ensures DuskEnd(sunset) == SunsetEnd(sunset) + DUSK_DURATION * 60
    ensures sunset < SunsetEnd(sunset) < DuskEnd(sunset)
  {
  }

  /** The placeholder schedule of a local date orders every boundary strictly
      and keeps them all inside that date. */
  lemma ScheduleOrdered(c: ClockState, day: int)
    ensures var s := SunTimesFor(c, Some(day));
      day <= DawnStart(s.sunriseTime) < s.sunriseTime < SunriseEnd(s.sunriseTime) < s.sunsetTime &&
      s.sunsetTime < SunsetEnd(s.sunsetTime) < DuskEnd(s.sunsetTime) < day + SECONDS_PER_DAY
    ensures SunTimesFor(c, Some(day)).sunriseTime - day == 6 * 3600
    ensures SunTimesFor(c, Some(day)).sunsetTime - day == 18 * 3600
  {
  }

  // ---------------------------------------------------------------------------
  // Properties of the recompute gate

  /** Updating again at the same non-zero instant changes nothing. */
  lemma UpdateIdempotent(c: ClockState, now: int, d1: Option<int>, d2: Option<int>)
    requires now != 0
    ensures Updated(Updated(c, now, d1), now, d2) == Updated(c, now, d1)
  {
  }

  /** After a recompute at a non-zero instant `t1`, the next one comes exactly
      when more than a day has passed since `t1`. */
  lemma RecomputesAtMostDaily(c: ClockState, t1: int, t2: int, d1: Option<int>)
    requires RecomputeDue(c, t1) && t1 != 0
    ensures RecomputeDue(Updated(c, t1, d1), t2) <==> t2 - t1 > SECONDS_PER_DAY
  {
  }

  /** A closed gate leaves the whole state alone; an open one never touches the
      synchronisation flag. */
  lemma UpdateFrame(c: ClockState, now: int, d: Option<int>)
    ensures !RecomputeDue(c, now) ==> Updated(c, now, d) == c
    ensures Updated(c, now, d).timeInitialized == c.timeInitialized
  {
  }

  /** Without local time the sun times stay as they were, yet the gate still
      moves its mark to `now`. */
  lemma NoLocalTimeStillAdvances(c: ClockState, now: int)
    requires RecomputeDue(c, now)
    ensures var u := Updated(c, now, None);
      u.sunriseTime == c.sunriseTime && u.sunsetTime == c.sunsetTime && u.lastTimeUpdate == now
  {
  }

  // ---------------------------------------------------------------------------
  // The gate counts elapsed seconds, not calendar dates.

  /** As written: after a recompute at instant `boot` of local date `day`, the
      next date runs on the old schedule until more than a day after `boot`,
      and every instant of it before then is classified as night. Dawn is never
      shown after a boot at 06:00 or later, and sunrise never after a boot at
      06:19:59 or later. */
  lemma {:induction false} StaleScheduleAfterMidnight(c: ClockState, day: int, boot: int, now: int)
    requires c.timeInitialized && boot != 0 && RecomputeDue(c, boot)
    requires day <= boot < day + SECONDS_PER_DAY
    requires day + SECONDS_PER_DAY <= now <= boot + SECONDS_PER_DAY
    ensures var booted := Updated(c, boot, Some(day));
      var later := Updated(booted, now, Some(day + SECONDS_PER_DAY));
      later == booted && TimeOfDayIn(later, now) == Night
  {
    var booted := Updated(c, boot, Some(day));
    ScheduleOrdered(c, day);
    assert booted.sunsetTime == day + SUNSET_OFFSET;
    assert !RecomputeDue(booted, now);
  }

  /** The next date's sunrise instant, 06:00, shown as night under the gate as
      written when the lamp booted at 10:00 the day before. */
  lemma NextSunriseShownAsNight(c: ClockState, day: int)
    requires c.timeInitialized && c.lastTimeUpdate == 0 && day > 0
    ensures var booted := Updated(c, day + 10 * 3600, Some(day));
      var next := day + SECONDS_PER_DAY;
      TimeOfDayIn(Updated(booted, next + SUNRISE_OFFSET, Some(next)), next + SUNRISE_OFFSET) == Night
  {
    StaleScheduleAfterMidnight(c, day, day + 10 * 3600, day + SECONDS_PER_DAY + SUNRISE_OFFSET);
  }

  /** Corrected gate: recompute whenever the stored schedule is not that of the
      current local date (or nothing was ever computed). */
  function UpdatedDaily(c: ClockState, now: int, localDay: Option<int>): ClockState {
    match localDay
    case None => c
    case Some(d) =>
      if c.lastTimeUpdate != 0 && c.sunriseTime == d + SUNRISE_OFFSET && c.sunsetTime == d + SUNSET_OFFSET then c
      else SunTimesFor(c, localDay).(lastTimeUpdate := now)
  }

  /** With the corrected gate the schedule in use is always the current date's,
      so every date shows its own dawn and sunrise; repeating the update within
      the date changes nothing. */
  lemma DailyScheduleIsToday(c: ClockState, now: int, day: int)
    requires c.timeInitialized && now != 0
    ensures var u := UpdatedDaily(c, now, Some(day));
      u.sunriseTime == day + SUNRISE_OFFSET && u.sunsetTime == day + SUNSET_OFFSET &&
      TimeOfDayIn(u, day + SUNRISE_OFFSET) == Sunrise &&
      TimeOfDayIn(u, DawnStart(day + SUNRISE_OFFSET)) == Dawn &&
      UpdatedDaily(u, now, Some(day)) == u
  {
  }
}
