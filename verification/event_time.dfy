/** The instants a reminder is built from: the event instant, combined from
    the calendar day and the picked time, and the alarm instant a fixed lead
    before it. All instants are integer milliseconds since the epoch; a
    local time zone is a fixed offset from UTC in milliseconds. */
module EventTime {

  /** Milliseconds since 1970-01-01T00:00:00Z, the value of a JavaScript `Date`. */
  type Instant = int

  /** A calendar day, counted in days from 1970-01-01; the reminder screen
      keys its task lists by the day's 'YYYY-MM-DD' string. */
  type Day = int

  /** How far local wall-clock time is ahead of UTC, in milliseconds. */
  type UtcOffset = int

  const MsPerDay: int := 24 * 60 * 60 * 1000

  /** The alarm goes off fifteen minutes before the event. */
  const LeadMs: int := 15 * 60 * 1000

  /** The UTC time of day of an instant, in milliseconds: the
      `HH:mm:ss.sssZ` part of `toISOString()`. */
  function UtcTimeOfDay(time: Instant): (ms: int)
    ensures 0 <= ms < MsPerDay
    ensures (time - ms) % MsPerDay == 0
  {
    time % MsPerDay
  }

  /** The local wall-clock time of day of an instant, in milliseconds. */
  function LocalTimeOfDay(time: Instant, zone: UtcOffset): (ms: int)
    ensures 0 <= ms < MsPerDay
    ensures (time + zone - ms) % MsPerDay == 0
  {
    (time + zone) % MsPerDay
  }

  /** At instant `t` a wall clock `zone` ahead of UTC shows day `date` at
      time of day `ms`. */
  predicate LocalClockShows(t: Instant, zone: UtcOffset, date: Day, ms: int) {
    (t + zone) / MsPerDay == date && (t + zone) % MsPerDay == ms
  }

  /** The instant `${date}T${time.toISOString().split('T')[1]}` denotes: the
      string ends in 'Z', so it is read as UTC, on the picked day at the UTC
      time of day of the picked time. */
  function EventInstantAsWritten(date: Day, time: Instant): (t: Instant)
    ensures t / MsPerDay == date
    ensures t % MsPerDay == UtcTimeOfDay(time)
  {
    date * MsPerDay + UtcTimeOfDay(time)
  }

  /** The instant at which a local wall clock shows day `date` and the same
      time of day as the picked time shows on it: the event the user chose. */
  function EventInstant(date: Day, time: Instant, zone: UtcOffset): (t: Instant)
    ensures (t + zone) / MsPerDay == date
    ensures (t + zone) % MsPerDay == LocalTimeOfDay(time, zone)
  {
    date * MsPerDay + LocalTimeOfDay(time, zone) - zone
  }

  /** In UTC the corrected instant is the instant as written. */
  lemma EventInstantInUtc(date: Day, time: Instant)
    ensures EventInstant(date, time, 0) == EventInstantAsWritten(date, time)
  {
  }

  /** The instant as written is the intended one exactly when the picked
      time falls on the same day in UTC as on the local wall clock. */
  lemma AsWrittenAgreesIffSameDay(date: Day, time: Instant, zone: UtcOffset)
    ensures EventInstantAsWritten(date, time) == EventInstant(date, time, zone)
      <==> time / MsPerDay == (time + zone) / MsPerDay
  {
    var d1, d2 := time / MsPerDay, (time + zone) / MsPerDay;
    assert time == d1 * MsPerDay + time % MsPerDay;
    assert time + zone == d2 * MsPerDay + (time + zone) % MsPerDay;
    assert EventInstant(date, time, zone) - EventInstantAsWritten(date, time)
      == (d1 - d2) * MsPerDay;
  }

  /** Five hours behind UTC, a reminder picked for 20:00 on day 0 is picked
      at 01:00 UTC of day 1; the instant as written is 01:00 UTC of day 0,
      which the local clock shows as 20:00 of day -1: a day early. */
  lemma AsWrittenIsADayEarlyWestOfUtc()
    ensures var zone, time := -5 * 3600000, 25 * 3600000;
      && LocalTimeOfDay(time, zone) == 20 * 3600000
      && EventInstantAsWritten(0, time) == EventInstant(0, time, zone) - MsPerDay
      && (EventInstantAsWritten(0, time) + zone) / MsPerDay == -1
  {
  }

  /** Two hours ahead of UTC, a reminder picked for 01:00 on day 0 is picked
      at 23:00 UTC of day -1; the instant as written is 23:00 UTC of day 0,
      which the local clock shows as 01:00 of day 1: a day late. */
  lemma AsWrittenIsADayLateEastOfUtc()
    ensures var zone, time := 2 * 3600000, -3600000;
      && LocalTimeOfDay(time, zone) == 3600000
      && EventInstantAsWritten(0, time) == EventInstant(0, time, zone) + MsPerDay
      && (EventInstantAsWritten(0, time) + zone) / MsPerDay == 1
  {
  }
}
