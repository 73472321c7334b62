/**
 * The day boundary that track naming and the midnight split are measured against.
 * Times are epoch milliseconds; `offset` is the local zone's offset from UTC in
 * milliseconds (daylight-saving changes within a day are not modelled).
 */
module DayClock {
  const Second: int := 1_000
  const Minute: int := 60_000
  const Hour: int := 3_600_000
  const HalfDay: int := 43_200_000
  const Day: int := 86_400_000

  /** The local midnight that begins the day containing `now`: the boundary startTrack means to compute. */
  function Midnight(now: int, offset: int): (r: int)
    ensures r <= now < r + Day
    ensures (r + offset) % Day == 0
  {
    now - (now + offset) % Day
  }

  /** The milliseconds of the whole seconds elapsed in the current minute of local time `local`:
      what a Calendar keeps when SECOND is not cleared but MILLISECOND is. */
  function SecondsIntoMinute(local: int): (r: int)
    ensures 0 <= r <= local % Minute < Minute
    ensures r % Second == 0
  {
    local % Minute / Second * Second
  }

  /** A minute divides a half-day, so the minute within the half-day is the minute of the day. */
  lemma MinuteWithinHalfDay(local: int)
    ensures local % HalfDay % Minute == local % Minute
  {
    var q, h := local / HalfDay, local % HalfDay;
    var a, b := h / Minute, h % Minute;
    assert h == a * Minute + b;
    assert local == q * HalfDay + h;
    var k := q * 720 + a;
    assert local == k * Minute + b;
    assert local / Minute == k;
  }

  /**
   * What startTrack's Calendar code computes AS WRITTEN: it clears Calendar.HOUR, the
   * 12-hour field, so AM_PM survives and an afternoon instant goes back to noon; it clears
   * MINUTE and MILLISECOND but never SECOND, so the current second survives too.
   */
  function CalendarDayStart(now: int, offset: int): (r: int)
    ensures r <= now < r + HalfDay
    ensures (r + offset) % HalfDay == SecondsIntoMinute(now + offset)
    ensures now - r == (now + offset) % HalfDay - SecondsIntoMinute(now + offset)
  {
    var local := now + offset;
    var sinceHalfDay := local % HalfDay;
    var seconds := SecondsIntoMinute(local);
    MinuteWithinHalfDay(local);
    assert (now - sinceHalfDay + seconds + offset) % HalfDay == seconds by {
      assert now - sinceHalfDay + seconds + offset == local / HalfDay * HalfDay + seconds;
    }
    now - sinceHalfDay + seconds
  }

  /** The next local midnight strictly after `now`: where the split alarm is meant to fire. */
  lemma NextMidnightIsAfterNow(now: int, offset: int)
    ensures now < Midnight(now, offset) + Day <= now + Day
    ensures (Midnight(now, offset) + Day + offset) % Day == 0
  {
  }

  /** In the afternoon, the time since the half-day began is the time since noon. */
  lemma AfternoonHalfDay(local: int)
    requires local % Day >= HalfDay
    ensures local % HalfDay == local % Day - HalfDay
  {
    assert local == (2 * (local / Day) + 1) * HalfDay + (local % Day - HalfDay);
  }

  /**
   * Any afternoon instant: the as-written boundary lies at least twelve hours after the
   * local midnight, so every track that ended that morning counts as "before today".
   */
  lemma CalendarDayStartMissesMorning(now: int, offset: int)
    requires (now + offset) % Day >= HalfDay
    ensures CalendarDayStart(now, offset) >= Midnight(now, offset) + HalfDay
  {
    AfternoonHalfDay(now + offset);
  }

  /** One concrete afternoon: 15:30:42 UTC. The as-written boundary is 12:00:42, not 00:00:00. */
  lemma AfternoonBoundaryIsNoon()
    ensures CalendarDayStart(15 * Hour + 30 * Minute + 42 * Second, 0) == 12 * Hour + 42 * Second
    ensures Midnight(15 * Hour + 30 * Minute + 42 * Second, 0) == 0
  {
  }
}
