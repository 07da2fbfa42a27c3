/** The current NFL week, computed from the clock reading and the season start, both in
    milliseconds since the epoch. */
module WeekUtils {

  const MsPerDay: int := 1000 * 60 * 60 * 24
  const FirstWeek: int := 1
  const LastWeek: int := 18

  function Min(a: int, b: int): int { if a <= b then a else b }
  function Max(a: int, b: int): int { if a >= b then a else b }

  /** Week for a whole number of days since the season start: one week per seven days,
      clamped to 1..18. */
  function WeekFromDays(days: int): (week: int)
    ensures FirstWeek <= week <= LastWeek
  {
    Min(Max(days / 7 + 1, FirstWeek), LastWeek)
  }

  /** `getCurrentNFLWeek` with `now` as a parameter. The elapsed time is floored to whole
      days; Dafny's `/` with a positive divisor is the floor, as `Math.floor` is. */
  function CurrentNFLWeek(now: int, seasonStart: int): (week: int)
    ensures FirstWeek <= week <= LastWeek
    ensures now < seasonStart ==> week == FirstWeek
  {
    if now < seasonStart then FirstWeek
    else WeekFromDays((now - seasonStart) / MsPerDay)
  }

  /** During the eighteen weeks the week is the number of completed weeks plus one. */
  lemma WeekDuringSeason(days: int)
    requires 0 <= days <= 118
    ensures WeekFromDays(days) == days / 7 + 1
  {
  }

  /** From day 119 on the week stays at 18. */
  lemma WeekAfterSeason(days: int)
    requires days >= 119
    ensures WeekFromDays(days) == LastWeek
  {
  }

  /** For a non-negative day count the lower clamp never changes the result. */
  lemma LowerClampRedundant(days: int)
    requires days >= 0
    ensures WeekFromDays(days) == Min(days / 7 + 1, LastWeek)
  {
  }

  /** Whole days elapsed never decrease as time passes. */
  lemma ElapsedDaysMonotone(a: int, b: int)
    requires a <= b
    ensures a / MsPerDay <= b / MsPerDay
  {
  }

  lemma WeekFromDaysMonotone(d1: int, d2: int)
    requires d1 <= d2
    ensures WeekFromDays(d1) <= WeekFromDays(d2)
  {
  }

  /** The week never goes backwards as time passes. */
  lemma CurrentNFLWeekMonotone(now1: int, now2: int, seasonStart: int)
    requires now1 <= now2
    ensures CurrentNFLWeek(now1, seasonStart) <= CurrentNFLWeek(now2, seasonStart)
  {
    if now1 >= seasonStart {
      ElapsedDaysMonotone(now1 - seasonStart, now2 - seasonStart);
      WeekFromDaysMonotone((now1 - seasonStart) / MsPerDay, (now2 - seasonStart) / MsPerDay);
    }
  }

  /** On the clock: the week is the number of whole days elapsed, divided by seven, plus one,
      until it reaches 18. */
  lemma CurrentNFLWeekFromElapsedDays(now: int, seasonStart: int)
    requires now >= seasonStart
    ensures var days := (now - seasonStart) / MsPerDay;
            CurrentNFLWeek(now, seasonStart) == if days <= 118 then days / 7 + 1 else LastWeek
  {
  }
}
