/** The daily report window (bot.py `_today_range`) and the bounds the
    message-history query is run with (`check_reports`).

    Local time is Korea Standard Time, a fixed UTC+9 offset without daylight
    saving, so a local date-time is a day number (consecutive integers for
    consecutive calendar days) with hour, minute, second and microsecond, and
    an instant is the number of microseconds on that local time line. */
module ReportWindow {
  import opened Wrappers

  const MicrosPerSecond: int := 1_000_000

  /** The window opens at 18:00:00.000000 and closes at 23:59:59.000000. */
  const OpenHour: int := 18
  const CloseHour: int := 23
  const CloseMinute: int := 59
  const CloseSecond: int := 59
  /** Before this local hour the previous evening's window is checked. */
  const LookBackBeforeHour: int := 6

  datatype LocalDateTime = LocalDateTime(day: int, hour: int, minute: int, second: int, microsecond: int)
  {
    /** The field ranges every Python `datetime` satisfies. */
    predicate Valid()
    {
      0 <= hour < 24 && 0 <= minute < 60 && 0 <= second < 60 && 0 <= microsecond < MicrosPerSecond
    }

    function Instant(): int
    {
      (((day * 24 + hour) * 60 + minute) * 60 + second) * MicrosPerSecond + microsecond
    }
  }

  datatype Window = Window(start: LocalDateTime, end: LocalDateTime)

  /** The bounds handed to the history query: messages strictly after `after`
      and strictly before `before` are read. */
  datatype Bounds = Bounds(after: int, before: int)

  /** `_today_range()` at local time `now`: 18:00:00 to 23:59:59 of `now`'s
      calendar day, or of the day before when `now` is before 06:00. The
      window lies on one day and is 5 h 59 min 59 s long. */
  function TodayRange(now: LocalDateTime): (w: Window)
    requires now.Valid()
    ensures w.start.Valid() && w.end.Valid()
    ensures w.start == LocalDateTime(w.start.day, OpenHour, 0, 0, 0)
    ensures w.end == LocalDateTime(w.start.day, CloseHour, CloseMinute, CloseSecond, 0)
    ensures w.start.Instant() < w.end.Instant()
    ensures w.end.Instant() - w.start.Instant() == (5 * 3600 + 59 * 60 + 59) * MicrosPerSecond
  {
    var start := LocalDateTime(now.day, OpenHour, 0, 0, 0);
    var end := LocalDateTime(now.day, CloseHour, CloseMinute, CloseSecond, 0);
    if now.hour < LookBackBeforeHour then
      Window(start.(day := start.day - 1), end.(day := end.day - 1))
    else
      Window(start, end)
  }

  /** The window's day is the one whose 06:00 is the latest 06:00 not after
      `now`: before 06:00 it is the previous calendar day, from 06:00 on
      (06:00:00 itself included) it is `now`'s own day. */
  lemma TodayRangeDay(now: LocalDateTime)
    requires now.Valid()
    ensures var d := TodayRange(now).start.day;
      LocalDateTime(d, LookBackBeforeHour, 0, 0, 0).Instant() <= now.Instant() <
      LocalDateTime(d + 1, LookBackBeforeHour, 0, 0, 0).Instant()
    ensures now.hour < LookBackBeforeHour ==> TodayRange(now).start.day == now.day - 1
    ensures now.hour >= LookBackBeforeHour ==> TodayRange(now).start.day == now.day
  {
  }

  /** A check run before 06:00 looks at a window that is already over. */
  lemma EarlyMorningWindowIsPast(now: LocalDateTime)
    requires now.Valid() && now.hour < LookBackBeforeHour
    ensures TodayRange(now).end.Instant() < now.Instant()
  {
  }

  /** The scheduled run at 00:05 checks the evening that has just ended. */
  lemma ScheduledRunChecksPreviousEvening(now: LocalDateTime)
    requires now.Valid() && now.hour == 0 && now.minute == 5
    ensures TodayRange(now) ==
      Window(LocalDateTime(now.day - 1, 18, 0, 0, 0), LocalDateTime(now.day - 1, 23, 59, 59, 0))
  {
  }

  /** Two times whose window days agree get the same window. */
  lemma TodayRangeDependsOnlyOnDay(a: LocalDateTime, b: LocalDateTime)
    requires a.Valid() && b.Valid()
    requires TodayRange(a).start.day == TodayRange(b).start.day
    ensures TodayRange(a) == TodayRange(b)
  {
  }

  function WindowBounds(w: Window): Bounds
  {
    Bounds(w.start.Instant(), w.end.Instant())
  }

  /** The report check's optional window overrides: the given bounds are used only
      when both are given; if either is missing, today's window replaces both. */
  function EffectiveBounds(customStart: Option<int>, customEnd: Option<int>, now: LocalDateTime): (b: Bounds)
    requires now.Valid()
    ensures customStart.Some? && customEnd.Some? ==> b == Bounds(customStart.value, customEnd.value)
    ensures customStart.None? || customEnd.None? ==> b == WindowBounds(TodayRange(now))
    ensures customStart.None? || customEnd.None? ==> b.after < b.before
  {
    if customStart.None? || customEnd.None? then WindowBounds(TodayRange(now))
    else Bounds(customStart.value, customEnd.value)
  }

  /** A single override, without its partner, is ignored altogether. */
  lemma LoneOverrideIgnored(custom: int, now: LocalDateTime)
    requires now.Valid()
    ensures EffectiveBounds(Some(custom), None, now) == WindowBounds(TodayRange(now))
    ensures EffectiveBounds(None, Some(custom), now) == WindowBounds(TodayRange(now))
  {
  }

  /** Strict bounds: the closing instant 23:59:59.000000 itself, and the rest
      of that last second up to midnight, are outside the default window. */
  lemma LastSecondOutsideWindow(now: LocalDateTime, t: LocalDateTime)
    requires now.Valid() && t.Valid()
    requires t.day == TodayRange(now).start.day && t.hour == 23 && t.minute == 59 && t.second == 59
    ensures !(WindowBounds(TodayRange(now)).after < t.Instant() < WindowBounds(TodayRange(now)).before)
  {
  }
}
