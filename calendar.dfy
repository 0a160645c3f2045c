/**
 * The `Calendar.current` arithmetic the view models use, over whole-second dates and
 * days of a fixed 86400 seconds in one time zone.
 */
module Calendar {
  import opened Foundation

  const SECONDS_PER_DAY: int := 86400

  /** The midnight that starts the day of `d`. */
  function StartOfDay(d: Date): (r: Date)
    ensures r <= d < r + SECONDS_PER_DAY
    ensures r % SECONDS_PER_DAY == 0
  {
    d - d % SECONDS_PER_DAY
  }

  /** The second within its day. */
  function SecondOfDay(d: Date): (r: int)
    ensures 0 <= r < SECONDS_PER_DAY
    ensures d == StartOfDay(d) + r
  {
    d % SECONDS_PER_DAY
  }

  /** `isDate(_:inSameDayAs:)`. */
  predicate SameDay(a: Date, b: Date) {
    StartOfDay(a) == StartOfDay(b)
  }

  /** `date(bySettingHour:minute:second:of:)`, or `date(from:)` on the day's components plus a time. */
  function AtTime(d: Date, hour: int, minute: int, second: int): (r: Date)
    requires 0 <= hour < 24 && 0 <= minute < 60 && 0 <= second < 60
    ensures SameDay(r, d)
    ensures SecondOfDay(r) == hour * 3600 + minute * 60 + second
  {
    var r := StartOfDay(d) + hour * 3600 + minute * 60 + second;
    assert StartOfDay(r) == StartOfDay(d) by {
      DayOf(StartOfDay(d), hour * 3600 + minute * 60 + second);
    }
    r
  }

  lemma DayOf(midnight: Date, offset: int)
    requires midnight % SECONDS_PER_DAY == 0 && 0 <= offset < SECONDS_PER_DAY
    ensures StartOfDay(midnight + offset) == midnight
    ensures SecondOfDay(midnight + offset) == offset
  {
    var q := midnight / SECONDS_PER_DAY;
    assert midnight == q * SECONDS_PER_DAY;
    assert midnight + offset == q * SECONDS_PER_DAY + offset;
    assert (midnight + offset) % SECONDS_PER_DAY == offset;
  }

  /** 23:59:59 of the day of `d`, the latest second of that day. */
  function EndOfDay(d: Date): (r: Date)
    ensures SameDay(r, d) && d <= r
    ensures forall x :: SameDay(x, d) ==> x <= r
  {
    AtTime(d, 23, 59, 59)
  }

  /** `dateComponents([.day], from: a, to: b).day`: whole days elapsed, truncated toward zero. */
  function DaysBetween(a: Date, b: Date): int {
    if a <= b then (b - a) / SECONDS_PER_DAY else -((a - b) / SECONDS_PER_DAY)
  }
}
