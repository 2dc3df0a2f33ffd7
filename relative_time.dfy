/**
 * `formatRelativeTime` and the past-due test, written identically in
 * `src/components/ScheduledPostsTable.tsx` and
 * `src/components/ScheduledPostsManager.tsx`: the time until a publish date
 * in whole minutes, hours or days, floored, or 'Past due'. The clock reading
 * is a parameter.
 */
module RelativeTime {
  import opened Builtins

  datatype Unit = Minute | Hour | Day

  /** What the formatter says: past due, or a count of units. */
  datatype Relative = PastDue | In(count: Num, unit: Unit)

  const MinuteMs: int := 60000
  const HourMs: int := 3600000
  const DayMs: int := 86400000

  /** `date.getTime() - now.getTime()`; NaN for an invalid date. */
  function DiffMs(date: Date, now: int): (r: Num)
    ensures r.N? <==> date.At?
  {
    if date.At? then N(date.ms - now) else NaN
  }

  /**
   * The branches of the formatter. A negative difference is past due; a
   * non-negative one is counted in the largest unit below its next bound:
   * minutes below an hour, hours below a day, days beyond. NaN fails every
   * comparison and falls through to the day branch.
   */
  function Classify(diff: Num): (r: Relative)
    ensures r.PastDue? <==> diff.N? && diff.v < 0
    ensures diff.NaN? ==> r == In(NaN, Day)
    ensures diff.N? && diff.v >= 0 ==> r.In? && r.count.N?
    ensures diff.N? && diff.v >= 0 ==> (r.unit == Minute <==> diff.v < HourMs)
    ensures diff.N? && diff.v >= 0 ==> (r.unit == Hour <==> HourMs <= diff.v < DayMs)
    ensures diff.N? && diff.v >= 0 ==> (r.unit == Day <==> DayMs <= diff.v)
    ensures diff.N? && diff.v >= 0 && r.unit == Minute ==>
      r.count.v * MinuteMs <= diff.v < r.count.v * MinuteMs + MinuteMs && r.count.v < 60
    ensures diff.N? && diff.v >= 0 && r.unit == Hour ==>
      r.count.v * HourMs <= diff.v < r.count.v * HourMs + HourMs && 1 <= r.count.v < 24
    ensures diff.N? && diff.v >= 0 && r.unit == Day ==>
      r.count.v * DayMs <= diff.v < r.count.v * DayMs + DayMs && 1 <= r.count.v
  {
    match diff
    case NaN => In(NaN, Day)
    case N(d) =>
      if d < 0 then PastDue
      else if d / MinuteMs < 60 then In(N(d / MinuteMs), Minute)
      else if d / HourMs < 24 then In(N(d / HourMs), Hour)
      else In(N(d / DayMs), Day)
  }

  function UnitName(u: Unit): string {
    match u
    case Minute => "min"
    case Hour => "hour"
    case Day => "day"
  }

  /** The text: 'Past due', or `in <count> <unit>` with an `s` unless the count is 1. */
  function Text(r: Relative): string {
    match r
    case PastDue => "Past due"
    case In(c, u) => "in " + NumToString(c) + " " + UnitName(u) + (if c != N(1) then "s" else "")
  }

  function FormatRelativeTime(date: Date, now: int): string {
    Text(Classify(DiffMs(date, now)))
  }

  /** The text is 'Past due' exactly when the date lies before now. */
  lemma PastDueExactlyBefore(date: Date, now: int)
    ensures FormatRelativeTime(date, now) == "Past due" <==> date.At? && date.ms < now
  {
    var r := Classify(DiffMs(date, now));
    if r.In? {
      assert Text(r)[0] == 'i';
      assert "Past due"[0] == 'P';
    }
  }

  /** A count of units reads in the plural exactly when the count is not 1. */
  lemma PluralUnlessOne(c: Num, u: Unit)
    ensures var t := Text(In(c, u));
      t[|t| - 1] == 's' <==> c != N(1)
  {
  }

  /** No time left reads as `in 0 mins`. */
  lemma NowIsZeroMinutes(now: int)
    ensures FormatRelativeTime(At(now), now) == "in 0 mins"
  {
    assert NumToString(N(0)) == "0";
  }

  /** The minute form is singular exactly when the floored minute count is 1. */
  lemma OneMinute(date: Date, now: int)
    requires date.At? && now <= date.ms < now + HourMs
    ensures Classify(DiffMs(date, now)) == In(N(1), Minute) <==> now + MinuteMs <= date.ms < now + 2 * MinuteMs
  {
  }

  /** The past-due badge: a scheduled post whose publish time is before now. */
  predicate IsPastDue(status: string, publishAt: Date, now: int) {
    status == "scheduled" && DateLess(publishAt, At(now))
  }

  /** The badge and the text agree on a scheduled post. */
  lemma PastDueBadgeAgrees(status: string, publishAt: Date, now: int)
    requires status == "scheduled"
    ensures IsPastDue(status, publishAt, now) <==> FormatRelativeTime(publishAt, now) == "Past due"
  {
    PastDueExactlyBefore(publishAt, now);
  }

  /**
   * The card reads the clock once for the badge and once more, later, for the
   * text. A badge seen at `marked` is always matched by 'Past due' at
   * `formatted`; the text says 'Past due' without the badge exactly when the
   * publish time falls between the two readings.
   */
  lemma PastDueBadgeTwoReadings(status: string, publishAt: Date, marked: int, formatted: int)
    requires status == "scheduled" && marked <= formatted
    ensures IsPastDue(status, publishAt, marked) ==> FormatRelativeTime(publishAt, formatted) == "Past due"
    ensures (FormatRelativeTime(publishAt, formatted) == "Past due" && !IsPastDue(status, publishAt, marked))
        <==> publishAt.At? && marked <= publishAt.ms < formatted
  {
    PastDueExactlyBefore(publishAt, formatted);
  }
}
