/** Calendar values as the dashboard sees them after the log's epoch seconds
    have been converted: proleptic Gregorian dates, whole-second timestamps,
    the time resolutions of the downloads plot and the rule that maps a date
    to the start of its resolution period. */
module Calendar {
  import Grouping

  datatype Date = Date(year: int, month: int, day: int)

  predicate IsLeapYear(year: int) {
    year % 4 == 0 && (year % 100 != 0 || year % 400 == 0)
  }

  function DaysInMonth(year: int, month: int): (n: int)
    requires 1 <= month <= 12
    ensures 28 <= n <= 31
    ensures n == 28 <==> month == 2 && !IsLeapYear(year)
    ensures n == 29 <==> month == 2 && IsLeapYear(year)
    ensures n == 30 <==> month == 4 || month == 6 || month == 9 || month == 11
  {
    if month == 2 then (if IsLeapYear(year) then 29 else 28)
    else if month == 4 || month == 6 || month == 9 || month == 11 then 30
    else 31
  }

  /** A date Python's `datetime.date` accepts. */
  predicate ValidDate(d: Date) {
    && 1 <= d.year <= 9999
    && 1 <= d.month <= 12
    && 1 <= d.day <= DaysInMonth(d.year, d.month)
  }

  /** Chronological order of dates: by year, then month, then day. */
  predicate DateLess(a: Date, b: Date) {
    || a.year < b.year
    || (a.year == b.year && a.month < b.month)
    || (a.year == b.year && a.month == b.month && a.day < b.day)
  }

  lemma DateLessIsStrictTotalOrder()
    ensures Grouping.StrictTotalOrder(DateLess)
  {
  }

  /** A point in time to the second, as `pd.to_datetime(..., unit='s')`
      yields it, split into its calendar fields. */
  datatype Timestamp = Timestamp(date: Date, hour: int, minute: int, second: int)

  predicate ValidTimestamp(t: Timestamp) {
    && ValidDate(t.date)
    && 0 <= t.hour < 24
    && 0 <= t.minute < 60
    && 0 <= t.second < 60
  }

  predicate TimestampLess(a: Timestamp, b: Timestamp) {
    || DateLess(a.date, b.date)
    || (a.date == b.date && a.hour < b.hour)
    || (a.date == b.date && a.hour == b.hour && a.minute < b.minute)
    || (a.date == b.date && a.hour == b.hour && a.minute == b.minute && a.second < b.second)
  }

  /** The instant a date stands for when it is compared with a timestamp. */
  function Midnight(d: Date): Timestamp {
    Timestamp(d, 0, 0, 0)
  }

  predicate AtMidnight(t: Timestamp) {
    t.hour == 0 && t.minute == 0 && t.second == 0
  }

  /** Comparing a timestamp with a date compares it with that date's
      midnight: the timestamp is at or after it exactly when its date is on
      or after the date, and at or before it exactly when its date is
      earlier, or the same date at 00:00:00. */
  lemma AgainstMidnight(t: Timestamp, d: Date)
    requires ValidTimestamp(t)
    ensures !TimestampLess(t, Midnight(d)) <==> !DateLess(t.date, d)
    ensures !TimestampLess(Midnight(d), t) <==> DateLess(t.date, d) || (t.date == d && AtMidnight(t))
  {
  }

  /** The earliest of a non-empty list of timestamps (`Series.min()`). */
  function Earliest(ts: seq<Timestamp>): (m: Timestamp)
    requires |ts| > 0
    ensures m in ts
    ensures forall t :: t in ts ==> !TimestampLess(t, m)
  {
    if |ts| == 1 then ts[0]
    else
      var rest := Earliest(ts[1..]);
      assert forall t :: t in ts ==> t == ts[0] || t in ts[1..];
      if TimestampLess(ts[0], rest) then ts[0] else rest
  }

  /** The latest of a non-empty list of timestamps (`Series.max()`). */
  function Latest(ts: seq<Timestamp>): (m: Timestamp)
    requires |ts| > 0
    ensures m in ts
    ensures forall t :: t in ts ==> !TimestampLess(m, t)
  {
    if |ts| == 1 then ts[0]
    else
      var rest := Latest(ts[1..]);
      assert forall t :: t in ts ==> t == ts[0] || t in ts[1..];
      if TimestampLess(rest, ts[0]) then ts[0] else rest
  }

  /** Granularity of the downloads time series. */
  datatype Resolution = Daily | Monthly | Yearly

  /** The date a resolution files a date under: the date itself, the first
      of its month, or the first of its year. */
  function Bucket(r: Resolution, d: Date): (b: Date)
    ensures b.year == d.year
    ensures ValidDate(d) ==> ValidDate(b) && !DateLess(d, b)
  {
    match r
    case Daily => d
    case Monthly => Date(d.year, d.month, 1)
    case Yearly => Date(d.year, 1, 1)
  }

  /** Two dates share a bucket exactly when they agree on the fields the
      resolution keeps. */
  lemma SameBucket(r: Resolution, d: Date, e: Date)
    ensures Bucket(r, d) == Bucket(r, e) <==>
      match r
      case Daily => d == e
      case Monthly => d.year == e.year && d.month == e.month
      case Yearly => d.year == e.year
  {
  }

  /** A bucket lies in its own bucket, and it is the earliest valid date
      there: bucketing is a projection onto period starts. */
  lemma BucketIsPeriodStart(r: Resolution, d: Date, e: Date)
    requires ValidDate(e) && Bucket(r, e) == Bucket(r, d)
    ensures Bucket(r, Bucket(r, d)) == Bucket(r, d)
    ensures !DateLess(e, Bucket(r, d))
  {
  }

  /** Bucketing preserves chronological order (not strictly: it may merge). */
  lemma BucketMonotone(r: Resolution, d: Date, e: Date)
    requires !DateLess(e, d)
    ensures !DateLess(Bucket(r, e), Bucket(r, d))
  {
  }
}
