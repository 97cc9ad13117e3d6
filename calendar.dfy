/** `System.DateTime` as the services use it: construction from a year and
    a month (`new DateTime(year, month, 1)`), `AddMonths`, `AddDays(-1)`
    and comparison. A value is a calendar date of the proleptic Gregorian
    calendar plus a time of day counted in 100-nanosecond ticks. */
module Calendar {
  import opened Wrappers

  /** 100-nanosecond ticks in one day (`TimeSpan.TicksPerDay`). */
  const TicksPerDay: int := 864_000_000_000

  predicate IsLeapYear(y: int) {
    y % 4 == 0 && (y % 100 != 0 || y % 400 == 0)
  }

  /** `DateTime.DaysInMonth`. */
  function DaysInMonth(y: int, m: int): (n: int)
    requires 1 <= m <= 12
    ensures 28 <= n <= 31
    ensures n == 29 <==> m == 2 && IsLeapYear(y)
  {
    if m == 2 then (if IsLeapYear(y) then 29 else 28)
    else if m == 4 || m == 6 || m == 9 || m == 11 then 30
    else 31
  }

  datatype Moment = Moment(year: int, month: int, day: int, tick: int)

  predicate ValidMoment(d: Moment) {
    1 <= d.month <= 12 && 1 <= d.day <= DaysInMonth(d.year, d.month) && 0 <= d.tick < TicksPerDay
  }

  type DateTime = d: Moment | ValidMoment(d) witness Moment(2000, 1, 1, 0)

  /** The number of the month counted from January of year 0. */
  function MonthIndex(d: DateTime): int {
    d.year * 12 + (d.month - 1)
  }

  /** A position on the time line: months of 31 days, days of TicksPerDay
      ticks. It has gaps after short months but preserves the order. */
  function Ordinal(d: DateTime): int {
    (MonthIndex(d) * 31 + (d.day - 1)) * TicksPerDay + d.tick
  }

  /** `a <= b` on DateTime. */
  predicate AtOrBefore(a: DateTime, b: DateTime) {
    Ordinal(a) <= Ordinal(b)
  }

  /** `lo <= d && d <= hi`: both bounds included, as in the services' filters. */
  predicate InRange(d: DateTime, lo: DateTime, hi: DateTime) {
    AtOrBefore(lo, d) && AtOrBefore(d, hi)
  }

  /** Comparing two numbers written in a mixed radix compares the high digit
      first and the low digit only when the high digits agree. */
  lemma MixedRadix(q1: int, r1: int, q2: int, r2: int, k: int)
    requires k > 0 && 0 <= r1 < k && 0 <= r2 < k
    ensures q1 * k + r1 <= q2 * k + r2 <==> q1 < q2 || (q1 == q2 && r1 <= r2)
  {
    if q1 < q2 {
      StepsApart(q1, q2, k);
    } else if q1 > q2 {
      StepsApart(q2, q1, k);
    }
  }

  /** A larger high digit is at least one whole step of `k` further on. */
  lemma StepsApart(a: int, b: int, k: int)
    requires a < b && k > 0
    ensures a * k + k <= b * k
  {
    var d := b - a;
    assert b * k == a * k + d * k;
    PositiveMultiple(d, k);
  }

  lemma {:induction false} PositiveMultiple(d: int, k: int)
    requires d >= 1 && k > 0
    ensures d * k >= k
    decreases d
  {
    if d > 1 {
      PositiveMultiple(d - 1, k);
      assert d * k == (d - 1) * k + k;
    }
  }

  /** The order is the chronological one: year, then month, then day, then
      time of day. */
  lemma AtOrBeforeIsChronological(a: DateTime, b: DateTime)
    ensures AtOrBefore(a, b) <==>
      a.year < b.year
      || (a.year == b.year && a.month < b.month)
      || (a.year == b.year && a.month == b.month && a.day < b.day)
      || (a.year == b.year && a.month == b.month && a.day == b.day && a.tick <= b.tick)
  {
    MixedRadix(MonthIndex(a) * 31 + (a.day - 1), a.tick, MonthIndex(b) * 31 + (b.day - 1), b.tick, TicksPerDay);
    MixedRadix(MonthIndex(a), a.day - 1, MonthIndex(b), b.day - 1, 31);
    MixedRadix(a.year, a.month - 1, b.year, b.month - 1, 12);
  }

  /** `new DateTime(year, month, 1)`: midnight of the first day, or an
      ArgumentOutOfRangeException when the month is not 1..12. */
  function MonthStart(year: int, month: int): (r: Result<DateTime>)
    ensures r.Ok? <==> 1 <= month <= 12
    ensures r.Ok? ==> r.value.year == year && r.value.month == month && r.value.day == 1 && r.value.tick == 0
  {
    if 1 <= month <= 12 then Ok(Moment(year, month, 1, 0)) else Err(InvalidArgument)
  }

  /** `d.AddMonths(n)`: moves the month, keeps the time of day, and clamps the
      day to the length of the target month. */
  function AddMonths(d: DateTime, n: int): (r: DateTime)
    ensures MonthIndex(r) == MonthIndex(d) + n
    ensures r.day == if d.day <= DaysInMonth(r.year, r.month) then d.day else DaysInMonth(r.year, r.month)
    ensures r.tick == d.tick
  {
    var total := MonthIndex(d) + n;
    var y, m := total / 12, total % 12 + 1;
    var last := DaysInMonth(y, m);
    Moment(y, m, if d.day <= last then d.day else last, d.tick)
  }

  /** `d.AddDays(-1)`: the same time of day on the previous calendar day. */
  function PreviousDay(d: DateTime): (r: DateTime)
    ensures r.tick == d.tick
    ensures Ordinal(r) < Ordinal(d)
  {
    if d.day > 1 then Moment(d.year, d.month, d.day - 1, d.tick)
    else if d.month > 1 then Moment(d.year, d.month - 1, DaysInMonth(d.year, d.month - 1), d.tick)
    else Moment(d.year - 1, 12, 31, d.tick)
  }

  /** `start.AddMonths(1).AddDays(-1)`: the inclusive end of the month-long
      range the services build from a start date. */
  function MonthRangeEnd(start: DateTime): DateTime {
    PreviousDay(AddMonths(start, 1))
  }

  /** From the first of a month, the range ends on the month's last day at
      00:00, not at the last instant of the month. */
  lemma {:induction false} MonthRangeEndOfMonthStart(y: int, m: int)
    requires 1 <= m <= 12
    ensures MonthRangeEnd(MonthStart(y, m).value) == Moment(y, m, DaysInMonth(y, m), 0)
  {
    var next := AddMonths(MonthStart(y, m).value, 1);
    if m < 12 {
      assert next.year * 12 + next.month - 1 == y * 12 + m;
      MixedRadix(next.year, next.month - 1, y, m, 12);
      MixedRadix(y, m, next.year, next.month - 1, 12);
      assert next == Moment(y, m + 1, 1, 0);
    } else {
      assert next.year * 12 + next.month - 1 == (y + 1) * 12;
      MixedRadix(next.year, next.month - 1, y + 1, 0, 12);
      MixedRadix(y + 1, 0, next.year, next.month - 1, 12);
      assert next == Moment(y + 1, 1, 1, 0);
    }
  }

  /** A date lies in the range a month's first day builds exactly when it is in
      that month and is not later than 00:00 on the month's last day. */
  lemma InMonthRange(d: DateTime, y: int, m: int)
    requires 1 <= m <= 12
    ensures InRange(d, MonthStart(y, m).value, MonthRangeEnd(MonthStart(y, m).value)) <==>
      d.year == y && d.month == m && (d.day < DaysInMonth(y, m) || d.tick == 0)
  {
    var lo := MonthStart(y, m).value;
    MonthRangeEndOfMonthStart(y, m);
    var hi := MonthRangeEnd(lo);
    AtOrBeforeIsChronological(lo, d);
    AtOrBeforeIsChronological(d, hi);
  }

  /** One month before a month's first day is the previous calendar month's
      first day, across a year boundary too. */
  lemma PreviousMonthStart(y: int, m: int)
    requires 1 <= m <= 12
    ensures AddMonths(MonthStart(y, m).value, -1) ==
      if m == 1 then Moment(y - 1, 12, 1, 0) else Moment(y, m - 1, 1, 0)
  {
    var p := AddMonths(MonthStart(y, m).value, -1);
    if m == 1 {
      MixedRadix(p.year, p.month - 1, y - 1, 11, 12);
      MixedRadix(y - 1, 11, p.year, p.month - 1, 12);
    } else {
      MixedRadix(p.year, p.month - 1, y, m - 2, 12);
      MixedRadix(y, m - 2, p.year, p.month - 1, 12);
    }
  }
}
