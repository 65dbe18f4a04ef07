/** Proleptic Gregorian calendar dates as Python's `datetime.date` holds
    them: years 1 to 9999, day numbers ("ordinals") counted from
    0001-01-01 = 1, ISO weekdays (Monday = 1) and adding a number of days
    with Python's range check. */
module Dates {
  import opened Util

  datatype Date = Date(year: int, month: int, day: int)

  const MaxYear: int := 9999

  predicate IsLeapYear(y: int) {
    y % 4 == 0 && (y % 100 != 0 || y % 400 == 0)
  }

  function DaysInYear(y: int): int {
    if IsLeapYear(y) then 366 else 365
  }

  function DaysInMonth(y: int, m: int): (n: int)
    requires 1 <= m <= 12
    ensures 28 <= n <= 31
  {
    if m == 2 then (if IsLeapYear(y) then 29 else 28)
    else if m == 4 || m == 6 || m == 9 || m == 11 then 30
    else 31
  }

  /** A calendar date of year 1 or later (no upper bound). */
  predicate WellFormed(d: Date) {
    1 <= d.year && 1 <= d.month <= 12 && 1 <= d.day <= DaysInMonth(d.year, d.month)
  }

  /** A date Python's `datetime.date` can represent. */
  predicate Valid(d: Date) {
    WellFormed(d) && d.year <= MaxYear
  }

  /** Days in the years 1 .. y-1. */
  function DaysBeforeYear(y: int): (n: int)
    requires 1 <= y
    ensures n >= 365 * (y - 1)
    decreases y
  {
    if y == 1 then 0 else DaysBeforeYear(y - 1) + DaysInYear(y - 1)
  }

  /** Leap days in the years 1 .. q, by the Gregorian rule. */
  function LeapDays(q: int): int {
    q / 4 - q / 100 + q / 400
  }

  lemma LeapDaysStep(q: int)
    ensures LeapDays(q) == LeapDays(q - 1) + (if IsLeapYear(q) then 1 else 0)
  {
    Quarters(q);
    Centuries(q);
    QuadCenturies(q);
    QuadCenturyIsCentury(q);
    CenturyIsQuarter(q);
  }

  lemma QuadCenturyIsCentury(q: int)
    ensures q % 400 == 0 ==> q % 100 == 0
  {
    if q % 400 == 0 {
      assert q == 100 * (4 * (q / 400));
    }
  }

  lemma CenturyIsQuarter(q: int)
    ensures q % 100 == 0 ==> q % 4 == 0
  {
    if q % 100 == 0 {
      assert q == 4 * (25 * (q / 100));
    }
  }

  lemma Quarters(q: int)
    ensures q / 4 == (q - 1) / 4 + (if q % 4 == 0 then 1 else 0)
  {
  }

  lemma Centuries(q: int)
    ensures q / 100 == (q - 1) / 100 + (if q % 100 == 0 then 1 else 0)
  {
  }

  lemma QuadCenturies(q: int)
    ensures q / 400 == (q - 1) / 400 + (if q % 400 == 0 then 1 else 0)
  {
  }

  /** The closed form of the days before a year. */
  lemma {:induction false} DaysBeforeYearClosed(y: int)
    requires 1 <= y
    ensures DaysBeforeYear(y) == 365 * (y - 1) + LeapDays(y - 1)
    decreases y
  {
    if y > 1 {
      DaysBeforeYearClosed(y - 1);
      LeapDaysStep(y - 1);
    }
  }

  /** Days in the months 1 .. m-1 of year y; m = 13 gives the whole year. */
  function DaysBeforeMonth(y: int, m: int): int
    requires 1 <= m <= 13
  {
    var cumulative := [0, 31, 59, 90, 120, 151, 181, 212, 243, 273, 304, 334, 365];
    cumulative[m - 1] + (if m > 2 && IsLeapYear(y) then 1 else 0)
  }

  lemma NextYear(y: int)
    requires 1 <= y
    ensures DaysBeforeYear(y + 1) == DaysBeforeYear(y) + DaysInYear(y)
  {
  }

  lemma NextMonth(y: int, m: int)
    requires 1 <= m <= 12
    ensures DaysBeforeMonth(y, m + 1) == DaysBeforeMonth(y, m) + DaysInMonth(y, m)
  {
  }

  lemma MonthsFillYear(y: int)
    ensures DaysBeforeMonth(y, 13) == DaysInYear(y)
    ensures DaysBeforeMonth(y, 1) == 0
  {
  }

  lemma DaysBeforeMonthMonotone(y: int, m1: int, m2: int)
    requires 1 <= m1 <= m2 <= 13
    ensures DaysBeforeMonth(y, m1) <= DaysBeforeMonth(y, m2)
  {
  }

  lemma {:induction false} DaysBeforeYearMonotone(y1: int, y2: int)
    requires 1 <= y1 <= y2
    ensures DaysBeforeYear(y1) + 365 * (y2 - y1) <= DaysBeforeYear(y2)
    decreases y2 - y1
  {
    if y1 < y2 {
      NextYear(y1);
      DaysBeforeYearMonotone(y1 + 1, y2);
    }
  }

  /** Python's `date.toordinal()`. */
  function ToOrdinal(d: Date): (n: int)
    requires WellFormed(d)
    ensures n >= 1
  {
    DaysBeforeYear(d.year) + DaysBeforeMonth(d.year, d.month) + d.day
  }

  /** The ordinal of 9999-12-31, the last date Python can represent. */
  const MaxOrdinal: int := 3652059

  lemma MaxOrdinalValue()
    ensures MaxOrdinal == DaysBeforeYear(MaxYear + 1)
    ensures MaxOrdinal == ToOrdinal(Date(MaxYear, 12, 31))
  {
    DaysBeforeYearClosed(MaxYear + 1);
    DaysBeforeYearClosed(MaxYear);
  }

  /** The day's position inside its year lies in 1 .. DaysInYear. */
  lemma OrdinalWithinYear(d: Date)
    requires WellFormed(d)
    ensures DaysBeforeYear(d.year) < ToOrdinal(d) <= DaysBeforeYear(d.year + 1)
  {
    NextMonth(d.year, d.month);
    DaysBeforeMonthMonotone(d.year, d.month + 1, 13);
    MonthsFillYear(d.year);
    NextYear(d.year);
  }

  /** Python compares dates field by field: year, then month, then day. */
  predicate Before(a: Date, b: Date) {
    a.year < b.year
    || (a.year == b.year && a.month < b.month)
    || (a.year == b.year && a.month == b.month && a.day < b.day)
  }

  /** Field-by-field order of dates is the order of their ordinals. */
  lemma {:induction false} BeforeIsOrdinalOrder(a: Date, b: Date)
    requires WellFormed(a) && WellFormed(b)
    ensures Before(a, b) <==> ToOrdinal(a) < ToOrdinal(b)
    ensures a == b <==> ToOrdinal(a) == ToOrdinal(b)
  {
    OrdinalWithinYear(a);
    OrdinalWithinYear(b);
    if a.year < b.year {
      DaysBeforeYearMonotone(a.year + 1, b.year);
    } else if b.year < a.year {
      DaysBeforeYearMonotone(b.year + 1, a.year);
    } else if a.month < b.month {
      NextMonth(a.year, a.month);
      DaysBeforeMonthMonotone(a.year, a.month + 1, b.month);
    } else if b.month < a.month {
      NextMonth(b.year, b.month);
      DaysBeforeMonthMonotone(b.year, b.month + 1, a.month);
    }
  }

  /** The year holding day number n, searched upward from year y. */
  function YearOf(n: int, y: int): (r: int)
    requires 1 <= y && DaysBeforeYear(y) < n
    ensures y <= r && DaysBeforeYear(r) < n <= DaysBeforeYear(r + 1)
    decreases n - DaysBeforeYear(y)
  {
    NextYear(y);
    if n <= DaysBeforeYear(y + 1) then y else YearOf(n, y + 1)
  }

  /** The month holding day r of year y, searched upward from month m. */
  function MonthOf(y: int, r: int, m: int): (k: int)
    requires 1 <= m <= 12 && DaysBeforeMonth(y, m) < r <= DaysBeforeMonth(y, 13)
    ensures m <= k <= 12 && DaysBeforeMonth(y, k) < r <= DaysBeforeMonth(y, k + 1)
    decreases 12 - m
  {
    if r <= DaysBeforeMonth(y, m + 1) then m else MonthOf(y, r, m + 1)
  }

  /** Python's `date.fromordinal(n)`, without its upper range check. */
  function FromOrdinal(n: int): (d: Date)
    requires 1 <= n
    ensures WellFormed(d) && ToOrdinal(d) == n
    ensures Valid(d) <==> n <= MaxOrdinal
  {
    assert DaysBeforeYear(1) == 0;
    var y := YearOf(n, 1);
    NextYear(y);
    MonthsFillYear(y);
    var r := n - DaysBeforeYear(y);
    var m := MonthOf(y, r, 1);
    NextMonth(y, m);
    var d := Date(y, m, r - DaysBeforeMonth(y, m));
    ValidIffInRange(d);
    d
  }

  lemma FromOrdinalToOrdinal(d: Date)
    requires WellFormed(d)
    ensures 1 <= ToOrdinal(d) && FromOrdinal(ToOrdinal(d)) == d
  {
    OrdinalWithinYear(d);
    assert DaysBeforeYear(d.year) >= 0 by {
      assert DaysBeforeYear(1) == 0;
      DaysBeforeYearMonotone(1, d.year);
    }
    BeforeIsOrdinalOrder(FromOrdinal(ToOrdinal(d)), d);
  }

  /** The representable dates are exactly the ordinals 1 .. MaxOrdinal. */
  lemma {:induction false} ValidIffInRange(d: Date)
    requires WellFormed(d)
    ensures Valid(d) <==> ToOrdinal(d) <= MaxOrdinal
  {
    MaxOrdinalValue();
    OrdinalWithinYear(d);
    if d.year <= MaxYear {
      DaysBeforeYearMonotone(d.year + 1, MaxYear + 1);
    } else {
      DaysBeforeYearMonotone(MaxYear + 1, d.year);
    }
  }

  /** ISO weekday of a day number: Monday = 1 .. Sunday = 7
      (0001-01-01, day 1, was a Monday). */
  function OrdinalWeekday(n: int): (w: int)
    ensures 1 <= w <= 7
  {
    if n % 7 == 0 then 7 else n % 7
  }

  /** Python's `date.isoweekday()`. */
  function IsoWeekday(d: Date): (w: int)
    requires WellFormed(d)
    ensures 1 <= w <= 7
  {
    OrdinalWeekday(ToOrdinal(d))
  }

  /** `d + timedelta(k)`: None is Python's OverflowError. */
  function AddDays(d: Date, k: int): (r: Option<Date>)
    requires Valid(d)
    ensures r.Some? <==> 1 <= ToOrdinal(d) + k <= MaxOrdinal
    ensures r.Some? ==> Valid(r.value) && ToOrdinal(r.value) == ToOrdinal(d) + k
  {
    var n := ToOrdinal(d) + k;
    if 1 <= n <= MaxOrdinal then Some(FromOrdinal(n)) else None
  }

  /** Adding days within range is the date of the shifted day number. */
  lemma AddDaysInRange(d: Date, k: int)
    requires Valid(d) && 1 <= ToOrdinal(d) + k <= MaxOrdinal
    ensures AddDays(d, k) == Some(FromOrdinal(ToOrdinal(d) + k))
  {
  }

  /** A week later is the same weekday. */
  lemma WeekLaterSameWeekday(n: int)
    ensures OrdinalWeekday(n + 7) == OrdinalWeekday(n)
  {
  }
}
