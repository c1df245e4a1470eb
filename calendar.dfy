/**
 * The Gregorian calendar the app reaches through `java.util.Calendar`: valid
 * dates, the order of their `yyyy-MM-dd` strings, day arithmetic
 * (`add(DAY_OF_YEAR, n)`), the day of the week, and inclusive runs of days.
 */
module Calendar {

  datatype Date = Date(year: int, month: int, day: int)

  predicate IsLeapYear(y: int) {
    y % 4 == 0 && (y % 100 != 0 || y % 400 == 0)
  }

  /** `getActualMaximum(DAY_OF_MONTH)`. */
  function DaysInMonth(y: int, m: int): (n: int)
    requires 1 <= m <= 12
    ensures 28 <= n <= 31
  {
    if m == 2 then (if IsLeapYear(y) then 29 else 28)
    else if m == 4 || m == 6 || m == 9 || m == 11 then 30
    else 31
  }

  /** `getActualMaximum(DAY_OF_YEAR)`. */
  function YearLength(y: int): (n: int)
    ensures n == 365 || n == 366
  {
    if IsLeapYear(y) then 366 else 365
  }

  predicate IsValid(d: Date) {
    1 <= d.month <= 12 && 1 <= d.day <= DaysInMonth(d.year, d.month)
  }

  /** A day of the proleptic Gregorian calendar (astronomical year numbering). */
  type CalDate = d: Date | IsValid(d) witness Date(1970, 1, 1)

  /** Java's `String.compareTo` on the `yyyy-MM-dd` keys: year, then month, then day. */
  predicate Before(a: Date, b: Date) {
    a.year < b.year || (a.year == b.year && (a.month < b.month || (a.month == b.month && a.day < b.day)))
  }

  /** Days from 0001-01-01 to the first of January of year `y`. */
  function DaysBeforeYear(y: int): int {
    var p := y - 1;
    365 * p + p / 4 - p / 100 + p / 400
  }

  /** Days from the first of January of year `y` to the first of month `m`. */
  function DaysBeforeMonth(y: int, m: int): int
    requires 1 <= m <= 12
  {
    var leap := if m > 2 && IsLeapYear(y) then 1 else 0;
    leap +
    (if m == 1 then 0 else if m == 2 then 31 else if m == 3 then 59
     else if m == 4 then 90 else if m == 5 then 120 else if m == 6 then 151
     else if m == 7 then 181 else if m == 8 then 212 else if m == 9 then 243
     else if m == 10 then 273 else if m == 11 then 304 else 334)
  }

  /** The day number of a date: 0 for 0001-01-01, one more for each following day. */
  function Ordinal(d: CalDate): int {
    DaysBeforeYear(d.year) + DaysBeforeMonth(d.year, d.month) + d.day - 1
  }

  lemma YearStep(y: int)
    ensures DaysBeforeYear(y + 1) == DaysBeforeYear(y) + YearLength(y)
  {
    FloorStep4(y);
    FloorStep100(y);
    FloorStep400(y);
  }

  lemma FloorStep4(y: int)
    ensures y / 4 - (y - 1) / 4 == if y % 4 == 0 then 1 else 0
  {
  }

  lemma FloorStep100(y: int)
    ensures y / 100 - (y - 1) / 100 == if y % 100 == 0 then 1 else 0
  {
  }

  lemma FloorStep400(y: int)
    ensures y / 400 - (y - 1) / 400 == if y % 400 == 0 then 1 else 0
  {
  }

  lemma MonthStep(y: int, m: int)
    requires 1 <= m <= 12
    ensures m < 12 ==> DaysBeforeMonth(y, m + 1) == DaysBeforeMonth(y, m) + DaysInMonth(y, m)
    ensures m == 12 ==> DaysBeforeMonth(y, m) + DaysInMonth(y, m) == YearLength(y)
  {
  }

  /** The first day of the year is day `DaysBeforeYear(year)`; the next year starts after the last. */
  lemma {:induction false} WithinYear(d: CalDate)
    ensures DaysBeforeYear(d.year) <= Ordinal(d) < DaysBeforeYear(d.year + 1)
  {
    YearStep(d.year);
    MonthsWithinYear(d.year, d.month);
  }

  lemma {:induction false} MonthsWithinYear(y: int, m: int)
    requires 1 <= m <= 12
    ensures DaysBeforeMonth(y, m) + DaysInMonth(y, m) <= YearLength(y)
    decreases 12 - m
  {
    MonthStep(y, m);
    if m < 12 {
      MonthsWithinYear(y, m + 1);
    }
  }

  lemma {:induction false} MonthsOrdered(y: int, m1: int, m2: int)
    requires 1 <= m1 < m2 <= 12
    ensures DaysBeforeMonth(y, m1) + DaysInMonth(y, m1) <= DaysBeforeMonth(y, m2)
    decreases m2 - m1
  {
    MonthStep(y, m1);
    if m1 + 1 < m2 {
      MonthsOrdered(y, m1 + 1, m2);
      MonthStep(y, m1 + 1);
    }
  }

  lemma {:induction false} YearsOrdered(y1: int, y2: int)
    requires y1 < y2
    ensures DaysBeforeYear(y1 + 1) <= DaysBeforeYear(y2)
    decreases y2 - y1
  {
    if y1 + 1 < y2 {
      YearsOrdered(y1 + 1, y2);
      YearStep(y1 + 1);
    }
  }

  /** The string order of the keys is the chronological order of the days. */
  lemma {:induction false} BeforeIsChronological(a: CalDate, b: CalDate)
    ensures Before(a, b) <==> Ordinal(a) < Ordinal(b)
    ensures a == b <==> Ordinal(a) == Ordinal(b)
  {
    WithinYear(a);
    WithinYear(b);
    if a.year < b.year {
      YearsOrdered(a.year, b.year);
    } else if b.year < a.year {
      YearsOrdered(b.year, a.year);
    } else if a.month < b.month {
      MonthsOrdered(a.year, a.month, b.month);
    } else if b.month < a.month {
      MonthsOrdered(a.year, b.month, a.month);
    }
  }

  lemma OrdinalInjective(a: CalDate, b: CalDate)
    requires Ordinal(a) == Ordinal(b)
    ensures a == b
  {
    BeforeIsChronological(a, b);
  }

  /** Counting `day - 1` days on from the first of the month reaches the day. */
  lemma FromFirstOfMonth(d: CalDate)
    ensures AddDays(Date(d.year, d.month, 1), d.day - 1) == d
  {
    var first: CalDate := Date(d.year, d.month, 1);
    OrdinalInjective(AddDays(first, d.day - 1), d);
  }

  /** The day after `d`: `add(DAY_OF_YEAR, 1)`. */
  function NextDay(d: CalDate): (r: CalDate)
    ensures Ordinal(r) == Ordinal(d) + 1
  {
    MonthStep(d.year, d.month);
    YearStep(d.year);
    if d.day < DaysInMonth(d.year, d.month) then Date(d.year, d.month, d.day + 1)
    else if d.month < 12 then Date(d.year, d.month + 1, 1)
    else Date(d.year + 1, 1, 1)
  }

  /** The day before `d`: `add(DAY_OF_YEAR, -1)`. */
  function PrevDay(d: CalDate): (r: CalDate)
    ensures Ordinal(r) == Ordinal(d) - 1
  {
    if d.day > 1 then Date(d.year, d.month, d.day - 1)
    else if d.month > 1 then
      MonthStep(d.year, d.month - 1);
      Date(d.year, d.month - 1, DaysInMonth(d.year, d.month - 1))
    else
      YearStep(d.year - 1);
      MonthStep(d.year - 1, 12);
      Date(d.year - 1, 12, 31)
  }

  /** `add(DAY_OF_YEAR, n)`: the day `n` days after (or, for negative `n`, before) `d`. */
  function AddDays(d: CalDate, n: int): (r: CalDate)
    ensures Ordinal(r) == Ordinal(d) + n
    decreases if n < 0 then -n else n
  {
    if n == 0 then d
    else if n > 0 then AddDays(NextDay(d), n - 1)
    else AddDays(PrevDay(d), n + 1)
  }

  const SUNDAY: int := 1
  const MONDAY: int := 2

  /** `get(DAY_OF_WEEK)`: 1 for Sunday, 2 for Monday, ..., 7 for Saturday. */
  function DayOfWeek(d: CalDate): (w: int)
    ensures SUNDAY <= w <= 7
    ensures (w == MONDAY) <==> Ordinal(d) % 7 == 0
  {
    WeekdayOf(Ordinal(d))
  }

  function WeekdayOf(o: int): (w: int)
    ensures SUNDAY <= w <= 7
    ensures (w == MONDAY) <==> o % 7 == 0
    ensures (w == SUNDAY) <==> o % 7 == 6
    ensures w != SUNDAY ==> (o - (w - MONDAY)) % 7 == 0
    ensures w == SUNDAY ==> (o - 6) % 7 == 0
  {
    (o + 1) % 7 + 1
  }

  /** `dayOfWeek == SUNDAY ? 6 : dayOfWeek - MONDAY`: how far back the Monday of the week lies. */
  function DaysFromMonday(d: CalDate): (k: int)
    ensures 0 <= k <= 6
    ensures DayOfWeek(AddDays(d, -k)) == MONDAY
  {
    var w := DayOfWeek(d);
    var k := if w == SUNDAY then 6 else w - MONDAY;
    assert Ordinal(AddDays(d, -k)) % 7 == 0 by {
      assert w == WeekdayOf(Ordinal(d));
    }
    k
  }

  /** The Monday of the week of `today` (a Sunday belongs to the week that began six days before). */
  function WeekStart(today: CalDate): (start: CalDate)
    ensures DayOfWeek(start) == MONDAY
    ensures 0 <= Ordinal(today) - Ordinal(start) <= 6
  {
    AddDays(today, -DaysFromMonday(today))
  }

  /** The inclusive run of days `lo`, the day after, ..., `hi` (empty when `hi` is before `lo`). */
  function Range(lo: CalDate, hi: CalDate): (r: seq<CalDate>)
    ensures |r| == if Ordinal(hi) < Ordinal(lo) then 0 else Ordinal(hi) - Ordinal(lo) + 1
    ensures forall i :: 0 <= i < |r| ==> Ordinal(r[i]) == Ordinal(lo) + i
    decreases Ordinal(hi) - Ordinal(lo)
  {
    if Ordinal(hi) < Ordinal(lo) then [] else [lo] + Range(NextDay(lo), hi)
  }

  /** Membership in a run of days is being neither before its first nor after its last day. */
  lemma RangeMembers(lo: CalDate, hi: CalDate, d: CalDate)
    ensures d in Range(lo, hi) <==> Ordinal(lo) <= Ordinal(d) <= Ordinal(hi)
    ensures d in Range(lo, hi) <==> !Before(d, lo) && !Before(hi, d)
  {
    var r := Range(lo, hi);
    BeforeIsChronological(d, lo);
    BeforeIsChronological(hi, d);
    if Ordinal(lo) <= Ordinal(d) <= Ordinal(hi) {
      var i := Ordinal(d) - Ordinal(lo);
      OrdinalInjective(r[i], d);
    }
  }

  lemma RangeIsInterval(lo: CalDate, hi: CalDate)
    ensures forall d: CalDate :: d in Range(lo, hi) <==> !Before(d, lo) && !Before(hi, d)
  {
    forall d: CalDate ensures d in Range(lo, hi) <==> !Before(d, lo) && !Before(hi, d) {
      RangeMembers(lo, hi, d);
    }
  }

  /** A run of days has no gaps: each day is followed by the next calendar day. */
  lemma RangeContiguous(lo: CalDate, hi: CalDate, i: int)
    requires 0 <= i && i + 1 < |Range(lo, hi)|
    ensures Range(lo, hi)[i + 1] == NextDay(Range(lo, hi)[i])
  {
    var r := Range(lo, hi);
    OrdinalInjective(r[i + 1], NextDay(r[i]));
  }

  /** The days of a run are strictly increasing, hence distinct. */
  lemma RangeIncreasing(lo: CalDate, hi: CalDate, i: int, j: int)
    requires 0 <= i < j < |Range(lo, hi)|
    ensures Before(Range(lo, hi)[i], Range(lo, hi)[j])
  {
    var r := Range(lo, hi);
    BeforeIsChronological(r[i], r[j]);
  }
}
