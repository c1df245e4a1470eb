/**
 * The statistics screen: the history as loaded for the screen, the window of
 * days each tab shows (a week, a month, a year, shifted back by the
 * navigation offset, or all data), the dense zero-filled view of the history
 * over that window, and the integer statistics of the view.
 */
module Stats {
  import opened Wrappers
  import opened JavaInt
  import opened Calendar
  import opened History

  const PERIOD_WEEK: int := 0
  const PERIOD_MONTH: int := 1
  const PERIOD_YEAR: int := 2
  const PERIOD_ALL: int := 3

  /**
   * `loadArrowHistory`: the persisted entries, then the current day under
   * its stored date (today when none is stored) with its stored count (0
   * when none is stored), replacing any persisted entry for that day.
   */
  function LoadArrowHistory(persisted: DayMap, storedDate: Option<CalDate>, storedSum: Option<int>, today: CalDate)
    : (h: DayMap)
    ensures var current := if storedDate.Some? then storedDate.value else today;
      current in h && h[current] == (if storedSum.Some? then storedSum.value else 0)
      && (forall d :: d != current ==> (d in h <==> d in persisted))
      && (forall d :: d != current && d in h ==> h[d] == persisted[d])
  {
    var current := match storedDate case Some(d) => d case None => today;
    var sum := match storedSum case Some(v) => v case None => 0;
    persisted[current := sum]
  }

  /** The week tab: the Monday of this week moved by `offset` weeks, through the Sunday after it. */
  function WeekWindow(offset: int, today: CalDate): (w: (CalDate, CalDate))
    ensures DayOfWeek(w.0) == MONDAY
    ensures Ordinal(w.0) == Ordinal(WeekStart(today)) + 7 * offset
    ensures Ordinal(w.1) == Ordinal(w.0) + 6
  {
    var monday := WeekStart(today);
    var start := AddDays(monday, 7 * offset);
    assert DayOfWeek(start) == MONDAY by {
      assert Ordinal(monday) % 7 == 0;
      WholeWeeks(Ordinal(monday), offset);
    }
    (start, AddDays(start, 6))
  }

  lemma WholeWeeks(a: int, k: int)
    requires a % 7 == 0
    ensures (a + 7 * k) % 7 == 0
  {
  }

  /** The month tab: the first through the last day of the month `offset` months from this one. */
  function MonthWindow(offset: int, today: CalDate): (w: (CalDate, CalDate))
    ensures w.0.year * 12 + w.0.month == today.year * 12 + today.month + offset
    ensures w.0 == Date(w.0.year, w.0.month, 1)
    ensures w.1 == Date(w.0.year, w.0.month, DaysInMonth(w.0.year, w.0.month))
  {
    var months := today.year * 12 + (today.month - 1) + offset;
    var y := months / 12;
    var m := months % 12 + 1;
    (Date(y, m, 1), Date(y, m, DaysInMonth(y, m)))
  }

  /** The year tab: January 1 through December 31 of the year `offset` years from this one. */
  function YearWindow(offset: int, today: CalDate): (w: (CalDate, CalDate))
    ensures w.0 == Date(today.year + offset, 1, 1) && w.1 == Date(today.year + offset, 12, 31)
  {
    (Date(today.year + offset, 1, 1), Date(today.year + offset, 12, 31))
  }

  /** The first and last day `filterDataByPeriod` visits for a tab; the all-data tab (and any other) has none. */
  function PeriodWindow(period: int, offset: int, today: CalDate): (w: Option<(CalDate, CalDate)>)
    ensures w.None? <==> period != PERIOD_WEEK && period != PERIOD_MONTH && period != PERIOD_YEAR
  {
    if period == PERIOD_WEEK then Some(WeekWindow(offset, today))
    else if period == PERIOD_MONTH then Some(MonthWindow(offset, today))
    else if period == PERIOD_YEAR then Some(YearWindow(offset, today))
    else None
  }

  /** A week window has 7 days, a month window the length of its month, a year window the length of its year. */
  lemma WindowLength(period: int, offset: int, today: CalDate)
    requires PeriodWindow(period, offset, today).Some?
    ensures var (start, end) := PeriodWindow(period, offset, today).value;
      |Range(start, end)| ==
        if period == PERIOD_WEEK then 7
        else if period == PERIOD_MONTH then DaysInMonth(start.year, start.month)
        else YearLength(start.year)
  {
    var (start, end) := PeriodWindow(period, offset, today).value;
    if period == PERIOD_YEAR {
      MonthStep(start.year, 12);
    }
  }

  /** With no offset, the window of each tab holds today. */
  lemma CurrentWindowHoldsToday(period: int, today: CalDate)
    requires PeriodWindow(period, 0, today).Some?
    ensures var (start, end) := PeriodWindow(period, 0, today).value;
      today in Range(start, end)
  {
    var (start, end) := PeriodWindow(period, 0, today).value;
    if period == PERIOD_YEAR {
      MonthsWithinYear(today.year, today.month);
      MonthStep(today.year, 12);
    } else if period == PERIOD_MONTH {
      assert start.year == today.year && start.month == today.month;
    }
    RangeMembers(start, end, today);
  }

  /**
   * Stepping back one period shows the days just before: the window at
   * `offset - 1` ends the day before the window at `offset` begins, so
   * navigation covers the calendar with neither gaps nor overlaps.
   */
  lemma WindowsTile(period: int, offset: int, today: CalDate)
    requires PeriodWindow(period, offset, today).Some?
    ensures Ordinal(PeriodWindow(period, offset - 1, today).value.1) + 1
         == Ordinal(PeriodWindow(period, offset, today).value.0)
  {
    if period == PERIOD_MONTH {
      MonthsTile(offset, today);
    } else if period == PERIOD_YEAR {
      YearsTile(offset, today);
    }
  }

  lemma MonthsTile(offset: int, today: CalDate)
    ensures Ordinal(MonthWindow(offset - 1, today).1) + 1 == Ordinal(MonthWindow(offset, today).0)
  {
    var prev := MonthWindow(offset - 1, today).0;
    var next := MonthWindow(offset, today).0;
    MonthStep(prev.year, prev.month);
    YearStep(prev.year);
    if prev.month < 12 {
      assert next == Date(prev.year, prev.month + 1, 1);
    } else {
      assert next == Date(prev.year + 1, 1, 1);
    }
  }

  lemma YearsTile(offset: int, today: CalDate)
    ensures Ordinal(YearWindow(offset - 1, today).1) + 1 == Ordinal(YearWindow(offset, today).0)
  {
    YearStep(today.year + offset - 1);
    MonthStep(today.year + offset - 1, 12);
  }

  /** The integer statistics `updateStats` shows. */
  datatype PeriodStats = PeriodStats(total: int, numberOfDays: int, daysWithArrows: int, maxArrows: int)

  /** The sum of the counts, taken without overflow. */
  function Sum(vs: seq<int>): int {
    if vs == [] then 0 else Sum(vs[..|vs| - 1]) + vs[|vs| - 1]
  }

  /** The number of counts above 0. */
  function CountPositive(vs: seq<int>): (n: nat)
    ensures n <= |vs|
  {
    if vs == [] then 0
    else CountPositive(vs[..|vs| - 1]) + (if vs[|vs| - 1] > 0 then 1 else 0)
  }

  /** Every day has arrows exactly when the count is the number of days, and none exactly when it is 0. */
  lemma {:induction false} CountPositiveExtremes(vs: seq<int>)
    ensures CountPositive(vs) == |vs| <==> forall i :: 0 <= i < |vs| ==> vs[i] > 0
    ensures CountPositive(vs) == 0 <==> forall i :: 0 <= i < |vs| ==> vs[i] <= 0
  {
    if vs != [] {
      var init := vs[..|vs| - 1];
      assert forall i :: 0 <= i < |init| ==> init[i] == vs[i];
      CountPositiveExtremes(init);
    }
  }

  /** The largest count, or 0 when every count is below it. */
  function MaxOrZero(vs: seq<int>): (m: int)
    ensures m >= 0
  {
    if vs == [] then 0
    else
      var m := MaxOrZero(vs[..|vs| - 1]);
      var v := vs[|vs| - 1];
      if v > m then v else m
  }

  /** The best day holds at least every day's count, and is 0 or one of them. */
  lemma {:induction false} MaxIsBestDay(vs: seq<int>)
    ensures forall i :: 0 <= i < |vs| ==> vs[i] <= MaxOrZero(vs)
    ensures MaxOrZero(vs) == 0 || exists i :: 0 <= i < |vs| && vs[i] == MaxOrZero(vs)
  {
    if vs != [] {
      var init := vs[..|vs| - 1];
      assert forall i :: 0 <= i < |init| ==> init[i] == vs[i];
      MaxIsBestDay(init);
      if MaxOrZero(vs) != 0 && MaxOrZero(vs) != vs[|vs| - 1] {
        var i :| 0 <= i < |init| && init[i] == MaxOrZero(init);
        assert vs[i] == MaxOrZero(vs);
      }
    }
  }

  /**
   * `updateStats`, the integer parts: the total with Java's `int`
   * wrap-around, the number of days, the days with arrows and the largest
   * count of a day (0 when none is positive).
   */
  method UpdateStats(filteredData: seq<(CalDate, int)>) returns (s: PeriodStats)
    ensures s.total == Wrap32(Sum(Counts(filteredData)))
    ensures s.numberOfDays == |filteredData|
    ensures s.daysWithArrows == CountPositive(Counts(filteredData))
    ensures s.maxArrows == MaxOrZero(Counts(filteredData))
  {
    var vs := Counts(filteredData);
    var total := 0;
    var i := 0;
    while i < |vs|
      invariant 0 <= i <= |vs|
      invariant total == Wrap32(Sum(vs[..i]))
    {
      TotalStep(vs, i, total);
      total := Wrap32(total + vs[i]);
      i := i + 1;
    }
    assert vs[..i] == vs;
    var numberOfDays := |filteredData|;
    var daysWithArrows := 0;
    var maxArrows := 0;
    i := 0;
    while i < |vs|
      invariant 0 <= i <= |vs|
      invariant daysWithArrows == CountPositive(vs[..i])
      invariant maxArrows == MaxOrZero(vs[..i])
    {
      StatsStep(vs, i);
      if vs[i] > 0 {
        daysWithArrows := daysWithArrows + 1;
      }
      if vs[i] > maxArrows {
        maxArrows := vs[i];
      }
      i := i + 1;
    }
    assert vs[..i] == vs;
    s := PeriodStats(total, numberOfDays, daysWithArrows, maxArrows);
  }

  /** One more day of the period, as each loop of `updateStats` takes it. */
  lemma StatsStep(vs: seq<int>, i: int)
    requires 0 <= i < |vs|
    ensures Sum(vs[..i + 1]) == Sum(vs[..i]) + vs[i]
    ensures CountPositive(vs[..i + 1]) == CountPositive(vs[..i]) + (if vs[i] > 0 then 1 else 0)
    ensures MaxOrZero(vs[..i + 1]) == if vs[i] > MaxOrZero(vs[..i]) then vs[i] else MaxOrZero(vs[..i])
  {
    assert vs[..i + 1][..i] == vs[..i];
  }

  /** The `int` total of `updateStats` after one more day. */
  lemma TotalStep(vs: seq<int>, i: int, total: int)
    requires 0 <= i < |vs| && total == Wrap32(Sum(vs[..i]))
    ensures Wrap32(total + vs[i]) == Wrap32(Sum(vs[..i + 1]))
  {
    StatsStep(vs, i);
    WrapAdd(Sum(vs[..i]), vs[i]);
  }

  /** When no count is negative, no single day holds more than the period total. */
  lemma {:induction false} MaxAtMostTotal(vs: seq<int>)
    requires forall i :: 0 <= i < |vs| ==> vs[i] >= 0
    ensures MaxOrZero(vs) <= Sum(vs)
    ensures Sum(vs) >= 0
  {
    if vs != [] {
      var init := vs[..|vs| - 1];
      assert forall i :: 0 <= i < |init| ==> init[i] == vs[i];
      MaxAtMostTotal(init);
    }
  }

  /** The days listed in `days`. */
  function DaySet(days: seq<CalDate>): (s: set<CalDate>)
    ensures forall d :: d in s <==> d in days
  {
    set d | d in days
  }

  /**
   * The total of a dense view over distinct days is the total of the
   * recorded counts on those days: the days filled in with 0 add nothing.
   */
  lemma {:induction false} DenseTotal(h: DayMap, days: seq<CalDate>)
    requires forall i, j :: 0 <= i < j < |days| ==> days[i] != days[j]
    ensures Sum(Counts(Dense(h, days))) == Total(Part(h, DaySet(days)))
  {
    if days != [] {
      var init := days[..|days| - 1];
      assert forall i :: 0 <= i < |init| ==> init[i] == days[i];
      DenseTotal(h, init);
      DenseLast(h, days);
      PartLast(h, days);
    }
  }

  lemma SumSnoc(vs: seq<int>, v: int)
    ensures Sum(vs + [v]) == Sum(vs) + v
  {
    assert (vs + [v])[..|vs|] == vs;
  }

  /** The last day of the list adds its count, or 0, to the dense total. */
  lemma DenseLast(h: DayMap, days: seq<CalDate>)
    requires days != []
    ensures Sum(Counts(Dense(h, days)))
         == Sum(Counts(Dense(h, days[..|days| - 1]))) + GetOrZero(h, days[|days| - 1])
  {
    var init := days[..|days| - 1];
    var x := days[|days| - 1];
    assert days == init + [x];
    DenseSnoc(h, init, x);
    CountsSnoc(Dense(h, init), (x, GetOrZero(h, x)));
    SumSnoc(Counts(Dense(h, init)), GetOrZero(h, x));
  }

  /** The last of distinct days adds its recorded count, if any, to the total. */
  lemma PartLast(h: DayMap, days: seq<CalDate>)
    requires days != []
    requires forall i, j :: 0 <= i < j < |days| ==> days[i] != days[j]
    ensures Total(Part(h, DaySet(days))) == Total(Part(h, DaySet(days[..|days| - 1]))) + GetOrZero(h, days[|days| - 1])
  {
    var init := days[..|days| - 1];
    var x := days[|days| - 1];
    assert x !in init by {
      forall i | 0 <= i < |init| ensures init[i] != x {
        assert init[i] == days[i];
      }
    }
    assert days == init + [x];
    PartSnoc(h, init, x);
  }

  /** Adding a new day to the list adds its recorded count, if any, to the total. */
  lemma PartSnoc(h: DayMap, days: seq<CalDate>, x: CalDate)
    requires x !in days
    ensures Total(Part(h, DaySet(days + [x]))) == Total(Part(h, DaySet(days))) + GetOrZero(h, x)
  {
    assert DaySet(days + [x]) == DaySet(days) + {x};
    PartAdd(h, DaySet(days), x);
  }

  /** The dense view of the first `k + 1` days extends that of the first `k` by day `k`. */
  lemma DenseStep(h: DayMap, days: seq<CalDate>, k: int)
    requires 0 <= k < |days|
    ensures Dense(h, days[..k + 1]) == Dense(h, days[..k]) + [(days[k], GetOrZero(h, days[k]))]
  {
    TakeOneMore(days, k);
    DenseSnoc(h, days[..k], days[k]);
  }

  /** The total the week, month or year tab shows is the total of the history inside its window. */
  lemma WindowTotal(h: DayMap, start: CalDate, end: CalDate)
    ensures Sum(Counts(Dense(h, Range(start, end)))) == Total(Span(h, Some(start), end))
  {
    var days := Range(start, end);
    forall i, j | 0 <= i < j < |days| ensures days[i] != days[j] {
      RangeIncreasing(start, end, i, j);
    }
    DenseTotal(h, days);
    forall d ensures d in Part(h, DaySet(days)) <==> d in Span(h, Some(start), end) {
      RangeMembers(start, end, d);
    }
    assert Part(h, DaySet(days)) == Span(h, Some(start), end);
  }

  /** The total the all-data tab shows is the total of the whole history. */
  lemma {:induction false} EntriesTotal(h: DayMap)
    ensures Sum(Counts(Entries(h))) == Total(h)
    decreases |h|
  {
    if |h| != 0 {
      var e := Earliest(h.Keys);
      var rest := h - {e};
      assert rest.Keys == h.Keys - {e};
      EntriesTotal(rest);
      assert Entries(h) == [(e, h[e])] + Entries(rest);
      CountsCons((e, h[e]), Entries(rest));
      SumCons(h[e], Counts(Entries(rest)));
    }
  }

  lemma {:induction false} SumCons(v: int, vs: seq<int>)
    ensures Sum([v] + vs) == v + Sum(vs)
    decreases |vs|
  {
    if vs != [] {
      var init := vs[..|vs| - 1];
      assert ([v] + vs)[..|vs|] == [v] + init;
      SumCons(v, init);
    }
  }

  /** The state of the statistics screen. */
  class StatsScreen {
    var history: DayMap
    var currentPeriod: int
    var periodOffset: int

    /** The offset never points past the current period. */
    predicate Valid()
      reads this
    {
      periodOffset <= 0
    }

    /** `onCreate`: the history is loaded and the week tab shows the current week. */
    constructor(persisted: DayMap, storedDate: Option<CalDate>, storedSum: Option<int>, today: CalDate)
      ensures history == LoadArrowHistory(persisted, storedDate, storedSum, today)
      ensures currentPeriod == PERIOD_WEEK && periodOffset == 0
      ensures Valid()
    {
      history := LoadArrowHistory(persisted, storedDate, storedSum, today);
      currentPeriod := PERIOD_WEEK;
      periodOffset := 0;
    }

    /** `onTabSelected`: the tab's position becomes the period, shown from its current instance. */
    method OnTabSelected(position: int)
      modifies this`currentPeriod, this`periodOffset
      ensures currentPeriod == position && periodOffset == 0
      ensures Valid()
    {
      currentPeriod := position;
      periodOffset := 0;
    }

    /** The previous button: one period further back (a Java `int` decrement). */
    method OnPrevious()
      modifies this`periodOffset
      ensures periodOffset == Wrap32(old(periodOffset) - 1)
      ensures old(Valid()) && old(periodOffset) > MIN_INT ==> Valid() && periodOffset < old(periodOffset)
    {
      periodOffset := Wrap32(periodOffset - 1);
    }

    /** The next button: one period forward, never past the current one. */
    method OnNext()
      modifies this`periodOffset
      ensures old(periodOffset) < 0 ==> periodOffset == old(periodOffset) + 1
      ensures old(periodOffset) >= 0 ==> periodOffset == old(periodOffset)
      ensures old(Valid()) ==> Valid()
    {
      if periodOffset < 0 {
        periodOffset := periodOffset + 1;
      }
    }

    /**
     * `filterDataByPeriod`: for the week, month and year tabs, one entry per
     * day of the window, in order, holding the recorded count or 0; for the
     * all-data tab, the history's own entries. The entries are listed in
     * the order the returned `TreeMap` iterates them.
     */
    method FilterDataByPeriod(today: CalDate) returns (filteredData: seq<(CalDate, int)>)
      ensures PeriodWindow(currentPeriod, periodOffset, today).None? ==> filteredData == Entries(history)
      ensures PeriodWindow(currentPeriod, periodOffset, today).Some? ==>
        var (start, end) := PeriodWindow(currentPeriod, periodOffset, today).value;
        filteredData == Dense(history, Range(start, end))
    {
      var window := PeriodWindow(currentPeriod, periodOffset, today);
      if window.None? {
        return Entries(history);
      }
      var (start, end) := window.value;
      filteredData := FillWindow(start, end);
    }

    /** The loop of `filterDataByPeriod`: every day from `start` to `end`, in order, with its count or 0. */
    method FillWindow(start: CalDate, end: CalDate) returns (filteredData: seq<(CalDate, int)>)
      ensures filteredData == Dense(history, Range(start, end))
    {
      ghost var days := Range(start, end);
      filteredData := [];
      var dateIterator := start;
      BeforeIsChronological(end, dateIterator);
      while !Before(end, dateIterator)
        invariant |filteredData| <= |days|
        invariant Ordinal(dateIterator) == Ordinal(start) + |filteredData|
        invariant filteredData == Dense(history, days[..|filteredData|])
        invariant Before(end, dateIterator) <==> Ordinal(end) < Ordinal(dateIterator)
        decreases Ordinal(end) - Ordinal(dateIterator)
      {
        var k := |filteredData|;
        assert k < |days|;
        OrdinalInjective(days[k], dateIterator);
        DenseStep(history, days, k);
        filteredData := filteredData + [(dateIterator, GetOrZero(history, dateIterator))];
        dateIterator := NextDay(dateIterator);
        BeforeIsChronological(end, dateIterator);
      }
      assert |filteredData| == |days|;
      assert days[..|filteredData|] == days;
    }
  }
}
