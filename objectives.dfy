/**
 * The objectives screen: an objective of a number of arrows over the current
 * week, month or year, its bounds, the progress made since its start, the days
 * left and the number of arrows per day still recommended.
 */
module Objectives {
  import opened Wrappers
  import opened JavaInt
  import opened Text
  import opened Calendar
  import opened History

  const PERIOD_WEEK: int := 0
  const PERIOD_MONTH: int := 1
  const PERIOD_YEAR: int := 2

  /** The radio button checked in the period group, if any. */
  datatype RadioChoice = RadioWeek | RadioMonth | RadioYear | NoneChecked

  /** `getSelectedPeriod`: the period of the checked button; with none checked, the week. */
  function GetSelectedPeriod(c: RadioChoice): (p: int)
    ensures PERIOD_WEEK <= p <= PERIOD_YEAR
    ensures p == PERIOD_WEEK <==> c == RadioWeek || c == NoneChecked
    ensures p == PERIOD_MONTH <==> c == RadioMonth
    ensures p == PERIOD_YEAR <==> c == RadioYear
  {
    match c
    case RadioWeek => PERIOD_WEEK
    case RadioMonth => PERIOD_MONTH
    case RadioYear => PERIOD_YEAR
    case NoneChecked => PERIOD_WEEK
  }

  /** `add(MONTH, 1)` applied to the first day of a month. */
  function FirstOfNextMonth(y: int, m: int): CalDate
    requires 1 <= m <= 12
  {
    if m == 12 then Date(y + 1, 1, 1) else Date(y, m + 1, 1)
  }

  /** The first and last day `saveNewObjective` stores for the selected period. */
  function ObjectiveBounds(selectedPeriod: int, today: CalDate): (CalDate, CalDate) {
    if selectedPeriod == PERIOD_WEEK then
      var start := WeekStart(today);
      (start, AddDays(start, 6))
    else if selectedPeriod == PERIOD_MONTH then
      (Date(today.year, today.month, 1), AddDays(FirstOfNextMonth(today.year, today.month), -1))
    else
      (Date(today.year, 1, 1), AddDays(Date(today.year + 1, 1, 1), -1))
  }

  /** The number of days `updatePreview` gives the selected period. */
  function PeriodDays(selectedPeriod: int, today: CalDate): int {
    if selectedPeriod == PERIOD_WEEK then 7
    else if selectedPeriod == PERIOD_MONTH then DaysInMonth(today.year, today.month)
    else YearLength(today.year)
  }

  /**
   * The bounds of an objective: a week runs Monday to Sunday, a month from
   * its first to its last day, a year from January 1 to December 31; the
   * period contains today and has as many days as the preview announces.
   */
  lemma {:induction false} ObjectiveBoundsShape(selectedPeriod: int, today: CalDate)
    ensures var (start, end) := ObjectiveBounds(selectedPeriod, today);
      !Before(today, start) && !Before(end, today)
      && |Range(start, end)| == PeriodDays(selectedPeriod, today)
      && (selectedPeriod == PERIOD_WEEK ==> DayOfWeek(start) == MONDAY)
      && (selectedPeriod == PERIOD_MONTH ==>
            start == Date(today.year, today.month, 1)
            && end == Date(today.year, today.month, DaysInMonth(today.year, today.month)))
      && (selectedPeriod != PERIOD_WEEK && selectedPeriod != PERIOD_MONTH ==>
            start == Date(today.year, 1, 1) && end == Date(today.year, 12, 31))
  {
    var (start, end) := ObjectiveBounds(selectedPeriod, today);
    if selectedPeriod == PERIOD_WEEK {
    } else if selectedPeriod == PERIOD_MONTH {
      var last: CalDate := Date(today.year, today.month, DaysInMonth(today.year, today.month));
      MonthStep(today.year, today.month);
      YearStep(today.year);
      OrdinalInjective(end, last);
    } else {
      var last: CalDate := Date(today.year, 12, 31);
      YearStep(today.year);
      MonthStep(today.year, 12);
      OrdinalInjective(end, last);
      WithinYear(today);
    }
    BeforeIsChronological(today, start);
    BeforeIsChronological(end, today);
  }

  /** What the preview line shows for the target typed so far. */
  datatype Preview = NoTarget | InvalidTarget | Estimate(target: int, days: int, dailyAverage: int)

  /** `updatePreview`: the target spread evenly over the days of the period, by integer division. */
  function UpdatePreview(targetInput: string, choice: RadioChoice, today: CalDate): (p: Preview)
    ensures targetInput == [] <==> p == NoTarget
    ensures p.InvalidTarget? <==> targetInput != [] && ParseInt(targetInput).None?
    ensures p.Estimate? ==> p.target == ParseInt(targetInput).value && p.days >= 7
    ensures p.Estimate? && p.target >= 0 ==>
      p.dailyAverage * p.days <= p.target < (p.dailyAverage + 1) * p.days
    ensures p.Estimate? && p.target < 0 ==>
      (p.dailyAverage - 1) * p.days < p.target <= p.dailyAverage * p.days
  {
    if targetInput == [] then NoTarget
    else
      match ParseInt(targetInput)
      case None => InvalidTarget
      case Some(target) =>
        var days := PeriodDays(GetSelectedPeriod(choice), today);
        var q := JavaDiv(target, days);
        assert (q + 1) * days == q * days + days && (q - 1) * days == q * days - days;
        Estimate(target, days, q)
  }

  /** The preview announces as many days as the objective it would save spans. */
  lemma PreviewMatchesObjective(targetInput: string, choice: RadioChoice, today: CalDate)
    requires UpdatePreview(targetInput, choice, today).Estimate?
    ensures var (start, end) := ObjectiveBounds(GetSelectedPeriod(choice), today);
      UpdatePreview(targetInput, choice, today).days == |Range(start, end)|
  {
    ObjectiveBoundsShape(GetSelectedPeriod(choice), today);
  }

  /**
   * `calculateDaysRemaining`, with the day count taken between calendar
   * days: the days from today to the end day, both included; 0 once the end
   * day is past, and 0 when no end day is stored.
   */
  function DaysRemaining(endDate: Option<CalDate>, today: CalDate): (r: int)
    ensures r >= 0
    ensures endDate.None? ==> r == 0
    ensures endDate.Some? ==> r == |Range(today, endDate.value)|
  {
    match endDate
    case None => 0
    case Some(end) =>
      var days := Ordinal(end) - Ordinal(today) + 1;
      if days < 0 then 0 else days
  }

  const MS_PER_DAY: int := 86_400_000  // 1000 * 60 * 60 * 24

  /**
   * `calculateDaysRemaining` as written: the milliseconds from now to
   * midnight at the start of the end day, divided by the length of a day
   * with truncation, plus one. `msIntoToday` is the time of day of now.
   */
  function DaysRemainingAsWritten(endDate: Option<CalDate>, today: CalDate, msIntoToday: int): int
    requires 0 <= msIntoToday < MS_PER_DAY
  {
    match endDate
    case None => 0
    case Some(end) =>
      var diffInMillies := (Ordinal(end) - Ordinal(today)) * MS_PER_DAY - msIntoToday;
      var days := JavaDiv(diffInMillies, MS_PER_DAY) + 1;
      if days < 0 then 0 else days
  }

  /**
   * With days of 24 hours, the count as written is one day short whenever
   * the end day is after today and the clock is past midnight; at midnight,
   * or from the end day on, it agrees with the calendar count.
   */
  lemma DaysRemainingOffByOne(end: CalDate, today: CalDate, msIntoToday: int)
    requires 0 <= msIntoToday < MS_PER_DAY
    ensures Ordinal(end) > Ordinal(today) && msIntoToday > 0 ==>
      DaysRemainingAsWritten(Some(end), today, msIntoToday) == DaysRemaining(Some(end), today) - 1
    ensures Ordinal(end) <= Ordinal(today) || msIntoToday == 0 ==>
      DaysRemainingAsWritten(Some(end), today, msIntoToday) == DaysRemaining(Some(end), today)
  {
    var k := Ordinal(end) - Ordinal(today);
    var diff := k * MS_PER_DAY - msIntoToday;
    var q := JavaDiv(diff, MS_PER_DAY);
    if k > 0 && msIntoToday > 0 {
      assert (k - 1) * MS_PER_DAY < diff < k * MS_PER_DAY;
      assert q == k - 1;
    } else if msIntoToday == 0 {
      assert q == k;
    } else {
      assert (k - 1) * MS_PER_DAY < diff <= k * MS_PER_DAY;
      assert k < 0 ==> q == k;
      assert k == 0 ==> q == 0;
    }
  }

  /** The concrete case: a week objective checked on its Monday one second after midnight shows 6 days left, not 7. */
  lemma WeekObjectiveOnMondayMorning(today: CalDate)
    requires DayOfWeek(today) == MONDAY
    ensures var (start, end) := ObjectiveBounds(PERIOD_WEEK, today);
      DaysRemaining(Some(end), today) == 7 && DaysRemainingAsWritten(Some(end), today, 1000) == 6
  {
    var (start, end) := ObjectiveBounds(PERIOD_WEEK, today);
    OrdinalInjective(start, today);
    DaysRemainingOffByOne(end, today, 1000);
  }

  /**
   * `calculateDailyTarget`: the arrows still to shoot, `totalTarget -
   * currentProgress` as a Java `int` subtraction, spread over the days
   * remaining and rounded up; the least such number, and never negative.
   */
  function DailyTarget(totalTarget: int, currentProgress: int, daysRemaining: int): (r: int)
    ensures r >= 0
    ensures daysRemaining <= 0 ==> r == 0
    ensures daysRemaining > 0 ==> r * daysRemaining >= Wrap32(totalTarget - currentProgress)
    ensures daysRemaining > 0 && r > 0 ==> (r - 1) * daysRemaining < Wrap32(totalTarget - currentProgress)
    ensures daysRemaining > 0 ==> (r == 0 <==> Wrap32(totalTarget - currentProgress) <= 0)
  {
    if daysRemaining <= 0 then 0
    else
      var remainingArrows := Wrap32(totalTarget - currentProgress);
      var q := CeilDiv(remainingArrows, daysRemaining);
      assert q <= 0 ==> remainingArrows <= 0 by {
        if q <= 0 {
          assert q * daysRemaining <= 0;
        }
      }
      assert q > 0 ==> remainingArrows > 0 by {
        if q > 0 {
          assert (q - 1) * daysRemaining >= 0;
        }
      }
      if q < 0 then 0 else q
  }

  /**
   * The subtraction wraps: with the largest target and a progress of -1
   * (negative counts can be added), the arrows still to shoot come out as
   * `Integer.MIN_VALUE` and the daily target is 0.
   */
  lemma DailyTargetWraps()
    ensures DailyTarget(MAX_INT, -1, 7) == 0
  {
    assert Wrap32(MAX_INT + 1) == MIN_INT by {
      assert (MAX_INT + 1 - MIN_INT) % TWO_32 == 0;
    }
  }

  /**
   * `calculateCurrentProgress`: the counts stored for the days from the
   * start date to today, visited in any order, plus the stored count of the
   * current day. An absent start date bounds nothing, as every key compares
   * at or after the empty string.
   */
  method CalculateCurrentProgress(history: DayMap, startDate: Option<CalDate>, today: CalDate, storedCurrentSum: int)
    returns (totalArrows: int)
    ensures totalArrows == Total(Span(history, startDate, today)) + storedCurrentSum
  {
    totalArrows := 0;
    var rest := history;
    while rest != map[]
      invariant totalArrows + Total(Span(rest, startDate, today)) == Total(Span(history, startDate, today))
      decreases |rest|
    {
      var date :| date in rest;
      var next := rest - {date};
      assert |next| < |rest| by {
        assert next.Keys == rest.Keys - {date};
      }
      if InSpan(date, startDate, today) {
        totalArrows := totalArrows + rest[date];
      }
      SpanRemove(rest, date, startDate, today);
      rest := next;
    }
    assert Span(rest, startDate, today) == map[];
    totalArrows := totalArrows + storedCurrentSum;
  }

  /** Taking one day out of the history takes its count out of the total of any span. */
  lemma SpanRemove(m: DayMap, d: CalDate, start: Option<CalDate>, end: CalDate)
    requires d in m
    ensures Total(Span(m, start, end))
         == Total(Span(m - {d}, start, end)) + (if InSpan(d, start, end) then m[d] else 0)
  {
    if InSpan(d, start, end) {
      TotalRemove(Span(m, start, end), d);
      assert Span(m, start, end) - {d} == Span(m - {d}, start, end);
    } else {
      assert Span(m, start, end) == Span(m - {d}, start, end);
    }
  }

  /**
   * The progress with the current day counted once: the stored counts of the
   * other days of the span, plus the current count. It is the total of the
   * history in which today's entry holds the current count.
   */
  function ProgressCountingTodayOnce(history: DayMap, startDate: Option<CalDate>, today: CalDate,
                                     storedCurrentSum: int): int
  {
    Total(Span(history - {today}, startDate, today)) + storedCurrentSum
  }

  lemma ProgressCountsTodayOnce(history: DayMap, startDate: Option<CalDate>, today: CalDate, storedCurrentSum: int)
    requires InSpan(today, startDate, today)
    ensures ProgressCountingTodayOnce(history, startDate, today, storedCurrentSum)
         == Total(Span(history[today := storedCurrentSum], startDate, today))
  {
    SpanRemove(history[today := storedCurrentSum], today, startDate, today);
    RemoveUpdated(history, today, storedCurrentSum);
  }

  /**
   * The count of the current day is taken twice when the history already
   * holds an entry for today: once from the history, once as the stored sum.
   * Without such an entry the progress is the corrected one.
   */
  lemma TodayCountedTwice(history: DayMap, startDate: Option<CalDate>, today: CalDate, storedCurrentSum: int)
    requires InSpan(today, startDate, today)
    ensures today in history ==>
      Total(Span(history, startDate, today)) + storedCurrentSum
      == ProgressCountingTodayOnce(history, startDate, today, storedCurrentSum) + history[today]
    ensures today !in history ==>
      Total(Span(history, startDate, today)) + storedCurrentSum
      == ProgressCountingTodayOnce(history, startDate, today, storedCurrentSum)
  {
    if today in history {
      SpanRemove(history, today, startDate, today);
    } else {
      assert history - {today} == history;
    }
  }

  /**
   * Pausing the app stores today's count in the history, so with 30 arrows
   * shot today and none before, the objectives screen shows a progress of
   * 60 where 30 were shot.
   */
  lemma ProgressAfterPause(today: CalDate)
    ensures Total(Span(map[today := 30], Some(today), today)) + 30 == 60
    ensures ProgressCountingTodayOnce(map[today := 30], Some(today), today, 30) == 30
  {
    var history := map[today := 30];
    assert Span(history, Some(today), today) == history;
    TotalRemove(history, today);
    assert history - {today} == map[];
  }

  datatype SaveOutcome = EmptyTarget | InvalidNumber | NotPositive | Saved

  /**
   * The checks `saveNewObjective` makes of the typed target, in order: an
   * empty field, then a text `Integer.parseInt` refuses, then a target of 0
   * or less; only a positive integer is saved.
   */
  function ValidateTarget(targetInput: string): (o: SaveOutcome)
    ensures o == EmptyTarget <==> targetInput == []
    ensures o == InvalidNumber <==> targetInput != [] && ParseInt(targetInput).None?
    ensures o == NotPositive <==> ParseInt(targetInput).Some? && ParseInt(targetInput).value <= 0
    ensures o == Saved <==> ParseInt(targetInput).Some? && ParseInt(targetInput).value > 0
  {
    if targetInput == [] then EmptyTarget
    else match ParseInt(targetInput)
      case None => InvalidNumber
      case Some(t) => if t <= 0 then NotPositive else Saved
  }

  /** The objective record the app keeps in its preferences. */
  class ObjectiveStore {
    var active: bool
    var objectiveType: int
    var target: int
    var startDate: Option<CalDate>
    var endDate: Option<CalDate>

    /** No objective has been stored yet. */
    constructor()
      ensures !active && objectiveType == PERIOD_WEEK && target == 0
      ensures startDate.None? && endDate.None?
    {
      active := false;
      objectiveType := PERIOD_WEEK;
      target := 0;
      startDate := None;
      endDate := None;
    }

    /**
     * `saveNewObjective`: an empty field, a non-integer or a target of 0 or
     * less is refused and nothing is written; otherwise the objective becomes
     * active over the bounds of the selected period.
     */
    method SaveNewObjective(targetInput: string, choice: RadioChoice, today: CalDate) returns (outcome: SaveOutcome)
      modifies this
      ensures outcome == ValidateTarget(targetInput)
      ensures outcome != Saved ==> unchanged(this)
      ensures outcome == Saved ==>
        var selectedPeriod := GetSelectedPeriod(choice);
        active && objectiveType == selectedPeriod && target == ParseInt(targetInput).value
        && startDate == Some(ObjectiveBounds(selectedPeriod, today).0)
        && endDate == Some(ObjectiveBounds(selectedPeriod, today).1)
    {
      outcome := ValidateTarget(targetInput);
      if outcome != Saved {
        return;
      }
      var selectedPeriod := GetSelectedPeriod(choice);
      var bounds := ObjectiveBounds(selectedPeriod, today);
      Store(selectedPeriod, ParseInt(targetInput).value, bounds.0, bounds.1);
    }

    /** The writes of a saved objective: active, with its type, target and bounds. */
    method Store(objective: int, arrows: int, start: CalDate, end: CalDate)
      modifies this
      ensures active && objectiveType == objective && target == arrows
      ensures startDate == Some(start) && endDate == Some(end)
    {
      active := true;
      objectiveType := objective;
      target := arrows;
      startDate := Some(start);
      endDate := Some(end);
    }

    /** `stopCurrentObjective`: only the active flag is cleared. */
    method StopCurrentObjective()
      modifies this`active
      ensures !active
    {
      active := false;
    }
  }
}
