/**
 * The main screen's practice ledger: today's arrow count and the day it
 * belongs to, the last count added (for a single undo), the number of
 * scores entered today, yesterday's count, and the history of past days.
 * Adding counts or scores, undoing, the rollover to a new day, the CSV
 * import merge and export, and the objective shown on the main screen.
 */
module Ledger {
  import opened Wrappers
  import opened JavaInt
  import opened Text
  import opened Calendar
  import opened History
  import opened Csv
  import opened Objectives
  import opened Merge

  datatype AddOutcome = EmptyInput | NotAnInteger | Added(number: int)

  /** What `addArrowCount` makes of the typed text: nothing, an error, or the number to add. */
  function ReadArrowCount(input: string): (o: AddOutcome)
    ensures o == EmptyInput <==> input == []
    ensures o == NotAnInteger <==> input != [] && ParseInt(input).None?
    ensures o.Added? <==> ParseInt(input).Some?
    ensures o.Added? ==> o.number == ParseInt(input).value && InInt32(o.number)
  {
    if input == [] then EmptyInput
    else match ParseInt(input)
      case None => NotAnInteger
      case Some(n) => Added(n)
  }

  /** A `float` as `Float.parseFloat` returns it. */
  datatype FloatValue = NaN | Infinite(positive: bool) | Finite(value: real)

  /** `score < 0 || score > 10`; both comparisons are false for NaN. */
  predicate OutOfScoreRange(v: FloatValue) {
    match v
    case NaN => false
    case Infinite(_) => true
    case Finite(r) => r < 0.0 || r > 10.0
  }

  /** A token `addScores` passes over: blank after trimming, or a number within the score range. */
  predicate Acceptable(token: string, parseFloat: string -> Option<FloatValue>) {
    var t := Trim(token);
    t == [] || (parseFloat(t).Some? && !OutOfScoreRange(parseFloat(t).value))
  }

  predicate AllAcceptable(tokens: seq<string>, parseFloat: string -> Option<FloatValue>) {
    forall i :: 0 <= i < |tokens| ==> Acceptable(tokens[i], parseFloat)
  }

  datatype ScoreOutcome = EmptyScores | InvalidFormat | OutOfRange | NoScores | ScoresAdded(arrowCount: int)

  /** How the first token `addScores` refuses ends the operation. */
  function Refusal(token: string, parseFloat: string -> Option<FloatValue>): ScoreOutcome {
    if parseFloat(Trim(token)).None? then InvalidFormat else OutOfRange
  }

  /** The number of tokens that are not blank after trimming. */
  function CountNonBlank(tokens: seq<string>): nat {
    if tokens == [] then 0
    else CountNonBlank(tokens[..|tokens| - 1]) + (if Trim(tokens[|tokens| - 1]) != [] then 1 else 0)
  }

  /** The token loop of `addScores`: the number of scores read, or how the first refused token stops it. */
  datatype Scan = Scanned(count: nat) | Stopped(outcome: ScoreOutcome)

  function ScanScores(tokens: seq<string>, parseFloat: string -> Option<FloatValue>): (r: Scan)
    ensures r.Scanned? <==> AllAcceptable(tokens, parseFloat)
    ensures r.Scanned? ==> r.count == CountNonBlank(tokens)
    ensures r.Stopped? ==> r.outcome == InvalidFormat || r.outcome == OutOfRange
    ensures r.Stopped? ==>
      exists i :: (0 <= i < |tokens| && !Acceptable(tokens[i], parseFloat)
        && (forall j :: 0 <= j < i ==> Acceptable(tokens[j], parseFloat))
        && r.outcome == Refusal(tokens[i], parseFloat))
  {
    if tokens == [] then Scanned(0)
    else
      var init := tokens[..|tokens| - 1];
      var last := tokens[|tokens| - 1];
      assert forall i :: 0 <= i < |init| ==> init[i] == tokens[i];
      match ScanScores(init, parseFloat)
      case Stopped(o) => Stopped(o)
      case Scanned(n) =>
        if Acceptable(last, parseFloat) then
          Scanned(n + (if Trim(last) != [] then 1 else 0))
        else
          Stopped(Refusal(last, parseFloat))
  }

  /**
   * `addScores` on the typed text: empty text, the first refused token, no
   * score at all, or the number of scores (a Java `int` counter).
   */
  function ReadScores(input: string, parseFloat: string -> Option<FloatValue>): (o: ScoreOutcome)
    ensures o == EmptyScores <==> input == []
    ensures o.ScoresAdded? ==> o.arrowCount == Wrap32(CountNonBlank(Split(input, ','))) && o.arrowCount != 0
    ensures o.ScoresAdded? || o == NoScores ==> AllAcceptable(Split(input, ','), parseFloat)
    ensures input != [] && AllAcceptable(Split(input, ','), parseFloat) ==> o.ScoresAdded? || o == NoScores
    ensures o == NoScores <==>
      input != [] && AllAcceptable(Split(input, ','), parseFloat) && Wrap32(CountNonBlank(Split(input, ','))) == 0
    ensures input != [] && AllAcceptable(Split(input, ','), parseFloat)
            && Wrap32(CountNonBlank(Split(input, ','))) != 0 ==>
      o == ScoresAdded(Wrap32(CountNonBlank(Split(input, ','))))
    ensures input != [] && !AllAcceptable(Split(input, ','), parseFloat) ==>
      o == ScanScores(Split(input, ','), parseFloat).outcome
  {
    if input == [] then EmptyScores
    else
      var scan := ScanScores(Split(input, ','), parseFloat);
      if scan.Stopped? then
        assert scan.outcome == InvalidFormat || scan.outcome == OutOfRange;
        scan.outcome
      else if Wrap32(scan.count) == 0 then NoScores
      else ScoresAdded(Wrap32(scan.count))
  }

  /** A blank-only text has no score to add. */
  lemma BlankScoresAddNothing(input: string, parseFloat: string -> Option<FloatValue>)
    requires input != []
    requires forall i :: 0 <= i < |Split(input, ',')| ==> Trim(Split(input, ',')[i]) == []
    ensures ReadScores(input, parseFloat) == NoScores
  {
    BlankCount(Split(input, ','));
  }

  lemma {:induction false} BlankCount(tokens: seq<string>)
    requires forall i :: 0 <= i < |tokens| ==> Trim(tokens[i]) == []
    ensures CountNonBlank(tokens) == 0
  {
    if tokens != [] {
      BlankCount(tokens[..|tokens| - 1]);
    }
  }

  /** The message under the objective on the main screen. */
  datatype GoalMessage = CalcError | Ended | AlreadyReached | TodayDone(dailyTarget: int)
                       | StillNeeded(stillNeededToday: int, dailyTarget: int)

  /**
   * `calculateDailyGoalMessage`, with the days remaining counted between
   * calendar days: an unreadable end date is an error; no day left ends the
   * objective; a reached target needs nothing; otherwise the arrows per day
   * that reach the target, less what was shot today, never below 0.
   */
  function DailyGoalMessage(targetArrows: int, currentProgress: int, endDate: Option<CalDate>, today: CalDate,
                            currentSum: int): (g: GoalMessage)
    ensures g == CalcError <==> endDate.None?
    ensures g == Ended <==> endDate.Some? && DaysRemaining(endDate, today) <= 0
    ensures g == AlreadyReached
      <==> endDate.Some? && DaysRemaining(endDate, today) > 0 && Wrap32(targetArrows - currentProgress) <= 0
    ensures g.TodayDone? || g.StillNeeded? ==>
      g.dailyTarget == DailyTarget(targetArrows, currentProgress, DaysRemaining(endDate, today))
      && g.dailyTarget > 0
    ensures g.TodayDone? ==> Wrap32(g.dailyTarget - currentSum) <= 0
    ensures g.TodayDone? && InInt32(g.dailyTarget - currentSum) ==> currentSum >= g.dailyTarget
    ensures g.StillNeeded? ==> g.stillNeededToday == Wrap32(g.dailyTarget - currentSum) > 0
  {
    match endDate
    case None => CalcError
    case Some(_) =>
      var daysRemaining := DaysRemaining(endDate, today);
      if daysRemaining <= 0 then Ended
      else
        var remainingArrows := Wrap32(targetArrows - currentProgress);
        if remainingArrows <= 0 then AlreadyReached
        else
          var dailyTarget := CeilDiv(remainingArrows, daysRemaining);
          var needed := Wrap32(dailyTarget - currentSum);
          var stillNeededToday := if needed > 0 then needed else 0;
          if stillNeededToday == 0 then TodayDone(dailyTarget) else StillNeeded(stillNeededToday, dailyTarget)
  }

  /** The state `MainActivity` keeps for the day and the history. */
  class ArrowLedger {
    var currentSum: int
    var lastSum: int
    var lastAddedValue: int
    var totalScoreCount: int
    var currentDate: CalDate
    var history: DayMap

    /** Every count is a Java `int`. */
    predicate Valid()
      reads this
    {
      InInt32(currentSum) && InInt32(lastSum) && InInt32(lastAddedValue) && InInt32(totalScoreCount)
      && forall d :: d in history ==> InInt32(history[d])
    }

    /**
     * A first start: nothing is saved, so nothing is counted, the day is
     * today, and `onCreate` puts today's count of 0 into the history.
     */
    constructor(today: CalDate)
      ensures currentSum == 0 && lastSum == 0 && lastAddedValue == 0 && totalScoreCount == 0
      ensures currentDate == today && history == map[today := 0]
      ensures Valid()
    {
      currentSum := 0;
      lastSum := 0;
      lastAddedValue := 0;
      totalScoreCount := 0;
      currentDate := today;
      history := map[today := 0];
    }

    /**
     * `onCreate` on a later start, with the saved state already in the
     * object: the daily reset, then today's count is put into the history.
     */
    method OnCreate(today: CalDate)
      modifies this`history, this`lastSum, this`currentSum, this`lastAddedValue, this`totalScoreCount,
               this`currentDate
      ensures currentDate == today
      ensures old(currentDate) == today ==>
        history == old(history)[today := old(currentSum)] && lastSum == old(lastSum)
        && currentSum == old(currentSum) && lastAddedValue == old(lastAddedValue)
        && totalScoreCount == old(totalScoreCount)
      ensures old(currentDate) != today ==>
        history == old(history)[old(currentDate) := old(currentSum)][today := 0] && lastSum == old(currentSum)
        && currentSum == 0 && lastAddedValue == 0 && totalScoreCount == 0
      ensures today in history && history[today] == currentSum
      ensures old(Valid()) ==> Valid()
    {
      CheckDailyReset(today);
      history := history[currentDate := currentSum];
    }

    /**
     * `addArrowCount`: a typed integer, negative ones included, is added to
     * today's count (with `int` wrap-around) and remembered for undo; empty
     * or non-integer text changes nothing.
     */
    method AddArrowCount(input: string) returns (outcome: AddOutcome)
      modifies this`currentSum, this`lastAddedValue
      ensures outcome == ReadArrowCount(input)
      ensures outcome.Added? ==>
        currentSum == Wrap32(old(currentSum) + outcome.number) && lastAddedValue == outcome.number
      ensures !outcome.Added? ==> currentSum == old(currentSum) && lastAddedValue == old(lastAddedValue)
      ensures old(Valid()) ==> Valid()
    {
      outcome := ReadArrowCount(input);
      if outcome.Added? {
        currentSum := Wrap32(currentSum + outcome.number);
        lastAddedValue := outcome.number;
      }
    }

    /**
     * `addScores`: the comma-separated scores are read one by one; the first
     * malformed or out-of-range score refuses the whole text, as does a text
     * with no score; otherwise one arrow per score is added to today's count
     * and to the score count, and that number is remembered for undo.
     */
    method AddScores(input: string, parseFloat: string -> Option<FloatValue>) returns (outcome: ScoreOutcome)
      modifies this`currentSum, this`totalScoreCount, this`lastAddedValue
      ensures outcome == ReadScores(input, parseFloat)
      ensures outcome.ScoresAdded? ==>
        currentSum == Wrap32(old(currentSum) + outcome.arrowCount)
        && totalScoreCount == Wrap32(old(totalScoreCount) + outcome.arrowCount)
        && lastAddedValue == outcome.arrowCount
      ensures !outcome.ScoresAdded? ==>
        currentSum == old(currentSum) && totalScoreCount == old(totalScoreCount)
        && lastAddedValue == old(lastAddedValue)
      ensures old(Valid()) ==> Valid()
    {
      if input == [] {
        return EmptyScores;
      }
      var scan, arrowCount := CountScores(Split(input, ','), parseFloat);
      if scan.Stopped? {
        return scan.outcome;
      }
      if arrowCount == 0 {
        return NoScores;
      }
      currentSum := Wrap32(currentSum + arrowCount);
      totalScoreCount := Wrap32(totalScoreCount + arrowCount);
      lastAddedValue := arrowCount;
      outcome := ScoresAdded(arrowCount);
    }

    /**
     * `undoLastAdd`: only a positive last addition that today's count still
     * covers is taken back, once; otherwise nothing changes.
     */
    method UndoLastAdd() returns (undone: bool)
      modifies this`currentSum, this`lastAddedValue
      ensures undone <==> old(lastAddedValue) > 0 && old(currentSum) >= old(lastAddedValue)
      ensures undone ==> currentSum == old(currentSum) - old(lastAddedValue) && lastAddedValue == 0
      ensures !undone ==> currentSum == old(currentSum) && lastAddedValue == old(lastAddedValue)
      ensures undone ==> 0 <= currentSum < old(currentSum)
      ensures old(Valid()) ==> Valid()
    {
      undone := lastAddedValue > 0 && currentSum >= lastAddedValue;
      if undone {
        currentSum := currentSum - lastAddedValue;
        lastAddedValue := 0;
      }
    }

    /**
     * `checkDailyReset`: on a new day, the finished day's count goes into
     * the history (0 included) and becomes yesterday's count, and the day's
     * counters restart from 0; on the same day nothing changes.
     */
    method CheckDailyReset(today: CalDate)
      modifies this`history, this`lastSum, this`currentSum, this`lastAddedValue, this`totalScoreCount,
               this`currentDate
      ensures currentDate == today
      ensures old(currentDate) == today ==>
        history == old(history) && lastSum == old(lastSum) && currentSum == old(currentSum)
        && lastAddedValue == old(lastAddedValue) && totalScoreCount == old(totalScoreCount)
      ensures old(currentDate) != today ==>
        history == old(history)[old(currentDate) := old(currentSum)] && lastSum == old(currentSum)
        && currentSum == 0 && lastAddedValue == 0 && totalScoreCount == 0
      ensures old(Valid()) ==> Valid()
    {
      if today != currentDate {
        history := history[currentDate := currentSum];
        lastSum := currentSum;
        currentSum := 0;
        lastAddedValue := 0;
        currentDate := today;
        totalScoreCount := 0;
      }
    }

    /** The number of the given days that the history holds. */
    method CountStored(days: set<CalDate>) returns (n: nat)
      ensures n == |days * history.Keys|
    {
      n := 0;
      var rest := days;
      ghost var seen: set<CalDate> := {};
      ghost var keys := history.Keys;
      while rest != {}
        invariant seen !! rest && seen + rest == days
        invariant n == |seen * keys|
        decreases |rest|
      {
        var date :| date in rest;
        StoredStep(seen, date, keys);
        if date in history {
          n := n + 1;
        }
        rest := rest - {date};
        seen := seen + {date};
      }
    }

    /**
     * The overwrite count of `mergeImportedData` as written: the imported
     * days the history already holds.
     */
    method CountOverwritesAsWritten(importedData: DayMap) returns (overwriteCount: nat)
      ensures overwriteCount == |importedData.Keys * history.Keys|
      ensures overwriteCount <= ReplacedCount(history, importedData)
    {
      overwriteCount := CountStored(importedData.Keys);
    }

    /**
     * The corrected overwrite count: every stored day of the import range,
     * imported or filled with 0 by the merge.
     */
    method CountReplaced(importedData: DayMap) returns (replacedCount: nat)
      ensures replacedCount == ReplacedCount(history, importedData)
    {
      replacedCount := CountStored(GapFilled(importedData).Keys);
      assert GapFilled(importedData).Keys * history.Keys == ReplacedDays(history, importedData);
    }

    /**
     * `mergeImportedData`: the figures of the confirmation prompt, the number
     * of imported days and the overwrite count as written, next to the
     * corrected count of the entries the merge replaces.
     */
    method MergeImportedData(importedData: DayMap) returns (size: nat, overwriteCount: nat, replacedCount: nat)
      ensures size == |importedData|
      ensures overwriteCount == |importedData.Keys * history.Keys|
      ensures replacedCount == ReplacedCount(history, importedData)
      ensures overwriteCount <= replacedCount
    {
      size := |importedData|;
      overwriteCount := CountOverwritesAsWritten(importedData);
      replacedCount := CountReplaced(importedData);
    }

    /**
     * `performDataMerge`: the earliest and latest imported days, the gap
     * fill between them, then every entry put into the history; returns the
     * number of entries put.
     */
    method PerformDataMerge(importedData: DayMap) returns (importedCount: nat)
      modifies this`history
      ensures history == Merged(old(history), importedData)
      ensures importedCount == |GapFilled(importedData)|
      ensures old(Valid()) && (forall d :: d in importedData ==> InInt32(importedData[d])) ==> Valid()
    {
      var minDate, maxDate := ImportBounds(importedData);
      var filled := importedData;
      if minDate.Some? && maxDate.Some? {
        filled := FillGaps(importedData, minDate.value, maxDate.value);
      } else {
        assert GapFilled(importedData) == importedData;
      }
      importedCount := PutAll(filled);
    }

    /**
     * The import: the file is read (`processCsvFile`); when a line was read,
     * the prompt figures are computed (`mergeImportedData`) and the merge is
     * performed if the user confirms. The prompt shows `overwriteCount`;
     * `replacedCount` is the corrected figure.
     */
    method ImportCsv(lines: seq<string>, confirmed: bool) returns (importedCount: nat, overwriteCount: nat, replacedCount: nat)
      modifies this`history
      ensures importedCount == Readable(ParseRows(DataLines(lines)))
      ensures importedCount > 0 ==> overwriteCount == |ImportRows(DataLines(lines)).Keys * old(history).Keys|
      ensures importedCount > 0 ==> replacedCount == ReplacedCount(old(history), ImportRows(DataLines(lines)))
      ensures importedCount > 0 && confirmed ==> history == Merged(old(history), ImportRows(DataLines(lines)))
      ensures importedCount == 0 || !confirmed ==> history == old(history)
      ensures old(Valid()) ==> Valid()
    {
      var importedData;
      importedData, importedCount := ProcessCsvFile(lines);
      overwriteCount, replacedCount := 0, 0;
      if importedCount > 0 {
        var size;
        size, overwriteCount, replacedCount := MergeImportedData(importedData);
        if confirmed {
          var merged := PerformDataMerge(importedData);
        }
      }
    }

    /** The days `exportDataToCsv` writes: the history, and today's count when it is not negative. */
    function ExportedDays(): (m: DayMap)
      reads this
      ensures currentSum >= 0 ==> currentDate in m && m[currentDate] == currentSum
      ensures currentSum < 0 ==> m == history
      ensures forall d :: d != currentDate ==> (d in m <==> d in history)
      ensures forall d :: d != currentDate && d in m ==> m[d] == history[d]
    {
      if currentSum >= 0 then history[currentDate := currentSum] else history
    }

    /** The lines of the exported file. */
    function ExportData(): seq<string>
      reads this
    {
      ExportLines(ExportedDays())
    }

    /** Importing the exported file reads back every exported day with its count. */
    lemma ExportThenImport()
      requires Valid()
      requires forall d :: d in ExportedDays() ==> d.year >= 1
      ensures ImportRows(DataLines(ExportData())) == ExportedDays()
    {
      ExportImportRoundTrip(ExportedDays());
    }

    /**
     * `calculateObjectiveProgress`: the stored counts from the objective's
     * start day to today, plus today's count.
     */
    method CalculateObjectiveProgress(startDate: Option<CalDate>, today: CalDate) returns (progress: int)
      ensures progress == Total(Span(history, startDate, today)) + currentSum
    {
      progress := CalculateCurrentProgress(history, startDate, today, currentSum);
    }

    /** Every entry of `entries` put into the history, in any order. */
    method PutAll(entries: DayMap) returns (count: nat)
      modifies this`history
      ensures history == old(history) + entries
      ensures count == |entries|
    {
      count := 0;
      var rest := entries.Keys;
      ghost var seen: set<CalDate> := {};
      while rest != {}
        invariant seen !! rest && seen + rest == entries.Keys
        invariant history == old(history) + Part(entries, seen)
        invariant count == |seen|
        decreases |rest|
      {
        var date :| date in rest;
        PartStep(old(history), entries, seen, date);
        history := history[date := entries[date]];
        count := count + 1;
        rest := rest - {date};
        seen := seen + {date};
      }
      assert Part(entries, seen) == entries;
    }
  }

  /** One more day looked up adds one to the count of stored days exactly when it is stored. */
  lemma StoredStep(seen: set<CalDate>, date: CalDate, keys: set<CalDate>)
    requires date !in seen
    ensures |(seen + {date}) * keys| == |seen * keys| + (if date in keys then 1 else 0)
  {
    if date in keys {
      assert (seen + {date}) * keys == seen * keys + {date};
    } else {
      assert (seen + {date}) * keys == seen * keys;
    }
  }

  lemma PartStep(h: DayMap, m: DayMap, s: set<CalDate>, x: CalDate)
    requires x in m
    ensures h + Part(m, s + {x}) == (h + Part(m, s))[x := m[x]]
  {
  }

  /** Once a token is refused, the tokens after it no longer matter. */
  lemma {:induction false} StoppedScanFinal(tokens: seq<string>, k: int, parseFloat: string -> Option<FloatValue>)
    requires 0 <= k <= |tokens|
    requires ScanScores(tokens[..k], parseFloat).Stopped?
    ensures ScanScores(tokens, parseFloat) == ScanScores(tokens[..k], parseFloat)
    decreases |tokens| - k
  {
    if k < |tokens| {
      var init := tokens[..|tokens| - 1];
      assert init[..k] == tokens[..k];
      StoppedScanFinal(init, k, parseFloat);
    } else {
      assert tokens[..k] == tokens;
    }
  }

  /** `arrowCount++` on a Java `int` counter that holds the wrapped count `n`. */
  method Increment(arrowCount: int, ghost n: nat) returns (next: int)
    requires arrowCount == Wrap32(n)
    ensures next == Wrap32(n + 1)
  {
    WrapAdd(n, 1);
    next := Wrap32(arrowCount + 1);
  }

  /** One more token scanned after `n` scores read. */
  lemma ScanStep(tokens: seq<string>, i: int, n: nat, parseFloat: string -> Option<FloatValue>)
    requires 0 <= i < |tokens| && ScanScores(tokens[..i], parseFloat) == Scanned(n)
    ensures ScanScores(tokens[..i + 1], parseFloat)
         == if Acceptable(tokens[i], parseFloat) then Scanned(n + (if Trim(tokens[i]) != [] then 1 else 0))
            else Stopped(Refusal(tokens[i], parseFloat))
  {
    assert tokens[..i + 1][..i] == tokens[..i];
  }

  /**
   * The token loop of `addScores`: trimmed blank tokens are passed over, the
   * first malformed or out-of-range score stops the loop, and the scores
   * read are counted in a Java `int`.
   */
  method CountScores(scoreStrings: seq<string>, parseFloat: string -> Option<FloatValue>)
    returns (scan: Scan, arrowCount: int)
    ensures scan == ScanScores(scoreStrings, parseFloat)
    ensures scan.Scanned? ==> arrowCount == Wrap32(scan.count)
  {
    arrowCount := 0;
    var count: nat := 0;
    var i := 0;
    while i < |scoreStrings|
      invariant 0 <= i <= |scoreStrings|
      invariant ScanScores(scoreStrings[..i], parseFloat) == Scanned(count)
      invariant arrowCount == Wrap32(count)
    {
      ScanStep(scoreStrings, i, count, parseFloat);
      var scoreStr := Trim(scoreStrings[i]);
      if scoreStr != [] {
        var score := parseFloat(scoreStr);
        if score.None? || OutOfScoreRange(score.value) {
          scan := Stopped(if score.None? then InvalidFormat else OutOfRange);
          StoppedScanFinal(scoreStrings, i + 1, parseFloat);
          return scan, arrowCount;
        }
        arrowCount := Increment(arrowCount, count);
        count := count + 1;
      }
      i := i + 1;
    }
    assert scoreStrings[..i] == scoreStrings;
    scan := Scanned(count);
  }

  /**
   * Adding a positive count and undoing it restores today's count, provided
   * today's count was not negative (otherwise the undo guard refuses) and
   * the addition did not wrap around.
   */
  method AddThenUndo(ledger: ArrowLedger, input: string) returns (undone: bool)
    modifies ledger
    ensures var o := ReadArrowCount(input);
      o.Added? && o.number > 0 && old(ledger.currentSum) >= 0 && InInt32(old(ledger.currentSum) + o.number) ==>
        undone && ledger.currentSum == old(ledger.currentSum) && ledger.lastAddedValue == 0
  {
    var outcome := ledger.AddArrowCount(input);
    undone := ledger.UndoLastAdd();
  }

  /**
   * On a first start the history already holds today, so an import that
   * names today counts one entry to replace in its prompt.
   */
  method FirstStartImportOfToday(today: CalDate, importedData: DayMap)
    returns (overwriteCount: nat)
    ensures overwriteCount == if today in importedData then 1 else 0
  {
    var ledger := new ArrowLedger(today);
    var size, replacedCount;
    size, overwriteCount, replacedCount := ledger.MergeImportedData(importedData);
    if today in importedData {
      assert importedData.Keys * ledger.history.Keys == {today};
    } else {
      assert importedData.Keys * ledger.history.Keys == {};
    }
  }

  /**
   * Adding a batch of scores and undoing it restores today's count, under the
   * same provisos: a count that was not negative and no wrap-around.
   */
  method AddScoresThenUndo(ledger: ArrowLedger, input: string, parseFloat: string -> Option<FloatValue>)
    returns (undone: bool)
    modifies ledger
    ensures var o := ReadScores(input, parseFloat);
      o.ScoresAdded? && o.arrowCount > 0 && old(ledger.currentSum) >= 0
      && InInt32(old(ledger.currentSum) + o.arrowCount) ==>
        undone && ledger.currentSum == old(ledger.currentSum) && ledger.lastAddedValue == 0
  {
    var outcome := ledger.AddScores(input, parseFloat);
    undone := ledger.UndoLastAdd();
  }

  /** A second undo in a row never takes anything back. */
  method UndoTwice(ledger: ArrowLedger) returns (first: bool, second: bool)
    modifies ledger
    ensures !second
    ensures ledger.currentSum == if first then old(ledger.currentSum) - old(ledger.lastAddedValue) else old(ledger.currentSum)
  {
    first := ledger.UndoLastAdd();
    second := ledger.UndoLastAdd();
  }

  /** The first loop of `performDataMerge`: the earliest and the latest imported day, in key order. */
  method ImportBounds(importedData: DayMap) returns (minDate: Option<CalDate>, maxDate: Option<CalDate>)
    ensures minDate.Some? <==> importedData != map[]
    ensures maxDate.Some? <==> importedData != map[]
    ensures minDate.Some? ==> minDate.value == Earliest(importedData.Keys)
    ensures maxDate.Some? ==> maxDate.value == Latest(importedData.Keys)
  {
    minDate, maxDate := None, None;
    var keys := importedData.Keys;
    while keys != {}
      invariant keys <= importedData.Keys
      invariant minDate.Some? <==> keys != importedData.Keys
      invariant maxDate.Some? <==> keys != importedData.Keys
      invariant minDate.Some? ==>
        minDate.value in importedData && forall d :: d in importedData && d !in keys ==> !Before(d, minDate.value)
      invariant maxDate.Some? ==>
        maxDate.value in importedData && forall d :: d in importedData && d !in keys ==> !Before(maxDate.value, d)
      decreases |keys|
    {
      var date :| date in keys;
      if minDate.None? || Before(date, minDate.value) {
        minDate := Some(date);
      }
      if maxDate.None? || Before(maxDate.value, date) {
        maxDate := Some(date);
      }
      keys := keys - {date};
    }
    if minDate.Some? {
      IsEarliest(importedData.Keys, minDate.value);
      IsLatest(importedData.Keys, maxDate.value);
    } else {
      assert importedData.Keys == {};
    }
  }

  /** The second loop of `performDataMerge`: every missing day from `lo` to `hi` added with 0. */
  method FillGaps(importedData: DayMap, lo: CalDate, hi: CalDate) returns (filled: DayMap)
    requires importedData != map[]
    requires lo == Earliest(importedData.Keys) && hi == Latest(importedData.Keys)
    ensures filled == GapFilled(importedData)
  {
    ghost var days := Range(lo, hi);
    ghost var k := 0;
    filled := importedData;
    var calendar := lo;
    BeforeIsChronological(hi, calendar);
    while !Before(hi, calendar)
      invariant 0 <= k <= |days|
      invariant Ordinal(calendar) == Ordinal(lo) + k
      invariant filled == ZeroFill(importedData, days[..k])
      invariant Before(hi, calendar) <==> Ordinal(hi) < Ordinal(calendar)
      decreases Ordinal(hi) - Ordinal(calendar)
    {
      OrdinalInjective(days[k], calendar);
      TakeOneMore(days, k);
      ZeroFillStep(importedData, days[..k], calendar);
      if calendar !in filled {
        filled := filled[calendar := 0];
      }
      calendar := NextDay(calendar);
      k := k + 1;
      BeforeIsChronological(hi, calendar);
    }
    assert days[..k] == days;
  }
}
