# Archery sum — a verified model of the practice counter

Archery sum is an Android app for keeping count of the arrows an archer
shoots. On the main screen the archer adds arrow counts, or enters scores
with one arrow counted per score. The last addition can be undone. When
the date changes, the day's count moves into a per-day history. The
history can be exported to a CSV file and imported back; an import merges
a file into the history after a confirmation prompt. The statistics
screen shows the week, month or year around today, or an earlier one,
with the total, the days shot and the best day. The objectives screen
sets a target number of arrows for the current week, month or year. It
tracks the progress since the period began and recommends a number of
arrows per day.

This project models that core in Dafny:

- Days are calendar dates (`Calendar`), and the history is a map from
  dates to counts (`History`).
- Java `int` arithmetic is written out where the app relies on it
  (`JavaInt`): 32-bit wrap-around, truncating division and `Math.ceil`.
- `Text` and `DateText` cover integer parsing and formatting, CSV field
  splitting and the three date formats of the app.
- `Csv` covers the file format, the import loop and the export.
- `Merge` covers the gap-filling merge.
- `Ledger` covers the main screen's state (`ArrowLedger`) and its goal
  message.
- `Stats` covers the statistics screen (`StatsScreen`).
- `Objectives` covers the objectives screen (`ObjectiveStore`) and its
  day counts.

State the app changes in place is modelled as classes whose methods name
what they modify. Pure computations are functions with lemmas. Each loop
of the source is a method proved against a specification function.

## Model

All source paths are under `app/src/main/java/com/example/sumapp/`; the
table writes them out in full.

| member | source | states |
|---|---|---|
| Ledger.ArrowLedger.constructor | app/src/main/java/com/example/sumapp/MainActivity.java:68-148 | A first start has no count, no undo value and no score count, and the current day is today; its history holds only today, with 0. |
| Ledger.ArrowLedger.OnCreate | app/src/main/java/com/example/sumapp/MainActivity.java:142-148 | A later start runs the daily reset and then puts today's count into the history, so the history always holds today with the current count. |
| Ledger.FirstStartImportOfToday | app/src/main/java/com/example/sumapp/MainActivity.java:548-558 | On a first start, an import that names today counts one stored entry to replace, and none otherwise. |
| Ledger.ReadArrowCount | app/src/main/java/com/example/sumapp/MainActivity.java:310-330 | Empty text, text `Integer.parseInt` refuses, and a number to add are told apart exactly (each an if-and-only-if); the number is a Java `int`. |
| Ledger.ArrowLedger.AddArrowCount | app/src/main/java/com/example/sumapp/MainActivity.java:310-330 | A read number, negative ones included, is added to today's count with `int` wrap-around and kept for undo; any other text changes nothing; all counts stay Java `int`s. |
| Ledger.ScanScores | app/src/main/java/com/example/sumapp/MainActivity.java:345-358 | The score loop reads every token exactly when every token is blank or an in-range number, counting the non-blank ones; otherwise it stops at the first refused token, with "invalid format" when that token is not a number and "out of range" otherwise. |
| Ledger.CountScores | app/src/main/java/com/example/sumapp/MainActivity.java:345-358 | The loop computes exactly that scan, its counter being the number of scores read in a Java `int`. |
| Ledger.ReadScores | app/src/main/java/com/example/sumapp/MainActivity.java:332-385 | Empty text is refused first; scores are added only when every token is acceptable and at least one is a score, and then the count is the number of non-blank tokens; a text whose tokens are all acceptable is never refused. |
| Ledger.BlankScoresAddNothing | app/src/main/java/com/example/sumapp/MainActivity.java:344-360 | Text made of blank tokens only adds no score. |
| Ledger.ArrowLedger.AddScores | app/src/main/java/com/example/sumapp/MainActivity.java:332-385 | On success, today's count and the score count grow by the number of scores and that number is kept for undo; on any refusal nothing changes. |
| Ledger.ArrowLedger.UndoLastAdd | app/src/main/java/com/example/sumapp/MainActivity.java:387-398 | An undo happens exactly when the last addition is positive and today's count covers it; it subtracts that addition, clears it, and leaves today's count non-negative and smaller; otherwise nothing changes. |
| Ledger.AddThenUndo | app/src/main/java/com/example/sumapp/MainActivity.java:310-330 | Adding a positive count to a non-negative count without overflow and then undoing restores today's count. |
| Ledger.AddScoresThenUndo | app/src/main/java/com/example/sumapp/MainActivity.java:363-366 | Adding a positive batch of scores to a non-negative count without overflow and then undoing restores today's count. |
| Ledger.UndoTwice | app/src/main/java/com/example/sumapp/MainActivity.java:387-398 | A second undo in a row never takes anything back. |
| Ledger.ArrowLedger.CheckDailyReset | app/src/main/java/com/example/sumapp/MainActivity.java:277-300 | On a new day, the finished day's count, 0 included, is stored in the history and becomes yesterday's count, and the day's counters restart at 0; on the same day nothing changes. |
| Csv.ParseRow | app/src/main/java/com/example/sumapp/MainActivity.java:482-495 | A line is read exactly when it has at least two fields, its trimmed second field is a Java `int` and its trimmed first field is a date in one of the three accepted formats; the row holds that date and that count. |
| Csv.ProcessCsvFile | app/src/main/java/com/example/sumapp/MainActivity.java:460-500 | The row loop skips the first line, builds the map the readable lines define and counts those lines, duplicates included. |
| Csv.CollectMembers | app/src/main/java/com/example/sumapp/MainActivity.java:486-489 | A day is imported exactly when some readable line names it. |
| Csv.CollectLastWins | app/src/main/java/com/example/sumapp/MainActivity.java:486-489 | An imported day's count is the count of a readable line naming that day. |
| Csv.ReadablePositive | app/src/main/java/com/example/sumapp/MainActivity.java:504-511 | The import proceeds (some line was read) exactly when the imported map is not empty, and it never holds more days than lines read. |
| Csv.ExportLines | app/src/main/java/com/example/sumapp/MainActivity.java:419-434 | The export writes the header and then one line per day. |
| Csv.RowRoundTrip | app/src/main/java/com/example/sumapp/MainActivity.java:429-432 | An exported line reads back as its day and count. |
| Csv.ExportImportRoundTrip | app/src/main/java/com/example/sumapp/MainActivity.java:405-500 | Importing the lines after the header of an exported file gives back exactly the exported map, for days from year 1 on. |
| Ledger.ArrowLedger.ExportedDays | app/src/main/java/com/example/sumapp/MainActivity.java:422-426 | The exported days are the history plus today with today's count when that count is not negative; every other day is exported as stored. |
| Ledger.ArrowLedger.ExportThenImport | app/src/main/java/com/example/sumapp/MainActivity.java:405-500 | Importing the app's own export reads back every exported day with its count. |
| DateText.DisplayRoundTrip | app/src/main/java/com/example/sumapp/MainActivity.java:519-544 | A date written as `dd/MM/yyyy` is read back as that date by the first format the import tries. |
| DateText.InternalRoundTrip | app/src/main/java/com/example/sumapp/MainActivity.java:640-649 | An internal `yyyy-MM-dd` key reads back as its date. |
| DateText.DateConversionRoundTrip | app/src/main/java/com/example/sumapp/MainActivity.java:519-544 | Displaying an internal key and converting the display back gives the key. |
| DateText.MonthFirstFallback | app/src/main/java/com/example/sumapp/MainActivity.java:527-533 | A `MM/dd/yyyy` date whose day exceeds 12 is read month-first, as the fallback intends. |
| DateText.KeyOrderIsDateOrder | app/src/main/java/com/example/sumapp/ObjectivesActivity.java:291 | For years 1 to 9999, comparing internal keys as strings orders them as the dates they name. |
| DateText.MonthFirstMisread | app/src/main/java/com/example/sumapp/MainActivity.java:519-544 | For every month-first date whose day exceeds 12, the conversion as written gives a later date in a later year, while the strict conversion gives the date itself. |
| DateText.MonthFirstFallbackUnreachable | app/src/main/java/com/example/sumapp/MainActivity.java:519-544 | As written, "12/25/2024" imports as 2026-01-12; the strict conversion gives 2024-12-25. |
| DateText.AsWrittenReadsExports | app/src/main/java/com/example/sumapp/MainActivity.java:519-525 | On the app's own `dd/MM/yyyy` output, the conversion as written agrees with the strict one. |
| Ledger.ArrowLedger.CountOverwritesAsWritten | app/src/main/java/com/example/sumapp/MainActivity.java:548-553 | The prompt's count as written is the number of imported days already stored, which is never more than the entries the merge replaces. |
| Merge.GapFilled | app/src/main/java/com/example/sumapp/MainActivity.java:586-607 | The filled import holds exactly the days from its earliest to its latest day, keeps each imported count, and gives 0 to the others. |
| Merge.Merged | app/src/main/java/com/example/sumapp/MainActivity.java:572-623 | After the merge, imported days hold their imported counts (replacing stored ones), the other days of the import range hold 0 even when a count was stored, days outside the range are untouched, and an empty import changes nothing. |
| Merge.ReplacedCount | app/src/main/java/com/example/sumapp/MainActivity.java:546-570 | The corrected prompt count is the number of stored days in the import range, never less than the count as written. |
| Merge.PromptCountExact | app/src/main/java/com/example/sumapp/MainActivity.java:548-553 | The count as written equals the replaced entries exactly when every stored day of the import range is itself imported. |
| Merge.PromptMissesGapDays | app/src/main/java/com/example/sumapp/MainActivity.java:548-607 | A stored day between two imported days is set to 0 without the prompt counting it. |
| Ledger.ArrowLedger.MergeImportedData | app/src/main/java/com/example/sumapp/MainActivity.java:546-570 | The prompt shows the number of imported days and, as written, the number of imported days already stored; beside it the model gives the corrected count of stored entries the merge replaces, which is never smaller. |
| Ledger.ArrowLedger.CountReplaced | app/src/main/java/com/example/sumapp/MainActivity.java:586-614 | The corrected overwrite count: the stored days of the import range, imported or filled with 0. |
| Ledger.ImportBounds | app/src/main/java/com/example/sumapp/MainActivity.java:577-584 | The first loop finds the earliest and the latest imported day, and finds none for an empty import. |
| Ledger.FillGaps | app/src/main/java/com/example/sumapp/MainActivity.java:586-607 | The day-by-day loop from the earliest to the latest day produces the filled import. |
| Ledger.ArrowLedger.PutAll | app/src/main/java/com/example/sumapp/MainActivity.java:610-614 | Putting every entry, in any order, gives the history overridden by the entries, and counts the entries. |
| Ledger.ArrowLedger.PerformDataMerge | app/src/main/java/com/example/sumapp/MainActivity.java:572-623 | The history becomes the merge of the old history and the import; the count is the number of filled days; counts stay Java `int`s. |
| Ledger.ArrowLedger.ImportCsv | app/src/main/java/com/example/sumapp/MainActivity.java:460-570 | The file is read; when a line was read, the prompt shows the imported days already stored (as written) and the corrected count is computed; a confirmed import merges, while an empty file or a declined prompt leaves the history untouched. |
| Objectives.CalculateCurrentProgress | app/src/main/java/com/example/sumapp/ObjectivesActivity.java:280-301 | The loop, visiting the history in any order, computes the total of the stored counts from the start day to today plus the stored count of the current day. |
| Ledger.ArrowLedger.CalculateObjectiveProgress | app/src/main/java/com/example/sumapp/MainActivity.java:778-799 | The main screen's progress is the same total over the ledger's history plus today's count. |
| Objectives.TodayCountedTwice | app/src/main/java/com/example/sumapp/ObjectivesActivity.java:288-298 | The progress as written exceeds the progress counting today once by today's stored entry when the history holds one, and equals it otherwise. |
| Objectives.ProgressCountsTodayOnce | app/src/main/java/com/example/sumapp/ObjectivesActivity.java:280-301 | The corrected progress is the total over the history in which today's entry holds the current count. |
| Objectives.ProgressAfterPause | app/src/main/java/com/example/sumapp/MainActivity.java:909-914 | After a pause stored 30 arrows for today, the progress as written is 60 and the corrected one 30. |
| Ledger.DailyGoalMessage | app/src/main/java/com/example/sumapp/MainActivity.java:744-776 | An unreadable end date is an error, no day left ends the objective, a target reached (by the wrapped `int` difference) needs nothing; otherwise the daily target is the least positive per-day figure that reaches the target, and the message says what remains for today (a wrapped `int` difference), or that today is done. |
| Objectives.GetSelectedPeriod | app/src/main/java/com/example/sumapp/ObjectivesActivity.java:199-205 | Each checked button gives its own period, and no checked button gives the week. |
| Objectives.ObjectiveBoundsShape | app/src/main/java/com/example/sumapp/ObjectivesActivity.java:227-246 | A week objective runs Monday to Sunday, a month one from the first to the last day of the month, a year one from January 1 to December 31; the period holds today and has as many days as the preview announces. |
| Objectives.UpdatePreview | app/src/main/java/com/example/sumapp/ObjectivesActivity.java:146-197 | Empty text and a non-integer are told apart exactly; otherwise the period has at least 7 days, and the daily figure is the target divided by the days, truncated toward zero. |
| Objectives.PreviewMatchesObjective | app/src/main/java/com/example/sumapp/ObjectivesActivity.java:163-182 | The preview announces as many days as the objective it would save spans. |
| Objectives.ValidateTarget | app/src/main/java/com/example/sumapp/ObjectivesActivity.java:207-219 | An empty field, a non-integer, a target of 0 or less, and a positive target are told apart exactly, in that order. |
| Objectives.ObjectiveStore.constructor | app/src/main/java/com/example/sumapp/ObjectivesActivity.java:112 | No objective is active before one is saved. |
| Objectives.ObjectiveStore.SaveNewObjective | app/src/main/java/com/example/sumapp/ObjectivesActivity.java:207-268 | A refused target writes nothing; a positive one activates the objective with its type, its target and the bounds of the selected period. |
| Objectives.ObjectiveStore.StopCurrentObjective | app/src/main/java/com/example/sumapp/ObjectivesActivity.java:270-278 | Stopping clears the active flag and nothing else. |
| Objectives.DaysRemaining | app/src/main/java/com/example/sumapp/ObjectivesActivity.java:303-316 | The corrected day count: the days from today to the end day, both included; never negative; 0 once the end day is past or when no end day can be read. |
| Objectives.DaysRemainingOffByOne | app/src/main/java/com/example/sumapp/ObjectivesActivity.java:309-312 | With days of 24 hours, the count as written is one day short whenever the end day is after today and the clock is past midnight; at midnight, or from the end day on, it is exact. |
| Objectives.WeekObjectiveOnMondayMorning | app/src/main/java/com/example/sumapp/ObjectivesActivity.java:303-316 | On the Monday a week objective starts, one second after midnight, the count as written is 6 instead of 7. |
| Objectives.DailyTarget | app/src/main/java/com/example/sumapp/ObjectivesActivity.java:318-323 | With days left, the daily target is the least non-negative number that reaches the remaining arrows, the `int` difference of target and progress with wrap-around, over those days, and 0 exactly when nothing remains; with no day left it is 0. |
| Objectives.DailyTargetWraps | app/src/main/java/com/example/sumapp/ObjectivesActivity.java:321-322 | With the largest target and a progress of -1 the remaining arrows wrap to `Integer.MIN_VALUE` and the daily target is 0. |
| Stats.LoadArrowHistory | app/src/main/java/com/example/sumapp/StatsActivity.java:141-160 | The loaded history holds the current day with its stored count (0 by default) and every other persisted day as stored. |
| Stats.StatsScreen.constructor | app/src/main/java/com/example/sumapp/StatsActivity.java:65-66 | The screen opens on the current week, with the loaded history. |
| Stats.StatsScreen.OnTabSelected | app/src/main/java/com/example/sumapp/StatsActivity.java:103-107 | Choosing a tab selects its period and returns to the current period. |
| Stats.StatsScreen.OnPrevious | app/src/main/java/com/example/sumapp/StatsActivity.java:119-125 | "Previous" moves one period back, with `int` wrap-around, and keeps the offset at or before the current period. |
| Stats.StatsScreen.OnNext | app/src/main/java/com/example/sumapp/StatsActivity.java:127-135 | "Next" moves one period forward only while before the current period; it never passes the current period. |
| Stats.WeekWindow | app/src/main/java/com/example/sumapp/StatsActivity.java:273-285 | The week window starts on a Monday, the given number of weeks from this week's Monday, and ends six days later. |
| Stats.MonthWindow | app/src/main/java/com/example/sumapp/StatsActivity.java:287-297 | The month window is the whole month the given number of months from this month. |
| Stats.YearWindow | app/src/main/java/com/example/sumapp/StatsActivity.java:299-309 | The year window is January 1 to December 31 of the year the given number of years from this one. |
| Stats.PeriodWindow | app/src/main/java/com/example/sumapp/StatsActivity.java:272-314 | The week, month and year periods have a window; any other period has none and shows all the data. |
| Stats.WindowLength | app/src/main/java/com/example/sumapp/StatsActivity.java:272-309 | A window has 7 days, the days of its month, or the days of its year. |
| Stats.CurrentWindowHoldsToday | app/src/main/java/com/example/sumapp/StatsActivity.java:272-309 | The window at offset 0 contains today. |
| Stats.WindowsTile | app/src/main/java/com/example/sumapp/StatsActivity.java:119-135 | Consecutive offsets give adjacent windows: each window starts the day after the previous one ends, so paging skips and repeats no day. |
| Stats.StatsScreen.FilterDataByPeriod | app/src/main/java/com/example/sumapp/StatsActivity.java:265-333 | Without a window the result is the whole history in date order; with one it holds every day of the window in order, with its stored count or 0. |
| Stats.StatsScreen.FillWindow | app/src/main/java/com/example/sumapp/StatsActivity.java:316-332 | The day-by-day loop over a window yields every day from start to end, in order, with its stored count or 0. |
| Stats.CountPositiveExtremes | app/src/main/java/com/example/sumapp/StatsActivity.java:346-351 | The days with arrows are all the days of the period exactly when every day is positive, and none exactly when no day is. |
| Stats.MaxIsBestDay | app/src/main/java/com/example/sumapp/StatsActivity.java:347-354 | The best day is at least every day's count, and is 0 or some day's count. |
| Stats.UpdateStats | app/src/main/java/com/example/sumapp/StatsActivity.java:335-355 | The loops compute the period total with `int` wrap-around, the number of days, the days with arrows and the best day. |
| Stats.MaxAtMostTotal | app/src/main/java/com/example/sumapp/StatsActivity.java:335-355 | With no negative count, the best day never exceeds the unbounded sum of the counts, which is not negative. |
| Stats.WindowTotal | app/src/main/java/com/example/sumapp/StatsActivity.java:316-332 | The total over a window's zero-filled days equals the total of the stored counts within the window. |
| Stats.EntriesTotal | app/src/main/java/com/example/sumapp/StatsActivity.java:311-313 | The total over all data equals the total of the history. |
| Calendar.BeforeIsChronological | app/src/main/java/com/example/sumapp/StatsActivity.java:324 | A day is before another exactly when its day number is smaller. |
| Calendar.WeekStart | app/src/main/java/com/example/sumapp/ObjectivesActivity.java:165-167 | This week's Monday is a Monday, between 0 and 6 days before today. |
| Calendar.RangeIsInterval | app/src/main/java/com/example/sumapp/StatsActivity.java:319-332 | The days visited from a start day to an end day are exactly the days between them, both included. |
| History.Entries | app/src/main/java/com/example/sumapp/StatsActivity.java:311-313 | A `TreeMap`'s entries are the map's entries, one per day, in increasing day order. |
| History.TotalRemove | app/src/main/java/com/example/sumapp/ObjectivesActivity.java:288-295 | A total does not depend on the order in which the history is visited. |
| JavaInt.WrapAdd | app/src/main/java/com/example/sumapp/StatsActivity.java:336-339 | Adding in wrapped `int` steps gives the wrapped sum of the whole. |
| Text.ParseFormatInt | app/src/main/java/com/example/sumapp/MainActivity.java:429-432 | `Integer.parseInt` reads back every `int` written by `String.valueOf`. |

## Left out

- The user interface is not modelled: layouts, toasts, dialogs, the history list, the charts (`StatsActivity.java` 162-263, 366-474) and the objective display text.
- `SharedPreferences` persistence and file I/O are not modelled. The ledger's state stands for what is saved, the import takes the file as a list of lines, and the export yields its lines.
- The clock is not modelled: "today" is a parameter. The millisecond time of day appears only in the as-written day count of the findings.
- `Float.parseFloat` is a parameter of `AddScores` that maps text to a float, NaN or an infinity. As in the source, a NaN score passes the range check and counts as an arrow.
- The running float sum of scores (`totalScoreSum`) and the float average of the statistics screen are not modelled, because they are floating point.
- `Integer.parseInt` accepts ASCII digits only, with an optional sign; other Unicode digits are not modelled.
- Dates follow the proleptic Gregorian calendar. The Julian cutover of `GregorianCalendar` in 1582 is not modelled.
- History keys are dates. A persisted key that is not a canonical `yyyy-MM-dd` string cannot be represented.
- Java's `String.split` drops trailing empty fields, while `Text.Split` keeps them. Both the field-count check and the score loop give the same outcome either way.
- `Ledger.ArrowLedger.CalculateObjectiveProgress` reads the ledger's in-memory history, whereas the source re-reads the persisted history; the two agree once the data is saved.
- Objectives.CalculateCurrentProgress: the sum is an unbounded integer, so it does not model the 32-bit wrap-around of the Java `int` total.
- Ledger.ArrowLedger.CalculateObjectiveProgress: the sum is unbounded, for the same reason.
- Ledger.DailyGoalMessage: the day count used is the calendar count of `Objectives.DaysRemaining`, not the millisecond count as written (see findings).
- Csv.ExportImportRoundTrip: stated for years 1 and later. `SimpleDateFormat` writes years before 1 by their era year, which does not read back.
- `loadSavedData` on later starts (`MainActivity.java` 227-250) is not modelled as reading storage: a restart reads back what was saved, which the model keeps in the object (`Ledger.ArrowLedger.OnCreate`).
- Csv.ParseRow: reads the date with the corrected strict conversion (`DateText.ParseImportDate`), not the lenient one as written. A history keyed by valid dates cannot hold the text the third format passes through unchanged. So "31/02/2024" is skipped where the source imports 2024-03-02, and "12/25/2024" is read as 2024-12-25 where the source imports 2026-01-12 (first finding).
- Csv.ProcessCsvFile: uses `Csv.ParseRow`, so it reads dates strictly, for the same reason.
- Ledger.ArrowLedger.ImportCsv: uses `Csv.ProcessCsvFile`, so it reads dates strictly, for the same reason. It returns the corrected overwrite count beside the one the prompt shows.
- Ledger.ArrowLedger.MergeImportedData: also returns the corrected overwrite count, which the source does not compute (second finding).
- Objectives.DaysRemaining: is the corrected calendar count; the count as written is `Objectives.DaysRemainingAsWritten` (third finding).
- Objectives.DaysRemainingAsWritten: every day is taken as 24 hours (86 400 000 ms). The source subtracts two `Date` instants, so a daylight-saving change between now and the end day makes the difference one hour shorter or longer. That is not modelled, and the off-by-one of the third finding is stated for days of 24 hours only.
- `onPause` (`MainActivity.java` 909-914) is not modelled as an operation. The fourth finding depends on it: it stores today's count in the history, as the put at the end of `onCreate` does (`Ledger.ArrowLedger.OnCreate`).
- DateText.ConvertDisplayDateToInternalAsWritten: models lenient parsing only for texts of three all-digit fields. `DateFormat.parse` also accepts trailing text after a date and other lenient forms, which are not modelled.

## Findings

| source | as written | input that shows it | evidently intended | confidence | as-written member | corrected member |
|---|---|---|---|---|---|---|
| app/src/main/java/com/example/sumapp/MainActivity.java:519-544 | The `dd/MM/yyyy` format is lenient, so a month-first date with a day over 12 is read day-first and rolls over; the `MM/dd/yyyy` fallback never runs. | "12/25/2024" is imported as 2026-01-12. | A month-first date is read as that date (2024-12-25). | not executed | DateText.ConvertDisplayDateToInternalAsWritten (DateText.MonthFirstMisread, DateText.MonthFirstFallbackUnreachable) | DateText.ConvertDisplayDateToInternal (DateText.MonthFirstFallback) |
| app/src/main/java/com/example/sumapp/MainActivity.java:548-607 | The confirmation prompt counts only imported days already stored, but the gap fill also sets stored days between imported days to 0. | History {2024-01-02: 5}, file with 2024-01-01: 5 and 2024-01-03: 3. The prompt says 0 entries replaced, and 2024-01-02 becomes 0. | The prompt counts every stored entry the merge replaces (here 1). | not executed | Ledger.ArrowLedger.CountOverwritesAsWritten (Merge.PromptMissesGapDays) | Ledger.ArrowLedger.CountReplaced (Merge.ReplacedCount, Merge.PromptCountExact) |
| app/src/main/java/com/example/sumapp/ObjectivesActivity.java:303-316 | The days left are the milliseconds from now to midnight at the start of the end day, divided with truncation, plus one. Past midnight this is one day short whenever the end day is after today and no daylight-saving change falls in between; the same formula is at MainActivity.java:747-751. | On the Monday a week objective starts, at 00:00:01, it shows 6 days left instead of 7. | The days from today to the end day, both included (7). | not executed | Objectives.DaysRemainingAsWritten (Objectives.DaysRemainingOffByOne, Objectives.WeekObjectiveOnMondayMorning) | Objectives.DaysRemaining |
| app/src/main/java/com/example/sumapp/ObjectivesActivity.java:280-301 | The progress adds today's history entry and the stored current count. `onCreate` (MainActivity.java:148) and `onPause` (MainActivity.java:909-914) store today's count in the history, so the current day is counted twice. The same sum is at MainActivity.java:778-799. | Shoot 30 arrows today with no earlier arrows in the period, leave the app and open it again: the objective shows 60 arrows done. | Today counted once (30). | not executed | Objectives.CalculateCurrentProgress (Objectives.TodayCountedTwice, Objectives.ProgressAfterPause) | Objectives.ProgressCountingTodayOnce (Objectives.ProgressCountsTodayOnce) |
