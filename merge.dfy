/**
 * Merging imported days into the history: the imported map is first
 * completed with 0 on every day between its earliest and its latest day,
 * then every entry of the completed map is put into the history.
 */
module Merge {
  import opened Calendar
  import opened History

  /** `m` with every day of `days` it lacks added with count 0. */
  function ZeroFill(m: DayMap, days: seq<CalDate>): (r: DayMap)
    ensures forall d :: d in r <==> d in m || d in days
    ensures forall d :: d in r ==> r[d] == GetOrZero(m, d)
  {
    map d | d in m.Keys + (set x | x in days) :: GetOrZero(m, d)
  }

  /** One more day of the gap fill: a day already present is left alone, a missing one gets 0. */
  lemma ZeroFillStep(m: DayMap, days: seq<CalDate>, x: CalDate)
    ensures ZeroFill(m, days + [x])
         == if x in ZeroFill(m, days) then ZeroFill(m, days) else ZeroFill(m, days)[x := 0]
  {
  }

  /** A day lies between the earliest and the latest imported day, both included. */
  predicate InImportRange(imported: DayMap, d: CalDate) {
    imported != map[] && !Before(d, Earliest(imported.Keys)) && !Before(Latest(imported.Keys), d)
  }

  /**
   * The imported map after the gap fill of `performDataMerge`: exactly the
   * days from the earliest to the latest imported day, each with its
   * imported count or 0.
   */
  function GapFilled(imported: DayMap): (g: DayMap)
    ensures forall d :: d in g <==> InImportRange(imported, d)
    ensures forall d :: d in imported ==> d in g && g[d] == imported[d]
    ensures forall d :: d in g && d !in imported ==> g[d] == 0
  {
    if imported == map[] then imported
    else
      var lo := Earliest(imported.Keys);
      var hi := Latest(imported.Keys);
      RangeIsInterval(lo, hi);
      ZeroFill(imported, Range(lo, hi))
  }

  /**
   * The history after `performDataMerge`: imported days take their imported
   * count (replacing, not adding to, what was stored), the other days of
   * the import range take 0 even when the history held a count for them,
   * and days outside the range keep their entry or absence.
   */
  function Merged(history: DayMap, imported: DayMap): (r: DayMap)
    ensures forall d :: d in imported ==> d in r && r[d] == imported[d]
    ensures forall d :: InImportRange(imported, d) && d !in imported ==> d in r && r[d] == 0
    ensures forall d :: !InImportRange(imported, d) ==> (d in r <==> d in history)
    ensures forall d :: !InImportRange(imported, d) && d in r ==> r[d] == history[d]
    ensures imported == map[] ==> r == history
  {
    history + GapFilled(imported)
  }

  /** The days whose stored entry the merge writes over. */
  function ReplacedDays(history: DayMap, imported: DayMap): (s: set<CalDate>)
    ensures forall d :: d in s <==> d in history && InImportRange(imported, d)
  {
    history.Keys * GapFilled(imported).Keys
  }

  /**
   * The number of existing entries the import replaces, which the
   * confirmation prompt should announce: every stored day of the import
   * range, imported or filled with 0. It is never below the count of
   * imported days already stored.
   */
  function ReplacedCount(history: DayMap, imported: DayMap): (n: nat)
    ensures n == |ReplacedDays(history, imported)|
    ensures |imported.Keys * history.Keys| <= n
  {
    var imp := imported.Keys * history.Keys;
    assert imp <= ReplacedDays(history, imported) by {
      forall d | d in imp ensures d in ReplacedDays(history, imported) {
        assert d in GapFilled(imported);
      }
    }
    SubsetCard(imp, ReplacedDays(history, imported));
    |ReplacedDays(history, imported)|
  }

  lemma {:induction false} SubsetCard(a: set<CalDate>, b: set<CalDate>)
    requires a <= b
    ensures |a| <= |b|
    decreases |b|
  {
    if a != {} {
      var x :| x in a;
      SubsetCard(a - {x}, b - {x});
    }
  }

  /**
   * The prompt's count of imported days already stored is the number of
   * replaced entries exactly when every stored day of the import range is
   * itself imported.
   */
  lemma PromptCountExact(history: DayMap, imported: DayMap)
    ensures |imported.Keys * history.Keys| == ReplacedCount(history, imported)
        <==> forall d :: d in history && InImportRange(imported, d) ==> d in imported
  {
    var imp := imported.Keys * history.Keys;
    var all := ReplacedDays(history, imported);
    assert imp <= all by {
      forall d | d in imp ensures d in all {
        assert d in GapFilled(imported);
      }
    }
    if forall d :: d in history && InImportRange(imported, d) ==> d in imported {
      assert imp == all;
    } else {
      var d :| d in history && InImportRange(imported, d) && d !in imported;
      ProperSubsetCard(imp, all, d);
    }
  }

  lemma ProperSubsetCard(a: set<CalDate>, b: set<CalDate>, x: CalDate)
    requires a <= b && x in b && x !in a
    ensures |a| < |b|
  {
    SubsetCard(a, b - {x});
  }

  /**
   * A gap in the imported days overwrites a stored day without the prompt
   * counting it: the history holds 5 arrows on 2024-01-02, the file holds
   * 2024-01-01 and 2024-01-03; the prompt announces no replaced entry, yet
   * the merge sets 2024-01-02 to 0.
   */
  lemma PromptMissesGapDays()
    ensures var history: DayMap := map[Date(2024, 1, 2) := 5];
      var imported: DayMap := map[Date(2024, 1, 1) := 5, Date(2024, 1, 3) := 3];
      |imported.Keys * history.Keys| == 0
      && ReplacedCount(history, imported) == 1
      && Merged(history, imported)[Date(2024, 1, 2)] == 0
  {
    var history: DayMap := map[Date(2024, 1, 2) := 5];
    var imported: DayMap := map[Date(2024, 1, 1) := 5, Date(2024, 1, 3) := 3];
    var lo: CalDate := Date(2024, 1, 1);
    var hi: CalDate := Date(2024, 1, 3);
    var gap: CalDate := Date(2024, 1, 2);
    assert imported.Keys == {lo, hi};
    assert InImportRange(imported, gap) by {
      IsEarliest(imported.Keys, lo);
      IsLatest(imported.Keys, hi);
    }
    assert imported.Keys * history.Keys == {};
    assert ReplacedDays(history, imported) == {gap} by {
      forall d | d in ReplacedDays(history, imported) ensures d == gap {
        assert d in history;
      }
    }
  }
}
