/**
 * The CSV file the app exports and imports: a header line, then one line
 * `dd/MM/yyyy,<count>` per day. Import skips the header and every line it
 * cannot read; a later line for a day replaces an earlier one.
 */
module Csv {
  import opened Wrappers
  import opened JavaInt
  import opened Text
  import opened Calendar
  import opened DateText
  import opened History

  const HEADER: string := "Date,Flèches tirées"

  /**
   * One line after the header: at least two comma-separated fields, the
   * second (trimmed) an `int`, the first (trimmed) a date in one of the three
   * accepted formats. `None` is a line the import ignores.
   */
  function ParseRow(line: string): (r: Option<(CalDate, int)>)
    ensures r.Some? ==> InInt32(r.value.1)
    ensures var parts := Split(line, ',');
      r.Some? <==> |parts| >= 2 && ParseInt(Trim(parts[1])).Some? && ParseImportDate(Trim(parts[0])).Some?
    ensures var parts := Split(line, ',');
      r.Some? ==> ParseInt(Trim(parts[1])) == Some(r.value.1) && ParseImportDate(Trim(parts[0])) == Some(r.value.0)
  {
    var parts := Split(line, ',');
    if |parts| < 2 then None
    else
      match ParseInt(Trim(parts[1]))
      case None => None
      case Some(count) =>
        match ParseImportDate(Trim(parts[0]))
        case None => None
        case Some(day) => Some((day, count))
  }

  /** A line as the import reads it: its day and count, or `None` when it is skipped. */
  type Row = Option<(CalDate, int)>

  function ParseRows(lines: seq<string>): (rs: seq<Row>)
    ensures |rs| == |lines|
    ensures forall i :: 0 <= i < |lines| ==> rs[i] == ParseRow(lines[i])
  {
    seq(|lines|, i requires 0 <= i < |lines| => ParseRow(lines[i]))
  }

  predicate Names(r: Row, d: CalDate) {
    r.Some? && r.value.0 == d
  }

  /** The map the read lines build, each putting its day and count. */
  function Collect(rs: seq<Row>): (m: DayMap) {
    if rs == [] then map[]
    else
      var m := Collect(rs[..|rs| - 1]);
      match rs[|rs| - 1]
      case None => m
      case Some((day, count)) => m[day := count]
  }

  /** `importedCount`: how many lines were read, duplicates included. */
  function Readable(rs: seq<Row>): nat {
    if rs == [] then 0
    else Readable(rs[..|rs| - 1]) + (if rs[|rs| - 1].Some? then 1 else 0)
  }

  /** The map `processCsvFile` builds from the lines after the header. */
  function ImportRows(rows: seq<string>): (m: DayMap)
    ensures forall d :: d in m ==> InInt32(m[d])
  {
    var rs := ParseRows(rows);
    CollectInt32(rs);
    Collect(rs)
  }

  lemma {:induction false} CollectInt32(rs: seq<Row>)
    requires forall i :: 0 <= i < |rs| && rs[i].Some? ==> InInt32(rs[i].value.1)
    ensures forall d :: d in Collect(rs) ==> InInt32(Collect(rs)[d])
  {
    if rs != [] {
      CollectInt32(rs[..|rs| - 1]);
    }
  }

  /** The lines after the first one, which is always taken for the header. */
  function DataLines(lines: seq<string>): seq<string> {
    if lines == [] then [] else lines[1..]
  }

  /** The row loop of `processCsvFile`, reading the file as a list of lines. */
  method ProcessCsvFile(lines: seq<string>) returns (importedData: DayMap, importedCount: nat)
    ensures importedData == ImportRows(DataLines(lines))
    ensures importedCount == Readable(ParseRows(DataLines(lines)))
  {
    var isFirstLine := true;
    importedData := map[];
    importedCount := 0;
    var i := 0;
    while i < |lines|
      invariant 0 <= i <= |lines|
      invariant isFirstLine <==> i == 0
      invariant i == 0 ==> importedData == map[] && importedCount == 0
      invariant i > 0 ==> importedData == Collect(ParseRows(lines[1..i]))
      invariant i > 0 ==> importedCount == Readable(ParseRows(lines[1..i]))
    {
      var line := lines[i];
      if isFirstLine {
        isFirstLine := false;
        assert ParseRows(lines[1..1]) == [];
        i := i + 1;
        continue;
      }
      var row := ParseRow(line);
      ParseRowsStep(lines, i);
      CollectStep(ParseRows(lines[1..i]), row);
      if row.Some? {
        importedData := importedData[row.value.0 := row.value.1];
        importedCount := importedCount + 1;
      }
      i := i + 1;
    }
    if lines != [] {
      assert lines[1..i] == lines[1..];
    }
  }

  /** One more line after the header adds its reading to the rows read. */
  lemma ParseRowsStep(lines: seq<string>, i: int)
    requires 1 <= i < |lines|
    ensures ParseRows(lines[1..i + 1]) == ParseRows(lines[1..i]) + [ParseRow(lines[i])]
  {
    assert lines[1..i + 1] == lines[1..i] + [lines[i]];
    ParseRowsSnoc(lines[1..i], lines[i]);
  }

  lemma ParseRowsSnoc(lines: seq<string>, line: string)
    ensures ParseRows(lines + [line]) == ParseRows(lines) + [ParseRow(line)]
  {
    var a := ParseRows(lines + [line]);
    var b := ParseRows(lines) + [ParseRow(line)];
    forall k | 0 <= k < |a| ensures a[k] == b[k] {
      if k < |lines| {
        assert (lines + [line])[k] == lines[k];
      }
    }
  }

  /** A readable row puts its day and count and is counted; a skipped one changes nothing. */
  lemma CollectStep(rs: seq<Row>, r: Row)
    ensures Collect(rs + [r]) == if r.Some? then Collect(rs)[r.value.0 := r.value.1] else Collect(rs)
    ensures Readable(rs + [r]) == Readable(rs) + (if r.Some? then 1 else 0)
  {
    assert (rs + [r])[..|rs|] == rs;
  }

  /** Later lines win: reading two runs of lines is reading the first and overriding it by the second. */
  lemma {:induction false} CollectAppend(a: seq<Row>, b: seq<Row>)
    ensures Collect(a + b) == Collect(a) + Collect(b)
    decreases |b|
  {
    if b == [] {
      assert a + b == a;
    } else {
      var b0 := b[..|b| - 1];
      assert (a + b)[..|a + b| - 1] == a + b0;
      CollectAppend(a, b0);
    }
  }

  /** A day is imported exactly when some line names it. */
  lemma {:induction false} CollectMembers(rs: seq<Row>, d: CalDate)
    ensures d in Collect(rs) <==> exists i :: 0 <= i < |rs| && Names(rs[i], d)
  {
    if rs != [] {
      var init := rs[..|rs| - 1];
      CollectMembers(init, d);
      if d in Collect(init) {
        var i :| 0 <= i < |init| && Names(init[i], d);
        assert rs[i] == init[i];
      }
      if exists i :: 0 <= i < |rs| && Names(rs[i], d) {
        var i :| 0 <= i < |rs| && Names(rs[i], d);
        if i < |rs| - 1 {
          assert init[i] == rs[i];
        }
      }
    }
  }

  /** The count imported for a day is the count of the last line that names it. */
  lemma {:induction false} CollectLastWins(rs: seq<Row>, d: CalDate)
    requires d in Collect(rs)
    ensures exists i :: 0 <= i < |rs| && rs[i] == Some((d, Collect(rs)[d]))
                          && forall j :: i < j < |rs| ==> !Names(rs[j], d)
  {
    var init := rs[..|rs| - 1];
    var last := |rs| - 1;
    if Names(rs[last], d) {
      assert rs[last] == Some((d, Collect(rs)[d]));
    } else {
      assert d in Collect(init) && Collect(init)[d] == Collect(rs)[d];
      CollectLastWins(init, d);
      var i :| 0 <= i < |init| && init[i] == Some((d, Collect(init)[d]))
                 && forall j :: i < j < |init| ==> !Names(init[j], d);
      assert rs[i] == init[i];
      forall j | i < j < |rs| ensures !Names(rs[j], d) {
        if j < last {
          assert rs[j] == init[j];
        }
      }
    }
  }

  /** The import goes on to the merge exactly when it produced some data. */
  lemma {:induction false} ReadablePositive(rs: seq<Row>)
    ensures Readable(rs) > 0 <==> Collect(rs) != map[]
    ensures |Collect(rs)| <= Readable(rs)
  {
    if rs != [] {
      var init := rs[..|rs| - 1];
      ReadablePositive(init);
      match rs[|rs| - 1]
      case None =>
      case Some((day, count)) =>
        var m := Collect(init);
        assert day in Collect(rs);
        if day in m {
          assert m[day := count].Keys == m.Keys;
        } else {
          assert m[day := count].Keys == m.Keys + {day};
        }
    }
  }

  /** One exported line: the day in display form, a comma, the count. */
  function FormatRow(d: CalDate, count: int): string {
    FormatDateForDisplay(FormatInternal(d)) + ("," + FormatInt(count))
  }

  function RowsOf(es: seq<(CalDate, int)>): (lines: seq<string>)
    ensures |lines| == |es|
    ensures forall i :: 0 <= i < |es| ==> lines[i] == FormatRow(es[i].0, es[i].1)
  {
    seq(|es|, i requires 0 <= i < |es| => FormatRow(es[i].0, es[i].1))
  }

  /** The lines `exportDataToCsv` writes for the data to export: the header, then the days in ascending order. */
  function ExportLines(data: DayMap): (lines: seq<string>)
    ensures |lines| == |data| + 1 && lines[0] == HEADER
  {
    [HEADER] + RowsOf(Entries(data))
  }

  lemma PlainConcat(a: string, b: string, sep: char)
    requires Plain(a, sep) && Plain(b, sep)
    ensures Plain(a + b, sep)
  {
    var s := a + b;
    forall i | 0 <= i < |s| ensures s[i] > ' ' && s[i] != sep {
      if i < |a| {
        assert s[i] == a[i];
      } else {
        assert s[i] == b[i - |a|];
      }
    }
  }

  lemma PadNatIsPlain(n: nat, width: nat)
    ensures Plain(PadNat(n, width), ',')
  {
    var s := PadNat(n, width);
    forall i | 0 <= i < |s| ensures s[i] > ' ' && s[i] != ',' {
      assert IsDigit(s[i]);
    }
  }

  lemma DisplayIsPlain(d: CalDate)
    ensures Plain(FormatDisplay(d), ',')
  {
    var y := PadNat(YearOfEra(d.year), 4);
    var m := PadNat(d.month, 2);
    var dd := PadNat(d.day, 2);
    PadNatIsPlain(YearOfEra(d.year), 4);
    PadNatIsPlain(d.month, 2);
    PadNatIsPlain(d.day, 2);
    assert Plain("/", ',');
    PlainConcat("/", y, ',');
    PlainConcat(m, "/" + y, ',');
    PlainConcat("/", m + ("/" + y), ',');
    PlainConcat(dd, "/" + (m + ("/" + y)), ',');
  }

  /** Every exported line of a day of the era AD reads back as that day and count. */
  lemma RowRoundTrip(d: CalDate, count: int)
    requires d.year >= 1 && InInt32(count)
    ensures ParseRow(FormatRow(d, count)) == Some((d, count))
  {
    var date := FormatDateForDisplay(FormatInternal(d));
    var number := FormatInt(count);
    DateConversionRoundTrip(d);
    DisplayIsPlain(d);
    FormatIntIsPlain(count, ',');
    assert date + ("," + number) == date + [','] + number;
    SplitJoin(date, ',', number);
    SplitWithoutSeparator(number, ',');
    TrimPlain(date, ',');
    TrimPlain(number, ',');
    ParseFormatInt(count);
    DisplayRoundTrip(d);
  }

  /** The lines of a run of entries whose days and counts can be read back. */
  lemma ParseExportedRows(es: seq<(CalDate, int)>)
    requires forall i :: 0 <= i < |es| ==> es[i].0.year >= 1 && InInt32(es[i].1)
    ensures ParseRows(RowsOf(es)) == AsRows(es)
  {
    forall i | 0 <= i < |es| ensures ParseRows(RowsOf(es))[i] == Some(es[i]) {
      RowRoundTrip(es[i].0, es[i].1);
    }
  }

  function AsRows(es: seq<(CalDate, int)>): (rs: seq<Row>)
    ensures |rs| == |es|
    ensures forall i :: 0 <= i < |es| ==> rs[i] == Some(es[i])
  {
    seq(|es|, i requires 0 <= i < |es| => Some(es[i]))
  }

  /** Reading back the entries of a map rebuilds the map. */
  lemma CollectEntries(data: DayMap)
    ensures Collect(AsRows(Entries(data))) == data
  {
    var es := Entries(data);
    var rs := AsRows(es);
    var m := Collect(rs);
    forall d | d in data ensures d in m && m[d] == data[d] {
      EntriesCover(data, d);
      var i :| 0 <= i < |es| && es[i].0 == d;
      assert Names(rs[i], d);
      CollectMembers(rs, d);
      CollectLastWins(rs, d);
      var j :| 0 <= j < |rs| && rs[j] == Some((d, m[d]));
      assert es[j] == (d, m[d]);
    }
    forall d | d in m ensures d in data {
      CollectMembers(rs, d);
      var i :| 0 <= i < |rs| && Names(rs[i], d);
      assert es[i].0 == d;
    }
  }

  /**
   * Export then import gives the exported data back, for days of the era AD:
   * the import of an export restores every day with its count.
   */
  lemma ExportImportRoundTrip(data: DayMap)
    requires forall d :: d in data ==> d.year >= 1 && InInt32(data[d])
    ensures ImportRows(ExportLines(data)[1..]) == data
  {
    var es := Entries(data);
    assert ExportLines(data)[1..] == RowsOf(es);
    ParseExportedRows(es);
    assert ParseRows(RowsOf(es)) == AsRows(es);
    CollectEntries(data);
  }
}
