/**
 * The two written forms of a day: the internal key `yyyy-MM-dd` under which
 * the history is stored, and the display form `dd/MM/yyyy` written to the CSV
 * export; and the date-format sniffing of the CSV import, which tries
 * `dd/MM/yyyy`, then `MM/dd/yyyy`, then `yyyy-MM-dd`.
 */
module DateText {
  import opened Wrappers
  import opened Text
  import opened Calendar

  /** The year as the pattern `yyyy` prints it (years before 1 are counted in the era BC). */
  function YearOfEra(y: int): (n: nat)
    ensures y >= 1 ==> n == y
  {
    if y >= 1 then y else 1 - y
  }

  /** `SimpleDateFormat("yyyy-MM-dd").format`: the key of a day in the history. */
  function FormatInternal(d: CalDate): string {
    PadNat(YearOfEra(d.year), 4) + ("-" + (PadNat(d.month, 2) + ("-" + PadNat(d.day, 2))))
  }

  /** `SimpleDateFormat("dd/MM/yyyy").format`: the day as the CSV export writes it. */
  function FormatDisplay(d: CalDate): string {
    PadNat(d.day, 2) + ("/" + (PadNat(d.month, 2) + ("/" + PadNat(YearOfEra(d.year), 4))))
  }

  /** `MM/dd/yyyy`, the month-first form the import also tries to read. */
  function FormatMonthFirst(d: CalDate): string {
    PadNat(d.month, 2) + ("/" + (PadNat(d.day, 2) + ("/" + PadNat(YearOfEra(d.year), 4))))
  }

  /** The three numeric fields of `s`, separated by `sep`, each a non-empty run of digits. */
  function Fields(s: string, sep: char): Option<(nat, nat, nat)> {
    var parts := Split(s, sep);
    if |parts| == 3 && parts[0] != [] && parts[1] != [] && parts[2] != []
      && AllDigits(parts[0]) && AllDigits(parts[1]) && AllDigits(parts[2])
    then Some((Value(parts[0]), Value(parts[1]), Value(parts[2])))
    else None
  }

  /** The day of the era AD with these numeric fields, if they name one (a strict parse). */
  function StrictDate(y: int, m: int, d: int): (r: Option<CalDate>)
    ensures r.Some? <==> y >= 1 && 1 <= m <= 12 && 1 <= d <= DaysInMonth(y, m)
    ensures r.Some? ==> r.value == Date(y, m, d)
  {
    if y >= 1 && 1 <= m <= 12 && 1 <= d <= DaysInMonth(y, m) then Some(Date(y, m, d)) else None
  }

  function ParseDayFirst(s: string): Option<CalDate> {
    match Fields(s, '/')
    case None => None
    case Some((dd, mm, yyyy)) => StrictDate(yyyy, mm, dd)
  }

  function ParseMonthFirst(s: string): Option<CalDate> {
    match Fields(s, '/')
    case None => None
    case Some((mm, dd, yyyy)) => StrictDate(yyyy, mm, dd)
  }

  function ParseInternal(s: string): Option<CalDate> {
    match Fields(s, '-')
    case None => None
    case Some((yyyy, mm, dd)) => StrictDate(yyyy, mm, dd)
  }

  /** The day a CSV date cell names: the first of the three formats that reads it wins. */
  function ParseImportDate(s: string): Option<CalDate> {
    var dayFirst := ParseDayFirst(s);
    if dayFirst.Some? then dayFirst
    else
      var monthFirst := ParseMonthFirst(s);
      if monthFirst.Some? then monthFirst else ParseInternal(s)
  }

  /** `convertDisplayDateToInternal`, with strict parsing: the internal key of the day, or `null`. */
  function ConvertDisplayDateToInternal(s: string): Option<string> {
    match ParseImportDate(s)
    case None => None
    case Some(d) => Some(FormatInternal(d))
  }

  /** `formatDateForDisplay`: an internal key in display form; a string that is not a key comes back as it is. */
  function FormatDateForDisplay(key: string): string {
    match ParseInternal(key)
    case None => key
    case Some(d) => FormatDisplay(d)
  }

  predicate NoSeparator(s: string, sep: char) {
    forall i :: 0 <= i < |s| ==> s[i] != sep
  }

  lemma PadNatHasNoSeparator(n: nat, width: nat, sep: char)
    requires !IsDigit(sep)
    ensures NoSeparator(PadNat(n, width), sep)
  {
    var s := PadNat(n, width);
    forall i | 0 <= i < |s| ensures s[i] != sep {
      assert IsDigit(s[i]);
    }
  }

  lemma SplitThree(pa: string, pb: string, pc: string, sep: char)
    requires NoSeparator(pa, sep) && NoSeparator(pb, sep) && NoSeparator(pc, sep)
    ensures Split(pa + ([sep] + (pb + ([sep] + pc))), sep) == [pa, pb, pc]
  {
    assert pa + ([sep] + (pb + ([sep] + pc))) == pa + [sep] + (pb + [sep] + pc);
    SplitJoin(pa, sep, pb + [sep] + pc);
    SplitJoin(pb, sep, pc);
    SplitWithoutSeparator(pc, sep);
  }

  lemma FieldsOfThree(pa: string, pb: string, pc: string, sep: char)
    requires pa != [] && pb != [] && pc != []
    requires AllDigits(pa) && AllDigits(pb) && AllDigits(pc)
    requires NoSeparator(pa, sep) && NoSeparator(pb, sep) && NoSeparator(pc, sep)
    ensures Fields(pa + ([sep] + (pb + ([sep] + pc))), sep) == Some((Value(pa), Value(pb), Value(pc)))
  {
    SplitThree(pa, pb, pc, sep);
  }

  /** Three digit fields joined by a separator split back into those fields. */
  lemma FieldsOfJoin(a: nat, wa: nat, b: nat, wb: nat, c: nat, wc: nat, sep: char)
    requires !IsDigit(sep)
    ensures Fields(PadNat(a, wa) + ([sep] + (PadNat(b, wb) + ([sep] + PadNat(c, wc)))), sep) == Some((a, b, c))
  {
    PadNatHasNoSeparator(a, wa, sep);
    PadNatHasNoSeparator(b, wb, sep);
    PadNatHasNoSeparator(c, wc, sep);
    FieldsOfThree(PadNat(a, wa), PadNat(b, wb), PadNat(c, wc), sep);
  }

  /** A day written in display form is read back by the first format the import tries. */
  lemma DisplayRoundTrip(d: CalDate)
    requires d.year >= 1
    ensures ParseDayFirst(FormatDisplay(d)) == Some(d)
    ensures ParseImportDate(FormatDisplay(d)) == Some(d)
  {
    FieldsOfJoin(d.day, 2, d.month, 2, YearOfEra(d.year), 4, '/');
  }

  /** An internal key is read back by the internal-format parser. */
  lemma InternalRoundTrip(d: CalDate)
    requires d.year >= 1
    ensures ParseInternal(FormatInternal(d)) == Some(d)
  {
    FieldsOfJoin(YearOfEra(d.year), 4, d.month, 2, d.day, 2, '-');
  }

  /**
   * Dates written on export read back on import: converting the display form
   * of an internal key back to the internal form gives the key.
   */
  lemma DateConversionRoundTrip(d: CalDate)
    requires d.year >= 1
    ensures FormatDateForDisplay(FormatInternal(d)) == FormatDisplay(d)
    ensures ConvertDisplayDateToInternal(FormatDateForDisplay(FormatInternal(d))) == Some(FormatInternal(d))
  {
    InternalRoundTrip(d);
    DisplayRoundTrip(d);
  }

  /**
   * A month-first date whose day cannot be a month is read month-first, as the
   * fallback in the import intends.
   */
  lemma MonthFirstFallback(d: CalDate)
    requires d.year >= 1 && d.day > 12
    ensures ParseImportDate(FormatMonthFirst(d)) == Some(d)
  {
    FieldsOfJoin(d.month, 2, d.day, 2, YearOfEra(d.year), 4, '/');
  }

  lemma LexLessSameHead(c: char, a: string, b: string)
    ensures LexLess([c] + a, [c] + b) <==> LexLess(a, b)
  {
    assert ([c] + a)[1..] == a && ([c] + b)[1..] == b;
  }

  /** Strings of three dash-separated fields of fixed widths compare field by field. */
  lemma LexLessThreeFields(x1: string, x2: string, x3: string, y1: string, y2: string, y3: string)
    requires |x1| == |y1| && |x2| == |y2|
    ensures LexLess(x1 + ("-" + (x2 + ("-" + x3))), y1 + ("-" + (y2 + ("-" + y3))))
        <==> LexLess(x1, y1) || (x1 == y1 && (LexLess(x2, y2) || (x2 == y2 && LexLess(x3, y3))))
  {
    var u3, v3 := "-" + x3, "-" + y3;
    var u2, v2 := x2 + u3, y2 + v3;
    var u1, v1 := "-" + u2, "-" + v2;
    LexLessSameHead('-', x3, y3);
    LexLessConcat(x2, u3, y2, v3);
    LexLessSameHead('-', u2, v2);
    LexLessConcat(x1, u1, y1, v1);
  }

  /** A field that fits its width is printed as exactly `width` digits. */
  lemma PadNatFits(n: nat, width: nat)
    requires 1 <= width && n < Pow10(width)
    ensures PadNat(n, width) == FixedWidth(n, width)
  {
    NumDigitsBound(n, width);
  }

  /** Two fixed-width digit strings of the same value are equal, and conversely. */
  lemma FixedWidthOrder(x: nat, y: nat, width: nat)
    requires x < Pow10(width) && y < Pow10(width)
    ensures FixedWidth(x, width) == FixedWidth(y, width) <==> x == y
    ensures LexLess(FixedWidth(x, width), FixedWidth(y, width)) <==> x < y
  {
    LexLessFixedWidth(x, y, width);
    if FixedWidth(x, width) == FixedWidth(y, width) {
      assert Value(FixedWidth(x, width)) == Value(FixedWidth(y, width));
    }
  }

  /**
   * For four-digit years the string order of the internal keys, which the app
   * uses to compare days, is the order of `Before`, and hence chronological.
   */
  lemma KeyOrderIsDateOrder(a: CalDate, b: CalDate)
    requires 1 <= a.year <= 9999 && 1 <= b.year <= 9999
    ensures LexLess(FormatInternal(a), FormatInternal(b)) <==> Before(a, b)
  {
    assert Pow10(4) == 10000 && Pow10(2) == 100;
    var ya, ma, da := PadNat(a.year, 4), PadNat(a.month, 2), PadNat(a.day, 2);
    var yb, mb, db := PadNat(b.year, 4), PadNat(b.month, 2), PadNat(b.day, 2);
    assert FormatInternal(a) == ya + ("-" + (ma + ("-" + da)));
    assert FormatInternal(b) == yb + ("-" + (mb + ("-" + db)));
    PadNatFits(a.year, 4);
    PadNatFits(b.year, 4);
    PadNatFits(a.month, 2);
    PadNatFits(b.month, 2);
    PadNatFits(a.day, 2);
    PadNatFits(b.day, 2);
    FixedWidthOrder(a.year, b.year, 4);
    FixedWidthOrder(a.month, b.month, 2);
    FixedWidthOrder(a.day, b.day, 2);
    LexLessThreeFields(ya, ma, da, yb, mb, db);
  }

  // The import as the source runs it. `SimpleDateFormat` is lenient by
  // default: a day or month beyond its range rolls over into the following
  // months and years instead of failing the parse.

  /** The day a lenient calendar builds from year, month and day fields. */
  function LenientDate(y: int, m: int, d: int): CalDate {
    AddDays(Date(y + (m - 1) / 12, (m - 1) % 12 + 1, 1), d - 1)
  }

  lemma LenientDateOfValid(d: CalDate)
    ensures LenientDate(d.year, d.month, d.day) == d
  {
    var y, m := d.year, d.month;
    assert (m - 1) / 12 == 0 && (m - 1) % 12 == m - 1;
    var first: CalDate := Date(y, m, 1);
    assert Date(y + (m - 1) / 12, (m - 1) % 12 + 1, 1) == first;
    FromFirstOfMonth(d);
    assert LenientDate(y, m, d.day) == AddDays(first, d.day - 1);
  }

  /**
   * `convertDisplayDateToInternal` as written: each of the three formats is
   * tried leniently, and the third returns the input string itself.
   */
  function ConvertDisplayDateToInternalAsWritten(s: string): Option<string> {
    match Fields(s, '/')
    case Some((dd, mm, yyyy)) => Some(FormatInternal(LenientDate(yyyy, mm, dd)))
    case None =>
      match Fields(s, '/')
      case Some((mm, dd, yyyy)) => Some(FormatInternal(LenientDate(yyyy, mm, dd)))
      case None =>
        match Fields(s, '-')
        case Some(_) => Some(s)
        case None => None
  }

  /** On the app's own export both versions agree. */
  lemma AsWrittenReadsExports(d: CalDate)
    requires d.year >= 1
    ensures ConvertDisplayDateToInternalAsWritten(FormatDisplay(d)) == Some(FormatInternal(d))
  {
    FieldsOfJoin(d.day, 2, d.month, 2, YearOfEra(d.year), 4, '/');
    LenientDateOfValid(d);
  }

  lemma TwoDigits(n: nat)
    requires 10 <= n < 100
    ensures PadNat(n, 2) == [DigitChar(n / 10), DigitChar(n % 10)]
  {
    assert Pow10(2) == 100;
    PadNatFits(n, 2);
    assert FixedWidth(n / 10, 1) == FixedWidth(n / 100, 0) + [DigitChar(n / 10 % 10)];
  }

  lemma YearText()
    ensures PadNat(2024, 4) == "2024"
  {
    assert Pow10(4) == 10000;
    PadNatFits(2024, 4);
    assert FixedWidth(2, 1) == "2";
    assert FixedWidth(20, 2) == "20";
    assert FixedWidth(202, 3) == "202";
  }

  lemma UsChristmasText()
    ensures FormatMonthFirst(Date(2024, 12, 25)) == "12/25/2024"
  {
    TwoDigits(12);
    TwoDigits(25);
    YearText();
  }

  lemma LenientRollOver()
    ensures LenientDate(2024, 25, 12) == Date(2026, 1, 12)
  {
    var first: CalDate := Date(2026, 1, 1);
    assert LenientDate(2024, 25, 12) == AddDays(first, 11);
    OrdinalInjective(AddDays(first, 11), Date(2026, 1, 12));
  }

  /**
   * As written, the month-first fallback never runs: every month-first date
   * whose day exceeds 12 is read day-first, rolled over into a later year,
   * where the strict reading gives the day itself.
   */
  lemma MonthFirstMisread(d: CalDate)
    requires d.year >= 1 && d.day > 12
    ensures ConvertDisplayDateToInternal(FormatMonthFirst(d)) == Some(FormatInternal(d))
    ensures ConvertDisplayDateToInternalAsWritten(FormatMonthFirst(d))
         == Some(FormatInternal(LenientDate(d.year, d.day, d.month)))
    ensures Ordinal(d) < Ordinal(LenientDate(d.year, d.day, d.month))
  {
    FieldsOfJoin(d.month, 2, d.day, 2, YearOfEra(d.year), 4, '/');
    MonthFirstFallback(d);
    LenientRollsOver(d.year, d.day, d.month);
    WithinYear(d);
  }

  /** A month field beyond 12 moves the lenient date into a later year. */
  lemma LenientRollsOver(y: int, m: int, d: int)
    requires m > 12 && d >= 1
    ensures Ordinal(LenientDate(y, m, d)) >= DaysBeforeYear(y + 1)
  {
    var q := (m - 1) / 12;
    assert q >= 1;
    var first: CalDate := Date(y + q, (m - 1) % 12 + 1, 1);
    assert Ordinal(LenientDate(y, m, d)) >= Ordinal(first);
    WithinYear(first);
    if q > 1 {
      YearsOrdered(y + 1, y + q);
      YearStep(y + 1);
    }
  }

  const CHRISTMAS_2024: CalDate := Date(2024, 12, 25)
  const ROLLED_OVER: CalDate := Date(2026, 1, 12)

  /** The concrete case: 12/25/2024 is imported as 2026-01-12 instead of 2024-12-25. */
  lemma MonthFirstFallbackUnreachable()
    ensures ConvertDisplayDateToInternalAsWritten("12/25/2024") == Some(FormatInternal(ROLLED_OVER))
    ensures ConvertDisplayDateToInternal("12/25/2024") == Some(FormatInternal(CHRISTMAS_2024))
  {
    UsChristmasText();
    MonthFirstMisread(CHRISTMAS_2024);
    LenientRollOver();
  }
}
