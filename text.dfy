/**
 * The string handling the ledger relies on: ASCII decimal digits, the
 * zero-padded numeric fields of a date format, `Integer.parseInt` and
 * `String.valueOf(int)`, splitting on one separator, `String.trim` and
 * `String.compareTo`.
 */
module Text {
  import opened Wrappers
  import opened JavaInt

  predicate IsDigit(c: char) {
    '0' <= c <= '9'
  }

  predicate AllDigits(s: string) {
    forall i :: 0 <= i < |s| ==> IsDigit(s[i])
  }

  function DigitValue(c: char): (n: nat)
    requires IsDigit(c)
    ensures n < 10
  {
    c as int - '0' as int
  }

  function DigitChar(n: nat): (c: char)
    requires n < 10
    ensures IsDigit(c) && DigitValue(c) == n
  {
    ('0' as int + n) as char
  }

  /** The number a string of decimal digits denotes (most significant first). */
  function Value(s: string): nat
    requires AllDigits(s)
  {
    if s == [] then 0 else Value(s[..|s| - 1]) * 10 + DigitValue(s[|s| - 1])
  }

  function Pow10(k: nat): (p: nat)
    ensures p >= 1
  {
    if k == 0 then 1 else 10 * Pow10(k - 1)
  }

  lemma {:induction false} Pow10Monotone(j: nat, k: nat)
    requires j <= k
    ensures Pow10(j) <= Pow10(k)
  {
    if j < k {
      Pow10Monotone(j, k - 1);
    }
  }

  /** The `width` least significant decimal digits of `n`, most significant first. */
  function FixedWidth(n: nat, width: nat): (s: string)
    ensures |s| == width && AllDigits(s)
    ensures n < Pow10(width) ==> Value(s) == n
  {
    if width == 0 then []
    else
      var s := FixedWidth(n / 10, width - 1) + [DigitChar(n % 10)];
      assert s[..|s| - 1] == FixedWidth(n / 10, width - 1);
      s
  }

  /** How many digits `String.valueOf` prints for a natural number. */
  function NumDigits(n: nat): (k: nat)
    ensures k >= 1 && n < Pow10(k)
  {
    if n < 10 then 1 else 1 + NumDigits(n / 10)
  }

  lemma {:induction false} NumDigitsBound(n: nat, width: nat)
    ensures 1 <= width && n < Pow10(width) ==> NumDigits(n) <= width
  {
    if 1 <= width && n >= 10 {
      NumDigitsBound(n / 10, width - 1);
    }
  }

  /** `String.valueOf(n)` for `n >= 0`: the decimal digits without leading zeros. */
  function NatToString(n: nat): (s: string)
    ensures |s| >= 1 && AllDigits(s) && Value(s) == n
  {
    FixedWidth(n, NumDigits(n))
  }

  /**
   * A numeric date field printed with a minimum width, as `SimpleDateFormat`
   * prints `dd`, `MM` and `yyyy`: zero-padded to `width` digits, and in full
   * when the number needs more.
   */
  function PadNat(n: nat, width: nat): (s: string)
    ensures |s| >= 1 && |s| >= width && AllDigits(s) && Value(s) == n
    ensures 1 <= width && n < Pow10(width) ==> |s| == width
  {
    var k := if width < NumDigits(n) then NumDigits(n) else width;
    NumDigitsBound(n, width);
    Pow10Monotone(NumDigits(n), k);
    FixedWidth(n, k)
  }

  /**
   * `Integer.parseInt(s)`: an optional sign followed by at least one decimal
   * digit, the value within the 32-bit range; anything else is a
   * `NumberFormatException`, modelled as `None`. No white space is allowed.
   */
  function ParseInt(s: string): (r: Option<int>)
    ensures r.Some? ==> InInt32(r.value)
    ensures r.Some? ==> |s| >= 1
  {
    if |s| == 0 then None
    else
      var negative := s[0] == '-';
      var digits := if s[0] == '-' || s[0] == '+' then s[1..] else s;
      if |digits| == 0 || !AllDigits(digits) then None
      else
        var magnitude: int := Value(digits);
        var v := if negative then -magnitude else magnitude;
        if InInt32(v) then Some(v) else None
  }

  /** `String.valueOf(v)`: a minus sign for negative numbers, then the digits. */
  function FormatInt(v: int): string {
    if v < 0 then "-" + NatToString(-v) else NatToString(v)
  }

  /** Every `int` printed by `String.valueOf` reads back through `Integer.parseInt`. */
  lemma ParseFormatInt(v: int)
    requires InInt32(v)
    ensures ParseInt(FormatInt(v)) == Some(v)
  {
    if v < 0 {
      ParseDigits("-" + NatToString(-v), NatToString(-v), v);
    } else {
      ParseDigits(NatToString(v), NatToString(v), v);
    }
  }

  /** A string of digits, signed or not, parses to its value when that fits. */
  lemma ParseDigits(s: string, digits: string, v: int)
    requires |digits| >= 1 && AllDigits(digits)
    requires (s == digits && v == Value(digits)) || (s == "-" + digits && v + Value(digits) == 0)
    requires InInt32(v)
    ensures ParseInt(s) == Some(v)
  {
    if s == digits {
      assert IsDigit(s[0]);
    } else {
      assert s[1..] == digits;
    }
  }

  /** A string from which `String.trim` removes nothing and in which `sep` does not occur. */
  predicate Plain(s: string, sep: char) {
    forall i :: 0 <= i < |s| ==> s[i] > ' ' && s[i] != sep
  }

  lemma FormatIntIsPlain(v: int, sep: char)
    requires !IsDigit(sep) && sep != '-'
    ensures Plain(FormatInt(v), sep) && |FormatInt(v)| >= 1
  {
    var digits := NatToString(if v < 0 then -v else v);
    assert Plain(digits, sep) by {
      forall i | 0 <= i < |digits| ensures digits[i] > ' ' && digits[i] != sep {
        assert IsDigit(digits[i]);
      }
    }
    if v < 0 {
      var s := "-" + digits;
      assert s == FormatInt(v);
      forall i | 0 <= i < |s| ensures s[i] > ' ' && s[i] != sep {
        if i > 0 {
          assert s[i] == digits[i - 1];
        }
      }
    }
  }

  /**
   * The fields of `s` between occurrences of `sep`, as `String.split` with a
   * one-character separator returns them, except that trailing empty fields
   * are kept (Java drops them).
   */
  function Split(s: string, sep: char): (parts: seq<string>)
    ensures |parts| >= 1
  {
    if s == [] then [[]]
    else
      var rest := Split(s[1..], sep);
      if s[0] == sep then [[]] + rest else [[s[0]] + rest[0]] + rest[1..]
  }

  lemma {:induction false} SplitWithoutSeparator(a: string, sep: char)
    requires forall i :: 0 <= i < |a| ==> a[i] != sep
    ensures Split(a, sep) == [a]
  {
    if a != [] {
      SplitWithoutSeparator(a[1..], sep);
      assert [a[0]] + a[1..] == a;
    }
  }

  /** Splitting a field followed by the separator peels that field off. */
  lemma {:induction false} SplitJoin(a: string, sep: char, b: string)
    requires forall i :: 0 <= i < |a| ==> a[i] != sep
    ensures Split(a + [sep] + b, sep) == [a] + Split(b, sep)
  {
    var s := a + [sep] + b;
    if a == [] {
      assert s[1..] == b;
    } else {
      assert s[1..] == a[1..] + [sep] + b;
      SplitJoin(a[1..], sep, b);
      assert [a[0]] + a[1..] == a;
    }
  }

  /** `String.trim`: removes every leading and trailing character up to U+0020. */
  function Trim(s: string): string {
    TrimEnd(TrimStart(s))
  }

  function TrimStart(s: string): (r: string)
    ensures |r| <= |s|
  {
    if s != [] && s[0] <= ' ' then TrimStart(s[1..]) else s
  }

  function TrimEnd(s: string): (r: string)
    ensures |r| <= |s|
  {
    if s != [] && s[|s| - 1] <= ' ' then TrimEnd(s[..|s| - 1]) else s
  }

  lemma TrimPlain(s: string, sep: char)
    requires Plain(s, sep)
    ensures Trim(s) == s
  {
  }

  /** `a.compareTo(b) < 0` for Java strings: lexicographic, a proper prefix first. */
  predicate LexLess(a: string, b: string) {
    if a == [] then b != []
    else if b == [] then false
    else a[0] < b[0] || (a[0] == b[0] && LexLess(a[1..], b[1..]))
  }

  /** Comparing two strings whose first parts have the same length compares those parts first. */
  lemma {:induction false} LexLessConcat(a1: string, a2: string, b1: string, b2: string)
    requires |a1| == |b1|
    ensures LexLess(a1 + a2, b1 + b2) <==> LexLess(a1, b1) || (a1 == b1 && LexLess(a2, b2))
  {
    if a1 != [] {
      assert (a1 + a2)[0] == a1[0] && (b1 + b2)[0] == b1[0];
      assert (a1 + a2)[1..] == a1[1..] + a2 && (b1 + b2)[1..] == b1[1..] + b2;
      LexLessConcat(a1[1..], a2, b1[1..], b2);
      if a1[0] == b1[0] && a1[1..] == b1[1..] {
        assert a1 == [a1[0]] + a1[1..] && b1 == [b1[0]] + b1[1..];
      }
    } else {
      assert a1 + a2 == a2 && b1 + b2 == b2;
    }
  }

  /** For fixed-width digit strings the string order is the numeric order. */
  lemma {:induction false} LexLessFixedWidth(x: nat, y: nat, width: nat)
    requires x < Pow10(width) && y < Pow10(width)
    ensures LexLess(FixedWidth(x, width), FixedWidth(y, width)) <==> x < y
  {
    if width > 0 {
      var px, py := FixedWidth(x / 10, width - 1), FixedWidth(y / 10, width - 1);
      LexLessFixedWidth(x / 10, y / 10, width - 1);
      LexLessConcat(px, [DigitChar(x % 10)], py, [DigitChar(y % 10)]);
      assert px == py <==> x / 10 == y / 10 by {
        if px == py {
          assert Value(px) == Value(py);
        }
      }
      assert LexLess([DigitChar(x % 10)], [DigitChar(y % 10)]) <==> x % 10 < y % 10;
    }
  }
}
