/**
 * The arrow history: a map from days to the number of arrows shot that day,
 * as the app keeps it in a `TreeMap` keyed by `yyyy-MM-dd` strings. This
 * module gives the map's iteration order, its dense zero-filled view over a
 * run of days, and its totals.
 */
module History {
  import opened Wrappers
  import opened Calendar

  type DayMap = map<CalDate, int>

  /** `getOrDefault(d, 0)`. */
  function GetOrZero(m: DayMap, d: CalDate): (v: int)
    ensures d in m ==> v == m[d]
    ensures d !in m ==> v == 0
  {
    if d in m then m[d] else 0
  }

  lemma BeforeTotal(a: CalDate, b: CalDate)
    ensures Before(a, b) || Before(b, a) || a == b
    ensures !(Before(a, b) && Before(b, a))
  {
  }

  lemma BeforeTrans(a: CalDate, b: CalDate, c: CalDate)
    requires Before(a, b) && Before(b, c)
    ensures Before(a, c)
  {
  }

  /** A day of `s` that no day of `s` precedes. */
  lemma {:induction false} FindEarliest(s: set<CalDate>) returns (e: CalDate)
    requires s != {}
    ensures e in s && forall d :: d in s ==> !Before(d, e)
    decreases |s|
  {
    var x :| x in s;
    if s == {x} {
      e := x;
    } else {
      var r := FindEarliest(s - {x});
      if Before(x, r) {
        forall d | d in s ensures !Before(d, x) {
          if d != x && Before(d, x) {
            BeforeTrans(d, x, r);
          }
        }
        e := x;
      } else {
        e := r;
      }
    }
  }

  /** A day of `s` that precedes no day of `s`. */
  lemma {:induction false} FindLatest(s: set<CalDate>) returns (e: CalDate)
    requires s != {}
    ensures e in s && forall d :: d in s ==> !Before(e, d)
    decreases |s|
  {
    var x :| x in s;
    if s == {x} {
      e := x;
    } else {
      var r := FindLatest(s - {x});
      if Before(r, x) {
        forall d | d in s ensures !Before(x, d) {
          if d != x && Before(x, d) {
            BeforeTrans(r, x, d);
          }
        }
        e := x;
      } else {
        e := r;
      }
    }
  }

  lemma EarliestExists(s: set<CalDate>)
    requires s != {}
    ensures exists e :: e in s && forall d :: d in s ==> !Before(d, e)
  {
    var e := FindEarliest(s);
  }

  lemma LatestExists(s: set<CalDate>)
    requires s != {}
    ensures exists e :: e in s && forall d :: d in s ==> !Before(e, d)
  {
    var e := FindLatest(s);
  }

  /** The first key of a `TreeMap` with these keys. */
  function Earliest(s: set<CalDate>): (e: CalDate)
    requires s != {}
    ensures e in s && forall d :: d in s ==> !Before(d, e)
  {
    EarliestExists(s);
    var e :| e in s && forall d :: d in s ==> !Before(d, e);
    e
  }

  /** The last key of a `TreeMap` with these keys. */
  function Latest(s: set<CalDate>): (e: CalDate)
    requires s != {}
    ensures e in s && forall d :: d in s ==> !Before(e, d)
  {
    LatestExists(s);
    var e :| e in s && forall d :: d in s ==> !Before(e, d);
    e
  }

  /** A day that no member of `s` precedes is the earliest one. */
  lemma IsEarliest(s: set<CalDate>, e: CalDate)
    requires e in s && forall d :: d in s ==> !Before(d, e)
    ensures e == Earliest(s)
  {
    BeforeTotal(e, Earliest(s));
  }

  /** A day that precedes no member of `s` is the latest one. */
  lemma IsLatest(s: set<CalDate>, e: CalDate)
    requires e in s && forall d :: d in s ==> !Before(e, d)
    ensures e == Latest(s)
  {
    BeforeTotal(e, Latest(s));
  }

  /** The entries of a `TreeMap`, in the order `entrySet()` visits them: ascending by day. */
  function Entries(m: DayMap): (es: seq<(CalDate, int)>)
    ensures |es| == |m|
    ensures forall i :: 0 <= i < |es| ==> es[i].0 in m && m[es[i].0] == es[i].1
    ensures forall i, j :: 0 <= i < j < |es| ==> Before(es[i].0, es[j].0)
    decreases |m|
  {
    if |m| == 0 then []
    else
      var e := Earliest(m.Keys);
      var rest := m - {e};
      assert rest.Keys == m.Keys - {e};
      var tail := Entries(rest);
      assert forall i :: 0 <= i < |tail| ==> Before(e, tail[i].0) by {
        forall i | 0 <= i < |tail| ensures Before(e, tail[i].0) {
          BeforeTotal(e, tail[i].0);
        }
      }
      [(e, m[e])] + tail
  }

  /** Every key of the map is visited. */
  lemma {:induction false} EntriesCover(m: DayMap, d: CalDate)
    requires d in m
    ensures exists i :: 0 <= i < |Entries(m)| && Entries(m)[i].0 == d
    decreases |m|
  {
    var e := Earliest(m.Keys);
    if d != e {
      var rest := m - {e};
      assert rest.Keys == m.Keys - {e};
      EntriesCover(rest, d);
      var i :| 0 <= i < |Entries(rest)| && Entries(rest)[i].0 == d;
      assert Entries(m)[i + 1] == Entries(rest)[i];
    } else {
      assert Entries(m)[0].0 == d;
    }
  }

  /**
   * The dense view of the history over a run of days: one entry per day, in
   * order, holding the recorded count or 0.
   */
  function Dense(m: DayMap, days: seq<CalDate>): (es: seq<(CalDate, int)>)
    ensures |es| == |days|
    ensures forall i :: 0 <= i < |es| ==> es[i] == (days[i], GetOrZero(m, days[i]))
  {
    if days == [] then []
    else Dense(m, days[..|days| - 1]) + [(days[|days| - 1], GetOrZero(m, days[|days| - 1]))]
  }

  /** One more element of a prefix. */
  lemma TakeOneMore<T>(s: seq<T>, k: int)
    requires 0 <= k < |s|
    ensures s[..k + 1] == s[..k] + [s[k]]
  {
  }

  /** Extending the run of days by one day extends the view by that day's entry. */
  lemma DenseSnoc(m: DayMap, days: seq<CalDate>, x: CalDate)
    ensures Dense(m, days + [x]) == Dense(m, days) + [(x, GetOrZero(m, x))]
  {
    assert (days + [x])[..|days|] == days;
  }

  /** The counts of a run of entries. */
  function Counts(es: seq<(CalDate, int)>): (vs: seq<int>)
    ensures |vs| == |es|
    ensures forall i :: 0 <= i < |es| ==> vs[i] == es[i].1
  {
    if es == [] then [] else Counts(es[..|es| - 1]) + [es[|es| - 1].1]
  }

  lemma CountsSnoc(es: seq<(CalDate, int)>, e: (CalDate, int))
    ensures Counts(es + [e]) == Counts(es) + [e.1]
  {
  }

  lemma CountsCons(e: (CalDate, int), es: seq<(CalDate, int)>)
    ensures Counts([e] + es) == [e.1] + Counts(es)
  {
  }

  /** The sum of all counts in the map, taken in ascending order of days. */
  function Total(m: DayMap): int
    decreases |m|
  {
    if |m| == 0 then 0
    else
      var e := Earliest(m.Keys);
      assert (m - {e}).Keys == m.Keys - {e};
      m[e] + Total(m - {e})
  }

  /** The total does not depend on the order: any entry may be taken out first. */
  lemma {:induction false} TotalRemove(m: DayMap, d: CalDate)
    requires d in m
    ensures Total(m) == m[d] + Total(m - {d})
    decreases |m|
  {
    var e := Earliest(m.Keys);
    if d != e {
      var md := m - {d};
      assert md.Keys == m.Keys - {d};
      assert (m - {e}).Keys == m.Keys - {e};
      IsEarliest(md.Keys, e);
      TotalRemove(m - {e}, d);
      assert (m - {e}) - {d} == md - {e};
    }
  }

  /** The entries of `m` on the days of `s`. */
  function Part(m: DayMap, s: set<CalDate>): (r: DayMap)
    ensures forall d :: d in r <==> d in m && d in s
    ensures forall d :: d in r ==> r[d] == m[d]
  {
    map d | d in m && d in s :: m[d]
  }

  /** Taking a new day into the part adds its recorded count, if any, to the total. */
  lemma PartAdd(m: DayMap, s: set<CalDate>, x: CalDate)
    requires x !in s
    ensures Total(Part(m, s + {x})) == Total(Part(m, s)) + GetOrZero(m, x)
  {
    PartInsert(m, s, x);
    if x in m {
      TotalRemove(Part(m, s + {x}), x);
    }
  }

  lemma PartInsert(m: DayMap, s: set<CalDate>, x: CalDate)
    requires x !in s
    ensures x in m ==> Part(m, s + {x}) - {x} == Part(m, s)
    ensures x !in m ==> Part(m, s + {x}) == Part(m, s)
  {
    var whole, part := Part(m, s + {x}), Part(m, s);
    if x in m {
      assert (whole - {x}).Keys == part.Keys;
    } else {
      assert whole.Keys == part.Keys;
    }
  }

  /** Taking a day out forgets what was last stored for it. */
  lemma RemoveUpdated(m: DayMap, d: CalDate, v: int)
    ensures m[d := v] - {d} == m - {d}
  {
    assert (m[d := v] - {d}).Keys == (m - {d}).Keys;
  }

  /** The entries of `m` on the days that satisfy the span `[start, end]`; an absent start bounds nothing. */
  function Span(m: DayMap, start: Option<CalDate>, end: CalDate): (r: DayMap)
    ensures forall d :: d in r <==> d in m && InSpan(d, start, end)
    ensures forall d :: d in r ==> r[d] == m[d]
  {
    map d | d in m && InSpan(d, start, end) :: m[d]
  }

  predicate InSpan(d: CalDate, start: Option<CalDate>, end: CalDate) {
    (start.None? || !Before(d, start.value)) && !Before(end, d)
  }
}
