/**
 * The React overview page (`Overview.js`): one pass over the stored rows
 * adds up the `Units` column into a total, a per-day bucket keyed by the raw
 * date cell and a per-month bucket keyed `YYYY-MM`; the average is per
 * distinct day, and the highest and lowest months come from a stable
 * descending sort of the month bucket.
 *
 * The date is always the first column. Turning it into a year and a month
 * is the browser's `new Date(...)`, which is a parameter here.
 */
module Overview {
  import opened Common
  import opened JsText
  import opened JsNumber
  import opened Buckets
  import ScriptParse

  // ---- One row ----

  /** `parseFloat(cell)`; `parseFloat(undefined)` is NaN. */
  function UnitsOf(c: Option<string>): (n: Num)
    ensures c.None? ==> n.NaN?
    ensures c.Some? ==> n == ParseFloat(c.value)
  {
    if c.Some? then ParseFloat(c.value) else NaN
  }

  /** A row that counts: its date cell, its reading and the month its date parses to. */
  datatype Sample = Sample(date: string, units: real, month: Option<string>)

  /** What `new Date(s)` yields when it is a valid date: `getFullYear()` and `getMonth()`. */
  datatype DateParts = DateParts(year: int, month0: nat)

  /** `` `${year}-${String(month + 1).padStart(2, "0")}` ``. */
  function MonthKey(d: DateParts): string {
    IntToString(d.year) + "-" + PadStart2(NatToString(d.month0 + 1))
  }

  /** `padStart` turns a month number from 1 to 12 into two digits that read it back. */
  lemma {:induction false} PaddedMonth(n: nat)
    requires 1 <= n <= 12
    ensures |PadStart2(NatToString(n))| == 2
    ensures forall i :: 0 <= i < 2 ==> IsDigit(PadStart2(NatToString(n))[i])
    ensures WholeValue(PadStart2(NatToString(n)), 0, 2) == n
  {
    var p := PadStart2(NatToString(n));
    if n < 10 {
      assert p == ['0', DigitChar(n)];
    } else {
      assert NatToString(n / 10) == [DigitChar(1)];
      assert p == [DigitChar(1), DigitChar(n % 10)];
    }
    assert WholeValue(p, 0, 1) == DigitValue(p[0]);
  }

  /**
   * For a real month (`getMonth()` is 0 to 11) the key is the year's decimal
   * notation, a dash, and two digits that read the month number 1 to 12.
   */
  lemma {:induction false} MonthKeyParts(d: DateParts)
    requires d.month0 < 12
    ensures var key := MonthKey(d); var y := |IntToString(d.year)|;
      && |key| == y + 3
      && key[..y] == IntToString(d.year)
      && key[y] == '-'
      && IsDigit(key[y + 1]) && IsDigit(key[y + 2])
      && WholeValue(key, y + 1, y + 3) == d.month0 + 1
  {
    PaddedMonth(d.month0 + 1);
    JoinedKey(IntToString(d.year), PadStart2(NatToString(d.month0 + 1)));
  }

  /** Joining a text, a dash and two digits: the text is a prefix, and the digits keep their value. */
  lemma {:induction false} JoinedKey(year: string, month: string)
    requires |month| == 2 && forall i :: 0 <= i < 2 ==> IsDigit(month[i])
    ensures var key := year + "-" + month; var y := |year|;
      && |key| == y + 3
      && key[..y] == year
      && key[y] == '-'
      && IsDigit(key[y + 1]) && IsDigit(key[y + 2])
      && WholeValue(key, y + 1, y + 3) == WholeValue(month, 0, 2)
  {
    var key := year + "-" + month;
    assert key[..|year|] == year;
    assert key[|year| + 1] == month[0] && key[|year| + 2] == month[1];
    WholeValueSame(key, |year| + 1, month, 0, 2);
  }

  /** A year of four digits gives a `YYYY-MM` key whose parts read the year and the month number. */
  lemma {:induction false} MonthKeyFourDigitYear(d: DateParts)
    requires 1000 <= d.year <= 9999 && d.month0 < 12
    ensures ScriptParse.IsMonthKey(MonthKey(d))
    ensures WholeValue(MonthKey(d), 0, 4) == d.year
    ensures WholeValue(MonthKey(d), 5, 7) == d.month0 + 1
  {
    var y: nat := d.year;
    assert |NatToString(y / 10 / 10 / 10)| == 1;
    assert |NatToString(y / 10 / 10)| == 2;
    assert |NatToString(y / 10)| == 3;
    assert |NatToString(y)| == 4;
    MonthKeyParts(d);
    var key := MonthKey(d);
    var digits := NatToString(y);
    assert forall i :: 0 <= i < 4 ==> key[i] == key[..4][i] == digits[i];
    WholeValueOfNat(y);
    WholeValueSame(key, 0, digits, 0, 4);
  }

  /** Different numbers have different decimal notations. */
  lemma {:induction false} NatToStringInjective(m: nat, n: nat)
    requires NatToString(m) == NatToString(n)
    ensures m == n
  {
    WholeValueOfNat(m);
    WholeValueOfNat(n);
  }

  /** Different integers have different notations: the sign tells them apart, then the digits. */
  lemma {:induction false} IntToStringInjective(x: int, y: int)
    requires IntToString(x) == IntToString(y)
    ensures x == y
  {
    var s := IntToString(x);
    NotationSign(x);
    NotationSign(y);
    if x < 0 {
      assert s[1..] == NatToString(-x);
      assert s[1..] == NatToString(-y);
      NatToStringInjective(-x, -y);
    } else {
      NatToStringInjective(x, y);
    }
  }

  /** The notation of an integer starts with `-` exactly when it is negative. */
  lemma {:induction false} NotationSign(z: int)
    ensures |IntToString(z)| > 0
    ensures IntToString(z)[0] == '-' <==> z < 0
  {
    if z < 0 {
      assert IntToString(z)[0] == '-';
    } else {
      assert IsDigit(NatToString(z)[0]);
    }
  }

  /** For real months, two dates share a key exactly when they share year and month. */
  lemma {:induction false} MonthKeyIdentifies(d1: DateParts, d2: DateParts)
    requires d1.month0 < 12 && d2.month0 < 12
    ensures MonthKey(d1) == MonthKey(d2) <==> d1 == d2
  {
    if MonthKey(d1) == MonthKey(d2) {
      MonthKeyParts(d1);
      MonthKeyParts(d2);
      var y := |IntToString(d1.year)|;
      assert y == |IntToString(d2.year)|;
      IntToStringInjective(d1.year, d2.year);
    }
  }

  /** The month key of a date cell, when `new Date(cell)` is valid. */
  function MonthOf(date: string, parse: string -> Option<DateParts>): (m: Option<string>)
    ensures m.Some? <==> parse(date).Some?
    ensures m.Some? ==> m.value == MonthKey(parse(date).value)
  {
    match parse(date)
    case Some(d) => Some(MonthKey(d))
    case None => None
  }

  /** A row counts when its units parse and its date cell is not empty. */
  function SampleOf(row: Row, unitsIndex: int, parse: string -> Option<DateParts>): (s: Option<Sample>)
    ensures s.Some? <==> UnitsOf(Cell(row, unitsIndex)).Finite? && Truthy(Cell(row, 0))
    ensures s.Some? ==> s.value == Sample(row[0], UnitsOf(Cell(row, unitsIndex)).value, MonthOf(row[0], parse))
  {
    var n := UnitsOf(Cell(row, unitsIndex));
    if n.Finite? && Truthy(Cell(row, 0)) then Some(Sample(row[0], n.value, MonthOf(row[0], parse))) else None
  }

  function Samples(rows: Grid, unitsIndex: int, parse: string -> Option<DateParts>): (ss: seq<Option<Sample>>)
    ensures |ss| == |rows|
    ensures forall k :: 0 <= k < |rows| ==> ss[k] == SampleOf(rows[k], unitsIndex, parse)
  {
    seq(|rows|, k requires 0 <= k < |rows| => SampleOf(rows[k], unitsIndex, parse))
  }

  // ---- The buckets ----

  /** `totalEnergySum`: the sum over the rows that count. */
  function Contributed(ss: seq<Option<Sample>>): real {
    if |ss| == 0 then 0.0
    else
      var n := |ss| - 1;
      Contributed(ss[..n]) + (if ss[n].Some? then ss[n].value.units else 0.0)
  }

  /** `dailyUsage`: the rows that count, added up per raw date cell. */
  function Daily(ss: seq<Option<Sample>>): Bucket<string, real> {
    if |ss| == 0 then []
    else
      var n := |ss| - 1;
      var b := Daily(ss[..n]);
      if ss[n].Some? then AddTo(b, ss[n].value.date, ss[n].value.units) else b
  }

  /** The sum of the rows that count and carry date `d`. */
  function DateSum(ss: seq<Option<Sample>>, d: string): real {
    if |ss| == 0 then 0.0
    else
      var n := |ss| - 1;
      DateSum(ss[..n], d) + (if ss[n].Some? && ss[n].value.date == d then ss[n].value.units else 0.0)
  }

  /** `monthlyUsage`: the rows that count and whose date parses, added up per month key. */
  function Monthly(ss: seq<Option<Sample>>): Bucket<string, real> {
    if |ss| == 0 then []
    else
      var n := |ss| - 1;
      var b := Monthly(ss[..n]);
      if ss[n].Some? && ss[n].value.month.Some? then
        AddTo(b, ss[n].value.month.value, ss[n].value.units)
      else b
  }

  /** The sum of the rows that count and whose date parses to month `m`. */
  function MonthSum(ss: seq<Option<Sample>>, m: string): real {
    if |ss| == 0 then 0.0
    else
      var n := |ss| - 1;
      MonthSum(ss[..n], m) + (if ss[n].Some? && ss[n].value.month == Some(m) then ss[n].value.units else 0.0)
  }

  /** The part of the total whose date does not parse: it reaches the total but no month. */
  function Undated(ss: seq<Option<Sample>>): real {
    if |ss| == 0 then 0.0
    else
      var n := |ss| - 1;
      Undated(ss[..n]) +
        (if ss[n].Some? && ss[n].value.month.None? then ss[n].value.units else 0.0)
  }

  /** `totalDays > 0 ? total / totalDays : 0`. */
  function Average(total: real, days: nat): (avg: real)
    ensures days > 0 ==> avg * days as real == total
    ensures days == 0 ==> avg == 0.0
  {
    if days > 0 then total / days as real else 0.0
  }

  // ---- Highest and lowest month ----

  /** Descending by total. */
  ghost predicate Descending(s: seq<Entry<string, real>>) {
    forall i, j :: 0 <= i < j < |s| ==> s[i].val >= s[j].val
  }

  /**
   * Puts `e` after every entry of the descending `sorted` whose total is at
   * least its own: the stable placement for the comparator `b.units - a.units`.
   */
  function InsertDesc(sorted: seq<Entry<string, real>>, e: Entry<string, real>): (r: seq<Entry<string, real>>)
    ensures |r| == |sorted| + 1
    ensures multiset(r) == multiset(sorted) + multiset{e}
    ensures r[|r| - 1] == if |sorted| > 0 && sorted[|sorted| - 1].val < e.val then sorted[|sorted| - 1] else e
  {
    if |sorted| == 0 then [e]
    else
      var n := |sorted| - 1;
      if sorted[n].val >= e.val then sorted + [e]
      else
        assert sorted == sorted[..n] + [sorted[n]];
        InsertDesc(sorted[..n], e) + [sorted[n]]
  }

  /** `[...entries].sort((a, b) => b.units - a.units)`, a stable sort. */
  function SortDesc(es: seq<Entry<string, real>>): (r: seq<Entry<string, real>>)
    ensures |r| == |es|
    ensures multiset(r) == multiset(es)
  {
    if |es| == 0 then []
    else
      var n := |es| - 1;
      assert es == es[..n] + [es[n]];
      InsertDesc(SortDesc(es[..n]), es[n])
  }

  /** Inserting keeps a lower bound on the totals. */
  lemma {:induction false} InsertDescBound(sorted: seq<Entry<string, real>>, e: Entry<string, real>, lo: real)
    requires forall k :: 0 <= k < |sorted| ==> sorted[k].val >= lo
    requires e.val >= lo
    ensures forall k :: 0 <= k < |sorted| + 1 ==> InsertDesc(sorted, e)[k].val >= lo
  {
    var r := InsertDesc(sorted, e);
    if |sorted| == 0 {
      assert r == [e];
    } else {
      var n := |sorted| - 1;
      if sorted[n].val < e.val {
        var p := sorted[..n];
        assert forall k :: 0 <= k < |p| ==> p[k].val >= lo by {
          forall k | 0 <= k < |p| ensures p[k].val >= lo {
            assert p[k] == sorted[k];
          }
        }
        InsertDescBound(p, e, lo);
        var q := InsertDesc(p, e);
        assert r == q + [sorted[n]];
        forall k | 0 <= k < |r| ensures r[k].val >= lo {
          if k < |q| {
            assert r[k] == q[k];
          }
        }
      } else {
        assert r == sorted + [e];
        forall k | 0 <= k < |r| ensures r[k].val >= lo {
          if k < |sorted| {
            assert r[k] == sorted[k];
          }
        }
      }
    }
  }

  lemma {:induction false} InsertDescSorted(sorted: seq<Entry<string, real>>, e: Entry<string, real>)
    requires Descending(sorted)
    ensures Descending(InsertDesc(sorted, e))
  {
    if |sorted| > 0 {
      var n := |sorted| - 1;
      if sorted[n].val < e.val {
        InsertDescSorted(sorted[..n], e);
        InsertDescBound(sorted[..n], e, sorted[n].val);
        DescendingSnoc(InsertDesc(sorted[..n], e), sorted[n]);
      }
    }
  }

  /** Appending an entry no larger than any other keeps the order descending. */
  lemma {:induction false} DescendingSnoc(r: seq<Entry<string, real>>, x: Entry<string, real>)
    requires Descending(r)
    requires forall k :: 0 <= k < |r| ==> r[k].val >= x.val
    ensures Descending(r + [x])
  {
    var r' := r + [x];
    forall i, j | 0 <= i < j < |r'| ensures r'[i].val >= r'[j].val {
      assert r'[i] == r[i];
      if j < |r| {
        assert r'[j] == r[j];
      }
    }
  }

  /** The new entry goes in front exactly when its total beats the current head. */
  lemma {:induction false} InsertDescHead(sorted: seq<Entry<string, real>>, e: Entry<string, real>)
    requires Descending(sorted)
    ensures InsertDesc(sorted, e)[0] == if |sorted| > 0 && sorted[0].val >= e.val then sorted[0] else e
  {
    if |sorted| > 1 {
      var n := |sorted| - 1;
      if sorted[n].val < e.val {
        InsertDescHead(sorted[..n], e);
      }
    }
  }

  /** The sort orders by descending total and keeps every entry. */
  lemma {:induction false} SortDescSorted(es: seq<Entry<string, real>>)
    ensures Descending(SortDesc(es))
  {
    if |es| > 0 {
      SortDescSorted(es[..|es| - 1]);
      InsertDescSorted(SortDesc(es[..|es| - 1]), es[|es| - 1]);
    }
  }

  /** The first position holding the largest total. */
  function FirstMax(es: seq<Entry<string, real>>): (i: nat)
    requires |es| > 0
    ensures i < |es|
    ensures forall j :: 0 <= j < |es| ==> es[j].val <= es[i].val
    ensures forall j :: 0 <= j < i ==> es[j].val < es[i].val
  {
    if |es| == 1 then 0
    else
      var n := |es| - 1;
      var i := FirstMax(es[..n]);
      assert es[..n][i] == es[i];
      if es[n].val > es[i].val then n else i
  }

  /** The last position holding the smallest total. */
  function LastMin(es: seq<Entry<string, real>>): (i: nat)
    requires |es| > 0
    ensures i < |es|
    ensures forall j :: 0 <= j < |es| ==> es[i].val <= es[j].val
    ensures forall j :: i < j < |es| ==> es[i].val < es[j].val
  {
    if |es| == 1 then 0
    else
      var n := |es| - 1;
      var i := LastMin(es[..n]);
      assert es[..n][i] == es[i];
      if es[n].val <= es[i].val then n else i
  }

  /** The head of the sort is the earliest month among those with the largest total. */
  lemma {:induction false} SortDescHead(es: seq<Entry<string, real>>)
    requires |es| > 0
    ensures SortDesc(es)[0] == es[FirstMax(es)]
  {
    var n := |es| - 1;
    if n > 0 {
      var prefix := es[..n];
      SortDescHead(prefix);
      SortDescSorted(prefix);
      InsertDescHead(SortDesc(prefix), es[n]);
      assert prefix[FirstMax(prefix)] == es[FirstMax(prefix)];
    }
  }

  /** The tail of the sort is the latest month among those with the smallest total. */
  lemma {:induction false} SortDescLast(es: seq<Entry<string, real>>)
    requires |es| > 0
    ensures SortDesc(es)[|es| - 1] == es[LastMin(es)]
  {
    var n := |es| - 1;
    if n > 0 {
      var prefix := es[..n];
      SortDescLast(prefix);
      assert prefix[LastMin(prefix)] == es[LastMin(prefix)];
    }
  }

  /** The highest-month card: the head of the sorted months, unset when there are none. */
  function Highest(monthly: Bucket<string, real>): Option<Entry<string, real>> {
    if |monthly| == 0 then None else Some(SortDesc(monthly)[0])
  }

  /** The lowest-month card: the tail of the sorted months, unset when there are none. */
  function Lowest(monthly: Bucket<string, real>): Option<Entry<string, real>> {
    if |monthly| == 0 then None else Some(SortDesc(monthly)[|monthly| - 1])
  }

  /** On ties the highest card shows the month met first, the lowest card the month met last. */
  lemma {:induction false} HighestLowest(monthly: Bucket<string, real>)
    ensures Highest(monthly).None? <==> |monthly| == 0
    ensures Lowest(monthly).None? <==> |monthly| == 0
    ensures |monthly| > 0 ==> Highest(monthly) == Some(monthly[FirstMax(monthly)])
    ensures |monthly| > 0 ==> Lowest(monthly) == Some(monthly[LastMin(monthly)])
  {
    if |monthly| > 0 {
      SortDescHead(monthly);
      SortDescLast(monthly);
    }
  }

  /** Two months with the same total: the one inserted first is the highest and the other the lowest. */
  lemma {:induction false} HighestLowestTie()
    ensures Highest([Entry("2024-01", 5.0), Entry("2024-02", 5.0)]) == Some(Entry("2024-01", 5.0))
    ensures Lowest([Entry("2024-01", 5.0), Entry("2024-02", 5.0)]) == Some(Entry("2024-02", 5.0))
  {
    HighestLowest([Entry("2024-01", 5.0), Entry("2024-02", 5.0)]);
  }

  // ---- The effect ----

  /** The cards and charts of the page. */
  datatype Summary = Summary(
    total: real,
    average: real,
    records: nat,
    daily: Bucket<string, real>,
    monthly: Bucket<string, real>,
    highest: Option<Entry<string, real>>,
    lowest: Option<Entry<string, real>>)

  /**
   * The page's effect: refuses a missing dataset, one without a data row
   * and one without a `Units` column; otherwise makes one pass over the
   * data rows.
   */
  method Summarize(stored: Option<Grid>, parse: string -> Option<DateParts>) returns (r: Option<Summary>)
    ensures r.None? <==> stored.None? || |stored.value| < 2 || "Units" !in stored.value[0]
    ensures r.Some? ==>
      var rows := stored.value[1..];
      var ss := Samples(rows, IndexOf(stored.value[0], "Units"), parse);
      && r.value.total == Contributed(ss)
      && r.value.daily == Daily(ss)
      && r.value.monthly == Monthly(ss)
      && r.value.average == Average(Contributed(ss), |Daily(ss)|)
      && r.value.records == |rows|
      && r.value.highest == Highest(Monthly(ss))
      && r.value.lowest == Lowest(Monthly(ss))
  {
    if stored.None? || |stored.value| < 2 {
      return None;
    }
    var header := stored.value[0];
    var rows := stored.value[1..];
    var unitsIndex := IndexOf(header, "Units");
    if unitsIndex == -1 {
      return None;
    }
    ghost var ss := Samples(rows, unitsIndex, parse);
    var total := 0.0;
    var daily: Bucket<string, real> := [];
    var monthly: Bucket<string, real> := [];
    var i := 0;
    while i < |rows|
      invariant 0 <= i <= |rows|
      invariant total == Contributed(ss[..i])
      invariant daily == Daily(ss[..i])
      invariant monthly == Monthly(ss[..i])
    {
      var units := UnitsOf(Cell(rows[i], unitsIndex));
      var date := Cell(rows[i], 0);
      assert ss[..i + 1][..i] == ss[..i];
      assert ss[i] == SampleOf(rows[i], unitsIndex, parse);
      if units.Finite? && Truthy(date) {
        total := total + units.value;
        daily := AddTo(daily, date.value, units.value);
        match parse(date.value) {
          case Some(d) =>
            monthly := AddTo(monthly, MonthKey(d), units.value);
          case None =>
        }
      }
      i := i + 1;
    }
    assert ss[..|rows|] == ss;
    return Some(Summary(total, Average(total, |daily|), |rows|, daily, monthly, Highest(monthly), Lowest(monthly)));
  }

  // ---- What the buckets hold ----

  /** Row `k` counts and carries date `d`. */
  ghost predicate Dated(ss: seq<Option<Sample>>, k: int, d: string) {
    0 <= k < |ss| && ss[k].Some? && ss[k].value.date == d
  }

  /** Every day appears once. */
  lemma {:induction false} DailyDistinct(ss: seq<Option<Sample>>)
    ensures Distinct(Keys(Daily(ss)))
  {
    if |ss| > 0 {
      var n := |ss| - 1;
      DailyDistinct(ss[..n]);
      if ss[n].Some? {
        AddToDistinct(Daily(ss[..n]), ss[n].value.date, ss[n].value.units);
      }
    }
  }

  /** Exactly the dates of the rows that count appear. */
  lemma {:induction false} DailyKeys(ss: seq<Option<Sample>>, d: string)
    ensures d in Keys(Daily(ss)) <==> exists k :: Dated(ss, k, d)
  {
    if |ss| > 0 {
      var n := |ss| - 1;
      var prev := ss[..n];
      DailyKeys(prev, d);
      var b := Daily(prev);
      if ss[n].Some? {
        AddToHas(b, ss[n].value.date, ss[n].value.units, d);
        if ss[n].value.date == d {
          assert Dated(ss, n, d);
        }
      }
      if exists k :: Dated(ss, k, d) {
        var k :| Dated(ss, k, d);
        if k < n {
          assert prev[k] == ss[k];
          assert Dated(prev, k, d);
        }
      }
      if d in Keys(b) {
        var k :| Dated(prev, k, d);
        assert prev[k] == ss[k];
        assert Dated(ss, k, d);
      }
    }
  }

  /** A day reads the sum of its rows. */
  lemma {:induction false} DailyGet(ss: seq<Option<Sample>>, d: string)
    ensures Get(Daily(ss), d).GetOr(0.0) == DateSum(ss, d)
  {
    if |ss| > 0 {
      var n := |ss| - 1;
      DailyGet(ss[..n], d);
      if ss[n].Some? {
        AddToGet(Daily(ss[..n]), ss[n].value.date, ss[n].value.units, d);
      }
    }
  }

  /** The days add up to the total. */
  lemma {:induction false} DailyTotal(ss: seq<Option<Sample>>)
    ensures Total(Daily(ss)) == Contributed(ss)
  {
    if |ss| > 0 {
      var n := |ss| - 1;
      DailyTotal(ss[..n]);
      if ss[n].Some? {
        DailyDistinct(ss[..n]);
        TotalAddTo(Daily(ss[..n]), ss[n].value.date, ss[n].value.units);
      }
    }
  }

  /** Every month appears once. */
  lemma {:induction false} MonthlyDistinct(ss: seq<Option<Sample>>)
    ensures Distinct(Keys(Monthly(ss)))
  {
    if |ss| > 0 {
      var n := |ss| - 1;
      MonthlyDistinct(ss[..n]);
      var b := Monthly(ss[..n]);
      if ss[n].Some? && ss[n].value.month.Some? {
        AddToDistinct(b, ss[n].value.month.value, ss[n].value.units);
      }
    }
  }

  /** Row `k` counts and its date parses to month `m`. */
  ghost predicate FallsIn(ss: seq<Option<Sample>>, k: int, m: string) {
    0 <= k < |ss| && ss[k].Some? && ss[k].value.month == Some(m)
  }

  /** A month appears exactly when a row that counts has a date that parses to it. */
  lemma {:induction false} MonthlyKeys(ss: seq<Option<Sample>>, m: string)
    ensures m in Keys(Monthly(ss)) <==> exists k :: FallsIn(ss, k, m)
  {
    if |ss| > 0 {
      var n := |ss| - 1;
      var prev := ss[..n];
      MonthlyKeys(prev, m);
      var b := Monthly(prev);
      if ss[n].Some? && ss[n].value.month.Some? {
        AddToHas(b, ss[n].value.month.value, ss[n].value.units, m);
        if ss[n].value.month == Some(m) {
          assert FallsIn(ss, n, m);
        }
      }
      if exists k :: FallsIn(ss, k, m) {
        var k :| FallsIn(ss, k, m);
        if k < n {
          assert prev[k] == ss[k];
          assert FallsIn(prev, k, m);
        }
      }
      if m in Keys(b) {
        var k :| FallsIn(prev, k, m);
        assert prev[k] == ss[k];
        assert FallsIn(ss, k, m);
      }
    }
  }

  /** A month reads the sum of the rows whose date parses to it. */
  lemma {:induction false} MonthlyGet(ss: seq<Option<Sample>>, m: string)
    ensures Get(Monthly(ss), m).GetOr(0.0) == MonthSum(ss, m)
  {
    if |ss| > 0 {
      var n := |ss| - 1;
      MonthlyGet(ss[..n], m);
      if ss[n].Some? && ss[n].value.month.Some? {
        AddToGet(Monthly(ss[..n]), ss[n].value.month.value, ss[n].value.units, m);
      }
    }
  }

  /** The months hold the total except the rows whose date does not parse. */
  lemma {:induction false} MonthlyTotal(ss: seq<Option<Sample>>)
    ensures Total(Monthly(ss)) + Undated(ss) == Contributed(ss)
  {
    if |ss| > 0 {
      var n := |ss| - 1;
      MonthlyTotal(ss[..n]);
      if ss[n].Some? && ss[n].value.month.Some? {
        var m := ss[n].value.month.value;
        MonthlyDistinct(ss[..n]);
        TotalAddTo(Monthly(ss[..n]), m, ss[n].value.units);
      }
    }
  }
}
