/**
 * The React dashboard (`Dashboard.js`): one pass over the stored rows adds
 * up every parsable `Units` cell into a total and into a bucket keyed by the
 * month label of the row's date, and two seeded `reduce` calls pick the
 * highest and the lowest month.
 *
 * The month label is the browser's `new Date(cell).toLocaleString(...)`,
 * a parameter here; the two backend responses are parameters too.
 */
module Dashboard {
  import opened Common
  import opened JsText
  import opened JsNumber
  import opened Buckets
  import Overview

  // ---- The pass over the rows ----

  /** A row whose units parse: the month label of its date and its reading. */
  datatype Reading = Reading(month: string, units: real)

  /**
   * `parseFloat(row[unitsIndex])`; unlike the overview page, a row counts
   * whatever its date cell holds.
   */
  function ReadingOf(row: Row, unitsIndex: int, monthOf: Option<string> -> string): (r: Option<Reading>)
    ensures r.Some? <==> Overview.UnitsOf(Cell(row, unitsIndex)).Finite?
    ensures r.Some? ==> r.value == Reading(monthOf(Cell(row, 0)), Overview.UnitsOf(Cell(row, unitsIndex)).value)
  {
    var n := Overview.UnitsOf(Cell(row, unitsIndex));
    if n.Finite? then Some(Reading(monthOf(Cell(row, 0)), n.value)) else None
  }

  function Readings(rows: Grid, unitsIndex: int, monthOf: Option<string> -> string): (rs: seq<Option<Reading>>)
    ensures |rs| == |rows|
    ensures forall k :: 0 <= k < |rows| ==> rs[k] == ReadingOf(rows[k], unitsIndex, monthOf)
  {
    seq(|rows|, k requires 0 <= k < |rows| => ReadingOf(rows[k], unitsIndex, monthOf))
  }

  /** `totalEnergy`. */
  function Counted(rs: seq<Option<Reading>>): real {
    if |rs| == 0 then 0.0
    else
      var n := |rs| - 1;
      Counted(rs[..n]) + (if rs[n].Some? then rs[n].value.units else 0.0)
  }

  /** `monthlyUsage`. */
  function MonthlyUsage(rs: seq<Option<Reading>>): Bucket<string, real> {
    if |rs| == 0 then []
    else
      var n := |rs| - 1;
      var b := MonthlyUsage(rs[..n]);
      if rs[n].Some? then AddTo(b, rs[n].value.month, rs[n].value.units) else b
  }

  /** Reading `k` counts and carries month label `m`. */
  ghost predicate InMonth(rs: seq<Option<Reading>>, k: int, m: string) {
    0 <= k < |rs| && rs[k].Some? && rs[k].value.month == m
  }

  /** The sum of the readings that carry month label `m`. */
  function MonthUnits(rs: seq<Option<Reading>>, m: string): real {
    if |rs| == 0 then 0.0
    else
      var n := |rs| - 1;
      MonthUnits(rs[..n], m) + (if rs[n].Some? && rs[n].value.month == m then rs[n].value.units else 0.0)
  }

  /** A month appears exactly when some reading carries its label. */
  lemma {:induction false} MonthlyUsageKeys(rs: seq<Option<Reading>>, m: string)
    ensures m in Keys(MonthlyUsage(rs)) <==> exists k :: InMonth(rs, k, m)
  {
    if |rs| > 0 {
      var n := |rs| - 1;
      var prev := rs[..n];
      MonthlyUsageKeys(prev, m);
      var b := MonthlyUsage(prev);
      if rs[n].Some? {
        AddToHas(b, rs[n].value.month, rs[n].value.units, m);
        if rs[n].value.month == m {
          assert InMonth(rs, n, m);
        }
      }
      if exists k :: InMonth(rs, k, m) {
        var k :| InMonth(rs, k, m);
        if k < n {
          assert prev[k] == rs[k];
          assert InMonth(prev, k, m);
        }
      }
      if m in Keys(b) {
        var k :| InMonth(prev, k, m);
        assert prev[k] == rs[k];
        assert InMonth(rs, k, m);
      }
    }
  }

  /** A month reads the sum of the readings that carry its label. */
  lemma {:induction false} MonthlyUsageGet(rs: seq<Option<Reading>>, m: string)
    ensures Get(MonthlyUsage(rs), m).GetOr(0.0) == MonthUnits(rs, m)
  {
    if |rs| > 0 {
      var n := |rs| - 1;
      MonthlyUsageGet(rs[..n], m);
      if rs[n].Some? {
        AddToGet(MonthlyUsage(rs[..n]), rs[n].value.month, rs[n].value.units, m);
      }
    }
  }

  /** The months are distinct and add up to the total. */
  lemma {:induction false} MonthlyUsageTotal(rs: seq<Option<Reading>>)
    ensures Distinct(Keys(MonthlyUsage(rs)))
    ensures Total(MonthlyUsage(rs)) == Counted(rs)
  {
    MonthlyUsageDistinct(rs);
    if |rs| > 0 {
      var n := |rs| - 1;
      MonthlyUsageTotal(rs[..n]);
      if rs[n].Some? {
        TotalAddTo(MonthlyUsage(rs[..n]), rs[n].value.month, rs[n].value.units);
      }
    }
  }

  lemma {:induction false} MonthlyUsageDistinct(rs: seq<Option<Reading>>)
    ensures Distinct(Keys(MonthlyUsage(rs)))
  {
    if |rs| > 0 {
      var n := |rs| - 1;
      MonthlyUsageDistinct(rs[..n]);
      if rs[n].Some? {
        AddToDistinct(MonthlyUsage(rs[..n]), rs[n].value.month, rs[n].value.units);
      }
    }
  }

  /** With no month the total is 0, so the average card reads `0 / 0`, that is NaN. */
  lemma {:induction false} NoMonthsNoTotal(rs: seq<Option<Reading>>)
    requires |MonthlyUsage(rs)| == 0
    ensures Counted(rs) == 0.0
  {
    MonthlyUsageTotal(rs);
  }

  // ---- The seeded reduce ----

  const SEED: Entry<string, real> := Entry("", 0.0)

  /** `months.reduce((a, b) => (a[1] > b[1] ? a : b), ["", 0])`. */
  function Highest(months: Bucket<string, real>): Entry<string, real> {
    if |months| == 0 then SEED
    else
      var a := Highest(months[..|months| - 1]);
      var b := months[|months| - 1];
      if a.val > b.val then a else b
  }

  /** `months.reduce((a, b) => (a[1] < b[1] ? a : b), ["", 0])`. */
  function Lowest(months: Bucket<string, real>): Entry<string, real> {
    if |months| == 0 then SEED
    else
      var a := Lowest(months[..|months| - 1]);
      var b := months[|months| - 1];
      if a.val < b.val then a else b
  }

  /** The last position holding the largest total. */
  function LastMax(es: seq<Entry<string, real>>): (i: nat)
    requires |es| > 0
    ensures i < |es|
    ensures forall j :: 0 <= j < |es| ==> es[j].val <= es[i].val
    ensures forall j :: i < j < |es| ==> es[j].val < es[i].val
  {
    if |es| == 1 then 0
    else
      var n := |es| - 1;
      var i := LastMax(es[..n]);
      assert es[..n][i] == es[i];
      if es[n].val >= es[i].val then n else i
  }

  /**
   * The highest card shows the last month among those with the largest
   * total, or the seed `["", 0]` when every month is below 0 (or there is
   * no month).
   */
  lemma {:induction false} HighestIsLastMax(months: Bucket<string, real>)
    ensures Highest(months) ==
      if |months| > 0 && months[LastMax(months)].val >= 0.0 then months[LastMax(months)] else SEED
  {
    if |months| > 1 {
      var n := |months| - 1;
      var prefix := months[..n];
      HighestIsLastMax(prefix);
      assert prefix[LastMax(prefix)] == months[LastMax(prefix)];
    }
  }

  /**
   * The lowest card shows the last month among those with the smallest
   * total, or the seed `["", 0]` when every month is above 0 (or there is
   * no month).
   */
  lemma {:induction false} LowestIsLastMin(months: Bucket<string, real>)
    ensures Lowest(months) ==
      if |months| > 0 && months[Overview.LastMin(months)].val <= 0.0 then months[Overview.LastMin(months)] else SEED
  {
    if |months| > 1 {
      var n := |months| - 1;
      var prefix := months[..n];
      LowestIsLastMin(prefix);
      assert prefix[Overview.LastMin(prefix)] == months[Overview.LastMin(prefix)];
    }
  }

  /** Unlike the overview page, a tie goes to the later month, and a positive usage never shows as lowest. */
  lemma {:induction false} ReduceQuirks()
    ensures Highest([Entry("Jan 2024", 5.0), Entry("Feb 2024", 5.0)]) == Entry("Feb 2024", 5.0)
    ensures Lowest([Entry("Jan 2024", 5.0), Entry("Feb 2024", 5.0)]) == SEED
    ensures Highest([Entry("Jan 2024", -1.0)]) == SEED
  {
    HighestIsLastMax([Entry("Jan 2024", 5.0), Entry("Feb 2024", 5.0)]);
    LowestIsLastMin([Entry("Jan 2024", 5.0), Entry("Feb 2024", 5.0)]);
  }

  // ---- The effect ----

  /** The summary cards. */
  datatype Summary = Summary(
    totalEnergy: real,
    averageEnergy: Num,
    highestMonth: Entry<string, real>,
    lowestMonth: Entry<string, real>,
    forecastDays: nat)

  const DEFAULT: Summary := Summary(0.0, Finite(0.0), Entry("", 0.0), Entry("", 0.0), 0)

  /** The page's state when `fetchDashboardData` returns. */
  datatype State<R> = State(loading: bool, summary: Summary, recommendations: seq<R>)

  /** `totalEnergy / months.length`: NaN when there is no month (the total is then 0, see `NoMonthsNoTotal`). */
  function MonthAverage(total: real, months: nat): (avg: Num)
    ensures months > 0 ==> avg.Finite? && avg.value * months as real == total
    ensures months == 0 && total == 0.0 ==> avg.NaN?
  {
    if months > 0 then Finite(total / months as real) else NaN
  }

  /**
   * `fetchDashboardData`: without a stored dataset the page stops loading
   * with the default summary; an empty array makes `data[0].indexOf` throw,
   * which the `catch` turns into the same; without a `Units` column it
   * returns while still loading. `fetched` says whether both requests and
   * both `.json()` calls succeed; when one throws, the `catch` stops loading
   * and the summary is never set. `forecast` is the length of the `forecast`
   * list of the `/forecast` response when it has one, `recommendations` the
   * list of the `/recommendations` response when it has one.
   */
  method FetchDashboardData<R>(
    stored: Option<Grid>,
    monthOf: Option<string> -> string,
    fetched: bool,
    forecast: Option<nat>,
    recommendations: Option<seq<R>>)
    returns (s: State<R>)
    ensures stored.None? || |stored.value| == 0 ==> s == State(false, DEFAULT, [])
    ensures stored.Some? && |stored.value| > 0 && "Units" !in stored.value[0] ==> s == State(true, DEFAULT, [])
    ensures stored.Some? && |stored.value| > 0 && "Units" in stored.value[0] && !fetched ==>
      s == State(false, DEFAULT, [])
    ensures stored.Some? && |stored.value| > 0 && "Units" in stored.value[0] && fetched ==>
      var rs := Readings(stored.value[1..], IndexOf(stored.value[0], "Units"), monthOf);
      var months := MonthlyUsage(rs);
      && !s.loading
      && s.summary.totalEnergy == Counted(rs)
      && s.summary.averageEnergy == MonthAverage(Counted(rs), |months|)
      && s.summary.highestMonth == Highest(months)
      && s.summary.lowestMonth == Lowest(months)
      && s.summary.forecastDays == forecast.GetOr(0)
      && s.recommendations == recommendations.GetOr([])
  {
    if stored.None? || |stored.value| == 0 {
      return State(false, DEFAULT, []);
    }
    var header := stored.value[0];
    var rows := stored.value[1..];
    var unitsIndex := IndexOf(header, "Units");
    if unitsIndex == -1 {
      return State(true, DEFAULT, []);
    }
    ghost var rs := Readings(rows, unitsIndex, monthOf);
    var totalEnergy := 0.0;
    var monthlyUsage: Bucket<string, real> := [];
    var i := 0;
    while i < |rows|
      invariant 0 <= i <= |rows|
      invariant totalEnergy == Counted(rs[..i])
      invariant monthlyUsage == MonthlyUsage(rs[..i])
    {
      var units := Overview.UnitsOf(Cell(rows[i], unitsIndex));
      assert rs[..i + 1][..i] == rs[..i];
      assert rs[i] == ReadingOf(rows[i], unitsIndex, monthOf);
      if units.Finite? {
        totalEnergy := totalEnergy + units.value;
        monthlyUsage := AddTo(monthlyUsage, monthOf(Cell(rows[i], 0)), units.value);
      }
      i := i + 1;
    }
    assert rs[..|rows|] == rs;
    if !fetched {
      return State(false, DEFAULT, []);
    }
    var summary := Summary(totalEnergy, MonthAverage(totalEnergy, |monthlyUsage|),
      Highest(monthlyUsage), Lowest(monthlyUsage), forecast.GetOr(0));
    return State(false, summary, recommendations.GetOr([]));
  }
}
