/**
 * The React distribution page (`DistributionPage.js`): appliance columns are
 * found by their `(Units)` suffix, each gets a total, a click shows one
 * appliance month by month, and a stacked chart splits every appliance by
 * the values of the `Month` column.
 *
 * Unlike the other pages, a cell is read with `parseFloat(cell || 0)`: an
 * empty or missing cell counts as 0, but a non-empty cell that does not parse
 * turns the sum into NaN.
 */
module DistributionPage {
  import opened Common
  import opened JsText
  import opened JsNumber
  import opened Buckets

  const UNITS: string := "(Units)"

  // ---- Reading a cell ----

  /** `parseFloat(cell || 0)`: a falsy cell reads as 0. */
  function CellNum(c: Option<string>): (n: Num)
    ensures !Truthy(c) ==> n == Finite(0.0)
    ensures Truthy(c) ==> n == ParseFloat(c.value)
  {
    if Truthy(c) then ParseFloat(c.value) else Finite(0.0)
  }

  /** `ns.reduce((sum, n) => sum + n, 0)`: NaN as soon as one term is NaN. */
  function Sum(ns: seq<Num>): Num {
    if |ns| == 0 then Finite(0.0) else Sum(ns[..|ns| - 1]).Plus(ns[|ns| - 1])
  }

  /** Reference definition: the plain sum of the terms that are numbers. */
  function FiniteSum(ns: seq<Num>): real {
    if |ns| == 0 then 0.0
    else FiniteSum(ns[..|ns| - 1]) + (if ns[|ns| - 1].Finite? then ns[|ns| - 1].value else 0.0)
  }

  /** The sum is a number exactly when every term is, and then it is the plain sum. */
  lemma {:induction false} SumFinite(ns: seq<Num>)
    ensures Sum(ns).Finite? <==> forall k :: 0 <= k < |ns| ==> ns[k].Finite?
    ensures Sum(ns).Finite? ==> Sum(ns).value == FiniteSum(ns)
  {
    if |ns| > 0 {
      var n := |ns| - 1;
      SumFinite(ns[..n]);
      assert forall k :: 0 <= k < n ==> ns[..n][k] == ns[k];
    }
  }

  lemma {:induction false} SumSnoc(ns: seq<Num>, x: Num)
    ensures Sum(ns + [x]) == Sum(ns).Plus(x)
  {
    assert (ns + [x])[..|ns|] == ns;
  }

  /** The cells of column `i`, as `parseFloat(row[i] || 0)` reads them. */
  function CellNums(rows: Grid, i: int): (ns: seq<Num>)
    ensures |ns| == |rows|
    ensures forall k :: 0 <= k < |rows| ==> ns[k] == CellNum(Cell(rows[k], i))
  {
    seq(|rows|, k requires 0 <= k < |rows| => CellNum(Cell(rows[k], i)))
  }

  /** `rows.reduce((sum, row) => sum + parseFloat(row[i] || 0), 0)`. */
  function ColumnTotal(rows: Grid, i: int): Num {
    Sum(CellNums(rows, i))
  }

  /**
   * A column totals to a number exactly when none of its cells reads as NaN:
   * an empty or missing cell counts 0, one unparsable cell spoils the total.
   */
  lemma {:induction false} ColumnTotalFinite(rows: Grid, i: int)
    ensures ColumnTotal(rows, i).Finite? <==> forall k :: 0 <= k < |rows| ==> CellNum(Cell(rows[k], i)).Finite?
    ensures ColumnTotal(rows, i).Finite? ==> ColumnTotal(rows, i).value == FiniteSum(CellNums(rows, i))
  {
    SumFinite(CellNums(rows, i));
  }

  // ---- processData ----

  /** A header cell containing `(Units)`, with its position. */
  datatype UnitCol = UnitCol(name: string, index: nat)

  /** `header.map((h, i) => ({ name: h, index: i })).filter(col => col.name.includes("(Units)"))` */
  function ApplianceCols(header: Row): (cols: seq<UnitCol>)
    ensures forall c :: c in cols <==> c.index < |header| && c.name == header[c.index] && Contains(c.name, UNITS)
    ensures forall p, q :: 0 <= p < q < |cols| ==> cols[p].index < cols[q].index
    ensures forall p :: 0 <= p < |cols| ==> cols[p].index < |header|
  {
    if |header| == 0 then []
    else
      var n := |header| - 1;
      var init := ApplianceCols(header[..n]);
      var r := if Contains(header[n], UNITS) then init + [UnitCol(header[n], n)] else init;
      assert forall c :: c in r <==> c.index < |header| && c.name == header[c.index] && Contains(c.name, UNITS) by {
        forall c ensures c in r <==> c.index < |header| && c.name == header[c.index] && Contains(c.name, UNITS) {
          if c.index < n {
            assert header[..n][c.index] == header[c.index];
          }
        }
      }
      r
  }

  /** `name.split("(")[0]`, not trimmed. */
  function Label(name: string): string {
    SplitOn(name, '(')[0]
  }

  /** The label is the text before the first `(`, spaces included. */
  lemma {:induction false} LabelBeforeParen(name: string)
    ensures Label(name) == if '(' in name then name[..IndexOf(name, '(')] else name
  {
    SplitOnHead(name, '(');
  }

  /** The label stops at the first `(`. */
  lemma {:induction false} LabelStops(base: string, rest: string)
    requires '(' !in base
    ensures Label(base + "(" + rest) == base
  {
    var name := base + "(" + rest;
    LabelBeforeParen(name);
    assert name[..|base|] == base;
    assert name[|base|] == '(';
    assert IndexOf(name, '(') == |base| by {
      IndexOfPrefix(name, |base| + 1, '(');
      assert name[..|base| + 1] == base + ['('];
    }
  }

  /** `Fan(Units)` gives the label `Fan`, and the click looks up `Fan(Units)` again. */
  lemma {:induction false} LabelUnitsRoundTrip(base: string)
    requires '(' !in base
    ensures Label(base + UNITS) == base
    ensures Label(base + UNITS) + UNITS == base + UNITS
  {
    LabelStops(base, "Units)");
    assert base + UNITS == base + "(" + "Units)";
  }

  /** A second `(` before the units, as in `AC(kW)(Units)`, gives a label the click cannot find. */
  lemma {:induction false} LabelLosesInnerParens()
    ensures Label("AC(kW)(Units)") == "AC"
  {
    LabelStops("AC", "kW)(Units)");
    assert "AC" + "(" + "kW)(Units)" == "AC(kW)(Units)";
  }

  /** One bar of the appliance chart. */
  datatype ApplianceBar = ApplianceBar(name: string, total: Num)

  function Bars(rows: Grid, cols: seq<UnitCol>): (bars: seq<ApplianceBar>)
    ensures |bars| == |cols|
    ensures forall k :: 0 <= k < |cols| ==> bars[k] == ApplianceBar(Label(cols[k].name), ColumnTotal(rows, cols[k].index))
  {
    seq(|cols|, k requires 0 <= k < |cols| => ApplianceBar(Label(cols[k].name), ColumnTotal(rows, cols[k].index)))
  }

  // ---- prepareStackedData ----

  /** `Array.from(new Set(xs))`: each value once, in order of first occurrence. */
  function Dedup<T(==,!new)>(xs: seq<T>): (r: seq<T>)
    ensures Distinct(r)
    ensures forall x :: x in r <==> x in xs
  {
    if |xs| == 0 then []
    else
      var n := |xs| - 1;
      var d := Dedup(xs[..n]);
      assert forall x :: x in xs <==> x in xs[..n] || x == xs[n] by {
        assert xs == xs[..n] + [xs[n]];
      }
      if xs[n] in d then d else d + [xs[n]]
  }

  /** Values appear in the order of their first occurrence. */
  lemma {:induction false} DedupOrder<T(!new)>(xs: seq<T>, i: nat, j: nat)
    requires i < j < |Dedup(xs)|
    ensures IndexOf(xs, Dedup(xs)[i]) < IndexOf(xs, Dedup(xs)[j])
  {
    var n := |xs| - 1;
    var d := Dedup(xs[..n]);
    assert xs == xs[..n] + [xs[n]];
    if j < |d| {
      DedupOrder(xs[..n], i, j);
      IndexOfPrefix(xs, n, d[i]);
      IndexOfPrefix(xs, n, d[j]);
    } else {
      assert Dedup(xs)[j] == xs[n] && xs[n] !in xs[..n];
      IndexOfPrefix(xs, n, d[i]);
      assert IndexOf(xs, xs[n]) == n by {
        assert xs[..n] == xs[..n];
      }
    }
  }

  /** The first position of a value that occurs in a prefix is the same in the whole. */
  lemma {:induction false} IndexOfPrefix<T>(xs: seq<T>, n: nat, x: T)
    requires n <= |xs| && x in xs[..n]
    ensures IndexOf(xs, x) == IndexOf(xs[..n], x)
  {
    var k := IndexOf(xs[..n], x);
    assert xs[k] == x;
    assert xs[..n][..k] == xs[..k];
  }

  /** The month values of the data rows (`undefined` for a short row). */
  function MonthCells(rows: Grid, monthIdx: int): (ms: seq<Option<string>>)
    ensures |ms| == |rows|
    ensures forall k :: 0 <= k < |rows| ==> ms[k] == Cell(rows[k], monthIdx)
  {
    seq(|rows|, k requires 0 <= k < |rows| => Cell(rows[k], monthIdx))
  }

  /** A data row seen through two columns: its month cell and its reading. */
  datatype Point = Point(month: Option<string>, num: Num)

  function Points(rows: Grid, monthIdx: int, col: int): (pts: seq<Point>)
    ensures |pts| == |rows|
    ensures forall k :: 0 <= k < |rows| ==> pts[k] == Point(Cell(rows[k], monthIdx), CellNum(Cell(rows[k], col)))
  {
    seq(|rows|, k requires 0 <= k < |rows| => Point(Cell(rows[k], monthIdx), CellNum(Cell(rows[k], col))))
  }

  function Nums(pts: seq<Point>): (ns: seq<Num>)
    ensures |ns| == |pts|
    ensures forall k :: 0 <= k < |pts| ==> ns[k] == pts[k].num
  {
    seq(|pts|, k requires 0 <= k < |pts| => pts[k].num)
  }

  /** The readings of the points of month `m`, in row order. */
  function InMonth(pts: seq<Point>, m: Option<string>): seq<Num> {
    if |pts| == 0 then []
    else
      var n := |pts| - 1;
      InMonth(pts[..n], m) + (if pts[n].month == m then [pts[n].num] else [])
  }

  /** `rows.filter(r => r[monthIdx] === m)`. */
  function Filter(rows: Grid, monthIdx: int, m: Option<string>): (f: Grid)
    ensures |f| <= |rows|
    ensures forall k :: 0 <= k < |f| ==> Cell(f[k], monthIdx) == m
  {
    if |rows| == 0 then []
    else
      var n := |rows| - 1;
      var init := Filter(rows[..n], monthIdx, m);
      if Cell(rows[n], monthIdx) == m then init + [rows[n]] else init
  }

  /** The filter keeps exactly the rows of month `m`. */
  lemma {:induction false} FilterMembers(rows: Grid, monthIdx: int, m: Option<string>, r: Row)
    ensures r in Filter(rows, monthIdx, m) <==> r in rows && Cell(r, monthIdx) == m
  {
    if |rows| > 0 {
      var n := |rows| - 1;
      FilterMembers(rows[..n], monthIdx, m, r);
      assert rows == rows[..n] + [rows[n]];
    }
  }

  /** Filtering the rows and then reading the column gives the readings of that month. */
  lemma {:induction false} FilterInMonth(rows: Grid, monthIdx: int, col: int, m: Option<string>)
    ensures CellNums(Filter(rows, monthIdx, m), col) == InMonth(Points(rows, monthIdx, col), m)
  {
    if |rows| > 0 {
      var n := |rows| - 1;
      var pts := Points(rows, monthIdx, col);
      FilterInMonth(rows[..n], monthIdx, col, m);
      assert pts[..n] == Points(rows[..n], monthIdx, col);
      var f := Filter(rows[..n], monthIdx, m);
      if Cell(rows[n], monthIdx) == m {
        assert CellNums(f + [rows[n]], col) == CellNums(f, col) + [CellNum(Cell(rows[n], col))];
      }
    }
  }

  /** For each month, the total of that month's readings. */
  function PerMonth(pts: seq<Point>, months: seq<Option<string>>): (data: seq<Num>)
    ensures |data| == |months|
    ensures forall j :: 0 <= j < |months| ==> data[j] == Sum(InMonth(pts, months[j]))
  {
    seq(|months|, j requires 0 <= j < |months| => Sum(InMonth(pts, months[j])))
  }

  /** One series of the stacked chart. */
  datatype Series = Series(name: string, data: seq<Num>)

  datatype StackedData = StackedData(months: seq<Option<string>>, datasets: seq<Series>)

  /** `prepareStackedData(header, rows, applianceCols)`: nothing without a `Month` column. */
  function PrepareStacked(header: Row, rows: Grid, cols: seq<UnitCol>): (s: Option<StackedData>)
    ensures s.None? <==> "Month" !in header
    ensures s.Some? ==>
      var monthIdx := IndexOf(header, "Month");
      && s.value.months == Dedup(MonthCells(rows, monthIdx))
      && |s.value.datasets| == |cols|
      && forall k :: 0 <= k < |cols| ==>
        s.value.datasets[k] == Series(Label(cols[k].name), PerMonth(Points(rows, monthIdx, cols[k].index), s.value.months))
  {
    var monthIdx := IndexOf(header, "Month");
    if monthIdx == -1 then None
    else
      var months := Dedup(MonthCells(rows, monthIdx));
      Some(StackedData(months, seq(|cols|, k requires 0 <= k < |cols| =>
        Series(Label(cols[k].name), PerMonth(Points(rows, monthIdx, cols[k].index), months)))))
  }

  /** Each stacked segment is the reduce over the rows the page filters for that month. */
  lemma {:induction false} StackedSegment(header: Row, rows: Grid, cols: seq<UnitCol>, k: nat, j: nat)
    requires PrepareStacked(header, rows, cols).Some? && k < |cols|
    requires j < |PrepareStacked(header, rows, cols).value.months|
    ensures var s := PrepareStacked(header, rows, cols).value;
      var monthIdx := IndexOf(header, "Month");
      s.datasets[k].data[j] == ColumnTotal(Filter(rows, monthIdx, s.months[j]), cols[k].index)
  {
    var s := PrepareStacked(header, rows, cols).value;
    FilterInMonth(rows, IndexOf(header, "Month"), cols[k].index, s.months[j]);
  }

  // ---- The stacked bars add up to the appliance bars ----

  lemma {:induction false} InMonthSnoc(pts: seq<Point>, pt: Point, m: Option<string>)
    ensures InMonth(pts + [pt], m) == InMonth(pts, m) + (if pt.month == m then [pt.num] else [])
  {
    assert (pts + [pt])[..|pts|] == pts;
  }

  /** The sum of the terms that are numbers, as the stacked bar adds its segments. */
  lemma {:induction false} FiniteSumPlus(ns: seq<Num>, p: nat, v: Num)
    requires p < |ns| && ns[p].Finite? && v.Finite?
    ensures FiniteSum(ns[p := ns[p].Plus(v)]) == FiniteSum(ns) + v.value
  {
    var n := |ns| - 1;
    var ns' := ns[p := ns[p].Plus(v)];
    if p < n {
      FiniteSumPlus(ns[..n], p, v);
      assert ns'[..n] == ns[..n][p := ns[p].Plus(v)];
    } else {
      assert ns'[..n] == ns[..n];
    }
  }

  /** With no points, every month totals 0. */
  lemma {:induction false} PerMonthEmpty(months: seq<Option<string>>)
    ensures FiniteSum(PerMonth([], months)) == 0.0
  {
    if |months| > 0 {
      var n := |months| - 1;
      PerMonthEmpty(months[..n]);
      assert PerMonth([], months)[..n] == PerMonth([], months[..n]);
    }
  }

  /** A new point adds its reading to the month it carries and leaves the other months alone. */
  lemma {:induction false} PerMonthSnoc(pts: seq<Point>, pt: Point, months: seq<Option<string>>, p: nat)
    requires Distinct(months) && p < |months| && months[p] == pt.month
    ensures var data := PerMonth(pts, months);
      PerMonth(pts + [pt], months) == data[p := data[p].Plus(pt.num)]
  {
    var data := PerMonth(pts, months);
    var data' := PerMonth(pts + [pt], months);
    forall j | 0 <= j < |months| ensures data'[j] == data[p := data[p].Plus(pt.num)][j] {
      InMonthSnoc(pts, pt, months[j]);
      if j == p {
        assert InMonth(pts + [pt], months[p]) == InMonth(pts, months[p]) + [pt.num];
        SumSnoc(InMonth(pts, months[p]), pt.num);
      } else {
        assert months[j] != months[p];
        assert InMonth(pts, months[j]) + [] == InMonth(pts, months[j]);
        assert data'[j] == data[j];
      }
    }
  }

  /** Every month's readings are numbers when all readings are. */
  lemma {:induction false} InMonthFinite(pts: seq<Point>, m: Option<string>)
    requires forall k :: 0 <= k < |pts| ==> pts[k].num.Finite?
    ensures forall k :: 0 <= k < |InMonth(pts, m)| ==> InMonth(pts, m)[k].Finite?
  {
    if |pts| > 0 {
      InMonthFinite(pts[..|pts| - 1], m);
    }
  }

  /** No month totals to NaN when no reading is NaN. */
  lemma {:induction false} PerMonthFinite(pts: seq<Point>, months: seq<Option<string>>)
    requires forall k :: 0 <= k < |pts| ==> pts[k].num.Finite?
    ensures forall j :: 0 <= j < |months| ==> PerMonth(pts, months)[j].Finite?
  {
    forall j | 0 <= j < |months| ensures PerMonth(pts, months)[j].Finite? {
      InMonthFinite(pts, months[j]);
      SumFinite(InMonth(pts, months[j]));
    }
  }

  /**
   * Over distinct months that cover every point, the per-month totals add
   * up to the total of all readings: each point falls in exactly one month.
   */
  lemma {:induction false} PerMonthAddsUp(pts: seq<Point>, months: seq<Option<string>>)
    requires Distinct(months)
    requires forall k :: 0 <= k < |pts| ==> pts[k].month in months
    requires forall k :: 0 <= k < |pts| ==> pts[k].num.Finite?
    ensures FiniteSum(PerMonth(pts, months)) == FiniteSum(Nums(pts))
  {
    if |pts| == 0 {
      PerMonthEmpty(months);
    } else {
      var n := |pts| - 1;
      var prev := pts[..n];
      var pt := pts[n];
      assert pts == prev + [pt];
      PerMonthAddsUp(prev, months);
      var p := IndexOf(months, pt.month);
      var data := PerMonth(prev, months);
      PerMonthSnoc(prev, pt, months, p);
      PerMonthFinite(prev, months);
      FiniteSumPlus(data, p, pt.num);
      assert FiniteSum(PerMonth(pts, months)) == FiniteSum(data) + pt.num.value;
      assert Nums(pts)[..n] == Nums(prev);
      assert FiniteSum(Nums(pts)) == FiniteSum(Nums(prev)) + pt.num.value;
    }
  }

  /**
   * The stacked segments of one appliance add up to its bar in the
   * appliance chart, and none of them is NaN, as long as that bar is not NaN.
   */
  lemma {:induction false} StackedAddsUp(header: Row, rows: Grid, cols: seq<UnitCol>, k: nat)
    requires PrepareStacked(header, rows, cols).Some? && k < |cols|
    requires ColumnTotal(rows, cols[k].index).Finite?
    ensures var s := PrepareStacked(header, rows, cols).value;
      && (forall j :: 0 <= j < |s.months| ==> s.datasets[k].data[j].Finite?)
      && FiniteSum(s.datasets[k].data) == Bars(rows, cols)[k].total.value
  {
    var s := PrepareStacked(header, rows, cols).value;
    var monthIdx := IndexOf(header, "Month");
    var col := cols[k].index;
    var pts := Points(rows, monthIdx, col);
    ColumnTotalFinite(rows, col);
    forall i | 0 <= i < |rows| ensures pts[i].month in s.months {
      assert MonthCells(rows, monthIdx)[i] == pts[i].month;
    }
    PerMonthFinite(pts, s.months);
    PerMonthAddsUp(pts, s.months);
    assert Nums(pts) == CellNums(rows, col);
  }

  // ---- handleApplianceClick ----

  /** The property name a month cell becomes: `monthly[undefined]` writes the key `"undefined"`. */
  function KeyOf(c: Option<string>): string {
    if c.Some? then c.value else "undefined"
  }

  /** `monthly[key] || 0`: a missing entry and a NaN entry both restart from 0. */
  function Restart(monthly: map<string, Num>, key: string): (n: Num)
    ensures n.Finite?
    ensures key in monthly && monthly[key].Finite? ==> n == monthly[key]
    ensures key !in monthly || monthly[key].NaN? ==> n == Finite(0.0)
  {
    if key in monthly && monthly[key].Finite? then monthly[key] else Finite(0.0)
  }

  /** The `monthly` object after `forEach` has visited every point. */
  function Monthly(pts: seq<Point>): map<string, Num> {
    if |pts| == 0 then map[]
    else
      var n := |pts| - 1;
      var m := Monthly(pts[..n]);
      var key := KeyOf(pts[n].month);
      m[key := Restart(m, key).Plus(pts[n].num)]
  }

  /**
   * `handleApplianceClick(label)`, with `appliance` for the label, on the stored dataset: looks up the
   * `Month` column and the `<label>(Units)` column, and totals the
   * appliance per month. The labels and values of the month chart are the
   * keys and values of the result.
   */
  method HandleApplianceClick(dataset: Grid, appliance: string) returns (r: Option<map<string, Num>>)
    requires |dataset| >= 1
    ensures r.None? <==> "Month" !in dataset[0] || appliance + UNITS !in dataset[0]
    ensures r.Some? ==>
      r.value == Monthly(Points(dataset[1..], IndexOf(dataset[0], "Month"), IndexOf(dataset[0], appliance + UNITS)))
  {
    var header := dataset[0];
    var rows := dataset[1..];
    var monthIdx := IndexOf(header, "Month");
    var appIdx := IndexOf(header, appliance + UNITS);
    if monthIdx == -1 || appIdx == -1 {
      return None;
    }
    ghost var pts := Points(rows, monthIdx, appIdx);
    var monthly: map<string, Num> := map[];
    var i := 0;
    while i < |rows|
      invariant 0 <= i <= |rows|
      invariant monthly == Monthly(pts[..i])
    {
      var month := Cell(rows[i], monthIdx);
      var val := CellNum(Cell(rows[i], appIdx));
      var key := KeyOf(month);
      assert pts[i] == Point(month, val);
      MonthlySnoc(pts, i);
      monthly := monthly[key := Restart(monthly, key).Plus(val)];
      i := i + 1;
    }
    assert pts[..|rows|] == pts;
    return Some(monthly);
  }

  /** One more point updates only its own month. */
  lemma {:induction false} MonthlySnoc(pts: seq<Point>, i: nat)
    requires i < |pts|
    ensures var key := KeyOf(pts[i].month);
      Monthly(pts[..i + 1]) == Monthly(pts[..i])[key := Restart(Monthly(pts[..i]), key).Plus(pts[i].num)]
  {
    assert pts[..i + 1][..i] == pts[..i];
  }

  /** The months of the click chart are exactly the keys the rows' month cells become. */
  lemma {:induction false} MonthlyKeys(pts: seq<Point>, key: string)
    ensures key in Monthly(pts) <==> exists k :: 0 <= k < |pts| && KeyOf(pts[k].month) == key
  {
    if |pts| > 0 {
      var n := |pts| - 1;
      MonthlyKeys(pts[..n], key);
      if key in Monthly(pts[..n]) {
        var k :| 0 <= k < n && KeyOf(pts[..n][k].month) == key;
        assert KeyOf(pts[k].month) == key;
      }
      if exists k :: 0 <= k < |pts| && KeyOf(pts[k].month) == key {
        var k :| 0 <= k < |pts| && KeyOf(pts[k].month) == key;
        if k < n {
          assert KeyOf(pts[..n][k].month) == key;
        }
      }
    }
  }

  /** No other month cell turns into the same key as `m` (a missing cell and `"undefined"` do). */
  ghost predicate KeyUnique(pts: seq<Point>, m: Option<string>) {
    forall k :: 0 <= k < |pts| && KeyOf(pts[k].month) == KeyOf(m) ==> pts[k].month == m
  }

  /**
   * While a month's readings hold no NaN, the click chart shows the same
   * value for it as the stacked segment of that appliance and month.
   */
  lemma {:induction false} MonthlyMatchesStacked(pts: seq<Point>, m: Option<string>)
    requires KeyUnique(pts, m)
    requires Sum(InMonth(pts, m)).Finite?
    ensures KeyOf(m) in Monthly(pts) ==> Monthly(pts)[KeyOf(m)] == Sum(InMonth(pts, m))
    ensures KeyOf(m) !in Monthly(pts) ==> InMonth(pts, m) == []
  {
    if |pts| > 0 {
      var n := |pts| - 1;
      var prev := pts[..n];
      var pt := pts[n];
      assert pts == prev + [pt];
      InMonthSnoc(prev, pt, m);
      assert KeyUnique(prev, m) by {
        forall k | 0 <= k < n && KeyOf(prev[k].month) == KeyOf(m) ensures prev[k].month == m {
          assert prev[k] == pts[k];
        }
      }
      if pt.month == m {
        SumSnoc(InMonth(prev, m), pt.num);
      } else {
        assert KeyOf(pt.month) != KeyOf(m);
        assert InMonth(prev, m) + [] == InMonth(prev, m);
      }
      MonthlyMatchesStacked(prev, m);
    }
  }

  /**
   * A NaN reading does not spoil the click chart as it spoils the stacked
   * segment: `NaN || 0` restarts the month from 0.
   */
  lemma {:induction false} ClickForgetsNaN()
    ensures var pts := [Point(Some("Jan"), NaN), Point(Some("Jan"), Finite(5.0))];
      && Monthly(pts) == map["Jan" := Finite(5.0)]
      && Sum(InMonth(pts, Some("Jan"))).NaN?
  {
    var pts := [Point(Some("Jan"), NaN), Point(Some("Jan"), Finite(5.0))];
    assert pts[..1] == [Point(Some("Jan"), NaN)];
    assert pts[..1][..0] == [];
    assert InMonth(pts, Some("Jan")) == [NaN, Finite(5.0)];
    assert [NaN, Finite(5.0)][..1] == [NaN];
    assert [NaN][..0] == [];
  }

  /** A row too short to have a month and a row whose month is `"undefined"` share one bar. */
  lemma {:induction false} ClickMergesUndefined()
    ensures Monthly([Point(None, Finite(1.0)), Point(Some("undefined"), Finite(2.0))]) == map["undefined" := Finite(3.0)]
  {
    var pts := [Point(None, Finite(1.0)), Point(Some("undefined"), Finite(2.0))];
    assert pts[..1] == [Point(None, Finite(1.0))];
    assert pts[..1][..0] == [];
  }

  // ---- Opening the page ----

  /** What the page shows once its effect has run. */
  datatype Page =
    | NotLoaded
    | NoApplianceColumns(dataset: Grid)
    | Shown(dataset: Grid, bars: seq<ApplianceBar>, stacked: Option<StackedData>)

  /**
   * The effect: reads the stored dataset, refuses it without a data row,
   * then `processData` builds the bars and the stacked chart.
   */
  function Open(stored: Option<Grid>): (p: Page)
    ensures p.NotLoaded? <==> stored.None? || |stored.value| < 2
    ensures p.NoApplianceColumns? <==> !p.NotLoaded? && forall h :: h in stored.value[0] ==> !Contains(h, UNITS)
    ensures p.Shown? ==>
      && p.dataset == stored.value
      && |p.bars| == |ApplianceCols(stored.value[0])| > 0
      && (forall k :: 0 <= k < |p.bars| ==>
        p.bars[k].total == ColumnTotal(stored.value[1..], ApplianceCols(stored.value[0])[k].index))
      && (p.stacked.Some? <==> "Month" in stored.value[0])
    ensures p.Shown? ==>
      && p.bars == Bars(stored.value[1..], ApplianceCols(stored.value[0]))
      && p.stacked == PrepareStacked(stored.value[0], stored.value[1..], ApplianceCols(stored.value[0]))
  {
    if stored.None? || |stored.value| < 2 then NotLoaded
    else
      var header := stored.value[0];
      var rows := stored.value[1..];
      var cols := ApplianceCols(header);
      if |cols| == 0 then
        assert forall h :: h in header ==> !Contains(h, UNITS) by {
          forall h | h in header ensures !Contains(h, UNITS) {
            var i :| 0 <= i < |header| && header[i] == h;
            assert UnitCol(h, i) !in cols;
          }
        }
        NoApplianceColumns(stored.value)
      else
        assert cols[0] in cols && header[cols[0].index] in header;
        Shown(stored.value, Bars(rows, cols), PrepareStacked(header, rows, cols))
  }

  /**
   * A bar's click finds its column again when the column name has no `(`
   * before `(Units)`: the click can then fail only for a missing `Month`.
   */
  lemma {:induction false} ClickFindsColumn(header: Row, k: nat, base: string)
    requires k < |ApplianceCols(header)|
    requires ApplianceCols(header)[k].name == base + UNITS && '(' !in base
    ensures Label(ApplianceCols(header)[k].name) + UNITS in header
  {
    var c := ApplianceCols(header)[k];
    assert c in ApplianceCols(header);
    LabelUnitsRoundTrip(base);
  }
}
