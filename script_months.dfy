/**
 * The month-wise charts of the distribution page (`script.js`): the line
 * chart of one appliance, opened by clicking its bar, and the stacked chart
 * of all appliances. Both group the data rows by the `YYYY-MM` key of their
 * date cell.
 *
 * A data row is first reduced to what the charts read from it: its month key
 * and its parsed cells (`Reading`, `Stamp`). The aggregation is then stated
 * and proved on those values alone.
 */
module ScriptMonths {
  import opened Common
  import opened JsText
  import opened JsNumber
  import opened Buckets
  import opened JsSort
  import opened ScriptParse
  import opened ScriptCharts

  // ---- What a row contributes ----

  /** A row's month key and one parsed cell of it. */
  datatype Reading = Reading(month: Option<string>, value: Num)

  function ReadingOf(row: Row, dateIdx: int, col: int): Reading {
    Reading(ExtractMonthKey(Cell(row, dateIdx)), CellValue(Cell(row, col)))
  }

  function Readings(rows: Grid, dateIdx: int, col: int): (rs: seq<Reading>)
    ensures |rs| == |rows|
    ensures forall i :: 0 <= i < |rows| ==> rs[i] == ReadingOf(rows[i], dateIdx, col)
  {
    seq(|rows|, i requires 0 <= i < |rows| => ReadingOf(rows[i], dateIdx, col))
  }

  /** Every month key a row yields has the `YYYY-MM` shape. */
  predicate KeysWellFormed(rs: seq<Reading>) {
    forall i :: 0 <= i < |rs| && rs[i].month.Some? ==> IsMonthKey(rs[i].month.value)
  }

  lemma {:induction false} ReadingsWellFormed(rows: Grid, dateIdx: int, col: int)
    ensures KeysWellFormed(Readings(rows, dateIdx, col))
  {
  }

  // ---- Month totals of one appliance ----

  /** The reading falls in month `m` and its cell parses. */
  predicate Counts(r: Reading, m: string) {
    r.month == Some(m) && r.value.Finite?
  }

  /** Some reading counts for month `m`. */
  predicate InMonth(rs: seq<Reading>, m: string) {
    exists i :: 0 <= i < |rs| && Counts(rs[i], m)
  }

  /** Reference definition: the sum of the parsable cells of month `m`. */
  function MonthSum(rs: seq<Reading>, m: string): real {
    if |rs| == 0 then 0.0
    else
      var r := rs[|rs| - 1];
      MonthSum(rs[..|rs| - 1], m) + (if Counts(r, m) then r.value.value else 0.0)
  }

  /** The sum of the parsable cells of all rows that have a month key. */
  function KeyedSum(rs: seq<Reading>): real {
    if |rs| == 0 then 0.0
    else
      var r := rs[|rs| - 1];
      KeyedSum(rs[..|rs| - 1]) + (if r.month.Some? then Contribution(r.value) else 0.0)
  }

  /**
   * One pass of the loop filling `monthMap`: a row without a month key, or
   * whose cell does not parse, changes nothing; otherwise the value is added
   * to the month's total.
   */
  function MonthStep(acc: Bucket<string, real>, r: Reading): Bucket<string, real> {
    if r.month.Some? && r.value.Finite? then AddTo(acc, r.month.value, r.value.value) else acc
  }

  /** `monthMap` after the loop has read `rs`. */
  function MonthTotals(rs: seq<Reading>): Bucket<string, real> {
    if |rs| == 0 then [] else MonthStep(MonthTotals(rs[..|rs| - 1]), rs[|rs| - 1])
  }

  lemma {:induction false} InMonthSnoc(rs: seq<Reading>, r: Reading, m: string)
    ensures InMonth(rs + [r], m) <==> InMonth(rs, m) || Counts(r, m)
  {
    var all := rs + [r];
    if InMonth(all, m) && !Counts(r, m) {
      var i :| 0 <= i < |all| && Counts(all[i], m);
      assert i < |rs| && all[i] == rs[i];
    }
    if InMonth(rs, m) {
      var i :| 0 <= i < |rs| && Counts(rs[i], m);
      assert all[i] == rs[i];
    }
    if Counts(r, m) {
      assert all[|rs|] == r;
    }
  }

  lemma {:induction false} MonthSumNone(rs: seq<Reading>, m: string)
    requires !InMonth(rs, m)
    ensures MonthSum(rs, m) == 0.0
  {
    if |rs| > 0 {
      var n := |rs| - 1;
      assert rs == rs[..n] + [rs[n]];
      InMonthSnoc(rs[..n], rs[n], m);
      MonthSumNone(rs[..n], m);
    }
  }

  /**
   * `monthMap` holds month `m` exactly when some row of month `m` has a
   * parsable cell, and then it holds the sum of those cells.
   */
  lemma {:induction false} MonthTotalsGet(rs: seq<Reading>, m: string)
    ensures Get(MonthTotals(rs), m) == if InMonth(rs, m) then Some(MonthSum(rs, m)) else None
  {
    if |rs| > 0 {
      var n := |rs| - 1;
      var prev := rs[..n];
      assert rs == prev + [rs[n]];
      MonthTotalsGet(prev, m);
      InMonthSnoc(prev, rs[n], m);
      if rs[n].month.Some? && rs[n].value.Finite? {
        AddToGet(MonthTotals(prev), rs[n].month.value, rs[n].value.value, m);
      }
      if Counts(rs[n], m) && !InMonth(prev, m) {
        MonthSumNone(prev, m);
      }
    }
  }

  /** The keys of `monthMap` are distinct month keys. */
  lemma {:induction false} MonthTotalsKeys(rs: seq<Reading>)
    ensures Distinct(Keys(MonthTotals(rs)))
    ensures KeysWellFormed(rs) ==> forall k :: k in Keys(MonthTotals(rs)) ==> IsMonthKey(k)
  {
    MonthTotalsDistinct(rs);
    if KeysWellFormed(rs) {
      MonthTotalsShaped(rs);
    }
  }

  lemma {:induction false} MonthTotalsDistinct(rs: seq<Reading>)
    ensures Distinct(Keys(MonthTotals(rs)))
  {
    if |rs| > 0 {
      var n := |rs| - 1;
      MonthTotalsDistinct(rs[..n]);
      var r := rs[n];
      if r.month.Some? && r.value.Finite? {
        AddToDistinct(MonthTotals(rs[..n]), r.month.value, r.value.value);
      }
    }
  }

  lemma {:induction false} MonthTotalsShaped(rs: seq<Reading>)
    requires KeysWellFormed(rs)
    ensures forall k :: k in Keys(MonthTotals(rs)) ==> IsMonthKey(k)
  {
    if |rs| > 0 {
      var n := |rs| - 1;
      assert KeysWellFormed(rs[..n]) by {
        forall i | 0 <= i < n && rs[..n][i].month.Some? ensures IsMonthKey(rs[..n][i].month.value) {
          assert rs[..n][i] == rs[i];
        }
      }
      MonthTotalsShaped(rs[..n]);
      var r := rs[n];
      if r.month.Some? && r.value.Finite? {
        AddToKeysHold(MonthTotals(rs[..n]), r.month.value, r.value.value, IsMonthKey);
      }
    }
  }

  /** The month totals add up to the sum over all rows that have a month key. */
  lemma {:induction false} MonthTotalsTotal(rs: seq<Reading>)
    ensures Total(MonthTotals(rs)) == KeyedSum(rs)
  {
    if |rs| > 0 {
      var n := |rs| - 1;
      MonthTotalsTotal(rs[..n]);
      MonthTotalsDistinct(rs[..n]);
      var r := rs[n];
      if r.month.Some? && r.value.Finite? {
        TotalAddTo(MonthTotals(rs[..n]), r.month.value, r.value.value);
      }
    }
  }

  // ---- Month labels ----

  const MONTH_NAMES: seq<string> := ["Jan", "Feb", "Mar", "Apr", "May", "Jun", "Jul", "Aug", "Sep", "Oct", "Nov", "Dec"]

  /** `parseInt(mm, 10)` for the `MM` part of a month key. */
  function MonthNumber(k: string): (n: nat)
    requires IsMonthKey(k)
    ensures n == (k[5] as int - '0' as int) * 10 + (k[6] as int - '0' as int)
  {
    assert IsDigit(k[5]) && IsDigit(k[6]);
    assert WholeValue(k, 5, 6) == DigitValue(k[5]);
    WholeValue(k, 5, 7)
  }

  /**
   * `${monthNames[parseInt(mm, 10) - 1]} ${yy}`: the short month name and the
   * year. A month number outside 1..12 reads past the names, and the template
   * prints `undefined`.
   */
  function MonthLabel(k: string): (text: string)
    requires IsMonthKey(k)
    ensures 1 <= MonthNumber(k) <= 12 ==> text == MONTH_NAMES[MonthNumber(k) - 1] + " " + k[..4]
    ensures !(1 <= MonthNumber(k) <= 12) ==> text == "undefined " + k[..4]
  {
    var idx := MonthNumber(k) - 1;
    (if 0 <= idx < |MONTH_NAMES| then MONTH_NAMES[idx] else "undefined") + " " + k[..4]
  }

  lemma {:induction false} MonthLabelMarch()
    ensures MonthLabel("2024-03") == "Mar 2024"
  {
    var k := "2024-03";
    assert k[5..7] == "03" && "03"[..1] == "0";
    assert MonthNumber(k) == 3;
    assert k[..4] == "2024";
  }

  /** A date written month first, `12/25/2024`, yields month 25, which has no name. */
  lemma {:induction false} MonthLabelOutOfRange()
    ensures MonthLabel("2024-25") == "undefined 2024"
  {
    var k := "2024-25";
    assert k[5..7] == "25" && "25"[..1] == "2";
    assert MonthNumber(k) == 25;
    assert k[..4] == "2024";
  }

  function MonthLabels(keys: seq<string>): (labels: seq<string>)
    requires forall i :: 0 <= i < |keys| ==> IsMonthKey(keys[i])
    ensures |labels| == |keys|
    ensures forall i :: 0 <= i < |keys| ==> labels[i] == MonthLabel(keys[i])
  {
    seq(|keys|, i requires 0 <= i < |keys| => MonthLabel(keys[i]))
  }

  // ---- The line chart of one appliance ----

  datatype MonthChart =
    | NoApplianceData
    | NoMonthlyData
    | MonthSeries(keys: seq<string>, labels: seq<string>, values: seq<real>)

  /** What the line chart shows for the readings `rs`. */
  ghost predicate ShowsMonths(chart: MonthChart, rs: seq<Reading>) {
    && (chart.NoMonthlyData? <==> forall m :: !InMonth(rs, m))
    && !chart.NoApplianceData?
    && (chart.MonthSeries? ==>
      && Sorted(chart.keys) && Distinct(chart.keys)
      && (forall m :: m in chart.keys <==> InMonth(rs, m))
      && |chart.values| == |chart.keys| && |chart.labels| == |chart.keys|
      && (forall i :: 0 <= i < |chart.keys| ==> IsMonthKey(chart.keys[i]))
      && (forall i :: 0 <= i < |chart.keys| ==> chart.labels[i] == MonthLabel(chart.keys[i]))
      && (forall i :: 0 <= i < |chart.keys| ==> chart.values[i] == MonthSum(rs, chart.keys[i])))
  }

  /** One row of the month loop. */
  method MonthRow(monthMap: Bucket<string, real>, row: Row, dateIdx: int, col: int)
    returns (monthMap': Bucket<string, real>)
    ensures monthMap' == MonthStep(monthMap, ReadingOf(row, dateIdx, col))
  {
    monthMap' := monthMap;
    var key := ExtractMonthKey(Cell(row, dateIdx));
    if key.Some? {
      var val := CellValue(Cell(row, col));
      if val.Finite? {
        monthMap' := AddTo(monthMap, key.value, val.value);
      }
    }
  }

  /** `keys`, `labels` and `values` of a finished `monthMap`. */
  method MonthChartOf(monthMap: Bucket<string, real>, ghost rs: seq<Reading>) returns (chart: MonthChart)
    requires KeysWellFormed(rs) && monthMap == MonthTotals(rs)
    ensures ShowsMonths(chart, rs)
  {
    MonthTotalsKeys(rs);
    var keys := SortStrings(Keys(monthMap));
    SortStringsMembers(Keys(monthMap));
    SortStringsDistinct(Keys(monthMap));
    forall m ensures m in keys <==> InMonth(rs, m) {
      MonthTotalsGet(rs, m);
      GetNone(monthMap, m);
    }
    if |keys| == 0 {
      assert forall m :: !InMonth(rs, m) by {
        forall m ensures !InMonth(rs, m) {
          assert m !in keys;
        }
      }
      return NoMonthlyData;
    }
    assert Distinct(keys);
    assert forall i :: 0 <= i < |keys| ==> IsMonthKey(keys[i]) by {
      forall i | 0 <= i < |keys| ensures IsMonthKey(keys[i]) {
        assert keys[i] in Keys(monthMap);
      }
    }
    var values := seq(|keys|, i requires 0 <= i < |keys| => Get(monthMap, keys[i]).GetOr(0.0));
    forall i | 0 <= i < |keys| ensures values[i] == MonthSum(rs, keys[i]) {
      MonthTotalsGet(rs, keys[i]);
    }
    assert InMonth(rs, keys[0]);
    chart := MonthSeries(keys, MonthLabels(keys), values);
  }

  /**
   * `openMonthModal(appliance)`: the months whose rows have a parsable cell
   * of the appliance, in ascending key order, each with its label and the
   * sum of those cells; an appliance without a column has none.
   */
  method OpenMonthModal(rows: Grid, dateIdx: int, chosen: ApplianceTotal) returns (chart: MonthChart)
    ensures ShowsMonths(chart, Readings(DataRows(rows), dateIdx, chosen.index))
  {
    var data := DataRows(rows);
    ghost var rs := Readings(data, dateIdx, chosen.index);
    ReadingsWellFormed(data, dateIdx, chosen.index);
    var monthMap: Bucket<string, real> := [];
    var r := 0;
    while r < |data|
      invariant 0 <= r <= |data|
      invariant monthMap == MonthTotals(rs[..r])
    {
      monthMap := MonthRow(monthMap, data[r], dateIdx, chosen.index);
      assert rs[..r + 1][..r] == rs[..r];
      r := r + 1;
    }
    assert rs[..r] == rs;
    chart := MonthChartOf(monthMap, rs);
  }

  /** A click on bar `idx`: an appliance without a column has no data to show. */
  method ClickAppliance(rows: Grid, dateIdx: int, totals: seq<ApplianceTotal>, idx: int) returns (chart: MonthChart)
    ensures chart.NoApplianceData? <==> !(0 <= idx < |totals|) || totals[idx].index == -1
    ensures !chart.NoApplianceData? ==> ShowsMonths(chart, Readings(DataRows(rows), dateIdx, totals[idx].index))
  {
    if !(0 <= idx < |totals|) || totals[idx].index == -1 {
      return NoApplianceData;
    }
    chart := OpenMonthModal(rows, dateIdx, totals[idx]);
  }

  /** Without the appliance's column no cell parses, so the modal would find no month. */
  lemma {:induction false} NoColumnNoMonths(rows: Grid, dateIdx: int, m: string)
    ensures !InMonth(Readings(rows, dateIdx, -1), m)
  {
    var rs := Readings(rows, dateIdx, -1);
    forall i | 0 <= i < |rs| ensures !Counts(rs[i], m) {
      assert rs[i].value == CellValue(Cell(rows[i], -1));
    }
  }

  // ---- The stacked chart of all appliances ----

  /** A row's month key and its parsed cell for each appliance, in chart order. */
  datatype Stamp = Stamp(month: Option<string>, values: seq<Num>)

  function StampOf(row: Row, dateIdx: int, infos: seq<ApplianceInfo>): (st: Stamp)
    ensures st.month == ExtractMonthKey(Cell(row, dateIdx))
    ensures |st.values| == |infos|
    ensures st.values == RowValues(row, infos)
  {
    Stamp(ExtractMonthKey(Cell(row, dateIdx)), RowValues(row, infos))
  }

  /** The appliance readings of one row, in column order. */
  function RowValues(row: Row, infos: seq<ApplianceInfo>): (vals: seq<Num>)
    ensures |vals| == |infos|
    ensures forall k :: 0 <= k < |infos| ==> vals[k] == CellValue(Cell(row, infos[k].index))
  {
    seq(|infos|, k requires 0 <= k < |infos| => CellValue(Cell(row, infos[k].index)))
  }

  function Stamps(rows: Grid, dateIdx: int, infos: seq<ApplianceInfo>): (sts: seq<Stamp>)
    ensures |sts| == |rows|
    ensures forall i :: 0 <= i < |rows| ==> sts[i] == StampOf(rows[i], dateIdx, infos)
  {
    seq(|rows|, i requires 0 <= i < |rows| => StampOf(rows[i], dateIdx, infos))
  }

  /** Every stamp carries one value per appliance. */
  predicate Uniform(sts: seq<Stamp>, width: nat) {
    forall i :: 0 <= i < |sts| ==> |sts[i].values| == width
  }

  /** The readings of the `k`-th appliance. */
  function Project(sts: seq<Stamp>, k: nat): (rs: seq<Reading>)
    requires forall i :: 0 <= i < |sts| ==> k < |sts[i].values|
    ensures |rs| == |sts|
    ensures forall i :: 0 <= i < |sts| ==> rs[i] == Reading(sts[i].month, sts[i].values[k])
  {
    seq(|sts|, i requires 0 <= i < |sts| => Reading(sts[i].month, sts[i].values[k]))
  }

  /** The stamps of the rows carry, appliance by appliance, the readings of its column. */
  lemma {:induction false} ProjectStamps(rows: Grid, dateIdx: int, infos: seq<ApplianceInfo>, k: nat)
    requires k < |infos|
    ensures Project(Stamps(rows, dateIdx, infos), k) == Readings(rows, dateIdx, infos[k].index)
  {
    var sts := Stamps(rows, dateIdx, infos);
    var rs := Readings(rows, dateIdx, infos[k].index);
    forall i | 0 <= i < |rows| ensures Project(sts, k)[i] == rs[i] {
      assert sts[i] == StampOf(rows[i], dateIdx, infos);
    }
  }

  /** Some row falls in month `m`, whether or not its cells parse. */
  predicate Dated(sts: seq<Stamp>, m: string) {
    exists i :: 0 <= i < |sts| && sts[i].month == Some(m)
  }

  lemma {:induction false} DatedSnoc(sts: seq<Stamp>, st: Stamp, m: string)
    ensures Dated(sts + [st], m) <==> Dated(sts, m) || st.month == Some(m)
  {
    var all := sts + [st];
    if Dated(all, m) && st.month != Some(m) {
      var i :| 0 <= i < |all| && all[i].month == Some(m);
      assert i < |sts| && all[i] == sts[i];
    }
    if Dated(sts, m) {
      var i :| 0 <= i < |sts| && sts[i].month == Some(m);
      assert all[i] == sts[i];
    }
    if st.month == Some(m) {
      assert all[|sts|] == st;
    }
  }

  /** A month no row falls in has no counting reading for any appliance. */
  lemma {:induction false} UndatedNotInMonth(sts: seq<Stamp>, k: nat, m: string)
    requires forall i :: 0 <= i < |sts| ==> k < |sts[i].values|
    requires !Dated(sts, m)
    ensures !InMonth(Project(sts, k), m)
  {
    var rs := Project(sts, k);
    forall i | 0 <= i < |rs| ensures !Counts(rs[i], m) {
      assert rs[i].month == sts[i].month;
    }
  }

  /** What the inner loop adds for one row: each appliance's value, 0 for a cell that does not parse. */
  function RowEntries(labels: seq<string>, vals: seq<Num>): (es: seq<Entry<string, real>>)
    requires |labels| == |vals|
    ensures |es| == |labels| && Keys(es) == labels
    ensures forall k :: 0 <= k < |es| ==> es[k] == Entry(labels[k], Contribution(vals[k]))
  {
    seq(|labels|, k requires 0 <= k < |labels| => Entry(labels[k], Contribution(vals[k])))
  }

  /** The inner loop for one row: `inner[lab] = (inner[lab] || 0) + val` for each entry in turn. */
  function RowInto(inner: Bucket<string, real>, es: seq<Entry<string, real>>): Bucket<string, real> {
    if |es| == 0 then inner
    else AddTo(RowInto(inner, es[..|es| - 1]), es[|es| - 1].key, es[|es| - 1].val)
  }

  lemma {:induction false} RowIntoSnoc(inner: Bucket<string, real>, es: seq<Entry<string, real>>, k: nat)
    requires k < |es|
    ensures RowInto(inner, es[..k + 1]) == AddTo(RowInto(inner, es[..k]), es[k].key, es[k].val)
  {
    assert es[..k + 1][..k] == es[..k];
  }

  /** A month seen for the first time: its object lists the appliances in order, with this row's values. */
  lemma {:induction false} RowIntoFresh(es: seq<Entry<string, real>>)
    requires Distinct(Keys(es))
    ensures RowInto([], es) == es
  {
    if |es| > 0 {
      var n := |es| - 1;
      assert Distinct(Keys(es[..n])) by {
        forall p, q | 0 <= p < q < n ensures Keys(es[..n])[p] != Keys(es[..n])[q] {
          assert Keys(es)[p] != Keys(es)[q];
        }
      }
      RowIntoFresh(es[..n]);
      assert es[n].key !in Keys(es[..n]) by {
        forall p | 0 <= p < n ensures Keys(es[..n])[p] != es[n].key {
          assert Keys(es)[p] != Keys(es)[n];
        }
      }
      AddToNew(es[..n], es[n].key, es[n].val);
      assert es[..n] + [es[n]] == es;
    }
  }

  /** The first `n` entries of `inner` with the row's values added. */
  function AddedUpTo(inner: Bucket<string, real>, es: seq<Entry<string, real>>, n: nat): (b: Bucket<string, real>)
    requires |inner| == |es| && n <= |es|
    ensures |b| == |inner| && Keys(b) == Keys(inner)
  {
    seq(|inner|, i requires 0 <= i < |inner| =>
      if i < n then Entry(inner[i].key, inner[i].val + es[i].val) else inner[i])
  }

  /** A month seen before: each appliance's value is added where it stands. */
  lemma {:induction false} RowIntoAligned(inner: Bucket<string, real>, es: seq<Entry<string, real>>, n: nat)
    requires |inner| == |es| && Keys(inner) == Keys(es) && Distinct(Keys(es)) && n <= |es|
    ensures RowInto(inner, es[..n]) == AddedUpTo(inner, es, n)
  {
    if n == 0 {
      assert AddedUpTo(inner, es, 0) == inner;
    } else {
      var m := n - 1;
      assert es[..n][..m] == es[..m];
      RowIntoAligned(inner, es, m);
      var before := AddedUpTo(inner, es, m);
      assert before[m].key == es[m].key by {
        assert Keys(inner)[m] == Keys(es)[m];
      }
      AddToAt(before, m, es[m].val);
      assert before[m := Entry(before[m].key, before[m].val + es[m].val)] == AddedUpTo(inner, es, n);
    }
  }

  /** `monthApplianceMap`: month key to `{ label: total }`. */
  type StackedMap = Bucket<string, Bucket<string, real>>

  /**
   * One pass of the outer loop: a row without a month key changes nothing;
   * otherwise its month gets an object on first sight, and each appliance's
   * value is added into it.
   */
  function StackedStep(acc: StackedMap, st: Stamp, labels: seq<string>): StackedMap
    requires |st.values| == |labels|
  {
    if st.month.None? then acc
    else Put(acc, st.month.value, RowInto(Get(acc, st.month.value).GetOr([]), RowEntries(labels, st.values)))
  }

  /** `monthApplianceMap` after the loop has read `sts`. */
  function Stacked(sts: seq<Stamp>, labels: seq<string>): StackedMap
    requires Uniform(sts, |labels|)
  {
    if |sts| == 0 then [] else StackedStep(Stacked(sts[..|sts| - 1], labels), sts[|sts| - 1], labels)
  }
  lemma {:induction false} StackedSnoc(sts: seq<Stamp>, labels: seq<string>, r: nat)
    requires Uniform(sts, |labels|) && r < |sts|
    ensures Uniform(sts[..r], |labels|) && Uniform(sts[..r + 1], |labels|)
    ensures Stacked(sts[..r + 1], labels) == StackedStep(Stacked(sts[..r], labels), sts[r], labels)
  {
    assert sts[..r + 1][..r] == sts[..r];
  }


  /** Month `m`'s object: every appliance once, in chart order, with its month sum. */
  ghost predicate MonthHolds(inner: Bucket<string, real>, sts: seq<Stamp>, labels: seq<string>, m: string)
    requires Uniform(sts, |labels|)
  {
    && |inner| == |labels|
    && forall k :: 0 <= k < |labels| ==> inner[k] == Entry(labels[k], MonthSum(Project(sts, k), m))
  }

  /**
   * Every month some row falls in holds each appliance exactly once, in
   * chart order, with the sum of that appliance's parsable cells of the month;
   * no other month is present.
   */
  lemma {:induction false} StackedGet(sts: seq<Stamp>, labels: seq<string>, m: string)
    requires Uniform(sts, |labels|) && Distinct(labels)
    ensures Get(Stacked(sts, labels), m).Some? <==> Dated(sts, m)
    ensures Dated(sts, m) ==> MonthHolds(Get(Stacked(sts, labels), m).value, sts, labels, m)
  {
    if |sts| > 0 {
      var n := |sts| - 1;
      var prev := sts[..n];
      var st := sts[n];
      assert sts == prev + [st];
      StackedGet(prev, labels, m);
      DatedSnoc(prev, st, m);
      var acc := Stacked(prev, labels);
      if st.month.Some? {
        var inner := RowInto(Get(acc, st.month.value).GetOr([]), RowEntries(labels, st.values));
        PutGet(acc, st.month.value, inner, m);
        if st.month == Some(m) {
          StackedStepHolds(prev, st, labels, m);
        } else if Dated(prev, m) {
          SnocHolds(prev, st, labels, m, Get(acc, m).value);
        }
      } else if Dated(prev, m) {
        SnocHolds(prev, st, labels, m, Get(acc, m).value);
      }
    }
  }

  /** A row of another month leaves month `m`'s sums as they were. */
  lemma {:induction false} SnocHolds(prev: seq<Stamp>, st: Stamp, labels: seq<string>, m: string, inner: Bucket<string, real>)
    requires Uniform(prev, |labels|) && |st.values| == |labels| && st.month != Some(m)
    requires MonthHolds(inner, prev, labels, m)
    ensures Uniform(prev + [st], |labels|)
    ensures MonthHolds(inner, prev + [st], labels, m)
  {
    var sts := prev + [st];
    forall k | 0 <= k < |labels| ensures MonthSum(Project(sts, k), m) == MonthSum(Project(prev, k), m) {
      assert Project(sts, k) == Project(prev, k) + [Reading(st.month, st.values[k])];
      assert Project(sts, k)[..|prev|] == Project(prev, k);
    }
  }

  /** Appending a row of month `m` adds its parsed cell, 0 when it does not parse, to the month sum. */
  lemma {:induction false} ProjectSnoc(prev: seq<Stamp>, st: Stamp, k: nat, m: string)
    requires forall i :: 0 <= i < |prev| ==> k < |prev[i].values|
    requires k < |st.values| && st.month == Some(m)
    ensures forall i :: 0 <= i < |prev + [st]| ==> k < |(prev + [st])[i].values|
    ensures MonthSum(Project(prev + [st], k), m) == MonthSum(Project(prev, k), m) + Contribution(st.values[k])
  {
    var sts := prev + [st];
    assert Project(sts, k)[..|prev|] == Project(prev, k);
  }

  /** The month of the new row: its object now also counts the row. */
  lemma {:induction false} StackedStepHolds(prev: seq<Stamp>, st: Stamp, labels: seq<string>, m: string)
    requires Uniform(prev, |labels|) && |st.values| == |labels| && Distinct(labels)
    requires st.month == Some(m)
    requires Get(Stacked(prev, labels), m).Some? <==> Dated(prev, m)
    requires Dated(prev, m) ==> MonthHolds(Get(Stacked(prev, labels), m).value, prev, labels, m)
    ensures Uniform(prev + [st], |labels|)
    ensures var acc := Stacked(prev, labels);
      MonthHolds(RowInto(Get(acc, m).GetOr([]), RowEntries(labels, st.values)), prev + [st], labels, m)
  {
    var before := Get(Stacked(prev, labels), m).GetOr([]);
    if Dated(prev, m) {
      DatedHolds(prev, st, labels, m, before);
    } else {
      UndatedHolds(prev, st, labels, m);
    }
  }

  /** First row of month `m`: its object is the row's entries, and the earlier sums were 0. */
  lemma {:induction false} UndatedHolds(prev: seq<Stamp>, st: Stamp, labels: seq<string>, m: string)
    requires Uniform(prev, |labels|) && |st.values| == |labels| && Distinct(labels)
    requires st.month == Some(m) && !Dated(prev, m)
    ensures Uniform(prev + [st], |labels|)
    ensures MonthHolds(RowInto([], RowEntries(labels, st.values)), prev + [st], labels, m)
  {
    var es := RowEntries(labels, st.values);
    RowIntoFresh(es);
    forall k | 0 <= k < |labels| ensures es[k] == Entry(labels[k], MonthSum(Project(prev + [st], k), m)) {
      ProjectSnoc(prev, st, k, m);
      UndatedNotInMonth(prev, k, m);
      MonthSumNone(Project(prev, k), m);
    }
  }

  /** A later row of month `m`: each appliance's value is added to its sum where it stands. */
  lemma {:induction false} DatedHolds(prev: seq<Stamp>, st: Stamp, labels: seq<string>, m: string, before: Bucket<string, real>)
    requires Uniform(prev, |labels|) && |st.values| == |labels| && Distinct(labels)
    requires st.month == Some(m) && MonthHolds(before, prev, labels, m)
    ensures Uniform(prev + [st], |labels|)
    ensures MonthHolds(RowInto(before, RowEntries(labels, st.values)), prev + [st], labels, m)
  {
    var es := RowEntries(labels, st.values);
    assert Keys(before) == labels by {
      forall k | 0 <= k < |labels| ensures Keys(before)[k] == labels[k] {
        assert before[k].key == labels[k];
      }
    }
    RowIntoAligned(before, es, |es|);
    assert es[..|es|] == es;
    var inner := RowInto(before, es);
    forall k | 0 <= k < |labels| ensures inner[k] == Entry(labels[k], MonthSum(Project(prev + [st], k), m)) {
      ProjectSnoc(prev, st, k, m);
    }
  }

  /** The month keys of `monthApplianceMap` are distinct. */
  lemma {:induction false} StackedKeys(sts: seq<Stamp>, labels: seq<string>)
    requires Uniform(sts, |labels|)
    ensures Distinct(Keys(Stacked(sts, labels)))
  {
    if |sts| > 0 {
      var n := |sts| - 1;
      StackedKeys(sts[..n], labels);
      var acc := Stacked(sts[..n], labels);
      var st := sts[n];
      if st.month.Some? {
        PutDistinct(acc, st.month.value, RowInto(Get(acc, st.month.value).GetOr([]), RowEntries(labels, st.values)));
      }
    }
  }

  /** The month keys the rows yield have the `YYYY-MM` shape. */
  lemma {:induction false} StampsDated(rows: Grid, dateIdx: int, infos: seq<ApplianceInfo>, m: string)
    requires Dated(Stamps(rows, dateIdx, infos), m)
    ensures IsMonthKey(m)
  {
    var sts := Stamps(rows, dateIdx, infos);
    var i :| 0 <= i < |sts| && sts[i].month == Some(m);
    assert sts[i].month == ExtractMonthKey(Cell(rows[i], dateIdx));
  }

  /**
   * `monthApplianceMap[m] && (monthApplianceMap[m][lab] || 0)`, then `|| 0`:
   * a missing month or appliance shows 0.
   */
  function StackedValue(acc: StackedMap, m: string, lab: string): real {
    match Get(acc, m)
    case None => 0.0
    case Some(inner) => Get(inner, lab).GetOr(0.0)
  }

  /** One bar series: an appliance's label and its value for each month. */
  datatype Dataset = Dataset(name: string, data: seq<real>)

  datatype StackedChart =
    | NoMonthWiseData
    | StackedBars(months: seq<string>, labels: seq<string>, datasets: seq<Dataset>)

  /** What the stacked chart shows for the stamps `sts` of the appliances `names`. */
  ghost predicate ShowsStacked(chart: StackedChart, sts: seq<Stamp>, names: seq<string>)
    requires Uniform(sts, |names|)
  {
    && (chart.NoMonthWiseData? <==> forall m :: !Dated(sts, m))
    && (chart.StackedBars? ==>
      && Sorted(chart.months) && Distinct(chart.months)
      && (forall m :: m in chart.months <==> Dated(sts, m))
      && (forall j :: 0 <= j < |chart.months| ==> IsMonthKey(chart.months[j]))
      && |chart.labels| == |chart.months|
      && (forall j :: 0 <= j < |chart.months| ==> chart.labels[j] == MonthLabel(chart.months[j]))
      && |chart.datasets| == |names|
      && (forall k :: 0 <= k < |names| ==>
        chart.datasets[k].name == names[k] && |chart.datasets[k].data| == |chart.months|)
      && (forall k, j :: 0 <= k < |names| && 0 <= j < |chart.months| ==>
        chart.datasets[k].data[j] == MonthSum(Project(sts, k), chart.months[j])))
  }

  /** One row of the outer loop, with the inner loop over the appliances. */
  method StackedRow(acc: StackedMap, row: Row, dateIdx: int, infos: seq<ApplianceInfo>) returns (acc': StackedMap)
    ensures acc' == StackedStep(acc, StampOf(row, dateIdx, infos), Labels(infos))
  {
    acc' := acc;
    var key := ExtractMonthKey(Cell(row, dateIdx));
    if key.None? {
      return;
    }
    // The month's object is shared by reference in the source; here it is
    // read out, filled, and written back.
    var inner := Get(acc, key.value).GetOr([]);
    inner := FillInner(inner, row, infos);
    acc' := Put(acc, key.value, inner);
  }

  /** The inner loop of one row: adds each appliance's reading, or 0, to the month's object. */
  method FillInner(inner0: Bucket<string, real>, row: Row, infos: seq<ApplianceInfo>) returns (inner: Bucket<string, real>)
    ensures inner == RowInto(inner0, RowEntries(Labels(infos), RowValues(row, infos)))
  {
    ghost var es := RowEntries(Labels(infos), RowValues(row, infos));
    inner := inner0;
    var k := 0;
    while k < |infos|
      invariant 0 <= k <= |infos|
      invariant inner == RowInto(inner0, es[..k])
    {
      var info := infos[k];
      var valRaw := if info.index != -1 then Cell(row, info.index) else None;
      var val := CellValue(valRaw);
      assert es[k] == Entry(info.name, Contribution(val));
      RowIntoSnoc(inner0, es, k);
      if val.Finite? {
        inner := AddTo(inner, info.name, val.value);
      } else {
        inner := AddTo(inner, info.name, 0.0);
      }
      k := k + 1;
    }
    assert es[..k] == es;
  }

  /** The outer loop over the data rows, filling `monthApplianceMap`. */
  method FillStacked(data: Grid, dateIdx: int, infos: seq<ApplianceInfo>) returns (acc: StackedMap)
    ensures acc == Stacked(Stamps(data, dateIdx, infos), Labels(infos))
  {
    ghost var sts := Stamps(data, dateIdx, infos);
    acc := [];
    var r := 0;
    while r < |data|
      invariant 0 <= r <= |data|
      invariant acc == Stacked(sts[..r], Labels(infos))
    {
      acc := StackedRow(acc, data[r], dateIdx, infos);
      StackedSnoc(sts, Labels(infos), r);
      r := r + 1;
    }
    assert sts[..r] == sts;
  }

  /** The sorted keys of `monthApplianceMap` are distinct month keys, one per month some stamp falls in. */
  lemma {:induction false} StackedMonths(acc: StackedMap, labels: seq<string>, sts: seq<Stamp>)
    requires Uniform(sts, |labels|) && Distinct(labels) && acc == Stacked(sts, labels)
    requires forall m :: Dated(sts, m) ==> IsMonthKey(m)
    ensures Sorted(SortStrings(Keys(acc))) && Distinct(SortStrings(Keys(acc)))
    ensures forall m :: m in SortStrings(Keys(acc)) <==> Dated(sts, m)
    ensures forall j :: 0 <= j < |SortStrings(Keys(acc))| ==> IsMonthKey(SortStrings(Keys(acc))[j])
  {
    var months := SortStrings(Keys(acc));
    StackedKeys(sts, labels);
    SortStringsMembers(Keys(acc));
    SortStringsDistinct(Keys(acc));
    forall m ensures m in months <==> Dated(sts, m) {
      StackedGet(sts, labels, m);
      GetNone(acc, m);
    }
    forall j | 0 <= j < |months| ensures IsMonthKey(months[j]) {
      assert Dated(sts, months[j]);
    }
  }

  /** `months`, `labels` and `datasets` of a finished `monthApplianceMap`. */
  method StackedChartOf(acc: StackedMap, labels: seq<string>, ghost sts: seq<Stamp>) returns (chart: StackedChart)
    requires Uniform(sts, |labels|) && Distinct(labels) && acc == Stacked(sts, labels)
    requires forall m :: Dated(sts, m) ==> IsMonthKey(m)
    ensures ShowsStacked(chart, sts, labels)
  {
    var months := SortStrings(Keys(acc));
    StackedMonths(acc, labels, sts);
    if |months| == 0 {
      assert forall m :: !Dated(sts, m) by {
        forall m ensures !Dated(sts, m) {
          assert m !in months;
        }
      }
      return NoMonthWiseData;
    }
    assert Dated(sts, months[0]);
    var datasets := seq(|labels|, k requires 0 <= k < |labels| =>
      Dataset(labels[k], seq(|months|, j requires 0 <= j < |months| => StackedValue(acc, months[j], labels[k]))));
    forall k, j | 0 <= k < |labels| && 0 <= j < |months|
      ensures datasets[k].data[j] == MonthSum(Project(sts, k), months[j])
    {
      StackedCell(sts, labels, months[j], k);
    }
    chart := StackedBars(months, MonthLabels(months), datasets);
  }

  /**
   * The "show month-wise" button: every month some data row falls in, in
   * ascending key order, with its label, and for each appliance in chart
   * order the sum of its parsable cells of that month (0 when none parse).
   */
  method ShowMonthWise(rows: Grid, dateIdx: int, header: Row) returns (chart: StackedChart)
    ensures ShowsStacked(chart, Stamps(DataRows(rows), dateIdx, Infos(header)), Labels(Infos(header)))
  {
    var infos := Infos(header);
    var data := DataRows(rows);
    var acc := FillStacked(data, dateIdx, infos);
    ghost var sts := Stamps(data, dateIdx, infos);
    InfosLabelsDistinct(header);
    forall m | Dated(sts, m) ensures IsMonthKey(m) {
      StampsDated(data, dateIdx, infos, m);
    }
    chart := StackedChartOf(acc, Labels(infos), sts);
  }

  /** Each cell of the stacked chart is the appliance's month sum. */
  lemma {:induction false} StackedCell(sts: seq<Stamp>, labels: seq<string>, m: string, k: nat)
    requires Uniform(sts, |labels|) && Distinct(labels) && k < |labels| && Dated(sts, m)
    ensures StackedValue(Stacked(sts, labels), m, labels[k]) == MonthSum(Project(sts, k), m)
  {
    StackedGet(sts, labels, m);
    var inner := Get(Stacked(sts, labels), m).value;
    assert Distinct(Keys(inner)) by {
      forall p, q | 0 <= p < q < |inner| ensures Keys(inner)[p] != Keys(inner)[q] {
        assert inner[p].key == labels[p] && inner[q].key == labels[q];
      }
    }
    GetAt(inner, k);
  }

  /**
   * The two month-wise charts agree: for every appliance and every month, the
   * stacked bar is what the appliance's line chart shows, 0 where it shows no point.
   */
  lemma {:induction false} StackedMatchesLine(rows: Grid, dateIdx: int, infos: seq<ApplianceInfo>, k: nat, m: string)
    requires k < |infos|
    ensures MonthSum(Project(Stamps(rows, dateIdx, infos), k), m)
      == Get(MonthTotals(Readings(rows, dateIdx, infos[k].index)), m).GetOr(0.0)
  {
    var rs := Readings(rows, dateIdx, infos[k].index);
    ProjectStamps(rows, dateIdx, infos, k);
    MonthTotalsGet(rs, m);
    if !InMonth(rs, m) {
      MonthSumNone(rs, m);
    }
  }
}
