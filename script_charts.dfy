/**
 * The aggregations of the plain-script pages
 * (energyagentfrontend/src/pages/script.js): the overview cards, the
 * per-appliance totals, the month-wise series of one appliance and the
 * stacked month-by-appliance table. A cell that does not parse is skipped.
 */
module ScriptCharts {
  import opened Common
  import opened JsText
  import opened JsNumber
  import opened Buckets
  import opened JsSort
  import opened ScriptParse

  // ---- Reading one cell ----

  /** `parseFloat(String(v || "").replace(/,/g, "").trim())`: thousands separators are dropped first. */
  function CellValue(c: Option<string>): (n: Num)
    ensures !Truthy(c) ==> n == NaN
  {
    var raw := if Truthy(c) then c.value else "";
    assert raw == "" ==> RemoveChar(raw, ',') == "" && Trim("") == "";
    ParseFloat(Trim(RemoveChar(raw, ',')))
  }

  /** A whole number written out in digits reads back as itself. */
  lemma {:induction false} CellValueNat(n: nat)
    ensures CellValue(Some(NatToString(n))) == Finite(n as real)
  {
    var s := NatToString(n);
    DigitsNoComma(s);
    DigitsTrimmed(s);
    CellValueOf(s);
    ParseFloatNatToString(n);
  }

  /** A non-empty cell is read through the separator removal, the trim and `parseFloat`. */
  lemma {:induction false} CellValueOf(s: string)
    requires s != ""
    ensures CellValue(Some(s)) == ParseFloat(Trim(RemoveChar(s, ',')))
  {
  }

  lemma {:induction false} DigitsNoComma(s: string)
    requires forall i :: 0 <= i < |s| ==> IsDigit(s[i])
    ensures RemoveChar(s, ',') == s
  {
    assert ',' !in s;
  }

  lemma {:induction false} DigitsTrimmed(s: string)
    requires |s| >= 1 && forall i :: 0 <= i < |s| ==> IsDigit(s[i])
    ensures Trim(s) == s
  {
    assert Trimmed(s) by { assert IsDigit(s[0]) && IsDigit(s[|s| - 1]); }
  }

  /** What `if (!isNaN(val)) sum += val` adds: the value when it parses, nothing otherwise. */
  function Contribution(n: Num): real {
    if n.Finite? then n.value else 0.0
  }

  /** The parsed cells of column `col`, row by row. */
  function Column(rows: Grid, col: int): (vals: seq<Num>)
    ensures |vals| == |rows|
    ensures forall i :: 0 <= i < |rows| ==> vals[i] == CellValue(Cell(rows[i], col))
  {
    seq(|rows|, i requires 0 <= i < |rows| => CellValue(Cell(rows[i], col)))
  }

  /** The skip-policy sum: the values that parse, added up. */
  function SumParsed(vals: seq<Num>): real {
    if |vals| == 0 then 0.0 else SumParsed(vals[..|vals| - 1]) + Contribution(vals[|vals| - 1])
  }

  /** The sum of column `col` over `rows`, skipping cells that do not parse. */
  function ColumnSum(rows: Grid, col: int): real {
    SumParsed(Column(rows, col))
  }

  /** A skip-policy sum splits over consecutive blocks. */
  lemma {:induction false} SumParsedAppend(a: seq<Num>, b: seq<Num>)
    ensures SumParsed(a + b) == SumParsed(a) + SumParsed(b)
  {
    if |b| == 0 {
      assert a + b == a;
    } else {
      var n := |b| - 1;
      SumParsedAppend(a, b[..n]);
      assert (a + b)[..|a + b| - 1] == a + b[..n];
    }
  }

  /** Values that do not parse add nothing. */
  lemma {:induction false} SumParsedUnparsed(vals: seq<Num>)
    requires forall i :: 0 <= i < |vals| ==> vals[i].NaN?
    ensures SumParsed(vals) == 0.0
  {
    if |vals| > 0 {
      SumParsedUnparsed(vals[..|vals| - 1]);
    }
  }

  /** A column sum splits over consecutive blocks of rows. */
  lemma {:induction false} ColumnSumAppend(a: Grid, b: Grid, col: int)
    ensures ColumnSum(a + b, col) == ColumnSum(a, col) + ColumnSum(b, col)
  {
    ColumnAppend(a, b, col);
    SumParsedAppend(Column(a, col), Column(b, col));
  }

  lemma {:induction false} ColumnAppend(a: Grid, b: Grid, col: int)
    ensures Column(a + b, col) == Column(a, col) + Column(b, col)
  {
  }

  /** Appending one row adds what its cell contributes. */
  lemma {:induction false} ColumnSumSnoc(rows: Grid, row: Row, col: int)
    ensures ColumnSum(rows + [row], col) == ColumnSum(rows, col) + Contribution(CellValue(Cell(row, col)))
  {
    ColumnSnoc(rows, row, col);
    SumParsedSnoc(Column(rows, col), CellValue(Cell(row, col)));
  }

  lemma {:induction false} ColumnSnoc(rows: Grid, row: Row, col: int)
    ensures Column(rows + [row], col) == Column(rows, col) + [CellValue(Cell(row, col))]
  {
  }

  lemma {:induction false} SumParsedSnoc(vals: seq<Num>, v: Num)
    ensures SumParsed(vals + [v]) == SumParsed(vals) + Contribution(v)
  {
    assert (vals + [v])[..|vals|] == vals;
  }

  /** One more row of a loop over `rows`. */
  lemma {:induction false} ColumnSumStep(rows: Grid, i: nat, col: int)
    requires i < |rows|
    ensures ColumnSum(rows[..i + 1], col) == ColumnSum(rows[..i], col) + Contribution(CellValue(Cell(rows[i], col)))
  {
    assert rows[..i + 1] == rows[..i] + [rows[i]];
    ColumnSumSnoc(rows[..i], rows[i], col);
  }

  /** A column that is not there (index -1) sums to 0. */
  lemma {:induction false} ColumnSumAbsent(rows: Grid)
    ensures ColumnSum(rows, -1) == 0.0
  {
    SumParsedUnparsed(Column(rows, -1));
  }

  /** `for (r of rows) { ... if (!isNaN(val)) sum += val }` */
  method SumColumn(rows: Grid, col: int) returns (sum: real)
    ensures sum == ColumnSum(rows, col)
  {
    sum := 0.0;
    var i := 0;
    while i < |rows|
      invariant 0 <= i <= |rows|
      invariant sum == ColumnSum(rows[..i], col)
    {
      var val := CellValue(Cell(rows[i], col));
      if val.Finite? {
        sum := sum + val.value;
      }
      ColumnSumStep(rows, i, col);
      i := i + 1;
    }
    assert rows[..i] == rows;
  }

  // ---- Overview cards ----

  /** The date cell of `row` is truthy and reads `k` once trimmed. */
  predicate DatedAs(row: Row, col: int, k: string) {
    Truthy(Cell(row, col)) && Trim(row[col]) == k
  }

  /** The card's `dateSet`: every truthy date cell, trimmed. */
  function DateKeys(rows: Grid, col: int): set<string> {
    if |rows| == 0 then {}
    else
      var n := |rows| - 1;
      DateKeys(rows[..n], col) + (if Truthy(Cell(rows[n], col)) then {Trim(rows[n][col])} else {})
  }

  /** The date set holds exactly the trimmed truthy date cells. */
  lemma {:induction false} DateKeysMembers(rows: Grid, col: int)
    ensures forall k :: k in DateKeys(rows, col) <==> exists i :: DatedAt(rows, i, col, k)
  {
    forall k ensures k in DateKeys(rows, col) <==> exists i :: DatedAt(rows, i, col, k) {
      DateKeysHas(rows, col, k);
    }
  }

  /** Row `i` has a truthy date cell that reads `k` once trimmed. */
  ghost predicate DatedAt(rows: Grid, i: int, col: int, k: string) {
    0 <= i < |rows| && DatedAs(rows[i], col, k)
  }

  lemma {:induction false} DateKeysHas(rows: Grid, col: int, k: string)
    ensures k in DateKeys(rows, col) <==> exists i :: DatedAt(rows, i, col, k)
  {
    if |rows| > 0 {
      var n := |rows| - 1;
      var prev := rows[..n];
      DateKeysHas(prev, col, k);
      if DatedAs(rows[n], col, k) {
        assert DatedAt(rows, n, col, k);
      }
      if k in DateKeys(prev, col) {
        var i :| DatedAt(prev, i, col, k);
        assert prev[i] == rows[i];
        assert DatedAt(rows, i, col, k);
      }
      if exists i :: DatedAt(rows, i, col, k) {
        var i :| DatedAt(rows, i, col, k);
        if i < n {
          assert prev[i] == rows[i];
          assert DatedAt(prev, i, col, k);
        }
      }
    }
  }

  lemma {:induction false} DateKeysStep(rows: Grid, i: nat, col: int)
    requires i < |rows|
    ensures DateKeys(rows[..i + 1], col) ==
      DateKeys(rows[..i], col) + (if Truthy(Cell(rows[i], col)) then {Trim(rows[i][col])} else {})
  {
    assert rows[..i + 1][..i] == rows[..i];
  }

  function TrimAll(row: Row): (r: Row)
    ensures |r| == |row|
    ensures forall j :: 0 <= j < |r| ==> r[j] == Trim(row[j])
  {
    seq(|row|, j requires 0 <= j < |row| => Trim(row[j]))
  }

  /** The `forEach` callback of the card loop: one row's units and date. */
  method CardRow(total: real, dateSet: set<string>, r: Row, dateIndex: int, unitsIndex: int)
    returns (total': real, dateSet': set<string>)
    ensures total' == total + Contribution(CellValue(Cell(r, unitsIndex)))
    ensures dateSet' == dateSet + (if Truthy(Cell(r, dateIndex)) then {Trim(r[dateIndex])} else {})
  {
    total', dateSet' := total, dateSet;
    var date := Cell(r, dateIndex);
    var val := CellValue(Cell(r, unitsIndex));
    if val.Finite? {
      total' := total' + val.value;
    }
    if Truthy(date) {
      dateSet' := dateSet' + {Trim(date.value)};
    }
  }

  /** The card loop: the running total and the set of trimmed dates. */
  method CardTotals(dataRows: Grid, dateIndex: int, unitsIndex: int) returns (total: real, dateSet: set<string>)
    ensures total == ColumnSum(dataRows, unitsIndex)
    ensures dateSet == DateKeys(dataRows, dateIndex)
  {
    total := 0.0;
    dateSet := {};
    var i := 0;
    while i < |dataRows|
      invariant 0 <= i <= |dataRows|
      invariant total == ColumnSum(dataRows[..i], unitsIndex)
      invariant dateSet == DateKeys(dataRows[..i], dateIndex)
    {
      ColumnSumStep(dataRows, i, unitsIndex);
      DateKeysStep(dataRows, i, dateIndex);
      total, dateSet := CardRow(total, dateSet, dataRows[i], dateIndex, unitsIndex);
      i := i + 1;
    }
    assert dataRows[..i] == dataRows;
  }

  datatype Card =
    | NoDataset
    | MissingColumns
    | Summary(total: real, average: real, records: nat)

  /**
   * The overview cards: no dataset (or only a header) and a header without
   * `Date` or `Units` stop early; otherwise the total of the parsable units
   * cells, that total spread over the distinct dates, and the number of data
   * rows, skipped ones included.
   */
  method OverviewCard(stored: Option<Grid>) returns (card: Card)
    ensures card.NoDataset? <==> stored.None? || |stored.value| < 2
    ensures card.MissingColumns? <==>
      stored.Some? && |stored.value| >= 2 &&
      ("Date" !in TrimAll(stored.value[0]) || "Units" !in TrimAll(stored.value[0]))
    ensures card.Summary? ==>
      var rows := stored.value;
      var header := TrimAll(rows[0]);
      var dates := DateKeys(rows[1..], IndexOf(header, "Date"));
      && card.total == ColumnSum(rows[1..], IndexOf(header, "Units"))
      && card.average == (if |dates| > 0 then card.total / |dates| as real else 0.0)
      && card.records == |rows| - 1
  {
    if stored.None? || |stored.value| < 2 {
      return NoDataset;
    }
    var rows := stored.value;
    var header := TrimAll(rows[0]);
    var dateIndex := IndexOf(header, "Date");
    var unitsIndex := IndexOf(header, "Units");
    if dateIndex == -1 || unitsIndex == -1 {
      return MissingColumns;
    }
    var dataRows := rows[1..];
    var total, dateSet := CardTotals(dataRows, dateIndex, unitsIndex);
    var avg := if |dateSet| > 0 then total / |dateSet| as real else 0.0;
    card := Summary(total, avg, |dataRows|);
  }

  // ---- Per-appliance totals ----

  datatype Appliance = Appliance(name: string, key: string)

  /** The appliances of the distribution page, in chart order. */
  const APPLIANCES: seq<Appliance> := [
    Appliance("Fan", "Fan(Units)"),
    Appliance("Fridge", "Fridge(Units)"),
    Appliance("AC", "AC(Units)"),
    Appliance("Bulb", "Bulb(Units)"),
    Appliance("TV", "TV(Units)"),
    Appliance("Monitor", "Monitor(Units)"),
    Appliance("Motor", "Motor(Units)")
  ]

  /** An appliance with the header position of its column (-1 when absent). */
  datatype ApplianceInfo = ApplianceInfo(name: string, key: string, index: int)

  /** `APPLIANCES.map(a => ({ ...a, index: header.indexOf(a.key) }))` */
  function Infos(header: Row): (infos: seq<ApplianceInfo>)
    ensures |infos| == |APPLIANCES|
    ensures forall k :: 0 <= k < |infos| ==>
      infos[k] == ApplianceInfo(APPLIANCES[k].name, APPLIANCES[k].key, IndexOf(header, APPLIANCES[k].key))
  {
    seq(|APPLIANCES|, k requires 0 <= k < |APPLIANCES| =>
      ApplianceInfo(APPLIANCES[k].name, APPLIANCES[k].key, IndexOf(header, APPLIANCES[k].key)))
  }

  function Labels(infos: seq<ApplianceInfo>): (labels: seq<string>)
    ensures |labels| == |infos|
    ensures forall k :: 0 <= k < |infos| ==> labels[k] == infos[k].name
  {
    seq(|infos|, k requires 0 <= k < |infos| => infos[k].name)
  }

  /** The seven labels are pairwise different. */
  lemma {:induction false} InfosLabelsDistinct(header: Row)
    ensures Distinct(Labels(Infos(header)))
  {
    var labels := Labels(Infos(header));
    assert labels == ["Fan", "Fridge", "AC", "Bulb", "TV", "Monitor", "Motor"];
  }

  datatype ApplianceTotal = ApplianceTotal(name: string, total: real, index: int)

  /**
   * `totals`: one entry per appliance, in the fixed order; an appliance whose
   * column is missing gets 0, any other the sum of its parsable cells below
   * the header.
   */
  method ApplianceTotals(rows: Grid, header: Row) returns (totals: seq<ApplianceTotal>)
    ensures |totals| == |APPLIANCES|
    ensures forall k :: 0 <= k < |totals| ==>
      && totals[k].name == APPLIANCES[k].name
      && totals[k].index == IndexOf(header, APPLIANCES[k].key)
      && totals[k].total == ColumnSum(DataRows(rows), totals[k].index)
    ensures forall k :: 0 <= k < |totals| && totals[k].index == -1 ==> totals[k].total == 0.0
  {
    var infos := Infos(header);
    var data := DataRows(rows);
    ColumnSumAbsent(data);
    totals := TotalsOf(data, infos);
  }

  /** `applianceInfo.map(info => ...)`: the column total of every appliance, row by row. */
  method TotalsOf(data: Grid, infos: seq<ApplianceInfo>) returns (totals: seq<ApplianceTotal>)
    ensures |totals| == |infos|
    ensures forall k :: 0 <= k < |infos| ==>
      totals[k] == ApplianceTotal(infos[k].name, ColumnSum(data, infos[k].index), infos[k].index)
  {
    totals := [];
    var k := 0;
    while k < |infos|
      invariant 0 <= k <= |infos|
      invariant |totals| == k
      invariant forall m :: 0 <= m < k ==>
        totals[m] == ApplianceTotal(infos[m].name, ColumnSum(data, infos[m].index), infos[m].index)
    {
      var info := infos[k];
      var sum := 0.0;
      if info.index != -1 {
        sum := SumColumn(data, info.index);
      } else {
        ColumnSumAbsent(data);
      }
      totals := totals + [ApplianceTotal(info.name, sum, info.index)];
      k := k + 1;
    }
  }

  datatype Distribution =
    | NotLoaded
    | NoDateColumn
    | Charts(header: Row, dateIdx: nat, totals: seq<ApplianceTotal>)

  /** Entering the distribution page: the header is trimmed and `Date` must be present. */
  method SetupDistribution(stored: Option<Grid>) returns (d: Distribution)
    ensures d.NotLoaded? <==> stored.None? || |stored.value| < 2
    ensures d.NoDateColumn? <==> stored.Some? && |stored.value| >= 2 && "Date" !in TrimAll(stored.value[0])
    ensures d.Charts? ==>
      && d.header == TrimAll(stored.value[0])
      && d.dateIdx == IndexOf(d.header, "Date")
      && |d.totals| == |APPLIANCES|
      && forall k :: 0 <= k < |d.totals| ==>
        d.totals[k].total == ColumnSum(stored.value[1..], IndexOf(d.header, APPLIANCES[k].key))
  {
    if stored.None? || |stored.value| < 2 {
      return NotLoaded;
    }
    var rows := stored.value;
    var header := TrimAll(rows[0]);
    var dateIdx := IndexOf(header, "Date");
    if dateIdx == -1 {
      return NoDateColumn;
    }
    var totals := ApplianceTotals(rows, header);
    d := Charts(header, dateIdx, totals);
  }
}
