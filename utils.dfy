/**
 * The shared helpers of the dashboard pages (`utils.js`): the header index
 * map, the appliance-to-unit-column map, number parsing, the list of month
 * values and the month-by-appliance totals.
 *
 * Objects that a caller iterates (`applianceMap`) or that are built by
 * writing keys in turn are insertion-ordered buckets; the nested result of
 * the grouping, which is only looked up, is a Dafny `map`.
 */
module Utils {
  import opened Common
  import opened JsText
  import opened JsNumber
  import opened Buckets
  import opened JsSort

  // ---- Header index map ----

  /** What `header.forEach((colName, idx) => map[colName.trim()] = idx)` writes, in order. */
  function HeaderWrites(header: Row): (ws: seq<Option<Entry<string, nat>>>)
    ensures |ws| == |header|
    ensures forall j :: 0 <= j < |header| ==> ws[j] == Some(Entry(Trim(header[j]), j as nat))
  {
    seq(|header|, j requires 0 <= j < |header| => Some(Entry(Trim(header[j]), j as nat)))
  }

  /** `getHeaderIndexes(data)`: `null` for missing or empty data, else the index map of row 0. */
  method GetHeaderIndexes(data: Option<Grid>) returns (r: Option<Bucket<string, nat>>)
    ensures r.None? <==> data.None? || |data.value| == 0
    ensures r.Some? ==> r.value == PutEach([], HeaderWrites(data.value[0]))
  {
    if data.None? || |data.value| == 0 {
      return None;
    }
    var header := data.value[0];
    ghost var ws := HeaderWrites(header);
    var map_: Bucket<string, nat> := [];
    var idx: nat := 0;
    while idx < |header|
      invariant 0 <= idx <= |header|
      invariant map_ == PutEach([], ws[..idx])
    {
      PutEachStep([], ws, idx);
      assert ws[idx] == Some(Entry(Trim(header[idx]), idx));
      map_ := Put(map_, Trim(header[idx]), idx);
      idx := idx + 1;
    }
    assert ws[..idx] == ws;
    r := Some(map_);
  }

  /**
   * A trimmed name maps to the last column carrying it, and a name no column
   * carries is absent; the names are distinct keys.
   */
  lemma {:induction false} HeaderIndexesGet(header: Row, name: string, j: nat)
    ensures Distinct(Keys(PutEach([], HeaderWrites(header))))
    ensures Get(PutEach([], HeaderWrites(header)), name) == Some(j) <==>
      j < |header| && Trim(header[j]) == name &&
      forall j' :: j < j' < |header| ==> Trim(header[j']) != name
    ensures Get(PutEach([], HeaderWrites(header)), name).None? <==>
      forall j' :: 0 <= j' < |header| ==> Trim(header[j']) != name
  {
    var ws := HeaderWrites(header);
    PutEachDistinct([], ws);
    PutEachGet([], ws, name);
    var last := LastWrite(ws, name);
    if last >= 0 {
      assert Trim(header[last]) == name;
      if j < |header| && Trim(header[j]) == name && j != last {
        assert Writes(ws[j], name);
      }
    } else {
      forall j' | 0 <= j' < |header| ensures Trim(header[j']) != name {
        assert !Writes(ws[j'], name);
      }
    }
  }

  /** A later duplicate column name overwrites the earlier index. */
  lemma {:induction false} HeaderIndexesDuplicate()
    ensures Get(PutEach([], HeaderWrites(["Date", " Fan ", "Fan"])), "Fan") == Some(2)
  {
    var header: Row := ["Date", " Fan ", "Fan"];
    assert Trimmed(header[2]);
    HeaderIndexesGet(header, "Fan", 2);
  }

  // ---- Appliance unit columns ----

  const UNITS: string := "(Units)"

  /** `colName.split("(")[0].trim()`. */
  function BaseName(colName: string): string {
    Trim(SplitOn(colName, '(')[0])
  }

  /** The base name is the trimmed text before the first `(`. */
  lemma {:induction false} BaseNameBeforeParen(colName: string)
    ensures BaseName(colName) == Trim(if '(' in colName then colName[..IndexOf(colName, '(')] else colName)
  {
    SplitOnHead(colName, '(');
  }

  /** What the `forEach` of `getApplianceUnitColumns` writes for one column. */
  function UnitWrite(colName: string): Option<Entry<string, string>> {
    if Contains(colName, UNITS) then Some(Entry(BaseName(colName), Trim(colName))) else None
  }

  function UnitWrites(header: Row): (ws: seq<Option<Entry<string, string>>>)
    ensures |ws| == |header|
    ensures forall j :: 0 <= j < |header| ==> ws[j] == UnitWrite(header[j])
  {
    seq(|header|, j requires 0 <= j < |header| => UnitWrite(header[j]))
  }

  /** `getApplianceUnitColumns(header)`. */
  method GetApplianceUnitColumns(header: Row) returns (appliances: Bucket<string, string>)
    ensures appliances == PutEach([], UnitWrites(header))
  {
    ghost var ws := UnitWrites(header);
    appliances := [];
    var j := 0;
    while j < |header|
      invariant 0 <= j <= |header|
      invariant appliances == PutEach([], ws[..j])
    {
      var colName := header[j];
      PutEachStep([], ws, j);
      assert ws[j] == UnitWrite(colName);
      if Contains(colName, UNITS) {
        var base := Trim(SplitOn(colName, '(')[0]);
        appliances := Put(appliances, base, Trim(colName));
      }
      j := j + 1;
    }
    assert ws[..j] == ws;
  }

  /** Column `j` contains `(Units)` and has base name `base`. */
  predicate UnitColumnOf(header: Row, j: int, base: string) {
    0 <= j < |header| && Contains(header[j], UNITS) && BaseName(header[j]) == base
  }

  /**
   * One key per base name of a `(Units)` column: it maps to the trimmed name
   * of the last such column with that base; no other key is present.
   */
  lemma {:induction false} UnitColumnsGet(header: Row, base: string, j: nat)
    ensures Distinct(Keys(PutEach([], UnitWrites(header))))
    ensures UnitColumnOf(header, j, base) && (forall j' :: j < j' < |header| ==> !UnitColumnOf(header, j', base)) ==>
      Get(PutEach([], UnitWrites(header)), base) == Some(Trim(header[j]))
    ensures Get(PutEach([], UnitWrites(header)), base).None? <==>
      forall j' :: 0 <= j' < |header| ==> !UnitColumnOf(header, j', base)
  {
    var ws := UnitWrites(header);
    PutEachDistinct([], ws);
    PutEachGet([], ws, base);
    var last := LastWrite(ws, base);
    if UnitColumnOf(header, j, base) && (forall j' :: j < j' < |header| ==> !UnitColumnOf(header, j', base)) {
      WritesUnit(header, j, base);
      if last > j {
        WritesUnit(header, last, base);
        assert false;
      }
      assert last == j;
      assert ws[j].value.val == Trim(header[j]);
    }
    if last < 0 {
      forall j' | 0 <= j' < |header| ensures !UnitColumnOf(header, j', base) {
        WritesUnit(header, j', base);
      }
    } else {
      WritesUnit(header, last, base);
    }
  }

  lemma {:induction false} WritesUnit(header: Row, j: nat, base: string)
    requires j < |header|
    ensures Writes(UnitWrites(header)[j], base) <==> UnitColumnOf(header, j, base)
    ensures UnitWrites(header)[j].Some? ==> UnitWrites(header)[j].value.val == Trim(header[j])
  {
  }

  // ---- Numbers ----

  /** `parseNumber(value)`: the parsed number, or 0 when `parseFloat` gives NaN (also for `undefined`). */
  function ParseNumber(value: Option<string>): (r: real)
    ensures value.Some? && ParseFloat(value.value).Finite? ==> r == ParseFloat(value.value).value
    ensures value.None? || ParseFloat(value.value).NaN? ==> r == 0.0
  {
    match value
    case None => 0.0
    case Some(s) => if ParseFloat(s).NaN? then 0.0 else ParseFloat(s).value
  }

  /** A printed whole number parses back to itself. */
  lemma {:induction false} ParseNumberNat(n: nat)
    ensures ParseNumber(Some(NatToString(n))) == n as real
  {
    ParseFloatNatToString(n);
  }

  /** A cell without any digit counts as 0. */
  lemma {:induction false} ParseNumberNoDigit(s: string)
    requires forall k :: 0 <= k < |s| ==> !IsDigit(s[k])
    ensures ParseNumber(Some(s)) == 0.0
  {
    ParseFloatNoDigit(s);
  }

  // ---- Unique months ----

  /** `row[monthIndex]` when it is neither `undefined` nor `""`. */
  function MonthValue(row: Row, monthIndex: int): (v: Option<string>)
    ensures v.Some? <==> Truthy(Cell(row, monthIndex))
    ensures v.Some? ==> v.value == row[monthIndex]
  {
    if Truthy(Cell(row, monthIndex)) then Cell(row, monthIndex) else None
  }

  /** Some data row (index 1 on) holds month value `v`. */
  ghost predicate HasMonth(data: Grid, monthIndex: int, v: string) {
    exists i :: 1 <= i < |data| && MonthValue(data[i], monthIndex) == Some(v)
  }

  /** `(a, b) => a - b` is positive for the numbers `key` gives: both are numbers and `a`'s is the larger. */
  predicate Above(key: string -> Num, a: string, b: string) {
    key(a).Finite? && key(b).Finite? && key(a).value > key(b).value
  }

  /** `(a, b) => a - b` is positive: both convert to numbers and `a` is the larger. */
  predicate NumGreater(a: string, b: string) {
    Above(ToNumber, a, b)
  }

  /** Every element is a number under `key`. */
  predicate AllNumbers(key: string -> Num, s: seq<string>) {
    forall i :: 0 <= i < |s| ==> key(s[i]).Finite?
  }

  /** No element is above its successor under `key`. */
  predicate SortedBy(key: string -> Num, s: seq<string>) {
    forall i :: 0 < i < |s| ==> !Above(key, s[i - 1], s[i])
  }

  /** The month values that convert to numbers (`Number(v)` is not NaN). */
  predicate Numeric(s: seq<string>) {
    AllNumbers(ToNumber, s)
  }

  /** No element is numerically greater than its successor. */
  predicate NumSorted(s: seq<string>) {
    SortedBy(ToNumber, s)
  }

  /** Month numbers compare as numbers, not as text: `"10"` comes after `"9"`. */
  lemma {:induction false} NumGreaterNat(a: nat, b: nat)
    ensures NumGreater(NatToString(a), NatToString(b)) <==> a > b
  {
    ToNumberNatToString(a);
    ToNumberNatToString(b);
  }

  /** One step of a stable insertion sort with the comparator `a - b` on the numbers `key` gives. */
  function InsertBy(key: string -> Num, s: seq<string>, x: string): (r: seq<string>)
    ensures multiset(r) == multiset(s) + multiset{x}
    ensures |r| == |s| + 1
    ensures r[|r| - 1] == x || (s != [] && r[|r| - 1] == s[|s| - 1])
  {
    if s == [] then [x]
    else if Above(key, s[|s| - 1], x) then
      assert s == s[..|s| - 1] + [s[|s| - 1]];
      InsertBy(key, s[..|s| - 1], x) + [s[|s| - 1]]
    else s + [x]
  }

  /** A stable insertion sort with the comparator `a - b` on the numbers `key` gives. */
  function SortBy(key: string -> Num, xs: seq<string>): (r: seq<string>)
    ensures multiset(r) == multiset(xs)
    ensures |r| == |xs|
  {
    if xs == [] then []
    else
      assert xs == xs[..|xs| - 1] + [xs[|xs| - 1]];
      InsertBy(key, SortBy(key, xs[..|xs| - 1]), xs[|xs| - 1])
  }

  /**
   * `Array.from(months).sort((a, b) => a - b)`, as a stable insertion sort. For
   * values that are all numbers this is the order every correct sort yields.
   */
  function NumSort(xs: seq<string>): (r: seq<string>)
    ensures multiset(r) == multiset(xs)
    ensures |r| == |xs|
  {
    SortBy(ToNumber, xs)
  }

  lemma {:induction false} InsertBySorted(key: string -> Num, s: seq<string>, x: string)
    requires AllNumbers(key, s) && key(x).Finite? && SortedBy(key, s)
    ensures SortedBy(key, InsertBy(key, s, x))
  {
    if s == [] {
    } else if Above(key, s[|s| - 1], x) {
      var init := s[..|s| - 1];
      var last := s[|s| - 1];
      assert SortedBy(key, init) && AllNumbers(key, init);
      InsertBySorted(key, init, x);
      var r := InsertBy(key, init, x);
      assert !Above(key, r[|r| - 1], last) by {
        if r[|r| - 1] != x {
          assert init != [] && r[|r| - 1] == init[|init| - 1] == s[|s| - 2];
        }
      }
      SortedSnoc(key, r, last);
    } else {
      SortedSnoc(key, s, x);
    }
  }

  /** Appending an element that is not below the last one keeps a sequence sorted. */
  lemma {:induction false} SortedSnoc(key: string -> Num, r: seq<string>, y: string)
    requires SortedBy(key, r) && (r != [] ==> !Above(key, r[|r| - 1], y))
    ensures SortedBy(key, r + [y])
  {
    var t := r + [y];
    forall i | 0 < i < |t| ensures !Above(key, t[i - 1], t[i]) {
      if i < |r| {
        assert t[i - 1] == r[i - 1] && t[i] == r[i];
      }
    }
  }

  /** Values that are all numbers under `key` come out in ascending order. */
  lemma {:induction false} SortBySorted(key: string -> Num, xs: seq<string>)
    requires AllNumbers(key, xs)
    ensures SortedBy(key, SortBy(key, xs))
  {
    if xs != [] {
      var init := xs[..|xs| - 1];
      assert AllNumbers(key, init);
      SortBySorted(key, init);
      var s := SortBy(key, init);
      assert AllNumbers(key, s) by {
        forall i | 0 <= i < |s| ensures key(s[i]).Finite? {
          assert s[i] in multiset(init);
        }
      }
      InsertBySorted(key, s, xs[|xs| - 1]);
    }
  }

  /** Month values that are all numbers come out in ascending numeric order. */
  lemma {:induction false} NumSortSorted(xs: seq<string>)
    requires Numeric(xs)
    ensures NumSorted(NumSort(xs))
  {
    SortBySorted(ToNumber, xs);
  }

  /** `getUniqueMonths(data, monthIndex)`; an absent index is -1. */
  method GetUniqueMonths(data: Grid, monthIndex: int) returns (sorted: seq<string>)
    ensures Distinct(sorted)
    ensures forall v :: v in sorted <==> HasMonth(data, monthIndex, v)
    ensures Numeric(sorted) ==> NumSorted(sorted)
  {
    var months: seq<string> := [];
    var i := 1;
    while i < |data|
      invariant 1 <= i <= |data| || (|data| == 0 && i == 1)
      invariant Distinct(months)
      invariant forall v :: v in months <==> exists i' :: 1 <= i' < i && i' < |data| && MonthValue(data[i'], monthIndex) == Some(v)
    {
      var row := data[i];
      var monthVal := Cell(row, monthIndex);
      if monthVal.Some? && monthVal.value != "" {
        if monthVal.value !in months {
          months := months + [monthVal.value];
        }
      }
      i := i + 1;
    }
    sorted := NumSort(months);
    PermutedDistinct(months, sorted);
    if Numeric(sorted) {
      AllNumbersPermuted(ToNumber, months, sorted);
      NumSortSorted(months);
    }
  }

  /** A rearrangement of numbers is numbers. */
  lemma {:induction false} AllNumbersPermuted(key: string -> Num, xs: seq<string>, r: seq<string>)
    requires multiset(r) == multiset(xs) && AllNumbers(key, r)
    ensures AllNumbers(key, xs)
  {
    forall k | 0 <= k < |xs| ensures key(xs[k]).Finite? {
      assert xs[k] in multiset(r);
    }
  }

  // ---- Month-by-appliance totals ----

  /** The header index of each appliance's unit column, in the order of `applianceMap`; None when it does not resolve. */
  function Slots(headerIndexes: Bucket<string, nat>, applianceMap: Bucket<string, string>): (slots: seq<Option<nat>>)
    ensures |slots| == |applianceMap|
    ensures forall k :: 0 <= k < |applianceMap| ==> slots[k] == Get(headerIndexes, applianceMap[k].val)
  {
    seq(|applianceMap|, k requires 0 <= k < |applianceMap| => Get(headerIndexes, applianceMap[k].val))
  }

  /** A data row as the grouping reads it: its month value and `parseNumber` of each resolved unit cell. */
  datatype Tick = Tick(month: Option<string>, vals: seq<real>)

  /** `parseNumber(row[unitIndex])` for each resolved slot (0 where it does not resolve, never read). */
  function RowVals(row: Row, slots: seq<Option<nat>>): (vals: seq<real>)
    ensures |vals| == |slots|
    ensures forall k :: 0 <= k < |slots| && slots[k].Some? ==> vals[k] == ParseNumber(Cell(row, slots[k].value))
  {
    seq(|slots|, k requires 0 <= k < |slots| => if slots[k].Some? then ParseNumber(Cell(row, slots[k].value)) else 0.0)
  }

  function TickOf(row: Row, monthIndex: int, slots: seq<Option<nat>>): (t: Tick)
    ensures t.month == MonthValue(row, monthIndex) && |t.vals| == |slots|
    ensures forall k :: 0 <= k < |slots| && slots[k].Some? ==> t.vals[k] == ParseNumber(Cell(row, slots[k].value))
  {
    Tick(MonthValue(row, monthIndex), RowVals(row, slots))
  }

  function Ticks(rows: Grid, monthIndex: int, slots: seq<Option<nat>>): (ts: seq<Tick>)
    ensures |ts| == |rows|
    ensures forall i :: 0 <= i < |rows| ==> ts[i] == TickOf(rows[i], monthIndex, slots)
  {
    seq(|rows|, i requires 0 <= i < |rows| => TickOf(rows[i], monthIndex, slots))
  }

  /** Every tick has one value per appliance. */
  predicate Wide(ts: seq<Tick>, width: nat) {
    forall i :: 0 <= i < |ts| ==> |ts[i].vals| == width
  }

  /** `result[month]`: appliance name to running total. */
  type Sums = map<string, real>

  function OrZero(m: Sums, a: string): real {
    if a in m then m[a] else 0.0
  }

  /** The inner `for (let appliance in applianceMap)` loop for one row. */
  function AddRow(inner: Sums, names: seq<string>, slots: seq<Option<nat>>, vals: seq<real>): Sums
    requires |names| == |slots| == |vals|
  {
    if |names| == 0 then inner
    else
      var n := |names| - 1;
      var r := AddRow(inner, names[..n], slots[..n], vals[..n]);
      if slots[n].Some? then r[names[n] := OrZero(r, names[n]) + vals[n]] else r
  }

  /** Appliance `a` has a unit column that resolves. */
  predicate Resolved(names: seq<string>, slots: seq<Option<nat>>, a: string)
    requires |names| == |slots|
  {
    exists k :: 0 <= k < |names| && names[k] == a && slots[k].Some?
  }

  /** A row adds a key for exactly the resolved appliances. */
  lemma {:induction false} AddRowKeys(inner: Sums, names: seq<string>, slots: seq<Option<nat>>, vals: seq<real>, a: string)
    requires |names| == |slots| == |vals|
    ensures a in AddRow(inner, names, slots, vals) <==> a in inner || Resolved(names, slots, a)
  {
    if |names| > 0 {
      var n := |names| - 1;
      AddRowKeys(inner, names[..n], slots[..n], vals[..n], a);
      if Resolved(names, slots, a) && !(slots[n].Some? && names[n] == a) {
        var k :| 0 <= k < |names| && names[k] == a && slots[k].Some?;
        assert k < n && names[..n][k] == a && slots[..n][k].Some?;
      }
      if Resolved(names[..n], slots[..n], a) {
        var k :| 0 <= k < n && names[..n][k] == a && slots[..n][k].Some?;
        assert names[k] == a && slots[k].Some?;
      }
    }
  }

  /** A resolved appliance's total grows by the row's value. */
  lemma {:induction false} AddRowAt(inner: Sums, names: seq<string>, slots: seq<Option<nat>>, vals: seq<real>, k: nat)
    requires |names| == |slots| == |vals| && Distinct(names) && k < |names| && slots[k].Some?
    ensures OrZero(AddRow(inner, names, slots, vals), names[k]) == OrZero(inner, names[k]) + vals[k]
  {
    var n := |names| - 1;
    if k == n {
      AddRowUntouched(inner, names[..n], slots[..n], vals[..n], names[k]);
    } else {
      assert names[..n][k] == names[k] && slots[..n][k] == slots[k] && vals[..n][k] == vals[k];
      assert Distinct(names[..n]);
      AddRowAt(inner, names[..n], slots[..n], vals[..n], k);
      assert names[n] != names[k];
    }
  }

  /** A name the row does not list keeps its total. */
  lemma {:induction false} AddRowUntouched(inner: Sums, names: seq<string>, slots: seq<Option<nat>>, vals: seq<real>, a: string)
    requires |names| == |slots| == |vals| && a !in names
    ensures OrZero(AddRow(inner, names, slots, vals), a) == OrZero(inner, a)
  {
    if |names| > 0 {
      var n := |names| - 1;
      assert a !in names[..n];
      AddRowUntouched(inner, names[..n], slots[..n], vals[..n], a);
    }
  }

  /** `result` after the outer loop has read the ticks `ts`. */
  type Grouped = map<string, Sums>

  function GroupStep(acc: Grouped, t: Tick, names: seq<string>, slots: seq<Option<nat>>): Grouped
    requires |t.vals| == |names| == |slots|
  {
    if t.month.None? then acc
    else
      var m := t.month.value;
      acc[m := AddRow(if m in acc then acc[m] else map[], names, slots, t.vals)]
  }

  function Group(ts: seq<Tick>, names: seq<string>, slots: seq<Option<nat>>): Grouped
    requires Wide(ts, |names|) && |names| == |slots|
  {
    if |ts| == 0 then map[] else GroupStep(Group(ts[..|ts| - 1], names, slots), ts[|ts| - 1], names, slots)
  }

  /** Some tick has month value `m`. */
  ghost predicate HasTick(ts: seq<Tick>, m: string) {
    exists i :: 0 <= i < |ts| && ts[i].month == Some(m)
  }

  /** Reference definition: the sum of appliance `k`'s values over the ticks of month `m`. */
  function TickSum(ts: seq<Tick>, m: string, k: nat): real
    requires forall i :: 0 <= i < |ts| ==> k < |ts[i].vals|
  {
    if |ts| == 0 then 0.0
    else
      var t := ts[|ts| - 1];
      TickSum(ts[..|ts| - 1], m, k) + (if t.month == Some(m) then t.vals[k] else 0.0)
  }

  /** Month `m`'s totals: one key per resolved appliance, each its month sum. */
  ghost predicate SumsHold(inner: Sums, ts: seq<Tick>, names: seq<string>, slots: seq<Option<nat>>, m: string)
    requires Wide(ts, |names|) && |names| == |slots|
  {
    && (forall a :: a in inner <==> Resolved(names, slots, a))
    && (forall k :: 0 <= k < |names| && slots[k].Some? ==> OrZero(inner, names[k]) == TickSum(ts, m, k))
  }

  /**
   * `result` has a key for every month value some row carries and no other;
   * each holds exactly the resolved appliances, with the sum of their parsed
   * cells over that month's rows.
   */
  lemma {:induction false} GroupGet(ts: seq<Tick>, names: seq<string>, slots: seq<Option<nat>>, m: string)
    requires Wide(ts, |names|) && |names| == |slots| && Distinct(names)
    ensures m in Group(ts, names, slots) <==> HasTick(ts, m)
    ensures m in Group(ts, names, slots) ==> SumsHold(Group(ts, names, slots)[m], ts, names, slots, m)
  {
    if |ts| > 0 {
      var n := |ts| - 1;
      var prev := ts[..n];
      var t := ts[n];
      assert ts == prev + [t];
      GroupGet(prev, names, slots, m);
      HasTickSnoc(prev, t, m);
      var acc := Group(prev, names, slots);
      if t.month == Some(m) {
        if m in acc {
          GroupAdds(prev, t, names, slots, m, acc[m]);
        } else {
          GroupStarts(prev, t, names, slots, m);
        }
      } else if m in acc {
        GroupKeeps(prev, t, names, slots, m, acc[m]);
      }
    }
  }

  lemma {:induction false} HasTickSnoc(ts: seq<Tick>, t: Tick, m: string)
    ensures HasTick(ts + [t], m) <==> HasTick(ts, m) || t.month == Some(m)
  {
    var all := ts + [t];
    if HasTick(all, m) && t.month != Some(m) {
      var i :| 0 <= i < |all| && all[i].month == Some(m);
      assert i < |ts| && all[i] == ts[i];
    }
    if HasTick(ts, m) {
      var i :| 0 <= i < |ts| && ts[i].month == Some(m);
      assert all[i] == ts[i];
    }
    if t.month == Some(m) {
      assert all[|ts|] == t;
    }
  }

  lemma {:induction false} TickSumSnoc(ts: seq<Tick>, t: Tick, m: string, k: nat)
    requires forall i :: 0 <= i < |ts| ==> k < |ts[i].vals|
    requires k < |t.vals|
    ensures forall i :: 0 <= i < |ts + [t]| ==> k < |(ts + [t])[i].vals|
    ensures TickSum(ts + [t], m, k) == TickSum(ts, m, k) + (if t.month == Some(m) then t.vals[k] else 0.0)
  {
    assert (ts + [t])[..|ts|] == ts;
  }

  lemma {:induction false} TickSumNone(ts: seq<Tick>, m: string, k: nat)
    requires forall i :: 0 <= i < |ts| ==> k < |ts[i].vals|
    requires !HasTick(ts, m)
    ensures TickSum(ts, m, k) == 0.0
  {
    if |ts| > 0 {
      var n := |ts| - 1;
      assert ts == ts[..n] + [ts[n]];
      HasTickSnoc(ts[..n], ts[n], m);
      TickSumNone(ts[..n], m, k);
    }
  }

  /** The first row of month `m` starts its totals from the empty object. */
  lemma {:induction false} GroupStarts(prev: seq<Tick>, t: Tick, names: seq<string>, slots: seq<Option<nat>>, m: string)
    requires Wide(prev, |names|) && |t.vals| == |names| == |slots| && Distinct(names)
    requires t.month == Some(m) && !HasTick(prev, m)
    ensures Wide(prev + [t], |names|)
    ensures SumsHold(AddRow(map[], names, slots, t.vals), prev + [t], names, slots, m)
  {
    var inner := AddRow(map[], names, slots, t.vals);
    forall a ensures a in inner <==> Resolved(names, slots, a) {
      AddRowKeys(map[], names, slots, t.vals, a);
    }
    forall k | 0 <= k < |names| && slots[k].Some? ensures OrZero(inner, names[k]) == TickSum(prev + [t], m, k) {
      AddRowAt(map[], names, slots, t.vals, k);
      TickSumSnoc(prev, t, m, k);
      TickSumNone(prev, m, k);
    }
  }

  /** A later row of month `m` adds to its totals. */
  lemma {:induction false} GroupAdds(prev: seq<Tick>, t: Tick, names: seq<string>, slots: seq<Option<nat>>, m: string, inner: Sums)
    requires Wide(prev, |names|) && |t.vals| == |names| == |slots| && Distinct(names)
    requires t.month == Some(m) && SumsHold(inner, prev, names, slots, m)
    ensures Wide(prev + [t], |names|)
    ensures SumsHold(AddRow(inner, names, slots, t.vals), prev + [t], names, slots, m)
  {
    var inner' := AddRow(inner, names, slots, t.vals);
    forall a ensures a in inner' <==> Resolved(names, slots, a) {
      AddRowKeys(inner, names, slots, t.vals, a);
    }
    forall k | 0 <= k < |names| && slots[k].Some? ensures OrZero(inner', names[k]) == TickSum(prev + [t], m, k) {
      AddRowAt(inner, names, slots, t.vals, k);
      TickSumSnoc(prev, t, m, k);
    }
  }

  /** A row of another month leaves month `m` as it was. */
  lemma {:induction false} GroupKeeps(prev: seq<Tick>, t: Tick, names: seq<string>, slots: seq<Option<nat>>, m: string, inner: Sums)
    requires Wide(prev, |names|) && |t.vals| == |names| == |slots|
    requires t.month != Some(m) && SumsHold(inner, prev, names, slots, m)
    ensures Wide(prev + [t], |names|)
    ensures SumsHold(inner, prev + [t], names, slots, m)
  {
    forall k | 0 <= k < |names| && slots[k].Some? ensures OrZero(inner, names[k]) == TickSum(prev + [t], m, k) {
      TickSumSnoc(prev, t, m, k);
    }
  }

  /** One pass of the inner loop: `if (!result[m][a]) result[m][a] = 0; result[m][a] += val`. */
  method AddAppliance(inner: Sums, a: string, val: real) returns (inner': Sums)
    ensures inner' == inner[a := OrZero(inner, a) + val]
  {
    inner' := inner;
    if a !in inner' || inner'[a] == 0.0 {
      inner' := inner'[a := 0.0];
    }
    inner' := inner'[a := inner'[a] + val];
  }

  /** One more appliance of the inner loop, from the totals `before` it to the totals `after` it. */
  lemma {:induction false} AddRowSnoc(inner: Sums, names: seq<string>, slots: seq<Option<nat>>, vals: seq<real>, k: nat,
                   before: Sums, after: Sums)
    requires |names| == |slots| == |vals| && k < |names|
    requires before == AddRow(inner, names[..k], slots[..k], vals[..k])
    requires after == if slots[k].Some? then before[names[k] := OrZero(before, names[k]) + vals[k]] else before
    ensures after == AddRow(inner, names[..k + 1], slots[..k + 1], vals[..k + 1])
  {
    assert names[..k + 1][..k] == names[..k] && slots[..k + 1][..k] == slots[..k];
    assert vals[..k + 1][..k] == vals[..k];
  }

  /** The inner loop over `applianceMap` for one row. */
  method AddRowLoop(inner: Sums, row: Row, headerIndexes: Bucket<string, nat>, applianceMap: Bucket<string, string>)
    returns (inner': Sums)
    ensures var slots := Slots(headerIndexes, applianceMap);
      inner' == AddRow(inner, Keys(applianceMap), slots, RowVals(row, slots))
  {
    ghost var slots := Slots(headerIndexes, applianceMap);
    ghost var names := Keys(applianceMap);
    ghost var vals := RowVals(row, slots);
    inner' := inner;
    var k := 0;
    while k < |applianceMap|
      invariant 0 <= k <= |applianceMap|
      invariant inner' == AddRow(inner, names[..k], slots[..k], vals[..k])
    {
      var appliance := applianceMap[k].key;
      var unitCol := applianceMap[k].val;
      var unitIndex := Get(headerIndexes, unitCol);
      assert appliance == names[k] && unitIndex == slots[k];
      ghost var before := inner';
      if unitIndex.Some? {
        var val := ParseNumber(Cell(row, unitIndex.value));
        assert val == vals[k];
        inner' := AddAppliance(inner', appliance, val);
      }
      AddRowSnoc(inner, names, slots, vals, k, before, inner');
      k := k + 1;
    }
    assert names[..k] == names && slots[..k] == slots && vals[..k] == vals;
  }

  /** One row of the outer loop. */
  method GroupRow(result: Grouped, row: Row, monthIndex: nat, headerIndexes: Bucket<string, nat>,
                  applianceMap: Bucket<string, string>) returns (result': Grouped)
    ensures result' == GroupStep(result, TickOf(row, monthIndex, Slots(headerIndexes, applianceMap)),
      Keys(applianceMap), Slots(headerIndexes, applianceMap))
  {
    result' := result;
    var monthVal := Cell(row, monthIndex);
    if !(monthVal.Some? && monthVal.value != "") {
      return;
    }
    var m := monthVal.value;
    var inner: Sums := if m in result then result[m] else map[];
    inner := AddRowLoop(inner, row, headerIndexes, applianceMap);
    result' := result[m := inner];
  }

  /**
   * `groupByMonthAndAppliance(data, headerIndexes, applianceMap)`: empty when
   * there is no `Month` column; otherwise the totals of the data rows (row 0
   * never counts).
   */
  method GroupByMonthAndAppliance(data: Grid, headerIndexes: Bucket<string, nat>, applianceMap: Bucket<string, string>)
    returns (result: Grouped)
    ensures Get(headerIndexes, "Month").None? ==> result == map[]
    ensures Get(headerIndexes, "Month").Some? ==>
      var slots := Slots(headerIndexes, applianceMap);
      result == Group(Ticks(DataRows(data), Get(headerIndexes, "Month").value, slots), Keys(applianceMap), slots)
  {
    result := map[];
    var monthIndex := Get(headerIndexes, "Month");
    if monthIndex.None? {
      return;
    }
    ghost var slots := Slots(headerIndexes, applianceMap);
    ghost var ts := Ticks(DataRows(data), monthIndex.value, slots);
    var i := 1;
    while i < |data|
      invariant 1 <= i <= |data| || (|data| == 0 && i == 1)
      invariant result == Group(ts[..i - 1], Keys(applianceMap), slots)
    {
      result := GroupRow(result, data[i], monthIndex.value, headerIndexes, applianceMap);
      assert ts[..i][..i - 1] == ts[..i - 1];
      i := i + 1;
    }
    if |data| > 0 {
      assert ts[..i - 1] == ts;
    }
  }

  /** The months of the grouping are exactly the values `getUniqueMonths` lists for the same column. */
  lemma {:induction false} GroupMonthsAreUniqueMonths(data: Grid, monthIndex: nat, slots: seq<Option<nat>>, m: string)
    ensures HasTick(Ticks(DataRows(data), monthIndex, slots), m) <==> HasMonth(data, monthIndex, m)
  {
    var ts := Ticks(DataRows(data), monthIndex, slots);
    if HasTick(ts, m) {
      var i :| 0 <= i < |ts| && ts[i].month == Some(m);
      assert DataRows(data)[i] == data[i + 1];
    }
    if HasMonth(data, monthIndex, m) {
      var i :| 1 <= i < |data| && MonthValue(data[i], monthIndex) == Some(m);
      assert ts[i - 1].month == MonthValue(data[i], monthIndex);
    }
  }
}
