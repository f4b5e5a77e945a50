/**
 * The Flask backend (`app.py`): the `/recommendations` route, which picks
 * the appliance columns of the loaded table, looks up each one's `(Units)`
 * column and writes one message per appliance from the two column
 * averages, and the part of the `/forecast` route that reads the period and
 * splits the daily series into a training and a test part.
 *
 * pandas is not modelled: the rounded column averages are a parameter, and
 * so is Python's printing of a float inside an f-string.
 */
module Backend {
  import opened Common
  import opened JsText
  import Recommendation

  // ---- Appliance columns ----

  /** The columns that are never appliances. */
  const EXCLUDED: seq<string> := ["Date", "Temperature", "Units", "Month", "Extra", "TariffRate", "ElectricityBill"]

  /** A column is an appliance when it has no `(` and is not one of the excluded names. */
  predicate IsAppliance(c: string) {
    '(' !in c && c !in EXCLUDED
  }

  /** `[c for c in df_cols if "(" not in c and c not in [...]]`. */
  function ApplianceCols(cols: seq<string>): (r: seq<string>)
    ensures |r| <= |cols|
    ensures forall c :: c in r <==> c in cols && IsAppliance(c)
  {
    Keep(cols, IsAppliance)
  }

  /** The items of `s` that satisfy `p`, in order. */
  function Keep(s: seq<string>, p: string -> bool): (r: seq<string>)
    ensures |r| <= |s|
    ensures forall c :: c in r <==> c in s && p(c)
  {
    if |s| == 0 then []
    else
      var n := |s| - 1;
      Keep(s[..n], p) + (if p(s[n]) then [s[n]] else [])
  }

  /** The selection keeps column order: it distributes over joined column lists. */
  lemma {:induction false} ApplianceColsAppend(a: seq<string>, b: seq<string>)
    ensures ApplianceCols(a + b) == ApplianceCols(a) + ApplianceCols(b)
  {
    KeepAppend(a, b, IsAppliance);
  }

  lemma {:induction false} KeepAppend(a: seq<string>, b: seq<string>, p: string -> bool)
    ensures Keep(a + b, p) == Keep(a, p) + Keep(b, p)
  {
    if |b| == 0 {
      assert a + b == a;
    } else {
      var n := |b| - 1;
      assert (a + b)[..|a + b| - 1] == a + b[..n];
      KeepAppend(a, b[..n], p);
    }
  }

  // ---- The unit column ----

  /** `appliance.lower() in c.lower() and "(units)" in c.lower()`. */
  predicate IsUnitColFor(c: string, appliance: string) {
    Contains(ToLower(c), ToLower(appliance)) && Contains(ToLower(c), "(units)")
  }

  /** The first column that is a unit column for the appliance. */
  function UnitColOf(cols: seq<string>, appliance: string): (r: Option<string>)
    ensures r.None? <==> forall i :: 0 <= i < |cols| ==> !IsUnitColFor(cols[i], appliance)
    ensures r.Some? ==> exists k :: (0 <= k < |cols| && cols[k] == r.value && IsUnitColFor(cols[k], appliance)
      && forall i :: 0 <= i < k ==> !IsUnitColFor(cols[i], appliance))
  {
    if |cols| == 0 then None
    else if IsUnitColFor(cols[0], appliance) then Some(cols[0])
    else
      var r := UnitColOf(cols[1..], appliance);
      assert forall i :: 1 <= i < |cols| ==> cols[1..][i - 1] == cols[i];
      if r.Some? then
        var k :| 0 <= k < |cols[1..]| && cols[1..][k] == r.value && IsUnitColFor(cols[1..][k], appliance)
          && forall i :: 0 <= i < k ==> !IsUnitColFor(cols[1..][i], appliance);
        assert cols[k + 1] == r.value;
        r
      else r
  }

  /** The `for c in df_cols: ... break` search. */
  method FindUnitCol(cols: seq<string>, appliance: string) returns (unitCol: Option<string>)
    ensures unitCol == UnitColOf(cols, appliance)
  {
    unitCol := None;
    var i := 0;
    while i < |cols|
      invariant 0 <= i <= |cols|
      invariant forall j :: 0 <= j < i ==> !IsUnitColFor(cols[j], appliance)
    {
      if IsUnitColFor(cols[i], appliance) {
        unitCol := Some(cols[i]);
        FirstUnitCol(cols, appliance, i);
        return;
      }
      i := i + 1;
    }
  }

  /** The first matching column is the one `UnitColOf` names. */
  lemma {:induction false} FirstUnitCol(cols: seq<string>, appliance: string, k: nat)
    requires k < |cols| && IsUnitColFor(cols[k], appliance)
    requires forall j :: 0 <= j < k ==> !IsUnitColFor(cols[j], appliance)
    ensures UnitColOf(cols, appliance) == Some(cols[k])
  {
    if k > 0 {
      FirstUnitCol(cols[1..], appliance, k - 1);
    }
  }

  /**
   * The match is by substring: an earlier unit column whose name merely
   * contains the appliance's name is taken for it.
   */
  lemma {:induction false} UnitColBySubstring(other: string, appliance: string, rest: seq<string>)
    requires IsUnitColFor(other, appliance)
    ensures UnitColOf([other] + rest, appliance) == Some(other)
  {
  }

  // ---- Messages ----

  /** How the backend grades the usage. */
  datatype Level = HighUsage | LowUsage | ModerateUsage

  /** `avg_usage and avg_usage > 8` / `avg_usage and avg_usage < 2` / else; `None` and `0` are falsy. */
  function LevelOf(avgUsage: Option<real>): (l: Level)
    ensures l == HighUsage <==> avgUsage.Some? && avgUsage.value > 8.0
    ensures l == LowUsage <==> avgUsage.Some? && avgUsage.value != 0.0 && avgUsage.value < 2.0
    ensures avgUsage.None? || avgUsage.value == 0.0 ==> l == ModerateUsage
  {
    if avgUsage.Some? && avgUsage.value != 0.0 && avgUsage.value > 8.0 then HighUsage
    else if avgUsage.Some? && avgUsage.value != 0.0 && avgUsage.value < 2.0 then LowUsage
    else ModerateUsage
  }

  /** `avg_units and avg_units > 5`. */
  function OffPeak(avgUnits: Option<real>): (b: bool)
    ensures b <==> avgUnits.Some? && avgUnits.value > 5.0
  {
    avgUnits.Some? && avgUnits.value != 0.0 && avgUnits.value > 5.0
  }

  /** The page and the backend grade alike: high, low/efficient and moderate on the same thresholds. */
  lemma {:induction false} GradesAgree(avg: Option<real>)
    ensures LevelOf(avg) == HighUsage <==> Recommendation.IntensityOf(avg) == Recommendation.High
    ensures LevelOf(avg) == LowUsage <==> Recommendation.IntensityOf(avg) == Recommendation.Efficient
    ensures LevelOf(avg) == ModerateUsage <==> Recommendation.IntensityOf(avg) == Recommendation.Moderate
    ensures OffPeak(avg) <==> Recommendation.IdleHint(avg)
  {
  }

  /** The opening words of each message. */
  function Opening(l: Level): (s: string)
    ensures forall i :: 0 <= i < |s| ==> !IsDigit(s[i])
  {
    match l
    case HighUsage => "High usage of "
    case LowUsage => "Low usage of "
    case ModerateUsage => "Moderate usage of "
  }

  function Closing(l: Level): string {
    match l
    case HighUsage => " hrs/day). Consider reducing runtime or using energy-saving mode."
    case LowUsage => " hrs/day). Great energy efficiency!"
    case ModerateUsage => " hrs/day). Maintain this level for optimal energy consumption."
  }

  /** `f"{x}"` for an optional float: `None`, or Python's printing of the number. */
  function Show(x: Option<real>, show: real -> string): string {
    if x.None? then "None" else show(x.value)
  }

  /** `msg`: the opening for the level, the appliance's name, then the usage and the advice. */
  function Message(appliance: string, avgUsage: Option<real>, avgUnits: Option<real>, show: real -> string): (msg: string)
    ensures var o := Opening(LevelOf(avgUsage));
      && |o| + |appliance| < |msg|
      && msg[..|o|] == o
      && msg[|o|..|o| + |appliance|] == appliance
      && msg[|o| + |appliance|..] == MessageRest(avgUsage, avgUnits, show)
  {
    var o := Opening(LevelOf(avgUsage));
    var tail := MessageRest(avgUsage, avgUnits, show);
    ConcatParts(o, appliance, tail);
    o + (appliance + tail)
  }

  lemma {:induction false} ConcatParts<T>(o: seq<T>, a: seq<T>, r: seq<T>)
    ensures (o + (a + r))[..|o|] == o
    ensures (o + (a + r))[|o|..|o| + |a|] == a
    ensures (o + (a + r))[|o| + |a|..] == r
  {
    assert (o + (a + r))[|o|..] == a + r;
    assert (a + r)[..|a|] == a;
  }

  /**
   * The message after the appliance's name: the usage and the advice for the
   * level, with the off-peak sentence added by `+=` when the units average is
   * above 5.
   */
  function MessageRest(avgUsage: Option<real>, avgUnits: Option<real>, show: real -> string): (rest: string)
    ensures var head := " (~" + Show(avgUsage, show) + Closing(LevelOf(avgUsage));
      && |head| <= |rest|
      && rest[..|head|] == head
      && (OffPeak(avgUnits) <==> |rest| > |head|)
      && (!OffPeak(avgUnits) ==> rest == head)
      && (OffPeak(avgUnits) ==> rest[|head|..] == OffPeakSentence(avgUnits, show))
  {
    var rest := " (~" + Show(avgUsage, show) + Closing(LevelOf(avgUsage));
    if OffPeak(avgUnits) then
      var sentence := OffPeakSentence(avgUnits, show);
      assert (rest + sentence)[|rest|..] == sentence;
      rest + sentence
    else rest
  }

  /** The sentence `msg +=` appends when the units average is above 5. */
  function OffPeakSentence(avgUnits: Option<real>, show: real -> string): string {
    " Consumes about " + Show(avgUnits, show) + " kWh/day — try operating during off-peak hours."
  }

  // ---- The route ----

  /** One entry of the `recommendations` list. */
  datatype Rec = Rec(appliance: string, avgUsage: Option<real>, avgUnits: Option<real>, recommendation: string)

  /**
   * The loaded table, as far as the route reads it: its column names and,
   * per column, `round(df[c].mean(), 2)`, or `None` when pandas raises.
   */
  datatype Frame = Frame(cols: seq<string>, average: string -> Option<real>)

  datatype Response =
    | NoDataset                      // `{"error": "No dataset loaded"}`, status 400
    | Raised(column: string)         // `{"error": str(e)}`, status 500: the average of `column` raised
    | Recommendations(recs: seq<Rec>)

  /** What one turn of the loop ends with: a column whose average raised, or the entry. */
  datatype Outcome = Fails(column: string) | Gives(rec: Rec)

  /** One turn of the loop, for one appliance: its average, then its unit column's, then the message. */
  function EntryFor(df: Frame, appliance: string, show: real -> string): (e: Outcome)
    ensures e.Fails? <==> (df.average(appliance).None?
      || (UnitColOf(df.cols, appliance).Some? && df.average(UnitColOf(df.cols, appliance).value).None?))
    ensures e.Fails? && df.average(appliance).None? ==> e.column == appliance
    ensures e.Gives? ==> (e.rec.appliance == appliance && e.rec.avgUsage.Some?
      && (UnitColOf(df.cols, appliance).None? <==> e.rec.avgUnits.None?))
    ensures e.Fails? && df.average(appliance).Some? ==> e.column == UnitColOf(df.cols, appliance).value
    ensures e.Gives? ==>
      var u := UnitColOf(df.cols, appliance);
      var au := if u.Some? then df.average(u.value) else None;
      e.rec == Rec(appliance, df.average(appliance), au, Message(appliance, df.average(appliance), au, show))
  {
    var avgUsage := df.average(appliance);
    var unitCol := UnitColOf(df.cols, appliance);
    if avgUsage.None? then Fails(appliance)
    else if unitCol.Some? && df.average(unitCol.value).None? then Fails(unitCol.value)
    else
      var avgUnits := if unitCol.Some? then df.average(unitCol.value) else None;
      Gives(Rec(appliance, avgUsage, avgUnits, Message(appliance, avgUsage, avgUnits, show)))
  }

  /** The turn of the loop for each appliance of this table. */
  function Entries(df: Frame, show: real -> string): string -> Outcome {
    a => EntryFor(df, a, show)
  }

  /** The loop over the appliance columns, as far as `apps`: the first failure ends it. */
  function Route(apps: seq<string>, entry: string -> Outcome): (r: Response)
    ensures !r.NoDataset?
  {
    if |apps| == 0 then Recommendations([])
    else
      var n := |apps| - 1;
      var prev := Route(apps[..n], entry);
      if prev.Raised? then prev
      else
        match entry(apps[n])
        case Fails(column) => Raised(column)
        case Gives(rec) => Recommendations(prev.recs + [rec])
  }

  /** The loop gives entries exactly when no appliance fails. */
  lemma {:induction false} RouteGivesAll(apps: seq<string>, entry: string -> Outcome)
    ensures Route(apps, entry).Recommendations? <==> forall i :: 0 <= i < |apps| ==> entry(apps[i]).Gives?
  {
    if |apps| > 0 {
      var n := |apps| - 1;
      RouteGivesAll(apps[..n], entry);
      assert forall i :: 0 <= i < n ==> apps[..n][i] == apps[i];
    }
  }

  /** Without a failure there is one entry per appliance, in column order. */
  lemma {:induction false} RouteGives(apps: seq<string>, entry: string -> Outcome)
    requires Route(apps, entry).Recommendations?
    ensures |Route(apps, entry).recs| == |apps|
    ensures forall i :: 0 <= i < |apps| ==> entry(apps[i]) == Gives(Route(apps, entry).recs[i])
  {
    if |apps| > 0 {
      var n := |apps| - 1;
      RouteGives(apps[..n], entry);
      assert forall i :: 0 <= i < n ==> apps[..n][i] == apps[i];
    }
  }

  /** A failure reports the column of the first appliance that fails. */
  lemma {:induction false} RouteFails(apps: seq<string>, entry: string -> Outcome)
    requires Route(apps, entry).Raised?
    ensures exists k :: (0 <= k < |apps| && entry(apps[k]) == Fails(Route(apps, entry).column)
      && forall i :: 0 <= i < k ==> entry(apps[i]).Gives?)
  {
    var n := |apps| - 1;
    assert forall i :: 0 <= i < n ==> apps[..n][i] == apps[i];
    if Route(apps[..n], entry).Raised? {
      RouteFails(apps[..n], entry);
      var k :| 0 <= k < n && entry(apps[..n][k]) == Fails(Route(apps[..n], entry).column)
        && forall i :: 0 <= i < k ==> entry(apps[..n][i]).Gives?;
      assert entry(apps[k]) == Fails(Route(apps, entry).column);
    } else {
      RouteGivesAll(apps[..n], entry);
      assert entry(apps[n]) == Fails(Route(apps, entry).column);
    }
  }

  /** One more turn of the loop after turns that all gave entries. */
  lemma {:induction false} RouteStep(apps: seq<string>, i: nat, entry: string -> Outcome)
    requires i < |apps| && Route(apps[..i], entry).Recommendations?
    ensures Route(apps[..i + 1], entry) == match entry(apps[i])
      case Fails(column) => Raised(column)
      case Gives(rec) => Recommendations(Route(apps[..i], entry).recs + [rec])
  {
    assert apps[..i + 1][..i] == apps[..i];
  }

  /** Once the loop has failed, the later columns change nothing. */
  lemma {:induction false} RaisedStays(apps: seq<string>, k: nat, entry: string -> Outcome)
    requires k <= |apps| && Route(apps[..k], entry).Raised?
    ensures Route(apps, entry) == Route(apps[..k], entry)
  {
    if k < |apps| {
      var n := |apps| - 1;
      assert apps[..n][..k] == apps[..k];
      RaisedStays(apps[..n], k, entry);
    } else {
      assert apps[..k] == apps;
    }
  }

  /** The units average of an appliance: its unit column's mean, or `None` without a unit column. */
  function UnitsAverage(df: Frame, appliance: string): Option<real> {
    var u := UnitColOf(df.cols, appliance);
    if u.Some? then df.average(u.value) else None
  }

  /**
   * A successful answer has one entry per appliance column, in order, with
   * that column's mean, its unit column's mean and the message graded on them.
   */
  lemma {:induction false} RouteEntries(df: Frame, show: real -> string)
    requires Route(ApplianceCols(df.cols), Entries(df, show)).Recommendations?
    ensures var apps := ApplianceCols(df.cols); var recs := Route(apps, Entries(df, show)).recs;
      && |recs| == |apps|
      && forall i :: 0 <= i < |apps| ==>
        recs[i] == Rec(apps[i], df.average(apps[i]), UnitsAverage(df, apps[i]),
          Message(apps[i], df.average(apps[i]), UnitsAverage(df, apps[i]), show))
  {
    var apps := ApplianceCols(df.cols);
    RouteGives(apps, Entries(df, show));
    forall i | 0 <= i < |apps|
      ensures Route(apps, Entries(df, show)).recs[i] == Rec(apps[i], df.average(apps[i]), UnitsAverage(df, apps[i]),
          Message(apps[i], df.average(apps[i]), UnitsAverage(df, apps[i]), show))
    {
      assert Entries(df, show)(apps[i]) == EntryFor(df, apps[i], show);
    }
  }

  /** The `/recommendations` route: `NoDataset` without a table, else the loop over its appliance columns. */
  method Recommend(df: Option<Frame>, show: real -> string) returns (r: Response)
    ensures df.None? <==> r == NoDataset
    ensures df.Some? ==> r == Route(ApplianceCols(df.value.cols), Entries(df.value, show))
  {
    if df.None? {
      return NoDataset;
    }
    var frame := df.value;
    var apps := ApplianceCols(frame.cols);
    var entry := Entries(frame, show);
    var recs: seq<Rec> := [];
    var i := 0;
    while i < |apps|
      invariant 0 <= i <= |apps|
      invariant Route(apps[..i], entry) == Recommendations(recs)
    {
      var appliance := apps[i];
      RouteStep(apps, i, entry);
      assert entry(appliance) == EntryFor(frame, appliance, show);
      var unitCol := FindUnitCol(frame.cols, appliance);
      var avgUsage := frame.average(appliance);
      if avgUsage.None? {
        RaisedStays(apps, i + 1, entry);
        return Raised(appliance);
      }
      var avgUnits: Option<real> := None;
      if unitCol.Some? {
        avgUnits := frame.average(unitCol.value);
        if avgUnits.None? {
          RaisedStays(apps, i + 1, entry);
          return Raised(unitCol.value);
        }
      }
      var msg := Message(appliance, avgUsage, avgUnits, show);
      recs := recs + [Rec(appliance, avgUsage, avgUnits, msg)];
      i := i + 1;
    }
    assert apps[..|apps|] == apps;
    return Recommendations(recs);
  }

  // ---- From the backend to the page ----

  /** What the page reads of an entry: the appliance and the message. */
  function ToPage(r: Rec): Recommendation.Rec {
    Recommendation.Rec(r.appliance, r.recommendation)
  }

  function ToPageAll(recs: seq<Rec>): (page: seq<Recommendation.Rec>)
    ensures |page| == |recs|
    ensures forall i :: 0 <= i < |recs| ==> page[i] == ToPage(recs[i])
  {
    seq(|recs|, i requires 0 <= i < |recs| => ToPage(recs[i]))
  }

  /**
   * No appliance column has a `(`, so the page never sees a `(Units)`
   * record from this route: no card gets a units average, and the idle
   * hint never shows.
   */
  lemma {:induction false} PageNeverSeesUnits(df: Frame, show: real -> string)
    requires Route(ApplianceCols(df.cols), Entries(df, show)).Recommendations?
    ensures var cards := Recommendation.Combine(
        Recommendation.ParseAll(ToPageAll(Route(ApplianceCols(df.cols), Entries(df, show)).recs)), Recommendation.IsSimilarName);
      forall k :: 0 <= k < |cards| ==> cards[k].avgUnits.None? && !Recommendation.IdleHint(cards[k].avgUnits)
  {
    var apps := ApplianceCols(df.cols);
    var recs := Route(apps, Entries(df, show)).recs;
    RouteGives(apps, Entries(df, show));
    var ps := Recommendation.ParseAll(ToPageAll(recs));
    forall j | 0 <= j < |ps| ensures !ps[j].units {
      assert Entries(df, show)(apps[j]) == Gives(recs[j]);
      var a := recs[j].appliance;
      assert a == apps[j];
      assert a in apps;
      assert Recommendation.NoParen(a) by {
        forall i | 0 <= i < |a| ensures a[i] != '(' {
          assert a[i] in a;
        }
      }
      Recommendation.NoUnitsInPlain(a);
    }
    Recommendation.CombineNoUnits(ps, Recommendation.IsSimilarName);
  }

  /** A digit inside `a` is the first digit of `o + (a + t)` when `o` has none. */
  lemma {:induction false} DigitAfter(o: string, a: string, t: string)
    requires forall i :: 0 <= i < |o| ==> !IsDigit(o[i])
    requires Recommendation.FirstDigit(a) >= 0
    ensures Recommendation.FirstDigit(o + (a + t)) == |o| + Recommendation.FirstDigit(a)
  {
    var d := Recommendation.FirstDigit(a);
    var s := a + t;
    assert s[d] == a[d];
    assert forall i :: 0 <= i < d ==> s[i] == a[i];
    Recommendation.FirstDigitAt(s, d);
    Recommendation.FirstDigitAppend(o, s);
  }

  /**
   * The page takes the first number of the message for the usage hours; the
   * openings hold no digit, so when the appliance name holds one, the number
   * is read from the name instead.
   */
  lemma {:induction false} NameDigitIsRead(appliance: string, avgUsage: Option<real>, avgUnits: Option<real>, show: real -> string)
    requires exists i :: 0 <= i < |appliance| && IsDigit(appliance[i])
    ensures Recommendation.FirstDigit(Message(appliance, avgUsage, avgUnits, show))
      == |Opening(LevelOf(avgUsage))| + Recommendation.FirstDigit(appliance)
  {
    DigitAfter(Opening(LevelOf(avgUsage)), appliance, MessageRest(avgUsage, avgUnits, show));
  }

  // ---- The forecast period ----

  /** `int(data.get("days", 7))`: the period the page posts, 7 when absent. */
  function Steps(days: Option<int>): (s: int)
    ensures days.None? ==> s == 7
    ensures days.Some? ==> s == days.value
  {
    days.GetOr(7)
  }

  /** Python's bound for a slice end `e` of a sequence of length `n`: negative counts from the end; clipped to `0..n`. */
  function SliceBound(e: int, n: nat): (b: nat)
    ensures b <= n
    ensures e < 0 ==> b == (if n + e < 0 then 0 else n + e)
    ensures e >= 0 ==> b == (if e > n then n else e)
  {
    if e < 0 then (if n + e < 0 then 0 else n + e) else if e > n then n else e
  }

  /**
   * `train = df.iloc[:-steps]; test = df.iloc[-steps:]` when the series is
   * longer than `steps`, else the whole series and an empty test part.
   */
  function Split<T>(series: seq<T>, steps: int): (r: (seq<T>, seq<T>))
    ensures r.0 + r.1 == series
  {
    if |series| > steps then
      var b := SliceBound(-steps, |series|);
      (series[..b], series[b..])
    else (series, [])
  }

  /** For a positive period shorter than the series, the test part is the last `steps` days. */
  lemma {:induction false} SplitPositive<T>(series: seq<T>, steps: int)
    requires 0 < steps < |series|
    ensures |Split(series, steps).1| == steps
    ensures Split(series, steps).0 == series[..|series| - steps]
  {
  }

  /** A series no longer than the period is all training data, and there is no test part (so no metrics). */
  lemma {:induction false} SplitShort<T>(series: seq<T>, steps: int)
    requires |series| <= steps
    ensures Split(series, steps) == (series, [])
  {
  }

  /**
   * A period of 0 on a non-empty series slices `iloc[:-0]`, which is
   * `iloc[:0]`: the training part is empty and the test part is everything.
   */
  lemma {:induction false} SplitZero<T>(series: seq<T>)
    requires |series| > 0
    ensures Split(series, 0) == ([], series)
  {
  }

  /** A negative period `-k` trains on the first `k` days and tests on the rest. */
  lemma {:induction false} SplitNegative<T>(series: seq<T>, k: nat)
    requires 0 < k <= |series|
    ensures Split(series, -(k as int)) == (series[..k], series[k..])
  {
  }

  /** `df_copy['Units'].tail(10)`: the history sent back is the last ten days at most. */
  function Tail<T>(series: seq<T>, k: nat): (t: seq<T>)
    ensures |t| == if |series| < k then |series| else k
    ensures series[..|series| - |t|] + t == series
  {
    if |series| < k then series else series[|series| - k..]
  }
}
