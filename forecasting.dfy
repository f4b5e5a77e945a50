/**
 * The React forecasting page (`ForecastingPage.js`): `handleForecast` posts
 * the chosen number of days, then merges the `history` and `forecast` maps of
 * the response into one list of chart points, one per date, each carrying an
 * `Actual` value, a `Forecast` value or both.
 *
 * The two maps arrive as `Object.entries(...)`, that is as key/value lists in
 * the object's own order; dates such as `2024-01-05` are not array indices,
 * so that is the order of the JSON text.
 */
module Forecasting {
  import opened Common
  import opened Buckets

  /** One chart point: `{ date, Actual }`, `{ date, Forecast }` or both. */
  datatype Point = Point(date: string, actual: Option<real>, forecast: Option<real>)

  /** The dates of the points, in order. */
  function Dates(pts: seq<Point>): (ds: seq<string>)
    ensures |ds| == |pts|
    ensures forall k :: 0 <= k < |pts| ==> ds[k] == pts[k].date
  {
    seq(|pts|, k requires 0 <= k < |pts| => pts[k].date)
  }

  /** `formatted.find((d) => d.date === date)`, as a position (-1: none). */
  function FindDate(pts: seq<Point>, date: string): (k: int)
    ensures -1 <= k < |pts|
    ensures k == -1 <==> date !in Dates(pts)
    ensures k >= 0 ==> pts[k].date == date && forall i :: 0 <= i < k ==> pts[i].date != date
  {
    if |pts| == 0 then -1
    else if pts[0].date == date then 0
    else
      var k := FindDate(pts[1..], date);
      assert Dates(pts) == [pts[0].date] + Dates(pts[1..]);
      if k == -1 then -1 else k + 1
  }

  // ---- The merge, as a specification ----

  /** One `{ date, Actual }` point per history entry, in history order. */
  function Actuals(history: Bucket<string, real>): (pts: seq<Point>)
    ensures |pts| == |history|
    ensures forall k :: 0 <= k < |history| ==> pts[k] == Point(history[k].key, Some(history[k].val), None)
  {
    seq(|history|, k requires 0 <= k < |history| => Point(history[k].key, Some(history[k].val), None))
  }

  /** One forecast entry: sets `Forecast` on the first point with its date, or appends a new point. */
  function AddForecast(pts: seq<Point>, e: Entry<string, real>): seq<Point> {
    var k := FindDate(pts, e.key);
    if k == -1 then pts + [Point(e.key, None, Some(e.val))]
    else pts[k := pts[k].(forecast := Some(e.val))]
  }

  /** The forecast entries applied in order. */
  function AddForecasts(pts: seq<Point>, forecast: Bucket<string, real>): seq<Point> {
    if |forecast| == 0 then pts
    else
      var n := |forecast| - 1;
      AddForecast(AddForecasts(pts, forecast[..n]), forecast[n])
  }

  /** `formatted` after both `forEach` loops. */
  function Merged(history: Bucket<string, real>, forecast: Bucket<string, real>): seq<Point> {
    AddForecasts(Actuals(history), forecast)
  }

  /** The number of forecast dates that are neither history dates nor repeats of an earlier forecast date. */
  function NewDates(history: Bucket<string, real>, forecast: Bucket<string, real>): nat {
    if |forecast| == 0 then 0
    else
      var n := |forecast| - 1;
      var d := forecast[n].key;
      NewDates(history, forecast[..n]) + (if d in Keys(history) || d in Keys(forecast[..n]) then 0 else 1)
  }

  // ---- The merge loops ----

  /** The two `forEach` loops of `handleForecast` that build `formatted`. */
  method MergeSeries(history: Bucket<string, real>, forecast: Bucket<string, real>) returns (formatted: seq<Point>)
    ensures formatted == Merged(history, forecast)
  {
    formatted := [];
    var i := 0;
    while i < |history|
      invariant 0 <= i <= |history|
      invariant formatted == Actuals(history[..i])
    {
      formatted := formatted + [Point(history[i].key, Some(history[i].val), None)];
      i := i + 1;
    }
    assert history[..|history|] == history;
    var j := 0;
    while j < |forecast|
      invariant 0 <= j <= |forecast|
      invariant formatted == AddForecasts(Actuals(history), forecast[..j])
    {
      var date := forecast[j].key;
      var existing := FindDate(formatted, date);
      if existing >= 0 {
        formatted := formatted[existing := formatted[existing].(forecast := Some(forecast[j].val))];
      } else {
        formatted := formatted + [Point(date, None, Some(forecast[j].val))];
      }
      assert forecast[..j + 1][..j] == forecast[..j];
      j := j + 1;
    }
    assert forecast[..|forecast|] == forecast;
  }

  // ---- What the merge keeps ----

  /** A forecast entry never moves a point, never changes a date and never touches `Actual`; a new point has no `Actual`. */
  lemma {:induction false} AddForecastKeeps(pts: seq<Point>, e: Entry<string, real>)
    ensures var r := AddForecast(pts, e);
      && |pts| <= |r| <= |pts| + 1
      && (forall k :: 0 <= k < |pts| ==> r[k].date == pts[k].date && r[k].actual == pts[k].actual)
      && (forall k :: |pts| <= k < |r| ==> r[k] == Point(e.key, None, Some(e.val)))
  {
  }

  /**
   * The merged list starts with the history, one point per entry with its
   * `Actual` value, in history order; the points after it have no `Actual`.
   */
  lemma {:induction false} MergedKeepsHistory(history: Bucket<string, real>, forecast: Bucket<string, real>)
    ensures |history| <= |Merged(history, forecast)|
    ensures forall k :: 0 <= k < |history| ==>
      Merged(history, forecast)[k].date == history[k].key && Merged(history, forecast)[k].actual == Some(history[k].val)
    ensures forall k :: |history| <= k < |Merged(history, forecast)| ==> Merged(history, forecast)[k].actual.None?
  {
    if |forecast| > 0 {
      var n := |forecast| - 1;
      MergedKeepsHistory(history, forecast[..n]);
      AddForecastKeeps(Merged(history, forecast[..n]), forecast[n]);
    }
  }

  /** The merged dates are the history dates and the forecast dates, and nothing else. */
  lemma {:induction false} MergedDates(history: Bucket<string, real>, forecast: Bucket<string, real>)
    ensures forall d :: d in Dates(Merged(history, forecast)) <==> d in Keys(history) || d in Keys(forecast)
  {
    if |forecast| == 0 {
      assert Dates(Actuals(history)) == Keys(history);
    } else {
      var n := |forecast| - 1;
      MergedDates(history, forecast[..n]);
      var pts := Merged(history, forecast[..n]);
      AddForecastDates(pts, forecast[n]);
      assert Keys(forecast) == Keys(forecast[..n]) + [forecast[n].key];
    }
  }

  lemma {:induction false} AddForecastDates(pts: seq<Point>, e: Entry<string, real>)
    ensures forall d :: d in Dates(AddForecast(pts, e)) <==> d in Dates(pts) || d == e.key
  {
    var r := AddForecast(pts, e);
    var k := FindDate(pts, e.key);
    if k == -1 {
      assert Dates(r) == Dates(pts) + [e.key];
    } else {
      assert Dates(r) == Dates(pts);
    }
  }

  /** The merged length is the history length plus one per forecast date not already present. */
  lemma {:induction false} MergedLength(history: Bucket<string, real>, forecast: Bucket<string, real>)
    ensures |Merged(history, forecast)| == |history| + NewDates(history, forecast)
  {
    if |forecast| > 0 {
      var n := |forecast| - 1;
      MergedLength(history, forecast[..n]);
      MergedDates(history, forecast[..n]);
      var pts := Merged(history, forecast[..n]);
      assert FindDate(pts, forecast[n].key) == -1 <==>
        !(forecast[n].key in Keys(history) || forecast[n].key in Keys(forecast[..n]));
    }
  }

  /** With distinct history dates the merged dates are distinct: a forecast date never gets a second point. */
  lemma {:induction false} MergedDistinct(history: Bucket<string, real>, forecast: Bucket<string, real>)
    requires Distinct(Keys(history))
    ensures Distinct(Dates(Merged(history, forecast)))
  {
    if |forecast| == 0 {
      assert Dates(Actuals(history)) == Keys(history);
    } else {
      var n := |forecast| - 1;
      MergedDistinct(history, forecast[..n]);
      AddForecastDistinct(Merged(history, forecast[..n]), forecast[n]);
    }
  }

  lemma {:induction false} AddForecastDistinct(pts: seq<Point>, e: Entry<string, real>)
    requires Distinct(Dates(pts))
    ensures Distinct(Dates(AddForecast(pts, e)))
  {
    var r := AddForecast(pts, e);
    if FindDate(pts, e.key) == -1 {
      assert Dates(r) == Dates(pts) + [e.key];
    } else {
      assert Dates(r) == Dates(pts);
    }
  }

  /** A `Forecast` value on a point always comes from the forecast entry for its date. */
  lemma {:induction false} MergedForecastFrom(history: Bucket<string, real>, forecast: Bucket<string, real>)
    ensures forall k :: 0 <= k < |Merged(history, forecast)| && Merged(history, forecast)[k].forecast.Some? ==>
      Entry(Merged(history, forecast)[k].date, Merged(history, forecast)[k].forecast.value) in forecast
  {
    if |forecast| > 0 {
      var n := |forecast| - 1;
      MergedForecastFrom(history, forecast[..n]);
      var pts := Merged(history, forecast[..n]);
      var r := Merged(history, forecast);
      forall k | 0 <= k < |r| && r[k].forecast.Some?
        ensures Entry(r[k].date, r[k].forecast.value) in forecast
      {
        AddForecastKeeps(pts, forecast[n]);
        if Entry(r[k].date, r[k].forecast.value) != forecast[n] {
          assert k < |pts| && r[k] == pts[k];
          assert forecast[..n] <= forecast;
        }
      }
    }
  }

  /** The first point dated `e.key` holds `e.val` as its `Forecast`. */
  predicate Shows(pts: seq<Point>, e: Entry<string, real>) {
    var k := FindDate(pts, e.key);
    k >= 0 && pts[k].forecast == Some(e.val)
  }

  /** With distinct forecast dates, every forecast entry shows on the first point with its date. */
  lemma {:induction false} MergedShowsForecast(history: Bucket<string, real>, forecast: Bucket<string, real>)
    requires Distinct(Keys(forecast))
    ensures forall j :: 0 <= j < |forecast| ==> Shows(Merged(history, forecast), forecast[j])
  {
    if |forecast| > 0 {
      var n := |forecast| - 1;
      var prev := forecast[..n];
      DistinctInit(forecast);
      MergedShowsForecast(history, prev);
      var pts := Merged(history, prev);
      assert Merged(history, forecast) == AddForecast(pts, forecast[n]);
      forall j | 0 <= j < |forecast|
        ensures Shows(AddForecast(pts, forecast[n]), forecast[j])
      {
        if j < n {
          assert prev[j] == forecast[j];
          AddForecastOthers(pts, forecast[n], forecast[j]);
        } else {
          AddForecastOwn(pts, forecast[n]);
        }
      }
    }
  }

  /** The first point with a date is where `find` stops. */
  lemma {:induction false} FindDateAt(pts: seq<Point>, d: string, k: nat)
    requires k < |pts| && pts[k].date == d
    requires forall i :: 0 <= i < k ==> pts[i].date != d
    ensures FindDate(pts, d) == k
  {
    if k > 0 {
      FindDateAt(pts[1..], d, k - 1);
    }
  }

  /** Two lists with the same dates find every date at the same position. */
  lemma {:induction false} FindDateSameDates(a: seq<Point>, b: seq<Point>, d: string)
    requires Dates(a) == Dates(b)
    ensures FindDate(a, d) == FindDate(b, d)
  {
    var ka := FindDate(a, d);
    if ka >= 0 {
      assert Dates(b)[ka] == Dates(a)[ka];
      assert forall i :: 0 <= i < ka ==> Dates(b)[i] == Dates(a)[i];
      FindDateAt(b, d, ka);
    }
  }

  /** After a forecast entry, it shows. */
  lemma {:induction false} AddForecastOwn(pts: seq<Point>, e: Entry<string, real>)
    ensures Shows(AddForecast(pts, e), e)
  {
    var r := AddForecast(pts, e);
    var k := FindDate(pts, e.key);
    if k == -1 {
      assert r[|pts|].date == e.key;
      assert forall i :: 0 <= i < |pts| ==> r[i].date == pts[i].date;
      assert FindDate(r, e.key) == |pts|;
    } else {
      assert Dates(r) == Dates(pts);
      FindDateSameDates(r, pts, e.key);
    }
  }

  /** A forecast entry for another date leaves an entry that shows still showing. */
  lemma {:induction false} AddForecastOthers(pts: seq<Point>, e: Entry<string, real>, other: Entry<string, real>)
    requires other.key != e.key && Shows(pts, other)
    ensures Shows(AddForecast(pts, e), other)
  {
    var r := AddForecast(pts, e);
    var k := FindDate(pts, other.key);
    if FindDate(pts, e.key) == -1 {
      assert r[..|pts|] == pts;
      assert forall i :: 0 <= i < |pts| ==> r[i] == pts[i];
      assert FindDate(r, other.key) == k;
    } else {
      assert Dates(r) == Dates(pts);
      FindDateSameDates(r, pts, other.key);
      assert r[k] == pts[k];
    }
  }

  // ---- The page ----

  /** The `/forecast` response: an `error`, or the two maps, the metrics and the message, each possibly absent. */
  datatype Response = Response(
    error: Option<string>,
    history: Option<Bucket<string, real>>,
    forecast: Option<Bucket<string, real>>,
    metrics: Option<map<string, real>>,
    message: Option<string>)

  /** The state of the forecasting page. */
  class ForecastingPage {
    var forecastData: seq<Point>
    var metrics: Option<map<string, real>>
    var message: string
    var days: nat

    /** A fresh page: no points, no metrics, no message and a 7-day period. */
    constructor ()
      ensures forecastData == [] && metrics.None? && message == "" && days == 7
    {
      forecastData := [];
      metrics := None;
      message := "";
      days := 7;
    }

    /**
     * `handleForecast`, given what `fetch` and `res.json()` produced (`None`
     * when either threw). The points are cleared first; an error response
     * leaves them empty and keeps the metrics of the previous run; otherwise
     * the points are the merge and the metrics `data.metrics || null`.
     */
    method HandleForecast(res: Option<Response>)
      modifies this
      ensures days == old(days)
      ensures res.None? ==> forecastData == [] && metrics == old(metrics) && message == "❌ Error fetching forecast data."
      ensures res.Some? && Truthy(res.value.error) ==>
        forecastData == [] && metrics == old(metrics) && message == "⚠️ " + res.value.error.value
      ensures res.Some? && !Truthy(res.value.error) ==>
        && forecastData == Merged(res.value.history.GetOr([]), res.value.forecast.GetOr([]))
        && metrics == res.value.metrics
        && message == "✅ " + res.value.message.GetOr("undefined")
    {
      message := "⏳ Generating forecast...";
      forecastData := [];
      if res.None? {
        message := "❌ Error fetching forecast data.";
        return;
      }
      var data := res.value;
      if Truthy(data.error) {
        message := "⚠️ " + data.error.value;
        return;
      }
      var formatted := MergeSeries(data.history.GetOr([]), data.forecast.GetOr([]));
      forecastData := formatted;
      metrics := data.metrics;
      message := "✅ " + data.message.GetOr("undefined");
    }
  }
}
