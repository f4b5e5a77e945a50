# Energy dashboard: a verified model of its data logic

The energy dashboard lets a household upload a table of daily readings. The table has a
`Date` column, a `Units` column (kWh), one usage column per appliance and one
`<appliance>(Units)` column per appliance. The pages then aggregate and chart the readings.
A small Flask backend turns column averages into advice and splits the daily series for a
forecast.

This project models the logic under those pages and proves what it computes. The model is
split into modules:

- `ScriptParse`, `ScriptCharts` and `ScriptMonths` model the plain-script pages (`script.js`):
  - the text-to-grid parser with its delimiter detection;
  - the day-first month-key extractor;
  - the overview cards;
  - the per-appliance totals;
  - the month chart of one appliance;
  - the stacked month-by-appliance chart.
- `Utils` models the helpers of `utils.js`:
  - the header index map;
  - the appliance to unit-column map;
  - `parseNumber`;
  - the distinct months;
  - the grouping by month and appliance.
- `DistributionPage`, `Overview` and `Dashboard` model the aggregations of the React pages of
  the same names.
- `Recommendation` models the recommendation page:
  - the name similarity with synonyms;
  - the merge of backend records into cards;
  - the number read from each message;
  - the insight rules.
- `Forecasting` models the forecast page. It merges the history and forecast series, and a
  class holds the page's state.
- `DatasetPage` models the upload page's own splitter, its check and its preview.
- `Backend` models, from `app.py`:
  - the `/recommendations` route (appliance columns, unit-column lookup, message thresholds);
  - the `days` default and the train/test split of `/forecast`.

A few modules model language behaviour that the pages rely on:

- `JsText`: JavaScript string behaviour (`trim`, `split`, `indexOf`, `includes`,
  `toLowerCase`, `padStart`).
- `JsNumber`: `parseFloat` and `Number` on the digit forms the data uses, with NaN made
  explicit.
- `Buckets`: an insertion-ordered JavaScript object, used for the aggregations.
- `JsSort`: the default `sort`.

Where a page loops and updates variables, the model is a method with a loop. It is proved
equal to a recursive function. The properties the page promises are then proved as lemmas
about that function: sums per bucket, distinct keys, order kept, skip rules and tie-breaks.
Numbers are `real`. NaN is kept as a separate value wherever the source can produce it.
The browser's `new Date(...)` and `toLocaleString`, pandas' column means and Python's
printing of a float are function-typed parameters.

Behaviours of the code that are easy to misread, which the model follows as written:

- `extractMonthKey` reads only `D-M-YYYY` and `D/M/YYYY` dates, day first. An ISO date such as
  `2024-03-05` has no match and gives `null` (`ScriptParse.ExtractMonthKey`).
- On the overview page, the lowest month among equal totals is the one inserted last, not
  first. This is because the descending sort is stable (`Overview.HighestLowest`).
- On the dashboard, the seeded `reduce` gives a tie to the later month. The seed `["", 0]`
  wins whenever every month is on the wrong side of 0 (`Dashboard.ReduceQuirks`).
- The plain-script overview card counts a date cell made only of spaces. It adds the empty
  string to its set of dates (`ScriptCharts.DateKeysMembers`).
- The forecast page keeps the previous metrics when the backend answers with an error
  (`Forecasting.ForecastingPage.HandleForecast`).

## Model

| member | source | states |
|---|---|---|
| ScriptParse.CleanCell | energyagentfrontend/src/pages/script.js:27 | a cleaned cell has no white space at its ends; one leading byte-order mark is dropped, then one pair of enclosing double quotes when no line terminator lies between them, then the rest is trimmed; a trimmed cell without a quote is left as it is |
| ScriptParse.CleanCellBomQuoted | energyagentfrontend/src/pages/script.js:27 | a byte-order mark, quotes and padding around `42` all go, leaving `42` |
| ScriptParse.NonBlank | energyagentfrontend/src/pages/script.js:11 | the kept lines are exactly the input lines that are not blank, and there are no more of them than input lines |
| ScriptParse.NonBlankAppend | energyagentfrontend/src/pages/script.js:11 | the filter keeps input order: filtering joined lines joins the filtered parts |
| ScriptParse.NonBlankOne | energyagentfrontend/src/pages/script.js:11 | a single line is kept exactly when its trimmed text is not empty |
| ScriptParse.SplitLinesWith | energyagentfrontend/src/pages/script.js:23-29 | one row per line, each the cleaned cells of that line split on the one delimiter; every row has a cell and every cell is trimmed |
| ScriptParse.ParseTextToRows | energyagentfrontend/src/pages/script.js:8-31 | the result is empty exactly when the text is all white space; otherwise row i is the i-th non-blank line, split on the one delimiter detected from the first non-blank line, with every piece cleaned; every row has a cell and every cell is trimmed |
| ScriptParse.ContentLinesNonEmpty | energyagentfrontend/src/pages/script.js:9-12 | the text has a non-blank line exactly when it is not all white space |
| ScriptParse.DetectRendered | energyagentfrontend/src/pages/script.js:15-21 | the delimiter detected from a line written with tab, comma, semicolon or space is that delimiter (tab before comma before semicolon before white space) |
| ScriptParse.SplitRendered | energyagentfrontend/src/pages/script.js:25 | splitting a line of plain cells on its delimiter gives the cells back |
| ScriptParse.CleanPlainRow | energyagentfrontend/src/pages/script.js:27 | cleaning leaves plain cells unchanged |
| ScriptParse.SplitLinesJoin | energyagentfrontend/src/pages/script.js:11 | lines without line breaks, joined by line feeds, are split back into the same lines |
| ScriptParse.ContentLinesJoin | energyagentfrontend/src/pages/script.js:11 | trimmed non-blank lines joined by line feeds come back unchanged from trim, split and the blank-line filter |
| ScriptParse.RenderedContentLines | energyagentfrontend/src/pages/script.js:11-12 | the content lines of a written-out plain grid are its written rows |
| ScriptParse.ParseRenderRoundTrip | energyagentfrontend/src/pages/script.js:8-31 | parsing a plain grid written out with any of the four delimiters gives back the grid |
| ScriptParse.MatchAt | energyagentfrontend/src/pages/script.js:297 | the regular expression matches at a position exactly when some group lengths fit there, and the lengths returned fit |
| ScriptParse.FindDate | energyagentfrontend/src/pages/script.js:297 | the match found is the leftmost one; none is found exactly when no position matches |
| ScriptParse.MonthKeyShape | energyagentfrontend/src/pages/script.js:299-301 | the key built from a match is four digits, a dash and two digits |
| ScriptParse.ExtractMonthKey | energyagentfrontend/src/pages/script.js:294-302 | the key is null exactly when the cell is missing or empty or its trimmed text holds no date; otherwise it is the `YYYY-MM` key built from the leftmost match |
| ScriptParse.ExtractMonthKeyLeftmost | energyagentfrontend/src/pages/script.js:296-301 | for the leftmost position where a date starts, with the greedy group lengths there, the key is that match's year, a dash and its second group padded to two digits |
| ScriptParse.ExtractMonthKeyAtStart | energyagentfrontend/src/pages/script.js:296-301 | a trimmed cell whose date starts at its first character gives the key built from that match |
| ScriptParse.ExtractMonthKeyDayFirst | energyagentfrontend/src/pages/script.js:297-301 | `5-3-2024` is read day first as `2024-03` |
| ScriptParse.ExtractMonthKeySlashes | energyagentfrontend/src/pages/script.js:297-301 | `05/12/2023` is read as `2023-12` |
| ScriptCharts.CellValue | energyagentfrontend/src/pages/script.js:142 | a missing or empty cell reads as NaN |
| ScriptCharts.CellValueNat | energyagentfrontend/src/pages/script.js:142 | a whole number written in digits reads back as itself |
| ScriptCharts.CellValueOf | energyagentfrontend/src/pages/script.js:142 | a non-empty cell is read by `parseFloat` after its commas are removed and it is trimmed |
| ScriptCharts.Column | energyagentfrontend/src/pages/script.js:199-201 | one reading per row, each the cell of that column read as above |
| ScriptCharts.SumParsedAppend | energyagentfrontend/src/pages/script.js:202 | the skip-policy sum splits over consecutive blocks |
| ScriptCharts.SumParsedUnparsed | energyagentfrontend/src/pages/script.js:202 | cells that do not parse add nothing |
| ScriptCharts.ColumnSumAppend | energyagentfrontend/src/pages/script.js:196-206 | a column sum splits over consecutive blocks of rows |
| ScriptCharts.ColumnSumStep | energyagentfrontend/src/pages/script.js:199-203 | one more row adds what its cell contributes |
| ScriptCharts.ColumnSumAbsent | energyagentfrontend/src/pages/script.js:198 | a column at index -1 sums to 0 |
| ScriptCharts.SumColumn | energyagentfrontend/src/pages/script.js:197-204 | the loop's sum is the column sum that skips unparsable cells |
| ScriptCharts.DateKeysMembers | energyagentfrontend/src/pages/script.js:144 | the date set holds exactly the trimmed text of the truthy date cells |
| ScriptCharts.DateKeysHas | energyagentfrontend/src/pages/script.js:144 | one given text is in the date set exactly when some row's truthy date cell trims to it |
| ScriptCharts.DateKeysStep | energyagentfrontend/src/pages/script.js:144 | one row adds its trimmed date when the cell is truthy, and nothing otherwise |
| ScriptCharts.CardRow | energyagentfrontend/src/pages/script.js:140-145 | one row adds its parsed units to the total and its trimmed truthy date to the set |
| ScriptCharts.CardTotals | energyagentfrontend/src/pages/script.js:137-145 | the loop ends with the skip-policy sum of the units column and the set of trimmed dates |
| ScriptCharts.OverviewCard | energyagentfrontend/src/pages/script.js:121-151 | no data, or only a header, stops early; a header without `Date` or `Units` stops early; otherwise the card shows the total, the total over the number of distinct dates (0 with none), and the number of data rows |
| ScriptCharts.Infos | energyagentfrontend/src/pages/script.js:172-193 | the seven appliances in fixed order, each with the header position of its column |
| ScriptCharts.InfosLabelsDistinct | energyagentfrontend/src/pages/script.js:172-180 | the seven labels are pairwise different |
| ScriptCharts.ApplianceTotals | energyagentfrontend/src/pages/script.js:196-206 | one total per appliance in fixed order: 0 for a missing column, else the skip-policy sum over the data rows |
| ScriptCharts.TotalsOf | energyagentfrontend/src/pages/script.js:196-206 | the mapping loop yields, for each appliance in order, its name, index and column total (0 when the column is missing) |
| ScriptCharts.SetupDistribution | energyagentfrontend/src/pages/script.js:162-206 | no data stops early; a trimmed header without `Date` stops early; otherwise the totals are as above |
| ScriptMonths.Readings | energyagentfrontend/src/pages/script.js:310-316 | one reading per row: its month key and its parsed cell |
| ScriptMonths.ReadingsWellFormed | energyagentfrontend/src/pages/script.js:313 | every month key a row yields has the `YYYY-MM` shape |
| ScriptMonths.InMonthSnoc | energyagentfrontend/src/pages/script.js:314-317 | a month has a counting row after one more row exactly when it had one before or the new row counts for it |
| ScriptMonths.MonthTotalsGet | energyagentfrontend/src/pages/script.js:309-318 | the month map holds a month exactly when a row of that month has a parsable cell, and then it holds the sum of those cells |
| ScriptMonths.MonthTotalsKeys | energyagentfrontend/src/pages/script.js:309-318 | the month keys are distinct and have the `YYYY-MM` shape |
| ScriptMonths.MonthTotalsTotal | energyagentfrontend/src/pages/script.js:309-318 | the month totals add up to the sum over all rows that have a month key |
| ScriptMonths.MonthNumber | energyagentfrontend/src/pages/script.js:328-329 | the month number is the two digits after the dash |
| ScriptMonths.MonthLabel | energyagentfrontend/src/pages/script.js:326-331 | months 1 to 12 get their short name and the year; any other month number prints `undefined` and the year |
| ScriptMonths.MonthLabelMarch | energyagentfrontend/src/pages/script.js:326-331 | `2024-03` is labelled `Mar 2024` |
| ScriptMonths.MonthLabelOutOfRange | energyagentfrontend/src/pages/script.js:326-331 | a key with month 25 (a date written month first) is labelled `undefined 2024` |
| ScriptMonths.MonthRow | energyagentfrontend/src/pages/script.js:311-317 | one row of the loop is one step of the month fold |
| ScriptMonths.MonthChartOf | energyagentfrontend/src/pages/script.js:320-332 | the chart lists the months in ascending key order, each with its label and total |
| ScriptMonths.OpenMonthModal | energyagentfrontend/src/pages/script.js:305-332 | the chart shows every month whose rows have a parsable cell, in ascending key order, with the sum of those cells |
| ScriptMonths.ClickAppliance | energyagentfrontend/src/pages/script.js:249-257 | a click on a bar with no column (or on no bar) shows nothing; any other click opens that appliance's month chart |
| ScriptMonths.NoColumnNoMonths | energyagentfrontend/src/pages/script.js:315-317 | without the column, no month has a parsable cell |
| ScriptMonths.StampOf | energyagentfrontend/src/pages/script.js:383-389 | a row's month key and its parsed cell for each appliance, in chart order |
| ScriptMonths.ProjectStamps | energyagentfrontend/src/pages/script.js:386-389 | the stamps carry, appliance by appliance, the readings of that appliance's column |
| ScriptMonths.UndatedNotInMonth | energyagentfrontend/src/pages/script.js:384 | a month no row falls in has no counting reading |
| ScriptMonths.RowEntries | energyagentfrontend/src/pages/script.js:386-394 | one entry per appliance in order, holding the parsed value or 0 |
| ScriptMonths.RowIntoFresh | energyagentfrontend/src/pages/script.js:385-395 | a month met for the first time lists every appliance in order with this row's values |
| ScriptMonths.RowIntoAligned | energyagentfrontend/src/pages/script.js:386-395 | for a month met before, each appliance's value is added where it stands |
| ScriptMonths.StackedGet | energyagentfrontend/src/pages/script.js:380-396 | the map holds a month exactly when some row falls in it (even when no cell parses), and then every appliance once, in chart order, with its month sum |
| ScriptMonths.StackedKeys | energyagentfrontend/src/pages/script.js:380-396 | the month keys of the map are distinct |
| ScriptMonths.StampsDated | energyagentfrontend/src/pages/script.js:383 | every month a row falls in has the `YYYY-MM` shape |
| ScriptMonths.StackedRow | energyagentfrontend/src/pages/script.js:382-395 | one row of the outer loop, with the inner loop over the appliances, is one step of the stacked fold |
| ScriptMonths.FillInner | energyagentfrontend/src/pages/script.js:386-394 | the inner loop adds each appliance's parsable reading (0 otherwise) to the month's object, appliance by appliance |
| ScriptMonths.FillStacked | energyagentfrontend/src/pages/script.js:380-396 | the loop ends with the stacked fold of all data rows |
| ScriptMonths.StackedChartOf | energyagentfrontend/src/pages/script.js:398-425 | the months are in ascending key order with their labels, and one series per appliance holds its month sums |
| ScriptMonths.ShowMonthWise | energyagentfrontend/src/pages/script.js:378-425 | the chart shows every month some data row falls in, in ascending order, and for each appliance in chart order the sum of its parsable cells of that month (0 when none parse) |
| ScriptMonths.StackedCell | energyagentfrontend/src/pages/script.js:414-416 | each cell of the stacked chart is that appliance's month sum |
| ScriptMonths.StackedMatchesLine | energyagentfrontend/src/pages/script.js:310-317 | for every appliance and month, the stacked bar equals the line chart's point, or 0 where the line chart has no point |
| Utils.HeaderWrites | energyagentfrontend/src/pages/utils.js:26-28 | the writes of the loop, in order: each trimmed header name with its index |
| Utils.GetHeaderIndexes | energyagentfrontend/src/pages/utils.js:22-30 | null exactly for missing or empty data; otherwise the map built by those writes |
| Utils.HeaderIndexesGet | energyagentfrontend/src/pages/utils.js:22-30 | the names are distinct; a name maps to `j` exactly when `j` is the last column whose trimmed name it is; a name is absent exactly when no column has it |
| Utils.HeaderIndexesDuplicate | energyagentfrontend/src/pages/utils.js:26-28 | with `" Fan "` at 1 and `"Fan"` at 2, `Fan` maps to 2 |
| Utils.BaseNameBeforeParen | energyagentfrontend/src/pages/utils.js:48 | the base name is the trimmed text before the first `(` |
| Utils.UnitWrites | energyagentfrontend/src/pages/utils.js:45-51 | one write per header cell, made only for a cell containing `(Units)` |
| Utils.GetApplianceUnitColumns | energyagentfrontend/src/pages/utils.js:43-53 | the loop's map is the one built by those writes |
| Utils.UnitColumnsGet | energyagentfrontend/src/pages/utils.js:43-53 | base names are distinct keys; a base maps to the trimmed name of the last `(Units)` column with that base; a base is absent exactly when no such column exists |
| Utils.WritesUnit | energyagentfrontend/src/pages/utils.js:46-49 | column `j` writes base `b` exactly when it contains `(Units)` and its base is `b`, and it writes its trimmed name |
| Utils.ParseNumber | energyagentfrontend/src/pages/utils.js:58-61 | the parsed value when `parseFloat` gives a number, and 0 exactly when it gives NaN (also for `undefined`) |
| Utils.ParseNumberNat | energyagentfrontend/src/pages/utils.js:58-61 | a whole number written in digits parses to itself |
| Utils.ParseNumberNoDigit | energyagentfrontend/src/pages/utils.js:58-61 | a cell with no digit counts as 0 |
| Utils.MonthValue | energyagentfrontend/src/pages/utils.js:98-99 | a month value exists exactly when the cell is truthy, and it is the cell |
| Utils.NumGreaterNat | energyagentfrontend/src/pages/utils.js:75 | month numbers compare as numbers: the comparator is positive exactly when the first is larger |
| Utils.NumSort | energyagentfrontend/src/pages/utils.js:75 | the sort is a permutation |
| Utils.NumSortSorted | energyagentfrontend/src/pages/utils.js:75 | numeric month values come out in ascending numeric order |
| Utils.SortBySorted | energyagentfrontend/src/pages/utils.js:75 | sorting by a numeric key leaves every adjacent pair in ascending key order |
| Utils.GetUniqueMonths | energyagentfrontend/src/pages/utils.js:66-76 | the months are distinct and are exactly the non-empty, defined values of the data rows (the header excluded); numeric values come out ascending |
| Utils.Slots | energyagentfrontend/src/pages/utils.js:107-108 | each appliance's unit column resolved through the header map, in map order |
| Utils.TickOf | energyagentfrontend/src/pages/utils.js:97-111 | a row's truthy month value and `parseNumber` of each resolved cell |
| Utils.AddRowKeys | energyagentfrontend/src/pages/utils.js:106-117 | a row adds a key for exactly the appliances whose unit column resolves |
| Utils.AddRowAt | energyagentfrontend/src/pages/utils.js:110-116 | a resolved appliance's total grows by the row's value |
| Utils.AddRowUntouched | energyagentfrontend/src/pages/utils.js:106-117 | a name not in the appliance map keeps its total |
| Utils.GroupGet | energyagentfrontend/src/pages/utils.js:96-118 | a month is present exactly when a data row has that truthy month value (even with no resolved appliance); its totals are the per-appliance sums of that month over resolved appliances only |
| Utils.AddAppliance | energyagentfrontend/src/pages/utils.js:112-115 | one inner step sets the appliance's total to its old total (or 0) plus the value |
| Utils.AddRowLoop | energyagentfrontend/src/pages/utils.js:106-117 | the inner loop over the appliance map is the row fold over its resolved slots |
| Utils.GroupRow | energyagentfrontend/src/pages/utils.js:97-117 | one row of the outer loop is one step of the grouping fold |
| Utils.GroupByMonthAndAppliance | energyagentfrontend/src/pages/utils.js:87-121 | an empty result without a `Month` column; otherwise the grouping fold of the data rows, so the header row never contributes |
| Utils.GroupMonthsAreUniqueMonths | energyagentfrontend/src/pages/utils.js:66-76 | a month appears in the grouping exactly when `getUniqueMonths` lists it for the same column |
| DistributionPage.CellNum | energyagentfrontend/src/pages/DistributionPage.js:60 | a falsy cell reads as 0, any other through `parseFloat` |
| DistributionPage.SumFinite | energyagentfrontend/src/pages/DistributionPage.js:59-62 | the reduce is a number exactly when every term is, and is then the plain sum |
| DistributionPage.ColumnTotalFinite | energyagentfrontend/src/pages/DistributionPage.js:59-62 | an appliance total is a number exactly when no cell of the column is an unparsable non-empty text |
| DistributionPage.ApplianceCols | energyagentfrontend/src/pages/DistributionPage.js:48-50 | exactly the header cells containing `(Units)` with their positions, in header order |
| DistributionPage.LabelBeforeParen | energyagentfrontend/src/pages/DistributionPage.js:58 | the label is the untrimmed text before the first `(` |
| DistributionPage.LabelUnitsRoundTrip | energyagentfrontend/src/pages/DistributionPage.js:58 | `base(Units)` gives label `base`, and label plus `(Units)` is the column again |
| DistributionPage.LabelLosesInnerParens | energyagentfrontend/src/pages/DistributionPage.js:58 | `AC(kW)(Units)` gives the label `AC` |
| DistributionPage.Bars | energyagentfrontend/src/pages/DistributionPage.js:57-63 | one bar per appliance column, with its label and its column total |
| DistributionPage.Dedup | energyagentfrontend/src/pages/DistributionPage.js:99 | the months have no duplicates and are exactly the month cells |
| DistributionPage.DedupOrder | energyagentfrontend/src/pages/DistributionPage.js:99 | the months are in order of first occurrence |
| DistributionPage.FilterMembers | energyagentfrontend/src/pages/DistributionPage.js:102 | the filter keeps exactly the rows of that month |
| DistributionPage.FilterInMonth | energyagentfrontend/src/pages/DistributionPage.js:102-106 | filtering and reading the column gives that month's readings |
| DistributionPage.PerMonth | energyagentfrontend/src/pages/DistributionPage.js:101-107 | one total per month, each the reduce over that month's readings |
| DistributionPage.PrepareStacked | energyagentfrontend/src/pages/DistributionPage.js:95-117 | nothing without a `Month` column; otherwise the distinct months and one series per appliance column in header order, with as many entries as months |
| DistributionPage.StackedSegment | energyagentfrontend/src/pages/DistributionPage.js:101-106 | segment `j` of series `k` is the reduce over the filtered rows of month `j` |
| DistributionPage.PerMonthSnoc | energyagentfrontend/src/pages/DistributionPage.js:101-107 | a new row adds its reading to its own month and leaves the others alone |
| DistributionPage.PerMonthFinite | energyagentfrontend/src/pages/DistributionPage.js:101-107 | no month total is NaN when no reading is |
| DistributionPage.PerMonthAddsUp | energyagentfrontend/src/pages/DistributionPage.js:99-107 | the month totals add up to the sum of all readings |
| DistributionPage.StackedAddsUp | energyagentfrontend/src/pages/DistributionPage.js:57-63 | when an appliance's total is a number, its stacked segments are numbers and add up to its bar |
| DistributionPage.Restart | energyagentfrontend/src/pages/DistributionPage.js:86 | `monthly[m] \|\| 0` is the entry when it is a number, and 0 when it is missing or NaN |
| DistributionPage.HandleApplianceClick | energyagentfrontend/src/pages/DistributionPage.js:69-93 | nothing without `Month` or `<label>(Units)` in the header; otherwise the monthly map of the data rows |
| DistributionPage.MonthlyKeys | energyagentfrontend/src/pages/DistributionPage.js:82-89 | the keys are exactly the property names the rows' month cells become |
| DistributionPage.MonthlyMatchesStacked | energyagentfrontend/src/pages/DistributionPage.js:82-92 | where no other cell becomes the same key and the sum is a number, the click's month total is the stacked month total |
| DistributionPage.ClickForgetsNaN | energyagentfrontend/src/pages/DistributionPage.js:86 | a NaN reading is forgotten by the next row of that month, while the stacked sum stays NaN |
| DistributionPage.ClickMergesUndefined | energyagentfrontend/src/pages/DistributionPage.js:84-86 | a row too short to have a month and a row with month `"undefined"` share one key |
| DistributionPage.Open | energyagentfrontend/src/pages/DistributionPage.js:33-67 | no data or only a header stops early; no `(Units)` column produces no bars; otherwise the bars are `Bars` of the data rows (label and column total per `(Units)` column) and the stacked data is `PrepareStacked` of the table |
| DistributionPage.ClickFindsColumn | energyagentfrontend/src/pages/DistributionPage.js:74-80 | clicking the bar of a `base(Units)` column finds that column again |
| Overview.UnitsOf | energyagentfrontend/src/pages/Overview.js:52 | a missing cell is NaN, any other is read by `parseFloat` |
| Overview.PaddedMonth | energyagentfrontend/src/pages/Overview.js:62-64 | a month number from 1 to 12 padded to two digits reads back as itself |
| Overview.MonthKeyParts | energyagentfrontend/src/pages/Overview.js:62-64 | for a month 0 to 11, the key is the year's notation, a dash, and two digits that read `getMonth() + 1` |
| Overview.MonthKeyFourDigitYear | energyagentfrontend/src/pages/Overview.js:62-64 | a four-digit year gives a `YYYY-MM` key whose parts read the year and the month number |
| Overview.MonthKeyIdentifies | energyagentfrontend/src/pages/Overview.js:62-65 | two dates share a month key exactly when they share year and month |
| Overview.IntToStringInjective | energyagentfrontend/src/pages/Overview.js:62 | different years have different notations |
| Overview.MonthOf | energyagentfrontend/src/pages/Overview.js:60-66 | a month exactly when the date parses, and then its key |
| Overview.SampleOf | energyagentfrontend/src/pages/Overview.js:51-53 | a row counts exactly when its units parse and its date cell is truthy |
| Overview.Average | energyagentfrontend/src/pages/Overview.js:70-71 | the total over the number of days, or 0 when there are none |
| Overview.InsertDesc | energyagentfrontend/src/pages/Overview.js:94 | a stable insertion keeps all entries |
| Overview.SortDescSorted | energyagentfrontend/src/pages/Overview.js:94 | the sort is descending by total |
| Overview.SortDesc | energyagentfrontend/src/pages/Overview.js:94 | the sort is a permutation |
| Overview.SortDescHead | energyagentfrontend/src/pages/Overview.js:94-95 | the head is the earliest month with the largest total |
| Overview.SortDescLast | energyagentfrontend/src/pages/Overview.js:94-100 | the tail is the latest month with the smallest total |
| Overview.HighestLowest | energyagentfrontend/src/pages/Overview.js:93-101 | neither card is set without months; otherwise highest is the first maximum and lowest the last minimum |
| Overview.HighestLowestTie | energyagentfrontend/src/pages/Overview.js:93-101 | with two equal months, the first is highest and the second is lowest |
| Overview.Summarize | energyagentfrontend/src/pages/Overview.js:22-102 | no summary without data, with only a header or without `Units`; otherwise the total, the daily and monthly buckets, the average over days, all data rows as the record count, and the highest and lowest months |
| Overview.DailyDistinct | energyagentfrontend/src/pages/Overview.js:57 | every day appears once in the per-day bucket |
| Overview.DailyKeys | energyagentfrontend/src/pages/Overview.js:57 | the days are exactly the date cells of the rows that count |
| Overview.DailyGet | energyagentfrontend/src/pages/Overview.js:57 | each day holds the sum of its rows |
| Overview.DailyTotal | energyagentfrontend/src/pages/Overview.js:54-57 | the days add up to the total |
| Overview.MonthlyDistinct | energyagentfrontend/src/pages/Overview.js:65 | the months are distinct |
| Overview.MonthlyKeys | energyagentfrontend/src/pages/Overview.js:60-66 | a month appears exactly when a counting row's date parses to it |
| Overview.MonthlyGet | energyagentfrontend/src/pages/Overview.js:60-66 | a month holds the sum of the units of the counting rows whose date parses to it (0 for a month none does) |
| Overview.MonthlyTotal | energyagentfrontend/src/pages/Overview.js:53-66 | the months hold the total except the rows whose date does not parse |
| Dashboard.ReadingOf | energyagentfrontend/src/pages/Dashboard.js:36-41 | a row counts exactly when its units parse, whatever its date, with the month label of its date |
| Dashboard.MonthlyUsageTotal | energyagentfrontend/src/pages/Dashboard.js:35-43 | the months are distinct and add up to the total |
| Dashboard.MonthlyUsageKeys | energyagentfrontend/src/pages/Dashboard.js:35-43 | a month label is a key exactly when some row with parsable units carries it |
| Dashboard.MonthlyUsageGet | energyagentfrontend/src/pages/Dashboard.js:38-42 | a month holds the sum of the units of the rows that carry its label |
| Dashboard.NoMonthsNoTotal | energyagentfrontend/src/pages/Dashboard.js:59 | with no month the total is 0, so the average is 0 over 0 |
| Dashboard.LastMax | energyagentfrontend/src/pages/Dashboard.js:46 | the last position holding the largest total |
| Dashboard.HighestIsLastMax | energyagentfrontend/src/pages/Dashboard.js:46 | highest is the last month with the largest total, or the seed when there are no months or every total is below 0 |
| Dashboard.LowestIsLastMin | energyagentfrontend/src/pages/Dashboard.js:47 | lowest is the last month with the smallest total, or the seed when there are no months or every total is above 0 |
| Dashboard.ReduceQuirks | energyagentfrontend/src/pages/Dashboard.js:45-47 | of two equal months the later is highest; positive months never show as lowest; a single negative month never shows as highest |
| Dashboard.MonthAverage | energyagentfrontend/src/pages/Dashboard.js:59 | with months, the average times their number is the total; with none and a zero total, NaN |
| Dashboard.FetchDashboardData | energyagentfrontend/src/pages/Dashboard.js:15-70 | without a dataset, or with an empty one, loading stops with the default summary; without `Units` it returns still loading; when a request or its `.json()` throws, loading stops with the default summary and no recommendations; otherwise the total, the average, the two reduces, the forecast count and the recommendations |
| Recommendation.Squeeze | energyagentfrontend/src/pages/RecommendationPage.js:8-9 | no white space is left and the text does not grow; for a name without `(`, exactly its non-space characters remain, in order |
| Recommendation.DropSpaceAppend | energyagentfrontend/src/pages/RecommendationPage.js:8-9 | removing white space works part by part over joined texts |
| Recommendation.SimilarNames | energyagentfrontend/src/pages/RecommendationPage.js:7-18 | two names are similar exactly when their normal forms are equal or a synonym pair; the test is symmetric and reflexive |
| Recommendation.PlainSimilar | energyagentfrontend/src/pages/RecommendationPage.js:10-17 | for lower-case names without spaces or `(`, similar means equal or one of tv/television, ac/airconditioner, fridge/refrigerator, motor/motorpump |
| Recommendation.NormalTwoWords | energyagentfrontend/src/pages/RecommendationPage.js:8-9 | a name that lower-cases to two words around one space normalises to the joined words |
| Recommendation.AirConditionerIsAC | energyagentfrontend/src/pages/RecommendationPage.js:7-17 | `Air Conditioner` is similar to `AC`, through the `ac`/`airconditioner` synonym |
| Recommendation.NormalUnitsSuffix | energyagentfrontend/src/pages/RecommendationPage.js:8-9 | a name with ` (Units)` or `(Units)` appended has the same normal form |
| Recommendation.UnitsSuffixSimilar | energyagentfrontend/src/pages/RecommendationPage.js:7-18 | a name is similar to itself with `(Units)` appended |
| Recommendation.NoUnitsInPlain | energyagentfrontend/src/pages/RecommendationPage.js:33 | a name without `(` has no `(Units)` to remove |
| Recommendation.UnitsSuffixRemoved | energyagentfrontend/src/pages/RecommendationPage.js:33 | removing `(Units)` from `name (Units)` leaves `name ` |
| Recommendation.BaseNameUnits | energyagentfrontend/src/pages/RecommendationPage.js:33 | the base name of a trimmed name is itself, and so is that of the name with ` (Units)` |
| Recommendation.FindSimilar | energyagentfrontend/src/pages/RecommendationPage.js:34 | the first similar card, or -1 exactly when none is similar |
| Recommendation.FirstDigit | energyagentfrontend/src/pages/RecommendationPage.js:48 | the position of the first digit, or -1 exactly when there is none |
| Recommendation.NumberMatch | energyagentfrontend/src/pages/RecommendationPage.js:48 | no match exactly when the text has no digit |
| Recommendation.NumericValue | energyagentfrontend/src/pages/RecommendationPage.js:48-49 | null exactly when the text has no digit; otherwise `parseFloat` of the match, which is the non-negative number read from the first digit on |
| Recommendation.ParseRec | energyagentfrontend/src/pages/RecommendationPage.js:33-51 | a record's base name, message, whether it names `(Units)`, and its number |
| Recommendation.Absorb | energyagentfrontend/src/pages/RecommendationPage.js:51-57 | a `(Units)` record sets the unit message and units average; any other sets the usage message and usage average; the rest of the card is kept |
| Recommendation.CombineRecords | energyagentfrontend/src/pages/RecommendationPage.js:29-58 | the loop's cards are the merge of the parsed records |
| Recommendation.CombineSnoc | energyagentfrontend/src/pages/RecommendationPage.js:32-58 | one more record merges into the first similar card, or appends a new card |
| Recommendation.CombinePrefix | energyagentfrontend/src/pages/RecommendationPage.js:34-45 | cards appear in first-appearance order and are never renamed |
| Recommendation.CombineBound | energyagentfrontend/src/pages/RecommendationPage.js:34-45 | there are no more cards than records |
| Recommendation.CombineApart | energyagentfrontend/src/pages/RecommendationPage.js:34-45 | no card is similar to a later card |
| Recommendation.CombineNamesFrom | energyagentfrontend/src/pages/RecommendationPage.js:37-38 | every card is named after some record's base name |
| Recommendation.CombineCovers | energyagentfrontend/src/pages/RecommendationPage.js:34-45 | every record's base name is similar to some card |
| Recommendation.CombineNoUnits | energyagentfrontend/src/pages/RecommendationPage.js:51-57 | without `(Units)` records, no card has a units average or a unit message |
| Recommendation.UsageAndUnitsMerge | energyagentfrontend/src/pages/RecommendationPage.js:32-58 | a usage record and its `(Units)` record merge into one card carrying both messages and both numbers |
| Recommendation.MergeTwo | energyagentfrontend/src/pages/RecommendationPage.js:32-55 | a plain record followed by a `(Units)` record of the same base name combine into one card with both messages and values |
| Recommendation.IntensityOf | energyagentfrontend/src/pages/RecommendationPage.js:65-71 | high exactly above 8; efficient exactly for a non-zero value below 2; moderate for null and 0 |
| Recommendation.IdleHint | energyagentfrontend/src/pages/RecommendationPage.js:73-75 | the idle hint exactly when the units average is above 5 |
| Recommendation.Insights | energyagentfrontend/src/pages/RecommendationPage.js:61-78 | one insight per card, in order, from those two rules |
| Recommendation.Receive | energyagentfrontend/src/pages/RecommendationPage.js:23-83 | an error shows `⚠️ ` and the error with no cards; a missing list fails; otherwise the insights of the merged cards |
| Forecasting.FindDate | energyagentfrontend/src/pages/ForecastingPage.js:48 | the first entry with the date, or -1 exactly when the date is absent |
| Forecasting.Actuals | energyagentfrontend/src/pages/ForecastingPage.js:40-44 | one `Actual` entry per history date, in history order |
| Forecasting.MergeSeries | energyagentfrontend/src/pages/ForecastingPage.js:38-52 | the loops build the merged series |
| Forecasting.AddForecastKeeps | energyagentfrontend/src/pages/ForecastingPage.js:47-51 | a forecast entry changes no date or `Actual` and appends at most one entry, a forecast-only one |
| Forecasting.MergedKeepsHistory | energyagentfrontend/src/pages/ForecastingPage.js:38-52 | the merged series starts with the history dates and `Actual` values, unchanged |
| Forecasting.MergedDates | energyagentfrontend/src/pages/ForecastingPage.js:38-52 | its dates are exactly the history dates and the forecast dates |
| Forecasting.MergedLength | energyagentfrontend/src/pages/ForecastingPage.js:40-52 | its length is the history's plus the number of forecast dates not in it |
| Forecasting.MergedDistinct | energyagentfrontend/src/pages/ForecastingPage.js:46-52 | with distinct history dates, the merged dates are distinct |
| Forecasting.MergedForecastFrom | energyagentfrontend/src/pages/ForecastingPage.js:46-52 | every `Forecast` value shown comes from a forecast entry with that date |
| Forecasting.MergedShowsForecast | energyagentfrontend/src/pages/ForecastingPage.js:46-52 | with distinct forecast dates, every forecast entry is shown on the first entry of its date |
| Forecasting.ForecastingPage.constructor | energyagentfrontend/src/pages/ForecastingPage.js:14-17 | no data, no metrics, no message, a period of 7 days |
| Forecasting.ForecastingPage.HandleForecast | energyagentfrontend/src/pages/ForecastingPage.js:19-61 | the data is cleared first; a failure or an error leaves it empty with the matching message and keeps the previous metrics; otherwise the merged series, the metrics or null, and `✅ ` with the message; the period is unchanged |
| DatasetPage.Lines | energyagentfrontend/src/pages/Dataset.js:16-17 | at least one line, none holding a line feed |
| DatasetPage.SplitRows | energyagentfrontend/src/pages/Dataset.js:16-17 | one row per line, each the line split on `,` |
| DatasetPage.SplitRowsRender | energyagentfrontend/src/pages/Dataset.js:16-17 | writing the rows back gives the trimmed text, so nothing else is lost |
| DatasetPage.RenderSplitRows | energyagentfrontend/src/pages/Dataset.js:16-17 | splitting a written-out table of plain cells gives the table back |
| DatasetPage.BlankLineKept | energyagentfrontend/src/pages/Dataset.js:17 | an inner blank line is kept as a row holding one empty cell |
| DatasetPage.CarriageReturnKept | energyagentfrontend/src/pages/Dataset.js:16-17 | with CRLF line ends, the `\r` stays at the end of the line's last cell |
| DatasetPage.Preview | energyagentfrontend/src/pages/Dataset.js:28-37 | the first six rows, with every cell trimmed |
| DatasetPage.PreviewIdempotent | energyagentfrontend/src/pages/Dataset.js:28-37 | previewing a preview changes nothing |
| DatasetPage.Upload | energyagentfrontend/src/pages/Dataset.js:7-42 | no file is refused; fewer than two rows is invalid; otherwise the split rows are stored as they are, with their preview |
| DatasetPage.UploadRejects | energyagentfrontend/src/pages/Dataset.js:19-22 | text with no line feed once trimmed is invalid; blank text splits into one row with one empty cell |
| DatasetPage.UploadStoresAll | energyagentfrontend/src/pages/Dataset.js:25 | what is stored writes back to the trimmed text |
| Backend.ApplianceCols | EnergyAgentBackend/app.py:138 | exactly the columns with no `(` that are not among the seven excluded names, and no more columns than there were |
| Backend.ApplianceColsAppend | EnergyAgentBackend/app.py:138 | the selection keeps column order |
| Backend.UnitColOf | EnergyAgentBackend/app.py:145-149 | the first column whose lower-case text contains the lower-case appliance name and `(units)`, or none exactly when no column does |
| Backend.FindUnitCol | EnergyAgentBackend/app.py:145-149 | the loop with its `break` finds that column |
| Backend.FirstUnitCol | EnergyAgentBackend/app.py:146-149 | the first matching column is the one found |
| Backend.UnitColBySubstring | EnergyAgentBackend/app.py:147 | an earlier unit column whose name merely contains the appliance's name is taken for it |
| Backend.LevelOf | EnergyAgentBackend/app.py:158-163 | High exactly above 8; Low exactly for a non-zero value below 2; Moderate for None and 0 |
| Backend.OffPeak | EnergyAgentBackend/app.py:166 | the off-peak sentence exactly when the units average is above 5 |
| Backend.GradesAgree | EnergyAgentBackend/app.py:158-167 | the backend's levels and off-peak rule agree with the page's intensity and idle rules, case by case |
| Backend.Opening | EnergyAgentBackend/app.py:159-163 | the opening words hold no digit |
| Backend.Message | EnergyAgentBackend/app.py:158-167 | the message is the opening for the level, then the appliance's name, then the rest stated by `Backend.MessageRest` |
| Backend.MessageRest | EnergyAgentBackend/app.py:158-167 | after the name comes ` (~`, the usage and the advice for the level; when the units average is above 5 the off-peak sentence ` Consumes about … kWh/day — try operating during off-peak hours.` follows, and otherwise nothing |
| Backend.EntryFor | EnergyAgentBackend/app.py:145-174 | a turn fails exactly when the usage average or the unit column's average raises, naming that column; otherwise the entry is the appliance, its column mean, its unit column's mean (none without a unit column) and the message graded on those means |
| Backend.RouteGivesAll | EnergyAgentBackend/app.py:143-177 | the route answers with a list exactly when no appliance's turn fails |
| Backend.RouteGives | EnergyAgentBackend/app.py:143-177 | then there is exactly one entry per appliance column, in column order |
| Backend.RouteEntries | EnergyAgentBackend/app.py:143-177 | a successful answer holds, for each appliance column in order, its mean, its unit column's mean and the message built from them |
| Backend.RouteFails | EnergyAgentBackend/app.py:143-180 | a failure reports the column of the first appliance that fails |
| Backend.RaisedStays | EnergyAgentBackend/app.py:179-180 | once a turn has failed, the later columns change nothing |
| Backend.Recommend | EnergyAgentBackend/app.py:127-180 | no dataset gives the `No dataset loaded` error, and only then; otherwise the loop's answer is the route over the appliance columns |
| Backend.PageNeverSeesUnits | EnergyAgentBackend/app.py:138 | no appliance column holds `(`, so the page's cards built from this route never get a units average or an idle hint |
| Backend.DigitAfter | energyagentfrontend/src/pages/RecommendationPage.js:48 | a digit-free prefix moves the first digit by its length |
| Backend.NameDigitIsRead | EnergyAgentBackend/app.py:159-163 | when the appliance's name holds a digit, the page's number comes from the name and not from the average |
| Backend.Steps | EnergyAgentBackend/app.py:77 | the period is `days` when given, else 7 |
| Backend.SliceBound | EnergyAgentBackend/app.py:86-87 | a Python slice bound: negative counts from the end, clipped to the length |
| Backend.Split | EnergyAgentBackend/app.py:85-90 | the training and test parts together are the series |
| Backend.SplitPositive | EnergyAgentBackend/app.py:85-87 | for a positive period shorter than the series, the test part is its last `steps` days |
| Backend.SplitShort | EnergyAgentBackend/app.py:88-90 | a series no longer than the period is all training data and there is no test part |
| Backend.SplitZero | EnergyAgentBackend/app.py:85-87 | a period of 0 trains on nothing and tests on everything |
| Backend.SplitNegative | EnergyAgentBackend/app.py:85-87 | a negative period `-k` trains on the first `k` days and tests on the rest |
| Backend.Tail | EnergyAgentBackend/app.py:99 | the history sent back is the last ten days, or all days when there are fewer |

## Left out

- Browser storage, JSON (de)serialisation, `FileReader`, the DOM, `alert`, the HTML of the
  previews, and the Chart.js and recharts configuration are not modelled. A stored dataset
  enters the model as an `Option<Grid>`. A file enters as its text.
- `fetch` and the asynchronous flow are not modelled. The backend's answers enter the pages
  as values.
- `Dashboard.FetchDashboardData`: whether the two requests and their `.json()` calls succeed
  is the parameter `fetched`. With the backend as written, the dashboard's plain `GET` of
  `/forecast` (a route that accepts only `POST`, app.py:60) fails, so the page ends on the
  `catch` path: loading stops, the summary stays the default and no recommendations are
  shown. The backend also sends `forecast` as a date-to-value object (app.py:98,116), whose
  `length` is `undefined`; the model's `forecast` is a list length and has no value for that.
- The SARIMAX fit, the forecast values and the MAE/RMSE/MAPE metrics are floating-point
  library numerics. Only the split that feeds them, the history tail and the period default
  are modelled.
- pandas (`read_csv`, `to_datetime`, `asfreq`, `ffill`, `mean`) is not modelled.
  `Backend.Frame.average` gives the rounded mean of a column, or nothing when pandas raises.
  NaN means are not represented.
- Flask routing, CORS, file saving, the `os.listdir` fallback and the life cycle of the
  global table are not modelled. `Backend.Recommend` takes the table as an `Option`.
- `Backend.Message`: Python's printing of a float in an f-string is the parameter `show`.
  The contract (with `Backend.MessageRest`'s) fixes every character of the message except
  the digits of the two averages, which are whatever `show` prints.
- `JsNumber.ParseFloat` reads signs, digits and one decimal point. Exponents, `Infinity` and
  hexadecimal forms are not modelled. `toFixed(2)` is not modelled: the cards hold the exact
  totals. Sums are exact `real`s, without IEEE rounding.
- `JsText.ToLower` and Python's `lower()` fold ASCII letters only.
- `JsSort.LexLe` compares characters by code point. JavaScript's default `sort` compares
  UTF-16 code units, and the two orders differ for characters outside the Basic
  Multilingual Plane.
- `new Date(...)`, `getFullYear`/`getMonth` and `toLocaleString` depend on the engine and
  locale. They are parameters (`Overview.Summarize`'s `parse`, `Dashboard`'s `monthOf`).
- The order of JavaScript object keys that look like integers is not modelled. `Buckets`
  keeps insertion order, and no lemma claims an order for such keys:
  - `DistributionPage.HandleApplianceClick` returns a `map` without an order;
  - the daily and monthly chart arrays of `Overview` follow insertion order.
- The name-similarity and unit-column lemmas are stated for all names, not for literal
  appliance names.
- The forecast page's period selector and the dashboard's rendering are UI and are not
  modelled. `Forecasting.ForecastingPage` keeps `days` as a field that `HandleForecast`
  leaves unchanged.
- The `print` calls and the `/upload` route of the backend are not modelled.
- Sidebar, routing and the static home page hold no logic and are not part of this model.
