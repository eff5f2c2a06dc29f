# Stock-In-Ounces, modelled in Dafny

Stock-In-Ounces charts a stock, fund or crypto asset priced in ounces of a
precious metal rather than in dollars. This project models its analytics core
and proves properties of it:

- the trendline estimator: least-squares fit, sorted residuals and percentile bands;
- the chart pipeline: ticker filter, time window, view modes, trend merge, axis units and formatters;
- the return calculator: total growth, years and annualized growth, in USD and in metal;
- the ticker search box and the tooltip's price-per-ounce back-calculation;
- the data-shaping scripts:
  - the timeframe down-sampling;
  - the columnar table builder and its FastData projection;
  - the metals merge;
  - the S&P 500 collection.

Files, one module each:

| file | module | models |
|---|---|---|
| `wrappers.dfy` | `Wrappers` | `Option` |
| `seqs.dfy` | `Seqs` | filter, stable insertion sort, subsequences (generic helpers) |
| `text.dfy` | `Text` | `toLowerCase` on ASCII letters, `includes`, Python string order |
| `rows.dfy` | `Rows` | the chart's flat price rows, `|| 0` / `|| 1`, the sort by date |
| `analysis.dfy` | `Analysis` | `src/utils/analysis.js` |
| `chart.dfy` | `Chart` | `src/components/Chart.jsx` |
| `roi_calc.dfy` | `RoiCalc` | `src/components/subcomponents1/subcomponents2/RoiCalc.jsx` |
| `search_stock.dfy` | `SearchStock` | `src/components/SearchStock.jsx` |
| `tool_tip.dfy` | `ToolTip` | `src/components/subcomponents/ToolTip.jsx` |
| `time_frame.dfy` | `TimeFrame` | `scripts/TimeFrame.py` |
| `get_stock_data.dfy` | `GetStockData` | `scripts/GetStockData.py` |
| `fetch_metals.dfy` | `FetchMetals` | `scripts/fetch_metals.py` |
| `collect_data.dfy` | `CollectData` | `collect_data.py` |

Conventions:

- Numbers are exact `real`s.
- `Math.log`, `Math.exp` and `Math.pow` are function parameters (`ln`, `exp`, `pow`). A lemma that needs one of them to be monotone, positive or side-preserving says so in its `requires`.
- Dates in the chart and the return calculator are epoch milliseconds (`int`).
- "N years before" is a parameter `yearsBefore`. Where it matters, it is required never to move a date forward (`GoesBack`).
- In the scripts:
  - down-sampling instants are whole seconds;
  - date strings are `string`s;
  - a downloaded pandas frame is an abstract map from `(symbol, date)` to its non-NaN close.

Where the source changes state step by step, the model is imperative and
proved against a specification function. This covers:

- the `forEach` sums;
- the in-place sort and reassignments of `chartData`;
- the loop over the timeframes;
- the nested loops that build the tables;
- the nested metals loop;
- the loop over the downloaded tickers;
- the search box's state, a class with `query`, `isOpen` and `selectedTicker`.

Each such method's `ensures` ties its result to that function. The lemmas
state what the function means.

Where the intended design and the code differ, the model follows the code:

- With range Max the chart keeps the rows in the order they were delivered. It does not sort them.
- A missing price is read as 0 (`|| 0`), or as 1 for a base (`|| 1`). It is not marked unavailable.
- An unknown time range starts the window at epoch 0, and any trendline type other than `'log'` fits linearly. Neither is rejected.
- The absolute view mode takes its base from the ticker's earliest row in the whole data set (its true inception).
- No metal quote is forward-filled anywhere in the modelled code.

## Model

| member | source | states |
|---|---|---|
| Analysis.ToPoint | src/utils/analysis.js:20-28 | the point keeps its row, its x is the date offset from the first row, and in log mode a value ≤ 0 becomes 1e-7, so y > 0 |
| Analysis.Points | src/utils/analysis.js:18-28 | one point per row, in order, and the first point has x = 0 |
| Analysis.AccumulateSums | src/utils/analysis.js:32-38 | the loop's four running sums equal the sums over all points |
| Analysis.PointsDenominatorPositive | src/utils/analysis.js:40 | rows with two different dates make `n·Σx² − (Σx)²` positive, so the slope division is defined |
| Analysis.DenominatorPositive | src/utils/analysis.js:40 | two points with different x values give a positive divisor |
| Analysis.DenominatorNonneg | src/utils/analysis.js:40 | the divisor is never negative |
| Analysis.ClosedFormSolves | src/utils/analysis.js:40-41 | the closed-form slope and intercept solve both normal equations of least squares |
| Analysis.Fit | src/utils/analysis.js:40-41 | the fitted line satisfies the normal equations over the points |
| Analysis.NormalEquationsUnique | src/utils/analysis.js:40-41 | with a non-zero divisor, the normal equations have only one solution, so the fit is the least-squares line |
| Analysis.FitOfLine | src/utils/analysis.js:40-41 | points lying exactly on a line are fitted by that line |
| Analysis.SortAscending | src/utils/analysis.js:48 | the residuals sorted ascending, a permutation of the input |
| Analysis.PercentileRanks | src/utils/analysis.js:51-54 | each rank is `floor(n·0.1/0.2/0.8/0.9)`, the ranks are ordered, and all are `< n` |
| Analysis.QuantilesOrdered | src/utils/analysis.js:56-59 | the four residual percentiles are in ascending order |
| Analysis.Trendlines | src/utils/analysis.js:10-77 | fewer than 2 rows come back unchanged; otherwise there is one trend row per input row, and each keeps its row |
| Analysis.CalculateTrendlines | src/utils/analysis.js:10-77 | the method computes exactly `Trendlines` |
| Analysis.BandsOrdered | src/utils/analysis.js:44-48 | at every point bottom10 ≤ bottom20 ≤ top20 ≤ top10: always in linear mode, and in log mode when `exp` is monotone |
| Analysis.LogOutputsPositive | src/utils/analysis.js:62-76 | in log mode the trend and all four bands are positive when `exp` is |
| Analysis.ResidualsOnLine | src/utils/analysis.js:44-47 | points on the fitted line have residual 0 |
| Analysis.ZeroQuantiles | src/utils/analysis.js:48-59 | all-zero residuals give four zero percentiles |
| Analysis.PointsOnLine | src/utils/analysis.js:18-28 | rows whose values are linear in the date offset give points on that line |
| Analysis.ExactLineIsReproduced | src/utils/analysis.js:40-76 | linear rows on a line: the trendline equals each value and the four bands equal the trendline |
| Rows.ValueOrZero | src/components/Chart.jsx:68-69 | a present field is read as is, and an absent one as 0 |
| Rows.ValueOrOne | src/components/Chart.jsx:79-80 | the base is never 0: a non-zero value is kept, and a falsy one becomes 1 |
| Rows.SortByDate | src/components/Chart.jsx:32 | the same rows (a permutation), ascending by date |
| Rows.RowsOf | src/components/Chart.jsx:28 | exactly the rows of the selected ticker, each as often as it occurs in the data, and no other row |
| Rows.RowsOfIsSubseq | src/components/Chart.jsx:28 | the ticker filter keeps the delivered order |
| Chart.Window | src/components/Chart.jsx:28-55 | the window holds only the ticker's rows; with Max it is the filtered rows as delivered |
| Chart.WindowRows | src/components/Chart.jsx:28-55 | filtering, sorting in place and cutting compute exactly `Window` |
| Chart.MaxKeepsDeliveredOrder | src/components/Chart.jsx:31 | with Max the window is a subsequence of the data in its delivered order |
| Chart.TrailingWindow | src/components/Chart.jsx:31-55 | for other ranges the window is sorted by date, is a suffix of the sorted rows, and holds exactly the ticker's rows dated on or after the start |
| Chart.WindowKeepsLatest | src/components/Chart.jsx:34-53 | 1Y, 5Y and 10Y windows end with the ticker's latest row |
| Chart.Bases | src/components/Chart.jsx:72-92 | both percentage bases are non-zero, so neither division at lines 95-96 can fail |
| Chart.StartValues | src/components/Chart.jsx:72-92 | the method's `let` updates compute exactly `Bases` |
| Chart.TrendsOf | src/components/Chart.jsx:58-66 | one trend pair per window row |
| Chart.TrendFields | src/components/Chart.jsx:58-67 | two `calculateTrendlines` calls, zipped, compute exactly `TrendsOf` |
| Chart.SeriesOver | src/components/Chart.jsx:58-154 | one output row per window row, each with its row; trend fields appear exactly when a trend is asked for and the window has more than one row |
| Chart.ChartSeries | src/components/Chart.jsx:25-157 | no ticker gives `[]`; otherwise the series over the window |
| Chart.ComputeChartData | src/components/Chart.jsx:25-157 | the memo computes exactly `ChartSeries` |
| Chart.PctRoundTrip | src/components/Chart.jsx:95-96 | the percentage undoes: base + base·pct/100 gives the value back |
| Chart.UnitsShowsPrices | src/components/Chart.jsx:68-69 | in units mode each row shows its metal and USD price, with 0 for a falsy one |
| Chart.RelativeStartsAtZero | src/components/Chart.jsx:127-129 | in relative mode the window's first row shows 0 % when its price is non-zero |
| Chart.RelativeIsChangeFromWindowStart | src/components/Chart.jsx:77-80 | each relative metal and USD value is the percent change from the window's first row |
| Chart.AbsoluteBaseIsEarliest | src/components/Chart.jsx:130-136 | the absolute base is taken from the ticker's earliest row over the whole data set, whatever the window |
| Chart.AbsoluteIsRelativeOnSortedMax | src/components/Chart.jsx:81-92 | with Max over date-ordered rows, the absolute and relative bases coincide |
| Chart.MaxAbs | src/components/Chart.jsx:163 | the largest absolute value: it bounds every value and is attained by one |
| Chart.AxisThresholds | src/components/Chart.jsx:160-174 | the axis config follows the 0 / 0.001 / 1 thresholds on the largest magnitude |
| Chart.AxisScaleRange | src/components/Chart.jsx:165-173 | the chosen scale brings a sub-ounce maximum below 1000, and a maximum of 0.001 or more to at least 1 |
| Chart.SubOunceTicksBelowThousand | src/components/Chart.jsx:176-180 | on a sub-ounce axis the scale is 1000 or 10⁶, and every non-zero value ticks as value × scale, with magnitude below 1000 |
| Chart.TooltipUnitRange | src/components/Chart.jsx:182-194 | outside units mode the value prints as a percentage; in units mode 0 prints "0 oz", magnitude ≥ 1 prints the value in oz, [0.001, 1) prints value·1000 in m oz and below 0.001 prints value·10⁶ in µ oz, and each scaled value has magnitude below 1000 |
| Chart.FormatUSD | src/components/Chart.jsx:196-199 | the value prints in dollars exactly in units mode, otherwise as a percentage, and the number is unchanged |
| RoiCalc.Years | src/components/subcomponents1/subcomponents2/RoiCalc.jsx:12-14 | years × 365.25 × 86 400 000 is the time difference in ms; years > 0 exactly when the end date is later |
| RoiCalc.ComputeGrowth | src/components/subcomponents1/subcomponents2/RoiCalc.jsx:8-21 | null exactly when a value is missing or the start value is 0; otherwise it carries the years |
| RoiCalc.TotalGrowthIsPercentChange | src/components/subcomponents1/subcomponents2/RoiCalc.jsx:11 | the start value grown by the total growth is the end value |
| RoiCalc.AnnualizedGuard | src/components/subcomponents1/subcomponents2/RoiCalc.jsx:16-19 | the annualized growth is 0 unless years > 0 and both values are positive |
| RoiCalc.AnnualizedSignMatchesTotal | src/components/subcomponents1/subcomponents2/RoiCalc.jsx:16-19 | over a positive span between positive values, the annualized and total growth have the same sign |
| RoiCalc.TimeframeData | src/components/subcomponents1/subcomponents2/RoiCalc.jsx:28-33 | a list is used as is; otherwise the lowercase key wins, then the exact key, else `[]` |
| RoiCalc.AllStats | src/components/subcomponents1/subcomponents2/RoiCalc.jsx:23-64 | stats exist exactly with data, a ticker and a non-empty selection; USD growth runs from the first to the last item; metal stats exist exactly when all four inputs are truthy, and are then the growth of the USD/metal ratio from the first to the last item |
| RoiCalc.GrowthFactorsCompose | src/components/subcomponents1/subcomponents2/RoiCalc.jsx:52-60 | the USD growth factor is the metal-priced growth factor times the metal's own growth factor |
| Text.ToLower | src/components/SearchStock.jsx:12 | same length; ASCII capitals become lower case, every other character is kept, and no ASCII capital remains |
| Text.ToLowerIdempotent | src/components/SearchStock.jsx:12-16 | lowering twice is lowering once |
| Text.Contains | src/components/SearchStock.jsx:15-16 | `includes` holds exactly when the query occurs at some position |
| SearchStock.Take | src/components/SearchStock.jsx:17 | `slice(0, n)` is the prefix of length min(n, len) |
| SearchStock.FilteredTickersBounds | src/components/SearchStock.jsx:10-18 | an empty query gives `[]`; there are at most 10 results, each a listed ticker that matches |
| SearchStock.FilteredTickersAreFirstMatches | src/components/SearchStock.jsx:13-17 | the results are the first min(10, number of matches) matches in the tickers' order, a subsequence of the list, and so all the matches when there are at most 10 |
| SearchStock.SearchBox.constructor | src/components/SearchStock.jsx:6-8 | the query starts empty and the list closed |
| SearchStock.SearchBox.Type | src/components/SearchStock.jsx:37-40 | typing sets the query and opens the list; the selection is unchanged |
| SearchStock.SearchBox.HandleSelect | src/components/SearchStock.jsx:20-24 | selecting stores the ticker, clears the query and closes the list, so nothing is shown |
| ToolTip.Find | src/components/subcomponents/ToolTip.jsx:6-7 | none exactly when no entry has the key; otherwise an entry with the key |
| ToolTip.FindIsFirst | src/components/subcomponents/ToolTip.jsx:5-7 | the entry found is the first with the key, whatever the payload order |
| ToolTip.Render | src/components/subcomponents/ToolTip.jsx:3-43 | nothing exactly when inactive or the payload is empty; otherwise the found metal and USD values, 0 when missing |
| ToolTip.MetalPriceUndoesOunces | src/components/subcomponents/ToolTip.jsx:12-18 | with a positive ounce price, ounces × metal price = USD price; otherwise the metal price is 0 |
| ToolTip.OunceRowShown | src/components/subcomponents/ToolTip.jsx:15-18 | the "1 Oz" row's condition holds exactly when both prices are positive |
| ToolTip.MissingEntryReadsZero | src/components/subcomponents/ToolTip.jsx:9-10 | a missing entry reads 0 |
| TimeFrame.ValidDays | scripts/TimeFrame.py:44-45 | exactly the trading days in `[start, now]`, kept in their original order (a subsequence of the trading days) |
| TimeFrame.Select | scripts/TimeFrame.py:52-63 | the selection has min(total, 100) days |
| TimeFrame.IndexInRange | scripts/TimeFrame.py:62-63 | every linspace index is a valid position |
| TimeFrame.IndexStrictlyIncreasing | scripts/TimeFrame.py:62 | with more than 100 days the indices strictly increase |
| TimeFrame.SelectionInRange | scripts/TimeFrame.py:41-45 | every selected day is a trading day inside the range |
| TimeFrame.FewDaysKeptWhole | scripts/TimeFrame.py:47-59 | no valid day gives `[]`; at most 100 keeps them all, in order |
| TimeFrame.ManyDaysThinned | scripts/TimeFrame.py:61-63 | more than 100 days give exactly 100, strictly ascending, with the first and last valid day |
| TimeFrame.TimeframeLabelsDistinct | scripts/TimeFrame.py:27-36 | the eight timeframe labels are distinct |
| TimeFrame.GetTimeframeDates | scripts/TimeFrame.py:38-69 | the result has exactly the eight labels, each mapped to its formatted selection |
| GetStockData.AllKeys | scripts/GetStockData.py:126-127 | the labels sorted: a permutation in ascending string order |
| GetStockData.SymbolOf | scripts/GetStockData.py:138 | the symbol is paired with the label in the map |
| GetStockData.FirstClose | scripts/GetStockData.py:139-157 | none exactly when no frame has a close for the symbol and date |
| GetStockData.FirstCloseIsFirst | scripts/GetStockData.py:143-157 | the scan takes the value of the first frame that has one |
| GetStockData.LookupClose | scripts/GetStockData.py:139-157 | the `found`/`break` loop computes `FirstClose` |
| GetStockData.BuildRow | scripts/GetStockData.py:134-159 | the inner loop builds exactly `RowFor` |
| GetStockData.BuildRows | scripts/GetStockData.py:133-161 | one row per date, each `RowFor` |
| GetStockData.BuildFinalData | scripts/GetStockData.py:117-166 | the result has exactly the timeframe labels, each mapped to its table |
| GetStockData.TableRowsWellFormed | scripts/GetStockData.py:133-161 | every row has one cell per column and starts with its date |
| GetStockData.HeaderIsDateThenSortedLabels | scripts/GetStockData.py:126-129 | the header is "Date" then every label once, sorted |
| GetStockData.CellSemantics | scripts/GetStockData.py:139-159 | a cell is None exactly when no frame has the close, and otherwise the first frame's close |
| GetStockData.IndexOf | scripts/GetStockData.py:187-189 | `list.index`: the first position of the value, or an error exactly when it is absent |
| GetStockData.FastData | scripts/GetStockData.py:178-206 | only a "1y" key, present exactly when "1y" exists and has Date, Gold and VOO columns |
| GetStockData.FastDataProjects | scripts/GetStockData.py:191-204 | the same row count, and each row is the Date, Gold and VOO cells of its source row |
| GetStockData.FastDataKeepsDates | scripts/GetStockData.py:180-204 | on a built table holding Gold and VOO, FastData exists and keeps every row's date |
| GetStockData.ComputeFastData | scripts/GetStockData.py:178-206 | the appending loop computes exactly `FastData` |
| GetStockData.TickersList | scripts/GetStockData.py:214-222 | one entry per label, each with symbol = name, sorted by symbol, covering every label |
| GetStockData.BuildTickersList | scripts/GetStockData.py:214-222 | the appending loop computes exactly `TickersList` |
| GetStockData.AllDatesMembers | scripts/GetStockData.py:54-56 | a date is collected exactly when some timeframe lists it |
| GetStockData.FetchStartIsEarliest | scripts/GetStockData.py:58-63 | there is no start exactly when no timeframe has a date; otherwise it is a needed date and no needed date sorts before it |
| FetchMetals.Record | scripts/fetch_metals.py:41-45 | the date gets this metal's close; every other date is untouched |
| FetchMetals.RecordKeepsOthers | scripts/fetch_metals.py:41-45 | recording one close leaves every other metal's entry as it was |
| FetchMetals.RecordHistoryEffect | scripts/fetch_metals.py:38-45 | the history adds its dates; other metals are untouched; this metal sits on a date exactly when it did before or the history has the date |
| FetchMetals.RecordHistoryValue | scripts/fetch_metals.py:38-45 | on a date of the history this metal holds the close of the last row with that date; on any other date it keeps its old close |
| FetchMetals.RecordRows | scripts/fetch_metals.py:38-45 | the inner loop computes exactly `RecordHistory` |
| FetchMetals.AddMetalEffect | scripts/fetch_metals.py:28-45 | a failed or empty download adds nothing; otherwise it adds its dates and touches only its own metal |
| FetchMetals.AddMetalValue | scripts/fetch_metals.py:28-45 | on a downloaded date the metal holds the last close of that date; elsewhere its entry is unchanged |
| FetchMetals.MergeEntries | scripts/fetch_metals.py:27-48 | a date is present exactly when some metal downloaded it; each metal sits exactly on its own dates |
| FetchMetals.MergeValues | scripts/fetch_metals.py:27-48 | after all metals, each metal's entry on a date it downloaded is the last close of that date: later metals never overwrite it |
| FetchMetals.MetalsTable | scripts/fetch_metals.py:9-48 | the three-metal table: its dates are the union of the downloaded dates, each metal sits exactly on its own dates, and there it holds the last close its download gave for that date |
| FetchMetals.SortedItems | scripts/fetch_metals.py:51 | exactly the table's `(date, entry)` items, sorted by date |
| FetchMetals.FetchData | scripts/fetch_metals.py:17-51 | the output items are exactly the merged table's, one per date, in date order |
| CollectData.CleanTicker | collect_data.py:27 | same length; every '.' becomes '-', other characters are kept, and no '.' remains |
| CollectData.GetSp500Tickers | collect_data.py:16-31 | a failure gives `[]`; otherwise one cleaned ticker per symbol, in order |
| CollectData.CleanedTickers | collect_data.py:27 | no cleaned ticker has a '.', and a ticker without one is unchanged |
| CollectData.TickersToFetch | collect_data.py:98-104 | nothing is fetched without tickers; otherwise the tickers plus GLD |
| CollectData.PriceMapEntries | collect_data.py:66-73 | one entry per date with a non-NaN close, holding that date's last such close |
| CollectData.CollectTickersEntries | collect_data.py:61-80 | a ticker is saved exactly when it is listed, has a Close column and a non-NaN close; its map is its price map |
| CollectData.ProcessAndSave | collect_data.py:48-93 | the loop over the tickers computes exactly `OutputData` |
| CollectData.SaveCases | collect_data.py:50-52 | no data or an empty frame saves nothing; a frame without per-ticker columns saves `{}` |

## Left out

- Network and files: `fetch`, `yf.download`, `yf.Ticker().history`, `requests.get`, `pd.read_html`, `json.dump`, `os.makedirs` and the prints. Their results are parameters: the frames, the histories, the scrape and `fetch`.
- Rendering: recharts, JSX markup, colours and `toLocaleDateString`.
- The store (`src/store.js`). The selected ticker, time range and reference metal are parameters.
- Floating point:
  - IEEE rounding of `+ − × ÷`;
  - the exact results of `Math.log`, `Math.exp` and `Math.pow`, which are parameters;
  - `round(·, 4)` and `round(·, 2)`;
  - `toFixed` and `toPrecision`, which the labels return as numbers, before formatting;
  - NaN and Infinity.
- Calendar arithmetic: `Date` parsing and `setFullYear` (the `yearsBefore` parameter), `datetime.now()` (the `now` parameter), and `strftime` (the `format` parameter).
- The chunked download in `GetStockData.py`:
  - the chunked download loop;
  - the `ASSETS` and `SP500_TICKERS` constants;
  - the building of `tickers_map`.

  The map is a parameter, given as its insertion-ordered `(label, symbol)` pairs.
- The single-ticker branch of `process_and_save` and of the frame scan. The source has no logic there: it saves `{}` and skips the frame.
- `fetch_data` in `collect_data.py`: it is the download.
- The `!startItem || !endItem` check in RoiCalc. The items of a non-empty list are never null in the model.
- The Rhodium entry, which is commented out of `METALS`.
- A view mode other than units, relative and absolute. The settings offer only these three.
- Analysis.Trendlines: for two or more rows it requires two distinct dates. The source divides by `n·Σx² − (Σx)²` unguarded and yields NaN, which is not modelled.
- Analysis.CalculateTrendlines: it has the same requirement, for the same reason.
- Chart.ComputeChartData: its `TrendDefined` requirement asks for two distinct dates for the same reason, and only when a trend is drawn over more than one row.
- GetStockData.BuildFinalData: it requires distinct timeframe labels. This holds for a dict's keys, which the model receives as pairs.
- Text.ToLower: lowers the ASCII letters A-Z only. JavaScript's `toLowerCase` also folds other Unicode capitals, and can change the length of a string (for example U+0130), which the model does not capture.
- SearchStock.SearchBox.Type: it models `onChange` only. The focus and blur handlers, including the 200 ms close timer, are not modelled.
