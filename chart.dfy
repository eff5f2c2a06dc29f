/**
 * The `chartData` and `metalAxisConfig` memos of the chart component and its
 * three value formatters.
 *
 * `chartData` keeps the selected ticker's rows, cuts a trailing 1/5/10-year
 * window (or keeps everything for Max), optionally adds the metal and USD
 * trendlines, and re-expresses both prices in the chosen view mode: raw
 * units, percent change from the window's first row, or percent change from
 * the ticker's first row overall.
 */
module Chart {
  import opened Wrappers
  import opened Seqs
  import opened Rows
  import opened Analysis

  /** The time-range buttons, and any other value the store may hold. */
  datatype TimeRange = Y1 | Y5 | Y10 | Max | Other

  datatype ViewMode = Units | Relative | Absolute

  /** `'none'`, or a trendline type; only `'log'` fits in log space. */
  datatype TrendSetting = NoTrend | Trend(kind: TrendKind)

  /** The metal and USD trendline values merged into one chart row. */
  datatype TrendPair = TrendPair(metal: Bands, usd: Bands)

  /** One element of `chartData`: the row with `priceMetal`, `PriceUSD` and the trend fields. */
  datatype ChartPoint = ChartPoint(row: Row, priceMetal: real, priceUSD: real, trends: Option<TrendPair>)

  /** `(metalBase, usdBase)`: the prices the percentages are taken relative to. */
  datatype Base = Base(metal: real, usd: real)

  /**
   * `startDate.setFullYear(lastDate.getFullYear() - n)` is the parameter
   * `yearsBefore(lastDate, n)`; the fallback `new Date(0)` is the epoch.
   */
  function WindowStart(range: TimeRange, last: Date, yearsBefore: (Date, nat) -> Date): Date {
    match range
    case Y1 => yearsBefore(last, 1)
    case Y5 => yearsBefore(last, 5)
    case Y10 => yearsBefore(last, 10)
    case _ => 0
  }

  /** Going back some years never moves a date forward. */
  ghost predicate GoesBack(yearsBefore: (Date, nat) -> Date) {
    forall d, n :: yearsBefore(d, n) <= d
  }

  /** Lines 28-55: the selected ticker's rows, cut to the trailing window unless the range is Max. */
  function Window(data: seq<Row>, ticker: string, range: TimeRange, yearsBefore: (Date, nat) -> Date): (w: seq<Row>)
    ensures forall x :: x in w ==> x in data && x.ticker == ticker
    ensures range == Max ==> w == RowsOf(data, ticker)
  {
    var rows := RowsOf(data, ticker);
    if range == Max || |rows| == 0 then rows
    else
      var sorted := SortByDate(rows);
      var start := WindowStart(range, sorted[|sorted| - 1].date, yearsBefore);
      Filter(sorted, OnOrAfter(start))
  }

  /** The filter of line 53: rows dated on or after `start`. */
  function OnOrAfter(start: Date): Row -> bool {
    (x: Row) => x.date >= start
  }

  /** `((v - base) / base) * 100`. */
  function Pct(v: real, base: real): real
    requires base != 0.0
  {
    ((v - base) / base) * 100.0
  }

  /** The value shown for a price in the given view mode. */
  function Shown(v: real, base: real, mode: ViewMode): real
    requires base != 0.0
  {
    if mode == Units then v else Pct(v, base)
  }

  /** The first row of the ticker's whole history, by date (lines 86-92 and 131-136). */
  function Inception(data: seq<Row>, ticker: string): Option<Row> {
    var all := SortByDate(RowsOf(data, ticker));
    if |all| > 0 then Some(all[0]) else None
  }

  /** The base of each price for the view mode; every base is non-zero. */
  function Bases(data: seq<Row>, ticker: string, window: seq<Row>, metal: string, mode: ViewMode): (b: Base)
    ensures b.metal != 0.0 && b.usd != 0.0
  {
    match mode
    case Units => Base(1.0, 1.0)
    case Relative =>
      if |window| > 0 then Base(ValueOrOne(window[0], MetalKey(metal)), ValueOrOne(window[0], PriceUSDKey))
      else Base(1.0, 1.0)
    case Absolute =>
      match Inception(data, ticker)
      case Some(first) => Base(ValueOrOne(first, MetalKey(metal)), ValueOrOne(first, PriceUSDKey))
      case None => Base(1.0, 1.0)
  }

  function PointFor(d: Row, metal: string, b: Base, mode: ViewMode, trends: Option<TrendPair>): ChartPoint
    requires b.metal != 0.0 && b.usd != 0.0
  {
    ChartPoint(d, Shown(ValueOrZero(d, MetalKey(metal)), b.metal, mode), Shown(ValueOrZero(d, PriceUSDKey), b.usd, mode), trends)
  }

  /** A trend over the window divides by `n * sumX2 - sumX * sumX`, so it needs two dates. */
  ghost predicate TrendDefined(data: seq<Row>, ticker: string, range: TimeRange, trend: TrendSetting,
                               yearsBefore: (Date, nat) -> Date) {
    var w := Window(data, ticker, range, yearsBefore);
    trend.Trend? && |w| > 1 ==> HasTwoDates(w)
  }

  /** The trend fields of each row: both trendlines over the same window, row by row (lines 58-70). */
  function TrendsOf(w: seq<Row>, kind: TrendKind, metal: string, ln: real -> real, exp: real -> real)
    : (t: seq<Option<TrendPair>>)
    requires |w| > 1 && HasTwoDates(w)
    ensures |t| == |w|
    ensures forall i :: 0 <= i < |t| ==> t[i].Some?
  {
    Zip(Trendlines(w, kind, MetalKey(metal), ln, exp), Trendlines(w, kind, PriceUSDKey, ln, exp))
  }

  /** The two trendlines' bands, row by row. */
  function Zip(mt: TrendResult, ut: TrendResult): (t: seq<Option<TrendPair>>)
    requires mt.Trended? && ut.Trended? && |mt.points| == |ut.points|
    ensures |t| == |mt.points|
    ensures forall i :: 0 <= i < |t| ==> t[i] == Some(TrendPair(mt.points[i].bands, ut.points[i].bands))
  {
    seq(|mt.points|, i requires 0 <= i < |mt.points| => Some(TrendPair(mt.points[i].bands, ut.points[i].bands)))
  }

  /** No trend fields on any row. */
  function NoTrends(n: nat): (t: seq<Option<TrendPair>>)
    ensures |t| == n && forall i :: 0 <= i < n ==> t[i] == None
  {
    seq(n, _ => None)
  }

  /** The window's rows with their shown prices and trend fields. */
  function Series(w: seq<Row>, metal: string, b: Base, mode: ViewMode, trends: seq<Option<TrendPair>>)
    : (r: seq<ChartPoint>)
    requires b.metal != 0.0 && b.usd != 0.0 && |trends| == |w|
    ensures |r| == |w|
    ensures forall i :: 0 <= i < |r| ==> r[i] == PointFor(w[i], metal, b, mode, trends[i])
  {
    seq(|w|, i requires 0 <= i < |w| => PointFor(w[i], metal, b, mode, trends[i]))
  }

  /** Lines 58-154 on the window `w`: the trend branch when a trend is asked for and `w` has two rows. */
  function SeriesOver(data: seq<Row>, ticker: string, w: seq<Row>, trend: TrendSetting, metal: string, mode: ViewMode,
                      ln: real -> real, exp: real -> real): (r: seq<ChartPoint>)
    requires trend.Trend? && |w| > 1 ==> HasTwoDates(w)
    ensures |r| == |w|
    ensures forall i :: 0 <= i < |r| ==> r[i].row == w[i]
    ensures forall i :: 0 <= i < |r| ==> (r[i].trends.Some? <==> trend.Trend? && |w| > 1)
  {
    var trends := if trend.Trend? && |w| > 1 then TrendsOf(w, trend.kind, metal, ln, exp) else NoTrends(|w|);
    Series(w, metal, Bases(data, ticker, w, metal, mode), mode, trends)
  }

  /** The specification of the `chartData` memo. */
  function ChartSeries(data: seq<Row>, ticker: string, range: TimeRange, trend: TrendSetting, metal: string,
                       mode: ViewMode, yearsBefore: (Date, nat) -> Date, ln: real -> real, exp: real -> real)
    : (r: seq<ChartPoint>)
    requires TrendDefined(data, ticker, range, trend, yearsBefore)
    ensures ticker == "" ==> r == []
    ensures ticker != "" ==> r == SeriesOver(data, ticker, Window(data, ticker, range, yearsBefore), trend, metal, mode, ln, exp)
  {
    if ticker == "" then []
    else SeriesOver(data, ticker, Window(data, ticker, range, yearsBefore), trend, metal, mode, ln, exp)
  }

  // ---------------------------------------------------------------------------
  // The memo as the component computes it

  /** Lines 28-55: `filteredData` is reassigned, sorted in place and cut unless the range is Max. */
  method WindowRows(data: seq<Row>, ticker: string, range: TimeRange, yearsBefore: (Date, nat) -> Date)
    returns (filteredData: seq<Row>)
    ensures filteredData == Window(data, ticker, range, yearsBefore)
  {
    filteredData := RowsOf(data, ticker);
    if range != Max && |filteredData| > 0 {
      filteredData := SortByDate(filteredData);
      var lastDate := filteredData[|filteredData| - 1].date;
      var startDate := WindowStart(range, lastDate, yearsBefore);
      filteredData := Filter(filteredData, (x: Row) => x.date >= startDate);
      assert filteredData == Filter(SortByDate(RowsOf(data, ticker)), OnOrAfter(startDate));
    }
  }

  /** Lines 72-92 and 125-136: the start values, 1 unless the mode picks a row. */
  method StartValues(data: seq<Row>, ticker: string, filteredData: seq<Row>, metal: string, mode: ViewMode)
    returns (b: Base)
    ensures b == Bases(data, ticker, filteredData, metal, mode)
  {
    var metalKey := MetalKey(metal);
    var startMetal, startUSD := 1.0, 1.0;
    if mode == Relative && |filteredData| > 0 {
      startMetal := ValueOrOne(filteredData[0], metalKey);
      startUSD := ValueOrOne(filteredData[0], PriceUSDKey);
    } else if mode == Absolute {
      var tickerData := SortByDate(RowsOf(data, ticker));
      if |tickerData| > 0 {
        startMetal := ValueOrOne(tickerData[0], metalKey);
        startUSD := ValueOrOne(tickerData[0], PriceUSDKey);
      }
    }
    b := Base(startMetal, startUSD);
  }

  /** `chartData`: `filteredData` is reassigned and sorted in place, the bases start at 1. */
  method ComputeChartData(data: seq<Row>, ticker: string, range: TimeRange, trend: TrendSetting, metal: string,
                          mode: ViewMode, yearsBefore: (Date, nat) -> Date, ln: real -> real, exp: real -> real)
    returns (r: seq<ChartPoint>)
    requires TrendDefined(data, ticker, range, trend, yearsBefore)
    ensures r == ChartSeries(data, ticker, range, trend, metal, mode, yearsBefore, ln, exp)
  {
    if ticker == "" {
      return [];
    }
    var filteredData := WindowRows(data, ticker, range, yearsBefore);
    var b := StartValues(data, ticker, filteredData, metal, mode);
    var n := |filteredData|;
    if trend.Trend? && |filteredData| > 1 {
      var trends := TrendFields(filteredData, trend.kind, metal, ln, exp);
      r := Series(filteredData, metal, b, mode, trends);
    } else {
      r := Series(filteredData, metal, b, mode, NoTrends(n));
    }
  }

  /** Lines 58-70: both trendlines over the window, zipped row by row. */
  method TrendFields(filteredData: seq<Row>, kind: TrendKind, metal: string, ln: real -> real, exp: real -> real)
    returns (trends: seq<Option<TrendPair>>)
    requires |filteredData| > 1 && HasTwoDates(filteredData)
    ensures trends == TrendsOf(filteredData, kind, metal, ln, exp)
  {
    var metalTrendData := CalculateTrendlines(filteredData, kind, MetalKey(metal), ln, exp);
    var usdTrendData := CalculateTrendlines(filteredData, kind, PriceUSDKey, ln, exp);
    trends := Zip(metalTrendData, usdTrendData);
  }

  // ---------------------------------------------------------------------------
  // Properties of the window

  /** For Max the rows keep the order they were delivered in: no sort, no cut. */
  lemma MaxKeepsDeliveredOrder(data: seq<Row>, ticker: string, yearsBefore: (Date, nat) -> Date)
    ensures Subseq(Window(data, ticker, Max, yearsBefore), data)
  {
    RowsOfIsSubseq(data, ticker);
  }

  /**
   * For any other range the window is sorted by date, holds exactly the
   * ticker's rows dated on or after the start, and is a suffix of the sorted rows.
   */
  lemma TrailingWindow(data: seq<Row>, ticker: string, range: TimeRange, yearsBefore: (Date, nat) -> Date)
    requires range != Max && |RowsOf(data, ticker)| > 0
    ensures var sorted := SortByDate(RowsOf(data, ticker));
      var start := WindowStart(range, sorted[|sorted| - 1].date, yearsBefore);
      var w := Window(data, ticker, range, yearsBefore);
      && (forall i, j :: 0 <= i < j < |w| ==> w[i].date <= w[j].date)
      && (forall x :: x in w <==> x in data && x.ticker == ticker && x.date >= start)
      && (exists k :: 0 <= k <= |sorted| && w == sorted[k..])
  {
    var rows := RowsOf(data, ticker);
    var sorted := SortByDate(rows);
    var start := WindowStart(range, sorted[|sorted| - 1].date, yearsBefore);
    assert Sorted(sorted, DateLe);
    SuffixFromStart(sorted, start);
    SortByMembers(rows, DateLe);
    var w := Window(data, ticker, range, yearsBefore);
    assert w == Filter(sorted, OnOrAfter(start));
  }

  /** The rows of a date-sorted sequence from `start` on: still sorted, and a suffix. */
  lemma SuffixFromStart(sorted: seq<Row>, start: Date)
    requires Sorted(sorted, DateLe)
    ensures var w := Filter(sorted, OnOrAfter(start));
      && (forall i, j :: 0 <= i < j < |w| ==> w[i].date <= w[j].date)
      && (exists k :: 0 <= k <= |sorted| && w == sorted[k..])
  {
    var p := OnOrAfter(start);
    FilterSorted(sorted, DateLe, p);
    FilterUpwardClosedIsSuffix(sorted, DateLe, p);
    var w := Filter(sorted, p);
    assert forall i, j :: 0 <= i < j < |w| ==> DateLe(w[i], w[j]);
  }

  /** A 1, 5 or 10 year window always ends with the ticker's latest row. */
  lemma WindowKeepsLatest(data: seq<Row>, ticker: string, range: TimeRange, yearsBefore: (Date, nat) -> Date)
    requires range == Y1 || range == Y5 || range == Y10
    requires |RowsOf(data, ticker)| > 0 && GoesBack(yearsBefore)
    ensures var sorted := SortByDate(RowsOf(data, ticker));
      var w := Window(data, ticker, range, yearsBefore);
      |w| > 0 && w[|w| - 1] == sorted[|sorted| - 1]
  {
    var rows := RowsOf(data, ticker);
    var sorted := SortByDate(rows);
    var last := sorted[|sorted| - 1];
    var start := WindowStart(range, last.date, yearsBefore);
    StartNotAfter(range, last.date, yearsBefore);
    assert start <= last.date;
    assert Sorted(sorted, DateLe);
    LatestSurvives(sorted, start);
    var w := Window(data, ticker, range, yearsBefore);
    assert w == Filter(sorted, OnOrAfter(start));
    assert |w| > 0 && w[|w| - 1] == last;
  }

  lemma LatestSurvives(sorted: seq<Row>, start: Date)
    requires Sorted(sorted, DateLe) && |sorted| > 0 && start <= sorted[|sorted| - 1].date
    ensures var w := Filter(sorted, OnOrAfter(start)); |w| > 0 && w[|w| - 1] == sorted[|sorted| - 1]
  {
    FilterKeepsLast(sorted, DateLe, OnOrAfter(start));
  }

  lemma StartNotAfter(range: TimeRange, last: Date, yearsBefore: (Date, nat) -> Date)
    requires GoesBack(yearsBefore)
    ensures range in {Y1, Y5, Y10} ==> WindowStart(range, last, yearsBefore) <= last
  {
    assert yearsBefore(last, 1) <= last && yearsBefore(last, 5) <= last && yearsBefore(last, 10) <= last;
  }

  // ---------------------------------------------------------------------------
  // Properties of the view modes

  /** The percentage undoes: `base + base * pct / 100` is the value again. */
  lemma PctRoundTrip(v: real, base: real)
    requires base != 0.0
    ensures base + base * Pct(v, base) / 100.0 == v
  {
    var q := (v - base) / base;
    assert base * q == v - base;
  }

  /** In units mode a chart row shows the row's prices, a falsy one as 0. */
  lemma UnitsShowsPrices(data: seq<Row>, ticker: string, range: TimeRange, trend: TrendSetting, metal: string,
                         yearsBefore: (Date, nat) -> Date, ln: real -> real, exp: real -> real)
    requires TrendDefined(data, ticker, range, trend, yearsBefore)
    ensures var r := ChartSeries(data, ticker, range, trend, metal, Units, yearsBefore, ln, exp);
      forall i :: 0 <= i < |r| ==>
        r[i].priceMetal == ValueOrZero(r[i].row, MetalKey(metal)) && r[i].priceUSD == ValueOrZero(r[i].row, PriceUSDKey)
  {
  }

  /** In relative mode the window's first row shows 0 % whenever its price is non-zero. */
  lemma RelativeStartsAtZero(data: seq<Row>, ticker: string, range: TimeRange, trend: TrendSetting, metal: string,
                             yearsBefore: (Date, nat) -> Date, ln: real -> real, exp: real -> real)
    requires TrendDefined(data, ticker, range, trend, yearsBefore)
    ensures var r := ChartSeries(data, ticker, range, trend, metal, Relative, yearsBefore, ln, exp);
      && (|r| > 0 && ValueOrZero(r[0].row, MetalKey(metal)) != 0.0 ==> r[0].priceMetal == 0.0)
      && (|r| > 0 && ValueOrZero(r[0].row, PriceUSDKey) != 0.0 ==> r[0].priceUSD == 0.0)
  {
  }

  /** Every relative value is the percent change from the window's first row. */
  lemma RelativeIsChangeFromWindowStart(data: seq<Row>, ticker: string, range: TimeRange, trend: TrendSetting,
                                        metal: string, yearsBefore: (Date, nat) -> Date, ln: real -> real,
                                        exp: real -> real)
    requires TrendDefined(data, ticker, range, trend, yearsBefore)
    ensures var r := ChartSeries(data, ticker, range, trend, metal, Relative, yearsBefore, ln, exp);
      forall i :: 0 <= i < |r| ==>
        && r[i].priceMetal == Pct(ValueOrZero(r[i].row, MetalKey(metal)), ValueOrOne(r[0].row, MetalKey(metal)))
        && r[i].priceUSD == Pct(ValueOrZero(r[i].row, PriceUSDKey), ValueOrOne(r[0].row, PriceUSDKey))
  {
  }

  /** The absolute base is the price of the ticker's earliest row in the whole data set. */
  lemma AbsoluteBaseIsEarliest(data: seq<Row>, ticker: string, window: seq<Row>, metal: string)
    requires |RowsOf(data, ticker)| > 0
    ensures var first := Inception(data, ticker);
      && first.Some? && first.value in data && first.value.ticker == ticker
      && (forall x :: x in data && x.ticker == ticker ==> first.value.date <= x.date)
      && Bases(data, ticker, window, metal, Absolute) ==
           Base(ValueOrOne(first.value, MetalKey(metal)), ValueOrOne(first.value, PriceUSDKey))
  {
    var rows := RowsOf(data, ticker);
    DateLeIsTotalPreorder();
    SortByHeadIsLeast(rows, DateLe);
  }

  /** With Max over rows already in date order, absolute and relative modes agree. */
  lemma AbsoluteIsRelativeOnSortedMax(data: seq<Row>, ticker: string, metal: string, yearsBefore: (Date, nat) -> Date)
    requires forall i, j :: 0 <= i < j < |RowsOf(data, ticker)| ==> RowsOf(data, ticker)[i].date <= RowsOf(data, ticker)[j].date
    ensures var w := Window(data, ticker, Max, yearsBefore);
      Bases(data, ticker, w, metal, Absolute) == Bases(data, ticker, w, metal, Relative)
  {
    var rows := RowsOf(data, ticker);
    assert Sorted(rows, DateLe);
    SortBySortedIsIdentity(rows, DateLe);
  }

  // ---------------------------------------------------------------------------
  // The metal axis and the formatters

  function Abs(x: real): (a: real)
    ensures a >= 0.0 && (a == x || a == -x)
  {
    if x < 0.0 then -x else x
  }

  /** `Math.max(...values.map(Math.abs))` on a non-empty list. */
  function MaxAbs(values: seq<real>): (m: real)
    requires |values| > 0
    ensures forall i :: 0 <= i < |values| ==> Abs(values[i]) <= m
    ensures exists i :: 0 <= i < |values| && Abs(values[i]) == m
  {
    if |values| == 1 then Abs(values[0])
    else
      var rest := MaxAbs(values[1..]);
      assert forall i :: 1 <= i < |values| ==> values[i] == values[1..][i - 1];
      if Abs(values[0]) >= rest then Abs(values[0]) else rest
  }

  /** `{ scale, unit, label }` of the metal axis (`tag` is `label`). */
  datatype AxisConfig = AxisConfig(scale: real, unit: string, tag: string)

  /** Lines 160-174, on the largest absolute `priceMetal`. */
  function AxisFor(maxVal: real): AxisConfig {
    if maxVal == 0.0 then AxisConfig(1.0, "Ounces", "Oz")
    else if maxVal < 0.001 then AxisConfig(1000000.0, "micro Oz", "µoz")
    else if maxVal < 1.0 then AxisConfig(1000.0, "milli Oz", "moz")
    else AxisConfig(1.0, "Ounces", "oz")
  }

  /** `chartData.map(d => d.priceMetal)`. */
  function MetalValues(chartData: seq<ChartPoint>): (vs: seq<real>)
    ensures |vs| == |chartData| && forall i :: 0 <= i < |chartData| ==> vs[i] == chartData[i].priceMetal
  {
    seq(|chartData|, i requires 0 <= i < |chartData| => chartData[i].priceMetal)
  }

  /** The `metalAxisConfig` memo. */
  function MetalAxisConfig(chartData: seq<ChartPoint>): AxisConfig {
    if |chartData| == 0 then AxisConfig(1.0, "Ounces", "Oz")
    else AxisFor(MaxAbs(MetalValues(chartData)))
  }

  /**
   * The axis unit brings the largest value below 1000 once scaled, and to at
   * least 1 when it is 0.001 or more.
   */
  lemma AxisScaleRange(maxVal: real)
    requires maxVal > 0.0
    ensures var c := AxisFor(maxVal);
      && (maxVal < 1.0 ==> maxVal * c.scale < 1000.0)
      && (maxVal >= 0.001 ==> maxVal * c.scale >= 1.0)
      && (c.scale == 1.0 <==> maxVal >= 1.0)
  {
  }

  /** The axis of a non-empty series follows the thresholds on its largest absolute value. */
  lemma AxisThresholds(chartData: seq<ChartPoint>)
    requires |chartData| > 0
    ensures var c := MetalAxisConfig(chartData);
      var m := MaxAbs(MetalValues(chartData));
      && (forall i :: 0 <= i < |chartData| ==> Abs(chartData[i].priceMetal) <= m)
      && (m == 0.0 ==> c == AxisConfig(1.0, "Ounces", "Oz"))
      && (0.0 < m < 0.001 ==> c.scale == 1000000.0 && c.tag == "µoz")
      && (0.001 <= m < 1.0 ==> c.scale == 1000.0 && c.tag == "moz")
      && (m >= 1.0 ==> c == AxisConfig(1.0, "Ounces", "oz"))
  {
  }

  /** What `formatMetalAxisTick` prints, before `toFixed` / `toPrecision` turn it into text. */
  datatype TickLabel = PercentTick(value: real) | ZeroTick | ScaledTick(value: real)

  /** Lines 176-180. */
  function FormatMetalAxisTick(value: real, mode: ViewMode, axis: AxisConfig): TickLabel {
    if mode != Units then PercentTick(value)
    else if value == 0.0 then ZeroTick
    else ScaledTick(value * axis.scale)
  }

  /**
   * On the axis of a series whose largest magnitude is below one ounce, every
   * non-zero value of the series ticks at a magnitude below 1000.
   */
  lemma SubOunceTicksBelowThousand(chartData: seq<ChartPoint>, i: nat)
    requires i < |chartData| && chartData[i].priceMetal != 0.0
    requires MaxAbs(MetalValues(chartData)) < 1.0
    ensures var c := MetalAxisConfig(chartData);
      var t := FormatMetalAxisTick(chartData[i].priceMetal, Units, c);
      && (c.scale == 1000.0 || c.scale == 1000000.0)
      && t == ScaledTick(chartData[i].priceMetal * c.scale) && Abs(t.value) < 1000.0
  {
    MaxAbsBounds(chartData, i);
    ScaledBelowThousand(chartData[i].priceMetal, MaxAbs(MetalValues(chartData)), MetalAxisConfig(chartData));
  }

  /** Every value's magnitude is at most the series' largest. */
  lemma MaxAbsBounds(chartData: seq<ChartPoint>, i: nat)
    requires i < |chartData|
    ensures Abs(chartData[i].priceMetal) <= MaxAbs(MetalValues(chartData))
  {
    assert MetalValues(chartData)[i] == chartData[i].priceMetal;
  }

  /** A non-zero value no larger in magnitude than a sub-ounce maximum ticks below 1000 on that maximum's axis. */
  lemma ScaledBelowThousand(v: real, m: real, c: AxisConfig)
    requires 0.0 < Abs(v) <= m < 1.0 && c == AxisFor(m)
    ensures c.scale == 1000.0 || c.scale == 1000000.0
    ensures var t := FormatMetalAxisTick(v, Units, c); t == ScaledTick(v * c.scale) && Abs(t.value) < 1000.0
  {
    AxisScaleRange(m);
    assert c.scale > 0.0;
    assert Abs(v * c.scale) == Abs(v) * c.scale;
    assert Abs(v) * c.scale <= m * c.scale;
  }

  /** What `formatMetalTooltip` prints: a percentage, `0 oz`, or a value in oz, m oz or µ oz. */
  datatype TooltipLabel = PercentLabel(value: real) | ZeroOz | Oz(value: real) | MilliOz(value: real) | MicroOz(value: real)

  /** Lines 182-194: per-value thresholds, independent of the axis. */
  function FormatMetalTooltip(value: real, mode: ViewMode): TooltipLabel {
    if mode != Units then PercentLabel(value)
    else if value == 0.0 then ZeroOz
    else if Abs(value) >= 1.0 then Oz(value)
    else if Abs(value) >= 0.001 then MilliOz(value * 1000.0)
    else MicroOz(value * 1000000.0)
  }

  /** Each non-zero value is printed in the unit that puts its magnitude below 1000. */
  lemma TooltipUnitRange(value: real, mode: ViewMode)
    ensures mode != Units ==> FormatMetalTooltip(value, mode) == PercentLabel(value)
    ensures var t := FormatMetalTooltip(value, Units);
      && (t.ZeroOz? <==> value == 0.0)
      && (t.Oz? <==> Abs(value) >= 1.0)
      && (t.MilliOz? <==> 0.001 <= Abs(value) < 1.0)
      && (t.MicroOz? <==> 0.0 < Abs(value) < 0.001)
      && !t.PercentLabel?
      && (t.Oz? ==> t.value == value)
      && (t.MilliOz? ==> t.value == value * 1000.0 && 1.0 <= Abs(t.value) < 1000.0)
      && (t.MicroOz? ==> t.value == value * 1000000.0 && 0.0 < Abs(t.value) < 1000.0)
  {
  }

  /** What `formatUSD` prints, before `toFixed(2)`. */
  datatype USDLabel = PercentUSD(value: real) | Dollars(value: real)

  function FormatUSD(value: real, mode: ViewMode): (u: USDLabel)
    ensures mode == Units <==> u.Dollars?
    ensures u.value == value
  {
    if mode != Units then PercentUSD(value) else Dollars(value)
  }
}
