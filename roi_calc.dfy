/**
 * The return calculator: `computeGrowth` and the `allStats` memo.
 *
 * The calculator reads a range-keyed table, `{ "1y": [item, ...], ... }`, or a
 * plain list of items. An item maps column names to numbers. A column that is
 * absent from an item reads as `undefined` and is modelled as `None`.
 */
module RoiCalc {
  import opened Wrappers
  import opened Text

  /** Epoch milliseconds of the item's `Date`. */
  type Date = int

  datatype Item = Item(date: Date, fields: map<string, real>)

  /** The calculator's `data`: missing, a plain list, or a range-keyed map. */
  datatype Source = Missing | List(items: seq<Item>) | Keyed(ranges: map<string, seq<Item>>)

  datatype Growth = Growth(totalGrowth: real, annualizedGrowth: real, years: real)

  datatype Stats = Stats(metal: Option<Growth>, usd: Option<Growth>)

  const MillisPerDay := 86400000.0
  const DaysPerYear := 365.25

  /** `item[column]`, `undefined` when the column is absent. */
  function Field(item: Item, column: string): Option<real> {
    if column in item.fields then Some(item.fields[column]) else None
  }

  /** JavaScript truthiness of a field: present and non-zero. */
  predicate Truthy(v: Option<real>) {
    v.Some? && v.value != 0.0
  }

  /** `(Date(end) - Date(start)) / (1000 * 60 * 60 * 24) / 365.25`. */
  function Years(startItem: Item, endItem: Item): (y: real)
    ensures y * DaysPerYear * MillisPerDay == (endItem.date - startItem.date) as real
    ensures y > 0.0 <==> endItem.date > startItem.date
  {
    var days := (endItem.date - startItem.date) as real / MillisPerDay;
    days / DaysPerYear
  }

  /**
   * Lines 8-21. `pow` is `Math.pow`. The result is null when either value is
   * missing or the start value is 0.
   */
  function ComputeGrowth(startItem: Item, endItem: Item, valStart: Option<real>, valEnd: Option<real>,
                         pow: (real, real) -> real): (g: Option<Growth>)
    ensures g.None? <==> valStart.None? || valEnd.None? || valStart.value == 0.0
    ensures g.Some? ==> g.value.years == Years(startItem, endItem)
  {
    if valStart.None? || valEnd.None? || valStart.value == 0.0 then None
    else
      var s, e := valStart.value, valEnd.value;
      var totalGrowth := ((e - s) / s) * 100.0;
      var years := Years(startItem, endItem);
      var annualizedGrowth :=
        if years > 0.0 && s > 0.0 && e > 0.0 then (pow(e / s, 1.0 / years) - 1.0) * 100.0 else 0.0;
      Some(Growth(totalGrowth, annualizedGrowth, years))
  }

  /** The total growth is the percent change: the start value grown by it is the end value. */
  lemma TotalGrowthIsPercentChange(startItem: Item, endItem: Item, s: real, e: real, pow: (real, real) -> real)
    requires s != 0.0
    ensures var g := ComputeGrowth(startItem, endItem, Some(s), Some(e), pow);
      g.Some? && s + s * g.value.totalGrowth / 100.0 == e
  {
    var q := (e - s) / s;
    assert s * q == e - s;
  }

  /** The annualized growth is only computed over a positive span between positive values; otherwise it is 0. */
  lemma AnnualizedGuard(startItem: Item, endItem: Item, s: real, e: real, pow: (real, real) -> real)
    requires s != 0.0
    ensures var g := ComputeGrowth(startItem, endItem, Some(s), Some(e), pow).value;
      && (endItem.date > startItem.date && s > 0.0 && e > 0.0 ==>
            g.annualizedGrowth == (pow(e / s, 1.0 / g.years) - 1.0) * 100.0)
      && (!(endItem.date > startItem.date && s > 0.0 && e > 0.0) ==> g.annualizedGrowth == 0.0)
  {
  }

  /** `Math.pow(x, p)` for `x > 0` and `p > 0` lies on the same side of 1 as `x`. */
  ghost predicate PowKeepsSide(pow: (real, real) -> real) {
    forall x: real, p: real :: x > 0.0 && p > 0.0 ==> (pow(x, p) > 1.0 <==> x > 1.0) && (pow(x, p) < 1.0 <==> x < 1.0)
  }

  /** Over a positive span between positive values, the yearly rate has the sign of the total growth. */
  lemma AnnualizedSignMatchesTotal(startItem: Item, endItem: Item, s: real, e: real, pow: (real, real) -> real)
    requires PowKeepsSide(pow)
    requires endItem.date > startItem.date && s > 0.0 && e > 0.0
    ensures var g := ComputeGrowth(startItem, endItem, Some(s), Some(e), pow).value;
      && (g.annualizedGrowth > 0.0 <==> g.totalGrowth > 0.0)
      && (g.annualizedGrowth == 0.0 <==> g.totalGrowth == 0.0)
  {
    var g := ComputeGrowth(startItem, endItem, Some(s), Some(e), pow).value;
    var x := e / s;
    var p := 1.0 / g.years;
    RatioFacts(s, e);
    ReciprocalPositive(g.years);
    PercentOfRatio(s, e);
    assert g.totalGrowth == (x - 1.0) * 100.0;
    assert g.annualizedGrowth == (pow(x, p) - 1.0) * 100.0;
    assert (pow(x, p) > 1.0 <==> x > 1.0) && (pow(x, p) < 1.0 <==> x < 1.0);
  }

  lemma RatioFacts(s: real, e: real)
    requires s > 0.0 && e > 0.0
    ensures e / s > 0.0
    ensures e / s > 1.0 <==> e > s
    ensures e / s == 1.0 <==> e == s
  {
    var x := e / s;
    assert x * s == e;
    ProductSign(x, s);
    assert (x - 1.0) * s == e - s;
    ProductSign(x - 1.0, s);
  }

  /** With `s > 0`, `a * s` has the sign of `a`. */
  lemma ProductSign(a: real, s: real)
    requires s > 0.0
    ensures a > 0.0 <==> a * s > 0.0
    ensures a == 0.0 <==> a * s == 0.0
  {
    if a > 0.0 {
      assert a * s > 0.0;
    } else if a < 0.0 {
      assert (-a) * s > 0.0;
    }
  }

  lemma ReciprocalPositive(y: real)
    requires y > 0.0
    ensures 1.0 / y > 0.0
  {
    var p := 1.0 / y;
    assert p * y == 1.0;
    ProductSign(p, y);
  }

  /** `((e - s) / s) * 100` is `(e / s - 1) * 100`. */
  lemma PercentOfRatio(s: real, e: real)
    requires s != 0.0
    ensures ((e - s) / s) * 100.0 == (e / s - 1.0) * 100.0
  {
    var q := (e - s) / s;
    var x := e / s;
    assert q * s == e - s;
    assert x * s == e;
    MulCancel(q, x - 1.0, s);
  }

  lemma MulCancel(a: real, b: real, s: real)
    requires s != 0.0 && a * s == b * s
    ensures a == b
  {
    assert (a - b) * s == 0.0;
  }

  /**
   * Lines 28-33: a list is used as it is; a map is looked up by the lower-cased
   * range, then by the range as given, else `[]`. An empty array is truthy in
   * JavaScript, so a lower-cased key that is present wins even when its list is empty.
   */
  function TimeframeData(data: Source, timeRange: string): (items: seq<Item>)
    requires !data.Missing?
    ensures data.List? ==> items == data.items
    ensures data.Keyed? && ToLower(timeRange) in data.ranges ==> items == data.ranges[ToLower(timeRange)]
    ensures data.Keyed? && ToLower(timeRange) !in data.ranges && timeRange in data.ranges ==>
      items == data.ranges[timeRange]
    ensures data.Keyed? && ToLower(timeRange) !in data.ranges && timeRange !in data.ranges ==> items == []
  {
    match data
    case List(items) => items
    case Keyed(ranges) =>
      var lower := ToLower(timeRange);
      if lower in ranges then ranges[lower] else if timeRange in ranges then ranges[timeRange] else []
  }

  /**
   * The `allStats` memo (lines 23-64): growth of the ticker in USD, and of the
   * ticker priced in the reference metal, between the first and last items.
   */
  function AllStats(data: Source, ticker: string, timeRange: string, metal: string, pow: (real, real) -> real)
    : (r: Option<Stats>)
    ensures r.Some? <==> !data.Missing? && ticker != "" && |TimeframeData(data, timeRange)| > 0
    ensures r.Some? ==>
      var items := TimeframeData(data, timeRange);
      var first, last := items[0], items[|items| - 1];
      && r.value.usd == ComputeGrowth(first, last, Field(first, ticker), Field(last, ticker), pow)
      && (r.value.metal.Some? <==>
            Truthy(Field(first, metal)) && Truthy(Field(last, metal)) &&
            Truthy(Field(first, ticker)) && Truthy(Field(last, ticker)))
      && (r.value.metal.Some? ==>
            r.value.metal == ComputeGrowth(first, last,
              Some(Field(first, ticker).value / Field(first, metal).value),
              Some(Field(last, ticker).value / Field(last, metal).value), pow))
  {
    if data.Missing? || ticker == "" then None
    else
      var items := TimeframeData(data, timeRange);
      if |items| == 0 then None
      else
        var startItem, endItem := items[0], items[|items| - 1];
        var startUsd, endUsd := Field(startItem, ticker), Field(endItem, ticker);
        var usdStats := ComputeGrowth(startItem, endItem, startUsd, endUsd, pow);
        var startRef, endRef := Field(startItem, metal), Field(endItem, metal);
        var metalStats :=
          if Truthy(startRef) && Truthy(endRef) && Truthy(startUsd) && Truthy(endUsd) then
            ComputeGrowth(startItem, endItem, Some(startUsd.value / startRef.value),
                          Some(endUsd.value / endRef.value), pow)
          else None;
        Some(Stats(metalStats, usdStats))
  }

  /**
   * The USD growth factor is the metal-priced growth factor times the
   * reference metal's own growth factor.
   */
  lemma GrowthFactorsCompose(data: Source, ticker: string, timeRange: string, metal: string, pow: (real, real) -> real)
    requires var r := AllStats(data, ticker, timeRange, metal, pow); r.Some? && r.value.metal.Some?
    ensures var items := TimeframeData(data, timeRange);
      var first, last := items[0], items[|items| - 1];
      var r := AllStats(data, ticker, timeRange, metal, pow).value;
      (1.0 + r.metal.value.totalGrowth / 100.0) * (last.fields[metal] / first.fields[metal])
        == 1.0 + r.usd.value.totalGrowth / 100.0
  {
    var items := TimeframeData(data, timeRange);
    var first, last := items[0], items[|items| - 1];
    var r := AllStats(data, ticker, timeRange, metal, pow).value;
    var su, eu := first.fields[ticker], last.fields[ticker];
    var sr, er := first.fields[metal], last.fields[metal];
    GrowthFactor(su / sr, eu / er);
    GrowthFactor(su, eu);
    assert 1.0 + r.metal.value.totalGrowth / 100.0 == (eu / er) / (su / sr);
    assert 1.0 + r.usd.value.totalGrowth / 100.0 == eu / su;
    RatioOfRatios(su, eu, sr, er);
  }

  lemma GrowthFactor(s: real, e: real)
    requires s != 0.0
    ensures 1.0 + (((e - s) / s) * 100.0) / 100.0 == e / s
  {
    PercentOfRatio(s, e);
  }

  lemma RatioOfRatios(su: real, eu: real, sr: real, er: real)
    requires su != 0.0 && eu != 0.0 && sr != 0.0 && er != 0.0
    ensures ((eu / er) / (su / sr)) * (er / sr) == eu / su
  {
    var a := eu / er;
    var b := su / sr;
    assert a * er == eu;
    assert b * sr == su;
    assert b != 0.0;
    var c := a / b;
    assert c * b == a;
    var d := er / sr;
    assert d * sr == er;
    calc {
      (c * d) * su;
      c * d * (b * sr);
      (c * b) * (d * sr);
      a * er;
      eu;
    }
  }
}
