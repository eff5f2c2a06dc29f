/**
 * `calculateTrendlines`: an ordinary least-squares line through the chosen
 * field (or its natural logarithm) against the date offset, and four bands
 * parallel to it at the nearest-rank 10th, 20th, 80th and 90th percentiles of
 * the sorted residuals.
 *
 * Arithmetic is exact on `real`. `Math.log` and `Math.exp` are parameters `ln`
 * and `exp`; the properties that need them to be monotone or positive say so.
 */
module Analysis {
  import opened Seqs
  import opened Rows

  /** `type === 'log'` selects Log; every other trendline type fits linearly. */
  datatype TrendKind = Linear | Log

  /** The value a non-positive field is replaced by before `ln` in log mode. */
  const LogFloor: real := 0.0000001

  /** `{ x, y, original }` of the source: date offset, field value, the row itself. */
  datatype Point = Point(x: real, y: real, original: Row)

  datatype Line = Line(slope: real, intercept: real)

  /** The four residual percentiles. */
  datatype Quantiles = Quantiles(r10: real, r20: real, r80: real, r90: real)

  /** The five values added to each row. */
  datatype Bands = Bands(trendline: real, top10: real, top20: real, bottom20: real, bottom10: real)

  /** `{ ...row, trendline, trendTop10, trendTop20, trendBottom20, trendBottom10 }`. */
  datatype TrendRow = TrendRow(row: Row, bands: Bands)

  /** Either the input returned as it is, or one trend row per input row. */
  datatype TrendResult = Unchanged(rows: seq<Row>) | Trended(points: seq<TrendRow>)

  ghost predicate Monotone(f: real -> real) {
    forall a, b :: a <= b ==> f(a) <= f(b)
  }

  ghost predicate Positive(f: real -> real) {
    forall a :: f(a) > 0.0
  }

  /** The data has a row whose date differs from the first row's. */
  ghost predicate HasTwoDates(data: seq<Row>) {
    |data| > 0 && exists i :: 0 <= i < |data| && data[i].date != data[0].date
  }

  // ---------------------------------------------------------------------------
  // Points

  /** `new Date(d.Date).getTime() - firstDate`. */
  function Offset(d: Row, firstDate: Date): real {
    (d.date - firstDate) as real
  }

  function ToPoint(d: Row, firstDate: Date, kind: TrendKind, key: string): (p: Point)
    ensures p.original == d && p.x == Offset(d, firstDate)
    ensures kind == Log ==> p.y > 0.0
    ensures kind == Linear || ValueOrZero(d, key) > 0.0 ==> p.y == ValueOrZero(d, key)
    ensures kind == Log && ValueOrZero(d, key) <= 0.0 ==> p.y == LogFloor
  {
    var y := ValueOrZero(d, key);
    Point(Offset(d, firstDate), if kind == Log && y <= 0.0 then LogFloor else y, d)
  }

  /** `data.map(...)` at lines 20-28: every date offset from the first row's date. */
  function Points(data: seq<Row>, kind: TrendKind, key: string): (ps: seq<Point>)
    requires |data| > 0
    ensures |ps| == |data| && ps[0].x == 0.0
    ensures forall i :: 0 <= i < |ps| ==> ps[i] == ToPoint(data[i], data[0].date, kind, key)
  {
    seq(|data|, i requires 0 <= i < |data| => ToPoint(data[i], data[0].date, kind, key))
  }

  /** `valY`: the value regressed on, `ln y` in log mode. */
  function Observed(p: Point, kind: TrendKind, ln: real -> real): real {
    if kind == Log then ln(p.y) else p.y
  }

  // ---------------------------------------------------------------------------
  // The four running sums of the `forEach` at lines 32-38

  /** The count and the four sums `sumX`, `sumX2`, `sumY`, `sumXY` over a list of points. */
  datatype Sums = Sums(n: real, sx: real, sxx: real, sv: real, sxv: real)

  function Square(d: real): real {
    d * d
  }

  /** One iteration of the `forEach`: the point's terms added to each sum. */
  function AddPoint(s: Sums, p: Point, kind: TrendKind, ln: real -> real): Sums {
    var v := Observed(p, kind, ln);
    Sums(s.n + 1.0, s.sx + p.x, s.sxx + Square(p.x), s.sv + v, s.sxv + p.x * v)
  }

  /** The sums after the `forEach` has visited every point of `ps` in order. */
  function SumsOf(ps: seq<Point>, kind: TrendKind, ln: real -> real): (s: Sums)
    ensures s.n == |ps| as real
  {
    if ps == [] then Sums(0.0, 0.0, 0.0, 0.0, 0.0)
    else AddPoint(SumsOf(ps[..|ps| - 1], kind, ln), ps[|ps| - 1], kind, ln)
  }

  /** `n * sumX2 - sumX * sumX`, the divisor of the slope. */
  function Det(s: Sums): real {
    s.n * s.sxx - Square(s.sx)
  }

  // ---------------------------------------------------------------------------
  // The divisor is positive as soon as two x values differ

  /** The sum of squared distances of the x values from `y`. */
  function SqDev(ps: seq<Point>, y: real): real {
    if ps == [] then 0.0 else SqDev(ps[..|ps| - 1], y) + Square(ps[|ps| - 1].x - y)
  }

  /** `SqDev` expanded in terms of the sums. */
  function SqDevOf(s: Sums, y: real): real {
    s.sxx - 2.0 * y * s.sx + s.n * Square(y)
  }

  lemma SquarePositive(d: real)
    requires d != 0.0
    ensures Square(d) > 0.0
  {
    if d > 0.0 {
      calc {
        Square(d);
        d * d;
      > 0.0;
      }
    } else {
      calc {
        Square(d);
        (-d) * (-d);
      > 0.0;
      }
    }
  }

  lemma SquareNonneg(d: real)
    ensures Square(d) >= 0.0
  {
    if d != 0.0 { SquarePositive(d); }
  }

  lemma SquareOfDifference(x: real, y: real)
    ensures Square(x - y) == Square(x) - 2.0 * y * x + Square(y)
  {
  }

  lemma SqDevOfStep(s: Sums, p: Point, kind: TrendKind, ln: real -> real, y: real)
    ensures SqDevOf(AddPoint(s, p, kind, ln), y) == SqDevOf(s, y) + Square(p.x - y)
  {
    var x := p.x;
    var t := AddPoint(s, p, kind, ln);
    assert t.n == s.n + 1.0 && t.sx == s.sx + x && t.sxx == s.sxx + Square(x);
    SquareOfDifference(x, y);
    calc {
      SqDevOf(t, y);
      t.sxx - 2.0 * y * t.sx + t.n * Square(y);
      (s.sxx + Square(x)) - 2.0 * y * (s.sx + x) + (s.n + 1.0) * Square(y);
      (s.sxx - 2.0 * y * s.sx + s.n * Square(y)) + (Square(x) - 2.0 * y * x + Square(y));
    }
  }

  lemma {:induction false} SqDevExpand(ps: seq<Point>, kind: TrendKind, ln: real -> real, y: real)
    ensures SqDev(ps, y) == SqDevOf(SumsOf(ps, kind, ln), y)
  {
    if ps != [] {
      SqDevExpand(ps[..|ps| - 1], kind, ln, y);
      SqDevOfStep(SumsOf(ps[..|ps| - 1], kind, ln), ps[|ps| - 1], kind, ln, y);
    }
  }

  lemma {:induction false} SqDevNonneg(ps: seq<Point>, y: real)
    ensures SqDev(ps, y) >= 0.0
  {
    if ps != [] {
      SqDevNonneg(ps[..|ps| - 1], y);
      SquareNonneg(ps[|ps| - 1].x - y);
    }
  }

  lemma {:induction false} SqDevPositive(ps: seq<Point>, y: real, i: int)
    requires 0 <= i < |ps| && ps[i].x != y
    ensures SqDev(ps, y) > 0.0
  {
    var q := ps[..|ps| - 1];
    var d := ps[|ps| - 1].x - y;
    if i == |ps| - 1 {
      SqDevNonneg(q, y);
      SquarePositive(d);
    } else {
      assert q[i] == ps[i];
      SqDevPositive(q, y, i);
      SquareNonneg(d);
    }
  }

  /** Adding a point `x` adds the squared distances of all earlier x values from `x`. */
  lemma DetStep(s: Sums, p: Point, kind: TrendKind, ln: real -> real)
    ensures Det(AddPoint(s, p, kind, ln)) == Det(s) + SqDevOf(s, p.x)
  {
    var x := p.x;
    calc {
      Det(AddPoint(s, p, kind, ln));
      (s.n + 1.0) * (s.sxx + x * x) - (s.sx + x) * (s.sx + x);
      (s.n * s.sxx - s.sx * s.sx) + (s.sxx - 2.0 * x * s.sx + s.n * (x * x));
      Det(s) + SqDevOf(s, x);
    }
  }

  lemma DenominatorStep(ps: seq<Point>, kind: TrendKind, ln: real -> real)
    requires ps != []
    ensures Det(SumsOf(ps, kind, ln)) == Det(SumsOf(ps[..|ps| - 1], kind, ln)) + SqDev(ps[..|ps| - 1], ps[|ps| - 1].x)
  {
    SqDevExpand(ps[..|ps| - 1], kind, ln, ps[|ps| - 1].x);
    DetStep(SumsOf(ps[..|ps| - 1], kind, ln), ps[|ps| - 1], kind, ln);
  }

  lemma {:induction false} DenominatorNonneg(ps: seq<Point>, kind: TrendKind, ln: real -> real)
    ensures Det(SumsOf(ps, kind, ln)) >= 0.0
  {
    if ps != [] {
      DenominatorNonneg(ps[..|ps| - 1], kind, ln);
      DenominatorStep(ps, kind, ln);
      SqDevNonneg(ps[..|ps| - 1], ps[|ps| - 1].x);
    }
  }

  /** With two different x values, `n * sumX2 - sumX * sumX > 0`: the slope division is defined. */
  lemma {:induction false} DenominatorPositive(ps: seq<Point>, kind: TrendKind, ln: real -> real, i: int, j: int)
    requires 0 <= i < |ps| && 0 <= j < |ps| && ps[i].x != ps[j].x
    ensures Det(SumsOf(ps, kind, ln)) > 0.0
  {
    var q := ps[..|ps| - 1];
    var y := ps[|ps| - 1].x;
    DenominatorStep(ps, kind, ln);
    DenominatorNonneg(q, kind, ln);
    SqDevNonneg(q, y);
    if i == |ps| - 1 {
      assert q[j] == ps[j];
      SqDevPositive(q, y, j);
    } else if j == |ps| - 1 {
      assert q[i] == ps[i];
      SqDevPositive(q, y, i);
    } else if ps[i].x != y {
      assert q[i] == ps[i];
      SqDevPositive(q, y, i);
    } else {
      assert q[i] == ps[i] && q[j] == ps[j];
      DenominatorPositive(q, kind, ln, i, j);
    }
  }

  /** Rows with two different dates give points with a positive divisor. */
  lemma PointsDenominatorPositive(data: seq<Row>, kind: TrendKind, key: string, ln: real -> real)
    requires HasTwoDates(data)
    ensures Det(SumsOf(Points(data, kind, key), kind, ln)) > 0.0
  {
    var ps := Points(data, kind, key);
    var i :| 0 <= i < |data| && data[i].date != data[0].date;
    assert ps[i].x != ps[0].x;
    DenominatorPositive(ps, kind, ln, i, 0);
  }

  // ---------------------------------------------------------------------------
  // The least-squares line

  /** `slope, intercept` solve the normal equations of least squares over the sums. */
  ghost predicate Solves(s: Sums, slope: real, intercept: real) {
    && slope * s.sxx + intercept * s.sx == s.sxv
    && slope * s.sx + s.n * intercept == s.sv
  }

  /** The normal equations: the gradient of the squared error vanishes at `l`. */
  ghost predicate NormalEquations(ps: seq<Point>, kind: TrendKind, ln: real -> real, l: Line) {
    Solves(SumsOf(ps, kind, ln), l.slope, l.intercept)
  }

  /** Line 40: `(n * sumXY - sumX * sumY) / (n * sumX2 - sumX * sumX)`. */
  function SlopeOf(s: Sums): (slope: real)
    requires Det(s) != 0.0
    ensures slope * Det(s) == s.n * s.sxv - s.sx * s.sv
  {
    (s.n * s.sxv - s.sx * s.sv) / Det(s)
  }

  /** Line 41: `(sumY - slope * sumX) / n`. */
  function InterceptOf(s: Sums): (intercept: real)
    requires s.n != 0.0 && Det(s) != 0.0
    ensures s.n * intercept == s.sv - SlopeOf(s) * s.sx
  {
    (s.sv - SlopeOf(s) * s.sx) / s.n
  }

  /** The closed form solves the two normal equations. */
  lemma ClosedFormSolves(s: Sums)
    requires s.n != 0.0 && Det(s) != 0.0
    ensures Solves(s, SlopeOf(s), InterceptOf(s))
  {
    var n, sx, sxx, sv, sxv := s.n, s.sx, s.sxx, s.sv, s.sxv;
    var d := Det(s);
    var slope, intercept := SlopeOf(s), InterceptOf(s);
    assert d == n * sxx - sx * sx;
    assert slope * d == n * sxv - sx * sv;
    assert n * intercept == sv - slope * sx;
    assert n * (slope * sxx + intercept * sx) == n * sxv by {
      calc {
        n * (slope * sxx + intercept * sx);
        slope * (n * sxx) + (n * intercept) * sx;
        slope * (n * sxx) + (sv - slope * sx) * sx;
        slope * d + sv * sx;
      }
    }
  }

  /** Lines 40-41: the closed-form line, which solves the normal equations. */
  function Fit(ps: seq<Point>, kind: TrendKind, ln: real -> real): (l: Line)
    requires |ps| > 0 && Det(SumsOf(ps, kind, ln)) != 0.0
    ensures NormalEquations(ps, kind, ln, l)
  {
    var s := SumsOf(ps, kind, ln);
    ClosedFormSolves(s);
    Line(SlopeOf(s), InterceptOf(s))
  }

  lemma UniqueSolution(s: Sums, a1: real, b1: real, a2: real, b2: real)
    requires s.n != 0.0 && Det(s) != 0.0
    requires Solves(s, a1, b1) && Solves(s, a2, b2)
    ensures a1 == a2 && b1 == b2
  {
    var n, sx, sxx := s.n, s.sx, s.sxx;
    var ds, di := a1 - a2, b1 - b2;
    assert ds * sxx + di * sx == 0.0;
    assert ds * sx + n * di == 0.0;
    assert ds * (n * sxx - sx * sx) == n * (ds * sxx + di * sx) - sx * (ds * sx + n * di);
    assert Det(s) == n * sxx - sx * sx;
    assert ds == 0.0;
    assert n * di == 0.0;
  }

  /** The normal equations have one solution when the divisor is non-zero. */
  lemma NormalEquationsUnique(ps: seq<Point>, kind: TrendKind, ln: real -> real, l: Line, m: Line)
    requires |ps| > 0 && Det(SumsOf(ps, kind, ln)) != 0.0
    requires NormalEquations(ps, kind, ln, l) && NormalEquations(ps, kind, ln, m)
    ensures l == m
  {
    UniqueSolution(SumsOf(ps, kind, ln), l.slope, l.intercept, m.slope, m.intercept);
  }

  /** The points lie on the line `v = a * x + b`, in the regression's own coordinates. */
  ghost predicate OnLine(ps: seq<Point>, kind: TrendKind, ln: real -> real, a: real, b: real) {
    forall i :: 0 <= i < |ps| ==> Observed(ps[i], kind, ln) == a * ps[i].x + b
  }

  lemma SolvesStep(s: Sums, p: Point, kind: TrendKind, ln: real -> real, a: real, b: real)
    requires Solves(s, a, b) && Observed(p, kind, ln) == a * p.x + b
    ensures Solves(AddPoint(s, p, kind, ln), a, b)
  {
    var x, v := p.x, Observed(p, kind, ln);
    var t := AddPoint(s, p, kind, ln);
    assert t.sxv == s.sxv + x * v && t.sxx == s.sxx + x * x;
    assert x * v == a * (x * x) + b * x;
  }

  /** Points on a line satisfy the normal equations of that line. */
  lemma {:induction false} OnLineSolves(ps: seq<Point>, kind: TrendKind, ln: real -> real, a: real, b: real)
    requires OnLine(ps, kind, ln, a, b)
    ensures Solves(SumsOf(ps, kind, ln), a, b)
  {
    if ps != [] {
      var q := ps[..|ps| - 1];
      assert forall i :: 0 <= i < |q| ==> q[i] == ps[i];
      OnLineSolves(q, kind, ln, a, b);
      SolvesStep(SumsOf(q, kind, ln), ps[|ps| - 1], kind, ln, a, b);
    }
  }

  /** Points that lie exactly on a line are fitted by that line. */
  lemma FitOfLine(ps: seq<Point>, kind: TrendKind, ln: real -> real, a: real, b: real)
    requires |ps| > 0 && Det(SumsOf(ps, kind, ln)) != 0.0
    requires OnLine(ps, kind, ln, a, b)
    ensures Fit(ps, kind, ln) == Line(a, b)
  {
    OnLineSolves(ps, kind, ln, a, b);
    assert NormalEquations(ps, kind, ln, Line(a, b));
    NormalEquationsUnique(ps, kind, ln, Fit(ps, kind, ln), Line(a, b));
  }

  // ---------------------------------------------------------------------------
  // Residuals and their percentiles

  function Predicted(p: Point, l: Line): real {
    l.slope * p.x + l.intercept
  }

  function Residuals(ps: seq<Point>, l: Line, kind: TrendKind, ln: real -> real): (r: seq<real>)
    ensures |r| == |ps|
    ensures forall i :: 0 <= i < |ps| ==> r[i] + Predicted(ps[i], l) == Observed(ps[i], kind, ln)
  {
    seq(|ps|, i requires 0 <= i < |ps| => Observed(ps[i], kind, ln) - Predicted(ps[i], l))
  }

  function RealLe(a: real, b: real): bool {
    a <= b
  }

  /** `.sort((a, b) => a - b)` on the residuals. */
  function SortAscending(s: seq<real>): (r: seq<real>)
    ensures |r| == |s| && multiset(r) == multiset(s)
    ensures forall i, j :: 0 <= i < j < |r| ==> r[i] <= r[j]
  {
    assert TotalPreorder(RealLe);
    SortBySorted(s, RealLe);
    var r := SortBy(s, RealLe);
    assert forall i, j :: 0 <= i < j < |r| ==> RealLe(r[i], r[j]);
    r
  }

  datatype Ranks = Ranks(p10: nat, p20: nat, p80: nat, p90: nat)

  /**
   * `Math.floor(n * 0.10)` and so on. Each double constant lies slightly above
   * its decimal value and every integer involved is representable, so the
   * floating-point floors equal the exact ones stated here.
   */
  function PercentileRanks(n: nat): (k: Ranks)
    requires n >= 1
    ensures k.p10 as real <= n as real * 0.1 < k.p10 as real + 1.0
    ensures k.p20 as real <= n as real * 0.2 < k.p20 as real + 1.0
    ensures k.p80 as real <= n as real * 0.8 < k.p80 as real + 1.0
    ensures k.p90 as real <= n as real * 0.9 < k.p90 as real + 1.0
    ensures k.p10 <= k.p20 <= k.p80 <= k.p90 < n
  {
    Ranks(n / 10, (n * 2) / 10, (n * 8) / 10, (n * 9) / 10)
  }

  /** `transform`: back out of log space. */
  function Transform(kind: TrendKind, exp: real -> real, v: real): real {
    if kind == Log then exp(v) else v
  }

  function BandsAt(p: Point, l: Line, q: Quantiles, kind: TrendKind, exp: real -> real): Bands {
    var pred := Predicted(p, l);
    Bands(Transform(kind, exp, pred), Transform(kind, exp, pred + q.r90), Transform(kind, exp, pred + q.r80),
          Transform(kind, exp, pred + q.r20), Transform(kind, exp, pred + q.r10))
  }

  /** The residual percentiles read at the nearest ranks of the sorted residuals. */
  function QuantilesOf(sorted: seq<real>): (q: Quantiles)
    requires |sorted| >= 1
  {
    var k := PercentileRanks(|sorted|);
    Quantiles(sorted[k.p10], sorted[k.p20], sorted[k.p80], sorted[k.p90])
  }

  /** The specification of `calculateTrendlines(data, type, dataKey)`. */
  function Trendlines(data: seq<Row>, kind: TrendKind, key: string, ln: real -> real, exp: real -> real): (r: TrendResult)
    requires |data| >= 2 ==> HasTwoDates(data)
    ensures |data| < 2 ==> r == Unchanged(data)
    ensures |data| >= 2 ==> r.Trended? && |r.points| == |data|
    ensures r.Trended? ==> forall i :: 0 <= i < |r.points| ==> r.points[i].row == data[i]
  {
    if |data| < 2 then Unchanged(data)
    else
      var ps := Points(data, kind, key);
      PointsDenominatorPositive(data, kind, key, ln);
      var line := Fit(ps, kind, ln);
      var q := QuantilesOf(SortAscending(Residuals(ps, line, kind, ln)));
      Trended(TrendRows(ps, line, q, kind, exp))
  }

  /** The final `points.map(...)`: each row with its five band values. */
  function TrendRows(ps: seq<Point>, line: Line, q: Quantiles, kind: TrendKind, exp: real -> real): (t: seq<TrendRow>)
    ensures |t| == |ps|
    ensures forall i :: 0 <= i < |ps| ==> t[i] == TrendRow(ps[i].original, BandsAt(ps[i], line, q, kind, exp))
  {
    seq(|ps|, i requires 0 <= i < |ps| => TrendRow(ps[i].original, BandsAt(ps[i], line, q, kind, exp)))
  }

  /** The sorted residuals pick quantiles in ascending order. */
  lemma QuantilesOrdered(sorted: seq<real>)
    requires |sorted| >= 1
    requires forall i, j :: 0 <= i < j < |sorted| ==> sorted[i] <= sorted[j]
    ensures var q := QuantilesOf(sorted); q.r10 <= q.r20 <= q.r80 <= q.r90
  {
    var k := PercentileRanks(|sorted|);
    assert k.p10 == k.p20 || sorted[k.p10] <= sorted[k.p20];
    assert k.p20 == k.p80 || sorted[k.p20] <= sorted[k.p80];
    assert k.p80 == k.p90 || sorted[k.p80] <= sorted[k.p90];
  }

  /** At every point `trendBottom10 <= trendBottom20 <= trendTop20 <= trendTop10`. */
  lemma BandsOrdered(data: seq<Row>, kind: TrendKind, key: string, ln: real -> real, exp: real -> real)
    requires |data| >= 2 && HasTwoDates(data)
    requires kind == Log ==> Monotone(exp)
    ensures var r := Trendlines(data, kind, key, ln, exp);
      forall i :: 0 <= i < |r.points| ==>
        var b := r.points[i].bands; b.bottom10 <= b.bottom20 <= b.top20 <= b.top10
  {
    var ps := Points(data, kind, key);
    PointsDenominatorPositive(data, kind, key, ln);
    var line := Fit(ps, kind, ln);
    var sorted := SortAscending(Residuals(ps, line, kind, ln));
    var q := QuantilesOf(sorted);
    QuantilesOrdered(sorted);
    var r := Trendlines(data, kind, key, ln, exp);
    assert r.points == TrendRows(ps, line, q, kind, exp);
    forall i | 0 <= i < |r.points|
      ensures var b := r.points[i].bands; b.bottom10 <= b.bottom20 <= b.top20 <= b.top10
    {
      var pred := Predicted(ps[i], line);
      assert r.points[i].bands == BandsAt(ps[i], line, q, kind, exp);
      assert pred + q.r10 <= pred + q.r20 <= pred + q.r80 <= pred + q.r90;
    }
  }

  /** In log mode every output is `exp` of something, hence positive when `exp` is. */
  lemma LogOutputsPositive(data: seq<Row>, key: string, ln: real -> real, exp: real -> real)
    requires |data| >= 2 && HasTwoDates(data)
    requires Positive(exp)
    ensures var r := Trendlines(data, Log, key, ln, exp);
      forall i :: 0 <= i < |r.points| ==>
        var b := r.points[i].bands;
        b.trendline > 0.0 && b.top10 > 0.0 && b.top20 > 0.0 && b.bottom20 > 0.0 && b.bottom10 > 0.0
  {
  }

  /** Points on the fitted line leave no residual. */
  lemma ResidualsOnLine(ps: seq<Point>, kind: TrendKind, ln: real -> real, a: real, b: real)
    requires OnLine(ps, kind, ln, a, b)
    ensures forall i :: 0 <= i < |ps| ==> Residuals(ps, Line(a, b), kind, ln)[i] == 0.0
  {
  }

  /** Sorting residuals that are all 0 leaves them all 0, so every percentile is 0. */
  lemma ZeroQuantiles(res: seq<real>)
    requires |res| >= 1 && forall i :: 0 <= i < |res| ==> res[i] == 0.0
    ensures QuantilesOf(SortAscending(res)) == Quantiles(0.0, 0.0, 0.0, 0.0)
  {
    var sorted := SortAscending(res);
    forall i | 0 <= i < |sorted| ensures sorted[i] == 0.0 {
      assert sorted[i] in multiset(res);
    }
  }

  /** Rows on the line `a * offset + b` give points on that line in linear mode. */
  lemma PointsOnLine(data: seq<Row>, key: string, ln: real -> real, a: real, b: real)
    requires |data| > 0
    requires forall i :: 0 <= i < |data| ==> ValueOrZero(data[i], key) == a * Offset(data[i], data[0].date) + b
    ensures OnLine(Points(data, Linear, key), Linear, ln, a, b)
  {
    var ps := Points(data, Linear, key);
    forall i | 0 <= i < |ps| ensures Observed(ps[i], Linear, ln) == a * ps[i].x + b {
      assert ps[i] == ToPoint(data[i], data[0].date, Linear, key);
    }
  }

  /**
   * Linear mode on rows that lie exactly on a line: all residuals are 0, the
   * trendline reproduces every value and the four bands coincide with it.
   */
  lemma ExactLineIsReproduced(data: seq<Row>, key: string, ln: real -> real, exp: real -> real, a: real, b: real)
    requires |data| >= 2 && HasTwoDates(data)
    requires forall i :: 0 <= i < |data| ==> ValueOrZero(data[i], key) == a * Offset(data[i], data[0].date) + b
    ensures var r := Trendlines(data, Linear, key, ln, exp);
      forall i :: 0 <= i < |r.points| ==>
        var t := r.points[i].bands;
        && t.trendline == ValueOrZero(data[i], key)
        && t.top10 == t.trendline && t.top20 == t.trendline
        && t.bottom20 == t.trendline && t.bottom10 == t.trendline
  {
    var ps := Points(data, Linear, key);
    PointsOnLine(data, key, ln, a, b);
    PointsDenominatorPositive(data, Linear, key, ln);
    assert Fit(ps, Linear, ln) == Line(a, b) by {
      FitOfLine(ps, Linear, ln, a, b);
    }
    ResidualsOnLine(ps, Linear, ln, a, b);
    ZeroQuantiles(Residuals(ps, Line(a, b), Linear, ln));
    var q := Quantiles(0.0, 0.0, 0.0, 0.0);
    var r := Trendlines(data, Linear, key, ln, exp);
    assert r.points == TrendRows(ps, Line(a, b), q, Linear, exp);
    forall i | 0 <= i < |r.points|
      ensures r.points[i].bands.trendline == ValueOrZero(data[i], key)
    {
      assert ps[i] == ToPoint(data[i], data[0].date, Linear, key);
      assert Residuals(ps, Line(a, b), Linear, ln)[i] == 0.0;
    }
  }

  // ---------------------------------------------------------------------------
  // The implementation

  /** Lines 32-38: the `forEach` accumulating the four sums. */
  method AccumulateSums(ps: seq<Point>, kind: TrendKind, ln: real -> real)
    returns (sumX: real, sumY: real, sumXY: real, sumX2: real)
    ensures Sums(|ps| as real, sumX, sumX2, sumY, sumXY) == SumsOf(ps, kind, ln)
  {
    sumX, sumY, sumXY, sumX2 := 0.0, 0.0, 0.0, 0.0;
    var i := 0;
    while i < |ps|
      invariant 0 <= i <= |ps|
      invariant Sums(i as real, sumX, sumX2, sumY, sumXY) == SumsOf(ps[..i], kind, ln)
    {
      var p := ps[i];
      var valY := if kind == Log then ln(p.y) else p.y;
      assert SumsOf(ps[..i + 1], kind, ln) == AddPoint(Sums(i as real, sumX, sumX2, sumY, sumXY), p, kind, ln) by {
        assert ps[..i + 1][..i] == ps[..i];
      }
      assert valY == Observed(p, kind, ln) && Square(p.x) == p.x * p.x;
      sumX := sumX + p.x;
      sumY := sumY + valY;
      sumXY := sumXY + p.x * valY;
      sumX2 := sumX2 + p.x * p.x;
      i := i + 1;
    }
    assert ps[..i] == ps;
  }

  /** `calculateTrendlines(data, type, dataKey)`. */
  method CalculateTrendlines(data: seq<Row>, kind: TrendKind, key: string, ln: real -> real, exp: real -> real)
    returns (r: TrendResult)
    requires |data| >= 2 ==> HasTwoDates(data)
    ensures r == Trendlines(data, kind, key, ln, exp)
  {
    if |data| < 2 {
      return Unchanged(data);
    }
    var n := |data|;
    var firstDate := data[0].date;
    var points := seq(n, i requires 0 <= i < n => ToPoint(data[i], firstDate, kind, key));
    assert points == Points(data, kind, key);
    var sumX, sumY, sumXY, sumX2 := AccumulateSums(points, kind, ln);
    var sums := Sums(n as real, sumX, sumX2, sumY, sumXY);
    PointsDenominatorPositive(data, kind, key, ln);
    var line := Line(SlopeOf(sums), InterceptOf(sums));
    assert line == Fit(points, kind, ln);
    var residuals := SortAscending(Residuals(points, line, kind, ln));
    var k := PercentileRanks(n);
    var q := Quantiles(residuals[k.p10], residuals[k.p20], residuals[k.p80], residuals[k.p90]);
    r := Trended(TrendRows(points, line, q, kind, exp));
  }
}
