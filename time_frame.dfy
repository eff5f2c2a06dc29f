/**
 * `get_timeframe_dates`: for each named timeframe, the trading days inside
 * `[now - days_back, now]`, thinned to about 100 equidistant days with both
 * ends kept. Instants are whole seconds; the list of trading days and the
 * current time are parameters, and `format` stands for `strftime("%Y-%m-%d")`.
 */
module TimeFrame {
  import opened Seqs

  type Instant = int

  const SecondsPerDay := 86400
  const TargetPoints := 100

  /** The `timeframes` dict, in its insertion order. */
  const Timeframes: seq<(string, nat)> := [
    ("50y", 365 * 50), ("20y", 365 * 20), ("10y", 365 * 10), ("5y", 365 * 5),
    ("2y", 365 * 2), ("1y", 365), ("6m", 30 * 6), ("3m", 30 * 3)
  ]

  /** `now - timedelta(days=days_back)`. */
  function RangeStart(now: Instant, daysBack: nat): Instant {
    now - daysBack * SecondsPerDay
  }

  /** Lines 44-45: `trading_days[(trading_days >= start) & (trading_days <= now)]`. */
  function ValidDays(tradingDays: seq<Instant>, start: Instant, now: Instant): (v: seq<Instant>)
    ensures forall d :: d in v <==> d in tradingDays && start <= d <= now
    ensures Subseq(v, tradingDays)
  {
    FilterIsSubseq(tradingDays, (d: Instant) => start <= d <= now);
    Filter(tradingDays, (d: Instant) => start <= d <= now)
  }

  /** `np.linspace(0, total - 1, 100, dtype=int)[i]`, as `floor(i * (total - 1) / 99)`. */
  function LinspaceIndex(i: nat, total: nat): nat
    requires total > 0
  {
    i * (total - 1) / (TargetPoints - 1)
  }

  /** Lines 52-63: all the valid days when there are at most 100, else 100 of them picked by index. */
  function Select(valid: seq<Instant>): (s: seq<Instant>)
    ensures |s| == if |valid| <= TargetPoints then |valid| else TargetPoints
  {
    if |valid| <= TargetPoints then valid
    else
      var n := |valid|;
      seq(TargetPoints, i requires 0 <= i < TargetPoints =>
        IndexInRange(i, n); valid[LinspaceIndex(i, n)])
  }

  /** The dates kept for one timeframe. */
  function TimeframeSelection(tradingDays: seq<Instant>, now: Instant, daysBack: nat): seq<Instant> {
    Select(ValidDays(tradingDays, RangeStart(now, daysBack), now))
  }

  // ---------------------------------------------------------------------------
  // Index arithmetic

  lemma IndexInRange(i: nat, n: nat)
    requires i < TargetPoints && n > 0
    ensures LinspaceIndex(i, n) < n
  {
    var m := n - 1;
    MulMonotone(i, TargetPoints - 1, m);
    DivMonotone(i * m, (TargetPoints - 1) * m);
    assert ((TargetPoints - 1) * m) / (TargetPoints - 1) == m;
  }

  lemma MulMonotone(a: nat, b: nat, m: nat)
    requires a <= b
    ensures a * m <= b * m
  {
    assert b * m == a * m + (b - a) * m;
  }

  lemma DivMonotone(a: nat, b: nat)
    requires a <= b
    ensures a / (TargetPoints - 1) <= b / (TargetPoints - 1)
  {
  }

  /** With more than 100 days the step is at least one day, so the picked indices strictly increase. */
  lemma {:induction false} IndexStrictlyIncreasing(i: nat, j: nat, n: nat)
    requires i < j < TargetPoints && n > TargetPoints
    ensures LinspaceIndex(i, n) < LinspaceIndex(j, n)
    decreases j - i
  {
    var m := n - 1;
    var x := (j - 1) * m;
    assert j * m == x + m;
    DivMonotone(x + (TargetPoints - 1), j * m);
    assert (x + (TargetPoints - 1)) / (TargetPoints - 1) == x / (TargetPoints - 1) + 1;
    if i < j - 1 {
      IndexStrictlyIncreasing(i, j - 1, n);
    }
  }

  // ---------------------------------------------------------------------------
  // Properties of one timeframe's selection

  /** Every selected day is a trading day inside the range. */
  lemma SelectionInRange(tradingDays: seq<Instant>, now: Instant, daysBack: nat)
    ensures forall d :: d in TimeframeSelection(tradingDays, now, daysBack) ==>
      d in tradingDays && RangeStart(now, daysBack) <= d <= now
  {
    var valid := ValidDays(tradingDays, RangeStart(now, daysBack), now);
    var s := Select(valid);
    forall d | d in s ensures d in valid {
      if |valid| > TargetPoints {
        var i :| 0 <= i < |s| && s[i] == d;
        IndexInRange(i, |valid|);
      }
    }
  }

  /** No trading day in range: the timeframe is empty. At most 100: all of them, in order. */
  lemma FewDaysKeptWhole(tradingDays: seq<Instant>, now: Instant, daysBack: nat)
    ensures var valid := ValidDays(tradingDays, RangeStart(now, daysBack), now);
      && (|valid| == 0 ==> TimeframeSelection(tradingDays, now, daysBack) == [])
      && (|valid| <= TargetPoints ==> TimeframeSelection(tradingDays, now, daysBack) == valid)
  {
  }

  /**
   * More than 100 days: exactly 100 are kept, the first and the last valid day
   * among them, and in strictly ascending order when the trading days are.
   */
  lemma ManyDaysThinned(tradingDays: seq<Instant>, now: Instant, daysBack: nat)
    requires forall i, j :: 0 <= i < j < |tradingDays| ==> tradingDays[i] < tradingDays[j]
    requires |ValidDays(tradingDays, RangeStart(now, daysBack), now)| > TargetPoints
    ensures var valid := ValidDays(tradingDays, RangeStart(now, daysBack), now);
      var s := TimeframeSelection(tradingDays, now, daysBack);
      && |s| == TargetPoints
      && s[0] == valid[0] && s[TargetPoints - 1] == valid[|valid| - 1]
      && forall i, j :: 0 <= i < j < |s| ==> s[i] < s[j]
  {
    var lt := (a: Instant, b: Instant) => a < b;
    var valid := ValidDays(tradingDays, RangeStart(now, daysBack), now);
    var n := |valid|;
    assert Sorted(tradingDays, lt);
    FilterSorted(tradingDays, lt, (d: Instant) => RangeStart(now, daysBack) <= d <= now);
    var s := Select(valid);
    assert LinspaceIndex(0, n) == 0;
    assert LinspaceIndex(TargetPoints - 1, n) == n - 1;
    forall i, j | 0 <= i < j < |s| ensures s[i] < s[j] {
      IndexStrictlyIncreasing(i, j, n);
      IndexInRange(j, n);
      assert lt(valid[LinspaceIndex(i, n)], valid[LinspaceIndex(j, n)]);
    }
  }

  // ---------------------------------------------------------------------------
  // The loop over the timeframes

  function Labels(tfs: seq<(string, nat)>): set<string> {
    set k | 0 <= k < |tfs| :: tfs[k].0
  }

  lemma LabelsExtend(tfs: seq<(string, nat)>, i: nat)
    requires i < |tfs|
    ensures Labels(tfs[..i + 1]) == Labels(tfs[..i]) + {tfs[i].0}
  {
    var a, b := tfs[..i + 1], tfs[..i];
    forall x ensures x in Labels(a) <==> x in Labels(b) + {tfs[i].0} {
      if x in Labels(a) {
        var k :| 0 <= k < i + 1 && a[k].0 == x;
        if k < i { assert b[k].0 == x; }
      }
      if x in Labels(b) {
        var k :| 0 <= k < i && b[k].0 == x;
        assert a[k].0 == x;
      }
      if x == tfs[i].0 {
        assert a[i].0 == x;
      }
    }
  }

  ghost predicate DistinctLabels(tfs: seq<(string, nat)>) {
    forall a, b :: 0 <= a < b < |tfs| ==> tfs[a].0 != tfs[b].0
  }

  lemma TimeframeLabelsDistinct()
    ensures DistinctLabels(Timeframes)
  {
  }

  function Format(s: seq<Instant>, format: Instant -> string): (r: seq<string>)
    ensures |r| == |s| && forall i :: 0 <= i < |s| ==> r[i] == format(s[i])
  {
    seq(|s|, i requires 0 <= i < |s| => format(s[i]))
  }

  /** Lines 38-69: `result` is filled one timeframe at a time. */
  method GetTimeframeDates(tradingDays: seq<Instant>, now: Instant, format: Instant -> string)
    returns (result: map<string, seq<string>>)
    ensures result.Keys == Labels(Timeframes)
    ensures forall k :: 0 <= k < |Timeframes| ==>
      result[Timeframes[k].0] == Format(TimeframeSelection(tradingDays, now, Timeframes[k].1), format)
  {
    TimeframeLabelsDistinct();
    result := map[];
    var i := 0;
    while i < |Timeframes|
      invariant 0 <= i <= |Timeframes|
      invariant result.Keys == Labels(Timeframes[..i])
      invariant forall k :: 0 <= k < i ==>
        result[Timeframes[k].0] == Format(TimeframeSelection(tradingDays, now, Timeframes[k].1), format)
    {
      var name, daysBack := Timeframes[i].0, Timeframes[i].1;
      var startDate := RangeStart(now, daysBack);
      var validDays := ValidDays(tradingDays, startDate, now);
      var dates: seq<string>;
      if |validDays| == 0 {
        dates := [];
      } else {
        dates := Format(Select(validDays), format);
      }
      assert dates == Format(TimeframeSelection(tradingDays, now, daysBack), format);
      result := result[name := dates];
      LabelsExtend(Timeframes, i);
      i := i + 1;
    }
    assert Timeframes[..i] == Timeframes;
  }
}
