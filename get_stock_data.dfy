/**
 * The table-building part of the stock data script: the columnar
 * `{ columns, rows }` table of every timeframe, its FastData projection to
 * `[Date, Gold, VOO]`, the tickers list, and the first date to fetch.
 *
 * The downloaded data frames are abstract: each says whether it has
 * per-ticker columns, which symbols and dates it indexes, and the non-NaN
 * closes it holds.
 */
module GetStockData {
  import opened Wrappers
  import opened Seqs
  import opened Text
  import SearchStock

  /** A downloaded frame. A `(symbol, date)` pair absent from `close` is a NaN or a missing column. */
  datatype Frame = Frame(multiIndex: bool, symbols: set<string>, index: set<string>,
                         close: map<(string, string), real>)

  /** A cell of a table row: the date string, a close, or `None`. */
  datatype Cell = DateCell(text: string) | Value(v: real) | Null

  datatype Table = Table(columns: seq<string>, rows: seq<seq<Cell>>)

  /** `tickers_map`, in insertion order: `(label, symbol)` pairs. */
  type TickersMap = seq<(string, string)>

  /** Every row has one cell per column. */
  ghost predicate WellFormed(t: Table) {
    forall i :: 0 <= i < |t.rows| ==> |t.rows[i]| == |t.columns|
  }

  // ---------------------------------------------------------------------------
  // Columns and cells

  /** `list(tickers_map.keys())`. */
  function LabelList(tickers: TickersMap): (r: seq<string>)
    ensures |r| == |tickers| && forall i :: 0 <= i < |r| ==> r[i] == tickers[i].0
  {
    seq(|tickers|, i requires 0 <= i < |tickers| => tickers[i].0)
  }

  /** Lines 126-127: the labels, sorted. */
  function AllKeys(tickers: TickersMap): (keys: seq<string>)
    ensures |keys| == |tickers| && multiset(keys) == multiset(LabelList(tickers)) && Sorted(keys, LexLe)
    ensures forall k :: k in keys ==> k in LabelList(tickers)
  {
    var keys := SortStrings(LabelList(tickers));
    assert forall k :: k in keys ==> k in LabelList(tickers) by {
      forall k | k in keys ensures k in LabelList(tickers) {
        assert k in multiset(keys);
      }
    }
    keys
  }

  /** Line 129. */
  function Columns(tickers: TickersMap): seq<string> {
    ["Date"] + AllKeys(tickers)
  }

  /** `tickers_map[key]` for a key the map has. */
  function SymbolOf(tickers: TickersMap, key: string): (symbol: string)
    requires key in LabelList(tickers)
    ensures exists i :: 0 <= i < |tickers| && tickers[i] == (key, symbol)
  {
    if tickers[0].0 == key then tickers[0].1
    else
      assert LabelList(tickers)[1..] == LabelList(tickers[1..]);
      var s := SymbolOf(tickers[1..], key);
      ghost var i :| 0 <= i < |tickers[1..]| && tickers[1..][i] == (key, s);
      assert tickers[i + 1] == (key, s);
      s
  }

  /** Lines 144-151: the frame's non-NaN close of `symbol` on `date`, if it has one. */
  function CloseAt(df: Frame, symbol: string, date: string): Option<real> {
    if df.multiIndex && symbol in df.symbols && date in df.index && (symbol, date) in df.close then
      Some(df.close[(symbol, date)])
    else None
  }

  /** The close from the first frame that has one. */
  function FirstClose(frames: seq<Frame>, symbol: string, date: string): (v: Option<real>)
    ensures v.None? <==> forall j :: 0 <= j < |frames| ==> CloseAt(frames[j], symbol, date).None?
  {
    if frames == [] then None
    else if CloseAt(frames[0], symbol, date).Some? then CloseAt(frames[0], symbol, date)
    else
      var v := FirstClose(frames[1..], symbol, date);
      assert forall j :: 1 <= j < |frames| ==> frames[j] == frames[1..][j - 1];
      v
  }

  /** The frame scan stops at the first frame with a close and takes its value. */
  lemma {:induction false} FirstCloseIsFirst(frames: seq<Frame>, symbol: string, date: string, j: nat)
    requires j < |frames| && CloseAt(frames[j], symbol, date).Some?
    requires forall k :: 0 <= k < j ==> CloseAt(frames[k], symbol, date).None?
    ensures FirstClose(frames, symbol, date) == CloseAt(frames[j], symbol, date)
  {
    if j > 0 {
      FirstCloseIsFirst(frames[1..], symbol, date, j - 1);
    }
  }

  function CellOf(v: Option<real>): Cell {
    if v.Some? then Value(v.value) else Null
  }

  /** Lines 134-159: the date, then one cell per sorted key. */
  function RowFor(date: string, keys: seq<string>, tickers: TickersMap, frames: seq<Frame>): (row: seq<Cell>)
    requires forall k :: k in keys ==> k in LabelList(tickers)
    ensures |row| == |keys| + 1 && row[0] == DateCell(date)
    ensures forall j :: 0 <= j < |keys| ==> row[j + 1] == CellOf(FirstClose(frames, SymbolOf(tickers, keys[j]), date))
  {
    [DateCell(date)] + seq(|keys|, j requires 0 <= j < |keys| => CellOf(FirstClose(frames, SymbolOf(tickers, keys[j]), date)))
  }

  /** The table of one timeframe. */
  function TableFor(dates: seq<string>, tickers: TickersMap, frames: seq<Frame>): (t: Table)
    ensures t.columns == Columns(tickers) && |t.rows| == |dates|
    ensures forall i :: 0 <= i < |dates| ==> t.rows[i] == RowFor(dates[i], AllKeys(tickers), tickers, frames)
  {
    Table(Columns(tickers), seq(|dates|, i requires 0 <= i < |dates| => RowFor(dates[i], AllKeys(tickers), tickers, frames)))
  }

  // ---------------------------------------------------------------------------
  // The loops of `main`

  /** Lines 139-159: scan the frames until one has the close. */
  method LookupClose(frames: seq<Frame>, symbol: string, date: string) returns (val: Option<real>)
    ensures val == FirstClose(frames, symbol, date)
  {
    val := None;
    var found := false;
    var i := 0;
    while i < |frames|
      invariant 0 <= i <= |frames|
      invariant !found ==> val.None? && FirstClose(frames, symbol, date) == FirstClose(frames[i..], symbol, date)
      invariant found ==> val == FirstClose(frames, symbol, date)
    {
      var raw := CloseAt(frames[i], symbol, date);
      if raw.Some? {
        val := raw;
        found := true;
      }
      if found {
        assert frames[i..][0] == frames[i];
        break;
      }
      assert frames[i..][1..] == frames[i + 1..];
      i := i + 1;
    }
  }

  /** Lines 133-161: one row per date. */
  method BuildRows(dates: seq<string>, allKeys: seq<string>, tickers: TickersMap, frames: seq<Frame>)
    returns (tfRows: seq<seq<Cell>>)
    requires forall k :: k in allKeys ==> k in LabelList(tickers)
    ensures |tfRows| == |dates|
    ensures forall i :: 0 <= i < |dates| ==> tfRows[i] == RowFor(dates[i], allKeys, tickers, frames)
  {
    tfRows := [];
    for i := 0 to |dates|
      invariant |tfRows| == i
      invariant forall r :: 0 <= r < i ==> tfRows[r] == RowFor(dates[r], allKeys, tickers, frames)
    {
      var rowValues := BuildRow(dates[i], allKeys, tickers, frames);
      tfRows := tfRows + [rowValues];
    }
  }

  /** Lines 134-159: the inner loop over the sorted keys builds one row. */
  method BuildRow(dateStr: string, allKeys: seq<string>, tickers: TickersMap, frames: seq<Frame>)
    returns (rowValues: seq<Cell>)
    requires forall k :: k in allKeys ==> k in LabelList(tickers)
    ensures rowValues == RowFor(dateStr, allKeys, tickers, frames)
  {
    rowValues := [DateCell(dateStr)];
    for j := 0 to |allKeys|
      invariant |rowValues| == j + 1 && rowValues[0] == DateCell(dateStr)
      invariant forall c :: 0 <= c < j ==>
        rowValues[c + 1] == CellOf(FirstClose(frames, SymbolOf(tickers, allKeys[c]), dateStr))
    {
      var symbol := SymbolOf(tickers, allKeys[j]);
      var val := LookupClose(frames, symbol, dateStr);
      rowValues := rowValues + [CellOf(val)];
    }
  }

  /** The keys of an insertion-ordered dict given as pairs. */
  function Names<V>(pairs: seq<(string, V)>): set<string> {
    set k | 0 <= k < |pairs| :: pairs[k].0
  }

  ghost predicate DistinctNames<V>(pairs: seq<(string, V)>) {
    forall i, j :: 0 <= i < j < |pairs| ==> pairs[i].0 != pairs[j].0
  }

  lemma NamesExtend<V>(pairs: seq<(string, V)>, i: nat)
    requires i < |pairs|
    ensures Names(pairs[..i + 1]) == Names(pairs[..i]) + {pairs[i].0}
  {
    var a, b := pairs[..i + 1], pairs[..i];
    forall x ensures x in Names(a) <==> x in Names(b) + {pairs[i].0} {
      if x in Names(a) {
        var k :| 0 <= k < i + 1 && a[k].0 == x;
        if k < i { assert b[k].0 == x; }
      }
      if x in Names(b) {
        var k :| 0 <= k < i && b[k].0 == x;
        assert a[k].0 == x;
      }
      if x == pairs[i].0 {
        assert a[i].0 == x;
      }
    }
  }

  /** Lines 117-166: `final_data[tf_label] = { columns, rows }` for each timeframe in turn. */
  method BuildFinalData(timeframeDates: seq<(string, seq<string>)>, tickers: TickersMap, frames: seq<Frame>)
    returns (finalData: map<string, Table>)
    requires DistinctNames(timeframeDates)
    ensures finalData.Keys == Names(timeframeDates)
    ensures forall k :: 0 <= k < |timeframeDates| ==>
      finalData[timeframeDates[k].0] == TableFor(timeframeDates[k].1, tickers, frames)
  {
    finalData := map[];
    for i := 0 to |timeframeDates|
      invariant finalData.Keys == Names(timeframeDates[..i])
      invariant forall k :: 0 <= k < i ==> finalData[timeframeDates[k].0] == TableFor(timeframeDates[k].1, tickers, frames)
    {
      var tfLabel, dates := timeframeDates[i].0, timeframeDates[i].1;
      var allKeys := AllKeys(tickers);
      var columns := ["Date"] + allKeys;
      var tfRows := BuildRows(dates, allKeys, tickers, frames);
      assert Table(columns, tfRows) == TableFor(dates, tickers, frames);
      finalData := finalData[tfLabel := Table(columns, tfRows)];
      NamesExtend(timeframeDates, i);
    }
    assert timeframeDates[..|timeframeDates|] == timeframeDates;
  }

  /** Each built row has one cell per column and starts with its date, in the timeframe's date order. */
  lemma TableRowsWellFormed(dates: seq<string>, tickers: TickersMap, frames: seq<Frame>)
    ensures var t := TableFor(dates, tickers, frames);
      && WellFormed(t)
      && forall i :: 0 <= i < |dates| ==> t.rows[i][0] == DateCell(dates[i])
  {
  }

  /** The header is "Date" then every label once, in sorted order. */
  lemma HeaderIsDateThenSortedLabels(tickers: TickersMap)
    ensures var c := Columns(tickers);
      && c[0] == "Date" && |c| == |tickers| + 1
      && Sorted(c[1..], LexLe) && multiset(c[1..]) == multiset(LabelList(tickers))
  {
    var c := Columns(tickers);
    assert c[1..] == AllKeys(tickers);
  }

  /** A cell is `None` exactly when no frame has a close, and otherwise the first frame's close. */
  lemma CellSemantics(dates: seq<string>, tickers: TickersMap, frames: seq<Frame>, i: nat, j: nat)
    requires i < |dates| && j < |tickers|
    ensures var t := TableFor(dates, tickers, frames);
      var symbol := SymbolOf(tickers, AllKeys(tickers)[j]);
      && (t.rows[i][j + 1] == Null <==> forall f :: 0 <= f < |frames| ==> CloseAt(frames[f], symbol, dates[i]).None?)
      && (forall f :: (0 <= f < |frames| && CloseAt(frames[f], symbol, dates[i]).Some? &&
                       (forall g :: 0 <= g < f ==> CloseAt(frames[g], symbol, dates[i]).None?)) ==>
            t.rows[i][j + 1] == Value(CloseAt(frames[f], symbol, dates[i]).value))
  {
    var t := TableFor(dates, tickers, frames);
    var keys := AllKeys(tickers);
    var symbol := SymbolOf(tickers, keys[j]);
    assert t.rows[i][j + 1] == CellOf(FirstClose(frames, symbol, dates[i]));
    forall f | 0 <= f < |frames| && CloseAt(frames[f], symbol, dates[i]).Some? &&
               (forall g :: 0 <= g < f ==> CloseAt(frames[g], symbol, dates[i]).None?)
      ensures t.rows[i][j + 1] == Value(CloseAt(frames[f], symbol, dates[i]).value)
    {
      FirstCloseIsFirst(frames, symbol, dates[i], f);
    }
  }

  // ---------------------------------------------------------------------------
  // FastData

  /** Python's `list.index`: the first position of `x`, or `ValueError`. */
  function IndexOf(s: seq<string>, x: string): (r: Option<nat>)
    ensures r.None? <==> x !in s
    ensures r.Some? ==> r.value < |s| && s[r.value] == x && forall k :: 0 <= k < r.value ==> s[k] != x
  {
    if s == [] then None
    else if s[0] == x then Some(0)
    else
      var r := IndexOf(s[1..], x);
      if r.Some? then
        assert forall k :: 1 <= k <= r.value ==> s[k] == s[1..][k - 1];
        Some(r.value + 1)
      else
        assert x !in s[1..] && s == [s[0]] + s[1..];
        None
  }

  const FastColumns := ["Date", "Gold", "VOO"]

  /** Lines 194-199, one row. */
  function Project(row: seq<Cell>, d: nat, g: nat, v: nat): seq<Cell>
    requires d < |row| && g < |row| && v < |row|
  {
    [row[d], row[g], row[v]]
  }

  /** Lines 178-206: the "1y" table cut to three columns, or nothing. */
  function FastData(finalData: map<string, Table>): (fd: map<string, Table>)
    requires "1y" in finalData ==> WellFormed(finalData["1y"])
    ensures fd.Keys <= {"1y"}
    ensures "1y" !in finalData ==> fd == map[]
    ensures "1y" in finalData ==>
      var cols := finalData["1y"].columns;
      ("1y" in fd <==> "Date" in cols && "Gold" in cols && "VOO" in cols)
  {
    if "1y" !in finalData then map[]
    else
      var src := finalData["1y"];
      var d, g, v := IndexOf(src.columns, "Date"), IndexOf(src.columns, "Gold"), IndexOf(src.columns, "VOO");
      if d.None? || g.None? || v.None? then map[]
      else
        map["1y" := Table(FastColumns, seq(|src.rows|, i requires 0 <= i < |src.rows| =>
                                             Project(src.rows[i], d.value, g.value, v.value)))]
  }

  /** FastData keeps every "1y" row, in order, as its Date, Gold and VOO cells. */
  lemma FastDataProjects(finalData: map<string, Table>)
    requires "1y" in finalData && WellFormed(finalData["1y"])
    requires var cols := finalData["1y"].columns; "Date" in cols && "Gold" in cols && "VOO" in cols
    ensures var src := finalData["1y"];
      var fast := FastData(finalData)["1y"];
      var d := IndexOf(src.columns, "Date").value;
      var g := IndexOf(src.columns, "Gold").value;
      var v := IndexOf(src.columns, "VOO").value;
      && fast.columns == ["Date", "Gold", "VOO"]
      && |fast.rows| == |src.rows|
      && forall i :: 0 <= i < |src.rows| ==> fast.rows[i] == [src.rows[i][d], src.rows[i][g], src.rows[i][v]]
  {
  }

  /** On a built table the FastData rows keep their dates: the Date column is the first. */
  lemma FastDataKeepsDates(finalData: map<string, Table>, dates: seq<string>, tickers: TickersMap, frames: seq<Frame>)
    requires "1y" in finalData && finalData["1y"] == TableFor(dates, tickers, frames)
    requires "Gold" in LabelList(tickers) && "VOO" in LabelList(tickers)
    ensures WellFormed(finalData["1y"])
    ensures "1y" in FastData(finalData)
    ensures forall i :: 0 <= i < |dates| ==> FastData(finalData)["1y"].rows[i][0] == DateCell(dates[i])
  {
    TableRowsWellFormed(dates, tickers, frames);
    assert finalData["1y"].columns == Columns(tickers);
    HeaderHasFastColumns(tickers);
    FastDataProjects(finalData);
  }

  lemma HeaderHasFastColumns(tickers: TickersMap)
    requires "Gold" in LabelList(tickers) && "VOO" in LabelList(tickers)
    ensures var c := Columns(tickers); "Date" in c && "Gold" in c && "VOO" in c && IndexOf(c, "Date") == Some(0)
  {
    var c := Columns(tickers);
    var keys := AllKeys(tickers);
    assert "Gold" in multiset(keys) && "VOO" in multiset(keys);
    assert c[1..] == keys;
    var a :| 0 <= a < |keys| && keys[a] == "Gold";
    var b :| 0 <= b < |keys| && keys[b] == "VOO";
    assert c[a + 1] == "Gold" && c[b + 1] == "VOO";
  }

  /** The FastData loop as written: `fast_rows` grows one projected row at a time. */
  method ComputeFastData(finalData: map<string, Table>) returns (fastData: map<string, Table>)
    requires "1y" in finalData ==> WellFormed(finalData["1y"])
    ensures fastData == FastData(finalData)
  {
    fastData := map[];
    if "1y" in finalData {
      var src := finalData["1y"];
      var srcCols, srcRows := src.columns, src.rows;
      var dateIdx, goldIdx, vooIdx := IndexOf(srcCols, "Date"), IndexOf(srcCols, "Gold"), IndexOf(srcCols, "VOO");
      if dateIdx.Some? && goldIdx.Some? && vooIdx.Some? {
        var fastRows := [];
        for i := 0 to |srcRows|
          invariant |fastRows| == i
          invariant forall r :: 0 <= r < i ==>
            fastRows[r] == Project(srcRows[r], dateIdx.value, goldIdx.value, vooIdx.value)
        {
          var row := srcRows[i];
          fastRows := fastRows + [[row[dateIdx.value], row[goldIdx.value], row[vooIdx.value]]];
        }
        fastData := map["1y" := Table(FastColumns, fastRows)];
        FastDataProjects(finalData);
        var fd := FastData(finalData);
        assert fd["1y"].rows == fastRows;
        assert fd.Keys == fastData.Keys;
      } else {
        assert FastData(finalData) == map[];
      }
    } else {
      assert FastData(finalData) == map[];
    }
  }

  // ---------------------------------------------------------------------------
  // The tickers list and the fetch start

  /** Lines 214-222: one `{ symbol, name }` per label, both the label, in sorted order. */
  function TickersList(tickers: TickersMap): (r: seq<SearchStock.Ticker>)
    ensures |r| == |tickers|
    ensures forall i :: 0 <= i < |r| ==> r[i].symbol == r[i].name
    ensures forall i, j :: 0 <= i < j < |r| ==> LexLe(r[i].symbol, r[j].symbol)
    ensures forall x :: x in LabelList(tickers) <==> exists i :: 0 <= i < |r| && r[i].symbol == x
  {
    var sortedTickers := AllKeys(tickers);
    var r := seq(|sortedTickers|, i requires 0 <= i < |sortedTickers| => SearchStock.Ticker(sortedTickers[i], sortedTickers[i]));
    assert forall x :: x in LabelList(tickers) ==> exists i :: 0 <= i < |r| && r[i].symbol == x by {
      forall x | x in LabelList(tickers) ensures exists i :: 0 <= i < |r| && r[i].symbol == x {
        assert x in multiset(LabelList(tickers));
        assert x in sortedTickers;
        var i :| 0 <= i < |sortedTickers| && sortedTickers[i] == x;
        assert r[i].symbol == x;
      }
    }
    r
  }

  /** Lines 214-222: one `{ symbol, name }` entry appended per sorted label. */
  method BuildTickersList(tickers: TickersMap) returns (tickersList: seq<SearchStock.Ticker>)
    ensures tickersList == TickersList(tickers)
  {
    var sortedTickers := AllKeys(tickers);
    tickersList := [];
    for i := 0 to |sortedTickers|
      invariant |tickersList| == i
      invariant forall k :: 0 <= k < i ==> tickersList[k] == SearchStock.Ticker(sortedTickers[k], sortedTickers[k])
    {
      var ticker := sortedTickers[i];
      tickersList := tickersList + [SearchStock.Ticker(ticker, ticker)];
    }
  }

  /** Every date of every timeframe, with repeats: the members of `all_dates`. */
  function AllDates(timeframeDates: seq<(string, seq<string>)>): (r: seq<string>)
    ensures timeframeDates == [] ==> r == []
  {
    if timeframeDates == [] then [] else timeframeDates[0].1 + AllDates(timeframeDates[1..])
  }

  /** A date is collected exactly when some timeframe lists it. */
  lemma {:induction false} AllDatesMembers(timeframeDates: seq<(string, seq<string>)>, x: string)
    ensures x in AllDates(timeframeDates) <==> exists k :: 0 <= k < |timeframeDates| && x in timeframeDates[k].1
  {
    if timeframeDates != [] {
      var rest := timeframeDates[1..];
      AllDatesMembers(rest, x);
      if exists k :: 0 <= k < |rest| && x in rest[k].1 {
        var k :| 0 <= k < |rest| && x in rest[k].1;
        assert x in timeframeDates[k + 1].1;
      }
      if exists k :: 0 <= k < |timeframeDates| && x in timeframeDates[k].1 {
        var k :| 0 <= k < |timeframeDates| && x in timeframeDates[k].1;
        if k > 0 {
          assert x in rest[k - 1].1;
        }
      }
    }
  }

  /** Lines 54-63: nothing to fetch when there are no dates, else the first date in sorted order. */
  function FetchStart(timeframeDates: seq<(string, seq<string>)>): Option<string> {
    var sortedDates := SortStrings(AllDates(timeframeDates));
    if |sortedDates| == 0 then None else Some(sortedDates[0])
  }

  /** The fetch start is a date some timeframe needs, and no date needed comes before it. */
  lemma FetchStartIsEarliest(timeframeDates: seq<(string, seq<string>)>)
    ensures var start := FetchStart(timeframeDates);
      && (start.None? <==> forall k :: 0 <= k < |timeframeDates| ==> timeframeDates[k].1 == [])
      && (start.Some? ==> exists k :: 0 <= k < |timeframeDates| && start.value in timeframeDates[k].1)
      && (start.Some? ==> forall k, x :: 0 <= k < |timeframeDates| && x in timeframeDates[k].1 ==> LexLe(start.value, x))
  {
    var all := AllDates(timeframeDates);
    var start := FetchStart(timeframeDates);
    forall k | 0 <= k < |timeframeDates| && timeframeDates[k].1 != []
      ensures all != []
    {
      AllDatesMembers(timeframeDates, timeframeDates[k].1[0]);
    }
    if all != [] {
      LexLeIsTotalPreorder();
      SortByHeadIsLeast(all, LexLe);
      AllDatesMembers(timeframeDates, start.value);
      forall k, x | 0 <= k < |timeframeDates| && x in timeframeDates[k].1 ensures LexLe(start.value, x) {
        AllDatesMembers(timeframeDates, x);
      }
    }
  }
}
