/**
 * The S&P 500 collection script: the ticker list scraped from the web page,
 * cleaned for the download API, and the per-ticker `{ date: close }` maps
 * built from the downloaded frame. The scrape and the download are
 * parameters.
 */
module CollectData {
  import opened Wrappers

  /** The result of the scrape: an error (any exception) or the `Symbol` column. */
  datatype Scrape = ScrapeFailed | Symbols(symbols: seq<string>)

  /**
   * The downloaded weekly frame. `closes[ticker]` is the ticker's `Close`
   * column as `(date key, close)` rows, `None` for NaN; a ticker without the
   * column is absent (a `KeyError`).
   */
  datatype Frame = Frame(empty: bool, multiIndex: bool, tickers: seq<string>,
                         closes: map<string, seq<(string, Option<real>)>>)

  type Output = map<string, map<string, real>>

  /** `ticker.replace('.', '-')`. */
  function CleanTicker(t: string): (r: string)
    ensures |r| == |t|
    ensures forall i :: 0 <= i < |t| ==> r[i] == (if t[i] == '.' then '-' else t[i])
    ensures '.' !in r
  {
    seq(|t|, i requires 0 <= i < |t| => if t[i] == '.' then '-' else t[i])
  }

  /** Lines 16-31: the cleaned symbols, or `[]` on any failure. */
  function GetSp500Tickers(scrape: Scrape): (r: seq<string>)
    ensures scrape.ScrapeFailed? ==> r == []
    ensures scrape.Symbols? ==> |r| == |scrape.symbols|
    ensures scrape.Symbols? ==> forall i :: 0 <= i < |r| ==> r[i] == CleanTicker(scrape.symbols[i])
  {
    match scrape
    case ScrapeFailed => []
    case Symbols(symbols) => seq(|symbols|, i requires 0 <= i < |symbols| => CleanTicker(symbols[i]))
  }

  /** No cleaned ticker contains a '.'; a ticker that had none is kept as it was. */
  lemma CleanedTickers(scrape: Scrape)
    ensures var r := GetSp500Tickers(scrape);
      && (forall i :: 0 <= i < |r| ==> '.' !in r[i])
      && (scrape.Symbols? ==> forall i :: 0 <= i < |r| && '.' !in scrape.symbols[i] ==> r[i] == scrape.symbols[i])
  {
    var r := GetSp500Tickers(scrape);
    if scrape.Symbols? {
      forall i | 0 <= i < |r| && '.' !in scrape.symbols[i] ensures r[i] == scrape.symbols[i] {
        var t := scrape.symbols[i];
        assert forall j :: 0 <= j < |t| ==> t[j] != '.';
      }
    }
  }

  /** Lines 98-104: nothing is fetched without tickers; otherwise the GLD ETF is appended. */
  function TickersToFetch(scrape: Scrape): (r: Option<seq<string>>)
    ensures r.None? <==> GetSp500Tickers(scrape) == []
    ensures r.Some? ==> r.value == GetSp500Tickers(scrape) + ["GLD"]
  {
    var tickers := GetSp500Tickers(scrape);
    if tickers == [] then None else Some(tickers + ["GLD"])
  }

  /** Lines 66-73: the dict comprehension over the NaN-free closes; a repeated date keeps its last close. */
  function PriceMap(rows: seq<(string, Option<real>)>): map<string, real>
    decreases |rows|
  {
    if rows == [] then map[]
    else
      var last := rows[|rows| - 1];
      var m := PriceMap(rows[..|rows| - 1]);
      if last.1.Some? then m[last.0 := last.1.value] else m
  }

  /** One entry per date with a non-NaN close, holding the last such close of that date. */
  lemma PriceMapEntries(rows: seq<(string, Option<real>)>, date: string)
    ensures date in PriceMap(rows) <==> exists i :: 0 <= i < |rows| && rows[i].0 == date && rows[i].1.Some?
    ensures date in PriceMap(rows) ==>
      exists i :: 0 <= i < |rows| && rows[i] == (date, Some(PriceMap(rows)[date])) &&
                  forall j :: i < j < |rows| ==> rows[j].0 != date || rows[j].1.None?
  {
    PriceMapKeys(rows, date);
    if date in PriceMap(rows) {
      PriceMapLast(rows, date);
    }
  }

  lemma {:induction false} PriceMapKeys(rows: seq<(string, Option<real>)>, date: string)
    ensures date in PriceMap(rows) <==> exists i :: 0 <= i < |rows| && rows[i].0 == date && rows[i].1.Some?
    decreases |rows|
  {
    if rows != [] {
      var n := |rows| - 1;
      var init := rows[..n];
      PriceMapKeys(init, date);
      assert forall i :: 0 <= i < n ==> init[i] == rows[i];
    }
  }

  lemma {:induction false} PriceMapLast(rows: seq<(string, Option<real>)>, date: string)
    requires date in PriceMap(rows)
    ensures exists i :: 0 <= i < |rows| && rows[i] == (date, Some(PriceMap(rows)[date])) &&
                        forall j :: i < j < |rows| ==> rows[j].0 != date || rows[j].1.None?
    decreases |rows|
  {
    var n := |rows| - 1;
    var init := rows[..n];
    if rows[n].0 == date && rows[n].1.Some? {
      assert rows[n] == (date, Some(PriceMap(rows)[date]));
    } else {
      PriceMapLast(init, date);
      var i :| 0 <= i < n && init[i] == (date, Some(PriceMap(init)[date])) &&
               forall j :: i < j < n ==> init[j].0 != date || init[j].1.None?;
      assert rows[i] == init[i];
      assert forall j :: i < j < n ==> rows[j] == init[j];
    }
  }

  /** Lines 61-85: the output the script dumps, or nothing when there is no data. */
  function OutputData(data: Option<Frame>): Option<Output> {
    if data.None? || data.value.empty then None
    else if !data.value.multiIndex then Some(map[])
    else Some(CollectTickers(data.value, data.value.tickers))
  }

  /** Lines 63-80 over the tickers in order: a ticker with a column and at least one close gets its map. */
  function CollectTickers(frame: Frame, tickers: seq<string>): Output
    decreases |tickers|
  {
    if tickers == [] then map[]
    else
      var out := CollectTickers(frame, tickers[..|tickers| - 1]);
      var t := tickers[|tickers| - 1];
      if t in frame.closes && |PriceMap(frame.closes[t])| > 0 then out[t := PriceMap(frame.closes[t])] else out
  }

  /** A ticker is in the output exactly when it is listed, has a `Close` column and a non-NaN close; its map is its price map. */
  lemma {:induction false} CollectTickersEntries(frame: Frame, tickers: seq<string>, t: string)
    ensures var out := CollectTickers(frame, tickers);
      && (t in out <==> t in tickers && t in frame.closes && |PriceMap(frame.closes[t])| > 0)
      && (t in out ==> out[t] == PriceMap(frame.closes[t]))
    decreases |tickers|
  {
    if tickers != [] {
      var init := tickers[..|tickers| - 1];
      CollectTickersEntries(frame, init, t);
      assert tickers == init + [tickers[|tickers| - 1]];
    }
  }

  /** Lines 48-93: `output_data` is filled ticker by ticker; `None` is "nothing saved". */
  method ProcessAndSave(data: Option<Frame>) returns (saved: Option<Output>)
    ensures saved == OutputData(data)
  {
    if data.None? || data.value.empty {
      return None;
    }
    var outputData: Output := map[];
    if data.value.multiIndex {
      var tickers := data.value.tickers;
      for i := 0 to |tickers|
        invariant outputData == CollectTickers(data.value, tickers[..i])
      {
        var ticker := tickers[i];
        assert tickers[..i + 1][..i] == tickers[..i];
        if ticker in data.value.closes {
          var formattedData := PriceMap(data.value.closes[ticker]);
          if |formattedData| > 0 {
            outputData := outputData[ticker := formattedData];
          }
        }
      }
      assert tickers[..|tickers|] == tickers;
    }
    saved := Some(outputData);
  }

  /** No data, or an empty frame, saves nothing; a frame without per-ticker columns saves an empty object. */
  lemma SaveCases(data: Option<Frame>)
    ensures (data.None? || data.value.empty) <==> OutputData(data).None?
    ensures data.Some? && !data.value.empty && !data.value.multiIndex ==> OutputData(data) == Some(map[])
  {
  }
}
