/**
 * The metals script: each metal's close history is merged into one table
 * keyed by date, `{ date: { metal: close } }`, which is then ordered by date.
 * The download of a history is the parameter `fetch`: it fails (the script
 * prints the error and moves on) or returns `(date string, close)` rows.
 */
module FetchMetals {
  import opened Seqs
  import opened Text

  type Table = map<string, map<string, real>>

  datatype Fetch = Failed | History(rows: seq<(string, real)>)

  /** The `METALS` dict: display name and futures ticker. */
  const Metals: seq<(string, string)> := [("Silver", "SI=F"), ("Platinum", "PL=F"), ("Palladium", "PA=F")]

  /** Lines 41-45: make sure the date has a dict, then set this metal's close in it. */
  function Record(data: Table, date: string, metal: string, close: real): (r: Table)
    ensures r.Keys == data.Keys + {date}
    ensures r[date] == (if date in data then data[date] else map[])[metal := close]
    ensures forall d :: d in data && d != date ==> r[d] == data[d]
  {
    var entry := if date in data then data[date] else map[];
    data[date := entry[metal := close]]
  }

  /** Lines 38-45: every row of one metal's history, in order. */
  function RecordHistory(data: Table, metal: string, rows: seq<(string, real)>): Table
    decreases |rows|
  {
    if rows == [] then data else RecordHistory(Record(data, rows[0].0, metal, rows[0].1), metal, rows[1..])
  }

  /** Lines 28-45 for one metal: a failed or empty download adds nothing. */
  function AddMetal(data: Table, metal: (string, string), fetch: string -> Fetch): Table {
    var f := fetch(metal.1);
    if f.Failed? || |f.rows| == 0 then data else RecordHistory(data, metal.0, f.rows)
  }

  /** Lines 27-48: the metals in order. */
  function MergeMetals(data: Table, metals: seq<(string, string)>, fetch: string -> Fetch): Table
    decreases |metals|
  {
    if metals == [] then data else MergeMetals(AddMetal(data, metals[0], fetch), metals[1..], fetch)
  }

  function Dates(rows: seq<(string, real)>): set<string> {
    set i | 0 <= i < |rows| :: rows[i].0
  }

  // ---------------------------------------------------------------------------
  // What one metal's history does to the table

  /** Recording one close leaves every other metal, and every other date, as it was. */
  lemma RecordKeepsOthers(data: Table, date: string, metal: string, close: real, d: string, m: string)
    requires d in data && m in data[d] && (d != date || m != metal)
    ensures var r := Record(data, date, metal, close); d in r && m in r[d] && r[d][m] == data[d][m]
  {
  }

  /**
   * After a history: the dates are the old ones plus the history's, another
   * metal's entries are untouched, and this metal is present on a date exactly
   * when it was before or the history has the date.
   */
  lemma {:induction false} RecordHistoryEffect(data: Table, metal: string, rows: seq<(string, real)>)
    decreases |rows|
    ensures var r := RecordHistory(data, metal, rows);
      && r.Keys == data.Keys + Dates(rows)
      && (forall d, m :: d in data && m in data[d] && m != metal ==> m in r[d] && r[d][m] == data[d][m])
      && (forall d, m :: d in r && m in r[d] && m != metal ==> d in data && m in data[d])
      && (forall d :: d in r ==> (metal in r[d] <==> (d in data && metal in data[d]) || d in Dates(rows)))
  {
    if rows != [] {
      var next := Record(data, rows[0].0, metal, rows[0].1);
      RecordHistoryEffect(next, metal, rows[1..]);
      DatesCons(rows);
    }
  }

  lemma DatesCons(rows: seq<(string, real)>)
    requires rows != []
    ensures Dates(rows) == {rows[0].0} + Dates(rows[1..])
  {
    forall x ensures x in Dates(rows) <==> x in {rows[0].0} + Dates(rows[1..]) {
      if x in Dates(rows) {
        var i :| 0 <= i < |rows| && rows[i].0 == x;
        if i > 0 { assert rows[1..][i - 1].0 == x; }
      }
      if x in Dates(rows[1..]) {
        var i :| 0 <= i < |rows[1..]| && rows[1..][i].0 == x;
        assert rows[i + 1].0 == x;
      }
    }
  }

  /** `v` is the close of the last row of `rows` dated `d`: the value a dict keeps when later rows overwrite earlier ones. */
  ghost predicate IsLastClose(rows: seq<(string, real)>, d: string, v: real) {
    exists i :: 0 <= i < |rows| && rows[i] == (d, v) && forall j :: i < j < |rows| ==> rows[j].0 != d
  }

  /**
   * After a history, this metal's entry on a date of the history holds the
   * last close of that date; on any other date it holds what it held before.
   */
  lemma {:induction false} RecordHistoryValue(data: Table, metal: string, rows: seq<(string, real)>, d: string)
    decreases |rows|
    ensures var r := RecordHistory(data, metal, rows);
      && (d in Dates(rows) ==> d in r && metal in r[d] && IsLastClose(rows, d, r[d][metal]))
      && (d !in Dates(rows) && d in data && metal in data[d] ==> d in r && metal in r[d] && r[d][metal] == data[d][metal])
  {
    if rows != [] {
      var next := Record(data, rows[0].0, metal, rows[0].1);
      var rest := rows[1..];
      RecordHistoryValue(next, metal, rest, d);
      DatesCons(rows);
      var r := RecordHistory(data, metal, rows);
      assert r == RecordHistory(next, metal, rest);
      if d in Dates(rest) {
        var i :| 0 <= i < |rest| && rest[i] == (d, r[d][metal]) && forall j :: i < j < |rest| ==> rest[j].0 != d;
        assert rows[i + 1] == rest[i];
        assert forall j :: i + 1 < j < |rows| ==> rows[j] == rest[j - 1];
      } else if d == rows[0].0 {
        assert forall j :: 0 < j < |rows| ==> rows[j] == rest[j - 1] && rest[j - 1].0 in Dates(rest);
        assert rows[0] == (d, r[d][metal]);
      }
    }
  }

  ghost predicate DistinctNames(metals: seq<(string, string)>) {
    forall i, j :: 0 <= i < j < |metals| ==> metals[i].0 != metals[j].0
  }

  /** The metal downloaded rows. */
  ghost predicate Contributes(metal: (string, string), fetch: string -> Fetch) {
    fetch(metal.1).History? && |fetch(metal.1).rows| > 0
  }

  /** The dates a metal's download brings in, none when it failed or was empty. */
  ghost function DatesOf(metal: (string, string), fetch: string -> Fetch): set<string> {
    if Contributes(metal, fetch) then Dates(fetch(metal.1).rows) else {}
  }

  /** One metal: its dates are added, it is present exactly on its own dates (and where it was), others are untouched. */
  lemma AddMetalEffect(data: Table, metal: (string, string), fetch: string -> Fetch, d: string, m: string)
    ensures var r := AddMetal(data, metal, fetch);
      && (d in r <==> d in data || d in DatesOf(metal, fetch))
      && (m != metal.0 ==> ((d in r && m in r[d]) <==> (d in data && m in data[d])))
      && (m != metal.0 && d in data && m in data[d] ==> r[d][m] == data[d][m])
      && (d in r ==> (metal.0 in r[d] <==> (d in data && metal.0 in data[d]) || d in DatesOf(metal, fetch)))
  {
    if Contributes(metal, fetch) {
      RecordHistoryEffect(data, metal.0, fetch(metal.1).rows);
    }
  }

  /**
   * Merging from a table without these metals: a date is present exactly when
   * it was or some metal brings it in, and each metal is present on a date
   * exactly when its own download has that date.
   */
  lemma {:induction false} MergeEntries(data: Table, metals: seq<(string, string)>, fetch: string -> Fetch, d: string)
    requires DistinctNames(metals)
    requires forall k :: 0 <= k < |metals| && d in data ==> metals[k].0 !in data[d]
    ensures var r := MergeMetals(data, metals, fetch);
      && (d in r <==> d in data || exists k :: 0 <= k < |metals| && d in DatesOf(metals[k], fetch))
      && (forall k :: 0 <= k < |metals| && d in r ==> (metals[k].0 in r[d] <==> d in DatesOf(metals[k], fetch)))
    decreases |metals|
  {
    if metals != [] {
      var head, rest := metals[0], metals[1..];
      var next := AddMetal(data, head, fetch);
      assert forall k :: 0 <= k < |rest| ==> rest[k] == metals[k + 1];
      forall k | 0 <= k < |rest| && d in next ensures rest[k].0 !in next[d] {
        AddMetalEffect(data, head, fetch, d, rest[k].0);
      }
      MergeEntries(next, rest, fetch, d);
      AddMetalEffect(data, head, fetch, d, head.0);
      var r := MergeMetals(data, metals, fetch);
      if d in r {
        MergeKeepsOther(next, rest, fetch, head.0, d);
      }
    }
  }

  /** One metal: on a date it downloaded, its entry is the last close of that date; elsewhere it is as before. */
  lemma AddMetalValue(data: Table, metal: (string, string), fetch: string -> Fetch, d: string)
    ensures var r := AddMetal(data, metal, fetch);
      && (d in DatesOf(metal, fetch) ==>
            d in r && metal.0 in r[d] && IsLastClose(fetch(metal.1).rows, d, r[d][metal.0]))
      && (d !in DatesOf(metal, fetch) && d in data && metal.0 in data[d] ==>
            d in r && metal.0 in r[d] && r[d][metal.0] == data[d][metal.0])
  {
    if Contributes(metal, fetch) {
      RecordHistoryValue(data, metal.0, fetch(metal.1).rows, d);
    }
  }

  /** Each metal's entry on a date it downloaded is the last close its download gave for that date. */
  lemma {:induction false} MergeValues(data: Table, metals: seq<(string, string)>, fetch: string -> Fetch,
                                       d: string, k: nat)
    requires DistinctNames(metals)
    requires k < |metals| && d in DatesOf(metals[k], fetch)
    ensures var r := MergeMetals(data, metals, fetch);
      d in r && metals[k].0 in r[d] && IsLastClose(fetch(metals[k].1).rows, d, r[d][metals[k].0])
    decreases |metals|
  {
    var head, rest := metals[0], metals[1..];
    var next := AddMetal(data, head, fetch);
    assert forall j :: 0 <= j < |rest| ==> rest[j] == metals[j + 1];
    if k == 0 {
      AddMetalValue(data, head, fetch, d);
      MergeKeepsOther(next, rest, fetch, head.0, d);
    } else {
      MergeValues(next, rest, fetch, d, k - 1);
    }
  }

  /** Metals later in the list never touch an earlier metal's entries. */
  lemma {:induction false} MergeKeepsOther(data: Table, metals: seq<(string, string)>, fetch: string -> Fetch,
                                            name: string, d: string)
    requires forall j :: 0 <= j < |metals| ==> metals[j].0 != name
    ensures var r := MergeMetals(data, metals, fetch);
      && (d in data && name in data[d] ==> d in r && name in r[d] && r[d][name] == data[d][name])
      && (d in r && name in r[d] ==> d in data && name in data[d])
    decreases |metals|
  {
    if metals != [] {
      AddMetalEffect(data, metals[0], fetch, d, name);
      assert forall j :: 0 <= j < |metals[1..]| ==> metals[1..][j] == metals[j + 1];
      MergeKeepsOther(AddMetal(data, metals[0], fetch), metals[1..], fetch, name, d);
    }
  }

  // ---------------------------------------------------------------------------
  // The script's loops and the final sort

  /** `(date, entry)` pairs ordered by date, as `sorted(data.items())` compares them. */
  function ItemLe(a: (string, map<string, real>), b: (string, map<string, real>)): bool {
    LexLe(a.0, b.0)
  }

  lemma ItemLeIsTotalPreorder()
    ensures TotalPreorder(ItemLe)
  {
    LexLeIsTotalPreorder();
  }

  /** `dict(sorted(data.items()))`: the items of `data`, ordered by date. */
  method SortedItems(data: Table) returns (items: seq<(string, map<string, real>)>)
    ensures |items| == |data|
    ensures forall p :: p in items <==> p.0 in data && data[p.0] == p.1
    ensures Sorted(items, ItemLe)
  {
    var collected: seq<(string, map<string, real>)> := [];
    var rest := data.Keys;
    while rest != {}
      invariant rest <= data.Keys
      invariant |collected| + |rest| == |data|
      invariant forall p :: p in collected <==> p.0 in data.Keys - rest && data[p.0] == p.1
      decreases |rest|
    {
      var k :| k in rest;
      assert forall p :: p in collected ==> p.0 != k;
      collected := collected + [(k, data[k])];
      rest := rest - {k};
    }
    ItemLeIsTotalPreorder();
    SortBySorted(collected, ItemLe);
    SortByMembers(collected, ItemLe);
    items := SortBy(collected, ItemLe);
  }

  /** Lines 38-45: the inner loop over one metal's history rows. */
  method RecordRows(data0: Table, metalName: string, rows: seq<(string, real)>) returns (data: Table)
    ensures data == RecordHistory(data0, metalName, rows)
  {
    data := data0;
    for r := 0 to |rows|
      invariant RecordHistory(data, metalName, rows[r..]) == RecordHistory(data0, metalName, rows)
    {
      var dateStr, close := rows[r].0, rows[r].1;
      ghost var prev := data;
      if dateStr !in data {
        data := data[dateStr := map[]];
      }
      data := data[dateStr := data[dateStr][metalName := close]];
      assert data == Record(prev, dateStr, metalName, close);
      assert rows[r..][1..] == rows[r + 1..];
    }
  }

  /** Lines 17-51: the loop over the metals fills `data`, then it is ordered by date. */
  method FetchData(fetch: string -> Fetch) returns (sortedData: seq<(string, map<string, real>)>)
    ensures forall p :: p in sortedData <==>
      p.0 in MergeMetals(map[], Metals, fetch) && MergeMetals(map[], Metals, fetch)[p.0] == p.1
    ensures |sortedData| == |MergeMetals(map[], Metals, fetch)|
    ensures Sorted(sortedData, ItemLe)
  {
    var data: Table := map[];
    for m := 0 to |Metals|
      invariant MergeMetals(data, Metals[m..], fetch) == MergeMetals(map[], Metals, fetch)
    {
      var metalName, tickerSymbol := Metals[m].0, Metals[m].1;
      var history := fetch(tickerSymbol);
      assert Metals[m..][1..] == Metals[m + 1..];
      if history.Failed? || |history.rows| == 0 {
        continue;
      }
      data := RecordRows(data, metalName, history.rows);
    }
    sortedData := SortedItems(data);
  }

  /**
   * The script's table: the dates are those some metal downloaded, each metal
   * sits exactly on its own dates, and there it holds the last close its
   * download gave for the date.
   */
  lemma MetalsTable(fetch: string -> Fetch, d: string)
    ensures var r := MergeMetals(map[], Metals, fetch);
      && (d in r <==> exists k :: 0 <= k < |Metals| && d in DatesOf(Metals[k], fetch))
      && (forall k :: 0 <= k < |Metals| && d in r ==> (Metals[k].0 in r[d] <==> d in DatesOf(Metals[k], fetch)))
      && (forall k :: 0 <= k < |Metals| && d in DatesOf(Metals[k], fetch) ==>
            IsLastClose(fetch(Metals[k].1).rows, d, r[d][Metals[k].0]))
  {
    MergeEntries(map[], Metals, fetch, d);
    forall k | 0 <= k < |Metals| && d in DatesOf(Metals[k], fetch)
      ensures var r := MergeMetals(map[], Metals, fetch);
        d in r && Metals[k].0 in r[d] && IsLastClose(fetch(Metals[k].1).rows, d, r[d][Metals[k].0])
    {
      MergeValues(map[], Metals, fetch, d, k);
    }
  }
}
