/**
 * The flat price rows the chart reads: `{ Date, Ticker, PriceUSD, Price<Metal>... }`.
 * A row's `Date` string is represented by the instant it parses to (epoch
 * milliseconds, the value `new Date(row.Date).getTime()` returns); the numeric
 * fields live in `values`, where an absent key stands for a JSON `null`.
 */
module Rows {
  import opened Seqs

  /** Epoch milliseconds. */
  type Date = int

  datatype Row = Row(date: Date, ticker: string, values: map<string, real>)

  const PriceUSDKey := "PriceUSD"

  /** The field named by the selected metal, `Price${referenceMetal}`. */
  function MetalKey(metal: string): string {
    "Price" + metal
  }

  /**
   * `row[key] || 0`. It is also what arithmetic reads from the field: JavaScript
   * coerces `null` to 0, and a stored 0 is 0 either way.
   */
  function ValueOrZero(row: Row, key: string): (v: real)
    ensures key in row.values ==> v == row.values[key]
    ensures key !in row.values ==> v == 0.0
  {
    if key in row.values then row.values[key] else 0.0
  }

  /** `row[key] || 1`: a falsy field (null or 0) falls back to 1, so the result is never 0. */
  function ValueOrOne(row: Row, key: string): (v: real)
    ensures v != 0.0
    ensures ValueOrZero(row, key) != 0.0 ==> v == ValueOrZero(row, key)
    ensures ValueOrZero(row, key) == 0.0 ==> v == 1.0
  {
    if key in row.values && row.values[key] != 0.0 then row.values[key] else 1.0
  }

  /** The comparator `(a, b) => new Date(a.Date) - new Date(b.Date)`, as an ordering. */
  function DateLe(a: Row, b: Row): bool {
    a.date <= b.date
  }

  lemma DateLeIsTotalPreorder()
    ensures TotalPreorder(DateLe)
  {
  }

  /** `rows.sort(byDate)`: ascending by date, the same rows. */
  function SortByDate(rows: seq<Row>): (r: seq<Row>)
    ensures |r| == |rows| && multiset(r) == multiset(rows)
    ensures forall i, j :: 0 <= i < j < |r| ==> r[i].date <= r[j].date
    ensures forall x :: x in r <==> x in rows
  {
    DateLeIsTotalPreorder();
    SortBySorted(rows, DateLe);
    SortByMembers(rows, DateLe);
    var r := SortBy(rows, DateLe);
    assert forall i, j :: 0 <= i < j < |r| ==> DateLe(r[i], r[j]);
    r
  }

  /** `data.filter(item => item.Ticker === ticker)`. */
  function RowsOf(data: seq<Row>, ticker: string): (r: seq<Row>)
    ensures forall x :: x in r <==> x in data && x.ticker == ticker
    ensures forall x :: multiset(r)[x] == if x.ticker == ticker then multiset(data)[x] else 0
  {
    FilterMultiset(data, (x: Row) => x.ticker == ticker);
    Filter(data, (x: Row) => x.ticker == ticker)
  }

  lemma RowsOfIsSubseq(data: seq<Row>, ticker: string)
    ensures Subseq(RowsOf(data, ticker), data)
  {
    FilterIsSubseq(data, (x: Row) => x.ticker == ticker);
  }
}
