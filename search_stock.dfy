/**
 * The ticker search box: the `filteredTickers` memo and the `handleSelect`
 * state update.
 */
module SearchStock {
  import opened Seqs
  import opened Text

  /** An entry of the tickers list: `{ symbol, name }`. */
  datatype Ticker = Ticker(symbol: string, name: string)

  const MaxResults := 10

  /** Lines 14-16: the lower-cased symbol or name contains the lower-cased query. */
  predicate Matches(t: Ticker, query: string) {
    Contains(ToLower(t.symbol), ToLower(query)) || Contains(ToLower(t.name), ToLower(query))
  }

  /** `s.slice(0, n)`. */
  function Take<T>(s: seq<T>, n: nat): (r: seq<T>)
    ensures |r| == if |s| < n then |s| else n
    ensures r == s[..|r|]
  {
    if |s| <= n then s else s[..n]
  }

  /** Lines 10-18. */
  function FilteredTickers(tickers: seq<Ticker>, query: string): seq<Ticker> {
    if query == "" then [] else Take(Filter(tickers, (t: Ticker) => Matches(t, query)), MaxResults)
  }

  /** An empty query lists nothing; any other lists at most 10 entries, each a match and a listed ticker. */
  lemma FilteredTickersBounds(tickers: seq<Ticker>, query: string)
    ensures query == "" ==> FilteredTickers(tickers, query) == []
    ensures |FilteredTickers(tickers, query)| <= MaxResults
    ensures forall t :: t in FilteredTickers(tickers, query) ==> t in tickers && Matches(t, query)
  {
    if query != "" {
      var all := Filter(tickers, (t: Ticker) => Matches(t, query));
      var r := Take(all, MaxResults);
      forall t | t in r ensures t in all {
        var i :| 0 <= i < |r| && r[i] == t;
        assert all[i] == t;
      }
    }
  }

  /** The results are the first matches in the tickers' own order, and every match when there are at most 10. */
  lemma FilteredTickersAreFirstMatches(tickers: seq<Ticker>, query: string)
    requires query != ""
    ensures var all := Filter(tickers, (t: Ticker) => Matches(t, query));
      var r := FilteredTickers(tickers, query);
      && Subseq(r, tickers)
      && r == all[..|r|]
      && |r| == (if |all| < MaxResults then |all| else MaxResults)
      && (|all| <= MaxResults ==> forall t :: t in tickers && Matches(t, query) ==> t in r)
  {
    var p := (t: Ticker) => Matches(t, query);
    var all := Filter(tickers, p);
    var r := Take(all, MaxResults);
    FilterIsSubseq(tickers, p);
    PrefixSubseq(r, all);
    SubseqTransitive(r, all, tickers);
  }

  lemma {:induction false} PrefixSubseq<T>(a: seq<T>, b: seq<T>)
    requires |a| <= |b| && a == b[..|a|]
    ensures Subseq(a, b)
  {
    if a != [] {
      PrefixSubseq(a[1..], b[1..]);
    }
  }

  lemma {:induction false} SubseqTransitive<T>(a: seq<T>, b: seq<T>, c: seq<T>)
    requires Subseq(a, b) && Subseq(b, c)
    ensures Subseq(a, c)
    decreases |c|
  {
    if a != [] && c != [] {
      if b[0] == c[0] && Subseq(b[1..], c[1..]) {
        if a[0] == b[0] && Subseq(a[1..], b[1..]) {
          SubseqTransitive(a[1..], b[1..], c[1..]);
        } else {
          SubseqTransitive(a, b[1..], c[1..]);
        }
      } else {
        SubseqTransitive(a, b, c[1..]);
      }
    }
  }

  /** The search box's state: its query and whether the list is open, and the store's selected ticker. */
  class SearchBox {
    var query: string
    var isOpen: bool
    var selectedTicker: string

    constructor (selected: string)
      ensures query == "" && !isOpen && selectedTicker == selected
    {
      query := "";
      isOpen := false;
      selectedTicker := selected;
    }

    /** What the open list shows. */
    function Shown(tickers: seq<Ticker>): seq<Ticker>
      reads this
    {
      if isOpen then FilteredTickers(tickers, query) else []
    }

    /** Lines 37-40: typing sets the query and opens the list. */
    method Type(text: string)
      modifies this
      ensures query == text && isOpen && selectedTicker == old(selectedTicker)
    {
      query := text;
      isOpen := true;
    }

    /** Lines 20-24: selecting a ticker stores it, clears the query and closes the list. */
    method HandleSelect(symbol: string)
      modifies this
      ensures selectedTicker == symbol && query == "" && !isOpen
      ensures forall tickers :: Shown(tickers) == []
    {
      selectedTicker := symbol;
      query := "";
      isOpen := false;
    }
  }
}
