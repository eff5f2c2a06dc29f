/**
 * Sequence utilities shared by the model: the `filter` of JavaScript arrays and
 * Python comprehensions, and the library sorts (`Array.prototype.sort` with a
 * comparator, Python's `sorted`), both modelled as a stable insertion sort over
 * a total preorder.
 */
module Seqs {

  /** `le` is total and transitive: what a sort comparator must be. */
  ghost predicate TotalPreorder<T(!new)>(le: (T, T) -> bool) {
    && (forall a, b :: le(a, b) || le(b, a))
    && (forall a, b, c :: le(a, b) && le(b, c) ==> le(a, c))
  }

  ghost predicate Sorted<T>(s: seq<T>, le: (T, T) -> bool) {
    forall i, j :: 0 <= i < j < |s| ==> le(s[i], s[j])
  }

  /** `a` is obtained from `b` by deleting elements, keeping the order. */
  ghost predicate Subseq<T>(a: seq<T>, b: seq<T>)
    decreases |b|
  {
    if a == [] then true
    else if b == [] then false
    else (a[0] == b[0] && Subseq(a[1..], b[1..])) || Subseq(a, b[1..])
  }

  /** The elements of `s` that satisfy `p`, in their original order. */
  function Filter<T(!new)>(s: seq<T>, p: T -> bool): (r: seq<T>)
    ensures |r| <= |s|
    ensures forall x :: x in r <==> x in s && p(x)
    ensures forall i :: 0 <= i < |r| ==> p(r[i])
  {
    if s == [] then [] else (if p(s[0]) then [s[0]] else []) + Filter(s[1..], p)
  }

  lemma {:induction false} FilterIsSubseq<T(!new)>(s: seq<T>, p: T -> bool)
    ensures Subseq(Filter(s, p), s)
  {
    if s != [] {
      FilterIsSubseq(s[1..], p);
      if p(s[0]) {
        assert Filter(s, p) == [s[0]] + Filter(s[1..], p);
      } else {
        assert Filter(s, p) == Filter(s[1..], p);
        SubseqDropFront(Filter(s[1..], p), s);
      }
    }
  }

  /** The filter keeps every occurrence of a kept element and none of the others. */
  lemma {:induction false} FilterMultiset<T(!new)>(s: seq<T>, p: T -> bool)
    ensures forall x :: multiset(Filter(s, p))[x] == if p(x) then multiset(s)[x] else 0
  {
    if s != [] {
      FilterMultiset(s[1..], p);
      assert s == [s[0]] + s[1..];
    }
  }

  lemma SubseqDropFront<T>(a: seq<T>, b: seq<T>)
    requires b != [] && Subseq(a, b[1..])
    ensures Subseq(a, b)
  {
  }

  /** Elements that satisfy `p` everywhere survive the filter unchanged. */
  lemma {:induction false} FilterAll<T(!new)>(s: seq<T>, p: T -> bool)
    requires forall i :: 0 <= i < |s| ==> p(s[i])
    ensures Filter(s, p) == s
  {
    if s != [] {
      FilterAll(s[1..], p);
    }
  }

  /** Filtering a sorted sequence by an upward-closed condition keeps a suffix. */
  lemma {:induction false} FilterUpwardClosedIsSuffix<T(!new)>(s: seq<T>, le: (T, T) -> bool, p: T -> bool)
    requires Sorted(s, le)
    requires forall x, y :: p(x) && le(x, y) ==> p(y)
    ensures exists k :: 0 <= k <= |s| && Filter(s, p) == s[k..]
  {
    if s == [] {
      assert Filter(s, p) == s[0..];
    } else if p(s[0]) {
      assert forall i :: 0 <= i < |s| ==> p(s[i]) by {
        forall i | 0 <= i < |s| ensures p(s[i]) {
          if i > 0 { assert le(s[0], s[i]); }
        }
      }
      FilterAll(s, p);
      assert Filter(s, p) == s[0..];
    } else {
      FilterUpwardClosedIsSuffix(s[1..], le, p);
      var k :| 0 <= k <= |s[1..]| && Filter(s[1..], p) == s[1..][k..];
      assert Filter(s, p) == s[k + 1..];
    }
  }

  /** An upward-closed filter of a sorted sequence keeps its last element when that one passes. */
  lemma FilterKeepsLast<T(!new)>(s: seq<T>, le: (T, T) -> bool, p: T -> bool)
    requires Sorted(s, le)
    requires forall x, y :: p(x) && le(x, y) ==> p(y)
    requires |s| > 0 && p(s[|s| - 1])
    ensures var f := Filter(s, p); |f| > 0 && f[|f| - 1] == s[|s| - 1]
  {
    FilterUpwardClosedIsSuffix(s, le, p);
    var k :| 0 <= k <= |s| && Filter(s, p) == s[k..];
    assert s[|s| - 1] in Filter(s, p);
  }

  /** A filter of a sorted sequence is sorted. */
  lemma {:induction false} FilterSorted<T(!new)>(s: seq<T>, le: (T, T) -> bool, p: T -> bool)
    requires Sorted(s, le)
    ensures Sorted(Filter(s, p), le)
  {
    if s != [] {
      FilterSorted(s[1..], le, p);
      var rest := Filter(s[1..], p);
      forall y | y in rest ensures le(s[0], y) {
        var j :| 0 <= j < |s[1..]| && s[1..][j] == y;
        assert s[j + 1] == y;
      }
    }
  }

  /** Inserts `x` before the first element it is `le` to (stable for a later sort). */
  function Insert<T>(x: T, s: seq<T>, le: (T, T) -> bool): (r: seq<T>)
    ensures |r| == |s| + 1
    ensures multiset(r) == multiset(s) + multiset{x}
  {
    if s == [] then [x]
    else if le(x, s[0]) then [x] + s
    else
      assert s == [s[0]] + s[1..];
      [s[0]] + Insert(x, s[1..], le)
  }

  lemma {:induction false} InsertSorted<T(!new)>(x: T, s: seq<T>, le: (T, T) -> bool)
    requires TotalPreorder(le) && Sorted(s, le)
    ensures Sorted(Insert(x, s, le), le)
  {
    if s != [] && !le(x, s[0]) {
      var tail := s[1..];
      assert Sorted(tail, le) by {
        forall i, j | 0 <= i < j < |tail| ensures le(tail[i], tail[j]) {
          assert tail[i] == s[i + 1] && tail[j] == s[j + 1];
        }
      }
      InsertSorted(x, tail, le);
      var rest := Insert(x, tail, le);
      assert le(s[0], x);
      assert forall y :: y in rest ==> le(s[0], y) by {
        forall y | y in rest ensures le(s[0], y) {
          assert y in multiset(rest);
          if y != x {
            assert y in multiset(tail);
            var j :| 0 <= j < |tail| && tail[j] == y;
            assert s[j + 1] == y;
          }
        }
      }
      var r := Insert(x, s, le);
      assert r == [s[0]] + rest;
      forall i, j | 0 <= i < j < |r| ensures le(r[i], r[j]) {
        if i == 0 {
          assert r[j] == rest[j - 1] && r[j] in rest;
        } else {
          assert r[i] == rest[i - 1] && r[j] == rest[j - 1];
        }
      }
    }
  }

  /** Stable insertion sort: the model of a library sort with comparator `le`. */
  function SortBy<T>(s: seq<T>, le: (T, T) -> bool): (r: seq<T>)
    ensures |r| == |s|
    ensures multiset(r) == multiset(s)
  {
    if s == [] then []
    else
      assert s == [s[0]] + s[1..];
      Insert(s[0], SortBy(s[1..], le), le)
  }

  lemma {:induction false} SortBySorted<T(!new)>(s: seq<T>, le: (T, T) -> bool)
    requires TotalPreorder(le)
    ensures Sorted(SortBy(s, le), le)
  {
    if s != [] {
      SortBySorted(s[1..], le);
      InsertSorted(s[0], SortBy(s[1..], le), le);
    }
  }

  /** Sorting keeps exactly the elements of the input. */
  lemma SortByMembers<T>(s: seq<T>, le: (T, T) -> bool)
    ensures forall x :: x in SortBy(s, le) <==> x in s
  {
    var r := SortBy(s, le);
    forall x ensures x in r <==> x in s {
      assert x in r <==> x in multiset(r);
      assert x in s <==> x in multiset(s);
    }
  }

  /** An already sorted input comes back unchanged. */
  lemma {:induction false} SortBySortedIsIdentity<T>(s: seq<T>, le: (T, T) -> bool)
    requires Sorted(s, le)
    ensures SortBy(s, le) == s
  {
    if s != [] {
      assert Sorted(s[1..], le) by {
        forall i, j | 0 <= i < j < |s[1..]| ensures le(s[1..][i], s[1..][j]) {
          assert s[1..][i] == s[i + 1] && s[1..][j] == s[j + 1];
        }
      }
      SortBySortedIsIdentity(s[1..], le);
      if |s| > 1 {
        assert le(s[0], s[1]);
        assert s[1..][0] == s[1];
      }
      assert s == [s[0]] + s[1..];
    }
  }

  /** The least element of a non-empty sequence under `le` heads its sorted copy. */
  lemma SortByHeadIsLeast<T(!new)>(s: seq<T>, le: (T, T) -> bool)
    requires TotalPreorder(le) && |s| > 0
    ensures SortBy(s, le)[0] in s
    ensures forall x :: x in s ==> le(SortBy(s, le)[0], x)
  {
    var r := SortBy(s, le);
    SortBySorted(s, le);
    SortByMembers(s, le);
    assert r[0] in r;
    forall x | x in s ensures le(r[0], x) {
      assert x in r;
      var j :| 0 <= j < |r| && r[j] == x;
      if j == 0 {
        assert le(x, x) || le(x, x);
      }
    }
  }
}
