/**
 * Order-independent building blocks of the dashboard's table queries:
 * boolean-mask filtering, sorting by a numeric column, `head(n)` after a
 * descending sort, `idxmax` and `unique`.  The sorts promise only that the
 * result is ordered and a permutation of the input: the order among rows
 * with equal keys is not part of any contract.
 */
module Ranking {

  function Min(a: int, b: int): int {
    if a <= b then a else b
  }

  /** Non-decreasing by `key`. */
  ghost predicate Ascending<T>(s: seq<T>, key: T -> real) {
    forall i, j :: 0 <= i < j < |s| ==> key(s[i]) <= key(s[j])
  }

  /** Non-increasing by `key`. */
  ghost predicate Descending<T>(s: seq<T>, key: T -> real) {
    forall i, j :: 0 <= i < j < |s| ==> key(s[i]) >= key(s[j])
  }

  /** No two elements share an `id`. */
  ghost predicate DistinctBy<T, K>(s: seq<T>, id: T -> K) {
    forall i, j :: 0 <= i < j < |s| ==> id(s[i]) != id(s[j])
  }

  /** `a` is obtained from `b` by deleting elements, keeping the order. */
  ghost predicate IsSubseq<T>(a: seq<T>, b: seq<T>)
    decreases |b|
  {
    if |a| == 0 then true
    else if |b| == 0 then false
    else (a[0] == b[0] && IsSubseq(a[1..], b[1..])) || IsSubseq(a, b[1..])
  }

  /** Boolean-mask selection `df[mask]`: keeps the rows that satisfy `p`, in order. */
  function Filter<T(==,!new)>(s: seq<T>, p: T -> bool): (r: seq<T>)
    ensures forall x :: x in r <==> x in s && p(x)
    ensures forall x :: multiset(r)[x] == if p(x) then multiset(s)[x] else 0
    ensures |r| <= |s|
    ensures IsSubseq(r, s)
  {
    if |s| == 0 then []
    else
      assert s == [s[0]] + s[1..];
      var rest := Filter(s[1..], p);
      if p(s[0]) then [s[0]] + rest else rest
  }

  lemma {:induction false} FilterAscending<T(!new)>(s: seq<T>, p: T -> bool, key: T -> real)
    requires Ascending(s, key)
    ensures Ascending(Filter(s, p), key)
  {
    if |s| > 0 {
      FilterAscending(s[1..], p, key);
      var rest := Filter(s[1..], p);
      if p(s[0]) {
        assert Filter(s, p) == [s[0]] + rest;
        forall y | y in rest ensures key(s[0]) <= key(y) {
          HeadIsLeast(s, y, key);
        }
      }
    }
  }

  lemma HeadIsLeast<T>(s: seq<T>, y: T, key: T -> real)
    requires Ascending(s, key)
    requires |s| > 0 && y in s[1..]
    ensures key(s[0]) <= key(y)
  {
    var k :| 0 <= k < |s[1..]| && s[1..][k] == y;
    assert s[k + 1] == y;
  }

  /** A filter whose predicate holds of every element keeps the whole sequence. */
  lemma {:induction false} FilterAll<T(!new)>(s: seq<T>, p: T -> bool)
    requires forall x :: x in s ==> p(x)
    ensures Filter(s, p) == s
  {
    if |s| > 0 {
      assert s == [s[0]] + s[1..];
      assert forall x :: x in s[1..] ==> x in s;
      FilterAll(s[1..], p);
      assert Filter(s, p) == [s[0]] + Filter(s[1..], p);
    }
  }

  /** Inserts `x` into an ascending sequence. */
  function Insert<T>(x: T, s: seq<T>, key: T -> real): (r: seq<T>)
    requires Ascending(s, key)
    ensures |r| == |s| + 1
    ensures multiset(r) == multiset(s) + multiset{x}
    ensures key(r[0]) == key(x) || (|s| > 0 && key(r[0]) == key(s[0]))
    ensures Ascending(r, key)
  {
    if |s| == 0 then [x]
    else if key(x) <= key(s[0]) then [x] + s
    else
      assert s == [s[0]] + s[1..];
      [s[0]] + Insert(x, s[1..], key)
  }

  /** `sort_values(column)` ascending. */
  function SortBy<T>(s: seq<T>, key: T -> real): (r: seq<T>)
    ensures |r| == |s|
    ensures multiset(r) == multiset(s)
    ensures Ascending(r, key)
  {
    if |s| == 0 then []
    else
      assert s == [s[0]] + s[1..];
      Insert(s[0], SortBy(s[1..], key), key)
  }

  /** `sort_values(column, ascending=False)`. */
  function SortDescBy<T>(s: seq<T>, key: T -> real): (r: seq<T>)
    ensures |r| == |s|
    ensures multiset(r) == multiset(s)
    ensures Descending(r, key)
  {
    var r := SortBy(s, x => -key(x));
    assert forall i, j :: 0 <= i < j < |r| ==> -key(r[i]) <= -key(r[j]);
    r
  }

  /**
   * `sort_values(column, ascending=False).head(n)`: the `n` largest
   * elements (all of them when there are fewer), largest first, and no
   * element left out ranks above one that was kept.
   */
  function TopN<T(==,!new)>(s: seq<T>, key: T -> real, n: nat): (r: seq<T>)
    ensures |r| == Min(n, |s|)
    ensures multiset(r) <= multiset(s)
    ensures |s| <= n ==> multiset(r) == multiset(s)
    ensures Descending(r, key)
    ensures forall x, y :: x in multiset(s) - multiset(r) && y in r ==> key(x) <= key(y)
  {
    var t := SortDescBy(s, key);
    var k := Min(n, |s|);
    PrefixSplit(t, k, key);
    t[..k]
  }

  lemma PrefixSplit<T>(t: seq<T>, k: nat, key: T -> real)
    requires k <= |t|
    requires Descending(t, key)
    ensures multiset(t) - multiset(t[..k]) == multiset(t[k..])
    ensures multiset(t[..k]) <= multiset(t)
    ensures forall x, y :: x in multiset(t[k..]) && y in t[..k] ==> key(x) <= key(y)
  {
    assert t == t[..k] + t[k..];
    forall x, y | x in multiset(t[k..]) && y in t[..k] ensures key(x) <= key(y) {
      assert x in t[k..];
      var j :| 0 <= j < |t[k..]| && t[k..][j] == x;
      var i :| 0 <= i < k && t[..k][i] == y;
      assert t[i] == y && t[k + j] == x;
    }
  }

  /**
   * `idxmax` over the rows satisfying `p` (one `groupby` group), as a
   * position in the whole table: the first of those rows with the largest key.
   */
  function ArgMaxWhere<T>(s: seq<T>, p: T -> bool, key: T -> real): (k: nat)
    requires exists i :: 0 <= i < |s| && p(s[i])
    ensures k < |s| && p(s[k])
    ensures forall j :: 0 <= j < |s| && p(s[j]) ==> key(s[j]) <= key(s[k])
    ensures forall j :: 0 <= j < k && p(s[j]) ==> key(s[j]) < key(s[k])
    decreases |s|
  {
    var n := |s| - 1;
    var init := s[..n];
    assert forall j :: 0 <= j < n ==> init[j] == s[j];
    if !p(s[n]) then
      ArgMaxWhere(init, p, key)
    else if forall j :: 0 <= j < n ==> !p(s[j]) then
      n
    else
      var k := ArgMaxWhere(init, p, key);
      if key(s[n]) > key(s[k]) then n else k
  }

  /** `unique()`: each value once, in order of first appearance. */
  function Distinct<T(==,!new)>(s: seq<T>): (r: seq<T>)
    ensures forall x :: x in r <==> x in s
    ensures forall i, j :: 0 <= i < j < |r| ==> r[i] != r[j]
    ensures |r| == |set x | x in s|
  {
    if |s| == 0 then []
    else
      var init := s[..|s| - 1];
      var last := s[|s| - 1];
      assert s == init + [last];
      var d := Distinct(init);
      assert (set x | x in s) == (set x | x in init) + {last};
      if last in d then
        assert (set x | x in s) == (set x | x in init);
        d
      else
        assert (set x | x in init) !! {last};
        d + [last]
  }

  /** No value occurs twice in a sequence whose elements have distinct ids. */
  lemma {:induction false} DistinctCountAtMostOne<T, K>(s: seq<T>, id: T -> K, x: T)
    requires DistinctBy(s, id)
    ensures multiset(s)[x] <= 1
  {
    if |s| > 0 {
      assert s == [s[0]] + s[1..];
      assert DistinctBy(s[1..], id);
      DistinctCountAtMostOne(s[1..], id, x);
      if x == s[0] {
        assert x !in s[1..];
      }
    }
  }

  /** Two positions holding the same value count twice in the multiset. */
  lemma RepeatCountsTwice<T>(s: seq<T>, i: nat, j: nat)
    requires i < j < |s| && s[i] == s[j]
    ensures multiset(s)[s[i]] >= 2
  {
    assert s == s[..j] + s[j..];
    assert s[i] in s[..j];
    assert s[j] in s[j..];
  }

  /** Any sub-multiset of a sequence with distinct ids has distinct ids too. */
  lemma SubMultisetDistinct<T, K>(a: seq<T>, b: seq<T>, id: T -> K)
    requires multiset(a) <= multiset(b)
    requires DistinctBy(b, id)
    ensures DistinctBy(a, id)
  {
    forall i, j | 0 <= i < j < |a| ensures id(a[i]) != id(a[j]) {
      if id(a[i]) == id(a[j]) {
        assert a[i] in multiset(b) && a[j] in multiset(b);
        var p :| 0 <= p < |b| && b[p] == a[i];
        var q :| 0 <= q < |b| && b[q] == a[j];
        assert p == q;
        RepeatCountsTwice(a, i, j);
        DistinctCountAtMostOne(b, id, a[i]);
        assert false;
      }
    }
  }
}
