/**
 * Python's `sorted(s, key=k, reverse=True)` and `list.sort(key=k, reverse=True)`:
 * a stable sort into descending key order, in which elements with equal keys
 * keep their original relative order. rapidfuzz's `process.extract` orders its
 * results the same way (score descending, ties by position).
 */
module Ranking {
  import opened Seqs

  predicate SortedDesc<T>(s: seq<T>, key: T -> real) {
    forall i, j :: 0 <= i < j < |s| ==> key(s[i]) >= key(s[j])
  }

  /** Place `x` after every element with a larger key and before the rest. */
  function InsertDesc<T>(x: T, s: seq<T>, key: T -> real): (r: seq<T>)
    ensures |r| == |s| + 1
    ensures multiset(r) == multiset(s) + multiset{x}
  {
    if s == [] || key(s[0]) <= key(x) then [x] + s
    else
      assert s == [s[0]] + s[1..];
      [s[0]] + InsertDesc(x, s[1..], key)
  }

  lemma {:induction false} InsertDescSorted<T>(x: T, s: seq<T>, key: T -> real)
    requires SortedDesc(s, key)
    ensures SortedDesc(InsertDesc(x, s, key), key)
  {
    if !(s == [] || key(s[0]) <= key(x)) {
      InsertDescSorted(x, s[1..], key);
      var r := InsertDesc(x, s, key);
      forall j | 1 <= j < |r| ensures key(r[0]) >= key(r[j]) {
        assert r[j] in multiset(InsertDesc(x, s[1..], key));
        assert r[j] == x || r[j] in s[1..];
      }
    }
  }

  /** The stable descending sort, by insertion from the front. */
  function SortDesc<T>(s: seq<T>, key: T -> real): (r: seq<T>)
    ensures |r| == |s|
    ensures multiset(r) == multiset(s)
  {
    if s == [] then []
    else
      assert s == [s[0]] + s[1..];
      InsertDesc(s[0], SortDesc(s[1..], key), key)
  }

  /** The sort's output is in descending key order. */
  lemma {:induction false} SortDescSorted<T>(s: seq<T>, key: T -> real)
    ensures SortedDesc(SortDesc(s, key), key)
  {
    if s != [] {
      SortDescSorted(s[1..], key);
      InsertDescSorted(s[0], SortDesc(s[1..], key), key);
    }
  }

  /** The elements whose key equals `c`. */
  function KeyIs<T>(key: T -> real, c: real): T -> bool {
    x => key(x) == c
  }

  lemma {:induction false} InsertDescStable<T>(x: T, s: seq<T>, key: T -> real, c: real)
    ensures Filter(InsertDesc(x, s, key), KeyIs(key, c))
         == (if key(x) == c then [x] else []) + Filter(s, KeyIs(key, c))
  {
    if s == [] || key(s[0]) <= key(x) {
      FilterCons(x, s, KeyIs(key, c));
    } else {
      var p := KeyIs(key, c);
      var tail := s[1..];
      var mine: seq<T> := if key(x) == c then [x] else [];
      var head: seq<T> := if p(s[0]) then [s[0]] else [];
      assert mine != [] ==> head == [];
      calc {
        Filter(InsertDesc(x, s, key), p);
        Filter([s[0]] + InsertDesc(x, tail, key), p);
        { FilterCons(s[0], InsertDesc(x, tail, key), p); }
        head + Filter(InsertDesc(x, tail, key), p);
        { InsertDescStable(x, tail, key, c); }
        head + (mine + Filter(tail, p));
        mine + (head + Filter(tail, p));
        { FilterCons(s[0], tail, p); assert s == [s[0]] + tail; }
        mine + Filter(s, p);
      }
    }
  }

  /** Stability: for every key value, the elements carrying it appear in the input's order. */
  lemma {:induction false} SortDescStable<T>(s: seq<T>, key: T -> real, c: real)
    ensures Filter(SortDesc(s, key), KeyIs(key, c)) == Filter(s, KeyIs(key, c))
  {
    if s != [] {
      var p := KeyIs(key, c);
      var tail := s[1..];
      var head: seq<T> := if key(s[0]) == c then [s[0]] else [];
      calc {
        Filter(SortDesc(s, key), p);
        Filter(InsertDesc(s[0], SortDesc(tail, key), key), p);
        { InsertDescStable(s[0], SortDesc(tail, key), key, c); }
        head + Filter(SortDesc(tail, key), p);
        { SortDescStable(tail, key, c); }
        head + Filter(tail, p);
        { FilterCons(s[0], tail, p); assert s == [s[0]] + tail; }
        Filter(s, p);
      }
    }
  }

  /** The position of the first element with the largest key. */
  function FirstMaxIndex<T>(s: seq<T>, key: T -> real): (i: nat)
    requires s != []
    ensures i < |s|
    ensures forall j :: 0 <= j < |s| ==> key(s[j]) <= key(s[i])
    ensures forall j :: 0 <= j < i ==> key(s[j]) < key(s[i])
  {
    if |s| == 1 then 0
    else
      var k := 1 + FirstMaxIndex(s[1..], key);
      assert forall j :: 1 <= j < |s| ==> s[j] == s[1..][j - 1];
      if key(s[0]) >= key(s[k]) then 0 else k
  }

  /** The head of the sorted sequence is the first element with the largest key. */
  lemma {:induction false} SortDescHead<T>(s: seq<T>, key: T -> real)
    requires s != []
    ensures SortDesc(s, key)[0] == s[FirstMaxIndex(s, key)]
  {
    if |s| > 1 {
      SortDescHead(s[1..], key);
      var t := SortDesc(s[1..], key);
      assert t[0] == s[1 + FirstMaxIndex(s[1..], key)];
    }
  }

  /** Filtering a sorted sequence keeps it sorted. */
  lemma {:induction false} FilterSortedDesc<T>(s: seq<T>, p: T -> bool, key: T -> real)
    requires SortedDesc(s, key)
    ensures SortedDesc(Filter(s, p), key)
  {
    if s != [] {
      var s' := s[..|s| - 1];
      FilterSortedDesc(s', p, key);
      var r := Filter(s, p);
      var r' := Filter(s', p);
      if p(s[|s| - 1]) {
        forall i | 0 <= i < |r'| ensures key(r'[i]) >= key(s[|s| - 1]) {
          assert r'[i] in s';
        }
      }
    }
  }

  lemma {:induction false} InsertDescDistinctBy<T, K>(x: T, s: seq<T>, key: T -> real, f: T -> K)
    requires DistinctBy(s, f)
    requires forall y :: y in s ==> f(y) != f(x)
    ensures DistinctBy(InsertDesc(x, s, key), f)
  {
    if !(s == [] || key(s[0]) <= key(x)) {
      var rest := InsertDesc(x, s[1..], key);
      InsertDescDistinctBy(x, s[1..], key, f);
      forall y | y in rest ensures f(y) != f(s[0]) {
        assert y in multiset(rest);
        assert y == x || y in s[1..];
      }
    }
  }

  /** Sorting keeps distinct names distinct. */
  lemma {:induction false} SortDescDistinctBy<T, K>(s: seq<T>, key: T -> real, f: T -> K)
    requires DistinctBy(s, f)
    ensures DistinctBy(SortDesc(s, key), f)
  {
    if s != [] {
      var sorted := SortDesc(s[1..], key);
      SortDescDistinctBy(s[1..], key, f);
      forall y | y in sorted ensures f(y) != f(s[0]) {
        assert y in multiset(sorted);
        assert y in s[1..];
      }
      InsertDescDistinctBy(s[0], sorted, key, f);
    }
  }
}
