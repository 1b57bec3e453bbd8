/**
 * Generic sequence operations the services use: list comprehensions with a
 * condition (`[x for x in s if p(x)]`), slices `s[:n]`, and pandas'
 * `.unique()` (distinct values in first-appearance order).
 */
module Seqs {

  predicate Distinct<T(==)>(s: seq<T>) {
    forall i, j :: 0 <= i < j < |s| ==> s[i] != s[j]
  }

  /** `[x for x in s if p(x)]`, defined on the last element so that loops can follow it. */
  function Filter<T>(s: seq<T>, p: T -> bool): (r: seq<T>)
    ensures |r| <= |s|
    ensures forall x :: x in r ==> x in s && p(x)
  {
    if s == [] then []
    else Filter(s[..|s| - 1], p) + (if p(s[|s| - 1]) then [s[|s| - 1]] else [])
  }

  /** `[f(x) for x in s]`. */
  function Map<T, U>(s: seq<T>, f: T -> U): (r: seq<U>)
    ensures |r| == |s|
    ensures forall i :: 0 <= i < |s| ==> r[i] == f(s[i])
  {
    seq(|s|, i requires 0 <= i < |s| => f(s[i]))
  }

  lemma MapSnoc<T, U>(s: seq<T>, x: T, f: T -> U)
    ensures Map(s + [x], f) == Map(s, f) + [f(x)]
  {
  }

  /** Nothing that passes the condition is lost. */
  lemma {:induction false} FilterComplete<T>(s: seq<T>, p: T -> bool, x: T)
    requires x in s && p(x)
    ensures x in Filter(s, p)
  {
    if s[|s| - 1] != x {
      assert x in s[..|s| - 1];
      FilterComplete(s[..|s| - 1], p, x);
    }
  }

  /** Filtering keeps the relative order, so it keeps distinctness. */
  lemma {:induction false} FilterDistinct<T>(s: seq<T>, p: T -> bool)
    requires Distinct(s)
    ensures Distinct(Filter(s, p))
  {
    if s != [] {
      FilterDistinct(s[..|s| - 1], p);
      assert s[|s| - 1] !in s[..|s| - 1];
    }
  }

  /** When nothing passes the condition, nothing is kept. */
  lemma {:induction false} FilterNone<T>(s: seq<T>, p: T -> bool)
    requires forall x :: x in s ==> !p(x)
    ensures Filter(s, p) == []
  {
    if s != [] {
      FilterNone(s[..|s| - 1], p);
    }
  }

  /** A filtered sequence appended with one more element. */
  lemma FilterSnoc<T>(s: seq<T>, x: T, p: T -> bool)
    ensures Filter(s + [x], p) == Filter(s, p) + (if p(x) then [x] else [])
  {
    assert (s + [x])[..|s|] == s;
  }

  /** The same filter, seen from the front of the sequence. */
  lemma {:induction false} FilterCons<T>(x: T, s: seq<T>, p: T -> bool)
    ensures Filter([x] + s, p) == (if p(x) then [x] else []) + Filter(s, p)
    decreases |s|
  {
    if s != [] {
      var s' := s[..|s| - 1];
      var last := s[|s| - 1];
      var head: seq<T> := if p(x) then [x] else [];
      var tail: seq<T> := if p(last) then [last] else [];
      var t := [x] + s;
      assert t[..|t| - 1] == [x] + s' && t[|t| - 1] == last;
      calc {
        Filter(t, p);
        Filter([x] + s', p) + tail;
        { FilterCons(x, s', p); }
        head + Filter(s', p) + tail;
        head + Filter(s, p);
      }
    }
  }

  /** `s[:n]`. */
  function Take<T>(s: seq<T>, n: nat): (r: seq<T>)
    ensures |r| <= n && |r| <= |s|
    ensures r == s[..|r|]
    ensures |s| >= n ==> |r| == n
  {
    if |s| <= n then s else s[..n]
  }

  /** Distinct values in first-appearance order, as pandas' `.unique()` returns them. */
  function Dedup<T(==)>(s: seq<T>): (r: seq<T>)
    ensures |r| <= |s|
    ensures forall x :: x in r ==> x in s
    ensures forall x :: x in s ==> x in r
  {
    if s == [] then []
    else
      var d := Dedup(s[..|s| - 1]);
      assert s == s[..|s| - 1] + [s[|s| - 1]];
      if s[|s| - 1] in d then d else d + [s[|s| - 1]]
  }

  lemma {:induction false} DedupDistinct<T>(s: seq<T>)
    ensures Distinct(Dedup(s))
  {
    if s != [] {
      DedupDistinct(s[..|s| - 1]);
    }
  }

  /** Where `x` first occurs in `s`. */
  function FirstIndex<T(==)>(s: seq<T>, x: T): (r: nat)
    requires x in s
    ensures r < |s| && s[r] == x
    ensures forall k :: 0 <= k < r ==> s[k] != x
  {
    var init := s[..|s| - 1];
    if x in init then FirstIndex(init, x) else |s| - 1
  }

  /** `Dedup` keeps the values in the order of their first occurrences. */
  lemma {:induction false} DedupOrder<T>(s: seq<T>)
    ensures forall i, j :: 0 <= i < j < |Dedup(s)| ==> FirstIndex(s, Dedup(s)[i]) < FirstIndex(s, Dedup(s)[j])
  {
    if s != [] {
      var init, x := s[..|s| - 1], s[|s| - 1];
      DedupOrder(init);
      var d, d0 := Dedup(s), Dedup(init);
      assert d == if x in d0 then d0 else d0 + [x];
      forall i, j | 0 <= i < j < |d|
        ensures FirstIndex(s, d[i]) < FirstIndex(s, d[j])
      {
        assert d[i] == d0[i] && d[i] in init;
        assert FirstIndex(s, d[i]) == FirstIndex(init, d[i]);
        if j < |d0| {
          assert d[j] == d0[j] && d[j] in init;
          assert FirstIndex(s, d[j]) == FirstIndex(init, d[j]);
          assert FirstIndex(init, d0[i]) < FirstIndex(init, d0[j]);
        } else {
          assert d[j] == x && x !in init;
          assert FirstIndex(s, d[j]) == |s| - 1;
          assert FirstIndex(init, d[i]) < |init|;
        }
      }
    }
  }

  lemma DedupSnoc<T>(s: seq<T>, x: T)
    ensures Dedup(s + [x]) == if x in s then Dedup(s) else Dedup(s) + [x]
  {
    assert (s + [x])[..|s|] == s;
  }

  /** No two elements share the same `f`-value (a name, an id). */
  predicate DistinctBy<T, K(==)>(s: seq<T>, f: T -> K) {
    forall i, j :: 0 <= i < j < |s| ==> f(s[i]) != f(s[j])
  }

  lemma {:induction false} FilterDistinctBy<T, K>(s: seq<T>, p: T -> bool, f: T -> K)
    requires DistinctBy(s, f)
    ensures DistinctBy(Filter(s, p), f)
  {
    if s != [] {
      var init := s[..|s| - 1];
      FilterDistinctBy(init, p, f);
      forall x | x in Filter(init, p) ensures f(x) != f(s[|s| - 1]) {
        var i :| 0 <= i < |init| && init[i] == x;
        assert s[i] == x;
      }
    }
  }

  /** The cardinality of the set of a sequence's elements is at most its length. */
  lemma {:induction false} ElemsCard<T>(s: seq<T>)
    ensures |set x | x in s| <= |s|
  {
    if s != [] {
      var init := s[..|s| - 1];
      ElemsCard(init);
      assert (set x | x in s) == (set x | x in init) + {s[|s| - 1]};
    }
  }

  lemma {:induction false} SubsetCard<T>(a: set<T>, b: set<T>)
    requires a <= b
    ensures |a| <= |b|
    decreases a
  {
    if a != {} {
      var x :| x in a;
      SubsetCard(a - {x}, b - {x});
    }
  }

  /** `f(xs[0]) + f(xs[1]) + ...`: the results of `f` concatenated in order. */
  function FlatMap<T, U>(xs: seq<T>, f: T -> seq<U>): seq<U> {
    if xs == [] then [] else FlatMap(xs[..|xs| - 1], f) + f(xs[|xs| - 1])
  }

  lemma FlatMapSnoc<T, U>(xs: seq<T>, x: T, f: T -> seq<U>)
    ensures FlatMap(xs + [x], f) == FlatMap(xs, f) + f(x)
  {
    assert (xs + [x])[..|xs|] == xs;
  }

  /** When each piece has at most `n` elements, the whole has at most `n` per piece. */
  lemma {:induction false} FlatMapLength<T, U>(xs: seq<T>, f: T -> seq<U>, n: nat)
    requires forall x :: x in xs ==> |f(x)| <= n
    ensures |FlatMap(xs, f)| <= n * |xs|
  {
    if xs != [] {
      FlatMapLength(xs[..|xs| - 1], f, n);
      assert xs[|xs| - 1] in xs;
      MultiplySucc(n, |xs| - 1);
    }
  }

  lemma MultiplySucc(n: nat, k: nat)
    ensures n * (k + 1) == n * k + n
  {
  }

  /** Every element comes from one of the pieces. */
  lemma {:induction false} FlatMapMembers<T, U>(xs: seq<T>, f: T -> seq<U>, y: U)
    requires y in FlatMap(xs, f)
    ensures exists k :: 0 <= k < |xs| && y in f(xs[k])
  {
    var init := xs[..|xs| - 1];
    if y in FlatMap(init, f) {
      FlatMapMembers(init, f, y);
      var k :| 0 <= k < |init| && y in f(init[k]);
      assert xs[k] == init[k];
    }
  }

  /** A condition and its negation split a sequence between them. */
  lemma {:induction false} FilterSplit<T>(s: seq<T>, p: T -> bool, q: T -> bool)
    requires forall x :: q(x) == !p(x)
    ensures |Filter(s, p)| + |Filter(s, q)| == |s|
  {
    if s != [] {
      FilterSplit(s[..|s| - 1], p, q);
    }
  }
}
