/**
 * Python's insertion-ordered `dict` as a sequence of (key, value) pairs:
 * `d.get(k)`, `d[k] = v` (an existing key keeps its position, a new key goes
 * last) and `dict(zip(keys, values))`.
 */
module Dicts {
  import opened Wrappers
  import opened Seqs

  type Dict<K, V> = seq<(K, V)>

  function Keys<K, V>(d: Dict<K, V>): (ks: seq<K>)
    ensures |ks| == |d|
    ensures forall i :: 0 <= i < |d| ==> ks[i] == d[i].0
  {
    seq(|d|, i requires 0 <= i < |d| => d[i].0)
  }

  lemma KeysSnoc<K, V>(d: Dict<K, V>, p: (K, V))
    ensures Keys(d + [p]) == Keys(d) + [p.0]
  {
    var a, b := Keys(d + [p]), Keys(d) + [p.0];
    assert |a| == |b|;
    forall i | 0 <= i < |a| ensures a[i] == b[i] {
      if i < |d| {
        assert (d + [p])[i] == d[i];
      }
    }
  }

  /** A dict never holds a key twice. */
  predicate WellFormed<K(==), V>(d: Dict<K, V>) {
    Distinct(Keys(d))
  }

  /** `d.get(k)`. */
  function Get<K(==), V>(d: Dict<K, V>, k: K): (r: Option<V>)
    ensures r.None? <==> k !in Keys(d)
    ensures r.Some? ==> (k, r.value) in d
  {
    if d == [] then None
    else if d[0].0 == k then Some(d[0].1)
    else
      assert Keys(d) == [d[0].0] + Keys(d[1..]);
      Get(d[1..], k)
  }

  /** `d.get(k)` finds the first pair with key `k`. */
  lemma {:induction false} GetFirst<K, V>(d: Dict<K, V>, i: nat)
    requires i < |d| && forall j :: 0 <= j < i ==> d[j].0 != d[i].0
    ensures Get(d, d[i].0) == Some(d[i].1)
  {
    if i > 0 {
      GetFirst(d[1..], i - 1);
    }
  }

  /** `d[k] = v`. */
  function Put<K(==), V>(d: Dict<K, V>, k: K, v: V): (r: Dict<K, V>)
    ensures Keys(r) == if k in Keys(d) then Keys(d) else Keys(d) + [k]
  {
    if d == [] then [(k, v)]
    else if d[0].0 == k then
      assert Keys([(k, v)] + d[1..]) == [k] + Keys(d[1..]);
      [(k, v)] + d[1..]
    else
      var rest := Put(d[1..], k, v);
      assert Keys(d) == [d[0].0] + Keys(d[1..]);
      assert Keys([d[0]] + rest) == [d[0].0] + Keys(rest);
      [d[0]] + rest
  }

  /** After `d[k] = v`, `k` maps to `v` and every other key to what it mapped to before. */
  lemma PutGet<K, V>(d: Dict<K, V>, k: K, v: V, k': K)
    requires WellFormed(d)
    ensures WellFormed(Put(d, k, v))
    ensures Get(Put(d, k, v), k') == if k' == k then Some(v) else Get(d, k')
  {
    PutWellFormed(d, k, v);
    PutGetAny(d, k, v, k');
  }

  lemma {:induction false} PutWellFormed<K, V>(d: Dict<K, V>, k: K, v: V)
    requires WellFormed(d)
    ensures WellFormed(Put(d, k, v))
  {
    if d != [] && d[0].0 != k {
      assert Keys(d) == [d[0].0] + Keys(d[1..]);
      PutWellFormed(d[1..], k, v);
      var rest := Put(d[1..], k, v);
      assert Put(d, k, v) == [d[0]] + rest;
      assert Keys([d[0]] + rest) == [d[0].0] + Keys(rest);
      assert d[0].0 !in Keys(d[1..]);
    }
  }

  /** The lookup half holds for any pair list: `Put` rewrites the first pair `Get` would find. */
  lemma {:induction false} PutGetAny<K, V>(d: Dict<K, V>, k: K, v: V, k': K)
    ensures Get(Put(d, k, v), k') == if k' == k then Some(v) else Get(d, k')
  {
    if d != [] {
      if d[0].0 == k {
        assert Put(d, k, v)[1..] == d[1..];
      } else {
        PutGetAny(d[1..], k, v, k');
        assert Put(d, k, v)[1..] == Put(d[1..], k, v);
      }
    }
  }

  /** The value the last pair with key `k` carries: what `dict(zip(...))` keeps. */
  function LastValue<K(==), V>(pairs: seq<(K, V)>, k: K): Option<V> {
    if pairs == [] then None
    else if pairs[|pairs| - 1].0 == k then Some(pairs[|pairs| - 1].1)
    else LastValue(pairs[..|pairs| - 1], k)
  }

  /** `dict(zip(keys, values))`: later pairs overwrite earlier ones with the same key. */
  function FromPairs<K(==), V>(pairs: seq<(K, V)>): Dict<K, V> {
    if pairs == [] then []
    else Put(FromPairs(pairs[..|pairs| - 1]), pairs[|pairs| - 1].0, pairs[|pairs| - 1].1)
  }

  /** The dict built from pairs lists each key in the order of its first appearance. */
  lemma {:induction false} FromPairsKeys<K, V>(pairs: seq<(K, V)>)
    ensures Keys(FromPairs(pairs)) == Dedup(Keys(pairs))
  {
    if pairs != [] {
      var init := pairs[..|pairs| - 1];
      var last := pairs[|pairs| - 1];
      var d := FromPairs(init);
      assert pairs == init + [last];
      calc {
        Keys(FromPairs(pairs));
        Keys(Put(d, last.0, last.1));
        if last.0 in Keys(d) then Keys(d) else Keys(d) + [last.0];
        { FromPairsKeys(init); }
        if last.0 in Keys(init) then Dedup(Keys(init)) else Dedup(Keys(init)) + [last.0];
        { DedupSnoc(Keys(init), last.0); }
        Dedup(Keys(init) + [last.0]);
        { KeysSnoc(init, last); }
        Dedup(Keys(pairs));
      }
    }
  }

  /** ... and never twice. */
  lemma FromPairsWellFormed<K, V>(pairs: seq<(K, V)>)
    ensures WellFormed(FromPairs(pairs))
  {
    FromPairsKeys(pairs);
    DedupDistinct(Keys(pairs));
  }

  /** Each key of the dict built from pairs carries the value of its last appearance. */
  lemma {:induction false} FromPairsGet<K, V>(pairs: seq<(K, V)>, k: K)
    ensures Get(FromPairs(pairs), k) == LastValue(pairs, k)
  {
    if pairs != [] {
      var init := pairs[..|pairs| - 1];
      var last := pairs[|pairs| - 1];
      FromPairsWellFormed(init);
      FromPairsGet(init, k);
      PutGet(FromPairs(init), last.0, last.1, k);
    }
  }

  /** `del d[k]`: every pair with key `k` dropped, the others kept in order. */
  function Remove<K(==,!new), V>(d: Dict<K, V>, k: K): (r: Dict<K, V>)
    ensures k !in Keys(r)
    ensures forall k' :: k' != k ==> Get(r, k') == Get(d, k')
  {
    if d == [] then []
    else if d[0].0 == k then Remove(d[1..], k)
    else
      var rest := Remove(d[1..], k);
      assert Keys([d[0]] + rest) == [d[0].0] + Keys(rest);
      assert ([d[0]] + rest)[1..] == rest;
      [d[0]] + rest
  }
}
