/** `std::map<std::string, V>` as the sequence of its entries in key order: the
    tree the C++ library keeps is observable only through lookup, insertion and
    in-order iteration, which is what this module provides. */
module OrderedMap {
  import opened Wrappers
  import opened StringOrder

  /** Keys strictly increase, so no key occurs twice. */
  predicate Sorted<V>(m: seq<(string, V)>) {
    forall i, j :: 0 <= i < j < |m| ==> Less(m[i].0, m[j].0)
  }

  /** Every key of `m` lies strictly above `lo`. */
  predicate Above<V>(lo: string, m: seq<(string, V)>) {
    forall i :: 0 <= i < |m| ==> Less(lo, m[i].0)
  }

  function Keys<V>(m: seq<(string, V)>): set<string> {
    if |m| == 0 then {} else {m[0].0} + Keys(m[1..])
  }

  /** `m.find(k)` */
  function Get<V>(m: seq<(string, V)>, k: string): (r: Option<V>)
    ensures r.Some? <==> k in Keys(m)
  {
    if |m| == 0 then None
    else if m[0].0 == k then Some(m[0].1)
    else Get(m[1..], k)
  }

  /** The mapped values in ascending key order, as a range-for over the map
      visits them. */
  function Values<V>(m: seq<(string, V)>): (r: seq<V>)
    ensures |r| == |m| && forall i :: 0 <= i < |m| ==> r[i] == m[i].1
  {
    seq(|m|, i requires 0 <= i < |m| => m[i].1)
  }

  lemma {:induction false} AboveExcludes<V>(lo: string, m: seq<(string, V)>)
    requires Above(lo, m)
    ensures lo !in Keys(m)
  {
    if |m| > 0 {
      LessIrreflexive(lo);
      AboveExcludes(lo, m[1..]);
    }
  }

  lemma SortedCons<V>(x: (string, V), m: seq<(string, V)>)
    requires Sorted(m) && Above(x.0, m)
    ensures Sorted([x] + m)
  {
  }

  /** Lowering the bound of a sorted map keeps it below every key. */
  lemma AboveSorted<V>(lo: string, m: seq<(string, V)>)
    requires Sorted(m) && |m| > 0 && Less(lo, m[0].0)
    ensures Above(lo, m)
  {
    forall i | 0 < i < |m|
      ensures Less(lo, m[i].0)
    {
      LessTransitive(lo, m[0].0, m[i].0);
    }
  }

  /** `m[k] = v`: overwrite the value under `k`, or insert `k` in key order. */
  function Put<V>(m: seq<(string, V)>, k: string, v: V): (r: seq<(string, V)>)
    requires Sorted(m)
    ensures Sorted(r)
    ensures Keys(r) == Keys(m) + {k}
    ensures Get(r, k) == Some(v)
    ensures forall k' :: k' != k ==> Get(r, k') == Get(m, k')
    ensures forall lo :: Above(lo, m) && Less(lo, k) ==> Above(lo, r)
  {
    if |m| == 0 then [(k, v)]
    else if m[0].0 == k then
      assert ([(k, v)] + m[1..])[1..] == m[1..];
      [(k, v)] + m[1..]
    else if Less(k, m[0].0) then
      AboveSorted(k, m);
      assert ([(k, v)] + m)[1..] == m;
      [(k, v)] + m
    else
      LessTotal(k, m[0].0);
      var rest := Put(m[1..], k, v);
      assert Above(m[0].0, m[1..]);
      assert Above(m[0].0, rest);
      SortedCons(m[0], rest);
      assert ([m[0]] + rest)[1..] == rest;
      [m[0]] + rest
  }

  /** Entries of a sorted map have pairwise different keys: one record per key. */
  lemma {:induction false} SortedKeyCount<V>(m: seq<(string, V)>)
    requires Sorted(m)
    ensures |Keys(m)| == |m|
  {
    if |m| > 0 {
      assert Above(m[0].0, m[1..]);
      AboveExcludes(m[0].0, m[1..]);
      SortedKeyCount(m[1..]);
    }
  }

  /** Writing a key twice leaves only the second write. */
  lemma {:induction false} PutPut<V>(m: seq<(string, V)>, k: string, a: V, b: V)
    requires Sorted(m)
    ensures Put(Put(m, k, a), k, b) == Put(m, k, b)
  {
    if |m| > 0 && m[0].0 != k && !Less(k, m[0].0) {
      LessTotal(k, m[0].0);
      LessAsymmetric(m[0].0, k);
      PutPut(m[1..], k, a, b);
      var r := Put(m, k, a);
      assert r[0] == m[0] && r[1..] == Put(m[1..], k, a);
    } else if |m| > 0 && m[0].0 != k {
      LessIrreflexive(k);
    }
  }

  /** Writing a key that is already present leaves the key set as it was. */
  lemma PutPresent<V>(m: seq<(string, V)>, k: string, v: V)
    requires Sorted(m) && k in Keys(m)
    ensures Keys(Put(m, k, v)) == Keys(m) && |Put(m, k, v)| == |m|
  {
    SortedKeyCount(m);
    SortedKeyCount(Put(m, k, v));
  }
}
