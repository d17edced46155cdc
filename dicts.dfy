/**
 * Python dicts as the core uses them: insertion-ordered, one entry per key,
 * assignment to an existing key keeping its position and assignment to a
 * new key appending it.
 */
module Dicts {
  import opened Common

  /** An insertion-ordered dict, as its list of items. */
  type Dict<K, V> = seq<(K, V)>

  function Keys<K(==), V>(d: Dict<K, V>): (ks: seq<K>)
    ensures |ks| == |d| && forall i :: 0 <= i < |d| ==> ks[i] == d[i].0
  {
    if |d| == 0 then [] else [d[0].0] + Keys(d[1..])
  }

  /** No key occurs twice. */
  predicate DistinctKeys<K(==), V>(d: Dict<K, V>)
  {
    forall i, j :: 0 <= i < j < |d| ==> d[i].0 != d[j].0
  }

  /** The position of key `k`. */
  function Find<K(==), V>(d: Dict<K, V>, k: K): (r: Option<nat>)
    ensures r.Some? ==> r.value < |d| && d[r.value].0 == k && forall j :: 0 <= j < r.value ==> d[j].0 != k
    ensures r.None? ==> forall j :: 0 <= j < |d| ==> d[j].0 != k
  {
    if |d| == 0 then None
    else if d[0].0 == k then Some(0)
    else match Find(d[1..], k)
      case None => None
      case Some(i) => Some(i + 1)
  }

  /** `d.get(k)`. */
  function Lookup<K(==), V>(d: Dict<K, V>, k: K): Option<V>
  {
    match Find(d, k)
    case None => None
    case Some(i) => Some(d[i].1)
  }

  /** `d[k] = v`. */
  function Put<K(==), V>(d: Dict<K, V>, k: K, v: V): Dict<K, V>
  {
    match Find(d, k)
    case Some(i) => d[i := (k, v)]
    case None => d + [(k, v)]
  }

  /** A key found at position k, with no earlier occurrence, is what Find returns. */
  lemma FindAt<K, V>(d: Dict<K, V>, k: K, i: nat)
    requires i < |d| && d[i].0 == k
    requires forall j :: 0 <= j < i ==> d[j].0 != k
    ensures Find(d, k) == Some(i)
  {
  }

  /** After `d[k] = v`, `k` maps to `v` and every other key to what it mapped to before. */
  lemma {:induction false} LookupPut<K, V>(d: Dict<K, V>, k: K, v: V, q: K)
    ensures Lookup(Put(d, k, v), q) == if q == k then Some(v) else Lookup(d, q)
  {
    var u := Put(d, k, v);
    assert forall j :: 0 <= j < |d| ==> u[j].0 == d[j].0 || u[j] == (k, v);
    match Find(d, q)
    case Some(i) =>
      if q == k {
        FindAt(u, q, i);
      } else {
        assert u[i] == d[i];
        FindAt(u, q, i);
      }
    case None =>
      if q == k {
        FindAt(u, q, |d|);
      } else {
        assert forall j :: 0 <= j < |u| ==> u[j].0 != q;
      }
  }

  /** `d[k] = v` keeps the key order and appends a key that was not there. */
  lemma KeysPut<K, V>(d: Dict<K, V>, k: K, v: V)
    ensures Keys(Put(d, k, v)) == if k in Keys(d) then Keys(d) else Keys(d) + [k]
  {
    var u := Put(d, k, v);
    if k in Keys(d) {
      assert Find(d, k).Some?;
      assert Keys(u) == Keys(d);
    } else {
      assert Find(d, k).None?;
      assert Keys(u) == Keys(d) + [k];
    }
  }

  /** After `d[k] = v` the keys are the old keys and `k`. */
  lemma KeyInPut<K, V>(d: Dict<K, V>, k: K, v: V, q: K)
    ensures q in Keys(Put(d, k, v)) <==> q in Keys(d) || q == k
  {
    KeysPut(d, k, v);
  }

  /** `d[k] = v` keeps the keys distinct. */
  lemma PutKeepsDistinct<K, V>(d: Dict<K, V>, k: K, v: V)
    requires DistinctKeys(d)
    ensures DistinctKeys(Put(d, k, v))
  {
    KeysPut(d, k, v);
  }

  /** `dict(items)`: assigns each item in turn, so a repeated key keeps its last value. */
  function FromItems<K(==), V>(items: seq<(K, V)>): (d: Dict<K, V>)
    ensures DistinctKeys(d)
  {
    if |items| == 0 then []
    else
      var init := FromItems(items[..|items| - 1]);
      PutKeepsDistinct(init, items[|items| - 1].0, items[|items| - 1].1);
      Put(init, items[|items| - 1].0, items[|items| - 1].1)
  }

  /** `zip(ks, vs)`: pairs up to the shorter length. */
  function Zip<K, V>(ks: seq<K>, vs: seq<V>): (z: seq<(K, V)>)
    ensures |z| == if |ks| <= |vs| then |ks| else |vs|
    ensures forall i :: 0 <= i < |z| ==> z[i] == (ks[i], vs[i])
  {
    if |ks| == 0 || |vs| == 0 then [] else [(ks[0], vs[0])] + Zip(ks[1..], vs[1..])
  }

  /** A dict built from items starts with the first item's key. */
  lemma {:induction false} FromItemsFirst<K, V>(items: seq<(K, V)>)
    requires |items| > 0
    ensures |FromItems(items)| > 0 && Keys(FromItems(items))[0] == items[0].0
  {
    var init := items[..|items| - 1];
    var last := items[|items| - 1];
    KeysPut(FromItems(init), last.0, last.1);
    if |init| > 0 {
      FromItemsFirst(init);
      assert init[0] == items[0];
    } else {
      assert FromItems(init) == [];
    }
  }

  /** A key is in a dict built from items exactly when some item carries it. */
  lemma {:induction false} KeysFromItems<K, V>(items: seq<(K, V)>, k: K)
    ensures k in Keys(FromItems(items)) <==> exists i :: 0 <= i < |items| && items[i].0 == k
  {
    if |items| > 0 {
      var init := items[..|items| - 1];
      var last := items[|items| - 1];
      KeysFromItems(init, k);
      KeysPut(FromItems(init), last.0, last.1);
      if k in Keys(FromItems(items)) && k != last.0 {
        var i :| 0 <= i < |init| && init[i].0 == k;
        assert items[i].0 == k;
      }
      if exists i :: 0 <= i < |items| && items[i].0 == k {
        var i :| 0 <= i < |items| && items[i].0 == k;
        if i < |init| {
          assert init[i].0 == k;
        }
      }
    }
  }
}
