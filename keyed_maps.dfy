/**
 * Maps whose key is derived from the value stored under it.
 *
 * Both tables of the query engine work this way: an insert takes one entry,
 * computes the key from the entry's own fields and overwrites whatever was
 * stored under that key. This module states that operation once, for any key
 * derivation, together with what a serialized history of such inserts leaves
 * behind (the write locks of the engine serialize concurrent inserts).
 */
module KeyedMaps {

  /** Store `v` under the key it derives, replacing any previous value there. */
  function Insert<K, V>(m: map<K, V>, v: V, key: V -> K): (r: map<K, V>)
    ensures key(v) in r && r[key(v)] == v
    ensures r.Keys == m.Keys + {key(v)}
    ensures forall k :: k in m && k != key(v) ==> r[k] == m[k]
    ensures KeyedBy(m, key) ==> KeyedBy(r, key)
  {
    m[key(v) := v]
  }

  /** Every stored value sits under the key derived from it. */
  ghost predicate KeyedBy<K, V>(m: map<K, V>, key: V -> K)
  {
    forall k :: k in m ==> key(m[k]) == k
  }

  /** The map left by inserting `vs[0]`, then `vs[1]`, ..., in that order. */
  function InsertAll<K, V>(m: map<K, V>, vs: seq<V>, key: V -> K): map<K, V>
    decreases |vs|
  {
    if vs == [] then m
    else Insert(InsertAll(m, vs[..|vs| - 1], key), vs[|vs| - 1], key)
  }

  /** Some insert of `vs` writes key `k`. */
  ghost predicate WrittenIn<K, V>(vs: seq<V>, key: V -> K, k: K)
  {
    exists i :: 0 <= i < |vs| && key(vs[i]) == k
  }

  /** `vs[i]` is the last insert of `vs` that writes key `k`. */
  ghost predicate IsLastWrite<K, V>(vs: seq<V>, key: V -> K, k: K, i: int)
  {
    0 <= i < |vs| && key(vs[i]) == k && forall j :: i < j < |vs| ==> key(vs[j]) != k
  }

  /** No two inserts of `vs` write the same key. */
  ghost predicate DistinctKeys<K, V>(vs: seq<V>, key: V -> K)
  {
    forall i, j :: 0 <= i < j < |vs| ==> key(vs[i]) != key(vs[j])
  }

  /** A history of inserts keeps every value under its own key. */
  lemma {:induction false} InsertAllKeyedBy<K, V>(m: map<K, V>, vs: seq<V>, key: V -> K)
    requires KeyedBy(m, key)
    ensures KeyedBy(InsertAll(m, vs, key), key)
    decreases |vs|
  {
    if vs != [] {
      InsertAllKeyedBy(m, vs[..|vs| - 1], key);
    }
  }

  /**
   * Last writer wins: after a history of inserts, key `k` is present exactly
   * when it was present before or some insert wrote it; its value is that of
   * the last insert writing it, and a key no insert wrote keeps its old value
   * (or stays absent).
   */
  lemma {:induction false} InsertAllLookup<K, V>(m: map<K, V>, vs: seq<V>, key: V -> K, k: K)
    ensures k in InsertAll(m, vs, key) <==> k in m || WrittenIn(vs, key, k)
    ensures forall i :: IsLastWrite(vs, key, k, i) ==>
              k in InsertAll(m, vs, key) && InsertAll(m, vs, key)[k] == vs[i]
    ensures !WrittenIn(vs, key, k) && k in m ==>
              k in InsertAll(m, vs, key) && InsertAll(m, vs, key)[k] == m[k]
    decreases |vs|
  {
    if vs != [] {
      var n := |vs| - 1;
      var prefix := vs[..n];
      InsertAllLookup(m, prefix, key, k);
      assert forall i :: 0 <= i < n ==> prefix[i] == vs[i];
      if key(vs[n]) == k {
        assert WrittenIn(vs, key, k);
        forall i | IsLastWrite(vs, key, k, i)
          ensures i == n
        {
        }
      } else {
        assert WrittenIn(vs, key, k) <==> WrittenIn(prefix, key, k) by {
          if WrittenIn(vs, key, k) {
            var i :| 0 <= i < |vs| && key(vs[i]) == k;
            assert i < n && key(prefix[i]) == k;
          }
          if WrittenIn(prefix, key, k) {
            var i :| 0 <= i < |prefix| && key(prefix[i]) == k;
            assert key(vs[i]) == k;
          }
        }
        forall i | IsLastWrite(vs, key, k, i)
          ensures IsLastWrite(prefix, key, k, i)
        {
        }
      }
    }
  }

  /**
   * Inserting values whose keys are pairwise distinct and new loses nothing:
   * the map grows by exactly one entry per insert and every inserted value
   * can be looked up under its own key.
   */
  lemma {:induction false} InsertAllDistinct<K, V>(m: map<K, V>, vs: seq<V>, key: V -> K)
    requires DistinctKeys(vs, key)
    requires forall i :: 0 <= i < |vs| ==> key(vs[i]) !in m
    ensures |InsertAll(m, vs, key)| == |m| + |vs|
    ensures forall i :: 0 <= i < |vs| ==>
              key(vs[i]) in InsertAll(m, vs, key) && InsertAll(m, vs, key)[key(vs[i])] == vs[i]
    decreases |vs|
  {
    if vs != [] {
      var n := |vs| - 1;
      var prefix := vs[..n];
      var before := InsertAll(m, prefix, key);
      InsertAllDistinct(m, prefix, key);
      InsertAllLookup(m, prefix, key, key(vs[n]));
      assert !WrittenIn(prefix, key, key(vs[n]));
      assert |before.Keys + {key(vs[n])}| == |before.Keys| + 1;
      forall i | 0 <= i < |vs|
        ensures key(vs[i]) in InsertAll(m, vs, key) && InsertAll(m, vs, key)[key(vs[i])] == vs[i]
      {
        InsertAllLookup(m, vs, key, key(vs[i]));
        assert IsLastWrite(vs, key, key(vs[i]), i);
      }
    }
  }

  /**
   * The order in which inserts of distinct keys are serialized does not
   * matter: two histories made of the same inserts leave the same map.
   */
  lemma InsertAllOrderIrrelevant<K, V>(m: map<K, V>, vs: seq<V>, ws: seq<V>, key: V -> K)
    requires DistinctKeys(vs, key) && DistinctKeys(ws, key)
    requires multiset(vs) == multiset(ws)
    ensures InsertAll(m, vs, key) == InsertAll(m, ws, key)
  {
    var a, b := InsertAll(m, vs, key), InsertAll(m, ws, key);
    forall k | k in a.Keys + b.Keys
      ensures k in a && k in b && a[k] == b[k]
    {
      InsertAllLookup(m, vs, key, k);
      InsertAllLookup(m, ws, key, k);
      if WrittenIn(ws, key, k) {
        WrittenInSameHistory(ws, vs, key, k);
      }
      if WrittenIn(vs, key, k) {
        WrittenInSameHistory(vs, ws, key, k);
        var i :| 0 <= i < |vs| && key(vs[i]) == k;
        assert vs[i] in multiset(ws);
        var j :| 0 <= j < |ws| && ws[j] == vs[i];
        assert IsLastWrite(vs, key, k, i) && IsLastWrite(ws, key, k, j);
      }
    }
    assert a.Keys == b.Keys;
  }

  /** Two histories made of the same inserts write the same keys. */
  lemma WrittenInSameHistory<K, V>(vs: seq<V>, ws: seq<V>, key: V -> K, k: K)
    requires multiset(vs) == multiset(ws)
    requires WrittenIn(vs, key, k)
    ensures WrittenIn(ws, key, k)
  {
    var i :| 0 <= i < |vs| && key(vs[i]) == k;
    assert vs[i] in multiset(ws);
    var j :| 0 <= j < |ws| && ws[j] == vs[i];
  }

  /**
   * Overwriting is total: once a second value is inserted under the same key,
   * the first can no longer be observed anywhere in the map.
   */
  lemma OverwriteForgetsPrevious<K, V>(m: map<K, V>, a: V, b: V, key: V -> K)
    requires KeyedBy(m, key)
    requires key(a) == key(b)
    ensures Insert(Insert(m, a, key), b, key) == Insert(m, b, key)
    ensures a != b ==> a !in Insert(Insert(m, a, key), b, key).Values
  {
  }
}
