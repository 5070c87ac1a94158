/**
 * Python dictionaries keep their keys in insertion order; where that order
 * is visible (a manifest's entries, the lists of the master manifest) the
 * model keeps a dictionary as an association list with distinct keys.
 */
module Dicts {
  import opened Wrappers

  type Dict<K, V> = seq<(K, V)>

  predicate HasKey<K(==), V>(d: Dict<K, V>, k: K)
  {
    exists i :: 0 <= i < |d| && d[i].0 == k
  }

  predicate UniqueKeys<K(==), V>(d: Dict<K, V>)
  {
    forall i, j :: 0 <= i < j < |d| ==> d[i].0 != d[j].0
  }

  /** `d.get(k)`. */
  function Get<K(==), V>(d: Dict<K, V>, k: K): (r: Option<V>)
    ensures r.Some? <==> HasKey(d, k)
    ensures r.Some? ==> exists i :: 0 <= i < |d| && d[i] == (k, r.value)
  {
    if d == [] then None
    else if d[0].0 == k then Some(d[0].1)
    else
      var r := Get(d[1..], k);
      assert r.Some? ==> exists i :: 0 <= i < |d[1..]| && d[1..][i] == (k, r.value);
      assert HasKey(d[1..], k) ==> HasKey(d, k) by {
        if HasKey(d[1..], k) {
          var i :| 0 <= i < |d[1..]| && d[1..][i].0 == k;
          assert d[i + 1].0 == k;
        }
      }
      r
  }

  /** `d[k] = v`: an existing key keeps its place, a new key goes last. */
  function Put<K(==), V>(d: Dict<K, V>, k: K, v: V): (r: Dict<K, V>)
    ensures HasKey(d, k) ==> |r| == |d|
    ensures !HasKey(d, k) ==> r == d + [(k, v)]
  {
    if d == [] then [(k, v)]
    else if d[0].0 == k then [(k, v)] + d[1..]
    else
      assert HasKey(d, k) <==> HasKey(d[1..], k) by {
        if HasKey(d, k) {
          var i :| 0 <= i < |d| && d[i].0 == k;
          assert d[1..][i - 1].0 == k;
        }
      }
      [d[0]] + Put(d[1..], k, v)
  }

  /** `d.pop(k, None)` with the popped value returned. */
  function Remove<K(==), V>(d: Dict<K, V>, k: K): (r: Dict<K, V>)
    ensures |r| <= |d|
  {
    if d == [] then []
    else if d[0].0 == k then d[1..]
    else [d[0]] + Remove(d[1..], k)
  }

  lemma {:induction false} GetPut<K, V>(d: Dict<K, V>, k: K, v: V, k': K)
    ensures Get(Put(d, k, v), k') == if k' == k then Some(v) else Get(d, k')
  {
    if d != [] && d[0].0 != k {
      GetPut(d[1..], k, v, k');
    }
  }

  lemma {:induction false} PutKeepsUnique<K, V>(d: Dict<K, V>, k: K, v: V)
    requires UniqueKeys(d)
    ensures UniqueKeys(Put(d, k, v))
    ensures forall i :: 0 <= i < |d| ==> Put(d, k, v)[i].0 == d[i].0
  {
    if d != [] && d[0].0 != k {
      PutKeepsUnique(d[1..], k, v);
      var r := Put(d, k, v);
      assert r == [d[0]] + Put(d[1..], k, v);
      assert forall i :: 0 < i < |r| ==> r[i].0 != d[0].0 by {
        forall i | 0 < i < |r| ensures r[i].0 != d[0].0 {
          if i - 1 < |d[1..]| {
            assert r[i].0 == d[i].0;
          } else {
            assert !HasKey(d[1..], k);
            assert r[i].0 == k;
          }
        }
      }
    } else if d != [] {
      var r := Put(d, k, v);
      assert forall i :: 0 <= i < |d| ==> r[i].0 == d[i].0;
    }
  }

  lemma {:induction false} GetRemove<K, V>(d: Dict<K, V>, k: K, k': K)
    requires UniqueKeys(d)
    ensures Get(Remove(d, k), k') == if k' == k then None else Get(d, k')
    ensures UniqueKeys(Remove(d, k))
  {
    if d == [] {
    } else if d[0].0 == k {
      forall i | 0 <= i < |d[1..]| ensures d[1..][i].0 != k {
        assert d[1..][i] == d[i + 1];
      }
      assert UniqueKeys(d[1..]);
    } else {
      assert UniqueKeys(d[1..]);
      GetRemove(d[1..], k, k');
      forall x | HasKey(Remove(d[1..], k), x) ensures x != d[0].0 {
        RemoveKeys(d[1..], k, x);
        var j :| 0 <= j < |d[1..]| && d[1..][j].0 == x;
        assert d[j + 1] == d[1..][j];
      }
      var r := Remove(d, k);
      assert r == [d[0]] + Remove(d[1..], k);
      forall i | 0 < i < |r| ensures r[i].0 != d[0].0 {
        assert HasKey(Remove(d[1..], k), r[i].0) by {
          assert Remove(d[1..], k)[i - 1] == r[i];
        }
      }
    }
  }

  lemma {:induction false} RemoveKeys<K, V>(d: Dict<K, V>, k: K, x: K)
    requires HasKey(Remove(d, k), x)
    ensures HasKey(d, x)
  {
    var r := Remove(d, k);
    var i :| 0 <= i < |r| && r[i].0 == x;
    if d[0].0 == k {
      assert d[i + 1] == r[i];
    } else if i == 0 {
      assert d[0] == r[0];
    } else {
      assert r == [d[0]] + Remove(d[1..], k);
      assert Remove(d[1..], k)[i - 1] == r[i];
      RemoveKeys(d[1..], k, x);
      var j :| 0 <= j < |d[1..]| && d[1..][j].0 == x;
      assert d[j + 1] == d[1..][j];
    }
  }
}
