/** Ordered tables with distinct keys: a JavaScript object (members in insertion
    order, `obj[k] = v` replaces in place or appends, `delete obj[k]` removes)
    and a MongoDB collection (documents in natural order, keyed by `_id`). */
module Table {
  import opened Js

  predicate DistinctKeys<K(==), V>(t: seq<(K, V)>) {
    forall i, j :: 0 <= i < j < |t| ==> t[i].0 != t[j].0
  }

  predicate HasKey<K(==), V>(t: seq<(K, V)>, k: K) {
    exists i :: 0 <= i < |t| && t[i].0 == k
  }

  /** A sequence without repeated elements. */
  predicate NoDuplicates<T(==)>(xs: seq<T>) {
    forall i, j :: 0 <= i < j < |xs| ==> xs[i] != xs[j]
  }

  /** `t[k]`: the value stored under `k`, or None for `undefined`. */
  function Find<K(==), V>(t: seq<(K, V)>, k: K): (r: Option<V>)
    ensures r.Some? <==> HasKey(t, k)
    ensures r.Some? ==> exists i :: 0 <= i < |t| && t[i] == (k, r.value)
  {
    if t == [] then None
    else if t[0].0 == k then Some(t[0].1)
    else Find(t[1..], k)
  }

  /** `t[k] = v`: replaces the value in place when `k` is present, appends
      otherwise. */
  function Put<K(==), V>(t: seq<(K, V)>, k: K, v: V): (r: seq<(K, V)>)
    ensures HasKey(t, k) ==> |r| == |t|
    ensures !HasKey(t, k) ==> r == t + [(k, v)]
  {
    if t == [] then [(k, v)]
    else if t[0].0 == k then [(k, v)] + t[1..]
    else [t[0]] + Put(t[1..], k, v)
  }

  /** `delete t[k]`. */
  function Delete<K(==), V>(t: seq<(K, V)>, k: K): (r: seq<(K, V)>)
    ensures |r| <= |t|
    ensures !HasKey(r, k)
  {
    if t == [] then []
    else if t[0].0 == k then Delete(t[1..], k)
    else [t[0]] + Delete(t[1..], k)
  }

  lemma {:induction false} FindPut<K, V>(t: seq<(K, V)>, k: K, v: V, j: K)
    ensures Find(Put(t, k, v), j) == if j == k then Some(v) else Find(t, j)
  {
    if t != [] && t[0].0 != k {
      FindPut(t[1..], k, v, j);
    }
  }

  lemma {:induction false} FindDelete<K, V>(t: seq<(K, V)>, k: K, j: K)
    ensures Find(Delete(t, k), j) == if j == k then None else Find(t, j)
  {
    if t != [] {
      FindDelete(t[1..], k, j);
    }
  }

  lemma {:induction false} KeysOfPut<K, V>(t: seq<(K, V)>, k: K, v: V, j: K)
    ensures HasKey(Put(t, k, v), j) <==> j == k || HasKey(t, j)
  {
    FindPut(t, k, v, j);
  }

  lemma {:induction false} KeysOfDelete<K, V>(t: seq<(K, V)>, k: K, j: K)
    ensures HasKey(Delete(t, k), j) <==> j != k && HasKey(t, j)
  {
    FindDelete(t, k, j);
  }

  lemma {:induction false} DistinctPut<K, V>(t: seq<(K, V)>, k: K, v: V)
    requires DistinctKeys(t)
    ensures DistinctKeys(Put(t, k, v))
  {
    if t != [] && t[0].0 != k {
      DistinctPut(t[1..], k, v);
      var r := Put(t, k, v);
      forall j | 1 <= j < |r| ensures r[j].0 != t[0].0 {
        assert r[j] == Put(t[1..], k, v)[j - 1];
        assert HasKey(Put(t[1..], k, v), r[j].0);
        KeysOfPut(t[1..], k, v, r[j].0);
      }
    } else if t != [] {
      var r := Put(t, k, v);
      forall a, b | 0 <= a < b < |r| ensures r[a].0 != r[b].0 {
        assert r[b] == t[b];
        if a > 0 { assert r[a] == t[a]; }
      }
    }
  }

  lemma {:induction false} DistinctDelete<K, V>(t: seq<(K, V)>, k: K)
    requires DistinctKeys(t)
    ensures DistinctKeys(Delete(t, k))
  {
    if t != [] {
      DistinctDelete(t[1..], k);
      if t[0].0 != k {
        var r := Delete(t, k);
        forall j | 1 <= j < |r| ensures r[j].0 != t[0].0 {
          assert r[j] == Delete(t[1..], k)[j - 1];
          assert HasKey(Delete(t[1..], k), r[j].0);
          KeysOfDelete(t[1..], k, r[j].0);
        }
      }
    }
  }

  /** Deleting a key that is absent changes nothing. */
  lemma {:induction false} DeleteAbsent<K, V>(t: seq<(K, V)>, k: K)
    requires !HasKey(t, k)
    ensures Delete(t, k) == t
  {
    if t != [] {
      assert !HasKey(t[1..], k) by {
        forall i | 0 <= i < |t[1..]| ensures t[1..][i].0 != k {
          assert t[1..][i] == t[i + 1];
        }
      }
      DeleteAbsent(t[1..], k);
    }
  }

  lemma DistinctTail<K, V>(t: seq<(K, V)>)
    requires DistinctKeys(t) && t != []
    ensures DistinctKeys(t[1..])
  {
    forall i, j | 0 <= i < j < |t[1..]| ensures t[1..][i].0 != t[1..][j].0 {
      assert t[1..][i] == t[i + 1] && t[1..][j] == t[j + 1];
    }
  }

  /** Every element of `Put(t, k, v)` is `(k, v)` or an element of `t`. */
  lemma {:induction false} PutElements<K, V>(t: seq<(K, V)>, k: K, v: V)
    ensures forall e :: e in Put(t, k, v) ==> e == (k, v) || e in t
  {
    if t != [] && t[0].0 != k {
      PutElements(t[1..], k, v);
    }
  }

  /** Every element of `Delete(t, k)` is an element of `t`. */
  lemma {:induction false} DeleteElements<K, V>(t: seq<(K, V)>, k: K)
    ensures forall e :: e in Delete(t, k) ==> e in t
  {
    if t != [] {
      DeleteElements(t[1..], k);
    }
  }

  /** Within a table without duplicate keys, an element is what `Find` returns. */
  lemma FindElement<K, V>(t: seq<(K, V)>, i: nat)
    requires DistinctKeys(t) && i < |t|
    ensures Find(t, t[i].0) == Some(t[i].1)
  {
    var r := Find(t, t[i].0);
    var j :| 0 <= j < |t| && t[j] == (t[i].0, r.value);
    assert j == i;
  }

  /** Deleting a key just appended (and absent before) gives back the table. */
  lemma {:induction false} DeleteAppended<K, V>(t: seq<(K, V)>, k: K, v: V)
    requires !HasKey(t, k)
    ensures Delete(t + [(k, v)], k) == t
  {
    if t == [] {
      assert Delete([(k, v)], k) == Delete([(k, v)][1..], k);
    } else {
      assert !HasKey(t[1..], k) by {
        forall i | 0 <= i < |t[1..]| ensures t[1..][i].0 != k {
          assert t[1..][i] == t[i + 1];
        }
      }
      assert (t + [(k, v)])[1..] == t[1..] + [(k, v)];
      DeleteAppended(t[1..], k, v);
    }
  }
}
