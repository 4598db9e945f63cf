/**
 * Python dictionaries, which iterate in insertion order: a sequence of
 * (key, value) pairs. Assigning an existing key keeps its position and
 * replaces its value; assigning a new key appends it.
 */
module Assoc {
  import opened Wrappers

  type Dict<K, V> = seq<(K, V)>

  function Keys<K, V>(d: Dict<K, V>): (r: seq<K>)
    ensures |r| == |d|
    ensures forall i :: 0 <= i < |d| ==> r[i] == d[i].0
  {
    seq(|d|, i requires 0 <= i < |d| => d[i].0)
  }

  /** No key occurs twice, as in every Python dict. */
  predicate DistinctKeys<K(==), V>(d: Dict<K, V>)
  {
    forall i, j :: 0 <= i < j < |d| ==> d[i].0 != d[j].0
  }

  predicate HasKey<K(==), V>(d: Dict<K, V>, k: K)
  {
    k in Keys(d)
  }

  lemma KeysCons<K, V>(d: Dict<K, V>)
    requires d != []
    ensures Keys(d) == [d[0].0] + Keys(d[1..])
  {
  }

  /** The keys of a dict with one more pair at the end. */
  lemma HasKeySnoc<K, V>(d: Dict<K, V>, k: K)
    requires d != []
    ensures HasKey(d, k) <==> HasKey(d[..|d| - 1], k) || d[|d| - 1].0 == k
  {
    assert Keys(d) == Keys(d[..|d| - 1]) + [d[|d| - 1].0];
  }

  /** d.get(k): the value of the first pair with key `k`. */
  function Get<K(==), V>(d: Dict<K, V>, k: K): Option<V>
    decreases |d|
  {
    if d == [] then None
    else if d[0].0 == k then Some(d[0].1)
    else Get(d[1..], k)
  }

  /** d.get(k) finds a value exactly when k is a key, and the value is paired with k in d. */
  lemma {:induction false} GetSpec<K, V>(d: Dict<K, V>, k: K)
    ensures Get(d, k).Some? <==> HasKey(d, k)
    ensures Get(d, k).Some? ==> exists i :: 0 <= i < |d| && d[i] == (k, Get(d, k).value)
    decreases |d|
  {
    if d != [] {
      KeysCons(d);
      if d[0].0 != k {
        GetSpec(d[1..], k);
        if Get(d, k).Some? {
          var i :| 0 <= i < |d[1..]| && d[1..][i] == (k, Get(d, k).value);
          assert d[i + 1] == d[1..][i];
        }
      } else {
        assert d[0] == (k, Get(d, k).value);
      }
    }
  }

  function GetOr<K(==), V>(d: Dict<K, V>, k: K, default: V): V
  {
    Get(d, k).GetOr(default)
  }

  /** In a dict with distinct keys, the pair at index i is what Get finds. */
  lemma GetAt<K, V>(d: Dict<K, V>, i: nat)
    requires DistinctKeys(d) && i < |d|
    ensures Get(d, d[i].0) == Some(d[i].1)
  {
    if i > 0 {
      assert DistinctKeys(d[1..]);
      assert d[1..][i - 1] == d[i];
      GetAt(d[1..], i - 1);
    }
  }

  /** d[k] = v. */
  function Put<K(==), V>(d: Dict<K, V>, k: K, v: V): (r: Dict<K, V>)
    decreases |d|
  {
    if d == [] then [(k, v)]
    else if d[0].0 == k then [(k, v)] + d[1..]
    else [d[0]] + Put(d[1..], k, v)
  }

  lemma {:induction false} PutGet<K, V>(d: Dict<K, V>, k: K, v: V, k': K)
    ensures Get(Put(d, k, v), k') == if k' == k then Some(v) else Get(d, k')
    decreases |d|
  {
    if d != [] && d[0].0 != k {
      PutGet(d[1..], k, v, k');
    }
  }

  lemma {:induction false} PutKeys<K, V>(d: Dict<K, V>, k: K, v: V)
    ensures Keys(Put(d, k, v)) == if HasKey(d, k) then Keys(d) else Keys(d) + [k]
    decreases |d|
  {
    var p := Put(d, k, v);
    if d == [] {
      assert p == [(k, v)];
      assert Keys(p) == [k];
      assert Keys(d) + [k] == [k];
    } else if d[0].0 == k {
      assert p == [(k, v)] + d[1..];
      assert |Keys(p)| == |Keys(d)|;
      assert forall i :: 0 <= i < |d| ==> Keys(p)[i] == Keys(d)[i];
      assert Keys(d)[0] == k;
    } else {
      var q := Put(d[1..], k, v);
      assert p == [d[0]] + q;
      PutKeys(d[1..], k, v);
      KeysCons(d);
      assert p[1..] == q;
      KeysCons(p);
      assert Keys(p) == [d[0].0] + Keys(q);
      assert HasKey(d, k) == HasKey(d[1..], k);
      if !HasKey(d[1..], k) {
        assert [d[0].0] + (Keys(d[1..]) + [k]) == ([d[0].0] + Keys(d[1..])) + [k];
      }
    }
  }

  /** After an assignment the keys are the old ones and the assigned one. */
  lemma PutHasKey<K, V>(d: Dict<K, V>, k: K, v: V, key: K)
    ensures HasKey(Put(d, k, v), key) <==> HasKey(d, key) || key == k
  {
    PutKeys(d, k, v);
    if !HasKey(d, k) {
      assert key in Keys(d) + [k] <==> key in Keys(d) || key == k;
    }
  }

  lemma DistinctKeysIff<K, V>(d: Dict<K, V>)
    ensures DistinctKeys(d) <==> forall i, j :: 0 <= i < j < |Keys(d)| ==> Keys(d)[i] != Keys(d)[j]
  {
    var ks := Keys(d);
    assert forall i :: 0 <= i < |d| ==> ks[i] == d[i].0;
    if forall i, j :: 0 <= i < j < |ks| ==> ks[i] != ks[j] {
      forall i, j | 0 <= i < j < |d| ensures d[i].0 != d[j].0 { assert ks[i] != ks[j]; }
    }
  }

  /** Assignment never duplicates a key. */
  lemma PutDistinct<K, V>(d: Dict<K, V>, k: K, v: V)
    requires DistinctKeys(d)
    ensures DistinctKeys(Put(d, k, v))
  {
    PutKeys(d, k, v);
    DistinctKeysIff(d);
    DistinctKeysIff(Put(d, k, v));
    var ks := Keys(Put(d, k, v));
    if !HasKey(d, k) {
      forall i, j | 0 <= i < j < |ks| ensures ks[i] != ks[j] {
        if j == |ks| - 1 {
          assert ks[i] == Keys(d)[i];
        } else {
          assert ks[i] == Keys(d)[i] && ks[j] == Keys(d)[j];
        }
      }
    }
  }

  /** What assignment does to every lookup and to the key order. */
  lemma PutSpec<K, V>(d: Dict<K, V>, k: K, v: V)
    ensures Get(Put(d, k, v), k) == Some(v)
    ensures forall k' :: k' != k ==> Get(Put(d, k, v), k') == Get(d, k')
    ensures Keys(Put(d, k, v)) == if HasKey(d, k) then Keys(d) else Keys(d) + [k]
    ensures DistinctKeys(d) ==> DistinctKeys(Put(d, k, v))
  {
    PutGet(d, k, v, k);
    forall k' | k' != k ensures Get(Put(d, k, v), k') == Get(d, k') { PutGet(d, k, v, k'); }
    PutKeys(d, k, v);
    if DistinctKeys(d) { PutDistinct(d, k, v); }
  }

  /** d[k] = d.get(k, 0) + v: add to a counter. */
  function AddTo<K(==)>(d: Dict<K, int>, k: K, v: int): Dict<K, int>
  {
    Put(d, k, GetOr(d, k, 0) + v)
  }

  lemma PutGetOr<K, V>(d: Dict<K, V>, k: K, v: V, x: K, default: V)
    ensures GetOr(Put(d, k, v), x, default) == if x == k then v else GetOr(d, x, default)
  {
    PutGet(d, k, v, x);
  }

  /** Adding to a counter changes that counter only, by the amount added. */
  lemma AddToGet<K>(d: Dict<K, int>, k: K, v: int, x: K)
    ensures GetOr(AddTo(d, k, v), x, 0) == GetOr(d, x, 0) + (if k == x then v else 0)
  {
    PutGetOr(d, k, GetOr(d, k, 0) + v, x, 0);
  }

  /** Adding to a new counter appends its key; adding to an existing one keeps the key order. */
  lemma AddToKeys<K>(d: Dict<K, int>, k: K, v: int)
    ensures Keys(AddTo(d, k, v)) == if HasKey(d, k) then Keys(d) else Keys(d) + [k]
  {
    PutKeys(d, k, GetOr(d, k, 0) + v);
  }

  lemma AddToDistinct<K>(d: Dict<K, int>, k: K, v: int)
    requires DistinctKeys(d)
    ensures DistinctKeys(AddTo(d, k, v))
  {
    PutDistinct(d, k, GetOr(d, k, 0) + v);
  }

  /** {**a, **b} and a.update(b): assign every pair of `b`, in order, onto `a`. */
  function Update<K(==), V>(a: Dict<K, V>, b: Dict<K, V>): Dict<K, V>
    decreases |b|
  {
    if b == [] then a else Update(Put(a, b[0].0, b[0].1), b[1..])
  }

  /** After a merge, a key takes its value from the later dict when it has one there. */
  lemma {:induction false} UpdateSpec<K, V>(a: Dict<K, V>, b: Dict<K, V>, k: K)
    requires DistinctKeys(b)
    ensures Get(Update(a, b), k) == if HasKey(b, k) then Get(b, k) else Get(a, k)
    decreases |b|
  {
    if b != [] {
      assert DistinctKeys(b[1..]);
      PutSpec(a, b[0].0, b[0].1);
      UpdateSpec(Put(a, b[0].0, b[0].1), b[1..], k);
      if k == b[0].0 {
        KeysCons(b);
        assert !HasKey(b[1..], k);
      } else {
        KeysCons(b);
      }
    }
  }

  lemma {:induction false} UpdateDistinct<K, V>(a: Dict<K, V>, b: Dict<K, V>)
    requires DistinctKeys(a)
    ensures DistinctKeys(Update(a, b))
    decreases |b|
  {
    if b != [] {
      PutSpec(a, b[0].0, b[0].1);
      UpdateDistinct(Put(a, b[0].0, b[0].1), b[1..]);
    }
  }

  /** A lookup in a dict with one more pair at the end: the earlier pairs take precedence. */
  lemma {:induction false} GetSnoc<K, V>(d: Dict<K, V>, k: K)
    requires d != []
    ensures var init := d[..|d| - 1];
      Get(d, k) == if Get(init, k).Some? then Get(init, k) else if d[|d| - 1].0 == k then Some(d[|d| - 1].1) else None
    decreases |d|
  {
    if |d| > 1 && d[0].0 != k {
      GetSnoc(d[1..], k);
      assert d[..|d| - 1][1..] == d[1..][..|d| - 2];
    }
  }

  /** Every pair of Put(d, k, v) is (k, v) or a pair of d. */
  lemma {:induction false} PutPairs<K, V>(d: Dict<K, V>, k: K, v: V)
    ensures forall i :: 0 <= i < |Put(d, k, v)| ==> Put(d, k, v)[i] == (k, v) || exists j :: 0 <= j < |d| && d[j] == Put(d, k, v)[i]
    ensures Put(d, k, v) != []
    decreases |d|
  {
    if d != [] && d[0].0 != k {
      PutPairs(d[1..], k, v);
      forall i | 0 <= i < |Put(d, k, v)| ensures Put(d, k, v)[i] == (k, v) || exists j :: 0 <= j < |d| && d[j] == Put(d, k, v)[i] {
        if i > 0 {
          var e := Put(d[1..], k, v)[i - 1];
          assert Put(d, k, v)[i] == e;
          if e != (k, v) {
            var j :| 0 <= j < |d[1..]| && d[1..][j] == e;
            assert d[j + 1] == e;
          }
        } else {
          assert d[0] == Put(d, k, v)[0];
        }
      }
    } else if d != [] {
      forall i | 0 <= i < |Put(d, k, v)| ensures Put(d, k, v)[i] == (k, v) || exists j :: 0 <= j < |d| && d[j] == Put(d, k, v)[i] {
        if i > 0 {
          assert d[i] == Put(d, k, v)[i];
        }
      }
    }
  }

  /** The keys whose value f maps to Some(v), assigned v in order. */
  function Collect<K(==), W, V>(ws: Dict<K, W>, f: W -> Option<V>): Dict<K, V>
    decreases |ws|
  {
    if ws == [] then []
    else
      var prev := Collect(ws[..|ws| - 1], f);
      var last := ws[|ws| - 1];
      if f(last.1).Some? then Put(prev, last.0, f(last.1).value) else prev
  }

  /** A key that names no entry is not collected. */
  lemma {:induction false} CollectAbsent<K, W, V>(ws: Dict<K, W>, f: W -> Option<V>, key: K)
    requires forall j :: 0 <= j < |ws| ==> ws[j].0 != key
    ensures Get(Collect(ws, f), key) == None
    decreases |ws|
  {
    if ws != [] {
      var init := ws[..|ws| - 1];
      var last := ws[|ws| - 1];
      assert forall j :: 0 <= j < |init| ==> init[j] == ws[j];
      CollectAbsent(init, f, key);
      if f(last.1).Some? {
        PutGet(Collect(init, f), last.0, f(last.1).value, key);
      }
    }
  }

  /** With distinct keys, each entry's collected value is what f makes of it. */
  lemma {:induction false} CollectGet<K, W, V>(ws: Dict<K, W>, f: W -> Option<V>, j: nat)
    requires DistinctKeys(ws) && j < |ws|
    ensures Get(Collect(ws, f), ws[j].0) == f(ws[j].1)
    decreases |ws|
  {
    var n := |ws| - 1;
    var init := ws[..n];
    var last := ws[n];
    var prev := Collect(init, f);
    if j < n {
      assert init[j] == ws[j];
      assert DistinctKeys(init) by {
        forall a, b | 0 <= a < b < |init| ensures init[a].0 != init[b].0 {
          assert init[a] == ws[a] && init[b] == ws[b];
        }
      }
      CollectGet(init, f, j);
      assert ws[j].0 != last.0;
      if f(last.1).Some? {
        PutGet(prev, last.0, f(last.1).value, ws[j].0);
      }
    } else {
      forall i | 0 <= i < |init| ensures init[i].0 != last.0 {
        assert init[i] == ws[i];
      }
      CollectAbsent(init, f, last.0);
      if f(last.1).Some? {
        PutGet(prev, last.0, f(last.1).value, last.0);
      }
    }
  }
}
