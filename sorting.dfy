/**
 * Python's `sorted(xs, key=k, reverse=True)` and `list.sort(key=k,
 * reverse=True)`: a stable sort into non-increasing key order, where
 * elements with equal keys keep their original relative order. Keys are
 * reals; integer scores are sorted through `as real`.
 */
module Sorting {

  predicate SortedDesc<T>(s: seq<T>, key: T -> real)
  {
    forall i, j :: 0 <= i < j < |s| ==> key(s[i]) >= key(s[j])
  }

  /** Place `x` after every element of `t` whose key is at least its own. */
  function InsertDesc<T>(t: seq<T>, x: T, key: T -> real): (r: seq<T>)
    ensures |r| == |t| + 1
    decreases |t|
  {
    if t == [] then [x]
    else if key(t[0]) >= key(x) then [t[0]] + InsertDesc(t[1..], x, key)
    else [x] + t
  }

  /** Stable insertion sort, taking the elements left to right. */
  function SortDesc<T>(s: seq<T>, key: T -> real): (r: seq<T>)
    ensures |r| == |s|
    decreases |s|
  {
    if s == [] then [] else InsertDesc(SortDesc(s[..|s| - 1], key), s[|s| - 1], key)
  }

  /** The elements of `s` whose key is `v`, in order. */
  function KeyFilter<T>(s: seq<T>, key: T -> real, v: real): seq<T>
    decreases |s|
  {
    if s == [] then []
    else KeyFilter(s[..|s| - 1], key, v) + (if key(s[|s| - 1]) == v then [s[|s| - 1]] else [])
  }

  lemma {:induction false} KeyFilterConcat<T>(a: seq<T>, b: seq<T>, key: T -> real, v: real)
    ensures KeyFilter(a + b, key, v) == KeyFilter(a, key, v) + KeyFilter(b, key, v)
    decreases |b|
  {
    if b == [] {
      assert a + b == a;
    } else {
      assert (a + b)[..|a + b| - 1] == a + b[..|b| - 1];
      KeyFilterConcat(a, b[..|b| - 1], key, v);
    }
  }

  lemma {:induction false} KeyFilterNone<T>(s: seq<T>, key: T -> real, v: real)
    requires forall i :: 0 <= i < |s| ==> key(s[i]) != v
    ensures KeyFilter(s, key, v) == []
    decreases |s|
  {
    if s != [] { KeyFilterNone(s[..|s| - 1], key, v); }
  }

  lemma {:induction false} InsertPerm<T>(t: seq<T>, x: T, key: T -> real)
    ensures multiset(InsertDesc(t, x, key)) == multiset(t) + multiset{x}
    decreases |t|
  {
    if t != [] && key(t[0]) >= key(x) {
      InsertPerm(t[1..], x, key);
      assert t == [t[0]] + t[1..];
    }
  }

  lemma {:induction false} InsertSorted<T>(t: seq<T>, x: T, key: T -> real)
    requires SortedDesc(t, key)
    ensures SortedDesc(InsertDesc(t, x, key), key)
    decreases |t|
  {
    if t != [] && key(t[0]) >= key(x) {
      InsertSorted(t[1..], x, key);
      InsertPerm(t[1..], x, key);
      var r := InsertDesc(t[1..], x, key);
      forall i | 0 <= i < |r| ensures key(r[i]) <= key(t[0]) {
        assert r[i] in multiset(r);
        if r[i] != x {
          assert r[i] in multiset(t[1..]);
          var j :| 0 <= j < |t[1..]| && t[1..][j] == r[i];
          assert t[j + 1] == r[i];
        }
      }
    }
  }

  lemma {:induction false} InsertStable<T>(t: seq<T>, x: T, key: T -> real, v: real)
    requires SortedDesc(t, key)
    ensures KeyFilter(InsertDesc(t, x, key), key, v)
         == KeyFilter(t, key, v) + (if key(x) == v then [x] else [])
    decreases |t|
  {
    var e := if key(x) == v then [x] else [];
    assert KeyFilter([x], key, v) == e by {
      assert [x][..0] == [];
    }
    if t == [] {
      assert KeyFilter([], key, v) + e == e;
    } else if key(t[0]) >= key(x) {
      var u := t[1..];
      assert SortedDesc(u, key);
      calc {
        KeyFilter(InsertDesc(t, x, key), key, v);
        KeyFilter([t[0]] + InsertDesc(u, x, key), key, v);
        { KeyFilterConcat([t[0]], InsertDesc(u, x, key), key, v); }
        KeyFilter([t[0]], key, v) + KeyFilter(InsertDesc(u, x, key), key, v);
        { InsertStable(u, x, key, v); }
        KeyFilter([t[0]], key, v) + (KeyFilter(u, key, v) + e);
        (KeyFilter([t[0]], key, v) + KeyFilter(u, key, v)) + e;
        { KeyFilterConcat([t[0]], u, key, v); assert [t[0]] + u == t; }
        KeyFilter(t, key, v) + e;
      }
    } else {
      calc {
        KeyFilter(InsertDesc(t, x, key), key, v);
        KeyFilter([x] + t, key, v);
        { KeyFilterConcat([x], t, key, v); }
        e + KeyFilter(t, key, v);
        { if key(x) == v { KeyFilterNone(t, key, v); } }
        KeyFilter(t, key, v) + e;
      }
    }
  }

  /** The sort puts keys in non-increasing order and keeps every element exactly once. */
  lemma {:induction false} SortDescSpec<T>(s: seq<T>, key: T -> real)
    ensures SortedDesc(SortDesc(s, key), key)
    ensures multiset(SortDesc(s, key)) == multiset(s)
    decreases |s|
  {
    if s != [] {
      SortDescSpec(s[..|s| - 1], key);
      InsertSorted(SortDesc(s[..|s| - 1], key), s[|s| - 1], key);
      InsertPerm(SortDesc(s[..|s| - 1], key), s[|s| - 1], key);
      assert s == s[..|s| - 1] + [s[|s| - 1]];
    }
  }

  /** The sortedness half of SortDescSpec on its own. */
  lemma SortDescSorted<T>(s: seq<T>, key: T -> real)
    ensures SortedDesc(SortDesc(s, key), key)
  {
    SortDescSpec(s, key);
  }

  /** Stability: among the elements sharing one key, the sorted order is the original order. */
  lemma {:induction false} SortDescStable<T>(s: seq<T>, key: T -> real, v: real)
    ensures KeyFilter(SortDesc(s, key), key, v) == KeyFilter(s, key, v)
    decreases |s|
  {
    if s != [] {
      SortDescSpec(s[..|s| - 1], key);
      SortDescStable(s[..|s| - 1], key, v);
      InsertStable(SortDesc(s[..|s| - 1], key), s[|s| - 1], key, v);
    }
  }

  /** The projection `[f(x) for x in s]`. */
  function MapSeq<T, U>(s: seq<T>, f: T -> U): (r: seq<U>)
    ensures |r| == |s|
    ensures forall i :: 0 <= i < |s| ==> r[i] == f(s[i])
  {
    seq(|s|, i requires 0 <= i < |s| => f(s[i]))
  }

  lemma MapConcat<T, U>(a: seq<T>, b: seq<T>, f: T -> U)
    ensures MapSeq(a + b, f) == MapSeq(a, f) + MapSeq(b, f)
  {
    assert forall i :: 0 <= i < |a| ==> (a + b)[i] == a[i];
    assert forall i :: |a| <= i < |a| + |b| ==> (a + b)[i] == b[i - |a|];
  }

  lemma {:induction false} InsertMap<T, U>(t: seq<T>, x: T, key: T -> real, f: T -> U)
    ensures multiset(MapSeq(InsertDesc(t, x, key), f)) == multiset(MapSeq(t, f)) + multiset{f(x)}
    decreases |t|
  {
    if t == [] {
      assert MapSeq([x], f) == [f(x)];
    } else if key(t[0]) >= key(x) {
      var rest := InsertDesc(t[1..], x, key);
      InsertMap(t[1..], x, key, f);
      MapConcat([t[0]], rest, f);
      MapConcat([t[0]], t[1..], f);
      assert [t[0]] + t[1..] == t;
      assert MapSeq([t[0]], f) == [f(t[0])];
    } else {
      MapConcat([x], t, f);
      assert MapSeq([x], f) == [f(x)];
    }
  }

  /** Sorting keeps every projected value as often as before. */
  lemma {:induction false} SortDescMap<T, U>(s: seq<T>, key: T -> real, f: T -> U)
    ensures multiset(MapSeq(SortDesc(s, key), f)) == multiset(MapSeq(s, f))
    decreases |s|
  {
    if s != [] {
      var init := s[..|s| - 1];
      SortDescMap(init, key, f);
      InsertMap(SortDesc(init, key), s[|s| - 1], key, f);
      MapConcat(init, [s[|s| - 1]], f);
      assert init + [s[|s| - 1]] == s;
      assert MapSeq([s[|s| - 1]], f) == [f(s[|s| - 1])];
    }
  }

  /** Every element of the sorted list comes from the input, and conversely. */
  lemma SortDescMembers<T>(s: seq<T>, key: T -> real)
    ensures forall x :: x in SortDesc(s, key) <==> x in s
  {
    SortDescSpec(s, key);
    assert forall x :: x in SortDesc(s, key) <==> x in multiset(SortDesc(s, key));
    assert forall x :: x in s <==> x in multiset(s);
  }

  /** Python's `s[:k]`: the first k elements; a negative k drops the last -k elements. */
  function Prefix<T>(s: seq<T>, k: int): (r: seq<T>)
    ensures k >= 0 ==> |r| == if k < |s| then k else |s|
    ensures r <= s
  {
    if k >= 0 then (if k < |s| then s[..k] else s)
    else (if -k < |s| then s[..|s| + k] else [])
  }

  /** Sorting keeps a projection injective: distinct names stay distinct. */
  lemma {:induction false} SortDescInjective<T, K>(s: seq<T>, key: T -> real, f: T -> K)
    requires forall i, j :: 0 <= i < j < |s| ==> f(s[i]) != f(s[j])
    ensures forall i, j :: 0 <= i < j < |SortDesc(s, key)| ==> f(SortDesc(s, key)[i]) != f(SortDesc(s, key)[j])
    decreases |s|
  {
    if s != [] {
      var init, x := s[..|s| - 1], s[|s| - 1];
      SortDescInjective(init, key, f);
      SortDescSpec(init, key);
      var t := SortDesc(init, key);
      forall i | 0 <= i < |t| ensures f(t[i]) != f(x) {
        assert t[i] in multiset(t);
        assert t[i] in multiset(init);
        var k :| 0 <= k < |init| && init[k] == t[i];
        assert s[k] == t[i];
      }
      InsertInjective(t, x, key, f);
    }
  }

  lemma {:induction false} InsertInjective<T, K>(t: seq<T>, x: T, key: T -> real, f: T -> K)
    requires forall i, j :: 0 <= i < j < |t| ==> f(t[i]) != f(t[j])
    requires forall i :: 0 <= i < |t| ==> f(t[i]) != f(x)
    ensures forall i, j :: 0 <= i < j < |InsertDesc(t, x, key)| ==> f(InsertDesc(t, x, key)[i]) != f(InsertDesc(t, x, key)[j])
    decreases |t|
  {
    if t != [] && key(t[0]) >= key(x) {
      InsertInjective(t[1..], x, key, f);
      InsertPerm(t[1..], x, key);
      var r := InsertDesc(t[1..], x, key);
      forall i | 0 <= i < |r| ensures f(r[i]) != f(t[0]) {
        assert r[i] in multiset(r);
        if r[i] != x {
          assert r[i] in multiset(t[1..]);
          var j :| 0 <= j < |t[1..]| && t[1..][j] == r[i];
          assert t[j + 1] == r[i];
        }
      }
    }
  }
}
