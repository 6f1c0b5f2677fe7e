/**
 Entries kept in a sequence sorted by key, and the map they stand for.
 */
module AssocList {

  function MapOf<K, V>(l: seq<(K, V)>): map<K, V> {
    if l == [] then map[] else MapOf(l[..|l| - 1])[l[|l| - 1].0 := l[|l| - 1].1]
  }

  ghost predicate Has<K, V>(l: seq<(K, V)>, key: K) {
    exists i :: 0 <= i < |l| && l[i].0 == key
  }

  lemma {:induction false} HasIff<K, V>(l: seq<(K, V)>, key: K)
    ensures key in MapOf(l) <==> Has(l, key)
  {
    if l != [] {
      var front := l[..|l| - 1];
      HasIff(front, key);
      if Has(front, key) {
        var i :| 0 <= i < |front| && front[i].0 == key;
        assert l[i].0 == key;
      }
      if Has(l, key) {
        var i :| 0 <= i < |l| && l[i].0 == key;
        assert i < |front| ==> front[i].0 == key;
      }
    }
  }

  lemma {:induction false} MapOfConcat<K, V>(a: seq<(K, V)>, b: seq<(K, V)>)
    ensures MapOf(a + b) == MapOf(a) + MapOf(b)
  {
    if b == [] {
      assert a + b == a;
    } else {
      assert (a + b)[..|a + b| - 1] == a + b[..|b| - 1];
      MapOfConcat(a, b[..|b| - 1]);
    }
  }

  /** An entry put between entries of other keys. */
  lemma MapOfSplice<K, V>(a: seq<(K, V)>, key: K, v: V, b: seq<(K, V)>)
    requires !Has(a, key) && !Has(b, key)
    ensures MapOf(a + [(key, v)] + b) == MapOf(a + b)[key := v]
    ensures MapOf(a + b) == MapOf(a + [(key, v)] + b) - {key}
  {
    HasIff(a, key);
    HasIff(b, key);
    MapOfConcat(a, b);
    MapOfConcat(a + [(key, v)], b);
    assert (a + [(key, v)])[..|a|] == a;
  }

  // ---- sorted

  ghost predicate Ordered<K(!new)>(less: (K, K) -> bool) {
    && (forall a, b :: a != b ==> less(a, b) || less(b, a))
    && (forall a, b :: less(a, b) ==> !less(b, a))
    && (forall a, b, c {:trigger less(a, b), less(b, c)} :: less(a, b) && less(b, c) ==> less(a, c))
  }

  ghost predicate Sorted<K, V>(l: seq<(K, V)>, less: (K, K) -> bool) {
    forall i, j | 0 <= i < j < |l| :: less(l[i].0, l[j].0)
  }

  /** `k` is the place of `key`: the entries before it are less, those from it on are not. */
  ghost predicate IsPlace<K, V>(l: seq<(K, V)>, less: (K, K) -> bool, key: K, k: nat) {
    && k <= |l|
    && (forall i | 0 <= i < k :: less(l[i].0, key))
    && (k < |l| ==> !less(l[k].0, key))
  }

  /** Where a key is, when it is there. */
  lemma AtPlace<K(!new), V>(l: seq<(K, V)>, less: (K, K) -> bool, key: K, k: nat)
    requires Ordered(less) && Sorted(l, less) && IsPlace(l, less, key, k)
    ensures key in MapOf(l) <==> k < |l| && l[k].0 == key
    ensures key in MapOf(l) ==> MapOf(l)[key] == l[k].1
    ensures !Has(l[..k], key)
    ensures k < |l| && l[k].0 == key ==> !Has(l[k + 1..], key)
    ensures !(k < |l| && l[k].0 == key) ==> !Has(l[k..], key)
  {
    HasIff(l, key);
    if k < |l| {
      forall i | k < i < |l| ensures l[i].0 != key {
        assert less(l[k].0, l[i].0);
      }
      if l[k].0 == key {
        assert l == l[..k] + [(key, l[k].1)] + l[k + 1..];
        assert !Has(l[..k], key) && !Has(l[k + 1..], key);
        MapOfSplice(l[..k], key, l[k].1, l[k + 1..]);
      }
    }
  }

  lemma PutAt<K(!new), V>(l: seq<(K, V)>, less: (K, K) -> bool, key: K, k: nat, v: V)
    requires Ordered(less) && Sorted(l, less) && IsPlace(l, less, key, k)
    ensures var m := if k < |l| && l[k].0 == key then l[k := (key, v)] else l[..k] + [(key, v)] + l[k..];
      Sorted(m, less) && MapOf(m) == MapOf(l)[key := v]
  {
    AtPlace(l, less, key, k);
    if k < |l| && l[k].0 == key {
      ReplaceAt(l, key, k, v);
    } else {
      assert l == l[..k] + l[k..];
      MapOfSplice(l[..k], key, v, l[k..]);
      InsertSorted(l, less, key, k, v);
    }
  }

  lemma ReplaceAt<K, V>(l: seq<(K, V)>, key: K, k: nat, v: V)
    requires k < |l| && l[k].0 == key && !Has(l[..k], key) && !Has(l[k + 1..], key)
    ensures MapOf(l[k := (key, v)]) == MapOf(l)[key := v]
  {
    var a, b := l[..k], l[k + 1..];
    assert l == a + [(key, l[k].1)] + b;
    MapOfSplice(a, key, l[k].1, b);
    assert l[k := (key, v)] == a + [(key, v)] + b;
    MapOfSplice(a, key, v, b);
  }

  lemma InsertSorted<K(!new), V>(l: seq<(K, V)>, less: (K, K) -> bool, key: K, k: nat, v: V)
    requires Ordered(less) && Sorted(l, less) && IsPlace(l, less, key, k) && (k < |l| ==> l[k].0 != key)
    ensures Sorted(l[..k] + [(key, v)] + l[k..], less)
  {
    var m := l[..k] + [(key, v)] + l[k..];
    assert k < |l| ==> less(key, l[k].0);
    forall i, j | 0 <= i < j < |m| ensures less(m[i].0, m[j].0) {
      assert i != k && j != k ==> m[i] == l[if i < k then i else i - 1] && m[j] == l[if j < k then j else j - 1];
      assert i == k && j > k + 1 ==> less(l[k].0, l[j - 1].0);
    }
  }

  lemma RemoveAt<K(!new), V>(l: seq<(K, V)>, less: (K, K) -> bool, k: nat)
    requires Ordered(less) && Sorted(l, less) && k < |l|
    ensures Sorted(l[..k] + l[k + 1..], less) && MapOf(l[..k] + l[k + 1..]) == MapOf(l) - {l[k].0}
  {
    RemoveSorted(l, less, k);
    AtPlace(l, less, l[k].0, k);
    RemoveMap(l, l[..k], l[k].0, l[k].1, l[k + 1..]);
  }

  lemma RemoveMap<K, V>(l: seq<(K, V)>, a: seq<(K, V)>, key: K, v: V, b: seq<(K, V)>)
    requires |l| == |a| + 1 + |b| && a == l[..|a|] && (key, v) == l[|a|] && b == l[|a| + 1..] && !Has(a, key) && !Has(b, key)
    ensures MapOf(a + b) == MapOf(l) - {key}
  {
    assert l == a + [(key, v)] + b;
    MapOfSplice(a, key, v, b);
  }

  lemma RemoveSorted<K, V>(l: seq<(K, V)>, less: (K, K) -> bool, k: nat)
    requires Sorted(l, less) && k < |l|
    ensures Sorted(l[..k] + l[k + 1..], less)
  {
    var m := l[..k] + l[k + 1..];
    assert forall i | 0 <= i < |m| :: m[i] == l[if i < k then i else i + 1];
  }

  lemma PushSorted<K(!new), V>(l: seq<(K, V)>, less: (K, K) -> bool, key: K, v: V)
    requires Sorted(l, less) && forall i | 0 <= i < |l| :: less(l[i].0, key)
    ensures Sorted(l + [(key, v)], less) && MapOf(l + [(key, v)]) == MapOf(l)[key := v]
  {
    assert (l + [(key, v)])[..|l|] == l;
  }

  /** A map has one sorted list. */
  lemma {:induction false} SortedUnique<K(!new), V>(l: seq<(K, V)>, m: seq<(K, V)>, less: (K, K) -> bool)
    requires Ordered(less) && Sorted(l, less) && Sorted(m, less) && MapOf(l) == MapOf(m)
    ensures l == m
    decreases |l|
  {
    if l == [] {
      if m != [] {
        HasIff(m, m[0].0);
      }
    } else {
      HasIff(l, l[|l| - 1].0);
      HasIff(m, l[|l| - 1].0);
      LastIs(l, m, less);
      LastIs(m, l, less);
      var i, j := |l| - 1, |m| - 1;
      assert IsPlace(l, less, l[i].0, i) && IsPlace(m, less, m[j].0, j);
      AtPlace(l, less, l[i].0, i);
      AtPlace(m, less, m[j].0, j);
      RemoveAt(l, less, i);
      RemoveAt(m, less, j);
      assert l[..i] + l[i + 1..] == l[..i] && m[..j] + m[j + 1..] == m[..j];
      SortedUnique(l[..i], m[..j], less);
      assert l == l[..i] + [l[i]] && m == m[..j] + [m[j]];
    }
  }

  lemma LastIs<K(!new), V>(l: seq<(K, V)>, m: seq<(K, V)>, less: (K, K) -> bool)
    requires Ordered(less) && Sorted(l, less) && Sorted(m, less) && MapOf(l) == MapOf(m) && l != [] && m != []
    ensures !less(l[|l| - 1].0, m[|m| - 1].0)
  {
    var key := m[|m| - 1].0;
    HasIff(m, key);
    HasIff(l, key);
    var i :| 0 <= i < |l| && l[i].0 == key;
    assert i < |l| - 1 ==> less(l[i].0, l[|l| - 1].0);
  }

  // ---- filtered

  /** The entries of the first `n` that `keep` accepts. */
  function Filter<K, V>(l: seq<(K, V)>, n: nat, keep: (K, V) -> bool): seq<(K, V)>
    requires n <= |l|
  {
    if n == 0 then []
    else Filter(l, n - 1, keep) + if keep(l[n - 1].0, l[n - 1].1) then [l[n - 1]] else []
  }

  function FilterMap<K, V>(m: map<K, V>, keep: (K, V) -> bool): map<K, V> {
    map k | k in m && keep(k, m[k]) :: m[k]
  }

  lemma {:induction false} FilterSorted<K(!new), V>(l: seq<(K, V)>, n: nat, keep: (K, V) -> bool, less: (K, K) -> bool)
    requires Sorted(l, less) && Ordered(less) && n <= |l|
    ensures Sorted(Filter(l, n, keep), less)
    ensures forall i | 0 <= i < |Filter(l, n, keep)| && n < |l| :: less(Filter(l, n, keep)[i].0, l[n].0)
    decreases n
  {
    if n > 0 {
      FilterSorted(l, n - 1, keep, less);
      PushSorted(Filter(l, n - 1, keep), less, l[n - 1].0, l[n - 1].1);
      assert n < |l| ==> less(l[n - 1].0, l[n].0);
    }
  }

  lemma {:induction false} FilterIsMap<K(!new), V>(l: seq<(K, V)>, n: nat, keep: (K, V) -> bool, less: (K, K) -> bool)
    requires Ordered(less) && Sorted(l, less) && n <= |l|
    ensures MapOf(Filter(l, n, keep)) == FilterMap(MapOf(l[..n]), keep)
    decreases n
  {
    if n > 0 {
      FilterIsMap(l, n - 1, keep, less);
      var e, f := l[n - 1], Filter(l, n - 1, keep);
      NewKey(l, n - 1, less);
      FilterPut(MapOf(l[..n - 1]), e.0, e.1, keep);
      assert (f + [e])[..|f|] == f && f + [] == f;
    }
  }

  lemma NewKey<K(!new), V>(l: seq<(K, V)>, n: nat, less: (K, K) -> bool)
    requires Ordered(less) && Sorted(l, less) && n < |l|
    ensures l[n].0 !in MapOf(l[..n]) && MapOf(l[..n + 1]) == MapOf(l[..n])[l[n].0 := l[n].1]
  {
    assert l[..n + 1][..n] == l[..n];
    HasIff(l[..n], l[n].0);
    assert forall i | 0 <= i < n :: less(l[..n][i].0, l[n].0);
  }

  lemma FilterPut<K, V>(m: map<K, V>, k: K, v: V, keep: (K, V) -> bool)
    requires k !in m
    ensures FilterMap(m[k := v], keep) == if keep(k, v) then FilterMap(m, keep)[k := v] else FilterMap(m, keep)
  {
  }

  lemma {:induction false} FilterAll<K, V>(l: seq<(K, V)>, m: nat, n: nat, keep: (K, V) -> bool)
    requires m <= n <= |l| && forall i | m <= i < n :: keep(l[i].0, l[i].1)
    ensures Filter(l, n, keep) == Filter(l, m, keep) + l[m..n]
    decreases n
  {
    if m < n {
      FilterAll(l, m, n - 1, keep);
      assert l[m..n] == l[m..n - 1] + [l[n - 1]];
    }
  }
}
