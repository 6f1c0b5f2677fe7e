/**
 States by block, sorted by block: the edges into a block (by the block they come from) and
 the edges out of one (by the block they go to).
 */
module EdgeList {
  import opened Pcode

  type Edges<S> = seq<(nat, S)>

  ghost predicate Ascending<S>(es: Edges<S>) {
    forall i, j | 0 <= i < j < |es| :: es[i].0 < es[j].0
  }

  ghost predicate Below<S>(es: Edges<S>, n: nat) {
    forall i | 0 <= i < |es| :: es[i].0 < n
  }

  /** `i` is the place of `k`: the first entry not before it (what a binary search finds). */
  ghost predicate IsPlace<S>(es: Edges<S>, k: nat, i: nat) {
    && i <= |es|
    && (forall j | 0 <= j < i :: es[j].0 < k)
    && (i < |es| ==> es[i].0 >= k)
  }

  lemma {:induction false} PlaceExists<S>(es: Edges<S>, k: nat)
    ensures exists i: nat :: IsPlace(es, k, i)
  {
    if es == [] || es[|es| - 1].0 < k {
      if es != [] {
        PlaceExists(es[..|es| - 1], k);
        var i: nat :| IsPlace(es[..|es| - 1], k, i);
        assert IsPlace(es, k, if i == |es| - 1 then |es| else i);
      } else {
        assert IsPlace(es, k, 0);
      }
    } else {
      PlaceExists(es[..|es| - 1], k);
      var i: nat :| IsPlace(es[..|es| - 1], k, i);
      assert IsPlace(es, k, i);
    }
  }

  ghost function Place<S>(es: Edges<S>, k: nat): (i: nat)
    ensures IsPlace(es, k, i)
  {
    PlaceExists(es, k);
    var i: nat :| IsPlace(es, k, i);
    i
  }

  ghost function Find<S>(es: Edges<S>, k: nat): Option<S> {
    var i := Place(es, k);
    if i < |es| && es[i].0 == k then Some(es[i].1) else None
  }

  /** `es` with the state of `k` set. */
  ghost function Put<S>(es: Edges<S>, k: nat, s: S): Edges<S> {
    var i := Place(es, k);
    if i < |es| && es[i].0 == k then es[i := (k, s)] else es[..i] + [(k, s)] + es[i..]
  }

  lemma PlaceUnique<S>(es: Edges<S>, k: nat, i: nat)
    requires Ascending(es) && IsPlace(es, k, i)
    ensures Place(es, k) == i
  {
  }

  lemma FindAt<S>(es: Edges<S>, i: nat)
    requires Ascending(es) && i < |es|
    ensures Find(es, es[i].0) == Some(es[i].1)
  {
    PlaceUnique(es, es[i].0, i);
  }

  lemma PutFacts<S>(es: Edges<S>, k: nat, s: S)
    requires Ascending(es)
    ensures Ascending(Put(es, k, s)) && Put(es, k, s) != []
    ensures forall n: nat | Below(es, n) && k < n :: Below(Put(es, k, s), n)
  {
  }

  lemma PlaceInserted<S>(es: Edges<S>, k: nat, s: S, c: nat)
    requires Ascending(es) && Find(es, k) == None
    ensures Place(Put(es, k, s), c) == Place(es, c) + if c > k then 1 else 0
  {
    var i, p, r := Place(es, k), Place(es, c), Put(es, k, s);
    assert r == es[..i] + [(k, s)] + es[i..];
    PutFacts(es, k, s);
    PlaceUnique(r, c, if c > k then p + 1 else p);
  }

  lemma FindPut<S>(es: Edges<S>, k: nat, s: S, c: nat)
    requires Ascending(es)
    ensures Find(Put(es, k, s), c) == if c == k then Some(s) else Find(es, c)
  {
    PutFacts(es, k, s);
    if Find(es, k) == None {
      PlaceInserted(es, k, s, c);
    } else {
      PlaceUnique(Put(es, k, s), c, Place(es, c));
    }
  }
}
