/**
 The entries of the temporaries kept in a list sorted by space and offset.
 */
module TemporaryEntries {
  import opened Pcode
  import opened ByteConst
  import opened Temporaries
  import opened AssocList

  type Entries = seq<(Key, (nat, ByteConst))>

  predicate Before(a: Key, b: Key) {
    a.0 < b.0 || (a.0 == b.0 && a.1 < b.1)
  }

  lemma BeforeOrders()
    ensures Ordered(Before)
  {
  }

  /** The first entry not before `key`: a binary search. */
  method Place(l: Entries, key: Key) returns (k: nat)
    requires Sorted(l, Before)
    ensures IsPlace(l, Before, key, k)
  {
    var lo, hi := 0, |l|;
    while lo < hi
      invariant 0 <= lo <= hi <= |l|
      invariant forall i | 0 <= i < lo :: Before(l[i].0, key)
      invariant forall i | hi <= i < |l| :: !Before(l[i].0, key)
    {
      var mid := (lo + hi) / 2;
      if Before(l[mid].0, key) { lo := mid + 1; } else { hi := mid; }
    }
    k := lo;
  }

  class ByteMem {
    var entries: Entries
    ghost var temps: Temps

    ghost predicate Valid()
      reads this
    {
      Sorted(entries, Before) && MapOf(entries) == temps && Temporaries.Valid(temps)
    }

    constructor ()
      ensures Valid() && temps == map[]
    {
      entries := [];
      temps := map[];
    }

    method Read(space: Space, offset: int, size: nat) returns (v: ByteConst)
      requires Valid()
      ensures v == Temporaries.Read(temps, space, offset, size)
    {
      if entries == [] { return UNKNOWN; }
      var k := Place(entries, (space, offset));
      BeforeOrders();
      AtPlace(entries, Before, (space, offset), k);
      if k < |entries| && entries[k].0 == (space, offset) && entries[k].1.0 >= size {
        v := Trunc(entries[k].1.1, size);
      } else {
        v := UNKNOWN;
      }
    }

    method Write(space: Space, offset: int, size: nat, v: ByteConst)
      requires Valid() && IsOffset(offset)
      modifies this
      ensures Valid() && temps == Temporaries.Write(old(temps), space, offset, size, v)
    {
      BeforeOrders();
      KeptEntries(entries, ApartFrom(space, offset, size));
      entries := DropOverlaps(entries, space, offset, size);
      if size <= 8 && !IsUnknown(Trunc(v, size)) {
        var k := Place(entries, (space, offset));
        var e := (size, Trunc(v, size));
        PutAt(entries, Before, (space, offset), k, e);
        entries := if k < |entries| && entries[k].0 == (space, offset) then entries[k := ((space, offset), e)]
                   else entries[..k] + [((space, offset), e)] + entries[k..];
      }
      WriteKeepsValid(temps, space, offset, size, v);
      temps := Temporaries.Write(temps, space, offset, size, v);
    }

    /** Both lists walked once, side by side. */
    method Join(o: ByteMem) returns (out: ByteMem)
      requires Valid() && o.Valid()
      ensures fresh(out) && out.Valid() && out.temps == Temporaries.Join(temps, o.temps)
    {
      var l := JoinEntries(entries, o.entries);
      JoinKeepsValid(temps, o.temps);
      out := new ByteMem();
      out.entries := l;
      out.temps := Temporaries.Join(temps, o.temps);
    }

    method Clear()
      modifies this
      ensures Valid() && temps == map[]
    {
      entries := [];
      temps := map[];
    }
  }

  lemma KeptEntries(l: Entries, keep: (Key, (nat, ByteConst)) -> bool)
    requires Sorted(l, Before)
    ensures Sorted(Filter(l, |l|, keep), Before) && MapOf(Filter(l, |l|, keep)) == FilterMap(MapOf(l), keep)
  {
    BeforeOrders();
    FilterSorted(l, |l|, keep, Before);
    FilterIsMap(l, |l|, keep, Before);
    assert l[..|l|] == l;
  }

  /** The entries apart from a write, those between the first that can overlap it and the
      first past it moved down in place. */
  method DropOverlaps(l: Entries, space: Space, offset: int, size: nat) returns (out: Entries)
    requires Sorted(l, Before)
    ensures out == Filter(l, |l|, ApartFrom(space, offset, size))
  {
    ghost var keep := ApartFrom(space, offset, size);
    var end, lo := SatAdd(offset, Wide(size)), SatSub(offset, 8);
    var from := Place(l, (space, lo));
    var upto := Place(l, (space, end));
    Outside(l, space, offset, size, from, upto);
    FilterEnds(l, from, upto, keep);
    if from < upto {
      out := Compact(l, offset, from, upto, keep);
    } else {
      out := l;
    }
  }

  lemma FilterEnds(l: Entries, from: nat, upto: nat, keep: (Key, (nat, ByteConst)) -> bool)
    requires from <= |l| && upto <= |l| && forall i | 0 <= i < |l| && !(from <= i < upto) :: keep(l[i].0, l[i].1)
    ensures Filter(l, from, keep) == l[..from]
    ensures Filter(l, |l|, keep) == if from < upto then Filter(l, upto, keep) + l[upto..] else l
  {
    KeptFirst(l, from, keep);
    if from < upto {
      FilterAll(l, upto, |l|, keep);
      assert l[upto..|l|] == l[upto..];
    } else {
      KeptFirst(l, |l|, keep);
      assert l[..|l|] == l;
    }
  }

  lemma KeptFirst(l: Entries, n: nat, keep: (Key, (nat, ByteConst)) -> bool)
    requires n <= |l| && forall i | 0 <= i < n :: keep(l[i].0, l[i].1)
    ensures Filter(l, n, keep) == l[..n]
  {
    FilterAll(l, 0, n, keep);
    assert l[0..n] == l[..n];
  }

  /** Of the entries `from..upto` those that end by `offset` are moved down over the others. */
  method Compact(l: Entries, offset: int, from: nat, upto: nat, ghost keep: (Key, (nat, ByteConst)) -> bool) returns (out: Entries)
    requires from <= upto <= |l| && Filter(l, from, keep) == l[..from]
    requires forall i | from <= i < upto :: keep(l[i].0, l[i].1) <==> SatAdd(l[i].0.1, l[i].1.0) <= offset
    ensures out == Filter(l, upto, keep) + l[upto..]
  {
    out := l;
    var w, r := from, from;
    while r < upto
      invariant from <= w <= r <= upto && |out| == |l|
      invariant out[..w] == Filter(l, r, keep) && out[r..] == l[r..]
    {
      assert out[r] == out[r..][0] == l[r];
      if SatAdd(out[r].0.1, out[r].1.0) <= offset {
        SwapDown(l, out, w, r);
        out := out[w := out[r]][r := out[w]];
        w := w + 1;
      }
      assert out[r + 1..] == l[r + 1..];
      r := r + 1;
    }
    out := out[..w] + out[upto..];
  }

  lemma SwapDown(l: Entries, out: Entries, w: nat, r: nat)
    requires w <= r < |out| == |l| && out[r..] == l[r..]
    ensures var next := out[w := out[r]][r := out[w]];
      next[..w + 1] == out[..w] + [l[r]] && next[r + 1..] == l[r + 1..]
  {
    var next := out[w := out[r]][r := out[w]];
    assert out[r] == out[r..][0] == l[r..][0] == l[r];
    assert w < r ==> next[w] == out[r];
    assert next[..w] == out[..w] && next[..w + 1] == next[..w] + [next[w]];
    forall i | r < i < |l| ensures next[i] == l[i] {
      assert out[i] == out[r..][i - r] && l[i] == l[r..][i - r];
    }
  }

  /** Only the entries between the two places can overlap a write, and those are of its
      space. */
  lemma Outside(l: Entries, space: Space, offset: int, size: nat, from: nat, upto: nat)
    requires Sorted(l, Before) && IsPlace(l, Before, (space, SatSub(offset, 8)), from)
    requires IsPlace(l, Before, (space, SatAdd(offset, Wide(size))), upto)
    ensures forall i | 0 <= i < |l| && !(from <= i < upto) :: Apart(l[i].0, l[i].1, space, offset, size)
    ensures forall i | from <= i < upto :: Apart(l[i].0, l[i].1, space, offset, size) <==> SatAdd(l[i].0.1, l[i].1.0) <= offset
  {
    forall i | 0 <= i < |l| ensures i < from <==> Before(l[i].0, (space, SatSub(offset, 8))) {
      assert from < i ==> Before(l[from].0, l[i].0);
    }
    forall i | 0 <= i < |l| ensures i < upto <==> Before(l[i].0, (space, SatAdd(offset, Wide(size)))) {
      assert upto < i ==> Before(l[upto].0, l[i].0);
    }
  }

  /** Lists compare as the maps do. */
  lemma SameEntries(l: Entries, m: Entries)
    requires Sorted(l, Before) && Sorted(m, Before)
    ensures l == m <==> MapOf(l) == MapOf(m)
  {
    BeforeOrders();
    if MapOf(l) == MapOf(m) { SortedUnique(l, m, Before); }
  }

  /** The first entry from `from` on not before `key`. */
  method Skip(l: Entries, from: nat, key: Key) returns (k: nat)
    requires Sorted(l, Before) && from <= |l| && forall j | 0 <= j < from :: Before(l[j].0, key)
    ensures from <= k <= |l| && IsPlace(l, Before, key, k)
    ensures key in MapOf(l) <==> k < |l| && l[k].0 == key
    ensures key in MapOf(l) ==> MapOf(l)[key] == l[k].1
  {
    k := from;
    while k < |l| && Before(l[k].0, key)
      invariant from <= k <= |l| && forall i | 0 <= i < k :: Before(l[i].0, key)
    {
      k := k + 1;
    }
    BeforeOrders();
    AtPlace(l, Before, key, k);
  }

  /** `out` lists `t`, which has keys of the first `k` entries of `l` only. */
  ghost predicate ListsFirst(out: Entries, l: Entries, k: nat, t: Temps) {
    && Sorted(out, Before) && MapOf(out) == t
    && forall i | 0 <= i < |out| && k < |l| :: Before(out[i].0, l[k].0)
  }

  ghost predicate Joins(e: (nat, ByteConst), f: (nat, ByteConst)) {
    e.0 == f.0 && !IsUnknown(Intersect(e.1, f.1))
  }

  lemma JoinsNext(l: Entries, k: nat, out: Entries, t: Temps)
    requires k < |l| && Sorted(l, Before) && ListsFirst(out, l, k, Join(MapOf(l[..k]), t))
    ensures var key, e := l[k].0, l[k].1;
      ListsFirst(if key in t && Joins(e, t[key]) then out + [(key, (e.0, Intersect(e.1, t[key].1)))] else out,
                 l, k + 1, Join(MapOf(l[..k + 1]), t))
  {
    BeforeOrders();
    NewKey(l, k, Before);
    var m, key, e := MapOf(l[..k]), l[k].0, l[k].1;
    JoinPut(m, key, e, t);
    PushSorted(out, Before, key, (e.0, Intersect(e.1, if key in t then t[key].1 else UNKNOWN)));
    assert k + 1 < |l| ==> Before(key, l[k + 1].0);
  }

  lemma JoinPut(m: Temps, key: Key, e: (nat, ByteConst), t: Temps)
    requires key !in m
    ensures Join(m[key := e], t) == if key in t && Joins(e, t[key]) then Join(m, t)[key := (e.0, Intersect(e.1, t[key].1))] else Join(m, t)
  {
  }

  method JoinEntries(l: Entries, m: Entries) returns (out: Entries)
    requires Sorted(l, Before) && Sorted(m, Before)
    ensures Sorted(out, Before) && MapOf(out) == Join(MapOf(l), MapOf(m))
  {
    out := [];
    var i, k := 0, 0;
    while i < |l|
      invariant 0 <= i <= |l| && 0 <= k <= |m|
      invariant ListsFirst(out, l, i, Join(MapOf(l[..i]), MapOf(m)))
      invariant forall j | 0 <= j < k && i < |l| :: Before(m[j].0, l[i].0)
    {
      var key, e := l[i].0, l[i].1;
      k := Skip(m, k, key);
      JoinsNext(l, i, out, MapOf(m));
      if k < |m| && m[k].0 == key && m[k].1.0 == e.0 {
        var j := Intersect(e.1, m[k].1.1);
        if !IsUnknown(j) {
          out := out + [(key, (e.0, j))];
        }
      }
      assert i + 1 < |l| ==> Before(key, l[i + 1].0);
      i := i + 1;
    }
    assert l[..i] == l;
  }
}
