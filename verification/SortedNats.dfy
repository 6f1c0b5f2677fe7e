/**
 Strictly ascending sequences of numbers: the sorted sets of the analyses.
 */
module SortedNats {
  import opened Pcode

  ghost predicate Ascends(a: seq<nat>) {
    forall i, j | 0 <= i < j < |a| :: a[i] < a[j]
  }

  /** The index of `t` in `a`. */
  ghost predicate Located(a: seq<nat>, t: nat, r: Option<nat>) {
    match r
    case Some(i) => i < |a| && a[i] == t
    case None => t !in a
  }

  /** The index of `t`, which is nowhere but in `lo0..hi0`. */
  method BinarySearch(a: seq<nat>, lo0: nat, hi0: nat, t: nat) returns (r: Option<nat>)
    requires Ascends(a) && lo0 <= hi0 <= |a|
    requires forall i | 0 <= i < lo0 :: a[i] != t
    requires forall i | hi0 <= i < |a| :: a[i] != t
    ensures Located(a, t, r)
  {
    var lo, hi := lo0, hi0;
    while lo < hi
      invariant lo0 <= lo <= hi <= hi0
      invariant forall i | 0 <= i < lo :: a[i] != t
      invariant forall i | hi <= i < |a| :: a[i] != t
    {
      var mid := (lo + hi) / 2;
      if a[mid] == t { return Some(mid); }
      if a[mid] < t { lo := mid + 1; } else { hi := mid; }
    }
    r := None;
  }

  /** How many of `a` come before `t`. */
  method PartitionPoint(a: seq<nat>, t: nat) returns (k: nat)
    requires Ascends(a)
    ensures k <= |a| && (forall i | 0 <= i < k :: a[i] < t) && (forall i | k <= i < |a| :: t <= a[i])
  {
    var hi := |a|;
    k := 0;
    while k < hi
      invariant k <= hi <= |a|
      invariant forall i | 0 <= i < k :: a[i] < t
      invariant forall i | hi <= i < |a| :: t <= a[i]
    {
      var mid := (k + hi) / 2;
      if a[mid] < t { k := mid + 1; } else { hi := mid; }
    }
  }

  /** `t` put in `a`, once. */
  method Insert(a: seq<nat>, t: nat) returns (r: seq<nat>)
    requires Ascends(a)
    ensures Ascends(r) && forall x: nat :: x in r <==> x in a || x == t
  {
    var k := PartitionPoint(a, t);
    r := a;
    if k == |a| || a[k] != t {
      r := a[..k] + [t] + a[k..];
      assert a == a[..k] + a[k..];
    }
  }

  lemma OnePlace(a: seq<nat>, i: nat, j: nat)
    requires Ascends(a) && i < |a| && j < |a| && a[i] == a[j]
    ensures i == j
  {
  }

  /** One ascending sequence holds given numbers. */
  lemma {:induction false} SameAscending(a: seq<nat>, c: seq<nat>)
    requires Ascends(a) && Ascends(c) && forall x: nat :: x in a <==> x in c
    ensures a == c
  {
    EmptyWith(a, c);
    EmptyWith(c, a);
    if a != [] && c != [] {
      SameLast(a, c);
      var x, a', c' := a[|a| - 1], a[..|a| - 1], c[..|c| - 1];
      forall z: nat ensures z in a' <==> z in c' {
        LastApart(a, z);
        LastApart(c, z);
      }
      SameAscending(a', c');
      assert a == a' + [x] && c == c' + [x];
    }
  }

  lemma EmptyWith(a: seq<nat>, c: seq<nat>)
    requires forall x: nat :: x in a <==> x in c
    ensures c == [] ==> a == []
  {
    assert a != [] ==> a[0] in c;
  }

  lemma LastApart(a: seq<nat>, z: nat)
    requires Ascends(a) && a != []
    ensures z in a[..|a| - 1] <==> z in a && z != a[|a| - 1]
  {
    assert a == a[..|a| - 1] + [a[|a| - 1]];
  }

  lemma SameLast(a: seq<nat>, c: seq<nat>)
    requires Ascends(a) && Ascends(c) && a != [] && c != [] && forall x: nat :: x in a <==> x in c
    ensures a[|a| - 1] == c[|c| - 1]
  {
    var x, y := a[|a| - 1], c[|c| - 1];
    assert x in c && y in a;
    var i :| 0 <= i < |c| && c[i] == x;
    var j :| 0 <= j < |a| && a[j] == y;
  }
}
