/**
 The addresses of known bodies, as ascending intervals apart from each other: exactly the union
 of the intervals put in.
 */
module Covered {

  /** The addresses from the first to before the second. */
  type Range = (nat, nat)

  predicate Within(r: Range, a: nat) {
    r.0 <= a < r.1
  }

  ghost predicate Covers(rs: seq<Range>, a: nat) {
    exists i :: 0 <= i < |rs| && Within(rs[i], a)
  }

  /** Not empty, ascending, neither overlapping nor touching. */
  ghost predicate Apart(rs: seq<Range>) {
    && (forall i | 0 <= i < |rs| :: rs[i].0 < rs[i].1)
    && (forall i, j | 0 <= i < j < |rs| :: rs[i].1 < rs[j].0)
  }

  // ---- searching

  /** How many of the intervals start at or before `a`. */
  method StartingBy(rs: seq<Range>, a: nat) returns (k: nat)
    requires Apart(rs)
    ensures k <= |rs| && (forall i | 0 <= i < k :: rs[i].0 <= a) && (forall i | k <= i < |rs| :: a < rs[i].0)
  {
    var hi := |rs|;
    k := 0;
    while k < hi
      invariant k <= hi <= |rs|
      invariant (forall i | 0 <= i < k :: rs[i].0 <= a) && (forall i | hi <= i < |rs| :: a < rs[i].0)
    {
      var mid := (k + hi) / 2;
      if rs[mid].0 <= a { k := mid + 1; } else { hi := mid; }
    }
  }

  /** How many of them end at or before `a`. */
  method EndingBy(rs: seq<Range>, a: nat) returns (k: nat)
    requires Apart(rs)
    ensures k <= |rs| && (forall i | 0 <= i < k :: rs[i].1 <= a) && (forall i | k <= i < |rs| :: a < rs[i].1)
  {
    var hi := |rs|;
    k := 0;
    while k < hi
      invariant k <= hi <= |rs|
      invariant (forall i | 0 <= i < k :: rs[i].1 <= a) && (forall i | hi <= i < |rs| :: a < rs[i].1)
    {
      var mid := (k + hi) / 2;
      if rs[mid].1 <= a { k := mid + 1; } else { hi := mid; }
    }
  }

  // ---- putting an interval in

  /** Where the new interval goes: those of `lo..hi` touch it, those before end before it,
      those after start after it. */
  ghost predicate Touching(rs: seq<Range>, start: nat, end: nat, lo: nat, hi: nat) {
    && lo <= |rs| && hi <= |rs|
    && (forall i | 0 <= i < lo :: rs[i].1 < start) && (forall i | lo <= i < |rs| :: start <= rs[i].1)
    && (forall i | 0 <= i < hi :: rs[i].0 <= end) && (forall i | hi <= i < |rs| :: end < rs[i].0)
  }

  function Merged(rs: seq<Range>, start: nat, end: nat, lo: nat, hi: nat): seq<Range>
    requires lo <= |rs| && hi <= |rs|
  {
    if lo >= hi then rs[..lo] + [(start, end)] + rs[lo..]
    else
      var first := if rs[lo].0 < start then rs[lo].0 else start;
      var last := if rs[hi - 1].1 > end then rs[hi - 1].1 else end;
      rs[..lo] + [(first, last)] + rs[hi..]
  }

  lemma PutBetween(pre: seq<Range>, r: Range, post: seq<Range>)
    requires Apart(pre) && Apart(post) && r.0 < r.1
    requires (forall i | 0 <= i < |pre| :: pre[i].1 < r.0) && (forall i | 0 <= i < |post| :: r.1 < post[i].0)
    ensures Apart(pre + [r] + post)
  {
    var m := pre + [r] + post;
    forall i, j | 0 <= i < j < |m| ensures m[i].1 < m[j].0 {
      assert j > |pre| ==> m[j] == post[j - |pre| - 1];
      assert i > |pre| ==> m[i] == post[i - |pre| - 1];
      assert i < |pre| ==> m[i] == pre[i];
    }
    forall i | 0 <= i < |m| ensures m[i].0 < m[i].1 {
      assert i > |pre| ==> m[i] == post[i - |pre| - 1];
    }
  }

  lemma MergedApart(rs: seq<Range>, start: nat, end: nat, lo: nat, hi: nat)
    requires Apart(rs) && start < end && Touching(rs, start, end, lo, hi)
    ensures Apart(Merged(rs, start, end, lo, hi))
  {
    var m := Merged(rs, start, end, lo, hi);
    if lo < hi {
      MergedBounds(rs, start, end, lo, hi, m[lo]);
      PutBetween(rs[..lo], m[lo], rs[hi..]);
    } else {
      PutBetween(rs[..lo], m[lo], rs[lo..]);
    }
  }

  /** The interval put for those touched lies between those before and those after. */
  lemma MergedBounds(rs: seq<Range>, start: nat, end: nat, lo: nat, hi: nat, m: Range)
    requires Apart(rs) && start < end && Touching(rs, start, end, lo, hi) && lo < hi
    requires m == (if rs[lo].0 < start then rs[lo].0 else start, if rs[hi - 1].1 > end then rs[hi - 1].1 else end)
    ensures (forall i | 0 <= i < lo :: rs[i].1 < m.0) && (forall i | hi <= i < |rs| :: m.1 < rs[i].0)
  {
  }

  lemma CoversConcat(x: seq<Range>, y: seq<Range>, a: nat)
    ensures Covers(x + y, a) <==> Covers(x, a) || Covers(y, a)
  {
    var z := x + y;
    if Covers(x, a) {
      var i :| 0 <= i < |x| && Within(x[i], a);
      assert Within(z[i], a);
    }
    if Covers(y, a) {
      var i :| 0 <= i < |y| && Within(y[i], a);
      assert Within(z[|x| + i], a);
    }
    if Covers(z, a) {
      var i :| 0 <= i < |z| && Within(z[i], a);
      assert if i < |x| then Within(x[i], a) else Within(y[i - |x|], a);
    }
  }

  /** Intervals and one that touches the first and the last of them are together one. */
  lemma TouchedCovers(part: seq<Range>, start: nat, end: nat, m: Range, a: nat)
    requires Apart(part) && part != [] && start < end && start <= part[0].1 && part[|part| - 1].0 <= end
    requires m.0 == (if part[0].0 < start then part[0].0 else start)
    requires m.1 == (if part[|part| - 1].1 > end then part[|part| - 1].1 else end)
    ensures Within(m, a) <==> Covers(part, a) || start <= a < end
  {
    var last := |part| - 1;
    if Covers(part, a) {
      var i :| 0 <= i < |part| && Within(part[i], a);
      assert (i > 0 ==> part[0].1 < part[i].0) && (i < last ==> part[i].1 < part[last].0);
    }
    assert Within(m, a) && a < start ==> Within(part[0], a);
    assert Within(m, a) && end <= a ==> Within(part[last], a);
  }

  lemma SwapMiddle(pre: seq<Range>, mid: seq<Range>, post: seq<Range>, m: Range, start: nat, end: nat, a: nat)
    requires Within(m, a) <==> Covers(mid, a) || start <= a < end
    ensures Covers(pre + [m] + post, a) <==> Covers(pre + mid + post, a) || start <= a < end
  {
    CoversConcat(pre + [m], post, a);
    OneMoreCovers(pre, m, a);
    CoversConcat(pre + mid, post, a);
    CoversConcat(pre, mid, a);
  }

  lemma PartApart(rs: seq<Range>, lo: nat, hi: nat)
    requires Apart(rs) && lo < hi <= |rs|
    ensures Apart(rs[lo..hi]) && rs[lo..hi][0] == rs[lo] && rs[lo..hi][hi - lo - 1] == rs[hi - 1]
  {
  }

  lemma PartCovers(rs: seq<Range>, start: nat, end: nat, lo: nat, hi: nat, m: Range, a: nat)
    requires Apart(rs) && start < end && lo < hi <= |rs| && start <= rs[lo].1 && rs[hi - 1].0 <= end
    requires m == (if rs[lo].0 < start then rs[lo].0 else start, if rs[hi - 1].1 > end then rs[hi - 1].1 else end)
    ensures Covers(rs[..lo] + [m] + rs[hi..], a) <==> Covers(rs, a) || start <= a < end
  {
    PartApart(rs, lo, hi);
    TouchedCovers(rs[lo..hi], start, end, m, a);
    SwapMiddle(rs[..lo], rs[lo..hi], rs[hi..], m, start, end, a);
    assert rs[..lo] + rs[lo..hi] + rs[hi..] == rs;
  }

  lemma MergedCovers(rs: seq<Range>, start: nat, end: nat, lo: nat, hi: nat, a: nat)
    requires Apart(rs) && start < end && Touching(rs, start, end, lo, hi)
    ensures Covers(Merged(rs, start, end, lo, hi), a) <==> Covers(rs, a) || start <= a < end
  {
    if lo < hi {
      PartCovers(rs, start, end, lo, hi, Merged(rs, start, end, lo, hi)[lo], a);
    } else {
      SwapMiddle(rs[..lo], [], rs[lo..], (start, end), start, end, a);
      assert rs[..lo] + [] + rs[lo..] == rs;
    }
  }

  // ---- the intervals of raw ones

  ghost predicate Starting(rs: seq<Range>) {
    forall i, j | 0 <= i < j < |rs| :: rs[i].0 <= rs[j].0
  }

  /** The intervals that are not empty, by where they start. */
  method SortRanges(raw: seq<Range>) returns (rs: seq<Range>)
    ensures Starting(rs) && forall r :: r in rs <==> r in raw && r.0 < r.1
  {
    rs := [];
    for k := 0 to |raw|
      invariant Starting(rs) && forall r :: r in rs <==> r in raw[..k] && r.0 < r.1
    {
      if raw[k].0 < raw[k].1 { rs := PlaceRange(rs, raw[k]); }
      assert raw[..k + 1] == raw[..k] + [raw[k]];
    }
    assert raw[..|raw|] == raw;
  }

  method PlaceRange(rs: seq<Range>, r: Range) returns (more: seq<Range>)
    requires Starting(rs)
    ensures Starting(more) && forall x :: x in more <==> x in rs || x == r
  {
    var i := |rs|;
    while i > 0 && rs[i - 1].0 > r.0
      invariant 0 <= i <= |rs| && forall j | i <= j < |rs| :: r.0 < rs[j].0
    {
      i := i - 1;
    }
    more := rs[..i] + [r] + rs[i..];
    Placed(rs, r, i);
  }

  lemma Placed(rs: seq<Range>, r: Range, i: nat)
    requires Starting(rs) && i <= |rs| && (i > 0 ==> rs[i - 1].0 <= r.0) && forall j | i <= j < |rs| :: r.0 < rs[j].0
    ensures var more := rs[..i] + [r] + rs[i..];
      Starting(more) && forall x :: x in more <==> x in rs || x == r
  {
    var more := rs[..i] + [r] + rs[i..];
    forall j, k | 0 <= j < k < |more| ensures more[j].0 <= more[k].0 {
      InPlace(rs, r, i, j, k);
    }
    forall x ensures x in more <==> x in rs || x == r {
      PlacedHolds(rs, r, i, x);
    }
  }

  lemma InPlace(rs: seq<Range>, r: Range, i: nat, j: nat, k: nat)
    requires Starting(rs) && i <= |rs| && (i > 0 ==> rs[i - 1].0 <= r.0) && j < k <= |rs|
    requires forall j | i <= j < |rs| :: r.0 < rs[j].0
    ensures var more := rs[..i] + [r] + rs[i..]; more[j].0 <= more[k].0
  {
    assert j < i ==> rs[j].0 <= rs[i - 1].0;
    assert k > i ==> r.0 < rs[k - 1].0;
  }

  lemma PlacedHolds(rs: seq<Range>, r: Range, i: nat, x: Range)
    requires i <= |rs|
    ensures x in rs[..i] + [r] + rs[i..] <==> x in rs || x == r
  {
    assert rs == rs[..i] + rs[i..];
  }

  lemma LastWidens(rs: seq<Range>, s: nat, e: nat, a: nat)
    requires Apart(rs) && rs != [] && s < e && rs[|rs| - 1].0 <= s <= rs[|rs| - 1].1
    ensures var k := |rs| - 1;
      var wide := rs[k := (rs[k].0, if e > rs[k].1 then e else rs[k].1)];
      Apart(wide) && (Covers(wide, a) <==> Covers(rs, a) || s <= a < e)
  {
    var k := |rs| - 1;
    var wide := rs[k := (rs[k].0, if e > rs[k].1 then e else rs[k].1)];
    if Covers(rs, a) {
      var i :| 0 <= i < |rs| && Within(rs[i], a);
      assert Within(wide[i], a);
    }
    if s <= a < e { assert Within(wide[k], a); }
    if Covers(wide, a) {
      var i :| 0 <= i < |wide| && Within(wide[i], a);
      assert i < k ==> Within(rs[i], a);
      assert i == k && !(s <= a < e) ==> Within(rs[k], a);
    }
  }

  lemma OneMoreCovers(rs: seq<Range>, r: Range, a: nat)
    ensures Covers(rs + [r], a) <==> Covers(rs, a) || Within(r, a)
  {
    CoversConcat(rs, [r], a);
    assert Within(r, a) ==> Within([r][0], a);
  }

  /** The intervals by where they start, those that overlap or touch made one. */
  method Join(sorted: seq<Range>) returns (rs: seq<Range>)
    requires Starting(sorted) && forall i | 0 <= i < |sorted| :: sorted[i].0 < sorted[i].1
    ensures Apart(rs) && forall a: nat :: Covers(rs, a) <==> Covers(sorted, a)
  {
    rs := [];
    for k := 0 to |sorted|
      invariant Apart(rs) && (forall a: nat :: Covers(rs, a) <==> Covers(sorted[..k], a))
      invariant rs != [] ==> k > 0 && rs[|rs| - 1].0 <= sorted[k - 1].0
    {
      var r := sorted[k];
      ghost var was := rs;
      if rs != [] && r.0 <= rs[|rs| - 1].1 {
        var last := rs[|rs| - 1];
        rs := rs[|rs| - 1 := (last.0, if r.1 > last.1 then r.1 else last.1)];
        forall a: nat ensures Apart(rs) && (Covers(rs, a) <==> Covers(was, a) || Within(r, a)) {
          LastWidens(was, r.0, r.1, a);
        }
      } else {
        rs := rs + [r];
        forall a: nat ensures Covers(rs, a) <==> Covers(was, a) || Within(r, a) {
          OneMoreCovers(was, r, a);
        }
      }
      assert sorted[..k + 1] == sorted[..k] + [r];
      forall a: nat ensures Covers(rs, a) <==> Covers(sorted[..k + 1], a) {
        OneMoreCovers(sorted[..k], r, a);
      }
    }
    assert sorted[..|sorted|] == sorted;
  }

  /** The addresses covered, one interval put in at a time. */
  class CoveredSet {
    var ranges: seq<Range>

    ghost predicate Valid()
      reads this
    {
      Apart(ranges)
    }

    constructor ()
      ensures Valid() && ranges == []
    {
      ranges := [];
    }

    /** Exactly the union of the raw intervals. */
    constructor FromRanges(raw: seq<Range>)
      ensures Valid() && forall a: nat :: Covers(ranges, a) <==> Covers(raw, a)
    {
      var sorted := SortRanges(raw);
      var rs := Join(sorted);
      forall a: nat ensures Covers(rs, a) <==> Covers(raw, a) {
        SortedCovers(raw, sorted, a);
      }
      ranges := rs;
    }

    method Contains(a: nat) returns (r: bool)
      requires Valid()
      ensures r == Covers(ranges, a)
    {
      var i := StartingBy(ranges, a);
      r := i > 0 && a < ranges[i - 1].1;
      LastStarting(ranges, a, i);
    }

    /** The union with one more interval. */
    method Insert(start: nat, end: nat)
      requires Valid()
      modifies this
      ensures Valid() && forall a: nat :: Covers(ranges, a) <==> Covers(old(ranges), a) || start <= a < end
    {
      if start < end {
        var lo := StartingBy(ranges, start);
        if lo > 0 && ranges[lo - 1].1 >= start { lo := lo - 1; }
        var hi := StartingBy(ranges, end);
        MergedApart(ranges, start, end, lo, hi);
        forall a: nat ensures Covers(Merged(ranges, start, end, lo, hi), a) <==> Covers(ranges, a) || start <= a < end {
          MergedCovers(ranges, start, end, lo, hi, a);
        }
        ranges := Merged(ranges, start, end, lo, hi);
      }
    }

    /** Whether one of the points is covered. */
    method Hits(points: seq<nat>) returns (r: bool)
      requires Valid()
      ensures r <==> exists i :: 0 <= i < |points| && Covers(ranges, points[i])
    {
      var sorted := IsSorted(points);
      if sorted && points != [] {
        r := HitsSorted(points);
      } else {
        r := false;
        var k := 0;
        while k < |points| && !r
          invariant k <= |points| && (r <==> exists i :: 0 <= i < k && Covers(ranges, points[i]))
        {
          r := Contains(points[k]);
          k := k + 1;
        }
      }
    }

    /** Points in order: the intervals among them, each asked for a point in it. */
    method HitsSorted(points: seq<nat>) returns (r: bool)
      requires Valid() && points != [] && Sorted(points)
      ensures r <==> exists i :: 0 <= i < |points| && Covers(ranges, points[i])
    {
      var first, last := points[0], points[|points| - 1];
      var i := EndingBy(ranges, first);
      r := false;
      while i < |ranges| && ranges[i].0 <= last && !r
        invariant i <= |ranges|
        invariant !r ==> forall j, p | 0 <= j < i && 0 <= p < |points| :: !Within(ranges[j], points[p])
        invariant r ==> exists p :: 0 <= p < |points| && Covers(ranges, points[p])
        decreases |ranges| - i, !r
      {
        var k := FirstFrom(points, ranges[i].0);
        if k < |points| && points[k] < ranges[i].1 {
          assert Within(ranges[i], points[k]);
          assert Covers(ranges, points[k]);
          r := true;
        } else {
          NoPointWithin(points, ranges[i], k);
          i := i + 1;
        }
      }
      if !r {
        forall p | 0 <= p < |points| ensures !Covers(ranges, points[p]) {
          assert points[p] <= last;
          assert forall j | i <= j < |ranges| :: ranges[i].0 <= ranges[j].0;
        }
      }
    }
  }

  lemma NoPointWithin(points: seq<nat>, r: Range, k: nat)
    requires k <= |points| && (forall p | 0 <= p < k :: points[p] < r.0) && (forall p | k <= p < |points| :: r.0 <= points[p])
    requires Sorted(points) && (k < |points| ==> r.1 <= points[k])
    ensures forall p | 0 <= p < |points| :: !Within(r, points[p])
  {
    assert forall p | k < p < |points| :: points[k] <= points[p];
  }

  ghost predicate Sorted(points: seq<nat>) {
    forall i, j | 0 <= i < j < |points| :: points[i] <= points[j]
  }

  method IsSorted(points: seq<nat>) returns (ok: bool)
    ensures ok == Sorted(points)
  {
    ok := true;
    var k := 1;
    while k < |points| && ok
      invariant 1 <= k && (points != [] ==> k <= |points|)
      invariant ok ==> forall i, j | 0 <= i < j < k && j < |points| :: points[i] <= points[j]
      invariant !ok ==> !Sorted(points)
    {
      ok := points[k - 1] <= points[k];
      k := k + 1;
    }
  }

  /** The first of the points from `a` on. */
  method FirstFrom(points: seq<nat>, a: nat) returns (k: nat)
    requires Sorted(points)
    ensures k <= |points| && (forall p | 0 <= p < k :: points[p] < a) && (forall p | k <= p < |points| :: a <= points[p])
  {
    var hi := |points|;
    k := 0;
    while k < hi
      invariant k <= hi <= |points|
      invariant (forall p | 0 <= p < k :: points[p] < a) && (forall p | hi <= p < |points| :: a <= points[p])
    {
      var mid := (k + hi) / 2;
      if points[mid] < a { k := mid + 1; } else { hi := mid; }
    }
  }

  lemma SortedCovers(raw: seq<Range>, sorted: seq<Range>, a: nat)
    requires forall r :: r in sorted <==> r in raw && r.0 < r.1
    ensures Covers(sorted, a) <==> Covers(raw, a)
  {
    if Covers(sorted, a) {
      var i :| 0 <= i < |sorted| && Within(sorted[i], a);
      assert sorted[i] in raw;
      var j :| 0 <= j < |raw| && raw[j] == sorted[i];
      assert Within(raw[j], a);
    }
    if Covers(raw, a) {
      var i :| 0 <= i < |raw| && Within(raw[i], a);
      assert raw[i] in sorted;
      var j :| 0 <= j < |sorted| && sorted[j] == raw[i];
      assert Within(sorted[j], a);
    }
  }

  lemma LastStarting(rs: seq<Range>, a: nat, k: nat)
    requires Apart(rs) && k <= |rs| && (forall i | 0 <= i < k :: rs[i].0 <= a) && (forall i | k <= i < |rs| :: a < rs[i].0)
    ensures Covers(rs, a) <==> k > 0 && a < rs[k - 1].1
  {
    if k > 0 && a < rs[k - 1].1 { assert Within(rs[k - 1], a); }
    if Covers(rs, a) {
      var i :| 0 <= i < |rs| && Within(rs[i], a);
      if k > 0 { EndsBefore(rs, i, k - 1); }
    }
  }

  lemma EndsBefore(rs: seq<Range>, i: nat, j: nat)
    requires Apart(rs) && i < |rs| && j < |rs|
    ensures i < j ==> rs[i].1 < rs[j].0
  {
  }
}
