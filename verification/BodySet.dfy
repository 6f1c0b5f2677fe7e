/**
 The body of a function from the instructions walked: their runs merged in order, or all of
 them sorted.
 */
module BodySet {
  import opened Numbers
  import opened Pcode
  import opened BodyInsns
  import AssocList

  predicate Less(a: nat, b: nat) {
    a < b
  }

  ghost predicate Ascends(s: seq<Place>) {
    AssocList.Sorted(s, Less)
  }

  /** An address has one length. */
  ghost predicate OneLength(body: seq<Place>) {
    forall i, j | 0 <= i < |body| && 0 <= j < |body| && body[i].0 == body[j].0 :: body[i] == body[j]
  }

  /** `s` is `all` sorted and deduplicated. */
  ghost predicate IsSorted(s: seq<Place>, all: seq<Place>) {
    Ascends(s) && forall x :: x in s <==> x in all
  }

  /** There is only one such list. */
  lemma SortedOnce(s: seq<Place>, t: seq<Place>, all: seq<Place>)
    requires IsSorted(s, all) && IsSorted(t, all)
    ensures s == t
  {
    assert forall x | x in s :: x in t;
    assert forall x | x in t :: x in s;
    forall k | k in AssocList.MapOf(s) ensures k in AssocList.MapOf(t) && AssocList.MapOf(s)[k] == AssocList.MapOf(t)[k] {
      SameEntry(s, t, k);
    }
    forall k | k in AssocList.MapOf(t) ensures k in AssocList.MapOf(s) {
      SameEntry(t, s, k);
    }
    AssocList.SortedUnique(s, t, Less);
  }

  /** `s` is the one list that is `all` sorted and deduplicated, however it is made. */
  ghost predicate IsSetOf(s: seq<Place>, all: seq<Place>) {
    IsSorted(s, all) && forall t: seq<Place> | IsSorted(t, all) :: t == s
  }

  lemma OnlySet(s: seq<Place>, all: seq<Place>)
    requires IsSorted(s, all)
    ensures IsSetOf(s, all)
  {
    forall t: seq<Place> | IsSorted(t, all) ensures t == s {
      SortedOnce(t, s, all);
    }
  }

  lemma SameEntry(s: seq<Place>, t: seq<Place>, k: nat)
    requires Ascends(s) && Ascends(t) && k in AssocList.MapOf(s) && forall x | x in s :: x in t
    ensures k in AssocList.MapOf(t) && AssocList.MapOf(s)[k] == AssocList.MapOf(t)[k]
  {
    AssocList.HasIff(s, k);
    var i :| 0 <= i < |s| && s[i].0 == k;
    assert s[i] in t;
    var j :| 0 <= j < |t| && t[j] == s[i];
    AssocList.AtPlace(s, Less, k, i);
    AssocList.AtPlace(t, Less, k, j);
  }

  /** Each instruction of a run starts where the one before ends. */
  ghost predicate IsRun(run: seq<Place>) {
    run != [] && forall i | 0 < i < |run| :: ChainAt(run, i)
  }

  lemma {:induction false} RunAscends(run: seq<Place>, i: nat, j: nat)
    requires IsRun(run) && i < j < |run|
    ensures run[i].0 < run[j].0
    decreases j
  {
    assert ChainAt(run, j);
    if i + 1 < j { RunAscends(run, i, j - 1); }
  }

  /** The place of address `a`: a binary search. */
  method Find(s: seq<Place>, a: nat) returns (k: Option<nat>)
    requires Ascends(s)
    ensures k.Some? ==> k.value < |s| && s[k.value].0 == a
    ensures k.None? ==> forall i | 0 <= i < |s| :: s[i].0 != a
  {
    var lo, hi := 0, |s|;
    while lo < hi
      invariant 0 <= lo <= hi <= |s|
      invariant forall i | 0 <= i < lo :: s[i].0 < a
      invariant forall i | hi <= i < |s| :: a < s[i].0
    {
      var mid := (lo + hi) / 2;
      if s[mid].0 == a { return Some(mid); }
      if s[mid].0 < a { lo := mid + 1; } else { hi := mid; }
    }
    k := None;
  }

  method AllIn(run: seq<Place>, s: seq<Place>) returns (ok: bool)
    requires Ascends(s)
    ensures ok <==> forall x | x in run :: x in s
  {
    var i := 0;
    while i < |run|
      invariant 0 <= i <= |run| && forall x | x in run[..i] :: x in s
    {
      var k := Find(s, run[i].0);
      assert run[..i + 1] == run[..i] + [run[i]];
      if k.None? || s[k.value] != run[i] {
        assert run[i] in run && run[i] !in s;
        return false;
      }
      i := i + 1;
    }
    assert run[..i] == run;
    ok := true;
  }

  lemma AppendRun(s: seq<Place>, run: seq<Place>, from: nat)
    requires Ascends(s) && IsRun(run) && from <= |run|
    requires forall i, j | 0 <= i < |s| && from <= j < |run| :: s[i].0 < run[j].0
    ensures Ascends(s + run[from..])
  {
    var r := s + run[from..];
    forall i, j | 0 <= i < j < |r| ensures r[i].0 < r[j].0 {
      if i >= |s| { RunAscends(run, from + i - |s|, from + j - |s|); }
    }
  }

  /** One run more: appended when after all before, or its first the last of them; else looked
      for among them. */
  method AddRun(s: seq<Place>, run: seq<Place>) returns (r: seq<Place>, ok: bool)
    requires Ascends(s) && IsRun(run)
    ensures Ascends(r) && (ok ==> forall x :: x in r <==> x in s || x in run)
  {
    r, ok := s, true;
    forall j | 0 < j < |run| ensures run[0].0 < run[j].0 { RunAscends(run, 0, j); }
    if s != [] && s[|s| - 1].0 >= run[0].0 {
      if s[|s| - 1] == run[0] {
        AppendRun(s, run, 1);
        assert run == [run[0]] + run[1..] && run[0] in s;
        r := s + run[1..];
      } else {
        ok := AllIn(run, s);
      }
    } else {
      AppendRun(s, run, 0);
      assert run[0..] == run;
      r := s + run;
    }
  }

  /** The runs merged in the order given, when each can be. */
  method MergeRuns(runs: seq<seq<Place>>) returns (s: seq<Place>, ok: bool)
    requires forall k | 0 <= k < |runs| :: IsRun(runs[k])
    ensures ok ==> Ascends(s) && forall x :: x in s <==> InSome(runs, x)
  {
    s, ok := [], true;
    var k := 0;
    while k < |runs|
      invariant 0 <= k <= |runs| && ok && Ascends(s)
      invariant forall x :: x in s <==> InSome(runs[..k], x)
    {
      ghost var before := s;
      s, ok := AddRun(s, runs[k]);
      if !ok { return; }
      forall x ensures x in s <==> InSome(runs[..k + 1], x) {
        InOneMore(runs, k, x);
      }
      k := k + 1;
    }
    assert runs[..k] == runs;
  }

  ghost predicate InSome(runs: seq<seq<Place>>, x: Place) {
    exists k :: 0 <= k < |runs| && x in runs[k]
  }

  lemma InOneMore(runs: seq<seq<Place>>, k: nat, x: Place)
    requires k < |runs|
    ensures InSome(runs[..k + 1], x) <==> InSome(runs[..k], x) || x in runs[k]
  {
    var before, more := runs[..k], runs[..k + 1];
    if l :| 0 <= l < |before| && x in before[l] { assert x in more[l]; }
    if x in runs[k] { assert x in more[k]; }
    if l :| 0 <= l < |more| && x in more[l] { assert l < k ==> x in before[l]; }
  }

  /** All of them sorted, an instruction given twice kept once. */
  method SortAll(all: seq<Place>) returns (s: seq<Place>)
    requires OneLength(all)
    ensures IsSorted(s, all)
  {
    s := [];
    var i := 0;
    while i < |all|
      invariant 0 <= i <= |all| && IsSorted(s, all[..i])
    {
      var x := all[i];
      assert all[..i + 1] == all[..i] + [x];
      forall y | y in s && y.0 == x.0 ensures y == x {
        assert y in all[..i];
      }
      ghost var before := s;
      s := Insert(s, x);
      forall y ensures y in s <==> y in all[..i + 1] {
        assert y in s <==> y in before || y == x;
      }
      i := i + 1;
    }
    assert all[..i] == all;
  }

  method Insert(s: seq<Place>, x: Place) returns (r: seq<Place>)
    requires Ascends(s) && forall y | y in s && y.0 == x.0 :: y == x
    ensures Ascends(r) && forall y :: y in r <==> y in s || y == x
  {
    var k := |s|;
    while k > 0 && s[k - 1].0 > x.0
      invariant 0 <= k <= |s| && forall j | k <= j < |s| :: s[j].0 > x.0
    {
      k := k - 1;
    }
    if k > 0 && s[k - 1].0 == x.0 {
      assert s[k - 1] in s;
      r := s;
    } else {
      InsertAt(s, x, k);
      r := s[..k] + [x] + s[k..];
    }
  }

  lemma InsertAt(s: seq<Place>, x: Place, k: nat)
    requires Ascends(s) && k <= |s| && (forall j | k <= j < |s| :: s[j].0 > x.0) && (k > 0 ==> s[k - 1].0 < x.0)
    ensures var r := s[..k] + [x] + s[k..];
      Ascends(r) && forall y :: y in r <==> y in s || y == x
  {
    assert forall j | 0 <= j < k - 1 :: Less(s[j].0, s[k - 1].0);
    AssocList.InsertSorted(s, Less, x.0, k, x.1);
    assert s == s[..k] + s[k..] && x == (x.0, x.1);
  }

  // ---- the runs of a body

  /** The runs, cut where an instruction does not start where the one before ends. */
  method CutRuns(body: seq<Place>) returns (runs: seq<seq<Place>>)
    ensures forall k | 0 <= k < |runs| :: IsRun(runs[k])
    ensures forall x :: InSome(runs, x) <==> x in body
    ensures |runs| <= 1 ==> Ascends(body)
  {
    runs := [];
    var i := 0;
    while i < |body|
      invariant 0 <= i <= |body| && (forall k | 0 <= k < |runs| :: IsRun(runs[k]))
      invariant (i > 0 <==> runs != []) && (runs != [] ==> runs[|runs| - 1][|runs[|runs| - 1]| - 1] == body[i - 1])
      invariant forall x :: InSome(runs, x) <==> x in body[..i]
      invariant |runs| == 1 ==> runs[0] == body[..i]
    {
      var r := body[i];
      assert body[..i + 1] == body[..i] + [r];
      ghost var before := runs;
      if runs != [] && Chains(body[i - 1], r) && body[i - 1].0 + body[i - 1].1 < TWO64 {
        var last := runs[|runs| - 1];
        LongerRun(last, r);
        runs := runs[|runs| - 1 := last + [r]];
        forall x ensures InSome(runs, x) <==> InSome(before, x) || x == r {
          InLast(before, r, x);
        }
      } else {
        runs := runs + [[r]];
        forall x ensures InSome(runs, x) <==> InSome(before, x) || x == r {
          InNew(before, r, x);
        }
      }
      i := i + 1;
    }
    assert body[..i] == body;
    if |runs| == 1 {
      forall j, k | 0 <= j < k < |body| ensures body[j].0 < body[k].0 { RunAscends(runs[0], j, k); }
    }
  }

  lemma LongerRun(run: seq<Place>, r: Place)
    requires IsRun(run) && Chains(run[|run| - 1], r)
    ensures IsRun(run + [r])
  {
    forall i | 0 < i < |run| + 1 ensures ChainAt(run + [r], i) {
      assert i < |run| ==> ChainAt(run, i);
    }
  }

  lemma InLast(runs: seq<seq<Place>>, r: Place, x: Place)
    requires runs != []
    ensures var k := |runs| - 1; InSome(runs[k := runs[k] + [r]], x) <==> InSome(runs, x) || x == r
  {
    var k := |runs| - 1;
    var more := runs[k := runs[k] + [r]];
    if l :| 0 <= l < |runs| && x in runs[l] { assert x in more[l]; }
    if x == r { assert x in more[k]; }
    if l :| 0 <= l < |more| && x in more[l] { assert l < k ==> x in runs[l]; }
  }

  lemma InNew(runs: seq<seq<Place>>, r: Place, x: Place)
    ensures InSome(runs + [[r]], x) <==> InSome(runs, x) || x == r
  {
    var more := runs + [[r]];
    if l :| 0 <= l < |runs| && x in runs[l] { assert x in more[l]; }
    if x == r { assert x in more[|runs|]; }
    if l :| 0 <= l < |more| && x in more[l] { assert l < |runs| ==> x in runs[l]; }
  }

  /** Run `a` is taken before run `b`: by first address, the shorter first. */
  predicate NotAfter(a: seq<Place>, b: seq<Place>)
    requires a != [] && b != []
  {
    a[0].0 < b[0].0 || (a[0].0 == b[0].0 && |a| <= |b|)
  }

  ghost predicate InOrder(runs: seq<seq<Place>>) {
    && (forall k | 0 <= k < |runs| :: runs[k] != [])
    && (forall i, j | 0 <= i < j < |runs| :: NotAfter(runs[i], runs[j]))
  }

  /** The runs by first address, the shorter first. */
  method SortRuns(runs: seq<seq<Place>>) returns (r: seq<seq<Place>>)
    requires forall k | 0 <= k < |runs| :: IsRun(runs[k])
    ensures multiset(r) == multiset(runs) && InOrder(r)
  {
    r := [];
    var i := 0;
    while i < |runs|
      invariant 0 <= i <= |runs| && multiset(r) == multiset(runs[..i]) && InOrder(r)
    {
      assert runs[..i + 1] == runs[..i] + [runs[i]];
      r := InsertRun(r, runs[i]);
      i := i + 1;
    }
    assert runs[..i] == runs;
  }

  method InsertRun(runs: seq<seq<Place>>, run: seq<Place>) returns (r: seq<seq<Place>>)
    requires run != [] && InOrder(runs)
    ensures multiset(r) == multiset(runs) + multiset{run} && InOrder(r)
  {
    var k := |runs|;
    while k > 0 && !NotAfter(runs[k - 1], run)
      invariant 0 <= k <= |runs| && forall i | k <= i < |runs| :: NotAfter(run, runs[i])
    {
      k := k - 1;
    }
    InsertedInOrder(runs, run, k);
    assert runs == runs[..k] + runs[k..];
    r := runs[..k] + [run] + runs[k..];
  }

  lemma InsertedInOrder(runs: seq<seq<Place>>, run: seq<Place>, k: nat)
    requires run != [] && InOrder(runs) && k <= |runs| && (k > 0 ==> NotAfter(runs[k - 1], run))
    requires forall i | k <= i < |runs| :: NotAfter(run, runs[i])
    ensures InOrder(runs[..k] + [run] + runs[k..])
  {
    var r := runs[..k] + [run] + runs[k..];
    forall i | 0 <= i < k ensures NotAfter(runs[i], run) {
      assert i < k - 1 ==> NotAfter(runs[i], runs[k - 1]);
    }
    forall i, j | 0 <= i < j < |r| ensures r[i] != [] && r[j] != [] && NotAfter(r[i], r[j]) {
      assert r[i] == if i < k then runs[i] else if i == k then run else runs[i - 1];
      assert r[j] == if j < k then runs[j] else if j == k then run else runs[j - 1];
    }
    forall i | 0 <= i < |r| ensures r[i] != [] {
      assert r[i] == if i < k then runs[i] else if i == k then run else runs[i - 1];
    }
  }

  lemma SameSome(a: seq<seq<Place>>, b: seq<seq<Place>>, x: Place)
    requires multiset(a) == multiset(b) && InSome(a, x)
    ensures InSome(b, x)
  {
    var k :| 0 <= k < |a| && x in a[k];
    assert a[k] in multiset(a);
    assert a[k] in multiset(b);
    assert a[k] in b;
  }

  /** The body: its runs merged, or all of it sorted. */
  method BodyOf(runs: seq<seq<Place>>, all: seq<Place>) returns (s: seq<Place>)
    requires OneLength(all) && (forall k | 0 <= k < |runs| :: IsRun(runs[k])) && forall x :: InSome(runs, x) <==> x in all
    ensures IsSorted(s, all)
  {
    var order := SortRuns(runs);
    forall x ensures InSome(order, x) <==> InSome(runs, x) {
      if InSome(order, x) { SameSome(order, runs, x); }
      if InSome(runs, x) { SameSome(runs, order, x); }
    }
    forall k | 0 <= k < |order| ensures IsRun(order[k]) {
      assert order[k] in multiset(order);
      assert order[k] in multiset(runs);
      assert order[k] in runs;
    }
    var ok;
    s, ok := MergeRuns(order);
    if !ok { s := SortAll(all); }
  }

  // ---- the body as packed

  lemma PackedRun(runs: seq<(nat, nat)>, lens: seq<nat>, all: seq<Place>, k: nat)
    requires Packs(runs, lens, all) && k < |runs|
    ensures runs[k].1 < Stop(runs, |all|, k) <= |all| && IsRun(all[runs[k].1..Stop(runs, |all|, k)])
  {
    var run := all[runs[k].1..Stop(runs, |all|, k)];
    forall i | 0 < i < |run| ensures ChainAt(run, i) {
      BodyInsns.InsideRun(runs, lens, all, k, runs[k].1 + i);
    }
  }

  /** The runs as packed hold what was pushed. */
  method PackedRuns(b: Body) returns (out: seq<seq<Place>>)
    requires b.Valid() && b.wide.None?
    ensures |out| == |b.runs| && forall k | 0 <= k < |out| :: IsRun(out[k])
    ensures forall x :: InSome(out, x) <==> x in b.all
    ensures |out| <= 1 ==> Ascends(b.all)
  {
    out := [];
    var k := 0;
    while k < |b.runs|
      invariant 0 <= k <= |b.runs| && |out| == k && forall l | 0 <= l < k :: IsRun(out[l])
      invariant forall x :: InSome(out, x) <==> x in b.all[..if k < |b.runs| then b.runs[k].1 else |b.all|]
      invariant k == 1 ==> out[0] == b.all[..if k < |b.runs| then b.runs[k].1 else |b.all|]
    {
      ghost var before, from, stop := out, b.runs[k].1, Stop(b.runs, |b.all|, k);
      PackedRun(b.runs, b.lens, b.all, k);
      var run := UnpackRun(b.runs, b.lens, k, b.all);
      out := out + [run];
      assert b.all[..stop] == b.all[..from] + run;
      forall x ensures InSome(out, x) <==> x in b.all[..stop] {
        InOneMore(out, k, x);
        assert out[..k] == before && out[..k + 1] == out;
      }
      k := k + 1;
    }
    assert b.all[..|b.all|] == b.all;
    if k == 1 {
      forall i, j | 0 <= i < j < |b.all| ensures b.all[i].0 < b.all[j].0 { RunAscends(out[0], i, j); }
    }
  }

  /** The body from its packed runs. */
  method IntoSet(b: Body) returns (s: seq<Place>)
    requires b.Valid() && OneLength(b.all)
    ensures IsSetOf(s, b.all)
  {
    if b.wide.Some? {
      s := BodySetOf(b.wide.value);
    } else {
      var runs := PackedRuns(b);
      s := b.IntoVec();
      if |runs| > 1 { s := BodyOf(runs, s); }
      OnlySet(s, b.all);
    }
  }

  method BodySetOf(body: seq<Place>) returns (s: seq<Place>)
    requires OneLength(body)
    ensures IsSetOf(s, body)
  {
    var runs := CutRuns(body);
    s := body;
    if |runs| > 1 { s := BodyOf(runs, body); }
    OnlySet(s, body);
  }
}
