/**
 What calls pass to each parameter of each function: the summaries that seed the next round of
 walks, folded in parts and joined, and the functions they may be used for.
 */
module CallSummaries {
  import opened Pcode
  import opened CallTracker
  import opened CallSiteWalk

  type Summaries = map<nat, Summary>

  /** A site gives a value, known or not, for each argument register. */
  ghost predicate SitesOk(sites: seq<CallSite>) {
    forall k | 0 <= k < |sites| :: |sites[k].args| == |ARGS|
  }

  // ---- one call after the other

  function AddArg(p: Option<set<nat>>, v: Option<nat>): Option<set<nat>> {
    if v.None? then None
    else if p.None? then None
    else if |p.value| < 2 then Some(p.value + {v.value})
    else p
  }

  /** No value passed yet. */
  function NoCall(): (s: Summary)
    ensures |s| == |ARGS| && forall i | 0 <= i < |s| :: s[i] == Some({})
  {
    [Some({}), Some({}), Some({}), Some({}), Some({}), Some({})]
  }

  function SummaryAt(r: Summaries, t: nat): Summary {
    if t in r then r[t] else NoCall()
  }

  function AddArgs(s: Summary, args: seq<Option<nat>>): Summary
    requires |s| == |args|
  {
    seq(|s|, i requires 0 <= i < |s| => AddArg(s[i], args[i]))
  }

  /** The values passed to each function called by the first `n` sites: a set grows to two. */
  function ParamsUpto(sites: seq<CallSite>, n: nat): (r: Summaries)
    requires n <= |sites| && forall k | 0 <= k < n :: |sites[k].args| == |ARGS|
    ensures forall t | t in r :: |r[t]| == |ARGS|
  {
    if n == 0 then map[]
    else
      var r, site := ParamsUpto(sites, n - 1), sites[n - 1];
      if site.target.None? then r
      else
        r[site.target.value := AddArgs(SummaryAt(r, site.target.value), site.args)]
  }

  // ---- in parts

  /** What some calls pass to one parameter. */
  datatype Passed = Nothing | One(v: nat) | NotOne

  function Also(p: Passed, v: Option<nat>): Passed {
    if v.None? || p.NotOne? then NotOne
    else if p.Nothing? || p.v == v.value then One(v.value)
    else NotOne
  }

  /** What the calls of both pass. */
  function And(p: Passed, q: Passed): Passed {
    if p.Nothing? then q
    else if q.Nothing? then p
    else if p.One? && q.One? && p.v == q.v then p
    else NotOne
  }

  /** What the first `n` sites pass to parameter `i` of the function at `t`. */
  function PassedUpto(sites: seq<CallSite>, t: nat, i: nat, n: nat): Passed
    requires n <= |sites| && i < |ARGS| && forall k | 0 <= k < n :: |sites[k].args| == |ARGS|
  {
    if n == 0 then Nothing
    else
      var p := PassedUpto(sites, t, i, n - 1);
      if sites[n - 1].target == Some(t) then Also(p, sites[n - 1].args[i]) else p
  }

  lemma AlsoAnd(p: Passed, q: Passed, v: Option<nat>)
    ensures Also(And(p, q), v) == And(p, Also(q, v))
  {
  }

  /** The calls of two parts pass what the parts do. */
  lemma {:induction false} PartsPass(a: seq<CallSite>, b: seq<CallSite>, t: nat, i: nat, n: nat)
    requires SitesOk(a) && SitesOk(b) && i < |ARGS| && n <= |b|
    ensures SitesOk(a + b) && PassedUpto(a + b, t, i, |a| + n) == And(PassedUpto(a, t, i, |a|), PassedUpto(b, t, i, n))
  {
    var c := a + b;
    assert SitesOk(c);
    if n == 0 {
      SameFront(a, c, t, i, |a|);
    } else {
      PartsPass(a, b, t, i, n - 1);
      assert c[|a| + n - 1] == b[n - 1];
      AlsoAnd(PassedUpto(a, t, i, |a|), PassedUpto(b, t, i, n - 1), b[n - 1].args[i]);
    }
  }

  lemma {:induction false} SameFront(a: seq<CallSite>, c: seq<CallSite>, t: nat, i: nat, n: nat)
    requires SitesOk(a) && SitesOk(c) && i < |ARGS| && n <= |a| && a <= c
    ensures PassedUpto(a, t, i, n) == PassedUpto(c, t, i, n)
  {
    if n > 0 {
      SameFront(a, c, t, i, n - 1);
      assert a[n - 1] == c[n - 1];
    }
  }

  /** The function at `t` is called among the first `n` sites, and each of these calls passes `v`
      for parameter `i`. */
  ghost predicate AlwaysPasses(sites: seq<CallSite>, t: nat, i: nat, v: nat, n: nat)
    requires SitesOk(sites) && i < |ARGS| && n <= |sites|
  {
    Called(sites, t, n) && forall k | 0 <= k < n && sites[k].target == Some(t) :: sites[k].args[i] == Some(v)
  }

  /** What the sites pass is one value when each of them passes it. */
  lemma {:induction false} PassedMeans(sites: seq<CallSite>, t: nat, i: nat, n: nat)
    requires SitesOk(sites) && i < |ARGS| && n <= |sites|
    ensures PassedUpto(sites, t, i, n) == Nothing <==> !Called(sites, t, n)
    ensures forall v :: PassedUpto(sites, t, i, n) == One(v) <==> AlwaysPasses(sites, t, i, v, n)
  {
    if n > 0 {
      PassedMeans(sites, t, i, n - 1);
      OneMoreCalled(sites, t, n - 1);
      forall v ensures PassedUpto(sites, t, i, n) == One(v) <==> AlwaysPasses(sites, t, i, v, n) {
        OneMorePasses(sites, t, i, v, n - 1);
      }
    }
  }

  lemma OneMoreCalled(sites: seq<CallSite>, t: nat, n: nat)
    requires n < |sites|
    ensures Called(sites, t, n + 1) <==> Called(sites, t, n) || sites[n].target == Some(t)
  {
  }

  lemma OneMorePasses(sites: seq<CallSite>, t: nat, i: nat, v: nat, n: nat)
    requires SitesOk(sites) && i < |ARGS| && n < |sites|
    ensures AlwaysPasses(sites, t, i, v, n + 1) <==>
      if sites[n].target == Some(t) then sites[n].args[i] == Some(v) && (Called(sites, t, n) ==> AlwaysPasses(sites, t, i, v, n))
      else AlwaysPasses(sites, t, i, v, n)
  {
    OneMoreCalled(sites, t, n);
  }

  /** The value a parameter is pinned to. */
  function OneOf(p: Passed): Option<nat> {
    if p.One? then Some(p.v) else None
  }

  /** What a parameter's set of values says of what is passed to it. */
  ghost predicate Tells(p: Passed, s: Option<set<nat>>) {
    match p
    case Nothing => s == Some({})
    case One(v) => s == Some({v})
    case NotOne => s.None? || |s.value| == 2
  }

  lemma TellsAlso(p: Passed, s: Option<set<nat>>, v: Option<nat>)
    requires Tells(p, s)
    ensures Tells(Also(p, v), AddArg(s, v))
  {
    if v.Some? {
      var x := {v.value};
      assert {} + x == x && x + x == x;
      if p.One? && p.v != v.value { assert |{p.v} + x| == 2; }
    }
  }

  /** The function at `t` is called by one of the first `n` sites. */
  ghost predicate Called(sites: seq<CallSite>, t: nat, n: nat)
    requires n <= |sites|
  {
    exists k :: 0 <= k < n && sites[k].target == Some(t)
  }

  /** The sets of values and what is passed agree. */
  lemma {:induction false} ParamsTell(sites: seq<CallSite>, t: nat, i: nat, n: nat)
    requires SitesOk(sites) && i < |ARGS| && n <= |sites|
    ensures t in ParamsUpto(sites, n) <==> Called(sites, t, n)
    ensures t in ParamsUpto(sites, n) ==> Tells(PassedUpto(sites, t, i, n), ParamsUpto(sites, n)[t][i])
    ensures t !in ParamsUpto(sites, n) ==> PassedUpto(sites, t, i, n) == Nothing
  {
    if n > 0 {
      ParamsTell(sites, t, i, n - 1);
      var r, site := ParamsUpto(sites, n - 1), sites[n - 1];
      if site.target == Some(t) {
        TellsAlso(PassedUpto(sites, t, i, n - 1), if t in r then r[t][i] else Some({}), site.args[i]);
      } else {
        assert Called(sites, t, n) <==> Called(sites, t, n - 1);
      }
    }
  }

  // ---- the fold as it is run

  /** `m` holds what the sites pass to the functions they call. */
  ghost predicate Folded(sites: seq<CallSite>, m: map<nat, seq<Passed>>) {
    && SitesOk(sites)
    && forall t: nat :: FoldedAt(sites, m, t)
  }

  ghost predicate FoldedAt(sites: seq<CallSite>, m: map<nat, seq<Passed>>, t: nat)
    requires SitesOk(sites)
  {
    && (t in m ==> |m[t]| == |ARGS|)
    && forall i | 0 <= i < |ARGS| :: PassedUpto(sites, t, i, |sites|) == if t in m then m[t][i] else Nothing
  }

  function PassedAt(m: map<nat, seq<Passed>>, t: nat): seq<Passed> {
    if t in m then m[t] else [Nothing, Nothing, Nothing, Nothing, Nothing, Nothing]
  }

  method FoldSites(sites: seq<CallSite>) returns (m: map<nat, seq<Passed>>)
    requires SitesOk(sites)
    ensures Folded(sites, m)
  {
    m := map[];
    for n := 0 to |sites|
      invariant Folded(sites[..n], m)
    {
      var site := sites[n];
      ghost var before := m;
      if site.target.Some? {
        var t := site.target.value;
        assert FoldedAt(sites[..n], m, t);
        m := m[t := AlsoAll(PassedAt(m, t), site.args)];
      }
      FoldOne(sites, n, before, m);
    }
    assert sites[..|sites|] == sites;
  }

  function AlsoAll(ps: seq<Passed>, args: seq<Option<nat>>): (r: seq<Passed>)
    requires |ps| == |args|
    ensures |r| == |ps| && forall i | 0 <= i < |r| :: r[i] == Also(ps[i], args[i])
  {
    seq(|ps|, i requires 0 <= i < |ps| => Also(ps[i], args[i]))
  }

  lemma FoldOne(sites: seq<CallSite>, n: nat, before: map<nat, seq<Passed>>, m: map<nat, seq<Passed>>)
    requires SitesOk(sites) && n < |sites| && Folded(sites[..n], before)
    requires var site := sites[n];
      if site.target.None? then m == before
      else
        var ps := PassedAt(before, site.target.value);
        |ps| == |site.args| && m == before[site.target.value := AlsoAll(ps, site.args)]
    ensures Folded(sites[..n + 1], m)
  {
    var a, c := sites[..n], sites[..n + 1];
    forall t: nat ensures FoldedAt(c, m, t) {
      assert FoldedAt(a, before, t);
      forall i | 0 <= i < |ARGS| ensures PassedUpto(c, t, i, |c|) == if t in m then m[t][i] else Nothing {
        SameFront(a, c, t, i, n);
        assert c[n] == sites[n];
      }
    }
  }

  method JoinFolds(a: map<nat, seq<Passed>>, b: map<nat, seq<Passed>>, ghost x: seq<CallSite>, ghost y: seq<CallSite>) returns (m: map<nat, seq<Passed>>)
    requires Folded(x, a) && Folded(y, b)
    ensures Folded(x + y, m)
  {
    m := map t | t in a.Keys + b.Keys :: AndAll(PassedAt(a, t), PassedAt(b, t));
    forall t: nat ensures FoldedAt(x + y, m, t) {
      assert FoldedAt(x, a, t) && FoldedAt(y, b, t);
      forall i | 0 <= i < |ARGS| ensures PassedUpto(x + y, t, i, |x + y|) == if t in m then m[t][i] else Nothing {
        PartsPass(x, y, t, i, |y|);
      }
    }
  }

  function AndAll(p: seq<Passed>, q: seq<Passed>): (r: seq<Passed>)
    ensures |p| == |q| == |ARGS| ==> |r| == |ARGS| && forall i | 0 <= i < |ARGS| :: r[i] == And(p[i], q[i])
  {
    if |p| == |q| then seq(|p|, i requires 0 <= i < |p| && |p| == |q| => And(p[i], q[i])) else p
  }

  const CHUNK: nat := 0x2000

  /** What the sites pass, folded in parts. */
  method FoldAll(sites: seq<CallSite>, chunk: nat) returns (m: map<nat, seq<Passed>>)
    requires SitesOk(sites) && chunk > 0
    ensures Folded(sites, m)
  {
    m := map[];
    var at := 0;
    while at < |sites|
      invariant 0 <= at <= |sites| && Folded(sites[..at], m)
    {
      var end := if at + chunk <= |sites| then at + chunk else |sites|;
      var part := FoldSites(sites[at..end]);
      assert sites[..at] + sites[at..end] == sites[..end];
      m := JoinFolds(m, part, sites[..at], sites[at..end]);
      at := end;
    }
    assert sites[..at] == sites;
  }

  /** The summaries that pin a parameter: each pinned one's value. */
  function SummaryOf(ps: seq<Passed>): Summary {
    seq(|ps|, i requires 0 <= i < |ps| => if ps[i].One? then Some({ps[i].v}) else None)
  }

  predicate PinsAny(ps: seq<Passed>) {
    exists i | 0 <= i < |ps| :: ps[i].One?
  }

  /** `s` has a summary of each function a parameter of which is always passed one value, and no
      other. */
  ghost predicate Seeding(sites: seq<CallSite>, s: Summaries) {
    SitesOk(sites) && forall t: nat :: SeedingAt(sites, s, t)
  }

  ghost predicate SeedingAt(sites: seq<CallSite>, s: Summaries, t: nat)
    requires SitesOk(sites)
  {
    && (t in s <==> exists i :: 0 <= i < |ARGS| && PassedUpto(sites, t, i, |sites|).One?)
    && (t in s ==> |s[t]| == |ARGS| && forall i | 0 <= i < |ARGS| :: Pinned(s[t][i]) == OneOf(PassedUpto(sites, t, i, |sites|)))
  }

  /** The parameters of the function at `t` always passed one value are pinned to it, no other
      is, and the function has a summary when there is one. */
  ghost predicate PinsAlways(sites: seq<CallSite>, s: Summaries, t: nat)
    requires SitesOk(sites)
  {
    && (t in s <==> exists i: nat, v: nat :: i < |ARGS| && AlwaysPasses(sites, t, i, v, |sites|))
    && (t in s ==> |s[t]| == |ARGS| && forall i: nat, v: nat | i < |ARGS| :: Pinned(s[t][i]) == Some(v) <==> AlwaysPasses(sites, t, i, v, |sites|))
  }

  lemma SeedingPins(sites: seq<CallSite>, s: Summaries, t: nat)
    requires SitesOk(sites) && SeedingAt(sites, s, t)
    ensures PinsAlways(sites, s, t)
  {
    forall i | 0 <= i < |ARGS|
      ensures forall v: nat :: PassedUpto(sites, t, i, |sites|) == One(v) <==> AlwaysPasses(sites, t, i, v, |sites|)
    {
      PassedMeans(sites, t, i, |sites|);
    }
    if i: nat, v: nat :| i < |ARGS| && AlwaysPasses(sites, t, i, v, |sites|) {
      assert PassedUpto(sites, t, i, |sites|) == One(v);
    }
    if i :| 0 <= i < |ARGS| && PassedUpto(sites, t, i, |sites|).One? {
      assert AlwaysPasses(sites, t, i, PassedUpto(sites, t, i, |sites|).v, |sites|);
    }
  }

  method SeedingSummaries(sites: seq<CallSite>, chunk: nat) returns (s: Summaries)
    requires SitesOk(sites) && chunk > 0
    ensures Seeding(sites, s) && forall t: nat :: PinsAlways(sites, s, t)
  {
    var m := FoldAll(sites, chunk);
    s := map t | t in m && PinsAny(m[t]) :: SummaryOf(m[t]);
    forall t: nat ensures SeedingAt(sites, s, t) {
      assert FoldedAt(sites, m, t);
      if t in m {
        forall i | 0 <= i < |ARGS| ensures Pinned(SummaryOf(m[t])[i]) == OneOf(m[t][i]) {
          PinnedOne(m[t][i]);
        }
      }
    }
    forall t: nat ensures PinsAlways(sites, s, t) {
      assert SeedingAt(sites, s, t);
      SeedingPins(sites, s, t);
    }
  }

  lemma PinnedOne(p: Passed)
    ensures Pinned(if p.One? then Some({p.v}) else None) == OneOf(p)
  {
  }

  /** Seeded with the values of the pinned parameters alone, a function starts as seeded with all
      that is passed to it. */
  lemma SeedsAlike(sites: seq<CallSite>, s: Summaries, t: nat)
    requires Seeding(sites, s)
    ensures var all := ParamsUpto(sites, |sites|);
      Seeded(if t in s then Some(s[t]) else None) == Seeded(if t in all then Some(all[t]) else None)
  {
    var all := ParamsUpto(sites, |sites|);
    assert SeedingAt(sites, s, t);
    forall i | 0 <= i < |ARGS| ensures t in all ==> Pinned(all[t][i]) == OneOf(PassedUpto(sites, t, i, |sites|)) {
      ParamsTell(sites, t, i, |sites|);
    }
    if t in s {
      var i :| 0 <= i < |ARGS| && PassedUpto(sites, t, i, |sites|).One?;
      ParamsTell(sites, t, i, |sites|);
      SamePinned(Blank(false, false), s[t], all[t], |ARGS|);
    } else if t in all {
      SeedsNothing(Blank(false, false), all[t], |ARGS|);
    }
  }
}
