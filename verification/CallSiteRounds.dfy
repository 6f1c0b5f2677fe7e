/**
 The rounds of call-site resolution: each round's summaries seed the next, which walks again
 only the functions they seed anew. Every round's sites are those of walking every function
 with that round's summaries.
 */
module CallSiteRounds {
  import opened Pcode
  import opened Functions
  import opened SortedNats
  import opened CallTracker
  import opened BlockFlowBuild
  import opened BlockFlowMake
  import opened CallSiteWalk
  import opened CallSummaries

  // ---- each site once

  /** The first site at each address among the first `n`. */
  function Firsts(sites: seq<CallSite>, n: nat): seq<CallSite>
    requires n <= |sites|
  {
    if n == 0 then []
    else if exists k | 0 <= k < n - 1 :: sites[k].site == sites[n - 1].site then Firsts(sites, n - 1)
    else Firsts(sites, n - 1) + [sites[n - 1]]
  }

  ghost predicate SitesAscend(sites: seq<CallSite>, n: nat)
    requires n <= |sites|
  {
    forall i, j | 0 <= i < j < n :: sites[i].site < sites[j].site
  }

  lemma {:induction false} AscendingFirsts(sites: seq<CallSite>, n: nat)
    requires n <= |sites| && SitesAscend(sites, n)
    ensures Firsts(sites, n) == sites[..n]
  {
    if n > 0 {
      AscendingFirsts(sites, n - 1);
      assert sites[..n] == sites[..n - 1] + [sites[n - 1]];
      assert forall k | 0 <= k < n - 1 :: sites[k].site < sites[n - 1].site;
    }
  }

  /** Whether the sites strictly ascend. */
  method DoAscend(sites: seq<CallSite>) returns (ok: bool)
    ensures ok ==> SitesAscend(sites, |sites|)
  {
    ok := true;
    var prev: Option<nat> := None;
    var k := 0;
    while k < |sites| && ok
      invariant k <= |sites| && (ok ==> SitesAscend(sites, k))
      invariant ok ==> prev == if k == 0 then None else Some(sites[k - 1].site)
    {
      ok := prev.None? || prev.value < sites[k].site;
      prev := Some(sites[k].site);
      k := k + 1;
    }
  }

  /** No site before the `k`th is at its address. */
  ghost predicate IsFirst(sites: seq<CallSite>, k: nat) {
    k < |sites| && forall l | 0 <= l < k :: sites[l].site != sites[k].site
  }

  /** `out` is the sites at these places, those first at their address, in order. */
  ghost predicate AreAt(sites: seq<CallSite>, n: nat, out: seq<CallSite>, places: seq<nat>) {
    && n <= |sites| && Ascends(places) && |places| == |out|
    && (forall i | 0 <= i < |places| :: places[i] < n && out[i] == sites[places[i]])
    && forall k: nat | k < n :: k in places <==> IsFirst(sites, k)
  }

  lemma FirstAdded(sites: seq<CallSite>, n: nat, out: seq<CallSite>, places: seq<nat>)
    requires n < |sites| && AreAt(sites, n, out, places) && IsFirst(sites, n)
    ensures AreAt(sites, n + 1, out + [sites[n]], places + [n])
  {
    var more := places + [n];
    assert more[|places|] == n;
    assert forall k: nat | k < n + 1 :: k in more <==> k in places || k == n;
  }

  lemma NotAdded(sites: seq<CallSite>, n: nat, out: seq<CallSite>, places: seq<nat>)
    requires n < |sites| && AreAt(sites, n, out, places) && !IsFirst(sites, n)
    ensures AreAt(sites, n + 1, out, places)
  {
    assert forall i | 0 <= i < |places| :: places[i] in places;
  }

  lemma {:induction false} FirstsMean(sites: seq<CallSite>, n: nat) returns (places: seq<nat>)
    requires n <= |sites|
    ensures AreAt(sites, n, Firsts(sites, n), places)
  {
    places := [];
    if n > 0 {
      places := FirstsMean(sites, n - 1);
      if IsFirst(sites, n - 1) {
        FirstAdded(sites, n - 1, Firsts(sites, n - 1), places);
        places := places + [n - 1];
      } else {
        NotAdded(sites, n - 1, Firsts(sites, n - 1), places);
      }
    }
  }

  /** Each site once, the first: all of them when they ascend. */
  method Dedup(sites: seq<CallSite>) returns (out: seq<CallSite>)
    ensures out == Firsts(sites, |sites|) && exists places :: AreAt(sites, |sites|, out, places)
  {
    ghost var places := FirstsMean(sites, |sites|);
    assert AreAt(sites, |sites|, Firsts(sites, |sites|), places);
    var ascend := DoAscend(sites);
    if ascend {
      AscendingFirsts(sites, |sites|);
      return sites;
    }
    out := [];
    var seen: set<nat> := {};
    for n := 0 to |sites|
      invariant out == Firsts(sites, n) && forall a: nat :: a in seen <==> exists k :: 0 <= k < n && sites[k].site == a
    {
      if sites[n].site !in seen {
        seen := seen + {sites[n].site};
        out := out + [sites[n]];
      }
    }
  }

  lemma {:induction false} FirstsFrom(sites: seq<CallSite>, n: nat)
    requires n <= |sites|
    ensures forall s | s in Firsts(sites, n) :: s in sites
  {
    if n > 0 { FirstsFrom(sites, n - 1); }
  }

  // ---- the program

  /** The functions (`None`: it does not lift), what is exported, and the references to each
      address: from where, and whether it is a call. */
  datatype Program = Program(functions: seq<Option<Function>>, exported: nat -> bool, refs: nat -> seq<(nat, bool)>)

  function SummaryFor(s: Summaries, e: nat): Option<Summary> {
    if e in s then Some(s[e]) else None
  }

  /** The sites of the first `n` functions, entered with the values of the summaries. */
  ghost function AllSites(p: Program, s: Summaries, n: nat): seq<CallSite>
    requires n <= |p.functions|
  {
    if n == 0 then []
    else
      match p.functions[n - 1]
      case None => AllSites(p, s, n - 1)
      case Some(f) => AllSites(p, s, n - 1) + Sites(f, SummaryFor(s, f.entry))
  }

  /** Every function walked with the summaries. */
  ghost function Resolved(p: Program, s: Summaries): seq<CallSite> {
    var all := AllSites(p, s, |p.functions|);
    Firsts(all, |all|)
  }

  // ---- the functions a summary holds of

  /** The function at `e` is entered through the calls of the sites only: it is not exported, not
      passed as a value, and every reference to it is one of those calls. */
  predicate Closed(p: Program, sites: seq<CallSite>, e: nat) {
    && !p.exported(e)
    && (forall k | 0 <= k < |sites| :: Some(e) !in sites[k].args)
    && (forall r | 0 <= r < |p.refs(e)| :: p.refs(e)[r].1 && CallsFrom(sites, e, p.refs(e)[r].0))
  }

  predicate CallsFrom(sites: seq<CallSite>, e: nat, from: nat) {
    exists k | 0 <= k < |sites| :: sites[k].target == Some(e) && sites[k].site == from
  }

  /** The calls of the functions summarised, and those of them passed as values. */
  method ReadSites(sites: seq<CallSite>, s: Summaries) returns (callers: set<(nat, nat)>, escaped: set<nat>)
    ensures forall e: nat, from: nat :: (e, from) in callers <==> e in s && CallsFrom(sites, e, from)
    ensures forall e :: e in escaped <==> e in s && exists k :: 0 <= k < |sites| && Some(e) in sites[k].args
  {
    callers, escaped := {}, {};
    for n := 0 to |sites|
      invariant forall e: nat, from: nat :: (e, from) in callers <==> e in s && CallsFrom(sites[..n], e, from)
      invariant forall e :: e in escaped <==> e in s && exists k :: 0 <= k < n && Some(e) in sites[k].args
    {
      var site := sites[n];
      ghost var before, was := callers, escaped;
      if site.target.Some? && site.target.value in s { callers := callers + {(site.target.value, site.site)}; }
      escaped := escaped + set v | v in site.args && v.Some? && v.value in s :: v.value;
      forall e: nat, from: nat ensures (e, from) in callers <==> e in s && CallsFrom(sites[..n + 1], e, from) {
        OneMoreCall(sites, n, e, from);
      }
      forall e ensures e in escaped <==> e in s && exists k :: 0 <= k < n + 1 && Some(e) in sites[k].args {
        assert e in escaped <==> e in was || (Some(e) in site.args && e in s);
      }
    }
    assert sites[..|sites|] == sites;
  }

  lemma OneMoreCall(sites: seq<CallSite>, n: nat, e: nat, from: nat)
    requires n < |sites|
    ensures CallsFrom(sites[..n + 1], e, from) <==> CallsFrom(sites[..n], e, from) || (sites[n].target == Some(e) && sites[n].site == from)
  {
    var a, b := sites[..n], sites[..n + 1];
    if k :| 0 <= k < |a| && a[k].target == Some(e) && a[k].site == from { assert b[k] == a[k]; }
    if sites[n].target == Some(e) && sites[n].site == from { assert b[n] == sites[n]; }
    if k :| 0 <= k < |b| && b[k].target == Some(e) && b[k].site == from { assert k < n ==> a[k] == b[k]; }
  }

  /** The summaries of the functions entered through the calls of the sites only. */
  method KeepClosed(p: Program, sites: seq<CallSite>, s: Summaries) returns (kept: Summaries)
    ensures kept == map e | e in s && Closed(p, sites, e) :: s[e]
  {
    var callers, escaped := ReadSites(sites, s);
    kept := map e | e in s && e !in escaped && !p.exported(e)
      && (forall r | 0 <= r < |p.refs(e)| :: p.refs(e)[r].1 && (e, p.refs(e)[r].0) in callers) :: s[e];
  }

  // ---- the rounds, every function walked

  /** All that the sites pass to the functions they alone enter. */
  ghost function RoundSummaries(p: Program, sites: seq<CallSite>): Summaries
    requires SitesOk(sites)
  {
    var all := ParamsUpto(sites, |sites|);
    map e | e in all && Closed(p, sites, e) :: all[e]
  }

  /** The arguments known. */
  function KnownArgs(args: seq<Option<nat>>): nat {
    if args == [] then 0 else KnownArgs(args[..|args| - 1]) + if args[|args| - 1].Some? then 1 else 0
  }

  function Known(sites: seq<CallSite>): nat {
    if sites == [] then 0 else Known(sites[..|sites| - 1]) + KnownArgs(sites[|sites| - 1].args)
  }

  /** The sites of round `n`: round 0 walks with no summary, each other one with what the sites of
      the round before pass. */
  ghost function SitesOfRound(p: Program, n: nat): (r: seq<CallSite>)
    ensures SitesOk(r)
  {
    ResolvedOk(p, map[]);
    if n == 0 then Resolved(p, map[])
    else
      ResolvedOk(p, RoundSummaries(p, SitesOfRound(p, n - 1)));
      Resolved(p, RoundSummaries(p, SitesOfRound(p, n - 1)))
  }

  /** Round `n` leaves as many arguments known as the one before. */
  ghost predicate AddsNone(p: Program, n: nat) {
    n > 0 && Known(SitesOfRound(p, n)) == Known(SitesOfRound(p, n - 1))
  }

  /** Round `n` is the first that leaves as many arguments known as the one before, or the last
      allowed. */
  ghost predicate IsLastRound(p: Program, max: nat, n: nat) {
    && n <= max && (n < max ==> AddsNone(p, n))
    && forall m | 0 <= m < n :: !AddsNone(p, m)
  }

  lemma NextRoundIs(p: Program, n: nat, sites: seq<CallSite>, next: seq<CallSite>)
    requires SitesOk(sites) && sites == SitesOfRound(p, n) && next == Resolved(p, RoundSummaries(p, sites))
    ensures next == SitesOfRound(p, n + 1)
    ensures AddsNone(p, n + 1) <==> Known(next) == Known(sites)
  {
  }

  /** The rounds up to the `n`th go on. */
  ghost predicate GoesOn(p: Program, n: nat) {
    forall m | 0 <= m <= n :: !AddsNone(p, m)
  }

  lemma GoesOnTo(p: Program, max: nat, n: nat)
    requires GoesOn(p, n) && n < max
    ensures AddsNone(p, n + 1) || n + 1 == max ==> IsLastRound(p, max, n + 1)
    ensures !AddsNone(p, n + 1) ==> GoesOn(p, n + 1)
  {
  }

  lemma {:induction false} WalkOk(entry: nat, insns: seq<Insn>, flags: seq<Flag>, n: nat, w: Walk)
    requires n <= |insns| && n <= |flags| && SitesOk(w.out)
    ensures SitesOk(WalkUpto(entry, insns, flags, n, w).out)
  {
    if n > 0 {
      WalkOk(entry, insns, flags, n - 1, w);
      var v, flag := WalkUpto(entry, insns, flags, n - 1, w), flags[n - 1];
      OpsOk(entry, insns[n - 1], flag.owned, |insns[n - 1].ops|, if flag.join then v.(t := Reset(v.t)) else v);
    }
  }

  lemma {:induction false} OpsOk(entry: nat, insn: Insn, owned: bool, k: nat, w: Walk)
    requires k <= |insn.ops| && SitesOk(w.out)
    ensures SitesOk(WalkOps(entry, insn, owned, k, w).out)
  {
    if k > 0 { OpsOk(entry, insn, owned, k - 1, w); }
  }

  lemma {:induction false} AllOk(p: Program, s: Summaries, n: nat)
    requires n <= |p.functions|
    ensures SitesOk(AllSites(p, s, n))
  {
    if n > 0 {
      AllOk(p, s, n - 1);
      match p.functions[n - 1]
      case None =>
      case Some(f) => WalkOk(f.entry, f.lift, FlagsOf(f), |f.lift|, Walk(Seeded(SummaryFor(s, f.entry)), []));
    }
  }

  lemma ResolvedOk(p: Program, s: Summaries)
    ensures SitesOk(Resolved(p, s))
  {
    var all := AllSites(p, s, |p.functions|);
    AllOk(p, s, |p.functions|);
    FirstsFrom(all, |all|);
    var r := Resolved(p, s);
    forall k | 0 <= k < |r| ensures |r[k].args| == |ARGS| {
      assert r[k] in all;
    }
  }

  // ---- the rounds as they are run

  /** The first walk of a function, with no summary, and its prefix when kept. */
  datatype FunctionWalk = FunctionWalk(sites: Option<seq<CallSite>>, prefix: Option<seq<Flag>>)

  ghost predicate IsFirstWalk(f: Option<Function>, w: FunctionWalk) {
    match f
    case None => w.sites.None?
    case Some(f) => w.sites == Some(Sites(f, None)) && (w.prefix.Some? ==> IsPrefix(f, w.prefix.value))
  }

  ghost predicate FirstWalks(p: Program, round0: seq<FunctionWalk>) {
    |round0| == |p.functions| && forall i | 0 <= i < |round0| :: IsFirstWalk(p.functions[i], round0[i])
  }

  /** A walk done again is the one with the summaries; one not done again would be the first. */
  ghost predicate IsRewalk(f: Option<Function>, s: Summaries, r: Option<seq<CallSite>>) {
    match f
    case None => r.None?
    case Some(f) =>
      if SeedsAnything(SummaryFor(s, f.entry)) then r == Some(Sites(f, SummaryFor(s, f.entry))) else r.None?
  }

  ghost predicate Rewalked(p: Program, s: Summaries, rs: seq<Option<seq<CallSite>>>) {
    |rs| == |p.functions| && forall i | 0 <= i < |rs| :: IsRewalk(p.functions[i], s, rs[i])
  }

  lemma UnseededIsFirst(f: Function, s: Summaries)
    requires !SeedsAnything(SummaryFor(s, f.entry))
    ensures Sites(f, SummaryFor(s, f.entry)) == Sites(f, None)
  {
    if f.entry in s { SeedsNothing(Blank(false, false), s[f.entry], |s[f.entry]|); }
  }

  /** One function walked with its summary: its prefix when kept, else all of it. */
  method WalkAgain(f: Function, prefix: Option<seq<Flag>>, summary: Option<Summary>) returns (out: seq<CallSite>)
    requires prefix.Some? ==> IsPrefix(f, prefix.value)
    ensures out == Sites(f, summary)
  {
    if prefix.Some? {
      out := WalkPrefix(f, f.lift[..|prefix.value|], prefix.value, summary);
    } else {
      var shape := ReadShape(f.lift);
      var increasing := IsIncreasing(f.lift);
      out := WalkShaped(f, shape, increasing, summary);
    }
  }

  /** The functions the summaries seed walked with them; a walk of the round before with the same
      summary is taken. */
  method RewalkFunctions(p: Program, round0: seq<FunctionWalk>, s: Summaries, prev: Option<(Summaries, seq<Option<seq<CallSite>>>)>)
    returns (rs: seq<Option<seq<CallSite>>>)
    requires FirstWalks(p, round0) && (prev.Some? ==> Rewalked(p, prev.value.0, prev.value.1))
    ensures Rewalked(p, s, rs)
  {
    rs := [];
    for i := 0 to |round0|
      invariant |rs| == i && forall j | 0 <= j < i :: IsRewalk(p.functions[j], s, rs[j])
    {
      assert IsFirstWalk(p.functions[i], round0[i]);
      assert prev.Some? ==> IsRewalk(p.functions[i], prev.value.0, prev.value.1[i]);
      var r: Option<seq<CallSite>> := None;
      if p.functions[i].Some? {
        var f := p.functions[i].value;
        var summary := SummaryFor(s, f.entry);
        if SeedsAnything(summary) {
          if prev.Some? && prev.value.1[i].Some? && SummaryFor(prev.value.0, f.entry) == summary {
            r := prev.value.1[i];
          } else {
            var out := WalkAgain(f, round0[i].prefix, summary);
            r := Some(out);
          }
        }
      }
      rs := rs + [r];
    }
  }

  /** The walk again, else the first, is the walk with the summaries. */
  lemma CurrentWalk(f: Option<Function>, s: Summaries, w: FunctionWalk, r: Option<seq<CallSite>>)
    requires IsFirstWalk(f, w) && IsRewalk(f, s, r)
    ensures (if r.Some? then r else w.sites) == if f.None? then None else Some(Sites(f.value, SummaryFor(s, f.value.entry)))
  {
    if f.Some? && !SeedsAnything(SummaryFor(s, f.value.entry)) { UnseededIsFirst(f.value, s); }
  }

  /** The sites of the round: each function's walk again, else its first. */
  method View(p: Program, round0: seq<FunctionWalk>, rs: seq<Option<seq<CallSite>>>, ghost s: Summaries) returns (sites: seq<CallSite>)
    requires FirstWalks(p, round0) && Rewalked(p, s, rs)
    ensures sites == Resolved(p, s)
  {
    var all: seq<CallSite> := [];
    for i := 0 to |round0|
      invariant all == AllSites(p, s, i)
    {
      var w := if rs[i].Some? then rs[i] else round0[i].sites;
      CurrentWalk(p.functions[i], s, round0[i], rs[i]);
      if w.Some? { all := all + w.value; }
    }
    sites := Dedup(all);
  }

  /** The summaries of the next round: those that pin something, of the functions entered
      through the calls of the sites only. */
  method NextSummaries(p: Program, sites: seq<CallSite>) returns (s: Summaries)
    requires SitesOk(sites)
    ensures Resolved(p, s) == Resolved(p, RoundSummaries(p, sites))
  {
    var seeding := SeedingSummaries(sites, CHUNK);
    s := KeepClosed(p, sites, seeding);
    SameSites(p, sites, seeding, s, |p.functions|);
  }

  /** Summaries that seed alike give the same sites. */
  lemma {:induction false} SameSites(p: Program, sites: seq<CallSite>, seeding: Summaries, s: Summaries, n: nat)
    requires Seeding(sites, seeding) && s == (map e | e in seeding && Closed(p, sites, e) :: seeding[e]) && n <= |p.functions|
    ensures AllSites(p, s, n) == AllSites(p, RoundSummaries(p, sites), n)
  {
    if n > 0 {
      SameSites(p, sites, seeding, s, n - 1);
      match p.functions[n - 1]
      case None =>
      case Some(f) => SameFor(p, sites, seeding, s, f);
    }
  }

  lemma SameFor(p: Program, sites: seq<CallSite>, seeding: Summaries, s: Summaries, f: Function)
    requires Seeding(sites, seeding) && s == map e | e in seeding && Closed(p, sites, e) :: seeding[e]
    ensures Sites(f, SummaryFor(s, f.entry)) == Sites(f, SummaryFor(RoundSummaries(p, sites), f.entry))
  {
    SeedsAlike(sites, seeding, f.entry);
  }

  method CountKnown(sites: seq<CallSite>) returns (known: nat)
    ensures known == Known(sites)
  {
    known := 0;
    for n := 0 to |sites|
      invariant known == Known(sites[..n])
    {
      assert sites[..n + 1][..n] == sites[..n];
      known := known + KnownArgs(sites[n].args);
    }
    assert sites[..|sites|] == sites;
  }

  /** After round `n`, `left` more allowed: its sites and how many arguments they know. */
  ghost predicate AfterRound(p: Program, max: nat, n: nat, left: nat, sites: seq<CallSite>, known: nat) {
    && SitesOk(sites) && known == Known(sites) && sites == SitesOfRound(p, n)
    && if left == 0 then IsLastRound(p, max, n) else n + left == max && GoesOn(p, n)
  }

  /** The walks before the first round. */
  method StartRounds(p: Program, round0: seq<FunctionWalk>, max: nat) returns (sites: seq<CallSite>, known: nat)
    requires FirstWalks(p, round0)
    ensures AfterRound(p, max, 0, max, sites, known)
  {
    var rs: seq<Option<seq<CallSite>>> := seq(|round0|, _ => None);
    ghost var s: Summaries := map[];
    assert Rewalked(p, s, rs);
    sites := View(p, round0, rs, s);
    ResolvedOk(p, s);
    known := CountKnown(sites);
    assert !AddsNone(p, 0);
  }

  lemma NextAfter(p: Program, max: nat, n: nat, left: nat, before: seq<CallSite>, known: nat, sites: seq<CallSite>, more: nat)
    requires AfterRound(p, max, n, left, before, known) && left > 0
    requires sites == Resolved(p, RoundSummaries(p, before)) && SitesOk(sites) && more == Known(sites)
    ensures AfterRound(p, max, n + 1, if more == known || left == 1 then 0 else left - 1, sites, more)
  {
    NextRoundIs(p, n, before, sites);
    GoesOnTo(p, max, n);
  }

  /** The sites after at most `max` rounds, from the first walks: those of walking every function
      again in every round, up to the one that adds nothing. */
  method ResolveRounds(p: Program, round0: seq<FunctionWalk>, max: nat) returns (sites: seq<CallSite>)
    requires FirstWalks(p, round0)
    ensures exists n :: IsLastRound(p, max, n) && sites == SitesOfRound(p, n)
  {
    var known;
    sites, known := StartRounds(p, round0, max);
    var prev: Option<(Summaries, seq<Option<seq<CallSite>>>)> := None;
    var left := max;
    ghost var n := 0;
    while left > 0
      invariant AfterRound(p, max, n, left, sites, known)
      invariant prev.Some? ==> Rewalked(p, prev.value.0, prev.value.1)
      decreases left
    {
      ghost var before := sites;
      var rs;
      sites, rs, prev := NextRound(p, round0, sites, prev);
      var more := CountKnown(sites);
      NextAfter(p, max, n, left, before, known, sites, more);
      left := if more == known || left == 1 then 0 else left - 1;
      known, n := more, n + 1;
    }
  }

  /** One round. */
  method NextRound(p: Program, round0: seq<FunctionWalk>, sites0: seq<CallSite>, prev0: Option<(Summaries, seq<Option<seq<CallSite>>>)>)
    returns (sites: seq<CallSite>, rs: seq<Option<seq<CallSite>>>, prev: Option<(Summaries, seq<Option<seq<CallSite>>>)>)
    requires FirstWalks(p, round0) && SitesOk(sites0) && (prev0.Some? ==> Rewalked(p, prev0.value.0, prev0.value.1))
    ensures sites == Resolved(p, RoundSummaries(p, sites0)) && SitesOk(sites)
    ensures prev.Some? && Rewalked(p, prev.value.0, prev.value.1)
  {
    var s := NextSummaries(p, sites0);
    rs := RewalkFunctions(p, round0, s, prev0);
    sites := View(p, round0, rs, s);
    ResolvedOk(p, s);
    prev := Some((s, rs));
  }
}
