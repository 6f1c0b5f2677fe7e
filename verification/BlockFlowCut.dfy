/**
 What the flow walks when only some calls matter: the blocks that can reach them, of the
 whole lift or of the prefix that holds all of those.
 */
module BlockFlowCut {
  import opened Pcode
  import opened EdgeList
  import opened BlockFlow
  import opened BlockFlowRun
  import opened BlockFlowBound
  import opened BlockFlowRestrict
  import opened BlockFlowBuild

  /** Block `b` holds an instruction of `wanted`. */
  ghost predicate Holds(start: seq<nat>, end: nat, wanted: nat -> bool, b: nat)
    requires b < |start|
  {
    exists i: nat :: start[b] <= i < EndOf(start, end, b) && wanted(i)
  }

  /** `rel` marks the blocks that can reach, along the static edges, one holding an
      instruction of `wanted`. */
  ghost predicate Kept(cfg: Cfg, end: nat, wanted: nat -> bool, rel: seq<bool>)
  {
    && |rel| == |cfg.succs| == |cfg.start|
    && forall b | 0 <= b < |rel| :: rel[b] <==> ReachesHolder(cfg, end, wanted, b)
  }

  ghost predicate ReachesHolder(cfg: Cfg, end: nat, wanted: nat -> bool, b: nat)
    requires b < |cfg.succs| == |cfg.start|
  {
    exists c: nat :: c < |cfg.start| && Holds(cfg.start, end, wanted, c) && Leads(cfg.succs, b, c)
  }

  lemma LeadsHere(succs: seq<seq<nat>>, b: nat)
    requires b < |succs|
    ensures Leads(succs, b, b)
  {
    assert IsPath(succs, [b]) && [b][0] == b && [b][|[b]| - 1] == b;
  }

  lemma LeadsOn(succs: seq<seq<nat>>, a: nat, b: nat, c: nat)
    requires a < |succs| && b in succs[a] && Leads(succs, b, c)
    ensures Leads(succs, a, c)
  {
    var path :| IsPath(succs, path) && path[0] == b && path[|path| - 1] == c;
    var longer := [a] + path;
    assert forall k | 0 < k < |longer| :: longer[k] == path[k - 1];
    forall k | 0 <= k < |longer| - 1 ensures EdgeAt(succs, longer, k) {
      assert k > 0 ==> EdgeAt(succs, path, k - 1);
    }
    assert IsPath(succs, longer);
    assert longer[|longer| - 1] == c;
  }

  lemma KeptIsClosed(cfg: Cfg, end: nat, wanted: nat -> bool, rel: seq<bool>, b: nat, c: nat)
    requires Kept(cfg, end, wanted, rel) && b < |rel| && c < |rel| && c in cfg.succs[b] && rel[c]
    ensures rel[b]
  {
    var d: nat :| d < |cfg.start| && Holds(cfg.start, end, wanted, d) && Leads(cfg.succs, c, d);
    LeadsOn(cfg.succs, b, c, d);
  }

  lemma KeptHasHolders(cfg: Cfg, end: nat, wanted: nat -> bool, rel: seq<bool>, b: nat)
    requires Kept(cfg, end, wanted, rel) && b < |rel| && Holds(cfg.start, end, wanted, b)
    ensures rel[b]
  {
    LeadsHere(cfg.succs, b);
  }

  lemma DistinctStarts(lift: seq<Insn>, external: set<nat>, end: nat)
    requires Increasing(lift) && end <= |lift|
    ensures var s := Starts(lift, external, end);
      StartsOk(lift, s, end) && forall b, c | 0 <= b < c < |s| :: Addresses(lift, s)[b] != Addresses(lift, s)[c]
  {
    StartsFacts(lift, external, end);
  }

  ghost predicate DistinctBlocks<S, T>(p: Problem<S, T>) {
    forall b, c | 0 <= b < c < |p.cfg.startAddr| :: p.cfg.startAddr[b] != p.cfg.startAddr[c]
  }

  /** What the blocks of an increasing lift give. */
  lemma BuiltFacts<S, T>(p: Problem<S, T>, flow: Flow<S, T>, lift: seq<Insn>, external: set<nat>, inBody: nat -> bool, end: nat, want: nat -> bool)
    requires 0 < end <= |lift| && Increasing(lift) && p == ProblemOf(flow, lift, external, inBody, end, want)
    ensures Linked(p) && DistinctBlocks(p) && p.cfg.relevant == None && !p.cfg.legacy
  {
    BlocksAreLinked(p, flow, lift, external, inBody, end, want);
    DistinctStarts(lift, external, end);
  }

  /** Slicing: walking only the blocks that can reach the calls of `wanted` records, of the
      calls `g` wants of those blocks, what walking every block does, in the same order. */
  lemma SlicingIsInvisible<S, T>(f: Problem<S, T>, g: Problem<S, T>, end: nat, wanted: nat -> bool, rel: seq<bool>)
    requires Linked(f) && DistinctBlocks(f) && f.cfg.relevant == None && !f.cfg.legacy && Kept(f.cfg, end, wanted, rel)
    requires g == Problem(f.flow, f.insns, f.cfg.(relevant := Some(rel)), g.want)
    requires forall b, i | 0 <= b < f.Count() && f.cfg.start[b] <= i < f.End(b) :: f.want(i) == (rel[b] && g.want(i))
    ensures g.Valid() && Inv(f, Initial(f)) && Inv(g, Initial(g))
    ensures Run(g, Initial(g)).snaps == Run(f, Initial(f)).snaps
  {
    KeptRestricts(f, g, end, wanted, rel);
    RestrictionIsInvisible(f, g, rel);
  }

  /** Keeping the blocks that reach some calls is a restriction. */
  lemma KeptRestricts<S, T>(f: Problem<S, T>, g: Problem<S, T>, end: nat, wanted: nat -> bool, rel: seq<bool>)
    requires Linked(f) && f.cfg.relevant == None && !f.cfg.legacy && Kept(f.cfg, end, wanted, rel)
    requires g == Problem(f.flow, f.insns, f.cfg.(relevant := Some(rel)), g.want)
    requires DistinctBlocks(f)
    requires forall b, i | 0 <= b < f.Count() && f.cfg.start[b] <= i < f.End(b) :: f.want(i) == (rel[b] && g.want(i))
    ensures Restricts(f, g, rel)
  {
    assert rel[..|rel|] == rel && f.cfg.startAddr[..|rel|] == f.cfg.startAddr && f.insns[..|f.insns|] == f.insns;
    KeptBackClosed(f.cfg, end, wanted, rel);
    assert forall b | 0 <= b < f.Count() :: SameBlock(f, g, b);
    assert forall b, i | 0 <= b < f.Count() && f.cfg.start[b] <= i < f.End(b) :: WantsAlike(f, g, rel, b, i);
  }

  lemma KeptBackClosed(cfg: Cfg, end: nat, wanted: nat -> bool, rel: seq<bool>)
    requires Kept(cfg, end, wanted, rel)
    ensures BackClosed(cfg.succs, rel)
  {
    forall b, k | 0 <= b < |rel| && 0 <= k < |cfg.succs[b]| && cfg.succs[b][k] < |rel| && rel[cfg.succs[b][k]] ensures rel[b] {
      KeptIsClosed(cfg, end, wanted, rel, b, cfg.succs[b][k]);
    }
  }

  // ---- truncation

  /** `end` cuts the lift after the block of the last owned call: the lift's end, or the next
      start of a block when no jump from there on goes back up to that call. */
  ghost predicate IsReach(lift: seq<Insn>, external: set<nat>, owned: nat -> bool, last: nat, end: nat) {
    && last < end <= |lift| && owned(last) && (forall i | last < i < |lift| :: !owned(i))
    && (end < |lift| ==>
          && IsStart(lift, external, end)
          && (forall i | last < i < end :: !IsStart(lift, external, i))
          && (forall i, t | end <= i < |lift| && t in Targets(lift[i].ops) :: !(lift[0].address <= t <= lift[last].address)))
  }

  lemma {:induction false} TargetsInOnly(lift: seq<Insn>, from: nat, end: nat, t: nat)
    requires from <= end <= |lift| && t in TargetsIn(lift, from, end)
    ensures exists i :: from <= i < end && t in Targets(lift[i].ops)
    decreases end
  {
    if t !in Targets(lift[end - 1].ops) {
      TargetsInOnly(lift, from, end - 1, t);
    }
  }

  /** A target of block `b` starts block `c`. */
  ghost predicate JumpsTo(lift: seq<Insn>, start: seq<nat>, end: nat, b: nat, c: nat)
    requires StartsOk(lift, start, end) && b < |start| && start[b] < EndOf(start, end, b) <= end
  {
    exists t :: t in TargetsIn(lift, start[b], EndOf(start, end, b)) && BlockOf(Addresses(lift, start), t) == Some(c)
  }

  lemma JumpsIff(lift: seq<Insn>, start: seq<nat>, end: nat, b: nat, c: nat)
    requires StartsOk(lift, start, end) && b < |start| && start[b] < EndOf(start, end, b) <= end
    ensures c in Somes(JumpsOf(lift, start, end, b)) <==> JumpsTo(lift, start, end, b, c)
  {
    var ts, addr := TargetsIn(lift, start[b], EndOf(start, end, b)), Addresses(lift, start);
    var js := JumpsOf(lift, start, end, b);
    if JumpsTo(lift, start, end, b, c) {
      var t :| t in ts && BlockOf(addr, t) == Some(c);
      var k :| 0 <= k < |ts| && ts[k] == t;
      SomesHold(js, k);
    }
    if c in Somes(js) {
      SomesOnly(js, c);
      var k :| 0 <= k < |js| && js[k] == Some(c);
      assert ts[k] in ts && BlockOf(addr, ts[k]) == Some(c);
    }
  }

  /** A block's successors. */
  lemma SuccIff(lift: seq<Insn>, start: seq<nat>, end: nat, b: nat, c: nat)
    requires StartsOk(lift, start, end) && b < |start| && start[b] < EndOf(start, end, b) <= end
    ensures c in SuccsOf(lift, start, end, b) <==>
      JumpsTo(lift, start, end, b, c) || (c == b + 1 < |start| && !StopsFlow(lift[EndOf(start, end, b) - 1]))
  {
    JumpsIff(lift, start, end, b, c);
  }

  lemma {:induction false} BlockOfUnique(addr: seq<nat>, c: nat)
    requires c < |addr| && forall b | 0 <= b < |addr| && b != c :: addr[b] != addr[c]
    ensures BlockOf(addr, addr[c]) == Some(c)
  {
    if c < |addr| - 1 { BlockOfUnique(addr[..|addr| - 1], c); }
  }

  /** The block of a target in the prefix is its block in the whole, when in the prefix. */
  lemma BlockOfPrefix(addr: seq<nat>, n: nat, t: nat)
    requires n <= |addr| && forall b, c | 0 <= b < c < |addr| :: addr[b] != addr[c]
    ensures BlockOf(addr[..n], t) == if BlockOf(addr, t).Some? && BlockOf(addr, t).value < n then BlockOf(addr, t) else None
  {
    var r, q := BlockOf(addr, t), BlockOf(addr[..n], t);
    if q.Some? {
      assert addr[q.value] == t;
      BlockOfUnique(addr, q.value);
    }
    assert r.Some? && r.value < n ==> addr[..n][r.value] == t;
  }

  /** The blocks of the prefix are the first blocks of the whole. */
  lemma CutStarts(lift: seq<Insn>, external: set<nat>, owned: nat -> bool, last: nat, end: nat)
    requires IsReach(lift, external, owned, last, end)
    ensures var s, c := Starts(lift, external, |lift|), Starts(lift, external, end);
      && 0 < |c| <= |s| && c == s[..|c|]
      && StartsOk(lift, s, |lift|) && StartsOk(lift, c, end)
      && (forall b | 0 <= b < |c| :: EndOf(c, end, b) == EndOf(s, |lift|, b) && (end < |lift| ==> c[b] <= last) && c[b] < EndOf(c, end, b) <= end)
      && (forall b | |c| <= b < |s| :: end <= s[b] < EndOf(s, |lift|, b) <= |lift|)
  {
    var s, c := Starts(lift, external, |lift|), Starts(lift, external, end);
    CutPrefix(lift, external, end);
    forall b | 0 <= b < |c|
      ensures EndOf(c, end, b) == EndOf(s, |lift|, b) && (end < |lift| ==> c[b] <= last) && c[b] < EndOf(c, end, b) <= end
    {
      CutBlock(lift, external, owned, last, end, b);
    }
  }

  lemma CutPrefix(lift: seq<Insn>, external: set<nat>, end: nat)
    requires 0 < end <= |lift|
    ensures var s, c := Starts(lift, external, |lift|), Starts(lift, external, end);
      && 0 < |c| <= |s| && c == s[..|c|] && StartsOk(lift, s, |lift|) && StartsOk(lift, c, end)
      && (forall b | |c| <= b < |s| :: end <= s[b] < EndOf(s, |lift|, b) <= |lift|)
  {
    StartsFacts(lift, external, |lift|);
    StartsFacts(lift, external, end);
    StartsPrefix(lift, external, end, |lift|);
  }

  lemma CutAddresses(lift: seq<Insn>, s: seq<nat>, c: seq<nat>)
    requires Increasing(lift) && StartsOk(lift, s, |lift|) && |c| <= |s| && c == s[..|c|]
    ensures forall b, d | 0 <= b < d < |s| :: lift[s[b]].address != lift[s[d]].address
    ensures Addresses(lift, c) == Addresses(lift, s)[..|c|]
  {
  }

  lemma CutBlock(lift: seq<Insn>, external: set<nat>, owned: nat -> bool, last: nat, end: nat, b: nat)
    requires IsReach(lift, external, owned, last, end)
    requires b < |Starts(lift, external, end)| <= |Starts(lift, external, |lift|)|
    ensures var s, c := Starts(lift, external, |lift|), Starts(lift, external, end);
      EndOf(c, end, b) == EndOf(s, |lift|, b) && (end < |lift| ==> c[b] <= last) && c[b] < EndOf(c, end, b) <= end
  {
    var s, c := Starts(lift, external, |lift|), Starts(lift, external, end);
    StartsFacts(lift, external, end);
    StartsPrefix(lift, external, end, |lift|);
    NextStart(lift, external, owned, last, end);
    assert IsStart(lift, external, c[b]);
  }

  /** The whole's next block after the prefix starts where the prefix ends. */
  lemma NextStart(lift: seq<Insn>, external: set<nat>, owned: nat -> bool, last: nat, end: nat)
    requires IsReach(lift, external, owned, last, end)
    ensures var s, c := Starts(lift, external, |lift|), Starts(lift, external, end);
      if |c| < |s| then s[|c|] == end else end == |lift|
  {
    var s, c := Starts(lift, external, |lift|), Starts(lift, external, end);
    StartsFacts(lift, external, |lift|);
    StartsFacts(lift, external, end);
    StartsPrefix(lift, external, end, |lift|);
    if end < |lift| {
      var k :| 0 <= k < |s| && s[k] == end;
    }
  }

  /** A graph's first `n` nodes, when no edge leads back into them. */
  lemma CutPaths(f: seq<seq<nat>>, g: seq<seq<nat>>, a: nat, b: nat)
    requires |g| <= |f| && a < |g| && b < |g|
    requires forall x, y | 0 <= x < |g| && 0 <= y < |g| :: y in f[x] <==> y in g[x]
    requires forall x, k | |g| <= x < |f| && 0 <= k < |f[x]| :: |g| <= f[x][k]
    ensures Leads(f, a, b) <==> Leads(g, a, b)
  {
    if Leads(f, a, b) {
      var path :| IsPath(f, path) && path[0] == a && path[|path| - 1] == b;
      NoWayBack(f, |g|, path, |path| - 1);
      forall k | 0 <= k < |path| - 1 ensures EdgeAt(g, path, k) {
        assert EdgeAt(f, path, k);
      }
      assert IsPath(g, path);
    }
    if Leads(g, a, b) {
      var path :| IsPath(g, path) && path[0] == a && path[|path| - 1] == b;
      forall k | 0 <= k < |path| - 1 ensures EdgeAt(f, path, k) {
        assert EdgeAt(g, path, k);
      }
      assert IsPath(f, path);
    }
  }

  lemma {:induction false} NoWayBack(f: seq<seq<nat>>, n: nat, path: seq<nat>, k: nat)
    requires IsPath(f, path) && n <= |f| && k < |path| && path[k] < n
    requires forall x, j | n <= x < |f| && 0 <= j < |f[x]| :: n <= f[x][j]
    ensures forall i | 0 <= i <= k :: path[i] < n
  {
    if k > 0 {
      var x := path[k - 1];
      assert EdgeAt(f, path, k - 1);
      NoWayBack(f, n, path, k - 1);
    }
  }

  /** The static edges of the whole and of the prefix. */
  lemma CutEdges(lift: seq<Insn>, external: set<nat>, owned: nat -> bool, last: nat, end: nat)
    requires Increasing(lift) && IsReach(lift, external, owned, last, end)
    ensures var s, c := Starts(lift, external, |lift|), Starts(lift, external, end);
      && StartsOk(lift, s, |lift|) && StartsOk(lift, c, end) && |c| <= |s|
      && (forall x, y | 0 <= x < |c| && 0 <= y < |c| :: y in SuccsOf(lift, s, |lift|, x) <==> y in SuccsOf(lift, c, end, x))
      && (forall x, k | |c| <= x < |s| && 0 <= k < |SuccsOf(lift, s, |lift|, x)| :: |c| <= SuccsOf(lift, s, |lift|, x)[k])
  {
    CutStarts(lift, external, owned, last, end);
    var s, c := Starts(lift, external, |lift|), Starts(lift, external, end);
    CutAddresses(lift, s, c);
    forall x, y | 0 <= x < |c| && 0 <= y < |c|
      ensures y in SuccsOf(lift, s, |lift|, x) <==> y in SuccsOf(lift, c, end, x)
    {
      SameSuccs(lift, s, c, end, x, y);
    }
    forall x, k | |c| <= x < |s| && 0 <= k < |SuccsOf(lift, s, |lift|, x)|
      ensures |c| <= SuccsOf(lift, s, |lift|, x)[k]
    {
      NoBackEdge(lift, external, owned, last, end, x, SuccsOf(lift, s, |lift|, x)[k]);
    }
  }

  lemma SameSuccs(lift: seq<Insn>, s: seq<nat>, c: seq<nat>, end: nat, x: nat, y: nat)
    requires StartsOk(lift, s, |lift|) && StartsOk(lift, c, end) && |c| <= |s| && c == s[..|c|] && x < |c| && y < |c|
    requires EndOf(c, end, x) == EndOf(s, |lift|, x) && c[x] < EndOf(c, end, x) <= end
    requires forall b, d | 0 <= b < d < |s| :: lift[s[b]].address != lift[s[d]].address
    requires Addresses(lift, c) == Addresses(lift, s)[..|c|]
    ensures y in SuccsOf(lift, s, |lift|, x) <==> y in SuccsOf(lift, c, end, x)
  {
    SuccIff(lift, s, |lift|, x, y);
    SuccIff(lift, c, end, x, y);
    SameJumps(TargetsIn(lift, c[x], EndOf(c, end, x)), Addresses(lift, s), Addresses(lift, c), y);
    assert JumpsTo(lift, s, |lift|, x, y) <==> HasBlock(TargetsIn(lift, c[x], EndOf(c, end, x)), Addresses(lift, s), y);
    assert JumpsTo(lift, c, end, x, y) <==> HasBlock(TargetsIn(lift, c[x], EndOf(c, end, x)), Addresses(lift, c), y);
  }

  /** One of the targets `ts` starts block `y`. */
  ghost predicate HasBlock(ts: seq<nat>, addr: seq<nat>, y: nat) {
    exists t :: t in ts && BlockOf(addr, t) == Some(y)
  }

  lemma SameJumps(ts: seq<nat>, addr: seq<nat>, first: seq<nat>, y: nat)
    requires |first| <= |addr| && first == addr[..|first|] && y < |first| && forall b, d | 0 <= b < d < |addr| :: addr[b] != addr[d]
    ensures HasBlock(ts, addr, y) <==> HasBlock(ts, first, y)
  {
    if t :| t in ts && BlockOf(addr, t) == Some(y) { BlockOfPrefix(addr, |first|, t); }
    if t :| t in ts && BlockOf(first, t) == Some(y) { BlockOfPrefix(addr, |first|, t); }
  }

  lemma NoBackEdge(lift: seq<Insn>, external: set<nat>, owned: nat -> bool, last: nat, end: nat, x: nat, y: nat)
    requires Increasing(lift) && IsReach(lift, external, owned, last, end)
    requires var s := Starts(lift, external, |lift|);
      StartsOk(lift, s, |lift|) && |Starts(lift, external, end)| <= x < |s| && y in SuccsOf(lift, s, |lift|, x)
    ensures |Starts(lift, external, end)| <= y
  {
    CutStarts(lift, external, owned, last, end);
    var s, c := Starts(lift, external, |lift|), Starts(lift, external, end);
    SuccIff(lift, s, |lift|, x, y);
    if y < |c| {
      CutAddress(lift, external, owned, last, end, y);
      var t :| t in TargetsIn(lift, s[x], EndOf(s, |lift|, x)) && BlockOf(Addresses(lift, s), t) == Some(y);
      TargetsInOnly(lift, s[x], EndOf(s, |lift|, x), t);
      TargetAfter(lift, external, owned, last, end, s[x], EndOf(s, |lift|, x), t);
      assert false;
    }
  }

  /** The blocks of the prefix start at addresses up to the last owned call's. */
  lemma CutAddress(lift: seq<Insn>, external: set<nat>, owned: nat -> bool, last: nat, end: nat, y: nat)
    requires Increasing(lift) && IsReach(lift, external, owned, last, end) && end < |lift| && y < |Starts(lift, external, end)|
    ensures |Starts(lift, external, end)| <= |Starts(lift, external, |lift|)| && Starts(lift, external, |lift|)[y] < |lift|
    ensures lift[0].address <= lift[Starts(lift, external, |lift|)[y]].address <= lift[last].address
  {
    CutStarts(lift, external, owned, last, end);
    var i := Starts(lift, external, |lift|)[y];
    assert i == Starts(lift, external, end)[y] <= last;
    assert i > 0 ==> lift[0].address < lift[i].address;
    assert i < last ==> lift[i].address < lift[last].address;
  }

  /** A jump from the end of the prefix on goes to no address up to the last owned call. */
  lemma TargetAfter(lift: seq<Insn>, external: set<nat>, owned: nat -> bool, last: nat, end: nat, from: nat, stop: nat, t: nat)
    requires IsReach(lift, external, owned, last, end) && end < |lift| && end <= from <= stop <= |lift|
    requires exists i :: from <= i < stop && t in Targets(lift[i].ops)
    ensures !(lift[0].address <= t <= lift[last].address)
  {
  }

  /** The blocks entered from somewhere unknown are the same ones, in the prefix. */
  lemma CutUnknown(lift: seq<Insn>, external: set<nat>, inBody: nat -> bool, owned: nat -> bool, last: nat, end: nat, b: nat)
    requires Increasing(lift) && IsReach(lift, external, owned, last, end)
    requires b < |CfgOf(lift, external, inBody, end).start| <= |CfgOf(lift, external, inBody, |lift|).start|
    ensures CfgOf(lift, external, inBody, end).unknown[b] == CfgOf(lift, external, inBody, |lift|).unknown[b]
  {
    var f, g := CfgOf(lift, external, inBody, |lift|), CfgOf(lift, external, inBody, end);
    CutStarts(lift, external, owned, last, end);
    CutAddresses(lift, f.start, g.start);
    assert Leads(f.succs, 0, b) <==> Leads(g.succs, 0, b) by {
      CutEdges(lift, external, owned, last, end);
      CutPaths(f.succs, g.succs, 0, b);
    }
    assert f.startAddr[b] == g.startAddr[b];
    assert f.unknown[b] == UnknownEntry(external, inBody, f.startAddr, f.succs, b);
    assert g.unknown[b] == UnknownEntry(external, inBody, g.startAddr, g.succs, b);
  }

  /** Truncation: over the prefix, walking the blocks that can reach the owned calls records
      what the flow over the whole lift does for those calls, in the same order. */
  lemma TruncationIsInvisible<S, T>(flow: Flow<S, T>, lift: seq<Insn>, external: set<nat>, inBody: nat -> bool,
      owned: nat -> bool, last: nat, end: nat, rel: seq<bool>, f: Problem<S, T>, g: Problem<S, T>)
    requires Increasing(lift) && IsReach(lift, external, owned, last, end)
    requires f == ProblemOf(flow, lift, external, inBody, |lift|, owned)
    requires Kept(CfgOf(lift, external, inBody, end), end, owned, rel)
    requires g == Problem(flow, lift[..end], CfgOf(lift, external, inBody, end).(relevant := Some(rel)), owned)
    ensures f.Valid() && g.Valid() && Inv(f, Initial(f)) && Inv(g, Initial(g))
    ensures Run(g, Initial(g)).snaps == Run(f, Initial(f)).snaps
  {
    CutStarts(lift, external, owned, last, end);
    var whole := rel + seq(f.Count() - |rel|, _ => false);
    BuiltFacts(f, flow, lift, external, inBody, |lift|, owned);
    CutBlocksValid(flow, lift, external, inBody, owned, end, rel, g);
    CutRestricts(lift, external, inBody, owned, last, end, rel, whole, f, g);
    RestrictionIsInvisible(f, g, whole);
  }

  lemma CutBlocksValid<S, T>(flow: Flow<S, T>, lift: seq<Insn>, external: set<nat>, inBody: nat -> bool,
      want: nat -> bool, end: nat, rel: seq<bool>, g: Problem<S, T>)
    requires 0 < end <= |lift| && |rel| == |CfgOf(lift, external, inBody, end).start|
    requires g == Problem(flow, lift[..end], CfgOf(lift, external, inBody, end).(relevant := Some(rel)), want)
    ensures g.Valid()
  {
    BlocksAreValid(g.(cfg := g.cfg.(relevant := None)), flow, lift, external, inBody, end, want);
  }

  /** Marking no block past the prefix leaves no edge into a marked one unmarked. */
  lemma CutBackClosed(f: Cfg, g: Cfg, end: nat, owned: nat -> bool, rel: seq<bool>, whole: seq<bool>)
    requires Kept(g, end, owned, rel) && |g.succs| <= |f.succs| == |whole| && whole == rel + seq(|whole| - |rel|, _ => false)
    requires forall x, y | 0 <= x < |g.succs| && 0 <= y < |g.succs| :: y in f.succs[x] <==> y in g.succs[x]
    requires forall x, k | |g.succs| <= x < |f.succs| && 0 <= k < |f.succs[x]| :: |g.succs| <= f.succs[x][k]
    ensures BackClosed(f.succs, whole)
  {
    forall b, k | 0 <= b < |f.succs| && 0 <= k < |f.succs[b]| && f.succs[b][k] < |whole| && whole[f.succs[b][k]] ensures whole[b] {
      var c := f.succs[b][k];
      assert c in f.succs[b];
      KeptIsClosed(g, end, owned, rel, b, c);
    }
  }

  /** Every owned call is in a block of the prefix kept. */
  lemma CutWants(g: Cfg, end: nat, owned: nat -> bool, last: nat, rel: seq<bool>, b: nat, i: nat)
    requires Kept(g, end, owned, rel) && b < |rel| && g.start[b] <= i < EndOf(g.start, end, b) && owned(i)
    ensures rel[b]
  {
    KeptHasHolders(g, end, owned, rel, b);
  }

  lemma CutRestricts<S, T>(lift: seq<Insn>, external: set<nat>, inBody: nat -> bool, owned: nat -> bool, last: nat, end: nat,
      rel: seq<bool>, whole: seq<bool>, f: Problem<S, T>, g: Problem<S, T>)
    requires Increasing(lift) && IsReach(lift, external, owned, last, end)
    requires Linked(f) && DistinctBlocks(f) && g.Valid() && f.flow == g.flow
    requires f.insns == lift && f.cfg == CfgOf(lift, external, inBody, |lift|) && f.want == owned
    requires Kept(CfgOf(lift, external, inBody, end), end, owned, rel)
    requires g.insns == lift[..end] && g.cfg == CfgOf(lift, external, inBody, end).(relevant := Some(rel)) && g.want == owned
    requires g.Count() <= f.Count() && whole == rel + seq(f.Count() - |rel|, _ => false)
    ensures Restricts(f, g, whole)
  {
    CutStarts(lift, external, owned, last, end);
    CutAddresses(lift, f.cfg.start, g.cfg.start);
    assert whole[..g.Count()] == rel;
    CutRelevant(lift, external, inBody, owned, last, end, rel, whole);
    forall b | 0 <= b < g.Count() && whole[b] ensures SameBlock(f, g, b) {
      CutSame(lift, external, inBody, owned, last, end, rel, f, g, b);
    }
    forall b, i | 0 <= b < f.Count() && f.cfg.start[b] <= i < f.End(b) ensures WantsAlike(f, g, whole, b, i) {
      CutWantsAlike(lift, external, inBody, owned, last, end, rel, whole, f, g, b, i);
    }
  }

  lemma CutSame<S, T>(lift: seq<Insn>, external: set<nat>, inBody: nat -> bool, owned: nat -> bool, last: nat, end: nat,
      rel: seq<bool>, f: Problem<S, T>, g: Problem<S, T>, b: nat)
    requires Increasing(lift) && IsReach(lift, external, owned, last, end)
    requires f.insns == lift && f.cfg == CfgOf(lift, external, inBody, |lift|)
    requires g.insns == lift[..end] && g.cfg == CfgOf(lift, external, inBody, end).(relevant := Some(rel)) && b < g.Count() <= f.Count()
    ensures SameBlock(f, g, b)
  {
    CutStarts(lift, external, owned, last, end);
    CutUnknown(lift, external, inBody, owned, last, end, b);
    assert f.End(b) == EndOf(f.cfg.start, |lift|, b) && g.End(b) == EndOf(g.cfg.start, end, b);
  }

  lemma CutWantsAlike<S, T>(lift: seq<Insn>, external: set<nat>, inBody: nat -> bool, owned: nat -> bool, last: nat, end: nat,
      rel: seq<bool>, whole: seq<bool>, f: Problem<S, T>, g: Problem<S, T>, b: nat, i: nat)
    requires IsReach(lift, external, owned, last, end)
    requires f.insns == lift && f.cfg == CfgOf(lift, external, inBody, |lift|) && f.want == owned == g.want
    requires Kept(CfgOf(lift, external, inBody, end), end, owned, rel)
    requires |rel| <= f.Count() && whole == rel + seq(f.Count() - |rel|, _ => false)
    requires b < f.Count() && f.cfg.start[b] <= i < f.End(b)
    ensures WantsAlike(f, g, whole, b, i)
  {
    CutStarts(lift, external, owned, last, end);
    var g' := CfgOf(lift, external, inBody, end);
    assert f.End(b) == EndOf(f.cfg.start, |lift|, b);
    if b < |rel| && owned(i) {
      CutWants(g', end, owned, last, rel, b, i);
    }
  }

  lemma CutRelevant(lift: seq<Insn>, external: set<nat>, inBody: nat -> bool, owned: nat -> bool, last: nat, end: nat, rel: seq<bool>, whole: seq<bool>)
    requires Increasing(lift) && IsReach(lift, external, owned, last, end)
    requires Kept(CfgOf(lift, external, inBody, end), end, owned, rel)
    requires |rel| <= |CfgOf(lift, external, inBody, |lift|).succs| == |whole| && whole == rel + seq(|whole| - |rel|, _ => false)
    ensures BackClosed(CfgOf(lift, external, inBody, |lift|).succs, whole)
  {
    CutEdges(lift, external, owned, last, end);
    CutBackClosed(CfgOf(lift, external, inBody, |lift|), CfgOf(lift, external, inBody, end), end, owned, rel, whole);
  }
}
