/**
 Where runs of a function start, said of its instructions alone: at its entry, where it is
 entered from outside, and at code of its extent that nothing leads to from the entry. These
 are where the blocks walked from the empty state start.
 */
module BlockFlowEntries {
  import opened Pcode
  import opened BlockFlow
  import opened BlockFlowSound
  import opened BlockFlowBuild
  import opened BlockFlowLegacy
  import opened BlockFlowWrap

  /** Op `k` of instruction `i` jumps to instruction `j`. */
  ghost predicate JumpsTo(lift: seq<Insn>, i: nat, k: nat, j: nat) {
    && i < |lift| && k < |lift[i].ops| && j < |lift|
    && IsJump(lift[i].ops[k]) && Target(lift[i].ops[k]) == Some(lift[j].address)
  }

  /** Instruction `j` may run right after instruction `i`: the one behind it, or a jump's target. */
  ghost predicate MayFollow(lift: seq<Insn>, i: nat, j: nat) {
    && i < |lift| && j < |lift|
    && (|| (j == i + 1 && forall k | 0 <= k < |lift[i].ops| :: !IsStop(lift[i].ops[k]))
        || exists k: nat :: JumpsTo(lift, i, k, j))
  }

  ghost predicate FollowsAt(lift: seq<Insn>, trail: seq<nat>, k: nat) {
    k + 1 < |trail| && MayFollow(lift, trail[k], trail[k + 1])
  }

  ghost predicate IsTrail(lift: seq<Insn>, trail: seq<nat>) {
    && |trail| > 0 && (forall k | 0 <= k < |trail| :: trail[k] < |lift|)
    && forall k | 0 <= k < |trail| - 1 :: FollowsAt(lift, trail, k)
  }

  /** A trail of instructions leads from `i` to `j`. */
  ghost predicate Reaches(lift: seq<Insn>, i: nat, j: nat) {
    exists trail :: IsTrail(lift, trail) && trail[0] == i && trail[|trail| - 1] == j
  }

  /** A run of the function may start at instruction `i`. */
  ghost predicate StartsRun(lift: seq<Insn>, external: set<nat>, inBody: nat -> bool, i: nat) {
    && i < |lift|
    && (|| i == 0
        || lift[i].address in external
        || (IsStart(lift, external, i) && inBody(lift[i].address) && !Reaches(lift, 0, i)))
  }

  // ---- trails

  lemma Stays(lift: seq<Insn>, i: nat)
    requires i < |lift|
    ensures Reaches(lift, i, i)
  {
    var trail := [i];
    assert IsTrail(lift, trail) && trail[0] == i && trail[|trail| - 1] == i;
  }

  lemma OneMore(lift: seq<Insn>, i: nat, j: nat, k: nat)
    requires Reaches(lift, i, j) && MayFollow(lift, j, k)
    ensures Reaches(lift, i, k)
  {
    var trail :| IsTrail(lift, trail) && trail[0] == i && trail[|trail| - 1] == j;
    var more := trail + [k];
    forall n | 0 <= n < |more| - 1 ensures FollowsAt(lift, more, n) {
      assert n < |trail| - 1 ==> FollowsAt(lift, trail, n);
    }
    assert IsTrail(lift, more) && more[0] == i && more[|more| - 1] == k;
  }

  lemma {:induction false} Joined(lift: seq<Insn>, i: nat, trail: seq<nat>)
    requires IsTrail(lift, trail) && Reaches(lift, i, trail[0])
    ensures Reaches(lift, i, trail[|trail| - 1])
    decreases |trail|
  {
    var front := trail[..|trail| - 1];
    if front != [] {
      forall n | 0 <= n < |front| - 1 ensures FollowsAt(lift, front, n) {
        assert FollowsAt(lift, trail, n);
      }
      Joined(lift, i, front);
      assert FollowsAt(lift, trail, |trail| - 2);
      OneMore(lift, i, front[|front| - 1], trail[|trail| - 1]);
    }
  }

  lemma Onward(lift: seq<Insn>, i: nat, j: nat, k: nat)
    requires Reaches(lift, i, j) && Reaches(lift, j, k)
    ensures Reaches(lift, i, k)
  {
    var trail :| IsTrail(lift, trail) && trail[0] == j && trail[|trail| - 1] == k;
    Joined(lift, i, trail);
  }

  /** Straight on. */
  lemma {:induction false} Along(lift: seq<Insn>, i: nat, j: nat)
    requires i <= j < |lift| && forall k | i <= k < j :: !StopsFlow(lift[k])
    ensures Reaches(lift, i, j)
    decreases j
  {
    if i == j {
      Stays(lift, i);
    } else {
      Along(lift, i, j - 1);
      assert MayFollow(lift, j - 1, j);
      OneMore(lift, i, j - 1, j);
    }
  }

  // ---- the edges of blocks are trails

  lemma {:induction false} TargetsOnly(ops: seq<PcodeOp>, t: nat) returns (k: nat)
    requires t in Targets(ops)
    ensures k < |ops| && IsJump(ops[k]) && Target(ops[k]) == Some(t)
  {
    if t in Targets(ops[..|ops| - 1]) { k := TargetsOnly(ops[..|ops| - 1], t); } else { k := |ops| - 1; }
  }

  lemma {:induction false} TargetsInOnly(lift: seq<Insn>, from: nat, end: nat, t: nat) returns (i: nat)
    requires from <= end <= |lift| && t in TargetsIn(lift, from, end)
    ensures from <= i < end && t in Targets(lift[i].ops)
    decreases end
  {
    if t in Targets(lift[end - 1].ops) { i := end - 1; } else { i := TargetsInOnly(lift, from, end - 1, t); }
  }

  /** A jump of the instructions `from..end`, none of which stops before the last. */
  lemma JumpReaches(lift: seq<Insn>, start: seq<nat>, startAddr: seq<nat>, from: nat, end: nat, d: nat)
    requires from < end <= |lift| && forall i | from <= i < end - 1 :: !StopsFlow(lift[i])
    requires d in Somes(Resolve(startAddr, TargetsIn(lift, from, end)))
    requires |start| == |startAddr| && forall b | 0 <= b < |start| :: start[b] < |lift| && lift[start[b]].address == startAddr[b]
    ensures d < |start| && Reaches(lift, from, start[d])
  {
    var ts := TargetsIn(lift, from, end);
    var js := Resolve(startAddr, ts);
    SomesOnly(js, d);
    var l :| 0 <= l < |js| && js[l] == Some(d);
    assert ts[l] in ts && startAddr[d] == ts[l];
    var i := TargetsInOnly(lift, from, end, ts[l]);
    var k := TargetsOnly(lift[i].ops, ts[l]);
    Along(lift, from, i);
    assert JumpsTo(lift, i, k, start[d]);
    OneMore(lift, from, i, start[d]);
  }

  lemma FallReaches(lift: seq<Insn>, from: nat, end: nat)
    requires from < end < |lift| && forall i | from <= i < end :: !StopsFlow(lift[i])
    ensures Reaches(lift, from, end)
  {
    Along(lift, from, end);
  }

  /** Every edge but those into the entry's block is a trail between the blocks' starts. */
  ghost predicate EdgesReach(lift: seq<Insn>, start: seq<nat>, succs: seq<seq<nat>>, entry: nat) {
    && |start| == |succs| && entry < |start| && (forall b | 0 <= b < |start| :: start[b] < |lift|)
    && forall b, d | 0 <= b < |start| && d in succs[b] :: EdgeReaches(lift, start, b, d, entry)
  }

  ghost predicate EdgeReaches(lift: seq<Insn>, start: seq<nat>, b: nat, d: nat, entry: nat)
    requires b < |start|
  {
    d == entry || (d < |start| && Reaches(lift, start[b], start[d]))
  }

  lemma {:induction false} PathReaches(lift: seq<Insn>, start: seq<nat>, succs: seq<seq<nat>>, entry: nat, path: seq<nat>)
    requires EdgesReach(lift, start, succs, entry) && IsPath(succs, path) && path[0] == entry
    ensures Reaches(lift, start[entry], start[path[|path| - 1]])
    decreases |path|
  {
    var last := path[|path| - 1];
    if last == entry {
      Stays(lift, start[entry]);
    } else {
      var front := path[..|path| - 1];
      forall k | 0 <= k < |front| - 1 ensures EdgeAt(succs, front, k) {
        assert EdgeAt(succs, path, k);
      }
      PathReaches(lift, start, succs, entry, front);
      assert EdgeAt(succs, path, |path| - 2);
      assert EdgeReaches(lift, start, front[|front| - 1], last, entry);
      Onward(lift, start[entry], start[front[|front| - 1]], start[last]);
    }
  }

  lemma LeadsReaches(lift: seq<Insn>, start: seq<nat>, succs: seq<seq<nat>>, entry: nat, b: nat)
    requires EdgesReach(lift, start, succs, entry) && Leads(succs, entry, b)
    ensures b < |start| && Reaches(lift, start[entry], start[b])
  {
    var path :| IsPath(succs, path) && path[0] == entry && path[|path| - 1] == b;
    PathReaches(lift, start, succs, entry, path);
  }

  // ---- the indexed blocks

  lemma EdgeIs(lift: seq<Insn>, s: seq<nat>, b: nat, d: nat)
    requires StartsOk(lift, s, |lift|) && b < |s| && d in SuccsOf(lift, s, |lift|, b)
    ensures d in Somes(JumpsOf(lift, s, |lift|, b)) || (d == b + 1 < |s| && !StopsFlow(lift[EndOf(s, |lift|, b) - 1]))
  {
  }

  /** The edges of a block none of whose instructions but the last stops. */
  lemma EdgeOfBlock(lift: seq<Insn>, s: seq<nat>, b: nat, d: nat)
    requires StartsOk(lift, s, |lift|) && b < |s| && d in SuccsOf(lift, s, |lift|, b)
    requires forall i | s[b] <= i < EndOf(s, |lift|, b) - 1 :: !StopsFlow(lift[i])
    ensures d < |s| && Reaches(lift, s[b], s[d])
  {
    EdgeIs(lift, s, b, d);
    if d in Somes(JumpsOf(lift, s, |lift|, b)) {
      JumpReaches(lift, s, Addresses(lift, s), s[b], EndOf(s, |lift|, b), d);
    } else {
      FallReaches(lift, s[b], s[b + 1]);
    }
  }

  lemma IndexedEdge(lift: seq<Insn>, external: set<nat>, b: nat, d: nat)
    requires var s := Starts(lift, external, |lift|); StartsOk(lift, s, |lift|) && b < |s| && d in SuccsOf(lift, s, |lift|, b)
    ensures var s := Starts(lift, external, |lift|); d < |s| && Reaches(lift, s[b], s[d])
  {
    var s := Starts(lift, external, |lift|);
    forall i | s[b] <= i < EndOf(s, |lift|, b) - 1 ensures !StopsFlow(lift[i]) {
      BlockInside(lift, external, |lift|, b, i);
    }
    EdgeOfBlock(lift, s, b, d);
  }

  lemma IndexedEdges(lift: seq<Insn>, external: set<nat>, inBody: nat -> bool)
    requires lift != []
    ensures var c := CfgOf(lift, external, inBody, |lift|); EdgesReach(lift, c.start, c.succs, 0)
  {
    var c := CfgOf(lift, external, inBody, |lift|);
    StartsFacts(lift, external, |lift|);
    forall b, d | 0 <= b < |c.start| && d in c.succs[b] ensures EdgeReaches(lift, c.start, b, d, 0) {
      IndexedEdge(lift, external, b, d);
    }
  }

  /** The block of instruction `i`. */
  lemma {:induction false} BlockHolding(s: seq<nat>, end: nat, n: nat, i: nat) returns (b: nat)
    requires 0 < n <= |s| && s[0] <= i && i < if n < |s| then s[n] else end
    ensures b < |s| && s[b] <= i < EndOf(s, end, b)
  {
    if s[n - 1] <= i { b := n - 1; } else { b := BlockHolding(s, end, n - 1, i); }
  }

  lemma EndBefore(s: seq<nat>, end: nat, b: nat, c: nat)
    requires (forall j, k | 0 <= j < k < |s| :: s[j] < s[k]) && b < |s| && c < |s|
    ensures b < c ==> EndOf(s, end, b) <= s[c]
  {
    if b < c { assert b + 1 == c || s[b + 1] < s[c]; }
  }

  lemma OneHolds(s: seq<nat>, end: nat, b: nat, c: nat, i: nat)
    requires (forall j, k | 0 <= j < k < |s| :: s[j] < s[k]) && b < |s| && c < |s|
    requires s[b] <= i < EndOf(s, end, b) && s[c] <= i < EndOf(s, end, c)
    ensures b == c
  {
    EndBefore(s, end, b, c);
    EndBefore(s, end, c, b);
  }

  lemma LeadsOn(succs: seq<seq<nat>>, a: nat, b: nat, c: nat)
    requires Leads(succs, a, b) && b < |succs| && c < |succs| && c in succs[b]
    ensures Leads(succs, a, c)
  {
    var path :| IsPath(succs, path) && path[0] == a && path[|path| - 1] == b;
    var more := path + [c];
    forall k | 0 <= k < |more| - 1 ensures EdgeAt(succs, more, k) {
      assert k < |path| - 1 ==> EdgeAt(succs, path, k);
    }
    assert IsPath(succs, more) && more[0] == a && more[|more| - 1] == c;
  }

  lemma LeadsHere(succs: seq<seq<nat>>, a: nat)
    requires a < |succs|
    ensures Leads(succs, a, a)
  {
    var path := [a];
    assert IsPath(succs, path) && path[0] == a && path[|path| - 1] == a;
  }

  /** `s` is where the blocks start. */
  ghost predicate AreStarts(lift: seq<Insn>, s: seq<nat>) {
    && StartsOk(lift, s, |lift|) && s != [] && s[0] == 0
    && forall i, k, j | 0 <= i < |lift| && 0 <= k < |lift[i].ops| && 0 <= j < |lift| :: JumpsTo(lift, i, k, j) ==> j in s
  }

  /** Block `b` holds instruction `i`. */
  ghost predicate HasInsn(lift: seq<Insn>, s: seq<nat>, b: nat, i: nat) {
    b < |s| && s[b] <= i < EndOf(s, |lift|, b)
  }

  lemma StartsAre(lift: seq<Insn>, external: set<nat>)
    requires lift != []
    ensures AreStarts(lift, Starts(lift, external, |lift|))
  {
    StartsFacts(lift, external, |lift|);
    forall i, k, j | 0 <= i < |lift| && 0 <= k < |lift[i].ops| && 0 <= j < |lift| && JumpsTo(lift, i, k, j)
      ensures j in Starts(lift, external, |lift|)
    {
      TargetsHold(lift[i].ops, k);
      TargetsInHold(lift, 0, |lift|, i, lift[j].address);
      assert IsStart(lift, external, j);
    }
  }

  /** The jump of an instruction is an edge of its block. */
  lemma JumpIsEdge(lift: seq<Insn>, s: seq<nat>, a: nat, i: nat, k: nat, b: nat, j: nat)
    requires Increasing(lift) && AreStarts(lift, s) && JumpsTo(lift, i, k, j) && HasInsn(lift, s, a, i) && HasInsn(lift, s, b, j)
    ensures b in SuccsOf(lift, s, |lift|, a)
  {
    var d :| 0 <= d < |s| && s[d] == j;
    StartHolds(lift, s, d);
    OneHolds(s, |lift|, b, d, j);
    JumpToStart(lift, s, a, i, k, d);
  }

  lemma StartHolds(lift: seq<Insn>, s: seq<nat>, d: nat)
    requires AreStarts(lift, s) && d < |s|
    ensures HasInsn(lift, s, d, s[d])
  {
    if d + 1 < |s| { assert s[d] < s[d + 1]; }
  }

  lemma JumpToStart(lift: seq<Insn>, s: seq<nat>, a: nat, i: nat, k: nat, d: nat)
    requires Increasing(lift) && StartsOk(lift, s, |lift|) && d < |s| && JumpsTo(lift, i, k, s[d]) && HasInsn(lift, s, a, i)
    ensures d in SuccsOf(lift, s, |lift|, a)
  {
    var ts, js, t := TargetsIn(lift, s[a], EndOf(s, |lift|, a)), JumpsOf(lift, s, |lift|, a), lift[s[d]].address;
    TargetsHold(lift[i].ops, k);
    TargetsInHold(lift, s[a], EndOf(s, |lift|, a), i, t);
    var l :| 0 <= l < |ts| && ts[l] == t;
    BlockAt(lift, s, d);
    assert js[l] == Some(d);
    SomesHold(js, l);
  }

  lemma BlockAt(lift: seq<Insn>, s: seq<nat>, d: nat)
    requires Increasing(lift) && StartsOk(lift, s, |lift|) && d < |s|
    ensures BlockOf(Addresses(lift, s), lift[s[d]].address) == Some(d)
  {
    var addrs := Addresses(lift, s);
    assert addrs[d] == lift[s[d]].address && addrs[d] in addrs;
    match BlockOf(addrs, addrs[d])
    case Some(e) =>
      assert e < d ==> lift[s[e]].address < lift[s[d]].address;
      assert d < e ==> lift[s[d]].address < lift[s[e]].address;
  }

  lemma FallIsEdge(lift: seq<Insn>, s: seq<nat>, a: nat, i: nat, b: nat)
    requires i + 1 < |lift| && !StopsFlow(lift[i]) && AreStarts(lift, s) && HasInsn(lift, s, a, i) && HasInsn(lift, s, b, i + 1)
    ensures b == a || b in SuccsOf(lift, s, |lift|, a)
  {
    if i + 1 < EndOf(s, |lift|, a) {
      OneHolds(s, |lift|, a, b, i + 1);
    } else {
      StartHolds(lift, s, a + 1);
      OneHolds(s, |lift|, a + 1, b, i + 1);
      FallInSuccs(lift, s, |lift|, a);
    }
  }

  lemma StepIsEdge(lift: seq<Insn>, s: seq<nat>, a: nat, i: nat, b: nat, j: nat)
    requires Increasing(lift) && MayFollow(lift, i, j) && AreStarts(lift, s) && HasInsn(lift, s, a, i) && HasInsn(lift, s, b, j)
    ensures b == a || b in SuccsOf(lift, s, |lift|, a)
  {
    if k: nat :| JumpsTo(lift, i, k, j) {
      JumpIsEdge(lift, s, a, i, k, b, j);
    } else {
      FallIsEdge(lift, s, a, i, b);
    }
  }

  ghost predicate AreSuccs(lift: seq<Insn>, s: seq<nat>, succs: seq<seq<nat>>) {
    StartsOk(lift, s, |lift|) && |s| == |succs| && forall a | 0 <= a < |s| :: succs[a] == SuccsOf(lift, s, |lift|, a)
  }

  lemma FrontIsTrail(lift: seq<Insn>, trail: seq<nat>)
    requires IsTrail(lift, trail) && |trail| > 1
    ensures IsTrail(lift, trail[..|trail| - 1]) && MayFollow(lift, trail[|trail| - 2], trail[|trail| - 1])
  {
    var front := trail[..|trail| - 1];
    forall k | 0 <= k < |front| - 1 ensures FollowsAt(lift, front, k) {
      assert FollowsAt(lift, trail, k);
    }
    assert FollowsAt(lift, trail, |trail| - 2);
  }

  lemma {:induction false} TrailLeads(lift: seq<Insn>, s: seq<nat>, succs: seq<seq<nat>>, trail: seq<nat>, b: nat)
    requires Increasing(lift) && AreStarts(lift, s) && AreSuccs(lift, s, succs)
    requires IsTrail(lift, trail) && trail[0] == 0 && HasInsn(lift, s, b, trail[|trail| - 1])
    ensures Leads(succs, 0, b)
    decreases |trail|
  {
    if |trail| == 1 {
      StartHolds(lift, s, 0);
      OneHolds(s, |lift|, 0, b, 0);
      LeadsHere(succs, 0);
    } else {
      var front := trail[..|trail| - 1];
      var i := front[|front| - 1];
      FrontIsTrail(lift, trail);
      var a := BlockHolding(s, |lift|, |s|, i);
      TrailLeads(lift, s, succs, front, a);
      StepIsEdge(lift, s, a, i, b, trail[|trail| - 1]);
      if b != a { LeadsOn(succs, 0, a, b); }
    }
  }

  lemma ReachesLeads(lift: seq<Insn>, external: set<nat>, inBody: nat -> bool, b: nat)
    requires Increasing(lift) && lift != []
    requires var c := CfgOf(lift, external, inBody, |lift|); b < |c.start| && Reaches(lift, 0, c.start[b])
    ensures Leads(CfgOf(lift, external, inBody, |lift|).succs, 0, b)
  {
    var c := CfgOf(lift, external, inBody, |lift|);
    var trail :| IsTrail(lift, trail) && trail[0] == 0 && trail[|trail| - 1] == c.start[b];
    StartsAre(lift, external);
    StartHolds(lift, c.start, b);
    TrailLeads(lift, c.start, c.succs, trail, b);
  }

  lemma LedIsReached(lift: seq<Insn>, external: set<nat>, inBody: nat -> bool, b: nat)
    requires lift != []
    requires var c := CfgOf(lift, external, inBody, |lift|); b < |c.start| && Leads(c.succs, 0, b)
    ensures var c := CfgOf(lift, external, inBody, |lift|); Reaches(lift, 0, c.start[b])
  {
    var c := CfgOf(lift, external, inBody, |lift|);
    StartsAre(lift, external);
    IndexedEdges(lift, external, inBody);
    LeadsReaches(lift, c.start, c.succs, 0, b);
  }

  /** The blocks walked from the empty state are those runs start at. */
  lemma RootedIff<S, T>(p: Problem<S, T>, flow: Flow<S, T>, lift: seq<Insn>, external: set<nat>, inBody: nat -> bool, want: nat -> bool, b: nat)
    requires Increasing(lift) && lift != [] && p == ProblemOf(flow, lift, external, inBody, |lift|, want) && b < p.Count()
    ensures p.Rooted(b) <==> StartsRun(lift, external, inBody, p.cfg.start[b])
  {
    StartsFacts(lift, external, |lift|);
    if Reaches(lift, 0, p.cfg.start[b]) { ReachesLeads(lift, external, inBody, b); }
    if Leads(p.cfg.succs, 0, b) { LedIsReached(lift, external, inBody, b); }
    assert b > 0 ==> p.cfg.start[0] < p.cfg.start[b];
  }

  /** Every instruction a run starts at starts a block. */
  lemma StartHasBlock<S, T>(p: Problem<S, T>, flow: Flow<S, T>, lift: seq<Insn>, external: set<nat>, inBody: nat -> bool, want: nat -> bool, i: nat) returns (b: nat)
    requires Increasing(lift) && lift != [] && p == ProblemOf(flow, lift, external, inBody, |lift|, want)
    requires StartsRun(lift, external, inBody, i)
    ensures b < p.Count() && p.cfg.start[b] == i && p.Rooted(b)
  {
    StartsFacts(lift, external, |lift|);
    assert IsStart(lift, external, i);
    b :| 0 <= b < p.Count() && p.cfg.start[b] == i;
    RootedIff(p, flow, lift, external, inBody, want, b);
  }

  // ---- the blocks keyed by address of a lift that wraps

  lemma {:induction false} WalkedFalls(lift: seq<Insn>, from: nat, end: nat, i: nat)
    requires from <= end <= |lift| && from <= i < WalkedEnd(lift, from, end) - 1
    ensures !StopsFlow(lift[i])
    decreases end - from
  {
    if from < i { WalkedFalls(lift, from + 1, end, i); }
  }

  lemma KeyedJump(cfg: Cfg, lift: seq<Insn>, external: set<nat>, inBody: nat -> bool, from: nat, end: nat, d: nat)
    requires IsKeyed(cfg, lift, external, inBody) && from < end <= |lift|
    requires d in Somes(Resolve(cfg.startAddr, TargetsIn(lift, from, WalkedEnd(lift, from, end))))
    ensures d < |cfg.start| && cfg.start[d] < |lift| && Reaches(lift, from, cfg.start[d])
  {
    var walked := WalkedEnd(lift, from, end);
    forall c | 0 <= c < |cfg.start| ensures cfg.start[c] < |lift| && lift[cfg.start[c]].address == cfg.startAddr[c] {
      KeyedStart(cfg, lift, external, inBody, c);
    }
    forall i | from <= i < walked - 1 ensures !StopsFlow(lift[i]) { WalkedFalls(lift, from, end, i); }
    WalkedSome(lift, from, end);
    JumpReaches(lift, cfg.start, cfg.startAddr, from, walked, d);
  }

  lemma KeyedSuccsOf(cfg: Cfg, lift: seq<Insn>, external: set<nat>, inBody: nat -> bool, b: nat)
    requires IsKeyed(cfg, lift, external, inBody) && b < |cfg.startAddr|
    ensures cfg.start[b] <= cfg.ends[b] <= |lift| && cfg.succs[b] == KeyedSuccs(lift, cfg.startAddr, b, cfg.start[b], cfg.ends[b])
  {
    assert BlockKeyed(cfg, lift, b);
  }

  lemma KeyedEdge(cfg: Cfg, lift: seq<Insn>, external: set<nat>, inBody: nat -> bool, w: nat, b: nat, d: nat)
    requires IsKeyed(cfg, lift, external, inBody) && WrapsAt(lift, w) && BelowLast(lift) && b < |cfg.startAddr| && d in cfg.succs[b]
    ensures EdgeReaches(lift, cfg.start, b, d, cfg.entry)
  {
    KeyedSuccsOf(cfg, lift, external, inBody, b);
    BlockEnds(cfg, lift, external, inBody, w, b);
    KeyedStart(cfg, lift, external, inBody, b);
    var from, end := cfg.start[b], cfg.ends[b];
    KeyedSuccIs(lift, cfg.startAddr, b, from, end, d);
    if d in Somes(Resolve(cfg.startAddr, TargetsIn(lift, from, WalkedEnd(lift, from, end)))) {
      KeyedJump(cfg, lift, external, inBody, from, end, d);
    } else if d != cfg.entry {
      KeyedFall(cfg, lift, external, inBody, b, d);
    }
  }

  lemma KeyedSuccIs(lift: seq<Insn>, startAddr: seq<nat>, b: nat, from: nat, end: nat, d: nat)
    requires from <= end <= |lift| && b < |startAddr| && d in KeyedSuccs(lift, startAddr, b, from, end)
    ensures d in Somes(Resolve(startAddr, TargetsIn(lift, from, WalkedEnd(lift, from, end)))) || (FallsThrough(lift, from, end) && d in NextOf(startAddr, b))
  {
  }

  lemma KeyedFall(cfg: Cfg, lift: seq<Insn>, external: set<nat>, inBody: nat -> bool, b: nat, d: nat)
    requires IsKeyed(cfg, lift, external, inBody) && b < |cfg.startAddr| && d == b + 1 < |cfg.startAddr|
    requires cfg.start[b] < cfg.ends[b] == cfg.start[d] && cfg.ends[b] <= |lift| && FallsThrough(lift, cfg.start[b], cfg.ends[b])
    ensures Reaches(lift, cfg.start[b], cfg.start[d])
  {
    KeyedStart(cfg, lift, external, inBody, d);
    FallReaches(lift, cfg.start[b], cfg.ends[b]);
  }

  lemma WalkedSome(lift: seq<Insn>, from: nat, end: nat)
    requires from < end <= |lift|
    ensures WalkedEnd(lift, from, end) > from
  {
  }

  /** Where a run starts a block walked from the empty state does. */
  lemma KeyedStartHasBlock<S, T>(p: Problem<S, T>, external: set<nat>, inBody: nat -> bool, w: nat, i: nat) returns (b: nat)
    requires p.Valid() && IsKeyed(p.cfg, p.insns, external, inBody) && WrapsAt(p.insns, w) && BelowLast(p.insns)
    requires StartsRun(p.insns, external, inBody, i)
    ensures b < p.Count() && p.cfg.start[b] == i && p.Rooted(b)
  {
    var lift, c := p.insns, p.cfg;
    assert IsStart(lift, external, i);
    assert lift[i].address in StartAddrs(lift, external);
    b :| 0 <= b < |c.startAddr| && c.startAddr[b] == lift[i].address;
    WrapDistinct(lift, w);
    KeyedStart(c, lift, external, inBody, b);
    KeyedStart(c, lift, external, inBody, c.entry);
    if b != c.entry && Leads(c.succs, c.entry, b) {
      forall a, d | 0 <= a < |c.start| && d in c.succs[a] ensures EdgeReaches(lift, c.start, a, d, c.entry) {
        KeyedEdge(c, lift, external, inBody, w, a, d);
      }
      LeadsReaches(lift, c.start, c.succs, c.entry, b);
    }
    assert c.unknown[b] == KeyedUnknown(c, external, inBody, b);
  }
}
