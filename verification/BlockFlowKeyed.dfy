/**
 Making the blocks keyed by address of a lift in any order: the index of each address, the
 addresses blocks start at, the static successors, and the blocks entered from somewhere
 unknown.
 */
module BlockFlowKeyed {
  import opened Numbers
  import opened Pcode
  import opened SortedNats
  import opened BlockFlow
  import opened BlockFlowBuild
  import opened BlockFlowCut
  import opened BlockFlowMake
  import opened BlockFlowMarks
  import opened BlockFlowLegacy

  // ---- the index

  /** Each address of the lift, with the last instruction at it. */
  ghost predicate IsIndex(lift: seq<Insn>, index: map<nat, nat>) {
    && (forall i | 0 <= i < |lift| :: lift[i].address in index)
    && (forall a | a in index :: IsLastAt(lift, a, index[a]))
  }

  method IndexAddresses(lift: seq<Insn>) returns (index: map<nat, nat>)
    ensures IsIndex(lift, index)
  {
    index := map[];
    for i := 0 to |lift|
      invariant forall j | 0 <= j < i :: lift[j].address in index
      invariant forall a | a in index :: IsLastAt(lift[..i], a, index[a])
    {
      index := index[lift[i].address := i];
    }
    assert lift[..|lift|] == lift;
  }

  // ---- where blocks start

  /** Among the first `n` instructions is what makes `a` the start of a block. */
  ghost predicate StartsBy(lift: seq<Insn>, external: set<nat>, n: nat, a: nat)
    requires 0 < |lift| && n <= |lift|
  {
    || a == lift[0].address || a in external || a in TargetsIn(lift, 0, n)
    || exists j :: 0 < j < n && lift[j].address == a && EndsBlock(lift[j - 1])
  }

  ghost predicate StartsUpto(lift: seq<Insn>, external: set<nat>, index: map<nat, nat>, n: nat, starts: seq<nat>)
    requires 0 < |lift| && n <= |lift|
  {
    Ascends(starts) && forall a: nat :: a in starts <==> a in index && StartsBy(lift, external, n, a)
  }

  /** The external entries that are lifted, and the first instruction. */
  method ExternalStarts(lift: seq<Insn>, external: seq<nat>, index: map<nat, nat>) returns (starts: seq<nat>)
    requires 0 < |lift| && IsIndex(lift, index)
    ensures StartsUpto(lift, ToSet(external), index, 0, starts)
  {
    starts := [lift[0].address];
    for k := 0 to |external|
      invariant Ascends(starts)
      invariant forall a: nat :: a in starts <==> a == lift[0].address || (a in index && a in external[..k])
    {
      if external[k] in index { starts := Insert(starts, external[k]); }
    }
    assert external[..|external|] == external;
  }

  /** The targets of an instruction that are lifted, and whether it ends its block. */
  method TargetStarts(insn: Insn, index: map<nat, nat>, starts0: seq<nat>) returns (starts: seq<nat>, ends: bool)
    requires Ascends(starts0)
    ensures Ascends(starts) && ends == EndsBlock(insn)
    ensures forall a: nat :: a in starts <==> a in starts0 || (a in index && a in Targets(insn.ops))
  {
    var ops := insn.ops;
    starts, ends := starts0, false;
    for k := 0 to |ops|
      invariant Ascends(starts) && (ends <==> exists l :: 0 <= l < k && (IsJump(ops[l]) || IsStop(ops[l])))
      invariant forall a: nat :: a in starts <==> a in starts0 || (a in index && a in Targets(ops[..k]))
    {
      assert ops[..k + 1][..k] == ops[..k];
      var op := ops[k];
      if IsJump(op) && Target(op).Some? && Target(op).value in index { starts := Insert(starts, Target(op).value); }
      ends := ends || IsJump(op) || IsStop(op);
    }
    assert ops[..|ops|] == ops;
  }

  lemma NextStarts(lift: seq<Insn>, external: set<nat>, n: nat, a: nat)
    requires n < |lift|
    ensures StartsBy(lift, external, n + 1, a) <==>
      StartsBy(lift, external, n, a) || a in Targets(lift[n].ops) || (n > 0 && a == lift[n].address && EndsBlock(lift[n - 1]))
  {
    assert a in TargetsIn(lift, 0, n + 1) <==> a in TargetsIn(lift, 0, n) || a in Targets(lift[n].ops);
  }

  /** The addresses blocks start at. */
  method StartAddresses(lift: seq<Insn>, external: seq<nat>, index: map<nat, nat>) returns (starts: seq<nat>)
    requires 0 < |lift| && IsIndex(lift, index)
    ensures Ascends(starts) && forall a: nat :: a in starts <==> a in StartAddrs(lift, ToSet(external))
  {
    starts := ExternalStarts(lift, external, index);
    var ends := false;
    for i := 0 to |lift|
      invariant StartsUpto(lift, ToSet(external), index, i, starts)
      invariant ends <==> i > 0 && EndsBlock(lift[i - 1])
    {
      starts, ends := InsnStarts(lift, ToSet(external), index, i, starts, ends);
    }
    forall a: nat ensures a in starts <==> a in StartAddrs(lift, ToSet(external)) {
      StartsWhole(lift, ToSet(external), index, a);
    }
  }

  method InsnStarts(lift: seq<Insn>, ghost external: set<nat>, index: map<nat, nat>, i: nat, starts0: seq<nat>, after: bool) returns (starts: seq<nat>, ends: bool)
    requires i < |lift| && IsIndex(lift, index) && StartsUpto(lift, external, index, i, starts0)
    requires after <==> i > 0 && EndsBlock(lift[i - 1])
    ensures StartsUpto(lift, external, index, i + 1, starts) && ends == EndsBlock(lift[i])
  {
    starts := starts0;
    if after { starts := Insert(starts, lift[i].address); }
    starts, ends := TargetStarts(lift[i], index, starts);
    forall a: nat ensures a in starts <==> a in index && StartsBy(lift, external, i + 1, a) {
      NextStarts(lift, external, i, a);
    }
  }

  lemma StartsWhole(lift: seq<Insn>, external: set<nat>, index: map<nat, nat>, a: nat)
    requires 0 < |lift| && IsIndex(lift, index)
    ensures a in index && StartsBy(lift, external, |lift|, a) <==> a in StartAddrs(lift, external)
  {
    if a in index && StartsBy(lift, external, |lift|, a) {
      assert IsLastAt(lift, a, index[a]);
      if a == lift[0].address {
        assert IsStart(lift, external, 0);
      } else if a in external || a in TargetsIn(lift, 0, |lift|) {
        assert IsStart(lift, external, index[a]);
      } else {
        var j :| 0 < j < |lift| && lift[j].address == a && EndsBlock(lift[j - 1]);
        assert IsStart(lift, external, j);
      }
    }
    if a in StartAddrs(lift, external) {
      var i: nat :| i < |lift| && IsStart(lift, external, i) && lift[i].address == a;
      assert i > 0 && EndsBlock(lift[i - 1]) ==> StartsBy(lift, external, |lift|, a);
    }
  }

  // ---- successors

  /** The address the block at `a` ends before. */
  method BlockLimit(starts: seq<nat>, a: nat, ghost b: nat) returns (limit: nat)
    requires Ascends(starts) && b < |starts| && starts[b] == a
    ensures limit == Limit(starts, b)
  {
    var k := PartitionPoint(starts, a + 1);
    NextPoint(starts, b, a, k);
    limit := if k < |starts| then starts[k] else U64_MAX;
  }

  lemma NextPoint(starts: seq<nat>, b: nat, x: nat, k: nat)
    requires Ascends(starts) && b < |starts| && starts[b] == x && k <= |starts|
    requires (forall i | 0 <= i < k :: starts[i] < x + 1) && (forall i | k <= i < |starts| :: x + 1 <= starts[i])
    ensures k == b + 1
  {
    assert b + 1 < |starts| ==> starts[b] < starts[b + 1];
  }

  /** `out` holds the addresses of the blocks `ss`, and nothing else that is one of `starts`. */
  ghost predicate AddressesOf(starts: seq<nat>, ss: seq<nat>, out: seq<nat>) {
    forall c | 0 <= c < |starts| :: starts[c] in out <==> c in ss
  }

  /** The blocks the jumps of an instruction go to, and whether it stops. */
  method InsnSuccs(insn: Insn, starts: seq<nat>, out0: seq<nat>) returns (out: seq<nat>, stops: bool)
    ensures stops == StopsFlow(insn)
    ensures forall a: nat :: a in out <==> a in out0 || (a in starts && a in Targets(insn.ops))
  {
    var ops := insn.ops;
    out, stops := out0, false;
    for k := 0 to |ops|
      invariant stops <==> exists l :: 0 <= l < k && IsStop(ops[l])
      invariant forall a: nat :: a in out <==> a in out0 || (a in starts && a in Targets(ops[..k]))
    {
      assert ops[..k + 1][..k] == ops[..k];
      var op := ops[k];
      if IsJump(op) && Target(op).Some? && Target(op).value in starts { out := out + [Target(op).value]; }
      stops := stops || IsStop(op);
    }
    assert ops[..|ops|] == ops;
  }

  lemma {:induction false} WalkedEndAt(lift: seq<Insn>, from: nat, i: nat, end: nat)
    requires from <= i <= end <= |lift| && FallsThrough(lift, from, i)
    ensures i == end ==> WalkedEnd(lift, from, end) == end
    ensures i < end && StopsFlow(lift[i]) ==> WalkedEnd(lift, from, end) == i + 1
    decreases i - from
  {
    if from < i { WalkedEndAt(lift, from + 1, i, end); }
  }

  /** The jumps of the block from `from` on that is walked up to the address `limit`. */
  method JumpSuccs(lift: seq<Insn>, starts: seq<nat>, from: nat, limit: nat) returns (out: seq<nat>, falls: bool)
    requires from <= |lift|
    ensures var end := Upto(lift, from, limit);
      && falls == FallsThrough(lift, from, end)
      && forall a: nat :: a in out <==> a in starts && a in TargetsIn(lift, from, WalkedEnd(lift, from, end))
  {
    ghost var end := Upto(lift, from, limit);
    var i := from;
    out, falls := [], true;
    while i < |lift| && lift[i].address < limit && falls
      invariant from <= i <= end && (falls ==> end == Upto(lift, i, limit))
      invariant falls ==> FallsThrough(lift, from, i)
      invariant !falls ==> WalkedEnd(lift, from, end) == i && !FallsThrough(lift, from, end)
      invariant forall a: nat :: a in out <==> a in starts && a in TargetsIn(lift, from, i)
      decreases |lift| - i
    {
      WalkedEndAt(lift, from, i, end);
      ghost var before := out;
      var stops;
      out, stops := InsnSuccs(lift[i], starts, out);
      falls := !stops;
      i := i + 1;
      assert TargetsIn(lift, from, i) == TargetsIn(lift, from, i - 1) + Targets(lift[i - 1].ops);
    }
    if falls { WalkedEndAt(lift, from, i, end); }
  }

  lemma {:induction false} SomesAre(js: seq<Option<nat>>, c: nat)
    ensures c in Somes(js) <==> Some(c) in js
  {
    if js != [] {
      SomesAre(js[..|js| - 1], c);
      assert js == js[..|js| - 1] + [js[|js| - 1]];
    }
  }

  lemma BlockOfStart(starts: seq<nat>, c: nat)
    requires Ascends(starts) && c < |starts|
    ensures BlockOf(starts, starts[c]) == Some(c)
  {
  }

  /** The jumps to block `c`, by its address. */
  lemma JumpsTo(starts: seq<nat>, ts: seq<nat>, c: nat)
    requires Ascends(starts) && c < |starts|
    ensures c in Somes(Resolve(starts, ts)) <==> starts[c] in ts
  {
    var js := Resolve(starts, ts);
    SomesAre(js, c);
    BlockOfStart(starts, c);
    if Some(c) in js {
      var k :| 0 <= k < |js| && js[k] == Some(c);
      assert ts[k] == starts[c];
    }
    if starts[c] in ts {
      var k :| 0 <= k < |ts| && ts[k] == starts[c];
      assert js[k] == Some(c);
    }
  }

  /** The successors of block `b`, by address. */
  method BlockSuccs(lift: seq<Insn>, starts: seq<nat>, index: map<nat, nat>, b: nat) returns (out: seq<nat>)
    requires Addressed(lift) && IsIndex(lift, index) && Ascends(starts) && b < |starts| && forall a | a in starts :: a in index
    ensures index[starts[b]] < |lift|
    ensures AddressesOf(starts, KeyedSuccs(lift, starts, b, index[starts[b]], Upto(lift, index[starts[b]], Limit(starts, b))), out)
    ensures forall a | a in out :: a in index
  {
    assert starts[b] in starts && IsLastAt(lift, starts[b], index[starts[b]]);
    var from := index[starts[b]];
    var limit := BlockLimit(starts, starts[b], b);
    var falls;
    out, falls := JumpSuccs(lift, starts, from, limit);
    LastStart(lift, index, starts);
    ghost var end := Upto(lift, from, limit);
    ghost var ts := TargetsIn(lift, from, WalkedEnd(lift, from, end));
    ghost var jumps := out;
    if falls && limit in index { out := out + [limit]; }
    forall c | 0 <= c < |starts| ensures starts[c] in out <==> c in KeyedSuccs(lift, starts, b, from, end) {
      JumpsTo(starts, ts, c);
      NextAddress(starts, b, c);
      assert starts[c] in jumps <==> starts[c] in ts;
      assert starts[c] in out <==> starts[c] in jumps || (falls && limit in index && starts[c] == limit);
      assert starts[c] in index;
    }
  }

  lemma LastStart(lift: seq<Insn>, index: map<nat, nat>, starts: seq<nat>)
    requires Addressed(lift) && IsIndex(lift, index) && starts != [] && forall a | a in starts :: a in index
    ensures starts[|starts| - 1] <= U64_MAX
  {
    var a := starts[|starts| - 1];
    assert a in starts;
    assert IsLastAt(lift, a, index[a]);
  }

  lemma NextAddress(starts: seq<nat>, b: nat, c: nat)
    requires Ascends(starts) && b < |starts| && c < |starts|
    ensures starts[|starts| - 1] <= U64_MAX ==> (starts[c] == Limit(starts, b) <==> c in NextOf(starts, b))
  {
  }

  /** Each block's successors, by address. */
  ghost predicate SuccsKeyed(lift: seq<Insn>, starts: seq<nat>, index: map<nat, nat>, succs: map<nat, seq<nat>>, b: nat)
    requires b < |starts|
  {
    && starts[b] in index && index[starts[b]] < |lift| && starts[b] in succs
    && AddressesOf(starts, KeyedSuccs(lift, starts, b, index[starts[b]], Upto(lift, index[starts[b]], Limit(starts, b))), succs[starts[b]])
  }

  method Successors(lift: seq<Insn>, starts: seq<nat>, index: map<nat, nat>) returns (succs: map<nat, seq<nat>>)
    requires Addressed(lift) && IsIndex(lift, index) && Ascends(starts) && forall a | a in starts :: a in index
    ensures forall b | 0 <= b < |starts| :: SuccsKeyed(lift, starts, index, succs, b)
    ensures forall a, c | a in succs && c in succs[a] :: c in index
    ensures forall a | a in succs :: a in starts
  {
    succs := map[];
    for b := 0 to |starts|
      invariant forall c | 0 <= c < b :: SuccsKeyed(lift, starts, index, succs, c)
      invariant forall a, c | a in succs && c in succs[a] :: c in index
      invariant forall a | a in succs :: a in starts
    {
      var out := BlockSuccs(lift, starts, index, b);
      assert starts[b] in starts;
      ghost var before := succs;
      succs := succs[starts[b] := out];
      forall c | 0 <= c < b + 1 ensures SuccsKeyed(lift, starts, index, succs, c) {
        if c < b { assert SuccsKeyed(lift, starts, index, before, c); }
      }
    }
  }

  // ---- the blocks the entry reaches

  /** The addresses of the blocks `reached` are led to, and nothing else of `starts` is in it. */
  ghost predicate ReachedLed(gs: seq<seq<nat>>, starts: seq<nat>, entry: nat, reached: set<nat>) {
    forall b | 0 <= b < |starts| && starts[b] in reached :: Leads(gs, entry, b)
  }

  /** The blocks reached but on the stack have theirs reached. */
  ghost predicate ReachedOn(gs: seq<seq<nat>>, starts: seq<nat>, reached: set<nat>, stack: seq<nat>) {
    forall b | 0 <= b < |starts| && starts[b] in reached && starts[b] !in stack :: AllReached(gs, starts, reached, b)
  }

  ghost predicate AllReached(gs: seq<seq<nat>>, starts: seq<nat>, reached: set<nat>, b: nat) {
    b < |gs| && forall c | c in gs[b] :: c < |starts| && starts[c] in reached
  }

  /** The successors of one block. */
  method ReachNext(ss: seq<nat>, reached0: set<nat>, stack0: seq<nat>) returns (reached: set<nat>, stack: seq<nat>)
    ensures reached == reached0 + set a | a in ss
    ensures forall a :: a in stack <==> a in stack0 || (a in ss && a !in reached0)
    ensures reached == reached0 ==> stack == stack0
  {
    reached, stack := reached0, stack0;
    for k := 0 to |ss|
      invariant reached == reached0 + set a | a in ss[..k]
      invariant forall a :: a in stack <==> a in stack0 || (a in ss[..k] && a !in reached0)
      invariant reached == reached0 ==> stack == stack0
    {
      if ss[k] !in reached { reached, stack := reached + {ss[k]}, stack + [ss[k]]; }
    }
    assert ss[..|ss|] == ss;
  }

  /** The addresses of the blocks the entry's leads to. */
  method Reach(starts: seq<nat>, succs: map<nat, seq<nat>>, first: nat, ghost entry: nat, ghost gs: seq<seq<nat>>, ghost universe: set<nat>) returns (reached: set<nat>)
    requires Ascends(starts) && entry < |starts| == |gs| && Graph(gs) && starts[entry] == first
    requires forall b | 0 <= b < |starts| :: starts[b] in succs && AddressesOf(starts, gs[b], succs[starts[b]])
    requires forall a | a in succs :: a in starts
    requires first in universe && forall a, c | a in succs && c in succs[a] :: c in universe
    ensures forall b | 0 <= b < |starts| :: starts[b] in reached <==> Leads(gs, entry, b)
  {
    reached := {first};
    var stack := [first];
    LeadsHere(gs, entry);
    while stack != []
      invariant first in reached && reached <= universe && (forall a | a in stack :: a in reached)
      invariant ReachedLed(gs, starts, entry, reached) && ReachedOn(gs, starts, reached, stack)
      decreases universe - reached, |stack|
    {
      var a, rest := stack[|stack| - 1], stack[..|stack| - 1];
      assert stack == rest + [a] && a in stack;
      if a in succs {
        ghost var b: nat :| b < |starts| && starts[b] == a;
        ghost var was := reached;
        reached, stack := ReachNext(succs[a], reached, rest);
        NextReached(gs, starts, entry, was, rest, b, succs[a], reached, stack);
      } else {
        OffStack(gs, starts, succs, reached, rest, a);
        stack := rest;
      }
    }
    forall b | 0 <= b < |starts| ensures starts[b] in reached <==> Leads(gs, entry, b) {
      if Leads(gs, entry, b) { LedIsReached(gs, starts, entry, reached, b); }
    }
  }

  lemma OffStack(gs: seq<seq<nat>>, starts: seq<nat>, succs: map<nat, seq<nat>>, reached: set<nat>, rest: seq<nat>, a: nat)
    requires ReachedOn(gs, starts, reached, rest + [a]) && a !in succs && forall b | 0 <= b < |starts| :: starts[b] in succs
    ensures ReachedOn(gs, starts, reached, rest)
  {
  }

  lemma NextReached(gs: seq<seq<nat>>, starts: seq<nat>, entry: nat, was: set<nat>, rest: seq<nat>, b: nat, ss: seq<nat>, reached: set<nat>, stack: seq<nat>)
    requires Ascends(starts) && b < |starts| == |gs| && Graph(gs) && starts[b] in was && AddressesOf(starts, gs[b], ss)
    requires ReachedLed(gs, starts, entry, was) && ReachedOn(gs, starts, was, rest + [starts[b]])
    requires reached == was + (set a | a in ss) && forall a :: a in stack <==> a in rest || (a in ss && a !in was)
    ensures ReachedLed(gs, starts, entry, reached) && ReachedOn(gs, starts, reached, stack)
  {
    forall c | 0 <= c < |starts| && starts[c] in reached ensures Leads(gs, entry, c) {
      if starts[c] !in was {
        assert c in gs[b];
        LeadsFurther(gs, entry, b, c);
      }
    }
    forall c | 0 <= c < |starts| && starts[c] in reached && starts[c] !in stack ensures AllReached(gs, starts, reached, c) {
      if c == b {
        forall d | d in gs[b] ensures d < |starts| && starts[d] in reached {
          var k :| 0 <= k < |gs[b]| && gs[b][k] == d;
        }
      } else {
        assert starts[c] in was && starts[c] !in rest + [starts[b]];
        assert AllReached(gs, starts, was, c);
      }
    }
  }

  lemma LedIsReached(gs: seq<seq<nat>>, starts: seq<nat>, entry: nat, reached: set<nat>, b: nat)
    requires entry < |starts| == |gs| && Graph(gs) && starts[entry] in reached && ReachedOn(gs, starts, reached, []) && Leads(gs, entry, b) && b < |starts|
    ensures starts[b] in reached
  {
    var path :| IsPath(gs, path) && path[0] == entry && path[|path| - 1] == b;
    var mark := seq(|gs|, c requires 0 <= c < |gs| => starts[c] in reached);
    forall c | 0 <= c < |mark| && mark[c] ensures AllMarked(mark, gs[c]) {
      assert AllReached(gs, starts, reached, c);
    }
    ClosedHoldsPath(gs, mark, path, |path| - 1);
  }

  // ---- the blocks

  /** The blocks keyed by address, as their parts say. */
  ghost function KeyedCfg(lift: seq<Insn>, external: set<nat>, inBody: nat -> bool, starts: seq<nat>, index: map<nat, nat>, entry: nat): (cfg: Cfg)
    requires forall b | 0 <= b < |starts| :: starts[b] in index && index[starts[b]] <= |lift|
    requires entry < |starts|
  {
    var n := |starts|;
    var start := seq(n, b requires 0 <= b < n => index[starts[b]]);
    var ends := seq(n, b requires 0 <= b < n => Upto(lift, start[b], Limit(starts, b)));
    var succs := seq(n, b requires 0 <= b < n => KeyedSuccs(lift, starts, b, start[b], ends[b]));
    var unknown := seq(n, b requires 0 <= b < n => b != entry && (starts[b] in external || (!Leads(succs, entry, b) && inBody(starts[b]))));
    Cfg(start, starts, entry, unknown, succs, seq(n, _ => []), None, true, ends)
  }

  lemma KeyedCfgIsKeyed(lift: seq<Insn>, external: set<nat>, inBody: nat -> bool, starts: seq<nat>, index: map<nat, nat>, entry: nat)
    requires lift != [] && IsIndex(lift, index) && Ascends(starts) && forall a: nat :: a in starts <==> a in StartAddrs(lift, external)
    requires entry < |starts| && starts[entry] == lift[0].address
    ensures forall b | 0 <= b < |starts| :: starts[b] in index && index[starts[b]] <= |lift|
    ensures IsKeyed(KeyedCfg(lift, external, inBody, starts, index, entry), lift, external, inBody)
  {
    forall b | 0 <= b < |starts| ensures starts[b] in index && IsLastAt(lift, starts[b], index[starts[b]]) {
      assert starts[b] in StartAddrs(lift, external);
    }
    var cfg := KeyedCfg(lift, external, inBody, starts, index, entry);
    assert forall b | 0 <= b < |starts| :: BlockKeyed(cfg, lift, b);
  }

  /** The blocks entered from somewhere unknown, by address. */
  method UnknownBlocks(starts: seq<nat>, external: set<nat>, inBody: nat -> bool, first: nat, reached: set<nat>) returns (unknown: seq<nat>)
    requires Ascends(starts)
    ensures Ascends(unknown)
    ensures forall a: nat :: a in unknown <==> a in starts && a != first && (a in external || (a !in reached && inBody(a)))
  {
    unknown := [];
    for b := 0 to |starts|
      invariant Ascends(unknown) && (forall i | 0 <= i < |unknown| :: b > 0 && unknown[i] <= starts[b - 1])
      invariant forall a: nat :: a in unknown <==> a in starts[..b] && a != first && (a in external || (a !in reached && inBody(a)))
    {
      var a := starts[b];
      assert starts[..b + 1] == starts[..b] + [a];
      assert b > 0 ==> starts[b - 1] < a;
      if a != first && (a in external || (a !in reached && inBody(a))) { unknown := unknown + [a]; }
    }
    assert starts[..|starts|] == starts;
  }

  /** The blocks, by address: where they start, the index of their first instruction and those
      entered from somewhere unknown. */
  method KeyedBlocks(lift: seq<Insn>, external: seq<nat>, inBody: nat -> bool) returns (starts: seq<nat>, index: map<nat, nat>, unknown: seq<nat>, ghost cfg: Cfg)
    requires lift != [] && Addressed(lift)
    ensures IsKeyed(cfg, lift, ToSet(external), inBody) && cfg.startAddr == starts && IsIndex(lift, index)
    ensures Ascends(unknown) && (forall a | a in unknown :: a in starts)
    ensures forall b | 0 <= b < |starts| :: cfg.unknown[b] <==> starts[b] in unknown
  {
    index := IndexAddresses(lift);
    starts := StartAddresses(lift, external, index);
    assert IsStart(lift, ToSet(external), 0) && lift[0].address in starts;
    ghost var entry :| 0 <= entry < |starts| && starts[entry] == lift[0].address;
    KeyedCfgIsKeyed(lift, ToSet(external), inBody, starts, index, entry);
    cfg := KeyedCfg(lift, ToSet(external), inBody, starts, index, entry);
    var succs := Successors(lift, starts, index);
    KeyedGraph(cfg, lift, ToSet(external), inBody, index, succs);
    var reached := Reach(starts, succs, lift[0].address, entry, cfg.succs, index.Keys);
    unknown := UnknownBlocks(starts, ToSet(external), inBody, lift[0].address, reached);
    forall b | 0 <= b < |starts| ensures cfg.unknown[b] <==> starts[b] in unknown {
      assert starts[b] in starts && (b != entry ==> starts[b] != starts[entry]);
    }
  }

  /** The successors by address are those by block. */
  lemma KeyedGraph(cfg: Cfg, lift: seq<Insn>, external: set<nat>, inBody: nat -> bool, index: map<nat, nat>, succs: map<nat, seq<nat>>)
    requires IsKeyed(cfg, lift, external, inBody) && IsIndex(lift, index)
    requires forall b | 0 <= b < |cfg.startAddr| :: SuccsKeyed(lift, cfg.startAddr, index, succs, b)
    ensures Graph(cfg.succs)
    ensures forall b | 0 <= b < |cfg.startAddr| :: cfg.startAddr[b] in succs && AddressesOf(cfg.startAddr, cfg.succs[b], succs[cfg.startAddr[b]])
  {
    forall b, k | 0 <= b < |cfg.succs| && 0 <= k < |cfg.succs[b]| ensures cfg.succs[b][k] < |cfg.succs| {
      assert BlockKeyed(cfg, lift, b);
      KeyedSuccsBelow(lift, cfg.startAddr, b, cfg.start[b], cfg.ends[b], k);
    }
    forall b | 0 <= b < |cfg.startAddr|
      ensures cfg.startAddr[b] in succs && AddressesOf(cfg.startAddr, cfg.succs[b], succs[cfg.startAddr[b]])
    {
      assert BlockKeyed(cfg, lift, b) && SuccsKeyed(lift, cfg.startAddr, index, succs, b);
      LastIsOne(lift, cfg.startAddr[b], cfg.start[b], index[cfg.startAddr[b]]);
    }
  }

  lemma LastIsOne(lift: seq<Insn>, a: nat, i: nat, j: nat)
    requires IsLastAt(lift, a, i) && IsLastAt(lift, a, j)
    ensures i == j
  {
  }
}
