/**
 The blocks of the walk keyed by address, of a lift in any order; on a lift whose addresses
 strictly increase they are the indexed ones, and the two flows record the same.
 */
module BlockFlowLegacy {
  import opened Numbers
  import opened Pcode
  import opened SortedNats
  import opened EdgeList
  import opened BlockFlow
  import opened BlockFlowRun
  import opened BlockFlowBuild

  /** No instruction is at the last address. */
  ghost predicate BelowLast(lift: seq<Insn>) {
    forall i | 0 <= i < |lift| :: lift[i].address < U64_MAX
  }

  /** Addresses are of 64 bits. */
  ghost predicate Addressed(lift: seq<Insn>) {
    forall i | 0 <= i < |lift| :: lift[i].address <= U64_MAX
  }

  /** The index of the first instruction from `i` on that is not before the address `limit`. */
  function Upto(lift: seq<Insn>, i: nat, limit: nat): (r: nat)
    requires i <= |lift|
    ensures i <= r <= |lift|
    decreases |lift| - i
  {
    if i == |lift| || lift[i].address >= limit then i else Upto(lift, i + 1, limit)
  }

  /** The end of the instructions `from..end` walked: after the first one that stops. */
  function WalkedEnd(lift: seq<Insn>, from: nat, end: nat): (r: nat)
    requires from <= end <= |lift|
    ensures from <= r <= end
    decreases end - from
  {
    if from == end then end else if StopsFlow(lift[from]) then from + 1 else WalkedEnd(lift, from + 1, end)
  }

  /** None of the instructions `from..end` stops. */
  predicate FallsThrough(lift: seq<Insn>, from: nat, end: nat)
    requires from <= end <= |lift|
  {
    forall i | from <= i < end :: !StopsFlow(lift[i])
  }

  /** The address block `b` ends before. */
  function Limit(startAddr: seq<nat>, b: nat): nat {
    if b + 1 < |startAddr| then startAddr[b + 1] else U64_MAX
  }

  /** The addresses blocks start at. */
  ghost function StartAddrs(lift: seq<Insn>, external: set<nat>): set<nat> {
    set i: nat | i < |lift| && IsStart(lift, external, i) :: lift[i].address
  }

  /** The last instruction at the address `a`. */
  ghost predicate IsLastAt(lift: seq<Insn>, a: nat, i: nat) {
    i < |lift| && lift[i].address == a && forall j | i < j < |lift| :: lift[j].address != a
  }

  /** The block after block `b`: a block at the last address is its own. */
  function NextOf(startAddr: seq<nat>, b: nat): seq<nat>
    requires b < |startAddr|
  {
    if b + 1 < |startAddr| then [b + 1] else if startAddr[b] == U64_MAX then [b] else []
  }

  function KeyedSuccs(lift: seq<Insn>, startAddr: seq<nat>, b: nat, from: nat, end: nat): seq<nat>
    requires from <= end <= |lift| && b < |startAddr|
  {
    Somes(Resolve(startAddr, TargetsIn(lift, from, WalkedEnd(lift, from, end))))
    + if FallsThrough(lift, from, end) then NextOf(startAddr, b) else []
  }

  /** Block `b`: from the last instruction at its address to the first one not before the next
      block's. */
  ghost predicate BlockKeyed(cfg: Cfg, lift: seq<Insn>, b: nat) {
    && b < |cfg.startAddr| == |cfg.start| == |cfg.ends| == |cfg.succs|
    && IsLastAt(lift, cfg.startAddr[b], cfg.start[b])
    && cfg.ends[b] == Upto(lift, cfg.start[b], Limit(cfg.startAddr, b))
    && cfg.succs[b] == KeyedSuccs(lift, cfg.startAddr, b, cfg.start[b], cfg.ends[b])
  }

  /** `cfg` is the blocks keyed by address. */
  ghost predicate IsKeyed(cfg: Cfg, lift: seq<Insn>, external: set<nat>, inBody: nat -> bool) {
    && lift != [] && cfg.legacy && cfg.relevant == None
    && |cfg.startAddr| == |cfg.start| == |cfg.ends| == |cfg.succs| == |cfg.unknown| == |cfg.jumps|
    && Ascends(cfg.startAddr) && (forall a: nat :: a in cfg.startAddr <==> a in StartAddrs(lift, external))
    && cfg.entry < |cfg.startAddr| && cfg.startAddr[cfg.entry] == lift[0].address
    && (forall b | 0 <= b < |cfg.startAddr| :: BlockKeyed(cfg, lift, b))
    && (forall b | 0 <= b < |cfg.startAddr| :: cfg.unknown[b] == KeyedUnknown(cfg, external, inBody, b))
  }

  /** Block `b` is entered from somewhere unknown. */
  ghost predicate KeyedUnknown(cfg: Cfg, external: set<nat>, inBody: nat -> bool, b: nat)
    requires b < |cfg.startAddr|
  {
    b != cfg.entry && (cfg.startAddr[b] in external || (!Leads(cfg.succs, cfg.entry, b) && inBody(cfg.startAddr[b])))
  }

  lemma KeyedSuccsBelow(lift: seq<Insn>, startAddr: seq<nat>, b: nat, from: nat, end: nat, k: nat)
    requires from <= end <= |lift| && b < |startAddr| && k < |KeyedSuccs(lift, startAddr, b, from, end)|
    ensures KeyedSuccs(lift, startAddr, b, from, end)[k] < |startAddr|
  {
    var js := Resolve(startAddr, TargetsIn(lift, from, WalkedEnd(lift, from, end)));
    if k < |Somes(js)| { SomesOnly(js, Somes(js)[k]); }
  }

  lemma KeyedIsValid<S, T>(p: Problem<S, T>, external: set<nat>, inBody: nat -> bool)
    requires IsKeyed(p.cfg, p.insns, external, inBody)
    ensures p.Valid()
  {
    var cfg := p.cfg;
    forall b | 0 <= b < p.Count()
      ensures cfg.start[b] < |p.insns| && cfg.startAddr[b] == p.insns[cfg.start[b]].address && cfg.start[b] <= cfg.ends[b] <= |p.insns|
    {
      assert BlockKeyed(cfg, p.insns, b);
    }
    forall b, k | 0 <= b < p.Count() && 0 <= k < |cfg.succs[b]| ensures cfg.succs[b][k] < p.Count() {
      assert BlockKeyed(cfg, p.insns, b);
      KeyedSuccsBelow(p.insns, cfg.startAddr, b, cfg.start[b], cfg.ends[b], k);
    }
  }

  // ---- on an increasing lift

  lemma {:induction false} UptoIs(lift: seq<Insn>, i: nat, limit: nat, r: nat)
    requires i <= r <= |lift| && (forall j | i <= j < r :: lift[j].address < limit) && (r < |lift| ==> lift[r].address >= limit)
    ensures Upto(lift, i, limit) == r
    decreases r - i
  {
    if i < r { UptoIs(lift, i + 1, limit, r); }
  }

  lemma {:induction false} WalkedEndIs(lift: seq<Insn>, from: nat, end: nat)
    requires from < end <= |lift| && forall i | from <= i < end - 1 :: !StopsFlow(lift[i])
    ensures WalkedEnd(lift, from, end) == end
    decreases end - from
  {
    if from < end - 1 { WalkedEndIs(lift, from + 1, end); }
  }

  /** The addresses of the indexed blocks are those keyed by. */
  lemma SameStarts(cfg: Cfg, lift: seq<Insn>, external: set<nat>, inBody: nat -> bool)
    requires Increasing(lift) && IsKeyed(cfg, lift, external, inBody)
    ensures var c := CfgOf(lift, external, inBody, |lift|);
      cfg.startAddr == c.startAddr && cfg.start == c.start && cfg.entry == 0
  {
    var n := |lift|;
    StartsFacts(lift, external, n);
    var start := Starts(lift, external, n);
    var addrs := Addresses(lift, start);
    forall a: nat ensures a in addrs <==> a in StartAddrs(lift, external) {
      if a in StartAddrs(lift, external) {
        var i: nat :| i < n && IsStart(lift, external, i) && lift[i].address == a;
        var k :| 0 <= k < |start| && start[k] == i;
        assert addrs[k] == a;
      }
      if a in addrs {
        var k :| 0 <= k < |addrs| && addrs[k] == a;
        assert IsStart(lift, external, start[k]);
      }
    }
    SameAscending(cfg.startAddr, addrs);
    forall b | 0 <= b < |start| ensures cfg.start[b] == start[b] {
      assert BlockKeyed(cfg, lift, b);
    }
    OnePlace(addrs, cfg.entry, 0);
  }

  /** The instructions of a block but its last do not stop. */
  lemma InsideFalls(lift: seq<Insn>, external: set<nat>, b: nat)
    requires var s := Starts(lift, external, |lift|); StartsOk(lift, s, |lift|) && b < |s|
    ensures var s := Starts(lift, external, |lift|);
      forall i | s[b] <= i < EndOf(s, |lift|, b) - 1 && i < |lift| - 1 :: !StopsFlow(lift[i])
  {
    var s := Starts(lift, external, |lift|);
    forall i | s[b] <= i < EndOf(s, |lift|, b) - 1 && i < |lift| - 1 ensures !StopsFlow(lift[i]) {
      BlockInside(lift, external, |lift|, b, i);
    }
  }

  /** A block's end, found either way. */
  lemma SameEnd(lift: seq<Insn>, s: seq<nat>, b: nat)
    requires Increasing(lift) && StartsOk(lift, s, |lift|) && b < |s| && BelowLast(lift)
    ensures Upto(lift, s[b], Limit(Addresses(lift, s), b)) == EndOf(s, |lift|, b)
  {
    var end := EndOf(s, |lift|, b);
    assert b + 1 < |s| ==> s[b] < s[b + 1] < |lift|;
    UptoIs(lift, s[b], Limit(Addresses(lift, s), b), end);
  }

  /** A block's successors, found either way. */
  lemma SameSuccs(lift: seq<Insn>, external: set<nat>, b: nat)
    requires BelowLast(lift)
    requires var s := Starts(lift, external, |lift|); StartsOk(lift, s, |lift|) && b < |s|
    ensures var s := Starts(lift, external, |lift|); var end := EndOf(s, |lift|, b);
      s[b] <= end <= |lift| && KeyedSuccs(lift, Addresses(lift, s), b, s[b], end) == SuccsOf(lift, s, |lift|, b)
  {
    var s := Starts(lift, external, |lift|);
    var end := EndOf(s, |lift|, b);
    InsideFalls(lift, external, b);
    LastDecides(lift, s[b], end);
    NextIsAfter(lift, s, b);
  }

  lemma LastDecides(lift: seq<Insn>, from: nat, end: nat)
    requires from < end <= |lift| && forall i | from <= i < end - 1 && i < |lift| - 1 :: !StopsFlow(lift[i])
    ensures WalkedEnd(lift, from, end) == end && (FallsThrough(lift, from, end) <==> !StopsFlow(lift[end - 1]))
  {
    WalkedEndIs(lift, from, end);
  }

  lemma NextIsAfter(lift: seq<Insn>, s: seq<nat>, b: nat)
    requires BelowLast(lift) && StartsOk(lift, s, |lift|) && b < |s|
    ensures NextOf(Addresses(lift, s), b) == if b + 1 < |s| then [b + 1] else []
  {
    assert Addresses(lift, s)[b] == lift[s[b]].address;
  }

  lemma SameBlockKeyed(cfg: Cfg, lift: seq<Insn>, external: set<nat>, inBody: nat -> bool, b: nat)
    requires Increasing(lift) && IsKeyed(cfg, lift, external, inBody) && b < |cfg.startAddr|
    requires BelowLast(lift)
    ensures var s := Starts(lift, external, |lift|);
      StartsOk(lift, s, |lift|) && b < |s| && cfg.ends[b] == EndOf(s, |lift|, b) && cfg.succs[b] == SuccsOf(lift, s, |lift|, b)
  {
    SameStarts(cfg, lift, external, inBody);
    StartsFacts(lift, external, |lift|);
    assert BlockKeyed(cfg, lift, b);
    SameEnd(lift, Starts(lift, external, |lift|), b);
    SameSuccs(lift, external, b);
  }

  /** The blocks keyed by address of an increasing lift, none of it at the last address. */
  lemma SameCfg(cfg: Cfg, lift: seq<Insn>, external: set<nat>, inBody: nat -> bool)
    requires Increasing(lift) && IsKeyed(cfg, lift, external, inBody) && BelowLast(lift)
    ensures CfgOf(lift, external, inBody, |lift|) == cfg.(legacy := false, ends := [], jumps := CfgOf(lift, external, inBody, |lift|).jumps)
  {
    var c := CfgOf(lift, external, inBody, |lift|);
    SameStarts(cfg, lift, external, inBody);
    forall b | 0 <= b < |cfg.startAddr| ensures cfg.succs[b] == c.succs[b] {
      SameBlockKeyed(cfg, lift, external, inBody, b);
    }
    assert cfg.succs == c.succs;
    forall b | 0 <= b < |cfg.startAddr| ensures cfg.unknown[b] == c.unknown[b] {
    }
    assert cfg.unknown == c.unknown;
  }

  // ---- the flows over the same blocks

  /** The blocks of `p` and `q` are walked alike, whatever else is kept with them. */
  ghost predicate WalkedAlike<S(!new), T>(p: Problem<S, T>, q: Problem<S, T>) {
    && p.Valid() && q.Valid() && p.flow == q.flow && p.Count() == q.Count()
    && p.cfg.entry == q.cfg.entry && p.cfg.unknown == q.cfg.unknown && p.cfg.relevant == q.cfg.relevant
    && forall b, s | 0 <= b < p.Count() :: WalkBlock(p, b, s) == WalkBlock(q, b, s)
  }

  lemma SameDeliverOne<S(!new), T>(p: Problem<S, T>, q: Problem<S, T>, b: nat, to: nat, s: S, st: State<S, T>)
    requires p.Count() == q.Count() && p.cfg.relevant == q.cfg.relevant && Shaped(p, st) && Shaped(q, st) && to < p.Count()
    ensures DeliverOne(p, b, to, s, st) == DeliverOne(q, b, to, s, st)
  {
  }

  lemma {:induction false} SameDeliver<S(!new), T>(p: Problem<S, T>, q: Problem<S, T>, b: nat, out: Edges<S>, i: nat, st: State<S, T>)
    requires p.Valid() && q.Valid() && p.Count() == q.Count() && p.cfg.relevant == q.cfg.relevant
    requires Shaped(p, st) && Shaped(q, st) && Below(out, p.Count()) && i <= |out|
    ensures Deliver(p, b, out, i, st) == Deliver(q, b, out, i, st)
    decreases |out| - i
  {
    if i < |out| {
      var to, s := out[i].0, out[i].1;
      SameDeliverOne(p, q, b, to, s, st);
      SameDeliver(p, q, b, out, i + 1, DeliverOne(p, b, to, s, st));
      DeliverNext(p, b, out, i, st);
      DeliverNext(q, b, out, i, st);
    }
  }

  lemma SameEmit<S(!new), T>(p: Problem<S, T>, q: Problem<S, T>, b: nat, s: S, st: State<S, T>)
    requires WalkedAlike(p, q) && Shaped(p, st) && Shaped(q, st) && b < p.Count()
    ensures Emit(p, b, s, st) == Emit(q, b, s, st)
  {
    var w := WalkBlock(p, b, s);
    assert w == WalkBlock(q, b, s);
    WalkBelow(p, b, s);
    SameDeliver(p, q, b, w.out, 0, st.(snaps := st.snaps + w.snaps));
  }

  lemma SameStep<S(!new), T>(p: Problem<S, T>, q: Problem<S, T>, st: State<S, T>)
    requires WalkedAlike(p, q) && Inv(p, st) && Inv(q, st) && st.work != []
    ensures Step(p, st) == Step(q, st)
  {
    if !st.saturated[st.work[0]] {
      StepIsEmit(p, st);
      StepIsEmit(q, st);
      SameEmit(p, q, st.work[0], Entry(p, Popped(p, st), st.work[0]), Popped(p, st));
    }
  }

  lemma {:induction false} SameRun<S(!new), T>(p: Problem<S, T>, q: Problem<S, T>, st: State<S, T>)
    requires WalkedAlike(p, q) && Inv(p, st) && Inv(q, st)
    ensures Run(p, st) == Run(q, st)
    decreases Left(p, st.visits, p.Count()), |st.work|
  {
    if st.work != [] {
      SameStep(p, q, st);
      StepKeeps(p, st);
      StepKeeps(q, st);
      StepDecreases(p, st);
      StepDecreases(q, st);
      SameRun(p, q, Step(p, st));
    }
  }

  lemma {:induction false} SameOps<S(!new), T>(p: Problem<S, T>, q: Problem<S, T>, i: nat, k: nat, w: Walk<S, T>)
    requires p.flow == q.flow && p.insns == q.insns && p.want == q.want && p.cfg.startAddr == q.cfg.startAddr
    requires i < |p.insns| && k <= |p.insns[i].ops|
    ensures WalkOps(p, i, k, w) == WalkOps(q, i, k, w)
  {
    if k > 0 { SameOps(p, q, i, k - 1, w); }
  }

  lemma {:induction false} SameInsns<S(!new), T>(p: Problem<S, T>, q: Problem<S, T>, from: nat, end: nat, w: Walk<S, T>)
    requires p.flow == q.flow && p.insns == q.insns && p.want == q.want && p.cfg.startAddr == q.cfg.startAddr
    requires from <= end <= |p.insns|
    ensures WalkInsns(p, from, end, w) == WalkInsns(q, from, end, w)
  {
    if from < end {
      SameInsns(p, q, from, end - 1, w);
      SameOps(p, q, end - 1, |p.insns[end - 1].ops|, WalkInsns(p, from, end - 1, w));
    }
  }

  lemma {:induction false} SameRoots<S(!new), T>(p: Problem<S, T>, q: Problem<S, T>, n: nat)
    requires p.Valid() && p.cfg.entry == q.cfg.entry && p.cfg.unknown == q.cfg.unknown && p.cfg.relevant == q.cfg.relevant
    requires n <= |p.cfg.unknown|
    ensures Roots(p, n) == Roots(q, n)
  {
    if n > 0 { SameRoots(p, q, n - 1); }
  }

  /** On an increasing lift none of which is at the last address, the walk keyed by address
      records what the indexed one does, in the same order. */
  lemma KeyedIsIndexed<S(!new), T>(p: Problem<S, T>, external: set<nat>, inBody: nat -> bool)
    requires Increasing(p.insns) && IsKeyed(p.cfg, p.insns, external, inBody) && BelowLast(p.insns)
    ensures var q := ProblemOf(p.flow, p.insns, external, inBody, |p.insns|, p.want);
      && p.Valid() && q.Valid() && Inv(p, Initial(p)) && Inv(q, Initial(q))
      && Run(p, Initial(p)).snaps == Run(q, Initial(q)).snaps
  {
    var lift := p.insns;
    var q := ProblemOf(p.flow, lift, external, inBody, |lift|, p.want);
    assert lift[..|lift|] == lift;
    SameCfg(p.cfg, lift, external, inBody);
    KeyedIsValid(p, external, inBody);
    BlocksAreValid(q, p.flow, lift, external, inBody, |lift|, p.want);
    forall b, s | 0 <= b < p.Count() ensures WalkBlock(p, b, s) == WalkBlock(q, b, s) {
      SameWalk(p, q, external, inBody, b, s);
    }
    SameRoots(p, q, p.Count());
    InitialInv(p);
    InitialInv(q);
    SameRun(p, q, Initial(p));
  }

  lemma SameWalk<S(!new), T>(p: Problem<S, T>, q: Problem<S, T>, external: set<nat>, inBody: nat -> bool, b: nat, s: S)
    requires Increasing(p.insns) && IsKeyed(p.cfg, p.insns, external, inBody) && BelowLast(p.insns)
    requires p.Valid() && q.Valid() && q.insns == p.insns && q.flow == p.flow && q.want == p.want && b < p.Count()
    requires q.cfg == CfgOf(p.insns, external, inBody, |p.insns|)
    ensures p.Count() == q.Count() && WalkBlock(p, b, s) == WalkBlock(q, b, s)
  {
    SameCfg(p.cfg, p.insns, external, inBody);
    SameBlockKeyed(p.cfg, p.insns, external, inBody, b);
    BlockOrder(p, b);
    SameInsns(p, q, p.cfg.start[b], p.End(b), Walk(s, [], [], true));
    NextBelow(p, b);
  }

  /** No block of the lift starts at the last address. */
  lemma NextBelow<S(!new), T>(p: Problem<S, T>, b: nat)
    requires p.Valid() && Increasing(p.insns) && BelowLast(p.insns) && b < p.Count()
    ensures p.HasNext(b) <==> b + 1 < p.Count()
  {
  }
}
