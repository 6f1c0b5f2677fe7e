/**
 The forward data flow over the basic blocks of one function's lift: a worklist of blocks,
 the states kept on the edges between them, and a cap on the visits of a block.
 */
module BlockFlow {
  import opened Numbers
  import opened Pcode
  import opened EdgeList

  /** Visits of a block before it is walked a last time from the empty state. */
  const MAX_VISITS: nat := 8

  /** A data-flow domain, and what is recorded of a state at a call. */
  datatype Flow<!S, !T> = Flow(
    empty: S,
    join: (S, S) -> S,
    apply: (S, PcodeOp) -> S,
    afterCall: S -> S,
    snapshot: S -> T)

  /** The blocks of one lift. */
  datatype Cfg = Cfg(
    // Index of each block's first instruction, and that instruction's address.
    start: seq<nat>,
    startAddr: seq<nat>,
    // The block of the function's entry.
    entry: nat,
    // Blocks entered from somewhere unknown, other than the entry.
    unknown: seq<bool>,
    // Static successors of each block.
    succs: seq<seq<nat>>,
    // The block each jump of a block goes to (`None`: out of the lift), in op order.
    jumps: seq<seq<Option<nat>>>,
    // Blocks the flow is restricted to (all when `None`).
    relevant: Option<seq<bool>>,
    // The blocks are those of the walk keyed by address, of a lift in any order; then where
    // each of them ends.
    legacy: bool,
    ends: seq<nat>)

  /** A flow to run: the domain, the lift and its blocks, and the calls wanted. */
  datatype Problem<!S, !T> = Problem(flow: Flow<S, T>, insns: seq<Insn>, cfg: Cfg, want: nat -> bool)
  {
    function Count(): nat { |cfg.start| }

    /** A block ends where the next one starts. */
    function End(b: nat): nat
      requires b < Count()
    {
      if cfg.legacy then (if b < |cfg.ends| then cfg.ends[b] else |insns|)
      else if b + 1 < Count() then cfg.start[b + 1]
      else |insns|
    }

    /** A block falls through into the next one; keyed by address, not into the last address. */
    predicate HasNext(b: nat) {
      b + 1 < Count() && !(cfg.legacy && b + 1 < |cfg.startAddr| && cfg.startAddr[b + 1] == U64_MAX)
    }

    /** Walked from the empty state. */
    predicate Rooted(b: nat)
      requires b < |cfg.unknown|
    {
      b == cfg.entry || cfg.unknown[b]
    }

    predicate Relevant(b: nat)
      requires cfg.relevant.Some? ==> b < |cfg.relevant.value|
    {
      cfg.relevant.None? || cfg.relevant.value[b]
    }

    ghost predicate Valid() {
      && 0 < Count() == |cfg.startAddr| == |cfg.unknown| == |cfg.succs| == |cfg.jumps|
      && (cfg.relevant.Some? ==> |cfg.relevant.value| == Count())
      && cfg.entry < Count() && (!cfg.legacy ==> cfg.entry == 0)
      && (forall b | 0 <= b < Count() :: cfg.start[b] < |insns| && cfg.startAddr[b] == insns[cfg.start[b]].address)
      && (!cfg.legacy ==> forall b, c | 0 <= b < c < Count() :: cfg.start[b] < cfg.start[c])
      && (cfg.legacy ==> |cfg.ends| == Count() && forall b | 0 <= b < Count() :: cfg.start[b] <= cfg.ends[b] <= |insns|)
      && (forall b, k | 0 <= b < Count() && 0 <= k < |cfg.succs[b]| :: cfg.succs[b][k] < Count())
    }
  }

  /** The block starting at the address `t`. */
  function BlockOf(startAddr: seq<nat>, t: nat): (r: Option<nat>)
    ensures r.Some? ==> r.value < |startAddr| && startAddr[r.value] == t
    ensures r.None? ==> t !in startAddr
  {
    if startAddr == [] then None
    else if startAddr[|startAddr| - 1] == t then Some(|startAddr| - 1)
    else BlockOf(startAddr[..|startAddr| - 1], t)
  }

  /** The walk of a block so far: the state, the edges out, the calls recorded. */
  datatype Walk<S, T> = Walk(st: S, out: Edges<S>, snaps: seq<(nat, T)>, falls: bool)

  /** `out` with the state `s` on the edge to `to`, joined with the one there. */
  ghost function AddEdge<S, T>(f: Flow<S, T>, out: Edges<S>, to: nat, s: S): Edges<S> {
    match Find(out, to)
    case Some(prev) => Put(out, to, f.join(prev, s))
    case None => Put(out, to, s)
  }

  ghost function JumpEdge<S, T>(p: Problem<S, T>, op: PcodeOp, w: Walk<S, T>): Edges<S> {
    match Target(op)
    case None => w.out
    case Some(t) =>
      match BlockOf(p.cfg.startAddr, t)
      case None => w.out
      case Some(k) => AddEdge(p.flow, w.out, k, w.st)
  }

  /** One op of instruction `i`. */
  ghost function WalkOp<S, T>(p: Problem<S, T>, i: nat, op: PcodeOp, w: Walk<S, T>): Walk<S, T>
    requires i < |p.insns|
  {
    if IsCall(op) then
      w.(snaps := if p.want(i) then w.snaps + [(p.insns[i].address, p.flow.snapshot(w.st))] else w.snaps,
         st := p.flow.afterCall(w.st))
    else if IsJump(op) then w.(out := JumpEdge(p, op, w), falls := w.falls && op.opcode != Branch)
    else if IsStop(op) then w.(falls := false)
    else w.(st := p.flow.apply(w.st, op))
  }

  /** The first `k` ops of instruction `i`. */
  ghost function WalkOps<S, T>(p: Problem<S, T>, i: nat, k: nat, w: Walk<S, T>): Walk<S, T>
    requires i < |p.insns| && k <= |p.insns[i].ops|
  {
    if k == 0 then w else WalkOp(p, i, p.insns[i].ops[k - 1], WalkOps(p, i, k - 1, w))
  }

  /** The instructions `from..to`, up to one that stops the fall-through. */
  ghost function WalkInsns<S, T>(p: Problem<S, T>, from: nat, to: nat, w: Walk<S, T>): Walk<S, T>
    requires from <= to <= |p.insns|
  {
    if from == to then w
    else
      var v := WalkInsns(p, from, to - 1, w);
      if v.falls then WalkOps(p, to - 1, |p.insns[to - 1].ops|, v) else v
  }

  lemma WholeInsn<S, T>(p: Problem<S, T>, from: nat, i: nat, w: Walk<S, T>)
    requires from <= i < |p.insns| && WalkInsns(p, from, i, w).falls
    ensures WalkInsns(p, from, i + 1, w) == WalkOps(p, i, |p.insns[i].ops|, WalkInsns(p, from, i, w))
  {
  }

  /** The walk of block `b` from the state `s`, with the edge it falls through. */
  ghost function WalkBlock<S, T>(p: Problem<S, T>, b: nat, s: S): Walk<S, T>
    requires p.Valid() && b < p.Count()
  {
    BlockOrder(p, b);
    var w := WalkInsns(p, p.cfg.start[b], p.End(b), Walk(s, [], [], true));
    if w.falls && p.HasNext(b) then w.(out := AddEdge(p.flow, w.out, b + 1, w.st)) else w
  }

  lemma BlockOrder<S, T>(p: Problem<S, T>, b: nat)
    requires p.Valid() && b < p.Count()
    ensures p.cfg.start[b] <= p.End(b) <= |p.insns| && (!p.cfg.legacy ==> p.cfg.start[b] < p.End(b))
  {
  }

  /** What a run keeps: the edges into each block, its visits, whether it is walked no more,
      the blocks to walk and the snapshots recorded. */
  datatype State<S, T> = State(
    into: seq<Edges<S>>,
    visits: seq<nat>,
    saturated: seq<bool>,
    work: seq<nat>,
    snaps: seq<(nat, T)>)

  /** A left fold of `join` over the edges from `i` on. */
  function JoinFrom<S, T>(f: Flow<S, T>, acc: S, es: Edges<S>, i: nat): S
    requires i <= |es|
    decreases |es| - i
  {
    if i == |es| then acc else JoinFrom(f, f.join(acc, es[i].1), es, i + 1)
  }

  function JoinAll<S, T>(f: Flow<S, T>, es: Edges<S>): S
    requires es != []
  {
    JoinFrom(f, es[0].1, es, 1)
  }

  ghost predicate Shaped<S, T>(p: Problem<S, T>, st: State<S, T>) {
    && p.Valid()
    && |st.into| == |st.visits| == |st.saturated| == p.Count()
    && (forall b | 0 <= b < p.Count() :: Ascending(st.into[b]))
    && (forall i | 0 <= i < |st.work| :: st.work[i] < p.Count())
    && (forall i, j | 0 <= i < j < |st.work| :: st.work[i] != st.work[j])
  }

  /** The state `s` put on the edge from `b` to `to`; `to` queued when that changes it. */
  ghost function DeliverOne<S, T>(p: Problem<S, T>, b: nat, to: nat, s: S, st: State<S, T>): (r: State<S, T>)
    requires Shaped(p, st) && to < p.Count()
    ensures Shaped(p, r)
  {
    if !p.Relevant(to) || Find(st.into[to], b) == Some(s) then st
    else
      PutFacts(st.into[to], b, s);
      st.(into := st.into[to := Put(st.into[to], b, s)],
          work := if to in st.work then st.work else st.work + [to])
  }

  /** The edges `out[i..]` of block `b`. */
  ghost function Deliver<S, T>(p: Problem<S, T>, b: nat, out: Edges<S>, i: nat, st: State<S, T>): (r: State<S, T>)
    requires Shaped(p, st) && Below(out, p.Count()) && i <= |out|
    ensures Shaped(p, r)
    decreases |out| - i
  {
    if i == |out| then st
    else Deliver(p, b, out, i + 1, DeliverOne(p, b, out[i].0, out[i].1, st))
  }

  /** Block `b` walked from `s`. */
  ghost function Emit<S, T>(p: Problem<S, T>, b: nat, s: S, st: State<S, T>): (r: State<S, T>)
    requires Shaped(p, st) && b < p.Count()
    ensures Shaped(p, r)
  {
    var w := WalkBlock(p, b, s);
    WalkBelow(p, b, s);
    Deliver(p, b, w.out, 0, st.(snaps := st.snaps + w.snaps))
  }

  /** The first block of the worklist taken. */
  ghost function Step<S, T>(p: Problem<S, T>, st: State<S, T>): (r: State<S, T>)
    requires Shaped(p, st) && st.work != []
    ensures Shaped(p, r)
  {
    var b := st.work[0];
    var popped := st.(work := st.work[1..]);
    if st.saturated[b] then popped
    else
      var v := st.visits[b] + 1;
      var st1 := popped.(visits := st.visits[b := v]);
      if p.Rooted(b) then Emit(p, b, p.flow.empty, st1)
      else if v > MAX_VISITS then Emit(p, b, p.flow.empty, st1.(saturated := st.saturated[b := true]))
      else if st.into[b] == [] then st1
      else Emit(p, b, JoinAll(p.flow, st.into[b]), st1)
  }

  /** The blocks to walk first: the entry, then those entered from somewhere unknown among the
      first `n`, ascending. */
  function Roots(p: Problem, n: nat): seq<nat>
    requires n <= |p.cfg.unknown| && (p.cfg.relevant.Some? ==> n <= |p.cfg.relevant.value| && p.cfg.entry < |p.cfg.relevant.value|)
  {
    if n == 0 then (if p.Relevant(p.cfg.entry) then [p.cfg.entry] else [])
    else Roots(p, n - 1) + if p.cfg.unknown[n - 1] && n - 1 != p.cfg.entry && p.Relevant(n - 1) then [n - 1] else []
  }

  lemma {:induction false} RootsFacts(p: Problem, n: nat)
    requires n <= |p.cfg.unknown| && p.cfg.entry < |p.cfg.unknown|
    requires p.cfg.relevant.Some? ==> |p.cfg.unknown| == |p.cfg.relevant.value|
    ensures var r := Roots(p, n);
      && (forall i | 0 <= i < |r| :: (r[i] < n || r[i] == p.cfg.entry) && r[i] < |p.cfg.unknown| && p.Rooted(r[i]) && p.Relevant(r[i]))
      && (forall i, j | 0 <= i < j < |r| :: r[i] != r[j])
      && (forall b | 0 <= b < |p.cfg.unknown| && (b < n || b == p.cfg.entry) && p.Rooted(b) && p.Relevant(b) :: b in r)
      && |r| <= if p.cfg.entry < n then n else n + 1
  {
    if n > 0 { RootsFacts(p, n - 1); }
  }

  ghost function Initial<S, T>(p: Problem<S, T>): (r: State<S, T>)
    requires p.Valid()
    ensures Shaped(p, r)
  {
    var n := p.Count();
    RootsFacts(p, n);
    State(seq(n, _ => []), seq(n, _ => 0), seq(n, _ => false), Roots(p, n), [])
  }

  // ---- the edges out of a walk

  ghost predicate GoodOut<S>(out: Edges<S>, n: nat) {
    Ascending(out) && Below(out, n)
  }

  lemma AddEdgeFacts<S, T>(f: Flow<S, T>, out: Edges<S>, to: nat, s: S, n: nat)
    requires GoodOut(out, n) && to < n
    ensures GoodOut(AddEdge(f, out, to, s), n)
  {
    match Find(out, to)
    case Some(prev) => PutFacts(out, to, f.join(prev, s));
    case None => PutFacts(out, to, s);
  }

  lemma {:induction false} OpsBelow<S, T>(p: Problem<S, T>, i: nat, k: nat, w: Walk<S, T>)
    requires |p.cfg.startAddr| == p.Count() && i < |p.insns| && k <= |p.insns[i].ops| && GoodOut(w.out, p.Count())
    ensures GoodOut(WalkOps(p, i, k, w).out, p.Count())
  {
    if k > 0 {
      OpsBelow(p, i, k - 1, w);
      var v, op := WalkOps(p, i, k - 1, w), p.insns[i].ops[k - 1];
      match Target(op)
      case None =>
      case Some(t) =>
        match BlockOf(p.cfg.startAddr, t)
        case None =>
        case Some(j) => AddEdgeFacts(p.flow, v.out, j, v.st, p.Count());
    }
  }

  lemma {:induction false} InsnsBelow<S, T>(p: Problem<S, T>, from: nat, to: nat, w: Walk<S, T>)
    requires |p.cfg.startAddr| == p.Count() && from <= to <= |p.insns| && GoodOut(w.out, p.Count())
    ensures GoodOut(WalkInsns(p, from, to, w).out, p.Count())
  {
    if from < to {
      InsnsBelow(p, from, to - 1, w);
      OpsBelow(p, to - 1, |p.insns[to - 1].ops|, WalkInsns(p, from, to - 1, w));
    }
  }

  lemma WalkBelow<S, T>(p: Problem<S, T>, b: nat, s: S)
    requires p.Valid() && b < p.Count()
    ensures GoodOut(WalkBlock(p, b, s).out, p.Count())
  {
    BlockOrder(p, b);
    var w := Walk(s, [], [], true);
    InsnsBelow(p, p.cfg.start[b], p.End(b), w);
    var v := WalkInsns(p, p.cfg.start[b], p.End(b), w);
    if p.HasNext(b) { AddEdgeFacts(p.flow, v.out, b + 1, v.st, p.Count()); }
  }
}
