/**
 The flow as it is run: the loop over the worklist, with the blocks jumped to read in op
 order from the block's jumps and a flag per block for being queued.
 */
module BlockFlowLoop {
  import opened Pcode
  import opened EdgeList
  import opened BlockFlow
  import opened BlockFlowRun
  import opened BlockFlowBuild

  /** Each block's jumps are the blocks its targets start, in op order. */
  ghost predicate Aligned<S, T>(p: Problem<S, T>)
    requires p.Valid()
  {
    forall b | 0 <= b < p.Count() ::
      BlockInLift(p, b) && p.cfg.jumps[b] == Resolve(p.cfg.startAddr, TargetsIn(p.insns, p.cfg.start[b], p.End(b)))
  }

  ghost predicate BlockInLift<S, T>(p: Problem<S, T>, b: nat)
    requires p.Valid() && b < p.Count()
  {
    p.cfg.start[b] <= p.End(b) <= |p.insns|
  }

  /** The place of `k` in `es` and whether it is there: a binary search. */
  method SearchEdge<S>(es: Edges<S>, k: nat) returns (i: nat, found: bool)
    requires Ascending(es)
    ensures i == Place(es, k) && (found <==> i < |es| && es[i].0 == k)
  {
    var lo, hi := 0, |es|;
    while lo < hi
      invariant lo <= hi <= |es|
      invariant forall j | 0 <= j < lo :: es[j].0 < k
      invariant forall j | hi <= j < |es| :: k <= es[j].0
    {
      var mid := (lo + hi) / 2;
      if es[mid].0 < k { lo := mid + 1; } else { hi := mid; }
    }
    PlaceUnique(es, k, lo);
    i := lo;
    found := i < |es| && es[i].0 == k;
  }

  method AddToEdge<S, T>(f: Flow<S, T>, out: Edges<S>, to: nat, s: S) returns (r: Edges<S>)
    requires Ascending(out)
    ensures r == AddEdge(f, out, to, s)
  {
    var i, found := SearchEdge(out, to);
    if found {
      r := out[i := (to, f.join(out[i].1, s))];
    } else {
      r := out[..i] + [(to, s)] + out[i..];
    }
  }

  method JoinEdges<S, T>(f: Flow<S, T>, es: Edges<S>) returns (s: S)
    requires es != []
    ensures s == JoinAll(f, es)
  {
    s := es[0].1;
    var i := 1;
    while i < |es|
      invariant 1 <= i <= |es|
      invariant JoinFrom(f, s, es, i) == JoinAll(f, es)
    {
      s := f.join(s, es[i].1);
      i := i + 1;
    }
  }

  lemma {:induction false} TargetsPrefix(ops: seq<PcodeOp>, k: nat)
    requires k <= |ops|
    ensures Targets(ops[..k]) <= Targets(ops)
    decreases |ops|
  {
    if k < |ops| {
      var front := ops[..|ops| - 1];
      assert front[..k] == ops[..k];
      TargetsPrefix(front, k);
    } else {
      assert ops[..k] == ops;
    }
  }

  lemma {:induction false} TargetsInPrefix(lift: seq<Insn>, from: nat, i: nat, end: nat)
    requires from <= i <= end <= |lift|
    ensures TargetsIn(lift, from, i) <= TargetsIn(lift, from, end)
    decreases end
  {
    if i < end { TargetsInPrefix(lift, from, i, end - 1); }
  }

  /** The target of op `k` of instruction `i` comes after those before it in the block. */
  lemma NextTarget(lift: seq<Insn>, from: nat, end: nat, i: nat, k: nat)
    requires from <= i < end <= |lift| && k < |lift[i].ops|
    ensures var before, op := TargetsIn(lift, from, i) + Targets(lift[i].ops[..k]), lift[i].ops[k];
      && Targets(lift[i].ops[..k + 1]) == Targets(lift[i].ops[..k]) + (if IsJump(op) && Target(op).Some? then [Target(op).value] else [])
      && (IsJump(op) && Target(op).Some? ==>
            |before| < |TargetsIn(lift, from, end)| && TargetsIn(lift, from, end)[|before|] == Target(op).value)
  {
    var ops := lift[i].ops;
    assert ops[..k + 1][..k] == ops[..k];
    TargetsPrefix(ops, k + 1);
    TargetsInPrefix(lift, from, i + 1, end);
    assert TargetsIn(lift, from, i + 1) == TargetsIn(lift, from, i) + Targets(ops);
  }

  /** One op of instruction `i`, `to` the block a jump goes to. */
  method WalkOne<S, T>(p: Problem<S, T>, i: nat, op: PcodeOp, to: Option<nat>, w: Walk<S, T>) returns (v: Walk<S, T>)
    requires i < |p.insns| && Ascending(w.out)
    requires IsJump(op) ==> to == if Target(op).Some? then BlockOf(p.cfg.startAddr, Target(op).value) else None
    ensures v == WalkOp(p, i, op, w)
  {
    v := w;
    if IsCall(op) {
      if p.want(i) {
        v := v.(snaps := v.snaps + [(p.insns[i].address, p.flow.snapshot(v.st))]);
      }
      v := v.(st := p.flow.afterCall(v.st));
    } else if IsJump(op) {
      if to.Some? {
        var out := AddToEdge(p.flow, v.out, to.value, v.st);
        v := v.(out := out);
      }
      v := v.(falls := v.falls && op.opcode != Branch);
    } else if IsStop(op) {
      v := v.(falls := false);
    } else {
      v := v.(st := p.flow.apply(v.st, op));
    }
  }

  /** One instruction of a block walked, its jumps read from the block's from `next` on. */
  method WalkInsn<S, T>(p: Problem<S, T>, i: nat, jumps: seq<Option<nat>>, next: nat, w: Walk<S, T>,
      ghost from: nat, ghost end: nat) returns (v: Walk<S, T>, after: nat)
    requires |p.cfg.startAddr| == p.Count() && from <= i < end <= |p.insns| && GoodOut(w.out, p.Count())
    requires jumps == Resolve(p.cfg.startAddr, TargetsIn(p.insns, from, end))
    requires next == |TargetsIn(p.insns, from, i)|
    ensures v == WalkOps(p, i, |p.insns[i].ops|, w) && after == |TargetsIn(p.insns, from, i + 1)|
  {
    var ops := p.insns[i].ops;
    v, after := w, next;
    assert ops[..0] == [];
    var k := 0;
    while k < |ops|
      invariant 0 <= k <= |ops|
      invariant v == WalkOps(p, i, k, w) && GoodOut(v.out, p.Count())
      invariant after == next + |Targets(ops[..k])|
    {
      OpsBelow(p, i, k + 1, w);
      var to;
      to, after := NextJump(p, i, k, jumps, next, after, from, end);
      v := WalkOne(p, i, ops[k], to, v);
      k := k + 1;
    }
    assert ops[..k] == ops;
  }

  /** The block op `k` jumps to, read from the block's jumps at `at`. */
  method NextJump<S, T>(p: Problem<S, T>, i: nat, k: nat, jumps: seq<Option<nat>>, ghost next: nat, at: nat, ghost from: nat, ghost end: nat)
    returns (to: Option<nat>, after: nat)
    requires from <= i < end <= |p.insns| && k < |p.insns[i].ops|
    requires jumps == Resolve(p.cfg.startAddr, TargetsIn(p.insns, from, end))
    requires next == |TargetsIn(p.insns, from, i)| && at == next + |Targets(p.insns[i].ops[..k])|
    ensures var op := p.insns[i].ops[k];
      IsJump(op) ==> to == if Target(op).Some? then BlockOf(p.cfg.startAddr, Target(op).value) else None
    ensures after == next + |Targets(p.insns[i].ops[..k + 1])|
  {
    var op := p.insns[i].ops[k];
    NextTarget(p.insns, from, end, i, k);
    to, after := None, at;
    if IsJump(op) && Target(op).Some? {
      to, after := jumps[at], at + 1;
    }
  }

  /** The instructions `from..end` of a block walked, up to one that stops. */
  method WalkAll<S, T>(p: Problem<S, T>, from: nat, end: nat, jumps: seq<Option<nat>>, s: S) returns (w: Walk<S, T>)
    requires |p.cfg.startAddr| == p.Count() && from <= end <= |p.insns|
    requires jumps == Resolve(p.cfg.startAddr, TargetsIn(p.insns, from, end))
    ensures w == WalkInsns(p, from, end, Walk(s, [], [], true)) && GoodOut(w.out, p.Count())
  {
    ghost var w0: Walk<S, T> := Walk(s, [], [], true);
    w := Walk(s, [], [], true);
    var next, i := 0, from;
    while i < end && w.falls
      invariant from <= i <= end
      invariant w == WalkInsns(p, from, i, w0) && GoodOut(w.out, p.Count())
      invariant next == |TargetsIn(p.insns, from, i)|
    {
      InsnsBelow(p, from, i + 1, w0);
      WholeInsn(p, from, i, w0);
      w, next := WalkInsn(p, i, jumps, next, w, from, end);
      i := i + 1;
    }
    StoppedWalk(p, from, i, end, w0);
  }

  /** One block walked from `s`: its edges out and the calls recorded. */
  method WalkWhole<S, T>(p: Problem<S, T>, b: nat, s: S) returns (w: Walk<S, T>)
    requires p.Valid() && Aligned(p) && b < p.Count()
    ensures w == WalkBlock(p, b, s)
  {
    assert BlockInLift(p, b);
    w := WalkAll(p, p.cfg.start[b], p.End(b), p.cfg.jumps[b], s);
    if w.falls && p.HasNext(b) {
      var out := AddToEdge(p.flow, w.out, b + 1, w.st);
      w := w.(out := out);
    }
  }

  /** A walk that stopped goes no further. */
  lemma {:induction false} StoppedWalk<S, T>(p: Problem<S, T>, from: nat, i: nat, end: nat, w: Walk<S, T>)
    requires from <= i <= end <= |p.insns| && (i < end ==> !WalkInsns(p, from, i, w).falls)
    ensures WalkInsns(p, from, end, w) == WalkInsns(p, from, i, w)
    decreases end
  {
    if i < end { StoppedWalk(p, from, i, end - 1, w); }
  }

  /** The queued flags say what is in the worklist. */
  ghost predicate QueuedOk(queued: seq<bool>, work: seq<nat>) {
    forall b | 0 <= b < |queued| :: queued[b] <==> b in work
  }

  /** The edges out of `b` delivered: a state is kept when it changes its edge, and the block
      it goes to queued when it is not. */
  method DeliverAll<S(==), T>(p: Problem<S, T>, b: nat, out: Edges<S>, into: seq<Edges<S>>, queued: seq<bool>, work: seq<nat>,
      ghost st: State<S, T>) returns (into': seq<Edges<S>>, queued': seq<bool>, work': seq<nat>)
    requires Shaped(p, st) && st.into == into && st.work == work && |queued| == p.Count() && QueuedOk(queued, work)
    requires GoodOut(out, p.Count())
    ensures Deliver(p, b, out, 0, st) == st.(into := into', work := work')
    ensures |queued'| == p.Count() && QueuedOk(queued', work')
  {
    into', queued', work' := into, queued, work;
    ghost var cur := st;
    var i := 0;
    while i < |out|
      invariant 0 <= i <= |out|
      invariant Shaped(p, cur) && cur == st.(into := into', work := work')
      invariant Deliver(p, b, out, 0, st) == Deliver(p, b, out, i, cur)
      invariant |queued'| == p.Count() && QueuedOk(queued', work')
    {
      var to, s := out[i].0, out[i].1;
      ghost var next := DeliverOne(p, b, to, s, cur);
      if p.Relevant(to) {
        var es := into'[to];
        var k, found := SearchEdge(es, b);
        if !(found && es[k].1 == s) {
          into' := into'[to := if found then es[k := (b, s)] else es[..k] + [(b, s)] + es[k..]];
          if !queued'[to] {
            queued' := queued'[to := true];
            work' := work' + [to];
          }
        }
      }
      cur := next;
      i := i + 1;
    }
  }

  /** The blocks entered from somewhere unknown and the entry, those to walk. */
  method FirstBlocks(p: Problem) returns (work: seq<nat>, queued: seq<bool>)
    requires p.Valid()
    ensures work == Roots(p, p.Count()) && |queued| == p.Count() && QueuedOk(queued, work)
  {
    work, queued := [], seq(p.Count(), _ => false);
    if p.Relevant(p.cfg.entry) {
      work, queued := [p.cfg.entry], queued[p.cfg.entry := true];
    }
    var b := 0;
    while b < p.Count()
      invariant 0 <= b <= p.Count() && work == Roots(p, b)
      invariant |queued| == p.Count() && QueuedOk(queued, work)
    {
      if p.cfg.unknown[b] && b != p.cfg.entry && p.Relevant(b) {
        work := work + [b];
        queued := queued[b := true];
      }
      b := b + 1;
    }
  }

  /** The state a block taken, its visit counted, is walked from; at the cap it is saturated. */
  method Visit<S, T>(p: Problem<S, T>, b: nat, st: State<S, T>) returns (q: State<S, T>, s: S)
    requires Inv(p, st) && st.work != [] && b == st.work[0] && !st.saturated[b]
    ensures q == Popped(p, st) && s == Entry(p, q, b)
  {
    assert BlockInv(p, st, b);
    var v := st.visits[b] + 1;
    q := st.(work := st.work[1..], visits := st.visits[b := v]);
    s := p.flow.empty;
    if !p.Rooted(b) {
      if v > MAX_VISITS {
        q := q.(saturated := q.saturated[b := true]);
      } else {
        s := JoinEdges(p.flow, st.into[b]);
      }
    }
  }

  /** One block taken from the worklist. */
  method TakeBlock<S(==), T>(p: Problem<S, T>, st: State<S, T>, queued: seq<bool>) returns (r: State<S, T>, queued': seq<bool>)
    requires Inv(p, st) && st.work != [] && Aligned(p) && |queued| == p.Count() && QueuedOk(queued, st.work)
    ensures r == Step(p, st) && |queued'| == p.Count() && QueuedOk(queued', r.work)
  {
    var b := st.work[0];
    queued' := queued[b := false];
    if st.saturated[b] {
      r := st.(work := st.work[1..]);
    } else {
      var q, s := Visit(p, b, st);
      StepIsEmit(p, st);
      var w := WalkWhole(p, b, s);
      WalkBelow(p, b, s);
      q := q.(snaps := q.snaps + w.snaps);
      var into, work;
      into, queued', work := DeliverAll(p, b, w.out, q.into, queued', q.work, q);
      r := q.(into := into, work := work);
    }
  }

  /** The flow: the snapshots recorded until the worklist is empty. */
  method Propagate<S(==), T>(p: Problem<S, T>) returns (snaps: seq<(nat, T)>)
    requires p.Valid() && Aligned(p)
    ensures Inv(p, Initial(p)) && snaps == Run(p, Initial(p)).snaps
  {
    InitialInv(p);
    var n := p.Count();
    var work, queued := FirstBlocks(p);
    var st: State<S, T> := State(seq(n, _ => []), seq(n, _ => 0), seq(n, _ => false), work, []);
    while st.work != []
      invariant Inv(p, st) && Run(p, st) == Run(p, Initial(p))
      invariant |queued| == n && QueuedOk(queued, st.work)
      decreases Left(p, st.visits, n), |st.work|
    {
      StepKeeps(p, st);
      StepDecreases(p, st);
      st, queued := TakeBlock(p, st, queued);
    }
    snaps := st.snaps;
  }
}
