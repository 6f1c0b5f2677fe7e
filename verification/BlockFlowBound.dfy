/**
 The static edges of the blocks, and how many blocks a run can take.
 */
module BlockFlowBound {
  import opened Pcode
  import opened EdgeList
  import opened BlockFlow
  import opened BlockFlowRun

  // ---- static edges

  /** An op of the block leaves without falling through. */
  ghost predicate Stops<S, T>(p: Problem<S, T>, b: nat)
    requires p.Valid() && b < p.Count()
  {
    exists i, k :: 0 <= p.cfg.start[b] <= i < p.End(b) && i < |p.insns| && 0 <= k < |p.insns[i].ops| && IsStop(p.insns[i].ops[k])
  }

  /** The static successors hold every edge a walk can make. */
  ghost predicate Linked<S, T>(p: Problem<S, T>) {
    && p.Valid()
    && (forall b, i, k | 0 <= b < p.Count() && p.cfg.start[b] <= i < p.End(b) && i < |p.insns| && 0 <= k < |p.insns[i].ops| ::
          JumpLinked(p, b, p.insns[i].ops[k]))
    && (forall b | 0 <= b < p.Count() - 1 && !Stops(p, b) :: b + 1 in p.cfg.succs[b])
  }

  ghost predicate JumpLinked<S, T>(p: Problem<S, T>, b: nat, op: PcodeOp)
    requires b < |p.cfg.succs|
  {
    IsJump(op) && Target(op).Some? && BlockOf(p.cfg.startAddr, Target(op).value).Some? ==>
      BlockOf(p.cfg.startAddr, Target(op).value).value in p.cfg.succs[b]
  }

  ghost predicate KeysIn<S>(out: Edges<S>, ks: seq<nat>) {
    forall i | 0 <= i < |out| :: out[i].0 in ks
  }

  lemma AddEdgeKeys<S, T>(f: Flow<S, T>, out: Edges<S>, to: nat, s: S, ks: seq<nat>)
    requires KeysIn(out, ks) && to in ks
    ensures KeysIn(AddEdge(f, out, to, s), ks)
  {
  }

  /** Instruction `i` does not stop the fall-through. */
  ghost predicate NoStop(insns: seq<Insn>, i: nat) {
    i < |insns| && forall k | 0 <= k < |insns[i].ops| :: !IsStop(insns[i].ops[k])
  }

  lemma OpKeys<S, T>(p: Problem<S, T>, b: nat, i: nat, op: PcodeOp, w: Walk<S, T>)
    requires b < |p.cfg.succs| && i < |p.insns| && JumpLinked(p, b, op) && KeysIn(w.out, p.cfg.succs[b])
    ensures KeysIn(WalkOp(p, i, op, w).out, p.cfg.succs[b])
  {
    match Target(op)
    case None =>
    case Some(t) =>
      match BlockOf(p.cfg.startAddr, t)
      case None =>
      case Some(j) => if IsJump(op) { AddEdgeKeys(p.flow, w.out, j, w.st, p.cfg.succs[b]); }
  }

  lemma {:induction false} OpsKeys<S, T>(p: Problem<S, T>, b: nat, i: nat, k: nat, w: Walk<S, T>)
    requires Linked(p) && b < p.Count() && p.cfg.start[b] <= i < p.End(b) && i < |p.insns| && k <= |p.insns[i].ops|
    requires KeysIn(w.out, p.cfg.succs[b])
    ensures KeysIn(WalkOps(p, i, k, w).out, p.cfg.succs[b])
  {
    if k > 0 {
      OpsKeys(p, b, i, k - 1, w);
      assert JumpLinked(p, b, p.insns[i].ops[k - 1]);
      OpKeys(p, b, i, p.insns[i].ops[k - 1], WalkOps(p, i, k - 1, w));
    }
  }

  lemma {:induction false} InsnsKeys<S, T>(p: Problem<S, T>, b: nat, end: nat, w: Walk<S, T>)
    requires Linked(p) && b < p.Count() && p.cfg.start[b] <= end <= p.End(b) && end <= |p.insns|
    requires KeysIn(w.out, p.cfg.succs[b])
    ensures KeysIn(WalkInsns(p, p.cfg.start[b], end, w).out, p.cfg.succs[b])
    decreases end
  {
    if p.cfg.start[b] < end {
      InsnsKeys(p, b, end - 1, w);
      OpsKeys(p, b, end - 1, |p.insns[end - 1].ops|, WalkInsns(p, p.cfg.start[b], end - 1, w));
    }
  }

  lemma {:induction false} OpsFall<S, T>(p: Problem<S, T>, i: nat, k: nat, w: Walk<S, T>)
    requires i < |p.insns| && k <= |p.insns[i].ops| && WalkOps(p, i, k, w).falls
    ensures w.falls && forall l | 0 <= l < k :: !IsStop(p.insns[i].ops[l])
  {
    if k > 0 { OpsFall(p, i, k - 1, w); }
  }

  lemma {:induction false} InsnsFall<S, T>(p: Problem<S, T>, from: nat, end: nat, w: Walk<S, T>)
    requires from <= end <= |p.insns| && WalkInsns(p, from, end, w).falls
    ensures forall i | from <= i < end :: NoStop(p.insns, i)
    decreases end
  {
    if from < end {
      LastFell(p, from, end, w);
      InsnsFall(p, from, end - 1, w);
    }
  }

  lemma LastFell<S, T>(p: Problem<S, T>, from: nat, end: nat, w: Walk<S, T>)
    requires from < end <= |p.insns| && WalkInsns(p, from, end, w).falls
    ensures WalkInsns(p, from, end - 1, w).falls && NoStop(p.insns, end - 1)
  {
    var v := WalkInsns(p, from, end - 1, w);
    assert v.falls;
    OpsFall(p, end - 1, |p.insns[end - 1].ops|, v);
  }

  lemma NeverStops<S, T>(p: Problem<S, T>, b: nat)
    requires p.Valid() && b < p.Count() && forall i | p.cfg.start[b] <= i < p.End(b) :: NoStop(p.insns, i)
    ensures !Stops(p, b)
  {
    forall i, k | p.cfg.start[b] <= i < p.End(b) && i < |p.insns| && 0 <= k < |p.insns[i].ops| ensures !IsStop(p.insns[i].ops[k]) {
      assert NoStop(p.insns, i);
    }
  }

  /** Every edge out of a walk of a block is a static one. */
  lemma WalkKeys<S, T>(p: Problem<S, T>, b: nat, s: S)
    requires Linked(p) && b < p.Count()
    ensures KeysIn(WalkBlock(p, b, s).out, p.cfg.succs[b])
  {
    BlockOrder(p, b);
    var w0: Walk<S, T> := Walk(s, [], [], true);
    InsnsKeys(p, b, p.End(b), w0);
    var w := WalkInsns(p, p.cfg.start[b], p.End(b), w0);
    if w.falls && b + 1 < p.Count() {
      InsnsFall(p, p.cfg.start[b], p.End(b), w0);
      NeverStops(p, b);
      AddEdgeKeys(p.flow, w.out, b + 1, w.st, p.cfg.succs[b]);
    }
  }

  // ---- how many blocks are taken

  lemma {:induction false} Distinct(xs: seq<nat>, ys: seq<nat>)
    requires forall i, j | 0 <= i < j < |xs| :: xs[i] != xs[j]
    requires forall i | 0 <= i < |xs| :: xs[i] in ys
    ensures |xs| <= |ys|
  {
    if xs != [] {
      var x := xs[|xs| - 1];
      var k :| 0 <= k < |ys| && ys[k] == x;
      var rest := ys[..k] + ys[k + 1..];
      var front := xs[..|xs| - 1];
      forall i | 0 <= i < |front| ensures front[i] in rest {
        var l :| 0 <= l < |ys| && ys[l] == xs[i];
        assert rest[if l < k then l else l - 1] == xs[i];
      }
      Distinct(front, rest);
    }
  }

  lemma OutAtMostSuccs<S, T>(p: Problem<S, T>, b: nat, s: S)
    requires Linked(p) && b < p.Count()
    ensures |WalkBlock(p, b, s).out| <= |p.cfg.succs[b]|
  {
    WalkKeys(p, b, s);
    WalkBelow(p, b, s);
    var out := WalkBlock(p, b, s).out;
    Distinct(seq(|out|, i requires 0 <= i < |out| => out[i].0), p.cfg.succs[b]);
  }

  /** Static edges out of the first `n` blocks. */
  ghost function EdgeCount(succs: seq<seq<nat>>, n: nat): nat
    requires n <= |succs|
  {
    if n == 0 then 0 else EdgeCount(succs, n - 1) + |succs[n - 1]|
  }

  /** Edges the walks left can still change. */
  ghost function EdgesLeft<S, T>(p: Problem<S, T>, visits: seq<nat>, n: nat): nat
    requires n <= |visits| && n <= |p.cfg.unknown| && n <= |p.cfg.succs|
  {
    if n == 0 then 0 else EdgesLeft(p, visits, n - 1) + LeftAt(p, visits, n - 1) * |p.cfg.succs[n - 1]|
  }

  lemma {:induction false} EdgesLeftUpdate<S, T>(p: Problem<S, T>, visits: seq<nat>, b: nat, v: nat, n: nat)
    requires n <= |visits| && n <= |p.cfg.unknown| && n <= |p.cfg.succs| && b < |visits| && b < |p.cfg.unknown| && b < |p.cfg.succs|
    ensures EdgesLeft(p, visits[b := v], n) == EdgesLeft(p, visits, n)
      + if b < n then LeftAt(p, visits[b := v], b) * |p.cfg.succs[b]| - LeftAt(p, visits, b) * |p.cfg.succs[b]| else 0
  {
    if n > 0 { EdgesLeftUpdate(p, visits, b, v, n - 1); }
  }

  lemma {:induction false} EdgesLeftAtMost<S, T>(p: Problem<S, T>, visits: seq<nat>, n: nat)
    requires n <= |visits| && n <= |p.cfg.unknown| && n <= |p.cfg.succs|
    ensures EdgesLeft(p, visits, n) <= (MAX_VISITS + 1) * EdgeCount(p.cfg.succs, n)
  {
    if n > 0 {
      EdgesLeftAtMost(p, visits, n - 1);
      assert LeftAt(p, visits, n - 1) * |p.cfg.succs[n - 1]| <= (MAX_VISITS + 1) * |p.cfg.succs[n - 1]|;
    }
  }

  lemma StepPotential<S, T>(p: Problem<S, T>, st: State<S, T>)
    requires Linked(p) && Inv(p, st) && st.work != []
    ensures var r, n := Step(p, st), p.Count();
      1 + |r.work| + EdgesLeft(p, r.visits, n) <= |st.work| + EdgesLeft(p, st.visits, n)
  {
    var b := st.work[0];
    StepWork(p, st);
    if !st.saturated[b] {
      OutAtMostSuccs(p, b, Entry(p, Popped(p, st), b));
      var r := Step(p, st);
      WalkPotential(p, st.visits, r.visits, b, |st.work|, |r.work|);
    }
  }

  /** A walk of a block queues no more blocks than it has edges, each counted once less. */
  lemma WalkPotential<S, T>(p: Problem<S, T>, visits: seq<nat>, visits': seq<nat>, b: nat, work: nat, work': nat)
    requires b < |visits| == p.Count() && p.Valid() && visits' == visits[b := visits[b] + 1]
    requires 0 < work && work' <= work - 1 + |p.cfg.succs[b]|
    requires p.Rooted(b) && visits[b] > 0 ==> work' == work - 1
    requires !p.Rooted(b) ==> visits[b] <= MAX_VISITS
    ensures 1 + work' + EdgesLeft(p, visits', p.Count()) <= work + EdgesLeft(p, visits, p.Count())
  {
    EdgesLeftUpdate(p, visits, b, visits[b] + 1, p.Count());
    OneWalkLess(LeftAt(p, visits', b), LeftAt(p, visits, b), |p.cfg.succs[b]|);
  }

  lemma OneWalkLess(after: nat, before: nat, deg: nat)
    ensures before == after + 1 ==> before * deg == after * deg + deg
    ensures before == after ==> before * deg == after * deg
  {
  }

  lemma {:induction false} PopsBelowPotential<S, T>(p: Problem<S, T>, st: State<S, T>)
    requires Linked(p) && Inv(p, st)
    ensures Pops(p, st) <= |st.work| + EdgesLeft(p, st.visits, p.Count())
    decreases Left(p, st.visits, p.Count()), |st.work|
  {
    if st.work != [] {
      StepKeeps(p, st);
      StepDecreases(p, st);
      StepPotential(p, st);
      PopsBelowPotential(p, Step(p, st));
    }
  }

  /** A run takes at most as many blocks as there are blocks, plus nine times the static
      edges. */
  lemma PopsAreBounded<S, T>(p: Problem<S, T>)
    requires Linked(p)
    ensures Inv(p, Initial(p)) && Pops(p, Initial(p)) <= p.Count() + (MAX_VISITS + 1) * EdgeCount(p.cfg.succs, p.Count())
  {
    InitialInv(p);
    var start := Initial(p);
    PopsBelowPotential(p, start);
    EdgesLeftAtMost(p, start.visits, p.Count());
  }

  /** A block not walked from the empty state is walked at most nine times. */
  lemma VisitsAreBounded<S, T>(p: Problem<S, T>, st: State<S, T>, b: nat)
    requires Inv(p, st) && b < p.Count() && !p.Rooted(b)
    ensures Run(p, st).visits[b] <= MAX_VISITS + 1
  {
    var fin := Run(p, st);
    assert BlockInv(p, fin, b);
  }
}
