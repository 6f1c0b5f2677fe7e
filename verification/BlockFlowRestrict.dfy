/**
 Restricting the flow to the blocks that can reach the wanted calls, over the whole lift or
 over a prefix of it: the same snapshots in the same order.
 */
module BlockFlowRestrict {
  import opened Pcode
  import opened EdgeList
  import opened BlockFlow
  import opened BlockFlowRun
  import opened BlockFlowBound

  /** No block outside `rel` has an edge into one of it. */
  ghost predicate BackClosed(succs: seq<seq<nat>>, rel: seq<bool>) {
    forall b, k | 0 <= b < |succs| && b < |rel| && 0 <= k < |succs[b]| && succs[b][k] < |rel| && rel[succs[b][k]] :: rel[b]
  }

  /** The blocks of `g` are the first ones of `f`, all those of `rel` among them. */
  ghost predicate Covers<S, T>(f: Problem<S, T>, g: Problem<S, T>, rel: seq<bool>) {
    && g.Count() <= f.Count() == |rel| && !f.cfg.legacy && !g.cfg.legacy
    && f.cfg.relevant == None && g.cfg.relevant == Some(rel[..g.Count()])
    && (forall b | g.Count() <= b < |rel| :: !rel[b])
  }

  /** `g` is `f` over its first blocks, restricted to the blocks of `rel`: no block outside
      `rel` has an edge into one of it, and `g` wants what `f` does. */
  ghost predicate Restricts<S, T>(f: Problem<S, T>, g: Problem<S, T>, rel: seq<bool>) {
    var n := g.Count();
    && Linked(f) && g.Valid() && Covers(f, g, rel)
    && f.flow == g.flow && |g.insns| <= |f.insns| && g.insns == f.insns[..|g.insns|]
    && g.cfg.startAddr == f.cfg.startAddr[..n]
    && (forall b | 0 <= b < n && rel[b] :: SameBlock(f, g, b))
    && BackClosed(f.cfg.succs, rel)
    && (forall b, i | 0 <= b < f.Count() && f.cfg.start[b] <= i < f.End(b) :: WantsAlike(f, g, rel, b, i))
    && (forall b, c | 0 <= b < c < f.Count() :: f.cfg.startAddr[b] != f.cfg.startAddr[c])
  }

  /** Block `b` is the same block of both. */
  ghost predicate SameBlock<S, T>(f: Problem<S, T>, g: Problem<S, T>, b: nat) {
    && b < g.Count() <= f.Count() && b < |f.cfg.unknown| && b < |g.cfg.unknown|
    && f.cfg.start[b] == g.cfg.start[b] && f.End(b) == g.End(b) && f.cfg.unknown[b] == g.cfg.unknown[b]
  }

  /** The same is wanted of instruction `i` of block `b`, nothing outside `rel`. */
  ghost predicate WantsAlike<S, T>(f: Problem<S, T>, g: Problem<S, T>, rel: seq<bool>, b: nat, i: nat) {
    b < |rel| && f.want(i) == (rel[b] && g.want(i))
  }

  /** The edges to relevant blocks. */
  ghost function Keep<S>(rel: seq<bool>, es: Edges<S>): Edges<S>
    requires Below(es, |rel|)
  {
    if es == [] then []
    else if rel[es[|es| - 1].0] then Keep(rel, es[..|es| - 1]) + [es[|es| - 1]]
    else Keep(rel, es[..|es| - 1])
  }

  lemma {:induction false} KeepMembers<S>(rel: seq<bool>, es: Edges<S>, e: (nat, S))
    requires Below(es, |rel|)
    ensures e in Keep(rel, es) <==> e in es && e.0 < |rel| && rel[e.0]
  {
    if es != [] {
      KeepMembers(rel, es[..|es| - 1], e);
      assert es == es[..|es| - 1] + [es[|es| - 1]];
    }
  }

  lemma {:induction false} KeepGood<S>(rel: seq<bool>, es: Edges<S>)
    requires GoodOut(es, |rel|)
    ensures GoodOut(Keep(rel, es), |rel|)
  {
    if es != [] {
      var front, last := es[..|es| - 1], es[|es| - 1];
      KeepGood(rel, front);
      var kept := Keep(rel, front);
      forall i | 0 <= i < |kept| ensures kept[i].0 < last.0 {
        KeepMembers(rel, front, kept[i]);
        var k :| 0 <= k < |front| && front[k] == kept[i];
      }
    }
  }

  lemma {:induction false} KeepFacts<S>(rel: seq<bool>, es: Edges<S>)
    requires GoodOut(es, |rel|)
    ensures GoodOut(Keep(rel, es), |rel|)
    ensures forall i | 0 <= i < |Keep(rel, es)| :: Keep(rel, es)[i] in es && rel[Keep(rel, es)[i].0]
    ensures forall e | e in es && rel[e.0] :: e in Keep(rel, es)
  {
    KeepGood(rel, es);
    forall e ensures e in Keep(rel, es) <==> e in es && e.0 < |rel| && rel[e.0] {
      KeepMembers(rel, es, e);
    }
    forall i | 0 <= i < |Keep(rel, es)| ensures Keep(rel, es)[i] in es && rel[Keep(rel, es)[i].0] {
      KeepMembers(rel, es, Keep(rel, es)[i]);
    }
  }

  lemma StillIn<S>(a: Edges<S>, b: Edges<S>, e: (nat, S))
    requires Ascending(a) && a != [] && b != [] && a[|a| - 1] == b[|b| - 1]
    requires (forall e | e in a :: e in b) && e in a[..|a| - 1]
    ensures e in b[..|b| - 1]
  {
    var k :| 0 <= k < |a| - 1 && a[..|a| - 1][k] == e;
    assert a[k] in b;
    var l :| 0 <= l < |b| && b[l] == e;
    assert b[..|b| - 1][l] == e;
  }

  /** Ascending edges with the same members are the same. */
  lemma {:induction false} SameEdges<S>(a: Edges<S>, b: Edges<S>)
    requires Ascending(a) && Ascending(b)
    requires (forall e | e in a :: e in b) && (forall e | e in b :: e in a)
    ensures a == b
  {
    assert |a| > 0 ==> a[0] in a;
    assert |b| > 0 ==> b[0] in b;
    if a != [] {
      SameLast(a, b);
      FrontIn(a, b, a[..|a| - 1], b[..|b| - 1]);
      FrontIn(b, a, b[..|b| - 1], a[..|a| - 1]);
      SameEdges(a[..|a| - 1], b[..|b| - 1]);
      SameEnds(a, b);
    }
  }

  lemma SameEnds<S>(a: Edges<S>, b: Edges<S>)
    requires a != [] && b != [] && a[..|a| - 1] == b[..|b| - 1] && a[|a| - 1] == b[|b| - 1]
    ensures a == b
  {
    assert a == a[..|a| - 1] + [a[|a| - 1]] && b == b[..|b| - 1] + [b[|b| - 1]];
  }

  lemma FrontIn<S>(a: Edges<S>, b: Edges<S>, a': Edges<S>, b': Edges<S>)
    requires Ascending(a) && a != [] && b != [] && a[|a| - 1] == b[|b| - 1] && forall e | e in a :: e in b
    requires a' == a[..|a| - 1] && b' == b[..|b| - 1]
    ensures Ascending(a') && forall e | e in a' :: e in b'
  {
    forall e | e in a' ensures e in b' { StillIn(a, b, e); }
  }

  lemma SameLast<S>(a: Edges<S>, b: Edges<S>)
    requires Ascending(a) && Ascending(b) && a != [] && b != []
    requires (forall e | e in a :: e in b) && (forall e | e in b :: e in a)
    ensures a[|a| - 1] == b[|b| - 1]
  {
    var x, y := a[|a| - 1], b[|b| - 1];
    assert x in a && y in b;
    var i :| 0 <= i < |b| && b[i] == x;
    var j :| 0 <= j < |a| && a[j] == y;
  }

  /** Two walks agree but for edges to blocks left out. */
  ghost predicate WalksAgree<S, T>(rel: seq<bool>, x: Walk<S, T>, y: Walk<S, T>) {
    && GoodOut(x.out, |rel|) && GoodOut(y.out, |rel|)
    && x.st == y.st && x.snaps == y.snaps && x.falls == y.falls
    && forall k | 0 <= k < |rel| && rel[k] :: Find(x.out, k) == Find(y.out, k)
  }

  lemma AgreeKeep<S, T>(rel: seq<bool>, x: Walk<S, T>, y: Walk<S, T>)
    requires WalksAgree(rel, x, y)
    ensures Keep(rel, x.out) == Keep(rel, y.out)
  {
    KeepFacts(rel, x.out);
    KeepFacts(rel, y.out);
    var a, b := Keep(rel, x.out), Keep(rel, y.out);
    forall e | e in a ensures e in b { FoundIn(rel, x.out, y.out, e); }
    forall e | e in b ensures e in a { FoundIn(rel, y.out, x.out, e); }
    SameEdges(a, b);
  }

  lemma FoundIn<S>(rel: seq<bool>, x: Edges<S>, y: Edges<S>, e: (nat, S))
    requires GoodOut(x, |rel|) && GoodOut(y, |rel|) && e in x && e.0 < |rel| && rel[e.0]
    requires Find(x, e.0) == Find(y, e.0)
    ensures e in y
  {
    var i :| 0 <= i < |x| && x[i] == e;
    FindAt(x, i);
  }

  /** An edge added on one side only, to a block left out. */
  lemma AddLeftOut<S, T>(f: Flow<S, T>, rel: seq<bool>, out: Edges<S>, to: nat, s: S, k: nat)
    requires GoodOut(out, |rel|) && to < |rel| && !rel[to] && k < |rel| && rel[k]
    ensures GoodOut(AddEdge(f, out, to, s), |rel|) && Find(AddEdge(f, out, to, s), k) == Find(out, k)
  {
    AddEdgeFacts(f, out, to, s, |rel|);
    match Find(out, to)
    case Some(prev) => FindPut(out, to, f.join(prev, s), k);
    case None => FindPut(out, to, s, k);
  }

  lemma AddBoth<S, T>(f: Flow<S, T>, rel: seq<bool>, x: Edges<S>, y: Edges<S>, to: nat, s: S, k: nat)
    requires GoodOut(x, |rel|) && GoodOut(y, |rel|) && to < |rel| && rel[to] && k < |rel| && rel[k]
    requires Find(x, k) == Find(y, k) && Find(x, to) == Find(y, to)
    ensures GoodOut(AddEdge(f, x, to, s), |rel|) && GoodOut(AddEdge(f, y, to, s), |rel|)
    ensures Find(AddEdge(f, x, to, s), k) == Find(AddEdge(f, y, to, s), k)
  {
    AddEdgeFacts(f, x, to, s, |rel|);
    AddEdgeFacts(f, y, to, s, |rel|);
    match Find(x, to)
    case Some(prev) =>
      FindPut(x, to, f.join(prev, s), k);
      FindPut(y, to, f.join(prev, s), k);
    case None =>
      FindPut(x, to, s, k);
      FindPut(y, to, s, k);
  }

  /** The edge `to` of a jump as the two sides see it. */
  ghost predicate SameTarget(rel: seq<bool>, x: Option<nat>, y: Option<nat>) {
    && (x.Some? ==> x.value < |rel|) && (y.Some? ==> y.value < |rel|)
    && (x == y || ((x.Some? ==> !rel[x.value]) && (y.Some? ==> !rel[y.value])))
  }

  ghost function AddOption<S, T>(f: Flow<S, T>, out: Edges<S>, to: Option<nat>, s: S): Edges<S> {
    if to.Some? then AddEdge(f, out, to.value, s) else out
  }

  lemma AddAgrees<S, T>(f: Flow<S, T>, rel: seq<bool>, x: Edges<S>, y: Edges<S>, a: Option<nat>, b: Option<nat>, s: S)
    requires GoodOut(x, |rel|) && GoodOut(y, |rel|) && SameTarget(rel, a, b)
    requires forall k | 0 <= k < |rel| && rel[k] :: Find(x, k) == Find(y, k)
    ensures GoodOut(AddOption(f, x, a, s), |rel|) && GoodOut(AddOption(f, y, b, s), |rel|)
    ensures forall k | 0 <= k < |rel| && rel[k] :: Find(AddOption(f, x, a, s), k) == Find(AddOption(f, y, b, s), k)
  {
    if a.Some? { AddEdgeFacts(f, x, a.value, s, |rel|); }
    if b.Some? { AddEdgeFacts(f, y, b.value, s, |rel|); }
    forall k | 0 <= k < |rel| && rel[k]
      ensures Find(AddOption(f, x, a, s), k) == Find(AddOption(f, y, b, s), k)
    {
      if a.Some? && rel[a.value] {
        AddBoth(f, rel, x, y, a.value, s, k);
      } else {
        if a.Some? { AddLeftOut(f, rel, x, a.value, s, k); }
        if b.Some? { AddLeftOut(f, rel, y, b.value, s, k); }
      }
    }
  }

  /** Where a jump of a relevant block goes, in the two problems. */
  ghost function JumpBlock<S, T>(p: Problem<S, T>, op: PcodeOp): Option<nat> {
    if IsJump(op) && Target(op).Some? then BlockOf(p.cfg.startAddr, Target(op).value) else None
  }

  lemma SameJump<S, T>(f: Problem<S, T>, g: Problem<S, T>, rel: seq<bool>, op: PcodeOp)
    requires Restricts(f, g, rel)
    ensures SameTarget(rel, JumpBlock(f, op), JumpBlock(g, op))
  {
    var x, y := JumpBlock(f, op), JumpBlock(g, op);
    if y.Some? {
      assert f.cfg.startAddr[y.value] == Target(op).value;
    }
    if x.Some? && x.value < g.Count() {
      assert g.cfg.startAddr[x.value] == Target(op).value;
    }
  }

  lemma OpAgrees<S, T>(f: Problem<S, T>, g: Problem<S, T>, rel: seq<bool>, i: nat, op: PcodeOp, x: Walk<S, T>, y: Walk<S, T>)
    requires Restricts(f, g, rel) && i < |g.insns| && f.want(i) == g.want(i) && WalksAgree(rel, x, y)
    ensures WalksAgree(rel, WalkOp(f, i, op, x), WalkOp(g, i, op, y))
  {
    SameJump(f, g, rel, op);
    AddAgrees(f.flow, rel, x.out, y.out, JumpBlock(f, op), JumpBlock(g, op), x.st);
    assert WalkOp(f, i, op, x).out == AddOption(f.flow, x.out, JumpBlock(f, op), x.st);
    assert WalkOp(g, i, op, y).out == AddOption(g.flow, y.out, JumpBlock(g, op), y.st);
  }

  lemma {:induction false} OpsAgree<S, T>(f: Problem<S, T>, g: Problem<S, T>, rel: seq<bool>, i: nat, k: nat, x: Walk<S, T>, y: Walk<S, T>)
    requires Restricts(f, g, rel) && i < |g.insns| && k <= |g.insns[i].ops| && f.want(i) == g.want(i) && WalksAgree(rel, x, y)
    ensures WalksAgree(rel, WalkOps(f, i, k, x), WalkOps(g, i, k, y))
  {
    if k > 0 {
      OpsAgree(f, g, rel, i, k - 1, x, y);
      OpAgrees(f, g, rel, i, g.insns[i].ops[k - 1], WalkOps(f, i, k - 1, x), WalkOps(g, i, k - 1, y));
    }
  }

  lemma {:induction false} InsnsAgree<S, T>(f: Problem<S, T>, g: Problem<S, T>, rel: seq<bool>, from: nat, end: nat, x: Walk<S, T>, y: Walk<S, T>)
    requires Restricts(f, g, rel) && from <= end <= |g.insns| && WalksAgree(rel, x, y)
    requires forall i | from <= i < end :: f.want(i) == g.want(i)
    ensures WalksAgree(rel, WalkInsns(f, from, end, x), WalkInsns(g, from, end, y))
    decreases end
  {
    if from < end {
      InsnsAgree(f, g, rel, from, end - 1, x, y);
      OpsAgree(f, g, rel, end - 1, |g.insns[end - 1].ops|, WalkInsns(f, from, end - 1, x), WalkInsns(g, from, end - 1, y));
    }
  }

  /** A relevant block's walks agree. */
  lemma BlockAgrees<S, T>(f: Problem<S, T>, g: Problem<S, T>, rel: seq<bool>, b: nat, s: S)
    requires Restricts(f, g, rel) && b < g.Count() && rel[b]
    ensures WalksAgree(rel, WalkBlock(f, b, s), WalkBlock(g, b, s))
  {
    BlockOrder(f, b);
    BlockOrder(g, b);
    var w0: Walk<S, T> := Walk(s, [], [], true);
    assert SameBlock(f, g, b);
    forall i | f.cfg.start[b] <= i < f.End(b) ensures f.want(i) == g.want(i) {
      assert WantsAlike(f, g, rel, b, i);
    }
    InsnsAgree(f, g, rel, f.cfg.start[b], f.End(b), w0, w0);
    var x, y := WalkInsns(f, f.cfg.start[b], f.End(b), w0), WalkInsns(g, g.cfg.start[b], g.End(b), w0);
    if x.falls {
      var a := if b + 1 < f.Count() then Some(b + 1) else None;
      var c := if b + 1 < g.Count() then Some(b + 1) else None;
      AddAgrees(f.flow, rel, x.out, y.out, a, c, x.st);
      assert WalkBlock(f, b, s).out == AddOption(f.flow, x.out, a, x.st);
      assert WalkBlock(g, b, s).out == AddOption(g.flow, y.out, c, y.st);
    }
  }

  lemma {:induction false} OpsRecordNothing<S, T>(p: Problem<S, T>, i: nat, k: nat, w: Walk<S, T>)
    requires i < |p.insns| && k <= |p.insns[i].ops| && !p.want(i)
    ensures WalkOps(p, i, k, w).snaps == w.snaps
  {
    if k > 0 { OpsRecordNothing(p, i, k - 1, w); }
  }

  lemma {:induction false} InsnsRecordNothing<S, T>(p: Problem<S, T>, from: nat, end: nat, w: Walk<S, T>)
    requires from <= end <= |p.insns| && forall i | from <= i < end :: !p.want(i)
    ensures WalkInsns(p, from, end, w).snaps == w.snaps
    decreases end
  {
    if from < end {
      InsnsRecordNothing(p, from, end - 1, w);
      OpsRecordNothing(p, end - 1, |p.insns[end - 1].ops|, WalkInsns(p, from, end - 1, w));
    }
  }

  /** A block left out records nothing and reaches no relevant block. */
  lemma LeftOutBlock<S, T>(f: Problem<S, T>, g: Problem<S, T>, rel: seq<bool>, b: nat, s: S)
    requires Restricts(f, g, rel) && b < f.Count() && !rel[b]
    ensures var w := WalkBlock(f, b, s);
      w.snaps == [] && GoodOut(w.out, |rel|) && forall i | 0 <= i < |w.out| :: !rel[w.out[i].0]
  {
    BlockOrder(f, b);
    WalkKeys(f, b, s);
    WalkBelow(f, b, s);
    forall i | f.cfg.start[b] <= i < f.End(b) ensures !f.want(i) {
      assert WantsAlike(f, g, rel, b, i);
    }
    InsnsRecordNothing(f, f.cfg.start[b], f.End(b), Walk(s, [], [], true));
  }

  // ---- the two runs side by side

  /** The worklist's relevant blocks, in order. */
  ghost function KeepWork(rel: seq<bool>, work: seq<nat>): seq<nat> {
    if work == [] then []
    else if work[0] < |rel| && rel[work[0]] then [work[0]] + KeepWork(rel, work[1..])
    else KeepWork(rel, work[1..])
  }

  lemma {:induction false} KeepWorkFacts(rel: seq<bool>, work: seq<nat>, x: nat)
    ensures KeepWork(rel, work + [x]) == KeepWork(rel, work) + if x < |rel| && rel[x] then [x] else []
    ensures x < |rel| && rel[x] ==> (x in KeepWork(rel, work) <==> x in work)
  {
    if work != [] {
      assert (work + [x])[1..] == work[1..] + [x];
      assert work == [work[0]] + work[1..];
      KeepWorkFacts(rel, work[1..], x);
    }
  }

  /** The restricted run is the full one filtered to the relevant blocks. */
  ghost predicate Alike<S, T>(f: Problem<S, T>, g: Problem<S, T>, rel: seq<bool>, x: State<S, T>, y: State<S, T>) {
    && Covers(f, g, rel) && Shaped(f, x) && Shaped(g, y)
    && x.snaps == y.snaps && KeepWork(rel, x.work) == y.work
    && forall b | 0 <= b < g.Count() && rel[b] ::
         x.into[b] == y.into[b] && x.visits[b] == y.visits[b] && x.saturated[b] == y.saturated[b]
  }

  lemma DeliverLeftOut<S, T>(f: Problem<S, T>, g: Problem<S, T>, rel: seq<bool>, b: nat, to: nat, s: S, x: State<S, T>, y: State<S, T>)
    requires Alike(f, g, rel, x, y) && to < f.Count() && !rel[to]
    ensures Alike(f, g, rel, DeliverOne(f, b, to, s, x), y)
    ensures to < g.Count() ==> Alike(f, g, rel, x, DeliverOne(g, b, to, s, y))
  {
    KeepWorkFacts(rel, x.work, to);
  }

  lemma DeliverRelevant<S, T>(f: Problem<S, T>, g: Problem<S, T>, rel: seq<bool>, b: nat, to: nat, s: S, x: State<S, T>, y: State<S, T>)
    requires Alike(f, g, rel, x, y) && to < f.Count() && rel[to]
    ensures to < g.Count() && Alike(f, g, rel, DeliverOne(f, b, to, s, x), DeliverOne(g, b, to, s, y))
  {
    KeepWorkFacts(rel, x.work, to);
  }

  lemma {:induction false} DeliverAlike<S, T>(f: Problem<S, T>, g: Problem<S, T>, rel: seq<bool>, b: nat,
      a: Edges<S>, i: nat, c: Edges<S>, j: nat, x: State<S, T>, y: State<S, T>)
    requires Alike(f, g, rel, x, y) && Below(a, f.Count()) && Below(c, g.Count()) && i <= |a| && j <= |c|
    requires Front(rel, a, i) == Front(rel, c, j)
    ensures Alike(f, g, rel, Deliver(f, b, a, i, x), Deliver(g, b, c, j, y))
    decreases |a| - i + |c| - j
  {
    if i < |a| && !rel[a[i].0] {
      DeliverLeftOut(f, g, rel, b, a[i].0, a[i].1, x, y);
      DeliverAlike(f, g, rel, b, a, i + 1, c, j, DeliverOne(f, b, a[i].0, a[i].1, x), y);
    } else if j < |c| && !rel[c[j].0] {
      DeliverLeftOut(f, g, rel, b, c[j].0, c[j].1, x, y);
      DeliverAlike(f, g, rel, b, a, i, c, j + 1, x, DeliverOne(g, b, c[j].0, c[j].1, y));
    } else if i < |a| && j < |c| {
      SameFront(rel, a, i, c, j);
      DeliverRelevant(f, g, rel, b, a[i].0, a[i].1, x, y);
      DeliverAlike(f, g, rel, b, a, i + 1, c, j + 1, DeliverOne(f, b, a[i].0, a[i].1, x), DeliverOne(g, b, c[j].0, c[j].1, y));
    }
  }

  lemma SameFront<S>(rel: seq<bool>, a: Edges<S>, i: nat, c: Edges<S>, j: nat)
    requires Below(a, |rel|) && Below(c, |rel|) && i < |a| && j < |c| && rel[a[i].0] && rel[c[j].0]
    requires Front(rel, a, i) == Front(rel, c, j)
    ensures a[i] == c[j] && Front(rel, a, i + 1) == Front(rel, c, j + 1)
  {
    assert a[i] == Front(rel, a, i)[0] == Front(rel, c, j)[0] == c[j];
    assert Front(rel, a, i)[1..] == Front(rel, a, i + 1) && Front(rel, c, j)[1..] == Front(rel, c, j + 1);
  }

  /** [Keep] of the edges from `i` on, taken from the front. */
  ghost function Front<S>(rel: seq<bool>, es: Edges<S>, i: nat): Edges<S>
    requires Below(es, |rel|) && i <= |es|
    decreases |es| - i
  {
    if i == |es| then [] else (if rel[es[i].0] then [es[i]] else []) + Front(rel, es, i + 1)
  }

  lemma {:induction false} FrontExtends<S>(rel: seq<bool>, es: Edges<S>, e: (nat, S), i: nat)
    requires Below(es, |rel|) && e.0 < |rel| && i <= |es|
    ensures Front(rel, es + [e], i) == Front(rel, es, i) + if rel[e.0] then [e] else []
    decreases |es| - i
  {
    if i < |es| {
      FrontExtends(rel, es, e, i + 1);
    } else {
      assert Front(rel, es + [e], i + 1) == [];
    }
  }

  lemma {:induction false} FrontIsKeep<S>(rel: seq<bool>, es: Edges<S>)
    requires Below(es, |rel|)
    ensures Front(rel, es, 0) == Keep(rel, es)
  {
    if es != [] {
      var front := es[..|es| - 1];
      assert es == front + [es[|es| - 1]];
      FrontIsKeep(rel, front);
      FrontExtends(rel, front, es[|es| - 1], 0);
    }
  }

  // ---- step by step

  /** A step of the full run on a block left out leaves the restricted run where it was. */
  lemma LeftOutStep<S, T>(f: Problem<S, T>, g: Problem<S, T>, rel: seq<bool>, x: State<S, T>, y: State<S, T>)
    requires Restricts(f, g, rel) && Alike(f, g, rel, x, y) && Inv(f, x) && x.work != [] && !rel[x.work[0]]
    ensures Alike(f, g, rel, Step(f, x), y)
  {
    var b := x.work[0];
    if !x.saturated[b] {
      StepIsEmit(f, x);
      var popped := Popped(f, x);
      var s := Entry(f, popped, b);
      LeftOutBlock(f, g, rel, b, s);
      var w := WalkBlock(f, b, s);
      var q := popped.(snaps := popped.snaps + w.snaps);
      assert q.snaps == x.snaps;
      FrontLeftOut(rel, w.out, 0);
      assert Alike(f, g, rel, q, y);
      DeliverAlike(f, g, rel, b, w.out, 0, [], 0, q, y);
    }
  }

  lemma {:induction false} FrontLeftOut<S>(rel: seq<bool>, es: Edges<S>, i: nat)
    requires Below(es, |rel|) && i <= |es| && forall j | 0 <= j < |es| :: !rel[es[j].0]
    ensures Front(rel, es, i) == []
    decreases |es| - i
  {
    if i < |es| { FrontLeftOut(rel, es, i + 1); }
  }

  lemma EmitAlike<S, T>(f: Problem<S, T>, g: Problem<S, T>, rel: seq<bool>, b: nat, s: S, x: State<S, T>, y: State<S, T>)
    requires Restricts(f, g, rel) && Alike(f, g, rel, x, y) && b < g.Count() && rel[b]
    ensures Alike(f, g, rel, Emit(f, b, s, x), Emit(g, b, s, y))
  {
    BlockAgrees(f, g, rel, b, s);
    var wx, wy := WalkBlock(f, b, s), WalkBlock(g, b, s);
    AgreeKeep(rel, wx, wy);
    FrontIsKeep(rel, wx.out);
    FrontIsKeep(rel, wy.out);
    WalkBelow(g, b, s);
    DeliverAlike(f, g, rel, b, wx.out, 0, wy.out, 0, x.(snaps := x.snaps + wx.snaps), y.(snaps := y.snaps + wy.snaps));
  }

  /** The same block is taken, in the same state. */
  lemma PoppedAlike<S, T>(f: Problem<S, T>, g: Problem<S, T>, rel: seq<bool>, x: State<S, T>, y: State<S, T>)
    requires Restricts(f, g, rel) && Alike(f, g, rel, x, y) && x.work != [] && rel[x.work[0]]
    ensures y.work != [] && y.work[0] == x.work[0] && x.work[0] < g.Count()
    ensures y.saturated[x.work[0]] == x.saturated[x.work[0]]
    ensures Alike(f, g, rel, x.(work := x.work[1..]), y.(work := y.work[1..]))
    ensures !x.saturated[x.work[0]] ==> Alike(f, g, rel, Popped(f, x), Popped(g, y))
    ensures !x.saturated[x.work[0]] ==> Entry(f, Popped(f, x), x.work[0]) == Entry(g, Popped(g, y), x.work[0])
  {
    assert y.work == [x.work[0]] + KeepWork(rel, x.work[1..]);
    assert y.work[1..] == KeepWork(rel, x.work[1..]);
  }

  /** A step on a relevant block is the same step in both runs. */
  lemma RelevantStep<S, T>(f: Problem<S, T>, g: Problem<S, T>, rel: seq<bool>, x: State<S, T>, y: State<S, T>)
    requires Restricts(f, g, rel) && Alike(f, g, rel, x, y) && Inv(f, x) && Inv(g, y) && x.work != [] && rel[x.work[0]]
    ensures y.work != [] && Alike(f, g, rel, Step(f, x), Step(g, y))
  {
    PoppedAlike(f, g, rel, x, y);
    var b := x.work[0];
    if !x.saturated[b] {
      StepIsEmit(f, x);
      StepIsEmit(g, y);
      EmitAlike(f, g, rel, b, Entry(f, Popped(f, x), b), Popped(f, x), Popped(g, y));
    }
  }

  lemma {:induction false} RunsAlike<S, T>(f: Problem<S, T>, g: Problem<S, T>, rel: seq<bool>, x: State<S, T>, y: State<S, T>)
    requires Restricts(f, g, rel) && Alike(f, g, rel, x, y) && Inv(f, x) && Inv(g, y)
    ensures Run(f, x).snaps == Run(g, y).snaps
    decreases Left(f, x.visits, f.Count()), |x.work|
  {
    if x.work != [] {
      StepKeeps(f, x);
      StepDecreases(f, x);
      if rel[x.work[0]] {
        RelevantStep(f, g, rel, x, y);
        StepKeeps(g, y);
        StepDecreases(g, y);
        RunsAlike(f, g, rel, Step(f, x), Step(g, y));
      } else {
        LeftOutStep(f, g, rel, x, y);
        RunsAlike(f, g, rel, Step(f, x), y);
      }
    }
  }

  /** The blocks the two runs start with, among the first `n`. */
  lemma {:induction false} RootsAlike<S, T>(f: Problem<S, T>, g: Problem<S, T>, rel: seq<bool>, n: nat)
    requires n <= |f.cfg.unknown| == |rel| && 0 < |g.cfg.unknown| <= |f.cfg.unknown| && f.cfg.entry == g.cfg.entry == 0
    requires f.cfg.relevant == None && g.cfg.relevant == Some(rel[..|g.cfg.unknown|])
    requires forall b | 0 <= b < |rel| && rel[b] :: b < |g.cfg.unknown| && f.cfg.unknown[b] == g.cfg.unknown[b]
    ensures KeepWork(rel, Roots(f, n)) == Roots(g, if n <= |g.cfg.unknown| then n else |g.cfg.unknown|)
  {
    if n == 0 {
      KeepWorkFacts(rel, [], 0);
    } else {
      RootsAlike(f, g, rel, n - 1);
      NextRoot(f, g, rel, n - 1, Roots(f, n - 1));
    }
  }

  lemma NextRoot<S, T>(f: Problem<S, T>, g: Problem<S, T>, rel: seq<bool>, b: nat, roots: seq<nat>)
    requires b < |f.cfg.unknown| == |rel| && |g.cfg.unknown| <= |f.cfg.unknown| && f.cfg.entry == g.cfg.entry
    requires f.cfg.relevant == None && g.cfg.relevant == Some(rel[..|g.cfg.unknown|])
    requires rel[b] ==> b < |g.cfg.unknown| && f.cfg.unknown[b] == g.cfg.unknown[b]
    ensures KeepWork(rel, roots + if f.cfg.unknown[b] && b != f.cfg.entry && f.Relevant(b) then [b] else [])
      == KeepWork(rel, roots) + if b < |g.cfg.unknown| && g.cfg.unknown[b] && b != g.cfg.entry && g.Relevant(b) then [b] else []
  {
    KeepWorkFacts(rel, roots, b);
    assert roots + [] == roots && KeepWork(rel, roots) + [] == KeepWork(rel, roots);
    assert b < |g.cfg.unknown| ==> g.Relevant(b) == rel[b];
  }

  /** The restricted flow records the snapshots the full flow does for the calls wanted, in
      the same order. */
  lemma RestrictionIsInvisible<S, T>(f: Problem<S, T>, g: Problem<S, T>, rel: seq<bool>)
    requires Restricts(f, g, rel)
    ensures Inv(f, Initial(f)) && Inv(g, Initial(g))
    ensures Run(g, Initial(g)).snaps == Run(f, Initial(f)).snaps
  {
    InitialInv(f);
    InitialInv(g);
    RootsAlike(f, g, rel, f.Count());
    RunsAlike(f, g, rel, Initial(f), Initial(g));
  }
}
