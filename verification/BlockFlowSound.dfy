/**
 Soundness of the flow: what is recorded last at a call describes every concrete run that
 reaches it.
 */
module BlockFlowSound {
  import opened Pcode
  import opened EdgeList
  import opened BlockFlow
  import opened BlockFlowRun

  /** What the states of a domain say of concrete states, and how those change. */
  datatype Meaning<!S, !C> = Meaning(
    describes: (S, C) -> bool,
    opStep: (PcodeOp, C, C) -> bool,
    callStep: (C, C) -> bool)

  ghost predicate JoinSound<S(!new), T, C(!new)>(f: Flow<S, T>, m: Meaning<S, C>) {
    forall a, b, c {:trigger m.describes(f.join(a, b), c)} | m.describes(a, c) || m.describes(b, c) :: m.describes(f.join(a, b), c)
  }

  ghost predicate SoundFlow<S(!new), T, C(!new)>(f: Flow<S, T>, m: Meaning<S, C>) {
    && (forall c :: m.describes(f.empty, c))
    && JoinSound(f, m)
    && (forall s, op, c, c' {:trigger m.describes(f.apply(s, op), c'), m.opStep(op, c, c')} | m.describes(s, c) && m.opStep(op, c, c') :: m.describes(f.apply(s, op), c'))
    && (forall s, c, c' {:trigger m.describes(f.afterCall(s), c'), m.callStep(c, c')} | m.describes(s, c) && m.callStep(c, c') :: m.describes(f.afterCall(s), c'))
  }

  /** Block `b` is not empty, and where it ends before the lift does it falls into the next one. */
  ghost predicate FlowsOn<S, T>(p: Problem<S, T>, b: nat)
    requires p.Valid() && b < p.Count()
  {
    && p.cfg.start[b] < p.End(b)
    && (p.End(b) < |p.insns| ==> p.HasNext(b) && p.cfg.start[b + 1] == p.End(b))
  }

  /** Code runs from the end of a block into the start of another or out of the lift. */
  ghost predicate Tiled<S, T>(p: Problem<S, T>)
    requires p.Valid()
  {
    forall b | 0 <= b < p.Count() :: FlowsOn(p, b)
  }

  lemma IndexedIsTiled<S, T>(p: Problem<S, T>)
    requires p.Valid() && !p.cfg.legacy
    ensures Tiled(p)
  {
    forall b | 0 <= b < p.Count() ensures FlowsOn(p, b) {
      BlockOrder(p, b);
    }
  }

  /** A point of a concrete run: before op `k` of instruction `i`. */
  datatype Point<C> = Point(i: nat, k: nat, c: C)

  /** One concrete step: an op's effect, a jump to a lifted instruction or a fall-through. */
  ghost predicate Steps<S, C>(insns: seq<Insn>, m: Meaning<S, C>, x: Point<C>, y: Point<C>) {
    && x.i < |insns| && y.i < |insns| && x.k <= |insns[x.i].ops|
    && if x.k == |insns[x.i].ops| then
         y == Point(x.i + 1, 0, x.c)
       else
         var op := insns[x.i].ops[x.k];
         if IsCall(op) then y.i == x.i && y.k == x.k + 1 && m.callStep(x.c, y.c)
         else if IsJump(op) then
           || (op.opcode == CBranch && y == Point(x.i, x.k + 1, x.c))
           || (Target(op) == Some(insns[y.i].address) && y.k == 0 && y.c == x.c)
         else if IsStop(op) then false
         else y.i == x.i && y.k == x.k + 1 && m.opStep(op, x.c, y.c)
  }

  /** A run entered at a block walked from the empty state, in any concrete state. */
  ghost predicate IsRun<S, T, C>(p: Problem<S, T>, m: Meaning<S, C>, run: seq<Point<C>>)
    requires p.Valid()
  {
    && |run| > 0 && run[0].k == 0
    && (exists b :: 0 <= b < p.Count() && p.Rooted(b) && run[0].i == p.cfg.start[b])
    && (forall j | 0 <= j < |run| - 1 :: Steps(p.insns, m, run[j], run[j + 1]))
  }

  /** Every jump into the lift goes to the start of a block. */
  ghost predicate TargetsStartBlocks<S, T>(p: Problem<S, T>) {
    forall i, k, j | 0 <= i < |p.insns| && 0 <= k < |p.insns[i].ops| && 0 <= j < |p.insns|
        && IsJump(p.insns[i].ops[k]) && Target(p.insns[i].ops[k]) == Some(p.insns[j].address) ::
      p.insns[j].address in p.cfg.startAddr
  }

  ghost predicate DistinctAddresses(insns: seq<Insn>) {
    forall i, j | 0 <= i < j < |insns| :: insns[i].address != insns[j].address
  }

  /** Op `k` of the instruction is a call, and no later op is: the snapshots of an instruction's
      calls go by its address, so only that of its last call can be told. */
  ghost predicate IsLastCall(insn: Insn, k: nat) {
    k < |insn.ops| && IsCall(insn.ops[k]) && forall l | k < l < |insn.ops| :: !IsCall(insn.ops[l])
  }

  /** The last snapshot recorded at the address `a`. */
  ghost function LastAt<T>(snaps: seq<(nat, T)>, a: nat): Option<T> {
    if snaps == [] then None
    else if snaps[|snaps| - 1].0 == a then Some(snaps[|snaps| - 1].1)
    else LastAt(snaps[..|snaps| - 1], a)
  }

  lemma {:induction false} LastAtConcat<T>(x: seq<(nat, T)>, y: seq<(nat, T)>, a: nat)
    ensures LastAt(x + y, a) == if LastAt(y, a).Some? then LastAt(y, a) else LastAt(x, a)
  {
    if y == [] {
      assert x + y == x;
    } else {
      assert (x + y)[..|x + y| - 1] == x + y[..|y| - 1];
      LastAtConcat(x, y[..|y| - 1], a);
    }
  }

  // ---- the states of a walk along a concrete run

  /** The walk of block `b` from `s`, before op `k` of instruction `i`. */
  ghost function WalkTo<S, T>(p: Problem<S, T>, b: nat, s: S, i: nat, k: nat): Walk<S, T>
    requires p.Valid() && b < p.Count() && p.cfg.start[b] <= i < p.End(b) && i < |p.insns| && k <= |p.insns[i].ops|
  {
    WalkOps(p, i, k, WalkInsns(p, p.cfg.start[b], i, Walk(s, [], [], true)))
  }

  lemma JoinFromDescribes<S(!new), T, C(!new)>(f: Flow<S, T>, m: Meaning<S, C>, acc: S, es: Edges<S>, i: nat, c: C)
    requires JoinSound(f, m) && i <= |es|
    requires m.describes(acc, c) || exists j :: i <= j < |es| && m.describes(es[j].1, c)
    ensures m.describes(JoinFrom(f, acc, es, i), c)
    decreases |es| - i
  {
    if i < |es| {
      JoinFromDescribes(f, m, f.join(acc, es[i].1), es, i + 1, c);
    }
  }

  ghost predicate EdgeDescribes<S, C>(m: Meaning<S, C>, out: Edges<S>, to: nat, c: C) {
    Find(out, to).Some? && m.describes(Find(out, to).value, c)
  }

  lemma AddEdgeDescribes<S(!new), T, C(!new)>(f: Flow<S, T>, m: Meaning<S, C>, out: Edges<S>, to: nat, s: S, at: nat, c: C)
    requires JoinSound(f, m) && Ascending(out)
    requires EdgeDescribes(m, out, at, c) || (to == at && m.describes(s, c))
    ensures EdgeDescribes(m, AddEdge(f, out, to, s), at, c)
  {
    match Find(out, to)
    case Some(prev) => FindPut(out, to, f.join(prev, s), at);
    case None => FindPut(out, to, s, at);
  }

  lemma OpKeepsEdge<S(!new), T, C(!new)>(p: Problem<S, T>, m: Meaning<S, C>, i: nat, op: PcodeOp, w: Walk<S, T>, at: nat, c: C)
    requires i < |p.insns| && JoinSound(p.flow, m) && Ascending(w.out) && EdgeDescribes(m, w.out, at, c)
    ensures EdgeDescribes(m, WalkOp(p, i, op, w).out, at, c)
  {
    match Target(op)
    case None =>
    case Some(t) =>
      match BlockOf(p.cfg.startAddr, t)
      case None =>
      case Some(j) => AddEdgeDescribes(p.flow, m, w.out, j, w.st, at, c);
  }

  lemma {:induction false} OpsKeepEdge<S(!new), T, C(!new)>(p: Problem<S, T>, m: Meaning<S, C>, i: nat, k: nat, l: nat, w: Walk<S, T>, at: nat, c: C)
    requires |p.cfg.startAddr| == p.Count() && JoinSound(p.flow, m) && i < |p.insns| && k <= l <= |p.insns[i].ops| && GoodOut(w.out, p.Count())
    requires EdgeDescribes(m, WalkOps(p, i, k, w).out, at, c)
    ensures EdgeDescribes(m, WalkOps(p, i, l, w).out, at, c)
    decreases l
  {
    if k < l {
      OpsKeepEdge(p, m, i, k, l - 1, w, at, c);
      LastKeepsEdge(p, m, i, l, w, at, c);
    }
  }

  lemma LastKeepsEdge<S(!new), T, C(!new)>(p: Problem<S, T>, m: Meaning<S, C>, i: nat, l: nat, w: Walk<S, T>, at: nat, c: C)
    requires |p.cfg.startAddr| == p.Count() && JoinSound(p.flow, m) && i < |p.insns| && 0 < l <= |p.insns[i].ops| && GoodOut(w.out, p.Count())
    requires EdgeDescribes(m, WalkOps(p, i, l - 1, w).out, at, c)
    ensures EdgeDescribes(m, WalkOps(p, i, l, w).out, at, c)
  {
    OpsBelow(p, i, l - 1, w);
    OpKeepsEdge(p, m, i, p.insns[i].ops[l - 1], WalkOps(p, i, l - 1, w), at, c);
  }

  lemma {:induction false} InsnsKeepEdge<S(!new), T, C(!new)>(p: Problem<S, T>, m: Meaning<S, C>, from: nat, i: nat, end: nat, w: Walk<S, T>, at: nat, c: C)
    requires |p.cfg.startAddr| == p.Count() && JoinSound(p.flow, m) && from <= i <= end <= |p.insns| && GoodOut(w.out, p.Count())
    requires EdgeDescribes(m, WalkInsns(p, from, i, w).out, at, c)
    ensures EdgeDescribes(m, WalkInsns(p, from, end, w).out, at, c)
    decreases end
  {
    if i < end {
      var v := WalkInsns(p, from, end - 1, w);
      InsnsKeepEdge(p, m, from, i, end - 1, w, at, c);
      assert EdgeDescribes(m, v.out, at, c);
      InsnsBelow(p, from, end - 1, w);
      OpsKeepEdge(p, m, end - 1, 0, |p.insns[end - 1].ops|, v, at, c);
    }
  }

  /** An edge of a walk within an instruction it goes through is an edge at the end. */
  lemma EdgeOfInsns<S(!new), T, C(!new)>(p: Problem<S, T>, m: Meaning<S, C>, from: nat, i: nat, k: nat, end: nat, w: Walk<S, T>, at: nat, c: C)
    requires |p.cfg.startAddr| == p.Count() && JoinSound(p.flow, m) && GoodOut(w.out, p.Count())
    requires from <= i < end <= |p.insns| && k <= |p.insns[i].ops| && WalkInsns(p, from, i, w).falls
    requires EdgeDescribes(m, WalkOps(p, i, k, WalkInsns(p, from, i, w)).out, at, c)
    ensures EdgeDescribes(m, WalkInsns(p, from, end, w).out, at, c)
  {
    InsnsBelow(p, from, i, w);
    OpsKeepEdge(p, m, i, k, |p.insns[i].ops|, WalkInsns(p, from, i, w), at, c);
    WholeInsn(p, from, i, w);
    InsnsKeepEdge(p, m, from, i + 1, end, w, at, c);
  }

  /** And of the block's. */
  lemma EdgeOfBlock<S(!new), T, C(!new)>(p: Problem<S, T>, m: Meaning<S, C>, b: nat, s: S, i: nat, k: nat, at: nat, c: C)
    requires p.Valid() && JoinSound(p.flow, m) && b < p.Count()
    requires p.cfg.start[b] <= i < p.End(b) && i < |p.insns| && k <= |p.insns[i].ops|
    requires WalkInsns(p, p.cfg.start[b], i, Walk(s, [], [], true)).falls
    requires EdgeDescribes(m, WalkTo(p, b, s, i, k).out, at, c)
    ensures EdgeDescribes(m, WalkBlock(p, b, s).out, at, c)
  {
    BlockOrder(p, b);
    var w0: Walk<S, T> := Walk(s, [], [], true);
    EdgeOfInsns(p, m, p.cfg.start[b], i, k, p.End(b), w0, at, c);
    InsnsBelow(p, p.cfg.start[b], p.End(b), w0);
    var w := WalkInsns(p, p.cfg.start[b], p.End(b), w0);
    if w.falls && b + 1 < p.Count() { AddEdgeDescribes(p.flow, m, w.out, b + 1, w.st, at, c); }
  }

  // ---- concrete runs are described

  /** A finished run over every block. */
  ghost predicate Finished<S, T>(p: Problem<S, T>, fin: State<S, T>) {
    Inv(p, fin) && fin.work == [] && p.cfg.relevant == None
  }

  /** The states the walked blocks were last walked from (`None`: not walked). */
  ghost function Entries<S, T>(p: Problem<S, T>, fin: State<S, T>): (r: seq<Option<S>>)
    requires Shaped(p, fin)
    ensures |r| == p.Count()
    ensures forall b | 0 <= b < p.Count() :: r[b] == if fin.visits[b] > 0 then Some(Entry(p, fin, b)) else None
  {
    seq(p.Count(), b requires 0 <= b < p.Count() => if fin.visits[b] > 0 then Some(Entry(p, fin, b)) else None)
  }

  /** The blocks walked from the empty state are among `entry`, and the edges of its blocks
      lead to blocks of it whose states describe what the edges do. */
  ghost predicate Closed<S, T, C(!new)>(p: Problem<S, T>, m: Meaning<S, C>, entry: seq<Option<S>>)
    requires p.Valid()
  {
    && |entry| == p.Count()
    && (forall b | 0 <= b < p.Count() && p.Rooted(b) :: entry[b].Some?)
    && (forall b, c {:trigger m.describes(entry[b].value, c)} | 0 <= b < p.Count() && p.Rooted(b) :: m.describes(entry[b].value, c))
    && (forall b, to: nat, c {:trigger EdgeDescribes(m, WalkBlock(p, b, entry[b].value).out, to, c)} |
          0 <= b < p.Count() && entry[b].Some? && EdgeDescribes(m, WalkBlock(p, b, entry[b].value).out, to, c) ::
        to < p.Count() && entry[to].Some? && m.describes(entry[to].value, c))
  }

  /** An edge of a walked block leads to a walked block, and its entry state describes what
      the edge does. */
  lemma EdgeEnters<S(!new), T, C(!new)>(p: Problem<S, T>, m: Meaning<S, C>, fin: State<S, T>, b: nat, to: nat, c: C)
    requires Finished(p, fin) && SoundFlow(p.flow, m) && b < p.Count() && fin.visits[b] > 0
    requires EdgeDescribes(m, WalkBlock(p, b, Entry(p, fin, b)).out, to, c)
    ensures to < p.Count() && fin.visits[to] > 0 && m.describes(Entry(p, fin, to), c)
  {
    var out := WalkBlock(p, b, Entry(p, fin, b)).out;
    assert BlockInv(p, fin, b);
    var j := Place(out, to);
    assert out[j].0 == to && Find(fin.into[to], b) == Some(out[j].1);
    assert BlockInv(p, fin, to);
    var es := fin.into[to];
    var i := Place(es, b);
    assert es[i] == (b, out[j].1);
    if !(p.Rooted(to) || fin.saturated[to]) {
      JoinFromDescribes(p.flow, m, es[0].1, es, 1, c);
    }
  }

  /** A finished run is closed, saturated blocks included. */
  lemma FinishedIsClosed<S(!new), T, C(!new)>(p: Problem<S, T>, m: Meaning<S, C>, fin: State<S, T>)
    requires Finished(p, fin) && SoundFlow(p.flow, m)
    ensures Closed(p, m, Entries(p, fin))
  {
    var entry := Entries(p, fin);
    forall b | 0 <= b < p.Count() && p.Rooted(b)
      ensures entry[b] == Some(p.flow.empty)
    {
      assert BlockInv(p, fin, b);
    }
    forall b, to: nat, c {:trigger EdgeDescribes(m, WalkBlock(p, b, entry[b].value).out, to, c)} | 0 <= b < p.Count() && entry[b].Some? && EdgeDescribes(m, WalkBlock(p, b, entry[b].value).out, to, c)
      ensures to < p.Count() && entry[to].Some? && m.describes(entry[to].value, c)
    {
      EdgeEnters(p, m, fin, b, to, c);
    }
  }

  /** The walk of block `b` describes the point `x`. */
  ghost predicate Describes<S, T, C>(p: Problem<S, T>, m: Meaning<S, C>, entry: seq<Option<S>>, b: nat, x: Point<C>)
    requires p.Valid()
  {
    && b < p.Count() == |entry| && entry[b].Some?
    && p.cfg.start[b] <= x.i < p.End(b) && x.i < |p.insns| && x.k <= |p.insns[x.i].ops|
    && var s := entry[b].value;
    && WalkInsns(p, p.cfg.start[b], x.i, Walk(s, [], [], true)).falls
    && WalkTo(p, b, s, x.i, x.k).falls
    && m.describes(WalkTo(p, b, s, x.i, x.k).st, x.c)
  }

  /** The edge a jump at the point `x` makes. */
  lemma JumpMakesEdge<S(!new), T, C(!new)>(p: Problem<S, T>, m: Meaning<S, C>, i: nat, op: PcodeOp, w: Walk<S, T>, t: nat, c: C) returns (to: nat)
    requires JoinSound(p.flow, m) && Ascending(w.out) && i < |p.insns| && m.describes(w.st, c)
    requires IsJump(op) && Target(op) == Some(t) && t in p.cfg.startAddr
    ensures to < |p.cfg.startAddr| && p.cfg.startAddr[to] == t
    ensures EdgeDescribes(m, WalkOp(p, i, op, w).out, to, c)
  {
    to := BlockOf(p.cfg.startAddr, t).value;
    AddEdgeDescribes(p.flow, m, w.out, to, w.st, to, c);
  }

  /** The jump at the point `x` leads to the block of its target, with the state there. */
  lemma JumpLeads<S(!new), T, C(!new)>(p: Problem<S, T>, m: Meaning<S, C>, b: nat, s: S, i: nat, k: nat, t: nat, c: C) returns (to: nat)
    requires p.Valid() && JoinSound(p.flow, m) && b < p.Count()
    requires p.cfg.start[b] <= i < p.End(b) && i < |p.insns| && k < |p.insns[i].ops|
    requires WalkInsns(p, p.cfg.start[b], i, Walk(s, [], [], true)).falls && m.describes(WalkTo(p, b, s, i, k).st, c)
    requires IsJump(p.insns[i].ops[k]) && Target(p.insns[i].ops[k]) == Some(t) && t in p.cfg.startAddr
    ensures to < p.Count() && p.cfg.startAddr[to] == t && EdgeDescribes(m, WalkBlock(p, b, s).out, to, c)
  {
    var w0: Walk<S, T> := Walk(s, [], [], true);
    InsnsBelow(p, p.cfg.start[b], i, w0);
    OpsBelow(p, i, k, WalkInsns(p, p.cfg.start[b], i, w0));
    to := JumpMakesEdge(p, m, i, p.insns[i].ops[k], WalkTo(p, b, s, i, k), t, c);
    NextOp(p, b, s, i, k);
    EdgeOfBlock(p, m, b, s, i, k + 1, to, c);
  }

  /** A block an edge leads to is described from its start. */
  lemma BlockEntered<S(!new), T, C(!new)>(p: Problem<S, T>, m: Meaning<S, C>, entry: seq<Option<S>>, b: nat, to: nat, y: Point<C>)
    requires p.Valid() && Tiled(p) && Closed(p, m, entry) && b < p.Count() && entry[b].Some? && to < p.Count()
    requires EdgeDescribes(m, WalkBlock(p, b, entry[b].value).out, to, y.c) && y.i == p.cfg.start[to] && y.k == 0
    ensures Describes(p, m, entry, to, y)
  {
    BlockOrder(p, to);
    assert FlowsOn(p, to);
  }

  lemma JumpDescribed<S(!new), T, C(!new)>(p: Problem<S, T>, m: Meaning<S, C>, entry: seq<Option<S>>, b: nat, x: Point<C>, y: Point<C>) returns (to: nat)
    requires p.Valid() && Tiled(p) && Closed(p, m, entry) && SoundFlow(p.flow, m) && TargetsStartBlocks(p) && DistinctAddresses(p.insns)
    requires Describes(p, m, entry, b, x) && y.i < |p.insns| && x.k < |p.insns[x.i].ops|
    requires IsJump(p.insns[x.i].ops[x.k]) && Target(p.insns[x.i].ops[x.k]) == Some(p.insns[y.i].address) && y.k == 0 && y.c == x.c
    ensures Describes(p, m, entry, to, y)
  {
    to := JumpLeads(p, m, b, entry[b].value, x.i, x.k, p.insns[y.i].address, x.c);
    BlockEntered(p, m, entry, b, to, y);
  }

  /** A block that falls through brings its state to the next one. */
  lemma FallMakesEdge<S(!new), T, C(!new)>(p: Problem<S, T>, m: Meaning<S, C>, b: nat, s: S, c: C)
    requires p.Valid() && JoinSound(p.flow, m) && b < p.Count() && p.HasNext(b) && p.cfg.start[b] <= p.End(b) <= |p.insns|
    requires var w := WalkInsns(p, p.cfg.start[b], p.End(b), Walk(s, [], [], true)); w.falls && m.describes(w.st, c)
    ensures EdgeDescribes(m, WalkBlock(p, b, s).out, b + 1, c)
  {
    var w0: Walk<S, T> := Walk(s, [], [], true);
    InsnsBelow(p, p.cfg.start[b], p.End(b), w0);
    var w := WalkInsns(p, p.cfg.start[b], p.End(b), w0);
    AddEdgeDescribes(p.flow, m, w.out, b + 1, w.st, b + 1, c);
  }

  /** Behind an instruction walked the state is as at its end. */
  lemma AfterInsn<S(!new), T, C(!new)>(p: Problem<S, T>, m: Meaning<S, C>, entry: seq<Option<S>>, b: nat, x: Point<C>)
    requires p.Valid() && Describes(p, m, entry, b, x) && x.k == |p.insns[x.i].ops|
    ensures b < p.Count() && entry[b].Some? && p.cfg.start[b] <= x.i < p.End(b)
    ensures var w := WalkInsns(p, p.cfg.start[b], x.i + 1, Walk(entry[b].value, [], [], true)); w.falls && m.describes(w.st, x.c)
  {
    WholeInsn(p, p.cfg.start[b], x.i, Walk(entry[b].value, [], [], true));
  }

  lemma FallInside<S(!new), T, C(!new)>(p: Problem<S, T>, m: Meaning<S, C>, entry: seq<Option<S>>, b: nat, y: Point<C>)
    requires p.Valid() && b < p.Count() == |entry| && entry[b].Some? && p.cfg.start[b] <= y.i < p.End(b) && y.i < |p.insns| && y.k == 0
    requires var w := WalkInsns(p, p.cfg.start[b], y.i, Walk(entry[b].value, [], [], true)); w.falls && m.describes(w.st, y.c)
    ensures Describes(p, m, entry, b, y)
  {
    assert WalkTo(p, b, entry[b].value, y.i, 0) == WalkInsns(p, p.cfg.start[b], y.i, Walk(entry[b].value, [], [], true));
  }

  lemma FallOver<S(!new), T, C(!new)>(p: Problem<S, T>, m: Meaning<S, C>, entry: seq<Option<S>>, b: nat, y: Point<C>)
    requires p.Valid() && Tiled(p) && Closed(p, m, entry) && JoinSound(p.flow, m) && b < p.Count() && entry[b].Some?
    requires p.HasNext(b) && p.cfg.start[b + 1] == p.End(b) == y.i && p.cfg.start[b] <= y.i <= |p.insns| && y.k == 0
    requires var w := WalkInsns(p, p.cfg.start[b], y.i, Walk(entry[b].value, [], [], true)); w.falls && m.describes(w.st, y.c)
    ensures Describes(p, m, entry, b + 1, y)
  {
    FallMakesEdge(p, m, b, entry[b].value, y.c);
    BlockEntered(p, m, entry, b, b + 1, y);
  }

  lemma FallDescribed<S(!new), T, C(!new)>(p: Problem<S, T>, m: Meaning<S, C>, entry: seq<Option<S>>, b: nat, x: Point<C>, y: Point<C>) returns (to: nat)
    requires p.Valid() && Tiled(p) && Closed(p, m, entry) && JoinSound(p.flow, m)
    requires Describes(p, m, entry, b, x) && x.k == |p.insns[x.i].ops| && y == Point(x.i + 1, 0, x.c) && y.i < |p.insns|
    ensures Describes(p, m, entry, to, y)
  {
    AfterInsn(p, m, entry, b, x);
    if y.i < p.End(b) {
      to := b;
      FallInside(p, m, entry, b, y);
    } else {
      assert FlowsOn(p, b);
      to := b + 1;
      FallOver(p, m, entry, b, y);
    }
  }

  lemma OpDescribed<S(!new), T, C(!new)>(p: Problem<S, T>, m: Meaning<S, C>, i: nat, op: PcodeOp, w: Walk<S, T>, c: C, c': C)
    requires SoundFlow(p.flow, m) && i < |p.insns| && w.falls && m.describes(w.st, c)
    requires if IsCall(op) then m.callStep(c, c') else if IsJump(op) then op.opcode == CBranch && c' == c else !IsStop(op) && m.opStep(op, c, c')
    ensures WalkOp(p, i, op, w).falls && m.describes(WalkOp(p, i, op, w).st, c')
  {
  }

  lemma NextOp<S, T>(p: Problem<S, T>, b: nat, s: S, i: nat, k: nat)
    requires p.Valid() && b < p.Count() && p.cfg.start[b] <= i < p.End(b) && i < |p.insns| && k < |p.insns[i].ops|
    ensures WalkTo(p, b, s, i, k + 1) == WalkOp(p, i, p.insns[i].ops[k], WalkTo(p, b, s, i, k))
  {
  }

  /** A concrete step from a described point leads to a described point. */
  lemma StepDescribed<S(!new), T, C(!new)>(p: Problem<S, T>, m: Meaning<S, C>, entry: seq<Option<S>>, b: nat, x: Point<C>, y: Point<C>) returns (to: nat)
    requires p.Valid() && Tiled(p) && Closed(p, m, entry) && SoundFlow(p.flow, m) && TargetsStartBlocks(p) && DistinctAddresses(p.insns)
    requires Describes(p, m, entry, b, x) && Steps(p.insns, m, x, y)
    ensures Describes(p, m, entry, to, y)
  {
    if x.k == |p.insns[x.i].ops| {
      to := FallDescribed(p, m, entry, b, x, y);
    } else {
      var op := p.insns[x.i].ops[x.k];
      if IsJump(op) && y != Point(x.i, x.k + 1, x.c) {
        to := JumpDescribed(p, m, entry, b, x, y);
      } else {
        to := b;
        InsideDescribed(p, m, entry, b, x, y);
      }
    }
  }

  /** What a step inside an instruction does. */
  lemma InsideStep<S, C>(insns: seq<Insn>, m: Meaning<S, C>, x: Point<C>, y: Point<C>)
    requires Steps(insns, m, x, y) && x.k < |insns[x.i].ops| && y.i == x.i && y.k == x.k + 1
    requires IsJump(insns[x.i].ops[x.k]) ==> y.c == x.c && insns[x.i].ops[x.k].opcode == CBranch
    ensures var op := insns[x.i].ops[x.k];
      if IsCall(op) then m.callStep(x.c, y.c) else if IsJump(op) then op.opcode == CBranch && y.c == x.c else !IsStop(op) && m.opStep(op, x.c, y.c)
  {
  }

  /** A step inside an instruction leads to a described point. */
  lemma InsideDescribed<S(!new), T, C(!new)>(p: Problem<S, T>, m: Meaning<S, C>, entry: seq<Option<S>>, b: nat, x: Point<C>, y: Point<C>)
    requires p.Valid() && SoundFlow(p.flow, m) && Describes(p, m, entry, b, x) && Steps(p.insns, m, x, y)
    requires x.k < |p.insns[x.i].ops| && y.i == x.i && y.k == x.k + 1 && (IsJump(p.insns[x.i].ops[x.k]) ==> y.c == x.c && p.insns[x.i].ops[x.k].opcode == CBranch)
    ensures Describes(p, m, entry, b, y)
  {
    InsideStep(p.insns, m, x, y);
    OpDescribed(p, m, x.i, p.insns[x.i].ops[x.k], WalkTo(p, b, entry[b].value, x.i, x.k), x.c, y.c);
    NextOp(p, b, entry[b].value, x.i, x.k);
  }

  lemma {:induction false} RunDescribed<S(!new), T, C(!new)>(p: Problem<S, T>, m: Meaning<S, C>, entry: seq<Option<S>>, run: seq<Point<C>>, j: nat) returns (b: nat)
    requires p.Valid() && Tiled(p) && Closed(p, m, entry) && SoundFlow(p.flow, m) && TargetsStartBlocks(p) && DistinctAddresses(p.insns)
    requires IsRun(p, m, run) && j < |run|
    ensures Describes(p, m, entry, b, run[j])
  {
    if j == 0 {
      b :| 0 <= b < p.Count() && p.Rooted(b) && run[0].i == p.cfg.start[b];
      BlockOrder(p, b);
      assert FlowsOn(p, b);
    } else {
      var a := RunDescribed(p, m, entry, run, j - 1);
      assert Steps(p.insns, m, run[j - 1], run[j - 1 + 1]);
      b := StepDescribed(p, m, entry, a, run[j - 1], run[j]);
    }
  }
}
