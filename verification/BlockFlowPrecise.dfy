/**
 Precision of the flow: it forgets no more than its domain does. What holds of the empty state
 where the flow starts, is kept by the domain along the static edges and where states are
 joined, holds of every state recorded, unless a block is visited too often.
 */
module BlockFlowPrecise {
  import opened Pcode
  import opened EdgeList
  import opened BlockFlow
  import opened BlockFlowRun
  import opened BlockFlowBuild

  /** What holds of a state before op `k` of instruction `i`. */
  type Claim<!S> = (nat, nat, S) -> bool

  /** Op `k` of instruction `i` keeps the claim, and so do the edges it makes. */
  ghost predicate OpKeeps<S, T>(p: Problem<S, T>, at: Claim<S>, i: nat, k: nat, s: S)
    requires i < |p.insns| && k < |p.insns[i].ops|
  {
    var op := p.insns[i].ops[k];
    if IsCall(op) then at(i, k + 1, p.flow.afterCall(s))
    else if IsJump(op) then at(i, k + 1, s) && forall j: nat | j < |p.insns| && Target(op) == Some(p.insns[j].address) :: at(j, 0, s)
    else if IsStop(op) then at(i, k + 1, s)
    else at(i, k + 1, p.flow.apply(s, op))
  }

  ghost predicate OpsKeep<S(!new), T>(p: Problem<S, T>, at: Claim<S>) {
    forall i: nat, k: nat, s {:trigger OpKeeps(p, at, i, k, s)} | i < |p.insns| && k < |p.insns[i].ops| && at(i, k, s) :: OpKeeps(p, at, i, k, s)
  }

  ghost predicate FallKeeps<S, T>(p: Problem<S, T>, at: Claim<S>, i: nat, s: S) {
    i + 1 < |p.insns| && at(i, |p.insns[i].ops|, s) && !StopsFlow(p.insns[i]) ==> at(i + 1, 0, s)
  }

  ghost predicate FallsKeep<S(!new), T>(p: Problem<S, T>, at: Claim<S>) {
    forall i: nat, s :: FallKeeps(p, at, i, s)
  }

  ghost predicate JoinsKeep<S(!new), T>(p: Problem<S, T>, at: Claim<S>) {
    forall i: nat, s, t {:trigger at(i, 0, p.flow.join(s, t))} | at(i, 0, s) && at(i, 0, t) :: at(i, 0, p.flow.join(s, t))
  }

  /** The claim holds where block `b` starts from the empty state. */
  ghost predicate HoldsOfEmpty<S, T>(p: Problem<S, T>, at: Claim<S>, b: nat)
    requires p.Valid() && b < p.Count()
  {
    at(p.cfg.start[b], 0, p.flow.empty)
  }

  /** The claim is kept all over the lift. */
  ghost predicate Inductive<S(!new), T>(p: Problem<S, T>, at: Claim<S>)
    requires p.Valid()
  {
    && (forall b | 0 <= b < p.Count() && p.Rooted(b) :: HoldsOfEmpty(p, at, b))
    && OpsKeep(p, at) && FallsKeep(p, at) && JoinsKeep(p, at)
  }

  /** A block falls through to where it ends, or into one walked from the empty state anyway. */
  ghost predicate NextIsNext<S, T>(p: Problem<S, T>)
    requires p.Valid()
  {
    forall b | 0 <= b < p.Count() && p.HasNext(b) :: p.Rooted(b + 1) || p.cfg.start[b + 1] == p.End(b)
  }

  /** The snapshot is that of a state the claim holds of, at a wanted call. */
  ghost predicate IsClaimed<S(!new), T>(p: Problem<S, T>, at: Claim<S>, snap: (nat, T)) {
    exists i: nat, k: nat, s :: ClaimedBy(p, at, snap, i, k, s)
  }

  ghost predicate ClaimedBy<S, T>(p: Problem<S, T>, at: Claim<S>, snap: (nat, T), i: nat, k: nat, s: S) {
    && i < |p.insns| && k < |p.insns[i].ops| && IsCall(p.insns[i].ops[k]) && p.want(i) && at(i, k, s)
    && snap == (p.insns[i].address, p.flow.snapshot(s))
  }

  ghost predicate AllClaimed<S(!new), T>(p: Problem<S, T>, at: Claim<S>, snaps: seq<(nat, T)>) {
    forall j | 0 <= j < |snaps| :: IsClaimed(p, at, snaps[j])
  }

  // ---- a walk

  /** The claim holds of the state on an edge to block `b`. */
  ghost predicate EdgeClaimed<S, T>(p: Problem<S, T>, at: Claim<S>, b: nat, s: S)
    requires p.Valid()
  {
    b < p.Count() && (p.Rooted(b) || at(p.cfg.start[b], 0, s))
  }

  ghost predicate OutClaimed<S, T>(p: Problem<S, T>, at: Claim<S>, out: Edges<S>)
    requires p.Valid()
  {
    Ascending(out) && forall j | 0 <= j < |out| :: EdgeClaimed(p, at, out[j].0, out[j].1)
  }

  lemma EdgePut<S(!new), T>(p: Problem<S, T>, at: Claim<S>, out: Edges<S>, b: nat, s: S)
    requires p.Valid() && JoinsKeep(p, at) && OutClaimed(p, at, out) && EdgeClaimed(p, at, b, s)
    ensures OutClaimed(p, at, AddEdge(p.flow, out, b, s))
  {
    var i := Place(out, b);
    var t := if i < |out| && out[i].0 == b then p.flow.join(out[i].1, s) else s;
    PutFacts(out, b, t);
    assert i < |out| && out[i].0 == b ==> EdgeClaimed(p, at, b, out[i].1) && (!p.Rooted(b) ==> at(p.cfg.start[b], 0, p.flow.join(out[i].1, s)));
    assert EdgeClaimed(p, at, b, t);
    var r := Put(out, b, t);
    forall j | 0 <= j < |r| ensures EdgeClaimed(p, at, r[j].0, r[j].1) {
      assert r[j] == (b, t) || r[j] in out;
    }
  }

  /** What a walk at op `k` of instruction `i` has claimed. */
  ghost predicate WalkClaimed<S(!new), T>(p: Problem<S, T>, at: Claim<S>, w: Walk<S, T>, i: nat, k: nat)
    requires p.Valid()
  {
    at(i, k, w.st) && OutClaimed(p, at, w.out) && AllClaimed(p, at, w.snaps)
  }

  lemma JumpClaimed<S(!new), T>(p: Problem<S, T>, at: Claim<S>, i: nat, k: nat, w: Walk<S, T>)
    requires p.Valid() && OpsKeep(p, at) && JoinsKeep(p, at) && i < |p.insns| && k < |p.insns[i].ops| && IsJump(p.insns[i].ops[k])
    requires WalkClaimed(p, at, w, i, k)
    ensures OutClaimed(p, at, JumpEdge(p, p.insns[i].ops[k], w))
  {
    assert OpKeeps(p, at, i, k, w.st);
    match Target(p.insns[i].ops[k])
    case None =>
    case Some(t) =>
      match BlockOf(p.cfg.startAddr, t)
      case None =>
      case Some(b) =>
        assert at(p.cfg.start[b], 0, w.st);
        EdgePut(p, at, w.out, b, w.st);
  }

  lemma CallClaimed<S(!new), T>(p: Problem<S, T>, at: Claim<S>, i: nat, k: nat, w: Walk<S, T>)
    requires p.Valid() && i < |p.insns| && k < |p.insns[i].ops| && IsCall(p.insns[i].ops[k]) && p.want(i)
    requires WalkClaimed(p, at, w, i, k)
    ensures AllClaimed(p, at, w.snaps + [(p.insns[i].address, p.flow.snapshot(w.st))])
  {
    assert ClaimedBy(p, at, (p.insns[i].address, p.flow.snapshot(w.st)), i, k, w.st);
  }

  lemma OpClaimed<S(!new), T>(p: Problem<S, T>, at: Claim<S>, i: nat, k: nat, w: Walk<S, T>)
    requires p.Valid() && OpsKeep(p, at) && JoinsKeep(p, at) && i < |p.insns| && k < |p.insns[i].ops| && WalkClaimed(p, at, w, i, k)
    ensures WalkClaimed(p, at, WalkOp(p, i, p.insns[i].ops[k], w), i, k + 1)
  {
    var op := p.insns[i].ops[k];
    assert OpKeeps(p, at, i, k, w.st);
    if IsCall(op) {
      if p.want(i) { CallClaimed(p, at, i, k, w); }
    } else if IsJump(op) {
      JumpClaimed(p, at, i, k, w);
    }
  }

  lemma {:induction false} OpsClaimed<S(!new), T>(p: Problem<S, T>, at: Claim<S>, i: nat, k: nat, w: Walk<S, T>)
    requires p.Valid() && OpsKeep(p, at) && JoinsKeep(p, at) && i < |p.insns| && k <= |p.insns[i].ops| && WalkClaimed(p, at, w, i, 0)
    ensures WalkClaimed(p, at, WalkOps(p, i, k, w), i, k)
  {
    if k > 0 {
      OpsClaimed(p, at, i, k - 1, w);
      OpClaimed(p, at, i, k - 1, WalkOps(p, i, k - 1, w));
    }
  }

  /** What falls through has no op that stops. */
  lemma {:induction false} FallsPast<S, T>(p: Problem<S, T>, i: nat, k: nat, w: Walk<S, T>)
    requires i < |p.insns| && k <= |p.insns[i].ops| && WalkOps(p, i, k, w).falls
    ensures forall l | 0 <= l < k :: !IsStop(p.insns[i].ops[l])
  {
    if k > 0 { FallsPast(p, i, k - 1, w); }
  }

  /** A walk between instructions: the claim holds of it where it goes on. */
  ghost predicate GoesClaimed<S(!new), T>(p: Problem<S, T>, at: Claim<S>, w: Walk<S, T>, i: nat)
    requires p.Valid()
  {
    (w.falls && i < |p.insns| ==> at(i, 0, w.st)) && OutClaimed(p, at, w.out) && AllClaimed(p, at, w.snaps)
  }

  lemma InsnClaimed<S(!new), T>(p: Problem<S, T>, at: Claim<S>, i: nat, w: Walk<S, T>)
    requires p.Valid() && OpsKeep(p, at) && JoinsKeep(p, at) && FallsKeep(p, at) && i < |p.insns| && w.falls && GoesClaimed(p, at, w, i)
    ensures GoesClaimed(p, at, WalkOps(p, i, |p.insns[i].ops|, w), i + 1)
  {
    OpsClaimed(p, at, i, |p.insns[i].ops|, w);
    if WalkOps(p, i, |p.insns[i].ops|, w).falls { FallsPast(p, i, |p.insns[i].ops|, w); }
    assert FallKeeps(p, at, i, WalkOps(p, i, |p.insns[i].ops|, w).st);
  }

  lemma {:induction false} InsnsClaimed<S(!new), T>(p: Problem<S, T>, at: Claim<S>, from: nat, to: nat, w: Walk<S, T>)
    requires p.Valid() && OpsKeep(p, at) && JoinsKeep(p, at) && FallsKeep(p, at) && from <= to <= |p.insns| && GoesClaimed(p, at, w, from)
    ensures GoesClaimed(p, at, WalkInsns(p, from, to, w), to)
  {
    if from < to {
      InsnsClaimed(p, at, from, to - 1, w);
      if WalkInsns(p, from, to - 1, w).falls { InsnClaimed(p, at, to - 1, WalkInsns(p, from, to - 1, w)); }
    }
  }

  lemma BlockClaimed<S(!new), T>(p: Problem<S, T>, at: Claim<S>, b: nat, s: S)
    requires p.Valid() && NextIsNext(p) && OpsKeep(p, at) && JoinsKeep(p, at) && FallsKeep(p, at)
    requires b < p.Count() && at(p.cfg.start[b], 0, s)
    ensures OutClaimed(p, at, WalkBlock(p, b, s).out) && AllClaimed(p, at, WalkBlock(p, b, s).snaps)
  {
    BlockOrder(p, b);
    var w0: Walk<S, T> := Walk(s, [], [], true);
    InsnsClaimed(p, at, p.cfg.start[b], p.End(b), w0);
    var w := WalkInsns(p, p.cfg.start[b], p.End(b), w0);
    if w.falls && p.HasNext(b) { EdgePut(p, at, w.out, b + 1, w.st); }
  }

  // ---- a run

  ghost predicate IntoClaimed<S, T>(p: Problem<S, T>, at: Claim<S>, into: Edges<S>, b: nat)
    requires p.Valid() && b < p.Count()
  {
    p.Rooted(b) || forall j | 0 <= j < |into| :: at(p.cfg.start[b], 0, into[j].1)
  }

  /** What a run has claimed so far. */
  ghost predicate RunClaimed<S(!new), T>(p: Problem<S, T>, at: Claim<S>, st: State<S, T>) {
    && Inv(p, st) && AllClaimed(p, at, st.snaps)
    && forall b | 0 <= b < p.Count() :: IntoClaimed(p, at, st.into[b], b)
  }

  ghost predicate AllInto<S, T>(p: Problem<S, T>, at: Claim<S>, st: State<S, T>)
    requires Shaped(p, st)
  {
    forall b | 0 <= b < p.Count() :: IntoClaimed(p, at, st.into[b], b)
  }

  lemma DeliverOneClaimed<S(!new), T>(p: Problem<S, T>, at: Claim<S>, b: nat, to: nat, s: S, st: State<S, T>)
    requires Shaped(p, st) && AllInto(p, at, st) && EdgeClaimed(p, at, to, s)
    ensures AllInto(p, at, DeliverOne(p, b, to, s, st))
  {
    var r := DeliverOne(p, b, to, s, st);
    forall c | 0 <= c < p.Count() ensures IntoClaimed(p, at, r.into[c], c) {
      assert IntoClaimed(p, at, st.into[c], c);
      if c == to && r != st {
        forall j | 0 <= j < |r.into[to]| ensures r.into[to][j] == (b, s) || r.into[to][j] in st.into[to] {
        }
      }
    }
  }

  lemma {:induction false} DeliverClaimed<S(!new), T>(p: Problem<S, T>, at: Claim<S>, b: nat, out: Edges<S>, i: nat, st: State<S, T>)
    requires Shaped(p, st) && Below(out, p.Count()) && i <= |out| && AllInto(p, at, st) && OutClaimed(p, at, out)
    ensures AllInto(p, at, Deliver(p, b, out, i, st))
    decreases |out| - i
  {
    if i < |out| {
      DeliverOneClaimed(p, at, b, out[i].0, out[i].1, st);
      DeliverClaimed(p, at, b, out, i + 1, DeliverOne(p, b, out[i].0, out[i].1, st));
      DeliverNext(p, b, out, i, st);
    }
  }

  lemma {:induction false} JoinClaimed<S(!new), T>(p: Problem<S, T>, at: Claim<S>, n: nat, acc: S, es: Edges<S>, i: nat)
    requires JoinsKeep(p, at) && i <= |es| && at(n, 0, acc) && forall j | i <= j < |es| :: at(n, 0, es[j].1)
    ensures at(n, 0, JoinFrom(p.flow, acc, es, i))
    decreases |es| - i
  {
    if i < |es| { JoinClaimed(p, at, n, p.flow.join(acc, es[i].1), es, i + 1); }
  }

  /** The state a block is walked from is claimed; of the empty one at the cap this must be given. */
  lemma EntryClaimed<S(!new), T>(p: Problem<S, T>, at: Claim<S>, st: State<S, T>, b: nat)
    requires Shaped(p, st) && AllInto(p, at, st) && Inductive(p, at) && b < p.Count()
    requires p.Rooted(b) || st.into[b] != []
    requires st.saturated[b] ==> HoldsOfEmpty(p, at, b)
    ensures at(p.cfg.start[b], 0, Entry(p, st, b))
  {
    if p.Rooted(b) {
      assert HoldsOfEmpty(p, at, b);
    } else if !st.saturated[b] {
      assert IntoClaimed(p, at, st.into[b], b);
      JoinClaimed(p, at, p.cfg.start[b], st.into[b][0].1, st.into[b], 1);
    }
  }

  lemma ClaimedConcat<S(!new), T>(p: Problem<S, T>, at: Claim<S>, a: seq<(nat, T)>, b: seq<(nat, T)>)
    requires AllClaimed(p, at, a) && AllClaimed(p, at, b)
    ensures AllClaimed(p, at, a + b)
  {
  }

  lemma StepClaimed<S(!new), T>(p: Problem<S, T>, at: Claim<S>, st: State<S, T>)
    requires RunClaimed(p, at, st) && st.work != [] && NextIsNext(p) && Inductive(p, at)
    requires var b := st.work[0]; Step(p, st).saturated[b] ==> HoldsOfEmpty(p, at, b)
    ensures RunClaimed(p, at, Step(p, st))
  {
    var b, r := st.work[0], Step(p, st);
    StepKeeps(p, st);
    if !st.saturated[b] {
      StepIsEmit(p, st);
      assert BlockInv(p, st, b);
      var q := Popped(p, st);
      var s := Entry(p, q, b);
      var w := WalkBlock(p, b, s);
      WalkBelow(p, b, s);
      DeliverFacts(p, b, w.out, q.(snaps := q.snaps + w.snaps));
      EntryClaimed(p, at, q, b);
      BlockClaimed(p, at, b, s);
      ClaimedConcat(p, at, q.snaps, w.snaps);
      DeliverClaimed(p, at, b, w.out, 0, q.(snaps := q.snaps + w.snaps));
    }
  }

  /** A block walked no more stays so. */
  lemma StepSaturates<S, T>(p: Problem<S, T>, st: State<S, T>, b: nat)
    requires Inv(p, st) && st.work != [] && b < p.Count() && st.saturated[b]
    ensures Step(p, st).saturated[b]
  {
    if !st.saturated[st.work[0]] {
      StepIsEmit(p, st);
      var q := Popped(p, st);
      var s := Entry(p, q, st.work[0]);
      var w := WalkBlock(p, st.work[0], s);
      WalkBelow(p, st.work[0], s);
      DeliverFacts(p, st.work[0], w.out, q.(snaps := q.snaps + w.snaps));
    }
  }

  lemma {:induction false} RunSaturates<S, T>(p: Problem<S, T>, st: State<S, T>, b: nat)
    requires Inv(p, st) && b < p.Count() && st.saturated[b]
    ensures Run(p, st).saturated[b]
    decreases Left(p, st.visits, p.Count()), |st.work|
  {
    if st.work != [] {
      StepKeeps(p, st);
      StepDecreases(p, st);
      StepSaturates(p, st, b);
      RunSaturates(p, Step(p, st), b);
    }
  }

  /** Of the blocks visited too often the claim holds from the empty state. */
  ghost predicate CappedHold<S, T>(p: Problem<S, T>, at: Claim<S>, fin: State<S, T>)
    requires Shaped(p, fin)
  {
    forall b | 0 <= b < p.Count() && fin.saturated[b] :: HoldsOfEmpty(p, at, b)
  }

  lemma {:induction false} RunIsClaimed<S(!new), T>(p: Problem<S, T>, at: Claim<S>, st: State<S, T>)
    requires RunClaimed(p, at, st) && NextIsNext(p) && Inductive(p, at) && CappedHold(p, at, Run(p, st))
    ensures RunClaimed(p, at, Run(p, st))
    decreases Left(p, st.visits, p.Count()), |st.work|
  {
    if st.work != [] {
      StepKeeps(p, st);
      StepDecreases(p, st);
      var b := st.work[0];
      if Step(p, st).saturated[b] { RunSaturates(p, Step(p, st), b); }
      StepClaimed(p, at, st);
      RunIsClaimed(p, at, Step(p, st));
    }
  }

  /** Precision: whatever claim is kept all over the lift, every snapshot recorded is that of a
      state at a wanted call it holds of. */
  lemma FlowIsPrecise<S(!new), T>(p: Problem<S, T>, at: Claim<S>)
    requires p.Valid() && NextIsNext(p) && Inductive(p, at)
    ensures Inv(p, Initial(p))
    ensures CappedHold(p, at, Run(p, Initial(p))) ==> AllClaimed(p, at, Run(p, Initial(p)).snaps)
  {
    InitialInv(p);
    if CappedHold(p, at, Run(p, Initial(p))) { RunIsClaimed(p, at, Initial(p)); }
  }
}
