/**
 The flow of one function's owned calls, as the analyses run it: the blocks of the prefix the
 calls need, built from the marks, restricted to what reaches those calls, and walked. It
 records what the flow over the whole lift does.
 */
module BlockFlowOwned {
  import opened Pcode
  import opened BlockFlow
  import opened BlockFlowRun
  import opened BlockFlowSnaps
  import opened BlockFlowRestrict
  import opened BlockFlowBuild
  import opened BlockFlowCut
  import opened BlockFlowMake
  import opened BlockFlowMarks
  import opened BlockFlowLoop

  lemma {:induction false} TargetsInCut(lift: seq<Insn>, from: nat, i: nat, end: nat)
    requires from <= i <= end <= |lift|
    ensures TargetsIn(lift[..end], from, i) == TargetsIn(lift, from, i)
  {
    if from < i { TargetsInCut(lift, from, i - 1, end); }
  }

  /** The jumps kept with each block are its own, in op order. */
  lemma BuiltIsAligned<S, T>(p: Problem<S, T>, lift: seq<Insn>, external: set<nat>, inBody: nat -> bool, end: nat)
    requires 0 < end <= |lift| && p.Valid() && p.insns == lift[..end]
    requires p.cfg == CfgOf(lift, external, inBody, end).(relevant := p.cfg.relevant)
    ensures Aligned(p)
  {
    StartsFacts(lift, external, end);
    forall b: nat | b < p.Count()
      ensures BlockInLift(p, b) && p.cfg.jumps[b] == Resolve(p.cfg.startAddr, TargetsIn(p.insns, p.cfg.start[b], p.End(b)))
    {
      BlockOrder(p, b);
      TargetsInCut(lift, p.cfg.start[b], p.End(b), end);
    }
  }

  /** The snapshots of the owned calls, in the order the flow over the whole lift records
      them, though only a prefix of it is looked at and only some of its blocks are walked. */
  method OwnedSnapshots<S(==), T>(flow: Flow<S, T>, lift: seq<Insn>, external: seq<nat>, inBody: nat -> bool, owned: nat -> bool)
    returns (snaps: seq<(nat, T)>)
    requires Increasing(lift) && 0 < |lift|
    ensures var f := ProblemOf(flow, lift, ToSet(external), inBody, |lift|, owned);
      f.Valid() && Inv(f, Initial(f)) && snaps == Run(f, Initial(f)).snaps
  {
    var shape := ReadShape(lift);
    var marks := MakeMarks(shape, lift, external, owned);
    var end := Reach(shape, lift, external, owned, marks);
    ghost var f := ProblemOf(flow, lift, ToSet(external), inBody, |lift|, owned);
    if end == 0 {
      NothingOwned(f, flow, lift, ToSet(external), inBody, owned);
      return [];
    }
    ghost var last :| IsReach(lift, ToSet(external), owned, last, end);
    var cfg := BuildMarkedUpto(shape, lift, external, owned, marks, inBody, end);
    BlocksAreValid(ProblemOf(flow, lift, ToSet(external), inBody, end, owned), flow, lift, ToSet(external), inBody, end, owned);
    var rel := KeepCalls(cfg, end, owned);
    var g := Problem(flow, lift[..end], cfg.(relevant := Some(rel)), owned);
    TruncationIsInvisible(flow, lift, ToSet(external), inBody, owned, last, end, rel, f, g);
    BuiltIsAligned(g, lift, ToSet(external), inBody, end);
    snaps := Propagate(g);
  }

  // ---- only the calls wanted are recorded

  ghost predicate AllAt<T>(snaps: seq<(nat, T)>, at: nat -> bool) {
    forall k | 0 <= k < |snaps| :: at(snaps[k].0)
  }

  /** The instructions of the blocks that are wanted are at addresses of `at`. */
  ghost predicate WantsAt<S, T>(p: Problem<S, T>, at: nat -> bool)
    requires p.Valid()
  {
    forall b, i: nat | 0 <= b < p.Count() && InBlock(p, b, i) :: WantedAt(p, at, i)
  }

  ghost predicate WantedAt<S, T>(p: Problem<S, T>, at: nat -> bool, i: nat) {
    i < |p.insns| && p.want(i) ==> at(p.insns[i].address)
  }

  lemma {:induction false} OpsRecordAt<S, T>(p: Problem<S, T>, i: nat, k: nat, w: Walk<S, T>, at: nat -> bool)
    requires i < |p.insns| && k <= |p.insns[i].ops| && AllAt(w.snaps, at) && WantedAt(p, at, i)
    ensures AllAt(WalkOps(p, i, k, w).snaps, at)
  {
    if k > 0 { OpsRecordAt(p, i, k - 1, w, at); }
  }

  lemma {:induction false} InsnsRecordAt<S, T>(p: Problem<S, T>, from: nat, end: nat, w: Walk<S, T>, at: nat -> bool)
    requires from <= end <= |p.insns| && AllAt(w.snaps, at) && forall i: nat | from <= i < end :: WantedAt(p, at, i)
    ensures AllAt(WalkInsns(p, from, end, w).snaps, at)
  {
    if from < end {
      InsnsRecordAt(p, from, end - 1, w, at);
      OpsRecordAt(p, end - 1, |p.insns[end - 1].ops|, WalkInsns(p, from, end - 1, w), at);
    }
  }

  lemma StepRecordsAt<S, T>(p: Problem<S, T>, st: State<S, T>, at: nat -> bool)
    requires Inv(p, st) && st.work != [] && AllAt(st.snaps, at) && WantsAt(p, at)
    ensures AllAt(Step(p, st).snaps, at)
  {
    StepSnaps(p, st);
    var b := st.work[0];
    if !st.saturated[b] {
      BlockOrder(p, b);
      forall i: nat | p.cfg.start[b] <= i < p.End(b) ensures WantedAt(p, at, i) {
        assert InBlock(p, b, i);
      }
      InsnsRecordAt(p, p.cfg.start[b], p.End(b), Walk(Entry(p, Popped(p, st), b), [], [], true), at);
    }
  }

  lemma {:induction false} StatesRecordAt<S, T>(p: Problem<S, T>, st: State<S, T>, at: nat -> bool)
    requires Inv(p, st) && AllAt(st.snaps, at) && WantsAt(p, at)
    ensures AllAt(Run(p, st).snaps, at)
    decreases Left(p, st.visits, p.Count()), |st.work|
  {
    if st.work != [] {
      StepKeeps(p, st);
      StepDecreases(p, st);
      StepRecordsAt(p, st, at);
      StatesRecordAt(p, Step(p, st), at);
    }
  }

  /** The run records snapshots of the calls wanted of its blocks only. */
  lemma RunRecordsAt<S, T>(p: Problem<S, T>, at: nat -> bool)
    requires p.Valid() && WantsAt(p, at)
    ensures Inv(p, Initial(p)) && AllAt(Run(p, Initial(p)).snaps, at)
  {
    InitialInv(p);
    StatesRecordAt(p, Initial(p), at);
  }

  // ---- no call owned

  lemma NoneAt<T>(snaps: seq<(nat, T)>, at: nat -> bool)
    requires AllAt(snaps, at) && forall a: nat :: !at(a)
    ensures snaps == []
  {
    assert snaps != [] ==> at(snaps[0].0);
  }

  lemma NothingOwned<S, T>(f: Problem<S, T>, flow: Flow<S, T>, lift: seq<Insn>, external: set<nat>, inBody: nat -> bool, owned: nat -> bool)
    requires 0 < |lift| && f == ProblemOf(flow, lift, external, inBody, |lift|, owned)
    requires forall i: nat | i < |lift| :: !owned(i)
    ensures f.Valid() && Inv(f, Initial(f)) && Run(f, Initial(f)).snaps == []
  {
    BlocksAreValid(f, flow, lift, external, inBody, |lift|, owned);
    var none := (a: nat) => false;
    forall b, i: nat | 0 <= b < f.Count() && InBlock(f, b, i) ensures WantedAt(f, none, i) {
      assert f.want(i) == owned(i);
    }
    RunRecordsAt(f, none);
    NoneAt(Run(f, Initial(f)).snaps, none);
  }
}
