/**
 The snapshots a run records: the last one at each call is its block's last walk's, so it
 describes every concrete run that reaches the call.
 */
module BlockFlowSnaps {
  import opened Pcode
  import opened EdgeList
  import opened BlockFlow
  import opened BlockFlowRun
  import opened BlockFlowSound

  ghost predicate InBlock<S, T>(p: Problem<S, T>, b: nat, i: nat)
    requires p.Valid() && b < p.Count()
  {
    p.cfg.start[b] <= i < p.End(b)
  }

  /** The instruction at the address `a` is in no two blocks. */
  ghost predicate InOneBlock<S, T>(p: Problem<S, T>, a: nat)
    requires p.Valid()
  {
    forall b, c, i: nat | 0 <= b < p.Count() && 0 <= c < p.Count() && InBlock(p, b, i) && InBlock(p, c, i) && i < |p.insns| && p.insns[i].address == a ::
      b == c
  }

  lemma IndexedInOneBlock<S, T>(p: Problem<S, T>, a: nat)
    requires p.Valid() && !p.cfg.legacy
    ensures InOneBlock(p, a)
  {
    forall b, c | 0 <= b < c < p.Count() ensures p.End(b) <= p.cfg.start[c] {
      assert b + 1 < c ==> p.cfg.start[b + 1] < p.cfg.start[c];
    }
  }

  /** The snapshots of the last walk of each block are the last ones recorded, at addresses of
      one block. */
  ghost predicate SnapsUpToDate<S, T>(p: Problem<S, T>, st: State<S, T>, b: nat)
    requires Shaped(p, st) && b < p.Count()
  {
    UpToDate(p, st, b) ==>
      var w := WalkBlock(p, b, Entry(p, st, b));
      forall a | InOneBlock(p, a) && LastAt(w.snaps, a).Some? :: LastAt(st.snaps, a) == LastAt(w.snaps, a)
  }

  ghost predicate SnapInv<S, T>(p: Problem<S, T>, st: State<S, T>) {
    Shaped(p, st) && forall b | 0 <= b < p.Count() :: SnapsUpToDate(p, st, b)
  }

  lemma {:induction false} OpsSnaps<S, T>(p: Problem<S, T>, i: nat, k: nat, w: Walk<S, T>, a: nat)
    requires i < |p.insns| && k <= |p.insns[i].ops| && a != p.insns[i].address
    ensures LastAt(WalkOps(p, i, k, w).snaps, a) == LastAt(w.snaps, a)
  {
    if k > 0 {
      OpsSnaps(p, i, k - 1, w, a);
      var v := WalkOps(p, i, k - 1, w);
      LastAtConcat(v.snaps, [(p.insns[i].address, p.flow.snapshot(v.st))], a);
    }
  }

  lemma {:induction false} InsnsSnaps<S, T>(p: Problem<S, T>, from: nat, mid: nat, end: nat, w: Walk<S, T>, a: nat)
    requires from <= mid <= end <= |p.insns| && forall i | mid <= i < end :: p.insns[i].address != a
    ensures LastAt(WalkInsns(p, from, end, w).snaps, a) == LastAt(WalkInsns(p, from, mid, w).snaps, a)
    decreases end
  {
    if mid < end {
      InsnsSnaps(p, from, mid, end - 1, w, a);
      OpsSnaps(p, end - 1, |p.insns[end - 1].ops|, WalkInsns(p, from, end - 1, w), a);
    }
  }

  /** A block records snapshots at the addresses of its own instructions only. */
  lemma ForeignAddress<S, T>(p: Problem<S, T>, b: nat, s: S, c: nat, s': S, a: nat)
    requires p.Valid() && DistinctAddresses(p.insns) && InOneBlock(p, a) && b < p.Count() && c < p.Count() && b != c
    requires LastAt(WalkBlock(p, c, s').snaps, a).Some?
    ensures LastAt(WalkBlock(p, b, s).snaps, a) == None
  {
    BlockOrder(p, b);
    BlockOrder(p, c);
    if forall i | p.cfg.start[c] <= i < p.End(c) :: p.insns[i].address != a {
      InsnsSnaps(p, p.cfg.start[c], p.cfg.start[c], p.End(c), Walk(s', [], [], true), a);
    }
    var i :| p.cfg.start[c] <= i < p.End(c) && p.insns[i].address == a;
    assert InBlock(p, c, i) && !InBlock(p, b, i);
    InsnsSnaps(p, p.cfg.start[b], p.cfg.start[b], p.End(b), Walk(s, [], [], true), a);
  }

  /** What `Step` records and leaves as it was. */
  lemma StepSnaps<S, T>(p: Problem<S, T>, st: State<S, T>)
    requires Inv(p, st) && st.work != []
    ensures var r, b := Step(p, st), st.work[0];
      && (st.saturated[b] ==> r.snaps == st.snaps)
      && (!st.saturated[b] ==> r.snaps == st.snaps + WalkBlock(p, b, Entry(p, Popped(p, st), b)).snaps)
      && (!st.saturated[b] && UpToDate(p, r, b) ==> Entry(p, r, b) == Entry(p, Popped(p, st), b))
      && (forall c | 0 <= c < p.Count() && (c != b || st.saturated[b]) && UpToDate(p, r, c) ::
            UpToDate(p, st, c) && Entry(p, r, c) == Entry(p, st, c))
  {
    var b, r := st.work[0], Step(p, st);
    assert BlockInv(p, st, b);
    if !st.saturated[b] {
      StepIsEmit(p, st);
      var popped := Popped(p, st);
      var w := WalkBlock(p, b, Entry(p, popped, b));
      WalkBelow(p, b, Entry(p, popped, b));
      DeliverFacts(p, b, w.out, popped.(snaps := popped.snaps + w.snaps));
    }
    assert forall c | 0 <= c < p.Count() && c != b :: c in st.work[1..] <==> c in st.work;
  }

  lemma StepKeepsSnaps<S, T>(p: Problem<S, T>, st: State<S, T>)
    requires Inv(p, st) && SnapInv(p, st) && st.work != [] && DistinctAddresses(p.insns)
    ensures SnapInv(p, Step(p, st))
  {
    var b, r := st.work[0], Step(p, st);
    StepSnaps(p, st);
    forall c | 0 <= c < p.Count() ensures SnapsUpToDate(p, r, c) {
      if UpToDate(p, r, c) {
        var w := WalkBlock(p, c, Entry(p, r, c));
        forall a | InOneBlock(p, a) && LastAt(w.snaps, a).Some? ensures LastAt(r.snaps, a) == LastAt(w.snaps, a) {
          if c != b || st.saturated[b] {
            assert SnapsUpToDate(p, st, c);
          }
          if !st.saturated[b] {
            var s := Entry(p, Popped(p, st), b);
            LastAtConcat(st.snaps, WalkBlock(p, b, s).snaps, a);
            if c != b { ForeignAddress(p, b, s, c, Entry(p, r, c), a); }
          }
        }
      }
    }
  }

  lemma {:induction false} RunKeepsSnaps<S, T>(p: Problem<S, T>, st: State<S, T>)
    requires Inv(p, st) && SnapInv(p, st) && DistinctAddresses(p.insns)
    ensures SnapInv(p, Run(p, st))
    decreases Left(p, st.visits, p.Count()), |st.work|
  {
    if st.work != [] {
      StepKeeps(p, st);
      StepDecreases(p, st);
      StepKeepsSnaps(p, st);
      RunKeepsSnaps(p, Step(p, st));
    }
  }

  lemma {:induction false} NoCallNoSnap<S, T>(p: Problem<S, T>, i: nat, k: nat, l: nat, w: Walk<S, T>)
    requires i < |p.insns| && k <= l <= |p.insns[i].ops| && forall j | k <= j < l :: !IsCall(p.insns[i].ops[j])
    ensures WalkOps(p, i, l, w).snaps == WalkOps(p, i, k, w).snaps
    decreases l
  {
    if k < l { NoCallNoSnap(p, i, k, l - 1, w); }
  }

  /** The snapshot a block's walk records at a call. */
  lemma CallSnapshot<S, T>(p: Problem<S, T>, b: nat, s: S, i: nat, k: nat)
    requires p.Valid() && DistinctAddresses(p.insns) && b < p.Count()
    requires p.cfg.start[b] <= i < p.End(b) && i < |p.insns| && k < |p.insns[i].ops|
    requires IsLastCall(p.insns[i], k) && p.want(i)
    requires WalkInsns(p, p.cfg.start[b], i, Walk(s, [], [], true)).falls
    ensures LastAt(WalkBlock(p, b, s).snaps, p.insns[i].address) == Some(p.flow.snapshot(WalkTo(p, b, s, i, k).st))
  {
    BlockOrder(p, b);
    var w0: Walk<S, T> := Walk(s, [], [], true);
    var v := WalkInsns(p, p.cfg.start[b], i, w0);
    var a, t := p.insns[i].address, p.flow.snapshot(WalkTo(p, b, s, i, k).st);
    LastAtConcat(WalkTo(p, b, s, i, k).snaps, [(a, t)], a);
    assert LastAt([(a, t)], a) == Some(t);
    NoCallNoSnap(p, i, k + 1, |p.insns[i].ops|, v);
    assert WalkInsns(p, p.cfg.start[b], i + 1, w0).snaps == WalkTo(p, b, s, i, k).snaps + [(a, t)];
    InsnsSnaps(p, p.cfg.start[b], i + 1, p.End(b), w0, a);
  }

  /** Soundness: when the domain is sound, at each wanted call a concrete run executes (the last
      one of its instruction), the last snapshot recorded for the call is that of a state describing the concrete one. */
  lemma FlowIsSound<S(!new), T, C(!new)>(p: Problem<S, T>, m: Meaning<S, C>, run: seq<Point<C>>, j: nat)
    requires p.Valid() && Tiled(p) && p.cfg.relevant == None && TargetsStartBlocks(p)
    requires DistinctAddresses(p.insns) && SoundFlow(p.flow, m)
    requires IsRun(p, m, run) && j < |run|
    requires run[j].i < |p.insns| && IsLastCall(p.insns[run[j].i], run[j].k) && p.want(run[j].i)
    requires InOneBlock(p, p.insns[run[j].i].address)
    ensures Inv(p, Initial(p))
    ensures exists s ::
        m.describes(s, run[j].c) && LastAt(Run(p, Initial(p)).snaps, p.insns[run[j].i].address) == Some(p.flow.snapshot(s))
  {
    InitialInv(p);
    var fin := Run(p, Initial(p));
    var entry := Entries(p, fin);
    FinishedIsClosed(p, m, fin);
    var b := RunDescribed(p, m, entry, run, j);
    RunKeepsSnaps(p, Initial(p));
    assert SnapsUpToDate(p, fin, b);
    CallSnapshot(p, b, entry[b].value, run[j].i, run[j].k);
  }
}
