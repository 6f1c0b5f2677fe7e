/**
 The constants found are those the domain knows on every way to a call: nothing is lost where
 all ways agree, unless a block is visited too often.
 */
module PreciseConstants {
  import opened Pcode
  import opened Functions
  import opened CfgConst
  import opened BlockFlow
  import opened BlockFlowRun
  import opened BlockFlowSound
  import opened BlockFlowBuild
  import opened BlockFlowMarks
  import opened BlockFlowLegacy
  import opened BlockFlowWrap
  import opened BlockFlowEntries
  import opened BlockFlowPrecise
  import opened CallConstants

  ghost function FlowOf(f: Function): ConstProblem {
    ProblemOf(ConstFlow(), f.lift, ToSet(f.external), f.inBody, |f.lift|, OwnedAt(f))
  }

  /** The claim holds from nothing known where runs start, and the domain keeps it. */
  ghost predicate KeptAllOver(f: Function, at: Claim<Consts>) {
    && (forall i: nat | StartsRun(f.lift, ToSet(f.external), f.inBody, i) :: at(i, 0, NOTHING))
    && OpsKeep(FlowOf(f), at) && FallsKeep(FlowOf(f), at) && JoinsKeep(FlowOf(f), at)
  }

  /** Where the claim holds at a call at the address `a`, the register at `base` is known to hold
      `v`. */
  ghost predicate Knows(f: Function, at: Claim<Consts>, a: nat, base: nat, v: nat) {
    forall i: nat, k: nat, s | at(i, k, s) && i < |f.lift| && f.lift[i].address == a && k < |f.lift[i].ops| && IsCall(f.lift[i].ops[k]) ::
      base in FullValues(s) && FullValues(s)[base] == v
  }

  lemma FlowIsOf(f: Function, p: ConstProblem)
    requires f.lift != [] && Increasing(f.lift) && IsFlow(f, p)
    ensures p == FlowOf(f)
  {
  }

  /** The flow of a lift in order falls through to where a block ends, or into the entry. */
  lemma FlowFalls(f: Function, p: ConstProblem)
    requires f.lift != [] && InOrder(f.lift) && IsFlow(f, p) && p.Valid()
    ensures p.insns == f.lift && p.flow == ConstFlow() && NextIsNext(p)
  {
    assert f.lift[..|f.lift|] == f.lift;
    if !Increasing(f.lift) {
      var w :| WrapsAt(f.lift, w);
      forall b | 0 <= b < p.Count() && p.HasNext(b) ensures p.Rooted(b + 1) || p.cfg.start[b + 1] == p.End(b) {
        BlockEnds(p.cfg, f.lift, ToSet(f.external), f.inBody, w, b);
      }
    }
  }

  lemma KeptIsInductive(f: Function, p: ConstProblem, at: Claim<Consts>)
    requires f.lift != [] && Increasing(f.lift) && p == FlowOf(f) && p.Valid() && KeptAllOver(f, at)
    ensures Inductive(p, at)
  {
    forall b | 0 <= b < p.Count() && p.Rooted(b) ensures HoldsOfEmpty(p, at, b) {
      RootedIff(p, ConstFlow(), f.lift, ToSet(f.external), f.inBody, OwnedAt(f), b);
    }
  }

  lemma ClaimedKnows(f: Function, p: ConstProblem, at: Claim<Consts>, snap: (nat, Values), base: nat, v: nat)
    requires p.insns == f.lift && p.flow == ConstFlow() && Knows(f, at, snap.0, base, v) && IsClaimed(p, at, snap)
    ensures base in snap.1 && snap.1[base] == v
  {
    var i: nat, k: nat, s :| ClaimedBy(p, at, snap, i, k, s);
  }

  lemma {:induction false} LastIsTaken(snaps: Snaps, a: nat)
    requires LastAt(snaps, a).Some?
    ensures exists i :: 0 <= i < |snaps| && snaps[i].0 == a
  {
    if snaps[|snaps| - 1].0 != a {
      LastIsTaken(snaps[..|snaps| - 1], a);
      var i :| 0 <= i < |snaps[..|snaps| - 1]| && snaps[..|snaps| - 1][i].0 == a;
      assert snaps[i].0 == a;
    }
  }

  lemma ClaimedAgree(f: Function, p: ConstProblem, at: Claim<Consts>, snaps: Snaps, a: nat, base: nat, v: nat)
    requires p.insns == f.lift && p.flow == ConstFlow() && Knows(f, at, a, base, v) && AllClaimed(p, at, snaps)
    requires LastAt(snaps, a).Some?
    ensures Agree(snaps, a, base, v)
  {
    LastIsTaken(snaps, a);
    forall i | 0 <= i < |snaps| && snaps[i].0 == a ensures base in snaps[i].1 && snaps[i].1[base] == v {
      ClaimedKnows(f, p, at, snaps[i], base, v);
    }
  }

  /** A value known on every way of the flow to an owned call that a run reaches is among the
      constants merged there, if those merged before allow. */
  lemma FoundByFlow(f: Function, p: ConstProblem, before: AtCalls, out: AtCalls, at: Claim<Consts>, run: seq<Point<Machine>>, j: nat, base: nat, v: nat)
    requires IsFunction(f) && f.lift != [] && InOrder(f.lift) && IsMerged(f, p, before, out) && ReachesCall(f, run, j)
    requires Inductive(p, at) && Knows(f, at, f.lift[run[j].i].address, base, v)
    requires CappedHold(p, at, Run(p, Initial(p))) && Fits(before, f.lift[run[j].i].address, base, v)
    ensures HasValue(out, f.lift[run[j].i].address, base, v)
  {
    var a, snaps := f.lift[run[j].i].address, Run(p, Initial(p)).snaps;
    FlowFalls(f, p);
    FlowIsPrecise(p, at);
    FlowHolds(f, p, run, j);
    ClaimedAgree(f, p, at, snaps, a, base, v);
    MergedIsComplete(f, p, before, out);
  }

  /** A value known on every way to an owned call that a run reaches, said of the instructions
      alone, is among the constants merged there, if those merged before allow. */
  lemma FoundWhereKnown(f: Function, p: ConstProblem, before: AtCalls, out: AtCalls, at: Claim<Consts>, run: seq<Point<Machine>>, j: nat, base: nat, v: nat)
    requires IsFunction(f) && f.lift != [] && Increasing(f.lift) && IsMerged(f, p, before, out) && ReachesCall(f, run, j)
    requires KeptAllOver(f, at) && Knows(f, at, f.lift[run[j].i].address, base, v)
    requires CappedHold(p, at, Run(p, Initial(p))) && Fits(before, f.lift[run[j].i].address, base, v)
    ensures HasValue(out, f.lift[run[j].i].address, base, v)
  {
    FlowIsOf(f, p);
    KeptIsInductive(f, p, at);
    FoundByFlow(f, p, before, out, at, run, j, base, v);
  }
}
