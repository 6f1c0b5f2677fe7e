/**
 The constants at each call of a program: the snapshots of the functions' flows merged, and
 what they say of every run.
 */
module CallConstants {
  import opened Pcode
  import opened Functions
  import opened ByteConst
  import opened CfgConst
  import opened BlockFlow
  import opened BlockFlowRun
  import opened BlockFlowSound
  import opened BlockFlowSnaps
  import opened BlockFlowBuild
  import opened BlockFlowMake
  import opened BlockFlowMarks
  import opened BlockFlowOwned
  import opened BlockFlowLegacy
  import opened BlockFlowKeyedLoop
  import opened BlockFlowWrap
  import opened BlockFlowEntries

  type Values = map<nat, nat>
  type Snaps = seq<(nat, Values)>
  type AtCalls = map<nat, Values>

  /** The values of `entry` that agree with `regs`. */
  function Retain(entry: Values, regs: Values): Values {
    map k | k in entry && k in regs && regs[k] == entry[k] :: entry[k]
  }

  /** One snapshot merged: an empty entry takes it, another keeps what agrees. */
  function MergeOne(out: AtCalls, snap: (nat, Values)): AtCalls {
    if snap.0 !in out || out[snap.0] == map[] then out[snap.0 := snap.1] else out[snap.0 := Retain(out[snap.0], snap.1)]
  }

  function Merged(out: AtCalls, snaps: Snaps): AtCalls {
    if snaps == [] then out else MergeOne(Merged(out, snaps[..|snaps| - 1]), snaps[|snaps| - 1])
  }

  /** There is the value `v` for `k` at the address `a`. */
  ghost predicate HasValue(out: AtCalls, a: nat, k: nat, v: nat) {
    a in out && k in out[a] && out[a][k] == v
  }

  /** Snapshots are taken at `a`, and each of them has the value `v` for `k`. */
  ghost predicate Agree(snaps: Snaps, a: nat, k: nat, v: nat) {
    && (exists i :: 0 <= i < |snaps| && snaps[i].0 == a)
    && forall i | 0 <= i < |snaps| && snaps[i].0 == a :: k in snaps[i].1 && snaps[i].1[k] == v
  }

  /** What is there before at `a`, if anything, has it too. */
  ghost predicate Fits(before: AtCalls, a: nat, k: nat, v: nat) {
    a in before && before[a] != map[] ==> HasValue(before, a, k, v)
  }

  /** What all agree on is merged. */
  ghost predicate KeepsAgreed(before: AtCalls, snaps: Snaps, out: AtCalls) {
    forall a, k, v | Agree(snaps, a, k, v) && Fits(before, a, k, v) :: HasValue(out, a, k, v)
  }

  lemma {:induction false} AgreedStays(out: AtCalls, snaps: Snaps, a: nat, k: nat, v: nat)
    requires Fits(out, a, k, v) && forall i | 0 <= i < |snaps| && snaps[i].0 == a :: k in snaps[i].1 && snaps[i].1[k] == v
    ensures Fits(Merged(out, snaps), a, k, v)
    ensures Agree(snaps, a, k, v) ==> HasValue(Merged(out, snaps), a, k, v)
  {
    if snaps != [] {
      var front := snaps[..|snaps| - 1];
      AgreedStays(out, front, a, k, v);
      if snaps[|snaps| - 1].0 != a && Agree(snaps, a, k, v) {
        var i :| 0 <= i < |snaps| && snaps[i].0 == a;
        assert front[i].0 == a;
      }
    }
  }

  lemma MergedKeepsAgreed(before: AtCalls, snaps: Snaps)
    ensures KeepsAgreed(before, snaps, Merged(before, snaps))
  {
    forall a, k, v | Agree(snaps, a, k, v) && Fits(before, a, k, v) ensures HasValue(Merged(before, snaps), a, k, v) {
      AgreedStays(before, snaps, a, k, v);
    }
  }

  method MergeSnapshots(out0: AtCalls, snaps: Snaps) returns (out: AtCalls)
    ensures out == Merged(out0, snaps) && KeepsAgreed(out0, snaps, out)
  {
    out := out0;
    var i := 0;
    while i < |snaps|
      invariant 0 <= i <= |snaps| && out == Merged(out0, snaps[..i])
    {
      var a, regs := snaps[i].0, snaps[i].1;
      var entry := if a in out then out[a] else map[];
      entry := if entry == map[] then regs else Retain(entry, regs);
      out := out[a := entry];
      assert snaps[..i + 1][..i] == snaps[..i];
      i := i + 1;
    }
    assert snaps[..i] == snaps;
    MergedKeepsAgreed(out0, snaps);
  }

  /** What is merged at a call is part of the last snapshot taken there, whatever was there
      before; at the other addresses nothing changes. */
  lemma {:induction false} MergedIsInLast(out: AtCalls, snaps: Snaps, a: nat)
    ensures LastAt(snaps, a).None? ==> (a in Merged(out, snaps) <==> a in out) && (a in out ==> Merged(out, snaps)[a] == out[a])
    ensures LastAt(snaps, a).Some? ==> a in Merged(out, snaps) && Within(Merged(out, snaps)[a], LastAt(snaps, a).value)
  {
    if snaps != [] { MergedIsInLast(out, snaps[..|snaps| - 1], a); }
  }

  ghost predicate Within(v: Values, w: Values) {
    forall k | k in v :: k in w && v[k] == w[k]
  }

  // ---- a function

  /** The lift starts at the entry, and what is owned is from there on. */
  ghost predicate IsFunction(f: Function) {
    && Addressed(f.lift) && (f.lift != [] ==> f.lift[0].address == f.entry)
    && forall a: nat | f.owns(a) :: a >= f.entry
  }

  /** The instructions at an address the function owns. */
  function OwnedAt(f: Function): nat -> bool {
    (i: nat) => i < |f.lift| && f.owns(f.lift[i].address)
  }

  type ConstProblem = Problem<Consts, Values>

  /** The flow over all of a function's lift: over its blocks when the addresses increase,
      recording its own calls; else over those keyed by address, recording every call. */
  ghost predicate IsFlow(f: Function, p: ConstProblem) {
    if Increasing(f.lift) then p == ProblemOf(ConstFlow(), f.lift, ToSet(f.external), f.inBody, |f.lift|, OwnedAt(f))
    else p.flow == ConstFlow() && p.insns == f.lift && p.want == Always && IsKeyed(p.cfg, f.lift, ToSet(f.external), f.inBody)
  }

  /** A concrete run of the function, from where one may start. */
  ghost predicate IsRunOf(f: Function, run: seq<Point<Machine>>) {
    && |run| > 0 && run[0].k == 0 && StartsRun(f.lift, ToSet(f.external), f.inBody, run[0].i)
    && forall j | 0 <= j < |run| - 1 :: Steps(f.lift, ConstMeaning(), run[j], run[j + 1])
  }

  /** The run executes an owned call at step `j`, the last one of its instruction. */
  ghost predicate ReachesCall(f: Function, run: seq<Point<Machine>>, j: nat) {
    && IsRunOf(f, run)
    && j < |run| && run[j].i < |f.lift| && IsLastCall(f.lift[run[j].i], run[j].k) && f.owns(f.lift[run[j].i].address)
  }

  /** There are constants at the call, and a register they give holds its value. */
  ghost predicate HoldsAt(out: AtCalls, call: nat, base: nat, m: Machine) {
    call in out && (base in out[call] ==> out[call][base] == Register(m, base))
  }

  /** So it is in every run of the function that reaches an owned call. */
  ghost predicate Holds(f: Function, out: AtCalls) {
    forall run: seq<Point<Machine>>, j: nat, base: nat | ReachesCall(f, run, j) ::
      HoldsAt(out, f.lift[run[j].i].address, base, run[j].c)
  }

  /** The snapshots at the addresses the function owns, in order. */
  function Retained(snaps: Snaps, owns: nat -> bool): Snaps {
    if snaps == [] then []
    else Retained(snaps[..|snaps| - 1], owns) + if owns(snaps[|snaps| - 1].0) then [snaps[|snaps| - 1]] else []
  }

  method RetainOwned(snaps: Snaps, owns: nat -> bool) returns (r: Snaps)
    ensures r == Retained(snaps, owns)
  {
    r := [];
    for i := 0 to |snaps|
      invariant r == Retained(snaps[..i], owns)
    {
      assert snaps[..i + 1][..i] == snaps[..i];
      if owns(snaps[i].0) { r := r + [snaps[i]]; }
    }
    assert snaps[..|snaps|] == snaps;
  }

  lemma {:induction false} RetainedAt(snaps: Snaps, owns: nat -> bool, a: nat)
    ensures LastAt(Retained(snaps, owns), a) == if owns(a) then LastAt(snaps, a) else None
  {
    if snaps != [] {
      var front, last := snaps[..|snaps| - 1], snaps[|snaps| - 1];
      RetainedAt(front, owns, a);
      LastAtConcat(Retained(front, owns), [last], a);
      assert Retained(front, owns) + [] == Retained(front, owns);
    }
  }

  lemma {:induction false} AllRetained(snaps: Snaps, owns: nat -> bool)
    requires forall k | 0 <= k < |snaps| :: owns(snaps[k].0)
    ensures Retained(snaps, owns) == snaps
  {
    if snaps != [] { AllRetained(snaps[..|snaps| - 1], owns); }
  }

  /** `out` is the snapshots of the flow `p` at the owned calls merged into `before`. */
  ghost predicate IsMerged(f: Function, p: ConstProblem, before: AtCalls, out: AtCalls) {
    IsFlow(f, p) && p.Valid() && Inv(p, Initial(p)) && out == Merged(before, Retained(Run(p, Initial(p)).snaps, f.owns))
  }

  /** A run of a lift in order starts at a block the flow walks from the empty state. */
  lemma RunIsOfFlow(f: Function, p: ConstProblem, run: seq<Point<Machine>>)
    requires IsFlow(f, p) && p.Valid() && f.lift != [] && InOrder(f.lift) && IsRunOf(f, run)
    ensures IsRun(p, ConstMeaning(), run)
  {
    var lift, external, i, b := f.lift, ToSet(f.external), run[0].i, 0;
    if Increasing(lift) {
      assert lift[..|lift|] == lift;
      b := StartHasBlock(p, ConstFlow(), lift, external, f.inBody, OwnedAt(f), i);
    } else {
      var w :| WrapsAt(lift, w);
      b := KeyedStartHasBlock(p, external, f.inBody, w, i);
    }
    assert p.Rooted(b);
  }

  /** The flow of a lift in order describes every run at an owned call. */
  lemma FlowHolds(f: Function, p: ConstProblem, run: seq<Point<Machine>>, j: nat)
    requires IsFunction(f) && f.lift != [] && InOrder(f.lift) && IsFlow(f, p) && p.Valid() && ReachesCall(f, run, j)
    ensures Inv(p, Initial(p))
    ensures exists s ::
      CfgConst.Describes(s, run[j].c) && LastAt(Run(p, Initial(p)).snaps, f.lift[run[j].i].address) == Some(FullValues(s))
  {
    var lift, external, a := f.lift, ToSet(f.external), f.lift[run[j].i].address;
    RunIsOfFlow(f, p, run);
    ConstFlowIsSound();
    if Increasing(lift) {
      assert lift[..|lift|] == lift;
      TargetsAreStarts(p, ConstFlow(), lift, external, f.inBody, OwnedAt(f));
      IndexedIsTiled(p);
      IndexedInOneBlock(p, a);
    } else {
      var w :| WrapsAt(lift, w);
      WrapDistinct(lift, w);
      WrapIsTiled(p, external, f.inBody, w);
      BeforeWrapInOne(p, external, f.inBody, w, a);
      KeyedTargets(p, external, f.inBody);
    }
    FlowIsSound(p, ConstMeaning(), run, j);
    var s :| ConstMeaning().describes(s, run[j].c) && LastAt(Run(p, Initial(p)).snaps, a) == Some(p.flow.snapshot(s));
    assert CfgConst.Describes(s, run[j].c);
  }

  /** What is merged of a lift in order holds. */
  lemma MergedHolds(f: Function, p: ConstProblem, before: AtCalls, out: AtCalls)
    requires IsFunction(f) && f.lift != [] && InOrder(f.lift) && IsMerged(f, p, before, out)
    ensures Holds(f, out)
  {
    var snaps := Run(p, Initial(p)).snaps;
    forall run: seq<Point<Machine>>, j: nat, base: nat | ReachesCall(f, run, j)
      ensures HoldsAt(out, f.lift[run[j].i].address, base, run[j].c)
    {
      var a := f.lift[run[j].i].address;
      FlowHolds(f, p, run, j);
      var s :| CfgConst.Describes(s, run[j].c) && LastAt(snaps, a) == Some(FullValues(s));
      RetainedAt(snaps, f.owns, a);
      MergedIsInLast(before, Retained(snaps, f.owns), a);
      if base in FullValues(s) { FullValueHolds(s, run[j].c, base); }
    }
  }

  /** The constants at `a` are as they were. */
  ghost predicate SameAt(before: AtCalls, out: AtCalls, a: nat) {
    (a in before <==> a in out) && (a in before ==> out[a] == before[a])
  }

  lemma MergedElsewhere(f: Function, p: ConstProblem, before: AtCalls, out: AtCalls, a: nat)
    requires IsMerged(f, p, before, out) && !f.owns(a)
    ensures SameAt(before, out, a)
  {
    var snaps := Run(p, Initial(p)).snaps;
    RetainedAt(snaps, f.owns, a);
    MergedIsInLast(before, Retained(snaps, f.owns), a);
  }

  lemma {:induction false} RetainedAgree(snaps: Snaps, owns: nat -> bool, a: nat, k: nat, v: nat)
    requires owns(a) && forall i | 0 <= i < |snaps| && snaps[i].0 == a :: k in snaps[i].1 && snaps[i].1[k] == v
    ensures forall i | 0 <= i < |Retained(snaps, owns)| && Retained(snaps, owns)[i].0 == a ::
      k in Retained(snaps, owns)[i].1 && Retained(snaps, owns)[i].1[k] == v
    ensures (exists i :: 0 <= i < |snaps| && snaps[i].0 == a) ==> exists i :: 0 <= i < |Retained(snaps, owns)| && Retained(snaps, owns)[i].0 == a
  {
    if snaps != [] {
      var front, last := snaps[..|snaps| - 1], snaps[|snaps| - 1];
      RetainedAgree(front, owns, a, k, v);
      var r := Retained(snaps, owns);
      if i :| 0 <= i < |snaps| && snaps[i].0 == a {
        if i < |front| {
          assert front[i].0 == a;
          var l :| 0 <= l < |Retained(front, owns)| && Retained(front, owns)[l].0 == a;
          assert r[l].0 == a;
        } else {
          assert r[|r| - 1].0 == a;
        }
      }
    }
  }

  /** What all snapshots of the flow at an owned call agree on, and what was there before, is
      among the constants of the call. */
  ghost predicate Complete(f: Function, p: ConstProblem, before: AtCalls, out: AtCalls) {
    IsMerged(f, p, before, out) &&
    forall a, k, v | f.owns(a) && Agree(Run(p, Initial(p)).snaps, a, k, v) && Fits(before, a, k, v) :: HasValue(out, a, k, v)
  }

  lemma MergedIsComplete(f: Function, p: ConstProblem, before: AtCalls, out: AtCalls)
    requires IsMerged(f, p, before, out)
    ensures Complete(f, p, before, out)
  {
    var snaps := Run(p, Initial(p)).snaps;
    forall a, k, v | f.owns(a) && Agree(snaps, a, k, v) && Fits(before, a, k, v) ensures HasValue(out, a, k, v) {
      RetainedAgree(snaps, f.owns, a, k, v);
      assert Agree(Retained(snaps, f.owns), a, k, v);
      AgreedStays(before, Retained(snaps, f.owns), a, k, v);
    }
  }

  /** The constants of one function's owned calls, merged into those of the functions before. Of
      a lift in order, a value merged at a call is in its register in every run of the function
      that reaches the call; at the addresses the function does not own nothing changes. */
  method FunctionConstants(before: AtCalls, f: Function) returns (out: AtCalls)
    requires IsFunction(f)
    ensures f.lift == [] ==> out == before
    ensures f.lift != [] ==> exists p: ConstProblem :: IsMerged(f, p, before, out) && Complete(f, p, before, out)
    ensures HoldsInOrder(f, out)
    ensures forall a: nat | !f.owns(a) :: SameAt(before, out, a)
  {
    out := before;
    var increasing := IsIncreasing(f.lift);
    if f.lift != [] {
      ghost var p: ConstProblem;
      if increasing {
        out, p := IndexedConstants(before, f);
      } else {
        out, p := KeyedConstants(before, f);
      }
      MergedIsComplete(f, p, before, out);
      if InOrder(f.lift) { MergedHolds(f, p, before, out); }
      forall a: nat | !f.owns(a) ensures SameAt(before, out, a) {
        MergedElsewhere(f, p, before, out, a);
      }
    }
  }

  method KeyedConstants(before: AtCalls, f: Function) returns (out: AtCalls, ghost p: ConstProblem)
    requires IsFunction(f) && f.lift != [] && !Increasing(f.lift)
    ensures IsMerged(f, p, before, out)
  {
    var snaps;
    snaps, p := PropagateKeyed(ConstFlow(), f.lift, f.external, f.inBody);
    snaps := RetainOwned(snaps, f.owns);
    out := MergeSnapshots(before, snaps);
  }

  method IndexedConstants(before: AtCalls, f: Function) returns (out: AtCalls, ghost p: ConstProblem)
    requires f.lift != [] && Increasing(f.lift)
    ensures IsMerged(f, p, before, out)
  {
    var snaps := OwnedSnapshots(ConstFlow(), f.lift, f.external, f.inBody, OwnedAt(f));
    out := MergeSnapshots(before, snaps);
    p := ProblemOf(ConstFlow(), f.lift, ToSet(f.external), f.inBody, |f.lift|, OwnedAt(f));
    assert f.lift[..|f.lift|] == f.lift;
    assert WantsAt(p, f.owns);
    RunRecordsAt(p, f.owns);
    AllRetained(snaps, f.owns);
  }

  // ---- the program

  /** Functions in the order of their entries, each owning addresses before the next one's. */
  ghost predicate Listed(fs: seq<Function>) {
    && (forall k | 0 <= k < |fs| :: IsFunction(fs[k]))
    && (forall k, l | 0 <= k < l < |fs| :: OwnsBefore(fs[k], fs[l]))
  }

  ghost predicate OwnsBefore(f: Function, g: Function) {
    forall a: nat | f.owns(a) :: a < g.entry
  }

  /** What is merged of a lift in order holds. */
  ghost predicate HoldsInOrder(f: Function, out: AtCalls) {
    f.lift != [] && InOrder(f.lift) ==> Holds(f, out)
  }

  /** Of a function that owns none of what changed it holds still. */
  lemma HoldsStill(f: Function, g: Function, before: AtCalls, out: AtCalls)
    requires HoldsInOrder(f, before) && OwnsBefore(f, g) && IsFunction(g) && forall a: nat | !g.owns(a) :: SameAt(before, out, a)
    ensures HoldsInOrder(f, out)
  {
    if f.lift != [] && InOrder(f.lift) {
      forall run: seq<Point<Machine>>, j: nat, base: nat | ReachesCall(f, run, j)
        ensures HoldsAt(out, f.lift[run[j].i].address, base, run[j].c)
      {
        var a := f.lift[run[j].i].address;
        assert HoldsAt(before, a, base, run[j].c);
        assert f.owns(a) && !g.owns(a);
        assert SameAt(before, out, a);
      }
    }
  }

  lemma AllHoldStill(fs: seq<Function>, n: nat, before: AtCalls, out: AtCalls)
    requires Listed(fs) && n < |fs| && (forall k | 0 <= k < n :: HoldsInOrder(fs[k], before))
    requires HoldsInOrder(fs[n], out) && forall a: nat | !fs[n].owns(a) :: SameAt(before, out, a)
    ensures forall k | 0 <= k < n + 1 :: HoldsInOrder(fs[k], out)
  {
    forall k | 0 <= k < n ensures HoldsInOrder(fs[k], out) {
      assert OwnsBefore(fs[k], fs[n]);
      HoldsStill(fs[k], fs[n], before, out);
    }
  }

  /** The constants at the calls of a program: of every function whose lift is in order, a value
      merged at a call it owns is in its register in every run that reaches the call. */
  method ProgramConstants(fs: seq<Function>) returns (out: AtCalls)
    requires Listed(fs)
    ensures forall k | 0 <= k < |fs| :: HoldsInOrder(fs[k], out)
  {
    out := map[];
    for n := 0 to |fs|
      invariant forall k | 0 <= k < n :: HoldsInOrder(fs[k], out)
    {
      ghost var before := out;
      out := FunctionConstants(out, fs[n]);
      AllHoldStill(fs, n, before, out);
    }
  }
}
