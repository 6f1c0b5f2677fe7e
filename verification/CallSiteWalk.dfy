/**
 The call sites of one function: its instructions walked in order, the tracker reset at each
 join, the arguments of each call the function owns read off it; and the walk of a prefix that
 steps over runs which can give nothing.
 */
module CallSiteWalk {
  import opened Pcode
  import opened Functions
  import opened SortedNats
  import opened CallTracker
  import opened BlockFlowBuild
  import opened BlockFlowMake
  import opened BlockFlowMarks
  import opened BlockFlowFlags

  datatype CallSite = CallSite(site: nat, caller: nat, target: Option<nat>, args: seq<Option<nat>>)

  /** Of an instruction: another path reaches it, it is a call the function owns. */
  datatype Flag = Flag(join: bool, owned: bool)

  // ---- the walk

  datatype Walk = Walk(t: Tracker, out: seq<CallSite>)

  function DirectTarget(op: PcodeOp): Option<nat> {
    if op.inputs != [] && (op.inputs[0].space == RAM || op.inputs[0].space == CONST) then Some(op.inputs[0].offset) else None
  }

  function Arguments(t: Tracker): seq<Option<nat>> {
    seq(|ARGS|, i requires 0 <= i < |ARGS| => Reg64(t, ARGS[i]))
  }

  function WalkOp(entry: nat, address: nat, owned: bool, op: PcodeOp, w: Walk): Walk {
    if IsCall(op) then
      Walk(ClearForCall(w.t), if owned then w.out + [CallSite(address, entry, DirectTarget(op), Arguments(w.t))] else w.out)
    else w.(t := Apply(w.t, op))
  }

  /** The first `k` ops of an instruction. */
  function WalkOps(entry: nat, insn: Insn, owned: bool, k: nat, w: Walk): Walk
    requires k <= |insn.ops|
  {
    if k == 0 then w else WalkOp(entry, insn.address, owned, insn.ops[k - 1], WalkOps(entry, insn, owned, k - 1, w))
  }

  function WalkInsn(entry: nat, insn: Insn, flag: Flag, w: Walk): Walk {
    WalkOps(entry, insn, flag.owned, |insn.ops|, if flag.join then w.(t := Reset(w.t)) else w)
  }

  /** The first `n` instructions. */
  function WalkUpto(entry: nat, insns: seq<Insn>, flags: seq<Flag>, n: nat, w: Walk): Walk
    requires n <= |insns| && n <= |flags|
  {
    if n == 0 then w else WalkInsn(entry, insns[n - 1], flags[n - 1], WalkUpto(entry, insns, flags, n - 1, w))
  }

  // ---- what is read of the lift

  predicate HasCall(insn: Insn) {
    exists k | 0 <= k < |insn.ops| :: IsCall(insn.ops[k])
  }

  /** Another path reaches instruction `i`: a jump of the lift, the code outside, or nothing but
      a jump since the one before does not fall through. */
  ghost predicate IsJoin(lift: seq<Insn>, external: seq<nat>, i: nat)
    requires i < |lift|
  {
    lift[i].address in TargetsIn(lift, 0, |lift|) || lift[i].address in external || (i > 0 && StopsFlow(lift[i - 1]))
  }

  predicate IsOwned(lift: seq<Insn>, owns: nat -> bool, i: nat)
    requires i < |lift|
  {
    HasCall(lift[i]) && owns(lift[i].address)
  }

  ghost function FlagsOf(f: Function): (r: seq<Flag>)
    ensures |r| == |f.lift|
  {
    seq(|f.lift|, i requires 0 <= i < |f.lift| => Flag(IsJoin(f.lift, f.external, i), IsOwned(f.lift, f.owns, i)))
  }

  /** The call sites of the function, entered with the values of its summary. */
  ghost function Sites(f: Function, summary: Option<Summary>): seq<CallSite> {
    WalkUpto(f.entry, f.lift, FlagsOf(f), |f.lift|, Walk(Seeded(summary), [])).out
  }

  // ---- what unowned instructions leave

  lemma {:induction false} OpsKeep(entry: nat, insn: Insn, k: nat, w: Walk)
    requires k <= |insn.ops|
    ensures var v := WalkOps(entry, insn, false, k, w); v.out == w.out && KeepsFlags(w.t, v.t)
  {
    if k > 0 {
      OpsKeep(entry, insn, k - 1, w);
      FlagsStay(WalkOps(entry, insn, false, k - 1, w).t, insn.ops[k - 1]);
    }
  }

  /** Instructions the function owns no call of give no site, and unset nothing. */
  lemma {:induction false} UnownedRun(entry: nat, insns: seq<Insn>, flags: seq<Flag>, i: nat, end: nat, w: Walk)
    requires i <= end <= |insns| && end <= |flags| && forall k | i <= k < end :: !flags[k].owned
    ensures var a, b := WalkUpto(entry, insns, flags, i, w), WalkUpto(entry, insns, flags, end, w);
      b.out == a.out && KeepsFlags(a.t, b.t)
    decreases end
  {
    if i < end {
      UnownedRun(entry, insns, flags, i, end - 1, w);
      var v := WalkUpto(entry, insns, flags, end - 1, w);
      OpsKeep(entry, insns[end - 1], |insns[end - 1].ops|, if flags[end - 1].join then v.(t := Reset(v.t)) else v);
    }
  }

  lemma {:induction false} WalkPrefixOf(entry: nat, insns: seq<Insn>, flags: seq<Flag>, more: seq<Insn>, moreFlags: seq<Flag>, n: nat, w: Walk)
    requires n <= |insns| && n <= |flags| && insns <= more && flags <= moreFlags
    ensures WalkUpto(entry, insns, flags, n, w) == WalkUpto(entry, more, moreFlags, n, w)
  {
    if n > 0 {
      WalkPrefixOf(entry, insns, flags, more, moreFlags, n - 1, w);
      assert insns[n - 1] == more[n - 1] && flags[n - 1] == moreFlags[n - 1];
    }
  }

  // ---- the walk of a whole lift

  method RunInsn(entry: nat, insn: Insn, owned: bool, t0: Tracker, out0: seq<CallSite>) returns (t: Tracker, out: seq<CallSite>)
    ensures Walk(t, out) == WalkOps(entry, insn, owned, |insn.ops|, Walk(t0, out0))
  {
    t, out := t0, out0;
    for k := 0 to |insn.ops|
      invariant Walk(t, out) == WalkOps(entry, insn, owned, k, Walk(t0, out0))
    {
      var op := insn.ops[k];
      if IsCall(op) {
        if owned { out := out + [CallSite(insn.address, entry, DirectTarget(op), Arguments(t))]; }
        t := ClearForCall(t);
      } else {
        t := Apply(t, op);
      }
    }
  }

  /** Which instructions a jump targets: by the places of the targets in an increasing lift, by
      their set in any other. */
  method TargetPoints(shape: Shape, ghost lift: seq<Insn>, increasing: bool) returns (targets: seq<bool>)
    requires IsShape(shape, lift) && increasing == Increasing(lift)
    ensures MarkedAt(shape.addrs, targets, Second(shape.branches))
  {
    if increasing {
      IncreasingShape(shape, lift);
      targets := MarkAddresses(shape.addrs, Second(shape.branches));
    } else {
      var ts := ToSet(Second(shape.branches));
      targets := seq(|shape.addrs|, i requires 0 <= i < |shape.addrs| => shape.addrs[i] in ts);
    }
  }

  method JoinPoints(shape: Shape, ghost lift: seq<Insn>, external: seq<nat>, increasing: bool) returns (joins: seq<bool>)
    requires IsShape(shape, lift) && increasing == Increasing(lift)
    ensures |joins| == |lift| && forall i | 0 <= i < |lift| :: joins[i] <==> IsJoin(lift, external, i)
  {
    var targets := TargetPoints(shape, lift, increasing);
    joins := [];
    for i := 0 to |shape.addrs|
      invariant |joins| == i && forall j | 0 <= j < i :: joins[j] <==> IsJoin(lift, external, j)
    {
      JoinMarked(shape, lift, external, targets, i);
      joins := joins + [targets[i] || (i > 0 && shape.stops[i - 1]) || shape.addrs[i] in external];
    }
  }

  lemma JoinMarked(shape: Shape, lift: seq<Insn>, external: seq<nat>, targets: seq<bool>, i: nat)
    requires IsShape(shape, lift) && MarkedAt(shape.addrs, targets, Second(shape.branches)) && i < |lift|
    ensures IsJoin(lift, external, i) <==> targets[i] || (i > 0 && shape.stops[i - 1]) || shape.addrs[i] in external
  {
    TargetMarked(shape, lift, targets, i);
  }

  /** The end of the instructions up to the last owned call. */
  method LastCall(f: Function) returns (n: nat)
    ensures n <= |f.lift| && forall k | n <= k < |f.lift| :: !IsOwned(f.lift, f.owns, k)
  {
    n := |f.lift|;
    while n > 0 && !IsOwned(f.lift, f.owns, n - 1)
      invariant n <= |f.lift| && forall k | n <= k < |f.lift| :: !IsOwned(f.lift, f.owns, k)
    {
      n := n - 1;
    }
  }

  /** The sites of a function, walked up to the last call it owns. */
  method WalkShaped(f: Function, shape: Shape, increasing: bool, summary: Option<Summary>) returns (out: seq<CallSite>)
    requires IsShape(shape, f.lift) && increasing == Increasing(f.lift)
    ensures out == Sites(f, summary)
  {
    var joins := JoinPoints(shape, f.lift, f.external, increasing);
    var n := LastCall(f);
    var flags := ReadFlags(f, joins);
    out := WalkFlags(f.entry, f.lift, flags, n, summary);
    UnownedRun(f.entry, f.lift, flags, n, |f.lift|, Walk(Seeded(summary), []));
  }

  /** The flags of each instruction. */
  method ReadFlags(f: Function, joins: seq<bool>) returns (flags: seq<Flag>)
    requires |f.lift| == |joins| && forall i | 0 <= i < |f.lift| :: joins[i] <==> IsJoin(f.lift, f.external, i)
    ensures flags == FlagsOf(f)
  {
    flags := seq(|f.lift|, i requires 0 <= i < |f.lift| && |joins| == |f.lift| => Flag(joins[i], IsOwned(f.lift, f.owns, i)));
  }

  method WalkFlags(entry: nat, insns: seq<Insn>, flags: seq<Flag>, n: nat, summary: Option<Summary>) returns (out: seq<CallSite>)
    requires n <= |insns| == |flags|
    ensures out == WalkUpto(entry, insns, flags, n, Walk(Seeded(summary), [])).out
  {
    var t := Seeded(summary);
    out := [];
    ghost var w0 := Walk(t, out);
    for i := 0 to n
      invariant Walk(t, out) == WalkUpto(entry, insns, flags, i, w0)
    {
      t, out := StepInsn(entry, insns[i], flags[i], t, out);
      OneMoreInsn(entry, insns, flags, i, w0);
    }
  }

  method StepInsn(entry: nat, insn: Insn, flag: Flag, t0: Tracker, out0: seq<CallSite>) returns (t: Tracker, out: seq<CallSite>)
    ensures Walk(t, out) == WalkInsn(entry, insn, flag, Walk(t0, out0))
  {
    t := if flag.join then Reset(t0) else t0;
    t, out := RunInsn(entry, insn, flag.owned, t, out0);
  }

  lemma OneMoreInsn(entry: nat, insns: seq<Insn>, flags: seq<Flag>, i: nat, w: Walk)
    requires i < |insns| && i < |flags|
    ensures WalkUpto(entry, insns, flags, i + 1, w) == WalkInsn(entry, insns[i], flags[i], WalkUpto(entry, insns, flags, i, w))
  {
  }

  // ---- the walk of a prefix

  /** The flags of the instructions up to the last owned call. */
  ghost predicate IsPrefix(f: Function, flags: seq<Flag>) {
    flags <= FlagsOf(f) && forall i | |flags| <= i < |f.lift| :: !IsOwned(f.lift, f.owns, i)
  }

  /** The prefix of an increasing lift, from its marks. */
  method PrefixOfMarks(f: Function, shape: Shape, marks: Marks, ghost owned: nat -> bool) returns (flags: seq<Flag>)
    requires IsShape(shape, f.lift) && IsMarks(marks, shape, f.external, owned)
    requires forall i: nat | i < |f.lift| :: owned(i) == IsOwned(f.lift, f.owns, i)
    ensures IsPrefix(f, flags)
  {
    var n := if marks.ownedCalls == [] then 0 else marks.ownedCalls[|marks.ownedCalls| - 1] + 1;
    LastOwned(f, shape, marks, owned, n);
    flags := [];
    for i := 0 to n
      invariant |flags| == i && flags <= FlagsOf(f)
    {
      var b := marks.flags[i];
      FlagOfMarks(f, shape, marks, owned, i);
      flags := flags + [Flag(b % 4 != 0 || (i > 0 && shape.stops[i - 1]), b / 4 % 2 == 1)];
    }
  }

  lemma FlagOfMarks(f: Function, shape: Shape, marks: Marks, owned: nat -> bool, i: nat)
    requires IsShape(shape, f.lift) && IsMarks(marks, shape, f.external, owned) && i < |f.lift|
    requires owned(i) == IsOwned(f.lift, f.owns, i)
    ensures var b := marks.flags[i];
      FlagsOf(f)[i] == Flag(b % 4 != 0 || (i > 0 && shape.stops[i - 1]), b / 4 % 2 == 1)
  {
    TargetMarked(shape, f.lift, marks.targets, i);
    assert marks.entered[i] <==> shape.addrs[i] in f.external;
    var after := i > 0 && shape.ends[i - 1];
    assert marks.flags[i] == FlagByte(marks.targets[i], marks.entered[i], owned(i), after);
    FlagBits(marks.targets[i], marks.entered[i], owned(i), after);
  }

  lemma FlagBits(target: bool, external: bool, owned: bool, after: bool)
    ensures var b := FlagByte(target, external, owned, after); (b % 4 != 0 <==> target || external) && (b / 4 % 2 == 1 <==> owned)
  {
  }

  lemma LastOwned(f: Function, shape: Shape, marks: Marks, owned: nat -> bool, n: nat)
    requires IsShape(shape, f.lift) && IsMarks(marks, shape, f.external, owned)
    requires forall i: nat | i < |f.lift| :: owned(i) == IsOwned(f.lift, f.owns, i)
    requires n == if marks.ownedCalls == [] then 0 else marks.ownedCalls[|marks.ownedCalls| - 1] + 1
    ensures n <= |f.lift| && forall i | n <= i < |f.lift| :: !IsOwned(f.lift, f.owns, i)
  {
    var calls := marks.ownedCalls;
    if calls != [] { assert calls[|calls| - 1] in calls; }
    forall i | n <= i < |f.lift| ensures !IsOwned(f.lift, f.owns, i) {
      if owned(i) {
        assert i in calls;
        var k :| 0 <= k < |calls| && calls[k] == i;
      }
    }
  }

  /** The walk with skips is where the walk of all is: with what it knows, or, both flags set,
      before a join, which leaves nothing else. */
  ghost predicate Level(t: Tracker, u: Tracker, flags: seq<Flag>, i: nat) {
    t == u || (t.escaped && t.rbpWritten && u.escaped && u.rbpWritten && (i < |flags| ==> flags[i].join))
  }

  /** The sites of a function from its prefix. A run from one join to the next with no owned call
      is stepped over once both flags are set. */
  method WalkPrefix(f: Function, insns: seq<Insn>, flags: seq<Flag>, summary: Option<Summary>) returns (out: seq<CallSite>)
    requires IsPrefix(f, flags) && insns == f.lift[..|flags|]
    ensures out == Sites(f, summary)
  {
    var t := Seeded(summary);
    out := [];
    ghost var w0 := Walk(t, out);
    var i := 0;
    while i < |flags|
      invariant 0 <= i <= |flags| && out == WalkUpto(f.entry, insns, flags, i, w0).out
      invariant Level(t, WalkUpto(f.entry, insns, flags, i, w0).t, flags, i)
    {
      t, out, i := StepPrefix(f.entry, insns, flags, i, t, out, w0);
    }
    WalkPrefixOf(f.entry, insns, flags, f.lift, FlagsOf(f), |flags|, w0);
    UnownedRun(f.entry, f.lift, FlagsOf(f), |flags|, |f.lift|, w0);
  }

  /** The next instruction walked, or the next run stepped over. */
  method StepPrefix(entry: nat, insns: seq<Insn>, flags: seq<Flag>, i: nat, t0: Tracker, out0: seq<CallSite>, ghost w0: Walk)
    returns (t: Tracker, out: seq<CallSite>, next: nat)
    requires i < |flags| == |insns| && out0 == WalkUpto(entry, insns, flags, i, w0).out
    requires Level(t0, WalkUpto(entry, insns, flags, i, w0).t, flags, i)
    ensures i < next <= |flags| && out == WalkUpto(entry, insns, flags, next, w0).out
    ensures Level(t, WalkUpto(entry, insns, flags, next, w0).t, flags, next)
  {
    t, out, next := t0, out0, i + 1;
    ghost var w := WalkUpto(entry, insns, flags, i, w0);
    if flags[i].join {
      ResetIsBlank(t);
      ResetIsBlank(w.t);
      t := Reset(t);
      if t.escaped && t.rbpWritten {
        var end := NextJoin(flags, i);
        var owned := AnyOwned(flags, i, end);
        if !owned {
          UnownedRun(entry, insns, flags, i, end, w0);
          return t, out, end;
        }
      }
    }
    t, out := RunInsn(entry, insns[i], flags[i].owned, t, out);
  }

  /** The next join after `i`. */
  method NextJoin(flags: seq<Flag>, i: nat) returns (end: nat)
    requires i < |flags|
    ensures i < end <= |flags| && (end < |flags| ==> flags[end].join)
  {
    end := i + 1;
    while end < |flags| && !flags[end].join
      invariant i < end <= |flags|
    {
      end := end + 1;
    }
  }

  method AnyOwned(flags: seq<Flag>, i: nat, end: nat) returns (any: bool)
    requires i <= end <= |flags|
    ensures any <==> exists k :: i <= k < end && flags[k].owned
  {
    any := false;
    for k := i to end
      invariant any <==> exists l :: i <= l < k && flags[l].owned
    {
      any := any || flags[k].owned;
    }
  }
}
