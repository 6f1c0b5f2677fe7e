/**
 What a call site says of the runs that reach it: an argument given is the value of its register,
 when loads from the frame bring what was last stored there.
 */
module CallSiteSound {
  import opened Pcode
  import opened Functions
  import opened ByteConst
  import Registers
  import Temporaries
  import opened CfgConst
  import BlockFlowSound
  import BlockFlowBuild
  import opened CallTracker
  import opened CallSiteWalk

  function Known(t: Tracker): Consts {
    Consts(t.regs, t.temps)
  }

  /** An op as lifted: jumps and stores write no register. A load from the frame brings what the
      tracker has of the slot. */
  ghost predicate OpOk(t: Tracker, op: PcodeOp, after: Machine) {
    && (op.opcode == Store || IsJump(op) ==> op.output.None?)
    && (op.opcode == Load && op.output.Some? ==> Agrees(OutputOf(t, op, op.output.value), Operand(after, op.output.value)))
  }

  // ---- one op

  lemma NothingDescribes(m: Machine)
    ensures Describes(NOTHING, m)
  {
    forall o: nat ensures DescribesByte(map[], o, m.reg) {
    }
  }

  lemma SameDescribes(s: Consts, op: PcodeOp, m: Machine, m': Machine)
    requires Describes(s, m) && OpStep(op, m, m') && !IsUnmodeled(op) && (op.output.None? || IsViewRefresh(op))
    ensures Describes(s, m')
  {
    if op.output.Some? { ViewRefreshIsNoOp(op, m, m'); }
    SameTemps(s.temps, m.mem, m'.mem);
    SameRegs(s.regs, m.reg, m'.reg);
  }

  /** What the tracker has of an output is what the op writes. */
  lemma OutputTracks(t: Tracker, u: Tracker, op: PcodeOp, m: Machine, m': Machine)
    requires Known(u) == Known(t) && u.stack == t.stack && (forall o | o in u.frame :: o in t.frame && u.frame[o] == t.frame[o])
    requires Describes(Known(t), m) && OpStep(op, m, m') && OpOk(t, op, m') && op.output.Some? && !IsUnmodeled(op)
    ensures Agrees(OutputOf(u, op, op.output.value), Operand(m', op.output.value))
  {
    var read, bytes := (vn: Varnode) => ReadOf(u, vn), (vn: Varnode) => Operand(m, vn);
    if op.opcode != Load && Eval(op, read).Some? {
      forall i | 0 <= i < |op.inputs| ensures ReadsOne(op.inputs[i], read, bytes) {
        ReadAgrees(Known(t), m, op.inputs[i]);
      }
      EvalIsSound(op, read, bytes);
    }
  }

  lemma WriteTracks(u: Tracker, op: PcodeOp, v: ByteConst, m: Machine, m': Machine)
    requires Describes(Known(u), m) && OpStep(op, m, m') && op.output.Some? && !IsUnmodeled(op) && Agrees(v, Operand(m', op.output.value))
    ensures Describes(Known(WriteTo(u, op.output.value, v)), m')
  {
    WriteDescribes(Known(u), op, m, m', v);
  }

  lemma UnknownAgrees(bytes: seq<Byte>)
    ensures Agrees(UNKNOWN, bytes)
  {
  }

  /** What an op that writes a temporary leaves known is so. */
  lemma TempKept(t: Tracker, op: PcodeOp, out: Varnode, m: Machine, m': Machine)
    requires Describes(Known(t), m) && OpStep(op, m, m') && OpOk(t, op, m') && op.output == Some(out) && !IsUnmodeled(op) && out.space == UNIQUE
    ensures Describes(Known(ApplyOutput(t, op, out)), m')
  {
    var v := t.(frame := t.frame - {out.offset}, rspTemps := t.rspTemps - {out.offset});
    if FrameAddress(op).Some? {
      var w := v.(frame := v.frame[out.offset := FrameAddress(op).value]);
      UnknownAgrees(Operand(m', out));
      WriteTracks(w, op, UNKNOWN, m, m');
      assert ApplyOutput(t, op, out) == WriteTo(w, out, UNKNOWN);
    } else {
      var w := if ReadsStackAddress(t, op) then v.(rspTemps := v.rspTemps + {out.offset}) else v;
      OutputTracks(t, w, op, m, m');
      WriteTracks(w, op, OutputOf(w, op, out), m, m');
      assert ApplyOutput(t, op, out) == WriteTo(w, out, OutputOf(w, op, out));
    }
  }

  /** So is what one that writes a register does. */
  lemma RegKept(t: Tracker, op: PcodeOp, out: Varnode, m: Machine, m': Machine)
    requires Describes(Known(t), m) && OpStep(op, m, m') && OpOk(t, op, m') && op.output == Some(out) && !IsUnmodeled(op) && out.space != UNIQUE
    ensures Describes(Known(ApplyOutput(t, op, out)), m')
  {
    var base := Registers.Base(out.offset);
    var u := if out.space == REGISTER && base == RBP then t.(rbpWritten := true) else t;
    var v := if out.space == REGISTER && ReadsStackAddress(t, op) && out.offset < 0x200 && base != RBP && base != RSP then u.(escaped := true) else u;
    OutputTracks(t, v, op, m, m');
    WriteTracks(v, op, OutputOf(v, op, out), m, m');
    assert ApplyOutput(t, op, out) == WriteTo(v, out, OutputOf(v, op, out));
  }

  lemma OutputKept(t: Tracker, op: PcodeOp, m: Machine, m': Machine)
    requires Describes(Known(t), m) && OpStep(op, m, m') && OpOk(t, op, m') && op.output.Some? && !IsUnmodeled(op)
    ensures Describes(Known(ApplyOutput(t, op, op.output.value)), m')
  {
    if op.output.value.space == UNIQUE { TempKept(t, op, op.output.value, m, m'); } else { RegKept(t, op, op.output.value, m, m'); }
  }

  lemma StoreKeeps(t: Tracker, op: PcodeOp)
    ensures Known(ApplyStore(t, op)) == Known(t)
  {
  }

  /** What an op does to what is known. */
  lemma ApplyKnown(t: Tracker, op: PcodeOp)
    ensures IsUnmodeled(op) ==> Known(Apply(t, op)) == NOTHING
    ensures !IsUnmodeled(op) && (op.opcode == Store || op.output.None? || IsViewRefresh(op)) ==> Known(Apply(t, op)) == Known(t)
    ensures !IsUnmodeled(op) && !(op.opcode == Store || op.output.None? || IsViewRefresh(op)) ==> Apply(t, op) == ApplyOutput(t, op, op.output.value)
  {
    if op.opcode == Store { StoreKeeps(t, op); }
  }

  /** An op leaves known only what is so. */
  lemma ApplyTracks(t: Tracker, op: PcodeOp, m: Machine, m': Machine)
    requires Describes(Known(t), m) && OpStep(op, m, m') && OpOk(t, op, m')
    ensures Describes(Known(Apply(t, op)), m')
  {
    ApplyKnown(t, op);
    if IsUnmodeled(op) {
      NothingDescribes(m');
    } else if op.opcode == Store || op.output.None? || IsViewRefresh(op) {
      SameDescribes(Known(t), op, m, m');
    } else {
      OutputKept(t, op, m, m');
    }
  }

  // ---- the entry

  /** The parameters the summary pins are so. */
  ghost predicate ParamsHold(summary: Option<Summary>, m: Machine) {
    summary.Some? ==> forall i | 0 <= i < |summary.value| && i < |ARGS| && Pinned(summary.value[i]).Some? ::
      Operand(m, Varnode(REGISTER, ARGS[i], 8)) == BytesOf(Pinned(summary.value[i]).value, 8)
  }

  lemma {:induction false} SeededDescribes(t: Tracker, summary: Summary, n: nat, m: Machine)
    requires n <= |summary| && Describes(Known(t), m) && ParamsHold(Some(summary), m)
    ensures Describes(Known(SeededUpto(t, summary, n)), m)
  {
    if n > 0 {
      SeededDescribes(t, summary, n - 1, m);
      var u := SeededUpto(t, summary, n - 1);
      if Pinned(summary[n - 1]).Some? && n <= |ARGS| {
        SetDescribes(Known(u), ARGS[n - 1], Pinned(summary[n - 1]).value, m);
      }
    }
  }

  lemma SetDescribes(s: Consts, base: nat, v: nat, m: Machine)
    requires Describes(s, m) && base in ARGS && Operand(m, Varnode(REGISTER, base, 8)) == BytesOf(v, 8)
    ensures Describes(s.(regs := Registers.Write(s.regs, base, 8, Konst(v, 8))), m)
  {
    BytesOfLength(v, 8);
    forall i | 0 <= i < 8 && Konst(v, 8)[i].Some? ensures m.reg(base + i) == Konst(v, 8)[i].value {
      assert Operand(m, Varnode(REGISTER, base, 8))[i] == BytesOf(v, 8)[i];
    }
    WriteRegDescribes(s.regs, base, 8, Konst(v, 8), m.reg, m.reg);
  }

  // ---- a run

  type Point = BlockFlowSound.Point<Machine>

  /** The tracker before each op of each instruction. */
  type Trackers = (nat, nat) -> Tracker

  /** The trackers before and after an op. */
  ghost predicate Succeeds(t: Tracker, op: PcodeOp, u: Tracker) {
    u == if IsCall(op) then ClearForCall(t) else Apply(t, op)
  }

  ghost predicate OpFollows(f: Function, tr: Trackers, i: nat, k: nat) {
    i < |f.lift| && k < |f.lift[i].ops| ==> Succeeds(tr(i, k), f.lift[i].ops[k], tr(i, k + 1))
  }

  ghost predicate InsnFollows(f: Function, tr: Trackers, i: nat) {
    && (i < |f.lift| && IsJoin(f.lift, f.external, i) ==> Known(tr(i, 0)) == NOTHING)
    && (i + 1 < |f.lift| && !IsJoin(f.lift, f.external, i + 1) ==> tr(i + 1, 0) == tr(i, |f.lift[i].ops|))
  }

  /** The trackers follow the instructions, blank at each join. */
  ghost predicate AreTrackers(f: Function, tr: Trackers) {
    (forall i, k :: OpFollows(f, tr, i, k)) && forall i :: InsnFollows(f, tr, i)
  }

  /** The point is in the lift. */
  ghost predicate InLift(f: Function, x: Point) {
    x.i < |f.lift| && x.k <= |f.lift[x.i].ops|
  }

  /** The tracker at the point is right. */
  ghost predicate Tracks(f: Function, tr: Trackers, x: Point) {
    InLift(f, x) && Describes(Known(tr(x.i, x.k)), x.c)
  }

  ghost predicate StepOk(f: Function, tr: Trackers, x: Point, y: Point) {
    && BlockFlowSound.Steps(f.lift, ConstMeaning(), x, y)
    && (x.k < |f.lift[x.i].ops| ==> OpOk(tr(x.i, x.k), f.lift[x.i].ops[x.k], y.c))
  }

  lemma JoinTracks(f: Function, tr: Trackers, x: Point)
    requires AreTrackers(f, tr) && x.i < |f.lift| && x.k == 0 && IsJoin(f.lift, f.external, x.i)
    ensures Tracks(f, tr, x)
  {
    assert InsnFollows(f, tr, x.i);
    NothingDescribes(x.c);
  }

  /** A jump leads to a join. */
  lemma JumpJoins(f: Function, i: nat, k: nat, j: nat)
    requires i < |f.lift| && k < |f.lift[i].ops| && j < |f.lift|
    requires IsJump(f.lift[i].ops[k]) && Target(f.lift[i].ops[k]) == Some(f.lift[j].address)
    ensures IsJoin(f.lift, f.external, j)
  {
    BlockFlowBuild.TargetsHold(f.lift[i].ops, k);
    BlockFlowBuild.TargetsInHold(f.lift, 0, |f.lift|, i, f.lift[j].address);
  }

  lemma FallTracks(f: Function, tr: Trackers, x: Point, y: Point)
    requires AreTrackers(f, tr) && Tracks(f, tr, x) && x.k == |f.lift[x.i].ops|
    requires y == BlockFlowSound.Point(x.i + 1, 0, x.c) && y.i < |f.lift|
    ensures Tracks(f, tr, y)
  {
    if IsJoin(f.lift, f.external, y.i) { JoinTracks(f, tr, y); } else { assert InsnFollows(f, tr, x.i); }
  }

  lemma JumpStays(insns: seq<Insn>, x: Point, y: Point)
    requires BlockFlowSound.Steps(insns, ConstMeaning(), x, y) && x.k < |insns[x.i].ops| && y.i == x.i && y.k == x.k + 1
    requires IsJump(insns[x.i].ops[x.k])
    ensures y.c == x.c
  {
  }

  /** One op, what is known of it and after it. */
  lemma OpKnown(t: Tracker, u: Tracker, op: PcodeOp, insns: seq<Insn>, x: Point, y: Point)
    requires BlockFlowSound.Steps(insns, ConstMeaning(), x, y) && x.k < |insns[x.i].ops| && op == insns[x.i].ops[x.k] && y.i == x.i && y.k == x.k + 1
    requires Describes(Known(t), x.c) && OpOk(t, op, y.c) && Succeeds(t, op, u)
    ensures Describes(Known(u), y.c)
  {
    if IsCall(op) {
      NothingDescribes(y.c);
    } else if IsJump(op) {
      JumpStays(insns, x, y);
      ApplyKnown(t, op);
    } else {
      ApplyTracks(t, op, x.c, y.c);
    }
  }

  lemma OpSucceeds(f: Function, tr: Trackers, x: Point, y: Point)
    requires AreTrackers(f, tr) && InLift(f, x) && x.k < |f.lift[x.i].ops| && y.i == x.i && y.k == x.k + 1
    ensures Succeeds(tr(x.i, x.k), f.lift[x.i].ops[x.k], tr(y.i, y.k))
  {
    assert OpFollows(f, tr, x.i, x.k);
  }

  lemma OpTracks(f: Function, tr: Trackers, x: Point, y: Point)
    requires InLift(f, x) && x.k < |f.lift[x.i].ops| && y.i == x.i && y.k == x.k + 1
    requires Describes(Known(tr(x.i, x.k)), x.c) && StepOk(f, tr, x, y)
    requires Succeeds(tr(x.i, x.k), f.lift[x.i].ops[x.k], tr(y.i, y.k))
    ensures Tracks(f, tr, y)
  {
    OpKnown(tr(x.i, x.k), tr(y.i, y.k), f.lift[x.i].ops[x.k], f.lift, x, y);
  }

  lemma StepTracks(f: Function, tr: Trackers, x: Point, y: Point)
    requires AreTrackers(f, tr) && Tracks(f, tr, x) && StepOk(f, tr, x, y)
    ensures Tracks(f, tr, y)
  {
    if x.k == |f.lift[x.i].ops| {
      FallTracks(f, tr, x, y);
    } else if y.i == x.i && y.k == x.k + 1 {
      OpSucceeds(f, tr, x, y);
      OpTracks(f, tr, x, y);
    } else {
      JumpJoins(f, x.i, x.k, y.i);
      JoinTracks(f, tr, y);
    }
  }

  /** A run goes by the trackers. */
  ghost predicate GoesBy(f: Function, tr: Trackers, run: seq<Point>) {
    forall j | 0 <= j < |run| - 1 :: StepOk(f, tr, run[j], run[j + 1])
  }

  ghost predicate Carries<X>(holds: X -> bool, step: (X, X) -> bool, x: X, y: X) {
    holds(x) && step(x, y) ==> holds(y)
  }

  lemma {:induction false} Follow<X(!new)>(run: seq<X>, holds: X -> bool, step: (X, X) -> bool, j: nat)
    requires run != [] && holds(run[0]) && (forall i | 0 <= i < |run| - 1 :: step(run[i], run[i + 1])) && j < |run|
    requires forall x, y :: Carries(holds, step, x, y)
    ensures holds(run[j])
  {
    if j > 0 {
      Follow(run, holds, step, j - 1);
      assert step(run[j - 1], run[j - 1 + 1]) && Carries(holds, step, run[j - 1], run[j]);
    }
  }

  lemma RunTracks(f: Function, tr: Trackers, run: seq<Point>, j: nat)
    requires AreTrackers(f, tr) && run != [] && Tracks(f, tr, run[0]) && GoesBy(f, tr, run) && j < |run|
    ensures Tracks(f, tr, run[j])
  {
    var holds, step := (x: Point) => Tracks(f, tr, x), (x: Point, y: Point) => StepOk(f, tr, x, y);
    forall x, y ensures Carries(holds, step, x, y) {
      if Tracks(f, tr, x) && StepOk(f, tr, x, y) { StepTracks(f, tr, x, y); }
    }
    Follow(run, holds, step, j);
  }

  // ---- the walk's trackers

  /** The tracker before op `k` of instruction `i`. */
  ghost function TrackAt(f: Function, summary: Option<Summary>, i: nat, k: nat): Tracker
    requires i < |f.lift| && k <= |f.lift[i].ops|
  {
    WalkAt(f, summary, i, k).t
  }

  ghost function WalkAt(f: Function, summary: Option<Summary>, i: nat, k: nat): Walk
    requires i < |f.lift| && k <= |f.lift[i].ops|
  {
    var w := WalkUpto(f.entry, f.lift, FlagsOf(f), i, Walk(Seeded(summary), []));
    WalkOps(f.entry, f.lift[i], FlagsOf(f)[i].owned, k, if FlagsOf(f)[i].join then w.(t := Reset(w.t)) else w)
  }

  ghost function TrackersOf(f: Function, summary: Option<Summary>): Trackers {
    (i: nat, k: nat) => if i < |f.lift| && k <= |f.lift[i].ops| then TrackAt(f, summary, i, k) else Blank(false, false)
  }

  lemma OpsFollow(f: Function, summary: Option<Summary>, i: nat, k: nat)
    ensures OpFollows(f, TrackersOf(f, summary), i, k)
  {
  }

  lemma InsnsFollow(f: Function, summary: Option<Summary>, i: nat)
    ensures InsnFollows(f, TrackersOf(f, summary), i)
  {
  }

  lemma TrackersAre(f: Function, summary: Option<Summary>)
    ensures AreTrackers(f, TrackersOf(f, summary))
  {
    forall i, k ensures OpFollows(f, TrackersOf(f, summary), i, k) { OpsFollow(f, summary, i, k); }
    forall i ensures InsnFollows(f, TrackersOf(f, summary), i) { InsnsFollow(f, summary, i); }
  }

  /** A run enters from outside the lift, behind an instruction that does not fall through, or at
      the entry with the parameters as the summary has them. */
  ghost predicate Enters(f: Function, summary: Option<Summary>, x: Point) {
    && x.i < |f.lift| && x.k == 0
    && (|| (x.i == 0 && ParamsHold(summary, x.c))
        || f.lift[x.i].address in f.external
        || (x.i > 0 && BlockFlowBuild.StopsFlow(f.lift[x.i - 1])))
  }

  ghost predicate IsTracked(f: Function, summary: Option<Summary>, run: seq<Point>) {
    run != [] && Enters(f, summary, run[0]) && GoesBy(f, TrackersOf(f, summary), run)
  }

  lemma SeedDescribes(summary: Option<Summary>, m: Machine)
    requires ParamsHold(summary, m)
    ensures Describes(Known(Seeded(summary)), m)
  {
    NothingDescribes(m);
    if summary.Some? { SeededDescribes(Blank(false, false), summary.value, |summary.value|, m); }
  }

  lemma FirstTracker(f: Function, summary: Option<Summary>)
    requires f.lift != [] && !IsJoin(f.lift, f.external, 0)
    ensures TrackersOf(f, summary)(0, 0) == Seeded(summary)
  {
  }

  lemma EntryTracks(f: Function, summary: Option<Summary>, x: Point)
    requires Enters(f, summary, x)
    ensures Tracks(f, TrackersOf(f, summary), x)
  {
    TrackersAre(f, summary);
    if IsJoin(f.lift, f.external, x.i) {
      JoinTracks(f, TrackersOf(f, summary), x);
    } else {
      FirstTracker(f, summary);
      SeedDescribes(summary, x.c);
    }
  }

  // ---- the sites

  /** Op `k` of instruction `i` is a call the function owns. */
  ghost predicate IsOwnedCall(f: Function, i: nat, k: nat) {
    i < |f.lift| && k < |f.lift[i].ops| && IsCall(f.lift[i].ops[k]) && f.owns(f.lift[i].address)
  }

  /** The site of that call. */
  ghost function SiteOf(f: Function, summary: Option<Summary>, i: nat, k: nat): CallSite
    requires IsOwnedCall(f, i, k)
  {
    var t := TrackAt(f, summary, i, k);
    CallSite(f.lift[i].address, f.entry, DirectTarget(f.lift[i].ops[k]), Arguments(t))
  }

  ghost predicate IsSite(f: Function, summary: Option<Summary>, s: CallSite) {
    exists i: nat, k: nat :: IsOwnedCall(f, i, k) && s == SiteOf(f, summary, i, k)
  }

  /** The sites after one op more. */
  lemma OutNext(f: Function, summary: Option<Summary>, i: nat, k: nat)
    requires i < |f.lift| && k < |f.lift[i].ops|
    ensures WalkAt(f, summary, i, k + 1).out ==
      if IsOwnedCall(f, i, k) then WalkAt(f, summary, i, k).out + [SiteOf(f, summary, i, k)] else WalkAt(f, summary, i, k).out
  {
    assert IsCall(f.lift[i].ops[k]) ==> HasCall(f.lift[i]);
    assert FlagsOf(f)[i].owned == IsOwned(f.lift, f.owns, i);
  }

  lemma NextHas(f: Function, summary: Option<Summary>, i: nat, k: nat, s: CallSite)
    requires i < |f.lift| && k < |f.lift[i].ops|
    ensures s in WalkAt(f, summary, i, k + 1).out <==> s in WalkAt(f, summary, i, k).out || (IsOwnedCall(f, i, k) && s == SiteOf(f, summary, i, k))
  {
    OutNext(f, summary, i, k);
  }

  /** What is in a list that grows is what was added. */
  lemma {:induction false} Grows<T>(out: nat -> seq<T>, adds: nat -> bool, s: T, k: nat)
    requires forall l: nat | l < k :: AddsAt(out, adds, s, l)
    ensures s in out(k) <==> s in out(0) || exists l: nat :: l < k && adds(l)
  {
    if k > 0 {
      Grows(out, adds, s, k - 1);
      assert AddsAt(out, adds, s, k - 1);
    }
  }

  ghost predicate AddsAt<T>(out: nat -> seq<T>, adds: nat -> bool, s: T, l: nat) {
    s in out(l + 1) <==> s in out(l) || adds(l)
  }

  ghost function InsnOut(f: Function, summary: Option<Summary>, i: nat): nat -> seq<CallSite> {
    (k: nat) => if i < |f.lift| && k <= |f.lift[i].ops| then WalkAt(f, summary, i, k).out else []
  }

  ghost function InsnAdds(f: Function, summary: Option<Summary>, i: nat, s: CallSite): nat -> bool {
    (k: nat) => IsOwnedCall(f, i, k) && s == SiteOf(f, summary, i, k)
  }

  lemma InsnAddsAt(f: Function, summary: Option<Summary>, i: nat, s: CallSite, l: nat)
    requires i < |f.lift| && l < |f.lift[i].ops|
    ensures AddsAt(InsnOut(f, summary, i), InsnAdds(f, summary, i, s), s, l)
  {
    NextHas(f, summary, i, l, s);
  }

  /** The sites of one instruction. */
  lemma InsnSites(f: Function, summary: Option<Summary>, i: nat, s: CallSite)
    requires i < |f.lift|
    ensures s in InsnOut(f, summary, i)(|f.lift[i].ops|) <==> s in InsnOut(f, summary, i)(0) || exists k: nat :: k < |f.lift[i].ops| && InsnAdds(f, summary, i, s)(k)
  {
    forall l: nat | l < |f.lift[i].ops| ensures AddsAt(InsnOut(f, summary, i), InsnAdds(f, summary, i, s), s, l) {
      InsnAddsAt(f, summary, i, s, l);
    }
    Grows(InsnOut(f, summary, i), InsnAdds(f, summary, i, s), s, |f.lift[i].ops|);
  }

  ghost function SitesBefore(f: Function, summary: Option<Summary>, n: nat): seq<CallSite>
    requires n <= |f.lift|
  {
    WalkUpto(f.entry, f.lift, FlagsOf(f), n, Walk(Seeded(summary), [])).out
  }

  ghost function LiftOut(f: Function, summary: Option<Summary>): nat -> seq<CallSite> {
    (n: nat) => if n <= |f.lift| then SitesBefore(f, summary, n) else []
  }

  /** One of the calls of instruction `i` gives the site. */
  ghost function LiftAdds(f: Function, summary: Option<Summary>, s: CallSite): nat -> bool {
    (i: nat) => exists k: nat :: IsOwnedCall(f, i, k) && s == SiteOf(f, summary, i, k)
  }

  lemma FirstSites(f: Function, summary: Option<Summary>, i: nat)
    requires i < |f.lift|
    ensures LiftOut(f, summary)(i) == InsnOut(f, summary, i)(0)
  {
  }

  lemma NextSites(f: Function, summary: Option<Summary>, i: nat)
    requires i < |f.lift|
    ensures LiftOut(f, summary)(i + 1) == InsnOut(f, summary, i)(|f.lift[i].ops|)
  {
  }

  lemma LiftAddsAre(f: Function, summary: Option<Summary>, s: CallSite, i: nat)
    requires i < |f.lift|
    ensures LiftAdds(f, summary, s)(i) <==> exists k: nat :: k < |f.lift[i].ops| && InsnAdds(f, summary, i, s)(k)
  {
    if k: nat :| IsOwnedCall(f, i, k) && s == SiteOf(f, summary, i, k) { assert InsnAdds(f, summary, i, s)(k); }
    if k: nat :| k < |f.lift[i].ops| && InsnAdds(f, summary, i, s)(k) { assert IsOwnedCall(f, i, k); }
  }

  lemma LiftAddsAt(f: Function, summary: Option<Summary>, s: CallSite, i: nat)
    requires i < |f.lift|
    ensures AddsAt(LiftOut(f, summary), LiftAdds(f, summary, s), s, i)
  {
    FirstSites(f, summary, i);
    NextSites(f, summary, i);
    InsnSites(f, summary, i, s);
    LiftAddsAre(f, summary, s, i);
  }

  /** The sites are those of the owned calls, and no others. */
  lemma SitesAre(f: Function, summary: Option<Summary>, s: CallSite)
    ensures s in Sites(f, summary) <==> IsSite(f, summary, s)
  {
    forall i: nat | i < |f.lift| ensures AddsAt(LiftOut(f, summary), LiftAdds(f, summary, s), s, i) {
      LiftAddsAt(f, summary, s, i);
    }
    Grows(LiftOut(f, summary), LiftAdds(f, summary, s), s, |f.lift|);
    EachSite(f, summary, s);
  }

  lemma EachSite(f: Function, summary: Option<Summary>, s: CallSite)
    ensures IsSite(f, summary, s) <==> exists i: nat :: i < |f.lift| && LiftAdds(f, summary, s)(i)
  {
    if i: nat, k: nat :| IsOwnedCall(f, i, k) && s == SiteOf(f, summary, i, k) { assert LiftAdds(f, summary, s)(i); }
  }

  /** The arguments given are the values of their registers. */
  ghost predicate ArgsHold(args: seq<Option<nat>>, m: Machine) {
    forall r | 0 <= r < |args| && r < |ARGS| && args[r].Some? :: args[r].value == Register(m, ARGS[r])
  }

  lemma KnownArgsHold(t: Tracker, m: Machine)
    requires Describes(Known(t), m)
    ensures ArgsHold(Arguments(t), m)
  {
    forall r | 0 <= r < |ARGS| && Arguments(t)[r].Some? ensures Arguments(t)[r].value == Register(m, ARGS[r]) {
      assert ARGS[r] in FullValues(Known(t));
      FullValueHolds(Known(t), m, ARGS[r]);
    }
  }

  /** Where a run reaches an owned call there is a site of the call, whose arguments hold. */
  lemma SitesHold(f: Function, summary: Option<Summary>, run: seq<Point>, j: nat)
    requires IsTracked(f, summary, run) && j < |run| && IsOwnedCall(f, run[j].i, run[j].k)
    ensures SiteOf(f, summary, run[j].i, run[j].k) in Sites(f, summary)
    ensures ArgsHold(SiteOf(f, summary, run[j].i, run[j].k).args, run[j].c)
  {
    var s := SiteOf(f, summary, run[j].i, run[j].k);
    SitesAre(f, summary, s);
    EntryTracks(f, summary, run[0]);
    TrackersAre(f, summary);
    RunTracks(f, TrackersOf(f, summary), run, j);
    KnownArgsHold(TrackAt(f, summary, run[j].i, run[j].k), run[j].c);
  }
}
