/**
 What the walk of one function knows of its registers, temporaries and stack slots along a
 straight line of code, and what of it a control-flow join leaves.
 */
module CallTracker {
  import opened Pcode
  import opened ByteConst
  import Registers
  import Temporaries
  import opened CfgConst

  const RBP: nat := 0x28
  const RSP: nat := 0x20

  /** The argument registers, in the order of the calling convention. */
  const ARGS: seq<nat> := [0x38, 0x30, 0x10, 0x08, 0x80, 0x88]

  /** The space stack slots are kept in, by offset from the frame pointer. */
  const SLOTS: Space := 0

  datatype Tracker = Tracker(
    regs: Registers.Regs,
    temps: Temporaries.Temps,
    // Temporaries that hold a frame address, and its offset.
    frame: map<nat, int>,
    stack: Temporaries.Temps,
    // Temporaries that hold an address from the stack pointer.
    rspTemps: set<nat>,
    // A stack address has left the frame.
    escaped: bool,
    // The frame pointer was written.
    rbpWritten: bool)

  /** Nothing known but whether a stack address escaped and the frame pointer was written. */
  function Blank(escaped: bool, rbpWritten: bool): Tracker {
    Tracker(map[], map[], map[], map[], {}, escaped, rbpWritten)
  }

  function ClearForCall(t: Tracker): Tracker {
    Tracker(map[], map[], map[], if t.escaped then map[] else t.stack, {}, t.escaped, t.rbpWritten)
  }

  /** Forget everything: the next instruction is a join. */
  function Reset(t: Tracker): Tracker {
    ClearForCall(t).(stack := map[])
  }

  predicate IsStackAddress(t: Tracker, vn: Varnode) {
    if vn.space == REGISTER then vn.offset == RSP || (vn.offset == RBP && t.rbpWritten)
    else vn.space == UNIQUE && (vn.offset in t.frame || vn.offset in t.rspTemps)
  }

  function ReadOf(t: Tracker, vn: Varnode): ByteConst {
    ReadVar(Consts(t.regs, t.temps), vn)
  }

  function WriteTo(t: Tracker, out: Varnode, v: ByteConst): Tracker {
    var s := WriteVar(Consts(t.regs, t.temps), out, v);
    t.(regs := s.regs, temps := s.temps)
  }

  /** The value of the eight bytes of the register at `offset`. */
  function Reg64(t: Tracker, offset: nat): Option<nat> {
    Get(Registers.Slot(t.regs, offset), 8)
  }

  /** The constant of a varnode, its sign extended from its size. */
  function Signed(vn: Varnode): int {
    if vn.size == 0 || vn.size >= 8 then AsI64(vn.offset)
    else
      PowPositive(vn.size);
      var m := Pow256(vn.size);
      var v := vn.offset % m;
      if 2 * v >= m then v - m else v
  }

  function WrappingNeg(v: int): int {
    if v == Temporaries.I64_MIN then v else -v
  }

  predicate IsFrameBase(vn: Varnode) {
    vn.space == REGISTER && vn.offset == RBP && vn.size == 8
  }

  /** The offset of the frame address an op computes. */
  function FrameAddress(op: PcodeOp): Option<int> {
    if (op.opcode != IntAdd && op.opcode != IntSub) || |op.inputs| < 2 then None
    else
      var a, b := op.inputs[0], op.inputs[1];
      if IsFrameBase(a) && b.space == CONST then Some(if op.opcode == IntSub then WrappingNeg(Signed(b)) else Signed(b))
      else if IsFrameBase(b) && a.space == CONST && op.opcode == IntAdd then Some(Signed(a))
      else None
  }

  function ApplyStore(t: Tracker, op: PcodeOp): Tracker {
    if |op.inputs| < 3 then t
    else
      var addr, value := op.inputs[1], op.inputs[2];
      var u := if IsStackAddress(t, value) then t.(escaped := true) else t;
      if addr.space == UNIQUE && addr.offset in u.frame then
        u.(stack := Temporaries.Write(u.stack, SLOTS, u.frame[addr.offset], value.size, ReadOf(u, value)))
      else if u.escaped || IsStackAddress(u, addr) then u.(stack := map[])
      else u
  }

  /** What the op knows of what it writes. */
  function OutputOf(t: Tracker, op: PcodeOp, out: Varnode): ByteConst {
    if op.opcode == Load then
      if |op.inputs| >= 2 && op.inputs[1].space == UNIQUE && op.inputs[1].offset in t.frame then
        Temporaries.Read(t.stack, SLOTS, t.frame[op.inputs[1].offset], out.size)
      else UNKNOWN
    else
      match Eval(op, vn => ReadOf(t, vn))
      case None => UNKNOWN
      case Some(v) => v
  }

  /** Whether an input is a stack address passed on (a load's is not). */
  predicate ReadsStackAddress(t: Tracker, op: PcodeOp) {
    op.opcode != Load && exists i | 0 <= i < |op.inputs| :: IsStackAddress(t, op.inputs[i])
  }

  function ApplyOutput(t: Tracker, op: PcodeOp, out: Varnode): Tracker {
    var stacked := ReadsStackAddress(t, op);
    var base := Registers.Base(out.offset);
    var u := if out.space == REGISTER && base == RBP then t.(rbpWritten := true) else t;
    if out.space == UNIQUE then
      var v := u.(frame := u.frame - {out.offset}, rspTemps := u.rspTemps - {out.offset});
      match FrameAddress(op)
      case Some(off) => WriteTo(v.(frame := v.frame[out.offset := off]), out, UNKNOWN)
      case None =>
        var w := if stacked then v.(rspTemps := v.rspTemps + {out.offset}) else v;
        WriteTo(w, out, OutputOf(w, op, out))
    else
      var v := if out.space == REGISTER && stacked && out.offset < 0x200 && base != RBP && base != RSP then u.(escaped := true) else u;
      WriteTo(v, out, OutputOf(v, op, out))
  }

  /** One op that is not a call. */
  function Apply(t: Tracker, op: PcodeOp): Tracker {
    if IsUnmodeled(op) then ClearForCall(t)
    else if op.opcode == Store then ApplyStore(t, op)
    else if op.output.None? || IsViewRefresh(op) then t
    else ApplyOutput(t, op, op.output.value)
  }

  // ---- what a join leaves

  /** A reset leaves the two flags and nothing else. */
  lemma ResetIsBlank(t: Tracker)
    ensures Reset(t) == Blank(t.escaped, t.rbpWritten)
  {
  }

  /** What `u` has set, `t` had set. */
  ghost predicate KeepsFlags(t: Tracker, u: Tracker) {
    (t.escaped ==> u.escaped) && (t.rbpWritten ==> u.rbpWritten)
  }

  /** The flags are only ever set. */
  lemma FlagsStay(t: Tracker, op: PcodeOp)
    ensures KeepsFlags(t, Apply(t, op)) && KeepsFlags(t, ClearForCall(t)) && KeepsFlags(t, Reset(t))
  {
    if op.opcode == Store {
      StoreFlags(t, op);
    } else if op.output.Some? {
      OutputFlags(t, op, op.output.value);
    }
  }

  lemma StoreFlags(t: Tracker, op: PcodeOp)
    ensures KeepsFlags(t, ApplyStore(t, op))
  {
  }

  lemma OutputFlags(t: Tracker, op: PcodeOp, out: Varnode)
    ensures KeepsFlags(t, ApplyOutput(t, op, out))
  {
  }

  // ---- what the tracker knows

  /** Equal inputs give equal results. */
  lemma EvalSame(op: PcodeOp, a: Varnode -> ByteConst, b: Varnode -> ByteConst)
    requires forall vn :: a(vn) == b(vn)
    ensures Eval(op, a) == Eval(op, b)
  {
  }

  /** Of a load, a store or a frame address the tracker has its own view. */
  predicate IsOfFrame(t: Tracker, op: PcodeOp) {
    || op.opcode == Load || op.opcode == Store
    || (op.output.Some? && op.output.value.space == UNIQUE && FrameAddress(op).Some?)
  }

  lemma WriteIsDomain(t: Tracker, u: Tracker, op: PcodeOp)
    requires u.regs == t.regs && u.temps == t.temps && op.output.Some? && op.opcode != Load && op.opcode != Store
    ensures var w, s := WriteTo(u, op.output.value, OutputOf(u, op, op.output.value)), Consts(t.regs, t.temps);
      Consts(w.regs, w.temps) == WriteVar(s, op.output.value, Output(s, op))
  {
    var s := Consts(t.regs, t.temps);
    EvalSame(op, vn => ReadOf(u, vn), vn => ReadVar(s, vn));
  }

  lemma TempIsDomain(t: Tracker, op: PcodeOp, out: Varnode)
    requires !IsOfFrame(t, op) && op.output == Some(out) && out.space == UNIQUE
    ensures var w, s := ApplyOutput(t, op, out), Consts(t.regs, t.temps); Consts(w.regs, w.temps) == WriteVar(s, out, Output(s, op))
  {
    var v := t.(frame := t.frame - {out.offset}, rspTemps := t.rspTemps - {out.offset});
    var w := if ReadsStackAddress(t, op) then v.(rspTemps := v.rspTemps + {out.offset}) else v;
    WriteIsDomain(t, w, op);
    assert ApplyOutput(t, op, out) == WriteTo(w, out, OutputOf(w, op, out));
  }

  lemma RegIsDomain(t: Tracker, op: PcodeOp, out: Varnode)
    requires !IsOfFrame(t, op) && op.output == Some(out) && out.space != UNIQUE
    ensures var w, s := ApplyOutput(t, op, out), Consts(t.regs, t.temps); Consts(w.regs, w.temps) == WriteVar(s, out, Output(s, op))
  {
    var base := Registers.Base(out.offset);
    var u := if out.space == REGISTER && base == RBP then t.(rbpWritten := true) else t;
    var v := if out.space == REGISTER && ReadsStackAddress(t, op) && out.offset < 0x200 && base != RBP && base != RSP then u.(escaped := true) else u;
    WriteIsDomain(t, v, op);
    assert ApplyOutput(t, op, out) == WriteTo(v, out, OutputOf(v, op, out));
  }

  /** An op of the frame apart, the registers and temporaries are known as the flow over the blocks
      knows them. */
  lemma ApplyIsDomain(t: Tracker, op: PcodeOp)
    requires !IsOfFrame(t, op)
    ensures Consts(Apply(t, op).regs, Apply(t, op).temps) == ApplyOp(Consts(t.regs, t.temps), op)
  {
    if !IsUnmodeled(op) && op.output.Some? && !IsViewRefresh(op) {
      if op.output.value.space == UNIQUE { TempIsDomain(t, op, op.output.value); } else { RegIsDomain(t, op, op.output.value); }
    }
  }

  /** A value spilled to a slot of the frame is what a load from there brings. */
  lemma SpillReloads(t: Tracker, store: PcodeOp, load: PcodeOp, out: Varnode)
    requires |store.inputs| >= 3 && |load.inputs| >= 2 && load.opcode == Load && load.inputs[1] == store.inputs[1]
    requires store.inputs[1].space == UNIQUE && store.inputs[1].offset in t.frame
    requires 1 <= out.size <= 8 && store.inputs[2].size == out.size && Temporaries.Valid(t.stack)
    requires var o := t.frame[store.inputs[1].offset]; Temporaries.IsOffset(o) && Temporaries.IsOffset(o + Temporaries.Wide(out.size))
    ensures OutputOf(ApplyStore(t, store), load, out) == Trunc(ReadOf(t, store.inputs[2]), out.size)
  {
    Temporaries.ReadBack(t.stack, SLOTS, t.frame[store.inputs[1].offset], out.size, ReadOf(t, store.inputs[2]));
  }

  // ---- the values a function is entered with

  /** The values calls pass to each parameter (`None`: one is unknown). */
  type Summary = seq<Option<set<nat>>>

  /** The one value every call passes. */
  function Pinned(p: Option<set<nat>>): (v: Option<nat>)
    ensures v.Some? <==> p.Some? && |p.value| == 1
    ensures v.Some? ==> p.value == {v.value}
  {
    if p.Some? && |p.value| == 1 then
      assert exists x :: p.value == {x} by { OneMember(p.value); }
      var x :| p.value == {x};
      Some(x)
    else None
  }

  lemma OneMember(s: set<nat>)
    requires |s| == 1
    ensures exists x :: s == {x}
  {
    var x :| x in s;
    assert |s - {x}| == 0;
    assert s == {x};
  }

  /** The parameters before the `n`th with one value, in their registers. */
  function SeededUpto(t: Tracker, summary: Summary, n: nat): Tracker
    requires n <= |summary|
  {
    if n == 0 then t
    else
      var u := SeededUpto(t, summary, n - 1);
      match Pinned(summary[n - 1])
      case None => u
      case Some(v) => if n <= |ARGS| then u.(regs := Registers.Write(u.regs, ARGS[n - 1], 8, Konst(v, 8))) else u
  }

  /** The tracker at a function's entry. */
  function Seeded(summary: Option<Summary>): Tracker {
    match summary
    case None => Blank(false, false)
    case Some(s) => SeededUpto(Blank(false, false), s, |s|)
  }

  /** A parameter is pinned to a value. */
  predicate SeedsAnything(summary: Option<Summary>) {
    summary.Some? && exists i | 0 <= i < |summary.value| :: Pinned(summary.value[i]).Some?
  }

  lemma {:induction false} SeedsNothing(t: Tracker, summary: Summary, n: nat)
    requires n <= |summary| && forall i | 0 <= i < n :: Pinned(summary[i]).None?
    ensures SeededUpto(t, summary, n) == t
  {
    if n > 0 { SeedsNothing(t, summary, n - 1); }
  }

  lemma {:induction false} SamePinned(t: Tracker, a: Summary, b: Summary, n: nat)
    requires n <= |a| && n <= |b| && forall i | 0 <= i < n :: Pinned(a[i]) == Pinned(b[i])
    ensures SeededUpto(t, a, n) == SeededUpto(t, b, n)
  {
    if n > 0 { SamePinned(t, a, b, n - 1); }
  }
}
