/**
 The state of the constants' flow as it is kept and changed in place: a sorted list of
 registers and a sorted list of temporaries.
 */
module CfgState {
  import opened Numbers
  import opened Pcode
  import opened ByteConst
  import opened CfgConst
  import opened RegisterFiles
  import opened TemporaryEntries

  /** The evaluation reads the first two inputs only. */
  lemma EvalReadsTwo(op: PcodeOp, f: Varnode -> ByteConst, g: Varnode -> ByteConst)
    requires forall i | 0 <= i < |op.inputs| && i < 2 :: f(op.inputs[i]) == g(op.inputs[i])
    ensures Eval(op, f) == Eval(op, g)
  {
    SameVal(op, 0, f, g);
    SameVal(op, 1, f, g);
    SameArithmetic(op, f, g);
  }

  lemma SameVal(op: PcodeOp, i: nat, f: Varnode -> ByteConst, g: Varnode -> ByteConst)
    requires i < |op.inputs| ==> f(op.inputs[i]) == g(op.inputs[i])
    ensures Val(op, i, f) == Val(op, i, g) && Full(op, i, f) == Full(op, i, g)
  {
  }

  lemma SameArithmetic(op: PcodeOp, f: Varnode -> ByteConst, g: Varnode -> ByteConst)
    requires Full(op, 0, f) == Full(op, 0, g) && Full(op, 1, f) == Full(op, 1, g)
    ensures Arithmetic(op, f) == Arithmetic(op, g)
  {
  }

  class State {
    var regs: RegList
    var temps: ByteMem

    ghost predicate Valid()
      reads this, regs, temps
    {
      regs.Valid() && temps.Valid()
    }

    ghost function Contents(): Consts
      reads this, regs, temps
    {
      Consts(regs.regs, temps.temps)
    }

    constructor ()
      ensures Valid() && Contents() == NOTHING && fresh(regs) && fresh(temps)
    {
      regs := new RegList();
      temps := new ByteMem();
    }

    method Read(vn: Varnode) returns (v: ByteConst)
      requires Valid()
      ensures v == ReadVar(Contents(), vn)
    {
      if vn.space == CONST {
        v := Konst(vn.offset, vn.size);
      } else if vn.space == REGISTER {
        v := regs.Read(vn.offset, vn.size);
      } else {
        v := temps.Read(vn.space, AsI64(vn.offset), vn.size);
      }
    }

    method Write(out: Varnode, v: ByteConst)
      requires Valid() && (if out.space == REGISTER then InRange(out.offset, out.size) else out.offset < TWO64)
      modifies regs, temps
      ensures Valid() && Contents() == WriteVar(old(Contents()), out, v)
    {
      if out.space == REGISTER {
        regs.Write(out.offset, out.size, v);
      } else {
        temps.Write(out.space, AsI64(out.offset), out.size, v);
      }
    }

    /** The output of `op` evaluated over what is known. */
    method Evaluate(op: PcodeOp) returns (v: ByteConst)
      requires Valid()
      ensures v == Output(Contents(), op)
    {
      v := UNKNOWN;
      if op.opcode != Load {
        var a, b := UNKNOWN, UNKNOWN;
        if |op.inputs| > 0 { a := Read(op.inputs[0]); }
        if |op.inputs| > 1 { b := Read(op.inputs[1]); }
        var read := (vn: Varnode) => if |op.inputs| > 0 && vn == op.inputs[0] then a else b;
        ghost var s := Contents();
        EvalReadsTwo(op, read, vn => ReadVar(s, vn));
        var r := Eval(op, read);
        if r.Some? { v := r.value; }
      }
    }

    /** One op that is not a call. */
    method Apply(op: PcodeOp)
      requires Valid()
      requires op.output.Some? ==>
        var out := op.output.value; if out.space == REGISTER then InRange(out.offset, out.size) else out.offset < TWO64
      modifies this, regs, temps
      ensures Valid() && Contents() == ApplyOp(old(Contents()), op)
      ensures (regs == old(regs) && temps == old(temps)) || (fresh(regs) && fresh(temps))
    {
      if IsUnmodeled(op) {
        regs := new RegList();
        temps := new ByteMem();
        return;
      }
      if op.output.None? || IsViewRefresh(op) { return; }
      var v := Evaluate(op);
      Write(op.output.value, v);
    }

    method AfterCall()
      requires Valid()
      modifies regs
      ensures Valid() && Contents() == CfgConst.AfterCall(old(Contents()))
    {
      regs.Clear();
    }

    method Join(o: State) returns (out: State)
      requires Valid() && o.Valid()
      ensures fresh(out) && out.Valid() && out.Contents() == JoinConsts(Contents(), o.Contents())
    {
      var r := regs.Join(o.regs);
      var t := temps.Join(o.temps);
      out := new State();
      out.regs, out.temps := r, t;
    }
  }

  /** States compare as what they know does. */
  lemma SameState(a: State, b: State)
    requires a.Valid() && b.Valid()
    ensures a.regs.list == b.regs.list && a.temps.entries == b.temps.entries <==> a.Contents() == b.Contents()
  {
    SameList(a.regs.list, a.regs.regs, b.regs.list, b.regs.regs);
    SameEntries(a.temps.entries, b.temps.entries);
  }
}
