/**
 Constants of registers and temporaries as a flow over the blocks of a function.
 */
module CfgConst {
  import opened Numbers
  import opened Pcode
  import opened ByteConst
  import Registers
  import Temporaries
  import opened BlockFlow
  import opened BlockFlowSound

  /** The known bytes of the registers and of the temporaries. */
  datatype Consts = Consts(regs: Registers.Regs, temps: Temporaries.Temps)

  const NOTHING: Consts := Consts(map[], map[])

  /** `offset as i64`. */
  function AsI64(offset: nat): int {
    if offset <= Temporaries.I64_MAX then offset else offset - TWO64
  }

  function ReadVar(s: Consts, vn: Varnode): ByteConst {
    if vn.space == CONST then Konst(vn.offset, vn.size)
    else if vn.space == REGISTER then Registers.Read(s.regs, vn.offset, vn.size)
    else Temporaries.Read(s.temps, vn.space, AsI64(vn.offset), vn.size)
  }

  function WriteVar(s: Consts, out: Varnode, v: ByteConst): Consts {
    if out.space == REGISTER then s.(regs := Registers.Write(s.regs, out.offset, out.size, v))
    else s.(temps := Temporaries.Write(s.temps, out.space, AsI64(out.offset), out.size, v))
  }

  const INTRINSIC_BASE: nat := 0x100
  const NORETURN: nat := 0xff

  /** An instruction the lifter left opaque: it may write anything. */
  predicate IsUnmodeled(op: PcodeOp) {
    && op.opcode == CallOther && op.inputs != [] && op.inputs[0].space == CONST
    && op.inputs[0].offset < INTRINSIC_BASE && op.inputs[0].offset != NORETURN
  }

  /** A part of a register copied onto itself, as lifters do to keep the names of its parts in
      step. */
  predicate IsViewRefresh(op: PcodeOp) {
    && op.opcode == Subpiece && op.output.Some? && |op.inputs| >= 2
    && op.output.value.space == REGISTER && op.inputs[0].space == REGISTER && op.inputs[1].space == CONST
    && op.output.value.offset == (op.inputs[0].offset + op.inputs[1].offset) % TWO64
    && op.inputs[1].offset + op.output.value.size <= op.inputs[0].size
  }

  function Output(s: Consts, op: PcodeOp): ByteConst {
    if op.opcode == Load then UNKNOWN
    else
      match Eval(op, vn => ReadVar(s, vn))
      case None => UNKNOWN
      case Some(v) => v
  }

  /** One op that is not a call. */
  function ApplyOp(s: Consts, op: PcodeOp): Consts {
    if IsUnmodeled(op) then NOTHING
    else if op.output.None? || IsViewRefresh(op) then s
    else WriteVar(s, op.output.value, Output(s, op))
  }

  function JoinConsts(a: Consts, b: Consts): Consts {
    Consts(Registers.Join(a.regs, b.regs), Temporaries.Join(a.temps, b.temps))
  }

  /** A call leaves no register known; the temporaries are kept. */
  function AfterCall(s: Consts): Consts {
    s.(regs := map[])
  }

  /** The registers whose eight bytes are known. */
  function FullValues(s: Consts): map<nat, nat> {
    map b | b in s.regs && Get(s.regs[b], 8).Some? :: Get(s.regs[b], 8).value
  }

  function ConstFlow(): Flow<Consts, map<nat, nat>> {
    Flow(NOTHING, JoinConsts, ApplyOp, AfterCall, FullValues)
  }

  // ---- concrete runs, byte by byte

  /** The bytes of the registers, and of the other spaces by signed offset. */
  datatype Machine = Machine(reg: nat -> Byte, mem: (Space, int) -> Byte)

  /** The bytes a varnode holds. */
  function Operand(m: Machine, vn: Varnode): (r: seq<Byte>)
    ensures |r| == vn.size
  {
    BytesOfLength(vn.offset, vn.size);
    if vn.space == CONST then BytesOf(vn.offset, vn.size)
    else if vn.space == REGISTER then seq<Byte>(vn.size, i requires 0 <= i < vn.size => m.reg(vn.offset + i))
    else seq<Byte>(vn.size, i requires 0 <= i < vn.size => m.mem(vn.space, AsI64(vn.offset) + i))
  }

  /** P-code as lifted: outputs are registers or temporaries away from the ends of the offset
      space, and operand sizes are those of the op. */
  ghost predicate WellFormed(op: PcodeOp) {
    && SizesFit(op)
    && (forall i | 0 <= i < |op.inputs| && op.inputs[i].space == REGISTER :: op.inputs[i].offset + op.inputs[i].size <= TWO64)
    && (op.output.Some? ==>
          var out := op.output.value;
          || (out.space == REGISTER && out.offset + Registers.Max(out.size, 1) + 8 <= U64_MAX)
          || (out.space == UNIQUE && out.offset < TWO64 && AsI64(out.offset) + Temporaries.Wide(out.size) <= Temporaries.I64_MAX))
  }

  /** The registers and temporaries are as before but for those of `out`. */
  ghost predicate SameBut(m: Machine, m': Machine, out: Option<Varnode>) {
    && (forall o: nat :: !(out.Some? && out.value.space == REGISTER && out.value.offset <= o < out.value.offset + out.value.size) ==> m'.reg(o) == m.reg(o))
    && (forall o: int :: !(out.Some? && out.value.space == UNIQUE && AsI64(out.value.offset) <= o < AsI64(out.value.offset) + out.value.size) ==> m'.mem(UNIQUE, o) == m.mem(UNIQUE, o))
  }

  /** What an op may do: an opaque one anything, the others change their output only, to
      what is written when the op is modelled. */
  ghost predicate OpStep(op: PcodeOp, m: Machine, m': Machine) {
    && WellFormed(op)
    && (IsUnmodeled(op) ||
        (SameBut(m, m', op.output)
         && (op.output.Some? && IsModelled(op.opcode) ==> Operand(m', op.output.value) == Written(op, vn => Operand(m, vn)))))
  }

  /** A call may change anything but the temporaries. */
  ghost predicate CallStep(m: Machine, m': Machine) {
    forall o: int :: m'.mem(UNIQUE, o) == m.mem(UNIQUE, o)
  }

  // ---- what the constants say of a machine

  ghost predicate Bases(r: Registers.Regs) {
    forall b | b in r :: b % 8 == 0
  }

  ghost predicate DescribesRegs(r: Registers.Regs, reg: nat -> Byte) {
    Bases(r) && forall o: nat :: DescribesByte(r, o, reg)
  }

  ghost predicate DescribesByte(r: Registers.Regs, o: nat, reg: nat -> Byte) {
    var c := Registers.At(r, o);
    c.Some? ==> reg(o) == c.value
  }

  ghost predicate InTemporaries(t: Temporaries.Temps) {
    forall k | k in t :: k.0 == UNIQUE && Temporaries.I64_MIN <= k.1 && k.1 + t[k].0 <= Temporaries.I64_MAX
  }

  /** Every byte known is so. */
  ghost predicate Describes(s: Consts, m: Machine) {
    DescribesRegs(s.regs, m.reg) && InTemporaries(s.temps) && Temporaries.Describes(s.temps, m.mem)
  }

  ghost function ConstMeaning(): Meaning<Consts, Machine> {
    Meaning((s, m) => Describes(s, m), (op, m, m') => OpStep(op, m, m'), (m, m') => CallStep(m, m'))
  }

  lemma JoinDescribes(a: Consts, b: Consts, m: Machine)
    requires Describes(a, m) || Describes(b, m)
    ensures Describes(JoinConsts(a, b), m)
  {
    Temporaries.JoinDescribes(a.temps, b.temps, m.mem);
    forall o: nat ensures DescribesByte(Registers.Join(a.regs, b.regs), o, m.reg) {
      Registers.JoinAt(a.regs, b.regs, o);
      assert Describes(a, m) ==> DescribesByte(a.regs, o, m.reg);
      assert Describes(b, m) ==> DescribesByte(b.regs, o, m.reg);
    }
  }

  lemma ReadAgrees(s: Consts, m: Machine, vn: Varnode)
    requires Describes(s, m) && (vn.space == REGISTER ==> vn.offset + vn.size <= TWO64)
    ensures Agrees(ReadVar(s, vn), Operand(m, vn))
  {
    if vn.space == CONST {
      if 0 < vn.size <= 8 {
        BytesOfPrefix(vn.offset, 8, vn.size);
        assert forall i | 0 <= i < vn.size :: BytesOf(vn.offset, 8)[i] == BytesOf(vn.offset, 8)[..vn.size][i];
      }
    } else if vn.space == REGISTER {
      var v := ReadVar(s, vn);
      forall i: nat | i < 8 && v[i].Some? ensures i < vn.size && Operand(m, vn)[i] == v[i].value {
        Registers.ReadAt(s.regs, vn.offset, vn.size, i);
        assert DescribesByte(s.regs, vn.offset + i, m.reg);
      }
    } else {
      var v := ReadVar(s, vn);
      forall i | 0 <= i < 8 && v[i].Some? ensures i < vn.size && Operand(m, vn)[i] == v[i].value {
        Temporaries.ReadDescribes(s.temps, vn.space, AsI64(vn.offset), vn.size, m.mem, i);
      }
    }
  }

  /** What `apply` knows of the output is what the op writes. */
  lemma OutputAgrees(s: Consts, op: PcodeOp, m: Machine, m': Machine)
    requires Describes(s, m) && WellFormed(op) && op.output.Some?
    requires IsModelled(op.opcode) ==> Operand(m', op.output.value) == Written(op, vn => Operand(m, vn))
    ensures Agrees(Output(s, op), Operand(m', op.output.value))
  {
    var read, bytes := (vn: Varnode) => ReadVar(s, vn), (vn: Varnode) => Operand(m, vn);
    if op.opcode != Load && Eval(op, read).Some? {
      forall i | 0 <= i < |op.inputs| ensures ReadsOne(op.inputs[i], read, bytes) {
        ReadAgrees(s, m, op.inputs[i]);
      }
      EvalIsSound(op, read, bytes);
    }
  }

  lemma WriteRegDescribes(r: Registers.Regs, offset: nat, size: nat, v: ByteConst, reg: nat -> Byte, reg': nat -> Byte)
    requires DescribesRegs(r, reg) && offset + Registers.Max(size, 1) + 8 <= U64_MAX
    requires forall i | 0 <= i < 8 && v[i].Some? :: i < size && reg'(offset + i) == v[i].value
    requires forall o: nat :: !(offset <= o < offset + size) ==> reg'(o) == reg(o)
    ensures DescribesRegs(Registers.Write(r, offset, size, v), reg')
  {
    var w := Registers.Write(r, offset, size, v);
    WriteBases(r, offset, size, v);
    forall o: nat ensures DescribesByte(w, o, reg') {
      Registers.WriteAt(r, offset, size, v, o);
      assert DescribesByte(r, o, reg);
    }
  }

  lemma WriteBases(r: Registers.Regs, offset: nat, size: nat, v: ByteConst)
    requires Bases(r)
    ensures Bases(Registers.Write(r, offset, size, v))
  {
  }

  lemma WriteDescribes(s: Consts, op: PcodeOp, m: Machine, m': Machine, v: ByteConst)
    requires Describes(s, m) && WellFormed(op) && op.output.Some? && SameBut(m, m', op.output)
    requires Agrees(v, Operand(m', op.output.value))
    ensures Describes(WriteVar(s, op.output.value, v), m')
  {
    var out := op.output.value;
    if out.space == REGISTER {
      assert forall i | 0 <= i < 8 && v[i].Some? :: i < out.size && m'.reg(out.offset + i) == v[i].value;
      WriteRegDescribes(s.regs, out.offset, out.size, v, m.reg, m'.reg);
      SameTemps(s.temps, m.mem, m'.mem);
    } else {
      var o := AsI64(out.offset);
      assert forall i | 0 <= i < 8 && v[i].Some? :: i < out.size && m'.mem(UNIQUE, o + i) == v[i].value;
      Temporaries.NeverStale(s.temps, UNIQUE, o, out.size, v, m.mem, m'.mem);
      SameRegs(s.regs, m.reg, m'.reg);
    }
  }

  lemma SameTemps(t: Temporaries.Temps, mem: (Space, int) -> Byte, mem': (Space, int) -> Byte)
    requires InTemporaries(t) && Temporaries.Describes(t, mem) && forall o: int :: mem'(UNIQUE, o) == mem(UNIQUE, o)
    ensures Temporaries.Describes(t, mem')
  {
    forall k | k in t ensures Temporaries.DescribesEntry(k, t[k], mem') {
      assert Temporaries.DescribesEntry(k, t[k], mem);
    }
  }

  lemma SameRegs(r: Registers.Regs, reg: nat -> Byte, reg': nat -> Byte)
    requires DescribesRegs(r, reg) && forall o: nat :: reg'(o) == reg(o)
    ensures DescribesRegs(r, reg')
  {
    forall o: nat ensures DescribesByte(r, o, reg') {
      assert DescribesByte(r, o, reg);
    }
  }

  /** A view refresh changes no byte of the registers or of the temporaries. */
  lemma ViewRefreshIsNoOp(op: PcodeOp, m: Machine, m': Machine)
    requires IsViewRefresh(op) && OpStep(op, m, m')
    ensures forall o: nat :: m'.reg(o) == m.reg(o)
    ensures forall o: int :: m'.mem(UNIQUE, o) == m.mem(UNIQUE, o)
  {
    var out, src, k := op.output.value, op.inputs[0], op.inputs[1].offset;
    forall o: nat ensures m'.reg(o) == m.reg(o) {
      if out.offset <= o < out.offset + out.size {
        var i := o - out.offset;
        assert m'.reg(o) == Operand(m', out)[i];
        assert Written(op, vn => Operand(m, vn))[i] == Operand(m, src)[k + i];
        assert out.offset == src.offset + k;
      }
    }
  }

  /** Each op keeps what is known so. */
  lemma ApplyDescribes(s: Consts, op: PcodeOp, m: Machine, m': Machine)
    requires Describes(s, m) && OpStep(op, m, m')
    ensures Describes(ApplyOp(s, op), m')
  {
    if !IsUnmodeled(op) {
      if op.output.None? {
        SameTemps(s.temps, m.mem, m'.mem);
        SameRegs(s.regs, m.reg, m'.reg);
      } else if IsViewRefresh(op) {
        ViewRefreshIsNoOp(op, m, m');
        SameTemps(s.temps, m.mem, m'.mem);
        SameRegs(s.regs, m.reg, m'.reg);
      } else {
        OutputAgrees(s, op, m, m');
        WriteDescribes(s, op, m, m', Output(s, op));
      }
    }
  }

  /** The number in the eight bytes of the register at `base`. */
  ghost function Register(m: Machine, base: nat): nat {
    Value(Operand(m, Varnode(REGISTER, base, 8)))
  }

  /** A full value is what the register holds. */
  lemma FullValueHolds(s: Consts, m: Machine, base: nat)
    requires Describes(s, m) && base in FullValues(s)
    ensures FullValues(s)[base] == Register(m, base)
  {
    var bs := Operand(m, Varnode(REGISTER, base, 8));
    assert base % 8 == 0;
    forall i: nat | i < 8 ensures bs[i] == LowBytes(s.regs[base], 8)[i] {
      Registers.BytesOfRegister(base + i, base);
      assert DescribesByte(s.regs, base + i, m.reg);
    }
    assert bs == LowBytes(s.regs[base], 8);
  }

  /** The constants are a sound domain of the flow. */
  lemma ConstFlowIsSound()
    ensures SoundFlow(ConstFlow(), ConstMeaning())
  {
    var f, cm := ConstFlow(), ConstMeaning();
    forall a, b, c | cm.describes(a, c) || cm.describes(b, c) ensures cm.describes(f.join(a, b), c) {
      JoinDescribes(a, b, c);
    }
    forall s, op, c, c' | cm.describes(s, c) && cm.opStep(op, c, c') ensures cm.describes(f.apply(s, op), c') {
      ApplyDescribes(s, op, c, c');
    }
    forall s, c, c' | cm.describes(s, c) && cm.callStep(c, c') ensures cm.describes(f.afterCall(s), c') {
      SameTemps(s.temps, c.mem, c'.mem);
    }
  }
}
