/**
 The lifted P-code the analyses read: varnodes, ops and instructions.
 */
module Pcode {

  datatype Option<+T> = None | Some(value: T)

  /** Address spaces, ordered by number. */
  type Space = nat

  const CONST: Space := 0
  const RAM: Space := 1
  const REGISTER: Space := 2
  const UNIQUE: Space := 3

  datatype Varnode = Varnode(space: Space, offset: nat, size: nat)

  /** The op codes the analyses tell apart; the rest by number. */
  datatype OpCode =
    | Copy | Load | Store
    | Branch | CBranch | BranchInd | Return
    | Call | CallInd | CallOther
    | IntZExt | IntSExt | Piece | Subpiece
    | IntAdd | IntSub | IntAnd | IntOr | IntXor | IntMult
    | IntLeft | IntRight | Int2Comp | IntNegate
    | Other(code: nat)

  datatype PcodeOp = PcodeOp(opcode: OpCode, output: Option<Varnode>, inputs: seq<Varnode>)

  datatype Insn = Insn(address: nat, ops: seq<PcodeOp>)

  /** Jump target of a `Branch` / `CBranch`: an address in the RAM space. */
  function Target(op: PcodeOp): Option<nat> {
    if op.inputs != [] && op.inputs[0].space == RAM then Some(op.inputs[0].offset) else None
  }

  predicate IsCall(op: PcodeOp) {
    op.opcode == Call || op.opcode == CallInd
  }

  predicate IsJump(op: PcodeOp) {
    op.opcode == Branch || op.opcode == CBranch
  }

  /** It leaves the instruction without falling through. */
  predicate IsStop(op: PcodeOp) {
    op.opcode == Branch || op.opcode == Return || op.opcode == BranchInd
  }
}
