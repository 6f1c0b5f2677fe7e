/**
 A function of the program as the analyses are given it.
 */
module Functions {
  import opened Pcode

  /** Its entry, its lift (empty when it does not lift), the addresses it is entered at from
      outside the lift, its extent and the addresses it owns. */
  datatype Function = Function(entry: nat, lift: seq<Insn>, external: seq<nat>, inBody: nat -> bool, owns: nat -> bool)
}
