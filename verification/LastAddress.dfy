/**
 A lift that wraps around the address space with an instruction at its last address. The walk
 keyed by address ends its last block before that instruction, and never sees the jump that
 leads from behind it back to a call: the value merged at the call is not in its register.
 */
module LastAddress {
  import opened Numbers
  import opened Pcode
  import opened Functions
  import opened SortedNats
  import opened EdgeList
  import opened ByteConst
  import Registers
  import opened CfgConst
  import opened BlockFlow
  import opened BlockFlowRun
  import opened BlockFlowSound
  import opened BlockFlowBuild
  import opened BlockFlowMarks
  import opened BlockFlowLegacy
  import opened BlockFlowKeyed
  import opened BlockFlowKeyedLoop
  import opened BlockFlowWrap
  import opened BlockFlowEntries
  import opened CallConstants

  const ENTRY: nat := 0xffff_ffff_ffff_fff0
  const AT_CALL: nat := 0xffff_ffff_ffff_fffa

  const RAX := Varnode(REGISTER, 0, 8)
  const SET := PcodeOp(Copy, Some(RAX), [Varnode(CONST, 1, 8)])
  const LOAD := PcodeOp(Load, Some(RAX), [])
  const CALL := PcodeOp(Call, None, [])
  const BACK := PcodeOp(Branch, None, [Varnode(RAM, AT_CALL, 8)])

  /** A register is set to 1 and a call made; past the end of the address space, the register
      loaded at its last address, a jump goes back to the call. */
  const LIFT: seq<Insn> :=
    [Insn(ENTRY, [SET]), Insn(AT_CALL, [CALL]), Insn(U64_MAX, [LOAD]),
     Insn(0, []), Insn(1, []), Insn(2, []), Insn(3, []), Insn(4, [BACK])]

  predicate Nowhere(a: nat) { false }

  predicate FromEntry(a: nat) { a >= ENTRY }

  /** The function of the lift. The jump back is from code of the lift: nothing enters it from
      outside. */
  function Sample(): Function {
    Function(ENTRY, LIFT, [], Nowhere, FromEntry)
  }

  /** Each instruction follows the one before. */
  lemma LiftIsChain()
    ensures IsChain(LIFT, [10, 5, 1, 1, 1, 1, 1, 5])
  {
    var lengths: seq<nat>, lift := [10, 5, 1, 1, 1, 1, 1, 5], LIFT;
    assert Sum(lengths, 1) == 10 && Sum(lengths, 2) == 15 && Sum(lengths, 3) == 16 && Sum(lengths, 4) == 17;
    assert Sum(lengths, 5) == 18 && Sum(lengths, 6) == 19 && Sum(lengths, 7) == 20;
    forall i | 0 <= i < |lift| - 1 ensures Follows(lift, lengths, i) {
    }
  }

  lemma LiftWraps()
    ensures WrapsAt(LIFT, 3) && !Increasing(LIFT)
  {
    var lift := LIFT;
    assert lift[0].address > lift[3].address;
  }

  // ---- its blocks

  lemma TargetsOfOps()
    ensures Targets([SET]) == [] && Targets([CALL]) == [] && Targets([LOAD]) == [] && Targets([BACK]) == [AT_CALL]
  {
    assert [SET][..0] == [] && [CALL][..0] == [] && [LOAD][..0] == [] && [BACK][..0] == [];
  }

  lemma TargetsOfLift(lift: seq<Insn>)
    requires lift == LIFT
    ensures TargetsIn(lift, 0, 8) == [AT_CALL]
  {
    TargetsOfOps();
    assert TargetsIn(lift, 0, 0) == [];
    assert TargetsIn(lift, 0, 1) == TargetsIn(lift, 0, 0) + Targets(lift[0].ops) == [];
    assert TargetsIn(lift, 0, 2) == TargetsIn(lift, 0, 1) + Targets(lift[1].ops) == [];
    assert TargetsIn(lift, 0, 3) == TargetsIn(lift, 0, 2) + Targets(lift[2].ops) == [];
    assert TargetsIn(lift, 0, 4) == TargetsIn(lift, 0, 3) + Targets(lift[3].ops) == [];
    assert TargetsIn(lift, 0, 5) == TargetsIn(lift, 0, 4) + Targets(lift[4].ops) == [];
    assert TargetsIn(lift, 0, 6) == TargetsIn(lift, 0, 5) + Targets(lift[5].ops) == [];
    assert TargetsIn(lift, 0, 7) == TargetsIn(lift, 0, 6) + Targets(lift[6].ops) == [];
    assert TargetsIn(lift, 0, 8) == TargetsIn(lift, 0, 7) + Targets(lift[7].ops) == [AT_CALL];
  }

  /** Only the last instruction ends a block. */
  lemma NoneEnds(lift: seq<Insn>, i: nat)
    requires lift == LIFT && i < 7
    ensures !EndsBlock(lift[i])
  {
  }

  lemma StartsOfLift(lift: seq<Insn>, a: nat)
    requires lift == LIFT
    ensures a in StartAddrs(lift, {}) <==> a in [ENTRY, AT_CALL]
  {
    TargetsOfLift(lift);
    assert IsStart(lift, {}, 0) && IsStart(lift, {}, 1);
    forall i | 0 <= i < 8 && IsStart(lift, {}, i) ensures lift[i].address in [ENTRY, AT_CALL] {
      if i > 0 { NoneEnds(lift, i - 1); }
    }
  }

  lemma StartOfBlock(cfg: Cfg, lift: seq<Insn>, b: nat, i: nat, end: nat, limit: nat)
    requires BlockKeyed(cfg, lift, b) && limit == Limit(cfg.startAddr, b) && IsLastAt(lift, cfg.startAddr[b], i)
    requires i <= end <= |lift| && (forall j | i <= j < end :: lift[j].address < limit) && (end < |lift| ==> lift[end].address >= limit)
    ensures cfg.start[b] == i && cfg.ends[b] == end
  {
    LastIsOne(lift, cfg.startAddr[b], cfg.start[b], i);
    UptoIs(lift, i, limit, end);
  }

  lemma AddressesOfLift(cfg: Cfg, lift: seq<Insn>)
    requires lift == LIFT && IsKeyed(cfg, lift, {}, Nowhere)
    ensures cfg.startAddr == [ENTRY, AT_CALL] && cfg.entry == 0
  {
    forall a: nat ensures a in cfg.startAddr <==> a in [ENTRY, AT_CALL] {
      StartsOfLift(lift, a);
    }
    SameAscending(cfg.startAddr, [ENTRY, AT_CALL]);
  }

  lemma BlockOfLift(cfg: Cfg, lift: seq<Insn>, b: nat)
    requires lift == LIFT && cfg.startAddr == [ENTRY, AT_CALL] && b < 2 && BlockKeyed(cfg, lift, b)
    ensures cfg.start[b] == b && cfg.ends[b] == b + 1
  {
    StartOfBlock(cfg, lift, b, b, b + 1, [AT_CALL, U64_MAX][b]);
  }

  /** The call's block ends before the instruction at the last address. */
  lemma BlocksOfLift(cfg: Cfg, lift: seq<Insn>)
    requires lift == LIFT && IsKeyed(cfg, lift, {}, Nowhere)
    ensures cfg.startAddr == [ENTRY, AT_CALL] && cfg.start == [0, 1] && cfg.ends == [1, 2]
    ensures cfg.entry == 0 && cfg.unknown == [false, false]
  {
    AddressesOfLift(cfg, lift);
    forall b | 0 <= b < 2 ensures cfg.start[b] == b && cfg.ends[b] == b + 1 && !cfg.unknown[b] {
      BlockOfLift(cfg, lift, b);
      assert cfg.unknown[b] == KeyedUnknown(cfg, {}, Nowhere, b);
    }
  }

  // ---- its states

  const KNOWN := Consts(map[0 := Konst(1, 8)], map[])

  lemma OneIsKnown()
    ensures Get(Konst(1, 8), 8) == Some(1) && Trunc(Konst(1, 8), 8) == Konst(1, 8) && !IsUnknown(Konst(1, 8))
  {
    BytesOfLength(1, 8);
    assert LowBytes(Konst(1, 8), 8) == BytesOf(1, 8);
    var z := BytesOf(0, 7);
    assert BytesOf(1, 8) == [1] + z;
    assert Value([1] + z) == 1 + 256 * Value(z) by { assert ([1] + z)[1..] == z; }
    ZerosAreZero(7);
  }

  lemma {:induction false} ZerosAreZero(n: nat)
    ensures Value(BytesOf(0, n)) == 0
  {
    if n > 0 {
      ZerosAreZero(n - 1);
      assert BytesOf(0, n)[1..] == BytesOf(0, n - 1);
    }
  }

  lemma SetState()
    ensures ApplyOp(NOTHING, SET) == KNOWN
  {
    OneIsKnown();
    var read := (vn: Varnode) => ReadVar(NOTHING, vn);
    assert read(Varnode(CONST, 1, 8)) == Konst(1, 8);
    assert Eval(SET, vn => ReadVar(NOTHING, vn)) == Some(Konst(1, 8));
    assert Registers.Write(map[], 0, 8, Konst(1, 8)) == map[0 := Konst(1, 8)] by {
      assert Merge(UNKNOWN, 0, 8, Konst(1, 8)) == Konst(1, 8);
    }
  }

  lemma ValuesOfKnown()
    ensures FullValues(KNOWN) == map[0 := 1]
  {
    OneIsKnown();
  }

  // ---- its walk

  ghost predicate IsSample(p: ConstProblem) {
    p.flow == ConstFlow() && p.insns == LIFT && p.want == Always && IsKeyed(p.cfg, LIFT, {}, Nowhere)
  }

  lemma OneOp(p: ConstProblem, i: nat, w: Walk<Consts, Values>)
    requires i < |p.insns| && |p.insns[i].ops| == 1
    ensures WalkOps(p, i, 1, w) == WalkOp(p, i, p.insns[i].ops[0], w)
  {
    assert WalkOps(p, i, 0, w) == w;
  }

  lemma OneInsn(p: ConstProblem, i: nat, w: Walk<Consts, Values>)
    requires i < |p.insns| && |p.insns[i].ops| == 1 && w.falls
    ensures WalkInsns(p, i, i + 1, w) == WalkOp(p, i, p.insns[i].ops[0], w)
  {
    assert WalkInsns(p, i, i, w) == w;
    WholeInsn(p, i, i, w);
    OneOp(p, i, w);
  }

  lemma EntryWalk(p: ConstProblem)
    requires IsSample(p) && p.Valid()
    ensures p.Count() == 2 && WalkBlock(p, 0, NOTHING).out == [(1, KNOWN)] && WalkBlock(p, 0, NOTHING).snaps == []
  {
    BlocksOfLift(p.cfg, LIFT);
    var w0: Walk<Consts, Values> := Walk(NOTHING, [], [], true);
    OneInsn(p, 0, w0);
    SetState();
    assert WalkInsns(p, 0, 1, w0) == w0.(st := KNOWN);
    FirstEdge(p.flow, KNOWN);
  }

  lemma FirstEdge(f: Flow<Consts, Values>, s: Consts)
    ensures AddEdge(f, [], 1, s) == [(1, s)]
  {
    assert Place<Consts>([], 1) == 0;
  }

  lemma CallWalk(p: ConstProblem)
    requires IsSample(p) && p.Valid()
    ensures p.Count() == 2 && WalkBlock(p, 1, KNOWN).out == [] && WalkBlock(p, 1, KNOWN).snaps == [(AT_CALL, map[0 := 1])]
  {
    BlocksOfLift(p.cfg, LIFT);
    var w0: Walk<Consts, Values> := Walk(KNOWN, [], [], true);
    OneInsn(p, 1, w0);
    ValuesOfKnown();
  }

  // ---- its run

  lemma StartState(p: ConstProblem)
    requires IsSample(p) && p.Valid()
    ensures p.Count() == 2 && Initial(p).work == [0] && Initial(p).snaps == []
    ensures forall b | 0 <= b < 2 :: Initial(p).into[b] == [] && !Initial(p).saturated[b] && Initial(p).visits[b] == 0
  {
    BlocksOfLift(p.cfg, LIFT);
    RootsAre(p, 2);
    assert Others(p, 0) == [] && Others(p, 1) == [];
  }

  /** The entry's edge put on the call's block. */
  lemma EntryDelivers(p: ConstProblem, q: State<Consts, Values>)
    requires IsSample(p) && Shaped(p, q) && p.Count() == 2 && q.work == [] && q.into[1] == []
    ensures var r := Deliver(p, 0, [(1, KNOWN)], 0, q);
      r == q.(into := q.into[1 := [(0, KNOWN)]], work := [1])
  {
    var out, es := [(1, KNOWN)], q.into[1];
    assert Place(es, 0) == 0;
    assert Put(es, 0, KNOWN) == [(0, KNOWN)];
    DeliverNext(p, 0, out, 0, q);
    assert q.work + [1] == [1];
  }

  lemma EntryEmits(p: ConstProblem, q: State<Consts, Values>)
    requires IsSample(p) && Shaped(p, q) && p.Count() == 2 && q.work == [] && q.into[1] == [] && q.snaps == []
    ensures Emit(p, 0, NOTHING, q) == q.(into := q.into[1 := [(0, KNOWN)]], work := [1])
  {
    EntryWalk(p);
    EntryDelivers(p, q);
    assert q.(snaps := q.snaps + []) == q;
  }

  lemma FirstStep(p: ConstProblem, st: State<Consts, Values>)
    requires IsSample(p) && p.Valid() && st == Initial(p)
    ensures st.work != [] && p.Count() == 2
    ensures var r := Step(p, st);
      r.work == [1] && r.snaps == [] && r.into[1] == [(0, KNOWN)] && r.visits[1] == 0 && !r.saturated[1]
  {
    StartState(p);
    EntryRooted(p);
    InitialInv(p);
    StepIsEmit(p, st);
    EntryEmits(p, Popped(p, st));
  }

  lemma EntryRooted(p: ConstProblem)
    requires IsSample(p) && p.Valid()
    ensures p.Count() == 2 && p.Rooted(0)
  {
    BlocksOfLift(p.cfg, LIFT);
  }

  lemma SecondStep(p: ConstProblem, st: State<Consts, Values>)
    requires IsSample(p) && Shaped(p, st) && p.Count() == 2
    requires st.work == [1] && st.snaps == [] && st.into[1] == [(0, KNOWN)] && st.visits[1] == 0 && !st.saturated[1]
    ensures Step(p, st).work == [] && Step(p, st).snaps == [(AT_CALL, map[0 := 1])]
  {
    CallWalk(p);
    BlocksOfLift(p.cfg, LIFT);
    assert JoinAll(p.flow, st.into[1]) == KNOWN;
    assert st.work[1..] == [];
  }

  lemma RunOfLift(p: ConstProblem)
    requires IsSample(p)
    ensures p.Valid() && Inv(p, Initial(p)) && Run(p, Initial(p)).snaps == [(AT_CALL, map[0 := 1])]
  {
    KeyedIsValid(p, {}, Nowhere);
    InitialInv(p);
    var st := Initial(p);
    FirstStep(p, st);
    StepKeeps(p, st);
    StepDecreases(p, st);
    var next := Step(p, st);
    SecondStep(p, next);
    StepKeeps(p, next);
    StepDecreases(p, next);
    assert Run(p, Step(p, next)) == Step(p, next);
    assert Run(p, next) == Run(p, Step(p, next));
    assert Run(p, st) == Run(p, next);
  }

  lemma MergedOfLift(snaps: Snaps)
    requires snaps == [(AT_CALL, map[0 := 1])]
    ensures Merged(map[], Retained(snaps, FromEntry)) == map[AT_CALL := map[0 := 1]]
  {
    assert snaps[..0] == [];
    assert Retained(snaps[..0], FromEntry) == [];
    assert Retained(snaps, FromEntry) == [] + [snaps[0]] == snaps;
    assert Merged(map[], snaps[..0]) == map[];
  }

  // ---- a run that contradicts it

  function Machines(v: Byte): Machine {
    Machine(o => if o == 0 then v else 0, (s, o) => 0)
  }

  /** The load brings 7. */
  function Trace(): seq<Point<Machine>> {
    [Point(0, 0, Machines(1)), Point(0, 1, Machines(1)), Point(1, 0, Machines(1)), Point(1, 1, Machines(1)),
     Point(2, 0, Machines(1)), Point(2, 1, Machines(7)), Point(3, 0, Machines(7)), Point(4, 0, Machines(7)),
     Point(5, 0, Machines(7)), Point(6, 0, Machines(7)), Point(7, 0, Machines(7)), Point(1, 0, Machines(7))]
  }

  lemma SetSteps()
    ensures OpStep(SET, Machines(1), Machines(1))
  {
    var m := Machines(1);
    OneBytes(m);
    assert Written(SET, vn => Operand(m, vn)) == Operand(m, Varnode(CONST, 1, 8));
  }

  lemma OneBytes(m: Machine)
    requires m == Machines(1)
    ensures Operand(m, RAX) == Operand(m, Varnode(CONST, 1, 8))
  {
    BytesOfLength(1, 8);
    var z := BytesOf(0, 7);
    assert BytesOf(1, 8) == [1] + z;
    forall i | 0 <= i < 8 ensures Operand(m, RAX)[i] == BytesOf(1, 8)[i] {
      if i > 0 { ZeroByte(7, i - 1); }
    }
  }

  lemma {:induction false} ZeroByte(n: nat, i: nat)
    requires i < n
    ensures |BytesOf(0, n)| == n && BytesOf(0, n)[i] == 0
  {
    BytesOfLength(0, n);
    BytesOfLength(0, n - 1);
    if i > 0 { ZeroByte(n - 1, i - 1); }
  }

  lemma LoadSteps()
    ensures OpStep(LOAD, Machines(1), Machines(7))
  {
  }

  lemma TraceStarts(lift: seq<Insn>, j: nat)
    requires lift == LIFT && j < 5
    ensures Steps(lift, ConstMeaning(), Trace()[j], Trace()[j + 1])
  {
    SetSteps();
    LoadSteps();
  }

  lemma TraceEnds(lift: seq<Insn>, j: nat)
    requires lift == LIFT && 5 <= j < 11
    ensures Steps(lift, ConstMeaning(), Trace()[j], Trace()[j + 1])
  {
  }

  lemma TraceIsRun()
    ensures IsRunOf(Sample(), Trace()) && Register(Trace()[11].c, 0) != 1
  {
    var run, lift := Trace(), LIFT;
    forall j | 0 <= j < 11 ensures Steps(lift, ConstMeaning(), run[j], run[j + 1]) {
      if j < 5 { TraceStarts(lift, j); } else { TraceEnds(lift, j); }
    }
    var bs := Operand(Machines(7), Varnode(REGISTER, 0, 8));
    assert bs[0] == 7 && Value(bs) == 7 + 256 * Value(bs[1..]);
  }

  /** A run reaches the owned call, and what is merged there does not hold. */
  ghost predicate Misled(out: AtCalls) {
    ReachesCall(Sample(), Trace(), 11) && !HoldsAt(out, AT_CALL, 0, Trace()[11].c)
  }

  lemma FlowIsSample(p: ConstProblem)
    requires IsFlow(Sample(), p)
    ensures IsSample(p)
  {
    LiftWraps();
    assert ToSet([]) == {};
  }

  lemma Misleads(p: ConstProblem, out: AtCalls)
    requires IsMerged(Sample(), p, map[], out)
    ensures out == map[AT_CALL := map[0 := 1]] && Misled(out)
  {
    FlowIsSample(p);
    RunOfLift(p);
    MergedOfLift(Run(p, Initial(p)).snaps);
    TraceMisleads(out);
  }

  lemma TraceMisleads(out: AtCalls)
    requires out == map[AT_CALL := map[0 := 1]]
    ensures Misled(out)
  {
    TraceIsRun();
    assert Trace()[11] == Point(1, 0, Machines(7)) && LIFT[1].ops == [CALL];
  }

  lemma SampleIsFunction()
    ensures IsFunction(Sample())
  {
  }

  /** The constants found for the lift, a chain of eight instructions: the value 1 for a register
      that a run reaches the call with another value in. */
  method LastAddressConstants() returns (out: AtCalls)
    ensures IsFunction(Sample()) && IsChain(LIFT, [10, 5, 1, 1, 1, 1, 1, 5]) && WrapsAt(LIFT, 3)
    ensures out == map[AT_CALL := map[0 := 1]]
    ensures Misled(out)
  {
    LiftIsChain();
    LiftWraps();
    SampleIsFunction();
    out := FunctionConstants(map[], Sample());
    ghost var p: ConstProblem :| IsMerged(Sample(), p, map[], out);
    Misleads(p, out);
  }
}
