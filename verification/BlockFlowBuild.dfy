/**
 The blocks of a lift: where they start, the static edges between them and which are entered
 from somewhere unknown.
 */
module BlockFlowBuild {
  import opened Pcode
  import opened EdgeList
  import opened BlockFlow
  import opened BlockFlowRun
  import opened BlockFlowSound
  import opened BlockFlowBound
  import opened BlockFlowRestrict

  /** The addresses strictly increase. */
  ghost predicate Increasing(lift: seq<Insn>) {
    forall i, j | 0 <= i < j < |lift| :: lift[i].address < lift[j].address
  }

  /** It has a jump or a return: it ends its block. */
  predicate EndsBlock(insn: Insn) {
    exists k | 0 <= k < |insn.ops| :: IsJump(insn.ops[k]) || IsStop(insn.ops[k])
  }

  /** It does not fall through. */
  predicate StopsFlow(insn: Insn) {
    exists k | 0 <= k < |insn.ops| :: IsStop(insn.ops[k])
  }

  /** The targets of its jumps, in op order. */
  function Targets(ops: seq<PcodeOp>): seq<nat> {
    if ops == [] then []
    else
      var op := ops[|ops| - 1];
      Targets(ops[..|ops| - 1]) + if IsJump(op) && Target(op).Some? then [Target(op).value] else []
  }

  /** The jump targets of the instructions `from..end`, in order. */
  function TargetsIn(lift: seq<Insn>, from: nat, end: nat): seq<nat>
    requires from <= end <= |lift|
  {
    if from == end then [] else TargetsIn(lift, from, end - 1) + Targets(lift[end - 1].ops)
  }

  /** A block starts at instruction `i`: the entry, an external entry, a jump target, or
      after an instruction that ends a block. */
  ghost predicate IsStart(lift: seq<Insn>, external: set<nat>, i: nat)
    requires i < |lift|
  {
    || i == 0
    || lift[i].address in external
    || lift[i].address in TargetsIn(lift, 0, |lift|)
    || EndsBlock(lift[i - 1])
  }

  ghost function Starts(lift: seq<Insn>, external: set<nat>, n: nat): seq<nat>
    requires n <= |lift|
  {
    if n == 0 then [] else Starts(lift, external, n - 1) + if IsStart(lift, external, n - 1) then [n - 1] else []
  }

  lemma {:induction false} StartsFacts(lift: seq<Insn>, external: set<nat>, n: nat)
    requires n <= |lift|
    ensures var s := Starts(lift, external, n);
      && (forall k | 0 <= k < |s| :: s[k] < n && IsStart(lift, external, s[k]))
      && (forall j, k | 0 <= j < k < |s| :: s[j] < s[k])
      && (forall i | 0 <= i < n && IsStart(lift, external, i) :: i in s)
      && (n > 0 ==> |s| > 0 && s[0] == 0)
  {
    if n > 0 { StartsFacts(lift, external, n - 1); }
  }

  lemma {:induction false} StartsPrefix(lift: seq<Insn>, external: set<nat>, m: nat, n: nat)
    requires m <= n <= |lift|
    ensures |Starts(lift, external, m)| <= |Starts(lift, external, n)|
    ensures Starts(lift, external, m) == Starts(lift, external, n)[..|Starts(lift, external, m)|]
    ensures forall k | |Starts(lift, external, m)| <= k < |Starts(lift, external, n)| :: m <= Starts(lift, external, n)[k]
    decreases n
  {
    if m < n { StartsPrefix(lift, external, m, n - 1); }
  }

  /** The end of block `b` of blocks starting at `start`, of a lift cut at `end`. */
  function EndOf(start: seq<nat>, end: nat, b: nat): nat
    requires b < |start|
  {
    if b + 1 < |start| then start[b + 1] else end
  }

  ghost predicate StartsOk(lift: seq<Insn>, start: seq<nat>, end: nat) {
    && end <= |lift|
    && (forall k | 0 <= k < |start| :: start[k] < end)
    && (forall j, k | 0 <= j < k < |start| :: start[j] < start[k])
  }

  function Addresses(lift: seq<Insn>, start: seq<nat>): (r: seq<nat>)
    requires forall k | 0 <= k < |start| :: start[k] < |lift|
    ensures |r| == |start|
  {
    seq(|start|, k requires 0 <= k < |start| => lift[start[k]].address)
  }

  /** The blocks the targets `ts` start (`None`: none). */
  function Resolve(startAddr: seq<nat>, ts: seq<nat>): (r: seq<Option<nat>>)
    ensures |r| == |ts|
  {
    seq(|ts|, k requires 0 <= k < |ts| => BlockOf(startAddr, ts[k]))
  }

  /** The blocks among `js`, in order. */
  function Somes(js: seq<Option<nat>>): seq<nat> {
    if js == [] then []
    else Somes(js[..|js| - 1]) + if js[|js| - 1].Some? then [js[|js| - 1].value] else []
  }

  function JumpsOf(lift: seq<Insn>, start: seq<nat>, end: nat, b: nat): seq<Option<nat>>
    requires StartsOk(lift, start, end) && b < |start|
  {
    Resolve(Addresses(lift, start), TargetsIn(lift, start[b], EndOf(start, end, b)))
  }

  function SuccsOf(lift: seq<Insn>, start: seq<nat>, end: nat, b: nat): seq<nat>
    requires StartsOk(lift, start, end) && b < |start|
  {
    Somes(JumpsOf(lift, start, end, b))
    + if b + 1 < |start| && !StopsFlow(lift[EndOf(start, end, b) - 1]) then [b + 1] else []
  }

  ghost predicate IsPath(succs: seq<seq<nat>>, path: seq<nat>) {
    && |path| > 0 && (forall k | 0 <= k < |path| :: path[k] < |succs|)
    && forall k | 0 <= k < |path| - 1 :: EdgeAt(succs, path, k)
  }

  ghost predicate EdgeAt(succs: seq<seq<nat>>, path: seq<nat>, k: nat) {
    k + 1 < |path| && path[k] < |succs| && path[k + 1] in succs[path[k]]
  }

  /** A path leads from block `a` to block `b`. */
  ghost predicate Leads(succs: seq<seq<nat>>, a: nat, b: nat) {
    exists path :: IsPath(succs, path) && path[0] == a && path[|path| - 1] == b
  }

  /** Block `b` is entered from somewhere unknown. */
  ghost predicate UnknownEntry(external: set<nat>, inBody: nat -> bool, startAddr: seq<nat>, succs: seq<seq<nat>>, b: nat)
    requires b < |startAddr|
  {
    b != 0 && (startAddr[b] in external || (!Leads(succs, 0, b) && inBody(startAddr[b])))
  }

  /** The blocks of the first `end` instructions. */
  ghost function CfgOf(lift: seq<Insn>, external: set<nat>, inBody: nat -> bool, end: nat): Cfg
    requires end <= |lift|
  {
    StartsFacts(lift, external, end);
    var start := Starts(lift, external, end);
    var n := |start|;
    var startAddr := Addresses(lift, start);
    var succs := seq(n, b requires 0 <= b < n => SuccsOf(lift, start, end, b));
    Cfg(start,
        startAddr,
        0,
        seq(n, b requires 0 <= b < n => UnknownEntry(external, inBody, startAddr, succs, b)),
        succs,
        seq(n, b requires 0 <= b < n => JumpsOf(lift, start, end, b)),
        None,
        false,
        [])
  }

  // ---- what the blocks give the flow

  lemma {:induction false} TargetsHold(ops: seq<PcodeOp>, k: nat)
    requires k < |ops| && IsJump(ops[k]) && Target(ops[k]).Some?
    ensures Target(ops[k]).value in Targets(ops)
  {
    if k < |ops| - 1 { TargetsHold(ops[..|ops| - 1], k); }
  }

  lemma {:induction false} TargetsInHold(lift: seq<Insn>, from: nat, end: nat, i: nat, t: nat)
    requires from <= i < end <= |lift| && t in Targets(lift[i].ops)
    ensures t in TargetsIn(lift, from, end)
    decreases end
  {
    if i < end - 1 { TargetsInHold(lift, from, end - 1, i, t); }
  }

  lemma {:induction false} SomesHold(js: seq<Option<nat>>, k: nat)
    requires k < |js| && js[k].Some?
    ensures js[k].value in Somes(js)
  {
    if k < |js| - 1 { SomesHold(js[..|js| - 1], k); }
  }

  lemma {:induction false} SomesOnly(js: seq<Option<nat>>, b: nat)
    requires b in Somes(js)
    ensures exists k :: 0 <= k < |js| && js[k] == Some(b)
  {
    var front := js[..|js| - 1];
    if b in Somes(front) {
      SomesOnly(front, b);
      var k :| 0 <= k < |front| && front[k] == Some(b);
      assert js[k] == Some(b);
    } else {
      assert js[|js| - 1] == Some(b);
    }
  }

  /** Only the last instruction of a block ends it. */
  lemma BlockInside(lift: seq<Insn>, external: set<nat>, end: nat, b: nat, i: nat)
    requires end <= |lift|
    requires var s := Starts(lift, external, end); b < |s| && s[b] <= i < EndOf(s, end, b) - 1 && i < end - 1
    ensures !EndsBlock(lift[i])
  {
    StartsFacts(lift, external, end);
    var s := Starts(lift, external, end);
    assert EndsBlock(lift[i]) ==> IsStart(lift, external, i + 1);
  }

  /** The problem of the flow over the first `end` instructions. */
  ghost function ProblemOf<S, T>(flow: Flow<S, T>, lift: seq<Insn>, external: set<nat>, inBody: nat -> bool, end: nat, want: nat -> bool): Problem<S, T>
    requires end <= |lift|
  {
    Problem(flow, lift[..end], CfgOf(lift, external, inBody, end), want)
  }

  lemma SuccsBelow(lift: seq<Insn>, start: seq<nat>, end: nat, b: nat, k: nat)
    requires StartsOk(lift, start, end) && b < |start| && k < |SuccsOf(lift, start, end, b)|
    ensures SuccsOf(lift, start, end, b)[k] < |start|
  {
    var js := JumpsOf(lift, start, end, b);
    if k < |Somes(js)| {
      SomesOnly(js, Somes(js)[k]);
    }
  }

  lemma BlocksAreValid<S, T>(p: Problem<S, T>, flow: Flow<S, T>, lift: seq<Insn>, external: set<nat>, inBody: nat -> bool, end: nat, want: nat -> bool)
    requires 0 < end <= |lift| && p == ProblemOf(flow, lift, external, inBody, end, want)
    ensures p.Valid()
  {
    StartsFacts(lift, external, end);
    var start := Starts(lift, external, end);
    forall b, k | 0 <= b < |start| && 0 <= k < |SuccsOf(lift, start, end, b)|
      ensures SuccsOf(lift, start, end, b)[k] < |start|
    {
      SuccsBelow(lift, start, end, b, k);
    }
  }

  lemma JumpIsLinked<S, T>(p: Problem<S, T>, flow: Flow<S, T>, lift: seq<Insn>, external: set<nat>, inBody: nat -> bool, end: nat, want: nat -> bool, b: nat, i: nat, k: nat)
    requires 0 < end <= |lift| && p == ProblemOf(flow, lift, external, inBody, end, want) && p.Valid()
    requires b < p.Count() && p.cfg.start[b] <= i < p.End(b) && i < end && k < |lift[i].ops|
    ensures JumpLinked(p, b, lift[i].ops[k])
  {
    StartsFacts(lift, external, end);
    var start := p.cfg.start;
    var op := lift[i].ops[k];
    if IsJump(op) && Target(op).Some? && BlockOf(p.cfg.startAddr, Target(op).value).Some? {
      var ts := TargetsIn(lift, start[b], EndOf(start, end, b));
      TargetsHold(lift[i].ops, k);
      TargetsInHold(lift, start[b], EndOf(start, end, b), i, Target(op).value);
      var l :| 0 <= l < |ts| && ts[l] == Target(op).value;
      SomesHold(JumpsOf(lift, start, end, b), l);
    }
  }

  /** The static successors hold every edge a walk can make. */
  lemma BlocksAreLinked<S, T>(p: Problem<S, T>, flow: Flow<S, T>, lift: seq<Insn>, external: set<nat>, inBody: nat -> bool, end: nat, want: nat -> bool)
    requires 0 < end <= |lift| && p == ProblemOf(flow, lift, external, inBody, end, want)
    ensures Linked(p)
  {
    BlocksAreValid(p, flow, lift, external, inBody, end, want);
    StartsFacts(lift, external, end);
    forall b, i, k | 0 <= b < p.Count() && p.cfg.start[b] <= i < p.End(b) && i < |p.insns| && 0 <= k < |p.insns[i].ops|
      ensures JumpLinked(p, b, p.insns[i].ops[k])
    {
      JumpIsLinked(p, flow, lift, external, inBody, end, want, b, i, k);
    }
    forall b | 0 <= b < p.Count() - 1 && !Stops(p, b) ensures b + 1 in p.cfg.succs[b] {
      FallIsLinked(p, flow, lift, external, inBody, end, want, b);
    }
  }

  lemma FallIsLinked<S, T>(p: Problem<S, T>, flow: Flow<S, T>, lift: seq<Insn>, external: set<nat>, inBody: nat -> bool, end: nat, want: nat -> bool, b: nat)
    requires 0 < end <= |lift| && p == ProblemOf(flow, lift, external, inBody, end, want) && p.Valid()
    requires b + 1 < p.Count() && !Stops(p, b)
    ensures b + 1 in p.cfg.succs[b]
  {
    StartsFacts(lift, external, end);
    BlockOrder(p, b);
    var last := p.End(b) - 1;
    assert p.insns[last] == lift[last];
    assert StopsFlow(lift[last]) ==> Stops(p, b);
    FallInSuccs(lift, p.cfg.start, end, b);
  }

  lemma FallInSuccs(lift: seq<Insn>, start: seq<nat>, end: nat, b: nat)
    requires StartsOk(lift, start, end) && b + 1 < |start| && start[b] < start[b + 1] && !StopsFlow(lift[EndOf(start, end, b) - 1])
    ensures b + 1 in SuccsOf(lift, start, end, b)
  {
    var ss := SuccsOf(lift, start, end, b);
    assert ss[|ss| - 1] == b + 1;
  }

  /** Every jump into the lift goes to the start of a block. */
  lemma TargetsAreStarts<S, T>(p: Problem<S, T>, flow: Flow<S, T>, lift: seq<Insn>, external: set<nat>, inBody: nat -> bool, want: nat -> bool)
    requires 0 < |lift| && p == ProblemOf(flow, lift, external, inBody, |lift|, want)
    ensures TargetsStartBlocks(p)
  {
    assert lift[..|lift|] == lift;
    StartsFacts(lift, external, |lift|);
    forall i, k, j | 0 <= i < |lift| && 0 <= k < |lift[i].ops| && 0 <= j < |lift|
        && IsJump(lift[i].ops[k]) && Target(lift[i].ops[k]) == Some(lift[j].address)
      ensures lift[j].address in p.cfg.startAddr
    {
      TargetsHold(lift[i].ops, k);
      TargetsInHold(lift, 0, |lift|, i, lift[j].address);
      assert IsStart(lift, external, j);
      var b :| 0 <= b < |p.cfg.start| && p.cfg.start[b] == j;
      assert p.cfg.startAddr[b] == lift[j].address;
    }
  }
}
