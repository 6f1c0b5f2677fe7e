/**
 The two ways the blocks are built, from a lift's shape or from the marks of its
 instructions (then of a prefix too), and how much of the lift the owned calls need: each is
 the blocks the flow is proved over.
 */
module BlockFlowMarks {
  import opened Pcode
  import opened SortedNats
  import opened ByteConst
  import opened BlockFlowFlags
  import opened BlockFlow
  import opened BlockFlowBuild
  import opened BlockFlowCut
  import opened BlockFlowMake

  // ---- the jumps of a lift by instruction

  /** The jumps of `from..end` follow those before, with the targets of those instructions. */
  lemma {:induction false} BranchSpan(lift: seq<Insn>, from: nat, end: nat)
    requires from <= end <= |lift|
    ensures var a, z, ts := Branches(lift, from), Branches(lift, end), TargetsIn(lift, from, end);
      && |z| == |a| + |ts| && z[..|a|] == a
      && forall j | 0 <= j < |ts| :: SpanAt(z, |a|, ts, from, end, j)
    decreases end
  {
    if from < end {
      BranchSpan(lift, from, end - 1);
      var a, y, z := Branches(lift, from), Branches(lift, end - 1), Branches(lift, end);
      var us, more := TargetsIn(lift, from, end - 1), Targets(lift[end - 1].ops);
      assert z == y + Pairs(end - 1, more) && TargetsIn(lift, from, end) == us + more;
      assert z[..|a|] == y[..|a|];
      forall j | 0 <= j < |us + more| ensures SpanAt(z, |a|, us + more, from, end, j) {
        assert j < |us| ==> SpanAt(y, |a|, us, from, end - 1, j);
      }
    }
  }

  /** Jump `n + j` of `z` has target `ts[j]` and is of an instruction of `from..end`. */
  ghost predicate SpanAt(z: seq<(nat, nat)>, n: nat, ts: seq<nat>, from: nat, end: nat, j: nat) {
    j < |ts| && n + j < |z| && z[n + j].1 == ts[j] && from <= z[n + j].0 < end
  }

  /** A jump is of one of the first `n` instructions when its place is among theirs. */
  lemma BranchPlace(lift: seq<Insn>, n: nat, k: nat)
    requires n <= |lift| && k < |Branches(lift, |lift|)|
    ensures k < |Branches(lift, n)| <==> Branches(lift, |lift|)[k].0 < n
    ensures Branches(lift, |lift|)[k].0 < |lift|
  {
    var z := Branches(lift, |lift|);
    BranchSpan(lift, n, |lift|);
    BranchSpan(lift, 0, n);
    var a, us, ts := Branches(lift, n), TargetsIn(lift, 0, n), TargetsIn(lift, n, |lift|);
    if k < |a| {
      assert z[k] == z[..|a|][k] == a[k];
      assert SpanAt(a, 0, us, 0, n, k);
    } else {
      assert SpanAt(z, |a|, ts, n, |lift|, k - |a|);
    }
  }

  ghost predicate HasTarget(ps: seq<(nat, nat)>, t: nat) {
    exists k :: 0 <= k < |ps| && ps[k].1 == t
  }

  /** The target of a jump is a target of the lift, and the other way round. */
  lemma BranchTargets(lift: seq<Insn>, t: nat)
    ensures t in TargetsIn(lift, 0, |lift|) <==> HasTarget(Branches(lift, |lift|), t)
  {
    BranchSpan(lift, 0, |lift|);
    var z, ts := Branches(lift, |lift|), TargetsIn(lift, 0, |lift|);
    if t in ts {
      var j :| 0 <= j < |ts| && ts[j] == t;
      assert SpanAt(z, 0, ts, 0, |lift|, j);
    }
    if k :| 0 <= k < |z| && z[k].1 == t {
      assert SpanAt(z, 0, ts, 0, |lift|, k);
    }
  }

  // ---- the static edges

  ghost predicate Blocks(lift: seq<Insn>, external: set<nat>, end: nat, start: seq<nat>) {
    && 0 < end <= |lift| && start == Starts(lift, external, end)
    && StartsOk(lift, start, end) && |start| > 0 && start[0] == 0
  }

  /** The block each of the first jumps goes to. */
  ghost predicate Resolved(lift: seq<Insn>, start: seq<nat>, end: nat, resolved: seq<Option<nat>>)
    requires StartsOk(lift, start, end)
  {
    && |resolved| == |Branches(lift, end)|
    && forall k | 0 <= k < |resolved| :: resolved[k] == BlockOf(Addresses(lift, start), Branches(lift, end)[k].1)
  }

  lemma BlockEnd(lift: seq<Insn>, start: seq<nat>, end: nat, b: nat)
    requires StartsOk(lift, start, end) && b < |start|
    ensures start[b] < EndOf(start, end, b) <= end
  {
  }

  /** The jumps of block `b` are those at `at` and after, up to the end of the block. */
  lemma BlockBranch(lift: seq<Insn>, start: seq<nat>, end: nat, resolved: seq<Option<nat>>, b: nat, k: nat)
    requires StartsOk(lift, start, end) && Resolved(lift, start, end, resolved) && b < |start|
    requires |Branches(lift, start[b])| <= k <= |Branches(lift, EndOf(start, end, b))|
    ensures var at, z, js := |Branches(lift, start[b])|, Branches(lift, EndOf(start, end, b)), JumpsOf(lift, start, end, b);
      && |js| == |z| - at && |z| <= |resolved| <= |Branches(lift, |lift|)|
      && (k < |z| ==> resolved[k] == js[k - at] && Branches(lift, |lift|)[k].0 < EndOf(start, end, b))
      && (k == |z| < |resolved| ==> Branches(lift, |lift|)[k].0 >= EndOf(start, end, b))
  {
    BlockEnd(lift, start, end, b);
    var stop := EndOf(start, end, b);
    BranchSpan(lift, start[b], stop);
    BranchSpan(lift, stop, end);
    BranchSpan(lift, end, |lift|);
    var at, z, ts := |Branches(lift, start[b])|, Branches(lift, stop), TargetsIn(lift, start[b], stop);
    if k < |Branches(lift, |lift|)| { BranchPlace(lift, stop, k); }
    if k < |z| {
      assert SpanAt(z, at, ts, start[b], stop, k - at);
      assert Branches(lift, end)[..|z|][k] == z[k];
    }
  }

  /** The jumps of block `b`, read from `at` on, and the blocks they go to. */
  method BlockJumps(shape: Shape, ghost lift: seq<Insn>, start: seq<nat>, end: nat, resolved: seq<Option<nat>>, b: nat, at: nat)
    returns (jumps: seq<Option<nat>>, succs: seq<nat>, after: nat)
    requires IsShape(shape, lift) && StartsOk(lift, start, end) && Resolved(lift, start, end, resolved)
    requires b < |start| && at == |Branches(lift, start[b])|
    ensures jumps == JumpsOf(lift, start, end, b) && succs == Somes(jumps)
    ensures after == |Branches(lift, EndOf(start, end, b))|
  {
    BlockEnd(lift, start, end, b);
    BlockBranches(lift, start, end, resolved, b);
    jumps, succs, after := TakeJumps(shape.branches, resolved, EndOf(start, end, b), at);
    JumpsTaken(lift, start, end, resolved, b, after);
  }

  /** The jumps from `at` on of instructions before `stop`. */
  method TakeJumps(branches: seq<(nat, nat)>, resolved: seq<Option<nat>>, stop: nat, at: nat) returns (jumps: seq<Option<nat>>, succs: seq<nat>, after: nat)
    requires at <= |resolved| <= |branches|
    ensures at <= after <= |resolved| && jumps == resolved[at..after] && succs == Somes(jumps)
    ensures (forall k | at <= k < after :: branches[k].0 < stop) && (after < |resolved| ==> branches[after].0 >= stop)
  {
    jumps, succs, after := [], [], at;
    while after < |resolved| && branches[after].0 < stop
      invariant at <= after <= |resolved| && jumps == resolved[at..after] && succs == Somes(jumps)
      invariant forall k | at <= k < after :: branches[k].0 < stop
    {
      var r := resolved[after];
      SomesPush(jumps, r);
      jumps, succs, after := jumps + [r], succs + (if r.Some? then [r.value] else []), after + 1;
    }
  }

  /** They are the block's. */
  lemma JumpsTaken(lift: seq<Insn>, start: seq<nat>, end: nat, resolved: seq<Option<nat>>, b: nat, after: nat)
    requires StartsOk(lift, start, end) && Resolved(lift, start, end, resolved) && b < |start|
    requires var at, z := |Branches(lift, start[b])|, Branches(lift, |lift|);
      at <= after <= |resolved| <= |z| && (forall k | at <= k < after :: z[k].0 < EndOf(start, end, b)) && (after < |resolved| ==> z[after].0 >= EndOf(start, end, b))
    ensures after == |Branches(lift, EndOf(start, end, b))| && resolved[|Branches(lift, start[b])|..after] == JumpsOf(lift, start, end, b)
  {
    var at, last, js := |Branches(lift, start[b])|, |Branches(lift, EndOf(start, end, b))|, JumpsOf(lift, start, end, b);
    BlockBranches(lift, start, end, resolved, b);
    BlockBranch(lift, start, end, resolved, b, if after < last then after else last);
    forall k | at <= k < last ensures resolved[k] == js[k - at] {
      BlockBranch(lift, start, end, resolved, b, k);
    }
  }

  lemma SomesPush(js: seq<Option<nat>>, r: Option<nat>)
    ensures Somes(js + [r]) == Somes(js) + if r.Some? then [r.value] else []
  {
    assert (js + [r])[..|js|] == js;
  }

  lemma BlockBranches(lift: seq<Insn>, start: seq<nat>, end: nat, resolved: seq<Option<nat>>, b: nat)
    requires StartsOk(lift, start, end) && Resolved(lift, start, end, resolved) && b < |start|
    ensures var at, last := |Branches(lift, start[b])|, |Branches(lift, EndOf(start, end, b))|;
      at <= last <= |resolved| <= |Branches(lift, |lift|)| && |JumpsOf(lift, start, end, b)| == last - at
  {
    BlockEnd(lift, start, end, b);
    BranchSpan(lift, start[b], EndOf(start, end, b));
    BlockBranch(lift, start, end, resolved, b, |Branches(lift, start[b])|);
  }

  /** The jumps and the successors of block `b`. */
  method BlockEdges(shape: Shape, ghost lift: seq<Insn>, start: seq<nat>, end: nat, resolved: seq<Option<nat>>, b: nat, at: nat)
    returns (jumps: seq<Option<nat>>, succs: seq<nat>, after: nat)
    requires IsShape(shape, lift) && StartsOk(lift, start, end) && Resolved(lift, start, end, resolved)
    requires b < |start| && at == |Branches(lift, start[b])|
    ensures jumps == JumpsOf(lift, start, end, b) && succs == SuccsOf(lift, start, end, b)
    ensures after == |Branches(lift, EndOf(start, end, b))|
  {
    BlockEnd(lift, start, end, b);
    jumps, succs, after := BlockJumps(shape, lift, start, end, resolved, b, at);
    if !shape.stops[EndOf(start, end, b) - 1] && b + 1 < |start| {
      succs := succs + [b + 1];
    }
  }

  /** The jumps and successors of every block. */
  method AllEdges(shape: Shape, ghost lift: seq<Insn>, start: seq<nat>, end: nat, resolved: seq<Option<nat>>)
    returns (jumps: seq<seq<Option<nat>>>, succs: seq<seq<nat>>)
    requires IsShape(shape, lift) && StartsOk(lift, start, end) && Resolved(lift, start, end, resolved)
    requires |start| > 0 && start[0] == 0
    ensures |jumps| == |succs| == |start|
    ensures forall b | 0 <= b < |start| :: jumps[b] == JumpsOf(lift, start, end, b) && succs[b] == SuccsOf(lift, start, end, b)
  {
    jumps, succs := [], [];
    var at, b := 0, 0;
    while b < |start|
      invariant 0 <= b <= |start| && |jumps| == |succs| == b
      invariant b < |start| ==> at == |Branches(lift, start[b])|
      invariant forall c | 0 <= c < b :: jumps[c] == JumpsOf(lift, start, end, c) && succs[c] == SuccsOf(lift, start, end, c)
    {
      var js, ss;
      js, ss, at := BlockEdges(shape, lift, start, end, resolved, b, at);
      jumps, succs := jumps + [js], succs + [ss];
      b := b + 1;
    }
  }

  /** The blocks, from their starts, the blocks their jumps go to and whether each is an
      external entry. */
  method Assemble(shape: Shape, ghost lift: seq<Insn>, ghost external: set<nat>, inBody: nat -> bool, start: seq<nat>, end: nat,
      resolved: seq<Option<nat>>, entered: seq<bool>) returns (cfg: Cfg)
    requires IsShape(shape, lift) && Blocks(lift, external, end, start) && Resolved(lift, start, end, resolved)
    requires |entered| == |start| && forall b | 0 <= b < |start| :: entered[b] == (shape.addrs[start[b]] in external)
    ensures cfg == CfgOf(lift, external, inBody, end)
  {
    var jumps, succs := AllEdges(shape, lift, start, end, resolved);
    forall b, k | 0 <= b < |succs| && 0 <= k < |succs[b]| ensures succs[b][k] < |succs| {
      SuccsBelow(lift, start, end, b, k);
    }
    var reached := Flood(succs, [0]);
    var startAddr := seq(|start|, b requires 0 <= b < |start| => shape.addrs[start[b]]);
    var unknown := seq(|start|, b requires 0 <= b < |start| => b != 0 && (entered[b] || (!reached[b] && inBody(startAddr[b]))));
    cfg := Cfg(start, startAddr, 0, unknown, succs, jumps, None, false, []);
    assert startAddr == Addresses(lift, start);
    forall b: nat | b < |start| ensures unknown[b] == UnknownEntry(external, inBody, startAddr, succs, b) {
      assert LedFrom(succs, [0], b) <==> Leads(succs, [0][0], b);
    }
    var spec := CfgOf(lift, external, inBody, end);
    assert succs == spec.succs && jumps == spec.jumps;
    assert unknown == spec.unknown;
  }

  // ---- where blocks start

  ghost predicate MarkedAt(addrs: seq<nat>, marks: seq<bool>, ts: seq<nat>) {
    |marks| == |addrs| && forall i | 0 <= i < |addrs| :: marks[i] <==> addrs[i] in ts
  }

  lemma IncreasingShape(shape: Shape, lift: seq<Insn>)
    requires IsShape(shape, lift) && Increasing(lift)
    ensures Ascends(shape.addrs)
  {
  }

  /** Which addresses are among `ts`. */
  method MarkAddresses(addrs: seq<nat>, ts: seq<nat>) returns (marks: seq<bool>)
    requires Ascends(addrs)
    ensures MarkedAt(addrs, marks, ts)
  {
    marks := seq(|addrs|, _ => false);
    var k := 0;
    while k < |ts|
      invariant 0 <= k <= |ts| && MarkedAt(addrs, marks, ts[..k])
    {
      var i := BinarySearch(addrs, 0, |addrs|, ts[k]);
      assert ts[..k + 1] == ts[..k] + [ts[k]];
      if i.Some? { marks := marks[i.value := true]; }
      k := k + 1;
    }
    assert ts[..k] == ts;
  }

  function Second(ps: seq<(nat, nat)>): (r: seq<nat>)
    ensures |r| == |ps|
  {
    seq(|ps|, k requires 0 <= k < |ps| => ps[k].1)
  }

  /** Which instructions a jump targets, and the index of each jump's target, searched from
      the jump's own index. */
  method MarkTargets(addrs: seq<nat>, branches: seq<(nat, nat)>) returns (marks: seq<bool>, targetIdx: seq<Option<nat>>)
    requires Ascends(addrs) && forall k | 0 <= k < |branches| :: branches[k].0 < |addrs|
    ensures MarkedAt(addrs, marks, Second(branches))
    ensures |targetIdx| == |branches| && forall k | 0 <= k < |branches| :: Located(addrs, branches[k].1, targetIdx[k])
  {
    marks, targetIdx := seq(|addrs|, _ => false), [];
    ghost var ts := Second(branches);
    var k := 0;
    while k < |branches|
      invariant 0 <= k <= |branches| && MarkedAt(addrs, marks, ts[..k])
      invariant |targetIdx| == k && forall l | 0 <= l < k :: Located(addrs, branches[l].1, targetIdx[l])
    {
      var i := FindNear(addrs, branches[k].0, branches[k].1);
      assert ts[..k + 1] == ts[..k] + [branches[k].1];
      if i.Some? { marks := marks[i.value := true]; }
      targetIdx := targetIdx + [i];
      k := k + 1;
    }
    assert ts[..k] == ts;
  }

  function ToSet(s: seq<nat>): set<nat> { set x | x in s }

  /** The marked instructions, where blocks start. */
  method CollectStarts(shape: Shape, ghost lift: seq<Insn>, ghost external: seq<nat>, entered: seq<bool>, targets: seq<bool>, end: nat) returns (start: seq<nat>)
    requires IsShape(shape, lift) && 0 < end <= |lift|
    requires MarkedAt(shape.addrs, entered, external) && MarkedAt(shape.addrs, targets, Second(shape.branches))
    ensures Blocks(lift, ToSet(external), end, start)
  {
    start := [];
    var i := 0;
    while i < end
      invariant 0 <= i <= end && start == Starts(lift, ToSet(external), i)
    {
      var starts := i == 0 || entered[i] || targets[i] || shape.ends[i - 1];
      StartAdded(shape, lift, external, entered, targets, i);
      start := start + if starts then [i] else [];
      i := i + 1;
    }
    StartsFacts(lift, ToSet(external), end);
  }

  lemma StartAdded(shape: Shape, lift: seq<Insn>, external: seq<nat>, entered: seq<bool>, targets: seq<bool>, i: nat)
    requires IsShape(shape, lift) && i < |lift|
    requires MarkedAt(shape.addrs, entered, external) && MarkedAt(shape.addrs, targets, Second(shape.branches))
    ensures var starts := i == 0 || entered[i] || targets[i] || shape.ends[i - 1];
      Starts(lift, ToSet(external), i + 1) == Starts(lift, ToSet(external), i) + if starts then [i] else []
  {
    if i > 0 { StartMarked(shape, lift, external, entered, targets, i); }
  }

  /** A block starts where an instruction is marked or follows one that ends a block. */
  lemma StartMarked(shape: Shape, lift: seq<Insn>, external: seq<nat>, entered: seq<bool>, targets: seq<bool>, i: nat)
    requires IsShape(shape, lift) && 0 < i < |lift|
    requires MarkedAt(shape.addrs, entered, external) && MarkedAt(shape.addrs, targets, Second(shape.branches))
    ensures IsStart(lift, ToSet(external), i) <==> entered[i] || targets[i] || shape.ends[i - 1]
  {
    TargetMarked(shape, lift, targets, i);
    assert entered[i] <==> shape.addrs[i] in external;
  }

  lemma SecondHas(ps: seq<(nat, nat)>, t: nat)
    ensures t in Second(ps) <==> HasTarget(ps, t)
  {
    if t in Second(ps) {
      var k :| 0 <= k < |Second(ps)| && Second(ps)[k] == t;
      assert ps[k].1 == t;
    }
    if k :| 0 <= k < |ps| && ps[k].1 == t {
      assert Second(ps)[k] == t;
    }
  }

  lemma TargetMarked(shape: Shape, lift: seq<Insn>, targets: seq<bool>, i: nat)
    requires IsShape(shape, lift) && MarkedAt(shape.addrs, targets, Second(shape.branches)) && i < |lift|
    ensures targets[i] <==> lift[i].address in TargetsIn(lift, 0, |lift|)
  {
    var a := shape.addrs[i];
    BranchTargets(lift, a);
    SecondHas(Branches(lift, |lift|), a);
    assert targets[i] <==> a in Second(shape.branches);
  }

  lemma BlockOfIs(startAddr: seq<nat>, t: nat, r: Option<nat>)
    requires Ascends(startAddr) && Located(startAddr, t, r)
    ensures BlockOf(startAddr, t) == r
  {
    if r.Some? { BlockOfUnique(startAddr, r.value); }
  }

  lemma StartsAscend(lift: seq<Insn>, start: seq<nat>, end: nat)
    requires Increasing(lift) && StartsOk(lift, start, end)
    ensures Ascends(Addresses(lift, start))
  {
  }

  /** The blocks from the lift's shape. */
  method BuildShaped(shape: Shape, ghost lift: seq<Insn>, external: seq<nat>, inBody: nat -> bool) returns (cfg: Cfg)
    requires IsShape(shape, lift) && Increasing(lift) && 0 < |lift|
    ensures cfg == CfgOf(lift, ToSet(external), inBody, |lift|)
  {
    IncreasingShape(shape, lift);
    var n := |shape.addrs|;
    var entered := MarkAddresses(shape.addrs, external);
    var targets := MarkAddresses(shape.addrs, Second(shape.branches));
    var start := CollectStarts(shape, lift, external, entered, targets, n);
    var startAddr := seq(|start|, b requires 0 <= b < |start| => shape.addrs[start[b]]);
    assert startAddr == Addresses(lift, start);
    StartsAscend(lift, start, n);
    var resolved, k := [], 0;
    while k < |shape.branches|
      invariant 0 <= k <= |shape.branches| && |resolved| == k
      invariant forall l | 0 <= l < k :: resolved[l] == BlockOf(startAddr, shape.branches[l].1)
    {
      var r := BinarySearch(startAddr, 0, |startAddr|, shape.branches[k].1);
      BlockOfIs(startAddr, shape.branches[k].1, r);
      resolved := resolved + [r];
      k := k + 1;
    }
    cfg := Assemble(shape, lift, ToSet(external), inBody, start, n, resolved,
                    seq(|start|, b requires 0 <= b < |start| => entered[start[b]]));
  }

  // ---- marks

  /** Facts of each instruction of an increasing lift: whether a jump targets it, whether it
      is entered from outside, its flags in a byte, the index of each jump's target, and the
      owned calls. */
  datatype Marks = Marks(targets: seq<bool>, entered: seq<bool>, flags: seq<Byte>, targetIdx: seq<Option<nat>>, ownedCalls: seq<nat>)

  /** The flags of instruction `i`. */
  function FlagAt(shape: Shape, targets: seq<bool>, entered: seq<bool>, owned: nat -> bool, i: nat): Byte
    requires i < |targets| && i < |entered| && i <= |shape.ends|
  {
    FlagByte(targets[i], entered[i], owned(i), i > 0 && shape.ends[i - 1])
  }

  ghost predicate IsMarks(marks: Marks, shape: Shape, external: seq<nat>, owned: nat -> bool) {
    && MarkedAt(shape.addrs, marks.targets, Second(shape.branches))
    && MarkedAt(shape.addrs, marks.entered, external)
    && |shape.ends| == |shape.addrs| == |marks.flags|
    && (forall i | 0 <= i < |shape.addrs| :: marks.flags[i] == FlagAt(shape, marks.targets, marks.entered, owned, i))
    && |marks.targetIdx| == |shape.branches|
    && (forall k | 0 <= k < |shape.branches| :: Located(shape.addrs, shape.branches[k].1, marks.targetIdx[k]))
    && (forall i: nat :: i in marks.ownedCalls <==> i < |shape.addrs| && owned(i))
    && Ascends(marks.ownedCalls)
  }

  method MakeMarks(shape: Shape, ghost lift: seq<Insn>, external: seq<nat>, owned: nat -> bool) returns (marks: Marks)
    requires IsShape(shape, lift) && Increasing(lift)
    ensures IsMarks(marks, shape, external, owned)
  {
    IncreasingShape(shape, lift);
    forall k | 0 <= k < |shape.branches| ensures shape.branches[k].0 < |shape.addrs| {
      BranchPlace(lift, |lift|, k);
    }
    var targets, targetIdx := MarkTargets(shape.addrs, shape.branches);
    var entered := MarkAddresses(shape.addrs, external);
    var calls: seq<nat>, flags: seq<Byte> := [], [];
    var i := 0;
    while i < |shape.addrs|
      invariant 0 <= i <= |shape.addrs|
      invariant forall j: nat :: j in calls <==> j < i && owned(j)
      invariant Ascends(calls) && forall k | 0 <= k < |calls| :: calls[k] < i
      invariant |flags| == i && forall j | 0 <= j < i :: flags[j] == FlagAt(shape, targets, entered, owned, j)
    {
      flags := flags + [FlagAt(shape, targets, entered, owned, i)];
      if owned(i) { calls := calls + [i]; }
      i := i + 1;
    }
    marks := Marks(targets, entered, flags, targetIdx, calls);
  }

  // ---- the blocks of a prefix

  /** How many jumps are of the first `end` instructions: a binary search. */
  method BranchesBefore(shape: Shape, ghost lift: seq<Insn>, end: nat) returns (k: nat)
    requires IsShape(shape, lift) && end <= |lift|
    ensures k == |Branches(lift, end)| <= |shape.branches|
  {
    ghost var n := |Branches(lift, end)|;
    BranchSpan(lift, end, |lift|);
    var lo, hi := 0, |shape.branches|;
    while lo < hi
      invariant 0 <= lo <= n <= hi <= |shape.branches|
    {
      var mid := (lo + hi) / 2;
      BranchPlace(lift, end, mid);
      if shape.branches[mid].0 < end { lo := mid + 1; } else { hi := mid; }
    }
    k := lo;
  }

  /** The block each block start starts, at its instruction. */
  method BlockTable(start: seq<nat>, n: nat) returns (blockAt: seq<nat>)
    requires Ascends(start) && forall b | 0 <= b < |start| :: start[b] < n
    ensures |blockAt| == n && forall b | 0 <= b < |start| :: blockAt[start[b]] == b
  {
    blockAt := seq(n, _ => 0);
    var b := 0;
    while b < |start|
      invariant 0 <= b <= |start| && |blockAt| == n
      invariant forall c | 0 <= c < b :: blockAt[start[c]] == c
    {
      blockAt := blockAt[start[b] := b];
      b := b + 1;
    }
  }

  /** A jump's target starts a block, when before the end, and then only that one. */
  lemma TargetBlock(shape: Shape, lift: seq<Insn>, external: set<nat>, end: nat, start: seq<nat>, k: nat, at: Option<nat>)
    requires IsShape(shape, lift) && Increasing(lift) && Blocks(lift, external, end, start)
    requires k < |shape.branches| && Located(shape.addrs, shape.branches[k].1, at)
    ensures var r := BlockOf(Addresses(lift, start), shape.branches[k].1);
      if at.Some? && at.value < end then r.Some? && r.value < |start| && start[r.value] == at.value else r == None
  {
    var t := shape.branches[k].1;
    var r := BlockOf(Addresses(lift, start), t);
    if r.Some? {
      assert shape.addrs[start[r.value]] == t;
    }
    if at.Some? && at.value < end {
      BranchTargets(lift, t);
      assert HasTarget(Branches(lift, |lift|), t);
      assert lift[at.value].address in TargetsIn(lift, 0, |lift|);
      assert IsStart(lift, external, at.value);
      StartsFacts(lift, external, end);
      var b :| 0 <= b < |start| && start[b] == at.value;
      StartsAscend(lift, start, end);
      BlockOfUnique(Addresses(lift, start), b);
    }
  }

  /** The flagged instructions are where blocks start. */
  lemma {:induction false} FlaggedStarts(shape: Shape, lift: seq<Insn>, external: seq<nat>, owned: nat -> bool, marks: Marks, end: nat, n: nat)
    requires IsShape(shape, lift) && IsMarks(marks, shape, external, owned) && 0 < n <= end <= |lift|
    ensures MarkedStarts(marks.flags[..end], n) == Starts(lift, ToSet(external), n)
  {
    var i := n - 1;
    if i > 0 {
      FlaggedStarts(shape, lift, external, owned, marks, end, i);
      StartMarked(shape, lift, external, marks.entered, marks.targets, i);
      MaskedFlag(marks.targets[i], marks.entered[i], owned(i), shape.ends[i - 1]);
      assert marks.flags[..end][i] == FlagAt(shape, marks.targets, marks.entered, owned, i);
    } else {
      OneStart(lift, external, marks.flags[..end]);
    }
  }

  lemma OneStart(lift: seq<Insn>, external: seq<nat>, flags: seq<Byte>)
    requires 0 < |flags| && 0 < |lift|
    ensures MarkedStarts(flags, 1) == [0] == Starts(lift, ToSet(external), 1)
  {
    assert MarkedStarts(flags, 0) == [0] && Starts(lift, ToSet(external), 0) == [];
  }

  /** The blocks of the first `end` instructions, from the marks: each jump's block read at
      the instruction it targets. */
  method BuildMarkedUpto(shape: Shape, ghost lift: seq<Insn>, ghost external: seq<nat>, ghost owned: nat -> bool, marks: Marks, inBody: nat -> bool, end: nat)
    returns (cfg: Cfg)
    requires IsShape(shape, lift) && Increasing(lift) && IsMarks(marks, shape, external, owned) && 0 < end <= |lift|
    ensures cfg == CfgOf(lift, ToSet(external), inBody, end)
  {
    var start := ScanFlags(marks.flags[..end]);
    FlaggedStarts(shape, lift, external, owned, marks, end, end);
    StartsFacts(lift, ToSet(external), end);
    var resolved := ResolveMarked(shape, lift, ToSet(external), marks, start, end);
    cfg := Assemble(shape, lift, ToSet(external), inBody, start, end, resolved,
                    seq(|start|, b requires 0 <= b < |start| => marks.entered[start[b]]));
  }

  method ResolveMarked(shape: Shape, ghost lift: seq<Insn>, ghost external: set<nat>, marks: Marks, start: seq<nat>, end: nat) returns (resolved: seq<Option<nat>>)
    requires IsShape(shape, lift) && Increasing(lift) && Blocks(lift, external, end, start)
    requires |marks.targetIdx| == |shape.branches|
    requires forall k | 0 <= k < |shape.branches| :: Located(shape.addrs, shape.branches[k].1, marks.targetIdx[k])
    ensures Resolved(lift, start, end, resolved)
  {
    var blockAt := BlockTable(start, end);
    var n := BranchesBefore(shape, lift, end);
    BranchSpan(lift, end, |lift|);
    ghost var bs := Branches(lift, end);
    assert forall l | 0 <= l < n :: bs[l] == shape.branches[..n][l];
    resolved := [];
    var k := 0;
    while k < n
      invariant 0 <= k <= n && |resolved| == k
      invariant forall l | 0 <= l < k :: ResolvedAt(lift, start, end, resolved, l)
    {
      var at := marks.targetIdx[k];
      ResolveOne(shape, lift, external, end, start, k, at, blockAt);
      ghost var before := resolved;
      resolved := resolved + [if at.Some? && at.value < end then Some(blockAt[at.value]) else None];
      forall l | 0 <= l < k + 1 ensures ResolvedAt(lift, start, end, resolved, l) {
        assert l < k ==> ResolvedAt(lift, start, end, before, l);
      }
      k := k + 1;
    }
    forall l | 0 <= l < n ensures resolved[l] == BlockOf(Addresses(lift, start), bs[l].1) {
      assert ResolvedAt(lift, start, end, resolved, l);
    }
  }

  ghost predicate ResolvedAt(lift: seq<Insn>, start: seq<nat>, end: nat, resolved: seq<Option<nat>>, l: nat)
    requires StartsOk(lift, start, end)
  {
    l < |resolved| <= |Branches(lift, end)| && resolved[l] == BlockOf(Addresses(lift, start), Branches(lift, end)[l].1)
  }

  lemma ResolveOne(shape: Shape, lift: seq<Insn>, external: set<nat>, end: nat, start: seq<nat>, k: nat, at: Option<nat>, blockAt: seq<nat>)
    requires IsShape(shape, lift) && Increasing(lift) && Blocks(lift, external, end, start)
    requires k < |shape.branches| && Located(shape.addrs, shape.branches[k].1, at)
    requires |blockAt| == end && forall b | 0 <= b < |start| :: blockAt[start[b]] == b
    ensures BlockOf(Addresses(lift, start), shape.branches[k].1) == if at.Some? && at.value < end then Some(blockAt[at.value]) else None
  {
    TargetBlock(shape, lift, external, end, start, k, at);
  }

  // ---- how much of the lift is needed

  lemma TargetOfBranch(lift: seq<Insn>, i: nat, t: nat, end: nat)
    requires end <= i < |lift| && t in Targets(lift[i].ops)
    ensures exists k :: |Branches(lift, end)| <= k < |Branches(lift, |lift|)| && Branches(lift, |lift|)[k].1 == t
  {
    BranchSpan(lift, end, |lift|);
    TargetsInHold(lift, end, |lift|, i, t);
    var ts := TargetsIn(lift, end, |lift|);
    var j :| 0 <= j < |ts| && ts[j] == t;
    assert SpanAt(Branches(lift, |lift|), |Branches(lift, end)|, ts, end, |lift|, j);
  }

  /** The first block start after instruction `last`. */
  method NextMarked(shape: Shape, ghost lift: seq<Insn>, ghost external: seq<nat>, ghost owned: nat -> bool, marks: Marks, last: nat) returns (end: nat)
    requires IsShape(shape, lift) && IsMarks(marks, shape, external, owned) && last < |lift|
    ensures last < end <= |lift| && (end < |lift| ==> IsStart(lift, ToSet(external), end))
    ensures forall i | last < i < end :: !IsStart(lift, ToSet(external), i)
  {
    end := last + 1;
    while end < |shape.addrs|
      invariant last < end <= |lift|
      invariant forall i | last < i < end :: !IsStart(lift, ToSet(external), i)
    {
      StartMarked(shape, lift, external, marks.entered, marks.targets, end);
      if marks.targets[end] || marks.entered[end] || shape.ends[end - 1] { return; }
      end := end + 1;
    }
  }

  /** How many of the first instructions hold every block that can reach an owned call: 0
      when there is none. */
  method Reach(shape: Shape, ghost lift: seq<Insn>, ghost external: seq<nat>, ghost owned: nat -> bool, marks: Marks) returns (end: nat)
    requires IsShape(shape, lift) && IsMarks(marks, shape, external, owned)
    ensures end == 0 ==> forall i: nat | i < |lift| :: !owned(i)
    ensures end > 0 ==> exists last :: IsReach(lift, ToSet(external), owned, last, end)
  {
    if marks.ownedCalls == [] {
      assert forall i: nat | i < |lift| :: owned(i) ==> i in marks.ownedCalls;
      return 0;
    }
    var last := marks.ownedCalls[|marks.ownedCalls| - 1];
    assert last in marks.ownedCalls;
    forall i | last < i < |lift| ensures !owned(i) {
      assert owned(i) ==> i in marks.ownedCalls;
    }
    end := NextMarked(shape, lift, external, owned, marks, last);
    var back := JumpsBack(shape, lift, last, end);
    if back {
      end := |shape.addrs|;
    }
    assert IsReach(lift, ToSet(external), owned, last, end);
  }

  /** Whether a jump from instruction `end` on goes to one up to `last`. */
  method JumpsBack(shape: Shape, ghost lift: seq<Insn>, last: nat, end: nat) returns (back: bool)
    requires IsShape(shape, lift) && last < end <= |lift|
    ensures !back ==> forall i, t | end <= i < |lift| && t in Targets(lift[i].ops) :: !(lift[0].address <= t <= lift[last].address)
  {
    var from := BranchesBefore(shape, lift, end);
    var lo, hi := shape.addrs[0], shape.addrs[last];
    var k := from;
    while k < |shape.branches|
      invariant from <= k <= |shape.branches|
      invariant forall l | from <= l < k :: !(lo <= shape.branches[l].1 <= hi)
    {
      if lo <= shape.branches[k].1 <= hi { return true; }
      k := k + 1;
    }
    forall i, t | end <= i < |lift| && t in Targets(lift[i].ops) ensures !(lo <= t <= hi) {
      TargetOfBranch(lift, i, t, end);
    }
    back := false;
  }
}
