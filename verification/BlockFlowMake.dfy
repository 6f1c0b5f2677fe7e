/**
 Making the blocks: the lift's shape read once, its marks, the two ways of building the
 blocks from them, the blocks kept for some calls, and how much of the lift they need.
 */
module BlockFlowMake {
  import opened Pcode
  import opened SortedNats
  import opened BlockFlow
  import opened BlockFlowBuild
  import opened BlockFlowCut

  /** What the blocks need of each lifted instruction: its address, whether it ends its block
      and whether it stops the fall-through, and the jumps with a target, in op order. */
  datatype Shape = Shape(addrs: seq<nat>, ends: seq<bool>, stops: seq<bool>, branches: seq<(nat, nat)>)

  /** The jumps of the first `n` instructions. */
  ghost function Branches(lift: seq<Insn>, n: nat): seq<(nat, nat)>
    requires n <= |lift|
  {
    if n == 0 then [] else Branches(lift, n - 1) + Pairs(n - 1, Targets(lift[n - 1].ops))
  }

  function Pairs(i: nat, ts: seq<nat>): (r: seq<(nat, nat)>)
    ensures |r| == |ts|
  {
    seq(|ts|, k requires 0 <= k < |ts| => (i, ts[k]))
  }

  ghost predicate IsShape(shape: Shape, lift: seq<Insn>) {
    && |shape.addrs| == |shape.ends| == |shape.stops| == |lift|
    && (forall i | 0 <= i < |lift| ::
          shape.addrs[i] == lift[i].address && shape.ends[i] == EndsBlock(lift[i]) && shape.stops[i] == StopsFlow(lift[i]))
    && shape.branches == Branches(lift, |lift|)
  }

  /** The flags and targets of one instruction. */
  method ReadInsn(insn: Insn) returns (ends: bool, stops: bool, targets: seq<nat>)
    ensures ends == EndsBlock(insn) && stops == StopsFlow(insn) && targets == Targets(insn.ops)
  {
    var ops := insn.ops;
    ends, stops, targets := false, false, [];
    var k := 0;
    while k < |ops|
      invariant 0 <= k <= |ops|
      invariant ends <==> exists l :: 0 <= l < k && (IsJump(ops[l]) || IsStop(ops[l]))
      invariant stops <==> exists l :: 0 <= l < k && IsStop(ops[l])
      invariant targets == Targets(ops[..k])
    {
      assert ops[..k + 1][..k] == ops[..k];
      ends := ends || IsJump(ops[k]) || IsStop(ops[k]);
      stops := stops || IsStop(ops[k]);
      if IsJump(ops[k]) && Target(ops[k]).Some? {
        targets := targets + [Target(ops[k]).value];
      }
      k := k + 1;
    }
    assert ops[..k] == ops;
  }

  /** The shape of a lift, each instruction's ops read once. */
  method ReadShape(lift: seq<Insn>) returns (shape: Shape)
    ensures IsShape(shape, lift)
  {
    var addrs, ends, stops, branches := [], [], [], [];
    var i := 0;
    while i < |lift|
      invariant 0 <= i <= |lift| && |addrs| == |ends| == |stops| == i
      invariant forall j | 0 <= j < i :: addrs[j] == lift[j].address && ends[j] == EndsBlock(lift[j]) && stops[j] == StopsFlow(lift[j])
      invariant branches == Branches(lift, i)
    {
      var e, s, ts := ReadInsn(lift[i]);
      addrs, ends, stops := addrs + [lift[i].address], ends + [e], stops + [s];
      branches := branches + Pairs(i, ts);
      assert branches == Branches(lift, i + 1);
      i := i + 1;
    }
    shape := Shape(addrs, ends, stops, branches);
  }

  /** Whether the addresses strictly increase. */
  method IsIncreasing(lift: seq<Insn>) returns (ok: bool)
    ensures ok == Increasing(lift)
  {
    ok := true;
    var i := 1;
    while i < |lift|
      invariant 1 <= i && (lift == [] ==> ok) && (lift != [] ==> i <= |lift| && ok == Increasing(lift[..i]))
    {
      OneMoreIncreases(lift, i);
      ok := ok && lift[i - 1].address < lift[i].address;
      i := i + 1;
    }
    assert lift != [] ==> lift[..|lift|] == lift;
  }

  lemma OneMoreIncreases(lift: seq<Insn>, i: nat)
    requires 0 < i < |lift|
    ensures Increasing(lift[..i + 1]) <==> Increasing(lift[..i]) && lift[i - 1].address < lift[i].address
  {
    var a, b := lift[..i], lift[..i + 1];
    assert forall j | 0 <= j < i :: a[j] == b[j];
    assert b[i - 1] == lift[i - 1] && b[i] == lift[i];
  }

  // ---- finding an address

  /** The index of `t`, searched outwards from index `from` with doubling steps, then by
      halves: what the search of the whole gives. */
  method FindNear(a: seq<nat>, from: nat, t: nat) returns (r: Option<nat>)
    requires Ascends(a) && from < |a|
    ensures Located(a, t, r)
  {
    if t >= a[from] {
      var lo, step := from, 1;
      while true
        invariant from <= lo < |a| && lo < from + step && a[lo] <= t && step > 0
        decreases |a| - lo
      {
        var hi := from + step;
        if hi >= |a| {
          r := BinarySearch(a, lo, |a|, t);
          return;
        }
        if a[hi] >= t {
          r := BinarySearch(a, lo, hi + 1, t);
          return;
        }
        lo := hi;
        step := step * 2;
      }
    }
    var hi, step := from, 1;
    while true
      invariant 0 <= hi <= from < hi + step && a[hi] > t && step > 0
      decreases hi
    {
      if step > from {
        r := BinarySearch(a, 0, hi, t);
        return;
      }
      var lo := from - step;
      if a[lo] <= t {
        r := BinarySearch(a, lo, hi, t);
        return;
      }
      hi := lo;
      step := step * 2;
    }
  }

  // ---- the blocks edges lead to

  ghost predicate Graph(succs: seq<seq<nat>>) {
    forall b, k | 0 <= b < |succs| && 0 <= k < |succs[b]| :: succs[b][k] < |succs|
  }

  ghost predicate LedFrom(succs: seq<seq<nat>>, seeds: seq<nat>, b: nat) {
    exists i :: 0 <= i < |seeds| && Leads(succs, seeds[i], b)
  }

  lemma LeadsFurther(succs: seq<seq<nat>>, a: nat, b: nat, c: nat)
    requires Leads(succs, a, b) && b < |succs| && c < |succs| && c in succs[b]
    ensures Leads(succs, a, c)
  {
    var path :| IsPath(succs, path) && path[0] == a && path[|path| - 1] == b;
    var longer := path + [c];
    assert forall k | 0 <= k < |path| :: longer[k] == path[k];
    forall k | 0 <= k < |longer| - 1 ensures EdgeAt(succs, longer, k) {
      assert k < |path| - 1 ==> EdgeAt(succs, path, k);
    }
    assert IsPath(succs, longer) && longer[0] == a && longer[|longer| - 1] == c;
  }

  /** The blocks still unmarked. */
  ghost function Unmarked(mark: seq<bool>): set<nat> {
    set b: nat | b < |mark| && !mark[b]
  }

  /** The blocks led to from the seeds. */
  ghost function Led(succs: seq<seq<nat>>, seeds: seq<nat>): set<nat> {
    set b: nat | b < |succs| && LedFrom(succs, seeds, b)
  }

  /** The seeds are marked, and every marked block is one led to. */
  ghost predicate FloodMarks(led: set<nat>, seeds: seq<nat>, mark: seq<bool>) {
    && (forall x | x in seeds :: x < |mark| && mark[x])
    && (forall b | 0 <= b < |mark| && mark[b] :: b in led)
  }

  /** The marked blocks off the stack have their successors marked. */
  ghost predicate FloodStack(succs: seq<seq<nat>>, mark: seq<bool>, stack: seq<nat>) {
    && |mark| == |succs| && Graph(succs)
    && (forall x | x in stack :: x < |mark| && mark[x])
    && (forall b | 0 <= b < |mark| && mark[b] && b !in stack :: AllMarked(mark, succs[b]))
  }

  ghost predicate AllMarked(mark: seq<bool>, bs: seq<nat>) {
    forall k | 0 <= k < |bs| :: bs[k] < |mark| && mark[bs[k]]
  }

  /** A successor of a block led to is led to. */
  lemma LedOn(succs: seq<seq<nat>>, seeds: seq<nat>, b: nat, s: nat)
    requires Graph(succs) && b in Led(succs, seeds) && s in succs[b]
    ensures s in Led(succs, seeds)
  {
    var k :| 0 <= k < |succs[b]| && succs[b][k] == s;
    var i :| 0 <= i < |seeds| && Leads(succs, seeds[i], b);
    LeadsFurther(succs, seeds[i], b, s);
  }

  lemma PushOne(succs: seq<seq<nat>>, b: nat, s: nat, mark: seq<bool>, stack: seq<nat>)
    requires FloodStack(succs, mark, stack + [b]) && s < |mark|
    ensures FloodStack(succs, mark[s := true], stack + [s] + [b])
  {
    forall x | x in stack + [s] + [b] ensures x < |mark| && mark[s := true][x] {
      assert x in stack + [b] || x == s;
    }
    forall x | 0 <= x < |mark| && mark[s := true][x] && x !in stack + [s] + [b]
      ensures AllMarked(mark[s := true], succs[x])
    {
      assert x !in stack + [b] && x != s;
      assert AllMarked(mark, succs[x]);
    }
  }

  lemma PopMarked(succs: seq<seq<nat>>, b: nat, mark: seq<bool>, stack: seq<nat>)
    requires b < |succs| && FloodStack(succs, mark, stack + [b]) && AllMarked(mark, succs[b])
    ensures FloodStack(succs, mark, stack)
  {
    assert forall x | x in stack :: x in stack + [b];
    assert forall x | x in stack + [b] :: x in stack || x == b;
  }

  /** The successors `bs` of a block taken from the stack marked. */
  method MarkSuccs(succs: seq<seq<nat>>, ghost led: set<nat>, ghost seeds: seq<nat>, b: nat, mark: seq<bool>, stack: seq<nat>)
    returns (mark': seq<bool>, stack': seq<nat>)
    requires b < |succs| && FloodMarks(led, seeds, mark) && FloodStack(succs, mark, stack + [b])
    requires forall s | s in succs[b] :: s in led && s < |succs|
    ensures FloodMarks(led, seeds, mark') && FloodStack(succs, mark', stack')
    ensures Unmarked(mark') < Unmarked(mark) || (Unmarked(mark') == Unmarked(mark) && stack' == stack)
  {
    mark', stack' := mark, stack;
    var bs := succs[b];
    var k := 0;
    while k < |bs|
      invariant 0 <= k <= |bs| && |mark'| == |mark|
      invariant FloodMarks(led, seeds, mark') && FloodStack(succs, mark', stack' + [b])
      invariant AllMarked(mark', bs[..k])
      invariant Unmarked(mark') < Unmarked(mark) || (mark' == mark && stack' == stack)
    {
      var s := bs[k];
      assert s in succs[b] && bs[..k + 1] == bs[..k] + [s];
      if !mark'[s] {
        PushOne(succs, b, s, mark', stack');
        assert s in Unmarked(mark');
        mark' := mark'[s := true];
        stack' := stack' + [s];
      }
      k := k + 1;
    }
    assert bs[..k] == bs;
    PopMarked(succs, b, mark', stack');
  }

  lemma {:induction false} ClosedHoldsPath(succs: seq<seq<nat>>, mark: seq<bool>, path: seq<nat>, k: nat)
    requires |mark| == |succs| && IsPath(succs, path) && mark[path[0]] && k < |path|
    requires forall b | 0 <= b < |mark| && mark[b] :: AllMarked(mark, succs[b])
    ensures mark[path[k]]
  {
    if k > 0 {
      ClosedHoldsPath(succs, mark, path, k - 1);
      var b := path[k - 1];
      assert EdgeAt(succs, path, k - 1);
      var j :| 0 <= j < |succs[b]| && succs[b][j] == path[k];
    }
  }

  method MarkSeeds(n: nat, seeds: seq<nat>) returns (mark: seq<bool>)
    requires forall i | 0 <= i < |seeds| :: seeds[i] < n
    ensures |mark| == n && forall b | 0 <= b < n :: mark[b] <==> b in seeds
  {
    mark := seq(n, _ => false);
    var k := 0;
    while k < |seeds|
      invariant 0 <= k <= |seeds| && |mark| == n
      invariant forall b | 0 <= b < n :: mark[b] <==> b in seeds[..k]
    {
      mark := mark[seeds[k] := true];
      k := k + 1;
    }
    assert seeds[..k] == seeds;
  }

  lemma SeedsLed(succs: seq<seq<nat>>, seeds: seq<nat>, mark: seq<bool>)
    requires Graph(succs) && |mark| == |succs| && forall x | x in seeds :: x < |succs|
    requires forall b | 0 <= b < |mark| :: mark[b] <==> b in seeds
    ensures FloodMarks(Led(succs, seeds), seeds, mark) && FloodStack(succs, mark, seeds)
  {
    forall b: nat | b < |mark| && mark[b] ensures b in Led(succs, seeds) {
      var i :| 0 <= i < |seeds| && seeds[i] == b;
      LeadsHere(succs, b);
    }
  }

  /** What has every successor marked holds everything led to. */
  lemma FloodEnds(succs: seq<seq<nat>>, seeds: seq<nat>, mark: seq<bool>)
    requires Graph(succs) && FloodMarks(Led(succs, seeds), seeds, mark) && FloodStack(succs, mark, [])
    ensures forall b | 0 <= b < |mark| :: mark[b] <==> LedFrom(succs, seeds, b)
  {
    forall b: nat | b < |mark| ensures mark[b] <==> LedFrom(succs, seeds, b) {
      if mark[b] {
        assert b in Led(succs, seeds);
      } else if LedFrom(succs, seeds, b) {
        LedIsMarked(succs, seeds, mark, b);
      }
    }
  }

  lemma LedIsMarked(succs: seq<seq<nat>>, seeds: seq<nat>, mark: seq<bool>, b: nat)
    requires |mark| == |succs| && (forall x | x in seeds :: x < |mark| && mark[x]) && LedFrom(succs, seeds, b)
    requires forall b | 0 <= b < |mark| && mark[b] :: AllMarked(mark, succs[b])
    ensures b < |mark| && mark[b]
  {
    var i :| 0 <= i < |seeds| && Leads(succs, seeds[i], b);
    assert seeds[i] in seeds;
    var path :| IsPath(succs, path) && path[0] == seeds[i] && path[|path| - 1] == b;
    ClosedHoldsPath(succs, mark, path, |path| - 1);
  }

  /** The blocks the edges `succs` lead to from the blocks `seeds`. */
  method Flood(succs: seq<seq<nat>>, seeds: seq<nat>) returns (mark: seq<bool>)
    requires Graph(succs) && forall x | x in seeds :: x < |succs|
    ensures |mark| == |succs| && forall b | 0 <= b < |mark| :: mark[b] <==> LedFrom(succs, seeds, b)
  {
    ghost var led := Led(succs, seeds);
    assert forall i | 0 <= i < |seeds| :: seeds[i] in seeds;
    mark := MarkSeeds(|succs|, seeds);
    SeedsLed(succs, seeds, mark);
    var stack := seeds;
    while stack != []
      invariant FloodMarks(led, seeds, mark) && FloodStack(succs, mark, stack)
      decreases Unmarked(mark), |stack|
    {
      var b, rest := stack[|stack| - 1], stack[..|stack| - 1];
      assert stack == rest + [b] && b in stack;
      forall s | s in succs[b] ensures s in led && s < |succs| {
        LedOn(succs, seeds, b, s);
      }
      mark, stack := MarkSuccs(succs, led, seeds, b, mark, rest);
    }
    FloodEnds(succs, seeds, mark);
  }

  // ---- the blocks kept for some calls

  ghost predicate Reversed(succs: seq<seq<nat>>, preds: seq<seq<nat>>) {
    && |preds| == |succs|
    && forall a: nat, b: nat | a < |succs| && b < |succs| :: a in preds[b] <==> b in succs[a]
  }

  /** Among the blocks before block `b`, of the first `n`, is `x`. */
  ghost predicate PredAt(succs: seq<seq<nat>>, preds: seq<seq<nat>>, n: nat, x: nat, b: nat)
    requires n <= |succs| && b < |preds|
  {
    x in preds[b] <==> x < n && b in succs[x]
  }

  /** The blocks before each block. */
  method Predecessors(succs: seq<seq<nat>>) returns (preds: seq<seq<nat>>)
    requires Graph(succs)
    ensures Reversed(succs, preds) && Graph(preds)
  {
    preds := seq(|succs|, _ => []);
    var a := 0;
    while a < |succs|
      invariant 0 <= a <= |succs| == |preds|
      invariant forall x: nat, b: nat | b < |preds| :: PredAt(succs, preds, a, x, b)
    {
      ghost var before := preds;
      preds := AddPreds(succs[a], a, preds);
      ghost var next := a + 1;
      forall x: nat, b: nat | b < |preds| ensures PredAt(succs, preds, next, x, b) {
        assert PredAt(succs, before, a, x, b);
        assert AddedAt(succs[a], a, before, preds, x, b);
      }
      a := a + 1;
    }
    forall x: nat, b: nat | x < |succs| && b < |succs| ensures x in preds[b] <==> b in succs[x] {
      assert PredAt(succs, preds, a, x, b);
    }
    forall b, k | 0 <= b < |preds| && 0 <= k < |preds[b]| ensures preds[b][k] < |preds| {
      assert PredAt(succs, preds, a, preds[b][k], b);
    }
  }

  ghost predicate AddedAt(ss: seq<nat>, a: nat, before: seq<seq<nat>>, preds: seq<seq<nat>>, x: nat, b: nat)
    requires b < |before| == |preds|
  {
    x in preds[b] <==> x in before[b] || (x == a && b in ss)
  }

  /** Block `a` put before each of `ss`. */
  method AddPreds(ss: seq<nat>, a: nat, before: seq<seq<nat>>) returns (preds: seq<seq<nat>>)
    requires forall k | 0 <= k < |ss| :: ss[k] < |before|
    ensures |preds| == |before| && forall x: nat, b: nat | b < |preds| :: AddedAt(ss, a, before, preds, x, b)
  {
    preds := before;
    var k := 0;
    while k < |ss|
      invariant 0 <= k <= |ss| && |preds| == |before|
      invariant forall x: nat, b: nat | b < |preds| :: AddedAt(ss[..k], a, before, preds, x, b)
    {
      var s := ss[k];
      ghost var was := preds;
      preds := preds[s := preds[s] + [a]];
      ghost var first, more := ss[..k], ss[..k + 1];
      assert more == first + [s];
      forall x: nat, b: nat | b < |preds| ensures AddedAt(more, a, before, preds, x, b) {
        assert AddedAt(first, a, before, was, x, b);
      }
      k := k + 1;
    }
    assert ss[..k] == ss;
  }

  lemma ReversedPath(succs: seq<seq<nat>>, preds: seq<seq<nat>>, a: nat, b: nat)
    requires Reversed(succs, preds) && Leads(succs, a, b)
    ensures Leads(preds, b, a)
  {
    var path :| IsPath(succs, path) && path[0] == a && path[|path| - 1] == b;
    var back := seq(|path|, k requires 0 <= k < |path| => path[|path| - 1 - k]);
    forall k | 0 <= k < |back| - 1 ensures EdgeAt(preds, back, k) {
      assert EdgeAt(succs, path, |path| - 2 - k);
    }
    assert IsPath(preds, back) && back[0] == b && back[|back| - 1] == a;
  }

  lemma ReversedIff(succs: seq<seq<nat>>, preds: seq<seq<nat>>, a: nat, b: nat)
    requires Reversed(succs, preds)
    ensures Leads(succs, a, b) <==> Leads(preds, b, a)
  {
    if Leads(succs, a, b) { ReversedPath(succs, preds, a, b); }
    if Leads(preds, b, a) { ReversedPath(preds, succs, b, a); }
  }

  /** The blocks holding an instruction of `wanted`. */
  method Holders(start: seq<nat>, end: nat, wanted: nat -> bool) returns (r: seq<nat>)
    ensures forall b: nat :: b in r <==> b < |start| && Holds(start, end, wanted, b)
  {
    r := [];
    var b := 0;
    while b < |start|
      invariant 0 <= b <= |start|
      invariant forall c: nat :: c in r <==> c < b && Holds(start, end, wanted, c)
    {
      var i, found := start[b], false;
      while i < EndOf(start, end, b) && !found
        invariant start[b] <= i
        invariant found <==> exists j: nat :: start[b] <= j < i && j < EndOf(start, end, b) && wanted(j)
      {
        found := wanted(i);
        i := i + 1;
      }
      if found { r := r + [b]; }
      b := b + 1;
    }
  }

  /** The blocks to walk for the calls of `wanted`: those that can reach one holding one. */
  method KeepCalls(cfg: Cfg, end: nat, wanted: nat -> bool) returns (rel: seq<bool>)
    requires |cfg.start| == |cfg.succs| && Graph(cfg.succs)
    ensures Kept(cfg, end, wanted, rel)
  {
    var holders := Holders(cfg.start, end, wanted);
    var preds := Predecessors(cfg.succs);
    rel := Flood(preds, holders);
    forall b | 0 <= b < |rel| ensures rel[b] <==> ReachesHolder(cfg, end, wanted, b) {
      forall c: nat ensures Leads(cfg.succs, b, c) <==> Leads(preds, c, b) {
        ReversedIff(cfg.succs, preds, b, c);
      }
      if ReachesHolder(cfg, end, wanted, b) {
        var c: nat :| c < |cfg.start| && Holds(cfg.start, end, wanted, c) && Leads(cfg.succs, b, c);
        assert c in holders;
        var i :| 0 <= i < |holders| && holders[i] == c;
        assert Leads(preds, holders[i], b);
      }
      if LedFrom(preds, holders, b) {
        var i :| 0 <= i < |holders| && Leads(preds, holders[i], b);
        assert holders[i] in holders;
      }
    }
  }
}
