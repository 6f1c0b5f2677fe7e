/**
 Lifts as they are made, each address the one before plus its length: they increase, or wrap
 around the address space once and stay below their first address from there on. The blocks
 keyed by address of one that wraps, no instruction of it at the last address.
 */
module BlockFlowWrap {
  import opened Numbers
  import opened Pcode
  import opened SortedNats
  import opened BlockFlow
  import opened BlockFlowRun
  import opened BlockFlowSound
  import opened BlockFlowSnaps
  import opened BlockFlowBuild
  import opened BlockFlowLegacy

  // ---- the order of the addresses of a lift

  function Sum(lengths: seq<nat>, n: nat): nat
    requires n <= |lengths|
  {
    if n == 0 then 0 else Sum(lengths, n - 1) + lengths[n - 1]
  }

  /** Each instruction follows the one before, around the end of the address space too, and the
      last does not come back to the first. */
  ghost predicate IsChain(lift: seq<Insn>, lengths: seq<nat>) {
    && lift != [] && |lengths| == |lift| && lift[0].address < TWO64
    && (forall i | 0 <= i < |lengths| :: lengths[i] > 0)
    && (forall i | 0 <= i < |lift| - 1 :: Follows(lift, lengths, i))
    && Sum(lengths, |lift| - 1) < TWO64
  }

  ghost predicate Follows(lift: seq<Insn>, lengths: seq<nat>, i: nat) {
    i + 1 < |lift| && i < |lengths| && lift[i + 1].address == (lift[i].address + lengths[i]) % TWO64
  }

  /** The addresses increase up to instruction `w`, which is below the first; from it on they
      increase again and stay below the first. */
  ghost predicate WrapsAt(lift: seq<Insn>, w: nat) {
    && 0 < w < |lift|
    && (forall i, j | 0 <= i < j < w :: lift[i].address < lift[j].address)
    && (forall i, j | w <= i < j < |lift| :: lift[i].address < lift[j].address)
    && (forall j | w <= j < |lift| :: lift[j].address < lift[0].address)
  }

  /** The lift increases, or it wraps around and no instruction is at the last address. */
  ghost predicate InOrder(lift: seq<Insn>) {
    Increasing(lift) || (BelowLast(lift) && exists w :: WrapsAt(lift, w))
  }

  lemma {:induction false} SumGrows(lengths: seq<nat>, m: nat, n: nat)
    requires m < n <= |lengths| && forall i | 0 <= i < |lengths| :: lengths[i] > 0
    ensures Sum(lengths, m) < Sum(lengths, n)
    decreases n
  {
    if m < n - 1 { SumGrows(lengths, m, n - 1); }
  }

  lemma {:induction false} ChainAddress(lift: seq<Insn>, lengths: seq<nat>, i: nat)
    requires IsChain(lift, lengths) && i < |lift|
    ensures Sum(lengths, i) < TWO64
    ensures var a := lift[0].address + Sum(lengths, i); lift[i].address == if a < TWO64 then a else a - TWO64
  {
    if i < |lift| - 1 { SumGrows(lengths, i, |lift| - 1); }
    if i > 0 {
      ChainAddress(lift, lengths, i - 1);
      assert Follows(lift, lengths, i - 1);
    }
  }

  /** A lift increases, or wraps around once; it increases exactly when it is one instruction
      long or its last address is above its first. */
  lemma ChainOrder(lift: seq<Insn>, lengths: seq<nat>)
    requires IsChain(lift, lengths)
    ensures Increasing(lift) || exists w :: WrapsAt(lift, w)
    ensures Increasing(lift) <==> |lift| == 1 || lift[|lift| - 1].address > lift[0].address
  {
    forall i | 0 <= i < |lift|
      ensures Sum(lengths, i) < TWO64
      ensures var a := lift[0].address + Sum(lengths, i); lift[i].address == if a < TWO64 then a else a - TWO64
    {
      ChainAddress(lift, lengths, i);
    }
    forall i, j | 0 <= i < j < |lift| ensures Sum(lengths, i) < Sum(lengths, j) {
      SumGrows(lengths, i, j);
    }
    var last := |lift| - 1;
    if lift[0].address + Sum(lengths, last) < TWO64 {
      assert Increasing(lift);
    } else {
      var w := FirstWrapped(lift, lengths);
      assert WrapsAt(lift, w);
      assert lift[last].address < lift[0].address;
    }
  }

  lemma FirstWrapped(lift: seq<Insn>, lengths: seq<nat>) returns (w: nat)
    requires IsChain(lift, lengths) && lift[0].address + Sum(lengths, |lift| - 1) >= TWO64
    ensures 0 < w < |lift| && lift[0].address + Sum(lengths, w) >= TWO64
    ensures forall i | 0 <= i < w :: lift[0].address + Sum(lengths, i) < TWO64
  {
    w := 0;
    while lift[0].address + Sum(lengths, w) < TWO64
      invariant w < |lift| && forall i | 0 <= i < w :: lift[0].address + Sum(lengths, i) < TWO64
      decreases |lift| - w
    {
      w := w + 1;
    }
  }

  // ---- the blocks of one that wraps

  lemma WrapDistinct(lift: seq<Insn>, w: nat)
    requires WrapsAt(lift, w)
    ensures DistinctAddresses(lift)
  {
    forall i, j | 0 <= i < j < |lift| ensures lift[i].address != lift[j].address {
      assert i > 0 && i < w ==> lift[0].address < lift[i].address;
    }
  }

  lemma KeyedStart(cfg: Cfg, lift: seq<Insn>, external: set<nat>, inBody: nat -> bool, b: nat)
    requires IsKeyed(cfg, lift, external, inBody) && b < |cfg.startAddr|
    ensures cfg.start[b] < |lift| && lift[cfg.start[b]].address == cfg.startAddr[b]
    ensures cfg.ends[b] == Upto(lift, cfg.start[b], Limit(cfg.startAddr, b))
  {
    assert BlockKeyed(cfg, lift, b);
  }

  /** The addresses from the first one on are those before the wrap. */
  lemma Side(lift: seq<Insn>, w: nat, i: nat)
    requires WrapsAt(lift, w) && i < |lift|
    ensures i < w <==> lift[i].address >= lift[0].address
  {
  }

  /** Where the blocks start: before the wrap exactly those from the entry on. */
  lemma StartSide(cfg: Cfg, lift: seq<Insn>, external: set<nat>, inBody: nat -> bool, w: nat, b: nat)
    requires IsKeyed(cfg, lift, external, inBody) && WrapsAt(lift, w) && b < |cfg.startAddr|
    ensures cfg.start[b] < |lift| && lift[cfg.start[b]].address == cfg.startAddr[b] && (cfg.start[b] < w <==> b >= cfg.entry)
  {
    KeyedStart(cfg, lift, external, inBody, b);
    Side(lift, w, cfg.start[b]);
    AscendsIff(cfg.startAddr, cfg.entry, b);
  }

  lemma AscendsIff(a: seq<nat>, i: nat, j: nat)
    requires Ascends(a) && i < |a| && j < |a|
    ensures a[i] <= a[j] <==> i <= j
  {
  }

  /** Blocks start in the order of their addresses on each side of the wrap. */
  lemma SideOrder(lift: seq<Insn>, w: nat, i: nat, j: nat)
    requires WrapsAt(lift, w) && i < |lift| && j < |lift| && (i < w <==> j < w) && lift[i].address < lift[j].address
    ensures i < j
  {
  }

  /** A block ends where the next one starts, but for the last on each side, which goes on to the
      end of the lift. */
  lemma BlockEnds(cfg: Cfg, lift: seq<Insn>, external: set<nat>, inBody: nat -> bool, w: nat, b: nat)
    requires IsKeyed(cfg, lift, external, inBody) && WrapsAt(lift, w) && BelowLast(lift) && b < |cfg.startAddr|
    ensures cfg.ends[b] == if b + 1 < |cfg.startAddr| && b + 1 != cfg.entry then cfg.start[b + 1] else |lift|
    ensures cfg.start[b] < cfg.ends[b]
  {
    KeyedStart(cfg, lift, external, inBody, b);
    StartSide(cfg, lift, external, inBody, w, b);
    if b + 1 < |cfg.startAddr| && b + 1 != cfg.entry {
      StartSide(cfg, lift, external, inBody, w, b + 1);
      NextOnSide(lift, w, cfg.start[b], cfg.start[b + 1]);
    } else {
      LastOnSide(lift, w, cfg.start[b], Limit(cfg.startAddr, b));
    }
  }

  lemma NextOnSide(lift: seq<Insn>, w: nat, i: nat, j: nat)
    requires WrapsAt(lift, w) && i < |lift| && j < |lift| && (i < w <==> j < w) && lift[i].address < lift[j].address
    ensures i < j && Upto(lift, i, lift[j].address) == j
  {
    SideOrder(lift, w, i, j);
    UptoIs(lift, i, lift[j].address, j);
  }

  lemma LastOnSide(lift: seq<Insn>, w: nat, i: nat, limit: nat)
    requires WrapsAt(lift, w) && BelowLast(lift) && i < |lift| && (limit == U64_MAX || (limit == lift[0].address && w <= i))
    ensures Upto(lift, i, limit) == |lift|
  {
    UptoIs(lift, i, limit, |lift|);
  }

  /** Code runs from the end of each block into the start of the next, or out of the lift. */
  lemma WrapIsTiled<S, T>(p: Problem<S, T>, external: set<nat>, inBody: nat -> bool, w: nat)
    requires p.Valid() && IsKeyed(p.cfg, p.insns, external, inBody) && WrapsAt(p.insns, w) && BelowLast(p.insns)
    ensures Tiled(p)
  {
    forall b | 0 <= b < p.Count() ensures FlowsOn(p, b) {
      BlockEnds(p.cfg, p.insns, external, inBody, w, b);
      if b + 1 < p.Count() { StartSide(p.cfg, p.insns, external, inBody, w, b + 1); }
    }
  }

  /** An instruction before the wrap is in one block. */
  lemma BeforeWrapInOne<S, T>(p: Problem<S, T>, external: set<nat>, inBody: nat -> bool, w: nat, a: nat)
    requires p.Valid() && IsKeyed(p.cfg, p.insns, external, inBody) && WrapsAt(p.insns, w) && BelowLast(p.insns)
    requires a >= p.insns[0].address
    ensures InOneBlock(p, a)
  {
    forall b, c, i: nat | 0 <= b < p.Count() && 0 <= c < p.Count() && InBlock(p, b, i) && InBlock(p, c, i) && i < |p.insns| && p.insns[i].address == a
      ensures b == c
    {
      assert i < w;
      NotInBoth(p, external, inBody, w, b, c, i);
      NotInBoth(p, external, inBody, w, c, b, i);
    }
  }

  lemma NotInBoth<S, T>(p: Problem<S, T>, external: set<nat>, inBody: nat -> bool, w: nat, b: nat, c: nat, i: nat)
    requires p.Valid() && IsKeyed(p.cfg, p.insns, external, inBody) && WrapsAt(p.insns, w) && BelowLast(p.insns)
    requires b < p.Count() && c < p.Count() && InBlock(p, b, i) && InBlock(p, c, i) && i < w
    ensures c <= b
  {
    StartSide(p.cfg, p.insns, external, inBody, w, b);
    if b < c { EndsByNext(p, external, inBody, w, b, c); }
  }

  lemma EndsByNext<S, T>(p: Problem<S, T>, external: set<nat>, inBody: nat -> bool, w: nat, b: nat, c: nat)
    requires p.Valid() && IsKeyed(p.cfg, p.insns, external, inBody) && WrapsAt(p.insns, w) && BelowLast(p.insns)
    requires p.cfg.entry <= b < c < p.Count()
    ensures p.End(b) <= p.cfg.start[c]
  {
    BlockEnds(p.cfg, p.insns, external, inBody, w, b);
    StartSide(p.cfg, p.insns, external, inBody, w, b + 1);
    StartSide(p.cfg, p.insns, external, inBody, w, c);
    AscendsIff(p.cfg.startAddr, c, b + 1);
    if b + 1 < c { SideOrder(p.insns, w, p.cfg.start[b + 1], p.cfg.start[c]); }
  }

  /** Every jump into the lift goes to the start of a block. */
  lemma KeyedTargets<S, T>(p: Problem<S, T>, external: set<nat>, inBody: nat -> bool)
    requires IsKeyed(p.cfg, p.insns, external, inBody)
    ensures TargetsStartBlocks(p)
  {
    var lift := p.insns;
    forall i, k, j | 0 <= i < |lift| && 0 <= k < |lift[i].ops| && 0 <= j < |lift|
        && IsJump(lift[i].ops[k]) && Target(lift[i].ops[k]) == Some(lift[j].address)
      ensures lift[j].address in p.cfg.startAddr
    {
      TargetsHold(lift[i].ops, k);
      TargetsInHold(lift, 0, |lift|, i, lift[j].address);
      assert IsStart(lift, external, j);
      assert lift[j].address in StartAddrs(lift, external);
    }
  }
}
