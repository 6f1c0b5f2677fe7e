/**
 Of which lifts the constants hold, by their addresses alone: of every lift with given addresses,
 a chain, they hold exactly when the addresses increase or none is the last address.
 */
module ChainConstants {
  import opened Numbers
  import opened Pcode
  import opened Functions
  import opened SortedNats
  import opened CfgConst
  import opened BlockFlow
  import opened BlockFlowRun
  import opened BlockFlowSound
  import opened BlockFlowSnaps
  import opened BlockFlowBuild
  import opened BlockFlowMarks
  import opened BlockFlowOwned
  import opened BlockFlowLegacy
  import opened BlockFlowKeyed
  import opened BlockFlowKeyedLoop
  import opened BlockFlowWrap
  import opened BlockFlowEntries
  import opened CallConstants

  // ---- there are blocks keyed by address

  lemma {:induction false} SortedExists(s: set<nat>) returns (a: seq<nat>)
    ensures Ascends(a) && forall x: nat :: x in a <==> x in s
    decreases |s|
  {
    if s == {} {
      a := [];
    } else {
      var m := GreatestOf(s);
      a := SortedExists(s - {m});
      assert forall i | 0 <= i < |a| :: a[i] in a;
      a := a + [m];
    }
  }

  lemma {:induction false} GreatestOf(s: set<nat>) returns (m: nat)
    requires s != {}
    ensures m in s && forall x | x in s :: x <= m
    decreases |s|
  {
    var x :| x in s;
    m := x;
    if s - {x} != {} {
      var n := GreatestOf(s - {x});
      m := if n > x then n else x;
    }
    forall y | y in s ensures y <= m {
      assert y == x || y in s - {x};
    }
  }

  /** The last of the first `n` instructions at the address `a`. */
  ghost function LastIndex(lift: seq<Insn>, a: nat, n: nat): (i: nat)
    requires n <= |lift| && exists j :: 0 <= j < n && lift[j].address == a
    ensures i < n && lift[i].address == a && forall j | i < j < n :: lift[j].address != a
  {
    if lift[n - 1].address == a then n - 1 else LastIndex(lift, a, n - 1)
  }

  lemma KeyedExists(lift: seq<Insn>, external: set<nat>, inBody: nat -> bool) returns (cfg: Cfg)
    requires lift != []
    ensures IsKeyed(cfg, lift, external, inBody)
  {
    var addrs := set i: nat | i < |lift| :: lift[i].address;
    var index := map a | a in addrs :: LastIndex(lift, a, |lift|);
    var starts := SortedExists(StartAddrs(lift, external));
    assert IsStart(lift, external, 0);
    assert lift[0].address in starts;
    var entry: nat :| entry < |starts| && starts[entry] == lift[0].address;
    KeyedCfgIsKeyed(lift, external, inBody, starts, index, entry);
    cfg := KeyedCfg(lift, external, inBody, starts, index, entry);
  }

  // ---- nothing is recorded at the last address

  lemma {:induction false} UptoBelow(lift: seq<Insn>, i: nat, limit: nat, j: nat)
    requires i <= |lift| && i <= j < Upto(lift, i, limit)
    ensures lift[j].address < limit
    decreases j - i
  {
    if i < j { UptoBelow(lift, i + 1, limit, j); }
  }

  lemma NoneAtLast<S, T>(p: Problem<S, T>, external: set<nat>, inBody: nat -> bool)
    requires p.Valid() && IsKeyed(p.cfg, p.insns, external, inBody) && Addressed(p.insns)
    ensures Inv(p, Initial(p)) && LastAt(Run(p, Initial(p)).snaps, U64_MAX) == None
  {
    var below := (a: nat) => a < U64_MAX;
    forall b, i: nat | 0 <= b < p.Count() && InBlock(p, b, i) ensures WantedAt(p, below, i) {
      assert BlockKeyed(p.cfg, p.insns, b);
      UptoBelow(p.insns, p.cfg.start[b], Limit(p.cfg.startAddr, b), i);
      LimitInRange(p, external, inBody, b);
    }
    RunRecordsAt(p, below);
    NoLastAt(Run(p, Initial(p)).snaps, below, U64_MAX);
  }

  lemma LimitInRange<S, T>(p: Problem<S, T>, external: set<nat>, inBody: nat -> bool, b: nat)
    requires p.Valid() && IsKeyed(p.cfg, p.insns, external, inBody) && Addressed(p.insns) && b < p.Count()
    ensures Limit(p.cfg.startAddr, b) <= U64_MAX
  {
    if b + 1 < p.Count() { assert BlockKeyed(p.cfg, p.insns, b + 1); }
  }

  lemma {:induction false} NoLastAt<T>(snaps: seq<(nat, T)>, at: nat -> bool, a: nat)
    requires AllAt(snaps, at) && !at(a)
    ensures LastAt(snaps, a) == None
  {
    if snaps != [] { NoLastAt(snaps[..|snaps| - 1], at, a); }
  }

  // ---- lifts by their addresses

  ghost predicate HasAddresses(lift: seq<Insn>, addrs: seq<nat>) {
    |lift| == |addrs| && forall i | 0 <= i < |lift| :: lift[i].address == addrs[i]
  }

  /** Of every function with a lift at these addresses, whatever it does and owns, what is merged
      holds. */
  ghost predicate AlwaysHold(addrs: seq<nat>) {
    forall f: Function, p: ConstProblem, before: AtCalls, out: AtCalls |
      IsFunction(f) && HasAddresses(f.lift, addrs) && IsMerged(f, p, before, out) :: Holds(f, out)
  }

  const CALL := PcodeOp(Call, None, [])

  predicate Nowhere(a: nat) { false }

  /** A lift at the addresses that does nothing but a call in instruction `h`. */
  function OneCall(addrs: seq<nat>, h: nat): (lift: seq<Insn>)
    ensures |lift| == |addrs|
    ensures forall i | 0 <= i < |lift| :: lift[i] == Insn(addrs[i], if i == h then [CALL] else [])
  {
    seq(|addrs|, i requires 0 <= i < |addrs| => Insn(addrs[i], if i == h then [CALL] else []))
  }

  function CallOf(addrs: seq<nat>, h: nat): Function
    requires addrs != []
  {
    Function(addrs[0], OneCall(addrs, h), [], Nowhere, a => a >= addrs[0])
  }

  /** Straight on from the entry to instruction `h`. */
  function Straight(m: Machine, h: nat): (run: seq<Point<Machine>>)
    ensures |run| == h + 1 && forall j | 0 <= j <= h :: run[j] == Point(j, 0, m)
  {
    seq(h + 1, j requires 0 <= j < h + 1 => Point(j, 0, m))
  }

  lemma StraightIsRun(f: Function, addrs: seq<nat>, h: nat, m: Machine)
    requires h < |addrs| && f == CallOf(addrs, h)
    ensures IsRunOf(f, Straight(m, h))
  {
    var run := Straight(m, h);
    forall j | 0 <= j < |run| - 1 ensures Steps(f.lift, ConstMeaning(), run[j], run[j + 1]) {
    }
  }

  /** What is merged of a lift that does not increase has nothing at the last address. */
  lemma MissedAtLast(f: Function) returns (p: ConstProblem, out: AtCalls)
    requires f.lift != [] && !Increasing(f.lift) && Addressed(f.lift)
    ensures IsMerged(f, p, map[], out) && U64_MAX !in out
  {
    var external := ToSet(f.external);
    var cfg := KeyedExists(f.lift, external, f.inBody);
    p := Problem(ConstFlow(), f.lift, cfg, Always);
    KeyedIsValid(p, external, f.inBody);
    NoneAtLast(p, external, f.inBody);
    out := Merged(map[], Retained(Run(p, Initial(p)).snaps, f.owns));
    NotMerged(Run(p, Initial(p)).snaps, f.owns);
  }

  /** The last address is not below the others. */
  lemma CallAtLast(addrs: seq<nat>, w: nat, h: nat)
    requires WrapsAt(OneCall(addrs, h), w) && h < |addrs| && addrs[h] == U64_MAX && forall i | 0 <= i < |addrs| :: addrs[i] <= U64_MAX
    ensures var f := CallOf(addrs, h);
      IsFunction(f) && HasAddresses(f.lift, addrs) && f.lift != [] && !Increasing(f.lift) && Addressed(f.lift) && addrs[0] <= addrs[h]
  {
    var lift := OneCall(addrs, h);
    assert lift[0].address > lift[w].address;
  }

  /** A call at the last address of a lift that wraps is reached, and has no constants. */
  lemma LastIsMissed(addrs: seq<nat>, w: nat, h: nat)
    requires WrapsAt(OneCall(addrs, h), w) && h < |addrs| && addrs[h] == U64_MAX && forall i | 0 <= i < |addrs| :: addrs[i] <= U64_MAX
    ensures !AlwaysHold(addrs)
  {
    CallAtLast(addrs, w, h);
    var f := CallOf(addrs, h);
    var p, out := MissedAtLast(f);
    ReachedNotHeld(f, addrs, h, out);
  }

  lemma NotMerged(snaps: Snaps, owns: nat -> bool)
    requires LastAt(snaps, U64_MAX) == None
    ensures U64_MAX !in Merged(map[], Retained(snaps, owns))
  {
    RetainedAt(snaps, owns, U64_MAX);
    MergedIsInLast(map[], Retained(snaps, owns), U64_MAX);
  }

  lemma ReachedNotHeld(f: Function, addrs: seq<nat>, h: nat, out: AtCalls)
    requires h < |addrs| && f == CallOf(addrs, h) && addrs[h] >= addrs[0] && addrs[h] !in out
    ensures !Holds(f, out)
  {
    var m := Machine(o => 0, (s, o) => 0);
    var run := Straight(m, h);
    StraightIsRun(f, addrs, h, m);
    assert IsLastCall(f.lift[h], 0);
    assert ReachesCall(f, run, h);
    assert !HoldsAt(out, f.lift[run[h].i].address, 0, run[h].c);
  }

  lemma OrderHolds(addrs: seq<nat>, lift: seq<Insn>)
    requires addrs != [] && InOrder(lift) && HasAddresses(lift, addrs)
    ensures AlwaysHold(addrs)
  {
    forall f: Function, p: ConstProblem, before: AtCalls, out: AtCalls |
      IsFunction(f) && HasAddresses(f.lift, addrs) && IsMerged(f, p, before, out) ensures Holds(f, out)
    {
      SameOrder(lift, f.lift);
      MergedHolds(f, p, before, out);
    }
  }

  lemma DisorderFails(addrs: seq<nat>, lengths: seq<nat>)
    requires IsChain(OneCall(addrs, 0), lengths) && !InOrder(OneCall(addrs, 0))
    ensures !AlwaysHold(addrs)
  {
    var lift := OneCall(addrs, 0);
    ChainOrder(lift, lengths);
    ChainInRange(lift, lengths);
    var w :| WrapsAt(lift, w);
    var h: nat :| h < |lift| && lift[h].address >= U64_MAX;
    assert lift[h].address == U64_MAX;
    SameWrap(lift, OneCall(addrs, h), w);
    LastIsMissed(addrs, w, h);
  }

  lemma SameWrap(lift: seq<Insn>, other: seq<Insn>, w: nat)
    requires WrapsAt(lift, w) && |lift| == |other| && forall i | 0 <= i < |lift| :: lift[i].address == other[i].address
    ensures WrapsAt(other, w)
  {
  }

  /** The addresses increase, or none is the last address. */
  ghost predicate SafeAddresses(addrs: seq<nat>) {
    Ascends(addrs) || forall i | 0 <= i < |addrs| :: addrs[i] < U64_MAX
  }

  lemma SafeIsOrder(addrs: seq<nat>, lengths: seq<nat>)
    requires IsChain(OneCall(addrs, 0), lengths)
    ensures InOrder(OneCall(addrs, 0)) <==> SafeAddresses(addrs)
  {
    var lift := OneCall(addrs, 0);
    ChainOrder(lift, lengths);
    assert forall i | 0 <= i < |lift| :: lift[i].address == addrs[i];
    assert Increasing(lift) <==> Ascends(addrs);
    assert BelowLast(lift) <==> forall i | 0 <= i < |addrs| :: addrs[i] < U64_MAX;
  }

  /** What is merged of the lifts at the addresses of a chain holds, whatever they do, exactly when
      the addresses increase or none of them is the last address. */
  lemma ChainHoldsIff(addrs: seq<nat>, lengths: seq<nat>)
    requires IsChain(OneCall(addrs, 0), lengths)
    ensures AlwaysHold(addrs) <==> SafeAddresses(addrs)
  {
    SafeIsOrder(addrs, lengths);
    if InOrder(OneCall(addrs, 0)) { OrderHolds(addrs, OneCall(addrs, 0)); } else { DisorderFails(addrs, lengths); }
  }

  lemma ChainInRange(lift: seq<Insn>, lengths: seq<nat>)
    requires IsChain(lift, lengths)
    ensures Addressed(lift)
  {
    forall i | 0 <= i < |lift| ensures lift[i].address <= U64_MAX {
      ChainAddress(lift, lengths, i);
    }
  }

  lemma SameOrder(lift: seq<Insn>, other: seq<Insn>)
    requires InOrder(lift) && |lift| == |other| && forall i | 0 <= i < |lift| :: lift[i].address == other[i].address
    ensures InOrder(other)
  {
    if !Increasing(lift) {
      var w :| WrapsAt(lift, w);
      SameWrap(lift, other, w);
    }
  }
}
