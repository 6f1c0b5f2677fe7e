/**
 The instructions of a function in the order walked, packed: runs of chained instructions as a
 first address and a byte for each length. And the body they make.
 */
module BodyInsns {
  import opened Numbers
  import opened Pcode

  /** The address and length of an instruction. */
  type Place = (nat, nat)

  /** The instruction starts where the one before ends. */
  predicate Chains(before: Place, after: Place) {
    before.1 > 0 && before.0 + before.1 == after.0
  }

  /** Where a run starts among the places `all`. */
  ghost predicate RunStart(runs: seq<(nat, nat)>, i: nat) {
    exists k :: 0 <= k < |runs| && runs[k].1 == i
  }

  /** `runs` and `lens` pack `all`. */
  ghost predicate Packs(runs: seq<(nat, nat)>, lens: seq<nat>, all: seq<Place>) {
    && |lens| == |all| && (forall i | 0 <= i < |all| :: all[i].1 == lens[i] < 256)
    && (|runs| == 0 <==> |all| == 0) && (|runs| > 0 ==> runs[0].1 == 0)
    && (forall k | 0 <= k < |runs| :: runs[k].1 < |all| && all[runs[k].1].0 == runs[k].0)
    && (forall k, l | 0 <= k < l < |runs| :: runs[k].1 < runs[l].1)
    && (forall i | 0 < i < |all| :: RunStart(runs, i) || ChainAt(all, i))
  }

  ghost predicate ChainAt(all: seq<Place>, i: nat) {
    0 < i < |all| && Chains(all[i - 1], all[i])
  }

  function Stop(runs: seq<(nat, nat)>, n: nat, k: nat): nat
    requires k < |runs|
  {
    if k + 1 < |runs| then runs[k + 1].1 else n
  }

  /** Inside a run no other starts. */
  lemma InsideRun(runs: seq<(nat, nat)>, lens: seq<nat>, all: seq<Place>, k: nat, i: nat)
    requires Packs(runs, lens, all) && k < |runs| && runs[k].1 < i < Stop(runs, |all|, k) && i < |all|
    ensures Chains(all[i - 1], all[i])
  {
    forall l | 0 <= l < |runs| ensures runs[l].1 != i {
      assert k + 1 < l ==> runs[k + 1].1 < runs[l].1;
    }
    assert !RunStart(runs, i);
    assert RunStart(runs, i) || ChainAt(all, i);
  }

  /** Where the last instruction ends, if one can chain to it. */
  function EndOf(all: seq<Place>): Option<nat> {
    if all != [] && all[|all| - 1].1 > 0 && all[|all| - 1].0 + all[|all| - 1].1 < TWO64
    then Some(all[|all| - 1].0 + all[|all| - 1].1) else None
  }

  class Body {
    var runs: seq<(nat, nat)>
    var lens: seq<nat>
    var wide: Option<seq<Place>>
    var end: Option<nat>
    ghost var all: seq<Place>

    ghost predicate Valid()
      reads this
    {
      && (forall i | 0 <= i < |all| :: all[i].0 < TWO64)
      && if wide.Some? then wide.value == all else Packs(runs, lens, all) && end == EndOf(all)
    }

    constructor ()
      ensures Valid() && all == []
    {
      runs, lens, wide, end, all := [], [], None, None, [];
    }

    method Push(addr: nat, length: nat)
      requires Valid() && addr < TWO64
      modifies this
      ensures Valid() && all == old(all) + [(addr, length)]
    {
      if length < 256 && wide.None? {
        ghost var before := runs;
        if end != Some(addr) {
          runs := runs + [(addr, |lens|)];
        }
        PushPacks(before, lens, all, addr, length, end == Some(addr));
        lens := lens + [length];
        end := if length > 0 && addr + length < TWO64 then Some(addr + length) else None;
        all := all + [(addr, length)];
      } else {
        var w;
        if wide.Some? { w := wide.value; } else { w := Unpack(runs, lens, all); }
        runs, lens, wide := [], [], Some(w + [(addr, length)]);
        all := all + [(addr, length)];
      }
    }

    /** What was pushed, in order. */
    method IntoVec() returns (r: seq<Place>)
      requires Valid()
      ensures r == all
    {
      if wide.Some? { r := wide.value; } else { r := Unpack(runs, lens, all); }
    }
  }

  lemma PushPacks(runs: seq<(nat, nat)>, lens: seq<nat>, all: seq<Place>, addr: nat, length: nat, chained: bool)
    requires Packs(runs, lens, all) && length < 256
    requires chained ==> all != [] && Chains(all[|all| - 1], (addr, length))
    ensures Packs(if chained then runs else runs + [(addr, |lens|)], lens + [length], all + [(addr, length)])
  {
    var more := all + [(addr, length)];
    if chained {
      forall i | 0 < i < |more| ensures RunStart(runs, i) || ChainAt(more, i) {
        assert i < |all| ==> RunStart(runs, i) || ChainAt(all, i);
      }
    } else {
      StartsRun(runs, lens, all, addr, length);
    }
  }

  lemma StartsRun(runs: seq<(nat, nat)>, lens: seq<nat>, all: seq<Place>, addr: nat, length: nat)
    requires Packs(runs, lens, all) && length < 256
    ensures Packs(runs + [(addr, |lens|)], lens + [length], all + [(addr, length)])
  {
    var rs, more := runs + [(addr, |lens|)], all + [(addr, length)];
    assert rs[|runs|].1 == |all|;
    forall i | 0 < i < |more| ensures RunStart(rs, i) || ChainAt(more, i) {
      if i < |all| {
        assert RunStart(runs, i) || ChainAt(all, i);
        if k :| 0 <= k < |runs| && runs[k].1 == i {
          assert rs[k].1 == i;
        }
      }
    }
  }

  /** The instructions of run `k`. */
  method UnpackRun(runs: seq<(nat, nat)>, lens: seq<nat>, k: nat, ghost all: seq<Place>) returns (r: seq<Place>)
    requires Packs(runs, lens, all) && k < |runs| && forall i | 0 <= i < |all| :: all[i].0 < TWO64
    ensures runs[k].1 <= Stop(runs, |all|, k) <= |all| && r == all[runs[k].1..Stop(runs, |all|, k)]
  {
    var i, stop, a := runs[k].1, Stop(runs, |lens|, k), runs[k].0;
    r := [];
    while i < stop
      invariant runs[k].1 <= i <= stop <= |all| && r == all[runs[k].1..i]
      invariant i < stop ==> a == all[i].0
    {
      r := r + [(a, lens[i])];
      if i + 1 < stop { InsideRun(runs, lens, all, k, i + 1); }
      a := (a + lens[i]) % TWO64;
      i := i + 1;
    }
  }

  method Unpack(runs: seq<(nat, nat)>, lens: seq<nat>, ghost all: seq<Place>) returns (r: seq<Place>)
    requires Packs(runs, lens, all) && forall i | 0 <= i < |all| :: all[i].0 < TWO64
    ensures r == all
  {
    r := [];
    var k := 0;
    while k < |runs|
      invariant 0 <= k <= |runs|
      invariant r == all[..if k < |runs| then runs[k].1 else |all|]
    {
      var more := UnpackRun(runs, lens, k, all);
      r := r + more;
      k := k + 1;
    }
  }
}
