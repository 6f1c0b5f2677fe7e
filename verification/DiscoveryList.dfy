/**
 A discovery run from its entries, and the instructions it lists: those the walk decoded and
 those it read of the other threads'.
 */
module DiscoveryList {
  import opened Pcode
  import opened DiscoveryWalk
  import opened DiscoveryAhead
  import opened DiscoveryThreads
  import opened DiscoveryRun
  import opened DiscoveryMeaning

  /** What was there listed and the instructions at `addrs`, each as decoding gives it. */
  ghost function ListedWith(decode: Decoder, listed: set<nat>, addrs: set<nat>): map<nat, Facts> {
    map a | a in listed + addrs && decode(a).Some? :: decode(a).value
  }

  // ---- handing over what was read

  /** The instructions at the places read of one thread's code. */
  method TakeRuns(decode: Decoder, list: seq<Spec>, runs: seq<(nat, nat, nat)>) returns (m: map<nat, Facts>)
    requires forall i | 0 <= i < |list| :: TrueInsns(decode, list[i].insns)
    requires forall i: nat, at: nat | InRuns(runs, i, at) :: i < |list| && at < |list[i].insns|
    ensures forall a | a in m :: decode(a) == Some(m[a]) && exists i: nat, at: nat :: InRuns(runs, i, at) && list[i].insns[at].addr == a
    ensures forall i: nat, at: nat | InRuns(runs, i, at) :: list[i].insns[at].addr in m
  {
    m := map[];
    var k := 0;
    while k < |runs|
      invariant 0 <= k <= |runs|
      invariant forall a | a in m :: decode(a) == Some(m[a]) && TakenFrom(list, runs, k, a)
      invariant forall l, at: nat | 0 <= l < k && InRun(runs[l], runs[l].0, at) :: InList(list, runs[l].0, at) && list[runs[l].0].insns[at].addr in m
    {
      m := TakeRun(decode, list, runs, k, m);
      k := k + 1;
    }
    forall a | a in m ensures exists i: nat, at: nat :: InRuns(runs, i, at) && list[i].insns[at].addr == a {
      assert TakenFrom(list, runs, k, a);
      var l, at: nat :| 0 <= l < |runs| && InRun(runs[l], runs[l].0, at) && InList(list, runs[l].0, at) && list[runs[l].0].insns[at].addr == a;
      assert InRuns(runs, runs[l].0, at);
    }
    forall i: nat, at: nat | InRuns(runs, i, at) ensures list[i].insns[at].addr in m {
      var l :| 0 <= l < |runs| && InRun(runs[l], i, at);
      assert InRun(runs[l], runs[l].0, at);
    }
  }

  ghost predicate InList(list: seq<Spec>, i: nat, at: nat) {
    i < |list| && at < |list[i].insns|
  }

  ghost predicate TakenFrom(list: seq<Spec>, runs: seq<(nat, nat, nat)>, k: nat, a: nat) {
    exists l, at: nat :: 0 <= l < k && l < |runs| && InRun(runs[l], runs[l].0, at) && InList(list, runs[l].0, at) && list[runs[l].0].insns[at].addr == a
  }

  method TakeRun(decode: Decoder, list: seq<Spec>, runs: seq<(nat, nat, nat)>, k: nat, m: map<nat, Facts>) returns (r: map<nat, Facts>)
    requires k < |runs| && forall i | 0 <= i < |list| :: TrueInsns(decode, list[i].insns)
    requires forall i: nat, at: nat | InRuns(runs, i, at) :: i < |list| && at < |list[i].insns|
    requires forall a | a in m :: decode(a) == Some(m[a]) && TakenFrom(list, runs, k, a)
    ensures forall a | a in r :: decode(a) == Some(r[a]) && TakenFrom(list, runs, k + 1, a)
    ensures forall at: nat | InRun(runs[k], runs[k].0, at) :: InList(list, runs[k].0, at) && list[runs[k].0].insns[at].addr in r
    ensures forall a | a in m :: a in r
  {
    r := m;
    var (code, first, n) := runs[k];
    var at := first;
    while at < first + n
      invariant first <= at <= first + n
      invariant forall a | a in r :: decode(a) == Some(r[a]) && TakenFrom(list, runs, k + 1, a)
      invariant forall t: nat | first <= t < at :: InList(list, code, t) && list[code].insns[t].addr in r
      invariant forall a | a in m :: a in r
    {
      assert InRun(runs[k], code, at);
      assert InRuns(runs, code, at);
      var d := list[code].insns[at];
      assert TrueInsn(decode, list[code].insns, at);
      r := r[d.addr := d.facts];
      assert TakenFrom(list, runs, k + 1, d.addr);
      at := at + 1;
    }
  }

  lemma RunsInLists(decode: Decoder, listed: set<nat>, lists: seq<seq<Spec>>, fetched: set<nat>, k: Kept, o: nat, i: nat, at: nat)
    requires KeptOk(decode, listed, lists, fetched, k) && o < |lists| && InRuns(k.taken[o], i, at)
    ensures i < |lists[o]| && at < |lists[o][i].insns| && lists[o][i].insns[at].addr in fetched
  {
    assert WasRead(k, o, i, at);
    assert ReadOk(lists, fetched, k, o, i, at);
  }

  /** What the walk read of each thread's code. */
  method TakeAll(decode: Decoder, ghost listed: set<nat>, lists: seq<seq<Spec>>, ghost fetched: set<nat>, k: Kept) returns (m: map<nat, Facts>)
    requires KeptOk(decode, listed, lists, fetched, k) && ListsTrue(decode, lists)
    ensures forall a | a in m :: decode(a) == Some(m[a]) && a in fetched
    ensures forall a | ReadAt(k, lists, a) :: a in m
  {
    m := map[];
    var o := 0;
    while o < |lists|
      invariant 0 <= o <= |lists|
      invariant forall a | a in m :: decode(a) == Some(m[a]) && a in fetched
      invariant forall p: nat, i: nat, at: nat | p < o && WasRead(k, p, i, at) :: AddressIn(lists, p, i, at, m)
    {
      forall i: nat, at: nat | InRuns(k.taken[o], i, at) ensures i < |lists[o]| && at < |lists[o][i].insns| && lists[o][i].insns[at].addr in fetched {
        RunsInLists(decode, listed, lists, fetched, k, o, i, at);
      }
      var more := TakeRuns(decode, lists[o], k.taken[o]);
      forall p: nat, i: nat, at: nat | p < o + 1 && WasRead(k, p, i, at) ensures AddressIn(lists, p, i, at, m + more) {
        if p < o { assert AddressIn(lists, p, i, at, m); }
      }
      m := m + more;
      o := o + 1;
    }
    forall a | ReadAt(k, lists, a) ensures a in m {
      var p: nat, i: nat, at: nat :| WasRead(k, p, i, at) && AddressAt(lists, p, i, at) == Some(a);
      assert AddressIn(lists, p, i, at, m);
    }
  }

  ghost predicate AddressIn(lists: seq<seq<Spec>>, o: nat, i: nat, at: nat, m: map<nat, Facts>) {
    var a := AddressAt(lists, o, i, at);
    a.Some? ==> a.value in m
  }

  /** The instructions to list: those there, the walk's own and those it read. */
  method ListAll(decode: Decoder, listing: map<nat, Facts>, lists: seq<seq<Spec>>, ghost fetched: set<nat>, k: Kept) returns (all: map<nat, Facts>)
    requires KeptOk(decode, listing.Keys, lists, fetched, k) && ListsTrue(decode, lists)
    requires forall a | a in listing :: decode(a) == Some(listing[a])
    ensures all == ListedWith(decode, listing.Keys, fetched)
  {
    var m := TakeAll(decode, listing.Keys, lists, fetched, k);
    all := m + k.own + listing;
    forall a | a in all ensures decode(a) == Some(all[a]) && a in listing.Keys + fetched {
      if a in k.own { assert OwnOk(decode, listing.Keys, fetched, k, a); }
    }
    forall a | a in listing.Keys + fetched ensures a in all {
    }
    assert all.Keys == ListedWith(decode, listing.Keys, fetched).Keys;
  }

  // ---- the run

  /** The next entry. */
  method NextEntry(decode: Decoder, max: nat, ghost listed: set<nat>, ghost lists: seq<seq<Spec>>, schedule: nat -> map<nat, Spec>, clock0: nat, r0: Run, k0: Kept)
    returns (r: Run, k: Kept, clock: nat)
    requires DecoderOk(decode) && InLimit(r0.queue) && !Finished(r0) && ScheduleOk(decode, lists, schedule)
    requires KeptOk(decode, listed, lists, AllAddresses(r0.bodies), k0)
    ensures InLimit(r.queue) && Discovered(decode, max, r) == Discovered(decode, max, r0)
    ensures KeptOk(decode, listed, lists, AllAddresses(r.bodies), k)
    ensures |Left(r.visited)| < |Left(r0.visited)| || (|Left(r.visited)| == |Left(r0.visited)| && |r.queue| < |r0.queue|)
  {
    var entry, rest := r0.queue[0], r0.(queue := r0.queue[1..]);
    r, k, clock := rest, k0, clock0;
    if !Skipped(r0, entry) {
      AddFoundFacts(decode, max, rest, entry);
      var w;
      w, k, clock := Disassemble(decode, max, listed, lists, schedule, clock, AllAddresses(r0.bodies), entry, rest.visited, rest.refs, k);
      r := AddFound(rest, entry, w);
      EntryAdded(rest, entry, w);
    }
  }

  lemma EntryAdded(r: Run, entry: nat, w: Walk)
    ensures AllAddresses(AddFound(r, entry, w).bodies) == AllAddresses(r.bodies) + Addresses(w.body)
  {
    if w.body == [] {
      assert Addresses(w.body) == {};
    } else {
      OneMoreBody(r.bodies, (entry, w.body, Ascending(w.calls)));
    }
  }

  /** The run with other threads decoding ahead: the functions, bodies, calls and references
      of the walk by one thread, and the instructions walked listed, whatever the threads had
      done at each read. */
  method Discover(decode: Decoder, max: nat, listing: map<nat, Facts>, lists: seq<seq<Spec>>, schedule: nat -> map<nat, Spec>, r0: Run)
    returns (r: Run, listed: map<nat, Facts>)
    requires DecoderOk(decode) && InLimit(r0.queue) && r0.bodies == []
    requires ScheduleOk(decode, lists, schedule) && ListsTrue(decode, lists)
    requires forall a | a in listing :: decode(a) == Some(listing[a])
    ensures r == Discovered(decode, max, r0) && IsDiscovery(decode, max, r0, r)
    ensures listed == ListedWith(decode, listing.Keys, AllAddresses(r.bodies))
  {
    var k, clock := Kept(listing.Keys, map[], seq(|lists|, _ => [])), 0;
    NothingKept(decode, listing.Keys, lists, k);
    r := r0;
    while !Finished(r)
      invariant InLimit(r.queue) && Discovered(decode, max, r) == Discovered(decode, max, r0)
      invariant KeptOk(decode, listing.Keys, lists, AllAddresses(r.bodies), k)
      decreases |Left(r.visited)|, |r.queue|
    {
      r, k, clock := NextEntry(decode, max, listing.Keys, lists, schedule, clock, r, k);
    }
    DiscoveredMeans(decode, max, r0);
    listed := ListAll(decode, listing, lists, AllAddresses(r.bodies), k);
  }

  lemma NothingKept(decode: Decoder, listed: set<nat>, lists: seq<seq<Spec>>, k: Kept)
    requires k == Kept(listed, map[], seq(|lists|, _ => []))
    ensures KeptOk(decode, listed, lists, {}, k)
  {
    forall o: nat, i: nat, at: nat ensures ReadOk(lists, {}, k, o, i, at) {
    }
  }

  // ---- every interleaving

  /** What is done at the walk's reads, made after `at(0)`, `at(1)`, ... of the moves. */
  function DoneAt(states: seq<Shared>, at: nat -> nat): nat -> map<nat, Spec> {
    (n: nat) => if at(n) < |states| then states[at(n)].done else map[]
  }

  /** The run while threads decode ahead of it, however their moves and the walk's reads
      interleave: what the walk by one thread gives. */
  method DiscoverInterleaved(decode: Decoder, max: nat, listing: map<nat, Facts>, view: View, threads: nat, seeds: seq<nat>, moves: seq<Move>, at: nat -> nat, r0: Run)
    returns (r: Run, listed: map<nat, Facts>)
    requires DecoderOk(decode) && InLimit(r0.queue) && r0.bodies == [] && InLimit(seeds) && MovesInLimit(moves)
    requires forall a | a in listing :: decode(a) == Some(listing[a])
    ensures r == Discovered(decode, max, r0) && IsDiscovery(decode, max, r0, r)
    ensures listed == ListedWith(decode, listing.Keys, AllAddresses(r.bodies))
  {
    var states := RunThreads(decode, view, threads, seeds, moves);
    var lists := states[|moves|].lists;
    forall n: nat ensures Published(decode, DoneAt(states, at)(n), lists) {
      if at(n) < |states| {
        assert Sound(decode, states[at(n)]) && Sound(decode, states[|moves|]) && Extends(states[at(n)], states[|moves|]);
        GrownPublished(decode, states[at(n)].done, states[at(n)].lists, lists);
      }
    }
    r, listed := Discover(decode, max, listing, lists, DoneAt(states, at), r0);
  }
}
