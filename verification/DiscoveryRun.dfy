/**
 The walk with other threads decoding ahead of it: it reads an instruction from what they have
 done when it is there, else decodes it, and finds what the walk by one thread does.
 */
module DiscoveryRun {
  import opened Pcode
  import opened DiscoveryWalk
  import opened DiscoveryAhead
  import opened DiscoveryMeaning

  /** Where the walk last found an instruction: the code, and the place after it. */
  type Hint = Option<(Spec, nat)>

  ghost predicate HintOk(decode: Decoder, lists: seq<seq<Spec>>, h: Hint) {
    h.Some? ==>
      var (s, i) := h.value;
      TrueInsns(decode, s.insns) && i <= |s.insns| && s.owner < |lists| && s.index < |lists[s.owner]| && lists[s.owner][s.index] == s
  }

  /** The instructions decoded by the walk itself and the places of those it read of the
      threads': runs of places of a thread's code (its index, the first, how many). */
  datatype Kept = Kept(marked: set<nat>, own: map<nat, Facts>, taken: seq<seq<(nat, nat, nat)>>)

  // ---- what was read of the threads' code

  ghost predicate InRun(run: (nat, nat, nat), index: nat, at: nat) {
    run.0 == index && run.1 <= at < run.1 + run.2
  }

  ghost predicate InRuns(runs: seq<(nat, nat, nat)>, index: nat, at: nat) {
    exists k :: 0 <= k < |runs| && InRun(runs[k], index, at)
  }

  /** A place read: the run before made longer when it goes on there. */
  method Mark(runs: seq<(nat, nat, nat)>, index: nat, at: nat) returns (r: seq<(nat, nat, nat)>)
    ensures forall i: nat, a: nat :: InRuns(r, i, a) <==> InRuns(runs, i, a) || (i == index && a == at)
  {
    if runs != [] && runs[|runs| - 1].0 == index && runs[|runs| - 1].1 + runs[|runs| - 1].2 == at {
      var k, last := |runs| - 1, runs[|runs| - 1];
      r := runs[k := (last.0, last.1, last.2 + 1)];
      forall i: nat, a: nat ensures InRuns(r, i, a) <==> InRuns(runs, i, a) || (i == index && a == at) {
        LongerRun(runs, index, at, i, a);
      }
    } else {
      r := runs + [(index, at, 1)];
      forall i: nat, a: nat ensures InRuns(r, i, a) <==> InRuns(runs, i, a) || (i == index && a == at) {
        NewRun(runs, index, at, i, a);
      }
    }
  }

  lemma LongerRun(runs: seq<(nat, nat, nat)>, index: nat, at: nat, i: nat, a: nat)
    requires runs != [] && runs[|runs| - 1].0 == index && runs[|runs| - 1].1 + runs[|runs| - 1].2 == at
    ensures var k, last := |runs| - 1, runs[|runs| - 1];
      InRuns(runs[k := (last.0, last.1, last.2 + 1)], i, a) <==> InRuns(runs, i, a) || (i == index && a == at)
  {
    var k, last := |runs| - 1, runs[|runs| - 1];
    var r := runs[k := (last.0, last.1, last.2 + 1)];
    if l :| 0 <= l < |runs| && InRun(runs[l], i, a) { assert InRun(r[l], i, a); }
    if i == index && a == at { assert InRun(r[k], i, a); }
    if l :| 0 <= l < |r| && InRun(r[l], i, a) { assert InRun(runs[l], i, a) || (i == index && a == at); }
  }

  lemma NewRun(runs: seq<(nat, nat, nat)>, index: nat, at: nat, i: nat, a: nat)
    ensures InRuns(runs + [(index, at, 1)], i, a) <==> InRuns(runs, i, a) || (i == index && a == at)
  {
    var r := runs + [(index, at, 1)];
    if l :| 0 <= l < |runs| && InRun(runs[l], i, a) { assert InRun(r[l], i, a); }
    if i == index && a == at { assert InRun(r[|runs|], i, a); }
    if l :| 0 <= l < |r| && InRun(r[l], i, a) { assert l < |runs| ==> InRun(runs[l], i, a); }
  }

  /** The place `at` of code `index` of thread `owner` was read. */
  ghost predicate WasRead(k: Kept, owner: nat, index: nat, at: nat) {
    owner < |k.taken| && InRuns(k.taken[owner], index, at)
  }

  /** Address `a` is at a place read. */
  ghost predicate ReadAt(k: Kept, lists: seq<seq<Spec>>, a: nat) {
    exists owner: nat, index: nat, at: nat :: WasRead(k, owner, index, at) && AddressAt(lists, owner, index, at) == Some(a)
  }

  ghost function AddressAt(lists: seq<seq<Spec>>, owner: nat, index: nat, at: nat): Option<nat> {
    if owner < |lists| && index < |lists[owner]| && at < |lists[owner][index].insns| then Some(lists[owner][index].insns[at].addr) else None
  }

  /** What is kept, when the walk has fetched the instructions at `fetched`: each is listed,
      decoded here or read, and nothing else is. */
  ghost predicate KeptOk(decode: Decoder, listed: set<nat>, lists: seq<seq<Spec>>, fetched: set<nat>, k: Kept) {
    && |k.taken| == |lists|
    && (forall a | a in k.own :: OwnOk(decode, listed, fetched, k, a))
    && (forall a | a in k.marked && decode(a).Some? :: a in listed || a in k.own)
    && listed <= k.marked
    && (forall owner: nat, index: nat, at: nat :: ReadOk(lists, fetched, k, owner, index, at))
    && (forall a | a in fetched :: decode(a).Some? && (a in listed || a in k.own || ReadAt(k, lists, a)))
  }

  ghost predicate OwnOk(decode: Decoder, listed: set<nat>, fetched: set<nat>, k: Kept, a: nat)
    requires a in k.own
  {
    decode(a) == Some(k.own[a]) && a in fetched && a !in listed && a in k.marked
  }

  ghost predicate ReadOk(lists: seq<seq<Spec>>, fetched: set<nat>, k: Kept, owner: nat, index: nat, at: nat) {
    WasRead(k, owner, index, at) ==>
      var a := AddressAt(lists, owner, index, at);
      a.Some? && a.value in fetched
  }

  /** One more place read. */
  lemma ReadMore(decode: Decoder, listed: set<nat>, lists: seq<seq<Spec>>, fetched: set<nat>, k: Kept, k': Kept, owner: nat, index: nat, at: nat, addr: nat)
    requires KeptOk(decode, listed, lists, fetched, k) && owner < |lists| && AddressAt(lists, owner, index, at) == Some(addr) && decode(addr).Some?
    requires k'.marked == k.marked && k'.own == k.own && |k'.taken| == |k.taken|
    requires forall o: nat, i: nat, a: nat :: WasRead(k', o, i, a) <==> WasRead(k, o, i, a) || (o == owner && i == index && a == at)
    ensures KeptOk(decode, listed, lists, fetched + {addr}, k')
  {
    forall a | a in k'.own ensures OwnOk(decode, listed, fetched + {addr}, k', a) {
      assert OwnOk(decode, listed, fetched, k, a);
    }
    forall o: nat, i: nat, a: nat ensures ReadOk(lists, fetched + {addr}, k', o, i, a) {
      assert ReadOk(lists, fetched, k, o, i, a);
      assert WasRead(k', o, i, a) <==> WasRead(k, o, i, a) || (o == owner && i == index && a == at);
    }
    assert WasRead(k', owner, index, at);
    forall a | a in fetched + {addr} ensures decode(a).Some? && (a in listed || a in k'.own || ReadAt(k', lists, a)) {
      if a != addr && ReadAt(k, lists, a) {
        var o: nat, i: nat, t: nat :| WasRead(k, o, i, t) && AddressAt(lists, o, i, t) == Some(a);
        assert WasRead(k', o, i, t);
      }
    }
  }

  /** The walk reads place `at` of code `s`. */
  method TakeRead(decode: Decoder, ghost listed: set<nat>, ghost lists: seq<seq<Spec>>, ghost fetched: set<nat>, k: Kept, s: Spec, at: nat) returns (k': Kept)
    requires KeptOk(decode, listed, lists, fetched, k) && HintOk(decode, lists, Some((s, at))) && at < |s.insns|
    ensures KeptOk(decode, listed, lists, fetched + {s.insns[at].addr}, k') && decode(s.insns[at].addr) == Some(s.insns[at].facts)
  {
    assert TrueInsn(decode, s.insns, at);
    var runs := Mark(k.taken[s.owner], s.index, at);
    k' := k.(taken := k.taken[s.owner := runs]);
    ReadMore(decode, listed, lists, fetched, k, k', s.owner, s.index, at, s.insns[at].addr);
  }

  /** The walk decodes the instruction at `addr` itself, kept when neither listed nor decoded
      before. */
  method FetchListed(decode: Decoder, ghost listed: set<nat>, ghost lists: seq<seq<Spec>>, ghost fetched: set<nat>, k: Kept, addr: nat)
    returns (f: Option<Facts>, k': Kept)
    requires KeptOk(decode, listed, lists, fetched, k)
    ensures f == decode(addr)
    ensures KeptOk(decode, listed, lists, if f.Some? then fetched + {addr} else fetched, k')
  {
    f, k' := decode(addr), k;
    if addr !in k.marked {
      k' := k.(marked := k.marked + {addr}, own := if f.Some? then k.own[addr := f.value] else k.own);
    }
    ghost var now := if f.Some? then fetched + {addr} else fetched;
    forall a | a in k'.own ensures OwnOk(decode, listed, now, k', a) {
      if a in k.own { assert OwnOk(decode, listed, fetched, k, a); }
    }
    forall o: nat, i: nat, a: nat ensures ReadOk(lists, now, k', o, i, a) {
      assert ReadOk(lists, fetched, k, o, i, a);
      assert WasRead(k', o, i, a) <==> WasRead(k, o, i, a);
    }
    forall a | a in now ensures decode(a).Some? && (a in listed || a in k'.own || ReadAt(k', lists, a)) {
      if a in fetched && ReadAt(k, lists, a) {
        var o: nat, i: nat, t: nat :| WasRead(k, o, i, t) && AddressAt(lists, o, i, t) == Some(a);
        assert WasRead(k', o, i, t);
      }
    }
  }

  /** The walk's read of one instruction. Whichever of the four ways gives it (the place hinted
      at, a search of the hinted code, code another thread did from there, decoding), it is the
      one decoding gives, and reading it is accounted for. */
  method Fetch(decode: Decoder, ghost listed: set<nat>, ghost lists: seq<seq<Spec>>, ghost fetched: set<nat>, done: map<nat, Spec>, k: Kept, addr: nat, h: Hint)
    returns (f: Option<Facts>, h': Hint, k': Kept)
    requires KeptOk(decode, listed, lists, fetched, k) && Published(decode, done, lists) && HintOk(decode, lists, h)
    ensures f == decode(addr) && HintOk(decode, lists, h') && (f.Some? && h'.Some? ==> h'.value.1 > 0)
    ensures KeptOk(decode, listed, lists, if f.Some? then fetched + {addr} else fetched, k')
  {
    if h.Some? {
      var (s, i) := h.value;
      var at := Some(i);
      if i >= |s.insns| || s.insns[i].addr != addr { at := Find(s.insns, addr); }
      if at.Some? {
        k' := TakeRead(decode, listed, lists, fetched, k, s, at.value);
        return Some(s.insns[at.value].facts), Some((s, at.value + 1)), k';
      }
    }
    if addr in done && done[addr].entryAt.Some? {
      var s := done[addr];
      var at := s.entryAt.value;
      assert PublishedAt(decode, done, lists, addr);
      k' := TakeRead(decode, listed, lists, fetched, k, s, at);
      return Some(s.insns[at].facts), Some((s, at + 1)), k';
    }
    f, k' := FetchListed(decode, listed, lists, fetched, k, addr);
    h' := None;
  }

  /** Where to look first for the target of the instruction just read. */
  function TargetHint(h: Hint): Hint
    requires h.Some? ==> 0 < h.value.1 <= |h.value.0.insns|
  {
    if h.None? then None
    else
      var (s, i) := h.value;
      if s.insns[i - 1].targetAt.Some? then Some((s, s.insns[i - 1].targetAt.value)) else None
  }

  lemma TargetHintOk(decode: Decoder, lists: seq<seq<Spec>>, h: Hint)
    requires HintOk(decode, lists, h) && (h.Some? ==> h.value.1 > 0)
    ensures HintOk(decode, lists, TargetHint(h))
  {
    if h.Some? {
      var (s, i) := h.value;
      assert TrueInsn(decode, s.insns, i - 1);
    }
  }

  // ---- a function

  ghost predicate HintsOk(decode: Decoder, lists: seq<seq<Spec>>, hints: seq<Hint>) {
    forall i | 0 <= i < |hints| :: HintOk(decode, lists, hints[i])
  }

  /** What is done when the walk makes each of its reads: as some interleaving leaves it. */
  ghost predicate ScheduleOk(decode: Decoder, lists: seq<seq<Spec>>, schedule: nat -> map<nat, Spec>) {
    forall n: nat :: Published(decode, schedule(n), lists)
  }

  /** The walk, the hint of each block queued, and what is kept, `base` fetched before. */
  ghost predicate WalkOk(decode: Decoder, listed: set<nat>, lists: seq<seq<Spec>>, base: set<nat>, w: Walk, hints: seq<Hint>, k: Kept) {
    |hints| == |w.queue| && HintsOk(decode, lists, hints) && KeptOk(decode, listed, lists, base + Addresses(w.body), k)
  }

  /** The blocks an instruction leads to, queued with their hints. */
  method QueueTargets(decode: Decoder, ghost lists: seq<seq<Spec>>, w: Walk, hints: seq<Hint>, a: nat, f: Facts, h: Hint) returns (w': Walk, hints': seq<Hint>)
    requires |hints| == |w.queue| && HintsOk(decode, lists, hints) && HintOk(decode, lists, h) && (h.Some? ==> h.value.1 > 0)
    ensures w' == Leads(w, a, f) && |hints'| == |w'.queue| && HintsOk(decode, lists, hints') && w'.body == w.body
  {
    w', hints' := w, hints;
    if f.flow == Jump || f.flow == CondJump {
      if f.target.Some? && f.target.value !in w'.blocks {
        TargetHintOk(decode, lists, h);
        w', hints' := w'.(queue := w'.queue + [f.target.value]), hints' + [TargetHint(h)];
      }
      if f.flow == CondJump && a + f.length !in w'.blocks {
        w', hints' := w'.(queue := w'.queue + [a + f.length]), hints' + [h];
      }
    }
  }

  /** The instruction at `a` read and visited. */
  method VisitNext(decode: Decoder, ghost listed: set<nat>, ghost lists: seq<seq<Spec>>, done: map<nat, Spec>, ghost base: set<nat>,
      a: nat, h: Hint, w: Walk, hints: seq<Hint>, k: Kept) returns (f: Option<Facts>, h': Hint, w': Walk, k': Kept)
    requires Published(decode, done, lists) && WalkOk(decode, listed, lists, base, w, hints, k) && HintOk(decode, lists, h)
    ensures f == decode(a) && HintOk(decode, lists, h') && (f.Some? && h'.Some? ==> h'.value.1 > 0)
    ensures w' == (if f.Some? then Visit(w, a, f.value) else w) && WalkOk(decode, listed, lists, base, w', hints, k')
  {
    f, h', k' := Fetch(decode, listed, lists, base + Addresses(w.body), done, k, a, h);
    w' := w;
    if f.Some? {
      OneMoreAddress(w.body, a, f.value.length);
      assert base + Addresses(w.body) + {a} == base + Addresses(w.body + [(a, f.value.length)]);
      w' := Visit(w, a, f.value);
    }
  }

  /** One block. */
  method WalkBlock(decode: Decoder, max: nat, ghost listed: set<nat>, ghost lists: seq<seq<Spec>>, schedule: nat -> map<nat, Spec>, clock0: nat, ghost base: set<nat>,
      start: nat, h0: Hint, w0: Walk, hints0: seq<Hint>, k0: Kept) returns (w: Walk, hints: seq<Hint>, k: Kept, clock: nat)
    requires ScheduleOk(decode, lists, schedule) && WalkOk(decode, listed, lists, base, w0, hints0, k0) && HintOk(decode, lists, h0)
    ensures w == Block(decode, start, start, max, w0) && WalkOk(decode, listed, lists, base, w, hints, k)
  {
    w, hints, k, clock := w0, hints0, k0, clock0;
    ghost var all := Block(decode, start, start, max, w0);
    var a: nat, h, fuel, going := start, h0, max, true;
    while fuel > 0 && going
      invariant WalkOk(decode, listed, lists, base, w, hints, k) && HintOk(decode, lists, h)
      invariant Remains(decode, start, a, fuel, w, going, all)
      decreases fuel, going
    {
      if a in w.visited && a != start {
        BlockStops(decode, start, a, fuel, w, going, all);
        going := false;
      } else {
        assert Published(decode, schedule(clock), lists);
        w, hints, k, a, h, going := StepBlock(decode, listed, lists, schedule(clock), base, start, fuel, all, a, h, w, hints, k);
        clock, fuel := clock + 1, fuel - 1;
      }
    }
    BlockStops(decode, start, a, fuel, w, going, all);
  }

  /** The whole block is what is left of it from `a` on. */
  ghost predicate Remains(decode: Decoder, start: nat, a: nat, fuel: nat, w: Walk, going: bool, all: Walk) {
    all == if going then Block(decode, start, a, fuel, w) else w
  }

  lemma BlockStops(decode: Decoder, start: nat, a: nat, fuel: nat, w: Walk, going: bool, all: Walk)
    requires Remains(decode, start, a, fuel, w, going, all) && (!going || fuel == 0 || (a in w.visited && a != start))
    ensures Remains(decode, start, a, fuel, w, false, all) && all == w
  {
  }

  /** The instruction at `a`, and where the block goes on. */
  method StepBlock(decode: Decoder, ghost listed: set<nat>, ghost lists: seq<seq<Spec>>, done: map<nat, Spec>, ghost base: set<nat>,
      ghost start: nat, ghost fuel: nat, ghost all: Walk, a: nat, h: Hint, w: Walk, hints: seq<Hint>, k: Kept)
    returns (w': Walk, hints': seq<Hint>, k': Kept, a': nat, h': Hint, going: bool)
    requires fuel > 0 && !(a in w.visited && a != start) && Remains(decode, start, a, fuel, w, true, all)
    requires Published(decode, done, lists) && WalkOk(decode, listed, lists, base, w, hints, k) && HintOk(decode, lists, h)
    ensures WalkOk(decode, listed, lists, base, w', hints', k') && HintOk(decode, lists, h')
    ensures Remains(decode, start, a', fuel - 1, w', going, all)
  {
    w', hints', k', a', h', going := StepOne(decode, listed, lists, done, base, a, h, w, hints, k);
    StepRemains(decode, start, a, fuel, w, a', w', going, all);
  }

  method StepOne(decode: Decoder, ghost listed: set<nat>, ghost lists: seq<seq<Spec>>, done: map<nat, Spec>, ghost base: set<nat>,
      a: nat, h: Hint, w: Walk, hints: seq<Hint>, k: Kept) returns (w': Walk, hints': seq<Hint>, k': Kept, a': nat, h': Hint, going: bool)
    requires Published(decode, done, lists) && WalkOk(decode, listed, lists, base, w, hints, k) && HintOk(decode, lists, h)
    ensures WalkOk(decode, listed, lists, base, w', hints', k') && HintOk(decode, lists, h')
    ensures IsStep(decode, a, w, a', w', going)
  {
    var f;
    a', hints', going := a, hints, false;
    f, h', w', k' := VisitNext(decode, listed, lists, done, base, a, h, w, hints, k);
    if f.Some? {
      going := GoesOn(f.value);
      if going {
        a' := a + f.value.length;
      } else {
        w', hints' := QueueTargets(decode, lists, w', hints, a, f.value, h');
      }
    }
  }

  /** One instruction of a block: the walk after it, and whether and where the block goes on. */
  ghost predicate IsStep(decode: Decoder, a: nat, w: Walk, a': nat, w': Walk, going: bool) {
    var f := decode(a);
    && going == (f.Some? && GoesOn(f.value)) && (going ==> a' == a + f.value.length)
    && w' == if f.None? then w else if going then Visit(w, a, f.value) else Leads(Visit(w, a, f.value), a, f.value)
  }

  lemma StepRemains(decode: Decoder, start: nat, a: nat, fuel: nat, w: Walk, a': nat, w': Walk, going: bool, all: Walk)
    requires fuel > 0 && !(a in w.visited && a != start) && IsStep(decode, a, w, a', w', going) && Remains(decode, start, a, fuel, w, true, all)
    ensures Remains(decode, start, a', fuel - 1, w', going, all)
  {
    BlockStep(decode, start, a, fuel, w);
  }

  lemma BlockStep(decode: Decoder, start: nat, a: nat, fuel: nat, w: Walk)
    requires fuel > 0 && !(a in w.visited && a != start)
    ensures var f, r := decode(a), Block(decode, start, a, fuel, w);
      && (f.None? ==> r == w)
      && (f.Some? && GoesOn(f.value) ==> r == Block(decode, start, a + f.value.length, fuel - 1, Visit(w, a, f.value)))
      && (f.Some? && !GoesOn(f.value) ==> r == Leads(Visit(w, a, f.value), a, f.value))
  {
  }

  /** The next block queued. */
  method NextBlock(decode: Decoder, max: nat, ghost listed: set<nat>, ghost lists: seq<seq<Spec>>, schedule: nat -> map<nat, Spec>, clock0: nat, ghost base: set<nat>,
      w0: Walk, hints0: seq<Hint>, k0: Kept) returns (w: Walk, hints: seq<Hint>, k: Kept, clock: nat)
    requires DecoderOk(decode) && ScheduleOk(decode, lists, schedule)
    requires WalkOk(decode, listed, lists, base, w0, hints0, k0) && InLimit(w0.queue) && w0.queue != []
    ensures WalkOk(decode, listed, lists, base, w, hints, k) && InLimit(w.queue) && Blocks(decode, max, w) == Blocks(decode, max, w0)
    ensures |Left(w.blocks)| < |Left(w0.blocks)| || (w.blocks == w0.blocks && |w.queue| < |w0.queue|)
  {
    var start, h := w0.queue[0], hints0[0];
    w, hints, k, clock := w0.(queue := w0.queue[1..]), hints0[1..], k0, clock0;
    if start !in w0.blocks {
      FewerLeft(w0.blocks, start);
      w := w.(blocks := w0.blocks + {start});
      BlockFacts(decode, start, start, max, w);
      w, hints, k, clock := WalkBlock(decode, max, listed, lists, schedule, clock, base, start, h, w, hints, k);
    }
  }

  /** The function at `entry`. */
  method Disassemble(decode: Decoder, max: nat, ghost listed: set<nat>, ghost lists: seq<seq<Spec>>, schedule: nat -> map<nat, Spec>, clock0: nat, ghost base: set<nat>,
      entry: nat, visited: set<nat>, refs: seq<Ref>, k0: Kept) returns (w: Walk, k: Kept, clock: nat)
    requires DecoderOk(decode) && entry < LIMIT && ScheduleOk(decode, lists, schedule) && KeptOk(decode, listed, lists, base, k0)
    ensures w == WalkFrom(decode, max, entry, visited, refs) && KeptOk(decode, listed, lists, base + Addresses(w.body), k)
    ensures IsWalkOf(decode, max, entry, visited, refs, w)
  {
    w, k, clock := Walk([entry], {}, visited, [], [], refs), k0, clock0;
    var hints: seq<Hint> := [None];
    assert base + Addresses(w.body) == base;
    while w.queue != []
      invariant WalkOk(decode, listed, lists, base, w, hints, k) && InLimit(w.queue)
      invariant Blocks(decode, max, w) == WalkFrom(decode, max, entry, visited, refs)
      decreases |Left(w.blocks)|, |w.queue|
    {
      w, hints, k, clock := NextBlock(decode, max, listed, lists, schedule, clock, base, w, hints, k);
    }
    WalkMeans(decode, max, entry, visited, refs);
  }
}
