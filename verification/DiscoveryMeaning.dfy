/**
 What a discovery run finds, said of the instructions by their kinds: bodies closed under the
 flow but where a block is cut, of nothing else than what the flow leads to, their calls and
 their references.
 */
module DiscoveryMeaning {
  import opened Pcode
  import opened SortedNats
  import opened DiscoveryWalk

  // ---- an instruction by its kind

  /** The flow goes on from the instruction at `a` to `s`. */
  predicate FlowsTo(decode: Decoder, a: nat, s: nat) {
    && decode(a).Some?
    && var f := decode(a).value;
    match f.flow
      case Fall => s == a + f.length
      case CallFlow => s == a + f.length
      case IndirectCall => s == a + f.length
      case Jump => f.target == Some(s)
      case CondJump => f.target == Some(s) || s == a + f.length
      case IndirectJump => false
      case Return => false
  }

  /** The instruction at `a` is a jump to elsewhere: it ends its block. */
  predicate Jumps(decode: Decoder, a: nat) {
    decode(a).Some? && (decode(a).value.flow == Jump || decode(a).value.flow == CondJump)
  }

  /** The instruction at `a` calls `c`. */
  predicate Calls(decode: Decoder, a: nat, c: nat) {
    decode(a).Some? && decode(a).value.flow == CallFlow && decode(a).value.target == Some(c)
  }

  /** The instruction at `a` makes the reference `r`. */
  predicate Refers(decode: Decoder, a: nat, r: Ref) {
    && decode(a).Some? && r.from == a
    && var f := decode(a).value;
    match r.kind
      case RefCall => f.flow == CallFlow && f.target == Some(r.target)
      case RefFall => (f.flow == CallFlow || f.flow == CondJump) && r.target == a + f.length
      case RefIndirectCall => f.flow == IndirectCall && r.target == 0
      case RefJump => f.flow == Jump && f.target == Some(r.target)
      case RefCondJump => f.flow == CondJump && f.target == Some(r.target)
      case RefIndirectJump => f.flow == IndirectJump && r.target == 0
  }

  /** The references of an instruction: each it makes, once, that of a fall-through last. */
  lemma RefsMean(decode: Decoder, a: nat, r: Ref)
    requires decode(a).Some?
    ensures var rs := Refs(a, decode(a).value);
      && (r in rs <==> Refers(decode, a, r))
      && forall i, j | 0 <= i < j < |rs| :: rs[i].kind != RefFall && rs[j].kind == RefFall
  {
  }

  // ---- a function's body

  /** A block starts at `s`: the entry, or where a jump of the body leads. */
  ghost predicate IsBlockStart(decode: Decoder, entry: nat, body: set<nat>, s: nat) {
    s == entry || exists p :: p in body && Jumps(decode, p) && FlowsTo(decode, p, s)
  }

  ghost predicate IsReached(decode: Decoder, entry: nat, body: set<nat>, s: nat) {
    s == entry || exists p :: p in body && FlowsTo(decode, p, s)
  }

  ghost predicate GoesStraight(decode: Decoder, body: set<nat>, chain: seq<nat>, k: nat) {
    k + 1 < |chain| && chain[k] in body && !Jumps(decode, chain[k]) && FlowsTo(decode, chain[k], chain[k + 1])
  }

  /** Instructions of the body straight from a block's start. */
  ghost predicate IsStraight(decode: Decoder, entry: nat, body: set<nat>, chain: seq<nat>) {
    && chain != [] && IsBlockStart(decode, entry, body, chain[0])
    && forall k | 0 <= k < |chain| - 1 :: GoesStraight(decode, body, chain, k)
  }

  /** A block of `max` instructions ends before `s`. */
  ghost predicate IsCut(decode: Decoder, max: nat, entry: nat, body: set<nat>, s: nat) {
    exists chain :: |chain| == max + 1 && IsStraight(decode, entry, body, chain) && chain[max] == s
  }

  /** Where the flow leads to `s`, the walk went there, or there is no instruction, or a block
      is cut before. */
  ghost predicate Followed(decode: Decoder, max: nat, entry: nat, visited: set<nat>, body: set<nat>, s: nat) {
    s in visited || decode(s).None? || IsCut(decode, max, entry, body, s)
  }

  /** The flow from `a` to `s`, if it goes on there, is followed. */
  ghost predicate Follows(decode: Decoder, max: nat, entry: nat, visited: set<nat>, body: set<nat>, a: nat, s: nat) {
    FlowsTo(decode, a, s) ==> Followed(decode, max, entry, visited, body, s)
  }

  /** Its instructions as decoded, with their lengths. */
  ghost predicate AsDecoded(decode: Decoder, body: seq<(nat, nat)>) {
    forall i | 0 <= i < |body| :: IsDecoded(decode, body[i])
  }

  ghost predicate IsDecoded(decode: Decoder, b: (nat, nat)) {
    decode(b.0).Some? && decode(b.0).value.length == b.1
  }

  /** The references of the instructions of a body, in order. */
  ghost function BodyRefs(decode: Decoder, body: seq<(nat, nat)>): seq<Ref> {
    if body == [] then []
    else
      var last := decode(body[|body| - 1].0);
      BodyRefs(decode, body[..|body| - 1]) + if last.Some? then Refs(body[|body| - 1].0, last.value) else []
  }

  /** The body of the function at `entry`, the addresses of `before` visited before it: the
      entry and what the flow leads to, and all of that, but for what was visited, where there
      is no instruction and where a block is cut. */
  ghost predicate IsBody(decode: Decoder, max: nat, entry: nat, before: set<nat>, body: seq<(nat, nat)>) {
    var addrs := Addresses(body);
    && AsDecoded(decode, body)
    && Followed(decode, max, entry, before + addrs, addrs, entry)
    && (forall a, s | a in addrs :: Follows(decode, max, entry, before + addrs, addrs, a, s))
    && (forall a {:trigger IsReached(decode, entry, addrs, a)} | a in addrs :: IsReached(decode, entry, addrs, a))
    && forall a {:trigger IsBlockStart(decode, entry, addrs, a)} | a in addrs && a in before :: IsBlockStart(decode, entry, addrs, a)
  }

  /** The targets of a body's calls. */
  ghost predicate AreCalls(decode: Decoder, body: seq<(nat, nat)>, calls: seq<nat>) {
    forall c :: c in calls <==> exists a :: a in Addresses(body) && Calls(decode, a, c)
  }

  /** A whole walk: the body, what was visited with it, its calls and its references. */
  ghost predicate IsWalkOf(decode: Decoder, max: nat, entry: nat, before: set<nat>, refs: seq<Ref>, w: Walk) {
    && IsBody(decode, max, entry, before, w.body) && w.visited == before + Addresses(w.body)
    && AreCalls(decode, w.body, w.calls) && w.refs == refs + BodyRefs(decode, w.body)
  }

  // ---- what a walk keeps

  /** Where the flow goes on from `a` to `s`, the walk follows. */
  ghost predicate EdgeOk(decode: Decoder, max: nat, entry: nat, w: Walk, pending: Pending, a: nat, s: nat) {
    FlowsTo(decode, a, s) ==> Followed(decode, max, entry, w.visited, Addresses(w.body), s) || s in w.queue || pending == Some(s)
  }

  /** The address the walk is to go on at. */
  type Pending = Option<nat>

  ghost predicate KeepsEdges(decode: Decoder, max: nat, entry: nat, w: Walk, pending: Pending) {
    var addrs := Addresses(w.body);
    && (forall a, s | a in addrs :: EdgeOk(decode, max, entry, w, pending, a, s))
    && (forall s | s in w.blocks :: Followed(decode, max, entry, w.visited, addrs, s) || pending == Some(s))
    && (entry in w.blocks || entry in w.queue)
  }

  ghost predicate KeepsReached(decode: Decoder, entry: nat, before: set<nat>, w: Walk, pending: Pending) {
    var addrs := Addresses(w.body);
    && (forall a {:trigger IsReached(decode, entry, addrs, a)} | a in addrs :: IsReached(decode, entry, addrs, a))
    && (pending.Some? ==> IsReached(decode, entry, addrs, pending.value))
    && (forall s | s in w.blocks || s in w.queue :: IsBlockStart(decode, entry, addrs, s))
    && forall a {:trigger IsBlockStart(decode, entry, addrs, a)} | a in addrs && a in before :: IsBlockStart(decode, entry, addrs, a)
  }

  ghost predicate KeepsFound(decode: Decoder, before: set<nat>, refs: seq<Ref>, w: Walk) {
    && w.visited == before + Addresses(w.body) && AsDecoded(decode, w.body)
    && w.refs == refs + BodyRefs(decode, w.body) && AreCalls(decode, w.body, w.calls)
  }

  ghost predicate WalkKeeps(decode: Decoder, max: nat, entry: nat, before: set<nat>, refs: seq<Ref>, w: Walk, pending: Pending) {
    KeepsEdges(decode, max, entry, w, pending) && KeepsReached(decode, entry, before, w, pending) && KeepsFound(decode, before, refs, w)
  }

  lemma VisitAddresses(w: Walk, a: nat, f: Facts)
    ensures Addresses(Visit(w, a, f).body) == Addresses(w.body) + {a}
  {
    OneMoreAddress(w.body, a, f.length);
  }

  lemma StartMore(decode: Decoder, entry: nat, body: set<nat>, more: set<nat>, s: nat)
    requires body <= more
    ensures IsBlockStart(decode, entry, body, s) ==> IsBlockStart(decode, entry, more, s)
    ensures IsReached(decode, entry, body, s) ==> IsReached(decode, entry, more, s)
    ensures IsBlockStart(decode, entry, body, s) ==> IsReached(decode, entry, body, s)
  {
  }

  lemma StraightMore(decode: Decoder, entry: nat, body: set<nat>, more: set<nat>, chain: seq<nat>)
    requires body <= more && IsStraight(decode, entry, body, chain)
    ensures IsStraight(decode, entry, more, chain)
  {
    StartMore(decode, entry, body, more, chain[0]);
    forall k | 0 <= k < |chain| - 1 ensures GoesStraight(decode, more, chain, k) {
      assert GoesStraight(decode, body, chain, k);
    }
  }

  lemma FollowedMore(decode: Decoder, max: nat, entry: nat, visited: set<nat>, seen: set<nat>, body: set<nat>, more: set<nat>, s: nat)
    requires visited <= seen && body <= more && Followed(decode, max, entry, visited, body, s)
    ensures Followed(decode, max, entry, seen, more, s)
  {
    if IsCut(decode, max, entry, body, s) {
      var chain :| |chain| == max + 1 && IsStraight(decode, entry, body, chain) && chain[max] == s;
      StraightMore(decode, entry, body, more, chain);
    }
  }

  lemma VisitRefs(decode: Decoder, refs: seq<Ref>, w: Walk, a: nat, f: Facts)
    requires w.refs == refs + BodyRefs(decode, w.body) && AsDecoded(decode, w.body) && decode(a) == Some(f)
    ensures var v := Visit(w, a, f); v.refs == refs + BodyRefs(decode, v.body) && AsDecoded(decode, v.body)
  {
    var v := Visit(w, a, f);
    assert v.body[..|w.body|] == w.body;
  }

  lemma OneMoreCalls(decode: Decoder, body: set<nat>, a: nat, f: Facts, c: nat)
    requires decode(a) == Some(f)
    ensures (exists p :: p in body + {a} && Calls(decode, p, c)) <==>
      (exists p :: p in body && Calls(decode, p, c)) || (f.flow == CallFlow && f.target == Some(c))
  {
    if p :| p in body && Calls(decode, p, c) { assert p in body + {a}; }
    if Calls(decode, a, c) { assert a in body + {a}; }
  }

  lemma VisitCalls(decode: Decoder, w: Walk, a: nat, f: Facts)
    requires AreCalls(decode, w.body, w.calls) && decode(a) == Some(f)
    ensures AreCalls(decode, Visit(w, a, f).body, Visit(w, a, f).calls)
  {
    VisitAddresses(w, a, f);
    forall c ensures c in Visit(w, a, f).calls <==> exists p :: p in Addresses(w.body) + {a} && Calls(decode, p, c) {
      OneMoreCalls(decode, Addresses(w.body), a, f, c);
    }
  }

  /** The instruction at the address to go on at visited: what it leads to is left. */
  lemma VisitFound(decode: Decoder, before: set<nat>, refs: seq<Ref>, w: Walk, a: nat, f: Facts)
    requires KeepsFound(decode, before, refs, w) && decode(a) == Some(f)
    ensures KeepsFound(decode, before, refs, Visit(w, a, f))
  {
    VisitAddresses(w, a, f);
    VisitRefs(decode, refs, w, a, f);
    VisitCalls(decode, w, a, f);
  }

  lemma VisitReached(decode: Decoder, entry: nat, before: set<nat>, w: Walk, a: nat, f: Facts)
    requires KeepsReached(decode, entry, before, w, Some(a)) && decode(a) == Some(f)
    requires a in before ==> IsBlockStart(decode, entry, Addresses(w.body), a)
    ensures KeepsReached(decode, entry, before, Visit(w, a, f), None)
  {
    var addrs, more := Addresses(w.body), Addresses(Visit(w, a, f).body);
    VisitAddresses(w, a, f);
    forall s ensures IsBlockStart(decode, entry, addrs, s) ==> IsBlockStart(decode, entry, more, s)
      ensures IsReached(decode, entry, addrs, s) ==> IsReached(decode, entry, more, s)
    {
      StartMore(decode, entry, addrs, more, s);
    }
  }

  /** All edges but those of the instruction just visited. */
  ghost predicate KeepsOthers(decode: Decoder, max: nat, entry: nat, w: Walk, a: nat) {
    var addrs := Addresses(w.body);
    && (forall p, s | p in addrs && p != a :: EdgeOk(decode, max, entry, w, None, p, s))
    && (forall s | s in w.blocks :: Followed(decode, max, entry, w.visited, addrs, s))
    && (entry in w.blocks || entry in w.queue)
  }

  lemma VisitEdges(decode: Decoder, max: nat, entry: nat, w: Walk, a: nat, f: Facts)
    requires KeepsEdges(decode, max, entry, w, Some(a)) && decode(a) == Some(f)
    ensures KeepsOthers(decode, max, entry, Visit(w, a, f), a)
  {
    var v := Visit(w, a, f);
    var addrs, more := Addresses(w.body), Addresses(v.body);
    VisitAddresses(w, a, f);
    forall s | Followed(decode, max, entry, w.visited, addrs, s) ensures Followed(decode, max, entry, v.visited, more, s) {
      FollowedMore(decode, max, entry, w.visited, v.visited, addrs, more, s);
    }
    assert Followed(decode, max, entry, v.visited, more, a);
    forall p, s | p in more && p != a ensures EdgeOk(decode, max, entry, v, None, p, s) {
      assert EdgeOk(decode, max, entry, w, Some(a), p, s);
    }
  }

  // ---- a block

  lemma StraightOn(decode: Decoder, entry: nat, body: set<nat>, more: set<nat>, chain: seq<nat>, s: nat)
    requires IsStraight(decode, entry, body, chain) && body <= more
    requires var a := chain[|chain| - 1]; a in more && !Jumps(decode, a) && FlowsTo(decode, a, s)
    ensures IsStraight(decode, entry, more, chain + [s])
  {
    var on := chain + [s];
    StraightMore(decode, entry, body, more, chain);
    forall k | 0 <= k < |on| - 1 ensures GoesStraight(decode, more, on, k) {
      assert k < |chain| - 1 ==> GoesStraight(decode, more, chain, k);
    }
  }

  /** The address to go on at needs no more. */
  lemma Dropped(decode: Decoder, max: nat, entry: nat, before: set<nat>, refs: seq<Ref>, w: Walk, a: nat)
    requires WalkKeeps(decode, max, entry, before, refs, w, Some(a)) && Followed(decode, max, entry, w.visited, Addresses(w.body), a)
    ensures WalkKeeps(decode, max, entry, before, refs, w, None)
  {
    forall p, s | p in Addresses(w.body) ensures EdgeOk(decode, max, entry, w, None, p, s) {
      assert EdgeOk(decode, max, entry, w, Some(a), p, s);
    }
  }

  /** Where an instruction of the block leads by falling through. */
  lemma StraightFlow(decode: Decoder, a: nat, f: Facts, s: nat)
    requires decode(a) == Some(f) && GoesOn(f)
    ensures !Jumps(decode, a) && (FlowsTo(decode, a, s) <==> s == a + f.length)
  {
  }

  /** Where one that ends its block leads is queued or walked. */
  lemma LedFlow(decode: Decoder, w: Walk, a: nat, f: Facts, s: nat)
    requires decode(a) == Some(f) && !GoesOn(f)
    ensures var r := Leads(w, a, f);
      && (FlowsTo(decode, a, s) ==> s in r.queue || s in r.blocks)
      && (s in w.queue ==> s in r.queue)
      && (s in r.queue ==> s in w.queue || (Jumps(decode, a) && FlowsTo(decode, a, s)))
      && r == w.(queue := r.queue)
  {
  }

  lemma LeadsKeeps(decode: Decoder, max: nat, entry: nat, before: set<nat>, refs: seq<Ref>, w: Walk, a: nat, f: Facts)
    requires KeepsOthers(decode, max, entry, w, a) && KeepsReached(decode, entry, before, w, None) && KeepsFound(decode, before, refs, w)
    requires decode(a) == Some(f) && !GoesOn(f) && a in Addresses(w.body)
    ensures WalkKeeps(decode, max, entry, before, refs, Leads(w, a, f), None)
  {
    var r := Leads(w, a, f);
    forall s
      ensures FlowsTo(decode, a, s) ==> s in r.queue || s in r.blocks
      ensures s in w.queue ==> s in r.queue
      ensures s in r.queue ==> s in w.queue || (Jumps(decode, a) && FlowsTo(decode, a, s))
    {
      LedFlow(decode, w, a, f, s);
    }
    LedFlow(decode, w, a, f, 0);
    forall p, s | p in Addresses(w.body) ensures EdgeOk(decode, max, entry, r, None, p, s) {
      if p != a { assert EdgeOk(decode, max, entry, w, None, p, s); }
    }
  }

  lemma OnwardKeeps(decode: Decoder, max: nat, entry: nat, before: set<nat>, refs: seq<Ref>, w: Walk, a: nat, f: Facts)
    requires KeepsOthers(decode, max, entry, w, a) && KeepsReached(decode, entry, before, w, None) && KeepsFound(decode, before, refs, w)
    requires decode(a) == Some(f) && GoesOn(f) && a in Addresses(w.body)
    ensures WalkKeeps(decode, max, entry, before, refs, w, Some(a + f.length))
  {
    forall s ensures FlowsTo(decode, a, s) <==> s == a + f.length { StraightFlow(decode, a, f, s); }
    var next := a + f.length;
    forall p, s | p in Addresses(w.body) ensures EdgeOk(decode, max, entry, w, Some(next), p, s) {
      if p != a { assert EdgeOk(decode, max, entry, w, None, p, s); }
    }
  }

  /** A chain of a block's instructions walked, `fuel` fewer than `max`, to the address to go on at. */
  ghost predicate IsUnderway(decode: Decoder, max: nat, entry: nat, w: Walk, start: nat, a: nat, fuel: nat) {
    && start in w.blocks && IsBlockStart(decode, entry, Addresses(w.body), start)
    && exists chain :: |chain| + fuel == max + 1 && IsStraight(decode, entry, Addresses(w.body), chain) && chain[|chain| - 1] == a
  }

  lemma StopKeeps(decode: Decoder, max: nat, entry: nat, before: set<nat>, refs: seq<Ref>, start: nat, a: nat, fuel: nat, w: Walk)
    requires WalkKeeps(decode, max, entry, before, refs, w, Some(a)) && IsUnderway(decode, max, entry, w, start, a, fuel)
    requires fuel == 0 || a in w.visited || decode(a).None?
    ensures WalkKeeps(decode, max, entry, before, refs, w, None)
  {
    var chain :| |chain| + fuel == max + 1 && IsStraight(decode, entry, Addresses(w.body), chain) && chain[|chain| - 1] == a;
    assert fuel == 0 ==> chain[max] == a;
    Dropped(decode, max, entry, before, refs, w, a);
  }

  lemma UnderwayOn(decode: Decoder, max: nat, entry: nat, start: nat, a: nat, fuel: nat, w: Walk, f: Facts)
    requires IsUnderway(decode, max, entry, w, start, a, fuel) && decode(a) == Some(f) && GoesOn(f) && fuel > 0
    ensures IsUnderway(decode, max, entry, Visit(w, a, f), start, a + f.length, fuel - 1)
  {
    var v, s := Visit(w, a, f), a + f.length;
    var chain :| |chain| + fuel == max + 1 && IsStraight(decode, entry, Addresses(w.body), chain) && chain[|chain| - 1] == a;
    VisitAddresses(w, a, f);
    StraightFlow(decode, a, f, s);
    StraightOn(decode, entry, Addresses(w.body), Addresses(v.body), chain, s);
    StartMore(decode, entry, Addresses(w.body), Addresses(v.body), start);
    var on := chain + [s];
    assert |on| + (fuel - 1) == max + 1 && on[|on| - 1] == s;
  }

  lemma VisitKeeps(decode: Decoder, max: nat, entry: nat, before: set<nat>, refs: seq<Ref>, a: nat, w: Walk, f: Facts)
    requires WalkKeeps(decode, max, entry, before, refs, w, Some(a)) && decode(a) == Some(f)
    requires a !in w.visited || IsBlockStart(decode, entry, Addresses(w.body), a)
    ensures var v := Visit(w, a, f);
      if GoesOn(f) then WalkKeeps(decode, max, entry, before, refs, v, Some(a + f.length))
      else WalkKeeps(decode, max, entry, before, refs, Leads(v, a, f), None)
  {
    var v := Visit(w, a, f);
    VisitAddresses(w, a, f);
    VisitFound(decode, before, refs, w, a, f);
    VisitReached(decode, entry, before, w, a, f);
    VisitEdges(decode, max, entry, w, a, f);
    if GoesOn(f) {
      OnwardKeeps(decode, max, entry, before, refs, v, a, f);
    } else {
      LeadsKeeps(decode, max, entry, before, refs, v, a, f);
    }
  }

  /** The block ends at `a`. */
  predicate Stops(decode: Decoder, start: nat, w: Walk, a: nat, fuel: nat) {
    fuel == 0 || (a in w.visited && a != start) || decode(a).None?
  }

  /** Where a block is at `a`, one step of it keeps `going`, and its end gives `done`. */
  ghost predicate StepKeeps(decode: Decoder, start: nat, going: (Walk, nat, nat) -> bool, done: Walk -> bool, w: Walk, a: nat, fuel: nat, f: Facts) {
    going(w, a, fuel) ==>
      && (Stops(decode, start, w, a, fuel) ==> done(w))
      && (!Stops(decode, start, w, a, fuel) && decode(a) == Some(f) ==>
            if GoesOn(f) then going(Visit(w, a, f), a + f.length, fuel - 1) else done(Leads(Visit(w, a, f), a, f)))
  }

  lemma {:induction false} BlockSteps(decode: Decoder, start: nat, going: (Walk, nat, nat) -> bool, done: Walk -> bool, a: nat, fuel: nat, w: Walk)
    requires going(w, a, fuel) && forall w, a, fuel, f :: StepKeeps(decode, start, going, done, w, a, fuel, f)
    ensures done(Block(decode, start, a, fuel, w))
    decreases fuel
  {
    var f := if decode(a).Some? then decode(a).value else Facts(0, Fall, None);
    assert StepKeeps(decode, start, going, done, w, a, fuel, f);
    if !Stops(decode, start, w, a, fuel) && GoesOn(f) {
      BlockSteps(decode, start, going, done, a + f.length, fuel - 1, Visit(w, a, f));
    }
  }

  ghost predicate IsGoing(decode: Decoder, max: nat, entry: nat, before: set<nat>, refs: seq<Ref>, start: nat, w: Walk, a: nat, fuel: nat) {
    WalkKeeps(decode, max, entry, before, refs, w, Some(a)) && IsUnderway(decode, max, entry, w, start, a, fuel)
  }

  lemma GoesOnGoing(decode: Decoder, max: nat, entry: nat, before: set<nat>, refs: seq<Ref>, start: nat, w: Walk, a: nat, fuel: nat, f: Facts)
    requires IsGoing(decode, max, entry, before, refs, start, w, a, fuel)
    requires fuel > 0 && (a !in w.visited || a == start) && decode(a) == Some(f)
    ensures if GoesOn(f) then IsGoing(decode, max, entry, before, refs, start, Visit(w, a, f), a + f.length, fuel - 1)
      else WalkKeeps(decode, max, entry, before, refs, Leads(Visit(w, a, f), a, f), None)
  {
    VisitKeeps(decode, max, entry, before, refs, a, w, f);
    if GoesOn(f) { UnderwayOn(decode, max, entry, start, a, fuel, w, f); }
  }

  ghost function Going(decode: Decoder, max: nat, entry: nat, before: set<nat>, refs: seq<Ref>, start: nat): (Walk, nat, nat) -> bool {
    (w: Walk, a: nat, fuel: nat) => IsGoing(decode, max, entry, before, refs, start, w, a, fuel)
  }

  ghost function Done(decode: Decoder, max: nat, entry: nat, before: set<nat>, refs: seq<Ref>): Walk -> bool {
    (w: Walk) => WalkKeeps(decode, max, entry, before, refs, w, None)
  }

  lemma OneStep(decode: Decoder, max: nat, entry: nat, before: set<nat>, refs: seq<Ref>, start: nat, w: Walk, a: nat, fuel: nat, f: Facts)
    requires IsGoing(decode, max, entry, before, refs, start, w, a, fuel)
    ensures Stops(decode, start, w, a, fuel) ==> WalkKeeps(decode, max, entry, before, refs, w, None)
    ensures !Stops(decode, start, w, a, fuel) && decode(a) == Some(f) ==>
      if GoesOn(f) then IsGoing(decode, max, entry, before, refs, start, Visit(w, a, f), a + f.length, fuel - 1)
      else WalkKeeps(decode, max, entry, before, refs, Leads(Visit(w, a, f), a, f), None)
  {
    if Stops(decode, start, w, a, fuel) {
      StopKeeps(decode, max, entry, before, refs, start, a, fuel, w);
    } else if decode(a) == Some(f) {
      GoesOnGoing(decode, max, entry, before, refs, start, w, a, fuel, f);
    }
  }

  lemma EachStep(decode: Decoder, max: nat, entry: nat, before: set<nat>, refs: seq<Ref>, start: nat, w: Walk, a: nat, fuel: nat, f: Facts)
    ensures StepKeeps(decode, start, Going(decode, max, entry, before, refs, start), Done(decode, max, entry, before, refs), w, a, fuel, f)
  {
    if IsGoing(decode, max, entry, before, refs, start, w, a, fuel) {
      OneStep(decode, max, entry, before, refs, start, w, a, fuel, f);
    }
  }

  lemma BlockKeeps(decode: Decoder, max: nat, entry: nat, before: set<nat>, refs: seq<Ref>, start: nat, w: Walk)
    requires IsGoing(decode, max, entry, before, refs, start, w, start, max)
    ensures WalkKeeps(decode, max, entry, before, refs, Block(decode, start, start, max, w), None)
  {
    var going, done := Going(decode, max, entry, before, refs, start), Done(decode, max, entry, before, refs);
    forall w, a, fuel, f ensures StepKeeps(decode, start, going, done, w, a, fuel, f) {
      EachStep(decode, max, entry, before, refs, start, w, a, fuel, f);
    }
    BlockSteps(decode, start, going, done, start, max, w);
    assert done(Block(decode, start, start, max, w));
  }

  // ---- the blocks

  /** The first block of the queue taken, to walk or walked before. */
  lemma TakenKeeps(decode: Decoder, max: nat, entry: nat, before: set<nat>, refs: seq<Ref>, w: Walk)
    requires WalkKeeps(decode, max, entry, before, refs, w, None) && w.queue != []
    ensures var start, rest := w.queue[0], w.(queue := w.queue[1..]);
      && IsBlockStart(decode, entry, Addresses(w.body), start)
      && (start in w.blocks ==> WalkKeeps(decode, max, entry, before, refs, rest, None))
      && WalkKeeps(decode, max, entry, before, refs, rest.(blocks := w.blocks + {start}), Some(start))
  {
    var start, rest := w.queue[0], w.(queue := w.queue[1..]);
    assert forall s | s in w.queue :: s == start || s in rest.queue;
    forall p, s | p in Addresses(w.body)
      ensures EdgeOk(decode, max, entry, rest.(blocks := w.blocks + {start}), Some(start), p, s)
      ensures start in w.blocks ==> EdgeOk(decode, max, entry, rest, None, p, s)
    {
      assert EdgeOk(decode, max, entry, w, None, p, s);
    }
    StartMore(decode, entry, Addresses(w.body), Addresses(w.body), start);
  }

  lemma Starting(decode: Decoder, max: nat, entry: nat, w: Walk, start: nat)
    requires start in w.blocks && IsBlockStart(decode, entry, Addresses(w.body), start)
    ensures IsUnderway(decode, max, entry, w, start, start, max)
  {
    var chain := [start];
    assert IsStraight(decode, entry, Addresses(w.body), chain) && chain[|chain| - 1] == start;
  }

  lemma {:induction false} BlocksKeep(decode: Decoder, max: nat, entry: nat, before: set<nat>, refs: seq<Ref>, w: Walk)
    requires DecoderOk(decode) && InLimit(w.queue) && WalkKeeps(decode, max, entry, before, refs, w, None)
    ensures WalkKeeps(decode, max, entry, before, refs, Blocks(decode, max, w), None) && Blocks(decode, max, w).queue == []
    decreases |Left(w.blocks)|, |w.queue|
  {
    if w.queue != [] {
      var start, rest := w.queue[0], w.(queue := w.queue[1..]);
      TakenKeeps(decode, max, entry, before, refs, w);
      if start in w.blocks {
        BlocksKeep(decode, max, entry, before, refs, rest);
      } else {
        var v := rest.(blocks := w.blocks + {start});
        BlockFacts(decode, start, start, max, v);
        FewerLeft(w.blocks, start);
        Starting(decode, max, entry, v, start);
        BlockKeeps(decode, max, entry, before, refs, start, v);
        BlocksKeep(decode, max, entry, before, refs, Block(decode, start, start, max, v));
      }
    }
  }

  /** A walk finds the body of its function, its calls and references. */
  lemma WalkMeans(decode: Decoder, max: nat, entry: nat, before: set<nat>, refs: seq<Ref>)
    requires DecoderOk(decode) && entry < LIMIT
    ensures IsWalkOf(decode, max, entry, before, refs, WalkFrom(decode, max, entry, before, refs))
  {
    var w0 := Walk([entry], {}, before, [], [], refs);
    assert Addresses(w0.body) == {};
    BlocksKeep(decode, max, entry, before, refs, w0);
    KeptIsBody(decode, max, entry, before, refs, WalkFrom(decode, max, entry, before, refs));
  }

  lemma KeptIsBody(decode: Decoder, max: nat, entry: nat, before: set<nat>, refs: seq<Ref>, w: Walk)
    requires WalkKeeps(decode, max, entry, before, refs, w, None) && w.queue == []
    ensures IsBody(decode, max, entry, before, w.body)
  {
    forall a, s | a in Addresses(w.body) ensures Follows(decode, max, entry, w.visited, Addresses(w.body), a, s) {
      assert EdgeOk(decode, max, entry, w, None, a, s);
    }
  }

  // ---- the run

  lemma {:induction false} InsertMeans(s: seq<nat>, x: nat)
    requires Ascends(s)
    ensures Ascends(DiscoveryWalk.Insert(s, x)) && forall y :: y in DiscoveryWalk.Insert(s, x) <==> y in s || y == x
  {
    if !(s == [] || s[|s| - 1] < x || s[|s| - 1] == x) {
      var front, last := s[..|s| - 1], s[|s| - 1];
      InsertMeans(front, x);
      var r := DiscoveryWalk.Insert(front, x);
      forall i | 0 <= i < |r| ensures r[i] < last {
        assert r[i] in r;
      }
      assert s == front + [last];
    }
  }

  lemma {:induction false} AscendingMeans(s: seq<nat>)
    ensures Ascends(Ascending(s)) && forall y :: y in Ascending(s) <==> y in s
  {
    if s != [] {
      var front, last := s[..|s| - 1], s[|s| - 1];
      AscendingMeans(front);
      InsertMeans(Ascending(front), last);
      assert s == front + [last];
    }
  }

  /** A function walked, the addresses of `before` visited before: entered at none of them, with
      its body and the targets of its calls, ascending, once each. */
  ghost predicate IsWalked(decode: Decoder, max: nat, before: set<nat>, f: Walked) {
    && f.0 !in before && f.0 in Addresses(f.1) && IsBody(decode, max, f.0, before, f.1)
    && Ascends(f.2) && AreCalls(decode, f.1, f.2)
  }

  ghost function AllRefs(decode: Decoder, bodies: seq<Walked>): seq<Ref> {
    if bodies == [] then [] else AllRefs(decode, bodies[..|bodies| - 1]) + BodyRefs(decode, bodies[|bodies| - 1].1)
  }

  ghost function InsnCount(bodies: seq<Walked>): nat {
    if bodies == [] then 0 else InsnCount(bodies[..|bodies| - 1]) + |bodies[|bodies| - 1].1|
  }

  ghost function Entries(bodies: seq<Walked>): set<nat> {
    if bodies == [] then {} else Entries(bodies[..|bodies| - 1]) + {bodies[|bodies| - 1].0}
  }

  ghost predicate WalkedAt(decode: Decoder, max: nat, before: set<nat>, bodies: seq<Walked>, k: nat)
    requires k < |bodies|
  {
    IsWalked(decode, max, before + AllAddresses(bodies[..k]), bodies[k])
  }

  ghost predicate AllWalked(decode: Decoder, max: nat, before: set<nat>, bodies: seq<Walked>) {
    forall k | 0 <= k < |bodies| :: WalkedAt(decode, max, before, bodies, k)
  }

  /** The functions walked, one after the other; what they visited and refer to. */
  ghost predicate FindsBodies(decode: Decoder, max: nat, r0: Run, r: Run) {
    && AllWalked(decode, max, r0.visited, r.bodies)
    && r.visited == r0.visited + AllAddresses(r.bodies)
    && r.refs == r0.refs + AllRefs(decode, r.bodies)
  }

  /** The functions there are: those before, as they were, and those at `entries`. */
  ghost predicate FunctionsAre(before: map<nat, bool>, entries: set<nat>, functions: map<nat, bool>) {
    && functions.Keys == before.Keys + entries
    && forall e | e in functions :: functions[e] == (e in before && before[e])
  }

  /** The functions there are, and how many there are more; how many instructions more. */
  ghost predicate FindsFunctions(r0: Run, r: Run) {
    && FunctionsAre(r0.functions, Entries(r.bodies), r.functions)
    && r.found + |r0.functions.Keys| == r0.found + |r.functions.Keys| && r.decoded == r0.decoded + InsnCount(r.bodies)
  }

  /** The entries to walk in their order: those given, then of each function walked the calls to
      where nothing was visited and no function was. */
  ghost function Agenda(r0: Run, bodies: seq<Walked>): seq<nat> {
    if bodies == [] then r0.queue
    else
      Agenda(r0, bodies[..|bodies| - 1])
      + NewEntries(bodies[|bodies| - 1].2, r0.visited + AllAddresses(bodies), map e | e in r0.functions.Keys + Entries(bodies) :: false)
  }

  /** There is nothing more to do about the entry `e`. */
  ghost predicate IsSettled(decode: Decoder, max: nat, r0: Run, visited: set<nat>, e: nat) {
    e in visited || (e in r0.functions && r0.functions[e]) || decode(e).None? || max == 0
  }

  /** The first `n` entries of the agenda are settled. */
  ghost predicate AllSettled(decode: Decoder, max: nat, r0: Run, visited: set<nat>, agenda: seq<nat>, n: nat) {
    n <= |agenda| && forall i | 0 <= i < n :: IsSettled(decode, max, r0, visited, agenda[i])
  }

  /** The functions walked are at these places of the agenda, before `n`. */
  ghost predicate ArePlaces(agenda: seq<nat>, bodies: seq<Walked>, n: nat, places: seq<nat>) {
    && Ascends(places) && |places| == |bodies|
    && forall k | 0 <= k < |places| :: places[k] < n <= |agenda| && agenda[places[k]] == bodies[k].0
  }

  /** The first `n` entries of the agenda are settled, the functions walked among them, in order. */
  ghost predicate TakesInOrder(decode: Decoder, max: nat, r0: Run, r: Run, n: nat, places: seq<nat>) {
    var agenda := Agenda(r0, r.bodies);
    && n <= |agenda| && r.queue == agenda[n..]
    && AllSettled(decode, max, r0, r.visited, agenda, n) && ArePlaces(agenda, r.bodies, n, places)
  }

  /** Every call of a function walked is to where something was visited, to a function there was
      before or on the agenda. */
  ghost predicate CallsOnAgenda(r0: Run, r: Run) {
    forall k, c | 0 <= k < |r.bodies| && c in r.bodies[k].2 :: c in r.visited || c in r0.functions || c in Agenda(r0, r.bodies)
  }

  ghost predicate RunKeeps(decode: Decoder, max: nat, r0: Run, r: Run) {
    && FindsBodies(decode, max, r0, r) && FindsFunctions(r0, r) && CallsOnAgenda(r0, r)
    && exists n: nat, places: seq<nat> :: TakesInOrder(decode, max, r0, r, n, places)
  }

  /** What a run finds, when it ends: the agenda is done with, or there are too many functions or
      instructions. */
  ghost predicate IsDiscovery(decode: Decoder, max: nat, r0: Run, r: Run) {
    RunKeeps(decode, max, r0, r) && (r.queue == [] || r.found >= 50_000 || r.decoded >= 5_000_000)
  }

  lemma {:induction false} OneMoreRefs(decode: Decoder, bodies: seq<Walked>, f: Walked)
    ensures AllRefs(decode, bodies + [f]) == AllRefs(decode, bodies) + BodyRefs(decode, f.1)
  {
    assert (bodies + [f])[..|bodies|] == bodies;
  }

  lemma {:induction false} OneMoreEntry(bodies: seq<Walked>, f: Walked)
    ensures Entries(bodies + [f]) == Entries(bodies) + {f.0} && InsnCount(bodies + [f]) == InsnCount(bodies) + |f.1|
  {
    assert (bodies + [f])[..|bodies|] == bodies;
  }

  lemma {:induction false} WalkIsWalked(decode: Decoder, max: nat, r: Run, entry: nat)
    requires DecoderOk(decode) && entry < LIMIT && entry !in r.visited
    ensures var w := WalkFrom(decode, max, entry, r.visited, r.refs);
      && w.visited == r.visited + Addresses(w.body) && w.refs == r.refs + BodyRefs(decode, w.body)
      && (w.body != [] ==> IsWalked(decode, max, r.visited, (entry, w.body, Ascending(w.calls))))
      && (w.body == [] ==> Addresses(w.body) == {} && (decode(entry).None? || max == 0))
  {
    var w := WalkFrom(decode, max, entry, r.visited, r.refs);
    WalkMeans(decode, max, entry, r.visited, r.refs);
    WalkVisits(decode, max, entry, r.visited, r.refs);
    AscendingMeans(w.calls);
    if w.body == [] { NothingCut(decode, max, entry); }
  }

  lemma {:induction false} NothingCut(decode: Decoder, max: nat, entry: nat)
    ensures IsCut(decode, max, entry, {}, entry) ==> max == 0
  {
    if IsCut(decode, max, entry, {}, entry) {
      var chain :| |chain| == max + 1 && IsStraight(decode, entry, {}, chain) && chain[max] == entry;
      assert max > 0 ==> GoesStraight(decode, {}, chain, 0);
    }
  }

  /** A walk that finds nothing. */
  lemma {:induction false} NothingFound(decode: Decoder, max: nat, r0: Run, r: Run, entry: nat)
    requires RunKeeps(decode, max, r0, r) && r.queue != [] && r.queue[0] == entry
    requires IsSettled(decode, max, r0, r.visited, entry)
    ensures RunKeeps(decode, max, r0, r.(queue := r.queue[1..]))
  {
    var rest := r.(queue := r.queue[1..]);
    var n: nat, places: seq<nat> :| TakesInOrder(decode, max, r0, r, n, places);
    var agenda := Agenda(r0, r.bodies);
    NextOfAgenda(agenda, r.queue, [], n);
    assert agenda + [] == agenda && rest.queue + [] == rest.queue;
    SettledMore(decode, max, r0, r.visited, r.visited, agenda, agenda, n);
    assert TakesInOrder(decode, max, r0, rest, n + 1, places);
  }

  lemma {:induction false} WalkedStays(decode: Decoder, max: nat, before: set<nat>, bodies: seq<Walked>, f: Walked, k: nat)
    requires k < |bodies| && WalkedAt(decode, max, before, bodies, k)
    ensures WalkedAt(decode, max, before, bodies + [f], k)
  {
    assert (bodies + [f])[..k] == bodies[..k];
  }

  lemma {:induction false} WalkedLast(decode: Decoder, max: nat, before: set<nat>, bodies: seq<Walked>, f: Walked)
    requires IsWalked(decode, max, before + AllAddresses(bodies), f)
    ensures WalkedAt(decode, max, before, bodies + [f], |bodies|)
  {
    assert (bodies + [f])[..|bodies|] == bodies;
  }

  lemma {:induction false} WalkedMore(decode: Decoder, max: nat, before: set<nat>, bodies: seq<Walked>, f: Walked)
    requires AllWalked(decode, max, before, bodies) && WalkedAt(decode, max, before, bodies + [f], |bodies|)
    ensures AllWalked(decode, max, before, bodies + [f])
  {
    forall k | 0 <= k < |bodies + [f]| ensures WalkedAt(decode, max, before, bodies + [f], k) {
      if k < |bodies| { WalkedStays(decode, max, before, bodies, f, k); }
    }
  }

  lemma {:induction false} AllWalkedMore(decode: Decoder, max: nat, before: set<nat>, bodies: seq<Walked>, f: Walked)
    requires AllWalked(decode, max, before, bodies) && IsWalked(decode, max, before + AllAddresses(bodies), f)
    ensures AllWalked(decode, max, before, bodies + [f])
  {
    WalkedLast(decode, max, before, bodies, f);
    WalkedMore(decode, max, before, bodies, f);
  }

  lemma {:induction false} VisitedMore(r0: Run, r: Run, t: Run, f: Walked)
    requires r.visited == r0.visited + AllAddresses(r.bodies)
    requires t.bodies == r.bodies + [f] && t.visited == r.visited + Addresses(f.1)
    ensures t.visited == r0.visited + AllAddresses(t.bodies)
  {
    OneMoreBody(r.bodies, f);
  }

  lemma {:induction false} RefsMore(decode: Decoder, r0: Run, r: Run, t: Run, f: Walked)
    requires r.refs == r0.refs + AllRefs(decode, r.bodies)
    requires t.bodies == r.bodies + [f] && t.refs == r.refs + BodyRefs(decode, f.1)
    ensures t.refs == r0.refs + AllRefs(decode, t.bodies)
  {
    OneMoreRefs(decode, r.bodies, f);
  }

  lemma {:induction false} BodiesMore(decode: Decoder, max: nat, r0: Run, r: Run, t: Run, f: Walked)
    requires FindsBodies(decode, max, r0, r) && IsWalked(decode, max, r.visited, f)
    requires t.bodies == r.bodies + [f] && t.visited == r.visited + Addresses(f.1) && t.refs == r.refs + BodyRefs(decode, f.1)
    ensures FindsBodies(decode, max, r0, t)
  {
    AllWalkedMore(decode, max, r0.visited, r.bodies, f);
    VisitedMore(r0, r, t, f);
    RefsMore(decode, r0, r, t, f);
  }

  /** The functions with one at `e`. */
  function WithFunction(functions: map<nat, bool>, e: nat): map<nat, bool> {
    if e in functions then functions else functions[e := false]
  }

  lemma {:induction false} FunctionsAreMore(before: map<nat, bool>, entries: set<nat>, functions: map<nat, bool>, e: nat)
    requires FunctionsAre(before, entries, functions)
    ensures FunctionsAre(before, entries + {e}, WithFunction(functions, e))
  {
  }

  lemma {:induction false} CountMore(functions: map<nat, bool>, e: nat)
    ensures |WithFunction(functions, e).Keys| == if e in functions then |functions.Keys| else |functions.Keys| + 1
  {
    assert WithFunction(functions, e).Keys == functions.Keys + {e};
  }

  lemma {:induction false} FunctionsMore(r0: Run, r: Run, t: Run, f: Walked)
    requires FindsFunctions(r0, r) && t.bodies == r.bodies + [f] && t.decoded == r.decoded + |f.1|
    requires t.functions == WithFunction(r.functions, f.0)
    requires t.found == if f.0 in r.functions then r.found else r.found + 1
    ensures FindsFunctions(r0, t)
  {
    OneMoreEntry(r.bodies, f);
    FunctionsAreMore(r0.functions, Entries(r.bodies), r.functions, f.0);
    CountMore(r.functions, f.0);
  }

  lemma {:induction false} NewEntriesMean(calls: seq<nat>, visited: set<nat>, functions: map<nat, bool>, c: nat)
    ensures c in NewEntries(calls, visited, functions) <==> c in calls && c !in visited && c !in functions
  {
    if calls != [] { NewEntriesMean(calls[..|calls| - 1], visited, functions, c); }
  }

  lemma {:induction false} NewEntriesByKeys(calls: seq<nat>, visited: set<nat>, f: map<nat, bool>, g: map<nat, bool>)
    requires f.Keys == g.Keys
    ensures NewEntries(calls, visited, f) == NewEntries(calls, visited, g)
  {
    if calls != [] { NewEntriesByKeys(calls[..|calls| - 1], visited, f, g); }
  }

  lemma {:induction false} AgendaMore(r0: Run, r: Run, t: Run, f: Walked)
    requires t.bodies == r.bodies + [f] && t.visited == r0.visited + AllAddresses(t.bodies) && FindsFunctions(r0, t)
    ensures Agenda(r0, t.bodies) == Agenda(r0, r.bodies) + NewEntries(f.2, t.visited, t.functions)
  {
    assert t.bodies[..|r.bodies|] == r.bodies;
    var known := map e | e in r0.functions.Keys + Entries(t.bodies) :: false;
    NewEntriesByKeys(f.2, t.visited, known, t.functions);
  }

  lemma {:induction false} SettledMore(decode: Decoder, max: nat, r0: Run, visited: set<nat>, seen: set<nat>, agenda: seq<nat>, more: seq<nat>, n: nat)
    requires AllSettled(decode, max, r0, visited, agenda, n) && visited <= seen && n < |agenda| && agenda <= more
    requires IsSettled(decode, max, r0, seen, agenda[n])
    ensures AllSettled(decode, max, r0, seen, more, n + 1)
  {
    forall i | 0 <= i < n + 1 ensures IsSettled(decode, max, r0, seen, more[i]) {
      assert i < n ==> IsSettled(decode, max, r0, visited, agenda[i]);
    }
  }

  lemma {:induction false} PlacesMore(agenda: seq<nat>, more: seq<nat>, bodies: seq<Walked>, f: Walked, n: nat, places: seq<nat>)
    requires ArePlaces(agenda, bodies, n, places) && n < |agenda| && agenda <= more && agenda[n] == f.0
    ensures ArePlaces(more, bodies + [f], n + 1, places + [n])
  {
  }

  lemma {:induction false} OrderMore(decode: Decoder, max: nat, r0: Run, r: Run, t: Run, f: Walked, n: nat, places: seq<nat>)
    requires TakesInOrder(decode, max, r0, r, n, places) && r.queue != [] && r.queue[0] == f.0 && r.visited <= t.visited && f.0 in t.visited
    requires t.bodies == r.bodies + [f] && t.visited == r0.visited + AllAddresses(t.bodies) && FindsFunctions(r0, t)
    requires t.queue == r.queue[1..] + NewEntries(f.2, t.visited, t.functions)
    ensures TakesInOrder(decode, max, r0, t, n + 1, places + [n])
  {
    AgendaMore(r0, r, t, f);
    var agenda, added := Agenda(r0, r.bodies), NewEntries(f.2, t.visited, t.functions);
    NextOfAgenda(agenda, r.queue, added, n);
    SettledMore(decode, max, r0, r.visited, t.visited, agenda, agenda + added, n);
    PlacesMore(agenda, agenda + added, r.bodies, f, n, places);
  }

  lemma {:induction false} NextOfAgenda(agenda: seq<nat>, queue: seq<nat>, added: seq<nat>, n: nat)
    requires n <= |agenda| && queue == agenda[n..] && queue != []
    ensures n < |agenda| && agenda[n] == queue[0] && queue[1..] + added == (agenda + added)[n + 1..]
  {
  }

  lemma {:induction false} CallsMore(r0: Run, r: Run, t: Run, f: Walked)
    requires CallsOnAgenda(r0, r) && r.visited <= t.visited
    requires t.bodies == r.bodies + [f] && t.visited == r0.visited + AllAddresses(t.bodies) && FindsFunctions(r0, t)
    requires Entries(t.bodies) <= t.visited
    ensures CallsOnAgenda(r0, t)
  {
    AgendaMore(r0, r, t, f);
    forall k, c | 0 <= k < |t.bodies| && c in t.bodies[k].2 ensures c in t.visited || c in r0.functions || c in Agenda(r0, t.bodies) {
      if k < |r.bodies| { assert c in r.bodies[k].2; } else { NewEntriesMean(f.2, t.visited, t.functions, c); }
    }
  }

  lemma {:induction false} EntriesVisited(decode: Decoder, max: nat, before: set<nat>, bodies: seq<Walked>)
    requires AllWalked(decode, max, before, bodies)
    ensures Entries(bodies) <= AllAddresses(bodies)
  {
    if bodies != [] {
      var front, last := bodies[..|bodies| - 1], bodies[|bodies| - 1];
      forall k | 0 <= k < |front| ensures WalkedAt(decode, max, before, front, k) {
        assert WalkedAt(decode, max, before, bodies, k) && front[..k] == bodies[..k];
      }
      EntriesVisited(decode, max, before, front);
      assert WalkedAt(decode, max, before, bodies, |front|);
    }
  }

  /** What a function found changes. */
  ghost predicate Adds(decode: Decoder, r: Run, t: Run, f: Walked)
    requires r.queue != []
  {
    && t.bodies == r.bodies + [f] && t.visited == r.visited + Addresses(f.1) && t.refs == r.refs + BodyRefs(decode, f.1)
    && t.functions == WithFunction(r.functions, f.0) && t.found == (if f.0 in r.functions then r.found else r.found + 1)
    && t.decoded == r.decoded + |f.1| && t.queue == r.queue[1..] + NewEntries(f.2, t.visited, t.functions)
  }

  lemma {:induction false} FoundAdds(decode: Decoder, r: Run, entry: nat, w: Walk)
    requires r.queue != [] && w.body != [] && w.visited == r.visited + Addresses(w.body) && w.refs == r.refs + BodyRefs(decode, w.body)
    ensures Adds(decode, r, AddFound(r.(queue := r.queue[1..]), entry, w), (entry, w.body, Ascending(w.calls)))
  {
  }

  lemma {:induction false} OrderKept(decode: Decoder, max: nat, r0: Run, r: Run, t: Run, f: Walked)
    requires (exists n: nat, places: seq<nat> :: TakesInOrder(decode, max, r0, r, n, places)) && r.queue != [] && r.queue[0] == f.0
    requires Adds(decode, r, t, f) && f.0 in t.visited && t.visited == r0.visited + AllAddresses(t.bodies) && FindsFunctions(r0, t)
    ensures exists n: nat, places: seq<nat> :: TakesInOrder(decode, max, r0, t, n, places)
  {
    var n: nat, places: seq<nat> :| TakesInOrder(decode, max, r0, r, n, places);
    OrderMore(decode, max, r0, r, t, f, n, places);
  }

  lemma {:induction false} EntryVisited(decode: Decoder, max: nat, before: set<nat>, f: Walked)
    requires IsWalked(decode, max, before, f)
    ensures f.0 in Addresses(f.1)
  {
  }

  lemma {:induction false} EntriesSeen(decode: Decoder, max: nat, r0: Run, t: Run)
    requires FindsBodies(decode, max, r0, t)
    ensures Entries(t.bodies) <= t.visited && t.visited == r0.visited + AllAddresses(t.bodies)
  {
    EntriesVisited(decode, max, r0.visited, t.bodies);
  }

  /** A function more. */
  lemma {:induction false} FunctionFound(decode: Decoder, max: nat, r0: Run, r: Run, t: Run, f: Walked)
    requires RunKeeps(decode, max, r0, r) && r.queue != [] && r.queue[0] == f.0 && IsWalked(decode, max, r.visited, f) && Adds(decode, r, t, f)
    ensures RunKeeps(decode, max, r0, t)
  {
    BodiesMore(decode, max, r0, r, t, f);
    FunctionsMore(r0, r, t, f);
    EntriesSeen(decode, max, r0, t);
    EntryVisited(decode, max, r.visited, f);
    OrderKept(decode, max, r0, r, t, f);
    CallsMore(r0, r, t, f);
  }

  lemma {:induction false} SkipKeeps(decode: Decoder, max: nat, r0: Run, r: Run)
    requires RunKeeps(decode, max, r0, r) && r.queue != [] && Skipped(r, r.queue[0])
    ensures RunKeeps(decode, max, r0, r.(queue := r.queue[1..]))
  {
    SkippedIsSettled(decode, max, r0, r, r.queue[0]);
    NothingFound(decode, max, r0, r, r.queue[0]);
  }

  lemma {:induction false} SkippedIsSettled(decode: Decoder, max: nat, r0: Run, r: Run, entry: nat)
    requires FindsFunctions(r0, r) && Skipped(r, entry)
    ensures IsSettled(decode, max, r0, r.visited, entry)
  {
  }

  lemma {:induction false} NoneKeeps(decode: Decoder, max: nat, r0: Run, r: Run, w: Walk)
    requires RunKeeps(decode, max, r0, r) && r.queue != [] && w.body == [] && w.visited == r.visited && w.refs == r.refs
    requires decode(r.queue[0]).None? || max == 0
    ensures RunKeeps(decode, max, r0, AddFound(r.(queue := r.queue[1..]), r.queue[0], w))
  {
    NothingFound(decode, max, r0, r, r.queue[0]);
    assert AddFound(r.(queue := r.queue[1..]), r.queue[0], w) == r.(queue := r.queue[1..]);
  }

  lemma {:induction false} SomeKeeps(decode: Decoder, max: nat, r0: Run, r: Run, w: Walk)
    requires RunKeeps(decode, max, r0, r) && r.queue != [] && w.body != []
    requires w.visited == r.visited + Addresses(w.body) && w.refs == r.refs + BodyRefs(decode, w.body)
    requires IsWalked(decode, max, r.visited, (r.queue[0], w.body, Ascending(w.calls)))
    ensures RunKeeps(decode, max, r0, AddFound(r.(queue := r.queue[1..]), r.queue[0], w))
  {
    FoundAdds(decode, r, r.queue[0], w);
    FunctionFound(decode, max, r0, r, AddFound(r.(queue := r.queue[1..]), r.queue[0], w), (r.queue[0], w.body, Ascending(w.calls)));
  }

  lemma {:induction false} EntryKeeps(decode: Decoder, max: nat, r0: Run, r: Run, w: Walk)
    requires DecoderOk(decode) && r.queue != [] && r.queue[0] < LIMIT && RunKeeps(decode, max, r0, r) && r.queue[0] !in r.visited
    requires w == WalkFrom(decode, max, r.queue[0], r.visited, r.refs)
    ensures RunKeeps(decode, max, r0, AddFound(r.(queue := r.queue[1..]), r.queue[0], w))
  {
    WalkIsWalked(decode, max, r, r.queue[0]);
    if w.body == [] { NoneKeeps(decode, max, r0, r, w); } else { SomeKeeps(decode, max, r0, r, w); }
  }

  /** The run after the next entry. */
  ghost function Next(decode: Decoder, max: nat, r: Run): Run
    requires DecoderOk(decode) && InLimit(r.queue) && r.queue != []
  {
    var entry, rest := r.queue[0], r.(queue := r.queue[1..]);
    if Skipped(r, entry) then rest else AddFound(rest, entry, WalkFrom(decode, max, entry, rest.visited, rest.refs))
  }

  lemma {:induction false} NextKeeps(decode: Decoder, max: nat, r0: Run, r: Run)
    requires DecoderOk(decode) && InLimit(r.queue) && r.queue != [] && RunKeeps(decode, max, r0, r)
    ensures RunKeeps(decode, max, r0, Next(decode, max, r))
  {
    if Skipped(r, r.queue[0]) {
      SkipKeeps(decode, max, r0, r);
    } else {
      EntryKeeps(decode, max, r0, r, WalkFrom(decode, max, r.queue[0], r.visited, r.refs));
    }
  }

  ghost predicate NextOk(decode: Decoder, max: nat, keeps: Run -> bool, r: Run)
    requires DecoderOk(decode)
  {
    InLimit(r.queue) && r.queue != [] && keeps(r) ==> keeps(Next(decode, max, r))
  }

  /** What every entry keeps the run does. */
  lemma {:induction false} RunSteps(decode: Decoder, max: nat, keeps: Run -> bool, r: Run)
    requires DecoderOk(decode) && InLimit(r.queue) && keeps(r) && forall r :: NextOk(decode, max, keeps, r)
    ensures keeps(Discovered(decode, max, r)) && Finished(Discovered(decode, max, r))
    decreases |Left(r.visited)|, |r.queue|
  {
    if !Finished(r) {
      var entry, rest := r.queue[0], r.(queue := r.queue[1..]);
      assert NextOk(decode, max, keeps, r);
      if Skipped(r, entry) {
        RunSteps(decode, max, keeps, rest);
      } else {
        AddFoundFacts(decode, max, rest, entry);
        RunSteps(decode, max, keeps, AddFound(rest, entry, WalkFrom(decode, max, entry, rest.visited, rest.refs)));
      }
    }
  }

  ghost function Keeps(decode: Decoder, max: nat, r0: Run): Run -> bool {
    (r: Run) => RunKeeps(decode, max, r0, r)
  }

  lemma {:induction false} EachNext(decode: Decoder, max: nat, r0: Run, r: Run)
    requires DecoderOk(decode)
    ensures NextOk(decode, max, Keeps(decode, max, r0), r)
  {
    if InLimit(r.queue) && r.queue != [] && RunKeeps(decode, max, r0, r) { NextKeeps(decode, max, r0, r); }
  }

  lemma {:induction false} StartKeeps(decode: Decoder, max: nat, r0: Run)
    requires r0.bodies == []
    ensures RunKeeps(decode, max, r0, r0)
  {
    assert r0.visited == r0.visited + AllAddresses([]) && r0.refs == r0.refs + AllRefs(decode, []);
    assert TakesInOrder(decode, max, r0, r0, 0, []);
  }

  /** The walk by one thread finds what is there to find. */
  lemma {:induction false} DiscoveredMeans(decode: Decoder, max: nat, r0: Run)
    requires DecoderOk(decode) && InLimit(r0.queue) && r0.bodies == []
    ensures IsDiscovery(decode, max, r0, Discovered(decode, max, r0))
  {
    StartKeeps(decode, max, r0);
    forall r ensures NextOk(decode, max, Keeps(decode, max, r0), r) { EachNext(decode, max, r0, r); }
    RunSteps(decode, max, Keeps(decode, max, r0), r0);
  }
}
