/**
 Code decoded ahead of the walk by other threads: whatever a thread sees of the others, what
 it decodes from an entry is true.
 */
module DiscoveryAhead {
  import opened Pcode
  import opened DiscoveryWalk

  /** An instruction decoded ahead; for a jump, the place of its target in the same code. */
  datatype SpecInsn = SpecInsn(addr: nat, facts: Facts, targetAt: Option<nat>)

  /** The code reached from one entry: by address, with the place of the entry, the thread that
      decoded it and its place in that thread's list. */
  datatype Spec = Spec(insns: seq<SpecInsn>, entryAt: Option<nat>, owner: nat, index: nat)

  /** Every instruction is the one decoding gives. */
  ghost predicate TrueInsns(decode: Decoder, insns: seq<SpecInsn>) {
    && (forall i, j | 0 <= i < j < |insns| :: insns[i].addr < insns[j].addr)
    && (forall i | 0 <= i < |insns| :: TrueInsn(decode, insns, i))
  }

  ghost predicate TrueInsn(decode: Decoder, insns: seq<SpecInsn>, i: nat)
    requires i < |insns|
  {
    decode(insns[i].addr) == Some(insns[i].facts) && (insns[i].targetAt.Some? ==> insns[i].targetAt.value < |insns|)
  }

  ghost predicate Truthful(decode: Decoder, s: Spec, entry: nat) {
    TrueInsns(decode, s.insns) && (s.entryAt.Some? ==> s.entryAt.value < |s.insns| && s.insns[s.entryAt.value].addr == entry)
  }

  /** The place of address `a`: a binary search. */
  method Find(insns: seq<SpecInsn>, a: nat) returns (k: Option<nat>)
    requires forall i, j | 0 <= i < j < |insns| :: insns[i].addr < insns[j].addr
    ensures k.Some? ==> k.value < |insns| && insns[k.value].addr == a
  {
    var lo, hi := 0, |insns|;
    while lo < hi
      invariant 0 <= lo <= hi <= |insns|
    {
      var mid := (lo + hi) / 2;
      if insns[mid].addr == a { return Some(mid); }
      if insns[mid].addr < a { lo := mid + 1; } else { hi := mid; }
    }
    k := None;
  }

  // ---- a thread decoding ahead

  /** What a thread reads of the others while it decodes: at each look, whether an address is
      claimed and whether the walk is done. Anything may be answered. */
  datatype Looks = Looks(claimed: (nat, nat) -> bool, stop: nat -> bool)

  /** The instructions found so far, by address: those of the addresses seen. */
  ghost predicate SpecOk(decode: Decoder, insns: seq<SpecInsn>, seen: set<nat>) {
    && (forall i, j | 0 <= i < j < |insns| :: insns[i].addr < insns[j].addr)
    && (forall i | 0 <= i < |insns| :: decode(insns[i].addr) == Some(insns[i].facts) && insns[i].targetAt == None && insns[i].addr in seen)
  }

  method AddInsn(decode: Decoder, insns: seq<SpecInsn>, ghost seen: set<nat>, a: nat, f: Facts) returns (r: seq<SpecInsn>)
    requires SpecOk(decode, insns, seen) && a !in seen && decode(a) == Some(f)
    ensures SpecOk(decode, r, seen + {a})
  {
    var k := |insns|;
    while k > 0 && insns[k - 1].addr > a
      invariant 0 <= k <= |insns| && forall i | k <= i < |insns| :: a < insns[i].addr
    {
      k := k - 1;
    }
    assert k > 0 ==> insns[k - 1].addr in seen;
    InsertedOk(decode, insns, seen, k, a, f);
    r := insns[..k] + [SpecInsn(a, f, None)] + insns[k..];
  }

  lemma InsertedOk(decode: Decoder, insns: seq<SpecInsn>, seen: set<nat>, k: nat, a: nat, f: Facts)
    requires SpecOk(decode, insns, seen) && decode(a) == Some(f) && k <= |insns|
    requires (forall i | k <= i < |insns| :: a < insns[i].addr) && (k > 0 ==> insns[k - 1].addr < a)
    ensures SpecOk(decode, insns[..k] + [SpecInsn(a, f, None)] + insns[k..], seen + {a})
  {
    var r := insns[..k] + [SpecInsn(a, f, None)] + insns[k..];
    assert forall i | 0 <= i < |r| && i != k :: r[i] == insns[if i < k then i else i - 1];
    assert forall i | 0 <= i < k - 1 :: insns[i].addr < insns[k - 1].addr;
    forall i, j | 0 <= i < j < |r| ensures r[i].addr < r[j].addr {
      assert i < k && j == k ==> insns[i].addr < a;
    }
  }

  method PushTargets(queue: seq<nat>, a: nat, f: Facts) returns (r: seq<nat>)
    requires InLimit(queue) && FactsOk(a, Some(f))
    ensures InLimit(r)
  {
    r := queue;
    if (f.flow == Jump || f.flow == CondJump) && f.target.Some? { r := r + [f.target.value]; }
    if f.flow == CondJump { r := r + [a + f.length]; }
  }

  /** The entries reached, and whether by a call. */
  ghost predicate ReachedInLimit(entries: seq<(nat, bool)>) {
    forall i | 0 <= i < |entries| :: entries[i].0 < LIMIT
  }

  /** The straight code from `start`, up to code seen or to be left to another. */
  method DecodeBlock(decode: Decoder, entry: nat, start: nat, listed: set<nat>, looks: Looks, look0: nat,
      insns0: seq<SpecInsn>, seen0: set<nat>, queue0: seq<nat>, entries0: seq<(nat, bool)>)
    returns (insns: seq<SpecInsn>, seen: set<nat>, queue: seq<nat>, entries: seq<(nat, bool)>, look: nat)
    requires DecoderOk(decode) && SpecOk(decode, insns0, seen0) && InLimit(queue0) && start < LIMIT && ReachedInLimit(entries0)
    ensures SpecOk(decode, insns, seen) && InLimit(queue) && ReachedInLimit(entries)
    ensures (seen == seen0 && queue == queue0) || |Left(seen)| < |Left(seen0)|
  {
    insns, seen, queue, entries, look := insns0, seen0, queue0, entries0, look0;
    var a: nat, n := start, 0;
    while n < MAX_INSNS
      invariant SpecOk(decode, insns, seen) && InLimit(queue) && a < LIMIT && ReachedInLimit(entries)
      invariant queue == queue0 && (seen == seen0 || |Left(seen)| < |Left(seen0)|)
      decreases MAX_INSNS - n
    {
      look := look + 1;
      if n % 256 == 255 && looks.stop(look) { return; }
      if a != entry && (looks.claimed(look, a) || a in listed) {
        entries := entries + [(a, false)];
        return;
      }
      if a in seen { return; }
      FewerLeft(seen, a);
      var d := decode(a);
      assert FactsOk(a, d);
      if d.None? || d.value.length > 0xffff {
        seen := seen + {a};
        return;
      }
      var f := d.value;
      insns := AddInsn(decode, insns, seen, a, f);
      seen := seen + {a};
      if f.flow == CallFlow && f.target.Some? { entries := entries + [(f.target.value, true)]; }
      if !GoesOn(f) {
        queue := PushTargets(queue, a, f);
        return;
      }
      a, n := a + f.length, n + 1;
    }
  }

  /** The jumps' targets looked up. */
  method Link(decode: Decoder, insns: seq<SpecInsn>, ghost seen: set<nat>) returns (r: seq<SpecInsn>)
    requires SpecOk(decode, insns, seen)
    ensures TrueInsns(decode, r) && |r| == |insns| && forall i | 0 <= i < |r| :: r[i].addr == insns[i].addr
  {
    r := insns;
    var k := 0;
    while k < |insns|
      invariant 0 <= k <= |insns| == |r| && TrueInsns(decode, r)
      invariant forall i | 0 <= i < |r| :: r[i].addr == insns[i].addr
    {
      var f := r[k].facts;
      if (f.flow == Jump || f.flow == CondJump) && f.target.Some? {
        var at := Find(r, f.target.value);
        LinkOne(decode, r, k, at);
        r := r[k := r[k].(targetAt := at)];
      }
      k := k + 1;
    }
  }

  lemma LinkOne(decode: Decoder, insns: seq<SpecInsn>, k: nat, at: Option<nat>)
    requires TrueInsns(decode, insns) && k < |insns| && (at.Some? ==> at.value < |insns|)
    ensures TrueInsns(decode, insns[k := insns[k].(targetAt := at)])
  {
    var r := insns[k := insns[k].(targetAt := at)];
    forall i | 0 <= i < |r| ensures TrueInsn(decode, r, i) {
      assert TrueInsn(decode, insns, i);
    }
  }

  /** The code the flow from `entry` reaches, whatever the thread sees of the others. */
  method SpeculateOne(decode: Decoder, entry: nat, listed: set<nat>, looks: Looks) returns (spec: Spec, entries: seq<(nat, bool)>)
    requires DecoderOk(decode) && entry < LIMIT
    ensures Truthful(decode, spec, entry) && ReachedInLimit(entries)
  {
    var insns: seq<SpecInsn>, seen: set<nat>, queue, look := [], {}, [entry], 0;
    entries := [];
    while queue != []
      invariant SpecOk(decode, insns, seen) && InLimit(queue) && ReachedInLimit(entries)
      decreases |Left(seen)|, |queue|
    {
      var start := queue[|queue| - 1];
      queue := queue[..|queue| - 1];
      look := look + 1;
      if looks.stop(look) { break; }
      insns, seen, queue, entries, look := DecodeBlock(decode, entry, start, listed, looks, look, insns, seen, queue, entries);
    }
    insns := Link(decode, insns, seen);
    var at := Find(insns, entry);
    spec := Spec(insns, at, 0, 0);
  }

  // ---- the code done

  /** The code done is true and in its thread's list. */
  ghost predicate Published(decode: Decoder, done: map<nat, Spec>, lists: seq<seq<Spec>>) {
    forall e | e in done :: PublishedAt(decode, done, lists, e)
  }

  ghost predicate PublishedAt(decode: Decoder, done: map<nat, Spec>, lists: seq<seq<Spec>>, e: nat)
    requires e in done
  {
    var s := done[e];
    Truthful(decode, s, e) && s.owner < |lists| && s.index < |lists[s.owner]| && lists[s.owner][s.index] == s
  }

  /** Every thread's code is true. */
  ghost predicate ListsTrue(decode: Decoder, lists: seq<seq<Spec>>) {
    forall o, i | 0 <= o < |lists| && 0 <= i < |lists[o]| :: TrueInsns(decode, lists[o][i].insns)
  }

  /** Lists only grow. */
  ghost predicate Grown(a: seq<seq<Spec>>, b: seq<seq<Spec>>) {
    |a| == |b| && forall i | 0 <= i < |a| :: a[i] <= b[i]
  }

  lemma GrownPublished(decode: Decoder, done: map<nat, Spec>, a: seq<seq<Spec>>, b: seq<seq<Spec>>)
    requires Published(decode, done, a) && Grown(a, b)
    ensures Published(decode, done, b)
  {
    forall e | e in done ensures PublishedAt(decode, done, b, e) {
      assert PublishedAt(decode, done, a, e);
      assert a[done[e].owner] <= b[done[e].owner];
    }
  }
}
