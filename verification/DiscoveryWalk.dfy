/**
 The discovery of functions by one thread: each function's code walked block by block, the
 calls it makes walked in turn.
 */
module DiscoveryWalk {
  import opened Numbers
  import opened Pcode

  const LIMIT: nat := 0x1_0000_0001_0000_0000
  const MAX_INSNS: nat := 10_000
  const MAX_FUNCTIONS: nat := 50_000
  const MAX_INSTRUCTIONS: nat := 5_000_000

  datatype FlowType = Fall | CallFlow | IndirectCall | Jump | CondJump | IndirectJump | Return

  /** What the walk reads of an instruction. */
  datatype Facts = Facts(length: nat, flow: FlowType, target: Option<nat>)

  /** The instruction at each address (`None`: there is none). */
  type Decoder = nat -> Option<Facts>

  ghost predicate DecoderOk(decode: Decoder) {
    forall a: nat :: FactsOk(a, decode(a))
  }

  ghost predicate FactsOk(a: nat, f: Option<Facts>) {
    f.Some? ==> a < TWO64 && f.value.length < 0x1_0000_0000 && (f.value.target.Some? ==> f.value.target.value < TWO64)
  }

  datatype RefKind = RefCall | RefFall | RefIndirectCall | RefJump | RefCondJump | RefIndirectJump
  datatype Ref = Ref(from: nat, target: nat, kind: RefKind)

  /** The references of the instruction at `a`. */
  function Refs(a: nat, f: Facts): seq<Ref> {
    var next := Ref(a, a + f.length, RefFall);
    match f.flow
    case CallFlow => (if f.target.Some? then [Ref(a, f.target.value, RefCall)] else []) + [next]
    case IndirectCall => [Ref(a, 0, RefIndirectCall)]
    case Jump => if f.target.Some? then [Ref(a, f.target.value, RefJump)] else []
    case CondJump => (if f.target.Some? then [Ref(a, f.target.value, RefCondJump)] else []) + [next]
    case IndirectJump => [Ref(a, 0, RefIndirectJump)]
    case Return => []
    case Fall => []
  }

  /** A function's walk: the blocks to walk, those walked, the addresses the run visited, and
      the instructions, calls and references found. */
  datatype Walk = Walk(queue: seq<nat>, blocks: set<nat>, visited: set<nat>, body: seq<(nat, nat)>, calls: seq<nat>, refs: seq<Ref>)

  function Enqueue(w: Walk, target: nat): Walk {
    if target in w.blocks then w else w.(queue := w.queue + [target])
  }

  /** The instruction at `a` visited. */
  function Visit(w: Walk, a: nat, f: Facts): Walk {
    w.(visited := w.visited + {a}, body := w.body + [(a, f.length)], refs := w.refs + Refs(a, f),
       calls := if f.flow == CallFlow && f.target.Some? then w.calls + [f.target.value] else w.calls)
  }

  /** It falls through inside its block. */
  predicate GoesOn(f: Facts) {
    f.flow == CallFlow || f.flow == IndirectCall || f.flow == Fall
  }

  /** The blocks an instruction that ends its block leads to. */
  function Leads(w: Walk, a: nat, f: Facts): Walk {
    if f.flow != Jump && f.flow != CondJump then w
    else
      var w1 := if f.target.Some? then Enqueue(w, f.target.value) else w;
      if f.flow == CondJump then Enqueue(w1, a + f.length) else w1
  }

  /** A block from `a` on, at most `fuel` instructions, up to code visited before. */
  function Block(decode: Decoder, start: nat, a: nat, fuel: nat, w: Walk): Walk
    decreases fuel
  {
    if fuel == 0 || (a in w.visited && a != start) || decode(a).None? then w
    else
      var f := decode(a).value;
      var v := Visit(w, a, f);
      if GoesOn(f) then Block(decode, start, a + f.length, fuel - 1, v) else Leads(v, a, f)
  }

  ghost predicate InLimit(s: seq<nat>) {
    forall i | 0 <= i < |s| :: s[i] < LIMIT
  }

  lemma LeadsFacts(w: Walk, a: nat, f: Facts)
    requires FactsOk(a, Some(f)) && InLimit(w.queue)
    ensures var r := Leads(Visit(w, a, f), a, f);
      r.blocks == w.blocks && InLimit(r.queue) && w.visited <= r.visited && w.body <= r.body
  {
  }

  lemma {:induction false} BlockFacts(decode: Decoder, start: nat, a: nat, fuel: nat, w: Walk)
    requires DecoderOk(decode) && InLimit(w.queue)
    ensures var r := Block(decode, start, a, fuel, w);
      r.blocks == w.blocks && InLimit(r.queue) && w.visited <= r.visited && w.body <= r.body
    decreases fuel
  {
    if !(fuel == 0 || (a in w.visited && a != start) || decode(a).None?) {
      assert FactsOk(a, decode(a));
      var f := decode(a).value;
      if GoesOn(f) { BlockFacts(decode, start, a + f.length, fuel - 1, Visit(w, a, f)); } else { LeadsFacts(w, a, f); }
    }
  }

  ghost function Below(n: nat): set<nat> {
    if n == 0 then {} else Below(n - 1) + {n - 1}
  }

  lemma {:induction false} BelowHas(n: nat, a: nat)
    ensures a in Below(n) <==> a < n
  {
    if n > 0 { BelowHas(n - 1, a); }
  }

  /** The block starts left. */
  ghost function Left(blocks: set<nat>): set<nat> {
    Below(LIMIT) - blocks
  }

  /** The blocks queued, each once, at most `max` instructions of each. */
  ghost function Blocks(decode: Decoder, max: nat, w: Walk): Walk
    requires DecoderOk(decode) && InLimit(w.queue)
    decreases |Left(w.blocks)|, |w.queue|
  {
    if w.queue == [] then w
    else
      var start, rest := w.queue[0], w.(queue := w.queue[1..]);
      if start in w.blocks then Blocks(decode, max, rest)
      else
        var v := rest.(blocks := w.blocks + {start});
        BlockFacts(decode, start, start, max, v);
        FewerLeft(w.blocks, start);
        Blocks(decode, max, Block(decode, start, start, max, v))
  }

  lemma FewerLeft(blocks: set<nat>, start: nat)
    requires start < LIMIT && start !in blocks
    ensures |Left(blocks + {start})| < |Left(blocks)|
  {
    BelowHas(LIMIT, start);
    assert start in Left(blocks);
    assert Left(blocks + {start}) == Left(blocks) - {start};
  }

  /** The walk of the function at `entry`. */
  ghost function WalkFrom(decode: Decoder, max: nat, entry: nat, visited: set<nat>, refs: seq<Ref>): Walk
    requires DecoderOk(decode) && entry < LIMIT
  {
    Blocks(decode, max, Walk([entry], {}, visited, [], [], refs))
  }

  /** The calls found are of instructions decoded. */
  lemma {:induction false} BlockCalls(decode: Decoder, start: nat, a: nat, fuel: nat, w: Walk)
    requires DecoderOk(decode) && InLimit(w.calls)
    ensures InLimit(Block(decode, start, a, fuel, w).calls)
    decreases fuel
  {
    if !(fuel == 0 || (a in w.visited && a != start) || decode(a).None?) {
      assert FactsOk(a, decode(a));
      var f := decode(a).value;
      CallsFacts(w, a, f);
      if GoesOn(f) { BlockCalls(decode, start, a + f.length, fuel - 1, Visit(w, a, f)); }
    }
  }

  lemma CallsFacts(w: Walk, a: nat, f: Facts)
    requires FactsOk(a, Some(f)) && InLimit(w.calls)
    ensures InLimit(Visit(w, a, f).calls) && Leads(Visit(w, a, f), a, f).calls == Visit(w, a, f).calls
  {
  }

  lemma {:induction false} BlocksFacts(decode: Decoder, max: nat, w: Walk)
    requires DecoderOk(decode) && InLimit(w.queue) && InLimit(w.calls)
    ensures w.visited <= Blocks(decode, max, w).visited && w.body <= Blocks(decode, max, w).body && InLimit(Blocks(decode, max, w).calls)
    decreases |Left(w.blocks)|, |w.queue|
  {
    if w.queue != [] {
      var start, rest := w.queue[0], w.(queue := w.queue[1..]);
      if start in w.blocks {
        BlocksFacts(decode, max, rest);
      } else {
        var v := rest.(blocks := w.blocks + {start});
        BlockFacts(decode, start, start, max, v);
        BlockCalls(decode, start, start, max, v);
        FewerLeft(w.blocks, start);
        BlocksFacts(decode, max, Block(decode, start, start, max, v));
      }
    }
  }

  /** A walk that finds an instruction visits its entry. */
  lemma WalkVisits(decode: Decoder, max: nat, entry: nat, visited: set<nat>, refs: seq<Ref>)
    requires DecoderOk(decode) && entry < LIMIT
    ensures var w := WalkFrom(decode, max, entry, visited, refs);
      visited <= w.visited && InLimit(w.calls) && (w.body != [] ==> entry in w.visited)
  {
    var w0 := Walk([entry], {}, visited, [], [], refs);
    BlocksFacts(decode, max, w0);
    var v := w0.(queue := [], blocks := {entry});
    assert w0.blocks + {entry} == {entry} && w0.queue[1..] == [];
    BlockFacts(decode, entry, entry, max, v);
    var b := Block(decode, entry, entry, max, v);
    BlockCalls(decode, entry, entry, max, v);
    assert Blocks(decode, max, w0) == Blocks(decode, max, b);
    if decode(entry).Some? && max > 0 {
      EntryVisited(decode, entry, max, v);
      BlocksFacts(decode, max, b);
    } else {
      assert b == v;
    }
  }

  lemma EntryVisited(decode: Decoder, entry: nat, fuel: nat, v: Walk)
    requires DecoderOk(decode) && InLimit(v.queue) && decode(entry).Some? && fuel > 0
    ensures entry in Block(decode, entry, entry, fuel, v).visited
  {
    var f := decode(entry).value;
    assert FactsOk(entry, decode(entry));
    var u := Visit(v, entry, f);
    if GoesOn(f) { BlockFacts(decode, entry, entry + f.length, fuel - 1, u); } else { LeadsFacts(v, entry, f); }
  }

  /** The addresses of the instructions of a body. */
  ghost function Addresses(body: seq<(nat, nat)>): set<nat> {
    set x | x in body :: x.0
  }

  lemma OneMoreAddress(body: seq<(nat, nat)>, a: nat, length: nat)
    ensures Addresses(body + [(a, length)]) == Addresses(body) + {a}
  {
    var more := body + [(a, length)];
    assert (a, length) in more;
    assert forall x | x in body :: x in more;
  }

  // ---- the run

  /** `x` put in the ascending `s`, once. */
  function Insert(s: seq<nat>, x: nat): seq<nat> {
    if s == [] || s[|s| - 1] < x then s + [x]
    else if s[|s| - 1] == x then s
    else Insert(s[..|s| - 1], x) + [s[|s| - 1]]
  }

  /** Ascending, once each. */
  function Ascending(s: seq<nat>): seq<nat> {
    if s == [] then [] else Insert(Ascending(s[..|s| - 1]), s[|s| - 1])
  }

  lemma {:induction false} InsertLimit(s: seq<nat>, x: nat)
    requires InLimit(s) && x < LIMIT
    ensures InLimit(Insert(s, x))
  {
    if !(s == [] || s[|s| - 1] < x || s[|s| - 1] == x) { InsertLimit(s[..|s| - 1], x); }
  }

  lemma {:induction false} AscendingLimit(s: seq<nat>)
    requires InLimit(s)
    ensures InLimit(Ascending(s))
  {
    if s != [] {
      AscendingLimit(s[..|s| - 1]);
      InsertLimit(Ascending(s[..|s| - 1]), s[|s| - 1]);
    }
  }

  /** A function walked: its entry, its instructions and its calls. */
  type Walked = (nat, seq<(nat, nat)>, seq<nat>)

  /** The addresses of the instructions of the functions walked. */
  ghost function AllAddresses(bodies: seq<Walked>): set<nat> {
    if bodies == [] then {} else AllAddresses(bodies[..|bodies| - 1]) + Addresses(bodies[|bodies| - 1].1)
  }

  lemma OneMoreBody(bodies: seq<Walked>, b: Walked)
    ensures AllAddresses(bodies + [b]) == AllAddresses(bodies) + Addresses(b.1)
  {
    assert (bodies + [b])[..|bodies|] == bodies;
  }

  /** A run: the entries to walk, the addresses visited, the functions and whether each had a
      body, what was found, and the counts of functions and instructions. */
  datatype Run = Run(queue: seq<nat>, visited: set<nat>, functions: map<nat, bool>, refs: seq<Ref>, bodies: seq<Walked>, found: nat, decoded: nat)

  /** The calls to walk from: those neither visited nor functions. */
  function NewEntries(calls: seq<nat>, visited: set<nat>, functions: map<nat, bool>): seq<nat> {
    if calls == [] then []
    else
      var c := calls[|calls| - 1];
      NewEntries(calls[..|calls| - 1], visited, functions) + if c !in visited && c !in functions then [c] else []
  }

  lemma {:induction false} NewEntriesLimit(calls: seq<nat>, visited: set<nat>, functions: map<nat, bool>)
    requires InLimit(calls)
    ensures InLimit(NewEntries(calls, visited, functions))
  {
    if calls != [] { NewEntriesLimit(calls[..|calls| - 1], visited, functions); }
  }

  /** What the walk `w` of `entry` adds. */
  function AddFound(r: Run, entry: nat, w: Walk): Run {
    if w.body == [] then r.(visited := w.visited, refs := w.refs)
    else
      var calls := Ascending(w.calls);
      var functions := if entry in r.functions then r.functions else r.functions[entry := false];
      Run(r.queue + NewEntries(calls, w.visited, functions), w.visited, functions, w.refs, r.bodies + [(entry, w.body, calls)],
          if entry in r.functions then r.found else r.found + 1, r.decoded + |w.body|)
  }

  predicate Skipped(r: Run, entry: nat) {
    entry in r.visited || (entry in r.functions && r.functions[entry])
  }

  predicate Finished(r: Run) {
    r.queue == [] || r.found >= MAX_FUNCTIONS || r.decoded >= MAX_INSTRUCTIONS
  }

  lemma AddFoundFacts(decode: Decoder, max: nat, r: Run, entry: nat)
    requires DecoderOk(decode) && InLimit(r.queue) && entry < LIMIT && entry !in r.visited
    ensures var w := WalkFrom(decode, max, entry, r.visited, r.refs);
      && InLimit(AddFound(r, entry, w).queue)
      && (|Left(w.visited)| < |Left(r.visited)| || (w.body == [] && Left(w.visited) <= Left(r.visited) && |Left(w.visited)| <= |Left(r.visited)|))
  {
    var w := WalkFrom(decode, max, entry, r.visited, r.refs);
    WalkVisits(decode, max, entry, r.visited, r.refs);
    AscendingLimit(w.calls);
    var functions := if entry in r.functions then r.functions else r.functions[entry := false];
    NewEntriesLimit(Ascending(w.calls), w.visited, functions);
    SubsetSize(Left(w.visited), Left(r.visited));
    if w.body != [] {
      BelowHas(LIMIT, entry);
      assert entry in Left(r.visited) && entry !in Left(w.visited);
      SubsetSize(Left(w.visited), Left(r.visited) - {entry});
    }
  }

  /** The walk by one thread. */
  ghost function Discovered(decode: Decoder, max: nat, r: Run): Run
    requires DecoderOk(decode) && InLimit(r.queue)
    decreases |Left(r.visited)|, |r.queue|
  {
    if Finished(r) then r
    else
      var entry, rest := r.queue[0], r.(queue := r.queue[1..]);
      if Skipped(r, entry) then Discovered(decode, max, rest)
      else
        var w := WalkFrom(decode, max, entry, rest.visited, rest.refs);
        AddFoundFacts(decode, max, rest, entry);
        Discovered(decode, max, AddFound(rest, entry, w))
  }
}
