/**
 The flow keyed by address as it is run: the edges by the addresses of the blocks they join,
 the blocks before each block, the visits and the flags in maps and sets of addresses. It is
 the run of the flow over the blocks keyed by address, step by step.
 */
module BlockFlowKeyedLoop {
  import opened Numbers
  import opened Pcode
  import opened SortedNats
  import opened EdgeList
  import opened BlockFlow
  import opened BlockFlowRun
  import opened BlockFlowBuild
  import opened BlockFlowLoop
  import opened BlockFlowMarks
  import opened BlockFlowLegacy
  import opened BlockFlowKeyed

  // ---- blocks given by address

  /** Edges with their blocks given by address. */
  ghost function Renamed<S>(addr: seq<nat>, es: Edges<S>): (r: Edges<S>)
    requires Below(es, |addr|)
    ensures |r| == |es|
  {
    seq(|es|, i requires 0 <= i < |es| => (addr[es[i].0], es[i].1))
  }

  lemma RenamedPlace<S>(addr: seq<nat>, es: Edges<S>, k: nat)
    requires Ascends(addr) && Ascending(es) && Below(es, |addr|) && k < |addr|
    ensures Place(Renamed(addr, es), addr[k]) == Place(es, k) && Find(Renamed(addr, es), addr[k]) == Find(es, k)
    ensures Ascending(Renamed(addr, es))
  {
    PlaceUnique(Renamed(addr, es), addr[k], Place(es, k));
  }

  lemma RenamedPut<S>(addr: seq<nat>, es: Edges<S>, k: nat, s: S)
    requires Ascends(addr) && Ascending(es) && Below(es, |addr|) && k < |addr|
    ensures Below(Put(es, k, s), |addr|) && Renamed(addr, Put(es, k, s)) == Put(Renamed(addr, es), addr[k], s)
  {
    RenamedPlace(addr, es, k);
    PutFacts(es, k, s);
    assert Renamed(addr, Put(es, k, s)) == Put(Renamed(addr, es), addr[k], s);
  }

  lemma RenamedAdd<S, T>(f: Flow<S, T>, addr: seq<nat>, es: Edges<S>, k: nat, s: S)
    requires Ascends(addr) && Ascending(es) && Below(es, |addr|) && k < |addr|
    ensures Below(AddEdge(f, es, k, s), |addr|) && Renamed(addr, AddEdge(f, es, k, s)) == AddEdge(f, Renamed(addr, es), addr[k], s)
  {
    RenamedPlace(addr, es, k);
    match Find(es, k)
    case Some(prev) => RenamedPut(addr, es, k, f.join(prev, s));
    case None => RenamedPut(addr, es, k, s);
  }

  // ---- walking a block

  /** `kw` is the walk `w` with its edges given by address. */
  ghost predicate WalkNamed<S, T>(addr: seq<nat>, w: Walk<S, T>, kw: Walk<S, T>) {
    GoodOut(w.out, |addr|) && kw == w.(out := Renamed(addr, w.out))
  }

  /** What the walk reads of `p`. */
  ghost predicate Reading<S, T>(p: Problem<S, T>, flow: Flow<S, T>, lift: seq<Insn>, starts: seq<nat>) {
    && p.flow == flow && p.insns == lift && p.cfg.startAddr == starts && Ascends(starts) && |starts| == p.Count()
    && forall i: nat :: p.want(i)
  }

  /** The state put on the edge to the block at `a`, if one starts there. */
  method EdgeTo<S, T>(flow: Flow<S, T>, starts: seq<nat>, a: nat, kw: Walk<S, T>, ghost w: Walk<S, T>) returns (out: Edges<S>)
    requires Ascends(starts) && WalkNamed(starts, w, kw)
    ensures match BlockOf(starts, a)
      case None => out == kw.out
      case Some(k) => GoodOut(AddEdge(flow, w.out, k, w.st), |starts|) && out == Renamed(starts, AddEdge(flow, w.out, k, w.st))
  {
    out := kw.out;
    if a in starts {
      ghost var k := BlockOf(starts, a).value;
      RenamedPlace(starts, w.out, k);
      RenamedAdd(flow, starts, w.out, k, w.st);
      AddEdgeFacts(flow, w.out, k, w.st, |starts|);
      out := AddToEdge(flow, out, a, kw.st);
    }
  }

  /** One op of the instruction at `address`. */
  method OpKeyed<S, T>(flow: Flow<S, T>, starts: seq<nat>, address: nat, op: PcodeOp, kw: Walk<S, T>, ghost p: Problem<S, T>, ghost i: nat, ghost w: Walk<S, T>)
    returns (kv: Walk<S, T>)
    requires Reading(p, flow, p.insns, starts) && i < |p.insns| && p.insns[i].address == address && WalkNamed(starts, w, kw)
    ensures WalkNamed(starts, WalkOp(p, i, op, w), kv)
  {
    kv := kw;
    if IsCall(op) {
      kv := kv.(snaps := kv.snaps + [(address, flow.snapshot(kv.st))], st := flow.afterCall(kv.st));
    } else if IsJump(op) {
      if Target(op).Some? {
        var out := EdgeTo(flow, starts, Target(op).value, kw, w);
        kv := kv.(out := out);
      }
      kv := kv.(falls := kv.falls && op.opcode != Branch);
    } else if IsStop(op) {
      kv := kv.(falls := false);
    } else {
      kv := kv.(st := flow.apply(kv.st, op));
    }
  }

  lemma OneMoreOp<S, T>(p: Problem<S, T>, i: nat, k: nat, w: Walk<S, T>)
    requires i < |p.insns| && k < |p.insns[i].ops|
    ensures WalkOps(p, i, k + 1, w) == WalkOp(p, i, p.insns[i].ops[k], WalkOps(p, i, k, w))
  {
  }

  method InsnKeyed<S, T>(flow: Flow<S, T>, starts: seq<nat>, insn: Insn, kw: Walk<S, T>, ghost p: Problem<S, T>, ghost i: nat, ghost w: Walk<S, T>)
    returns (kv: Walk<S, T>)
    requires Reading(p, flow, p.insns, starts) && i < |p.insns| && p.insns[i] == insn && WalkNamed(starts, w, kw)
    ensures WalkNamed(starts, WalkOps(p, i, |insn.ops|, w), kv)
  {
    kv := kw;
    ghost var v := w;
    for k := 0 to |insn.ops|
      invariant v == WalkOps(p, i, k, w) && WalkNamed(starts, v, kv)
    {
      kv := OpKeyed(flow, starts, insn.address, insn.ops[k], kv, p, i, v);
      OneMoreOp(p, i, k, w);
      v := WalkOp(p, i, insn.ops[k], v);
    }
  }

  /** The instructions from `from` on that are before the address `limit`, up to one that stops. */
  method InsnsKeyed<S, T>(flow: Flow<S, T>, lift: seq<Insn>, starts: seq<nat>, from: nat, limit: nat, s: S, ghost p: Problem<S, T>)
    returns (kw: Walk<S, T>)
    requires Reading(p, flow, lift, starts) && from <= |lift|
    ensures WalkNamed(starts, WalkInsns(p, from, Upto(lift, from, limit), Walk(s, [], [], true)), kw)
  {
    ghost var w0: Walk<S, T>, end := Walk(s, [], [], true), Upto(lift, from, limit);
    kw := Walk(s, [], [], true);
    var i := from;
    while i < |lift| && lift[i].address < limit && kw.falls
      invariant from <= i <= end && end == Upto(lift, i, limit)
      invariant WalkNamed(starts, WalkInsns(p, from, i, w0), kw)
    {
      WholeInsn(p, from, i, w0);
      kw := InsnKeyed(flow, starts, lift[i], kw, p, i, WalkInsns(p, from, i, w0));
      i := i + 1;
    }
    StoppedWalk(p, from, i, end, w0);
  }

  /** The block at `a` walked from `s`. */
  method WalkKeyed<S, T>(flow: Flow<S, T>, lift: seq<Insn>, starts: seq<nat>, index: map<nat, nat>, a: nat, s: S, ghost b: nat,
      ghost p: Problem<S, T>, ghost external: set<nat>, ghost inBody: nat -> bool) returns (kw: Walk<S, T>)
    requires Reading(p, flow, lift, starts) && IsKeyed(p.cfg, lift, external, inBody) && IsIndex(lift, index) && p.Valid() && b < |starts| && starts[b] == a
    ensures WalkNamed(starts, WalkBlock(p, b, s), kw)
  {
    assert BlockKeyed(p.cfg, lift, b);
    assert IsLastAt(lift, a, index[a]);
    var limit := BlockLimit(starts, a, b);
    kw := InsnsKeyed(flow, lift, starts, index[a], limit, s, p);
    ghost var w := WalkInsns(p, p.cfg.start[b], p.End(b), Walk(s, [], [], true));
    NextStart(p.cfg, lift, external, inBody, index, b);
    kw := FallKeyed(flow, starts, index, limit, kw, b, p, w);
  }

  /** The edge the block falls through. */
  method FallKeyed<S, T>(flow: Flow<S, T>, starts: seq<nat>, index: map<nat, nat>, limit: nat, kw: Walk<S, T>, ghost b: nat, ghost p: Problem<S, T>, ghost w: Walk<S, T>)
    returns (kv: Walk<S, T>)
    requires Ascends(starts) && b < |starts| && limit == Limit(starts, b) && WalkNamed(starts, w, kw)
    requires p.flow == flow && (limit != U64_MAX && limit in index <==> p.HasNext(b)) && (p.HasNext(b) ==> b + 1 < |starts|)
    ensures WalkNamed(starts, if w.falls && p.HasNext(b) then w.(out := AddEdge(p.flow, w.out, b + 1, w.st)) else w, kv)
  {
    kv := kw;
    if kw.falls && limit != U64_MAX && limit in index {
      BlockOfStart(starts, b + 1);
      var out := EdgeTo(flow, starts, limit, kw, w);
      kv := kv.(out := out);
    }
  }

  /** The address block `b` ends before is that of the block it falls into, if there is one. */
  lemma NextStart(cfg: Cfg, lift: seq<Insn>, external: set<nat>, inBody: nat -> bool, index: map<nat, nat>, b: nat)
    requires IsKeyed(cfg, lift, external, inBody) && IsIndex(lift, index) && b < |cfg.startAddr|
    ensures var limit := Limit(cfg.startAddr, b);
      limit != U64_MAX && limit in index <==> b + 1 < |cfg.startAddr| && cfg.startAddr[b + 1] != U64_MAX
  {
    if b + 1 < |cfg.startAddr| { assert BlockKeyed(cfg, lift, b + 1); }
  }

  // ---- the state

  /** What a run keeps, by address. */
  datatype Keyed<S, T> = Keyed(
    edges: map<(nat, nat), S>,
    preds: map<nat, seq<nat>>,
    visits: map<nat, nat>,
    saturated: set<nat>,
    work: seq<nat>,
    queued: set<nat>,
    snaps: seq<(nat, T)>)

  function PredsOf(preds: map<nat, seq<nat>>, a: nat): seq<nat> {
    if a in preds then preds[a] else []
  }

  function VisitsOf(visits: map<nat, nat>, a: nat): nat {
    if a in visits then visits[a] else 0
  }

  function EdgeOf<S>(edges: map<(nat, nat), S>, e: (nat, nat)): Option<S> {
    if e in edges then Some(edges[e]) else None
  }

  /** The addresses of blocks. */
  ghost function Names(addr: seq<nat>, bs: seq<nat>): (r: seq<nat>)
    requires forall i | 0 <= i < |bs| :: bs[i] < |addr|
    ensures |r| == |bs|
  {
    seq(|bs|, i requires 0 <= i < |bs| => addr[bs[i]])
  }

  /** The addresses of the blocks edges come from. */
  ghost function Froms<S>(addr: seq<nat>, es: Edges<S>): (r: seq<nat>)
    requires Below(es, |addr|)
    ensures |r| == |es|
  {
    seq(|es|, i requires 0 <= i < |es| => addr[es[i].0])
  }

  /** The edges into block `to` are those kept by address. */
  ghost predicate IntoNamed<S>(addr: seq<nat>, es: Edges<S>, to: nat, preds: map<nat, seq<nat>>, edges: map<(nat, nat), S>)
    requires to < |addr|
  {
    && Ascending(es) && Below(es, |addr|) && PredsOf(preds, addr[to]) == Froms(addr, es)
    && forall b | 0 <= b < |addr| :: EdgeOf(edges, (addr[b], addr[to])) == Find(es, b)
  }

  ghost predicate WorkNamed(addr: seq<nat>, work: seq<nat>, kwork: seq<nat>, queued: set<nat>) {
    && (forall i | 0 <= i < |work| :: work[i] < |addr|) && kwork == Names(addr, work)
    && forall a :: a in queued <==> a in kwork
  }

  ghost predicate EdgesNamed<S, T>(p: Problem<S, T>, st: State<S, T>, k: Keyed<S, T>) {
    |st.into| == |p.cfg.startAddr| && forall to | 0 <= to < |st.into| :: IntoNamed(p.cfg.startAddr, st.into[to], to, k.preds, k.edges)
  }

  /** `k` is the state `st` by address. */
  ghost predicate Named<S, T>(p: Problem<S, T>, st: State<S, T>, k: Keyed<S, T>) {
    && Shaped(p, st) && k.snaps == st.snaps && EdgesNamed(p, st, k)
    && WorkNamed(p.cfg.startAddr, st.work, k.work, k.queued)
    && (forall b | 0 <= b < p.Count() :: VisitsOf(k.visits, p.cfg.startAddr[b]) == st.visits[b])
    && (forall b | 0 <= b < p.Count() :: p.cfg.startAddr[b] in k.saturated <==> st.saturated[b])
  }

  // ---- the edges into a block

  /** The states on the edges into the block at `a` joined, in the order of their blocks. */
  method JoinKeyed<S, T>(flow: Flow<S, T>, starts: seq<nat>, preds: map<nat, seq<nat>>, edges: map<(nat, nat), S>, a: nat, ghost es: Edges<S>, ghost to: nat)
    returns (s: Option<S>)
    requires Ascends(starts) && to < |starts| && starts[to] == a && IntoNamed(starts, es, to, preds, edges)
    ensures s == if es == [] then None else Some(JoinAll(flow, es))
  {
    s := None;
    var ps := PredsOf(preds, a);
    for i := 0 to |ps|
      invariant i == 0 ==> s == None
      invariant i > 0 ==> s.Some? && JoinFrom(flow, s.value, es, i) == JoinAll(flow, es)
    {
      FindAt(es, i);
      assert EdgeOf(edges, (starts[es[i].0], starts[to])) == Some(es[i].1);
      var e := edges[(ps[i], a)];
      s := Some(if s.None? then e else flow.join(s.value, e));
    }
  }

  lemma FromsAscend<S>(addr: seq<nat>, es: Edges<S>)
    requires Ascends(addr) && Ascending(es) && Below(es, |addr|)
    ensures Ascends(Froms(addr, es))
    ensures forall b | 0 <= b < |addr| :: addr[b] in Froms(addr, es) <==> Find(es, b).Some?
  {
    forall b | 0 <= b < |addr| ensures addr[b] in Froms(addr, es) <==> Find(es, b).Some? {
      if addr[b] in Froms(addr, es) {
        var i :| 0 <= i < |es| && Froms(addr, es)[i] == addr[b];
        FindAt(es, i);
      }
      if Find(es, b).Some? {
        assert Froms(addr, es)[Place(es, b)] == addr[b];
      }
    }
  }

  /** The blocks an edge is put from. */
  lemma FromsPut<S>(addr: seq<nat>, es: Edges<S>, b: nat, s: S, ps: seq<nat>)
    requires Ascends(addr) && Ascending(es) && Below(es, |addr|) && b < |addr|
    requires Ascends(ps) && forall a: nat :: a in ps <==> a in Froms(addr, es) || a == addr[b]
    ensures Ascending(Put(es, b, s)) && Below(Put(es, b, s), |addr|) && ps == Froms(addr, Put(es, b, s))
    ensures Find(es, b).Some? ==> ps == Froms(addr, es)
  {
    var r := Put(es, b, s);
    PutFacts(es, b, s);
    FromsAscend(addr, es);
    FromsAscend(addr, r);
    forall a: nat ensures a in Froms(addr, r) <==> a in Froms(addr, es) || a == addr[b] {
      FromsMember(addr, es, a);
      FromsMember(addr, r, a);
      if c: nat :| c < |addr| && addr[c] == a { FindPut(es, b, s, c); }
    }
    SameAscending(ps, Froms(addr, r));
    if Find(es, b).Some? { SameAscending(ps, Froms(addr, es)); }
  }

  lemma FromsMember<S>(addr: seq<nat>, es: Edges<S>, a: nat)
    requires Below(es, |addr|)
    ensures a in Froms(addr, es) ==> a in addr
  {
    if a in Froms(addr, es) {
      var i :| 0 <= i < |es| && Froms(addr, es)[i] == a;
      assert addr[es[i].0] == a;
    }
  }

  // ---- one step

  /** The edge from `a` to `to` kept. */
  method KeepEdge<S(==)>(preds0: map<nat, seq<nat>>, edges0: map<(nat, nat), S>, starts: seq<nat>, a: nat, to: nat, s: S,
      ghost into: seq<Edges<S>>, ghost b: nat, ghost c: nat)
    returns (preds: map<nat, seq<nat>>, edges: map<(nat, nat), S>, changed: bool)
    requires Ascends(starts) && |into| == |starts| && b < |starts| && c < |starts| && starts[b] == a && starts[c] == to
    requires forall d | 0 <= d < |into| :: IntoNamed(starts, into[d], d, preds0, edges0)
    ensures changed == (Find(into[c], b) != Some(s))
    ensures var after := if changed then into[c := Put(into[c], b, s)] else into;
      forall d | 0 <= d < |after| :: IntoNamed(starts, after[d], d, preds, edges)
  {
    assert IntoNamed(starts, into[c], c, preds0, edges0);
    FromsAscend(starts, into[c]);
    var ps := Insert(PredsOf(preds0, to), a);
    preds := preds0[to := ps];
    edges := edges0;
    changed := EdgeOf(edges0, (a, to)) != Some(s);
    if changed { edges := edges[(a, to) := s]; }
    FromsPut(starts, into[c], b, s, ps);
    ghost var after := if changed then into[c := Put(into[c], b, s)] else into;
    forall d | 0 <= d < |after| ensures IntoNamed(starts, after[d], d, preds, edges) {
      assert IntoNamed(starts, into[d], d, preds0, edges0);
      EdgeKept(starts, into[d], d, preds0, edges0, preds, edges, b, c, s, after[d]);
    }
  }

  lemma EdgeKept<S>(starts: seq<nat>, es: Edges<S>, d: nat, preds0: map<nat, seq<nat>>, edges0: map<(nat, nat), S>,
      preds: map<nat, seq<nat>>, edges: map<(nat, nat), S>, b: nat, c: nat, s: S, after: Edges<S>)
    requires Ascends(starts) && b < |starts| && c < |starts| && d < |starts| && IntoNamed(starts, es, d, preds0, edges0)
    requires preds == preds0[starts[c] := PredsOf(preds, starts[c])]
    requires edges == edges0 || edges == edges0[(starts[b], starts[c]) := s]
    requires edges == edges0 && d == c ==> Find(es, b) == Some(s)
    requires after == if edges != edges0 && d == c then Put(es, b, s) else es
    requires d == c ==> Ascending(after) && Below(after, |starts|) && PredsOf(preds, starts[c]) == Froms(starts, after)
    ensures IntoNamed(starts, after, d, preds, edges)
  {
    assert d != c ==> starts[d] != starts[c];
    forall x | 0 <= x < |starts| ensures EdgeOf(edges, (starts[x], starts[d])) == Find(after, x) {
      assert EdgeOf(edges0, (starts[x], starts[d])) == Find(es, x);
      assert x != b ==> starts[x] != starts[b];
      FindPut(es, b, s, x);
    }
  }

  /** One edge out of the block at `a` delivered. */
  method DeliverKeyed<S(==), T>(k0: Keyed<S, T>, starts: seq<nat>, a: nat, to: nat, s: S, ghost p: Problem<S, T>, ghost st: State<S, T>, ghost b: nat, ghost c: nat)
    returns (k: Keyed<S, T>)
    requires Named(p, st, k0) && p.cfg.startAddr == starts && p.cfg.relevant == None && Ascends(starts) && b < |starts| && c < |starts| && starts[b] == a && starts[c] == to
    ensures Named(p, DeliverOne(p, b, c, s, st), k)
  {
    k := k0;
    var preds, edges, changed := KeepEdge(k0.preds, k0.edges, starts, a, to, s, st.into, b, c);
    k := k.(preds := preds, edges := edges);
    if changed && to !in k.queued {
      k := k.(queued := k.queued + {to}, work := k.work + [to]);
    }
    WorkOne(starts, st.work, k0.work, k0.queued, c);
  }

  lemma WorkOne(addr: seq<nat>, work: seq<nat>, kwork: seq<nat>, queued: set<nat>, c: nat)
    requires Ascends(addr) && WorkNamed(addr, work, kwork, queued) && c < |addr|
    ensures addr[c] in queued <==> c in work
    ensures WorkNamed(addr, work + [c], kwork + [addr[c]], queued + {addr[c]})
  {
    if addr[c] in queued {
      var i :| 0 <= i < |kwork| && kwork[i] == addr[c];
      assert work[i] == c;
    }
    if c in work {
      var i :| 0 <= i < |work| && work[i] == c;
      assert kwork[i] == addr[c];
    }
    assert kwork + [addr[c]] == Names(addr, work + [c]);
  }

  method DeliverAllKeyed<S(==), T>(k0: Keyed<S, T>, starts: seq<nat>, a: nat, kout: Edges<S>, ghost p: Problem<S, T>, ghost st: State<S, T>, ghost b: nat, ghost out: Edges<S>)
    returns (k: Keyed<S, T>)
    requires Named(p, st, k0) && p.cfg.startAddr == starts && p.cfg.relevant == None && Ascends(starts) && b < |starts| && starts[b] == a
    requires GoodOut(out, |starts|) && kout == Renamed(starts, out)
    ensures Named(p, Deliver(p, b, out, 0, st), k)
  {
    k := k0;
    ghost var cur := st;
    for i := 0 to |kout|
      invariant Named(p, cur, k) && Deliver(p, b, out, 0, st) == Deliver(p, b, out, i, cur)
    {
      k := DeliverKeyed(k, starts, a, kout[i].0, kout[i].1, p, cur, b, out[i].0);
      DeliverNext(p, b, out, i, cur);
      cur := DeliverOne(p, b, out[i].0, out[i].1, cur);
    }
  }

  /** The block at the head of the worklist popped, and its visit counted. */
  method PopKeyed<S, T>(k0: Keyed<S, T>, root: bool, ghost p: Problem<S, T>, ghost st: State<S, T>) returns (k: Keyed<S, T>)
    requires Named(p, st, k0) && Ascends(p.cfg.startAddr) && st.work != [] && !st.saturated[st.work[0]] && root == p.Rooted(st.work[0])
    ensures Named(p, Popped(p, st), k)
    ensures k.preds == k0.preds && k.edges == k0.edges
  {
    var a := k0.work[0];
    var v := VisitsOf(k0.visits, a) + 1;
    k := k0.(work := k0.work[1..], queued := k0.queued - {a}, visits := k0.visits[a := v]);
    if !root && v > MAX_VISITS { k := k.(saturated := k.saturated + {a}); }
    WorkPopped(p.cfg.startAddr, st.work, k0.work, k0.queued);
    ghost var b := st.work[0];
    assert forall c | 0 <= c < p.Count() && c != b :: p.cfg.startAddr[c] != a;
  }

  lemma WorkPopped(addr: seq<nat>, work: seq<nat>, kwork: seq<nat>, queued: set<nat>)
    requires Ascends(addr) && WorkNamed(addr, work, kwork, queued) && work != [] && forall i, j | 0 <= i < j < |work| :: work[i] != work[j]
    ensures WorkNamed(addr, work[1..], kwork[1..], queued - {kwork[0]})
  {
    assert kwork[1..] == Names(addr, work[1..]);
    assert kwork == [kwork[0]] + kwork[1..];
    assert kwork[0] !in kwork[1..] by {
      NamesHold(addr, work[1..], work[0]);
    }
  }

  /** The blocks of `p` are those found: where they start, their index and those entered from
      somewhere unknown. */
  ghost predicate Found<S, T>(p: Problem<S, T>, flow: Flow<S, T>, lift: seq<Insn>, external: set<nat>, inBody: nat -> bool,
      starts: seq<nat>, index: map<nat, nat>, unknown: seq<nat>) {
    && Reading(p, flow, lift, starts) && p.Valid() && IsKeyed(p.cfg, lift, external, inBody) && IsIndex(lift, index)
    && Ascends(unknown) && (forall a | a in unknown :: a in starts)
    && forall b | 0 <= b < |starts| :: p.cfg.unknown[b] <==> starts[b] in unknown
  }

  lemma StepOfPopped<S, T>(p: Problem<S, T>, st: State<S, T>)
    requires Shaped(p, st) && st.work != [] && !st.saturated[st.work[0]]
    ensures var b, q := st.work[0], Popped(p, st);
      Step(p, st) ==
        if p.Rooted(b) || q.saturated[b] then Emit(p, b, p.flow.empty, q)
        else if q.into[b] == [] then q
        else Emit(p, b, JoinAll(p.flow, q.into[b]), q)
  {
  }

  lemma PoppedSaturated<S, T>(p: Problem<S, T>, st: State<S, T>, k: Keyed<S, T>)
    requires Named(p, st, k) && Ascends(p.cfg.startAddr) && st.work != [] && st.saturated[st.work[0]]
    ensures Named(p, Step(p, st), k.(work := k.work[1..], queued := k.queued - {k.work[0]}))
  {
    WorkPopped(p.cfg.startAddr, st.work, k.work, k.queued);
  }

  /** One block taken from the worklist. */
  method StepKeyed<S(==), T>(flow: Flow<S, T>, lift: seq<Insn>, starts: seq<nat>, index: map<nat, nat>, first: nat, unknown: seq<nat>, k0: Keyed<S, T>,
      ghost p: Problem<S, T>, ghost st: State<S, T>, ghost external: set<nat>, ghost inBody: nat -> bool) returns (k: Keyed<S, T>)
    requires Found(p, flow, lift, external, inBody, starts, index, unknown) && first == lift[0].address
    requires Named(p, st, k0) && st.work != []
    ensures Named(p, Step(p, st), k)
  {
    var a := k0.work[0];
    ghost var b := st.work[0];
    assert starts[b] == a;
    if a in k0.saturated {
      PoppedSaturated(p, st, k0);
      k := k0.(work := k0.work[1..], queued := k0.queued - {a});
    } else {
      var root := a == first || a in unknown;
      RootNamed(p, flow, lift, external, inBody, starts, index, unknown, b);
      k := PopKeyed(k0, root, p, st);
      StepOfPopped(p, st);
      ghost var q := Popped(p, st);
      assert IntoNamed(starts, q.into[b], b, k.preds, k.edges);
      var s := Some(flow.empty);
      if !root && a !in k.saturated {
        s := JoinKeyed(flow, starts, k.preds, k.edges, a, q.into[b], b);
      }
      if s.Some? { k := EmitKeyed(flow, lift, starts, index, k, a, s.value, b, p, q, external, inBody); }
    }
  }

  lemma RootNamed<S, T>(p: Problem<S, T>, flow: Flow<S, T>, lift: seq<Insn>, external: set<nat>, inBody: nat -> bool,
      starts: seq<nat>, index: map<nat, nat>, unknown: seq<nat>, b: nat)
    requires Found(p, flow, lift, external, inBody, starts, index, unknown) && b < |starts|
    ensures p.Rooted(b) <==> starts[b] == lift[0].address || starts[b] in unknown
  {
    assert b != p.cfg.entry ==> starts[b] != starts[p.cfg.entry];
  }

  /** The block at `a` walked from `s`, and its edges delivered. */
  method EmitKeyed<S(==), T>(flow: Flow<S, T>, lift: seq<Insn>, starts: seq<nat>, index: map<nat, nat>, k0: Keyed<S, T>, a: nat, s: S, ghost b: nat,
      ghost p: Problem<S, T>, ghost st: State<S, T>, ghost external: set<nat>, ghost inBody: nat -> bool) returns (k: Keyed<S, T>)
    requires Reading(p, flow, lift, starts) && p.Valid() && IsKeyed(p.cfg, lift, external, inBody) && IsIndex(lift, index)
    requires Named(p, st, k0) && b < |starts| && starts[b] == a
    ensures Named(p, Emit(p, b, s, st), k)
  {
    var w := WalkKeyed(flow, lift, starts, index, a, s, b, p, external, inBody);
    ghost var v := WalkBlock(p, b, s);
    k := k0.(snaps := k0.snaps + w.snaps);
    ghost var recorded := st.(snaps := st.snaps + v.snaps);
    assert Named(p, recorded, k);
    k := DeliverAllKeyed(k, starts, a, w.out, p, recorded, b, v.out);
  }

  // ---- the run

  /** The blocks of the worklist after the entry. */
  ghost function Others<S, T>(p: Problem<S, T>, n: nat): seq<nat>
    requires p.Valid() && n <= p.Count()
  {
    if n == 0 then [] else Others(p, n - 1) + if p.cfg.unknown[n - 1] && n - 1 != p.cfg.entry then [n - 1] else []
  }

  lemma {:induction false} RootsAre<S, T>(p: Problem<S, T>, n: nat)
    requires p.Valid() && p.cfg.relevant == None && n <= p.Count()
    ensures Roots(p, n) == [p.cfg.entry] + Others(p, n)
  {
    if n > 0 { RootsAre(p, n - 1); }
  }

  lemma {:induction false} OthersFacts<S, T>(p: Problem<S, T>, n: nat)
    requires p.Valid() && n <= p.Count()
    ensures Ascends(Others(p, n))
    ensures forall b: nat :: b in Others(p, n) <==> b < n && p.cfg.unknown[b] && b != p.cfg.entry
  {
    if n > 0 {
      OthersFacts(p, n - 1);
      var r := Others(p, n - 1);
      assert forall i | 0 <= i < |r| :: r[i] in r;
    }
  }

  lemma NamesAscend(addr: seq<nat>, bs: seq<nat>)
    requires Ascends(addr) && Ascends(bs) && forall i | 0 <= i < |bs| :: bs[i] < |addr|
    ensures Ascends(Names(addr, bs))
  {
  }

  lemma NamesFirst(addr: seq<nat>, e: nat, bs: seq<nat>)
    requires e < |addr| && forall i | 0 <= i < |bs| :: bs[i] < |addr|
    ensures Names(addr, [e] + bs) == [addr[e]] + Names(addr, bs)
  {
  }

  lemma NamesIn(addr: seq<nat>, bs: seq<nat>, a: nat)
    requires forall i | 0 <= i < |bs| :: bs[i] < |addr|
    ensures a in Names(addr, bs) ==> a in addr
  {
    if a in Names(addr, bs) {
      var i :| 0 <= i < |bs| && Names(addr, bs)[i] == a;
      assert addr[bs[i]] == a;
    }
  }

  lemma NamesHold(addr: seq<nat>, bs: seq<nat>, b: nat)
    requires Ascends(addr) && b < |addr| && forall i | 0 <= i < |bs| :: bs[i] < |addr|
    ensures addr[b] in Names(addr, bs) <==> b in bs
  {
    if addr[b] in Names(addr, bs) {
      var i :| 0 <= i < |bs| && Names(addr, bs)[i] == addr[b];
      assert bs[i] == b;
    }
    if b in bs {
      var i :| 0 <= i < |bs| && bs[i] == b;
      assert Names(addr, bs)[i] == addr[b];
    }
  }

  /** The worklist starts with the entry and the blocks entered from somewhere unknown. */
  lemma FirstNamed<S, T>(p: Problem<S, T>, first: nat, unknown: seq<nat>)
    requires p.Valid() && p.cfg.relevant == None && Ascends(p.cfg.startAddr) && p.cfg.startAddr[p.cfg.entry] == first && !p.cfg.unknown[p.cfg.entry]
    requires Ascends(unknown) && (forall a | a in unknown :: a in p.cfg.startAddr)
    requires forall b | 0 <= b < p.Count() :: p.cfg.unknown[b] <==> p.cfg.startAddr[b] in unknown
    ensures (forall i | 0 <= i < |Roots(p, p.Count())| :: Roots(p, p.Count())[i] < p.Count())
    ensures Names(p.cfg.startAddr, Roots(p, p.Count())) == [first] + unknown
  {
    RootsAre(p, p.Count());
    OthersFacts(p, p.Count());
    OthersNamed(p.cfg.startAddr, p.cfg.unknown, p.cfg.entry, unknown, Others(p, p.Count()));
    NamesFirst(p.cfg.startAddr, p.cfg.entry, Others(p, p.Count()));
  }

  lemma OthersNamed(starts: seq<nat>, flags: seq<bool>, entry: nat, unknown: seq<nat>, rest: seq<nat>)
    requires Ascends(starts) && Ascends(unknown) && Ascends(rest) && |flags| == |starts| && entry < |flags| && !flags[entry]
    requires (forall a | a in unknown :: a in starts) && forall b | 0 <= b < |starts| :: flags[b] <==> starts[b] in unknown
    requires forall b: nat :: b in rest <==> b < |starts| && flags[b] && b != entry
    ensures (forall i | 0 <= i < |rest| :: rest[i] < |starts|) && Names(starts, rest) == unknown
  {
    assert forall i | 0 <= i < |rest| :: rest[i] in rest;
    NamesAscend(starts, rest);
    forall a: nat ensures a in Names(starts, rest) <==> a in unknown {
      NamesIn(starts, rest, a);
      if a in starts {
        var b: nat :| b < |starts| && starts[b] == a;
        NamesHold(starts, rest, b);
      }
    }
    SameAscending(Names(starts, rest), unknown);
  }

  /** Nothing on the edges, nothing visited. */
  lemma InitialNamed<S, T>(p: Problem<S, T>, first: nat, unknown: seq<nat>, k: Keyed<S, T>)
    requires p.Valid() && Names(p.cfg.startAddr, Initial(p).work) == [first] + unknown
    requires k.edges == map[] && k.preds == map[] && k.visits == map[] && k.saturated == {} && k.snaps == []
    requires k.work == [first] + unknown && k.queued == set a | a in k.work
    ensures Named(p, Initial(p), k)
  {
    assert forall to | 0 <= to < p.Count() :: IntoNamed(p.cfg.startAddr, Initial(p).into[to], to, k.preds, k.edges);
  }

  method StartKeyed<S, T>(first: nat, unknown: seq<nat>, ghost p: Problem<S, T>, ghost flow: Flow<S, T>, ghost lift: seq<Insn>, ghost external: set<nat>, ghost inBody: nat -> bool,
      ghost starts: seq<nat>, ghost index: map<nat, nat>) returns (k: Keyed<S, T>)
    requires Found(p, flow, lift, external, inBody, starts, index, unknown) && first == lift[0].address
    ensures Named(p, Initial(p), k)
  {
    var work := [first] + unknown;
    k := Keyed(map[], map[], map[], {}, work, set a | a in work, []);
    assert !KeyedUnknown(p.cfg, external, inBody, p.cfg.entry);
    FirstNamed(p, first, unknown);
    InitialNamed(p, first, unknown, k);
  }

  /** Every call is recorded. */
  predicate Always(i: nat) { true }

  /** The flow over a lift in any order: the snapshots of all its calls. On an increasing lift,
      none of it at the last address, they are those of the indexed flow, in its order. */
  method PropagateKeyed<S(==, !new), T>(flow: Flow<S, T>, lift: seq<Insn>, external: seq<nat>, inBody: nat -> bool)
    returns (snaps: seq<(nat, T)>, ghost p: Problem<S, T>)
    requires Addressed(lift)
    ensures lift == [] ==> snaps == []
    ensures lift != [] ==>
      && p.flow == flow && p.insns == lift && p.want == Always && IsKeyed(p.cfg, lift, ToSet(external), inBody)
      && p.Valid() && Inv(p, Initial(p)) && snaps == Run(p, Initial(p)).snaps
    ensures lift != [] && Increasing(lift) && BelowLast(lift) ==>
      var q := ProblemOf(flow, lift, ToSet(external), inBody, |lift|, Always);
      q.Valid() && Inv(q, Initial(q)) && snaps == Run(q, Initial(q)).snaps
  {
    snaps := [];
    if lift == [] {
      p := Problem(flow, lift, Cfg([], [], 0, [], [], [], None, true, []), Always);
      return;
    }
    var starts, index, unknown;
    ghost var cfg;
    starts, index, unknown, cfg := KeyedBlocks(lift, external, inBody);
    p := Problem(flow, lift, cfg, Always);
    KeyedIsValid(p, ToSet(external), inBody);
    snaps := RunKeyed(flow, lift, starts, index, unknown, p, ToSet(external), inBody);
    if Increasing(lift) && BelowLast(lift) { KeyedIsIndexed(p, ToSet(external), inBody); }
  }

  method RunKeyed<S(==), T>(flow: Flow<S, T>, lift: seq<Insn>, starts: seq<nat>, index: map<nat, nat>, unknown: seq<nat>,
      ghost p: Problem<S, T>, ghost external: set<nat>, ghost inBody: nat -> bool) returns (snaps: seq<(nat, T)>)
    requires Found(p, flow, lift, external, inBody, starts, index, unknown)
    ensures Inv(p, Initial(p)) && snaps == Run(p, Initial(p)).snaps
  {
    var first := lift[0].address;
    var k := StartKeyed(first, unknown, p, flow, lift, external, inBody, starts, index);
    InitialInv(p);
    ghost var st := Initial(p);
    while k.work != []
      invariant Inv(p, st) && Named(p, st, k) && Run(p, st) == Run(p, Initial(p))
      decreases Left(p, st.visits, p.Count()), |st.work|
    {
      StepKeeps(p, st);
      StepDecreases(p, st);
      k := StepKeyed(flow, lift, starts, index, first, unknown, k, p, st, external, inBody);
      st := Step(p, st);
    }
    snaps := k.snaps;
  }
}
