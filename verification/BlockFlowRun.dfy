/**
 Runs of the flow: what every step keeps, why the worklist empties whatever the domain's
 join does, and the loop.
 */
module BlockFlowRun {
  import opened Pcode
  import opened EdgeList
  import opened BlockFlow

  /** The state block `b` is walked from next. */
  ghost function Entry<S, T>(p: Problem<S, T>, st: State<S, T>, b: nat): S
    requires Shaped(p, st) && b < p.Count()
  {
    if p.Rooted(b) || st.saturated[b] || st.into[b] == [] then p.flow.empty else JoinAll(p.flow, st.into[b])
  }

  /** The last walk of `b` was from its entry state. */
  ghost predicate UpToDate<S, T>(p: Problem<S, T>, st: State<S, T>, b: nat)
    requires Shaped(p, st) && b < p.Count()
  {
    st.visits[b] > 0 && (b !in st.work || p.Rooted(b) || st.saturated[b])
  }

  /** The edges a walk of `b` from `s` gives are the ones kept. */
  ghost predicate Stored<S, T>(p: Problem<S, T>, st: State<S, T>, b: nat, s: S)
    requires Shaped(p, st) && b < p.Count()
  {
    var out := WalkBlock(p, b, s).out;
    Below(out, p.Count()) && forall j | 0 <= j < |out| && p.Relevant(out[j].0) :: Find(st.into[out[j].0], b) == Some(out[j].1)
  }

  ghost predicate BlockInv<S, T>(p: Problem<S, T>, st: State<S, T>, b: nat)
    requires Shaped(p, st) && b < p.Count()
  {
    && (st.saturated[b] ==> !p.Rooted(b) && st.visits[b] == MAX_VISITS + 1)
    && (!st.saturated[b] && !p.Rooted(b) ==> st.visits[b] <= MAX_VISITS)
    && (b in st.work ==> p.Relevant(b) && (p.Rooted(b) || st.into[b] != []))
    && (p.Relevant(b) && b !in st.work && (p.Rooted(b) || st.into[b] != []) ==> st.visits[b] > 0)
    && (UpToDate(p, st, b) ==> Stored(p, st, b, Entry(p, st, b)))
  }

  /** What every step keeps. */
  ghost predicate Inv<S, T>(p: Problem<S, T>, st: State<S, T>) {
    Shaped(p, st) && forall b | 0 <= b < p.Count() :: BlockInv(p, st, b)
  }

  /** What delivering the edges `out[i..]` of `b` changes, and does not. */
  ghost predicate Delivered<S, T>(p: Problem<S, T>, b: nat, out: Edges<S>, i: nat, st: State<S, T>, r: State<S, T>)
    requires Shaped(p, st) && Shaped(p, r) && Below(out, p.Count()) && i <= |out|
  {
    EdgesDelivered(p, b, out, i, st, r) && WorkDelivered(p, out, i, st, r)
  }

  ghost predicate EdgesDelivered<S, T>(p: Problem<S, T>, b: nat, out: Edges<S>, i: nat, st: State<S, T>, r: State<S, T>)
    requires Shaped(p, st) && Shaped(p, r) && Below(out, p.Count()) && i <= |out|
  {
    && (forall to, c | 0 <= to < p.Count() && c != b :: Find(r.into[to], c) == Find(st.into[to], c))
    && (forall j | 0 <= j < i :: Find(r.into[out[j].0], b) == Find(st.into[out[j].0], b))
    && (forall j | i <= j < |out| && p.Relevant(out[j].0) :: Find(r.into[out[j].0], b) == Some(out[j].1))
  }

  ghost predicate WorkDelivered<S, T>(p: Problem<S, T>, out: Edges<S>, i: nat, st: State<S, T>, r: State<S, T>)
    requires Shaped(p, st) && Shaped(p, r) && i <= |out|
  {
    && r.visits == st.visits && r.saturated == st.saturated && r.snaps == st.snaps
    && (forall to | 0 <= to < p.Count() && r.into[to] != st.into[to] :: to in r.work && r.into[to] != [])
    && (forall x | 0 <= x < p.Count() && x in st.work :: x in r.work)
    && (forall x | 0 <= x < p.Count() && x in r.work :: x in st.work || (p.Relevant(x) && r.into[x] != []))
    && |r.work| <= |st.work| + |out| - i
  }

  lemma DeliverNext<S, T>(p: Problem<S, T>, b: nat, out: Edges<S>, i: nat, st: State<S, T>)
    requires Shaped(p, st) && Below(out, p.Count()) && i < |out|
    ensures Deliver(p, b, out, i, st) == Deliver(p, b, out, i + 1, DeliverOne(p, b, out[i].0, out[i].1, st))
  {
  }

  lemma DeliverOneFacts<S, T>(p: Problem<S, T>, b: nat, to: nat, s: S, st: State<S, T>)
    requires Shaped(p, st) && to < p.Count()
    ensures var r := DeliverOne(p, b, to, s, st);
      && r.visits == st.visits && r.saturated == st.saturated && r.snaps == st.snaps
      && (forall t | 0 <= t < p.Count() && t != to :: r.into[t] == st.into[t])
      && (forall c :: Find(r.into[to], c) == if c == b && p.Relevant(to) then Some(s) else Find(st.into[to], c))
      && (r.into[to] != st.into[to] ==> to in r.work && r.into[to] != [] && p.Relevant(to))
      && (forall x | x in st.work :: x in r.work)
      && (forall x | x in r.work :: x in st.work || (x == to && r.into[to] != [] && p.Relevant(to)))
      && |r.work| <= |st.work| + 1
  {
    PutFacts(st.into[to], b, s);
    forall c ensures Find(Put(st.into[to], b, s), c) == if c == b then Some(s) else Find(st.into[to], c) {
      FindPut(st.into[to], b, s, c);
    }
  }

  lemma {:induction false} DeliverEdges<S, T>(p: Problem<S, T>, b: nat, out: Edges<S>, i: nat, st: State<S, T>)
    requires Shaped(p, st) && GoodOut(out, p.Count()) && i <= |out|
    ensures EdgesDelivered(p, b, out, i, st, Deliver(p, b, out, i, st))
    decreases |out| - i
  {
    if i < |out| {
      DeliverOneFacts(p, b, out[i].0, out[i].1, st);
      DeliverEdges(p, b, out, i + 1, DeliverOne(p, b, out[i].0, out[i].1, st));
    }
  }

  lemma {:induction false} DeliverWork<S, T>(p: Problem<S, T>, b: nat, out: Edges<S>, i: nat, st: State<S, T>)
    requires Shaped(p, st) && GoodOut(out, p.Count()) && i <= |out|
    ensures WorkDelivered(p, out, i, st, Deliver(p, b, out, i, st))
    decreases |out| - i
  {
    if i < |out| {
      DeliverOneFacts(p, b, out[i].0, out[i].1, st);
      DeliverWork(p, b, out, i + 1, DeliverOne(p, b, out[i].0, out[i].1, st));
    }
  }

  lemma DeliverFacts<S, T>(p: Problem<S, T>, b: nat, out: Edges<S>, st: State<S, T>)
    requires Shaped(p, st) && GoodOut(out, p.Count())
    ensures Delivered(p, b, out, 0, st, Deliver(p, b, out, 0, st))
  {
    DeliverEdges(p, b, out, 0, st);
    DeliverWork(p, b, out, 0, st);
  }

  /** Delivering what is already kept changes nothing. */
  lemma {:induction false} DeliverSame<S, T>(p: Problem<S, T>, b: nat, out: Edges<S>, i: nat, st: State<S, T>)
    requires Shaped(p, st) && GoodOut(out, p.Count()) && i <= |out|
    requires forall j | i <= j < |out| && p.Relevant(out[j].0) :: Find(st.into[out[j].0], b) == Some(out[j].1)
    ensures Deliver(p, b, out, i, st) == st
    decreases |out| - i
  {
    if i < |out| {
      DeliverSame(p, b, out, i + 1, st);
    }
  }

  /** The block taken is popped and its visit counted; at the cap it is saturated. */
  ghost function Popped<S, T>(p: Problem<S, T>, st: State<S, T>): (r: State<S, T>)
    requires Shaped(p, st) && st.work != [] && !st.saturated[st.work[0]]
    ensures Shaped(p, r)
  {
    var b := st.work[0];
    var v := st.visits[b] + 1;
    st.(work := st.work[1..],
        visits := st.visits[b := v],
        saturated := if !p.Rooted(b) && v > MAX_VISITS then st.saturated[b := true] else st.saturated)
  }

  /** A step on a block walked still is its walk from its entry state. */
  lemma StepIsEmit<S, T>(p: Problem<S, T>, st: State<S, T>)
    requires Inv(p, st) && st.work != [] && !st.saturated[st.work[0]]
    ensures var b, q := st.work[0], Popped(p, st);
      Step(p, st) == Emit(p, b, Entry(p, q, b), q)
  {
    var b := st.work[0];
    assert BlockInv(p, st, b);
  }

  lemma PopKeeps<S, T>(p: Problem<S, T>, st: State<S, T>)
    requires Inv(p, st) && st.work != [] && st.saturated[st.work[0]]
    ensures Inv(p, Step(p, st))
  {
    var b, r := st.work[0], Step(p, st);
    forall c | 0 <= c < p.Count() ensures BlockInv(p, r, c) {
      assert BlockInv(p, st, c);
      assert c != b ==> (c in r.work <==> c in st.work);
    }
  }

  lemma EmitKeepsOther<S, T>(p: Problem<S, T>, st: State<S, T>, q: State<S, T>, r: State<S, T>, out: Edges<S>, c: nat)
    requires Inv(p, st) && st.work != [] && !st.saturated[st.work[0]] && c < p.Count() && c != st.work[0]
    requires q.into == st.into && q.work == st.work[1..] && q.visits[..] == Popped(p, st).visits && q.saturated == Popped(p, st).saturated
    requires Shaped(p, q) && Shaped(p, r) && Below(out, p.Count()) && Delivered(p, st.work[0], out, 0, q, r)
    ensures BlockInv(p, r, c)
  {
    assert BlockInv(p, st, c);
    assert c in q.work <==> c in st.work;
    if UpToDate(p, r, c) {
      assert Entry(p, r, c) == Entry(p, st, c);
    }
  }

  /** Every step keeps the invariant. */
  lemma StepKeeps<S, T>(p: Problem<S, T>, st: State<S, T>)
    requires Inv(p, st) && st.work != []
    ensures Inv(p, Step(p, st))
  {
    var b, r := st.work[0], Step(p, st);
    if st.saturated[b] {
      PopKeeps(p, st);
    } else {
      assert BlockInv(p, st, b);
      StepIsEmit(p, st);
      var popped := Popped(p, st);
      var s := Entry(p, popped, b);
      var w := WalkBlock(p, b, s);
      WalkBelow(p, b, s);
      var q := popped.(snaps := popped.snaps + w.snaps);
      DeliverFacts(p, b, w.out, q);
      forall c | 0 <= c < p.Count() ensures BlockInv(p, r, c) {
        if c != b {
          EmitKeepsOther(p, st, q, r, w.out, c);
        } else if UpToDate(p, r, b) {
          assert Entry(p, r, b) == s;
        }
      }
    }
  }

  lemma InitialInv<S, T>(p: Problem<S, T>)
    requires p.Valid()
    ensures Inv(p, Initial(p)) && |Initial(p).work| <= p.Count()
  {
    RootsFacts(p, p.Count());
  }

  // ---- termination

  /** Walks of block `b` that may still change an edge. */
  ghost function LeftAt<S, T>(p: Problem<S, T>, visits: seq<nat>, b: nat): nat
    requires b < |visits| && b < |p.cfg.unknown|
  {
    if p.Rooted(b) then (if visits[b] == 0 then 1 else 0)
    else if visits[b] <= MAX_VISITS + 1 then MAX_VISITS + 1 - visits[b]
    else 0
  }

  ghost function Left<S, T>(p: Problem<S, T>, visits: seq<nat>, n: nat): nat
    requires n <= |visits| && n <= |p.cfg.unknown|
  {
    if n == 0 then 0 else Left(p, visits, n - 1) + LeftAt(p, visits, n - 1)
  }

  lemma {:induction false} LeftUpdate<S, T>(p: Problem<S, T>, visits: seq<nat>, b: nat, v: nat, n: nat)
    requires n <= |visits| && n <= |p.cfg.unknown| && b < |visits| && b < |p.cfg.unknown|
    ensures Left(p, visits[b := v], n) ==
      Left(p, visits, n) + if b < n then LeftAt(p, visits[b := v], b) - LeftAt(p, visits, b) else 0
  {
    if n > 0 { LeftUpdate(p, visits, b, v, n - 1); }
  }

  /** How a step changes the visits and the worklist. */
  lemma StepWork<S, T>(p: Problem<S, T>, st: State<S, T>)
    requires Inv(p, st) && st.work != []
    ensures var r, b := Step(p, st), st.work[0];
      && (st.saturated[b] ==> r.visits == st.visits && |r.work| == |st.work| - 1)
      && (!st.saturated[b] ==> r.visits == st.visits[b := st.visits[b] + 1])
      && (!st.saturated[b] && p.Rooted(b) && st.visits[b] > 0 ==> |r.work| == |st.work| - 1)
      && (!st.saturated[b] ==> |r.work| <= |st.work| - 1 + |WalkBlock(p, b, Entry(p, Popped(p, st), b)).out|)
      && (!st.saturated[b] && !p.Rooted(b) ==> st.visits[b] <= MAX_VISITS)
  {
    var b := st.work[0];
    if !st.saturated[b] {
      StepIsEmit(p, st);
      assert BlockInv(p, st, b);
      var popped := Popped(p, st);
      var s := Entry(p, popped, b);
      var w := WalkBlock(p, b, s);
      WalkBelow(p, b, s);
      var q := popped.(snaps := popped.snaps + w.snaps);
      DeliverFacts(p, b, w.out, q);
      if p.Rooted(b) && st.visits[b] > 0 {
        assert s == Entry(p, st, b);
        DeliverSame(p, b, w.out, 0, q);
      }
    }
  }

  /** Every step uses up a walk or shortens the worklist: no monotonicity is needed. */
  lemma StepDecreases<S, T>(p: Problem<S, T>, st: State<S, T>)
    requires Inv(p, st) && st.work != []
    ensures var r, n := Step(p, st), p.Count();
      Left(p, r.visits, n) < Left(p, st.visits, n)
      || (Left(p, r.visits, n) == Left(p, st.visits, n) && |r.work| < |st.work|)
  {
    StepWork(p, st);
    LeftUpdate(p, st.visits, st.work[0], st.visits[st.work[0]] + 1, p.Count());
  }

  /** The run from `st` until the worklist is empty. */
  ghost function Run<S, T>(p: Problem<S, T>, st: State<S, T>): (r: State<S, T>)
    requires Inv(p, st)
    ensures Inv(p, r) && r.work == []
    decreases Left(p, st.visits, p.Count()), |st.work|
  {
    if st.work == [] then st
    else
      StepKeeps(p, st);
      StepDecreases(p, st);
      Run(p, Step(p, st))
  }

  /** Blocks taken from the worklist in the run from `st`. */
  ghost function Pops<S, T>(p: Problem<S, T>, st: State<S, T>): nat
    requires Inv(p, st)
    decreases Left(p, st.visits, p.Count()), |st.work|
  {
    if st.work == [] then 0
    else
      StepKeeps(p, st);
      StepDecreases(p, st);
      1 + Pops(p, Step(p, st))
  }
}
