/**
 The analyzers of a pipeline: the parts of the program each reads and writes, what it may
 rely on, and the pipeline run with each at its place.
 */
module Pipeline {
  import opened Pcode

  /** Parts of the program state: the numbers of the bits set. */
  type Mask = set<nat>

  const NONE: Mask := {}

  predicate Meets(a: Mask, b: Mask) {
    a * b != {}
  }

  lemma MeetsUnion(r: Mask, a: Mask, b: Mask)
    ensures Meets(r, a + b) <==> Meets(r, a) || Meets(r, b)
  {
    assert r * (a + b) == r * a + r * b;
  }

  /** The program, by key (a function's name, a comment, a metadata property). */
  type Key = int
  type Program<V> = map<Key, V>

  datatype Analyzer<!V, !X, !R> = Analyzer(
    // The parts it may change.
    writes: Mask,
    // For one split in two: the parts its first half reads.
    prepareReads: Option<Mask>,
    // Whether nothing reads what it changes, its own keys.
    runsLast: bool,
    own: Key -> bool,
    analyze: Program<V> -> (Program<V>, R),
    prepare: Program<V> -> X,
    apply: (Program<V>, X) -> (Program<V>, R))

  function Look<V>(p: Program<V>, k: Key): Option<V> {
    if k in p then Some(p[k]) else None
  }

  // ---- what an analyzer may rely on and change

  /** The same on the keys of the parts of `m` and of the loaded binary, which has no part. */
  ghost predicate Agree<V>(part: Key -> Option<nat>, m: Mask, p: Program<V>, q: Program<V>) {
    forall k: Key :: part(k).None? || part(k).value in m ==> Look(p, k) == Look(q, k)
  }

  /** Only keys of the parts of `m` changed. */
  ghost predicate ChangesOnly<V>(part: Key -> Option<nat>, m: Mask, p: Program<V>, q: Program<V>) {
    forall k: Key :: Look(q, k) != Look(p, k) ==> part(k).Some? && part(k).value in m
  }

  ghost predicate SameWhere<V>(at: Key -> bool, p: Program<V>, q: Program<V>) {
    forall k: Key | at(k) :: Look(p, k) == Look(q, k)
  }

  ghost predicate IsSplit<V, X, R>(a: Analyzer<V, X, R>) {
    a.prepareReads.Some?
  }

  /** It changes only what it declares to write, and split, its halves do what it does: the
      first reads only what it declares. */
  ghost predicate Honest<V(!new), X(!new), R>(part: Key -> Option<nat>, a: Analyzer<V, X, R>) {
    && (forall p: Program<V> :: ChangesOnly(part, a.writes, p, a.analyze(p).0))
    && (IsSplit(a) ==>
          && (forall p: Program<V> :: a.analyze(p) == a.apply(p, a.prepare(p)))
          && (forall p: Program<V>, q: Program<V> :: ReadsDeclared(part, a, p, q)))
  }

  ghost predicate ReadsDeclared<V, X, R>(part: Key -> Option<nat>, a: Analyzer<V, X, R>, p: Program<V>, q: Program<V>)
    requires IsSplit(a)
  {
    Agree(part, a.prepareReads.value, p, q) ==> a.prepare(p) == a.prepare(q)
  }

  /** A key only an analyzer that runs last changes. */
  ghost predicate Reserved<V, X, R>(line: seq<Analyzer<V, X, R>>, k: Key) {
    exists i :: 0 <= i < |line| && line[i].runsLast && line[i].own(k)
  }

  /** The same but for the keys of the analyzers that run last. */
  ghost predicate SameElsewhere<V, X, R>(line: seq<Analyzer<V, X, R>>, p: Program<V>, q: Program<V>) {
    forall k: Key | !Reserved(line, k) :: Look(p, k) == Look(q, k)
  }

  /** An analyzer at its place neither changes nor reads the keys of those that run last. */
  ghost predicate Ordinary<V(!new), X, R>(line: seq<Analyzer<V, X, R>>, a: Analyzer<V, X, R>) {
    forall p: Program<V>, q: Program<V> :: SameFromSame(line, a, p, q) && SameReserved(line, p, a.analyze(p).0)
  }

  ghost predicate SameFromSame<V, X, R>(line: seq<Analyzer<V, X, R>>, a: Analyzer<V, X, R>, p: Program<V>, q: Program<V>) {
    SameElsewhere(line, p, q) ==> a.analyze(p).1 == a.analyze(q).1 && SameElsewhere(line, a.analyze(p).0, a.analyze(q).0)
  }

  /** The keys of those that run last are as in `p`. */
  ghost predicate SameReserved<V, X, R>(line: seq<Analyzer<V, X, R>>, p: Program<V>, q: Program<V>) {
    forall k: Key | Reserved(line, k) :: Look(q, k) == Look(p, k)
  }

  /** One that runs last changes its own keys only, to what the loaded binary and those keys
      give. */
  ghost predicate Last<V(!new), X, R>(part: Key -> Option<nat>, a: Analyzer<V, X, R>) {
    forall p: Program<V>, q: Program<V> :: OwnFromFixed(part, a, p, q)
  }

  ghost predicate OwnFromFixed<V, X, R>(part: Key -> Option<nat>, a: Analyzer<V, X, R>, p: Program<V>, q: Program<V>) {
    && (forall k: Key | !a.own(k) :: Look(a.analyze(p).0, k) == Look(p, k))
    && (Agree(part, NONE, p, q) && SameWhere(a.own, p, q) ==>
          a.analyze(p).1 == a.analyze(q).1 && SameWhere(a.own, a.analyze(p).0, a.analyze(q).0))
  }

  /** Each is one or the other, and no two that run last share a key. */
  ghost predicate Placed<V(!new), X, R>(part: Key -> Option<nat>, line: seq<Analyzer<V, X, R>>) {
    && (forall i | 0 <= i < |line| :: PlacedAt(part, line, i))
    && (forall i, j | 0 <= i < |line| && 0 <= j < |line| && i != j :: OwnApart(line, i, j))
  }

  ghost predicate PlacedAt<V(!new), X, R>(part: Key -> Option<nat>, line: seq<Analyzer<V, X, R>>, i: nat)
    requires i < |line|
  {
    if line[i].runsLast then Last(part, line[i]) else Ordinary(line, line[i])
  }

  ghost predicate OwnApart<V, X, R>(line: seq<Analyzer<V, X, R>>, i: nat, j: nat)
    requires i < |line| && j < |line|
  {
    line[i].runsLast && line[j].runsLast ==> forall k: Key | line[i].own(k) :: !line[j].own(k)
  }

  ghost predicate HonestAt<V(!new), X(!new), R>(part: Key -> Option<nat>, line: seq<Analyzer<V, X, R>>, i: nat)
    requires i < |line|
  {
    Honest(part, line[i])
  }

  /** The contracts the analyzers of a pipeline keep. */
  ghost predicate Lawful<V(!new), X(!new), R>(part: Key -> Option<nat>, line: seq<Analyzer<V, X, R>>) {
    && (forall i | 0 <= i < |line| :: HonestAt(part, line, i))
    && Placed(part, line)
  }

  // ---- each at its place

  /** The program before analyzer `n`, each run alone at its place. */
  function Before<V, X, R>(line: seq<Analyzer<V, X, R>>, p: Program<V>, n: nat): Program<V>
    requires n <= |line|
  {
    if n == 0 then p else line[n - 1].analyze(Before(line, p, n - 1)).0
  }

  function ResultAt<V, X, R>(line: seq<Analyzer<V, X, R>>, p: Program<V>, i: nat): R
    requires i < |line|
  {
    line[i].analyze(Before(line, p, i)).1
  }

  /** The program before analyzer `n`, those that run last left out when `overlap`. */
  function Ahead<V, X, R>(line: seq<Analyzer<V, X, R>>, overlap: bool, p: Program<V>, n: nat): Program<V>
    requires n <= |line|
  {
    if n == 0 then p
    else
      var q := Ahead(line, overlap, p, n - 1);
      if overlap && line[n - 1].runsLast then q else line[n - 1].analyze(q).0
  }

  lemma {:induction false} AheadIsBefore<V, X, R>(line: seq<Analyzer<V, X, R>>, p: Program<V>, n: nat)
    requires n <= |line|
    ensures Ahead(line, false, p, n) == Before(line, p, n)
  {
    if n > 0 { AheadIsBefore(line, p, n - 1); }
  }

  lemma LastStep<V(!new), X, R>(part: Key -> Option<nat>, line: seq<Analyzer<V, X, R>>, i: nat, q: Program<V>, b: Program<V>)
    requires i < |line| && line[i].runsLast && Last(part, line[i]) && SameElsewhere(line, q, b)
    ensures SameElsewhere(line, q, line[i].analyze(b).0)
  {
    assert OwnFromFixed(part, line[i], b, b);
    forall k: Key | !Reserved(line, k) ensures Look(q, k) == Look(line[i].analyze(b).0, k) {
      assert !line[i].own(k);
    }
  }

  /** Leaving the last ones out shows at their keys only, and these are as at first. */
  lemma {:induction false} AheadAgrees<V(!new), X(!new), R>(part: Key -> Option<nat>, line: seq<Analyzer<V, X, R>>, p: Program<V>, n: nat)
    requires Placed(part, line) && n <= |line|
    ensures SameElsewhere(line, Ahead(line, true, p, n), Before(line, p, n))
    ensures SameReserved(line, p, Ahead(line, true, p, n))
  {
    if n > 0 {
      AheadAgrees(part, line, p, n - 1);
      AheadStep(part, line, p, n - 1, Ahead(line, true, p, n - 1), Before(line, p, n - 1));
    }
  }

  lemma AheadStep<V(!new), X(!new), R>(part: Key -> Option<nat>, line: seq<Analyzer<V, X, R>>, p: Program<V>, i: nat, q: Program<V>, b: Program<V>)
    requires Placed(part, line) && i < |line| && SameElsewhere(line, q, b) && SameReserved(line, p, q)
    ensures var next := if line[i].runsLast then q else line[i].analyze(q).0;
      SameElsewhere(line, next, line[i].analyze(b).0) && SameReserved(line, p, next)
  {
    assert PlacedAt(part, line, i);
    if line[i].runsLast {
      LastStep(part, line, i, q, b);
    } else {
      OrdinaryStep(line, line[i], p, q, b);
    }
  }

  lemma OrdinaryStep<V(!new), X, R>(line: seq<Analyzer<V, X, R>>, a: Analyzer<V, X, R>, p: Program<V>, q: Program<V>, b: Program<V>)
    requires Ordinary(line, a) && SameElsewhere(line, q, b) && SameReserved(line, p, q)
    ensures SameElsewhere(line, a.analyze(q).0, a.analyze(b).0) && SameReserved(line, p, a.analyze(q).0)
  {
    assert SameFromSame(line, a, q, b) && SameReserved(line, q, a.analyze(q).0);
  }

  /** At its place each other analyzer gives the result it gives with none left out. */
  lemma SameResult<V(!new), X(!new), R>(part: Key -> Option<nat>, line: seq<Analyzer<V, X, R>>, overlap: bool, p: Program<V>, i: nat)
    requires Lawful(part, line) && i < |line| && !(overlap && line[i].runsLast)
    ensures line[i].analyze(Ahead(line, overlap, p, i)).1 == ResultAt(line, p, i)
  {
    if overlap {
      AheadAgrees(part, line, p, i);
      assert PlacedAt(part, line, i);
      assert SameFromSame(line, line[i], Ahead(line, overlap, p, i), Before(line, p, i));
    } else {
      AheadIsBefore(line, p, i);
    }
  }

  // ---- those that run last

  /** No analyzer changes the loaded binary. */
  lemma KeepsFixed<V(!new), X(!new), R>(part: Key -> Option<nat>, a: Analyzer<V, X, R>, p: Program<V>, q: Program<V>)
    requires Honest(part, a) && Agree(part, NONE, p, q)
    ensures Agree(part, NONE, p, a.analyze(q).0)
  {
    assert ChangesOnly(part, a.writes, q, a.analyze(q).0);
  }

  lemma {:induction false} BeforeFixed<V(!new), X(!new), R>(part: Key -> Option<nat>, line: seq<Analyzer<V, X, R>>, p: Program<V>, n: nat)
    requires Lawful(part, line) && n <= |line|
    ensures Agree(part, NONE, p, Before(line, p, n))
  {
    if n > 0 {
      BeforeFixed(part, line, p, n - 1);
      assert HonestAt(part, line, n - 1);
      KeepsFixed(part, line[n - 1], p, Before(line, p, n - 1));
    }
  }

  lemma {:induction false} AheadFixed<V(!new), X(!new), R>(part: Key -> Option<nat>, line: seq<Analyzer<V, X, R>>, p: Program<V>, n: nat)
    requires Lawful(part, line) && n <= |line|
    ensures Agree(part, NONE, p, Ahead(line, true, p, n))
  {
    if n > 0 {
      AheadFixed(part, line, p, n - 1);
      assert HonestAt(part, line, n - 1);
      KeepsFixed(part, line[n - 1], p, Ahead(line, true, p, n - 1));
    }
  }

  /** Only its owner changes a key of one that runs last. */
  lemma OthersKeepOwn<V(!new), X(!new), R>(part: Key -> Option<nat>, line: seq<Analyzer<V, X, R>>, i: nat, j: nat, p: Program<V>)
    requires Placed(part, line) && i < |line| && j < |line| && i != j && line[i].runsLast
    ensures SameWhere(line[i].own, line[j].analyze(p).0, p)
  {
    assert PlacedAt(part, line, j) && OwnApart(line, i, j);
    forall k: Key | line[i].own(k) ensures Look(line[j].analyze(p).0, k) == Look(p, k) {
      assert Reserved(line, k);
      if line[j].runsLast {
        assert OwnFromFixed(part, line[j], p, p);
      } else {
        assert SameFromSame(line, line[j], p, p) && SameReserved(line, p, line[j].analyze(p).0);
      }
    }
  }

  /** At its place, its keys are as at first before it and as it leaves them after. */
  lemma {:induction false} OwnBefore<V(!new), X(!new), R>(part: Key -> Option<nat>, line: seq<Analyzer<V, X, R>>, p: Program<V>, i: nat, n: nat)
    requires Placed(part, line) && i < |line| && line[i].runsLast && n <= |line|
    ensures SameWhere(line[i].own, Before(line, p, n), if n <= i then p else Before(line, p, i + 1))
  {
    if n > 0 && n != i + 1 {
      OwnBefore(part, line, p, i, n - 1);
      OthersKeepOwn(part, line, i, n - 1, Before(line, p, n - 1));
    }
  }

  /** The indices of those that run last, in order. */
  function Deferred<V, X, R>(line: seq<Analyzer<V, X, R>>, n: nat): seq<nat>
    requires n <= |line|
  {
    if n == 0 then [] else Deferred(line, n - 1) + if line[n - 1].runsLast then [n - 1] else []
  }

  lemma {:induction false} DeferredFacts<V, X, R>(line: seq<Analyzer<V, X, R>>, n: nat)
    requires n <= |line|
    ensures var l := Deferred(line, n);
      && (forall m | 0 <= m < |l| :: l[m] < n && line[l[m]].runsLast)
      && (forall m, o | 0 <= m < o < |l| :: l[m] < l[o])
      && (forall i | 0 <= i < n && line[i].runsLast :: i in l)
  {
    if n > 0 {
      DeferredFacts(line, n - 1);
      assert line[n - 1].runsLast ==> n - 1 == Deferred(line, n)[|Deferred(line, n - 1)|];
    }
  }

  /** The program after the first `m` of `last` are run on `q`. */
  function Tail<V, X, R>(line: seq<Analyzer<V, X, R>>, last: seq<nat>, q: Program<V>, m: nat): Program<V>
    requires m <= |last| && forall o | 0 <= o < |last| :: last[o] < |line|
  {
    if m == 0 then q else line[last[m - 1]].analyze(Tail(line, last, q, m - 1)).0
  }

  /** `q` has the loaded binary of `p`, at the keys of those run before what they leave there
      at their places, and at the keys of the others what `p` has. */
  ghost predicate TailOk<V(!new), X, R>(part: Key -> Option<nat>, line: seq<Analyzer<V, X, R>>, p: Program<V>, last: seq<nat>, q: Program<V>, m: nat)
    requires forall o | 0 <= o < |last| :: last[o] < |line|
  {
    && Agree(part, NONE, p, q)
    && SameElsewhere(line, q, Before(line, p, |line|))
    && forall o | 0 <= o < |last| :: SameWhere(line[last[o]].own, q, if o < m then Before(line, p, last[o] + 1) else p)
  }

  lemma TailStarts<V(!new), X(!new), R>(part: Key -> Option<nat>, line: seq<Analyzer<V, X, R>>, p: Program<V>, last: seq<nat>)
    requires Lawful(part, line) && last == Deferred(line, |line|)
    ensures forall o | 0 <= o < |last| :: last[o] < |line|
    ensures TailOk(part, line, p, last, Ahead(line, true, p, |line|), 0)
  {
    DeferredFacts(line, |line|);
    var q := Ahead(line, true, p, |line|);
    AheadAgrees(part, line, p, |line|);
    AheadFixed(part, line, p, |line|);
    forall o | 0 <= o < |last| ensures SameWhere(line[last[o]].own, q, p) {
      forall k: Key | line[last[o]].own(k) ensures Look(q, k) == Look(p, k) {
        assert Reserved(line, k);
      }
    }
  }

  /** Run late, one gives the result it gives at its place and leaves its keys so. */
  lemma TailNext<V(!new), X(!new), R>(part: Key -> Option<nat>, line: seq<Analyzer<V, X, R>>, p: Program<V>, last: seq<nat>, q: Program<V>, m: nat)
    requires Lawful(part, line) && last == Deferred(line, |line|) && m < |last|
    requires forall o | 0 <= o < |last| :: last[o] < |line|
    requires TailOk(part, line, p, last, q, m)
    ensures line[last[m]].analyze(q).1 == ResultAt(line, p, last[m])
    ensures TailOk(part, line, p, last, line[last[m]].analyze(q).0, m + 1)
  {
    DeferredFacts(line, |line|);
    var i := last[m];
    var a, b := line[i], Before(line, p, i);
    assert PlacedAt(part, line, i) && HonestAt(part, line, i);
    BeforeFixed(part, line, p, i);
    OwnBefore(part, line, p, i, i);
    LateIsSame(part, a, p, q, b);
    KeepsFixed(part, a, p, q);
    LastStep(part, line, i, Before(line, p, |line|), q);
    forall o | 0 <= o < |last|
      ensures SameWhere(line[last[o]].own, a.analyze(q).0, if o < m + 1 then Before(line, p, last[o] + 1) else p)
    {
      if o != m { OthersKeepOwn(part, line, last[o], i, q); }
    }
  }

  lemma LateIsSame<V(!new), X, R>(part: Key -> Option<nat>, a: Analyzer<V, X, R>, p: Program<V>, q: Program<V>, b: Program<V>)
    requires Last(part, a) && Agree(part, NONE, p, q) && Agree(part, NONE, p, b) && SameWhere(a.own, q, p) && SameWhere(a.own, b, p)
    ensures a.analyze(q).1 == a.analyze(b).1 && SameWhere(a.own, a.analyze(q).0, a.analyze(b).0)
  {
    assert OwnFromFixed(part, a, q, b);
  }

  /** With all of them run the program is that of each run at its place. */
  lemma TailEnds<V(!new), X(!new), R>(part: Key -> Option<nat>, line: seq<Analyzer<V, X, R>>, p: Program<V>, last: seq<nat>, q: Program<V>)
    requires Lawful(part, line) && last == Deferred(line, |line|)
    requires forall o | 0 <= o < |last| :: last[o] < |line|
    requires TailOk(part, line, p, last, q, |last|)
    ensures q == Before(line, p, |line|)
  {
    var b := Before(line, p, |line|);
    DeferredFacts(line, |line|);
    forall k: Key ensures Look(q, k) == Look(b, k) {
      if Reserved(line, k) {
        var i :| 0 <= i < |line| && line[i].runsLast && line[i].own(k);
        var o :| 0 <= o < |last| && last[o] == i;
        OwnBefore(part, line, p, i, |line|);
        assert SameWhere(line[last[o]].own, q, Before(line, p, i + 1));
      }
    }
    SameProgram(q, b);
  }

  lemma SameProgram<V>(p: Program<V>, q: Program<V>)
    requires forall k: Key :: Look(p, k) == Look(q, k)
    ensures p == q
  {
    forall k: Key ensures k in p <==> k in q {
      assert Look(p, k) == Look(q, k);
    }
    forall k | k in p ensures p[k] == q[k] {
      assert Look(p, k) == Look(q, k);
    }
  }
}
