/**
 What the hits of a search are: each a maximal run of bytes that one way of decoding makes
 printable, at the run's own address, and below the cap every run that looks like a string.
 */
module FlossMeaning {
  import opened FlossBytes
  import opened FlossRuns
  import opened FlossGroup
  import opened FlossFilter
  import opened FlossDecode

  /** The way decodes the byte at `t` to something printable. */
  predicate Prints(m: Method, buf: seq<Byte>, t: nat) {
    t < |buf| && IsPrintable(Decode(m, buf[t]))
  }

  /** The bytes `i..j` are decoded printable, and those next to them are not. */
  ghost predicate IsMaximal(m: Method, buf: seq<Byte>, i: nat, j: nat) {
    && i < j <= |buf|
    && (forall t | i <= t < j :: Prints(m, buf, t))
    && (i > 0 ==> !Prints(m, buf, i - 1))
    && !Prints(m, buf, j)
  }

  /** The text is what the way makes of the bytes from `i` on. */
  ghost predicate Reads(m: Method, buf: seq<Byte>, i: nat, text: seq<Byte>) {
    i + |text| <= |buf| && forall t | 0 <= t < |text| :: text[t] == Decode(m, buf[i + t])
  }

  /** The text is what the way makes of a maximal run from `i` on, at least `minLength` bytes
      long; it looks like a string, and its bytes do not. */
  ghost predicate IsString(buf: seq<Byte>, opts: Options, m: Method, i: nat, text: seq<Byte>) {
    && |text| >= opts.minLength && IsMaximal(m, buf, i, i + |text|) && Reads(m, buf, i, text)
    && IsSparse(buf, opts, i, i + |text|) && FlossDecode.Passes(text)
  }

  /** A hit: a string that one of the ways makes, at the address of its first byte. */
  ghost predicate IsHit(buf: seq<Byte>, base: nat, opts: Options, ways: seq<Method>, h: Hit) {
    h.way in ways && h.address >= base && IsString(buf, opts, h.way, h.address - base, h.plaintext)
  }

  // ---- one pass

  lemma RowPrints(m: Method, buf: seq<Byte>, t: nat)
    ensures t < |buf| ==> (Row(m, buf)[t] <==> Prints(m, buf, t))
    ensures t >= |buf| ==> !Prints(m, buf, t)
  {
  }

  /** Where a maximal run starts and ends. */
  lemma StartsMeans(m: Method, buf: seq<Byte>, least: nat, i: nat)
    requires i < |buf| && least >= 1
    ensures var j := RunEnd(Row(m, buf), i);
      Starts(Row(m, buf), least, i) <==> IsMaximal(m, buf, i, j) && j - i >= least
  {
    var row := Row(m, buf);
    RunEndFacts(row, i);
    var j := RunEnd(row, i);
    forall t | 0 <= t < |buf| ensures row[t] <==> Prints(m, buf, t) {
      RowPrints(m, buf, t);
    }
    RowPrints(m, buf, j);
    if i > 0 { RowPrints(m, buf, i - 1); }
  }

  /** A maximal run is the one the scan finds where it starts. */
  lemma MaximalIsRun(m: Method, buf: seq<Byte>, i: nat, j: nat)
    requires IsMaximal(m, buf, i, j)
    ensures RunEnd(Row(m, buf), i) == j
  {
    forall t | 0 <= t < |buf| ensures Row(m, buf)[t] <==> Prints(m, buf, t) {
      RowPrints(m, buf, t);
    }
    RunEndIs(Row(m, buf), i, j);
  }

  /** The runs found are the maximal runs, long enough and kept. */
  lemma {:induction false} RunsMean(m: Method, buf: seq<Byte>, least: nat, keep: (nat, nat) -> bool, hi: nat, i: nat, j: nat)
    requires hi <= |buf| && least >= 1
    ensures (i, j) in Runs(Row(m, buf), least, keep, 0, hi) <==> i < hi && IsMaximal(m, buf, i, j) && j - i >= least && keep(i, j)
  {
    if hi > 0 {
      RunsMean(m, buf, least, keep, hi - 1, i, j);
      StartsMeans(m, buf, least, hi - 1);
      if IsMaximal(m, buf, i, j) && i == hi - 1 { MaximalIsRun(m, buf, i, j); }
    }
  }

  /** They are in the order of the buffer. */
  lemma {:induction false} RunsBelow(row: seq<bool>, least: nat, keep: (nat, nat) -> bool, hi: nat, k: nat)
    requires hi <= |row| && k < |Runs(row, least, keep, 0, hi)|
    ensures Runs(row, least, keep, 0, hi)[k].0 < hi
  {
    if k < |Runs(row, least, keep, 0, hi - 1)| { RunsBelow(row, least, keep, hi - 1, k); }
  }

  lemma {:induction false} RunsAscend(row: seq<bool>, least: nat, keep: (nat, nat) -> bool, hi: nat, k: nat, l: nat)
    requires hi <= |row| && k < l < |Runs(row, least, keep, 0, hi)|
    ensures Runs(row, least, keep, 0, hi)[k].0 < Runs(row, least, keep, 0, hi)[l].0
  {
    RunsBelow(row, least, keep, hi - 1, k);
    if l < |Runs(row, least, keep, 0, hi - 1)| { RunsAscend(row, least, keep, hi - 1, k, l); }
  }

  lemma {:induction false} ToHitsAt(m: Method, buf: seq<Byte>, base: nat, runs: seq<(nat, nat)>, k: nat)
    requires k < |runs| && runs[k].0 <= runs[k].1 <= |buf|
    ensures |ToHits(m, buf, base, runs)| == |runs|
    ensures var h := ToHits(m, buf, base, runs)[k];
      h.way == m && h.address == base + runs[k].0 && |h.plaintext| == runs[k].1 - runs[k].0 && Reads(m, buf, runs[k].0, h.plaintext)
  {
    ToHitsLength(m, buf, base, runs);
    ToHitsLength(m, buf, base, runs[..|runs| - 1]);
    if k < |runs| - 1 { ToHitsAt(m, buf, base, runs[..|runs| - 1], k); }
  }

  lemma {:induction false} ToHitsLength(m: Method, buf: seq<Byte>, base: nat, runs: seq<(nat, nat)>)
    ensures |ToHits(m, buf, base, runs)| == |runs|
  {
    if runs != [] { ToHitsLength(m, buf, base, runs[..|runs| - 1]); }
  }

  lemma SameText(m: Method, buf: seq<Byte>, i: nat, j: nat, text: seq<Byte>)
    requires i <= j <= |buf| && Reads(m, buf, i, text) && |text| == j - i
    ensures text == Plain(m, buf, i, j)
  {
  }

  lemma FoundMeans(m: Method, buf: seq<Byte>, opts: Options, i: nat, j: nat)
    ensures (i, j) in Found(m, buf, opts) <==>
      IsMaximal(m, buf, i, j) && j - i >= AtLeastOne(opts.minLength) && IsSparse(buf, opts, i, j) && FlossDecode.Passes(Plain(m, buf, i, j))
  {
    RunsMean(m, buf, AtLeastOne(opts.minLength), Keeps(m, buf, opts), |buf|, i, j);
  }

  /** The hit of the `k`th run found. */
  lemma HitAt(m: Method, buf: seq<Byte>, base: nat, opts: Options, k: nat)
    requires k < |Found(m, buf, opts)|
    ensures |HitsOf(m, buf, base, opts)| == |Found(m, buf, opts)|
    ensures var (i, j), h := Found(m, buf, opts)[k], HitsOf(m, buf, base, opts)[k];
      i <= j <= |buf| && h == Hit(base + i, m, Plain(m, buf, i, j))
  {
    var runs := Found(m, buf, opts);
    var (i, j) := runs[k];
    assert runs[k] in runs;
    FoundMeans(m, buf, opts, i, j);
    ToHitsAt(m, buf, base, runs, k);
    SameText(m, buf, i, j, ToHits(m, buf, base, runs)[k].plaintext);
  }

  lemma PlainReads(m: Method, buf: seq<Byte>, i: nat, j: nat)
    requires i <= j <= |buf|
    ensures |Plain(m, buf, i, j)| == j - i && Reads(m, buf, i, Plain(m, buf, i, j))
  {
  }

  /** The hit of a run found is a string. */
  lemma RunIsString(m: Method, buf: seq<Byte>, opts: Options, i: nat, j: nat)
    requires i <= j <= |buf|
    ensures |Plain(m, buf, i, j)| == j - i
    ensures (i, j) in Found(m, buf, opts) <==> i < j && IsString(buf, opts, m, i, Plain(m, buf, i, j))
  {
    FoundMeans(m, buf, opts, i, j);
    PlainReads(m, buf, i, j);
  }

  lemma IndexOf<T>(s: seq<T>, x: T) returns (k: nat)
    requires x in s
    ensures k < |s| && s[k] == x
  {
    k :| k < |s| && s[k] == x;
  }

  /** A hit of one way. */
  ghost predicate IsHitOf(buf: seq<Byte>, base: nat, opts: Options, m: Method, h: Hit) {
    h.way == m && h.address >= base && IsString(buf, opts, m, h.address - base, h.plaintext)
  }

  /** The hits of runs: those of the strings they are. */
  ghost predicate AreStrings(m: Method, buf: seq<Byte>, opts: Options, runs: seq<(nat, nat)>) {
    forall i, j | 0 <= i <= j <= |buf| :: (i, j) in runs <==> i < j && IsString(buf, opts, m, i, Plain(m, buf, i, j))
  }

  ghost predicate AreTurned(m: Method, buf: seq<Byte>, base: nat, runs: seq<(nat, nat)>, hs: seq<Hit>) {
    |hs| == |runs| && forall k | 0 <= k < |runs| :: IsTurned(m, buf, base, runs[k], hs[k])
  }

  ghost predicate IsTurned(m: Method, buf: seq<Byte>, base: nat, run: (nat, nat), h: Hit) {
    run.0 <= run.1 <= |buf| && h == Hit(base + run.0, m, Plain(m, buf, run.0, run.1))
  }

  lemma FoundAreStrings(m: Method, buf: seq<Byte>, opts: Options)
    ensures AreStrings(m, buf, opts, Found(m, buf, opts))
  {
    forall i, j | 0 <= i <= j <= |buf| ensures (i, j) in Found(m, buf, opts) <==> i < j && IsString(buf, opts, m, i, Plain(m, buf, i, j)) {
      RunIsString(m, buf, opts, i, j);
    }
  }

  lemma HitsAreTurned(m: Method, buf: seq<Byte>, base: nat, opts: Options)
    ensures AreTurned(m, buf, base, Found(m, buf, opts), HitsOf(m, buf, base, opts))
  {
    ToHitsLength(m, buf, base, Found(m, buf, opts));
    forall k | 0 <= k < |Found(m, buf, opts)| ensures IsTurned(m, buf, base, Found(m, buf, opts)[k], HitsOf(m, buf, base, opts)[k]) {
      HitAt(m, buf, base, opts, k);
    }
  }

  lemma HitIsMeant(m: Method, buf: seq<Byte>, base: nat, opts: Options, runs: seq<(nat, nat)>, hs: seq<Hit>, h: Hit)
    requires AreStrings(m, buf, opts, runs) && AreTurned(m, buf, base, runs, hs) && h in hs
    ensures IsHitOf(buf, base, opts, m, h)
  {
    var k := IndexOf(hs, h);
    assert IsTurned(m, buf, base, runs[k], h);
    var (i, j) := runs[k];
    assert (i, j) in runs;
  }

  lemma StringIsPlain(m: Method, buf: seq<Byte>, opts: Options, i: nat, text: seq<Byte>)
    requires IsString(buf, opts, m, i, text)
    ensures i < i + |text| <= |buf| && text == Plain(m, buf, i, i + |text|)
  {
    SameText(m, buf, i, i + |text|, text);
  }

  lemma MeantIsHit(m: Method, buf: seq<Byte>, base: nat, opts: Options, runs: seq<(nat, nat)>, hs: seq<Hit>, h: Hit)
    requires AreStrings(m, buf, opts, runs) && AreTurned(m, buf, base, runs, hs) && IsHitOf(buf, base, opts, m, h)
    ensures h in hs
  {
    HitIsOfRun(m, buf, base, opts, runs, h);
    RunIsHit(m, buf, base, runs, hs, h);
  }

  /** The hit is that of one of the runs. */
  ghost predicate IsOfRun(m: Method, buf: seq<Byte>, base: nat, runs: seq<(nat, nat)>, h: Hit) {
    exists k | 0 <= k < |runs| :: IsTurned(m, buf, base, runs[k], h)
  }

  /** A string is one of the runs. */
  lemma StringIsRun(m: Method, buf: seq<Byte>, opts: Options, runs: seq<(nat, nat)>, i: nat, j: nat)
    requires AreStrings(m, buf, opts, runs) && i < j <= |buf| && IsString(buf, opts, m, i, Plain(m, buf, i, j))
    ensures (i, j) in runs
  {
  }

  lemma RunOfHit(m: Method, buf: seq<Byte>, base: nat, runs: seq<(nat, nat)>, i: nat, j: nat, h: Hit)
    requires i <= j <= |buf| && (i, j) in runs && h == Hit(base + i, m, Plain(m, buf, i, j))
    ensures IsOfRun(m, buf, base, runs, h)
  {
    var k := IndexOf(runs, (i, j));
    assert IsTurned(m, buf, base, runs[k], h);
  }

  /** A hit is what the way makes of its bytes. */
  lemma HitIsPlain(m: Method, buf: seq<Byte>, base: nat, opts: Options, h: Hit) returns (i: nat, j: nat)
    requires IsHitOf(buf, base, opts, m, h)
    ensures i < j <= |buf| && h == Hit(base + i, m, Plain(m, buf, i, j)) && IsString(buf, opts, m, i, Plain(m, buf, i, j))
  {
    i, j := h.address - base, h.address - base + |h.plaintext|;
    StringIsPlain(m, buf, opts, i, h.plaintext);
  }

  lemma HitIsOfRun(m: Method, buf: seq<Byte>, base: nat, opts: Options, runs: seq<(nat, nat)>, h: Hit)
    requires AreStrings(m, buf, opts, runs) && IsHitOf(buf, base, opts, m, h)
    ensures IsOfRun(m, buf, base, runs, h)
  {
    var i, j := HitIsPlain(m, buf, base, opts, h);
    StringIsRun(m, buf, opts, runs, i, j);
    RunOfHit(m, buf, base, runs, i, j, h);
  }

  lemma RunIsHit(m: Method, buf: seq<Byte>, base: nat, runs: seq<(nat, nat)>, hs: seq<Hit>, h: Hit)
    requires AreTurned(m, buf, base, runs, hs) && IsOfRun(m, buf, base, runs, h)
    ensures h in hs
  {
    var k :| 0 <= k < |runs| && IsTurned(m, buf, base, runs[k], h);
    assert IsTurned(m, buf, base, runs[k], hs[k]);
  }

  /** The hits of one way: as meant, in the order of the buffer. */
  ghost predicate AreHitsOf(buf: seq<Byte>, base: nat, opts: Options, m: Method, hs: seq<Hit>) {
    && (forall h :: h in hs <==> IsHitOf(buf, base, opts, m, h))
    && forall a, b | 0 <= a < b < |hs| :: hs[a].address < hs[b].address
  }

  lemma TurnedAreHits(m: Method, buf: seq<Byte>, base: nat, opts: Options, runs: seq<(nat, nat)>, hs: seq<Hit>)
    requires AreStrings(m, buf, opts, runs) && AreTurned(m, buf, base, runs, hs)
    requires forall k, l | 0 <= k < l < |runs| :: runs[k].0 < runs[l].0
    ensures AreHitsOf(buf, base, opts, m, hs)
  {
    forall h ensures h in hs <==> IsHitOf(buf, base, opts, m, h) {
      if h in hs { HitIsMeant(m, buf, base, opts, runs, hs, h); }
      if IsHitOf(buf, base, opts, m, h) { MeantIsHit(m, buf, base, opts, runs, hs, h); }
    }
    forall a, b | 0 <= a < b < |hs| ensures hs[a].address < hs[b].address {
      assert IsTurned(m, buf, base, runs[a], hs[a]) && IsTurned(m, buf, base, runs[b], hs[b]);
    }
  }

  lemma HitsOfMean(m: Method, buf: seq<Byte>, base: nat, opts: Options)
    ensures AreHitsOf(buf, base, opts, m, HitsOf(m, buf, base, opts))
  {
    var runs := Found(m, buf, opts);
    FoundAreStrings(m, buf, opts);
    HitsAreTurned(m, buf, base, opts);
    forall k, l | 0 <= k < l < |runs| ensures runs[k].0 < runs[l].0 {
      RunsAscend(Row(m, buf), AtLeastOne(opts.minLength), Keeps(m, buf, opts), |buf|, k, l);
    }
    TurnedAreHits(m, buf, base, opts, runs, HitsOf(m, buf, base, opts));
  }

  // ---- all of them

  function Flat<T>(lists: seq<seq<T>>, k: nat): seq<T>
    requires k <= |lists|
  {
    if k == 0 then [] else Flat(lists, k - 1) + lists[k - 1]
  }

  /** What is collected is all of it, or its first part when it is more than the cap. */
  lemma {:induction false} CollectMeans<T>(lists: seq<seq<T>>, cap: nat, k: nat)
    requires k <= |lists|
    ensures Collect(lists, cap, k) == if |Flat(lists, k)| > cap then (Flat(lists, k)[..cap], true) else (Flat(lists, k), false)
  {
    if k > 0 {
      CollectMeans(lists, cap, k - 1);
      var before := Flat(lists, k - 1);
      assert |before| > cap ==> (before + lists[k - 1])[..cap] == before[..cap];
    }
  }

  lemma {:induction false} FlatHolds<T(!new)>(lists: seq<seq<T>>, k: nat, x: T)
    requires k <= |lists|
    ensures x in Flat(lists, k) <==> exists l :: 0 <= l < k && x in lists[l]
  {
    if k > 0 { FlatHolds(lists, k - 1, x); }
  }

  /** What a search gives: what it is after only, as much of it as the cap when that is passed,
      else all of it. */
  ghost predicate IsSearch<T(!new)>(wanted: T -> bool, cap: nat, hits: seq<T>, capped: bool) {
    && (forall h | h in hits :: wanted(h))
    && (if capped then |hits| == cap else |hits| <= cap && forall h | wanted(h) :: h in hits)
  }

  /** The lists of what each of `ways` is after, collected. */
  lemma CollectedIsSearch<W, T(!new)>(lists: seq<seq<T>>, cap: nat, ways: seq<W>, of: (W, T) -> bool, wanted: T -> bool, hits: seq<T>, capped: bool)
    requires |lists| == |ways| && (hits, capped) == Collect(lists, cap, |ways|)
    requires forall l, h | 0 <= l < |ways| :: h in lists[l] <==> of(ways[l], h)
    requires forall h :: wanted(h) <==> exists w :: w in ways && of(w, h)
    ensures IsSearch(wanted, cap, hits, capped)
  {
    var all := Flat(lists, |ways|);
    CollectMeans(lists, cap, |ways|);
    forall h ensures h in all <==> wanted(h) {
      FlatHolds(lists, |ways|, h);
    }
  }

  ghost function HitsOfWay(buf: seq<Byte>, base: nat, opts: Options): (Method, Hit) -> bool {
    (m: Method, h: Hit) => IsHitOf(buf, base, opts, m, h)
  }

  ghost function HitsOfWays(buf: seq<Byte>, base: nat, opts: Options, ways: seq<Method>): Hit -> bool {
    (h: Hit) => IsHit(buf, base, opts, ways, h)
  }

  lemma SomeWay(buf: seq<Byte>, base: nat, opts: Options, ways: seq<Method>, h: Hit)
    ensures HitsOfWays(buf, base, opts, ways)(h) <==> exists w :: w in ways && HitsOfWay(buf, base, opts)(w, h)
  {
    if HitsOfWays(buf, base, opts, ways)(h) { assert HitsOfWay(buf, base, opts)(h.way, h); }
  }

  /** The hits of a search. */
  ghost predicate AreHits(buf: seq<Byte>, base: nat, opts: Options, ways: seq<Method>, hits: seq<Hit>, capped: bool) {
    IsSearch(HitsOfWays(buf, base, opts, ways), opts.maxPerSection, hits, capped)
  }

  ghost predicate EachIs(buf: seq<Byte>, base: nat, opts: Options, ways: seq<Method>, lists: seq<seq<Hit>>) {
    |lists| == |ways| && forall l | 0 <= l < |ways| :: AreHitsOf(buf, base, opts, ways[l], lists[l])
  }

  lemma ListsAreHits(buf: seq<Byte>, base: nat, opts: Options, ways: seq<Method>, lists: seq<seq<Hit>>)
    requires AreLists(lists, buf, base, opts, ways)
    ensures EachIs(buf, base, opts, ways, lists)
  {
    forall l | 0 <= l < |ways| ensures AreHitsOf(buf, base, opts, ways[l], lists[l]) {
      assert IsList(lists, buf, base, opts, ways, l);
      HitsOfMean(ways[l], buf, base, opts);
    }
  }

  lemma CollectedAreHits(buf: seq<Byte>, base: nat, opts: Options, ways: seq<Method>, lists: seq<seq<Hit>>, hits: seq<Hit>, capped: bool)
    requires EachIs(buf, base, opts, ways, lists) && (hits, capped) == Collect(lists, opts.maxPerSection, |ways|)
    ensures AreHits(buf, base, opts, ways, hits, capped)
  {
    var of, wanted := HitsOfWay(buf, base, opts), HitsOfWays(buf, base, opts, ways);
    forall l, h | 0 <= l < |ways| ensures h in lists[l] <==> of(ways[l], h) {
      assert AreHitsOf(buf, base, opts, ways[l], lists[l]);
    }
    forall h ensures wanted(h) <==> exists w :: w in ways && of(w, h) {
      SomeWay(buf, base, opts, ways, h);
    }
    CollectedIsSearch(lists, opts.maxPerSection, ways, of, wanted, hits, capped);
  }

  // ---- the order

  /** Hit `g` comes before hit `h`: by the way tried, then by address. */
  ghost predicate Precedes(ways: seq<Method>, g: Hit, h: Hit) {
    exists k, l :: 0 <= k <= l < |ways| && g.way == ways[k] && h.way == ways[l] && (k == l ==> g.address < h.address)
  }

  ghost predicate InOrder(ways: seq<Method>, hits: seq<Hit>) {
    forall a, b | 0 <= a < b < |hits| :: Precedes(ways, hits[a], hits[b])
  }

  /** Lists in order, each before the next, are in order together. */
  lemma {:induction false} FlatOrdered<T(!new)>(lists: seq<seq<T>>, k: nat, before: (T, T) -> bool, a: nat, b: nat)
    requires k <= |lists| && a < b < |Flat(lists, k)|
    requires forall l, a, b | 0 <= l < |lists| && 0 <= a < b < |lists[l]| :: before(lists[l][a], lists[l][b])
    requires forall l, m, x, y | 0 <= l < m < |lists| && x in lists[l] && y in lists[m] :: before(x, y)
    ensures before(Flat(lists, k)[a], Flat(lists, k)[b])
  {
    var front, last := Flat(lists, k - 1), lists[k - 1];
    if b < |front| {
      FlatOrdered(lists, k - 1, before, a, b);
    } else if a < |front| {
      FlatHolds(lists, k - 1, front[a]);
      assert last[b - |front|] in last;
    }
  }

  lemma InOneWay(buf: seq<Byte>, base: nat, opts: Options, m: Method, hs: seq<Hit>, h: Hit)
    requires AreHitsOf(buf, base, opts, m, hs) && h in hs
    ensures h.way == m
  {
    assert IsHitOf(buf, base, opts, m, h);
  }

  /** Lists of hits, each of one way and in the order of the buffer. */
  ghost predicate EachAscends(ways: seq<Method>, lists: seq<seq<Hit>>) {
    && |lists| == |ways|
    && (forall l, h | 0 <= l < |ways| && h in lists[l] :: h.way == ways[l])
    && forall l, a, b | 0 <= l < |ways| && 0 <= a < b < |lists[l]| :: lists[l][a].address < lists[l][b].address
  }

  lemma ListsAscend(buf: seq<Byte>, base: nat, opts: Options, ways: seq<Method>, lists: seq<seq<Hit>>)
    requires EachIs(buf, base, opts, ways, lists)
    ensures EachAscends(ways, lists)
  {
    forall l, h | 0 <= l < |ways| && h in lists[l] ensures h.way == ways[l] {
      InOneWay(buf, base, opts, ways[l], lists[l], h);
    }
    forall l, a, b | 0 <= l < |ways| && 0 <= a < b < |lists[l]| ensures lists[l][a].address < lists[l][b].address {
      assert AreHitsOf(buf, base, opts, ways[l], lists[l]);
    }
  }

  lemma CollectedInOrder(ways: seq<Method>, lists: seq<seq<Hit>>, cap: nat, hits: seq<Hit>, capped: bool)
    requires EachAscends(ways, lists) && (hits, capped) == Collect(lists, cap, |ways|)
    ensures InOrder(ways, hits)
  {
    var before := (g: Hit, h: Hit) => Precedes(ways, g, h);
    CollectMeans(lists, cap, |ways|);
    forall l, a, b | 0 <= l < |lists| && 0 <= a < b < |lists[l]| ensures before(lists[l][a], lists[l][b]) {
      assert lists[l][a] in lists[l] && lists[l][b] in lists[l];
    }
    forall l, m, x, y | 0 <= l < m < |lists| && x in lists[l] && y in lists[m] ensures before(x, y) {
      assert x.way == ways[l] && y.way == ways[m];
    }
    forall a, b | 0 <= a < b < |hits| ensures before(hits[a], hits[b]) {
      FlatOrdered(lists, |ways|, before, a, b);
    }
  }

  /** The hits of each of the ways, up to the cap. */
  lemma SearchMeans(buf: seq<Byte>, base: nat, opts: Options, ways: seq<Method>, hits: seq<Hit>, capped: bool)
    requires (hits, capped) == Collect(HitLists(buf, base, opts, ways), opts.maxPerSection, |ways|)
    ensures AreHits(buf, base, opts, ways, hits, capped) && InOrder(ways, hits)
  {
    HitListsAre(buf, base, opts, ways);
    ListsMean(buf, base, opts, ways, HitLists(buf, base, opts, ways), hits, capped);
  }

  lemma ListsMean(buf: seq<Byte>, base: nat, opts: Options, ways: seq<Method>, lists: seq<seq<Hit>>, hits: seq<Hit>, capped: bool)
    requires AreLists(lists, buf, base, opts, ways) && (hits, capped) == Collect(lists, opts.maxPerSection, |ways|)
    ensures AreHits(buf, base, opts, ways, hits, capped) && InOrder(ways, hits)
  {
    ListsAreHits(buf, base, opts, ways, lists);
    CollectedAreHits(buf, base, opts, ways, lists, hits, capped);
    ListsAscend(buf, base, opts, ways, lists);
    CollectedInOrder(ways, lists, opts.maxPerSection, hits, capped);
  }
}
