/**
 The runs a pipeline is cut into, and the run at whose start each split analyzer prepares.
 */
module PipelineWindows {
  import opened Pcode
  import opened Pipeline

  /** A run of consecutive analyzers `start..end`, and those that prepare at its start. */
  datatype Window = Window(start: nat, end: nat, prepared: seq<nat>)

  /** The parts written by the analyzers `from..upto`. */
  function Written<V, X, R>(line: seq<Analyzer<V, X, R>>, from: nat, upto: nat): Mask
    requires from <= upto <= |line|
  {
    if from == upto then NONE else Written(line, from, upto - 1) + line[upto - 1].writes
  }

  predicate Prepares<V, X, R>(line: seq<Analyzer<V, X, R>>, overlap: bool, i: nat)
    requires i < |line|
  {
    overlap && line[i].prepareReads.Some?
  }

  /** No analyzer of `from..i` writes what `i` reads to prepare. */
  ghost predicate Clear<V, X, R>(line: seq<Analyzer<V, X, R>>, from: nat, i: nat)
    requires i < |line| && line[i].prepareReads.Some?
  {
    forall j | from <= j < i :: !Meets(line[i].prepareReads.value, line[j].writes)
  }

  lemma {:induction false} WrittenMeets<V, X, R>(line: seq<Analyzer<V, X, R>>, r: Mask, from: nat, upto: nat)
    requires from <= upto <= |line|
    ensures Meets(r, Written(line, from, upto)) <==> exists j :: from <= j < upto && Meets(r, line[j].writes)
    decreases upto
  {
    if from == upto {
      MeetsNone(r);
    } else {
      WrittenMeets(line, r, from, upto - 1);
      OneMore(line, r, from, upto - 1, Written(line, from, upto - 1), Written(line, from, upto));
    }
  }

  lemma OneMore<V, X, R>(line: seq<Analyzer<V, X, R>>, r: Mask, from: nat, last: nat, a: Mask, b: Mask)
    requires from <= last < |line| && b == a + line[last].writes
    requires Meets(r, a) <==> exists j :: from <= j < last && Meets(r, line[j].writes)
    ensures Meets(r, b) <==> exists j :: from <= j < last + 1 && Meets(r, line[j].writes)
  {
    MeetsUnion(r, a, line[last].writes);
    if j :| from <= j < last + 1 && Meets(r, line[j].writes) {
      assert Meets(r, b);
    }
  }

  lemma MeetsNone(r: Mask)
    ensures !Meets(r, NONE)
  {
  }

  lemma ClearIff<V, X, R>(line: seq<Analyzer<V, X, R>>, from: nat, i: nat)
    requires from <= i < |line| && line[i].prepareReads.Some?
    ensures Clear(line, from, i) <==> !Meets(line[i].prepareReads.value, Written(line, from, i))
  {
    WrittenMeets(line, line[i].prepareReads.value, from, i);
  }

  // ---- the runs

  /** The runs follow one another and hold the first `n` analyzers. */
  ghost predicate Covers(ws: seq<Window>, n: nat) {
    && |ws| > 0 && ws[0].start == 0 && ws[|ws| - 1].end == n
    && (forall w | 0 <= w < |ws| :: ws[w].start <= ws[w].end)
    && (forall w | 0 <= w < |ws| - 1 :: ws[w].start < ws[w].end == ws[w + 1].start)
  }

  ghost predicate Within(w: Window, i: nat) {
    w.start <= i < w.end
  }

  /** A split analyzer is clear from the start of its own run. */
  ghost predicate RunsClear<V, X, R>(line: seq<Analyzer<V, X, R>>, overlap: bool, ws: seq<Window>, n: nat)
    requires n <= |line|
  {
    forall w, i: nat | 0 <= w < |ws| && Within(ws[w], i) && i < n && Prepares(line, overlap, i) :: Clear(line, ws[w].start, i)
  }

  lemma {:induction false} RunOrder(ws: seq<Window>, n: nat, v: nat, w: nat)
    requires Covers(ws, n) && v < w < |ws|
    ensures ws[v].end <= ws[w].start && ws[v].start < ws[w].start && ws[w].start <= n
    decreases w
  {
    if v + 1 < w { RunOrder(ws, n, v, w - 1); }
    EndBound(ws, n, w);
  }

  lemma {:induction false} EndBound(ws: seq<Window>, n: nat, w: nat)
    requires Covers(ws, n) && w < |ws|
    ensures ws[w].end <= n
    decreases |ws| - w
  {
    if w + 1 < |ws| { EndBound(ws, n, w + 1); }
  }

  /** The pipeline cut where a split analyzer reads what one before it in the run writes. */
  method Cut<V, X, R>(line: seq<Analyzer<V, X, R>>, overlap: bool) returns (ws: seq<Window>, split: seq<nat>)
    ensures Covers(ws, |line|) && RunsClear(line, overlap, ws, |line|)
    ensures forall w | 0 <= w < |ws| :: ws[w].prepared == []
    ensures forall i: nat :: i in split <==> i < |line| && Prepares(line, overlap, i)
    ensures forall k, l | 0 <= k < l < |split| :: split[k] < split[l]
  {
    var done: seq<Window>, current := [], Window(0, 0, []);
    var written := NONE;
    split := [];
    var i := 0;
    while i < |line|
      invariant 0 <= i <= |line| && current.start <= i && (i > 0 ==> current.start < i)
      invariant Covers(done + [current], i) && written == Written(line, current.start, i)
      invariant RunsClear(line, overlap, done + [current], i)
      invariant forall w | 0 <= w < |done| :: done[w].prepared == []
      invariant current.prepared == []
      invariant forall k: nat :: k in split <==> k < i && Prepares(line, overlap, k)
      invariant forall k | 0 <= k < |split| :: split[k] < i
      invariant forall k, l | 0 <= k < l < |split| :: split[k] < split[l]
    {
      ghost var ws0 := done + [current];
      if Prepares(line, overlap, i) {
        ClearIff(line, current.start, i);
        if Meets(line[i].prepareReads.value, written) {
          MeetsNone(line[i].prepareReads.value);
          assert i > 0;
          assert (done + [current])[..|done|] == done;
          done, current, written := done + [current], Window(i, i, []), NONE;
        }
        split := split + [i];
      }
      CutNext(line, overlap, ws0, done, current, i);
      current := current.(end := i + 1);
      written := written + line[i].writes;
      i := i + 1;
    }
    ws := done + [current];
  }

  lemma CutNext<V, X, R>(line: seq<Analyzer<V, X, R>>, overlap: bool, ws0: seq<Window>, done: seq<Window>, current: Window, i: nat)
    requires i < |line| && Covers(ws0, i) && RunsClear(line, overlap, ws0, i) && current.start <= i && current.end == i
    requires ws0 == done + [current] || (ws0 == done && current.start == i > 0 && ws0[|ws0| - 1].start < i)
    requires Prepares(line, overlap, i) ==> Clear(line, current.start, i)
    ensures Covers(done + [current.(end := i + 1)], i + 1)
    ensures RunsClear(line, overlap, done + [current.(end := i + 1)], i + 1)
  {
    CutCovers(ws0, done, current, i);
    var ws := done + [current.(end := i + 1)];
    forall w, k: nat | 0 <= w < |ws| && Within(ws[w], k) && k < i + 1 && Prepares(line, overlap, k) ensures Clear(line, ws[w].start, k) {
      if w < |done| {
        assert ws[w] == ws0[w];
        EndBound(ws0, i, w);
      } else if k < i {
        assert ws0 == done + [current] && Within(ws0[w], k);
      }
    }
  }

  lemma CutCovers(ws0: seq<Window>, done: seq<Window>, current: Window, i: nat)
    requires Covers(ws0, i) && current.start <= i && current.end == i
    requires ws0 == done + [current] || (ws0 == done && current.start == i > 0 && ws0[|ws0| - 1].start < i)
    ensures Covers(done + [current.(end := i + 1)], i + 1)
  {
    var ws := done + [current.(end := i + 1)];
    assert forall w | 0 <= w < |done| :: ws[w] == done[w] == ws0[w];
    forall w | 0 <= w < |ws| - 1 ensures ws[w].start < ws[w].end == ws[w + 1].start {
      assert w + 1 < |done| ==> ws0[w].end == ws0[w + 1].start;
    }
  }

  // ---- where each prepares

  /** The run that holds `i`. */
  method HomeOf(ws: seq<Window>, n: nat, i: nat) returns (w: nat)
    requires Covers(ws, n) && i < n
    ensures w < |ws| && Within(ws[w], i)
  {
    w := |ws| - 1;
    while ws[w].start > i
      invariant 0 <= w < |ws| && i < ws[w].end
    {
      w := w - 1;
    }
  }

  /** A run holds a split analyzer. */
  ghost predicate Hosts<V, X, R>(line: seq<Analyzer<V, X, R>>, overlap: bool, w: Window) {
    exists i: nat :: i < |line| && Within(w, i) && Prepares(line, overlap, i)
  }

  /** `w` is the earliest run hosting a split analyzer from whose start nothing up to `i`
      writes what `i` reads. */
  ghost predicate Earliest<V, X, R>(line: seq<Analyzer<V, X, R>>, overlap: bool, ws: seq<Window>, i: nat, w: nat)
    requires i < |line|
  {
    && w < |ws| && Prepares(line, overlap, i)
    && ws[w].start <= i && Hosts(line, overlap, ws[w]) && Clear(line, ws[w].start, i)
    && forall v | 0 <= v < w && Hosts(line, overlap, ws[v]) :: !Clear(line, ws[v].start, i)
  }

  /** Back over the runs while nothing from their start writes what `i` reads. */
  method BackFrom<V, X, R>(line: seq<Analyzer<V, X, R>>, overlap: bool, ws: seq<Window>, i: nat, home: nat) returns (w: nat)
    requires Covers(ws, |line|) && RunsClear(line, overlap, ws, |line|) && i < |line| && Prepares(line, overlap, i)
    requires home < |ws| && Within(ws[home], i)
    ensures w <= home && ws[w].start <= i && Clear(line, ws[w].start, i)
    ensures forall v | 0 <= v < w :: ws[v].start <= i && !Clear(line, ws[v].start, i)
  {
    w := home;
    var read := line[i].prepareReads.value;
    var written := Written(line, ws[w].start, i);
    while w > 0
      invariant w <= home && ws[w].start <= i && Clear(line, ws[w].start, i)
      invariant Meets(read, written) <==> Meets(read, Written(line, ws[w].start, i))
    {
      ghost var from := ws[w - 1].start;
      EndBound(ws, |line|, w - 1);
      var before := Written(line, ws[w - 1].start, ws[w - 1].end);
      MeetsUnion(read, written, before);
      JoinWritten(line, read, from, ws[w].start, i);
      ClearIff(line, ws[w].start, i);
      ClearIff(line, from, i);
      if Meets(read, written + before) {
        forall v | 0 <= v < w ensures ws[v].start <= i && !Clear(line, ws[v].start, i) {
          if v < w - 1 { RunOrder(ws, |line|, v, w - 1); }
        }
        return;
      }
      written := written + before;
      w := w - 1;
    }
  }

  lemma JoinWritten<V, X, R>(line: seq<Analyzer<V, X, R>>, r: Mask, from: nat, mid: nat, upto: nat)
    requires from <= mid <= upto <= |line|
    ensures Meets(r, Written(line, from, upto)) <==> Meets(r, Written(line, from, mid)) || Meets(r, Written(line, mid, upto))
  {
    WrittenMeets(line, r, from, mid);
    WrittenMeets(line, r, mid, upto);
    WrittenMeets(line, r, from, upto);
  }

  /** The run `i` prepares at. */
  method PlaceOf<V, X, R>(line: seq<Analyzer<V, X, R>>, overlap: bool, ws: seq<Window>, homes: seq<bool>, i: nat) returns (w: nat)
    requires Covers(ws, |line|) && RunsClear(line, overlap, ws, |line|) && i < |line| && Prepares(line, overlap, i)
    requires |homes| == |ws| && forall v | 0 <= v < |ws| :: homes[v] <==> Hosts(line, overlap, ws[v])
    ensures Earliest(line, overlap, ws, i, w)
  {
    var home := HomeOf(ws, |line|, i);
    w := BackFrom(line, overlap, ws, i, home);
    assert Hosts(line, overlap, ws[home]);
    while w < home && !homes[w]
      invariant w <= home && ws[w].start <= i && Clear(line, ws[w].start, i)
      invariant forall v | 0 <= v < w && homes[v] :: !Clear(line, ws[v].start, i)
    {
      RunOrder(ws, |line|, w, w + 1);
      if w + 1 < home { RunOrder(ws, |line|, w + 1, home); }
      w := w + 1;
    }
  }

  lemma HostsIff<V, X, R>(line: seq<Analyzer<V, X, R>>, overlap: bool, w: Window, split: seq<nat>)
    requires forall i: nat :: i in split <==> i < |line| && Prepares(line, overlap, i)
    ensures Hosts(line, overlap, w) <==> exists k | 0 <= k < |split| :: w.start <= split[k] < w.end
  {
    if k :| 0 <= k < |split| && w.start <= split[k] < w.end {
      assert split[k] in split && Within(w, split[k]);
    }
    if i: nat :| i < |line| && Within(w, i) && Prepares(line, overlap, i) {
      assert i in split;
    }
  }

  /** Which runs hold a split analyzer. */
  method HomesOf<V, X, R>(line: seq<Analyzer<V, X, R>>, overlap: bool, ws: seq<Window>, split: seq<nat>) returns (homes: seq<bool>)
    requires forall i: nat :: i in split <==> i < |line| && Prepares(line, overlap, i)
    ensures |homes| == |ws| && forall v | 0 <= v < |ws| :: homes[v] <==> Hosts(line, overlap, ws[v])
  {
    homes := [];
    var w := 0;
    while w < |ws|
      invariant 0 <= w <= |ws| && |homes| == w
      invariant forall v | 0 <= v < w :: homes[v] <==> Hosts(line, overlap, ws[v])
    {
      var hosts := exists k | 0 <= k < |split| :: ws[w].start <= split[k] < ws[w].end;
      HostsIff(line, overlap, ws[w], split);
      homes := homes + [hosts];
      w := w + 1;
    }
  }

  /** The same runs. */
  ghost predicate SameRuns(ws: seq<Window>, vs: seq<Window>) {
    |ws| == |vs| && forall w | 0 <= w < |ws| :: ws[w].start == vs[w].start && ws[w].end == vs[w].end
  }

  /** The runs, each with the analyzers that prepare at its start: each split analyzer in the
      earliest run it can be. */
  method Windows<V, X, R>(line: seq<Analyzer<V, X, R>>, overlap: bool) returns (ws: seq<Window>)
    ensures Covers(ws, |line|)
    ensures AllEarliest(line, overlap, ws, ws)
    ensures forall i: nat | i < |line| && Prepares(line, overlap, i) :: InSome(ws, i)
  {
    var runs, split := Cut(line, overlap);
    var homes := HomesOf(line, overlap, runs, split);
    ws := runs;
    var k := 0;
    while k < |split|
      invariant 0 <= k <= |split| && SameRuns(runs, ws)
      invariant AllEarliest(line, overlap, runs, ws)
      invariant forall l | 0 <= l < k :: InSome(ws, split[l])
    {
      var i := split[k];
      assert i in split;
      var w := PlaceOf(line, overlap, runs, homes, i);
      PreparesOneMore(line, overlap, runs, ws, i, w);
      ws := ws[w := ws[w].(prepared := ws[w].prepared + [i])];
      k := k + 1;
    }
    SameCovers(runs, ws, |line|);
    SameAllEarliest(line, overlap, runs, ws);
    forall i: nat | i < |line| && Prepares(line, overlap, i) ensures InSome(ws, i) {
      assert i in split;
    }
  }

  /** Each analyzer that prepares in a run of `ws` does so in its earliest run of `runs`. */
  ghost predicate AllEarliest<V, X, R>(line: seq<Analyzer<V, X, R>>, overlap: bool, runs: seq<Window>, ws: seq<Window>) {
    forall w, i | 0 <= w < |ws| && i in ws[w].prepared :: i < |line| && Earliest(line, overlap, runs, i, w)
  }

  /** It prepares in some run. */
  ghost predicate InSome(ws: seq<Window>, i: nat) {
    exists w :: 0 <= w < |ws| && i in ws[w].prepared
  }

  lemma PreparesOneMore<V, X, R>(line: seq<Analyzer<V, X, R>>, overlap: bool, runs: seq<Window>, ws: seq<Window>, i: nat, w: nat)
    requires i < |line| && w < |ws| && Earliest(line, overlap, runs, i, w) && AllEarliest(line, overlap, runs, ws)
    ensures var vs := ws[w := ws[w].(prepared := ws[w].prepared + [i])];
      AllEarliest(line, overlap, runs, vs) && InSome(vs, i) && forall j: nat | InSome(ws, j) :: InSome(vs, j)
  {
    var vs := ws[w := ws[w].(prepared := ws[w].prepared + [i])];
    assert i in vs[w].prepared;
    forall j: nat | InSome(ws, j) ensures InSome(vs, j) {
      var v :| 0 <= v < |ws| && j in ws[v].prepared;
      assert j in vs[v].prepared;
    }
  }

  lemma SameAllEarliest<V, X, R>(line: seq<Analyzer<V, X, R>>, overlap: bool, ws: seq<Window>, vs: seq<Window>)
    requires SameRuns(ws, vs) && AllEarliest(line, overlap, ws, vs)
    ensures AllEarliest(line, overlap, vs, vs)
  {
    forall w, i | 0 <= w < |vs| && i in vs[w].prepared ensures i < |line| && Earliest(line, overlap, vs, i, w) {
      SameEarliest(line, overlap, ws, vs, i, w);
    }
  }

  lemma SameCovers(ws: seq<Window>, vs: seq<Window>, n: nat)
    requires SameRuns(ws, vs) && Covers(ws, n)
    ensures Covers(vs, n)
  {
  }

  lemma SameEarliest<V, X, R>(line: seq<Analyzer<V, X, R>>, overlap: bool, ws: seq<Window>, vs: seq<Window>, i: nat, w: nat)
    requires SameRuns(ws, vs) && i < |line| && Earliest(line, overlap, ws, i, w)
    ensures Earliest(line, overlap, vs, i, w)
  {
    forall v | 0 <= v < |ws| ensures Hosts(line, overlap, ws[v]) <==> Hosts(line, overlap, vs[v]) {
      assert forall j: nat :: Within(ws[v], j) <==> Within(vs[v], j);
    }
  }
}
