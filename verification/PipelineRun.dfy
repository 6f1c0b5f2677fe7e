/**
 The pipeline run: the split analyzers prepare together at the starts of the runs, those that
 run last are put off, and the rest run at their places.
 */
module PipelineRun {
  import opened Pcode
  import opened Pipeline
  import opened PipelineWindows

  /** The first halves of what `i` reads are the same from any run it is clear from. */
  lemma {:induction false} PreparesAlike<V(!new), X(!new), R>(part: Key -> Option<nat>, line: seq<Analyzer<V, X, R>>, overlap: bool, p: Program<V>, i: nat, from: nat, n: nat)
    requires Lawful(part, line) && from <= n <= i < |line| && line[i].prepareReads.Some? && Clear(line, from, i)
    ensures Agree(part, line[i].prepareReads.value, Ahead(line, overlap, p, from), Ahead(line, overlap, p, n))
    decreases n
  {
    if from < n {
      PreparesAlike(part, line, overlap, p, i, from, n - 1);
      var q := Ahead(line, overlap, p, n - 1);
      assert HonestAt(part, line, n - 1);
      WritesElsewhere(part, line[n - 1], line[i].prepareReads.value, Ahead(line, overlap, p, from), q);
    }
  }

  lemma WritesElsewhere<V(!new), X(!new), R>(part: Key -> Option<nat>, a: Analyzer<V, X, R>, read: Mask, p: Program<V>, q: Program<V>)
    requires Honest(part, a) && !Meets(read, a.writes) && Agree(part, read, p, q)
    ensures Agree(part, read, p, a.analyze(q).0)
  {
    assert ChangesOnly(part, a.writes, q, a.analyze(q).0);
    assert forall x | x in read :: x !in a.writes || x in read * a.writes;
  }

  /** What `i` prepared at the start of a run it is clear from is what it would at its place. */
  lemma PreparedAhead<V(!new), X(!new), R>(part: Key -> Option<nat>, line: seq<Analyzer<V, X, R>>, overlap: bool, p: Program<V>, i: nat, from: nat)
    requires Lawful(part, line) && from <= i < |line| && line[i].prepareReads.Some? && Clear(line, from, i)
    ensures line[i].prepare(Ahead(line, overlap, p, from)) == line[i].prepare(Ahead(line, overlap, p, i))
  {
    PreparesAlike(part, line, overlap, p, i, from, i);
    assert HonestAt(part, line, i);
    assert ReadsDeclared(part, line[i], Ahead(line, overlap, p, from), Ahead(line, overlap, p, i));
  }

  /** What is ready is what its analyzer would prepare at its place. */
  ghost predicate Ready<V, X, R>(line: seq<Analyzer<V, X, R>>, overlap: bool, p: Program<V>, ready: seq<Option<X>>) {
    |ready| == |line| && forall i | 0 <= i < |line| && ready[i].Some? :: ReadyAt(line, overlap, p, i, ready[i].value)
  }

  ghost predicate ReadyAt<V, X, R>(line: seq<Analyzer<V, X, R>>, overlap: bool, p: Program<V>, i: nat, x: X)
    requires i < |line|
  {
    line[i].prepareReads.Some? && x == line[i].prepare(Ahead(line, overlap, p, i))
  }

  /** The analyzers of a run prepare on the program at its start. */
  method PrepareAll<V(!new), X(!new), R>(ghost part: Key -> Option<nat>, line: seq<Analyzer<V, X, R>>, ghost overlap: bool, ghost p: Program<V>,
      start: nat, prepared: seq<nat>, program: Program<V>, ready: seq<Option<X>>) returns (ready': seq<Option<X>>)
    requires Lawful(part, line) && start <= |line| && program == Ahead(line, overlap, p, start) && Ready(line, overlap, p, ready)
    requires forall i | i in prepared :: start <= i < |line| && line[i].prepareReads.Some? && Clear(line, start, i)
    ensures Ready(line, overlap, p, ready')
  {
    ready' := ready;
    var k := 0;
    while k < |prepared|
      invariant 0 <= k <= |prepared| && Ready(line, overlap, p, ready')
    {
      var i := prepared[k];
      assert i in prepared;
      PreparedAhead(part, line, overlap, p, i, start);
      ready' := ready'[i := Some(line[i].prepare(program))];
      k := k + 1;
    }
  }

  /** The results so far: of those put off none. */
  ghost predicate ResultsOk<V, X, R>(line: seq<Analyzer<V, X, R>>, overlap: bool, p: Program<V>, results: seq<Option<R>>) {
    |results| <= |line| && forall i | 0 <= i < |results| :: ResultOk(line, overlap, p, results, i)
  }

  ghost predicate ResultOk<V, X, R>(line: seq<Analyzer<V, X, R>>, overlap: bool, p: Program<V>, results: seq<Option<R>>, i: nat)
    requires i < |results| <= |line|
  {
    results[i] == if overlap && line[i].runsLast then None else Some(ResultAt(line, p, i))
  }

  /** The result listed for `i` is the one it gives at its place. */
  ghost predicate IsResult<V, X, R>(line: seq<Analyzer<V, X, R>>, p: Program<V>, results: seq<Option<R>>, i: nat)
    requires i < |results| == |line|
  {
    results[i] == Some(ResultAt(line, p, i))
  }

  lemma OneMoreResult<V, X, R>(line: seq<Analyzer<V, X, R>>, overlap: bool, p: Program<V>, results: seq<Option<R>>, r: Option<R>)
    requires ResultsOk(line, overlap, p, results) && |results| < |line|
    requires r == if overlap && line[|results|].runsLast then None else Some(ResultAt(line, p, |results|))
    ensures ResultsOk(line, overlap, p, results + [r])
  {
    forall i | 0 <= i < |results| + 1 ensures ResultOk(line, overlap, p, results + [r], i) {
      assert i < |results| ==> ResultOk(line, overlap, p, results, i);
    }
  }

  function DeferredIf<V, X, R>(line: seq<Analyzer<V, X, R>>, overlap: bool, n: nat): seq<nat>
    requires n <= |line|
  {
    if overlap then Deferred(line, n) else []
  }

  /** Before analyzer `i`: the program, the results so far and those put off. */
  ghost predicate Running<V, X, R>(line: seq<Analyzer<V, X, R>>, overlap: bool, p: Program<V>, i: nat,
      program: Program<V>, results: seq<Option<R>>, last: seq<nat>)
  {
    && i <= |line| && program == Ahead(line, overlap, p, i)
    && |results| == i && ResultsOk(line, overlap, p, results) && last == DeferredIf(line, overlap, i)
  }

  lemma PutOff<V, X, R>(line: seq<Analyzer<V, X, R>>, p: Program<V>, i: nat, program: Program<V>, results: seq<Option<R>>, last: seq<nat>)
    requires i < |line| && line[i].runsLast && Running(line, true, p, i, program, results, last)
    ensures Running(line, true, p, i + 1, program, results + [None], last + [i])
  {
    OneMoreResult(line, true, p, results, None);
  }

  lemma RanOne<V, X, R>(line: seq<Analyzer<V, X, R>>, overlap: bool, p: Program<V>, i: nat, program: Program<V>, results: seq<Option<R>>, last: seq<nat>)
    requires i < |line| && !(overlap && line[i].runsLast) && Running(line, overlap, p, i, program, results, last)
    ensures Running(line, overlap, p, i + 1, line[i].analyze(program).0, results + [Some(ResultAt(line, p, i))], last)
  {
    assert last + [] == last;
    OneMoreResult(line, overlap, p, results, Some(ResultAt(line, p, i)));
  }

  /** The analyzers of a run, from `start`. */
  method RunWindow<V(!new), X(!new), R>(ghost part: Key -> Option<nat>, line: seq<Analyzer<V, X, R>>, overlap: bool, ghost p: Program<V>,
      start: nat, end: nat, ready: seq<Option<X>>, program: Program<V>, results: seq<Option<R>>, last: seq<nat>)
    returns (program': Program<V>, results': seq<Option<R>>, last': seq<nat>)
    requires Lawful(part, line) && start <= end <= |line| && Ready(line, overlap, p, ready)
    requires Running(line, overlap, p, start, program, results, last)
    ensures Running(line, overlap, p, end, program', results', last')
  {
    program', results', last' := program, results, last;
    var i := start;
    while i < end
      invariant start <= i <= end && Running(line, overlap, p, i, program', results', last')
    {
      program', results', last' := RunNext(part, line, overlap, p, i, ready[i], program', results', last');
      i := i + 1;
    }
  }

  /** One analyzer run at its place or put off. */
  method RunNext<V(!new), X(!new), R>(ghost part: Key -> Option<nat>, line: seq<Analyzer<V, X, R>>, overlap: bool, ghost p: Program<V>,
      i: nat, ready: Option<X>, program: Program<V>, results: seq<Option<R>>, last: seq<nat>)
    returns (program': Program<V>, results': seq<Option<R>>, last': seq<nat>)
    requires Lawful(part, line) && i < |line| && (ready.Some? ==> ReadyAt(line, overlap, p, i, ready.value))
    requires Running(line, overlap, p, i, program, results, last)
    ensures Running(line, overlap, p, i + 1, program', results', last')
  {
    if overlap && line[i].runsLast {
      PutOff(line, p, i, program, results, last);
      program', results', last' := program, results + [None], last + [i];
    } else {
      var r := RunOne(part, line, overlap, p, i, ready, program);
      RanOne(line, overlap, p, i, program, results, last);
      program', results', last' := r.0, results + [Some(r.1)], last;
    }
  }

  /** One analyzer at its place: the second half of one that prepared, all of another. */
  method RunOne<V(!new), X(!new), R>(ghost part: Key -> Option<nat>, line: seq<Analyzer<V, X, R>>, ghost overlap: bool, ghost p: Program<V>,
      i: nat, ready: Option<X>, program: Program<V>) returns (r: (Program<V>, R))
    requires Lawful(part, line) && i < |line| && program == Ahead(line, overlap, p, i)
    requires !(overlap && line[i].runsLast) && (ready.Some? ==> ReadyAt(line, overlap, p, i, ready.value))
    ensures r.0 == line[i].analyze(program).0 && r.1 == ResultAt(line, p, i)
  {
    SameResult(part, line, overlap, p, i);
    assert HonestAt(part, line, i);
    if ready.Some? {
      r := line[i].apply(program, ready.value);
    } else {
      r := line[i].analyze(program);
    }
  }

  /** The results are listed, but for those of `left`. */
  ghost predicate ResultsBut<V, X, R>(line: seq<Analyzer<V, X, R>>, p: Program<V>, left: seq<nat>, results: seq<Option<R>>) {
    |results| == |line| && forall i | 0 <= i < |line| :: IsResult(line, p, results, i) || i in left
  }

  lemma LateResult<V, X, R>(line: seq<Analyzer<V, X, R>>, p: Program<V>, i: nat, left: seq<nat>, results: seq<Option<R>>, r: R)
    requires i < |line| && ResultsBut(line, p, [i] + left, results) && r == ResultAt(line, p, i)
    ensures ResultsBut(line, p, left, results[i := Some(r)])
  {
    var after := results[i := Some(r)];
    forall j | 0 <= j < |line| ensures IsResult(line, p, after, j) || j in left {
      assert IsResult(line, p, results, j) || j in [i] + left;
    }
  }

  /** Those put off, in order, each one's result at its place. */
  method RunLast<V(!new), X(!new), R>(ghost part: Key -> Option<nat>, line: seq<Analyzer<V, X, R>>, ghost p: Program<V>,
      last: seq<nat>, program: Program<V>, results: seq<Option<R>>) returns (program': Program<V>, results': seq<Option<R>>)
    requires Lawful(part, line) && last == Deferred(line, |line|) && program == Ahead(line, true, p, |line|)
    requires |results| == |line| && ResultsOk(line, true, p, results)
    ensures program' == Before(line, p, |line|) && |results'| == |line|
    ensures forall i | 0 <= i < |line| :: IsResult(line, p, results', i)
  {
    program', results' := program, results;
    TailStarts(part, line, p, last);
    DeferredFacts(line, |line|);
    forall i | 0 <= i < |line| ensures IsResult(line, p, results, i) || i in last[0..] {
      assert ResultOk(line, true, p, results, i);
    }
    var m := 0;
    while m < |last|
      invariant 0 <= m <= |last| && TailOk(part, line, p, last, program', m)
      invariant ResultsBut(line, p, last[m..], results')
    {
      var i := last[m];
      TailNext(part, line, p, last, program', m);
      var r := line[i].analyze(program');
      assert last[m..] == [i] + last[m + 1..];
      LateResult(line, p, i, last[m + 1..], results', r.1);
      program', results' := r.0, results'[i := Some(r.1)];
      m := m + 1;
    }
    TailEnds(part, line, p, last, program');
  }

  /** The pipeline: the program and the results of each analyzer run alone at its place. */
  method RunAll<V(!new), X(!new), R>(ghost part: Key -> Option<nat>, line: seq<Analyzer<V, X, R>>, overlap: bool, p: Program<V>)
    returns (program: Program<V>, results: seq<Option<R>>)
    requires Lawful(part, line)
    ensures program == Before(line, p, |line|)
    ensures |results| == |line| && forall i | 0 <= i < |line| :: IsResult(line, p, results, i)
  {
    var ws := Windows(line, overlap);
    program, results := p, [];
    var last: seq<nat>, ready: seq<Option<X>> := [], seq(|line|, _ => None);
    var w := 0;
    while w < |ws|
      invariant 0 <= w <= |ws| && Ready(line, overlap, p, ready)
      invariant Running(line, overlap, p, if w < |ws| then ws[w].start else |line|, program, results, last)
    {
      EndBound(ws, |line|, w);
      if |ws[w].prepared| >= 2 {
        assert forall i | i in ws[w].prepared :: Earliest(line, overlap, ws, i, w);
        ready := PrepareAll(part, line, overlap, p, ws[w].start, ws[w].prepared, program, ready);
      }
      program, results, last := RunWindow(part, line, overlap, p, ws[w].start, ws[w].end, ready, program, results, last);
      w := w + 1;
    }
    if overlap {
      program, results := RunLast(part, line, p, last, program, results);
    } else {
      AheadIsBefore(line, p, |line|);
      forall i | 0 <= i < |line| ensures IsResult(line, p, results, i) {
        assert ResultOk(line, overlap, p, results, i);
      }
    }
  }
}
