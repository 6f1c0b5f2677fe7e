/**
 The runs of up to 64 passes found together: at each byte the set of passes that decode it to
 something printable, instead of one scan for each pass.
 */
module FlossScan {
  import opened FlossRuns

  // ---- windows

  /** `q` is in each of the `n` sets from `k` on. */
  ghost predicate InAll(s: seq<Passes>, k: nat, n: nat, q: nat) {
    k + n <= |s| && forall u | k <= u < k + n :: q in s[u]
  }

  /** `v` holds the intersections of the `n` sets from each place of `s` on. */
  ghost predicate Windows(s: seq<Passes>, n: nat, v: seq<Passes>) {
    1 <= n <= |s| && |v| == |s| - n + 1 && forall k, q: nat | 0 <= k < |v| :: q in v[k] <==> InAll(s, k, n, q)
  }

  /** The intersections of windows of `n`, pairwise `d` apart: of windows of `n + d`. */
  method AndShifted(ghost s: seq<Passes>, ghost n: nat, v: seq<Passes>, d: nat) returns (r: seq<Passes>)
    requires Windows(s, n, v) && 1 <= d <= n && n + d <= |s|
    ensures Windows(s, n + d, r)
  {
    r := seq(|v| - d, k requires 0 <= k < |v| - d => v[k] * v[k + d]);
    forall k, q: nat | 0 <= k < |r| ensures q in r[k] <==> InAll(s, k, n + d, q) {
      assert InAll(s, k, n + d, q) <==> InAll(s, k, n, q) && InAll(s, k + d, n, q);
    }
  }

  /** The intersections of every `m` consecutive sets, by doubling. */
  method WindowAnd(s: seq<Passes>, m: nat) returns (v: seq<Passes>)
    requires 1 <= m <= |s|
    ensures Windows(s, m, v)
  {
    v := s;
    var len := 1;
    while len * 2 <= m
      invariant 1 <= len <= m && Windows(s, len, v)
    {
      v := AndShifted(s, len, v, len);
      len := len * 2;
    }
    if m > len {
      v := AndShifted(s, len, v, m - len);
    }
  }

  // ---- one pass

  /** What is asked of a run: three letters of a word in it, and that its source is not mostly
      printable. */
  ghost predicate Wordy(word: nat -> bool, i: nat, j: nat) {
    exists t: nat :: i <= t && t + 3 <= j && word(t)
  }

  /** A pass: where it decodes printable, where a word starts and the runs to keep. */
  ghost predicate IsPass(row: seq<bool>, word: nat -> bool, sparse: (nat, nat) -> bool, keep: (nat, nat) -> bool) {
    && (forall t: nat | word(t) :: t + 3 <= |row| && row[t] && row[t + 1] && row[t + 2])
    && (forall i: nat, j: nat :: keep(i, j) <==> Wordy(word, i, j) && sparse(i, j))
  }

  ghost predicate SeenWord(word: nat -> bool, from: nat, t: nat) {
    exists u: nat :: from <= u < t && word(u)
  }

  /** The pass before byte `t`, run starts looked at up to `last`: with a run open, the runs
      before it and whether it has a word so far; else the runs so far. */
  ghost predicate PassOk(row: seq<bool>, word: nat -> bool, keep: (nat, nat) -> bool, m: nat, lo: nat, last: nat, t: nat,
      active: bool, start: nat, seen: bool, out: seq<(nat, nat)>)
  {
    var x := if t < last then t else last;
    && lo <= x <= last <= |row|
    && if active then
         && lo <= start < x && t <= |row| && Starts(row, m, start) && (forall u | start <= u < t :: row[u])
         && out == Runs(row, m, keep, lo, start) && (seen <==> SeenWord(word, start, t))
       else out == Runs(row, m, keep, lo, x)
  }

  /** A word in a run that ends at `t` lies in the run. */
  lemma WordInRun(row: seq<bool>, word: nat -> bool, sparse: (nat, nat) -> bool, keep: (nat, nat) -> bool, i: nat, t: nat)
    requires IsPass(row, word, sparse, keep) && i <= t <= |row| && (t < |row| ==> !row[t])
    ensures SeenWord(word, i, t) <==> Wordy(word, i, t)
  {
    if SeenWord(word, i, t) {
      var u: nat :| i <= u < t && word(u);
      assert u + 3 <= t;
    }
  }

  /** The run open ends at `t`. */
  lemma RunEnds(row: seq<bool>, word: nat -> bool, sparse: (nat, nat) -> bool, keep: (nat, nat) -> bool, m: nat, lo: nat, last: nat, t: nat,
      start: nat, seen: bool, out: seq<(nat, nat)>)
    requires IsPass(row, word, sparse, keep) && PassOk(row, word, keep, m, lo, last, t, true, start, seen, out)
    requires t < |row| ==> !row[t]
    ensures PassOk(row, word, keep, m, lo, last, t + 1, false, start, seen, if seen && sparse(start, t) then out + [(start, t)] else out)
  {
    RunEndIs(row, start, t);
    WordInRun(row, word, sparse, keep, start, t);
    var x := if t < last then t else last;
    InsideRun(row, m, keep, lo, start, x);
    assert Runs(row, m, keep, lo, start + 1) == if seen && sparse(start, t) then out + [(start, t)] else out;
    if t < last {
      assert !Starts(row, m, t);
    }
  }

  /** The run open goes on. */
  lemma RunGoesOn(row: seq<bool>, word: nat -> bool, keep: (nat, nat) -> bool, m: nat, lo: nat, last: nat, t: nat,
      start: nat, seen: bool, out: seq<(nat, nat)>)
    requires PassOk(row, word, keep, m, lo, last, t, true, start, seen, out) && t < |row| && row[t]
    ensures PassOk(row, word, keep, m, lo, last, t + 1, true, start, seen || word(t), out)
    ensures t < last ==> !Starts(row, m, t)
  {
    assert SeenWord(word, start, t + 1) <==> SeenWord(word, start, t) || word(t);
  }

  /** A run starts at `t`. */
  lemma RunStarts(row: seq<bool>, word: nat -> bool, keep: (nat, nat) -> bool, m: nat, lo: nat, last: nat, t: nat,
      start: nat, seen: bool, out: seq<(nat, nat)>)
    requires PassOk(row, word, keep, m, lo, last, t, false, start, seen, out) && lo <= t < last && Starts(row, m, t)
    ensures PassOk(row, word, keep, m, lo, last, t + 1, true, t, word(t), out)
  {
    assert SeenWord(word, t, t + 1) <==> word(t);
  }

  /** None starts. */
  lemma NoRunStarts(row: seq<bool>, word: nat -> bool, keep: (nat, nat) -> bool, m: nat, lo: nat, last: nat, t: nat, u: nat,
      start: nat, seen: bool, out: seq<(nat, nat)>)
    requires PassOk(row, word, keep, m, lo, last, t, false, start, seen, out) && t <= u
    requires forall i | t <= i < u && i < last :: !Starts(row, m, i)
    ensures PassOk(row, word, keep, m, lo, last, u, false, start, seen, out)
  {
    var x, y := if t < last then t else last, if u < last then u else last;
    NoMoreRuns(row, m, keep, lo, x, y);
  }

  /** A byte: whether it is printable, whether a run starts at it. */
  lemma PassStep(row: seq<bool>, word: nat -> bool, sparse: (nat, nat) -> bool, keep: (nat, nat) -> bool, m: nat, lo: nat, last: nat, t: nat,
      active: bool, start: nat, seen: bool, out: seq<(nat, nat)>, prints: bool, starts: bool, seen': bool)
    requires IsPass(row, word, sparse, keep) && PassOk(row, word, keep, m, lo, last, t, active, start, seen, out) && lo <= t
    requires (prints <==> t < |row| && row[t]) && (starts <==> t < last && t < |row| && Starts(row, m, t))
    requires (active && prints) || starts ==> (seen' <==> (seen && !starts) || word(t))
    ensures PassOk(row, word, keep, m, lo, last, t + 1, (active && prints) || starts, if starts then t else start, seen',
                   if active && !prints && seen && sparse(start, t) then out + [(start, t)] else out)
  {
    if active && prints {
      RunGoesOn(row, word, keep, m, lo, last, t, start, seen, out);
    } else if active {
      RunEnds(row, word, sparse, keep, m, lo, last, t, start, seen, out);
    } else if starts {
      RunStarts(row, word, keep, m, lo, last, t, start, seen, out);
    } else {
      NoRunStarts(row, word, keep, m, lo, last, t, t + 1, start, seen, out);
    }
  }

  // ---- all passes together

  /** The passes of a scan over `n` bytes. */
  datatype Job = Job(n: nat, rows: seq<seq<bool>>, words: seq<nat -> bool>, keeps: seq<(nat, nat) -> bool>)

  ghost predicate Valid(job: Job, sparse: (nat, nat) -> bool) {
    && |job.rows| == |job.words| == |job.keeps|
    && forall q | 0 <= q < |job.rows| :: |job.rows[q]| == job.n && IsPass(job.rows[q], job.words[q], sparse, job.keeps[q])
  }

  /** `s` holds the passes that decode each byte printable. */
  ghost predicate Prints(job: Job, s: seq<Passes>) {
    |s| == job.n && forall t, q: nat | 0 <= t < |s| :: q in s[t] <==> PrintsAt(job, t, q)
  }

  ghost predicate PrintsAt(job: Job, t: nat, q: nat) {
    q < |job.rows| && t < |job.rows[q]| && job.rows[q][t]
  }

  /** `found` gives, of some passes, those with a word at a byte. */
  ghost predicate Finds(job: Job, found: (nat, Passes) -> Passes) {
    forall t: nat, open, q: nat :: q in found(t, open) <==> q in open && HasWordAt(job, t, q)
  }

  ghost predicate HasWordAt(job: Job, t: nat, q: nat) {
    q < |job.words| && job.words[q](t)
  }

  /** The passes with a run open, the start of each one's run, those whose run has a word, and
      the runs of each so far. */
  datatype Scan = Scan(active: Passes, start: seq<nat>, seen: Passes, out: seq<seq<(nat, nat)>>)

  ghost predicate ScanOk(job: Job, m: nat, lo: nat, last: nat, t: nat, sc: Scan) {
    && |job.rows| == |job.words| == |job.keeps| == |sc.start| == |sc.out|
    && (forall q | q in sc.active :: q < |job.rows|)
    && forall q | 0 <= q < |job.rows| :: ScanOkAt(job, m, lo, last, t, sc, q)
  }

  ghost predicate ScanOkAt(job: Job, m: nat, lo: nat, last: nat, t: nat, sc: Scan, q: nat)
    requires q < |job.rows| == |job.words| == |job.keeps| == |sc.start| == |sc.out|
  {
    PassOk(job.rows[q], job.words[q], job.keeps[q], m, lo, last, t, q in sc.active, sc.start[q], q in sc.seen, sc.out[q])
  }

  /** The passes whose run starts at `t`. */
  ghost predicate AreStarts(job: Job, m: nat, last: nat, t: nat, starts: Passes) {
    forall q: nat :: q in starts <==> StartsAt(job, m, last, t, q)
  }

  ghost predicate StartsAt(job: Job, m: nat, last: nat, t: nat, q: nat) {
    q < |job.rows| && t < last && t < |job.rows[q]| && Starts(job.rows[q], m, t)
  }

  /** The runs of `ends` that end at `t`, kept when they have a word and a sparse source. */
  method Finish(ends: Passes, t: nat, sparse: (nat, nat) -> bool, start: seq<nat>, out: seq<seq<(nat, nat)>>) returns (out': seq<seq<(nat, nat)>>)
    requires |start| == |out|
    ensures |out'| == |out|
    ensures forall q | 0 <= q < |out| :: out'[q] == if q in ends && sparse(start[q], t) then out[q] + [(start[q], t)] else out[q]
  {
    out' := out;
    for q := 0 to |out|
      invariant |out'| == |out|
      invariant forall r | 0 <= r < |out| :: out'[r] == if r < q && r in ends && sparse(start[r], t) then out[r] + [(start[r], t)] else out[r]
    {
      if q in ends && sparse(start[q], t) {
        out' := out'[q := out'[q] + [(start[q], t)]];
      }
    }
  }

  method SetStarts(starts: Passes, t: nat, start: seq<nat>) returns (start': seq<nat>)
    ensures |start'| == |start| && forall q | 0 <= q < |start| :: start'[q] == if q in starts then t else start[q]
  {
    start' := start;
    for q := 0 to |start|
      invariant |start'| == |start|
      invariant forall r | 0 <= r < |start| :: start'[r] == if r < q && r in starts then t else start[r]
    {
      if q in starts { start' := start'[q := t]; }
    }
  }

  /** What the sets and lists of a step become. */
  ghost predicate Moved(t: nat, st: Passes, starts: Passes, found: (nat, Passes) -> Passes, sparse: (nat, nat) -> bool, sc: Scan, r: Scan) {
    var seen, open := sc.seen - starts, r.active - (sc.seen - starts);
    && |sc.start| == |sc.out| == |r.start| == |r.out| && r.active == sc.active * st + starts
    && (forall q | 0 <= q < |sc.out| :: r.start[q] == if q in starts then t else sc.start[q])
    && (forall q | 0 <= q < |sc.out| :: r.out[q] == if Ended(t, q, st, sparse, sc) then sc.out[q] + [(sc.start[q], t)] else sc.out[q])
    && r.seen == if open == {} then seen else seen + found(t, open)
  }

  predicate Ended(t: nat, q: nat, st: Passes, sparse: (nat, nat) -> bool, sc: Scan)
    requires q < |sc.start|
  {
    q in sc.active && q !in st && q in sc.seen && sparse(sc.start[q], t)
  }

  /** The scan moved over the byte at `t`, which the passes of `st` decode to something printable
      and at which those of `starts` open a run. */
  method Step(t: nat, st: Passes, starts: Passes, found: (nat, Passes) -> Passes, sparse: (nat, nat) -> bool, sc: Scan) returns (r: Scan)
    requires |sc.start| == |sc.out|
    ensures Moved(t, st, starts, found, sparse, sc, r)
  {
    var active, seen, start, out := sc.active, sc.seen, sc.start, sc.out;
    var ends := active - st;
    assert forall q | q in sc.active :: q in st || q in ends;
    if ends != {} {
      active := active * st;
      out := Finish(ends * seen, t, sparse, start, out);
    }
    if starts != {} {
      active := active + starts;
      seen := seen - starts;
      start := SetStarts(starts, t, start);
    }
    assert active == sc.active * st + starts && seen == sc.seen - starts;
    var open := active - seen;
    if open != {} {
      seen := seen + found(t, open);
    }
    r := Scan(active, start, seen, out);
  }

  /** A step takes every pass one byte on. */
  lemma StepAll(job: Job, m: nat, lo: nat, last: nat, t: nat, st: Passes, starts: Passes,
      found: (nat, Passes) -> Passes, sparse: (nat, nat) -> bool, sc: Scan, r: Scan)
    requires Valid(job, sparse) && Finds(job, found) && ScanOk(job, m, lo, last, t, sc) && lo <= t
    requires (forall q: nat :: q in st <==> PrintsAt(job, t, q)) && AreStarts(job, m, last, t, starts)
    requires Moved(t, st, starts, found, sparse, sc, r)
    ensures ScanOk(job, m, lo, last, t + 1, r)
  {
    forall q | q in r.active ensures q < |job.rows| {
      assert q in starts ==> StartsAt(job, m, last, t, q);
    }
    var next, open := t + 1, r.active - (sc.seen - starts);
    forall q | 0 <= q < |job.rows| ensures ScanOkAt(job, m, lo, last, next, r, q) {
      assert ScanOkAt(job, m, lo, last, t, sc, q);
      assert (q in st <==> PrintsAt(job, t, q)) && (q in starts <==> StartsAt(job, m, last, t, q));
      assert q in found(t, open) <==> q in open && HasWordAt(job, t, q);
      StepOne(job, m, lo, last, t, q, st, starts, sparse, sc, r);
    }
  }

  /** What a step does to one pass. */
  ghost predicate Stepped(job: Job, t: nat, q: nat, st: Passes, starts: Passes, sparse: (nat, nat) -> bool, sc: Scan, r: Scan)
    requires q < |job.words| == |sc.start| == |sc.out| == |r.start| == |r.out|
  {
    && (q in r.active <==> (q in sc.active && q in st) || q in starts)
    && r.start[q] == (if q in starts then t else sc.start[q])
    && r.out[q] == (if q in sc.active && q !in st && q in sc.seen && sparse(sc.start[q], t) then sc.out[q] + [(sc.start[q], t)] else sc.out[q])
    && (q in r.active ==> (q in r.seen <==> (q in sc.seen && q !in starts) || job.words[q](t)))
  }

  lemma StepOne(job: Job, m: nat, lo: nat, last: nat, t: nat, q: nat, st: Passes, starts: Passes, sparse: (nat, nat) -> bool, sc: Scan, r: Scan)
    requires Valid(job, sparse) && q < |job.rows| == |sc.start| == |sc.out| == |r.start| == |r.out| && lo <= t
    requires ScanOkAt(job, m, lo, last, t, sc, q) && Stepped(job, t, q, st, starts, sparse, sc, r)
    requires (q in st <==> PrintsAt(job, t, q)) && (q in starts <==> StartsAt(job, m, last, t, q))
    ensures ScanOkAt(job, m, lo, last, t + 1, r, q)
  {
    PassStep(job.rows[q], job.words[q], sparse, job.keeps[q], m, lo, last, t, q in sc.active, sc.start[q], q in sc.seen, sc.out[q],
             q in st, q in starts, q in r.seen);
  }

  // ---- a chunk

  /** The runs start at `t` of the passes whose window there is printable, but not the byte
      before. */
  lemma WindowStarts(job: Job, s: seq<Passes>, m: nat, lo: nat, last: nat, w: seq<Passes>, t: nat, prev: Passes)
    requires Prints(job, s) && m >= 1 && lo <= t < last && last + m <= |s| + 1
    requires forall q | 0 <= q < |job.rows| :: |job.rows[q]| == job.n
    requires Windows(s[lo..last + m - 1], m, w) && prev == (if t == 0 then {} else s[t - 1])
    ensures t - lo < |w| && AreStarts(job, m, last, t, w[t - lo] - prev)
  {
    forall q: nat ensures q in w[t - lo] - prev <==> StartsAt(job, m, last, t, q) {
      WindowHas(job, s, m, lo, last, w, t, q);
      assert t > 0 ==> (q in s[t - 1] <==> PrintsAt(job, t - 1, q));
      if q < |job.rows| {
        LongRun(job.rows[q], t, m);
        RowPrints(job, q, t, m);
        assert t <= t < t + m && (PrintsAt(job, t, q) <==> job.rows[q][t]);
      } else {
        assert !PrintsAt(job, t, q);
      }
    }
  }

  lemma RowPrints(job: Job, q: nat, t: nat, m: nat)
    requires q < |job.rows| && t + m <= |job.rows[q]|
    ensures (forall u | t <= u < t + m :: PrintsAt(job, u, q)) <==> (forall u | t <= u < t + m :: job.rows[q][u])
  {
    if forall u | t <= u < t + m :: PrintsAt(job, u, q) {
      forall u | t <= u < t + m ensures job.rows[q][u] {
        assert PrintsAt(job, u, q);
      }
    }
  }

  lemma WindowHas(job: Job, s: seq<Passes>, m: nat, lo: nat, last: nat, w: seq<Passes>, t: nat, q: nat)
    requires Prints(job, s) && m >= 1 && lo <= t < last && last + m <= |s| + 1 && Windows(s[lo..last + m - 1], m, w)
    ensures t - lo < |w| && (q in w[t - lo] <==> forall u | t <= u < t + m :: PrintsAt(job, u, q))
  {
    var win := s[lo..last + m - 1];
    assert q in w[t - lo] <==> InAll(win, t - lo, m, q);
    if InAll(win, t - lo, m, q) {
      forall u | t <= u < t + m ensures PrintsAt(job, u, q) {
        assert q in win[u - lo];
      }
    }
    if forall u | t <= u < t + m :: PrintsAt(job, u, q) {
      forall v | t - lo <= v < t - lo + m ensures q in win[v] {
        assert win[v] == s[v + lo] && PrintsAt(job, v + lo, q);
      }
    }
  }

  lemma LongRun(row: seq<bool>, t: nat, m: nat)
    requires t + m <= |row|
    ensures RunEnd(row, t) - t >= m <==> forall u | t <= u < t + m :: row[u]
  {
    RunEndFacts(row, t);
  }

  /** With no run open, on to where one starts. */
  lemma SkipAll(job: Job, m: nat, lo: nat, last: nat, t: nat, u: nat, sc: Scan)
    requires ScanOk(job, m, lo, last, t, sc) && sc.active == {} && lo <= t <= u
    requires forall i | t <= i < u :: AreStarts(job, m, last, i, {})
    ensures ScanOk(job, m, lo, last, u, sc)
  {
    forall q | 0 <= q < |job.rows| ensures ScanOkAt(job, m, lo, last, u, sc, q) {
      assert ScanOkAt(job, m, lo, last, t, sc, q);
      forall i | t <= i < u && i < last ensures !Starts(job.rows[q], m, i) {
        assert AreStarts(job, m, last, i, {});
        assert !StartsAt(job, m, last, i, q);
      }
      NoRunStarts(job.rows[q], job.words[q], job.keeps[q], m, lo, last, t, u, sc.start[q], q in sc.seen, sc.out[q]);
    }
  }

  /** The next window of some pass. */
  method NextWindow(w: seq<Passes>, k: nat) returns (r: nat)
    requires k <= |w|
    ensures k <= r <= |w| && (forall i | k <= i < r :: w[i] == {}) && (r < |w| ==> w[r] != {})
  {
    r := k;
    while r < |w| && w[r] == {}
      invariant k <= r <= |w| && forall i | k <= i < r :: w[i] == {}
    {
      r := r + 1;
    }
  }

  /** What a chunk's scan is given: `w` the windows of its run starts. */
  ghost predicate Chunk(job: Job, s: seq<Passes>, m: nat, lo: nat, last: nat, w: seq<Passes>, found: (nat, Passes) -> Passes, sparse: (nat, nat) -> bool) {
    && Valid(job, sparse) && Prints(job, s) && Finds(job, found)
    && m >= 1 && lo < last && last + m <= |s| + 1 && Windows(s[lo..last + m - 1], m, w)
  }

  lemma SkipWindows(job: Job, s: seq<Passes>, m: nat, lo: nat, last: nat, w: seq<Passes>, found: (nat, Passes) -> Passes, sparse: (nat, nat) -> bool,
      k: nat, r: nat, sc: Scan)
    requires Chunk(job, s, m, lo, last, w, found, sparse) && k <= r <= |w| && forall i | k <= i < r :: w[i] == {}
    requires ScanOk(job, m, lo, last, lo + k, sc) && sc.active == {}
    ensures ScanOk(job, m, lo, last, lo + r, sc)
  {
    forall i | lo + k <= i < lo + r ensures AreStarts(job, m, last, i, {}) {
      WindowStarts(job, s, m, lo, last, w, i, if i == 0 then {} else s[i - 1]);
      assert w[i - lo] - (if i == 0 then {} else s[i - 1]) == {};
    }
    SkipAll(job, m, lo, last, lo + k, lo + r, sc);
  }

  /** The bytes where runs may start. */
  method ScanStarts(ghost job: Job, s: seq<Passes>, ghost m: nat, lo: nat, ghost last: nat, w: seq<Passes>,
      found: (nat, Passes) -> Passes, sparse: (nat, nat) -> bool, sc0: Scan) returns (sc: Scan)
    requires Chunk(job, s, m, lo, last, w, found, sparse) && ScanOk(job, m, lo, last, lo, sc0) && sc0.active == {}
    ensures ScanOk(job, m, lo, last, last, sc)
  {
    sc := sc0;
    var prev, k := {}, 0;
    assert |w| == last - lo;
    while k < |w|
      invariant 0 <= k <= |w| && ScanOk(job, m, lo, last, lo + k, sc)
      invariant sc.active != {} ==> lo + k > 0 && prev == s[lo + k - 1]
    {
      if sc.active == {} {
        var r := NextWindow(w, k);
        SkipWindows(job, s, m, lo, last, w, found, sparse, k, r, sc);
        k := r;
        if k == |w| { break; }
        prev := if lo + k == 0 then {} else s[lo + k - 1];
      }
      sc := StepWindow(job, s, m, lo, last, w, found, sparse, k, prev, sc);
      prev, k := s[lo + k], k + 1;
    }
  }

  /** The byte of window `k`, `prev` the passes that decode the byte before printable. */
  method StepWindow(ghost job: Job, s: seq<Passes>, ghost m: nat, lo: nat, ghost last: nat, w: seq<Passes>,
      found: (nat, Passes) -> Passes, sparse: (nat, nat) -> bool, k: nat, prev: Passes, sc: Scan) returns (r: Scan)
    requires Chunk(job, s, m, lo, last, w, found, sparse) && k < |w| == last - lo && ScanOk(job, m, lo, last, lo + k, sc)
    requires prev == if lo + k == 0 then {} else s[lo + k - 1]
    ensures ScanOk(job, m, lo, last, lo + k + 1, r)
  {
    var t := lo + k;
    WindowStarts(job, s, m, lo, last, w, t, prev);
    r := Step(t, s[t], w[k] - prev, found, sparse, sc);
    assert forall q: nat :: q in s[t] <==> PrintsAt(job, t, q);
    StepAll(job, m, lo, last, t, s[t], w[k] - prev, found, sparse, sc, r);
  }

  /** The bytes after, up to the ends of the runs still open. */
  method ScanRest(ghost job: Job, s: seq<Passes>, ghost m: nat, ghost lo: nat, last: nat,
      found: (nat, Passes) -> Passes, sparse: (nat, nat) -> bool, sc0: Scan) returns (sc: Scan)
    requires Valid(job, sparse) && Prints(job, s) && Finds(job, found) && lo <= last && ScanOk(job, m, lo, last, last, sc0)
    ensures |sc.out| == |job.rows| == |job.keeps|
    ensures forall q | 0 <= q < |job.rows| :: last <= |job.rows[q]| && sc.out[q] == Runs(job.rows[q], m, job.keeps[q], lo, last)
  {
    sc := sc0;
    var t := last;
    while sc.active != {}
      invariant last <= t && ScanOk(job, m, lo, last, t, sc)
      decreases |s| + 1 - t
    {
      OpenBound(job, m, lo, last, t, sc);
      var st := if t < |s| then s[t] else {};
      assert forall q: nat :: q in st <==> PrintsAt(job, t, q);
      assert AreStarts(job, m, last, t, {});
      var next := Step(t, st, {}, found, sparse, sc);
      StepAll(job, m, lo, last, t, st, {}, found, sparse, sc, next);
      sc, t := next, t + 1;
    }
    forall q | 0 <= q < |job.rows| ensures last <= |job.rows[q]| && sc.out[q] == Runs(job.rows[q], m, job.keeps[q], lo, last) {
      assert ScanOkAt(job, m, lo, last, t, sc, q);
    }
  }

  lemma OpenBound(job: Job, m: nat, lo: nat, last: nat, t: nat, sc: Scan)
    requires ScanOk(job, m, lo, last, t, sc) && sc.active != {} && forall q | 0 <= q < |job.rows| :: |job.rows[q]| == job.n
    ensures t <= job.n
  {
    var q :| q in sc.active;
    assert ScanOkAt(job, m, lo, last, t, sc, q);
  }

  lemma ScanBegins(job: Job, m: nat, lo: nat, last: nat, passes: nat)
    requires passes == |job.rows| == |job.words| == |job.keeps| && lo <= last && forall q | 0 <= q < passes :: last <= |job.rows[q]|
    ensures ScanOk(job, m, lo, last, lo, Scan({}, seq(passes, _ => 0), {}, seq(passes, _ => [])))
  {
    var sc := Scan({}, seq(passes, _ => 0), {}, seq(passes, _ => []));
    forall q | 0 <= q < |job.rows| ensures ScanOkAt(job, m, lo, last, lo, sc, q) {
    }
  }

  /** The runs of each pass that start in `lo..hi` and are kept, in order. */
  method ScanChunk(ghost job: Job, s: seq<Passes>, passes: nat, lo: nat, hi: nat, minLength: nat,
      found: (nat, Passes) -> Passes, sparse: (nat, nat) -> bool) returns (out: seq<seq<(nat, nat)>>)
    requires Valid(job, sparse) && Prints(job, s) && Finds(job, found) && passes == |job.rows| && lo <= hi <= |s|
    ensures |out| == passes
    ensures forall q | 0 <= q < passes :: out[q] == Runs(job.rows[q], AtLeastOne(minLength), job.keeps[q], lo, hi)
  {
    out := seq(passes, _ => []);
    var n, m := |s|, AtLeastOne(minLength);
    var last := if n < m then 0 else if hi < n - m + 1 then hi else n - m + 1;
    if lo >= last {
      forall q | 0 <= q < passes ensures [] == Runs(job.rows[q], m, job.keeps[q], lo, hi) {
        if lo < hi { TooLate(job.rows[q], m, job.keeps[q], lo, lo, hi); }
      }
      return;
    }
    var w := WindowAnd(s[lo..last + m - 1], m);
    ScanBegins(job, m, lo, last, passes);
    var sc := ScanStarts(job, s, m, lo, last, w, found, sparse, Scan({}, seq(passes, _ => 0), {}, out));
    sc := ScanRest(job, s, m, lo, last, found, sparse, sc);
    out := sc.out;
    forall q | 0 <= q < passes ensures out[q] == Runs(job.rows[q], m, job.keeps[q], lo, hi) {
      if last < hi { TooLate(job.rows[q], m, job.keeps[q], lo, last, hi); }
    }
  }
}
