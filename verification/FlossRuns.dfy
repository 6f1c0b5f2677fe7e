/**
 The runs of a pass over a buffer: a row says at each byte whether the pass decodes it
 printable.
 */
module FlossRuns {

  /** Some of the passes of a group, by number. */
  type Passes = set<nat>

  /** Where the run from `i` on ends. */
  function RunEnd(row: seq<bool>, i: nat): nat
    requires i <= |row|
    decreases |row| - i
  {
    if i == |row| || !row[i] then i else RunEnd(row, i + 1)
  }

  lemma {:induction false} RunEndIs(row: seq<bool>, i: nat, j: nat)
    requires i <= j <= |row| && (forall t | i <= t < j :: row[t]) && (j < |row| ==> !row[j])
    ensures RunEnd(row, i) == j
    decreases j - i
  {
    if i < j { RunEndIs(row, i + 1, j); }
  }

  lemma {:induction false} RunEndFacts(row: seq<bool>, i: nat)
    requires i <= |row|
    ensures var j := RunEnd(row, i);
      i <= j <= |row| && (forall t | i <= t < j :: row[t]) && (j < |row| ==> !row[j])
    decreases |row| - i
  {
    if i < |row| && row[i] { RunEndFacts(row, i + 1); }
  }

  /** A maximal run of at least `m` bytes starts at `i`. */
  predicate Starts(row: seq<bool>, m: nat, i: nat)
    requires i < |row|
  {
    row[i] && (i == 0 || !row[i - 1]) && RunEnd(row, i) - i >= m
  }

  /** The maximal runs of at least `m` bytes that start in `lo..hi` and that `keep` accepts,
      as `(start, end)`, in order. */
  function Runs(row: seq<bool>, m: nat, keep: (nat, nat) -> bool, lo: nat, hi: nat): seq<(nat, nat)>
    requires lo <= hi <= |row|
  {
    if lo == hi then []
    else
      Runs(row, m, keep, lo, hi - 1) +
      if Starts(row, m, hi - 1) && keep(hi - 1, RunEnd(row, hi - 1)) then [(hi - 1, RunEnd(row, hi - 1))] else []
  }

  lemma {:induction false} RunsSplit(row: seq<bool>, m: nat, keep: (nat, nat) -> bool, lo: nat, mid: nat, hi: nat)
    requires lo <= mid <= hi <= |row|
    ensures Runs(row, m, keep, lo, hi) == Runs(row, m, keep, lo, mid) + Runs(row, m, keep, mid, hi)
    decreases hi
  {
    if mid < hi { RunsSplit(row, m, keep, lo, mid, hi - 1); }
  }

  /** No run starts in `mid..hi`. */
  lemma {:induction false} NoMoreRuns(row: seq<bool>, m: nat, keep: (nat, nat) -> bool, lo: nat, mid: nat, hi: nat)
    requires lo <= mid <= hi <= |row| && forall i | mid <= i < hi :: !Starts(row, m, i)
    ensures Runs(row, m, keep, lo, hi) == Runs(row, m, keep, lo, mid)
    decreases hi
  {
    if mid < hi { NoMoreRuns(row, m, keep, lo, mid, hi - 1); }
  }

  /** No run starts inside a run. */
  lemma InsideRun(row: seq<bool>, m: nat, keep: (nat, nat) -> bool, lo: nat, i: nat, j: nat)
    requires lo <= i < j <= |row| && forall t | i <= t < j :: row[t]
    ensures Runs(row, m, keep, lo, j) == Runs(row, m, keep, lo, i + 1)
  {
    NoMoreRuns(row, m, keep, lo, i + 1, j);
  }

  lemma TooLate(row: seq<bool>, m: nat, keep: (nat, nat) -> bool, lo: nat, mid: nat, hi: nat)
    requires lo <= mid <= hi <= |row| && mid + m > |row|
    ensures Runs(row, m, keep, lo, hi) == Runs(row, m, keep, lo, mid)
  {
    forall i | mid <= i < hi ensures !Starts(row, m, i) {
      RunEndFacts(row, i);
    }
    NoMoreRuns(row, m, keep, lo, mid, hi);
  }

  /** The runs depend on what is kept of the runs only. */
  lemma {:induction false} SameRuns(row: seq<bool>, m: nat, f: (nat, nat) -> bool, g: (nat, nat) -> bool, lo: nat, hi: nat)
    requires lo <= hi <= |row| && forall i: nat, j: nat | i < j <= |row| :: f(i, j) == g(i, j)
    ensures Runs(row, m, f, lo, hi) == Runs(row, m, g, lo, hi)
    decreases hi
  {
    if lo < hi {
      SameRuns(row, m, f, g, lo, hi - 1);
      RunEndFacts(row, hi - 1);
    }
  }

  /** Of some runs, those `rest` accepts. */
  function Sift(runs: seq<(nat, nat)>, rest: (nat, nat) -> bool): seq<(nat, nat)> {
    if runs == [] then []
    else Sift(runs[..|runs| - 1], rest) + if rest(runs[|runs| - 1].0, runs[|runs| - 1].1) then [runs[|runs| - 1]] else []
  }

  lemma {:induction false} SiftedRuns(row: seq<bool>, m: nat, keep: (nat, nat) -> bool, rest: (nat, nat) -> bool, both: (nat, nat) -> bool, lo: nat, hi: nat)
    requires lo <= hi <= |row| && forall i: nat, j: nat | i < j <= |row| :: both(i, j) <==> keep(i, j) && rest(i, j)
    ensures Sift(Runs(row, m, keep, lo, hi), rest) == Runs(row, m, both, lo, hi)
    decreases hi
  {
    if lo < hi {
      SiftedRuns(row, m, keep, rest, both, lo, hi - 1);
      RunEndFacts(row, hi - 1);
      var before, run := Runs(row, m, keep, lo, hi - 1), (hi - 1, RunEnd(row, hi - 1));
      assert (before + [run])[..|before|] == before;
      assert before + [] == before;
    }
  }

  function AtLeastOne(m: nat): nat {
    if m == 0 then 1 else m
  }

  /** One pass alone, from each byte on: the scan every other is to agree with. */
  method ScanNaive(row: seq<bool>, minLength: nat, keep: (nat, nat) -> bool) returns (out: seq<(nat, nat)>)
    ensures out == Runs(row, AtLeastOne(minLength), keep, 0, |row|)
  {
    var m, n := AtLeastOne(minLength), |row|;
    out := [];
    var i := 0;
    while i + m <= n
      invariant 0 <= i <= n && out == Runs(row, m, keep, 0, i)
      invariant i > 0 && row[i - 1] ==> RunEnd(row, i) - i < m
    {
      var j := i;
      while j < n && row[j]
        invariant i <= j <= n && forall t | i <= t < j :: row[t]
      {
        j := j + 1;
      }
      RunEndIs(row, i, j);
      if j - i >= m {
        InsideRun(row, m, keep, 0, i, j);
        if keep(i, j) {
          out := out + [(i, j)];
        }
        i := j;
      } else {
        i := i + 1;
      }
    }
    TooLate(row, m, keep, 0, i, n);
  }
}
