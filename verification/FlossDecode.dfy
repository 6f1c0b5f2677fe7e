/**
 The search of a buffer for hidden strings: every way of decoding tried, in order, up to a
 cap. Scanned in groups of passes and in chunks of the buffer, it finds what a naive scan for
 each way does.
 */
module FlossDecode {
  import opened FlossBytes
  import opened FlossRuns
  import opened FlossGroup
  import FlossScan
  import opened FlossFilter

  datatype Options = Options(minLength: nat, tryXor: bool, tryAdd: bool, tryRol: bool, maxPerSection: nat, sparseSource: bool)

  /** A string found: the address and the method, and what it decodes to. */
  datatype Hit = Hit(address: nat, way: Method, plaintext: seq<Byte>)

  // ---- one pass alone

  /** How many source bytes of `i..j` are not printable. */
  function NotPrintable(buf: seq<Byte>, i: nat, j: nat): nat
    requires i <= j <= |buf|
  {
    if i == j then 0 else NotPrintable(buf, i, j - 1) + if IsPrintable(buf[j - 1]) then 0 else 1
  }

  /** At least half of the source bytes are not printable. */
  predicate IsSparse(buf: seq<Byte>, opts: Options, i: nat, j: nat) {
    opts.sparseSource ==> i <= j <= |buf| && NotPrintable(buf, i, j) * 2 >= j - i
  }

  function Plain(m: Method, buf: seq<Byte>, i: nat, j: nat): seq<Byte>
    requires i <= j <= |buf|
  {
    Decoded(buf[i..j], b => Decode(m, b))
  }

  predicate WordIn(d: seq<Byte>) {
    exists t | 0 <= t < |d| - 2 :: IsWord(d[t], d[t + 1], d[t + 2])
  }

  /** A decoded run looks like a string. */
  predicate Passes(d: seq<Byte>) {
    && d != [] && (exists i | 0 <= i < |d| :: d[i] != d[0])
    && WordIn(d) && AlnumOk(d, IsAlnum) && VarietyOk(d) && PeriodsOk(d)
  }

  function Keeps(m: Method, buf: seq<Byte>, opts: Options): (nat, nat) -> bool {
    (i: nat, j: nat) => i < j <= |buf| && IsSparse(buf, opts, i, j) && Passes(Plain(m, buf, i, j))
  }

  /** The runs one pass finds. */
  function Found(m: Method, buf: seq<Byte>, opts: Options): seq<(nat, nat)> {
    Runs(Row(m, buf), AtLeastOne(opts.minLength), Keeps(m, buf, opts), 0, |buf|)
  }

  function ToHits(m: Method, buf: seq<Byte>, base: nat, runs: seq<(nat, nat)>): seq<Hit> {
    if runs == [] then []
    else
      var (i, j) := runs[|runs| - 1];
      ToHits(m, buf, base, runs[..|runs| - 1]) + [Hit(base + i, m, if i <= j <= |buf| then Plain(m, buf, i, j) else [])]
  }

  function HitsOf(m: Method, buf: seq<Byte>, base: nat, opts: Options): seq<Hit> {
    ToHits(m, buf, base, Found(m, buf, opts))
  }

  /** The hits of each method. */
  function HitLists(buf: seq<Byte>, base: nat, opts: Options, methods: seq<Method>): (r: seq<seq<Hit>>)
    ensures |r| == |methods|
  {
    seq(|methods|, k requires 0 <= k < |methods| => HitsOf(methods[k], buf, base, opts))
  }

  /** The first `k` lists, cut at the cap, and whether it was passed. */
  function Collect<T>(lists: seq<seq<T>>, cap: nat, k: nat): (seq<T>, bool)
    requires k <= |lists|
  {
    if k == 0 then ([], false)
    else
      var before := Collect(lists, cap, k - 1);
      var all := before.0 + lists[k - 1];
      if before.1 then before else if |all| > cap then (all[..cap], true) else (all, false)
  }

  lemma {:induction false} CappedStays<T>(lists: seq<seq<T>>, cap: nat, k: nat, n: nat)
    requires k <= n <= |lists| && Collect(lists, cap, k).1
    ensures Collect(lists, cap, n) == Collect(lists, cap, k)
    decreases n
  {
    if k < n { CappedStays(lists, cap, k, n - 1); }
  }

  /** One list more, cut at the cap. */
  method Append<T>(ghost lists: seq<seq<T>>, cap: nat, ghost k: nat, hits: seq<T>, more: seq<T>) returns (hits': seq<T>, capped: bool)
    requires k < |lists| && Collect(lists, cap, k) == (hits, false) && more == lists[k]
    ensures Collect(lists, cap, k + 1) == (hits', capped)
    ensures capped ==> Collect(lists, cap, |lists|) == (hits', true)
  {
    hits' := hits + more;
    capped := |hits'| > cap;
    if capped {
      hits' := hits'[..cap];
      CappedStays(lists, cap, k + 1, |lists|);
    }
  }

  ghost predicate IsList(lists: seq<seq<Hit>>, buf: seq<Byte>, base: nat, opts: Options, ms: seq<Method>, k: nat)
    requires k < |ms| == |lists|
  {
    lists[k] == HitsOf(ms[k], buf, base, opts)
  }

  /** `lists` are the hits of each of the methods. */
  ghost predicate AreLists(lists: seq<seq<Hit>>, buf: seq<Byte>, base: nat, opts: Options, ms: seq<Method>) {
    |lists| == |ms| && forall k | 0 <= k < |ms| :: IsList(lists, buf, base, opts, ms, k)
  }

  lemma HitListsAre(buf: seq<Byte>, base: nat, opts: Options, ms: seq<Method>)
    ensures AreLists(HitLists(buf, base, opts, ms), buf, base, opts, ms)
  {
  }

  // ---- what the scan tests and what is left

  ghost function Words(m: Method, buf: seq<Byte>): nat -> bool {
    (t: nat) => WordAt(m, buf, t)
  }

  ghost function ScanKeeps(m: Method, buf: seq<Byte>, opts: Options): (nat, nat) -> bool {
    (i: nat, j: nat) => FlossScan.Wordy(Words(m, buf), i, j) && IsSparse(buf, opts, i, j)
  }

  function AlnumOf(m: Method): Byte -> bool {
    b => IsAlnum(Decode(m, b))
  }

  /** The filter but for its word, on the source bytes. */
  predicate RestOk(m: Method, s: seq<Byte>) {
    AlnumOk(s, AlnumOf(m)) && VarietyOk(s) && PeriodsOk(s)
  }

  ghost function Rest(m: Method, buf: seq<Byte>): (nat, nat) -> bool {
    (i: nat, j: nat) => i <= j <= |buf| && RestOk(m, buf[i..j])
  }

  lemma PlainAt(m: Method, buf: seq<Byte>, i: nat, j: nat, t: nat)
    requires i <= j <= |buf| && i + t < j
    ensures |Plain(m, buf, i, j)| == j - i && Plain(m, buf, i, j)[t] == Decode(m, buf[i + t])
  {
  }

  lemma WordShift(m: Method, buf: seq<Byte>, d: seq<Byte>, i: nat, t: nat)
    requires t + 3 <= |d| && i + t + 3 <= |buf|
    requires d[t] == Decode(m, buf[i + t]) && d[t + 1] == Decode(m, buf[i + t + 1]) && d[t + 2] == Decode(m, buf[i + t + 2])
    ensures IsWord(d[t], d[t + 1], d[t + 2]) <==> Words(m, buf)(i + t)
  {
  }

  lemma WordInPlain(m: Method, buf: seq<Byte>, i: nat, j: nat, t: nat)
    requires i <= j <= |buf| && i + t + 3 <= j
    ensures var d := Plain(m, buf, i, j);
      |d| == j - i && (IsWord(d[t], d[t + 1], d[t + 2]) <==> Words(m, buf)(i + t))
  {
    PlainAt(m, buf, i, j, t);
    PlainAt(m, buf, i, j, t + 1);
    PlainAt(m, buf, i, j, t + 2);
    WordShift(m, buf, Plain(m, buf, i, j), i, t);
  }

  /** A word is a word of the decoded run. */
  lemma WordyIff(m: Method, buf: seq<Byte>, i: nat, j: nat)
    requires i < j <= |buf|
    ensures FlossScan.Wordy(Words(m, buf), i, j) <==> WordIn(Plain(m, buf, i, j))
  {
    if FlossScan.Wordy(Words(m, buf), i, j) { WordyIn(m, buf, i, j); }
    if WordIn(Plain(m, buf, i, j)) { InWordy(m, buf, i, j); }
  }

  lemma WordyIn(m: Method, buf: seq<Byte>, i: nat, j: nat)
    requires i < j <= |buf| && FlossScan.Wordy(Words(m, buf), i, j)
    ensures WordIn(Plain(m, buf, i, j))
  {
    var t: nat :| i <= t && t + 3 <= j && Words(m, buf)(t);
    WordInPlain(m, buf, i, j, t - i);
  }

  lemma InWordy(m: Method, buf: seq<Byte>, i: nat, j: nat)
    requires i < j <= |buf| && WordIn(Plain(m, buf, i, j))
    ensures FlossScan.Wordy(Words(m, buf), i, j)
  {
    var d := Plain(m, buf, i, j);
    var t :| 0 <= t < |d| - 2 && IsWord(d[t], d[t + 1], d[t + 2]);
    WordInPlain(m, buf, i, j, t);
    assert Words(m, buf)(i + t);
  }

  /** A word's letters differ. */
  lemma WordVaries(d: seq<Byte>)
    requires WordIn(d)
    ensures d != [] && exists i | 0 <= i < |d| :: d[i] != d[0]
  {
    var t :| 0 <= t < |d| - 2 && IsWord(d[t], d[t + 1], d[t + 2]);
    assert d[t] != d[t + 1];
    assert d[t] != d[0] || d[t + 1] != d[0];
  }

  lemma DecodesApart(m: Method)
    ensures Injective((b: Byte) => Decode(m, b))
  {
    forall a, b | Decode(m, a) == Decode(m, b) ensures a == b {
      DecodeInjective(m, a, b);
    }
  }

  /** The word, the source and the rest are the whole filter. */
  lemma KeepsSplit(m: Method, buf: seq<Byte>, opts: Options, i: nat, j: nat)
    requires i < j <= |buf|
    ensures Keeps(m, buf, opts)(i, j) <==> ScanKeeps(m, buf, opts)(i, j) && Rest(m, buf)(i, j)
  {
    var s, d := buf[i..j], Plain(m, buf, i, j);
    WordyIff(m, buf, i, j);
    if WordIn(d) {
      WordVaries(d);
    }
    var f := (b: Byte) => Decode(m, b);
    assert d == Decoded(s, f);
    DecodesApart(m);
    SameAlnum(s, f, IsAlnum, AlnumOf(m));
    SameVariety(s, f);
    SamePeriods(s, f);
  }

  /** The runs the scan keeps, sifted by the rest of the filter, are those one pass finds. */
  lemma SiftedIsFound(m: Method, buf: seq<Byte>, opts: Options)
    ensures Sift(Runs(Row(m, buf), AtLeastOne(opts.minLength), ScanKeeps(m, buf, opts), 0, |buf|), Rest(m, buf)) == Found(m, buf, opts)
  {
    forall i: nat, j: nat | i < j <= |buf| ensures Keeps(m, buf, opts)(i, j) <==> ScanKeeps(m, buf, opts)(i, j) && Rest(m, buf)(i, j) {
      KeepsSplit(m, buf, opts, i, j);
    }
    SiftedRuns(Row(m, buf), AtLeastOne(opts.minLength), ScanKeeps(m, buf, opts), Rest(m, buf), Keeps(m, buf, opts), 0, |buf|);
  }
}
