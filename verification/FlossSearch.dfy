/**
 The search as it is run: 64 passes at a time over chunks of the buffer, the rest of the
 filter pass by pass, up to the cap.
 */
module FlossSearch {
  import opened FlossBytes
  import opened FlossRuns
  import opened FlossGroup
  import FlossScan
  import opened FlossFilter
  import opened FlossDecode
  import opened FlossMeaning

  // ---- one pass after the other

  /** Each pass alone, in order, up to the cap. */
  method DecodeNaive(buf: seq<Byte>, base: nat, opts: Options, methods: seq<Method>) returns (hits: seq<Hit>, capped: bool)
    ensures (hits, capped) == Collect(HitLists(buf, base, opts, methods), opts.maxPerSection, |methods|)
    ensures AreHits(buf, base, opts, methods, hits, capped) && InOrder(methods, hits)
  {
    HitListsAre(buf, base, opts, methods);
    hits, capped := PassByPass(buf, base, opts, methods, HitLists(buf, base, opts, methods));
    SearchMeans(buf, base, opts, methods, hits, capped);
  }

  method PassByPass(buf: seq<Byte>, base: nat, opts: Options, methods: seq<Method>, ghost lists: seq<seq<Hit>>) returns (hits: seq<Hit>, capped: bool)
    requires AreLists(lists, buf, base, opts, methods)
    ensures (hits, capped) == Collect(lists, opts.maxPerSection, |lists|)
  {
    hits, capped := [], false;
    var k := 0;
    while k < |methods|
      invariant 0 <= k <= |methods| && !capped && Collect(lists, opts.maxPerSection, k) == (hits, false)
    {
      assert IsList(lists, buf, base, opts, methods, k);
      var more := NaivePass(buf, base, opts, methods[k]);
      hits, capped := Append(lists, opts.maxPerSection, k, hits, more);
      if capped { return; }
      k := k + 1;
    }
  }

  method NaivePass(buf: seq<Byte>, base: nat, opts: Options, m: Method) returns (hits: seq<Hit>)
    ensures hits == HitsOf(m, buf, base, opts)
  {
    var runs := ScanNaive(Row(m, buf), opts.minLength, Keeps(m, buf, opts));
    hits := ToHits(m, buf, base, runs);
  }

  // ---- the source counts

  lemma {:induction false} NotPrintableSplit(buf: seq<Byte>, i: nat, j: nat)
    requires i <= j <= |buf|
    ensures NotPrintable(buf, 0, j) == NotPrintable(buf, 0, i) + NotPrintable(buf, i, j)
    decreases j
  {
    if i < j { NotPrintableSplit(buf, i, j - 1); }
  }

  ghost predicate IsPrefix(buf: seq<Byte>, p: seq<nat>) {
    |p| == |buf| + 1 && forall k | 0 <= k <= |buf| :: p[k] == NotPrintable(buf, 0, k)
  }

  method PrefixCounts(buf: seq<Byte>) returns (p: seq<nat>)
    ensures IsPrefix(buf, p)
  {
    p := [0];
    var k := 0;
    while k < |buf|
      invariant 0 <= k <= |buf| && IsPrefix(buf[..k], p)
    {
      NextPrefix(buf, k, p);
      p := p + [p[k] + if IsPrintable(buf[k]) then 0 else 1];
      k := k + 1;
    }
    assert buf[..k] == buf;
  }

  lemma {:induction false} NotPrintableCut(buf: seq<Byte>, k: nat, l: nat)
    requires l <= k <= |buf|
    ensures NotPrintable(buf[..k], 0, l) == NotPrintable(buf, 0, l)
  {
    if l > 0 { NotPrintableCut(buf, k, l - 1); }
  }

  lemma NextPrefix(buf: seq<Byte>, k: nat, p: seq<nat>)
    requires k < |buf| && IsPrefix(buf[..k], p)
    ensures IsPrefix(buf[..k + 1], p + [p[k] + if IsPrintable(buf[k]) then 0 else 1])
  {
    var r := p + [p[k] + if IsPrintable(buf[k]) then 0 else 1];
    forall l | 0 <= l <= k + 1 ensures r[l] == NotPrintable(buf[..k + 1], 0, l) {
      NotPrintableCut(buf, k + 1, l);
      if l <= k { NotPrintableCut(buf, k, l); } else { NotPrintableCut(buf, k, k); }
    }
  }

  /** The check of a run's source, in constant time. */
  function Sparse(opts: Options, p: seq<nat>): (nat, nat) -> bool {
    (i: nat, j: nat) => opts.sparseSource ==> i <= j < |p| && (p[j] - p[i]) * 2 >= j - i
  }

  lemma SparseIff(buf: seq<Byte>, opts: Options, p: seq<nat>, i: nat, j: nat)
    requires IsPrefix(buf, p)
    ensures Sparse(opts, p)(i, j) <==> IsSparse(buf, opts, i, j)
  {
    if i <= j <= |buf| { NotPrintableSplit(buf, i, j); }
  }

  // ---- the passes of a group

  ghost function JobOf(g: Group, buf: seq<Byte>, opts: Options): (job: FlossScan.Job)
    ensures |job.rows| == |job.words| == |job.keeps| == |g.methods| && job.n == |buf|
  {
    var n := |g.methods|;
    FlossScan.Job(|buf|,
                  seq(n, q requires 0 <= q < n => Row(g.methods[q], buf)),
                  seq(n, q requires 0 <= q < n => Words(g.methods[q], buf)),
                  seq(n, q requires 0 <= q < n => ScanKeeps(g.methods[q], buf, opts)))
  }

  lemma WordPrints(m: Method, buf: seq<Byte>, t: nat)
    requires WordAt(m, buf, t)
    ensures t + 3 <= |buf| && Row(m, buf)[t] && Row(m, buf)[t + 1] && Row(m, buf)[t + 2]
  {
    LettersPrint(Decode(m, buf[t]));
    LettersPrint(Decode(m, buf[t + 1]));
    LettersPrint(Decode(m, buf[t + 2]));
  }

  lemma PassIsPass(m: Method, buf: seq<Byte>, opts: Options, p: seq<nat>)
    requires IsPrefix(buf, p)
    ensures FlossScan.IsPass(Row(m, buf), Words(m, buf), Sparse(opts, p), ScanKeeps(m, buf, opts))
  {
    var word := Words(m, buf);
    forall t: nat | word(t) ensures t + 3 <= |buf| && Row(m, buf)[t] && Row(m, buf)[t + 1] && Row(m, buf)[t + 2] {
      WordPrints(m, buf, t);
    }
    forall i: nat, j: nat ensures ScanKeeps(m, buf, opts)(i, j) <==> FlossScan.Wordy(word, i, j) && Sparse(opts, p)(i, j) {
      SparseIff(buf, opts, p, i, j);
    }
  }

  lemma JobIsValid(g: Group, buf: seq<Byte>, opts: Options, p: seq<nat>)
    requires IsPrefix(buf, p)
    ensures FlossScan.Valid(JobOf(g, buf, opts), Sparse(opts, p))
  {
    var job := JobOf(g, buf, opts);
    forall q | 0 <= q < |job.rows|
      ensures |job.rows[q]| == job.n && FlossScan.IsPass(job.rows[q], job.words[q], Sparse(opts, p), job.keeps[q])
    {
      PassIsPass(g.methods[q], buf, opts, p);
    }
  }

  function PrintSets(g: Group, buf: seq<Byte>): (r: seq<set<nat>>)
    ensures |r| == |buf|
  {
    seq(|buf|, t requires 0 <= t < |buf| => g.printable(buf[t]))
  }

  lemma SetsPrint(g: Group, buf: seq<Byte>, opts: Options)
    requires FlossGroup.Valid(g)
    ensures FlossScan.Prints(JobOf(g, buf, opts), PrintSets(g, buf))
  {
    var job, s := JobOf(g, buf, opts), PrintSets(g, buf);
    forall t, q: nat | 0 <= t < |s| ensures q in s[t] <==> FlossScan.PrintsAt(job, t, q) {
      PrintsIff(g, buf[t], q);
      if q < |g.methods| {
        assert job.rows[q] == Row(g.methods[q], buf);
      }
    }
  }

  function FoundIn(g: Group, buf: seq<Byte>): (nat, set<nat>) -> set<nat>
    requires |g.methods| > 0
  {
    (t: nat, open: set<nat>) => WordsFound(g, buf, t, open)
  }

  lemma WordsAreFound(g: Group, buf: seq<Byte>, opts: Options)
    requires FlossGroup.Valid(g)
    ensures FlossScan.Finds(JobOf(g, buf, opts), FoundIn(g, buf))
  {
    var job := JobOf(g, buf, opts);
    forall t: nat, open, q: nat ensures q in FoundIn(g, buf)(t, open) <==> q in open && FlossScan.HasWordAt(job, t, q) {
      WordsFoundIff(g, buf, t, open, q);
    }
  }

  /** The runs of a pass the scan keeps, of those starting in `lo..hi`. */
  ghost function Scanned(m: Method, buf: seq<Byte>, opts: Options, lo: nat, hi: nat): seq<(nat, nat)>
    requires lo <= hi <= |buf|
  {
    Runs(Row(m, buf), AtLeastOne(opts.minLength), ScanKeeps(m, buf, opts), lo, hi)
  }

  method ScanPart(g: Group, buf: seq<Byte>, opts: Options, p: seq<nat>, lo: nat, hi: nat) returns (out: seq<seq<(nat, nat)>>)
    requires FlossGroup.Valid(g) && IsPrefix(buf, p) && lo <= hi <= |buf|
    ensures |out| == |g.methods| && forall q | 0 <= q < |out| :: out[q] == Scanned(g.methods[q], buf, opts, lo, hi)
  {
    ghost var job := JobOf(g, buf, opts);
    JobIsValid(g, buf, opts, p);
    SetsPrint(g, buf, opts);
    WordsAreFound(g, buf, opts);
    out := FlossScan.ScanChunk(job, PrintSets(g, buf), |g.methods|, lo, hi, opts.minLength, FoundIn(g, buf), Sparse(opts, p));
    forall q | 0 <= q < |out| ensures out[q] == Scanned(g.methods[q], buf, opts, lo, hi) {
      assert job.rows[q] == Row(g.methods[q], buf) && job.keeps[q] == ScanKeeps(g.methods[q], buf, opts);
    }
  }

  /** The chunks of the buffer one after the other: runs go on past their ends. */
  method ScanGroup(g: Group, buf: seq<Byte>, opts: Options, p: seq<nat>, chunk: nat) returns (out: seq<seq<(nat, nat)>>)
    requires FlossGroup.Valid(g) && IsPrefix(buf, p) && chunk >= 1
    ensures |out| == |g.methods| && forall q | 0 <= q < |out| :: out[q] == Scanned(g.methods[q], buf, opts, 0, |buf|)
  {
    out := seq(|g.methods|, _ => []);
    var lo := 0;
    while lo < |buf|
      invariant 0 <= lo <= |buf| && |out| == |g.methods|
      invariant forall q | 0 <= q < |out| :: out[q] == Scanned(g.methods[q], buf, opts, 0, lo)
    {
      var hi := if lo + chunk < |buf| then lo + chunk else |buf|;
      var part := ScanPart(g, buf, opts, p, lo, hi);
      ghost var before := out;
      out := seq(|out|, q requires 0 <= q < |out| => out[q] + part[q]);
      forall q | 0 <= q < |out| ensures out[q] == Scanned(g.methods[q], buf, opts, 0, hi) {
        assert before[q] == Scanned(g.methods[q], buf, opts, 0, lo);
        RunsSplit(Row(g.methods[q], buf), AtLeastOne(opts.minLength), ScanKeeps(g.methods[q], buf, opts), 0, lo, hi);
      }
      lo := hi;
    }
  }

  // ---- the rest of the filter

  ghost predicate InBuffer(buf: seq<Byte>, runs: seq<(nat, nat)>) {
    forall k | 0 <= k < |runs| :: runs[k].0 <= runs[k].1 <= |buf|
  }

  lemma {:induction false} RunsInBuffer(row: seq<bool>, m: nat, keep: (nat, nat) -> bool, lo: nat, hi: nat)
    requires lo <= hi <= |row|
    ensures forall k | 0 <= k < |Runs(row, m, keep, lo, hi)| :: Runs(row, m, keep, lo, hi)[k].0 <= Runs(row, m, keep, lo, hi)[k].1 <= |row|
    decreases hi
  {
    if lo < hi {
      RunsInBuffer(row, m, keep, lo, hi - 1);
      RunEndFacts(row, hi - 1);
    }
  }

  method SiftRest(m: Method, buf: seq<Byte>, runs: seq<(nat, nat)>) returns (out: seq<(nat, nat)>)
    requires InBuffer(buf, runs)
    ensures out == Sift(runs, Rest(m, buf))
  {
    out := [];
    var k := 0;
    while k < |runs|
      invariant 0 <= k <= |runs| && out == Sift(runs[..k], Rest(m, buf))
    {
      var ok := RestHolds(m, buf, runs[k].0, runs[k].1);
      assert runs[..k + 1][..k] == runs[..k];
      if ok { out := out + [runs[k]]; }
      k := k + 1;
    }
    assert runs[..k] == runs;
  }

  method RestHolds(m: Method, buf: seq<Byte>, i: nat, j: nat) returns (ok: bool)
    requires i <= j <= |buf|
    ensures ok == Rest(m, buf)(i, j)
  {
    ok := RestPasses(buf[i..j], AlnumOf(m));
  }

  /** The runs one pass finds, from those its group's scan keeps. */
  method PassRuns(m: Method, buf: seq<Byte>, opts: Options, kept: seq<(nat, nat)>) returns (out: seq<(nat, nat)>)
    requires kept == Scanned(m, buf, opts, 0, |buf|)
    ensures out == Found(m, buf, opts)
  {
    RunsInBuffer(Row(m, buf), AtLeastOne(opts.minLength), ScanKeeps(m, buf, opts), 0, |buf|);
    out := SiftRest(m, buf, kept);
    SiftedIsFound(m, buf, opts);
  }

  // ---- the cap

  lemma {:induction false} HitsPrefix(m: Method, buf: seq<Byte>, base: nat, runs: seq<(nat, nat)>, k: nat)
    requires k <= |runs|
    ensures |ToHits(m, buf, base, runs)| == |runs|
    ensures ToHits(m, buf, base, runs[..k]) == ToHits(m, buf, base, runs)[..k]
    decreases |runs|
  {
    if runs != [] {
      var front := runs[..|runs| - 1];
      HitsPrefix(m, buf, base, front, if k < |runs| then k else |front|);
      if k < |runs| {
        assert runs[..k] == front[..k];
      } else {
        assert runs[..k] == runs;
      }
    }
  }

  /** The hits of a pass as far as there is room. */
  method TakeRoom(m: Method, buf: seq<Byte>, base: nat, cap: nat, runs: seq<(nat, nat)>, hits: seq<Hit>) returns (hits': seq<Hit>, capped: bool)
    requires |hits| <= cap
    ensures var all := hits + ToHits(m, buf, base, runs);
      (hits', capped) == if |all| > cap then (all[..cap], true) else (all, false)
  {
    var room := cap - |hits|;
    var k := if |runs| < room then |runs| else room;
    HitsPrefix(m, buf, base, runs, k);
    hits' := hits + ToHits(m, buf, base, runs[..k]);
    capped := |runs| > room;
    if capped {
      ghost var all := hits + ToHits(m, buf, base, runs);
      assert all[..cap] == hits + ToHits(m, buf, base, runs)[..room];
    } else {
      assert runs[..k] == runs;
    }
  }

  // ---- the groups

  /** The methods of the groups, in order. */
  ghost function MethodsOf(groups: seq<Group>): seq<Method> {
    if groups == [] then [] else MethodsOf(groups[..|groups| - 1]) + groups[|groups| - 1].methods
  }

  ghost predicate AllValid(groups: seq<Group>) {
    forall i | 0 <= i < |groups| :: FlossGroup.Valid(groups[i])
  }

  lemma {:induction false} MethodsOfConcat(a: seq<Group>, b: seq<Group>)
    ensures MethodsOf(a + b) == MethodsOf(a) + MethodsOf(b)
  {
    if b == [] {
      assert a + b == a;
    } else {
      assert (a + b)[..|a + b| - 1] == a + b[..|b| - 1];
      MethodsOfConcat(a, b[..|b| - 1]);
    }
  }

  /** The methods of one kind, 64 to a group. */
  method GroupsOf(methods: seq<Method>) returns (groups: seq<Group>)
    requires forall i, j | 0 <= i < |methods| && 0 <= j < |methods| :: SameKind(methods[i], methods[j])
    ensures AllValid(groups) && MethodsOf(groups) == methods
  {
    groups := [];
    var k := 0;
    while k < |methods|
      invariant 0 <= k <= |methods| && AllValid(groups) && MethodsOf(groups) == methods[..k]
    {
      var end := if k + 64 < |methods| then k + 64 else |methods|;
      NewGroupIsValid(methods[k..end]);
      var g := NewGroup(methods[k..end]);
      assert (groups + [g])[..|groups|] == groups && methods[..end] == methods[..k] + methods[k..end];
      groups := groups + [g];
      k := end;
    }
    assert methods[..k] == methods;
  }

  /** The bytes `1..=last`. */
  function Keys(last: Byte): seq<Byte> {
    if last == 0 then [] else Keys(last - 1) + [last]
  }

  lemma {:induction false} KeysAre(last: Byte, k: Byte)
    ensures k in Keys(last) <==> 1 <= k <= last
  {
    if last != 0 { KeysAre(last - 1, k); }
  }

  function Xors(keys: seq<Byte>): seq<Method> { seq(|keys|, i requires 0 <= i < |keys| => Xor(keys[i])) }
  function Adds(keys: seq<Byte>): seq<Method> { seq(|keys|, i requires 0 <= i < |keys| => Add(keys[i])) }
  function Rols(): seq<Method> { seq(7, i requires 0 <= i < 7 => Rol(i + 1)) }

  /** Every way tried, in order. */
  function AllMethods(opts: Options): seq<Method> {
    (if opts.tryXor then Xors(Keys(255)) else []) + (if opts.tryAdd then Adds(Keys(255)) else []) + (if opts.tryRol then Rols() else [])
  }

  lemma XorsAre(keys: seq<Byte>, m: Method)
    ensures m in Xors(keys) <==> m.Xor? && m.key in keys
  {
    if m.Xor? && m.key in keys {
      var i :| 0 <= i < |keys| && keys[i] == m.key;
      assert Xors(keys)[i] == m;
    }
  }

  lemma AddsAre(keys: seq<Byte>, m: Method)
    ensures m in Adds(keys) <==> m.Add? && m.key in keys
  {
    if m.Add? && m.key in keys {
      var i :| 0 <= i < |keys| && keys[i] == m.key;
      assert Adds(keys)[i] == m;
    }
  }

  lemma RolsAre(m: Method)
    ensures m in Rols() <==> m.Rol? && 1 <= m.places <= 7
  {
    if m.Rol? && 1 <= m.places <= 7 { assert Rols()[m.places - 1] == m; }
  }

  /** Which ways are tried. */
  lemma WaysTried(opts: Options, m: Method)
    ensures m in AllMethods(opts) <==>
      match m
      case Xor(k) => opts.tryXor && k != 0
      case Add(k) => opts.tryAdd && k != 0
      case Rol(r) => opts.tryRol && 1 <= r <= 7
  {
    XorsAre(Keys(255), m);
    AddsAre(Keys(255), m);
    RolsAre(m);
    if !m.Rol? { KeysAre(255, m.key); }
  }

  method AllGroups(opts: Options) returns (groups: seq<Group>)
    ensures AllValid(groups) && MethodsOf(groups) == AllMethods(opts)
  {
    var xors, adds, rols: seq<Group> := [], [], [];
    if opts.tryXor { xors := GroupsOf(Xors(Keys(255))); }
    if opts.tryAdd { adds := GroupsOf(Adds(Keys(255))); }
    if opts.tryRol { rols := GroupsOf(Rols()); }
    groups := xors + adds + rols;
    MethodsOfConcat(xors, adds);
    MethodsOfConcat(xors + adds, rols);
  }

  // ---- the whole

  /** The hits before list `k`, none cut. */
  ghost predicate Gathered(lists: seq<seq<Hit>>, cap: nat, k: nat, hits: seq<Hit>) {
    k <= |lists| && Collect(lists, cap, k) == (hits, false) && |hits| <= cap
  }

  lemma GatherOne(lists: seq<seq<Hit>>, cap: nat, k: nat, hits: seq<Hit>, hits': seq<Hit>, capped: bool)
    requires k < |lists| && Gathered(lists, cap, k, hits)
    requires var all := hits + lists[k]; (hits', capped) == if |all| > cap then (all[..cap], true) else (all, false)
    ensures capped ==> Collect(lists, cap, |lists|) == (hits', true)
    ensures !capped ==> Gathered(lists, cap, k + 1, hits')
  {
    if capped { CappedStays(lists, cap, k + 1, |lists|); }
  }

  /** One pass, from the runs its group's scan keeps. */
  method SearchPass(m: Method, buf: seq<Byte>, base: nat, opts: Options, kept: seq<(nat, nat)>,
      ghost ms: seq<Method>, ghost lists: seq<seq<Hit>>, ghost k: nat, hits: seq<Hit>) returns (hits': seq<Hit>, capped: bool)
    requires kept == Scanned(m, buf, opts, 0, |buf|) && k < |ms| && ms[k] == m
    requires AreLists(lists, buf, base, opts, ms) && Gathered(lists, opts.maxPerSection, k, hits)
    ensures capped ==> Collect(lists, opts.maxPerSection, |lists|) == (hits', true)
    ensures !capped ==> Gathered(lists, opts.maxPerSection, k + 1, hits')
  {
    var runs := PassRuns(m, buf, opts, kept);
    hits', capped := TakeRoom(m, buf, base, opts.maxPerSection, runs, hits);
    assert IsList(lists, buf, base, opts, ms, k);
    GatherOne(lists, opts.maxPerSection, k, hits, hits', capped);
  }

  /** The passes of a group, in order. */
  method SearchGroup(g: Group, buf: seq<Byte>, base: nat, opts: Options, p: seq<nat>, chunk: nat,
      ghost ms: seq<Method>, ghost lists: seq<seq<Hit>>, ghost k: nat, hits: seq<Hit>) returns (hits': seq<Hit>, capped: bool)
    requires FlossGroup.Valid(g) && IsPrefix(buf, p) && chunk >= 1
    requires AreLists(lists, buf, base, opts, ms) && k + |g.methods| <= |ms| && ms[k..k + |g.methods|] == g.methods
    requires Gathered(lists, opts.maxPerSection, k, hits)
    ensures capped ==> Collect(lists, opts.maxPerSection, |lists|) == (hits', true)
    ensures !capped ==> Gathered(lists, opts.maxPerSection, k + |g.methods|, hits')
  {
    var kept := ScanGroup(g, buf, opts, p, chunk);
    hits', capped := hits, false;
    var q := 0;
    while q < |g.methods|
      invariant 0 <= q <= |g.methods| && !capped && Gathered(lists, opts.maxPerSection, k + q, hits')
    {
      assert ms[k + q] == ms[k..k + |g.methods|][q];
      hits', capped := SearchPass(g.methods[q], buf, base, opts, kept[q], ms, lists, k + q, hits');
      if capped { return; }
      q := q + 1;
    }
  }

  /** Where the methods of a group are. */
  lemma GroupMethods(groups: seq<Group>, i: nat)
    requires i < |groups|
    ensures var ms, k, n := MethodsOf(groups), |MethodsOf(groups[..i])|, |groups[i].methods|;
      |MethodsOf(groups[..i + 1])| == k + n <= |ms| && ms[k..k + n] == groups[i].methods
  {
    var first := MethodsOf(groups[..i + 1]);
    assert groups == groups[..i + 1] + groups[i + 1..];
    MethodsOfConcat(groups[..i + 1], groups[i + 1..]);
    assert groups[..i + 1][..i] == groups[..i];
    assert first == MethodsOf(groups[..i]) + groups[i].methods;
  }

  /** The search: what each pass alone finds, in order, cut at the cap at the same place,
      whatever the size of the chunks. */
  method DecodeInChunks(buf: seq<Byte>, base: nat, opts: Options, chunk: nat) returns (hits: seq<Hit>, capped: bool)
    requires chunk >= 1
    ensures (hits, capped) == Collect(HitLists(buf, base, opts, AllMethods(opts)), opts.maxPerSection, |AllMethods(opts)|)
    ensures AreHits(buf, base, opts, AllMethods(opts), hits, capped) && InOrder(AllMethods(opts), hits)
  {
    var p := PrefixCounts(buf);
    var groups := AllGroups(opts);
    HitListsAre(buf, base, opts, AllMethods(opts));
    hits, capped := SearchGroups(groups, buf, base, opts, p, chunk, HitLists(buf, base, opts, AllMethods(opts)));
    SearchMeans(buf, base, opts, AllMethods(opts), hits, capped);
  }

  /** The groups, in order. */
  method SearchGroups(groups: seq<Group>, buf: seq<Byte>, base: nat, opts: Options, p: seq<nat>, chunk: nat, ghost lists: seq<seq<Hit>>)
    returns (hits: seq<Hit>, capped: bool)
    requires AllValid(groups) && IsPrefix(buf, p) && chunk >= 1 && AreLists(lists, buf, base, opts, MethodsOf(groups))
    ensures Collect(lists, opts.maxPerSection, |lists|) == (hits, capped)
  {
    ghost var ms := MethodsOf(groups);
    hits, capped := [], false;
    var i := 0;
    while i < |groups|
      invariant 0 <= i <= |groups| && !capped && Gathered(lists, opts.maxPerSection, |MethodsOf(groups[..i])|, hits)
    {
      GroupMethods(groups, i);
      hits, capped := SearchGroup(groups[i], buf, base, opts, p, chunk, ms, lists, |MethodsOf(groups[..i])|, hits);
      if capped { return; }
      i := i + 1;
    }
    assert groups[..i] == groups;
  }
}
