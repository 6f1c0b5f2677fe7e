/**
 Which decoded runs look like strings: the counts the filter is about, and the filter as it is
 computed, on the source bytes and only until the answer is known.
 */
module FlossFilter {
  import opened Numbers

  /** How many of `0..n` pass the test. */
  function Count(n: nat, test: nat -> bool): nat {
    if n == 0 then 0 else Count(n - 1, test) + if test(n - 1) then 1 else 0
  }

  lemma {:induction false} CountBounds(k: nat, n: nat, test: nat -> bool)
    requires k <= n
    ensures Count(k, test) <= Count(n, test) <= Count(k, test) + (n - k)
    decreases n
  {
    if k < n { CountBounds(k, n - 1, test); }
  }

  lemma {:induction false} CountSame(n: nat, f: nat -> bool, g: nat -> bool)
    requires forall i: nat | i < n :: f(i) == g(i)
    ensures Count(n, f) == Count(n, g)
  {
    if n > 0 { CountSame(n - 1, f, g); }
  }

  // ---- what is asked

  function TestAt<T>(s: seq<T>, test: T -> bool): nat -> bool {
    (i: nat) => i < |s| && test(s[i])
  }

  function RepeatsAt<T(==)>(s: seq<T>, period: nat): nat -> bool {
    (i: nat) => i + period < |s| && s[i] == s[i + period]
  }

  /** At least 60% of the bytes are letters or digits. */
  predicate AlnumOk<T>(s: seq<T>, alnum: T -> bool) {
    Count(|s|, TestAt(s, alnum)) * 5 >= |s| * 3
  }

  function Elements<T(==)>(s: seq<T>): set<T> {
    set x | x in s
  }

  function MinDistinct(n: nat): nat {
    if n >= 16 then 6 else 4
  }

  /** Enough distinct bytes. */
  predicate VarietyOk<T(==)>(s: seq<T>) {
    |Elements(s)| >= MinDistinct(|s|)
  }

  function Matches<T(==)>(s: seq<T>, period: nat): nat {
    Count(|s|, RepeatsAt(s, period))
  }

  /** Under 60% of the bytes are repeated `period` bytes on. */
  predicate PeriodOk<T(==)>(s: seq<T>, period: nat)
    requires 0 < period < |s|
  {
    Matches(s, period) * 100 / (|s| - period) < 60
  }

  /** No short period. */
  predicate PeriodsOk<T(==)>(s: seq<T>) {
    forall period | 2 <= period <= 8 && period * 2 <= |s| :: PeriodOk(s, period)
  }

  // ---- as computed

  method AlnumEnough<T>(s: seq<T>, alnum: T -> bool) returns (ok: bool)
    ensures ok == AlnumOk(s, alnum)
  {
    ghost var test := TestAt(s, alnum);
    var need, count, k := |s| * 3, 0, 0;
    while k < |s|
      invariant 0 <= k <= |s| && count == Count(k, test)
    {
      CountBounds(k, |s|, test);
      if count * 5 >= need { return true; }
      if (count + (|s| - k)) * 5 < need { return false; }
      if alnum(s[k]) { count := count + 1; }
      k := k + 1;
    }
    ok := count * 5 >= need;
  }

  lemma OneMoreElement<T>(s: seq<T>, k: nat)
    requires k < |s|
    ensures Elements(s[..k + 1]) == Elements(s[..k]) + {s[k]}
  {
    assert s[..k + 1] == s[..k] + [s[k]];
  }

  lemma MoreElements<T>(s: seq<T>, k: nat)
    requires k <= |s|
    ensures |Elements(s[..k])| <= |Elements(s)|
  {
    SubsetSize(Elements(s[..k]), Elements(s));
  }

  method VarietyEnough<T(==)>(s: seq<T>) returns (ok: bool)
    ensures ok == VarietyOk(s)
  {
    var least := MinDistinct(|s|);
    var seen: set<T>, distinct, k := {}, 0, 0;
    while k < |s| && distinct < least
      invariant 0 <= k <= |s| && seen == Elements(s[..k]) && distinct == |seen|
    {
      OneMoreElement(s, k);
      AddOne(seen, s[k]);
      if s[k] !in seen { distinct := distinct + 1; }
      seen := seen + {s[k]};
      k := k + 1;
    }
    MoreElements(s, k);
    assert k == |s| ==> s[..k] == s;
    ok := distinct >= least;
  }

  /** Of `k..end`, how many are repeated `period` bytes on. */
  method MatchesIn<T(==)>(s: seq<T>, period: nat, k: nat, end: nat, ghost test: nat -> bool) returns (r: nat)
    requires k <= end && end + period <= |s|
    requires forall i: nat | i < end :: test(i) <==> s[i] == s[i + period]
    ensures Count(end, test) == Count(k, test) + r
  {
    r := 0;
    var i := k;
    while i < end
      invariant k <= i <= end && Count(i, test) == Count(k, test) + r
    {
      if s[i] == s[i + period] { r := r + 1; }
      i := i + 1;
    }
  }

  lemma {:induction false} CountTail(total: nat, n: nat, test: nat -> bool)
    requires total <= n && forall i: nat | total <= i < n :: !test(i)
    ensures Count(n, test) == Count(total, test)
    decreases n
  {
    if total < n { CountTail(total, n - 1, test); }
  }

  lemma Percent(matches: nat, total: nat)
    requires total > 0
    ensures matches * 100 / total < 60 <==> matches * 100 < total * 60
  {
    var q, r := matches * 100 / total, matches * 100 % total;
    assert matches * 100 == total * q + r;
    assert q >= 60 ==> total * q >= total * 60;
    assert q <= 59 ==> total * q <= total * 59;
  }

  lemma PeriodIff<T>(s: seq<T>, period: nat)
    requires 2 <= period && period * 2 <= |s|
    ensures var total := |s| - period;
      PeriodOk(s, period) <==> Count(total, RepeatsAt(s, period)) * 100 < total * 60
  {
    var total := |s| - period;
    CountTail(total, |s|, RepeatsAt(s, period));
    Percent(Matches(s, period), total);
  }

  /** Counted 64 at a time, until the answer is known. */
  method PeriodFine<T(==)>(s: seq<T>, period: nat) returns (ok: bool)
    requires 2 <= period && period * 2 <= |s|
    ensures ok == PeriodOk(s, period)
  {
    ghost var test := RepeatsAt(s, period);
    var total := |s| - period;
    PeriodIff(s, period);
    var need, matches, k := total * 60, 0, 0;
    while k < total
      invariant 0 <= k <= total && matches == Count(k, test)
    {
      CountBounds(k, total, test);
      if matches * 100 >= need { return false; }
      if (matches + (total - k)) * 100 < need { return true; }
      var end := if k + 64 < total then k + 64 else total;
      var more := MatchesIn(s, period, k, end, test);
      matches, k := matches + more, end;
    }
    ok := matches * 100 < need;
  }

  method PeriodsFine<T(==)>(s: seq<T>) returns (ok: bool)
    ensures ok == PeriodsOk(s)
  {
    var period := 2;
    while period <= 8 && period * 2 <= |s|
      invariant 2 <= period <= 9 && forall p | 2 <= p < period && p * 2 <= |s| :: PeriodOk(s, p)
    {
      var fine := PeriodFine(s, period);
      if !fine { return false; }
      period := period + 1;
    }
    ok := true;
  }

  /** The filter but for its word. */
  method RestPasses<T(==)>(s: seq<T>, alnum: T -> bool) returns (ok: bool)
    ensures ok == (AlnumOk(s, alnum) && VarietyOk(s) && PeriodsOk(s))
  {
    ok := AlnumEnough(s, alnum);
    if ok { ok := VarietyEnough(s); }
    if ok { ok := PeriodsFine(s); }
  }

  // ---- decoding does not change the counts

  function Decoded<S, T>(s: seq<S>, f: S -> T): (r: seq<T>)
    ensures |r| == |s|
  {
    seq(|s|, i requires 0 <= i < |s| => f(s[i]))
  }

  ghost predicate Injective<S(!new), T>(f: S -> T) {
    forall a, b :: f(a) == f(b) ==> a == b
  }

  lemma SameAlnum<S, T>(s: seq<S>, f: S -> T, alnum: T -> bool, of: S -> bool)
    requires forall i | 0 <= i < |s| :: of(s[i]) == alnum(f(s[i]))
    ensures AlnumOk(Decoded(s, f), alnum) == AlnumOk(s, of)
  {
    var d := Decoded(s, f);
    CountSame(|s|, TestAt(d, alnum), TestAt(s, of));
  }

  lemma DecodedHas<S(!new), T>(s: seq<S>, f: S -> T, x: S)
    requires Injective(f)
    ensures f(x) in Elements(Decoded(s, f)) <==> x in Elements(s)
  {
    var d := Decoded(s, f);
    if f(x) in Elements(d) {
      var i :| 0 <= i < |d| && d[i] == f(x);
      assert s[i] == x;
    }
    if x in Elements(s) {
      var i :| 0 <= i < |s| && s[i] == x;
      assert d[i] == f(x);
    }
  }

  lemma AddOne<T>(a: set<T>, x: T)
    ensures |a + {x}| == |a| + if x in a then 0 else 1
  {
    if x in a { assert a + {x} == a; }
  }

  lemma {:induction false} SameVariety<S(!new), T>(s: seq<S>, f: S -> T)
    requires Injective(f)
    ensures |Elements(Decoded(s, f))| == |Elements(s)|
  {
    if s != [] {
      var k, d := |s| - 1, Decoded(s, f);
      SameVariety(s[..k], f);
      DecodedHas(s[..k], f, s[k]);
      assert d[..k] == Decoded(s[..k], f) && d[..k + 1] == d && s[..k + 1] == s;
      OneMoreElement(s, k);
      OneMoreElement(d, k);
      AddOne(Elements(s[..k]), s[k]);
      AddOne(Elements(d[..k]), d[k]);
    }
  }

  lemma SamePeriods<S(!new), T>(s: seq<S>, f: S -> T)
    requires Injective(f)
    ensures PeriodsOk(Decoded(s, f)) == PeriodsOk(s)
  {
    var d := Decoded(s, f);
    forall p | 2 <= p <= 8 && p * 2 <= |s| ensures PeriodOk(d, p) == PeriodOk(s, p) {
      CountSame(|s|, RepeatsAt(d, p), RepeatsAt(s, p));
    }
  }
}
