/**
 The sweep for functions nothing calls: each aligned address that starts like a function is
 decoded until its flow ends, and taken when none of it is in a body known or found before.
 The decoding is done ahead; the bodies found meanwhile are looked up after.
 */
module LinearSweep {
  import opened Pcode
  import opened Covered

  /** The length of the instruction at an address, and whether it ends the flow (`None`: it does
      not lift). */
  type Lifter = nat -> Option<(nat, bool)>

  /** The instructions of a candidate lifted at most. */
  const BUDGET: nat := 256

  // ---- a candidate tried on the spot

  /** At least three instructions, and an end. */
  function Answer(count: nat, end: Option<nat>): Option<nat> {
    if count < 3 then None else end
  }

  ghost predicate InBody(known: seq<Range>, found: seq<Range>, a: nat) {
    Covers(known, a) || Covers(found, a)
  }

  /** The instructions from `addr` on, `count` of them before, ended at `end`: where the function
      ends, if one of it up to its end is in no body. */
  ghost function ValidateFrom(lift: Lifter, known: seq<Range>, found: seq<Range>, budget: nat, addr: nat, count: nat, end: Option<nat>): Option<nat>
    decreases budget - count
  {
    if count >= budget || lift(addr).None? then Answer(count, end)
    else if end.None? && InBody(known, found, addr) then None
    else
      var (length, ends) := lift(addr).value;
      var end' := if end.None? && ends then Some(addr + length) else end;
      if end'.Some? && count + 1 >= 3 then Answer(count + 1, end')
      else ValidateFrom(lift, known, found, budget, addr + length, count + 1, end')
  }

  // ---- a candidate walked ahead

  /** A candidate: the addresses to look up among the bodies, and its end when none is there. */
  datatype Candidate = Candidate(entry: nat, checked: seq<nat>, end: Option<nat>, known: bool)

  /** The walk from `addr` on, `checked` looked at before. */
  function WalkFrom(lift: Lifter, budget: nat, addr: nat, count: nat, end: Option<nat>, checked: seq<nat>): (seq<nat>, Option<nat>)
    decreases budget - count
  {
    if count >= budget || lift(addr).None? then (checked, Answer(count, end))
    else
      var (length, ends) := lift(addr).value;
      var checked' := if end.None? then checked + [addr] else checked;
      var end' := if end.None? && ends then Some(addr + length) else end;
      if end'.Some? && count + 1 >= 3 then (checked', Answer(count + 1, end'))
      else WalkFrom(lift, budget, addr + length, count + 1, end', checked')
  }

  ghost predicate AnyInBody(known: seq<Range>, found: seq<Range>, checked: seq<nat>) {
    exists i :: 0 <= i < |checked| && InBody(known, found, checked[i])
  }

  /** The walk looks at what it looked at before, first. */
  lemma {:induction false} WalkExtends(lift: Lifter, budget: nat, addr: nat, count: nat, end: Option<nat>, checked: seq<nat>)
    ensures checked <= WalkFrom(lift, budget, addr, count, end, checked).0
    decreases budget - count
  {
    if !(count >= budget || lift(addr).None?) {
      var (length, ends) := lift(addr).value;
      var checked' := if end.None? then checked + [addr] else checked;
      var end' := if end.None? && ends then Some(addr + length) else end;
      if !(end'.Some? && count + 1 >= 3) { WalkExtends(lift, budget, addr + length, count + 1, end', checked'); }
    }
  }

  /** Walking ahead and looking up after gives what trying on the spot does, whatever the bodies. */
  lemma {:induction false} AheadIsOnTheSpot(lift: Lifter, known: seq<Range>, found: seq<Range>, budget: nat, addr: nat, count: nat, end: Option<nat>, checked: seq<nat>)
    requires !AnyInBody(known, found, checked)
    ensures var (looked, e) := WalkFrom(lift, budget, addr, count, end, checked);
      ValidateFrom(lift, known, found, budget, addr, count, end) == if AnyInBody(known, found, looked) then None else e
    decreases budget - count
  {
    if !(count >= budget || lift(addr).None?) {
      var (length, ends) := lift(addr).value;
      var checked' := if end.None? then checked + [addr] else checked;
      var end' := if end.None? && ends then Some(addr + length) else end;
      OneMoreLooked(known, found, checked, addr);
      if end.None? && InBody(known, found, addr) {
        WalkExtends(lift, budget, addr + length, count + 1, end', checked');
        LookedExtends(known, found, checked', WalkFrom(lift, budget, addr, count, end, checked).0);
      } else if !(end'.Some? && count + 1 >= 3) {
        AheadIsOnTheSpot(lift, known, found, budget, addr + length, count + 1, end', checked');
      }
    }
  }

  lemma OneMoreLooked(known: seq<Range>, found: seq<Range>, checked: seq<nat>, addr: nat)
    ensures AnyInBody(known, found, checked + [addr]) <==> AnyInBody(known, found, checked) || InBody(known, found, addr)
  {
    var more := checked + [addr];
    if AnyInBody(known, found, checked) {
      var i :| 0 <= i < |checked| && InBody(known, found, checked[i]);
      assert InBody(known, found, more[i]);
    }
    if InBody(known, found, addr) { assert InBody(known, found, more[|checked|]); }
    if AnyInBody(known, found, more) {
      var i :| 0 <= i < |more| && InBody(known, found, more[i]);
      assert i < |checked| ==> InBody(known, found, checked[i]);
    }
  }

  lemma LookedExtends(known: seq<Range>, found: seq<Range>, checked: seq<nat>, more: seq<nat>)
    requires AnyInBody(known, found, checked) && checked <= more
    ensures AnyInBody(known, found, more)
  {
    var i :| 0 <= i < |checked| && InBody(known, found, checked[i]);
    assert InBody(known, found, more[i]);
  }

  // ---- what a function is

  /** The instruction at `a` lifts, ends the flow, is followed by the one at `After(a)`. */
  predicate Lifts(lift: Lifter, a: nat) { lift(a).Some? }
  predicate Ends(lift: Lifter, a: nat) { lift(a).Some? && lift(a).value.1 }
  function After(lift: Lifter, a: nat): nat { if lift(a).Some? then a + lift(a).value.0 else a }

  /** The addresses of instructions that lift, each right after the one before, from `entry` on. */
  ghost predicate IsLine(lift: Lifter, entry: nat, line: seq<nat>) {
    && (line != [] ==> line[0] == entry)
    && (forall k | 0 <= k < |line| :: Lifts(lift, line[k]))
    && forall k | 0 < k < |line| :: line[k] == After(lift, line[k - 1])
  }

  /** A line whose last instruction, and no other, ends the flow, and where that one ends. */
  ghost predicate IsBody(lift: Lifter, entry: nat, body: seq<nat>, end: nat) {
    && body != [] && IsLine(lift, entry, body)
    && (forall k | 0 <= k < |body| - 1 :: !Ends(lift, body[k]))
    && Ends(lift, body[|body| - 1]) && end == After(lift, body[|body| - 1])
  }

  /** A function from `entry` to `end`: its body within the budget and no instruction of it in a
      body known or found; three instructions lift from its entry on, within the budget too. */
  ghost predicate IsFunction(lift: Lifter, budget: nat, known: seq<Range>, found: seq<Range>, entry: nat, end: nat) {
    && (exists body :: |body| <= budget && IsBody(lift, entry, body, end) && !AnyInBody(known, found, body))
    && budget >= 3 && exists line :: |line| == 3 && IsLine(lift, entry, line)
  }

  /** The `k`th address of the line. */
  function Nth(lift: Lifter, entry: nat, k: nat): nat {
    if k == 0 then entry else After(lift, Nth(lift, entry, k - 1))
  }

  ghost function Line(lift: Lifter, entry: nat, n: nat): (line: seq<nat>)
    ensures |line| == n && forall k | 0 <= k < n :: line[k] == Nth(lift, entry, k)
  {
    seq(n, k requires 0 <= k < n => Nth(lift, entry, k))
  }

  lemma {:induction false} LineIs(lift: Lifter, entry: nat, line: seq<nat>, k: nat)
    requires IsLine(lift, entry, line) && k < |line|
    ensures line[k] == Nth(lift, entry, k)
  {
    if k > 0 { LineIs(lift, entry, line, k - 1); }
  }

  /** The first `n` instructions lift. */
  ghost predicate AllLift(lift: Lifter, entry: nat, n: nat) {
    forall k | 0 <= k < n :: Lifts(lift, Nth(lift, entry, k))
  }

  lemma LineOfAll(lift: Lifter, entry: nat, n: nat)
    requires AllLift(lift, entry, n)
    ensures IsLine(lift, entry, Line(lift, entry, n))
  {
    var line := Line(lift, entry, n);
    forall k | 0 < k < n ensures line[k] == After(lift, line[k - 1]) {
      assert line[k] == Nth(lift, entry, k) && line[k - 1] == Nth(lift, entry, k - 1);
    }
  }

  lemma LineLifts(lift: Lifter, entry: nat, n: nat)
    ensures AllLift(lift, entry, n) <==> exists line :: |line| == n && IsLine(lift, entry, line)
  {
    if AllLift(lift, entry, n) {
      LineOfAll(lift, entry, n);
    }
    if line :| |line| == n && IsLine(lift, entry, line) {
      forall k | 0 <= k < n ensures Lifts(lift, Nth(lift, entry, k)) { LineIs(lift, entry, line, k); }
    }
  }

  /** The last of the first `n` instructions ends the flow. */
  ghost predicate EndsBy(lift: Lifter, entry: nat, n: nat) {
    n > 0 && Ends(lift, Nth(lift, entry, n - 1))
  }

  /** The first `n` instructions, none of them in a body, are not ended before the last. */
  ghost predicate IsClear(lift: Lifter, known: seq<Range>, found: seq<Range>, entry: nat, n: nat) {
    && AllLift(lift, entry, n)
    && (forall k | 0 <= k < n :: !InBody(known, found, Nth(lift, entry, k)))
    && forall k | 0 <= k < n :: !EndsBy(lift, entry, k)
  }

  /** The first `n` instructions are a body in no other. */
  ghost predicate IsWhole(lift: Lifter, known: seq<Range>, found: seq<Range>, entry: nat, n: nat) {
    IsClear(lift, known, found, entry, n) && EndsBy(lift, entry, n)
  }

  lemma WholeIsBody(lift: Lifter, known: seq<Range>, found: seq<Range>, entry: nat, n: nat)
    requires IsWhole(lift, known, found, entry, n)
    ensures IsBody(lift, entry, Line(lift, entry, n), Nth(lift, entry, n)) && !AnyInBody(known, found, Line(lift, entry, n))
  {
    var line := Line(lift, entry, n);
    LineOfAll(lift, entry, n);
    forall k | 0 <= k < n - 1 ensures !Ends(lift, line[k]) {
      assert !EndsBy(lift, entry, k + 1);
    }
  }

  lemma BodyIsWhole(lift: Lifter, known: seq<Range>, found: seq<Range>, entry: nat, body: seq<nat>, end: nat)
    requires IsBody(lift, entry, body, end) && !AnyInBody(known, found, body)
    ensures IsWhole(lift, known, found, entry, |body|) && end == Nth(lift, entry, |body|)
  {
    forall k | 0 <= k < |body| ensures body[k] == Nth(lift, entry, k) && !InBody(known, found, body[k]) {
      LineIs(lift, entry, body, k);
    }
  }

  /** A function by the number of its instructions. */
  lemma FunctionIs(lift: Lifter, budget: nat, known: seq<Range>, found: seq<Range>, entry: nat, end: nat)
    ensures IsFunction(lift, budget, known, found, entry, end) <==>
      budget >= 3 && AllLift(lift, entry, 3) && exists n: nat :: n <= budget && IsWhole(lift, known, found, entry, n) && end == Nth(lift, entry, n)
  {
    LineLifts(lift, entry, 3);
    if body :| |body| <= budget && IsBody(lift, entry, body, end) && !AnyInBody(known, found, body) {
      BodyIsWhole(lift, known, found, entry, body, end);
    }
    if n: nat :| n <= budget && IsWhole(lift, known, found, entry, n) && end == Nth(lift, entry, n) {
      WholeIsBody(lift, known, found, entry, n);
    }
  }

  /** What was seen of the first `count` instructions: no end, or the end of the `m`th. */
  ghost predicate Seen(lift: Lifter, known: seq<Range>, found: seq<Range>, entry: nat, count: nat, end: Option<nat>, m: nat) {
    && AllLift(lift, entry, count)
    && if end.None? then IsClear(lift, known, found, entry, count) && !EndsBy(lift, entry, count)
       else count < 3 && m <= count && IsWhole(lift, known, found, entry, m) && end.value == Nth(lift, entry, m)
  }

  /** A line has one end. */
  lemma OneEnd(lift: Lifter, known: seq<Range>, found: seq<Range>, entry: nat, m: nat, n: nat)
    requires IsWhole(lift, known, found, entry, m) && IsWhole(lift, known, found, entry, n)
    ensures m == n
  {
  }

  /** No body reaches past where the line stops or is in a body. */
  lemma NoWhole(lift: Lifter, known: seq<Range>, found: seq<Range>, entry: nat, count: nat, n: nat)
    requires IsClear(lift, known, found, entry, count) && !EndsBy(lift, entry, count)
    requires n <= count || !Lifts(lift, Nth(lift, entry, count)) || InBody(known, found, Nth(lift, entry, count))
    ensures !IsWhole(lift, known, found, entry, n)
  {
  }

  lemma NoFunction(lift: Lifter, budget: nat, known: seq<Range>, found: seq<Range>, entry: nat, count: nat, x: nat)
    requires IsClear(lift, known, found, entry, count) && !EndsBy(lift, entry, count)
    requires count >= budget || !Lifts(lift, Nth(lift, entry, count)) || InBody(known, found, Nth(lift, entry, count))
    ensures !IsFunction(lift, budget, known, found, entry, x)
  {
    FunctionIs(lift, budget, known, found, entry, x);
    forall n: nat | n <= budget ensures !IsWhole(lift, known, found, entry, n) {
      NoWhole(lift, known, found, entry, count, n);
    }
  }

  /** Too few lift. */
  lemma TooFew(lift: Lifter, budget: nat, known: seq<Range>, found: seq<Range>, entry: nat, count: nat, x: nat)
    requires count < 3 && (count >= budget || !Lifts(lift, Nth(lift, entry, count)))
    ensures !IsFunction(lift, budget, known, found, entry, x)
  {
    FunctionIs(lift, budget, known, found, entry, x);
    assert AllLift(lift, entry, 3) ==> Lifts(lift, Nth(lift, entry, count));
  }

  /** The end seen is the end of the function. */
  lemma ThisFunction(lift: Lifter, budget: nat, known: seq<Range>, found: seq<Range>, entry: nat, m: nat, x: nat)
    requires m <= budget && 3 <= budget && AllLift(lift, entry, 3) && IsWhole(lift, known, found, entry, m)
    ensures IsFunction(lift, budget, known, found, entry, x) <==> x == Nth(lift, entry, m)
  {
    FunctionIs(lift, budget, known, found, entry, x);
    forall n: nat | IsWhole(lift, known, found, entry, n) ensures n == m { OneEnd(lift, known, found, entry, m, n); }
  }

  /** One instruction more is seen. */
  lemma SeenMore(lift: Lifter, known: seq<Range>, found: seq<Range>, entry: nat, count: nat, end: Option<nat>, m: nat)
    requires Seen(lift, known, found, entry, count, end, m) && Lifts(lift, Nth(lift, entry, count))
    requires end.None? ==> !InBody(known, found, Nth(lift, entry, count))
    ensures AllLift(lift, entry, count + 1)
    ensures end.None? ==> IsClear(lift, known, found, entry, count + 1)
    ensures Nth(lift, entry, count + 1) == After(lift, Nth(lift, entry, count))
    ensures EndsBy(lift, entry, count + 1) <==> Ends(lift, Nth(lift, entry, count))
  {
  }

  /** Trying finds the function there is. */
  lemma {:induction false} ValidateMeans(lift: Lifter, known: seq<Range>, found: seq<Range>, budget: nat, entry: nat, count: nat, end: Option<nat>, m: nat, x: nat)
    requires Seen(lift, known, found, entry, count, end, m) && count <= budget
    ensures ValidateFrom(lift, known, found, budget, Nth(lift, entry, count), count, end) == Some(x) <==> IsFunction(lift, budget, known, found, entry, x)
    decreases budget - count
  {
    var addr := Nth(lift, entry, count);
    if count >= budget || lift(addr).None? {
      if count < 3 { TooFew(lift, budget, known, found, entry, count, x); }
      else { NoFunction(lift, budget, known, found, entry, count, x); }
    } else if end.None? && InBody(known, found, addr) {
      NoFunction(lift, budget, known, found, entry, count, x);
    } else {
      var (length, ends) := lift(addr).value;
      var end' := if end.None? && ends then Some(addr + length) else end;
      var m' := if end.None? then count + 1 else m;
      SeenMore(lift, known, found, entry, count, end, m);
      if end'.Some? && count + 1 >= 3 {
        ThisFunction(lift, budget, known, found, entry, m', x);
      } else {
        ValidateMeans(lift, known, found, budget, entry, count + 1, end', m', x);
      }
    }
  }

  /** What was lifted is kept. */
  ghost predicate Kept(lift: Lifter, lifts: map<nat, Option<(nat, bool)>>) {
    forall a | a in lifts :: lifts[a] == lift(a)
  }

  method LiftAt(lift: Lifter, lifts0: map<nat, Option<(nat, bool)>>, a: nat) returns (r: Option<(nat, bool)>, lifts: map<nat, Option<(nat, bool)>>)
    requires Kept(lift, lifts0)
    ensures r == lift(a) && Kept(lift, lifts)
  {
    lifts := lifts0;
    if a !in lifts { lifts := lifts[a := lift(a)]; }
    r := lifts[a];
  }

  method WalkCandidate(lift: Lifter, budget: nat, entry: nat, lifts0: map<nat, Option<(nat, bool)>>) returns (c: Candidate, lifts: map<nat, Option<(nat, bool)>>)
    requires Kept(lift, lifts0)
    ensures c.entry == entry && (c.checked, c.end) == WalkFrom(lift, budget, entry, 0, None, []) && Kept(lift, lifts)
    ensures forall known, found, end: nat :: c.end == Some(end) && !AnyInBody(known, found, c.checked) <==> IsFunction(lift, budget, known, found, entry, end)
  {
    lifts := lifts0;
    var checked: seq<nat>, count, addr, end: Option<nat>, going := [], 0, entry, None, true;
    while count < budget && going
      invariant Kept(lift, lifts)
      invariant going ==> WalkFrom(lift, budget, addr, count, end, checked) == WalkFrom(lift, budget, entry, 0, None, [])
      invariant !going ==> (checked, Answer(count, end)) == WalkFrom(lift, budget, entry, 0, None, [])
      decreases budget - count, going
    {
      var r;
      r, lifts := LiftAt(lift, lifts, addr);
      if r.None? {
        going := false;
      } else {
        var (length, ends) := r.value;
        count := count + 1;
        if end.None? {
          checked := checked + [addr];
          if ends { end := Some(addr + length); }
        }
        going := end.None? || count < 3;
        addr := addr + length;
      }
    }
    c := Candidate(entry, checked, Answer(count, end), false);
    WalkMeans(lift, budget, entry, c.checked, c.end);
  }

  /** The walk ahead leaves what decides, whatever the bodies, where the function is. */
  lemma WalkMeans(lift: Lifter, budget: nat, entry: nat, checked: seq<nat>, e: Option<nat>)
    requires (checked, e) == WalkFrom(lift, budget, entry, 0, None, [])
    ensures forall known, found, end: nat :: e == Some(end) && !AnyInBody(known, found, checked) <==> IsFunction(lift, budget, known, found, entry, end)
  {
    forall known, found, end: nat ensures e == Some(end) && !AnyInBody(known, found, checked) <==> IsFunction(lift, budget, known, found, entry, end) {
      AheadIsOnTheSpot(lift, known, found, budget, entry, 0, None, []);
      ValidateMeans(lift, known, found, budget, entry, 0, None, 0, end);
    }
  }

  // ---- the sweep

  /** The functions found, from their entry to their end, and the entries tried. */
  datatype Sweep = Sweep(found: seq<Range>, tried: set<nat>)

  /** One address: passed over inside a body or when tried before, else tried. */
  ghost function SweepOne(lift: Lifter, budget: nat, known: seq<Range>, s: Sweep, a: nat): Sweep {
    if InBody(known, s.found, a) || a in s.tried then s
    else
      var end := ValidateFrom(lift, known, s.found, budget, a, 0, None);
      Sweep(if end.Some? then s.found + [(a, end.value)] else s.found, s.tried + {a})
  }

  /** The sweep on the spot over the first `n` of the addresses. */
  ghost function Swept(lift: Lifter, budget: nat, known: seq<Range>, entries: seq<nat>, n: nat): Sweep
    requires n <= |entries|
  {
    if n == 0 then Sweep([], {}) else SweepOne(lift, budget, known, Swept(lift, budget, known, entries, n - 1), entries[n - 1])
  }

  /** Address `n` and the first `p` functions found, those at the addresses before it: the
      function there is at it, not tried before, is the one found next. */
  ghost predicate Settles(lift: Lifter, budget: nat, known: seq<Range>, entries: seq<nat>, found: seq<Range>, n: nat, p: nat)
    requires n < |entries| && p <= |found|
  {
    && (forall i | 0 <= i < |found| :: i < p <==> found[i].0 in entries[..n])
    && forall end: nat :: entries[n] !in entries[..n] && IsFunction(lift, budget, known, found[..p], entries[n], end) <==> p < |found| && found[p] == (entries[n], end)
  }

  ghost predicate IsSettled(lift: Lifter, budget: nat, known: seq<Range>, entries: seq<nat>, found: seq<Range>, n: nat)
    requires n < |entries|
  {
    exists p | 0 <= p <= |found| :: Settles(lift, budget, known, entries, found, n, p)
  }

  /** The functions of the addresses, each apart from the known bodies and those found before. */
  ghost predicate IsSweep(lift: Lifter, budget: nat, known: seq<Range>, entries: seq<nat>, found: seq<Range>) {
    && (forall i | 0 <= i < |found| :: found[i].0 in entries)
    && forall n | 0 <= n < |entries| :: IsSettled(lift, budget, known, entries, found, n)
  }

  /** The addresses before are tried or in a body. */
  ghost predicate TriedOrIn(known: seq<Range>, entries: seq<nat>, s: Sweep) {
    && (forall a | a in entries :: a in s.tried || InBody(known, s.found, a))
    && (forall a | a in s.tried :: a in entries)
    && forall i | 0 <= i < |s.found| :: s.found[i].0 in s.tried
  }

  lemma FunctionStarts(lift: Lifter, budget: nat, known: seq<Range>, found: seq<Range>, entry: nat, end: nat)
    requires IsFunction(lift, budget, known, found, entry, end)
    ensures !InBody(known, found, entry)
  {
    var body :| |body| <= budget && IsBody(lift, entry, body, end) && !AnyInBody(known, found, body);
    assert body[0] == entry;
  }

  lemma OneMoreIn(known: seq<Range>, found: seq<Range>, r: Range, a: nat)
    requires InBody(known, found, a)
    ensures InBody(known, found + [r], a)
  {
    OneMoreCovers(found, r, a);
  }

  /** What the functions found at the addresses before settle stays settled. */
  lemma StaysSettled(lift: Lifter, budget: nat, known: seq<Range>, entries: seq<nat>, a: nat, found: seq<Range>, found': seq<Range>, n: nat, p: nat)
    requires n < |entries| && p <= |found| && Settles(lift, budget, known, entries, found, n, p)
    requires found' == found || (a !in entries && |found'| == |found| + 1 && found'[..|found|] == found && found'[|found|].0 == a)
    ensures Settles(lift, budget, known, entries + [a], found', n, p)
  {
    assert (entries + [a])[..n] == entries[..n] && found'[..p] == found[..p];
    assert forall i | 0 <= i < |found| :: found'[i] == found[i];
    assert entries[n] in entries;
  }

  /** One address more. */
  lemma SweepsOneMore(lift: Lifter, budget: nat, known: seq<Range>, entries: seq<nat>, s: Sweep, a: nat)
    requires IsSweep(lift, budget, known, entries, s.found) && TriedOrIn(known, entries, s)
    ensures var t := SweepOne(lift, budget, known, s, a);
      IsSweep(lift, budget, known, entries + [a], t.found) && TriedOrIn(known, entries + [a], t)
  {
    var t, more := SweepOne(lift, budget, known, s, a), entries + [a];
    Settled(lift, budget, known, entries, s, a);
    forall n | 0 <= n < |more| ensures IsSettled(lift, budget, known, more, t.found, n) {
      if n < |entries| {
        assert IsSettled(lift, budget, known, entries, s.found, n);
        var p :| 0 <= p <= |s.found| && Settles(lift, budget, known, entries, s.found, n, p);
        StaysSettled(lift, budget, known, entries, a, s.found, t.found, n, p);
      }
    }
    forall x | InBody(known, s.found, x) ensures InBody(known, t.found, x) {
      if t.found != s.found { OneMoreIn(known, s.found, t.found[|s.found|], x); }
    }
  }

  lemma Settled(lift: Lifter, budget: nat, known: seq<Range>, entries: seq<nat>, s: Sweep, a: nat)
    requires TriedOrIn(known, entries, s)
    ensures var t := SweepOne(lift, budget, known, s, a);
      Settles(lift, budget, known, entries + [a], t.found, |entries|, |s.found|)
    ensures var found' := SweepOne(lift, budget, known, s, a).found;
      found' == s.found || (a !in entries && |found'| == |s.found| + 1 && found'[..|s.found|] == s.found && found'[|s.found|].0 == a)
  {
    var t, more := SweepOne(lift, budget, known, s, a), entries + [a];
    assert more[..|entries|] == entries && t.found[..|s.found|] == s.found;
    forall end: nat
      ensures a !in entries && IsFunction(lift, budget, known, s.found, a, end) <==> |s.found| < |t.found| && t.found[|s.found|] == (a, end)
    {
      ValidateMeans(lift, known, s.found, budget, a, 0, None, 0, end);
      if IsFunction(lift, budget, known, s.found, a, end) { FunctionStarts(lift, budget, known, s.found, a, end); }
    }
  }

  /** What the sweep finds is what is there to find. */
  lemma {:induction false} SweptIsSweep(lift: Lifter, budget: nat, known: seq<Range>, entries: seq<nat>, n: nat)
    requires n <= |entries|
    ensures var s := Swept(lift, budget, known, entries, n);
      IsSweep(lift, budget, known, entries[..n], s.found) && TriedOrIn(known, entries[..n], s)
  {
    if n > 0 {
      SweptIsSweep(lift, budget, known, entries, n - 1);
      SweepsOneMore(lift, budget, known, entries[..n - 1], Swept(lift, budget, known, entries, n - 1), entries[n - 1]);
      assert entries[..n - 1] + [entries[n - 1]] == entries[..n];
    }
  }

  ghost predicate FoundOk(lift: Lifter, budget: nat, known: seq<Range>, s: Sweep) {
    && (forall i | 0 <= i < |s.found| :: s.found[i].0 in s.tried && FoundAt(lift, budget, known, s.found, i))
    && (forall i, j | 0 <= i < j < |s.found| :: s.found[i].0 != s.found[j].0)
  }

  /** Function `i` found is one, apart from the known bodies and those found before it. */
  ghost predicate FoundAt(lift: Lifter, budget: nat, known: seq<Range>, found: seq<Range>, i: nat)
    requires i < |found|
  {
    IsFunction(lift, budget, known, found[..i], found[i].0, found[i].1)
  }

  lemma FoundOne(lift: Lifter, budget: nat, known: seq<Range>, s: Sweep, a: nat, end: nat)
    requires FoundOk(lift, budget, known, s) && !InBody(known, s.found, a) && a !in s.tried
    requires ValidateFrom(lift, known, s.found, budget, a, 0, None) == Some(end)
    ensures FoundOk(lift, budget, known, Sweep(s.found + [(a, end)], s.tried + {a}))
  {
    var found := s.found + [(a, end)];
    ValidateMeans(lift, known, s.found, budget, a, 0, None, 0, end);
    forall i | 0 <= i < |found| ensures FoundAt(lift, budget, known, found, i) {
      if i < |s.found| {
        assert FoundAt(lift, budget, known, s.found, i) && found[..i] == s.found[..i];
      } else {
        assert found[..i] == s.found;
      }
    }
  }

  /** Every function found has its own entry, and is apart from the known bodies and those found
      before it. */
  lemma {:induction false} FoundApart(lift: Lifter, budget: nat, known: seq<Range>, entries: seq<nat>, n: nat)
    requires n <= |entries|
    ensures FoundOk(lift, budget, known, Swept(lift, budget, known, entries, n))
  {
    if n > 0 {
      FoundApart(lift, budget, known, entries, n - 1);
      var s, a := Swept(lift, budget, known, entries, n - 1), entries[n - 1];
      var end := ValidateFrom(lift, known, s.found, budget, a, 0, None);
      if !(InBody(known, s.found, a) || a in s.tried) && end.Some? { FoundOne(lift, budget, known, s, a, end.value); }
    }
  }

  /** What walking a candidate ahead leaves of it: its walk, and whether it meets a known body. */
  ghost predicate WalkedAhead(lift: Lifter, budget: nat, known: seq<Range>, a: nat, c: Candidate) {
    && c.entry == a && (c.checked, c.end) == WalkFrom(lift, budget, a, 0, None, [])
    && (c.known <==> exists i :: 0 <= i < |c.checked| && Covers(known, c.checked[i]))
  }

  /** The addresses outside the known bodies, each walked. */
  method Candidates(lift: Lifter, budget: nat, entries: seq<nat>, known: CoveredSet, ghost raw: seq<Range>) returns (cs: seq<Candidate>, ghost kept: seq<nat>)
    requires known.Valid() && forall a: nat :: Covers(known.ranges, a) <==> Covers(raw, a)
    ensures kept == Outside(raw, entries, |entries|) && |cs| == |kept|
    ensures forall k | 0 <= k < |cs| :: WalkedAhead(lift, budget, raw, kept[k], cs[k])
  {
    cs, kept := [], [];
    var lifts: map<nat, Option<(nat, bool)>> := map[];
    for n := 0 to |entries|
      invariant Kept(lift, lifts) && kept == Outside(raw, entries, n) && |cs| == |kept|
      invariant forall k | 0 <= k < |cs| :: WalkedAhead(lift, budget, raw, kept[k], cs[k])
    {
      // (what was lifted is kept for neighbouring candidates only)
      if |cs| % 64 == 0 { lifts := map[]; }
      var inside := known.Contains(entries[n]);
      if !inside {
        var c;
        c, lifts := WalkCandidate(lift, budget, entries[n], lifts);
        var hit := known.Hits(c.checked);
        c := c.(known := hit);
        cs, kept := cs + [c], kept + [entries[n]];
      }
    }
  }

  /** The addresses outside the known bodies, in order. */
  ghost function Outside(known: seq<Range>, entries: seq<nat>, n: nat): seq<nat>
    requires n <= |entries|
  {
    if n == 0 then [] else Outside(known, entries, n - 1) + if Covers(known, entries[n - 1]) then [] else [entries[n - 1]]
  }

  /** The addresses inside the known bodies make no difference. */
  lemma {:induction false} OutsideSwept(lift: Lifter, budget: nat, known: seq<Range>, entries: seq<nat>, n: nat)
    requires n <= |entries|
    ensures var kept := Outside(known, entries, n); Swept(lift, budget, known, kept, |kept|) == Swept(lift, budget, known, entries, n)
  {
    if n > 0 {
      OutsideSwept(lift, budget, known, entries, n - 1);
      var before, kept := Outside(known, entries, n - 1), Outside(known, entries, n);
      if !Covers(known, entries[n - 1]) {
        assert kept[..|before|] == before;
        SweptPrefix(lift, budget, known, before, kept, |before|);
        assert kept[|kept| - 1] == entries[n - 1];
      } else {
        assert kept == before;
      }
    }
  }

  lemma {:induction false} SweptPrefix(lift: Lifter, budget: nat, known: seq<Range>, a: seq<nat>, b: seq<nat>, n: nat)
    requires n <= |a| && a <= b
    ensures Swept(lift, budget, known, a, n) == Swept(lift, budget, known, b, n)
  {
    if n > 0 { SweptPrefix(lift, budget, known, a, b, n - 1); }
  }

  /** A candidate walked ahead, looked up among the bodies found. */
  method TryCandidate(c: Candidate, added: CoveredSet, ghost lift: Lifter, ghost budget: nat, ghost known: seq<Range>, ghost found: seq<Range>) returns (end: Option<nat>)
    requires added.Valid() && (forall a: nat :: Covers(added.ranges, a) <==> Covers(found, a)) && WalkedAhead(lift, budget, known, c.entry, c)
    ensures end == ValidateFrom(lift, known, found, budget, c.entry, 0, None)
  {
    var hit := added.Hits(c.checked);
    end := if c.known || hit then None else c.end;
    AheadIsOnTheSpot(lift, known, found, budget, c.entry, 0, None, []);
    LookedUp(known, found, c.checked);
  }

  lemma LookedUp(known: seq<Range>, found: seq<Range>, checked: seq<nat>)
    ensures AnyInBody(known, found, checked) <==>
      (exists i :: 0 <= i < |checked| && Covers(known, checked[i])) || (exists i :: 0 <= i < |checked| && Covers(found, checked[i]))
  {
    if i :| 0 <= i < |checked| && Covers(known, checked[i]) { assert InBody(known, found, checked[i]); }
    if i :| 0 <= i < |checked| && Covers(found, checked[i]) { assert InBody(known, found, checked[i]); }
  }

  /** The sweep, its candidates walked ahead: what trying each on the spot finds, in order. */
  method SweepAhead(lift: Lifter, budget: nat, raw: seq<Range>, entries: seq<nat>) returns (found: seq<Range>)
    ensures found == Swept(lift, budget, raw, entries, |entries|).found && IsSweep(lift, budget, raw, entries, found)
  {
    var known := new CoveredSet.FromRanges(raw);
    var cs;
    ghost var kept;
    cs, kept := Candidates(lift, budget, entries, known, raw);
    var added := new CoveredSet();
    var tried: set<nat> := {};
    found := [];
    for k := 0 to |cs|
      invariant added.Valid() && (forall a: nat :: Covers(added.ranges, a) <==> Covers(found, a))
      invariant Sweep(found, tried) == Swept(lift, budget, raw, kept, k)
    {
      var c := cs[k];
      assert WalkedAhead(lift, budget, raw, kept[k], c);
      OutsideIsOutside(raw, entries, |entries|, k);
      var inside := added.Contains(c.entry);
      if !inside && c.entry !in tried {
        tried := tried + {c.entry};
        var end := TryCandidate(c, added, lift, budget, raw, found);
        if end.Some? {
          ghost var before := found;
          found := found + [(c.entry, end.value)];
          added.Insert(c.entry, end.value);
          forall a: nat ensures Covers(found, a) <==> Covers(before, a) || c.entry <= a < end.value {
            OneMoreCovers(before, (c.entry, end.value), a);
          }
        }
      }
    }
    OutsideSwept(lift, budget, raw, entries, |entries|);
    SweptIsSweep(lift, budget, raw, entries, |entries|);
    assert entries[..|entries|] == entries;
  }

  lemma {:induction false} OutsideIsOutside(known: seq<Range>, entries: seq<nat>, n: nat, k: nat)
    requires n <= |entries| && k < |Outside(known, entries, n)|
    ensures !Covers(known, Outside(known, entries, n)[k])
  {
    if k < |Outside(known, entries, n - 1)| { OutsideIsOutside(known, entries, n - 1, k); }
  }

  /** The functions the sweep adds: those found, with at most `BUDGET` instructions looked at. */
  method SweepFunctions(lift: Lifter, raw: seq<Range>, entries: seq<nat>) returns (found: seq<Range>)
    ensures IsSweep(lift, BUDGET, raw, entries, found)
    ensures forall i | 0 <= i < |found| :: FoundAt(lift, BUDGET, raw, found, i)
  {
    found := SweepAhead(lift, BUDGET, raw, entries);
    FoundApart(lift, BUDGET, raw, entries, |entries|);
  }
}
