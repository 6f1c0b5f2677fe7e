/**
 Signed 32-bit division by a multiply and a shift: the reciprocal `magic_s32`
 computes, and what dividing with it gives for every 32-bit dividend.
 */
module MagicDiv {
  import opened Numbers

  const TWO31: int := 0x8000_0000
  const TWO32: int := 0x1_0000_0000

  function Abs(x: int): nat { if x < 0 then -x else x }

  /** Rust's `/` on integers: truncation towards zero. */
  function TruncDiv(n: int, d: int): int
    requires d != 0
  {
    var q := Abs(n) / Abs(d);
    if (n < 0) == (d < 0) then q else -q
  }

  /** `|nc|`: the largest dividend of the bound with remainder `|d| - 1`. */
  function Anc(d: int): int
    requires d != 0
  {
    var t := if d < 0 then TWO31 + 1 else TWO31;
    t - 1 - t % Abs(d)
  }

  /** `|d| - 2^p mod |d|`. */
  function Delta(ad: nat, p: nat): nat
    requires ad > 0
  {
    ad - Pow2(p) % ad
  }

  /** Dividing `n` with the signed multiplier `m` and the shift `p`: the high part of the
      product, plus one when the quotient is negative. */
  function MagicQuotient(n: int, d: int, m: int, p: nat): int {
    FloorDiv(m * n, Pow2(p)) + if (d > 0 && n < 0) || (d < 0 && n > 0) then 1 else 0
  }

  /** The arithmetic shift right: division rounding down (`b > 0`). */
  function FloorDiv(a: int, b: int): int
    requires b > 0
  {
    a / b
  }

  lemma {:induction false} Pow2Mono(a: nat, b: nat)
    requires a <= b
    ensures Pow2(a) <= Pow2(b)
    decreases b
  {
    if a < b { Pow2Mono(a, b - 1); }
  }

  lemma Pow2Values()
    ensures Pow2(31) == TWO31 && Pow2(32) == TWO32 && Pow2(62) == TWO31 * TWO31
  {
    assert Pow2(4) == 16;
    assert Pow2(8) == 256;
    assert Pow2(12) == 0x1000;
    assert Pow2(16) == 0x1_0000;
    assert Pow2(20) == 0x10_0000;
    assert Pow2(24) == 0x100_0000;
    assert Pow2(28) == 0x1000_0000;
    assert Pow2(32) == 0x1_0000_0000;
    assert Pow2(36) == 0x10_0000_0000;
    assert Pow2(40) == 0x100_0000_0000;
    assert Pow2(44) == 0x1000_0000_0000;
    assert Pow2(48) == 0x1_0000_0000_0000;
    assert Pow2(52) == 0x10_0000_0000_0000;
    assert Pow2(56) == 0x100_0000_0000_0000;
    assert Pow2(60) == 0x1000_0000_0000_0000;
  }

  newtype u32 = x: int | 0 <= x < 0x1_0000_0000

  /** The low 32 bits of a wrapping operation's result. */
  function Wrap(x: int): u32 { (x % TWO32) as u32 }

  lemma WrapOnce(x: int)
    requires 0 <= x < 2 * TWO32
    ensures Wrap(x) as int == if x < TWO32 then x else x - TWO32
  {
  }

  /** The condition the search for `p` stops at. */
  ghost predicate Enough(d: int, p: nat)
    requires d != 0
  {
    Pow2(p) > Anc(d) * Delta(Abs(d), p)
  }

  /** `(magic, shift)` is the reciprocal of `d`: the least `p >= 32` that is enough, and
      `2^p / |d|` rounded up (negated modulo 2^32 for a negative divisor). */
  ghost predicate IsMagic(d: int, magic: int, shift: int)
    requires d != 0
  {
    var p := shift + 32;
    && 0 <= shift <= 30
    && Enough(d, p)
    && (forall k | 32 <= k < p :: !Enough(d, k))
    && Pow2(p) / Abs(d) + 1 < TWO32
    && magic == (if d < 0 then TWO32 - (Pow2(p) / Abs(d) + 1) else Pow2(p) / Abs(d) + 1)
  }

  /** The multiplier as a signed number: minus the negated magic for a negative divisor. */
  function Multiplier(d: int, magic: int): int {
    if d < 0 then magic - TWO32 else magic
  }

  lemma MulLe(a: int, b: int, c: int)
    requires a <= b && c >= 0
    ensures a * c <= b * c
  {
  }

  lemma DivUnique(a: int, b: int, q: int)
    requires b > 0 && q * b <= a < q * b + b
    ensures a / b == q && a % b == a - q * b
  {
    var k := a / b;
    assert a == k * b + a % b;
    assert k < q ==> (k + 1) * b <= q * b;
    assert k > q ==> (q + 1) * b <= k * b;
  }

  lemma DivBelow(x: int, b: int, k: int)
    requires b > 0 && x < k * b
    ensures x / b < k
  {
    var q := x / b;
    assert q >= k ==> q * b >= k * b;
  }

  /** Quotient and remainder of `2^(p+1)` from those of `2^p`. */
  lemma DoubleStep(p: nat, b: int)
    requires b > 0
    ensures var q, r := Pow2(p) / b, Pow2(p) % b;
      && Pow2(p + 1) / b == (if 2 * r >= b then 2 * q + 1 else 2 * q)
      && Pow2(p + 1) % b == (if 2 * r >= b then 2 * r - b else 2 * r)
  {
    var q, r := Pow2(p) / b, Pow2(p) % b;
    assert Pow2(p) == q * b + r;
    if 2 * r >= b {
      assert Pow2(p + 1) == (2 * q + 1) * b + (2 * r - b);
      DivUnique(Pow2(p + 1), b, 2 * q + 1);
    } else {
      assert Pow2(p + 1) == (2 * q) * b + 2 * r;
      DivUnique(Pow2(p + 1), b, 2 * q);
    }
  }

  lemma AncFacts(d: int)
    requires -TWO31 <= d < TWO31 && d != 0
    ensures TWO31 / 2 <= Anc(d) <= TWO31
    ensures Anc(d) == TWO31 ==> d < 0 && Abs(d) < TWO31
    ensures Abs(d) == TWO31 ==> Anc(d) == TWO31 - 1
    ensures d > 0 ==> Anc(d) < TWO31
  {
    var ad := Abs(d);
    var t := if d < 0 then TWO31 + 1 else TWO31;
    if ad > t / 2 {
      DivUnique(t, ad, 1);
    }
  }

  /** What stops the search at `p = 62` at the latest. */
  lemma EnoughAt62(d: int)
    requires -TWO31 <= d < TWO31 && d != 0
    ensures Enough(d, 62)
  {
    AncFacts(d);
    Pow2Values();
    var a, e := Anc(d), Delta(Abs(d), 62);
    if a == TWO31 {
      MulLe(e, TWO31 - 1, a);
    } else {
      MulLe(e, TWO31, a);
    }
  }

  /** No quotient of the search overflows 32 bits. */
  lemma QuotientsFit(d: int, p: nat)
    requires -TWO31 <= d < TWO31 && Abs(d) >= 2
    requires 31 <= p <= 61 && (p == 31 || !Enough(d, p))
    ensures Pow2(p + 1) / Anc(d) < TWO32
    ensures Pow2(p + 1) / Abs(d) + 1 < TWO32
  {
    AncFacts(d);
    Pow2Values();
    var ad, a, e := Abs(d), Anc(d), Delta(Abs(d), p);
    var x := Pow2(p + 1);
    if p == 31 {
      DivBelow(x, a, TWO32);
      DivBelow(x, ad, TWO31 + 1);
    } else {
      assert x <= 2 * (a * e);
      Pow2Mono(p + 1, 62);
      DeltaOfPower(d, p);
      FirstQuotient(x, a, ad, e);
      SecondQuotient(x, a, ad, e);
    }
  }

  lemma FirstQuotient(x: int, a: int, ad: int, e: int)
    requires a > 0 && 0 < e <= ad <= TWO31 && x <= 2 * (a * e) && x <= TWO31 * TWO31
    requires ad == TWO31 ==> a == TWO31 - 1
    ensures x / a < TWO32
  {
    if ad < TWO31 {
      MulLe(e, TWO31 - 1, a);
    }
    DivBelow(x, a, TWO32);
  }

  lemma SecondQuotient(x: int, a: int, ad: int, e: int)
    requires 0 < a <= TWO31 && 0 < e <= ad <= TWO31 && ad >= 2 && x <= 2 * (a * e)
    requires a == TWO31 ==> e < ad
    ensures x / ad + 1 < TWO32
  {
    if a < TWO31 {
      MulLe(a, TWO31 - 1, e);
    }
    DivBelow(x, ad, TWO32 - 1);
  }

  /** With the larger bound the divisor divides no power of two. */
  lemma DeltaOfPower(d: int, p: nat)
    requires -TWO31 <= d < TWO31 && Abs(d) >= 2
    ensures Anc(d) == TWO31 ==> Delta(Abs(d), p) < Abs(d)
  {
    if Anc(d) == TWO31 {
      OddDivisor(Abs(d));
      PowerNotMultiple(p, Abs(d));
    }
  }

  /** A divisor of `2^31 + 1` is odd. */
  lemma OddDivisor(ad: nat)
    requires ad > 0 && (TWO31 + 1) % ad == 0
    ensures ad % 2 == 1
  {
    var k, h := (TWO31 + 1) / ad, ad / 2;
    assert TWO31 + 1 == k * ad;
    assert ad == 2 * h ==> k * ad == 2 * (k * h);
  }

  /** No odd number but 1 divides a power of two. */
  lemma {:induction false} PowerNotMultiple(p: nat, ad: nat)
    requires ad > 1 && ad % 2 == 1
    ensures Pow2(p) % ad != 0
  {
    if p == 0 {
      DivUnique(1, ad, 0);
    } else {
      PowerNotMultiple(p - 1, ad);
      DoubleStep(p - 1, ad);
    }
  }

  /** `2^31` divided by `b`, as the search starts. */
  method DivideTwo31(b: u32) returns (q: u32, r: u32)
    requires 0 < b
    ensures q as int == Pow2(31) / b as int && r as int == Pow2(31) % b as int
  {
    Pow2Values();
    var c := b as int;
    assert TWO31 == (TWO31 / c) * c + TWO31 % c;
    q := 0x8000_0000 / b;
    r := 0x8000_0000 - q * b;
  }

  /** One doubling of a quotient and remainder, in 32 bits: the quotient may wrap. */
  method DoubleDivision(q: u32, r: u32, b: u32, ghost p: nat) returns (q': u32, r': u32)
    requires 0 < b <= 0x8000_0000
    requires q as int == Pow2(p) / b as int && r as int == Pow2(p) % b as int
    ensures Pow2(p + 1) / b as int < TWO32 ==> q' as int == Pow2(p + 1) / b as int
    ensures Pow2(p + 1) / b as int == TWO32 ==> q' == 0
    ensures r' as int == Pow2(p + 1) % b as int
  {
    DoubleStep(p, b as int);
    WrapOnce(2 * q as int);
    WrapOnce(2 * r as int);
    q', r' := Wrap(2 * q as int), Wrap(2 * r as int);
    if r' >= b {
      q' := q' + 1;
      r' := r' - b;
    }
  }

  /** The reciprocal of a 32-bit divisor (0 would divide by zero). */
  method MagicS32(d: int) returns (magic: u32, shift: u32)
    requires -TWO31 <= d < TWO31 && d != 0
    ensures Returned(d, magic as int, shift as int)
  {
    var ad := Abs(d) as u32;
    var t: u32 := if d < 0 then 0x8000_0001 else 0x8000_0000;
    var anc := t - 1 - t % ad;
    AncFacts(d);
    var p, q2 := Search(d, anc, ad);
    // (neither wraps)
    magic := q2 + 1;
    if d < 0 {
      magic := 0xffff_ffff - magic + 1;
    }
    shift := p - 32;
  }

  /** The search for the least `p` that is enough, with `2^p / |d|`. */
  method Search(d: int, anc: u32, ad: u32) returns (p: u32, q2: u32)
    requires -TWO31 <= d < TWO31 && d != 0
    requires anc as int == Anc(d) && ad as int == Abs(d)
    ensures 32 <= p <= 62
    ensures ad >= 2 ==> Enough(d, p as int)
    ensures forall k: nat | 32 <= k < p as int :: !Enough(d, k)
    ensures ad >= 2 ==> q2 as int == Pow2(p as int) / Abs(d) && q2 < 0xffff_ffff
    ensures ad == 1 ==> p == 32 && q2 == 0
  {
    AncFacts(d);
    p := 31;
    ghost var n: nat := 31;
    var q1, r1 := DivideTwo31(anc);
    var r2;
    q2, r2 := DivideTwo31(ad);
    while true
      invariant 31 <= n <= 61 && p as int == n
      invariant ad == 1 ==> n == 31
      invariant q1 as int == Pow2(n) / anc as int && r1 as int == Pow2(n) % anc as int
      invariant q2 as int == Pow2(n) / ad as int && r2 as int == Pow2(n) % ad as int
      invariant forall k: nat | 32 <= k <= n :: !Enough(d, k)
      decreases 62 - n
    {
      if ad >= 2 { QuotientsFit(d, n); } else { UnitDivisor(d, n); }
      q1, r1 := DoubleDivision(q1, r1, anc, n);
      q2, r2 := DoubleDivision(q2, r2, ad, n);
      p, n := p + 1, n + 1;
      var delta := ad - r2;
      StopTest(d, n);
      if q1 >= delta && !(q1 == delta && r1 == 0) {
        return;
      }
      if n == 62 { EnoughAt62(d); }
    }
  }

  /** The search for a divisor of 1 or -1 stops at once, its quotient wrapped to 0. */
  lemma UnitDivisor(d: int, n: nat)
    requires Abs(d) == 1 && n == 31
    ensures Pow2(n + 1) / Anc(d) == 2 && Pow2(n + 1) / Abs(d) == TWO32
    ensures Pow2(n + 1) % Abs(d) == 0
  {
    Pow2Values();
  }

  /** Comparing the quotient and remainder of `2^p` by `|nc|` with `delta`, as the search
      does, compares `2^p` with their product. */
  lemma StopTest(d: int, p: nat)
    requires -TWO31 <= d < TWO31 && d != 0
    ensures Anc(d) > 0
    ensures var q, e := Pow2(p) / Anc(d), Delta(Abs(d), p);
      Enough(d, p) <==> q >= e && !(q == e && Pow2(p) % Anc(d) == 0)
  {
    AncFacts(d);
    CompareProduct(Pow2(p), Anc(d), Delta(Abs(d), p));
  }

  lemma CompareProduct(x: int, a: int, e: int)
    requires a > 0
    ensures x > a * e <==> x / a >= e && !(x / a == e && x % a == 0)
  {
    var q, r := x / a, x % a;
    assert x == q * a + r;
    assert q < e ==> (q + 1) * a <= e * a;
    assert q > e ==> (e + 1) * a <= q * a;
  }

  lemma LastRemainder(t: int, ad: int)
    requires 2 <= ad <= t
    ensures (t - 1 - t % ad) % ad == ad - 1 && t - 1 - t % ad >= ad - 1
  {
    var k, r := t / ad, t % ad;
    assert t == k * ad + r;
    var q := k - 1;
    assert k * ad == q * ad + ad;
    if k <= 0 { MulLe(k, 0, ad); }
    MulLe(0, q, ad);
    DivUnique(t - 1 - r, ad, q);
  }

  /** `|nc|` leaves the remainder `|d| - 1`. */
  lemma AncRemainder(d: int)
    requires -TWO31 <= d < TWO31 && Abs(d) >= 2
    ensures Anc(d) % Abs(d) == Abs(d) - 1 && Anc(d) >= Abs(d) - 1
  {
    LastRemainder(if d < 0 then TWO31 + 1 else TWO31, Abs(d));
  }

  /** The error of the rounded-up reciprocal stays below what would change a quotient. */
  lemma Slack(a: int, ad: int, e: int, x: int, k: int)
    requires ad >= 2 && 0 < e && a * e < x && a % ad == ad - 1 && a >= ad - 1
    requires 0 <= k < a + ad
    ensures k * e < (ad - k % ad) * x
  {
    var r := k % ad;
    if k <= a {
      MulLe(k, a, e);
      MulLe(1, ad - r, x);
    } else {
      var j := k - a;
      var c := a / ad;
      assert a == c * ad + (ad - 1);
      assert k == (c + 1) * ad + (j - 1);
      DivUnique(k, ad, c + 1);
      MulLe(j, a, e);
      assert k * e == a * e + j * e;
      MulLe(2, ad - r, x);
    }
  }

  /** The multiplier times the divisor. */
  lemma Reciprocal(ad: nat, p: nat)
    requires ad >= 1
    ensures (Pow2(p) / ad + 1) * ad == Pow2(p) + Delta(ad, p)
  {
    var x := Pow2(p);
    assert x == (x / ad) * ad + x % ad;
  }

  /** A product with the reciprocal shifted down is the quotient, given the slack. */
  lemma ShiftedProduct(k: int, ad: int, m: int, e: int, x: int)
    requires k >= 0 && ad >= 1 && x > 0 && e > 0 && m * ad == x + e
    requires k * e < (ad - k % ad) * x
    ensures FloorDiv(m * k, x) == k / ad
  {
    var q, r := k / ad, k % ad;
    assert k == q * ad + r;
    assert (m * k) * ad == x * k + e * k;
    assert x * k == (q * x) * ad + x * r;
    var f := m * k - q * x;
    assert f * ad == x * r + e * k;
    assert f * ad < x * ad;
    assert x * r + e * k >= 0;
    CancelFactor(f, x, ad);
    DivUnique(m * k, x, q);
  }

  lemma CancelFactor(f: int, x: int, ad: int)
    requires ad > 0 && 0 <= f * ad < x * ad
    ensures 0 <= f < x
  {
    assert f < 0 ==> f * ad <= (-1) * ad;
    assert f >= x ==> f * ad >= x * ad;
  }

  /** The same rounded up, for a negative product. */
  lemma NegatedProduct(k: int, ad: int, m: int, e: int, x: int)
    requires k > 0 && ad >= 1 && x > 0 && e > 0 && m * ad == x + e
    requires k * e <= (ad - k % ad) * x
    ensures FloorDiv(-(m * k), x) + 1 == -(k / ad)
  {
    var q, r := k / ad, k % ad;
    assert k == q * ad + r;
    assert (m * k) * ad == x * k + e * k;
    assert x * k == (q * x) * ad + x * r;
    var f := m * k - q * x;
    assert f * ad == x * r + e * k;
    assert f * ad <= x * ad;
    assert e * k > 0;
    assert x * r >= 0;
    assert f <= 0 ==> f * ad <= 0;
    assert f >= x + 1 ==> f * ad >= (x + 1) * ad;
    assert (x + 1) * ad == x * ad + ad;
    assert 0 < f <= x;
    DivUnique(-(m * k), x, -q - 1);
  }

  /** The least dividend has remainder `|d| - 1` only when the search stops at once. */
  lemma LeastDividend(d: int, p: nat)
    requires 2 <= d < TWO31 && TWO31 % d == d - 1
    requires p >= 32 && Enough(d, p) && forall k | 32 <= k < p :: !Enough(d, k)
    ensures p == 32 && Delta(d, 32) == 2
  {
    var c := TWO31 / d;
    assert TWO31 == c * d + (d - 1);
    Pow2Values();
    assert TWO32 == (2 * c + 1) * d + (d - 2);
    DivUnique(TWO32, d, 2 * c + 1);
    assert Enough(d, 32);
  }

  /** The slack at every magnitude a 32-bit dividend has; `k = 2^31` may reach the bound. */
  lemma SlackOfDividend(d: int, p: nat, k: int)
    requires -TWO31 <= d < TWO31 && Abs(d) >= 2 && 0 <= k <= TWO31
    requires p >= 32 && Enough(d, p) && forall j | 32 <= j < p :: !Enough(d, j)
    ensures var ad, e := Abs(d), Delta(Abs(d), p);
      && k * e <= (ad - k % ad) * Pow2(p)
      && (d < 0 || k < TWO31 ==> k * e < (ad - k % ad) * Pow2(p))
  {
    AncRemainder(d);
    var t := if d < 0 then TWO31 + 1 else TWO31;
    if k < Anc(d) + Abs(d) {
      Slack(Anc(d), Abs(d), Delta(Abs(d), p), Pow2(p), k);
    } else {
      assert t % Abs(d) == Abs(d) - 1 && k == TWO31;
      LeastDividend(d, p);
      Pow2Values();
    }
  }

  /** Dividing any 32-bit `n` by the magic of `d` gives `n / d`. */
  lemma MagicDivides(d: int, magic: int, shift: int, n: int)
    requires -TWO31 <= d < TWO31 && Abs(d) >= 2 && IsMagic(d, magic, shift)
    requires -TWO31 <= n < TWO31
    ensures MagicQuotient(n, d, Multiplier(d, magic), shift + 32) == TruncDiv(n, d)
  {
    var p, ad, k := shift + 32, Abs(d), Abs(n);
    var m := Pow2(p) / ad + 1;
    Reciprocal(ad, p);
    SlackOfDividend(d, p, k);
    SignedProduct(d, m, n);
    QuotientOf(d, n, ad, k, m, Delta(ad, p), Pow2(p), Multiplier(d, magic) * n);
  }

  /** The quotient from the product `s` with the reciprocal. */
  lemma QuotientOf(d: int, n: int, ad: int, k: int, m: int, e: int, x: int, s: int)
    requires d != 0 && ad == Abs(d) && k == Abs(n) && x > 0 && e > 0 && m * ad == x + e
    requires k * e <= (ad - k % ad) * x && ((n < 0) == (d < 0) || n == 0 ==> k * e < (ad - k % ad) * x)
    requires s == if (n < 0) == (d < 0) then m * k else -(m * k)
    ensures FloorDiv(s, x) + (if (d > 0 && n < 0) || (d < 0 && n > 0) then 1 else 0) == TruncDiv(n, d)
  {
    if (n < 0) == (d < 0) {
      ShiftedProduct(k, ad, m, e, x);
    } else if n == 0 {
      assert m * k == 0;
    } else {
      NegatedProduct(k, ad, m, e, x);
    }
  }

  lemma SignedProduct(d: int, m: int, n: int)
    ensures (if d < 0 then -m else m) * n == if (n < 0) == (d < 0) then m * Abs(n) else -(m * Abs(n))
  {
  }

  /** What [MagicS32] returns. */
  ghost predicate Returned(d: int, magic: int, shift: int)
    requires d != 0
  {
    && (Abs(d) >= 2 ==> IsMagic(d, magic, shift))
    && (Abs(d) == 1 ==> shift == 0 && magic == if d < 0 then TWO32 - 1 else 1)
  }

  /** The result divides every 32-bit dividend exactly when the divisor is not 1 or -1. */
  lemma MagicDividesIff(d: int, magic: int, shift: nat)
    requires -TWO31 <= d < TWO31 && d != 0 && Returned(d, magic, shift)
    ensures Abs(d) >= 2 <==>
      forall n | -TWO31 <= n < TWO31 :: MagicQuotient(n, d, Multiplier(d, magic), shift + 32) == TruncDiv(n, d)
  {
    if Abs(d) >= 2 {
      forall n | -TWO31 <= n < TWO31
        ensures MagicQuotient(n, d, Multiplier(d, magic), shift + 32) == TruncDiv(n, d)
      {
        MagicDivides(d, magic, shift, n);
      }
    } else {
      Pow2Values();
      assert MagicQuotient(1, d, Multiplier(d, magic), 32) == 0;
      assert TruncDiv(1, d) != 0;
    }
  }
}
