/**
 The marked instructions found eight flags at a time: a word of eight flag bytes, masked, and
 its lowest byte that is not zero taken until none is left.
 */
module BlockFlowFlags {
  import opened Numbers
  import opened ByteConst

  /** The flags of an instruction: a jump targets it (1), it is entered from outside (2), it is a
      call the function owns (4), the one before it ends a block (8). */
  function FlagByte(target: bool, external: bool, owned: bool, after: bool): Byte {
    (if target then 1 else 0) + (if external then 2 else 0) + (if owned then 4 else 0) + if after then 8 else 0
  }

  /** The flags of the mask 1 + 2 + 8: those that start a block. */
  function Masked(f: Byte): Byte {
    f % 4 + f / 8 % 2 * 8
  }

  lemma MaskedFlag(target: bool, external: bool, owned: bool, after: bool)
    ensures Masked(FlagByte(target, external, owned, after)) != 0 <==> target || external || after
  {
  }

  /** The entry and the marked instructions among the first `n`. */
  function MarkedStarts(flags: seq<Byte>, n: nat): seq<nat>
    requires n <= |flags|
  {
    if n == 0 then [0]
    else MarkedStarts(flags, n - 1) + if n - 1 > 0 && Masked(flags[n - 1]) != 0 then [n - 1] else []
  }

  lemma {:induction false} SkipUnmarked(flags: seq<Byte>, from: nat, end: nat)
    requires from <= end <= |flags| && forall i | from <= i < end :: Masked(flags[i]) == 0
    ensures MarkedStarts(flags, end) == MarkedStarts(flags, from)
  {
    if from < end { SkipUnmarked(flags, from, end - 1); }
  }

  /** The zero bits below the lowest bit set. */
  function TrailingZeros(w: nat): nat
    requires w > 0
  {
    if w % 2 == 1 then 0 else 1 + TrailingZeros(w / 2)
  }

  lemma TrailingInByte(w: nat)
    requires w % 256 != 0
    ensures TrailingZeros(w) < 8
  {
    assert Pow2(8) == 256;
    TrailingIn(w, 256, 8);
  }

  /** A number that `2^n` does not divide has fewer than `n` zeros. */
  lemma {:induction false} TrailingIn(w: nat, m: nat, n: nat)
    requires w > 0 && m > 0 && m == Pow2(n) && w % m != 0
    ensures TrailingZeros(w) < n
    decreases n
  {
    if n > 0 && w % 2 == 0 {
      var h := Pow2(n - 1);
      HalfNotDivided(w, h);
      TrailingIn(w / 2, h, n - 1);
    }
  }

  lemma HalfNotDivided(w: nat, h: nat)
    requires h > 0 && w % 2 == 0 && w % (2 * h) != 0
    ensures (w / 2) % h != 0
  {
    if (w / 2) % h == 0 {
      var q := w / 2 / h;
      assert w / 2 == h * q;
      assert w == 2 * h * q;
      ModUnique(w, 2 * h, q, 0);
    }
  }

  lemma TrailingShifted(v: nat)
    requires v > 0
    ensures TrailingZeros(256 * v) == 8 + TrailingZeros(v)
  {
    TrailingFour(v);
    TrailingFour(16 * v);
    assert 16 * (16 * v) == 256 * v;
  }

  lemma TrailingFour(v: nat)
    requires v > 0
    ensures TrailingZeros(16 * v) == 4 + TrailingZeros(v)
  {
    TrailingTwice(v);
    TrailingTwice(2 * v);
    TrailingTwice(4 * v);
    TrailingTwice(8 * v);
  }

  lemma TrailingTwice(v: nat)
    requires v > 0
    ensures TrailingZeros(2 * v) == 1 + TrailingZeros(v)
  {
    assert (2 * v) / 2 == v;
  }

  /** The lowest byte that is not zero is where the trailing zeros say. */
  lemma {:induction false} LowestByte(bs: seq<Byte>, k: nat)
    requires k < |bs| && bs[k] != 0 && forall j | 0 <= j < k :: bs[j] == 0
    ensures Value(bs) > 0 && TrailingZeros(Value(bs)) / 8 == k
  {
    if k == 0 {
      TrailingInByte(Value(bs));
    } else {
      LowestByte(bs[1..], k - 1);
      TrailingShifted(Value(bs[1..]));
    }
  }

  lemma {:induction false} ZeroBytes(bs: seq<Byte>)
    requires Value(bs) == 0
    ensures forall j | 0 <= j < |bs| :: bs[j] == 0
  {
    if bs != [] { ZeroBytes(bs[1..]); }
  }

  lemma {:induction false} FirstByte(bs: seq<Byte>) returns (k: nat)
    requires Value(bs) != 0
    ensures k < |bs| && bs[k] != 0 && forall j | 0 <= j < k :: bs[j] == 0
  {
    if bs[0] != 0 {
      k := 0;
    } else {
      k := FirstByte(bs[1..]);
      k := k + 1;
    }
  }

  /** The word without its byte `k`. */
  function ClearByte(word: nat, k: nat): nat
    requires k < 8
  {
    BytesOfLength(word, 8);
    Value(BytesOf(word, 8)[k := 0])
  }

  /** The eight flags from `at` on, masked. */
  function MaskedWord(flags: seq<Byte>, at: nat): (r: seq<Byte>)
    requires at + 8 <= |flags|
    ensures |r| == 8 && forall j | 0 <= j < 8 :: r[j] == Masked(flags[at + j])
  {
    [Masked(flags[at]), Masked(flags[at + 1]), Masked(flags[at + 2]), Masked(flags[at + 3]),
     Masked(flags[at + 4]), Masked(flags[at + 5]), Masked(flags[at + 6]), Masked(flags[at + 7])]
  }

  /** The marked instructions of eight flags, those from `at` on. */
  method ScanWord(flags: seq<Byte>, at: nat, start0: seq<nat>) returns (start: seq<nat>)
    requires at + 8 <= |flags| && start0 == MarkedStarts(flags, at)
    ensures start == MarkedStarts(flags, at + 8)
  {
    ghost var bs := MaskedWord(flags, at);
    var word := Value(MaskedWord(flags, at));
    start := start0;
    ghost var done := 0;
    while word != 0
      invariant |bs| == 8 && word == Value(bs) && done <= 8
      invariant (forall j | 0 <= j < done :: bs[j] == 0) && forall j | done <= j < 8 :: bs[j] == Masked(flags[at + j])
      invariant start == MarkedStarts(flags, at + done)
      decreases 8 - done
    {
      ghost var first := FirstByte(bs);
      LowestByte(bs, first);
      var k := TrailingZeros(word) / 8;
      SkipMarked(flags, at, done, k, bs);
      if at + k > 0 { start := start + [at + k]; }
      BytesOfValue(bs);
      word := ClearByte(word, k);
      bs, done := bs[k := 0], k + 1;
    }
    ZeroBytes(bs);
    SkipZeros(flags, at, done, 8, bs);
  }

  lemma SkipZeros(flags: seq<Byte>, at: nat, done: nat, k: nat, bs: seq<Byte>)
    requires at + 8 <= |flags| && done <= k <= 8 == |bs|
    requires (forall j | done <= j < k :: bs[j] == 0) && forall j | done <= j < k :: bs[j] == Masked(flags[at + j])
    ensures MarkedStarts(flags, at + k) == MarkedStarts(flags, at + done)
  {
    forall i | at + done <= i < at + k ensures Masked(flags[i]) == 0 {
      var j := i - at;
      assert bs[j] == 0 && bs[j] == Masked(flags[at + j]);
    }
    SkipUnmarked(flags, at + done, at + k);
  }

  lemma SkipMarked(flags: seq<Byte>, at: nat, done: nat, k: nat, bs: seq<Byte>)
    requires at + 8 <= |flags| && k < 8 == |bs| && done <= 8
    requires (forall j | 0 <= j < done :: bs[j] == 0) && forall j | done <= j < 8 :: bs[j] == Masked(flags[at + j])
    requires bs[k] != 0 && forall j | 0 <= j < k :: bs[j] == 0
    ensures done <= k && MarkedStarts(flags, at + k + 1) == MarkedStarts(flags, at + done) + if at + k > 0 then [at + k] else []
  {
    SkipZeros(flags, at, done, k, bs);
    assert Masked(flags[at + k]) != 0;
  }

  /** The entry and the marked instructions: words of eight flags, then those left. */
  method ScanFlags(flags: seq<Byte>) returns (start: seq<nat>)
    ensures start == MarkedStarts(flags, |flags|)
  {
    start := [0];
    var at := 0;
    while at + 8 <= |flags|
      invariant at <= |flags| && start == MarkedStarts(flags, at)
    {
      start := ScanWord(flags, at, start);
      at := at + 8;
    }
    while at < |flags|
      invariant at <= |flags| && start == MarkedStarts(flags, at)
    {
      if at > 0 && Masked(flags[at]) != 0 { start := start + [at]; }
      at := at + 1;
    }
  }
}
