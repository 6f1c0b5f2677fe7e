/**
 The two ways the known registers are kept: fixed arrays for the general-purpose registers and
 the flags with a map for the rest, and a list sorted by base offset. Both hold the same
 registers after the same operations.
 */
module RegisterFiles {
  import opened Numbers
  import opened Pcode
  import opened ByteConst
  import opened Registers
  import opened AssocList

  const GPR_END: nat := 0xc0
  const FLAGS_BASE: nat := 0x200
  const FLAGS_END: nat := 0x220

  /** The access ends before the last register of the space: stepping past that one would run past
      the end of the numbers. */
  predicate EndsInRange(offset: nat, size: nat) {
    End(offset, size) + 8 <= TWO64
  }

  /** Only an access wider than a register steps from one to the next. */
  predicate InRange(offset: nat, size: nat) {
    Inside(offset, size) || EndsInRange(offset, size)
  }

  /** What is left of the register at `c` when those before `b` that `offset..end` touches
      are forgotten. */
  ghost function Left(r: Regs, offset: nat, end: nat, b: nat, c: nat): ByteConst {
    if c < b then Forgotten(Slot(r, c), c, offset, end) else Slot(r, c)
  }

  ghost predicate ForgotBelow(r: Regs, s: Regs, offset: nat, end: nat, b: nat) {
    forall c: nat | c % 8 == 0 :: Slot(s, c) == Left(r, offset, end, b, c)
  }

  lemma SlotSet(r: Regs, b: nat, v: ByteConst, c: nat)
    ensures Slot(SetSlot(r, b, v), c) == if c == b then v else Slot(r, c)
  {
    UnknownIs(v);
  }

  lemma ForgetNext(r: Regs, s: Regs, offset: nat, end: nat, b: nat)
    requires ForgotBelow(r, s, offset, end, b) && b % 8 == 0
    ensures ForgotBelow(r, SetSlot(s, b, Forgotten(Slot(s, b), b, offset, end)), offset, end, b + 8)
  {
    var v := Forgotten(Slot(s, b), b, offset, end);
    assert Slot(s, b) == Left(r, offset, end, b, b);
    forall c: nat | c % 8 == 0 ensures Slot(SetSlot(s, b, v), c) == Left(r, offset, end, b + 8, c) {
      SlotSet(s, b, v, c);
      assert Slot(s, c) == Left(r, offset, end, b, c);
      assert c < b + 8 <==> c <= b;
    }
  }

  lemma ForgetAll(r: Regs, s: Regs, offset: nat, size: nat, b: nat)
    requires Canonical(r) && Canonical(s) && b >= End(offset, size) && ForgotBelow(r, s, offset, End(offset, size), b)
    ensures s == Forget(r, offset, size)
  {
    var t, end := Forget(r, offset, size), End(offset, size);
    ForgetKeepsCanonical(r, offset, size);
    forall c: nat | c % 8 == 0 ensures Slot(s, c) == Slot(t, c) {
      assert Slot(s, c) == Left(r, offset, end, b, c);
      UnknownIs(Forgotten(Slot(r, c), c, offset, end));
      assert c !in r ==> Slot(r, c) == UNKNOWN && Forgotten(UNKNOWN, c, offset, end) == UNKNOWN;
    }
    SameSlots(s, t);
  }

  class RegFile {
    const gpr: array<ByteConst>
    const flags: array<ByteConst>
    var other: map<nat, ByteConst>
    ghost var regs: Regs

    /** The register at `base`. */
    function SlotAt(base: nat): ByteConst
      requires gpr.Length == 24 && flags.Length == 4
      reads this, gpr, flags
    {
      if base < GPR_END then gpr[base / 8]
      else if FLAGS_BASE <= base < FLAGS_END then flags[(base - FLAGS_BASE) / 8]
      else if base in other then other[base] else UNKNOWN
    }

    ghost predicate Valid()
      reads this, gpr, flags
    {
      && gpr.Length == 24 && flags.Length == 4 && gpr != flags
      && Canonical(other) && (forall b | b in other :: b >= GPR_END && !(FLAGS_BASE <= b < FLAGS_END))
      && Canonical(regs) && (forall b: nat | b % 8 == 0 :: SlotAt(b) == Slot(regs, b))
    }

    constructor ()
      ensures Valid() && regs == map[] && fresh(gpr) && fresh(flags)
    {
      gpr := new ByteConst[24](_ => UNKNOWN);
      flags := new ByteConst[4](_ => UNKNOWN);
      other := map[];
      regs := map[];
    }

    method SetSlotAt(base: nat, v: ByteConst)
      requires Valid() && base % 8 == 0
      modifies this, gpr, flags
      ensures Valid() && regs == SetSlot(old(regs), base, v)
    {
      if base < GPR_END {
        gpr[base / 8] := v;
      } else if FLAGS_BASE <= base < FLAGS_END {
        flags[(base - FLAGS_BASE) / 8] := v;
      } else if IsUnknown(v) {
        other := other - {base};
      } else {
        other := other[base := v];
      }
      regs := SetSlot(regs, base, v);
      forall b: nat | b % 8 == 0 ensures SlotAt(b) == Slot(regs, b) {
        assert old(SlotAt(b)) == Slot(old(regs), b);
        assert b != base ==> Slot(regs, b) == Slot(old(regs), b);
        UnknownIs(v);
        SameIndex(b, base);
      }
    }

    method Read(offset: nat, size: nat) returns (v: ByteConst)
      requires Valid()
      ensures v == Registers.Read(regs, offset, size)
    {
      if Inside(offset, size) {
        v := BytesAt(SlotAt(Base(offset)), offset % 8, size);
      } else {
        v := UNKNOWN;
      }
    }

    method Write(offset: nat, size: nat, v: ByteConst)
      requires Valid() && InRange(offset, size)
      modifies this, gpr, flags
      ensures Valid() && regs == Registers.Write(old(regs), offset, size, v)
    {
      if Inside(offset, size) {
        SetSlotAt(Base(offset), Merge(SlotAt(Base(offset)), offset % 8, size, v));
      } else {
        Forget(offset, size);
      }
    }

    /** Register by register, from the one the access starts in. */
    method Forget(offset: nat, size: nat)
      requires Valid() && EndsInRange(offset, size)
      modifies this, gpr, flags
      ensures Valid() && regs == Registers.Forget(old(regs), offset, size)
    {
      var end, b := End(offset, size), Base(offset);
      while b < end
        invariant b % 8 == 0 && b >= Base(offset) && Valid()
        invariant ForgotBelow(old(regs), regs, offset, end, b)
        decreases end - b
      {
        ForgetNext(old(regs), regs, offset, end, b);
        ForgetOne(offset, end, b);
        b := b + 8;
      }
      ForgetAll(old(regs), regs, offset, size, b);
    }

    method Clear()
      requires Valid()
      modifies this, gpr, flags
      ensures Valid() && regs == map[]
    {
      Fill(gpr);
      Fill(flags);
      other := map[];
      regs := map[];
    }

    /** A byte of the result is known when both know it with the same value. */
    method Join(o: RegFile) returns (out: RegFile)
      requires Valid() && o.Valid()
      ensures fresh(out) && out.Valid() && out.regs == Registers.Join(regs, o.regs)
    {
      out := new RegFile();
      JoinArrays(gpr, o.gpr, out.gpr);
      JoinArrays(flags, o.flags, out.flags);
      out.other := Registers.Join(other, o.other);
      out.regs := Registers.Join(regs, o.regs);
      JoinKeepsCanonical(regs, o.regs);
      JoinKeepsCanonical(other, o.other);
      forall b: nat | b % 8 == 0 ensures out.SlotAt(b) == Slot(out.regs, b) {
        SlotJoined(regs, o.regs, b);
        SlotJoined(other, o.other, b);
        assert SlotAt(b) == Slot(regs, b) && o.SlotAt(b) == Slot(o.regs, b);
      }
    }

    method ForgetOne(offset: nat, end: nat, b: nat)
      requires Valid() && b % 8 == 0 && Base(offset) <= b < end && offset < end
      modifies this, gpr, flags
      ensures Valid() && regs == SetSlot(old(regs), b, Forgotten(Slot(old(regs), b), b, offset, end))
    {
      var c := Cut(SlotAt(b), b, offset, end);
      SetSlotAt(b, c);
    }
  }

  method Fill(a: array<ByteConst>)
    modifies a
    ensures forall i | 0 <= i < a.Length :: a[i] == UNKNOWN
  {
    for i := 0 to a.Length
      invariant forall j | 0 <= j < i :: a[j] == UNKNOWN
    {
      a[i] := UNKNOWN;
    }
  }

  method JoinArrays(a: array<ByteConst>, b: array<ByteConst>, out: array<ByteConst>)
    requires a.Length == b.Length == out.Length && out != a && out != b
    modifies out
    ensures forall i | 0 <= i < out.Length :: out[i] == Intersect(a[i], b[i])
  {
    for i := 0 to out.Length
      invariant forall j | 0 <= j < i :: out[j] == Intersect(a[j], b[j])
    {
      out[i] := Intersect(a[i], b[i]);
    }
  }

  lemma SlotJoined(r: Regs, s: Regs, b: nat)
    ensures Slot(Join(r, s), b) == Intersect(Slot(r, b), Slot(s, b))
  {
    if b in r && b in s {
      UnknownIs(Intersect(r[b], s[b]));
    } else {
      forall i | 0 <= i < 8 ensures Intersect(Slot(r, b), Slot(s, b))[i] == None {
      }
      UnknownIs(Intersect(Slot(r, b), Slot(s, b)));
    }
  }

  lemma UnknownIs(v: ByteConst)
    ensures IsUnknown(v) <==> v == UNKNOWN
  {
    if IsUnknown(v) { assert v == UNKNOWN; }
  }

  lemma SameIndex(a: nat, b: nat)
    requires a % 8 == 0 && b % 8 == 0
    ensures a / 8 == b / 8 <==> a == b
    ensures a >= FLAGS_BASE && b >= FLAGS_BASE ==> ((a - FLAGS_BASE) / 8 == (b - FLAGS_BASE) / 8 <==> a == b)
  {
  }

  // ---- the sorted list

  predicate Less(a: nat, b: nat) {
    a < b
  }

  lemma LessOrders()
    ensures Ordered(Less)
  {
  }

  /** `l` lists the registers of `r`, by base. */
  ghost predicate Lists(l: seq<(nat, ByteConst)>, r: Regs) {
    Sorted(l, Less) && Canonical(r) && MapOf(l) == r
  }

  /** Lists compare as the registers do. */
  lemma SameList(l: seq<(nat, ByteConst)>, r: Regs, m: seq<(nat, ByteConst)>, s: Regs)
    requires Lists(l, r) && Lists(m, s)
    ensures l == m <==> r == s
  {
    LessOrders();
    if r == s { SortedUnique(l, m, Less); }
  }

  class RegList {
    var list: seq<(nat, ByteConst)>
    ghost var regs: Regs

    ghost predicate Valid()
      reads this
    {
      Lists(list, regs)
    }

    constructor ()
      ensures Valid() && regs == map[]
    {
      list := [];
      regs := map[];
    }

    method Read(offset: nat, size: nat) returns (v: ByteConst)
      requires Valid()
      ensures v == Registers.Read(regs, offset, size)
    {
      v := UNKNOWN;
      if Inside(offset, size) {
        var k := Skip(list, 0, Base(offset));
        var c := if k < |list| && list[k].0 == Base(offset) then list[k].1 else UNKNOWN;
        v := BytesAt(c, offset % 8, size);
      }
    }

    /** The register found once and its bytes replaced: removed when none is known. */
    method Write(offset: nat, size: nat, v: ByteConst)
      requires Valid() && InRange(offset, size)
      modifies this
      ensures Valid() && regs == Registers.Write(old(regs), offset, size, v)
    {
      if !Inside(offset, size) {
        Forget(offset, size);
        return;
      }
      var base, pos := Base(offset), offset % 8;
      var k := Skip(list, 0, base);
      if k < |list| && list[k].0 == base {
        SetAt(k, base, Merge(list[k].1, pos, size, v));
      } else {
        NothingWritten(pos, size, v);
        if !IsUnknown(Trunc(v, size)) {
          SetAt(k, base, Merge(UNKNOWN, pos, size, v));
        }
      }
    }

    method SetAt(k: nat, base: nat, next: ByteConst)
      requires Valid() && base % 8 == 0 && IsPlace(list, Less, base, k)
      requires (k < |list| && list[k].0 == base) || !IsUnknown(next)
      modifies this
      ensures Valid() && regs == SetSlot(old(regs), base, next)
    {
      LessOrders();
      if IsUnknown(next) {
        RemoveAt(list, Less, k);
        list := list[..k] + list[k + 1..];
      } else {
        PutAt(list, Less, base, k, next);
        list := if k < |list| && list[k].0 == base then list[k := (base, next)] else list[..k] + [(base, next)] + list[k..];
      }
      regs := SetSlot(regs, base, next);
    }

    method Forget(offset: nat, size: nat)
      requires Valid() && EndsInRange(offset, size)
      modifies this
      ensures Valid() && regs == Registers.Forget(old(regs), offset, size)
    {
      list := ForgetListed(list, offset, size);
      ForgetKeepsCanonical(regs, offset, size);
      regs := Registers.Forget(regs, offset, size);
    }

    method Clear()
      modifies this
      ensures Valid() && regs == map[]
    {
      list := [];
      regs := map[];
    }

    /** Both lists walked once, side by side. */
    method Join(o: RegList) returns (out: RegList)
      requires Valid() && o.Valid()
      ensures fresh(out) && out.Valid() && out.regs == Registers.Join(regs, o.regs)
    {
      var l := JoinListed(list, o.list, o.regs);
      JoinKeepsCanonical(regs, o.regs);
      out := new RegList();
      out.list := l;
      out.regs := Registers.Join(regs, o.regs);
    }
  }

  /** The place of `base`, which is not before `from`: the first register not before it. */
  method Skip(l: seq<(nat, ByteConst)>, from: nat, base: nat) returns (k: nat)
    requires Sorted(l, Less) && from <= |l| && forall j | 0 <= j < from :: l[j].0 < base
    ensures from <= k <= |l| && IsPlace(l, Less, base, k)
    ensures base in MapOf(l) <==> k < |l| && l[k].0 == base
    ensures base in MapOf(l) ==> MapOf(l)[base] == l[k].1
  {
    k := from;
    while k < |l| && l[k].0 < base
      invariant from <= k <= |l| && forall i | 0 <= i < k :: Less(l[i].0, base)
    {
      k := k + 1;
    }
    LessOrders();
    AtPlace(l, Less, base, k);
  }

  method JoinListed(l: seq<(nat, ByteConst)>, m: seq<(nat, ByteConst)>, ghost s: Regs) returns (out: seq<(nat, ByteConst)>)
    requires Sorted(l, Less) && Lists(m, s)
    ensures Sorted(out, Less) && MapOf(out) == Join(MapOf(l), s)
  {
    out := [];
    var i, k := 0, 0;
    while i < |l|
      invariant 0 <= i <= |l| && 0 <= k <= |m|
      invariant ListsFirst(out, l, i, Join(MapOf(l[..i]), s))
      invariant forall j | 0 <= j < k && i < |l| :: m[j].0 < l[i].0
    {
      var base := l[i].0;
      k := Skip(m, k, base);
      if k == |m| {
        JoinsNone(l, i, m, s);
        return;
      }
      JoinsNext(l, i, out, s);
      if m[k].0 == base {
        var j := Intersect(l[i].1, m[k].1);
        if !IsUnknown(j) {
          out := out + [(base, j)];
        }
      }
      assert i + 1 < |l| ==> Less(base, l[i + 1].0);
      i := i + 1;
    }
    assert l[..i] == l;
  }

  method ForgetListed(l: seq<(nat, ByteConst)>, offset: nat, size: nat) returns (out: seq<(nat, ByteConst)>)
    requires Sorted(l, Less) && EndsInRange(offset, size)
    ensures Sorted(out, Less) && MapOf(out) == Forget(MapOf(l), offset, size)
  {
    var end, lo := End(offset, size), Base(offset);
    out := [];
    var k := 0;
    while k < |l|
      invariant 0 <= k <= |l| && ListsFirst(out, l, k, Forget(MapOf(l[..k]), offset, size))
    {
      var b, c := l[k].0, l[k].1;
      if lo <= b < end {
        c := Cut(c, b, offset, end);
      }
      ForgetsNext(l, k, out, offset, size);
      if !IsUnknown(c) {
        out := out + [(b, c)];
      }
      k := k + 1;
    }
    assert l[..k] == l;
  }

  /** The bytes `offset..end` of the register at `b` forgotten. */
  method Cut(c: ByteConst, b: nat, offset: nat, end: nat) returns (r: ByteConst)
    requires Base(offset) <= b < end && offset < end
    ensures r == Forgotten(c, b, offset, end)
  {
    var from, upto := Max(offset, b), Min(end, b + 8);
    r := Merge(c, from - b, upto - from, UNKNOWN);
  }

  /** `out` lists `r`, which has bases of the first `k` registers of `l` only. */
  ghost predicate ListsFirst(out: seq<(nat, ByteConst)>, l: seq<(nat, ByteConst)>, k: nat, r: Regs) {
    && Sorted(out, Less) && MapOf(out) == r
    && forall i | 0 <= i < |out| && k < |l| :: Less(out[i].0, l[k].0)
  }

  lemma ListsNext(out: seq<(nat, ByteConst)>, l: seq<(nat, ByteConst)>, k: nat, r: Regs, c: ByteConst)
    requires Sorted(l, Less) && k < |l| && ListsFirst(out, l, k, r)
    ensures ListsFirst(out, l, k + 1, r)
    ensures ListsFirst(out + [(l[k].0, c)], l, k + 1, r[l[k].0 := c])
  {
    PushSorted(out, Less, l[k].0, c);
    assert k + 1 < |l| ==> Less(l[k].0, l[k + 1].0);
  }

  lemma NothingWritten(pos: nat, size: nat, v: ByteConst)
    requires pos + size <= 8
    ensures IsUnknown(Trunc(v, size)) <==> IsUnknown(Merge(UNKNOWN, pos, size, v))
  {
    var t, m := Trunc(v, size), Merge(UNKNOWN, pos, size, v);
    assert forall i | 0 <= i < size :: m[pos + i] == v[i] && t[i] == v[i];
    if IsUnknown(t) {
      forall i | 0 <= i < 8 ensures m[i] == None {
        assert pos <= i < pos + size ==> m[i] == t[i - pos];
      }
    }
    if IsUnknown(m) {
      forall i | 0 <= i < 8 ensures t[i] == None {
        assert i < size ==> t[i] == m[pos + i];
      }
    }
  }

  /** Forgetting in one register more. */
  lemma ForgetsNext(l: seq<(nat, ByteConst)>, k: nat, out: seq<(nat, ByteConst)>, offset: nat, size: nat)
    requires k < |l| && Sorted(l, Less) && ListsFirst(out, l, k, Forget(MapOf(l[..k]), offset, size))
    ensures var b := l[k].0;
      var c := Forgotten(l[k].1, b, offset, End(offset, size));
      ListsFirst(if IsUnknown(c) then out else out + [(b, c)], l, k + 1, Forget(MapOf(l[..k + 1]), offset, size))
  {
    assert l[..k + 1][..k] == l[..k];
    HasIff(l[..k], l[k].0);
    var m, c := MapOf(l[..k]), Forgotten(l[k].1, l[k].0, offset, End(offset, size));
    ForgetPut(m, l[k].0, l[k].1, offset, size);
    ListsNext(out, l, k, Forget(m, offset, size), c);
  }

  lemma ForgetPut(m: Regs, b: nat, v: ByteConst, offset: nat, size: nat)
    requires b !in m
    ensures var c := Forgotten(v, b, offset, End(offset, size));
      Forget(m[b := v], offset, size) == if IsUnknown(c) then Forget(m, offset, size) else Forget(m, offset, size)[b := c]
  {
  }

  /** Joining one register more. */
  lemma JoinsNext(l: seq<(nat, ByteConst)>, k: nat, out: seq<(nat, ByteConst)>, s: Regs)
    requires k < |l| && Sorted(l, Less) && ListsFirst(out, l, k, Join(MapOf(l[..k]), s))
    ensures var b := l[k].0;
      ListsFirst(if b in s && !IsUnknown(Intersect(l[k].1, s[b])) then out + [(b, Intersect(l[k].1, s[b]))] else out,
                 l, k + 1, Join(MapOf(l[..k + 1]), s))
  {
    assert l[..k + 1][..k] == l[..k];
    HasIff(l[..k], l[k].0);
    var m, b := MapOf(l[..k]), l[k].0;
    JoinPut(m, b, l[k].1, s);
    ListsNext(out, l, k, Join(m, s), if b in s then Intersect(l[k].1, s[b]) else UNKNOWN);
  }

  lemma JoinPut(m: Regs, b: nat, v: ByteConst, s: Regs)
    requires b !in m
    ensures Join(m[b := v], s) == if b in s && !IsUnknown(Intersect(v, s[b])) then Join(m, s)[b := Intersect(v, s[b])] else Join(m, s)
  {
  }

  /** The registers from `k` on join nothing when the other list has ended before them. */
  lemma JoinsNone(l: seq<(nat, ByteConst)>, k: nat, m: seq<(nat, ByteConst)>, s: Regs)
    requires k < |l| && Sorted(l, Less) && Lists(m, s) && forall j | 0 <= j < |m| :: m[j].0 < l[k].0
    ensures Join(MapOf(l), s) == Join(MapOf(l[..k]), s)
  {
    assert l == l[..k] + l[k..];
    MapOfConcat(l[..k], l[k..]);
    NoneAfter(l, k, m, s);
    JoinIgnores(MapOf(l[..k]), MapOf(l[k..]), s);
  }

  lemma NoneAfter(l: seq<(nat, ByteConst)>, k: nat, m: seq<(nat, ByteConst)>, s: Regs)
    requires k < |l| && Sorted(l, Less) && Lists(m, s) && forall j | 0 <= j < |m| :: m[j].0 < l[k].0
    ensures forall b | b in MapOf(l[k..]) :: b !in s
  {
    forall b | b in MapOf(l[k..]) ensures b !in s {
      HasIff(l[k..], b);
      HasIff(m, b);
      var i :| 0 <= i < |l[k..]| && l[k..][i].0 == b;
      assert i > 0 ==> Less(l[k].0, l[k + i].0);
    }
  }

  lemma JoinIgnores(r: Regs, more: Regs, s: Regs)
    requires forall b | b in more :: b !in s
    ensures Join(r + more, s) == Join(r, s)
  {
  }
}
