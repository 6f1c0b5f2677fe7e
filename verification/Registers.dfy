/**
 The bytes known of the REGISTER space, as 8-byte registers by base offset: what a file of
 registers and a sorted list of them both hold.
 */
module Registers {
  import opened Numbers
  import opened Pcode
  import opened ByteConst

  /** The registers with a known byte. */
  type Regs = map<nat, ByteConst>

  ghost predicate Canonical(r: Regs) {
    forall b | b in r :: b % 8 == 0 && !IsUnknown(r[b])
  }

  function Slot(r: Regs, base: nat): ByteConst {
    if base in r then r[base] else UNKNOWN
  }

  function SetSlot(r: Regs, base: nat, v: ByteConst): Regs {
    if IsUnknown(v) then r - {base} else r[base := v]
  }

  function Base(offset: nat): nat {
    offset - offset % 8
  }

  /** It lies inside one register. */
  predicate Inside(offset: nat, size: nat) {
    size > 0 && offset % 8 + size <= 8
  }

  function Max(a: nat, b: nat): nat { if a > b then a else b }
  function Min(a: nat, b: nat): nat { if a < b then a else b }

  /** The end of an access, which saturates. */
  function End(offset: nat, size: nat): nat {
    Min(offset + Max(size, 1), U64_MAX)
  }

  /** The register at `b`, its bytes of `offset..end` forgotten. */
  function Forgotten(c: ByteConst, b: nat, offset: nat, end: nat): ByteConst {
    if Base(offset) <= b < end && offset < end then
      var lo, hi := Max(offset, b), Min(end, b + 8);
      Merge(c, lo - b, hi - lo, UNKNOWN)
    else c
  }

  function Read(r: Regs, offset: nat, size: nat): ByteConst {
    if Inside(offset, size) then BytesAt(Slot(r, Base(offset)), offset % 8, size) else UNKNOWN
  }

  function Forget(r: Regs, offset: nat, size: nat): Regs {
    map b | b in r && !IsUnknown(Forgotten(r[b], b, offset, End(offset, size))) :: Forgotten(r[b], b, offset, End(offset, size))
  }

  function Write(r: Regs, offset: nat, size: nat, v: ByteConst): Regs {
    if Inside(offset, size) then SetSlot(r, Base(offset), Merge(Slot(r, Base(offset)), offset % 8, size, v))
    else Forget(r, offset, size)
  }

  function Join(r: Regs, s: Regs): Regs {
    map b | b in r && b in s && !IsUnknown(Intersect(r[b], s[b])) :: Intersect(r[b], s[b])
  }

  // ---- byte by byte

  /** The byte at offset `o`, when known. */
  function At(r: Regs, o: nat): Option<Byte> {
    Slot(r, Base(o))[o % 8]
  }

  lemma ForgetKeepsCanonical(r: Regs, offset: nat, size: nat)
    requires Canonical(r)
    ensures Canonical(Forget(r, offset, size))
  {
  }

  lemma JoinKeepsCanonical(r: Regs, s: Regs)
    requires Canonical(r)
    ensures Canonical(Join(r, s))
  {
  }

  lemma BytesOfRegister(o: nat, b: nat)
    requires b % 8 == 0 && b <= o < b + 8
    ensures Base(o) == b && o % 8 == o - b
  {
  }

  /** A write sets the bytes it covers, to those written when it lies inside one register,
      to unknown otherwise, and no other. */
  lemma WriteAt(r: Regs, offset: nat, size: nat, v: ByteConst, o: nat)
    requires offset + Max(size, 1) <= U64_MAX
    ensures At(Write(r, offset, size, v), o) ==
      if offset <= o < offset + Max(size, 1) then (if Inside(offset, size) then v[o - offset] else None) else At(r, o)
  {
    if Inside(offset, size) {
      var b := Base(offset);
      if Base(o) == b {
        assert SetSlotHolds(r, b, Merge(Slot(r, b), offset % 8, size, v));
      }
    } else {
      ForgetAt(r, offset, size, o);
    }
  }

  lemma ForgetAt(r: Regs, offset: nat, size: nat, o: nat)
    requires offset + Max(size, 1) <= U64_MAX
    ensures At(Forget(r, offset, size), o) == if offset <= o < offset + Max(size, 1) then None else At(r, o)
  {
    var b, end := Base(o), End(offset, size);
    if b in r {
      assert Slot(Forget(r, offset, size), b)[o % 8] == Forgotten(r[b], b, offset, end)[o % 8];
    }
  }

  ghost predicate SetSlotHolds(r: Regs, b: nat, v: ByteConst) {
    Slot(SetSlot(r, b, v), b) == v
  }

  lemma JoinAt(r: Regs, s: Regs, o: nat)
    ensures At(Join(r, s), o) == if At(r, o) == At(s, o) then At(r, o) else None
  {
    var b := Base(o);
    if b in r && b in s {
      assert Slot(Join(r, s), b)[o % 8] == Intersect(r[b], s[b])[o % 8];
    }
  }

  lemma ReadAt(r: Regs, offset: nat, size: nat, i: nat)
    requires i < 8
    ensures Read(r, offset, size)[i] == if Inside(offset, size) && i < size then At(r, offset + i) else None
  {
    if Inside(offset, size) && i < size {
      BytesOfRegister(offset + i, Base(offset));
    }
  }

  /** Registers that know the same bytes are the same. */
  lemma SameRegs(r: Regs, s: Regs)
    requires Canonical(r) && Canonical(s) && forall o: nat :: At(r, o) == At(s, o)
    ensures r == s
  {
    forall b: nat | b % 8 == 0 ensures Slot(r, b) == Slot(s, b) {
      forall i | 0 <= i < 8 ensures Slot(r, b)[i] == Slot(s, b)[i] {
        BytesOfRegister(b + i, b);
        assert At(r, b + i) == At(s, b + i);
      }
    }
    SameSlots(r, s);
  }

  lemma SameSlots(r: Regs, s: Regs)
    requires Canonical(r) && Canonical(s) && forall c: nat | c % 8 == 0 :: Slot(r, c) == Slot(s, c)
    ensures r == s
  {
    forall b: nat ensures b in r <==> b in s {
      assert b in r ==> Slot(r, b) == Slot(s, b);
      assert b in s ==> Slot(r, b) == Slot(s, b);
    }
    forall b | b in r ensures r[b] == s[b] {
      assert Slot(r, b) == Slot(s, b);
    }
  }
}
