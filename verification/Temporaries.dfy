/**
 The bytes known of the other spaces (UNIQUE temporaries): entries of at most 8 bytes by
 space and offset, kept sorted.
 */
module Temporaries {
  import opened Pcode
  import opened ByteConst
  import opened AssocList

  const I64_MAX: int := 0x7fff_ffff_ffff_ffff
  const I64_MIN: int := -0x8000_0000_0000_0000

  type Key = (Space, int)
  type Temps = map<Key, (nat, ByteConst)>

  function SatAdd(o: int, n: nat): int {
    if o + n > I64_MAX then I64_MAX else o + n
  }

  function SatSub(o: int, n: nat): int {
    if o - n < I64_MIN then I64_MIN else o - n
  }

  function Wide(size: nat): nat {
    if size == 0 then 1 else size
  }

  /** An entry starting at `offset` at least as wide gives its low bytes. */
  function Read(t: Temps, space: Space, offset: int, size: nat): ByteConst {
    if (space, offset) in t && t[(space, offset)].0 >= size then Trunc(t[(space, offset)].1, size) else UNKNOWN
  }

  /** The entry `k`, `e` does not overlap `size` bytes written at `offset`. */
  predicate Apart(k: Key, e: (nat, ByteConst), space: Space, offset: int, size: nat) {
    || k.0 != space || k.1 < SatSub(offset, 8) || k.1 >= SatAdd(offset, Wide(size))
    || SatAdd(k.1, e.0) <= offset
  }

  function ApartFrom(space: Space, offset: int, size: nat): (Key, (nat, ByteConst)) -> bool {
    (k, e) => Apart(k, e, space, offset, size)
  }

  /** Every entry a write overlaps is forgotten. */
  function Write(t: Temps, space: Space, offset: int, size: nat, v: ByteConst): Temps {
    var kept := FilterMap(t, ApartFrom(space, offset, size));
    if size <= 8 && !IsUnknown(Trunc(v, size)) then kept[(space, offset) := (size, Trunc(v, size))] else kept
  }

  /** Entries of both, of the same size. */
  function Join(a: Temps, b: Temps): Temps {
    map k | k in a && k in b && a[k].0 == b[k].0 && !IsUnknown(Intersect(a[k].1, b[k].1)) ::
      (a[k].0, Intersect(a[k].1, b[k].1))
  }

  // ---- what the entries keep

  /** From 1 to 8 bytes wide, with a byte known and none past the width. */
  ghost predicate Fits(e: (nat, ByteConst)) {
    1 <= e.0 <= 8 && !IsUnknown(e.1) && forall i | e.0 <= i < 8 :: e.1[i] == None
  }

  /** An offset of 64 bits, with its sign. */
  predicate IsOffset(o: int) {
    I64_MIN <= o <= I64_MAX
  }

  /** The bytes of one are not those of the other, up to the end of the offsets. */
  ghost predicate Disjoint(k: Key, m: nat, l: Key, n: nat) {
    k.0 != l.0 || SatAdd(k.1, m) <= l.1 || SatAdd(l.1, n) <= k.1
  }

  ghost predicate Valid(t: Temps) {
    && (forall k | k in t :: Fits(t[k]) && IsOffset(k.1))
    && (forall k, l | k in t && l in t && k != l :: Disjoint(k, t[k].0, l, t[l].0))
  }

  lemma TruncFits(v: ByteConst, size: nat)
    requires size <= 8 && !IsUnknown(Trunc(v, size))
    ensures Fits((size, Trunc(v, size)))
  {
    assert size == 0 ==> IsUnknown(Trunc(v, size));
  }

  lemma ApartIsDisjoint(k: Key, e: (nat, ByteConst), space: Space, offset: int, size: nat)
    requires 1 <= e.0 <= 8 && IsOffset(k.1) && IsOffset(offset)
    ensures Apart(k, e, space, offset, size) <==> Disjoint(k, e.0, (space, offset), Wide(size))
  {
  }

  /** The entries stay narrow and disjoint. */
  lemma WriteKeepsValid(t: Temps, space: Space, offset: int, size: nat, v: ByteConst)
    requires Valid(t) && IsOffset(offset)
    ensures Valid(Write(t, space, offset, size, v))
  {
    var r, at := Write(t, space, offset, size, v), (space, offset);
    if size <= 8 && !IsUnknown(Trunc(v, size)) {
      TruncFits(v, size);
      forall k | k in r && k != at ensures Disjoint(k, r[k].0, at, size) {
        ApartIsDisjoint(k, t[k], space, offset, size);
      }
    }
  }

  lemma JoinKeepsValid(a: Temps, b: Temps)
    requires Valid(a) && Valid(b)
    ensures Valid(Join(a, b))
  {
    forall k | k in Join(a, b) ensures Fits(Join(a, b)[k]) {
      assert Fits(a[k]);
    }
  }

  /** What the entries know is so of the memory `mem`. */
  ghost predicate Describes(t: Temps, mem: (Space, int) -> Byte) {
    forall k | k in t :: DescribesEntry(k, t[k], mem)
  }

  ghost predicate DescribesEntry(k: Key, e: (nat, ByteConst), mem: (Space, int) -> Byte) {
    forall i | 0 <= i < 8 && e.1[i].Some? :: i < e.0 && mem(k.0, k.1 + i) == e.1[i].value
  }

  /** After a write of `v` no byte is stale: the entries describe any memory that holds what
      was written there and is as before elsewhere in their spaces. */
  lemma NeverStale(t: Temps, space: Space, offset: int, size: nat, v: ByteConst, mem: (Space, int) -> Byte, mem': (Space, int) -> Byte)
    requires Describes(t, mem) && I64_MIN <= offset && offset + Wide(size) <= I64_MAX
    requires forall k | k in t :: I64_MIN <= k.1 && k.1 + t[k].0 <= I64_MAX
    requires forall i | 0 <= i < 8 && i < size && v[i].Some? :: mem'(space, offset + i) == v[i].value
    requires forall s, o | s in Spaces(t) && !(s == space && offset <= o < offset + Wide(size)) :: mem'(s, o) == mem(s, o)
    ensures Describes(Write(t, space, offset, size, v), mem')
  {
    var r, at := Write(t, space, offset, size, v), (space, offset);
    forall k | k in r ensures DescribesEntry(k, r[k], mem') {
      if !(size <= 8 && !IsUnknown(Trunc(v, size)) && k == at) {
        KeptDescribes(t, k, space, offset, size, mem, mem');
      }
    }
  }

  lemma KeptDescribes(t: Temps, k: Key, space: Space, offset: int, size: nat, mem: (Space, int) -> Byte, mem': (Space, int) -> Byte)
    requires k in t && DescribesEntry(k, t[k], mem) && I64_MIN <= k.1 && k.1 + t[k].0 <= I64_MAX
    requires I64_MIN <= offset && offset + Wide(size) <= I64_MAX && Apart(k, t[k], space, offset, size)
    requires forall s, o | s in Spaces(t) && !(s == space && offset <= o < offset + Wide(size)) :: mem'(s, o) == mem(s, o)
    ensures DescribesEntry(k, t[k], mem')
  {
    var e := t[k];
    forall i | 0 <= i < 8 && e.1[i].Some? ensures i < e.0 && mem'(k.0, k.1 + i) == e.1[i].value {
      assert k.0 in Spaces(t);
    }
  }

  /** The spaces of the entries. */
  ghost function Spaces(t: Temps): set<Space> {
    set k | k in t :: k.0
  }

  lemma JoinDescribes(a: Temps, b: Temps, mem: (Space, int) -> Byte)
    requires Describes(a, mem) || Describes(b, mem)
    ensures Describes(Join(a, b), mem)
  {
    forall k | k in Join(a, b) ensures DescribesEntry(k, Join(a, b)[k], mem) {
      assert Describes(a, mem) ==> DescribesEntry(k, a[k], mem);
      assert Describes(b, mem) ==> DescribesEntry(k, b[k], mem);
    }
  }

  /** A byte read as known is the one in memory. */
  lemma ReadDescribes(t: Temps, space: Space, offset: int, size: nat, mem: (Space, int) -> Byte, i: nat)
    requires Describes(t, mem) && i < 8 && Read(t, space, offset, size)[i].Some?
    ensures i < size && mem(space, offset + i) == Read(t, space, offset, size)[i].value
  {
    assert DescribesEntry((space, offset), t[(space, offset)], mem);
  }

  /** What is written is read back, as far as it is known. */
  lemma ReadBack(t: Temps, space: Space, offset: int, size: nat, v: ByteConst)
    requires Valid(t) && IsOffset(offset) && IsOffset(offset + Wide(size)) && 1 <= size <= 8
    ensures Read(Write(t, space, offset, size, v), space, offset, size) == Trunc(v, size)
  {
    var at, r := (space, offset), Write(t, space, offset, size, v);
    if IsUnknown(Trunc(v, size)) {
      assert at in t ==> Fits(t[at]) && !Apart(at, t[at], space, offset, size);
      assert at !in r;
      assert Trunc(v, size) == UNKNOWN;
    } else {
      assert r[at] == (size, Trunc(v, size));
      assert Trunc(Trunc(v, size), size) == Trunc(v, size);
    }
  }
}
