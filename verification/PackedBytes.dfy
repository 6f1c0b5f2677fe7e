/**
 A value's bytes in packed form: a 64-bit word and a mask with a bit for each byte known.
 */
module PackedBytes {
  import opened Pcode
  import opened ByteConst

  /** The bits of the bytes a mask has. */
  function BitsOf(k: bv8): bv64 {
    (if k & 1 != 0 then 0xff else 0) |
    (if k & 2 != 0 then 0xff00 else 0) |
    (if k & 4 != 0 then 0xff0000 else 0) |
    (if k & 8 != 0 then 0xff000000 else 0) |
    (if k & 16 != 0 then 0xff00000000 else 0) |
    (if k & 32 != 0 then 0xff0000000000 else 0) |
    (if k & 64 != 0 then 0xff000000000000 else 0) |
    (if k & 128 != 0 then 0xff00000000000000 else 0)
  }

  /** The mask of the bytes that are not zero, all eight found at once: the high bit of each
      byte set when it is not zero, then gathered by a multiplication. */
  function NonzeroBytes(x: bv64): (r: bv8)
    ensures r & 1 != 0 <==> x & 0xff != 0
    ensures r & 2 != 0 <==> (x >> 8) & 0xff != 0
    ensures r & 4 != 0 <==> (x >> 16) & 0xff != 0
    ensures r & 8 != 0 <==> (x >> 24) & 0xff != 0
    ensures r & 16 != 0 <==> (x >> 32) & 0xff != 0
    ensures r & 32 != 0 <==> (x >> 40) & 0xff != 0
    ensures r & 64 != 0 <==> (x >> 48) & 0xff != 0
    ensures r & 128 != 0 <==> (x >> 56) & 0xff != 0
  {
    var low7: bv64 := 0x7f7f_7f7f_7f7f_7f7f;
    var high := (((x & low7) + low7) | x) & !low7;
    (((high >> 7) * 0x0102_0408_1020_4080) >> 56) as bv8
  }

  /** The bytes two packed values both know, with the same value. */
  function IntersectKnown(a: bv64, ak: bv8, b: bv64, bk: bv8): (r: bv8)
    ensures IsBoth(a, ak, b, bk, r)
  {
    var both := ak & bk;
    both & !NonzeroBytes((a ^ b) & BitsOf(both))
  }

  // ---- the bytes a packed value holds

  /** The low byte of a word. */
  function LowByte(x: bv64): Byte {
    ByteBound(x & 0xff);
    (x & 0xff) as nat
  }

  lemma ByteBound(x: bv64)
    requires x < 256
    ensures x as nat < 256
  {
  }

  lemma SameNumber(x: bv64, y: bv64)
    requires x < 256 && y < 256
    ensures x as nat == y as nat <==> x == y
  {
  }

  lemma SameByte(x: bv64, y: bv64)
    ensures LowByte(x) == LowByte(y) <==> x & 0xff == y & 0xff
  {
    SameNumber(x & 0xff, y & 0xff);
  }

  function ByteOf(x: bv64, known: bool): Option<Byte> {
    if known then Some(LowByte(x)) else None
  }

  /** The bytes of the value `x` that the mask `k` has, the low one first. */
  function Unpack(x: bv64, k: bv8): ByteConst {
    [ByteOf(x, k & 1 != 0),
     ByteOf(x >> 8, k & 2 != 0),
     ByteOf(x >> 16, k & 4 != 0),
     ByteOf(x >> 24, k & 8 != 0),
     ByteOf(x >> 32, k & 16 != 0),
     ByteOf(x >> 40, k & 32 != 0),
     ByteOf(x >> 48, k & 64 != 0),
     ByteOf(x >> 56, k & 128 != 0)]
  }

  /** `x` with the bytes the mask `k` does not have cleared. */
  ghost predicate Cleared(x: bv64, k: bv8, y: bv64) {
    && (k & 1 != 0 ==> y & 0xff == x & 0xff)
    && (k & 2 != 0 ==> (y >> 8) & 0xff == (x >> 8) & 0xff)
    && (k & 4 != 0 ==> (y >> 16) & 0xff == (x >> 16) & 0xff)
    && (k & 8 != 0 ==> (y >> 24) & 0xff == (x >> 24) & 0xff)
    && (k & 16 != 0 ==> (y >> 32) & 0xff == (x >> 32) & 0xff)
    && (k & 32 != 0 ==> (y >> 40) & 0xff == (x >> 40) & 0xff)
    && (k & 64 != 0 ==> (y >> 48) & 0xff == (x >> 48) & 0xff)
    && (k & 128 != 0 ==> (y >> 56) & 0xff == (x >> 56) & 0xff)
  }

  lemma ClearedBits(x: bv64, k: bv8)
    ensures Cleared(x, k, x & BitsOf(k))
  {
  }

  /** The mask `r` has the bytes that both `a` and `b` know, with the same value. */
  ghost predicate IsBoth(a: bv64, ak: bv8, b: bv64, bk: bv8, r: bv8) {
    && (r & 1 != 0 <==> ak & 1 != 0 && bk & 1 != 0 && a & 0xff == b & 0xff)
    && (r & 2 != 0 <==> ak & 2 != 0 && bk & 2 != 0 && (a >> 8) & 0xff == (b >> 8) & 0xff)
    && (r & 4 != 0 <==> ak & 4 != 0 && bk & 4 != 0 && (a >> 16) & 0xff == (b >> 16) & 0xff)
    && (r & 8 != 0 <==> ak & 8 != 0 && bk & 8 != 0 && (a >> 24) & 0xff == (b >> 24) & 0xff)
    && (r & 16 != 0 <==> ak & 16 != 0 && bk & 16 != 0 && (a >> 32) & 0xff == (b >> 32) & 0xff)
    && (r & 32 != 0 <==> ak & 32 != 0 && bk & 32 != 0 && (a >> 40) & 0xff == (b >> 40) & 0xff)
    && (r & 64 != 0 <==> ak & 64 != 0 && bk & 64 != 0 && (a >> 48) & 0xff == (b >> 48) & 0xff)
    && (r & 128 != 0 <==> ak & 128 != 0 && bk & 128 != 0 && (a >> 56) & 0xff == (b >> 56) & 0xff)
  }

  lemma OneByte(y: bv64, rk: bool, a: bv64, ak: bool, b: bv64, bk: bool)
    requires (rk <==> ak && bk && a & 0xff == b & 0xff) && (rk ==> y & 0xff == a & 0xff)
    ensures ByteOf(y, rk) == if ByteOf(a, ak) == ByteOf(b, bk) then ByteOf(a, ak) else None
  {
    SameByte(a, b);
    SameByte(y, a);
  }

  type Known = Option<Byte>

  /** Eight bytes known when both know them with the same value. */
  lemma EachByte(r0: Known, r1: Known, r2: Known, r3: Known, r4: Known, r5: Known, r6: Known, r7: Known,
      a0: Known, a1: Known, a2: Known, a3: Known, a4: Known, a5: Known, a6: Known, a7: Known,
      b0: Known, b1: Known, b2: Known, b3: Known, b4: Known, b5: Known, b6: Known, b7: Known)
    requires r0 == (if a0 == b0 then a0 else None) && r1 == (if a1 == b1 then a1 else None)
    requires r2 == (if a2 == b2 then a2 else None) && r3 == (if a3 == b3 then a3 else None)
    requires r4 == (if a4 == b4 then a4 else None) && r5 == (if a5 == b5 then a5 else None)
    requires r6 == (if a6 == b6 then a6 else None) && r7 == (if a7 == b7 then a7 else None)
    ensures [r0, r1, r2, r3, r4, r5, r6, r7] == Intersect([a0, a1, a2, a3, a4, a5, a6, a7], [b0, b1, b2, b3, b4, b5, b6, b7])
  {
    var r := [r0, r1, r2, r3, r4, r5, r6, r7];
    var a, b := [a0, a1, a2, a3, a4, a5, a6, a7], [b0, b1, b2, b3, b4, b5, b6, b7];
    assert r[0] == r0 && a[0] == a0 && b[0] == b0;
    assert r[1] == r1 && a[1] == a1 && b[1] == b1;
    assert r[2] == r2 && a[2] == a2 && b[2] == b2;
    assert r[3] == r3 && a[3] == a3 && b[3] == b3;
    assert r[4] == r4 && a[4] == a4 && b[4] == b4;
    assert r[5] == r5 && a[5] == a5 && b[5] == b5;
    assert r[6] == r6 && a[6] == a6 && b[6] == b6;
    assert r[7] == r7 && a[7] == a7 && b[7] == b7;
    PlaceByPlace(r, a, b);
  }

  lemma PlaceByPlace(r: ByteConst, a: ByteConst, b: ByteConst)
    requires r[0] == if a[0] == b[0] then a[0] else None
    requires r[1] == if a[1] == b[1] then a[1] else None
    requires r[2] == if a[2] == b[2] then a[2] else None
    requires r[3] == if a[3] == b[3] then a[3] else None
    requires r[4] == if a[4] == b[4] then a[4] else None
    requires r[5] == if a[5] == b[5] then a[5] else None
    requires r[6] == if a[6] == b[6] then a[6] else None
    requires r[7] == if a[7] == b[7] then a[7] else None
    ensures r == Intersect(a, b)
  {
  }

  lemma Byte0(a: bv64, ak: bv8, b: bv64, bk: bv8, r: bv8, y: bv64)
    requires IsBoth(a, ak, b, bk, r) && Cleared(a, r, y)
    ensures ByteOf(y, r & 1 != 0) == if ByteOf(a, ak & 1 != 0) == ByteOf(b, bk & 1 != 0) then ByteOf(a, ak & 1 != 0) else None
  {
    OneByte(y, r & 1 != 0, a, ak & 1 != 0, b, bk & 1 != 0);
  }

  lemma Byte1(a: bv64, ak: bv8, b: bv64, bk: bv8, r: bv8, y: bv64)
    requires IsBoth(a, ak, b, bk, r) && Cleared(a, r, y)
    ensures ByteOf(y >> 8, r & 2 != 0) == if ByteOf(a >> 8, ak & 2 != 0) == ByteOf(b >> 8, bk & 2 != 0) then ByteOf(a >> 8, ak & 2 != 0) else None
  {
    OneByte((y >> 8), r & 2 != 0, (a >> 8), ak & 2 != 0, (b >> 8), bk & 2 != 0);
  }

  lemma Byte2(a: bv64, ak: bv8, b: bv64, bk: bv8, r: bv8, y: bv64)
    requires IsBoth(a, ak, b, bk, r) && Cleared(a, r, y)
    ensures ByteOf(y >> 16, r & 4 != 0) == if ByteOf(a >> 16, ak & 4 != 0) == ByteOf(b >> 16, bk & 4 != 0) then ByteOf(a >> 16, ak & 4 != 0) else None
  {
    OneByte((y >> 16), r & 4 != 0, (a >> 16), ak & 4 != 0, (b >> 16), bk & 4 != 0);
  }

  lemma Byte3(a: bv64, ak: bv8, b: bv64, bk: bv8, r: bv8, y: bv64)
    requires IsBoth(a, ak, b, bk, r) && Cleared(a, r, y)
    ensures ByteOf(y >> 24, r & 8 != 0) == if ByteOf(a >> 24, ak & 8 != 0) == ByteOf(b >> 24, bk & 8 != 0) then ByteOf(a >> 24, ak & 8 != 0) else None
  {
    OneByte((y >> 24), r & 8 != 0, (a >> 24), ak & 8 != 0, (b >> 24), bk & 8 != 0);
  }

  lemma Byte4(a: bv64, ak: bv8, b: bv64, bk: bv8, r: bv8, y: bv64)
    requires IsBoth(a, ak, b, bk, r) && Cleared(a, r, y)
    ensures ByteOf(y >> 32, r & 16 != 0) == if ByteOf(a >> 32, ak & 16 != 0) == ByteOf(b >> 32, bk & 16 != 0) then ByteOf(a >> 32, ak & 16 != 0) else None
  {
    OneByte((y >> 32), r & 16 != 0, (a >> 32), ak & 16 != 0, (b >> 32), bk & 16 != 0);
  }

  lemma Byte5(a: bv64, ak: bv8, b: bv64, bk: bv8, r: bv8, y: bv64)
    requires IsBoth(a, ak, b, bk, r) && Cleared(a, r, y)
    ensures ByteOf(y >> 40, r & 32 != 0) == if ByteOf(a >> 40, ak & 32 != 0) == ByteOf(b >> 40, bk & 32 != 0) then ByteOf(a >> 40, ak & 32 != 0) else None
  {
    OneByte((y >> 40), r & 32 != 0, (a >> 40), ak & 32 != 0, (b >> 40), bk & 32 != 0);
  }

  lemma Byte6(a: bv64, ak: bv8, b: bv64, bk: bv8, r: bv8, y: bv64)
    requires IsBoth(a, ak, b, bk, r) && Cleared(a, r, y)
    ensures ByteOf(y >> 48, r & 64 != 0) == if ByteOf(a >> 48, ak & 64 != 0) == ByteOf(b >> 48, bk & 64 != 0) then ByteOf(a >> 48, ak & 64 != 0) else None
  {
    OneByte((y >> 48), r & 64 != 0, (a >> 48), ak & 64 != 0, (b >> 48), bk & 64 != 0);
  }

  lemma Byte7(a: bv64, ak: bv8, b: bv64, bk: bv8, r: bv8, y: bv64)
    requires IsBoth(a, ak, b, bk, r) && Cleared(a, r, y)
    ensures ByteOf(y >> 56, r & 128 != 0) == if ByteOf(a >> 56, ak & 128 != 0) == ByteOf(b >> 56, bk & 128 != 0) then ByteOf(a >> 56, ak & 128 != 0) else None
  {
    OneByte((y >> 56), r & 128 != 0, (a >> 56), ak & 128 != 0, (b >> 56), bk & 128 != 0);
  }

  lemma BothUnpack(a: bv64, ak: bv8, b: bv64, bk: bv8, r: bv8, y: bv64)
    requires IsBoth(a, ak, b, bk, r) && Cleared(a, r, y)
    ensures Unpack(y, r) == Intersect(Unpack(a, ak), Unpack(b, bk))
  {
    Byte0(a, ak, b, bk, r, y);
    Byte1(a, ak, b, bk, r, y);
    Byte2(a, ak, b, bk, r, y);
    Byte3(a, ak, b, bk, r, y);
    Byte4(a, ak, b, bk, r, y);
    Byte5(a, ak, b, bk, r, y);
    Byte6(a, ak, b, bk, r, y);
    Byte7(a, ak, b, bk, r, y);
    EachByte(ByteOf(y, r & 1 != 0), ByteOf(y >> 8, r & 2 != 0), ByteOf(y >> 16, r & 4 != 0), ByteOf(y >> 24, r & 8 != 0),
             ByteOf(y >> 32, r & 16 != 0), ByteOf(y >> 40, r & 32 != 0), ByteOf(y >> 48, r & 64 != 0), ByteOf(y >> 56, r & 128 != 0),
             ByteOf(a, ak & 1 != 0), ByteOf(a >> 8, ak & 2 != 0), ByteOf(a >> 16, ak & 4 != 0), ByteOf(a >> 24, ak & 8 != 0),
             ByteOf(a >> 32, ak & 16 != 0), ByteOf(a >> 40, ak & 32 != 0), ByteOf(a >> 48, ak & 64 != 0), ByteOf(a >> 56, ak & 128 != 0),
             ByteOf(b, bk & 1 != 0), ByteOf(b >> 8, bk & 2 != 0), ByteOf(b >> 16, bk & 4 != 0), ByteOf(b >> 24, bk & 8 != 0),
             ByteOf(b >> 32, bk & 16 != 0), ByteOf(b >> 40, bk & 32 != 0), ByteOf(b >> 48, bk & 64 != 0), ByteOf(b >> 56, bk & 128 != 0));
  }

  /** The packed intersection is the intersection of the bytes. */
  lemma IntersectUnpacks(a: bv64, ak: bv8, b: bv64, bk: bv8)
    ensures var k := IntersectKnown(a, ak, b, bk); Unpack(a & BitsOf(k), k) == Intersect(Unpack(a, ak), Unpack(b, bk))
  {
    var k := IntersectKnown(a, ak, b, bk);
    ClearedBits(a, k);
    BothUnpack(a, ak, b, bk, k, a & BitsOf(k));
  }
}
