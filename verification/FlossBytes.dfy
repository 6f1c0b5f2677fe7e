/**
 Bytes and the ways a string may be hidden in them: each way is a bijection of the byte
 values, tried over a whole buffer.
 */
module FlossBytes {

  type Byte = bv8

  datatype Method = Xor(key: Byte) | Add(key: Byte) | Rol(places: nat)

  /** A place at a time. */
  function RotateLeft(b: Byte, places: nat): Byte
    decreases places
  {
    if places == 0 then b else RotateLeft((b << 1) | (b >> 7), places - 1)
  }

  function Decode(m: Method, b: Byte): Byte {
    match m
    case Xor(k) => b ^ k
    case Add(k) => b + k
    case Rol(r) => RotateLeft(b, r)
  }

  predicate IsPrintable(b: Byte) {
    (0x20 <= b <= 0x7e) || b == 0x09
  }

  predicate IsUpper(b: Byte) { 0x41 <= b <= 0x5a }
  predicate IsLower(b: Byte) { 0x61 <= b <= 0x7a }
  predicate IsLetter(b: Byte) { IsUpper(b) || IsLower(b) }
  predicate IsDigit(b: Byte) { 0x30 <= b <= 0x39 }
  predicate IsAlnum(b: Byte) { IsLetter(b) || IsDigit(b) }

  function ToLower(b: Byte): Byte {
    if IsUpper(b) then b + 0x20 else b
  }

  lemma LettersPrint(b: Byte)
    requires IsLetter(b)
    ensures IsPrintable(b)
  {
  }

  /** No two bytes decode to the same. */
  lemma DecodeInjective(m: Method, a: Byte, b: Byte)
    ensures Decode(m, a) == Decode(m, b) <==> a == b
  {
    match m
    case Xor(k) =>
    case Add(k) =>
    case Rol(r) => RotateInjective(a, b, r);
  }

  lemma RotateOne(a: Byte, b: Byte)
    ensures (a << 1) | (a >> 7) == (b << 1) | (b >> 7) <==> a == b
  {
  }

  lemma {:induction false} RotateInjective(a: Byte, b: Byte, places: nat)
    ensures RotateLeft(a, places) == RotateLeft(b, places) <==> a == b
    decreases places
  {
    if places > 0 {
      RotateInjective((a << 1) | (a >> 7), (b << 1) | (b >> 7), places - 1);
      RotateOne(a, b);
    }
  }

  /** Two letters are one ignoring case when they differ in bit 5 at most. */
  lemma SameLetter(x: Byte, y: Byte)
    requires IsLetter(x) && IsLetter(y)
    ensures ToLower(x) == ToLower(y) <==> (x ^ y) & 0xdf == 0
  {
  }

  /** The differences of two letters that are not one letter. */
  predicate ApartXor(x: Byte, y: Byte) { (x ^ y) & 0xdf != 0 }
  predicate ApartAdd(x: Byte, y: Byte) { (x - y) & 0xdf != 0 && x - y != 0xe0 }

  /** Whether `x` and `y`, which `m` decodes to letters, are decoded to distinct ones: for XOR
      and ADD their difference says, whatever the key. */
  predicate Apart(m: Method, x: Byte, y: Byte) {
    match m
    case Xor(_) => ApartXor(x, y)
    case Add(_) => ApartAdd(x, y)
    case Rol(r) => ApartXor(RotateLeft(x, r), RotateLeft(y, r))
  }

  lemma ApartIff(m: Method, x: Byte, y: Byte)
    requires IsLetter(Decode(m, x)) && IsLetter(Decode(m, y))
    ensures Apart(m, x, y) <==> ToLower(Decode(m, x)) != ToLower(Decode(m, y))
  {
    match m
    case Xor(k) => ApartXorIff(m, x, y, Decode(m, x), Decode(m, y));
    case Add(k) => ApartAddIff(m, x, y, Decode(m, x), Decode(m, y));
    case Rol(r) => SameLetter(Decode(m, x), Decode(m, y));
  }

  lemma XorsDiffer(a: Byte, b: Byte, k: Byte)
    ensures (a ^ k) ^ (b ^ k) == a ^ b
  {
  }

  lemma ApartXorIff(m: Method, x: Byte, y: Byte, u: Byte, v: Byte)
    requires m.Xor? && u == Decode(m, x) && v == Decode(m, y) && IsLetter(u) && IsLetter(v)
    ensures Apart(m, x, y) <==> ToLower(u) != ToLower(v)
  {
    XorsDiffer(x, y, m.key);
    SameLetter(u, v);
  }

  lemma SumsDiffer(a: Byte, b: Byte, k: Byte)
    ensures (a + k) - (b + k) == a - b
  {
  }

  lemma ApartAddIff(m: Method, x: Byte, y: Byte, u: Byte, v: Byte)
    requires m.Add? && u == Decode(m, x) && v == Decode(m, y) && IsLetter(u) && IsLetter(v)
    ensures Apart(m, x, y) <==> ToLower(u) != ToLower(v)
  {
    SumsDiffer(x, y, m.key);
    SameLetterDiff(u, v);
  }

  lemma SameLetterDiff(x: Byte, y: Byte)
    requires IsLetter(x) && IsLetter(y)
    ensures ToLower(x) == ToLower(y) <==> !((x - y) & 0xdf != 0 && x - y != 0xe0)
  {
  }
}
