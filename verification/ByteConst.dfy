/**
 Up to eight bytes of a value, each known or not, and the evaluation of P-code over them.
 */
module ByteConst {
  import opened Pcode
  import opened Numbers

  type Byte = b: nat | b < 256 witness 0

  /** Eight bytes, the low one first, known or not. */
  type ByteConst = s: seq<Option<Byte>> | |s| == 8 witness [None, None, None, None, None, None, None, None]

  const UNKNOWN: ByteConst := [None, None, None, None, None, None, None, None]

  // ---- numbers as bytes

  function Pow256(n: nat): nat {
    if n == 0 then 1 else 256 * Pow256(n - 1)
  }

  /** The low `n` bytes of `v`, the low one first. */
  function BytesOf(v: nat, n: nat): seq<Byte> {
    if n == 0 then [] else [v % 256] + BytesOf(v / 256, n - 1)
  }

  /** The number the bytes `bs` hold. */
  function Value(bs: seq<Byte>): nat {
    if bs == [] then 0 else bs[0] + 256 * Value(bs[1..])
  }

  lemma {:induction false} BytesOfLength(v: nat, n: nat)
    ensures |BytesOf(v, n)| == n
    decreases n
  {
    if n > 0 { BytesOfLength(v / 256, n - 1); }
  }

  lemma {:induction false} BytesOfPrefix(v: nat, m: nat, n: nat)
    requires n <= m
    ensures |BytesOf(v, m)| == m && BytesOf(v, m)[..n] == BytesOf(v, n)
    decreases n
  {
    BytesOfLength(v, m);
    if n > 0 {
      BytesOfPrefix(v / 256, m - 1, n - 1);
      assert BytesOf(v, m)[..n] == [v % 256] + BytesOf(v / 256, m - 1)[..n - 1];
    }
  }

  /** A number's bytes give it back. */
  lemma {:induction false} BytesOfValue(bs: seq<Byte>)
    ensures BytesOf(Value(bs), |bs|) == bs
  {
    if bs != [] { BytesOfValue(bs[1..]); }
  }

  lemma {:induction false} PowPositive(n: nat)
    ensures Pow256(n) > 0
  {
    if n > 0 { PowPositive(n - 1); }
  }

  /** A remainder's remainder: `v mod ab mod a == v mod a`. */
  lemma ModMod(v: int, a: nat, b: nat)
    requires a > 0 && b > 0
    ensures a * b > 0 && v % (a * b) % a == v % a
  {
    var q, r := v / (a * b), v % (a * b);
    assert v == a * b * q + r;
    var s, t := r / a, r % a;
    assert v == a * (b * q + s) + t;
    ModUnique(v, a, b * q + s, t);
  }

  lemma ModUnique(v: int, a: nat, q: int, r: int)
    requires a > 0 && v == a * q + r && 0 <= r < a
    ensures v % a == r && v / a == q
  {
    var q', r' := v / a, v % a;
    assert v == a * q' + r';
    NoMultiple(a, q - q', r' - r);
  }

  lemma NoMultiple(a: int, k: int, d: int)
    requires -a < d < a && a * k == d
    ensures k == 0
  {
    assert k >= 1 ==> a * k >= a * 1;
    assert k <= -1 ==> a * k <= a * -1;
  }

  lemma {:induction false} PowSplit(m: nat, n: nat)
    ensures Pow256(m + n) == Pow256(m) * Pow256(n)
    decreases n
  {
    if n > 0 { PowSplit(m, n - 1); }
  }

  /** The low `n` bytes of a result kept modulo more bytes are those kept modulo `n`. */
  lemma LowBytesOfWord(v: int, m: nat, n: nat)
    requires n <= m
    ensures Pow256(m) > 0 && Pow256(n) > 0
    ensures |BytesOf(v % Pow256(m), m)| == m
    ensures BytesOf(v % Pow256(m), m)[..n] == BytesOf(v % Pow256(n), n)
  {
    PowPositive(m);
    PowPositive(n);
    PowPositive(m - n);
    PowSplit(n, m - n);
    ModMod(v, Pow256(n), Pow256(m - n));
    BytesOfPrefix(v % Pow256(m), m, n);
    BytesOfMod(v % Pow256(m), n);
  }

  lemma {:induction false} BytesOfMod(v: nat, n: nat)
    ensures Pow256(n) > 0 && BytesOf(v % Pow256(n), n) == BytesOf(v, n)
    decreases n
  {
    PowPositive(n);
    if n > 0 {
      PowPositive(n - 1);
      var p := Pow256(n - 1);
      var w := v % (256 * p);
      ModMod(v, 256, p);
      DivMod(v, p);
      BytesOfMod(v / 256, n - 1);
      assert BytesOf(w, n) == [w % 256] + BytesOf(w / 256, n - 1);
    }
  }

  lemma DivMod(v: nat, p: nat)
    requires p > 0
    ensures v % (256 * p) / 256 == v / 256 % p
  {
    var q, r := v / 256 / p, v / 256 % p;
    var low := v % 256;
    assert v / 256 == p * q + r;
    assert v == (256 * p) * q + (256 * r + low);
    ModUnique(v, 256 * p, q, 256 * r + low);
  }

  // ---- operations

  function Trunc(c: ByteConst, size: nat): ByteConst {
    seq(8, i requires 0 <= i < 8 => if i < size then c[i] else None)
  }

  /** The constant `v`, `size` bytes wide. */
  function Konst(v: nat, size: nat): ByteConst {
    if size == 0 || size > 8 then UNKNOWN
    else
      BytesOfLength(v, 8);
      seq(8, i requires 0 <= i < 8 => if i < size then Some(BytesOf(v, 8)[i]) else None)
  }

  /** The low `n` bytes. */
  function LowBytes(c: ByteConst, n: nat): (r: seq<Byte>)
    requires n <= 8 && forall i | 0 <= i < n :: c[i].Some?
    ensures |r| == n
  {
    seq(n, i requires 0 <= i < n => c[i].value)
  }

  /** The value of the low `size` bytes when all of them are known. */
  function Get(c: ByteConst, size: nat): Option<nat> {
    if size == 0 || size > 8 || exists i | 0 <= i < size :: c[i].None? then None else Some(Value(LowBytes(c, size)))
  }

  predicate IsUnknown(c: ByteConst) {
    forall i | 0 <= i < 8 :: c[i].None?
  }

  /** The `size` bytes starting at byte `pos`. */
  function BytesAt(c: ByteConst, pos: nat, size: nat): ByteConst {
    seq(8, i requires 0 <= i < 8 => if i < size && pos + i < 8 then c[pos + i] else None)
  }

  /** `c` with its bytes `pos..pos + size` those of `v`. */
  function Merge(c: ByteConst, pos: nat, size: nat, v: ByteConst): ByteConst {
    seq(8, i requires 0 <= i < 8 => if pos <= i < pos + size then v[i - pos] else c[i])
  }

  /** A byte stays known when both sides know it with the same value. */
  function Intersect(a: ByteConst, b: ByteConst): ByteConst {
    seq(8, i requires 0 <= i < 8 => if a[i] == b[i] then a[i] else None)
  }

  /** `c` with the bytes from `size` on known to be `b`. */
  function Extend(c: ByteConst, size: nat, b: Byte): ByteConst {
    seq(8, i requires 0 <= i < 8 => if i < size then c[i] else Some(b))
  }

  // ---- bits of a byte

  function And8(a: Byte, b: Byte): Byte { ((a as bv8) & (b as bv8)) as nat }
  function Or8(a: Byte, b: Byte): Byte { ((a as bv8) | (b as bv8)) as nat }
  function Xor8(a: Byte, b: Byte): Byte { ((a as bv8) ^ (b as bv8)) as nat }

  function Bitwise(code: OpCode, a: Byte, b: Byte): Byte {
    if code == IntAnd then And8(a, b) else if code == IntOr then Or8(a, b) else if code == IntXor then Xor8(a, b) else 255 - a
  }

  /** Bit by bit, on bytes. */
  function Zip(code: OpCode, a: seq<Byte>, b: seq<Byte>): (r: seq<Byte>)
    requires |a| == |b|
    ensures |r| == |a|
  {
    seq(|a|, i requires 0 <= i < |a| => Bitwise(code, a[i], b[i]))
  }

  predicate IsBitwise(code: OpCode) {
    code == IntAnd || code == IntOr || code == IntXor || code == IntNegate
  }

  /** A shift of a value `size` bytes wide. */
  function Shifted(left: bool, a: nat, n: nat, size: nat): int {
    if n >= size * 8 then 0 else if left then a * Pow2(n) else a / Pow2(n)
  }

  /** The exact result of an arithmetic op on `a` and `b`, `a` of `size` bytes. */
  function Exact(code: OpCode, a: nat, b: nat, size: nat): int {
    match code
    case IntAdd => a + b
    case IntSub => a - b
    case IntMult => a * b
    case Int2Comp => -(a as int)
    case _ => Shifted(code == IntLeft, a, b, size)
  }

  // ---- evaluation

  /** Input `i`, read, when it is at most 8 bytes wide. */
  function Val(op: PcodeOp, i: nat, read: Varnode -> ByteConst): Option<ByteConst> {
    if i >= |op.inputs| || op.inputs[i].size == 0 || op.inputs[i].size > 8 then None
    else Some(Trunc(read(op.inputs[i]), op.inputs[i].size))
  }

  /** Input `i`, when all of it is known. */
  function Full(op: PcodeOp, i: nat, read: Varnode -> ByteConst): Option<nat> {
    match Val(op, i, read)
    case None => None
    case Some(v) => Get(v, op.inputs[i].size)
  }

  predicate IsBinary(code: OpCode) {
    code == IntAdd || code == IntSub || code == IntMult || code == IntAnd || code == IntOr || code == IntXor
  }

  /** The 64-bit word of a bitwise op on the words `a` and `b`. */
  function WordOf(code: OpCode, a: nat, b: nat): nat {
    BytesOfLength(a, 8);
    BytesOfLength(b, 8);
    Value(Zip(code, BytesOf(a, 8), BytesOf(b, 8)))
  }

  /** The value computed from full inputs, in 64 bits. */
  function Computed(code: OpCode, a: nat, b: nat, size: nat): ByteConst {
    PowPositive(8);
    Konst(if IsBitwise(code) then WordOf(code, a, b) else Exact(code, a, b, size) % Pow256(8), 8)
  }

  /** The output of `op` before it is cut to its size: byte moves keep the bytes they can. */
  function Result(op: PcodeOp, osz: nat, read: Varnode -> ByteConst): Option<ByteConst> {
    var v0, v1 := Val(op, 0, read), Val(op, 1, read);
    match op.opcode
    case Copy => v0
    case IntZExt =>
      if v0.None? then None else Some(Extend(v0.value, op.inputs[0].size, 0))
    case IntSExt =>
      if v0.None? then None
      else
        var isz := op.inputs[0].size;
        var top := v0.value[isz - 1];
        if top.None? then v0 else Some(Extend(v0.value, isz, if top.value >= 0x80 then 0xff else 0))
    case Subpiece =>
      if |op.inputs| < 2 || op.inputs[1].space != CONST || op.inputs[1].offset >= 0x1_0000_0000 || v0.None? then None
      else Some(BytesAt(v0.value, op.inputs[1].offset, osz))
    case Piece =>
      if |op.inputs| < 2 || op.inputs[1].size + op.inputs[0].size > 8 || v0.None? || v1.None? then None
      else Some(Merge(Trunc(v1.value, op.inputs[1].size), op.inputs[1].size, 8 - op.inputs[1].size, v0.value))
    case _ => Arithmetic(op, read)
  }

  /** The ops that need their inputs known, but for `x ^ x` and `x - x`. */
  function Arithmetic(op: PcodeOp, read: Varnode -> ByteConst): Option<ByteConst> {
    var f0, f1 := Full(op, 0, read), Full(op, 1, read);
    if (op.opcode == IntXor || op.opcode == IntSub) && |op.inputs| >= 2 && op.inputs[0] == op.inputs[1] then Some(Konst(0, 8))
    else if IsBinary(op.opcode) || op.opcode == IntLeft || op.opcode == IntRight then
      if f0.None? || f1.None? then None else Some(Computed(op.opcode, f0.value, f1.value, op.inputs[0].size))
    else if op.opcode == Int2Comp || op.opcode == IntNegate then
      if f0.None? then None else Some(Computed(op.opcode, f0.value, f0.value, op.inputs[0].size))
    else None
  }

  function Eval(op: PcodeOp, read: Varnode -> ByteConst): Option<ByteConst> {
    if op.output.None? || op.output.value.size == 0 || op.output.value.size > 8 then None
    else
      match Result(op, op.output.value.size, read)
      case None => None
      case Some(r) => Some(Trunc(r, op.output.value.size))
  }

  // ---- what ops do to bytes

  /** The ops with a modelled result, with operands of the sizes P-code has them in. */
  ghost predicate SizesFit(op: PcodeOp) {
    op.output.Some? ==>
      var osz, n := op.output.value.size, |op.inputs|;
      match op.opcode
      case Copy => n >= 1 && op.inputs[0].size == osz
      case IntZExt => n >= 1 && op.inputs[0].size <= osz
      case IntSExt => n >= 1 && 0 < op.inputs[0].size <= osz
      case Subpiece => n >= 2 && op.inputs[1].space == CONST && op.inputs[1].offset + osz <= op.inputs[0].size
      case Piece => n >= 2 && osz == op.inputs[0].size + op.inputs[1].size
      case IntLeft => n >= 2 && op.inputs[0].size == osz
      case IntRight => n >= 2 && op.inputs[0].size == osz
      case Int2Comp => n >= 1 && op.inputs[0].size == osz
      case IntNegate => n >= 1 && op.inputs[0].size == osz
      case _ => IsBinary(op.opcode) ==> n >= 2 && op.inputs[0].size == op.inputs[1].size == osz
  }

  predicate IsModelled(code: OpCode) {
    || code == Copy || code == IntZExt || code == IntSExt || code == Subpiece || code == Piece
    || IsBinary(code) || code == IntLeft || code == IntRight || code == Int2Comp || code == IntNegate
  }

  function Repeat(b: Byte, n: nat): seq<Byte> {
    seq(n, _ => b)
  }

  /** The bytes a modelled op writes, from the bytes `bytes` of its inputs. */
  function Written(op: PcodeOp, bytes: Varnode -> seq<Byte>): seq<Byte>
    requires IsModelled(op.opcode) && op.output.Some? && SizesFit(op)
    requires forall i | 0 <= i < |op.inputs| :: |bytes(op.inputs[i])| == op.inputs[i].size
  {
    var osz := op.output.value.size;
    var a := bytes(op.inputs[0]);
    match op.opcode
    case Copy => a
    case IntZExt => a + Repeat(0, osz - |a|)
    case IntSExt => a + Repeat(if a[|a| - 1] >= 0x80 then 0xff else 0, osz - |a|)
    case Subpiece => a[op.inputs[1].offset..op.inputs[1].offset + osz]
    case Piece => bytes(op.inputs[1]) + a
    case IntNegate => Zip(IntNegate, a, a)
    case Int2Comp => Low(Exact(Int2Comp, Value(a), 0, osz), osz)
    case _ => WrittenBy(op.opcode, a, bytes(op.inputs[1]), osz)
  }

  /** The bytes of a binary op on the bytes `a` and `b`. */
  function WrittenBy(code: OpCode, a: seq<Byte>, b: seq<Byte>, osz: nat): seq<Byte>
    requires IsBitwise(code) ==> |a| == |b|
  {
    if IsBitwise(code) then Zip(code, a, b) else Low(Exact(code, Value(a), Value(b), osz), osz)
  }

  /** The low `n` bytes of the exact result `v`. */
  function Low(v: int, n: nat): seq<Byte> {
    PowPositive(n);
    BytesOf(v % Pow256(n), n)
  }

  /** What `c` knows is so of the bytes `bs`. */
  ghost predicate Agrees(c: ByteConst, bs: seq<Byte>) {
    forall i | 0 <= i < 8 && c[i].Some? :: i < |bs| && bs[i] == c[i].value
  }

  /** The inputs hold the bytes `bytes`, and what `read` knows of them is so. */
  ghost predicate Reads(op: PcodeOp, read: Varnode -> ByteConst, bytes: Varnode -> seq<Byte>) {
    forall i | 0 <= i < |op.inputs| :: ReadsOne(op.inputs[i], read, bytes)
  }

  ghost predicate ReadsOne(vn: Varnode, read: Varnode -> ByteConst, bytes: Varnode -> seq<Byte>) {
    |bytes(vn)| == vn.size && Agrees(read(vn), bytes(vn))
  }

  lemma FullIsValue(op: PcodeOp, read: Varnode -> ByteConst, bytes: Varnode -> seq<Byte>, i: nat)
    requires i < |op.inputs| && ReadsOne(op.inputs[i], read, bytes) && Full(op, i, read).Some?
    ensures op.inputs[i].size <= 8 && Full(op, i, read).value == Value(bytes(op.inputs[i]))
  {
    var vn := op.inputs[i];
    assert LowBytes(Val(op, i, read).value, vn.size) == bytes(vn);
  }

  /** The bytes of a 64-bit result, cut to `n` bytes. */
  lemma WordAgrees(v: int, n: nat)
    requires n <= 8
    ensures Pow256(8) > 0 && Agrees(Trunc(Konst(v % Pow256(8), 8), n), Low(v, n))
  {
    LowBytesOfWord(v, 8, n);
    BytesOfLength(v % Pow256(n), n);
    var w := BytesOf(v % Pow256(8), 8);
    assert forall i | 0 <= i < n :: w[i] == w[..n][i];
  }

  lemma {:induction false} ZeroBytes(n: nat)
    ensures BytesOf(0, n) == Repeat(0, n)
  {
    if n > 0 {
      ZeroBytes(n - 1);
      assert 0 % 256 == 0 && 0 / 256 == 0;
    }
  }

  lemma {:induction false} PaddedBytes(bs: seq<Byte>, n: nat)
    requires |bs| <= n
    ensures BytesOf(Value(bs), n) == bs + Repeat(0, n - |bs|)
  {
    if bs == [] {
      ZeroBytes(n);
    } else {
      PaddedBytes(bs[1..], n - 1);
      var v := Value(bs);
      assert v % 256 == bs[0] && v / 256 == Value(bs[1..]);
    }
  }

  lemma BitwiseAgrees(code: OpCode, a: seq<Byte>, b: seq<Byte>)
    requires |a| == |b| <= 8
    ensures Agrees(Trunc(Konst(WordOf(code, Value(a), Value(b)), 8), |a|), Zip(code, a, b))
  {
    var wa, wb := BytesOf(Value(a), 8), BytesOf(Value(b), 8);
    PaddedBytes(a, 8);
    PaddedBytes(b, 8);
    var z := Zip(code, wa, wb);
    BytesOfValue(z);
    assert forall i | 0 <= i < |a| :: z[i] == Zip(code, a, b)[i];
  }

  lemma XorSelf(a: Byte)
    ensures Xor8(a, a) == 0
  {
    var b := a as bv8;
    assert b ^ b == 0;
  }

  /** `x ^ x` is zero. */
  lemma XorSelfAgrees(bs: seq<Byte>)
    requires |bs| <= 8
    ensures Agrees(Trunc(Konst(0, 8), |bs|), Zip(IntXor, bs, bs))
  {
    ZeroBytes(8);
    forall i | 0 <= i < |bs| ensures Zip(IntXor, bs, bs)[i] == 0 {
      XorSelf(bs[i]);
    }
  }

  /** `x - x` is zero. */
  lemma SubSelfAgrees(bs: seq<Byte>)
    requires |bs| <= 8
    ensures Agrees(Trunc(Konst(0, 8), |bs|), Low(Exact(IntSub, Value(bs), Value(bs), |bs|), |bs|))
  {
    WordAgrees(0, |bs|);
    assert 0 % Pow256(8) == 0;
  }

  /** The result computed in 64 bits from the values of the inputs is what is written. */
  lemma ComputedAgrees(code: OpCode, a: seq<Byte>, b: seq<Byte>, osz: nat)
    requires |a| == osz <= 8 && (IsBitwise(code) ==> |b| == osz)
    ensures Agrees(Trunc(Computed(code, Value(a), Value(b), osz), osz), WrittenBy(code, a, b, osz))
  {
    if IsBitwise(code) {
      BitwiseAgrees(code, a, b);
    } else {
      WordAgrees(Exact(code, Value(a), Value(b), osz), osz);
    }
  }

  lemma ArithmeticSound(op: PcodeOp, read: Varnode -> ByteConst, bytes: Varnode -> seq<Byte>)
    requires SizesFit(op) && op.output.Some? && Reads(op, read, bytes)
    requires IsBinary(op.opcode) || op.opcode == IntLeft || op.opcode == IntRight || op.opcode == Int2Comp || op.opcode == IntNegate
    requires Eval(op, read).Some?
    ensures Agrees(Eval(op, read).value, Written(op, bytes))
  {
    var code := op.opcode;
    assert ReadsOne(op.inputs[0], read, bytes);
    assert |op.inputs| > 1 ==> ReadsOne(op.inputs[1], read, bytes);
    if (code == IntXor || code == IntSub) && op.inputs[0] == op.inputs[1] {
      if code == IntXor { XorSelfAgrees(bytes(op.inputs[0])); } else { SubSelfAgrees(bytes(op.inputs[0])); }
    } else {
      FullIsValue(op, read, bytes, 0);
      var a, osz := bytes(op.inputs[0]), op.output.value.size;
      if code == Int2Comp || code == IntNegate {
        ComputedAgrees(code, a, a, osz);
      } else {
        FullIsValue(op, read, bytes, 1);
        ComputedAgrees(code, a, bytes(op.inputs[1]), osz);
      }
    }
  }

  /** Each byte the evaluation knows is the one the op writes. */
  lemma EvalIsSound(op: PcodeOp, read: Varnode -> ByteConst, bytes: Varnode -> seq<Byte>)
    requires SizesFit(op) && op.output.Some? && Reads(op, read, bytes) && Eval(op, read).Some?
    ensures IsModelled(op.opcode) && Agrees(Eval(op, read).value, Written(op, bytes))
  {
    if IsBinary(op.opcode) || op.opcode == IntLeft || op.opcode == IntRight || op.opcode == Int2Comp || op.opcode == IntNegate {
      ArithmeticSound(op, read, bytes);
    } else {
      MovesSound(op, read, bytes);
    }
  }

  /** The same of the byte moves. */
  lemma MovesSound(op: PcodeOp, read: Varnode -> ByteConst, bytes: Varnode -> seq<Byte>)
    requires SizesFit(op) && op.output.Some? && Reads(op, read, bytes) && Eval(op, read).Some?
    requires !(IsBinary(op.opcode) || op.opcode == IntLeft || op.opcode == IntRight || op.opcode == Int2Comp || op.opcode == IntNegate)
    ensures IsModelled(op.opcode) && Agrees(Eval(op, read).value, Written(op, bytes))
  {
    assert ReadsOne(op.inputs[0], read, bytes);
    if op.opcode == Piece {
      assert ReadsOne(op.inputs[1], read, bytes);
      PieceSound(op, read, bytes);
    } else if op.opcode == Subpiece {
      SubpieceSound(op, read, bytes);
    } else {
      ExtendSound(op, read, bytes);
    }
  }

  lemma PieceSound(op: PcodeOp, read: Varnode -> ByteConst, bytes: Varnode -> seq<Byte>)
    requires op.opcode == Piece && SizesFit(op) && op.output.Some? && Eval(op, read).Some?
    requires ReadsOne(op.inputs[0], read, bytes) && ReadsOne(op.inputs[1], read, bytes)
    ensures Agrees(Eval(op, read).value, bytes(op.inputs[1]) + bytes(op.inputs[0]))
  {
  }

  lemma SubpieceSound(op: PcodeOp, read: Varnode -> ByteConst, bytes: Varnode -> seq<Byte>)
    requires op.opcode == Subpiece && SizesFit(op) && op.output.Some? && Eval(op, read).Some? && ReadsOne(op.inputs[0], read, bytes)
    ensures var k := op.inputs[1].offset; Agrees(Eval(op, read).value, bytes(op.inputs[0])[k..k + op.output.value.size])
  {
  }

  lemma ExtendSound(op: PcodeOp, read: Varnode -> ByteConst, bytes: Varnode -> seq<Byte>)
    requires op.opcode == Copy || op.opcode == IntZExt || op.opcode == IntSExt
    requires SizesFit(op) && op.output.Some? && Eval(op, read).Some? && ReadsOne(op.inputs[0], read, bytes)
    ensures var a, osz := bytes(op.inputs[0]), op.output.value.size;
      Agrees(Eval(op, read).value, if op.opcode == Copy then a
                                   else if op.opcode == IntZExt then a + Repeat(0, osz - |a|)
                                   else a + Repeat(if a[|a| - 1] >= 0x80 then 0xff else 0, osz - |a|))
  {
  }

  /** All of `bs` is known. */
  ghost predicate Knows(c: ByteConst, bs: seq<Byte>) {
    forall i | 0 <= i < 8 && i < |bs| :: c[i] == Some(bs[i])
  }

  /** Every input is at most eight bytes wide and known, but for the place of a `Subpiece`. */
  ghost predicate AllKnown(op: PcodeOp, read: Varnode -> ByteConst, bytes: Varnode -> seq<Byte>) {
    forall i | 0 <= i < |op.inputs| :: KnownInput(op, i, read, bytes)
  }

  ghost predicate KnownInput(op: PcodeOp, i: nat, read: Varnode -> ByteConst, bytes: Varnode -> seq<Byte>)
    requires i < |op.inputs|
  {
    var vn := op.inputs[i];
    (op.opcode == Subpiece && i == 1) || (0 < vn.size <= 8 && Knows(read(vn), bytes(vn)))
  }

  lemma KnownFull(op: PcodeOp, i: nat, read: Varnode -> ByteConst, bytes: Varnode -> seq<Byte>)
    requires i < |op.inputs| && 0 < op.inputs[i].size <= 8 && |bytes(op.inputs[i])| == op.inputs[i].size
    requires Knows(read(op.inputs[i]), bytes(op.inputs[i]))
    ensures Full(op, i, read).Some? && Val(op, i, read).Some? && forall j | 0 <= j < op.inputs[i].size :: Val(op, i, read).value[j].Some?
  {
  }

  lemma KnownEval(op: PcodeOp, read: Varnode -> ByteConst, bytes: Varnode -> seq<Byte>)
    requires IsModelled(op.opcode) && SizesFit(op) && op.output.Some? && 0 < op.output.value.size <= 8
    requires |op.inputs| > 0 && KnownInput(op, 0, read, bytes) && ReadsOne(op.inputs[0], read, bytes)
    requires |op.inputs| > 1 ==> KnownInput(op, 1, read, bytes) && ReadsOne(op.inputs[1], read, bytes)
    ensures Eval(op, read).Some? && forall i | 0 <= i < op.output.value.size :: Eval(op, read).value[i].Some?
  {
    KnownFull(op, 0, read, bytes);
    if op.opcode == Piece || IsBinary(op.opcode) || op.opcode == IntLeft || op.opcode == IntRight {
      KnownFull(op, 1, read, bytes);
    }
  }

  lemma WrittenLength(op: PcodeOp, bytes: Varnode -> seq<Byte>)
    requires IsModelled(op.opcode) && op.output.Some? && SizesFit(op)
    requires forall i | 0 <= i < |op.inputs| :: |bytes(op.inputs[i])| == op.inputs[i].size
    ensures |Written(op, bytes)| == op.output.value.size
  {
    var osz := op.output.value.size;
    forall v: int ensures |Low(v, osz)| == osz {
      PowPositive(osz);
      BytesOfLength(v % Pow256(osz), osz);
    }
  }

  /** From inputs all known the output is: none of the bytes an op writes is lost. */
  lemma EvalIsExact(op: PcodeOp, read: Varnode -> ByteConst, bytes: Varnode -> seq<Byte>)
    requires IsModelled(op.opcode) && SizesFit(op) && op.output.Some? && 0 < op.output.value.size <= 8
    requires Reads(op, read, bytes) && AllKnown(op, read, bytes)
    ensures Eval(op, read).Some? && |Written(op, bytes)| == op.output.value.size
    ensures Knows(Eval(op, read).value, Written(op, bytes))
  {
    var osz := op.output.value.size;
    assert KnownInput(op, 0, read, bytes) && ReadsOne(op.inputs[0], read, bytes);
    assert |op.inputs| > 1 ==> KnownInput(op, 1, read, bytes) && ReadsOne(op.inputs[1], read, bytes);
    KnownEval(op, read, bytes);
    WrittenLength(op, bytes);
    EvalIsSound(op, read, bytes);
    var r, w := Eval(op, read).value, Written(op, bytes);
    forall i | 0 <= i < osz ensures r[i] == Some(w[i]) {
      assert r[i].Some?;
    }
  }
}
