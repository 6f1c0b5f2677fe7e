/**
 Up to 64 passes of one method scanned together. What the program keeps in the bits of a
 64-bit word, one for each pass, is a set of passes here.
 */
module FlossGroup {
  import opened FlossBytes
  import opened FlossRuns

  /** The passes, and by source byte those that decode it printable and to a letter. */
  datatype Group = Group(methods: seq<Method>, printable: Byte -> Passes, letter: Byte -> Passes)

  predicate SameKind(a: Method, b: Method) {
    a.Xor? == b.Xor? && a.Add? == b.Add? && a.Rol? == b.Rol?
  }

  ghost predicate Valid(g: Group) {
    && 0 < |g.methods| <= 64
    && (forall q | 0 <= q < |g.methods| :: SameKind(g.methods[0], g.methods[q]))
    && (forall b: Byte, q: nat :: TablesAt(g, b, q))
  }

  /** What the tables say of byte `b` and pass `q`. */
  ghost predicate TablesAt(g: Group, b: Byte, q: nat) {
    && (q in g.printable(b) <==> q < |g.methods| && IsPrintable(Decode(g.methods[q], b)))
    && (q in g.letter(b) <==> q < |g.methods| && IsLetter(Decode(g.methods[q], b)))
  }

  lemma PrintsIff(g: Group, b: Byte, q: nat)
    requires Valid(g)
    ensures q in g.printable(b) <==> q < |g.methods| && IsPrintable(Decode(g.methods[q], b))
  {
    assert TablesAt(g, b, q);
  }

  function Table(methods: seq<Method>, test: Byte -> bool): Byte -> Passes {
    b => set q | 0 <= q < |methods| && test(Decode(methods[q], b))
  }

  function NewGroup(methods: seq<Method>): Group {
    Group(methods, Table(methods, IsPrintable), Table(methods, IsLetter))
  }

  lemma NewGroupIsValid(methods: seq<Method>)
    requires 0 < |methods| <= 64 && forall q | 0 <= q < |methods| :: SameKind(methods[0], methods[q])
    ensures Valid(NewGroup(methods))
  {
  }

  /** The pass decodes each byte printable or not. */
  function Row(m: Method, buf: seq<Byte>): (r: seq<bool>)
    ensures |r| == |buf|
  {
    seq(|buf|, t requires 0 <= t < |buf| => IsPrintable(Decode(m, buf[t])))
  }

  /** Three letters, pairwise distinct ignoring case. */
  predicate IsWord(a: Byte, b: Byte, c: Byte) {
    && IsLetter(a) && IsLetter(b) && IsLetter(c)
    && ToLower(a) != ToLower(b) && ToLower(b) != ToLower(c) && ToLower(a) != ToLower(c)
  }

  /** The pass decodes the three bytes from `t` on to a word. */
  predicate WordAt(m: Method, buf: seq<Byte>, t: nat) {
    t + 3 <= |buf| && IsWord(Decode(m, buf[t]), Decode(m, buf[t + 1]), Decode(m, buf[t + 2]))
  }

  /** The first `n` passes. */
  function First(n: nat): Passes {
    if n == 0 then {} else First(n - 1) + {n - 1}
  }

  lemma {:induction false} FirstHas(n: nat, q: nat)
    ensures q in First(n) <==> q < n
  {
    if n > 0 { FirstHas(n - 1, q); }
  }

  /** All passes or none. */
  function All(ok: bool): Passes {
    if ok then First(64) else {}
  }

  /** The passes that decode `a`, `b` and `c` to distinct letters, given that they decode them
      to letters: found without decoding but for rotations. */
  function Distinct(g: Group, a: Byte, b: Byte, c: Byte): Passes
    requires |g.methods| > 0
  {
    match g.methods[0]
    case Xor(k) => All(Apart(Xor(k), a, b) && Apart(Xor(k), b, c) && Apart(Xor(k), a, c))
    case Add(k) => All(Apart(Add(k), a, b) && Apart(Add(k), b, c) && Apart(Add(k), a, c))
    case Rol(_) =>
      set q | 0 <= q < |g.methods| &&
        Apart(g.methods[q], a, b) && Apart(g.methods[q], b, c) && Apart(g.methods[q], a, c)
  }

  lemma DistinctIff(g: Group, q: nat, a: Byte, b: Byte, c: Byte)
    requires Valid(g) && q < |g.methods|
    requires var d := g.methods[q]; IsLetter(Decode(d, a)) && IsLetter(Decode(d, b)) && IsLetter(Decode(d, c))
    ensures q in Distinct(g, a, b, c) <==> IsWord(Decode(g.methods[q], a), Decode(g.methods[q], b), Decode(g.methods[q], c))
  {
    var d := g.methods[q];
    assert SameKind(g.methods[0], d);
    FirstHas(64, q);
    ApartIff(d, a, b);
    ApartIff(d, b, c);
    ApartIff(d, a, c);
  }

  /** Of the passes `open`, those with a word at `t`. */
  function WordsFound(g: Group, buf: seq<Byte>, t: nat, open: Passes): Passes
    requires |g.methods| > 0
  {
    if t + 3 > |buf| then {}
    else
      var a, b, c := buf[t], buf[t + 1], buf[t + 2];
      open * g.letter(a) * g.letter(b) * g.letter(c) * Distinct(g, a, b, c)
  }

  lemma WordsFoundIff(g: Group, buf: seq<Byte>, t: nat, open: Passes, q: nat)
    requires Valid(g)
    ensures q in WordsFound(g, buf, t, open) <==> q in open && q < |g.methods| && WordAt(g.methods[q], buf, t)
  {
    if t + 3 <= |buf| {
      var a, b, c := buf[t], buf[t + 1], buf[t + 2];
      assert TablesAt(g, a, q);
      assert TablesAt(g, b, q);
      assert TablesAt(g, c, q);
      if q in g.letter(a) && q in g.letter(b) && q in g.letter(c) {
        DistinctIff(g, q, a, b, c);
      }
    }
  }
}
