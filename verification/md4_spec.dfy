/** The order of the 48 operations on one block, section 3.4 of RFC 1320. It does not depend on
    what an operation computes, so it is stated for any word type and any three operations. */
module Md4Schedule {

  /** The operation of each round: a, b, c, d, a word of the block and a rotation give the new
      value of a. */
  datatype Rounds<!W> = Rounds(ff: (W, W, W, W, W, Rotation) -> W,
                               gg: (W, W, W, W, W, Rotation) -> W,
                               hh: (W, W, W, W, W, Rotation) -> W)

  datatype Regs<W> = Regs(a: W, b: W, c: W, d: W)

  /** Which word of the block each of the 16 operations of rounds 2 and 3 uses. */
  const ROUND2: seq<nat> := [0, 4, 8, 12, 1, 5, 9, 13, 2, 6, 10, 14, 3, 7, 11, 15]
  const ROUND3: seq<nat> := [0, 8, 4, 12, 2, 10, 6, 14, 1, 9, 5, 13, 3, 11, 7, 15]

  /** A number of bits to rotate a word by. */
  type Rotation = s: nat | s < 32

  /** The rotations of each round, used in turn. */
  const SHIFT1: seq<Rotation> := [3, 7, 11, 19]
  const SHIFT2: seq<Rotation> := [3, 5, 9, 13]
  const SHIFT3: seq<Rotation> := [3, 9, 11, 15]

  function WordIndex(i: nat): (k: nat)
    requires i < 48
    ensures k < 16
  {
    if i < 16 then i else if i < 32 then ROUND2[i - 16] else ROUND3[i - 32]
  }

  function Shift(i: nat): Rotation
    requires i < 48
  {
    if i < 16 then SHIFT1[i % 4] else if i < 32 then SHIFT2[i % 4] else SHIFT3[i % 4]
  }

  /** Operation i: with the registers in the roles of this operation it computes the new value of
      its first register; the next operation has the roles [dabc]. */
  function Operation<W>(f: Rounds<W>, i: nat, r: Regs<W>, x: seq<W>): Regs<W>
    requires i < 48 && |x| == 16
  {
    var op := if i < 16 then f.ff else if i < 32 then f.gg else f.hh;
    Regs(r.d, op(r.a, r.b, r.c, r.d, x[WordIndex(i)], Shift(i)), r.b, r.c)
  }

  /** The tables looked up for a group of four operations. */
  lemma Lookup(i: nat, k0: nat, k1: nat, k2: nat, k3: nat, s0: Rotation, s1: Rotation, s2: Rotation, s3: Rotation)
    requires i in {0, 4, 8, 12, 16, 20, 24, 28, 32, 36, 40, 44}
    requires [k0, k1, k2, k3] == if i < 16 then [i, i + 1, i + 2, i + 3] else if i < 32 then ROUND2[i - 16..i - 12] else ROUND3[i - 32..i - 28]
    requires [s0, s1, s2, s3] == if i < 16 then SHIFT1 else if i < 32 then SHIFT2 else SHIFT3
    ensures WordIndex(i) == k0 && WordIndex(i + 1) == k1 && WordIndex(i + 2) == k2 && WordIndex(i + 3) == k3
    ensures Shift(i) == s0 && Shift(i + 1) == s1 && Shift(i + 2) == s2 && Shift(i + 3) == s3
  {
    var ks, ss := [k0, k1, k2, k3], [s0, s1, s2, s3];
    assert ks[0] == k0 && ks[1] == k1 && ks[2] == k2 && ks[3] == k3;
    assert ss[0] == s0 && ss[1] == s1 && ss[2] == s2 && ss[3] == s3;
    hide ROUND2, ROUND3, SHIFT1, SHIFT2, SHIFT3;
  }

  function Operations<W>(f: Rounds<W>, n: nat, r: Regs<W>, x: seq<W>): Regs<W>
    requires n <= 48 && |x| == 16
  {
    if n == 0 then r else Operation(f, n - 1, Operations(f, n - 1, r, x), x)
  }

  /** Four operations with the registers back in their places. */
  lemma Four<W>(f: Rounds<W>, i: nat, r: Regs<W>, x: seq<W>)
    requires i + 4 <= 48 && |x| == 16
    ensures Operations(f, i + 4, r, x) ==
            Operation(f, i + 3, Operation(f, i + 2, Operation(f, i + 1, Operation(f, i, Operations(f, i, r, x), x), x), x), x)
  {
    assert Operations(f, i + 2, r, x) == Operation(f, i + 1, Operation(f, i, Operations(f, i, r, x), x), x);
  }
}

/** The MD4 message digest as sections 2 and 3 of RFC 1320 define it. */
module Md4Spec {
  import opened Md4Schedule

  datatype Byte = Byte(bits: bv8)
  datatype Word = Word(bits: bv32)

  // ---- Section 2: words and their bytes, low-order byte first ----

  function EncodeWord(w: Word): (b: seq<Byte>)
    ensures |b| == 4
  {
    var v := w.bits;
    [Byte((v & 0xff) as bv8), Byte(((v >> 8) & 0xff) as bv8),
     Byte(((v >> 16) & 0xff) as bv8), Byte(((v >> 24) & 0xff) as bv8)]
  }

  function DecodeWord(b0: Byte, b1: Byte, b2: Byte, b3: Byte): Word {
    Word((b0.bits as bv32) | ((b1.bits as bv32) << 8) | ((b2.bits as bv32) << 16) | ((b3.bits as bv32) << 24))
  }

  function EncodeWords(ws: seq<Word>): (b: seq<Byte>)
    ensures |b| == 4 * |ws|
  {
    if ws == [] then [] else EncodeWords(ws[..|ws| - 1]) + EncodeWord(ws[|ws| - 1])
  }

  function DecodeWords(b: seq<Byte>): (ws: seq<Word>)
    requires |b| % 4 == 0
    ensures |ws| == |b| / 4
  {
    if b == [] then []
    else
      var n := |b| - 4;
      DecodeWords(b[..n]) + [DecodeWord(b[n], b[n + 1], b[n + 2], b[n + 3])]
  }

  lemma LastApart<T>(s: seq<T>)
    requires s != []
    ensures s == s[..|s| - 1] + [s[|s| - 1]]
  {
  }

  lemma WordRoundTrip(w: Word)
    ensures var b := EncodeWord(w); DecodeWord(b[0], b[1], b[2], b[3]) == w
  {
  }

  lemma DecodeAppend(b: seq<Byte>, e: seq<Byte>)
    requires |b| % 4 == 0 && |e| == 4
    ensures DecodeWords(b + e) == DecodeWords(b) + [DecodeWord(e[0], e[1], e[2], e[3])]
  {
    assert (b + e)[..|b|] == b;
  }

  lemma DecodeEncoded(b: seq<Byte>, w: Word)
    requires |b| % 4 == 0
    ensures DecodeWords(b + EncodeWord(w)) == DecodeWords(b) + [w]
  {
    WordRoundTrip(w);
    DecodeAppend(b, EncodeWord(w));
  }

  lemma {:induction false} WordsRoundTrip(ws: seq<Word>)
    ensures DecodeWords(EncodeWords(ws)) == ws
  {
    if ws != [] {
      var n := |ws| - 1;
      LastApart(ws);
      WordsRoundTrip(ws[..n]);
      DecodeEncoded(EncodeWords(ws[..n]), ws[n]);
    }
  }

  // ---- Section 3.4: one block ----

  function F(x: bv32, y: bv32, z: bv32): bv32 { (x & y) | (!x & z) }

  function G(x: bv32, y: bv32, z: bv32): bv32 { (x & y) | (x & z) | (y & z) }

  function H(x: bv32, y: bv32, z: bv32): bv32 { x ^ y ^ z }

  function RotateLeft(x: bv32, s: Rotation): bv32 {
    (x << s) | (x >> (32 - s))
  }

  // One operation of each round.

  function Round1(a: bv32, b: bv32, c: bv32, d: bv32, x: bv32, s: Rotation): bv32 {
    RotateLeft(a + (F(b, c, d) + x), s)
  }

  function Round2(a: bv32, b: bv32, c: bv32, d: bv32, x: bv32, s: Rotation): bv32 {
    RotateLeft(a + (G(b, c, d) + x + 0x5a827999), s)
  }

  function Round3(a: bv32, b: bv32, c: bv32, d: bv32, x: bv32, s: Rotation): bv32 {
    RotateLeft(a + (H(b, c, d) + x + 0x6ed9eba1), s)
  }

  function FF(a: Word, b: Word, c: Word, d: Word, x: Word, s: Rotation): Word {
    Word(Round1(a.bits, b.bits, c.bits, d.bits, x.bits, s))
  }

  function GG(a: Word, b: Word, c: Word, d: Word, x: Word, s: Rotation): Word {
    Word(Round2(a.bits, b.bits, c.bits, d.bits, x.bits, s))
  }

  function HH(a: Word, b: Word, c: Word, d: Word, x: Word, s: Rotation): Word {
    Word(Round3(a.bits, b.bits, c.bits, d.bits, x.bits, s))
  }

  const ROUNDS: Rounds<Word> := Rounds(FF, GG, HH)

  function AddRegs(r: Regs<Word>, s: Regs<Word>): Regs<Word> {
    Regs(Word(r.a.bits + s.a.bits), Word(r.b.bits + s.b.bits), Word(r.c.bits + s.c.bits), Word(r.d.bits + s.d.bits))
  }

  /** 48 operations, then each register is increased by its value at the start. */
  function Compress(r: Regs<Word>, block: seq<Byte>): Regs<Word>
    requires |block| == 64
  {
    AddRegs(r, Operations(ROUNDS, 48, r, DecodeWords(block)))
  }

  function Chain(r: Regs<Word>, bytes: seq<Byte>): Regs<Word>
    requires |bytes| % 64 == 0
  {
    if bytes == [] then r
    else Compress(Chain(r, bytes[..|bytes| - 64]), bytes[|bytes| - 64..])
  }

  // ---- Sections 3.1, 3.2, 3.3, 3.5 ----

  const INITIAL: Regs<Word> := Regs(Word(0x67452301), Word(0xefcdab89), Word(0x98badcfe), Word(0x10325476))

  /** A 0x80 byte, then zeros until the length is 56 modulo 64. */
  function Padding(n: nat): (p: seq<Byte>)
    ensures 1 <= |p| <= 64 && (n + |p|) % 64 == 56
  {
    var k := if n % 64 < 56 then 56 - n % 64 else 120 - n % 64;
    seq(k, i => Byte(if i == 0 then 0x80 else 0))
  }

  function WordOf(n: nat): Word
    requires n < 0x1_0000_0000
  {
    Word(n as bv32)
  }

  /** The length in bits modulo 2^64 as two words, low-order word first. */
  function LengthWords(n: nat): seq<Word> {
    [WordOf(8 * n % 0x1_0000_0000), WordOf(8 * n / 0x1_0000_0000 % 0x1_0000_0000)]
  }

  lemma EightMore(n: nat)
    requires n % 64 == 56
    ensures (n + 8) % 64 == 0
  {
  }

  function Padded(message: seq<Byte>): (p: seq<Byte>)
    ensures |p| % 64 == 0
  {
    EightMore(|message| + |Padding(|message|)|);
    message + Padding(|message|) + EncodeWords(LengthWords(|message|))
  }

  function Digest(message: seq<Byte>): (d: seq<Byte>)
    ensures |d| == 16
  {
    var r := Chain(INITIAL, Padded(message));
    EncodeWords([r.a, r.b, r.c, r.d])
  }

  /** The length of the whole blocks of n bytes. */
  function Whole(n: nat): (p: nat)
    ensures p % 64 == 0 && p <= n < p + 64 && n - p == n % 64
  {
    n - n % 64
  }

  function NextBlock(p: nat): (q: nat)
    requires p % 64 == 0
    ensures q % 64 == 0 && q == p + 64
  {
    p + 64
  }

  lemma {:induction false} ChainAppend(r: Regs<Word>, x: seq<Byte>, y: seq<Byte>)
    requires |x| % 64 == 0 && |y| % 64 == 0
    ensures Chain(r, x + y) == Chain(Chain(r, x), y)
  {
    if y == [] {
      assert x + y == x;
    } else {
      var n := |y| - 64;
      assert (x + y)[..|x + y| - 64] == x + y[..n];
      assert (x + y)[|x + y| - 64..] == y[n..];
      ChainAppend(r, x, y[..n]);
    }
  }
}
