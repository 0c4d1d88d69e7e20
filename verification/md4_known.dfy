/** What MD4 computes, apart from how: its pieces on all words, and a message of the test suite in
    appendix A.5 of RFC 1320. */
module Md4Known {
  import opened Md4Schedule
  import opened Md4Spec

  // ---- The pieces ----

  /** Where x has a one F takes the bit of y, elsewhere that of z. */
  lemma Choice(x: bv32, y: bv32, z: bv32)
    ensures F(x, y, z) & x == y & x && F(x, y, z) & !x == z & !x
  {
  }

  /** Where two of the three agree G has their bit. */
  lemma Majority(x: bv32, y: bv32, z: bv32)
    ensures G(x, y, z) & !(x ^ y) == x & !(x ^ y)
    ensures G(x, y, z) & !(x ^ z) == x & !(x ^ z)
    ensures G(x, y, z) & !(y ^ z) == y & !(y ^ z)
  {
  }

  /** H has the bit of z where x and y agree, and the other one where they do not. */
  lemma Parity(x: bv32, y: bv32, z: bv32)
    ensures H(x, y, z) & !(x ^ y) == z & !(x ^ y)
    ensures H(x, y, z) & (x ^ y) == !z & (x ^ y)
  {
  }

  lemma Rotated(x: bv32)
    ensures RotateLeft(x, 3) == x.RotateLeft(3) && RotateLeft(x, 5) == x.RotateLeft(5)
    ensures RotateLeft(x, 7) == x.RotateLeft(7) && RotateLeft(x, 9) == x.RotateLeft(9)
    ensures RotateLeft(x, 11) == x.RotateLeft(11) && RotateLeft(x, 13) == x.RotateLeft(13)
    ensures RotateLeft(x, 15) == x.RotateLeft(15) && RotateLeft(x, 19) == x.RotateLeft(19)
  {
  }

  /** The constants of rounds 2 and 3 are the integer parts of 2^30 times the square roots of 2 and
      3; round 1 has none. */
  lemma RoundConstants()
    ensures FF(Word(0), Word(0), Word(0), Word(0), Word(0), 0) == Word(0)
    ensures var k := GG(Word(0), Word(0), Word(0), Word(0), Word(0), 0).bits as nat;
            k * k <= 2 * 0x4000_0000 * 0x4000_0000 < (k + 1) * (k + 1)
    ensures var k := HH(Word(0), Word(0), Word(0), Word(0), Word(0), 0).bits as nat;
            k * k <= 3 * 0x4000_0000 * 0x4000_0000 < (k + 1) * (k + 1)
  {
  }

  function Bytes(b: seq<bv8>): (r: seq<Byte>)
    ensures |r| == |b| && forall i :: 0 <= i < |b| ==> r[i] == Byte(b[i])
  {
    seq(|b|, i requires 0 <= i < |b| => Byte(b[i]))
  }

  lemma FourWords(a: Word, b: Word, c: Word, d: Word)
    ensures EncodeWords([a, b, c, d]) == EncodeWord(a) + EncodeWord(b) + EncodeWord(c) + EncodeWord(d)
  {
    assert [a, b, c, d][..3] == [a, b, c] && [a, b, c][..2] == [a, b] && [a, b][..1] == [a] && [a][..0] == [];
    assert EncodeWords([a]) == [] + EncodeWord(a);
    assert EncodeWords([a, b]) == EncodeWords([a]) + EncodeWord(b);
    assert EncodeWords([a, b, c]) == EncodeWords([a, b]) + EncodeWord(c);
    assert EncodeWords([a, b, c, d]) == EncodeWords([a, b, c]) + EncodeWord(d);
  }

  /** Section 3.3 of RFC 1320 gives the initial registers by their bytes, low-order byte first. */
  lemma InitialBytes()
    ensures EncodeWords([INITIAL.a, INITIAL.b, INITIAL.c, INITIAL.d])
         == Bytes([0x01, 0x23, 0x45, 0x67, 0x89, 0xab, 0xcd, 0xef, 0xfe, 0xdc, 0xba, 0x98, 0x76, 0x54, 0x32, 0x10])
  {
    FourWords(INITIAL.a, INITIAL.b, INITIAL.c, INITIAL.d);
  }

  // ---- A message of the test suite ----

  const ALPHABET: seq<bv8> := [
    0x61, 0x62, 0x63, 0x64, 0x65, 0x66, 0x67, 0x68, 0x69, 0x6a, 0x6b, 0x6c, 0x6d,
    0x6e, 0x6f, 0x70, 0x71, 0x72, 0x73, 0x74, 0x75, 0x76, 0x77, 0x78, 0x79, 0x7a]

  /** The words of its one block. */
  const BLOCK: seq<Word> := [
    Word(0x64636261), Word(0x68676665), Word(0x6c6b6a69), Word(0x706f6e6d),
    Word(0x74737271), Word(0x78777675), Word(0x00807a79), Word(0x00000000),
    Word(0x00000000), Word(0x00000000), Word(0x00000000), Word(0x00000000),
    Word(0x00000000), Word(0x00000000), Word(0x000000d0), Word(0x00000000)]

  /** What is known of the registers before and after operation i. */
  ghost predicate Before(i: nat, a: bv32, b: bv32, c: bv32, d: bv32)
    requires i <= 48
  {
    Operations(ROUNDS, i, INITIAL, BLOCK) == Regs(Word(a), Word(b), Word(c), Word(d))
  }

  /** Operation i takes the word x and rotates by s. */
  predicate Takes(i: nat, x: bv32, s: Rotation)
    requires i < 48
  {
    BLOCK[WordIndex(i)] == Word(x) && Shift(i) == s
  }

  lemma First(i: nat, a: bv32, b: bv32, c: bv32, d: bv32, x: bv32, s: Rotation, v: bv32)
    requires i < 16 && Before(i, a, b, c, d) && Takes(i, x, s)
    requires Round1(a, b, c, d, x, s) == v
    ensures Before(i + 1, d, v, b, c)
  {
    hide Round1;
  }

  lemma Second(i: nat, a: bv32, b: bv32, c: bv32, d: bv32, x: bv32, s: Rotation, v: bv32)
    requires 16 <= i < 32 && Before(i, a, b, c, d) && Takes(i, x, s)
    requires Round2(a, b, c, d, x, s) == v
    ensures Before(i + 1, d, v, b, c)
  {
    hide Round2;
  }

  lemma Third(i: nat, a: bv32, b: bv32, c: bv32, d: bv32, x: bv32, s: Rotation, v: bv32)
    requires 32 <= i < 48 && Before(i, a, b, c, d) && Takes(i, x, s)
    requires Round3(a, b, c, d, x, s) == v
    ensures Before(i + 1, d, v, b, c)
  {
    hide Round3;
  }

  lemma Table1()
    ensures Takes(0, 0x64636261, 3) && Takes(1, 0x68676665, 7) && Takes(2, 0x6c6b6a69, 11) && Takes(3, 0x706f6e6d, 19)
    ensures Takes(4, 0x74737271, 3) && Takes(5, 0x78777675, 7) && Takes(6, 0x00807a79, 11) && Takes(7, 0x00000000, 19)
    ensures Takes(8, 0x00000000, 3) && Takes(9, 0x00000000, 7) && Takes(10, 0x00000000, 11) && Takes(11, 0x00000000, 19)
    ensures Takes(12, 0x00000000, 3) && Takes(13, 0x00000000, 7) && Takes(14, 0x000000d0, 11) && Takes(15, 0x00000000, 19)
  {
  }

  lemma After16()
    ensures Before(16, 0x2df716ba, 0x52afbb11, 0xb48ebe32, 0x89d29083)
  {
    assert Before(0, 0x67452301, 0xefcdab89, 0x98badcfe, 0x10325476);
    Table1();
    hide Before, Takes;
    First(0, 0x67452301, 0xefcdab89, 0x98badcfe, 0x10325476, 0x64636261, 3, 0x231b1303);
    First(1, 0x10325476, 0x231b1303, 0xefcdab89, 0x98badcfe, 0x68676665, 7, 0x21c56c1a);
    First(2, 0x98badcfe, 0x21c56c1a, 0x231b1303, 0xefcdab89, 0x6c6b6a69, 11, 0x7e5757a1);
    First(3, 0xefcdab89, 0x7e5757a1, 0x21c56c1a, 0x231b1303, 0x706f6e6d, 19, 0xefc40c52);
    First(4, 0x231b1303, 0xefc40c52, 0x7e5757a1, 0x21c56c1a, 0x74737271, 3, 0x2e9f4be0);
    First(5, 0x21c56c1a, 0x2e9f4be0, 0xefc40c52, 0x7e5757a1, 0x78777675, 7, 0x807f680c);
    First(6, 0x7e5757a1, 0x807f680c, 0x2e9f4be0, 0xefc40c52, 0x00807a79, 11, 0xb8f36773);
    First(7, 0xefc40c52, 0xb8f36773, 0x807f680c, 0x2e9f4be0, 0x00000000, 19, 0xa693b21b);
    First(8, 0x2e9f4be0, 0xa693b21b, 0xb8f36773, 0x807f680c, 0x00000000, 3, 0x7cf5afbe);
    First(9, 0x807f680c, 0x7cf5afbe, 0xa693b21b, 0xb8f36773, 0x00000000, 7, 0x89a53392);
    First(10, 0xb8f36773, 0x89a53392, 0x7cf5afbe, 0xa693b21b, 0x00000000, 11, 0x5858773d);
    First(11, 0xa693b21b, 0x5858773d, 0x89a53392, 0x7cf5afbe, 0x00000000, 19, 0x6d6e99cb);
    First(12, 0x7cf5afbe, 0x6d6e99cb, 0x5858773d, 0x89a53392, 0x00000000, 3, 0x2df716ba);
    First(13, 0x89a53392, 0x2df716ba, 0x6d6e99cb, 0x5858773d, 0x00000000, 7, 0x89d29083);
    First(14, 0x5858773d, 0x89d29083, 0x2df716ba, 0x6d6e99cb, 0x000000d0, 11, 0xb48ebe32);
    First(15, 0x6d6e99cb, 0xb48ebe32, 0x89d29083, 0x2df716ba, 0x00000000, 19, 0x52afbb11);
  }

  lemma Table2()
    ensures Takes(16, 0x64636261, 3) && Takes(17, 0x74737271, 5) && Takes(18, 0x00000000, 9) && Takes(19, 0x00000000, 13)
    ensures Takes(20, 0x68676665, 3) && Takes(21, 0x78777675, 5) && Takes(22, 0x00000000, 9) && Takes(23, 0x00000000, 13)
    ensures Takes(24, 0x6c6b6a69, 3) && Takes(25, 0x00807a79, 5) && Takes(26, 0x00000000, 9) && Takes(27, 0x000000d0, 13)
    ensures Takes(28, 0x706f6e6d, 3) && Takes(29, 0x00000000, 5) && Takes(30, 0x00000000, 9) && Takes(31, 0x00000000, 13)
  {
  }

  lemma After32()
    ensures Before(32, 0x1fb02aa9, 0x1e08e69d, 0x5152e7dc, 0x50d1ed79)
  {
    After16();
    Table2();
    hide Before, Takes;
    Second(16, 0x2df716ba, 0x52afbb11, 0xb48ebe32, 0x89d29083, 0x64636261, 3, 0xeb5d663b);
    Second(17, 0x89d29083, 0xeb5d663b, 0x52afbb11, 0xb48ebe32, 0x74737271, 5, 0x6b075809);
    Second(18, 0xb48ebe32, 0x6b075809, 0xeb5d663b, 0x52afbb11, 0x00000000, 9, 0x4163c8f4);
    Second(19, 0x52afbb11, 0x4163c8f4, 0x6b075809, 0xeb5d663b, 0x00000000, 13, 0x2f9c630f);
    Second(20, 0xeb5d663b, 0x2f9c630f, 0x4163c8f4, 0x6b075809, 0x68676665, 3, 0xca747230);
    Second(21, 0x6b075809, 0xca747230, 0x2f9c630f, 0x4163c8f4, 0x78777675, 5, 0x2eb54971);
    Second(22, 0x4163c8f4, 0x2eb54971, 0xca747230, 0x2f9c630f, 0x00000000, 9, 0x354b7d95);
    Second(23, 0x2f9c630f, 0x354b7d95, 0x2eb54971, 0xca747230, 0x00000000, 13, 0x8abb3712);
    Second(24, 0xca747230, 0x8abb3712, 0x354b7d95, 0x2eb54971, 0x6c6b6a69, 3, 0x00ee9a1e);
    Second(25, 0x2eb54971, 0x00ee9a1e, 0x8abb3712, 0x354b7d95, 0x00807a79, 5, 0x546f9331);
    Second(26, 0x354b7d95, 0x546f9331, 0x00ee9a1e, 0x8abb3712, 0x00000000, 9, 0x7b148121);
    Second(27, 0x8abb3712, 0x7b148121, 0x546f9331, 0x00ee9a1e, 0x000000d0, 13, 0x889586b5);
    Second(28, 0x00ee9a1e, 0x889586b5, 0x7b148121, 0x546f9331, 0x706f6e6d, 3, 0x1fb02aa9);
    Second(29, 0x546f9331, 0x1fb02aa9, 0x889586b5, 0x7b148121, 0x00000000, 5, 0x50d1ed79);
    Second(30, 0x7b148121, 0x50d1ed79, 0x1fb02aa9, 0x889586b5, 0x00000000, 9, 0x5152e7dc);
    Second(31, 0x889586b5, 0x5152e7dc, 0x50d1ed79, 0x1fb02aa9, 0x00000000, 13, 0x1e08e69d);
  }

  lemma Table3()
    ensures Takes(32, 0x64636261, 3) && Takes(33, 0x00000000, 9) && Takes(34, 0x74737271, 11) && Takes(35, 0x00000000, 15)
    ensures Takes(36, 0x6c6b6a69, 3) && Takes(37, 0x00000000, 9) && Takes(38, 0x00807a79, 11) && Takes(39, 0x000000d0, 15)
    ensures Takes(40, 0x68676665, 3) && Takes(41, 0x00000000, 9) && Takes(42, 0x78777675, 11) && Takes(43, 0x00000000, 15)
    ensures Takes(44, 0x706f6e6d, 3) && Takes(45, 0x00000000, 9) && Takes(46, 0x00000000, 11) && Takes(47, 0x00000000, 15)
  {
  }

  lemma After48()
    ensures Before(48, 0xc8d77bd6, 0xddedfa01, 0xcb32cbf0, 0x98faed69)
  {
    After32();
    Table3();
    hide Before, Takes;
    Third(32, 0x1fb02aa9, 0x1e08e69d, 0x5152e7dc, 0x50d1ed79, 0x64636261, 3, 0x93cb2718);
    Third(33, 0x50d1ed79, 0x93cb2718, 0x1e08e69d, 0x5152e7dc, 0x00000000, 9, 0x79fee738);
    Third(34, 0x5152e7dc, 0x79fee738, 0x93cb2718, 0x1e08e69d, 0x74737271, 11, 0xeb655946);
    Third(35, 0x1e08e69d, 0xeb655946, 0x79fee738, 0x93cb2718, 0x00000000, 15, 0xb5d24719);
    Third(36, 0x93cb2718, 0xb5d24719, 0xeb655946, 0x79fee738, 0x6c6b6a69, 3, 0xb2d3b44c);
    Third(37, 0x79fee738, 0xb2d3b44c, 0xb5d24719, 0xeb655946, 0x00000000, 9, 0x7af9d9aa);
    Third(38, 0xeb655946, 0x7af9d9aa, 0xb2d3b44c, 0xb5d24719, 0x00807a79, 11, 0xbf52fec5);
    Third(39, 0xb5d24719, 0xbf52fec5, 0x7af9d9aa, 0xb2d3b44c, 0x000000d0, 15, 0x6356ce12);
    Third(40, 0xb2d3b44c, 0x6356ce12, 0xbf52fec5, 0x7af9d9aa, 0x68676665, 3, 0x88977e79);
    Third(41, 0x7af9d9aa, 0x88977e79, 0x6356ce12, 0xbf52fec5, 0x00000000, 9, 0xce27f27c);
    Third(42, 0xbf52fec5, 0xce27f27c, 0x88977e79, 0x6356ce12, 0x78777675, 11, 0x55179664);
    Third(43, 0x6356ce12, 0x55179664, 0xce27f27c, 0x88977e79, 0x00000000, 15, 0xea0a72eb);
    Third(44, 0x88977e79, 0xea0a72eb, 0x55179664, 0xce27f27c, 0x706f6e6d, 3, 0xc8d77bd6);
    Third(45, 0xce27f27c, 0xc8d77bd6, 0xea0a72eb, 0x55179664, 0x00000000, 9, 0x98faed69);
    Third(46, 0x55179664, 0x98faed69, 0xc8d77bd6, 0xea0a72eb, 0x00000000, 11, 0xcb32cbf0);
    Third(47, 0xea0a72eb, 0xcb32cbf0, 0x98faed69, 0xc8d77bd6, 0x00000000, 15, 0xddedfa01);
  }

  /** Word i of some bytes. */
  lemma {:induction false} WordAt(b: seq<Byte>, i: nat)
    requires |b| % 4 == 0 && 4 * i < |b|
    ensures DecodeWords(b)[i] == DecodeWord(b[4 * i], b[4 * i + 1], b[4 * i + 2], b[4 * i + 3])
  {
    hide DecodeWord;
    if 4 * i + 4 < |b| {
      WordAt(b[..|b| - 4], i);
    }
  }

  /** The block is the message, padded. */
  lemma OneBlock()
    ensures |Padded(Bytes(ALPHABET))| == 64 && DecodeWords(Padded(Bytes(ALPHABET))) == BLOCK
  {
    PaddedAlphabet();
    hide Padded, DecodeWords;
    var b := Padded(Bytes(ALPHABET));
    forall i: nat | i < 16
      ensures DecodeWords(b)[i] == BLOCK[i]
    {
      WordAt(b, i);
    }
  }

  lemma PaddedAlphabet()
    ensures |Padded(Bytes(ALPHABET))| == 64
    ensures forall i :: 0 <= i < 64 ==>
      Padded(Bytes(ALPHABET))[i] == Byte(if i < 26 then ALPHABET[i] else if i == 26 then 0x80 else if i == 56 then 208 else 0)
  {
    assert LengthWords(26) == [WordOf(208), WordOf(0)];
    assert [WordOf(208), WordOf(0)][..1] == [WordOf(208)] && [WordOf(208)][..0] == [];
    assert EncodeWords([WordOf(208)]) == [] + EncodeWord(WordOf(208));
    assert EncodeWord(WordOf(208)) == [Byte(208), Byte(0), Byte(0), Byte(0)];
    assert EncodeWord(WordOf(0)) == [Byte(0), Byte(0), Byte(0), Byte(0)];
  }

  /** MD4("abcdefghijklmnopqrstuvwxyz") = d79e1c308aa5bbcdeea8ed63df412da9 */
  lemma DigestOfAlphabet()
    ensures Digest(Bytes(ALPHABET))
         == Bytes([0xd7, 0x9e, 0x1c, 0x30, 0x8a, 0xa5, 0xbb, 0xcd, 0xee, 0xa8, 0xed, 0x63, 0xdf, 0x41, 0x2d, 0xa9])
  {
    OneBlock();
    After48();
    hide Operations, DecodeWords, Padded;
    var b := Padded(Bytes(ALPHABET));
    assert b[..0] == [] && b[0..] == b && Chain(INITIAL, []) == INITIAL;
    assert Chain(INITIAL, b) == Compress(INITIAL, b);
    assert Compress(INITIAL, b) == Regs(Word(0x301c9ed7), Word(0xcdbba58a), Word(0x63eda8ee), Word(0xa92d41df));
    FourWords(Word(0x301c9ed7), Word(0xcdbba58a), Word(0x63eda8ee), Word(0xa92d41df));
  }
}
