/** The streaming MD4 of md4.c, verified against Md4Spec. Words have 32 bits, as the comment on
    UINT4 in global.h asks for. */
module Md4 {
  import opened Md4Schedule
  import opened Md4Spec

  type U32 = n: int | 0 <= n < 0x1_0000_0000

  // The 48 unrolled lines of MD4Transform. The macro arguments change roles from line to line;
  // r is the state before the first line.

  method Lines1to4<W>(f: Rounds<W>, s: Regs<W>, x: seq<W>, ghost r: Regs<W>) returns (t: Regs<W>)
    requires |x| == 16 && s == Operations(f, 0, r, x)
    ensures t == Operations(f, 4, r, x)
  {
    var a, b, c, d := s.a, s.b, s.c, s.d;
    a := f.ff(a, b, c, d, x[0], 3);
    d := f.ff(d, a, b, c, x[1], 7);
    c := f.ff(c, d, a, b, x[2], 11);
    b := f.ff(b, c, d, a, x[3], 19);
    Lookup(0, 0, 1, 2, 3, 3, 7, 11, 19);
    Four(f, 0, r, x);
    hide WordIndex, Shift, Operations;
    return Regs(a, b, c, d);
  }

  method Lines5to8<W>(f: Rounds<W>, s: Regs<W>, x: seq<W>, ghost r: Regs<W>) returns (t: Regs<W>)
    requires |x| == 16 && s == Operations(f, 4, r, x)
    ensures t == Operations(f, 8, r, x)
  {
    var a, b, c, d := s.a, s.b, s.c, s.d;
    a := f.ff(a, b, c, d, x[4], 3);
    d := f.ff(d, a, b, c, x[5], 7);
    c := f.ff(c, d, a, b, x[6], 11);
    b := f.ff(b, c, d, a, x[7], 19);
    Lookup(4, 4, 5, 6, 7, 3, 7, 11, 19);
    Four(f, 4, r, x);
    hide WordIndex, Shift, Operations;
    return Regs(a, b, c, d);
  }

  method Lines9to12<W>(f: Rounds<W>, s: Regs<W>, x: seq<W>, ghost r: Regs<W>) returns (t: Regs<W>)
    requires |x| == 16 && s == Operations(f, 8, r, x)
    ensures t == Operations(f, 12, r, x)
  {
    var a, b, c, d := s.a, s.b, s.c, s.d;
    a := f.ff(a, b, c, d, x[8], 3);
    d := f.ff(d, a, b, c, x[9], 7);
    c := f.ff(c, d, a, b, x[10], 11);
    b := f.ff(b, c, d, a, x[11], 19);
    Lookup(8, 8, 9, 10, 11, 3, 7, 11, 19);
    Four(f, 8, r, x);
    hide WordIndex, Shift, Operations;
    return Regs(a, b, c, d);
  }

  method Lines13to16<W>(f: Rounds<W>, s: Regs<W>, x: seq<W>, ghost r: Regs<W>) returns (t: Regs<W>)
    requires |x| == 16 && s == Operations(f, 12, r, x)
    ensures t == Operations(f, 16, r, x)
  {
    var a, b, c, d := s.a, s.b, s.c, s.d;
    a := f.ff(a, b, c, d, x[12], 3);
    d := f.ff(d, a, b, c, x[13], 7);
    c := f.ff(c, d, a, b, x[14], 11);
    b := f.ff(b, c, d, a, x[15], 19);
    Lookup(12, 12, 13, 14, 15, 3, 7, 11, 19);
    Four(f, 12, r, x);
    hide WordIndex, Shift, Operations;
    return Regs(a, b, c, d);
  }

  method Lines17to20<W>(f: Rounds<W>, s: Regs<W>, x: seq<W>, ghost r: Regs<W>) returns (t: Regs<W>)
    requires |x| == 16 && s == Operations(f, 16, r, x)
    ensures t == Operations(f, 20, r, x)
  {
    var a, b, c, d := s.a, s.b, s.c, s.d;
    a := f.gg(a, b, c, d, x[0], 3);
    d := f.gg(d, a, b, c, x[4], 5);
    c := f.gg(c, d, a, b, x[8], 9);
    b := f.gg(b, c, d, a, x[12], 13);
    Lookup(16, 0, 4, 8, 12, 3, 5, 9, 13);
    Four(f, 16, r, x);
    hide WordIndex, Shift, Operations;
    return Regs(a, b, c, d);
  }

  method Lines21to24<W>(f: Rounds<W>, s: Regs<W>, x: seq<W>, ghost r: Regs<W>) returns (t: Regs<W>)
    requires |x| == 16 && s == Operations(f, 20, r, x)
    ensures t == Operations(f, 24, r, x)
  {
    var a, b, c, d := s.a, s.b, s.c, s.d;
    a := f.gg(a, b, c, d, x[1], 3);
    d := f.gg(d, a, b, c, x[5], 5);
    c := f.gg(c, d, a, b, x[9], 9);
    b := f.gg(b, c, d, a, x[13], 13);
    Lookup(20, 1, 5, 9, 13, 3, 5, 9, 13);
    Four(f, 20, r, x);
    hide WordIndex, Shift, Operations;
    return Regs(a, b, c, d);
  }

  method Lines25to28<W>(f: Rounds<W>, s: Regs<W>, x: seq<W>, ghost r: Regs<W>) returns (t: Regs<W>)
    requires |x| == 16 && s == Operations(f, 24, r, x)
    ensures t == Operations(f, 28, r, x)
  {
    var a, b, c, d := s.a, s.b, s.c, s.d;
    a := f.gg(a, b, c, d, x[2], 3);
    d := f.gg(d, a, b, c, x[6], 5);
    c := f.gg(c, d, a, b, x[10], 9);
    b := f.gg(b, c, d, a, x[14], 13);
    Lookup(24, 2, 6, 10, 14, 3, 5, 9, 13);
    Four(f, 24, r, x);
    hide WordIndex, Shift, Operations;
    return Regs(a, b, c, d);
  }

  method Lines29to32<W>(f: Rounds<W>, s: Regs<W>, x: seq<W>, ghost r: Regs<W>) returns (t: Regs<W>)
    requires |x| == 16 && s == Operations(f, 28, r, x)
    ensures t == Operations(f, 32, r, x)
  {
    var a, b, c, d := s.a, s.b, s.c, s.d;
    a := f.gg(a, b, c, d, x[3], 3);
    d := f.gg(d, a, b, c, x[7], 5);
    c := f.gg(c, d, a, b, x[11], 9);
    b := f.gg(b, c, d, a, x[15], 13);
    Lookup(28, 3, 7, 11, 15, 3, 5, 9, 13);
    Four(f, 28, r, x);
    hide WordIndex, Shift, Operations;
    return Regs(a, b, c, d);
  }

  method Lines33to36<W>(f: Rounds<W>, s: Regs<W>, x: seq<W>, ghost r: Regs<W>) returns (t: Regs<W>)
    requires |x| == 16 && s == Operations(f, 32, r, x)
    ensures t == Operations(f, 36, r, x)
  {
    var a, b, c, d := s.a, s.b, s.c, s.d;
    a := f.hh(a, b, c, d, x[0], 3);
    d := f.hh(d, a, b, c, x[8], 9);
    c := f.hh(c, d, a, b, x[4], 11);
    b := f.hh(b, c, d, a, x[12], 15);
    Lookup(32, 0, 8, 4, 12, 3, 9, 11, 15);
    Four(f, 32, r, x);
    hide WordIndex, Shift, Operations;
    return Regs(a, b, c, d);
  }

  method Lines37to40<W>(f: Rounds<W>, s: Regs<W>, x: seq<W>, ghost r: Regs<W>) returns (t: Regs<W>)
    requires |x| == 16 && s == Operations(f, 36, r, x)
    ensures t == Operations(f, 40, r, x)
  {
    var a, b, c, d := s.a, s.b, s.c, s.d;
    a := f.hh(a, b, c, d, x[2], 3);
    d := f.hh(d, a, b, c, x[10], 9);
    c := f.hh(c, d, a, b, x[6], 11);
    b := f.hh(b, c, d, a, x[14], 15);
    Lookup(36, 2, 10, 6, 14, 3, 9, 11, 15);
    Four(f, 36, r, x);
    hide WordIndex, Shift, Operations;
    return Regs(a, b, c, d);
  }

  method Lines41to44<W>(f: Rounds<W>, s: Regs<W>, x: seq<W>, ghost r: Regs<W>) returns (t: Regs<W>)
    requires |x| == 16 && s == Operations(f, 40, r, x)
    ensures t == Operations(f, 44, r, x)
  {
    var a, b, c, d := s.a, s.b, s.c, s.d;
    a := f.hh(a, b, c, d, x[1], 3);
    d := f.hh(d, a, b, c, x[9], 9);
    c := f.hh(c, d, a, b, x[5], 11);
    b := f.hh(b, c, d, a, x[13], 15);
    Lookup(40, 1, 9, 5, 13, 3, 9, 11, 15);
    Four(f, 40, r, x);
    hide WordIndex, Shift, Operations;
    return Regs(a, b, c, d);
  }

  method Lines45to48<W>(f: Rounds<W>, s: Regs<W>, x: seq<W>, ghost r: Regs<W>) returns (t: Regs<W>)
    requires |x| == 16 && s == Operations(f, 44, r, x)
    ensures t == Operations(f, 48, r, x)
  {
    var a, b, c, d := s.a, s.b, s.c, s.d;
    a := f.hh(a, b, c, d, x[3], 3);
    d := f.hh(d, a, b, c, x[11], 9);
    c := f.hh(c, d, a, b, x[7], 11);
    b := f.hh(b, c, d, a, x[15], 15);
    Lookup(44, 3, 11, 7, 15, 3, 9, 11, 15);
    Four(f, 44, r, x);
    hide WordIndex, Shift, Operations;
    return Regs(a, b, c, d);
  }

  method Round1<W>(f: Rounds<W>, s: Regs<W>, x: seq<W>, ghost r: Regs<W>) returns (t: Regs<W>)
    requires |x| == 16 && s == Operations(f, 0, r, x)
    ensures t == Operations(f, 16, r, x)
  {
    t := Lines1to4(f, s, x, r);
    t := Lines5to8(f, t, x, r);
    t := Lines9to12(f, t, x, r);
    t := Lines13to16(f, t, x, r);
  }

  method Round2<W>(f: Rounds<W>, s: Regs<W>, x: seq<W>, ghost r: Regs<W>) returns (t: Regs<W>)
    requires |x| == 16 && s == Operations(f, 16, r, x)
    ensures t == Operations(f, 32, r, x)
  {
    t := Lines17to20(f, s, x, r);
    t := Lines21to24(f, t, x, r);
    t := Lines25to28(f, t, x, r);
    t := Lines29to32(f, t, x, r);
  }

  method Round3<W>(f: Rounds<W>, s: Regs<W>, x: seq<W>, ghost r: Regs<W>) returns (t: Regs<W>)
    requires |x| == 16 && s == Operations(f, 32, r, x)
    ensures t == Operations(f, 48, r, x)
  {
    t := Lines33to36(f, s, x, r);
    t := Lines37to40(f, t, x, r);
    t := Lines41to44(f, t, x, r);
    t := Lines45to48(f, t, x, r);
  }

  method Unrolled<W>(f: Rounds<W>, r: Regs<W>, x: seq<W>) returns (s: Regs<W>)
    requires |x| == 16
    ensures s == Operations(f, 48, r, x)
  {
    s := Round1(f, r, x, r);
    s := Round2(f, s, x, r);
    s := Round3(f, s, x, r);
  }

  /** Decode: bytes to words, low-order byte first. */
  method Decode(input: seq<Byte>) returns (output: seq<Word>)
    requires |input| % 4 == 0
    ensures output == DecodeWords(input)
  {
    output := [];
    var j := 0;
    while j < |input|
      invariant 0 <= j <= |input| && j % 4 == 0
      invariant output == DecodeWords(input[..j])
    {
      DecodeAppend(input[..j], input[j..j + 4]);
      Cut(input, j);
      output := output + [DecodeWord(input[j], input[j + 1], input[j + 2], input[j + 3])];
      j := j + 4;
    }
    All(input);
  }

  lemma Cut<T>(s: seq<T>, j: nat)
    requires j + 4 <= |s|
    ensures s[..j + 4] == s[..j] + s[j..j + 4]
  {
  }

  lemma All<T>(s: seq<T>)
    ensures s[..|s|] == s
  {
  }

  /** Encode: words to bytes, low-order byte first. */
  method Encode(input: seq<Word>) returns (output: seq<Byte>)
    ensures output == EncodeWords(input)
  {
    output := [];
    for i := 0 to |input|
      invariant output == EncodeWords(input[..i])
    {
      Next(input, i);
      output := output + EncodeWord(input[i]);
    }
    All(input);
  }

  lemma Next<T>(s: seq<T>, i: nat)
    requires i < |s|
    ensures s[..i + 1] != [] && s[..i + 1][..|s[..i + 1]| - 1] == s[..i] && s[..i + 1][|s[..i + 1]| - 1] == s[i]
  {
  }

  method Store<W>(a: array<W>, r: Regs<W>)
    requires a.Length == 4
    modifies a
    ensures Regs(a[0], a[1], a[2], a[3]) == r
  {
    a[0], a[1], a[2], a[3] := r.a, r.b, r.c, r.d;
  }

  /** MD4_memcpy */
  method Copy<T>(output: array<T>, at: nat, input: seq<T>)
    requires at + |input| <= output.Length
    modifies output
    ensures output[..] == old(output[..at]) + input + old(output[at + |input|..])
  {
    for i := 0 to |input|
      invariant output[..] == old(output[..at]) + input[..i] + old(output[at + i..])
    {
      output[at + i] := input[i];
    }
    All(input);
  }

  /** MD4_memset */
  method Fill<T>(output: array<T>, value: T)
    modifies output
    ensures forall k :: 0 <= k < output.Length ==> output[k] == value
  {
    for i := 0 to output.Length
      invariant forall k :: 0 <= k < i ==> output[k] == value
    {
      output[i] := value;
    }
  }

  /** The two words of the bit count after n bytes. */
  ghost predicate Counts(c0: U32, c1: U32, n: nat) {
    c0 == 8 * n % 0x1_0000_0000 && c1 == 8 * n / 0x1_0000_0000 % 0x1_0000_0000
  }

  lemma CountIndex(c0: U32, c1: U32, n: nat)
    requires Counts(c0, c1, n)
    ensures c0 / 8 % 64 == n % 64
  {
    var q, r := n / 0x2000_0000, n % 0x2000_0000;
    assert n == 0x2000_0000 * q + r;
    BitCount(n, q, r);
    SameMod64(n, 0x80_0000 * q, r);
  }

  lemma BitCount(n: nat, q: nat, r: nat)
    requires n == 0x2000_0000 * q + r && r < 0x2000_0000
    ensures 8 * n % 0x1_0000_0000 == 8 * r && 8 * r / 8 == r
  {
    DivMod(8 * n, q, 8 * r);
  }

  lemma SameMod64(n: nat, t: nat, r: nat)
    requires n == 64 * t + r
    ensures n % 64 == r % 64
  {
  }

  /** The carry is detected by comparing the sum with a summand. */
  lemma CountStep(c0: U32, c1: U32, n: nat, len: nat)
    requires Counts(c0, c1, n) && len < 0x1_0000_0000
    ensures var add := len * 8 % 0x1_0000_0000;
            var d0 := (c0 + add) % 0x1_0000_0000;
            var d1 := if d0 < add then (c1 + 1) % 0x1_0000_0000 else c1;
            Counts(d0, (d1 + len / 0x2000_0000) % 0x1_0000_0000, n + len)
  {
    var add := len * 8 % 0x1_0000_0000;
    var d0 := (c0 + add) % 0x1_0000_0000;
    var carry := if d0 < add then 1 else 0;
    var q, p := 8 * n / 0x1_0000_0000, len / 0x2000_0000;
    assert 8 * n == 0x1_0000_0000 * q + c0;
    assert 8 * len == 0x1_0000_0000 * p + add;
    assert c0 + add == 0x1_0000_0000 * carry + d0;
    DivMod(8 * (n + len), q + p + carry, d0);
    ModSums(q, carry, p);
  }

  lemma DivMod(x: nat, q: nat, r: nat)
    requires x == 0x1_0000_0000 * q + r && r < 0x1_0000_0000
    ensures x / 0x1_0000_0000 == q && x % 0x1_0000_0000 == r
  {
  }

  lemma ModSums(q: nat, carry: nat, p: nat)
    requires carry <= 1
    ensures var c1 := q % 0x1_0000_0000;
            ((if carry == 1 then (c1 + 1) % 0x1_0000_0000 else c1) + p) % 0x1_0000_0000 == (q + p + carry) % 0x1_0000_0000
  {
  }

  const PADDING: seq<Byte> := seq(64, i => Byte(if i == 0 then 0x80 else 0))

  function Flatten(pieces: seq<seq<Byte>>): seq<Byte> {
    if pieces == [] then [] else Flatten(pieces[..|pieces| - 1]) + pieces[|pieces| - 1]
  }

  /** However a message is cut into MD4Update calls, the digest is that of the whole message. */
  method HashPieces(pieces: seq<seq<Byte>>) returns (digest: seq<Byte>)
    requires forall p :: p in pieces ==> |p| <= 0x1_0000_0000 - 64
    ensures digest == Digest(Flatten(pieces))
  {
    var context := new Md4Context();
    for i := 0 to |pieces|
      invariant context.Valid() && context.fed == Flatten(pieces[..i])
      invariant fresh(context) && fresh(context.state) && fresh(context.count) && fresh(context.buffer)
    {
      hide Compress, Chain;
      Next(pieces, i);
      context.Update(pieces[i]);
    }
    All(pieces);
    digest := context.Final();
  }

  lemma NothingFed(n: nat)
    requires n == 0
    ensures Whole(n) == 0 && Counts(0, 0, n)
  {
  }

  lemma EmptyChain(r: Regs<Word>)
    ensures Chain(r, []) == r
  {
    hide Compress;
  }

  class Md4Context {
    const state: array<Word>
    const count: array<U32>
    const buffer: array<Byte>
    ghost var fed: seq<Byte>            // everything passed to Update since Init

    ghost predicate Shape() {
      && state.Length == 4 && count.Length == 2 && buffer.Length == 64
      && state as object != count && state as object != buffer && count as object != buffer
    }

    ghost function StateRegs(): Regs<Word>
      requires Shape()
      reads state
    {
      Regs(state[0], state[1], state[2], state[3])
    }

    /** The state is the chain over the complete blocks, the buffer starts with the rest, and the
        count is the length in bits. */
    ghost predicate Valid()
      reads this, state, count, buffer
    {
      && Shape()
      && var full := Whole(|fed|);
         && StateRegs() == Chain(INITIAL, fed[..full])
         && buffer[..|fed| % 64] == fed[full..]
         && Counts(count[0], count[1], |fed|)
    }

    constructor ()
      ensures Valid() && fed == [] && fresh(state) && fresh(count) && fresh(buffer)
    {
      state := new Word[4](_ => Word(0));
      count := new U32[2](_ => 0);
      buffer := new Byte[64](_ => Byte(0));
      new;
      Init();
    }

    /** MD4Init */
    method Init()
      requires Shape()
      modifies this, state, count
      ensures Valid() && fed == []
    {
      hide Chain, Counts, Whole;
      count[0], count[1] := 0, 0;
      Store(state, Regs(Word(0x67452301), Word(0xefcdab89), Word(0x98badcfe), Word(0x10325476)));
      fed := [];
      NothingFed(|fed|);
      EmptyChain(INITIAL);
    }

    /** MD4Transform */
    method Transform(block: seq<Byte>)
      requires Shape() && |block| == 64
      modifies state
      ensures StateRegs() == Compress(old(StateRegs()), block)
    {
      var r := Regs(state[0], state[1], state[2], state[3]);
      var x := Decode(block);
      var s := Unrolled(ROUNDS, r, x);
      Store(state, AddRegs(r, s));
    }

    /** The part of MD4Update that keeps the bit count. */
    method AddCount(inputLen: nat, ghost n: nat)
      requires Shape() && Counts(count[0], count[1], n) && inputLen < 0x1_0000_0000
      modifies count
      ensures Counts(count[0], count[1], n + inputLen)
    {
      CountStep(count[0], count[1], n, inputLen);
      var add := inputLen * 8 % 0x1_0000_0000;
      count[0] := (count[0] + add) % 0x1_0000_0000;
      if count[0] < add {
        var c1: int := count[1];
        count[1] := (c1 + 1) % 0x1_0000_0000;
      }
      count[1] := (count[1] + inputLen / 0x2000_0000) % 0x1_0000_0000;
    }

    /** Completes the block begun in the buffer and processes it. */
    method FirstBlock(index: nat, piece: seq<Byte>)
      requires Shape() && index + |piece| == 64
      modifies state, buffer
      ensures StateRegs() == Compress(old(StateRegs()), old(buffer[..index]) + piece)
    {
      hide Compress;
      Copy(buffer, index, piece);
      assert buffer[..] == old(buffer[..index]) + piece;
      Transform(buffer[..]);
    }

    /** The loop of MD4Update over the whole blocks of the input, which starts at `at` in whole,
        from i on. */
    method WholeBlocks(input: seq<Byte>, start: nat, ghost whole: seq<Byte>, ghost at: nat) returns (i: nat)
      requires Shape() && start <= |input| <= 0x1_0000_0000 - 64
      requires |whole| == at + |input| && input == whole[at..]
      requires (at + start) % 64 == 0 && StateRegs() == Chain(INITIAL, whole[..at + start])
      modifies state
      ensures start <= i <= |input| < i + 64
      ensures (at + i) % 64 == 0 && StateRegs() == Chain(INITIAL, whole[..at + i])
    {
      hide Compress, Chain;
      i := start;
      while i + 63 < |input|
        invariant start <= i <= |input|
        invariant (at + i) % 64 == 0 && StateRegs() == Chain(INITIAL, whole[..at + i])
      {
        assert i + 63 < 0x1_0000_0000;       // i + 63 does not wrap
        Transform(input[i..i + 64]);
        assert input[i..i + 64] == whole[at + i..at + i + 64];
        ChainBlock(INITIAL, whole, at + i);
        i := i + 64;
      }
    }

    /** MD4Update */
    method Update(input: seq<Byte>)
      requires Valid() && |input| <= 0x1_0000_0000 - 64
      modifies this, state, count, buffer
      ensures Valid() && fed == old(fed) + input
    {
      hide Compress, Chain;
      ghost var n, whole := |fed|, fed + input;
      CountIndex(count[0], count[1], n);
      var index := count[0] / 8 % 64;
      AddCount(|input|, n);
      var partLen := 64 - index;
      var i := 0;
      Rest(n, index);
      Prefix(fed, input, n - index);
      if |input| >= partLen {
        FirstChain(fed, input, index);
        FirstBlock(index, input[..partLen]);
        i := WholeBlocks(input, partLen, whole, n);
        index := 0;
      }
      StoreTail(input, i, index, whole);
    }

    /** MD4Final: pads, appends the bit count, takes the digest and zeroizes the context. */
    method Final() returns (digest: seq<Byte>)
      requires Valid()
      modifies this, state, count, buffer
      ensures digest == Digest(old(fed))
      ensures forall k :: 0 <= k < 4 ==> state[k] == Word(0)
      ensures count[0] == count[1] == 0
      ensures forall k :: 0 <= k < 64 ==> buffer[k] == Byte(0)
    {
      hide Compress, Chain, EncodeWord, WordOf;
      ghost var message := fed;
      var bits := Encode([WordOf(count[0]), WordOf(count[1])]);
      CountIndex(count[0], count[1], |fed|);
      var index := count[0] / 8 % 64;
      var padLen := if index < 56 then 56 - index else 120 - index;
      assert PADDING[..padLen] == Padding(|message|);
      Update(PADDING[..padLen]);
      Update(bits);
      assert fed == Padded(message);
      assert fed[..|fed|] == fed;
      digest := Encode([state[0], state[1], state[2], state[3]]);
      Fill(state, Word(0));
      Fill(count, 0);
      Fill(buffer, Byte(0));
    }

    /** The buffer starts with what follows the block boundary p. */
    lemma ValidAt(p: nat)
      requires Shape() && p <= |fed| < p + 64 && p % 64 == 0
      requires StateRegs() == Chain(INITIAL, fed[..p]) && Counts(count[0], count[1], |fed|)
      requires buffer[..][..|fed| - p] == fed[p..]
      ensures Valid()
    {
      hide Chain, Counts;
      Rest(|fed|, |fed| - p);
      assert buffer[..|fed| - p] == buffer[..][..|fed| - p];
    }

    /** The last memcpy of MD4Update: what is left of the input goes to the buffer at index. */
    method StoreTail(input: seq<Byte>, i: nat, index: nat, ghost whole: seq<Byte>)
      requires Shape() && i <= |input| <= |whole| && index + |input| - i < 64
      requires input == whole[|whole| - |input|..]
      requires 0 <= |whole| - |input| + i - index && (|whole| - |input| + i - index) % 64 == 0
      requires StateRegs() == Chain(INITIAL, whole[..|whole| - |input| + i - index])
      requires index == 0 || (i == 0 && index <= |whole| - |input| && buffer[..index] == whole[|whole| - |input| - index..|whole| - |input|])
      requires Counts(count[0], count[1], |whole|)
      modifies this, buffer
      ensures Valid() && fed == whole
    {
      ghost var kept := buffer[..index];
      ghost var p := |whole| - |input| + i - index;
      TailKept(whole, input, i, index, kept);
      hide Chain, Counts, Valid;
      Copy(buffer, index, input[i..]);
      fed := whole;
      Front(kept, input[i..], buffer[..]);
      ValidAt(p);
    }
  }

  /** index bytes are left over after whole blocks. */
  lemma Rest(n: nat, index: nat)
    requires index < 64 && index <= n
    ensures n % 64 == index <==> (n - index) % 64 == 0
    ensures n % 64 == index ==> (n - index + 64) % 64 == 0
  {
  }

  lemma TailKept<T>(whole: seq<T>, input: seq<T>, i: nat, index: nat, kept: seq<T>)
    requires i <= |input| <= |whole| && input == whole[|whole| - |input|..]
    requires |kept| == index <= |whole| - |input| + i
    requires index == 0 || (i == 0 && kept == whole[|whole| - |input| - index..|whole| - |input|])
    ensures kept + input[i..] == whole[|whole| - |input| + i - index..]
  {
  }

  lemma Front<T>(a: seq<T>, b: seq<T>, s: seq<T>)
    requires |a| + |b| <= |s| && s == a + b + s[|a| + |b|..]
    ensures s[..|a| + |b|] == a + b
  {
  }

  lemma Straddle<T>(fed: seq<T>, input: seq<T>, index: nat)
    requires index <= |fed| && index <= 64 <= index + |input|
    ensures fed[|fed| - index..] + input[..64 - index] == (fed + input)[|fed| - index..|fed| - index + 64]
  {
  }

  lemma Prefix<T>(s: seq<T>, t: seq<T>, k: nat)
    requires k <= |s|
    ensures (s + t)[..k] == s[..k]
    ensures t == (s + t)[|s|..]
    ensures s[k..] == (s + t)[k..|s|]
  {
  }

  /** The chain over the block that the buffered bytes begin and the input completes. */
  lemma FirstChain(fed: seq<Byte>, input: seq<Byte>, index: nat)
    requires index == |fed| - Whole(|fed|) && 64 <= index + |input|
    ensures Compress(Chain(INITIAL, fed[..Whole(|fed|)]), fed[Whole(|fed|)..] + input[..64 - index])
         == Chain(INITIAL, (fed + input)[..NextBlock(Whole(|fed|))])
  {
    hide Compress, Chain, Whole;
    Straddle(fed, input, index);
    ChainBlock(INITIAL, fed + input, |fed| - index);
    Prefix(fed, input, |fed| - index);
  }

  /** The chain over one more block. */
  lemma ChainBlock(r: Regs<Word>, s: seq<Byte>, p: nat)
    requires p % 64 == 0 && p + 64 <= |s|
    ensures Chain(r, s[..NextBlock(p)]) == Compress(Chain(r, s[..p]), s[p..p + 64])
  {
    hide Compress;
    assert s[..p + 64][..p] == s[..p];
    assert s[..p + 64][p..] == s[p..p + 64];
  }
}
