/** What reading gives back of what was written. */
module ExternalRoundTrip {
  import opened Bytes
  import opened Erlang
  import opened ExternalFormat
  import OtpIds

  // ---- Fixed size pieces ----

  lemma ReadExactly(b: seq<Byte>, rest: seq<Byte>)
    ensures ReadN(|b|, b + rest) == Ok(b, rest)
  {
    assert (b + rest)[..|b|] == b && (b + rest)[|b|..] == rest;
  }

  lemma ReadHead(b: Byte, rest: seq<Byte>)
    ensures Read1([b] + rest) == Ok(b, rest)
    ensures b != VERSION ==> ReadTag([b] + rest) == Ok(b, rest)
  {
    assert ([b] + rest)[1..] == rest;
  }

  lemma BE2RoundTrip(n: int, rest: seq<Byte>)
    ensures Read2BE(BE2(n) + rest) == Ok(n % 0x1_0000, rest)
  {
    ReadExactly(BE2(n), rest);
  }

  lemma BE4RoundTrip(n: int, rest: seq<Byte>)
    ensures Read4BE(BE4(n) + rest) == Ok(Signed32(n), rest)
  {
    ReadExactly(BE4(n), rest);
    Digits(n);
    assert Signed32(n % 0x1_0000_0000) == Signed32(n);
  }

  lemma Digits(n: int)
    ensures FromBE4(n / 0x100_0000 % 0x100, n / 0x1_0000 % 0x100, n / 0x100 % 0x100, n % 0x100) == n % 0x1_0000_0000
  {
    var q1 := n / 0x100;
    var q2 := q1 / 0x100;
    var q3 := q2 / 0x100;
    var q4 := q3 / 0x100;
    assert n == 0x100 * q1 + n % 0x100;
    assert q1 == 0x100 * q2 + q1 % 0x100;
    assert q2 == 0x100 * q3 + q2 % 0x100;
    assert q3 == 0x100 * q4 + q3 % 0x100;
    assert n / 0x1_0000 == q2;
    assert n / 0x100_0000 == q3;
    var v := FromBE4(q3 % 0x100, q2 % 0x100, q1 % 0x100, n % 0x100);
    assert n == 0x1_0000_0000 * q4 + v && 0 <= v < 0x1_0000_0000;
  }

  lemma FourDigits(b0: Byte, b1: Byte, b2: Byte, b3: Byte)
    ensures LEValue([b0, b1, b2, b3]) == FromBE4(b3, b2, b1, b0)
  {
    assert [b0, b1, b2, b3][1..] == [b1, b2, b3];
    assert [b1, b2, b3][1..] == [b2, b3];
    assert [b2, b3][1..] == [b3];
    assert LEValue([b3]) == b3;
    assert LEValue([b2, b3]) == b2 + 256 * b3;
    assert LEValue([b1, b2, b3]) == b1 + 256 * (b2 + 256 * b3);
    assert LEValue([b0, b1, b2, b3]) == b0 + 256 * (b1 + 256 * (b2 + 256 * b3));
  }

  lemma LE4Value(n: int)
    ensures LEValue(LE4(n)) == n % 0x1_0000_0000
  {
    FourDigits(n % 0x100, n / 0x100 % 0x100, n / 0x1_0000 % 0x100, n / 0x100_0000 % 0x100);
    Digits(n);
  }

  // ---- Numbers ----

  lemma SmallRead(v: int, rest: seq<Byte>)
    requires 0 <= v < 256
    ensures ReadLong(LongBytes(v) + rest) == Ok(v, rest)
  {
    assert LongBytes(v) + rest == [SMALL_INT] + ([v] + rest);
    ReadHead(SMALL_INT, [v] + rest);
    ReadHead(v, rest);
  }

  lemma IntRead(v: int, rest: seq<Byte>)
    requires -0x8000_0000 <= v < 0x8000_0000
    ensures ReadLong([INT] + (BE4(v) + rest)) == Ok(v, rest)
  {
    hide BE4, Read4BE;
    ReadHead(INT, BE4(v) + rest);
    BE4RoundTrip(v, rest);
  }

  lemma LargeRead(v: int, rest: seq<Byte>)
    requires v < -0x800_0000 || 0x800_0000 <= v
    ensures ReadLong(LongBytes(v) + rest)
         == Ok(if v < 0 then -(-v % 0x1_0000_0000) else v % 0x1_0000_0000, rest)
  {
    hide LE4, LEValue, ReadLong;
    var sign, mag := if v < 0 then 1 else 0, if v < 0 then -v else v;
    assert LongBytes(v) + rest == [SMALL_BIG] + ([4] + ([sign] + (LE4(mag) + rest)));
    BigRead(4, sign, LE4(mag), rest);
    LE4Value(mag);
  }

  /** A number comes back exactly when its magnitude fits 32 bits: write_long never writes more
      than four bytes of it. */
  lemma LongRoundTrip(v: int, rest: seq<Byte>)
    ensures ReadLong(LongBytes(v) + rest).Ok? && ReadLong(LongBytes(v) + rest).rest == rest
    ensures ReadLong(LongBytes(v) + rest).value == v <==> -0x1_0000_0000 < v < 0x1_0000_0000
  {
    if 0 <= v < 256 {
      SmallRead(v, rest);
    } else if -0x800_0000 <= v < 0x800_0000 {
      assert LongBytes(v) + rest == [INT] + (BE4(v) + rest);
      IntRead(v, rest);
    } else {
      LargeRead(v, rest);
    }
  }

  lemma BigRead(arity: Byte, sign: Byte, digits: seq<Byte>, rest: seq<Byte>)
    requires arity == |digits| <= 8
    ensures ReadLong([SMALL_BIG] + ([arity] + ([sign] + (digits + rest))))
         == Ok(if sign == 0 then Signed64(LEValue(digits)) else Negate64(Signed64(LEValue(digits))), rest)
  {
    ReadHead(SMALL_BIG, [arity] + ([sign] + (digits + rest)));
    ReadHead(arity, [sign] + (digits + rest));
    ReadHead(sign, digits + rest);
    assert (digits + rest)[..arity] == digits && (digits + rest)[arity..] == rest;
  }

  /** The low n bytes of v. */
  function LEBytes(n: nat, v: nat): (b: seq<Byte>)
    ensures |b| == n
  {
    if n == 0 then [] else [v % 256] + LEBytes(n - 1, v / 256)
  }

  function Power256(n: nat): nat {
    if n == 0 then 1 else 256 * Power256(n - 1)
  }

  lemma {:induction false} LEBytesValue(n: nat, v: nat)
    requires v < Power256(n)
    ensures LEValue(LEBytes(n, v)) == v
  {
    if n > 0 {
      LEBytesValue(n - 1, v / 256);
      assert LEBytes(n, v)[1..] == LEBytes(n - 1, v / 256);
    }
  }

  /** A number written in the format's other ways, as a 32-bit integer (IntRead) or as a small
      big with any sufficient number of bytes up to eight, is read as that number; the smallest
      C# long included. */
  lemma OtherIntegerEncodings(v: int, arity: Byte, rest: seq<Byte>)
    requires -0x8000_0000_0000_0000 <= v < 0x8000_0000_0000_0000 && arity <= 8
    requires (if v < 0 then -v else v) < Power256(arity)
    ensures ReadLong([SMALL_BIG] + ([arity] + ([if v < 0 then 1 else 0] + (LEBytes(arity, if v < 0 then -v else v) + rest))))
         == Ok(v, rest)
  {
    hide ReadLong, LEBytes, LEValue, Power256;
    var mag := if v < 0 then -v else v;
    LEBytesValue(arity, mag);
    BigRead(arity, if v < 0 then 1 else 0, LEBytes(arity, mag), rest);
  }

  // ---- Text ----

  predicate Ascii(s: string) {
    forall c :: c in s ==> c as int < 128
  }

  predicate Latin(s: string) {
    forall c :: c in s ==> c as int < 256
  }

  lemma AsciiBack(s: string)
    ensures AsciiText(CharBytes(s)) == s <==> Ascii(s)
  {
    var t := AsciiText(CharBytes(s));
    if Ascii(s) {
      forall i | 0 <= i < |s| ensures t[i] == s[i] {
        assert s[i] in s && CharBytes(s)[i] == s[i] as int;
      }
    } else {
      var c :| c in s && c as int >= 128;
      var i :| 0 <= i < |s| && s[i] == c;
      assert t[i] != s[i];
    }
  }

  lemma LatinBack(s: string)
    ensures ByteText(CharBytes(s)) == s <==> Latin(s)
  {
    var t := ByteText(CharBytes(s));
    if Latin(s) {
      forall i | 0 <= i < |s| ensures t[i] == s[i] {
        assert s[i] in s && CharBytes(s)[i] == s[i] as int;
      }
    } else {
      var c :| c in s && c as int >= 256;
      var i :| 0 <= i < |s| && s[i] == c;
      assert t[i] as int < 256;
    }
  }

  /** An atom comes back exactly when it is ASCII and no longer than 255; otherwise something
      else is read, if anything. */
  lemma AtomRoundTrip(s: string, rest: seq<Byte>)
    ensures |s| <= MAX_ATOM ==> ReadAtom(AtomBytes(s) + rest).Ok? && ReadAtom(AtomBytes(s) + rest).rest == rest
    ensures ReadAtom(AtomBytes(s) + rest).Ok?
    ensures ReadAtom(AtomBytes(s) + rest).value == s <==> |s| <= MAX_ATOM && Ascii(s)
  {
    hide BE2, Read2BE, CharBytes, AsciiText;
    var body := CharBytes(s) + rest;
    assert AtomBytes(s) + rest == [ATOM] + (BE2(|s|) + body);
    ReadHead(ATOM, BE2(|s|) + body);
    BE2RoundTrip(|s|, body);
    if |s| <= MAX_ATOM {
      ReadExactly(CharBytes(s), rest);
      assert CharBytes(s)[..|s|] == CharBytes(s);
      AsciiBack(s);
    }
  }

  /** A string comes back from read_string exactly when its characters fit a byte and its length
      two. */
  lemma StringRoundTrip(s: string, rest: seq<Byte>)
    ensures ReadString(StringBytes(s) + rest).Ok?
    ensures ReadString(StringBytes(s) + rest).value == s <==> |s| < 0x1_0000 && Latin(s)
    ensures |s| < 0x1_0000 ==> ReadString(StringBytes(s) + rest).rest == rest
  {
    hide BE2, Read2BE, CharBytes, ByteText;
    if s == "" {
      ReadHead(NIL, rest);
    } else {
      var body := CharBytes(s) + rest;
      assert StringBytes(s) + rest == [STRING] + (BE2(|s|) + body);
      ReadHead(STRING, BE2(|s|) + body);
      BE2RoundTrip(|s|, body);
      if |s| < 0x1_0000 {
        ReadExactly(CharBytes(s), rest);
        LatinBack(s);
      }
    }
  }

  function CodesBytes(s: string): seq<Byte> {
    if s == "" then [] else LongBytes(s[0] as int) + CodesBytes(s[1..])
  }

  lemma {:induction false} CodesRoundTrip(s: string, rest: seq<Byte>)
    requires PlainText(s)
    ensures ReadChars(|s|, CodesBytes(s) + rest) == Ok(s, rest)
  {
    if s == "" {
      assert CodesBytes(s) + rest == rest;
    } else {
      var more := CodesBytes(s[1..]) + rest;
      assert CodesBytes(s) + rest == LongBytes(s[0] as int) + more;
      assert s[0] in s && forall c :: c in s[1..] ==> c in s;
      LongRoundTrip(s[0] as int, more);
      CodesRoundTrip(s[1..], rest);
      assert s == [s[0]] + s[1..];
    }
  }

  lemma NilBack(rest: seq<Byte>)
    ensures ReadNil([NIL] + rest) == Ok((), rest)
  {
    ReadHead(NIL, rest);
  }

  /** read_string on a list, once its parts are known. */
  lemma ReadStringParts(bs: seq<Byte>, b1: seq<Byte>, n: nat, b2: seq<Byte>, s: string, b3: seq<Byte>, rest: seq<Byte>)
    requires ReadTag(bs) == Ok(LIST, b1) && Read4BE(b1) == Ok(n, b2)
    requires ReadChars(n, b2) == Ok(s, b3) && ReadNil(b3) == Ok((), rest)
    ensures ReadString(bs) == Ok(s, rest)
  {
    hide Read4BE, ReadChars, ReadNil, ReadTag;
  }

  /** A string written as a list of its character codes is read by read_string as that string,
      with characters beyond a byte too. */
  lemma OtherStringEncoding(s: string, rest: seq<Byte>)
    requires PlainText(s) && s != ""
    ensures ReadString([LIST] + (BE4(|s|) + (CodesBytes(s) + ([NIL] + rest)))) == Ok(s, rest)
  {
    hide BE4, Read4BE, CodesBytes, ReadChars, ReadTag, ReadNil, ReadString;
    var b3 := [NIL] + rest;
    var b2 := CodesBytes(s) + b3;
    var b1 := BE4(|s|) + b2;
    ReadHead(LIST, b1);
    BE4RoundTrip(|s|, b2);
    CodesRoundTrip(s, b3);
    NilBack(rest);
    ReadStringParts([LIST] + b1, b1, |s|, b2, s, b3, rest);
  }

  // ---- Identifiers ----

  predicate AtomFits(s: string) {
    |s| <= MAX_ATOM && Ascii(s)
  }

  lemma PidRoundTrip(p: Pid, rest: seq<Byte>)
    requires p == MakePid(p.node, p.id, p.serial, p.creation)
    ensures if AtomFits(p.node) then ReadPid(PidBytes(p) + rest) == Ok(p, rest)
            else ReadPid(PidBytes(p) + rest).Ok? ==> ReadPid(PidBytes(p) + rest).value != p
  {
    hide BE4, Read4BE, AtomBytes, ReadAtom;
    var b4 := [p.creation % 4] + rest;
    var b3 := BE4(p.serial % 8) + b4;
    var b2 := BE4(p.id % 0x8000) + b3;
    var b1 := AtomBytes(p.node) + b2;
    assert PidBytes(p) + rest == [PID] + b1;
    ReadHead(PID, b1);
    AtomRoundTrip(p.node, b2);
    if AtomFits(p.node) {
      BE4RoundTrip(p.id % 0x8000, b3);
      BE4RoundTrip(p.serial % 8, b4);
      ReadHead(p.creation % 4, rest);
    }
  }

  lemma PortRoundTrip(p: Port, rest: seq<Byte>)
    requires p == MakePort(p.node, p.id, p.creation)
    ensures if AtomFits(p.node) then ReadPort(PortBytes(p) + rest) == Ok(p, rest)
            else ReadPort(PortBytes(p) + rest).Ok? ==> ReadPort(PortBytes(p) + rest).value != p
  {
    hide BE4, Read4BE, AtomBytes, ReadAtom;
    var b3 := [p.creation % 4] + rest;
    var b2 := BE4(p.id % 0x4_0000) + b3;
    var b1 := AtomBytes(p.node) + b2;
    assert PortBytes(p) + rest == [PORT] + b1;
    ReadHead(PORT, b1);
    AtomRoundTrip(p.node, b2);
    if AtomFits(p.node) {
      BE4RoundTrip(p.id % 0x4_0000, b3);
      ReadHead(p.creation % 4, rest);
    }
  }

  lemma OldRefRoundTrip(r: Ref, rest: seq<Byte>)
    requires |r.ids| == 1 && r == MakeOldRef(r.node, r.ids[0], r.creation)
    ensures if AtomFits(r.node) then ReadRef(RefBytes(r) + rest) == Ok(r, rest)
            else ReadRef(RefBytes(r) + rest).Ok? ==> ReadRef(RefBytes(r) + rest).value != r
  {
    hide BE4, Read4BE, AtomBytes, ReadAtom;
    var b3 := [r.creation % 4] + rest;
    var b2 := BE4(r.ids[0] % 0x4_0000) + b3;
    var b1 := AtomBytes(r.node) + b2;
    assert RefBytes(r) + rest == [REF] + b1;
    ReadHead(REF, b1);
    AtomRoundTrip(r.node, b2);
    if AtomFits(r.node) {
      BE4RoundTrip(r.ids[0] % 0x4_0000, b3);
      ReadHead(r.creation % 4, rest);
    }
  }

  lemma {:induction false} WordsBack(ids: seq<int>, rest: seq<Byte>)
    requires forall i :: i in ids ==> -0x8000_0000 <= i < 0x8000_0000
    ensures ReadWords(|ids|, WordsBytes(ids) + rest) == Ok(ids, rest)
  {
    hide BE4, Read4BE;
    if ids == [] {
      assert WordsBytes(ids) + rest == rest;
    } else {
      var more := WordsBytes(ids[1..]) + rest;
      assert WordsBytes(ids) + rest == BE4(ids[0]) + more;
      BE4RoundTrip(ids[0], more);
      assert ids[0] in ids && forall i :: i in ids[1..] ==> i in ids;
      WordsBack(ids[1..], rest);
      assert ids == [ids[0]] + ids[1..];
    }
  }

  /** The parts of a new style reference after its tag. */
  lemma NewRefParts(bs: seq<Byte>, b1: seq<Byte>, b2: seq<Byte>, b3: seq<Byte>, b4: seq<Byte>,
                    node: string, creation: Byte, ids: seq<int>, rest: seq<Byte>)
    requires ReadTag(bs) == Ok(NEW_REF, b1) && Read2BE(b1) == Ok(3, b2) && ReadAtom(b2) == Ok(node, b3)
    requires Read1(b3) == Ok(creation, b4) && ReadWords(3, b4) == Ok(ids, rest)
    ensures ReadRef(bs) == Ok(MakeRef(node, ids, creation), rest)
  {
    hide ReadTag, Read2BE, ReadAtom, Read1, ReadWords, MakeRef;
  }

  lemma NewRefRoundTrip(r: Ref, rest: seq<Byte>)
    requires |r.ids| == 3 && 0 <= r.creation < 4 && 0 <= r.ids[0] < 0x4_0000
    requires forall i :: 1 <= i < 3 ==> -0x8000_0000 <= r.ids[i] < 0x8000_0000
    ensures if AtomFits(r.node) then ReadRef(RefBytes(r) + rest) == Ok(r, rest)
            else ReadRef(RefBytes(r) + rest).Ok? ==> ReadRef(RefBytes(r) + rest).value != r
  {
    hide BE2, Read2BE, BE4, Read4BE, AtomBytes, ReadAtom, ReadWords;
    assert BE4(r.ids[0]) + WordsBytes(r.ids[1..]) == WordsBytes(r.ids);
    var b4 := WordsBytes(r.ids) + rest;
    var b3 := [r.creation] + b4;
    var b2 := AtomBytes(r.node) + b3;
    var b1 := BE2(3) + b2;
    assert r.ids[1..3] == r.ids[1..];
    assert RefBytes(r) == [NEW_REF] + BE2(3) + AtomBytes(r.node) + [r.creation] + BE4(r.ids[0]) + WordsBytes(r.ids[1..]);
    assert RefBytes(r) + rest == [NEW_REF] + b1;
    ReadHead(NEW_REF, b1);
    BE2RoundTrip(3, b2);
    AtomRoundTrip(r.node, b3);
    if AtomFits(r.node) {
      ReadHead(r.creation, b4);
      WordsBack(r.ids, rest);
      assert r == MakeRef(r.node, r.ids, r.creation);
      NewRefParts(RefBytes(r) + rest, b1, b2, b3, b4, r.node, r.creation, r.ids, rest);
    }
  }

  // ---- All terms ----

  /** Exactly the terms that survive writing and reading. An atom named true or false comes back
      as a Boolean, the empty string as an empty list, and the empty tuple without elements. */
  predicate Faithful(t: Term) {
    match t
    case Long(v) => -0x1_0000_0000 < v < 0x1_0000_0000
    case Atom(s) => AtomFits(s) && s != "true" && s != "false"
    case Boolean(_) => true
    case Str(s) => s != "" && |s| < 0x1_0000 && Latin(s)
    case PidTerm(p) => AtomFits(p.node)
    case PortTerm(p) => AtomFits(p.node)
    case RefTerm(r) => AtomFits(r.node)
    case List(es) => forall e :: e in es ==> Faithful(e)
    case Tuple(es) => es != [] && forall e :: e in es ==> Faithful(e)
    case NullTuple => false
    case Binary(_) => true
  }

  /** What is read is t, and the stream then stands at `rest`; or, if t is not faithful, what is
      read is not t. */
  predicate ReadsAs(t: Term, r: Read<Term>, rest: seq<Byte>) {
    if Faithful(t) then r == Ok(t, rest) else r.Ok? ==> r.value != t
  }

  // read_any goes by the tag it sees.

  lemma AnyLong(bs: seq<Byte>)
    requires bs != [] && bs[0] in {SMALL_INT, INT, SMALL_BIG}
    ensures ReadAny(bs) == match ReadLong(bs) case Ok(v, rest) => Ok(Long(v), rest) case Fail => Fail
  {
    hide ReadLong;
  }

  lemma AnyAtom(bs: seq<Byte>)
    requires bs != [] && bs[0] == ATOM
    ensures ReadAny(bs) == match ReadAtom(bs)
                           case Ok("true", rest) => Ok(Boolean(true), rest)
                           case Ok("false", rest) => Ok(Boolean(false), rest)
                           case Ok(s, rest) => Ok(Atom(s), rest)
                           case Fail => Fail
  {
    hide ReadAtom;
  }

  lemma AnyString(bs: seq<Byte>)
    requires bs != [] && bs[0] == STRING
    ensures ReadAny(bs) == match ReadString(bs) case Ok(s, rest) => Ok(Str(s), rest) case Fail => Fail
  {
    hide ReadString;
  }

  lemma AnyIdentifier(bs: seq<Byte>)
    requires bs != []
    ensures bs[0] == PID ==> ReadAny(bs) == match ReadPid(bs) case Ok(p, rest) => Ok(PidTerm(p), rest) case Fail => Fail
    ensures bs[0] == PORT ==> ReadAny(bs) == match ReadPort(bs) case Ok(p, rest) => Ok(PortTerm(p), rest) case Fail => Fail
    ensures bs[0] in {REF, NEW_REF} ==>
              ReadAny(bs) == match ReadRef(bs) case Ok(r, rest) => Ok(RefTerm(r), rest) case Fail => Fail
  {
    hide ReadPid, ReadPort, ReadRef;
  }

  lemma AnyBinary(bs: seq<Byte>)
    requires bs != [] && bs[0] == BINARY
    ensures ReadAny(bs) == match ReadBinary(bs) case Ok(b, rest) => Ok(Binary(b), rest) case Fail => Fail
  {
    hide ReadBinary;
  }

  lemma AnyNil(rest: seq<Byte>)
    ensures ReadAny([NIL] + rest) == Ok(List([]), rest)
  {
    ReadHead(NIL, rest);
  }

  lemma AnyList(n: nat, bs: seq<Byte>)
    requires 0 < n < 0x8000_0000
    ensures ReadAny([LIST] + (BE4(n) + bs)) ==
            match ReadMany(n, bs)
            case Ok(es, b1) => (match ReadNil(b1) case Ok(_, rest) => Ok(List(es), rest) case Fail => Fail)
            case Fail => Fail
  {
    hide BE4, Read4BE, ReadMany, ReadNil;
    ReadHead(LIST, BE4(n) + bs);
    BE4RoundTrip(n, bs);
  }

  lemma AnyTuple(n: nat, bs: seq<Byte>)
    requires 0 < n < 0x8000_0000
    ensures ReadAny(TupleHead(n) + bs) == match ReadMany(n, bs) case Ok(es, rest) => Ok(Tuple(es), rest) case Fail => Fail
  {
    hide BE4, Read4BE, ReadMany;
    if n < 0xff {
      assert TupleHead(n) + bs == [SMALL_TUPLE] + ([n] + bs);
      ReadHead(SMALL_TUPLE, [n] + bs);
      ReadHead(n, bs);
    } else {
      assert TupleHead(n) + bs == [LARGE_TUPLE] + (BE4(n) + bs);
      ReadHead(LARGE_TUPLE, BE4(n) + bs);
      BE4RoundTrip(n, bs);
    }
  }

  lemma BinaryRoundTrip(b: seq<Byte>, rest: seq<Byte>)
    requires |b| < 0x8000_0000
    ensures ReadAny([BINARY] + BE4(|b|) + b + rest) == Ok(Binary(b), rest)
  {
    hide BE4, Read4BE;
    var b1 := BE4(|b|) + (b + rest);
    assert [BINARY] + BE4(|b|) + b + rest == [BINARY] + b1;
    AnyBinary([BINARY] + b1);
    ReadHead(BINARY, b1);
    BE4RoundTrip(|b|, b + rest);
    ReadExactly(b, rest);
  }

  /** A term comes back from read_any, with the stream standing right after it, exactly when it
      is faithful. */
  lemma {:induction false} TermRoundTrip(t: Term, rest: seq<Byte>)
    requires Representable(t)
    ensures ReadsAs(t, ReadAny(Encode(t) + rest), rest)
    decreases t, 0
  {
    match t {
      case Long(v) => LongTerm(v, rest);
      case Atom(s) => AtomTerm(s, rest);
      case Boolean(b) => AtomTerm(if b then "true" else "false", rest);
      case Str(s) => StringTerm(s, rest);
      case PidTerm(p) => PidRoundTrip(p, rest); AnyIdentifier(PidBytes(p) + rest);
      case PortTerm(p) => PortRoundTrip(p, rest); AnyIdentifier(PortBytes(p) + rest);
      case RefTerm(r) => RefTermBack(r, rest);
      case List(es) => ListRoundTrip(es, rest);
      case Tuple(es) => TupleRoundTrip(es, rest);
      case Binary(b) => BinaryRoundTrip(b, rest);
    }
  }

  lemma LongTerm(v: int, rest: seq<Byte>)
    requires Representable(Long(v))
    ensures ReadsAs(Long(v), ReadAny(LongBytes(v) + rest), rest)
  {
    LongRoundTrip(v, rest);
    AnyLong(LongBytes(v) + rest);
  }

  lemma AtomTerm(s: string, rest: seq<Byte>)
    requires Representable(Atom(s))
    ensures s != "true" && s != "false" ==> ReadsAs(Atom(s), ReadAny(AtomBytes(s) + rest), rest)
    ensures s == "true" || s == "false" ==> ReadAny(AtomBytes(s) + rest) == Ok(Boolean(s == "true"), rest)
  {
    hide ReadAtom, ReadAny;
    AtomRoundTrip(s, rest);
    AnyAtom(AtomBytes(s) + rest);
  }

  lemma StringTerm(s: string, rest: seq<Byte>)
    requires Representable(Str(s))
    ensures ReadsAs(Str(s), ReadAny(StringBytes(s) + rest), rest)
  {
    hide ReadString, ReadAny;
    if s == "" {
      AnyNil(rest);
    } else {
      StringRoundTrip(s, rest);
      AnyString(StringBytes(s) + rest);
    }
  }

  lemma RefTermBack(r: Ref, rest: seq<Byte>)
    requires Representable(RefTerm(r))
    ensures ReadsAs(RefTerm(r), ReadAny(RefBytes(r) + rest), rest)
  {
    hide ReadRef, ReadAny;
    if |r.ids| == 1 {
      OldRefRoundTrip(r, rest);
    } else {
      NewRefRoundTrip(r, rest);
    }
    AnyIdentifier(RefBytes(r) + rest);
  }

  lemma {:induction false} ManyRoundTrip(es: seq<Term>, rest: seq<Byte>)
    requires forall e :: e in es ==> Representable(e)
    ensures var r := ReadMany(|es|, EncodeAll(es) + rest);
            if forall e :: e in es ==> Faithful(e) then r == Ok(es, rest) else r.Ok? ==> r.value != es
    decreases es, 0
  {
    hide ReadAny, Encode;
    if es == [] {
      assert EncodeAll(es) + rest == rest;
    } else {
      var more := EncodeAll(es[1..]) + rest;
      assert EncodeAll(es) + rest == Encode(es[0]) + more;
      TermRoundTrip(es[0], more);
      ManyRoundTrip(es[1..], rest);
      assert es == [es[0]] + es[1..];
    }
  }

  lemma {:induction false} ListRoundTrip(es: seq<Term>, rest: seq<Byte>)
    requires Representable(List(es))
    ensures ReadsAs(List(es), ReadAny(Encode(List(es)) + rest), rest)
    decreases es, 1
  {
    hide ReadAny, ReadMany, BE4, ReadNil;
    if es == [] {
      AnyNil(rest);
    } else {
      var b1 := [NIL] + rest;
      assert Encode(List(es)) + rest == [LIST] + (BE4(|es|) + (EncodeAll(es) + b1));
      AnyList(|es|, EncodeAll(es) + b1);
      ManyRoundTrip(es, b1);
      NilBack(rest);
    }
  }

  lemma {:induction false} TupleRoundTrip(es: seq<Term>, rest: seq<Byte>)
    requires Representable(Tuple(es))
    ensures ReadsAs(Tuple(es), ReadAny(Encode(Tuple(es)) + rest), rest)
    decreases es, 1
  {
    hide ReadAny, ReadMany, TupleHead;
    if es == [] {
      EmptyTuple(rest);
    } else {
      assert Encode(Tuple(es)) + rest == TupleHead(|es|) + (EncodeAll(es) + rest);
      AnyTuple(|es|, EncodeAll(es) + rest);
      ManyRoundTrip(es, rest);
    }
  }

  lemma EmptyTuple(rest: seq<Byte>)
    ensures ReadAny(Encode(Tuple([])) + rest) == Ok(NullTuple, rest)
  {
    assert Encode(Tuple([])) + rest == [SMALL_TUPLE] + ([0] + rest);
    ReadHead(SMALL_TUPLE, [0] + rest);
    ReadHead(0, rest);
  }

  lemma FirstByte(t: Term)
    requires Representable(t)
    ensures Encode(t) != [] && Encode(t)[0] != VERSION
  {
  }

  lemma VersionSkipped(bs: seq<Byte>)
    requires bs != [] && bs[0] != VERSION
    ensures ReadAny([VERSION] + bs) == ReadAny(bs)
  {
    hide ReadLong, ReadAtom, ReadString, ReadPid, ReadPort, ReadRef, ReadBinary, ReadList, ReadTuple;
    assert ([VERSION] + bs)[1..] == bs;
  }

  /** The same with a version byte in front, and as an equivalence. */
  lemma TermRoundTripIff(t: Term, rest: seq<Byte>)
    requires Representable(t)
    ensures Faithful(t) <==> ReadAny(Encode(t) + rest) == Ok(t, rest)
    ensures Faithful(t) <==> ReadAny([VERSION] + Encode(t) + rest) == Ok(t, rest)
  {
    hide ReadAny, Encode;
    TermRoundTrip(t, rest);
    FirstByte(t);
    VersionSkipped(Encode(t) + rest);
    assert [VERSION] + (Encode(t) + rest) == [VERSION] + Encode(t) + rest;
  }

  /** Every identifier a node makes is representable, and comes back from the wire unchanged. */
  lemma GeneratedIdsSurvive(node: string, creation: int, k: nat, rest: seq<Byte>)
    requires AtomFits(node)
    ensures ReadPid(PidBytes(OtpIds.PidAt(node, creation, k)) + rest) == Ok(OtpIds.PidAt(node, creation, k), rest)
    ensures ReadPort(PortBytes(OtpIds.PortAt(node, creation, k)) + rest) == Ok(OtpIds.PortAt(node, creation, k), rest)
    ensures ReadRef(RefBytes(OtpIds.RefAt(node, creation, k)) + rest) == Ok(OtpIds.RefAt(node, creation, k), rest)
  {
    hide PidBytes, PortBytes, RefBytes, ReadPid, ReadPort, ReadRef;
    PidRoundTrip(OtpIds.PidAt(node, creation, k), rest);
    PortRoundTrip(OtpIds.PortAt(node, creation, k), rest);
    NewRefRoundTrip(OtpIds.RefAt(node, creation, k), rest);
  }

  /** Whatever numbers the constructors are given, what they make can be written. */
  lemma ConstructedRepresentable(node: string, id: int, serial: int, creation: int, ids: seq<int>)
    requires PlainText(node) && forall i :: i in ids ==> -0x8000_0000 <= i < 0x8000_0000
    ensures Representable(PidTerm(MakePid(node, id, serial, creation)))
    ensures Representable(PortTerm(MakePort(node, id, creation)))
    ensures Representable(RefTerm(MakeOldRef(node, id, creation))) && Representable(RefTerm(MakeRef(node, ids, creation)))
  {
    forall i | 0 <= i < |ids| ensures -0x8000_0000 <= ids[i] < 0x8000_0000 {
      assert ids[i] in ids;
    }
  }

  lemma PlainRepresentable(v: int, s: string, b: seq<Byte>, es: seq<Term>)
    requires PlainText(s) && |b| < 0x8000_0000 && |es| < 0x8000_0000 && forall e :: e in es ==> Representable(e)
    ensures -0x8000_0000_0000_0000 <= v < 0x8000_0000_0000_0000 ==> Representable(Long(v))
    ensures Representable(Str(s)) && (|s| <= 255 ==> Representable(Atom(s)))
    ensures Representable(Binary(b)) && Representable(List(es)) && Representable(Tuple(es))
    ensures Representable(Boolean(true)) && Representable(Boolean(false))
  {
  }
}
