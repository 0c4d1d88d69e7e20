/** Every way in which the external term format lets a peer write a term, and what read_any makes
    of it. ExternalRoundTrip is about what this library itself writes. */
module ExternalEncodings {
  import opened Bytes
  import opened Erlang
  import opened ExternalFormat
  import opened ExternalRoundTrip

  /** The choices a writer has: which tag an integer gets, how many bytes a big, which head a
      tuple, and whether a version byte precedes a term. Identifiers are written as given; their
      unused bits need not be zero. */
  datatype Encoding =
    | Small(b: Byte)
    | Int32(v: int)
    | Big(arity: Byte, v: int)
    | AtomOf(name: string)
    | Text(text: string)
    | PidOf(node: string, id: int, serial: int, creation: Byte)
    | PortOf(node: string, id: int, creation: Byte)
    | OldRefOf(node: string, id: int, creation: Byte)
    | NewRefOf(node: string, creation: Byte, ids: seq<int>)
    | NilOf
    | ListOf(elems: seq<Encoding>)
    | TupleOf(elems: seq<Encoding>, large: bool)
    | BinaryOf(content: seq<Byte>)
    | Versioned(e: Encoding)

  predicate Int32Range(i: int) {
    -0x8000_0000 <= i < 0x8000_0000
  }

  /** Lengths and numbers fit their fields. A big stands for a C# long. */
  predicate WellFormed(e: Encoding) {
    match e
    case Small(_) => true
    case Int32(v) => Int32Range(v)
    case Big(arity, v) =>
      -0x8000_0000_0000_0000 <= v < 0x8000_0000_0000_0000 && arity <= 8 && (if v < 0 then -v else v) < Power256(arity)
    case AtomOf(s) => |s| <= 255
    case Text(s) => |s| < 0x1_0000 && Latin(s)
    case PidOf(node, _, _, _) => |node| <= 255
    case PortOf(node, _, _) => |node| <= 255
    case OldRefOf(node, _, _) => |node| <= 255
    case NewRefOf(node, _, ids) => |node| <= 255 && 0 < |ids| < 0x1_0000 && forall i :: i in ids ==> Int32Range(i)
    case NilOf => true
    case ListOf(es) => 0 < |es| < 0x8000_0000 && forall e :: e in es ==> WellFormed(e)
    case TupleOf(es, large) => |es| < (if large then 0x8000_0000 else 0x100) && forall e :: e in es ==> WellFormed(e)
    case BinaryOf(b) => |b| < 0x8000_0000
    case Versioned(e1) => WellFormed(e1) && !e1.Versioned?
  }

  // The tags are the numbers of the format.

  function Head(arity: nat, large: bool): seq<Byte>
    requires large || arity < 0x100
  {
    if large then [105] + BE4(arity) else [104, arity]
  }

  function Written(e: Encoding): seq<Byte>
    requires WellFormed(e)
  {
    match e
    case Small(b) => [97, b]
    case Int32(v) => [98] + BE4(v)
    case Big(arity, v) => [110] + ([arity] + ([if v < 0 then 1 else 0] + LEBytes(arity, if v < 0 then -v else v)))
    case AtomOf(s) => AtomWritten(s)
    case Text(s) => [107] + (BE2(|s|) + CharBytes(s))
    case PidOf(node, id, serial, creation) => [103] + (AtomWritten(node) + (BE4(id) + (BE4(serial) + [creation])))
    case PortOf(node, id, creation) => [102] + (AtomWritten(node) + (BE4(id) + [creation]))
    case OldRefOf(node, id, creation) => [101] + (AtomWritten(node) + (BE4(id) + [creation]))
    case NewRefOf(node, creation, ids) => [114] + (BE2(|ids|) + (AtomWritten(node) + ([creation] + WordsBytes(ids))))
    case NilOf => [106]
    case ListOf(es) => [108] + (BE4(|es|) + (AllWritten(es) + [106]))
    case TupleOf(es, large) => Head(|es|, large) + AllWritten(es)
    case BinaryOf(b) => [109] + BE4(|b|) + b
    case Versioned(e1) => [131] + Written(e1)
  }

  function AtomWritten(s: string): (b: seq<Byte>)
    ensures b == AtomBytes(s)
  {
    [100] + BE2(|s|) + CharBytes(s)
  }

  function AllWritten(es: seq<Encoding>): seq<Byte>
    requires forall e :: e in es ==> WellFormed(e)
  {
    if es == [] then [] else Written(es[0]) + AllWritten(es[1..])
  }

  /** An atom as the decoder shows it: ASCII, with a question mark for every other character. */
  function Seen(s: string): (r: string)
    ensures |r| == |s|
  {
    seq(|s|, i requires 0 <= i < |s| => var b := s[i] as int % 256; if b < 128 then b as char else '?')
  }

  /** The object that stands for the term. */
  function Value(e: Encoding): Term {
    match e
    case Small(b) => Long(b)
    case Int32(v) => Long(v)
    case Big(_, v) => Long(v)
    case AtomOf(s) => if Seen(s) == "true" then Boolean(true) else if Seen(s) == "false" then Boolean(false) else Atom(Seen(s))
    case Text(s) => Str(s)
    case PidOf(node, id, serial, creation) => PidTerm(MakePid(Seen(node), id, serial, creation))
    case PortOf(node, id, creation) => PortTerm(MakePort(Seen(node), id, creation))
    case OldRefOf(node, id, creation) => RefTerm(MakeOldRef(Seen(node), id, creation))
    case NewRefOf(node, creation, ids) => RefTerm(MakeRef(Seen(node), ids, creation))
    case NilOf => List([])
    case ListOf(es) => List(Values(es))
    case TupleOf(es, _) => if es == [] then NullTuple else Tuple(Values(es))
    case BinaryOf(b) => Binary(b)
    case Versioned(e1) => Value(e1)
  }

  function Values(es: seq<Encoding>): (ts: seq<Term>)
    ensures |ts| == |es|
  {
    if es == [] then [] else [Value(es[0])] + Values(es[1..])
  }

  // ---- Leaves ----

  lemma SeenBytes(s: string)
    ensures AsciiText(CharBytes(s)) == Seen(s)
  {
  }

  lemma AtomSeen(s: string, rest: seq<Byte>)
    requires |s| <= 255
    ensures ReadAtom(AtomBytes(s) + rest) == Ok(Seen(s), rest)
  {
    SeenBytes(s);
    hide BE2, Read2BE, CharBytes, AsciiText, Seen;
    var body := CharBytes(s) + rest;
    assert AtomBytes(s) + rest == [ATOM] + (BE2(|s|) + body);
    ReadHead(ATOM, BE2(|s|) + body);
    BE2RoundTrip(|s|, body);
    ReadExactly(CharBytes(s), rest);
    assert CharBytes(s)[..|s|] == CharBytes(s);
  }

  lemma SignedRemainders(n: int)
    ensures Signed32(n) % 0x8000 == n % 0x8000 && Signed32(n) % 8 == n % 8 && Signed32(n) % 0x4_0000 == n % 0x4_0000
  {
    var q := SignedQuotient(n);
    hide Signed32;
    SameMod(n, Signed32(n), 0x2_0000 * q, 0x8000);
    SameMod(n, Signed32(n), 0x2000_0000 * q, 8);
    SameMod(n, Signed32(n), 0x4000 * q, 0x4_0000);
  }

  lemma SignedQuotient(n: int) returns (q: int)
    ensures n == 0x1_0000_0000 * q + Signed32(n)
  {
    q := (n - Signed32(n)) / 0x1_0000_0000;
  }

  lemma SameMod(n: int, m: int, t: int, d: int)
    requires d in {8, 0x8000, 0x4_0000} && n == d * t + m
    ensures n % d == m % d
  {
  }

  lemma PidRead(node: string, id: int, serial: int, creation: Byte, rest: seq<Byte>)
    requires |node| <= 255
    ensures ReadPid(Written(PidOf(node, id, serial, creation)) + rest) == Ok(MakePid(Seen(node), id, serial, creation), rest)
  {
    hide BE4, Read4BE, AtomBytes, ReadAtom, Seen, Signed32;
    var b4 := [creation] + rest;
    var b3 := BE4(serial) + b4;
    var b2 := BE4(id) + b3;
    var b1 := AtomBytes(node) + b2;
    assert Written(PidOf(node, id, serial, creation)) + rest == [PID] + b1;
    ReadHead(PID, b1);
    AtomSeen(node, b2);
    BE4RoundTrip(id, b3);
    BE4RoundTrip(serial, b4);
    ReadHead(creation, rest);
    SignedRemainders(id);
    SignedRemainders(serial);
  }

  lemma PortRead(node: string, id: int, creation: Byte, rest: seq<Byte>)
    requires |node| <= 255
    ensures ReadPort(Written(PortOf(node, id, creation)) + rest) == Ok(MakePort(Seen(node), id, creation), rest)
  {
    hide BE4, Read4BE, AtomBytes, ReadAtom, Seen, Signed32;
    var b3 := [creation] + rest;
    var b2 := BE4(id) + b3;
    var b1 := AtomBytes(node) + b2;
    assert Written(PortOf(node, id, creation)) + rest == [PORT] + b1;
    ReadHead(PORT, b1);
    AtomSeen(node, b2);
    BE4RoundTrip(id, b3);
    ReadHead(creation, rest);
    SignedRemainders(id);
  }

  lemma OldRefRead(node: string, id: int, creation: Byte, rest: seq<Byte>)
    requires |node| <= 255
    ensures ReadRef(Written(OldRefOf(node, id, creation)) + rest) == Ok(MakeOldRef(Seen(node), id, creation), rest)
  {
    hide BE4, Read4BE, AtomBytes, ReadAtom, Seen, Signed32;
    var b3 := [creation] + rest;
    var b2 := BE4(id) + b3;
    var b1 := AtomBytes(node) + b2;
    assert Written(OldRefOf(node, id, creation)) + rest == [REF] + b1;
    ReadHead(REF, b1);
    AtomSeen(node, b2);
    BE4RoundTrip(id, b3);
    ReadHead(creation, rest);
    SignedRemainders(id);
  }

  /** The parts of a new style reference after its tag. */
  lemma RefParts(bs: seq<Byte>, b1: seq<Byte>, n: nat, b2: seq<Byte>, b3: seq<Byte>, b4: seq<Byte>,
                 node: string, creation: Byte, ids: seq<int>, rest: seq<Byte>)
    requires ReadTag(bs) == Ok(NEW_REF, b1) && Read2BE(b1) == Ok(n, b2) && n > 0 && ReadAtom(b2) == Ok(node, b3)
    requires Read1(b3) == Ok(creation, b4) && ReadWords(n, b4) == Ok(ids, rest)
    ensures ReadRef(bs) == Ok(MakeRef(node, ids, creation), rest)
  {
    hide ReadTag, Read2BE, ReadAtom, Read1, ReadWords, MakeRef;
  }

  lemma NewRefRead(node: string, creation: Byte, ids: seq<int>, rest: seq<Byte>)
    requires WellFormed(NewRefOf(node, creation, ids))
    ensures ReadRef(Written(NewRefOf(node, creation, ids)) + rest) == Ok(MakeRef(Seen(node), ids, creation), rest)
  {
    hide BE2, Read2BE, AtomBytes, ReadAtom, ReadWords, WordsBytes, MakeRef, Seen;
    var b4 := WordsBytes(ids) + rest;
    var b3 := [creation] + b4;
    var b2 := AtomBytes(node) + b3;
    var b1 := BE2(|ids|) + b2;
    assert Written(NewRefOf(node, creation, ids)) + rest == [NEW_REF] + b1;
    ReadHead(NEW_REF, b1);
    BE2RoundTrip(|ids|, b2);
    AtomSeen(node, b3);
    ReadHead(creation, b4);
    WordsBack(ids, rest);
    RefParts(Written(NewRefOf(node, creation, ids)) + rest, b1, |ids|, b2, b3, b4, Seen(node), creation, ids, rest);
  }

  /** A reference without words cannot be read. */
  lemma WordlessRefFails(node: string, creation: Byte, rest: seq<Byte>)
    requires |node| <= 255
    ensures ReadAny([114] + (BE2(0) + (AtomWritten(node) + ([creation] + rest)))) == Fail
  {
    hide BE2, Read2BE, AtomBytes, ReadAtom, ReadWords, MakeRef, Seen;
    var b3 := [creation] + rest;
    var b2 := AtomBytes(node) + b3;
    var b1 := BE2(0) + b2;
    ReadHead(NEW_REF, b1);
    BE2RoundTrip(0, b2);
    AtomSeen(node, b3);
    ReadHead(creation, rest);
    AnyIdentifier([114] + b1);
  }

  lemma TextRead(s: string, rest: seq<Byte>)
    requires WellFormed(Text(s))
    ensures ReadString(Written(Text(s)) + rest) == Ok(s, rest)
  {
    hide BE2, Read2BE, CharBytes, ByteText;
    var b1 := BE2(|s|) + (CharBytes(s) + rest);
    assert Written(Text(s)) + rest == [STRING] + b1;
    ReadHead(STRING, b1);
    BE2RoundTrip(|s|, CharBytes(s) + rest);
    ReadExactly(CharBytes(s), rest);
    LatinBack(s);
  }

  lemma IntegerRead(e: Encoding, rest: seq<Byte>)
    requires WellFormed(e) && (e.Small? || e.Int32? || e.Big?)
    ensures ReadAny(Written(e) + rest) == Ok(Value(e), rest)
  {
    hide ReadLong, ReadAny, BE4, LEBytes, Power256;
    match e {
      case Small(b) => SmallRead(b, rest); assert Written(e) + rest == LongBytes(b) + rest;
      case Int32(v) => IntRead(v, rest); assert Written(e) + rest == [INT] + (BE4(v) + rest);
      case Big(arity, v) =>
        var digits := LEBytes(arity, if v < 0 then -v else v);
        OtherIntegerEncodings(v, arity, rest);
        assert Written(e) + rest == [SMALL_BIG] + ([arity] + ([if v < 0 then 1 else 0] + (digits + rest)));
    }
    AnyLong(Written(e) + rest);
  }

  lemma LeafRead(e: Encoding, rest: seq<Byte>)
    requires WellFormed(e) && !(e.ListOf? || e.TupleOf? || e.Versioned?)
    ensures ReadAny(Written(e) + rest) == Ok(Value(e), rest)
  {
    hide ReadAny, ReadAtom, ReadString, ReadPid, ReadPort, ReadRef, ReadBinary, BE4, Seen;
    var bs := Written(e) + rest;
    match e {
      case AtomOf(s) => AtomSeen(s, rest); AnyAtom(bs);
      case Text(s) => TextRead(s, rest); AnyString(bs);
      case PidOf(node, id, serial, creation) => PidRead(node, id, serial, creation, rest); AnyIdentifier(bs);
      case PortOf(node, id, creation) => PortRead(node, id, creation, rest); AnyIdentifier(bs);
      case OldRefOf(node, id, creation) => OldRefRead(node, id, creation, rest); AnyIdentifier(bs);
      case NewRefOf(node, creation, ids) => NewRefRead(node, creation, ids, rest); AnyIdentifier(bs);
      case NilOf => AnyNil(rest);
      case BinaryOf(b) => BinaryRoundTrip(b, rest);
      case _ => IntegerRead(e, rest);
    }
  }

  // ---- All terms ----

  lemma AnyHead(n: nat, large: bool, bs: seq<Byte>)
    requires n < if large then 0x8000_0000 else 0x100
    ensures ReadAny(Head(n, large) + bs) ==
            if n == 0 then Ok(NullTuple, bs)
            else match ReadMany(n, bs) case Ok(es, rest) => Ok(Tuple(es), rest) case Fail => Fail
  {
    hide BE4, Read4BE, ReadMany;
    if large {
      assert Head(n, large) + bs == [LARGE_TUPLE] + (BE4(n) + bs);
      ReadHead(LARGE_TUPLE, BE4(n) + bs);
      BE4RoundTrip(n, bs);
    } else {
      assert Head(n, large) + bs == [SMALL_TUPLE] + ([n] + bs);
      ReadHead(SMALL_TUPLE, [n] + bs);
      ReadHead(n, bs);
    }
  }

  lemma NoVersion(e: Encoding)
    requires WellFormed(e)
    ensures Written(e) != [] && (!e.Versioned? ==> Written(e)[0] != VERSION)
  {
  }

  /** Whatever encoding a peer chooses, and whatever follows it, read_any returns the term and
      leaves the stream right behind it. */
  lemma {:induction false} EncodingRead(e: Encoding, rest: seq<Byte>)
    requires WellFormed(e)
    ensures ReadAny(Written(e) + rest) == Ok(Value(e), rest)
    decreases e, 0
  {
    hide ReadAny, ReadMany, ReadNil, BE4, Head;
    match e {
      case ListOf(es) =>
        var b1 := [NIL] + rest;
        assert Written(e) + rest == [LIST] + (BE4(|es|) + (AllWritten(es) + b1));
        AnyList(|es|, AllWritten(es) + b1);
        EncodingsRead(es, b1);
        NilBack(rest);
      case TupleOf(es, large) =>
        assert Written(e) + rest == Head(|es|, large) + (AllWritten(es) + rest);
        AnyHead(|es|, large, AllWritten(es) + rest);
        EncodingsRead(es, rest);
        assert es == [] ==> AllWritten(es) + rest == rest;
      case Versioned(e1) =>
        EncodingRead(e1, rest);
        NoVersion(e1);
        VersionSkipped(Written(e1) + rest);
        assert Written(e) + rest == [VERSION] + (Written(e1) + rest);
      case _ => LeafRead(e, rest);
    }
  }

  lemma {:induction false} EncodingsRead(es: seq<Encoding>, rest: seq<Byte>)
    requires forall e :: e in es ==> WellFormed(e)
    ensures ReadMany(|es|, AllWritten(es) + rest) == Ok(Values(es), rest)
    decreases es, 0
  {
    hide ReadAny;
    if es == [] {
      assert AllWritten(es) + rest == rest;
    } else {
      var more := AllWritten(es[1..]) + rest;
      assert AllWritten(es) + rest == Written(es[0]) + more;
      EncodingRead(es[0], more);
      EncodingsRead(es[1..], rest);
    }
  }

  /** A list whose tail is no nil, which the format also allows, cannot be read. */
  lemma ImproperListFails(es: seq<Encoding>, tail: Encoding, rest: seq<Byte>)
    requires 0 < |es| < 0x8000_0000 && (forall e :: e in es ==> WellFormed(e))
    requires WellFormed(tail) && !tail.NilOf? && !tail.Versioned?
    ensures ReadAny([LIST] + (BE4(|es|) + (AllWritten(es) + (Written(tail) + rest)))) == Fail
  {
    hide ReadAny, ReadMany, BE4;
    AnyList(|es|, AllWritten(es) + (Written(tail) + rest));
    EncodingsRead(es, Written(tail) + rest);
    assert Written(tail) != [] && Written(tail)[0] != NIL && Written(tail)[0] != VERSION;
    assert (Written(tail) + rest)[0] == Written(tail)[0];
  }

  // ---- Lists as strings ----

  /** Integers that read_string takes for characters; those from 0xD800 to 0xFFFF are not part of
      the model. */
  predicate IsCode(t: Term) {
    t.Long? && 0 <= t.val < 0xD800
  }

  predicate NoSurrogate(t: Term) {
    t.Long? ==> t.val < 0xD800 || 0x1_0000 <= t.val
  }

  /** The text that a list of character codes stands for. */
  function TextOf(ts: seq<Term>): Option<string> {
    if ts == [] then Some("")
    else
      var more := TextOf(ts[1..]);
      if IsCode(ts[0]) && more.Some? then Some([ts[0].val as char] + more.value) else None
  }

  /** read_long and read_any agree on what is an integer. */
  lemma LongByAny(bs: seq<Byte>)
    ensures var r := ReadAny(bs);
            r.Ok? ==> ReadLong(bs) == if r.value.Long? then Ok(r.value.val, r.rest) else Fail
  {
    hide Read4BE, LEValue, Signed64, Negate64, ReadAtom, ReadRef, ReadPort, ReadPid, ReadString, ReadMany, ReadBinary;
    var at := if bs != [] && bs[0] == VERSION then bs[1..] else bs;
    if ReadAny(bs).Ok? {
      assert at != [] && at[0] != VERSION;
      assert ReadTag(bs) == Ok(at[0], at[1..]) == ReadTag(at);
    }
  }

  lemma {:induction false} CharsRead(es: seq<Encoding>, rest: seq<Byte>)
    requires forall e :: e in es ==> WellFormed(e)
    ensures ReadChars(|es|, AllWritten(es) + rest) ==
            match TextOf(Values(es)) case Some(s) => Ok(s, rest) case None => Fail
  {
    hide ReadAny, ReadLong;
    if es == [] {
      assert AllWritten(es) + rest == rest;
    } else {
      var more := AllWritten(es[1..]) + rest;
      assert AllWritten(es) + rest == Written(es[0]) + more;
      EncodingRead(es[0], more);
      LongByAny(Written(es[0]) + more);
      CharsRead(es[1..], rest);
      assert Values(es)[1..] == Values(es[1..]);
    }
  }

  /** A list is read by read_string, in whatever encodings its elements come, exactly if all of
      them are characters. */
  lemma TextListRead(es: seq<Encoding>, rest: seq<Byte>)
    requires WellFormed(ListOf(es)) && forall t :: t in Values(es) ==> NoSurrogate(t)
    ensures ReadString(Written(ListOf(es)) + rest) ==
            match TextOf(Values(es)) case Some(s) => Ok(s, rest) case None => Fail
    ensures ReadString(Written(Versioned(ListOf(es))) + rest) == ReadString(Written(ListOf(es)) + rest)
  {
    hide BE4, Read4BE, ReadChars, ReadNil, TextOf, Values, AllWritten;
    var b3 := [NIL] + rest;
    var b2 := AllWritten(es) + b3;
    var b1 := BE4(|es|) + b2;
    assert Written(ListOf(es)) + rest == [LIST] + b1;
    assert Written(Versioned(ListOf(es))) + rest == [VERSION] + ([LIST] + b1);
    ReadHead(LIST, b1);
    BE4RoundTrip(|es|, b2);
    CharsRead(es, b3);
    NilBack(rest);
  }

  // ---- Two encodings of one term ----

  /** Equivalent encodings are read alike: whichever two a pair of peers choose for the same
      object, this side cannot tell the difference. */
  lemma SameValueSameRead(e: Encoding, e': Encoding, rest: seq<Byte>)
    requires WellFormed(e) && WellFormed(e') && Value(e) == Value(e')
    ensures ReadAny(Written(e) + rest) == ReadAny(Written(e') + rest)
  {
    EncodingRead(e, rest);
    EncodingRead(e', rest);
  }

  // ---- The encodings of this library ----

  /** Which of the encodings this library chooses. */
  function EncodingOf(t: Term): Encoding
    requires Representable(t) && Faithful(t)
    decreases t, 0
  {
    match t
    case Long(v) => if 0 <= v < 256 then Small(v) else if -0x800_0000 <= v < 0x800_0000 then Int32(v) else Big(4, v)
    case Atom(s) => AtomOf(s)
    case Boolean(b) => AtomOf(if b then "true" else "false")
    case Str(s) => Text(s)
    case PidTerm(p) => PidOf(p.node, p.id, p.serial, p.creation)
    case PortTerm(p) => PortOf(p.node, p.id, p.creation)
    case RefTerm(r) => if |r.ids| == 1 then OldRefOf(r.node, r.ids[0], r.creation) else NewRefOf(r.node, r.creation, r.ids)
    case List(es) => if es == [] then NilOf else ListOf(EncodingsOf(es))
    case Tuple(es) => TupleOf(EncodingsOf(es), |es| >= 0xff)
    case Binary(b) => BinaryOf(b)
  }

  function EncodingsOf(es: seq<Term>): (r: seq<Encoding>)
    requires forall e :: e in es ==> Representable(e) && Faithful(e)
    ensures |r| == |es|
    decreases es, 1
  {
    if es == [] then [] else [EncodingOf(es[0])] + EncodingsOf(es[1..])
  }

  /** What it writes of a faithful term is one of the encodings of the format, and that of this term. */
  lemma {:induction false} OwnEncoding(t: Term)
    requires Representable(t) && Faithful(t)
    ensures WellFormed(EncodingOf(t)) && Written(EncodingOf(t)) == Encode(t) && Value(EncodingOf(t)) == t
    decreases t, 0
  {
    match t {
      case List(es) => OwnEncodings(es); OwnList(es);
      case Tuple(es) => OwnEncodings(es); OwnTuple(es);
      case _ => OwnLeaf(t);
    }
  }

  lemma OwnList(es: seq<Term>)
    requires Representable(List(es)) && Faithful(List(es))
    requires forall e :: e in EncodingsOf(es) ==> WellFormed(e)
    requires AllWritten(EncodingsOf(es)) == EncodeAll(es) && Values(EncodingsOf(es)) == es
    ensures WellFormed(EncodingOf(List(es)))
    ensures Written(EncodingOf(List(es))) == Encode(List(es)) && Value(EncodingOf(List(es))) == List(es)
  {
    hide BE4, AllWritten, EncodeAll, EncodingsOf, Values;
  }

  lemma OwnTuple(es: seq<Term>)
    requires Representable(Tuple(es)) && Faithful(Tuple(es))
    requires forall e :: e in EncodingsOf(es) ==> WellFormed(e)
    requires AllWritten(EncodingsOf(es)) == EncodeAll(es) && Values(EncodingsOf(es)) == es
    ensures WellFormed(EncodingOf(Tuple(es)))
    ensures Written(EncodingOf(Tuple(es))) == Encode(Tuple(es)) && Value(EncodingOf(Tuple(es))) == Tuple(es)
  {
    hide BE4, AllWritten, EncodeAll, EncodingsOf, Values;
  }

  lemma OwnLeaf(t: Term)
    requires Representable(t) && Faithful(t) && !t.List? && !t.Tuple?
    ensures WellFormed(EncodingOf(t)) && Written(EncodingOf(t)) == Encode(t) && Value(EncodingOf(t)) == t
  {
    match t {
      case Long(v) => OwnLong(v);
      case Atom(s) => OwnAtom(t, s);
      case Boolean(b) => OwnAtom(t, if b then "true" else "false");
      case Str(s) => OwnText(s);
      case PidTerm(p) => OwnIdentifier(t, p.node);
      case PortTerm(p) => OwnIdentifier(t, p.node);
      case RefTerm(r) => AsciiSeen(r.node); OwnRef(r);
      case Binary(b) =>
    }
  }

  lemma OwnAtom(t: Term, s: string)
    requires (t == Atom(s) && Representable(t) && Faithful(t)) || (t.Boolean? && s == if t.value then "true" else "false")
    ensures WellFormed(EncodingOf(t)) && Written(EncodingOf(t)) == Encode(t) && Value(EncodingOf(t)) == t
  {
    AsciiSeen(s);
    hide Seen, AtomBytes;
  }

  lemma OwnText(s: string)
    requires Representable(Str(s)) && Faithful(Str(s))
    ensures WellFormed(EncodingOf(Str(s))) && Written(EncodingOf(Str(s))) == Encode(Str(s)) && Value(EncodingOf(Str(s))) == Str(s)
  {
    hide BE2, CharBytes;
    assert [107] + (BE2(|s|) + CharBytes(s)) == [107] + BE2(|s|) + CharBytes(s);
  }

  lemma OwnIdentifier(t: Term, node: string)
    requires Representable(t) && Faithful(t) && ((t.PidTerm? && t.pid.node == node) || (t.PortTerm? && t.port.node == node))
    ensures WellFormed(EncodingOf(t)) && Written(EncodingOf(t)) == Encode(t) && Value(EncodingOf(t)) == t
  {
    AsciiSeen(node);
    hide Seen, AtomBytes, BE4;
  }

  lemma {:induction false} OwnEncodings(es: seq<Term>)
    requires forall e :: e in es ==> Representable(e) && Faithful(e)
    ensures forall e :: e in EncodingsOf(es) ==> WellFormed(e)
    ensures AllWritten(EncodingsOf(es)) == EncodeAll(es) && Values(EncodingsOf(es)) == es
    decreases es, 1
  {
    hide Written, Encode, EncodingOf, WellFormed, Value;
    if es != [] {
      OwnEncoding(es[0]);
      OwnEncodings(es[1..]);
      assert [es[0]] + es[1..] == es;
    }
  }

  lemma OwnLong(v: int)
    requires -0x1_0000_0000 < v < 0x1_0000_0000
    ensures WellFormed(EncodingOf(Long(v))) && Written(EncodingOf(Long(v))) == LongBytes(v) && Value(EncodingOf(Long(v))) == Long(v)
  {
    var m := if v < 0 then -v else v;
    FourLittle(m);
    assert Power256(4) == 0x1_0000_0000 by { assert Power256(2) == 0x1_0000; }
    hide LEBytes, Power256;
  }

  lemma FourLittle(m: nat)
    requires m < 0x1_0000_0000
    ensures LEBytes(4, m) == LE4(m)
  {
    assert LEBytes(4, m) == [m % 256] + LEBytes(3, m / 256);
    assert LEBytes(3, m / 256) == [m / 256 % 256] + LEBytes(2, m / 256 / 256);
    assert LEBytes(2, m / 256 / 256) == [m / 256 / 256 % 256] + [m / 256 / 256 / 256 % 256];
  }

  lemma AsciiSeen(s: string)
    requires Ascii(s)
    ensures Seen(s) == s
  {
    forall i | 0 <= i < |s| ensures s[i] as int < 128 {
      assert s[i] in s;
    }
  }

  lemma OwnRef(r: Ref)
    requires Representable(RefTerm(r)) && Faithful(RefTerm(r)) && Seen(r.node) == r.node
    ensures WellFormed(EncodingOf(RefTerm(r))) && Written(EncodingOf(RefTerm(r))) == RefBytes(r)
    ensures Value(EncodingOf(RefTerm(r))) == RefTerm(r)
  {
    hide BE4, BE2, AtomBytes, Seen;
    if |r.ids| == 3 {
      assert r.ids == [r.ids[0], r.ids[1], r.ids[2]];
      assert r.ids[1..3] == r.ids[1..];
    } else {
      assert r.ids == [r.ids[0]];
    }
  }
}
