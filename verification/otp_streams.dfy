/** The stream classes (OtpInputStream.cs, OtpOutputStream.cs), verified against ExternalFormat. */
module OtpStreams {
  import opened Bytes
  import opened Erlang
  import opened ExternalFormat

  /** A reading method did what its function says: it returned the value and left the rest of the
      input, or threw (None) where the function fails. */
  ghost predicate Did<T>(spec: Read<T>, got: Option<T>, rest: seq<Byte>) {
    match spec
    case Ok(v, after) => got == Some(v) && rest == after
    case Fail => got == None
  }

  class OtpInputStream {
    const buf: seq<Byte>
    var pos: nat

    ghost predicate Valid()
      reads this
    {
      pos <= |buf|
    }

    ghost function Rest(): seq<Byte>
      requires Valid()
      reads this
    {
      buf[pos..]
    }

    constructor (buf: seq<Byte>)
      ensures Valid() && Rest() == buf && this.buf == buf
    {
      this.buf, pos := buf, 0;
    }

    method Read1() returns (r: Option<Byte>)
      requires Valid()
      modifies this
      ensures Valid() && Did(ExternalFormat.Read1(old(Rest())), r, Rest())
    {
      if pos >= |buf| {
        return None;
      }
      r := Some(buf[pos]);
      pos := pos + 1;
    }

    /** peek: at the end of the stream a value that is no tag is returned; here None. */
    method Peek() returns (r: Option<Byte>)
      requires Valid()
      ensures r == if Rest() == [] then None else Some(Rest()[0])
    {
      return if pos < |buf| then Some(buf[pos]) else None;
    }

    method ReadN(n: nat) returns (b: seq<Byte>)
      requires Valid()
      modifies this
      ensures Valid() && ExternalFormat.ReadN(n, old(Rest())) == Ok(b, Rest())
    {
      var got := if n <= |buf| - pos then n else |buf| - pos;
      b := buf[pos..pos + got] + seq(n - got, _ => 0);
      pos := pos + got;
      assert b == ExternalFormat.ReadN(n, old(Rest())).value;
      assert Rest() == ExternalFormat.ReadN(n, old(Rest())).rest;
    }

    method Read2BE() returns (v: nat)
      requires Valid()
      modifies this
      ensures Valid() && ExternalFormat.Read2BE(old(Rest())) == Ok(v, Rest())
    {
      var b := ReadN(2);
      v := FromBE2(b[0], b[1]);
    }

    method Read4BE() returns (v: int)
      requires Valid()
      modifies this
      ensures Valid() && ExternalFormat.Read4BE(old(Rest())) == Ok(v, Rest())
    {
      hide FromBE4, Signed32;
      var b := ReadN(4);
      v := Signed32(FromBE4(b[0], b[1], b[2], b[3]));
    }

    /** The first lines of every read method: a tag, after a version byte if there is one. */
    method ReadTag() returns (tag: Option<Byte>)
      requires Valid()
      modifies this
      ensures Valid() && Did(ExternalFormat.ReadTag(old(Rest())), tag, Rest())
    {
      tag := Read1();
      if tag == Some(VERSION) {
        tag := Read1();
      }
    }

    method ReadAtom() returns (s: Option<string>)
      requires Valid()
      modifies this
      ensures Valid() && Did(ExternalFormat.ReadAtom(old(Rest())), s, Rest())
    {
      hide ExternalFormat.ReadN, ExternalFormat.Read2BE, ExternalFormat.ReadTag;
      var tag := ReadTag();
      if tag != Some(ATOM) {
        return None;
      }
      var len := Read2BE();
      var strbuf := ReadN(len);
      var n := if |strbuf| > MAX_ATOM then MAX_ATOM else |strbuf|;
      return Some(AsciiText(strbuf[..n]));
    }

    method ReadLong() returns (l: Option<int>)
      requires Valid()
      modifies this
      ensures Valid() && Did(ExternalFormat.ReadLong(old(Rest())), l, Rest())
    {
      hide ExternalFormat.Read4BE, ExternalFormat.ReadTag;
      var tag := ReadTag();
      if tag == Some(SMALL_INT) {
        var b := Read1();
        if b == None {
          return None;
        }
        return Some(b.value as int);
      } else if tag == Some(INT) {
        var v := Read4BE();
        return Some(v);
      } else if tag == Some(SMALL_BIG) {
        var arity := Read1();
        if arity == None {
          return None;
        }
        var sign := Read1();
        if sign == None {
          return None;
        }
        ghost var digits := Rest();
        if arity.value > |buf| - pos || arity.value > 8 {
          return None;
        }
        var nb := ReadN(arity.value);
        assert nb == digits[..arity.value];
        var val := FromDigits(nb);
        return Some(if sign.value == 0 then val else Negate64(val));
      }
      return None;
    }

    /** read_char */
    method ReadChar() returns (c: Option<char>)
      requires Valid()
      modifies this
      ensures Valid() && Did(ExternalFormat.ReadChar(old(Rest())), c, Rest())
    {
      hide ExternalFormat.ReadLong;
      var l := ReadLong();
      if l == None || !(0 <= l.value < 0xD800) {
        return None;
      }
      return Some(l.value as char);
    }

    method ReadNil() returns (done: Option<()>)
      requires Valid()
      modifies this
      ensures Valid() && Did(ExternalFormat.ReadNil(old(Rest())), done, Rest())
    {
      hide ExternalFormat.ReadTag;
      var tag := ReadTag();
      return if tag != Some(NIL) then None else Some(());
    }

    /** The loop of read_string over a list of character codes. */
    method ReadChars(len: nat) returns (s: Option<string>)
      requires Valid()
      modifies this
      ensures Valid() && Did(ExternalFormat.ReadChars(len, old(Rest())), s, Rest())
    {
      hide ExternalFormat.ReadChar;
      var charbuf := "";
      PrependNothing(ExternalFormat.ReadChars(len, Rest()));
      for i := 0 to len
        invariant Valid()
        invariant ExternalFormat.ReadChars(len, old(Rest())) == Prepend(charbuf, ExternalFormat.ReadChars(len - i, Rest()))
      {
        var c := ReadChar();
        if c == None {
          return None;
        }
        PrependNext(charbuf, c.value, ExternalFormat.ReadChars(len - i - 1, Rest()));
        charbuf := charbuf + [c.value];
      }
      PrependDone(charbuf, Rest());
      return Some(charbuf);
    }

    method ReadString() returns (s: Option<string>)
      requires Valid()
      modifies this
      ensures Valid() && Did(ExternalFormat.ReadString(old(Rest())), s, Rest())
    {
      hide ExternalFormat.ReadTag, ExternalFormat.Read2BE, ExternalFormat.Read4BE, ExternalFormat.ReadN,
        ExternalFormat.ReadChars, ExternalFormat.ReadNil;
      var tag := ReadTag();
      if tag == Some(STRING) {
        var len := Read2BE();
        var strbuf := ReadN(len);
        return Some(ByteText(strbuf));
      } else if tag == Some(NIL) {
        return Some("");
      } else if tag == Some(LIST) {
        var len := Read4BE();
        if len < 0 {
          return None;
        }
        s := ReadChars(len);
        if s != None {
          var nil := ReadNil();
          if nil == None {
            return None;
          }
        }
        return s;
      }
      return None;
    }

    method ReadPid() returns (p: Option<Pid>)
      requires Valid()
      modifies this
      ensures Valid() && Did(ExternalFormat.ReadPid(old(Rest())), p, Rest())
    {
      hide ExternalFormat.ReadTag, ExternalFormat.ReadAtom, ExternalFormat.Read4BE, MakePid;
      var tag := ReadTag();
      if tag != Some(PID) {
        return None;
      }
      var node := ReadAtom();
      if node == None {
        return None;
      }
      var id := Read4BE();
      var serial := Read4BE();
      var creation := Read1();
      if creation == None {
        return None;
      }
      return Some(MakePid(node.value, id, serial, creation.value));
    }

    method ReadPort() returns (p: Option<Port>)
      requires Valid()
      modifies this
      ensures Valid() && Did(ExternalFormat.ReadPort(old(Rest())), p, Rest())
    {
      hide ExternalFormat.ReadTag, ExternalFormat.ReadAtom, ExternalFormat.Read4BE, MakePort;
      var tag := ReadTag();
      if tag != Some(PORT) {
        return None;
      }
      var node := ReadAtom();
      if node == None {
        return None;
      }
      var id := Read4BE();
      var creation := Read1();
      if creation == None {
        return None;
      }
      return Some(MakePort(node.value, id, creation.value));
    }

    /** The loop of read_ref. */
    method ReadWords(arity: nat) returns (ids: seq<int>)
      requires Valid()
      modifies this
      ensures Valid() && ExternalFormat.ReadWords(arity, old(Rest())) == Ok(ids, Rest())
    {
      hide ExternalFormat.Read4BE;
      ids := [];
      PrependNothing(ExternalFormat.ReadWords(arity, Rest()));
      for i := 0 to arity
        invariant Valid()
        invariant ExternalFormat.ReadWords(arity, old(Rest())) == Prepend(ids, ExternalFormat.ReadWords(arity - i, Rest()))
      {
        var w := Read4BE();
        PrependNext(ids, w, ExternalFormat.ReadWords(arity - i - 1, Rest()));
        ids := ids + [w];
      }
      PrependDone(ids, Rest());
    }

    method ReadRef() returns (r: Option<Ref>)
      requires Valid()
      modifies this
      ensures Valid() && Did(ExternalFormat.ReadRef(old(Rest())), r, Rest())
    {
      hide ExternalFormat.ReadTag, ExternalFormat.ReadAtom, ExternalFormat.Read2BE, ExternalFormat.Read4BE,
        ExternalFormat.ReadWords, MakeRef, MakeOldRef;
      var tag := ReadTag();
      if tag == Some(REF) {
        var node := ReadAtom();
        if node == None {
          return None;
        }
        var id := Read4BE();
        var creation := Read1();
        if creation == None {
          return None;
        }
        return Some(MakeOldRef(node.value, id, creation.value));
      } else if tag == Some(NEW_REF) {
        var arity := Read2BE();
        var node := ReadAtom();
        if node == None {
          return None;
        }
        var creation := Read1();
        if creation == None || arity == 0 {
          return None;
        }
        var ids := ReadWords(arity);
        return Some(MakeRef(node.value, ids, creation.value));
      }
      return None;
    }

    method ReadListHead() returns (arity: Option<int>)
      requires Valid()
      modifies this
      ensures Valid() && Did(ExternalFormat.ReadListHead(old(Rest())), arity, Rest())
    {
      hide ExternalFormat.ReadTag, ExternalFormat.Read2BE, ExternalFormat.Read4BE;
      var tag := ReadTag();
      if tag == Some(NIL) {
        return Some(0);
      } else if tag == Some(STRING) {
        var n := Read2BE();
        return Some(n);
      } else if tag == Some(LIST) {
        var n := Read4BE();
        return Some(n);
      }
      return None;
    }

    method ReadTupleHead() returns (arity: Option<int>)
      requires Valid()
      modifies this
      ensures Valid() && Did(ExternalFormat.ReadTupleHead(old(Rest())), arity, Rest())
    {
      hide ExternalFormat.ReadTag, ExternalFormat.Read4BE;
      var tag := ReadTag();
      if tag == Some(SMALL_TUPLE) {
        var n := Read1();
        return if n == None then None else Some(n.value as int);
      } else if tag == Some(LARGE_TUPLE) {
        var n := Read4BE();
        return Some(n);
      }
      return None;
    }

    method ReadBinary() returns (b: Option<seq<Byte>>)
      requires Valid()
      modifies this
      ensures Valid() && Did(ExternalFormat.ReadBinary(old(Rest())), b, Rest())
    {
      hide ExternalFormat.ReadTag, ExternalFormat.Read4BE, ExternalFormat.ReadN;
      var tag := ReadTag();
      if tag != Some(BINARY) {
        return None;
      }
      var len := Read4BE();
      if len < 0 {
        return None;
      }
      var bin := ReadN(len);
      return Some(bin);
    }

    /** read_any, with the stream constructors of the Erlang classes. */
    method ReadAny() returns (t: Option<Term>)
      requires Valid()
      modifies this
      ensures Valid() && Did(ExternalFormat.ReadAny(old(Rest())), t, Rest())
      decreases |Rest()|, 1
    {
      hide ExternalFormat.ReadLong, ExternalFormat.ReadAtom, ExternalFormat.ReadRef, ExternalFormat.ReadPort,
        ExternalFormat.ReadPid, ExternalFormat.ReadString, ExternalFormat.ReadBinary, ExternalFormat.ReadList,
        ExternalFormat.ReadTuple;
      var peeked := Peek();
      if peeked == Some(VERSION) {
        var _ := Read1();
        peeked := Peek();
      }
      if peeked == None {
        return None;
      }
      var tag := peeked.value;
      if tag == SMALL_INT || tag == INT || tag == SMALL_BIG {
        var l := ReadLong();
        return if l == None then None else Some(Long(l.value));
      } else if tag == ATOM {
        var s := ReadAtom();
        if s == None {
          return None;
        }
        return Some(if s.value == "true" then Boolean(true)
                    else if s.value == "false" then Boolean(false)
                    else Atom(s.value));
      } else if tag == REF || tag == NEW_REF {
        var r := ReadRef();
        return if r == None then None else Some(RefTerm(r.value));
      } else if tag == PORT {
        var p := ReadPort();
        return if p == None then None else Some(PortTerm(p.value));
      } else if tag == PID {
        var p := ReadPid();
        return if p == None then None else Some(PidTerm(p.value));
      } else if tag == STRING {
        var s := ReadString();
        return if s == None then None else Some(Str(s.value));
      } else if tag == LIST || tag == NIL {
        t := ReadList();
        return t;
      } else if tag == SMALL_TUPLE || tag == LARGE_TUPLE {
        t := ReadTuple();
        return t;
      } else if tag == BINARY {
        var b := ReadBinary();
        return if b == None then None else Some(Binary(b.value));
      }
      return None;
    }

    method ReadList() returns (t: Option<Term>)
      requires Valid()
      modifies this
      ensures Valid() && Did(ExternalFormat.ReadList(old(Rest())), t, Rest())
      decreases |Rest()|, 0
    {
      hide ExternalFormat.ReadListHead, ExternalFormat.ReadMany, ExternalFormat.ReadNil;
      var arity := ReadListHead();
      if arity == None {
        return None;
      }
      if arity.value <= 0 {
        return Some(List([]));
      }
      var elems := ReadMany(arity.value);
      if elems == None {
        return None;
      }
      var nil := ReadNil();
      return if nil == None then None else Some(List(elems.value));
    }

    method ReadTuple() returns (t: Option<Term>)
      requires Valid()
      modifies this
      ensures Valid() && Did(ExternalFormat.ReadTuple(old(Rest())), t, Rest())
      decreases |Rest()|, 0
    {
      hide ExternalFormat.ReadTupleHead, ExternalFormat.ReadMany;
      var arity := ReadTupleHead();
      if arity == None {
        return None;
      }
      if arity.value <= 0 {
        return Some(NullTuple);
      }
      var elems := ReadMany(arity.value);
      return if elems == None then None else Some(Tuple(elems.value));
    }

    /** The loop of the List and Tuple constructors. */
    method ReadMany(arity: nat) returns (elems: Option<seq<Term>>)
      requires Valid()
      modifies this
      ensures Valid() && Did(ExternalFormat.ReadMany(arity, old(Rest())), elems, Rest())
      decreases |Rest()|, 2
    {
      hide ExternalFormat.ReadAny;
      var es: seq<Term> := [];
      PrependNothing(ExternalFormat.ReadMany(arity, Rest()));
      for i := 0 to arity
        invariant Valid() && |Rest()| <= |old(Rest())|
        invariant ExternalFormat.ReadMany(arity, old(Rest())) == Prepend(es, ExternalFormat.ReadMany(arity - i, Rest()))
      {
        var e := ReadAny();
        if e == None {
          return None;
        }
        PrependNext(es, e.value, ExternalFormat.ReadMany(arity - i - 1, Rest()));
        es := es + [e.value];
      }
      PrependDone(es, Rest());
      return Some(es);
    }
  }

  /** What has been read so far, in front of what the remaining rounds of a loop read. */
  function Prepend<T>(done: seq<T>, more: Read<seq<T>>): Read<seq<T>> {
    match more
    case Ok(v, rest) => Ok(done + v, rest)
    case Fail => Fail
  }

  lemma PrependNothing<T>(more: Read<seq<T>>)
    ensures Prepend([], more) == more
  {
    if more.Ok? {
      assert [] + more.value == more.value;
    }
  }

  lemma PrependNext<T>(done: seq<T>, x: T, more: Read<seq<T>>)
    ensures Prepend(done, Prepend([x], more)) == Prepend(done + [x], more)
  {
    if more.Ok? {
      assert done + [x] + more.value == done + ([x] + more.value);
    }
  }

  lemma PrependDone<T>(done: seq<T>, rest: seq<Byte>)
    ensures Prepend(done, Ok([], rest)) == Ok(done, rest)
  {
    assert done + [] == done;
  }

  /** The loop of read_long. Or-ing a byte into bits that are still zero adds it. */
  method FromDigits(nb: seq<Byte>) returns (val: int)
    requires |nb| <= 8
    ensures val == Signed64(LEValue(nb))
  {
    hide LEValue, Signed64;
    var sum, unit := 0, 1;
    assert nb[0..] == nb;
    for i := 0 to |nb|
      invariant sum + unit * LEValue(nb[i..]) == LEValue(nb)
    {
      OneDigit(nb, i, unit);
      sum := sum + nb[i] * unit;
      unit := unit * 256;
    }
    NoDigits(nb);
    val := Signed64(sum);
  }

  lemma OneDigit(nb: seq<Byte>, i: nat, unit: int)
    requires i < |nb|
    ensures unit * LEValue(nb[i..]) == nb[i] * unit + unit * 256 * LEValue(nb[i + 1..])
  {
    assert nb[i..][1..] == nb[i + 1..];
    assert LEValue(nb[i..]) == nb[i] + 256 * LEValue(nb[i + 1..]);
  }

  lemma NoDigits(nb: seq<Byte>)
    ensures LEValue(nb[|nb|..]) == 0
  {
  }

  lemma SixParts(s: seq<Byte>, a: seq<Byte>, b: seq<Byte>, c: seq<Byte>, d: seq<Byte>, e: seq<Byte>, f: seq<Byte>)
    ensures s + a + b + c + d + e + f == s + (a + b + c + d + e + f)
  {
  }

  lemma ThreeParts(s: seq<Byte>, a: seq<Byte>, b: seq<Byte>, c: seq<Byte>)
    ensures s + a + b + c == s + (a + b + c)
  {
  }

  /** The stream with b written over it, as far as it goes. */
  function Poked(s: seq<Byte>, offset: nat, b: seq<Byte>): (r: seq<Byte>)
    ensures |r| == |s|
    ensures forall i :: 0 <= i < |s| ==> r[i] == if offset <= i < offset + |b| then b[i - offset] else s[i]
  {
    seq(|s|, i requires 0 <= i < |s| => if offset <= i < offset + |b| then b[i - offset] else s[i])
  }

  /** A growing byte buffer. */
  class OtpOutputStream {
    var buf: array<Byte>
    var count: nat

    ghost predicate Valid()
      reads this
    {
      count <= buf.Length
    }

    ghost function Contents(): seq<Byte>
      requires Valid()
      reads this, buf
    {
      buf[..count]
    }

    constructor (size: nat)
      ensures Valid() && Contents() == [] && fresh(buf)
    {
      buf := new Byte[size](_ => 0);
      count := 0;
    }

    /** The reallocation of both write methods. */
    method Grow(extra: nat)
      requires Valid()
      modifies this
      ensures Valid() && Contents() == old(Contents()) && fresh(buf)
      ensures buf.Length == old(buf.Length) + extra
    {
      var tmp := new Byte[buf.Length + extra](_ => 0);
      forall i | 0 <= i < count {
        tmp[i] := buf[i];
      }
      buf := tmp;
    }

    method Write(b: Byte)
      requires Valid()
      modifies this, buf
      ensures Valid() && Contents() == old(Contents()) + [b] && (buf == old(buf) || fresh(buf))
    {
      if count >= buf.Length {
        Grow(2048);
      }
      buf[count] := b;
      count := count + 1;
    }

    method WriteN(bytes: seq<Byte>)
      requires Valid()
      modifies this, buf
      ensures Valid() && Contents() == old(Contents()) + bytes && (buf == old(buf) || fresh(buf))
    {
      ghost var before := Contents();
      if count + |bytes| > buf.Length {
        Grow(|bytes| + 2048);
      }
      forall i | 0 <= i < |bytes| {
        buf[count + i] := bytes[i];
      }
      count := count + |bytes|;
      assert Contents() == before + bytes;
    }

    method Write2BE(n: int)
      requires Valid()
      modifies this, buf
      ensures Valid() && Contents() == old(Contents()) + BE2(n) && (buf == old(buf) || fresh(buf))
    {
      Write(n / 0x100 % 0x100);
      Write(n % 0x100);
    }

    method Write4BE(n: int)
      requires Valid()
      modifies this, buf
      ensures Valid() && Contents() == old(Contents()) + BE4(n) && (buf == old(buf) || fresh(buf))
    {
      Write(n / 0x100_0000 % 0x100);
      Write(n / 0x1_0000 % 0x100);
      Write(n / 0x100 % 0x100);
      Write(n % 0x100);
    }

    method Write4LE(n: int)
      requires Valid()
      modifies this, buf
      ensures Valid() && Contents() == old(Contents()) + LE4(n) && (buf == old(buf) || fresh(buf))
    {
      Write(n % 0x100);
      Write(n / 0x100 % 0x100);
      Write(n / 0x1_0000 % 0x100);
      Write(n / 0x100_0000 % 0x100);
    }

    /** Overwrites four bytes; an offset at or past the end is ignored. What would go past the end
        stays in the buffer without being part of the stream, or throws where the buffer ends. */
    method Poke4BE(offset: nat, n: int) returns (ok: bool)
      requires Valid()
      modifies buf
      ensures Valid() && (ok <==> count <= offset || offset + 4 <= buf.Length)
      ensures Contents() == Poked(old(Contents()), offset, BE4(n))
    {
      if count <= offset {
        return true;
      }
      ghost var before := Contents();
      buf[offset] := n / 0x100_0000 % 0x100;
      if offset + 1 < buf.Length {
        buf[offset + 1] := n / 0x1_0000 % 0x100;
      }
      if offset + 2 < buf.Length {
        buf[offset + 2] := n / 0x100 % 0x100;
      }
      if offset + 3 < buf.Length {
        buf[offset + 3] := n % 0x100;
      }
      assert Contents() == Poked(before, offset, BE4(n));
      ok := offset + 4 <= buf.Length;
    }

    method WriteAtom(atom: string)
      requires Valid()
      modifies this, buf
      ensures Valid() && Contents() == old(Contents()) + AtomBytes(atom) && (buf == old(buf) || fresh(buf))
    {
      hide BE2, BE4, LE4, CharBytes;
      Write(ATOM);
      Write2BE(|atom|);
      WriteN(CharBytes(atom));
      assert Contents() == old(Contents()) + AtomBytes(atom);
    }

    method WriteLong(l: int)
      requires Valid()
      modifies this, buf
      ensures Valid() && Contents() == old(Contents()) + LongBytes(l) && (buf == old(buf) || fresh(buf))
    {
      hide BE4, LE4;
      if 0 <= l < 256 {
        Write(SMALL_INT);
        Write(l);
        assert Contents() == old(Contents()) + LongBytes(l);
      } else if -0x800_0000 <= l < 0x800_0000 {
        Write(INT);
        Write4BE(l);
        assert Contents() == old(Contents()) + LongBytes(l);
      } else {
        WriteBig(l);
      }
    }

    /** The last branch of write_long. */
    method WriteBig(l: int)
      requires Valid()
      modifies this, buf
      ensures Valid() && (buf == old(buf) || fresh(buf))
      ensures Contents() == old(Contents()) + ([SMALL_BIG, 4, if l < 0 then 1 else 0] + LE4(if l < 0 then -l else l))
    {
      hide LE4;
      Write(SMALL_BIG);
      Write(4);
      if l < 0 {
        Write(1);
        Write4LE(-l);
      } else {
        Write(0);
        Write4LE(l);
      }
    }

    method WriteString(s: string)
      requires Valid()
      modifies this, buf
      ensures Valid() && Contents() == old(Contents()) + StringBytes(s) && (buf == old(buf) || fresh(buf))
    {
      hide BE2, BE4, LE4, CharBytes;
      if s == "" {
        Write(NIL);
      } else {
        Write(STRING);
        Write2BE(|s|);
        WriteN(CharBytes(s));
        ThreeParts(old(Contents()), [STRING], BE2(|s|), CharBytes(s));
      }
    }

    method WriteListHead(arity: nat)
      requires Valid()
      modifies this, buf
      ensures Valid() && Contents() == old(Contents()) + ListHead(arity) && (buf == old(buf) || fresh(buf))
    {
      hide BE4;
      if arity == 0 {
        Write(NIL);
      } else {
        Write(LIST);
        Write4BE(arity);
        assert Contents() == old(Contents()) + ListHead(arity);
      }
    }

    method WriteTupleHead(arity: nat)
      requires Valid()
      modifies this, buf
      ensures Valid() && Contents() == old(Contents()) + TupleHead(arity) && (buf == old(buf) || fresh(buf))
    {
      hide BE4;
      if arity < 0xff {
        Write(SMALL_TUPLE);
        Write(arity);
      } else {
        Write(LARGE_TUPLE);
        Write4BE(arity);
      }
      assert Contents() == old(Contents()) + TupleHead(arity);
    }

    method WritePid(p: Pid)
      requires Valid()
      modifies this, buf
      ensures Valid() && Contents() == old(Contents()) + PidBytes(p) && (buf == old(buf) || fresh(buf))
    {
      hide BE4, AtomBytes;
      Write(PID);
      WriteAtom(p.node);
      Write4BE(p.id % 0x8000);
      Write4BE(p.serial % 8);
      Write(p.creation % 4);
      assert Contents() == old(Contents()) + PidBytes(p);
    }

    method WritePort(p: Port)
      requires Valid()
      modifies this, buf
      ensures Valid() && Contents() == old(Contents()) + PortBytes(p) && (buf == old(buf) || fresh(buf))
    {
      hide BE4, AtomBytes;
      Write(PORT);
      WriteAtom(p.node);
      Write4BE(p.id % 0x4_0000);
      Write(p.creation % 4);
      assert Contents() == old(Contents()) + PortBytes(p);
    }

    method WriteRef(r: Ref)
      requires Valid() && r.ids != []
      modifies this, buf
      ensures Valid() && Contents() == old(Contents()) + RefBytes(r) && (buf == old(buf) || fresh(buf))
    {
      hide BE2, BE4, AtomBytes, WordsBytes;
      var arity := if |r.ids| > 3 then 3 else |r.ids|;
      if arity == 1 {
        WriteOldRef(r.node, r.ids[0], r.creation);
      } else {
        WriteNewRef(r, arity);
      }
    }

    method WriteOldRef(node: string, id: int, creation: int)
      requires Valid()
      modifies this, buf
      ensures Valid() && (buf == old(buf) || fresh(buf))
      ensures Contents() == old(Contents()) + ([REF] + AtomBytes(node) + BE4(id % 0x4_0000) + [creation % 4])
    {
      hide BE4, AtomBytes;
      Write(REF);
      WriteAtom(node);
      Write4BE(id % 0x4_0000);
      Write(creation % 4);
      assert Contents() == old(Contents()) + ([REF] + AtomBytes(node) + BE4(id % 0x4_0000) + [creation % 4]);
    }

    method WriteNewRef(r: Ref, arity: nat)
      requires Valid() && 1 < arity <= |r.ids|
      modifies this, buf
      ensures Valid() && (buf == old(buf) || fresh(buf))
      ensures Contents() == old(Contents()) + ([NEW_REF] + BE2(arity) + AtomBytes(r.node) + [r.creation % 4]
                                               + BE4(r.ids[0] % 0x4_0000) + WordsBytes(r.ids[1..arity]))
    {
      hide BE2, BE4, AtomBytes, WordsBytes;
      Write(NEW_REF);
      Write2BE(arity);
      WriteAtom(r.node);
      Write(r.creation % 4);
      Write4BE(r.ids[0] % 0x4_0000);
      WriteWords(r.ids[1..arity]);
      SixParts(old(Contents()), [NEW_REF], BE2(arity), AtomBytes(r.node), [r.creation % 4],
               BE4(r.ids[0] % 0x4_0000), WordsBytes(r.ids[1..arity]));
    }

    /** The loop of write_ref. */
    method WriteWords(ids: seq<int>)
      requires Valid()
      modifies this, buf
      ensures Valid() && Contents() == old(Contents()) + WordsBytes(ids) && (buf == old(buf) || fresh(buf))
    {
      hide BE4;
      for i := 0 to |ids|
        invariant Valid() && (buf == old(buf) || fresh(buf))
        invariant Contents() + WordsBytes(ids[i..]) == old(Contents()) + WordsBytes(ids)
      {
        assert ids[i..][1..] == ids[i + 1..];
        assert Contents() + WordsBytes(ids[i..]) == Contents() + BE4(ids[i]) + WordsBytes(ids[i + 1..]);
        Write4BE(ids[i]);
      }
    }

    method WriteBinary(bin: seq<Byte>)
      requires Valid()
      modifies this, buf
      ensures Valid() && Contents() == old(Contents()) + ([BINARY] + BE4(|bin|) + bin) && (buf == old(buf) || fresh(buf))
    {
      hide BE4;
      Write(BINARY);
      Write4BE(|bin|);
      WriteN(bin);
      assert Contents() == old(Contents()) + ([BINARY] + BE4(|bin|) + bin);
    }

    /** write_any, with the encode methods of the Erlang classes. */
    method WriteAny(t: Term)
      requires Valid() && Representable(t)
      modifies this, buf
      ensures Valid() && Contents() == old(Contents()) + Encode(t) && (buf == old(buf) || fresh(buf))
      decreases t, 0
    {
      hide LongBytes, AtomBytes, StringBytes, PidBytes, PortBytes, RefBytes, ListHead, TupleHead, EncodeAll, BE4;
      match t {
        case Long(v) => WriteLong(v);
        case Atom(s) => WriteAtom(s);
        case Boolean(b) => WriteAtom(if b then "true" else "false");
        case Str(s) => WriteString(s);
        case PidTerm(p) => WritePid(p);
        case PortTerm(p) => WritePort(p);
        case RefTerm(r) => WriteRef(r);
        case List(es) =>
          if es != [] {
            WriteListHead(|es|);
            WriteAll(es);
          }
          Write(NIL);
          assert Contents() == old(Contents()) + Encode(t);
        case Tuple(es) =>
          WriteTupleHead(|es|);
          WriteAll(es);
          assert Contents() == old(Contents()) + Encode(t);
        case Binary(b) => WriteBinary(b);
      }
    }

    /** The loop of List.encode and Tuple.encode. */
    method WriteAll(es: seq<Term>)
      requires Valid() && forall e :: e in es ==> Representable(e)
      modifies this, buf
      ensures Valid() && Contents() == old(Contents()) + EncodeAll(es) && (buf == old(buf) || fresh(buf))
      decreases es, 1
    {
      hide Encode;
      for i := 0 to |es|
        invariant Valid() && (buf == old(buf) || fresh(buf))
        invariant forall e :: e in es[i..] ==> Representable(e)
        invariant Contents() + EncodeAll(es[i..]) == old(Contents()) + EncodeAll(es)
      {
        assert es[i..][1..] == es[i + 1..] && es[i..][0] == es[i];
        assert Contents() + EncodeAll(es[i..]) == Contents() + Encode(es[i]) + EncodeAll(es[i + 1..]);
        WriteAny(es[i]);
      }
    }
  }
}
