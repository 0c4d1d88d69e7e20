/** The external term format as otp.net writes it (OtpOutputStream.cs and the encode methods of
    the Erlang classes) and reads it (OtpInputStream.cs and the stream constructors), as
    functions on byte sequences. The stream classes are verified against these functions. */
module ExternalFormat {
  import opened Bytes
  import opened Erlang

  const SMALL_INT: Byte := 97
  const INT: Byte := 98
  const ATOM: Byte := 100
  const REF: Byte := 101
  const PORT: Byte := 102
  const PID: Byte := 103
  const SMALL_TUPLE: Byte := 104
  const LARGE_TUPLE: Byte := 105
  const NIL: Byte := 106
  const STRING: Byte := 107
  const LIST: Byte := 108
  const BINARY: Byte := 109
  const SMALL_BIG: Byte := 110
  const NEW_REF: Byte := 114
  const VERSION: Byte := 131

  const MAX_ATOM: nat := 255

  /** Erlang.Object. NullTuple is a Tuple object whose element array is null, which the stream
      constructor leaves behind for arity 0. */
  datatype Term =
    | Long(val: int)
    | Atom(name: string)
    | Boolean(value: bool)
    | Str(text: string)
    | PidTerm(pid: Pid)
    | PortTerm(port: Port)
    | RefTerm(ref: Ref)
    | List(elems: seq<Term>)
    | Tuple(elems: seq<Term>)
    | NullTuple
    | Binary(bytes: seq<Byte>)

  // ---- Writing ----

  /** (byte) c */
  function CharByte(c: char): Byte {
    c as int % 256
  }

  function CharBytes(s: string): (b: seq<Byte>)
    ensures |b| == |s|
  {
    seq(|s|, i requires 0 <= i < |s| => CharByte(s[i]))
  }

  /** The low two and the low four bytes of n, in big and little endian order. */
  function BE2(n: int): (b: seq<Byte>)
    ensures |b| == 2
  {
    [n / 0x100 % 0x100, n % 0x100]
  }

  function BE4(n: int): (b: seq<Byte>)
    ensures |b| == 4
  {
    [n / 0x100_0000 % 0x100, n / 0x1_0000 % 0x100, n / 0x100 % 0x100, n % 0x100]
  }

  function LE4(n: int): (b: seq<Byte>)
    ensures |b| == 4
  {
    [n % 0x100, n / 0x100 % 0x100, n / 0x1_0000 % 0x100, n / 0x100_0000 % 0x100]
  }

  /** write_long: a number that is neither small nor in 28 bits goes out as a four byte big. */
  function LongBytes(l: int): seq<Byte> {
    if 0 <= l < 256 then [SMALL_INT, l]
    else if -0x800_0000 <= l < 0x800_0000 then [INT] + BE4(l)
    else if l < 0 then [SMALL_BIG, 4, 1] + LE4(-l)
    else [SMALL_BIG, 4, 0] + LE4(l)
  }

  function AtomBytes(s: string): seq<Byte> {
    [ATOM] + BE2(|s|) + CharBytes(s)
  }

  /** write_string: the branch for characters beyond a byte is never taken, because the array of
      truncated characters is as long as the string. */
  function StringBytes(s: string): seq<Byte> {
    if s == "" then [NIL] else [STRING] + BE2(|s|) + CharBytes(s)
  }

  function ListHead(arity: nat): seq<Byte> {
    if arity == 0 then [NIL] else [LIST] + BE4(arity)
  }

  function TupleHead(arity: nat): seq<Byte> {
    if arity < 0xff then [SMALL_TUPLE, arity] else [LARGE_TUPLE] + BE4(arity)
  }

  function PidBytes(p: Pid): seq<Byte> {
    [PID] + AtomBytes(p.node) + BE4(p.id % 0x8000) + BE4(p.serial % 8) + [p.creation % 4]
  }

  function PortBytes(p: Port): seq<Byte> {
    [PORT] + AtomBytes(p.node) + BE4(p.id % 0x4_0000) + [p.creation % 4]
  }

  function WordsBytes(ids: seq<int>): seq<Byte> {
    if ids == [] then [] else BE4(ids[0]) + WordsBytes(ids[1..])
  }

  /** write_ref: one word makes an old style reference, otherwise at most three are written. */
  function RefBytes(r: Ref): seq<Byte>
    requires r.ids != []
  {
    var arity := if |r.ids| > 3 then 3 else |r.ids|;
    if arity == 1
    then [REF] + AtomBytes(r.node) + BE4(r.ids[0] % 0x4_0000) + [r.creation % 4]
    else [NEW_REF] + BE2(arity) + AtomBytes(r.node) + [r.creation % 4]
         + BE4(r.ids[0] % 0x4_0000) + WordsBytes(r.ids[1..arity])
  }

  /** What the constructors of the Erlang classes guarantee. Characters are kept below the
      surrogates. */
  predicate Representable(t: Term) {
    match t
    case Long(v) => -0x8000_0000_0000_0000 <= v < 0x8000_0000_0000_0000
    case Atom(s) => |s| <= MAX_ATOM && PlainText(s)
    case Boolean(_) => true
    case Str(s) => PlainText(s)
    case PidTerm(p) => PlainText(p.node) && p == MakePid(p.node, p.id, p.serial, p.creation)
    case PortTerm(p) => PlainText(p.node) && p == MakePort(p.node, p.id, p.creation)
    case RefTerm(r) =>
      && PlainText(r.node) && 0 <= r.creation < 4
      && (|r.ids| == 1 || |r.ids| == 3) && 0 <= r.ids[0] < 0x4_0000
      && forall i :: 1 <= i < |r.ids| ==> -0x8000_0000 <= r.ids[i] < 0x8000_0000
    case List(es) => |es| < 0x8000_0000 && forall e :: e in es ==> Representable(e)
    case Tuple(es) => |es| < 0x8000_0000 && forall e :: e in es ==> Representable(e)
    case NullTuple => false
    case Binary(b) => |b| < 0x8000_0000
  }

  predicate PlainText(s: string) {
    |s| < 0x8000_0000 && forall c :: c in s ==> c as int < 0xD800
  }

  function Encode(t: Term): seq<Byte>
    requires Representable(t)
  {
    match t
    case Long(v) => LongBytes(v)
    case Atom(s) => AtomBytes(s)
    case Boolean(b) => AtomBytes(if b then "true" else "false")
    case Str(s) => StringBytes(s)
    case PidTerm(p) => PidBytes(p)
    case PortTerm(p) => PortBytes(p)
    case RefTerm(r) => RefBytes(r)
    case List(es) => if es == [] then [NIL] else ListHead(|es|) + EncodeAll(es) + [NIL]
    case Tuple(es) => TupleHead(|es|) + EncodeAll(es)
    case Binary(b) => [BINARY] + BE4(|b|) + b
  }

  function EncodeAll(es: seq<Term>): seq<Byte>
    requires forall e :: e in es ==> Representable(e)
  {
    if es == [] then [] else Encode(es[0]) + EncodeAll(es[1..])
  }

  // ---- Reading ----

  /** The outcome of reading from the bytes that are left: a value and what is left then, or an
      exception. */
  datatype Read<+T> = Ok(value: T, rest: seq<Byte>) | Fail

  function Read1(bs: seq<Byte>): (r: Read<Byte>)
    ensures r.Ok? ==> |r.rest| < |bs|
  {
    if bs == [] then Fail else Ok(bs[0], bs[1..])
  }

  /** MemoryStream.Read into a zeroed array of n bytes: a short read leaves zeros and is not
      noticed. */
  function ReadN(n: nat, bs: seq<Byte>): (r: Read<seq<Byte>>)
    ensures r.Ok? && |r.value| == n && |r.rest| <= |bs|
  {
    if n <= |bs| then Ok(bs[..n], bs[n..])
    else Ok(bs + seq(n - |bs|, _ => 0), [])
  }

  function Read2BE(bs: seq<Byte>): (r: Read<nat>)
    ensures r.Ok? && r.value < 0x1_0000 && |r.rest| <= |bs|
  {
    var b := ReadN(2, bs);
    Ok(FromBE2(b.value[0], b.value[1]), b.rest)
  }

  /** A C# int. */
  function Read4BE(bs: seq<Byte>): (r: Read<int>)
    ensures r.Ok? && -0x8000_0000 <= r.value < 0x8000_0000 && |r.rest| <= |bs|
  {
    var b := ReadN(4, bs);
    Ok(Signed32(FromBE4(b.value[0], b.value[1], b.value[2], b.value[3])), b.rest)
  }

  /** A tag, after a version byte if there is one. */
  function ReadTag(bs: seq<Byte>): (r: Read<Byte>)
    ensures r.Ok? ==> |r.rest| < |bs|
  {
    var r := Read1(bs);
    if r.Ok? && r.value == VERSION then Read1(r.rest) else r
  }

  /** Encoding.ASCII.GetString: bytes above 127 become '?'. */
  function AsciiText(b: seq<Byte>): (s: string)
    ensures |s| == |b|
  {
    seq(|b|, i requires 0 <= i < |b| => if b[i] < 128 then b[i] as char else '?')
  }

  function ByteText(b: seq<Byte>): (s: string)
    ensures |s| == |b|
  {
    seq(|b|, i requires 0 <= i < |b| => b[i] as char)
  }

  function ReadAtom(bs: seq<Byte>): (r: Read<string>)
    ensures r.Ok? ==> |r.rest| < |bs| && |r.value| <= MAX_ATOM
  {
    var tag := ReadTag(bs);
    if tag.Fail? || tag.value != ATOM then Fail
    else
      var len := Read2BE(tag.rest);
      var b := ReadN(len.value, len.rest);
      Ok(AsciiText(b.value[..if len.value > MAX_ATOM then MAX_ATOM else len.value]), b.rest)
  }

  /** The number whose base 256 digits, low digit first, are b. */
  function LEValue(b: seq<Byte>): (v: nat) {
    if b == [] then 0 else b[0] + 256 * LEValue(b[1..])
  }

  /** The C# long with the low 64 bits of u. */
  function Signed64(u: nat): int {
    var w := u % 0x1_0000_0000_0000_0000;
    if w < 0x8000_0000_0000_0000 then w else w - 0x1_0000_0000_0000_0000
  }

  /** Unary minus on a C# long, which leaves the smallest one as it is. */
  function Negate64(v: int): int {
    if v == -0x8000_0000_0000_0000 then v else -v
  }

  function ReadLong(bs: seq<Byte>): (r: Read<int>)
    ensures r.Ok? ==> |r.rest| < |bs|
  {
    var tag := ReadTag(bs);
    if tag.Fail? then Fail
    else if tag.value == SMALL_INT then
      var b := Read1(tag.rest);
      if b.Fail? then Fail else Ok(b.value as int, b.rest)
    else if tag.value == INT then Read4BE(tag.rest)
    else if tag.value == SMALL_BIG then
      var arity := Read1(tag.rest);
      if arity.Fail? then Fail else
      var sign := Read1(arity.rest);
      if sign.Fail? || arity.value > |sign.rest| || arity.value > 8 then Fail
      else
        var v := Signed64(LEValue(sign.rest[..arity.value]));
        Ok(if sign.value == 0 then v else Negate64(v), sign.rest[arity.value..])
    else Fail
  }

  /** A C# char; values in the surrogate range are not part of the model. */
  function ReadChar(bs: seq<Byte>): (r: Read<char>)
    ensures r.Ok? ==> |r.rest| < |bs|
  {
    var l := ReadLong(bs);
    if l.Fail? || !(0 <= l.value < 0xD800) then Fail else Ok(l.value as char, l.rest)
  }

  function ReadChars(n: int, bs: seq<Byte>): (r: Read<string>)
    ensures r.Ok? ==> |r.rest| <= |bs|
    decreases if n > 0 then n else 0
  {
    if n <= 0 then Ok("", bs)
    else
      var c := ReadChar(bs);
      if c.Fail? then Fail else
      var cs := ReadChars(n - 1, c.rest);
      if cs.Fail? then Fail else Ok([c.value] + cs.value, cs.rest)
  }

  function ReadNil(bs: seq<Byte>): (r: Read<()>)
    ensures r.Ok? ==> |r.rest| < |bs|
  {
    var tag := ReadTag(bs);
    if tag.Fail? || tag.value != NIL then Fail else Ok((), tag.rest)
  }

  /** read_string: a string, nil, or a list of character codes. A negative list length makes the
      allocation of the array throw. */
  function ReadString(bs: seq<Byte>): (r: Read<string>)
    ensures r.Ok? ==> |r.rest| < |bs|
  {
    var tag := ReadTag(bs);
    if tag.Fail? then Fail
    else if tag.value == STRING then
      var len := Read2BE(tag.rest);
      var b := ReadN(len.value, len.rest);
      Ok(ByteText(b.value), b.rest)
    else if tag.value == NIL then Ok("", tag.rest)
    else if tag.value == LIST then
      var len := Read4BE(tag.rest);
      if len.value < 0 then Fail else
      var cs := ReadChars(len.value, len.rest);
      if cs.Fail? then Fail else
      var nil := ReadNil(cs.rest);
      if nil.Fail? then Fail else Ok(cs.value, nil.rest)
    else Fail
  }

  function ReadPid(bs: seq<Byte>): (r: Read<Pid>)
    ensures r.Ok? ==> |r.rest| < |bs|
  {
    var tag := ReadTag(bs);
    if tag.Fail? || tag.value != PID then Fail else
    var node := ReadAtom(tag.rest);
    if node.Fail? then Fail else
    var id := Read4BE(node.rest);
    var serial := Read4BE(id.rest);
    var creation := Read1(serial.rest);
    if creation.Fail? then Fail
    else Ok(MakePid(node.value, id.value, serial.value, creation.value), creation.rest)
  }

  function ReadPort(bs: seq<Byte>): (r: Read<Port>)
    ensures r.Ok? ==> |r.rest| < |bs|
  {
    var tag := ReadTag(bs);
    if tag.Fail? || tag.value != PORT then Fail else
    var node := ReadAtom(tag.rest);
    if node.Fail? then Fail else
    var id := Read4BE(node.rest);
    var creation := Read1(id.rest);
    if creation.Fail? then Fail
    else Ok(MakePort(node.value, id.value, creation.value), creation.rest)
  }

  function ReadWords(n: nat, bs: seq<Byte>): (r: Read<seq<int>>)
    ensures r.Ok? && |r.value| == n && |r.rest| <= |bs|
  {
    if n == 0 then Ok([], bs)
    else
      var w := Read4BE(bs);
      var ws := ReadWords(n - 1, w.rest);
      Ok([w.value] + ws.value, ws.rest)
  }

  /** read_ref; with no words at all the access to the first one throws. */
  function ReadRef(bs: seq<Byte>): (r: Read<Ref>)
    ensures r.Ok? ==> |r.rest| < |bs|
  {
    var tag := ReadTag(bs);
    if tag.Fail? then Fail
    else if tag.value == REF then
      var node := ReadAtom(tag.rest);
      if node.Fail? then Fail else
      var id := Read4BE(node.rest);
      var creation := Read1(id.rest);
      if creation.Fail? then Fail
      else Ok(MakeOldRef(node.value, id.value, creation.value), creation.rest)
    else if tag.value == NEW_REF then
      var arity := Read2BE(tag.rest);
      var node := ReadAtom(arity.rest);
      if node.Fail? then Fail else
      var creation := Read1(node.rest);
      if creation.Fail? || arity.value == 0 then Fail else
      var ids := ReadWords(arity.value, creation.rest);
      Ok(MakeRef(node.value, ids.value, creation.value), ids.rest)
    else Fail
  }

  /** read_list_head for the tags that reach Erlang.List. */
  function ReadListHead(bs: seq<Byte>): (r: Read<int>)
    ensures r.Ok? ==> |r.rest| < |bs|
  {
    var tag := ReadTag(bs);
    if tag.Fail? then Fail
    else if tag.value == NIL then Ok(0, tag.rest)
    else if tag.value == STRING then Read2BE(tag.rest)
    else if tag.value == LIST then Read4BE(tag.rest)
    else Fail
  }

  function ReadTupleHead(bs: seq<Byte>): (r: Read<int>)
    ensures r.Ok? ==> |r.rest| < |bs|
  {
    var tag := ReadTag(bs);
    if tag.Fail? then Fail
    else if tag.value == SMALL_TUPLE then
      var arity := Read1(tag.rest);
      if arity.Fail? then Fail else Ok(arity.value as int, arity.rest)
    else if tag.value == LARGE_TUPLE then Read4BE(tag.rest)
    else Fail
  }

  /** read_binary; a negative length makes the allocation throw. */
  function ReadBinary(bs: seq<Byte>): (r: Read<seq<Byte>>)
    ensures r.Ok? ==> |r.rest| < |bs|
  {
    var tag := ReadTag(bs);
    if tag.Fail? || tag.value != BINARY then Fail else
    var len := Read4BE(tag.rest);
    if len.value < 0 then Fail else ReadN(len.value, len.rest)
  }

  /** Erlang.List(OtpInputStream): a negative arity counts as none. */
  function ReadList(bs: seq<Byte>): (r: Read<Term>)
    ensures r.Ok? ==> |r.rest| < |bs|
    decreases |bs|, 0
  {
    var arity := ReadListHead(bs);
    if arity.Fail? then Fail
    else if arity.value <= 0 then Ok(List([]), arity.rest)
    else
      var es := ReadMany(arity.value, arity.rest);
      if es.Fail? then Fail else
      var nil := ReadNil(es.rest);
      if nil.Fail? then Fail else Ok(List(es.value), nil.rest)
  }

  /** Erlang.Tuple(OtpInputStream): without elements the array stays null. */
  function ReadTuple(bs: seq<Byte>): (r: Read<Term>)
    ensures r.Ok? ==> |r.rest| < |bs|
    decreases |bs|, 0
  {
    var arity := ReadTupleHead(bs);
    if arity.Fail? then Fail
    else if arity.value <= 0 then Ok(NullTuple, arity.rest)
    else
      var es := ReadMany(arity.value, arity.rest);
      if es.Fail? then Fail else Ok(Tuple(es.value), es.rest)
  }

  /** read_any. Floats are not part of the model. */
  function ReadAny(bs: seq<Byte>): (r: Read<Term>)
    ensures r.Ok? ==> |r.rest| < |bs|
    decreases |bs|, 1
  {
    var at := if bs != [] && bs[0] == VERSION then bs[1..] else bs;
    if at == [] then Fail
    else
      var tag := at[0];
      if tag == SMALL_INT || tag == INT || tag == SMALL_BIG then
        var l := ReadLong(at);
        if l.Fail? then Fail else Ok(Long(l.value), l.rest)
      else if tag == ATOM then
        var a := ReadAtom(at);
        if a.Fail? then Fail
        else Ok(if a.value == "true" then Boolean(true)
                else if a.value == "false" then Boolean(false)
                else Atom(a.value), a.rest)
      else if tag == REF || tag == NEW_REF then
        var r := ReadRef(at);
        if r.Fail? then Fail else Ok(RefTerm(r.value), r.rest)
      else if tag == PORT then
        var p := ReadPort(at);
        if p.Fail? then Fail else Ok(PortTerm(p.value), p.rest)
      else if tag == PID then
        var p := ReadPid(at);
        if p.Fail? then Fail else Ok(PidTerm(p.value), p.rest)
      else if tag == STRING then
        var s := ReadString(at);
        if s.Fail? then Fail else Ok(Str(s.value), s.rest)
      else if tag == LIST || tag == NIL then
        ReadList(at)
      else if tag == SMALL_TUPLE || tag == LARGE_TUPLE then
        ReadTuple(at)
      else if tag == BINARY then
        var b := ReadBinary(at);
        if b.Fail? then Fail else Ok(Binary(b.value), b.rest)
      else Fail
  }

  /** The loop of the List and Tuple constructors. */
  function ReadMany(n: nat, bs: seq<Byte>): (r: Read<seq<Term>>)
    ensures r.Ok? ==> |r.rest| <= |bs| && |r.value| == n
    decreases |bs|, 2
  {
    if n == 0 then Ok([], bs)
    else
      var e := ReadAny(bs);
      if e.Fail? then Fail else
      var es := ReadMany(n - 1, e.rest);
      if es.Fail? then Fail else Ok([e.value] + es.value, es.rest)
  }
}
