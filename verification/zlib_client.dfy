/** The other side of the port: the functions of zlib.erl, the commands they send, and what the
    driver makes of these. */
module ZLibClient {
  import opened Bytes
  import opened IoVectors
  import opened ZLibCodec
  import opened ZLibDriver
  import Erlang
  import ExternalFormat
  import ExternalRoundTrip

  /** The calls of zlib.erl. */
  datatype Action =
    | SetUp(r: Request)
    | Params(level: int, strategy: int)
    | Deflate(flush: int)
    | Inflate(flush: int)
    | Sync
    | Crc
    | CrcOf(data: seq<Byte>)
    | CrcFrom(start: int, data: seq<Byte>)
    | SetBufsz(size: int)
    | GetBufsz
    | GetQSize

  /** <<N:32>> */
  function Int32(n: int): (b: seq<Byte>)
    ensures |b| == 4
  {
    ExternalFormat.BE4(n)
  }

  /** The command and its argument. */
  function Port(c: Action): (int, seq<Byte>) {
    match c
    case SetUp(r) => SetUpPort(r)
    case Params(level, strategy) => (6, Int32(level) + Int32(strategy))
    case Deflate(flush) => (7, Int32(flush))
    case Sync => (11, [])
    case Inflate(flush) => (14, Int32(flush))
    case Crc => (15, [])
    case CrcOf(data) => (16, data)
    case CrcFrom(start, data) => (17, Int32(start) + data)
    case SetBufsz(size) => (18, Int32(size))
    case GetBufsz => (19, [])
    case GetQSize => (20, [])
  }

  function SetUpPort(r: Request): (int, seq<Byte>) {
    match r
    case DeflateInit(level) => (1, Int32(level))
    case DeflateInit2(level, method_, wbits, memLevel, strategy) =>
      (2, Int32(level) + Int32(method_) + Int32(wbits) + Int32(memLevel) + Int32(strategy))
    case DeflateDictionary(dict) => (3, dict)
    case DeflateReset => (4, [])
    case DeflateEnd => (5, [])
    case InflateInit => (8, [])
    case InflateInit2(wbits) => (9, Int32(wbits))
    case InflateDictionary(dict) => (10, dict)
    case InflateReset => (12, [])
    case InflateEnd => (13, [])
  }

  /** What arrives of a number. */
  function Narrow(r: Request): Request {
    match r
    case DeflateInit(level) => DeflateInit(Signed32(level))
    case DeflateInit2(level, method_, wbits, memLevel, strategy) =>
      DeflateInit2(Signed32(level), Signed32(method_), Signed32(wbits), Signed32(memLevel), Signed32(strategy))
    case InflateInit2(wbits) => InflateInit2(Signed32(wbits))
    case _ => r
  }

  /** When the driver takes a call. */
  predicate Fits(c: Action, mode: Mode) {
    match c
    case SetUp(r) =>
      (match r
       case DeflateInit(_) => mode == Idle
       case DeflateInit2(_, _, _, _, _) => mode == Idle
       case InflateInit => mode == Idle
       case InflateInit2(_) => mode == Idle
       case DeflateDictionary(_) => mode == Deflating
       case DeflateReset => mode == Deflating
       case DeflateEnd => mode == Deflating
       case InflateDictionary(_) => mode == Inflating
       case InflateReset => mode == Inflating
       case InflateEnd => mode == Inflating)
    case Params(_, _) => mode == Deflating
    case Deflate(_) => mode == Deflating
    case Sync => mode == Inflating
    case Inflate(_) => mode == Inflating
    case SetBufsz(size) => 16 <= Signed32(size) <= 0xff_ffff
    case _ => true
  }

  /** A number is read as it was written, in four bytes. */
  lemma NumberArrives(a: seq<Byte>, n: int, b: seq<Byte>)
    ensures |a| + 4 <= |a + Int32(n) + b| && I32(a + Int32(n) + b, |a|) == Signed32(n)
  {
    ExternalRoundTrip.BE4RoundTrip(n, []);
    hide Signed32, ExternalFormat.BE4;
    var s := a + Int32(n) + b;
    assert Int32(n) + [] == Int32(n);
    assert s[|a|] == Int32(n)[0] && s[|a| + 1] == Int32(n)[1] && s[|a| + 2] == Int32(n)[2] && s[|a| + 3] == Int32(n)[3];
  }

  /** The driver takes a call exactly in the modes that zlib has it for. */
  lemma TakenIff(c: Action, mode: Mode)
    ensures Accepts(Port(c).0, Port(c).1, mode) <==> Fits(c, mode)
  {
    if c.SetBufsz? {
      NumberArrives([], c.size, []);
      assert [] + Int32(c.size) + [] == Int32(c.size);
    }
    hide I32, Signed32, Int32;
  }

  /** The commands for the compressor and the decompressor, and those for both. */
  lemma InGroup(c: Action, mode: Mode)
    requires Accepts(Port(c).0, Port(c).1, mode)
    ensures c.SetUp? || c.Params? || c.Deflate? || c.Inflate? || c.Sync? ==>
      AcceptsDeflate(Port(c).0, Port(c).1, mode) || AcceptsInflate(Port(c).0, Port(c).1, mode)
    ensures c.Crc? || c.CrcOf? || c.CrcFrom? || c.SetBufsz? || c.GetBufsz? || c.GetQSize? ==> AcceptsAlways(Port(c).0, Port(c).1)
  {
    hide Arg, Int32;
  }

  lemma RequestArrives(q: Request)
    ensures RequestOf(Port(SetUp(q)).0, Port(SetUp(q)).1) == Erlang.Some(Narrow(q))
  {
    Arrived(SetUp(q));
    hide I32, Signed32, Int32;
  }

  lemma StartArrives(q: Request, code: int, mode: Mode)
    ensures var (command, b) := Port(SetUp(q));
            && ModeAfter(command, code, mode) == ModeOf(q, code, mode)
            && (Fits(SetUp(q), mode) && Begins(q) ==> Restarts(command, b, mode, Code(0)) && (Raw(command, b) <==> Bits(q) < 0))
  {
    Arrived(SetUp(q));
    TakenIff(SetUp(q), mode);
    hide I32, Signed32, Int32;
  }

  lemma TwoNumbers(m: int, n: int)
    ensures var b := Int32(m) + Int32(n); |b| == 8 && I32(b, 0) == Signed32(m) && I32(b, 4) == Signed32(n)
  {
    var b := Int32(m) + Int32(n);
    NumberArrives([], m, Int32(n));
    NumberArrives(Int32(m), n, []);
    assert [] + Int32(m) + Int32(n) == b && Int32(m) + Int32(n) + [] == b;
  }

  lemma OneNumber(n: int, data: seq<Byte>)
    ensures |Int32(n) + data| >= 4 && I32(Int32(n) + data, 0) == Signed32(n) && (Int32(n) + data)[4..] == data
    ensures Arg(Int32(n)) == Signed32(n)
  {
    NumberArrives([], n, data);
    NumberArrives([], n, []);
    hide I32, Signed32, Int32;
    assert [] + Int32(n) + data == Int32(n) + data && [] + Int32(n) + [] == Int32(n);
  }

  lemma FiveNumbers(a: int, b: int, c: int, d: int, e: int)
    ensures var s := Int32(a) + Int32(b) + Int32(c) + Int32(d) + Int32(e);
            && |s| == 20 && I32(s, 0) == Signed32(a) && I32(s, 4) == Signed32(b) && I32(s, 8) == Signed32(c)
            && I32(s, 12) == Signed32(d) && I32(s, 16) == Signed32(e)
  {
    var s := Int32(a) + Int32(b) + Int32(c) + Int32(d) + Int32(e);
    var s1, s2, s3, s4 := Int32(a), Int32(a) + Int32(b), Int32(a) + Int32(b) + Int32(c), Int32(a) + Int32(b) + Int32(c) + Int32(d);
    NumberArrives([], a, s[4..]);
    NumberArrives(s1, b, s[8..]);
    NumberArrives(s2, c, s[12..]);
    NumberArrives(s3, d, s[16..]);
    NumberArrives(s4, e, []);
    assert [] + Int32(a) + s[4..] == s && s1 + Int32(b) + s[8..] == s && s2 + Int32(c) + s[12..] == s;
    assert s3 + Int32(d) + s[16..] == s && s4 + Int32(e) + [] == s;
  }

  predicate Begins(q: Request) {
    q.DeflateInit? || q.DeflateInit2? || q.InflateInit? || q.InflateInit2?
  }

  /** The window bits of an init; they are negative for a raw stream. */
  function Bits(q: Request): int {
    match q
    case DeflateInit2(_, _, wbits, _, _) => Signed32(wbits)
    case InflateInit2(wbits) => Signed32(wbits)
    case _ => 15
  }

  /** A port compresses or expands from a successful init to the end. */
  function ModeOf(q: Request, code: int, mode: Mode): Mode {
    match q
    case DeflateInit(_) => if code == 0 then Deflating else mode
    case DeflateInit2(_, _, _, _, _) => if code == 0 then Deflating else mode
    case InflateInit => if code == 0 then Inflating else mode
    case InflateInit2(_) => if code == 0 then Inflating else mode
    case DeflateEnd => Idle
    case InflateEnd => Idle
    case _ => mode
  }

  /** What the driver has done after a command, in terms of the call: the codec was called with the
      numbers of the call. */
  twostate predicate Done(d: ZLibData, c: Action, r: Reply)
    reads d, d.bin
  {
    match c
    case SetUp(q) =>
      && r.Code? && d.Did(Narrow(q), r.code)
      && d.mode == ModeOf(q, r.code, old(d.mode))
      && (r.code == 0 && Begins(q) ==> d.crc == 0 && d.wantCrc == (Bits(q) < 0))
    case Params(level, strategy) =>
      var o := old(d.ParamsOut(Signed32(level), Signed32(strategy)));
      d.stream == o.stream && r == Code(o.code)
    case Deflate(flush) => r.Code? && d.Ran(Signed32(flush), r.code)
    case Inflate(flush) => r.Code? && d.Ran(Signed32(flush), r.code)
    case Sync => var o := d.codec.sync(old(d.stream), old(d.nextIn)); d.stream == o.stream && r == Code(o.code)
    case Crc => r == Value(ZLibCodec.Crc(d.codec, 0, d.summed) % 0x1_0000_0000)
    case CrcOf(data) => r == Value(ZLibCodec.Crc(d.codec, 0, data) % 0x1_0000_0000)
    case CrcFrom(start, data) => r == Value(ZLibCodec.Crc(d.codec, Signed32(start), data) % 0x1_0000_0000)
    case SetBufsz(size) => r == Code(0) && d.binszNeed == Signed32(size)
    case GetBufsz => r == Value(d.binszNeed)
    case GetQSize => r == Value((|d.arrived| - |d.taken|) % 0x1_0000_0000)
  }

  /** A call of zlib.erl. */
  method Perform(d: ZLibData, c: Action) returns (r: Reply)
    requires d.Valid()
    modifies d, d.bin
    ensures d.Valid() && (d.bin == old(d.bin) || d.bin == null || fresh(d.bin))
    ensures if Fits(c, old(d.mode)) then Done(d, c, r) else r == Code(-1) && d.Untouched()
  {
    hide d.Valid, Done, d.Untouched, Fits;
    if c.SetUp? {
      r := PerformSetUp(d, c.r);
    } else if c.SetBufsz? {
      r := PerformSetBufsz(d, c.size);
    } else {
      r := PerformOther(d, c);
    }
  }

  /** port_control, as far as the replies go. */
  method Control(d: ZLibData, command: int, buf: seq<Byte>) returns (r: Reply)
    requires d.Valid()
    modifies d, d.bin
    ensures d.Valid() && (d.bin == old(d.bin) || d.bin == null || fresh(d.bin))
    ensures !Accepts(command, buf, old(d.mode)) ==> r == Code(-1) && d.Untouched()
    ensures Accepts(command, buf, old(d.mode)) && r.Code? ==> d.mode == ModeAfter(command, r.code, old(d.mode))
    ensures Restarts(command, buf, old(d.mode), r) ==> d.crc == 0 && d.wantCrc == Raw(command, buf)
    ensures AcceptsDeflate(command, buf, old(d.mode)) || AcceptsInflate(command, buf, old(d.mode)) ==>
      r.Code? && d.Answers(command, buf, r.code)
    ensures Accepts(command, buf, old(d.mode)) && command in {7, 14} ==> r.Code? && d.Ran(Arg(buf), r.code)
    ensures AcceptsAlways(command, buf) ==> d.Reported(command, buf, r)
  {
    hide d.Valid, I32, Arg, d.Ran, d.Answers, d.Grows, d.Counted, d.Roomy, d.Untouched, d.Quiet, d.Reported;
    hide d.Tallied, d.Covers, d.Conserved, d.Spill, d.Unsent, Resizes, Restarts, ModeAfter, Raw, StartsStream, DropsQueue;
    hide Accepts, AcceptsAlways, AcceptsDeflate, AcceptsInflate;
    r := d.Ctl(command, buf);
  }

  method PerformSetUp(d: ZLibData, q: Request) returns (r: Reply)
    requires d.Valid()
    modifies d, d.bin
    ensures d.Valid() && (d.bin == old(d.bin) || d.bin == null || fresh(d.bin))
    ensures if Fits(SetUp(q), old(d.mode)) then Done(d, SetUp(q), r) else r == Code(-1) && d.Untouched()
  {
    TakenIff(SetUp(q), d.mode);
    RequestArrives(q);
    var p := Port(SetUp(q));
    if Fits(SetUp(q), d.mode) {
      InGroup(SetUp(q), d.mode);
    }
    ghost var mode := d.mode;
    hide Fits, Accepts, AcceptsDeflate, AcceptsInflate, AcceptsAlways, RequestOf, Port, Narrow, Begins, Bits, ModeOf, Restarts, ModeAfter, Raw;
    hide d.Valid, I32, Signed32, Int32, Arg, d.Ran, d.Did, d.Untouched, d.Reported;
    r := Control(d, p.0, p.1);
    if r.Code? {
      StartArrives(q, r.code, mode);
    }
  }

  method PerformSetBufsz(d: ZLibData, size: int) returns (r: Reply)
    requires d.Valid()
    modifies d, d.bin
    ensures d.Valid() && (d.bin == old(d.bin) || d.bin == null || fresh(d.bin))
    ensures if Fits(SetBufsz(size), old(d.mode)) then Done(d, SetBufsz(size), r) else r == Code(-1) && d.Untouched()
  {
    TakenIff(SetBufsz(size), d.mode);
    Arrived(SetBufsz(size));
    var p := Port(SetBufsz(size));
    hide d.Valid, I32, Signed32, Int32, Arg, d.Ran, d.Did, d.Grows, d.Begins, d.Roomy, d.Untouched, d.Quiet, d.Frees;
    hide d.Tallied, d.Covers, d.Conserved, d.Spill, d.Unsent, ModeAfter, Raw;
    r := d.Ctl(p.0, p.1);
  }

  method PerformOther(d: ZLibData, c: Action) returns (r: Reply)
    requires d.Valid() && !c.SetUp? && !c.SetBufsz?
    modifies d, d.bin
    ensures d.Valid() && (d.bin == old(d.bin) || d.bin == null || fresh(d.bin))
    ensures if Fits(c, old(d.mode)) then Done(d, c, r) else r == Code(-1) && d.Untouched()
  {
    TakenIff(c, d.mode);
    Arrived(c);
    var p := Port(c);
    if Fits(c, d.mode) {
      InGroup(c, d.mode);
    }
    hide Fits, Accepts, AcceptsDeflate, AcceptsInflate, AcceptsAlways;
    hide d.Valid, I32, Signed32, Int32, Arg, d.Ran, d.Did, d.Untouched;
    r := Control(d, p.0, p.1);
  }

  /** The numbers of a call in the argument of its command. */
  lemma Arrived(c: Action)
    ensures var b := Port(c).1;
            match c
            case SetUp(DeflateInit(level)) => I32(b, 0) == Signed32(level)
            case SetUp(DeflateInit2(l, m, w, e, t)) =>
              I32(b, 0) == Signed32(l) && I32(b, 4) == Signed32(m) && I32(b, 8) == Signed32(w)
              && I32(b, 12) == Signed32(e) && I32(b, 16) == Signed32(t)
            case SetUp(InflateInit2(wbits)) => I32(b, 0) == Signed32(wbits)
            case Params(level, strategy) => I32(b, 0) == Signed32(level) && I32(b, 4) == Signed32(strategy)
            case Deflate(flush) => Arg(b) == Signed32(flush)
            case Inflate(flush) => Arg(b) == Signed32(flush)
            case CrcFrom(start, data) => I32(b, 0) == Signed32(start) && b[4..] == data
            case SetBufsz(size) => Arg(b) == Signed32(size)
            case _ => true
  {
    match c
    case SetUp(DeflateInit(level)) => Single(level);
    case SetUp(DeflateInit2(l, m, w, e, t)) => FiveNumbers(l, m, w, e, t);
    case SetUp(InflateInit2(wbits)) => Single(wbits);
    case Params(level, strategy) => TwoNumbers(level, strategy);
    case Deflate(flush) => Single(flush);
    case Inflate(flush) => Single(flush);
    case CrcFrom(start, data) => OneNumber(start, data);
    case SetBufsz(size) => Single(size);
    case _ =>
  }

  lemma Single(n: int)
    ensures I32(Int32(n), 0) == Arg(Int32(n)) == Signed32(n)
  {
    OneNumber(n, []);
    assert Int32(n) + [] == Int32(n);
  }
}
