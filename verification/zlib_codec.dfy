/** What the zlib port driver (zlib_drv.c) needs of zlib: a contract of its codec and checksum, and
    the bookkeeping of messages and checksums on values. */
module ZLibCodec {
  import opened Bytes

  const Z_OK := 0
  const Z_STREAM_END := 1
  const Z_ERRNO := -1
  const Z_NO_FLUSH := 0
  const Z_FINISH := 4

  const SMALL_ROOM := 6
  const DEFAULT_BUFSZ := 4000
  const MIN_BUFSZ := 16
  const MAX_BUFSZ := 0xff_ffff

  datatype Mode = Idle | Deflating | Inflating

  /** zlib's internal state, by number. */
  type Stream = int

  /** What one call of the codec did: the input bytes it took, the bytes it wrote, its code. */
  datatype Out = Out(stream: Stream, consumed: nat, output: seq<Byte>, code: int)

  /** The calls that set up and tear down a stream. */
  datatype Request =
    | DeflateInit(level: int)
    | DeflateInit2(level2: int, method_: int, wbits: int, memLevel: int, strategy: int)
    | DeflateDictionary(dict: seq<Byte>)
    | DeflateReset
    | DeflateEnd
    | InflateInit
    | InflateInit2(wbits: int)
    | InflateDictionary(dict: seq<Byte>)
    | InflateReset
    | InflateEnd

  /** zlib: step is inflate or deflate on the input, the room for output and the flush mode.
      The last three appear only in the contract: a bound on the output that needs no further input,
      the streams that have reached their end, and what a stream may have taken and written since
      it was set up (for a decompressor, that the one is a compression of the other). */
  datatype Codec = Codec(
    step: (Mode, Stream, seq<Byte>, nat, int) -> Out,
    params: (Stream, int, int, seq<Byte>, nat) -> Out,
    sync: (Stream, seq<Byte>) -> Out,
    control: (Stream, Request) -> (Stream, int),
    crc32: (int, seq<Byte>) -> int,
    pending: (Stream, int) -> nat,
    ended: Stream -> bool,
    history: (Stream, seq<Byte>, seq<Byte>) -> bool)

  function Step(c: Codec, m: Mode, s: Stream, input: seq<Byte>, room: nat, flush: int): Out {
    c.step(m, s, input, room, flush)
  }

  function Setup(c: Codec, s: Stream, r: Request): (Stream, int) {
    c.control(s, r)
  }

  function Crc(c: Codec, crc: int, b: seq<Byte>): int {
    c.crc32(crc, b)
  }

  function Pending(c: Codec, s: Stream, flush: int): nat {
    c.pending(s, flush)
  }

  function Ended(c: Codec, s: Stream): bool {
    c.ended(s)
  }

  predicate History(c: Codec, s: Stream, taken: seq<Byte>, made: seq<Byte>) {
    c.history(s, taken, made)
  }

  /** One step takes a prefix of the input and fits the room; with input it makes progress, ends
      or fails; what it writes without taking input was pending, where flush markers may repeat in
      at most SMALL_ROOM bytes; a compressor told to finish does so unless its output fills the
      room; after the end it does nothing. */
  ghost predicate StepOk(c: Codec, m: Mode, s: Stream, input: seq<Byte>, room: nat, flush: int) {
    var o := Step(c, m, s, input, room, flush);
    && o.consumed <= |input| && |o.output| <= room && o.code <= Z_STREAM_END
    && (o.code == Z_OK && input != [] ==> o.consumed > 0 || o.output != [])
    && (o.code >= 0 && o.consumed == 0 && (flush == Z_NO_FLUSH || room > SMALL_ROOM) ==>
        Pending(c, o.stream, flush) + |o.output| <= Pending(c, s, flush))
    && (m == Deflating && flush == Z_FINISH && o.code == Z_OK ==> |o.output| == room)
    && (o.code == Z_STREAM_END ==> Ended(c, o.stream))
    && (Ended(c, s) ==> o.consumed == 0 && o.output == [] && o.code != Z_OK && Ended(c, o.stream))
  }

  /** What a call takes and writes continues the history of the stream. */
  ghost predicate Continues(c: Codec, s: Stream, input: seq<Byte>, o: Out, e: seq<Byte>, w: seq<Byte>) {
    o.consumed <= |input| && History(c, s, e, w) ==> History(c, o.stream, e + input[..o.consumed], w + o.output)
  }

  /** The calls that start a stream with an empty history. */
  predicate Starts(r: Request) {
    !r.DeflateDictionary? && !r.InflateDictionary? && !r.DeflateEnd? && !r.InflateEnd?
  }

  /** A successful init or reset starts a history, a dictionary leaves it alone. */
  ghost predicate ControlOk(c: Codec, s: Stream, r: Request, e: seq<Byte>, w: seq<Byte>) {
    var p := Setup(c, s, r);
    && (Starts(r) && p.1 == Z_OK ==> History(c, p.0, [], []))
    && ((r.DeflateDictionary? || r.InflateDictionary?) && History(c, s, e, w) ==> History(c, p.0, e, w))
  }

  /** A codec that does not fail in one of its modes as long as it has room for output. */
  ghost predicate NeverFails(c: Codec, m: Mode) {
    forall s, i, r: nat, f :: r > 0 ==> Step(c, m, s, i, r, f).code >= 0
  }

  /** A codec that can always be set up. */
  ghost predicate SetsUp(c: Codec) {
    forall s, r :: Setup(c, s, r).1 == Z_OK
  }

  /** A codec that writes nothing until it is told to flush. */
  ghost predicate Silent(c: Codec) {
    forall m, s, i, r: nat :: Step(c, m, s, i, r, Z_NO_FLUSH).output == []
  }

  ghost predicate Lawful(c: Codec) {
    && (forall m, s, i, r: nat, f :: StepOk(c, m, s, i, r, f))
    && (forall s, l, t, i, r: nat :: c.params(s, l, t, i, r).consumed <= |i| && |c.params(s, l, t, i, r).output| <= r)
    && (forall s, i :: c.sync(s, i).consumed <= |i| && c.sync(s, i).output == [])
    && (forall m, s, i, r: nat, f, e, w :: Continues(c, s, i, Step(c, m, s, i, r, f), e, w))
    && (forall s, l, t, i, r: nat, e, w :: Continues(c, s, i, c.params(s, l, t, i, r), e, w))
    && (forall s, r, e, w :: ControlOk(c, s, r, e, w))
    && (forall x :: Crc(c, x, []) == x)
    && (forall x, a, b :: Crc(c, x, a + b) == Crc(c, Crc(c, x, a), b))
  }

  lemma LawfulStep(c: Codec, m: Mode, s: Stream, input: seq<Byte>, room: nat, flush: int)
    requires Lawful(c)
    ensures StepOk(c, m, s, input, room, flush)
  {
  }

  lemma LawfulHistory(c: Codec, m: Mode, s: Stream, input: seq<Byte>, room: nat, flush: int, e: seq<Byte>, w: seq<Byte>)
    requires Lawful(c)
    ensures Continues(c, s, input, Step(c, m, s, input, room, flush), e, w)
  {
  }

  lemma LawfulControl(c: Codec, s: Stream, r: Request, e: seq<Byte>, w: seq<Byte>)
    requires Lawful(c)
    ensures ControlOk(c, s, r, e, w)
  {
  }

  lemma MoveAcross(a: seq<Byte>, b: seq<Byte>, n: nat)
    requires n <= |b|
    ensures (a + b[..n]) + b[n..] == a + b
  {
  }

  lemma MoreSum(a: seq<Byte>, b: seq<Byte>, c: seq<Byte>)
    ensures a + (b + c) == a + b + c
  {
  }

  lemma MovedAcross(a: seq<Byte>, b: seq<Byte>, a': seq<Byte>, b': seq<Byte>)
    requires a' + b' == a + b && |b'| <= |b|
    ensures a' == a + b[..|b| - |b'|]
    ensures b' == b[|b| - |b'|..]
  {
    assert a' == (a + b)[..|a'|];
    assert b' == (a + b)[|a'|..];
  }

  lemma StepFits(c: Codec, m: Mode, s: Stream, input: seq<Byte>, room: nat, flush: int)
    requires StepOk(c, m, s, input, room, flush)
    ensures Step(c, m, s, input, room, flush).consumed <= |input|
    ensures |Step(c, m, s, input, room, flush).output| <= room
  {
  }

  lemma LawfulSum(c: Codec, x: int, a: seq<Byte>, b: seq<Byte>)
    requires Lawful(c)
    ensures Crc(c, x, a + b) == Crc(c, Crc(c, x, a), b)
  {
  }

  lemma LawfulParams(c: Codec, s: Stream, l: int, t: int, i: seq<Byte>, r: nat, e: seq<Byte>, w: seq<Byte>)
    requires Lawful(c)
    ensures c.params(s, l, t, i, r).consumed <= |i| && |c.params(s, l, t, i, r).output| <= r
    ensures Continues(c, s, i, c.params(s, l, t, i, r), e, w)
  {
  }

  lemma LawfulSync(c: Codec, s: Stream, i: seq<Byte>)
    requires Lawful(c)
    ensures c.sync(s, i).consumed <= |i| && c.sync(s, i).output == []
  {
  }

  /** One message to the port's owner, and the size of the binary it was cut from. */
  datatype Chunk = Chunk(bytes: seq<Byte>, size: nat)

  function Sent(cs: seq<Chunk>): seq<Byte> {
    if cs == [] then [] else Sent(cs[..|cs| - 1]) + cs[|cs| - 1].bytes
  }

  /** The messages that did not fill their binary. */
  function Partial(cs: seq<Chunk>): nat {
    if cs == [] then 0
    else
      var c := cs[|cs| - 1];
      Partial(cs[..|cs| - 1]) + if |c.bytes| < c.size then 1 else 0
  }

  /** Full messages carry at least the smallest buffer size each. */
  lemma {:induction false} FullChunks(cs: seq<Chunk>)
    requires AllFit(cs) && Partial(cs) == 0
    ensures |Sent(cs)| >= MIN_BUFSZ * |cs|
  {
    if cs != [] {
      assert cs[|cs| - 1] in cs;
      FullChunks(cs[..|cs| - 1]);
    }
  }

  lemma SentMore(cs: seq<Chunk>, c: Chunk)
    ensures Sent(cs + [c]) == Sent(cs) + c.bytes
    ensures Partial(cs + [c]) == Partial(cs) + if |c.bytes| < c.size then 1 else 0
  {
    assert (cs + [c])[..|cs|] == cs;
  }

  /** Every message has at least one byte and at most what its binary could hold. */
  predicate AllFit(cs: seq<Chunk>) {
    forall c :: c in cs ==> 1 <= |c.bytes| <= c.size && MIN_BUFSZ <= c.size <= MAX_BUFSZ
  }

  lemma AllFitMore(cs: seq<Chunk>, c: Chunk)
    requires AllFit(cs) && AllFit([c])
    ensures AllFit(cs + [c])
  {
  }

  lemma OneFits(c: Chunk)
    requires 1 <= |c.bytes| <= c.size && MIN_BUFSZ <= c.size <= MAX_BUFSZ
    ensures AllFit([c])
  {
  }

  /** The mode of the last init, and the numbers of bytes sent, kept and lost before it. */
  datatype Begun = Begun(kind: Mode, sent: nat, kept: nat, lost: nat)

  /** The bytes written are those kept and those lost; nothing is lost while expanding. */
  ghost predicate Keeps(b: Begun, written: seq<Byte>, kept: seq<Byte>, lost: nat) {
    && |written| == |kept| + lost && (lost == 0 ==> written == kept)
    && b.kept <= |kept| && b.lost <= lost && (b.kind == Inflating ==> lost == b.lost)
    && (lost == b.lost ==> written[b.kept + b.lost..] == kept[b.kept..])
  }

  lemma KeepsStored(b: Begun, written: seq<Byte>, kept: seq<Byte>, lost: nat, u: seq<Byte>)
    requires Keeps(b, written, kept, lost)
    ensures Keeps(b, written + u, kept + u, lost)
  {
    DropOfSum(written, u, b.kept + b.lost);
    DropOfSum(kept, u, b.kept);
  }

  lemma KeepsBegun(b: Begun, written: seq<Byte>, kept: seq<Byte>, lost: nat, m: Mode, sent: nat)
    requires Keeps(b, written, kept, lost)
    ensures Keeps(Begun(m, sent, |kept|, lost), written, kept, lost)
  {
    assert written[|kept| + lost..] == [] == kept[|kept|..];
  }

  lemma KeepsLost(b: Begun, written: seq<Byte>, kept: seq<Byte>, lost: nat, u: seq<Byte>)
    requires Keeps(b, written, kept, lost) && (u == [] || b.kind != Inflating)
    ensures Keeps(b, written + u, kept, lost + |u|)
  {
    if u == [] {
      assert written + u == written;
    }
  }

  /** Where the history of the stream starts in eaten and written, unless it is unknown. */
  datatype Origin = Lost | Since(eaten: nat, written: nat)

  /** Where a history starts after a set-up call. */
  function OriginAfter(r: Request, code: int, o: Origin, eaten: nat, written: nat): Origin {
    if r.DeflateDictionary? || r.InflateDictionary? then o
    else if Starts(r) && code == Z_OK then Since(eaten, written)
    else Lost
  }

  /** The bytes taken and made since the origin are a history of the stream. */
  predicate Past(c: Codec, s: Stream, o: Origin, e: seq<Byte>, w: seq<Byte>) {
    o.Since? ==> o.eaten <= |e| && o.written <= |w| && History(c, s, e[o.eaten..], w[o.written..])
  }

  /** The summed bytes against the traffic: they are the bytes taken when compressing, and the
      bytes sent since the last init, less those skipped, when expanding. */
  ghost predicate Tracks(b: Begun, want: bool, summed: seq<Byte>, skipped: nat, taken: seq<Byte>, sent: seq<Byte>) {
    && b.sent <= |sent| && b.sent <= b.kept
    && (want && b.kind == Deflating ==> summed == taken)
    && (want && b.kind == Inflating ==>
        |sent| == b.sent + |summed| + skipped && (skipped == 0 ==> summed == sent[b.sent..]))
  }

  lemma TracksSent(b: Begun, want: bool, summed: seq<Byte>, skipped: nat, taken: seq<Byte>, sent: seq<Byte>, u: seq<Byte>)
    requires Tracks(b, want, summed, skipped, taken, sent)
    ensures Tracks(b, want, if want && b.kind == Inflating then summed + u else summed, skipped, taken, sent + u)
    ensures Tracks(b, want, summed, skipped + |u|, taken, sent + u)
  {
    DropOfSum(sent, u, b.sent);
  }

  lemma TracksTaken(b: Begun, want: bool, summed: seq<Byte>, skipped: nat, taken: seq<Byte>, sent: seq<Byte>, u: seq<Byte>)
    requires Tracks(b, want, summed, skipped, taken, sent)
    ensures Tracks(b, want, if want && b.kind == Deflating then summed + u else summed, skipped, taken + u, sent)
  {
  }

  lemma DropOfSum(a: seq<Byte>, b: seq<Byte>, n: nat)
    requires n <= |a|
    ensures (a + b)[n..] == a[n..] + b
  {
  }

  /** What a call of the codec was told: inflate or deflate, and the flush mode. */
  datatype Order = Order(mode: Mode, flush: int)

  /** The calls b are the calls a and more that were told m and flush. */
  ghost predicate Asks(a: seq<Order>, b: seq<Order>, m: Mode, flush: int) {
    a <= b && forall i :: |a| <= i < |b| ==> b[i] == Order(m, flush)
  }

  lemma AsksOnce(a: seq<Order>, b: seq<Order>, m: Mode, flush: int)
    requires Asks(a, b, m, flush)
    ensures Asks(a, b + [Order(m, flush)], m, flush)
  {
  }

  lemma AsksMore(a: seq<Order>, b: seq<Order>, c: seq<Order>, m: Mode, flush: int)
    requires Asks(a, b, m, flush) && Asks(b, c, m, flush)
    ensures Asks(a, c, m, flush)
  {
  }

  lemma AsksNothing(a: seq<Order>, m: Mode, flush: int)
    ensures Asks(a, a, m, flush)
  {
  }

  /** What DEFLATE and INFLATE tell the codec: nothing but to go on while they feed it, and then
      the flush mode of the command; a flush that does not fail has told it at least once. */
  ghost predicate Told(a: seq<Order>, c: seq<Order>, m: Mode, flush: int, res: int) {
    exists b :: Asks(a, b, m, Z_NO_FLUSH) && Asks(b, c, m, flush) && (res >= 0 && flush != Z_NO_FLUSH ==> |b| < |c|)
  }

  lemma ToldBy(a: seq<Order>, b: seq<Order>, c: seq<Order>, m: Mode, flush: int, res: int)
    requires Asks(a, b, m, Z_NO_FLUSH) && Asks(b, c, m, flush) && (res >= 0 && flush != Z_NO_FLUSH ==> |b| < |c|)
    ensures Told(a, c, m, flush, res)
  {
  }

  /** A codec that stores its input unchanged, and as a compressor cannot finish. */
  function StoreStep(m: Mode, s: Stream, input: seq<Byte>, room: nat, flush: int): Out {
    if (input != [] && room == 0) || (m == Deflating && flush == Z_FINISH) then Out(s, 0, [], -5)
    else
      var n := if |input| < room then |input| else room;
      Out(s, n, input[..n], Z_OK)
  }

  function StoringCodec(): Codec {
    Codec((m, s, i, r: nat, f) => StoreStep(m, s, i, r, f),
          (s, l, t, i, r) => Out(s, 0, [], Z_OK),
          (s, i) => Out(s, 0, [], -3),
          (s, r) => (s, Z_OK),
          (x, b: seq<Byte>) => x + |b|,
          (s, f) => 0,
          s => false,
          (s, e: seq<Byte>, w: seq<Byte>) => e == w)
  }

  lemma StoringCodecIsLawful()
    ensures Lawful(StoringCodec()) && NeverFails(StoringCodec(), Inflating) && SetsUp(StoringCodec())
  {
  }

  /** A codec that takes its input and writes as many zeros for it, but not before it is told to
      flush or given new parameters: as deflate does with input too short for a block. To finish it
      writes one more. A negative stream has ended. */
  function HoldingStep(s: Stream, input: seq<Byte>, room: nat, flush: int): Out {
    var held := s + |input|;
    if s < 0 then Out(s, 0, [], Z_STREAM_END)
    else if flush == Z_NO_FLUSH then Out(held, |input|, [], Z_OK)
    else if flush == Z_FINISH && held < room then Out(-1, |input|, Zeros(held + 1), Z_STREAM_END)
    else
      var n := if held < room then held else room;
      Out(held - n, |input|, Zeros(n), Z_OK)
  }

  function Zeros(n: nat): (z: seq<Byte>)
    ensures |z| == n
  {
    seq(n, i => 0)
  }

  function Release(s: Stream, room: nat): Out {
    var n := if s < 0 then 0 else if s < room then s else room;
    Out(s - n, 0, Zeros(n), Z_OK)
  }

  function HoldingCodec(): Codec {
    Codec((m, s, i, r: nat, f) => HoldingStep(s, i, r, f),
          (s, l, t, i, r: nat) => Release(s, r),
          (s, i) => Out(s, 0, [], -3),
          (s, r: Request) => (if Starts(r) then 0 else s, Z_OK),
          (x, b: seq<Byte>) => x + |b|,
          (s, f) => if s < 0 then 0 else s + 1,
          s => s < 0,
          (s, e: seq<Byte>, w: seq<Byte>) => if s < 0 then |w| == |e| + 1 else |w| + s == |e|)
  }

  lemma HoldingCodecIsLawful()
    ensures Lawful(HoldingCodec()) && NeverFails(HoldingCodec(), Deflating) && SetsUp(HoldingCodec()) && Silent(HoldingCodec())
  {
  }
}
