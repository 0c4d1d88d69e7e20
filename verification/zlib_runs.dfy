/** Runs of the zlib driver through its commands alone. */
module ZLibRuns {
  import opened Bytes
  import opened IoVectors
  import opened ZLibCodec
  import opened ZLibDriver

  function AllPieces(vs: seq<Pieces>): seq<Byte> {
    if vs == [] then [] else AllPieces(vs[..|vs| - 1]) + Flat(vs[|vs| - 1])
  }

  /** Vectors queued one after the other. */
  method Queue(d: ZLibData, vs: seq<Pieces>)
    requires d.Valid()
    modifies d`queue, d`arrived
    ensures d.Valid() && d.arrived == old(d.arrived) + AllPieces(vs)
  {
    hide d.Valid, Flat;
    for i := 0 to |vs|
      invariant d.Valid() && d.arrived == old(d.arrived) + AllPieces(vs[..i])
    {
      assert vs[..i + 1][..i] == vs[..i];
      d.Outputv(vs[i]);
    }
    assert vs[..|vs|] == vs;
  }

  const RAW_WBITS: seq<Byte> := [0xff, 0xff, 0xff, 0xf1]     // -15

  /** A new driver told to expand a raw stream. */
  method StartRaw(codec: Codec, s: Stream) returns (d: ZLibData, started: bool)
    requires Lawful(codec)
    ensures fresh(d) && (d.bin == null || fresh(d.bin)) && d.Valid() && d.codec == codec
    ensures started ==> ReadyToExpand(d)
    ensures SetsUp(codec) ==> started
  {
    RawInit();
    d := new ZLibData(codec, s);
    hide Lawful, NeverFails, SetsUp, Flat, I32, Raw, Accepts, Restarts, Resizes, StartsStream, DropsQueue, ModeAfter;
    hide d.Valid, d.Unsent, d.Ran, d.Covers, d.Begins, d.HasRoom, d.Tidy, d.Grows, d.Untouched;
    hide d.Conserved, d.Spill, d.Answers;
    NoSpill(d, INFLATE_INIT2, RAW_WBITS);
    var r := d.Ctl(INFLATE_INIT2, RAW_WBITS);
    started := r == Code(Z_OK);
    if started {
      Ready(d);
    }
  }

  lemma NoSpill(d: ZLibData, command: int, buf: seq<Byte>)
    requires command != DEFLATE_PARAMS
    ensures d.Spill(command, buf) == 0
  {
  }

  lemma RawBits()
    ensures |RAW_WBITS| == 4 && I32(RAW_WBITS, 0) == -15
  {
  }

  lemma RawInit()
    ensures Raw(INFLATE_INIT2, RAW_WBITS) && StartsStream(INFLATE_INIT2) && Accepts(INFLATE_INIT2, RAW_WBITS, Idle)
    ensures Restarts(INFLATE_INIT2, RAW_WBITS, Idle, Code(Z_OK)) && ModeAfter(INFLATE_INIT2, Z_OK, Idle) == Inflating
    ensures forall need :: !Resizes(INFLATE_INIT2, RAW_WBITS, need)
  {
    RawBits();
    hide I32;
  }

  lemma Ready(d: ZLibData)
    requires d.Valid() && d.Begins(Inflating, true) && d.chunks == [] && d.written == [] && d.nextIn == [] && d.queue == []
    requires d.HasRoom() && d.binszNeed == DEFAULT_BUFSZ && d.lost == 0
    ensures ReadyToExpand(d)
  {
    hide Lawful;
  }

  /** The only stream so far, raw and without mishap. */
  ghost predicate FirstRaw(d: ZLibData)
    reads d`mode, d`begun, d`wantCrc, d`chunks, d`summed, d`astray, d`skipped, d`origin, d`binszNeed, d`lost
  {
    && d.mode == d.begun.kind == Inflating && d.wantCrc && d.Covers() && !d.astray && d.skipped == 0
    && d.begun.sent == d.begun.kept == d.begun.lost == d.lost == 0 && d.origin == Since(0, 0) && d.binszNeed == DEFAULT_BUFSZ
  }

  ghost predicate ReadyToExpand(d: ZLibData)
    reads d, d.bin
  {
    FirstRaw(d) && d.HasRoom() && d.Tidy() && d.arrived == [] && d.Unsent() == [] && d.chunks == []
  }

  /** The command INFLATE after vectors have been queued. */
  method InflateAll(d: ZLibData, flush: seq<Byte>) returns (code: int)
    requires d.Valid() && FirstRaw(d) && d.HasRoom() && d.Tidy() && |flush| == 4
    modifies d, d.bin
    ensures d.Valid() && (d.bin == old(d.bin) || d.bin == null || fresh(d.bin))
    ensures d.arrived == old(d.arrived) && (NeverFails(d.codec, Inflating) ==> code >= 0)
    ensures code >= 0 ==> FirstRaw(d)
    ensures (code == Z_OK ==> d.queue == []) && (code > Z_OK ==> Ended(d.codec, d.stream))
    ensures code >= 0 ==>
      if Arg(flush) != Z_NO_FLUSH then d.Unsent() == [] else Partial(d.chunks) == old(Partial(d.chunks))
  {
    InflateCommand(flush);
    NoSpill(d, INFLATE, flush);
    hide Lawful, NeverFails, SetsUp, Flat, Sent, Arg, Raw, Partial, Accepts, Restarts, Resizes, StartsStream, DropsQueue, Ended;
    hide d.Valid, d.Unsent, d.Covers, d.Begins, d.Grows, d.Untouched, d.HasRoom, d.Tidy, d.Conserved, d.Spill, d.Answers;
    var r := d.Ctl(INFLATE, flush);
    code := r.code;
  }

  /** A raw stream expanded by commands: unless the init or the codec fails, the messages sent are
      what the codec makes of a prefix of the input, of all of it if the answer is OK, and the
      stored checksum is that of the messages. */
  method Expand(codec: Codec, s: Stream, vs: seq<Pieces>, flush: seq<Byte>) returns (d: ZLibData, started: bool, code: int)
    requires Lawful(codec) && |flush| == 4 && Arg(flush) != Z_NO_FLUSH
    ensures fresh(d) && d.codec == codec && (SetsUp(codec) && NeverFails(codec, Inflating) ==> started && code >= 0)
    ensures started && code >= 0 ==> d.crc == Crc(codec, 0, Sent(d.chunks))
    ensures started && code >= 0 ==> ExpandsPrefix(codec, d.stream, AllPieces(vs), Sent(d.chunks), code == Z_OK)
  {
    hide *;
    d, started := StartRaw(codec, s);
    code := Z_ERRNO;
    if started {
      code := QueueAndExpand(d, vs, flush);
    }
  }

  method QueueAndExpand(d: ZLibData, vs: seq<Pieces>, flush: seq<Byte>) returns (code: int)
    requires d.Valid() && ReadyToExpand(d) && |flush| == 4 && Arg(flush) != Z_NO_FLUSH
    modifies d, d.bin
    ensures NeverFails(d.codec, Inflating) ==> code >= 0
    ensures code >= 0 ==> d.crc == Crc(d.codec, 0, Sent(d.chunks))
    ensures code >= 0 ==> ExpandsPrefix(d.codec, d.stream, AllPieces(vs), Sent(d.chunks), code == Z_OK)
  {
    hide *;
    Unready(d);
    NothingBefore(d.arrived, AllPieces(vs));
    Queue(d, vs);
    code := InflateAll(d, flush);
    if code >= 0 {
      Expanded(d, AllPieces(vs), code == Z_OK);
    }
  }

  lemma NothingBefore(a: seq<Byte>, b: seq<Byte>)
    requires a == []
    ensures a + b == b
  {
  }

  lemma Unready(d: ZLibData)
    requires ReadyToExpand(d)
    ensures FirstRaw(d) && d.HasRoom() && d.Tidy() && d.arrived == [] && d.Unsent() == [] && d.chunks == []
  {
  }

  lemma Expanded(d: ZLibData, input: seq<Byte>, all: bool)
    requires d.Valid() && FirstRaw(d) && d.Unsent() == []
    requires d.arrived == input && (all ==> d.queue == [])
    ensures d.crc == Crc(d.codec, 0, Sent(d.chunks))
    ensures ExpandsPrefix(d.codec, d.stream, input, Sent(d.chunks), all)
  {
    ExpandedChecksum(d);
    SentIsHistory(d);
    hide Lawful, Tracks, AllFit, Sent, History;
    assert input[..|d.taken|] == d.taken;
    assert Sent(d.chunks)[0..] == Sent(d.chunks);
    assert Sent(d.chunks) + [] == Sent(d.chunks);
  }

  lemma InflateCommand(buf: seq<Byte>)
    requires |buf| == 4
    ensures Accepts(INFLATE, buf, Inflating) && !StartsStream(INFLATE) && !DropsQueue(INFLATE)
    ensures forall need :: !Resizes(INFLATE, buf, need)
    ensures forall r :: !Restarts(INFLATE, buf, Inflating, r)
  {
    hide I32, Arg;
  }

  predicate ExpandsPrefix(c: Codec, s: Stream, input: seq<Byte>, made: seq<Byte>, all: bool) {
    exists k :: 0 <= k <= |input| && History(c, s, input[..k], made) && (all ==> k == |input|)
  }

  /** One piece queued and expanded, but not flushed. */
  method Hold(d: ZLibData, b: seq<Byte>) returns (code: int)
    requires d.Valid() && ReadyToExpand(d) && NeverFails(d.codec, Inflating)
    modifies d, d.bin
    ensures d.Valid() && FirstRaw(d) && (d.bin == old(d.bin) || d.bin == null || fresh(d.bin))
    ensures d.arrived == b && code >= 0 && Partial(d.chunks) == 0
    ensures (code == Z_OK ==> d.queue == []) && (code > Z_OK ==> Ended(d.codec, d.stream))
  {
    hide *;
    ResizeCommand();
    Unready(d);
    NoChunks();
    OnePiece(d.arrived, b);
    d.Outputv([b]);
    code := InflateAll(d, NO_FLUSH_ARG);
  }

  lemma NoChunks()
    ensures Partial([]) == 0
  {
  }

  lemma OnePiece(a: seq<Byte>, b: seq<Byte>)
    requires a == []
    ensures a + Flat([b]) == b
  {
    FlatOne(b);
  }

  method HoldThree() returns (d: ZLibData)
    ensures fresh(d) && (d.bin == null || fresh(d.bin)) && d.Valid() && d.codec == StoringCodec()
    ensures FirstRaw(d)
    ensures d.written == d.Unsent() == THREE && Sent(d.chunks) == []
  {
    StoringCodecIsLawful();
    var started;
    d, started := StartRaw(StoringCodec(), 0);
    hide *;
    var code := Hold(d, THREE);
    HeldBack(d, code);
  }

  /** A run that loses the checksum: while three bytes are held back, the buffer size is changed.
      The three bytes are sent, the checksum is still that of nothing. */
  method ResizeLosesChecksum() returns (d: ZLibData)
    ensures d.codec == StoringCodec() && d.wantCrc
    ensures Sent(d.chunks) == THREE && d.crc == Crc(d.codec, 0, []) != Crc(d.codec, 0, Sent(d.chunks))
  {
    d := HoldThree();
    ResizeCommand();
    hide Lawful, NeverFails, SetsUp, StoringCodec, Sent, Partial, Ended, I32, Raw, Accepts, Restarts, Resizes, StartsStream, DropsQueue, ModeAfter;
    hide Flat, d.Valid, d.Unsent, d.Covers, d.Begins, d.Grows, d.Untouched, d.Conserved, d.Spill, d.Answers;
    NoSpill(d, SET_BUFSZ, SIXTEEN_ARG);
    var r := d.Ctl(SET_BUFSZ, SIXTEEN_ARG);
    Unsummed(d);
  }

  const THREE: seq<Byte> := [1, 2, 3]
  const NO_FLUSH_ARG: seq<Byte> := [0, 0, 0, 0]
  const SIXTEEN_ARG: seq<Byte> := [0, 0, 0, 16]

  lemma SmallArgs()
    ensures |NO_FLUSH_ARG| == 4 && I32(NO_FLUSH_ARG, 0) == 0
    ensures |SIXTEEN_ARG| == 4 && I32(SIXTEEN_ARG, 0) == 16
  {
  }

  lemma ResizeCommand()
    ensures |NO_FLUSH_ARG| == 4 && Arg(NO_FLUSH_ARG) == Z_NO_FLUSH
    ensures Resizes(SET_BUFSZ, SIXTEEN_ARG, DEFAULT_BUFSZ) && !StartsStream(SET_BUFSZ) && !DropsQueue(SET_BUFSZ)
    ensures forall m, r :: !Restarts(SET_BUFSZ, SIXTEEN_ARG, m, r)
    ensures forall m :: Accepts(SET_BUFSZ, SIXTEEN_ARG, m)
  {
    SmallArgs();
    hide I32;
  }

  /** Expanded, but not yet sent. */
  lemma HeldBack(d: ZLibData, code: int)
    requires d.Valid() && FirstRaw(d) && d.codec == StoringCodec() && d.arrived == THREE && Partial(d.chunks) == 0
    requires code >= 0 && (code == Z_OK ==> d.queue == []) && (code > Z_OK ==> Ended(d.codec, d.stream))
    ensures d.written == d.Unsent() == THREE && Sent(d.chunks) == []
  {
    assert d.eaten[0..] == d.eaten && d.written[0..] == d.written;
    FullChunks(d.chunks);
  }

  lemma Unsummed(d: ZLibData)
    requires d.Valid() && d.codec == StoringCodec() && d.wantCrc && d.begun.kind == Inflating && d.begun.sent == 0
    requires d.written == THREE && d.Unsent() == [] && d.skipped == |THREE| && d.lost == 0
    ensures Sent(d.chunks) == THREE && d.crc == Crc(d.codec, 0, []) != Crc(d.codec, 0, Sent(d.chunks))
  {
    assert Sent(d.chunks) + [] == Sent(d.chunks);
  }

  const RAW_DEFLATE: seq<Byte> := [0, 0, 0, 6, 0, 0, 0, 8, 0xff, 0xff, 0xff, 0xf1, 0, 0, 0, 8, 0, 0, 0, 0]
  const FASTEST: seq<Byte> := [0, 0, 0, 1, 0, 0, 0, 0]

  /** A compressor that holds three bytes back has an empty buffer. */
  ghost predicate Holding(d: ZLibData)
    reads d, d.bin
  {
    && d.codec == HoldingCodec() && d.mode == Deflating && d.stream == 3
    && d.bin != null && d.availOut > 0 && d.Unsent() == [] && d.lost == 0 && d.binszNeed == DEFAULT_BUFSZ
  }

  /** A compressor of the first raw stream, without mishap. */
  ghost predicate Compressing(d: ZLibData)
    reads d
  {
    && d.mode == d.begun.kind == Deflating && d.wantCrc && d.origin == Since(0, 0) && !d.astray && d.lost == 0
    && d.begun.sent == d.begun.kept == d.begun.lost == 0 && d.HasRoom() && d.Tidy() && d.binszNeed == DEFAULT_BUFSZ
  }

  /** A new driver told to compress to a raw stream. */
  method StartRawDeflate(codec: Codec, s: Stream) returns (d: ZLibData, started: bool)
    requires Lawful(codec)
    ensures fresh(d) && (d.bin == null || fresh(d.bin)) && d.Valid() && d.codec == codec
    ensures started ==> Compressing(d) && d.arrived == [] && d.written == []
    ensures SetsUp(codec) ==> started
  {
    DeflateInitCommand();
    d := new ZLibData(codec, s);
    hide Lawful, SetsUp, Flat, I32, Raw, Accepts, Restarts, Resizes, StartsStream, DropsQueue, ModeAfter;
    hide d.Valid, d.Unsent, d.Ran, d.Covers, d.HasRoom, d.Tidy, d.Begins, d.Grows, d.Untouched, d.Conserved, d.Spill, d.Answers;
    NoSpill(d, DEFLATE_INIT2, RAW_DEFLATE);
    var r := d.Ctl(DEFLATE_INIT2, RAW_DEFLATE);
    started := r == Code(Z_OK);
    if started {
      NowCompressing(d);
    }
  }

  lemma NowCompressing(d: ZLibData)
    requires d.Valid() && d.Begins(Deflating, true) && d.chunks == [] && d.written == [] && d.nextIn == [] && d.queue == []
    requires d.HasRoom() && d.binszNeed == DEFAULT_BUFSZ && d.lost == 0
    ensures Compressing(d) && d.arrived == []
  {
    hide Lawful;
  }

  lemma DeflateInitCommand()
    ensures Raw(DEFLATE_INIT2, RAW_DEFLATE) && StartsStream(DEFLATE_INIT2) && Accepts(DEFLATE_INIT2, RAW_DEFLATE, Idle)
    ensures Restarts(DEFLATE_INIT2, RAW_DEFLATE, Idle, Code(Z_OK)) && ModeAfter(DEFLATE_INIT2, Z_OK, Idle) == Deflating
    ensures forall need :: !Resizes(DEFLATE_INIT2, RAW_DEFLATE, need)
  {
    assert |RAW_DEFLATE| == 20 && I32(RAW_DEFLATE, 8) == -15;
    hide I32;
  }

  /** The command DEFLATE after vectors have been queued. */
  method DeflateAll(d: ZLibData, flush: seq<Byte>) returns (code: int)
    requires d.Valid() && Compressing(d) && |flush| == 4
    modifies d, d.bin
    ensures d.Valid() && (d.bin == old(d.bin) || d.bin == null || fresh(d.bin))
    ensures d.arrived == old(d.arrived) && (NeverFails(d.codec, Deflating) ==> code >= 0)
    ensures code >= 0 ==> Compressing(d) && d.bin != null
    ensures (code == Z_OK || old(d.queue) == [] ==> d.queue == []) && (code > Z_OK ==> Ended(d.codec, d.stream))
    ensures code >= 0 && Arg(flush) != Z_NO_FLUSH ==> d.Unsent() == []
    ensures code >= 0 && Arg(flush) == Z_FINISH ==> code == Z_STREAM_END
    ensures Silent(d.codec) && Arg(flush) == Z_NO_FLUSH ==> d.written == old(d.written)
  {
    DeflateCommand(flush);
    NoSpill(d, DEFLATE, flush);
    hide Lawful, NeverFails, Silent, Flat, Sent, Arg, Raw, Partial, Accepts, Restarts, Resizes, StartsStream, DropsQueue, ModeAfter, Ended, Told;
    hide d.Valid, d.Unsent, d.Covers, d.Begins, d.Grows, d.Untouched, d.HasRoom, d.Tidy, d.Conserved, d.Spill, d.Answers;
    var r := d.Ctl(DEFLATE, flush);
    code := r.code;
  }

  /** zip of zlib.erl: a raw stream compressed and finished by commands. Unless the init or the codec
      fails, the stream has ended, the messages sent are what the codec made of all the input,
      and the stored checksum is that of the input. */
  method Zip(codec: Codec, s: Stream, vs: seq<Pieces>) returns (d: ZLibData, started: bool, first: int, last: int)
    requires Lawful(codec)
    ensures fresh(d) && d.codec == codec
    ensures started && first == Z_OK && last >= 0 ==>
      && Ended(codec, d.stream) && History(codec, d.stream, AllPieces(vs), Sent(d.chunks))
      && d.crc == Crc(codec, 0, AllPieces(vs)) && last == Z_STREAM_END
    ensures SetsUp(codec) && NeverFails(codec, Deflating) ==> started && first >= 0 && (first == Z_OK ==> last >= 0)
  {
    first, last := Z_ERRNO, Z_ERRNO;
    d, started := StartRawDeflate(codec, s);
    FlushArgs();
    hide *;
    if started {
      NothingBefore(d.arrived, AllPieces(vs));
      StillCompressing(d);
      QueueInput(d, vs);
      first := DeflateAll(d, NO_FLUSH_ARG);
      if first == Z_OK {
        last := DeflateAll(d, FINISH_ARG);
        if last >= 0 {
          Zipped(d, AllPieces(vs));
        }
      }
    }
  }

  const FINISH_ARG: seq<Byte> := [0, 0, 0, 4]

  lemma FinishArg()
    ensures |FINISH_ARG| == 4 && I32(FINISH_ARG, 0) == 4
  {
  }

  lemma FlushArgs()
    ensures |NO_FLUSH_ARG| == 4 && Arg(NO_FLUSH_ARG) == Z_NO_FLUSH
    ensures |FINISH_ARG| == 4 && Arg(FINISH_ARG) == Z_FINISH
  {
    SmallArgs();
    FinishArg();
    hide I32, NO_FLUSH_ARG, FINISH_ARG;
  }

  lemma StillCompressing(d: ZLibData)
    ensures Compressing(d) <==>
      && d.mode == d.begun.kind == Deflating && d.wantCrc && d.origin == Since(0, 0) && !d.astray && d.lost == 0
      && d.begun.sent == d.begun.kept == d.begun.lost == 0 && d.HasRoom() && d.Tidy() && d.binszNeed == DEFAULT_BUFSZ
  {
  }

  /** Vectors for a compressor. */
  method QueueInput(d: ZLibData, vs: seq<Pieces>)
    requires d.Valid() && Compressing(d)
    modifies d`queue, d`arrived
    ensures d.Valid() && Compressing(d) && d.arrived == old(d.arrived) + AllPieces(vs)
  {
    hide d.Valid, Flat;
    Queue(d, vs);
  }

  lemma Zipped(d: ZLibData, input: seq<Byte>)
    requires d.Valid() && Compressing(d) && d.Unsent() == [] && d.arrived == input && d.queue == []
    ensures d.crc == Crc(d.codec, 0, input) && History(d.codec, d.stream, input, Sent(d.chunks))
  {
    CompressedChecksum(d);
    SentIsHistory(d);
    hide Lawful, Tracks, AllFit, Sent, History;
    assert d.taken + [] == d.taken;
    assert Sent(d.chunks)[0..] == Sent(d.chunks);
  }

  /** Three bytes queued and compressed, without flush. */
  method HoldBack() returns (d: ZLibData)
    ensures fresh(d) && (d.bin == null || fresh(d.bin)) && d.Valid() && Holding(d)
  {
    HoldingCodecIsLawful();
    FlushArgs();
    var started;
    d, started := StartRawDeflate(HoldingCodec(), 0);
    hide *;
    ThreePieces();
    NothingBefore(d.arrived, THREE);
    StillCompressing(d);
    QueueInput(d, [[THREE]]);
    var code := DeflateAll(d, NO_FLUSH_ARG);
    HeldStream(d, code);
  }

  lemma ThreePieces()
    ensures AllPieces([[THREE]]) == THREE
  {
    FlatOne(THREE);
    assert [[THREE]][..0] == [] && AllPieces([]) == [];
  }

  lemma DeflateCommand(buf: seq<Byte>)
    requires |buf| == 4
    ensures Accepts(DEFLATE, buf, Deflating) && !StartsStream(DEFLATE) && !DropsQueue(DEFLATE)
    ensures forall need :: !Resizes(DEFLATE, buf, need)
    ensures forall r :: !Restarts(DEFLATE, buf, Deflating, r)
    ensures forall code :: ModeAfter(DEFLATE, code, Deflating) == Deflating
  {
    hide I32, Arg;
  }

  /** Whatever the codec took without writing it still holds. */
  lemma HeldStream(d: ZLibData, code: int)
    requires d.Valid() && d.codec == HoldingCodec() && Compressing(d) && d.arrived == THREE && d.written == [] && d.bin != null
    requires code >= 0 && (code == Z_OK ==> d.queue == []) && (code > Z_OK ==> Ended(d.codec, d.stream))
    ensures Holding(d)
  {
    TakenSoFar(d);
    NothingUnsent(d);
    StillCompressing(d);
    StillHeld(d.stream, d.taken);
    hide Lawful, HoldingCodec, History, Ended, d.Valid, d.Unsent, d.Tidy, Compressing, Flat;
  }

  lemma StillHeld(s: Stream, taken: seq<Byte>)
    ensures History(HoldingCodec(), s, taken, []) ==> s == |taken| && !Ended(HoldingCodec(), s)
  {
  }

  lemma TakenSoFar(d: ZLibData)
    requires d.Valid() && !d.astray && d.origin == Since(0, 0)
    ensures History(d.codec, d.stream, d.taken, d.written)
    ensures d.queue == [] ==> d.taken == d.arrived
  {
    hide Lawful, History, d.Sums, d.Conserves;
    assert d.eaten[0..] == d.eaten && d.written[0..] == d.written;
    assert d.taken + [] == d.taken;
  }

  lemma NothingUnsent(d: ZLibData)
    requires d.Valid() && d.written == []
    ensures d.Unsent() == []
  {
    hide Lawful, d.Sums, d.Queues, d.Related, AllFit;
    assert |Sent(d.chunks) + d.Unsent()| == |d.kept|;
  }

  /** A run that loses what was compressed: three bytes were compressed, but are still held back,
      when a new buffer size frees the empty buffer.  The new parameters then make the codec write
      where that buffer was. */
  method ParamsLosesBytes() returns (d: ZLibData)
    ensures d.codec == HoldingCodec() && |Sent(d.chunks) + d.Unsent()| < |d.written|
  {
    d := HoldBack();
    FreeBuffer(d);
    ParamsCommand();
    Spilled(d);
    hide Lawful, HoldingCodec, Sent, Arg, Raw, Partial, Accepts, Restarts, Resizes, StartsStream, DropsQueue;
    hide d.Valid, d.Unsent, d.Covers, d.Begins, d.Grows, d.Untouched, d.HasRoom, d.Spill;
    var r := d.Ctl(DEFLATE_PARAMS, FASTEST);
    Missing(d);
  }

  lemma ParamsCommand()
    ensures AcceptsDeflate(DEFLATE_PARAMS, FASTEST, Deflating)
  {
  }

  lemma Spilled(d: ZLibData)
    requires d.codec == HoldingCodec() && d.mode == Deflating && d.stream == 3 && d.bin == null && d.availOut > 0
    requires AcceptsDeflate(DEFLATE_PARAMS, FASTEST, Deflating)
    ensures d.Spill(DEFLATE_PARAMS, FASTEST) > 0
  {
  }

  lemma Missing(d: ZLibData)
    requires d.Valid() && d.lost > 0
    ensures |Sent(d.chunks) + d.Unsent()| < |d.written|
  {
    hide Lawful;
  }

  /** SET_BUFSZ on an empty buffer. */
  method FreeBuffer(d: ZLibData)
    requires d.Valid() && Holding(d)
    modifies d, d.bin
    ensures d.Valid() && d.mode == Deflating && d.stream == 3 && d.lost == 0 && d.bin == null && d.availOut > 0
  {
    ResizeCommand();
    SizeAccepted();
    NoSpill(d, SET_BUFSZ, SIXTEEN_ARG);
    hide Lawful, HoldingCodec, Sent, Partial, Ended, I32, Raw, Arg, Accepts, AcceptsAlways, Restarts, Resizes, StartsStream, DropsQueue, ModeAfter;
    hide Flat, d.Valid, d.Unsent, d.HasRoom, d.Tidy, d.Ran, d.Roomy, d.Quiet, d.Covers, d.Begins, d.Grows, d.Untouched, d.Conserved, d.Spill, d.Answers;
    var r := d.Ctl(SET_BUFSZ, SIXTEEN_ARG);
  }

  lemma SizeAccepted()
    ensures AcceptsAlways(SET_BUFSZ, SIXTEEN_ARG)
  {
    SmallArgs();
    hide I32;
  }
}
