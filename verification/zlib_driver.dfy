/** The zlib port driver (zlib_drv.c): nested loops that move bytes from the port's queue through
    a compressor or decompressor into output binaries of a fixed size, keeping a checksum of the
    clear text on the side.  The codec and crc32 are given by the contract in ZLibCodec. */
module ZLibDriver {
  import opened Bytes
  import opened IoVectors
  import opened ZLibCodec
  import Erlang

  const DEFLATE_INIT := 1
  const DEFLATE_INIT2 := 2
  const DEFLATE_SETDICT := 3
  const DEFLATE_RESET := 4
  const DEFLATE_END := 5
  const DEFLATE_PARAMS := 6
  const DEFLATE := 7
  const INFLATE_INIT := 8
  const INFLATE_INIT2 := 9
  const INFLATE_SETDICT := 10
  const INFLATE_SYNC := 11
  const INFLATE_RESET := 12
  const INFLATE_END := 13
  const INFLATE := 14
  const CRC32_0 := 15
  const CRC32_1 := 16
  const CRC32_2 := 17
  const SET_BUFSZ := 18
  const GET_BUFSZ := 19
  const GET_QSIZE := 20

  datatype Reply = Code(code: int) | Value(value: int)

  /** i32: four bytes as a signed integer. */
  function I32(b: seq<Byte>, at: nat): int
    requires at + 4 <= |b|
  {
    Signed32(FromBE4(b[at], b[at + 1], b[at + 2], b[at + 3]))
  }

  /** The argument of a command that takes one number. */
  function Arg(b: seq<Byte>): int {
    if |b| == 4 then I32(b, 0) else 0
  }

  /** The commands of the compressor, of the decompressor, and those for both. */
  predicate AcceptsDeflate(command: int, buf: seq<Byte>, mode: Mode) {
    || (command == DEFLATE_INIT && |buf| == 4 && mode == Idle)
    || (command == DEFLATE_INIT2 && |buf| == 20 && mode == Idle)
    || (command == DEFLATE_SETDICT && mode == Deflating)
    || ((command == DEFLATE_RESET || command == DEFLATE_END) && |buf| == 0 && mode == Deflating)
    || (command == DEFLATE_PARAMS && |buf| == 8 && mode == Deflating)
    || (command == DEFLATE && |buf| == 4 && mode == Deflating)
  }

  predicate AcceptsInflate(command: int, buf: seq<Byte>, mode: Mode) {
    || (command == INFLATE_INIT && |buf| == 0 && mode == Idle)
    || (command == INFLATE_INIT2 && |buf| == 4 && mode == Idle)
    || (command == INFLATE_SETDICT && mode == Inflating)
    || ((command == INFLATE_SYNC || command == INFLATE_RESET || command == INFLATE_END) && |buf| == 0 && mode == Inflating)
    || (command == INFLATE && |buf| == 4 && mode == Inflating)
  }

  predicate AcceptsAlways(command: int, buf: seq<Byte>) {
    || (command == CRC32_0 || command == CRC32_1 || command == GET_BUFSZ || command == GET_QSIZE)
    || (command == CRC32_2 && |buf| >= 4)
    || (command == SET_BUFSZ && |buf| == 4 && MIN_BUFSZ <= Arg(buf) <= MAX_BUFSZ)
  }

  predicate Accepts(command: int, buf: seq<Byte>, mode: Mode) {
    AcceptsDeflate(command, buf, mode) || AcceptsInflate(command, buf, mode) || AcceptsAlways(command, buf)
  }

  /** The mode after an accepted command that returned code. */
  function ModeAfter(command: int, code: int, mode: Mode): Mode {
    if (command == DEFLATE_INIT || command == DEFLATE_INIT2) && code == Z_OK then Deflating
    else if (command == INFLATE_INIT || command == INFLATE_INIT2) && code == Z_OK then Inflating
    else if (command == DEFLATE_END || command == INFLATE_END) then Idle
    else mode
  }

  predicate StartsStream(command: int) {
    command == DEFLATE_INIT || command == DEFLATE_INIT2 || command == INFLATE_INIT || command == INFLATE_INIT2
  }

  predicate DropsQueue(command: int) {
    command == DEFLATE_RESET || command == DEFLATE_END || command == INFLATE_RESET || command == INFLATE_END
  }

  /** An init was accepted and succeeded. */
  predicate Restarts(command: int, buf: seq<Byte>, mode: Mode, r: Reply) {
    Accepts(command, buf, mode) && StartsStream(command) && r == Code(Z_OK)
  }

  /** A raw stream is wanted; for those the checksum is kept. */
  predicate Raw(command: int, buf: seq<Byte>) {
    || (command == DEFLATE_INIT2 && |buf| == 20 && I32(buf, 8) < 0)
    || (command == INFLATE_INIT2 && |buf| == 4 && I32(buf, 0) < 0)
  }

  /** The guard of SET_BUFSZ: a valid size that is not the present one. */
  predicate Resizes(command: int, buf: seq<Byte>, binszNeed: nat) {
    command == SET_BUFSZ && AcceptsAlways(command, buf) && Arg(buf) != binszNeed
  }

  /** No command belongs to two groups. */
  lemma Groups(command: int, buf: seq<Byte>, mode: Mode)
    ensures AcceptsDeflate(command, buf, mode) ==>
      !AcceptsInflate(command, buf, mode) && !AcceptsAlways(command, buf) && command != INFLATE
    ensures AcceptsInflate(command, buf, mode) ==>
      !AcceptsAlways(command, buf) && command != DEFLATE && command != DEFLATE_PARAMS
    ensures AcceptsAlways(command, buf) ==>
      !StartsStream(command) && !DropsQueue(command)
      && command != DEFLATE && command != INFLATE && command != DEFLATE_PARAMS
      && ModeAfter(command, Z_OK, mode) == mode
    ensures StartsStream(command) || DropsQueue(command) ==>
      command != DEFLATE && command != INFLATE && command != DEFLATE_PARAMS && command != INFLATE_SYNC
  {
    hide Arg;
  }

  /** The set-up calls of zlib, by the numbers and arguments that zlib.erl gives their commands. */
  function RequestOf(command: int, buf: seq<Byte>): Erlang.Option<Request> {
    match command
    case 1 => if |buf| == 4 then Erlang.Some(DeflateInit(I32(buf, 0))) else Erlang.None
    case 2 =>
      if |buf| == 20 then Erlang.Some(DeflateInit2(I32(buf, 0), I32(buf, 4), I32(buf, 8), I32(buf, 12), I32(buf, 16)))
      else Erlang.None
    case 3 => Erlang.Some(DeflateDictionary(buf))
    case 4 => Erlang.Some(DeflateReset)
    case 5 => Erlang.Some(DeflateEnd)
    case 8 => Erlang.Some(InflateInit)
    case 9 => if |buf| == 4 then Erlang.Some(InflateInit2(I32(buf, 0))) else Erlang.None
    case 10 => Erlang.Some(InflateDictionary(buf))
    case 12 => Erlang.Some(InflateReset)
    case 13 => Erlang.Some(InflateEnd)
    case _ => Erlang.None
  }

  class ZLibData {
    const codec: Codec
    var stream: Stream              // z_stream, with next_in[..avail_in] and avail_out
    var nextIn: seq<Byte>
    var availOut: nat
    var mode: Mode
    var bin: array?<Byte>
    var binsz: nat
    var binszNeed: nat
    var crc: int
    var wantCrc: bool
    var queue: Pieces          // the port's queue
    var chunks: seq<Chunk>     // messages to the port's owner

    ghost var written: seq<Byte>   // everything the codec has written,
    ghost var kept: seq<Byte>      //   what of it went into a buffer,
    ghost var lost: nat            //   and how much went where a buffer had been
    ghost var arrived: seq<Byte>   // since the last init: bytes queued and not dropped,
    ghost var taken: seq<Byte>     //   bytes dequeued by the loops,
    ghost var eaten: seq<Byte>     //   bytes the codec took
    ghost var astray: bool         // taken and eaten have come apart
    ghost var starved: bool        // the codec was called with no room
    ghost var calls: seq<Order>    // what it was told in each call
    ghost var begun: Begun         // the last init
    ghost var origin: Origin
    ghost var summed: seq<Byte>    // the bytes crc is the checksum of
    ghost var skipped: nat         // bytes sent since the last init that bypassed the checksum

    ghost function Unsent(): (u: seq<Byte>)
      reads this`bin, this`binsz, this`availOut, bin
    {
      if bin == null || !(availOut <= binsz == bin.Length) then [] else bin[..binsz - availOut]
    }

    /** The buffer, and the first main invariant: sent ++ unsent == kept, which is all that was
        written unless some was lost. */
    ghost predicate Conserves()
      reads this`bin, this`binsz, this`binszNeed, this`availOut, this`chunks, bin
      reads this`written, this`kept, this`lost, this`begun
    {
      && MIN_BUFSZ <= binszNeed <= MAX_BUFSZ
      && (bin == null ==> binsz == 0)
      && (bin != null ==> bin.Length == binsz && availOut <= binsz && MIN_BUFSZ <= binsz <= MAX_BUFSZ)
      && AllFit(chunks)
      && Sent(chunks) + Unsent() == kept
      && Keeps(begun, written, kept, lost)
    }

    /** Everything the codec has written was sent or is in the buffer. */
    ghost predicate Conserved()
      reads this`bin, this`binsz, this`availOut, this`chunks, this`written, bin
    {
      Sent(chunks) + Unsent() == written
    }

    lemma ConservedIffNoneLost()
      requires Valid()
      ensures Conserved() <==> lost == 0
    {
      hide Lawful, Related, Sums, Queues, AllFit, Sent;
    }

    /** The queue holds what arrived and was not yet taken. */
    ghost predicate Queues()
      reads this`queue, this`arrived, this`taken
    {
      && NoneEmpty(queue)
      && arrived == taken + Flat(queue)
    }

    /** The checksum is that of the summed bytes, and of nothing while it is not wanted. */
    ghost predicate Sums()
      reads this`mode, this`begun, this`wantCrc, this`crc, this`summed, this`skipped, this`taken, this`chunks
    {
      && crc == Crc(codec, 0, summed)
      && Tracks(begun, wantCrc, summed, skipped, taken, Sent(chunks))
      && (mode != Idle ==> begun.kind == mode)
    }

    /** The codec has taken and written, since its stream was started, what its history says. */
    ghost predicate Related()
      reads this`stream, this`eaten, this`written, this`origin
    {
      Past(codec, stream, origin, eaten, written)
    }

    ghost predicate Valid()
      reads this, bin
    {
      && Lawful(codec) && Related()
      && Conserves()
      && Queues()
      && Sums()
      && (!astray ==> eaten == taken)
    }

    /** No input left over that the stream could still take. */
    ghost predicate Tidy()
      reads this`nextIn, this`stream
    {
      nextIn == [] || Ended(codec, stream)
    }

    ghost predicate HasRoom()
      reads this`bin, this`availOut
    {
      bin == null || availOut > 0
    }

    /** The checksum covers exactly what was sent since the last init. */
    ghost predicate Covers()
      reads this`begun, this`chunks, this`summed
    {
      begun.sent <= |Sent(chunks)| && summed == Sent(chunks)[begun.sent..]
    }

    /** What the loops never touch. */
    twostate predicate Settled()
      reads this
    {
      && mode == old(mode) && binszNeed == old(binszNeed) && wantCrc == old(wantCrc)
      && arrived == old(arrived) && begun == old(begun) && skipped == old(skipped)
    }

    twostate predicate Grows()
      reads this
    {
      old(chunks) <= chunks && old(written) <= written
    }

    /** What a command other than a successful init leaves of the counts: all of them, but reset and
        end drop what is queued, and a new buffer size sends the buffer past the checksum or frees
        it. */
    twostate predicate Counted(command: int, buf: seq<Byte>)
      reads this, bin
    {
      && begun == old(begun) && wantCrc == old(wantCrc)
      && (skipped == old(skipped) + if Resizes(command, buf, old(binszNeed)) then |old(Unsent())| else 0)
      && arrived == (if Accepts(command, buf, old(mode)) && DropsQueue(command) then old(taken) else old(arrived))
      && if Resizes(command, buf, old(binszNeed)) then binszNeed == Arg(buf) && Unsent() == [] && written == old(written) && Frees()
         else binszNeed == old(binszNeed)
    }

    /** An empty buffer is freed, but the room in it is not forgotten. */
    twostate predicate Frees()
      reads this, bin
    {
      old(bin) != null && old(Unsent()) == [] ==> bin == null && availOut == old(availOut) > 0
    }

    /** The bytes that a command writes where a buffer had been. */
    ghost function Spill(command: int, buf: seq<Byte>): nat
      reads this`mode, this`bin, this`stream, this`nextIn, this`availOut
    {
      if AcceptsDeflate(command, buf, mode) && command == DEFLATE_PARAMS && bin == null
      then |ParamsOut(I32(buf, 0), I32(buf, 4)).output| else 0
    }

    lemma SpillsIn(command: int, buf: seq<Byte>)
      ensures !AcceptsDeflate(command, buf, mode) ==> Spill(command, buf) == 0
    {
    }

    /** A codec that had room was always called with room, and has room again unless excused. */
    twostate predicate Roomy(excused: bool)
      reads this
    {
      old(HasRoom()) ==> starved == old(starved) && (excused || HasRoom())
    }

    /** No call of the codec on data, and nothing sent. */
    twostate predicate Quiet()
      reads this
    {
      chunks == old(chunks) && written == old(written) && nextIn == old(nextIn)
    }

    /** DEFLATE and INFLATE: OK leaves an empty queue, a successful flush an empty buffer; unless the
        codec fails or is fed stale input, it took just what was dequeued; without flush only full
        buffers are sent; a codec that never fails makes no call fail; there is a buffer; the
        codec was told to go on and then the flush mode asked for; a compressor that was told to
        finish has finished. */
    twostate predicate Ran(flush: int, res: int)
      reads this, bin
    {
      && (res == Z_OK || old(queue) == [] ==> queue == []) && (res > Z_OK ==> Ended(codec, stream))
      && (res >= 0 && flush != Z_NO_FLUSH ==> Unsent() == [])
      && (res >= 0 && old(queue != [] || Tidy()) ==> Tidy() && astray == old(astray))
      && (flush == Z_NO_FLUSH ==> Partial(chunks) == old(Partial(chunks)))
      && (flush == Z_NO_FLUSH && Silent(codec) ==> written == old(written))
      && bin != null
      && (NeverFails(codec, begun.kind) && old(HasRoom()) ==> res >= 0)
      && origin == old(origin)
      && Told(old(calls), calls, begun.kind, flush, res)
      && (begun.kind == Deflating && flush == Z_FINISH && res >= 0 ==> res == Z_STREAM_END)
    }

    /** Input side unchanged. */
    twostate predicate InputKept()
      reads this
    {
      && stream == old(stream) && nextIn == old(nextIn) && queue == old(queue) && taken == old(taken)
      && eaten == old(eaten) && astray == old(astray) && starved == old(starved) && calls == old(calls)
    }

    twostate predicate Untouched()
      reads this, bin
    {
      && Settled() && InputKept() && crc == old(crc) && summed == old(summed) && chunks == old(chunks)
      && written == old(written) && bin == old(bin) && binsz == old(binsz) && availOut == old(availOut)
      && Unsent() == old(Unsent())
    }

    constructor (codec: Codec, s: Stream)
      requires Lawful(codec)
      ensures Valid() && this.codec == codec && stream == s && Tidy() && HasRoom()
      ensures mode == Idle && queue == [] && chunks == [] && written == [] && lost == 0 && Unsent() == [] && !astray
      ensures binszNeed == 4000 && crc == 0 && !wantCrc && !starved && bin == null && nextIn == []
    {
      this.codec, stream, nextIn, availOut, mode := codec, s, [], 0, Idle;
      bin, binsz, binszNeed, crc, wantCrc := null, 0, DEFAULT_BUFSZ, 0, false;
      queue, chunks := [], [];
      written, kept, lost, arrived, taken, eaten, astray, starved, calls := [], [], 0, [], [], [], false, false, [];
      begun, origin, summed, skipped := Begun(Idle, 0, 0, 0), Lost, [], 0;
    }

    method OutputInit()
      requires Conserves() && bin == null
      modifies this`bin, this`binsz, this`availOut
      ensures Conserves() && bin != null && fresh(bin)
      ensures binsz == binszNeed == availOut && Unsent() == []
    {
      bin := new Byte[binszNeed](_ => 0);
      binsz := binszNeed;
      availOut := binsz;
    }

    /** Sends what the buffer holds and starts a new one of the wanted size. */
    method Output()
      requires Conserves() && bin != null
      modifies this`bin, this`binsz, this`availOut, this`chunks
      ensures Conserves() && bin != null && fresh(bin)
      ensures binsz == binszNeed == availOut > SMALL_ROOM && Unsent() == []
      ensures chunks == old(chunks) + if old(Unsent()) == [] then [] else [Chunk(old(Unsent()), old(binsz))]
      ensures Sent(chunks) == kept == Sent(old(chunks)) + old(Unsent())
      ensures old(availOut) == 0 ==> Partial(chunks) == Partial(old(chunks))
    {
      hide AllFit, Sent, Partial, Keeps;
      var len := binsz - availOut;
      assert Unsent() == bin[..len];
      if len > 0 {
        SentMore(chunks, Chunk(bin[..len], binsz));
        OneFits(Chunk(bin[..len], binsz));
        AllFitMore(chunks, Chunk(bin[..len], binsz));
        chunks := chunks + [Chunk(bin[..len], binsz)];
      }
      bin := null;
      binsz := 0;
      OutputInit();
    }

    /** One call of inflate or deflate on next_in, writing at next_out. */
    method Call(m: Mode, flush: int) returns (res: int, ghost o: Out)
      requires Lawful(codec) && Related() && Conserves() && bin != null
      modifies this`stream, this`nextIn, this`availOut, this`written, this`kept, this`eaten, this`starved, this`calls, bin
      ensures Conserves() && Related() && binsz == old(binsz)
      ensures NeverFails(codec, m) && old(availOut) > 0 ==> res >= 0
      ensures Silent(codec) && flush == Z_NO_FLUSH ==> written == old(written)
      ensures o == Step(codec, m, old(stream), old(nextIn), old(availOut), flush)
      ensures StepOk(codec, m, old(stream), old(nextIn), old(availOut), flush)
      ensures stream == o.stream && res == o.code && written == old(written) + o.output
      ensures eaten + nextIn == old(eaten + nextIn) && |nextIn| == |old(nextIn)| - o.consumed
      ensures o.consumed == 0 ==> eaten == old(eaten) && nextIn == old(nextIn)
      ensures availOut == old(availOut) - |o.output| && Unsent() == old(Unsent()) + o.output
      ensures starved == (old(starved) || old(availOut) == 0)
      ensures calls == old(calls) + [Order(m, flush)]
    {
      LawfulStep(codec, m, stream, nextIn, availOut, flush);
      StepFits(codec, m, stream, nextIn, availOut, flush);
      StepRelated(m, flush);
      StepSucceeds(m, flush);
      StepSilent(m);
      hide StepOk, NeverFails, Silent, Lawful, Related, RelatedAfter, Past, Conserves, Unsent, Step;
      o := Step(codec, m, stream, nextIn, availOut, flush);
      var done := Step(codec, m, stream, nextIn, availOut, flush);
      starved, calls := starved || availOut == 0, calls + [Order(m, flush)];
      res := done.code;
      Apply(done);
    }

    /** What the codec did to the stream, its input and the buffer. */
    method Apply(o: Out)
      requires Conserves() && bin != null && o.consumed <= |nextIn| && |o.output| <= availOut && RelatedAfter(o)
      modifies this`stream, this`nextIn, this`availOut, this`written, this`kept, this`eaten, bin
      ensures Conserves() && Related()
      ensures stream == o.stream && written == old(written) + o.output
      ensures eaten + nextIn == old(eaten + nextIn) && |nextIn| == |old(nextIn)| - o.consumed
      ensures o.consumed == 0 ==> eaten == old(eaten) && nextIn == old(nextIn)
      ensures availOut == old(availOut) - |o.output| && Unsent() == old(Unsent()) + o.output
    {
      hide Related, Past, Conserves, Unsent;
      Advance(o);
      Store(o.output);
      NowRelated();
    }

    /** The stream moves on over the input that was taken. */
    method Advance(o: Out)
      requires o.consumed <= |nextIn|
      modifies this`stream, this`nextIn, this`eaten
      ensures stream == o.stream && nextIn == old(nextIn)[o.consumed..] && eaten == old(eaten) + old(nextIn)[..o.consumed]
      ensures eaten + nextIn == old(eaten + nextIn)
      ensures o.consumed == 0 ==> eaten == old(eaten) && nextIn == old(nextIn)
    {
      MoveAcross(eaten, nextIn, o.consumed);
      stream, nextIn, eaten := o.stream, nextIn[o.consumed..], eaten + nextIn[..o.consumed];
    }

    ghost predicate RelatedAfter(o: Out)
      reads this`nextIn, this`eaten, this`written, this`origin
    {
      o.consumed <= |nextIn| ==> Past(codec, o.stream, origin, eaten + nextIn[..o.consumed], written + o.output)
    }

    lemma StepRelated(m: Mode, flush: int)
      requires Lawful(codec) && Related()
      ensures RelatedAfter(Step(codec, m, stream, nextIn, availOut, flush))
    {
      hide StepOk, Step;
      if origin.Since? {
        LawfulHistory(codec, m, stream, nextIn, availOut, flush, eaten[origin.eaten..], written[origin.written..]);
        OutRelated(Step(codec, m, stream, nextIn, availOut, flush));
      }
    }

    lemma OutRelated(o: Out)
      requires Related()
      requires origin.Since? ==> Continues(codec, stream, nextIn, o, eaten[origin.eaten..], written[origin.written..])
      ensures RelatedAfter(o)
    {
      if origin.Since? && o.consumed <= |nextIn| {
        DropOfSum(eaten, nextIn[..o.consumed], origin.eaten);
        DropOfSum(written, o.output, origin.written);
      }
    }

    lemma NowRelated()
      requires Past(codec, stream, origin, eaten, written)
      ensures Related()
    {
    }

    lemma StepSucceeds(m: Mode, flush: int)
      ensures NeverFails(codec, m) && availOut > 0 ==> Step(codec, m, stream, nextIn, availOut, flush).code >= 0
    {
    }

    lemma StepSilent(m: Mode)
      ensures Silent(codec) ==>
        var o := Step(codec, m, stream, nextIn, availOut, Z_NO_FLUSH);
        o.output == [] && written + o.output == written
    {
    }

    /** The codec's writes at next_out. */
    method Store(b: seq<Byte>)
      requires Conserves() && bin != null && |b| <= availOut
      modifies this`availOut, this`written, this`kept, bin
      ensures Conserves() && availOut == old(availOut) - |b|
      ensures Unsent() == old(Unsent()) + b && written == old(written) + b
    {
      KeepsStored(begun, written, kept, lost, b);
      MoreSum(Sent(chunks), Unsent(), b);
      hide AllFit, Sent, Keeps, Unsent;
      Fill(b);
      written, kept := written + b, kept + b;
    }

    method Fill(b: seq<Byte>)
      requires bin != null && availOut <= binsz == bin.Length && |b| <= availOut
      modifies this`availOut, bin
      ensures availOut == old(availOut) - |b| && Unsent() == old(Unsent()) + b
    {
      var at := binsz - availOut;
      forall i | 0 <= i < |b| {
        bin[at + i] := b[i];
      }
      availOut := availOut - |b|;
    }

    /** driver_deq of bytes at the front of the first piece. */
    method Dequeue(len: nat)
      requires Queues() && queue != [] && len <= |queue[0]|
      modifies this`queue, this`taken
      ensures Queues() && taken == old(taken) + old(queue)[0][..len]
      ensures len == |old(queue)[0]| ==> queue == old(queue)[1..]
    {
      DequeuedFlat(queue, len);
      taken := taken + queue[0][..len];
      queue := Dequeued(queue, len);
    }

    /** Clear text leaves the queue for the compressor by way of the checksum. */
    method TakeSummed(len: nat)
      requires Lawful(codec) && Queues() && Sums() && queue != [] && len <= |queue[0]| && begun.kind == Deflating
      modifies this`queue, this`taken, this`crc, this`summed
      ensures Queues() && Sums() && taken == old(taken) + old(queue)[0][..len]
      ensures len == |old(queue)[0]| ==> queue == old(queue)[1..]
    {
      hide Tracks;
      TracksTaken(begun, wantCrc, summed, skipped, taken, Sent(chunks), queue[0][..len]);
      if wantCrc {
        LawfulSum(codec, 0, summed, queue[0][..len]);
        crc := Crc(codec, crc, queue[0][..len]);
        summed := summed + queue[0][..len];
      }
      hide Lawful, Queues, Sent;
      Dequeue(len);
    }

    method SumBuffer()
      requires Lawful(codec) && Conserves() && bin != null && crc == Crc(codec, 0, summed)
      modifies this`crc, this`summed
      ensures crc == Crc(codec, 0, summed) && summed == old(summed) + Unsent()
    {
      LawfulSum(codec, 0, summed, Unsent());
      hide Lawful, Sent, AllFit;
      assert Unsent() == bin[..binsz - availOut];
      crc := Crc(codec, crc, bin[..binsz - availOut]);
      summed := summed + Unsent();
    }

    /** Compressed input leaves the queue. */
    method TakeExpanded(len: nat)
      requires Queues() && Sums() && queue != [] && len <= |queue[0]| && begun.kind == Inflating
      modifies this`queue, this`taken
      ensures Queues() && Sums() && taken == old(taken) + old(queue)[0][..len]
      ensures len == |old(queue)[0]| ==> queue == old(queue)[1..]
    {
      hide Tracks;
      TracksTaken(begun, wantCrc, summed, skipped, taken, Sent(chunks), queue[0][..len]);
      hide Queues, Sent;
      Dequeue(len);
    }

    /** Sends the buffer; expanded text is summed on its way out. */
    method Emit(m: Mode)
      requires Lawful(codec) && Conserves() && Sums() && bin != null && begun.kind == m != Idle
      modifies this`bin, this`binsz, this`availOut, this`chunks, this`crc, this`summed
      ensures Conserves() && Sums() && bin != null && fresh(bin)
      ensures binsz == binszNeed == availOut > SMALL_ROOM && Unsent() == []
      ensures old(chunks) <= chunks && Sent(chunks) == kept
      ensures old(availOut) == 0 ==> Partial(chunks) == old(Partial(chunks))
    {
      hide Lawful, Conserves, Sent, Unsent, Tracks, Partial;
      TracksSent(begun, wantCrc, summed, skipped, taken, Sent(chunks), Unsent());
      if m == Inflating && wantCrc {
        SumBuffer();
      }
      Output();
    }

    /** The inner loop: feeds the codec until its input is used up or the stream has ended. */
    method Pump(m: Mode) returns (res: int)
      requires Lawful(codec) && Related() && Conserves() && Sums() && bin != null && begun.kind == m != Idle
      modifies this`stream, this`nextIn, this`availOut, this`written, this`kept, this`eaten, this`starved, this`calls
      modifies this`bin, this`binsz, this`chunks, this`crc, this`summed, bin
      ensures Related() && Conserves() && Sums() && bin != null && (bin == old(bin) || fresh(bin))
      ensures old(chunks) <= chunks && old(written) <= written
      ensures eaten + nextIn == old(eaten + nextIn) && |nextIn| <= |old(nextIn)|
      ensures res <= Z_STREAM_END && (res == Z_OK ==> nextIn == [])
      ensures res == Z_STREAM_END ==> Ended(codec, stream)
      ensures Partial(chunks) == old(Partial(chunks)) && (Silent(codec) ==> written == old(written))
      ensures Asks(old(calls), calls, m, Z_NO_FLUSH)
      ensures old(HasRoom()) ==> starved == old(starved) && (res >= 0 ==> HasRoom()) && (NeverFails(codec, m) ==> res >= 0)
    {
      AsksNothing(calls, m, Z_NO_FLUSH);
      hide Lawful, Conserves, Related, Sums, Unsent, NeverFails, Silent, Partial, Asks;
      res := Z_OK;
      while nextIn != [] && res != Z_STREAM_END
        invariant Related() && Conserves() && Sums() && bin != null && (bin == old(bin) || fresh(bin))
        invariant old(chunks) <= chunks && old(written) <= written
        invariant Partial(chunks) == old(Partial(chunks)) && (Silent(codec) ==> written == old(written))
        invariant Asks(old(calls), calls, m, Z_NO_FLUSH)
        invariant eaten + nextIn == old(eaten + nextIn) && |nextIn| <= |old(nextIn)|
        invariant 0 <= res <= Z_STREAM_END
        invariant res == Z_STREAM_END ==> Ended(codec, stream)
        invariant old(HasRoom()) ==> HasRoom() && starved == old(starved)
        decreases Z_STREAM_END - res, |nextIn|, Pending(codec, stream, Z_NO_FLUSH)
      {
        ghost var o;
        AsksOnce(old(calls), calls, m, Z_NO_FLUSH);
        res, o := Call(m, Z_NO_FLUSH);
        if res < 0 {
          return;
        }
        if availOut == 0 {
          Emit(m);
        }
      }
    }

    lemma Buffered()
      requires Valid() && bin != null
      ensures availOut <= binsz && 0 < binsz && |Unsent()| == binsz - availOut
    {
    }

    /** The head of the queue through the compressor. */
    method DeflatePiece() returns (res: int)
      requires Valid() && bin != null && queue != [] && begun.kind == Deflating
      modifies this`stream, this`nextIn, this`availOut, this`written, this`kept, this`eaten, this`starved, this`calls, this`astray
      modifies this`bin, this`binsz, this`chunks, this`crc, this`summed, this`queue, this`taken, bin
      ensures Valid() && bin != null && (bin == old(bin) || fresh(bin))
      ensures old(chunks) <= chunks && old(written) <= written
      ensures res <= Z_STREAM_END && (res == Z_OK ==> |queue| < |old(queue)|)
      ensures res >= 0 ==> astray == old(astray) && Tidy()
      ensures res == Z_STREAM_END ==> Ended(codec, stream)
      ensures Partial(chunks) == old(Partial(chunks)) && (Silent(codec) ==> written == old(written))
      ensures Asks(old(calls), calls, Deflating, Z_NO_FLUSH)
      ensures old(HasRoom()) ==> starved == old(starved) && (res >= 0 ==> HasRoom()) && (NeverFails(codec, Deflating) ==> res >= 0)
    {
      hide Lawful, Conserves, Related, Sums, Unsent, NeverFails, Silent, Partial, Asks;
      var piece := queue[0];
      nextIn := piece;
      res := Pump(Deflating);
      MovedAcross(old(eaten), piece, eaten, nextIn);
      if res < 0 {
        astray := astray || |nextIn| < |piece|;
        return;
      }
      TakeSummed(|piece| - |nextIn|);
    }

    /** The head of the queue through the decompressor. */
    method InflatePiece() returns (res: int)
      requires Valid() && bin != null && queue != [] && begun.kind == Inflating
      modifies this`stream, this`nextIn, this`availOut, this`written, this`kept, this`eaten, this`starved, this`calls, this`astray
      modifies this`bin, this`binsz, this`chunks, this`crc, this`summed, this`queue, this`taken, bin
      ensures Valid() && bin != null && (bin == old(bin) || fresh(bin))
      ensures old(chunks) <= chunks && old(written) <= written
      ensures res <= Z_STREAM_END && (res == Z_OK ==> |queue| < |old(queue)|)
      ensures res >= 0 ==> astray == old(astray) && Tidy()
      ensures res == Z_STREAM_END ==> Ended(codec, stream)
      ensures Partial(chunks) == old(Partial(chunks)) && (Silent(codec) ==> written == old(written))
      ensures Asks(old(calls), calls, Inflating, Z_NO_FLUSH)
      ensures old(HasRoom()) ==> starved == old(starved) && (res >= 0 ==> HasRoom()) && (NeverFails(codec, Inflating) ==> res >= 0)
    {
      hide Lawful, Conserves, Related, Sums, Unsent, NeverFails, Silent, Partial, Asks;
      var piece := queue[0];
      nextIn := piece;
      res := Pump(Inflating);
      MovedAcross(old(eaten), piece, eaten, nextIn);
      if res < 0 {
        astray := astray || |nextIn| < |piece|;
        return;
      }
      TakeExpanded(|piece| - |nextIn|);
    }

    /** A step that is not fed from the queue: input it takes is leftover of an earlier piece. */
    method Drain(m: Mode, flush: int) returns (res: int)
      requires Valid() && bin != null
      modifies this`stream, this`nextIn, this`availOut, this`written, this`kept, this`eaten, this`starved, this`calls, this`astray, bin
      ensures Valid() && old(written) <= written && res <= Z_STREAM_END
      ensures |nextIn| <= |old(nextIn)|
      ensures res >= 0 && |nextIn| == |old(nextIn)| && old(availOut) > SMALL_ROOM ==>
        Pending(codec, stream, flush) + |Unsent()| <= old(Pending(codec, stream, flush) + |Unsent()|)
      ensures Ended(codec, stream) || (res != Z_STREAM_END && !old(Ended(codec, stream)))
      ensures old(Ended(codec, stream)) ==> res != Z_OK
      ensures old(Tidy()) ==> Tidy() && astray == old(astray)
      ensures starved == (old(starved) || old(availOut) == 0)
      ensures NeverFails(codec, m) && old(availOut) > 0 ==> res >= 0
      ensures calls == old(calls) + [Order(m, flush)]
      ensures m == Deflating && flush == Z_FINISH && res == Z_OK ==> availOut == 0
    {
      hide Lawful, Related, Conserves, Unsent, Sums, Queues, Step, Pending, Ended, Crc, NeverFails, Silent;
      ghost var o;
      res, o := Call(m, flush);
      astray := astray || o.consumed > 0;
    }

    method EmitRest(m: Mode)
      requires Valid() && bin != null && begun.kind == m != Idle
      modifies this`bin, this`binsz, this`availOut, this`chunks, this`crc, this`summed
      ensures Valid() && bin != null && fresh(bin)
      ensures binsz == binszNeed == availOut > SMALL_ROOM && Unsent() == []
      ensures old(chunks) <= chunks && Sent(chunks) == kept
    {
      hide Lawful, Related, Conserves, Unsent, Sums, Queues, Partial;
      Emit(m);
    }

    /** The last part of zlib_inflate and zlib_deflate: flushes the codec and the buffer. */
    method Flush(m: Mode, flush: int) returns (res: int)
      requires Valid() && bin != null && begun.kind == m != Idle
      modifies this`stream, this`nextIn, this`availOut, this`written, this`kept, this`eaten, this`starved, this`calls, this`astray
      modifies this`bin, this`binsz, this`chunks, this`crc, this`summed, bin
      ensures Valid() && bin != null && (bin == old(bin) || fresh(bin))
      ensures old(chunks) <= chunks && old(written) <= written
      ensures res <= Z_STREAM_END && (res >= 0 ==> Unsent() == [] && HasRoom()) && (res > Z_OK ==> Ended(codec, stream))
      ensures old(Tidy()) ==> Tidy() && astray == old(astray)
      ensures old(Ended(codec, stream)) ==> res != Z_OK
      ensures old(HasRoom()) ==> starved == old(starved) && (NeverFails(codec, m) ==> res >= 0)
      ensures Asks(old(calls), calls, m, flush) && |old(calls)| < |calls|
      ensures m == Deflating && flush == Z_FINISH && res >= 0 ==> res == Z_STREAM_END
    {
      AsksNothing(calls, m, flush);
      AsksOnce(calls, calls, m, flush);
      hide Valid, Unsent, Tidy, Ended, NeverFails, Silent, Asks;
      res := Drain(m, flush);
      ghost var asked := calls;
      if res >= 0 {
        res := FlushRest(m, flush, res);
        AsksMore(old(calls), asked, calls, m, flush);
      }
    }

    /** The flush loop, entered with the code of the first call. */
    method FlushRest(m: Mode, flush: int, first: int) returns (res: int)
      requires Valid() && bin != null && begun.kind == m != Idle
      requires 0 <= first <= Z_STREAM_END && (first == Z_STREAM_END ==> Ended(codec, stream))
      requires m == Deflating && flush == Z_FINISH && first == Z_OK ==> availOut == 0
      modifies this`stream, this`nextIn, this`availOut, this`written, this`kept, this`eaten, this`starved, this`calls, this`astray
      modifies this`bin, this`binsz, this`chunks, this`crc, this`summed, bin
      ensures Valid() && bin != null && (bin == old(bin) || fresh(bin))
      ensures old(chunks) <= chunks && old(written) <= written
      ensures res <= Z_STREAM_END && (res >= 0 ==> Unsent() == [] && HasRoom()) && (res > Z_OK ==> Ended(codec, stream))
      ensures old(Tidy()) ==> Tidy() && astray == old(astray)
      ensures first != Z_OK && old(Ended(codec, stream)) ==> res != Z_OK
      ensures starved == old(starved) && (NeverFails(codec, m) ==> res >= 0)
      ensures Asks(old(calls), calls, m, flush)
      ensures m == Deflating && flush == Z_FINISH && res >= 0 ==> res == Z_STREAM_END
    {
      AsksNothing(calls, m, flush);
      hide Valid, Unsent, Tidy, Ended, NeverFails, Silent, Asks;
      res := first;
      while availOut < binsz
        invariant Valid() && bin != null && (bin == old(bin) || fresh(bin))
        invariant old(chunks) <= chunks && old(written) <= written
        invariant 0 <= res <= Z_STREAM_END && (res > Z_OK ==> Ended(codec, stream))
        invariant old(Tidy()) ==> Tidy() && astray == old(astray)
        invariant first != Z_OK && old(Ended(codec, stream)) ==> res != Z_OK && Ended(codec, stream)
        invariant starved == old(starved) && Asks(old(calls), calls, m, flush)
        invariant m == Deflating && flush == Z_FINISH && res == Z_OK ==> availOut == 0
        decreases |nextIn|, Pending(codec, stream, flush), if Unsent() == [] then 0 else 1
      {
        Buffered();
        EmitRest(m);
        if res == Z_STREAM_END {
          return;
        }
        AsksOnce(old(calls), calls, m, flush);
        res := Drain(m, flush);
        if res < 0 {
          return;
        }
      }
      Buffered();
    }

    /** A first buffer for a driver that has none. */
    method Open()
      requires Valid()
      modifies this`bin, this`binsz, this`availOut
      ensures Valid() && bin != null && (bin == old(bin) || fresh(bin))
      ensures old(HasRoom()) ==> HasRoom()
    {
      hide Lawful, Related, Queues, Sums, Sent;
      if bin == null {
        OutputInit();
      }
    }

    /** The outer loop: one piece of the queue after the other. */
    method DeflateQueue() returns (res: int)
      requires Valid() && bin != null && begun.kind == Deflating
      modifies this`stream, this`nextIn, this`availOut, this`written, this`kept, this`eaten, this`starved, this`calls, this`astray
      modifies this`bin, this`binsz, this`chunks, this`crc, this`summed, this`queue, this`taken, bin
      ensures Valid() && bin != null && (bin == old(bin) || fresh(bin))
      ensures old(chunks) <= chunks && old(written) <= written
      ensures res <= Z_STREAM_END && (res == Z_OK || old(queue) == [] ==> queue == [])
      ensures res == Z_STREAM_END ==> Ended(codec, stream)
      ensures res >= 0 ==> astray == old(astray) && (old(queue != [] || Tidy()) ==> Tidy())
      ensures Partial(chunks) == old(Partial(chunks)) && (Silent(codec) ==> written == old(written))
      ensures Asks(old(calls), calls, Deflating, Z_NO_FLUSH)
      ensures old(HasRoom()) ==> starved == old(starved) && (res >= 0 ==> HasRoom()) && (NeverFails(codec, Deflating) ==> res >= 0)
    {
      AsksNothing(calls, Deflating, Z_NO_FLUSH);
      hide Valid, Unsent, HasRoom, Ended, NeverFails, Silent, Partial, Asks;
      res := Z_OK;
      while queue != [] && res != Z_STREAM_END
        invariant Valid() && bin != null && (bin == old(bin) || fresh(bin))
        invariant old(chunks) <= chunks && old(written) <= written
        invariant 0 <= res <= Z_STREAM_END && (res == Z_STREAM_END ==> Ended(codec, stream))
        invariant astray == old(astray) && (old(queue) == [] ==> queue == [])
        invariant Tidy() || (queue == old(queue) && nextIn == old(nextIn) && stream == old(stream))
        invariant Partial(chunks) == old(Partial(chunks)) && (Silent(codec) ==> written == old(written))
        invariant Asks(old(calls), calls, Deflating, Z_NO_FLUSH)
        invariant old(HasRoom()) ==> starved == old(starved) && HasRoom()
        decreases Z_STREAM_END - res, |queue|
      {
        ghost var asked := calls;
        res := DeflatePiece();
        AsksMore(old(calls), asked, calls, Deflating, Z_NO_FLUSH);
        if res < 0 {
          return;
        }
      }
    }

    /** zlib_deflate: compresses everything queued, then flushes if asked to. */
    method Deflate(flush: int) returns (res: int)
      requires Valid() && begun.kind == Deflating
      modifies this`stream, this`nextIn, this`availOut, this`written, this`kept, this`eaten, this`starved, this`calls, this`astray
      modifies this`bin, this`binsz, this`chunks, this`crc, this`summed, this`queue, this`taken, bin
      ensures Valid() && (bin == old(bin) || fresh(bin))
      ensures res <= Z_STREAM_END && Grows() && Ran(flush, res) && Roomy(res < 0)
    {
      hide Valid, Unsent, Tidy, HasRoom, Ended, NeverFails, Silent, Partial, Asks, Told;
      Open();
      res := DeflateQueue();
      ghost var fed := calls;
      AsksNothing(fed, Deflating, flush);
      if res >= 0 && flush != Z_NO_FLUSH {
        res := Flush(Deflating, flush);
      }
      ToldBy(old(calls), fed, calls, Deflating, flush, res);
    }

    /** The outer loop: one piece of the queue after the other. */
    method InflateQueue() returns (res: int)
      requires Valid() && bin != null && begun.kind == Inflating
      modifies this`stream, this`nextIn, this`availOut, this`written, this`kept, this`eaten, this`starved, this`calls, this`astray
      modifies this`bin, this`binsz, this`chunks, this`crc, this`summed, this`queue, this`taken, bin
      ensures Valid() && bin != null && (bin == old(bin) || fresh(bin))
      ensures old(chunks) <= chunks && old(written) <= written
      ensures res <= Z_STREAM_END && (res == Z_OK || old(queue) == [] ==> queue == [])
      ensures res == Z_STREAM_END ==> Ended(codec, stream)
      ensures res >= 0 ==> astray == old(astray) && (old(queue != [] || Tidy()) ==> Tidy())
      ensures Partial(chunks) == old(Partial(chunks)) && (Silent(codec) ==> written == old(written))
      ensures Asks(old(calls), calls, Inflating, Z_NO_FLUSH)
      ensures old(HasRoom()) ==> starved == old(starved) && (res >= 0 ==> HasRoom()) && (NeverFails(codec, Inflating) ==> res >= 0)
    {
      AsksNothing(calls, Inflating, Z_NO_FLUSH);
      hide Valid, Unsent, HasRoom, Ended, NeverFails, Silent, Partial, Asks;
      res := Z_OK;
      while queue != [] && res != Z_STREAM_END
        invariant Valid() && bin != null && (bin == old(bin) || fresh(bin))
        invariant old(chunks) <= chunks && old(written) <= written
        invariant 0 <= res <= Z_STREAM_END && (res == Z_STREAM_END ==> Ended(codec, stream))
        invariant astray == old(astray) && (old(queue) == [] ==> queue == [])
        invariant Tidy() || (queue == old(queue) && nextIn == old(nextIn) && stream == old(stream))
        invariant Partial(chunks) == old(Partial(chunks)) && (Silent(codec) ==> written == old(written))
        invariant Asks(old(calls), calls, Inflating, Z_NO_FLUSH)
        invariant old(HasRoom()) ==> starved == old(starved) && HasRoom()
        decreases Z_STREAM_END - res, |queue|
      {
        ghost var asked := calls;
        res := InflatePiece();
        AsksMore(old(calls), asked, calls, Inflating, Z_NO_FLUSH);
        if res < 0 {
          return;
        }
      }
    }

    /** zlib_inflate. */
    method Inflate(flush: int) returns (res: int)
      requires Valid() && begun.kind == Inflating
      modifies this`stream, this`nextIn, this`availOut, this`written, this`kept, this`eaten, this`starved, this`calls, this`astray
      modifies this`bin, this`binsz, this`chunks, this`crc, this`summed, this`queue, this`taken, bin
      ensures Valid() && (bin == old(bin) || fresh(bin))
      ensures res <= Z_STREAM_END && Grows() && Ran(flush, res) && Roomy(res < 0)
    {
      hide Valid, Unsent, Tidy, HasRoom, Ended, NeverFails, Silent, Partial, Asks, Told;
      Open();
      res := InflateQueue();
      ghost var fed := calls;
      AsksNothing(fed, Inflating, flush);
      if res >= 0 && flush != Z_NO_FLUSH {
        res := Flush(Inflating, flush);
      }
      ToldBy(old(calls), fed, calls, Inflating, flush, res);
    }

    /** zlib_outputv: queues a vector. */
    method Outputv(ev: Pieces)
      requires Valid()
      modifies this`queue, this`arrived
      ensures Valid() && arrived == old(arrived) + Flat(ev) && Flat(queue) == old(Flat(queue)) + Flat(ev)
    {
      KeptFlat(ev);
      FlatAppend(queue, Kept(ev));
      hide Lawful, Related, Conserves, Sums;
      queue := queue + Kept(ev);
      arrived := arrived + Flat(ev);
    }

    /** A set-up call that leaves queue and buffer alone. */
    method Control(r: Request) returns (res: int)
      requires Valid()
      modifies this`stream, this`origin
      ensures Valid() && (stream, res) == Setup(codec, old(stream), r)
      ensures origin == OriginAfter(r, res, old(origin), |eaten|, |written|)
    {
      ControlRelated(r);
      hide Lawful, Conserves, Sums, Queues, Related, Past, Setup, OriginAfter, ControlOk, Starts;
      var p := Setup(codec, stream, r);
      origin := OriginAfter(r, p.1, origin, |eaten|, |written|);
      stream, res := p.0, p.1;
      NowRelated();
    }

    lemma ControlRelated(r: Request)
      requires Lawful(codec) && Related()
      ensures var p := Setup(codec, stream, r);
              var o := OriginAfter(r, p.1, origin, |eaten|, |written|);
              Past(codec, p.0, o, eaten, written)
    {
      hide StepOk;
      assert eaten[|eaten|..] == [] && written[|written|..] == [];
      LawfulControl(codec, stream, r, [], []);
      if origin.Since? {
        LawfulControl(codec, stream, r, eaten[origin.eaten..], written[origin.written..]);
      }
    }

    /** The state after a successful init: counting starts afresh, buffer and queue stay. */
    ghost predicate Begins(m: Mode, want: bool)
      reads this`mode, this`wantCrc, this`crc, this`astray, this`begun, this`chunks, this`arrived
      reads this`written, this`kept, this`lost
      reads this`queue, this`taken, this`eaten, this`summed, this`skipped, this`origin
    {
      && mode == m && wantCrc == want && crc == 0 && !astray
      && begun == Begun(m, |Sent(chunks)|, |kept|, lost)
      && arrived == Flat(queue) && taken == eaten == summed == [] && skipped == 0
      && origin == Since(0, |written|)
    }

    lemma BeginsSums(m: Mode, want: bool)
      requires Lawful(codec) && Begins(m, want) && Conserves()
      ensures Sums()
    {
      hide AllFit, Sent, StepOk;
      assert Crc(codec, 0, []) == 0;
      assert |Sent(chunks)| <= |kept|;
      assert Sent(chunks)[begun.sent..] == [];
    }

    /** The counts of a stream start with what is queued. */
    ghost method Recount()
      modifies this`arrived, this`taken, this`eaten, this`astray, this`summed, this`skipped, this`origin
      ensures summed == [] && skipped == 0 && origin == Since(0, |written|)
      ensures arrived == Flat(queue) && taken == [] && eaten == [] && !astray
    {
      summed, skipped, taken, eaten, astray := [], 0, [], [], false;
      arrived, origin := Flat(queue), Since(0, |written|);
    }

    ghost method Mark()
      requires Conserves()
      modifies this`begun
      ensures Conserves() && begun == Begun(mode, |Sent(chunks)|, |kept|, lost)
    {
      KeepsBegun(begun, written, kept, lost, mode, |Sent(chunks)|);
      hide AllFit, Sent, Keeps;
      begun := Begun(mode, |Sent(chunks)|, |kept|, lost);
    }

    lemma NewHistory()
      requires Related() && origin == Since(|eaten|, |written|)
      ensures History(codec, stream, [], [])
    {
      assert eaten[|eaten|..] == [] && written[|written|..] == [];
    }

    lemma EmptyHistory()
      requires History(codec, stream, [], []) && eaten == [] && origin == Since(0, |written|)
      ensures Related()
    {
      assert eaten[0..] == [] && written[|written|..] == [];
    }

    method Begin(m: Mode, want: bool)
      requires Valid() && mode == Idle != m && origin == Since(|eaten|, |written|)
      modifies this`mode, this`wantCrc, this`crc
      modifies this`arrived, this`taken, this`eaten, this`astray, this`begun, this`summed, this`skipped, this`origin
      ensures Valid() && Begins(m, want)
    {
      hide AllFit, Sent, Lawful, Sums, Conserves, Unsent, Flat, Related, History;
      NewHistory();
      mode, wantCrc, crc := m, want, 0;
      Mark();
      Recount();
      BeginsSums(m, want);
      EmptyHistory();
    }

    lemma ControlSucceeds(r: Request)
      ensures SetsUp(codec) ==> Setup(codec, stream, r).1 == Z_OK
    {
    }

    /** DEFLATE_INIT, DEFLATE_INIT2, INFLATE_INIT and INFLATE_INIT2. */
    method Init(m: Mode, r: Request, want: bool) returns (res: int)
      requires Valid() && mode == Idle != m && Starts(r)
      modifies this`stream, this`mode, this`wantCrc, this`crc, this`origin
      modifies this`arrived, this`taken, this`eaten, this`astray, this`begun, this`summed, this`skipped
      ensures Valid() && (stream, res) == Setup(codec, old(stream), r)
      ensures if res == Z_OK then Begins(m, want) else Settled() && crc == old(crc) && summed == old(summed)
      ensures mode == if res == Z_OK then m else Idle
      ensures SetsUp(codec) ==> res == Z_OK
    {
      ControlSucceeds(r);
      hide Valid, SetsUp;
      res := Control(r);
      if res == Z_OK {
        Begin(m, want);
      }
    }

    /** The reset and end commands drop what is queued. */
    method DropQueue()
      requires Valid()
      modifies this`queue, this`arrived
      ensures Valid() && queue == [] && arrived == taken
    {
      hide Lawful, Related, Conserves, Sums;
      queue := [];
      arrived := taken;
    }

    /** DEFLATE_END and INFLATE_END. */
    method End(r: Request) returns (res: int)
      requires Valid()
      modifies this`queue, this`arrived, this`stream, this`mode, this`origin
      ensures Valid() && (stream, res) == Setup(codec, old(stream), r)
      ensures queue == [] && arrived == taken && mode == Idle
    {
      hide Valid;
      DropQueue();
      res := Control(r);
      GoIdle();
    }

    method GoIdle()
      requires Valid()
      modifies this`mode
      ensures Valid() && mode == Idle
    {
      hide Lawful, Related, Conserves, Queues, Tracks;
      mode := Idle;
    }

    /** What inflateSync and deflateParams do to the stream: they may take leftover input, and
        deflateParams may write at next_out, whether or not there is a buffer. */
    method Absorb(o: Out)
      requires Valid() && o.consumed <= |nextIn| && |o.output| <= availOut
      requires RelatedAfter(o) && (o.output == [] || begun.kind != Inflating)
      modifies this`stream, this`nextIn, this`eaten, this`astray, this`availOut, this`written, this`kept, this`lost, bin
      ensures Valid() && stream == o.stream && nextIn == old(nextIn)[o.consumed..]
      ensures written == old(written) + o.output && availOut == old(availOut) - |o.output|
      ensures Unsent() == if bin == null then [] else old(Unsent()) + o.output
      ensures lost == old(lost) + if bin == null then |o.output| else 0
      ensures astray == (old(astray) || o.consumed > 0)
    {
      hide Lawful, Related, Past, Sums, Queues, Conserves, Unsent;
      astray := astray || o.consumed > 0;
      Advance(o);
      if bin == null {
        Lose(o.output);
      } else {
        Store(o.output);
      }
      NowRelated();
    }

    /** The codec's writes at next_out after the buffer there was freed. */
    method Lose(b: seq<Byte>)
      requires Conserves() && bin == null && |b| <= availOut && (b == [] || begun.kind != Inflating)
      modifies this`availOut, this`written, this`lost
      ensures Conserves() && availOut == old(availOut) - |b| && Unsent() == []
      ensures written == old(written) + b && lost == old(lost) + |b|
    {
      KeepsLost(begun, written, kept, lost, b);
      hide AllFit, Sent, Keeps;
      availOut, written, lost := availOut - |b|, written + b, lost + |b|;
    }

    /** SET_BUFSZ on a buffer in use: what it holds is sent past the checksum. */
    method SendUnsummed()
      requires Valid() && bin != null && Unsent() != []
      modifies this`bin, this`binsz, this`availOut, this`chunks, this`skipped
      ensures Valid() && bin != null && fresh(bin) && availOut > 0
      ensures Unsent() == [] && skipped == old(skipped) + |old(Unsent())|
      ensures Sent(chunks) == Sent(old(chunks)) + old(Unsent()) && old(chunks) <= chunks
    {
      hide Lawful, Related, Conserves, Queues, Tracks, Sent, Unsent;
      TracksSent(begun, wantCrc, summed, skipped, taken, Sent(chunks), Unsent());
      skipped := skipped + |Unsent()|;
      Output();
    }

    /** SET_BUFSZ: the next buffer has the new size. */
    method SetBufsz(need: nat)
      requires Valid() && MIN_BUFSZ <= need <= MAX_BUFSZ
      modifies this`binszNeed, this`bin, this`binsz, this`availOut, this`chunks, this`skipped
      ensures Valid() && binszNeed == need && (bin == old(bin) || bin == null || fresh(bin))
      ensures old(chunks) <= chunks && (old(HasRoom()) ==> HasRoom())
      ensures if need == old(binszNeed) then chunks == old(chunks) && skipped == old(skipped) && Unsent() == old(Unsent())
              else Unsent() == [] && skipped == old(skipped) + |old(Unsent())| && Sent(chunks) == Sent(old(chunks)) + old(Unsent())
      ensures need != old(binszNeed) && old(bin) != null && old(Unsent()) == [] ==>
        bin == null && availOut == old(availOut) > 0
    {
      hide Lawful, Related, Sums, Queues, AllFit, Sent;
      if binszNeed != need {
        binszNeed := need;
        if bin != null {
          if availOut == binsz {
            bin, binsz := null, 0;
          } else {
            SendUnsummed();
          }
        }
      }
    }

    /** What deflateParams does on the present stream. */
    function ParamsOut(level: int, strategy: int): Out
      reads this`stream, this`nextIn, this`availOut
    {
      codec.params(stream, level, strategy, nextIn, availOut)
    }

    /** DEFLATE_PARAMS: deflateParams may compress what is pending under the old parameters.  What
        it then writes is lost if and only if there is no buffer. */
    method Params(level: int, strategy: int) returns (res: int)
      requires Valid() && mode == Deflating
      modifies this`stream, this`nextIn, this`eaten, this`astray, this`availOut, this`written, this`kept, this`lost, bin
      ensures Valid() && Grows() && Roomy(true) && old(Unsent()) <= Unsent()
      ensures var o := old(ParamsOut(level, strategy)); stream == o.stream && res == o.code
      ensures lost == old(lost) + if bin == null then |old(ParamsOut(level, strategy)).output| else 0
      ensures Conserved() <==> old(Conserved()) && (bin != null || old(ParamsOut(level, strategy)).output == [])
    {
      KindOfMode();
      ConservedIffNoneLost();
      var o := ParamsOut(level, strategy);
      ParamsRelated(level, strategy, availOut);
      NoBuffer();
      hide Lawful, Valid, Unsent, RelatedAfter, Conserved;
      Absorb(o);
      ConservedIffNoneLost();
      res := o.code;
    }

    lemma NoBuffer()
      ensures bin == null ==> Unsent() == []
    {
    }

    lemma ParamsRelated(level: int, strategy: int, room: nat)
      requires Lawful(codec) && Related()
      ensures var o := codec.params(stream, level, strategy, nextIn, room);
              o.consumed <= |nextIn| && |o.output| <= room && RelatedAfter(o)
    {
      hide StepOk;
      var o := codec.params(stream, level, strategy, nextIn, room);
      LawfulParams(codec, stream, level, strategy, nextIn, room, [], []);
      if origin.Since? {
        LawfulParams(codec, stream, level, strategy, nextIn, room, eaten[origin.eaten..], written[origin.written..]);
      }
      OutRelated(o);
    }

    /** INFLATE_SYNC: inflateSync skips leftover input, which ends the history. */
    method Sync() returns (res: int)
      requires Valid()
      modifies this`stream, this`nextIn, this`eaten, this`astray, this`availOut, this`written, this`kept, this`lost, this`origin, bin
      ensures Valid() && Grows() && Roomy(false) && written == old(written) && lost == old(lost) && Unsent() == old(Unsent())
      ensures var o := codec.sync(old(stream), old(nextIn)); stream == o.stream && res == o.code
    {
      KindOfMode();
      LawfulSync(codec, stream, nextIn);
      hide Valid, Lawful, Unsent, RelatedAfter, Related, Past;
      var o := codec.sync(stream, nextIn);
      ForgetHistory(o);
      Skip(o);
      res := o.code;
    }

    method Skip(o: Out)
      requires Valid() && o.consumed <= |nextIn| && o.output == [] && RelatedAfter(o)
      modifies this`stream, this`nextIn, this`eaten, this`astray, this`availOut, this`written, this`kept, this`lost, bin
      ensures Valid() && written == old(written) && lost == old(lost) && stream == o.stream
      ensures availOut == old(availOut) && Unsent() == old(Unsent())
    {
      NoBuffer();
      hide *;
      Absorb(o);
      NothingStored(old(written), old(Unsent()), o.output);
    }

    ghost method ForgetHistory(o: Out)
      requires Valid()
      modifies this`origin
      ensures Valid() && RelatedAfter(o)
    {
      hide Lawful, Sums, Queues, Conserves, Unsent;
      origin := Lost;
    }

    lemma NothingStored(w: seq<Byte>, u: seq<Byte>, o: seq<Byte>)
      requires o == []
      ensures w + o == w && u + o == u
    {
    }

    lemma KindOfMode()
      requires Valid()
      ensures Lawful(codec) && Related() && (mode != Idle ==> begun.kind == mode)
    {
    }

    twostate predicate Did(r: Request, code: int)
      reads this
    {
      (stream, code) == Setup(codec, old(stream), r)
    }

    /** What a command hands to zlib, and that it answers with zlib's code. DEFLATE and INFLATE have
        Ran. */
    twostate predicate Answers(command: int, buf: seq<Byte>, code: int)
      reads this
    {
      && (RequestOf(command, buf).Some? ==> Did(RequestOf(command, buf).value, code))
      && (command == 6 && |buf| == 8 ==>
          var o := old(ParamsOut(I32(buf, 0), I32(buf, 4))); stream == o.stream && code == o.code)
      && (command == 11 ==> var o := codec.sync(old(stream), old(nextIn)); stream == o.stream && code == o.code)
    }

    /** DEFLATE_INIT and DEFLATE_INIT2; the checksum is wanted for raw streams. */
    method StartDeflate(command: int, buf: seq<Byte>) returns (res: int)
      requires Valid() && AcceptsDeflate(command, buf, mode) && StartsStream(command)
      modifies this`stream, this`mode, this`wantCrc, this`crc, this`origin
      modifies this`arrived, this`taken, this`eaten, this`astray, this`begun, this`summed, this`skipped
      ensures Answers(command, buf, res)
      ensures Valid() && Quiet() && Grows() && Roomy(false) && mode == ModeAfter(command, res, old(mode))
      ensures if res == Z_OK then Begins(mode, Raw(command, buf)) && mode == Deflating else Settled()
      ensures SetsUp(codec) ==> res == Z_OK
    {
      hide Valid, Begins, Settled, SetsUp;
      if command == DEFLATE_INIT {
        res := Init(Deflating, DeflateInit(I32(buf, 0)), false);
      } else {
        var wbits := I32(buf, 8);
        res := Init(Deflating, DeflateInit2(I32(buf, 0), I32(buf, 4), wbits, I32(buf, 12), I32(buf, 16)), wbits < 0);
      }
    }

    /** INFLATE_INIT and INFLATE_INIT2; the checksum is wanted for raw streams. */
    method StartInflate(command: int, buf: seq<Byte>) returns (res: int)
      requires Valid() && AcceptsInflate(command, buf, mode) && StartsStream(command)
      modifies this`stream, this`mode, this`wantCrc, this`crc, this`origin
      modifies this`arrived, this`taken, this`eaten, this`astray, this`begun, this`summed, this`skipped
      ensures Answers(command, buf, res)
      ensures Valid() && Quiet() && Grows() && Roomy(false) && mode == ModeAfter(command, res, old(mode))
      ensures if res == Z_OK then Begins(mode, Raw(command, buf)) && mode == Inflating else Settled()
      ensures SetsUp(codec) ==> res == Z_OK
    {
      hide Valid, Begins, Settled, SetsUp;
      if command == INFLATE_INIT {
        res := Init(Inflating, InflateInit, false);
      } else {
        res := Init(Inflating, InflateInit2(I32(buf, 0)), I32(buf, 0) < 0);
      }
    }

    /** DEFLATE_SETDICT, DEFLATE_RESET and DEFLATE_END; the last two drop what is queued. */
    method ResetDeflate(command: int, buf: seq<Byte>) returns (res: int)
      requires Valid() && AcceptsDeflate(command, buf, mode) && (command == DEFLATE_SETDICT || DropsQueue(command))
      modifies this`queue, this`arrived, this`stream, this`mode, this`origin
      ensures Answers(command, buf, res)
      ensures Valid() && Quiet() && Grows() && Roomy(false) && mode == ModeAfter(command, res, old(mode))
      ensures if DropsQueue(command) then queue == [] && arrived == taken else queue == old(queue) && arrived == old(arrived)
    {
      hide Valid;
      if command == DEFLATE_SETDICT {
        res := Control(DeflateDictionary(buf));
      } else if command == DEFLATE_RESET {
        DropQueue();
        res := Control(DeflateReset);
      } else {
        res := End(DeflateEnd);
      }
    }

    /** INFLATE_SETDICT, INFLATE_RESET and INFLATE_END; the last two drop what is queued. */
    method ResetInflate(command: int, buf: seq<Byte>) returns (res: int)
      requires Valid() && AcceptsInflate(command, buf, mode) && (command == INFLATE_SETDICT || DropsQueue(command))
      modifies this`queue, this`arrived, this`stream, this`mode, this`origin
      ensures Answers(command, buf, res)
      ensures Valid() && Quiet() && Grows() && Roomy(false) && mode == ModeAfter(command, res, old(mode))
      ensures if DropsQueue(command) then queue == [] && arrived == taken else queue == old(queue) && arrived == old(arrived)
    {
      hide Valid;
      if command == INFLATE_SETDICT {
        res := Control(InflateDictionary(buf));
      } else if command == INFLATE_RESET {
        DropQueue();
        res := Control(InflateReset);
      } else {
        res := End(InflateEnd);
      }
    }

    method DeflateCommand(buf: seq<Byte>) returns (res: int)
      requires Valid() && begun.kind == Deflating
      modifies this`stream, this`nextIn, this`availOut, this`written, this`kept, this`eaten, this`starved, this`calls, this`astray
      modifies this`bin, this`binsz, this`chunks, this`crc, this`summed, this`queue, this`taken, bin
      ensures Answers(DEFLATE, buf, res) && Valid() && (bin == old(bin) || fresh(bin))
      ensures Grows() && Ran(Arg(buf), res) && Roomy(res < 0)
    {
      hide Valid, Grows, Roomy, Ran, Unsent, Arg;
      res := Deflate(Arg(buf));
    }

    method InflateCommand(buf: seq<Byte>) returns (res: int)
      requires Valid() && begun.kind == Inflating
      modifies this`stream, this`nextIn, this`availOut, this`written, this`kept, this`eaten, this`starved, this`calls, this`astray
      modifies this`bin, this`binsz, this`chunks, this`crc, this`summed, this`queue, this`taken, bin
      ensures Answers(INFLATE, buf, res) && Valid() && (bin == old(bin) || fresh(bin))
      ensures Grows() && Ran(Arg(buf), res) && Roomy(res < 0)
    {
      hide Valid, Grows, Roomy, Ran, Unsent, Arg;
      res := Inflate(Arg(buf));
    }

    lemma KindInDeflate(command: int, buf: seq<Byte>)
      requires Valid() && AcceptsDeflate(command, buf, mode) && !StartsStream(command)
      ensures mode == begun.kind == Deflating
    {
    }

    lemma KindInInflate(command: int, buf: seq<Byte>)
      requires Valid() && AcceptsInflate(command, buf, mode) && !StartsStream(command)
      ensures mode == begun.kind == Inflating
    {
    }

    lemma SpillsOnly(command: int, buf: seq<Byte>)
      ensures command != DEFLATE_PARAMS ==> Spill(command, buf) == 0
    {
    }

    method ParamsCommand(buf: seq<Byte>) returns (res: int)
      requires Valid() && AcceptsDeflate(DEFLATE_PARAMS, buf, mode)
      modifies this`stream, this`nextIn, this`eaten, this`astray, this`availOut, this`written, this`kept, this`lost, bin
      ensures Answers(DEFLATE_PARAMS, buf, res) && Valid() && Grows() && Roomy(true)
      ensures lost == old(lost) + old(Spill(DEFLATE_PARAMS, buf))
    {
      hide Valid, Grows, Roomy, Unsent, Conserved;
      res := Params(I32(buf, 0), I32(buf, 4));
    }

    method SyncCommand(buf: seq<Byte>) returns (res: int)
      requires Valid()
      modifies this`stream, this`nextIn, this`eaten, this`astray, this`availOut, this`written, this`kept, this`lost, this`origin, bin
      ensures Answers(INFLATE_SYNC, buf, res) && Valid() && Grows() && Roomy(false) && lost == old(lost)
    {
      hide Valid, Grows, Roomy, Unsent;
      res := Sync();
    }

    /** DEFLATE_PARAMS and DEFLATE. */
    method RunDeflate(command: int, buf: seq<Byte>) returns (res: int)
      requires Valid() && AcceptsDeflate(command, buf, mode) && (command == DEFLATE_PARAMS || command == DEFLATE)
      modifies this`stream, this`nextIn, this`availOut, this`written, this`kept, this`lost, this`eaten, this`starved, this`calls, this`astray, this`origin
      modifies this`bin, this`binsz, this`chunks, this`crc, this`summed, this`queue, this`taken, bin
      ensures Answers(command, buf, res)
      ensures Valid() && (bin == old(bin) || fresh(bin))
      ensures Grows()
      ensures Roomy(command == DEFLATE_PARAMS || (command == DEFLATE && res < 0))
      ensures command == DEFLATE ==> Ran(Arg(buf), res)
      ensures lost == old(lost) + old(Spill(command, buf))
    {
      KindInDeflate(command, buf);
      SpillsOnly(command, buf);
      hide AcceptsDeflate, AcceptsInflate, Valid, Unsent, Lawful, Related, Ran, Roomy, Grows, Arg, Answers, Spill;
      if command == DEFLATE_PARAMS {
        res := ParamsCommand(buf);
      } else {
        res := DeflateCommand(buf);
      }
    }

    /** The commands of the compressor. */
    method ControlDeflate(command: int, buf: seq<Byte>) returns (res: int)
      requires Valid() && AcceptsDeflate(command, buf, mode)
      modifies this, bin
      ensures Answers(command, buf, res)
      ensures Valid() && (bin == old(bin) || bin == null || fresh(bin))
      ensures Grows()
      ensures mode == ModeAfter(command, res, old(mode)) && (StartsStream(command) ==> binszNeed == old(binszNeed))
      ensures if StartsStream(command) && res == Z_OK then Begins(mode, Raw(command, buf)) && mode == Deflating else Counted(command, buf)
      ensures StartsStream(command) && SetsUp(codec) ==> res == Z_OK
      ensures DropsQueue(command) ==> queue == []
      ensures command == DEFLATE_PARAMS || command == DEFLATE || Quiet()
      ensures StartsStream(command) ==> queue == old(queue)
      ensures Roomy(command == DEFLATE_PARAMS || (command == DEFLATE && res < 0))
      ensures command == DEFLATE ==> Ran(Arg(buf), res)
      ensures lost == old(lost) + old(Spill(command, buf))
    {
      hide Answers, Valid, Roomy, Grows, Ran, Arg, Begins, Raw, Quiet, SetsUp;
      if StartsStream(command) {
        res := StartDeflate(command, buf);
      } else if command == DEFLATE_SETDICT || DropsQueue(command) {
        res := ResetDeflate(command, buf);
      } else {
        res := RunDeflate(command, buf);
      }
    }

    /** INFLATE_SYNC and INFLATE. */
    method RunInflate(command: int, buf: seq<Byte>) returns (res: int)
      requires Valid() && AcceptsInflate(command, buf, mode) && (command == INFLATE_SYNC || command == INFLATE)
      modifies this`stream, this`nextIn, this`availOut, this`written, this`kept, this`lost, this`eaten, this`starved, this`calls, this`astray, this`origin
      modifies this`bin, this`binsz, this`chunks, this`crc, this`summed, this`queue, this`taken, bin
      ensures Answers(command, buf, res)
      ensures Valid() && (bin == old(bin) || fresh(bin))
      ensures Grows()
      ensures Roomy(command == INFLATE && res < 0)
      ensures command == INFLATE ==> Ran(Arg(buf), res)
      ensures lost == old(lost)
    {
      KindInInflate(command, buf);
      hide AcceptsDeflate, AcceptsInflate, Valid, Unsent, Lawful, Related, Ran, Roomy, Grows, Arg, Answers;
      if command == INFLATE_SYNC {
        res := SyncCommand(buf);
      } else {
        res := InflateCommand(buf);
      }
    }

    /** The commands of the decompressor. */
    method ControlInflate(command: int, buf: seq<Byte>) returns (res: int)
      requires Valid() && AcceptsInflate(command, buf, mode)
      modifies this, bin
      ensures Answers(command, buf, res)
      ensures Valid() && (bin == old(bin) || bin == null || fresh(bin))
      ensures Grows()
      ensures mode == ModeAfter(command, res, old(mode)) && (StartsStream(command) ==> binszNeed == old(binszNeed))
      ensures if StartsStream(command) && res == Z_OK then Begins(mode, Raw(command, buf)) && mode == Inflating else Counted(command, buf)
      ensures StartsStream(command) && SetsUp(codec) ==> res == Z_OK
      ensures DropsQueue(command) ==> queue == []
      ensures command == INFLATE_SYNC || command == INFLATE || Quiet()
      ensures StartsStream(command) ==> queue == old(queue)
      ensures Roomy(command == INFLATE && res < 0)
      ensures command == INFLATE ==> Ran(Arg(buf), res)
      ensures lost == old(lost)
    {
      hide Answers, Valid, Roomy, Grows, Ran, Arg, Begins, Raw, Quiet, SetsUp;
      if StartsStream(command) {
        res := StartInflate(command, buf);
      } else if command == INFLATE_SETDICT || DropsQueue(command) {
        res := ResetInflate(command, buf);
      } else {
        res := RunInflate(command, buf);
      }
    }

    /** SET_BUFSZ. */
    method Resize(buf: seq<Byte>) returns (r: Reply)
      requires Valid() && AcceptsAlways(SET_BUFSZ, buf)
      modifies this`binszNeed, this`bin, this`binsz, this`availOut, this`chunks, this`skipped
      ensures Valid() && (bin == old(bin) || bin == null || fresh(bin))
      ensures Grows() && Roomy(false) && Counted(SET_BUFSZ, buf) && Reported(SET_BUFSZ, buf, r) && r == Code(Z_OK)
    {
      hide Valid, HasRoom, Arg, AcceptsDeflate, AcceptsInflate, Sent;
      SetBufsz(Arg(buf));
      r := Code(Z_OK);
    }

    lemma Asked()
      requires Valid()
      ensures |Flat(queue)| == |arrived| - |taken| && crc == Crc(codec, 0, summed)
    {
    }

    /** What the commands about buffers and checksums answer, by the numbers of zlib.erl. */
    ghost predicate Reported(command: int, buf: seq<Byte>, r: Reply)
      reads this`summed, this`binszNeed, this`arrived, this`taken
    {
      match command
      case 15 => r == Value(Crc(codec, 0, summed) % 0x1_0000_0000)
      case 16 => r == Value(Crc(codec, 0, buf) % 0x1_0000_0000)
      case 17 => |buf| >= 4 ==> r == Value(Crc(codec, I32(buf, 0), buf[4..]) % 0x1_0000_0000)
      case 18 => r == Code(Z_OK)
      case 19 => r == Value(binszNeed)
      case 20 => r == Value((|arrived| - |taken|) % 0x1_0000_0000)
      case _ => true
    }

    /** The commands that only ask. */
    method Ask(command: int, buf: seq<Byte>) returns (r: Reply)
      requires Valid() && AcceptsAlways(command, buf) && command != SET_BUFSZ
      ensures Reported(command, buf, r) && r.Value?
    {
      Asked();
      hide Valid, I32, Arg, Flat, Crc;
      if command == GET_QSIZE {
        r := Value(|Flat(queue)| % 0x1_0000_0000);
      } else if command == GET_BUFSZ {
        r := Value(binszNeed);
      } else if command == CRC32_0 {
        r := Value(crc % 0x1_0000_0000);
      } else if command == CRC32_1 {
        r := Value(Crc(codec, 0, buf) % 0x1_0000_0000);
      } else {
        r := Value(Crc(codec, I32(buf, 0), buf[4..]) % 0x1_0000_0000);
      }
    }

    /** The commands about buffers and checksums. */
    method ControlAlways(command: int, buf: seq<Byte>) returns (r: Reply)
      requires Valid() && AcceptsAlways(command, buf)
      modifies this`binszNeed, this`bin, this`binsz, this`availOut, this`chunks, this`skipped
      ensures Valid() && (bin == old(bin) || bin == null || fresh(bin))
      ensures Grows() && Roomy(false) && Counted(command, buf)
      ensures Reported(command, buf, r) && (r.Code? ==> r == Code(Z_OK))
    {
      hide Valid, HasRoom, Unsent, Arg, Reported;
      if command == SET_BUFSZ {
        r := Resize(buf);
      } else {
        r := Ask(command, buf);
      }
    }

    /** The number of bytes that bypassed the checksum is zero exactly if it covers what was sent. */
    lemma CoversIffNoneSkipped()
      requires Valid() && wantCrc && begun.kind == Inflating
      ensures Covers() <==> skipped == 0
    {
      hide Lawful, Related, Conserves, Queues, Sent;
      assert |Sent(chunks)[begun.sent..]| == |summed| + skipped;
    }

    lemma SummedUp()
      requires Valid()
      ensures wantCrc && begun.kind == Inflating ==> (Covers() <==> skipped == 0)
      ensures Conserved() <==> lost == 0
    {
      ConservedIffNoneLost();
      if wantCrc && begun.kind == Inflating {
        CoversIffNoneSkipped();
      }
    }

    /** What a command does.  One that does not fit the mode, or has arguments of the wrong length,
        changes nothing.  A successful init starts the counts afresh; every other command keeps
        them, except that reset and end drop what is queued, and that a new buffer size sends what
        the buffer holds past the checksum.  What is written where there is no buffer is lost. */
    twostate predicate Obeyed(command: int, buf: seq<Byte>, r: Reply)
      reads this, bin
    {
      && Grows()
      && (!Accepts(command, buf, old(mode)) ==> r == Code(Z_ERRNO) && Untouched())
      && (r.Code? && Accepts(command, buf, old(mode)) ==> mode == ModeAfter(command, r.code, old(mode)))
      && (if Restarts(command, buf, old(mode), r)
          then Begins(mode, Raw(command, buf)) && mode != Idle && binszNeed == old(binszNeed)
          else Counted(command, buf))
      && lost == old(lost) + old(Spill(command, buf))
      && (Accepts(command, buf, old(mode)) && DropsQueue(command) ==> queue == [])
      && (StartsStream(command) || DropsQueue(command) ==> Quiet() && (StartsStream(command) ==> queue == old(queue)))
      && (Accepts(command, buf, old(mode)) && StartsStream(command) && SetsUp(codec) ==> r == Code(Z_OK))
      && (Accepts(command, buf, old(mode)) && (command == DEFLATE || command == INFLATE) ==>
          r.Code? && Ran(Arg(buf), r.code))
      && (AcceptsDeflate(command, buf, old(mode)) || AcceptsInflate(command, buf, old(mode)) ==>
          r.Code? && Answers(command, buf, r.code))
      && Roomy(command == DEFLATE_PARAMS || ((command == DEFLATE || command == INFLATE) && r.Code? && r.code < 0))
      && (AcceptsAlways(command, buf) ==> Reported(command, buf, r) && InputKept() && mode == old(mode))
    }

    /** What a command does to the tallies behind the conservation laws. */
    twostate predicate Tallied(command: int, buf: seq<Byte>, r: Reply)
      reads this, bin
    {
      && lost == old(lost) + old(Spill(command, buf))
      && (!Restarts(command, buf, old(mode), r) ==>
          && begun == old(begun) && wantCrc == old(wantCrc)
          && skipped == old(skipped) + if Resizes(command, buf, old(binszNeed)) then |old(Unsent())| else 0)
    }

    method ObeyDeflate(command: int, buf: seq<Byte>) returns (r: Reply)
      requires Valid() && AcceptsDeflate(command, buf, mode)
      modifies this, bin
      ensures Valid() && (bin == old(bin) || bin == null || fresh(bin)) && Obeyed(command, buf, r) && Tallied(command, buf, r)
    {
      Groups(command, buf, mode);
      hide AcceptsDeflate, AcceptsInflate, AcceptsAlways, StartsStream, DropsQueue, Spill;
      hide Answers, Valid, Roomy, Grows, Untouched, Arg, Begins, Ran, Raw, Quiet, SetsUp, Unsent, Frees, Resizes, ModeAfter;
      var res := ControlDeflate(command, buf);
      r := Code(res);
    }

    method ObeyInflate(command: int, buf: seq<Byte>) returns (r: Reply)
      requires Valid() && AcceptsInflate(command, buf, mode)
      modifies this, bin
      ensures Valid() && (bin == old(bin) || bin == null || fresh(bin)) && Obeyed(command, buf, r) && Tallied(command, buf, r)
    {
      Groups(command, buf, mode);
      SpillsIn(command, buf);
      hide AcceptsDeflate, AcceptsInflate, AcceptsAlways, StartsStream, DropsQueue, Spill;
      hide Answers, Valid, Roomy, Grows, Untouched, Arg, Begins, Ran, Raw, Quiet, SetsUp, Unsent, Frees, Resizes, ModeAfter;
      var res := ControlInflate(command, buf);
      r := Code(res);
    }

    method ObeyAlways(command: int, buf: seq<Byte>) returns (r: Reply)
      requires Valid() && AcceptsAlways(command, buf)
      modifies this`binszNeed, this`bin, this`binsz, this`availOut, this`chunks, this`skipped
      ensures Valid() && (bin == old(bin) || bin == null || fresh(bin)) && Obeyed(command, buf, r) && Tallied(command, buf, r)
    {
      Groups(command, buf, mode);
      SpillsIn(command, buf);
      hide AcceptsDeflate, AcceptsInflate, AcceptsAlways, StartsStream, DropsQueue, Spill;
      hide Answers, Valid, Roomy, Grows, Untouched, Arg, Begins, Ran, Raw, Quiet, SetsUp, Unsent, Frees, Resizes, ModeAfter;
      r := ControlAlways(command, buf);
    }

    method BadArg(command: int, buf: seq<Byte>) returns (r: Reply)
      requires Valid() && !Accepts(command, buf, mode)
      ensures r == Code(Z_ERRNO) && Obeyed(command, buf, r) && Tallied(command, buf, r)
    {
      SpillsIn(command, buf);
      hide Answers, Valid, AcceptsDeflate, AcceptsInflate, AcceptsAlways, Spill;
      r := Code(Z_ERRNO);
    }

    /** zlib_ctl.  An expanded stream loses its checksum exactly when a new buffer size sends what
        the buffer holds.  Everything written was sent or is in the buffer until deflateParams
        writes where there is no buffer any more. */
    method Ctl(command: int, buf: seq<Byte>) returns (r: Reply)
      requires Valid()
      modifies this, bin
      ensures Valid() && (bin == old(bin) || bin == null || fresh(bin))
      ensures Obeyed(command, buf, r)
      ensures !Restarts(command, buf, old(mode), r) && wantCrc && begun.kind == Inflating ==>
        (Covers() <==> old(Covers()) && !(Resizes(command, buf, old(binszNeed)) && old(Unsent()) != []))
      ensures Conserved() <==> old(Conserved()) && old(Spill(command, buf)) == 0
    {
      SummedUp();
      hide Valid, Obeyed, Covers, Conserved, Spill, Restarts, Resizes, Unsent;
      hide AcceptsDeflate, AcceptsInflate, AcceptsAlways;
      if AcceptsDeflate(command, buf, mode) {
        r := ObeyDeflate(command, buf);
      } else if AcceptsInflate(command, buf, mode) {
        r := ObeyInflate(command, buf);
      } else if AcceptsAlways(command, buf) {
        r := ObeyAlways(command, buf);
      } else {
        r := BadArg(command, buf);
      }
      SummedUp();
    }
  }

  /** After a flush the checksum is that of all the codec expanded, if the stream began with an
      empty buffer and no buffer change lost it (see Ctl). */
  lemma ExpandedChecksum(d: ZLibData)
    requires d.Valid() && d.wantCrc && d.begun.kind == Inflating && d.Covers()
    requires d.Unsent() == [] && d.begun.sent == d.begun.kept
    ensures d.crc == Crc(d.codec, 0, d.written[d.begun.kept + d.begun.lost..])
  {
    assert Sent(d.chunks) == d.kept;
  }

  /** When the queue is empty, the checksum of a compressed stream is that of all that arrived,
      and the codec took just that unless it failed or was fed stale input. */
  lemma CompressedChecksum(d: ZLibData)
    requires d.Valid() && d.wantCrc && d.begun.kind == Deflating && d.queue == []
    ensures d.crc == Crc(d.codec, 0, d.arrived)
    ensures !d.astray ==> d.eaten == d.arrived
  {
    assert d.taken + [] == d.taken;
  }

  /** What was sent since the init is, by the codec's own account, what it made of the bytes that
      were taken from the queue, however these were cut into pieces and those into messages, if
      none of it was lost. */
  lemma SentIsHistory(d: ZLibData)
    requires d.Valid() && d.origin == Since(0, d.begun.kept + d.begun.lost) && !d.astray
    requires d.Unsent() == [] && d.begun.sent == d.begun.kept && d.lost == d.begun.lost
    ensures History(d.codec, d.stream, d.taken, Sent(d.chunks)[d.begun.sent..])
    ensures d.arrived == d.taken + Flat(d.queue)
  {
    assert Sent(d.chunks) == d.kept;
    assert d.eaten[0..] == d.taken;
  }
}
