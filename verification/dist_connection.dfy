/** The sending methods and the receive loop of AbstractConnection.cs over a socket that hands
    out its bytes in arbitrary pieces. */
module DistConnection {
  import opened Bytes
  import opened Erlang
  import opened OtpIds
  import opened ExternalFormat
  import opened DistMessages
  import opened OtpStreams

  /** A connected socket: the bytes still to arrive before the peer closes, and those written. */
  class Socket {
    var inp: seq<Byte>
    var out: seq<Byte>

    constructor (inp: seq<Byte>)
      ensures this.inp == inp && out == []
    {
      this.inp, out := inp, [];
    }

    /** NetworkStream.Read: between one and n bytes, or none once the peer has closed. */
    method Read(n: nat) returns (b: seq<Byte>)
      requires n > 0
      modifies this
      ensures |b| <= n && (old(inp) != [] ==> b != [])
      ensures old(inp) == b + inp && out == old(out)
    {
      if inp == [] {
        return [];
      }
      var k: nat :| 1 <= k <= n && k <= |inp|;
      b := inp[..k];
      inp := inp[k..];
    }

    method Write(b: seq<Byte>)
      modifies this
      ensures out == old(out) + b && inp == old(inp)
    {
      out := out + b;
    }
  }

  /** n answers to ticks. */
  function Tocks(n: nat): seq<Byte> {
    if n == 0 then [] else [0, 0, 0, 0] + Tocks(n - 1)
  }

  /** What was received before, and then an outcome. */
  function Then(ms: seq<Incoming>, n: nat, o: Outcome): Outcome {
    Outcome(ms + o.delivered, n + o.tocks, o.why)
  }

  /** The part of a message that goes into the header stream, and the payload. */
  function HeadOf(m: Outgoing, shown: string): seq<Byte>
    requires Representable(Header(m, shown))
  {
    [PASS_THROUGH, VERSION] + Encode(Header(m, shown)) + if m.Send? || m.RegSend? then [VERSION] else []
  }

  function PayloadOf(m: Outgoing): seq<Byte> {
    if m.Send? || m.RegSend? then m.payload else []
  }

  lemma BodyParts(m: Outgoing, shown: string)
    requires Representable(Header(m, shown))
    ensures Body(m, shown) == HeadOf(m, shown) + PayloadOf(m)
  {
    hide Encode, Header;
  }

  lemma StopKeepsFlags(f: Flags, why: Why)
    ensures FlagsAfter(f, Stop(why)) == f
  {
  }

  lemma Drop4(b: seq<Byte>, s: seq<Byte>)
    requires |b| == 4
    ensures (b + s)[4..] == s
  {
  }

  /** The pass-through byte and the header term of a packet body. */
  method ReadHeader(tmpbuf: seq<Byte>) returns (passed: bool, tmp: Option<Term>, rest: seq<Byte>)
    requires tmpbuf != []
    ensures passed <==> tmpbuf[0] == PASS_THROUGH
    ensures passed ==> Did(ReadAny(tmpbuf[1..]), tmp, rest)
  {
    hide ReadAny;
    var ibuf := new OtpInputStream(tmpbuf);
    var first := ibuf.Read1();
    if first != Some(PASS_THROUGH) {
      return false, None, [];
    }
    assert ibuf.Rest() == tmpbuf[1..];
    tmp := ibuf.ReadAny();
    return true, tmp, ibuf.buf[ibuf.pos..];
  }

  class AbstractConnection {
    const socket: Socket
    const self: OtpLocalNode
    const cookie: string
    var cookieOk: bool
    var sendCookie: bool
    var delivered: seq<Incoming>         // what was handed to deliver(OtpMsg)

    function FlagsNow(): Flags
      reads this
    {
      Flags(cookieOk, sendCookie, cookie)
    }

    /** The connection after its handshake. */
    constructor (socket: Socket, self: OtpLocalNode, cookie: string)
      ensures this.socket == socket && this.self == self && delivered == [] && FlagsNow() == Flags(true, false, cookie)
    {
      this.socket, this.self, this.cookie, cookieOk, sendCookie, delivered := socket, self, cookie, true, false, [];
    }

    /** The six send methods. */
    method Send(m: Outgoing)
      requires Representable(Header(m, if sendCookie then cookie else ""))
      modifies socket
      ensures socket.out == old(socket.out) + Packet(Body(m, if sendCookie then cookie else ""))
      ensures socket.inp == old(socket.inp)
    {
      SendShowing(m, if sendCookie then cookie else "");
    }

    /** A header stream whose length field is filled in at the end, then the payload. */
    method SendShowing(m: Outgoing, shown: string)
      requires Representable(Header(m, shown))
      modifies socket
      ensures socket.out == old(socket.out) + Packet(Body(m, shown))
      ensures socket.inp == old(socket.inp)
    {
      hide Encode, BE4, Header, Body, HeadOf;
      var header := new OtpOutputStream(2048);
      WriteHeader(header, m, shown);
      var payload := PayloadOf(m);
      FixLength(header, |payload|);
      BodyParts(m, shown);
      ghost var head := HeadOf(m, shown);
      assert header.Contents() == BE4(|head| + |payload|) + head by { Drop4(BE4(0), head); }
      socket.Write(header.buf[..header.count]);
      socket.Write(payload);
    }

    /** cookieError: the peer is sent an error from a disposable pid, under his own cookie. */
    method CookieError(theirs: string)
      requires self.Valid() && NodeName(self.node) && Representable(Atom(theirs))
      modifies socket, self
      ensures socket.inp == old(socket.inp)
      ensures socket.out == old(socket.out) +
              Goodbye(BadCookie(theirs), self.node, PidAt(self.node, self.creation, old(self.pids)))
    {
      hide Header, Body, Packet, Encode, Representable, AuthTerm;
      HeaderRepresentable(self.node, self.pids, self.creation, theirs);
      AuthRepresentable(self.node);
      var pid := self.CreatePid();
      var payload := Encoded(AuthTerm(self.node));
      SendShowing(RegSend(pid, AUTH, payload), theirs);
    }

    /** The constructor of OtpOutputStream on a term. */
    method Encoded(t: Term) returns (b: seq<Byte>)
      requires Representable(t)
      ensures b == Encode(t)
    {
      hide Encode, Representable;
      var payload := new OtpOutputStream(2048);
      payload.WriteAny(t);
      b := payload.buf[..payload.count];
    }

    method WriteHeader(header: OtpOutputStream, m: Outgoing, shown: string)
      requires header.Valid() && header.Contents() == [] && Representable(Header(m, shown))
      modifies header, header.buf
      ensures header.Valid() && header.Contents() == BE4(0) + HeadOf(m, shown)
      ensures header.buf == old(header.buf) || fresh(header.buf)
    {
      hide Encode, BE4, Header;
      header.Write4BE(0);
      header.Write(PASS_THROUGH);
      header.Write(VERSION);
      header.WriteAny(Header(m, shown));
      if m.Send? || m.RegSend? {
        header.Write(VERSION);
      }
      assert header.Contents() == BE4(0) + HeadOf(m, shown);
    }

    /** header.poke4BE(0, header.count() + payload.count() - 4) */
    method FixLength(header: OtpOutputStream, payload: nat)
      requires header.Valid() && 4 <= header.count
      modifies header.buf
      ensures header.Contents() == BE4(|old(header.Contents())| + payload - 4) + old(header.Contents())[4..]
    {
      hide BE4;
      ghost var before := header.Contents();
      var _ := header.Poke4BE(0, header.count + payload - 4);
      assert Poked(before, 0, BE4(|before| + payload - 4)) == BE4(|before| + payload - 4) + before[4..];
    }

    /** readSock: reads until len bytes are there; None for the IOException at the end of the
        stream. */
    method ReadSock(len: nat) returns (b: Option<seq<Byte>>)
      modifies socket
      ensures socket.out == old(socket.out)
      ensures if len <= |old(socket.inp)|
              then b == Some(old(socket.inp)[..len]) && socket.inp == old(socket.inp)[len..]
              else b == None
    {
      var got: seq<Byte> := [];
      while |got| < len
        invariant |got| <= len && got + socket.inp == old(socket.inp)
        invariant socket.out == old(socket.out)
      {
        var i := socket.Read(len - |got|);
        if i == [] {
          return None;
        }
        got := got + i;
      }
      return Some(got);
    }

    /** What is written after a packet: the answer to a bad cookie. */
    function Answer(a: Action, pid: Pid): seq<Byte>
      requires NodeName(self.node)
    {
      if a.Stop? then Goodbye(a.why, self.node, pid) else []
    }

    /** The part of the loop body that handles one packet. */
    method HandleBody(tmpbuf: seq<Byte>) returns (a: Action)
      requires tmpbuf != [] && self.Valid() && NodeName(self.node)
      modifies this, socket, self
      ensures a == Dispatch(tmpbuf, old(FlagsNow())) && FlagsNow() == FlagsAfter(old(FlagsNow()), a)
      ensures delivered == old(delivered) + if a.Deliver? then [a.msg] else []
      ensures socket.inp == old(socket.inp) && (!a.Stop? ==> self.Valid() && self.pids == old(self.pids))
      ensures socket.out == old(socket.out) + Answer(a, PidAt(self.node, self.creation, old(self.pids)))
    {
      hide ReadAny, OnHeader, FlagsAfter, Representable, PidAt;
      var passed, tmp, rest := ReadHeader(tmpbuf);
      if !passed {
        StopKeepsFlags(FlagsNow(), Garbage);
        return Stop(Garbage);
      }
      BadCookiePlain(tmpbuf, FlagsNow());
      a := HandleHeader(tmp, rest, ReadAny(tmpbuf[1..]));
    }

    method HandleHeader(tmp: Option<Term>, rest: seq<Byte>, ghost header: Read<Term>) returns (a: Action)
      requires Did(header, tmp, rest) && self.Valid() && NodeName(self.node)
      requires var a := OnHeader(header, FlagsNow()); a.Stop? && a.why.BadCookie? ==> Representable(Atom(a.why.cookie))
      modifies this, socket, self
      ensures a == OnHeader(header, old(FlagsNow())) && FlagsNow() == FlagsAfter(old(FlagsNow()), a)
      ensures delivered == old(delivered) + if a.Deliver? then [a.msg] else []
      ensures socket.inp == old(socket.inp) && (!a.Stop? ==> self.Valid() && self.pids == old(self.pids))
      ensures socket.out == old(socket.out) + Answer(a, PidAt(self.node, self.creation, old(self.pids)))
    {
      hide Switch, Representable, PidAt, Header, Body;
      if tmp == None || tmp.value.NullTuple? {
        return Stop(Exception);
      }
      if !tmp.value.Tuple? {
        return Stop(Garbage);
      }
      var head := tmp.value.elems;
      if head == [] {
        return Stop(Exception);
      }
      if !head[0].Long? {
        return Stop(Garbage);
      }
      a := Switch(head, rest, FlagsNow());
      if a.Stop? && a.why.BadCookie? {
        CookieError(a.why.cookie);
      }
      if a.Deliver? {
        if a.msg.InSend? || a.msg.InRegSend? {
          cookieOk := true;
        }
        delivered := delivered + [a.msg];
      }
    }

    /** Start: the receive loop. However the socket cuts the stream, the messages delivered, the
        answers to ticks and the one to a bad cookie are those of Receive. */
    method Start() returns (why: Why)
      requires self.Valid() && NodeName(self.node)
      modifies this, socket, self
      ensures var o := Receive(old(socket.inp), old(FlagsNow()));
              && delivered == old(delivered) + o.delivered
              && socket.out == old(socket.out) + Tocks(o.tocks)
                 + Goodbye(o.why, self.node, PidAt(self.node, self.creation, old(self.pids)))
              && why == o.why
    {
      hide Dispatch, Read4BE, PidAt, Header, Body, Packet, Representable;
      ghost var tocks := 0;
      ghost var taken: seq<Incoming> := [];
      ghost var whole := Receive(socket.inp, FlagsNow());
      assert Then([], 0, whole) == whole by { assert [] + whole.delivered == whole.delivered; }
      while true
        invariant whole == Then(taken, tocks, Receive(socket.inp, FlagsNow()))
        invariant delivered == old(delivered) + taken
        invariant self.Valid() && self.pids == old(self.pids)
        invariant socket.out == old(socket.out) + Tocks(tocks)
        decreases |socket.inp|
      {
        ghost var inp := socket.inp;
        var lbuf := ReadSock(4);
        if lbuf == None {
          return EndOfStream;
        }
        var len := FromLength(lbuf.value, inp);
        if len == 0 {
          OneTock(taken, tocks, Receive(socket.inp, FlagsNow()));
          socket.Write([0, 0, 0, 0]);
          tocks := tocks + 1;
        } else if len < 0 {
          return Exception;
        } else {
          var tmpbuf := ReadSock(len);
          if tmpbuf == None {
            return EndOfStream;
          }
          var a := HandleBody(tmpbuf.value);
          if a.Stop? {
            return a.why;
          }
          if a.Deliver? {
            OneMessage(taken, tocks, a.msg, Receive(socket.inp, FlagsNow()));
            taken := taken + [a.msg];
          }
        }
      }
    }
  }

  /** read4BE on the length buffer. */
  method FromLength(lbuf: seq<Byte>, ghost inp: seq<Byte>) returns (len: int)
    requires 4 <= |inp| && lbuf == inp[..4]
    ensures len == Read4BE(inp).value
  {
    hide Signed32, FromBE4;
    len := Signed32(FromBE4(lbuf[0], lbuf[1], lbuf[2], lbuf[3]));
  }

  lemma {:induction false} TocksEnd(n: nat)
    ensures Tocks(n) + [0, 0, 0, 0] == Tocks(n + 1)
  {
    if n > 0 {
      TocksEnd(n - 1);
    }
  }

  /** A tock is what the other side sends for a tick: an empty packet. */
  lemma {:induction false} TocksAreTicks(n: nat)
    ensures Tocks(n) == Wire(seq(n, _ => Tick), "")
  {
    if n > 0 {
      TocksAreTicks(n - 1);
      assert seq(n, _ => Item.Tick)[1..] == seq(n - 1, _ => Item.Tick);
    }
  }

  lemma OneTock(ms: seq<Incoming>, n: nat, o: Outcome)
    ensures Then(ms, n, Tocked(o)) == Then(ms, n + 1, o)
    ensures Tocks(n) + [0, 0, 0, 0] == Tocks(n + 1)
  {
    TocksEnd(n);
  }

  lemma OneMessage(ms: seq<Incoming>, n: nat, msg: Incoming, o: Outcome)
    ensures Then(ms, n, Delivered(msg, o)) == Then(ms + [msg], n, o)
  {
    assert ms + ([msg] + o.delivered) == ms + [msg] + o.delivered;
  }
}
