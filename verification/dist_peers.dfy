/** What the receive loop makes of the messages of a peer, in whatever encoding they come. */
module DistPeers {
  import opened Bytes
  import opened Erlang
  import opened ExternalFormat
  import opened ExternalEncodings
  import opened DistMessages

  /** A message: its header, in some encoding, and what follows the header in the packet. */
  datatype Message = Message(header: Encoding, trailer: seq<Byte>)

  predicate Proper(m: Message) {
    WellFormed(m.header) && |Written(m.header)| + |m.trailer| < 0x7fff_ffff
  }

  function BodyOf(m: Message): seq<Byte>
    requires Proper(m)
  {
    [112] + (Written(m.header) + m.trailer)
  }

  /** What the loop does with a message: only the header's value counts. */
  function Meaning(m: Message, f: Flags): Action {
    OnHeader(Ok(Value(m.header), m.trailer), f)
  }

  lemma MessageDispatched(m: Message, f: Flags)
    requires Proper(m)
    ensures Dispatch(BodyOf(m), f) == Meaning(m, f)
  {
    hide ReadAny, Written, OnHeader, Value;
    EncodingRead(m.header, m.trailer);
    assert BodyOf(m)[1..] == Written(m.header) + m.trailer;
  }

  // ---- Single messages ----

  // A header starts with a number v. Only its low 32 bits are the tag.

  /** EXIT and EXIT2 of a peer, with or without trace token, are understood exactly if the reason
      is an atom; with any other reason, true and false included, the loop takes them for
      garbage and ends the connection. */
  lemma PeerExitIff(m: Message, f: Flags, v: int, from: Pid, to: Pid, reason: Term)
    requires Proper(m)
    requires (Signed32(v) in {3, 8} && Value(m.header) == Tuple([Long(v), PidTerm(from), PidTerm(to), reason]))
          || (Signed32(v) in {13, 18} && exists token ::
                Value(m.header) == Tuple([Long(v), PidTerm(from), PidTerm(to), token, reason]))
    ensures Dispatch(BodyOf(m), f) ==
            if reason.Atom? then Deliver(InExit(Signed32(v), Some(from), Some(to), reason.name)) else Stop(Garbage)
  {
    hide Value;
    MessageDispatched(m, f);
  }

  lemma PeerLink(m: Message, f: Flags, v: int, from: Pid, to: Pid)
    requires Proper(m) && Signed32(v) in {1, 4}
    requires Value(m.header) == Tuple([Long(v), PidTerm(from), PidTerm(to)])
    ensures Dispatch(BodyOf(m), f) == Deliver(InLink(Signed32(v), Some(from), Some(to)))
  {
    hide Value;
    MessageDispatched(m, f);
  }

  /** SEND and REG_SEND after the handshake, with or without trace token: the cookie field may be
      anything, and what follows the header is handed on. */
  lemma PeerSend(m: Message, f: Flags, v: int, cookie: Term, to: Pid)
    requires Proper(m) && f.cookieOk
    requires (Signed32(v) == 2 && Value(m.header) == Tuple([Long(v), cookie, PidTerm(to)]))
          || (Signed32(v) == 12 && exists token :: Value(m.header) == Tuple([Long(v), cookie, PidTerm(to), token]))
    ensures Dispatch(BodyOf(m), f) == Deliver(InSend(Some(to), m.trailer))
  {
    hide Value;
    MessageDispatched(m, f);
  }

  lemma PeerRegSend(m: Message, f: Flags, v: int, from: Pid, cookie: Term, name: string)
    requires Proper(m) && f.cookieOk
    requires (Signed32(v) == 6 && Value(m.header) == Tuple([Long(v), PidTerm(from), cookie, Atom(name)]))
          || (Signed32(v) == 16 && exists token ::
                Value(m.header) == Tuple([Long(v), PidTerm(from), cookie, Atom(name), token]))
    ensures Dispatch(BodyOf(m), f) == Deliver(InRegSend(Some(from), name, m.trailer))
  {
    hide Value;
    MessageDispatched(m, f);
  }

  /** MONITOR_P and DEMONITOR_P are understood exactly if the monitored process is named by its
      pid; a registered name ends the connection. MONITOR_P_EXIT comes with its reason, which is
      dropped, and from a pid. */
  lemma PeerMonitorIff(m: Message, f: Flags, v: int, from: Term, to: Term, ref: Ref)
    requires Proper(m)
    requires (Signed32(v) in {19, 20} && Value(m.header) == Tuple([Long(v), from, to, RefTerm(ref)]))
          || (Signed32(v) == 21 && exists reason :: Value(m.header) == Tuple([Long(v), from, to, RefTerm(ref), reason]))
    ensures Dispatch(BodyOf(m), f) ==
            if from.PidTerm? && to.PidTerm?
            then Deliver(InMonitor(Signed32(v), Some(from.pid), Some(to.pid), Some(ref)))
            else Stop(Exception)
  {
    hide Value;
    MessageDispatched(m, f);
  }

  /** NODE_LINK and GROUP_LEADER are ignored, whatever they hold. */
  lemma PeerIgnored(m: Message, f: Flags, v: int, more: seq<Term>)
    requires Proper(m) && Signed32(v) in {5, 7} && Value(m.header) == Tuple([Long(v)] + more)
    ensures Dispatch(BodyOf(m), f) == Ignore
  {
    hide Value;
    MessageDispatched(m, f);
  }

  // ---- Streams ----

  datatype Item = Tick | Frame(m: Message)

  predicate AllProper(items: seq<Item>) {
    forall i :: i in items ==> i.Frame? ==> Proper(i.m)
  }

  function Stream(items: seq<Item>): seq<Byte>
    requires AllProper(items)
  {
    if items == [] then []
    else (match items[0] case Tick => Packet([]) case Frame(m) => Packet(BodyOf(m))) + Stream(items[1..])
  }

  /** The fold of the meanings. */
  function Understood(items: seq<Item>, f: Flags): Progress {
    if items == [] then Progress([], 0, f, None)
    else match items[0]
      case Tick =>
        var p := Understood(items[1..], f);
        p.(tocks := p.tocks + 1)
      case Frame(m) =>
        var a := Meaning(m, f);
        match a
        case Stop(why) => Progress([], 0, f, Some(why))
        case Ignore => Understood(items[1..], f)
        case Deliver(msg) =>
          var p := Understood(items[1..], FlagsAfter(f, a));
          p.(delivered := [msg] + p.delivered)
  }

  function Bodies(items: seq<Item>): seq<seq<Byte>>
    requires AllProper(items)
  {
    if items == [] then []
    else [match items[0] case Tick => [] case Frame(m) => BodyOf(m)] + Bodies(items[1..])
  }

  lemma {:induction false} StreamIsFrames(items: seq<Item>)
    requires AllProper(items)
    ensures Stream(items) == Frames(Bodies(items))
    ensures forall b :: b in Bodies(items) ==> |b| < 0x8000_0000
  {
    hide Packet, Written;
    if items != [] {
      assert items[0] in items;
      StreamIsFrames(items[1..]);
    }
  }

  lemma {:induction false} BodiesUnderstood(items: seq<Item>, f: Flags)
    requires AllProper(items)
    ensures Handle(Bodies(items), f) == Understood(items, f)
  {
    hide Dispatch, Meaning, Written;
    if items != [] {
      assert items[0] in items;
      match items[0] {
        case Tick => BodiesUnderstood(items[1..], f);
        case Frame(m) =>
          MessageDispatched(m, f);
          BodiesUnderstood(items[1..], FlagsAfter(f, Meaning(m, f)));
      }
    }
  }

  /** For any messages and ticks of a peer, in any encodings, and whatever comes after them: the
      loop delivers their meanings, in order, and answers the ticks, up to a message that ends
      the connection. */
  lemma ReceivePeer(items: seq<Item>, f: Flags, rest: seq<Byte>)
    requires AllProper(items)
    ensures Receive(Stream(items) + rest, f) == Onward(Understood(items, f), rest)
  {
    hide Receive, Handle, Understood, Stream, Frames, Bodies;
    StreamIsFrames(items);
    BodiesUnderstood(items, f);
    ReceiveFrames(Bodies(items), f, rest);
  }
}
