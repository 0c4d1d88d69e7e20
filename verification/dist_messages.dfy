/** Messages on a connection: what the send methods of AbstractConnection put on the socket and
    what its receive loop makes of the bytes that arrive. */
module DistMessages {
  import opened Bytes
  import opened Erlang
  import opened OtpIds
  import opened ExternalFormat
  import opened ExternalRoundTrip

  const PASS_THROUGH: Byte := 0x70

  // ---- Sending ----

  /** A call of sendBuf (to a pid or to a name), sendLink, sendUnlink, sendExit or sendExit2. The
      payload is an encoded term. */
  datatype Outgoing =
    | Send(to: Pid, payload: seq<Byte>)
    | RegSend(from: Pid, name: string, payload: seq<Byte>)
    | Link(from: Pid, to: Pid)
    | Unlink(from: Pid, to: Pid)
    | Exit(from: Pid, to: Pid, reason: string)
    | Exit2(from: Pid, to: Pid, reason: string)

  /** The header tuple. The cookie field shows the cookie only as long as sendCookie is set. */
  function Header(m: Outgoing, shown: string): Term {
    match m
    case Send(to, _) => Tuple([Long(2), Atom(shown), PidTerm(to)])
    case RegSend(from, name, _) => Tuple([Long(6), PidTerm(from), Atom(shown), Atom(name)])
    case Link(from, to) => Tuple([Long(1), PidTerm(from), PidTerm(to)])
    case Unlink(from, to) => Tuple([Long(4), PidTerm(from), PidTerm(to)])
    case Exit(from, to, reason) => Tuple([Long(3), PidTerm(from), PidTerm(to), Str(reason)])
    case Exit2(from, to, reason) => Tuple([Long(8), PidTerm(from), PidTerm(to), Str(reason)])
  }

  /** What follows the header: for the two sends a version byte and the payload. */
  function Trailer(m: Outgoing): seq<Byte> {
    match m
    case Send(_, payload) => [VERSION] + payload
    case RegSend(_, _, payload) => [VERSION] + payload
    case _ => []
  }

  function Body(m: Outgoing, shown: string): seq<Byte>
    requires Representable(Header(m, shown))
  {
    [PASS_THROUGH, VERSION] + Encode(Header(m, shown)) + Trailer(m)
  }

  /** A packet: four bytes of length and the body. An empty body is a tick. */
  function Packet(body: seq<Byte>): seq<Byte> {
    BE4(|body|) + body
  }

  // ---- Receiving ----

  /** What is handed to deliver(OtpMsg). A header shorter than its message leaves null (None) in
      the places it lacks. */
  datatype Incoming =
    | InSend(to: Option<Pid>, payload: seq<Byte>)
    | InRegSend(from: Option<Pid>, name: string, payload: seq<Byte>)
    | InExit(tag: int, from: Option<Pid>, to: Option<Pid>, reason: string)
    | InLink(tag: int, from: Option<Pid>, to: Option<Pid>)
    | InMonitor(tag: int, from: Option<Pid>, to: Option<Pid>, ref: Option<Ref>)

  /** Why the loop ends: garbage from the peer, a bad cookie, an exception, or no more bytes. */
  datatype Why = Garbage | BadCookie(cookie: string) | Exception | EndOfStream

  datatype Action = Deliver(msg: Incoming) | Ignore | Stop(why: Why)

  /** cookieOk, sendCookie and auth_cookie of the connection. */
  datatype Flags = Flags(cookieOk: bool, sendCookie: bool, cookie: string)

  /** elementAt: null past the end. */
  function At(es: seq<Term>, i: nat): Option<Term> {
    if i < |es| then Some(es[i]) else None
  }

  /** A cast to Erlang.Pid lets null and pids pass. */
  predicate PidOrNull(t: Option<Term>) {
    t.Some? ==> t.value.PidTerm?
  }

  function AsPid(t: Option<Term>): Option<Pid>
    requires PidOrNull(t)
  {
    if t == None then None else Some(t.value.pid)
  }

  /** The cookie check of the first send or reg_send. */
  function CheckCookie(f: Flags, cookie: Option<Term>): Option<Why> {
    if f.cookieOk then None
    else if cookie == None || !cookie.value.Atom? then Some(Garbage)
    else if cookie.value.name == (if f.sendCookie then f.cookie else "") then None
    else Some(BadCookie(cookie.value.name))
  }

  /** The switch of the receive loop on the header; `rest` follows the header in the packet. The
      cast of the tag to an enum keeps its low 32 bits. */
  function Switch(es: seq<Term>, rest: seq<Byte>, f: Flags): Action
    requires es != [] && es[0].Long?
  {
    var tag := Signed32(es[0].val);
    if tag == 2 || tag == 12 then
      var bad := CheckCookie(f, At(es, 1));
      if bad.Some? then Stop(bad.value)
      else if PidOrNull(At(es, 2)) then Deliver(InSend(AsPid(At(es, 2)), rest))
      else Stop(Exception)
    else if tag == 6 || tag == 16 then
      var bad := CheckCookie(f, At(es, 2));
      if bad.Some? then Stop(bad.value)
      else if PidOrNull(At(es, 1)) && At(es, 3).Some? && es[3].Atom?
      then Deliver(InRegSend(AsPid(At(es, 1)), es[3].name, rest))
      else Stop(Exception)
    else if tag == 3 || tag == 8 then ExitSwitch(es, 3)
    else if tag == 13 || tag == 18 then ExitSwitch(es, 4)
    else if tag == 1 || tag == 4 then
      if PidOrNull(At(es, 1)) && PidOrNull(At(es, 2))
      then Deliver(InLink(tag, AsPid(At(es, 1)), AsPid(At(es, 2))))
      else Stop(Exception)
    else if tag == 7 || tag == 5 then Ignore
    else if tag == 19 || tag == 20 || tag == 21 then
      if PidOrNull(At(es, 1)) && PidOrNull(At(es, 2)) && (At(es, 3).Some? ==> es[3].RefTerm?)
      then Deliver(InMonitor(tag, AsPid(At(es, 1)), AsPid(At(es, 2)), if At(es, 3) == None then None else Some(es[3].ref)))
      else Stop(Exception)
    else Stop(Garbage)
  }

  /** The exit messages; their reason must be an atom. */
  function ExitSwitch(es: seq<Term>, reasonAt: nat): Action
    requires es != [] && es[0].Long?
  {
    if !(At(es, reasonAt).Some? && es[reasonAt].Atom?) then Stop(Garbage)
    else if PidOrNull(At(es, 1)) && PidOrNull(At(es, 2))
    then Deliver(InExit(Signed32(es[0].val), AsPid(At(es, 1)), AsPid(At(es, 2)), es[reasonAt].name))
    else Stop(Exception)
  }

  /** What the loop does with one non-empty packet body. A NullTuple is a Tuple, but asking for
      its elements throws. */
  function Dispatch(body: seq<Byte>, f: Flags): Action
    requires body != []
  {
    if body[0] != PASS_THROUGH then Stop(Garbage) else OnHeader(ReadAny(body[1..]), f)
  }

  function OnHeader(header: Read<Term>, f: Flags): Action {
    if header.Fail? || header.value.NullTuple? then Stop(Exception)
    else if !header.value.Tuple? then Stop(Garbage)
    else
      var es := header.value.elems;
      if es == [] then Stop(Exception)
      else if !es[0].Long? then Stop(Garbage)
      else Switch(es, header.rest, f)
  }

  /** A send or reg_send that passes its check switches the check off. */
  function FlagsAfter(f: Flags, a: Action): Flags {
    if a.Deliver? && (a.msg.InSend? || a.msg.InRegSend?) then f.(cookieOk := true) else f
  }

  /** A whole run of the receive loop over the bytes that arrive before the end of the stream:
      what is delivered, how many tocks are written, and why the loop ends. */
  datatype Outcome = Outcome(delivered: seq<Incoming>, tocks: nat, why: Why)

  function Tocked(o: Outcome): Outcome {
    o.(tocks := o.tocks + 1)
  }

  function Delivered(msg: Incoming, o: Outcome): Outcome {
    o.(delivered := [msg] + o.delivered)
  }

  function Receive(bytes: seq<Byte>, f: Flags): Outcome
    decreases |bytes|
  {
    if |bytes| < 4 then Outcome([], 0, EndOfStream)
    else
      var len := Read4BE(bytes).value;
      var after := bytes[4..];
      if len == 0 then Tocked(Receive(after, f))
      else if len < 0 then Outcome([], 0, Exception)
      else if len > |after| then Outcome([], 0, EndOfStream)
      else
        var a := Dispatch(after[..len], f);
        match a
        case Stop(why) => Outcome([], 0, why)
        case Ignore => Receive(after[len..], f)
        case Deliver(msg) => Delivered(msg, Receive(after[len..], FlagsAfter(f, a)))
  }

  // ---- The answer to a bad cookie ----

  const AUTH := "auth"

  /** {$gen_cast, {print, Text, []}} */
  function AuthTerm(node: string): Term {
    Tuple([Atom("$gen_cast"), Tuple([Atom("print"), Str("~n** Bad cookie sent to " + node + " **~n"), List([])])])
  }

  /** A node name short enough that the answer naming it has a length. */
  predicate NodeName(node: string) {
    PlainText(node) && |node| < 0x7fff_0000
  }

  lemma AuthRepresentable(node: string)
    requires NodeName(node)
    ensures Representable(AuthTerm(node))
  {
    var text := "~n** Bad cookie sent to " + node + " **~n";
    assert PlainText(text);
    var inner := [Atom("print"), Str(text), List([])];
    assert forall e :: e in inner ==> Representable(e);
    assert Representable(Tuple(inner));
    var outer := [Atom("$gen_cast"), Tuple(inner)];
    assert forall e :: e in outer ==> Representable(e);
  }

  /** What cookieError sends: a reg_send from a disposable pid that shows the peer his own cookie. */
  function AuthError(node: string, pid: Pid): Outgoing
    requires NodeName(node)
  {
    AuthRepresentable(node);
    RegSend(pid, AUTH, Encode(AuthTerm(node)))
  }

  /** Every atom that is read can be written. */
  lemma AtomsPlain(bs: seq<Byte>)
    ensures var r := ReadAny(bs); r.Ok? && r.value.Atom? ==> Representable(r.value)
  {
  }

  lemma {:induction false} ElementsPlain(n: nat, bs: seq<Byte>)
    ensures var r := ReadMany(n, bs);
            r.Ok? ==> forall e :: e in r.value && e.Atom? ==> Representable(e)
  {
    hide ReadAny, Representable;
    if n > 0 {
      AtomsPlain(bs);
      var x := ReadAny(bs);
      if x.Ok? {
        ElementsPlain(n - 1, x.rest);
      }
    }
  }

  lemma TuplePlain(bs: seq<Byte>)
    ensures var r := ReadAny(bs);
            r.Ok? && r.value.Tuple? ==> forall e :: e in r.value.elems && e.Atom? ==> Representable(e)
  {
    hide ReadMany, Representable;
    var at := if bs != [] && bs[0] == VERSION then bs[1..] else bs;
    if at != [] && (at[0] == SMALL_TUPLE || at[0] == LARGE_TUPLE) {
      var head := ReadTupleHead(at);
      if head.Ok? && head.value >= 0 {
        ElementsPlain(head.value, head.rest);
      }
    }
  }

  /** The refused cookie can be sent back. */
  lemma BadCookiePlain(body: seq<Byte>, f: Flags)
    requires body != []
    ensures var a := Dispatch(body, f);
            a.Stop? && a.why.BadCookie? ==> Representable(Atom(a.why.cookie)) && !f.cookieOk
  {
    hide ReadAny, Representable;
    TuplePlain(body[1..]);
  }

  lemma HeaderRepresentable(node: string, n: nat, creation: int, cookie: string)
    requires NodeName(node) && Representable(Atom(cookie))
    ensures Representable(Header(AuthError(node, PidAt(node, creation, n)), cookie))
  {
    var pid := PidAt(node, creation, n);
    assert PlainText(AUTH);
    var es := [Long(6), PidTerm(pid), Atom(cookie), Atom(AUTH)];
    assert forall e :: e in es ==> Representable(e);
  }

  /** What is written when the loop ends: the answer to a bad cookie. */
  function Goodbye(why: Why, node: string, pid: Pid): seq<Byte>
    requires NodeName(node)
  {
    if why.BadCookie? && Representable(Header(AuthError(node, pid), why.cookie))
    then Packet(Body(AuthError(node, pid), why.cookie)) else []
  }

  /** Every bad cookie is answered. */
  lemma {:induction false} BadCookieAnswered(bytes: seq<Byte>, f: Flags, node: string, creation: int, n: nat)
    requires NodeName(node)
    ensures var pid := PidAt(node, creation, n);
            var why := Receive(bytes, f).why;
            why.BadCookie? ==>
              && !f.cookieOk && Representable(Header(AuthError(node, pid), why.cookie))
              && Goodbye(why, node, pid) == Packet(Body(AuthError(node, pid), why.cookie))
              && AuthError(node, pid).name == "auth" && (AuthRepresentable(node); AuthError(node, pid).payload == Encode(AuthTerm(node)))
    decreases |bytes|
  {
    hide Dispatch, Header, Representable, Read4BE, Body, Packet;
    if 4 <= |bytes| {
      var len := Read4BE(bytes).value;
      var after := bytes[4..];
      if len == 0 {
        BadCookieAnswered(after, f, node, creation, n);
      } else if 0 < len <= |after| {
        var a := Dispatch(after[..len], f);
        BadCookiePlain(after[..len], f);
        if a.Stop? && a.why.BadCookie? {
          HeaderRepresentable(node, n, creation, a.why.cookie);
        } else if !a.Stop? {
          BadCookieAnswered(after[len..], FlagsAfter(f, a), node, creation, n);
        }
      }
    }
  }

  // ---- Writer and reader ----

  /** Pids, names and the cookie field survive the wire, and the length fits its field. */
  predicate Sendable(m: Outgoing, shown: string) {
    && Representable(Header(m, shown)) && |Body(m, shown)| < 0x8000_0000
    && PlainAtom(shown)
    && match m
       case Send(to, _) => AtomFits(to.node)
       case RegSend(from, name, _) => AtomFits(from.node) && PlainAtom(name)
       case Link(from, to) => AtomFits(from.node) && AtomFits(to.node)
       case Unlink(from, to) => AtomFits(from.node) && AtomFits(to.node)
       case Exit(from, to, _) => AtomFits(from.node) && AtomFits(to.node)
       case Exit2(from, to, _) => AtomFits(from.node) && AtomFits(to.node)
  }

  predicate PlainAtom(s: string) {
    AtomFits(s) && s != "true" && s != "false"
  }

  /** The message a receiver should get. */
  function Meant(m: Outgoing): Incoming {
    match m
    case Send(to, payload) => InSend(Some(to), [VERSION] + payload)
    case RegSend(from, name, payload) => InRegSend(Some(from), name, [VERSION] + payload)
    case Link(from, to) => InLink(1, Some(from), Some(to))
    case Unlink(from, to) => InLink(4, Some(from), Some(to))
    case Exit(from, to, reason) => InExit(3, Some(from), Some(to), reason)
    case Exit2(from, to, reason) => InExit(8, Some(from), Some(to), reason)
  }

  /** A cookie field that the receiver accepts. */
  predicate Accepted(shown: string, f: Flags) {
    f.cookieOk || shown == (if f.sendCookie then f.cookie else "")
  }

  lemma HeaderRead(m: Outgoing, shown: string)
    requires Representable(Header(m, shown))
    ensures var r := ReadAny(Body(m, shown)[1..]);
            if Faithful(Header(m, shown)) then r == Ok(Header(m, shown), Trailer(m))
            else r.Ok? ==> r.value != Header(m, shown)
  {
    hide ReadAny, Encode;
    var t := Header(m, shown);
    TermRoundTrip(t, Trailer(m));
    FirstByte(t);
    VersionSkipped(Encode(t) + Trailer(m));
    assert Body(m, shown)[1..] == [VERSION] + (Encode(t) + Trailer(m));
  }

  /** Every message but the exits is understood as meant. */
  lemma OwnMessage(m: Outgoing, shown: string, f: Flags)
    requires Sendable(m, shown) && Accepted(shown, f) && !m.Exit? && !m.Exit2?
    ensures Dispatch(Body(m, shown), f) == Deliver(Meant(m))
  {
    hide ReadAny, Encode;
    HeaderRead(m, shown);
    HeaderFaithful(m, shown);
  }

  lemma HeaderFaithful(m: Outgoing, shown: string)
    requires Sendable(m, shown) && !m.Exit? && !m.Exit2?
    ensures Faithful(Header(m, shown))
  {
    match m {
      case Send(to, _) =>
      case RegSend(from, name, _) =>
      case Link(from, to) =>
      case Unlink(from, to) =>
    }
  }

  /** The two exits write their reason as a string, but the receive loop wants an atom there: to
      this library its own exit messages are garbage. */
  lemma OwnExitIsGarbage(m: Outgoing, shown: string, f: Flags)
    requires Sendable(m, shown) && (m.Exit? || m.Exit2?)
    ensures Dispatch(Body(m, shown), f) == Stop(Garbage)
  {
    hide ReadAny, Encode;
    var tag := if m.Exit? then 3 else 8;
    var t := Header(m, shown);
    FirstByte(t);
    VersionSkipped(Encode(t));
    assert Body(m, shown)[1..] == [VERSION] + Encode(t);
    ExitHeaderRead(tag, m.from, m.to, m.reason);
  }

  /** Reading faithful terms and then one more, faithful or not. */
  lemma {:induction false} ManyAndOne(es: seq<Term>, x: Term, rest: seq<Byte>)
    requires Representable(x) && forall e :: e in es ==> Representable(e) && Faithful(e)
    ensures forall e :: e in es + [x] ==> Representable(e)
    ensures ReadMany(|es| + 1, EncodeAll(es + [x]) + rest) ==
            match ReadAny(Encode(x) + rest) case Ok(v, r) => Ok(es + [v], r) case Fail => Fail
  {
    hide ReadAny, Encode;
    if es == [] {
      assert EncodeAll([x]) + rest == Encode(x) + rest by { assert [x][1..] == []; assert EncodeAll([x]) == Encode(x) + []; }
      assert es + [x] == [x];
      match ReadAny(Encode(x) + rest) {
        case Ok(v, r) => assert ReadMany(0, r) == Ok([], r) && es + [v] == [v] + [];
        case Fail =>
      }
    } else {
      assert (es + [x])[1..] == es[1..] + [x] && (es + [x])[0] == es[0];
      ManyAndOne(es[1..], x, rest);
      var more := EncodeAll(es[1..] + [x]) + rest;
      assert EncodeAll(es + [x]) + rest == Encode(es[0]) + more;
      TermRoundTrip(es[0], more);
      match ReadAny(Encode(x) + rest) {
        case Ok(v, r) => assert [es[0]] + (es[1..] + [v]) == es + [v];
        case Fail =>
      }
    }
  }

  lemma StringReadAsList(s: string, rest: seq<Byte>)
    requires Representable(Str(s))
    ensures var r := ReadAny(StringBytes(s) + rest); r.Ok? && (r.value.Str? || r.value.List?)
  {
    hide ReadString, ReadAny;
    if s == "" {
      AnyNil(rest);
    } else {
      StringRoundTrip(s, rest);
      AnyString(StringBytes(s) + rest);
    }
  }

  /** The header of an exit is read with its last element a string, or a list if it is empty. */
  lemma ExitHeaderRead(tag: int, from: Pid, to: Pid, reason: string)
    requires tag in {3, 8} && AtomFits(from.node) && AtomFits(to.node)
    requires Representable(Tuple([Long(tag), PidTerm(from), PidTerm(to), Str(reason)]))
    ensures var r := ReadAny(Encode(Tuple([Long(tag), PidTerm(from), PidTerm(to), Str(reason)])));
            r.Ok? && r.value.Tuple? && |r.value.elems| == 4
            && r.value.elems[0] == Long(tag) && !r.value.elems[3].Atom?
  {
    hide ReadAny, TupleHead, EncodeAll, StringBytes;
    var first := [Long(tag), PidTerm(from), PidTerm(to)];
    var es := [Long(tag), PidTerm(from), PidTerm(to), Str(reason)];
    assert es == first + [Str(reason)];
    assert Str(reason) in es && forall e :: e in first ==> e in es;
    assert Encode(Tuple(es)) == TupleHead(4) + (EncodeAll(es) + []);
    AnyTuple(4, EncodeAll(es) + []);
    ManyAndOne(first, Str(reason), []);
    StringReadAsList(reason, []);
  }

  // ---- Runs ----

  datatype Item = Tick | Message(m: Outgoing)

  function Wire(items: seq<Item>, shown: string): seq<Byte>
    requires forall i :: i in items ==> i.Message? ==> Representable(Header(i.m, shown))
  {
    if items == [] then []
    else (match items[0] case Tick => Packet([]) case Message(m) => Packet(Body(m, shown))) + Wire(items[1..], shown)
  }

  function Meanings(items: seq<Item>): seq<Incoming> {
    if items == [] then []
    else (match items[0] case Tick => [] case Message(m) => [Meant(m)]) + Meanings(items[1..])
  }

  function Ticks(items: seq<Item>): nat {
    if items == [] then 0 else (if items[0].Tick? then 1 else 0) + Ticks(items[1..])
  }

  predicate AllUnderstood(items: seq<Item>, shown: string) {
    forall i :: i in items ==> i.Message? ==> Sendable(i.m, shown) && !i.m.Exit? && !i.m.Exit2?
  }

  /** The loop on one packet. */
  lemma ReceivePacket(body: seq<Byte>, rest: seq<Byte>, f: Flags)
    requires |body| < 0x8000_0000
    ensures body == [] ==> Receive(Packet(body) + rest, f) == Tocked(Receive(rest, f))
    ensures body != [] ==>
              var a := Dispatch(body, f);
              && (a.Stop? ==> Receive(Packet(body) + rest, f) == Outcome([], 0, a.why))
              && (a.Ignore? ==> Receive(Packet(body) + rest, f) == Receive(rest, f))
              && (a.Deliver? ==> Receive(Packet(body) + rest, f) == Delivered(a.msg, Receive(rest, FlagsAfter(f, a))))
  {
    hide BE4, Read4BE, Dispatch;
    var bytes := Packet(body) + rest;
    assert bytes == BE4(|body|) + (body + rest);
    BE4RoundTrip(|body|, body + rest);
    assert bytes[4..] == body + rest;
    assert (body + rest)[..|body|] == body && (body + rest)[|body|..] == rest;
  }

  // ---- Any stream of packets ----

  function Frames(bodies: seq<seq<Byte>>): seq<Byte> {
    if bodies == [] then [] else Packet(bodies[0]) + Frames(bodies[1..])
  }

  /** How far the loop has come: what it delivered, its tocks, its flags, and why it stopped, if
      it did. */
  datatype Progress = Progress(delivered: seq<Incoming>, tocks: nat, flags: Flags, stopped: Option<Why>)

  /** The fold of Dispatch over packet bodies: an empty body is a tick, and nothing is looked at
      after a body that stops the loop. */
  function Handle(bodies: seq<seq<Byte>>, f: Flags): Progress {
    if bodies == [] then Progress([], 0, f, None)
    else if bodies[0] == [] then
      var p := Handle(bodies[1..], f);
      p.(tocks := p.tocks + 1)
    else
      var a := Dispatch(bodies[0], f);
      match a
      case Stop(why) => Progress([], 0, f, Some(why))
      case Ignore => Handle(bodies[1..], f)
      case Deliver(msg) =>
        var p := Handle(bodies[1..], FlagsAfter(f, a));
        p.(delivered := [msg] + p.delivered)
  }

  /** The rest of a run, unless the loop has stopped. */
  function Onward(p: Progress, rest: seq<Byte>): Outcome {
    match p.stopped
    case Some(why) => Outcome(p.delivered, p.tocks, why)
    case None =>
      var o := Receive(rest, p.flags);
      Outcome(p.delivered + o.delivered, p.tocks + o.tocks, o.why)
  }

  /** For every stream of length-prefixed packets and every continuation: the loop takes exactly
      the bodies, in order, and answers exactly the empty ones, up to one that stops it. */
  lemma {:induction false} ReceiveFrames(bodies: seq<seq<Byte>>, f: Flags, rest: seq<Byte>)
    requires forall b :: b in bodies ==> |b| < 0x8000_0000
    ensures Receive(Frames(bodies) + rest, f) == Onward(Handle(bodies, f), rest)
  {
    hide Dispatch, Packet, Receive;
    if bodies == [] {
      assert Frames(bodies) + rest == rest;
      assert forall o: Outcome :: Outcome([] + o.delivered, 0 + o.tocks, o.why) == o;
    } else {
      var more := Frames(bodies[1..]) + rest;
      assert bodies[0] in bodies;
      assert Frames(bodies) + rest == Packet(bodies[0]) + more;
      ReceivePacket(bodies[0], more, f);
      var g := if bodies[0] == [] then f else FlagsAfter(f, Dispatch(bodies[0], f));
      ReceiveFrames(bodies[1..], g, rest);
      OnwardStep(Handle(bodies[1..], g), rest);
    }
  }

  lemma OnwardStep(p: Progress, rest: seq<Byte>)
    ensures Onward(p.(tocks := p.tocks + 1), rest) == Tocked(Onward(p, rest))
    ensures forall msg :: Onward(p.(delivered := [msg] + p.delivered), rest) == Delivered(msg, Onward(p, rest))
  {
    hide Receive;
    forall msg
      ensures Onward(p.(delivered := [msg] + p.delivered), rest) == Delivered(msg, Onward(p, rest))
    {
      var o := Receive(rest, p.flags);
      assert [msg] + p.delivered + o.delivered == [msg] + (p.delivered + o.delivered);
    }
  }

  // ---- Streams of this library ----

  /** The flags of the receiver once the messages of this library have been taken. */
  function FlagsThrough(items: seq<Item>, f: Flags): (g: Flags)
    ensures g == f || g == f.(cookieOk := true)
  {
    if items == [] then f
    else FlagsThrough(items[1..], if items[0].Tick? then f else FlagsAfter(f, Deliver(Meant(items[0].m))))
  }

  function After(items: seq<Item>, o: Outcome): Outcome {
    Outcome(Meanings(items) + o.delivered, Ticks(items) + o.tocks, o.why)
  }

  function Bodies(items: seq<Item>, shown: string): seq<seq<Byte>>
    requires forall i :: i in items ==> i.Message? ==> Representable(Header(i.m, shown))
  {
    if items == [] then []
    else [match items[0] case Tick => [] case Message(m) => Body(m, shown)] + Bodies(items[1..], shown)
  }

  lemma {:induction false} OwnFrames(items: seq<Item>, shown: string)
    requires AllUnderstood(items, shown)
    ensures Wire(items, shown) == Frames(Bodies(items, shown))
    ensures forall b :: b in Bodies(items, shown) ==> |b| < 0x8000_0000
  {
    hide Body, Packet, Representable;
    if items != [] {
      assert items[0] in items && forall i :: i in items[1..] ==> i in items;
      OwnFrames(items[1..], shown);
    }
  }

  lemma Understood(items: seq<Item>, shown: string)
    requires AllUnderstood(items, shown) && items != []
    ensures AllUnderstood(items[1..], shown)
    ensures items[0].Message? ==> Sendable(items[0].m, shown) && !items[0].m.Exit? && !items[0].m.Exit2?
  {
    assert items[0] in items && forall i :: i in items[1..] ==> i in items;
  }

  /** The loop understands each body of this library as meant. */
  lemma {:induction false} OwnHandled(items: seq<Item>, shown: string, f: Flags)
    requires AllUnderstood(items, shown) && Accepted(shown, f)
    ensures Handle(Bodies(items, shown), f) == Progress(Meanings(items), Ticks(items), FlagsThrough(items, f), None)
  {
    if items != [] {
      Understood(items, shown);
      hide Dispatch, Body, Meant, AllUnderstood, Sendable, Representable;
      if items[0].Tick? {
        OwnHandled(items[1..], shown, f);
        assert Meanings(items) == Meanings(items[1..]);
      } else {
        var m := items[0].m;
        BodyNotEmpty(m, shown);
        OwnMessage(m, shown, f);
        OwnHandled(items[1..], shown, FlagsAfter(f, Deliver(Meant(m))));
      }
    }
  }

  /** However messages and ticks follow each other, the receiver gets exactly the messages that
      were meant, in order, and answers every tick, before it goes on with what comes next. */
  lemma ReceiveOwnPrefix(items: seq<Item>, shown: string, f: Flags, rest: seq<Byte>)
    requires AllUnderstood(items, shown) && Accepted(shown, f)
    ensures Receive(Wire(items, shown) + rest, f) == After(items, Receive(rest, FlagsThrough(items, f)))
  {
    hide Receive, Handle, Frames, Wire, Bodies;
    OwnFrames(items, shown);
    OwnHandled(items, shown, f);
    ReceiveFrames(Bodies(items, shown), f, rest);
  }

  lemma BodyNotEmpty(m: Outgoing, shown: string)
    requires Representable(Header(m, shown))
    ensures Body(m, shown) != []
  {
  }

  /** A stream of this library's messages up to its end. */
  lemma ReceiveOwn(items: seq<Item>, shown: string, f: Flags)
    requires AllUnderstood(items, shown) && Accepted(shown, f)
    ensures Receive(Wire(items, shown), f) == Outcome(Meanings(items), Ticks(items), EndOfStream)
  {
    ReceiveOwnPrefix(items, shown, f, []);
    assert Wire(items, shown) + [] == Wire(items, shown);
    assert Meanings(items) + [] == Meanings(items);
  }

  /** An exit among them ends the connection: what came before is delivered, nothing after. */
  lemma ReceiveOwnExit(items: seq<Item>, x: Outgoing, shown: string, f: Flags, rest: seq<Byte>)
    requires AllUnderstood(items, shown) && Accepted(shown, f)
    requires Sendable(x, shown) && (x.Exit? || x.Exit2?)
    ensures Receive(Wire(items, shown) + (Packet(Body(x, shown)) + rest), f)
         == Outcome(Meanings(items), Ticks(items), Garbage)
  {
    hide Dispatch, Body, Packet;
    ReceiveOwnPrefix(items, shown, f, Packet(Body(x, shown)) + rest);
    var g := FlagsThrough(items, f);
    BodyNotEmpty(x, shown);
    OwnExitIsGarbage(x, shown, g);
    ReceivePacket(Body(x, shown), rest, g);
    assert Meanings(items) + [] == Meanings(items);
  }
}
