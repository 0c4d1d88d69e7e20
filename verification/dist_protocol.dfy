/** The control messages of the distribution protocol: the number, arity and fields of each
    operation, told apart from how this library writes and reads them. */
module DistProtocol {
  import opened Bytes
  import opened Erlang
  import opened ExternalFormat
  import opened DistMessages

  /** The operations. Those with a trace token have the fields of the ones without, and the token
      at the end, or in front of the reason of an exit. */
  datatype Operation =
    | LinkOp(from: Pid, to: Pid)
    | SendOp(cookie: Term, to: Pid)
    | ExitOp(from: Pid, to: Pid, reason: Term)
    | UnlinkOp(from: Pid, to: Pid)
    | NodeLinkOp
    | RegSendOp(from: Pid, cookie: Term, toName: string)
    | GroupLeaderOp(from: Pid, to: Pid)
    | Exit2Op(from: Pid, to: Pid, reason: Term)
    | SendTTOp(cookie: Term, to: Pid, token: Term)
    | ExitTTOp(from: Pid, to: Pid, token: Term, reason: Term)
    | RegSendTTOp(from: Pid, cookie: Term, toName: string, token: Term)
    | Exit2TTOp(from: Pid, to: Pid, token: Term, reason: Term)
    | MonitorPOp(from: Pid, proc: Pid, ref: Ref)
    | DemonitorPOp(from: Pid, proc: Pid, ref: Ref)
    | MonitorPExitOp(from: Pid, to: Pid, ref: Ref, reason: Term)

  datatype Kind = P | R | A | Any

  predicate Fits(t: Term, k: Kind) {
    match k
    case P => t.PidTerm?
    case R => t.RefTerm?
    case A => t.Atom?
    case Any => true
  }

  /** The fields of an operation, by its number. */
  function Fields(number: int): Option<seq<Kind>> {
    match number
    case 1 => Some([P, P])
    case 2 => Some([Any, P])
    case 3 => Some([P, P, Any])
    case 4 => Some([P, P])
    case 5 => Some([])
    case 6 => Some([P, Any, A])
    case 7 => Some([P, P])
    case 8 => Some([P, P, Any])
    case 12 => Some([Any, P, Any])
    case 13 => Some([P, P, Any, Any])
    case 16 => Some([P, Any, A, Any])
    case 18 => Some([P, P, Any, Any])
    case 19 => Some([P, P, R])
    case 20 => Some([P, P, R])
    case 21 => Some([P, P, R, Any])
    case _ => None
  }

  /** A tuple of a number and the fields of that number. */
  predicate Conforms(t: Term) {
    && t.Tuple? && t.elems != [] && t.elems[0].Long?
    && var fs := Fields(t.elems[0].val);
       && fs.Some? && |t.elems| == |fs.value| + 1
       && forall i :: 0 <= i < |fs.value| ==> Fits(t.elems[i + 1], fs.value[i])
  }

  function Operate(t: Term): Operation
    requires Conforms(t)
  {
    FieldKinds(t);
    var e := t.elems;
    match e[0].val
    case 1 => LinkOp(e[1].pid, e[2].pid)
    case 2 => SendOp(e[1], e[2].pid)
    case 3 => ExitOp(e[1].pid, e[2].pid, e[3])
    case 4 => UnlinkOp(e[1].pid, e[2].pid)
    case 5 => NodeLinkOp
    case 6 => RegSendOp(e[1].pid, e[2], e[3].name)
    case 7 => GroupLeaderOp(e[1].pid, e[2].pid)
    case 8 => Exit2Op(e[1].pid, e[2].pid, e[3])
    case 12 => SendTTOp(e[1], e[2].pid, e[3])
    case 13 => ExitTTOp(e[1].pid, e[2].pid, e[3], e[4])
    case 16 => RegSendTTOp(e[1].pid, e[2], e[3].name, e[4])
    case 18 => Exit2TTOp(e[1].pid, e[2].pid, e[3], e[4])
    case 19 => MonitorPOp(e[1].pid, e[2].pid, e[3].ref)
    case 20 => DemonitorPOp(e[1].pid, e[2].pid, e[3].ref)
    case 21 => MonitorPExitOp(e[1].pid, e[2].pid, e[3].ref, e[4])
  }

  /** The operation that a send method stands for. None has a trace token. */
  function Meant(m: Outgoing, shown: string): Operation {
    match m
    case Send(to, _) => SendOp(Atom(shown), to)
    case RegSend(from, name, _) => RegSendOp(from, Atom(shown), name)
    case Link(from, to) => LinkOp(from, to)
    case Unlink(from, to) => UnlinkOp(from, to)
    case Exit(from, to, reason) => ExitOp(from, to, Str(reason))
    case Exit2(from, to, reason) => Exit2Op(from, to, Str(reason))
  }

  /** What a node hands on for an operation, with what follows it in the packet. */
  function Handed(o: Operation, rest: seq<Byte>): Option<Incoming> {
    match o
    case LinkOp(from, to) => Some(InLink(1, Some(from), Some(to)))
    case SendOp(_, to) => Some(InSend(Some(to), rest))
    case ExitOp(from, to, reason) => if reason.Atom? then Some(InExit(3, Some(from), Some(to), reason.name)) else None
    case UnlinkOp(from, to) => Some(InLink(4, Some(from), Some(to)))
    case NodeLinkOp => None
    case RegSendOp(from, _, name) => Some(InRegSend(Some(from), name, rest))
    case GroupLeaderOp(_, _) => None
    case Exit2Op(from, to, reason) => if reason.Atom? then Some(InExit(8, Some(from), Some(to), reason.name)) else None
    case SendTTOp(_, to, _) => Some(InSend(Some(to), rest))
    case ExitTTOp(from, to, _, reason) => if reason.Atom? then Some(InExit(13, Some(from), Some(to), reason.name)) else None
    case RegSendTTOp(from, _, name, _) => Some(InRegSend(Some(from), name, rest))
    case Exit2TTOp(from, to, _, reason) => if reason.Atom? then Some(InExit(18, Some(from), Some(to), reason.name)) else None
    case MonitorPOp(from, proc, ref) => Some(InMonitor(19, Some(from), Some(proc), Some(ref)))
    case DemonitorPOp(from, proc, ref) => Some(InMonitor(20, Some(from), Some(proc), Some(ref)))
    case MonitorPExitOp(from, to, ref, _) => Some(InMonitor(21, Some(from), Some(to), Some(ref)))
  }

  /** Every header this library writes is that of the operation meant, field by field. */
  lemma HeaderConforms(m: Outgoing, shown: string)
    ensures Conforms(Header(m, shown)) && Operate(Header(m, shown)) == Meant(m, shown)
  {
  }

  /** The cookie of an operation that carries one. */
  function CookieOf(o: Operation): Option<Term> {
    match o
    case SendOp(cookie, _) => Some(cookie)
    case RegSendOp(_, cookie, _) => Some(cookie)
    case SendTTOp(cookie, _, _) => Some(cookie)
    case RegSendTTOp(_, cookie, _, _) => Some(cookie)
    case _ => None
  }

  /** The cookie that the first send must show: that of this node, or none if none is sent. */
  function Expected(f: Flags): string {
    if f.sendCookie then f.cookie else ""
  }

  /** Each operation that conforms is handled by its number: handed on with its fields, or ignored,
      or, if it is an exit whose reason is no atom, taken for garbage. The cookie is looked at
      until one has been accepted; a wrong one ends the connection. */
  lemma ConformingHandled(t: Term, rest: seq<Byte>, f: Flags)
    requires Conforms(t)
    ensures var o := Operate(t);
            var cookie := CookieOf(o);
            OnHeader(Ok(t, rest), f) ==
              if !f.cookieOk && cookie.Some? && cookie.value != Atom(Expected(f)) then
                Stop(if cookie.value.Atom? then BadCookie(cookie.value.name) else Garbage)
              else match Handed(o, rest)
                case Some(msg) => Deliver(msg)
                case None => if o.NodeLinkOp? || o.GroupLeaderOp? then Ignore else Stop(Garbage)
    ensures var a := OnHeader(Ok(t, rest), f);
            FlagsAfter(f, a) == if a.Deliver? && CookieOf(Operate(t)).Some? then f.(cookieOk := true) else f
  {
    var n := t.elems[0].val;
    assert Signed32(n) == n;
    assert n in {1, 2, 3, 4, 5, 6, 7, 8, 12, 13, 16, 18, 19, 20, 21};
    FieldKinds(t);
  }

  /** The kinds of the fields one by one. */
  lemma FieldKinds(t: Term)
    requires Conforms(t)
    ensures var e := t.elems;
            var n := e[0].val;
            && (n in {1, 3, 4, 7, 8, 13, 18, 19, 20, 21} ==> |e| >= 3 && e[1].PidTerm? && e[2].PidTerm?)
            && (n in {19, 20, 21} ==> |e| >= 4 && e[3].RefTerm?)
            && (n in {2, 12} ==> |e| >= 3 && e[2].PidTerm?)
            && (n in {6, 16} ==> |e| >= 4 && e[1].PidTerm? && e[3].Atom?)
  {
    var fs := Fields(t.elems[0].val).value;
    assert forall i :: 1 <= i <= |fs| ==> Fits(t.elems[i], fs[i - 1]);
  }

  /** What the receiver of this library's messages is meant to get is what their operations call
      for, the reason of an exit apart, which is written as a string. */
  lemma MeantHanded(m: Outgoing, shown: string)
    ensures match m
            case Exit(from, to, reason) =>
              DistMessages.Meant(m) == Handed(ExitOp(from, to, Atom(reason)), []).value
              && Meant(m, shown) == ExitOp(from, to, Str(reason))
            case Exit2(from, to, reason) =>
              DistMessages.Meant(m) == Handed(Exit2Op(from, to, Atom(reason)), []).value
              && Meant(m, shown) == Exit2Op(from, to, Str(reason))
            case _ => Some(DistMessages.Meant(m)) == Handed(Meant(m, shown), Trailer(m))
  {
  }
}
