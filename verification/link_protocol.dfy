/** What the operations of a node do to its mailboxes and connections (OtpMbox.cs, OtpNode.cs,
    OtpCookedConnection.cs), as functions from state to state. Every operation is one atomic
    step. The classes in otp_node.dfy are verified against these functions. */
module LinkProtocol {
  import opened Erlang
  import opened Links
  import OtpIds

  /** OtpMsg.Tag, as far as link handling tells tags apart. OtherTag stands for the tags that
      are only queued (SEND, REG_SEND and the trace-token variants). */
  datatype Tag = LinkTag | UnlinkTag | ExitTag | Exit2Tag | OtherTag

  /** The text is the reason of an exit or the body of a message. */
  datatype Msg = Msg(tag: Tag, from: Pid, to: Pid, text: string)

  datatype Mbox = Mbox(links: Table, queue: seq<Msg>)

  /** A connection object to the node called name. `sent` is what went out on its socket. */
  datatype Conn = Conn(name: string, connected: bool, links: Table, sent: seq<Msg>)

  /** `conns` are all connection objects ever made; `registry` is OtpNode.connections, the
      hashtable from node names to connection objects. `mboxes` is Mailboxes.byPid: a closed
      mailbox is no longer in it. `created` counts the pids made so far. */
  datatype State = State(home: string, creation: int, created: nat, mboxes: map<Pid, Mbox>,
                         conns: seq<Conn>, registry: map<string, nat>)

  // ---- Delivery ----

  /** OtpMbox.deliver */
  function MboxDeliver(mb: Mbox, self: Pid, m: Msg): Mbox {
    match m.tag
    case LinkTag => mb.(links := Add(mb.links, self, m.from))
    case UnlinkTag => mb.(links := Remove(mb.links, self, m.from))
    case ExitTag => Mbox(Remove(mb.links, self, m.from), mb.queue + [m])
    case _ => mb.(queue := mb.queue + [m])
  }

  /** OtpNode.deliver for a message addressed to a pid; the bool is its result. */
  function Deliver(s: State, m: Msg): (State, bool) {
    if m.to in s.mboxes
    then (s.(mboxes := s.mboxes[m.to := MboxDeliver(s.mboxes[m.to], m.to, m)]), true)
    else (s, false)
  }

  function DeliverAll(s: State, ms: seq<Msg>): State {
    if ms == [] then s
    else Deliver(DeliverAll(s, ms[..|ms| - 1]), ms[|ms| - 1]).0
  }

  // ---- Connections ----

  /** What the outside world does to one use of a remote node: whether a new connection can be
      set up if one is needed, and how the write to the socket ends. IoError is an
      IOException and SocketError a SocketException, after either of which do_send has closed the
      connection; OtherError is any other exception, such as the InvalidOperationException of
      GetStream, which leaves it open. */
  datatype Sent = Ok | IoError | SocketError | OtherError
  datatype Net = Net(reachable: bool, sent: Sent)

  function SetConn(s: State, c: nat, conn: Conn): State
    requires c < |s.conns|
  {
    s.(conns := s.conns[c := conn])
  }

  function NoConnection(ls: Table): (ms: seq<Msg>)
    ensures |ms| == |ls|
  {
    seq(|ls|, i requires 0 <= i < |ls| => Msg(ExitTag, ls[i].remote, ls[i].local, "noconnection"))
  }

  /** OtpCookedConnection.close: AbstractConnection.close, then breakLinks. */
  function Close(s: State, c: nat): State
    requires c < |s.conns|
  {
    var conn := s.conns[c];
    DeliverAll(SetConn(s, c, conn.(connected := false, links := [])), NoConnection(conn.links))
  }

  /** A connection object that has finished its handshake, entered under its name. */
  function AddConnection(s: State, name: string): State {
    s.(conns := s.conns + [Conn(name, true, [], [])], registry := s.registry[name := |s.conns|])
  }

  /** OtpNode.connection: the registered connection, or a new one. */
  function Connection(s: State, name: string, net: Net): (State, Option<nat>) {
    if name in s.registry then (s, Some(s.registry[name]))
    else if net.reachable then (AddConnection(s, name), Some(|s.conns|))
    else (s, None)
  }

  /** AbstractConnection.sendLink, sendUnlink, sendExit and sendExit2 with do_send: nothing is
      written when not connected, and an IOException on the write closes the connection. */
  function Send(s: State, c: nat, m: Msg, sent: Sent): (r: (State, Sent))
    requires c < |s.conns|
  {
    if !s.conns[c].connected then (s, IoError)
    else match sent
      case Ok => (SetConn(s, c, s.conns[c].(sent := s.conns[c].sent + [m])), Ok)
      case IoError => (Close(s, c), IoError)
      case SocketError => (Close(s, c), SocketError)
      case OtherError => (s, OtherError)
  }

  // ---- Mailbox operations ----

  function AddOwn(s: State, self: Pid, to: Pid): State {
    if self in s.mboxes
    then s.(mboxes := s.mboxes[self := s.mboxes[self].(links := Add(s.mboxes[self].links, self, to))])
    else s
  }

  function RemoveOwn(s: State, self: Pid, to: Pid): State {
    if self in s.mboxes
    then s.(mboxes := s.mboxes[self := s.mboxes[self].(links := Remove(s.mboxes[self].links, self, to))])
    else s
  }

  function ConnAdd(s: State, c: nat, a: Pid, b: Pid): State
    requires c < |s.conns|
  {
    SetConn(s, c, s.conns[c].(links := Add(s.conns[c].links, a, b)))
  }

  function ConnRemove(s: State, c: nat, a: Pid, b: Pid): State
    requires c < |s.conns|
  {
    SetConn(s, c, s.conns[c].(links := Remove(s.conns[c].links, a, b)))
  }

  /** Every registered name leads to a connection object. */
  predicate Indexed(s: State) {
    forall n :: n in s.registry ==> s.registry[n] < |s.conns|
  }

  /** OtpMbox.link with OtpCookedConnection.link; false when Erlang.Exit("noproc") is raised.
      An exception other than IOException is swallowed and the link is added all the same. */
  function Link_(s: State, self: Pid, to: Pid, net: Net): (State, bool)
    requires Indexed(s)
  {
    if to.node == s.home then
      var (s1, delivered) := Deliver(s, Msg(LinkTag, self, to, ""));
      if delivered then (AddOwn(s1, self, to), true) else (s1, false)
    else
      var (s1, oc) := Connection(s, to.node, net);
      if oc == None then (s1, false)
      else
        var (s2, sent) := Send(s1, oc.value, Msg(LinkTag, self, to, ""), net.sent);
        match sent
        case Ok => (AddOwn(ConnAdd(s2, oc.value, self, to), self, to), true)
        case IoError => (s2, false)
        case _ => (AddOwn(s2, self, to), true)
  }

  /** OtpMbox.unlink with OtpCookedConnection.unlink. */
  function Unlink(s: State, self: Pid, to: Pid, net: Net): State
    requires Indexed(s)
  {
    var s0 := RemoveOwn(s, self, to);
    if to.node == s.home then Deliver(s0, Msg(UnlinkTag, self, to, "")).0
    else
      var (s1, oc) := Connection(s0, to.node, net);
      if oc == None then s1
      else Send(ConnRemove(s1, oc.value, self, to), oc.value, Msg(UnlinkTag, self, to, ""), net.sent).0
  }

  /** OtpMbox.exit(arity, to, reason). A local exit goes out with exitTag in both arities. */
  function Exit(s: State, arity: int, self: Pid, to: Pid, reason: string, net: Net): State
    requires Indexed(s)
  {
    if to.node == s.home then Deliver(s, Msg(ExitTag, self, to, reason)).0
    else
      var (s1, oc) := Connection(s, to.node, net);
      if oc == None then s1
      else Send(s1, oc.value, Msg(if arity == 1 then ExitTag else Exit2Tag, self, to, reason), net.sent).0
  }

  /** OtpMbox.send to a pid. */
  function SendTo(s: State, self: Pid, to: Pid, text: string, net: Net): State
    requires Indexed(s)
  {
    var m := Msg(OtherTag, self, to, text);
    if to.node == s.home then Deliver(s, m).0
    else
      var (s1, oc) := Connection(s, to.node, net);
      if oc == None then s1 else Send(s1, oc.value, m, net.sent).0
  }

  /** The loop of OtpMbox.breakLinks over the cleared links. */
  function ExitLinks(s: State, self: Pid, ls: Table, reason: string, nets: nat -> Net): (r: State)
    requires Indexed(s)
    ensures Indexed(r) && r.home == s.home && r.creation == s.creation && r.created == s.created
    ensures r.mboxes.Keys == s.mboxes.Keys
  {
    if ls == [] then s
    else
      var n := |ls| - 1;
      var s1 := ExitLinks(s, self, ls[..n], reason, nets);
      ExitFrame(s1, 1, self, ls[n].remote, reason, nets(n));
      Exit(s1, 1, self, ls[n].remote, reason, nets(n))
  }

  /** OtpNode.closeMbox on a live mailbox. */
  function CloseMbox(s: State, self: Pid, nets: nat -> Net): State
    requires Indexed(s)
  {
    if self in s.mboxes
    then ExitLinks(s.(mboxes := s.mboxes - {self}), self, s.mboxes[self].links, "normal", nets)
    else s
  }

  /** OtpNode.closeMbox on a mailbox that is closed already. Its table, which is no longer part of
      the state, may have links again that were made since. */
  function CloseAgain(s: State, self: Pid, leftover: Table, nets: nat -> Net): State
    requires Indexed(s)
  {
    ExitLinks(s, self, leftover, "normal", nets)
  }

  // ---- Connection events ----

  /** OtpCookedConnection.deliver(OtpMsg), called by the reader thread of connection c.
      An exception from the answer ends that thread (see Lost). */
  function Incoming(s: State, c: nat, m: Msg, sent: Sent): State
    requires c < |s.conns|
  {
    var (s1, delivered) := Deliver(s, m);
    match m.tag
    case LinkTag =>
      if delivered then ConnAdd(s1, c, m.to, m.from)
      else
        SendFrame(s1, c, Msg(ExitTag, m.to, m.from, "noproc"), sent);
        var (s2, r) := Send(s1, c, Msg(ExitTag, m.to, m.from, "noproc"), sent);
        if r == OtherError || r == SocketError then Lost(s2, c) else s2
    case UnlinkTag => ConnRemove(s1, c, m.to, m.from)
    case ExitTag => ConnRemove(s1, c, m.to, m.from)
    case _ => s1
  }

  /** The end of the reader thread: deliver(Exception) takes the name out of the registry,
      whichever object is registered there, and then the connection is closed. */
  function Lost(s: State, c: nat): State
    requires c < |s.conns|
  {
    Close(s.(registry := s.registry - {s.conns[c].name}), c)
  }

  /** Mailboxes.create() */
  function CreateMbox(s: State): State {
    s.(mboxes := s.mboxes[NextPid(s) := Mbox([], [])], created := s.created + 1)
  }

  function NextPid(s: State): Pid {
    OtpIds.PidAt(s.home, s.creation, s.created)
  }

  /** OtpMbox.receiveMsg on a live mailbox: the message handed out, if there is one waiting; an exit
      is handed out as an exception. */
  function Receive(s: State, self: Pid): (State, Option<Msg>) {
    if self in s.mboxes && s.mboxes[self].queue != []
    then (s.(mboxes := s.mboxes[self := s.mboxes[self].(queue := s.mboxes[self].queue[1..])]),
          Some(s.mboxes[self].queue[0]))
    else (s, None)
  }

  // ---- Runs ----

  datatype Event =
    | DoCreate
    | DoLink(self: Pid, to: Pid, net: Net)
    | DoUnlink(self: Pid, to: Pid, net: Net)
    | DoExit(self: Pid, to: Pid, reason: string, net: Net)
    | DoSend(self: Pid, to: Pid, text: string, net: Net)
    | DoCloseMbox(self: Pid, nets: nat -> Net)
    | DoCloseAgain(self: Pid, leftover: Table, nets: nat -> Net)
    | DoReceive(self: Pid)
    | DoAccept(name: string)
    | DoIncoming(conn: nat, m: Msg, sent: Sent)
    | DoClose(conn: nat)
    | DoLost(conn: nat)

  /** p belongs to a mailbox made by this node, live or closed. */
  ghost predicate Born(s: State, p: Pid) {
    exists k: nat :: k < s.created && p == OtpIds.PidAt(s.home, s.creation, k)
  }

  /** Mailbox operations are called on a mailbox made by this node, live or closed. An event of
      a connection needs that connection object to exist, and only a connected one hands on
      messages. */
  ghost predicate Enabled(s: State, e: Event) {
    match e
    case DoLink(self, _, _) => Born(s, self)
    case DoUnlink(self, _, _) => Born(s, self)
    case DoExit(self, _, _, _) => Born(s, self)
    case DoSend(self, _, _, _) => Born(s, self)
    case DoCloseMbox(self, _) => Born(s, self)
    case DoCloseAgain(self, _, _) => Born(s, self) && self !in s.mboxes
    case DoIncoming(c, _, _) => c < |s.conns| && s.conns[c].connected
    case DoClose(c) => c < |s.conns|
    case DoLost(c) => c < |s.conns|
    case _ => true
  }

  function Next(s: State, e: Event): State
    requires Indexed(s) && Enabled(s, e)
  {
    match e
    case DoCreate => CreateMbox(s)
    case DoLink(self, to, net) => Link_(s, self, to, net).0
    case DoUnlink(self, to, net) => Unlink(s, self, to, net)
    case DoExit(self, to, reason, net) => Exit(s, 2, self, to, reason, net)
    case DoSend(self, to, text, net) => SendTo(s, self, to, text, net)
    case DoCloseMbox(self, nets) => CloseMbox(s, self, nets)
    case DoCloseAgain(self, leftover, nets) => CloseAgain(s, self, leftover, nets)
    case DoReceive(self) => Receive(s, self).0
    case DoAccept(name) => AddConnection(s, name)
    case DoIncoming(c, m, sent) => Incoming(s, c, m, sent)
    case DoClose(c) => Close(s, c)
    case DoLost(c) => Lost(s, c)
  }

  function Start(home: string, creation: int): State {
    State(home, creation, 0, map[], [], map[])
  }

  // ---- What no step changes ----

  ghost predicate Frame(s: State, r: State) {
    r.home == s.home && r.creation == s.creation && r.created == s.created
    && r.mboxes.Keys == s.mboxes.Keys
  }

  lemma {:induction false} DeliverAllFrame(s: State, ms: seq<Msg>)
    ensures Frame(s, DeliverAll(s, ms))
    ensures DeliverAll(s, ms).conns == s.conns && DeliverAll(s, ms).registry == s.registry
  {
    if ms != [] {
      DeliverAllFrame(s, ms[..|ms| - 1]);
    }
  }

  lemma SendFrame(s: State, c: nat, m: Msg, sent: Sent)
    requires c < |s.conns|
    ensures var r := Send(s, c, m, sent).0; Frame(s, r) && |r.conns| == |s.conns| && r.registry == s.registry
  {
    var conn := s.conns[c];
    DeliverAllFrame(SetConn(s, c, conn.(connected := false, links := [])), NoConnection(conn.links));
  }

  lemma ExitFrame(s: State, arity: int, self: Pid, to: Pid, reason: string, net: Net)
    requires Indexed(s)
    ensures var r := Exit(s, arity, self, to, reason, net); Frame(s, r) && Indexed(r)
  {
    var (s1, oc) := Connection(s, to.node, net);
    if to.node != s.home && oc != None {
      SendFrame(s1, oc.value, Msg(if arity == 1 then ExitTag else Exit2Tag, self, to, reason), net.sent);
    }
  }
}
