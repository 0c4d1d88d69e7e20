/** Where messages go: what every run puts into the queues of mailboxes and on the sockets of
    connections, in order, told apart from how the operations do it. */
module LinkDelivery {
  import opened Erlang
  import opened Links
  import opened LinkProtocol

  // ---- What a step posts and writes ----

  /** Messages handed to the node for its mailboxes, and messages written on connections. */
  datatype Traffic = Traffic(posted: seq<Msg>, written: seq<(nat, Msg)>)

  const NOTHING := Traffic([], [])

  function Then(t: Traffic, u: Traffic): Traffic {
    Traffic(t.posted + u.posted, t.written + u.written)
  }

  function Posted(m: Msg): Traffic {
    Traffic([m], [])
  }

  /** A lost connection posts, for every link over it, an exit from the remote end. */
  function Loss(links: Table): Traffic {
    Traffic(seq(|links|, i requires 0 <= i < |links| => Msg(ExitTag, links[i].remote, links[i].local, "noconnection")), [])
  }

  /** A message for connection c, which has these links: it is written, or lost, or the attempt
      breaks the connection. */
  function Over(s: State, c: nat, links: Table, m: Msg, sent: Sent): Traffic
    requires c < |s.conns|
  {
    if !s.conns[c].connected || sent == OtherError then NOTHING
    else if sent == Ok then Traffic([], [(c, m)])
    else Loss(links)
  }

  /** The connection to a node: the registered one, or the next one if the node can be reached. */
  function Route(s: State, node: string, net: Net): Option<nat> {
    if node in s.registry then Some(s.registry[node]) else if net.reachable then Some(|s.conns|) else None
  }

  /** A message from mailbox self to any pid: posted here, or written on the connection to there. */
  function Away(s: State, m: Msg, net: Net): Traffic
    requires Indexed(s)
  {
    if m.to.node == s.home then Posted(m)
    else if m.to.node in s.registry then Over(s, s.registry[m.to.node], s.conns[s.registry[m.to.node]].links, m, net.sent)
    else if net.reachable && net.sent == Ok then Traffic([], [(|s.conns|, m)])
    else NOTHING
  }

  /** An unlink is no longer among the links when it is written. */
  function Unlinking(s: State, self: Pid, to: Pid, net: Net): Traffic
    requires Indexed(s)
  {
    var m := Msg(UnlinkTag, self, to, "");
    if to.node != s.home && to.node in s.registry then
      var c := s.registry[to.node];
      Over(s, c, Remove(s.conns[c].links, self, to), m, net.sent)
    else Away(s, m, net)
  }

  /** A mailbox that closes sends an exit to the other end of each link; a loss on the way changes
      the state in which the next one is sent. */
  function Closing(s: State, self: Pid, ls: Table, nets: nat -> Net): Traffic
    requires Indexed(s)
  {
    if ls == [] then NOTHING
    else
      var n := |ls| - 1;
      Then(Closing(s, self, ls[..n], nets),
           Away(ExitLinks(s, self, ls[..n], "normal", nets), Msg(ExitTag, self, ls[n].remote, "normal"), nets(n)))
  }

  /** What arrives is posted; a link request for nobody is answered with an exit, and if that
      cannot be written the connection is lost. */
  function Arriving(s: State, c: nat, m: Msg, sent: Sent): Traffic
    requires c < |s.conns|
  {
    if m.tag != LinkTag || m.to in s.mboxes then Posted(m)
    else if s.conns[c].connected && sent == Ok then Then(Posted(m), Traffic([], [(c, Msg(ExitTag, m.to, m.from, "noproc"))]))
    else if s.conns[c].connected then Then(Posted(m), Loss(s.conns[c].links))
    else Posted(m)
  }

  function TrafficOf(s: State, e: Event): Traffic
    requires Indexed(s) && Enabled(s, e)
  {
    match e
    case DoLink(self, to, net) => Away(s, Msg(LinkTag, self, to, ""), net)
    case DoUnlink(self, to, net) => Unlinking(s, self, to, net)
    case DoExit(self, to, reason, net) =>
      Away(s, Msg(if to.node == s.home then ExitTag else Exit2Tag, self, to, reason), net)
    case DoSend(self, to, text, net) => Away(s, Msg(OtherTag, self, to, text), net)
    case DoCloseMbox(self, nets) =>
      if self in s.mboxes then Closing(s.(mboxes := s.mboxes - {self}), self, s.mboxes[self].links, nets) else NOTHING
    case DoCloseAgain(self, leftover, nets) => Closing(s, self, leftover, nets)
    case DoIncoming(c, m, sent) => Arriving(s, c, m, sent)
    case DoClose(c) => Loss(s.conns[c].links)
    case DoLost(c) => Loss(s.conns[c].links)
    case _ => NOTHING
  }

  // ---- What becomes of it ----

  /** Of the posted messages the queue of p takes those for p that are neither link nor unlink. */
  function Mail(ms: seq<Msg>, p: Pid): seq<Msg> {
    if ms == [] then []
    else
      var m := ms[|ms| - 1];
      Mail(ms[..|ms| - 1], p) + if m.to == p && m.tag != LinkTag && m.tag != UnlinkTag then [m] else []
  }

  /** The messages written on connection c. */
  function On(ws: seq<(nat, Msg)>, c: nat): seq<Msg> {
    if ws == [] then []
    else On(ws[..|ws| - 1], c) + if ws[|ws| - 1].0 == c then [ws[|ws| - 1].1] else []
  }

  function Before(s: State, c: nat): seq<Msg> {
    if c < |s.conns| then s.conns[c].sent else []
  }

  /** From s to r the queues and the sockets got what the traffic has for them. */
  ghost predicate Carried(s: State, r: State, t: Traffic) {
    && (forall p :: p in r.mboxes ==> p in s.mboxes && r.mboxes[p].queue == s.mboxes[p].queue + Mail(t.posted, p))
    && |s.conns| <= |r.conns|
    && (forall c: nat :: c < |r.conns| ==> r.conns[c].sent == Before(s, c) + On(t.written, c))
    && (forall i :: 0 <= i < |t.written| ==> t.written[i].0 < |r.conns|)
  }

  lemma {:induction false} MailAppend(a: seq<Msg>, b: seq<Msg>, p: Pid)
    ensures Mail(a + b, p) == Mail(a, p) + Mail(b, p)
  {
    if b == [] {
      assert a + b == a;
    } else {
      assert (a + b)[..|a + b| - 1] == a + b[..|b| - 1];
      MailAppend(a, b[..|b| - 1], p);
    }
  }

  lemma {:induction false} OnAppend(a: seq<(nat, Msg)>, b: seq<(nat, Msg)>, c: nat)
    ensures On(a + b, c) == On(a, c) + On(b, c)
  {
    if b == [] {
      assert a + b == a;
    } else {
      assert (a + b)[..|a + b| - 1] == a + b[..|b| - 1];
      OnAppend(a, b[..|b| - 1], c);
    }
  }

  lemma {:induction false} OnNone(ws: seq<(nat, Msg)>, c: nat)
    requires forall i :: 0 <= i < |ws| ==> ws[i].0 != c
    ensures On(ws, c) == []
  {
    if ws != [] {
      OnNone(ws[..|ws| - 1], c);
    }
  }

  lemma CarriedOn(s: State, r: State, q: State, t: Traffic, u: Traffic)
    requires Carried(s, r, t) && Carried(r, q, u)
    ensures Carried(s, q, Then(t, u))
  {
    forall p | p in q.mboxes
      ensures p in s.mboxes && q.mboxes[p].queue == s.mboxes[p].queue + Mail(t.posted + u.posted, p)
    {
      MailAppend(t.posted, u.posted, p);
    }
    forall c: nat | c < |q.conns|
      ensures q.conns[c].sent == Before(s, c) + On(t.written + u.written, c)
    {
      OnAppend(t.written, u.written, c);
      if c >= |r.conns| {
        OnNone(t.written, c);
      }
    }
  }

  lemma SameTraffic(s: State, r: State)
    requires forall p :: p in r.mboxes ==> p in s.mboxes && r.mboxes[p].queue == s.mboxes[p].queue
    requires |s.conns| <= |r.conns| && forall c: nat :: c < |r.conns| ==> r.conns[c].sent == Before(s, c)
    ensures Carried(s, r, NOTHING)
  {
  }

  lemma NothingFirst(t: Traffic)
    ensures Then(NOTHING, t) == t && Then(t, NOTHING) == t
  {
  }

  // ---- The steps ----

  lemma DeliverCarried(s: State, m: Msg)
    ensures Carried(s, Deliver(s, m).0, Posted(m))
  {
    forall p {
      MailOfOne(m, p);
    }
    hide Mail;
    assert [m] == Posted(m).posted;
  }

  lemma MailOfOne(m: Msg, p: Pid)
    ensures Mail([m], p) == if m.to == p && m.tag != LinkTag && m.tag != UnlinkTag then [m] else []
  {
    assert [m][..0] == [];
  }

  lemma {:induction false} DeliverAllCarried(s: State, ms: seq<Msg>)
    ensures Carried(s, DeliverAll(s, ms), Traffic(ms, []))
  {
    if ms == [] {
      SameTraffic(s, s);
    } else {
      var n := |ms| - 1;
      DeliverAllCarried(s, ms[..n]);
      DeliverCarried(DeliverAll(s, ms[..n]), ms[n]);
      CarriedOn(s, DeliverAll(s, ms[..n]), DeliverAll(s, ms), Traffic(ms[..n], []), Posted(ms[n]));
      assert ms[..n] + [ms[n]] == ms;
    }
  }

  lemma CloseCarried(s: State, c: nat)
    requires c < |s.conns|
    ensures Carried(s, Close(s, c), Loss(s.conns[c].links))
  {
    var conn := s.conns[c];
    var s1 := SetConn(s, c, conn.(connected := false, links := []));
    SameTraffic(s, s1);
    DeliverAllCarried(s1, NoConnection(conn.links));
    CarriedOn(s, s1, Close(s, c), NOTHING, Loss(conn.links));
    NothingFirst(Loss(conn.links));
  }

  lemma SendCarried(s: State, c: nat, m: Msg, sent: Sent)
    requires c < |s.conns|
    ensures Carried(s, Send(s, c, m, sent).0, Over(s, c, s.conns[c].links, m, sent))
  {
    if s.conns[c].connected && sent == Ok {
      assert [(c, m)][..0] == [];
      forall i: nat ensures On([(c, m)], i) == if i == c then [m] else [] {}
    } else if s.conns[c].connected && sent != OtherError {
      CloseCarried(s, c);
    } else {
      SameTraffic(s, s);
    }
  }

  /** A message over a connection that may have to be set up first. */
  lemma RouteCarried(s: State, m: Msg, net: Net)
    requires Indexed(s) && m.to.node != s.home
    ensures var (s1, oc) := Connection(s, m.to.node, net);
            && oc == Route(s, m.to.node, net)
            && Carried(s, if oc == None then s1 else Send(s1, oc.value, m, net.sent).0, Away(s, m, net))
  {
    var (s1, oc) := Connection(s, m.to.node, net);
    SameTraffic(s, s1);
    if oc.Some? {
      SendCarried(s1, oc.value, m, net.sent);
      var t := Over(s1, oc.value, s1.conns[oc.value].links, m, net.sent);
      CarriedOn(s, s1, Send(s1, oc.value, m, net.sent).0, NOTHING, t);
      NothingFirst(t);
    }
  }

  lemma ExitCarried(s: State, arity: int, self: Pid, to: Pid, reason: string, net: Net)
    requires Indexed(s)
    ensures Carried(s, Exit(s, arity, self, to, reason, net),
                    Away(s, Msg(if to.node == s.home || arity == 1 then ExitTag else Exit2Tag, self, to, reason), net))
  {
    if to.node == s.home {
      DeliverCarried(s, Msg(ExitTag, self, to, reason));
    } else {
      RouteCarried(s, Msg(if arity == 1 then ExitTag else Exit2Tag, self, to, reason), net);
    }
  }

  lemma {:induction false} ClosingCarried(s: State, self: Pid, ls: Table, nets: nat -> Net)
    requires Indexed(s)
    ensures Carried(s, ExitLinks(s, self, ls, "normal", nets), Closing(s, self, ls, nets))
  {
    if ls == [] {
      SameTraffic(s, s);
    } else {
      var n := |ls| - 1;
      var s1 := ExitLinks(s, self, ls[..n], "normal", nets);
      ClosingCarried(s, self, ls[..n], nets);
      ExitCarried(s1, 1, self, ls[n].remote, "normal", nets(n));
      CarriedOn(s, s1, ExitLinks(s, self, ls, "normal", nets), Closing(s, self, ls[..n], nets),
                Away(s1, Msg(ExitTag, self, ls[n].remote, "normal"), nets(n)));
    }
  }

  lemma LinkCarried(s: State, self: Pid, to: Pid, net: Net)
    requires Indexed(s)
    ensures Carried(s, Link_(s, self, to, net).0, Away(s, Msg(LinkTag, self, to, ""), net))
  {
    var m := Msg(LinkTag, self, to, "");
    if to.node == s.home {
      DeliverCarried(s, m);
      KeepsTraffic(s, Deliver(s, m).0, Link_(s, self, to, net).0, Posted(m));
    } else {
      LinkOverCarried(s, self, to, net);
    }
  }

  lemma LinkOverCarried(s: State, self: Pid, to: Pid, net: Net)
    requires Indexed(s) && to.node != s.home
    ensures Carried(s, Link_(s, self, to, net).0, Away(s, Msg(LinkTag, self, to, ""), net))
  {
    var m := Msg(LinkTag, self, to, "");
    var (s1, oc) := Connection(s, to.node, net);
    RouteCarried(s, m, net);
    if oc.Some? {
      SendFrame(s1, oc.value, m, net.sent);
      AddSameQueues(Send(s1, oc.value, m, net.sent).0, self, to, oc.value);
      hide Carried, Away, Send, SameQueues, AddOwn, ConnAdd;
      KeepsTraffic(s, Send(s1, oc.value, m, net.sent).0, Link_(s, self, to, net).0, Away(s, m, net));
    }
  }

  /** Changes of link tables alone. */
  lemma KeepsTraffic(s: State, r: State, q: State, t: Traffic)
    requires Carried(s, r, t) && SameQueues(r, q)
    ensures Carried(s, q, t)
  {
  }

  ghost predicate SameQueues(r: State, q: State) {
    && (forall p :: p in q.mboxes ==> p in r.mboxes && q.mboxes[p].queue == r.mboxes[p].queue)
    && |q.conns| == |r.conns| && (forall c: nat :: c < |q.conns| ==> q.conns[c].sent == r.conns[c].sent)
  }

  lemma AddSameQueues(r: State, self: Pid, to: Pid, c: nat)
    ensures SameQueues(r, r) && SameQueues(r, AddOwn(r, self, to))
    ensures c < |r.conns| ==> SameQueues(r, AddOwn(ConnAdd(r, c, self, to), self, to))
  {
  }

  lemma UnlinkCarried(s: State, self: Pid, to: Pid, net: Net)
    requires Indexed(s)
    ensures Carried(s, Unlink(s, self, to, net), Unlinking(s, self, to, net))
  {
    var m := Msg(UnlinkTag, self, to, "");
    var s0 := RemoveOwn(s, self, to);
    if to.node == s.home {
      SameTraffic(s, s0);
      DeliverCarried(s0, m);
      CarriedOn(s, s0, Unlink(s, self, to, net), NOTHING, Posted(m));
      NothingFirst(Posted(m));
    } else {
      UnlinkOverCarried(s, self, to, net);
    }
  }

  lemma UnlinkOverCarried(s: State, self: Pid, to: Pid, net: Net)
    requires Indexed(s) && to.node != s.home
    ensures Carried(s, Unlink(s, self, to, net), Unlinking(s, self, to, net))
  {
    var m := Msg(UnlinkTag, self, to, "");
    var (s1, oc) := Connection(RemoveOwn(s, self, to), to.node, net);
    if oc == None {
      SameTraffic(s, s1);
    } else {
      var s2 := ConnRemove(s1, oc.value, self, to);
      var t := Over(s2, oc.value, s2.conns[oc.value].links, m, net.sent);
      SameTraffic(s, s2);
      SendCarried(s2, oc.value, m, net.sent);
      UnlinkOver(s, self, to, net);
      hide Carried, Over, Unlinking, Send;
      CarriedOn(s, s2, Unlink(s, self, to, net), NOTHING, t);
      NothingFirst(t);
    }
  }

  /** Over a registered connection, without the link; a new connection has no links. */
  lemma UnlinkOver(s: State, self: Pid, to: Pid, net: Net)
    requires Indexed(s) && to.node != s.home && Connection(RemoveOwn(s, self, to), to.node, net).1.Some?
    ensures var (s1, oc) := Connection(RemoveOwn(s, self, to), to.node, net);
            var s2 := ConnRemove(s1, oc.value, self, to);
            Over(s2, oc.value, s2.conns[oc.value].links, Msg(UnlinkTag, self, to, ""), net.sent) == Unlinking(s, self, to, net)
  {
    assert Remove([], self, to) == [] && Loss([]) == NOTHING;
  }

  lemma SendToCarried(s: State, self: Pid, to: Pid, text: string, net: Net)
    requires Indexed(s)
    ensures Carried(s, SendTo(s, self, to, text, net), Away(s, Msg(OtherTag, self, to, text), net))
  {
    if to.node == s.home {
      DeliverCarried(s, Msg(OtherTag, self, to, text));
    } else {
      RouteCarried(s, Msg(OtherTag, self, to, text), net);
    }
  }

  lemma LostCarried(s: State, c: nat)
    requires c < |s.conns|
    ensures Carried(s, Lost(s, c), Loss(s.conns[c].links))
  {
    CloseCarried(s.(registry := s.registry - {s.conns[c].name}), c);
  }

  lemma IncomingCarried(s: State, c: nat, m: Msg, sent: Sent)
    requires c < |s.conns|
    ensures Carried(s, Incoming(s, c, m, sent), Arriving(s, c, m, sent))
  {
    var (s1, delivered) := Deliver(s, m);
    DeliverCarried(s, m);
    if m.tag == LinkTag && !delivered {
      RefusedCarried(s, c, m, sent);
    } else {
      KeepsTraffic(s, s1, Incoming(s, c, m, sent), Posted(m));
    }
  }

  lemma RefusedCarried(s: State, c: nat, m: Msg, sent: Sent)
    requires c < |s.conns| && m.tag == LinkTag && m.to !in s.mboxes
    ensures Carried(s, Incoming(s, c, m, sent), Arriving(s, c, m, sent))
  {
    var answer := Msg(ExitTag, m.to, m.from, "noproc");
    var s2 := Send(s, c, answer, sent).0;
    assert Carried(s, s, Posted(m)) by { DeliverCarried(s, m); }
    SendFrame(s, c, answer, sent);
    SendCarried(s, c, answer, sent);
    CarriedOn(s, s, s2, Posted(m), Over(s, c, s.conns[c].links, answer, sent));
    NothingFirst(Posted(m));
    if s.conns[c].connected && (sent == OtherError || sent == SocketError) {
      LostCarried(s2, c);
      var t := Over(s, c, s.conns[c].links, answer, sent);
      CarriedOn(s, s2, Lost(s2, c), Then(Posted(m), t), Loss(s2.conns[c].links));
      DeliverAllFrame(SetConn(s, c, s.conns[c].(connected := false, links := [])), NoConnection(s.conns[c].links));
      assert Loss([]) == NOTHING;
      NothingFirst(Then(Posted(m), t));
    }
  }

  /** Every step but the making of a mailbox and a receive: the queues and the sockets get exactly
      what the step has for them. */
  lemma StepCarried(s: State, e: Event)
    requires Indexed(s) && Enabled(s, e) && !e.DoCreate? && !e.DoReceive?
    ensures Carried(s, Next(s, e), TrafficOf(s, e))
  {
    match e {
      case DoLink(self, to, net) => LinkCarried(s, self, to, net);
      case DoUnlink(self, to, net) => UnlinkCarried(s, self, to, net);
      case DoExit(self, to, reason, net) => ExitCarried(s, 2, self, to, reason, net);
      case DoSend(self, to, text, net) => SendToCarried(s, self, to, text, net);
      case DoCloseMbox(self, nets) =>
        if self in s.mboxes {
          var s1 := s.(mboxes := s.mboxes - {self});
          ClosingCarried(s1, self, s.mboxes[self].links, nets);
          SameTraffic(s, s1);
          CarriedOn(s, s1, Next(s, e), NOTHING, TrafficOf(s, e));
          NothingFirst(TrafficOf(s, e));
        } else {
          SameTraffic(s, s);
        }
      case DoCloseAgain(self, leftover, nets) => ClosingCarried(s, self, leftover, nets);
      case DoAccept(name) => SameTraffic(s, Next(s, e));
      case DoIncoming(c, m, sent) => IncomingCarried(s, c, m, sent);
      case DoClose(c) => CloseCarried(s, c);
      case DoLost(c) => LostCarried(s, c);
    }
  }

  // ---- Runs ----

  /** A run: its state, what the mailboxes have handed out, and all that was posted and written.
      The first two start afresh for a pid when a mailbox is made with it. */
  datatype History = History(state: State, handed: map<Pid, seq<Msg>>, mail: map<Pid, seq<Msg>>, written: seq<(nat, Msg)>)

  /** Any run of enabled events, allowed or not. */
  ghost function Run(home: string, creation: int, es: seq<Event>): Option<History> {
    if es == [] then Some(History(LinkProtocol.Start(home, creation), map[], map[], []))
    else
      var n := |es| - 1;
      match Run(home, creation, es[..n])
      case None => None
      case Some(h) => if Indexed(h.state) && Enabled(h.state, es[n]) then Some(After(h, es[n])) else None
  }

  function Of(m: map<Pid, seq<Msg>>, p: Pid): seq<Msg> {
    if p in m then m[p] else []
  }

  ghost function After(h: History, e: Event): History
    requires Indexed(h.state) && Enabled(h.state, e)
  {
    var s := h.state;
    var t := TrafficOf(s, e);
    match e
    case DoCreate => History(Next(s, e), h.handed[NextPid(s) := []], h.mail[NextPid(s) := []], h.written)
    case DoReceive(self) =>
      var m := Receive(s, self).1;
      h.(state := Next(s, e), handed := if m == None then h.handed else h.handed[self := Of(h.handed, self) + [m.value]])
    case _ =>
      History(Next(s, e), h.handed, MoreMail(s, h.mail, t.posted), h.written + t.written)
  }

  /** Nothing is lost, invented or reordered: what a live mailbox has handed out, followed by its
      queue, is the mail posted to it, and what was written on a socket are the messages sent on
      that connection. */
  ghost predicate InOrder(h: History) {
    && AllHanded(h.state, h.handed, h.mail)
    && AllWritten(h.state, h.written)
  }

  lemma AfterInOrder(h: History, e: Event)
    requires Indexed(h.state) && Enabled(h.state, e) && InOrder(h)
    ensures InOrder(After(h, e))
  {
    var s, r := h.state, After(h, e);
    if e.DoReceive? {
      ReceiveInOrder(h, e.self);
    } else if !e.DoCreate? {
      CarriedInOrder(h, e);
    }
  }

  lemma ReceiveInOrder(h: History, self: Pid)
    requires Indexed(h.state) && InOrder(h)
    ensures InOrder(After(h, DoReceive(self)))
  {
    var r := Receive(h.state, self).0;
    ConnsAlone(h.state, r, h.written);
    if self in h.state.mboxes && h.state.mboxes[self].queue != [] {
      HeadMoves(Of(h.handed, self), h.state.mboxes[self].queue);
    }
    hide On, AllWritten;
  }

  lemma HeadMoves(a: seq<Msg>, q: seq<Msg>)
    requires q != []
    ensures a + [q[0]] + q[1..] == a + q
  {
  }

  lemma ConnsAlone(s: State, r: State, ws: seq<(nat, Msg)>)
    requires r.conns == s.conns
    ensures AllWritten(s, ws) <==> AllWritten(r, ws)
  {
  }

  lemma CarriedInOrder(h: History, e: Event)
    requires Indexed(h.state) && Enabled(h.state, e) && InOrder(h) && !e.DoCreate? && !e.DoReceive?
    ensures InOrder(After(h, e))
  {
    var t := TrafficOf(h.state, e);
    StepCarried(h.state, e);
    WrittenInOrder(h.state, Next(h.state, e), t, h.written);
    MailInOrder(h.state, Next(h.state, e), t, h.handed, h.mail);
    hide Next, TrafficOf, Carried, AllWritten, AllHanded, MoreMail, Indexed, Enabled;
  }

  ghost predicate AllHanded(s: State, handed: map<Pid, seq<Msg>>, mail: map<Pid, seq<Msg>>) {
    forall p :: p in s.mboxes ==> Of(handed, p) + s.mboxes[p].queue == Of(mail, p)
  }

  function MoreMail(s: State, mail: map<Pid, seq<Msg>>, ms: seq<Msg>): map<Pid, seq<Msg>> {
    map p | p in s.mboxes :: Of(mail, p) + Mail(ms, p)
  }

  lemma MailInOrder(s: State, r: State, t: Traffic, handed: map<Pid, seq<Msg>>, mail: map<Pid, seq<Msg>>)
    requires Carried(s, r, t) && AllHanded(s, handed, mail)
    ensures AllHanded(r, handed, MoreMail(s, mail, t.posted))
  {
    var more := MoreMail(s, mail, t.posted);
    forall p | p in r.mboxes
      ensures Of(handed, p) + r.mboxes[p].queue == Of(more, p)
    {
      hide Mail, On;
      assert Of(more, p) == Of(mail, p) + Mail(t.posted, p);
      hide Of, MoreMail;
      Onward(Of(handed, p), s.mboxes[p].queue, Mail(t.posted, p), Of(mail, p));
    }
  }

  lemma Onward(a: seq<Msg>, b: seq<Msg>, c: seq<Msg>, d: seq<Msg>)
    requires a + b == d
    ensures a + (b + c) == d + c
  {
  }

  ghost predicate AllWritten(s: State, ws: seq<(nat, Msg)>) {
    && (forall c: nat :: c < |s.conns| ==> s.conns[c].sent == On(ws, c))
    && (forall i :: 0 <= i < |ws| ==> ws[i].0 < |s.conns|)
  }

  lemma WrittenInOrder(s: State, r: State, t: Traffic, ws: seq<(nat, Msg)>)
    requires Carried(s, r, t) && AllWritten(s, ws)
    ensures AllWritten(r, ws + t.written)
  {
    hide Mail;
    forall c: nat | c < |r.conns|
      ensures r.conns[c].sent == On(ws + t.written, c)
    {
      OnAppend(ws, t.written, c);
      if c >= |s.conns| {
        OnNone(ws, c);
      }
    }
  }

  lemma {:induction false} RunInOrder(home: string, creation: int, es: seq<Event>)
    ensures var oh := Run(home, creation, es); oh.Some? ==> InOrder(oh.value)
  {
    if es != [] {
      var n := |es| - 1;
      RunInOrder(home, creation, es[..n]);
      var oh := Run(home, creation, es[..n]);
      if oh.Some? && Indexed(oh.value.state) && Enabled(oh.value.state, es[n]) {
        AfterInOrder(oh.value, es[n]);
      }
    }
  }
}
