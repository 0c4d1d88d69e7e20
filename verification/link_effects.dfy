/** What a mailbox receives when a connection or another mailbox is closed, what a link request
    achieves, and two short runs that leave the invariant. */
module LinkEffects {
  import opened Erlang
  import opened Links
  import opened LinkProtocol
  import opened LinkInvariant
  import opened LinkSteps
  import OtpIds

  /** How many exit messages from `from` with the given reason are in a queue. */
  function CountExits(q: seq<Msg>, from: Pid, reason: string): nat {
    if q == [] then 0
    else
      var m := q[|q| - 1];
      CountExits(q[..|q| - 1], from, reason) +
      if m.tag == ExitTag && m.from == from && m.text == reason then 1 else 0
  }

  lemma {:induction false} CountAppend(q: seq<Msg>, t: seq<Msg>, from: Pid, reason: string)
    ensures CountExits(q + t, from, reason) == CountExits(q, from, reason) + CountExits(t, from, reason)
  {
    if t == [] {
      assert q + t == q;
    } else {
      assert (q + t)[..|q + t| - 1] == q + t[..|t| - 1];
      CountAppend(q, t[..|t| - 1], from, reason);
    }
  }

  // ---- Connection loss ----

  /** The exits that breaking the links ls brings mailbox p. */
  function ExitsFor(p: Pid, ls: Table): seq<Msg> {
    if ls == [] then []
    else
      var l := ls[|ls| - 1];
      ExitsFor(p, ls[..|ls| - 1]) +
      if l.local == p then [Msg(ExitTag, l.remote, p, "noconnection")] else []
  }

  lemma {:induction false} BreakQueue(s: State, ls: Table, p: Pid)
    requires p in s.mboxes
    ensures p in DeliverAll(s, NoConnection(ls)).mboxes
    ensures DeliverAll(s, NoConnection(ls)).mboxes[p].queue == s.mboxes[p].queue + ExitsFor(p, ls)
  {
    var ms := NoConnection(ls);
    DeliverAllFrame(s, ms);
    if ls != [] {
      var n := |ls| - 1;
      assert ms[..n] == NoConnection(ls[..n]);
      BreakQueue(s, ls[..n], p);
      DeliverAllFrame(s, ms[..n]);
    }
  }

  lemma {:induction false} ExitsForCount(p: Pid, ls: Table, b: Pid)
    requires NoDup(ls)
    ensures CountExits(ExitsFor(p, ls), b, "noconnection") == if Link(p, b) in ls then 1 else 0
    ensures forall m :: m in ExitsFor(p, ls) ==> m == Msg(ExitTag, m.from, p, "noconnection") && Link(p, m.from) in ls
  {
    if ls != [] {
      var n := |ls| - 1;
      var l := ls[n];
      ExitsForCount(p, ls[..n], b);
      assert ls == ls[..n] + [l];
      assert l !in ls[..n];
      var tail := if l.local == p then [Msg(ExitTag, l.remote, p, "noconnection")] else [];
      CountAppend(ExitsFor(p, ls[..n]), tail, b, "noconnection");
      assert tail != [] ==> tail[..0] == [];
    }
  }

  /** b is on the node that the connected connection c leads to. */
  predicate Over(s: State, c: nat, b: Pid)
    requires c < |s.conns|
  {
    s.conns[c].connected && b.node == s.conns[c].name
  }

  /** Closing a connection queues at each live mailbox one "noconnection" exit per link it had
      over that connection, and nothing else. */
  lemma ConnectionLoss(s: State, c: nat, p: Pid)
    requires Inv(s) && c < |s.conns| && p in s.mboxes
    ensures p in Close(s, c).mboxes
    ensures exists news ::
              && Close(s, c).mboxes[p].queue == s.mboxes[p].queue + news
              && (forall m :: m in news ==>
                    m == Msg(ExitTag, m.from, p, "noconnection") && Linked(s, p, m.from) && Over(s, c, m.from))
              && (forall b :: CountExits(news, b, "noconnection") == if Linked(s, p, b) && Over(s, c, b) then 1 else 0)
  {
    var conn := s.conns[c];
    BreakQueue(SetConn(s, c, conn.(connected := false, links := [])), conn.links, p);
    var news := ExitsFor(p, conn.links);
    assert ConnOk(s, conn);
    forall b
      ensures CountExits(news, b, "noconnection") == if Linked(s, p, b) && Over(s, c, b) then 1 else 0
    {
      ExitsForCount(p, conn.links, b);
      LinkIsOn(s, c, p, b);
    }
    forall m | m in news
      ensures m == Msg(ExitTag, m.from, p, "noconnection") && Linked(s, p, m.from) && Over(s, c, m.from)
    {
      ExitsForCount(p, conn.links, m.from);
      LinkIsOn(s, c, p, m.from);
    }
  }

  /** After a connection is closed no live mailbox is linked to that peer, every other link is
      still there, and closing again changes nothing. */
  lemma ConnectionLossLinks(s: State, c: nat, a: Pid, b: Pid)
    requires Inv(s) && c < |s.conns|
    ensures Linked(Close(s, c), a, b) <==> Linked(s, a, b) && !Over(s, c, b)
    ensures |Close(s, c).conns| == |s.conns|
    ensures Inv(Close(s, c)) && Close(Close(s, c), c) == Close(s, c)
  {
    CloseKeeps(s, c, {});
  }

  lemma LinkIsOn(s: State, c: nat, p: Pid, b: Pid)
    requires Inv(s) && c < |s.conns| && p in s.mboxes
    ensures Link(p, b) in s.conns[c].links <==> Linked(s, p, b) && s.conns[c].connected && b.node == s.conns[c].name
  {
    var conn := s.conns[c];
    assert ConnOk(s, conn);
    BornHome(s, p);
    if Link(p, b) in conn.links {
      assert On(s, c, p, b);
      assert conn.connected;
    }
    if Linked(s, p, b) && conn.connected && b.node == conn.name {
      assert On(s, c, p, b);
      var l :| l in conn.links && l.Joins(p, b);
      assert l == Link(p, b);
    }
  }

  // ---- Closing a mailbox ----

  lemma ExitsForOther(p: Pid, ls: Table, b: Pid, reason: string)
    requires reason != "noconnection"
    ensures CountExits(ExitsFor(p, ls), b, reason) == 0
  {
    if ls != [] {
      var l := ls[|ls| - 1];
      var tail := if l.local == p then [Msg(ExitTag, l.remote, p, "noconnection")] else [];
      ExitsForOther(p, ls[..|ls| - 1], b, reason);
      CountAppend(ExitsFor(p, ls[..|ls| - 1]), tail, b, reason);
      assert tail != [] ==> tail[..0] == [];
    }
  }

  /** One exit of a closed mailbox queues at most itself and "noconnection" exits. */
  lemma ExitQueue(s: State, self: Pid, to: Pid, reason: string, net: Net, b: Pid)
    requires Indexed(s) && b in s.mboxes && self.node == s.home && reason != "noconnection"
    ensures var r := Exit(s, 1, self, to, reason, net);
            && b in r.mboxes
            && CountExits(r.mboxes[b].queue, self, reason)
               == CountExits(s.mboxes[b].queue, self, reason) + (if to == b && to.node == s.home then 1 else 0)
  {
    ExitFrame(s, 1, self, to, reason, net);
    if to.node == s.home {
      var m := Msg(ExitTag, self, to, reason);
      CountAppend(s.mboxes[b].queue, [m], self, reason);
      assert [m][..0] == [];
    } else {
      var (s1, oc) := Connection(s, to.node, net);
      if oc.Some? && s1.conns[oc.value].connected && (net.sent == IoError || net.sent == SocketError) {
        var conn := s1.conns[oc.value];
        BreakQueue(SetConn(s1, oc.value, conn.(connected := false, links := [])), conn.links, b);
        ExitsForOther(b, conn.links, self, reason);
        CountAppend(s.mboxes[b].queue, ExitsFor(b, conn.links), self, reason);
      }
    }
  }

  lemma {:induction false} ExitLinksQueue(s: State, self: Pid, ls: Table, reason: string, nets: nat -> Net, b: Pid)
    requires Indexed(s) && b in s.mboxes && self.node == s.home == b.node && reason != "noconnection"
    requires MboxOk(self, Mbox(ls, []))
    ensures CountExits(ExitLinks(s, self, ls, reason, nets).mboxes[b].queue, self, reason)
            == CountExits(s.mboxes[b].queue, self, reason) + (if Link(self, b) in ls then 1 else 0)
  {
    if ls != [] {
      var n := |ls| - 1;
      var s1 := ExitLinks(s, self, ls[..n], reason, nets);
      ExitLinksQueue(s, self, ls[..n], reason, nets, b);
      ExitQueue(s1, self, ls[n].remote, reason, nets(n), b);
      hide Exit, CountExits;
      LastLink(self, ls, b);
    }
  }

  lemma LastLink(self: Pid, ls: Table, b: Pid)
    requires ls != [] && MboxOk(self, Mbox(ls, []))
    ensures MboxOk(self, Mbox(ls[..|ls| - 1], []))
    ensures Link(self, b) in ls <==> Link(self, b) in ls[..|ls| - 1] || ls[|ls| - 1].remote == b
    ensures !(Link(self, b) in ls[..|ls| - 1] && ls[|ls| - 1].remote == b)
  {
    var n := |ls| - 1;
    assert ls == ls[..n] + [ls[n]];
    assert ls[n] !in ls[..n];
    assert ls[n] == Link(self, ls[n].remote);
  }

  /** Closing a mailbox queues exactly one "normal" exit at each other live mailbox it was
      linked to and none at the others, whatever happens to connections meanwhile; the links
      between the others and it are gone. */
  lemma MailboxClose(s: State, self: Pid, nets: nat -> Net, b: Pid)
    requires Inv(s) && self in s.mboxes && b in s.mboxes && b != self
    ensures var r := CloseMbox(s, self, nets);
            && b in r.mboxes && self !in r.mboxes && !Linked(r, b, self)
            && CountExits(r.mboxes[b].queue, self, "normal")
               == CountExits(s.mboxes[b].queue, self, "normal") + (if Linked(s, b, self) then 1 else 0)
  {
    var ls := s.mboxes[self].links;
    BornHome(s, self);
    BornHome(s, b);
    CloseMboxKeeps(s, self, nets);
    ExitLinksQueue(s.(mboxes := s.mboxes - {self}), self, ls, "normal", nets, b);
    assert Linked(s, b, self) <==> Linked(s, self, b);
    if Linked(s, self, b) {
      var l :| l in ls && l.Joins(self, b);
      assert l == Link(self, b);
    }
    if Link(self, b) in ls {
      assert Linked(s, self, b);
    }
  }

  /** Closing a closed mailbox once more sends one exit for each link made since. */
  lemma MailboxCloseAgain(s: State, self: Pid, leftover: Table, nets: nat -> Net, b: Pid)
    requires Inv(s) && Born(s, self) && self !in s.mboxes && b in s.mboxes
    requires MboxOk(self, Mbox(leftover, []))
    ensures var r := CloseAgain(s, self, leftover, nets);
            && Inv(r) && b in r.mboxes && self !in r.mboxes
            && CountExits(r.mboxes[b].queue, self, "normal")
               == CountExits(s.mboxes[b].queue, self, "normal") + (if Link(self, b) in leftover then 1 else 0)
  {
    BornHome(s, self);
    BornHome(s, b);
    CloseAgainKeeps(s, self, leftover, nets);
    hide Inv, CountExits, Exit;
    ExitLinksQueue(s, self, leftover, "normal", nets, b);
  }

  // ---- Link requests ----

  /** For a live mailbox, link returns normally exactly when the link is there afterwards. */
  lemma LinkResult(s: State, self: Pid, to: Pid, net: Net)
    requires Inv(s) && self in s.mboxes
    ensures var (r, ok) := Link_(s, self, to, net); ok <==> Linked(r, self, to)
  {
    if to.node == s.home {
      LinkLocalIff(s, self, to, net);
    } else {
      var (s1, oc) := Connection(s, to.node, net);
      ConnectionKeeps(s, to.node, net, {});
      if oc.Some? {
        LinkOverResult(s1, oc.value, self, to, net.sent);
      }
    }
  }

  lemma LinkOverResult(s: State, c: nat, self: Pid, to: Pid, sent: Sent)
    requires Inv(s) && self in s.mboxes && to.node != s.home
    requires to.node in s.registry && s.registry[to.node] == c
    ensures var (r, res) := Send(s, c, Msg(LinkTag, self, to, ""), sent);
            && c < |r.conns|
            && (res == IoError ==> !Linked(r, self, to))
            && (res != IoError ==> Linked(AddOwn(r, self, to), self, to) && Linked(AddOwn(ConnAdd(r, c, self, to), self, to), self, to))
  {
    var m := Msg(LinkTag, self, to, "");
    var (r, res) := Send(s, c, m, sent);
    SendKeeps(s, c, m, sent, {});
    AddOwnEffect(r, self, to);
    if res == IoError {
      CloseKeeps(s, c, {});
      assert !r.conns[c].connected && ConnOk(r, r.conns[c]);
      assert !On(r, c, self, to);
    }
  }

  /** A link request for nobody leaves the connection open exactly if the answer could be written;
      the reader thread goes on, and the name stays registered, after an IOException too, but not
      after any other exception. */
  lemma RefusedLink(s: State, c: nat, m: Msg, sent: Sent)
    requires Inv(s) && c < |s.conns| && s.conns[c].connected && m.tag == LinkTag && m.to !in s.mboxes
    ensures var r := Incoming(s, c, m, sent);
            && c < |r.conns| && (r.conns[c].connected <==> sent == Ok)
            && (s.conns[c].name in r.registry <==> sent == Ok || sent == IoError)
  {
    var conn := s.conns[c];
    var answer := Msg(ExitTag, m.to, m.from, "noproc");
    ConnectedIsRegistered(s, c);
    SendFrame(s, c, answer, sent);
    DeliverAllFrame(SetConn(s, c, conn.(connected := false, links := [])), NoConnection(conn.links));
    var s2 := Send(s, c, answer, sent).0;
    var t := s2.(registry := s2.registry - {s2.conns[c].name});
    DeliverAllFrame(SetConn(t, c, t.conns[c].(connected := false, links := [])), NoConnection(t.conns[c].links));
  }

  // ---- Runs that leave the invariant ----

  /** One mailbox asks for a link to r; the connection is made but the write ends in an
      exception other than IOException. The mailbox is then linked, the connection is not. */
  lemma SwallowedErrorBreaks(home: string, r: Pid)
    requires r.node != home
    ensures var s1 := Next(Start(home, 0), DoCreate);
            var p := OtpIds.PidAt(home, 0, 0);
            Enabled(s1, DoLink(p, r, Net(true, OtherError)))
            && !Inv(Next(s1, DoLink(p, r, Net(true, OtherError))))
  {
    var s := Start(home, 0);
    var s1 := Next(s, DoCreate);
    var p := OtpIds.PidAt(home, 0, 0);
    assert Inv(s);
    PidsStayFresh(s);
    StepKeepsInvIffAllowed(s, DoCreate);
    assert Born(s1, p);
    assert !Linked(s1, p, r);
    StepKeepsInvIffAllowed(s1, DoLink(p, r, Net(true, OtherError)));
  }

  /** exit(to, reason) between two linked mailboxes drops only the receiver's half. */
  lemma LocalExitBreaks(s: State, a: Pid, b: Pid, reason: string, net: Net)
    requires Inv(s) && a in s.mboxes && b in s.mboxes && a != b && Linked(s, a, b)
    ensures var r := Next(s, DoExit(a, b, reason, net)); Linked(r, a, b) && !Linked(r, b, a)
  {
    BornHome(s, a);
    BornHome(s, b);
    RemoveFromMbox(b, s.mboxes[b], a);
  }
}
