/** The node, its mailboxes and its connections as objects (OtpNode.cs, OtpMbox.cs,
    OtpCookedConnection.cs). Every method is verified against its LinkProtocol function. */
module OtpNodes {
  import opened Erlang
  import opened Links
  import opened LinkProtocol
  import OtpIds

  class OtpNode {
    const home: string
    const creation: int
    const local: OtpIds.OtpLocalNode               // the OtpLocalNode part of the node
    var byPid: map<Pid, OtpMbox>                   // Mailboxes.byPid
    var connections: map<string, OtpCookedConnection>
    ghost var conns: seq<OtpCookedConnection>      // every connection object made so far
    ghost var Repr: set<object>

    ghost predicate Valid()
      reads this, Repr
    {
      && this in Repr && local in Repr && local.refId in Repr
      && local.Valid() && local.node == home && local.creation == creation
      && (forall p :: p in byPid ==> byPid[p] in Repr && byPid[p].self == p && byPid[p].home == this)
      && (forall i :: 0 <= i < |conns| ==> conns[i] in Repr && conns[i].id == i && conns[i].self == this)
      && (forall n :: n in connections ==>
            connections[n].id < |conns| && conns[connections[n].id] == connections[n])
    }

    /** The protocol state these objects stand for. */
    ghost function Abs(): (s: State)
      reads this, Repr
      requires Valid()
    {
      State(home, creation, local.pids,
            map p | p in byPid :: byPid[p].Value(),
            seq(|conns|, i requires 0 <= i < |conns| reads this, Repr, conns => conns[i].Value()),
            map n | n in connections :: connections[n].id)
    }

    constructor (home: string, creation: int)
      ensures Valid() && fresh(Repr)
      ensures Abs() == Start(home, creation)
    {
      this.home, this.creation := home, creation;
      local := new OtpIds.OtpLocalNode(home, creation);
      byPid, connections, conns := map[], map[], [];
      new;
      Repr := {this, local, local.refId};
    }

    method CreateMbox() returns (m: OtpMbox)
      requires Valid()
      modifies Repr
      ensures Valid() && fresh(Repr - old(Repr))
      ensures Abs() == LinkProtocol.CreateMbox(old(Abs()))
      ensures fresh(m) && m.self == NextPid(old(Abs())) && m.self in byPid && byPid[m.self] == m
    {
      var pid := local.CreatePid();
      m := new OtpMbox(this, pid);
      AddMbox(m);
    }

    method AddMbox(m: OtpMbox)
      requires Valid() && m.home == this
      modifies this`byPid, this`Repr
      ensures Valid() && byPid == old(byPid)[m.self := m] && Repr == old(Repr) + {m}
      ensures Abs() == old(Abs()).(mboxes := old(Abs()).mboxes[m.self := m.Value()])
    {
      byPid, Repr := byPid[m.self := m], Repr + {m};
      assert Abs().mboxes == old(Abs()).mboxes[m.self := m.Value()];
      assert Abs().conns == old(Abs()).conns;
    }

    /** OtpNode.deliver for a message addressed to a pid. */
    method Deliver(m: Msg) returns (delivered: bool)
      requires Valid()
      modifies byPid.Values
      ensures Valid()
      ensures (Abs(), delivered) == LinkProtocol.Deliver(old(Abs()), m)
    {
      if m.to !in byPid {
        return false;
      }
      var mbox := byPid[m.to];
      mbox.Deliver(m);
      delivered := true;
      assert Abs().mboxes == old(Abs()).mboxes[m.to := MboxDeliver(old(Abs()).mboxes[m.to], m.to, m)];
      assert Abs().conns == old(Abs()).conns;
    }

    /** OtpNode.connection; null when no connection could be set up. */
    method Connection(name: string, net: Net) returns (conn: OtpCookedConnection?)
      requires Valid()
      modifies this
      ensures Valid() && fresh(Repr - old(Repr)) && old(Repr) <= Repr && byPid == old(byPid)
      ensures conn != null ==> conn.id < |conns| && conns[conn.id] == conn
      ensures (Abs(), if conn == null then None else Some(conn.id))
           == LinkProtocol.Connection(old(Abs()), name, net)
    {
      if name in connections {
        conn := connections[name];
      } else if net.reachable {
        conn := new OtpCookedConnection(this, name, |conns|);
        AddConnection(conn);
      } else {
        conn := null;
      }
    }

    method AddConnection(conn: OtpCookedConnection)
      requires Valid() && conn.id == |conns| && conn.self == this
      requires conn.Value() == Conn(conn.name, true, [], [])
      modifies this
      ensures Valid() && byPid == old(byPid) && conns == old(conns) + [conn] && Repr == old(Repr) + {conn}
      ensures Abs() == LinkProtocol.AddConnection(old(Abs()), conn.name)
    {
      ghost var s := Abs();
      connections := connections[conn.name := conn];
      conns, Repr := conns + [conn], Repr + {conn};
      assert Valid();
      assert Abs().mboxes == s.mboxes;
      assert Abs().registry == s.registry[conn.name := |s.conns|];
      assert Abs().conns == s.conns + [conn.Value()];
    }

    method CloseMbox(mbox: OtpMbox, nets: nat -> Net)
      requires Valid() && Indexed(Abs()) && mbox.home == this && Knows(mbox)
      modifies Repr
      ensures Valid() && fresh(Repr - old(Repr))
      ensures Abs() == if mbox.self in old(byPid) then LinkProtocol.CloseMbox(old(Abs()), mbox.self, nets)
                       else CloseAgain(old(Abs()), mbox.self, old(mbox.links), nets)
    {
      hide ExitLinks, Indexed;
      RemoveMbox(mbox);
      mbox.BreakLinks("normal", nets);
    }

    method RemoveMbox(mbox: OtpMbox)
      requires Valid()
      modifies this`byPid
      ensures Valid() && mbox.self !in byPid
      ensures Abs() == if mbox.self in old(byPid) then old(Abs()).(mboxes := old(Abs()).mboxes - {mbox.self}) else old(Abs())
      ensures Indexed(old(Abs())) ==> Indexed(Abs())
    {
      byPid := byPid - {mbox.self};
      assert Abs().mboxes == old(Abs()).mboxes - {mbox.self};
      assert Abs().conns == old(Abs()).conns;
    }

    /** A mailbox object of this node is either the registered one for its pid, or closed. */
    ghost predicate Knows(mbox: OtpMbox)
      reads this
    {
      mbox in Repr && (mbox.self in byPid ==> byPid[mbox.self] == mbox)
    }

    /** OtpNode.deliverError with removeConnection. */
    method DeliverError(conn: OtpCookedConnection)
      requires Valid()
      modifies this`connections
      ensures Valid()
      ensures Abs() == old(Abs()).(registry := old(Abs()).registry - {conn.name})
    {
      connections := connections - {conn.name};
      assert Abs().registry == old(Abs()).registry - {conn.name};
    }
  }

  class OtpMbox {
    const home: OtpNode
    const self: Pid
    var links: Table
    var queue: seq<Msg>

    ghost function Value(): Mbox
      reads this
    {
      Mbox(links, queue)
    }

    constructor (home: OtpNode, self: Pid)
      ensures this.home == home && this.self == self && Value() == Mbox([], [])
    {
      this.home, this.self, links, queue := home, self, [], [];
    }

    method Deliver(m: Msg)
      modifies this
      ensures Value() == MboxDeliver(old(Value()), self, m)
    {
      match m.tag {
        case LinkTag => links := Add(links, self, m.from);
        case UnlinkTag => links := Remove(links, self, m.from);
        case ExitTag =>
          links := Remove(links, self, m.from);
          queue := queue + [m];
        case Exit2Tag => queue := queue + [m];
        case OtherTag => queue := queue + [m];
      }
    }

    /** links.addLink(_self, to); only a live mailbox shows in the node's state. */
    method AddOwnLink(to: Pid)
      requires home.Valid() && home.Knows(this)
      modifies this
      ensures home.Valid() && home.Abs() == AddOwn(old(home.Abs()), self, to)
    {
      links := Add(links, self, to);
      assert home.Abs().mboxes == AddOwn(old(home.Abs()), self, to).mboxes;
      assert home.Abs().conns == old(home.Abs()).conns;
    }

    method RemoveOwnLink(to: Pid)
      requires home.Valid() && home.Knows(this)
      modifies this
      ensures home.Valid() && home.Abs() == RemoveOwn(old(home.Abs()), self, to)
    {
      links := Remove(links, self, to);
      assert home.Abs().mboxes == RemoveOwn(old(home.Abs()), self, to).mboxes;
      assert home.Abs().conns == old(home.Abs()).conns;
    }

    /** False when Erlang.Exit("noproc") is raised. */
    method Link(to: Pid, net: Net) returns (ok: bool)
      requires home.Valid() && home.Knows(this) && Indexed(home.Abs())
      modifies home.Repr
      ensures home.Valid() && home.Knows(this) && fresh(home.Repr - old(home.Repr))
      ensures (home.Abs(), ok) == Link_(old(home.Abs()), self, to, net)
    {
      if to.node == home.home {
        var delivered := home.Deliver(Msg(LinkTag, self, to, ""));
        if !delivered {
          return false;
        }
      } else {
        var conn := home.Connection(to.node, net);
        if conn == null {
          return false;
        }
        var sent := conn.Link(self, to, net.sent);
        if sent == IoError {
          return false;
        }
      }
      AddOwnLink(to);
      return true;
    }

    method Unlink(to: Pid, net: Net)
      requires home.Valid() && home.Knows(this) && Indexed(home.Abs())
      modifies home.Repr
      ensures home.Valid() && home.Knows(this) && fresh(home.Repr - old(home.Repr))
      ensures home.Abs() == LinkProtocol.Unlink(old(home.Abs()), self, to, net)
    {
      RemoveOwnLink(to);
      if to.node == home.home {
        var _ := home.Deliver(Msg(UnlinkTag, self, to, ""));
      } else {
        var conn := home.Connection(to.node, net);
        if conn != null {
          conn.Unlink(self, to, net.sent);
        }
      }
    }

    method Exit(arity: int, to: Pid, reason: string, net: Net)
      requires home.Valid() && home.Knows(this) && Indexed(home.Abs())
      modifies home.Repr
      ensures home.Valid() && home.Knows(this) && fresh(home.Repr - old(home.Repr))
      ensures home.byPid == old(home.byPid)
      ensures home.Abs() == LinkProtocol.Exit(old(home.Abs()), arity, self, to, reason, net)
    {
      if to.node == home.home {
        var _ := home.Deliver(Msg(ExitTag, self, to, reason));
      } else {
        var conn := home.Connection(to.node, net);
        if conn != null {
          var _ := conn.Write(Msg(if arity == 1 then ExitTag else Exit2Tag, self, to, reason), net.sent);
        }
      }
    }

    /** send to a pid */
    method SendTo(to: Pid, text: string, net: Net)
      requires home.Valid() && home.Knows(this) && Indexed(home.Abs())
      modifies home.Repr
      ensures home.Valid() && home.Knows(this) && fresh(home.Repr - old(home.Repr))
      ensures home.Abs() == LinkProtocol.SendTo(old(home.Abs()), self, to, text, net)
    {
      if to.node == home.home {
        var _ := home.Deliver(Msg(OtherTag, self, to, text));
      } else {
        var conn := home.Connection(to.node, net);
        if conn != null {
          var _ := conn.Write(Msg(OtherTag, self, to, text), net.sent);
        }
      }
    }

    /** receiveMsg: the first message waiting; a closed mailbox still hands out what it has. */
    method ReceiveMsg() returns (m: Option<Msg>)
      requires home.Valid() && home.Knows(this)
      modifies this
      ensures home.Valid() && links == old(links)
      ensures if old(queue) == [] then m == None && queue == [] else m == Some(old(queue)[0]) && queue == old(queue)[1..]
      ensures home.Abs() == Receive(old(home.Abs()), self).0
      ensures self in home.byPid ==> m == Receive(old(home.Abs()), self).1
    {
      if queue == [] {
        return None;
      }
      m := Some(queue[0]);
      queue := queue[1..];
      assert home.Abs().mboxes == Receive(old(home.Abs()), self).0.mboxes;
      assert home.Abs().conns == old(home.Abs()).conns;
    }

    /** Breaks all links of a mailbox that is no longer live. */
    method BreakLinks(reason: string, nets: nat -> Net)
      requires home.Valid() && home.Knows(this) && self !in home.byPid && Indexed(home.Abs())
      modifies home.Repr
      ensures home.Valid() && home.Knows(this) && fresh(home.Repr - old(home.Repr))
      ensures home.Abs() == ExitLinks(old(home.Abs()), self, old(links), reason, nets)
    {
      var l := links;
      links := [];
      ghost var s0 := home.Abs();
      assert s0.mboxes == old(home.Abs()).mboxes;
      assert s0.conns == old(home.Abs()).conns;
      for i := 0 to |l|
        invariant home.Valid() && fresh(home.Repr - old(home.Repr))
        invariant home.byPid == old(home.byPid) && home.Knows(this)
        invariant home.Abs() == ExitLinks(s0, self, l[..i], reason, nets)
      {
        ExitStep(s0, self, l, i, reason, nets);
        Exit(1, l[i].remote, reason, nets(i));
      }
      assert l[..|l|] == l;
    }
  }

  lemma DeliverStep(s: State, ms: seq<Msg>, i: nat)
    requires i < |ms|
    ensures DeliverAll(s, ms[..i + 1]) == LinkProtocol.Deliver(DeliverAll(s, ms[..i]), ms[i]).0
  {
    assert ms[..i + 1][..i] == ms[..i];
  }

  lemma ExitStep(s: State, self: Pid, l: Table, i: nat, reason: string, nets: nat -> Net)
    requires Indexed(s) && i < |l|
    ensures Indexed(ExitLinks(s, self, l[..i], reason, nets))
    ensures ExitLinks(s, self, l[..i + 1], reason, nets)
         == LinkProtocol.Exit(ExitLinks(s, self, l[..i], reason, nets), 1, self, l[i].remote, reason, nets(i))
  {
    assert l[..i + 1][..i] == l[..i];
  }

  class OtpCookedConnection {
    const self: OtpNode
    const name: string
    ghost const id: nat
    var connected: bool
    var links: Table
    var sent: seq<Msg>            // what was written to the socket

    ghost function Value(): Conn
      reads this
    {
      Conn(name, connected, links, sent)
    }

    constructor (self: OtpNode, name: string, ghost id: nat)
      ensures this.self == self && this.name == name && this.id == id
      ensures Value() == Conn(name, true, [], [])
    {
      this.self, this.name, this.id := self, name, id;
      connected, links, sent := true, [], [];
    }

    /** This object is part of its node. */
    ghost predicate Registered()
      reads self
    {
      id < |self.conns| && self.conns[id] == this
    }

    /** close with breakLinks */
    method Close()
      requires self.Valid() && Registered()
      modifies this, self.byPid.Values
      ensures self.Valid()
      ensures self.Abs() == LinkProtocol.Close(old(self.Abs()), id)
    {
      connected := false;
      var l := links;
      links := [];
      ghost var s0 := SetConn(old(self.Abs()), id, Conn(name, false, [], sent));
      assert self.Abs().mboxes == s0.mboxes;
      assert self.Abs().conns == s0.conns;
      ghost var ms := NoConnection(l);
      for i := 0 to |l|
        invariant self.Valid()
        invariant self.Abs() == DeliverAll(s0, ms[..i])
      {
        DeliverStep(s0, ms, i);
        var _ := self.Deliver(Msg(ExitTag, l[i].remote, l[i].local, "noconnection"));
      }
      assert ms[..|l|] == ms;
    }

    /** sendLink, sendUnlink, sendExit, sendExit2 with do_send */
    method Write(m: Msg, outcome: Sent) returns (res: Sent)
      requires self.Valid() && Registered()
      modifies this, self.byPid.Values
      ensures self.Valid()
      ensures (self.Abs(), res) == Send(old(self.Abs()), id, m, outcome)
    {
      if !connected {
        return IoError;
      }
      match outcome {
        case Ok =>
          sent := sent + [m];
          assert self.Abs().mboxes == old(self.Abs()).mboxes;
          assert self.Abs().conns == old(self.Abs()).conns[id := Value()];
        case IoError => Close();
        case SocketError => Close();
        case OtherError =>
      }
      return outcome;
    }

    method AddPair(a: Pid, b: Pid)
      requires self.Valid() && Registered()
      modifies this
      ensures self.Valid() && self.Abs() == ConnAdd(old(self.Abs()), id, a, b)
    {
      links := Add(links, a, b);
      assert self.Abs().mboxes == old(self.Abs()).mboxes;
      assert self.Abs().conns == old(self.Abs()).conns[id := Value()];
    }

    method RemovePair(a: Pid, b: Pid)
      requires self.Valid() && Registered()
      modifies this
      ensures self.Valid() && self.Abs() == ConnRemove(old(self.Abs()), id, a, b)
    {
      links := Remove(links, a, b);
      assert self.Abs().mboxes == old(self.Abs()).mboxes;
      assert self.Abs().conns == old(self.Abs()).conns[id := Value()];
    }

    /** The pair is entered once the request is on the wire. IOException becomes
        Erlang.Exit("noproc"), another exception passes through. */
    method Link(from: Pid, to: Pid, outcome: Sent) returns (res: Sent)
      requires self.Valid() && Registered()
      modifies this, self.byPid.Values
      ensures self.Valid()
      ensures var (s1, r) := Send(old(self.Abs()), id, Msg(LinkTag, from, to, ""), outcome);
              res == r && id < |s1.conns| && self.Abs() == if r == Ok then ConnAdd(s1, id, from, to) else s1
    {
      SendFrame(self.Abs(), id, Msg(LinkTag, from, to, ""), outcome);
      res := Write(Msg(LinkTag, from, to, ""), outcome);
      if res == Ok {
        AddPair(from, to);
      }
    }

    method Unlink(from: Pid, to: Pid, outcome: Sent)
      requires self.Valid() && Registered()
      modifies this, self.byPid.Values
      ensures self.Valid()
      ensures self.Abs() == Send(ConnRemove(old(self.Abs()), id, from, to), id, Msg(UnlinkTag, from, to, ""), outcome).0
    {
      RemovePair(from, to);
      var _ := Write(Msg(UnlinkTag, from, to, ""), outcome);
    }

    /** deliver(OtpMsg), with the end of the reader thread when the answer throws. */
    method Deliver(m: Msg, outcome: Sent)
      requires self.Valid() && Registered()
      modifies this, self, self.byPid.Values
      ensures self.Valid() && self.byPid == old(self.byPid) && self.conns == old(self.conns)
      ensures self.Abs() == Incoming(old(self.Abs()), id, m, outcome)
    {
      var delivered := self.Deliver(m);
      match m.tag {
        case LinkTag =>
          if delivered {
            AddPair(m.to, m.from);
          } else {
            SendFrame(self.Abs(), id, Msg(ExitTag, m.to, m.from, "noproc"), outcome);
            var res := Write(Msg(ExitTag, m.to, m.from, "noproc"), outcome);
            if res == OtherError || res == SocketError {
              ReaderEnds();
            }
          }
        case UnlinkTag => RemovePair(m.to, m.from);
        case ExitTag => RemovePair(m.to, m.from);
        case Exit2Tag =>
        case OtherTag =>
      }
    }

    /** The catch and finally blocks of AbstractConnection.Start. */
    method ReaderEnds()
      requires self.Valid() && Registered()
      modifies this, self, self.byPid.Values
      ensures self.Valid() && self.byPid == old(self.byPid) && self.conns == old(self.conns)
      ensures self.Abs() == Lost(old(self.Abs()), id)
    {
      self.DeliverError(this);
      Close();
    }
  }
}
