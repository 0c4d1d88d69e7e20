/** Which steps keep the invariant of the link protocol: exactly the allowed ones. */
module LinkSteps {
  import opened Erlang
  import opened Links
  import opened LinkProtocol
  import opened LinkInvariant
  import OtpIds

  // ---- When a step keeps the invariant ----

  /** The pid about to be made is named by no link of another mailbox or of a connection. */
  ghost predicate FreshPid(s: State) {
    && (forall a :: a != NextPid(s) ==> !Linked(s, a, NextPid(s)))
    && (forall c: nat, r: Pid :: r.node != s.home ==> !On(s, c, NextPid(s), r))
  }

  /** A link request whose write ends in an exception that OtpMbox.link swallows. */
  predicate Swallowed(s: State, to: Pid, net: Net)
    requires Indexed(s)
  {
    var (s1, oc) := Connection(s, to.node, net);
    oc.Some? && s1.conns[oc.value].connected && (net.sent == OtherError || net.sent == SocketError)
  }

  /** A message that names a sender on another node than the peer it came from, and that
      changes one half of some link. */
  ghost predicate ForgedHarm(s: State, c: nat, m: Msg)
    requires c < |s.conns|
  {
    && m.from.node != s.conns[c].name
    && match m.tag
       case LinkTag => m.to in s.mboxes
       case UnlinkTag => CutsOneHalf(s, c, m)
       case ExitTag => CutsOneHalf(s, c, m)
       case _ => false
  }

  ghost predicate CutsOneHalf(s: State, c: nat, m: Msg) {
    || (Linked(s, m.to, m.from) && m.to != m.from)
    || (m.from in s.mboxes && On(s, c, m.to, m.from))
  }

  ghost predicate Allowed(s: State, e: Event)
    requires RegistryOk(s) && Enabled(s, e)
  {
    match e
    case DoCreate => FreshPid(s)
    case DoLink(self, to, net) =>
      if to.node == s.home then self in s.mboxes || to !in s.mboxes
      else self in s.mboxes && Swallowed(s, to, net) ==> Linked(s, self, to) && net.sent == OtherError
    case DoExit(self, to, _, _) => !(to.node == s.home && to != self && Linked(s, to, self))
    case DoAccept(name) => name != s.home && Unconnected(s, name)
    case DoIncoming(c, m, _) => !ForgedHarm(s, c, m)
    case DoLost(c) =>
      var name := s.conns[c].name;
      name in s.registry && s.registry[name] != c ==> !s.conns[s.registry[name]].connected
    case _ => true
  }

  // ---- Creating mailboxes ----

  lemma CreateKeepsIff(s: State)
    requires Inv(s)
    ensures Inv(CreateMbox(s)) <==> FreshPid(s)
  {
    var p, r := NextPid(s), CreateMbox(s);
    forall q | Born(s, q) ensures Born(r, q) {}
    assert Born(r, p);
    forall c | 0 <= c < |r.conns| ensures ConnOk(r, r.conns[c]) {
      assert ConnOk(s, s.conns[c]);
    }
    assert WellFormed(r);
    forall a, b ensures Linked(r, a, b) <==> a != p && Linked(s, a, b) {}
    forall c: nat, a, b ensures On(r, c, a, b) <==> On(s, c, a, b) {}
    if FreshPid(s) {
      CreateKeeps(s, r);
    } else if a :| a != p && Linked(s, a, p) {
      assert Linked(r, a, p) && !Linked(r, p, a);
    } else {
      var c: nat, b: Pid :| b.node != s.home && On(s, c, p, b);
      OnIsRegistered(s, c, p, b);
      assert On(r, c, p, b) && !Linked(r, p, b);
    }
  }

  lemma CreateKeeps(s: State, r: State)
    requires Inv(s) && FreshPid(s) && WellFormed(r)
    requires r == CreateMbox(s)
    requires forall a, b :: Linked(r, a, b) <==> a != NextPid(s) && Linked(s, a, b)
    requires forall c: nat, a, b :: On(r, c, a, b) <==> On(s, c, a, b)
    ensures Inv(r)
  {
  }

  /** A pair in a connection's table sits in the connection registered for its remote end. */
  lemma OnIsRegistered(s: State, c: nat, a: Pid, b: Pid)
    requires Inv(s) && b.node != s.home && On(s, c, a, b) && a.node == s.home
    ensures s.conns[c].connected && b.node == s.conns[c].name
    ensures b.node in s.registry && s.registry[b.node] == c
  {
    assert ConnOk(s, s.conns[c]);
    var l :| l in s.conns[c].links && l.Joins(a, b);
  }

  lemma NamedIsBorn(s: State, c: nat, a: Pid, b: Pid)
    requires Inv(s) && b.node != s.home && On(s, c, a, b) && a.node == s.home
    ensures Born(s, a)
  {
    assert ConnOk(s, s.conns[c]);
    var l :| l in s.conns[c].links && l.Joins(a, b);
  }

  /** As long as fewer than 2^18 pids were made, the next one is fresh. */
  lemma PidsStayFresh(s: State)
    requires Inv(s) && s.created < OtpIds.PIDS
    ensures FreshPid(s)
  {
    var p := NextPid(s);
    assert !Born(s, p) by {
      forall k: nat | k < s.created
        ensures p != OtpIds.PidAt(s.home, s.creation, k)
      {
        OtpIds.PidsRepeat(s.home, s.creation, k, s.created);
      }
    }
    assert p.node == s.home;
    forall c: nat, r: Pid | r.node != s.home
      ensures !On(s, c, p, r)
    {
      if On(s, c, p, r) {
        NamedIsBorn(s, c, p, r);
      }
    }
  }

  // ---- Linking and unlinking ----

  lemma LinkLocalIff(s: State, self: Pid, to: Pid, net: Net)
    requires Inv(s) && Born(s, self) && to.node == s.home
    ensures Inv(Link_(s, self, to, net).0) <==> self in s.mboxes || to !in s.mboxes
    ensures self in s.mboxes && to in s.mboxes ==>
              Linked(Link_(s, self, to, net).0, self, to) && Linked(Link_(s, self, to, net).0, to, self)
  {
    BornHome(s, self);
    if to in s.mboxes {
      var s1 := Deliver(s, Msg(LinkTag, self, to, "")).0;
      var r := Link_(s, self, to, net).0;
      assert s1 == AddOwn(s, to, self);
      AddOwnEffect(s, to, self);
      AddOwnEffect(s1, self, to);
      if self in s.mboxes {
        forall a, b
          ensures Linked(r, a, b) <==> Linked(s, a, b) || (a == self && b == to) || (a == to && b == self)
        {}
        LocalChangeKeeps(s, r, {});
      } else {
        assert Linked(r, to, self);
      }
    }
  }

  /** A change to links between live local mailboxes only. */
  lemma LocalChangeKeeps(s: State, r: State, d: set<Link>)
    requires WellFormed(s) && Agree(s)
    requires Frame(s, r) && r.conns == s.conns && r.registry == s.registry && MboxesOk(r)
    requires forall a: Pid, b: Pid :: b.node != s.home ==> (Linked(r, a, b) <==> Linked(s, a, b))
    requires Symmetric(r) && NoneDangling(r, d)
    ensures InvUpTo(r, d)
  {
    forall p | Born(s, p) ensures Born(r, p) {}
    forall c | 0 <= c < |r.conns| ensures ConnOk(r, r.conns[c]) {
      assert ConnOk(s, s.conns[c]);
    }
    forall c: nat, a, b ensures On(r, c, a, b) <==> On(s, c, a, b) {}
  }

  lemma LinkRemoteIff(s: State, self: Pid, to: Pid, net: Net)
    requires Inv(s) && Born(s, self) && to.node != s.home
    ensures Inv(Link_(s, self, to, net).0) <==>
            (self in s.mboxes && Swallowed(s, to, net) ==> Linked(s, self, to) && net.sent == OtherError)
  {
    var (s1, oc) := Connection(s, to.node, net);
    ConnectionKeeps(s, to.node, net, {});
    assert Linked(s1, self, to) <==> Linked(s, self, to);
    if oc.Some? {
      var c := oc.value;
      var m := Msg(LinkTag, self, to, "");
      SendKeeps(s1, c, m, net.sent, {});
      var (s2, sent) := Send(s1, c, m, net.sent);
      if sent == Ok {
        assert s2.conns[c].connected by {
          assert s2.conns[c].(sent := []) == s1.conns[c].(sent := []);
        }
        assert Born(s2, self) by {
          var k: nat :| k < s.created && self == OtpIds.PidAt(s.home, s.creation, k);
        }
        AddBothKeeps(s2, self, to, c, {});
      } else if sent == OtherError && self in s.mboxes {
        LinkUnrecorded(s1, self, to, c);
      } else if sent == SocketError && self in s.mboxes {
        LinkOnClosed(s1, self, to, c);
      }
    }
  }

  /** A link entered although nothing was written. */
  lemma LinkUnrecorded(s: State, self: Pid, to: Pid, c: nat)
    requires Inv(s) && self in s.mboxes && to.node != s.home && to.node in s.registry && s.registry[to.node] == c
    ensures Inv(AddOwn(s, self, to)) <==> Linked(s, self, to)
  {
    AddToMbox(self, s.mboxes[self], to);
    var r := AddOwn(s, self, to);
    if Linked(s, self, to) {
      assert r.mboxes == s.mboxes;
    } else {
      assert !On(s, c, self, to);
      assert !On(r, c, self, to);
      assert Linked(r, self, to);
    }
  }

  /** A link entered after its connection has been closed. */
  lemma LinkOnClosed(s: State, self: Pid, to: Pid, c: nat)
    requires Inv(s) && self in s.mboxes && to.node != s.home && to.node in s.registry && s.registry[to.node] == c
    ensures !Inv(AddOwn(Close(s, c), self, to))
  {
    CloseKeeps(s, c, {});
    var t := Close(s, c);
    var r := AddOwn(t, self, to);
    AddOwnEffect(t, self, to);
    assert !t.conns[c].connected && ConnOk(t, t.conns[c]);
    assert !On(r, c, self, to);
    assert Linked(r, self, to);
  }

  lemma UnlinkKeeps(s: State, self: Pid, to: Pid, net: Net)
    requires Inv(s) && Born(s, self)
    ensures Inv(Unlink(s, self, to, net))
    ensures !Linked(Unlink(s, self, to, net), self, to)
  {
    if to.node == s.home {
      UnlinkLocalKeeps(s, self, to, net);
    } else {
      UnlinkRemoteKeeps(s, self, to, net);
    }
  }

  lemma UnlinkLocalKeeps(s: State, self: Pid, to: Pid, net: Net)
    requires Inv(s) && Born(s, self) && to.node == s.home
    ensures Inv(Unlink(s, self, to, net))
    ensures !Linked(Unlink(s, self, to, net), self, to)
  {
    BornHome(s, self);
    var s0 := RemoveOwn(s, self, to);
    RemoveOwnEffect(s, self, to);
    if to in s0.mboxes {
      RemoveFromMbox(to, s0.mboxes[to], self);
    }
    var r := Unlink(s, self, to, net);
    forall a, b
      ensures Linked(r, a, b) <==> Linked(s, a, b) && !(a == self && b == to) && !(a == to && b == self)
    {}
    LocalChangeKeeps(s, r, {});
  }

  lemma UnlinkRemoteKeeps(s: State, self: Pid, to: Pid, net: Net)
    requires Inv(s) && Born(s, self) && to.node != s.home
    ensures Inv(Unlink(s, self, to, net))
    ensures !Linked(Unlink(s, self, to, net), self, to)
  {
    var (t, oc) := Connection(s, to.node, net);
    ConnectionKeeps(s, to.node, net, {});
    assert Connection(RemoveOwn(s, self, to), to.node, net) == (RemoveOwn(t, self, to), oc);
    if oc.Some? {
      UnlinkOver(t, oc.value, self, to, net.sent);
    } else {
      assert !Linked(s, self, to);
      assert RemoveOwn(s, self, to) == s;
    }
  }

  lemma UnlinkOver(s: State, c: nat, self: Pid, to: Pid, sent: Sent)
    requires Inv(s) && to.node != s.home && to.node in s.registry && s.registry[to.node] == c
    ensures var r := Send(ConnRemove(RemoveOwn(s, self, to), c, self, to), c, Msg(UnlinkTag, self, to, ""), sent).0;
            Inv(r) && !Linked(r, self, to)
  {
    var s1 := RemoveOwn(s, self, to);
    var s2 := ConnRemove(s1, c, self, to);
    RemoveBothKeeps(s, self, to, c, {});
    assert !Linked(s1, self, to) by { RemoveOwnEffect(s, self, to); }
    assert !Linked(s2, self, to);
    SendCuts(s2, c, Msg(UnlinkTag, self, to, ""), sent, self, to);
  }

  lemma SendCuts(s: State, c: nat, m: Msg, sent: Sent, a: Pid, b: Pid)
    requires Inv(s) && c < |s.conns|
    ensures Inv(Send(s, c, m, sent).0)
    ensures Linked(Send(s, c, m, sent).0, a, b) ==> Linked(s, a, b)
  {
    SendKeeps(s, c, m, sent, {});
    CloseKeeps(s, c, {});
  }

  // ---- Exits ----

  lemma ExitIff(s: State, self: Pid, to: Pid, reason: string, net: Net)
    requires Inv(s) && Born(s, self)
    ensures Inv(Exit(s, 2, self, to, reason, net)) <==> !(to.node == s.home && to != self && Linked(s, to, self))
  {
    BornHome(s, self);
    if to.node == s.home {
      if to in s.mboxes {
        RemoveFromMbox(to, s.mboxes[to], self);
        var r := Exit(s, 2, self, to, reason, net);
        forall a, b ensures Linked(r, a, b) <==> Linked(s, a, b) && !(a == to && b == self) {}
        if to == self || !Linked(s, to, self) {
          LocalChangeKeeps(s, r, {});
        } else {
          assert Linked(r, self, to) && !Linked(r, to, self);
        }
      }
    } else {
      ExitRemoteKeeps(s, 2, self, to, reason, net, {});
    }
  }

  lemma ExitRemoteKeeps(s: State, arity: int, self: Pid, to: Pid, reason: string, net: Net, d: set<Link>)
    requires InvUpTo(s, d) && to.node != s.home
    ensures InvUpTo(Exit(s, arity, self, to, reason, net), d)
    ensures Frame(s, Exit(s, arity, self, to, reason, net))
  {
    var (s1, oc) := Connection(s, to.node, net);
    ConnectionKeeps(s, to.node, net, d);
    if oc.Some? {
      SendKeeps(s1, oc.value, Msg(if arity == 1 then ExitTag else Exit2Tag, self, to, reason), net.sent, d);
    }
  }

  lemma SendToKeeps(s: State, self: Pid, to: Pid, text: string, net: Net)
    requires Inv(s)
    ensures Inv(SendTo(s, self, to, text, net))
  {
    if to.node == s.home {
      SameLinks(s, SendTo(s, self, to, text, net), {});
    } else {
      var (s1, oc) := Connection(s, to.node, net);
      ConnectionKeeps(s, to.node, net, {});
      if oc.Some? {
        SendKeeps(s1, oc.value, Msg(OtherTag, self, to, text), net.sent, {});
      }
    }
  }

  // ---- Closing a mailbox ----

  /** The links that point back at a mailbox with table ls. */
  function Back(self: Pid, ls: Table): set<Link> {
    set l | l in ls :: Link(l.remote, self)
  }

  lemma {:induction false} ExitLinksKeep(s: State, self: Pid, ls: Table, reason: string, nets: nat -> Net, d: set<Link>)
    requires InvUpTo(s, d) && self !in s.mboxes && self.node == s.home
    ensures InvUpTo(ExitLinks(s, self, ls, reason, nets), d - Back(self, ls))
  {
    if ls == [] {
      assert d - Back(self, ls) == d;
    } else {
      var n := |ls| - 1;
      ExitLinksKeep(s, self, ls[..n], reason, nets, d);
      var s1 := ExitLinks(s, self, ls[..n], reason, nets);
      var d1 := d - Back(self, ls[..n]);
      var b := ls[n].remote;
      assert ls == ls[..n] + [ls[n]];
      assert d - Back(self, ls) == d1 - {Link(b, self)};
      var r := Exit(s1, 1, self, b, reason, nets(n));
      if b.node == s.home {
        ExitLocalKeeps(s1, self, b, reason, nets(n), d1);
      } else {
        ExitRemoteKeeps(s1, 1, self, b, reason, nets(n), d1);
        MboxesHome(r, d1);
      }
    }
  }

  lemma ExitLocalKeeps(s: State, self: Pid, b: Pid, reason: string, net: Net, d: set<Link>)
    requires InvUpTo(s, d) && self !in s.mboxes && self.node == s.home && b.node == s.home
    ensures InvUpTo(Exit(s, 1, self, b, reason, net), d - {Link(b, self)})
  {
    var r := Exit(s, 1, self, b, reason, net);
    if b in s.mboxes {
      RemoveFromMbox(b, s.mboxes[b], self);
    }
    forall x, y ensures Linked(r, x, y) <==> Linked(s, x, y) && !(x == b && y == self) {}
    LocalChangeKeeps(s, r, d - {Link(b, self)});
  }

  lemma MboxesHome(s: State, d: set<Link>)
    requires InvUpTo(s, d)
    ensures forall p: Pid :: p in s.mboxes ==> p.node == s.home
  {
    forall p: Pid | p in s.mboxes ensures p.node == s.home {
      BornHome(s, p);
    }
  }

  lemma RemoveMboxKeeps(s: State, self: Pid)
    requires Inv(s) && self in s.mboxes
    ensures InvUpTo(s.(mboxes := s.mboxes - {self}), Back(self, s.mboxes[self].links))
  {
    var r := s.(mboxes := s.mboxes - {self});
    var d := Back(self, s.mboxes[self].links);
    forall p | Born(s, p) ensures Born(r, p) {}
    forall c | 0 <= c < |r.conns| ensures ConnOk(r, r.conns[c]) {
      assert ConnOk(s, s.conns[c]);
    }
    forall a, b ensures Linked(r, a, b) <==> Linked(s, a, b) && a != self {}
    forall c: nat, a, b ensures On(r, c, a, b) <==> On(s, c, a, b) {}
    forall a | Linked(r, a, self) ensures Link(a, self) in d {
      assert Linked(s, self, a);
      var l :| l in s.mboxes[self].links && l.Joins(self, a);
    }
  }

  lemma CloseMboxKeeps(s: State, self: Pid, nets: nat -> Net)
    requires Inv(s) && Born(s, self)
    ensures Inv(CloseMbox(s, self, nets))
    ensures forall a :: !Linked(CloseMbox(s, self, nets), a, self)
  {
    BornHome(s, self);
    if self in s.mboxes {
      var ls := s.mboxes[self].links;
      RemoveMboxKeeps(s, self);
      ExitLinksKeep(s.(mboxes := s.mboxes - {self}), self, ls, "normal", nets, Back(self, ls));
      assert Back(self, ls) - Back(self, ls) == {};
    }
  }

  lemma CloseAgainKeeps(s: State, self: Pid, leftover: Table, nets: nat -> Net)
    requires Inv(s) && Born(s, self) && self !in s.mboxes
    ensures Inv(CloseAgain(s, self, leftover, nets))
  {
    BornHome(s, self);
    ExitLinksKeep(s, self, leftover, "normal", nets, {});
    assert {} - Back(self, leftover) == {};
  }

  // ---- Connection events ----

  lemma LostIff(s: State, c: nat)
    requires Inv(s) && c < |s.conns|
    ensures Inv(Lost(s, c)) <==> Allowed(s, DoLost(c))
  {
    var name := s.conns[c].name;
    var s1 := s.(registry := s.registry - {name});
    if Allowed(s, DoLost(c)) {
      // Closing first and then taking the name out gives the same state.
      CloseKeeps(s, c, {});
      var t := Close(s, c);
      var r := t.(registry := t.registry - {name});
      assert Lost(s, c) == r by {
        CloseCommutes(s, c, s.registry - {name});
      }
      UnregisterKeeps(t, name);
    } else {
      var i := s.registry[name];
      var conn := s.conns[c];
      DeliverAllFrame(SetConn(s1, c, conn.(connected := false, links := [])), NoConnection(conn.links));
      assert Lost(s, c).conns[i] == s.conns[i];
    }
  }

  lemma UnregisterKeeps(s: State, name: string)
    requires Inv(s) && Unconnected(s, name)
    ensures Inv(s.(registry := s.registry - {name}))
  {
    var r := s.(registry := s.registry - {name});
    forall p | Born(s, p) ensures Born(r, p) {}
    forall c | 0 <= c < |r.conns| ensures ConnOk(r, r.conns[c]) {
      assert ConnOk(s, s.conns[c]);
    }
    forall a, b ensures Linked(r, a, b) <==> Linked(s, a, b) {}
    forall c: nat, a, b ensures On(r, c, a, b) <==> On(s, c, a, b) {}
  }

  lemma {:induction false} DeliverAllIgnoresRegistry(s: State, ms: seq<Msg>, reg: map<string, nat>)
    ensures DeliverAll(s.(registry := reg), ms) == DeliverAll(s, ms).(registry := reg)
  {
    if ms != [] {
      DeliverAllIgnoresRegistry(s, ms[..|ms| - 1], reg);
    }
  }

  lemma CloseCommutes(s: State, c: nat, reg: map<string, nat>)
    requires c < |s.conns|
    ensures Close(s.(registry := reg), c) == Close(s, c).(registry := reg)
  {
    var conn := s.conns[c];
    DeliverAllIgnoresRegistry(SetConn(s, c, conn.(connected := false, links := [])), NoConnection(conn.links), reg);
  }

  lemma IncomingHonestKeeps(s: State, c: nat, m: Msg, sent: Sent)
    requires Inv(s) && c < |s.conns| && s.conns[c].connected && m.from.node == s.conns[c].name
    ensures Inv(Incoming(s, c, m, sent))
  {
    assert ConnOk(s, s.conns[c]);
    var r := Incoming(s, c, m, sent);
    match m.tag {
      case LinkTag =>
        if m.to in s.mboxes {
          AddBothKeeps(s, m.to, m.from, c, {});
          assert r == AddOwn(ConnAdd(s, c, m.to, m.from), m.to, m.from);
        } else {
          IncomingRefused(s, c, m, sent);
        }
      case UnlinkTag =>
        RemoveBothKeeps(s, m.to, m.from, c, {});
        assert r == ConnRemove(RemoveOwn(s, m.to, m.from), c, m.to, m.from);
      case ExitTag =>
        var t := ConnRemove(RemoveOwn(s, m.to, m.from), c, m.to, m.from);
        RemoveBothKeeps(s, m.to, m.from, c, {});
        SameLinks(t, r, {});
      case Exit2Tag => SameLinks(s, r, {});
      case OtherTag => SameLinks(s, r, {});
    }
  }

  /** The registered connection is lost. */
  lemma LostKeeps(s: State, c: nat)
    requires Inv(s) && c < |s.conns| && s.conns[c].name in s.registry && s.registry[s.conns[c].name] == c
    ensures Inv(Lost(s, c))
  {
    LostIff(s, c);
  }

  lemma CloseStill(s: State, c: nat)
    requires Inv(s) && c < |s.conns|
    ensures Inv(Close(s, c)) && |Close(s, c).conns| == |s.conns| && Close(s, c).registry == s.registry
    ensures Close(s, c).conns[c].name == s.conns[c].name
  {
    CloseKeeps(s, c, {});
  }

  lemma ConnectedIsRegistered(s: State, c: nat)
    requires Inv(s) && c < |s.conns| && s.conns[c].connected
    ensures s.conns[c].name in s.registry && s.registry[s.conns[c].name] == c
  {
  }

  /** A link request for a pid that is not live is answered with an exit. */
  lemma IncomingRefused(s: State, c: nat, m: Msg, sent: Sent)
    requires Inv(s) && c < |s.conns| && s.conns[c].connected && m.tag == LinkTag && m.to !in s.mboxes
    ensures Inv(Incoming(s, c, m, sent))
  {
    var answer := Msg(ExitTag, m.to, m.from, "noproc");
    SendKeeps(s, c, answer, sent, {});
    ConnectedIsRegistered(s, c);
    hide Inv, Lost, Close;
    if sent == OtherError {
      LostKeeps(s, c);
    } else if sent == SocketError {
      CloseStill(s, c);
      LostKeeps(Close(s, c), c);
    }
  }

  lemma IncomingForgedIff(s: State, c: nat, m: Msg, sent: Sent)
    requires Inv(s) && c < |s.conns| && s.conns[c].connected && m.from.node != s.conns[c].name
    ensures Inv(Incoming(s, c, m, sent)) <==> !ForgedHarm(s, c, m)
  {
    var r := Incoming(s, c, m, sent);
    assert ConnOk(s, s.conns[c]);
    MboxesHome(s, {});
    match m.tag {
      case LinkTag =>
        if m.to in s.mboxes {
          ForgedLinkBreaks(s, c, m, sent);
        } else {
          IncomingRefused(s, c, m, sent);
        }
      case UnlinkTag => ForgedCutIff(s, c, m, sent);
      case ExitTag => ForgedCutIff(s, c, m, sent);
      case Exit2Tag => SameLinks(s, r, {});
      case OtherTag => SameLinks(s, r, {});
    }
  }

  lemma ForgedLinkBreaks(s: State, c: nat, m: Msg, sent: Sent)
    requires Inv(s) && c < |s.conns| && m.tag == LinkTag && m.to in s.mboxes && m.from.node != s.conns[c].name
    ensures !Inv(Incoming(s, c, m, sent))
  {
    var r := Incoming(s, c, m, sent);
    assert ConnOk(s, s.conns[c]);
    BornHome(s, m.to);
    if l :| l in s.conns[c].links && l.Joins(m.to, m.from) {
      assert false;
    }
    assert Link(m.to, m.from) in r.conns[c].links;
    assert !ConnOk(r, r.conns[c]);
  }

  lemma CutEffect(s: State, c: nat, m: Msg, sent: Sent)
    requires Inv(s) && c < |s.conns| && m.tag in {UnlinkTag, ExitTag}
    ensures CutBy(s, Incoming(s, c, m, sent), c, m)
  {
    var t := Deliver(s, m).0;
    if m.to in s.mboxes {
      RemoveFromMbox(m.to, s.mboxes[m.to], m.from);
    }
    forall p | Born(s, p) ensures Born(t, p) {}
    forall i | 0 <= i < |t.conns| ensures ConnOk(t, t.conns[i]) {
      assert ConnOk(s, s.conns[i]);
    }
    assert WellFormed(t);
    ConnCut(t, c, m.to, m.from);
    forall i: nat, a, b ensures On(t, i, a, b) <==> On(s, i, a, b) {}
  }

  lemma ForgedCutIff(s: State, c: nat, m: Msg, sent: Sent)
    requires Inv(s) && c < |s.conns| && s.conns[c].connected
    requires m.tag in {UnlinkTag, ExitTag} && m.from.node != s.conns[c].name
    ensures Inv(Incoming(s, c, m, sent)) <==> !CutsOneHalf(s, c, m)
  {
    var r := Incoming(s, c, m, sent);
    CutEffect(s, c, m, sent);
    if Linked(s, m.to, m.from) && m.to != m.from {
      ForgedCutBreaks(s, r, c, m);
    } else if m.from in s.mboxes && On(s, c, m.to, m.from) {
      ForgedPair(s, c, m.to, m.from);
      assert Linked(r, m.from, m.to) && !On(r, c, m.from, m.to);
    } else {
      ForgedCutKeeps(s, r, c, m);
    }
  }

  /** What CutEffect establishes. */
  ghost predicate CutBy(s: State, r: State, c: nat, m: Msg) {
    && WellFormed(r) && Frame(s, r) && r.registry == s.registry && |r.conns| == |s.conns|
    && (forall a, b :: Linked(r, a, b) <==> Linked(s, a, b) && !(a == m.to && b == m.from))
    && (forall i: nat, a, b ::
          On(r, i, a, b) <==> On(s, i, a, b) && !(i == c && Link(m.to, m.from).Joins(a, b)))
  }

  lemma ForgedCutBreaks(s: State, r: State, c: nat, m: Msg)
    requires Inv(s) && c < |s.conns| && CutBy(s, r, c, m)
    requires m.from.node != s.conns[c].name && Linked(s, m.to, m.from) && m.to != m.from
    ensures !Inv(r)
  {
    MboxesHome(s, {});
    if m.from.node == s.home {
      assert Linked(r, m.from, m.to);
    } else {
      assert On(r, s.registry[m.from.node], m.to, m.from);
    }
  }

  lemma ForgedCutKeeps(s: State, r: State, c: nat, m: Msg)
    requires Inv(s) && c < |s.conns| && CutBy(s, r, c, m)
    requires m.from.node != s.conns[c].name && !CutsOneHalf(s, c, m)
    ensures Inv(r)
  {
    forall a: Pid, b: Pid | a in r.mboxes && b.node != r.home
      ensures Linked(r, a, b) <==> b.node in r.registry && On(r, r.registry[b.node], a, b)
    {
      if b.node in s.registry && s.registry[b.node] == c && Link(m.to, m.from).Joins(a, b) && On(s, c, a, b) {
        assert On(s, c, m.to, m.from);
      }
    }
  }

  lemma ForgedPair(s: State, c: nat, a: Pid, b: Pid)
    requires Inv(s) && c < |s.conns| && s.conns[c].connected && On(s, c, a, b)
    requires b in s.mboxes && b.node != s.conns[c].name
    ensures a.node == s.conns[c].name && a.node != s.home && On(s, c, b, a) && Linked(s, b, a)
  {
    assert ConnOk(s, s.conns[c]);
    var l :| l in s.conns[c].links && l.Joins(a, b);
  }

  // ---- All steps ----

  /** The invariant survives a step exactly when the step is allowed. */
  lemma StepKeepsInvIffAllowed(s: State, e: Event)
    requires Inv(s) && Enabled(s, e)
    ensures Inv(Next(s, e)) <==> Allowed(s, e)
  {
    match e {
      case DoCreate => CreateKeepsIff(s);
      case DoLink(self, to, net) =>
        if to.node == s.home {
          LinkLocalIff(s, self, to, net);
        } else {
          LinkRemoteIff(s, self, to, net);
        }
      case DoUnlink(self, to, net) => UnlinkKeeps(s, self, to, net);
      case DoExit(self, to, reason, net) => ExitIff(s, self, to, reason, net);
      case DoCloseMbox(self, nets) => CloseMboxKeeps(s, self, nets);
      case DoCloseAgain(self, leftover, nets) => CloseAgainKeeps(s, self, leftover, nets);
      case DoReceive(self) => SameLinks(s, Receive(s, self).0, {});
      case DoSend(self, to, text, net) => SendToKeeps(s, self, to, text, net);
      case DoAccept(name) =>
        if name != s.home && Unconnected(s, name) {
          AddConnectionKeeps(s, name, {});
        } else {
          var r := AddConnection(s, name);
          if name == s.home {
            assert !ConnOk(r, r.conns[|s.conns|]);
          } else {
            assert r.conns[s.registry[name]].connected;
          }
        }
      case DoIncoming(c, m, sent) =>
        if m.from.node == s.conns[c].name {
          IncomingHonestKeeps(s, c, m, sent);
        } else {
          IncomingForgedIff(s, c, m, sent);
        }
      case DoClose(c) => CloseKeeps(s, c, {});
      case DoLost(c) => LostIff(s, c);
    }
  }

  // ---- Runs ----

  /** The state after the given events on a fresh node; None if some event was not enabled or
      not allowed where it occurred. */
  ghost function Reach(home: string, creation: int, es: seq<Event>): Option<State> {
    if es == [] then Some(Start(home, creation))
    else
      var n := |es| - 1;
      match Reach(home, creation, es[..n])
      case None => None
      case Some(s) =>
        if Indexed(s) && RegistryOk(s) && Enabled(s, es[n]) && Allowed(s, es[n])
        then Some(Next(s, es[n]))
        else None
  }

  /** In every reachable state mailbox and connection tables agree, local links are symmetric,
      and no live mailbox is linked to a closed local one; and a run can go on with every event
      that is enabled and allowed. */
  lemma {:induction false} ReachableInv(home: string, creation: int, es: seq<Event>)
    ensures var os := Reach(home, creation, es);
            os.Some? ==>
              && Inv(os.value)
              && forall e :: Enabled(os.value, e) && Allowed(os.value, e) ==>
                   Reach(home, creation, es + [e]) == Some(Next(os.value, e))
  {
    var os := Reach(home, creation, es);
    if es != [] {
      var n := |es| - 1;
      ReachableInv(home, creation, es[..n]);
      if os.Some? {
        StepKeepsInvIffAllowed(Reach(home, creation, es[..n]).value, es[n]);
      }
    }
    if os.Some? {
      forall e | Enabled(os.value, e) && Allowed(os.value, e)
        ensures Reach(home, creation, es + [e]) == Some(Next(os.value, e))
      {
        assert (es + [e])[..|es|] == es;
      }
    }
  }
}
