/** What every run of the link protocol keeps, and exactly which steps would break it. */
module LinkInvariant {
  import opened Erlang
  import opened Links
  import opened LinkProtocol

  // ---- The invariant ----

  /** Live mailbox a has a link to r. */
  ghost predicate Linked(s: State, a: Pid, r: Pid) {
    a in s.mboxes && Has(s.mboxes[a].links, a, r)
  }

  /** The table of connection c has the pair a, r. */
  ghost predicate On(s: State, c: nat, a: Pid, r: Pid) {
    c < |s.conns| && Has(s.conns[c].links, a, r)
  }

  ghost predicate MboxOk(p: Pid, mb: Mbox) {
    NoDup(mb.links) && forall l :: l in mb.links ==> l.local == p
  }

  ghost predicate ConnOk(s: State, conn: Conn) {
    && conn.name != s.home
    && NoDup(conn.links)
    && (forall l :: l in conn.links ==> l.remote.node == conn.name && Born(s, l.local))
    && (!conn.connected ==> conn.links == [])
  }

  /** A connected connection object is the one registered under its name. */
  ghost predicate RegistryOk(s: State) {
    && (forall n :: n in s.registry ==> s.registry[n] < |s.conns| && s.conns[s.registry[n]].name == n)
    && (forall c :: 0 <= c < |s.conns| && s.conns[c].connected ==>
          s.conns[c].name in s.registry && s.registry[s.conns[c].name] == c)
  }

  ghost predicate WellFormed(s: State) {
    && (forall p :: p in s.mboxes ==> Born(s, p) && MboxOk(p, s.mboxes[p]))
    && (forall c :: 0 <= c < |s.conns| ==> ConnOk(s, s.conns[c]))
    && RegistryOk(s)
  }

  ghost predicate Symmetric(s: State) {
    forall a, b :: Linked(s, a, b) && b in s.mboxes ==> Linked(s, b, a)
  }

  /** No live mailbox is linked to a local pid that is not live, up to those in `dangling`. */
  ghost predicate NoneDangling(s: State, dangling: set<Link>) {
    forall a, b :: Linked(s, a, b) && b.node == s.home ==> b in s.mboxes || Link(a, b) in dangling
  }

  /** A live mailbox has a link to a remote pid exactly when the connection registered for that
      pid's node has the same pair. */
  ghost predicate Agree(s: State)
    requires RegistryOk(s)
  {
    forall a: Pid, r: Pid :: a in s.mboxes && r.node != s.home ==>
      (Linked(s, a, r) <==> r.node in s.registry && On(s, s.registry[r.node], a, r))
  }

  ghost predicate InvUpTo(s: State, dangling: set<Link>) {
    WellFormed(s) && Symmetric(s) && NoneDangling(s, dangling) && Agree(s)
  }

  ghost predicate Inv(s: State) {
    InvUpTo(s, {})
  }

  // ---- Delivering exits in bulk ----

  ghost predicate MboxesOk(s: State) {
    forall p :: p in s.mboxes ==> MboxOk(p, s.mboxes[p])
  }

  lemma RemoveFromMbox(p: Pid, mb: Mbox, from: Pid)
    requires MboxOk(p, mb)
    ensures MboxOk(p, mb.(links := Remove(mb.links, p, from)))
    ensures forall r :: Has(Remove(mb.links, p, from), p, r) <==> Has(mb.links, p, r) && r != from
  {
    RemoveKeeps(mb.links, p, from);
    forall r
      ensures Has(Remove(mb.links, p, from), p, r) <==> Has(mb.links, p, r) && r != from
    {
      RemoveHas(mb.links, p, from, p, r);
    }
  }

  lemma AddToMbox(p: Pid, mb: Mbox, from: Pid)
    requires MboxOk(p, mb)
    ensures MboxOk(p, mb.(links := Add(mb.links, p, from)))
    ensures forall r :: Has(Add(mb.links, p, from), p, r) <==> Has(mb.links, p, r) || r == from
  {
    AddNoDup(mb.links, p, from);
    forall r
      ensures Has(Add(mb.links, p, from), p, r) <==> Has(mb.links, p, r) || r == from
    {
      AddHas(mb.links, p, from, p, r);
    }
  }

  lemma ExitEffect(s: State, m: Msg)
    requires MboxesOk(s) && m.tag == ExitTag
    ensures var r := Deliver(s, m).0;
            && MboxesOk(r)
            && (forall a, b :: Linked(r, a, b) <==> Linked(s, a, b) && !(a == m.to && b == m.from))
  {
    if m.to in s.mboxes {
      RemoveFromMbox(m.to, s.mboxes[m.to], m.from);
    }
  }

  lemma {:induction false} BreakEffect(s: State, ls: Table)
    requires MboxesOk(s)
    ensures var r := DeliverAll(s, NoConnection(ls));
            && Frame(s, r) && r.conns == s.conns && r.registry == s.registry && MboxesOk(r)
            && (forall a, b :: Linked(r, a, b) <==> Linked(s, a, b) && Link(a, b) !in ls)
  {
    var ms := NoConnection(ls);
    DeliverAllFrame(s, ms);
    if ls != [] {
      var n := |ls| - 1;
      assert ms[..n] == NoConnection(ls[..n]);
      BreakEffect(s, ls[..n]);
      var s1 := DeliverAll(s, ms[..n]);
      ExitEffect(s1, ms[n]);
      assert ls == ls[..n] + [ls[n]];
    }
  }

  /** Closing a connection keeps the invariant and cuts exactly the links that ran over it. */
  lemma CloseKeeps(s: State, c: nat, d: set<Link>)
    requires c < |s.conns| && InvUpTo(s, d)
    ensures var r := Close(s, c);
            && InvUpTo(r, d) && Frame(s, r) && r.registry == s.registry
            && r.conns == s.conns[c := s.conns[c].(connected := false, links := [])]
            && (forall a, b :: Linked(r, a, b) <==> Linked(s, a, b) && !(s.conns[c].connected && b.node == s.conns[c].name))
  {
    var conn := s.conns[c];
    var s0 := SetConn(s, c, conn.(connected := false, links := []));
    var r := Close(s, c);
    BreakEffect(s0, conn.links);
    forall a, b
      ensures Linked(s0, a, b) <==> Linked(s, a, b)
    {}
    forall a, b | Linked(s, a, b)
      ensures Link(a, b) in conn.links <==> conn.connected && b.node == conn.name
    {
      if conn.connected && b.node == conn.name {
        assert On(s, c, a, b);
        var l :| l in conn.links && l.Joins(a, b);
        BornHome(s, a);
        assert l == Link(a, b);
      }
    }
    forall p | Born(s, p) ensures Born(r, p) {}
    forall a: Pid, b: Pid | a in r.mboxes && b.node != r.home
      ensures Linked(r, a, b) <==> b.node in r.registry && On(r, r.registry[b.node], a, b)
    {
      if b.node in s.registry && s.registry[b.node] == c {
        assert !On(r, c, a, b);
        if Linked(s, a, b) { assert On(s, c, a, b); }
      }
    }
  }

  lemma BornHome(s: State, p: Pid)
    requires Born(s, p)
    ensures p.node == s.home
  {
  }

  // ---- Parts of the operations ----

  /** No connected connection is registered under the name. */
  ghost predicate Unconnected(s: State, name: string)
    requires RegistryOk(s)
  {
    name in s.registry ==> !s.conns[s.registry[name]].connected
  }

  lemma AddConnectionKeeps(s: State, name: string, d: set<Link>)
    requires InvUpTo(s, d) && name != s.home && Unconnected(s, name)
    ensures InvUpTo(AddConnection(s, name), d)
  {
    var r := AddConnection(s, name);
    forall p | Born(s, p) ensures Born(r, p) {}
    forall c | 0 <= c < |s.conns| ensures ConnOk(r, r.conns[c]) {
      assert ConnOk(s, s.conns[c]);
    }
    forall a, b ensures Linked(r, a, b) <==> Linked(s, a, b) {}
  }

  lemma ConnectionKeeps(s: State, name: string, net: Net, d: set<Link>)
    requires InvUpTo(s, d) && name != s.home
    ensures var (r, oc) := Connection(s, name, net);
            && InvUpTo(r, d) && Frame(s, r) && r.mboxes == s.mboxes
            && (oc.Some? ==> name in r.registry && oc.value == r.registry[name] && r.conns[oc.value].name == name)
            && (oc.None? ==> name !in r.registry)
  {
    if name !in s.registry && net.reachable {
      AddConnectionKeeps(s, name, d);
    }
  }

  /** From s to r only the output of the connected connection c may have grown. */
  ghost predicate WroteOnly(s: State, r: State, c: nat)
    requires c < |s.conns| == |r.conns|
  {
    && r.mboxes == s.mboxes && s.conns[c].connected
    && r.conns == s.conns[c := r.conns[c]]
    && r.conns[c].(sent := []) == s.conns[c].(sent := [])
  }

  /** Writing to a connection changes links at most by closing it. */
  lemma SendKeeps(s: State, c: nat, m: Msg, sent: Sent, d: set<Link>)
    requires InvUpTo(s, d) && c < |s.conns|
    ensures var (r, res) := Send(s, c, m, sent);
            && InvUpTo(r, d) && Frame(s, r) && |r.conns| == |s.conns| && r.registry == s.registry
            && (res == Ok ==> WroteOnly(s, r, c))
            && (res == OtherError ==> r == s)
            && (res == SocketError ==> r == Close(s, c))
            && (res != IoError ==> res == sent && s.conns[c].connected)
  {
    if s.conns[c].connected {
      match sent {
        case Ok =>
          var r := Send(s, c, m, sent).0;
          SameLinks(s, r, d);
        case IoError => CloseKeeps(s, c, d);
        case SocketError => CloseKeeps(s, c, d);
        case OtherError =>
      }
    }
  }

  /** The invariant does not look at queues or at what was sent. */
  lemma SameLinks(s: State, r: State, d: set<Link>)
    requires InvUpTo(s, d) && Frame(s, r) && r.registry == s.registry && |r.conns| == |s.conns|
    requires forall c :: 0 <= c < |s.conns| ==> r.conns[c].(sent := []) == s.conns[c].(sent := [])
    requires forall p :: p in s.mboxes ==> r.mboxes[p].links == s.mboxes[p].links
    ensures InvUpTo(r, d)
  {
    forall p | Born(s, p) ensures Born(r, p) {}
    forall c | 0 <= c < |r.conns|
      ensures r.conns[c].name == s.conns[c].name && r.conns[c].links == s.conns[c].links
      ensures r.conns[c].connected == s.conns[c].connected
      ensures ConnOk(r, r.conns[c])
    {
      assert r.conns[c].(sent := []) == s.conns[c].(sent := []);
      assert ConnOk(s, s.conns[c]);
    }
    forall p | p in r.mboxes ensures Born(r, p) && MboxOk(p, r.mboxes[p]) {
      assert MboxOk(p, s.mboxes[p]);
    }
    forall a, b ensures Linked(r, a, b) <==> Linked(s, a, b) {}
    forall c: nat, a, b ensures On(r, c, a, b) <==> On(s, c, a, b) {}
  }

  // ---- Both halves of one remote link ----

  lemma ConnGrow(s: State, c: nat, a: Pid, b: Pid)
    requires WellFormed(s) && c < |s.conns| && s.conns[c].connected
    requires b.node == s.conns[c].name && Born(s, a)
    ensures var r := ConnAdd(s, c, a, b);
            && WellFormed(r)
            && forall i: nat, x, y :: On(r, i, x, y) <==> On(s, i, x, y) || (i == c && Link(a, b).Joins(x, y))
  {
    var r := ConnAdd(s, c, a, b);
    ConnAddOk(s, c, a, b);
    forall p | Born(s, p) ensures Born(r, p) {}
    forall i | 0 <= i < |r.conns| ensures ConnOk(r, r.conns[i]) {
      assert ConnOk(s, s.conns[i]);
    }
    forall i: nat, x, y
      ensures On(r, i, x, y) <==> On(s, i, x, y) || (i == c && Link(a, b).Joins(x, y))
    {
      if i == c {
        AddHas(s.conns[c].links, a, b, x, y);
      }
    }
  }

  /** Both halves of the link between a and b, a remote pid, are made together. */
  lemma AddBothKeeps(s: State, a: Pid, b: Pid, c: nat, d: set<Link>)
    requires InvUpTo(s, d) && b.node != s.home && b.node in s.registry && s.registry[b.node] == c
    requires s.conns[c].connected && Born(s, a)
    ensures InvUpTo(AddOwn(ConnAdd(s, c, a, b), a, b), d)
  {
    var s1 := ConnAdd(s, c, a, b);
    var r := AddOwn(s1, a, b);
    BornHome(s, a);
    ConnGrow(s, c, a, b);
    AddOwnEffect(s1, a, b);
    forall p | Born(s1, p) ensures Born(r, p) {}
    forall i | 0 <= i < |r.conns| ensures ConnOk(r, r.conns[i]) {
      assert ConnOk(s1, s1.conns[i]);
    }
    forall x, y ensures Linked(s1, x, y) <==> Linked(s, x, y) {}
    forall i: nat, x, y ensures On(r, i, x, y) <==> On(s1, i, x, y) {}
    forall x: Pid, y: Pid | x in r.mboxes && y.node != r.home
      ensures Linked(r, x, y) <==> y.node in r.registry && On(r, r.registry[y.node], x, y)
    {
      BornHome(s, x);
      assert Linked(s, x, y) <==> y.node in s.registry && On(s, s.registry[y.node], x, y);
    }
  }

  lemma ConnAddOk(s: State, c: nat, a: Pid, b: Pid)
    requires c < |s.conns| && ConnOk(s, s.conns[c]) && s.conns[c].connected
    requires b.node == s.conns[c].name && Born(s, a)
    ensures ConnOk(s, s.conns[c].(links := Add(s.conns[c].links, a, b)))
  {
    AddNoDup(s.conns[c].links, a, b);
  }

  lemma AddOwnEffect(s: State, a: Pid, b: Pid)
    requires MboxesOk(s)
    ensures var r := AddOwn(s, a, b);
            && Frame(s, r) && r.conns == s.conns && r.registry == s.registry && MboxesOk(r)
            && forall x, y :: Linked(r, x, y) <==> Linked(s, x, y) || (a in s.mboxes && x == a && y == b)
  {
    if a in s.mboxes {
      AddToMbox(a, s.mboxes[a], b);
    }
  }

  lemma RemoveOwnEffect(s: State, a: Pid, b: Pid)
    requires MboxesOk(s)
    ensures var r := RemoveOwn(s, a, b);
            && Frame(s, r) && r.conns == s.conns && r.registry == s.registry && MboxesOk(r)
            && forall x, y :: Linked(r, x, y) <==> Linked(s, x, y) && !(x == a && y == b)
  {
    if a in s.mboxes {
      RemoveFromMbox(a, s.mboxes[a], b);
    }
  }

  lemma ConnRemoveOk(s: State, c: nat, a: Pid, b: Pid)
    requires c < |s.conns| && ConnOk(s, s.conns[c])
    ensures ConnOk(s, s.conns[c].(links := Remove(s.conns[c].links, a, b)))
  {
    RemoveKeeps(s.conns[c].links, a, b);
  }

  lemma ConnCut(s: State, c: nat, a: Pid, b: Pid)
    requires WellFormed(s) && c < |s.conns|
    ensures var r := ConnRemove(s, c, a, b);
            && WellFormed(r)
            && forall i: nat, x, y :: On(r, i, x, y) <==> On(s, i, x, y) && !(i == c && Link(a, b).Joins(x, y))
  {
    var r := ConnRemove(s, c, a, b);
    ConnRemoveOk(s, c, a, b);
    forall p | Born(s, p) ensures Born(r, p) {}
    forall i | 0 <= i < |r.conns| ensures ConnOk(r, r.conns[i]) {
      assert ConnOk(s, s.conns[i]);
    }
    forall i: nat, x, y
      ensures On(r, i, x, y) <==> On(s, i, x, y) && !(i == c && Link(a, b).Joins(x, y))
    {
      if i == c {
        RemoveHas(s.conns[c].links, a, b, x, y);
      }
    }
  }

  /** Both halves of the link between a and b, a remote pid, are dropped together. */
  lemma RemoveBothKeeps(s: State, a: Pid, b: Pid, c: nat, d: set<Link>)
    requires InvUpTo(s, d) && b.node != s.home && b.node in s.registry && s.registry[b.node] == c
    ensures InvUpTo(ConnRemove(RemoveOwn(s, a, b), c, a, b), d)
  {
    var s1 := RemoveOwn(s, a, b);
    var r := ConnRemove(s1, c, a, b);
    RemoveOwnEffect(s, a, b);
    forall p | Born(s, p) ensures Born(s1, p) {}
    forall i | 0 <= i < |s.conns| ensures ConnOk(s1, s1.conns[i]) {
      assert ConnOk(s, s.conns[i]);
    }
    ConnCut(s1, c, a, b);
    forall i: nat, x, y ensures On(s1, i, x, y) <==> On(s, i, x, y) {}
    forall x, y ensures Linked(r, x, y) <==> Linked(s, x, y) && !(x == a && y == b) {}
    forall x: Pid, y: Pid | x in r.mboxes && y.node != r.home
      ensures Linked(r, x, y) <==> y.node in r.registry && On(r, r.registry[y.node], x, y)
    {
      BornHome(s, x);
      assert Linked(s, x, y) <==> y.node in s.registry && On(s, s.registry[y.node], x, y);
    }
  }
}
