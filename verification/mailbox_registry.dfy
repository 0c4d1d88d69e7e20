/** The names of a node's mailboxes: the two tables of OtpNode.Mailboxes and the name field of
    each mailbox. */
module MailboxRegistry {
  import opened Erlang

  class NamedMbox {
    const self: Pid
    var name: Option<string>

    constructor (self: Pid, name: Option<string>)
      ensures this.self == self && this.name == name
    {
      this.self, this.name := self, name;
    }
  }

  class Mailboxes {
    var byPid: map<Pid, NamedMbox>
    var byName: map<string, NamedMbox>

    ghost predicate Valid()
      reads this, byPid.Values
    {
      forall p :: p in byPid ==> byPid[p].self == p
    }

    predicate Live(m: NamedMbox)
      reads this
    {
      m.self in byPid && byPid[m.self] == m
    }

    /** The tables agree: a name leads to m exactly if m is live and has that name. */
    ghost predicate Coherent()
      reads this, byPid.Values, byName.Values
    {
      && Valid()
      && (forall n :: n in byName ==> Live(byName[n]) && byName[n].name == Some(n))
      && (forall p :: p in byPid && byPid[p].name.Some? ==>
            byPid[p].name.value in byName && byName[byPid[p].name.value] == byPid[p])
    }

    constructor ()
      ensures Coherent() && byPid == map[] && byName == map[]
    {
      byPid, byName := map[], map[];
    }

    /** get(name) */
    function Get(name: string): Option<NamedMbox>
      reads this
    {
      if name in byName then Some(byName[name]) else None
    }

    /** create and create(name), for the pid that createPid returns. Coherent tables stay so exactly
        if the pid is not that of a named mailbox, which the new one would displace. */
    method Create(name: Option<string>, pid: Pid) returns (m: Option<NamedMbox>)
      requires Valid()
      modifies this
      ensures Valid()
      ensures old(Coherent()) ==> (Coherent() <==> m == None || pid !in old(byPid) || old(byPid[pid].name) == None)
      ensures m == None <==> name.Some? && name.value in old(byName)
      ensures m == None ==> byPid == old(byPid) && byName == old(byName)
      ensures m.Some? ==> fresh(m.value) && m.value.self == pid && m.value.name == name
      ensures m.Some? ==> byPid == old(byPid)[pid := m.value]
      ensures m.Some? ==> byName == if name == None then old(byName) else old(byName)[name.value := m.value]
    {
      if name.Some? && Get(name.value).Some? {
        return None;
      }
      var mbox := new NamedMbox(pid, name);
      byPid := byPid[pid := mbox];
      if name.Some? {
        byName := byName[name.value := mbox];
      }
      m := Some(mbox);
      ghost var displaced := pid in old(byPid) && old(byPid[pid].name) != None;
      if displaced && old(Coherent()) {
        var n := old(byPid[pid].name).value;
        assert n in byName && byName[n] == old(byPid[pid]);
      }
    }

    /** A call of register that coherent tables survive: it was refused, or it took the name from a
        mailbox that has it, or gave one to a live mailbox that had none. A mailbox that already has
        a name keeps it in the table, although the documentation says that the new name supersedes
        it; and a closed mailbox is entered like a live one. */
    ghost predicate RegisterKeeps(name: Option<string>, mbox: NamedMbox)
      reads this, mbox
    {
      if name == None then Live(mbox) || mbox.name == None || mbox.name.value !in byName
      else name.value in byName || (mbox.name == None && Live(mbox))
    }

    method Register(name: Option<string>, mbox: NamedMbox) returns (ok: bool)
      requires Valid()
      modifies this`byName, mbox
      ensures Valid() && byPid == old(byPid)
      ensures ok <==> name == None || name.value !in old(byName)
      ensures mbox.name == if ok then name else old(mbox.name)
      ensures old(Coherent()) ==> (Coherent() <==> old(RegisterKeeps(name, mbox)))
      ensures byName ==
        if !ok then old(byName)
        else if name == None then (if old(mbox.name) == None then old(byName) else old(byName) - {old(mbox.name).value})
        else old(byName)[name.value := mbox]
    {
      if name == None {
        if mbox.name.Some? {
          byName := byName - {mbox.name.value};
          mbox.name := None;
        }
      } else {
        if Get(name.value).Some? {
          return false;
        }
        byName := byName[name.value := mbox];
        mbox.name := name;
        if old(mbox.name).Some? && old(Coherent()) && Live(mbox) {
          assert old(mbox.name).value in byName && byName[old(mbox.name).value].name == name;
        }
      }
      ok := true;
      if old(Coherent()) && name == None && !old(RegisterKeeps(name, mbox)) {
        var other := old(byName[mbox.name.value]);
        assert Live(other) && other != mbox && other.name.value !in byName;
        assert byPid[other.self].name.Some?;
      }
    }

    /** The registry part of closeMbox; closing a mailbox again changes nothing. */
    method Close(mbox: NamedMbox)
      requires Valid()
      modifies this, mbox
      ensures old(Coherent() && (Live(mbox) || (mbox.self !in byPid && mbox.name == None))) ==> Coherent()
      ensures Valid() && mbox.name == None && byPid == old(byPid) - {mbox.self}
      ensures byName == if old(mbox.name) == None then old(byName) else old(byName) - {old(mbox.name).value}
    {
      byPid := byPid - {mbox.self};
      if mbox.name.Some? {
        byName := byName - {mbox.name.value};
      }
      mbox.name := None;
    }

    /** In a coherent registry a name is found exactly if a live mailbox has it, and it leads to
        that mailbox. */
    lemma NameFound(name: string, m: NamedMbox)
      requires Coherent()
      ensures Get(name) == Some(m) <==> Live(m) && m.name == Some(name)
    {
      if Live(m) && m.name == Some(name) {
        assert byPid[m.self] == m;
      }
    }
  }

  /** A renamed mailbox is found under its old name even when it has been closed. */
  method RenamedThenClosed(node: string) returns (r: Mailboxes)
    ensures r.byPid == map[] && r.Get("old").Some? && !r.Live(r.Get("old").value)
  {
    r := new Mailboxes();
    var m := r.Create(Some("old"), MakePid(node, 1, 0, 0));
    var renamed := r.Register(Some("new"), m.value);
    assert "new" !in map["old" := m.value];
    r.Close(m.value);
    assert r.byName == map["old" := m.value, "new" := m.value] - {"new"};
  }
}
