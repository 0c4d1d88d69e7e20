/** The link table of a mailbox or a connection (Link.cs, Links.cs). */
module Links {
  import opened Erlang

  datatype Link = Link(local: Pid, remote: Pid) {
    /** Link.equals: a link joins its two ends in either order. */
    predicate Joins(a: Pid, b: Pid) {
      (local == a && remote == b) || (local == b && remote == a)
    }

    /** What a link means: an unordered pair of pids. */
    function Ends(): set<Pid> {
      {local, remote}
    }
  }

  type Table = seq<Link>

  /** Index of the first link joining a and b, or -1. */
  function IndexOf(t: Table, a: Pid, b: Pid): (i: int)
    ensures -1 <= i < |t|
    ensures i == -1 <==> !Has(t, a, b)
    ensures i >= 0 ==> t[i].Joins(a, b) && !Has(t[..i], a, b)
  {
    if t == [] then -1
    else if t[0].Joins(a, b) then assert t[0] in t; 0
    else
      var j := IndexOf(t[1..], a, b);
      assert t == [t[0]] + t[1..];
      if j == -1 then -1 else assert t[..j + 1] == [t[0]] + t[1..][..j] && t[j + 1] in t; j + 1
  }

  predicate Has(t: Table, a: Pid, b: Pid) {
    exists l :: l in t && l.Joins(a, b)
  }

  /** No unordered pair is stored twice. */
  ghost predicate NoDup(t: Table) {
    forall i, j :: 0 <= i < j < |t| ==> t[i].Ends() != t[j].Ends()
  }

  function Pairs(t: Table): set<set<Pid>> {
    set l | l in t :: l.Ends()
  }

  function Add(t: Table, a: Pid, b: Pid): Table {
    if Has(t, a, b) then t else t + [Link(a, b)]
  }

  /** The hole left by the removed link is filled with the last one. */
  function Remove(t: Table, a: Pid, b: Pid): Table {
    var i := IndexOf(t, a, b);
    if i == -1 then t else t[i := t[|t| - 1]][..|t| - 1]
  }

  lemma EndsIffJoins(l: Link, a: Pid, b: Pid)
    ensures l.Ends() == {a, b} <==> l.Joins(a, b)
  {
    if l.Ends() == {a, b} {
      assert l.local in {a, b} && l.remote in {a, b};
      assert a in l.Ends() && b in l.Ends();
    }
  }

  lemma PairsIffHas(t: Table, a: Pid, b: Pid)
    ensures {a, b} in Pairs(t) <==> Has(t, a, b)
  {
    forall l | l in t
      ensures l.Ends() == {a, b} <==> l.Joins(a, b)
    {
      EndsIffJoins(l, a, b);
    }
  }

  lemma AddHas(t: Table, a: Pid, b: Pid, x: Pid, y: Pid)
    ensures Has(Add(t, a, b), x, y) <==> Has(t, x, y) || Link(a, b).Joins(x, y)
  {
    if Has(t, a, b) && Link(a, b).Joins(x, y) {
      var l :| l in t && l.Joins(a, b);
      assert l.Joins(x, y);
    }
    if !Has(t, a, b) {
      assert Link(a, b) in Add(t, a, b);
      forall l | l in t ensures l in Add(t, a, b) {}
    }
  }

  lemma AddNoDup(t: Table, a: Pid, b: Pid)
    requires NoDup(t)
    ensures NoDup(Add(t, a, b))
  {
    if !Has(t, a, b) {
      forall i | 0 <= i < |t|
        ensures t[i].Ends() != {a, b}
      {
        EndsIffJoins(t[i], a, b);
      }
    }
  }

  /** In a table without duplicates removing takes out the one matching link and moves the
      last link into its place. */
  lemma RemoveKeeps(t: Table, a: Pid, b: Pid)
    requires NoDup(t)
    ensures NoDup(Remove(t, a, b))
    ensures forall l :: l in Remove(t, a, b) <==> l in t && !l.Joins(a, b)
  {
    var i := IndexOf(t, a, b);
    var r := Remove(t, a, b);
    if i == -1 {
      forall l | l in t ensures !l.Joins(a, b) {}
    } else {
      forall l | l in t && !l.Joins(a, b) ensures l in r {
        var k :| 0 <= k < |t| && t[k] == l;
        assert k != i;
        assert if k == |t| - 1 then r[i] == l else r[k] == l;
      }
      forall k | 0 <= k < |t| && k != i ensures !t[k].Joins(a, b) {
        EndsIffJoins(t[k], a, b);
        EndsIffJoins(t[i], a, b);
      }
      forall l | l in r ensures l in t && !l.Joins(a, b) {
        var k :| 0 <= k < |r| && r[k] == l;
      }
    }
  }

  lemma RemoveHas(t: Table, a: Pid, b: Pid, x: Pid, y: Pid)
    requires NoDup(t)
    ensures Has(Remove(t, a, b), x, y) <==> Has(t, x, y) && !Link(a, b).Joins(x, y)
  {
    RemoveKeeps(t, a, b);
  }

  function Locals(t: Table): seq<Pid> {
    seq(|t|, i requires 0 <= i < |t| => t[i].local)
  }

  /** Add and Remove are insertion into and removal from a set of unordered pairs. */
  lemma TableRefinesPairSet(t: Table, a: Pid, b: Pid)
    requires NoDup(t)
    ensures Pairs(Add(t, a, b)) == Pairs(t) + {{a, b}}
    ensures Pairs(Remove(t, a, b)) == Pairs(t) - {{a, b}}
    ensures NoDup(Add(t, a, b)) && NoDup(Remove(t, a, b))
  {
    AddNoDup(t, a, b);
    RemoveKeeps(t, a, b);
    PairsIffHas(t, a, b);
    forall l | l in t ensures l.Ends() == {a, b} <==> l.Joins(a, b) {
      EndsIffJoins(l, a, b);
    }
    assert Link(a, b).Ends() == {a, b};
    forall p | p in Pairs(t) + {{a, b}} ensures p in Pairs(Add(t, a, b)) {
      if p in Pairs(t) {
        var l :| l in t && l.Ends() == p;
        assert l in Add(t, a, b);
      } else {
        assert Link(a, b) in Add(t, a, b);
      }
    }
    forall p | p in Pairs(t) - {{a, b}} ensures p in Pairs(Remove(t, a, b)) {
      var l :| l in t && l.Ends() == p;
      assert l in Remove(t, a, b);
    }
  }

  /** A table of n links stands for exactly n unordered pairs. */
  lemma {:induction false} CountIsPairs(t: Table)
    requires NoDup(t)
    ensures |Pairs(t)| == |t|
  {
    if t != [] {
      var n := |t| - 1;
      CountIsPairs(t[..n]);
      assert t == t[..n] + [t[n]];
      assert Pairs(t) == Pairs(t[..n]) + {t[n].Ends()};
      assert t[n].Ends() !in Pairs(t[..n]);
    }
  }

  /** The class itself: a growing array of slots of which the first count are used. */
  class LinksTable {
    var links: array<Option<Link>>
    var count: nat
    ghost var table: Table            // the links in the used slots

    ghost predicate Valid()
      reads this, links
    {
      && count == |table| <= links.Length
      && (forall i :: 0 <= i < count ==> links[i] == Some(table[i]))
      && (forall i :: count <= i < links.Length ==> links[i] == None)
      && NoDup(table)
    }

    constructor (initialSize: nat)
      ensures Valid() && fresh(links) && links.Length == initialSize
      ensures table == []
    {
      links := new Option<Link>[initialSize](_ => None);
      count, table := 0, [];
    }

    method Find(local: Pid, remote: Pid) returns (index: int)
      requires Valid()
      ensures index == IndexOf(table, local, remote)
    {
      for i := 0 to count
        invariant forall k :: 0 <= k < i ==> !table[k].Joins(local, remote)
      {
        if links[i].value.Joins(local, remote) {
          assert table[i] in table;
          return i;
        }
      }
      return -1;
    }

    /** Doubles the number of slots of a full table. */
    method Grow()
      requires Valid() && count == links.Length
      modifies this`links
      ensures Valid() && fresh(links) && links.Length == 2 * count
    {
      var tmp := new Option<Link>[count * 2](_ => None);
      forall k | 0 <= k < count {
        tmp[k] := links[k];
      }
      links := tmp;
    }

    /** False for the exception that a table made without any slots throws, whose doubling makes
        none. It is thrown only after the count has gone up, so that the table is unusable. */
    method AddLink(local: Pid, remote: Pid) returns (ok: bool)
      requires Valid()
      modifies this, links
      ensures ok <==> old(links.Length) > 0
      ensures (ok <==> Valid()) && (links == old(links) || fresh(links))
      ensures !ok ==> count == 1 && links.Length == 0
      ensures table == if ok then Add(old(table), local, remote) else old(table)
      ensures ok ==> Pairs(table) == old(Pairs(table)) + {{local, remote}} && links.Length > 0
    {
      ghost var t := table;
      var i := Find(local, remote);
      AddNoDup(table, local, remote);
      if i == -1 {
        if count >= links.Length {
          Grow();
          if links.Length == 0 {
            count := count + 1;
            return false;
          }
        }
        links[count] := Some(Link(local, remote));
        count, table := count + 1, table + [Link(local, remote)];
      }
      assert Pairs(table) == Pairs(t) + {{local, remote}} by { TableRefinesPairSet(t, local, remote); }
      return true;
    }

    method RemoveLink(local: Pid, remote: Pid)
      requires Valid()
      modifies this, links
      ensures Valid() && links == old(links)
      ensures table == Remove(old(table), local, remote)
      ensures Pairs(table) == old(Pairs(table)) - {{local, remote}}
    {
      hide NoDup, Has, Pairs;
      TableRefinesPairSet(table, local, remote);
      var i := Find(local, remote);
      if i != -1 {
        FillHole(i);
      }
    }

    /** The last link moves into slot i. */
    method FillHole(i: nat)
      requires Valid() && i < count && NoDup(table[i := table[|table| - 1]][..|table| - 1])
      modifies this, links
      ensures Valid() && links == old(links)
      ensures table == old(table)[i := old(table)[|old(table)| - 1]][..|old(table)| - 1]
    {
      hide NoDup;
      table := table[i := table[|table| - 1]][..|table| - 1];
      count := count - 1;
      links[i] := links[count];
      links[count] := None;
    }

    method Exists(local: Pid, remote: Pid) returns (found: bool)
      requires Valid()
      ensures found <==> {local, remote} in Pairs(table)
    {
      var i := Find(local, remote);
      found := i != -1;
      PairsIffHas(table, local, remote);
    }

    method Count() returns (n: nat)
      requires Valid()
      ensures n == |Pairs(table)|
    {
      n := count;
      CountIsPairs(table);
    }

    /** The local ends, or null (None) when the table is empty. */
    method LocalPids() returns (pids: Option<seq<Pid>>)
      requires Valid()
      ensures pids == if table == [] then None else Some(Locals(table))
    {
      if count == 0 {
        return None;
      }
      var ret: seq<Pid> := [];
      for i := 0 to count
        invariant ret == Locals(table[..i])
      {
        ret := ret + [links[i].value.local];
      }
      assert table[..count] == table;
      return Some(ret);
    }

    /** Clears the table and returns its links as a copy, or null (None) if there were none. */
    method ClearLinks() returns (ret: Option<seq<Link>>)
      requires Valid()
      modifies this, links
      ensures Valid() && links == old(links)
      ensures table == []
      ensures ret == if old(table) == [] then None else Some(old(table))
    {
      if count == 0 {
        return None;
      }
      var copy: seq<Link> := [];
      for i := 0 to count
        invariant count == |table| <= links.Length && links == old(links) && table == old(table)
        invariant copy == table[..i]
        invariant forall k :: 0 <= k < i ==> links[k] == None
        invariant forall k :: i <= k < count ==> links[k] == Some(table[k])
        invariant forall k :: count <= k < links.Length ==> links[k] == None
      {
        copy := copy + [links[i].value];
        links[i] := None;
      }
      assert table[..count] == table;
      count, table := 0, [];
      return Some(copy);
    }
  }
}
