/** The I/O vector cursor of the generated drivers (erl_driver_tk.c and erl_driver_tk.h): position
    p in element q, against an offset into the flat byte string. */
module IovecCursors {
  import opened Bytes
  import opened IoVectors

  lemma {:induction false} FlatSplit(v: Pieces, q: nat)
    requires q <= |v|
    ensures Flat(v) == Flat(v[..q]) + Flat(v[q..])
  {
    FlatAppend(v[..q], v[q..]);
    assert v[..q] + v[q..] == v;
  }

  lemma FlatNext(v: Pieces, q: nat)
    requires q < |v|
    ensures Flat(v[..q + 1]) == Flat(v[..q]) + v[q]
    ensures Flat(v[q..]) == v[q] + Flat(v[q + 1..])
    ensures |Flat(v)| == |Flat(v[..q])| + |Flat(v[q..])|
  {
    FlatSplit(v, q);
    FlatAppend(v[..q], [v[q]]);
    FlatOne(v[q]);
    assert v[..q + 1] == v[..q] + [v[q]];
    assert v[q..][1..] == v[q + 1..];
  }

  /** A stretch of one element is a stretch of the flat string. */
  lemma SliceOfFlat(v: Pieces, q: nat, p: nat, n: nat)
    requires q < |v| && p + n <= |v[q]|
    ensures |Flat(v[..q])| + p + n <= |Flat(v)|
    ensures v[q][p..p + n] == Flat(v)[|Flat(v[..q])| + p..|Flat(v[..q])| + p + n]
  {
    FlatSplit(v, q);
    FlatNext(v, q);
    Within(Flat(v[..q]), v[q], Flat(v[q + 1..]), p, n);
    assert Flat(v) == Flat(v[..q]) + (v[q] + Flat(v[q + 1..]));
  }

  lemma Within(a: seq<Byte>, b: seq<Byte>, c: seq<Byte>, p: nat, n: nat)
    requires p + n <= |b|
    ensures (a + (b + c))[|a| + p..|a| + p + n] == b[p..p + n]
  {
  }

  class Cursor {
    const ev: Pieces
    var p: nat
    var q: nat

    ghost predicate Valid()
      reads this
    {
      q <= |ev| && (if q < |ev| then p <= |ev[q]| else p == 0)
    }

    /** The bytes before the cursor. */
    ghost function Offset(): nat
      reads this
      requires Valid()
    {
      |Flat(ev[..q])| + p
    }

    ghost function Remaining(): (n: int)
      reads this
      requires Valid()
    {
      |Flat(ev)| - Offset()
    }

    /** Element 0 is the emulator's header. */
    constructor (ev: Pieces)
      requires ev != []
      ensures this.ev == ev && Valid() && Offset() == |ev[0]|
    {
      this.ev := ev;
      p, q := 0, 1;
      new;
      FlatOne(ev[0]);
      assert ev[..1] == [ev[0]];
    }

    lemma RemainingHere()
      requires Valid() && q < |ev|
      ensures Remaining() == |ev[q]| - p + |Flat(ev[q + 1..])|
    {
      FlatNext(ev, q);
    }

    lemma AtEnd()
      requires Valid() && q == |ev|
      ensures Remaining() == 0
    {
      assert ev[..q] == ev;
    }

    /** To the start of the next element. */
    method NextElement()
      requires Valid() && q < |ev|
      modifies this
      ensures Valid() && q == old(q) + 1 && p == 0
      ensures Offset() == old(Offset()) + |ev[old(q)]| - old(p)
    {
      FlatNext(ev, q);
      q := q + 1;
      p := 0;
    }

    /** edtk_ev_forward_N: skips n bytes; -1 for an error, 0 if nothing is left, 1 otherwise. A
        negative n moves back within the element; a position before it counts as far beyond it,
        because it is compared with an unsigned length. */
    method Forward(n: int, wantContiguous: bool) returns (r: int)
      requires Valid()
      modifies this
      decreases |ev| - q
      ensures Valid() && r in {-1, 0, 1}
      ensures r >= 0 <==> old(q) < |ev| && 0 <= old(p) + n && n <= old(Remaining())
                          && (wantContiguous ==> old(p) + n <= |ev[old(q)]|)
      ensures r >= 0 ==> Offset() == old(Offset()) + n
      ensures r >= 0 ==> (r == 0 <==> q == |ev|)
      ensures r == -1 ==> p == (if old(q) < |ev| then 0 else old(p))
      ensures r == -1 ==> q == if old(q) < |ev| && wantContiguous then old(q) + 1 else |ev|
    {
      var forwardPos := p + n;
      if q >= |ev| {
        return -1;
      }
      RemainingHere();
      if 0 <= forwardPos < |ev[q]| {
        p := p + n;
        return 1;
      } else if forwardPos == |ev[q]| {
        NextElement();
        return if q < |ev| then 1 else 0;
      } else {
        var m := n - (|ev[q]| - p);
        NextElement();
        if q < |ev| && !wantContiguous {
          r := Forward(m, wantContiguous);
        } else {
          if q == |ev| {
            AtEnd();
          }
          return -1;
        }
      }
    }

    /** EV_GETPOS: where the cursor points, or nothing past the last element. */
    function Pos(): (at: seq<Byte>)
      reads this
      requires Valid()
      ensures q < |ev| ==> |at| <= Remaining() && at == Flat(ev)[Offset()..Offset() + |at|]
      ensures q < |ev| ==> p + |at| == |ev[q]|
    {
      if q < |ev| then
        SliceOfFlat(ev, q, p, |ev[q]| - p);
        ev[q][p..]
      else
        []
    }

    /** The common part of EV_GET_CHAR, EV_GET_UINT16 and EV_GET_UINT32. */
    method Get(k: nat) returns (ok: bool, b: seq<Byte>)
      requires Valid() && q < |ev| && k > 0
      modifies this
      ensures Valid() && (ok <==> old(p) + k <= |ev[old(q)]|)
      ensures ok ==> old(Offset()) + k <= |Flat(ev)| && b == Flat(ev)[old(Offset())..old(Offset()) + k]
      ensures ok ==> |b| == k && Offset() == old(Offset()) + k
      ensures !ok ==> p == old(p) && q == old(q)
    {
      if p + k <= |ev[q]| {
        SliceOfFlat(ev, q, p, k);
        b := ev[q][p..p + k];
        if p + k < |ev[q]| {
          p := p + k;
        } else {
          NextElement();
        }
        return true, b;
      }
      return false, [];
    }

    method GetChar() returns (ok: bool, c: int)
      requires Valid() && q < |ev|
      modifies this
      ensures Valid() && (ok <==> old(p) + 1 <= |ev[old(q)]|)
      ensures ok ==> Offset() == old(Offset()) + 1 <= |Flat(ev)| && c == Flat(ev)[old(Offset())]
      ensures !ok ==> p == old(p) && q == old(q)
    {
      var b;
      ok, b := Get(1);
      c := if ok then b[0] else 0;
    }

    method GetUint16() returns (ok: bool, u: int)
      requires Valid() && q < |ev|
      modifies this
      ensures Valid() && (ok <==> old(p) + 2 <= |ev[old(q)]|)
      ensures ok ==> Offset() == old(Offset()) + 2 <= |Flat(ev)|
      ensures ok ==> u == FromBE2(Flat(ev)[old(Offset())], Flat(ev)[old(Offset()) + 1])
      ensures !ok ==> p == old(p) && q == old(q)
    {
      var b;
      ok, b := Get(2);
      u := if ok then FromBE2(b[0], b[1]) else 0;
    }

    /** The low 32 bits of what EV_GET_UINT32 stores. */
    method GetUint32() returns (ok: bool, u: int)
      requires Valid() && q < |ev|
      modifies this
      ensures Valid() && (ok <==> old(p) + 4 <= |ev[old(q)]|)
      ensures ok ==> Offset() == old(Offset()) + 4 <= |Flat(ev)|
      ensures ok ==> u == FromBE4(Flat(ev)[old(Offset())], Flat(ev)[old(Offset()) + 1],
                                  Flat(ev)[old(Offset()) + 2], Flat(ev)[old(Offset()) + 3])
      ensures !ok ==> p == old(p) && q == old(q)
    {
      var b;
      ok, b := Get(4);
      u := if ok then FromBE4(b[0], b[1], b[2], b[3]) else 0;
    }

    /** How a command reads a counted argument: its length, where it starts, and past it.  A
        length that cannot be read stays what the variable held; otherwise success means that the argument
        is the counted stretch of the flat string. */
    method GetCounted(stale: nat) returns (counted: bool, r: int, arg: seq<Byte>)
      requires Valid() && q < |ev|
      modifies this
      ensures Valid()
      ensures counted <==> old(p) + 4 <= |ev[old(q)]|
      ensures counted && r >= 0 ==>
        var at := old(Offset());
        && at + 4 + |arg| == Offset() <= |Flat(ev)|
        && |arg| == FromBE4(Flat(ev)[at], Flat(ev)[at + 1], Flat(ev)[at + 2], Flat(ev)[at + 3])
        && arg == Flat(ev)[at + 4..at + 4 + |arg|]
    {
      var n, u := stale, 0;
      counted, u := GetUint32();
      if counted {
        n := u;
      }
      var at := Pos();
      r := Forward(n, true);
      arg := if r >= 0 then at[..n] else [];
    }
  }
}
