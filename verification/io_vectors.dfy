/** Scattered bytes: the I/O vectors and port queues of the Erlang driver interface, which the
    drivers read and empty piece by piece, against the flat byte string they stand for. */
module IoVectors {
  import opened Bytes

  type Pieces = seq<seq<Byte>>

  /** The bytes of all pieces in order. */
  function Flat(v: Pieces): seq<Byte> {
    if v == [] then [] else v[0] + Flat(v[1..])
  }

  predicate NoneEmpty(v: Pieces) {
    forall i :: 0 <= i < |v| ==> v[i] != []
  }

  /** What driver_enqv keeps of a vector: an empty element is not queued. */
  function Kept(v: Pieces): (k: Pieces)
    ensures NoneEmpty(k)
  {
    if v == [] then [] else (if v[0] == [] then [] else [v[0]]) + Kept(v[1..])
  }

  /** driver_deq: the queue without its first n bytes. */
  function Dequeued(v: Pieces, n: nat): (w: Pieces)
    requires n <= |Flat(v)|
    decreases |v|
  {
    if n == 0 then v
    else if n < |v[0]| then [v[0][n..]] + v[1..]
    else Dequeued(v[1..], n - |v[0]|)
  }

  lemma Associative(a: seq<Byte>, b: seq<Byte>, c: seq<Byte>)
    ensures a + (b + c) == a + b + c
  {
  }

  lemma {:induction false} FlatAppend(v: Pieces, w: Pieces)
    ensures Flat(v + w) == Flat(v) + Flat(w)
  {
    if v == [] {
      assert v + w == w;
    } else {
      FlatAppend(v[1..], w);
      assert (v + w)[0] == v[0] && (v + w)[1..] == v[1..] + w;
      Associative(v[0], Flat(v[1..]), Flat(w));
    }
  }

  lemma {:induction false} KeptFlat(v: Pieces)
    ensures Flat(Kept(v)) == Flat(v)
  {
    if v != [] {
      KeptFlat(v[1..]);
      FlatAppend(if v[0] == [] then [] else [v[0]], Kept(v[1..]));
    }
  }

  lemma {:induction false} DequeuedFlat(v: Pieces, n: nat)
    requires n <= |Flat(v)|
    requires NoneEmpty(v)
    ensures NoneEmpty(Dequeued(v, n))
    ensures Flat(Dequeued(v, n)) == Flat(v)[n..]
    ensures |Flat(Dequeued(v, n))| == |Flat(v)| - n
    decreases |v|
  {
    if n > 0 {
      if n < |v[0]| {
        assert ([v[0][n..]] + v[1..])[1..] == v[1..];
      } else {
        DequeuedFlat(v[1..], n - |v[0]|);
      }
    }
  }

  lemma FlatOne(b: seq<Byte>)
    ensures Flat([b]) == b
  {
    assert Flat([]) == [];
  }

  /** A queue of non-empty pieces has bytes exactly when it has pieces. */
  lemma EmptyIffNoBytes(v: Pieces)
    requires NoneEmpty(v)
    ensures Flat(v) == [] <==> v == []
  {
  }
}
