/** The message queue of a mailbox (GenericQueue.cs): a linked list of buckets, and the getters
    that wait on its monitor. */
module GenericQueues {
  import opened Erlang

  datatype Status = Open | Closed

  class Bucket<T> {
    const contents: T
    var next: Bucket?<T>

    constructor (contents: T)
      ensures this.contents == contents && next == null
    {
      this.contents, next := contents, null;
    }
  }

  function ContentsOf<T>(spine: seq<Bucket<T>>): seq<T> {
    seq(|spine|, i requires 0 <= i < |spine| => spine[i].contents)
  }

  class GenericQueue<T> {
    var status: Status
    var head: Bucket?<T>
    var tail: Bucket?<T>
    var count: nat
    ghost var spine: seq<Bucket<T>>        // the chain from head to tail

    ghost predicate Valid()
      reads this, spine
    {
      && count == |spine|
      && (if spine == [] then head == null && tail == null
          else head == spine[0] && tail == spine[|spine| - 1] && tail.next == null)
      && (forall i :: 0 <= i < |spine| - 1 ==> spine[i].next == spine[i + 1])
      && (forall i, j :: 0 <= i < j < |spine| ==> spine[i] != spine[j])
    }

    ghost function Contents(): seq<T>
      reads this
    {
      ContentsOf(spine)
    }

    /** The queue of thread state s is this one. */
    ghost predicate Shows(s: State<T>)
      reads this
    {
      s.items == Contents() && s.status == status
    }

    constructor ()
      ensures Valid() && Contents() == [] && status == Open && spine == []
      ensures Shows(Empty())
    {
      head, tail, count, spine, status := null, null, 0, [], Open;
    }

    method Put(o: T)
      requires Valid()
      modifies this, spine
      ensures Valid() && Contents() == old(Contents()) + [o] && status == old(status)
      ensures fresh(set b | b in spine && b !in old(spine))
      ensures forall s: State<T> :: s.items == old(Contents()) && s.status == old(status) ==> Shows(Next(s, Event.Put(o)))
    {
      var b := new Bucket(o);
      if tail != null {
        tail.next := b;
        tail := b;
      } else {
        head, tail := b, b;
      }
      count := count + 1;
      spine := spine + [b];
      assert Contents() == old(Contents()) + [o];
    }

    method TryGet() returns (o: Option<T>)
      requires Valid()
      modifies this
      ensures Valid() && status == old(status)
      ensures if old(Contents()) == [] then o == None && Contents() == []
              else o == Some(old(Contents())[0]) && Contents() == old(Contents())[1..]
      ensures forall s: State<T>, t: Thread :: s.items == old(Contents()) && s.status == old(status) ==>
        Shows(Next(s, Poll(t))) && Next(s, Poll(t)).gone == s.gone + if o == None then [] else [Taken(t, o.value)]
    {
      o := None;
      if head != null {
        assert |spine| > 1 ==> spine[0].next == spine[0 + 1];
        o := Some(head.contents);
        head := head.next;
        count := count - 1;
        spine := spine[1..];
        if head == null {
          tail := null;
          count := 0;
        }
        assert Contents() == old(Contents())[1..];
      }
    }

    method Close()
      modifies this
      ensures Valid() && Contents() == [] && status == Closed
      ensures forall s: State<T> :: s.items == old(Contents()) && s.status == old(status) ==> Shows(Next(s, Event.Close))
    {
      head, tail, count, spine := null, null, 0, [];
      status := Closed;
    }

    method Flush()
      modifies this
      ensures Valid() && Contents() == [] && status == Open
      ensures forall s: State<T> :: s.items == old(Contents()) && s.status == old(status) ==> Shows(Next(s, Event.Flush))
    {
      Close();
      head, tail, count, spine := null, null, 0, [];
      status := Open;
    }

    method GetCount() returns (n: nat)
      requires Valid()
      ensures n == |Contents()|
    {
      n := count;
    }
  }

  // ---- Threads ----

  type Thread = nat

  /** What became of an object that left the queue. */
  datatype Fate<T> = Taken(getter: Thread, o: T) | Dropped(o: T)

  /** `items` is the queue. `waiting` are the threads blocked in Monitor.Wait and `woken` those
      that were pulsed and are about to try again. `puts` and `gone` record the run. */
  datatype State<T> = State(items: seq<T>, status: Status, waiting: set<Thread>, woken: set<Thread>,
                            puts: seq<T>, gone: seq<Fate<T>>)

  /** Each event is one critical section, except Flush and Close, which take no lock: they empty
      the list, and the PulseAll they attempt throws and is ignored. Wake is the end of a wait
      without a pulse: an interrupt or a timeout. */
  datatype Event<T> =
    | Put(o: T)
    | Get(t: Thread)
    | Poll(t: Thread)
    | Resume(t: Thread)
    | Wake(t: Thread)
    | Flush
    | Close

  function Take<T>(s: State<T>, t: Thread): State<T>
    requires s.items != []
  {
    s.(items := s.items[1..], gone := s.gone + [Taken(t, s.items[0])])
  }

  /** A turn of a waiting loop is a poll, after which an unsuccessful getter waits if the queue is
      open. */
  lemma TurnIsPoll<T(!new)>(s: State<T>, t: Thread)
    ensures Turn(s, t) == if s.items == [] && s.status == Open then s.(waiting := s.waiting + {t}) else Next(s, Poll(t))
  {
  }

  /** One turn of the loop in get(bool): take the first object, or wait if the queue is open. */
  function Turn<T>(s: State<T>, t: Thread): State<T> {
    if s.items != [] then Take(s, t)
    else if s.status == Open then s.(waiting := s.waiting + {t})
    else s
  }

  function DropAll<T>(s: State<T>): State<T> {
    s.(items := [], gone := s.gone + seq(|s.items|, i requires 0 <= i < |s.items| => Dropped(s.items[i])))
  }

  predicate Enabled<T(!new)>(s: State<T>, e: Event<T>) {
    match e
    case Get(t) => t !in s.waiting && t !in s.woken
    case Poll(t) => t !in s.waiting && t !in s.woken
    case Resume(t) => t in s.woken
    case Wake(t) => t in s.waiting
    case _ => true
  }

  function Next<T>(s: State<T>, e: Event<T>): State<T> {
    match e
    case Put(o) => s.(items := s.items + [o], puts := s.puts + [o], woken := s.woken + s.waiting, waiting := {})
    case Get(t) => Turn(s, t)
    case Poll(t) => if s.items != [] then Take(s, t) else s
    case Resume(t) => Turn(s.(woken := s.woken - {t}), t)
    case Wake(t) => s.(waiting := s.waiting - {t}, woken := s.woken + {t})
    case Flush => DropAll(s).(status := Open)
    case Close => DropAll(s).(status := Closed)
  }

  function Run<T>(s: State<T>, es: seq<Event<T>>): State<T> {
    if es == [] then s else Next(Run(s, es[..|es| - 1]), es[|es| - 1])
  }

  ghost predicate Interleaving<T(!new)>(s: State<T>, es: seq<Event<T>>) {
    forall i :: 0 <= i < |es| ==> Enabled(Run(s, es[..i]), es[i])
  }

  function Objects<T>(gone: seq<Fate<T>>): seq<T> {
    seq(|gone|, i requires 0 <= i < |gone| => gone[i].o)
  }

  function Empty<T>(): State<T> {
    State([], Open, {}, {}, [], [])
  }

  /** What the events of a run put. */
  function PutIn<T>(es: seq<Event<T>>): seq<T> {
    if es == [] then []
    else PutIn(es[..|es| - 1]) + match es[|es| - 1] case Put(o) => [o] case _ => []
  }

  /** A queue is closed from a Close to the next Flush. */
  predicate ClosedBy<T(==)>(es: seq<Event<T>>) {
    es != [] && (es[|es| - 1] == Event.Close || (es[|es| - 1] != Event.Flush && ClosedBy(es[..|es| - 1])))
  }

  /** Over every interleaving: what has left the queue followed by what is in it is what was put,
      in order; and while the queue holds something no thread is blocked without having been
      woken. Without Flush and Close nothing is dropped, so the objects taken are a prefix of
      those put. */
  lemma {:induction false} RunIsFifo<T(!new)>(es: seq<Event<T>>)
    requires Interleaving(Empty(), es)
    ensures var s := Run(Empty(), es);
            && Objects(s.gone) + s.items == s.puts == PutIn(es)
            && (s.status == Closed <==> ClosedBy(es))
            && (s.items != [] ==> s.waiting == {})
            && s.waiting !! s.woken
            && (Event.Flush !in es && Event.Close !in es ==> forall f :: f in s.gone ==> f.Taken?)
  {
    hide Next, Enabled;
    if es != [] {
      var n := |es| - 1;
      var p := Run(Empty(), es[..n]);
      assert forall i :: 0 <= i < n ==> es[..n][..i] == es[..i];
      RunIsFifo(es[..n]);
      assert es == es[..n] + [es[n]];
      StepIsFifo(p, es[n]);
    }
  }

  /** A call of get is pending from its start until it has an object or has found the queue closed and
      empty, whatever puts, wakes and other getters do in between; a poll is never pending. */
  lemma PendingUntilServed<T(!new)>(s: State<T>, e: Event<T>)
    requires Enabled(s, e) && s.waiting !! s.woken
    ensures var r := Next(s, e);
            var pending := s.waiting + s.woken;
            match e
            case Get(t) => Served(s, r, t, pending)
            case Resume(t) => Served(s, r, t, pending)
            case Poll(t) => r.waiting == s.waiting && r.woken == s.woken && (s.items != [] ==> r.gone == s.gone + [Taken(t, s.items[0])])
            case Wake(t) => r.waiting + r.woken == pending && t !in r.waiting && r.gone == s.gone
            case Put(_) => r.waiting + r.woken == pending && r.gone == s.gone
            case _ => r.waiting == s.waiting && r.woken == s.woken
  {
  }

  ghost predicate Served<T(!new)>(s: State<T>, r: State<T>, t: Thread, pending: set<Thread>) {
    if s.items != [] then r.gone == s.gone + [Taken(t, s.items[0])] && r.waiting + r.woken == pending - {t}
    else r.gone == s.gone && r.waiting + r.woken == if s.status == Open then pending + {t} else pending - {t}
  }

  lemma StepIsFifo<T(!new)>(s: State<T>, e: Event<T>)
    requires Enabled(s, e)
    requires Objects(s.gone) + s.items == s.puts
    requires (s.items != [] ==> s.waiting == {}) && s.waiting !! s.woken
    ensures var r := Next(s, e);
            && Objects(r.gone) + r.items == r.puts
            && (r.items != [] ==> r.waiting == {}) && r.waiting !! r.woken
            && s.gone <= r.gone
            && r.puts == s.puts + (match e case Put(o) => [o] case _ => [])
            && r.status == (if e == Event.Close then Closed else if e == Event.Flush then Open else s.status)
            && (s.status == Closed ==> r.waiting <= s.waiting)
            && (e != Event.Flush && e != Event.Close ==> forall f :: f in r.gone ==> f in s.gone || f.Taken?)
  {
    var r := Next(s, e);
    if |r.gone| == |s.gone| + 1 && s.items != [] && r.items == s.items[1..] {
      assert Objects(r.gone) == Objects(s.gone) + [s.items[0]];
    } else if r.gone == s.gone {
    } else {
      assert Objects(r.gone) == Objects(s.gone) + s.items;
    }
  }
}
