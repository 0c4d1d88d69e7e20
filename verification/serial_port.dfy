/** The non-blocking write queue of the serial driver (sl_drv.c, Unix branch): output that the
    device does not take at once waits in the port's queue. */
module SerialPort {
  import opened Bytes
  import opened IoVectors

  const EAGAIN := -1

  class Device {
    var taken: seq<Byte>
    var full: bool

    constructor ()
      ensures taken == [] && full
    {
      taken, full := [], true;
    }

    /** write or writev: some of the bytes, or EAGAIN, the only answer of a full device. */
    method Write(b: seq<Byte>) returns (n: int)
      modifies this`taken
      ensures EAGAIN <= n <= |b| && (full ==> n == EAGAIN)
      ensures taken == old(taken) + b[..if n < 0 then 0 else n]
    {
      n :| EAGAIN <= n <= |b| && (full ==> n == EAGAIN);
      taken := taken + b[..if n < 0 then 0 else n];
    }
  }

  lemma Queued(h: seq<Byte>, o: seq<Byte>, t: seq<Byte>, f: seq<Byte>, b: seq<Byte>)
    requires h + o == t + f
    ensures h + (o + b) == t + (f + b)
  {
    assert h + (o + b) == (h + o) + b;
    assert t + (f + b) == (t + f) + b;
  }

  lemma Taken(h: seq<Byte>, o: seq<Byte>, t: seq<Byte>, b: seq<Byte>, k: nat)
    requires h + o == t && k <= |b|
    ensures h + (o + b) == (t + b[..k]) + b[k..]
  {
    assert h + (o + b) == (h + o) + b;
    assert (t + b[..k]) + b[k..] == t + (b[..k] + b[k..]);
  }

  class Sl {
    var com: Device?
    var queue: Pieces         // the port's queue
    var selected: bool        // DO_WRITE on com

    ghost var output: seq<Byte>     // accepted since the device was opened
    ghost var leftover: seq<Byte>   // queued when the device was opened
    ghost var before: seq<Byte>     // taken by the device before it was opened

    /** While a device is open: what it took and what is queued is all output in order, and
        DO_WRITE is selected exactly when there is something to write -- except that output left
        over from an earlier session blocks the queue for good. */
    ghost predicate Valid()
      reads this, com
    {
      && NoneEmpty(queue)
      && (com == null ==> !selected)
      && (com != null ==>
          && before <= com.taken
          && before + leftover + output == com.taken + Flat(queue)
          && (selected <==> queue != [] && leftover == [])
          && (leftover != [] ==> com.taken == before))
    }

    constructor ()
      ensures Valid() && com == null && queue == []
    {
      com, queue, selected := null, [], false;
    }

    /** do_close: the queue is kept. */
    method Close()
      requires Valid()
      modifies this`com, this`selected
      ensures Valid() && com == null
    {
      if com != null {
        selected := false;
        com := null;
      }
    }

    /** do_open, on a device that opens or does not (null), and whose settings can be read or not.
        If they cannot, the call fails although the device stays open. */
    method Open(dev: Device?, comState: bool) returns (r: int)
      requires Valid()
      modifies this`com, this`selected, this`output, this`leftover, this`before
      ensures Valid() && com == dev && queue == old(queue) && r == if dev != null && comState then 0 else -1
      ensures dev != null ==> output == [] && leftover == Flat(queue) && before == dev.taken
    {
      Close();
      if dev == null {
        return -1;
      }
      com := dev;
      output, leftover, before := [], Flat(queue), dev.taken;
      EmptyIffNoBytes(queue);
      return if comState then 0 else -1;
    }

    method Enqueue(b: seq<Byte>)
      requires NoneEmpty(queue) && b != []
      modifies this`queue
      ensures NoneEmpty(queue) && queue != [] && Flat(queue) == old(Flat(queue)) + b
    {
      FlatAppend(queue, [b]);
      FlatOne(b);
      queue := queue + [b];
    }

    /** do_write_buf. */
    method WriteBuf(b: seq<Byte>) returns (n: int)
      requires Valid() && com != null && queue == [] && leftover == [] && b != []
      modifies this`queue, this`selected, this`output, com`taken
      ensures Valid() && output == old(output) + b
      ensures com.full ==> n == EAGAIN
      ensures EAGAIN <= n <= |b| && com.taken == old(com.taken) + b[..if n < 0 then 0 else n]
    {
      n := com.Write(b);
      Taken(before + leftover, output, old(com.taken), b, if n < 0 then 0 else n);
      if n < 0 {
        Enqueue(b);
        selected := true;
      } else if n < |b| {
        Enqueue(b[n..]);
        selected := true;
      }
      output := output + b;
    }

    /** do_write_init: output never overtakes what is queued. */
    method Output(b: seq<Byte>) returns (r: int)
      requires Valid()
      modifies this`queue, this`selected, this`output, com
      ensures Valid() && r >= -1 && (com != null ==> com.full == old(com.full))
      ensures com == null ==> queue == old(queue) && r == -1
      ensures com != null ==> output == old(output) + b && r <= |b| && (r > 0 ==> com.taken == old(com.taken) + b[..r])
      ensures com != null && (old(queue) != [] || r <= 0 || com.full) ==> com.taken == old(com.taken)
    {
      if com == null {
        return -1;
      }
      if b == [] {
        return 0;
      }
      if queue != [] {
        Queued(before + leftover, output, com.taken, Flat(queue), b);
        Enqueue(b);
        output := output + b;
        return 0;
      }
      EmptyIffNoBytes(queue);
      NothingLeftOver();
      r := WriteBuf(b);
    }

    /** An empty queue means that nothing was left over. */
    lemma NothingLeftOver()
      requires Valid() && com != null && queue == []
      ensures leftover == []
    {
      assert |before| + |leftover| + |output| == |com.taken| + |Flat(queue)|;
    }

    /** do_write_more, called when the selected device can take bytes. */
    method WriteMore() returns (n: int)
      requires Valid() && selected
      modifies this`queue, this`selected, com`taken
      ensures Valid() && EAGAIN <= n <= |old(Flat(queue))|
      ensures com.taken == old(com.taken + Flat(queue)[..if n < 0 then 0 else n])
      ensures Flat(queue) == old(Flat(queue))[if n < 0 then 0 else n..]
    {
      ghost var all := Flat(queue);
      n := com.Write(Flat(queue));
      ghost var k := if n < 0 then 0 else n;
      assert all == all[..k] + all[k..];
      if n > 0 {
        DequeuedFlat(queue, n);
        queue := Dequeued(queue, n);
      }
      EmptyIffNoBytes(queue);
      if queue == [] {
        selected := false;
      }
    }
  }

  /** In a session that began with an empty queue, what the device took and what is queued is the
      output, and as long as something is queued the device is being watched. */
  lemma NothingForgotten(sl: Sl)
    requires sl.Valid() && sl.com != null && sl.leftover == []
    ensures sl.com.taken[|sl.before|..] + Flat(sl.queue) == sl.output
    ensures sl.selected || sl.com.taken[|sl.before|..] == sl.output
  {
    var w := sl.com.taken[|sl.before|..];
    assert sl.before + sl.leftover == sl.before;
    assert sl.com.taken == sl.before + w;
    assert sl.before + sl.output == sl.before + (w + Flat(sl.queue));
    assert (sl.before + sl.output)[|sl.before|..] == sl.output;
    assert (sl.before + (w + Flat(sl.queue)))[|sl.before|..] == w + Flat(sl.queue);
    assert w + [] == w;
  }

  /** DO_WRITE is selected exactly when something is queued, if and only if nothing was left over
      from an earlier session; otherwise the device takes nothing. */
  lemma SelectedIff(sl: Sl)
    requires sl.Valid() && sl.com != null
    ensures (sl.selected <==> sl.queue != []) <==> sl.leftover == []
    ensures sl.leftover != [] ==> sl.com.taken == sl.before && !sl.selected
  {
    if sl.queue == [] {
      sl.NothingLeftOver();
    }
  }

  /** A run in which output is never written: what a full device left in the queue when it was closed
      blocks the next session, although the device could take bytes by then. */
  method LeftoverBlocks() returns (sl: Sl, dev: Device)
    ensures sl.Valid() && sl.com == dev && !dev.full && Flat(sl.queue) == [1, 2, 3]
    ensures dev.taken == [] && !sl.selected
  {
    sl := new Sl();
    dev := new Device();
    var r := sl.Open(dev, true);
    assert Flat([]) == [];
    r := sl.Output([1, 2]);
    assert [] + Flat(sl.queue) == Flat(sl.queue) && [] + [] + ([] + [1, 2]) == [1, 2];
    sl.Close();
    r := sl.Open(dev, true);
    dev.full := false;
    r := sl.Output([3]);
    assert [] + Flat(sl.queue) == Flat(sl.queue) && [] + [1, 2] + ([] + [3]) == [1, 2, 3];
  }
}
