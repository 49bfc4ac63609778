/** The ring buffer of events, its independent readers, and what a reader sees of a stream
    that overtakes it. Events are numbered in the order in which the filter kept them. */
module EventQueues {
  import opened Wrappers

  // ---------- arithmetic of the ring ----------

  /** j mod size, by counting down. */
  function Slot(j: nat, size: nat): (i: nat)
    requires size > 0
    ensures i < size && i <= j
  {
    if j < size then j else Slot(j - size, size)
  }

  /** The largest multiple of size that is no more than u. */
  function Laps(u: nat, size: nat): (k: nat)
    requires size > 0
    ensures k + Slot(u, size) == u
  {
    if u < size then 0 else size + Laps(u - size, size)
  }

  lemma Product(size: int, d: int)
    requires size > 0
    ensures d >= 1 ==> size * d >= size
    ensures d <= -1 ==> size * d <= -size
  {}

  lemma ModUnique(a: nat, size: nat, q: int, m: nat)
    requires size > 0 && m < size && a == size * q + m
    ensures a % size == m && a / size == q
  {
    var d := q - a / size;
    assert size * d == a % size - m;
    Product(size, d);
  }

  /** Slot is the remainder, and Laps the rest, of a division. */
  lemma {:induction false} SlotIsMod(j: nat, size: nat)
    requires size > 0
    ensures Slot(j, size) == j % size && Laps(j, size) == size * (j / size)
  {
    if j < size {
      ModUnique(j, size, 0, j);
    } else {
      SlotIsMod(j - size, size);
      var q, m := (j - size) / size, (j - size) % size;
      assert j == size * (q + 1) + m;
      ModUnique(j, size, q + 1, m);
    }
  }

  lemma {:induction false} SlotStep(j: nat, size: nat)
    requires size > 1
    ensures Slot(j + 1, size) == if Slot(j, size) + 1 == size then 0 else Slot(j, size) + 1
  {
    if j >= size {
      SlotStep(j - size, size);
    }
  }

  /** (next + 1) % _size, as the code advances an index. */
  lemma Advance(j: nat, size: nat)
    requires size > 1
    ensures (Slot(j, size) + 1) % size == Slot(j + 1, size)
  {
    SlotStep(j, size);
    SlotIsMod(Slot(j, size) + 1, size);
  }

  lemma {:induction false} SlotNear(a: nat, b: nat, size: nat)
    requires size > 0 && a < b < a + size
    ensures Slot(a, size) != Slot(b, size)
  {
    if a >= size {
      SlotNear(a - size, b - size, size);
    }
  }

  /** Two indices share a slot exactly when their distance is a multiple of the size. */
  lemma {:induction false} SlotSame(a: nat, b: nat, size: nat)
    requires size > 0 && a <= b
    ensures Slot(a, size) == Slot(b, size) <==> Slot(b - a, size) == 0
  {
    if b - a >= size {
      SlotSame(a, b - size, size);
    } else if a < b {
      SlotNear(a, b, size);
    }
  }

  /** The index a read delivers when the reader is at pos and n events have been kept. */
  function NextIndex(pos: nat, n: nat, size: nat): (j: nat)
    requires size > 0 && pos <= n
  {
    pos + Laps(n - pos, size)
  }

  lemma {:induction false} LapsSlot(u: nat, size: nat)
    requires size > 0
    ensures Slot(Laps(u, size), size) == 0
  {
    if u >= size {
      LapsSlot(u - size, size);
    }
  }

  lemma NextIndexInWindow(pos: nat, n: nat, size: nat)
    requires size > 0 && pos <= n && Slot(n - pos, size) != 0
    ensures var j := NextIndex(pos, n, size);
      pos <= j < n < j + size && Slot(j, size) == Slot(pos, size) && Slot(j - pos, size) == 0
    ensures n - pos < size ==> NextIndex(pos, n, size) == pos
  {
    LapsSlot(n - pos, size);
    SlotSame(pos, NextIndex(pos, n, size), size);
  }

  // ---------- the queue ----------

  class EventQueue<T(==)> {
    const size: nat
    const queue: array<Option<T>>
    const keep: T -> bool
    var next: nat
    ghost var kept: seq<T>        // all events the filter kept
    ghost var freed: set<nat>     // the numbers of those that were deleted

    ghost predicate Valid()
      reads this, queue
    {
      && size > 1 && queue.Length == size && next == Slot(|kept|, size)
      && (forall j {:trigger Slot(j, size)} :: 0 <= j < |kept| <= j + size ==> queue[Slot(j, size)] == Some(kept[j]))
      && (forall i :: |kept| <= i < size ==> queue[i] == None)
      && (forall j :: j in freed <==> 0 <= j < |kept| - size)
    }

    /** The filter is fixed before the first event arrives. */
    constructor (length: nat, keep: T -> bool)
      requires length > 0
      ensures Valid() && fresh(queue) && kept == [] && size == length + 1 && this.keep == keep
    {
      this.size, this.keep, next := length + 1, keep, 0;
      queue := new Option<T>[length + 1](_ => None);
      kept, freed := [], {};
    }

    method Append(event: T)
      requires Valid()
      modifies this, queue
      ensures Valid()
      ensures kept == if keep(event) then old(kept) + [event] else old(kept)
    {
      if keep(event) {
        ghost var n := |kept|;
        ghost var oldest := n - size;
        if n >= size {
          assert Slot(oldest, size) == next && oldest !in freed;
          freed := freed + {oldest};
        }
        queue[next] := Some(event);
        Advance(n, size);
        next := (next + 1) % size;
        kept := kept + [event];
        forall j | 0 <= j < n + 1 <= j + size ensures queue[Slot(j, size)] == Some(kept[j]) {
          if j < n {
            SlotNear(j, n, size);
            assert old(queue[Slot(j, size)]) == Some(old(kept)[j]);
          }
        }
      }
    }

    /** ~EventQueue: every kept event has then been deleted exactly once. */
    method Destroy()
      requires Valid()
      modifies this`freed
      ensures forall j :: j in freed <==> 0 <= j < |kept|
    {
      ghost var n := |kept|;
      assert freed == Gone(n, size, 0);
      for i := 0 to size
        invariant freed == Gone(n, size, i)
      {
        GoneStep(n, size, i);
        assert i < n ==> queue[Slot(Newest(n, size, i), size)] == Some(kept[Newest(n, size, i)]);
        if queue[i].Some? {
          assert Newest(n, size, i) !in freed;
          freed := freed + {Newest(n, size, i)};
        }
      }
    }
  }

  /** The newest event in slot i. */
  ghost function Newest(n: nat, size: nat, i: nat): (j: nat)
    requires i < size
  {
    if i < n then i + Laps(n - 1 - i, size) else 0
  }

  /** What has been deleted when the destructor comes to slot i. */
  ghost function Gone(n: nat, size: nat, i: nat): set<nat>
    requires size > 0
  {
    set k: nat | k < n && (k < n - size || Slot(k, size) < i)
  }

  /** A slot below n holds exactly one of the last events, and a later slot none. */
  lemma GoneStep(n: nat, size: nat, i: nat)
    requires i < size
    ensures i >= n ==> Gone(n, size, i + 1) == Gone(n, size, i)
    ensures i < n ==>
      var j := Newest(n, size, i);
      && j < n <= j + size && Slot(j, size) == i
      && j !in Gone(n, size, i) && Gone(n, size, i + 1) == Gone(n, size, i) + {j}
  {
    if i < n {
      var j := Newest(n, size, i);
      LapsSlot(n - 1 - i, size);
      SlotSame(i, j, size);
      forall k: nat | k < n <= k + size && Slot(k, size) == i ensures k == j {
        if k < j {
          SlotNear(k, j, size);
        } else if j < k {
          SlotNear(j, k, size);
        }
      }
    }
  }

  // ---------- readers ----------

  class Reader<T(==)> {
    const queue: EventQueue<T>
    var next: nat
    ghost var pos: nat    // the number of the next event to read

    ghost predicate Valid()
      reads this, queue, queue.queue
    {
      queue.Valid() && pos <= |queue.kept| && next == Slot(pos, queue.size)
    }

    /** The events kept since the last one that was read. */
    ghost function Unread(): nat
      requires Valid()
      reads this, queue, queue.queue
    {
      |queue.kept| - pos
    }

    constructor (queue: EventQueue<T>)
      requires queue.Valid()
      ensures Valid() && this.queue == queue && pos == |queue.kept|
    {
      this.queue := queue;
      next := queue.next;
      pos := |queue.kept|;
    }

    method MoreEvents() returns (more: bool)
      requires Valid()
      ensures more <==> Slot(Unread(), queue.size) != 0
    {
      SlotSame(pos, |queue.kept|, queue.size);
      more := next != queue.next;
    }

    /** Callers ask MoreEvents first. A reader that fell behind skips a multiple of the
        ring's size, and nothing if its backlog is smaller than that. */
    method NextEvent() returns (event: T)
      requires Valid() && Slot(Unread(), queue.size) != 0
      modifies this`next, this`pos
      ensures Valid() && 0 < pos && event == queue.kept[pos - 1]
      ensures pos - 1 == old(pos) + Laps(old(Unread()), queue.size)
      ensures Unread() == Slot(old(Unread()), queue.size) - 1
    {
      ghost var j := NextIndex(pos, |queue.kept|, queue.size);
      NextIndexInWindow(pos, |queue.kept|, queue.size);
      assert queue.queue[Slot(j, queue.size)] == Some(queue.kept[j]);
      event := queue.queue[next].value;
      Advance(j, queue.size);
      next := (next + 1) % queue.size;
      pos := j + 1;
    }
  }

  // ---------- a reader beside a stream, for every interleaving ----------

  /** Keep: the queue keeps an event. Read: the reader asks for one. Readers do not disturb
      each other or the queue, so one reader's view is all there is. */
  datatype Act = Keep | Read

  /** The numbers of the events delivered to a reader at pos, n events having been kept. */
  function Delivered(acts: seq<Act>, size: nat, n: nat, pos: nat): seq<nat>
    requires size > 1 && pos <= n
    decreases |acts|
  {
    if acts == [] then []
    else if acts[0] == Keep then Delivered(acts[1..], size, n + 1, pos)
    else if Slot(n - pos, size) == 0 then Delivered(acts[1..], size, n, pos)
    else
      NextIndexInWindow(pos, n, size);
      [NextIndex(pos, n, size)] + Delivered(acts[1..], size, n, NextIndex(pos, n, size) + 1)
  }

  function Keeps(acts: seq<Act>): nat {
    if acts == [] then 0 else (if acts[0] == Keep then 1 else 0) + Keeps(acts[1..])
  }

  /** Delivery is in order and never repeats, and what lies between two deliveries is a
      multiple of the ring's size. */
  ghost predicate InOrder(d: seq<nat>, size: nat, pos: nat, end: nat)
    requires size > 1
  {
    && (forall i :: 0 <= i < |d| ==> pos <= d[i] < end)
    && (forall i, j :: 0 <= i < j < |d| ==> d[i] < d[j])
    && (|d| > 0 ==> Slot(d[0] - pos, size) == 0)
    && (forall i :: 0 < i < |d| ==> SkipsLaps(d, i, size))
  }

  ghost predicate SkipsLaps(d: seq<nat>, i: nat, size: nat)
    requires size > 1 && 0 < i < |d|
  {
    d[i - 1] < d[i] && Slot(d[i] - d[i - 1] - 1, size) == 0
  }

  /** One act, as far as the deliveries go. */
  lemma DeliveredStep(acts: seq<Act>, size: nat, n: nat, pos: nat)
    requires size > 1 && pos <= n && acts != []
    ensures acts[0] == Keep ==>
      && Delivered(acts, size, n, pos) == Delivered(acts[1..], size, n + 1, pos) && Keeps(acts) == 1 + Keeps(acts[1..])
    ensures acts[0] == Read ==> Keeps(acts) == Keeps(acts[1..])
    ensures acts[0] == Read && Slot(n - pos, size) == 0 ==>
      Delivered(acts, size, n, pos) == Delivered(acts[1..], size, n, pos)
    ensures acts[0] == Read && Slot(n - pos, size) != 0 ==>
      var j := NextIndex(pos, n, size);
      && pos <= j < n && Slot(j - pos, size) == 0
      && Delivered(acts, size, n, pos) == [j] + Delivered(acts[1..], size, n, j + 1)
  {
    hide Slot, NextIndex;
    if Slot(n - pos, size) != 0 {
      NextIndexInWindow(pos, n, size);
    }
  }

  lemma NoneDelivered(acts: seq<Act>, size: nat, n: nat, pos: nat)
    requires size > 1
    ensures InOrder([], size, pos, n + Keeps(acts)) && (acts == [] && pos <= n ==> Delivered(acts, size, n, pos) == [])
  {
  }

  lemma {:induction false} DeliveredInOrder(acts: seq<Act>, size: nat, n: nat, pos: nat)
    requires size > 1 && pos <= n
    ensures InOrder(Delivered(acts, size, n, pos), size, pos, n + Keeps(acts))
    decreases |acts|
  {
    hide Delivered, Keeps, InOrder, Slot, NextIndex;
    if acts == [] {
      NoneDelivered(acts, size, n, pos);
    } else {
      DeliveredStep(acts, size, n, pos);
      if acts[0] == Keep {
        DeliveredInOrder(acts[1..], size, n + 1, pos);
        assert n + 1 + Keeps(acts[1..]) == n + Keeps(acts);
      } else if Slot(n - pos, size) == 0 {
        DeliveredInOrder(acts[1..], size, n, pos);
      } else {
        var j := NextIndex(pos, n, size);
        DeliveredInOrder(acts[1..], size, n, j + 1);
        InOrderCons(Delivered(acts[1..], size, n, j + 1), size, pos, j, n + Keeps(acts));
      }
    }
  }

  lemma InOrderCons(rest: seq<nat>, size: nat, pos: nat, j: nat, end: nat)
    requires size > 1 && pos <= j < end && Slot(j - pos, size) == 0 && InOrder(rest, size, j + 1, end)
    ensures InOrder([j] + rest, size, pos, end)
  {
    var d := [j] + rest;
    forall i | 0 < i < |d| ensures SkipsLaps(d, i, size) {
      if i > 1 {
        assert SkipsLaps(rest, i - 1, size);
      }
    }
  }

  /** The reader never has a whole ring of unread events before it. */
  predicate KeepsUp(acts: seq<Act>, size: nat, n: nat, pos: nat)
    requires size > 1 && pos <= n
    decreases |acts|
  {
    n - pos < size &&
    (acts == [] ||
     if acts[0] == Keep then KeepsUp(acts[1..], size, n + 1, pos)
     else KeepsUp(acts[1..], size, n, if n == pos then pos else pos + 1))
  }

  /** The k-th delivery is event pos + k, and at the end less than a ring is outstanding. */
  ghost predicate GetsAll(d: seq<nat>, size: nat, pos: nat, end: nat) {
    (forall k :: 0 <= k < |d| ==> d[k] == pos + k) && end - (pos + |d|) < size
  }

  lemma GetsAllCons(j: nat, rest: seq<nat>, size: nat, pos: nat, end: nat)
    ensures GetsAll([j] + rest, size, pos, end) <==> j == pos && GetsAll(rest, size, pos + 1, end)
  {
    var d := [j] + rest;
    if GetsAll(d, size, pos, end) {
      assert d[0] == pos;
      forall k | 0 <= k < |rest| ensures rest[k] == pos + 1 + k {
        assert d[k + 1] == rest[k];
      }
    }
  }

  /** A reader gets every event if and only if it keeps up. */
  lemma {:induction false} NothingLostIff(acts: seq<Act>, size: nat, n: nat, pos: nat)
    requires size > 1 && pos <= n
    ensures KeepsUp(acts, size, n, pos) <==> GetsAll(Delivered(acts, size, n, pos), size, pos, n + Keeps(acts))
    decreases |acts|
  {
    if acts != [] {
      var rest := acts[1..];
      if acts[0] == Keep {
        NothingLostIff(rest, size, n + 1, pos);
        assert n + 1 + Keeps(rest) == n + Keeps(acts);
      } else if Slot(n - pos, size) == 0 {
        NothingLostIff(rest, size, n, pos);
      } else {
        var j := NextIndex(pos, n, size);
        NextIndexInWindow(pos, n, size);
        NothingLostIff(rest, size, n, j + 1);
        GetsAllCons(j, Delivered(rest, size, n, j + 1), size, pos, n + Keeps(rest));
      }
    }
  }

  /** A whole ring of unread events is invisible, and the next event skips it. */
  lemma OvertakenOnce(size: nat, n: nat)
    requires size > 1
    ensures Delivered([Read], size, n + size, n) == []
    ensures Delivered([Read], size, n + size + 1, n) == [n + size]
  {
    assert [Read][1..] == [];
    assert Slot(size, size) == Slot(0, size) == 0 && Slot(size + 1, size) == Slot(1, size) == 1;
    assert Laps(size + 1, size) == size + Laps(1, size) == size;
  }
}
