/** The fixed-size circular buffer between the threads of the UDP server. */
module RingBuffers {
  import opened Basics

  // The array with its three indices: items are put in at the head and taken out at the tail.
  datatype Ring<T> = Ring(slots: seq<T>, head: nat, tail: nat, size: nat)

  predicate ValidRing<T>(r: Ring<T>) {
    && 0 < |r.slots|
    && r.size <= |r.slots| && r.tail < |r.slots|
    && r.head == Place(r.tail, r.size, |r.slots|)
  }

  // The queued items, oldest first.
  function Items<T>(r: Ring<T>): (s: seq<T>)
    requires ValidRing(r)
    ensures |s| == r.size
  {
    seq(r.size, i requires 0 <= i < r.size => r.slots[Place(r.tail, i, |r.slots|)])
  }

  function Pushed<T>(r: Ring<T>, item: T): Ring<T>
    requires ValidRing(r)
  {
    if r.size == |r.slots| then r
    else Ring(r.slots[r.head := item], Slot(r.head + 1, |r.slots|), r.tail, r.size + 1)
  }

  function Popped<T>(r: Ring<T>): Ring<T>
    requires ValidRing(r)
  {
    if r.size == 0 then r else r.(tail := Slot(r.tail + 1, |r.slots|), size := r.size - 1)
  }

  function Front<T>(r: Ring<T>): Option<T>
    requires ValidRing(r)
  {
    if r.size == 0 then None else Some(r.slots[r.tail])
  }

  /** A push puts an item at the end of the queue, unless every slot is taken. */
  lemma PushItems<T>(r: Ring<T>, item: T)
    requires ValidRing(r)
    ensures ValidRing(Pushed(r, item)) && |Pushed(r, item).slots| == |r.slots|
    ensures Items(Pushed(r, item)) == if r.size == |r.slots| then Items(r) else Items(r) + [item]
  {
    var n := |r.slots|;
    if r.size < n {
      NextHead(r.tail, r.size, n);
      forall i | 0 <= i < r.size ensures Items(Pushed(r, item))[i] == Items(r)[i] {
        SlotApart(r.tail, i, r.size, n);
      }
    }
  }

  /** A pop takes the oldest item out of the queue, if there is one. */
  lemma PopItems<T>(r: Ring<T>)
    requires ValidRing(r)
    ensures ValidRing(Popped(r)) && |Popped(r).slots| == |r.slots|
    ensures Items(r) == [] ==> Front(r) == None && Items(Popped(r)) == []
    ensures Items(r) != [] ==> Front(r) == Some(Items(r)[0]) && Items(Popped(r)) == Items(r)[1..]
  {
    var n := |r.slots|;
    if r.size > 0 {
      SlotValue(r.tail, n);
      SlotValue(r.tail + r.size, n);
      NextTail(r.tail, r.size - 1, n);
      forall i | 0 <= i < r.size - 1 ensures Items(Popped(r))[i] == Items(r)[i + 1] {
        NextTail(r.tail, i, n);
      }
    }
  }

  class RingBuffer<T(0)> {
    const buffer: array<T>
    var head: nat
    var tail: nat
    var size: nat

    ghost function State(): Ring<T>
      reads this, buffer
    {
      Ring(buffer[..], head, tail, size)
    }

    ghost predicate Valid()
      reads this, buffer
    {
      ValidRing(State())
    }

    ghost function Contents(): seq<T>
      requires Valid()
      reads this, buffer
    {
      Items(State())
    }

    constructor (capacity: nat)
      requires capacity > 0
      ensures Valid() && fresh(buffer) && buffer.Length == capacity && Contents() == []
      ensures head == tail == 0
    {
      buffer := new T[capacity];
      head, tail, size := 0, 0, 0;
      new;
      SlotValue(0, capacity);
    }

    method Push(item: T) returns (ok: bool)
      requires Valid()
      modifies this`head, this`size, buffer
      ensures Valid() && State() == Pushed(old(State()), item)
      ensures ok <==> |old(Contents())| < buffer.Length
      ensures Contents() == if ok then old(Contents()) + [item] else old(Contents())
    {
      PushItems(State(), item);
      if size == buffer.Length {
        return false;
      }
      buffer[head] := item;
      head := Slot(head + 1, buffer.Length);
      size := size + 1;
      assert State() == Pushed(old(State()), item);
      return true;
    }

    method Pop() returns (r: Option<T>)
      requires Valid()
      modifies this`tail, this`size
      ensures Valid() && State() == Popped(old(State())) && r == Front(old(State()))
      ensures old(Contents()) == [] ==> r == None && Contents() == []
      ensures old(Contents()) != [] ==> r == Some(old(Contents())[0]) && Contents() == old(Contents())[1..]
    {
      PopItems(State());
      if size == 0 {
        return None;
      }
      var item := buffer[tail];
      tail := Slot(tail + 1, buffer.Length);
      size := size - 1;
      assert State() == Popped(old(State()));
      return Some(item);
    }

    method IsEmpty() returns (empty: bool)
      requires Valid()
      ensures empty <==> Contents() == []
    {
      return size == 0;
    }

    method IsFull() returns (full: bool)
      requires Valid()
      ensures full <==> |Contents()| == buffer.Length
    {
      return size == buffer.Length;
    }

    method Count() returns (n: nat)
      requires Valid()
      ensures n == |Contents()|
    {
      return size;
    }
  }

  // ---------- arithmetic of slots ----------

  // Positions run on past the end of the array and wrap around once.
  function Slot(a: nat, n: nat): (r: nat)
    requires 0 < n
    ensures r < n
  {
    a % n
  }

  lemma SlotValue(a: nat, n: nat)
    requires a < 2 * n
    ensures Slot(a, n) == if a < n then a else a - n
  {
    if a >= n {
      var q := a / n;
      assert a == q * n + a % n;
      TwiceAtLeast(q, n);
      assert q == 1;
    }
  }

  lemma TwiceAtLeast(q: nat, n: nat)
    ensures q >= 2 ==> q * n >= 2 * n
  {
  }

  // Where the i-th item from the tail is stored.
  function Place(tail: nat, i: nat, n: nat): (r: nat)
    requires 0 < n
    ensures r < n
  {
    Slot(tail + i, n)
  }

  // A free slot is none of the occupied ones.
  lemma SlotApart(tail: nat, i: nat, size: nat, n: nat)
    requires tail < n && i < size < n
    ensures Place(tail, i, n) != Place(tail, size, n)
  {
    SlotValue(tail + i, n);
    SlotValue(tail + size, n);
  }

  lemma NextHead(tail: nat, size: nat, n: nat)
    requires tail < n && size < n
    ensures Slot(Place(tail, size, n) + 1, n) == Place(tail, size + 1, n)
  {
    SlotValue(tail + size, n);
    SlotValue(tail + size + 1, n);
    SlotValue(Slot(tail + size, n) + 1, n);
  }

  lemma NextTail(tail: nat, i: nat, n: nat)
    requires tail < n && i < n
    ensures Place(Slot(tail + 1, n), i, n) == Place(tail, i + 1, n)
  {
    SlotValue(tail + 1, n);
    SlotValue(Slot(tail + 1, n) + i, n);
    SlotValue(tail + 1 + i, n);
  }
}
