/** The fixed-capacity circular queue of 9.serialport/src/queue.c. */
module Queue {

  /** A queue holds two items at least; the source's holds 20. */
  type QueueSize = n: nat | 2 <= n witness 20

  const QUEUE_SIZE: QueueSize

  /** What a queue holds after an insertion: nothing changes when it is full. */
  function Enqueued(q: seq<int>, item: int): seq<int> {
    if |q| == QUEUE_SIZE then q else q + [item]
  }

  /** What a queue holds after a removal: nothing changes when it is empty. */
  function Dequeued(q: seq<int>): seq<int> {
    if q == [] then q else q[1..]
  }

  // ---- the structure, whatever is in it ------------------------------------------------------

  datatype Ring = Ring(head: nat, tail: nat, size: nat, items: seq<int>)

  /** Every index queue_in and queue_out use is inside the array. */
  predicate Shaped(r: Ring) {
    |r.items| == QUEUE_SIZE && r.head < QUEUE_SIZE && r.tail < QUEUE_SIZE && r.size <= QUEUE_SIZE
  }

  function Wrap(i: nat): nat { if i < QUEUE_SIZE then i else i - QUEUE_SIZE }

  /** The stores of queue_in. */
  function PutIn(r: Ring, item: int): Ring
    requires Shaped(r)
  {
    if r.size == QUEUE_SIZE then r else Ring(r.head, Wrap(r.tail + 1), r.size + 1, r.items[r.tail := item])
  }

  /** The stores of queue_out. */
  function TakeOut(r: Ring): Ring
    requires Shaped(r)
  {
    if r.size == 0 then r else Ring(Wrap(r.head + 1), r.tail, r.size - 1, r.items[r.head := 0])
  }

  /** The i-th item counted from the front. */
  function At(r: Ring, i: nat): int
    requires Shaped(r) && i < QUEUE_SIZE
  {
    r.items[Wrap(r.head + i)]
  }

  /** The items of q, front first, are the ones from head on, and tail is the place after the last. */
  predicate Holds(r: Ring, q: seq<int>) {
    && Shaped(r) && r.size == |q| && r.tail == Wrap(r.head + |q|)
    && forall i :: 0 <= i < |q| ==> At(r, i) == q[i]
  }

  /** Place k lies outside the occupied stretch. */
  predicate Unused(r: Ring, k: nat) {
    (if r.head <= k then k - r.head else k + QUEUE_SIZE - r.head) >= r.size
  }

  /** What lies outside the occupied stretch is 0. */
  predicate Clear(r: Ring)
    requires Shaped(r)
  {
    forall k :: 0 <= k < QUEUE_SIZE && Unused(r, k) ==> r.items[k] == 0
  }

  lemma PutHolds(r: Ring, q: seq<int>, item: int)
    requires Holds(r, q)
    ensures Holds(PutIn(r, item), Enqueued(q, item)) && (Clear(r) ==> Clear(PutIn(r, item)))
  {
    var t := PutIn(r, item);
    forall i | 0 <= i < |q| && |q| < QUEUE_SIZE ensures At(t, i) == q[i] { assert At(r, i) == q[i]; }
  }

  lemma TakeHolds(r: Ring, q: seq<int>)
    requires Holds(r, q)
    ensures Holds(TakeOut(r), Dequeued(q)) && (Clear(r) ==> Clear(TakeOut(r)))
    ensures q != [] ==> r.items[r.head] == q[0]
  {
    if q != [] {
      var t := TakeOut(r);
      forall i | 0 <= i < |q| - 1 ensures At(t, i) == q[i + 1] { assert At(r, i + 1) == q[i + 1]; }
      assert At(r, 0) == q[0];
    }
  }

  class RingQueue {
    var head: nat
    var tail: nat
    var size: nat
    const items: array<int>
    ghost var Contents: seq<int>  // front of the queue first
    ghost const slot: int         // tells apart the queues embedded in one kernel

    /** The structure itself. */
    ghost function Image(): Ring
      reads this, items
    {
      Ring(head, tail, size, items[..])
    }

    ghost predicate Valid()
      reads this, items
      ensures Valid() ==> Shaped(Image())
    {
      Holds(Image(), Contents) && Clear(Image())
    }

    /** A queue in zeroed memory, the state the kernel's memset leaves. */
    constructor (ghost slot: int)
      ensures Valid() && Contents == [] && fresh(items) && this.slot == slot
    {
      head, tail, size := 0, 0, 0;
      items := new int[QUEUE_SIZE](_ => 0);
      Contents := [];
      this.slot := slot;
    }

    /** queue_init, and equally a memset of the structure to zero. */
    method Init()
      requires Shaped(Image())
      modifies this, items
      ensures Valid() && Contents == []
      ensures Image() == Ring(0, 0, 0, seq(QUEUE_SIZE, _ => 0))
    {
      for i := 0 to QUEUE_SIZE
        invariant forall k :: 0 <= k < i ==> items[k] == 0
      {
        items[i] := 0;
      }
      head, tail, size := 0, 0, 0;
      Contents := [];
    }

    /** A bare store to size, which keeps a queue where nothing was queued. */
    method Truncate()
      requires Shaped(Image())
      modifies this
      ensures Image() == old(Image()).(size := 0)
      ensures old(Valid() && Contents == []) ==> Valid() && Contents == []
    {
      size := 0;
    }

    method In(item: int) returns (rc: int)
      requires Shaped(Image())
      modifies this, items
      ensures Image() == PutIn(old(Image()), item) && rc == if old(size) == QUEUE_SIZE then -1 else 0
      ensures old(Valid()) ==>
        && Valid() && Contents == Enqueued(old(Contents), item)
        && rc == if |old(Contents)| == QUEUE_SIZE then -1 else 0
    {
      hide Holds, Clear;
      ghost var r, q := Image(), Contents;
      if Holds(r, q) { PutHolds(r, q, item); Sized(r, q); }
      if size == QUEUE_SIZE {
        return -1;
      }
      items[tail] := item;
      tail := tail + 1;
      if tail == QUEUE_SIZE {
        tail := 0;
      }
      size := size + 1;
      Contents := Enqueued(q, item);
      assert Image() == PutIn(r, item);
      return 0;
    }

    /** `item` keeps the value `was` when the queue is empty. */
    method Out(was: int) returns (rc: int, item: int)
      requires Shaped(Image())
      modifies this, items
      ensures Image() == TakeOut(old(Image()))
      ensures if old(size) == 0 then rc == -1 && item == was else rc == 0 && item == old(Image()).items[old(head)]
      ensures old(Valid()) ==>
        && Valid() && Contents == Dequeued(old(Contents))
        && (old(Contents) == [] ==> rc == -1 && item == was)
        && (old(Contents) != [] ==> rc == 0 && item == old(Contents)[0])
    {
      hide Holds, Clear;
      ghost var r, q := Image(), Contents;
      if Holds(r, q) { TakeHolds(r, q); Sized(r, q); }
      if size == 0 {
        return -1, was;
      }
      item := items[head];
      items[head] := 0;
      head := head + 1;
      if head == QUEUE_SIZE {
        head := 0;
      }
      size := size - 1;
      Contents := Dequeued(q);
      assert Image() == TakeOut(r);
      return 0, item;
    }

    predicate IsEmpty()
      requires Valid()
      reads this, items
      ensures IsEmpty() <==> Contents == []
    {
      size == 0
    }

    predicate IsFull()
      requires Valid()
      reads this, items
      ensures IsFull() <==> |Contents| == QUEUE_SIZE
    {
      size == QUEUE_SIZE
    }
  }

  lemma Sized(r: Ring, q: seq<int>)
    requires Holds(r, q)
    ensures Shaped(r) && r.size == |q|
  {
  }
}
