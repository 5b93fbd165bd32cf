/** The disk driver A.ide/src/ide.c: a queue of buffers threaded through qnext, one request at the drive
    at a time, the next one started by the interrupt that ends it. The drive is a map from (drive,
    block) to content; a write hands its data over when it is started, a read takes it when it ends. */
module Ide {
  import opened FsFormat
  import opened BufList

  /** A block of a drive. */
  datatype Place = Place(drive: nat, block: nat)

  type Disk = map<Place, Block>

  datatype Request = Read(at: Place) | Write(at: Place, data: Block)

  datatype Pending = Idle | Busy(req: Request)

  /** The drive and block a buffer is for: only the low bit of the device number reaches the drive. */
  function PlaceOf(b: Buf): Place
    reads b`dev, b`blockno
  {
    Place(b.dev % 2, b.blockno)
  }

  function RequestOf(b: Buf): Request
    reads b
  {
    if b.dirty then Write(PlaceOf(b), b.data) else Read(PlaceOf(b))
  }

  /** The disk after one request. */
  function Done(disk: Disk, r: Request): Disk {
    match r
    case Read(_) => disk
    case Write(at, data) => disk[at := data]
  }

  /** The disk after requests, first to last. */
  function DoneAll(disk: Disk, rs: seq<Request>): Disk
    decreases |rs|
  {
    if rs == [] then disk else DoneAll(Done(disk, rs[0]), rs[1..])
  }

  lemma {:induction false} DoneAllMore(disk: Disk, rs: seq<Request>, r: Request)
    ensures DoneAll(disk, rs + [r]) == Done(DoneAll(disk, rs), r)
    decreases |rs|
  {
    if rs != [] {
      assert (rs + [r])[1..] == rs[1..] + [r];
      DoneAllMore(Done(disk, rs[0]), rs[1..], r);
    } else {
      assert [r][1..] == [];
    }
  }

  lemma DoneIs(disk: Disk, r: Request)
    ensures Done(disk, r) == if r.Write? then disk[r.at := r.data] else disk
  {
  }

  /** The requests the buffers of q are in line for. */
  ghost function Requests(q: seq<Buf>): (rs: seq<Request>)
    ensures |rs| == |q| && forall i :: 0 <= i < |q| ==> rs[i] == RequestOf(q[i])
    reads q
  {
    if q == [] then [] else [RequestOf(q[0])] + Requests(q[1..])
  }

  ghost function First(q: seq<Buf>): set<Buf> { if q == [] then {} else {q[0]} }

  /** There is a disk of FSSIZE blocks at drive 0, and at drive 1 too if have1. */
  predicate DiskOk(d: Disk, have1: bool) {
    forall k: nat :: k < FSSIZE ==> Place(0, k) in d && (have1 ==> Place(1, k) in d)
  }

  /** The buffers of q are threaded through qnext in that order. */
  ghost predicate Line(q: seq<Buf>)
    reads q`qnext
  {
    NoRepeats(q) && (forall i :: 0 <= i < |q| - 1 ==> q[i].qnext == q[i + 1]) && (q != [] ==> q[|q| - 1].qnext == null)
  }

  /** A request leaves the disk a disk, and a write is on it. */
  lemma DoneFacts(d: Disk, have1: bool, at: Place, r: Request)
    requires DiskOk(d, have1) && at.block < FSSIZE && (at.drive == 0 || (at.drive == 1 && have1)) && r.at == at
    ensures DiskOk(Done(d, r), have1) && at in d && at in Done(d, r)
    ensures if r.Write? then Done(d, r)[at] == r.data else Done(d, r) == d
  {
  }

  /** A line without its first. */
  lemma LineTail(q: seq<Buf>)
    requires Line(q) && q != []
    ensures Line(q[1..]) && q[0] !in q[1..] && Requests(q)[1..] == Requests(q[1..])
    ensures q[0].qnext == if |q| > 1 then q[1] else null
  {
    if |q| > 1 { LineNext(q, 0); }
  }

  lemma LineNext(q: seq<Buf>, i: nat)
    requires Line(q) && i < |q| - 1
    ensures q[i].qnext == q[i + 1]
  {
  }

  /** How many buffers are in line before the first one for a block past the end. */
  ghost function Startable(q: seq<Buf>): nat
    reads q`blockno
  {
    if q == [] || q[0].blockno >= FSSIZE then 0 else 1 + Startable(q[1..])
  }

  lemma {:induction false} StartableFits(q: seq<Buf>)
    ensures Startable(q) <= |q|
  {
    if q != [] { StartableFits(q[1..]); }
  }

  /** The buffers of a history in which null is the drive's turn. */
  function Joiners(hs: seq<Buf?>): seq<Buf> {
    if hs == [] then [] else (if hs[0] == null then [] else [hs[0]]) + Joiners(hs[1..])
  }

  lemma NextJoins(q: seq<Buf>, hs: seq<Buf?>)
    requires hs != [] && NoRepeats(q + Joiners(hs))
    ensures var h := hs[0];
            && q + Joiners(hs) == (if h == null then q else q + [h]) + Joiners(hs[1..]) && (h != null ==> h !in q)
  {
    var h, all := hs[0], q + Joiners(hs);
    if h != null {
      assert all == q + [h] + Joiners(hs[1..]);
      assert all[|q|] == h && forall i :: 0 <= i < |q| ==> all[i] == q[i];
    }
  }

  class Driver {
    var idequeue: Buf?
    const havedisk1: bool
    var disk: Disk
    var pending: Pending
    ghost var queue: seq<Buf>

    /** A disk of FSSIZE blocks is at drive 0, and one at drive 1 if havedisk1. */
    constructor (d: Disk, have1: bool)
      requires DiskOk(d, have1)
      ensures Valid() && queue == [] && disk == d && havedisk1 == have1
    {
      idequeue, havedisk1, disk, pending, queue := null, have1, d, Idle, [];
    }

    /** iderw would do something for b. */
    predicate Wanted(b: Buf)
      reads b
    {
      b.busy && (b.dirty || !b.valid) && (b.dev == 0 || havedisk1)
    }

    /** And idestart starts it. */
    predicate Proper(b: Buf)
      reads b
    {
      Wanted(b) && b.blockno < FSSIZE
    }

    ghost predicate AllWanted(q: seq<Buf>)
      reads q
    {
      forall i :: 0 <= i < |q| ==> Wanted(q[i])
    }

    ghost predicate AllProper(q: seq<Buf>)
      reads q
    {
      forall i :: 0 <= i < |q| ==> Proper(q[i])
    }

    /** Buffers iderw took on are in line, and the request of the first is at the drive if there is such a block. */
    ghost predicate Linked()
      reads this, queue
    {
      && DiskOk(disk, havedisk1) && Line(queue) && AllWanted(queue)
      && idequeue == (if queue == [] then null else queue[0])
      && pending == if queue == [] || queue[0].blockno >= FSSIZE then Idle else Busy(RequestOf(queue[0]))
    }

    /** All of them are for blocks of the disk. */
    ghost predicate Valid()
      reads this, queue
    {
      Linked() && AllProper(queue)
    }

    /** Starts the request for b at the drive. A buffer past the end of the disk is ignored. */
    method IdeStart(b: Buf?)
      modifies `pending
      ensures pending == if b == null || b.blockno >= FSSIZE then old(pending) else Busy(RequestOf(b))
    {
      if b == null {
        return;
      }
      if b.blockno >= FSSIZE {
        return;
      }
      pending := Busy(RequestOf(b));
    }

    /** The interrupt that ends the request at the drive: the first buffer in line is up to date, and
        the next one's turn comes. With nothing in line the interrupt is spurious; with nothing at the drive it
        is too, and the first buffer only looks up to date. */
    method IrqHandler()
      requires Linked()
      modifies this, First(queue)`data, First(queue)`valid, First(queue)`dirty
      ensures Linked() && (old(Valid()) ==> Valid())
      ensures old(queue) == [] ==> queue == [] && disk == old(disk)
      ensures old(queue) != [] ==>
        var b := old(queue)[0];
        && queue == old(queue)[1..] && b.valid && !b.dirty && Requests(queue) == old(Requests(queue))[1..]
        && (if old(pending).Busy? then
              disk == Done(old(disk), old(RequestOf(b))) && PlaceOf(b) in disk && b.data == disk[PlaceOf(b)]
            else disk == old(disk))
    {
      hide Requests, Done, DiskOk, Line, AllProper, AllWanted, Wanted, Proper, NoRepeats, RequestOf, PlaceOf;
      var b := idequeue;
      if b == null {
        return;
      }
      LineTail(queue);
      FirstWanted(queue);
      ghost var rest := queue[1..];
      idequeue := b.qnext;
      if pending.Busy? {
        RequestIs(b);
        DoneFacts(disk, havedisk1, PlaceOf(b), pending.req);
        Complete(b);
      } else {
        Pretend(b);
      }
      queue := rest;
      if idequeue != null {
        IdeStart(idequeue);
      }
    }

    /** What the handler does to a buffer whose request is not at the drive: whatever the data register yields. */
    method Pretend(b: Buf)
      modifies b`data, b`valid, b`dirty
      ensures b.valid && !b.dirty
    {
      if !b.dirty {
        b.data := *;
      }
      b.valid := true;
      b.dirty := false;
    }

    /** The drive carries out its request, and the buffer it was for is brought up to date. */
    method Complete(b: Buf)
      requires pending == Busy(RequestOf(b)) && PlaceOf(b) in disk
      modifies `disk, `pending, b`data, b`valid, b`dirty
      ensures disk == Done(old(disk), old(RequestOf(b))) && pending == Idle
      ensures b.valid && !b.dirty && PlaceOf(b) in disk && b.data == disk[PlaceOf(b)]
    {
      disk := Done(disk, pending.req);
      pending := Idle;
      if !b.dirty {
        b.data := disk[PlaceOf(b)];
      }
      b.valid := true;
      b.dirty := false;
    }

    lemma FirstWanted(q: seq<Buf>)
      requires AllWanted(q) && q != []
      ensures Wanted(q[0]) && AllWanted(q[1..]) && (AllProper(q) ==> q[0].blockno < FSSIZE && AllProper(q[1..]))
    {
      if AllProper(q) { assert Proper(q[0]); }
    }

    lemma RequestIs(b: Buf)
      requires Wanted(b) && b.blockno < FSSIZE
      ensures var p := PlaceOf(b);
              p.block < FSSIZE && (p.drive == 0 || (p.drive == 1 && havedisk1)) && RequestOf(b).at == p
    {
    }

    /** The first half of iderw: b joins the line, and is started if it is alone. A buffer for a block past the
        end joins it too and is not started. */
    method Enqueue(b: Buf)
      requires Linked() && Wanted(b) && b !in queue
      modifies this, queue`qnext, b`qnext
      ensures Linked() && queue == old(queue) + [b] && disk == old(disk)
      ensures old(Valid()) && b.blockno < FSSIZE ==> Valid()
      ensures old(queue) != [] ==> pending == old(pending)
      ensures old(queue) == [] ==> pending == if b.blockno < FSSIZE then Busy(RequestOf(b)) else Idle
      ensures Requests(queue) == old(Requests(queue)) + [old(RequestOf(b))]
    {
      hide Requests, DiskOk;
      b.qnext := null;
      if idequeue == null {
        idequeue := b;
      } else {
        var last: Buf := idequeue;
        ghost var i := 0;
        while last.qnext != null
          invariant 0 <= i < |queue| && last == queue[i] && Line(queue)
          decreases |queue| - i
          modifies {}
        {
          last := last.qnext;
          i := i + 1;
        }
        if i < |queue| - 1 { LineNext(queue, i); }
        last.qnext := b;
      }
      ghost var was := queue;
      queue := queue + [b];
      assert forall j :: 0 <= j < |was| ==> queue[j] == was[j];
      assert Line(queue);
      if idequeue == b {
        IdeStart(b);
      }
    }

    /** Brings b and the disk together: after every request before it, b is written if dirty, else read.
        The wait for its turn is a run of interrupts, and it ends. */
    method Iderw(b: Buf)
      requires Valid() && b !in queue && (Wanted(b) ==> b.blockno < FSSIZE)
      modifies this, queue`data, queue`valid, queue`dirty, queue`qnext, b`data, b`valid, b`dirty, b`qnext
      ensures Valid()
      ensures !old(Wanted(b)) ==> unchanged(this) && unchanged(b) && unchanged(old(queue))
      ensures old(Wanted(b)) ==>
        && queue == [] && disk == DoneAll(old(disk), old(Requests(queue)) + [old(RequestOf(b))])
        && b.valid && !b.dirty && PlaceOf(b) in disk && b.data == disk[PlaceOf(b)]
      ensures old(Wanted(b)) ==>
        var at := Place(b.dev % 2, b.blockno);
        && at in disk && b.data == disk[at] && (old(b.dirty) ==> b.data == old(b.data))
        && (old(queue) == [] ==> disk == if old(b.dirty) then old(disk)[at := b.data] else old(disk))
    {
      if !b.busy {
        return;
      }
      if b.valid && !b.dirty {
        return;
      }
      if b.dev != 0 && !havedisk1 {
        return;
      }
      hide Valid, Requests, DoneAll, Done;
      OneRequest(disk, RequestOf(b));
      DoneAllMore(disk, Requests(queue), RequestOf(b));
      ghost var before, r := DoneAll(disk, Requests(queue)), RequestOf(b);
      Served(b);
      DoneIs(before, r);
    }

    /** The rest of iderw, once it has found something to do. */
    method Served(b: Buf)
      requires Valid() && b !in queue && Wanted(b) && b.blockno < FSSIZE
      modifies this, queue`data, queue`valid, queue`dirty, queue`qnext, b`data, b`valid, b`dirty, b`qnext
      ensures Valid() && queue == [] && disk == DoneAll(old(disk), old(Requests(queue)) + [old(RequestOf(b))])
      ensures b.valid && !b.dirty && PlaceOf(b) in disk && b.data == disk[PlaceOf(b)]
    {
      hide Requests, DoneAll, Done, Line, AllProper, AllWanted, DiskOk;
      Enqueue(b);
      WaitFor(b);
    }

    /** The wait of iderw: interrupts until b, last in line, is up to date. */
    method WaitFor(b: Buf)
      requires Valid() && queue != [] && queue[|queue| - 1] == b
      modifies this, queue`data, queue`valid, queue`dirty
      ensures Valid() && queue == [] && disk == DoneAll(old(disk), old(Requests(queue)))
      ensures b.valid && !b.dirty && PlaceOf(b) in disk && b.data == disk[PlaceOf(b)]
    {
      hide Requests, DoneAll, Done, RequestOf, PlaceOf, Valid, Linked;
      ghost var all, k := queue, 0;
      AllWaiting();
      NextInLine(disk, Requests(queue));
      while !b.valid || b.dirty
        invariant Valid() && 0 <= k <= |all| && queue == all[k..]
        invariant DoneAll(disk, Requests(queue)) == DoneAll(old(disk), old(Requests(queue)))
        invariant queue == [] <==> b.valid && !b.dirty
        invariant queue == [] ==> PlaceOf(b) in disk && b.data == disk[PlaceOf(b)]
        decreases |queue|
      {
        NextInLine(disk, Requests(queue));
        assert all[k..][1..] == all[k + 1..];
        AllWaiting();
        IrqHandler();
        k := k + 1;
        if queue != [] { AllWaiting(); }
      }
      NextInLine(disk, Requests(queue));
    }

    /** With something in line the drive is busy with the first and the last is not up to date. */
    lemma AllWaiting()
      requires Valid() && queue != []
      ensures Linked() && pending.Busy? && (!queue[|queue| - 1].valid || queue[|queue| - 1].dirty)
    {
      assert Proper(queue[0]) && Proper(queue[|queue| - 1]);
    }

    // ---- requests that are never started ---------------------------------------------------------

    /** The first in line is for a block past the end. */
    ghost predicate Stuck()
      reads this, queue
    {
      Linked() && queue != [] && queue[0].blockno >= FSSIZE
    }

    /** The drive interrupts when it has a request, and only then. */
    method Turn()
      requires Linked()
      modifies this, First(queue)`data, First(queue)`valid, First(queue)`dirty
      ensures Linked() && (old(pending).Idle? ==> unchanged(this) && unchanged(First(queue)))
      ensures old(pending).Busy? ==>
        var b := old(queue)[0];
        && old(queue) != [] && queue == old(queue)[1..] && Requests(queue) == old(Requests(queue))[1..]
        && disk == Done(old(disk), old(RequestOf(b))) && b.valid && !b.dirty
        && PlaceOf(b) in disk && b.data == disk[PlaceOf(b)]
    {
      hide Requests, Done, DiskOk, Line, AllWanted, RequestOf;
      if pending.Busy? {
        IrqHandler();
      }
    }

    /** Left to itself the drive serves exactly the buffers before the first one for a block past the end. */
    method DriveOn()
      requires Linked()
      modifies this, queue`data, queue`valid, queue`dirty
      ensures Linked() && (queue == [] || Stuck())
      ensures var n := Startable(old(queue));
              && n <= |old(queue)| && queue == old(queue)[n..] && disk == DoneAll(old(disk), old(Requests(queue))[..n])
              && (forall i :: 0 <= i < n ==> old(queue)[i].valid && !old(queue)[i].dirty)
              && forall i :: n <= i < |old(queue)| ==> unchanged(old(queue)[i])
      decreases |queue|
    {
      hide Requests, DoneAll, Done, RequestOf, PlaceOf, Linked, NoRepeats, Startable;
      AtDrive();
      ghost var all, rs := queue, Requests(queue);
      NextInLine(disk, rs[..0]);
      if pending.Busy? {
        ghost var n := Startable(all[1..]);
        NextInLine(disk, rs[..n + 1]);
        TailSlices(all, n);
        TailSlices(rs, n);
        Turn();
        assert queue == all[1..];
        DriveOn();
      }
    }

    lemma AtDrive()
      requires Linked()
      ensures pending.Idle? <==> queue == [] || queue[0].blockno >= FSSIZE
      ensures queue != [] ==> RequestOf(queue[0]) == Requests(queue)[0] && queue[0] !in queue[1..]
      ensures Startable(queue) == if pending.Idle? then 0 else 1 + Startable(queue[1..])
      ensures Startable(queue) <= |queue|
    {
      StartableFits(queue);
    }

    /** The drive's turn, or a buffer that joins the line. */
    method Happens(h: Buf?)
      requires Stuck() && (h != null ==> Wanted(h) && h !in queue)
      modifies this, queue`data, queue`valid, queue`dirty, queue`qnext, (if h == null then {} else {h})`qnext
      ensures Stuck() && queue == (if h == null then old(queue) else old(queue) + [h])
      ensures disk == old(disk) && pending == Idle
      ensures forall b :: b in old(queue) ==>
        b.valid == old(b.valid) && b.dirty == old(b.dirty) && b.data == old(b.data)
    {
      if h == null {
        Turn();
      } else {
        Enqueue(h);
      }
    }

    /** With such a buffer first, whatever joins the line and whenever the drive has its turn, nothing is started, no
        buffer in line is brought up to date, and the wait of each of them goes on. */
    method Later(hs: seq<Buf?>, ghost all: seq<Buf>)
      requires Stuck() && all == queue + Joiners(hs) && NoRepeats(all) && AllWanted(all)
      modifies this, all`data, all`valid, all`dirty, all`qnext
      ensures Stuck() && queue == all && disk == old(disk) && pending == Idle
      ensures forall b :: b in all ==>
        b.valid == old(b.valid) && b.dirty == old(b.dirty) && b.data == old(b.data) && (!b.valid || b.dirty)
      decreases |hs|
    {
      hide Line, DiskOk, NoRepeats;
      if hs != [] {
        var h := hs[0];
        NextJoins(queue, hs);
        assert forall i :: 0 <= i < |queue| ==> all[i] == queue[i];
        assert h != null ==> all[|queue|] == h && Wanted(h);
        Happens(h);
        Later(hs[1..], all);
      }
    }
  }

  lemma TailSlices<T>(s: seq<T>, n: nat)
    requires n < |s|
    ensures s[..n + 1][1..] == s[1..][..n] && s[1..][n..] == s[n + 1..]
    ensures forall i :: 1 <= i < |s| ==> s[i] == s[1..][i - 1]
  {
  }

  lemma NextInLine(disk: Disk, rs: seq<Request>)
    ensures DoneAll(disk, rs) == if rs == [] then disk else DoneAll(Done(disk, rs[0]), rs[1..])
  {
  }

  /** A request with none before it. */
  lemma OneRequest(disk: Disk, r: Request)
    ensures Requests([]) == [] && DoneAll(disk, [] + [r]) == Done(disk, r)
    ensures r.Write? ==> r.at in Done(disk, r) && Done(disk, r)[r.at] == r.data
  {
    assert ([] + [r])[1..] == [];
  }
}
