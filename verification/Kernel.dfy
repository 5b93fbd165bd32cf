/** The kernel of 9.serialport: handlers.c, main.c and the trap stubs of syscall.c, updating the
    kernel's globals in place. The ghost field Model is the value of those globals; each method is
    proved to turn it into what KernelSpec says. */
module Kernel {
  import opened Queue
  import S = KernelSpec

  /** sem_t */
  class Semaphore {
    var owner: int
    var passes: int
    const waitQ: RingQueue

    constructor (ghost slot: int)
      ensures owner == 0 && passes == 0
      ensures fresh(waitQ) && fresh(waitQ.items) && waitQ.Valid() && waitQ.Contents == [] && waitQ.slot == slot
    {
      owner, passes := 0, 0;
      waitQ := new RingQueue(slot);
    }
  }

  /** port_t */
  class PortDevice {
    var owner: int
    var writeSid: int
    var readSid: int
    var writeOk: int
    var out: seq<int>     // bytes written to the data register
    const writeQ: RingQueue
    const readQ: RingQueue
    const loopbackQ: RingQueue

    constructor (ghost slot: int)
      ensures owner == 0 && writeSid == 0 && readSid == 0 && writeOk == 0 && out == []
      ensures fresh(writeQ) && fresh(writeQ.items) && writeQ.Valid() && writeQ.Contents == [] && writeQ.slot == slot
      ensures fresh(readQ) && fresh(readQ.items) && readQ.Valid() && readQ.Contents == [] && readQ.slot == slot + 1
      ensures fresh(loopbackQ) && fresh(loopbackQ.items) && loopbackQ.Valid() && loopbackQ.Contents == []
        && loopbackQ.slot == slot + 2
      ensures writeQ.items != readQ.items && writeQ.items != loopbackQ.items && readQ.items != loopbackQ.items
    {
      owner, writeSid, readSid, writeOk, out := 0, 0, 0, 0, [];
      writeQ := new RingQueue(slot);
      readQ := new RingQueue(slot + 1);
      loopbackQ := new RingQueue(slot + 2);
    }

    /** memset of the structure to zero. */
    method Zero()
      requires writeQ.Valid() && readQ.Valid() && loopbackQ.Valid()
      requires writeQ != readQ && writeQ != loopbackQ && readQ != loopbackQ
      requires writeQ.items != readQ.items && writeQ.items != loopbackQ.items && readQ.items != loopbackQ.items
      modifies this, writeQ, writeQ.items, readQ, readQ.items, loopbackQ, loopbackQ.items
      ensures owner == 0 && writeSid == 0 && readSid == 0 && writeOk == 0 && out == []
      ensures writeQ.Valid() && writeQ.Contents == [] && readQ.Valid() && readQ.Contents == []
      ensures loopbackQ.Valid() && loopbackQ.Contents == []
    {
      hide RingQueue.Valid, RingQueue.Image, PutIn, TakeOut, Shaped;
      writeQ.Init();
      readQ.Init();
      loopbackQ.Init();
      owner, writeSid, readSid, writeOk, out := 0, 0, 0, 0, [];
    }
  }

  /** The semaphore table; `region` is all it occupies and `arena` numbers its queue storage. */
  method NewSemaphores() returns (sem: seq<Semaphore>, ghost region: set<object>, ghost arena: map<array<int>, int>)
    ensures |sem| == S.SEM_NUM && fresh(region)
    ensures forall i :: 0 <= i < S.SEM_NUM ==>
              && sem[i] in region && sem[i].owner == 0 && sem[i].passes == 0
              && Blank(sem[i].waitQ) && Placed(sem[i].waitQ, 2 + i, region, arena)
  {
    sem, region, arena := [], {}, map[];
    while |sem| < S.SEM_NUM
      invariant |sem| <= S.SEM_NUM && fresh(region)
      invariant forall a :: a in arena ==> a in region
      invariant forall i :: 0 <= i < |sem| ==>
                  && sem[i] in region && sem[i].owner == 0 && sem[i].passes == 0
                  && Blank(sem[i].waitQ) && Placed(sem[i].waitQ, 2 + i, region, arena)
    {
      hide RingQueue.Valid, RingQueue.Image, PutIn, TakeOut, Shaped;
      var s := new Semaphore(2 + |sem|);
      region := region + {s, s.waitQ, s.waitQ.items};
      arena := arena[s.waitQ.items := 2 + |sem|];
      sem := sem + [s];
    }
  }

  /** The port table, likewise. */
  method NewPorts() returns (port: seq<PortDevice>, ghost region: set<object>, ghost arena: map<array<int>, int>)
    ensures |port| == S.PORT_NUM && fresh(region)
    ensures forall p :: 0 <= p < S.PORT_NUM ==> BlankPort(port[p], p, region, arena)
  {
    port, region, arena := [], {}, map[];
    while |port| < S.PORT_NUM
      invariant |port| <= S.PORT_NUM && fresh(region)
      invariant forall a :: a in arena ==> a in region
      invariant forall p :: 0 <= p < |port| ==> BlankPort(port[p], p, region, arena)
    {
      hide RingQueue.Valid, RingQueue.Image, PutIn, TakeOut, Shaped;
      ghost var n := 100 + 3 * |port|;
      var d := new PortDevice(n);
      region := region + {d, d.writeQ, d.writeQ.items, d.readQ, d.readQ.items, d.loopbackQ, d.loopbackQ.items};
      arena := arena[d.writeQ.items := n][d.readQ.items := n + 1][d.loopbackQ.items := n + 2];
      port := port + [d];
    }
  }

  ghost predicate BlankPort(d: PortDevice, p: nat, region: set<object>, arena: map<array<int>, int>)
    reads d, d.writeQ, d.writeQ.items, d.readQ, d.readQ.items, d.loopbackQ, d.loopbackQ.items
  {
    && d in region && d.owner == 0 && d.writeSid == 0 && d.readSid == 0 && d.writeOk == 0 && d.out == []
    && Blank(d.writeQ) && Placed(d.writeQ, 100 + 3 * p, region, arena)
    && Blank(d.readQ) && Placed(d.readQ, 101 + 3 * p, region, arena)
    && Blank(d.loopbackQ) && Placed(d.loopbackQ, 102 + 3 * p, region, arena)
  }

  /** A zeroed queue. */
  ghost predicate Blank(q: RingQueue)
    reads q, q.items
  {
    q.Valid() && q.Contents == []
  }

  /** q is the queue numbered n, lying in `region` with storage of its own. */
  ghost predicate Placed(q: RingQueue, n: int, region: set<object>, arena: map<array<int>, int>)
  {
    q in region && q.items in region && q.slot == n && q.items in arena && arena[q.items] == n
  }

  lemma Place(q: RingQueue, n: int, region: set<object>, arena: map<array<int>, int>)
    requires q in region && q.items in region && q.slot == n && q.items in arena && arena[q.items] == n
    ensures Placed(q, n, region, arena)
  {
  }

  class Kernel {
    var currentPid: int
    var currentTime: int
    const readyQ: RingQueue
    const freeQ: RingQueue
    const pcb: array<S.Pcb>
    const sem: seq<Semaphore>    // a table of structures at fixed addresses
    const port: seq<PortDevice>

    ghost var Model: S.Kern
    // The kernel's data segment in three parts, each with the number of the queue that
    // every piece of queue storage in it serves.
    ghost const core: set<object>
    ghost const semRegion: set<object>
    ghost const portRegion: set<object>
    ghost const coreArena: map<array<int>, int>
    ghost const semArena: map<array<int>, int>
    ghost const portArena: map<array<int>, int>

    /** No two structures and no two queues overlap. */
    ghost predicate Laid()
    {
      && core !! semRegion && core !! portRegion && semRegion !! portRegion
      && this in core && pcb in core && Placed(readyQ, 0, core, coreArena) && Placed(freeQ, 1, core, coreArena)
      && |sem| == S.SEM_NUM && |port| == S.PORT_NUM
      && (forall i :: 0 <= i < S.SEM_NUM ==> sem[i] in semRegion && Placed(sem[i].waitQ, 2 + i, semRegion, semArena))
      && (forall p :: 0 <= p < S.PORT_NUM ==>
            && port[p] in portRegion && Placed(port[p].writeQ, 100 + 3 * p, portRegion, portArena)
            && Placed(port[p].readQ, 101 + 3 * p, portRegion, portArena)
            && Placed(port[p].loopbackQ, 102 + 3 * p, portRegion, portArena))
    }

    ghost predicate QueueOk(q: RingQueue, contents: seq<int>)
      reads q, q.items
    {
      q.Valid() && q.Contents == contents
    }

    ghost predicate CoreOk(k: S.Kern)
      reads `currentPid, `currentTime, readyQ, readyQ.items, freeQ, freeQ.items, pcb
    {
      && k.current == currentPid && k.time == currentTime
      && QueueOk(readyQ, k.ready) && QueueOk(freeQ, k.free)
      && pcb[..] == k.pcb
    }

    ghost predicate SemOk(i: nat, m: S.Sem)
      requires i < |sem|
      reads sem[i], sem[i].waitQ, sem[i].waitQ.items
    {
      && QueueOk(sem[i].waitQ, m.waitQ)
      && m.owner == sem[i].owner && m.passes == sem[i].passes
    }

    ghost predicate SemsOk(ms: seq<S.Sem>)
      requires Laid()
      reads semRegion
    {
      |ms| == S.SEM_NUM && forall i :: 0 <= i < S.SEM_NUM ==> SemOk(i, ms[i])
    }

    ghost predicate PortOk(p: nat, m: S.Port)
      requires p < |port|
      reads port[p], port[p].writeQ, port[p].writeQ.items, port[p].readQ, port[p].readQ.items
      reads port[p].loopbackQ, port[p].loopbackQ.items
    {
      && QueueOk(port[p].writeQ, m.writeQ) && QueueOk(port[p].readQ, m.readQ)
      && QueueOk(port[p].loopbackQ, m.loopbackQ)
      && m.owner == port[p].owner && m.writeSid == port[p].writeSid
      && m.readSid == port[p].readSid && m.writeOk == port[p].writeOk && m.out == port[p].out
    }

    ghost predicate PortsOk(ms: seq<S.Port>)
      requires Laid()
      reads portRegion
    {
      |ms| == S.PORT_NUM && forall p :: 0 <= p < S.PORT_NUM ==> PortOk(p, ms[p])
    }

    ghost function Repr(): set<object> { core + semRegion + portRegion }

    ghost predicate Valid()
      reads this, Repr()
    {
      Laid() && S.WF(Model) && CoreOk(Model) && SemsOk(Model.sem) && PortsOk(Model.port)
    }

    /** CoreOk looks at these fields only. */
    lemma CoreSame(k: S.Kern, next: S.Kern)
      requires CoreOk(k)
      requires next.current == k.current && next.time == k.time
      requires next.ready == k.ready && next.free == k.free && next.pcb == k.pcb
      ensures CoreOk(next)
    {
    }

    lemma SemAt(ms: seq<S.Sem>, sid: int)
      requires Laid() && S.IsSid(sid) && SemsOk(ms)
      ensures |ms| == S.SEM_NUM && SemOk(sid, ms[sid])
    {
    }

    /** Changing one semaphore and its queue leaves the rest of the table intact. */
    twostate lemma SemChanged(new ms: seq<S.Sem>, new sid: int, new m: S.Sem)
      requires Laid() && S.IsSid(sid) && old(SemsOk(ms)) && SemOk(sid, m)
      requires forall o: object | o in semRegion && o != sem[sid] && o != sem[sid].waitQ && o != sem[sid].waitQ.items ::
                 unchanged(o)
      ensures SemsOk(ms[sid := m])
    {
      hide QueueOk;
      forall i | 0 <= i < S.SEM_NUM && i != sid
        ensures SemOk(i, ms[i])
      {
        assert old(SemOk(i, ms[i]));
      }
    }

    lemma PortAt(ms: seq<S.Port>, p: int)
      requires Laid() && S.IsPort(p) && PortsOk(ms)
      ensures |ms| == S.PORT_NUM && PortOk(p, ms[p])
    {
    }

    /** What belongs to port p. */
    ghost function PortRegion(p: int): set<object>
      requires Laid() && S.IsPort(p)
    {
      {port[p], port[p].writeQ, port[p].writeQ.items, port[p].readQ, port[p].readQ.items,
       port[p].loopbackQ, port[p].loopbackQ.items}
    }

    /** The three queues of a port do not overlap. */
    lemma QueuesApart(p: int)
      requires Laid() && S.IsPort(p)
      ensures port[p].writeQ != port[p].readQ && port[p].writeQ != port[p].loopbackQ
        && port[p].readQ != port[p].loopbackQ
      ensures port[p].writeQ.items != port[p].readQ.items && port[p].writeQ.items != port[p].loopbackQ.items
      ensures port[p].readQ.items != port[p].loopbackQ.items
      ensures PortRegion(p) <= portRegion
      ensures {this, readyQ, readyQ.items, freeQ, freeQ.items, pcb} <= core
    {
    }

    lemma PortsApart(p: int, i: int)
      requires Laid() && S.IsPort(p) && S.IsPort(i) && i != p
      ensures PortRegion(i) !! PortRegion(p) && PortRegion(i) <= portRegion
    {
      assert Placed(port[i].writeQ, 100 + 3 * i, portRegion, portArena);
      assert Placed(port[p].writeQ, 100 + 3 * p, portRegion, portArena);
    }

    /** Changing one port and its queues leaves the rest of the table intact. */
    twostate lemma PortChanged(new ms: seq<S.Port>, new p: int, new m: S.Port)
      requires Laid() && S.IsPort(p) && old(PortsOk(ms)) && PortOk(p, m)
      requires forall o: object | o in portRegion && o !in PortRegion(p) :: unchanged(o)
      ensures PortsOk(ms[p := m])
    {
      hide QueueOk, RingQueue.Valid, PortOk;
      forall i | 0 <= i < S.PORT_NUM && i != p
        ensures PortOk(i, ms[i])
      {
        assert old(PortOk(i, ms[i]));
        PortsApart(p, i);
        assert forall o: object :: o in PortRegion(i) ==> unchanged(o);
      }
    }

    /** Zeroed memory. */
    constructor ()
      ensures Valid() && Model == S.Zeroed()
      ensures fresh(core) && fresh(semRegion) && fresh(portRegion)
    {
      hide RingQueue.Valid, RingQueue.Image, PutIn, TakeOut, Shaped, S.WF, SemsOk, PortsOk, Placed, CoreOk, S.Zeroed;
      var rq := new RingQueue(0);
      var fq := new RingQueue(1);
      var cells := new S.Pcb[S.PROC_NUM](_ => S.Pcb(S.FREE, 0));
      var sems, sr, sa := NewSemaphores();
      var ports, pr, pa := NewPorts();
      readyQ, freeQ, pcb, sem, port := rq, fq, cells, sems, ports;
      currentPid, currentTime := 0, 0;
      core, semRegion, portRegion := {this, rq, rq.items, fq, fq.items, cells}, sr, pr;
      coreArena, semArena, portArena := map[rq.items := 0, fq.items := 1], sa, pa;
      Model := S.Zeroed();
      new;
      Place(rq, 0, core, coreArena);
      Place(fq, 1, core, coreArena);
      assert Laid();
      CoreZeroed();
      TablesZeroed();
    }

    lemma CoreZeroed()
      requires currentPid == 0 && currentTime == 0 && Blank(readyQ) && Blank(freeQ)
      requires pcb.Length == S.PROC_NUM && forall i :: 0 <= i < pcb.Length ==> pcb[i] == S.Pcb(S.FREE, 0)
      ensures CoreOk(S.Zeroed())
    {
      hide RingQueue.Valid, RingQueue.Image, S.WF;
      assert pcb[..] == S.Zeroed().pcb;
    }

    /** Freshly zeroed tables are intact. */
    lemma TablesZeroed()
      requires Laid()
      requires forall i :: 0 <= i < S.SEM_NUM ==>
                 sem[i].owner == 0 && sem[i].passes == 0 && Blank(sem[i].waitQ)
      requires forall p :: 0 <= p < S.PORT_NUM ==> BlankPort(port[p], p, portRegion, portArena)
      ensures SemsOk(S.Zeroed().sem) && PortsOk(S.Zeroed().port)
    {
      hide RingQueue.Valid, RingQueue.Image, PutIn, TakeOut, Shaped, S.WF;
    }

    // ---- processes ---------------------------------------------------------------------------

    method NewProcHandler()
      requires Valid()
      modifies core
      ensures Valid() && Model == S.NewProcHandler(old(Model))
    {
      hide RingQueue.Valid, RingQueue.Image, PutIn, TakeOut, Shaped, S.WF, SemsOk, PortsOk;
      S.Bounds(Model);
      ghost var next := S.NewProcHandler(Model);
      if freeQ.IsEmpty() {
        return;
      }
      var _, pid := freeQ.Out(0);
      pcb[pid] := S.Pcb(S.READY, 0);
      var _ := readyQ.In(pid);
      Model := next;
    }

    method TimerHandler()
      requires Valid()
      modifies core
      ensures Valid() && Model == S.TimerHandler(old(Model))
    {
      hide RingQueue.Valid, RingQueue.Image, PutIn, TakeOut, Shaped, S.WF, SemsOk, PortsOk;
      S.Bounds(Model);
      ghost var next := S.TimerHandler(Model);
      pcb[currentPid] := pcb[currentPid].(cpuTime := pcb[currentPid].cpuTime + 1);
      currentTime := currentTime + 1;
      if pcb[currentPid].cpuTime == S.TIME_LIMIT {
        pcb[currentPid] := pcb[currentPid].(state := S.READY);
        var _ := readyQ.In(currentPid);
        currentPid := 0;
      }
      Model := next;
    }

    /** When readyQ is empty the panic message is followed by these same steps. */
    method Scheduler()
      requires Valid()
      modifies core
      ensures Valid() && Model == S.Scheduler(old(Model))
    {
      hide RingQueue.Valid, RingQueue.Image, PutIn, TakeOut, Shaped, S.WF, SemsOk, PortsOk;
      S.Bounds(Model);
      ghost var next := S.Scheduler(Model);
      if currentPid != 0 {
        return;
      }
      var _, pid := readyQ.Out(currentPid);
      currentPid := pid;
      pcb[currentPid] := pcb[currentPid].(state := S.RUN);
      pcb[currentPid] := pcb[currentPid].(cpuTime := 0);
      Model := next;
    }

    // ---- semaphores --------------------------------------------------------------------------

    /** The scan that opens SemAllocHandler. */
    method FirstFreeSem() returns (sid: nat)
      requires Valid()
      ensures sid == S.FreeSem(Model.sem, 0)
    {
      sid := 0;
      while sid < S.SEM_NUM
        invariant 0 <= sid <= S.SEM_NUM
        invariant S.FreeSem(Model.sem, 0) == S.FreeSem(Model.sem, sid)
      {
        assert SemOk(sid, Model.sem[sid]);
        if sem[sid].owner == 0 {
          break;
        }
        sid := sid + 1;
      }
    }

    /** The value left in EAX: the identifier, or the argument unchanged when no slot is left. */
    method SemAllocHandler(passes: int) returns (eax: int)
      requires Valid()
      modifies core, semRegion
      ensures Valid() && Model == S.SemAllocHandler(old(Model), passes).0
      ensures S.Eax(eax) == S.SemAllocHandler(old(Model), passes).1
    {
      hide RingQueue.Valid, RingQueue.Image, PutIn, TakeOut, Shaped, S.WF, SemsOk, PortsOk;
      S.Bounds(Model);
      ghost var next := S.SemAllocHandler(Model, passes).0;
      var sid := FirstFreeSem();
      if sid == S.SEM_NUM {
        return passes;
      }
      SemAt(Model.sem, sid);
      sem[sid].waitQ.Init();
      sem[sid].passes := passes;
      sem[sid].owner := currentPid;
      SemChanged(Model.sem, sid, next.sem[sid]);
      Model := next;
      return sid;
    }

    method SemWaitHandler(sid: int)
      requires Valid() && S.IsSid(sid)
      modifies core, semRegion
      ensures Valid() && Model == S.SemWaitHandler(old(Model), sid)
    {
      hide RingQueue.Valid, RingQueue.Image, PutIn, TakeOut, Shaped, S.WF, SemsOk, PortsOk;
      S.Bounds(Model);
      SemAt(Model.sem, sid);
      ghost var next := S.SemWaitHandler(Model, sid);
      if sem[sid].passes > 0 {
        sem[sid].passes := sem[sid].passes - 1;
      } else {
        var _ := sem[sid].waitQ.In(currentPid);
        pcb[currentPid] := pcb[currentPid].(state := S.WAIT);
        currentPid := 0;
      }
      SemChanged(Model.sem, sid, next.sem[sid]);
      Model := next;
    }

    /** A woken process joins the ready queue. */
    method MakeReady(pid: int)
      requires Valid() && S.IsPid(pid)
      modifies core
      ensures Valid() && Model == S.MakeReady(old(Model), pid)
    {
      hide RingQueue.Valid, RingQueue.Image, PutIn, TakeOut, Shaped, S.WF, SemsOk, PortsOk;
      S.Bounds(Model);
      ghost var next := S.MakeReady(Model, pid);
      var _ := readyQ.In(pid);
      pcb[pid] := pcb[pid].(state := S.READY);
      Model := next;
    }

    method SemPostHandler(sid: int)
      requires Valid() && S.IsSid(sid)
      modifies core, semRegion
      ensures Valid() && Model == S.SemPostHandler(old(Model), sid)
    {
      hide RingQueue.Valid, RingQueue.Image, PutIn, TakeOut, Shaped, S.WF, SemsOk, PortsOk, CoreOk, S.MakeReady;
      S.Bounds(Model);
      SemAt(Model.sem, sid);
      ghost var next := S.Posted(Model, sid);
      CoreSame(Model, next);
      if sem[sid].waitQ.IsEmpty() {
        sem[sid].passes := sem[sid].passes + 1;
        SemChanged(Model.sem, sid, next.sem[sid]);
        Model := next;
      } else {
        var _, freePid := sem[sid].waitQ.Out(0);
        SemChanged(Model.sem, sid, next.sem[sid]);
        Model := next;
        MakeReady(freePid);
      }
    }

    // ---- serial ports: lower half ------------------------------------------------------------

    /** outportb to the data register of port p. */
    method PutByte(p: int, ghost s: S.Sent, byte: int)
      requires Valid() && S.IsPort(p) && s.byte == byte
      modifies core, portRegion
      ensures Valid() && Model == S.PutByte(old(Model), p, s)
    {
      hide RingQueue.Valid, RingQueue.Image, PutIn, TakeOut, Shaped, S.WF, SemsOk, PortsOk;
      S.Bounds(Model);
      PortAt(Model.port, p);
      ghost var next := S.PutByte(Model, p, s);
      port[p].out := port[p].out + [byte];
      PortChanged(Model.port, p, next.port[p]);
      Model := next;
    }

    /** queue_out on the echo queue of port p. */
    method TakeEcho(p: int) returns (one: int)
      requires Valid() && S.IsPort(p) && Model.port[p].loopbackQ != []
      modifies core, portRegion
      ensures Valid()
        && Model == S.WithPort(old(Model), p, old(Model).port[p].(loopbackQ := Dequeued(old(Model).port[p].loopbackQ)))
      ensures one == old(Model).port[p].loopbackQ[0]
    {
      hide RingQueue.Valid, RingQueue.Image, PutIn, TakeOut, Shaped, S.WF, SemsOk, PortsOk;
      S.Bounds(Model);
      PortAt(Model.port, p);
      ghost var m := Model.port[p].(loopbackQ := Dequeued(Model.port[p].loopbackQ));
      ghost var next := S.WithPort(Model, p, m);
      var _, b := port[p].loopbackQ.Out(0);
      PortChanged(Model.port, p, m);
      Model := next;
      return b;
    }

    /** queue_out on the transmit queue of port p. */
    method TakeWrite(p: int) returns (one: int)
      requires Valid() && S.IsPort(p) && Model.port[p].writeQ != []
      modifies core, portRegion
      ensures Valid()
        && Model == S.WithPort(old(Model), p, old(Model).port[p].(writeQ := Dequeued(old(Model).port[p].writeQ)))
      ensures one == old(Model).port[p].writeQ[0]
    {
      hide RingQueue.Valid, RingQueue.Image, PutIn, TakeOut, Shaped, S.WF, SemsOk, PortsOk;
      S.Bounds(Model);
      PortAt(Model.port, p);
      ghost var m := Model.port[p].(writeQ := Dequeued(Model.port[p].writeQ));
      ghost var next := S.WithPort(Model, p, m);
      var _, b := port[p].writeQ.Out(0);
      PortChanged(Model.port, p, m);
      Model := next;
      return b;
    }

    /** queue_in on the transmit queue of port p; the accepted character joins the history. */
    method GiveWrite(p: int, one: int)
      requires Valid() && S.IsPort(p)
      modifies core, portRegion
      ensures Valid() && Model == S.GiveWrite(old(Model), p, one)
    {
      hide RingQueue.Valid, RingQueue.Image, PutIn, TakeOut, Shaped, S.WF, SemsOk, PortsOk;
      S.Bounds(Model);
      PortAt(Model.port, p);
      ghost var next := S.GiveWrite(Model, p, one);
      var _ := port[p].writeQ.In(one);
      PortChanged(Model.port, p, next.port[p]);
      Model := next;
    }

    /** The store of 1 to write_ok of port p. */
    method SetWriteOk(p: int)
      requires Valid() && S.IsPort(p)
      modifies core, portRegion
      ensures Valid() && Model == S.WithPort(old(Model), p, old(Model).port[p].(writeOk := 1))
    {
      hide RingQueue.Valid, RingQueue.Image, PutIn, TakeOut, Shaped, S.WF, SemsOk, PortsOk;
      S.Bounds(Model);
      PortAt(Model.port, p);
      ghost var next := S.WithPort(Model, p, Model.port[p].(writeOk := 1));
      port[p].writeOk := 1;
      PortChanged(Model.port, p, next.port[p]);
      Model := next;
    }

    method PortWriteOne(p: int)
      requires Valid() && S.IsPort(p)
      modifies core, semRegion, portRegion
      ensures Valid() && Model == S.PortWriteOne(old(Model), p)
    {
      hide RingQueue.Valid, RingQueue.Image, PutIn, TakeOut, Shaped, S.WF, SemsOk, PortsOk, S.SemPostHandler, S.PutByte;
      S.Bounds(Model);
      PortAt(Model.port, p);
      var d := port[p];
      ghost var waiting := |Model.port[p].loopbackQ|;
      if d.writeQ.IsEmpty() && d.loopbackQ.IsEmpty() {
        SetWriteOk(p);
        return;
      }
      if !d.loopbackQ.IsEmpty() {
        var one := TakeEcho(p);
        PutByte(p, S.Sent(true, S.ToByte(one), waiting), S.ToByte(one));
      } else {
        var one := TakeWrite(p);
        PortAt(Model.port, p);
        S.Bounds(Model);
        SemPostHandler(d.writeSid);
        PutByte(p, S.Sent(false, S.ToByte(one), waiting), S.ToByte(one));
      }
    }

    /** Both queues take the character; a line end also sends a line feed to the echo. */
    method TakeIn(p: int, one: int, ghost m: S.Port)
      requires Laid() && S.IsPort(p) && PortOk(p, m)
      modifies PortRegion(p)
      ensures PortOk(p, m.(readQ := Enqueued(m.readQ, one), loopbackQ := S.EnqueuedAll(m.loopbackQ, S.Echo(one))))
    {
      hide RingQueue.Valid, RingQueue.Image, PutIn, TakeOut, Shaped, S.EnqueuedAll, S.Echo;
      QueuesApart(p);
      S.EchoQueued(m.loopbackQ, one);
      var _ := port[p].readQ.In(one);
      var _ := port[p].loopbackQ.In(one);
      if one == S.CR || one == S.LF {
        var _ := port[p].loopbackQ.In(S.LF);
      }
    }

    method Receive(p: int, raw: int, one: int)
      requires Valid() && S.IsPort(p) && one == raw % 128 && |Model.port[p].readQ| < QUEUE_SIZE
      modifies core, portRegion
      ensures Valid() && Model == S.Receive(old(Model), p, raw)
    {
      hide RingQueue.Valid, RingQueue.Image, PutIn, TakeOut, Shaped, S.WF, SemsOk, PortsOk, PortOk, CoreOk,
          S.EnqueuedAll;
      S.Bounds(Model);
      QueuesApart(p);
      PortAt(Model.port, p);
      ghost var next := S.Receive(Model, p, raw);
      CoreSame(Model, next);
      TakeIn(p, one, Model.port[p]);
      PortChanged(Model.port, p, next.port[p]);
      Model := next;
    }

    method PortReadOne(p: int, raw: int)
      requires Valid() && S.IsPort(p)
      modifies core, semRegion, portRegion
      ensures Valid() && Model == S.PortReadOne(old(Model), p, raw)
    {
      hide RingQueue.Valid, RingQueue.Image, PutIn, TakeOut, Shaped, S.WF, SemsOk, PortsOk, S.SemPostHandler, S.Receive;
      S.Bounds(Model);
      PortAt(Model.port, p);
      var one := raw % 128;
      if port[p].readQ.IsFull() {
        Model := S.PortReadOne(Model, p, raw);
        return;
      }
      Receive(p, raw, one);
      PortAt(Model.port, p);
      S.Bounds(Model);
      SemPostHandler(port[p].readSid);
    }

    method PortHandler(uart: seq<S.Uart>)
      requires Valid() && |uart| == S.PORT_NUM
      modifies core, semRegion, portRegion
      ensures Valid() && Model == S.PortHandler(old(Model), uart, 0)
    {
      hide SemsOk, PortsOk, CoreOk, S.PortReadOne, S.PortWriteOne, S.WF;
      for p := 0 to S.PORT_NUM
        invariant Valid()
        invariant S.PortHandler(Model, uart, p) == S.PortHandler(old(Model), uart, 0)
      {
        S.Bounds(Model);
        PortAt(Model.port, p);
        if port[p].owner == 0 {
          continue;
        }
        if uart[p].RxReady? {
          PortReadOne(p, uart[p].raw);
        }
        if uart[p].TxReady? {
          PortWriteOne(p);
        }
        S.Bounds(Model);
        PortAt(Model.port, p);
        if port[p].writeOk != 0 {
          PortWriteOne(p);
        }
      }
    }

    // ---- serial ports: upper half ------------------------------------------------------------

    /** The scan that opens PortAllocHandler. */
    method FirstFreePort() returns (p: nat)
      requires Valid()
      ensures p == S.FreePort(Model.port, 0)
    {
      p := 0;
      while p < S.PORT_NUM
        invariant 0 <= p <= S.PORT_NUM
        invariant S.FreePort(Model.port, 0) == S.FreePort(Model.port, p)
      {
        assert PortOk(p, Model.port[p]);
        if port[p].owner == 0 {
          break;
        }
        p := p + 1;
      }
    }

    method PortAllocHandler() returns (reply: S.Reply)
      requires Valid()
      modifies core, portRegion
      ensures Valid() && Model == S.PortAllocHandler(old(Model)).0
      ensures reply == S.PortAllocHandler(old(Model)).1
    {
      var p := FirstFreePort();
      if p == S.PORT_NUM {
        return S.NoReply;
      }
      OpenPort(p);
      reply := S.Eax(p);
    }

    /** The stores PortAllocHandler makes into the slot it found. */
    method OpenPort(p: nat)
      requires Valid() && p == S.FreePort(Model.port, 0) && p < S.PORT_NUM
      modifies core, portRegion
      ensures Valid() && Model == S.PortAllocHandler(old(Model)).0
    {
      hide RingQueue.Valid, RingQueue.Image, PutIn, TakeOut, Shaped, S.WF, SemsOk, PortsOk, CoreOk, Placed;
      S.Bounds(Model);
      ghost var next := S.PortAllocHandler(Model).0;
      CoreSame(Model, next);
      PortAt(Model.port, p);
      QueuesApart(p);
      port[p].Zero();
      port[p].owner := currentPid;
      port[p].writeOk := 1;
      PortChanged(Model.port, p, next.port[p]);
      Model := next;
    }

    method PortWriteHandler(one: int, p: int)
      requires Valid() && S.IsPort(p)
      modifies core, semRegion, portRegion
      ensures Valid() && Model == S.PortWriteHandler(old(Model), one, p)
    {
      hide RingQueue.Valid, RingQueue.Image, PutIn, TakeOut, Shaped, S.WF, SemsOk, PortsOk, CoreOk, S.PortWriteOne;
      S.Bounds(Model);
      PortAt(Model.port, p);
      if port[p].writeQ.IsFull() {
        return;
      }
      GiveWrite(p, one);
      PortAt(Model.port, p);
      if port[p].writeOk != 0 {
        PortWriteOne(p);
      }
    }

    method PortReadHandler(p: int) returns (reply: S.Reply)
      requires Valid() && S.IsPort(p)
      modifies core, portRegion
      ensures Valid() && Model == S.PortReadHandler(old(Model), p).0
      ensures reply == S.PortReadHandler(old(Model), p).1
    {
      hide RingQueue.Valid, RingQueue.Image, PutIn, TakeOut, Shaped, S.WF, SemsOk, PortsOk, CoreOk;
      S.Bounds(Model);
      PortAt(Model.port, p);
      ghost var next := S.PortReadHandler(Model, p).0;
      CoreSame(Model, next);
      if port[p].readQ.IsEmpty() {
        return S.NoReply;
      }
      var _, ch := port[p].readQ.Out(0);
      PortChanged(Model.port, p, next.port[p]);
      Model := next;
      return S.Stored(ch);
    }

    // ---- the dispatcher ----------------------------------------------------------------------

    /** Kernel(): the handler for the trap, then the scheduler. */
    method Enter(t: S.Trap) returns (reply: S.Reply)
      requires Valid() && S.TrapWF(t)
      modifies core, semRegion, portRegion
      ensures Valid() && Model == S.Enter(old(Model), t).0 && reply == S.Enter(old(Model), t).1
    {
      hide RingQueue.Valid, RingQueue.Image, PutIn, TakeOut, Shaped, S.WF, SemsOk, PortsOk, CoreOk, S.Scheduler;
      hide S.TimerHandler, S.SemAllocHandler, S.SemWaitHandler, S.SemPostHandler, S.PortHandler;
      hide S.PortAllocHandler, S.PortWriteHandler, S.PortReadHandler;
      reply := S.NoReply;
      match t {
        case Timer => TimerHandler();
        case SemAlloc(passes) =>
          var eax := SemAllocHandler(passes);
          reply := S.Eax(eax);
        case SemWait(sid) => SemWaitHandler(sid);
        case SemPost(sid) => SemPostHandler(sid);
        case PortIrq(uart) => PortHandler(uart);
        case PortAlloc => reply := PortAllocHandler();
        case PortWrite(ch, p) => PortWriteHandler(ch, p);
        case PortRead(p) => reply := PortReadHandler(p);
        case Unknown =>
      }
      Scheduler();
    }

    /** PortAlloc of syscall.c: three traps, and the stores of the library between and after them, with
        no interrupt among them. */
    method PortAlloc() returns (p: int)
      requires Valid() && Model.current != 0 && S.CanOpen(Model)
      modifies core, semRegion, portRegion
      ensures Valid() && Model == S.PortAllocated(old(Model))
      ensures p == S.FreePort(old(Model).port, 0)
    {
      S.PortAllocReplies(Model);
      hide RingQueue.Valid, RingQueue.Image, PutIn, TakeOut, Shaped, S.WF, SemsOk, PortsOk, CoreOk, S.Enter,
          S.PortAllocated;
      var r0 := Enter(S.PortAlloc);
      p := r0.value;
      var r1 := Enter(S.SemAlloc(QUEUE_SIZE));
      StoreWriteSid(p, r1.value);
      var r2 := Enter(S.SemAlloc(0));
      StoreReadSid(p, r2.value);
      CutReadQ(p);
    }

    method StoreWriteSid(p: int, sid: int)
      requires Valid() && S.IsPort(p) && S.IsSid(sid)
      modifies core, portRegion
      ensures Valid() && Model == S.WithPort(old(Model), p, old(Model).port[p].(writeSid := sid))
    {
      hide RingQueue.Valid, RingQueue.Image, PutIn, TakeOut, Shaped, S.WF, SemsOk, PortsOk, CoreOk;
      S.Bounds(Model);
      PortAt(Model.port, p);
      ghost var next := S.WithPort(Model, p, Model.port[p].(writeSid := sid));
      CoreSame(Model, next);
      port[p].writeSid := sid;
      PortChanged(Model.port, p, next.port[p]);
      Model := next;
    }

    method StoreReadSid(p: int, sid: int)
      requires Valid() && S.IsPort(p) && S.IsSid(sid)
      modifies core, portRegion
      ensures Valid() && Model == S.WithPort(old(Model), p, old(Model).port[p].(readSid := sid))
    {
      hide RingQueue.Valid, RingQueue.Image, PutIn, TakeOut, Shaped, S.WF, SemsOk, PortsOk, CoreOk;
      S.Bounds(Model);
      PortAt(Model.port, p);
      ghost var next := S.WithPort(Model, p, Model.port[p].(readSid := sid));
      CoreSame(Model, next);
      port[p].readSid := sid;
      PortChanged(Model.port, p, next.port[p]);
      Model := next;
    }

    /** The last store of PortAlloc. It leaves a receive queue as it is when that is empty; OpeningWindow says what
        it does to one that is not. */
    method CutReadQ(p: int)
      requires Valid() && S.IsPort(p)
      modifies port[p].readQ
      ensures port[p].readQ.Image() == old(port[p].readQ.Image()).(size := 0)
      ensures old(Model).port[p].readQ == [] ==> Valid() && Model == old(Model)
    {
      hide RingQueue.Valid, RingQueue.Image, PutIn, TakeOut, Shaped, S.WF, SemsOk, PortsOk, CoreOk;
      S.Bounds(Model);
      PortAt(Model.port, p);
      QueuesApart(p);
      port[p].readQ.Truncate();
      if Model.port[p].readQ == [] {
        PortChanged(Model.port, p, Model.port[p]);
        assert Model.port[p := Model.port[p]] == Model.port;
      }
    }

    /** main(), up to the first KernelExit. */
    method Boot()
      requires Valid() && Model == S.Zeroed()
      modifies core
      ensures Valid() && Model == S.Booted(2)
    {
      hide RingQueue.Valid, RingQueue.Image, PutIn, TakeOut, Shaped, SemsOk, PortsOk, S.Scheduler, S.NewProcHandler;
      for i := 1 to S.PROC_NUM
        invariant Valid() && Model == S.Zeroed().(free := S.Upto(i - 1))
      {
        ghost var next := Model.(free := S.Upto(i));
        assert S.Upto(i) == Enqueued(Model.free, i);
        var _ := freeQ.In(i);
        Model := next;
      }
      assert Model == S.Created(0);
      NewProcHandler();
      assert Model == S.Created(1);
      NewProcHandler();
      Scheduler();
    }
  }
}
