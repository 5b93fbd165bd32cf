/** What every handler of the preemptive kernel does, as functions on the kernel's data.
    The kernel of 9.serialport keeps its state in a handful of globals; `Kern` is that state, with
    queues as sequences and, beside it, the history the laws of the protocol speak about. */
module KernelSpec {
  import opened Queue

  /** A time slice is at least a tick; the source's is 10. */
  type Slice = n: nat | 1 <= n witness 10

  /** Every process but 0 fits in one queue; the source has 20 of them, with 0. */
  type ProcCount = n: nat | 2 <= n <= QUEUE_SIZE + 1 witness 2

  /** Two ports can be opened; the source has 20 semaphores. */
  type SemCount = n: nat | 4 <= n witness 20

  const TIME_LIMIT: Slice
  const PROC_NUM: ProcCount
  const SEM_NUM: SemCount
  const PORT_NUM: nat := 3
  const CR: int := 13
  const LF: int := 10

  datatype ProcState = FREE | RUN | READY | SLEEP | WAIT | ZOMBIE

  datatype Pcb = Pcb(state: ProcState, cpuTime: int)

  datatype Sem = Sem(owner: int, passes: int, waitQ: seq<int>)

  /** A port_t, and in `out` the bytes written to its data register since it was allocated. */
  datatype Port = Port(owner: int, writeSid: int, readSid: int, writeOk: int,
                       writeQ: seq<int>, readQ: seq<int>, loopbackQ: seq<int>, out: seq<int>)

  /** A byte put on the wire: where it came from, and how many echo bytes waited just before. */
  datatype Sent = Sent(echo: bool, byte: int, echoWaiting: nat)

  /** A byte taken from the wire, whether read_q had room for it, and how many bytes loopback_q had room for. */
  datatype Received = Received(raw: int, kept: bool, room: nat)

  /** History of one semaphore since it was allocated. */
  datatype SemLog = SemLog(initial: int, posts: nat, passed: nat, blocked: seq<int>, woken: seq<int>)

  /** History of one port since it was allocated. */
  datatype PortLog = PortLog(accepted: seq<int>, echoed: seq<int>, wire: seq<Sent>,
                             received: seq<Received>, delivered: seq<int>)

  datatype Kern = Kern(current: int, time: int, ready: seq<int>, free: seq<int>, pcb: seq<Pcb>,
                       sem: seq<Sem>, port: seq<Port>, semLog: seq<SemLog>, portLog: seq<PortLog>)

  /** What reading one UART's identification register, and then its data register, yields. */
  datatype Uart = RxReady(raw: int) | TxReady | NoCause

  datatype Trap =
    | Timer
    | SemAlloc(passes: int)
    | SemWait(sid: int)
    | SemPost(sid: int)
    | PortIrq(uart: seq<Uart>)
    | PortAlloc
    | PortWrite(ch: int, port: int)
    | PortRead(port: int)
    | Unknown

  /** What the trapped process finds when it resumes: a value in EAX, or a character in its buffer. */
  datatype Reply = NoReply | Eax(value: int) | Stored(ch: int)

  predicate IsPid(p: int) { 0 <= p < PROC_NUM }

  predicate Pids(q: seq<int>) {
    |q| <= QUEUE_SIZE && forall i :: 0 <= i < |q| ==> IsPid(q[i])
  }

  predicate IsSid(s: int) { 0 <= s < SEM_NUM }

  predicate IsPort(p: int) { 0 <= p < PORT_NUM }

  /** Every index the handlers use lands inside its table. */
  predicate WF(k: Kern) {
    && IsPid(k.current) && Pids(k.ready) && Pids(k.free)
    && |k.pcb| == PROC_NUM && |k.sem| == |k.semLog| == SEM_NUM && |k.port| == |k.portLog| == PORT_NUM
    && (forall i :: 0 <= i < SEM_NUM ==> Pids(k.sem[i].waitQ))
    && (forall p :: 0 <= p < PORT_NUM ==> PortWF(k.port[p]))
  }

  predicate PortWF(p: Port) {
    && IsSid(p.writeSid) && IsSid(p.readSid)
    && |p.writeQ| <= QUEUE_SIZE && |p.readQ| <= QUEUE_SIZE && |p.loopbackQ| <= QUEUE_SIZE
  }

  /** The index facts the handlers need, without the rest of WF. */
  lemma Bounds(k: Kern)
    requires WF(k)
    ensures |k.pcb| == PROC_NUM && |k.sem| == |k.semLog| == SEM_NUM && |k.port| == |k.portLog| == PORT_NUM
    ensures IsPid(k.current)
    ensures k.ready != [] ==> IsPid(k.ready[0])
    ensures k.free != [] ==> IsPid(k.free[0])
    ensures forall i :: 0 <= i < SEM_NUM && k.sem[i].waitQ != [] ==> IsPid(k.sem[i].waitQ[0])
    ensures forall p :: 0 <= p < PORT_NUM ==> PortWF(k.port[p])
  {
  }

  function WithPort(k: Kern, p: int, m: Port): (r: Kern)
    requires WF(k) && IsPort(p) && PortWF(m)
    ensures WF(r)
  {
    k.(port := k.port[p := m])
  }

  /** The arguments a process may pass: identifiers that index the kernel's tables. */
  predicate TrapWF(t: Trap) {
    match t
    case SemWait(sid) => IsSid(sid)
    case SemPost(sid) => IsSid(sid)
    case PortIrq(uart) => |uart| == PORT_NUM
    case PortWrite(ch, port) => IsPort(port) && -128 <= ch < 128
    case PortRead(port) => IsPort(port)
    case _ => true
  }

  // ---- processes -----------------------------------------------------------------------------

  function NewProcHandler(k: Kern): (r: Kern)
    requires WF(k)
    ensures WF(r)
  {
    if k.free == [] then k
    else
      var pid := k.free[0];
      k.(free := Dequeued(k.free), pcb := k.pcb[pid := Pcb(READY, 0)], ready := Enqueued(k.ready, pid))
  }

  function TimerHandler(k: Kern): (r: Kern)
    requires WF(k)
    ensures WF(r)
  {
    var spent := k.pcb[k.current].cpuTime + 1;
    if spent == TIME_LIMIT then
      k.(time := k.time + 1, current := 0, ready := Enqueued(k.ready, k.current),
         pcb := k.pcb[k.current := Pcb(READY, spent)])
    else
      k.(time := k.time + 1, pcb := k.pcb[k.current := k.pcb[k.current].(cpuTime := spent)])
  }

  /** With nothing ready the source reports a panic and stays on process 0. */
  function Scheduler(k: Kern): (r: Kern)
    requires WF(k)
    ensures WF(r)
  {
    if k.current != 0 then k
    else if k.ready == [] then k.(pcb := k.pcb[0 := Pcb(RUN, 0)])
    else
      var pid := k.ready[0];
      k.(current := pid, ready := Dequeued(k.ready), pcb := k.pcb[pid := Pcb(RUN, 0)])
  }

  // ---- semaphores ----------------------------------------------------------------------------

  /** The first unowned slot at or after i, or SEM_NUM. */
  function FreeSem(sem: seq<Sem>, i: nat): (r: nat)
    requires i <= |sem|
    ensures i <= r <= |sem|
    ensures r < |sem| ==> sem[r].owner == 0
    ensures forall j :: i <= j < r ==> sem[j].owner != 0
    decreases |sem| - i
  {
    if i == |sem| || sem[i].owner == 0 then i else FreeSem(sem, i + 1)
  }

  /** The identifier comes back in EAX; when no slot is left EAX still holds the argument. */
  function SemAllocHandler(k: Kern, passes: int): (r: (Kern, Reply))
    requires WF(k)
    ensures WF(r.0)
  {
    var sid := FreeSem(k.sem, 0);
    if sid == SEM_NUM then (k, Eax(passes))
    else
      (k.(sem := k.sem[sid := Sem(k.current, passes, [])],
          semLog := k.semLog[sid := SemLog(passes, 0, 0, [], [])]), Eax(sid))
  }

  function SemWaitHandler(k: Kern, sid: int): (r: Kern)
    requires WF(k) && IsSid(sid)
    ensures WF(r)
  {
    var s, l := k.sem[sid], k.semLog[sid];
    if s.passes > 0 then
      k.(sem := k.sem[sid := s.(passes := s.passes - 1)],
         semLog := k.semLog[sid := l.(passed := l.passed + 1)])
    else
      k.(sem := k.sem[sid := s.(waitQ := Enqueued(s.waitQ, k.current))],
         semLog := k.semLog[sid := l.(blocked := l.blocked + [k.current])],
         pcb := k.pcb[k.current := k.pcb[k.current].(state := WAIT)],
         current := 0)
  }

  function MakeReady(k: Kern, pid: int): (r: Kern)
    requires WF(k) && IsPid(pid)
    ensures WF(r)
  {
    k.(ready := Enqueued(k.ready, pid), pcb := k.pcb[pid := k.pcb[pid].(state := READY)])
  }

  /** What a post does to the semaphore itself. */
  function Posted(k: Kern, sid: int): (r: Kern)
    requires WF(k) && IsSid(sid)
    ensures WF(r)
  {
    var s, l := k.sem[sid], k.semLog[sid];
    if s.waitQ == [] then
      k.(sem := k.sem[sid := s.(passes := s.passes + 1)],
         semLog := k.semLog[sid := l.(posts := l.posts + 1)])
    else
      k.(sem := k.sem[sid := s.(waitQ := Dequeued(s.waitQ))],
         semLog := k.semLog[sid := l.(posts := l.posts + 1, woken := l.woken + [s.waitQ[0]])])
  }

  function SemPostHandler(k: Kern, sid: int): (r: Kern)
    requires WF(k) && IsSid(sid)
    ensures WF(r)
  {
    if k.sem[sid].waitQ == [] then Posted(k, sid)
    else MakeReady(Posted(k, sid), k.sem[sid].waitQ[0])
  }

  // ---- serial ports --------------------------------------------------------------------------

  /** The conversion to unsigned char at the data register. */
  function ToByte(ch: int): int { ch % 256 }

  /** A byte goes to the data register of port p. */
  function PutByte(k: Kern, p: int, s: Sent): (r: Kern)
    requires WF(k) && IsPort(p)
    ensures WF(r)
  {
    k.(port := k.port[p := k.port[p].(out := k.port[p].out + [s.byte])],
       portLog := k.portLog[p := k.portLog[p].(wire := k.portLog[p].wire + [s])])
  }

  function PortWriteOne(k: Kern, p: int): (r: Kern)
    requires WF(k) && IsPort(p)
    ensures WF(r)
  {
    var d := k.port[p];
    if d.writeQ == [] && d.loopbackQ == [] then
      WithPort(k, p, d.(writeOk := 1))
    else if d.loopbackQ != [] then
      PutByte(WithPort(k, p, d.(loopbackQ := Dequeued(d.loopbackQ))), p,
              Sent(true, ToByte(d.loopbackQ[0]), |d.loopbackQ|))
    else
      PutByte(SemPostHandler(WithPort(k, p, d.(writeQ := Dequeued(d.writeQ))), d.writeSid), p,
              Sent(false, ToByte(d.writeQ[0]), |d.loopbackQ|))
  }

  /** The characters an accepted byte adds to the echo. */
  function Echo(ch: int): seq<int> {
    if ch == CR || ch == LF then [ch, LF] else [ch]
  }

  /** As many of the characters as still fit, each in turn. */
  function EnqueuedAll(q: seq<int>, chs: seq<int>): (r: seq<int>)
    ensures |q| <= QUEUE_SIZE ==> |r| <= QUEUE_SIZE
    ensures q <= r
    decreases |chs|
  {
    if chs == [] then q else EnqueuedAll(Enqueued(q, chs[0]), chs[1..])
  }

  lemma EchoQueued(q: seq<int>, ch: int)
    ensures EnqueuedAll(q, Echo(ch)) ==
            if ch == CR || ch == LF then Enqueued(Enqueued(q, ch), LF) else Enqueued(q, ch)
  {
    assert [ch, LF][1..] == [LF];
    assert EnqueuedAll(Enqueued(q, ch), [LF]) == EnqueuedAll(Enqueued(Enqueued(q, ch), LF), []);
  }

  /** The low seven bits of the byte join read_q and, with any line feed they call for, the echo. */
  function Receive(k: Kern, p: int, raw: int): (r: Kern)
    requires WF(k) && IsPort(p)
    ensures WF(r) && r.port[p].readSid == k.port[p].readSid
  {
    var d, l := k.port[p], k.portLog[p];
    var one := raw % 128;
    var loop := EnqueuedAll(d.loopbackQ, Echo(one));
    k.(port := k.port[p := d.(readQ := Enqueued(d.readQ, one), loopbackQ := loop)],
       portLog := k.portLog[p := l.(received := l.received + [Received(raw, true, QUEUE_SIZE - |d.loopbackQ|)],
                                    echoed := l.echoed + loop[|d.loopbackQ|..])])
  }

  function PortReadOne(k: Kern, p: int, raw: int): (r: Kern)
    requires WF(k) && IsPort(p)
    ensures WF(r)
  {
    var l := k.portLog[p];
    if |k.port[p].readQ| == QUEUE_SIZE then
      k.(portLog := k.portLog[p := l.(received := l.received + [Received(raw, false, 0)])])
    else SemPostHandler(Receive(k, p, raw), k.port[p].readSid)
  }

  /** One port's share of a serial interrupt. */
  function PortService(k: Kern, p: int, u: Uart): (r: Kern)
    requires WF(k) && IsPort(p)
    ensures WF(r)
  {
    if k.port[p].owner == 0 then k
    else
      var k1 := if u.RxReady? then PortReadOne(k, p, u.raw) else k;
      var k2 := if u.TxReady? then PortWriteOne(k1, p) else k1;
      if k2.port[p].writeOk != 0 then PortWriteOne(k2, p) else k2
  }

  /** The ports from p on, in order. */
  function PortHandler(k: Kern, uart: seq<Uart>, p: nat): (r: Kern)
    requires WF(k) && |uart| == PORT_NUM && p <= PORT_NUM
    ensures WF(r)
    decreases PORT_NUM - p
  {
    if p == PORT_NUM then k else PortHandler(PortService(k, p, uart[p]), uart, p + 1)
  }

  function FreePort(port: seq<Port>, i: nat): (r: nat)
    requires i <= |port|
    ensures i <= r <= |port|
    ensures r < |port| ==> port[r].owner == 0
    ensures forall j :: i <= j < r ==> port[j].owner != 0
    decreases |port| - i
  {
    if i == |port| || port[i].owner == 0 then i else FreePort(port, i + 1)
  }

  function PortAllocHandler(k: Kern): (r: (Kern, Reply))
    requires WF(k)
    ensures WF(r.0)
  {
    var p := FreePort(k.port, 0);
    if p == PORT_NUM then (k, NoReply)
    else
      (k.(port := k.port[p := Port(k.current, 0, 0, 1, [], [], [], [])],
          portLog := k.portLog[p := PortLog([], [], [], [], [])]), Eax(p))
  }

  /** The transmit queue of port p takes a character. */
  function GiveWrite(k: Kern, p: int, one: int): (r: Kern)
    requires WF(k) && IsPort(p)
    ensures WF(r)
  {
    var d, l := k.port[p], k.portLog[p];
    k.(port := k.port[p := d.(writeQ := Enqueued(d.writeQ, one))],
       portLog := k.portLog[p := l.(accepted := l.accepted + [one])])
  }

  function PortWriteHandler(k: Kern, one: int, p: int): (r: Kern)
    requires WF(k) && IsPort(p)
    ensures WF(r)
  {
    if |k.port[p].writeQ| == QUEUE_SIZE then k
    else if k.port[p].writeOk != 0 then PortWriteOne(GiveWrite(k, p, one), p)
    else GiveWrite(k, p, one)
  }

  function PortReadHandler(k: Kern, p: int): (r: (Kern, Reply))
    requires WF(k) && IsPort(p)
    ensures WF(r.0)
  {
    var d, l := k.port[p], k.portLog[p];
    if d.readQ == [] then (k, NoReply)
    else
      (k.(port := k.port[p := d.(readQ := Dequeued(d.readQ))],
          portLog := k.portLog[p := l.(delivered := l.delivered + [d.readQ[0]])]), Stored(d.readQ[0]))
  }

  // ---- the dispatcher ------------------------------------------------------------------------

  function Dispatch(k: Kern, t: Trap): (r: (Kern, Reply))
    requires WF(k) && TrapWF(t)
    ensures WF(r.0)
  {
    match t
    case Timer => (TimerHandler(k), NoReply)
    case SemAlloc(passes) => SemAllocHandler(k, passes)
    case SemWait(sid) => (SemWaitHandler(k, sid), NoReply)
    case SemPost(sid) => (SemPostHandler(k, sid), NoReply)
    case PortIrq(uart) => (PortHandler(k, uart, 0), NoReply)
    case PortAlloc => PortAllocHandler(k)
    case PortWrite(ch, port) => (PortWriteHandler(k, ch, port), NoReply)
    case PortRead(port) => PortReadHandler(k, port)
    case Unknown => (k, NoReply)
  }

  /** One entry into the kernel: the handler, then the scheduler. */
  function Enter(k: Kern, t: Trap): (r: (Kern, Reply))
    requires WF(k) && TrapWF(t)
    ensures WF(r.0)
  {
    var (k1, reply) := Dispatch(k, t);
    (Scheduler(k1), reply)
  }

  // ---- PortAlloc, the library call -----------------------------------------------------------

  /** A port and two semaphores are left. */
  predicate CanOpen(k: Kern)
    requires WF(k)
  {
    var w := FreeSem(k.sem, 0);
    FreePort(k.port, 0) < PORT_NUM && w < SEM_NUM && FreeSem(k.sem, w + 1) < SEM_NUM
  }

  /** Three traps in a row and the stores between them: a port, a semaphore with a pass for every slot
      of its transmit queue, and one with none. */
  function PortAllocated(k: Kern): (r: Kern)
    requires WF(k) && k.current != 0 && CanOpen(k)
    ensures WF(r)
  {
    var p := FreePort(k.port, 0);
    var k1 := Enter(k, PortAlloc).0;
    var w := FreeSem(k1.sem, 0);
    var k2 := Enter(k1, SemAlloc(QUEUE_SIZE)).0;
    var k3 := WithPort(k2, p, k2.port[p].(writeSid := w));
    var s := FreeSem(k3.sem, 0);
    assert k3.sem[FreeSem(k.sem, w + 1)].owner == 0;
    var k4 := Enter(k3, SemAlloc(0)).0;
    WithPort(k4, p, k4.port[p].(readSid := s, readQ := []))
  }

  /** What the three traps answer, and that the new port's receive queue is empty throughout. */
  lemma PortAllocReplies(k: Kern)
    requires WF(k) && k.current != 0 && CanOpen(k)
    ensures var p := FreePort(k.port, 0);
            var (k1, r1) := Enter(k, PortAlloc);
            var (k2, r2) := Enter(k1, SemAlloc(QUEUE_SIZE));
            r1 == Eax(p) && r2.Eax? && IsSid(r2.value) &&
            var k3 := WithPort(k2, p, k2.port[p].(writeSid := r2.value));
            var (k4, r3) := Enter(k3, SemAlloc(0));
            && r3.Eax? && IsSid(r3.value) && k4.port[p].readQ == []
            && PortAllocated(k) == WithPort(k4, p, k4.port[p].(readSid := r3.value, readQ := []))
  {
    var w := FreeSem(k.sem, 0);
    var k2 := Enter(Enter(k, PortAlloc).0, SemAlloc(QUEUE_SIZE)).0;
    assert k2.sem[FreeSem(k.sem, w + 1)].owner == 0;
  }

  // ---- boot ----------------------------------------------------------------------------------

  function Upto(n: nat): (r: seq<int>)
    ensures |r| == n && forall i :: 0 <= i < n ==> r[i] == i + 1
  {
    seq(n, i => i + 1)
  }

  /** The kernel's data as it lies in zeroed memory. */
  function Zeroed(): (k: Kern)
    ensures WF(k)
  {
    Kern(0, 0, [], [], seq(PROC_NUM, _ => Pcb(FREE, 0)),
         seq(SEM_NUM, _ => Sem(0, 0, [])), seq(PORT_NUM, _ => Port(0, 0, 0, 0, [], [], [], [])),
         seq(SEM_NUM, _ => SemLog(0, 0, 0, [], [])), seq(PORT_NUM, _ => PortLog([], [], [], [], [])))
  }

  /** Every process identifier but 0 is free. */
  function Stocked(): (k: Kern)
    ensures WF(k)
  {
    Zeroed().(free := Upto(PROC_NUM - 1))
  }

  /** After n processes have been created. */
  function Created(n: nat): (k: Kern)
    ensures WF(k)
  {
    if n == 0 then Stocked() else NewProcHandler(Created(n - 1))
  }

  /** The state a main that creates n processes leaves: the first one is chosen. The repository's creates two. */
  function Booted(n: nat): (k: Kern)
    ensures WF(k)
  {
    Scheduler(Created(n))
  }
}
