/** The semaphore law and the integrity of the serial streams, kept by every kernel operation. */
module Laws {
  import opened Queue
  import opened KernelSpec
  import opened Pids

  // ---- semaphores ----------------------------------------------------------------------------

  /** Passes granted never exceed passes supplied; no pass lies idle while someone waits; those who
      blocked are woken in the order they blocked. */
  predicate Lawful(s: Sem, l: SemLog) {
    && l.initial + l.posts == s.passes + l.passed + |l.woken|
    && l.blocked == l.woken + s.waitQ
    && (s.passes > 0 ==> s.waitQ == [])
    && s.passes >= (if l.initial < 0 then l.initial else 0)
    && (s.owner == 0 ==> s.waitQ == [])
  }

  ghost predicate SemLaw(k: Kern)
    requires WF(k)
  {
    forall s :: 0 <= s < SEM_NUM ==> Lawful(k.sem[s], k.semLog[s])
  }

  // ---- streams -------------------------------------------------------------------------------

  /** The bytes of one origin among those sent, in order. */
  function Origin(wire: seq<Sent>, echo: bool): seq<int> {
    if wire == [] then []
    else
      var last := wire[|wire| - 1];
      Origin(wire[..|wire| - 1], echo) + if last.echo == echo then [last.byte] else []
  }

  /** The characters that read_q took, in order. */
  function Kept(received: seq<Received>): seq<int> {
    if received == [] then []
    else
      var last := received[|received| - 1];
      Kept(received[..|received| - 1]) + if last.kept then [last.raw % 128] else []
  }

  /** The echo that was queued: each character kept, and after a line end a line feed, as far as there was room. */
  function Echoes(received: seq<Received>): seq<int> {
    if received == [] then []
    else
      var last := received[|received| - 1];
      var full := if last.raw % 128 == 13 || last.raw % 128 == 10 then [last.raw % 128, 10] else [last.raw % 128];
      Echoes(received[..|received| - 1]) +
      if last.kept then full[..if last.room < |full| then last.room else |full|] else []
  }

  /** Byte b is what the data register takes of character c. */
  predicate ByteOf(b: int, c: int) { 0 <= b < 256 && (b - c) % 256 == 0 }

  /** Of the characters chars all but those still queued were sent, in order. */
  predicate Carried(sent: seq<int>, queued: seq<int>, chars: seq<int>) {
    && |sent| + |queued| == |chars| && chars[|sent|..] == queued
    && forall i :: 0 <= i < |sent| ==> ByteOf(sent[i], chars[i])
  }

  /** On the wire: exactly the accepted characters in order, less those still queued, merged with
      exactly the echo of the characters kept, less what is still queued, and no application byte overtakes an echo
      byte. To the readers: exactly the kept characters in order, less those still queued. */
  ghost predicate StreamOk(d: Port, l: PortLog) {
    && |d.out| == |l.wire| && (forall i :: 0 <= i < |d.out| ==> d.out[i] == l.wire[i].byte)
    && Carried(Origin(l.wire, false), d.writeQ, l.accepted)
    && Carried(Origin(l.wire, true), d.loopbackQ, l.echoed) && l.echoed == Echoes(l.received)
    && l.delivered + d.readQ == Kept(l.received)
    && (forall i :: 0 <= i < |l.wire| && !l.wire[i].echo ==> l.wire[i].echoWaiting == 0)
  }

  ghost predicate Streams(k: Kern)
    requires WF(k)
  {
    forall p :: 0 <= p < PORT_NUM ==>
        StreamOk(k.port[p], k.portLog[p]) && (k.port[p].owner != 0 ==> k.port[p].writeOk == 1)
  }

  /** What holds between any two kernel operations. */
  ghost predicate KernelInv(k: Kern) {
    Conserved(k) && SemLaw(k) && Streams(k)
  }

  lemma SentOne(wire: seq<Sent>, s: Sent, echo: bool)
    ensures Origin(wire + [s], echo) == Origin(wire, echo) + if s.echo == echo then [s.byte] else []
  {
    assert (wire + [s])[..|wire|] == wire;
  }

  lemma ReceivedOne(received: seq<Received>, x: Received)
    ensures Kept(received + [x]) == Kept(received) + if x.kept then [x.raw % 128] else []
    ensures var full := if x.raw % 128 == 13 || x.raw % 128 == 10 then [x.raw % 128, 10] else [x.raw % 128];
            Echoes(received + [x]) == Echoes(received) +
                                      if x.kept then full[..if x.room < |full| then x.room else |full|] else []
  {
    assert (received + [x])[..|received|] == received;
  }

  // ---- semaphore operations ------------------------------------------------------------------

  lemma WaitKeeps(k: Kern, sid: int)
    requires KernelInv(k) && IsSid(sid) && k.current != 0 && k.sem[sid].owner != 0
    ensures KernelInv(SemWaitHandler(k, sid))
  {
    Room(k);
    SemWaitKeeps(k, sid);
    var s, r := k.sem[sid], SemWaitHandler(k, sid);
    assert Lawful(s, k.semLog[sid]);
    if s.passes <= 0 {
      assert r.semLog[sid].blocked == k.semLog[sid].woken + (s.waitQ + [k.current]);
    }
    assert Lawful(r.sem[sid], r.semLog[sid]);
  }

  lemma PostKeeps(k: Kern, sid: int)
    requires KernelInv(k) && IsSid(sid)
    ensures KernelInv(SemPostHandler(k, sid))
  {
    SemPostKeeps(k, sid);
    var s, l, r := k.sem[sid], k.semLog[sid], SemPostHandler(k, sid);
    assert Lawful(s, l);
    if s.waitQ != [] {
      assert s.waitQ == [s.waitQ[0]] + s.waitQ[1..];
      assert l.woken + s.waitQ == (l.woken + [s.waitQ[0]]) + s.waitQ[1..];
    }
    assert Lawful(r.sem[sid], r.semLog[sid]);
  }

  lemma AllocKeeps(k: Kern, passes: int)
    requires KernelInv(k) && k.current != 0
    ensures KernelInv(SemAllocHandler(k, passes).0)
  {
    forall s | 0 <= s < SEM_NUM && k.sem[s].owner == 0 ensures k.sem[s].waitQ == [] {
      assert Lawful(k.sem[s], k.semLog[s]);
    }
    SemAllocKeeps(k, passes);
    var r := SemAllocHandler(k, passes).0;
    var sid := FreeSem(k.sem, 0);
    if sid < SEM_NUM {
      assert Lawful(r.sem[sid], r.semLog[sid]);
    }
  }

  // ---- port operations -----------------------------------------------------------------------

  /** Replacing one port's data by data that keeps its streams keeps everything. */
  lemma PortStepKeeps(k: Kern, r: Kern, p: int)
    requires KernelInv(k) && WF(r) && IsPort(p)
    requires r.current == k.current && r.ready == k.ready && r.free == k.free && r.pcb == k.pcb
    requires r.sem == k.sem && r.semLog == k.semLog
    requires forall q :: 0 <= q < PORT_NUM && q != p ==> r.port[q] == k.port[q] && r.portLog[q] == k.portLog[q]
    requires StreamOk(r.port[p], r.portLog[p]) && (r.port[p].owner != 0 ==> r.port[p].writeOk == 1)
    ensures KernelInv(r)
  {
    Untouched(k, r);
  }

  /** A post and a change to a port do not disturb each other. */
  lemma PostApart(k: Kern, sid: int, p: int, m: Port)
    requires WF(k) && IsSid(sid) && IsPort(p) && PortWF(m)
    ensures SemPostHandler(WithPort(k, p, m), sid) == WithPort(SemPostHandler(k, sid), p, m)
  {
  }

  lemma WriteOneKeeps(k: Kern, p: int)
    requires KernelInv(k) && IsPort(p)
    ensures KernelInv(PortWriteOne(k, p))
  {
    var d, l := k.port[p], k.portLog[p];
    if d.writeQ == [] && d.loopbackQ == [] {
      PortStepKeeps(k, PortWriteOne(k, p), p);
    } else {
      SendKeeps(k, p);
    }
  }

  lemma SendKeeps(k: Kern, p: int)
    requires KernelInv(k) && IsPort(p) && (k.port[p].writeQ != [] || k.port[p].loopbackQ != [])
    ensures KernelInv(PortWriteOne(k, p))
  {
    hide KernelInv, StreamOk;
    InvStream(k, p);
    var d, l := k.port[p], k.portLog[p];
    var r := PortWriteOne(k, p);
    if d.loopbackQ != [] {
      SentStream(d, l, r.port[p], r.portLog[p]);
      PortStepKeeps(k, r, p);
    } else {
      PostKeeps(k, d.writeSid);
      PostApart(k, d.writeSid, p, d.(writeQ := Dequeued(d.writeQ)));
      SentStream(d, l, r.port[p], r.portLog[p]);
      PortStepKeeps(SemPostHandler(k, d.writeSid), r, p);
    }
  }

  lemma InvStream(k: Kern, p: int)
    requires KernelInv(k) && IsPort(p)
    ensures WF(k) && StreamOk(k.port[p], k.portLog[p]) && (k.port[p].owner != 0 ==> k.port[p].writeOk == 1)
  {
  }

  /** The conversion to unsigned char takes a character to its byte. */
  lemma AsByte(c: int)
    ensures ByteOf(ToByte(c), c) && (0 <= c < 256 ==> ToByte(c) == c)
  {
  }

  lemma CarriedOn(sent: seq<int>, queued: seq<int>, chars: seq<int>, b: int)
    requires Carried(sent, queued, chars) && queued != [] && ByteOf(b, queued[0])
    ensures Carried(sent + [b], queued[1..], chars)
  {
    hide ByteOf;
    assert chars[|sent|] == queued[0];
    assert chars[|sent| + 1..] == queued[1..];
  }

  lemma CarriedMore(sent: seq<int>, queued: seq<int>, chars: seq<int>, more: seq<int>)
    requires Carried(sent, queued, chars)
    ensures Carried(sent, queued + more, chars + more)
  {
    hide ByteOf;
    assert (chars + more)[|sent|..] == queued + more;
  }

  /** Moving the front of the right queue to the wire keeps both streams whole. */
  lemma SentStream(d: Port, l: PortLog, e: Port, m: PortLog)
    requires StreamOk(d, l) && (d.writeQ != [] || d.loopbackQ != [])
    requires var echo := d.loopbackQ != [];
             var s := Sent(echo, ToByte(if echo then d.loopbackQ[0] else d.writeQ[0]), |d.loopbackQ|);
             && m == l.(wire := l.wire + [s])
             && e == (if echo then d.(loopbackQ := d.loopbackQ[1..], out := d.out + [s.byte])
                      else d.(writeQ := d.writeQ[1..], out := d.out + [s.byte]))
    ensures StreamOk(e, m)
  {
    var s := m.wire[|l.wire|];
    SentOne(l.wire, s, true);
    SentOne(l.wire, s, false);
    hide ToByte, ByteOf;
    if d.loopbackQ != [] {
      AsByte(d.loopbackQ[0]);
      CarriedOn(Origin(l.wire, true), d.loopbackQ, l.echoed, s.byte);
    } else {
      AsByte(d.writeQ[0]);
      CarriedOn(Origin(l.wire, false), d.writeQ, l.accepted, s.byte);
    }
  }

  lemma ReadOneKeeps(k: Kern, p: int, raw: int)
    requires KernelInv(k) && IsPort(p)
    ensures KernelInv(PortReadOne(k, p, raw))
  {
    hide KernelInv, SemPostHandler, StreamOk, Receive;
    InvStream(k, p);
    if |k.port[p].readQ| == QUEUE_SIZE {
      DroppedStream(k.port[p], k.portLog[p], raw);
      PortStepKeeps(k, PortReadOne(k, p, raw), p);
    } else {
      ReceiveKeeps(k, p, raw);
      PostKeeps(Receive(k, p, raw), k.port[p].readSid);
    }
  }

  lemma DroppedStream(d: Port, l: PortLog, raw: int)
    requires StreamOk(d, l)
    ensures StreamOk(d, l.(received := l.received + [Received(raw, false, 0)]))
  {
    ReceivedOne(l.received, Received(raw, false, 0));
  }

  /** What a character adds to the echo: itself, and after a line end a line feed, as far as there is room. */
  lemma EchoIs(q: seq<int>, c: int)
    requires |q| <= QUEUE_SIZE
    ensures var full, room := if c == 13 || c == 10 then [c, 10] else [c], QUEUE_SIZE - |q|;
            EnqueuedAll(q, Echo(c)) == q + full[..if room < |full| then room else |full|]
  {
    EchoQueued(q, c);
  }

  lemma ReceiveKeeps(k: Kern, p: int, raw: int)
    requires KernelInv(k) && IsPort(p) && |k.port[p].readQ| < QUEUE_SIZE
    ensures KernelInv(Receive(k, p, raw))
  {
    hide KernelInv, EnqueuedAll;
    InvStream(k, p);
    var d, l, r := k.port[p], k.portLog[p], Receive(k, p, raw);
    var more := r.port[p].loopbackQ[|d.loopbackQ|..];
    ReceivedOne(l.received, Received(raw, true, QUEUE_SIZE - |d.loopbackQ|));
    EchoIs(d.loopbackQ, raw % 128);
    assert r.port[p].loopbackQ == d.loopbackQ + more;
    CarriedMore(Origin(l.wire, true), d.loopbackQ, l.echoed, more);
    PortStepKeeps(k, r, p);
  }

  lemma ServiceKeeps(k: Kern, p: int, u: Uart)
    requires KernelInv(k) && IsPort(p)
    ensures KernelInv(PortService(k, p, u))
  {
    if k.port[p].owner != 0 {
      var k1 := if u.RxReady? then PortReadOne(k, p, u.raw) else k;
      if u.RxReady? { ReadOneKeeps(k, p, u.raw); }
      var k2 := if u.TxReady? then PortWriteOne(k1, p) else k1;
      if u.TxReady? { WriteOneKeeps(k1, p); }
      WriteOneKeeps(k2, p);
    }
  }

  lemma {:induction false} HandlerKeeps(k: Kern, uart: seq<Uart>, p: nat)
    requires KernelInv(k) && |uart| == PORT_NUM && p <= PORT_NUM
    ensures KernelInv(PortHandler(k, uart, p))
    decreases PORT_NUM - p
  {
    if p < PORT_NUM {
      ServiceKeeps(k, p, uart[p]);
      HandlerKeeps(PortService(k, p, uart[p]), uart, p + 1);
    }
  }

  lemma PortAllocKeeps(k: Kern)
    requires KernelInv(k)
    ensures KernelInv(PortAllocHandler(k).0)
  {
    var p := FreePort(k.port, 0);
    if p < PORT_NUM {
      PortStepKeeps(k, PortAllocHandler(k).0, p);
    }
  }

  lemma GiveKeeps(k: Kern, p: int, one: int)
    requires KernelInv(k) && IsPort(p) && |k.port[p].writeQ| < QUEUE_SIZE
    ensures KernelInv(GiveWrite(k, p, one))
  {
    var r := GiveWrite(k, p, one);
    CarriedMore(Origin(k.portLog[p].wire, false), k.port[p].writeQ, k.portLog[p].accepted, [one]);
    PortStepKeeps(k, r, p);
  }

  lemma PortWriteKeeps(k: Kern, one: int, p: int)
    requires KernelInv(k) && IsPort(p)
    ensures KernelInv(PortWriteHandler(k, one, p))
  {
    if |k.port[p].writeQ| < QUEUE_SIZE {
      GiveKeeps(k, p, one);
      WriteOneKeeps(GiveWrite(k, p, one), p);
    }
  }

  lemma PortReadKeeps(k: Kern, p: int)
    requires KernelInv(k) && IsPort(p)
    ensures KernelInv(PortReadHandler(k, p).0)
  {
    var d, r := k.port[p], PortReadHandler(k, p).0;
    if d.readQ != [] {
      assert d.readQ == [d.readQ[0]] + d.readQ[1..];
      PortStepKeeps(k, r, p);
    }
  }

  // ---- one entry into the kernel -------------------------------------------------------------

  /** The traps a process may raise: it waits only on semaphores that were allocated. */
  predicate Proper(k: Kern, t: Trap)
    requires WF(k)
  {
    TrapWF(t) && (t.SemWait? ==> k.sem[t.sid].owner != 0)
  }

  lemma DispatchKeeps(k: Kern, t: Trap)
    requires KernelInv(k) && k.current != 0 && Proper(k, t)
    ensures KernelInv(Dispatch(k, t).0)
  {
    hide KernelInv;
    match t {
      case Timer => TimerLaws(k);
      case SemAlloc(passes) => AllocKeeps(k, passes);
      case SemWait(sid) => WaitKeeps(k, sid);
      case SemPost(sid) => PostKeeps(k, sid);
      case PortIrq(uart) => HandlerKeeps(k, uart, 0);
      case PortAlloc => PortAllocKeeps(k);
      case PortWrite(ch, p) => PortWriteKeeps(k, ch, p);
      case PortRead(p) => PortReadKeeps(k, p);
      case Unknown =>
    }
  }

  lemma TimerLaws(k: Kern)
    requires KernelInv(k) && k.current != 0
    ensures KernelInv(TimerHandler(k))
  {
    TimerKeeps(k);
  }

  lemma SchedulerLaws(k: Kern)
    requires KernelInv(k)
    ensures KernelInv(Scheduler(k))
    ensures Scheduler(k).current == 0 <==> k.current == 0 && k.ready == []
  {
    SchedulerKeeps(k);
  }

  /** Every trap keeps the kernel invariant; the CPU is left idle exactly when the running process
      blocks and nothing is ready. */
  lemma EnterKeeps(k: Kern, t: Trap)
    requires KernelInv(k) && k.current != 0 && Proper(k, t)
    ensures KernelInv(Enter(k, t).0)
    ensures Enter(k, t).0.current == 0 <==> t.SemWait? && k.sem[t.sid].passes <= 0 && k.ready == []
  {
    DispatchKeeps(k, t);
    SchedulerLaws(Dispatch(k, t).0);
    StaysOrBlocks(k, t);
  }

  /** Only a blocking wait or the end of a time slice takes the CPU away, and the latter leaves
      a ready process. */
  lemma StaysOrBlocks(k: Kern, t: Trap)
    requires KernelInv(k) && k.current != 0 && Proper(k, t)
    ensures var r := Dispatch(k, t).0;
            r.current == 0 && r.ready == [] <==> t.SemWait? && k.sem[t.sid].passes <= 0 && k.ready == []
  {
    hide PortHandler;
    match t {
      case Timer => Room(k);
      case PortIrq(uart) => HandlerStays(k, uart, 0);
      case _ =>
    }
  }

  /** Serial work never takes the CPU from the running process. */
  lemma {:induction false} HandlerStays(k: Kern, uart: seq<Uart>, p: nat)
    requires WF(k) && |uart| == PORT_NUM && p <= PORT_NUM
    ensures PortHandler(k, uart, p).current == k.current
    decreases PORT_NUM - p
  {
    hide PortService;
    if p < PORT_NUM {
      ServiceStays(k, p, uart[p]);
      HandlerStays(PortService(k, p, uart[p]), uart, p + 1);
    }
  }

  lemma ServiceStays(k: Kern, p: int, u: Uart)
    requires WF(k) && IsPort(p)
    ensures PortService(k, p, u).current == k.current
  {
    hide PortReadOne, PortWriteOne;
    var k1 := if u.RxReady? then PortReadOne(k, p, u.raw) else k;
    if u.RxReady? { ReadOneStays(k, p, u.raw); }
    var k2 := if u.TxReady? then PortWriteOne(k1, p) else k1;
    WriteOneStays(k1, p);
    WriteOneStays(k2, p);
  }

  lemma WriteOneStays(k: Kern, p: int)
    requires WF(k) && IsPort(p)
    ensures PortWriteOne(k, p).current == k.current
  {
  }

  lemma ReadOneStays(k: Kern, p: int, raw: int)
    requires WF(k) && IsPort(p)
    ensures PortReadOne(k, p, raw).current == k.current
  {
  }

  // ---- boot ----------------------------------------------------------------------------------

  lemma {:induction false} NoneWaits(sem: seq<Sem>, p: int)
    requires forall s :: 0 <= s < |sem| ==> sem[s].waitQ == []
    ensures WaitCount(sem, p) == 0 && WaitLen(sem) == 0
  {
    if sem != [] {
      NoneWaits(sem[..|sem| - 1], p);
    }
  }

  lemma {:induction false} UptoCount(n: nat, p: int)
    ensures Count(Upto(n), p) == if 1 <= p <= n then 1 else 0
  {
    if n == 0 {
      assert Upto(0) == [];
    } else {
      assert Upto(n) == Upto(n - 1) + [n];
      UptoCount(n - 1, p);
    }
  }

  lemma StockedConserved()
    ensures Conserved(Stocked())
  {
    var k := Stocked();
    NoneWaits(k.sem, 0);
    forall p ensures Places(k, p) == if 1 <= p < PROC_NUM then 1 else 0 {
      NoneWaits(k.sem, p);
      UptoCount(PROC_NUM - 1, p);
    }
    forall p | 1 <= p < PROC_NUM ensures StateAgrees(k, p) {}
  }

  /** Creating n processes makes 1 to n ready, in that order, and leaves the other identifiers free. */
  lemma {:induction false} CreatedReady(n: nat)
    requires n < PROC_NUM
    ensures var k := Created(n);
            && k.current == 0 && k.ready == Upto(n) && k.free == Upto(PROC_NUM - 1)[n..]
            && k.sem == Zeroed().sem && k.semLog == Zeroed().semLog
            && k.port == Zeroed().port && k.portLog == Zeroed().portLog
  {
    if n == 0 {
      assert Upto(0) == [];
    } else {
      CreatedReady(n - 1);
      assert Upto(n) == Upto(n - 1) + [n];
      assert Upto(PROC_NUM - 1)[n - 1..][1..] == Upto(PROC_NUM - 1)[n..];
    }
  }

  lemma {:induction false} CreatedConserved(n: nat)
    requires n < PROC_NUM
    ensures Conserved(Created(n))
  {
    if n == 0 {
      StockedConserved();
    } else {
      CreatedReady(n - 1);
      CreatedConserved(n - 1);
      NewProcKeeps(Created(n - 1));
    }
  }

  lemma BlankLaws(k: Kern)
    requires WF(k) && k.sem == Zeroed().sem && k.semLog == Zeroed().semLog
    requires k.port == Zeroed().port && k.portLog == Zeroed().portLog
    ensures SemLaw(k) && Streams(k)
  {
  }

  /** However many processes are created, the kernel starts in a state that satisfies its invariant, with
      process 1 running, the others ready in order, and the remaining identifiers free. */
  lemma BootEstablishes(n: nat)
    requires 1 <= n < PROC_NUM
    ensures KernelInv(Booted(n)) && Booted(n).current == 1 && Booted(n).pcb[1].cpuTime == 0
    ensures Booted(n).ready == Upto(n)[1..] && Booted(n).free == Upto(PROC_NUM - 1)[n..]
    ensures Booted(n).sem == Zeroed().sem && Booted(n).port == Zeroed().port
  {
    hide Conserved, SemLaw, Streams, Created;
    CreatedConserved(n);
    CreatedReady(n);
    SchedulerKeeps(Created(n));
    BlankLaws(Booted(n));
  }
}
