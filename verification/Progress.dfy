/** What serial work does to the processes: it may make waiting ones ready, and no more. */
module Progress {
  import opened Queue
  import opened KernelSpec
  import opened Tokens

  /** From k to r the CPU keeps its process and its slice, the ready queue at most grows at its end,
      nothing new waits, nothing is freed and the clock stands. */
  ghost predicate Grows(k: Kern, r: Kern)
    requires WF(k) && WF(r)
  {
    && r.current == k.current && k.ready <= r.ready && r.free == k.free && r.time == k.time
    && (forall i :: 0 <= i < PROC_NUM ==> r.pcb[i].cpuTime == k.pcb[i].cpuTime)
    && (forall s :: 0 <= s < SEM_NUM ==> WaitersFrom(k, r, s, false))
  }

  lemma GrowsOn(k: Kern, m: Kern, r: Kern)
    requires WF(k) && WF(m) && WF(r) && Grows(k, m) && Grows(m, r)
    ensures Grows(k, r)
  {
    forall s | 0 <= s < SEM_NUM ensures WaitersFrom(k, r, s, false) {
      assert WaitersFrom(k, m, s, false) && WaitersFrom(m, r, s, false);
    }
  }

  lemma PostGrows(k: Kern, sid: int)
    requires WF(k) && IsSid(sid)
    ensures Grows(k, SemPostHandler(k, sid))
  {
  }

  lemma WriteOneGrows(k: Kern, p: int)
    requires WF(k) && IsPort(p)
    ensures Grows(k, PortWriteOne(k, p))
  {
    var d := k.port[p];
    if d.loopbackQ == [] && d.writeQ != [] {
      PostGrows(WithPort(k, p, d.(writeQ := Dequeued(d.writeQ))), d.writeSid);
    }
  }

  lemma ReadOneGrows(k: Kern, p: int, raw: int)
    requires WF(k) && IsPort(p)
    ensures Grows(k, PortReadOne(k, p, raw))
  {
    hide EnqueuedAll;
    if |k.port[p].readQ| < QUEUE_SIZE {
      PostGrows(Receive(k, p, raw), k.port[p].readSid);
    }
  }

  lemma ServiceGrows(k: Kern, p: int, u: Uart)
    requires WF(k) && IsPort(p)
    ensures Grows(k, PortService(k, p, u))
  {
    hide PortReadOne, PortWriteOne;
    var k1 := if u.RxReady? then PortReadOne(k, p, u.raw) else k;
    if u.RxReady? { ReadOneGrows(k, p, u.raw); }
    var k2 := if u.TxReady? then PortWriteOne(k1, p) else k1;
    WriteOneGrows(k1, p);
    GrowsOn(k, k1, k2);
    WriteOneGrows(k2, p);
    GrowsOn(k, k2, PortWriteOne(k2, p));
  }

  lemma {:induction false} HandlerGrows(k: Kern, uart: seq<Uart>, p: nat)
    requires WF(k) && |uart| == PORT_NUM && p <= PORT_NUM
    ensures Grows(k, PortHandler(k, uart, p))
    decreases PORT_NUM - p
  {
    hide PortService;
    if p < PORT_NUM {
      ServiceGrows(k, p, uart[p]);
      HandlerGrows(PortService(k, p, uart[p]), uart, p + 1);
      GrowsOn(k, PortService(k, p, uart[p]), PortHandler(k, uart, p));
    }
  }
}
