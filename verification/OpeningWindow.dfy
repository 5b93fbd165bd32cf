/** PortAlloc of 9.serialport/src/syscall.c is three traps and three stores, and the port is live after the first
    trap, while its semaphore numbers are still 0. Protocol.dfy lets everything happen in between but that a
    character comes in for the port. Here characters do: the serial line interrupts wherever it likes, while other
    processes wait, and it is told exactly what that does to the port being opened and to the others. */
module OpeningWindow {
  import opened Queue
  import opened QueueOrder
  import opened KernelSpec
  import opened Pids
  import opened Laws
  import opened Tokens
  import opened Protocol

  /** No port is being opened. */
  ghost predicate Settled(k: Kern)
    requires WF(k)
  {
    forall p :: !Opening(k, p)
  }

  // ---- interrupts while port p is being opened -----------------------------------------------

  predicate Irqs(us: seq<seq<Uart>>) { forall i :: 0 <= i < |us| ==> |us[i]| == PORT_NUM }

  /** Serial interrupts, one after the other. */
  function Interrupted(k: Kern, us: seq<seq<Uart>>): (r: Kern)
    requires WF(k) && Irqs(us)
    ensures WF(r)
  {
    if us == [] then k else Enter(Interrupted(k, us[..|us| - 1]), PortIrq(us[|us| - 1])).0
  }

  /** Port p is live and nobody writes to it yet; the other ports are in use as Protocol has it. */
  ghost predicate Amid(k: Kern, p: int)
    requires WF(k)
  {
    && k.current != 0 && Owned(k, p) && k.port[p].writeQ == []
    && (forall q :: Owned(k, q) && q != p ==> Role(k, q))
    && (forall q, t :: Owned(k, q) && Owned(k, t) && q != p && t != p && q != t ==> RolesApart(k, q, t))
  }

  /** Semaphore t serves no port other than p. */
  ghost predicate Spare(k: Kern, p: int, t: int)
    requires WF(k)
  {
    forall q :: Owned(k, q) && q != p ==> k.port[q].writeSid != t && k.port[q].readSid != t
  }

  /** The characters port p has kept from k to r. */
  function Gained(k: Kern, r: Kern, p: int): int
    requires WF(k) && WF(r) && IsPort(p)
  {
    |r.port[p].readQ| - |k.port[p].readQ|
  }

  predicate SameUse(k: Kern, r: Kern, t: int)
    requires WF(k) && WF(r) && IsSid(t)
  {
    r.sem[t].owner == k.sem[t].owner && r.semLog[t].initial == k.semLog[t].initial
  }

  /** Another port keeps its sums but for a pass per character p kept, where it uses p's receive semaphore. */
  predicate DriftPort(k: Kern, r: Kern, p: int, q: int)
    requires WF(k) && WF(r) && IsPort(p) && IsPort(q)
  {
    var g, z := Gained(k, r, p), k.port[p].readSid;
    && WriteSlots(r, q) == WriteSlots(k, q) + (if k.port[q].writeSid == z then g else 0)
    && ReadSlots(r, q) == ReadSlots(k, q) + (if k.port[q].readSid == z then g else 0)
  }

  ghost predicate Drift(k: Kern, r: Kern, p: int)
    requires WF(k) && WF(r) && IsPort(p)
  {
    && r.current == k.current && r.port[p].writeQ == [] && Gained(k, r, p) >= 0
    && (forall q :: IsPort(q) ==> SameLabels(k, r, q))
    && (forall t :: IsSid(t) ==> SameUse(k, r, t))
    && (forall q :: Owned(k, q) && q != p ==> DriftPort(k, r, p, q))
    && (forall t :: IsSid(t) && Spare(k, p, t) ==>
          Balance(r.sem[t]) == Balance(k.sem[t]) + (if t == k.port[p].readSid then Gained(k, r, p) else 0))
  }

  lemma DriftOn(k: Kern, m: Kern, r: Kern, p: int)
    requires WF(k) && WF(m) && WF(r) && IsPort(p) && Amid(k, p) && Drift(k, m, p) && Drift(m, r, p)
    ensures Drift(k, r, p)
  {
    assert forall q :: IsPort(q) ==> SameLabels(k, m, q) && SameLabels(m, r, q);
    forall t | IsSid(t) ensures SameUse(k, r, t) { assert SameUse(k, m, t) && SameUse(m, r, t); }
    forall q | Owned(k, q) && q != p ensures DriftPort(k, r, p, q) {
      assert DriftPort(k, m, p, q) && DriftPort(m, r, p, q);
    }
    forall t | IsSid(t) && Spare(k, p, t)
      ensures Balance(r.sem[t]) == Balance(k.sem[t]) + (if t == k.port[p].readSid then Gained(k, r, p) else 0)
    {
      assert Spare(m, p, t);
    }
  }

  lemma DriftOpening(k: Kern, r: Kern, p: int)
    requires WF(k) && WF(r) && IsPort(p) && Amid(k, p) && Drift(k, r, p)
    ensures Amid(r, p)
  {
    assert forall q :: IsPort(q) ==> SameLabels(k, r, q);
    assert forall t :: IsSid(t) ==> SameUse(k, r, t);
    forall q | Owned(r, q) && q != p ensures Role(r, q) { assert Role(k, q); }
    forall q, t | Owned(r, q) && Owned(r, t) && q != p && t != p && q != t ensures RolesApart(r, q, t) {
      assert RolesApart(k, q, t);
    }
  }

  /** What makes port x's work and port q's sums strangers while p is being opened. */
  ghost predicate Strangers(k: Kern, p: int, x: int, q: int)
    requires WF(k) && IsPort(p) && IsPort(x) && IsPort(q)
  {
    k.port[p].writeQ == [] && q != p && Role(k, q) && (q != x && x != p ==> RolesApart(k, x, q))
  }

  lemma AreStrangers(k: Kern, p: int, x: int, q: int)
    requires WF(k) && IsPort(p) && Amid(k, p) && Owned(k, x) && Owned(k, q) && q != p
    ensures Strangers(k, p, x, q)
  {
  }

  lemma WriteOneOther(k: Kern, p: int, x: int, q: int)
    requires WF(k) && IsPort(p) && IsPort(x) && IsPort(q) && Strangers(k, p, x, q)
    ensures DriftPort(k, PortWriteOne(k, x), p, q)
  {
    hide ToByte;
  }

  lemma WriteOneSpare(k: Kern, p: int, x: int, t: int)
    requires WF(k) && IsPort(p) && Amid(k, p) && Owned(k, x) && IsSid(t) && Spare(k, p, t)
    ensures Balance(PortWriteOne(k, x).sem[t]) == Balance(k.sem[t]) && Gained(k, PortWriteOne(k, x), p) == 0
  {
  }

  lemma WriteOneRest(k: Kern, p: int, x: int)
    requires WF(k) && IsPort(p) && Amid(k, p) && Owned(k, x)
    ensures var r := PortWriteOne(k, x);
            && r.current == k.current && r.port[p].writeQ == [] && Gained(k, r, p) == 0
            && (forall q :: IsPort(q) ==> SameLabels(k, r, q)) && (forall t :: IsSid(t) ==> SameUse(k, r, t))
  {
  }

  lemma WriteOneDrifts(k: Kern, p: int, x: int)
    requires WF(k) && IsPort(p) && Amid(k, p) && Owned(k, x)
    ensures Drift(k, PortWriteOne(k, x), p)
  {
    hide PortWriteOne, Amid, Strangers, DriftPort, Spare, SameLabels, SameUse, Balance, Gained;
    WriteOneRest(k, p, x);
    forall q | Owned(k, q) && q != p ensures DriftPort(k, PortWriteOne(k, x), p, q) {
      AreStrangers(k, p, x, q);
      WriteOneOther(k, p, x, q);
    }
    forall t | IsSid(t) && Spare(k, p, t)
      ensures Balance(PortWriteOne(k, x).sem[t]) == Balance(k.sem[t])
    {
      WriteOneSpare(k, p, x, t);
    }
  }

  lemma ReadOneOther(k: Kern, p: int, x: int, raw: int, q: int)
    requires WF(k) && IsPort(p) && IsPort(x) && IsPort(q) && Strangers(k, p, x, q)
    ensures DriftPort(k, PortReadOne(k, x, raw), p, q)
  {
    hide EnqueuedAll;
  }

  lemma ReadOneSpare(k: Kern, p: int, x: int, raw: int, t: int)
    requires WF(k) && IsPort(p) && Amid(k, p) && Owned(k, x) && IsSid(t) && Spare(k, p, t)
    ensures var r := PortReadOne(k, x, raw);
            Balance(r.sem[t]) == Balance(k.sem[t]) + (if t == k.port[p].readSid then Gained(k, r, p) else 0)
  {
    hide EnqueuedAll;
  }

  lemma ReadOneRest(k: Kern, p: int, x: int, raw: int)
    requires WF(k) && IsPort(p) && Amid(k, p) && Owned(k, x)
    ensures var r := PortReadOne(k, x, raw);
            && r.current == k.current && r.port[p].writeQ == [] && Gained(k, r, p) >= 0
            && (forall q :: IsPort(q) ==> SameLabels(k, r, q)) && (forall t :: IsSid(t) ==> SameUse(k, r, t))
  {
    hide EnqueuedAll;
  }

  lemma ReadOneDrifts(k: Kern, p: int, x: int, raw: int)
    requires WF(k) && IsPort(p) && Amid(k, p) && Owned(k, x)
    ensures Drift(k, PortReadOne(k, x, raw), p)
  {
    hide PortReadOne, Amid, Strangers, DriftPort, Spare, SameLabels, SameUse, Balance, Gained;
    var r := PortReadOne(k, x, raw);
    ReadOneRest(k, p, x, raw);
    forall q | Owned(k, q) && q != p ensures DriftPort(k, r, p, q) {
      AreStrangers(k, p, x, q);
      ReadOneOther(k, p, x, raw, q);
    }
    forall t | IsSid(t) && Spare(k, p, t)
      ensures Balance(r.sem[t]) == Balance(k.sem[t]) + (if t == k.port[p].readSid then Gained(k, r, p) else 0)
    {
      ReadOneSpare(k, p, x, raw, t);
    }
  }

  lemma NoDrift(k: Kern, p: int)
    requires WF(k) && IsPort(p) && Amid(k, p)
    ensures Drift(k, k, p)
  {
  }

  lemma ServiceDrifts(k: Kern, p: int, x: int, u: Uart)
    requires WF(k) && IsPort(p) && Amid(k, p) && IsPort(x)
    ensures Drift(k, PortService(k, x, u), p)
  {
    hide PortReadOne, PortWriteOne, Drift, Amid;
    NoDrift(k, p);
    if Owned(k, x) {
      var k1 := if u.RxReady? then PortReadOne(k, x, u.raw) else k;
      if u.RxReady? { ReadOneDrifts(k, p, x, u.raw); }
      DriftOpening(k, k1, p);
      StillLive(k, k1, p, x);
      var k2 := if u.TxReady? then PortWriteOne(k1, x) else k1;
      NoDrift(k1, p);
      WriteOneDrifts(k1, p, x);
      DriftOpening(k1, k2, p);
      StillLive(k1, k2, p, x);
      DriftOn(k, k1, k2, p);
      WriteOneDrifts(k2, p, x);
      DriftOn(k, k2, PortWriteOne(k2, x), p);
    }
  }

  lemma StillLive(k: Kern, r: Kern, p: int, x: int)
    requires WF(k) && WF(r) && IsPort(p) && IsPort(x) && Drift(k, r, p)
    ensures Owned(r, x) <==> Owned(k, x)
  {
    assert SameLabels(k, r, x);
  }

  lemma {:induction false} HandlerDrifts(k: Kern, p: int, uart: seq<Uart>, x: nat)
    requires WF(k) && IsPort(p) && Amid(k, p) && |uart| == PORT_NUM && x <= PORT_NUM
    ensures Drift(k, PortHandler(k, uart, x), p)
    decreases PORT_NUM - x
  {
    hide PortService, Drift, Amid;
    NoDrift(k, p);
    if x < PORT_NUM {
      var k1 := PortService(k, x, uart[x]);
      ServiceDrifts(k, p, x, uart[x]);
      DriftOpening(k, k1, p);
      HandlerDrifts(k1, p, uart, x + 1);
      DriftOn(k, k1, PortHandler(k, uart, x), p);
    }
  }

  lemma {:induction false} InterruptsDrift(k: Kern, p: int, us: seq<seq<Uart>>)
    requires WF(k) && IsPort(p) && Amid(k, p) && Irqs(us)
    ensures Drift(k, Interrupted(k, us), p) && Amid(Interrupted(k, us), p)
  {
    hide PortHandler, Drift, Amid;
    NoDrift(k, p);
    if us != [] {
      var m, u := Interrupted(k, us[..|us| - 1]), us[|us| - 1];
      InterruptsDrift(k, p, us[..|us| - 1]);
      HandlerDrifts(m, p, u, 0);
      Running(m, PortHandler(m, u, 0), p);
      DriftOn(k, m, Interrupted(k, us), p);
      DriftOpening(k, Interrupted(k, us), p);
    }
  }

  lemma Running(k: Kern, r: Kern, p: int)
    requires WF(k) && WF(r) && IsPort(p) && Amid(k, p) && Drift(k, r, p)
    ensures Scheduler(r) == r
  {
  }

  // ---- the call with interrupts in it --------------------------------------------------------

  /** The interrupts after the first trap, after the second, after the store of write_sid, after the third
      trap, and after the store of read_sid. */
  datatype Window = Window(a: seq<seq<Uart>>, b: seq<seq<Uart>>, c: seq<seq<Uart>>, d: seq<seq<Uart>>,
                           e: seq<seq<Uart>>)

  predicate Serials(w: Window) { Irqs(w.a) && Irqs(w.b) && Irqs(w.c) && Irqs(w.d) && Irqs(w.e) }

  /** The port and the two semaphores PortAlloc gets. */
  function ThePort(k: Kern): (p: nat)
    requires WF(k) && CanOpen(k)
    ensures IsPort(p) && k.port[p].owner == 0
  {
    FreePort(k.port, 0)
  }

  function TheWriteSem(k: Kern): (t: nat)
    requires WF(k) && CanOpen(k)
    ensures IsSid(t) && k.sem[t].owner == 0
  {
    FreeSem(k.sem, 0)
  }

  function TheReadSem(k: Kern): (t: nat)
    requires WF(k) && CanOpen(k)
    ensures IsSid(t) && k.sem[t].owner == 0 && t > TheWriteSem(k)
  {
    FreeSem(k.sem, TheWriteSem(k) + 1)
  }

  function Stage1(k: Kern, w: Window): (r: Kern)
    requires WF(k) && CanOpen(k) && Serials(w)
    ensures WF(r)
  {
    Interrupted(Enter(k, PortAlloc).0, w.a)
  }

  function Stage2(k: Kern, w: Window): (r: Kern)
    requires WF(k) && CanOpen(k) && Serials(w)
    ensures WF(r)
  {
    Interrupted(Enter(Stage1(k, w), SemAlloc(QUEUE_SIZE)).0, w.b)
  }

  function Stage3(k: Kern, w: Window): (r: Kern)
    requires WF(k) && CanOpen(k) && Serials(w)
    ensures WF(r)
  {
    var m, p := Stage2(k, w), ThePort(k);
    Interrupted(WithPort(m, p, m.port[p].(writeSid := TheWriteSem(k))), w.c)
  }

  function Stage4(k: Kern, w: Window): (r: Kern)
    requires WF(k) && CanOpen(k) && Serials(w)
    ensures WF(r)
  {
    Interrupted(Enter(Stage3(k, w), SemAlloc(0)).0, w.d)
  }

  /** The kernel just before read_q.size is set to 0. */
  function Stage5(k: Kern, w: Window): (r: Kern)
    requires WF(k) && CanOpen(k) && Serials(w)
    ensures WF(r)
  {
    var m, p := Stage4(k, w), ThePort(k);
    Interrupted(WithPort(m, p, m.port[p].(readSid := TheReadSem(k))), w.e)
  }

  /** Port q has g passes too many if it uses semaphore 0, else its sums are what they were. */
  predicate Surplus(k: Kern, m: Kern, q: int, g: int)
    requires WF(k) && WF(m) && IsPort(q)
  {
    && WriteSlots(m, q) == WriteSlots(k, q) + (if k.port[q].writeSid == 0 then g else 0)
    && ReadSlots(m, q) == ReadSlots(k, q) + (if k.port[q].readSid == 0 then g else 0)
  }

  /** What the opening so far has done to everybody else: port p is live, the semaphores of `taken` are in use,
      and a port that uses semaphore 0 has g passes too many. */
  ghost predicate Track(k: Kern, m: Kern, p: int, g: int, taken: set<int>)
    requires WF(k) && WF(m) && IsPort(p)
  {
    && Amid(m, p) && m.current == k.current && k.port[p].owner == 0
    && (forall q :: IsPort(q) && q != p ==> SameLabels(k, m, q))
    && (forall t :: IsSid(t) ==> (m.sem[t].owner != 0 <==> k.sem[t].owner != 0 || t in taken))
    && (forall q :: Owned(k, q) ==> Surplus(k, m, q, g))
  }

  /** The passes of a semaphore of no other port after interrupts. */
  predicate SpareBalance(m: Kern, r: Kern, p: int, t: int)
    requires WF(m) && WF(r) && IsPort(p) && IsSid(t)
  {
    Balance(r.sem[t]) == Balance(m.sem[t]) + (if t == m.port[p].readSid then Gained(m, r, p) else 0)
  }

  lemma DriftSurplus(k: Kern, m: Kern, r: Kern, p: int, q: int, g: int)
    requires WF(k) && WF(m) && WF(r) && IsPort(p) && IsPort(q) && Surplus(k, m, q, g) && SameLabels(k, m, q)
    requires DriftPort(m, r, p, q)
    requires var z := m.port[p].readSid; z == 0 || (m.port[q].writeSid != z && m.port[q].readSid != z)
    ensures Surplus(k, r, q, g + if m.port[p].readSid == 0 then Gained(m, r, p) else 0)
  {
  }

  lemma DriftOwners(k: Kern, m: Kern, r: Kern, p: int, q: int)
    requires WF(k) && WF(m) && WF(r) && IsPort(p) && IsPort(q) && Drift(m, r, p)
    ensures SameLabels(m, r, q) && (SameLabels(k, m, q) ==> SameLabels(k, r, q)) && (Owned(r, q) <==> Owned(m, q))
  {
  }

  lemma DriftTrack(k: Kern, m: Kern, r: Kern, p: int, g: int, taken: set<int>)
    requires WF(k) && WF(m) && WF(r) && IsPort(p) && Track(k, m, p, g, taken) && Drift(m, r, p) && Amid(r, p)
    requires m.port[p].readSid == 0 || Spare(m, p, m.port[p].readSid)
    ensures Track(k, r, p, g + (if m.port[p].readSid == 0 then Gained(m, r, p) else 0), taken)
  {
    hide Amid, Surplus, DriftPort, SameLabels, Gained;
    forall q | IsPort(q) && q != p ensures SameLabels(k, r, q) { DriftOwners(k, m, r, p, q); }
    forall t | IsSid(t) ensures r.sem[t].owner == m.sem[t].owner { assert SameUse(m, r, t); }
    forall q | Owned(k, q) ensures Surplus(k, r, q, g + if m.port[p].readSid == 0 then Gained(m, r, p) else 0) {
      LiveToo(k, m, p, q);
      DriftSurplus(k, m, r, p, q, g);
    }
  }

  lemma LiveToo(k: Kern, m: Kern, p: int, q: int)
    requires WF(k) && WF(m) && IsPort(p) && Owned(k, q) && k.port[p].owner == 0
    requires forall x :: IsPort(x) && x != p ==> SameLabels(k, m, x)
    ensures q != p && Owned(m, q) && SameLabels(k, m, q)
  {
  }

  lemma StillSpare(m: Kern, r: Kern, p: int, t: int)
    requires WF(m) && WF(r) && IsPort(p) && Drift(m, r, p) && Spare(m, p, t)
    ensures Spare(r, p, t)
  {
    forall q | Owned(r, q) && q != p ensures r.port[q].writeSid != t && r.port[q].readSid != t {
      assert SameLabels(m, r, q);
    }
  }

  lemma InterruptsTrack(k: Kern, m: Kern, p: int, g: int, taken: set<int>, us: seq<seq<Uart>>)
    requires WF(k) && WF(m) && IsPort(p) && Track(k, m, p, g, taken) && Irqs(us)
    requires m.port[p].readSid == 0 || Spare(m, p, m.port[p].readSid)
    ensures var r := Interrupted(m, us);
            && Track(k, r, p, g + (if m.port[p].readSid == 0 then Gained(m, r, p) else 0), taken)
            && SameLabels(m, r, p) && Gained(m, r, p) >= 0
            && (forall t :: IsSid(t) ==> SameUse(m, r, t))
            && forall t :: IsSid(t) && Spare(m, p, t) ==> Spare(r, p, t) && SpareBalance(m, r, p, t)
  {
    hide Interrupted, Amid, Surplus, Gained, Balance, Spare, SameUse;
    var r := Interrupted(m, us);
    InterruptsDrift(m, p, us);
    DriftTrack(k, m, r, p, g, taken);
    forall t | IsSid(t) && Spare(m, p, t) ensures Spare(r, p, t) { StillSpare(m, r, p, t); }
  }

  /** Allocating a semaphore: the first free one, of no other port. */
  lemma AllocTrack(k: Kern, m: Kern, p: int, g: int, taken: set<int>, passes: int)
    requires WF(k) && WF(m) && IsPort(p) && Track(k, m, p, g, taken) && FreeSem(m.sem, 0) < SEM_NUM && passes >= 0
    ensures var r, f := Enter(m, SemAlloc(passes)), FreeSem(m.sem, 0);
            && r.1 == Eax(f) && Track(k, r.0, p, g, taken + {f}) && r.0.port == m.port
            && Spare(m, p, f) && Balance(r.0.sem[f]) == passes == r.0.semLog[f].initial
            && forall t :: IsSid(t) && t != f ==> r.0.sem[t] == m.sem[t] && r.0.semLog[t] == m.semLog[t]
  {
    hide Amid, Surplus, SameLabels, Spare, Enter, SemAllocHandler;
    var r, f := Enter(m, SemAlloc(passes)).0, FreeSem(m.sem, 0);
    assert m.current != 0 by { AmidParts(m, p); }
    AllocIs(m, passes);
    AllocOpening(m, r, p, passes);
    forall q | Owned(k, q) ensures Surplus(k, r, q, g) {
      LiveToo(k, m, p, q);
      AllocSurplus(k, m, r, p, q, g, f);
    }
    forall q | IsPort(q) && q != p ensures SameLabels(k, r, q) { AlikeLabels(k, m, r, q); }
  }

  lemma AllocIs(m: Kern, passes: int)
    requires WF(m) && m.current != 0 && FreeSem(m.sem, 0) < SEM_NUM
    ensures var r, f := Enter(m, SemAlloc(passes)), FreeSem(m.sem, 0);
            && r == (SemAllocHandler(m, passes).0, Eax(f)) && r.0.port == m.port && r.0.current == m.current
            && r.0.sem == m.sem[f := Sem(m.current, passes, [])]
            && r.0.semLog == m.semLog[f := SemLog(passes, 0, 0, [], [])]
  {
  }

  /** The semaphore handed out served no port. */
  lemma AllocOpening(m: Kern, r: Kern, p: int, passes: int)
    requires WF(m) && IsPort(p) && Amid(m, p) && FreeSem(m.sem, 0) < SEM_NUM && r == SemAllocHandler(m, passes).0
    ensures WF(r) && Amid(r, p) && Spare(m, p, FreeSem(m.sem, 0))
  {
    forall q | Owned(m, q) && q != p ensures Role(r, q) { assert Role(m, q); }
    forall q, t | Owned(r, q) && Owned(r, t) && q != p && t != p && q != t ensures RolesApart(r, q, t) {
      assert RolesApart(m, q, t);
    }
    var f := FreeSem(m.sem, 0);
    forall q | Owned(m, q) && q != p ensures m.port[q].writeSid != f && m.port[q].readSid != f {
      assert Role(m, q);
    }
  }

  lemma AllocSurplus(k: Kern, m: Kern, r: Kern, p: int, q: int, g: int, f: int)
    requires WF(k) && WF(m) && WF(r) && IsPort(p) && IsPort(q) && Surplus(k, m, q, g) && Owned(m, q) && q != p
    requires r.port == m.port && Spare(m, p, f) && forall t :: IsSid(t) && t != f ==> r.sem[t] == m.sem[t]
    ensures Surplus(k, r, q, g)
  {
  }

  lemma AlikeLabels(k: Kern, m: Kern, r: Kern, q: int)
    requires WF(k) && WF(m) && WF(r) && IsPort(q) && SameLabels(k, m, q) && r.port == m.port
    ensures SameLabels(k, r, q)
  {
  }

  lemma SpareSame(m: Kern, r: Kern, p: int, t: int)
    requires WF(m) && WF(r) && IsPort(p) && Spare(m, p, t) && forall q :: IsPort(q) && q != p ==> r.port[q] == m.port[q]
    ensures Spare(r, p, t)
  {
    forall q | Owned(r, q) && q != p ensures r.port[q].writeSid != t && r.port[q].readSid != t { assert Owned(m, q); }
  }

  /** Storing a semaphore number in the port being opened. */
  lemma StoreTrack(k: Kern, m: Kern, p: int, g: int, taken: set<int>, x: int, y: int)
    requires WF(k) && WF(m) && IsPort(p) && Track(k, m, p, g, taken) && IsSid(x) && IsSid(y)
    ensures var r := WithPort(m, p, m.port[p].(writeSid := x, readSid := y));
            && Track(k, r, p, g, taken) && r.sem == m.sem && r.semLog == m.semLog
            && forall t :: IsSid(t) && Spare(m, p, t) ==> Spare(r, p, t)
  {
    hide Spare;
    var r := WithPort(m, p, m.port[p].(writeSid := x, readSid := y));
    forall t | IsSid(t) && Spare(m, p, t) ensures Spare(r, p, t) { SpareSame(m, r, p, t); }
    forall q | Owned(r, q) && q != p ensures Role(r, q) { assert Role(m, q); }
    forall q, t | Owned(r, q) && Owned(r, t) && q != p && t != p && q != t ensures RolesApart(r, q, t) {
      assert RolesApart(m, q, t);
    }
    forall q | Owned(k, q) ensures Surplus(k, r, q, g) { assert SameLabels(k, m, q) && Surplus(k, m, q, g); }
  }

  lemma OpenTrack(k: Kern)
    requires WF(k) && Roles(k) && Settled(k) && k.current != 0 && CanOpen(k)
    ensures var r, p := Enter(k, PortAlloc), ThePort(k);
            && r.1 == Eax(p) && Track(k, r.0, p, 0, {}) && r.0.port[p].readSid == 0 && r.0.port[p].readQ == []
  {
    var r, p := Enter(k, PortAlloc).0, ThePort(k);
    assert r == PortAllocHandler(k).0;
    forall q | Owned(r, q) && q != p ensures Role(r, q) { assert !Opening(k, q) && InUse(k, q) && Role(k, q); }
    forall q, t | Owned(r, q) && Owned(r, t) && q != p && t != p && q != t ensures RolesApart(r, q, t) {
      assert !Opening(k, q) && !Opening(k, t) && RolesApart(k, q, t);
    }
  }

  /** Taking the first free slot makes the next one the first. */
  lemma {:induction false} NextFree(sem: seq<Sem>, w: nat, one: seq<Sem>, i: nat)
    requires i <= w < |sem| == |one| && w == FreeSem(sem, i) && one == sem[w := one[w]] && one[w].owner != 0
    ensures FreeSem(one, i) == FreeSem(sem, w + 1)
    decreases w - i
  {
    if i < w {
      NextFree(sem, w, one, i + 1);
    } else {
      SameTail(sem, one, w + 1);
    }
  }

  lemma {:induction false} SameTail(sem: seq<Sem>, one: seq<Sem>, i: nat)
    requires i <= |sem| == |one| && one[i..] == sem[i..]
    ensures FreeSem(one, i) == FreeSem(sem, i)
    decreases |sem| - i
  {
    if i < |sem| {
      assert one[i] == one[i..][0] && sem[i] == sem[i..][0];
      assert one[i + 1..] == one[i..][1..] && sem[i + 1..] == sem[i..][1..];
      SameTail(sem, one, i + 1);
    }
  }

  /** The first free slot depends on the owners only. */
  lemma {:induction false} FirstUnused(sem: seq<Sem>, one: seq<Sem>, i: nat)
    requires i <= |sem| == |one| && forall t :: i <= t < |sem| ==> (sem[t].owner == 0 <==> one[t].owner == 0)
    ensures FreeSem(one, i) == FreeSem(sem, i)
    decreases |sem| - i
  {
    if i < |sem| { FirstUnused(sem, one, i + 1); }
  }

  /** Where the call is after its first stages: port p live, so many of its characters kept, and the semaphores
      it has been given so far serving nobody else. */
  ghost predicate Halfway(k: Kern, m: Kern, p: int, taken: set<int>)
    requires WF(k) && WF(m) && IsPort(p)
  {
    && Track(k, m, p, |m.port[p].readQ|, taken) && m.port[p].readSid == 0
    && forall t :: t in taken ==> IsSid(t) && Spare(m, p, t)
  }

  /** While read_sid is still 0 semaphore t of the port being opened has a pass more for every character kept only
      if it is semaphore 0. */
  predicate PassesOn(m: Kern, r: Kern, p: int, t: int)
    requires WF(m) && WF(r) && IsPort(p) && IsSid(t)
  {
    && Balance(r.sem[t]) == Balance(m.sem[t]) + (if t == 0 then Gained(m, r, p) else 0)
    && r.semLog[t].initial == m.semLog[t].initial
  }

  /** Interrupts while read_sid is still 0. */
  lemma HalfwayOn(k: Kern, m: Kern, p: int, taken: set<int>, us: seq<seq<Uart>>)
    requires WF(k) && WF(m) && IsPort(p) && Halfway(k, m, p, taken) && Irqs(us)
    ensures var r := Interrupted(m, us);
            && Halfway(k, r, p, taken) && SameLabels(m, r, p) && Gained(m, r, p) >= 0
            && forall t :: t in taken ==> PassesOn(m, r, p, t)
  {
    hide Track, Spare, Interrupted;
    InterruptsTrack(k, m, p, |m.port[p].readQ|, taken, us);
    var r := Interrupted(m, us);
    forall t | t in taken ensures PassesOn(m, r, p, t) { assert SpareBalance(m, r, p, t) && SameUse(m, r, t); }
  }

  lemma Stage1Is(k: Kern, w: Window)
    requires WF(k) && Roles(k) && Settled(k) && k.current != 0 && CanOpen(k) && Serials(w)
    ensures Enter(k, PortAlloc).1 == Eax(ThePort(k)) && Halfway(k, Stage1(k, w), ThePort(k), {})
  {
    hide Track, Enter, Interrupted, CanOpen;
    OpenTrack(k);
    HalfwayOn(k, Enter(k, PortAlloc).0, ThePort(k), {}, w.a);
  }

  /** Owners tell which slot is next. */
  lemma NextSem(k: Kern, m: Kern, p: int, taken: set<int>)
    requires WF(k) && WF(m) && IsPort(p) && CanOpen(k) && Halfway(k, m, p, taken)
    ensures taken == {} ==> FreeSem(m.sem, 0) == TheWriteSem(k)
    ensures taken == {TheWriteSem(k)} ==> FreeSem(m.sem, 0) == TheReadSem(k)
  {
    var f := TheWriteSem(k);
    assert Track(k, m, p, |m.port[p].readQ|, taken);
    if taken == {} {
      FirstUnused(k.sem, m.sem, 0);
    } else if taken == {f} {
      var one := k.sem[f := k.sem[f].(owner := 1)];
      NextFree(k.sem, f, one, 0);
      FirstUnused(one, m.sem, 0);
    }
  }

  lemma AllocHalfway(k: Kern, m: Kern, p: int, taken: set<int>, passes: int, us: seq<seq<Uart>>)
    requires WF(k) && WF(m) && IsPort(p) && Halfway(k, m, p, taken) && passes >= 0 && Irqs(us)
    requires FreeSem(m.sem, 0) < SEM_NUM && FreeSem(m.sem, 0) !in taken
    ensures var a, f := Enter(m, SemAlloc(passes)), FreeSem(m.sem, 0);
            var r := Interrupted(a.0, us);
            && a.1 == Eax(f) && Halfway(k, r, p, taken + {f}) && SameLabels(m, r, p) && Gained(m, r, p) >= 0
            && Balance(r.sem[f]) == passes + (if f == 0 then Gained(m, r, p) else 0) && r.semLog[f].initial == passes
            && forall t :: t in taken ==> PassesOn(m, r, p, t)
  {
    hide Track, Spare, Interrupted, Enter, Balance;
    var a, f := Enter(m, SemAlloc(passes)).0, FreeSem(m.sem, 0);
    AllocTrack(k, m, p, |m.port[p].readQ|, taken, passes);
    forall t | t in taken + {f} ensures Spare(a, p, t) { SpareSame(m, a, p, t); }
    HalfwayOn(k, a, p, taken + {f}, us);
    assert forall t :: t in taken + {f} ==> PassesOn(a, Interrupted(a, us), p, t);
  }

  lemma Stage3Is(k: Kern, w: Window)
    requires WF(k) && Roles(k) && Settled(k) && k.current != 0 && CanOpen(k) && Serials(w)
    ensures var p, f, m, r := ThePort(k), TheWriteSem(k), Stage1(k, w), Stage3(k, w);
            && Enter(m, SemAlloc(QUEUE_SIZE)).1 == Eax(f)
            && Halfway(k, r, p, {f}) && r.port[p].writeSid == f && Gained(m, r, p) >= 0
            && Balance(r.sem[f]) == QUEUE_SIZE + (if f == 0 then Gained(m, r, p) else 0)
            && r.semLog[f].initial == QUEUE_SIZE
  {
    hide Track, Spare, Interrupted, Enter, Balance, CanOpen;
    var p, f, m, n := ThePort(k), TheWriteSem(k), Stage1(k, w), Stage2(k, w);
    Stage1Is(k, w);
    NextSem(k, m, p, {});
    AllocHalfway(k, m, p, {}, QUEUE_SIZE, w.b);
    assert {} + {f as int} == {f as int};
    StoreTrack(k, n, p, |n.port[p].readQ|, {f}, f, 0);
    var o := WithPort(n, p, n.port[p].(writeSid := f));
    assert o == WithPort(n, p, n.port[p].(writeSid := f, readSid := 0));
    HalfwayOn(k, o, p, {f}, w.c);
  }

  lemma Stage4Is(k: Kern, w: Window)
    requires WF(k) && Roles(k) && Settled(k) && k.current != 0 && CanOpen(k) && Serials(w)
    ensures var p, f, t, m, r := ThePort(k), TheWriteSem(k), TheReadSem(k), Stage1(k, w), Stage4(k, w);
            && Enter(Stage3(k, w), SemAlloc(0)).1 == Eax(t)
            && Halfway(k, r, p, {f, t}) && r.port[p].writeSid == f && Gained(m, r, p) >= 0
            && Balance(r.sem[f]) == QUEUE_SIZE + (if f == 0 then Gained(m, r, p) else 0) && Balance(r.sem[t]) == 0
            && r.semLog[f].initial == QUEUE_SIZE && r.semLog[t].initial == 0
  {
    hide Track, Spare, Interrupted, Enter, Balance, CanOpen;
    var p, f, m := ThePort(k), TheWriteSem(k), Stage3(k, w);
    Stage3Is(k, w);
    NextSem(k, m, p, {f});
    AllocHalfway(k, m, p, {f}, 0, w.d);
    assert {f as int} + {TheReadSem(k) as int} == {f as int, TheReadSem(k) as int};
  }

  /** What is wrong just before the last store, whatever interrupts came when: a port that uses semaphore 0 has a
      pass too many for every character kept before read_sid was stored; so has the new port itself if semaphore 0
      is its own, but for those kept before that was allocated; and the receive semaphore has a pass for every
      character kept after. The semaphores are the new port's own all the same. */
  lemma WindowHarm(k: Kern, w: Window)
    requires WF(k) && Roles(k) && Settled(k) && k.current != 0 && CanOpen(k) && Serials(w)
    ensures var p, f, t, r := ThePort(k), TheWriteSem(k), TheReadSem(k), Stage5(k, w);
            && r.current == k.current && r.port[p].writeSid == f && r.port[p].readSid == t && Roles(r)
            && Settled(r)
            && Gained(Stage1(k, w), Stage4(k, w), p) >= 0 && Gained(Stage4(k, w), r, p) >= 0
            && (forall q :: Owned(k, q) ==> Surplus(k, r, q, |Stage4(k, w).port[p].readQ|))
            && WriteSlots(r, p) == QUEUE_SIZE + (if f == 0 then Gained(Stage1(k, w), Stage4(k, w), p) else 0)
            && Balance(r.sem[t]) == Gained(Stage4(k, w), r, p)
  {
    hide Amid, Spare, Interrupted, Enter, Surplus, CanOpen, Roles;
    var p, f, t, m := ThePort(k), TheWriteSem(k), TheReadSem(k), Stage4(k, w);
    Stage4Is(k, w);
    StoreTrack(k, m, p, |m.port[p].readQ|, {f, t}, f, t);
    var o := WithPort(m, p, m.port[p].(readSid := t));
    assert o == WithPort(m, p, m.port[p].(writeSid := f, readSid := t));
    InterruptsTrack(k, o, p, |m.port[p].readQ|, {f, t}, w.e);
    var r := Stage5(k, w);
    assert r.port[p].writeQ == [] by { AmidParts(r, p); }
    assert SpareBalance(o, r, p, t) && SpareBalance(o, r, p, f);
    assert SameUse(o, r, t) && SameUse(o, r, f) && SameLabels(o, r, p);
    InAllRoles(r, p);
    forall q ensures !Opening(r, q) { if Owned(r, q) && q != p { assert !Opening(k, q) && SameLabels(k, r, q); } }
  }

  /** Ports in use, and one more whose semaphores serve no other. */
  lemma InAllRoles(r: Kern, p: int)
    requires WF(r) && IsPort(p) && Amid(r, p) && Role(r, p)
    requires Spare(r, p, r.port[p].writeSid) && Spare(r, p, r.port[p].readSid)
    ensures Roles(r)
  {
  }

  lemma AmidParts(r: Kern, p: int)
    requires WF(r) && IsPort(p) && Amid(r, p)
    ensures r.port[p].writeQ == [] && r.current != 0
  {
  }

  // ---- what holds between kernel entries holds here too ------------------------------------------

  lemma {:induction false} InterruptsKeep(k: Kern, us: seq<seq<Uart>>)
    requires KernelInv(k) && k.current != 0 && Irqs(us)
    ensures KernelInv(Interrupted(k, us)) && Interrupted(k, us).current != 0
  {
    hide KernelInv, Enter;
    if us != [] {
      InvParts(k);
      InterruptsKeep(k, us[..|us| - 1]);
      InvParts(Interrupted(k, us[..|us| - 1]));
      EnterKeeps(Interrupted(k, us[..|us| - 1]), PortIrq(us[|us| - 1]));
    }
  }

  lemma TrapKeeps(k: Kern, t: Trap, us: seq<seq<Uart>>)
    requires KernelInv(k) && k.current != 0 && TrapWF(t) && !t.SemWait? && Irqs(us)
    ensures var r := Interrupted(Enter(k, t).0, us); KernelInv(r) && r.current != 0
  {
    hide KernelInv, Enter, Interrupted;
    InvParts(k);
    EnterKeeps(k, t);
    InterruptsKeep(Enter(k, t).0, us);
  }

  lemma StoreKeeps(k: Kern, p: int, x: int, y: int, us: seq<seq<Uart>>)
    requires KernelInv(k) && k.current != 0 && IsPort(p) && IsSid(x) && IsSid(y) && Irqs(us)
    ensures var r := Interrupted(WithPort(k, p, k.port[p].(writeSid := x, readSid := y)), us);
            KernelInv(r) && r.current != 0
  {
    hide KernelInv, Interrupted;
    InvParts(k);
    Relabel(k, p, x, y);
    InterruptsKeep(WithPort(k, p, k.port[p].(writeSid := x, readSid := y)), us);
  }

  lemma Stage5Keeps(k: Kern, w: Window)
    requires KernelInv(k) && k.current != 0 && CanOpen(k) && Serials(w)
    ensures KernelInv(Stage5(k, w))
  {
    hide KernelInv, Enter, Interrupted, CanOpen;
    InvParts(k);
    var p := ThePort(k);
    TrapKeeps(k, PortAlloc, w.a);
    TrapKeeps(Stage1(k, w), SemAlloc(QUEUE_SIZE), w.b);
    var m := Stage2(k, w);
    var d := m.port[p];
    assert d.(writeSid := TheWriteSem(k)) == d.(writeSid := TheWriteSem(k), readSid := d.readSid);
    Labels(m, p);
    StoreKeeps(m, p, TheWriteSem(k), d.readSid, w.c);
    TrapKeeps(Stage3(k, w), SemAlloc(0), w.d);
    var n := Stage4(k, w);
    var e := n.port[p];
    assert e.(readSid := TheReadSem(k)) == e.(writeSid := e.writeSid, readSid := TheReadSem(k));
    Labels(n, p);
    StoreKeeps(n, p, e.writeSid, TheReadSem(k), w.e);
  }

  lemma Labels(k: Kern, p: int)
    requires WF(k) && IsPort(p)
    ensures IsSid(k.port[p].writeSid) && IsSid(k.port[p].readSid)
  {
    Bounds(k);
  }

  // ---- what the receive queue of the new port holds ----------------------------------------------

  /** How many characters come in for port p. */
  function Heard(us: seq<seq<Uart>>, p: int): (n: nat)
    requires Irqs(us) && IsPort(p)
    ensures n == 0 <==> forall i :: 0 <= i < |us| ==> !us[i][p].RxReady?
  {
    if us == [] then 0
    else Heard(us[..|us| - 1], p) + if us[|us| - 1][p].RxReady? then 1 else 0
  }

  /** Before read_sid is stored. */
  function HeardBefore(w: Window, p: int): (n: nat)
    requires Serials(w) && IsPort(p)
  {
    Heard(w.a, p) + Heard(w.b, p) + Heard(w.c, p) + Heard(w.d, p)
  }

  /** In the whole window. */
  function HeardInAll(w: Window, p: int): (n: nat)
    requires Serials(w) && IsPort(p)
  {
    HeardBefore(w, p) + Heard(w.e, p)
  }

  /** A queue keeps what fits. */
  function Capped(n: nat): nat { if n < QUEUE_SIZE then n else QUEUE_SIZE }

  /** From k to r the live port p has received n characters. */
  predicate Fills(k: Kern, r: Kern, p: int, n: nat)
    requires WF(k) && WF(r) && IsPort(p)
  {
    k.port[p].owner != 0 && r.port[p].owner == k.port[p].owner && |r.port[p].readQ| == Capped(|k.port[p].readQ| + n)
  }

  lemma FillsOn(k: Kern, m: Kern, r: Kern, p: int, a: nat, b: nat)
    requires WF(k) && WF(m) && WF(r) && IsPort(p) && Fills(k, m, p, a) && Fills(m, r, p, b)
    ensures Fills(k, r, p, a + b)
  {
  }

  lemma WriteOneFills(k: Kern, p: int, x: int)
    requires WF(k) && Owned(k, p) && IsPort(x)
    ensures Fills(k, PortWriteOne(k, x), p, 0)
  {
  }

  lemma ReadOneFills(k: Kern, p: int, x: int, raw: int)
    requires WF(k) && Owned(k, p) && IsPort(x)
    ensures Fills(k, PortReadOne(k, x, raw), p, if x == p then 1 else 0)
  {
    hide EnqueuedAll;
  }

  lemma ServiceFills(k: Kern, p: int, x: int, u: Uart)
    requires WF(k) && Owned(k, p) && IsPort(x)
    ensures Fills(k, PortService(k, x, u), p, if x == p && u.RxReady? then 1 else 0)
  {
    hide PortReadOne, PortWriteOne;
    if k.port[x].owner != 0 {
      var k1 := if u.RxReady? then PortReadOne(k, x, u.raw) else k;
      if u.RxReady? { ReadOneFills(k, p, x, u.raw); }
      var k2 := if u.TxReady? then PortWriteOne(k1, x) else k1;
      WriteOneFills(k1, p, x);
      WriteOneFills(k2, p, x);
    }
  }

  lemma {:induction false} HandlerFills(k: Kern, p: int, uart: seq<Uart>, x: nat)
    requires WF(k) && Owned(k, p) && |uart| == PORT_NUM && x <= PORT_NUM
    ensures Fills(k, PortHandler(k, uart, x), p, if x <= p && uart[p].RxReady? then 1 else 0)
    decreases PORT_NUM - x
  {
    hide PortService;
    if x < PORT_NUM {
      ServiceFills(k, p, x, uart[x]);
      HandlerFills(PortService(k, x, uart[x]), p, uart, x + 1);
    }
  }

  lemma {:induction false} InterruptsFill(k: Kern, p: int, us: seq<seq<Uart>>)
    requires WF(k) && Owned(k, p) && Irqs(us)
    ensures Fills(k, Interrupted(k, us), p, Heard(us, p))
  {
    hide PortHandler;
    if us != [] {
      var m, u := Interrupted(k, us[..|us| - 1]), us[|us| - 1];
      InterruptsFill(k, p, us[..|us| - 1]);
      HandlerFills(m, p, u, 0);
    }
  }

  /** Neither an allocation nor a store touches the receive queue. */
  lemma AllocFills(k: Kern, p: int, passes: int)
    requires WF(k) && Owned(k, p)
    ensures Fills(k, Enter(k, SemAlloc(passes)).0, p, 0)
  {
  }

  lemma StoreFills(k: Kern, p: int, x: int, y: int)
    requires WF(k) && Owned(k, p) && IsSid(x) && IsSid(y)
    ensures Fills(k, WithPort(k, p, k.port[p].(writeSid := x)), p, 0)
    ensures Fills(k, WithPort(k, p, k.port[p].(readSid := y)), p, 0)
  {
  }

  /** The new port keeps what comes in for it, as far as it fits. */
  lemma WindowKept(k: Kern, w: Window)
    requires WF(k) && k.current != 0 && CanOpen(k) && Serials(w)
    ensures var p := ThePort(k);
            && |Stage1(k, w).port[p].readQ| == Capped(Heard(w.a, p))
            && |Stage4(k, w).port[p].readQ| == Capped(HeardBefore(w, p))
            && |Stage5(k, w).port[p].readQ| == Capped(HeardInAll(w, p))
  {
    hide Enter, Interrupted, CanOpen;
    var p, f, t := ThePort(k), TheWriteSem(k), TheReadSem(k);
    var k1, k2, k3, k4 := Stage1(k, w), Stage2(k, w), Stage3(k, w), Stage4(k, w);
    var o := Enter(k, PortAlloc).0;
    JustOpened(k);
    InterruptsFill(o, p, w.a);
    AllocFills(k1, p, QUEUE_SIZE);
    InterruptsFill(Enter(k1, SemAlloc(QUEUE_SIZE)).0, p, w.b);
    StoreFills(k2, p, f, t);
    InterruptsFill(WithPort(k2, p, k2.port[p].(writeSid := f)), p, w.c);
    AllocFills(k3, p, 0);
    InterruptsFill(Enter(k3, SemAlloc(0)).0, p, w.d);
    StoreFills(k4, p, f, t);
    InterruptsFill(WithPort(k4, p, k4.port[p].(readSid := t)), p, w.e);
    assert Fills(o, k4, p, HeardBefore(w, p));
  }

  lemma JustOpened(k: Kern)
    requires WF(k) && k.current != 0 && CanOpen(k)
    ensures var r, p := Enter(k, PortAlloc).0, ThePort(k); Owned(r, p) && r.port[p].readQ == []
  {
  }

  // ---- exactly when the window does no harm ------------------------------------------------------

  /** The last store of the call. */
  function Cut(r: Kern, p: int): (n: Kern)
    requires WF(r) && IsPort(p)
    ensures WF(n)
  {
    WithPort(r, p, r.port[p].(readQ := []))
  }

  /** What a call with no interrupts in it leaves behind: everything that holds between kernel entries, the order of
      the receive queue, which lies in memory as ring, and the right sums for every port. */
  ghost predicate AsOpened(k: Kern, r: Kern, ring: Ring)
    requires WF(k) && WF(r) && CanOpen(k) && Shaped(ring)
  {
    var p, n := ThePort(k), Cut(r, ThePort(k));
    && KernelInv(n) && Roles(n) && Settled(n) && InOrder(ring.(size := 0), n.port[p].readQ)
    && WriteSlots(n, p) == QUEUE_SIZE && ReadSlots(n, p) == 0
    && forall q :: Owned(k, q) ==> WriteSlots(n, q) == WriteSlots(k, q) && ReadSlots(n, q) == ReadSlots(k, q)
  }

  lemma CutStream(d: Port, l: PortLog)
    requires StreamOk(d, l)
    ensures StreamOk(d.(readQ := []), l) <==> d.readQ == []
  {
    assert l.delivered + [] == l.delivered;
    assert |l.delivered + d.readQ| == |l.delivered| + |d.readQ|;
  }

  /** The queue of the new port comes out in order exactly when no character comes in for it in the window, or a queue
      full of them. All is as it should be exactly when none does. */
  lemma WindowExactly(k: Kern, w: Window, ring: Ring)
    requires KernelInv(k) && Roles(k) && Settled(k) && k.current != 0 && CanOpen(k) && Serials(w)
    requires Holds(ring, Stage5(k, w).port[ThePort(k)].readQ)
    ensures var heard := HeardInAll(w, ThePort(k));
            && (InOrder(ring.(size := 0), []) <==> heard == 0 || heard >= QUEUE_SIZE)
            && (AsOpened(k, Stage5(k, w), ring) <==> heard == 0)
  {
    hide Stage1, Stage4, Stage5, InOrder, StreamOk, CanOpen, Holds, KernelInv, Roles, Settled, AsOpened;
    InvParts(k);
    var p, r := ThePort(k), Stage5(k, w);
    WindowKept(k, w);
    Sized(ring, r.port[p].readQ);
    CutInOrder(ring, r.port[p].readQ);
    Stage5Keeps(k, w);
    WindowHarm(k, w);
    if HeardInAll(w, p) == 0 {
      NothingCut(k, r, ring);
    } else if AsOpened(k, r, ring) {
      CutLoses(k, r, ring);
    }
  }

  lemma NothingCut(k: Kern, r: Kern, ring: Ring)
    requires WF(k) && KernelInv(r) && Roles(r) && Settled(r) && CanOpen(k)
    requires Shaped(ring) && InOrder(ring.(size := 0), [])
    requires r.port[ThePort(k)].readQ == [] && r.port[ThePort(k)].readSid == TheReadSem(k)
    requires WriteSlots(r, ThePort(k)) == QUEUE_SIZE && Balance(r.sem[TheReadSem(k)]) == 0
    requires forall q :: Owned(k, q) ==> Surplus(k, r, q, 0)
    ensures AsOpened(k, r, ring)
  {
    hide InOrder, CanOpen, KernelInv, Roles, Settled;
    InvParts(r);
    var p := ThePort(k);
    assert r.port[p].(readQ := []) == r.port[p] && r.port[p := r.port[p]] == r.port;
    assert Cut(r, p) == r;
    forall q | Owned(k, q) ensures WriteSlots(r, q) == WriteSlots(k, q) && ReadSlots(r, q) == ReadSlots(k, q) {
      assert Surplus(k, r, q, 0);
    }
  }

  /** Cutting a queue with something in it breaks the stream law. */
  lemma CutLoses(k: Kern, r: Kern, ring: Ring)
    requires WF(k) && KernelInv(r) && CanOpen(k) && Shaped(ring) && AsOpened(k, r, ring)
    ensures r.port[ThePort(k)].readQ == []
  {
    hide KernelInv, Roles, Settled, InOrder, CanOpen, StreamOk;
    var p := ThePort(k);
    InvStream(r, p);
    InvStream(Cut(r, p), p);
    CutStream(r.port[p], r.portLog[p]);
  }

  // ---- a silent window is a run of the protocol --------------------------------------------------

  /** Port p is the only one PortAlloc is at work on. */
  ghost predicate OnlyOpens(s: Sys, p: int)
    requires Live(s)
  {
    OpensAt(s.k, p) && CutsAt(s, p)
  }

  ghost predicate OpensAt(k: Kern, p: int)
    requires WF(k)
  {
    forall q :: Opening(k, q) ==> q == p
  }

  predicate CutsAt(s: Sys, p: int)
    requires Live(s)
  {
    forall i :: 0 <= i < PROC_NUM && s.prog[i].OpenAtCut? ==> s.prog[i].port == p
  }

  /** The running process of s at g, with the kernel at k. */
  function Amidst(s: Sys, k: Kern, g: Prog): Sys
    requires Live(s)
  {
    Sys(k, s.prog[s.k.current := g])
  }

  /** In order, with the process of s still running, and nothing opened but p. */
  ghost predicate Going(s: Sys, n: Sys, p: int)
    requires Live(s)
  {
    SysInv(n) && Live(n) && n.k.current == s.k.current && OnlyOpens(n, p)
  }

  lemma SilentStep(s: Sys, u: seq<Uart>, p: int)
    requires SysInv(s) && Live(s) && OnlyOpens(s, p) && IsPort(p) && |u| == PORT_NUM && !u[p].RxReady?
    ensures var r := Sys(Enter(s.k, PortIrq(u)).0, s.prog); Going(s, r, p)
  {
    hide SysInv, PortHandler;
    SilentKeeps(s, u, p);
    HandlerStays(s.k, u, 0);
    assert s.prog[s.k.current := Me(s)] == s.prog;
    StepKeeps(s, Serial(u));
  }

  lemma SilentKeeps(s: Sys, u: seq<Uart>, p: int)
    requires SysInv(s) && Live(s) && OnlyOpens(s, p) && IsPort(p) && |u| == PORT_NUM && !u[p].RxReady?
    ensures Enabled(s, Serial(u)) && OpensAt(PortHandler(s.k, u, 0), p)
  {
    hide KernelInv, Roles, Carries, Leaves, TokensOk, PortHandler;
    HandlerCarries(s.k, u, 0);
    LeavesBlanks(s.k, PortHandler(s.k, u, 0), -1);
  }

  lemma {:induction false} SilentRun(s: Sys, us: seq<seq<Uart>>, p: int)
    requires SysInv(s) && Live(s) && OnlyOpens(s, p) && IsPort(p) && Irqs(us) && Heard(us, p) == 0
    ensures Going(s, Sys(Interrupted(s.k, us), s.prog), p)
  {
    hide SysInv, Enter;
    if us != [] {
      SilentRun(s, us[..|us| - 1], p);
      SilentStep(Sys(Interrupted(s.k, us[..|us| - 1]), s.prog), us[|us| - 1], p);
    }
  }

  /** One event of the call, which leaves the kernel at k and the process at g, with the interrupts after it. */
  lemma SilentEvent(s: Sys, e: Event, k: Kern, g: Prog, us: seq<seq<Uart>>, p: int)
    requires SysInv(s) && Live(s) && Enabled(s, e) && WF(k) && k.current == s.k.current && Next(s, e) == Amidst(s, k, g)
    requires OpensAt(k, p) && CutsAt(s, p) && (g.OpenAtCut? ==> g.port == p)
    requires IsPort(p) && Irqs(us) && Heard(us, p) == 0
    ensures Going(s, Amidst(s, Interrupted(k, us), g), p)
  {
    hide SysInv, Enabled, Next, Interrupted, OpensAt;
    StepKeeps(s, e);
    SilentRun(Amidst(s, k, g), us, p);
  }

  /** Nobody is opening a port, the running process is about to, and no character comes in for it. */
  ghost predicate SilentStart(s: Sys, w: Window) {
    && SysInv(s) && Live(s) && Me(s).Elsewhere? && CanOpen(s.k) && Settled(s.k) && Serials(w)
    && (forall i :: 0 <= i < PROC_NUM ==> !s.prog[i].OpenAtCut?) && HeardInAll(w, ThePort(s.k)) == 0
  }

  lemma Silent1(s: Sys, w: Window)
    requires SilentStart(s, w)
    ensures Going(s, Amidst(s, Stage1(s.k, w), OpenAtWrite(ThePort(s.k))), ThePort(s.k))
  {
    hide SysInv, Interrupted, Enter, PortAllocHandler, Going;
    var p := ThePort(s.k);
    var k := Enter(s.k, PortAlloc).0;
    EntersAlloc(s.k, 0);
    NewPortIs(s.k, p);
    OpenPortIs(s, p);
    SilentEvent(s, OpenPort, k, OpenAtWrite(p), w.a, p);
  }

  lemma OpenPortIs(s: Sys, p: int)
    requires Live(s) && Me(s).Elsewhere? && CanOpen(s.k) && Settled(s.k) && p == ThePort(s.k)
    ensures var k := PortAllocHandler(s.k).0;
            && Enabled(s, OpenPort) && Next(s, OpenPort) == Amidst(s, k, OpenAtWrite(p))
            && k.current == s.k.current && OpensAt(k, p)
  {
    EntersAlloc(s.k, 0);
    NewPortIs(s.k, p);
    forall q ensures Opening(PortAllocHandler(s.k).0, q) ==> q == p { assert !Opening(s.k, q); }
  }

  lemma Silent2(s: Sys, w: Window)
    requires SilentStart(s, w)
    ensures Going(s, Amidst(s, Stage2(s.k, w), OpenGotWrite(ThePort(s.k), TheWriteSem(s.k))), ThePort(s.k))
  {
    hide SysInv, Interrupted, CanOpen, Halfway, Enter, OnlyOpens, Settled;
    var p := ThePort(s.k);
    var n := Amidst(s, Stage1(s.k, w), OpenAtWrite(p));
    Silent1(s, w);
    StartParts(s, w);
    Stage1Is(s.k, w);
    NextSem(s.k, n.k, p, {});
    GotSem(n, w.b, p, TheWriteSem(s.k));
    Moved(s, n, OpenGotWrite(p, TheWriteSem(s.k)));
  }

  lemma StartParts(s: Sys, w: Window)
    requires SilentStart(s, w)
    ensures WF(s.k) && Roles(s.k)
    ensures var p := ThePort(s.k); Heard(w.b, p) == Heard(w.c, p) == Heard(w.d, p) == Heard(w.e, p) == 0
  {
  }

  lemma Moved(s: Sys, n: Sys, g: Prog)
    requires Live(s) && Live(n) && n.k.current == s.k.current && n.prog == s.prog[s.k.current := Me(n)]
    ensures n.prog[s.k.current := g] == s.prog[s.k.current := g]
  {
  }

  /** Getting a semaphore. */
  lemma GotSem(n: Sys, us: seq<seq<Uart>>, p: int, f: int)
    requires SysInv(n) && Live(n) && OnlyOpens(n, p) && IsPort(p) && Irqs(us) && Heard(us, p) == 0
    requires (Me(n).OpenAtWrite? || Me(n).OpenAtRead?) && Me(n).port == p && f == FreeSem(n.k.sem, 0) < SEM_NUM
    ensures var k := Enter(n.k, SemAlloc(if Me(n).OpenAtWrite? then QUEUE_SIZE else 0)).0;
            Going(n, Amidst(n, Interrupted(k, us), AfterSem(Me(n), f)), p)
  {
    hide KernelInv, Roles, TokensOk, Blanks, Interrupted, Enter, SemAllocHandler, Going, ProgOk, OpenApart, Reserved;
    var passes := if Me(n).OpenAtWrite? then QUEUE_SIZE else 0;
    AllocIs(n.k, passes);
    assert ProgOk(n.k, Me(n));
    var k := Enter(n.k, SemAlloc(passes)).0;
    assert OpensAt(k, p) by { assert forall q :: Opening(k, q) ==> Opening(n.k, q); }
    SilentEvent(n, OpenSem, k, AfterSem(Me(n), f), us, p);
  }

  /** Storing it. */
  lemma StoredSem(n: Sys, us: seq<seq<Uart>>, p: int)
    requires SysInv(n) && Live(n) && OnlyOpens(n, p) && IsPort(p) && Irqs(us) && Heard(us, p) == 0
    requires (Me(n).OpenGotWrite? || Me(n).OpenGotRead?) && Me(n).port == p && ProgOk(n.k, Me(n))
    ensures var r := Stores(n, Me(n)); Going(n, Sys(Interrupted(r.k, us), r.prog), p)
  {
    hide KernelInv, Roles, TokensOk, Blanks, Interrupted, Going, OpenApart, Reserved;
    var r := Stores(n, Me(n));
    assert OpensAt(r.k, p) by { assert forall q :: Opening(r.k, q) && q != p ==> Opening(n.k, q); }
    SilentEvent(n, OpenStore, r.k, r.prog[n.k.current], us, p);
  }

  lemma Silent3(s: Sys, w: Window)
    requires SilentStart(s, w)
    ensures Going(s, Amidst(s, Stage3(s.k, w), OpenAtRead(ThePort(s.k))), ThePort(s.k))
  {
    hide KernelInv, Roles, TokensOk, Blanks, Interrupted, CanOpen, Enter, OpenApart, Reserved, OnlyOpens, Settled;
    var p, f := ThePort(s.k), TheWriteSem(s.k);
    var n := Amidst(s, Stage2(s.k, w), OpenGotWrite(p, f));
    Silent2(s, w);
    StartParts(s, w);
    assert ProgOk(n.k, n.prog[n.k.current]);
    StoredSem(n, w.c, p);
    Moved(s, n, OpenAtRead(p));
  }

  lemma Silent4(s: Sys, w: Window)
    requires SilentStart(s, w)
    ensures Going(s, Amidst(s, Stage4(s.k, w), OpenGotRead(ThePort(s.k), TheReadSem(s.k))), ThePort(s.k))
  {
    hide SysInv, Interrupted, CanOpen, Halfway, Enter, OnlyOpens, Settled;
    var p, t := ThePort(s.k), TheReadSem(s.k);
    var n := Amidst(s, Stage3(s.k, w), OpenAtRead(p));
    Silent3(s, w);
    StartParts(s, w);
    Stage3Is(s.k, w);
    NextSem(s.k, n.k, p, {TheWriteSem(s.k)});
    GotSem(n, w.d, p, t);
    Moved(s, n, OpenGotRead(p, t));
  }

  lemma Silent5(s: Sys, w: Window)
    requires SilentStart(s, w)
    ensures Going(s, Amidst(s, Stage5(s.k, w), OpenAtCut(ThePort(s.k))), ThePort(s.k))
  {
    hide KernelInv, Roles, TokensOk, Blanks, Interrupted, CanOpen, Enter, OpenApart, Reserved, OnlyOpens, Settled;
    var p, t := ThePort(s.k), TheReadSem(s.k);
    var n := Amidst(s, Stage4(s.k, w), OpenGotRead(p, t));
    Silent4(s, w);
    StartParts(s, w);
    assert ProgOk(n.k, n.prog[n.k.current]);
    StoredSem(n, w.e, p);
    Moved(s, n, OpenAtCut(p));
  }

  lemma LastStore(n: Sys, p: int)
    requires SysInv(n) && Live(n) && Me(n) == OpenAtCut(p) && IsPort(p)
    ensures SysInv(Amidst(n, Cut(n.k, p), Elsewhere))
  {
    hide KernelInv, Roles, TokensOk, Blanks, OpenApart, Reserved;
    assert ProgOk(n.k, n.prog[n.k.current]);
    StepKeeps(n, OpenStore);
  }

  /** With nothing coming in for the new port every trap, store and interrupt of the call is a step of Protocol: its
      invariant holds when the call returns, and its theorems go on from there. */
  lemma SilentWindow(s: Sys, w: Window)
    requires SilentStart(s, w)
    ensures SysInv(Sys(Cut(Stage5(s.k, w), ThePort(s.k)), s.prog))
  {
    hide SysInv, Roles, CanOpen, OnlyOpens, Settled, Stage5, HeardInAll, Irqs;
    var p := ThePort(s.k);
    var n := Amidst(s, Stage5(s.k, w), OpenAtCut(p));
    Silent5(s, w);
    LastStore(n, p);
    Moved(s, n, Elsewhere);
    assert s.prog[s.k.current := Elsewhere] == s.prog;
  }
}
