/** What a character that comes in while PortAlloc of 9.serialport/src/syscall.c is at work leads to: both panics of
    the serial driver, from boot. */
module OpeningPanics {
  import opened Queue
  import opened KernelSpec
  import opened Pids
  import opened Laws
  import opened Tokens
  import opened Protocol
  import opened OpeningWindow

  // ---- the call undisturbed --------------------------------------------------------------------

  /** PortAlloc, told at once: one port and two semaphores change hands. */
  lemma OpenedPort(k: Kern)
    requires WF(k) && k.current != 0 && CanOpen(k)
    ensures var r := PortAllocated(k);
            var p := FreePort(k.port, 0);
            var w := FreeSem(k.sem, 0);
            var t := FreeSem(k.sem, w + 1);
            && r.port == k.port[p := Port(k.current, w, t, 1, [], [], [], [])] && r.current == k.current
            && r.sem == k.sem[w := Sem(k.current, QUEUE_SIZE, [])][t := Sem(k.current, 0, [])]
            && r.semLog == k.semLog[w := SemLog(QUEUE_SIZE, 0, 0, [], [])][t := SemLog(0, 0, 0, [], [])]
  {
    hide Enter, SemAllocHandler;
    EntersAlloc(k, 0);
    var k1 := Enter(k, PortAlloc).0;
    AllocIs(k1, QUEUE_SIZE);
    var w := FreeSem(k.sem, 0);
    var one := k.sem[w := Sem(k.current, QUEUE_SIZE, [])];
    NextFree(k.sem, w, one, 0);
    var k2 := Enter(k1, SemAlloc(QUEUE_SIZE)).0;
    var p := FreePort(k.port, 0);
    AllocIs(WithPort(k2, p, k2.port[p].(writeSid := w)), 0);
  }

  lemma OpenRole(k: Kern, q: int)
    requires WF(k) && Roles(k) && k.current != 0 && CanOpen(k) && InUse(PortAllocated(k), q)
    ensures Role(PortAllocated(k), q)
  {
    hide PortAllocated, CanOpen;
    OpenedPort(k);
    if q != FreePort(k.port, 0) { assert InUse(k, q) && Role(k, q); }
  }

  lemma OpenRolesApart(k: Kern, q: int, t: int)
    requires WF(k) && Roles(k) && k.current != 0 && CanOpen(k)
    requires InUse(PortAllocated(k), q) && InUse(PortAllocated(k), t) && q != t
    ensures RolesApart(PortAllocated(k), q, t)
  {
    hide PortAllocated, CanOpen;
    OpenedPort(k);
    var p := FreePort(k.port, 0);
    if q != p { assert InUse(k, q) && Role(k, q); }
    if t != p { assert InUse(k, t) && Role(k, t); }
    if q != p && t != p { assert RolesApart(k, q, t); }
  }

  lemma OpenRoles(k: Kern)
    requires WF(k) && Roles(k) && k.current != 0 && CanOpen(k)
    ensures Roles(PortAllocated(k))
  {
    var r := PortAllocated(k);
    forall q | InUse(r, q) ensures Role(r, q) { OpenRole(k, q); }
    forall q, t | InUse(r, q) && InUse(r, t) && q != t ensures RolesApart(r, q, t) { OpenRolesApart(k, q, t); }
  }

  // ---- a pass for a character that is gone -------------------------------------------------------

  /** With a pass at hand and nothing queued a reader gets past its wait and finds the queue empty. */
  lemma PassButEmpty(k: Kern, p: int, t: int)
    requires WF(k) && k.current != 0 && IsPort(p) && IsSid(t) && Balance(k.sem[t]) > 0 && k.port[p].readQ == []
    ensures var m := Enter(k, SemWait(t)).0;
            && m.current == k.current && m.port[p].readQ == [] && PortReadHandler(m, p) == (m, NoReply)
  {
  }

  /** A character that comes in after read_sid was stored, and finds room, leads there: to the panic of
      PortReadHandler. */
  lemma EmptyQueueReached(k: Kern, w: Window)
    requires WF(k) && Roles(k) && Settled(k) && k.current != 0 && CanOpen(k) && Serials(w)
    requires HeardBefore(w, ThePort(k)) < QUEUE_SIZE && Heard(w.e, ThePort(k)) > 0
    ensures var p := ThePort(k);
            var m := Enter(Cut(Stage5(k, w), p), SemWait(TheReadSem(k))).0;
            && m.current == k.current && m.port[p].readQ == [] && PortReadHandler(m, p) == (m, NoReply)
  {
    hide Stage4, Stage5, CanOpen, Surplus, WriteSlots, Enter, Balance, Roles, Settled;
    WindowKept(k, w);
    WindowHarm(k, w);
    var p, r := ThePort(k), Stage5(k, w);
    PassButEmpty(Cut(r, p), p, TheReadSem(k));
  }

  /** One byte comes in for port 0 once read_sid is stored. */
  function LateByte(raw: int): (w: Window)
    ensures Serials(w)
  {
    Window([], [], [], [], [[RxReady(raw), NoCause, NoCause]])
  }

  lemma BootRoles(n: nat)
    requires 1 <= n < PROC_NUM
    ensures var b := Booted(n);
            && WF(b) && b.current == 1 && Roles(b) && Settled(b) && CanOpen(b) && ThePort(b) == 0
  {
    hide Booted;
    BootEstablishes(n);
    var b := Booted(n);
    assert FreeSem(b.sem, 0) == 0 && FreeSem(b.sem, 1) == 1 && FreePort(b.port, 0) == 0;
    NoneOpen(b);
  }

  /** So it is from boot, with one byte for the first port opened. */
  lemma EmptyFromBoot(n: nat, raw: int)
    requires 1 <= n < PROC_NUM
    ensures CanOpen(Booted(n)) && ThePort(Booted(n)) == 0
    ensures var r := Stage5(Booted(n), LateByte(raw));
            var m := Enter(Cut(r, 0), SemWait(r.port[0].readSid)).0;
            && m.current == 1 && m.port[0].readQ == [] && PortReadHandler(m, 0) == (m, NoReply)
  {
    hide Booted, Stage5, Enter, Roles, Settled;
    var b, w := Booted(n), LateByte(raw);
    BootRoles(n);
    WindowHarm(b, w);
    assert w.e[..0] == [];
    EmptyQueueReached(b, w);
  }

  // ---- one pass too many -------------------------------------------------------------------------

  /** Port 0 has i characters queued each way, semaphore 0 is its transmit semaphore and has a pass more than
      there is room; the other ports have nothing to send but echo. */
  predicate Flooding(k: Kern, i: nat)
    requires WF(k)
  {
    var d := k.port[0];
    && k.current != 0 && d.owner != 0 && d.writeOk != 0 && d.writeSid == 0 && d.readSid == 1
    && |d.writeQ| == |d.readQ| == i && d.loopbackQ == [] && k.sem[0].passes >= QUEUE_SIZE + 1 - i
    && k.port[1].writeQ == [] && k.port[2].writeQ == []
  }

  /** A return typed at the terminal of port 0. */
  function Typed(): seq<Uart> { [RxReady(CR), NoCause, NoCause] }

  /** A return comes in, and PortWrite sends a character: its echo still waits, so the character stays queued. */
  function Round(k: Kern, ch: int): (r: Kern)
    requires WF(k) && -128 <= ch < 128
    ensures WF(r)
  {
    Enter(Enter(Enter(k, PortIrq(Typed())).0, SemWait(0)).0, PortWrite(ch, 0)).0
  }

  function Rounds(k: Kern, ch: int, i: nat): (r: Kern)
    requires WF(k) && -128 <= ch < 128
    ensures WF(r)
  {
    if i == 0 then k else Round(Rounds(k, ch, i - 1), ch)
  }

  /** A port with only echo to send posts nothing. */
  lemma EchoServed(k: Kern, x: int)
    requires WF(k) && IsPort(x) && k.port[x].writeQ == []
    ensures var r := PortService(k, x, NoCause);
            && r.sem == k.sem && r.current == k.current && r.port[x].writeQ == []
            && forall q :: IsPort(q) && q != x ==> r.port[q] == k.port[q]
  {
  }

  lemma ReturnComes(k: Kern, i: nat)
    requires WF(k) && Flooding(k, i) && i < QUEUE_SIZE
    ensures var r := PortService(k, 0, RxReady(CR));
            && r.current == k.current && r.sem[0] == k.sem[0] && r.port[1..] == k.port[1..]
            && r.port[0].readQ == k.port[0].readQ + [CR] && r.port[0].loopbackQ == [LF]
            && r.port[0].writeQ == k.port[0].writeQ && r.port[0].owner == k.port[0].owner
            && r.port[0].writeOk == k.port[0].writeOk && r.port[0].writeSid == 0 && r.port[0].readSid == 1
  {
    hide EnqueuedAll;
    EchoQueued([], CR);
    var m := PortReadOne(k, 0, CR);
    assert m.port[0].loopbackQ == [CR, LF];
    assert Dequeued([CR, LF]) == [LF];
  }

  lemma ReturnServed(k: Kern, i: nat)
    requires WF(k) && Flooding(k, i) && i < QUEUE_SIZE
    ensures var r, d := Enter(k, PortIrq(Typed())).0, k.port[0];
            && r.current == k.current && r.sem[0] == k.sem[0]
            && r.port[0].readQ == d.readQ + [CR] && r.port[0].loopbackQ == [LF] && r.port[0].writeQ == d.writeQ
            && r.port[0].owner == d.owner && r.port[0].writeOk == d.writeOk
            && r.port[0].writeSid == 0 && r.port[0].readSid == 1
            && r.port[1].writeQ == [] && r.port[2].writeQ == []
  {
    hide PortService, Flooding;
    ReturnComes(k, i);
    assert k.port[1].writeQ == [] && k.port[2].writeQ == [] && k.current != 0 by { Quiets(k, i); }
    var a := PortService(k, 0, RxReady(CR));
    assert a.port[1] == a.port[1..][0] && a.port[2] == a.port[1..][1];
    var b := PortService(a, 1, NoCause);
    EchoServed(a, 1);
    EchoServed(b, 2);
    var c := PortService(b, 2, NoCause);
    assert PortHandler(c, Typed(), 3) == c;
    assert PortHandler(b, Typed(), 2) == c;
    assert PortHandler(a, Typed(), 1) == c;
    assert PortHandler(k, Typed(), 0) == c;
  }

  lemma Quiets(k: Kern, i: nat)
    requires WF(k) && Flooding(k, i)
    ensures k.port[1].writeQ == [] && k.port[2].writeQ == [] && k.current != 0
  {
  }

  lemma RoundFills(k: Kern, ch: int, i: nat)
    requires WF(k) && Flooding(k, i) && i < QUEUE_SIZE && -128 <= ch < 128
    ensures Flooding(Round(k, ch), i + 1) && Round(k, ch).current == k.current
  {
    hide PortHandler;
    ReturnServed(k, i);
  }

  lemma {:induction false} RoundsFill(k: Kern, ch: int, i: nat)
    requires WF(k) && Flooding(k, 0) && i <= QUEUE_SIZE && -128 <= ch < 128
    ensures Flooding(Rounds(k, ch, i), i) && Rounds(k, ch, i).current == k.current
  {
    hide Flooding, Round;
    if i > 0 {
      RoundsFill(k, ch, i - 1);
      RoundFills(Rounds(k, ch, i - 1), ch, i - 1);
    }
  }

  /** One byte comes in for port 1 right after the trap that makes it live. */
  function OneByte(raw: int): (w: Window)
    ensures Serials(w)
  {
    Window([[NoCause, RxReady(raw), NoCause]], [], [], [], [])
  }

  /** After boot process 1 opens port 0, with no byte in between, and then port 1, with one. */
  function Opened0(n: nat): (k: Kern)
    requires 1 <= n < PROC_NUM
    ensures WF(k) && k.current == 1 && CanOpen(k) && Roles(k)
    ensures ThePort(k) == 1 && TheWriteSem(k) == 2
    ensures k.port[0] == Port(1, 0, 1, 1, [], [], [], []) && k.port[2].owner == 0 && k.port[2].writeQ == []
    ensures k.sem[0] == Sem(1, QUEUE_SIZE, [])
  {
    FirstOpens(n);
    PortAllocated(Booted(n))
  }

  lemma FirstFree(b: Kern)
    requires WF(b) && b.sem == Zeroed().sem && b.port == Zeroed().port
    ensures FreeSem(b.sem, 0) == 0 && FreeSem(b.sem, 1) == 1 && FreePort(b.port, 0) == 0
  {
  }

  /** What is free once port 0 and semaphores 0 and 1 are taken. */
  lemma NextFrees(k: Kern)
    requires WF(k) && k.port[0].owner != 0 && k.port[1].owner == 0 && k.sem[0].owner != 0 && k.sem[1].owner != 0
    requires k.sem[2].owner == 0 && k.sem[3].owner == 0
    ensures CanOpen(k) && ThePort(k) == 1 && TheWriteSem(k) == 2
  {
    assert FreeSem(k.sem, 2) == 2 && FreeSem(k.sem, 3) == 3;
    assert FreeSem(k.sem, 1) == 2;
    assert FreePort(k.port, 1) == 1;
  }

  lemma FirstOpens(n: nat)
    requires 1 <= n < PROC_NUM
    ensures var b := Booted(n);
            && b.current == 1 && CanOpen(b)
            && var k := PortAllocated(b);
               && k.current == 1 && Roles(k) && k.port[0] == Port(1, 0, 1, 1, [], [], [], [])
               && k.port[2].owner == 0 && k.port[2].writeQ == [] && k.sem[0] == Sem(1, QUEUE_SIZE, [])
               && CanOpen(k) && ThePort(k) == 1 && TheWriteSem(k) == 2
  {
    hide Booted, PortAllocated, Roles, Settled, KernelInv, CanOpen;
    BootEstablishes(n);
    BootRoles(n);
    var b := Booted(n);
    OpenRoles(b);
    OpenedPort(b);
    FirstFree(b);
    NextFrees(PortAllocated(b));
  }

  /** The interrupt that brings the byte: it posts semaphore 0. */
  lemma ByteComes(k: Kern, raw: int)
    requires WF(k) && k.current != 0
    requires k.port[0] == Port(1, 0, 1, 1, [], [], [], []) && k.sem[0] == Sem(1, QUEUE_SIZE, [])
    requires k.port[1].readSid == 0 && k.port[1].readQ == [] && k.port[1].writeQ == [] && k.port[1].owner != 0
    requires k.port[2].owner == 0
    ensures var r := Enter(k, PortIrq([NoCause, RxReady(raw), NoCause])).0;
            && r.current == k.current && r.port[0] == k.port[0] && r.port[2] == k.port[2]
            && |r.port[1].readQ| == 1 && r.port[1].writeQ == [] && r.sem[0] == Sem(1, QUEUE_SIZE + 1, [])
  {
    hide PortReadOne;
    var u := [NoCause, RxReady(raw), NoCause];
    assert PortService(k, 0, NoCause) == k.(port := k.port[0 := k.port[0].(writeOk := 1)]);
    assert PortService(k, 0, NoCause) == k;
    var a := PortReadOne(k, 1, raw);
    ByteKept(k, raw);
    var b := PortService(k, 1, RxReady(raw));
    assert PortService(b, 2, NoCause) == b;
    assert PortHandler(b, u, 3) == b;
    assert PortHandler(b, u, 2) == b;
    assert PortHandler(k, u, 1) == b;
    assert PortHandler(k, u, 0) == b;
  }

  lemma ByteKept(k: Kern, raw: int)
    requires WF(k) && k.sem[0].waitQ == [] && k.port[1].readSid == 0 && k.port[1].readQ == [] && k.port[1].writeQ == []
    ensures var r := PortReadOne(k, 1, raw);
            && r.current == k.current && r.port[0] == k.port[0] && r.port[2] == k.port[2]
            && |r.port[1].readQ| == 1 && r.port[1].writeQ == [] && r.port[1].owner == k.port[1].owner
            && r.sem[0] == k.sem[0].(passes := k.sem[0].passes + 1)
  {
    hide EnqueuedAll;
  }

  lemma AllocsElsewhere(k: Kern, passes: int)
    requires WF(k) && k.current != 0 && k.sem[0].owner != 0
    ensures var r := Enter(k, SemAlloc(passes)).0; r.current == k.current && r.port == k.port && r.sem[0] == k.sem[0]
  {
  }

  /** Both ports open. */
  function BothOpen(n: nat, raw: int): (k: Kern)
    requires 1 <= n < PROC_NUM
    ensures WF(k)
  {
    Cut(Stage5(Opened0(n), OneByte(raw)), 1)
  }

  /** Then returns typed at port 0 and characters sent to it take turns, and process 1 waits once more. */
  function Waited(n: nat, raw: int, ch: int): (m: Kern)
    requires 1 <= n < PROC_NUM && -128 <= ch < 128
    ensures WF(m)
  {
    Enter(Rounds(BothOpen(n, raw), ch, QUEUE_SIZE), SemWait(0)).0
  }

  lemma ByteInWindow(n: nat, raw: int)
    requires 1 <= n < PROC_NUM
    ensures var k := BothOpen(n, raw); k.current == 1 && Flooding(k, 0) && WriteSlots(k, 0) == QUEUE_SIZE + 1
  {
    hide Opened0, Enter, CanOpen, Roles;
    var k, w := Opened0(n), OneByte(raw);
    var k1 := Enter(k, PortAlloc).0;
    FirstTrap(k);
    ByteComes(k1, raw);
    assert w.a[..0] == [];
    assert Interrupted(k1, []) == k1;
    var m := Stage1(k, w);
    AllocsElsewhere(m, QUEUE_SIZE);
    var m2 := Stage2(k, w);
    var m3 := Stage3(k, w);
    AllocsElsewhere(m3, 0);
  }

  lemma FirstTrap(k: Kern)
    requires WF(k) && k.current != 0 && CanOpen(k) && ThePort(k) == 1
    ensures var r := Enter(k, PortAlloc).0;
            && r.sem == k.sem && r.current == k.current
            && r.port == k.port[1 := Port(k.current, 0, 0, 1, [], [], [], [])]
  {
  }

  /** Port 0 has a pass more than its queue has room, and in the end process 1 gets past its wait with the
      transmit queue full: the panic of PortWriteHandler, and the character is lost. */
  lemma FullQueueReached(n: nat, raw: int, ch: int)
    requires 1 <= n < PROC_NUM && -128 <= ch < 128
    ensures WriteSlots(BothOpen(n, raw), 0) == QUEUE_SIZE + 1
    ensures var m := Waited(n, raw, ch);
            m.current == 1 && |m.port[0].writeQ| == QUEUE_SIZE && PortWriteHandler(m, ch, 0) == m
  {
    hide BothOpen, Enter, Rounds;
    ByteInWindow(n, raw);
    RoundsFill(BothOpen(n, raw), ch, QUEUE_SIZE);
    PassButFull(Rounds(BothOpen(n, raw), ch, QUEUE_SIZE), ch);
  }

  lemma PassButFull(k: Kern, ch: int)
    requires WF(k) && Flooding(k, QUEUE_SIZE) && -128 <= ch < 128
    ensures var m := Enter(k, SemWait(0)).0;
            m.current == k.current && |m.port[0].writeQ| == QUEUE_SIZE && PortWriteHandler(m, ch, 0) == m
  {
  }
}
