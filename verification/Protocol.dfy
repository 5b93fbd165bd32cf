/** The kernel together with the processes that run on it. Every process is a program point: outside
    the driver, at one of the two traps of PortWrite or PortRead, or at one of the three traps and three
    stores of PortAlloc. The gates are interrupt gates, so one entry into the kernel is one atomic step,
    and the timer and the serial line may interrupt at any point between steps. */
module Protocol {
  import opened Queue
  import opened KernelSpec
  import opened Pids
  import opened Laws
  import opened Tokens

  const BUFF_SIZE: nat := 101

  /** Where a process is between traps. In PortWrite `text` is what is still to be sent, in PortRead
      `line` is what has been stored so far. */
  datatype Prog =
    | Elsewhere
    | WriteAtWait(port: int, text: seq<int>)
    | WriteAtTrap(port: int, text: seq<int>)
    | ReadAtWait(port: int, line: seq<int>)
    | ReadAtTrap(port: int, line: seq<int>)
    | OpenAtWrite(port: int)                // PortAlloc: its first trap has made the port live
    | OpenGotWrite(port: int, sid: int)     // the second has given a semaphore, not yet stored
    | OpenAtRead(port: int)                 // stored as write_sid
    | OpenGotRead(port: int, sid: int)      // the third has given a semaphore, not yet stored
    | OpenAtCut(port: int)                  // stored as read_sid; the size of read_q is still to be set to 0

  datatype Sys = Sys(k: Kern, prog: seq<Prog>)

  datatype Event =
    | Tick
    | Serial(uart: seq<Uart>)
    | AllocSem(passes: int)
    | Wait(sid: int)
    | Post(sid: int)
    | OpenPort
    | OpenSem
    | OpenStore
    | BeginWrite(port: int, text: seq<int>)
    | WriteWait
    | WriteTrap
    | BeginRead(port: int)
    | ReadWait
    | ReadTrap

  predicate IsChar(c: int) { -128 <= c < 128 && c != 0 }

  /** The tables are in shape and some process is on the CPU. */
  predicate Live(s: Sys) {
    WF(s.k) && |s.prog| == PROC_NUM && s.k.current != 0
  }

  function Me(s: Sys): Prog
    requires Live(s)
  {
    s.prog[s.k.current]
  }

  /** The process is opening a port whose semaphores are not both stored. */
  predicate Opens(g: Prog) { g.OpenAtWrite? || g.OpenGotWrite? || g.OpenAtRead? || g.OpenGotRead? }

  /** The semaphores it has been given for the port. */
  function Held(k: Kern, g: Prog): set<int>
    requires WF(k)
  {
    match g
    case OpenGotWrite(_, sid) => {sid}
    case OpenAtRead(port) => if IsPort(port) then {k.port[port].writeSid} else {}
    case OpenGotRead(port, sid) => if IsPort(port) then {k.port[port].writeSid, sid} else {}
    case _ => {}
  }

  /** Semaphore t as SemAlloc leaves it. */
  predicate NewSem(k: Kern, t: int, passes: int)
    requires WF(k)
  {
    IsSid(t) && k.sem[t].owner != 0 && k.semLog[t].initial == passes == k.sem[t].passes && k.sem[t].waitQ == []
  }

  /** A program point of a process that uses a port in use, or opens one. */
  predicate ProgOk(k: Kern, g: Prog)
    requires WF(k)
  {
    match g
    case Elsewhere => true
    case WriteAtWait(port, text) => InUse(k, port) && text != [] && forall i :: 0 <= i < |text| ==> IsChar(text[i])
    case WriteAtTrap(port, text) => InUse(k, port) && text != [] && forall i :: 0 <= i < |text| ==> IsChar(text[i])
    case ReadAtWait(port, line) => InUse(k, port) && |line| < BUFF_SIZE - 1 && CR !in line
    case ReadAtTrap(port, line) => InUse(k, port) && |line| < BUFF_SIZE - 1 && CR !in line
    case OpenAtWrite(port) => Opening(k, port)
    case OpenGotWrite(port, sid) => Opening(k, port) && NewSem(k, sid, QUEUE_SIZE) && k.sem[0].owner != 0
    case OpenAtRead(port) =>
      Opening(k, port) && NewSem(k, k.port[port].writeSid, QUEUE_SIZE) && k.sem[0].owner != 0
    case OpenGotRead(port, sid) =>
      && Opening(k, port) && NewSem(k, k.port[port].writeSid, QUEUE_SIZE) && NewSem(k, sid, 0)
      && sid != 0 && sid != k.port[port].writeSid
    case OpenAtCut(port) => InUse(k, port) && k.port[port].readQ == []
  }

  /** No character comes in for a port while PortAlloc is at work on it. */
  ghost predicate SerialOk(s: Sys, uart: seq<Uart>)
    requires Live(s)
  {
    Quiet(s.k, uart) &&
    forall i :: 0 <= i < PROC_NUM && s.prog[i].OpenAtCut? && IsPort(s.prog[i].port) ==> !uart[s.prog[i].port].RxReady?
  }

  /** No process has been given semaphore sid for a port it is opening. */
  ghost predicate Unheld(s: Sys, sid: int)
    requires Live(s)
  {
    forall i :: 0 <= i < PROC_NUM ==> sid !in Held(s.k, s.prog[i])
  }

  /** A semaphore of a process's own. */
  ghost predicate OwnSem(s: Sys, sid: int)
    requires Live(s)
  {
    IsSid(sid) && s.k.sem[sid].owner != 0 && Private(s.k, sid) && Unheld(s, sid)
  }

  /** What may happen next. The timer may always tick; a serial interrupt brings no character to a port being
      opened; everything else is done by the running process: any process may use semaphores of its own, the
      semaphores of a port are used by PortWrite and PortRead only, and a trap of PortAlloc finds what it asks for. */
  ghost predicate Enabled(s: Sys, e: Event) {
    && Live(s)
    && match e
       case Tick => true
       case Serial(uart) => SerialOk(s, uart)
       case AllocSem(passes) => Me(s).Elsewhere?
       case Wait(sid) => Me(s).Elsewhere? && OwnSem(s, sid)
       case Post(sid) => Me(s).Elsewhere? && OwnSem(s, sid)
       case OpenPort => Me(s).Elsewhere? && FreePort(s.k.port, 0) < PORT_NUM
       case OpenSem => (Me(s).OpenAtWrite? || Me(s).OpenAtRead?) && ProgOk(s.k, Me(s)) && FreeSem(s.k.sem, 0) < SEM_NUM
       case OpenStore => (Me(s).OpenGotWrite? || Me(s).OpenGotRead? || Me(s).OpenAtCut?) && ProgOk(s.k, Me(s))
       case BeginWrite(port, text) =>
         Me(s).Elsewhere? && InUse(s.k, port) && forall i :: 0 <= i < |text| ==> IsChar(text[i])
       case WriteWait => Me(s).WriteAtWait? && ProgOk(s.k, Me(s))
       case WriteTrap => Me(s).WriteAtTrap? && ProgOk(s.k, Me(s))
       case BeginRead(port) => Me(s).Elsewhere? && InUse(s.k, port)
       case ReadWait => Me(s).ReadAtWait? && ProgOk(s.k, Me(s))
       case ReadTrap => Me(s).ReadAtTrap? && ProgOk(s.k, Me(s))
  }

  /** The running process goes on at g while the kernel is k. */
  function Goes(s: Sys, k: Kern, g: Prog): Sys
    requires Live(s)
  {
    Sys(k, s.prog[s.k.current := g])
  }

  /** Where PortWrite is once it has handed over the first of text. */
  function AfterWrite(port: int, text: seq<int>): Prog
    requires text != []
  {
    if |text| == 1 then Elsewhere else WriteAtWait(port, text[1..])
  }

  /** Where PortRead is once c has been stored after line. */
  function AfterRead(port: int, line: seq<int>, c: int): Prog {
    if c == CR || |line| + 1 == BUFF_SIZE - 1 then Elsewhere else ReadAtWait(port, line + [c])
  }

  /** Where PortAlloc is once it has been given semaphore sid. */
  function AfterSem(g: Prog, sid: int): Prog
    requires g.OpenAtWrite? || g.OpenAtRead?
  {
    if g.OpenAtWrite? then OpenGotWrite(g.port, sid) else OpenGotRead(g.port, sid)
  }

  /** The stores of PortAlloc. */
  function Stores(s: Sys, g: Prog): Sys
    requires Live(s) && ProgOk(s.k, g) && (g.OpenGotWrite? || g.OpenGotRead? || g.OpenAtCut?)
  {
    var d := s.k.port[g.port];
    match g
    case OpenGotWrite(port, sid) => Goes(s, WithPort(s.k, port, d.(writeSid := sid)), OpenAtRead(port))
    case OpenGotRead(port, sid) => Goes(s, WithPort(s.k, port, d.(readSid := sid)), OpenAtCut(port))
    case OpenAtCut(port) => Goes(s, WithPort(s.k, port, d.(readQ := [])), Elsewhere)
  }

  /** The step itself. */
  ghost function Next(s: Sys, e: Event): Sys
    requires Enabled(s, e)
  {
    match e
    case Tick => Goes(s, Enter(s.k, Timer).0, Me(s))
    case Serial(uart) => Goes(s, Enter(s.k, PortIrq(uart)).0, Me(s))
    case AllocSem(passes) => Goes(s, Enter(s.k, SemAlloc(passes)).0, Elsewhere)
    case Wait(sid) => Goes(s, Enter(s.k, SemWait(sid)).0, Elsewhere)
    case Post(sid) => Goes(s, Enter(s.k, SemPost(sid)).0, Elsewhere)
    case OpenPort =>
      var (k, reply) := Enter(s.k, PortAlloc);
      Goes(s, k, OpenAtWrite(reply.value))
    case OpenSem =>
      var (k, reply) := Enter(s.k, SemAlloc(if Me(s).OpenAtWrite? then QUEUE_SIZE else 0));
      Goes(s, k, AfterSem(Me(s), reply.value))
    case OpenStore => Stores(s, Me(s))
    case BeginWrite(port, text) => Goes(s, s.k, if text == [] then Elsewhere else WriteAtWait(port, text))
    case WriteWait =>
      var WriteAtWait(port, text) := Me(s);
      Goes(s, Enter(s.k, SemWait(s.k.port[port].writeSid)).0, WriteAtTrap(port, text))
    case WriteTrap =>
      var WriteAtTrap(port, text) := Me(s);
      Goes(s, Enter(s.k, PortWrite(text[0], port)).0, AfterWrite(port, text))
    case BeginRead(port) => Goes(s, s.k, ReadAtWait(port, []))
    case ReadWait =>
      var ReadAtWait(port, line) := Me(s);
      Goes(s, Enter(s.k, SemWait(s.k.port[port].readSid)).0, ReadAtTrap(port, line))
    case ReadTrap =>
      var ReadAtTrap(port, line) := Me(s);
      var (k, reply) := Enter(s.k, PortRead(port));
      Goes(s, k, if reply.Stored? then AfterRead(port, line, reply.ch) else Me(s))
  }

  // ---- tokens --------------------------------------------------------------------------------

  /** The processes whose next trap hands a character to port p. */
  function AtWrite(prog: seq<Prog>, p: int): set<int> {
    set i | 0 <= i < |prog| && prog[i].WriteAtTrap? && prog[i].port == p
  }

  /** The processes whose next trap takes a character from port p. */
  function AtRead(prog: seq<Prog>, p: int): set<int> {
    set i | 0 <= i < |prog| && prog[i].ReadAtTrap? && prog[i].port == p
  }

  predicate TokensOk(s: Sys, p: int)
    requires WF(s.k) && IsPort(p)
  {
    && WriteSlots(s.k, p) + |AtWrite(s.prog, p)| == QUEUE_SIZE
    && ReadSlots(s.k, p) + |AtRead(s.prog, p)| == 0
    && (forall x :: x in s.k.sem[s.k.port[p].writeSid].waitQ ==> x in AtWrite(s.prog, p))
    && (forall x :: x in s.k.sem[s.k.port[p].readSid].waitQ ==> x in AtRead(s.prog, p))
  }

  /** The semaphores held serve no port in use. */
  ghost predicate Reserved(k: Kern, g: Prog)
    requires WF(k)
  {
    forall t :: t in Held(k, g) ==> Private(k, t)
  }

  /** Two processes open different ports, with different semaphores. */
  predicate OpenApart(k: Kern, g: Prog, h: Prog)
    requires WF(k)
  {
    Opens(g) && Opens(h) ==> g.port != h.port && Held(k, g) !! Held(k, h)
  }

  ghost predicate SysInv(s: Sys) {
    && KernelInv(s.k) && Roles(s.k) && Blanks(s.k) && |s.prog| == PROC_NUM
    && (forall i :: 0 <= i < PROC_NUM ==> ProgOk(s.k, s.prog[i]) && Reserved(s.k, s.prog[i]))
    && (forall i, j :: 0 <= i < PROC_NUM && 0 <= j < PROC_NUM && i != j ==> OpenApart(s.k, s.prog[i], s.prog[j]))
    && (forall p :: InUse(s.k, p) ==> TokensOk(s, p))
  }

  function Bit(b: bool): int { if b then 1 else 0 }

  lemma MovedWrite(prog: seq<Prog>, i: nat, g: Prog, p: int)
    requires i < |prog|
    ensures |AtWrite(prog[i := g], p)| ==
            |AtWrite(prog, p)| - Bit(i in AtWrite(prog, p)) + Bit(g.WriteAtTrap? && g.port == p)
    ensures forall x :: x in AtWrite(prog, p) && x != i ==> x in AtWrite(prog[i := g], p)
    ensures g.WriteAtTrap? && g.port == p ==> i in AtWrite(prog[i := g], p)
  {
    MovedWriters(prog, i, g, p);
    hide AtWrite;
  }

  lemma MovedWriters(prog: seq<Prog>, i: nat, g: Prog, p: int)
    requires i < |prog|
    ensures AtWrite(prog[i := g], p) ==
            (AtWrite(prog, p) - {i}) + if g.WriteAtTrap? && g.port == p then {i as int} else {}
  {
  }

  lemma MovedRead(prog: seq<Prog>, i: nat, g: Prog, p: int)
    requires i < |prog|
    ensures |AtRead(prog[i := g], p)| ==
            |AtRead(prog, p)| - Bit(i in AtRead(prog, p)) + Bit(g.ReadAtTrap? && g.port == p)
    ensures forall x :: x in AtRead(prog, p) && x != i ==> x in AtRead(prog[i := g], p)
    ensures g.ReadAtTrap? && g.port == p ==> i in AtRead(prog[i := g], p)
  {
    MovedReaders(prog, i, g, p);
    hide AtRead;
  }

  lemma MovedReaders(prog: seq<Prog>, i: nat, g: Prog, p: int)
    requires i < |prog|
    ensures AtRead(prog[i := g], p) == (AtRead(prog, p) - {i}) + if g.ReadAtTrap? && g.port == p then {i as int} else {}
  {
  }

  /** One port's tokens through a step that moves the running process from its program point to g. */
  lemma AdvancePort(s: Sys, r: Kern, g: Prog, p: int, dw: int, dr: int)
    requires Live(s) && WF(r) && IsPort(p) && TokensOk(s, p) && ShiftsPort(s.k, r, p, dw, dr)
    requires dw == Bit(Me(s).WriteAtTrap? && Me(s).port == p) - Bit(g.WriteAtTrap? && g.port == p)
    requires dr == Bit(Me(s).ReadAtTrap? && Me(s).port == p) - Bit(g.ReadAtTrap? && g.port == p)
    requires forall t :: 0 <= t < SEM_NUM ==> s.k.current !in s.k.sem[t].waitQ
    ensures TokensOk(Goes(s, r, g), p)
  {
    MovedWrite(s.prog, s.k.current, g, p);
    MovedRead(s.prog, s.k.current, g, p);
  }

  /** Another process is where it was, if what it has to do with is as it was. */
  lemma OtherStays(k: Kern, r: Kern, h: Prog)
    requires WF(k) && WF(r) && ProgOk(k, h) && (k.sem[0].owner != 0 ==> r.sem[0].owner != 0)
    requires !h.Elsewhere? ==> SameLabels(k, r, h.port)
    requires h.OpenAtCut? ==> r.port[h.port].readQ == k.port[h.port].readQ
    requires forall t :: t in Held(k, h) && IsSid(t) ==> r.sem[t] == k.sem[t] && r.semLog[t] == k.semLog[t]
    ensures ProgOk(r, h) && Held(r, h) == Held(k, h)
  {
  }

  /** A port about to have its receive queue cut keeps it. */
  predicate CutStays(k: Kern, r: Kern, h: Prog)
    requires WF(k) && WF(r)
  {
    h.OpenAtCut? && IsPort(h.port) ==> r.port[h.port].readQ == k.port[h.port].readQ
  }

  /** A step makes no port live and touches nothing processes opening ports have to do with; x is the semaphore
      it is about, if it is about one. */
  ghost predicate Stays(s: Sys, r: Kern, x: int)
    requires Live(s) && WF(r)
  {
    && Leaves(s.k, r, x) && Unheld(s, x) && (forall p :: Owned(r, p) ==> Owned(s.k, p))
    && forall i :: 0 <= i < PROC_NUM ==> CutStays(s.k, r, s.prog[i])
  }

  /** Then every process that stays put is in order. */
  lemma OtherInOrder(s: Sys, r: Kern, x: int, i: nat)
    requires SysInv(s) && Live(s) && WF(r) && Leaves(s.k, r, x) && Unheld(s, x) && i < PROC_NUM
    requires CutStays(s.k, r, s.prog[i])
    requires forall p :: InUse(s.k, p) <==> InUse(r, p)
    ensures ProgOk(r, s.prog[i]) && Held(r, s.prog[i]) == Held(s.k, s.prog[i]) && Reserved(r, s.prog[i])
  {
    hide KernelInv, TokensOk, Roles, Blanks, ProgOk, Held, OpenApart;
    InvParts(s.k);
    var h := s.prog[i];
    assert ProgOk(s.k, h) && Reserved(s.k, h) && x !in Held(s.k, h);
    if !h.Elsewhere? { PortOwned(s.k, h); }
    OtherStays(s.k, r, h);
    forall t | t in Held(r, h) ensures Private(r, t) { PrivateToo(s.k, r, t, x); }
  }

  lemma PortOwned(k: Kern, g: Prog)
    requires WF(k) && ProgOk(k, g) && !g.Elsewhere?
    ensures Owned(k, g.port)
  {
  }

  lemma PrivateToo(k: Kern, r: Kern, t: int, x: int)
    requires WF(k) && WF(r) && Private(k, t) && Leaves(k, r, x) && forall p :: InUse(k, p) <==> InUse(r, p)
    ensures Private(r, t)
  {
    forall p | InUse(r, p) ensures r.port[p].writeSid != t && r.port[p].readSid != t { assert SameLabels(k, r, p); }
  }

  /** The heart of the token argument: a step of the running process keeps every port's tokens when
      what it does to the sums of port p is what its move between program points calls for. */
  lemma Advance(s: Sys, r: Kern, g: Prog, p0: int, x: int)
    requires SysInv(s) && Live(s) && KernelInv(r) && Stays(s, r, x)
    requires g == Me(s) || (ProgOk(r, g) && !Opens(g))
    requires Me(s).WriteAtTrap? || Me(s).ReadAtTrap? ==> Me(s).port == p0
    requires g.WriteAtTrap? || g.ReadAtTrap? ==> g.port == p0
    requires Shifts(s.k, r, p0,
                    Bit(Me(s).WriteAtTrap?) - Bit(g.WriteAtTrap?), Bit(Me(s).ReadAtTrap?) - Bit(g.ReadAtTrap?))
    ensures SysInv(Goes(s, r, g))
  {
    hide KernelInv, TokensOk, ShiftsPort, Leaves, Roles, Blanks, ProgOk, Held, Private, Reserved, OpenApart, Opens;
    InvParts(s.k);
    InvParts(r);
    var me := s.k.current;
    var dw := Bit(Me(s).WriteAtTrap?) - Bit(g.WriteAtTrap?);
    var dr := Bit(Me(s).ReadAtTrap?) - Bit(g.ReadAtTrap?);
    ShiftsRoles(s.k, r, p0, dw, dr);
    OnlyPlace(s.k, me);
    LeavesBlanks(s.k, r, x);
    var n := Goes(s, r, g);
    forall p | InUse(r, p) ensures TokensOk(n, p) {
      AdvancePort(s, r, g, p, if p == p0 then dw else 0, if p == p0 then dr else 0);
    }
    forall i | 0 <= i < PROC_NUM
      ensures ProgOk(r, n.prog[i]) && Reserved(r, n.prog[i])
      ensures n.prog[i] == s.prog[i] ==> Held(r, n.prog[i]) == Held(s.k, s.prog[i])
    {
      OtherInOrder(s, r, x, i);
      if n.prog[i] != s.prog[i] { HoldsNone(r, g); }
    }
    forall i, j | 0 <= i < PROC_NUM && 0 <= j < PROC_NUM && i != j ensures OpenApart(r, n.prog[i], n.prog[j]) {
      assert OpenApart(s.k, s.prog[i], s.prog[j]);
      ApartToo(s.k, r, s.prog[i], s.prog[j], n.prog[i], n.prog[j]);
    }
  }

  lemma HoldsNone(r: Kern, g: Prog)
    requires WF(r) && !Opens(g)
    ensures Held(r, g) == {} && Reserved(r, g)
  {
  }

  lemma ApartToo(k: Kern, r: Kern, g: Prog, h: Prog, g': Prog, h': Prog)
    requires WF(k) && WF(r) && OpenApart(k, g, h)
    requires if g' == g then Held(r, g) == Held(k, g) else !Opens(g')
    requires if h' == h then Held(r, h) == Held(k, h) else !Opens(h')
    ensures OpenApart(r, g', h')
  {
  }

  lemma InvParts(k: Kern)
    requires KernelInv(k)
    ensures WF(k) && Conserved(k)
  {
  }

  // ---- every step keeps the invariant --------------------------------------------------------

  lemma ScheduledStays(s: Sys, m: Kern, x: int)
    requires Live(s) && WF(m) && Stays(s, m, x)
    ensures Stays(s, Scheduler(m), x)
  {
    SameDataLeaves(m, Scheduler(m), x);
    assert forall p :: Owned(m, p) ==> Owned(s.k, p);
    LeavesOn(s.k, m, Scheduler(m), x);
  }

  /** A step that leaves every receive queue. */
  lemma SameQueues(s: Sys, m: Kern, x: int)
    requires Live(s) && WF(m) && Leaves(s.k, m, x) && Unheld(s, x) && forall p :: Owned(m, p) ==> Owned(s.k, p)
    requires forall q :: IsPort(q) ==> m.port[q].readQ == s.k.port[q].readQ
    ensures Stays(s, m, x)
  {
  }

  /** A semaphore not in use, or no semaphore at all, is not held. */
  lemma NotHeld(s: Sys, x: int)
    requires SysInv(s) && Live(s) && (!IsSid(x) || s.k.sem[x].owner == 0)
    ensures Unheld(s, x)
  {
    forall i | 0 <= i < PROC_NUM ensures x !in Held(s.k, s.prog[i]) { assert ProgOk(s.k, s.prog[i]); }
  }

  lemma ScheduledShifts(k: Kern, m: Kern, p0: int, dw: int, dr: int)
    requires WF(k) && WF(m) && Roles(k) && Shifts(k, m, p0, dw, dr)
    ensures Shifts(k, Scheduler(m), p0, dw, dr)
  {
    ShiftsRoles(k, m, p0, dw, dr);
    SchedulerCarries(m);
    ShiftsOn(k, m, Scheduler(m), p0, dw, dr);
  }

  /** A blocked process is at the trap it blocked before, so no process waits that is running. */
  lemma WaiterElsewhere(s: Sys, sid: int)
    requires SysInv(s) && Live(s) && IsSid(sid)
    ensures s.k.current !in s.k.sem[sid].waitQ && |s.k.sem[sid].waitQ| < QUEUE_SIZE
  {
    OnlyPlace(s.k, s.k.current);
    Room(s.k);
  }

  /** The waiters on a semaphore are different processes. */
  lemma {:induction false} Distinct(q: seq<int>, bound: set<int>)
    requires forall x :: Count(q, x) <= 1
    requires forall x :: x in q ==> x in bound
    ensures |q| <= |bound| && (|q| == |bound| ==> forall x :: x in bound ==> x in q)
    ensures |set x | x in q| == |q|
  {
    if q == [] {
    } else {
      var rest := q[1..];
      assert q == [q[0]] + rest;
      assert Count(q, q[0]) <= 1;
      forall x ensures Count(rest, x) <= 1 { assert Count(q, x) <= 1; }
      Distinct(rest, bound - {q[0]});
      assert (set x | x in q) == (set x | x in rest) + {q[0]};
    }
  }

  /** A process at its PORTWRITE trap holds a slot: the transmit queue has room. */
  lemma WriteSlotHeld(s: Sys)
    requires SysInv(s) && Live(s) && Me(s).WriteAtTrap?
    ensures |s.k.port[Me(s).port].writeQ| < QUEUE_SIZE
  {
    var p, me := Me(s).port, s.k.current;
    assert ProgOk(s.k, s.prog[me]);
    assert TokensOk(s, p) && Role(s.k, p);
    var w := s.k.port[p].writeSid;
    assert Lawful(s.k.sem[w], s.k.semLog[w]);
    WaiterElsewhere(s, w);
    forall x ensures Count(s.k.sem[w].waitQ, x) <= 1 { if x in s.k.sem[w].waitQ { WaitsOnce(s.k, x, w, w); } }
    Distinct(s.k.sem[w].waitQ, AtWrite(s.prog, p));
    assert me in AtWrite(s.prog, p);
  }

  /** A process at its PORTREAD trap holds a character: the receive queue is not empty. */
  lemma ReadCharHeld(s: Sys)
    requires SysInv(s) && Live(s) && Me(s).ReadAtTrap?
    ensures s.k.port[Me(s).port].readQ != []
  {
    var p, me := Me(s).port, s.k.current;
    assert ProgOk(s.k, s.prog[me]);
    assert TokensOk(s, p) && Role(s.k, p);
    var r := s.k.port[p].readSid;
    assert Lawful(s.k.sem[r], s.k.semLog[r]);
    WaiterElsewhere(s, r);
    forall x ensures Count(s.k.sem[r].waitQ, x) <= 1 { if x in s.k.sem[r].waitQ { WaitsOnce(s.k, x, r, r); } }
    Distinct(s.k.sem[r].waitQ, AtRead(s.prog, p));
    assert me in AtRead(s.prog, p);
  }

  /** The trap an event raises, for the events that raise one. */
  ghost function TrapOf(s: Sys, e: Event): Trap
    requires Enabled(s, e)
  {
    match e
    case Tick => Timer
    case Serial(uart) => PortIrq(uart)
    case AllocSem(passes) => SemAlloc(passes)
    case Wait(sid) => SemWait(sid)
    case Post(sid) => SemPost(sid)
    case OpenPort => PortAlloc
    case OpenSem => SemAlloc(if Me(s).OpenAtWrite? then QUEUE_SIZE else 0)
    case OpenStore => Unknown
    case BeginWrite(port, text) => Unknown
    case WriteWait => SemWait(s.k.port[Me(s).port].writeSid)
    case WriteTrap => PortWrite(Me(s).text[0], Me(s).port)
    case BeginRead(port) => Unknown
    case ReadWait => SemWait(s.k.port[Me(s).port].readSid)
    case ReadTrap => PortRead(Me(s).port)
  }

  lemma TrapProper(s: Sys, e: Event)
    requires SysInv(s) && Enabled(s, e)
    ensures Proper(s.k, TrapOf(s, e))
  {
    if e.WriteWait? || e.ReadWait? { assert Role(s.k, Me(s).port); }
  }

  /** The semaphore a plain step is about. */
  ghost function About(s: Sys, e: Event): int
    requires Enabled(s, e)
  {
    if e.Wait? || e.Post? then e.sid else if e.AllocSem? then FreeSem(s.k.sem, 0) else -1
  }

  lemma PlainStays(s: Sys, e: Event)
    requires SysInv(s) && Enabled(s, e)
    requires e.Tick? || e.Serial? || e.AllocSem? || e.Wait? || e.Post?
    ensures Carries(s.k, Dispatch(s.k, TrapOf(s, e)).0) && Stays(s, Dispatch(s.k, TrapOf(s, e)).0, About(s, e))
  {
    hide KernelInv, PortHandler, Leaves, Carries, Roles, Blanks, Conserved, TokensOk, ProgOk, Held, Private;
    InvParts(s.k);
    if !e.Wait? && !e.Post? { NotHeld(s, About(s, e)); }
    match e {
      case Tick =>
        TimerCarries(s.k);
        SameDataLeaves(s.k, TimerHandler(s.k), -1);
        SameQueues(s, TimerHandler(s.k), -1);
      case Serial(uart) => HandlerCarries(s.k, uart, 0);
      case AllocSem(passes) =>
        SemAllocCarries(s.k, passes);
        SemAllocLeaves(s.k, passes);
        SameQueues(s, SemAllocHandler(s.k, passes).0, FreeSem(s.k.sem, 0));
      case Wait(sid) =>
        PrivateWaitCarries(s.k, sid);
        SemWaitLeaves(s.k, sid, sid);
        SameQueues(s, SemWaitHandler(s.k, sid), sid);
      case Post(sid) =>
        PrivatePostCarries(s.k, sid);
        SemPostLeaves(s.k, sid, sid);
        SameQueues(s, SemPostHandler(s.k, sid), sid);
      case _ =>
    }
  }

  /** Steps outside the driver's traps leave every sum alone. */
  lemma PlainStep(s: Sys, e: Event)
    requires SysInv(s) && Enabled(s, e)
    requires e.Tick? || e.Serial? || e.AllocSem? || e.Wait? || e.Post?
    ensures SysInv(Next(s, e))
  {
    hide KernelInv, PortHandler, Shifts, Roles, Conserved, Stays, Carries, Blanks, TokensOk, ProgOk, Held, Unheld;
    InvParts(s.k);
    var t := TrapOf(s, e);
    var m := Dispatch(s.k, t).0;
    TrapProper(s, e);
    EnterKeeps(s.k, t);
    PlainStays(s, e);
    var p0 := if Me(s).WriteAtTrap? || Me(s).ReadAtTrap? then Me(s).port else 0;
    Steady(s.k, m, p0);
    ScheduledShifts(s.k, m, p0, 0, 0);
    ScheduledStays(s, m, About(s, e));
    Advance(s, Enter(s.k, t).0, Me(s), p0, About(s, e));
  }

  lemma Steady(k: Kern, m: Kern, p0: int)
    requires WF(k) && WF(m) && Carries(k, m)
    ensures Shifts(k, m, p0, 0, 0)
  {
    forall p | InUse(k, p) ensures ShiftsPort(k, m, p, 0, 0) {}
  }

  lemma StillInUse(s: Sys, r: Kern, p0: int, dw: int, dr: int, g: Prog)
    requires WF(s.k) && WF(r) && ProgOk(s.k, g) && Shifts(s.k, r, p0, dw, dr) && !Opens(g) && !g.OpenAtCut?
    ensures ProgOk(r, g)
  {
  }

  lemma WaitStep(s: Sys, e: Event)
    requires SysInv(s) && Enabled(s, e) && (e.WriteWait? || e.ReadWait?)
    ensures SysInv(Next(s, e))
  {
    hide KernelInv, Shifts, Conserved, Stays, Leaves, Blanks, Private;
    InvParts(s.k);
    var t, p, write := TrapOf(s, e), Me(s).port, e.WriteWait?;
    var m := Dispatch(s.k, t).0;
    assert Role(s.k, p);
    WaiterElsewhere(s, t.sid);
    EnterKeeps(s.k, t);
    PortWaitShifts(s.k, p, write);
    var g := if write then WriteAtTrap(p, Me(s).text) else ReadAtTrap(p, Me(s).line);
    var dw, dr := if write then -1 else 0, if write then 0 else -1;
    ScheduledShifts(s.k, m, p, dw, dr);
    StillInUse(s, Enter(s.k, t).0, p, dw, dr, g);
    NotPrivate(s.k, p);
    SemWaitLeaves(s.k, t.sid, -1);
    NotHeld(s, -1);
    SameQueues(s, m, -1);
    ScheduledStays(s, m, -1);
    Advance(s, Enter(s.k, t).0, g, p, -1);
  }

  lemma WriteStep(s: Sys)
    requires SysInv(s) && Enabled(s, WriteTrap)
    ensures SysInv(Next(s, WriteTrap))
  {
    hide KernelInv, Shifts, Conserved, Roles, PortWriteHandler, Stays, Leaves, Blanks;
    InvParts(s.k);
    var WriteAtTrap(p, text) := Me(s);
    var t := TrapOf(s, WriteTrap);
    WriteSlotHeld(s);
    EnterKeeps(s.k, t);
    PortWriteShifts(s.k, p, text[0]);
    ScheduledShifts(s.k, PortWriteHandler(s.k, text[0], p), p, 1, 0);
    StillInUse(s, Enter(s.k, t).0, p, 1, 0, AfterWrite(p, text));
    PortWriteLeaves(s.k, text[0], p, -1);
    NotHeld(s, -1);
    SameQueues(s, PortWriteHandler(s.k, text[0], p), -1);
    ScheduledStays(s, PortWriteHandler(s.k, text[0], p), -1);
    Advance(s, Enter(s.k, t).0, AfterWrite(p, text), p, -1);
  }

  lemma ReadStep(s: Sys)
    requires SysInv(s) && Enabled(s, ReadTrap)
    ensures SysInv(Next(s, ReadTrap))
  {
    hide KernelInv, Shifts, Conserved, Roles, Leaves, Blanks;
    InvParts(s.k);
    var ReadAtTrap(p, line) := Me(s);
    var t := TrapOf(s, ReadTrap);
    ReadCharHeld(s);
    EnterKeeps(s.k, t);
    PortReadShifts(s.k, p);
    ScheduledShifts(s.k, PortReadHandler(s.k, p).0, p, 0, 1);
    var g := AfterRead(p, line, Enter(s.k, t).1.ch);
    StillInUse(s, Enter(s.k, t).0, p, 0, 1, g);
    PortReadLeaves(s.k, p, -1);
    NotHeld(s, -1);
    forall i | 0 <= i < PROC_NUM ensures CutStays(s.k, PortReadHandler(s.k, p).0, s.prog[i]) {
      assert ProgOk(s.k, s.prog[i]);
    }
    ScheduledStays(s, PortReadHandler(s.k, p).0, -1);
    Advance(s, Enter(s.k, t).0, g, p, -1);
  }

  lemma BeginStep(s: Sys, e: Event)
    requires SysInv(s) && Enabled(s, e) && (e.BeginWrite? || e.BeginRead?)
    ensures SysInv(Next(s, e))
  {
    hide KernelInv, Blanks, Roles, TokensOk, Reserved;
    InvParts(s.k);
    SelfShifts(s.k, 0);
    LeavesSelf(s.k, -1);
    NotHeld(s, -1);
    Advance(s, s.k, Next(s, e).prog[s.k.current], 0, -1);
  }

  // ---- opening a port ------------------------------------------------------------------------

  /** The allocation traps of a running process leave it running. */
  lemma EntersAlloc(k: Kern, passes: int)
    requires WF(k) && k.current != 0 && passes >= 0
    ensures Enter(k, PortAlloc) == PortAllocHandler(k)
    ensures Enter(k, SemAlloc(passes)) == SemAllocHandler(k, passes)
  {
  }

  /** Storing semaphore numbers in a port disturbs nothing. */
  lemma Relabel(k: Kern, p: int, w: int, t: int)
    requires KernelInv(k) && IsPort(p) && IsSid(w) && IsSid(t)
    ensures KernelInv(WithPort(k, p, k.port[p].(writeSid := w, readSid := t)))
  {
    PortStepKeeps(k, WithPort(k, p, k.port[p].(writeSid := w, readSid := t)), p);
  }

  /** The invariant after a step that opens a port a little further. */
  lemma Assemble(s: Sys, r: Kern, g: Prog)
    requires SysInv(s) && Live(s) && KernelInv(r) && Roles(r) && Blanks(r) && ProgOk(r, g) && Reserved(r, g)
    requires forall i :: 0 <= i < PROC_NUM && i != s.k.current ==>
               && ProgOk(r, s.prog[i]) && Reserved(r, s.prog[i]) && Held(r, s.prog[i]) == Held(s.k, s.prog[i])
               && OpenApart(r, g, s.prog[i])
    requires forall p :: InUse(r, p) ==> TokensOk(Goes(s, r, g), p)
    ensures SysInv(Goes(s, r, g))
  {
    hide KernelInv, Roles, Blanks, ProgOk, Reserved, TokensOk, Held;
    InvParts(r);
    var n, me := Goes(s, r, g), s.k.current;
    forall i, j | 0 <= i < PROC_NUM && 0 <= j < PROC_NUM && i != j ensures OpenApart(r, n.prog[i], n.prog[j]) {
      assert OpenApart(s.k, s.prog[i], s.prog[j]);
      if i == me { assert OpenApart(r, g, s.prog[j]); }
      if j == me { assert OpenApart(r, g, s.prog[i]); }
    }
  }

  /** The tokens of the ports in use, through a step that keeps their sums. */
  lemma TokensStay(s: Sys, r: Kern, g: Prog, p: int)
    requires SysInv(s) && Live(s) && WF(r) && InUse(s.k, p) && ShiftsPort(s.k, r, p, 0, 0)
    requires !Me(s).WriteAtTrap? && !Me(s).ReadAtTrap? && !g.WriteAtTrap? && !g.ReadAtTrap?
    ensures TokensOk(Goes(s, r, g), p)
  {
    hide KernelInv;
    InvParts(s.k);
    OnlyPlace(s.k, s.k.current);
    AdvancePort(s, r, g, p, 0, 0);
  }

  lemma OpenPortStep(s: Sys)
    requires SysInv(s) && Enabled(s, OpenPort)
    ensures SysInv(Next(s, OpenPort))
  {
    hide KernelInv, TokensOk, Roles, Reserved, Leaves, Blanks, ProgOk, Held, Enter, OpenApart;
    InvParts(s.k);
    var k, p := s.k, FreePort(s.k.port, 0);
    var r, g := PortAllocHandler(k).0, OpenAtWrite(p);
    EntersAlloc(k, 0);
    EnterKeeps(k, PortAlloc);
    NewPort(k, p);
    NotHeld(s, -1);
    HoldsNothing(r, p);
    forall i | 0 <= i < PROC_NUM && i != k.current
      ensures ProgOk(r, s.prog[i]) && Reserved(r, s.prog[i]) && Held(r, s.prog[i]) == Held(k, s.prog[i])
        && OpenApart(r, g, s.prog[i])
    {
      assert ProgOk(k, s.prog[i]);
      if !s.prog[i].Elsewhere? { PortOwned(k, s.prog[i]); }
      OtherInOrder(s, r, -1, i);
      OtherPort(r, g, s.prog[i]);
    }
    forall q | InUse(r, q) ensures TokensOk(Goes(s, r, g), q) { TokensStay(s, r, g, q); }
    Assemble(s, r, g);
  }

  lemma OtherPort(r: Kern, g: Prog, h: Prog)
    requires WF(r) && Held(r, g) == {} && (Opens(g) && Opens(h) ==> g.port != h.port)
    ensures OpenApart(r, g, h)
  {
  }

  /** A port made live is not in use, and nothing else has changed. */
  lemma NewPort(k: Kern, p: int)
    requires WF(k) && Roles(k) && Blanks(k) && k.current != 0 && p == FreePort(k.port, 0) < PORT_NUM
    ensures var r := PortAllocHandler(k).0;
            && PortAllocHandler(k).1 == Eax(p) && Roles(r) && Blanks(r) && Leaves(k, r, -1) && ProgOk(r, OpenAtWrite(p))
            && !Owned(k, p) && (forall q :: InUse(k, q) <==> InUse(r, q))
            && (forall q :: InUse(k, q) ==> ShiftsPort(k, r, q, 0, 0))
            && forall h: Prog :: h.Elsewhere? || Owned(k, h.port) ==> CutStays(k, r, h)
  {
    hide PortAllocHandler, Roles, Shifts, ShiftsPort, Leaves, Blanks, ProgOk, InUse, CutStays;
    NewPortIs(k, p);
    var r := PortAllocHandler(k).0;
    NewPortSums(k, r, p);
    ShiftsRoles(k, r, 0, 0, 0);
    NewPortLeaves(k, r, p);
    NewPortBlank(k, r, p);
  }

  lemma NewPortBlank(k: Kern, r: Kern, p: int)
    requires WF(k) && WF(r) && Blanks(k) && k.current != 0 && IsPort(p) && !Owned(k, p)
    requires r.port == k.port[p := Port(k.current, 0, 0, 1, [], [], [], [])]
    ensures Blanks(r) && ProgOk(r, OpenAtWrite(p)) && forall q :: InUse(k, q) <==> InUse(r, q)
    ensures forall h: Prog :: h.Elsewhere? || Owned(k, h.port) ==> CutStays(k, r, h)
  {
    assert forall q :: IsPort(q) && q != p ==> r.port[q] == k.port[q];
  }

  lemma NewPortIs(k: Kern, p: int)
    requires WF(k) && p == FreePort(k.port, 0) < PORT_NUM
    ensures var (r, reply) := PortAllocHandler(k);
            && reply == Eax(p) && r.sem == k.sem && r.semLog == k.semLog && k.port[p].owner == 0
            && r.port == k.port[p := Port(k.current, 0, 0, 1, [], [], [], [])]
  {
  }

  lemma NewPortSums(k: Kern, r: Kern, p: int)
    requires WF(k) && WF(r) && IsPort(p) && !Owned(k, p) && r.sem == k.sem && r.semLog == k.semLog
    requires r.port == k.port[p := r.port[p]] && r.port[p].readSid == 0
    ensures Shifts(k, r, 0, 0, 0) && forall q :: InUse(k, q) ==> ShiftsPort(k, r, q, 0, 0)
  {
    forall q | InUse(k, q) ensures ShiftsPort(k, r, q, 0, 0) {}
  }

  lemma NewPortLeaves(k: Kern, r: Kern, p: int)
    requires WF(k) && WF(r) && IsPort(p) && !Owned(k, p) && r.sem == k.sem && r.semLog == k.semLog
    requires r.port == k.port[p := r.port[p]]
    ensures Leaves(k, r, -1)
  {
    assert forall q :: IsPort(q) && q != p ==> r.port[q] == k.port[q];
  }

  lemma HoldsNothing(r: Kern, p: int)
    requires WF(r)
    ensures Reserved(r, OpenAtWrite(p)) && Held(r, OpenAtWrite(p)) == {}
  {
  }

  lemma SemGiven(s: Sys, r: Kern, f: int, passes: int)
    requires SysInv(s) && Enabled(s, OpenSem) && f == FreeSem(s.k.sem, 0)
    requires passes == (if Me(s).OpenAtWrite? then QUEUE_SIZE else 0) && r == SemAllocHandler(s.k, passes).0
    ensures ProgOk(r, AfterSem(Me(s), f)) && Held(r, AfterSem(Me(s), f)) == Held(s.k, Me(s)) + {f}
    ensures SemAllocHandler(s.k, passes).1 == Eax(f) && r.port == s.k.port
  {
    hide KernelInv, TokensOk, Roles, Blanks, Reserved, OpenApart;
    assert ProgOk(s.k, Me(s));
  }

  lemma SamePorts(k: Kern, r: Kern)
    requires WF(k) && WF(r) && r.port == k.port
    ensures (forall p :: InUse(r, p) <==> InUse(k, p)) && (Blanks(k) ==> Blanks(r))
    ensures forall t :: Private(r, t) <==> Private(k, t)
    ensures forall h :: CutStays(k, r, h)
  {
  }

  /** The semaphore given served no port. */
  lemma GivenReserved(s: Sys, r: Kern, f: int, g: Prog)
    requires SysInv(s) && Live(s) && WF(r) && r.port == s.k.port && f == FreeSem(s.k.sem, 0) < SEM_NUM
    requires Held(r, g) == Held(s.k, Me(s)) + {f}
    ensures Reserved(r, g)
  {
    hide KernelInv, TokensOk, Blanks, OpenApart, ProgOk, Held;
    assert Reserved(s.k, Me(s));
    SamePorts(s.k, r);
    forall p | InUse(s.k, p) ensures s.k.port[p].writeSid != f && s.k.port[p].readSid != f { assert Role(s.k, p); }
    assert Private(s.k, f);
  }

  lemma CarriedPort(k: Kern, r: Kern, q: int)
    requires WF(k) && WF(r) && Carries(k, r) && InUse(r, q)
    ensures InUse(k, q) && ShiftsPort(k, r, q, 0, 0)
  {
  }

  lemma OpenSemStep(s: Sys)
    requires SysInv(s) && Enabled(s, OpenSem)
    ensures SysInv(Next(s, OpenSem))
  {
    hide KernelInv, TokensOk, Roles, Reserved, Leaves, Blanks, ProgOk, Held, Carries, SemAllocHandler, Enter;
    InvParts(s.k);
    var k, f, passes := s.k, FreeSem(s.k.sem, 0), if Me(s).OpenAtWrite? then QUEUE_SIZE else 0;
    var g := AfterSem(Me(s), f);
    var r := SemAllocHandler(k, passes).0;
    EntersAlloc(k, passes);
    EnterKeeps(k, SemAlloc(passes));
    SemAllocCarries(k, passes);
    CarriesRoles(k, r);
    SemAllocLeaves(k, passes);
    NotHeld(s, f);
    SamePorts(k, r);
    SemGiven(s, r, f, passes);
    GivenReserved(s, r, f, g);
    forall i | 0 <= i < PROC_NUM && i != k.current
      ensures ProgOk(r, s.prog[i]) && Reserved(r, s.prog[i]) && Held(r, s.prog[i]) == Held(k, s.prog[i])
        && OpenApart(r, g, s.prog[i])
    {
      OtherInOrder(s, r, f, i);
      assert OpenApart(k, Me(s), s.prog[i]) && f !in Held(k, s.prog[i]);
    }
    forall q | InUse(r, q) ensures TokensOk(Goes(s, r, g), q) { CarriedPort(k, r, q); TokensStay(s, r, g, q); }
    Assemble(s, r, g);
  }

  /** A process other than p's keeps what it has when a semaphore number is stored in p. */
  lemma StoreOthers(s: Sys, p: int, d: Port, i: nat)
    requires SysInv(s) && Live(s) && IsPort(p) && PortWF(d) && Opening(s.k, p) && i < PROC_NUM && i != s.k.current
    requires Opens(Me(s)) && Me(s).port == p
    ensures var r := WithPort(s.k, p, d); ProgOk(r, s.prog[i]) && Held(r, s.prog[i]) == Held(s.k, s.prog[i])
    ensures !s.prog[i].Elsewhere? ==> s.prog[i].port != p
  {
    hide KernelInv, TokensOk, Roles, Reserved, Blanks;
    assert ProgOk(s.k, s.prog[i]) && OpenApart(s.k, Me(s), s.prog[i]);
  }

  /** Ports in use keep their sums when a number is stored in one that is not. */
  lemma StoreSums(k: Kern, p: int, d: Port, q: int)
    requires WF(k) && IsPort(p) && PortWF(d) && InUse(k, q) && q != p
    ensures ShiftsPort(k, WithPort(k, p, d), q, 0, 0) && InUse(WithPort(k, p, d), q)
  {
  }

  lemma StoreWriteStep(s: Sys)
    requires SysInv(s) && Enabled(s, OpenStore) && Me(s).OpenGotWrite?
    ensures SysInv(Next(s, OpenStore))
  {
    hide KernelInv, TokensOk, Roles, Blanks, Reserved, Held, ProgOk;
    InvParts(s.k);
    var k, p, w := s.k, Me(s).port, Me(s).sid;
    AtStore(s);
    var d := k.port[p].(writeSid := w);
    var r, g := WithPort(k, p, d), OpenAtRead(p);
    Relabel(k, p, w, 0);
    StoredRoles(k, p, d);
    StoredHeld(s, r);
    forall i | 0 <= i < PROC_NUM && i != k.current
      ensures ProgOk(r, s.prog[i]) && Reserved(r, s.prog[i]) && Held(r, s.prog[i]) == Held(k, s.prog[i])
        && OpenApart(r, g, s.prog[i])
    {
      assert OpenApart(k, Me(s), s.prog[i]) && Reserved(k, s.prog[i]);
      StoreOthers(s, p, d, i);
      ReservedToo(k, r, s.prog[i], s.prog[i]);
    }
    assert Reserved(k, Me(s));
    ReservedToo(k, r, Me(s), g);
    forall q | InUse(r, q) ensures TokensOk(Goes(s, r, g), q) { StoreSums(k, p, d, q); TokensStay(s, r, g, q); }
    Assemble(s, r, g);
  }

  /** What is known at a store. */
  lemma AtStore(s: Sys)
    requires SysInv(s) && Enabled(s, OpenStore) && (Me(s).OpenGotWrite? || Me(s).OpenGotRead?)
    ensures WF(s.k) && Opening(s.k, Me(s).port) && IsSid(Me(s).sid) && IsSid(s.k.port[Me(s).port].writeSid)
    ensures s.k.port[Me(s).port].readSid == 0
  {
    hide KernelInv, TokensOk, Roles, Blanks, Reserved;
    InvParts(s.k);
    Bounds(s.k);
  }

  lemma StoredRoles(k: Kern, p: int, d: Port)
    requires WF(k) && Roles(k) && Blanks(k) && Opening(k, p) && PortWF(d) && d == k.port[p].(writeSid := d.writeSid)
    ensures var r := WithPort(k, p, d);
            && Roles(r) && Blanks(r) && !InUse(r, p) && (forall q :: InUse(r, q) <==> InUse(k, q))
            && forall t :: Private(r, t) <==> Private(k, t)
  {
    var r := WithPort(k, p, d);
    forall q | InUse(r, q) ensures Role(r, q) { assert Role(k, q); }
    forall q, t | InUse(r, q) && InUse(r, t) && q != t ensures RolesApart(r, q, t) { assert RolesApart(k, q, t); }
  }

  lemma StoredHeld(s: Sys, r: Kern)
    requires SysInv(s) && Enabled(s, OpenStore) && Me(s).OpenGotWrite? && IsPort(Me(s).port) && IsSid(Me(s).sid)
    requires r == WithPort(s.k, Me(s).port, s.k.port[Me(s).port].(writeSid := Me(s).sid))
    ensures ProgOk(r, OpenAtRead(Me(s).port)) && Held(r, OpenAtRead(Me(s).port)) == Held(s.k, Me(s))
  {
    hide KernelInv, TokensOk, Roles, Blanks, Reserved;
  }

  lemma ReservedToo(k: Kern, r: Kern, g: Prog, h: Prog)
    requires WF(k) && WF(r) && Reserved(k, g) && Held(r, h) == Held(k, g) && forall t :: Private(k, t) ==> Private(r, t)
    ensures Reserved(r, h)
  {
  }

  /** The port is in use from the store of read_sid on. */
  lemma StoreReadStep(s: Sys)
    requires SysInv(s) && Enabled(s, OpenStore) && Me(s).OpenGotRead?
    ensures SysInv(Next(s, OpenStore))
  {
    hide KernelInv, TokensOk, Roles, Blanks, Reserved, Held, ProgOk;
    InvParts(s.k);
    var k, p, t := s.k, Me(s).port, Me(s).sid;
    AtStore(s);
    var d := k.port[p].(readSid := t);
    var r, g := WithPort(k, p, d), OpenAtCut(p);
    assert d == k.port[p].(writeSid := k.port[p].writeSid, readSid := t);
    Relabel(k, p, k.port[p].writeSid, t);
    NowInUse(s, r);
    forall i | 0 <= i < PROC_NUM && i != k.current
      ensures ProgOk(r, s.prog[i]) && Reserved(r, s.prog[i]) && Held(r, s.prog[i]) == Held(k, s.prog[i])
        && OpenApart(r, g, s.prog[i])
    {
      assert OpenApart(k, Me(s), s.prog[i]) && Reserved(k, s.prog[i]);
      StoreOthers(s, p, d, i);
      StillReserved(s, r, i);
    }
    forall q | InUse(r, q) ensures TokensOk(Goes(s, r, g), q) {
      if q == p { NewTokens(s, r, g); } else { StoreSums(k, p, d, q); TokensStay(s, r, g, q); }
    }
    Assemble(s, r, g);
  }

  lemma NowInUse(s: Sys, r: Kern)
    requires SysInv(s) && Enabled(s, OpenStore) && Me(s).OpenGotRead? && IsPort(Me(s).port) && IsSid(Me(s).sid)
    requires r == WithPort(s.k, Me(s).port, s.k.port[Me(s).port].(readSid := Me(s).sid))
    ensures Roles(r) && Blanks(r) && ProgOk(r, OpenAtCut(Me(s).port)) && Reserved(r, OpenAtCut(Me(s).port))
    ensures forall q :: InUse(r, q) <==> InUse(s.k, q) || q == Me(s).port
  {
    hide KernelInv, TokensOk, OpenApart;
    InvParts(s.k);
    var k, p := s.k, Me(s).port;
    assert ProgOk(k, Me(s)) && Reserved(k, Me(s));
    forall q | InUse(r, q) ensures Role(r, q) { if q != p { assert Role(k, q); } }
    forall q, t | InUse(r, q) && InUse(r, t) && q != t ensures RolesApart(r, q, t) {
      if q != p && t != p { assert RolesApart(k, q, t); }
      assert Private(k, k.port[p].writeSid) && Private(k, Me(s).sid);
    }
  }

  /** What other processes hold is not among the new port's semaphores. */
  lemma StillReserved(s: Sys, r: Kern, i: nat)
    requires SysInv(s) && Enabled(s, OpenStore) && Me(s).OpenGotRead? && IsPort(Me(s).port) && IsSid(Me(s).sid)
    requires r == WithPort(s.k, Me(s).port, s.k.port[Me(s).port].(readSid := Me(s).sid))
    requires i < PROC_NUM && i != s.k.current && Held(r, s.prog[i]) == Held(s.k, s.prog[i])
    ensures Reserved(r, s.prog[i])
  {
    hide KernelInv, TokensOk, Roles, Blanks, ProgOk;
    assert Reserved(s.k, s.prog[i]) && OpenApart(s.k, Me(s), s.prog[i]);
    if Held(s.k, s.prog[i]) != {} { HoldersOpen(s.k, s.prog[i]); }
    forall t | t in Held(r, s.prog[i]) ensures Private(r, t) { assert Private(s.k, t); }
  }

  lemma HoldersOpen(k: Kern, g: Prog)
    requires WF(k) && Held(k, g) != {}
    ensures Opens(g)
  {
  }

  /** A port starts with a pass for every slot, none for characters, and nobody at its traps. */
  lemma NewTokens(s: Sys, r: Kern, g: Prog)
    requires SysInv(s) && Enabled(s, OpenStore) && Me(s).OpenGotRead? && IsPort(Me(s).port) && IsSid(Me(s).sid)
    requires r == WithPort(s.k, Me(s).port, s.k.port[Me(s).port].(readSid := Me(s).sid)) && g == OpenAtCut(Me(s).port)
    ensures TokensOk(Goes(s, r, g), Me(s).port)
  {
    hide KernelInv, TokensOk, Roles, Reserved, OpenApart;
    var p, n := Me(s).port, Goes(s, r, g);
    assert ProgOk(s.k, Me(s));
    forall i | 0 <= i < PROC_NUM ensures i !in AtWrite(n.prog, p) && i !in AtRead(n.prog, p) {
      assert ProgOk(s.k, s.prog[i]);
    }
    NobodyThere(n, p);
  }

  lemma NobodyThere(n: Sys, p: int)
    requires WF(n.k) && IsPort(p) && |n.prog| == PROC_NUM && WriteSlots(n.k, p) == QUEUE_SIZE && ReadSlots(n.k, p) == 0
    requires n.k.sem[n.k.port[p].writeSid].waitQ == [] && n.k.sem[n.k.port[p].readSid].waitQ == []
    requires forall i :: 0 <= i < PROC_NUM ==> i !in AtWrite(n.prog, p) && i !in AtRead(n.prog, p)
    ensures TokensOk(n, p)
  {
    assert AtWrite(n.prog, p) == {} && AtRead(n.prog, p) == {};
  }

  /** The last store finds nothing queued. */
  lemma CutStep(s: Sys)
    requires SysInv(s) && Enabled(s, OpenStore) && Me(s).OpenAtCut?
    ensures SysInv(Next(s, OpenStore)) && Next(s, OpenStore).k == s.k
  {
    hide KernelInv, Blanks, Roles, TokensOk, Reserved;
    InvParts(s.k);
    var p := Me(s).port;
    assert s.k.port[p].(readQ := []) == s.k.port[p] && s.k.port[p := s.k.port[p]] == s.k.port;
    LeavesSelf(s.k, -1);
    NotHeld(s, -1);
    SelfShifts(s.k, 0);
    Advance(s, s.k, Elsewhere, 0, -1);
  }

  lemma SelfShifts(k: Kern, p0: int)
    requires WF(k)
    ensures Shifts(k, k, p0, 0, 0)
  {
    forall p | InUse(k, p) ensures ShiftsPort(k, k, p, 0, 0) {}
  }

  lemma StoreStep(s: Sys)
    requires SysInv(s) && Enabled(s, OpenStore)
    ensures SysInv(Next(s, OpenStore))
  {
    hide SysInv, Next;
    if Me(s).OpenGotWrite? {
      StoreWriteStep(s);
    } else if Me(s).OpenGotRead? {
      StoreReadStep(s);
    } else {
      CutStep(s);
    }
  }

  // ---- runs ----------------------------------------------------------------------------------

  /** Every step keeps the invariant of the whole system. */
  lemma StepKeeps(s: Sys, e: Event)
    requires SysInv(s) && Enabled(s, e)
    ensures SysInv(Next(s, e))
  {
    hide SysInv, Enabled, Next;
    match e {
      case OpenPort => OpenPortStep(s);
      case OpenSem => OpenSemStep(s);
      case OpenStore => StoreStep(s);
      case WriteWait => WaitStep(s, e);
      case ReadWait => WaitStep(s, e);
      case WriteTrap => WriteStep(s);
      case ReadTrap => ReadStep(s);
      case BeginWrite(_, _) => BeginStep(s, e);
      case BeginRead(_) => BeginStep(s, e);
      case _ => PlainStep(s, e);
    }
  }

  /** The system after n processes were created: every process outside the driver. */
  function Start(n: nat): Sys {
    Sys(Booted(n), seq(PROC_NUM, _ => Elsewhere))
  }

  /** The first state is one main leaves, however many processes it creates. */
  predicate FromBoot(s: Sys) {
    exists n :: 1 <= n < PROC_NUM && s == Start(n)
  }

  /** ss is a run of the events es. */
  ghost predicate IsRun(ss: seq<Sys>, es: seq<Event>) {
    && |ss| == |es| + 1
    && forall i :: 0 <= i < |es| ==> Enabled(ss[i], es[i]) && ss[i + 1] == Next(ss[i], es[i])
  }

  lemma NoneOpen(k: Kern)
    requires WF(k) && k.port == Zeroed().port
    ensures Roles(k) && Blanks(k) && forall p :: !InUse(k, p)
  {
  }

  lemma StartInv(s: Sys)
    requires FromBoot(s)
    ensures SysInv(s) && Live(s)
  {
    hide KernelInv, TokensOk, Role, RolesApart, Booted, Roles, Blanks;
    var n :| 1 <= n < PROC_NUM && s == Start(n);
    BootEstablishes(n);
    InvParts(s.k);
    NoneOpen(s.k);
  }

  /** Whatever the interleaving of processes and interrupts, every state of a run keeps the invariant. */
  lemma {:induction false} RunKeeps(ss: seq<Sys>, es: seq<Event>, i: nat)
    requires IsRun(ss, es) && SysInv(ss[0]) && i <= |es|
    ensures SysInv(ss[i])
  {
    if i > 0 {
      RunKeeps(ss, es, i - 1);
      StepKeeps(ss[i - 1], es[i - 1]);
    }
  }

  // ---- what every run guarantees -------------------------------------------------------------

  /** Past their SemWait on port p's transmit semaphore, not yet at PORTWRITE. */
  function HoldingSlot(s: Sys, p: int): set<int>
    requires WF(s.k) && IsPort(p)
  {
    set i | i in AtWrite(s.prog, p) && i !in s.k.sem[s.k.port[p].writeSid].waitQ
  }

  /** Past their SemWait on port p's receive semaphore, not yet at PORTREAD. */
  function HoldingChar(s: Sys, p: int): set<int>
    requires WF(s.k) && IsPort(p)
  {
    set i | i in AtRead(s.prog, p) && i !in s.k.sem[s.k.port[p].readSid].waitQ
  }

  lemma WaitersCounted(k: Kern, sid: int, at: set<int>)
    requires Conserved(k) && IsSid(sid)
    requires forall x :: x in k.sem[sid].waitQ ==> x in at
    ensures |set i | i in at && i !in k.sem[sid].waitQ| == |at| - |k.sem[sid].waitQ|
  {
    var q := k.sem[sid].waitQ;
    forall x ensures Count(q, x) <= 1 { if x in q { WaitsOnce(k, x, sid, sid); } }
    Distinct(q, at);
    var waiting := set x | x in q;
    assert (set i | i in at && i !in q) == at - waiting;
    assert waiting <= at;
  }

  /** Transmit tokens, in every interleaving in which no character comes in for a port being opened: passes, queued
      characters and slots held always add up to the queue's capacity. */
  lemma TransmitTokens(ss: seq<Sys>, es: seq<Event>, i: nat, p: int)
    requires IsRun(ss, es) && FromBoot(ss[0]) && i <= |es|
    requires WF(ss[i].k) && InUse(ss[i].k, p)
    ensures var d := ss[i].k.port[p];
            && ss[i].k.sem[d.writeSid].passes + |d.writeQ| + |HoldingSlot(ss[i], p)| == QUEUE_SIZE
            && ss[i].k.sem[d.writeSid].passes >= 0
  {
    StartInv(ss[0]);
    RunKeeps(ss, es, i);
    var s := ss[i];
    assert TokensOk(s, p) && Role(s.k, p);
    var w := s.k.port[p].writeSid;
    assert Lawful(s.k.sem[w], s.k.semLog[w]);
    WaitersCounted(s.k, w, AtWrite(s.prog, p));
  }

  /** Receive tokens: passes and characters held always add up to the characters queued, also when
      bytes were dropped on a full queue. */
  lemma ReceiveTokens(ss: seq<Sys>, es: seq<Event>, i: nat, p: int)
    requires IsRun(ss, es) && FromBoot(ss[0]) && i <= |es|
    requires WF(ss[i].k) && InUse(ss[i].k, p)
    ensures var d := ss[i].k.port[p];
            && ss[i].k.sem[d.readSid].passes + |HoldingChar(ss[i], p)| == |d.readQ|
            && ss[i].k.sem[d.readSid].passes >= 0
  {
    StartInv(ss[0]);
    RunKeeps(ss, es, i);
    var s := ss[i];
    assert TokensOk(s, p) && Role(s.k, p);
    var r := s.k.port[p].readSid;
    assert Lawful(s.k.sem[r], s.k.semLog[r]);
    WaitersCounted(s.k, r, AtRead(s.prog, p));
  }

  /** In those interleavings neither driver panic is reachable, with any number of writers and readers up to
      PROC_NUM - 1 in all. OpeningWindow reaches both panics in others. */
  lemma DriverNeverPanics(ss: seq<Sys>, es: seq<Event>, i: nat)
    requires IsRun(ss, es) && FromBoot(ss[0]) && i < |es|
    ensures Enabled(ss[i], es[i])
    ensures es[i].WriteTrap? ==> |ss[i].k.port[Me(ss[i]).port].writeQ| < QUEUE_SIZE
    ensures es[i].ReadTrap? ==> ss[i].k.port[Me(ss[i]).port].readQ != []
  {
    StartInv(ss[0]);
    RunKeeps(ss, es, i);
    if es[i].WriteTrap? { WriteSlotHeld(ss[i]); }
    if es[i].ReadTrap? { ReadCharHeld(ss[i]); }
  }

  /** Every process identifier is in exactly one place, in the matching state, and there is room for it
      in every queue it is not in. */
  lemma PidsConserved(ss: seq<Sys>, es: seq<Event>, i: nat, pid: int)
    requires IsRun(ss, es) && FromBoot(ss[0]) && i <= |es| && 1 <= pid < PROC_NUM
    ensures WF(ss[i].k) && Places(ss[i].k, pid) == 1 && StateAgrees(ss[i].k, pid)
    ensures pid !in ss[i].k.ready ==> |ss[i].k.ready| < QUEUE_SIZE
    ensures forall s :: 0 <= s < SEM_NUM && pid !in ss[i].k.sem[s].waitQ ==> |ss[i].k.sem[s].waitQ| < QUEUE_SIZE
  {
    StartInv(ss[0]);
    RunKeeps(ss, es, i);
    RoomFor(ss[i].k, pid);
  }

  /** The semaphore law and the integrity of every port's streams hold throughout every run. */
  lemma LawsThroughout(ss: seq<Sys>, es: seq<Event>, i: nat)
    requires IsRun(ss, es) && FromBoot(ss[0]) && i <= |es|
    ensures WF(ss[i].k)
    ensures forall s :: 0 <= s < SEM_NUM ==> Lawful(ss[i].k.sem[s], ss[i].k.semLog[s])
    ensures forall p :: 0 <= p < PORT_NUM ==> StreamOk(ss[i].k.port[p], ss[i].k.portLog[p])
  {
    StartInv(ss[0]);
    RunKeeps(ss, es, i);
  }
}
