/** Who runs next: what every kernel entry does to the CPU, the ready queue and the time slice. From
    it, a ready process is dispatched within a bounded number of ticks, and the scheduler always finds
    a process as long as process 1 never blocks. */
module Scheduling {
  import opened Queue
  import opened KernelSpec
  import opened Pids
  import opened Laws
  import opened Tokens
  import opened Progress
  import opened Protocol

  /** The event makes its process wait on a semaphore. */
  predicate Waits(e: Event) {
    e.Wait? || e.WriteWait? || e.ReadWait?
  }

  // ---- one step ------------------------------------------------------------------------------

  /** Either the running process goes on, one tick older after a tick, or the front of the ready queue
      takes over with a fresh slice. Only the running process can start to wait, and only by a wait. The clock counts
      the ticks. */
  ghost predicate Turn(k: Kern, r: Kern, tick: bool, waits: bool)
    requires WF(k) && WF(r)
  {
    && r.free == k.free && r.time == k.time + Bit(tick)
    && (forall s :: 0 <= s < SEM_NUM ==> WaitersFrom(k, r, s, waits))
    && (|| (r.current == k.current && k.ready <= r.ready
            && r.pcb[r.current].cpuTime == k.pcb[k.current].cpuTime + Bit(tick))
        || (k.ready != [] && r.current == k.ready[0] && k.ready[1..] <= r.ready && r.pcb[r.current].cpuTime == 0)
        || (k.ready == [] && r.pcb[r.current].cpuTime == 0))
  }

  lemma GrowsTurn(k: Kern, r: Kern)
    requires WF(k) && WF(r) && Grows(k, r)
    ensures Turn(k, r, false, false)
  {
    forall s | 0 <= s < SEM_NUM ensures WaitersFrom(k, r, s, false) { assert WaitersFrom(k, r, s, false); }
  }

  lemma TimerTurn(k: Kern)
    requires Conserved(k) && k.current != 0
    ensures Turn(k, Scheduler(TimerHandler(k)), true, false)
  {
    Room(k);
  }

  lemma WaitTurn(k: Kern, sid: int)
    requires Conserved(k) && k.current != 0 && IsSid(sid)
    ensures Turn(k, Scheduler(SemWaitHandler(k, sid)), false, true)
  {
    var m := SemWaitHandler(k, sid);
    var r := Scheduler(m);
    forall s | 0 <= s < SEM_NUM ensures WaitersFrom(k, r, s, true) { }
  }

  lemma EnterTurn(k: Kern, t: Trap)
    requires KernelInv(k) && k.current != 0 && TrapWF(t)
    ensures Turn(k, Enter(k, t).0, t.Timer?, t.SemWait?)
  {
    hide PortHandler, SemPostHandler, PortWriteOne, KernelInv;
    InvParts(k);
    match t {
      case Timer => TimerTurn(k);
      case SemWait(sid) => WaitTurn(k, sid);
      case SemPost(sid) => PostGrows(k, sid); GrowsTurn(k, SemPostHandler(k, sid));
      case PortIrq(uart) => HandlerGrows(k, uart, 0); GrowsTurn(k, PortHandler(k, uart, 0));
      case PortWrite(ch, p) =>
        WriteOneGrows(GiveWrite(k, p, ch), p);
        GrowsOn(k, GiveWrite(k, p, ch), PortWriteOne(GiveWrite(k, p, ch), p));
        GrowsTurn(k, PortWriteHandler(k, ch, p));
      case _ => GrowsTurn(k, Dispatch(k, t).0);
    }
  }

  lemma StepTurn(s: Sys, e: Event)
    requires SysInv(s) && Enabled(s, e)
    ensures Turn(s.k, Next(s, e).k, e.Tick?, Waits(e))
  {
    hide SysInv, Enter, Turn, ProgOk, SerialOk, OwnSem, InUse, KernelInv;
    Kernel(s);
    TrapProper(s, e);
    match e {
      case OpenStore => StoreTurn(s);
      case BeginWrite(_, _) => GrowsTurn(s.k, s.k);
      case BeginRead(_) => GrowsTurn(s.k, s.k);
      case _ => EnterTurn(s.k, TrapOf(s, e));
    }
  }

  lemma Kernel(s: Sys)
    requires SysInv(s)
    ensures KernelInv(s.k) && WF(s.k)
  {
  }

  lemma TickIs(s: Sys, e: Event)
    requires Enabled(s, e)
    ensures s.k.current != 0 && (e.Tick? ==> Next(s, e).k == Enter(s.k, Timer).0)
  {
  }

  lemma StoreTurn(s: Sys)
    requires SysInv(s) && Enabled(s, OpenStore)
    ensures Turn(s.k, Next(s, OpenStore).k, false, false)
  {
    hide KernelInv;
    InvParts(s.k);
    GrowsTurn(s.k, Next(s, OpenStore).k);
  }

  // ---- bounded dispatch ----------------------------------------------------------------------

  /** The running process has ticks of its slice left. */
  predicate SliceOk(k: Kern)
    requires WF(k)
  {
    0 <= k.pcb[k.current].cpuTime < TIME_LIMIT
  }

  function Ticks(es: seq<Event>): nat {
    if es == [] then 0 else Bit(es[0].Tick?) + Ticks(es[1..])
  }

  /** An upper bound on the ticks until the process at index j of the ready queue is running. */
  function Distance(k: Kern, j: int): int
    requires WF(k)
  {
    j * TIME_LIMIT + (TIME_LIMIT - k.pcb[k.current].cpuTime)
  }

  lemma SliceKept(k: Kern, r: Kern, tick: bool, waits: bool)
    requires WF(k) && WF(r) && SliceOk(k) && Turn(k, r, tick, waits)
    requires tick ==> r == Enter(k, Timer).0 && k.current != 0
    ensures SliceOk(r)
  {
  }

  /** A step brings a ready process to the CPU, or one place forward with a full slice ahead of it, or
      leaves its place and spends what ticks there were. */
  lemma CloserOrThere(k: Kern, r: Kern, tick: bool, waits: bool, j: nat)
    requires WF(k) && WF(r) && SliceOk(k) && SliceOk(r) && Turn(k, r, tick, waits) && j < |k.ready|
    ensures r.current == k.ready[j] ||
            exists i :: 0 <= i < |r.ready| && r.ready[i] == k.ready[j] && Distance(r, i) <= Distance(k, j) - Bit(tick)
  {
    if && r.current == k.current && k.ready <= r.ready
       && r.pcb[r.current].cpuTime == k.pcb[k.current].cpuTime + Bit(tick)
    {
      assert r.ready[j] == k.ready[j] && Distance(r, j) <= Distance(k, j) - Bit(tick);
    } else if j > 0 {
      assert k.ready[1..][j - 1] == k.ready[j];
      assert r.ready[j - 1] == k.ready[j] && Distance(r, j - 1) <= Distance(k, j) - Bit(tick);
    }
  }

  lemma {:induction false} Approaches(ss: seq<Sys>, es: seq<Event>, j: nat) returns (i: nat)
    requires IsRun(ss, es) && SysInv(ss[0]) && SliceOk(ss[0].k) && j < |ss[0].k.ready|
    requires Ticks(es) >= Distance(ss[0].k, j)
    ensures i <= |es| && ss[i].k.current == ss[0].k.ready[j]
    decreases |es|
  {
    hide SysInv, KernelInv, Next, Turn, Enabled;
    assert es != [];
    var k, e := ss[0].k, es[0];
    assert Enabled(ss[0], e) && ss[1] == Next(ss[0], e);
    Kernel(ss[0]);
    StepKeeps(ss[0], e);
    Kernel(ss[1]);
    TickIs(ss[0], e);
    StepTurn(ss[0], e);
    SliceKept(k, ss[1].k, e.Tick?, Waits(e));
    CloserOrThere(k, ss[1].k, e.Tick?, Waits(e), j);
    if ss[1].k.current == k.ready[j] {
      return 1;
    }
    var m :| 0 <= m < |ss[1].k.ready| && ss[1].k.ready[m] == k.ready[j]
        && Distance(ss[1].k, m) <= Distance(k, j) - Bit(e.Tick?);
    TailRun(ss, es);
    i := Approaches(ss[1..], es[1..], m);
    i := i + 1;
  }

  lemma TailRun(ss: seq<Sys>, es: seq<Event>)
    requires IsRun(ss, es) && es != []
    ensures IsRun(ss[1..], es[1..])
  {
    forall i | 0 <= i < |es[1..]|
      ensures Enabled(ss[1..][i], es[1..][i]) && ss[1..][i + 1] == Next(ss[1..][i], es[1..][i])
    {
      assert Enabled(ss[i + 1], es[i + 1]) && ss[i + 2] == Next(ss[i + 1], es[i + 1]);
    }
  }

  lemma StartSlice(s: Sys)
    requires FromBoot(s)
    ensures WF(s.k) && SliceOk(s.k) && InitRunnable(s.k)
  {
    var n :| 1 <= n < PROC_NUM && s == Start(n);
    BootEstablishes(n);
  }

  lemma {:induction false} SliceThroughout(ss: seq<Sys>, es: seq<Event>, i: nat)
    requires IsRun(ss, es) && FromBoot(ss[0]) && i <= |es|
    ensures SysInv(ss[i]) && SliceOk(ss[i].k)
  {
    StartInv(ss[0]);
    if i == 0 {
      StartSlice(ss[0]);
    } else {
      SliceThroughout(ss, es, i - 1);
      assert Enabled(ss[i - 1], es[i - 1]) && ss[i] == Next(ss[i - 1], es[i - 1]);
      StepKeeps(ss[i - 1], es[i - 1]);
      StepTurn(ss[i - 1], es[i - 1]);
      SliceKept(ss[i - 1].k, ss[i].k, es[i - 1].Tick?, Waits(es[i - 1]));
    }
  }

  // ---- a slice and no less ---------------------------------------------------------------------

  /** The event blocks the process that runs. */
  ghost predicate Blocks(s: Sys, e: Event)
    requires SysInv(s) && Enabled(s, e)
  {
    Waits(e) && Blocked(s, TrapOf(s, e))
  }

  predicate Blocked(s: Sys, t: Trap)
    requires Live(s)
  {
    t.SemWait? && IsSid(t.sid) && s.k.sem[t.sid].passes <= 0
  }

  /** A trap that neither is the timer's nor blocks leaves its process running. */
  lemma EnterGoesOn(k: Kern, t: Trap)
    requires KernelInv(k) && k.current != 0 && TrapWF(t) && !t.Timer? && (t.SemWait? ==> k.sem[t.sid].passes > 0)
    ensures Grows(k, Enter(k, t).0)
  {
    hide PortHandler, SemPostHandler, PortWriteOne, KernelInv;
    InvParts(k);
    match t {
      case SemPost(sid) => PostGrows(k, sid);
      case PortIrq(uart) => HandlerGrows(k, uart, 0);
      case PortWrite(ch, p) =>
        WriteOneGrows(GiveWrite(k, p, ch), p);
        GrowsOn(k, GiveWrite(k, p, ch), PortWriteOne(GiveWrite(k, p, ch), p));
      case _ =>
    }
  }

  /** Before its slice is used up a process that does not block goes on running. */
  lemma SliceGoesOn(s: Sys, e: Event)
    requires SysInv(s) && Live(s) && Enabled(s, e) && !Blocks(s, e)
    requires s.k.pcb[s.k.current].cpuTime + Bit(e.Tick?) < TIME_LIMIT
    ensures var r := Next(s, e).k;
            WF(r) && r.current == s.k.current && r.pcb[r.current].cpuTime == s.k.pcb[s.k.current].cpuTime + Bit(e.Tick?)
  {
    hide SysInv, Enter, ProgOk, SerialOk, OwnSem, InUse, KernelInv, Grows;
    Kernel(s);
    TrapProper(s, e);
    match e {
      case Tick => TickGoesOn(s.k);
      case OpenStore =>
      case BeginWrite(_, _) =>
      case BeginRead(_) =>
      case _ =>
        EnterGoesOn(s.k, TrapOf(s, e));
        GrowsCpu(s.k, Enter(s.k, TrapOf(s, e)).0);
    }
  }

  lemma GrowsCpu(k: Kern, r: Kern)
    requires WF(k) && WF(r) && Grows(k, r)
    ensures r.current == k.current && r.pcb[r.current].cpuTime == k.pcb[k.current].cpuTime
  {
  }

  lemma TickGoesOn(k: Kern)
    requires WF(k) && k.current != 0 && k.pcb[k.current].cpuTime + 1 < TIME_LIMIT
    ensures var r := Enter(k, Timer).0;
            r.current == k.current && r.pcb[r.current].cpuTime == k.pcb[k.current].cpuTime + 1
  {
  }

  lemma {:induction false} OneTick(es: seq<Event>, e: Event)
    ensures Ticks(es + [e]) == Ticks(es) + Bit(e.Tick?)
    decreases |es|
  {
    if es == [] {
      assert [] + [e] == [e] && [e][1..] == [];
    } else {
      assert (es + [e])[1..] == es[1..] + [e];
      OneTick(es[1..], e);
    }
  }

  /** A full slice. In any run from boot a process that does not block keeps the CPU until the ticks since it got it
      are TIME_LIMIT. */
  lemma {:induction false} FullSlice(ss: seq<Sys>, es: seq<Event>, a: nat, n: nat)
    requires IsRun(ss, es) && FromBoot(ss[0]) && a <= n <= |es|
    requires WF(ss[a].k) && ss[a].k.pcb[ss[a].k.current].cpuTime + Ticks(es[a..n]) < TIME_LIMIT
    requires forall m :: a <= m < n && SysInv(ss[m]) && Enabled(ss[m], es[m]) ==> !Blocks(ss[m], es[m])
    ensures WF(ss[n].k) && ss[n].k.current == ss[a].k.current
    ensures ss[n].k.pcb[ss[n].k.current].cpuTime == ss[a].k.pcb[ss[a].k.current].cpuTime + Ticks(es[a..n])
  {
    hide SysInv, Enabled, Next, Blocks, FromBoot;
    if n > a {
      assert es[a..n] == es[a..n - 1] + [es[n - 1]];
      OneTick(es[a..n - 1], es[n - 1]);
      FullSlice(ss, es, a, n - 1);
      SliceThroughout(ss, es, n - 1);
      RunStep(ss, es, n - 1);
      SliceGoesOn(ss[n - 1], es[n - 1]);
    } else {
      assert es[a..n] == [];
    }
  }

  lemma RunStep(ss: seq<Sys>, es: seq<Event>, m: nat)
    requires IsRun(ss, es) && m < |es|
    ensures Enabled(ss[m], es[m]) && Live(ss[m]) && ss[m + 1] == Next(ss[m], es[m])
  {
  }

  /** The tick that uses up a slice sends the process to the end of the line, and the first in line runs. */
  lemma SliceEnds(s: Sys)
    requires SysInv(s) && Live(s) && s.k.pcb[s.k.current].cpuTime + 1 == TIME_LIMIT
    ensures var r, line := Next(s, Tick).k, s.k.ready + [s.k.current];
            && WF(r) && r.current == line[0] && r.ready == line[1..]
            && r.pcb[r.current] == Pcb(RUN, 0) && (r.current != s.k.current ==> r.pcb[s.k.current].state == READY)
  {
    hide KernelInv;
    InvParts(s.k);
    Room(s.k);
    OnlyPlace(s.k, s.k.current);
  }

  /** The clock shows the ticks since boot. */
  lemma {:induction false} ClockRuns(ss: seq<Sys>, es: seq<Event>, n: nat)
    requires IsRun(ss, es) && FromBoot(ss[0]) && n <= |es|
    ensures ss[n].k.time == Ticks(es[..n])
  {
    hide SysInv, Enabled, Next;
    if n > 0 {
      assert es[..n] == es[..n - 1] + [es[n - 1]];
      OneTick(es[..n - 1], es[n - 1]);
      ClockRuns(ss, es, n - 1);
      SliceThroughout(ss, es, n - 1);
      RunStep(ss, es, n - 1);
      Kernel(ss[n - 1]);
      StepKeeps(ss[n - 1], es[n - 1]);
      Kernel(ss[n]);
      StepTurn(ss[n - 1], es[n - 1]);
    } else {
      assert es[..0] == [];
      StartTime(ss[0]);
    }
  }

  lemma StartTime(s: Sys)
    requires FromBoot(s)
    ensures s.k.time == 0
  {
    var n :| 1 <= n < PROC_NUM && s == Start(n);
    CreatedTime(n);
  }

  lemma {:induction false} CreatedTime(n: nat)
    ensures Created(n).time == 0
  {
    if n > 0 { CreatedTime(n - 1); }
  }

  // ---- bounded dispatch, the theorem -------------------------------------------------------------

  /** Bounded dispatch. At any moment i of any run from boot, take the process at index j of the ready
      queue: as soon as (j + 1) * TIME_LIMIT more ticks have passed, whatever else happened, it has run. */
  lemma BoundedDispatch(ss: seq<Sys>, es: seq<Event>, i: nat, j: nat) returns (n: nat)
    requires IsRun(ss, es) && FromBoot(ss[0]) && i <= |es|
    requires j < |ss[i].k.ready| && Ticks(es[i..]) >= (j + 1) * TIME_LIMIT
    ensures i <= n <= |es| && ss[n].k.current == ss[i].k.ready[j]
  {
    SliceThroughout(ss, es, i);
    LaterRun(ss, es, i);
    n := Approaches(ss[i..], es[i..], j);
    n := i + n;
  }

  lemma {:induction false} LaterRun(ss: seq<Sys>, es: seq<Event>, i: nat)
    requires IsRun(ss, es) && i <= |es|
    ensures IsRun(ss[i..], es[i..])
  {
    if i > 0 {
      TailRun(ss, es);
      LaterRun(ss[1..], es[1..], i - 1);
      assert ss[1..][i - 1..] == ss[i..] && es[1..][i - 1..] == es[i..];
    }
  }

  // ---- the scheduler's panic -----------------------------------------------------------------

  /** Process 1 is ready or running. */
  ghost predicate InitRunnable(k: Kern)
    requires WF(k)
  {
    1 !in k.free && forall s :: 0 <= s < SEM_NUM ==> 1 !in k.sem[s].waitQ
  }

  lemma RunnableIsQueued(k: Kern)
    requires Conserved(k) && InitRunnable(k)
    ensures k.current == 1 || 1 in k.ready
  {
    assert Places(k, 1) == 1;
    NotWaiting(k.sem, 1);
  }

  lemma {:induction false} NotWaiting(sem: seq<Sem>, p: int)
    requires forall s :: 0 <= s < |sem| ==> p !in sem[s].waitQ
    ensures WaitCount(sem, p) == 0
  {
    if sem != [] {
      NotWaiting(sem[..|sem| - 1], p);
    }
  }

  /** The scheduler finds no process exactly when the running one blocks with nothing ready. */
  lemma PanicExactly(s: Sys, e: Event)
    requires SysInv(s) && Enabled(s, e)
    ensures Next(s, e).k.current == 0 <==>
            Waits(e) && s.k.sem[TrapOf(s, e).sid].passes <= 0 && s.k.ready == []
  {
    hide KernelInv, Enter, PortAllocated, Proper;
    Kernel(s);
    TrapProper(s, e);
    match e {
      case OpenStore =>
      case BeginWrite(_, _) =>
      case BeginRead(_) =>
      case _ => EnterKeeps(s.k, TrapOf(s, e));
    }
  }

  /** If process 1 never waits on a semaphore, no run ever reaches the scheduler's panic. */
  lemma {:induction false} SchedulerNeverPanics(ss: seq<Sys>, es: seq<Event>, i: nat)
    requires IsRun(ss, es) && FromBoot(ss[0]) && i <= |es|
    requires forall n :: 0 <= n < |es| && Waits(es[n]) ==> ss[n].k.current != 1
    ensures SysInv(ss[i]) && Live(ss[i]) && InitRunnable(ss[i].k)
  {
    StartInv(ss[0]);
    if i == 0 {
      StartSlice(ss[0]);
    } else {
      SchedulerNeverPanics(ss, es, i - 1);
      var s, e := ss[i - 1], es[i - 1];
      assert Enabled(s, e) && ss[i] == Next(s, e);
      StepKeeps(s, e);
      StepTurn(s, e);
      PanicExactly(s, e);
      Kernel(s);
      RunnableIsQueued(s.k);
      StaysRunnable(s.k, ss[i].k, e.Tick?, Waits(e));
    }
  }

  /** Only the running process starts to wait, and only by an event that waits. */
  lemma StaysRunnable(k: Kern, r: Kern, tick: bool, waits: bool)
    requires WF(k) && WF(r) && Turn(k, r, tick, waits) && InitRunnable(k) && (waits ==> k.current != 1)
    ensures InitRunnable(r)
  {
    forall s | 0 <= s < SEM_NUM ensures 1 !in r.sem[s].waitQ { assert WaitersFrom(k, r, s, waits); }
  }
}
