/** How the two semaphores of a port track its queues: what device work and system calls do to the
    passes outstanding. */
module Tokens {
  import opened Queue
  import opened KernelSpec

  /** Passes at hand, less the processes queueing for one. */
  function Balance(s: Sem): int {
    s.passes - |s.waitQ|
  }

  /** Slots of the transmit queue that are full or whose pass is still at hand. */
  function WriteSlots(k: Kern, p: int): int
    requires WF(k) && IsPort(p)
  {
    Balance(k.sem[k.port[p].writeSid]) + |k.port[p].writeQ|
  }

  /** Passes at hand for received characters, less the characters there are. */
  function ReadSlots(k: Kern, p: int): int
    requires WF(k) && IsPort(p)
  {
    Balance(k.sem[k.port[p].readSid]) - |k.port[p].readQ|
  }

  /** The port is live: its owner has got as far as PortAllocHandler. */
  predicate Owned(k: Kern, p: int)
    requires WF(k)
  {
    IsPort(p) && k.port[p].owner != 0
  }

  /** PortAlloc has stored the receive semaphore, whose number is never 0: the one for transmission came first. */
  predicate InUse(k: Kern, p: int)
    requires WF(k)
  {
    Owned(k, p) && k.port[p].readSid != 0
  }

  /** The port is live but its semaphores are not both stored. */
  predicate Opening(k: Kern, p: int)
    requires WF(k)
  {
    Owned(k, p) && !InUse(k, p)
  }

  /** A port's semaphores were allocated for it, with QUEUE_SIZE passes and none. */
  predicate Role(k: Kern, p: int)
    requires WF(k) && IsPort(p)
  {
    var w, r := k.port[p].writeSid, k.port[p].readSid;
    && w != r && k.sem[w].owner != 0 && k.sem[r].owner != 0
    && k.semLog[w].initial == QUEUE_SIZE && k.semLog[r].initial == 0
  }

  predicate RolesApart(k: Kern, p: int, q: int)
    requires WF(k) && IsPort(p) && IsPort(q)
  {
    && k.port[p].writeSid != k.port[q].writeSid && k.port[p].writeSid != k.port[q].readSid
    && k.port[p].readSid != k.port[q].writeSid && k.port[p].readSid != k.port[q].readSid
  }

  ghost predicate Roles(k: Kern)
    requires WF(k)
  {
    && (forall p :: InUse(k, p) ==> Role(k, p))
    && (forall p, q :: InUse(k, p) && InUse(k, q) && p != q ==> RolesApart(k, p, q))
  }

  /** Waiting on s in r are only some that waited in k, and, where `more` allows it, k's current. */
  predicate WaitersFrom(k: Kern, r: Kern, s: int, more: bool)
    requires WF(k) && WF(r) && IsSid(s)
  {
    forall x :: x in r.sem[s].waitQ ==> x in k.sem[s].waitQ || (more && x == k.current)
  }

  /** From k to r port p keeps its semaphores, and the sums they guard grow by dw and dr. */
  predicate ShiftsPort(k: Kern, r: Kern, p: int, dw: int, dr: int)
    requires WF(k) && WF(r) && IsPort(p)
  {
    var w, s := k.port[p].writeSid, k.port[p].readSid;
    && r.port[p].writeSid == w && r.port[p].readSid == s
    && WriteSlots(r, p) == WriteSlots(k, p) + dw && ReadSlots(r, p) == ReadSlots(k, p) + dr
    && WaitersFrom(k, r, w, dw < 0) && WaitersFrom(k, r, s, dr < 0)
    && r.sem[w].owner == k.sem[w].owner && r.sem[s].owner == k.sem[s].owner
    && r.semLog[w].initial == k.semLog[w].initial && r.semLog[s].initial == k.semLog[s].initial
  }

  /** From k to r the sums of port p0 grow by dw and dr and those of the other ports stay. */
  ghost predicate Shifts(k: Kern, r: Kern, p0: int, dw: int, dr: int)
    requires WF(k) && WF(r)
  {
    && (forall p :: IsPort(p) ==> (InUse(r, p) <==> InUse(k, p)))
    && (forall p :: InUse(k, p) ==> ShiftsPort(k, r, p, if p == p0 then dw else 0, if p == p0 then dr else 0))
  }

  /** From k to r every port keeps its owner, its semaphores and the sums they guard. */
  ghost predicate Carries(k: Kern, r: Kern)
    requires WF(k) && WF(r)
  {
    Shifts(k, r, 0, 0, 0)
  }

  lemma ShiftsRoles(k: Kern, r: Kern, p0: int, dw: int, dr: int)
    requires WF(k) && WF(r) && Roles(k) && Shifts(k, r, p0, dw, dr)
    ensures Roles(r)
  {
    forall p | InUse(r, p) ensures Role(r, p) {
      assert ShiftsPort(k, r, p, if p == p0 then dw else 0, if p == p0 then dr else 0) && Role(k, p);
    }
    forall p, q | InUse(r, p) && InUse(r, q) && p != q ensures RolesApart(r, p, q) {
      assert ShiftsPort(k, r, p, if p == p0 then dw else 0, if p == p0 then dr else 0);
      assert ShiftsPort(k, r, q, if q == p0 then dw else 0, if q == p0 then dr else 0);
      assert RolesApart(k, p, q);
    }
  }

  lemma ShiftsOn(k: Kern, m: Kern, r: Kern, p0: int, dw: int, dr: int)
    requires WF(k) && WF(m) && WF(r) && Shifts(k, m, p0, dw, dr) && Carries(m, r)
    ensures Shifts(k, r, p0, dw, dr)
  {
    forall p | InUse(k, p)
      ensures ShiftsPort(k, r, p, if p == p0 then dw else 0, if p == p0 then dr else 0)
    {
      assert ShiftsPort(k, m, p, if p == p0 then dw else 0, if p == p0 then dr else 0) && ShiftsPort(m, r, p, 0, 0);
    }
  }

  // ---- device work ---------------------------------------------------------------------------

  lemma WriteOneCarries(k: Kern, p: int)
    requires WF(k) && Roles(k) && InUse(k, p)
    ensures Carries(k, PortWriteOne(k, p))
  {
    var r := PortWriteOne(k, p);
    forall q | InUse(k, q) ensures ShiftsPort(k, r, q, 0, 0) {
      assert Role(k, q);
      if q != p { assert RolesApart(k, p, q); }
    }
  }

  lemma ReadOneCarries(k: Kern, p: int, raw: int)
    requires WF(k) && Roles(k) && InUse(k, p)
    ensures Carries(k, PortReadOne(k, p, raw))
  {
    hide EnqueuedAll;
    var r := PortReadOne(k, p, raw);
    forall q | InUse(k, q) ensures ShiftsPort(k, r, q, 0, 0) {
      assert Role(k, q);
      if q != p { assert RolesApart(k, p, q); }
    }
  }

  /** While a port is being opened nothing is queued there. */
  ghost predicate Blanks(k: Kern)
    requires WF(k)
  {
    forall p :: Opening(k, p) ==> k.port[p].writeQ == [] && k.port[p].readQ == []
  }

  /** No character comes in for a port that is being opened. */
  ghost predicate Quiet(k: Kern, uart: seq<Uart>)
    requires WF(k)
  {
    |uart| == PORT_NUM && forall p :: Opening(k, p) ==> !uart[p].RxReady?
  }

  /** All the transmitter has to send for such a port is echo, so it posts nothing. */
  lemma EchoOnly(k: Kern, p: int, u: Uart)
    requires WF(k) && Opening(k, p) && k.port[p].writeQ == [] && !u.RxReady?
    ensures var r := PortService(k, p, u);
            && r.sem == k.sem && r.semLog == k.semLog && r.port[p].owner == k.port[p].owner
            && r.port[p].writeSid == k.port[p].writeSid && r.port[p].readSid == k.port[p].readSid
            && r.port[p].writeQ == k.port[p].writeQ && r.port[p].readQ == k.port[p].readQ
            && forall q :: IsPort(q) && q != p ==> r.port[q] == k.port[q]
  {
  }

  lemma ServiceCarries(k: Kern, p: int, u: Uart)
    requires WF(k) && Roles(k) && IsPort(p) && (Opening(k, p) ==> k.port[p].writeQ == [] && !u.RxReady?)
    ensures Carries(k, PortService(k, p, u))
  {
    hide PortReadOne, PortWriteOne;
    if Opening(k, p) {
      EchoOnly(k, p, u);
      forall q | InUse(k, q) ensures ShiftsPort(k, PortService(k, p, u), q, 0, 0) {}
    } else if InUse(k, p) {
      var k1 := if u.RxReady? then PortReadOne(k, p, u.raw) else k;
      if u.RxReady? { ReadOneCarries(k, p, u.raw); }
      ShiftsRoles(k, k1, 0, 0, 0);
      var k2 := if u.TxReady? then PortWriteOne(k1, p) else k1;
      if u.TxReady? { WriteOneCarries(k1, p); }
      ShiftsOn(k, k1, k2, 0, 0, 0);
      ShiftsRoles(k1, k2, 0, 0, 0);
      WriteOneCarries(k2, p);
      ShiftsOn(k, k2, PortWriteOne(k2, p), 0, 0, 0);
    }
  }

  // ---- what device work leaves alone -------------------------------------------------------------

  /** Semaphore sid serves no port in use. */
  ghost predicate Private(k: Kern, sid: int)
    requires WF(k)
  {
    forall p :: InUse(k, p) ==> k.port[p].writeSid != sid && k.port[p].readSid != sid
  }

  predicate SameLabels(k: Kern, r: Kern, q: int)
    requires WF(k) && WF(r) && IsPort(q)
  {
    && r.port[q].writeSid == k.port[q].writeSid && r.port[q].readSid == k.port[q].readSid
    && r.port[q].owner == k.port[q].owner
  }

  /** From k to r live ports keep their owner and semaphores, ports being opened their queues, and semaphores of
      no port in use, but perhaps x, are as they were; none in use is given up. */
  ghost predicate Leaves(k: Kern, r: Kern, x: int)
    requires WF(k) && WF(r)
  {
    && (forall p :: Owned(k, p) ==> SameLabels(k, r, p))
    && (forall p :: Opening(k, p) ==> r.port[p].writeQ == k.port[p].writeQ && r.port[p].readQ == k.port[p].readQ)
    && (forall t :: IsSid(t) && Private(k, t) && t != x ==> r.sem[t] == k.sem[t] && r.semLog[t] == k.semLog[t])
    && (forall t :: IsSid(t) && k.sem[t].owner != 0 ==> r.sem[t].owner != 0)
  }

  lemma LeavesOn(k: Kern, m: Kern, r: Kern, x: int)
    requires WF(k) && WF(m) && WF(r) && Leaves(k, m, x) && Leaves(m, r, x)
    requires forall p :: Owned(m, p) ==> Owned(k, p)
    ensures Leaves(k, r, x)
  {
    assert forall p :: Owned(k, p) ==> SameLabels(k, m, p);
    forall t | IsSid(t) && Private(k, t) && t != x ensures r.sem[t] == k.sem[t] && r.semLog[t] == k.semLog[t] {
      assert Private(m, t);
    }
    forall p | Owned(k, p) ensures SameLabels(k, r, p) { assert SameLabels(m, r, p); }
  }

  lemma LeavesBlanks(k: Kern, r: Kern, x: int)
    requires WF(k) && WF(r) && Leaves(k, r, x) && Blanks(k) && forall p :: Owned(r, p) ==> Owned(k, p)
    ensures Blanks(r) && forall p :: Opening(r, p) ==> Opening(k, p)
  {
    assert forall p :: Owned(k, p) ==> SameLabels(k, r, p);
  }

  /** From k to r only port p and the semaphore sid have changed, and p keeps its labels. */
  ghost predicate Only(k: Kern, r: Kern, p: int, sid: int)
    requires WF(k) && WF(r) && IsPort(p) && IsSid(sid)
  {
    && (forall q :: IsPort(q) && q != p ==> r.port[q] == k.port[q]) && SameLabels(k, r, p)
    && (forall t :: IsSid(t) && t != sid ==> r.sem[t] == k.sem[t] && r.semLog[t] == k.semLog[t])
    && r.sem[sid].owner == k.sem[sid].owner
  }

  lemma OnlyLeaves(k: Kern, r: Kern, p: int, sid: int, x: int)
    requires WF(k) && WF(r) && InUse(k, p) && IsSid(sid) && !Private(k, sid) && Only(k, r, p, sid)
    ensures Leaves(k, r, x) && forall q :: Owned(r, q) <==> Owned(k, q)
  {
  }

  lemma WriteOneLeaves(k: Kern, p: int, x: int)
    requires WF(k) && InUse(k, p)
    ensures Leaves(k, PortWriteOne(k, p), x)
    ensures forall q :: IsPort(q) ==> PortWriteOne(k, p).port[q].readQ == k.port[q].readQ
    ensures forall q :: Owned(PortWriteOne(k, p), q) <==> Owned(k, q)
  {
    hide Leaves, Private;
    assert !Private(k, k.port[p].writeSid) by { NotPrivate(k, p); }
    OnlyLeaves(k, PortWriteOne(k, p), p, k.port[p].writeSid, x);
  }

  lemma NotPrivate(k: Kern, p: int)
    requires WF(k) && InUse(k, p)
    ensures !Private(k, k.port[p].writeSid) && !Private(k, k.port[p].readSid)
  {
  }

  lemma ReadOneLeaves(k: Kern, p: int, raw: int, x: int)
    requires WF(k) && InUse(k, p)
    ensures Leaves(k, PortReadOne(k, p, raw), x)
    ensures forall q :: IsPort(q) && q != p ==> PortReadOne(k, p, raw).port[q].readQ == k.port[q].readQ
    ensures forall q :: Owned(PortReadOne(k, p, raw), q) <==> Owned(k, q)
  {
    hide EnqueuedAll, Leaves, Private;
    NotPrivate(k, p);
    OnlyLeaves(k, PortReadOne(k, p, raw), p, k.port[p].readSid, x);
  }

  lemma LeavesSelf(k: Kern, x: int)
    requires WF(k)
    ensures Leaves(k, k, x)
  {
  }

  lemma ServiceLeaves(k: Kern, p: int, u: Uart, x: int)
    requires WF(k) && IsPort(p) && (Opening(k, p) ==> k.port[p].writeQ == [] && !u.RxReady?)
    ensures Leaves(k, PortService(k, p, u), x)
    ensures forall q :: IsPort(q) && (q != p || !u.RxReady?) ==> PortService(k, p, u).port[q].readQ == k.port[q].readQ
    ensures forall q :: Owned(PortService(k, p, u), q) <==> Owned(k, q)
  {
    hide PortReadOne, PortWriteOne, Leaves;
    LeavesSelf(k, x);
    if Opening(k, p) {
      EchoOnly(k, p, u);
      EchoLeaves(k, PortService(k, p, u), p, x);
    } else if InUse(k, p) {
      var k1 := if u.RxReady? then PortReadOne(k, p, u.raw) else k;
      if u.RxReady? { ReadOneLeaves(k, p, u.raw, x); }
      InUseToo(k, k1, p, x);
      var k2 := if u.TxReady? then PortWriteOne(k1, p) else k1;
      LeavesSelf(k1, x);
      if u.TxReady? { WriteOneLeaves(k1, p, x); }
      InUseToo(k1, k2, p, x);
      LeavesOn(k, k1, k2, x);
      WriteOneLeaves(k2, p, x);
      LeavesOn(k, k2, PortWriteOne(k2, p), x);
    }
  }

  lemma EchoLeaves(k: Kern, r: Kern, p: int, x: int)
    requires WF(k) && WF(r) && Opening(k, p) && r.sem == k.sem && r.semLog == k.semLog && SameLabels(k, r, p)
    requires r.port[p].writeQ == k.port[p].writeQ && r.port[p].readQ == k.port[p].readQ
    requires forall q :: IsPort(q) && q != p ==> r.port[q] == k.port[q]
    ensures Leaves(k, r, x) && forall q :: Owned(r, q) <==> Owned(k, q)
  {
  }

  lemma InUseToo(k: Kern, r: Kern, p: int, x: int)
    requires WF(k) && WF(r) && InUse(k, p) && Leaves(k, r, x)
    ensures InUse(r, p)
  {
    assert SameLabels(k, r, p);
  }

  /** A serial interrupt that brings nothing to the ports being opened keeps the sums of the ports in use, leaves the
      others' semaphores and the ports being opened alone, and reads only where a character came. */
  lemma {:induction false} HandlerCarries(k: Kern, uart: seq<Uart>, p: nat)
    requires WF(k) && Roles(k) && Blanks(k) && Quiet(k, uart) && p <= PORT_NUM
    ensures var r := PortHandler(k, uart, p);
            && Carries(k, r) && Leaves(k, r, -1) && Blanks(r)
            && (forall q :: IsPort(q) && !uart[q].RxReady? ==> r.port[q].readQ == k.port[q].readQ)
            && forall q :: Owned(r, q) <==> Owned(k, q)
    decreases PORT_NUM - p
  {
    hide PortService, Roles, Carries, Leaves, Blanks, Quiet;
    if p < PORT_NUM {
      BlankHere(k, uart, p);
      var k1 := PortService(k, p, uart[p]);
      ServiceCarries(k, p, uart[p]);
      ServiceLeaves(k, p, uart[p], -1);
      CarriesRoles(k, k1);
      LeavesBlanks(k, k1, -1);
      StillQuiet(k, k1, uart);
      HandlerCarries(k1, uart, p + 1);
      CarriesOn(k, k1, PortHandler(k, uart, p));
      LeavesOn(k, k1, PortHandler(k, uart, p), -1);
    } else {
      LeavesSelf(k, -1);
      CarriesSelf(k);
    }
  }

  lemma BlankHere(k: Kern, uart: seq<Uart>, p: int)
    requires WF(k) && Blanks(k) && Quiet(k, uart)
    ensures |uart| == PORT_NUM && (Opening(k, p) ==> k.port[p].writeQ == [] && !uart[p].RxReady?)
  {
  }

  lemma StillQuiet(k: Kern, r: Kern, uart: seq<Uart>)
    requires WF(k) && WF(r) && Quiet(k, uart) && forall p :: Opening(r, p) ==> Opening(k, p)
    ensures Quiet(r, uart)
  {
  }

  lemma CarriesRoles(k: Kern, r: Kern)
    requires WF(k) && WF(r) && Roles(k) && Carries(k, r)
    ensures Roles(r)
  {
    ShiftsRoles(k, r, 0, 0, 0);
  }

  lemma CarriesOn(k: Kern, m: Kern, r: Kern)
    requires WF(k) && WF(m) && WF(r) && Carries(k, m) && Carries(m, r)
    ensures Carries(k, r)
  {
    ShiftsOn(k, m, r, 0, 0, 0);
  }

  lemma CarriesSelf(k: Kern)
    requires WF(k)
    ensures Carries(k, k)
  {
    forall q | InUse(k, q) ensures ShiftsPort(k, k, q, 0, 0) {}
  }

  // ---- system calls --------------------------------------------------------------------------

  lemma SchedulerCarries(k: Kern)
    requires WF(k) && Roles(k)
    ensures Carries(k, Scheduler(k))
  {
    forall q | InUse(k, q) ensures ShiftsPort(k, Scheduler(k), q, 0, 0) {}
  }

  lemma TimerCarries(k: Kern)
    requires WF(k) && Roles(k)
    ensures Carries(k, TimerHandler(k))
  {
    forall q | InUse(k, q) ensures ShiftsPort(k, TimerHandler(k), q, 0, 0) {}
  }

  lemma SemAllocCarries(k: Kern, passes: int)
    requires WF(k) && Roles(k)
    ensures Carries(k, SemAllocHandler(k, passes).0)
  {
    forall q | InUse(k, q) ensures ShiftsPort(k, SemAllocHandler(k, passes).0, q, 0, 0) {
      assert Role(k, q);
    }
  }

  lemma PrivateWaitCarries(k: Kern, sid: int)
    requires WF(k) && Roles(k) && IsSid(sid) && Private(k, sid)
    ensures Carries(k, SemWaitHandler(k, sid))
  {
    forall q | InUse(k, q) ensures ShiftsPort(k, SemWaitHandler(k, sid), q, 0, 0) {}
  }

  lemma PrivatePostCarries(k: Kern, sid: int)
    requires WF(k) && Roles(k) && IsSid(sid) && Private(k, sid)
    ensures Carries(k, SemPostHandler(k, sid))
  {
    forall q | InUse(k, q) ensures ShiftsPort(k, SemPostHandler(k, sid), q, 0, 0) {}
  }

  /** A wait on a port's semaphore takes one from its sum, whether it is granted or blocks. */
  lemma PortWaitShifts(k: Kern, p: int, write: bool)
    requires WF(k) && Roles(k) && InUse(k, p)
    requires var sid := if write then k.port[p].writeSid else k.port[p].readSid; |k.sem[sid].waitQ| < QUEUE_SIZE
    ensures var sid := if write then k.port[p].writeSid else k.port[p].readSid;
            Shifts(k, SemWaitHandler(k, sid), p, if write then -1 else 0, if write then 0 else -1)
  {
    var sid := if write then k.port[p].writeSid else k.port[p].readSid;
    var r := SemWaitHandler(k, sid);
    forall q | InUse(k, q)
      ensures ShiftsPort(k, r, q, if q == p && write then -1 else 0, if q == p && !write then -1 else 0)
    {
      assert Role(k, q);
      if q != p { assert RolesApart(k, p, q); }
    }
  }

  lemma PortWriteShifts(k: Kern, p: int, ch: int)
    requires WF(k) && Roles(k) && InUse(k, p) && |k.port[p].writeQ| < QUEUE_SIZE
    ensures Shifts(k, PortWriteHandler(k, ch, p), p, 1, 0)
  {
    hide PortWriteOne;
    var m := GiveWrite(k, p, ch);
    forall q | InUse(k, q) ensures ShiftsPort(k, m, q, if q == p then 1 else 0, 0) {}
    ShiftsRoles(k, m, p, 1, 0);
    WriteOneCarries(m, p);
    forall q | InUse(m, q) ensures ShiftsPort(m, m, q, 0, 0) {}
    ShiftsOn(k, m, PortWriteHandler(k, ch, p), p, 1, 0);
  }

  lemma PortReadShifts(k: Kern, p: int)
    requires WF(k) && Roles(k) && InUse(k, p) && k.port[p].readQ != []
    ensures Shifts(k, PortReadHandler(k, p).0, p, 0, 1)
  {
    forall q | InUse(k, q) ensures ShiftsPort(k, PortReadHandler(k, p).0, q, 0, if q == p then 1 else 0) {}
  }

  // ---- what system calls leave alone -------------------------------------------------------------

  lemma SameDataLeaves(k: Kern, r: Kern, x: int)
    requires WF(k) && WF(r) && r.sem == k.sem && r.semLog == k.semLog && r.port == k.port
    ensures Leaves(k, r, x)
  {
  }

  lemma SemWaitLeaves(k: Kern, sid: int, x: int)
    requires WF(k) && IsSid(sid) && (!Private(k, sid) || x == sid)
    ensures Leaves(k, SemWaitHandler(k, sid), x) && SemWaitHandler(k, sid).port == k.port
  {
  }

  lemma SemPostLeaves(k: Kern, sid: int, x: int)
    requires WF(k) && IsSid(sid) && (!Private(k, sid) || x == sid)
    ensures Leaves(k, SemPostHandler(k, sid), x) && SemPostHandler(k, sid).port == k.port
  {
  }

  lemma SemAllocLeaves(k: Kern, passes: int)
    requires WF(k)
    ensures Leaves(k, SemAllocHandler(k, passes).0, FreeSem(k.sem, 0)) && SemAllocHandler(k, passes).0.port == k.port
  {
  }

  lemma PortWriteLeaves(k: Kern, ch: int, p: int, x: int)
    requires WF(k) && InUse(k, p)
    ensures Leaves(k, PortWriteHandler(k, ch, p), x)
    ensures forall q :: IsPort(q) ==> PortWriteHandler(k, ch, p).port[q].readQ == k.port[q].readQ
    ensures forall q :: Owned(PortWriteHandler(k, ch, p), q) <==> Owned(k, q)
  {
    hide PortWriteOne, Leaves, Private;
    LeavesSelf(k, x);
    var m := GiveWrite(k, p, ch);
    NotPrivate(k, p);
    OnlyLeaves(k, m, p, k.port[p].writeSid, x);
    WriteOneLeaves(m, p, x);
    LeavesOn(k, m, PortWriteOne(m, p), x);
  }

  lemma PortReadLeaves(k: Kern, p: int, x: int)
    requires WF(k) && InUse(k, p)
    ensures Leaves(k, PortReadHandler(k, p).0, x)
    ensures forall q :: IsPort(q) && q != p ==> PortReadHandler(k, p).0.port[q].readQ == k.port[q].readQ
    ensures forall q :: Owned(PortReadHandler(k, p).0, q) <==> Owned(k, q)
  {
    hide Leaves, Private;
    NotPrivate(k, p);
    OnlyLeaves(k, PortReadHandler(k, p).0, p, k.port[p].writeSid, x);
  }
}
