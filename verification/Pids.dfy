/** Conservation of process identifiers: every handler moves identifiers between the kernel's queues
    and the CPU, and none is ever lost, copied, or left in a state its place does not match. */
module Pids {
  import opened Queue
  import opened KernelSpec

  /** How often p occurs in q. */
  function Count(q: seq<int>, p: int): nat {
    multiset(q)[p]
  }

  function WaitCount(sem: seq<Sem>, p: int): nat {
    if sem == [] then 0 else WaitCount(sem[..|sem| - 1], p) + Count(sem[|sem| - 1].waitQ, p)
  }

  function WaitLen(sem: seq<Sem>): nat {
    if sem == [] then 0 else WaitLen(sem[..|sem| - 1]) + |sem[|sem| - 1].waitQ|
  }

  /** How many places p is in: the free queue, the ready queue, a wait queue, the CPU. */
  function Places(k: Kern, p: int): nat {
    Count(k.free, p) + Count(k.ready, p) + WaitCount(k.sem, p) + (if k.current == p && p != 0 then 1 else 0)
  }

  /** How many identifiers there are in all places. */
  function Population(k: Kern): nat {
    |k.free| + |k.ready| + WaitLen(k.sem) + (if k.current != 0 then 1 else 0)
  }

  predicate StateAgrees(k: Kern, p: int)
    requires WF(k) && IsPid(p)
  {
    && (p in k.free ==> k.pcb[p].state == FREE)
    && (p in k.ready ==> k.pcb[p].state == READY)
    && (forall s :: 0 <= s < SEM_NUM && p in k.sem[s].waitQ ==> k.pcb[p].state == WAIT)
    && (p == k.current ==> k.pcb[p].state == RUN)
  }

  /** Each process identifier is in exactly one place and its state says which. */
  ghost predicate Conserved(k: Kern) {
    && WF(k) && Population(k) == PROC_NUM - 1
    && (forall p :: Places(k, p) == if 1 <= p < PROC_NUM then 1 else 0)
    && (forall p :: 1 <= p < PROC_NUM ==> StateAgrees(k, p))
  }

  // ---- sums over the semaphore table ---------------------------------------------------------

  lemma {:induction false} WaitCountUpdate(sem: seq<Sem>, i: nat, s: Sem, p: int)
    requires i < |sem|
    ensures WaitCount(sem[i := s], p) == WaitCount(sem, p) - Count(sem[i].waitQ, p) + Count(s.waitQ, p)
    ensures WaitCount(sem, p) >= Count(sem[i].waitQ, p)
  {
    var n := |sem| - 1;
    if i == n {
      assert sem[i := s][..n] == sem[..n];
    } else {
      assert sem[i := s][..n] == sem[..n][i := s];
      WaitCountUpdate(sem[..n], i, s, p);
    }
  }

  lemma {:induction false} WaitLenUpdate(sem: seq<Sem>, i: nat, s: Sem)
    requires i < |sem|
    ensures WaitLen(sem[i := s]) == WaitLen(sem) - |sem[i].waitQ| + |s.waitQ|
    ensures WaitLen(sem) >= |sem[i].waitQ|
  {
    var n := |sem| - 1;
    if i == n {
      assert sem[i := s][..n] == sem[..n];
    } else {
      assert sem[i := s][..n] == sem[..n][i := s];
      WaitLenUpdate(sem[..n], i, s);
    }
  }

  /** An identifier in one wait queue is in no other. */
  lemma {:induction false} WaitCountTwo(sem: seq<Sem>, i: nat, j: nat, p: int)
    requires i < j < |sem|
    ensures WaitCount(sem, p) >= Count(sem[i].waitQ, p) + Count(sem[j].waitQ, p)
  {
    var n := |sem| - 1;
    if j == n {
      WaitCountUpdate(sem[..n], i, sem[i], p);
    } else {
      WaitCountTwo(sem[..n], i, j, p);
    }
  }

  // ---- consequences --------------------------------------------------------------------------

  /** A queue is shorter than its capacity while some identifier is elsewhere. */
  lemma Room(k: Kern)
    requires Conserved(k)
    ensures k.current != 0 || k.free != [] || (exists s :: 0 <= s < SEM_NUM && k.sem[s].waitQ != []) ==>
              |k.ready| < QUEUE_SIZE
    ensures k.current != 0 ==> forall s :: 0 <= s < SEM_NUM ==> |k.sem[s].waitQ| < QUEUE_SIZE
    ensures PROC_NUM <= QUEUE_SIZE ==>
              |k.ready| < QUEUE_SIZE && forall s :: 0 <= s < SEM_NUM ==> |k.sem[s].waitQ| < QUEUE_SIZE
  {
    forall s | 0 <= s < SEM_NUM
      ensures |k.sem[s].waitQ| <= WaitLen(k.sem)
    {
      WaitLenUpdate(k.sem, s, k.sem[s]);
    }
  }

  lemma {:induction false} WaitsSomewhere(sem: seq<Sem>, p: int) returns (s: nat)
    requires WaitCount(sem, p) > 0
    ensures s < |sem| && p in sem[s].waitQ
  {
    if Count(sem[|sem| - 1].waitQ, p) > 0 {
      s := |sem| - 1;
    } else {
      s := WaitsSomewhere(sem[..|sem| - 1], p);
    }
  }

  /** There is room for an identifier in every queue it is not in. */
  lemma RoomFor(k: Kern, p: int)
    requires Conserved(k) && 1 <= p < PROC_NUM
    ensures p !in k.ready ==> |k.ready| < QUEUE_SIZE
    ensures forall s :: 0 <= s < SEM_NUM && p !in k.sem[s].waitQ ==> |k.sem[s].waitQ| < QUEUE_SIZE
  {
    assert Places(k, p) == 1;
    Room(k);
    if p !in k.free && p !in k.ready && p != k.current { var s := WaitsSomewhere(k.sem, p); }
    forall s | 0 <= s < SEM_NUM && p !in k.sem[s].waitQ ensures |k.sem[s].waitQ| < QUEUE_SIZE {
      WaitLenUpdate(k.sem, s, k.sem[s].(waitQ := []));
      WaitCountUpdate(k.sem, s, k.sem[s].(waitQ := []), p);
      if p !in k.free && p !in k.ready && p != k.current {
        var t := WaitsSomewhere(k.sem[s := k.sem[s].(waitQ := [])], p);
        WaitLenUpdate(k.sem[s := k.sem[s].(waitQ := [])], t, k.sem[t]);
      }
    }
  }

  /** One sighting of an identifier tells where it is and where it is not. */
  lemma OnlyPlace(k: Kern, p: int)
    requires Conserved(k)
    ensures p in k.free || p in k.ready || (p == k.current && p != 0) ==> 1 <= p < PROC_NUM
    ensures p in k.free ==> p !in k.ready && p != k.current
    ensures p in k.ready ==> p != k.current
    ensures p in k.free || p in k.ready || (p == k.current && p != 0) ==>
              forall s :: 0 <= s < SEM_NUM ==> p !in k.sem[s].waitQ
    ensures forall s :: 0 <= s < SEM_NUM && p in k.sem[s].waitQ ==> 1 <= p < PROC_NUM
  {
    assert Places(k, p) == if 1 <= p < PROC_NUM then 1 else 0;
    forall s | 0 <= s < SEM_NUM ensures WaitCount(k.sem, p) >= Count(k.sem[s].waitQ, p) {
      WaitCountUpdate(k.sem, s, k.sem[s], p);
    }
  }

  /** No identifier waits twice. */
  lemma WaitsOnce(k: Kern, p: int, s: int, t: int)
    requires Conserved(k) && 0 <= s < SEM_NUM && 0 <= t < SEM_NUM && p in k.sem[s].waitQ
    ensures Count(k.sem[s].waitQ, p) == 1
    ensures s != t ==> p !in k.sem[t].waitQ
  {
    OnlyPlace(k, p);
    assert Places(k, p) == 1;
    WaitCountUpdate(k.sem, s, k.sem[s], p);
    if s < t {
      WaitCountTwo(k.sem, s, t, p);
    } else if t < s {
      WaitCountTwo(k.sem, t, s, p);
    }
  }

  // ---- what each handler keeps ---------------------------------------------------------------

  /** Identifiers are untouched by anything that leaves these fields alone. */
  lemma Untouched(k: Kern, r: Kern)
    requires Conserved(k) && WF(r)
    requires r.current == k.current && r.ready == k.ready && r.free == k.free && r.pcb == k.pcb && r.sem == k.sem
    ensures Conserved(r)
  {
    forall p ensures Places(r, p) == Places(k, p) {}
    forall p | 1 <= p < PROC_NUM ensures StateAgrees(r, p) { assert StateAgrees(k, p); }
  }

  lemma TimerKeeps(k: Kern)
    requires Conserved(k) && k.current != 0
    ensures Conserved(TimerHandler(k))
  {
    Room(k);
    var r := TimerHandler(k);
    OnlyPlace(k, k.current);
    forall p ensures Places(r, p) == Places(k, p) {}
    forall p | 1 <= p < PROC_NUM ensures StateAgrees(r, p) { assert StateAgrees(k, p); }
  }

  lemma SchedulerKeeps(k: Kern)
    requires Conserved(k)
    ensures Conserved(Scheduler(k))
    ensures Scheduler(k).current == 0 <==> k.current == 0 && k.ready == []
  {
    var r := Scheduler(k);
    if k.current == 0 && k.ready != [] {
      var pid := k.ready[0];
      OnlyPlace(k, pid);
      assert k.ready == [pid] + r.ready;
      forall p ensures Places(r, p) == Places(k, p) {}
      forall p | 1 <= p < PROC_NUM ensures StateAgrees(r, p) {
        assert StateAgrees(k, p);
        OnlyPlace(k, p);
        assert Places(r, p) == 1;
      }
    } else {
      forall p ensures Places(r, p) == Places(k, p) {}
      forall p | 1 <= p < PROC_NUM ensures StateAgrees(r, p) { assert StateAgrees(k, p); }
    }
  }

  lemma NewProcKeeps(k: Kern)
    requires Conserved(k) && k.current == 0
    ensures Conserved(NewProcHandler(k))
  {
    var r := NewProcHandler(k);
    if k.free != [] {
      Room(k);
      var pid := k.free[0];
      OnlyPlace(k, pid);
      assert k.free == [pid] + r.free;
      forall p ensures Places(r, p) == Places(k, p) {}
      forall p | 1 <= p < PROC_NUM ensures StateAgrees(r, p) {
        assert StateAgrees(k, p) && Places(r, p) == 1;
        OnlyPlace(k, p);
      }
    }
  }

  lemma SemAllocKeeps(k: Kern, passes: int)
    requires Conserved(k)
    requires forall s :: 0 <= s < SEM_NUM && k.sem[s].owner == 0 ==> k.sem[s].waitQ == []
    ensures Conserved(SemAllocHandler(k, passes).0)
  {
    var r := SemAllocHandler(k, passes).0;
    var sid := FreeSem(k.sem, 0);
    if sid < SEM_NUM {
      WaitLenUpdate(k.sem, sid, r.sem[sid]);
      forall p ensures Places(r, p) == Places(k, p) { WaitCountUpdate(k.sem, sid, r.sem[sid], p); }
      forall p | 1 <= p < PROC_NUM ensures StateAgrees(r, p) { assert StateAgrees(k, p); }
    }
  }

  lemma SemWaitKeeps(k: Kern, sid: int)
    requires Conserved(k) && IsSid(sid) && k.current != 0
    ensures Conserved(SemWaitHandler(k, sid))
  {
    Room(k);
    var r := SemWaitHandler(k, sid);
    OnlyPlace(k, k.current);
    WaitLenUpdate(k.sem, sid, r.sem[sid]);
    forall p ensures Places(r, p) == Places(k, p) { WaitCountUpdate(k.sem, sid, r.sem[sid], p); }
    forall p | 1 <= p < PROC_NUM ensures StateAgrees(r, p) { WaitState(k, sid, p); }
  }

  /** A blocked process is in state WAIT and no other state has changed. */
  lemma WaitState(k: Kern, sid: int, p: int)
    requires Conserved(k) && IsSid(sid) && k.current != 0 && 1 <= p < PROC_NUM
    ensures StateAgrees(SemWaitHandler(k, sid), p)
  {
    assert StateAgrees(k, p);
    OnlyPlace(k, k.current);
    if k.sem[sid].passes <= 0 && p != k.current {
      Room(k);
      assert p in k.sem[sid].waitQ + [k.current] ==> p in k.sem[sid].waitQ;
    }
  }

  lemma SemPostKeeps(k: Kern, sid: int)
    requires Conserved(k) && IsSid(sid)
    ensures Conserved(SemPostHandler(k, sid))
  {
    var r := SemPostHandler(k, sid);
    WaitLenUpdate(k.sem, sid, r.sem[sid]);
    if k.sem[sid].waitQ == [] {
      forall p ensures Places(r, p) == Places(k, p) { WaitCountUpdate(k.sem, sid, r.sem[sid], p); }
      forall p | 1 <= p < PROC_NUM ensures StateAgrees(r, p) { assert StateAgrees(k, p); }
    } else {
      Room(k);
      var pid := k.sem[sid].waitQ[0];
      assert k.sem[sid].waitQ == [pid] + r.sem[sid].waitQ;
      forall p ensures Places(r, p) == Places(k, p) { WaitCountUpdate(k.sem, sid, r.sem[sid], p); }
      forall p | 1 <= p < PROC_NUM ensures StateAgrees(r, p) {
        assert StateAgrees(k, p);
        PostState(k, sid, p);
      }
    }
  }

  /** After a post the woken process is READY and no other state has changed. */
  lemma PostState(k: Kern, sid: int, p: int)
    requires Conserved(k) && IsSid(sid) && k.sem[sid].waitQ != [] && 1 <= p < PROC_NUM
    ensures StateAgrees(SemPostHandler(k, sid), p)
  {
    var r := SemPostHandler(k, sid);
    var pid := k.sem[sid].waitQ[0];
    Room(k);
    assert StateAgrees(k, p);
    OnlyPlace(k, p);
    assert k.sem[sid].waitQ == [pid] + r.sem[sid].waitQ;
    if p == pid {
      forall t | 0 <= t < SEM_NUM ensures p !in r.sem[t].waitQ { WaitsOnce(k, p, sid, t); }
    }
  }
}
