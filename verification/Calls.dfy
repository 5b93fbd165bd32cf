/** What PortWrite and PortRead of 9.serialport/src/syscall.c are for, in every run of Protocol: the whole text is
    handed over, in order, and a line is read up to its end. Both are told on what the kernel accepted and delivered
    in the steps of the process that called. */
module Calls {
  import opened Queue
  import opened KernelSpec
  import opened Laws
  import opened Tokens
  import opened SerialDriver
  import opened Protocol

  /** The characters the kernel has accepted for port p from k to r. */
  function NewlyAccepted(k: Kern, r: Kern, p: nat): seq<int> {
    if p < |k.portLog| && p < |r.portLog| && |k.portLog[p].accepted| <= |r.portLog[p].accepted| then
      r.portLog[p].accepted[|k.portLog[p].accepted|..]
    else []
  }

  /** The characters the kernel has delivered from port p from k to r. */
  function NewlyDelivered(k: Kern, r: Kern, p: nat): seq<int> {
    if p < |k.portLog| && p < |r.portLog| && |k.portLog[p].delivered| <= |r.portLog[p].delivered| then
      r.portLog[p].delivered[|k.portLog[p].delivered|..]
    else []
  }

  /** What process i has handed over to port p in steps b to n. */
  function Handed(ss: seq<Sys>, es: seq<Event>, i: int, p: nat, b: nat, n: nat): seq<int>
    requires b <= n <= |es| < |ss|
  {
    if n == b then []
    else
      Handed(ss, es, i, p, b, n - 1) +
      if ss[n - 1].k.current == i && es[n - 1].WriteTrap? then NewlyAccepted(ss[n - 1].k, ss[n].k, p) else []
  }

  /** What process i has been given from port p in steps b to n. */
  function Taken(ss: seq<Sys>, es: seq<Event>, i: int, p: nat, b: nat, n: nat): seq<int>
    requires b <= n <= |es| < |ss|
  {
    if n == b then []
    else
      Taken(ss, es, i, p, b, n - 1) +
      if ss[n - 1].k.current == i && es[n - 1].ReadTrap? then NewlyDelivered(ss[n - 1].k, ss[n].k, p) else []
  }

  /** What is still to be sent at a program point of PortWrite. */
  function Left(g: Prog): seq<int> { if g.WriteAtWait? || g.WriteAtTrap? then g.text else [] }

  predicate Writes(g: Prog) { g.WriteAtWait? || g.WriteAtTrap? }

  predicate Reads(g: Prog) { g.ReadAtWait? || g.ReadAtTrap? }

  // ---- one step ------------------------------------------------------------------------------

  lemma SchedulerLogs(k: Kern)
    requires WF(k)
    ensures Scheduler(k).portLog == k.portLog
  {
  }

  /** A step at the trap of PortWrite hands over the first character of the text, and the rest is left. */
  lemma WriteHands(s: Sys)
    requires SysInv(s) && Enabled(s, WriteTrap) && Live(s)
    ensures var g, h := Me(s), Next(s, WriteTrap).prog[s.k.current];
            && g.WriteAtTrap? && IsPort(g.port) && g.text != []
            && NewlyAccepted(s.k, Next(s, WriteTrap).k, g.port) + Left(h) == g.text
            && (Writes(h) ==> h.port == g.port)
  {
    hide KernelInv, Roles, Blanks, TokensOk, PortWriteHandler, Advances;
    var p, text := Me(s).port, Me(s).text;
    WriteSlotHeld(s);
    WriteTrapTakes(s.k, text[0], p);
    SchedulerLogs(PortWriteHandler(s.k, text[0], p));
    assert text == [text[0]] + text[1..];
  }

  /** A step at the trap of PortRead gives the process one character, the one that is stored. */
  lemma ReadTakes(s: Sys)
    requires SysInv(s) && Enabled(s, ReadTrap) && Live(s)
    ensures Me(s).ReadAtTrap? && IsPort(Me(s).port) && s.k.port[Me(s).port].readQ != []
    ensures var g, h, c := Me(s), Next(s, ReadTrap).prog[s.k.current], s.k.port[Me(s).port].readQ[0];
            && NewlyDelivered(s.k, Next(s, ReadTrap).k, g.port) == [c]
            && (if c == 13 || |g.line| + 1 == 100 then !Reads(h)
                else h == ReadAtWait(g.port, g.line + [c]))
  {
    hide KernelInv, Roles, Blanks, TokensOk;
    ReadCharHeld(s);
    var p := Me(s).port;
    ReadTrapGives(s.k, p);
    SchedulerLogs(PortReadHandler(s.k, p).0);
  }

  /** Any other step leaves a process where it is in these calls, but for the two that begin one. */
  lemma OtherStep(s: Sys, e: Event, i: nat)
    requires Enabled(s, e) && Live(s) && i < PROC_NUM
    ensures |Next(s, e).prog| == PROC_NUM
    ensures i != s.k.current ==> Next(s, e).prog[i] == s.prog[i]
    ensures var g, h := s.prog[i], Next(s, e).prog[i];
            && (!e.BeginWrite? && !e.WriteTrap? && i == s.k.current ==>
                  Left(h) == Left(g) && (Writes(h) <==> Writes(g)) && (Writes(g) ==> h.port == g.port))
            && (!e.BeginRead? && !e.ReadTrap? && i == s.k.current ==>
                  (Reads(h) <==> Reads(g)) && (Reads(g) ==> h.port == g.port && h.line == g.line))
  {
    hide Enter, ProgOk, SerialOk, OwnSem, InUse;
  }

  // ---- a whole call --------------------------------------------------------------------------

  /** Process i calls PortWrite at step b and does not call it again before step n. */
  ghost predicate Calling(ss: seq<Sys>, es: seq<Event>, i: int, b: nat, n: nat)
    requires b < n <= |es| < |ss|
  {
    && ss[b].k.current == i && es[b].BeginWrite?
    && forall m :: b < m < n && ss[m].k.current == i ==> !es[m].BeginWrite?
  }

  /** What is known at step m of a run. */
  lemma AtStep(ss: seq<Sys>, es: seq<Event>, m: nat)
    requires IsRun(ss, es) && FromBoot(ss[0]) && m < |es|
    ensures SysInv(ss[m]) && Live(ss[m]) && Enabled(ss[m], es[m]) && ss[m + 1] == Next(ss[m], es[m])
    ensures |ss| == |es| + 1 && ss[m].k.current < PROC_NUM
    ensures es[m].BeginWrite? || es[m].BeginRead? ==> IsPort(es[m].port)
  {
    StartInv(ss[0]);
    RunKeeps(ss, es, m);
  }

  lemma BeginsText(s: Sys, e: Event)
    requires Enabled(s, e) && Live(s) && e.BeginWrite?
    ensures |Next(s, e).prog| == PROC_NUM && Left(Next(s, e).prog[s.k.current]) == e.text
    ensures Writes(Next(s, e).prog[s.k.current]) ==> Next(s, e).prog[s.k.current].port == e.port
  {
  }

  /** handed, and then what is left at g, is the text. */
  predicate TextOk(handed: seq<int>, g: Prog, p: int, text: seq<int>) {
    handed + Left(g) == text && (Writes(g) ==> g.port == p)
  }

  lemma TextStep(s: Sys, e: Event, i: nat, p: nat, text: seq<int>, handed: seq<int>)
    requires SysInv(s) && Enabled(s, e) && Live(s) && i < PROC_NUM && TextOk(handed, s.prog[i], p, text)
    requires s.k.current == i ==> !e.BeginWrite?
    ensures |Next(s, e).prog| == PROC_NUM
    ensures var more := if s.k.current == i && e.WriteTrap? then NewlyAccepted(s.k, Next(s, e).k, p) else [];
            TextOk(handed + more, Next(s, e).prog[i], p, text)
  {
    hide SysInv, Next, Enabled, NewlyAccepted;
    OtherStep(s, e, i);
    if s.k.current == i && e.WriteTrap? {
      WriteHands(s);
      var c, h := NewlyAccepted(s.k, Next(s, e).k, p), Next(s, e).prog[i];
      assert (handed + c) + Left(h) == handed + (c + Left(h));
    } else {
      assert handed + [] == handed;
    }
  }

  /** Everything a process has handed over since it called PortWrite, and then what is left, is the text it called it
      with: once nothing is left, exactly the text has been handed over, in order. */
  lemma {:induction false} TextHandedOver(ss: seq<Sys>, es: seq<Event>, i: nat, b: nat, n: nat)
    requires IsRun(ss, es) && FromBoot(ss[0]) && b < n <= |es| && Calling(ss, es, i, b, n)
    ensures i < PROC_NUM && |ss[n].prog| == PROC_NUM && IsPort(es[b].port)
    ensures var g, handed := ss[n].prog[i], Handed(ss, es, i, es[b].port, b, n);
            && handed + Left(g) == es[b].text && (Writes(g) ==> g.port == es[b].port)
            && (g.Elsewhere? ==> handed == es[b].text)
  {
    hide SysInv, Next, Enabled, NewlyAccepted, Live, Left;
    AtStep(ss, es, n - 1);
    AtStep(ss, es, b);
    var s, e, p, text := ss[n - 1], es[n - 1], es[b].port, es[b].text;
    if n - 1 == b {
      BeginsText(s, e);
      assert Handed(ss, es, i, p, b, b) == [] && Handed(ss, es, i, p, b, n) == [];
    } else {
      assert Calling(ss, es, i, b, n - 1);
      TextHandedOver(ss, es, i, b, n - 1);
      TextStep(s, e, i, p, text, Handed(ss, es, i, p, b, n - 1));
    }
    NothingLeft(Handed(ss, es, i, p, b, n), ss[n].prog[i], text);
  }

  lemma NothingLeft(handed: seq<int>, g: Prog, text: seq<int>)
    requires handed + Left(g) == text
    ensures g.Elsewhere? ==> handed == text
  {
  }

  /** Process i calls PortRead at step b and does not call it again before step n. */
  ghost predicate CallingRead(ss: seq<Sys>, es: seq<Event>, i: int, b: nat, n: nat)
    requires b < n <= |es| < |ss|
  {
    && ss[b].k.current == i && es[b].BeginRead?
    && forall m :: b < m < n && ss[m].k.current == i ==> !es[m].BeginRead?
  }

  /** A line that PortRead has read: it ends at the first return, or else at 100 characters. */
  predicate LineEnds(got: seq<int>) {
    var n := |got|;
    1 <= n <= 100 && 13 !in got[..n - 1] && (got[n - 1] == 13 || n == 100)
  }

  lemma BeginsLine(s: Sys, e: Event)
    requires Enabled(s, e) && Live(s) && e.BeginRead?
    ensures |Next(s, e).prog| == PROC_NUM && Next(s, e).prog[s.k.current] == ReadAtWait(e.port, [])
  {
  }

  /** The character that ends a line. */
  lemma OneMore(got: seq<int>, c: int)
    requires 13 !in got && |got| < 100
    ensures if c == 13 || |got| + 1 == 100 then LineEnds(got + [c]) else 13 !in got + [c] && |got + [c]| < 100
  {
    assert (got + [c])[..|got|] == got;
  }

  predicate LineOk(got: seq<int>, g: Prog, p: int) {
    if Reads(g) then g.port == p && g.line == got && 13 !in got && |got| < 100 else LineEnds(got)
  }

  lemma LineStep(s: Sys, e: Event, i: nat, p: nat, got: seq<int>)
    requires SysInv(s) && Enabled(s, e) && Live(s) && i < PROC_NUM && LineOk(got, s.prog[i], p)
    requires s.k.current == i ==> !e.BeginRead?
    ensures |Next(s, e).prog| == PROC_NUM
    ensures var more := if s.k.current == i && e.ReadTrap? then NewlyDelivered(s.k, Next(s, e).k, p) else [];
            LineOk(got + more, Next(s, e).prog[i], p)
  {
    hide SysInv, Next, Enabled, NewlyDelivered, LineEnds;
    OtherStep(s, e, i);
    if s.k.current == i && e.ReadTrap? {
      ReadTakes(s);
      OneMore(got, s.k.port[p].readQ[0]);
    } else {
      assert got + [] == got;
    }
  }

  /** While a process is in PortRead its line is what it has been given since it called it, with no return in it and
      short of 100 characters; once it is through, that is a line that ends. */
  lemma {:induction false} LineTaken(ss: seq<Sys>, es: seq<Event>, i: nat, b: nat, n: nat)
    requires IsRun(ss, es) && FromBoot(ss[0]) && b < n <= |es| && CallingRead(ss, es, i, b, n)
    ensures i < PROC_NUM && |ss[n].prog| == PROC_NUM && IsPort(es[b].port)
    ensures var g, got := ss[n].prog[i], Taken(ss, es, i, es[b].port, b, n);
            if Reads(g) then g.port == es[b].port && g.line == got && 13 !in got && |got| < 100 else LineEnds(got)
  {
    hide SysInv, Next, Enabled, NewlyDelivered, Live, LineEnds;
    AtStep(ss, es, n - 1);
    AtStep(ss, es, b);
    var s, e, p := ss[n - 1], es[n - 1], es[b].port;
    if n - 1 == b {
      BeginsLine(s, e);
      assert Taken(ss, es, i, p, b, b) == [] && Taken(ss, es, i, p, b, n) == [];
    } else {
      assert CallingRead(ss, es, i, b, n - 1);
      LineTaken(ss, es, i, b, n - 1);
      LineStep(s, e, i, p, Taken(ss, es, i, p, b, n - 1));
    }
  }
}
