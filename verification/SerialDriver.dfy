/** The serial driver of 9.serialport/src/handlers.c, call by call: which bytes go to the data
    register, in which order, and where a byte that came in goes. */
module SerialDriver {
  import opened Queue
  import opened KernelSpec
  import opened Laws
  import opened Tokens

  /** From out to r the bytes of chars were sent, in order. */
  predicate SentTo(out: seq<int>, r: seq<int>, chars: seq<int>) {
    |r| == |out| + |chars| && r[..|out|] == out && forall i :: 0 <= i < |chars| ==> ByteOf(r[|out| + i], chars[i])
  }

  /** A byte of echo goes before any character, one byte goes at a time, and a character that goes makes room for
      another: one pass more for its writer. */
  lemma WriteOneSends(k: Kern, p: int)
    requires WF(k) && IsPort(p)
    ensures var d, r := k.port[p], PortWriteOne(k, p);
            var e, s := r.port[p], d.writeSid;
            if d.loopbackQ != [] then
              && SentTo(d.out, e.out, [d.loopbackQ[0]]) && e == d.(out := e.out, loopbackQ := d.loopbackQ[1..])
              && r.sem == k.sem
            else if d.writeQ != [] then
              && SentTo(d.out, e.out, [d.writeQ[0]]) && e == d.(out := e.out, writeQ := d.writeQ[1..])
              && Balance(r.sem[s]) == Balance(k.sem[s]) + 1 && r.sem == k.sem[s := r.sem[s]]
            else
              e == d.(writeOk := 1) && r.sem == k.sem
  {
    hide ToByte, ByteOf;
    var d := k.port[p];
    if d.loopbackQ != [] { AsByte(d.loopbackQ[0]); } else if d.writeQ != [] { AsByte(d.writeQ[0]); }
  }

  /** A byte that finds room is queued for the reader without its top bit, with a pass for the reader, and for the
      echo, with a line feed after a line end, as far as there is room; one that finds none is lost. */
  lemma ReadOneTakes(k: Kern, p: int, raw: int)
    requires WF(k) && IsPort(p)
    ensures var d, r, c := k.port[p], PortReadOne(k, p, raw), raw % 128;
            var s := d.readSid;
            var full, room := if c == 13 || c == 10 then [c, 10] else [c], QUEUE_SIZE - |d.loopbackQ|;
            if |d.readQ| == QUEUE_SIZE then r.port[p] == d && r.sem == k.sem
            else
              && r.port[p] == d.(readQ := d.readQ + [c],
                                 loopbackQ := d.loopbackQ + full[..if room < |full| then room else |full|])
              && Balance(r.sem[s]) == Balance(k.sem[s]) + 1 && r.sem == k.sem[s := r.sem[s]]
  {
    hide EnqueuedAll;
    EchoIs(k.port[p].loopbackQ, raw % 128);
  }

  /** What waits to be sent on port p, in the order it goes. */
  function Waiting(d: Port): seq<int> { d.loopbackQ + d.writeQ }

  /** From d to e up to `most` of the waiting bytes were sent, and nothing is read. */
  predicate Advances(d: Port, e: Port, most: nat) {
    var n := if |Waiting(d)| < most then |Waiting(d)| else most;
    SentTo(d.out, e.out, Waiting(d)[..n]) && Waiting(e) == Waiting(d)[n..] && e.readQ == d.readQ
  }

  lemma WriteOneNext(k: Kern, p: int)
    requires WF(k) && IsPort(p)
    ensures var d, e := k.port[p], PortWriteOne(k, p).port[p];
            Advances(d, e, 1) && (d.writeOk != 0 ==> e.writeOk != 0)
  {
    hide ByteOf, Balance;
    WriteOneSends(k, p);
    var d, e := k.port[p], PortWriteOne(k, p).port[p];
    if d.loopbackQ != [] {
      assert Waiting(d)[..1] == [d.loopbackQ[0]] && Waiting(d)[1..] == d.loopbackQ[1..] + d.writeQ;
    } else if d.writeQ != [] {
      assert Waiting(d) == d.writeQ && Waiting(e) == e.writeQ;
      assert Waiting(d)[..1] == [d.writeQ[0]];
    } else {
      assert Waiting(d) == [] && Waiting(e) == [];
    }
  }

  lemma AdvancesTwice(d: Port, e: Port, f: Port)
    requires Advances(d, e, 1) && Advances(e, f, 1)
    ensures Advances(d, f, 2)
  {
    hide SentTo, Waiting;
    var w := Waiting(d);
    if |w| == 0 {
      SentBoth(d.out, e.out, f.out, w[..0], w[0..][..0]);
      assert w[..0] + w[0..][..0] == w[..0];
    } else if |w| == 1 {
      SentBoth(d.out, e.out, f.out, w[..1], w[1..][..0]);
      assert w[..1] + w[1..][..0] == w[..1] && w[1..][0..] == w[1..];
    } else {
      SentBoth(d.out, e.out, f.out, w[..1], w[1..][..1]);
      assert w[..1] + w[1..][..1] == w[..2] && w[1..][1..] == w[2..];
    }
  }

  lemma SentBoth(a: seq<int>, b: seq<int>, c: seq<int>, s: seq<int>, t: seq<int>)
    requires SentTo(a, b, s) && SentTo(b, c, t)
    ensures SentTo(a, c, s + t)
  {
    hide ByteOf;
    assert c[..|a|] == b[..|a|];
    forall i | 0 <= i < |s + t| ensures ByteOf(c[|a| + i], (s + t)[i]) {
      if i < |s| {
        assert c[|a| + i] == b[|a| + i];
      } else {
        assert c[|a| + i] == c[|b| + (i - |s|)];
      }
    }
  }

  /** One interrupt sends one waiting byte of a port marked idle, and one more if its transmitter is ready; a byte it
      brings is taken first. */
  lemma ServiceSends(k: Kern, p: int, u: Uart)
    requires WF(k) && IsPort(p) && k.port[p].owner != 0 && k.port[p].writeOk != 0
    ensures var d := if u.RxReady? then PortReadOne(k, p, u.raw).port[p] else k.port[p];
            d.out == k.port[p].out && Advances(d, PortService(k, p, u).port[p], if u.TxReady? then 2 else 1)
  {
    hide PortReadOne, PortWriteOne, Advances;
    var k1 := if u.RxReady? then PortReadOne(k, p, u.raw) else k;
    if u.RxReady? { ReadOneTakes(k, p, u.raw); }
    var k2 := if u.TxReady? then PortWriteOne(k1, p) else k1;
    WriteOneNext(k1, p);
    WriteOneNext(k2, p);
    if u.TxReady? { AdvancesTwice(k1.port[p], k2.port[p], PortWriteOne(k2, p).port[p]); }
  }

  /** The ports are served in order, each once, those nobody owns not at all. */
  lemma HandlerServes(k: Kern, uart: seq<Uart>)
    requires WF(k) && |uart| == PORT_NUM
    ensures var a := if k.port[0].owner == 0 then k else PortService(k, 0, uart[0]);
            var b := if a.port[1].owner == 0 then a else PortService(a, 1, uart[1]);
            PortHandler(k, uart, 0) == if b.port[2].owner == 0 then b else PortService(b, 2, uart[2])
  {
    hide PortReadOne, PortWriteOne;
    var a := PortService(k, 0, uart[0]);
    var b := PortService(a, 1, uart[1]);
    var c := PortService(b, 2, uart[2]);
    assert PortHandler(c, uart, 3) == c;
    assert PortHandler(b, uart, 2) == c;
    assert PortHandler(a, uart, 1) == c;
  }

  // ---- the upper half ----------------------------------------------------------------------------

  /** A character handed over goes to the end of the transmit queue, and an idle port sends what is first. */
  lemma WriteTrapTakes(k: Kern, ch: int, p: int)
    requires WF(k) && IsPort(p)
    ensures var d, r := k.port[p], PortWriteHandler(k, ch, p);
            if |d.writeQ| == QUEUE_SIZE then r == k
            else
              && r.portLog[p].accepted == k.portLog[p].accepted + [ch]
              && var m := d.(writeQ := d.writeQ + [ch]);
                 if d.writeOk != 0 then Advances(m, r.port[p], 1) else r.port[p] == m
  {
    hide Advances;
    var d := k.port[p];
    if |d.writeQ| < QUEUE_SIZE {
      var m := GiveWrite(k, p, ch);
      WriteOneNext(m, p);
    }
  }

  /** The first character received is the one delivered. */
  lemma ReadTrapGives(k: Kern, p: int)
    requires WF(k) && IsPort(p)
    ensures var d := k.port[p];
            var (r, reply) := PortReadHandler(k, p);
            if d.readQ == [] then r == k && reply == NoReply
            else
              && reply == Stored(d.readQ[0]) && r.port == k.port[p := d.(readQ := d.readQ[1..])]
              && r.portLog[p].delivered == k.portLog[p].delivered + [d.readQ[0]] && r.sem == k.sem
  {
  }
}
