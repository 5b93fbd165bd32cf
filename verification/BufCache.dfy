/** The buffer cache A.ide/src/bio.c, used as its comments ask: a buffer is changed, written, released. */
module BufCache {
  import opened FsFormat
  import opened BufList
  import opened Ide
  import opened Recent

  /** A buffer without its links. */
  datatype Card = Card(busy: bool, valid: bool, dirty: bool, dev: nat, blockno: nat, data: Block)

  function CardOf(b: Buf): Card
    reads b`busy, b`valid, b`dirty, b`dev, b`blockno, b`data
  {
    Card(b.busy, b.valid, b.dirty, b.dev, b.blockno, b.data)
  }

  ghost function Cards(s: seq<Buf>): (c: seq<Card>)
    reads s`busy, s`valid, s`dirty, s`dev, s`blockno, s`data
    ensures |c| == |s| && forall i :: 0 <= i < |s| ==> c[i] == CardOf(s[i])
  {
    if s == [] then [] else [CardOf(s[0])] + Cards(s[1..])
  }

  /** x holds that block and nobody has it. */
  predicate Match(x: Card, dev: nat, blockno: nat) {
    x.dev == dev && x.blockno == blockno && !x.busy
  }

  /** x may be given to another block. */
  predicate Clean(x: Card) { !x.busy && !x.dirty }

  function At(x: Card): Place { Place(x.dev % 2, x.blockno) }

  /** No two buffers are for the same block. */
  ghost predicate OnePerBlock(c: seq<Card>) {
    forall i, j :: 0 <= i < j < |c| && c[i].dev == c[j].dev && c[i].blockno == c[j].blockno ==> c[i].dev == NODEV
  }

  /** Every idle buffer is clean and, once read, has its block's content. */
  ghost predicate InStep(c: seq<Card>, disk: Disk) {
    forall i :: 0 <= i < |c| && !c[i].busy ==>
      !c[i].dirty && (c[i].valid ==> At(c[i]) in disk && c[i].data == disk[At(c[i])])
  }

  /** A buffer is for a block of a drive that is there, or not yet for any. */
  ghost predicate Placed(c: seq<Card>, have1: bool) {
    forall i :: 0 <= i < |c| ==>
      if c[i].dev == NODEV then !c[i].busy && !c[i].valid
      else c[i].blockno < FSSIZE && (c[i].dev == 0 || (c[i].dev == 1 && have1))
  }

  /** What the cache keeps about its buffers and the disk. */
  ghost predicate Sound(c: seq<Card>, disk: Disk, have1: bool) {
    OnePerBlock(c) && InStep(c, disk) && Placed(c, have1)
  }

  /** No one has the block. */
  ghost predicate NotHeld(c: seq<Card>, dev: nat, blockno: nat) {
    forall j :: 0 <= j < |c| && c[j].busy ==> c[j].dev != dev || c[j].blockno != blockno
  }

  /** The first match from i on; -1 if there is none. */
  function HitAt(c: seq<Card>, dev: nat, blockno: nat, i: nat): (r: int)
    requires i <= |c|
    ensures r == -1 || (i <= r < |c| && Match(c[r], dev, blockno))
    ensures forall j :: i <= j < (if r == -1 then |c| else r) ==> !Match(c[j], dev, blockno)
    decreases |c| - i
  {
    if i == |c| then -1 else if Match(c[i], dev, blockno) then i else HitAt(c, dev, blockno, i + 1)
  }

  /** The last clean buffer among the first n: the least recently released; -1 if there is none. */
  function VictimAt(c: seq<Card>, n: nat): (r: int)
    requires n <= |c|
    ensures r == -1 || (0 <= r < n && Clean(c[r]))
    ensures forall j :: r < j < n ==> !Clean(c[j])
  {
    if n == 0 then -1 else if Clean(c[n - 1]) then n - 1 else VictimAt(c, n - 1)
  }

  /** The buffer bget settles on; -1 stands for the head. */
  function Chosen(c: seq<Card>, dev: nat, blockno: nat): (k: int)
    ensures -1 <= k < |c|
  {
    if HitAt(c, dev, blockno, 0) >= 0 then HitAt(c, dev, blockno, 0) else VictimAt(c, |c|)
  }

  /** The buffers as bget leaves them. */
  function GotCards(c: seq<Card>, dev: nat, blockno: nat): (r: seq<Card>)
    ensures |r| == |c|
  {
    var k := Chosen(c, dev, blockno);
    if k < 0 then c
    else if HitAt(c, dev, blockno, 0) >= 0 then c[k := c[k].(busy := true)]
    else c[k := Card(true, false, false, dev, blockno, c[k].data)]
  }

  lemma GotIs(c: seq<Card>, dev: nat, blockno: nat)
    ensures var h, v := HitAt(c, dev, blockno, 0), VictimAt(c, |c|);
            && Chosen(c, dev, blockno) == (if h >= 0 then h else v)
            && GotCards(c, dev, blockno) ==
                 if h >= 0 then c[h := c[h].(busy := true)]
                 else if v >= 0 then c[v := Card(true, false, false, dev, blockno, c[v].data)]
                 else c
  {
  }

  /** The buffers as bread leaves them. */
  function ReadCards(c: seq<Card>, dev: nat, blockno: nat, data: Block): (r: seq<Card>)
    ensures |r| == |c|
  {
    var k := Chosen(c, dev, blockno);
    if k < 0 then c else c[k := Card(true, true, false, dev, blockno, data)]
  }

  /** The buffer bget is to take, k being its place in the list s with cards c, -1 if there is none: of the idle ones
      for the block the one released last, and without any, of the idle clean ones the one released longest ago. */
  ghost predicate Right(s: seq<Buf>, log: seq<Buf>, c: seq<Card>, dev: nat, blockno: nat, k: int)
    requires |c| == |s| && -1 <= k < |s|
  {
    if exists j :: 0 <= j < |c| && c[j].dev == dev && c[j].blockno == blockno && !c[j].busy then
      && k >= 0 && c[k].dev == dev && c[k].blockno == blockno && !c[k].busy
      && forall j :: 0 <= j < |c| && c[j].dev == dev && c[j].blockno == blockno && !c[j].busy ==>
           LastUse(log, s[j]) <= LastUse(log, s[k])
    else if k >= 0 then
      && !c[k].busy && !c[k].dirty
      && forall j :: 0 <= j < |c| && !c[j].busy && !c[j].dirty ==> LastUse(log, s[k]) <= LastUse(log, s[j])
    else
      forall j :: 0 <= j < |c| ==> c[j].busy || c[j].dirty
  }

  /** Searching from the front and then from the back finds it, and bget's stores are these. */
  lemma ChosenIsRight(s: seq<Buf>, log: seq<Buf>, c: seq<Card>, dev: nat, blockno: nat)
    requires s == Recency(log) && |c| == |s|
    ensures Right(s, log, c, dev, blockno, Chosen(c, dev, blockno))
    ensures var k := Chosen(c, dev, blockno);
            GotCards(c, dev, blockno) ==
              if k < 0 then c
              else c[k := if c[k].dev == dev && c[k].blockno == blockno then c[k].(busy := true)
                          else Card(true, false, false, dev, blockno, c[k].data)]
  {
    hide Recency, LastUse;
    RecencyIs(log);
    var k := Chosen(c, dev, blockno);
    assert forall j :: 0 <= j < |c| ==> (Match(c[j], dev, blockno) <==>
        c[j].dev == dev && c[j].blockno == blockno && !c[j].busy);
    assert forall j :: 0 <= j < |c| ==> (Clean(c[j]) <==> !c[j].busy && !c[j].dirty);
  }

  /** bget's choice is idle, and keeps one buffer per block. */
  lemma GotKeeps(c: seq<Card>, disk: Disk, have1: bool, dev: nat, blockno: nat)
    requires Sound(c, disk, have1) && blockno < FSSIZE && (dev == 0 || (dev == 1 && have1))
      && Place(dev, blockno) in disk
    requires NotHeld(c, dev, blockno) && Chosen(c, dev, blockno) >= 0
    ensures var k, g, data := Chosen(c, dev, blockno), GotCards(c, dev, blockno), disk[Place(dev, blockno)];
            && !c[k].busy && g[k].busy && !g[k].dirty && g[k].dev == dev && g[k].blockno == blockno
            && (g[k].valid ==> g == ReadCards(c, dev, blockno, data))
            && g[k := g[k].(valid := true, data := data)] == ReadCards(c, dev, blockno, data)
            && ReadCards(c, dev, blockno, data)[k] == Card(true, true, false, dev, blockno, data)
            && Sound(ReadCards(c, dev, blockno, data), disk, have1)
  {
    hide HitAt, VictimAt;
  }

  /** Writing a busy buffer to its block puts no other out of step. */
  lemma WriteKeeps(c: seq<Card>, disk: Disk, have1: bool, k: nat)
    requires Sound(c, disk, have1) && k < |c| && c[k].busy
    ensures Sound(c[k := c[k].(valid := true, dirty := false)], disk[At(c[k]) := c[k].data], have1)
    ensures c[k].blockno < FSSIZE && (c[k].dev == 0 || (c[k].dev == 1 && have1))
  {
  }

  lemma ReleaseKeeps(c: seq<Card>, disk: Disk, have1: bool, k: nat)
    requires Sound(c, disk, have1) && k < |c| && c[k].valid && !c[k].dirty && At(c[k]) in disk
      && c[k].data == disk[At(c[k])]
    ensures Sound(Moved(c[k := c[k].(busy := false)], k), disk, have1)
  {
    var d := c[k := c[k].(busy := false)];
    forall i | 0 <= i < |d| ensures Moved(d, k)[i] == d[if i == 0 then k else if i <= k then i - 1 else i] {
      MovedAt(d, k, i);
    }
    hide Moved;
  }

  /** What next and prev are around a list. */
  lemma Around(head: Buf, s: seq<Buf>, i: nat)
    requires Ring([head] + s)
    ensures head.next == (if s == [] then head else s[0]) && head.prev == (if s == [] then head else s[|s| - 1])
    ensures i < |s| ==> s[i] != head
    ensures i < |s| ==>
        s[i].next == (if i + 1 < |s| then s[i + 1] else head) && s[i].prev == (if i > 0 then s[i - 1] else head)
  {
    var t := [head] + s;
    assert t[After(|s|, |t|)].prev == t[|s|] && t[0].next == t[After(0, |t|)];
    if i < |s| {
      assert t[i + 1] == s[i];
      assert t[After(i, |t|)].prev == t[i] && t[i + 1].next == t[After(i + 1, |t|)];
    }
  }

  ghost predicate SameMembers(s: seq<Buf>, t: seq<Buf>) {
    (forall i :: 0 <= i < |s| ==> s[i] in t) && (forall i :: 0 <= i < |t| ==> t[i] in s)
  }

  // ---- what the callers do ---------------------------------------------------------------------

  /** One call of a caller, who may have any number of buffers out: bread, a change to the content of a
      buffer in hand, bwrite, brelse. */
  datatype Call = Fetch(at: Place) | Change(at: Place, data: Block) | Store(at: Place) | Release(at: Place)

  /** What there is to see without a cache: the disk, and the blocks in hand as they have been changed. */
  datatype View = View(disk: Disk, held: map<Place, Block>)

  /** The rules of the comments in bio.c: a block is not fetched twice at a time, there is a buffer for it, and
      a changed block is written before it is released. */
  predicate Allowed(v: View, c: Call, have1: bool, buffers: nat) {
    match c
    case Fetch(at) =>
      at.block < FSSIZE && (at.drive == 0 || (at.drive == 1 && have1)) && at !in v.held && |v.held| < buffers
    case Change(at, _) => at in v.held
    case Store(at) => at in v.held
    case Release(at) => at in v.held && at in v.disk && v.held[at] == v.disk[at]
  }

  /** The call made on the disk itself. */
  function Made(v: View, c: Call): View {
    match c
    case Fetch(at) => if at in v.disk then v.(held := v.held[at := v.disk[at]]) else v
    case Change(at, data) => v.(held := v.held[at := data])
    case Store(at) => if at in v.held then v.(disk := v.disk[at := v.held[at]]) else v
    case Release(at) => v.(held := v.held - {at})
  }

  function MadeAll(v: View, cs: seq<Call>): View {
    if cs == [] then v else Made(MadeAll(v, cs[..|cs| - 1]), cs[|cs| - 1])
  }

  /** Every call keeps the rules when it is made. */
  ghost predicate AllAllowed(v: View, cs: seq<Call>, have1: bool, buffers: nat) {
    forall i :: 0 <= i < |cs| ==> Allowed(MadeAll(v, cs[..i]), cs[i], have1, buffers)
  }

  /** If call i fetches a block, data is that block as the calls before it left it on the disk. */
  ghost predicate Saw(v: View, cs: seq<Call>, i: nat, data: Block)
    requires i < |cs|
  {
    var disk := MadeAll(v, cs[..i]).disk;
    cs[i].Fetch? ==> cs[i].at in disk && data == disk[cs[i].at]
  }

  lemma {:induction false} NoMore(s: seq<Place>, t: set<Place>)
    requires forall i, j :: 0 <= i < j < |s| ==> s[i] != s[j]
    requires forall i :: 0 <= i < |s| ==> s[i] in t
    ensures |s| <= |t|
  {
    if s != [] {
      NoMore(s[..|s| - 1], t - {s[|s| - 1]});
    }
  }

  /** While fewer blocks are held than there are buffers, one is idle and bget finds it. */
  lemma OneIdle(c: seq<Card>, disk: Disk, have1: bool, held: set<Place>, dev: nat, blockno: nat)
    requires Sound(c, disk, have1) && |held| < |c| && forall i :: 0 <= i < |c| && c[i].busy ==> At(c[i]) in held
    ensures Chosen(c, dev, blockno) >= 0
  {
    if forall i :: 0 <= i < |c| ==> c[i].busy {
      NoMore(seq(|c|, i requires 0 <= i < |c| => At(c[i])), held);
    } else {
      var i :| 0 <= i < |c| && !c[i].busy;
      assert Clean(c[i]);
    }
  }

  /** bget finds a buffer, and not just the head of the list, exactly while one is idle. */
  lemma FoundExactly(c: seq<Card>, disk: Disk, have1: bool, dev: nat, blockno: nat)
    requires Sound(c, disk, have1)
    ensures Chosen(c, dev, blockno) >= 0 <==> exists i :: 0 <= i < |c| && !c[i].busy
  {
    if i :| 0 <= i < |c| && !c[i].busy {
      assert Clean(c[i]);
    }
  }

  /** bget keeps one buffer per block exactly for a block that is not held. */
  lemma RecyclesExactly(c: seq<Card>, disk: Disk, have1: bool, dev: nat, blockno: nat)
    requires Sound(c, disk, have1) && dev != NODEV && Chosen(c, dev, blockno) >= 0
    ensures OnePerBlock(GotCards(c, dev, blockno)) <==> NotHeld(c, dev, blockno)
  {
    hide HitAt, VictimAt;
    var k, g := Chosen(c, dev, blockno), GotCards(c, dev, blockno);
    if j :| 0 <= j < |c| && c[j].busy && c[j].dev == dev && c[j].blockno == blockno {
      assert g[j].dev == dev && g[k].dev == dev && j != k;
    }
  }

  /** The buffers out are those of the blocks held, with what their holders made of them; the rest are idle. */
  ghost predicate OutOf(mine: map<Place, Buf>, held: map<Place, Block>, m: map<Buf, Card>) {
    && mine.Keys == held.Keys
    && (forall at :: at in held ==>
          && at.drive < 2 && mine[at] in m
          && m[mine[at]] == Card(true, true, false, at.drive, at.block, held[at]))
    && (forall b :: b in m && m[b].busy ==> At(m[b]) in held && mine[At(m[b])] == b)
  }

  lemma OutMore(mine: map<Place, Buf>, held: map<Place, Block>, m: map<Buf, Card>, at: Place, b: Buf, data: Block)
    requires OutOf(mine, held, m) && at !in held && at.drive < 2 && b in m && !m[b].busy
    ensures OutOf(mine[at := b], held[at := data], m[b := Card(true, true, false, at.drive, at.block, data)])
  {
  }

  lemma OutChanged(mine: map<Place, Buf>, held: map<Place, Block>, m: map<Buf, Card>, at: Place, data: Block)
    requires OutOf(mine, held, m) && at in held
    ensures OutOf(mine, held[at := data], m[mine[at] := m[mine[at]].(data := data)])
  {
  }

  lemma OutLess(mine: map<Place, Buf>, held: map<Place, Block>, m: map<Buf, Card>, at: Place)
    requires OutOf(mine, held, m) && at in held
    ensures OutOf(mine - {at}, held - {at}, m[mine[at] := m[mine[at]].(busy := false)])
  {
  }

  lemma ReadIs(c: seq<Card>, dev: nat, blockno: nat, data: Block)
    ensures var k := Chosen(c, dev, blockno);
            k >= 0 ==> ReadCards(c, dev, blockno, data) == c[k := Card(true, true, false, dev, blockno, data)]
  {
  }

  /** Changing the content of a busy buffer breaks no rule. */
  lemma DataKeeps(c: seq<Card>, disk: Disk, have1: bool, k: nat, data: Block)
    requires Sound(c, disk, have1) && k < |c| && c[k].busy
    ensures Sound(c[k := c[k].(data := data)], disk, have1)
  {
  }

  class Cache {
    const buf: seq<Buf>
    const head: Buf
    const ide: Driver
    ghost var order: seq<Buf>
    ghost var log: seq<Buf>

    /** The list is one circle through the head, most recently released first; binit's insertions count
        as releases. */
    ghost predicate Listed()
      reads this, head`prev, head`next, order`prev, order`next
    {
      Ring([head] + order) && order == Recency(log) && |order| == |buf| && SameMembers(order, buf)
    }

    ghost predicate Valid()
      reads this, head, order, ide, ide.queue
    {
      Listed() && !head.busy && ide.Valid() && ide.queue == [] && Sound(Cards(order), ide.disk, ide.havedisk1)
    }

    /** The buffers and the head are zeroed memory. */
    constructor (bufs: seq<Buf>, h: Buf, d: Driver)
      ensures buf == bufs && head == h && ide == d
    {
      buf, head, ide, order, log := bufs, h, d, [], [];
    }

    /** Links b in right after the head. */
    method LinkFirst(b: Buf, ghost was: seq<Buf>)
      requires Ring([head] + was) && b !in [head] + was
      modifies head`prev, head`next, was`prev, was`next, b`prev, b`next
      ensures Ring([head] + ([b] + was))
    {
      LinkFront(b, head, [head] + was);
      assert [head] + ([b] + was) == [head, b] + ([head] + was)[1..];
    }

    /** Makes the list: each buffer goes in front of the ones before it. */
    method Binit()
      requires NoRepeats([head] + buf) && ide.Valid() && ide.queue == [] && !head.busy
      requires forall i :: 0 <= i < |buf| ==> !buf[i].busy && !buf[i].valid && !buf[i].dirty
      modifies this, head`prev, head`next, buf`prev, buf`next, buf`dev
      ensures Valid() && log == buf
    {
      hide Recency, Ring, Sound, Cards;
      head.prev := head;
      head.next := head;
      order, log := [], [];
      Alone(head);
      NoneUsed(buf);
      var i := 0;
      while i < |buf|
        invariant 0 <= i <= |buf| && log == buf[..i] && order == Recency(log) && |order| == i && Ring([head] + order)
        invariant forall j :: 0 <= j < i ==> buf[j].dev == NODEV
      {
        var b := buf[i];
        NotYet(buf, head, i);
        b.dev := NODEV;
        LinkFirst(b, order);
        order, log := [b] + order, log + [b];
        i := i + 1;
      }
      AllUsed(buf);
      AllUnplaced(order, buf, ide.disk, ide.havedisk1);
    }

    /** bget's search from the front, for the block. */
    method FindHit(dev: nat, blockno: nat) returns (b: Buf, ghost k: int)
      requires Listed()
      ensures k == HitAt(Cards(order), dev, blockno, 0) && b == if k >= 0 then order[k] else head
    {
      hide Ring, Recency, Cards, SameMembers;
      Around(head, order, 0);
      b := head.next;
      k := 0;
      while b != head
        invariant 0 <= k <= |order| && b == (if k < |order| then order[k] else head)
        invariant HitAt(Cards(order), dev, blockno, 0) == HitAt(Cards(order), dev, blockno, k)
        decreases |order| - k
      {
        Around(head, order, k);
        if b.dev == dev && b.blockno == blockno && !b.busy {
          return;
        }
        b := b.next;
        k := k + 1;
      }
      if k < |order| { Around(head, order, k); }
      k := -1;
    }

    /** bget's search from the back, for a buffer to recycle. */
    method FindVictim() returns (b: Buf, ghost k: int)
      requires Listed()
      ensures k == VictimAt(Cards(order), |order|) && b == if k >= 0 then order[k] else head
    {
      hide Ring, Recency, Cards, SameMembers;
      Around(head, order, 0);
      b := head.prev;
      k := |order| - 1;
      while b != head
        invariant -1 <= k < |order| && b == (if k >= 0 then order[k] else head)
        invariant VictimAt(Cards(order), |order|) == VictimAt(Cards(order), k + 1)
        decreases k + 1
      {
        Around(head, order, k);
        if !b.busy && !b.dirty {
          return;
        }
        b := b.prev;
        k := k - 1;
      }
      if k >= 0 { Around(head, order, k); }
    }

    /** Finds a buffer for the block and marks it busy: the most recently released match, else the least
        recently released clean buffer, recycled, else just the head. */
    method Bget(dev: nat, blockno: nat) returns (b: Buf, ghost k: int)
      requires Listed()
      modifies order`busy, order`valid, order`dirty, order`dev, order`blockno
      ensures Listed() && k == Chosen(old(Cards(order)), dev, blockno) && b == (if k >= 0 then order[k] else head)
      ensures Cards(order) == GotCards(old(Cards(order)), dev, blockno)
      ensures Right(order, log, old(Cards(order)), dev, blockno, k)
    {
      hide Listed, Cards, HitAt, VictimAt, Right, Chosen, GotCards;
      ListedParts();
      RightHere(dev, blockno);
      GotIs(Cards(order), dev, blockno);
      b, k := FindHit(dev, blockno);
      if b != head {
        b.busy := true;
        return;
      }
      b, k := FindVictim();
      if b != head {
        Recycle(b, k, dev, blockno);
      }
    }

    method Recycle(b: Buf, ghost k: nat, dev: nat, blockno: nat)
      requires Listed() && k < |order| && order[k] == b
      modifies b`busy, b`valid, b`dirty, b`dev, b`blockno
      ensures Listed() && Cards(order) == old(Cards(order))[k := Card(true, false, false, dev, blockno, b.data)]
    {
      hide Listed, Cards;
      ListedParts();
      b.dev := dev;
      b.blockno := blockno;
      b.busy, b.valid, b.dirty := true, false, false;
    }

    /** The buffer of a block, holding its content. */
    method Bread(dev: nat, blockno: nat) returns (b: Buf, ghost k: nat)
      requires Valid() && blockno < FSSIZE && (dev == 0 || (dev == 1 && ide.havedisk1))
      requires NotHeld(Cards(order), dev, blockno) && Chosen(Cards(order), dev, blockno) >= 0
      modifies ide, order`busy, order`valid, order`dirty, order`dev, order`blockno, order`data, order`qnext
      ensures Valid() && ide.disk == old(ide.disk) && Place(dev, blockno) in ide.disk
        && b.data == ide.disk[Place(dev, blockno)]
      ensures k == Chosen(old(Cards(order)), dev, blockno) && b == order[k] && !old(Cards(order))[k].busy
      ensures Cards(order) == ReadCards(old(Cards(order)), dev, blockno, b.data)
      ensures Right(order, log, old(Cards(order)), dev, blockno, k)
      ensures Cards(order) == old(Cards(order))[k := Card(true, true, false, dev, blockno, b.data)]
    {
      hide Right, Listed, Cards, Chosen, GotCards, ReadCards, Sound, DiskOk, NotHeld;
      ListedParts();
      PlaceThere(ide.disk, ide.havedisk1, dev, blockno);
      ghost var c := Cards(order);
      GotKeeps(c, ide.disk, ide.havedisk1, dev, blockno);
      ghost var n;
      b, n := Bget(dev, blockno);
      k := n;
      ghost var g, data := Cards(order), ide.disk[Place(dev, blockno)];
      assert CardOf(b) == g[k];
      assert PlaceOf(b) == Place(dev, blockno);
      Fill(b, k);
      assert Cards(order) == ReadCards(c, dev, blockno, data);
      ReadIs(c, dev, blockno, data);
      assert CardOf(b) == Cards(order)[k];
    }

    /** The end of bread: a buffer just taken is read if it was not. */
    method Fill(b: Buf, ghost k: nat)
      requires Listed() && ide.Valid() && ide.queue == [] && k < |order| && order[k] == b
      requires b.busy && !b.dirty && b.blockno < FSSIZE && (b.dev == 0 || (b.dev == 1 && ide.havedisk1))
      modifies ide, b`valid, b`dirty, b`data, b`qnext
      ensures Listed() && ide.Valid() && ide.queue == [] && ide.disk == old(ide.disk) && PlaceOf(b) in ide.disk
      ensures var c := old(Cards(order));
              Cards(order) == if c[k].valid then c else c[k := c[k].(valid := true, data := ide.disk[PlaceOf(b)])]
    {
      hide Listed, Cards, DiskOk;
      ListedParts();
      PlaceThere(ide.disk, ide.havedisk1, b.dev, b.blockno);
      if !b.valid {
        ide.Iderw(b);
      }
    }

    /** Writes a busy buffer's content to its block. */
    method Bwrite(b: Buf, ghost k: nat)
      requires Valid() && k < |order| && order[k] == b
      modifies ide, b`dirty, b`valid, b`data, b`qnext
      ensures Valid()
      ensures !old(b.busy) ==> ide.disk == old(ide.disk) && Cards(order) == old(Cards(order))
      ensures old(b.busy) ==>
        && ide.disk == old(ide.disk)[PlaceOf(b) := old(b.data)]
        && Cards(order) == old(Cards(order))[k := old(CardOf(b)).(valid := true, dirty := false)]
    {
      hide Listed, Cards, Sound, DiskOk;
      ListedParts();
      if !b.busy {
        return;
      }
      ghost var c := Cards(order);
      WriteKeeps(c, ide.disk, ide.havedisk1, k);
      b.dirty := true;
      ide.Iderw(b);
      assert Cards(order) == c[k := c[k].(valid := true, dirty := false)];
    }

    /** Releases a buffer whose content is its block's: it becomes the most recently released. */
    method Brelse(b: Buf, ghost k: nat)
      requires Valid() && k < |order| && order[k] == b
      requires b.busy ==> b.valid && !b.dirty && PlaceOf(b) in ide.disk && b.data == ide.disk[PlaceOf(b)]
      modifies this, head`prev, head`next, order`prev, order`next, b`busy
      ensures Valid()
      ensures !old(b.busy) ==> order == old(order) && log == old(log) && Cards(order) == old(Cards(order))
      ensures old(b.busy) ==>
        && order == Moved(old(order), k) && log == old(log) + [b]
        && Cards(order) == Moved(old(Cards(order))[k := old(CardOf(b)).(busy := false)], k)
    {
      hide Listed, Cards, Sound, DiskOk;
      if !b.busy {
        return;
      }
      ListedParts();
      ghost var was, c := order, Cards(order);
      ReleaseKeeps(c, ide.disk, ide.havedisk1, k);
      MoveFirst(b, k);
      b.busy := false;
      assert Cards(was) == c[k := c[k].(busy := false)];
      CardsMoved(was, k);
    }

    /** The list after a release of b. */
    method MoveFirst(b: Buf, ghost k: nat)
      requires Listed() && k < |order| && order[k] == b
      modifies this, head`prev, head`next, order`prev, order`next
      ensures Listed() && order == Moved(old(order), k) && log == old(log) + [b]
    {
      hide Recency, Ring, SameMembers, Rest;
      Distinct(head, order);
      Relink(b, k);
      RestWithout(order, k);
      RecencyStep(log, b);
      MovedMembers(order, buf, k);
      order, log := Moved(order, k), log + [b];
    }

    lemma RightHere(dev: nat, blockno: nat)
      requires Listed()
      ensures Right(order, log, Cards(order), dev, blockno, Chosen(Cards(order), dev, blockno))
    {
      hide Cards, Ring, Right, Chosen;
      ChosenIsRight(order, log, Cards(order), dev, blockno);
    }

    lemma ListedParts()
      requires Listed()
      ensures NoRepeats(order) && head !in order && SameMembers(order, buf)
    {
      Distinct(head, order);
    }

    /** A miss recycles the clean buffer released longest ago. */
    lemma VictimOldest(dev: nat, blockno: nat, j: nat)
      requires Listed() && j < |order| && !Cards(order)[j].busy && !Cards(order)[j].dirty
      requires forall i :: 0 <= i < |order| ==>
        Cards(order)[i].dev != dev || Cards(order)[i].blockno != blockno || Cards(order)[i].busy
      ensures var v := Chosen(Cards(order), dev, blockno);
              && 0 <= v < |order| && LastUse(log, order[v]) <= LastUse(log, order[j])
              && !Cards(order)[v].busy && !Cards(order)[v].dirty
    {
      hide Cards, LastUse, Ring, Chosen;
      RightHere(dev, blockno);
    }

    // ---- runs --------------------------------------------------------------------------------

    ghost function Snap(): (m: map<Buf, Card>)
      reads buf
      ensures m.Keys == set b | b in buf
    {
      map b | b in buf :: CardOf(b)
    }

    ghost predicate Out(mine: map<Place, Buf>, held: map<Place, Block>)
      reads buf
    {
      OutOf(mine, held, Snap())
    }

    /** The holder of a buffer changes its content. */
    method Change(b: Buf, ghost k: nat, data: Block)
      requires Valid() && k < |order| && order[k] == b && b.busy
      modifies b`data
      ensures Valid() && Cards(order) == old(Cards(order))[k := old(CardOf(b)).(data := data)]
    {
      hide Listed, Cards, Sound, DiskOk;
      ListedParts();
      ghost var c := Cards(order);
      DataKeeps(c, ide.disk, ide.havedisk1, k, data);
      b.data := data;
      assert Cards(order) == c[k := c[k].(data := data)];
    }

    /** Where a buffer is in the list. */
    lemma Position(b: Buf) returns (k: nat)
      requires Listed() && b in buf
      ensures k < |order| && order[k] == b
    {
      var i :| 0 <= i < |buf| && buf[i] == b;
      k :| 0 <= k < |order| && order[k] == b;
    }

    /** A block the rules allow to be fetched is in no one's hands, and there is a buffer for it. */
    lemma Fetchable(at: Place, mine: map<Place, Buf>, held: map<Place, Block>)
      requires Valid() && Out(mine, held) && Allowed(View(ide.disk, held), Fetch(at), ide.havedisk1, |buf|)
      ensures NotHeld(Cards(order), at.drive, at.block) && Chosen(Cards(order), at.drive, at.block) >= 0
    {
      hide Cards, Sound, Chosen, DiskOk, Ring, Recency;
      var c := Cards(order);
      forall i | 0 <= i < |c| && c[i].busy ensures At(c[i]) in held && At(c[i]) != at {
        assert order[i] in buf;
        assert Snap()[order[i]] == c[i];
      }
      OneIdle(c, ide.disk, ide.havedisk1, held.Keys, at.drive, at.block);
    }

    /** With the cards of the list known, so is the card of every buffer. */
    lemma SnapIs(m: map<Buf, Card>)
      requires Listed() && (forall x :: x in m <==> x in buf)
      requires forall j :: 0 <= j < |order| ==> order[j] in m && m[order[j]] == Cards(order)[j]
      ensures Snap() == m
    {
      hide Cards, Ring, Recency;
      forall x | x in buf ensures m[x] == CardOf(x) {
        var j := Position(x);
        assert Cards(order)[j] == CardOf(x);
      }
    }

    lemma SnapHas(j: nat)
      requires Listed() && j < |order|
      ensures order[j] in Snap() && Snap()[order[j]] == Cards(order)[j]
    {
      hide Cards, Ring, Recency;
      assert order[j] in buf;
    }

    /** One buffer's card has changed. */
    twostate lemma OneChanged(new b: Buf, new x: Card)
      requires b in buf && CardOf(b) == x && forall y :: y in buf && y != b ==> CardOf(y) == old(CardOf(y))
      ensures Snap() == old(Snap())[b := x]
    {
    }

    /** bread by a caller with the blocks of `mine` in hand. */
    method Fetched(at: Place, mine: map<Place, Buf>, ghost held: map<Place, Block>) returns (b: Buf)
      requires Valid() && Out(mine, held) && Allowed(View(ide.disk, held), Fetch(at), ide.havedisk1, |buf|)
      modifies ide, order
      ensures Valid() && ide.disk == old(ide.disk)
      ensures at in ide.disk && b.data == ide.disk[at] && Out(mine[at := b], held[at := b.data])
      ensures exists k :: 0 <= k < |order| && b == order[k]
                && Right(order, log, old(Cards(order)), at.drive, at.block, k)
    {
      hide Right, Listed, Cards, Sound, Chosen, ReadCards, DiskOk, NotHeld, OutOf, Snap;
      ListedParts();
      ghost var c, m := Cards(order), Snap();
      Fetchable(at, mine, held);
      forall j | 0 <= j < |order| ensures order[j] in m && m[order[j]] == c[j] { SnapHas(j); }
      ghost var k;
      b, k := Bread(at.drive, at.block);
      ReadIs(c, at.drive, at.block, b.data);
      SnapIs(m[b := Card(true, true, false, at.drive, at.block, b.data)]);
      OutMore(mine, held, m, at, b, b.data);
    }

    /** A block in hand is in a buffer of the list. */
    lemma InHand(at: Place, mine: map<Place, Buf>, held: map<Place, Block>) returns (k: nat)
      requires Listed() && Out(mine, held) && at in held
      ensures at in mine && mine[at] in buf && CardOf(mine[at]) == Card(true, true, false, at.drive, at.block, held[at])
      ensures PlaceOf(mine[at]) == at
      ensures k < |order| && order[k] == mine[at] && mine[at] in Snap() && Snap()[mine[at]] == CardOf(mine[at])
    {
      hide Listed;
      k := Position(mine[at]);
    }

    /** A change to a block in hand. */
    method Changed(at: Place, data: Block, mine: map<Place, Buf>, ghost held: map<Place, Block>)
      requires Valid() && Out(mine, held) && at in held
      modifies order`data
      ensures Valid() && Out(mine, held[at := data])
    {
      hide Cards, Sound, DiskOk, Listed, OutOf, Snap;
      ghost var k := InHand(at, mine, held);
      OutChanged(mine, held, Snap(), at, data);
      Change(mine[at], k, data);
      OneChanged(mine[at], CardOf(mine[at]));
    }

    /** bwrite of a block in hand. */
    method Stored(at: Place, mine: map<Place, Buf>, ghost held: map<Place, Block>)
      requires Valid() && Out(mine, held) && at in held
      modifies ide, order`dirty, order`valid, order`data, order`qnext
      ensures Valid() && Out(mine, held) && ide.disk == old(ide.disk)[at := held[at]]
    {
      hide Cards, Sound, DiskOk, Listed, OutOf, Snap;
      ghost var k := InHand(at, mine, held);
      ghost var m := Snap();
      assert m[mine[at] := m[mine[at]]] == m;
      Bwrite(mine[at], k);
      assert CardOf(mine[at]) == Cards(order)[k];
      OneChanged(mine[at], CardOf(mine[at]));
    }

    /** brelse of a block in hand: it becomes the most recently released. */
    method Released(at: Place, mine: map<Place, Buf>, ghost held: map<Place, Block>)
      requires Valid() && Out(mine, held) && Allowed(View(ide.disk, held), Release(at), ide.havedisk1, |buf|)
      modifies this, head`prev, head`next, order`prev, order`next, order`busy
      ensures Valid() && Out(mine - {at}, held - {at}) && at in mine && log == old(log) + [mine[at]]
    {
      hide Cards, Sound, DiskOk, Listed, Moved, OutOf, Snap;
      ghost var k := InHand(at, mine, held);
      OutLess(mine, held, Snap(), at);
      Brelse(mine[at], k);
      MovedAt(old(Cards(order))[k := old(CardOf(mine[at])).(busy := false)], k, 0);
      assert order[0] == mine[at] by { MovedAt(old(order), k, 0); }
      assert CardOf(mine[at]) == Cards(order)[0];
      OneChanged(mine[at], CardOf(mine[at]));
    }

    /** One call, by the rules: it does to the disk and to the blocks in hand what it would without a cache,
        and a release is the latest use of its buffer. */
    method Perform(c: Call, mine: map<Place, Buf>, ghost held: map<Place, Block>)
      returns (r: Block, now: map<Place, Buf>)
      requires Valid() && Out(mine, held) && Allowed(View(ide.disk, held), c, ide.havedisk1, |buf|)
      modifies this, ide, head`prev, head`next, order
      ensures var v := Made(View(old(ide.disk), held), c); Valid() && ide.disk == v.disk && Out(now, v.held)
      ensures c.Fetch? ==> c.at in old(ide.disk) && r == old(ide.disk)[c.at]
      ensures c.Fetch? ==>
        && c.at in now && order == old(order)
        && exists k :: 0 <= k < |order| && now[c.at] == order[k]
             && Right(order, log, old(Cards(order)), c.at.drive, c.at.block, k)
      ensures c.Release? ==> c.at in mine
      ensures log == old(log) + if c.Release? then [mine[c.at]] else []
    {
      hide Listed, Cards, Sound, DiskOk, OutOf, Snap, Right;
      r, now := ZeroBlock(), mine;
      match c {
        case Fetch(at) =>
          var b := Fetched(at, mine, held);
          r, now := b.data, mine[at := b];
        case Change(at, data) => Changed(at, data, mine, held);
        case Store(at) => Stored(at, mine, held);
        case Release(at) =>
          Released(at, mine, held);
          now := mine - {at};
      }
    }

    lemma OrderInBuf()
      requires Valid()
      ensures forall i :: 0 <= i < |order| ==> order[i] in buf
    {
      ListedParts();
    }

    /** Any run of calls by the rules, with any number of buffers out at any time: every fetch sees what the
        stores before it left, and disk and blocks in hand end as they would without a cache. */
    method Run(cs: seq<Call>, mine: map<Place, Buf>, ghost held: map<Place, Block>)
      returns (seen: seq<Block>, now: map<Place, Buf>)
      requires Valid() && Out(mine, held) && AllAllowed(View(ide.disk, held), cs, ide.havedisk1, |buf|)
      modifies this, ide, head`prev, head`next, buf
      ensures var v := MadeAll(View(old(ide.disk), held), cs); Valid() && ide.disk == v.disk && Out(now, v.held)
      ensures |seen| == |cs| && forall i :: 0 <= i < |cs| ==> Saw(View(old(ide.disk), held), cs, i, seen[i])
    {
      hide Valid, Cards, Out, Made, Allowed, Right;
      ghost var v0, v := View(ide.disk, held), View(ide.disk, held);
      seen, now := [], mine;
      var i := 0;
      assert cs[..0] == [];
      while i < |cs|
        invariant 0 <= i <= |cs| && Valid() && v == MadeAll(v0, cs[..i]) && ide.disk == v.disk && Out(now, v.held)
        invariant |seen| == i && forall j :: 0 <= j < i ==> Saw(v0, cs, j, seen[j])
      {
        OrderInBuf();
        assert Allowed(MadeAll(v0, cs[..i]), cs[i], ide.havedisk1, |buf|);
        var r;
        r, now := Perform(cs[i], now, v.held);
        assert cs[..i + 1][..i] == cs[..i];
        v, seen := Made(v, cs[i]), seen + [r];
        i := i + 1;
      }
      assert cs[..i] == cs;
    }

    /** Nobody has a buffer yet. */
    lemma NoneOut()
      requires forall b :: b in buf ==> !b.busy
      ensures Out(map[], map[])
    {
    }

    /** The cache from its first use on: buffers in zeroed memory, the list made, nothing held, and then any run of
        calls by the rules. */
    method FirstRun(cs: seq<Call>) returns (seen: seq<Block>, now: map<Place, Buf>)
      requires NoRepeats([head] + buf) && ide.Valid() && ide.queue == [] && !head.busy
      requires forall i :: 0 <= i < |buf| ==> !buf[i].busy && !buf[i].valid && !buf[i].dirty
      requires AllAllowed(View(ide.disk, map[]), cs, ide.havedisk1, |buf|)
      modifies this, ide, head`prev, head`next, buf
      ensures var v := MadeAll(View(old(ide.disk), map[]), cs); Valid() && ide.disk == v.disk && Out(now, v.held)
      ensures |seen| == |cs| && forall i :: 0 <= i < |cs| ==> Saw(View(old(ide.disk), map[]), cs, i, seen[i])
    {
      hide Valid, Listed, AllAllowed, Saw, Out;
      Binit();
      NoneOut();
      seen, now := Run(cs, map[], map[]);
    }

    /** The list surgery of brelse. */
    method Relink(b: Buf, ghost k: nat)
      requires Listed() && k < |order| && order[k] == b
      modifies head`prev, head`next, order`prev, order`next
      ensures Ring([head] + ([b] + Without(order, k)))
    {
      hide Recency;
      Distinct(head, order);
      assert ([head] + order)[k + 1] == b;
      Unlink(b, [head] + order, k + 1);
      assert Without([head] + order, k + 1) == [head] + Without(order, k);
      LinkFirst(b, Without(order, k));
    }
  }

  /** Element k moved to the front of s. */
  function Moved<T>(s: seq<T>, k: nat): (r: seq<T>)
    requires k < |s|
    ensures |r| == |s|
  {
    [s[k]] + Without(s, k)
  }

  lemma MovedAt<T>(s: seq<T>, k: nat, i: nat)
    requires k < |s| && i < |s|
    ensures Moved(s, k)[i] == s[if i == 0 then k else if i <= k then i - 1 else i]
  {
  }

  lemma CardsMoved(s: seq<Buf>, k: nat)
    requires k < |s|
    ensures Cards(Moved(s, k)) == Moved(Cards(s), k)
  {
    hide CardOf, Cards, Moved;
    var t, r := Cards(Moved(s, k)), Moved(Cards(s), k);
    forall i | 0 <= i < |s| ensures t[i] == r[i] {
      MovedAt(s, k, i);
      MovedAt(Cards(s), k, i);
    }
  }

  lemma MovedMembers(s: seq<Buf>, t: seq<Buf>, k: nat)
    requires SameMembers(s, t) && k < |s|
    ensures SameMembers(Moved(s, k), t)
  {
    var r := Moved(s, k);
    forall i | 0 <= i < |r| ensures r[i] in t { assert r[i] == s[if i == 0 then k else if i <= k then i - 1 else i]; }
    forall i | 0 <= i < |t| ensures t[i] in r {
      var m :| 0 <= m < |s| && s[m] == t[i];
      assert r[if m == k then 0 else if m < k then m + 1 else m] == t[i];
    }
  }

  lemma PlaceThere(disk: Disk, have1: bool, dev: nat, blockno: nat)
    requires DiskOk(disk, have1) && blockno < FSSIZE && (dev == 0 || (dev == 1 && have1))
    ensures Place(dev, blockno) in disk
  {
  }

  lemma AllUnplaced(s: seq<Buf>, buf: seq<Buf>, disk: Disk, have1: bool)
    requires SameMembers(s, buf)
    requires forall i :: 0 <= i < |buf| ==> buf[i].dev == NODEV && !buf[i].busy && !buf[i].valid && !buf[i].dirty
    ensures Sound(Cards(s), disk, have1)
  {
    hide Cards;
    forall i | 0 <= i < |s| ensures s[i].dev == NODEV && !s[i].busy && !s[i].valid && !s[i].dirty {
      assert s[i] in buf;
    }
  }

  lemma Distinct(head: Buf, s: seq<Buf>)
    requires Ring([head] + s)
    ensures NoRepeats(s) && head !in s
  {
    var t := [head] + s;
    assert forall i :: 0 <= i < |s| ==> s[i] == t[i + 1];
    assert t[0] == head;
  }

  lemma Alone(head: Buf)
    requires head.next == head && head.prev == head
    ensures Ring([head] + [])
  {
    assert [head] + [] == [head];
  }

  lemma NoneUsed(buf: seq<Buf>)
    ensures buf[..0] == [] && Recency(buf[..0]) == []
  {
  }

  /** Buffer i is new to the list, and using it puts it in front. */
  lemma NotYet(buf: seq<Buf>, head: Buf, i: nat)
    requires NoRepeats([head] + buf) && i < |buf|
    ensures var r := Recency(buf[..i]);
            && buf[i] !in [head] + r && Recency(buf[..i + 1]) == [buf[i]] + r && buf[..i + 1] == buf[..i] + [buf[i]]
            && forall j :: 0 <= j < |r| ==> r[j] in buf
  {
    hide Recency, Rest;
    var r := Recency(buf[..i]);
    assert forall j :: 0 <= j < |buf| ==> buf[j] == ([head] + buf)[j + 1];
    assert ([head] + buf)[0] == head;
    assert buf[..i + 1] == buf[..i] + [buf[i]];
    RecencyNew(buf[..i], buf[i]);
    SameElements(buf[..i]);
    forall j | 0 <= j < |r| ensures r[j] in buf {
      assert r[j] in buf[..i];
    }
  }

  lemma AllUsed(buf: seq<Buf>)
    ensures buf[..|buf|] == buf && SameMembers(Recency(buf), buf)
  {
    hide Recency;
    SameElements(buf);
  }
}
