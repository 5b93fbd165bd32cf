/** The image builder A.ide/tools/mkfs.c: a bump allocator, its own walk over direct and indirect
    blocks, and the bitmap it writes at the end. */
module Mkfs {
  import opened FsFormat
  import opened FsState

  function TotalCost(ns: seq<nat>): nat {
    if ns == [] then 0 else TotalCost(ns[..|ns| - 1]) + Cost(ns[|ns| - 1])
  }

  lemma {:induction false} TotalCostUpdate(ns: seq<nat>, i: nat, n: nat)
    requires i < |ns|
    ensures TotalCost(ns[i := n]) == TotalCost(ns) - Cost(ns[i]) + Cost(n)
    ensures TotalCost(ns) >= Cost(ns[i])
  {
    var m := |ns| - 1;
    if i == m {
      assert ns[i := n][..m] == ns[..m];
    } else {
      assert ns[i := n][..m] == ns[..m][i := n];
      TotalCostUpdate(ns[..m], i, n);
    }
  }

  /** The data area is given out from the front: the blocks below `free` each to one slot, the blocks
      from it on still zero. */
  ghost predicate Built(f: Fs, free: nat) {
    && Linked(f)
    && NMETA <= free <= FSSIZE && free == NMETA + TotalCost(f.ns)
    && (forall b :: b in f.owner <==> NMETA <= b < free)
    && (forall b :: free <= b < FSSIZE ==> f.disk[b] == ZeroBlock())
  }

  /** The disk has room for file i at m blocks. */
  predicate Room(ns: seq<nat>, i: nat, m: nat)
    requires i < |ns|
  {
    NMETA + TotalCost(ns) - Cost(ns[i]) + Cost(m) <= FSSIZE
  }

  /** The indirect block of file i once it has its next block. */
  function IndirectOf(f: Fs, free: nat, i: nat): nat
    requires WF(f) && i < NINODES
  {
    if f.ns[i] < NDIRECT then 0 else if f.ns[i] == NDIRECT then free else f.tab[i].addrs[NDIRECT]
  }

  /** The state after file i takes its next block from the front of the unused ones. */
  function Taken(f: Fs, free: nat, i: nat): (g: Fs)
    requires WF(f) && i < NINODES && f.ns[i] < MAXFILE && free + Takes(f.ns[i]) <= FSSIZE
      && IndirectOf(f, free, i) < FSSIZE
    ensures WF(g)
  {
    Grown(f, i, IndirectOf(f, free, i), free + Takes(f.ns[i]) - 1)
  }

  lemma BuiltParts(f: Fs, free: nat)
    requires Built(f, free)
    ensures WF(f) && Linked(f) && NMETA <= free <= FSSIZE
    ensures free == NMETA + TotalCost(f.ns)
    ensures free < FSSIZE ==> Fresh(f, free)
    ensures free + 1 < FSSIZE ==> Fresh(f, free + 1)
  {
  }

  lemma TakenOffered(f: Fs, free: nat, i: nat)
    requires Built(f, free) && i < NINODES && f.ns[i] < MAXFILE && free + Takes(f.ns[i]) <= FSSIZE
    ensures IndirectOf(f, free, i) < FSSIZE
    ensures Offered(f, i, IndirectOf(f, free, i), free + Takes(f.ns[i]) - 1)
    ensures f.ns[i] > NDIRECT ==> NMETA <= IndirectOf(f, free, i) < free
  {
    Blocks(f, i, 0);
  }

  lemma TakenFrame(f: Fs, free: nat, i: nat)
    requires Built(f, free) && i < NINODES && f.ns[i] < MAXFILE && free + Takes(f.ns[i]) <= FSSIZE
    ensures IndirectOf(f, free, i) < FSSIZE
    ensures var g := Taken(f, free, i);
            && MetaSame(f.disk, g.disk)
            && g.tab == f.tab[i := f.tab[i].(addrs := g.tab[i].addrs)] && g.ns == f.ns[i := f.ns[i] + 1]
            && (forall b :: b in g.owner <==> NMETA <= b < free + Takes(f.ns[i]))
            && (forall b :: free + Takes(f.ns[i]) <= b < FSSIZE ==> g.disk[b] == ZeroBlock())
  {
    TakenOffered(f, free, i);
    hide Linked, WithEntry, TotalCost, ZeroBlock;
  }

  lemma TakenBuilt(f: Fs, free: nat, i: nat)
    requires Built(f, free) && i < NINODES && f.ns[i] < MAXFILE && free + Takes(f.ns[i]) <= FSSIZE
    ensures IndirectOf(f, free, i) < FSSIZE
    ensures Built(Taken(f, free, i), free + Takes(f.ns[i])) && SameBytes(f, Taken(f, free, i))
  {
    hide Built, Linked, SameBytes, P, Grown, TotalCost, Offered, MetaSame, IndirectOf, Fresh;
    BuiltParts(f, free);
    TakenOffered(f, free, i);
    TakenFrame(f, free, i);
    TotalCostUpdate(f.ns, i, f.ns[i] + 1);
    GrowthKeeps(f, i, IndirectOf(f, free, i), free + Takes(f.ns[i]) - 1);
    BuiltFrom(Taken(f, free, i), free + Takes(f.ns[i]));
  }

  lemma BuiltFrom(f: Fs, free: nat)
    requires Linked(f) && NMETA <= free <= FSSIZE && free == NMETA + TotalCost(f.ns)
    requires forall b :: b in f.owner <==> NMETA <= b < free
    requires forall b :: free <= b < FSSIZE ==> f.disk[b] == ZeroBlock()
    ensures Built(f, free)
  {
  }

  /** Taking a block keeps the image built and shows in no file. */
  lemma TakenKeeps(f: Fs, free: nat, i: nat)
    requires Built(f, free) && i < NINODES && f.ns[i] < MAXFILE && free + Takes(f.ns[i]) <= FSSIZE
    ensures IndirectOf(f, free, i) < FSSIZE
    ensures var g := Taken(f, free, i);
            && Built(g, free + Takes(f.ns[i])) && SameBytes(f, g) && MetaSame(f.disk, g.disk)
            && g.tab == f.tab[i := f.tab[i].(addrs := g.tab[i].addrs)] && g.ns == f.ns[i := f.ns[i] + 1]
            && P(g, i, f.ns[i]) == free + Takes(f.ns[i]) - 1
  {
    hide Built, Linked, SameBytes, P, Grown, TotalCost, Offered, MetaSame, IndirectOf, Fresh;
    BuiltParts(f, free);
    TakenBuilt(f, free, i);
    TakenOffered(f, free, i);
    TakenFrame(f, free, i);
    GrownAddress(f, i, IndirectOf(f, free, i), free + Takes(f.ns[i]) - 1, i, f.ns[i]);
  }

  /** The state once block fbn of file i is sure to be there. */
  function Ensured(f: Fs, free: nat, i: nat, fbn: nat): (g: Fs)
    requires WF(f) && i < NINODES && fbn <= f.ns[i] && fbn < MAXFILE
    requires fbn == f.ns[i] ==> free + Takes(fbn) <= FSSIZE && IndirectOf(f, free, i) < FSSIZE
    ensures WF(g)
  {
    if fbn < f.ns[i] then f else Taken(f, free, i)
  }

  /** From f0 to f exactly the bytes of s were added at the end of file i; its inode does not yet say so. */
  ghost predicate Adding(f0: Fs, f: Fs, i: nat, s: seq<Byte>)
    requires WF(f0) && WF(f) && i < NINODES
  {
    var size := f0.tab[i].size;
    && size + |s| <= MAXBYTES
    && f.tab == f0.tab[i := f0.tab[i].(addrs := f.tab[i].addrs)] && f.ns == f0.ns[i := BlocksFor(size + |s|)]
    && Bytes(f.disk, f.tab[i]) == Overwrite(Bytes(f0.disk, f0.tab[i]), size, s)
    && OthersSame(f0, f, i) && MetaSame(f0.disk, f.disk)
  }

  lemma NothingAdded(f: Fs, i: nat)
    requires WF(f) && i < NINODES && f.tab[i].size <= MAXBYTES && f.ns[i] == BlocksFor(f.tab[i].size)
    ensures Adding(f, f, i, [])
  {
    hide Bytes;
    var b := Bytes(f.disk, f.tab[i]);
    assert Overwrite(b, f.tab[i].size, []) == b;
    assert f.tab[i := f.tab[i]] == f.tab && f.ns[i := f.ns[i]] == f.ns;
  }

  /** The block for the next part is there or can be taken. */
  lemma PartRoom(f0: Fs, f: Fs, free: nat, i: nat, s: seq<Byte>, part: seq<Byte>)
    requires WF(f0) && i < NINODES && Built(f, free) && Adding(f0, f, i, s) && 0 < |part|
    requires var off := f0.tab[i].size + |s|;
             off % BSIZE + |part| <= BSIZE && off + |part| <= MAXBYTES && Room(f0.ns, i, BlocksFor(off + |part|))
    ensures var off := f0.tab[i].size + |s|;
            var fbn := off / BSIZE;
            && fbn <= f.ns[i] && fbn < MAXFILE
            && (fbn == f.ns[i] ==> free + Takes(fbn) <= FSSIZE && IndirectOf(f, free, i) < FSSIZE)
  {
    var off := f0.tab[i].size + |s|;
    PartBlocks(off, |part|);
    TotalCostUpdate(f0.ns, i, f.ns[i]);
    BuiltParts(f, free);
    if off / BSIZE == f.ns[i] { TakenOffered(f, free, i); }
  }

  /** What one pass of iappend's loop finds, and what it leaves. */
  ghost predicate Passes(f0: Fs, f: Fs, free: nat, i: nat, s: seq<Byte>, part: seq<Byte>)
    requires WF(f0) && WF(f) && i < NINODES && (f0.tab[i].size + |s|) % BSIZE + |part| <= BSIZE
  {
    var off := f0.tab[i].size + |s|;
    var fbn := off / BSIZE;
    && fbn <= f.ns[i] && fbn < MAXFILE
    && (fbn == f.ns[i] ==> free + Takes(fbn) <= FSSIZE && IndirectOf(f, free, i) < FSSIZE)
    && var e := Ensured(f, free, i, fbn);
    && P(e, i, fbn) < FSSIZE
    && var g := PartPut(e, i, off, part);
    && Built(g, free + (if fbn < f.ns[i] then 0 else Takes(fbn))) && Adding(f0, g, i, s + part)
  }

  /** One pass of iappend's loop adds its part. */
  lemma PartKeeps(f0: Fs, f: Fs, free: nat, i: nat, s: seq<Byte>, part: seq<Byte>)
    requires WF(f0) && WF(f) && i < NINODES && Built(f, free) && Adding(f0, f, i, s) && 0 < |part|
    requires var off := f0.tab[i].size + |s|;
             off % BSIZE + |part| <= BSIZE && off + |part| <= MAXBYTES && Room(f0.ns, i, BlocksFor(off + |part|))
    ensures Passes(f0, f, free, i, s, part)
  {
    hide Linked, Built, Bytes, Overwrite, Flat, P, TotalCost, Ensured, Taken, Fresh, MetaSame, SameBytes, OthersSame,
      Room, BlocksFor, Cost, SyncedBut, SuperOk, Sized, Ptr;
    BuiltParts(f, free);
    assert f.ns[i] == BlocksFor(f0.tab[i].size + |s|);
    PartRoom(f0, f, free, i, s, part);
    var off := f0.tab[i].size + |s|;
    var fbn := off / BSIZE;
    PartBlocks(off, |part|);
    var e := Ensured(f, free, i, fbn);
    var free' := free + (if fbn < f.ns[i] then 0 else Takes(fbn));
    EnsuredKeeps(f, free, i, fbn);
    BuiltParts(e, free');
    PartWritten(e, i, fbn, off % BSIZE, part);
    BuiltWritten(e, free', i, fbn, Overwrite(e.disk[P(e, i, fbn)], off % BSIZE, part));
    OverwriteTwice(Bytes(f0.disk, f0.tab[i]), f0.tab[i].size, s, part);
    AddingOn(f0, f, e, PartPut(e, i, off, part), i, s, part);
  }

  lemma EnsuredKeeps(f: Fs, free: nat, i: nat, fbn: nat)
    requires Built(f, free) && i < NINODES && fbn <= f.ns[i] && fbn < MAXFILE
    requires fbn == f.ns[i] ==> free + Takes(fbn) <= FSSIZE && IndirectOf(f, free, i) < FSSIZE
    ensures var g := Ensured(f, free, i, fbn);
            && Built(g, free + (if fbn < f.ns[i] then 0 else Takes(fbn))) && SameBytes(f, g) && MetaSame(f.disk, g.disk)
            && g.tab == f.tab[i := f.tab[i].(addrs := g.tab[i].addrs)]
            && g.ns == f.ns[i := if fbn < f.ns[i] then f.ns[i] else fbn + 1]
  {
    hide Built, Taken, Bytes;
    BuiltParts(f, free);
    assert f.tab[i := f.tab[i]] == f.tab && f.ns[i := f.ns[i]] == f.ns;
    if fbn == f.ns[i] { TakenKeeps(f, free, i); }
  }

  lemma BuiltWritten(f: Fs, free: nat, i: nat, bn: nat, x: Block)
    requires Built(f, free) && i < NINODES && bn < f.ns[i]
    ensures bn < MAXFILE && NMETA <= P(f, i, bn) < free
    ensures Built(WithData(f, i, bn, x), free) && MetaSame(f.disk, WithData(f, i, bn, x).disk)
  {
    Blocks(f, i, 0);
    Blocks(f, i, bn);
    DataWritten(f, i, bn, x);
    hide Linked, P;
  }

  lemma AddingOn(f0: Fs, f: Fs, e: Fs, g: Fs, i: nat, s: seq<Byte>, part: seq<Byte>)
    requires WF(f0) && WF(f) && WF(e) && WF(g) && i < NINODES && Adding(f0, f, i, s)
    requires SameBytes(f, e) && MetaSame(f.disk, e.disk) && OthersSame(e, g, i) && MetaSame(e.disk, g.disk)
    requires e.tab == f.tab[i := f.tab[i].(addrs := e.tab[i].addrs)] && g.tab == e.tab
    requires f0.tab[i].size + |s| + |part| <= MAXBYTES
    requires g.ns == f0.ns[i := BlocksFor(f0.tab[i].size + |s| + |part|)] && e.ns == g.ns
    requires Bytes(g.disk, g.tab[i]) == Overwrite(Bytes(e.disk, e.tab[i]), f0.tab[i].size + |s|, part)
    requires Overwrite(Overwrite(Bytes(f0.disk, f0.tab[i]), f0.tab[i].size, s), f0.tab[i].size + |s|, part)
             == Overwrite(Bytes(f0.disk, f0.tab[i]), f0.tab[i].size, s + part)
    ensures Adding(f0, g, i, s + part)
  {
    hide Bytes, Overwrite;
  }

  lemma EnsuredThere(f: Fs, free: nat, i: nat, fbn: nat)
    requires Built(f, free) && i < NINODES && fbn < f.ns[i] && fbn < MAXFILE
    ensures P(f, i, fbn) != 0 && (fbn < NDIRECT ==> P(f, i, fbn) == f.tab[i].addrs[fbn])
    ensures fbn >= NDIRECT ==>
              var a := f.tab[i].addrs[NDIRECT];
              NMETA <= a < FSSIZE && P(f, i, fbn) == Entry(f.disk[a], fbn - NDIRECT)
  {
    Blocks(f, i, fbn);
    hide Linked;
  }

  lemma EnsuredNext(f: Fs, free: nat, i: nat, fbn: nat)
    requires Built(f, free) && i < NINODES && fbn == f.ns[i] < MAXFILE && free + Takes(fbn) <= FSSIZE
    ensures IndirectOf(f, free, i) < FSSIZE
    ensures var d, g, a := f.tab[i], Ensured(f, free, i, fbn), IndirectOf(f, free, i);
            if fbn < NDIRECT then
              && d.addrs[fbn] == 0 && g.tab == f.tab[i := WithAddr(d, fbn, free)]
              && g.disk == f.disk && P(g, i, fbn) == g.tab[i].addrs[fbn]
            else
              && NMETA <= a < FSSIZE && (d.addrs[NDIRECT] == 0 <==> fbn == NDIRECT)
              && Entry(f.disk[a], fbn - NDIRECT) == 0
              && g.tab == f.tab[i := WithAddr(d, NDIRECT, a)]
              && g.disk == f.disk[a := WithEntry(f.disk[a], fbn - NDIRECT, free + Takes(fbn) - 1)]
              && P(g, i, fbn) == free + Takes(fbn) - 1
  {
    hide Built, Linked, WithEntry, Entry, TotalCost;
    BuiltParts(f, free);
    Blocks(f, i, fbn);
    ZeroEntry(if fbn < NDIRECT then 0 else fbn - NDIRECT);
    TakenOffered(f, free, i);
    GrownAddress(f, i, IndirectOf(f, free, i), free + Takes(fbn) - 1, i, fbn);
  }

  /** What BlockFor finds and does, case by case. */
  lemma EnsuredCases(f: Fs, free: nat, i: nat, fbn: nat)
    requires Built(f, free) && i < NINODES && fbn <= f.ns[i] && fbn < MAXFILE
    requires fbn == f.ns[i] ==> free + Takes(fbn) <= FSSIZE
    ensures fbn == f.ns[i] ==> IndirectOf(f, free, i) < FSSIZE
    ensures var d, g, a := f.tab[i], Ensured(f, free, i, fbn), IndirectOf(f, free, i);
            && (fbn < NDIRECT ==> g.disk == f.disk && P(g, i, fbn) == g.tab[i].addrs[fbn])
            && (fbn < f.ns[i] ==> g == f && P(f, i, fbn) != 0)
            && (fbn < f.ns[i] && fbn >= NDIRECT ==>
                  && NMETA <= d.addrs[NDIRECT] < FSSIZE
                  && P(f, i, fbn) == Entry(f.disk[d.addrs[NDIRECT]], fbn - NDIRECT))
            && (fbn == f.ns[i] && fbn < NDIRECT ==> d.addrs[fbn] == 0 && g.tab == f.tab[i := WithAddr(d, fbn, free)])
            && (fbn == f.ns[i] && fbn >= NDIRECT ==>
                  && NMETA <= a < FSSIZE && (d.addrs[NDIRECT] == 0 <==> fbn == NDIRECT)
                  && Entry(f.disk[a], fbn - NDIRECT) == 0
                  && g.tab == f.tab[i := WithAddr(d, NDIRECT, a)]
                  && g.disk == f.disk[a := WithEntry(f.disk[a], fbn - NDIRECT, free + Takes(fbn) - 1)]
                  && P(g, i, fbn) == free + Takes(fbn) - 1)
  {
    hide Built, Linked, WithEntry, Entry, Taken, P, ZeroBlock;
    BuiltParts(f, free);
    if fbn == f.ns[i] { EnsuredNext(f, free, i, fbn); } else { EnsuredThere(f, free, i, fbn); }
  }

  lemma ValidParts(f: Fs, free: nat, i: nat)
    requires Built(f, free) && SyncedBut(f, -1) && Sized(f) && i < NINODES
    ensures WF(f) && DiskInode(f.disk, i) == f.tab[i] && f.tab[i].size <= MAXBYTES
      && f.ns[i] == BlocksFor(f.tab[i].size)
  {
    hide Linked, DiskInode;
    BuiltParts(f, free);
  }

  lemma RoomFor(ns: seq<nat>, i: nat, a: nat, b: nat)
    requires i < |ns| && a <= b && Room(ns, i, BlocksFor(b))
    ensures Room(ns, i, BlocksFor(a))
  {
    BlocksMonotone(a, b);
  }

  /** From f to g the bytes of s were added at the end of file i and nothing else changed. */
  ghost predicate Appends(f: Fs, g: Fs, i: nat, s: seq<Byte>)
    requires WF(f) && WF(g) && i < NINODES
  {
    var size := f.tab[i].size;
    && size + |s| <= MAXBYTES
    && g.tab == f.tab[i := f.tab[i].(addrs := g.tab[i].addrs, size := size + |s|)]
    && g.ns == f.ns[i := BlocksFor(size + |s|)]
    && Bytes(g.disk, g.tab[i]) == Overwrite(Bytes(f.disk, f.tab[i]), size, s)
    && (forall j :: 0 <= j < NINODES && j != i ==> Bytes(g.disk, g.tab[j]) == Bytes(f.disk, f.tab[j]))
  }

  lemma AppendsContent(f: Fs, g: Fs, i: nat, s: seq<Byte>)
    requires WF(f) && WF(g) && i < NINODES && Appends(f, g, i, s) && Sized(f)
    ensures Sized(g) && Content(g.disk, g.tab[i]) == Content(f.disk, f.tab[i]) + s
    ensures forall j :: 0 <= j < NINODES && j != i ==> Content(g.disk, g.tab[j]) == Content(f.disk, f.tab[j])
  {
    hide Bytes, Overwrite;
    forall j | 0 <= j < NINODES ensures Whole(g, j) {
      assert j == i || Whole(f, j);
    }
    OverwriteEnd(Bytes(f.disk, f.tab[i]), f.tab[i].size, s);
  }

  lemma AppendsTwice(f: Fs, g: Fs, h: Fs, i: nat, s: seq<Byte>, t: seq<Byte>)
    requires WF(f) && WF(g) && WF(h) && i < NINODES && Appends(f, g, i, s) && Appends(g, h, i, t)
    ensures Appends(f, h, i, s + t)
  {
    hide Bytes, Overwrite;
    OverwriteTwice(Bytes(f.disk, f.tab[i]), f.tab[i].size, s, t);
  }

  /** The last step of iappend, storing the inode, completes the append. */
  lemma Closing(f0: Fs, f: Fs, free: nat, i: nat, s: seq<Byte>, d: Dinode)
    requires WF(f0) && i < NINODES && Built(f, free) && Adding(f0, f, i, s)
    requires SyncedBut(f0, -1) && Sized(f0) && SuperOk(f0.disk)
    requires d == f.tab[i].(size := f0.tab[i].size + |s|)
    ensures var g := Stored(f, i, d);
            Built(g, free) && SyncedBut(g, -1) && SuperOk(g.disk) && Appends(f0, g, i, s)
  {
    hide Linked, Bytes, DiskInode, WithDiskInode, SuperOk, TotalCost, Overwrite;
    BuiltParts(f, free);
    assert SyncedBut(f, i) && SuperOk(f.disk) by { MetaKeeps(f0, f, i); }
    StoredKeeps(f, i, d);
  }

  lemma OverwriteEnd(f: seq<Byte>, o: nat, s: seq<Byte>)
    requires o + |s| <= |f|
    ensures Overwrite(f, o, s)[..o + |s|] == f[..o] + s
  {
  }

  // ---- the room a whole image needs -------------------------------------------------------------

  /** Files may still grow to the block counts in goal, and all those blocks fit the disk. */
  ghost predicate Within(ns: seq<nat>, goal: seq<nat>) {
    |goal| == |ns| && (forall j :: 0 <= j < |ns| ==> ns[j] <= goal[j]) && NMETA + TotalCost(goal) <= FSSIZE
  }

  lemma {:induction false} TotalCostMonotone(a: seq<nat>, b: seq<nat>)
    requires |a| == |b| && forall j :: 0 <= j < |a| ==> a[j] <= b[j]
    ensures TotalCost(a) <= TotalCost(b)
  {
    if a != [] {
      TotalCostMonotone(a[..|a| - 1], b[..|b| - 1]);
    }
  }

  lemma WithinRoom(ns: seq<nat>, goal: seq<nat>, i: nat, m: nat)
    requires Within(ns, goal) && i < |ns| && m <= goal[i]
    ensures Room(ns, i, m) && Within(ns[i := m], goal)
  {
    TotalCostUpdate(ns, i, m);
    TotalCostMonotone(ns[i := m], goal);
  }

  function Concat(chunks: seq<seq<Byte>>): seq<Byte> {
    if chunks == [] then [] else Concat(chunks[..|chunks| - 1]) + chunks[|chunks| - 1]
  }

  lemma {:induction false} ConcatPrefix(chunks: seq<seq<Byte>>, n: nat)
    requires n <= |chunks|
    ensures |Concat(chunks[..n])| <= |Concat(chunks)|
  {
    if n < |chunks| {
      ConcatPrefix(chunks[..|chunks| - 1], n);
      assert chunks[..|chunks| - 1][..n] == chunks[..n];
    } else {
      assert chunks[..n] == chunks;
    }
  }

  /** The bytes a run of iappend calls adds to file i. */
  function Appended(ops: seq<(nat, seq<Byte>)>, i: nat): seq<Byte> {
    if ops == [] then []
    else Appended(ops[..|ops| - 1], i) + if ops[|ops| - 1].0 == i then ops[|ops| - 1].1 else []
  }

  lemma {:induction false} AppendedPrefix(ops: seq<(nat, seq<Byte>)>, n: nat, i: nat)
    requires n <= |ops|
    ensures |Appended(ops[..n], i)| <= |Appended(ops, i)|
  {
    if n < |ops| {
      AppendedPrefix(ops[..|ops| - 1], n, i);
      assert ops[..|ops| - 1][..n] == ops[..n];
    } else {
      assert ops[..n] == ops;
    }
  }

  /** From f0 to f every file got the bytes the calls in ops give it. */
  ghost predicate Grew(f0: Fs, f: Fs, ops: seq<(nat, seq<Byte>)>) {
    && WF(f0) && WF(f) && Sized(f0) && Sized(f)
    && forall i :: 0 <= i < NINODES ==>
         && Content(f.disk, f.tab[i]) == Content(f0.disk, f0.tab[i]) + Appended(ops, i)
         && f.tab[i] == f0.tab[i].(addrs := f.tab[i].addrs, size := |Content(f.disk, f.tab[i])|)
  }

  /** What is left to append to file i still fits. */
  predicate Expected(f0: Fs, ops: seq<(nat, seq<Byte>)>, goal: seq<nat>)
    requires WF(f0) && |goal| == NINODES
  {
    forall i :: 0 <= i < NINODES ==>
      f0.tab[i].size + |Appended(ops, i)| <= MAXBYTES && BlocksFor(f0.tab[i].size + |Appended(ops, i)|) <= goal[i]
  }

  lemma NothingGrew(f: Fs)
    requires WF(f) && Sized(f)
    ensures Grew(f, f, [])
  {
    hide Bytes;
  }

  lemma NextFits(f0: Fs, f: Fs, ops: seq<(nat, seq<Byte>)>, k: nat, goal: seq<nat>)
    requires k < |ops| && ops[k].0 < NINODES && Grew(f0, f, ops[..k])
    requires Within(f.ns, goal) && WF(f) && Expected(f0, ops, goal)
    ensures var (i, s) := ops[k];
            var size := f.tab[i].size + |s|;
            size <= MAXBYTES && Room(f.ns, i, BlocksFor(size)) && Within(f.ns[i := BlocksFor(size)], goal)
  {
    hide Bytes, TotalCost;
    var (i, s) := ops[k];
    assert ops[..k + 1][..k] == ops[..k];
    AppendedPrefix(ops, k + 1, i);
    assert f.tab[i].size == |Content(f.disk, f.tab[i])|;
    assert Whole(f0, i);
    var size, last := f.tab[i].size + |s|, f0.tab[i].size + |Appended(ops, i)|;
    BlocksMonotone(size, last);
    WithinRoom(f.ns, goal, i, BlocksFor(size));
  }

  lemma GrewOn(f0: Fs, f: Fs, g: Fs, ops: seq<(nat, seq<Byte>)>, k: nat)
    requires k < |ops| && ops[k].0 < NINODES && Grew(f0, f, ops[..k]) && WF(g) && Appends(f, g, ops[k].0, ops[k].1)
    ensures Grew(f0, g, ops[..k + 1])
  {
    hide Bytes;
    AppendsContent(f, g, ops[k].0, ops[k].1);
    assert ops[..k + 1][..k] == ops[..k];
    forall i | 0 <= i < NINODES
      ensures Content(g.disk, g.tab[i]) == Content(f0.disk, f0.tab[i]) + Appended(ops[..k + 1], i)
      ensures g.tab[i] == f0.tab[i].(addrs := g.tab[i].addrs, size := |Content(g.disk, g.tab[i])|)
    {
      assert Content(f.disk, f.tab[i]) == Content(f0.disk, f0.tab[i]) + Appended(ops[..k], i);
    }
  }

  // ---- the empty image ---------------------------------------------------------------------------

  function ZeroInode(): (d: Dinode)
    ensures DinodeWF(d)
  {
    Dinode(0, 0, 0, 0, 0, 0, 0, 0, seq(NDIRECT + 1, _ => 0))
  }

  /** What ialloc writes. */
  function NewInode(typ: U16): (d: Dinode)
    ensures DinodeWF(d)
  {
    ZeroInode().(typ := typ, nlink := 1, ownerid := 99, groupid := 1, mode := 0x700)
  }

  /** An inode in use as mkfs leaves it, but for its size and addresses: no device, one link, and the owner, group and
      mode every file gets. */
  predicate Labelled(d: Dinode, typ: nat) {
    && d.typ == typ && d.major == 0 && d.minor == 0 && d.nlink == 1
    && d.ownerid == 99 && d.groupid == 1 && d.mode == 0x700
  }

  /** The superblock as mkfs writes it: size, nblocks, ninodes, nlog. */
  function SuperBlock(): Block {
    var b := WithEntry(WithEntry(ZeroBlock(), 0, FSSIZE), 1, FSSIZE - LOGSIZE - NMETA);
    WithEntry(WithEntry(b, 2, NINODES), 3, LOGSIZE)
  }

  lemma SuperBlockWords()
    ensures Word(SuperBlock(), 0) == FSSIZE && Word(SuperBlock(), 4) == FSSIZE - LOGSIZE - NMETA
    ensures Word(SuperBlock(), 8) == NINODES && Word(SuperBlock(), 12) == LOGSIZE
  {
    hide Entry, WithEntry;
    var b1 := WithEntry(ZeroBlock(), 0, FSSIZE);
    var b2 := WithEntry(b1, 1, FSSIZE - LOGSIZE - NMETA);
    var b3 := WithEntry(b2, 2, NINODES);
    EntryUpdate(ZeroBlock(), 0, FSSIZE, 0);
    EntryUpdate(b1, 1, FSSIZE - LOGSIZE - NMETA, 0);
    EntryUpdate(b2, 2, NINODES, 0);
    EntryUpdate(b2, 2, NINODES, 2);
    EntryUpdate(b1, 1, FSSIZE - LOGSIZE - NMETA, 1);
    EntryUpdate(b2, 2, NINODES, 1);
    forall k | 0 <= k < 4 ensures Entry(SuperBlock(), k) == if k == 3 then LOGSIZE else Entry(b3, k) {
      EntryUpdate(b3, 3, LOGSIZE, k);
    }
    WordIsEntry(SuperBlock(), 0);
    WordIsEntry(SuperBlock(), 1);
    WordIsEntry(SuperBlock(), 2);
    WordIsEntry(SuperBlock(), 3);
  }

  lemma WordIsEntry(b: Block, k: nat)
    requires k < NINDIRECT
    ensures Entry(b, k) == Word(b, 4 * k)
  {
  }

  function EmptyFs(): (f: Fs)
    ensures WF(f)
  {
    Fs(seq(FSSIZE, _ => ZeroBlock())[1 := SuperBlock()], seq(NINODES, _ => ZeroInode()), map[], seq(NINODES, _ => 0))
  }

  lemma {:induction false} NoCost(ns: seq<nat>)
    requires forall i :: 0 <= i < |ns| ==> ns[i] == 0
    ensures TotalCost(ns) == 0
  {
    if ns != [] {
      NoCost(ns[..|ns| - 1]);
    }
  }

  lemma ZeroBlockInode(slot: nat)
    requires slot < IPB
    ensures InodeAt(ZeroBlock(), slot) == ZeroInode()
  {
    assert InodeAt(ZeroBlock(), slot).addrs == ZeroInode().addrs;
  }

  /** A zeroed disk with a superblock is an image of no files. */
  lemma EmptyBuilt()
    ensures Built(EmptyFs(), NMETA) && SyncedBut(EmptyFs(), -1) && Sized(EmptyFs()) && SuperOk(EmptyFs().disk)
  {
    hide InodeAt, SuperBlock, ZeroBlock;
    var f := EmptyFs();
    NoCost(f.ns);
    SuperBlockWords();
    forall i | 0 <= i < NINODES ensures DiskInode(f.disk, i) == f.tab[i] && Shaped(f, i) && Whole(f, i) {
      ZeroBlockInode(i % IPB);
    }
  }

  /** Setting up an unused inode changes no file. */
  lemma InodeStarted(f: Fs, free: nat, i: nat, d: Dinode)
    requires WF(f) && Built(f, free) && SyncedBut(f, -1) && Sized(f) && SuperOk(f.disk) && i < NINODES
    requires f.tab[i] == ZeroInode() && DinodeWF(d) && d.addrs == ZeroInode().addrs && d.size == 0
    ensures var g := Stored(f, i, d);
            && Built(g, free) && SyncedBut(g, -1) && Sized(g) && SuperOk(g.disk) && SameBytes(f, g)
  {
    hide Linked, DiskInode, WithDiskInode, Bytes, TotalCost, SuperOk;
    StoredKeeps(f, i, d);
    var g := Stored(f, i, d);
    forall j | 0 <= j < NINODES ensures Whole(g, j) {
      assert Whole(f, j);
    }
  }

  /** The first n bits of x are set and no others. */
  ghost predicate FirstBits(x: Block, n: nat) {
    forall b :: 0 <= b < BPB ==> (BitAt(x, b) <==> b < n)
  }

  lemma ZeroBits(i: nat)
    requires i < BPB
    ensures !BitAt(ZeroBlock(), i)
  {
    NoBits(i % 8);
  }

  class Image {
    var disk: seq<Block>
    var freeblock: nat
    var freeinode: nat
    ghost var fs: Fs

    ghost predicate Growing()
      reads this
    {
      WF(fs) && Built(fs, freeblock) && fs.disk == disk
    }

    ghost predicate Valid()
      reads this
    {
      Growing() && SyncedBut(fs, -1) && Sized(fs) && SuperOk(disk)
    }

    /** What inode i holds. */
    ghost function File(i: nat): seq<Byte>
      requires Valid() && i < NINODES
      reads this
    {
      Content(disk, fs.tab[i])
    }

    /** The start of mkfs: a zeroed disk and its superblock. */
    constructor Format()
      ensures Valid() && fs == EmptyFs() && freeinode == 1 && freeblock == NMETA
    {
      disk, freeblock, freeinode := [], NMETA, 1;
      fs := EmptyFs();
      new;
      var i := 0;
      while i < FSSIZE
        invariant i <= FSSIZE && |disk| == i && forall b :: 0 <= b < i ==> disk[b] == ZeroBlock()
        invariant freeblock == NMETA && freeinode == 1 && fs == EmptyFs()
      {
        disk := disk + [ZeroBlock()];
        i := i + 1;
      }
      Wsect(1, SuperBlock());
      hide SuperBlock, ZeroBlock, Built, Sized, SyncedBut, SuperOk;
      EmptyBuilt();
      assert disk == EmptyFs().disk;
    }

    // ---- sectors and inodes ------------------------------------------------------------------

    method Rsect(sec: nat) returns (buf: Block)
      requires IsDisk(disk) && sec < FSSIZE
      ensures buf == disk[sec]
    {
      buf := disk[sec];
    }

    method Wsect(sec: nat, buf: Block)
      requires IsDisk(disk) && sec < FSSIZE
      modifies `disk
      ensures disk == old(disk)[sec := buf]
    {
      disk := disk[sec := buf];
    }

    method Rinode(inum: nat) returns (ip: Dinode)
      requires IsDisk(disk) && inum < NINODES
      ensures ip == DiskInode(disk, inum) && DinodeWF(ip)
    {
      var bn := IBLOCK(inum);
      var buf := Rsect(bn);
      ip := InodeAt(buf, inum % IPB);
    }

    method Winode(inum: nat, ip: Dinode)
      requires IsDisk(disk) && inum < NINODES && DinodeWF(ip)
      modifies `disk
      ensures disk == WithDiskInode(old(disk), inum, ip)
    {
      var bn := IBLOCK(inum);
      var buf := Rsect(bn);
      buf := WithInode(buf, inum % IPB, ip);
      Wsect(bn, buf);
    }

    // ---- iappend -----------------------------------------------------------------------------

    /** The first half of the body of iappend's loop: the sector of block fbn of the inode, the next
        unused one where it has none, through an indirect block, taken too if need be, past the
        direct ones. */
    method BlockFor(inum: nat, ip: Dinode, fbn: nat) returns (din: Dinode, x: nat)
      requires Growing() && inum < NINODES && fs.tab[inum] == ip && fbn <= fs.ns[inum] && fbn < MAXFILE
      requires fbn == fs.ns[inum] ==> freeblock + Takes(fbn) <= FSSIZE && IndirectOf(fs, freeblock, inum) < FSSIZE
      modifies this
      ensures fs == Ensured(old(fs), old(freeblock), inum, fbn) && fs.disk == disk
      ensures freeblock == old(freeblock) + (if fbn < old(fs).ns[inum] then 0 else Takes(fbn))
      ensures freeinode == old(freeinode)
      ensures din == fs.tab[inum] && x == P(fs, inum, fbn)
      ensures var n := old(fs).ns[inum];
              && (fbn == n ==> x == (if n == 10 then old(freeblock) + 1 else old(freeblock)))
              && (fbn == n == 10 ==> din.addrs[10] == old(freeblock))
    {
      hide Built, Linked, WithEntry, Entry, P, Ensured, Fresh, TotalCost, Ptr;
      BuiltParts(fs, freeblock);
      EnsuredCases(fs, freeblock, inum, fbn);
      assert fs.tab[inum := ip] == fs.tab && ip.addrs[NDIRECT := ip.addrs[NDIRECT]] == ip.addrs;
      din := ip;
      if fbn < NDIRECT {
        if din.addrs[fbn] == 0 {
          din := WithAddr(din, fbn, freeblock);
          freeblock := freeblock + 1;
        }
        x := din.addrs[fbn];
      } else {
        din, x := ViaIndirect(din, fbn - NDIRECT);
      }
      fs := Ensured(fs, old(freeblock), inum, fbn);
    }

    /** The branch for blocks past the direct ones. */
    method ViaIndirect(ip: Dinode, k: nat) returns (din: Dinode, x: nat)
      requires IsDisk(disk) && DinodeWF(ip) && k < NINDIRECT && freeblock + 2 < TWO32
      requires ip.addrs[NDIRECT] < FSSIZE && (ip.addrs[NDIRECT] == 0 ==> freeblock < FSSIZE)
      modifies `disk, `freeblock
      ensures var isNew := ip.addrs[NDIRECT] == 0;
              var a := if isNew then old(freeblock) else ip.addrs[NDIRECT];
              var b := if isNew then old(freeblock) + 1 else old(freeblock);
              var e := Entry(old(disk)[a], k);
              && din == WithAddr(ip, NDIRECT, a)
              && x == (if e == 0 then b else e)
              && freeblock == (if e == 0 then b + 1 else b)
              && disk == (if e == 0 then old(disk)[a := WithEntry(old(disk)[a], k, b)] else old(disk))
    {
      hide Entry, WithEntry;
      din := ip;
      assert ip.addrs[NDIRECT := ip.addrs[NDIRECT]] == ip.addrs;
      if din.addrs[NDIRECT] == 0 {
        din := WithAddr(din, NDIRECT, freeblock);
        freeblock := freeblock + 1;
      }
      var indirect := Rsect(din.addrs[NDIRECT]);
      if Entry(indirect, k) == 0 {
        EntryUpdate(indirect, k, freeblock, k);
        indirect := WithEntry(indirect, k, freeblock);
        freeblock := freeblock + 1;
        Wsect(din.addrs[NDIRECT], indirect);
      }
      x := Entry(indirect, k);
    }

    /** Appends xp to file inum. */
    method IAppend(inum: nat, xp: seq<Byte>)
      requires Valid() && inum < NINODES
      requires fs.tab[inum].size + |xp| <= MAXBYTES && Room(fs.ns, inum, BlocksFor(fs.tab[inum].size + |xp|))
      modifies this
      ensures Valid() && freeinode == old(freeinode)
      ensures Appends(old(fs), fs, inum, xp)
      ensures File(inum) == old(File(inum)) + xp
    {
      hide Linked, Built, Bytes, P, Takes, Ensured, Adding, DiskInode, WithDiskInode, Sized, Room, Fresh, SuperOk,
        TotalCost, BlocksFor, SyncedBut, Content, Appends;
      ghost var f0 := fs;
      ValidParts(f0, freeblock, inum);
      var din := Rinode(inum);
      var off, p := din.size, 0;
      NothingAdded(fs, inum);
      assert xp[..0] == [];
      while p < |xp|
        invariant p <= |xp| && off == f0.tab[inum].size + p && freeinode == old(freeinode)
        invariant Growing() && WF(fs) && din == fs.tab[inum] && Adding(f0, fs, inum, xp[..p])
      {
        var fbn := off / BSIZE;
        var n1 := Min(|xp| - p, (fbn + 1) * BSIZE - off);
        ghost var part := xp[p..p + n1];
        RoomFor(f0.ns, inum, off + n1, f0.tab[inum].size + |xp|);
        PartKeeps(f0, fs, freeblock, inum, xp[..p], part);
        BuiltParts(fs, freeblock);
        var x: nat;
        din, x := BlockFor(inum, din, fbn);
        var buf := Rsect(x);
        buf := Overwrite(buf, off - fbn * BSIZE, xp[p..p + n1]);
        Wsect(x, buf);
        fs := PartPut(fs, inum, off, part);
        assert xp[..p] + part == xp[..p + n1];
        off, p := off + n1, p + n1;
      }
      assert xp[..p] == xp;
      din := din.(size := off);
      Winode(inum, din);
      Closing(f0, fs, freeblock, inum, xp, din);
      fs := Stored(fs, inum, din);
      AppendsContent(f0, fs, inum, xp);
    }

    /** Any interleaving of iappend calls leaves every file with its own chunks, in order. */
    method AppendAll(ops: seq<(nat, seq<Byte>)>, ghost goal: seq<nat>)
      requires Valid() && |goal| == NINODES && Within(fs.ns, goal) && Expected(fs, ops, goal)
      requires forall k :: 0 <= k < |ops| ==> ops[k].0 < NINODES
      modifies this
      ensures Valid() && freeinode == old(freeinode) && Within(fs.ns, goal)
      ensures Grew(old(fs), fs, ops)
    {
      hide Linked, Built, Bytes, SuperOk, Content, Room, SyncedBut, BlocksFor, Within, TotalCost, Grew, Expected,
        Appended;
      NothingGrew(fs);
      var k := 0;
      assert ops[..0] == [];
      while k < |ops|
        invariant k <= |ops| && Valid() && freeinode == old(freeinode) && Within(fs.ns, goal)
        invariant Grew(old(fs), fs, ops[..k])
      {
        NextFits(old(fs), fs, ops, k, goal);
        ghost var f := fs;
        IAppend(ops[k].0, ops[k].1);
        GrewOn(old(fs), f, fs, ops, k);
        k := k + 1;
      }
      assert ops[..k] == ops;
    }

    // ---- inodes and the bitmap ---------------------------------------------------------------

    method IAlloc(typ: U16) returns (inum: nat)
      requires Valid() && freeinode < NINODES && fs.tab[freeinode] == ZeroInode()
      modifies this
      ensures Valid() && inum == old(freeinode) && freeinode == inum + 1
      ensures fs.tab == old(fs.tab)[inum := NewInode(typ)] && fs.ns == old(fs.ns) && SameBytes(old(fs), fs)
      ensures Labelled(fs.tab[inum], typ) && fs.tab[inum].size == 0
        && forall k :: 0 <= k <= NDIRECT ==> fs.tab[inum].addrs[k] == 0
    {
      hide Built, DiskInode, WithDiskInode, Sized, SuperOk, SyncedBut, Bytes, SameBytes;
      inum := freeinode;
      freeinode := freeinode + 1;
      var din := NewInode(typ);
      InodeStarted(fs, freeblock, inum, din);
      Winode(inum, din);
      fs := Stored(fs, inum, din);
    }

    /** Writes the bitmap: the first `used` blocks are taken. */
    method Balloc(used: nat)
      requires IsDisk(disk) && used < BPB
      modifies `disk
      ensures IsDisk(disk) && disk == old(disk)[NINODEBLOCKS + 2 := disk[NINODEBLOCKS + 2]]
      ensures FirstBits(disk[NINODEBLOCKS + 2], used)
    {
      hide BitAt, WithBit;
      var buf := ZeroBlock();
      forall b | 0 <= b < BPB ensures !BitAt(buf, b) { ZeroBits(b); }
      var i := 0;
      while i < used
        invariant i <= used
        invariant FirstBits(buf, i)
      {
        forall b | 0 <= b < BPB ensures BitAt(WithBit(buf, i), b) <==> b < i + 1 { BitSet(buf, i, b); }
        buf := WithBit(buf, i);
        i := i + 1;
      }
      Wsect(NINODEBLOCKS + 2, buf);
    }
  }
}
