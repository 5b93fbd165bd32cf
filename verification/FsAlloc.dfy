/** The kernel's block allocator, A.ide/src/fs.c, over the structure of FsState: the first clear bit of
    the free map is taken, a file grows by a block taken that way, and a file is cut by clearing the
    bits of its blocks. */
module FsAlloc {
  import opened FsFormat
  import opened FsState

  /** The one block of the free map. */
  const MAPBLOCK: nat := BBLOCK(0, NINODES)

  /** The first block from `from` on whose bit is clear, FSSIZE if there is none. */
  function Lowest(disk: seq<Block>, from: nat): (r: nat)
    requires IsDisk(disk) && from <= FSSIZE
    ensures from <= r <= FSSIZE && (r < FSSIZE ==> !Marked(disk, r))
    ensures forall x :: from <= x < r ==> Marked(disk, x)
    decreases FSSIZE - from
  {
    if from == FSSIZE || !Marked(disk, from) then from else Lowest(disk, from + 1)
  }

  /** The blocks whose bit is clear. */
  ghost function Free(disk: seq<Block>): set<nat>
    requires IsDisk(disk)
  {
    set b: nat | b < FSSIZE && !Marked(disk, b)
  }

  /** The disk after block b is taken: its bit set, its content zeroed. */
  function WithBlock(disk: seq<Block>, b: nat): (r: seq<Block>)
    requires IsDisk(disk) && b < FSSIZE
    ensures IsDisk(r)
  {
    disk[MAPBLOCK := WithBit(disk[MAPBLOCK], b)][b := ZeroBlock()]
  }

  /** The disk after block b is given back. */
  function WithoutBlock(disk: seq<Block>, b: nat): (r: seq<Block>)
    requires IsDisk(disk) && b < FSSIZE
    ensures IsDisk(r)
  {
    disk[MAPBLOCK := WithoutBit(disk[MAPBLOCK], b)]
  }

  function Allocated(f: Fs, b: nat): (g: Fs)
    requires WF(f) && b < FSSIZE
    ensures WF(g)
  {
    f.(disk := WithBlock(f.disk, b))
  }

  /** The free map, while the blocks in pend are marked but not yet in any inode. */
  ghost predicate MapBut(f: Fs, pend: set<nat>)
    requires WF(f)
  {
    forall b :: 0 <= b < FSSIZE ==> (Marked(f.disk, b) <==> b < NMETA || b in f.owner || b in pend)
  }

  lemma MarkedAfter(disk: seq<Block>, b: nat, x: nat)
    requires IsDisk(disk) && NMETA <= b < FSSIZE && x < FSSIZE
    ensures Marked(WithBlock(disk, b), x) <==> x == b || Marked(disk, x)
    ensures Marked(WithoutBlock(disk, b), x) <==> x != b && Marked(disk, x)
  {
    hide BitAt, WithBit, WithoutBit;
    BitSet(disk[MAPBLOCK], b, x);
    BitCleared(disk[MAPBLOCK], b, x);
  }

  /** Taking a block takes exactly that block out of the free ones. */
  lemma FreeAfter(disk: seq<Block>, b: nat)
    requires IsDisk(disk) && NMETA <= b < FSSIZE && !Marked(disk, b)
    ensures Free(WithBlock(disk, b)) == Free(disk) - {b} && |Free(WithBlock(disk, b))| == |Free(disk)| - 1
  {
    hide Marked, WithBlock;
    forall x: nat | x < FSSIZE ensures Marked(WithBlock(disk, b), x) <==> x == b || Marked(disk, x) {
      MarkedAfter(disk, b, x);
    }
    assert b in Free(disk);
  }

  lemma LowestFree(disk: seq<Block>)
    requires IsDisk(disk)
    ensures Lowest(disk, 0) < FSSIZE <==> Free(disk) != {}
  {
    hide Marked;
    if Lowest(disk, 0) < FSSIZE {
      assert Lowest(disk, 0) in Free(disk);
    }
  }

  /** What the kernel keeps while file i is being changed. */
  ghost predicate Sound(f: Fs, i: int, pend: set<nat>) {
    WF(f) && Linked(f) && SyncedBut(f, i) && SuperOk(f.disk) && MapBut(f, pend)
  }

  lemma SoundParts(f: Fs, i: int, pend: set<nat>)
    requires Sound(f, i, pend)
    ensures WF(f) && Linked(f) && SyncedBut(f, i) && SuperOk(f.disk) && MapBut(f, pend) && Marked(f.disk, 0)
  {
    hide Linked, Marked, SyncedBut, SuperOk;
  }

  lemma AllocatedMap(f: Fs, b: nat, pend: set<nat>)
    requires WF(f) && MapBut(f, pend) && NMETA <= b < FSSIZE
    ensures MapBut(Allocated(f, b), pend + {b})
  {
    hide Marked, WithBlock;
    forall x: nat | x < FSSIZE ensures Marked(WithBlock(f.disk, b), x) <==> x == b || Marked(f.disk, x) {
      MarkedAfter(f.disk, b, x);
    }
  }

  /** balloc yields a block that was free and not even pending, now zeroed; no file notices. */
  lemma AllocatedKeeps(f: Fs, i: int, pend: set<nat>)
    requires Sound(f, i, pend) && Free(f.disk) != {}
    ensures var b := Lowest(f.disk, 0);
            && NMETA <= b < FSSIZE && b !in pend && b !in f.owner
            && var g := Allocated(f, b);
            && Sound(g, i, pend + {b}) && SameBytes(f, g) && Fresh(g, b) && MetaSame(f.disk, g.disk)
            && Free(g.disk) == Free(f.disk) - {b} && |Free(g.disk)| == |Free(f.disk)| - 1
            && (forall a :: a in pend && Fresh(f, a) ==> Fresh(g, a))
  {
    hide Linked, SameBytes, Marked, SyncedBut, SuperOk, WithBit, ZeroBlock, Free;
    LowestFree(f.disk);
    var b := Lowest(f.disk, 0);
    Owners(f);
    AllocatedMap(f, b, pend);
    var g := Allocated(f, b);
    UnownedChange(f, g.disk);
    MetaKeeps(f, g, i);
    FreeAfter(f.disk, b);
  }

  // ---- growth by one block -----------------------------------------------------------------------

  /** The blocks bmap needs next for file i are to be had. */
  predicate CanExtend(f: Fs, i: nat)
    requires WF(f) && i < NINODES
  {
    && f.ns[i] < MAXFILE && Lowest(f.disk, 0) < FSSIZE
    && (f.ns[i] == NDIRECT ==> Lowest(WithBlock(f.disk, Lowest(f.disk, 0)), 0) < FSSIZE)
    && (f.ns[i] > NDIRECT ==> f.tab[i].addrs[NDIRECT] < FSSIZE)
  }

  /** The state after bmap gives file i its next block; the first one past the direct ones comes
      second, after the indirect block. */
  function Extended(f: Fs, i: nat): (g: Fs)
    requires WF(f) && i < NINODES && CanExtend(f, i)
    ensures WF(g)
  {
    var f1 := Allocated(f, Lowest(f.disk, 0));
    if f.ns[i] < NDIRECT then Grown(f1, i, 0, Lowest(f.disk, 0))
    else if f.ns[i] > NDIRECT then Grown(f1, i, f.tab[i].addrs[NDIRECT], Lowest(f.disk, 0))
    else Grown(Allocated(f1, Lowest(f1.disk, 0)), i, Lowest(f.disk, 0), Lowest(f1.disk, 0))
  }

  /** Putting pending blocks into an inode settles the map. */
  lemma GrownSound(f: Fs, i: nat, a: U32, b: U32, pend: set<nat>)
    requires i < NINODES && Sound(f, i, pend) && Offered(f, i, a, b)
    requires pend == if f.ns[i] == NDIRECT then {a as nat, b as nat} else {b as nat}
    ensures a < FSSIZE
    ensures var g := Grown(f, i, a, b);
            && Sound(g, i, {}) && SameBytes(f, g) && MetaSame(f.disk, g.disk) && Free(g.disk) == Free(f.disk)
            && g.tab == f.tab[i := f.tab[i].(addrs := g.tab[i].addrs)] && g.ns == f.ns[i := f.ns[i] + 1]
            && P(g, i, f.ns[i]) == b
  {
    hide Linked, SyncedBut, SuperOk, SameBytes, MetaSame, Marked, MapBut, Grown, P, Offered, Fresh;
    OfferedParts(f, i, a, b);
    GrownFrame(f, i, a, b, pend);
    GrowthKeeps(f, i, a, b);
    GrownAddress(f, i, a, b, i, f.ns[i]);
    MetaKeeps(f, Grown(f, i, a, b), i);
  }

  lemma OfferedParts(f: Fs, i: nat, a: U32, b: U32)
    requires WF(f) && i < NINODES && Offered(f, i, a, b)
    ensures f.ns[i] < MAXFILE && NMETA <= b < FSSIZE
  {
  }

  lemma GrownFrame(f: Fs, i: nat, a: U32, b: U32, pend: set<nat>)
    requires Linked(f) && i < NINODES && Offered(f, i, a, b) && MapBut(f, pend)
    requires pend == if f.ns[i] == NDIRECT then {a as nat, b as nat} else {b as nat}
    ensures a < FSSIZE
    ensures var g := Grown(f, i, a, b);
            && MetaSame(f.disk, g.disk) && Free(g.disk) == Free(f.disk) && MapBut(g, {})
            && g.tab == f.tab[i := f.tab[i].(addrs := g.tab[i].addrs)] && g.ns == f.ns[i := f.ns[i] + 1]
  {
    IndirectKnown(f, i);
    hide Linked, WithEntry, Marked, ZeroBlock;
    var g := Grown(f, i, a, b);
    SameMap(f.disk, g.disk);
  }

  lemma IndirectKnown(f: Fs, i: nat)
    requires Linked(f) && i < NINODES
    ensures WF(f)
      && (f.ns[i] > NDIRECT ==> NMETA <= f.tab[i].addrs[NDIRECT] < FSSIZE && f.tab[i].addrs[NDIRECT] in f.owner)
  {
    Blocks(f, i, 0);
  }

  lemma SameMap(disk: seq<Block>, disk': seq<Block>)
    requires IsDisk(disk) && IsDisk(disk') && disk'[MAPBLOCK] == disk[MAPBLOCK]
    ensures Free(disk') == Free(disk) && forall b :: 0 <= b < FSSIZE ==> (Marked(disk', b) <==> Marked(disk, b))
  {
    hide BitAt;
  }

  /** What growing file i by a block does. */
  ghost predicate OneMore(f: Fs, g: Fs, i: nat)
    requires WF(f) && WF(g) && i < NINODES
  {
    && SameBytes(f, g) && MetaSame(f.disk, g.disk)
    && g.tab == f.tab[i := f.tab[i].(addrs := g.tab[i].addrs)] && g.ns == f.ns[i := f.ns[i] + 1]
    && |Free(g.disk)| == |Free(f.disk)| - Takes(f.ns[i])
  }

  /** bmap's growth keeps every rule, shows in no file, and uses up just the blocks it takes. */
  lemma ExtendedKeeps(f: Fs, i: nat)
    requires i < NINODES && Sound(f, i, {}) && f.ns[i] < MAXFILE && |Free(f.disk)| >= Takes(f.ns[i])
    ensures CanExtend(f, i)
    ensures var g := Extended(f, i); Sound(g, i, {}) && OneMore(f, g, i) && NMETA <= P(g, i, f.ns[i]) < FSSIZE
  {
    if f.ns[i] == NDIRECT { ExtendedTwice(f, i); } else { ExtendedOnce(f, i); }
  }

  lemma ExtendedOnce(f: Fs, i: nat)
    requires i < NINODES && Sound(f, i, {}) && f.ns[i] < MAXFILE && |Free(f.disk)| >= Takes(f.ns[i])
      && f.ns[i] != NDIRECT
    ensures CanExtend(f, i)
    ensures var g := Extended(f, i); Sound(g, i, {}) && OneMore(f, g, i) && NMETA <= P(g, i, f.ns[i]) < FSSIZE
  {
    hide Sound, SameBytes, Grown, MetaSame, WithBlock, P, Free, Lowest, Fresh;
    SoundParts(f, i, {});
    IndirectKnown(f, i);
    AllocatedKeeps(f, i, {});
    var a := Lowest(f.disk, 0);
    var f1 := Allocated(f, a);
    assert {} + {a} == {a};
    SoundParts(f1, i, {a});
    GrownSound(f1, i, if f.ns[i] < NDIRECT then 0 else f.tab[i].addrs[NDIRECT], a, {a});
    SameThrice(f, f1, f1, Extended(f, i));
  }

  lemma ExtendedTwice(f: Fs, i: nat)
    requires i < NINODES && Sound(f, i, {}) && |Free(f.disk)| >= 2 && f.ns[i] == NDIRECT
    ensures CanExtend(f, i)
    ensures var g := Extended(f, i); Sound(g, i, {}) && OneMore(f, g, i) && NMETA <= P(g, i, f.ns[i]) < FSSIZE
  {
    hide Sound, SameBytes, Grown, MetaSame, WithBlock, P, Free, Lowest, Fresh;
    SoundParts(f, i, {});
    AllocatedKeeps(f, i, {});
    var a := Lowest(f.disk, 0);
    var f1 := Allocated(f, a);
    SoundParts(f1, i, {} + {a});
    AllocatedKeeps(f1, i, {} + {a});
    var b := Lowest(f1.disk, 0);
    var f2 := Allocated(f1, b);
    assert {} + {a} + {b} == {a, b};
    SoundParts(f2, i, {a, b});
    GrownSound(f2, i, a, b, {a, b});
    SameThrice(f, f1, f2, Extended(f, i));
  }

  lemma SameThrice(f: Fs, g: Fs, h: Fs, k: Fs)
    requires WF(f) && WF(g) && WF(h) && WF(k)
    requires SameBytes(f, g) && MetaSame(f.disk, g.disk) && (h == g || (SameBytes(g, h) && MetaSame(g.disk, h.disk)))
    requires SameBytes(h, k) && MetaSame(h.disk, k.disk)
    ensures SameBytes(f, k) && MetaSame(f.disk, k.disk)
  {
    hide Bytes;
  }

  // ---- cutting a file ----------------------------------------------------------------------------

  function FreedCount(ns: nat, n: nat): nat {
    (if n < ns then n else ns) + if n > MAXFILE && ns > NDIRECT then 1 else 0
  }

  /** Block b is in one of the first n slots of file i. */
  predicate Among(f: Fs, i: nat, n: nat, b: nat) {
    b in f.owner && f.owner[b].i == i && f.owner[b].s < n
  }

  /** The disk with the marks of the first n slots of file i cleared. */
  ghost predicate Freed(f: Fs, disk: seq<Block>, i: nat, n: nat)
    requires WF(f) && i < NINODES
  {
    && IsDisk(disk) && disk == f.disk[MAPBLOCK := disk[MAPBLOCK]]
    && (forall b :: 0 <= b < FSSIZE ==> (Marked(disk, b) <==> Marked(f.disk, b) && !Among(f, i, n, b)))
    && |Free(disk)| == |Free(f.disk)| + FreedCount(f.ns[i], n)
  }

  lemma SlotOwned(f: Fs, i: nat, n: nat)
    requires Linked(f) && i < NINODES && n <= MAXFILE
    ensures WF(f)
    ensures P(f, i, n) != 0 <==> if n == MAXFILE then f.ns[i] > NDIRECT else n < f.ns[i]
    ensures P(f, i, n) != 0 ==>
        NMETA <= P(f, i, n) < FSSIZE && P(f, i, n) in f.owner && f.owner[P(f, i, n)] == Slot(i, n)
    ensures forall b :: b in f.owner && f.owner[b] == Slot(i, n) ==> b == P(f, i, n)
    ensures f.ns[i] <= MAXFILE
  {
    hide Ptr;
    assert Shaped(f, i);
  }

  lemma FreeAgain(disk: seq<Block>, b: nat)
    requires IsDisk(disk) && NMETA <= b < FSSIZE && Marked(disk, b)
    ensures |Free(WithoutBlock(disk, b))| == |Free(disk)| + 1
  {
    hide Marked, WithoutBlock;
    forall x: nat | x < FSSIZE ensures Marked(WithoutBlock(disk, b), x) <==> x != b && Marked(disk, x) {
      MarkedAfter(disk, b, x);
    }
    assert Free(WithoutBlock(disk, b)) == Free(disk) + {b};
  }

  /** The next slot's block is marked when bfree gets to it. */
  lemma FreedStep(f: Fs, disk: seq<Block>, i: nat, n: nat)
    requires Linked(f) && i < NINODES && MapBut(f, {}) && Freed(f, disk, i, n) && n <= MAXFILE
    ensures var p := P(f, i, n);
            if p == 0 then Freed(f, disk, i, n + 1)
            else NMETA <= p < FSSIZE && Marked(disk, p) && Freed(f, WithoutBlock(disk, p), i, n + 1)
  {
    hide Freed, MapBut;
    SlotOwned(f, i, n);
    if P(f, i, n) != 0 { FreedOne(f, disk, i, n); } else { FreedEmpty(f, disk, i, n); }
  }

  lemma FreedEmpty(f: Fs, disk: seq<Block>, i: nat, n: nat)
    requires Linked(f) && i < NINODES && Freed(f, disk, i, n) && n <= MAXFILE && P(f, i, n) == 0
    ensures Freed(f, disk, i, n + 1)
  {
    SlotOwned(f, i, n);
    Owners(f);
    hide Linked, P, Marked, Free;
    assert forall b :: Among(f, i, n + 1, b) <==> Among(f, i, n, b);
  }

  lemma FreedOne(f: Fs, disk: seq<Block>, i: nat, n: nat)
    requires Linked(f) && i < NINODES && MapBut(f, {}) && Freed(f, disk, i, n) && n <= MAXFILE && P(f, i, n) != 0
    ensures var p := P(f, i, n); NMETA <= p < FSSIZE && Marked(disk, p) && Freed(f, WithoutBlock(disk, p), i, n + 1)
  {
    SlotOwned(f, i, n);
    var p := P(f, i, n);
    hide Linked, P, Marked, WithoutBit, Free;
    FreeAgain(disk, p);
    forall x: nat | x < FSSIZE
      ensures Marked(WithoutBlock(disk, p), x) <==> Marked(f.disk, x) && !Among(f, i, n + 1, x)
    {
      MarkedAfter(disk, p, x);
      assert Among(f, i, n + 1, x) <==> Among(f, i, n, x) || x == p;
    }
  }

  lemma FreedNone(f: Fs, i: nat)
    requires WF(f) && i < NINODES
    ensures Freed(f, f.disk, i, 0)
  {
    hide Marked;
    assert f.disk[MAPBLOCK := f.disk[MAPBLOCK]] == f.disk;
  }

  /** A file with no indirect block has nothing past its direct slots. */
  lemma {:induction false} FreedRest(f: Fs, disk: seq<Block>, i: nat, n: nat)
    requires Linked(f) && i < NINODES && MapBut(f, {}) && Freed(f, disk, i, n) && NDIRECT <= n <= MAXFILE + 1
    requires f.ns[i] <= NDIRECT
    ensures Freed(f, disk, i, MAXFILE + 1)
    decreases MAXFILE + 1 - n
  {
    hide MapBut, Freed, P;
    if n <= MAXFILE {
      SlotOwned(f, i, n);
      FreedStep(f, disk, i, n);
      FreedRest(f, disk, i, n + 1);
    }
  }

  function CutInode(d: Dinode): (r: Dinode)
    ensures DinodeWF(r)
  {
    d.(addrs := seq(NDIRECT + 1, _ => 0), size := 0)
  }

  /** The state once file i has nothing, on that disk. */
  function Cut(f: Fs, disk: seq<Block>, i: nat): (g: Fs)
    requires WF(f) && i < NINODES && IsDisk(disk)
    ensures WF(g)
  {
    Fs(disk, f.tab[i := CutInode(f.tab[i])], map b | b in f.owner && f.owner[b].i != i :: f.owner[b], f.ns[i := 0])
  }

  /** Clearing exactly file i's marks and addresses leaves every other file as it was. */
  lemma CutKeeps(f: Fs, disk: seq<Block>, i: nat)
    requires i < NINODES && Sound(f, i, {}) && Freed(f, disk, i, MAXFILE + 1)
    ensures var g := Cut(f, disk, i);
            && Sound(g, i, {}) && OthersSame(f, g, i) && MetaSame(f.disk, g.disk)
            && |Free(g.disk)| == |Free(f.disk)| + Cost(f.ns[i])
  {
    hide Marked, SyncedBut, SuperOk, Free, Bytes, Linked;
    var g := Cut(f, disk, i);
    CutLinked(f, disk, i);
    MetaKeeps(f, g, i);
    SlotOwned(f, i, 0);
    Owners(f);
    OwnersAreSlots(f);
  }

  lemma OwnersAreSlots(f: Fs)
    requires Linked(f)
    ensures forall b :: b in f.owner ==> IsSlot(f.owner[b])
  {
  }

  lemma CutLinked(f: Fs, disk: seq<Block>, i: nat)
    requires Linked(f) && i < NINODES && IsDisk(disk) && disk == f.disk[MAPBLOCK := disk[MAPBLOCK]]
    ensures Linked(Cut(f, disk, i)) && OthersSame(f, Cut(f, disk, i), i)
  {
    var g := Cut(f, disk, i);
    forall j, t | 0 <= j < NINODES && 0 <= t <= MAXFILE ensures P(g, j, t) == if j == i then 0 else P(f, j, t) {
      Blocks(f, j, 0);
      if j != i { PtrSpared(f.disk, g.disk, f.tab[j], t); }
    }
    CutShapes(f, g, i);
    forall j | 0 <= j < NINODES && j != i ensures Bytes(g.disk, g.tab[j]) == Bytes(f.disk, f.tab[j]) {
      forall t | 0 <= t < MAXFILE ensures Data(g.disk, g.tab[j], t) == Data(f.disk, f.tab[j], t) {
        assert P(g, j, t) == P(f, j, t);
        Blocks(f, j, t);
      }
      SameDataSameBytes(f, g, j);
    }
  }

  lemma CutShapes(f: Fs, g: Fs, i: nat)
    requires Linked(f) && i < NINODES && WF(g) && g == Cut(f, g.disk, i)
    requires forall j, t :: 0 <= j < NINODES && 0 <= t <= MAXFILE ==> P(g, j, t) == if j == i then 0 else P(f, j, t)
    ensures Linked(g)
  {
    hide Ptr;
    forall j | 0 <= j < NINODES ensures Shaped(g, j) {
      assert Shaped(f, j);
      assert P(g, j, MAXFILE) == if j == i then 0 else P(f, j, MAXFILE);
      forall t | 0 <= t < MAXFILE ensures P(g, j, t) != 0 <==> t < g.ns[j] {
        assert P(g, j, t) == if j == i then 0 else P(f, j, t);
      }
    }
    forall b | b in g.owner ensures NMETA <= b < FSSIZE && IsSlot(g.owner[b]) && P(g, g.owner[b].i, g.owner[b].s) == b {
      assert P(f, f.owner[b].i, f.owner[b].s) == b;
    }
  }
}
