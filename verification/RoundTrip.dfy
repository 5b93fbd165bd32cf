/** The two programs together: what A.ide/tools/mkfs.c puts into an image is what A.ide/src/fs.c reads
    from it. */
module RoundTrip {
  import opened FsFormat
  import opened FsState
  import opened FsAlloc
  import opened FsKernel
  import opened FileTable
  import opened Mkfs
  import opened MkfsMain

  /** The bytes a read of n at off yields of s. */
  function Clip(s: seq<Byte>, off: nat, n: nat): (r: seq<Byte>)
    requires off <= |s|
    ensures |r| == Min(n, |s| - off)
  {
    s[off..off + Min(n, |s| - off)]
  }

  /** No two slots of any two files share a block, and every block of a file is in the data area. */
  lemma PointersDistinct(f: Fs, i: nat, s: nat, j: nat, t: nat)
    requires Linked(f) && i < NINODES && j < NINODES && s <= MAXFILE && t <= MAXFILE && (i != j || s != t)
    ensures WF(f) && (P(f, i, s) != 0 ==> NMETA <= P(f, i, s) < FSSIZE && P(f, i, s) != P(f, j, t))
  {
    hide Ptr;
    assert P(f, i, s) != 0 ==> f.owner[P(f, i, s)] == Slot(i, s);
    assert P(f, j, t) != 0 ==> f.owner[P(f, j, t)] == Slot(j, t);
  }

  /** The two programs agree on the layout: the inode blocks lie between the superblock and the bitmap,
      the bitmap block is where both look for it, and the data area starts after it. */
  lemma LayoutAgrees(i: nat, b: nat)
    requires i < NINODES && b < FSSIZE
    ensures 1 < IBLOCK(i) < BBLOCK(b, NINODES) == NINODEBLOCKS + 2 == MAPBLOCK < NMETA
  {
  }

  /** The kernel's allocator takes up where mkfs left off: its first block is the first one mkfs did not
      use, so none of the reserved ones and none of a file. */
  lemma FirstFree(f: Fs, free: nat, names: seq<seq<Byte>>, files: seq<seq<seq<Byte>>>)
    requires Finished(f, free, names, files)
    ensures Lowest(f.disk, 0) == free
    ensures forall i, s :: 0 <= i < NINODES && 0 <= s <= MAXFILE && P(f, i, s) != 0 ==> NMETA <= P(f, i, s) < free
  {
    hide Marked, SyncedBut, SuperOk, IsFile, RootEntries, Ptr, Linked;
    assert free < FSSIZE ==> !Marked(f.disk, free);
    forall i, s | 0 <= i < NINODES && 0 <= s <= MAXFILE && P(f, i, s) != 0 ensures NMETA <= P(f, i, s) < free {
      SlotOwned(f, i, s);
    }
  }

  /** A kernel freshly mounted on an image, with inode inum fetched and locked in the first place of its cache. */
  method OpenFresh(disk: seq<Block>, ghost f: Fs, inum: nat) returns (k: FileSys)
    requires Mountable(f) && f.disk == disk && inum < NINODES
    ensures fresh(k) && k.Valid() && k.fs == f && |k.icache| == NINODE
    ensures k.icache[0] == Inode(inum, 1, true, true, f.tab[inum])
    ensures forall x :: 1 <= x < NINODE ==> k.icache[x].refs == 0
  {
    hide Sound, Linked, SyncedBut, MapOk, CacheOk, SuperOk, DiskInode, Find, Unused, Mountable;
    k := new FileSys.Mount(disk, f);
    CacheSize(k.icache, f);
    EmptyGet(k.icache, inum);
    GotKeeps(k.icache, f, inum);
    var ip := k.Iget(inum);
    SoundParts(f, -1, {});
    Locks(k.icache, f, ip);
    k.Ilock(ip);
    assert k.icache == LockedCache(GotCache(seq(NINODE, _ => EmptyEntry()), inum), f, ip);
  }

  /** Reading inode inum through a kernel freshly mounted on an image. */
  method ReadFresh(disk: seq<Block>, ghost f: Fs, inum: nat, off: nat, n: nat)
    returns (r: int, dst: seq<Byte>, k: FileSys)
    requires Mountable(f) && f.disk == disk && inum < NINODES && Whole(f, inum) && f.tab[inum].typ != T_DEV
    requires off < TWO32 && n < TWO32
    ensures fresh(k) && k.Valid() && k.fs == f
    ensures var c := Content(f.disk, f.tab[inum]);
            if off <= |c| && off <= (off + n) % TWO32 then dst == Clip(c, off, n) && r == |dst|
            else r == -1 && dst == []
  {
    hide Sound, CacheOk, Content, Whole, Mountable;
    k := OpenFresh(disk, f, inum);
    WholeSize(f, inum);
    r, dst := k.Readi(0, off, n);
  }

  /** Fetching, locking, unlocking and dropping the root or any file of an image mkfs made leaves the image alone: each
      has a link, so the last reference frees nothing. */
  method OpenAndClose(disk: seq<Block>, ghost f: Fs, ghost free: nat, ghost names: seq<seq<Byte>>,
                      ghost files: seq<seq<seq<Byte>>>, inum: nat)
    returns (k: FileSys)
    requires Finished(f, free, names, files) && f.disk == disk && ROOTINO <= inum < 2 + |files|
    ensures fresh(k) && k.Valid() && k.fs == f && k.disk == disk && f.tab[inum].nlink == 1
    ensures |k.icache| == NINODE && forall x :: 0 <= x < NINODE ==> k.icache[x].refs == 0
  {
    hide Sound, CacheOk, Mountable, Content, Marked, RootEntries, ZeroTail, Bytes, Concat, TotalCost, Whole;
    assert inum >= 2 ==> IsFile(f, 2 + (inum - 2), Concat(files[inum - 2]));
    k := OpenFresh(disk, f, inum);
    Unlocks(k.icache, f, 0);
    k.Iunlock(0);
    k.Iput(0);
  }

  lemma EmptyGet(c: seq<Inode>, inum: nat)
    requires c == seq(NINODE, _ => EmptyEntry())
    ensures GetSlot(c, inum) == 0
      && GotCache(c, inum)[0] == EmptyEntry().(inum := inum, refs := 1, busy := false, valid := false)
  {
  }

  /** Any file of any image mkfs makes reads back as what went into it, from any offset and for any
      length, and reading it leaves the image as mkfs made it. */
  method FilesReadBack(names: seq<seq<Byte>>, files: seq<seq<seq<Byte>>>, j: nat, off: nat, n: nat)
    returns (r: int, dst: seq<Byte>, after: seq<Block>, ghost f: Fs, ghost free: nat)
    requires |names| == |files| && Fits(files) && forall k :: 0 <= k < |names| ==> SLASH !in Stripped(names[k])
    requires j < |files| && off < TWO32 && n < TWO32
    ensures var c := Concat(files[j]);
            if off <= |c| && off <= (off + n) % TWO32 then dst == Clip(c, off, n) && r == |dst|
            else r == -1 && dst == []
    ensures Finished(f, free, names, files) && after == f.disk
  {
    hide Mountable, Content, Whole, RootEntries, ZeroTail, Concat, Marked, Fits;
    var img := MakeImage(names, files);
    f, free := img.fs, img.freeblock;
    assert IsFile(f, 2 + j, Concat(files[j]));
    var k;
    r, dst, k := ReadFresh(img.disk, f, 2 + j, off, n);
    after := k.disk;
  }

  /** The same for any interleaving of iappend calls on an image being built, once its bitmap is written. */
  method AppendsReadBack(img: Image, ops: seq<(nat, seq<Byte>)>, ghost goal: seq<nat>, inum: nat, off: nat, n: nat)
    returns (r: int, dst: seq<Byte>, after: seq<Block>)
    requires img.Valid() && |goal| == NINODES && Within(img.fs.ns, goal) && Expected(img.fs, ops, goal)
    requires forall k :: 0 <= k < |ops| ==> ops[k].0 < NINODES
    requires inum < NINODES && img.fs.tab[inum].typ != T_DEV && off < TWO32 && n < TWO32
    modifies img
    ensures var c := old(img.File(inum)) + Appended(ops, inum);
            if off <= |c| && off <= (off + n) % TWO32 then dst == Clip(c, off, n) && r == |dst|
            else r == -1 && dst == []
    ensures after == img.disk
  {
    hide Built, Bytes, SuperOk, SyncedBut, Content, TotalCost, Marked, FirstBits, Within, Expected, Appended, Mountable;
    img.AppendAll(ops, goal);
    ghost var g, free := img.fs, img.freeblock;
    assert Content(g.disk, g.tab[inum]) == old(img.File(inum)) + Appended(ops, inum);
    BuiltParts(g, free);
    img.Balloc(img.freeblock);
    ghost var x := img.disk[NINODEBLOCKS + 2];
    MapWritten(g, free, x);
    assert Whole(g, inum);
    var k;
    r, dst, k := ReadFresh(img.disk, WithMap(g, x), inum, off, n);
    MapContent(g, x, inum);
    after := k.disk;
  }

  lemma MapContent(f: Fs, x: Block, i: nat)
    requires WF(f) && SameBytes(f, WithMap(f, x)) && i < NINODES && Whole(f, i)
    ensures Content(WithMap(f, x).disk, f.tab[i]) == Content(f.disk, f.tab[i])
  {
    hide Bytes;
  }
}
