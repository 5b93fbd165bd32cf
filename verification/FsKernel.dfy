/** The kernel's files, A.ide/src/fs.c: block allocation in the free map, the inode cache, the walk over
    direct and indirect blocks, and reading and writing the bytes of a file. A buffer read by bread is
    the reader's until brelse publishes it; a buffer may not be asked for twice. */
module FsKernel {
  import opened FsFormat
  import opened FsState
  import opened FsAlloc
  import opened FsWrite

  const NINODE: nat := 50

  /** Buffers of the cache below: bread hands out something else than a buffer once all are out. */
  const NBUF: nat := 30

  /** An entry of the inode cache: the copy of inode inum, in use while refs > 0, read from the disk
      once valid. */
  datatype Inode = Inode(inum: nat, refs: nat, busy: bool, valid: bool, d: Dinode)

  function EmptyEntry(): (e: Inode)
    ensures DinodeWF(e.d) && e.refs == 0
  {
    Inode(0, 0, false, false, Dinode(0, 0, 0, 0, 0, 0, 0, 0, seq(NDIRECT + 1, _ => 0)))
  }

  /** Entries in use are of different inodes, and the ones read are what the inodes are. */
  ghost predicate CacheOk(c: seq<Inode>, f: Fs)
    requires WF(f)
  {
    && |c| == NINODE
    && (forall k :: 0 <= k < NINODE ==>
          DinodeWF(c[k].d) && (c[k].refs > 0 && c[k].valid ==> c[k].inum < NINODES && c[k].d == f.tab[c[k].inum]))
    && (forall k, l :: 0 <= k < l < NINODE && c[k].refs > 0 && c[l].refs > 0 ==> c[k].inum != c[l].inum)
  }

  /** Entry ip can be worked with. */
  predicate Loaded(c: seq<Inode>, ip: nat) {
    ip < NINODE && |c| == NINODE && c[ip].refs > 0 && c[ip].valid
  }

  lemma CacheFollows(c: seq<Inode>, f: Fs, g: Fs, ip: nat)
    requires WF(f) && WF(g) && CacheOk(c, f) && Loaded(c, ip)
    requires g.tab == f.tab[c[ip].inum := g.tab[c[ip].inum]]
    ensures CacheOk(c[ip := c[ip].(d := g.tab[c[ip].inum])], g)
  {
  }

  lemma CacheEntry(c: seq<Inode>, f: Fs, ip: nat)
    requires WF(f) && CacheOk(c, f) && Loaded(c, ip)
    ensures c[ip].inum < NINODES && c[ip].d == f.tab[c[ip].inum] && DinodeWF(c[ip].d)
  {
  }

  /** An entry may be locked, and one whose inode goes may be given up. */
  lemma CacheDiscards(c: seq<Inode>, f: Fs, g: Fs, ip: nat)
    requires WF(f) && WF(g) && CacheOk(c, f) && Loaded(c, ip)
    requires g.tab == f.tab[c[ip].inum := g.tab[c[ip].inum]]
    ensures CacheOk(c[ip := c[ip].(busy := true)], f)
    ensures CacheOk(c[ip := c[ip].(busy := false, valid := false, d := g.tab[c[ip].inum])], g)
  {
  }

  // ---- what bmap finds and does, case by case --------------------------------------------------

  lemma BlockThere(f: Fs, i: nat, bn: nat)
    requires i < NINODES && Sound(f, i, {}) && bn < f.ns[i]
    ensures bn < MAXFILE && NMETA <= P(f, i, bn) < FSSIZE
    ensures bn < NDIRECT ==> P(f, i, bn) == f.tab[i].addrs[bn]
    ensures bn >= NDIRECT ==> NMETA <= f.tab[i].addrs[NDIRECT] < FSSIZE
    ensures bn >= NDIRECT ==> P(f, i, bn) == Entry(f.disk[f.tab[i].addrs[NDIRECT]], bn - NDIRECT)
  {
    SoundParts(f, i, {});
    Blocks(f, i, 0);
    Blocks(f, i, bn);
  }

  lemma NextDirect(f: Fs, i: nat)
    requires i < NINODES && Sound(f, i, {}) && f.ns[i] < NDIRECT && |Free(f.disk)| >= 1
    ensures CanExtend(f, i)
    ensures var n, b := f.ns[i], Lowest(f.disk, 0);
            && f.tab[i].addrs[n] == 0 && NMETA <= b < FSSIZE && Extended(f, i).tab[i] == WithAddr(f.tab[i], n, b)
            && Extended(f, i).disk == WithBlock(f.disk, b) && P(Extended(f, i), i, n) == b
  {
    hide Sound, WithBlock, Lowest;
    SoundParts(f, i, {});
    Blocks(f, i, f.ns[i]);
    AllocatedKeeps(f, i, {});
  }

  /** Block b becomes the next one of file i through indirect block a, on that disk. */
  ghost predicate ExtendsThrough(f: Fs, i: nat, a: nat, disk: seq<Block>, b: nat)
    requires WF(f) && i < NINODES && CanExtend(f, i) && f.ns[i] >= NDIRECT
  {
    && IsDisk(disk) && NMETA <= a < FSSIZE && NMETA <= b < FSSIZE && b != a && b == Lowest(disk, 0)
    && Entry(disk[a], f.ns[i] - NDIRECT) == 0
    && Extended(f, i).tab[i] == WithAddr(f.tab[i], NDIRECT, a)
    && Extended(f, i).disk == WithBlock(disk, b)[a := WithEntry(disk[a], f.ns[i] - NDIRECT, b)]
    && P(Extended(f, i), i, f.ns[i]) == b
  }

  lemma NextIndirect(f: Fs, i: nat)
    requires i < NINODES && Sound(f, i, {}) && NDIRECT < f.ns[i] < MAXFILE && |Free(f.disk)| >= 1
    ensures CanExtend(f, i) && ExtendsThrough(f, i, f.tab[i].addrs[NDIRECT], f.disk, Lowest(f.disk, 0))
  {
    hide Sound, Lowest, WithEntry, Entry, WithBit, ZeroBlock, Fresh, Linked, Marked, SuperOk, MapBut, SyncedBut,
      SameBytes;
    SoundParts(f, i, {});
    Blocks(f, i, f.ns[i]);
    AllocatedKeeps(f, i, {});
    var a := f.tab[i].addrs[NDIRECT];
    EntryUpdate(f.disk[a], f.ns[i] - NDIRECT, Lowest(f.disk, 0), f.ns[i] - NDIRECT);
  }

  lemma FirstIndirect(f: Fs, i: nat)
    requires i < NINODES && Sound(f, i, {}) && f.ns[i] == NDIRECT && |Free(f.disk)| >= 2
    ensures CanExtend(f, i) && f.tab[i].addrs[NDIRECT] == 0
    ensures var a := Lowest(f.disk, 0);
            var d1 := WithBlock(f.disk, a);
            ExtendsThrough(f, i, a, d1, Lowest(d1, 0))
  {
    hide Sound, Lowest, WithEntry, WithBit, Entry, Linked, Marked, SuperOk;
    SoundParts(f, i, {});
    Blocks(f, i, f.ns[i]);
    AllocatedKeeps(f, i, {});
    var a := Lowest(f.disk, 0);
    AllocatedKeeps(Allocated(f, a), i, {} + {a});
    ZeroEntry(0);
    EntryUpdate(ZeroBlock(), 0, Lowest(WithBlock(f.disk, a), 0), 0);
  }

  lemma SuperWords(disk: seq<Block>)
    requires IsDisk(disk) && SuperOk(disk)
    ensures Word(disk[1], 0) == FSSIZE && Word(disk[1], 8) == NINODES
  {
  }

  lemma ClearIsLowest(disk: seq<Block>, b: nat)
    requires IsDisk(disk) && b <= FSSIZE
    requires (forall x :: 0 <= x < b ==> BitAt(disk[MAPBLOCK], x)) && (b < FSSIZE ==> !BitAt(disk[MAPBLOCK], b))
    ensures Lowest(disk, 0) == b
  {
    hide BitAt, Marked;
    forall x: nat | x < FSSIZE ensures Marked(disk, x) <==> BitAt(disk[MAPBLOCK], x) { MarkHere(disk, x); }
  }

  lemma MarkHere(disk: seq<Block>, b: nat)
    requires IsDisk(disk) && b < FSSIZE
    ensures Marked(disk, b) <==> BitAt(disk[MAPBLOCK], b)
  {
    hide BitAt;
  }

  /** balloc's scan of one map block: the first clear one of its first n bits, n if there is none. */
  method FirstClear(bp: Block, n: nat) returns (bi: nat)
    requires n <= BPB
    ensures bi <= n && forall x :: 0 <= x < bi ==> BitAt(bp, x)
    ensures bi < n ==> !BitAt(bp, bi)
  {
    hide BitAt;
    bi := 0;
    while bi < n
      invariant bi <= n && forall x :: 0 <= x < bi ==> BitAt(bp, x)
    {
      if !BitAt(bp, bi) {
        return;
      }
      bi := bi + 1;
    }
  }

  // ---- bmap on the disk and the inode -----------------------------------------------------------

  /** A disk, an inode and an address: what bmap leaves and returns. */
  datatype Walked = Walked(disk: seq<Block>, d: Dinode, addr: U32)

  /** What balloc returns: the first free block, or 0. */
  function Given(disk: seq<Block>): (b: U32)
    requires IsDisk(disk)
  {
    if Lowest(disk, 0) < FSSIZE then Lowest(disk, 0) else 0
  }

  function AfterBalloc(disk: seq<Block>): (r: seq<Block>)
    requires IsDisk(disk)
    ensures IsDisk(r)
  {
    if Lowest(disk, 0) < FSSIZE then WithBlock(disk, Lowest(disk, 0)) else disk
  }

  /** bmap below NDIRECT. */
  function DirectWalk(disk: seq<Block>, d: Dinode, bn: nat): Walked
    requires IsDisk(disk) && DinodeWF(d) && bn < NDIRECT
  {
    if d.addrs[bn] != 0 then Walked(disk, d, d.addrs[bn])
    else Walked(AfterBalloc(disk), WithAddr(d, bn, Given(disk)), Given(disk))
  }

  /** The second half of bmap: entry k of indirect block a, filled if it is empty. */
  function EntryWalk(disk: seq<Block>, d: Dinode, a: nat, k: nat): Walked
    requires IsDisk(disk) && a < FSSIZE && k < NINDIRECT
  {
    if Entry(disk[a], k) != 0 then Walked(disk, d, Entry(disk[a], k))
    else Walked(AfterBalloc(disk)[a := WithEntry(disk[a], k, Given(disk))], d, Given(disk))
  }

  /** The allocation of EntryWalk meets no block in use while block a is held. */
  predicate CanFill(disk: seq<Block>, a: nat, k: nat)
    requires IsDisk(disk) && k < NINDIRECT
  {
    a < FSSIZE && a != 1 && a != MAPBLOCK && (Entry(disk[a], k) == 0 ==> Lowest(disk, 0) != a)
  }

  predicate CanWalk(disk: seq<Block>, d: Dinode, k: nat)
    requires IsDisk(disk) && DinodeWF(d) && k < NINDIRECT
  {
    if d.addrs[NDIRECT] != 0 then CanFill(disk, d.addrs[NDIRECT], k)
    else CanFill(AfterBalloc(disk), Given(disk), k)
  }

  /** bmap past the direct blocks. With no block left the indirect block is taken to be block 0. */
  function IndirectWalk(disk: seq<Block>, d: Dinode, k: nat): Walked
    requires IsDisk(disk) && DinodeWF(d) && k < NINDIRECT && CanWalk(disk, d, k)
  {
    var a := Given(disk);
    if d.addrs[NDIRECT] != 0 then EntryWalk(disk, d, d.addrs[NDIRECT], k)
    else EntryWalk(AfterBalloc(disk), WithAddr(d, NDIRECT, a), a, k)
  }

  /** bmap brings the file to where its block bn is sure to be there, and finds it. */
  lemma DirectIs(f: Fs, i: nat, bn: nat)
    requires i < NINODES && Sound(f, i, {}) && bn <= f.ns[i] && bn < NDIRECT
    requires bn == f.ns[i] ==> |Free(f.disk)| >= Takes(bn)
    ensures bn == f.ns[i] ==> CanExtend(f, i)
    ensures var g := Reached(f, i, bn); DirectWalk(f.disk, f.tab[i], bn) == Walked(g.disk, g.tab[i], P(g, i, bn))
  {
    hide Sound, P, WithBlock, Lowest, CanExtend, Extended;
    SoundParts(f, i, {});
    if bn < f.ns[i] { BlockThere(f, i, bn); } else { NextDirect(f, i); }
  }

  lemma IndirectIs(f: Fs, i: nat, bn: nat)
    requires i < NINODES && Sound(f, i, {}) && bn <= f.ns[i] && NDIRECT <= bn < MAXFILE
    requires bn == f.ns[i] ==> |Free(f.disk)| >= Takes(bn)
    ensures CanWalk(f.disk, f.tab[i], bn - NDIRECT)
    ensures bn == f.ns[i] ==> CanExtend(f, i)
    ensures var g := Reached(f, i, bn);
            IndirectWalk(f.disk, f.tab[i], bn - NDIRECT) == Walked(g.disk, g.tab[i], P(g, i, bn))
  {
    hide Sound, P, WithBlock, Lowest, CanExtend, Extended, Entry, WithEntry;
    SoundParts(f, i, {});
    var d := f.tab[i];
    assert d.addrs[NDIRECT := d.addrs[NDIRECT]] == d.addrs;
    if bn < f.ns[i] {
      BlockThere(f, i, bn);
    } else if bn == NDIRECT {
      FirstIndirect(f, i);
    } else {
      NextIndirect(f, i);
    }
  }

  // ---- a full disk ---------------------------------------------------------------------------------

  /** bmap would have to take more blocks for the next one of file i than there are. */
  ghost predicate RunsOut(f: Fs, i: nat, bn: nat)
    requires WF(f) && i < NINODES
  {
    bn == f.ns[i] < MAXFILE && |Free(f.disk)| < Takes(bn)
  }

  lemma NotOut(f: Fs, i: nat, bn: nat)
    requires WF(f) && i < NINODES
    ensures RunsOut(f, i, bn) <==> bn < MAXFILE && bn == f.ns[i] && |Free(f.disk)| < Takes(bn)
    ensures RunsOut(f, i, bn) && bn < NDIRECT ==> AddressThen(f.disk, bn) == 0 && DiskThen(f.disk, bn) == f.disk
  {
  }

  /** What bmap then leaves on the disk: a single free block went to the indirect block. */
  function DiskThen(disk: seq<Block>, bn: nat): (r: seq<Block>)
    requires IsDisk(disk)
    ensures IsDisk(r)
  {
    if bn == NDIRECT then AfterBalloc(disk) else disk
  }

  function InodeThen(disk: seq<Block>, d: Dinode, bn: nat): (r: Dinode)
    requires IsDisk(disk) && DinodeWF(d)
    ensures DinodeWF(r)
  {
    if bn == NDIRECT then WithAddr(d, NDIRECT, Given(disk)) else d
  }

  /** What bmap then returns: 0, or, where block 0 was taken for the indirect block, the first word in it. */
  function AddressThen(disk: seq<Block>, bn: nat): U32
    requires IsDisk(disk)
  {
    if bn == NDIRECT && Given(disk) == 0 then Entry(disk[0], 0) else 0
  }

  lemma ZeroStored(b: Block, k: nat)
    requires k < NINDIRECT && Entry(b, k) == 0
    ensures WithEntry(b, k, 0) == b
  {
  }

  /** Below NDIRECT. */
  lemma DirectOut(f: Fs, i: nat, bn: nat)
    requires i < NINODES && Sound(f, i, {}) && RunsOut(f, i, bn) && bn < NDIRECT
    ensures DirectWalk(f.disk, f.tab[i], bn) == Walked(f.disk, f.tab[i], 0)
  {
    hide Sound, Lowest, WithBlock;
    SoundParts(f, i, {});
    Blocks(f, i, bn);
    LowestFree(f.disk);
    var d := f.tab[i];
    assert d.addrs[bn := d.addrs[bn]] == d.addrs;
  }

  /** Past it. */
  lemma IndirectOut(f: Fs, i: nat, bn: nat)
    requires i < NINODES && Sound(f, i, {}) && RunsOut(f, i, bn) && NDIRECT <= bn
    ensures CanWalk(f.disk, f.tab[i], bn - NDIRECT)
    ensures IndirectWalk(f.disk, f.tab[i], bn - NDIRECT) ==
            Walked(DiskThen(f.disk, bn), InodeThen(f.disk, f.tab[i], bn), AddressThen(f.disk, bn))
  {
    hide Sound, Lowest, WithBlock, Entry, WithEntry;
    SoundParts(f, i, {});
    Blocks(f, i, bn);
    LowestFree(f.disk);
    if bn == NDIRECT { FirstOut(f, i); } else { LaterOut(f, i, bn); }
  }

  lemma LaterOut(f: Fs, i: nat, bn: nat)
    requires i < NINODES && Sound(f, i, {}) && RunsOut(f, i, bn) && NDIRECT < bn
    ensures CanWalk(f.disk, f.tab[i], bn - NDIRECT)
    ensures IndirectWalk(f.disk, f.tab[i], bn - NDIRECT) == Walked(f.disk, f.tab[i], 0)
  {
    hide Sound, Lowest, WithBlock, Entry, WithEntry, Free, Marked, SuperOk, MapBut, SyncedBut;
    SoundParts(f, i, {});
    Blocks(f, i, bn);
    LowestFree(f.disk);
    var a := f.tab[i].addrs[NDIRECT];
    ZeroStored(f.disk[a], bn - NDIRECT);
    assert f.disk[a := f.disk[a]] == f.disk;
  }

  lemma FirstOut(f: Fs, i: nat)
    requires i < NINODES && Sound(f, i, {}) && RunsOut(f, i, NDIRECT)
    ensures CanWalk(f.disk, f.tab[i], 0)
    ensures IndirectWalk(f.disk, f.tab[i], 0) ==
            Walked(DiskThen(f.disk, NDIRECT), InodeThen(f.disk, f.tab[i], NDIRECT), AddressThen(f.disk, NDIRECT))
  {
    hide Sound, Lowest, WithBit, Entry, WithEntry, Marked, Free;
    SoundParts(f, i, {});
    Blocks(f, i, NDIRECT);
    LowestFree(f.disk);
    var d, a := f.disk, Given(f.disk);
    if Lowest(d, 0) < FSSIZE {
      AllocatedKeeps(f, i, {});
      LowestFree(AfterBalloc(d));
      ZeroEntry(0);
    }
    assert Entry(AfterBalloc(d)[a], 0) == 0 ==> WithEntry(AfterBalloc(d)[a], 0, 0) == AfterBalloc(d)[a] by {
      if Entry(AfterBalloc(d)[a], 0) == 0 { ZeroStored(AfterBalloc(d)[a], 0); }
    }
    assert AfterBalloc(d)[a := AfterBalloc(d)[a]] == AfterBalloc(d);
  }

  /** After passes for which there were blocks enough, the next one runs out exactly when there are too few for it. */
  lemma RoomExactly(f0: Fs, f: Fs, i: nat, off: nat, s: seq<Byte>, len: nat)
    requires WF(f0) && WF(f) && i < NINODES && Writing(f0, f, i, off, s) && Whole(f0, i) && off <= f0.tab[i].size
    requires var o := off + |s|; 0 < len && o % BSIZE + len <= BSIZE && o + len <= MAXBYTES
    ensures Enough(f0, i, off + |s| + len) <==> !RunsOut(f, i, (off + |s|) / BSIZE)
  {
    hide Bytes, Free;
    PartBlocks(off + |s|, len);
    BlocksMonotone(off, f0.tab[i].size);
  }

  lemma EnoughAlready(f: Fs, i: nat, off: nat)
    requires WF(f) && i < NINODES && Whole(f, i) && off <= f.tab[i].size
    ensures Enough(f, i, off)
  {
    BlocksMonotone(off, f.tab[i].size);
  }

  /** Block 0 is as it was when the blocks run out, and bmap returns 0 unless block 0 names another. */
  lemma BootKept(f0: Fs, f: Fs, i: nat, off: nat, s: seq<Byte>, bn: nat)
    requires WF(f0) && i < NINODES && Sound(f, i, {}) && Writing(f0, f, i, off, s) && RunsOut(f, i, bn)
    requires bn == NDIRECT ==> Entry(f0.disk[0], 0) == 0
    ensures f.disk[0] == f0.disk[0] == DiskThen(f.disk, bn)[0] && AddressThen(f.disk, bn) == 0 && bn <= f.ns[i]
  {
    hide Sound, Bytes, Entry, Lowest, WithBlock;
    SoundParts(f, i, {});
    LowestFree(f.disk);
    if bn == NDIRECT && Lowest(f.disk, 0) < FSSIZE { AllocatedKeeps(f, i, {}); }
  }

  /** What a write that runs out of blocks after t bytes has done by the end of the pass that did: f is the file
      system with the parts before it in place, and the part of that pass lies over block 0, where the machine
      boots from. */
  ghost predicate Shorted(f0: Fs, f: Fs, disk: seq<Block>, i: nat, off: nat, src: seq<Byte>, t: nat)
    requires WF(f0) && WF(f) && i < NINODES && t < |src|
  {
    var o := off + t;
    var d, part := DiskThen(f.disk, o / BSIZE), src[t..t + PassLen(off, t, |src|)];
    && Sound(f, i, {}) && Writing(f0, f, i, off, src[..t]) && (t == 0 ==> f == f0) && RunsOut(f, i, o / BSIZE)
    && d[0] == f0.disk[0] && disk == d[0 := Overwrite(d[0], o % BSIZE, part)]
  }

  /** The length of the pass after t of n bytes. */
  function PassLen(off: nat, t: nat, n: nat): (m: nat)
    requires t <= n
    ensures (off + t) % BSIZE + m <= BSIZE && t + m <= n
  {
    Min(n - t, BSIZE - (off + t) % BSIZE)
  }

  /** A pass of writei's loop starts after t bytes: at the first of all, or at a block. */
  predicate PassStart(off: nat, t: nat) { t == 0 || (off + t) % BSIZE == 0 }

  /** No pass goes past the start of another. */
  lemma PassFits(off: nat, tot: nat, t: nat, n: nat)
    requires tot < t <= n && (PassStart(off, t) || t == n)
    ensures tot + Min(n - tot, BSIZE - (off + tot) % BSIZE) <= t
  {
    var q, r := (off + tot) / BSIZE, (off + t) / BSIZE;
    assert off + tot == q * BSIZE + (off + tot) % BSIZE && off + t == r * BSIZE + (off + t) % BSIZE;
  }

  lemma StartsAtFirst(off: nat)
    ensures PassStart(off, 0)
  {
  }

  lemma NextStart(off: nat, t: nat, n: nat)
    requires t < n
    ensures 0 < PassLen(off, t, n) && (t + PassLen(off, t, n) == n || PassStart(off, t + PassLen(off, t, n)))
  {
    var q, r := (off + t) / BSIZE, (off + t) % BSIZE;
    assert off + t + (BSIZE - r) == (q + 1) * BSIZE;
  }

  /** A write for which there are too few blocks has a pass that is the first to be short of them. */
  lemma ShortPass(f: Fs, i: nat, off: nat, n: nat) returns (t: nat, len: nat)
    requires WF(f) && i < NINODES && Whole(f, i) && off <= f.tab[i].size && !Enough(f, i, off + n)
    ensures t < n && len == PassLen(off, t, n)
    ensures PassStart(off, t) && Enough(f, i, off + t) && !Enough(f, i, off + t + len)
  {
    hide Enough, Whole, PassStart, PassLen;
    EnoughAlready(f, i, off);
    assert off + 0 == off && PassStart(off, 0) by { StartsAtFirst(off); }
    t, len := 0, PassLen(off, 0, n);
    while Enough(f, i, off + t + len)
      invariant t < n && len == PassLen(off, t, n) && Enough(f, i, off + t) && PassStart(off, t)
      decreases n - t
    {
      NextStart(off, t, n);
      t := t + len;
      len := PassLen(off, t, n);
    }
  }

  // ---- inodes ------------------------------------------------------------------------------------

  /** What iupdate leaves on the disk: all of d but its owner and group, which stay as they were. */
  function Updated(was: Dinode, d: Dinode): Dinode {
    d.(ownerid := was.ownerid, groupid := was.groupid)
  }

  /** On the disk inode i became d, but for its owner and group, and no other inode changed. */
  ghost predicate UpdateIs(was: seq<Block>, disk: seq<Block>, i: nat, d: Dinode) {
    && IsDisk(was) && IsDisk(disk) && i < NINODES
    && (forall j :: 0 <= j < NINODES && j != i ==> DiskInode(disk, j) == DiskInode(was, j))
    && var e := DiskInode(was, i);
    DiskInode(disk, i) ==
      Dinode(d.typ, d.major, d.minor, d.nlink, e.ownerid, e.groupid, d.mode, d.size, d.addrs)
  }

  lemma UpdateHere(was: seq<Block>, i: nat, d: Dinode)
    requires IsDisk(was) && i < NINODES && DinodeWF(d)
    ensures UpdateIs(was, WithDiskInode(was, i, Updated(DiskInode(was, i), d)), i, d)
  {
    hide DiskInode, WithDiskInode;
    var u := Updated(DiskInode(was, i), d);
    forall j: nat | j < NINODES
      ensures DiskInode(WithDiskInode(was, i, u), j) == if j == i then u else DiskInode(was, j)
    {
      DiskInodeWritten(was, i, u, j);
    }
  }

  /** The first entry from k on that is in use for inode inum, NINODE if there is none. */
  function Find(c: seq<Inode>, inum: nat, k: nat): (r: nat)
    requires |c| == NINODE && k <= NINODE
    ensures k <= r <= NINODE && (r < NINODE ==> c[r].refs > 0 && c[r].inum == inum)
    ensures forall x :: k <= x < r ==> !(c[x].refs > 0 && c[x].inum == inum)
    decreases NINODE - k
  {
    if k == NINODE || (c[k].refs > 0 && c[k].inum == inum) then k else Find(c, inum, k + 1)
  }

  /** The first unused entry from k on, NINODE if there is none. */
  function Unused(c: seq<Inode>, k: nat): (r: nat)
    requires |c| == NINODE && k <= NINODE
    ensures k <= r <= NINODE && (r < NINODE ==> c[r].refs == 0)
    ensures forall x :: k <= x < r ==> c[x].refs > 0
    decreases NINODE - k
  {
    if k == NINODE || c[k].refs == 0 then k else Unused(c, k + 1)
  }

  /** The entry iget returns; NINODE stands for the null pointer. */
  function GetSlot(c: seq<Inode>, inum: nat): (r: nat)
    requires |c| == NINODE
    ensures r <= NINODE
  {
    if Find(c, inum, 0) < NINODE then Find(c, inum, 0) else Unused(c, 0)
  }

  /** The cache iget leaves. */
  function GotCache(c: seq<Inode>, inum: nat): (r: seq<Inode>)
    requires |c| == NINODE
    ensures |r| == NINODE
  {
    var ip := GetSlot(c, inum);
    if ip == NINODE then c
    else if Find(c, inum, 0) < NINODE then c[ip := c[ip].(refs := c[ip].refs + 1)]
    else c[ip := c[ip].(inum := inum, refs := 1, busy := false, valid := false)]
  }

  /** iget keeps one entry for each inode in use, and never touches another one in use. */
  lemma GotKeeps(c: seq<Inode>, f: Fs, inum: nat)
    requires WF(f) && CacheOk(c, f)
    ensures CacheOk(GotCache(c, inum), f)
    ensures var ip := GetSlot(c, inum);
            && (ip < NINODE ==> GotCache(c, inum)[ip].inum == inum && GotCache(c, inum)[ip].refs == c[ip].refs + 1)
            && (ip < NINODE && c[ip].refs > 0 ==> GotCache(c, inum)[ip] == c[ip].(refs := c[ip].refs + 1))
            && (ip < NINODE && c[ip].refs == 0 ==>
                  && GotCache(c, inum)[ip] == Inode(inum, 1, false, false, c[ip].d)
                  && forall k :: 0 <= k < ip ==> c[k].refs > 0)
            && (forall k :: 0 <= k < NINODE && k != ip ==> GotCache(c, inum)[k] == c[k])
            && (ip == NINODE ==> forall k :: 0 <= k < NINODE ==> c[k].refs > 0 && c[k].inum != inum)
  {
    hide Find, Unused;
  }

  /** Storing an inode the way iupdate does puts the disk right for it. */
  lemma UpdatedKeeps(f: Fs, i: nat, d: Dinode)
    requires i < NINODES && Sound(f, i, {}) && DinodeWF(d) && d.addrs == f.tab[i].addrs
    ensures Sound(Stored(f, i, d), -1, {}) && SameBytes(f, Stored(f, i, d))
      && Free(Stored(f, i, d).disk) == Free(f.disk)
  {
    hide Linked, SyncedBut, SuperOk, SameBytes, Marked, WithInode;
    StoredKeeps(f, i, d);
    SameMap(f.disk, Stored(f, i, d).disk);
  }

  /** An offset inside a file is in one of its blocks. */
  lemma WithinBlocks(f: Fs, i: nat, off: nat)
    requires WF(f) && i < NINODES && Whole(f, i) && off < f.tab[i].size
    ensures off / BSIZE < f.ns[i] && off / BSIZE < MAXFILE
  {
  }

  /** The content is the bytes up to the size. */
  lemma ContentSlice(f: Fs, i: nat, a: nat, b: nat)
    requires WF(f) && i < NINODES && Whole(f, i) && a <= b <= f.tab[i].size
    ensures f.tab[i].size <= MAXBYTES && |Bytes(f.disk, f.tab[i])| == MAXBYTES
    ensures Content(f.disk, f.tab[i])[a..b] == Bytes(f.disk, f.tab[i])[a..b]
  {
    hide Bytes;
  }

  lemma Joined(b: seq<Byte>, x: nat, y: nat, z: nat)
    requires x <= y <= z <= |b|
    ensures b[x..y] + b[y..z] == b[x..z]
  {
  }

  /** readi and writei go ahead: not a device, and off + n neither starts past the end nor wraps. */
  predicate InFile(d: Dinode, off: nat, n: nat) {
    d.typ != T_DEV && off <= d.size && off <= (off + n) % TWO32
  }

  lemma SoundWeaker(f: Fs, i: nat)
    requires Sound(f, -1, {})
    ensures Sound(f, i, {})
  {
    hide Linked, MapBut, SuperOk, DiskInode;
  }

  /** Writing nothing leaves the state itself. */
  lemma WroteNothing(f: Fs, i: nat, off: nat)
    requires WF(f) && i < NINODES && Whole(f, i) && off <= f.tab[i].size
    ensures Wrote(f, f, i, off, [])
  {
    hide Bytes;
    var b := Bytes(f.disk, f.tab[i]);
    assert Overwrite(b, off, []) == b;
    assert f.tab[i := f.tab[i]] == f.tab && f.ns[i := f.ns[i]] == f.ns;
  }

  /** The end of writei: the new size, stored if the file grew. */
  lemma WriteEnds(f0: Fs, f: Fs, i: nat, off: nat, s: seq<Byte>)
    requires i < NINODES && Sound(f0, -1, {}) && Sound(f, i, {}) && Writing(f0, f, i, off, s)
    requires Whole(f0, i) && off <= f0.tab[i].size && s != []
    ensures DiskInode(f.disk, i) == f0.tab[i]
    ensures off + |s| <= f0.tab[i].size ==> Sound(f, -1, {}) && Wrote(f0, f, i, off, s)
    ensures off + |s| > f0.tab[i].size ==>
      var g := Stored(f, i, f.tab[i].(size := off + |s|)); Sound(g, -1, {}) && Wrote(f0, g, i, off, s)
  {
    hide Bytes, Free, DiskInode, WithDiskInode, SuperOk, MapBut, BlocksFor, Cost;
    DiskInodeSame(f0, f, i);
    SoundParts(f, i, {});
    if off + |s| <= f0.tab[i].size {
      BlocksMonotone(off + |s|, f0.tab[i].size);
      assert f0.ns[i := f0.ns[i]] == f0.ns;
    } else {
      BlocksMonotone(f0.tab[i].size, off + |s|);
      UpdatedKeeps(f, i, f.tab[i].(size := off + |s|));
    }
  }

  lemma DiskInodeSame(f0: Fs, f: Fs, i: nat)
    requires i < NINODES && WF(f0) && WF(f) && SyncedBut(f0, -1) && MetaSame(f0.disk, f.disk)
    ensures DiskInode(f.disk, i) == f0.tab[i]
  {
    hide InodeAt;
    assert DiskInode(f0.disk, i) == f0.tab[i];
  }

  /** writei goes through. */
  predicate Writable(d: Dinode, off: nat, n: nat) {
    InFile(d, off, n) && off + n <= MAXBYTES
  }

  lemma EnoughFor(f: Fs, i: nat, a: nat, b: nat)
    requires WF(f) && i < NINODES && a <= b && Enough(f, i, b)
    ensures Enough(f, i, a)
  {
    BlocksMonotone(a, b);
  }

  lemma CacheSameTab(c: seq<Inode>, f: Fs, g: Fs)
    requires WF(f) && WF(g) && CacheOk(c, f) && g.tab == f.tab
    ensures CacheOk(c, g)
  {
  }

  /** While writei is at work the inode in memory has only its addresses changed. */
  lemma WritingInode(f0: Fs, f: Fs, i: nat, off: nat, s: seq<Byte>)
    requires WF(f0) && WF(f) && i < NINODES && Writing(f0, f, i, off, s)
    ensures f.tab[i] == f0.tab[i].(addrs := f.tab[i].addrs) && off + |s| <= MAXBYTES
    ensures f.tab[i].typ == f0.tab[i].typ && f.tab[i].size == f0.tab[i].size
  {
  }

  // ---- cutting a file ----------------------------------------------------------------------------

  /** Inode d with its first n addresses cleared. */
  function Cleared(d: Dinode, n: nat): (r: Dinode)
    requires DinodeWF(d) && n <= NDIRECT + 1
    ensures DinodeWF(r)
  {
    d.(addrs := seq(NDIRECT + 1, k requires 0 <= k < NDIRECT + 1 => if k < n then 0 else d.addrs[k]))
  }

  lemma ClearedNext(d: Dinode, n: nat)
    requires DinodeWF(d) && n <= NDIRECT
    ensures Cleared(d, 0) == d && Cleared(d, n).addrs[n] == d.addrs[n]
    ensures Cleared(d, n + 1) == WithAddr(Cleared(d, n), n, 0)
    ensures d.addrs[n] == 0 ==> Cleared(d, n + 1) == Cleared(d, n)
    ensures Cleared(d, NDIRECT + 1).(size := 0) == CutInode(d)
  {
    assert Cleared(d, 0).addrs == d.addrs;
    assert Cleared(d, n + 1).addrs == WithAddr(Cleared(d, n), n, 0).addrs;
    assert d.addrs[n] == 0 ==> Cleared(d, n + 1).addrs == Cleared(d, n).addrs;
    assert Cleared(d, NDIRECT + 1).addrs == CutInode(d).addrs;
  }

  lemma FreedParts(f: Fs, disk: seq<Block>, i: nat, n: nat)
    requires WF(f) && i < NINODES && SuperOk(f.disk) && Freed(f, disk, i, n)
    ensures IsDisk(disk) && SuperOk(disk)
    ensures forall b :: 0 <= b < FSSIZE && b != MAPBLOCK ==> disk[b] == f.disk[b]
  {
    hide Free, Marked, Among;
  }

  lemma SlotAddress(f: Fs, i: nat, n: nat)
    requires Linked(f) && i < NINODES && n <= MAXFILE
    ensures n < NDIRECT ==> P(f, i, n) == f.tab[i].addrs[n]
    ensures n == MAXFILE ==> P(f, i, n) == f.tab[i].addrs[NDIRECT]
    ensures f.tab[i].addrs[NDIRECT] != 0 ==> NMETA <= f.tab[i].addrs[NDIRECT] < FSSIZE
    ensures f.tab[i].addrs[NDIRECT] == 0 ==> f.ns[i] <= NDIRECT
    ensures NDIRECT <= n < MAXFILE && f.tab[i].addrs[NDIRECT] != 0 ==>
              P(f, i, n) == Entry(f.disk[f.tab[i].addrs[NDIRECT]], n - NDIRECT)
  {
    Blocks(f, i, if n < MAXFILE then n else 0);
  }

  /** From f to g file i lost all it had, its inode becoming d: its blocks are free again, exactly
      those, and nothing else changed. */
  ghost predicate Emptied(f: Fs, g: Fs, i: nat, d: Dinode)
    requires WF(f) && WF(g) && i < NINODES
  {
    && g.tab == f.tab[i := d] && g.ns == f.ns[i := 0] && OthersSame(f, g, i)
    && (forall b :: 0 <= b < FSSIZE ==>
          (Marked(g.disk, b) <==> Marked(f.disk, b) && !(b in f.owner && f.owner[b].i == i)))
    && |Free(g.disk)| == |Free(f.disk)| + Cost(f.ns[i])
  }

  /** The end of itrunc: the emptied inode is stored. */
  lemma TruncEnds(f: Fs, disk: seq<Block>, i: nat)
    requires i < NINODES && Sound(f, -1, {}) && Freed(f, disk, i, MAXFILE + 1)
    ensures var c := Cut(f, disk, i);
            var g := Stored(c, i, c.tab[i]);
            DiskInode(disk, i) == f.tab[i] && Sound(g, -1, {}) && Emptied(f, g, i, CutInode(f.tab[i]))
  {
    hide Linked, SyncedBut, SuperOk, Marked, Free, Bytes, DiskInode, WithDiskInode;
    SoundWeaker(f, i);
    CutKeeps(f, disk, i);
    var c := Cut(f, disk, i);
    DiskInodeSame(f, c, i);
    UpdatedKeeps(c, i, c.tab[i]);
    var g := Stored(c, i, c.tab[i]);
    FreeIsMarked(g.disk, c.disk);
    OwnersAreSlots(f);
    assert forall b :: Among(f, i, MAXFILE + 1, b) <==> b in f.owner && f.owner[b].i == i;
  }

  /** iput marks the emptied inode free. */
  lemma InodeFreed(f: Fs, g: Fs, i: nat)
    requires WF(f) && WF(g) && i < NINODES && Sound(g, -1, {}) && Emptied(f, g, i, CutInode(f.tab[i]))
    ensures var d := CutInode(f.tab[i]).(typ := 0);
            && DiskInode(g.disk, i) == g.tab[i]
            && Sound(Stored(g, i, d), -1, {}) && Emptied(f, Stored(g, i, d), i, d)
  {
    hide Linked, SuperOk, Marked, Free, Bytes, DiskInode, WithDiskInode;
    var d := CutInode(f.tab[i]).(typ := 0);
    SoundWeaker(g, i);
    UpdatedKeeps(g, i, d);
    FreeIsMarked(g.disk, Stored(g, i, d).disk);
  }

  lemma EmptiedInode(f: Fs, g: Fs, i: nat, d: Dinode)
    requires WF(f) && WF(g) && i < NINODES && Emptied(f, g, i, d)
    ensures g.tab == f.tab[i := d]
  {
  }

  lemma FreeIsMarked(a: seq<Block>, b: seq<Block>)
    requires IsDisk(a) && IsDisk(b) && Free(a) == Free(b)
    ensures forall x :: 0 <= x < FSSIZE ==> (Marked(a, x) <==> Marked(b, x))
  {
    hide Marked;
    forall x: nat | x < FSSIZE ensures Marked(a, x) <==> Marked(b, x) {
      assert x in Free(a) <==> x in Free(b);
    }
  }

  // ---- the class ---------------------------------------------------------------------------------

  class FileSys {
    var disk: seq<Block>
    var held: set<nat>
    var icache: seq<Inode>
    ghost var fs: Fs

    /** Nothing is held and the cache and the disk agree, but for the copy on disk of inode i. */
    ghost predicate Coherent(i: int)
      reads this
    {
      WF(fs) && fs.disk == disk && held == {} && Sound(fs, i, {}) && CacheOk(icache, fs)
    }

    ghost predicate Valid()
      reads this
    {
      Coherent(-1)
    }

    /** The kernel as it starts on a disk, its inode cache zeroed memory. */
    constructor Mount(d: seq<Block>, ghost f: Fs)
      requires Mountable(f) && f.disk == d
      ensures Valid() && fs == f && icache == seq(NINODE, _ => EmptyEntry())
    {
      disk, held, icache := d, {}, seq(NINODE, _ => EmptyEntry());
      fs := f;
      new;
      hide Linked, SyncedBut, SuperOk, Marked;
    }

    // ---- buffers -----------------------------------------------------------------------------

    method Bread(b: nat) returns (data: Block)
      requires IsDisk(disk) && b < FSSIZE && b !in held && |held| < NBUF
      modifies `held
      ensures held == old(held) + {b} && data == disk[b]
    {
      data := disk[b];
      held := held + {b};
    }

    method Brelse(b: nat, data: Block)
      requires IsDisk(disk) && b < FSSIZE && b in held
      modifies `held, `disk
      ensures held == old(held) - {b} && disk == old(disk)[b := data]
    {
      disk := disk[b := data];
      held := held - {b};
    }

    method Readsb() returns (size: nat, ninodes: nat)
      requires IsDisk(disk) && 1 !in held && |held| < NBUF
      modifies `held, `disk
      ensures held == old(held) && disk == old(disk) && size == Word(disk[1], 0) && ninodes == Word(disk[1], 8)
    {
      var bp := Bread(1);
      size, ninodes := Word(bp, 0), Word(bp, 8);
      Brelse(1, bp);
      assert old(disk)[1 := old(disk)[1]] == old(disk);
    }

    method Bzero(bno: nat)
      requires IsDisk(disk) && bno < FSSIZE && bno !in held && |held| < NBUF
      modifies `held, `disk
      ensures held == old(held) && disk == old(disk)[bno := ZeroBlock()]
    {
      var bp := Bread(bno);
      bp := ZeroBlock();
      Brelse(bno, bp);
    }

    // ---- the free map ------------------------------------------------------------------------

    /** Takes the first free block and zeroes it; 0 if there is none. */
    method Balloc() returns (b: nat)
      requires IsDisk(disk) && SuperOk(disk) && 1 !in held && MAPBLOCK !in held && Lowest(disk, 0) !in held
      requires |held| < NBUF
      modifies `held, `disk
      ensures held == old(held) && b == Given(old(disk)) && disk == AfterBalloc(old(disk))
    {
      hide BitAt, WithBit, Word, ZeroBlock, Lowest;
      SuperWords(disk);
      var size, ninodes := Readsb();
      b := 0;
      while b < size
        invariant disk == old(disk) && held == old(held)
        invariant b == 0 || (b == BPB && Lowest(disk, 0) == FSSIZE)
      {
        var bno := BBLOCK(b, ninodes);
        var bp := Bread(bno);
        var bi := FirstClear(bp, Min(BPB, size - b));
        ClearIsLowest(disk, bi);
        if bi < BPB && b + bi < size {
          bp := WithBit(bp, bi);
          Brelse(bno, bp);
          Bzero(b + bi);
          b := b + bi;
          return;
        }
        Brelse(bno, bp);
        assert old(disk)[bno := old(disk)[bno]] == old(disk);
        b := b + BPB;
      }
      b := 0;
    }

    /** Clears the mark of block b. A block that is not marked is left alone, and its map block is never
        released. */
    method Bfree(b: nat)
      requires IsDisk(disk) && SuperOk(disk) && 1 !in held && MAPBLOCK !in held && b < FSSIZE && |held| < NBUF
      modifies `held, `disk
      ensures Marked(old(disk), b) ==> held == old(held) && disk == WithoutBlock(old(disk), b)
      ensures !Marked(old(disk), b) ==> held == old(held) + {MAPBLOCK} && disk == old(disk)
    {
      hide BitAt, WithoutBit, Word;
      var size, ninodes := Readsb();
      var bno := BBLOCK(b, ninodes);
      var bp := Bread(bno);
      var bi := b % BPB;
      if !BitAt(bp, bi) {
        return;
      }
      bp := WithoutBit(bp, bi);
      Brelse(bno, bp);
    }

    // ---- the walk over a file's blocks -------------------------------------------------------

    /** The block of data block bn of the file in entry ip, given to it if bn is just past its end. When there
        is none to give, the address is 0, or what AddressThen says. */
    method Bmap(ip: nat, bn: nat) returns (addr: nat)
      requires Loaded(icache, ip) && Coherent(icache[ip].inum) && icache[ip].inum < NINODES
      requires bn < MAXFILE ==> bn <= fs.ns[icache[ip].inum]
      modifies this
      ensures bn >= MAXFILE ==>
        addr == TWO32 - 1 && fs == old(fs) && icache == old(icache) && disk == old(disk) && held == {}
      ensures bn < MAXFILE && !RunsOut(old(fs), old(icache)[ip].inum, bn) ==>
        var i := old(icache)[ip].inum;
        && Coherent(i) && (bn == old(fs).ns[i] ==> CanExtend(old(fs), i)) && fs == Reached(old(fs), i, bn)
        && addr == P(fs, i, bn) && NMETA <= addr < FSSIZE
        && icache == old(icache)[ip := old(icache)[ip].(d := fs.tab[i])]
      ensures RunsOut(old(fs), old(icache)[ip].inum, bn) ==>
        && held == {} && fs == old(fs) && addr == AddressThen(old(disk), bn) && disk == DiskThen(old(disk), bn)
        && icache == old(icache)[ip := old(icache)[ip].(d := InodeThen(old(disk), old(icache)[ip].d, bn))]
    {
      hide Sound, P, Reached, CanExtend, Free, CacheOk, DirectWalk, IndirectWalk, CanWalk, SuperOk, MapBut,
        SyncedBut, Linked, Lowest, RunsOut, AddressThen, DiskThen;
      ghost var i, f := icache[ip].inum, fs;
      SoundParts(f, i, {});
      CacheEntry(icache, f, ip);
      ghost var out := RunsOut(f, i, bn);
      NotOut(f, i, bn);
      if bn < NDIRECT {
        if out { DirectOut(f, i, bn); } else { DirectIs(f, i, bn); }
        addr := BmapDirect(ip, bn);
      } else if bn - NDIRECT < NINDIRECT {
        if out { IndirectOut(f, i, bn); } else { IndirectIs(f, i, bn); }
        addr := BmapIndirect(ip, bn - NDIRECT);
      } else {
        return TWO32 - 1;
      }
      if !out {
        ReachedKeeps(f, i, bn);
        fs := Reached(f, i, bn);
        CacheFollows(old(icache), f, fs, ip);
      }
    }

    method BmapDirect(ip: nat, bn: nat) returns (addr: nat)
      requires IsDisk(disk) && SuperOk(disk) && held == {} && ip < |icache| && DinodeWF(icache[ip].d) && bn < NDIRECT
      modifies this`disk, this`held, this`icache
      ensures held == {}
      ensures var w := DirectWalk(old(disk), old(icache)[ip].d, bn);
              addr == w.addr && disk == w.disk && icache == old(icache)[ip := old(icache)[ip].(d := w.d)]
    {
      hide WithBlock, Lowest, SuperOk;
      assert icache[ip := icache[ip]] == icache;
      addr := icache[ip].d.addrs[bn];
      if addr == 0 {
        addr := Balloc();
        icache := icache[ip := icache[ip].(d := WithAddr(icache[ip].d, bn, addr))];
      }
    }

    method BmapIndirect(ip: nat, bn: nat) returns (addr: nat)
      requires IsDisk(disk) && SuperOk(disk) && held == {} && ip < |icache| && DinodeWF(icache[ip].d) && bn < NINDIRECT
      requires CanWalk(disk, icache[ip].d, bn)
      modifies this`disk, this`held, this`icache
      ensures held == {}
      ensures var w := IndirectWalk(old(disk), old(icache)[ip].d, bn);
              addr == w.addr && disk == w.disk && icache == old(icache)[ip := old(icache)[ip].(d := w.d)]
    {
      hide Entry, WithEntry, WithBit, Lowest, Word, ZeroBlock;
      assert icache[ip := icache[ip]] == icache;
      addr := icache[ip].d.addrs[NDIRECT];
      if addr == 0 {
        addr := Balloc();
        icache := icache[ip := icache[ip].(d := WithAddr(icache[ip].d, NDIRECT, addr))];
      }
      var block := addr;
      var bp := Bread(block);
      ghost var d := disk;
      addr := Entry(bp, bn);
      if addr == 0 {
        addr := Balloc();
        bp := WithEntry(bp, bn, addr);
      }
      Brelse(block, bp);
      assert d[block := d[block]] == d;
    }

    // ---- inodes ------------------------------------------------------------------------------

    /** Finds or makes the entry for inode inum. */
    method Iget(inum: nat) returns (ip: nat)
      requires |icache| == NINODE
      modifies `icache
      ensures ip == GetSlot(old(icache), inum) && icache == GotCache(old(icache), inum)
    {
      hide Find, Unused;
      var empty: nat := NINODE;
      ip := 0;
      while ip < NINODE
        invariant ip <= NINODE && icache == old(icache) && empty <= NINODE
        invariant forall x :: 0 <= x < ip ==> !(icache[x].refs > 0 && icache[x].inum == inum)
        invariant forall x :: 0 <= x < (if empty < NINODE then empty else ip) ==> icache[x].refs > 0
        invariant empty < NINODE ==> icache[empty].refs == 0
      {
        if icache[ip].refs > 0 && icache[ip].inum == inum {
          icache := icache[ip := icache[ip].(refs := icache[ip].refs + 1)];
          return;
        }
        if empty == NINODE && icache[ip].refs == 0 {
          empty := ip;
        }
        ip := ip + 1;
      }
      ip := empty;
      if empty == NINODE {
        return;
      }
      icache := icache[ip := icache[ip].(inum := inum, refs := 1, busy := false, valid := false)];
    }

    /** Locks entry ip, reading its inode from the disk if need be. An unused entry is left alone. */
    method Ilock(ip: nat)
      requires IsDisk(disk) && held == {} && ip < |icache| && !icache[ip].busy
      requires icache[ip].refs > 0 && !icache[ip].valid ==> icache[ip].inum < NINODES
      modifies this`icache, this`held, this`disk
      ensures held == {} && disk == old(disk)
      ensures icache ==
        if old(icache)[ip].refs == 0 then old(icache)
        else if old(icache)[ip].valid then old(icache)[ip := old(icache)[ip].(busy := true)]
        else
          var e := old(icache)[ip];
          old(icache)[ip := e.(busy := true, valid := true, d := DiskInode(disk, e.inum))]
    {
      if icache[ip].refs < 1 {
        return;
      }
      icache := icache[ip := icache[ip].(busy := true)];
      if !icache[ip].valid {
        var bp := Bread(IBLOCK(icache[ip].inum));
        icache := icache[ip := icache[ip].(d := InodeAt(bp, icache[ip].inum % IPB))];
        Brelse(IBLOCK(icache[ip].inum), bp);
        assert old(disk)[IBLOCK(icache[ip].inum) := bp] == old(disk);
        icache := icache[ip := icache[ip].(valid := true)];
      }
    }

    method Iunlock(ip: nat)
      requires ip < |icache|
      modifies `icache
      ensures icache ==
        if old(icache)[ip].busy && old(icache)[ip].refs > 0 then old(icache)[ip := old(icache)[ip].(busy := false)]
        else old(icache)
    {
      if !icache[ip].busy || icache[ip].refs < 1 {
        return;
      }
      icache := icache[ip := icache[ip].(busy := false)];
    }

    /** Writes entry ip's inode to the disk. */
    method Iupdate(ip: nat)
      requires IsDisk(disk) && held == {} && ip < |icache| && icache[ip].inum < NINODES && DinodeWF(icache[ip].d)
      modifies this`held, this`disk
      ensures held == {}
      ensures var i := icache[ip].inum;
              disk == WithDiskInode(old(disk), i, Updated(DiskInode(old(disk), i), icache[ip].d))
      ensures UpdateIs(old(disk), disk, icache[ip].inum, icache[ip].d)
    {
      hide InodeAt, WithInode;
      var bp := Bread(IBLOCK(icache[ip].inum));
      var dip := InodeAt(bp, icache[ip].inum % IPB);
      var d := icache[ip].d;
      dip := dip.(typ := d.typ, major := d.major, minor := d.minor, nlink := d.nlink, size := d.size, mode := d.mode,
                  addrs := d.addrs);
      bp := WithInode(bp, icache[ip].inum % IPB, dip);
      Brelse(IBLOCK(icache[ip].inum), bp);
      UpdateHere(old(disk), icache[ip].inum, d);
    }

    // ---- reading and writing -----------------------------------------------------------------

    /** One pass of readi's loop: the bytes of one block. */
    method ReadPart(ip: nat, off: nat, m: nat) returns (part: seq<Byte>)
      requires Loaded(icache, ip) && icache[ip].inum < NINODES && Coherent(icache[ip].inum)
      requires off / BSIZE < fs.ns[icache[ip].inum] && off / BSIZE < MAXFILE && off % BSIZE + m <= BSIZE
      modifies this
      ensures fs == old(fs) && icache == old(icache) && Coherent(icache[ip].inum)
      ensures off + m <= MAXBYTES && part == Bytes(fs.disk, fs.tab[icache[ip].inum])[off..off + m]
    {
      hide Sound, Bytes, P, Free, CacheOk, Linked, MapBut, SuperOk, SyncedBut, RunsOut, AddressThen, DiskThen,
        InodeThen, CanExtend, Extended;
      ghost var f, i := fs, icache[ip].inum;
      CacheEntry(icache, f, ip);
      SoundParts(f, i, {});
      PartRead(f, i, off, m);
      NotOut(f, i, off / BSIZE);
      var bno := Bmap(ip, off / BSIZE);
      assert old(icache)[ip := old(icache)[ip].(d := fs.tab[i])] == old(icache);
      var bp := Bread(bno);
      part := bp[off % BSIZE..off % BSIZE + m];
      Brelse(bno, bp);
      assert f.disk[bno := f.disk[bno]] == f.disk;
    }

    /** Reads up to n bytes at off: the bytes there are, or -1. Nothing changes. */
    method Readi(ip: nat, off0: nat, n0: nat) returns (r: int, dst: seq<Byte>)
      requires Valid() && Loaded(icache, ip) && Whole(fs, icache[ip].inum) && off0 < TWO32 && n0 < TWO32
      modifies this
      ensures Valid() && fs == old(fs) && icache == old(icache)
      ensures !InFile(icache[ip].d, off0, n0) ==> r == -1 && dst == []
      ensures InFile(icache[ip].d, off0, n0) ==>
        var m := Min(n0, icache[ip].d.size - off0);
        r == m && dst == Content(fs.disk, fs.tab[icache[ip].inum])[off0..off0 + m]
    {
      hide Sound, Bytes, P, Free, CacheOk, Linked, MapBut, SuperOk, SyncedBut, BlocksFor, Whole, Content;
      CacheEntry(icache, fs, ip);
      ghost var f, i := fs, icache[ip].inum;
      SoundParts(f, -1, {});
      dst := [];
      if icache[ip].d.typ == T_DEV {
        return -1, dst;
      }
      if off0 > icache[ip].d.size || (off0 + n0) % TWO32 < off0 {
        return -1, dst;
      }
      var n, off := n0, off0;
      if off + n > icache[ip].d.size {
        n := icache[ip].d.size - off;
      }
      var tot := 0;
      SoundWeaker(f, i);
      ContentSlice(f, i, off0, off0 + n);
      while tot < n
        invariant tot <= n && off == off0 + tot && off0 + n <= f.tab[i].size
        invariant fs == f && icache == old(icache) && Coherent(i)
        invariant dst == Bytes(f.disk, f.tab[i])[off0..off]
      {
        WithinBlocks(f, i, off);
        var m := Min(n - tot, BSIZE - off % BSIZE);
        var part := ReadPart(ip, off, m);
        Joined(Bytes(f.disk, f.tab[i]), off0, off, off + m);
        dst := dst + part;
        tot, off := tot + m, off + m;
      }
      r := n;
    }

    /** One pass of writei's loop. When the file needs a block and there is none the part goes to block 0, over what
        is there, unless block 0 was taken for an indirect block that names another. */
    method WritePart(ip: nat, off: nat, part: seq<Byte>)
      requires Loaded(icache, ip) && icache[ip].inum < NINODES && Coherent(icache[ip].inum)
        && off % BSIZE + |part| <= BSIZE
      requires var i, bn := icache[ip].inum, off / BSIZE;
               && bn <= fs.ns[i] && bn < MAXFILE
               && if RunsOut(fs, i, bn) then AddressThen(disk, bn) == 0
                  else
                    && (bn == fs.ns[i] ==> CanExtend(fs, i)) && NMETA <= P(Reached(fs, i, bn), i, bn) < FSSIZE
                    && Sound(PartPut(Reached(fs, i, bn), i, off, part), i, {})
      modifies this
      ensures var i, bn := old(icache)[ip].inum, off / BSIZE;
              if RunsOut(old(fs), i, bn) then
                && held == {} && fs == old(fs)
                && disk == DiskThen(old(disk), bn)[0 := Overwrite(DiskThen(old(disk), bn)[0], off % BSIZE, part)]
                && icache == old(icache)[ip := old(icache)[ip].(d := InodeThen(old(disk), old(icache)[ip].d, bn))]
              else
                && Coherent(i) && fs == PartPut(Reached(old(fs), i, bn), i, off, part)
                && icache == old(icache)[ip := old(icache)[ip].(d := fs.tab[i])]
    {
      hide Sound, Free, P, CacheOk, Linked, MapBut, SuperOk, SyncedBut, Reached, CanExtend, Overwrite, RunsOut,
        AddressThen, DiskThen, InodeThen;
      ghost var i, out := icache[ip].inum, RunsOut(fs, icache[ip].inum, off / BSIZE);
      var bno := Bmap(ip, off / BSIZE);
      var bp := Bread(bno);
      bp := Overwrite(bp, off % BSIZE, part);
      Brelse(bno, bp);
      if !out {
        ghost var e := fs;
        fs := PartPut(e, i, off, part);
        CacheSameTab(icache, e, fs);
      }
    }

    /** The passes of writei's loop that start before t. */
    method Passes(ip: nat, src: seq<Byte>, off0: nat, t: nat)
      requires Valid() && Loaded(icache, ip) && Whole(fs, icache[ip].inum) && Writable(icache[ip].d, off0, |src|)
      requires t <= |src| && (PassStart(off0, t) || t == |src|) && Enough(fs, icache[ip].inum, off0 + t)
      modifies this
      ensures var i := old(icache)[ip].inum;
              && i < NINODES && Coherent(i) && Writing(old(fs), fs, i, off0, src[..t]) && (t == 0 ==> fs == old(fs))
              && icache == old(icache)[ip := old(icache)[ip].(d := fs.tab[i])]
    {
      hide Sound, Bytes, P, Free, CacheOk, Linked, MapBut, SuperOk, SyncedBut, BlocksFor, Writing, Wrote, Enough,
        Reached, CanExtend, Overwrite, DiskInode, WithDiskInode, PartPut, Takes, Ptr, PassStart;
      CacheEntry(icache, fs, ip);
      ghost var f0, i := fs, icache[ip].inum;
      SoundParts(f0, -1, {});
      SoundWeaker(f0, i);
      var tot, off := 0, off0;
      NothingWritten(f0, i, off);
      assert src[..0] == [] && icache[ip := icache[ip].(d := fs.tab[i])] == icache;
      while tot < t
        invariant tot <= t && off == off0 + tot && Coherent(i) && Writing(f0, fs, i, off0, src[..tot])
        invariant icache == old(icache)[ip := old(icache)[ip].(d := fs.tab[i])] && (tot == 0 ==> fs == f0)
      {
        PassFits(off0, tot, t, |src|);
        var m := Min(|src| - tot, BSIZE - off % BSIZE);
        ghost var part := src[tot..tot + m];
        EnoughFor(f0, i, off + m, off0 + t);
        PutKeeps(f0, fs, i, off0, src[..tot], part);
        WritePart(ip, off, src[tot..tot + m]);
        assert src[..tot] + part == src[..tot + m];
        tot, off := tot + m, off + m;
      }
    }

    /** A write for which there are too few blocks, up to its first pass that is short of them, the one after t bytes.
        Where that is the pass of the first block past the direct ones, it asks that block 0 not name another. */
    method WriteShort(ip: nat, src: seq<Byte>, off0: nat, t: nat)
      requires Valid() && Loaded(icache, ip) && Whole(fs, icache[ip].inum) && Writable(icache[ip].d, off0, |src|)
      requires t < |src| && PassStart(off0, t) && Enough(fs, icache[ip].inum, off0 + t)
      requires !Enough(fs, icache[ip].inum, off0 + t + PassLen(off0, t, |src|))
      requires (off0 + t) / BSIZE == NDIRECT ==> Entry(disk[0], 0) == 0
      modifies this
      ensures var i := old(icache)[ip].inum;
              && i < NINODES && WF(fs) && Shorted(old(fs), fs, disk, i, off0, src, t) && held == {}
              && icache == old(icache)[ip := old(icache)[ip].(d := InodeThen(fs.disk, fs.tab[i], (off0 + t) / BSIZE))]
    {
      hide Sound, Bytes, P, Free, CacheOk, Linked, MapBut, SuperOk, SyncedBut, BlocksFor, Writing, Enough,
        Reached, CanExtend, Overwrite, PartPut, Takes, PassStart, RunsOut, AddressThen, DiskThen, InodeThen, Entry;
      CacheEntry(icache, fs, ip);
      ghost var f0, i := fs, icache[ip].inum;
      var m := PassLen(off0, t, |src|);
      Passes(ip, src, off0, t);
      RoomExactly(f0, fs, i, off0, src[..t], m);
      BootKept(f0, fs, i, off0, src[..t], (off0 + t) / BSIZE);
      CacheEntry(icache, fs, ip);
      WritePart(ip, off0 + t, src[t..t + m]);
    }

    /** Writes src at off, all of it or nothing. */
    method Writei(ip: nat, src: seq<Byte>, off0: nat) returns (r: int)
      requires Valid() && Loaded(icache, ip) && Whole(fs, icache[ip].inum) && off0 < TWO32 && |src| < TWO32
      requires Writable(icache[ip].d, off0, |src|) ==> Enough(fs, icache[ip].inum, off0 + |src|)
      modifies this
      ensures Valid()
      ensures !Writable(old(icache)[ip].d, off0, |src|) ==> r == -1 && fs == old(fs) && icache == old(icache)
      ensures Writable(old(icache)[ip].d, off0, |src|) ==>
        var i := old(icache)[ip].inum;
        && r == |src| && Wrote(old(fs), fs, i, off0, src)
        && icache == old(icache)[ip := old(icache)[ip].(d := fs.tab[i])]
    {
      hide Sound, Bytes, P, Free, CacheOk, Linked, MapBut, SuperOk, SyncedBut, BlocksFor, Writing, Wrote, Enough,
        DiskInode, WithDiskInode;
      CacheEntry(icache, fs, ip);
      ghost var f0, i := fs, icache[ip].inum;
      SoundParts(f0, -1, {});
      if icache[ip].d.typ == T_DEV {
        return -1;
      }
      if off0 > icache[ip].d.size || (off0 + |src|) % TWO32 < off0 {
        return -1;
      }
      if off0 + |src| > MAXBYTES {
        return -1;
      }
      var n, off := |src|, off0 + |src|;
      Passes(ip, src, off0, n);
      assert src[..n] == src;
      WritingInode(f0, fs, i, off0, src);
      CacheEntry(icache, fs, ip);
      if n > 0 { WriteEnds(f0, fs, i, off0, src); } else { WroteNothing(f0, i, off0); }
      if n > 0 && off > icache[ip].d.size {
        ghost var c, f := icache, fs;
        icache := icache[ip := icache[ip].(d := icache[ip].d.(size := off))];
        Iupdate(ip);
        fs := Stored(f, i, icache[ip].d);
        CacheFollows(c, f, fs, ip);
      }
      r := n;
    }

    // ---- cutting -----------------------------------------------------------------------------

    /** The first loop of itrunc. */
    method FreeDirect(ip: nat)
      requires Valid() && Loaded(icache, ip)
      modifies this`disk, this`held, this`icache
      ensures held == {} && Freed(fs, disk, old(icache)[ip].inum, NDIRECT)
      ensures icache == old(icache)[ip := old(icache)[ip].(d := Cleared(fs.tab[old(icache)[ip].inum], NDIRECT))]
    {
      hide Sound, P, Free, CacheOk, Linked, MapBut, SuperOk, SyncedBut, Freed, Cleared, Marked, WithoutBlock;
      CacheEntry(icache, fs, ip);
      SoundParts(fs, -1, {});
      ghost var f, inum := fs, icache[ip].inum;
      FreedNone(f, inum);
      ClearedNext(f.tab[inum], 0);
      assert icache[ip := icache[ip].(d := Cleared(f.tab[inum], 0))] == icache;
      var i := 0;
      while i < NDIRECT
        invariant i <= NDIRECT && held == {} && Freed(f, disk, inum, i) && fs == f
        invariant icache == old(icache)[ip := old(icache)[ip].(d := Cleared(f.tab[inum], i))]
      {
        FreedStep(f, disk, inum, i);
        FreedParts(f, disk, inum, i);
        SlotAddress(f, inum, i);
        ClearedNext(f.tab[inum], i);
        if icache[ip].d.addrs[i] != 0 {
          Bfree(icache[ip].d.addrs[i]);
          icache := icache[ip := icache[ip].(d := WithAddr(icache[ip].d, i, 0))];
        }
        i := i + 1;
      }
    }

    /** The branch of itrunc for a file with an indirect block. */
    method FreeIndirect(ip: nat, ghost inum: nat)
      requires WF(fs) && Sound(fs, -1, {}) && inum < NINODES && ip < |icache| && held == {}
        && Freed(fs, disk, inum, NDIRECT)
      requires icache[ip].d == Cleared(fs.tab[inum], NDIRECT)
        && icache[ip].d.addrs[NDIRECT] == fs.tab[inum].addrs[NDIRECT] != 0
      modifies this`disk, this`held, this`icache
      ensures held == {} && Freed(fs, disk, inum, MAXFILE + 1)
      ensures icache == old(icache)[ip := old(icache)[ip].(d := Cleared(fs.tab[inum], NDIRECT + 1))]
    {
      hide Sound, P, Free, Linked, MapBut, SuperOk, SyncedBut, Freed, Cleared, Marked, WithoutBlock, Entry;
      SoundParts(fs, -1, {});
      ghost var f := fs;
      var block := icache[ip].d.addrs[NDIRECT];
      SlotAddress(f, inum, 0);
      FreedParts(f, disk, inum, NDIRECT);
      var bp := Bread(block);
      var j := 0;
      while j < NINDIRECT
        invariant j <= NINDIRECT && held == {block as nat} && Freed(f, disk, inum, NDIRECT + j) && fs == f
          && icache == old(icache)
      {
        FreedStep(f, disk, inum, NDIRECT + j);
        FreedParts(f, disk, inum, NDIRECT + j);
        SlotAddress(f, inum, NDIRECT + j);
        if Entry(bp, j) != 0 {
          Bfree(Entry(bp, j));
        }
        j := j + 1;
      }
      FreedParts(f, disk, inum, MAXFILE);
      assert disk[block := bp] == disk;
      Brelse(block, bp);
      FreedStep(f, disk, inum, MAXFILE);
      SlotAddress(f, inum, MAXFILE);
      ClearedNext(f.tab[inum], NDIRECT);
      Bfree(icache[ip].d.addrs[NDIRECT]);
      icache := icache[ip := icache[ip].(d := WithAddr(icache[ip].d, NDIRECT, 0))];
    }

    /** Discards the content of the file in entry ip. */
    method Itrunc(ip: nat)
      requires Valid() && Loaded(icache, ip)
      modifies this
      ensures var i := old(icache)[ip].inum;
              && i < NINODES && Valid() && Emptied(old(fs), fs, i, CutInode(old(fs).tab[i]))
              && icache == old(icache)[ip := old(icache)[ip].(d := fs.tab[i])]
    {
      hide Sound, P, Free, CacheOk, Linked, MapBut, SuperOk, SyncedBut, Freed, Cleared, Marked, Emptied, DiskInode,
        WithDiskInode;
      CacheEntry(icache, fs, ip);
      SoundParts(fs, -1, {});
      ghost var f, inum := fs, icache[ip].inum;
      ClearedNext(f.tab[inum], NDIRECT);
      SlotAddress(f, inum, 0);
      FreeDirect(ip);
      if icache[ip].d.addrs[NDIRECT] != 0 {
        FreeIndirect(ip, inum);
      } else {
        FreedRest(f, disk, inum, NDIRECT);
      }
      FreedParts(f, disk, inum, MAXFILE + 1);
      TruncEnds(f, disk, inum);
      icache := icache[ip := icache[ip].(d := icache[ip].d.(size := 0))];
      ghost var c := Cut(f, disk, inum);
      Iupdate(ip);
      fs := Stored(c, inum, c.tab[inum]);
      CacheFollows(old(icache), f, fs, ip);
      assert icache == old(icache)[ip := old(icache)[ip].(d := fs.tab[inum])];
    }

    /** The last reference to a read, unlocked inode without links goes: its blocks and then its type are cleared. */
    method Discard(ip: nat)
      requires Valid() && Loaded(icache, ip) && !icache[ip].busy
      modifies this
      ensures Valid()
      ensures var e := old(icache)[ip];
        && e.inum < NINODES && Emptied(old(fs), fs, e.inum, CutInode(old(fs).tab[e.inum]).(typ := 0))
        && icache == old(icache)[ip := e.(busy := false, valid := false, d := fs.tab[e.inum])]
    {
      hide Sound, P, Free, CacheOk, Linked, MapBut, SuperOk, SyncedBut, Marked, Emptied, DiskInode, WithDiskInode;
      ghost var f, i := fs, icache[ip].inum;
      CacheEntry(icache, f, ip);
      CacheDiscards(icache, f, f, ip);
      SoundParts(f, -1, {});
      icache := icache[ip := icache[ip].(busy := true)];
      Itrunc(ip);
      ghost var g := fs;
      EmptiedInode(f, g, i, CutInode(f.tab[i]));
      InodeFreed(f, g, i);
      SoundParts(g, -1, {});
      icache := icache[ip := icache[ip].(d := icache[ip].d.(typ := 0))];
      Iupdate(ip);
      fs := Stored(g, i, icache[ip].d);
      icache := icache[ip := icache[ip].(busy := false, valid := false)];
      CacheDiscards(old(icache), f, fs, ip);
      assert icache == old(icache)[ip := old(icache)[ip].(busy := false, valid := false, d := fs.tab[i])];
    }

    /** Drops a reference. The last one to a read inode without links frees it, unless it is locked:
        then the reference stays. */
    method Iput(ip: nat)
      requires Valid() && ip < NINODE && icache[ip].refs > 0
      modifies this
      ensures Valid()
      ensures var e := old(icache)[ip];
        if e.refs == 1 && e.valid && e.d.nlink == 0 then
          if e.busy then fs == old(fs) && icache == old(icache)
          else
            && e.inum < NINODES && Emptied(old(fs), fs, e.inum, CutInode(old(fs).tab[e.inum]).(typ := 0))
            && icache == old(icache)[ip := e.(refs := 0, busy := false, valid := false, d := fs.tab[e.inum])]
        else fs == old(fs) && icache == old(icache)[ip := e.(refs := e.refs - 1)]
    {
      hide Sound, P, Free, Linked, MapBut, SuperOk, SyncedBut, Marked, Emptied, DiskInode, WithDiskInode;
      if icache[ip].refs == 1 && icache[ip].valid && icache[ip].d.nlink == 0 {
        if icache[ip].busy {
          return;
        }
        Discard(ip);
      }
      icache := icache[ip := icache[ip].(refs := icache[ip].refs - 1)];
    }
  }
}
