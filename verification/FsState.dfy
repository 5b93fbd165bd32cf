/** What a disk image means: the blocks of every file, who owns each block, and how that changes when
    a file grows, is written or is cut. Shared by the image builder and the kernel, which reach and
    extend the same structure by different walks. */
module FsState {
  import opened FsFormat

  /** A disk of FSSIZE blocks. */
  predicate IsDisk(disk: seq<Block>) { |disk| == FSSIZE }

  predicate IsTable(tab: seq<Dinode>) {
    |tab| == NINODES && forall i :: 0 <= i < NINODES ==> DinodeWF(tab[i])
  }

  // ---- addresses and content -----------------------------------------------------------------

  /** Entry j of the indirect block at address a, none where there is no such block. */
  function Indirect(disk: seq<Block>, a: U32, j: nat): U32
    requires IsDisk(disk) && j < NINDIRECT
  {
    if 0 < a < FSSIZE then Entry(disk[a], j) else 0
  }

  /** The address in slot s of an inode: slots below MAXFILE are the file's data blocks in order, slot
      MAXFILE is the indirect block. Address 0 means none. */
  function Ptr(disk: seq<Block>, d: Dinode, s: nat): U32
    requires IsDisk(disk) && DinodeWF(d) && s <= MAXFILE
  {
    if s < NDIRECT then d.addrs[s]
    else if s == MAXFILE then d.addrs[NDIRECT]
    else Indirect(disk, d.addrs[NDIRECT], s - NDIRECT)
  }

  /** Data block s of a file; a block that is not there reads as zeros. */
  function Data(disk: seq<Block>, d: Dinode, s: nat): Block
    requires IsDisk(disk) && DinodeWF(d) && s < MAXFILE
  {
    var b := Ptr(disk, d, s);
    if 0 < b < FSSIZE then disk[b] else ZeroBlock()
  }

  /** All data blocks of a file. */
  function View(disk: seq<Block>, d: Dinode): (v: seq<Block>)
    requires IsDisk(disk) && DinodeWF(d)
    ensures |v| == MAXFILE
  {
    seq(MAXFILE, s requires 0 <= s < MAXFILE => Data(disk, d, s))
  }

  /** The bytes of blocks in a row. */
  function Flat(v: seq<Block>): (f: seq<Byte>)
    ensures |f| == |v| * BSIZE
  {
    seq(|v| * BSIZE, k requires 0 <= k < |v| * BSIZE => v[k / BSIZE][k % BSIZE])
  }

  /** The bytes a file could hold, whatever its size. */
  function Bytes(disk: seq<Block>, d: Dinode): (f: seq<Byte>)
    requires IsDisk(disk) && DinodeWF(d)
    ensures |f| == MAXBYTES
  {
    Flat(View(disk, d))
  }

  /** What a file holds. */
  function Content(disk: seq<Block>, d: Dinode): (c: seq<Byte>)
    requires IsDisk(disk) && DinodeWF(d) && d.size <= MAXBYTES
    ensures |c| == d.size
  {
    Bytes(disk, d)[..d.size]
  }

  // ---- the structure -------------------------------------------------------------------------

  /** A block's place: slot s of inode i. */
  datatype Slot = Slot(i: nat, s: nat)

  predicate IsSlot(x: Slot) { x.i < NINODES && x.s <= MAXFILE }

  /** A disk, the inodes as the program at work knows them, the place of every block given out, and
      how many data blocks each file has. */
  datatype Fs = Fs(disk: seq<Block>, tab: seq<Dinode>, owner: map<nat, Slot>, ns: seq<nat>)

  predicate WF(f: Fs) {
    IsDisk(f.disk) && IsTable(f.tab) && |f.ns| == NINODES
  }

  function P(f: Fs, i: nat, s: nat): U32
    requires WF(f) && i < NINODES && s <= MAXFILE
  {
    Ptr(f.disk, f.tab[i], s)
  }

  /** Every address in an inode is that of a data-area block owned by exactly that slot. */
  ghost predicate Pointed(f: Fs)
    requires WF(f)
  {
    forall i, s :: 0 <= i < NINODES && 0 <= s <= MAXFILE && P(f, i, s) != 0 ==>
      NMETA <= P(f, i, s) < FSSIZE && P(f, i, s) in f.owner && f.owner[P(f, i, s)] == Slot(i, s)
  }

  /** Every owned block is where its owner says. */
  ghost predicate Backed(f: Fs)
    requires WF(f)
  {
    forall b :: b in f.owner ==>
      NMETA <= b < FSSIZE && IsSlot(f.owner[b]) && P(f, f.owner[b].i, f.owner[b].s) == b
  }

  /** File i's first ns[i] data blocks are there and no others, with an indirect block just when that
      takes one. */
  predicate Shaped(f: Fs, i: nat)
    requires WF(f) && i < NINODES
  {
    && f.ns[i] <= MAXFILE
    && (forall s :: 0 <= s < MAXFILE ==> (P(f, i, s) != 0 <==> s < f.ns[i]))
    && (P(f, i, MAXFILE) != 0 <==> f.ns[i] > NDIRECT)
  }

  /** The structure the image builder and the kernel both keep: addresses are a one-to-one
      correspondence between the owned blocks and the slots in use, and files have no holes. */
  ghost predicate Linked(f: Fs) {
    WF(f) && Pointed(f) && Backed(f) && forall i :: 0 <= i < NINODES ==> Shaped(f, i)
  }

  /** No file shows any difference. */
  ghost predicate SameBytes(f: Fs, g: Fs)
    requires WF(f) && WF(g)
  {
    forall j :: 0 <= j < NINODES ==> Bytes(g.disk, g.tab[j]) == Bytes(f.disk, f.tab[j])
  }

  /** Files other than i show no difference, and their inodes neither. */
  ghost predicate OthersSame(f: Fs, g: Fs, i: nat)
    requires WF(f) && WF(g)
  {
    forall j :: 0 <= j < NINODES && j != i ==>
      g.tab[j] == f.tab[j] && g.ns[j] == f.ns[j] && Bytes(g.disk, g.tab[j]) == Bytes(f.disk, f.tab[j])
  }

  /** What a file's blocks are, from the structure. */
  lemma Blocks(f: Fs, i: nat, s: nat)
    requires Linked(f) && i < NINODES && s < MAXFILE
    ensures WF(f) && f.ns[i] <= MAXFILE
    ensures s < f.ns[i] ==> NMETA <= P(f, i, s) < FSSIZE && P(f, i, s) in f.owner
    ensures s >= f.ns[i] ==> P(f, i, s) == 0
    ensures P(f, i, MAXFILE) == f.tab[i].addrs[NDIRECT]
    ensures f.ns[i] <= NDIRECT ==> f.tab[i].addrs[NDIRECT] == 0
    ensures f.ns[i] > NDIRECT ==> NMETA <= f.tab[i].addrs[NDIRECT] < FSSIZE && f.tab[i].addrs[NDIRECT] in f.owner
    ensures s < NDIRECT ==> P(f, i, s) == f.tab[i].addrs[s]
    ensures s >= NDIRECT && f.ns[i] > NDIRECT ==> P(f, i, s) == Entry(f.disk[f.tab[i].addrs[NDIRECT]], s - NDIRECT)
  {
    assert Shaped(f, i);
    assert P(f, i, MAXFILE) == f.tab[i].addrs[NDIRECT];
  }

  lemma Owners(f: Fs)
    requires Linked(f)
    ensures WF(f) && forall b :: b in f.owner ==> NMETA <= b < FSSIZE
  {
  }

  // ---- bytes of blocks -----------------------------------------------------------------------

  lemma FlatAt(v: seq<Block>, k: nat)
    requires k < |v| * BSIZE
    ensures k / BSIZE < |v| && Flat(v)[k] == v[k / BSIZE][k % BSIZE]
  {
  }

  /** Writing inside one block is writing at that place of the file. */
  lemma FlatOverwrite(v: seq<Block>, bn: nat, o: nat, s: seq<Byte>)
    requires bn < |v| && o + |s| <= BSIZE
    ensures bn * BSIZE + o + |s| <= |Flat(v)|
    ensures Flat(v[bn := Overwrite(v[bn], o, s)]) == Overwrite(Flat(v), bn * BSIZE + o, s)
  {
    var w := v[bn := Overwrite(v[bn], o, s)];
    var p := bn * BSIZE + o;
    forall k | 0 <= k < |v| * BSIZE ensures Flat(w)[k] == Overwrite(Flat(v), p, s)[k] {
      FlatAt(w, k);
      FlatAt(v, k);
    }
  }

  /** Two writes in a row, the second where the first ended. */
  lemma OverwriteTwice(f: seq<Byte>, o: nat, s: seq<Byte>, t: seq<Byte>)
    requires o + |s| + |t| <= |f|
    ensures Overwrite(Overwrite(f, o, s), o + |s|, t) == Overwrite(f, o, s + t)
  {
  }

  // ---- frames --------------------------------------------------------------------------------

  /** Inode d's addresses survive a change of disk that spares its indirect block. */
  lemma PtrSpared(disk: seq<Block>, disk': seq<Block>, d: Dinode, s: nat)
    requires IsDisk(disk) && IsDisk(disk') && DinodeWF(d) && s <= MAXFILE
    requires var a := d.addrs[NDIRECT]; 0 < a < FSSIZE ==> disk'[a] == disk[a]
    ensures Ptr(disk', d, s) == Ptr(disk, d, s)
  {
  }

  /** With the same addresses everywhere the structure is the same. */
  lemma SameAddresses(f: Fs, g: Fs)
    requires Linked(f) && WF(g) && g.owner == f.owner && g.ns == f.ns
    requires forall i, s :: 0 <= i < NINODES && 0 <= s <= MAXFILE ==> P(g, i, s) == P(f, i, s)
    ensures Linked(g)
  {
    hide Ptr;
    forall i | 0 <= i < NINODES ensures Shaped(g, i) {
      assert Shaped(f, i);
      assert P(g, i, MAXFILE) == P(f, i, MAXFILE);
      forall s | 0 <= s < MAXFILE ensures P(g, i, s) != 0 <==> s < g.ns[i] { assert P(g, i, s) == P(f, i, s); }
    }
    forall b | b in g.owner ensures NMETA <= b < FSSIZE && IsSlot(g.owner[b]) && P(g, g.owner[b].i, g.owner[b].s) == b {
      assert P(f, f.owner[b].i, f.owner[b].s) == b;
    }
  }

  lemma SameDataSameBytes(f: Fs, g: Fs, i: nat)
    requires WF(f) && WF(g) && i < NINODES
    requires forall s :: 0 <= s < MAXFILE ==> Data(g.disk, g.tab[i], s) == Data(f.disk, f.tab[i], s)
    ensures View(g.disk, g.tab[i]) == View(f.disk, f.tab[i])
    ensures Bytes(g.disk, g.tab[i]) == Bytes(f.disk, f.tab[i])
  {
  }

  /** Blocks nobody owns mean nothing to the files. */
  lemma UnownedChange(f: Fs, disk': seq<Block>)
    requires Linked(f) && IsDisk(disk')
    requires forall b :: 0 <= b < FSSIZE && b in f.owner ==> disk'[b] == f.disk[b]
    ensures Linked(f.(disk := disk')) && SameBytes(f, f.(disk := disk'))
  {
    var g := f.(disk := disk');
    forall i, s | 0 <= i < NINODES && 0 <= s <= MAXFILE ensures P(g, i, s) == P(f, i, s) {
      Blocks(f, i, 0);
      PtrSpared(f.disk, disk', f.tab[i], s);
    }
    SameAddresses(f, g);
    forall i | 0 <= i < NINODES ensures Bytes(g.disk, g.tab[i]) == Bytes(f.disk, f.tab[i]) {
      forall s | 0 <= s < MAXFILE ensures Data(g.disk, g.tab[i], s) == Data(f.disk, f.tab[i], s) {
        assert P(g, i, s) == P(f, i, s);
      }
      SameDataSameBytes(f, g, i);
    }
  }

  /** The state after data block s of file i is replaced. */
  function WithData(f: Fs, i: nat, s: nat, x: Block): Fs
    requires WF(f) && i < NINODES && s < MAXFILE && P(f, i, s) < FSSIZE
  {
    f.(disk := f.disk[P(f, i, s) := x])
  }

  /** The state after the part of the bytes that falls in one block is written. */
  function PartPut(f: Fs, i: nat, off: nat, part: seq<Byte>): (g: Fs)
    requires WF(f) && i < NINODES && off / BSIZE < MAXFILE && off % BSIZE + |part| <= BSIZE
      && P(f, i, off / BSIZE) < FSSIZE
    ensures WF(g)
  {
    WithData(f, i, off / BSIZE, Overwrite(f.disk[P(f, i, off / BSIZE)], off % BSIZE, part))
  }

  /** Writing a data block changes that block of that file and nothing else. */
  lemma DataWritten(f: Fs, i: nat, s: nat, x: Block)
    requires Linked(f) && i < NINODES && s < f.ns[i]
    ensures s < MAXFILE && NMETA <= P(f, i, s) < FSSIZE
    ensures var g := WithData(f, i, s, x);
            Linked(g) && OthersSame(f, g, i) && View(g.disk, g.tab[i]) == View(f.disk, f.tab[i])[s := x]
  {
    assert Shaped(f, i);
    var b := P(f, i, s);
    var g := WithData(f, i, s, x);
    forall j, t | 0 <= j < NINODES && 0 <= t <= MAXFILE ensures P(g, j, t) == P(f, j, t) {
      Blocks(f, j, 0);
      PtrSpared(f.disk, g.disk, f.tab[j], t);
    }
    SameAddresses(f, g);
    forall j, t | 0 <= j < NINODES && 0 <= t < MAXFILE
      ensures Data(g.disk, g.tab[j], t) == if j == i && t == s then x else Data(f.disk, f.tab[j], t)
    {
      assert P(g, j, t) == P(f, j, t);
    }
    forall j | 0 <= j < NINODES && j != i ensures Bytes(g.disk, g.tab[j]) == Bytes(f.disk, f.tab[j]) {
      SameDataSameBytes(f, g, j);
    }
  }

  /** Overwriting part of a data block overwrites that part of the file. */
  lemma PartWritten(f: Fs, i: nat, bn: nat, o: nat, s: seq<Byte>)
    requires Linked(f) && i < NINODES && bn < f.ns[i] && o + |s| <= BSIZE
    ensures bn < MAXFILE && NMETA <= P(f, i, bn) < FSSIZE && P(f, i, bn) in f.owner
    ensures bn * BSIZE + o + |s| <= MAXBYTES
    ensures var g := WithData(f, i, bn, Overwrite(f.disk[P(f, i, bn)], o, s));
            && Linked(g) && OthersSame(f, g, i)
            && Bytes(g.disk, g.tab[i]) == Overwrite(Bytes(f.disk, f.tab[i]), bn * BSIZE + o, s)
  {
    hide Linked, Overwrite, Flat;
    Blocks(f, i, 0);
    Blocks(f, i, bn);
    var v := View(f.disk, f.tab[i]);
    assert v[bn] == Data(f.disk, f.tab[i], bn);
    DataWritten(f, i, bn, Overwrite(v[bn], o, s));
    FlatOverwrite(v, bn, o, s);
  }

  // ---- growth --------------------------------------------------------------------------------

  /** Block b can be given to a file: in the data area, nobody's, all zeros. */
  predicate Fresh(f: Fs, b: nat)
    requires WF(f)
  {
    NMETA <= b < FSSIZE && b !in f.owner && f.disk[b] == ZeroBlock()
  }

  /** Inode d with address b in place n of its table. */
  function WithAddr(d: Dinode, n: nat, b: U32): (r: Dinode)
    requires DinodeWF(d) && n <= NDIRECT
    ensures DinodeWF(r)
  {
    d.(addrs := d.addrs[n := b])
  }

  /** The state after file i takes b as its next block, through indirect block a if it is past the
      direct ones; the first such block takes a too. */
  function Grown(f: Fs, i: nat, a: U32, b: U32): (g: Fs)
    requires WF(f) && i < NINODES && f.ns[i] < MAXFILE && a < FSSIZE
    ensures WF(g)
  {
    var n := f.ns[i];
    var owner := if n == NDIRECT then f.owner[a := Slot(i, MAXFILE)] else f.owner;
    if n < NDIRECT then
      Fs(f.disk, f.tab[i := WithAddr(f.tab[i], n, b)], owner[b := Slot(i, n)], f.ns[i := n + 1])
    else
      Fs(f.disk[a := WithEntry(f.disk[a], n - NDIRECT, b)], f.tab[i := WithAddr(f.tab[i], NDIRECT, a)],
         owner[b := Slot(i, n)], f.ns[i := n + 1])
  }

  /** The blocks offered to Grown are the right ones. */
  predicate Offered(f: Fs, i: nat, a: U32, b: U32)
    requires WF(f) && i < NINODES
  {
    && f.ns[i] < MAXFILE && Fresh(f, b)
    && (f.ns[i] < NDIRECT ==> a == 0)
    && (f.ns[i] == NDIRECT ==> Fresh(f, a) && a != b)
    && (f.ns[i] > NDIRECT ==> a == f.tab[i].addrs[NDIRECT])
  }

  /** The addresses after growth: b in the next slot of file i, a in its indirect slot. */
  lemma GrownAddress(f: Fs, i: nat, a: U32, b: U32, j: nat, t: nat)
    requires Linked(f) && i < NINODES && Offered(f, i, a, b) && j < NINODES && t <= MAXFILE
    ensures a < FSSIZE
    ensures P(Grown(f, i, a, b), j, t) ==
            if j == i && t == f.ns[i] then b else if j == i && t == MAXFILE then a else P(f, j, t)
  {
    hide WithEntry, Entry;
    Blocks(f, i, 0);
    Blocks(f, j, 0);
    var n, g := f.ns[i], Grown(f, i, a, b);
    if j != i {
      PtrSpared(f.disk, g.disk, f.tab[j], t);
    } else if n >= NDIRECT && NDIRECT <= t < MAXFILE {
      EntryUpdate(f.disk[a], n - NDIRECT, b, t - NDIRECT);
      if n == NDIRECT && t != n {
        ZeroEntry(t - NDIRECT);
        Blocks(f, i, t);
      }
    }
  }

  lemma GrownPointed(f: Fs, i: nat, a: U32, b: U32)
    requires Linked(f) && i < NINODES && Offered(f, i, a, b)
    ensures a < FSSIZE && Pointed(Grown(f, i, a, b))
  {
    GrownAddress(f, i, a, b, i, 0);
    hide Ptr;
    var g, n := Grown(f, i, a, b), f.ns[i];
    forall j, t | 0 <= j < NINODES && 0 <= t <= MAXFILE && P(g, j, t) != 0
      ensures NMETA <= P(g, j, t) < FSSIZE && P(g, j, t) in g.owner && g.owner[P(g, j, t)] == Slot(j, t)
    {
      GrownAddress(f, i, a, b, j, t);
      Blocks(f, i, 0);
    }
  }

  lemma GrownBacked(f: Fs, i: nat, a: U32, b: U32)
    requires Linked(f) && i < NINODES && Offered(f, i, a, b)
    ensures a < FSSIZE && Backed(Grown(f, i, a, b))
  {
    GrownAddress(f, i, a, b, i, 0);
    var g, n := Grown(f, i, a, b), f.ns[i];
    forall x | x in g.owner
      ensures NMETA <= x < FSSIZE && IsSlot(g.owner[x]) && P(g, g.owner[x].i, g.owner[x].s) == x
    {
      hide Ptr;
      Blocks(f, i, 0);
      if n < MAXFILE { Blocks(f, i, n); }
      if x == b {
        GrownAddress(f, i, a, b, i, n);
      } else if x == a && n == NDIRECT {
        GrownAddress(f, i, a, b, i, MAXFILE);
      } else {
        assert g.owner[x] == f.owner[x];
        GrownAddress(f, i, a, b, f.owner[x].i, f.owner[x].s);
      }
    }
  }

  lemma GrownShaped(f: Fs, i: nat, a: U32, b: U32, j: nat)
    requires Linked(f) && i < NINODES && Offered(f, i, a, b) && j < NINODES
    ensures a < FSSIZE && Shaped(Grown(f, i, a, b), j)
  {
    GrownAddress(f, i, a, b, j, MAXFILE);
    Blocks(f, i, 0);
    assert Shaped(f, j);
    hide Ptr;
    var g := Grown(f, i, a, b);
    forall t | 0 <= t < MAXFILE ensures P(g, j, t) != 0 <==> t < g.ns[j] { GrownAddress(f, i, a, b, j, t); }
  }

  lemma GrownBytes(f: Fs, i: nat, a: U32, b: U32, j: nat)
    requires Linked(f) && i < NINODES && Offered(f, i, a, b) && j < NINODES
    ensures a < FSSIZE
    ensures var g := Grown(f, i, a, b); Bytes(g.disk, g.tab[j]) == Bytes(f.disk, f.tab[j])
  {
    GrownAddress(f, i, a, b, i, 0);
    Blocks(f, i, 0);
    var g, n := Grown(f, i, a, b), f.ns[i];
    forall t | 0 <= t < MAXFILE ensures Data(g.disk, g.tab[j], t) == Data(f.disk, f.tab[j], t) {
      hide Ptr, WithEntry;
      GrownAddress(f, i, a, b, j, t);
      Blocks(f, j, t);
      Blocks(f, i, n);
      if n > NDIRECT { assert f.owner[a] == Slot(i, MAXFILE); }
    }
    SameDataSameBytes(f, g, j);
  }

  /** Giving file i its next block keeps the structure and shows through in no file: the new block
      holds zeros, as its absence did. */
  lemma GrowthKeeps(f: Fs, i: nat, a: U32, b: U32)
    requires Linked(f) && i < NINODES && Offered(f, i, a, b)
    ensures a < FSSIZE && Linked(Grown(f, i, a, b)) && SameBytes(f, Grown(f, i, a, b))
  {
    GrownPointed(f, i, a, b);
    GrownBacked(f, i, a, b);
    hide Pointed, Backed, Shaped, Bytes, Grown, Offered;
    forall j | 0 <= j < NINODES ensures Shaped(Grown(f, i, a, b), j) { GrownShaped(f, i, a, b, j); }
    var g := Grown(f, i, a, b);
    forall j | 0 <= j < NINODES ensures Bytes(g.disk, g.tab[j]) == Bytes(f.disk, f.tab[j]) {
      GrownBytes(f, i, a, b, j);
    }
  }

  // ---- the inode table on disk ---------------------------------------------------------------

  /** The copy of inode i on the disk. */
  function DiskInode(disk: seq<Block>, i: nat): (d: Dinode)
    requires IsDisk(disk) && i < NINODES
    ensures DinodeWF(d)
  {
    InodeAt(disk[IBLOCK(i)], i % IPB)
  }

  /** The disk with inode i rewritten. */
  function WithDiskInode(disk: seq<Block>, i: nat, d: Dinode): (r: seq<Block>)
    requires IsDisk(disk) && i < NINODES && DinodeWF(d)
    ensures IsDisk(r)
  {
    disk[IBLOCK(i) := WithInode(disk[IBLOCK(i)], i % IPB, d)]
  }

  lemma DiskInodeWritten(disk: seq<Block>, i: nat, d: Dinode, j: nat)
    requires IsDisk(disk) && i < NINODES && j < NINODES && DinodeWF(d)
    ensures DiskInode(WithDiskInode(disk, i, d), j) == if j == i then d else DiskInode(disk, j)
  {
    hide InodeAt, WithInode;
    if IBLOCK(j) == IBLOCK(i) {
      InodeUpdate(disk[IBLOCK(i)], i % IPB, d, j % IPB);
    }
  }

  /** The inodes on disk, but for inode i, are those of the table. */
  ghost predicate SyncedBut(f: Fs, i: int)
    requires WF(f)
  {
    forall j :: 0 <= j < NINODES && j != i ==> DiskInode(f.disk, j) == f.tab[j]
  }

  /** The superblock says what the layout is. */
  predicate SuperOk(disk: seq<Block>)
    requires IsDisk(disk)
  {
    && Word(disk[1], 0) == FSSIZE && Word(disk[1], 4) == FSSIZE - LOGSIZE - NMETA
    && Word(disk[1], 8) == NINODES && Word(disk[1], 12) == LOGSIZE
  }

  /** The superblock and the inode blocks are as they were. */
  ghost predicate MetaSame(disk: seq<Block>, disk': seq<Block>)
    requires IsDisk(disk) && IsDisk(disk')
  {
    forall b :: 0 <= b < BBLOCK(0, NINODES) ==> disk'[b] == disk[b]
  }

  lemma MetaKeeps(f: Fs, g: Fs, i: int)
    requires WF(f) && WF(g) && MetaSame(f.disk, g.disk) && SyncedBut(f, i)
    requires forall j :: 0 <= j < NINODES && j != i ==> g.tab[j] == f.tab[j]
    ensures SyncedBut(g, i) && (SuperOk(f.disk) ==> SuperOk(g.disk))
  {
    hide InodeAt;
    forall j | 0 <= j < NINODES && j != i ensures DiskInode(g.disk, j) == g.tab[j] {
      assert DiskInode(f.disk, j) == f.tab[j];
    }
  }

  /** The state after inode i is set to d, with the same addresses, and written to the disk. */
  function Stored(f: Fs, i: nat, d: Dinode): (g: Fs)
    requires WF(f) && i < NINODES && DinodeWF(d)
    ensures WF(g)
  {
    f.(disk := WithDiskInode(f.disk, i, d), tab := f.tab[i := d])
  }

  /** Everything but the addresses of an inode is indifferent to the structure. */
  lemma OnlyAddrs(f: Fs, i: nat, d: Dinode)
    requires Linked(f) && i < NINODES && DinodeWF(d) && d.addrs == f.tab[i].addrs
    ensures Linked(f.(tab := f.tab[i := d])) && SameBytes(f, f.(tab := f.tab[i := d]))
  {
    var g := f.(tab := f.tab[i := d]);
    forall j, s | 0 <= j < NINODES && 0 <= s <= MAXFILE ensures P(g, j, s) == P(f, j, s) {}
    SameAddresses(f, g);
    forall j | 0 <= j < NINODES ensures Bytes(g.disk, g.tab[j]) == Bytes(f.disk, f.tab[j]) {
      forall s | 0 <= s < MAXFILE ensures Data(g.disk, g.tab[j], s) == Data(f.disk, f.tab[j], s) {}
      SameDataSameBytes(f, g, j);
    }
  }

  /** Writing an inode to the disk changes no file's bytes and puts that inode right. */
  lemma StoredKeeps(f: Fs, i: nat, d: Dinode)
    requires Linked(f) && i < NINODES && DinodeWF(d) && d.addrs == f.tab[i].addrs
    requires SyncedBut(f, i) && SuperOk(f.disk)
    ensures var g := Stored(f, i, d);
            && Linked(g) && SyncedBut(g, -1) && SuperOk(g.disk) && SameBytes(f, g)
            && (forall b :: BBLOCK(0, NINODES) <= b < FSSIZE ==> g.disk[b] == f.disk[b])
  {
    hide Linked, Bytes, InodeAt, WithInode, DiskInode;
    Owners(f);
    OnlyAddrs(f, i, d);
    var m := f.(tab := f.tab[i := d]);
    Owners(m);
    UnownedChange(m, WithDiskInode(f.disk, i, d));
    forall j | 0 <= j < NINODES ensures DiskInode(Stored(f, i, d).disk, j) == Stored(f, i, d).tab[j] {
      DiskInodeWritten(f.disk, i, d, j);
    }
  }

  // ---- sizes ---------------------------------------------------------------------------------

  /** How many blocks hold that many bytes. */
  function BlocksFor(size: nat): nat { (size + BSIZE - 1) / BSIZE }

  /** Blocks a file of n data blocks occupies, its indirect block included. */
  function Cost(n: nat): nat { if n > NDIRECT then n + 1 else n }

  /** File i has exactly the blocks its size calls for. */
  predicate Whole(f: Fs, i: nat)
    requires WF(f) && i < NINODES
  {
    f.tab[i].size <= MAXBYTES && f.ns[i] == BlocksFor(f.tab[i].size)
  }

  lemma WholeSize(f: Fs, i: nat)
    requires WF(f) && i < NINODES && Whole(f, i)
    ensures f.tab[i].size <= MAXBYTES && |Content(f.disk, f.tab[i])| == f.tab[i].size
  {
  }

  /** How many blocks the next block of a file of n takes. */
  function Takes(n: nat): nat { if n == NDIRECT then 2 else 1 }

  /** Every file has exactly the blocks its size calls for. */
  ghost predicate Sized(f: Fs)
    requires WF(f)
  {
    forall i {:trigger f.tab[i]} {:trigger f.ns[i]} :: 0 <= i < NINODES ==> Whole(f, i)
  }

  lemma BlocksMonotone(a: nat, b: nat)
    requires a <= b
    ensures BlocksFor(a) <= BlocksFor(b) && Cost(BlocksFor(a)) <= Cost(BlocksFor(b))
    ensures b <= MAXBYTES ==> BlocksFor(b) <= MAXFILE
  {
  }

  /** Bytes that start at off and stay in its block make that block the last. */
  lemma PartBlocks(off: nat, len: nat)
    requires 0 < len && off % BSIZE + len <= BSIZE
    ensures BlocksFor(off + len) == off / BSIZE + 1
    ensures off / BSIZE <= BlocksFor(off) <= off / BSIZE + 1
    ensures off + len <= MAXBYTES ==> off / BSIZE < MAXFILE
    ensures off / BSIZE * BSIZE + off % BSIZE == off
  {
  }

  /** The bit of block b in the free map. */
  predicate Marked(disk: seq<Block>, b: nat)
    requires IsDisk(disk) && b < FSSIZE
  {
    BitAt(disk[BBLOCK(b, NINODES)], b % BPB)
  }

  /** The marked blocks are the reserved ones and the owned ones. */
  ghost predicate MapOk(f: Fs)
    requires WF(f)
  {
    forall b :: 0 <= b < FSSIZE ==> (Marked(f.disk, b) <==> b < NMETA || b in f.owner)
  }

  /** What the kernel relies on in an image. */
  ghost predicate Mountable(f: Fs) {
    Linked(f) && SyncedBut(f, -1) && SuperOk(f.disk) && MapOk(f)
  }
}
