/** main of A.ide/tools/mkfs.c: the image made from a list of names and the files behind them. */
module MkfsMain {
  import opened FsFormat
  import opened FsState
  import opened Mkfs

  const SLASH: Byte := 47

  /** The prefix ".fs/" is dropped from a name. */
  function Stripped(name: seq<Byte>): seq<Byte> {
    if |name| >= 4 && name[..4] == [46, 102, 115, SLASH] then name[4..] else name
  }

  /** The entries of the root directory once these names are in it, as inodes 2, 3, 4 ... */
  function RootEntries(names: seq<seq<Byte>>): (e: seq<Byte>)
    requires |names| + 2 <= NINODES
    ensures |e| == DIRENT * (2 + |names|)
  {
    if names == [] then Dirent(ROOTINO, [46]) + Dirent(ROOTINO, [46, 46])
    else RootEntries(names[..|names| - 1]) + Dirent(|names| + 1, Stripped(names[|names| - 1]))
  }

  /** Past the end of file i there are only zeros. */
  ghost predicate ZeroTail(f: Fs, i: nat, n: nat)
    requires WF(f) && i < NINODES
  {
    forall k :: n <= k < MAXBYTES ==> Bytes(f.disk, f.tab[i])[k] == 0
  }

  /** The root directory and the files are in place; the inodes after them are unused. */
  ghost predicate Packed(f: Fs, names: seq<seq<Byte>>, files: seq<seq<seq<Byte>>>) {
    && WF(f) && Sized(f) && |names| == |files| && |files| + 2 <= NINODES
    && Labelled(f.tab[ROOTINO], T_DIR) && Content(f.disk, f.tab[ROOTINO]) == RootEntries(names)
    && ZeroTail(f, ROOTINO, DIRENT * (2 + |names|)) && f.tab[0] == ZeroInode()
    && (forall j :: 0 <= j < |files| ==> IsFile(f, 2 + j, Concat(files[j])))
    && (forall i :: 2 + |files| <= i < NINODES ==> f.tab[i] == ZeroInode())
  }

  predicate IsFile(f: Fs, i: nat, s: seq<Byte>)
    requires WF(f) && i < NINODES
  {
    Whole(f, i) && Labelled(f.tab[i], T_FILE) && Content(f.disk, f.tab[i]) == s
  }

  function GoalFor(files: seq<seq<seq<Byte>>>, i: nat): nat {
    if i == ROOTINO then BlocksFor(DIRENT * (2 + |files|))
    else if 2 <= i < 2 + |files| then BlocksFor(|Concat(files[i - 2])|)
    else 0
  }

  /** How many blocks each inode will have in the end. */
  function Goal(files: seq<seq<seq<Byte>>>): (g: seq<nat>)
    ensures |g| == NINODES
  {
    seq(NINODES, i requires 0 <= i => GoalFor(files, i))
  }

  /** The files fit: inodes, file sizes, and blocks. */
  predicate Fits(files: seq<seq<seq<Byte>>>) {
    && |files| + 2 <= NINODES
    && (forall j :: 0 <= j < |files| ==> |Concat(files[j])| <= MAXBYTES)
    && NMETA + TotalCost(Goal(files)) <= FSSIZE
  }

  lemma AppendsNothing(f: Fs, i: nat)
    requires WF(f) && Sized(f) && i < NINODES
    ensures Appends(f, f, i, [])
  {
    hide Bytes;
    assert Whole(f, i);
    var b := Bytes(f.disk, f.tab[i]);
    assert Overwrite(b, f.tab[i].size, []) == b;
    assert f.tab[i := f.tab[i]] == f.tab && f.ns[i := f.ns[i]] == f.ns;
  }

  lemma NextChunk(f0: Fs, f: Fs, i: nat, chunks: seq<seq<Byte>>, k: nat, goal: seq<nat>)
    requires WF(f0) && WF(f) && i < NINODES && k < |chunks| && Appends(f0, f, i, Concat(chunks[..k]))
    requires |goal| == NINODES && Within(f.ns, goal)
    requires f0.tab[i].size + |Concat(chunks)| <= MAXBYTES && BlocksFor(f0.tab[i].size + |Concat(chunks)|) <= goal[i]
    ensures Concat(chunks[..k + 1]) == Concat(chunks[..k]) + chunks[k]
    ensures var size := f.tab[i].size + |chunks[k]|;
            size <= MAXBYTES && Room(f.ns, i, BlocksFor(size)) && Within(f.ns[i := BlocksFor(size)], goal)
  {
    hide Bytes, TotalCost, Overwrite;
    assert chunks[..k + 1][..k] == chunks[..k];
    ConcatPrefix(chunks, k + 1);
    var size := f.tab[i].size + |chunks[k]|;
    BlocksMonotone(size, f0.tab[i].size + |Concat(chunks)|);
    WithinRoom(f.ns, goal, i, BlocksFor(size));
  }

  /** The read loop of main: what each read returns is appended. */
  method AppendChunks(img: Image, inum: nat, chunks: seq<seq<Byte>>, ghost goal: seq<nat>)
    requires img.Valid() && inum < NINODES && |goal| == NINODES && Within(img.fs.ns, goal)
    requires img.fs.tab[inum].size + |Concat(chunks)| <= MAXBYTES
    requires BlocksFor(img.fs.tab[inum].size + |Concat(chunks)|) <= goal[inum]
    modifies img
    ensures img.Valid() && img.freeinode == old(img.freeinode) && Within(img.fs.ns, goal)
    ensures Appends(old(img.fs), img.fs, inum, Concat(chunks))
  {
    hide Appends, Built, Bytes, SuperOk, Content, Room, SyncedBut, BlocksFor, Within, TotalCost, Concat;
    var k := 0;
    assert chunks[..0] == [] && Concat([]) == [] by { EmptyConcat(); }
    AppendsNothing(img.fs, inum);
    while k < |chunks|
      invariant k <= |chunks| && img.Valid() && img.freeinode == old(img.freeinode) && Within(img.fs.ns, goal)
      invariant Appends(old(img.fs), img.fs, inum, Concat(chunks[..k]))
    {
      NextChunk(old(img.fs), img.fs, inum, chunks, k, goal);
      ghost var f := img.fs;
      img.IAppend(inum, chunks[k]);
      AppendsTwice(old(img.fs), f, img.fs, inum, Concat(chunks[..k]), chunks[k]);
      AppendsCounts(f, img.fs, inum, chunks[k]);
      k := k + 1;
    }
    assert chunks[..k] == chunks;
  }

  lemma EmptyConcat()
    ensures Concat([]) == []
  {
  }

  lemma AppendsCounts(f: Fs, g: Fs, i: nat, s: seq<Byte>)
    requires WF(f) && WF(g) && i < NINODES && Appends(f, g, i, s)
    ensures g.ns == f.ns[i := BlocksFor(f.tab[i].size + |s|)]
    ensures g.tab == f.tab[i := g.tab[i]] && g.tab[i].size == f.tab[i].size + |s| && g.tab[i].typ == f.tab[i].typ
  {
  }

  // ---- one file of the command line --------------------------------------------------------------

  lemma GoalAt(files: seq<seq<seq<Byte>>>, k: nat)
    requires k < |files| && |files| + 2 <= NINODES
    ensures Goal(files)[ROOTINO] == BlocksFor(DIRENT * (2 + |files|))
    ensures Goal(files)[2 + k] == BlocksFor(|Concat(files[k])|)
  {
  }

  /** The inode and the root entry of file k fit. */
  lemma EntryFits(f: Fs, names: seq<seq<Byte>>, files: seq<seq<seq<Byte>>>, k: nat)
    requires k < |files| && |names| == |files| && Fits(files) && Packed(f, names[..k], files[..k])
    requires Within(f.ns, Goal(files))
    ensures f.tab[2 + k] == ZeroInode() && f.ns[2 + k] == 0 && f.tab[ROOTINO].size == DIRENT * (2 + k)
    ensures var m := BlocksFor(DIRENT * (3 + k)); Room(f.ns, ROOTINO, m) && Within(f.ns[ROOTINO := m], Goal(files))
    ensures |Concat(files[k])| <= MAXBYTES && BlocksFor(|Concat(files[k])|) <= Goal(files)[2 + k]
  {
    hide Bytes, TotalCost, Concat, Within, Goal;
    assert Whole(f, 2 + k);
    assert f.tab[ROOTINO].size == |Content(f.disk, f.tab[ROOTINO])|;
    GoalAt(files, k);
    BlocksMonotone(DIRENT * (3 + k), DIRENT * (2 + |files|));
    WithinRoom(f.ns, Goal(files), ROOTINO, BlocksFor(DIRENT * (3 + k)));
  }

  /** Appending to a file whose tail is zeros leaves zeros past the new end. */
  lemma TailKept(f: Fs, g: Fs, i: nat, s: seq<Byte>)
    requires WF(f) && WF(g) && i < NINODES && Appends(f, g, i, s) && ZeroTail(f, i, f.tab[i].size)
    ensures ZeroTail(g, i, f.tab[i].size + |s|)
  {
    hide Bytes;
  }

  /** The three changes one file makes: its inode, its entry in the root, its bytes. */
  ghost predicate FileAdded(f: Fs, f1: Fs, f2: Fs, g: Fs, i: nat, e: seq<Byte>, s: seq<Byte>) {
    && WF(f) && WF(f1) && WF(f2) && WF(g) && 2 <= i < NINODES
    && f1.tab == f.tab[i := NewInode(T_FILE)] && f1.ns == f.ns && SameBytes(f, f1)
    && Appends(f1, f2, ROOTINO, e) && Appends(f2, g, i, s)
  }

  lemma RootGrows(f: Fs, f1: Fs, f2: Fs, g: Fs, names: seq<seq<Byte>>, files: seq<seq<seq<Byte>>>, k: nat)
    requires k < |files| && |names| == |files| && |files| + 2 <= NINODES && Packed(f, names[..k], files[..k])
    requires FileAdded(f, f1, f2, g, 2 + k, Dirent(2 + k, Stripped(names[k])), Concat(files[k]))
    ensures Sized(f2) && Sized(g) && Bytes(g.disk, g.tab[ROOTINO]) == Bytes(f2.disk, f2.tab[ROOTINO])
    ensures Labelled(g.tab[ROOTINO], T_DIR) && Content(g.disk, g.tab[ROOTINO]) == RootEntries(names[..k + 1])
    ensures ZeroTail(g, ROOTINO, DIRENT * (3 + k))
  {
    hide Bytes, Dirent, Concat;
    var e := Dirent(2 + k, Stripped(names[k]));
    assert f.tab[ROOTINO].size == |Content(f.disk, f.tab[ROOTINO])|;
    assert Sized(f1) by {
      forall j | 0 <= j < NINODES ensures Whole(f1, j) { assert Whole(f, j); }
    }
    AppendsContent(f1, f2, ROOTINO, e);
    AppendsContent(f2, g, 2 + k, Concat(files[k]));
    TailKept(f1, f2, ROOTINO, e);
    assert names[..k + 1][..k] == names[..k];
  }

  lemma FilesKept(f: Fs, f1: Fs, f2: Fs, g: Fs, names: seq<seq<Byte>>, files: seq<seq<seq<Byte>>>, k: nat, j: nat)
    requires k < |files| && |names| == |files| && |files| + 2 <= NINODES && Packed(f, names[..k], files[..k]) && j <= k
    requires FileAdded(f, f1, f2, g, 2 + k, Dirent(2 + k, Stripped(names[k])), Concat(files[k])) && Sized(g)
    ensures IsFile(g, 2 + j, Concat(files[j]))
  {
    hide Bytes, Dirent, Concat, Overwrite;
    assert Whole(g, 2 + j) && Whole(f, 2 + j);
    if j < k {
      assert IsFile(f, 2 + j, Concat(files[..k][j]));
      assert g.tab[2 + j] == f.tab[2 + j];
    } else {
      var b := Bytes(f2.disk, f2.tab[2 + k]);
      OverwriteEnd(b, 0, Concat(files[k]));
      assert f2.tab[2 + k] == NewInode(T_FILE);
    }
  }

  /** One more file is in place. */
  lemma PackedOn(f: Fs, f1: Fs, f2: Fs, g: Fs, names: seq<seq<Byte>>, files: seq<seq<seq<Byte>>>, k: nat)
    requires k < |files| && |names| == |files| && |files| + 2 <= NINODES && Packed(f, names[..k], files[..k])
    requires FileAdded(f, f1, f2, g, 2 + k, Dirent(2 + k, Stripped(names[k])), Concat(files[k]))
    ensures Packed(g, names[..k + 1], files[..k + 1])
  {
    hide Bytes, Dirent, Concat, Content, RootEntries, IsFile, Overwrite;
    RootGrows(f, f1, f2, g, names, files, k);
    forall j | 0 <= j < k + 1 ensures IsFile(g, 2 + j, Concat(files[j])) {
      FilesKept(f, f1, f2, g, names, files, k, j);
    }
    assert forall j :: 0 <= j < k + 1 ==> files[..k + 1][j] == files[j];
  }

  // ---- the root directory alone ------------------------------------------------------------------

  lemma EmptyBytes(f: Fs, i: nat)
    requires Linked(f) && i < NINODES && f.ns[i] == 0
    ensures ZeroTail(f, i, 0)
  {
    forall k | 0 <= k < MAXBYTES ensures Bytes(f.disk, f.tab[i])[k] == 0 {
      Blocks(f, i, k / BSIZE);
      FlatAt(View(f.disk, f.tab[i]), k);
    }
  }

  lemma RootStarted(f: Fs, f1: Fs, f2: Fs, g: Fs)
    requires f == EmptyFs() && Linked(f) && Sized(f) && WF(f1) && WF(f2) && WF(g)
    requires f1.tab == f.tab[ROOTINO := NewInode(T_DIR)] && f1.ns == f.ns && SameBytes(f, f1)
    requires Appends(f1, f2, ROOTINO, Dirent(ROOTINO, [46])) && Appends(f2, g, ROOTINO, Dirent(ROOTINO, [46, 46]))
    ensures Packed(g, [], [])
  {
    EmptyBytes(f, ROOTINO);
    hide Bytes, Dirent, Linked;
    assert Sized(f1) by {
      forall j | 0 <= j < NINODES ensures Whole(f1, j) { assert Whole(f, j); }
    }
    AppendsContent(f1, f2, ROOTINO, Dirent(ROOTINO, [46]));
    AppendsContent(f2, g, ROOTINO, Dirent(ROOTINO, [46, 46]));
    TailKept(f1, f2, ROOTINO, Dirent(ROOTINO, [46]));
    TailKept(f2, g, ROOTINO, Dirent(ROOTINO, [46, 46]));
  }

  // ---- the end of main ---------------------------------------------------------------------------

  /** The root directory's size rounded up, past a whole number of blocks to one block more. */
  function Rounded(size: nat): nat { (size / BSIZE + 1) * BSIZE }

  /** What the finished image holds. It takes the blocks its files call for; the root's entries are followed by
      zeros; the root has all the blocks its size calls for unless its entries filled their last block. */
  ghost predicate Finished(f: Fs, free: nat, names: seq<seq<Byte>>, files: seq<seq<seq<Byte>>>) {
    && WF(f) && Mountable(f) && |names| == |files| && |files| + 2 <= NINODES
    && free == NMETA + TotalCost(f.ns) <= FSSIZE && f.ns[ROOTINO] == BlocksFor(DIRENT * (2 + |names|))
    && (forall b :: 0 <= b < FSSIZE ==> (Marked(f.disk, b) <==> b < free))
    && (forall b :: b in f.owner <==> NMETA <= b < free)
    && Labelled(f.tab[ROOTINO], T_DIR) && f.tab[ROOTINO].size == Rounded(DIRENT * (2 + |names|))
    && f.tab[0] == ZeroInode()
    && Bytes(f.disk, f.tab[ROOTINO])[..DIRENT * (2 + |names|)] == RootEntries(names)
    && ZeroTail(f, ROOTINO, DIRENT * (2 + |names|))
    && (Whole(f, ROOTINO) <==> DIRENT * (2 + |names|) % BSIZE != 0)
    && (forall j :: 0 <= j < |files| ==> IsFile(f, 2 + j, Concat(files[j])))
    && (forall i :: 2 + |files| <= i < NINODES ==> f.tab[i] == ZeroInode())
  }

  /** The state with the bitmap block replaced. */
  function WithMap(f: Fs, x: Block): (g: Fs)
    requires WF(f)
    ensures WF(g)
  {
    f.(disk := f.disk[NINODEBLOCKS + 2 := x])
  }

  lemma MapWritten(f: Fs, free: nat, x: Block)
    requires Built(f, free) && SyncedBut(f, -1) && SuperOk(f.disk) && FirstBits(x, free)
    ensures var g := WithMap(f, x);
            && Mountable(g) && SameBytes(f, g)
            && (forall b :: 0 <= b < FSSIZE ==> (Marked(g.disk, b) <==> b < free))
            && (forall b :: b in g.owner <==> NMETA <= b < free)
  {
    hide Built, Linked, SyncedBut, TotalCost, SameBytes, Word, Marked, FirstBits, Fresh;
    BuiltParts(f, free);
    OwnedBelow(f, free);
    UnownedChange(f, WithMap(f, x).disk);
    MapMarks(f, free, x);
    MapSynced(f, x);
  }

  lemma OwnedBelow(f: Fs, free: nat)
    requires Built(f, free)
    ensures forall b :: b in f.owner <==> NMETA <= b < free
  {
    hide Linked;
  }

  lemma MapMarks(f: Fs, free: nat, x: Block)
    requires WF(f) && FirstBits(x, free)
    ensures forall b :: 0 <= b < FSSIZE ==> (Marked(WithMap(f, x).disk, b) <==> b < free)
  {
    hide BitAt;
  }

  lemma MapSynced(f: Fs, x: Block)
    requires WF(f) && SyncedBut(f, -1)
    ensures SyncedBut(WithMap(f, x), -1)
  {
    hide DiskInode, WithMap;
    forall j | 0 <= j < NINODES ensures DiskInode(WithMap(f, x).disk, j) == WithMap(f, x).tab[j] {
      MapSyncedAt(f, x, j);
    }
  }

  lemma MapSyncedAt(f: Fs, x: Block, j: nat)
    requires WF(f) && j < NINODES
    ensures DiskInode(WithMap(f, x).disk, j) == DiskInode(f.disk, j) && WithMap(f, x).tab == f.tab
  {
    hide InodeAt;
  }

  /** Rounding the size of the root leaves its bytes alone. */
  lemma RootRounded(f: Fs, free: nat, d: Dinode)
    requires WF(f) && Built(f, free) && SyncedBut(f, -1) && SuperOk(f.disk)
    requires f.tab[ROOTINO].size < TWO16 && d == f.tab[ROOTINO].(size := Rounded(f.tab[ROOTINO].size))
    ensures var g := Stored(f, ROOTINO, d); Built(g, free) && SyncedBut(g, -1) && SuperOk(g.disk) && SameBytes(f, g)
  {
    hide Linked, DiskInode, WithDiskInode, Bytes, TotalCost, SuperOk;
    BuiltParts(f, free);
    StoredKeeps(f, ROOTINO, d);
  }

  lemma RootFinished(f: Fs, g: Fs, names: seq<seq<Byte>>, files: seq<seq<seq<Byte>>>)
    requires Packed(f, names, files) && WF(g) && SameBytes(f, g)
    requires g.ns == f.ns && g.tab == f.tab[ROOTINO := f.tab[ROOTINO].(size := Rounded(f.tab[ROOTINO].size))]
    ensures g.ns[ROOTINO] == BlocksFor(DIRENT * (2 + |names|)) && Labelled(g.tab[ROOTINO], T_DIR)
    ensures g.tab[ROOTINO].size == Rounded(DIRENT * (2 + |names|)) && ZeroTail(g, ROOTINO, DIRENT * (2 + |names|))
    ensures Bytes(g.disk, g.tab[ROOTINO])[..DIRENT * (2 + |names|)] == RootEntries(names)
    ensures Whole(g, ROOTINO) <==> DIRENT * (2 + |names|) % BSIZE != 0
  {
    hide Bytes, RootEntries, Concat, IsFile, Rounded, BlocksFor, Labelled;
    var n := DIRENT * (2 + |names|);
    assert f.tab[ROOTINO].size == |Content(f.disk, f.tab[ROOTINO])| == n;
    assert Whole(f, ROOTINO);
    RoundedWhole(n);
    Relabelled(f.tab[ROOTINO], Rounded(n));
  }

  /** Rounding up keeps the number of blocks unless they were full. */
  lemma RoundedWhole(n: nat)
    requires n <= DIRENT * NINODES
    ensures Rounded(n) <= MAXBYTES && (BlocksFor(Rounded(n)) == BlocksFor(n) <==> n % BSIZE != 0)
  {
  }

  lemma Relabelled(d: Dinode, size: U32)
    ensures Labelled(d, T_DIR) ==> Labelled(d.(size := size), T_DIR)
  {
  }

  lemma Finishing(f: Fs, g: Fs, free: nat, names: seq<seq<Byte>>, files: seq<seq<seq<Byte>>>)
    requires Packed(f, names, files) && WF(g) && Mountable(g) && SameBytes(f, g)
    requires g.ns == f.ns && g.tab == f.tab[ROOTINO := f.tab[ROOTINO].(size := Rounded(f.tab[ROOTINO].size))]
    requires forall b :: 0 <= b < FSSIZE ==> (Marked(g.disk, b) <==> b < free)
    requires forall b :: b in g.owner <==> NMETA <= b < free
    requires free == NMETA + TotalCost(f.ns) <= FSSIZE
    ensures Finished(g, free, names, files)
  {
    hide Bytes, Mountable, Marked, RootEntries, Concat, TotalCost, IsFile, BlocksFor, Whole, Labelled, ZeroTail,
      Rounded, Content, SameBytes, ZeroInode;
    RootFinished(f, g, names, files);
    forall j | 0 <= j < |files| ensures IsFile(g, 2 + j, Concat(files[j])) {
      assert IsFile(f, 2 + j, Concat(files[j]));
      StillFile(f, g, 2 + j, Concat(files[j]));
    }
  }

  lemma StillFile(f: Fs, g: Fs, i: nat, s: seq<Byte>)
    requires WF(f) && WF(g) && SameBytes(f, g) && 2 <= i < NINODES && IsFile(f, i, s)
    requires g.ns == f.ns && g.tab == f.tab[ROOTINO := g.tab[ROOTINO]]
    ensures IsFile(g, i, s)
  {
    hide Bytes;
  }

  /** Lines 153 to 160: the root's size is rounded and the bitmap written. */
  method Finish(img: Image, ghost names: seq<seq<Byte>>, ghost files: seq<seq<seq<Byte>>>)
    requires img.Valid() && Packed(img.fs, names, files)
    modifies img
    ensures img.fs.disk == img.disk && Finished(img.fs, img.freeblock, names, files)
  {
    hide Built, Bytes, SuperOk, SyncedBut, Content, TotalCost, DiskInode, WithDiskInode, IsFile, RootEntries,
      SameBytes, Mountable, Finished, Linked, InodeAt, Marked, FirstBits, Concat;
    ghost var f := img.fs;
    RootKnown(f, img.freeblock, names, files);
    var din := img.Rinode(ROOTINO);
    var off := din.size;
    off := (off / BSIZE + 1) * BSIZE;
    din := din.(size := off);
    RootRounded(f, img.freeblock, din);
    img.Winode(ROOTINO, din);
    ghost var g := Stored(f, ROOTINO, din);
    BuiltParts(g, img.freeblock);
    img.Balloc(img.freeblock);
    ghost var x := img.disk[NINODEBLOCKS + 2];
    MapWritten(g, img.freeblock, x);
    img.fs := WithMap(g, x);
    SameTwice(f, g, img.fs);
    Finishing(f, img.fs, img.freeblock, names, files);
  }

  lemma RootKnown(f: Fs, free: nat, names: seq<seq<Byte>>, files: seq<seq<seq<Byte>>>)
    requires Packed(f, names, files) && SyncedBut(f, -1)
    ensures WF(f) && DiskInode(f.disk, ROOTINO) == f.tab[ROOTINO] && f.tab[ROOTINO].size < TWO16
  {
    hide Bytes, DiskInode;
    assert f.tab[ROOTINO].size == |Content(f.disk, f.tab[ROOTINO])|;
  }

  lemma SameTwice(f: Fs, g: Fs, h: Fs)
    requires WF(f) && WF(g) && WF(h) && SameBytes(f, g) && SameBytes(g, h)
    ensures SameBytes(f, h)
  {
    hide Bytes;
  }

  /** mkfs: the image of files that fit it. */
  method MakeImage(names: seq<seq<Byte>>, files: seq<seq<seq<Byte>>>) returns (img: Image)
    requires |names| == |files| && Fits(files) && forall k :: 0 <= k < |names| ==> SLASH !in Stripped(names[k])
    ensures fresh(img) && img.fs.disk == img.disk && Finished(img.fs, img.freeblock, names, files)
  {
    hide Built, Bytes, SuperOk, SyncedBut, Content, TotalCost, Within, Appends, EmptyFs, Dirent, Packed, Finished,
      SameBytes, Room, Goal, BlocksFor, Concat, Linked, Fits, FileAdded;
    img := new Image.Format();
    ghost var goal := Goal(files);
    StartFits(files);
    var rootino := MakeRoot(img, goal);
    var i := 0;
    assert names[..0] == [] && files[..0] == [];
    while i < |files|
      invariant i <= |files| && img.Valid() && img.freeinode == 2 + i && fresh(img)
      invariant Packed(img.fs, names[..i], files[..i]) && Within(img.fs.ns, goal)
    {
      AddFile(img, rootino, names, files, i);
      i := i + 1;
    }
    assert names[..i] == names && files[..i] == files;
    Finish(img, names, files);
  }

  lemma StartFits(files: seq<seq<seq<Byte>>>)
    requires Fits(files)
    ensures |files| + 2 <= NINODES
    ensures Within(EmptyFs().ns, Goal(files)) && BlocksFor(2 * DIRENT) <= Goal(files)[ROOTINO]
    ensures EmptyFs().tab[ROOTINO] == ZeroInode() && EmptyFs().ns[ROOTINO] == 0
  {
    hide TotalCost, Concat;
  }

  /** Lines 114 to 125: the root directory with its two entries. */
  method MakeRoot(img: Image, ghost goal: seq<nat>) returns (rootino: nat)
    requires img.Valid() && img.fs == EmptyFs() && img.freeinode == 1
    requires |goal| == NINODES && Within(img.fs.ns, goal) && BlocksFor(2 * DIRENT) <= goal[ROOTINO]
    requires img.fs.tab[ROOTINO] == ZeroInode() && img.fs.ns[ROOTINO] == 0
    modifies img
    ensures img.Valid() && rootino == ROOTINO && img.freeinode == 2 && Within(img.fs.ns, goal) && Packed(img.fs, [], [])
  {
    hide Built, Bytes, SuperOk, SyncedBut, Content, TotalCost, Within, Appends, EmptyFs, Dirent, Packed, SameBytes,
      Room, Linked;
    BuiltParts(img.fs, img.freeblock);
    ghost var f := img.fs;
    rootino := img.IAlloc(T_DIR);
    ghost var f1 := img.fs;
    WithinRoom(f1.ns, goal, ROOTINO, BlocksFor(DIRENT));
    img.IAppend(rootino, Dirent(rootino, [46]));
    ghost var f2 := img.fs;
    AppendsCounts(f1, f2, ROOTINO, Dirent(ROOTINO, [46]));
    WithinRoom(f2.ns, goal, ROOTINO, BlocksFor(2 * DIRENT));
    img.IAppend(rootino, Dirent(rootino, [46, 46]));
    AppendsCounts(f2, img.fs, ROOTINO, Dirent(ROOTINO, [46, 46]));
    RootStarted(f, f1, f2, img.fs);
  }

  /** Lines 128 to 150: one file of the command line. */
  method AddFile(img: Image, rootino: nat, names: seq<seq<Byte>>, files: seq<seq<seq<Byte>>>, i: nat)
    requires i < |files| && |names| == |files| && Fits(files) && rootino == ROOTINO
    requires img.Valid() && img.freeinode == 2 + i && SLASH !in Stripped(names[i])
    requires Packed(img.fs, names[..i], files[..i]) && Within(img.fs.ns, Goal(files))
    modifies img
    ensures img.Valid() && img.freeinode == 3 + i
    ensures Packed(img.fs, names[..i + 1], files[..i + 1]) && Within(img.fs.ns, Goal(files))
  {
    hide Built, Bytes, SuperOk, SyncedBut, Content, TotalCost, Within, Appends, Dirent, Packed, SameBytes, Room,
      Goal, BlocksFor, Concat, Linked;
    ghost var f := img.fs;
    EntryFits(f, names, files, i);
    var name := Stripped(names[i]);
    var inum := img.IAlloc(T_FILE);
    ghost var f1 := img.fs;
    img.IAppend(rootino, Dirent(inum, name));
    ghost var f2 := img.fs;
    AppendsCounts(f1, f2, ROOTINO, Dirent(inum, name));
    AppendChunks(img, inum, files[i], Goal(files));
    PackedOn(f, f1, f2, img.fs, names, files, i);
  }
}
