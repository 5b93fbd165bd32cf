/** A disk that A.ide/tools/mkfs.c fills to the last block, and the first write of A.ide/src/fs.c that needs another. */
module DiskFull {
  import opened FsFormat
  import opened FsState
  import opened FsAlloc
  import opened FsWrite
  import opened FsKernel
  import opened Mkfs
  import opened MkfsMain
  import opened RoundTrip

  /** The length of file j of seven that leave no block free: six as long as a file can be, and one of 135 blocks. */
  function FillLength(j: nat): nat { if j < 6 then MAXBYTES else 135 * BSIZE }

  function FillFile(j: nat): (c: seq<seq<Byte>>)
    ensures |Concat(c)| == FillLength(j)
  {
    var chunk: seq<Byte> := seq(FillLength(j), _ => 0);
    assert [chunk][..0] == [] && Concat([chunk]) == Concat([]) + chunk;
    [chunk]
  }

  function FillFiles(): (files: seq<seq<seq<Byte>>>)
    ensures |files| == 7 && forall j :: 0 <= j < 7 ==> files[j] == FillFile(j)
  {
    seq(7, j requires 0 <= j < 7 => FillFile(j))
  }

  /** With the root's block they take the whole data area. */
  lemma FillGoal(g: seq<nat>)
    requires |g| == NINODES && g[ROOTINO] == 1 && forall j :: 0 <= j < 7 ==> g[2 + j] == BlocksFor(FillLength(j))
    requires g[0] == 0 && forall i :: 9 <= i < NINODES ==> g[i] == 0
    ensures NMETA + TotalCost(g) == FSSIZE
  {
    hide TotalCost;
    var z: seq<nat> := seq(NINODES, _ => 0);
    NoCost(z);
    TotalCostUpdate(z, 1, 1);
    var k, h := 0, z[1 := 1];
    while k < 7
      invariant k <= 7 && |h| == NINODES && forall i :: 0 <= i < NINODES ==> h[i] == if i < 2 + k then g[i] else 0
      invariant TotalCost(h) == 1 + (if k == 7 then 6 * 139 + 136 else k * 139)
    {
      assert g[2 + k] == BlocksFor(FillLength(k)) == if k < 6 then 138 else 135;
      TotalCostUpdate(h, 2 + k, g[2 + k]);
      h := h[2 + k := g[2 + k]];
      k := k + 1;
    }
    assert h == g;
  }

  lemma FillFits()
    ensures Fits(FillFiles())
    ensures var g := Goal(FillFiles()); |g| == NINODES && TotalCost(g) == FSSIZE - NMETA
  {
    hide TotalCost, Concat, FillLength;
    var files := FillFiles();
    var g := Goal(files);
    forall j | 0 <= j < 7 ensures g[2 + j] == BlocksFor(FillLength(j)) && |Concat(files[j])| <= MAXBYTES {
      GoalAt(files, j);
      ShortEnough(j);
    }
    FillGoal(g);
  }

  lemma ShortEnough(j: nat)
    ensures FillLength(j) <= MAXBYTES && (j == 6 ==> FillLength(j) == 135 * BSIZE)
  {
  }

  /** So there is no free block, and the last of them is a whole number of blocks long. */
  lemma FillsDisk(f: Fs, free: nat, names: seq<seq<Byte>>)
    requires Finished(f, free, names, FillFiles())
    ensures Free(f.disk) == {} && f.tab[8].typ == T_FILE && f.tab[8].size == 135 * BSIZE && Whole(f, 8)
  {
    hide TotalCost, Concat, FillLength, Marked, Mountable, RootEntries, Bytes, ZeroTail, BlocksFor, Goal;
    var files, g := FillFiles(), Goal(FillFiles());
    FillFits();
    assert forall j :: 0 <= j < 7 ==> IsFile(f, 2 + j, Concat(files[j]));
    forall i | 0 <= i < NINODES ensures g[i] <= f.ns[i] { NeedsMore(f, files, i); }
    TotalCostMonotone(g, f.ns);
    assert IsFile(f, 2 + 6, Concat(files[6]));
    WholeSize(f, 8);
    ShortEnough(6);
  }

  lemma NeedsMore(f: Fs, files: seq<seq<seq<Byte>>>, i: nat)
    requires WF(f) && i < NINODES && |files| == 7 && f.ns[ROOTINO] == BlocksFor(DIRENT * (2 + |files|))
    requires forall j :: 0 <= j < 7 ==> IsFile(f, 2 + j, Concat(files[j]))
    ensures Goal(files)[i] <= f.ns[i]
  {
    hide Bytes, Concat, BlocksFor;
    if 2 <= i < 9 {
      assert IsFile(f, 2 + (i - 2), Concat(files[i - 2]));
      WholeSize(f, i);
    }
  }

  /** mkfs fills the disk, the kernel mounts it, and one byte is written at the end of a file: by the end of its pass
      that byte is the first of block 0, and nothing else on the disk has changed. */
  method FullDisk(x: Byte) returns (k: FileSys, ghost f: Fs, ghost free: nat, ghost names: seq<seq<Byte>>)
    ensures Finished(f, free, names, FillFiles()) && IsDisk(f.disk)
    ensures k.disk == f.disk[0 := [x] + f.disk[0][1..]]
  {
    hide Finished, Mountable, Fits, FillLength, Concat, Content, Shorted, Enough, CacheOk, Sound;
    var ns: seq<seq<Byte>> := seq(7, j requires 0 <= j < 7 => [65 + j]);
    names := ns;
    FillFits();
    var img := MakeImage(ns, FillFiles());
    f, free := img.fs, img.freeblock;
    FillsDisk(f, free, names);
    CanMount(f, free, names, FillFiles());
    k := OpenFresh(img.disk, f, 8);
    NoRoom(f);
    k.WriteShort(0, [x], 135 * BSIZE, 0);
    FirstByte(f, k.fs, k.disk, x);
  }

  lemma CanMount(f: Fs, free: nat, names: seq<seq<Byte>>, files: seq<seq<seq<Byte>>>)
    requires Finished(f, free, names, files)
    ensures Mountable(f)
  {
  }

  lemma NoRoom(f: Fs)
    requires WF(f) && Free(f.disk) == {} && f.tab[8].size == 135 * BSIZE && Whole(f, 8)
    ensures Enough(f, 8, 135 * BSIZE) && !Enough(f, 8, 135 * BSIZE + 1)
  {
    EnoughAlready(f, 8, 135 * BSIZE);
  }

  lemma FirstByte(f: Fs, g: Fs, disk: seq<Block>, x: Byte)
    requires WF(f) && WF(g) && Shorted(f, g, disk, 8, 135 * BSIZE, [x], 0)
    ensures disk == f.disk[0 := [x] + f.disk[0][1..]]
  {
    hide Sound, Writing;
    assert [x][0..1] == [x];
    assert Overwrite(f.disk[0], 0, [x]) == [x] + f.disk[0][1..];
  }
}
