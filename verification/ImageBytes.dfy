/** The image A.ide/tools/mkfs.c makes as a file of bytes, read at the places where A.ide/include/fs.h puts things:
    512-byte blocks, 64-byte inodes from block 2 on, the bitmap in block 28, numbers low byte first. */
module ImageBytes {
  import opened FsFormat
  import opened FsState
  import opened Mkfs
  import opened MkfsMain

  /** Byte o of the image. */
  function ByteAt(disk: seq<Block>, o: nat): Byte
    requires IsDisk(disk) && o < 512_000
  {
    disk[o / 512][o % 512]
  }

  /** The number in the n bytes from o on. */
  function Num(disk: seq<Block>, o: nat, n: nat): nat
    requires IsDisk(disk) && o + n <= 512_000
  {
    Little(seq<Byte>(n, k requires 0 <= k < n => ByteAt(disk, o + k)))
  }

  lemma InBlock(disk: seq<Block>, b: nat, o: nat, n: nat)
    requires IsDisk(disk) && b < FSSIZE && o + n <= 512
    ensures 512 * b + o + n <= 512_000 && Num(disk, 512 * b + o, n) == Little(disk[b][o..o + n])
  {
    hide Little, Word, Short;
    var p := 512 * b + o;
    var s := seq<Byte>(n, k requires 0 <= k < n => ByteAt(disk, p + k));
    forall k | 0 <= k < n ensures s[k] == disk[b][o..o + n][k] {
      Places(b, o + k);
      assert s[k] == ByteAt(disk, 512 * b + (o + k));
    }
    assert s == disk[b][o..o + n];
  }

  lemma WordInBlock(disk: seq<Block>, b: nat, o: nat)
    requires IsDisk(disk) && b < FSSIZE && o + 4 <= 512
    ensures 512 * b + o + 4 <= 512_000 && Num(disk, 512 * b + o, 4) == Word(disk[b], o)
  {
    hide Num, Little, Word, Short;
    InBlock(disk, b, o, 4);
    InOrder(disk[b], o);
  }

  lemma ShortInBlock(disk: seq<Block>, b: nat, o: nat)
    requires IsDisk(disk) && b < FSSIZE && o + 2 <= 512
    ensures 512 * b + o + 2 <= 512_000 && Num(disk, 512 * b + o, 2) == Short(disk[b], o)
  {
    hide Num, Little, Word, Short;
    InBlock(disk, b, o, 2);
    InOrder(disk[b], o);
  }

  lemma Places(b: nat, r: nat)
    requires r < 512
    ensures (512 * b + r) / 512 == b && (512 * b + r) % 512 == r
  {
  }

  // ---- the structures --------------------------------------------------------------------------

  /** Size of the disk, of the data area, of the inode table, of the log. */
  lemma SuperInBytes(disk: seq<Block>)
    requires IsDisk(disk) && SuperOk(disk)
    ensures Num(disk, 512, 4) == 1000 && Num(disk, 516, 4) == 941 && Num(disk, 520, 4) == 200 && Num(disk, 524, 4) == 30
  {
    hide Word, Num;
    WordInBlock(disk, 1, 0);
    WordInBlock(disk, 1, 4);
    WordInBlock(disk, 1, 8);
    WordInBlock(disk, 1, 12);
  }

  /** Where inode i begins. */
  function InodeAddress(i: nat): nat { 1024 + 64 * i }

  lemma InodePlace(i: nat)
    requires i < NINODES
    ensures InodeAddress(i) == 512 * IBLOCK(i) + 64 * (i % IPB) && i % IPB < 8 && IBLOCK(i) < 28
  {
  }

  /** The fields of an inode, in order. */
  lemma InodeInBytes(disk: seq<Block>, i: nat)
    requires IsDisk(disk) && i < NINODES
    ensures var d, o := DiskInode(disk, i), InodeAddress(i);
            && Num(disk, o, 2) == d.typ && Num(disk, o + 2, 2) == d.major && Num(disk, o + 4, 2) == d.minor
            && Num(disk, o + 6, 2) == d.nlink && Num(disk, o + 8, 2) == d.ownerid && Num(disk, o + 10, 2) == d.groupid
            && Num(disk, o + 12, 4) == d.mode && Num(disk, o + 16, 4) == d.size
            && forall j :: 0 <= j <= 10 ==> Num(disk, o + 20 + 4 * j, 4) == d.addrs[j]
  {
    hide Word, Short, Num;
    InodePlace(i);
    var b, s, d := IBLOCK(i), 64 * (i % IPB), DiskInode(disk, i);
    ShortInBlock(disk, b, s);
    ShortInBlock(disk, b, s + 2);
    ShortInBlock(disk, b, s + 4);
    ShortInBlock(disk, b, s + 6);
    ShortInBlock(disk, b, s + 8);
    ShortInBlock(disk, b, s + 10);
    WordInBlock(disk, b, s + 12);
    WordInBlock(disk, b, s + 16);
    forall j | 0 <= j <= 10 ensures Num(disk, InodeAddress(i) + 20 + 4 * j, 4) == d.addrs[j] {
      WordInBlock(disk, b, s + (20 + 4 * j));
      assert 512 * b + (s + (20 + 4 * j)) == InodeAddress(i) + 20 + 4 * j;
    }
  }

  lemma {:induction false} BitIs(x: nat, k: nat)
    ensures Pow2(k) > 0 && (BitOf(x, k) <==> x / Pow2(k) % 2 == 1)
  {
    if k > 0 {
      BitIs(x / 2, k - 1);
      HalfFirst(x, Pow2(k - 1));
    }
  }

  lemma HalfFirst(x: nat, d: nat)
    requires d > 0
    ensures x / 2 / d == x / (2 * d)
  {
    var q, r := x / (2 * d), x % (2 * d);
    assert x == 2 * d * q + r;
    assert x / 2 == d * q + r / 2 && r / 2 < d;
    Quotient(x / 2, d, q, r / 2);
  }

  lemma Quotient(x: nat, d: nat, q: nat, r: nat)
    requires x == d * q + r && r < d
    ensures x / d == q
  {
    var e := x / d;
    assert x == d * e + x % d;
    assert e < q ==> d * (e + 1) <= d * q;
    assert e > q ==> d * (q + 1) <= d * e;
  }

  /** Bit b of the image's map: bit b % 8 of byte b / 8 of block 28. */
  predicate MapBit(disk: seq<Block>, b: nat)
    requires IsDisk(disk) && b < 1000
  {
    ByteAt(disk, 14_336 + b / 8) / [1, 2, 4, 8, 16, 32, 64, 128][b % 8] % 2 == 1
  }

  lemma Powers(k: nat)
    requires k < 8
    ensures Pow2(k) == [1, 2, 4, 8, 16, 32, 64, 128][k]
  {
    assert Pow2(4) == 16;
  }

  lemma MapInBytes(disk: seq<Block>, b: nat)
    requires IsDisk(disk) && b < FSSIZE
    ensures Marked(disk, b) <==> MapBit(disk, b)
  {
    hide BitOf, Pow2;
    var x := disk[28][b / 8];
    Places(28, b / 8);
    assert Marked(disk, b) <==> BitOf(x, b % 8);
    BitIs(x, b % 8);
    Powers(b % 8);
  }

  // ---- files -----------------------------------------------------------------------------------

  /** The address of block b of file i, by way of the inode and, past the tenth block, of the indirect block. */
  function Address(disk: seq<Block>, i: nat, b: nat): nat
    requires IsDisk(disk) && i < NINODES && b < 138
  {
    if b < 10 then Num(disk, InodeAddress(i) + 20 + 4 * b, 4)
    else
      var a := Num(disk, InodeAddress(i) + 60, 4);
      if a < 1000 then Num(disk, 512 * a + 4 * (b - 10), 4) else 0
  }

  /** Byte k of file i, from the image alone. */
  function FileByte(disk: seq<Block>, i: nat, k: nat): Byte
    requires IsDisk(disk) && i < NINODES && k < 70_656
  {
    var a := Address(disk, i, k / 512);
    if a < 1000 then ByteAt(disk, 512 * a + k % 512) else 0
  }

  /** The n bytes from k on of file i. */
  function FileBytes(disk: seq<Block>, i: nat, k: nat, n: nat): (s: seq<Byte>)
    requires IsDisk(disk) && i < NINODES && k + n <= 70_656
    ensures |s| == n
  {
    seq<Byte>(n, c requires 0 <= c < n => FileByte(disk, i, k + c))
  }

  lemma AddressIs(f: Fs, i: nat, b: nat)
    requires Linked(f) && SyncedBut(f, -1) && i < NINODES && b < f.ns[i]
    ensures WF(f) && f.ns[i] <= 138 && Address(f.disk, i, b) == P(f, i, b) && 29 <= P(f, i, b) < 1000
  {
    hide Num, Entry, Word, DiskInode, Pointed, Backed;
    Blocks(f, i, 0);
    Blocks(f, i, b);
    InodeInBytes(f.disk, i);
    assert DiskInode(f.disk, i) == f.tab[i];
    if b >= 10 {
      var a := f.tab[i].addrs[10];
      WordInBlock(f.disk, a, 4 * (b - 10));
      EntryIs(f.disk[a], b - 10);
    }
  }

  lemma EntryIs(x: Block, j: nat)
    requires j < NINDIRECT
    ensures Entry(x, j) == Word(x, 4 * j)
  {
  }

  lemma ByteInFile(f: Fs, i: nat, k: nat)
    requires WF(f) && Linked(f) && SyncedBut(f, -1) && i < NINODES && k / 512 < f.ns[i]
    ensures k < 70_656 && FileByte(f.disk, i, k) == Bytes(f.disk, f.tab[i])[k]
  {
    hide Num, Address, Linked, SyncedBut, Flat;
    AddressIs(f, i, k / 512);
    FlatAt(View(f.disk, f.tab[i]), k);
    Places(P(f, i, k / 512), k % 512);
  }

  /** What a file holds is found by following the addresses in the image. */
  lemma FileInBytes(f: Fs, i: nat, k: nat, n: nat)
    requires WF(f) && Linked(f) && SyncedBut(f, -1) && i < NINODES && k + n <= MAXBYTES && BlocksFor(k + n) <= f.ns[i]
    ensures FileBytes(f.disk, i, k, n) == Bytes(f.disk, f.tab[i])[k..k + n]
  {
    hide FileByte, Bytes, Linked, SyncedBut;
    forall c | 0 <= c < n ensures FileBytes(f.disk, i, k, n)[c] == Bytes(f.disk, f.tab[i])[k..k + n][c] {
      ByteInFile(f, i, k + c);
    }
  }

  // ---- the whole image -------------------------------------------------------------------------

  /** The inode of a file in use: its type, no device, one link, owner 99 of group 1, mode 0x700. */
  predicate InodeSays(disk: seq<Block>, i: nat, typ: nat, size: nat)
    requires IsDisk(disk) && i < NINODES
  {
    var o := InodeAddress(i);
    && Num(disk, o, 2) == typ && Num(disk, o + 2, 2) == 0 && Num(disk, o + 4, 2) == 0 && Num(disk, o + 6, 2) == 1
    && Num(disk, o + 8, 2) == 99 && Num(disk, o + 10, 2) == 1 && Num(disk, o + 12, 4) == 0x700
    && Num(disk, o + 16, 4) == size
  }

  /** s is the name without ".fs/" in front. */
  predicate Bare(name: seq<Byte>, s: seq<Byte>) {
    name == [46, 102, 115, 47] + s || (name == s && !([46, 102, 115, 47] <= s))
  }

  lemma StrippedIsBare(name: seq<Byte>)
    ensures Bare(name, Stripped(name))
  {
    var p: seq<Byte> := [46, 102, 115, 47];
    if |name| >= 4 {
      assert name == name[..4] + name[4..];
      assert p <= name <==> name[..4] == p;
    }
  }

  /** Byte c of the 14 that hold a name. */
  function Padded(s: seq<Byte>, c: nat): Byte { if c < |s| then s[c] else 0 }

  /** An entry of a directory: the number of an inode, and a name filled up with zeros. */
  predicate EntrySays(e: seq<Byte>, inum: nat, name: seq<Byte>) {
    && |e| == 16 && Little(e[..2]) == inum && forall c :: 0 <= c < 14 ==> e[2 + c] == Padded(name, c)
  }

  lemma DirentSays(inum: U16, name: seq<Byte>)
    ensures EntrySays(Dirent(inum, name), inum, name)
  {
    hide Little;
    var e := Dirent(inum, name);
    ShortOfBytes(e, 0, inum);
    InOrder(e, 0);
    assert e[0..2] == e[..2];
  }

  /** What entry k of the root is for: the root itself, the root again as its own parent, then the files in order. */
  ghost predicate RootEntry(e: seq<Byte>, names: seq<seq<Byte>>, k: nat)
    requires k < 2 + |names|
  {
    if k == 0 then EntrySays(e, 1, [46])
    else if k == 1 then EntrySays(e, 1, [46, 46])
    else exists s :: Bare(names[k - 2], s) && EntrySays(e, k, s)
  }

  lemma {:induction false} RootEntriesSay(names: seq<seq<Byte>>, k: nat)
    requires |names| + 2 <= NINODES && k < 2 + |names|
    ensures RootEntry(RootEntries(names)[16 * k..16 * k + 16], names, k)
  {
    hide Dirent, EntrySays;
    if names == [] {
      DirentSays(1, [46]);
      DirentSays(1, [46, 46]);
      assert RootEntries(names)[0..16] == Dirent(1, [46]) && RootEntries(names)[16..32] == Dirent(1, [46, 46]);
    } else {
      var init, last := names[..|names| - 1], names[|names| - 1];
      var e := Dirent(|names| + 1, Stripped(last));
      if k == 1 + |names| {
        StrippedIsBare(last);
        DirentSays(k, Stripped(last));
        assert RootEntries(names)[16 * k..16 * k + 16] == e;
      } else {
        RootEntriesSay(init, k);
        assert RootEntries(names)[16 * k..16 * k + 16] == RootEntries(init)[16 * k..16 * k + 16];
      }
    }
  }

  /** In the image mkfs makes the map has exactly the blocks below the first unused one. */
  lemma MapIs(f: Fs, free: nat, names: seq<seq<Byte>>, files: seq<seq<seq<Byte>>>)
    requires Finished(f, free, names, files)
    ensures IsDisk(f.disk) && forall b :: 0 <= b < 1000 ==> (MapBit(f.disk, b) <==> b < free)
  {
    hide MapBit, Marked, Mountable, Bytes, RootEntries, IsFile, ZeroTail, TotalCost, Labelled, Whole;
    forall b | 0 <= b < 1000 ensures MapBit(f.disk, b) <==> b < free {
      MapInBytes(f.disk, b);
    }
  }

  /** The root is inode 1, a directory, and file j is inode 2 + j. */
  lemma InodesAre(f: Fs, free: nat, names: seq<seq<Byte>>, files: seq<seq<seq<Byte>>>)
    requires Finished(f, free, names, files)
    ensures IsDisk(f.disk) && |files| + 2 <= 200
    ensures InodeSays(f.disk, 1, 1, (16 * (2 + |names|) / 512 + 1) * 512)
    ensures forall j :: 0 <= j < |files| ==> InodeSays(f.disk, 2 + j, 2, |Concat(files[j])|)
  {
    hide InodeSays, Marked, Linked, SyncedBut, Bytes, RootEntries, ZeroTail, TotalCost, Labelled, Whole, Concat,
      Content;
    Says(f, 1, 1);
    forall j | 0 <= j < |files| ensures InodeSays(f.disk, 2 + j, 2, |Concat(files[j])|) {
      assert IsFile(f, 2 + j, Concat(files[j]));
      Says(f, 2 + j, 2);
      WholeSize(f, 2 + j);
    }
  }

  lemma Says(f: Fs, i: nat, typ: nat)
    requires WF(f) && SyncedBut(f, -1) && i < NINODES && Labelled(f.tab[i], typ)
    ensures InodeSays(f.disk, i, typ, f.tab[i].size)
  {
    hide Num, DiskInode;
    assert DiskInode(f.disk, i) == f.tab[i];
    InodeInBytes(f.disk, i);
  }

  /** Following the addresses in the image gives back every byte of file j from inode 2 + j. */
  lemma FilesAre(f: Fs, free: nat, names: seq<seq<Byte>>, files: seq<seq<seq<Byte>>>, j: nat)
    requires Finished(f, free, names, files) && j < |files|
    ensures IsDisk(f.disk) && 2 + j < 200 && |Concat(files[j])| <= 70_656
    ensures FileBytes(f.disk, 2 + j, 0, |Concat(files[j])|) == Concat(files[j])
  {
    hide FileBytes, Marked, Linked, SyncedBut, Bytes, RootEntries, ZeroTail, TotalCost, Labelled, Concat;
    assert IsFile(f, 2 + j, Concat(files[j]));
    WholeSize(f, 2 + j);
    FileInBytes(f, 2 + j, 0, |Concat(files[j])|);
  }

  /** And the entries of the root from inode 1. */
  lemma RootIs(f: Fs, free: nat, names: seq<seq<Byte>>, files: seq<seq<seq<Byte>>>, k: nat)
    requires Finished(f, free, names, files) && k < 2 + |names|
    ensures IsDisk(f.disk) && |names| + 2 <= 200 && RootEntry(FileBytes(f.disk, 1, 16 * k, 16), names, k)
  {
    hide FileBytes, Marked, Linked, SyncedBut, Bytes, RootEntries, ZeroTail, TotalCost, Labelled, RootEntry, IsFile,
      Whole, SuperOk;
    RootEntriesSay(names, k);
    var b, e := Bytes(f.disk, f.tab[1]), RootEntries(names);
    assert b[16 * k..16 * k + 16] == e[16 * k..16 * k + 16] by { assert b[..16 * (2 + |names|)] == e; }
    BlocksMonotone(16 * k + 16, 16 * (2 + |names|));
    FileInBytes(f, 1, 16 * k, 16);
  }
}
