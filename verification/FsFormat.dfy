/** The on-disk format of A.ide/include/fs.h, byte for byte: words and shorts in Intel byte order, the
    inodes of an inode block, the bits of a bitmap block, and which block holds what. */
module FsFormat {

  const BSIZE: nat := 512
  const NDIRECT: nat := 10
  const NINDIRECT: nat := BSIZE / 4
  const MAXFILE: nat := NDIRECT + NINDIRECT
  const MAXBYTES: nat := MAXFILE * BSIZE
  const DINODE: nat := 64
  const IPB: nat := BSIZE / DINODE
  const BPB: nat := BSIZE * 8
  const DIRSIZ: nat := 14
  const DIRENT: nat := 16
  const ROOTINO: nat := 1
  const FSSIZE: nat := 1000
  const LOGSIZE: nat := 30
  const NINODES: nat := 200
  const T_DIR: nat := 1
  const T_FILE: nat := 2
  const T_DEV: nat := 3
  const TWO16: nat := 0x1_0000
  const TWO32: nat := 0x1_0000_0000

  // The layout mkfs chooses: boot block, superblock, inode blocks, bitmap, data.
  const NINODEBLOCKS: nat := NINODES / IPB + 1
  const NBITMAP: nat := FSSIZE / BPB + 1
  const NMETA: nat := 2 + NINODEBLOCKS + NBITMAP

  type Byte = x: int | 0 <= x < 256
  type U16 = x: int | 0 <= x < 0x1_0000
  type U32 = x: int | 0 <= x < 0x1_0000_0000
  type Block = b: seq<Byte> | |b| == BSIZE witness Zeros(BSIZE)

  /** Block containing inode i. */
  function IBLOCK(i: nat): nat { i / IPB + 2 }

  /** Block containing the bit for block b. */
  function BBLOCK(b: nat, ninodes: nat): nat { b / BPB + ninodes / IPB + 3 }

  function Min(a: nat, b: nat): nat { if a < b then a else b }

  function Max(a: nat, b: nat): nat { if a < b then b else a }

  function Zeros(n: nat): (z: seq<Byte>)
    ensures |z| == n && forall i :: 0 <= i < n ==> z[i] == 0
  {
    seq(n, _ => 0)
  }

  function ZeroBlock(): (b: Block)
    ensures forall i :: 0 <= i < BSIZE ==> b[i] == 0
  {
    Zeros(BSIZE)
  }

  // ---- numbers -------------------------------------------------------------------------------

  function Short(s: seq<Byte>, o: nat): U16
    requires o + 2 <= |s|
  {
    s[o] as int + 0x100 * s[o + 1] as int
  }

  function Word(s: seq<Byte>, o: nat): U32
    requires o + 4 <= |s|
  {
    s[o] as int + 0x100 * s[o + 1] as int + 0x1_0000 * s[o + 2] as int + 0x100_0000 * s[o + 3] as int
  }

  /** The number with these bytes, low one first. */
  function Little(b: seq<Byte>): nat {
    if b == [] then 0 else b[0] as nat + 256 * Little(b[1..])
  }

  /** Words and shorts are in Intel byte order. */
  lemma InOrder(s: seq<Byte>, o: nat)
    ensures o + 4 <= |s| ==> Word(s, o) == Little(s[o..o + 4])
    ensures o + 2 <= |s| ==> Short(s, o) == Little(s[o..o + 2])
  {
    if o + 2 <= |s| {
      var b := s[o..o + 2];
      assert b[1..][1..] == [] && b[1..][0] == s[o + 1];
      assert Little(b[1..]) == b[1] as nat + 256 * Little([]);
    }
    if o + 4 <= |s| {
      var b := s[o..o + 4];
      assert b[1..][1..][1..][1..] == [];
      assert b[1..][0] == b[1] && b[1..][1..][0] == b[2] && b[1..][1..][1..][0] == b[3];
      assert Little(b[1..][1..][1..]) == b[3] as nat + 256 * Little([]);
      assert Little(b[1..][1..]) == b[2] as nat + 256 * Little(b[1..][1..][1..]);
      assert Little(b[1..]) == b[1] as nat + 256 * Little(b[1..][1..]);
    }
  }

  function ShortByte(v: U16, k: nat): Byte
    requires k < 2
  {
    if k == 0 then v % 0x100 else v / 0x100
  }

  function WordByte(v: U32, k: nat): Byte
    requires k < 4
  {
    if k == 0 then v % 0x100
    else if k == 1 then v / 0x100 % 0x100
    else if k == 2 then v / 0x1_0000 % 0x100
    else v / 0x100_0000
  }

  /** One more byte taken off the low end of what is left of v. */
  lemma ByteStep(v: nat, unit: nat)
    requires unit == 1 || unit == 0x100 || unit == 0x1_0000
    ensures v / unit == v / unit % 0x100 + 0x100 * (v / (0x100 * unit))
  {
    var q := v / unit;
    assert v / (0x100 * unit) == q / 0x100;
  }

  lemma WordOfBytes(s: seq<Byte>, o: nat, v: U32)
    requires o + 4 <= |s| && forall k :: 0 <= k < 4 ==> s[o + k] == WordByte(v, k)
    ensures Word(s, o) == v
  {
    assert s[o + 0] == WordByte(v, 0) && s[o + 1] == WordByte(v, 1) && s[o + 2] == WordByte(v, 2)
        && s[o + 3] == WordByte(v, 3);
    ByteStep(v, 1);
    ByteStep(v, 0x100);
    ByteStep(v, 0x1_0000);
  }

  lemma ShortOfBytes(s: seq<Byte>, o: nat, v: U16)
    requires o + 2 <= |s| && s[o] == ShortByte(v, 0) && s[o + 1] == ShortByte(v, 1)
    ensures Short(s, o) == v
  {
  }

  // ---- an indirect block: NINDIRECT words ----------------------------------------------------

  function Entry(b: Block, k: nat): U32
    requires k < NINDIRECT
  {
    Word(b, 4 * k)
  }

  function WithEntry(b: Block, k: nat, v: U32): Block
    requires k < NINDIRECT
  {
    b[4 * k := WordByte(v, 0)][4 * k + 1 := WordByte(v, 1)][4 * k + 2 := WordByte(v, 2)][4 * k + 3 := WordByte(v, 3)]
  }

  lemma EntryUpdate(b: Block, k: nat, v: U32, j: nat)
    requires k < NINDIRECT && j < NINDIRECT
    ensures Entry(WithEntry(b, k, v), j) == if j == k then v else Entry(b, j)
  {
    if j == k {
      WordOfBytes(WithEntry(b, k, v), 4 * k, v);
    }
  }

  lemma ZeroEntry(k: nat)
    requires k < NINDIRECT
    ensures Entry(ZeroBlock(), k) == 0
  {
  }

  // ---- an inode block: IPB inodes ------------------------------------------------------------

  datatype Dinode = Dinode(typ: U16, major: U16, minor: U16, nlink: U16, ownerid: U16, groupid: U16,
                           mode: U32, size: U32, addrs: seq<U32>)

  /** An inode has NDIRECT + 1 block addresses. */
  predicate DinodeWF(d: Dinode) { |d.addrs| == NDIRECT + 1 }

  function DinodeShort(d: Dinode, j: nat): U16
    requires j < 6
  {
    if j == 0 then d.typ
    else if j == 1 then d.major
    else if j == 2 then d.minor
    else if j == 3 then d.nlink
    else if j == 4 then d.ownerid
    else d.groupid
  }

  function DinodeWord(d: Dinode, j: nat): U32
    requires DinodeWF(d) && j < 13
  {
    if j == 0 then d.mode else if j == 1 then d.size else d.addrs[j - 2]
  }

  /** Byte k of the inode structure: six shorts, then thirteen words. */
  function DinodeByte(d: Dinode, k: nat): Byte
    requires DinodeWF(d) && k < DINODE
  {
    if k < 12 then ShortByte(DinodeShort(d, k / 2), k % 2)
    else WordByte(DinodeWord(d, (k - 12) / 4), (k - 12) % 4)
  }

  function InodeAt(b: Block, slot: nat): (d: Dinode)
    requires slot < IPB
    ensures DinodeWF(d)
  {
    var o := DINODE * slot;
    Dinode(Short(b, o), Short(b, o + 2), Short(b, o + 4), Short(b, o + 6), Short(b, o + 8), Short(b, o + 10),
           Word(b, o + 12), Word(b, o + 16),
           seq(NDIRECT + 1, j requires 0 <= j < NDIRECT + 1 => Word(b, o + 20 + 4 * j)))
  }

  function InodeBlockByte(b: Block, slot: nat, d: Dinode, k: nat): Byte
    requires slot < IPB && DinodeWF(d) && k < BSIZE
  {
    if DINODE * slot <= k < DINODE * slot + DINODE then DinodeByte(d, k - DINODE * slot) else b[k]
  }

  function WithInode(b: Block, slot: nat, d: Dinode): Block
    requires slot < IPB && DinodeWF(d)
  {
    seq(BSIZE, k requires 0 <= k < BSIZE => InodeBlockByte(b, slot, d, k))
  }

  /** Writing one inode of a block is read back as written and leaves the others alone. */
  lemma InodeUpdate(b: Block, slot: nat, d: Dinode, other: nat)
    requires slot < IPB && other < IPB && DinodeWF(d)
    ensures InodeAt(WithInode(b, slot, d), other) == if other == slot then d else InodeAt(b, other)
  {
    var w := WithInode(b, slot, d);
    if other == slot {
      forall k | 0 <= k < DINODE ensures w[DINODE * slot + k] == DinodeByte(d, k) {
        assert w[DINODE * slot + k] == InodeBlockByte(b, slot, d, DINODE * slot + k);
      }
      InodeDecoded(w, slot, d);
    } else {
      forall k | DINODE * other <= k < DINODE * other + DINODE ensures w[k] == b[k] {
        assert w[k] == InodeBlockByte(b, slot, d, k);
      }
      assert InodeAt(w, other).addrs == InodeAt(b, other).addrs;
    }
  }

  lemma InodeDecoded(w: Block, slot: nat, d: Dinode)
    requires slot < IPB && DinodeWF(d)
    requires forall k :: 0 <= k < DINODE ==> w[DINODE * slot + k] == DinodeByte(d, k)
    ensures InodeAt(w, slot) == d
  {
    ShortField(w, slot, d, 0);
    ShortField(w, slot, d, 1);
    ShortField(w, slot, d, 2);
    ShortField(w, slot, d, 3);
    ShortField(w, slot, d, 4);
    ShortField(w, slot, d, 5);
    WordField(w, slot, d, 0);
    WordField(w, slot, d, 1);
    hide Short, Word, DinodeByte;
    var o, r := DINODE * slot, InodeAt(w, slot);
    forall j | 0 <= j < NDIRECT + 1 ensures r.addrs[j] == d.addrs[j] {
      WordField(w, slot, d, j + 2);
    }
    assert r.addrs == d.addrs;
  }

  lemma ShortField(w: Block, slot: nat, d: Dinode, j: nat)
    requires slot < IPB && DinodeWF(d) && j < 6
    requires forall k :: 0 <= k < DINODE ==> w[DINODE * slot + k] == DinodeByte(d, k)
    ensures Short(w, DINODE * slot + 2 * j) == DinodeShort(d, j)
  {
    assert w[DINODE * slot + (2 * j)] == DinodeByte(d, 2 * j)
        && w[DINODE * slot + (2 * j + 1)] == DinodeByte(d, 2 * j + 1);
    ShortOfBytes(w, DINODE * slot + 2 * j, DinodeShort(d, j));
  }

  lemma WordField(w: Block, slot: nat, d: Dinode, j: nat)
    requires slot < IPB && DinodeWF(d) && j < 13
    requires forall k :: 0 <= k < DINODE ==> w[DINODE * slot + k] == DinodeByte(d, k)
    ensures Word(w, DINODE * slot + 12 + 4 * j) == DinodeWord(d, j)
  {
    forall k | 0 <= k < 4
      ensures w[DINODE * slot + 12 + 4 * j + k] == WordByte(DinodeWord(d, j), k)
    {
      assert w[DINODE * slot + (12 + 4 * j + k)] == DinodeByte(d, 12 + 4 * j + k);
    }
    WordOfBytes(w, DINODE * slot + 12 + 4 * j, DinodeWord(d, j));
  }

  // ---- a bitmap block: BPB bits --------------------------------------------------------------

  /** Bit k of x. */
  predicate BitOf(x: nat, k: nat) {
    if k == 0 then x % 2 == 1 else BitOf(x / 2, k - 1)
  }

  /** x | (1 << k). */
  function OrBit(x: nat, k: nat): nat {
    if k == 0 then x / 2 * 2 + 1 else 2 * OrBit(x / 2, k - 1) + x % 2
  }

  /** x & ~(1 << k). */
  function AndNotBit(x: nat, k: nat): nat {
    if k == 0 then x / 2 * 2 else 2 * AndNotBit(x / 2, k - 1) + x % 2
  }

  lemma {:induction false} OrBitIs(x: nat, k: nat, j: nat)
    ensures BitOf(OrBit(x, k), j) <==> j == k || BitOf(x, j)
  {
    if k > 0 && j > 0 {
      OrBitIs(x / 2, k - 1, j - 1);
    }
  }

  lemma {:induction false} AndNotBitIs(x: nat, k: nat, j: nat)
    ensures BitOf(AndNotBit(x, k), j) <==> j != k && BitOf(x, j)
  {
    if k > 0 && j > 0 {
      AndNotBitIs(x / 2, k - 1, j - 1);
    }
  }

  function Pow2(n: nat): nat {
    if n == 0 then 1 else 2 * Pow2(n - 1)
  }

  lemma {:induction false} BitBounds(x: nat, k: nat, n: nat)
    requires k < n && x < Pow2(n)
    ensures OrBit(x, k) < Pow2(n) && AndNotBit(x, k) <= x
  {
    if k > 0 {
      BitBounds(x / 2, k - 1, n - 1);
    }
  }

  lemma ByteBounds(x: Byte, k: nat)
    requires k < 8
    ensures OrBit(x, k) < 256 && AndNotBit(x, k) < 256
  {
    assert Pow2(8) == 256 by { assert Pow2(4) == 16; }
    BitBounds(x, k, 8);
  }

  predicate BitAt(b: Block, i: nat)
    requires i < BPB
  {
    BitOf(b[i / 8], i % 8)
  }

  function WithBit(b: Block, i: nat): Block
    requires i < BPB
  {
    ByteBounds(b[i / 8], i % 8);
    b[i / 8 := OrBit(b[i / 8], i % 8)]
  }

  function WithoutBit(b: Block, i: nat): Block
    requires i < BPB
  {
    ByteBounds(b[i / 8], i % 8);
    b[i / 8 := AndNotBit(b[i / 8], i % 8)]
  }

  lemma BitSet(b: Block, i: nat, j: nat)
    requires i < BPB && j < BPB
    ensures BitAt(WithBit(b, i), j) <==> j == i || BitAt(b, j)
  {
    OrBitIs(b[i / 8], i % 8, j % 8);
  }

  lemma BitCleared(b: Block, i: nat, j: nat)
    requires i < BPB && j < BPB
    ensures BitAt(WithoutBit(b, i), j) <==> j != i && BitAt(b, j)
  {
    AndNotBitIs(b[i / 8], i % 8, j % 8);
  }

  lemma {:induction false} NoBits(k: nat)
    ensures !BitOf(0, k)
  {
    if k > 0 {
      NoBits(k - 1);
    }
  }

  // ---- data ----------------------------------------------------------------------------------

  /** memmove of s into f at position o. */
  function Overwrite(f: seq<Byte>, o: nat, s: seq<Byte>): (r: seq<Byte>)
    requires o + |s| <= |f|
    ensures |r| == |f|
    ensures forall k :: 0 <= k < |f| ==> r[k] == if o <= k < o + |s| then s[k - o] else f[k]
  {
    f[..o] + s + f[o + |s|..]
  }

  // ---- directory entries ---------------------------------------------------------------------

  /** A C string: no byte of it is 0. */
  predicate IsName(name: seq<Byte>) { 0 !in name }

  function NameByte(name: seq<Byte>, k: nat): Byte { if k < |name| then name[k] else 0 }

  /** strncpy of a name into the DIRSIZ bytes of an entry. */
  function NameField(name: seq<Byte>): (f: seq<Byte>)
    ensures |f| == DIRSIZ
  {
    seq(DIRSIZ, k requires 0 <= k => NameByte(name, k))
  }

  /** A directory entry: a short, then the name. */
  function Dirent(inum: U16, name: seq<Byte>): (e: seq<Byte>)
    ensures |e| == DIRENT
  {
    [ShortByte(inum, 0), ShortByte(inum, 1)] + NameField(name)
  }
}
