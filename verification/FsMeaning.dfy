/** What the pieces of A.ide/src/fs.c amount to, in plain numbers and bytes: which requests readi and writei take, what
    balloc gives out, what a walk that finds no free block leaves, and what is left of a file that was cut. */
module FsMeaning {
  import opened FsFormat
  import opened FsState
  import opened FsAlloc
  import opened FsKernel

  /** readi takes a request unless the inode is a device, the offset is past the end, or the end of the request is past
      what a uint holds; writei asks besides that the file stay within 138 blocks. */
  lemma RequestsTaken(d: Dinode, off: nat, n: nat)
    requires off < 4_294_967_296 && n < 4_294_967_296
    ensures InFile(d, off, n) <==> d.typ != 3 && off <= d.size && off + n < 4_294_967_296
    ensures Writable(d, off, n) <==> d.typ != 3 && off <= d.size && off + n <= 138 * 512
  {
    if off + n >= 4_294_967_296 {
      assert (off + n) % 4_294_967_296 == off + n - 4_294_967_296;
    }
  }

  /** balloc gives out the lowest block whose bit is clear: it sets that bit and no other, fills that block with zeros,
      and touches nothing else. With no clear bit it gives 0 and leaves the disk alone. */
  lemma LowestGiven(disk: seq<Block>)
    requires IsDisk(disk) && forall x :: 0 <= x < 29 ==> Marked(disk, x)
    ensures var b, r := Given(disk), AfterBalloc(disk);
            if b == 0 then r == disk && forall x :: 0 <= x < 1000 ==> Marked(disk, x)
            else
              && 29 <= b < 1000 && !Marked(disk, b) && (forall x :: 0 <= x < b ==> Marked(disk, x))
              && (forall x :: 0 <= x < 1000 ==> (Marked(r, x) <==> x == b || Marked(disk, x)))
              && (forall k :: 0 <= k < 512 ==> r[b][k] == 0)
              && (forall x :: 0 <= x < 1000 && x != b && x != 28 ==> r[x] == disk[x])
  {
    hide Marked, Lowest, WithBit;
    var b := Lowest(disk, 0);
    if b < FSSIZE {
      forall x | 0 <= x < 1000 ensures Marked(AfterBalloc(disk), x) <==> x == b || Marked(disk, x) {
        MarkedAfter(disk, b, x);
      }
    }
  }

  /** What bmap leaves when the blocks run out: nothing at all, unless the block wanted is the first past the direct
      ones and a single block is free, which then becomes the file's indirect block. The address is 0, or with no block
      free for the indirect block the first word of block 0. */
  lemma OutLeaves(f: Fs, i: nat, bn: nat)
    requires i < NINODES && Sound(f, i, {}) && RunsOut(f, i, bn)
    ensures bn != 10 || Free(f.disk) == {} ==> DiskThen(f.disk, bn) == f.disk
    ensures bn != 10 ==> InodeThen(f.disk, f.tab[i], bn) == f.tab[i] && AddressThen(f.disk, bn) == 0
    ensures bn == 10 && Free(f.disk) == {} ==>
              InodeThen(f.disk, f.tab[i], bn) == f.tab[i] && AddressThen(f.disk, bn) == Word(f.disk[0], 0)
    ensures bn == 10 && Free(f.disk) != {} ==>
              var b, r, d := Given(f.disk), DiskThen(f.disk, bn), InodeThen(f.disk, f.tab[i], bn);
              && Free(f.disk) == {b as nat} && Free(r) == {} && (forall k :: 0 <= k < 512 ==> r[b][k] == 0)
              && d == f.tab[i].(addrs := f.tab[i].addrs[10 := b]) && AddressThen(f.disk, bn) == 0
  {
    hide Sound, Lowest, Entry, WithBit, Marked, Free;
    SoundParts(f, i, {});
    LowestFree(f.disk);
    if bn == 10 {
      Blocks(f, i, bn);
      var a := f.tab[i].addrs;
      if Free(f.disk) == {} {
        assert a[10 := 0] == a;
        FirstWord(f.disk[0]);
      } else {
        AllocatedKeeps(f, i, {});
        OnlyFree(f.disk, Given(f.disk));
      }
    }
  }

  lemma FirstWord(x: Block)
    ensures Entry(x, 0) == Word(x, 0)
  {
  }

  lemma OnlyFree(disk: seq<Block>, b: nat)
    requires IsDisk(disk) && |Free(disk)| < 2 && b in Free(disk)
    ensures Free(disk) == {b}
  {
    hide Free;
    assert |Free(disk) - {b}| == 0;
  }

  /** A file that was cut is empty, and keeps all of its inode but size and addresses, and its type if it goes; every
      other file is as it was, and exactly the blocks the cut one had are free besides. */
  lemma NothingLeft(f: Fs, g: Fs, i: nat, typ: U16)
    requires WF(f) && WF(g) && Linked(f) && i < NINODES && Emptied(f, g, i, CutInode(f.tab[i]).(typ := typ))
    ensures var d, e := f.tab[i], g.tab[i];
            && e.size == 0 && Content(g.disk, e) == [] && (forall k :: 0 <= k <= 10 ==> e.addrs[k] == 0)
            && e.typ == typ && e.major == d.major && e.minor == d.minor && e.nlink == d.nlink
            && e.ownerid == d.ownerid && e.groupid == d.groupid && e.mode == d.mode
    ensures forall j :: 0 <= j < NINODES && j != i ==> g.tab[j] == f.tab[j]
    ensures forall j :: 0 <= j < NINODES && j != i && f.tab[j].size <= MAXBYTES ==>
              Content(g.disk, g.tab[j]) == Content(f.disk, f.tab[j])
    ensures forall b :: 0 <= b < 1000 ==>
              (Marked(g.disk, b) <==> Marked(f.disk, b) && forall s :: 0 <= s <= 138 ==> b == 0 || P(f, i, s) != b)
  {
    hide Bytes, Marked, Ptr;
    forall b | b in f.owner && f.owner[b].i == i ensures exists s :: 0 <= s <= 138 && b != 0 && P(f, i, s) == b {
      assert P(f, i, f.owner[b].s) == b;
    }
    forall s | 0 <= s <= 138 && P(f, i, s) != 0 ensures P(f, i, s) in f.owner && f.owner[P(f, i, s)].i == i {
    }
  }
}
