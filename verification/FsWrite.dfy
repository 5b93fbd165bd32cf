/** Reading and writing a file part by part, A.ide/src/fs.c: what one pass of the loops of readi and
    writei does, and what all of them together have done. */
module FsWrite {
  import opened FsFormat
  import opened FsState
  import opened FsAlloc

  /** s put into c at off, where c may end before s does. */
  function Spliced(c: seq<Byte>, off: nat, s: seq<Byte>): seq<Byte>
    requires off <= |c|
  {
    c[..off] + s + if off + |s| < |c| then c[off + |s|..] else []
  }

  // ---- reading -----------------------------------------------------------------------------------

  /** The bytes of a file that fall in one block are the bytes of that block. */
  lemma PartRead(f: Fs, i: nat, off: nat, m: nat)
    requires Linked(f) && i < NINODES && off / BSIZE < f.ns[i] && off % BSIZE + m <= BSIZE
    ensures off / BSIZE < MAXFILE && NMETA <= P(f, i, off / BSIZE) < FSSIZE && off + m <= MAXBYTES
    ensures f.disk[P(f, i, off / BSIZE)][off % BSIZE..off % BSIZE + m] == Bytes(f.disk, f.tab[i])[off..off + m]
  {
    hide Linked, Flat, Bytes;
    var bn := off / BSIZE;
    SlotsThere(f, i, bn);
    var x, y := f.disk[P(f, i, bn)][off % BSIZE..off % BSIZE + m], Bytes(f.disk, f.tab[i])[off..off + m];
    forall k | 0 <= k < m ensures x[k] == y[k] {
      BytesAt(f, i, off + k, bn, off % BSIZE + k);
    }
  }

  lemma BytesAt(f: Fs, i: nat, k: nat, bn: nat, o: nat)
    requires WF(f) && i < NINODES && bn < MAXFILE && o < BSIZE && k == bn * BSIZE + o
    ensures k < MAXBYTES && Bytes(f.disk, f.tab[i])[k] == Data(f.disk, f.tab[i], bn)[o]
  {
    hide Data;
    FlatAt(View(f.disk, f.tab[i]), k);
  }

  // ---- writing -----------------------------------------------------------------------------------

  /** From f0 to f the bytes of s were put into file i at off; its inode does not yet say so. */
  ghost predicate Writing(f0: Fs, f: Fs, i: nat, off: nat, s: seq<Byte>)
    requires WF(f0) && WF(f) && i < NINODES
  {
    && off + |s| <= MAXBYTES
    && f.tab == f0.tab[i := f0.tab[i].(addrs := f.tab[i].addrs)]
    && f.ns == f0.ns[i := Max(f0.ns[i], BlocksFor(off + |s|))] && (f.ns == f0.ns ==> f.tab == f0.tab)
    && Bytes(f.disk, f.tab[i]) == Overwrite(Bytes(f0.disk, f0.tab[i]), off, s)
    && OthersSame(f0, f, i) && MetaSame(f0.disk, f.disk)
    && |Free(f.disk)| == |Free(f0.disk)| - (Cost(f.ns[i]) - Cost(f0.ns[i]))
  }

  lemma NothingWritten(f: Fs, i: nat, off: nat)
    requires WF(f) && i < NINODES && Whole(f, i) && off <= f.tab[i].size
    ensures Writing(f, f, i, off, [])
  {
    hide Bytes;
    BlocksMonotone(off, f.tab[i].size);
    var b := Bytes(f.disk, f.tab[i]);
    assert Overwrite(b, off, []) == b;
    assert f.tab[i := f.tab[i]] == f.tab && f.ns[i := f.ns[i]] == f.ns;
  }

  /** The state once block bn of file i is sure to be there. */
  function Reached(f: Fs, i: nat, bn: nat): (g: Fs)
    requires WF(f) && i < NINODES && bn <= f.ns[i] && bn < MAXFILE && (bn == f.ns[i] ==> CanExtend(f, i))
    ensures WF(g)
  {
    if bn < f.ns[i] then f else Extended(f, i)
  }

  lemma ReachedKeeps(f: Fs, i: nat, bn: nat)
    requires i < NINODES && Sound(f, i, {}) && bn <= f.ns[i] && bn < MAXFILE
      && (bn == f.ns[i] ==> |Free(f.disk)| >= Takes(bn))
    ensures bn == f.ns[i] ==> CanExtend(f, i)
    ensures var g := Reached(f, i, bn);
            && Sound(g, i, {}) && SameBytes(f, g) && MetaSame(f.disk, g.disk) && NMETA <= P(g, i, bn) < FSSIZE
            && g.tab == f.tab[i := f.tab[i].(addrs := g.tab[i].addrs)]
            && g.ns == f.ns[i := if bn < f.ns[i] then f.ns[i] else bn + 1]
            && |Free(g.disk)| == |Free(f.disk)| - (Cost(g.ns[i]) - Cost(f.ns[i])) && (bn < f.ns[i] ==> g == f)
  {
    hide Sound, P, Bytes, Extended, CanExtend, Linked, MapBut, SyncedBut, SuperOk, Free;
    SoundParts(f, i, {});
    assert f.tab[i := f.tab[i]] == f.tab && f.ns[i := f.ns[i]] == f.ns;
    if bn == f.ns[i] { ExtendedKeeps(f, i); } else { SlotsThere(f, i, bn); }
  }

  /** A data block written: the map and the inodes are untouched. */
  lemma SoundWritten(f: Fs, i: nat, bn: nat, x: Block)
    requires i < NINODES && Sound(f, i, {}) && bn < f.ns[i]
    ensures bn < MAXFILE && NMETA <= P(f, i, bn) < FSSIZE
    ensures var g := WithData(f, i, bn, x); Sound(g, i, {}) && MetaSame(f.disk, g.disk) && Free(g.disk) == Free(f.disk)
  {
    hide Linked, SyncedBut, SuperOk, Marked;
    SlotsThere(f, i, bn);
    DataWritten(f, i, bn, x);
    var g := WithData(f, i, bn, x);
    MetaKeeps(f, g, i);
    SameMap(f.disk, g.disk);
  }

  lemma SlotsThere(f: Fs, i: nat, bn: nat)
    requires Linked(f) && i < NINODES && bn < f.ns[i]
    ensures WF(f) && bn < MAXFILE && NMETA <= P(f, i, bn) < FSSIZE
  {
    Blocks(f, i, 0);
    Blocks(f, i, bn);
  }

  /** The free blocks suffice for file i to reach `bytes` bytes. */
  ghost predicate Enough(f: Fs, i: nat, bytes: nat)
    requires WF(f) && i < NINODES
  {
    Cost(Max(f.ns[i], BlocksFor(bytes))) - Cost(f.ns[i]) <= |Free(f.disk)|
  }

  lemma PutRoom(f0: Fs, f: Fs, i: nat, off: nat, s: seq<Byte>, part: seq<Byte>)
    requires WF(f0) && WF(f) && i < NINODES && Writing(f0, f, i, off, s) && Whole(f0, i) && off <= f0.tab[i].size
      && 0 < |part|
    requires var o := off + |s|; o % BSIZE + |part| <= BSIZE && o + |part| <= MAXBYTES && Enough(f0, i, o + |part|)
    ensures var o := off + |s|;
            && o / BSIZE <= f.ns[i] && o / BSIZE < MAXFILE
            && (o / BSIZE == f.ns[i] ==> |Free(f.disk)| >= Takes(o / BSIZE))
            && BlocksFor(o + |part|) == o / BSIZE + 1
  {
    hide Bytes, Free;
    PartBlocks(off + |s|, |part|);
    BlocksMonotone(off, f0.tab[i].size);
  }

  /** What one pass of writei's loop finds, and what it leaves. */
  ghost predicate Puts(f0: Fs, f: Fs, i: nat, off: nat, s: seq<Byte>, part: seq<Byte>)
    requires WF(f0) && WF(f) && i < NINODES && (off + |s|) % BSIZE + |part| <= BSIZE
  {
    var o := off + |s|;
    var bn := o / BSIZE;
    && bn <= f.ns[i] && bn < MAXFILE && (bn == f.ns[i] ==> |Free(f.disk)| >= Takes(bn) && CanExtend(f, i))
    && var e := Reached(f, i, bn);
    && NMETA <= P(e, i, bn) < FSSIZE
    && var g := PartPut(e, i, o, part);
    && Sound(g, i, {}) && Writing(f0, g, i, off, s + part)
  }

  /** One pass of writei's loop puts its part. */
  lemma PutKeeps(f0: Fs, f: Fs, i: nat, off: nat, s: seq<Byte>, part: seq<Byte>)
    requires WF(f0) && WF(f) && i < NINODES && Sound(f, i, {}) && Writing(f0, f, i, off, s)
    requires Whole(f0, i) && off <= f0.tab[i].size && 0 < |part|
    requires var o := off + |s|; o % BSIZE + |part| <= BSIZE && o + |part| <= MAXBYTES && Enough(f0, i, o + |part|)
    ensures Puts(f0, f, i, off, s, part)
  {
    hide Sound, Bytes, Overwrite, Flat, P, Reached, CanExtend, Enough, Free, Linked, MapBut, SyncedBut, SuperOk,
      MetaSame, SameBytes, OthersSame, BlocksFor, Cost, Whole;
    var o := off + |s|;
    var bn := o / BSIZE;
    PutRoom(f0, f, i, off, s, part);
    ReachedKeeps(f, i, bn);
    PartBlocks(o, |part|);
    var e := Reached(f, i, bn);
    SoundParts(e, i, {});
    PartWritten(e, i, bn, o % BSIZE, part);
    SoundWritten(e, i, bn, Overwrite(e.disk[P(e, i, bn)], o % BSIZE, part));
    OverwriteTwice(Bytes(f0.disk, f0.tab[i]), off, s, part);
    WritingOn(f0, f, e, PartPut(e, i, o, part), i, off, s, part);
  }

  lemma WritingOn(f0: Fs, f: Fs, e: Fs, g: Fs, i: nat, off: nat, s: seq<Byte>, part: seq<Byte>)
    requires WF(f0) && WF(f) && WF(e) && WF(g) && i < NINODES && Writing(f0, f, i, off, s)
      && off + |s| + |part| <= MAXBYTES
    requires SameBytes(f, e) && MetaSame(f.disk, e.disk) && OthersSame(e, g, i) && MetaSame(e.disk, g.disk)
    requires e.tab == f.tab[i := f.tab[i].(addrs := e.tab[i].addrs)] && g.tab == e.tab && g.ns == e.ns
    requires e.ns == f.ns[i := Max(f0.ns[i], BlocksFor(off + |s| + |part|))] && f.ns[i] <= e.ns[i]
      && (e.ns[i] == f.ns[i] ==> e == f)
    requires |Free(e.disk)| == |Free(f.disk)| - (Cost(e.ns[i]) - Cost(f.ns[i])) && Free(g.disk) == Free(e.disk)
    requires Bytes(g.disk, g.tab[i]) == Overwrite(Bytes(e.disk, e.tab[i]), off + |s|, part)
    requires Overwrite(Overwrite(Bytes(f0.disk, f0.tab[i]), off, s), off + |s|, part) ==
        Overwrite(Bytes(f0.disk, f0.tab[i]), off, s + part)
    ensures Writing(f0, g, i, off, s + part)
  {
    hide Bytes, Overwrite, Free, Cost, BlocksFor;
  }

  /** From f to g the bytes of s were put into file i at off, and nothing else changed. */
  ghost predicate Wrote(f: Fs, g: Fs, i: nat, off: nat, s: seq<Byte>)
    requires WF(f) && WF(g) && i < NINODES
  {
    var size := Max(f.tab[i].size, off + |s|);
    && size <= MAXBYTES
    && g.tab == f.tab[i := f.tab[i].(addrs := g.tab[i].addrs, size := size)]
    && g.ns == f.ns[i := BlocksFor(size)]
    && Bytes(g.disk, g.tab[i]) == Overwrite(Bytes(f.disk, f.tab[i]), off, s)
    && OthersSame(f, g, i)
    && |Free(g.disk)| == |Free(f.disk)| - (Cost(g.ns[i]) - Cost(f.ns[i]))
  }

  /** The file's content is the old one with s spliced in; every other file's is as it was. */
  lemma WroteContent(f: Fs, g: Fs, i: nat, off: nat, s: seq<Byte>)
    requires WF(f) && WF(g) && i < NINODES && Whole(f, i) && Wrote(f, g, i, off, s) && off <= f.tab[i].size
    ensures Whole(g, i) && Content(g.disk, g.tab[i]) == Spliced(Content(f.disk, f.tab[i]), off, s)
    ensures forall j :: 0 <= j < NINODES && j != i && Whole(f, j) ==>
        Whole(g, j) && Content(g.disk, g.tab[j]) == Content(f.disk, f.tab[j])
  {
    hide Bytes, Free;
    var b := Bytes(f.disk, f.tab[i]);
    var n := Max(f.tab[i].size, off + |s|);
    assert Overwrite(b, off, s)[..n] == Spliced(b[..f.tab[i].size], off, s);
  }
}
