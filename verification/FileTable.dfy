/** Open files, A.ide/src/file.c: reading and writing through a file's own offset. A write goes down a
    few blocks at a time. */
module FileTable {
  import opened FsFormat
  import opened FsState
  import opened FsAlloc
  import opened FsWrite
  import opened FsKernel

  const NFILE: nat := 100

  /** The most one writei of filewrite takes. */
  const MAXCHUNK: nat := (LOGSIZE - 1 - 1 - 2) / 2 * 512

  datatype FileType = FdNone | FdPipe | FdInode

  datatype File = File(typ: FileType, refs: nat, readable: bool, writable: bool, ip: nat, off: nat)

  /** A C int as the unsigned number a uint parameter makes of it. */
  function Uint(n: int): (r: nat)
    ensures r < TWO32 && (r - n) % TWO32 == 0
  {
    n % TWO32
  }

  /** Entry ip locked, read from the disk if it was not. */
  function LockedCache(c: seq<Inode>, f: Fs, ip: nat): seq<Inode>
    requires WF(f) && ip < |c| && c[ip].inum < NINODES
  {
    c[ip := c[ip].(busy := true, valid := true, d := f.tab[c[ip].inum])]
  }

  /** Entry ip as reading or writing leaves it: read, up to date, unlocked. */
  function FreshCache(c: seq<Inode>, f: Fs, ip: nat): seq<Inode>
    requires WF(f) && ip < |c| && c[ip].inum < NINODES
  {
    c[ip := c[ip].(busy := false, valid := true, d := f.tab[c[ip].inum])]
  }

  lemma Locks(c: seq<Inode>, f: Fs, ip: nat)
    requires WF(f) && SyncedBut(f, -1) && CacheOk(c, f) && ip < NINODE && c[ip].refs > 0 && c[ip].inum < NINODES
    ensures DiskInode(f.disk, c[ip].inum) == f.tab[c[ip].inum]
    ensures CacheOk(LockedCache(c, f, ip), f) && CacheOk(FreshCache(c, f, ip), f)
    ensures FreshCache(c, f, ip) == c[ip := Inode(c[ip].inum, c[ip].refs, false, true, f.tab[c[ip].inum])]
    ensures c[ip].valid ==> c[ip].d == f.tab[c[ip].inum]
  {
    hide DiskInode;
  }

  /** Of n bytes at off, how many filewrite gets written: all of them if they fit, else the full chunks
      before the limit; none at all to a device or past the end. */
  function Fitting(d: Dinode, off: nat, n: nat): (r: nat)
    ensures r <= n && (d.size <= MAXBYTES && r > 0 ==> off + r <= MAXBYTES)
  {
    if d.typ == T_DEV || off > d.size || d.size > MAXBYTES then 0
    else if off + n <= MAXBYTES then n
    else (MAXBYTES - off) / MAXCHUNK * MAXCHUNK
  }

  /** Two writes in a row are one. */
  lemma WroteTwice(f: Fs, g: Fs, h: Fs, i: nat, off: nat, s: seq<Byte>, t: seq<Byte>)
    requires WF(f) && WF(g) && WF(h) && i < NINODES && Whole(f, i) && off <= f.tab[i].size
    requires Wrote(f, g, i, off, s) && Wrote(g, h, i, off + |s|, t)
    ensures Wrote(f, h, i, off, s + t)
  {
    hide Bytes, Overwrite, Free;
    OverwriteTwice(Bytes(f.disk, f.tab[i]), off, s, t);
  }

  lemma EnoughLeft(f: Fs, g: Fs, i: nat, off: nat, s: seq<Byte>, a: nat, b: nat)
    requires WF(f) && WF(g) && i < NINODES && Whole(f, i) && Wrote(f, g, i, off, s) && Enough(f, i, b)
      && off + |s| <= a <= b
    ensures Enough(g, i, a)
  {
    hide Bytes, Free;
    BlocksMonotone(a, b);
    BlocksMonotone(off + |s|, a);
  }

  /** A chunk is written just when it fits. */
  lemma ChunkFits(d0: Dinode, d: Dinode, off: nat, n: nat, i: nat, n1: nat)
    requires d0.size <= MAXBYTES && n < TWO32 / 2 && i < n && n1 == Min(n - i, MAXCHUNK) && i % MAXCHUNK == 0
      && off < TWO32
    requires i <= Fitting(d0, off, n) && d.typ == d0.typ && d.size == if i == 0 then d0.size else Max(d0.size, off + i)
    ensures Writable(d, off + i, n1) <==> i + n1 <= Fitting(d0, off, n)
    ensures !Writable(d, off + i, n1) ==> i == Fitting(d0, off, n)
  {
    if d0.typ != T_DEV && off <= d0.size && off + n > MAXBYTES {
      ChunkLimit(MAXBYTES - off, n, i, n1);
    }
  }

  lemma ChunkIs()
    ensures MAXCHUNK == 6656
  {
  }

  /** With less room than bytes, the chunks that fit are the full ones. */
  lemma ChunkLimit(room: nat, n: nat, i: nat, n1: nat)
    requires room < n && i < n && n1 == Min(n - i, MAXCHUNK) && i % MAXCHUNK == 0 && i <= room / MAXCHUNK * MAXCHUNK
    ensures i + n1 <= room / MAXCHUNK * MAXCHUNK <==> i + n1 <= room
    ensures i + n1 > room ==> i == room / MAXCHUNK * MAXCHUNK
  {
    ChunkIs();
    var k, q := room / 6656, i / 6656;
    assert i == 6656 * q && room == 6656 * k + room % 6656;
  }

  lemma Unlocks(c: seq<Inode>, f: Fs, ip: nat)
    requires WF(f) && CacheOk(c, f) && ip < NINODE
    ensures CacheOk(c[ip := c[ip].(busy := false)], f)
  {
  }

  /** From f0 to f the first i bytes of addr were written at off. */
  ghost predicate Written(f0: Fs, f: Fs, inum: nat, off: nat, addr: seq<Byte>, i: nat)
    requires WF(f0) && WF(f) && inum < NINODES
  {
    i <= |addr| && if i == 0 then f == f0 else Wrote(f0, f, inum, off, addr[..i])
  }

  /** A chunk about to be written has the room it needs, if it fits. */
  lemma ChunkReady(f0: Fs, f: Fs, inum: nat, off: nat, addr: seq<Byte>, n: nat, i: nat, n1: nat)
    requires WF(f0) && WF(f) && inum < NINODES && Whole(f0, inum) && Written(f0, f, inum, off, addr, i)
    requires n < TWO32 / 2 && i < n <= |addr| && n1 == Min(n - i, MAXCHUNK) && i % MAXCHUNK == 0 && off < TWO32
    requires i <= Fitting(f0.tab[inum], off, n) && Enough(f0, inum, off + Fitting(f0.tab[inum], off, n))
    ensures Writable(f.tab[inum], off + i, n1) <==> i + n1 <= Fitting(f0.tab[inum], off, n)
    ensures !Writable(f.tab[inum], off + i, n1) ==> i == Fitting(f0.tab[inum], off, n)
    ensures Writable(f.tab[inum], off + i, n1) ==> Enough(f, inum, off + i + n1)
  {
    hide Bytes, Overwrite, Free, Fitting, Writable, Enough;
    var m := Fitting(f0.tab[inum], off, n);
    FittingInside(f0.tab[inum], off, n);
    ChunkFits(f0.tab[inum], f.tab[inum], off, n, i, n1);
    if i + n1 <= m {
      if i == 0 {
        EnoughFor(f0, inum, off + n1, off + m);
      } else {
        EnoughLeft(f0, f, inum, off, addr[..i], off + i + n1, off + m);
      }
    }
  }

  lemma FittingInside(d: Dinode, off: nat, n: nat)
    ensures Fitting(d, off, n) > 0 ==> off <= d.size <= MAXBYTES
  {
  }

  lemma ChunkDone(f0: Fs, f: Fs, g: Fs, inum: nat, off: nat, addr: seq<Byte>, i: nat, n1: nat)
    requires WF(f0) && WF(f) && WF(g) && inum < NINODES && Whole(f0, inum) && Written(f0, f, inum, off, addr, i)
    requires i + n1 <= |addr| && 0 < n1 && off <= f0.tab[inum].size && Wrote(f, g, inum, off + i, addr[i..i + n1])
    ensures Written(f0, g, inum, off, addr, i + n1)
  {
    hide Wrote;
    assert addr[..i] + addr[i..i + n1] == addr[..i + n1];
    if i > 0 { WroteTwice(f0, f, g, inum, off, addr[..i], addr[i..i + n1]); }
  }

  /** What a run of filewrite works on. */
  datatype At = At(f: Fs, c: seq<Inode>, file: seq<File>)

  predicate AtWF(a: At, fd: nat, inum: nat) {
    WF(a.f) && inum < NINODES && fd < |a.file| && a.file[fd].ip < |a.c| && a.c[a.file[fd].ip].inum == inum
  }

  /** From x to y, file fd got the first i bytes of addr at its offset; its inode was locked at least
      once if begun. */
  ghost predicate Progress(x: At, y: At, fd: nat, inum: nat, addr: seq<Byte>, i: nat, begun: bool)
    requires AtWF(x, fd, inum)
  {
    && WF(y.f) && Written(x.f, y.f, inum, x.file[fd].off, addr, i)
    && y.file == x.file[fd := x.file[fd].(off := x.file[fd].off + i)]
    && y.c == if begun then FreshCache(x.c, y.f, x.file[fd].ip) else x.c
  }

  lemma NoProgress(x: At, fd: nat, inum: nat, addr: seq<Byte>)
    requires AtWF(x, fd, inum)
    ensures Progress(x, x, fd, inum, addr, 0, false)
  {
    assert x.file[fd := x.file[fd]] == x.file;
  }

  lemma ProgressParts(x: At, y: At, fd: nat, inum: nat, addr: seq<Byte>, i: nat, begun: bool)
    requires AtWF(x, fd, inum) && Progress(x, y, fd, inum, addr, i, begun)
    ensures i <= |addr| && WF(y.f) && |y.file| == |x.file| && y.file[fd] == x.file[fd].(off := x.file[fd].off + i)
    ensures Written(x.f, y.f, inum, x.file[fd].off, addr, i) && AtWF(y, fd, inum)
  {
    hide Wrote;
  }

  lemma NextReady(x: At, y: At, fd: nat, inum: nat, addr: seq<Byte>, n: nat, i: nat, n1: nat)
    requires AtWF(x, fd, inum) && Progress(x, y, fd, inum, addr, i, i > 0) && Whole(x.f, inum)
    requires n < TWO32 / 2 && i < n <= |addr| && n1 == Min(n - i, MAXCHUNK) && i % MAXCHUNK == 0
      && x.file[fd].off < TWO32
    requires var m := Fitting(x.f.tab[inum], x.file[fd].off, n); i <= m && Enough(x.f, inum, x.file[fd].off + m)
    ensures AtWF(y, fd, inum)
    ensures var m, off := Fitting(x.f.tab[inum], x.file[fd].off, n), y.file[fd].off;
            && (Writable(y.f.tab[inum], off, n1) <==> i + n1 <= m) && (!Writable(y.f.tab[inum], off, n1) ==> i == m)
            && (Writable(y.f.tab[inum], off, n1) ==> Enough(y.f, inum, off + n1))
  {
    hide Written, Fitting, Writable, Enough, Whole;
    ProgressParts(x, y, fd, inum, addr, i, i > 0);
    ChunkReady(x.f, y.f, inum, x.file[fd].off, addr, n, i, n1);
  }

  /** What WriteChunk does to file fd. */
  ghost predicate Chunked(y: At, z: At, fd: nat, inum: nat, chunk: seq<Byte>, r: int)
    requires AtWF(y, fd, inum)
  {
    && WF(z.f) && z.c == FreshCache(y.c, z.f, y.file[fd].ip)
    && var off := y.file[fd].off;
    if !Writable(y.f.tab[inum], off, |chunk|) then r == -1 && z.f == y.f && z.file == y.file
    else r == |chunk| && Wrote(y.f, z.f, inum, off, chunk) && z.file == y.file[fd := y.file[fd].(off := off + |chunk|)]
  }

  lemma NextDone(x: At, y: At, z: At, fd: nat, inum: nat, addr: seq<Byte>, n: nat, i: nat, n1: nat, r: int)
    requires AtWF(x, fd, inum) && Progress(x, y, fd, inum, addr, i, i > 0) && Whole(x.f, inum)
    requires i + n1 <= n <= |addr| && 0 < n1
    requires AtWF(y, fd, inum) && Chunked(y, z, fd, inum, addr[i..i + n1], r)
    requires Writable(y.f.tab[inum], y.file[fd].off, n1) ==> i + n1 <= Fitting(x.f.tab[inum], x.file[fd].off, n)
    ensures if r < 0 then Progress(x, z, fd, inum, addr, i, true)
            else r == n1 && Progress(x, z, fd, inum, addr, i + n1, true)
  {
    hide Written, Fitting, Writable, Whole, Wrote;
    ProgressParts(x, y, fd, inum, addr, i, i > 0);
    FittingInside(x.f.tab[inum], x.file[fd].off, n);
    if r >= 0 { ChunkDone(x.f, y.f, z.f, inum, x.file[fd].off, addr, i, n1); }
  }

  class Files {
    const s: FileSys
    var file: seq<File>

    /** The table starts out as zeroed memory. */
    constructor (fs: FileSys)
      ensures s == fs && file == seq(NFILE, _ => File(FdNone, 0, false, false, 0, 0))
    {
      s, file := fs, seq(NFILE, _ => File(FdNone, 0, false, false, 0, 0));
    }

    /** File f is an open inode file whose inode can be locked and has the blocks its size calls for. */
    ghost predicate Open(f: nat)
      reads this, s
    {
      && s.Valid() && f < |file| && file[f].typ == FdInode && file[f].off < TWO32 && file[f].ip < NINODE
      && var e := s.icache[file[f].ip];
      e.refs > 0 && !e.busy && e.inum < NINODES && Whole(s.fs, e.inum)
    }

    /** Reading or writing file f gets as far as its inode. */
    predicate Usable(f: nat, allowed: bool)
      requires f < |file|
      reads this
    {
      allowed && file[f].typ == FdInode
    }

    ghost function Inum(f: nat): (i: nat)
      requires Open(f)
      ensures i < NINODES
      reads this, s
    {
      s.icache[file[f].ip].inum
    }

    /** Reads up to n bytes at the file's offset and moves it past them. A file that is not open for reading, or has
        no inode, is refused. */
    method FileRead(f: nat, n: int) returns (r: int, dst: seq<Byte>)
      requires s.Valid() && f < |file| && (Usable(f, file[f].readable) ==> Open(f))
      modifies this, s
      ensures s.Valid() && s.fs == old(s.fs)
      ensures !old(Usable(f, file[f].readable)) ==> r == -1 && file == old(file) && s.icache == old(s.icache)
      ensures old(Usable(f, file[f].readable)) ==>
        var d, off := old(s.fs).tab[old(Inum(f))], old(file)[f].off;
        && Open(f) && s.icache == FreshCache(old(s.icache), s.fs, old(file)[f].ip)
        && if !InFile(d, off, Uint(n)) then r == -1 && file == old(file)
           else
             && r == Min(Uint(n), d.size - off) && dst == Content(s.fs.disk, d)[off..off + r]
             && file == old(file)[f := old(file)[f].(off := off + r)]
    {
      hide Sound, CacheOk, Content, SyncedBut, DiskInode, InFile;
      dst := [];
      if !file[f].readable {
        return -1, dst;
      }
      if file[f].typ != FdInode {
        return -1, dst;
      }
      ghost var c := s.icache;
      var ip := file[f].ip;
      SoundParts(s.fs, -1, {});
      CacheSize(c, s.fs);
      Locks(c, s.fs, ip);
      s.Ilock(ip);
      assert s.icache == LockedCache(c, s.fs, ip);
      r, dst := s.Readi(ip, file[f].off, Uint(n));
      InFileBounds(s.icache[ip].d, file[f].off, Uint(n));
      assert file[f := file[f]] == file;
      if r > 0 {
        file := file[f := file[f].(off := file[f].off + r)];
      }
      s.Iunlock(ip);
      assert s.icache == FreshCache(c, s.fs, ip);
    }

    ghost function Here(): At
      reads this, s
    {
      At(s.fs, s.icache, file)
    }

    /** One pass of filewrite's loop, up to its test of the result. */
    method WriteChunk(f: nat, chunk: seq<Byte>) returns (r: int)
      requires Open(f) && 0 < |chunk| < TWO32
      requires Writable(s.fs.tab[Inum(f)], file[f].off, |chunk|) ==> Enough(s.fs, Inum(f), file[f].off + |chunk|)
      modifies this, s
      ensures Open(f) && Inum(f) == old(Inum(f)) && AtWF(old(Here()), f, Inum(f))
        && Chunked(old(Here()), Here(), f, Inum(f), chunk, r)
    {
      hide Sound, CacheOk, Content, SyncedBut, DiskInode, InFile, Wrote, Enough, Writable, Whole, Find, Unused;
      ghost var c, f0 := s.icache, s.fs;
      var ip := file[f].ip;
      SoundParts(s.fs, -1, {});
      CacheSize(c, s.fs);
      Locks(c, s.fs, ip);
      s.Ilock(ip);
      assert s.icache == LockedCache(c, s.fs, ip);
      WritableBounds(s.icache[ip].d, file[f].off, |chunk|);
      r := s.Writei(ip, chunk, file[f].off);
      if r >= 0 { WroteWhole(f0, s.fs, s.icache[ip].inum, file[f].off, chunk); }
      CacheSize(s.icache, s.fs);
      if r > 0 {
        file := file[f := file[f].(off := file[f].off + r)];
      }
      Unlocks(s.icache, s.fs, ip);
      s.Iunlock(ip);
      assert s.icache == FreshCache(c, s.fs, ip);
    }

    /** The loop of filewrite: how many bytes it gets written. A write is refused or complete, so the
        test for a short one never succeeds. */
    method WriteChunks(f: nat, addr: seq<Byte>, n: nat) returns (i: nat)
      requires Open(f) && 0 < n <= |addr| && n < TWO32 / 2
      requires Enough(s.fs, Inum(f), file[f].off + Fitting(s.fs.tab[Inum(f)], file[f].off, n))
      modifies this, s
      ensures Open(f) && Inum(f) == old(Inum(f)) && i == Fitting(old(s.fs).tab[Inum(f)], old(file)[f].off, n)
      ensures AtWF(old(Here()), f, Inum(f)) && Progress(old(Here()), Here(), f, Inum(f), addr, i, true)
    {
      hide Sound, CacheOk, Wrote, Enough, Writable, Fitting, Whole, Progress, Chunked, Min;
      ghost var x, inum := Here(), Inum(f);
      CacheSize(s.icache, s.fs);
      NoProgress(x, f, inum, addr);
      i := 0;
      while i < n
        invariant i <= Fitting(x.f.tab[inum], x.file[f].off, n) && i <= n && (i % MAXCHUNK == 0 || i == n)
        invariant Open(f) && Inum(f) == inum && Progress(x, Here(), f, inum, addr, i, i > 0)
      {
        var n1 := Min(n - i, MAXCHUNK);
        ChunkEnds(i, n);
        ghost var y := Here();
        NextReady(x, y, f, inum, addr, n, i, n1);
        var r := WriteChunk(f, addr[i..i + n1]);
        ChunkResult(y, Here(), f, inum, addr[i..i + n1], r);
        NextDone(x, y, Here(), f, inum, addr, n, i, n1, r);
        if r < 0 {
          break;
        }
        i := i + r;
      }
    }

    /** Writes n bytes from addr at the file's offset, a few blocks at a time: as if all that fits were
        written in one go. A file that is not open for writing, or has no inode, is refused. */
    method FileWrite(f: nat, addr: seq<Byte>, n: int) returns (r: int)
      requires s.Valid() && f < |file| && (Usable(f, file[f].writable) ==> Open(f)) && n <= |addr| && n < TWO32 / 2
      requires Usable(f, file[f].writable) && n > 0 ==>
          Enough(s.fs, Inum(f), file[f].off + Fitting(s.fs.tab[Inum(f)], file[f].off, n))
      modifies this, s
      ensures s.Valid()
      ensures !old(Usable(f, file[f].writable)) || n < 0 ==> r == -1 && Here() == old(Here())
      ensures old(Usable(f, file[f].writable)) ==> Open(f) && Inum(f) == old(Inum(f))
      ensures old(Usable(f, file[f].writable)) && n >= 0 ==>
        var i, off := old(Inum(f)), old(file)[f].off;
        var m := Fitting(old(s.fs).tab[i], off, n);
        && r == (if m == n then n else -1)
        && Written(old(s.fs), s.fs, i, off, addr, m) && file == old(file)[f := old(file)[f].(off := off + m)]
        && s.icache == (if n == 0 then old(s.icache) else FreshCache(old(s.icache), s.fs, old(file)[f].ip))
    {
      hide Sound, CacheOk, Enough, Written, Whole, FreshCache;
      if !file[f].writable {
        return -1;
      }
      if file[f].typ != FdInode {
        return -1;
      }
      NoneWritten(s.fs, Inum(f), file[f].off, addr);
      CacheSize(s.icache, s.fs);
      assert file[f := file[f]] == file;
      var i := 0;
      if i < n {
        i := WriteChunks(f, addr, n);
      }
      r := if i == n then n else -1;
    }
  }

  lemma ChunkResult(y: At, z: At, fd: nat, inum: nat, chunk: seq<Byte>, r: int)
    requires AtWF(y, fd, inum) && Chunked(y, z, fd, inum, chunk, r)
    ensures r < 0 <==> !Writable(y.f.tab[inum], y.file[fd].off, |chunk|)
    ensures r == -1 || r == |chunk|
  {
    hide Writable, Wrote, FreshCache;
  }

  /** A chunk is not empty, and ends at a multiple of the chunk size or at the end. */
  lemma ChunkEnds(i: nat, n: nat)
    requires i < n && i % MAXCHUNK == 0
    ensures var n1 := Min(n - i, MAXCHUNK); 0 < n1 <= n - i && ((i + n1) % MAXCHUNK == 0 || i + n1 == n)
  {
    ChunkIs();
    assert i == 6656 * (i / 6656);
  }

  lemma NoneWritten(f: Fs, inum: nat, off: nat, addr: seq<Byte>)
    requires WF(f) && inum < NINODES
    ensures Written(f, f, inum, off, addr, 0)
    ensures forall g :: WF(g) && Written(f, g, inum, off, addr, 0) ==> g == f
  {
  }

  lemma WroteWhole(f: Fs, g: Fs, i: nat, off: nat, s: seq<Byte>)
    requires WF(f) && WF(g) && i < NINODES && Whole(f, i) && Wrote(f, g, i, off, s)
    ensures Whole(g, i)
  {
  }

  lemma WritableBounds(d: Dinode, off: nat, n: nat)
    ensures Writable(d, off, n) ==> off <= d.size && off + n <= MAXBYTES
  {
  }

  lemma CacheSize(c: seq<Inode>, f: Fs)
    requires WF(f) && CacheOk(c, f)
    ensures |c| == NINODE
  {
  }

  lemma InFileBounds(d: Dinode, off: nat, n: nat)
    ensures InFile(d, off, n) ==> off <= d.size
  {
  }
}
