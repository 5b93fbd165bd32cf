/** The directory operations of A.ide/src/fs.c over the kernel's files. */
module FsDir {
  import opened FsFormat
  import opened FsState
  import opened FsAlloc
  import opened FsWrite
  import opened FsKernel
  import opened Dirs

  /** The bytes of the directory in entry dp. */
  ghost function DirBytes(f: Fs, c: seq<Inode>, dp: nat): seq<Byte>
    requires WF(f) && CacheOk(c, f) && Loaded(c, dp) && Whole(f, c[dp].inum)
  {
    Content(f.disk, f.tab[c[dp].inum])
  }

  /** Entries in use are the same in both caches. */
  predicate SameInUse(c: seq<Inode>, c': seq<Inode>) {
    |c| == |c'| && forall k :: 0 <= k < |c| ==> c'[k].refs == c[k].refs && (c[k].refs > 0 ==> c'[k] == c[k])
  }

  lemma SearchStep(c: seq<Byte>, key: seq<Byte>, off: nat)
    requires off % DIRENT == 0
    ensures off >= |c| || !Here(c, off) ==> Search(c, key, off) == None
    ensures Here(c, off) ==>
        Search(c, key, off) == if Match(c, key, off) then Some(off) else Search(c, key, off + DIRENT)
  {
  }

  lemma VacantStep(c: seq<Byte>, off: nat)
    requires off % DIRENT == 0
    ensures off >= |c| ==> Vacant(c, off) == Some(off)
    ensures off < |c| ==>
        Vacant(c, off) ==
        if !Here(c, off) then None else if InumAt(c, off) == 0 then Some(off) else Vacant(c, off + DIRENT)
  {
  }

  /** What readi returns of an entry is that entry. */
  lemma EntryRead(c: seq<Byte>, off: nat, de: seq<Byte>, name: seq<Byte>)
    requires Here(c, off) && de == c[off..off + DIRENT] && IsName(name)
    ensures Short(de, 0) == InumAt(c, off) && de[2..] == NameAt(c, off)
    ensures StrnSame(name, de[2..], 0) <==> FieldKey(NameAt(c, off), 0) == Key(name)
  {
    assert de[2..] == NameAt(c, off);
    SameIsKey(name, de[2..], 0);
    assert Key(name)[0..] == Key(name);
  }

  /** The entry reads of dirlookup and dirlink are refused for a device only. */
  lemma EntryInFile(d: Dinode, off: nat)
    requires d.typ != T_DEV && d.size <= MAXBYTES && off <= d.size
    ensures InFile(d, off, DIRENT)
  {
  }

  lemma DeviceRefused(d: Dinode, off: nat)
    ensures d.typ == T_DEV ==> !InFile(d, off, DIRENT)
  {
  }

  /** The entry at off, if it is there in full and not a device's. */
  method ReadEntry(s: FileSys, dp: nat, off: nat, ghost c: seq<Byte>) returns (ok: bool, de: seq<Byte>)
    requires s.Valid() && Loaded(s.icache, dp) && Whole(s.fs, s.icache[dp].inum)
    requires off <= s.icache[dp].d.size && c == DirBytes(s.fs, s.icache, dp)
    modifies s
    ensures s.Valid() && s.fs == old(s.fs) && s.icache == old(s.icache)
    ensures ok == (Here(c, off) && s.icache[dp].d.typ != T_DEV) && (ok ==> de == c[off..off + DIRENT] && |de| == DIRENT)
  {
    hide CacheOk, Content, InFile, Sound;
    CacheEntry(s.icache, s.fs, dp);
    WholeSize(s.fs, s.icache[dp].inum);
    if s.icache[dp].d.typ != T_DEV { EntryInFile(s.icache[dp].d, off); }
    var r;
    r, de := s.Readi(dp, off, DIRENT);
    DeviceRefused(s.icache[dp].d, off);
    ok := r == DIRENT;
  }

  /** Looks a name up: the inode its entry names is fetched into the cache. */
  method Dirlookup(s: FileSys, dp: nat, name: seq<Byte>) returns (ip: nat, poff: nat)
    requires s.Valid() && Loaded(s.icache, dp) && Whole(s.fs, s.icache[dp].inum) && IsName(name)
    modifies s
    ensures s.Valid() && s.fs == old(s.fs)
    ensures var c := old(DirBytes(s.fs, s.icache, dp));
            var k := Search(c, Key(name), 0);
            if old(s.icache)[dp].d.typ != T_DIR || k == None then ip == NINODE && s.icache == old(s.icache)
            else
              && ip == GetSlot(old(s.icache), InumAt(c, k.value)) && poff == k.value
              && s.icache == GotCache(old(s.icache), InumAt(c, k.value))
  {
    hide CacheOk, Search, Match, FieldKey, Content, InFile, GetSlot, GotCache, Whole, StrnSame, Short, Key, Sound, Here;
    CacheEntry(s.icache, s.fs, dp);
    poff := 0;
    if s.icache[dp].d.typ != T_DIR {
      return NINODE, poff;
    }
    ghost var i, key := s.icache[dp].inum, Key(name);
    ghost var c := DirBytes(s.fs, s.icache, dp);
    WholeSize(s.fs, i);
    var off := 0;
    while off < s.icache[dp].d.size
      invariant off % DIRENT == 0 && s.Valid() && s.fs == old(s.fs) && s.icache == old(s.icache)
      invariant Search(c, key, 0) == Search(c, key, off)
    {
      SearchStep(c, key, off);
      var ok, de := ReadEntry(s, dp, off, c);
      if !ok {
        return NINODE, poff;
      }
      EntryRead(c, off, de, name);
      MatchIs(c, key, off);
      var inum := Short(de, 0);
      if inum != 0 && StrnSame(name, de[2..], 0) {
        poff := off;
        GotKeeps(s.icache, s.fs, inum);
        ip := s.Iget(inum);
        return;
      }
      off := off + DIRENT;
    }
    SearchStep(c, key, off);
    ip := NINODE;
  }

  lemma MatchIs(c: seq<Byte>, key: seq<Byte>, off: nat)
    requires Here(c, off)
    ensures Match(c, key, off) <==> InumAt(c, off) != 0 && FieldKey(NameAt(c, off), 0) == key
  {
  }

  /** dirlookup in dirlink comes back with an entry: the name is there and the cache has a place for its
      inode. */
  predicate Seen(c: seq<Byte>, cache: seq<Inode>, key: seq<Byte>)
    requires |cache| == NINODE
  {
    Lookup(c, key).Some? && GetSlot(cache, Lookup(c, key).value) < NINODE
  }

  /** Fetching an inode and putting it back right away changes no entry in use, and frees nothing. */
  lemma GotAndPut(c: seq<Inode>, f: Fs, inum: nat)
    requires WF(f) && CacheOk(c, f) && GetSlot(c, inum) < NINODE
    ensures var ip := GetSlot(c, inum);
            var e := GotCache(c, inum)[ip];
            && e.refs > 0 && !(e.refs == 1 && e.valid)
            && SameInUse(c, GotCache(c, inum)[ip := e.(refs := e.refs - 1)])
  {
    hide Find, Unused;
  }

  /** dirlink's search for a place. In a device nothing can be read. */
  method FindVacant(s: FileSys, dp: nat) returns (ok: bool, off: nat)
    requires s.Valid() && Loaded(s.icache, dp) && Whole(s.fs, s.icache[dp].inum)
    modifies s
    ensures s.Valid() && s.fs == old(s.fs) && s.icache == old(s.icache)
    ensures var v := Vacant(old(DirBytes(s.fs, s.icache, dp)), 0);
            if s.icache[dp].d.typ == T_DEV then ok == (s.icache[dp].d.size == 0) && (ok ==> off == 0)
            else if ok then v == Some(off) else v == None
  {
    hide CacheOk, Vacant, Content, Whole, Short, Sound, Here;
    CacheEntry(s.icache, s.fs, dp);
    ghost var i := s.icache[dp].inum;
    ghost var c := DirBytes(s.fs, s.icache, dp);
    WholeSize(s.fs, i);
    off := 0;
    while off < s.icache[dp].d.size
      invariant off % DIRENT == 0 && s.Valid() && s.fs == old(s.fs) && s.icache == old(s.icache)
      invariant Vacant(c, 0) == Vacant(c, off) && (s.icache[dp].d.typ == T_DEV ==> off == 0)
    {
      VacantStep(c, off);
      var here, de := ReadEntry(s, dp, off, c);
      if !here {
        return false, off;
      }
      ShortRead(c, off, de);
      if Short(de, 0) == 0 {
        return true, off;
      }
      off := off + DIRENT;
    }
    VacantStep(c, off);
    ok := true;
  }

  lemma ShortRead(c: seq<Byte>, off: nat, de: seq<Byte>)
    requires Here(c, off) && de == c[off..off + DIRENT]
    ensures Short(de, 0) == InumAt(c, off)
  {
  }

  /** What adding an entry does to a directory that is a map. */
  ghost predicate Mapped(c: seq<Byte>, r: seq<Byte>, inum: U16, name: seq<Byte>) {
    && (UniqueNames(r) <==> Lookup(c, Key(name)) == None || inum == 0)
    && (Lookup(c, Key(name)) == None ==>
          forall key :: Lookup(r, key) == if key == Key(name) && inum != 0 then Some(inum as nat) else Lookup(c, key))
  }

  lemma LinkMaps(c: seq<Byte>, off: nat, inum: U16, name: seq<Byte>)
    requires IsName(name) && Vacant(c, 0) == Some(off) && off <= |c|
    ensures |c| % DIRENT == 0 && UniqueNames(c) ==> Mapped(c, WithDirent(c, off, inum, name), inum, name)
  {
    hide UniqueNames, Lookup, WithDirent, Vacant;
    if |c| % DIRENT == 0 && UniqueNames(c) {
      LinkedUnique(c, off, inum, name);
      if Lookup(c, Key(name)) == None { EntryLinked(c, off, inum, name); }
    }
  }

  /** Adds the entry (name, inum) to a directory, unless the name is seen there or there is no place. In an inode
      that is no directory no name is ever seen, and in a device there is no place. */
  method Dirlink(s: FileSys, dp: nat, name: seq<Byte>, inum: nat) returns (r: int)
    requires s.Valid() && Loaded(s.icache, dp) && Whole(s.fs, s.icache[dp].inum) && IsName(name)
    requires var v := Vacant(DirBytes(s.fs, s.icache, dp), 0);
             v.Some? && Writable(s.icache[dp].d, v.value, DIRENT) ==> Enough(s.fs, s.icache[dp].inum, v.value + DIRENT)
    modifies s
    ensures s.Valid()
    ensures var c := old(DirBytes(s.fs, s.icache, dp));
            var v := Vacant(c, 0);
            var i := old(s.icache)[dp].inum;
            var seen := old(s.icache)[dp].d.typ == T_DIR && Seen(c, old(s.icache), Key(name));
            && (seen ==>
                  r == -1 && s.fs == old(s.fs) && SameInUse(old(s.icache), s.icache))
            && (!seen && (v == None || !Writable(old(s.icache)[dp].d, v.value, DIRENT)) ==>
                  r == -1 && s.fs == old(s.fs) && s.icache == old(s.icache))
            && (!seen && v.Some? && Writable(old(s.icache)[dp].d, v.value, DIRENT) ==>
                  && r == 0 && Whole(s.fs, i) && v.value <= |c|
                  && s.icache == old(s.icache)[dp := old(s.icache)[dp].(d := s.fs.tab[i])]
                  && Wrote(old(s.fs), s.fs, i, v.value, Dirent(inum % TWO16, name))
                  && Content(s.fs.disk, s.fs.tab[i]) == WithDirent(c, v.value, inum % TWO16, name)
                  && (|c| % DIRENT == 0 && UniqueNames(c) ==>
                      Mapped(c, Content(s.fs.disk, s.fs.tab[i]), inum % TWO16, name)))
  {
    hide CacheOk, Search, Vacant, Content, InFile, GetSlot, GotCache, Whole, SameInUse, UniqueNames, Mapped, Wrote,
      Writable, Enough, Dirent, WithDirent, Match;
    CacheEntry(s.icache, s.fs, dp);
    ghost var i, key, f0, c0 := s.icache[dp].inum, Key(name), s.fs, s.icache;
    ghost var c := DirBytes(s.fs, s.icache, dp);
    WholeSize(s.fs, i);
    var ip, poff := Dirlookup(s, dp, name);
    if ip != NINODE {
      ghost var n := InumAt(c, Search(c, key, 0).value);
      GotAndPut(c0, f0, n);
      s.Iput(ip);
      return -1;
    }
    if c0[dp].d.typ == T_DIR { GotNone(c0, c, key); }
    DeviceNotWritable(c0[dp].d);
    var ok, off := FindVacant(s, dp);
    if !ok {
      return -1;
    }
    if c0[dp].d.typ != T_DEV { VacantInside(c, off); }
    var de := Dirent(inum % TWO16, name);
    r := s.Writei(dp, de, off);
    if r != DIRENT {
      return -1;
    }
    WroteContent(f0, s.fs, i, off, de);
    WithDirentIs(c, off, inum % TWO16, name);
    LinkMaps(c, off, inum % TWO16, name);
    r := 0;
  }

  lemma DeviceNotWritable(d: Dinode)
    ensures d.typ == T_DEV ==> forall off :: !Writable(d, off, DIRENT)
  {
  }

  lemma WithDirentIs(c: seq<Byte>, off: nat, inum: U16, name: seq<Byte>)
    requires off <= |c|
    ensures WithDirent(c, off, inum, name) == Spliced(c, off, Dirent(inum, name))
  {
  }

  lemma VacantInside(c: seq<Byte>, off: nat)
    requires Vacant(c, 0) == Some(off)
    ensures off <= |c|
  {
  }

  lemma GotNone(cache: seq<Inode>, c: seq<Byte>, key: seq<Byte>)
    requires |cache| == NINODE
      && (Search(c, key, 0) == None || GetSlot(cache, InumAt(c, Search(c, key, 0).value)) == NINODE)
    ensures !Seen(c, cache, key)
    ensures Search(c, key, 0).Some? ==> GotCache(cache, InumAt(c, Search(c, key, 0).value)) == cache
  {
  }
}
