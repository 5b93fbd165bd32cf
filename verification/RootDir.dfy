/** The root directory mkfs writes, A.ide/tools/mkfs.c, as the kernel's A.ide/src/fs.c looks names up in
    it. */
module RootDir {
  import opened FsFormat
  import opened FsState
  import opened FsAlloc
  import opened FsWrite
  import opened FsKernel
  import opened Mkfs
  import opened MkfsMain
  import opened Dirs
  import opened FsDir
  import opened FileTable
  import opened RoundTrip

  /** Names mkfs may be given: C strings, no two the same as far as the directory goes, none "." or "..". */
  predicate GoodNames(names: seq<seq<Byte>>) {
    && (forall a :: 0 <= a < |names| ==>
        IsName(Stripped(names[a])) && KeyAt(names, a) != [46] && KeyAt(names, a) != [46, 46])
    && (forall a, b :: 0 <= a < b < |names| ==> KeyAt(names, a) != KeyAt(names, b))
  }

  function KeyAt(names: seq<seq<Byte>>, a: nat): seq<Byte>
    requires a < |names|
  {
    Key(Stripped(names[a]))
  }

  /** What the root directory should say of a name. */
  function RootLookup(names: seq<seq<Byte>>, key: seq<Byte>): Option<nat> {
    if names == [] then (if key == [46] || key == [46, 46] then Some(ROOTINO) else None)
    else if key == KeyAt(names, |names| - 1) then Some(|names| + 1)
    else RootLookup(names[..|names| - 1], key)
  }

  lemma {:induction false} RootLookupIs(names: seq<seq<Byte>>, k: nat)
    requires GoodNames(names) && k < |names|
    ensures RootLookup(names, KeyAt(names, k)) == Some(2 + k)
  {
    if k < |names| - 1 {
      RootLookupIs(names[..|names| - 1], k);
      assert KeyAt(names[..|names| - 1], k) == KeyAt(names, k);
    }
  }

  lemma {:induction false} RootLookupAbsent(names: seq<seq<Byte>>, key: seq<Byte>)
    requires key != [46] && key != [46, 46] && forall a :: 0 <= a < |names| ==> KeyAt(names, a) != key
    ensures RootLookup(names, key) == None
  {
    if names != [] {
      var init := names[..|names| - 1];
      forall a | 0 <= a < |init| ensures KeyAt(init, a) != key {
        assert KeyAt(init, a) == KeyAt(names, a);
      }
      RootLookupAbsent(init, key);
    }
  }

  /** A directory with no unused entry. */
  ghost predicate Full(c: seq<Byte>) {
    |c| % DIRENT == 0 && forall x :: 0 <= x < |c| && x % DIRENT == 0 ==> Here(c, x) && InumAt(c, x) != 0
  }

  lemma {:induction false} FullVacant(c: seq<Byte>, off: nat)
    requires Full(c) && off % DIRENT == 0 && off <= |c|
    ensures Vacant(c, off) == Some(|c|)
    decreases |c| - off
  {
    hide Short;
    if off < |c| {
      assert Here(c, off) && InumAt(c, off) != 0;
      FullVacant(c, off + DIRENT);
    }
  }

  /** Adding an entry at the end of a full directory. */
  lemma FullAdded(c: seq<Byte>, inum: U16, name: seq<Byte>)
    requires Full(c) && inum != 0 && IsName(name)
    ensures WithDirent(c, |c|, inum, name) == c + Dirent(inum, name) && Full(c + Dirent(inum, name))
  {
    hide Dirent, InumAt;
    var r := WithDirent(c, |c|, inum, name);
    assert r == c + Dirent(inum, name);
    forall x | 0 <= x < |r| && x % DIRENT == 0 ensures Here(r, x) && InumAt(r, x) != 0 {
      DirentWritten(c, |c|, inum, name, x);
    }
  }

  lemma EmptyDir()
    ensures Full([]) && UniqueNames([]) && forall key :: Lookup([], key) == None
  {
  }

  /** One more entry in a full directory with unique names. */
  lemma OneMoreEntry(c: seq<Byte>, inum: U16, name: seq<Byte>)
    requires Full(c) && UniqueNames(c) && inum != 0 && IsName(name) && Lookup(c, Key(name)) == None
    ensures var r := c + Dirent(inum, name);
            && Full(r) && UniqueNames(r)
            && forall key :: Lookup(r, key) == if key == Key(name) then Some(inum as nat) else Lookup(c, key)
  {
    hide Dirent, InumAt, Lookup, UniqueNames, Vacant, WithDirent;
    FullVacant(c, 0);
    FullAdded(c, inum, name);
    EntryLinked(c, |c|, inum, name);
  }

  lemma DotsAreMap()
    ensures var c := RootEntries([]);
            Full(c) && UniqueNames(c) && forall key :: Lookup(c, key) == RootLookup([], key)
  {
    hide Full, UniqueNames, Lookup, Dirent;
    EmptyDir();
    OneMoreEntry([], ROOTINO, [46]);
    assert [] + Dirent(ROOTINO, [46]) == Dirent(ROOTINO, [46]);
    OneMoreEntry(Dirent(ROOTINO, [46]), ROOTINO, [46, 46]);
  }

  /** The entries mkfs writes make exactly the map they should. */
  lemma {:induction false} RootIsMap(names: seq<seq<Byte>>)
    requires |names| + 2 <= NINODES && GoodNames(names)
    ensures var c := RootEntries(names);
            Full(c) && UniqueNames(c) && forall key :: Lookup(c, key) == RootLookup(names, key)
  {
    hide Full, UniqueNames, Lookup, Dirent, Key;
    if names == [] {
      DotsAreMap();
    } else {
      var m := |names| - 1;
      var init := names[..m];
      forall a | 0 <= a < m ensures KeyAt(init, a) == KeyAt(names, a) {}
      RootIsMap(init);
      RootLookupAbsent(init, KeyAt(names, m));
      OneMoreEntry(RootEntries(init), m + 2, Stripped(names[m]));
    }
  }

  lemma EntrySame(c: seq<Byte>, d: seq<Byte>, off: nat)
    requires |c| <= |d| && d[..|c|] == c && Here(c, off)
    ensures Here(d, off) && InumAt(d, off) == InumAt(c, off) && NameAt(d, off) == NameAt(c, off)
  {
    assert forall k :: 0 <= k < |c| ==> d[k] == d[..|c|][k] == c[k];
    assert d[off + 2..off + DIRENT] == c[off + 2..off + DIRENT];
  }

  /** Unused entries after the others say nothing. */
  lemma {:induction false} UnusedAfter(c: seq<Byte>, d: seq<Byte>, key: seq<Byte>, off: nat)
    requires |c| % DIRENT == 0 && |c| <= |d| && d[..|c|] == c && (forall k :: |c| <= k < |d| ==> d[k] == 0)
      && off % DIRENT == 0
    ensures Search(d, key, off) == Search(c, key, off)
    decreases |d| - off
  {
    hide FieldKey, NameAt;
    if Here(d, off) {
      if Here(c, off) {
        EntrySame(c, d, off);
      } else {
        assert d[off] == 0 && d[off + 1] == 0;
      }
      UnusedAfter(c, d, key, off + DIRENT);
    }
  }

  lemma LookupAfter(c: seq<Byte>, d: seq<Byte>, key: seq<Byte>)
    requires |c| % DIRENT == 0 && |c| <= |d| && d[..|c|] == c && (forall k :: |c| <= k < |d| ==> d[k] == 0)
    ensures Lookup(d, key) == Lookup(c, key)
  {
    UnusedAfter(c, d, key, 0);
    if Search(c, key, 0).Some? {
      var x := Search(c, key, 0).value;
      EntrySame(c, d, x);
    }
  }

  /** In a finished image whose root directory has the blocks its size calls for, the directory says of each
      name the inode of that file, and nothing of any other name. */
  lemma RootSays(f: Fs, free: nat, names: seq<seq<Byte>>, files: seq<seq<seq<Byte>>>, key: seq<Byte>)
    requires Finished(f, free, names, files) && GoodNames(names) && Whole(f, ROOTINO)
    ensures Lookup(Content(f.disk, f.tab[ROOTINO]), key) == RootLookup(names, key)
  {
    hide Bytes, Mountable, Marked, GoodNames, RootLookup, Full, UniqueNames, Lookup, IsFile, RootEntries;
    var c, d, b := RootEntries(names), Content(f.disk, f.tab[ROOTINO]), Bytes(f.disk, f.tab[ROOTINO]);
    RootIsMap(names);
    RoundedIs(DIRENT * (2 + |names|));
    assert d[..|c|] == b[..|c|] == c;
    LookupAfter(c, d, key);
  }

  lemma RoundedIs(n: nat)
    ensures n < Rounded(n) && (n % DIRENT == 0 ==> Rounded(n) % DIRENT == 0)
  {
  }

  /** The entry dirlookup comes to, and its inode. */
  lemma LookupSearch(c: seq<Byte>, key: seq<Byte>)
    ensures Lookup(c, key) == None <==> Search(c, key, 0) == None
    ensures Lookup(c, key).Some? ==> Lookup(c, key) == Some(InumAt(c, Search(c, key, 0).value) as nat)
  {
  }

  /** With one entry of the inode cache in use there is a place for any inode. */
  lemma PlaceLeft(c: seq<Inode>, inum: nat)
    requires |c| == NINODE && forall k :: 1 <= k < NINODE ==> c[k].refs == 0
    ensures GetSlot(c, inum) < NINODE && GotCache(c, inum)[GetSlot(c, inum)].inum == inum
    ensures GotCache(c, inum)[GetSlot(c, inum)].refs > 0
  {
  }

  /** A kernel freshly mounted on a finished image whose root directory has the blocks its size calls for finds
      under each name the inode of that file, and nothing under any other name. The image stays as it is. */
  method FilesFound(disk: seq<Block>, ghost f: Fs, ghost free: nat, ghost names: seq<seq<Byte>>,
                    ghost files: seq<seq<seq<Byte>>>, name: seq<Byte>)
    returns (ip: nat, inum: nat, k: FileSys)
    requires Finished(f, free, names, files) && f.disk == disk && GoodNames(names) && Whole(f, ROOTINO) && IsName(name)
    ensures fresh(k) && k.Valid() && k.fs == f
    ensures var found := RootLookup(names, Key(name));
            if found.None? then ip == NINODE
            else ip < NINODE && inum == found.value && k.icache[ip].inum == inum && k.icache[ip].refs > 0
  {
    hide Sound, CacheOk, Content, Whole, Mountable, Marked, Lookup, RootLookup, GoodNames, Search, IsFile, RootEntries,
      Bytes, ZeroTail, GetSlot, GotCache, InumAt;
    k := OpenFresh(disk, f, ROOTINO);
    RootSays(f, free, names, files, Key(name));
    ghost var c, cache := DirBytes(f, k.icache, 0), k.icache;
    LookupSearch(c, Key(name));
    var off;
    ip, off := Dirlookup(k, 0, name);
    inum := 0;
    if ip < NINODE {
      inum := k.icache[ip].inum;
    }
    if Lookup(c, Key(name)).Some? {
      PlaceLeft(cache, InumAt(c, Search(c, Key(name), 0).value));
    }
  }

  // ---- an image whose root directory is not whole ------------------------------------------------

  lemma {:induction false} NoCost(g: seq<nat>)
    requires forall i :: 0 <= i < |g| ==> g[i] == if i == ROOTINO then 1 else 0
    ensures TotalCost(g) == if |g| > ROOTINO then 1 else 0
  {
    if g != [] { NoCost(g[..|g| - 1]); }
  }

  /** Thirty files named A, B, C and on, with nothing in them. */
  function ThirtyNames(): seq<seq<Byte>> { seq(30, k requires 0 <= k < 30 => [65 + k]) }

  function ThirtyFiles(): seq<seq<seq<Byte>>> { seq(30, _ => []) }

  lemma ThirtyFit()
    ensures Fits(ThirtyFiles()) && GoodNames(ThirtyNames())
    ensures forall k :: 0 <= k < 30 ==> SLASH !in Stripped(ThirtyNames()[k])
  {
    var g := Goal(ThirtyFiles());
    forall i | 0 <= i < NINODES ensures g[i] == if i == ROOTINO then 1 else 0 {
      assert g[i] == GoalFor(ThirtyFiles(), i);
    }
    NoCost(g);
  }

  /** With them mkfs makes an image whose root directory lacks a block its size calls for. */
  method ThirtyFilesSpill() returns (disk: seq<Block>, ghost f: Fs, ghost free: nat)
    ensures Finished(f, free, ThirtyNames(), ThirtyFiles()) && disk == f.disk
    ensures !Whole(f, ROOTINO) && GoodNames(ThirtyNames())
  {
    hide Fits, GoodNames, Stripped, Whole, Mountable, Marked, IsFile, RootEntries, ZeroTail, Bytes;
    ThirtyFit();
    var img := MakeImage(ThirtyNames(), ThirtyFiles());
    disk, f, free := img.disk, img.fs, img.freeblock;
  }
}
