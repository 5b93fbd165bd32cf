/** Directories as maps, A.ide/src/fs.c: what a directory's bytes say about each name, and what writing
    one entry does to that. */
module Dirs {
  import opened FsFormat
  import opened FsWrite

  datatype Option<T> = None | Some(value: T)

  // ---- names -------------------------------------------------------------------------------------

  /** strncmp(s, t, DIRSIZ) == 0 from byte k on, for a C string s and the name bytes t of an entry. */
  predicate StrnSame(s: seq<Byte>, t: seq<Byte>, k: nat)
    requires |t| == DIRSIZ && k <= DIRSIZ
    decreases DIRSIZ - k
  {
    k == DIRSIZ || (NameByte(s, k) == t[k] && (t[k] == 0 || StrnSame(s, t, k + 1)))
  }

  /** A name as far as it matters to a directory. */
  function Key(name: seq<Byte>): seq<Byte> {
    if |name| < DIRSIZ then name else name[..DIRSIZ]
  }

  /** The name in an entry: the bytes up to the first 0. */
  function FieldKey(t: seq<Byte>, k: nat): (r: seq<Byte>)
    requires |t| == DIRSIZ && k <= DIRSIZ
    ensures |r| <= DIRSIZ - k && r == t[k..k + |r|] && 0 !in r
    ensures |r| < DIRSIZ - k ==> t[k + |r|] == 0
    decreases DIRSIZ - k
  {
    if k == DIRSIZ || t[k] == 0 then [] else [t[k]] + FieldKey(t, k + 1)
  }

  /** An entry matches a name just when its own name is that name's first DIRSIZ bytes. */
  lemma {:induction false} SameIsKey(name: seq<Byte>, t: seq<Byte>, k: nat)
    requires IsName(name) && |t| == DIRSIZ && k <= DIRSIZ && k <= |name|
    ensures StrnSame(name, t, k) <==> FieldKey(t, k) == Key(name)[k..]
    decreases DIRSIZ - k
  {
    if k < DIRSIZ {
      if k < |name| && name[k] == t[k] {
        assert name[k] != 0;
        SameIsKey(name, t, k + 1);
        assert Key(name)[k..] == [name[k]] + Key(name)[k + 1..];
      } else if k < |name| && FieldKey(t, k) != [] {
        assert Key(name)[k..][0] == name[k] && FieldKey(t, k)[0] == t[k];
      }
    }
  }

  lemma {:induction false} FieldIs(t: seq<Byte>, k: nat, s: seq<Byte>)
    requires |t| == DIRSIZ && k + |s| <= DIRSIZ && (forall j :: 0 <= j < |s| ==> t[k + j] == s[j] != 0)
    requires k + |s| < DIRSIZ ==> t[k + |s|] == 0
    ensures FieldKey(t, k) == s
    decreases DIRSIZ - k
  {
    if s != [] {
      assert t[k + 0] == s[0];
      forall j | 0 <= j < |s[1..]| ensures t[k + 1 + j] == s[1..][j] != 0 { assert t[k + (j + 1)] == s[j + 1]; }
      FieldIs(t, k + 1, s[1..]);
      assert s == [s[0]] + s[1..];
    }
  }

  /** strncpy writes a name that reads back as that name. */
  lemma FieldOfName(name: seq<Byte>)
    requires IsName(name)
    ensures FieldKey(NameField(name), 0) == Key(name) == name[..Min(|name|, 14)]
  {
    var t := NameField(name);
    forall j | 0 <= j < |Key(name)| ensures t[0 + j] == Key(name)[j] != 0 { assert t[j] == NameByte(name, j); }
    FieldIs(t, 0, Key(name));
  }

  // ---- entries -----------------------------------------------------------------------------------

  /** The entry at offset off of a directory's bytes is there in full. */
  predicate Here(c: seq<Byte>, off: nat) { off + DIRENT <= |c| }

  function InumAt(c: seq<Byte>, off: nat): U16
    requires Here(c, off)
  {
    Short(c, off)
  }

  function NameAt(c: seq<Byte>, off: nat): (t: seq<Byte>)
    requires Here(c, off)
    ensures |t| == DIRSIZ
  {
    c[off + 2..off + DIRENT]
  }

  /** The entry at off is in use under that key. */
  predicate Match(c: seq<Byte>, key: seq<Byte>, off: nat)
    requires Here(c, off)
  {
    InumAt(c, off) != 0 && FieldKey(NameAt(c, off), 0) == key
  }

  /** Where dirlookup finds the key, searching from off. */
  function Search(c: seq<Byte>, key: seq<Byte>, off: nat): (r: Option<nat>)
    requires off % DIRENT == 0
    ensures r.Some? ==> off <= r.value && r.value % DIRENT == 0 && Here(c, r.value) && Match(c, key, r.value)
    decreases |c| - off
  {
    if !Here(c, off) then None else if Match(c, key, off) then Some(off) else Search(c, key, off + DIRENT)
  }

  /** Where dirlink puts an entry: the first unused one from off on, the end if there is none, nowhere
      if the last entry is cut short. */
  function Vacant(c: seq<Byte>, off: nat): (r: Option<nat>)
    requires off % DIRENT == 0
    ensures r.Some? ==> off <= r.value && r.value % DIRENT == 0
    ensures r.Some? && off <= |c| ==> r.value == |c| || (Here(c, r.value) && InumAt(c, r.value) == 0)
    ensures r.None? ==> |c| % DIRENT != 0
    decreases |c| - off
  {
    if off >= |c| then Some(off)
    else if !Here(c, off) then None
    else if InumAt(c, off) == 0 then Some(off)
    else Vacant(c, off + DIRENT)
  }

  /** All entries before that place are in use. */
  lemma {:induction false} VacantFirst(c: seq<Byte>, off: nat, x: nat)
    requires off % DIRENT == 0 && x % DIRENT == 0 && off <= x && Here(c, x)
    ensures var r := Vacant(c, off); InumAt(c, x) != 0 || (r.Some? && r.value <= x)
    decreases x - off
  {
    hide InumAt;
    if off < x && InumAt(c, off) != 0 { VacantFirst(c, off + DIRENT, x); }
  }

  /** The map a directory is: the inode each name leads to. */
  function Lookup(c: seq<Byte>, key: seq<Byte>): Option<nat> {
    match Search(c, key, 0)
    case None => None
    case Some(off) => Some(InumAt(c, off))
  }

  /** The entries at a and b are both in use, under one name. */
  predicate Clash(c: seq<Byte>, a: nat, b: nat)
    requires Here(c, a) && Here(c, b)
  {
    InumAt(c, a) != 0 && InumAt(c, b) != 0 && FieldKey(NameAt(c, a), 0) == FieldKey(NameAt(c, b), 0)
  }

  /** No two entries in use have the same name. */
  ghost predicate UniqueNames(c: seq<Byte>) {
    forall a, b :: 0 <= a < b && a % DIRENT == 0 && b % DIRENT == 0 && Here(c, b) ==> !Clash(c, a, b)
  }

  /** A match anywhere is found, and with unique names it is the one found. */
  lemma {:induction false} SearchFinds(c: seq<Byte>, key: seq<Byte>, from: nat, off: nat)
    requires from <= off && from % DIRENT == 0 && off % DIRENT == 0 && Here(c, off) && Match(c, key, off)
    ensures Search(c, key, from).Some? && Search(c, key, from).value <= off
    ensures UniqueNames(c) ==> Search(c, key, from).value == off
    decreases off - from
  {
    hide FieldKey, NameAt, InumAt;
    if from < off {
      if !Match(c, key, from) { SearchFinds(c, key, from + DIRENT, off); } else { assert Clash(c, from, off); }
    }
  }

  // ---- adding an entry ---------------------------------------------------------------------------

  /** A directory's bytes with the entry (inum, name) written at off. */
  function WithDirent(c: seq<Byte>, off: nat, inum: U16, name: seq<Byte>): (r: seq<Byte>)
    requires off <= |c|
  {
    Spliced(c, off, Dirent(inum, name))
  }

  lemma DirentWritten(c: seq<Byte>, off: nat, inum: U16, name: seq<Byte>, x: nat)
    requires off <= |c| && |c| % DIRENT == 0 && off % DIRENT == 0 && x % DIRENT == 0 && IsName(name)
    ensures var r := WithDirent(c, off, inum, name);
            && |r| == (if off == |c| then |c| + DIRENT else |c|)
            && Here(r, off) && InumAt(r, off) == inum && FieldKey(NameAt(r, off), 0) == Key(name)
            && (x != off ==>
                  && (Here(r, x) <==> Here(c, x))
                  && (Here(c, x) ==> InumAt(r, x) == InumAt(c, x) && NameAt(r, x) == NameAt(c, x)))
  {
    hide WithDirent, InumAt, NameAt, FieldKey;
    DirentAt(c, off, inum, name);
    if x != off { DirentApart(c, off, inum, name, x); }
  }

  lemma DirentAt(c: seq<Byte>, off: nat, inum: U16, name: seq<Byte>)
    requires off <= |c| && |c| % DIRENT == 0 && off % DIRENT == 0 && IsName(name)
    ensures var r := WithDirent(c, off, inum, name);
            && |r| == (if off == |c| then |c| + DIRENT else |c|)
            && Here(r, off) && InumAt(r, off) == inum && FieldKey(NameAt(r, off), 0) == Key(name)
  {
    hide FieldKey, NameField;
    var r, e := WithDirent(c, off, inum, name), Dirent(inum, name);
    assert r[off] == e[0] && r[off + 1] == e[1];
    ShortOfBytes(r, off, inum);
    assert NameAt(r, off) == NameField(name);
    FieldOfName(name);
  }

  lemma DirentApart(c: seq<Byte>, off: nat, inum: U16, name: seq<Byte>, x: nat)
    requires off <= |c| && |c| % DIRENT == 0 && off % DIRENT == 0 && x % DIRENT == 0 && x != off
    ensures var r := WithDirent(c, off, inum, name);
            && (Here(r, x) <==> Here(c, x))
            && (Here(c, x) ==> InumAt(r, x) == InumAt(c, x) && NameAt(r, x) == NameAt(c, x))
  {
    hide Dirent;
    assert x + DIRENT <= off || off + DIRENT <= x;
    var r := WithDirent(c, off, inum, name);
    if Here(c, x) {
      assert forall k :: x <= k < x + DIRENT ==> r[k] == c[k];
      assert NameAt(r, x) == NameAt(c, x);
    }
  }

  /** Adding an absent name to a directory at an unused entry gives that name its inode and changes no
      other name; it keeps names unique. An inode number of 0 would leave the entry unused. */
  lemma EntryLinked(c: seq<Byte>, off: nat, inum: U16, name: seq<Byte>)
    requires IsName(name) && |c| % DIRENT == 0 && UniqueNames(c) && Lookup(c, Key(name)) == None
      && Vacant(c, 0) == Some(off)
    ensures off <= |c|
    ensures var r := WithDirent(c, off, inum, name);
            && UniqueNames(r) && |r| % DIRENT == 0
            && forall key :: Lookup(r, key) ==
                if key == Key(name) && inum != 0 then Some(inum as nat) else Lookup(c, key)
  {
    hide Match, FieldKey, WithDirent, UniqueNames, InumAt, NameAt, Lookup;
    LinkedUnique(c, off, inum, name);
    DirentWritten(c, off, inum, name, off);
    forall key
      ensures Lookup(WithDirent(c, off, inum, name), key) ==
        if key == Key(name) && inum != 0 then Some(inum as nat) else Lookup(c, key)
    {
      LinkedLookup(c, off, inum, name, key);
    }
  }

  /** How matches change: only at off, and only for the new name. */
  lemma LinkedMatch(c: seq<Byte>, off: nat, inum: U16, name: seq<Byte>, key: seq<Byte>, x: nat)
    requires IsName(name) && |c| % DIRENT == 0 && Vacant(c, 0) == Some(off) && x % DIRENT == 0
    ensures off <= |c|
    ensures var r := WithDirent(c, off, inum, name);
            && (Here(r, x) && Match(r, key, x) <==>
                  if x == off then inum != 0 && key == Key(name) else Here(c, x) && Match(c, key, x))
            && (x == off ==> !(Here(c, x) && Match(c, key, x)))
            && (Here(c, x) && x != off ==> Here(r, x) && InumAt(r, x) == InumAt(c, x))
            && Here(r, off) && InumAt(r, off) == inum
  {
    DirentWritten(c, off, inum, name, x);
    hide FieldKey;
  }

  lemma LinkedLookup(c: seq<Byte>, off: nat, inum: U16, name: seq<Byte>, key: seq<Byte>)
    requires IsName(name) && |c| % DIRENT == 0 && UniqueNames(c) && Lookup(c, Key(name)) == None
      && Vacant(c, 0) == Some(off)
    requires off <= |c| && UniqueNames(WithDirent(c, off, inum, name))
    ensures Lookup(WithDirent(c, off, inum, name), key) ==
        if key == Key(name) && inum != 0 then Some(inum as nat) else Lookup(c, key)
  {
    hide Match, FieldKey, WithDirent, InumAt, UniqueNames;
    var r := WithDirent(c, off, inum, name);
    LinkedMatch(c, off, inum, name, key, off);
    if key == Key(name) && inum != 0 {
      SearchFinds(r, key, 0, off);
    } else if Search(c, key, 0).Some? {
      var x := Search(c, key, 0).value;
      LinkedMatch(c, off, inum, name, key, x);
      SearchFinds(r, key, 0, x);
    } else if Search(r, key, 0).Some? {
      var x := Search(r, key, 0).value;
      LinkedMatch(c, off, inum, name, key, x);
      SearchFinds(c, key, 0, x);
    }
  }

  /** A directory keeps its names unique just when the new name was absent, or its entry is unused. */
  lemma LinkedUnique(c: seq<Byte>, off: nat, inum: U16, name: seq<Byte>)
    requires IsName(name) && |c| % DIRENT == 0 && UniqueNames(c) && Vacant(c, 0) == Some(off)
    ensures off <= |c| && (UniqueNames(WithDirent(c, off, inum, name)) <==> Lookup(c, Key(name)) == None || inum == 0)
  {
    if Lookup(c, Key(name)) == None || inum == 0 {
      LinkedKeepsUnique(c, off, inum, name);
    } else {
      LinkedTwice(c, off, inum, name);
    }
  }

  lemma LinkedTwice(c: seq<Byte>, off: nat, inum: U16, name: seq<Byte>)
    requires IsName(name) && |c| % DIRENT == 0 && Vacant(c, 0) == Some(off) && Lookup(c, Key(name)).Some? && inum != 0
    ensures off <= |c| && !UniqueNames(WithDirent(c, off, inum, name))
  {
    hide FieldKey, WithDirent, InumAt, NameAt;
    var x := Search(c, Key(name), 0).value;
    DirentWritten(c, off, inum, name, x);
    var r := WithDirent(c, off, inum, name);
    assert if x < off then Clash(r, x, off) else Clash(r, off, x);
  }

  lemma LinkedKeepsUnique(c: seq<Byte>, off: nat, inum: U16, name: seq<Byte>)
    requires IsName(name) && |c| % DIRENT == 0 && UniqueNames(c) && (Lookup(c, Key(name)) == None || inum == 0)
      && Vacant(c, 0) == Some(off)
    ensures off <= |c| && UniqueNames(WithDirent(c, off, inum, name))
  {
    hide Clash, WithDirent;
    var r := WithDirent(c, off, inum, name);
    forall a, b | 0 <= a < b && a % DIRENT == 0 && b % DIRENT == 0 && Here(r, b) ensures !Clash(r, a, b) {
      LinkedClash(c, off, inum, name, a, b);
    }
  }

  lemma LinkedClash(c: seq<Byte>, off: nat, inum: U16, name: seq<Byte>, a: nat, b: nat)
    requires IsName(name) && |c| % DIRENT == 0 && UniqueNames(c) && (Lookup(c, Key(name)) == None || inum == 0)
      && Vacant(c, 0) == Some(off)
    requires 0 <= a < b && a % DIRENT == 0 && b % DIRENT == 0 && Here(WithDirent(c, off, inum, name), b)
    ensures !Clash(WithDirent(c, off, inum, name), a, b)
  {
    hide FieldKey, WithDirent, InumAt, NameAt;
    DirentWritten(c, off, inum, name, a);
    DirentWritten(c, off, inum, name, b);
    var key := Key(name);
    if a == off {
      if InumAt(c, b) != 0 && FieldKey(NameAt(c, b), 0) == key { SearchFinds(c, key, 0, b); }
    } else if b == off {
      if InumAt(c, a) != 0 && FieldKey(NameAt(c, a), 0) == key { SearchFinds(c, key, 0, a); }
    } else {
      assert !Clash(c, a, b);
    }
  }
}
