/** User page tables, 8.UserProcess/src/page.c, as the processor reads them: 32-bit paging, section 4.3
    of the Intel 64 and IA-32 Architectures Software Developer's Manual, Volume 3A, with 4 KB pages. */
module PageTable {
  import opened FsFormat
  import opened PhysMem
  import opened PageAlloc

  const ENTRIES: nat := 1024

  /** What a linear address leads to. */
  datatype Target = Unmapped | Mapped(pa: nat, writable: bool, user: bool)

  predicate IsFrame(p: nat) { p % PAGE_SIZE == 0 && p + PAGE_SIZE <= TWO32 }

  function Frame(m: Memory, p: nat): (s: seq<Byte>)
    requires IsFrame(p)
    ensures |s| == PAGE_SIZE
  {
    m[p..p + PAGE_SIZE]
  }

  /** The frame an entry points at: its upper 20 bits. */
  function FrameOf(entry: U32): (p: nat)
    ensures IsFrame(p)
  {
    entry / PAGE_SIZE * PAGE_SIZE
  }

  predicate Present(entry: U32) { entry % 2 == 1 }
  predicate Writable(entry: U32) { entry / 2 % 2 == 1 }
  predicate User(entry: U32) { entry / 4 % 2 == 1 }

  /** x | PAGE_PRESENT | PAGE_WRITE | PAGE_USER: the low three bits set. */
  function WithFlags(x: nat): (r: U32)
    requires x < TWO32
  {
    x - x % 8 + 7
  }

  lemma FlagsAre(p: nat)
    requires IsFrame(p)
    ensures var e := WithFlags(p); e == p + 7 && FrameOf(e) == p && Present(e) && Writable(e) && User(e)
  {
    var q := p / 4096;
    assert p == 4096 * q;
    FlagBits(q);
  }

  lemma FlagBits(q: nat)
    ensures (4096 * q) % 8 == 0 && (4096 * q + 7) / 4096 == q && (4096 * q + 7) % 2 == 1
    ensures (4096 * q + 7) / 2 % 2 == 1 && (4096 * q + 7) / 4 % 2 == 1
  {
    DivMod(4096 * q, 8, 512 * q, 0);
    DivMod(4096 * q + 7, 4096, q, 7);
    DivMod(4096 * q + 7, 2, 2048 * q + 3, 1);
    DivMod(2048 * q + 3, 2, 1024 * q + 1, 1);
    DivMod(4096 * q + 7, 4, 1024 * q + 1, 3);
    DivMod(1024 * q + 1, 2, 512 * q, 1);
  }

  lemma DivMod(x: nat, d: nat, q: nat, r: nat)
    requires x == d * q + r && r < d
    ensures x / d == q && x % d == r
  {
    var e := x / d;
    assert x == d * e + x % d;
    assert e < q ==> d * (e + 1) <= d * q;
    assert e > q ==> d * (q + 1) <= d * e;
  }

  function Entry(m: Memory, p: nat, i: nat): U32
    requires IsFrame(p) && i < ENTRIES
  {
    Word(m, p + 4 * i)
  }

  /** The processor's walk of two levels. */
  function Walk(m: Memory, dir: nat, va: nat): Target
    requires IsFrame(dir) && va < TWO32
  {
    var pde := Entry(m, dir, va / 0x40_0000);
    if !Present(pde) then Unmapped else
      var pte := Entry(m, FrameOf(pde), va / PAGE_SIZE % ENTRIES);
      if !Present(pte) then Unmapped
      else Mapped(FrameOf(pte) + va % PAGE_SIZE, Writable(pde) && Writable(pte), User(pde) && User(pte))
  }

  /** The address space setup_pagetable is for: the kernel's where it may live, one stack page, one code
      page, nothing else. */
  function UserSpace(m: Memory, kernel: nat, stack: nat, code: nat, va: nat): Target
    requires IsFrame(kernel) && va < TWO32
  {
    if va < 5 * 0x40_0000 then Walk(m, kernel, va)
    else if 0x7FFF_F000 <= va < 0x8000_0000 then Mapped(stack + va % PAGE_SIZE, true, true)
    else if 0x8000_0000 <= va < 0x8000_1000 then Mapped(code + va % PAGE_SIZE, true, true)
    else Unmapped
  }

  // ---- tables in memory ---------------------------------------------------------------------------

  /** The table at p has these entries. */
  ghost predicate TableIs(m: Memory, p: nat, t: seq<U32>)
    requires IsFrame(p)
  {
    |t| == ENTRIES && forall i :: 0 <= i < ENTRIES ==> Entry(m, p, i) == t[i]
  }

  function NoEntries(): (t: seq<U32>)
    ensures |t| == ENTRIES && forall i :: 0 <= i < ENTRIES ==> t[i] == 0
  {
    seq(ENTRIES, _ => 0)
  }

  /** Frames outside s are as they were. */
  ghost predicate OnlyIn(m: Memory, m': Memory, s: set<nat>) {
    forall p :: IsFrame(p) && p !in s ==> Frame(m', p) == Frame(m, p)
  }

  lemma EntryKept(m: Memory, m': Memory, p: nat, i: nat)
    requires IsFrame(p) && i < ENTRIES && Frame(m', p) == Frame(m, p)
    ensures Entry(m', p, i) == Entry(m, p, i)
  {
    assert forall k :: 0 <= k < PAGE_SIZE ==> m[p + k] == Frame(m, p)[k] && m'[p + k] == Frame(m', p)[k];
    assert m[p + (4 * i)] == m'[p + (4 * i)] && m[p + (4 * i + 1)] == m'[p + (4 * i + 1)];
    assert m[p + (4 * i + 2)] == m'[p + (4 * i + 2)] && m[p + (4 * i + 3)] == m'[p + (4 * i + 3)];
  }

  lemma TableKept(m: Memory, m': Memory, p: nat, t: seq<U32>)
    requires IsFrame(p) && TableIs(m, p, t) && Frame(m', p) == Frame(m, p)
    ensures TableIs(m', p, t)
  {
    hide Entry;
    forall i | 0 <= i < ENTRIES ensures Entry(m', p, i) == t[i] { EntryKept(m, m', p, i); }
  }

  /** A write inside one frame. */
  lemma WriteInside(m: Memory, p: nat, off: nat, s: seq<Byte>)
    requires IsFrame(p) && off + |s| <= PAGE_SIZE
    ensures |Overwrite(m, p + off, s)| == TWO32 && OnlyIn(m, Overwrite(m, p + off, s), {p})
  {
    var m' := Overwrite(m, p + off, s);
    forall q | IsFrame(q) && q != p ensures Frame(m', q) == Frame(m, q) {
      PagesApart(p, q);
    }
  }

  lemma EntryPut(m: Memory, p: nat, t: seq<U32>, i: nat, v: U32)
    requires IsFrame(p) && TableIs(m, p, t) && i < ENTRIES
    ensures var m' := Overwrite(m, p + 4 * i, WordBytes(v));
            |m'| == TWO32 && TableIs(m', p, t[i := v]) && OnlyIn(m, m', {p})
  {
    hide Word, Overwrite, OnlyIn;
    WriteInside(m, p, 4 * i, WordBytes(v));
    var m' := Overwrite(m, p + 4 * i, WordBytes(v));
    forall j | 0 <= j < ENTRIES ensures Entry(m', p, j) == t[i := v][j] {
      WordStored(m, p + 4 * i, v, p + 4 * j);
    }
  }

  lemma TableZeroed(m: Memory, p: nat)
    requires IsFrame(p)
    ensures var m' := Overwrite(m, p, Same(0, PAGE_SIZE));
            |m'| == TWO32 && TableIs(m', p, NoEntries()) && OnlyIn(m, m', {p}) && Frame(m', p) == Same(0, PAGE_SIZE)
  {
    hide OnlyIn, Word;
    WriteInside(m, p, 0, Same(0, PAGE_SIZE));
    var m' := Overwrite(m, p, Same(0, PAGE_SIZE));
    forall i | 0 <= i < ENTRIES ensures Entry(m', p, i) == 0 {
      WordZero(m, p, PAGE_SIZE, p + 4 * i);
    }
  }

  lemma OnlyInBoth(m: Memory, m1: Memory, m2: Memory, s: set<nat>, t: set<nat>)
    requires OnlyIn(m, m1, s) && OnlyIn(m1, m2, t)
    ensures OnlyIn(m, m2, s + t)
  {
    hide Frame;
  }

  // ---- what the walk finds ------------------------------------------------------------------------

  /** A walk reads two frames. */
  lemma WalkKept(m: Memory, m': Memory, dir: nat, va: nat)
    requires IsFrame(dir) && va < TWO32 && Frame(m', dir) == Frame(m, dir)
    requires var pde := Entry(m, dir, va / 0x40_0000);
             Present(pde) ==> Frame(m', FrameOf(pde)) == Frame(m, FrameOf(pde))
    ensures Walk(m', dir, va) == Walk(m, dir, va)
  {
    hide Entry, Frame, FrameOf;
    EntryKept(m, m', dir, va / 0x40_0000);
    var pde := Entry(m, dir, va / 0x40_0000);
    if Present(pde) { EntryKept(m, m', FrameOf(pde), va / PAGE_SIZE % ENTRIES); }
  }

  /** What setup_pagetable leaves in memory, from what it found in m0. */
  ghost predicate SetUp(m0: Memory, m: Memory, kernel: nat, dir: nat, tStack: nat, stack: nat, tCode: nat, code: nat) {
    && IsFrame(kernel) && IsFrame(dir) && IsFrame(tStack) && IsFrame(stack) && IsFrame(tCode) && IsFrame(code)
    && TableIs(m, dir, DirTable(m0, kernel, tStack, tCode))
    && TableIs(m, tStack, NoEntries()[1023 := WithFlags(stack)]) && TableIs(m, tCode, NoEntries()[0 := WithFlags(code)])
    && OnlyIn(m0, m, {dir, tStack, stack, tCode, code})
  }

  /** The first n entries of the kernel's directory, and nothing else. */
  function KernelPart(m: Memory, kernel: nat, n: nat): (t: seq<U32>)
    requires IsFrame(kernel) && n <= 5
    ensures |t| == ENTRIES && forall i :: 0 <= i < ENTRIES ==> t[i] == if i < n then Entry(m, kernel, i) else 0
  {
    if n == 0 then NoEntries() else KernelPart(m, kernel, n - 1)[n - 1 := Entry(m, kernel, n - 1)]
  }

  function DirTable(m: Memory, kernel: nat, tStack: nat, tCode: nat): (t: seq<U32>)
    requires IsFrame(kernel) && IsFrame(tStack) && IsFrame(tCode)
    ensures |t| == ENTRIES
  {
    KernelPart(m, kernel, 5)[511 := WithFlags(tStack)][512 := WithFlags(tCode)]
  }

  /** The kernel's directory and the tables of its first five entries are none of these pages. */
  ghost predicate KernelApart(m: Memory, kernel: nat, pages: set<nat>)
    requires IsFrame(kernel)
  {
    && kernel !in pages
    && forall i :: 0 <= i < 5 && Present(Entry(m, kernel, i)) ==> FrameOf(Entry(m, kernel, i)) !in pages
  }

  /** Where the two mapped pages are in the two levels. */
  lemma Slots(va: nat)
    requires va < TWO32
    ensures va / 0x40_0000 < ENTRIES && (va / 0x40_0000 < 5 <==> va < 5 * 0x40_0000)
    ensures 0x7FFF_F000 <= va < 0x8000_0000 <==> va / 0x40_0000 == 511 && va / PAGE_SIZE % ENTRIES == 1023
    ensures 0x8000_0000 <= va < 0x8000_1000 <==> va / 0x40_0000 == 512 && va / PAGE_SIZE % ENTRIES == 0
  {
    var d, r := va / 0x40_0000, va % 0x40_0000;
    assert va == 0x40_0000 * d + r;
    assert va / PAGE_SIZE == ENTRIES * d + r / PAGE_SIZE;
    assert va / PAGE_SIZE % ENTRIES == r / PAGE_SIZE;
  }

  /** The kernel's part of the walk is the kernel's walk. */
  lemma WalkKernel(m0: Memory, m: Memory, kernel: nat, dir: nat, pages: set<nat>, va: nat)
    requires IsFrame(kernel) && IsFrame(dir) && va < 5 * 0x40_0000
    requires Entry(m, dir, va / 0x40_0000) == Entry(m0, kernel, va / 0x40_0000)
    requires OnlyIn(m0, m, pages) && KernelApart(m0, kernel, pages)
    ensures Walk(m, dir, va) == Walk(m0, kernel, va)
  {
    hide Entry, Frame, FrameOf, Present, Writable, User;
    var pde := Entry(m0, kernel, va / 0x40_0000);
    if Present(pde) { EntryKept(m0, m, FrameOf(pde), va / PAGE_SIZE % ENTRIES); }
  }

  /** A table with one page in it. */
  lemma WalkOne(m: Memory, dir: nat, table: nat, page: nat, i: nat, va: nat)
    requires IsFrame(dir) && IsFrame(table) && IsFrame(page) && i < ENTRIES && va < TWO32
    requires Entry(m, dir, va / 0x40_0000) == WithFlags(table) && TableIs(m, table, NoEntries()[i := WithFlags(page)])
    ensures Walk(m, dir, va) ==
        if va / PAGE_SIZE % ENTRIES == i then Mapped(page + va % PAGE_SIZE, true, true) else Unmapped
  {
    FlagsAre(table);
    FlagsAre(page);
    NotPresent();
    hide Entry, FrameOf, Present, Writable, User, WithFlags;
  }

  lemma NotPresent()
    ensures !Present(0)
  {
  }

  lemma DirEntry(m: Memory, kernel: nat, tStack: nat, tCode: nat, i: nat)
    requires IsFrame(kernel) && IsFrame(tStack) && IsFrame(tCode) && i < ENTRIES
    ensures DirTable(m, kernel, tStack, tCode)[i] ==
            if i < 5 then Entry(m, kernel, i)
            else if i == 511 then WithFlags(tStack)
            else if i == 512 then WithFlags(tCode)
            else 0
  {
    hide Entry, WithFlags;
  }

  /** The walk of the new directory, for every 32-bit address. */
  lemma WalkIs(m0: Memory, m: Memory, kernel: nat, dir: nat, tStack: nat, stack: nat, tCode: nat, code: nat, va: nat)
    requires SetUp(m0, m, kernel, dir, tStack, stack, tCode, code) && va < TWO32
    requires KernelApart(m0, kernel, {dir, tStack, stack, tCode, code})
    ensures Walk(m, dir, va) == UserSpace(m0, kernel, stack, code, va)
  {
    hide Entry, Frame, FrameOf, Present, Writable, User, WithFlags, DirTable, OnlyIn, KernelApart;
    Slots(va);
    var slot := va / 0x40_0000;
    DirEntry(m0, kernel, tStack, tCode, slot);
    assert Entry(m, dir, slot) == DirTable(m0, kernel, tStack, tCode)[slot];
    if slot < 5 {
      WalkKernel(m0, m, kernel, dir, {dir, tStack, stack, tCode, code}, va);
    } else if slot == 511 {
      WalkOne(m, dir, tStack, stack, 1023, va);
    } else if slot == 512 {
      WalkOne(m, dir, tCode, code, 0, va);
    } else {
      NotPresent();
    }
  }

  /** Entry i of the table at p, as the four bytes it is. */
  function EntryBytes(m: Memory, p: nat, i: nat): nat
    requires IsFrame(p) && i < ENTRIES
  {
    Little(m[p + 4 * i..p + 4 * i + 4])
  }

  /** The three tables in memory, byte for byte: the numbers the source computes, in Intel byte order. */
  lemma TablesInMemory(m0: Memory, m: Memory, kernel: nat,
                       dir: nat, tStack: nat, stack: nat, tCode: nat, code: nat, i: nat)
    requires SetUp(m0, m, kernel, dir, tStack, stack, tCode, code) && i < ENTRIES
    ensures EntryBytes(m, dir, i) ==
            if i < 5 then EntryBytes(m0, kernel, i)
            else if i == 511 then tStack + 7 else if i == 512 then tCode + 7 else 0
    ensures EntryBytes(m, tStack, i) == (if i == 1023 then stack + 7 else 0)
    ensures EntryBytes(m, tCode, i) == (if i == 0 then code + 7 else 0)
  {
    hide FrameOf, Present, Writable, User, WithFlags, DirTable, OnlyIn, Word, Little;
    FlagsAre(tStack);
    FlagsAre(stack);
    FlagsAre(tCode);
    FlagsAre(code);
    DirEntry(m0, kernel, tStack, tCode, i);
    InOrder(m, dir + 4 * i);
    InOrder(m, tStack + 4 * i);
    InOrder(m, tCode + 4 * i);
    InOrder(m0, kernel + 4 * i);
    assert Entry(m, dir, i) == DirTable(m0, kernel, tStack, tCode)[i];
    assert Entry(m, tStack, i) == NoEntries()[1023 := WithFlags(stack)][i];
    assert Entry(m, tCode, i) == NoEntries()[0 := WithFlags(code)][i];
  }

  // ---- building ------------------------------------------------------------------------------------

  /** A page with no entries. With none left it zeroes what lies at address 0 and returns that. */
  method Kpagemake(k: Kmem) returns (p: nat)
    requires k.Valid()
    modifies k, k.mem
    ensures k.Valid()
    ensures old(k.free) == [] ==>
      && p == 0 && k.free == [] && k.given == old(k.given)
      && k.mem[..] == Overwrite(old(k.mem[..]), 0, Same(0, PAGE_SIZE))
    ensures old(k.free) != [] ==>
      && p == old(k.free)[0] && IsPage(p) && k.free == old(k.free)[1..] && k.given == old(k.given) + {p}
      && TableIs(k.mem[..], p, NoEntries()) && Frame(k.mem[..], p) == Same(0, PAGE_SIZE)
      && OnlyIn(old(k.mem[..]), k.mem[..], {p})
  {
    hide Books, Owned, Overwrite, OnlyIn, TableIs, Frame, PageAt;
    ghost var m0, none := k.mem[..], k.free == [];
    p := k.Kalloc();
    ghost var m1: Memory := k.mem[..];
    if none {
      BooksKept(m1, k.freelist, k.free, k.given, 0, 0, Same(0, PAGE_SIZE));
    } else {
      WriteInside(m0, p, 0, Same(5, PAGE_SIZE));
      OwnerKeeps(m1, k.freelist, k.free, k.given, p, 0, Same(0, PAGE_SIZE));
      TableZeroed(m1, p);
    }
    Memset(k.mem, p, 0, PAGE_SIZE);
    if !none {
      OnlyInBoth(m0, m1, k.mem[..], {p}, {p});
      assert {p} + {p} == {p};
    }
  }

  /** table[i] = v, in a page of the caller's. */
  method PutEntry(k: Kmem, p: nat, i: nat, v: U32, ghost t: seq<U32>)
    requires k.Valid() && p in k.given && IsPage(p) && i < ENTRIES && TableIs(k.mem[..], p, t)
    modifies k.mem
    ensures k.Valid() && TableIs(k.mem[..], p, t[i := v]) && OnlyIn(old(k.mem[..]), k.mem[..], {p})
  {
    hide Books, Owned, Overwrite, OnlyIn, TableIs, Frame, PageAt;
    OwnerKeeps(k.mem[..], k.freelist, k.free, k.given, p, 4 * i, WordBytes(v));
    EntryPut(k.mem[..], p, t, i, v);
    PutWord(k.mem, p + 4 * i, v);
  }

  /** A new table with one new page in it, put into a directory. */
  method MapPage(k: Kmem, dir: nat, slot: nat, index: nat, ghost t: seq<U32>) returns (page: nat, ghost table: nat)
    requires k.Valid() && |k.free| >= 2 && dir in k.given && IsPage(dir) && slot < ENTRIES && index < ENTRIES
    requires TableIs(k.mem[..], dir, t)
    modifies k, k.mem
    ensures k.Valid() && table == old(k.free)[0] && page == old(k.free)[1] && IsPage(table) && IsPage(page)
    ensures k.free == old(k.free)[2..] && k.given == old(k.given) + {table, page}
    ensures TableIs(k.mem[..], dir, t[slot := WithFlags(table)])
      && TableIs(k.mem[..], table, NoEntries()[index := WithFlags(page)])
    ensures Frame(k.mem[..], page) == Same(0, PAGE_SIZE) && OnlyIn(old(k.mem[..]), k.mem[..], {dir, table, page})
  {
    hide Books, Owned, Overwrite, OnlyIn, TableIs, Frame, PageAt, WithFlags;
    ghost var m0 := k.mem[..];
    FreshPages(k.mem[..], k.freelist, k.free, k.given);
    var pageTable := Kpagemake(k);
    table := pageTable;
    ghost var m1 := k.mem[..];
    page := Kpagemake(k);
    ghost var m2 := k.mem[..];
    PutEntry(k, pageTable, index, WithFlags(page), NoEntries()) by { Keeps(m1, m2, {page}, pageTable, NoEntries()); }
    ghost var m3 := k.mem[..];
    PutEntry(k, dir, slot, WithFlags(pageTable), t) by {
      Keeps(m0, m1, {table}, dir, t);
      Keeps(m1, m2, {page}, dir, t);
      Keeps(m2, m3, {table}, dir, t);
    }
    ghost var m4 := k.mem[..];
    Keeps(m3, m4, {dir}, table, NoEntries()[index := WithFlags(page)]);
    FrameKept(m2, m3, {table}, page);
    FrameKept(m3, m4, {dir}, page);
    OnlyInBoth(m0, m1, m2, {table}, {page});
    OnlyInBoth(m0, m2, m3, {table} + {page}, {table});
    OnlyInBoth(m0, m3, m4, {table} + {page} + {table}, {dir});
    assert {table} + {page} + {table} + {dir} == {dir, table, page};
  }

  lemma Keeps(m: Memory, m': Memory, s: set<nat>, p: nat, t: seq<U32>)
    requires OnlyIn(m, m', s) && IsFrame(p) && p !in s && TableIs(m, p, t)
    ensures TableIs(m', p, t)
  {
    hide TableIs, Frame;
    TableKept(m, m', p, t);
  }

  lemma FrameKept(m: Memory, m': Memory, s: set<nat>, p: nat)
    requires OnlyIn(m, m', s) && IsFrame(p) && p !in s
    ensures Frame(m', p) == Frame(m, p)
  {
    hide Frame;
  }

  /** The pages about to be taken are new, and all different. */
  lemma FreshPages(m: Memory, head: nat, free: seq<nat>, given: set<nat>)
    requires Books(m, head, free, given)
    ensures forall i :: 0 <= i < |free| ==> IsPage(free[i]) && free[i] !in given
    ensures NoDup(free)
  {
    hide ListOf;
  }

  /** page_directory[i] = kernel_pagetable_directory[i]. */
  method CopyEntry(k: Kmem, kernel: nat, dir: nat, i: nat, ghost m0: Memory)
    requires k.Valid() && dir in k.given && IsPage(dir) && IsFrame(kernel) && kernel != dir && i < 5
    requires OnlyIn(m0, k.mem[..], {dir}) && TableIs(k.mem[..], dir, KernelPart(m0, kernel, i))
    modifies k.mem
    ensures k.Valid() && OnlyIn(m0, k.mem[..], {dir}) && TableIs(k.mem[..], dir, KernelPart(m0, kernel, i + 1))
  {
    hide Books, OnlyIn, TableIs, Frame, Word, Overwrite;
    ghost var m1 := k.mem[..];
    FrameKept(m0, m1, {dir}, kernel);
    EntryKept(m0, m1, kernel, i);
    var e := GetWord(k.mem, kernel + 4 * i);
    PutEntry(k, dir, i, e, KernelPart(m0, kernel, i));
    OnlyInBoth(m0, m1, k.mem[..], {dir}, {dir});
    assert {dir} + {dir} == {dir};
  }

  /** The new directory with the kernel's first five entries. */
  method MakeDirectory(k: Kmem, kernel: nat) returns (dir: nat)
    requires k.Valid() && k.free != [] && IsFrame(kernel) && kernel !in k.free
    modifies k, k.mem
    ensures k.Valid() && dir == old(k.free)[0] && IsPage(dir) && k.free == old(k.free)[1..]
      && k.given == old(k.given) + {dir}
    ensures OnlyIn(old(k.mem[..]), k.mem[..], {dir}) && TableIs(k.mem[..], dir, KernelPart(old(k.mem[..]), kernel, 5))
  {
    hide Books, OnlyIn, TableIs, Frame, Word;
    ghost var m0 := k.mem[..];
    dir := Kpagemake(k);
    assert KernelPart(m0, kernel, 0) == NoEntries();
    CopyEntry(k, kernel, dir, 0, m0);
    CopyEntry(k, kernel, dir, 1, m0);
    CopyEntry(k, kernel, dir, 2, m0);
    CopyEntry(k, kernel, dir, 3, m0);
    CopyEntry(k, kernel, dir, 4, m0);
  }

  lemma ByteOfFrame(m: Memory, p: nat, k: nat)
    requires IsFrame(p) && p <= k < p + PAGE_SIZE
    ensures k < TWO32 && Frame(m, p)[k - p] == m[k]
  {
  }

  /** Bytes that meet none of the changed frames. */
  lemma RegionKept(m: Memory, m': Memory, s: set<nat>, a: nat, n: nat)
    requires OnlyIn(m, m', s) && a + n <= TWO32 && forall p :: p in s ==> p + PAGE_SIZE <= a || a + n <= p
    ensures m'[a..a + n] == m[a..a + n]
  {
    forall k | a <= k < a + n ensures m'[k] == m[k] {
      var p := k / PAGE_SIZE * PAGE_SIZE;
      FrameHolds(k);
      ByteOfFrame(m, p, k);
      ByteOfFrame(m', p, k);
    }
  }

  lemma FrameHolds(k: nat)
    requires k < TWO32
    ensures var p := k / PAGE_SIZE * PAGE_SIZE; IsFrame(p) && p <= k < p + PAGE_SIZE
  {
  }

  /** Copies the program into its page. */
  method CopyCode(k: Kmem, page: nat, func: nat, size: nat)
    requires k.Valid() && page in k.given && IsPage(page) && Frame(k.mem[..], page) == Same(0, PAGE_SIZE)
    requires size <= PAGE_SIZE && func + size <= TWO32 && (page + PAGE_SIZE <= func || func + size <= page)
    modifies k.mem
    ensures k.Valid() && OnlyIn(old(k.mem[..]), k.mem[..], {page})
    ensures Frame(k.mem[..], page) == old(k.mem[func..func + size]) + Same(0, PAGE_SIZE - size)
  {
    hide Books, OnlyIn;
    ghost var m, bytes := k.mem[..], k.mem[func..func + size];
    OwnerKeeps(m, k.freelist, k.free, k.given, page, 0, bytes);
    WriteInside(m, page, 0, bytes);
    Memcpy(k.mem, page, func, size);
    assert Frame(k.mem[..], page) == Overwrite(Frame(m, page), 0, bytes);
  }

  /** Builds the address space of a user process from five pages: a directory, a table and a page for
      its stack, a table and a page for its code. */
  method SetupPagetable(k: Kmem, kernel: nat, func: nat, size: nat) returns (dir: nat)
    requires k.Valid() && |k.free| >= 5 && IsFrame(kernel) && size <= PAGE_SIZE && func + size <= TWO32
    requires KernelApart(k.mem[..], kernel, set p | p in k.free)
    requires forall p :: p in k.free ==> p + PAGE_SIZE <= func || func + size <= p
    modifies k, k.mem
    ensures k.Valid() && dir == old(k.free)[0] && k.free == old(k.free)[5..]
      && k.given == old(k.given) + FirstFive(old(k.free))
    ensures var f := old(k.free); IsPage(f[0]) && IsPage(f[1]) && IsPage(f[2]) && IsPage(f[3]) && IsPage(f[4])
    ensures var f := old(k.free); SetUp(old(k.mem[..]), k.mem[..], kernel, dir, f[1], f[2], f[3], f[4])
    ensures forall va :: 0 <= va < TWO32 ==>
              Walk(k.mem[..], dir, va) == UserSpace(old(k.mem[..]), kernel, old(k.free)[2], old(k.free)[4], va)
    ensures Frame(k.mem[..], old(k.free)[2]) == Same(0, PAGE_SIZE)
    ensures Frame(k.mem[..], old(k.free)[4]) == old(k.mem[func..func + size]) + Same(0, PAGE_SIZE - size)
  {
    hide Books, OnlyIn, TableIs, Frame, Word, Walk, UserSpace, KernelPart, WithFlags, KernelApart, Overwrite;
    ghost var m0, f := k.mem[..], k.free;
    FreshPages(m0, k.freelist, f, k.given);
    KernelNotFree(m0, kernel, f);
    dir := MakeDirectory(k, kernel);
    ghost var m1 := k.mem[..];
    ghost var d1 := KernelPart(m0, kernel, 5);
    var stack, tStack := MapPage(k, dir, 511, 1023, d1);
    ghost var m2 := k.mem[..];
    ghost var d2 := d1[511 := WithFlags(tStack)];
    var code, tCode := MapPage(k, dir, 512, 0, d2);
    ghost var m3 := k.mem[..];
    Keeps(m2, m3, {dir, tCode, code}, tStack, NoEntries()[1023 := WithFlags(stack)]);
    FrameKept(m2, m3, {dir, tCode, code}, stack);
    OnlyInBoth(m0, m1, m2, {dir}, {dir, tStack, stack});
    OnlyInBoth(m0, m2, m3, {dir} + {dir, tStack, stack}, {dir, tCode, code});
    assert {dir} + {dir, tStack, stack} + {dir, tCode, code} == FirstFive(f);
    FiveApart(f, func, size);
    RegionKept(m0, m3, FirstFive(f), func, size);
    CopyCode(k, code, func, size);
    Copied(m0, m3, k.mem[..], kernel, dir, tStack, stack, tCode, code);
    forall va | 0 <= va < TWO32 ensures Walk(k.mem[..], dir, va) == UserSpace(m0, kernel, stack, code, va) {
      WalkIs(m0, k.mem[..], kernel, dir, tStack, stack, tCode, code, va);
    }
  }

  function FirstFive(f: seq<nat>): set<nat>
    requires |f| >= 5
  {
    {f[0], f[1], f[2], f[3], f[4]}
  }

  lemma KernelNotFree(m: Memory, kernel: nat, f: seq<nat>)
    requires IsFrame(kernel) && |f| >= 5 && KernelApart(m, kernel, set p | p in f)
    ensures kernel !in f && KernelApart(m, kernel, FirstFive(f))
  {
    hide Entry, FrameOf, Present;
  }

  /** The copy of the program disturbs no table. */
  lemma Copied(m0: Memory, m: Memory, m': Memory, kernel: nat, dir: nat, tStack: nat, stack: nat, tCode: nat, code: nat)
    requires SetUp(m0, m, kernel, dir, tStack, stack, tCode, code) && OnlyIn(m, m', {code})
    requires code != dir && code != tStack && code != stack && code != tCode
    ensures SetUp(m0, m', kernel, dir, tStack, stack, tCode, code) && Frame(m', stack) == Frame(m, stack)
  {
    hide OnlyIn, TableIs, Frame, DirTable;
    Keeps(m, m', {code}, dir, DirTable(m0, kernel, tStack, tCode));
    Keeps(m, m', {code}, tStack, NoEntries()[1023 := WithFlags(stack)]);
    Keeps(m, m', {code}, tCode, NoEntries()[0 := WithFlags(code)]);
    FrameKept(m, m', {code}, stack);
    OnlyInBoth(m0, m, m', {dir, tStack, stack, tCode, code}, {code});
    assert {dir, tStack, stack, tCode, code} + {code} == {dir, tStack, stack, tCode, code};
  }

  lemma FiveApart(f: seq<nat>, func: nat, size: nat)
    requires |f| >= 5 && forall p :: p in f ==> p + PAGE_SIZE <= func || func + size <= p
    ensures forall p :: p in FirstFive(f) ==> p + PAGE_SIZE <= func || func + size <= p
  {
    assert f[0] in f && f[1] in f && f[2] in f && f[3] in f && f[4] in f;
  }

  // ---- two processes -------------------------------------------------------------------------------

  /** Changes to pages that are not part of an address space leave it as it is. */
  lemma SpaceSurvives(m0: Memory, m: Memory, m': Memory, kernel: nat,
                      dir: nat, tStack: nat, stack: nat, tCode: nat, code: nat,
                      s: set<nat>, va: nat)
    requires SetUp(m0, m, kernel, dir, tStack, stack, tCode, code) && va < TWO32 && OnlyIn(m, m', s)
    requires KernelApart(m0, kernel, {dir, tStack, stack, tCode, code}) && KernelApart(m0, kernel, s)
    requires dir !in s && tStack !in s && tCode !in s
    ensures Walk(m', dir, va) == Walk(m, dir, va)
  {
    hide Entry, Frame, FrameOf, Present, WithFlags, DirTable, OnlyIn, KernelApart, Walk;
    Slots(va);
    var slot := va / 0x40_0000;
    DirEntry(m0, kernel, tStack, tCode, slot);
    FrameKept(m, m', s, dir);
    var pde := Entry(m, dir, slot);
    assert pde == DirTable(m0, kernel, tStack, tCode)[slot];
    FlagsAre(tStack);
    FlagsAre(tCode);
    NotPresent();
    if slot < 5 { TableApart(m0, kernel, s, slot); }
    if Present(pde) { FrameKept(m, m', s, FrameOf(pde)); }
    WalkKept(m, m', dir, va);
  }

  lemma TableApart(m: Memory, kernel: nat, s: set<nat>, i: nat)
    requires IsFrame(kernel) && KernelApart(m, kernel, s) && i < 5
    ensures Present(Entry(m, kernel, i)) ==> FrameOf(Entry(m, kernel, i)) !in s
  {
    hide Entry, FrameOf, Present;
  }

  /** The kernel's own walk, below its five entries, is the same before and after. */
  lemma KernelSurvives(m: Memory, m': Memory, kernel: nat, s: set<nat>, va: nat)
    requires IsFrame(kernel) && OnlyIn(m, m', s) && KernelApart(m, kernel, s) && va < 5 * 0x40_0000
    ensures Walk(m', kernel, va) == Walk(m, kernel, va)
  {
    hide Entry, Frame, FrameOf, Present, Walk;
    var pde := Entry(m, kernel, va / 0x40_0000);
    if Present(pde) { FrameKept(m, m', s, FrameOf(pde)); }
    WalkKept(m, m', kernel, va);
  }

  lemma ApartKept(m: Memory, m': Memory, kernel: nat, s: set<nat>, t: set<nat>)
    requires IsFrame(kernel) && OnlyIn(m, m', s) && KernelApart(m, kernel, s) && KernelApart(m, kernel, t)
    ensures KernelApart(m', kernel, t)
  {
    hide Entry, Frame, FrameOf, Present;
    forall i | 0 <= i < 5 ensures Entry(m', kernel, i) == Entry(m, kernel, i) { EntryKept(m, m', kernel, i); }
  }

  lemma ApartFewer(m: Memory, kernel: nat, s: set<nat>, t: set<nat>)
    requires IsFrame(kernel) && KernelApart(m, kernel, s) && t <= s
    ensures KernelApart(m, kernel, t)
  {
    hide Entry, FrameOf, Present;
  }

  /** A program of at most a page outside the free pages. */
  predicate ProgramApart(free: seq<nat>, func: nat, size: nat) {
    size <= PAGE_SIZE && func + size <= TWO32 && forall p :: p in free ==> p + PAGE_SIZE <= func || func + size <= p
  }

  /** Two user processes: ten different pages, each process has the address space it would have alone, and its
      stack and code pages hold what they would. */
  method TwoProcesses(k: Kmem, kernel: nat, func1: nat, size1: nat, func2: nat, size2: nat)
    returns (dir1: nat, dir2: nat)
    requires k.Valid() && |k.free| >= 10 && IsFrame(kernel) && KernelApart(k.mem[..], kernel, set p | p in k.free)
    requires ProgramApart(k.free, func1, size1) && ProgramApart(k.free, func2, size2)
    modifies k, k.mem
    ensures k.Valid() && dir1 == old(k.free)[0] && dir2 == old(k.free)[5] && IsPage(dir1) && IsPage(dir2)
      && NoDup(old(k.free)) && k.free == old(k.free)[10..]
    ensures forall va :: 0 <= va < TWO32 ==>
              && Walk(k.mem[..], dir1, va) == UserSpace(old(k.mem[..]), kernel, old(k.free)[2], old(k.free)[4], va)
              && Walk(k.mem[..], dir2, va) == UserSpace(old(k.mem[..]), kernel, old(k.free)[7], old(k.free)[9], va)
    ensures var f := old(k.free);
            && IsPage(f[2]) && IsPage(f[4]) && IsPage(f[7]) && IsPage(f[9])
            && Frame(k.mem[..], f[2]) == Same(0, PAGE_SIZE) && Frame(k.mem[..], f[7]) == Same(0, PAGE_SIZE)
            && Frame(k.mem[..], f[4]) == old(k.mem[func1..func1 + size1]) + Same(0, PAGE_SIZE - size1)
            && Frame(k.mem[..], f[9]) == old(k.mem[func2..func2 + size2]) + Same(0, PAGE_SIZE - size2)
  {
    hide Books, OnlyIn, TableIs, Frame, Word, Walk, DirTable, WithFlags, KernelApart, SetUp;
    ghost var m0, f := k.mem[..], k.free;
    FreshPages(m0, k.freelist, f, k.given);
    TenPages(m0, kernel, f);
    dir1 := SetupPagetable(k, kernel, func1, size1);
    ghost var m1 := k.mem[..];
    SetUpOnly(m0, m1, kernel, f[0], f[1], f[2], f[3], f[4]);
    ApartKept(m0, m1, kernel, FirstFive(f), set p | p in f[5..]);
    FiveApart(f, func2, size2);
    RegionKept(m0, m1, FirstFive(f), func2, size2);
    dir2 := SetupPagetable(k, kernel, func2, size2);
    ghost var m2 := k.mem[..];
    SetUpOnly(m1, m2, kernel, f[5], f[6], f[7], f[8], f[9]);
    FrameKept(m1, m2, FirstFive(f[5..]), f[2]);
    FrameKept(m1, m2, FirstFive(f[5..]), f[4]);
    forall va | 0 <= va < TWO32
      ensures Walk(m2, dir1, va) == UserSpace(m0, kernel, f[2], f[4], va)
        && Walk(m2, dir2, va) == UserSpace(m0, kernel, f[7], f[9], va)
    {
      SpaceSurvives(m0, m1, m2, kernel, f[0], f[1], f[2], f[3], f[4], FirstFive(f[5..]), va);
      if va < 5 * 0x40_0000 { KernelSurvives(m0, m1, kernel, FirstFive(f), va); }
    }
  }

  lemma SetUpOnly(m0: Memory, m: Memory, kernel: nat, dir: nat, tStack: nat, stack: nat, tCode: nat, code: nat)
    requires SetUp(m0, m, kernel, dir, tStack, stack, tCode, code)
    ensures OnlyIn(m0, m, {dir, tStack, stack, tCode, code})
  {
  }

  lemma TenPages(m: Memory, kernel: nat, f: seq<nat>)
    requires |f| >= 10 && NoDup(f) && IsFrame(kernel) && KernelApart(m, kernel, set p | p in f)
    ensures KernelApart(m, kernel, FirstFive(f)) && KernelApart(m, kernel, FirstFive(f[5..]))
      && KernelApart(m, kernel, set p | p in f[5..])
    ensures forall p :: p in f[5..] ==> p in f
    ensures forall x :: x in FirstFive(f) ==> x !in FirstFive(f[5..])
  {
    hide KernelApart;
    var all := set p | p in f;
    assert f == f[..5] + f[5..];
    ApartFewer(m, kernel, all, FirstFive(f));
    ApartFewer(m, kernel, all, FirstFive(f[5..]));
    ApartFewer(m, kernel, all, set p | p in f[5..]);
  }
}
