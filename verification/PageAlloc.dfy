/** The page allocator 8.UserProcess/src/kalloc.c: the list of free pages is threaded through the first
    word of each of them. */
module PageAlloc {
  import opened FsFormat
  import opened PhysMem

  /** PAGE_STOP of kalloc.h: pages from there on are refused. */
  const END: nat := 0x0080_0000

  /** An address the allocator can hand out; 0 is its null pointer. */
  predicate IsPage(p: nat) { 0 < p < END && p % PAGE_SIZE == 0 }

  /** Following the first words from head visits exactly s and ends. */
  predicate ListOf(m: Memory, head: nat, s: seq<nat>)
    decreases |s|
  {
    if s == [] then head == 0
    else head == s[0] && IsPage(head) && ListOf(m, Word(m, head), s[1..])
  }

  predicate NoDup(s: seq<nat>) { forall i, j :: 0 <= i < j < |s| ==> s[i] != s[j] }

  /** Every free page holds 1s after its first word. */
  ghost predicate Filled(m: Memory, free: seq<nat>) {
    forall p :: p in free && IsPage(p) ==> PageAt(m, p)[4..] == Same(1, PAGE_SIZE - 4)
  }

  /** The allocator's books: free pages in list order, filled with 1s, pages given out, no page twice. */
  ghost predicate Books(m: Memory, head: nat, free: seq<nat>, given: set<nat>) {
    && ListOf(m, head, free) && NoDup(free) && Filled(m, free)
    && (forall p :: p in free ==> IsPage(p))
    && (forall p :: p in given ==> IsPage(p) && p !in free)
  }

  function PageAt(m: Memory, p: nat): (s: seq<Byte>)
    requires IsPage(p)
    ensures |s| == PAGE_SIZE
  {
    m[p..p + PAGE_SIZE]
  }

  /** What the owners of the given pages see: each page's bytes, and nothing of the list. */
  ghost function Owned(m: Memory, given: set<nat>): map<nat, seq<Byte>> {
    map p | p in given && IsPage(p) :: PageAt(m, p)
  }

  /** A write to memory that meets no free page but perhaps the first one leaves the rest of the list. */
  lemma {:induction false} ListFrame(m: Memory, m': Memory, head: nat, s: seq<nat>)
    requires ListOf(m, head, s) && forall i :: 0 <= i < |s| ==> IsPage(s[i]) && Word(m', s[i]) == Word(m, s[i])
    ensures ListOf(m', head, s)
    decreases |s|
  {
    hide Word;
    if s != [] {
      ListFrame(m, m', Word(m, head), s[1..]);
    }
  }

  /** Different pages do not meet. */
  lemma PagesApart(p: nat, q: nat)
    requires p % PAGE_SIZE == 0 && q % PAGE_SIZE == 0 && p != q
    ensures p + PAGE_SIZE <= q || q + PAGE_SIZE <= p
  {
  }

  /** A write inside page p is seen in that page only. */
  lemma PageWritten(m: Memory, p: nat, off: nat, s: seq<Byte>, q: nat)
    requires p < END && p % PAGE_SIZE == 0 && off + |s| <= PAGE_SIZE && IsPage(q)
    ensures var m' := Overwrite(m, p + off, s);
            && |m'| == TWO32 && PageAt(m', q) == (if q == p then Overwrite(PageAt(m, q), off, s) else PageAt(m, q))
            && (q != p ==> Word(m', q) == Word(m, q))
  {
    if q != p { PagesApart(p, q); }
  }

  /** The list survives a write inside a page that is not on it. */
  lemma BooksKept(m: Memory, head: nat, free: seq<nat>, given: set<nat>, p: nat, off: nat, s: seq<Byte>)
    requires Books(m, head, free, given) && p < END && p % PAGE_SIZE == 0 && p !in free && off + |s| <= PAGE_SIZE
    ensures var m' := Overwrite(m, p + off, s);
            && |m'| == TWO32 && Books(m', head, free, given)
            && forall q :: IsPage(q) ==>
                PageAt(m', q) == if q == p then Overwrite(PageAt(m, q), off, s) else PageAt(m, q)
  {
    hide Word, Overwrite, ListOf, PageAt;
    var m' := Overwrite(m, p + off, s);
    forall q | IsPage(q) ensures PageAt(m', q) == if q == p then Overwrite(PageAt(m, q), off, s) else PageAt(m, q) {
      PageWritten(m, p, off, s, q);
    }
    forall i | 0 <= i < |free| ensures IsPage(free[i]) && Word(m', free[i]) == Word(m, free[i]) {
      PageWritten(m, p, off, s, free[i]);
    }
    ListFrame(m, m', head, free);
  }

  /** Memory after page va is filled with 1s and made to point at the list. */
  function Freed(m: Memory, va: nat, head: U32): (r: Memory)
    requires va < END && va % PAGE_SIZE == 0
  {
    Overwrite(Overwrite(m, va, Same(1, PAGE_SIZE)), va, WordBytes(head))
  }

  lemma FilledPage(s: seq<Byte>, head: U32)
    requires |s| == PAGE_SIZE
    ensures Overwrite(Overwrite(s, 0, Same(1, PAGE_SIZE)), 0, WordBytes(head))[4..] == Same(1, PAGE_SIZE - 4)
  {
  }

  /** Byte for byte: the page holds the head of the list in its first word and 1s after it, and every other byte is as
      it was. */
  lemma FreedBytes(m: Memory, va: nat, head: U32)
    requires va < END && va % PAGE_SIZE == 0
    ensures var r := Freed(m, va, head);
            && Little(r[va..va + 4]) == head
            && (forall a :: va + 4 <= a < va + PAGE_SIZE ==> r[a] == 1)
            && forall a :: 0 <= a < va || va + PAGE_SIZE <= a < TWO32 ==> r[a] == m[a]
  {
    WordStored(Overwrite(m, va, Same(1, PAGE_SIZE)), va, head, va);
    InOrder(Freed(m, va, head), va);
  }

  /** kfree puts its page first on the list. */
  lemma FreedKeeps(m: Memory, head: U32, free: seq<nat>, given: set<nat>, va: nat)
    requires Books(m, head, free, given) && IsPage(va) && va !in free
    ensures Books(Freed(m, va, head), va, [va] + free, given - {va})
    ensures Owned(Freed(m, va, head), given - {va}) == Owned(m, given) - {va}
  {
    hide Overwrite, Word, ListOf;
    var m1, m2 := Overwrite(m, va, Same(1, PAGE_SIZE)), Freed(m, va, head);
    BooksKept(m, head, free, given, va, 0, Same(1, PAGE_SIZE));
    BooksKept(m1, head, free, given, va, 0, WordBytes(head));
    WordStored(m1, va, head, va);
    ListPushed(m2, head, free, va);
    FilledPage(PageAt(m, va), head);
    hide PageAt;
    assert Owned(m2, given - {va}) == Owned(m, given) - {va};
  }

  /** Where only page va differs, the list still leads to va. */
  lemma {:induction false} LeadsTo(m: Memory, m2: Memory, head: nat, free: seq<nat>, va: nat, s: seq<nat>)
    returns (t: nat)
    requires ListOf(m, head, free) && va in free && ListOf(m2, head, s)
    requires forall p :: p in free && IsPage(p) && p != va ==> Word(m2, p) == Word(m, p)
    ensures t <= |s| && ListOf(m2, va, s[t..])
    decreases |s|
  {
    hide Word;
    if head == va {
      t := 0;
      assert s[0..] == s;
    } else {
      assert free == [head] + free[1..];
      t := LeadsTo(m, m2, Word(m, head), free[1..], va, s[1..]);
      assert s[1..][t..] == s[t + 1..];
      t := t + 1;
    }
  }

  /** A list that leads from va back to va has no end. */
  lemma {:induction false} NoEnd(m: Memory, m2: Memory, head: nat, free: seq<nat>, va: nat, s: seq<nat>)
    requires ListOf(m, head, free) && va in free && IsPage(va) && Word(m2, va) == head
    requires forall p :: p in free && IsPage(p) && p != va ==> Word(m2, p) == Word(m, p)
    ensures !ListOf(m2, va, s)
    decreases |s|
  {
    hide Word;
    if ListOf(m2, va, s) {
      var t := LeadsTo(m, m2, head, free, va, s[1..]);
      NoEnd(m, m2, head, free, va, s[1..][t..]);
    }
  }

  /** After kfree there is a list of free pages exactly when the page was not free already. */
  lemma FreedExactly(m: Memory, head: U32, free: seq<nat>, given: set<nat>, va: nat)
    requires Books(m, head, free, given) && IsPage(va)
    ensures (exists s: seq<nat> :: ListOf(Freed(m, va, head), va, s)) <==> va !in free
  {
    hide Overwrite, Word, ListOf, PageAt;
    if va !in free {
      FreedKeeps(m, head, free, given, va);
      var s: seq<nat> := [va] + free;
      assert ListOf(Freed(m, va, head), va, s);
    } else {
      var m1, m2 := Overwrite(m, va, Same(1, PAGE_SIZE)), Freed(m, va, head);
      PageWritten(m, va, 0, Same(1, PAGE_SIZE), va);
      WordStored(m1, va, head, va);
      forall p | p in free && IsPage(p) && p != va ensures Word(m2, p) == Word(m, p) {
        PageWritten(m, va, 0, Same(1, PAGE_SIZE), p);
        PageWritten(m1, va, 0, WordBytes(head), p);
      }
      forall s: seq<nat> ensures !ListOf(m2, va, s) { NoEnd(m, m2, head, free, va, s); }
    }
  }

  lemma OnlyPages(m: Memory, head: nat, free: seq<nat>, given: set<nat>)
    requires Books(m, head, free, given)
    ensures forall p :: p in free ==> IsPage(p)
  {
  }

  lemma ListPushed(m: Memory, head: nat, free: seq<nat>, va: nat)
    requires ListOf(m, head, free) && IsPage(va) && Word(m, va) == head
    ensures ListOf(m, va, [va] + free)
  {
    hide Word;
    assert ([va] + free)[1..] == free;
  }

  /** kalloc gives out the first page of the list. */
  lemma AllocKeeps(m: Memory, head: nat, free: seq<nat>, given: set<nat>)
    requires Books(m, head, free, given) && free != []
    ensures IsPage(head) && head == free[0] && head !in given && |Overwrite(m, head, Same(5, PAGE_SIZE))| == TWO32
    ensures Books(Overwrite(m, head, Same(5, PAGE_SIZE)), Word(m, head), free[1..], given + {head})
    ensures Owned(Overwrite(m, head, Same(5, PAGE_SIZE)), given + {head}) == Owned(m, given)[head := Same(5, PAGE_SIZE)]
  {
    hide Overwrite, Word, ListOf, Books;
    BooksPopped(m, head, free, given);
    BooksKept(m, Word(m, head), free[1..], given + {head}, head, 0, Same(5, PAGE_SIZE));
    WholePage(m, head, 5);
    OwnedAfter(m, Overwrite(m, head, Same(5, PAGE_SIZE)), given, head, Same(5, PAGE_SIZE));
  }

  lemma OwnedAfter(m: Memory, m': Memory, given: set<nat>, p: nat, s: seq<Byte>)
    requires IsPage(p) && forall q :: IsPage(q) ==> PageAt(m', q) == if q == p then s else PageAt(m, q)
    ensures Owned(m', given + {p}) == Owned(m, given)[p := s]
  {
    hide PageAt;
  }

  lemma WholePage(m: Memory, p: nat, v: Byte)
    requires IsPage(p)
    ensures Overwrite(PageAt(m, p), 0, Same(v, PAGE_SIZE)) == Same(v, PAGE_SIZE)
  {
  }

  lemma BooksPopped(m: Memory, head: nat, free: seq<nat>, given: set<nat>)
    requires Books(m, head, free, given) && free != []
    ensures IsPage(head) && head == free[0] && head !in given && head !in free[1..]
    ensures Books(m, Word(m, head), free[1..], given + {head})
  {
    hide Word;
    var rest := free[1..];
    assert forall i :: 0 <= i < |rest| ==> rest[i] == free[i + 1];
    forall p | p in rest ensures p in free { var i :| 0 <= i < |rest| && rest[i] == p; assert free[i + 1] == p; }
  }

  lemma OwnerKeeps(m: Memory, head: nat, free: seq<nat>, given: set<nat>, p: nat, off: nat, s: seq<Byte>)
    requires Books(m, head, free, given) && p in given && off + |s| <= PAGE_SIZE
    ensures IsPage(p) && |Overwrite(m, p + off, s)| == TWO32
    ensures Books(Overwrite(m, p + off, s), head, free, given)
    ensures Owned(Overwrite(m, p + off, s), given) == Owned(m, given)[p := Overwrite(PageAt(m, p), off, s)]
  {
    hide Overwrite, Word, ListOf, PageAt;
    BooksKept(m, head, free, given, p, off, s);
    OwnedAfter(m, Overwrite(m, p + off, s), given, p, Overwrite(PageAt(m, p), off, s));
    assert given + {p} == given;
  }

  // ---- the heap its owners see ----------------------------------------------------------------

  /** Free pages in list order, and each given page with its content. */
  datatype Heap = Heap(free: seq<nat>, pages: map<nat, seq<Byte>>)

  datatype Op = Alloc | Free(va: nat) | Put(p: nat, off: nat, s: seq<Byte>)

  /** A use by an owner: only given pages are freed or written, inside their bounds. */
  predicate Allowed(h: Heap, op: Op) {
    match op
    case Alloc => true
    case Free(va) => va in h.pages
    case Put(p, off, s) => p in h.pages && |h.pages[p]| == PAGE_SIZE && off + |s| <= PAGE_SIZE
  }

  function Step(h: Heap, op: Op): Heap
    requires Allowed(h, op)
  {
    match op
    case Alloc => if h.free == [] then h else Heap(h.free[1..], h.pages[h.free[0] := Same(5, PAGE_SIZE)])
    case Free(va) => Heap([va] + h.free, h.pages - {va})
    case Put(p, off, s) => h.(pages := h.pages[p := Overwrite(h.pages[p], off, s)])
  }

  /** Every use of the run is allowed where it comes. */
  predicate AllAllowed(h: Heap, ops: seq<Op>)
    decreases |ops|
  {
    ops == [] || (Allowed(h, ops[0]) && AllAllowed(Step(h, ops[0]), ops[1..]))
  }

  function RunHeap(h: Heap, ops: seq<Op>): Heap
    requires AllAllowed(h, ops)
    decreases |ops|
  {
    if ops == [] then h else RunHeap(Step(h, ops[0]), ops[1..])
  }

  function Pool(h: Heap): set<nat> { (set p | p in h.free) + h.pages.Keys }

  /** No page is twice on the list, or both on it and given. */
  ghost predicate Tidy(h: Heap) {
    NoDup(h.free) && forall p :: p in h.pages ==> p !in h.free
  }

  lemma StepConserves(h: Heap, op: Op)
    requires Tidy(h) && Allowed(h, op)
    ensures Tidy(Step(h, op)) && Pool(Step(h, op)) == Pool(h)
  {
    match op
    case Alloc =>
      if h.free != [] {
        assert h.free == [h.free[0]] + h.free[1..];
        forall i | 0 <= i < |h.free[1..]| ensures h.free[1..][i] == h.free[i + 1] {}
      }
    case Free(va) =>
    case Put(p, off, s) =>
  }

  /** Over any run, free and given pages together are always the same pool, none of them twice. */
  lemma {:induction false} RunConserves(h: Heap, ops: seq<Op>)
    requires Tidy(h) && AllAllowed(h, ops)
    ensures Tidy(RunHeap(h, ops)) && Pool(RunHeap(h, ops)) == Pool(h)
    decreases |ops|
  {
    if ops != [] {
      StepConserves(h, ops[0]);
      RunConserves(Step(h, ops[0]), ops[1..]);
    }
  }

  /** A page its owner keeps holds what it held, whatever is done with other pages. */
  lemma {:induction false} RunLeavesAlone(h: Heap, ops: seq<Op>, p: nat)
    requires Tidy(h) && AllAllowed(h, ops) && p in h.pages
    requires forall i :: 0 <= i < |ops| ==>
        ops[i].Alloc? || (ops[i].Free? && ops[i].va != p) || (ops[i].Put? && ops[i].p != p)
    ensures p in RunHeap(h, ops).pages && RunHeap(h, ops).pages[p] == h.pages[p]
    decreases |ops|
  {
    if ops != [] {
      StepConserves(h, ops[0]);
      assert ops[0].Alloc? && h.free != [] ==> h.free[0] in h.free;
      RunLeavesAlone(Step(h, ops[0]), ops[1..], p);
    }
  }

  // ---- ranges -----------------------------------------------------------------------------------

  /** PAGE_ALIGN of kalloc.h, in 32 bits: up to the next page. */
  function Align(a: nat): nat {
    var x := (a + PAGE_SIZE - 1) % TWO32;
    x - x % PAGE_SIZE
  }

  /** freerange's loop goes on at p. */
  predicate GoesOn(p: nat, vend: nat) { (p + PAGE_SIZE) % TWO32 <= vend }

  /** x is a whole aligned page of [vstart, vend). */
  predicate Inside(x: nat, vstart: nat, vend: nat) { x % PAGE_SIZE == 0 && vstart <= x && x + PAGE_SIZE <= vend }

  /** Up to these bounds the addresses of freerange do not wrap around. */
  predicate NoWrap(vstart: nat, vend: nat) { vstart <= 0xFFFF_E000 && vend < 0xFFFF_F000 }

  lemma AlignIs(a: nat)
    requires a <= 0xFFFF_E000
    ensures a <= Align(a) <= 0xFFFF_E000 && Align(a) % PAGE_SIZE == 0 && Align(a) < a + PAGE_SIZE
  {
  }

  /** Past them freerange either never ends, or reaches page 0, which is in no range it was given. */
  lemma WrapsPast(vstart: nat, vend: nat)
    requires vstart <= vend < TWO32 && !NoWrap(vstart, vend)
    ensures vend >= 0xFFFF_F000 ==> forall p :: 0 <= p < TWO32 && p % PAGE_SIZE == 0 ==> GoesOn(p, vend)
    ensures vend < 0xFFFF_F000 ==>
      var p := Align(vstart);
      p == 0 || (p == 0xFFFF_F000 && GoesOn(p, vend) && (p + PAGE_SIZE) % TWO32 == 0)
  {
  }

  /** From (f0, g0) to (f, g) the pages of the range below both p and the end became free, the highest first on the
      list, and nothing else changed. */
  ghost predicate Added(f0: seq<nat>, g0: set<nat>, f: seq<nat>, g: set<nat>, vstart: nat, vend: nat, p: nat) {
    && (forall x: nat :: x in f <==> x in f0 || (x < END && Inside(x, vstart, vend) && x < p))
    && (forall x: nat :: x in g <==> x in g0 && !(Inside(x, vstart, vend) && x < p))
    && |f0| <= |f| && f[|f| - |f0|..] == f0
    && (forall i :: 0 <= i < |f| - |f0| ==> f[i] < p) && forall i, j :: 0 <= i < j < |f| - |f0| ==> f[i] > f[j]
  }

  lemma NoneAdded(f: seq<nat>, g: set<nat>, vstart: nat, vend: nat, p: nat)
    requires p == Align(vstart) && 0 < vstart && NoWrap(vstart, vend)
    ensures Added(f, g, f, g, vstart, vend, p)
  {
    AlignIs(vstart);
  }

  lemma NextAdded(f0: seq<nat>, g0: set<nat>, f: seq<nat>, g: set<nat>, vstart: nat, vend: nat, p: nat)
    requires Added(f0, g0, f, g, vstart, vend, p) && NoWrap(vstart, vend) && vstart <= p <= 0xFFFF_E000
      && p % PAGE_SIZE == 0
    requires 0 < vstart && GoesOn(p, vend) && (forall x :: x in f0 ==> !Inside(x, vstart, vend))
      && (forall x :: x in g0 ==> IsPage(x))
    ensures p !in f && p + PAGE_SIZE <= 0xFFFF_E000
    ensures if p < END then Added(f0, g0, [p] + f, g - {p}, vstart, vend, p + PAGE_SIZE) && IsPage(p)
            else Added(f0, g0, f, g, vstart, vend, p + PAGE_SIZE)
  {
    assert Inside(p, vstart, vend);
    assert forall x: nat :: Inside(x, vstart, vend) && x < p + PAGE_SIZE <==>
        x == p || (Inside(x, vstart, vend) && x < p);
  }

  lemma AllAdded(f0: seq<nat>, g0: set<nat>, f: seq<nat>, g: set<nat>, vstart: nat, vend: nat, p: nat)
    requires Added(f0, g0, f, g, vstart, vend, p) && !GoesOn(p, vend) && p <= 0xFFFF_E000 && vend < TWO32
    ensures Added(f0, g0, f, g, vstart, vend, TWO32)
    ensures forall x: nat :: x in f <==>
              x in f0 || (x < 0x80_0000 && x % 4096 == 0 && vstart <= x && x + 4096 <= vend)
  {
  }

  class Kmem {
    const mem: array<Byte>
    var freelist: U32
    ghost var free: seq<nat>
    ghost var given: set<nat>

    ghost predicate Valid()
      reads this, mem
    {
      mem.Length == TWO32 && Books(mem[..], freelist, free, given)
    }

    /** What the owners of the given pages see. */
    ghost function Seen(): map<nat, seq<Byte>>
      requires Valid()
      reads this, mem
    {
      Owned(mem[..], given)
    }

    /** No page is known at first. */
    constructor (m: array<Byte>)
      requires m.Length == TWO32
      ensures Valid() && mem == m && free == [] && given == {}
    {
      mem, freelist, free, given := m, 0, [], {};
    }

    /** Gives a page back. An address that is not aligned, or not below the end, is refused. Page 0 is
        not refused: its address is the null pointer, so freeing it loses the list. Nor is a page that is free
        already: after that the list has no end. */
    method Kfree(va: nat)
      requires Valid() && va < TWO32
      modifies this, mem
      ensures va !in old(free) ==> Valid()
      ensures va % PAGE_SIZE != 0 || va >= END ==>
        free == old(free) && given == old(given) && mem[..] == old(mem[..]) && freelist == old(freelist)
      ensures va == 0 ==> free == [] && given == old(given) && Seen() == old(Seen())
      ensures IsPage(va) && va !in old(free) ==>
        free == [va] + old(free) && given == old(given) - {va} && Seen() == old(Seen()) - {va}
      ensures va in old(free) ==> forall s: seq<nat> :: !ListOf(mem[..], freelist, s)
      ensures va % PAGE_SIZE == 0 && va < END ==>
        && freelist == va
        && Little(mem[va..va + 4]) == old(freelist)
        && (forall a :: va + 4 <= a < va + PAGE_SIZE ==> mem[a] == 1)
        && forall a :: 0 <= a < va || va + PAGE_SIZE <= a < mem.Length ==> mem[a] == old(mem[a])
    {
      hide Books, Owned, Overwrite, ListOf;
      OnlyPages(mem[..], freelist, free, given);
      if va % PAGE_SIZE != 0 || va >= END {
        return;
      }
      ghost var m := mem[..];
      Memset(mem, va, 1, PAGE_SIZE);
      PutWord(mem, va, freelist);
      assert mem[..] == Freed(m, va, freelist);
      FreedBytes(m, va, freelist);
      assert forall a :: 0 <= a < mem.Length ==> mem[a] == mem[..][a];
      assert mem[..][va..va + 4] == mem[va..va + 4];
      hide Freed;
      if va in free {
        FreedExactly(m, freelist, free, given, va);
      } else if va == 0 {
        ZeroFreed(m, freelist, free, given);
        free := [];
      } else {
        FreedKeeps(m, freelist, free, given, va);
        free, given := [va] + free, given - {va};
      }
      freelist := va;
    }

    /** Takes the first free page, filled with 5s; the null pointer if there is none. */
    method Kalloc() returns (r: nat)
      requires Valid()
      modifies this, mem
      ensures Valid()
      ensures old(free) == [] ==> r == 0 && free == [] && given == old(given) && mem[..] == old(mem[..])
      ensures old(free) != [] ==>
        && r == old(free)[0] && IsPage(r) && r !in old(given) && free == old(free)[1..] && given == old(given) + {r}
        && mem[..] == Overwrite(old(mem[..]), r, Same(5, PAGE_SIZE)) && Seen() == old(Seen())[r := Same(5, PAGE_SIZE)]
    {
      hide Books, Owned, Overwrite;
      r := freelist;
      ListEnd(mem[..], freelist, free, given);
      if r != 0 {
        AllocKeeps(mem[..], freelist, free, given);
        freelist := GetWord(mem, r);
        Memset(mem, r, 5, PAGE_SIZE);
        free := free[1..];
        given := given + {r};
      }
    }

    /** The owner of a page writes in it. */
    method OwnerWrite(p: nat, off: nat, s: seq<Byte>)
      requires Valid() && p in given && off + |s| <= PAGE_SIZE
      modifies mem
      ensures Valid() && IsPage(p) && Seen() == old(Seen())[p := Overwrite(old(PageAt(mem[..], p)), off, s)]
    {
      hide Books, Owned;
      ghost var m := mem[..];
      OwnerKeeps(m, freelist, free, given, p, off, s);
      var i := 0;
      while i < |s|
        invariant i <= |s|
        invariant forall k :: 0 <= k < mem.Length ==>
            mem[k] == if p + off <= k < p + off + i then s[k - (p + off)] else m[k]
      {
        mem[p + off + i] := s[i];
        i := i + 1;
      }
      assert mem[..] == Overwrite(m, p + off, s);
    }

    /** Adds the whole aligned pages of [vstart, vend) that lie below the end. */
    method Freerange(vstart: nat, vend: nat)
      requires Valid() && 0 < vstart && NoWrap(vstart, vend) && forall x :: x in free ==> !Inside(x, vstart, vend)
      modifies this, mem
      ensures Valid() && Added(old(free), old(given), free, given, vstart, vend, TWO32)
      ensures forall x: nat :: x in free <==>
                x in old(free) || (x < 0x80_0000 && x % 4096 == 0 && vstart <= x && x + 4096 <= vend)
      ensures Seen() == old(Seen()) - (old(given) - given)
    {
      hide Books, Owned, Overwrite, Added;
      AlignIs(vstart);
      var p := Align(vstart);
      SeenKeys();
      NoneAdded(free, given, vstart, vend, p);
      while GoesOn(p, vend)
        invariant Valid() && p % PAGE_SIZE == 0 && vstart <= p <= 0xFFFF_E000
        invariant Added(old(free), old(given), free, given, vstart, vend, p)
          && Seen() == old(Seen()) - (old(given) - given)
        decreases 0xFFFF_F000 - p
      {
        SeenKeys();
        NextAdded(old(free), old(given), free, given, vstart, vend, p);
        Kfree(p);
        p := (p + PAGE_SIZE) % TWO32;
      }
      AllAdded(old(free), old(given), free, given, vstart, vend, p);
    }

    lemma SeenKeys()
      requires Valid()
      ensures Seen().Keys == given && forall p :: p in given ==> IsPage(p)
    {
    }

    /** The allocator with what its owners see. */
    ghost function View(): Heap
      requires Valid()
      reads this, mem
    {
      Heap(free, Seen())
    }

    /** Any allowed run on memory does what it does to the heap: the list inside the pages never shows. */
    method Run(ops: seq<Op>)
      requires Valid() && AllAllowed(View(), ops)
      modifies this, mem
      ensures Valid() && View() == RunHeap(old(View()), ops)
    {
      hide Books, Owned, Overwrite, PageAt;
      var i := 0;
      assert ops[0..] == ops;
      while i < |ops|
        invariant 0 <= i <= |ops| && Valid() && AllAllowed(View(), ops[i..])
        invariant RunHeap(View(), ops[i..]) == RunHeap(old(View()), ops)
      {
        SeenKeys();
        SeenPages();
        assert ops[i..][1..] == ops[i + 1..];
        match ops[i] {
          case Alloc => var r := Kalloc();
          case Free(va) => NotFree(va); Kfree(va);
          case Put(p, off, s) => OwnerWrite(p, off, s);
        }
        i := i + 1;
      }
    }

    lemma SeenPages()
      requires Valid()
      ensures forall p :: p in given ==> IsPage(p) && Seen()[p] == PageAt(mem[..], p)
    {
    }

    lemma NotFree(va: nat)
      requires Valid() && va in given
      ensures va !in free
    {
    }
  }

  /** The head is the null pointer just when the list is empty. */
  lemma ListEnd(m: Memory, head: nat, free: seq<nat>, given: set<nat>)
    requires Books(m, head, free, given)
    ensures head == 0 <==> free == []
    ensures head + PAGE_SIZE <= TWO32
  {
  }

  lemma NoList(m: Memory)
    ensures ListOf(m, 0, [])
  {
  }

  /** Freeing page 0 leaves the given pages alone, and an empty list. */
  lemma ZeroFreed(m: Memory, head: U32, free: seq<nat>, given: set<nat>)
    requires Books(m, head, free, given) && 0 !in free
    ensures Books(Freed(m, 0, head), 0, [], given) && Owned(Freed(m, 0, head), given) == Owned(m, given)
  {
    hide Overwrite, Word, PageAt, ListOf;
    BooksKept(m, head, free, given, 0, 0, Same(1, PAGE_SIZE));
    BooksKept(Overwrite(m, 0, Same(1, PAGE_SIZE)), head, free, given, 0, 0, WordBytes(head));
    NoList(Freed(m, 0, head));
  }
}
