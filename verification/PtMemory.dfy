/** The page allocator of kernel/kalloc.c and the page-table routines of kernel/vm.c over it. */
module PtMemory {
  import opened Basics
  import opened Params
  import opened PtLayout

  // ------------------------------------------------------------- the free list

  function Head(free: seq<nat>): nat { if free == [] then 0 else free[0] }

  /** Element `i` of the free list links to the next; the link is the page's first word. */
  ghost predicate LinkAt(m: Memory, free: seq<nat>, i: nat)
    requires i < |free|
  {
    Word(m, free[i], 0) == Head(free[i + 1..])
  }

  ghost predicate FreeList(s: Frames, free: seq<nat>) {
    && Distinct(free)
    && (forall p :: p in free <==> p in s.use && s.use[p].Free?)
    && (forall i: nat :: i < |free| ==> LinkAt(s.m, free, i))
  }

  lemma PopFree(s: Frames, free: seq<nat>, page: Page)
    requires FreeList(s, free) && free != [] && s.m.Keys == s.use.Keys
    ensures free[0] in s.use && s.use[free[0]].Free? && Word(s.m, free[0], 0) == Head(free[1..])
    ensures FreeList(Frames(s.m[free[0] := page], s.use[free[0] := Held]), free[1..])
  {
    var s' := Frames(s.m[free[0] := page], s.use[free[0] := Held]);
    var rest := free[1..];
    assert free[0] in free && LinkAt(s.m, free, 0);
    forall i: nat | i < |rest|
      ensures LinkAt(s'.m, rest, i)
    {
      assert LinkAt(s.m, free, i + 1) && rest[i + 1..] == free[i + 2..];
    }
    forall p
      ensures p in rest <==> p in s'.use && s'.use[p].Free?
    {
      if p in rest { var i :| 0 <= i < |rest| && rest[i] == p; assert free[i + 1] == p; }
      if p in free && p != free[0] { var i :| 0 <= i < |free| && free[i] == p; assert rest[i - 1] == p; }
    }
  }

  lemma PushFree(s: Frames, free: seq<nat>, p: nat, page: Page)
    requires FreeList(s, free) && p in s.use && s.use[p] == Held && s.m.Keys == s.use.Keys && page[0] == Head(free)
    ensures FreeList(Frames(s.m[p := page], s.use[p := Free]), [p] + free)
  {
    var s' := Frames(s.m[p := page], s.use[p := Free]);
    var longer := [p] + free;
    assert p !in free;
    forall i: nat | i < |longer|
      ensures LinkAt(s'.m, longer, i)
    {
      if i == 0 {
        assert longer[1..] == free;
      } else {
        assert LinkAt(s.m, free, i - 1) && longer[i + 1..] == free[i..];
      }
    }
  }

  lemma Aligned(s: Frames, p: nat)
    requires Inv(s) && p in s.use
    ensures p % PGSIZE == 0
  {
    assert FrameOk(p);
  }

  ghost predicate FreedTo(s: Frames, use: map<nat, Use>, start: nat, p: nat, stop: nat) {
    use.Keys == s.use.Keys && forall q :: q in use ==> use[q] == if start <= q < p && q + PGSIZE <= stop then Free
        else s.use[q]
  }

  lemma FreedNone(s: Frames, start: nat, p: nat, stop: nat)
    requires Inv(s) && p % PGSIZE == 0 && start <= p < start + PGSIZE
    ensures FreedTo(s, s.use, start, p, stop)
  {
    hide InvBut;
    forall q | q in s.use
      ensures !(start <= q < p)
    {
      Aligned(s, q);
      if start <= q { FirstPage(start, p, q); }
    }
  }

  lemma FreedNext(s: Frames, use: map<nat, Use>, start: nat, p: nat, stop: nat)
    requires Inv(s) && FreedTo(s, use, start, p, stop) && HeldAt(s, p) && p % PGSIZE == 0 && start <= p &&
               p + PGSIZE <= stop
    ensures p in use && use[p] == Held && FreedTo(s, use[p := Free], start, p + PGSIZE, stop)
  {
    hide InvBut;
    forall q | q in use
      ensures p <= q < p + PGSIZE ==> q == p
    {
      Aligned(s, q);
      if p <= q < p + PGSIZE { SamePage(p, q); }
    }
  }

  lemma FreedAll(s: Frames, use: map<nat, Use>, start: nat, p: nat, stop: nat)
    requires FreedTo(s, use, start, p, stop) && p + PGSIZE > stop
    ensures use.Keys == s.use.Keys && forall q :: q in use ==> use[q] == if start <= q && q + PGSIZE <= stop then Free
              else s.use[q]
  {}

  lemma FirstPage(start: nat, p: nat, q: nat)
    requires p % PGSIZE == 0 && q % PGSIZE == 0 && start <= p < start + PGSIZE && start <= q
    ensures p <= q
  {}

  lemma SamePage(p: nat, q: nat)
    requires p % PGSIZE == 0 && q % PGSIZE == 0 && p <= q < p + PGSIZE
    ensures q == p
  {}

  lemma HeadFree(s: Frames, free: seq<nat>)
    requires FreeList(s, free) && 0 !in s.use
    ensures Head(free) == 0 <==> free == []
  {
    if free != [] { assert free[0] in free; }
  }

  /** Changes to pages that are not free, and between uses other than Free, leave the list alone. */
  lemma FreeKept(s: Frames, s': Frames, free: seq<nat>)
    requires FreeList(s, free) && s'.use.Keys == s.use.Keys
    requires forall p :: p in s.use ==> s'.use[p].Free? == s.use[p].Free?
    requires forall p :: p in s.use && s.use[p].Free? ==> Word(s'.m, p, 0) == Word(s.m, p, 0)
    ensures FreeList(s', free)
  {
    forall i: nat | i < |free|
      ensures LinkAt(s'.m, free, i)
    {
      assert LinkAt(s.m, free, i) && free[i] in free;
    }
  }

  // ------------------------------------------------------ relations between states

  /** The only pages whose use changed went from free to page tables under `root`, and no other page in use changed. */
  ghost predicate OnlyNewTables(s: Frames, s': Frames, root: nat) {
    && s'.use.Keys == s.use.Keys
    && forall p :: p in s.use ==> TableOrSame(s, s', root, p)
  }

  ghost predicate TableOrSame(s: Frames, s': Frames, root: nat, p: nat)
    requires p in s.use && p in s'.use
  {
    || (s'.use[p] == s.use[p] && (s.use[p].Held? || s.use[p].User? ==> p in s.m && p in s'.m && s'.m[p] == s.m[p]))
    || (s.use[p].Free? && s'.use[p].Table? && s'.use[p].root == root && !s'.use[p].pos.Top?)
  }

  lemma NewTablesTwice(s: Frames, s1: Frames, s2: Frames, root: nat)
    requires OnlyNewTables(s, s1, root) && OnlyNewTables(s1, s2, root)
    ensures OnlyNewTables(s, s2, root)
  {
    forall p | p in s.use
      ensures TableOrSame(s, s2, root, p)
    {
      assert TableOrSame(s, s1, root, p) && TableOrSame(s1, s2, root, p);
    }
  }

  lemma SelfTables(s: Frames, root: nat)
    requires s.m.Keys == s.use.Keys
    ensures OnlyNewTables(s, s, root)
  {
    forall p | p in s.use
      ensures TableOrSame(s, s, root, p)
    {}
  }

  lemma RootsKept(s: Frames, s': Frames, root: nat, r: nat)
    requires OnlyNewTables(s, s', root)
    ensures IsRoot(s, r) <==> IsRoot(s', r)
  {
    if r in s.use { assert TableOrSame(s, s', root, r); }
  }

  lemma SameMapsTwice(s: Frames, s1: Frames, s2: Frames, root: nat)
    requires SameMaps(s, s1) && SameMaps(s1, s2) && OnlyNewTables(s, s1, root) && OnlyNewTables(s1, s2, root)
    ensures SameMaps(s, s2)
  {
    hide Flat;
    forall r, v: nat | IsRoot(s, r) && IsRoot(s2, r) && v < PAGES
      ensures Flat(s2.m, r, v) == Flat(s.m, r, v)
    {
      RootsKept(s, s1, root, r);
    }
  }

  lemma SameAt(s: Frames, s': Frames, r: nat, v: nat)
    requires SameMaps(s, s') && IsRoot(s, r) && IsRoot(s', r) && v < PAGES
    ensures Flat(s'.m, r, v) == Flat(s.m, r, v)
  {
    hide Flat;
  }

  lemma HeldKept(s: Frames, s': Frames, root: nat, p: nat)
    requires OnlyNewTables(s, s', root) && HeldAt(s, p)
    ensures HeldAt(s', p)
  {
    assert TableOrSame(s, s', root, p);
  }

  /** A free page is taken and blanked, then becomes a table. */
  lemma TableTaken(s: Frames, s1: Frames, s2: Frames, root: nat, t: nat, x: nat, e: nat, q: nat, pos: Pos)
    requires s.m.Keys == s.use.Keys && q in s.use && s.use[q].Free? && s1 == Frames(s.m[q := Zeros()], s.use[q := Held])
    requires t != q && t in s.use && s.use[t].Table? && x < 512 && !pos.Top?
    requires s2 == Frames(Put(s1.m, t, x, e), s1.use[q := Table(root, pos)])
    requires SameMaps(s, s1) && SameMaps(s1, s2)
    ensures OnlyNewTables(s, s2, root) && SameMaps(s, s2)
  {
    hide Flat;
    forall p | p in s.use
      ensures TableOrSame(s, s2, root, p)
    {}
    forall r, v: nat | IsRoot(s, r) && IsRoot(s2, r) && v < PAGES
      ensures Flat(s2.m, r, v) == Flat(s.m, r, v)
    {
      assert IsRoot(s1, r);
    }
  }

  /** The entry that walk() finds decides the mapping of its page. */
  lemma LeafDecides(s: Frames, root: nat, vpn: nat, t: nat)
    requires Inv(s) && IsRoot(s, root) && Tables(s, t) && s.use[t] == Table(root, Low(Index(2, vpn), Index(1, vpn)))
    ensures Flat(s.m, root, vpn) == var e := Word(s.m, t, Index(0, vpn)); if Valid(e) then e else 0
  {
    hide Valid, Leafy, Frame, Index, PageOf, EntryOk;
    assert UseOk(s, t);
  }

  /** Where walk() stands after descending to `level`. */
  function PosAt(level: nat, vpn: nat): Pos
    requires level <= 2
  {
    if level == 2 then Top else if level == 1 then Mid(Index(2, vpn)) else Low(Index(2, vpn), Index(1, vpn))
  }

  ghost predicate TableAt(s: Frames, root: nat, t: nat, pos: Pos) { t in s.use && s.use[t] == Table(root, pos) }

  /** Following a valid entry one level down. */
  lemma Descend(s: Frames, root: nat, t: nat, level: nat, vpn: nat)
    requires Inv(s) && 0 < level <= 2 && TableAt(s, root, t, PosAt(level, vpn)) &&
               Valid(Word(s.m, t, Index(level, vpn)))
    ensures TableAt(s, root, Frame(Word(s.m, t, Index(level, vpn))), PosAt(level - 1, vpn))
  {
    hide Valid, Leafy, Frame, Index, PageOf, UseOk;
    assert Tables(s, t) && EntryOk(s, t, Index(level, vpn));
  }

  /** An entry that is not valid on the way down leaves the page unmapped. */
  lemma CutOff(s: Frames, root: nat, t: nat, level: nat, vpn: nat)
    requires Inv(s) && 0 < level <= 2 && TableAt(s, root, t, PosAt(level, vpn)) &&
               !Valid(Word(s.m, t, Index(level, vpn)))
    ensures Flat(s.m, root, vpn) == 0
  {
    hide Valid, Leafy, Frame, Index, PageOf, EntryOk;
    assert UseOk(s, t);
  }

  /** Mappings agree except that `n` pages from `v0` now map the frames from `pa` in order. */
  ghost predicate MappedRange(s: Frames, s': Frames, root: nat, v0: nat, n: nat, pa: nat, flags: nat) {
    forall r, v: nat :: IsRoot(s, r) && IsRoot(s', r) && v < PAGES ==>
      Flat(s'.m, r, v) == if r == root && v0 <= v < v0 + n then Entry(pa + (v - v0) * PGSIZE, flags)
          else Flat(s.m, r, v)
  }

  /** Held frames from `pa` became user pages; otherwise only new tables. */
  ghost predicate MapOrSame(s: Frames, s': Frames, root: nat, v0: nat, n: nat, pa: nat, p: nat)
    requires p in s.use && p in s'.use
  {
    || TableOrSame(s, s', root, p)
    || (s.use[p].Held? && s'.use[p].User? && s'.use[p].root == root && v0 <= s'.use[p].vpn < v0 + n
        && p == pa + (s'.use[p].vpn - v0) * PGSIZE && p in s.m && p in s'.m && s'.m[p] == s.m[p])
  }

  ghost predicate OnlyMapped(s: Frames, s': Frames, root: nat, v0: nat, n: nat, pa: nat) {
    && s'.use.Keys == s.use.Keys
    && forall p :: p in s.use ==> MapOrSame(s, s', root, v0, n, pa, p)
  }

  lemma MapRoots(s: Frames, s': Frames, root: nat, v0: nat, n: nat, pa: nat, r: nat)
    requires OnlyMapped(s, s', root, v0, n, pa)
    ensures IsRoot(s, r) <==> IsRoot(s', r)
  {
    if r in s.use { assert MapOrSame(s, s', root, v0, n, pa, r); }
  }

  /** One more page on top of `n`. */
  lemma MapOneMore(s: Frames, s1: Frames, s2: Frames, root: nat, v0: nat, n: nat, pa: nat, flags: nat)
    requires MappedRange(s, s1, root, v0, n, pa, flags) && OnlyMapped(s, s1, root, v0, n, pa)
    requires Remapped(s1, s2, root, v0 + n, Entry(pa + n * PGSIZE, flags)) &&
               OnlyMapped(s1, s2, root, v0 + n, 1, pa + n * PGSIZE)
    ensures MappedRange(s, s2, root, v0, n + 1, pa, flags) && OnlyMapped(s, s2, root, v0, n + 1, pa)
  {
    hide Flat, Entry;
    forall p | p in s.use
      ensures MapOrSame(s, s2, root, v0, n + 1, pa, p)
    {
      assert MapOrSame(s, s1, root, v0, n, pa, p) && MapOrSame(s1, s2, root, v0 + n, 1, pa + n * PGSIZE, p);
    }
    forall r, v: nat | IsRoot(s, r) && IsRoot(s2, r) && v < PAGES
      ensures Flat(s2.m, r, v) == if r == root && v0 <= v < v0 + n + 1 then Entry(pa + (v - v0) * PGSIZE, flags)
                else Flat(s.m, r, v)
    {
      MapRoots(s, s1, root, v0, n, pa, r);
    }
  }

  /** A failing walk after `n` pages adds tables at most. */
  lemma MapNoMore(s: Frames, s1: Frames, s2: Frames, root: nat, v0: nat, n: nat, pa: nat, flags: nat)
    requires MappedRange(s, s1, root, v0, n, pa, flags) && OnlyMapped(s, s1, root, v0, n, pa)
    requires SameMaps(s1, s2) && OnlyNewTables(s1, s2, root)
    ensures MappedRange(s, s2, root, v0, n, pa, flags) && OnlyMapped(s, s2, root, v0, n, pa)
  {
    hide Flat, Entry;
    forall p | p in s.use
      ensures MapOrSame(s, s2, root, v0, n, pa, p)
    {
      assert MapOrSame(s, s1, root, v0, n, pa, p) && TableOrSame(s1, s2, root, p);
    }
    forall r, v: nat | IsRoot(s, r) && IsRoot(s2, r) && v < PAGES
      ensures Flat(s2.m, r, v) == if r == root && v0 <= v < v0 + n then Entry(pa + (v - v0) * PGSIZE, flags)
                else Flat(s.m, r, v)
    {
      MapRoots(s, s1, root, v0, n, pa, r);
    }
  }

  lemma MapNothing(s: Frames, root: nat, v0: nat, pa: nat, flags: nat)
    requires s.m.Keys == s.use.Keys
    ensures MappedRange(s, s, root, v0, 0, pa, flags) && OnlyMapped(s, s, root, v0, 0, pa)
  {
    hide Flat, Entry;
    forall p | p in s.use
      ensures MapOrSame(s, s, root, v0, 0, pa, p)
    {}
  }

  ghost predicate HeldAt(s: Frames, p: nat) { p in s.use && s.use[p] == Held }

  /** The entry walk() returns for an unmapped page is not valid. */
  lemma EmptyLeaf(s: Frames, root: nat, vpn: nat, t: nat)
    requires Inv(s) && IsRoot(s, root) && TableAt(s, root, t, PosAt(0, vpn)) && Flat(s.m, root, vpn) == 0
    ensures !Valid(Word(s.m, t, Index(0, vpn)))
  {
    hide Leafy, Frame, Index, PageOf, EntryOk, Flat, UseOk;
    LeafDecides(s, root, vpn, t);
  }

  /** After `n` pages the next page is still unmapped and its frame still held. */
  lemma ReadyToMap(s: Frames, s1: Frames, root: nat, v0: nat, n: nat, pa: nat, perm: nat, count: nat)
    requires MappedRange(s, s1, root, v0, n, pa, WithV(perm)) && OnlyMapped(s, s1, root, v0, n, pa) && IsRoot(s, root)
    requires n < count && v0 + count <= PAGES && pa % PGSIZE == 0 && perm < 1024 && Leafy(perm)
    requires forall v: nat :: v0 <= v < v0 + count ==> Flat(s.m, root, v) == 0
    requires forall k: nat :: k < count && v0 + k < USERTOP ==> HeldAt(s, pa + k * PGSIZE)
    ensures IsRoot(s1, root) && Flat(s1.m, root, v0 + n) == 0
    ensures LeafFor(Entry(pa + n * PGSIZE, WithV(perm)), pa + n * PGSIZE)
    ensures v0 + n < USERTOP ==> HeldAt(s1, pa + n * PGSIZE)
  {
    hide Flat, Frame, Leafy, Entry, Valid, WithV, InvBut;
    MapRoots(s, s1, root, v0, n, pa, root);
    var p := pa + n * PGSIZE;
    NextPage(pa, n);
    WithVLeaf(perm);
    EntryRoundTrip(p, WithV(perm));
    if v0 + n < USERTOP {
      assert HeldAt(s, pa + n * PGSIZE);
      assert MapOrSame(s, s1, root, v0, n, pa, p);
    }
  }

  lemma PagesOn(va: nat, n: nat)
    requires va % PGSIZE == 0
    ensures (va + n * PGSIZE) / PGSIZE == va / PGSIZE + n
  {}

  /** The n-th page is the last one exactly if the range has n pages. */
  lemma LastPage(va: nat, size: nat, n: nat)
    requires va % PGSIZE == 0 && size % PGSIZE == 0 && 0 < n <= size / PGSIZE
    ensures va + (n - 1) * PGSIZE == va + size - PGSIZE <==> n == size / PGSIZE
  {}

  lemma NextPage(pa: nat, n: nat)
    requires pa % PGSIZE == 0
    ensures (pa + n * PGSIZE) % PGSIZE == 0
  {}

  lemma WithVLeaf(perm: nat)
    requires perm < 1024
    ensures WithV(perm) < 1024 && Valid(WithV(perm)) && Leafy(WithV(perm)) == Leafy(perm)
  {}

  /** From the tables walk() added to the page then mapped. */
  lemma MapFirst(s: Frames, s1: Frames, s2: Frames, root: nat, vpn: nat, t: nat, x: nat, e: nat, pa: nat)
    requires SameMaps(s, s1) && OnlyNewTables(s, s1, root) && Remapped(s1, s2, root, vpn, e)
    requires t in s1.m && x < 512 && Tables(s1, t) && s1.m.Keys == s1.use.Keys
    requires vpn < USERTOP ==> pa in s1.use && s1.use[pa] == Held
    requires s2 == Frames(Put(s1.m, t, x, e), if vpn < USERTOP then s1.use[pa := User(root, vpn)] else s1.use)
    ensures Remapped(s, s2, root, vpn, e) && OnlyMapped(s, s2, root, vpn, 1, pa)
  {
    hide Flat;
    forall p | p in s.use
      ensures MapOrSame(s, s2, root, vpn, 1, pa, p)
    {
      assert TableOrSame(s, s1, root, p);
    }
    forall r, v: nat | IsRoot(s, r) && IsRoot(s2, r) && v < PAGES
      ensures Flat(s2.m, r, v) == if r == root && v == vpn then e else Flat(s.m, r, v)
    {
      RootsKept(s, s1, root, r);
    }
  }

  /** User pages of `root` among the `n` pages from `v0` became free; nothing else changed its use. */
  ghost predicate FreedOrSame(s: Frames, s': Frames, root: nat, v0: nat, n: nat, p: nat)
    requires p in s.use && p in s'.use
  {
    || (s'.use[p] == s.use[p] && (s.use[p].Held? || s.use[p].User? ==> p in s.m && p in s'.m && s'.m[p] == s.m[p]))
    || (s.use[p].User? && s.use[p].root == root && v0 <= s.use[p].vpn < v0 + n && s'.use[p].Free?)
  }

  ghost predicate OnlyFreed(s: Frames, s': Frames, root: nat, v0: nat, n: nat) {
    && s'.use.Keys == s.use.Keys
    && forall p :: p in s.use ==> FreedOrSame(s, s', root, v0, n, p)
  }

  /** Mappings agree except that the `n` pages from `v0` are unmapped. */
  ghost predicate UnmappedRange(s: Frames, s': Frames, root: nat, v0: nat, n: nat) {
    forall r, v: nat :: IsRoot(s, r) && IsRoot(s', r) && v < PAGES ==>
      Flat(s'.m, r, v) == if r == root && v0 <= v < v0 + n then 0 else Flat(s.m, r, v)
  }

  lemma FreedRoots(s: Frames, s': Frames, root: nat, v0: nat, n: nat, r: nat)
    requires OnlyFreed(s, s', root, v0, n)
    ensures IsRoot(s, r) <==> IsRoot(s', r)
  {
    if r in s.use { assert FreedOrSame(s, s', root, v0, n, r); }
  }

  lemma UnmapNothing(s: Frames, root: nat, v0: nat)
    requires s.m.Keys == s.use.Keys
    ensures UnmappedRange(s, s, root, v0, 0) && OnlyFreed(s, s, root, v0, 0)
  {
    hide Flat;
    forall p | p in s.use
      ensures FreedOrSame(s, s, root, v0, 0, p)
    {}
  }

  lemma UnmapOneMore(s: Frames, s1: Frames, s2: Frames, root: nat, v0: nat, n: nat)
    requires UnmappedRange(s, s1, root, v0, n) && OnlyFreed(s, s1, root, v0, n)
    requires Remapped(s1, s2, root, v0 + n, 0) && OnlyFreed(s1, s2, root, v0 + n, 1)
    ensures UnmappedRange(s, s2, root, v0, n + 1) && OnlyFreed(s, s2, root, v0, n + 1)
  {
    hide Flat;
    forall p | p in s.use
      ensures FreedOrSame(s, s2, root, v0, n + 1, p)
    {
      assert FreedOrSame(s, s1, root, v0, n, p) && FreedOrSame(s1, s2, root, v0 + n, 1, p);
    }
    forall r, v: nat | IsRoot(s, r) && IsRoot(s2, r) && v < PAGES
      ensures Flat(s2.m, r, v) == if r == root && v0 <= v < v0 + n + 1 then 0 else Flat(s.m, r, v)
    {
      FreedRoots(s, s1, root, v0, n, r);
    }
  }

  /** A page that is unmapped already stays as it is. */
  lemma UnmapUnmapped(s: Frames, root: nat, vpn: nat)
    requires s.m.Keys == s.use.Keys && Flat(s.m, root, vpn) == 0
    ensures Remapped(s, s, root, vpn, 0) && OnlyFreed(s, s, root, vpn, 1)
  {
    hide Flat;
    forall p | p in s.use
      ensures FreedOrSame(s, s, root, vpn, 1, p)
    {}
  }

  /** Clearing the leaf once the page behind it is gone unmaps that page and no other. */
  lemma UnmapMaps(s: Frames, s1: Frames, s2: Frames, root: nat, vpn: nat, t: nat, x: nat)
    requires vpn < PAGES && x == Index(0, vpn) && TableAt(s, root, t, PosAt(0, vpn)) &&
               TableAt(s1, root, t, PosAt(0, vpn)) && Inv(s)
    requires forall r :: IsRoot(s, r) <==> IsRoot(s1, r)
    requires forall r, v: nat ::
               IsRoot(s, r) && v < PAGES && !ThroughHole(s1, t, x, r, v) ==> Flat(s1.m, r, v) == Flat(s.m, r, v)
    requires InvBut(s1, t, x) && HoleOk(s1, t, x) && t in s1.m && s2 == Frames(Put(s1.m, t, x, 0), s1.use)
    ensures Inv(s2) && Remapped(s, s2, root, vpn, 0)
  {
    hide Flat, InvBut, Index, PageOf, Valid, Frame;
    IndexRoundTrip(vpn);
    if t == 0 { NoFrameZero(s, t); }
    ClearEntry(s1, t, x);
    forall r, v: nat | IsRoot(s, r) && IsRoot(s2, r) && v < PAGES
      ensures Flat(s2.m, r, v) == if r == root && v == vpn then 0 else Flat(s.m, r, v)
    {
      PassesLow(r, v, root, PosAt(0, vpn), x);
      if r == root && v == vpn {
        ClearedLeaf(s2, root, vpn, t);
      }
    }
  }

  lemma RootsAfter(s: Frames, s': Frames, q: nat)
    requires q in s.use && !s.use[q].Table? && s'.use == s.use[q := Free]
    ensures forall r :: IsRoot(s, r) <==> IsRoot(s', r)
  {}

  lemma UnmapUses(s: Frames, s1: Frames, root: nat, vpn: nat, t: nat, x: nat, q: nat)
    requires s.m.Keys == s.use.Keys && Tables(s, t) && Tables(s1, t) && x < 512 && t in s1.m && s1.m.Keys == s1.use.Keys
    requires if vpn < USERTOP then q in s.use && s.use[q] == User(root, vpn) && s1.use == s.use[q := Free] &&
               q in s1.m && s1.m == s.m[q := s1.m[q]] else s1 == s
    ensures OnlyFreed(s, Frames(Put(s1.m, t, x, 0), s1.use), root, vpn, 1)
  {
    var s2 := Frames(Put(s1.m, t, x, 0), s1.use);
    forall p | p in s.use
      ensures FreedOrSame(s, s2, root, vpn, 1, p)
    {}
  }

  lemma NoFrameZero(s: Frames, t: nat)
    requires Inv(s) && t in s.use
    ensures t != 0
  {}

  lemma ClearedLeaf(s: Frames, root: nat, vpn: nat, t: nat)
    requires Inv(s) && IsRoot(s, root) && TableAt(s, root, t, PosAt(0, vpn)) && Word(s.m, t, Index(0, vpn)) == 0
    ensures Flat(s.m, root, vpn) == 0
  {
    LeafDecides(s, root, vpn, t);
  }

  function Zeros(): (p: Page)
    ensures Blank(p)
  {
    seq(512, _ => 0)
  }

  /** How many tables walk() still has to allocate from table `t` of a level on. */
  function MissingFrom(m: Memory, t: nat, level: nat, vpn: nat): nat
    requires level <= 2
    decreases level
  {
    if level == 0 then 0 else
      var e := Word(m, t, Index(level, vpn));
      if Valid(e) then MissingFrom(m, Frame(e), level - 1, vpn) else level
  }

  /** The number of tables that a mapping of the page would need. */
  function Missing(m: Memory, root: nat, vpn: nat): nat { MissingFrom(m, root, 2, vpn) }

  lemma {:induction false} AtMostMissing(m: Memory, t: nat, level: nat, vpn: nat)
    requires level <= 2
    ensures MissingFrom(m, t, level, vpn) <= level
    decreases level
  {
    var e := Word(m, t, Index(level, vpn));
    if level > 0 && Valid(e) { AtMostMissing(m, Frame(e), level - 1, vpn); }
  }

  lemma AtMostTwo(m: Memory, root: nat, vpn: nat)
    ensures Missing(m, root, vpn) <= 2
  {
    AtMostMissing(m, root, 2, vpn);
  }

  lemma BlankMissing(m: Memory, t: nat, level: nat, vpn: nat)
    requires level <= 2 && t in m && Blank(m[t])
    ensures MissingFrom(m, t, level, vpn) == level
  {
    hide Index;
  }

  lemma BlankRoot(m: Memory, root: nat, vpn: nat)
    requires root in m && Blank(m[root])
    ensures Missing(m, root, vpn) == 2
  {
    BlankMissing(m, root, 2, vpn);
  }

  lemma MissingNext(m: Memory, t: nat, level: nat, vpn: nat)
    requires 0 < level <= 2
    ensures var e := Word(m, t, Index(level, vpn));
            MissingFrom(m, t, level, vpn) == if Valid(e) then MissingFrom(m, Frame(e), level - 1, vpn) else level
  {}

  /** Nothing is missing where a page is mapped, nor for its neighbours in the same table. */
  lemma NoneMissing(m: Memory, root: nat, vpn: nat, w: nat)
    requires Flat(m, root, vpn) != 0 && Index(2, w) == Index(2, vpn) && Index(1, w) == Index(1, vpn)
    ensures Missing(m, root, w) == 0
  {
    hide Index, Valid, Frame;
    var e2 := Word(m, root, Index(2, vpn));
    assert Valid(e2) && Valid(Word(m, Frame(e2), Index(1, vpn)));
    MissingNext(m, root, 2, w);
    MissingNext(m, Frame(e2), 1, w);
  }

  /** A write to a page that is not a table leaves that as it is. */
  lemma MissingKept(s: Frames, q: nat, page: Page, root: nat, vpn: nat)
    requires Inv(s) && IsRoot(s, root) && !Tables(s, q)
    ensures Missing(s.m[q := page], root, vpn) == Missing(s.m, root, vpn)
  {
    hide Index, Valid, Frame, InvBut;
    var m' := s.m[q := page];
    var e2 := Word(s.m, root, Index(2, vpn));
    MissingNext(s.m, root, 2, vpn);
    MissingNext(m', root, 2, vpn);
    if Valid(e2) {
      Descend(s, root, root, 2, vpn);
      MissingNext(s.m, Frame(e2), 1, vpn);
      MissingNext(m', Frame(e2), 1, vpn);
    }
  }

  /** memset() with a byte value other than zero: the words do not matter. */
  function Junk(byte: nat): Page { seq(512, _ => byte) }

  class PhysMem {
    var m: Memory
    var freelist: nat
    ghost var use: map<nat, Use>
    ghost var free: seq<nat>

    ghost function S(): Frames
      reads this`m, this`use
    {
      Frames(m, use)
    }

    ghost predicate ValidBut(ht: nat, hx: nat)
      reads this
    {
      && InvBut(S(), ht, hx) && HoleOk(S(), ht, hx) && FreeList(S(), free)
      && freelist == Head(free) && m.Keys == use.Keys && 0 !in use
    }

    ghost predicate Good()
      reads this
    {
      ValidBut(0, 0)
    }

    /** Physical memory before kinit(): no page is on the free list yet. */
    constructor (contents: Memory)
      requires forall p :: p in contents ==> FrameOk(p)
      ensures Good() && m == contents && free == [] && use.Keys == contents.Keys && forall p ::
                p in use ==> use[p] == Held
    {
      m := contents;
      freelist := 0;
      use := map p | p in contents :: Held;
      free := [];
    }

    /** freerange(): every whole page of the range goes on the free list, once. */
    method Freerange(start: nat, stop: nat)
      requires Good() && start > 0
      requires forall p: nat :: start <= p && p + PGSIZE <= stop && p % PGSIZE == 0 ==> HeldAt(S(), p)
      modifies this
      ensures Good() && use.Keys == old(use).Keys
      ensures forall p :: p in use ==> use[p] == if start <= p && p + PGSIZE <= stop then Free else old(use)[p]
    {
      hide InvBut, FreeList, Flat, Unneeded, FreedTo;
      ghost var s := S();
      var p: nat := (start + PGSIZE - 1) / PGSIZE * PGSIZE;
      FreedNone(s, start, p, stop);
      while p + PGSIZE <= stop
        invariant start <= p && p % PGSIZE == 0 && Good() && FreedTo(s, use, start, p, stop)
        decreases stop - p
      {
        assert HeldAt(s, p);
        FreedNext(s, use, start, p, stop);
        Kfree(p, 0, 0);
        p := p + PGSIZE;
      }
      FreedAll(s, use, start, p, stop);
    }

    /** kalloc(): pops the free list; returns 0 exactly when it is empty. */
    method Kalloc() returns (r: nat)
      requires Good()
      modifies this
      ensures Good()
      ensures r == 0 <==> old(free) == []
      ensures r == 0 ==> m == old(m) && use == old(use) && free == []
      ensures r != 0 ==> r in old(use) && old(use)[r].Free? && use == old(use)[r := Held] && free == old(free)[1..]
      ensures r != 0 ==> r % PGSIZE == 0 && m.Keys == old(m).Keys && m == old(m)[r := m[r]]
      ensures SameMaps(old(S()), S())
    {
      hide InvBut, FreeList, Flat;
      r := freelist;
      HeadFree(S(), free);
      if r != 0 {
        ghost var s := S();
        PopFree(s, free, Junk(0x0505050505050505));
        Aligned(s, r);
        freelist := m[r][0];
        m := m[r := Junk(0x0505050505050505)];
        use := use[r := Held];
        free := free[1..];
        Retag(s, 0, 0, r, Held);
        WritePage(Frames(s.m, use), 0, 0, r, Junk(0x0505050505050505));
      }
    }

    /** kfree(): pushes a page that is held; the source's range and alignment test passes for every frame. */
    method Kfree(p: nat, ghost ht: nat, ghost hx: nat)
      requires ValidBut(ht, hx) && p in use && use[p] == Held
      modifies this
      ensures ValidBut(ht, hx)
      ensures use == old(use)[p := Free] && free == [p] + old(free) && p in m && m == old(m)[p := m[p]]
      ensures SameBut(old(S()), S(), ht, hx) && (ht == 0 ==> SameMaps(old(S()), S()))
    {
      hide InvBut, FreeList, Flat, HoleOk, ThroughHole;
      ghost var s := S();
      var page := Junk(0x0101010101010101)[0 := freelist];
      PushFree(s, free, p, page);
      WritePage(s, ht, hx, p, page);
      Retag(Frames(s.m[p := page], s.use), ht, hx, p, Free);
      RetagMaps(Frames(s.m[p := page], s.use), ht, hx, p, Free);
      m := m[p := page];
      freelist := p;
      use := use[p := Free];
      free := [p] + free;
    }

    /** memset(p, 0, PGSIZE) and memmove() into a page that is held. */
    method Fill(p: nat, page: Page)
      requires Good() && p in use && use[p] == Held
      modifies this`m
      ensures Good() && m == old(m)[p := page] && SameMaps(old(S()), S())
    {
      hide InvBut, FreeList, Flat, HoleOk;
      ghost var s := S();
      WritePage(s, 0, 0, p, page);
      m := m[p := page];
      FreeKept(s, S(), free);
    }

    /** kalloc() followed by memset() or memmove() into the page. */
    method AllocFilled(page: Page) returns (q: nat)
      requires Good()
      modifies this
      ensures Good() && SameMaps(old(S()), S())
      ensures q == 0 <==> old(free) == []
      ensures q == 0 ==> S() == old(S()) && free == old(free)
      ensures q != 0 ==> q % PGSIZE == 0 && q in old(use) && old(use)[q].Free? && free == old(free)[1..]
      ensures q != 0 ==> S() == Frames(old(m)[q := page], old(use)[q := Held])
    {
      hide InvBut, FreeList, Flat, HoleOk;
      ghost var s := S();
      q := Kalloc();
      if q != 0 {
        ghost var s1 := S();
        Fill(q, page);
        forall r, v: nat | IsRoot(s, r) && IsRoot(S(), r) && v < PAGES
          ensures Flat(m, r, v) == Flat(s.m, r, v)
        {
          assert IsRoot(s1, r);
        }
      }
    }

    /** The allocating branch of walk(): a new table under an empty entry. */
    method AddTable(t: nat, x: nat) returns (q: nat)
      requires Good() && Tables(S(), t) && x < 512 && !use[t].pos.Low? && !Valid(Word(m, t, x)) &&
                 (use[t].pos.Top? ==> x < 256)
      modifies this
      ensures Good() && OnlyNewTables(old(S()), S(), old(use)[t].root) && SameMaps(old(S()), S())
      ensures q == 0 ==> free == old(free) == []
      ensures q != 0 ==> q in use && use[q] == Table(old(use)[t].root, Below(old(use)[t].pos, x))
      ensures q != 0 ==> |free| == |old(free)| - 1 && q in m && Blank(m[q])
    {
      hide InvBut, FreeList, Flat, Valid, Entry, SameMaps, OnlyNewTables, Unneeded;
      ghost var s := S();
      SelfTables(s, use[t].root);
      q := AllocFilled(Zeros());
      if q != 0 {
        ghost var s1 := S();
        LinkTable(s1, t, x, q);
        m := Put(m, t, x, Entry(q, 1));
        use := use[q := Table(use[t].root, Below(use[t].pos, x))];
        TableTaken(s, s1, S(), s.use[t].root, t, x, Entry(q, 1), q, Below(s.use[t].pos, x));
        FreeKept(s1, S(), free);
      }
    }

    /** walk(): the table and index of the entry for `va`, or table 0.  No mapping changes; with `alloc` it fails
        exactly when there are fewer free pages than missing tables, without it only when the page is unmapped. */
    method Walk(root: nat, va: nat, alloc: bool) returns (t: nat, x: nat)
      requires Good() && IsRoot(S(), root) && va < MAXVA
      modifies this
      ensures Good() && OnlyNewTables(old(S()), S(), root) && SameMaps(old(S()), S())
      ensures !alloc ==> S() == old(S()) && free == old(free)
      ensures !alloc && t == 0 ==> Flat(m, root, va / PGSIZE) == 0
      ensures alloc ==> (t == 0 <==> |old(free)| < Missing(old(m), root, va / PGSIZE))
      ensures alloc && t != 0 ==> |free| == |old(free)| - Missing(old(m), root, va / PGSIZE)
      ensures t != 0 ==> TableAt(S(), root, t, PosAt(0, va / PGSIZE)) && x == Index(0, va / PGSIZE)
    {
      hide InvBut, FreeList, Flat, Index, Valid, Frame, UseOk, EntryOk, MissingFrom, Blank;
      var vpn := va / PGSIZE;
      ghost var s := S();
      SelfTables(s, root);
      t := root;
      var level := 2;
      while level > 0
        invariant 0 <= level <= 2 && Good() && 0 !in use
        invariant OnlyNewTables(s, S(), root) && SameMaps(s, S())
        invariant !alloc ==> S() == s && free == old(free)
        invariant TableAt(S(), root, t, PosAt(level, vpn))
        invariant alloc ==> |old(free)| - Missing(s.m, root, vpn) == |free| - MissingFrom(m, t, level, vpn)
      {
        x := Index(level, vpn);
        MissingNext(m, t, level, vpn);
        var pte := m[t][x];
        if Valid(pte) {
          Descend(S(), root, t, level, vpn);
          t := Frame(pte);
        } else {
          if !alloc {
            CutOff(S(), root, t, level, vpn);
            t := 0;
            return;
          }
          ghost var s1 := S();
          TopHalf(vpn);
          t := AddTable(t, x);
          NewTablesTwice(s, s1, S(), root);
          SameMapsTwice(s, s1, S(), root);
          if t == 0 { return; }
          BlankMissing(m, t, level - 1, vpn);
        }
        level := level - 1;
      }
      x := Index(0, vpn);
      AtMostMissing(m, t, 0, vpn);
    }

    /** One round of the mappages() loop. */
    method MapPage(root: nat, va: nat, pa: nat, flags: nat) returns (r: int)
      requires Good() && IsRoot(S(), root) && va < MAXVA && Flat(m, root, va / PGSIZE) == 0 &&
                 LeafFor(Entry(pa, flags), pa)
      requires va / PGSIZE < USERTOP ==> pa in use && use[pa] == Held
      modifies this
      ensures Good() && (r == 0 || r == -1)
      ensures r == 0 ==>
                Remapped(old(S()), S(), root, va / PGSIZE, Entry(pa, flags)) &&
                OnlyMapped(old(S()), S(), root, va / PGSIZE, 1, pa)
      ensures r == -1 ==> SameMaps(old(S()), S()) && OnlyNewTables(old(S()), S(), root)
      ensures r == -1 <==> |old(free)| < Missing(old(m), root, va / PGSIZE)
      ensures r == 0 ==> |free| == |old(free)| - Missing(old(m), root, va / PGSIZE)
    {
      hide InvBut, FreeList, Flat, Index, Valid, Frame, Leafy, UseOk, EntryOk, Entry, PageOf, SameMaps, OnlyNewTables,
          OnlyMapped, Remapped, Unneeded, MissingFrom;
      var vpn := va / PGSIZE;
      ghost var s := S();
      var t, x := Walk(root, va, true);
      if t == 0 { return -1; }
      ghost var s1 := S();
      RootsKept(s, s1, root, root);
      if vpn < USERTOP { HeldKept(s, s1, root, pa); }
      SameAt(s, s1, root, vpn);
      EmptyLeaf(s1, root, vpn, t);
      IndexRoundTrip(vpn);
      LinkPage(s1, t, x, Entry(pa, flags), pa);
      m := Put(m, t, x, Entry(pa, flags));
      use := if vpn < USERTOP then use[pa := User(root, vpn)] else use;
      MapFirst(s, s1, S(), root, vpn, t, x, Entry(pa, flags), pa);
      FreeKept(s1, S(), free);
      r := 0;
    }

    /** mappages(): maps exactly its range, or a proper prefix of it when a table page cannot be had: for one page,
        exactly when there are fewer free pages than missing tables. */
    method Mappages(root: nat, va: nat, size: nat, pa: nat, perm: nat) returns (r: int, ghost n: nat)
      requires Good() && IsRoot(S(), root) && va % PGSIZE == 0 && size % PGSIZE == 0 && size > 0 && va + size <= MAXVA
      requires pa % PGSIZE == 0 && perm < 1024 && Leafy(perm)
      requires forall v: nat :: va / PGSIZE <= v < (va + size) / PGSIZE ==> Flat(m, root, v) == 0
      requires forall k: nat :: k < size / PGSIZE && va / PGSIZE + k < USERTOP ==> HeldAt(S(), pa + k * PGSIZE)
      modifies this
      ensures Good() && (r == 0 || r == -1) && (r == 0 <==> n == size / PGSIZE) && n <= size / PGSIZE
      ensures |free| <= |old(free)| <= |free| + 2 * (size / PGSIZE) || (r == -1 && |old(free)| < 2 * (size / PGSIZE))
      ensures size == PGSIZE ==> (r == -1 <==> |old(free)| < Missing(old(m), root, va / PGSIZE))
      ensures size == PGSIZE && r == 0 ==> |free| == |old(free)| - Missing(old(m), root, va / PGSIZE)
      ensures MappedRange(old(S()), S(), root, va / PGSIZE, n, pa, WithV(perm))
      ensures OnlyMapped(old(S()), S(), root, va / PGSIZE, n, pa)
    {
      hide InvBut, FreeList, Flat, Index, Valid, Frame, Leafy, UseOk, EntryOk, Entry, PageOf, LeafFor, IsRoot;
      hide MappedRange, OnlyMapped, WithV, Missing;
      ghost var s := S();
      ghost var v0 := va / PGSIZE;
      ghost var count := size / PGSIZE;
      n := 0;
      MapNothing(s, root, v0, pa, WithV(perm));
      var a, last, p := va, va + size - PGSIZE, pa;
      while true
        invariant n < count && a == va + n * PGSIZE && p == pa + n * PGSIZE && Good()
        invariant MappedRange(s, S(), root, v0, n, pa, WithV(perm)) && OnlyMapped(s, S(), root, v0, n, pa)
        invariant |free| <= |old(free)| <= |free| + 2 * n && (n == 0 ==> m == s.m && |free| == |old(free)|)
        decreases count - n
      {
        ghost var s1 := S();
        AtMostTwo(m, root, v0 + n);
        ReadyToMap(s, s1, root, v0, n, pa, perm, count);
        PagesOn(va, n);
        r := MapPage(root, a, p, WithV(perm));
        if r != 0 {
          MapNoMore(s, s1, S(), root, v0, n, pa, WithV(perm));
          return;
        }
        MapOneMore(s, s1, S(), root, v0, n, pa, WithV(perm));
        n := n + 1;
        LastPage(va, size, n);
        if a == last { break; }
        a := a + PGSIZE;
        p := p + PGSIZE;
      }
    }

    /** Gives the page behind a leaf back if asked, then clears the leaf. */
    method ReleaseLeaf(ghost root: nat, ghost vpn: nat, t: nat, x: nat, doFree: bool)
      requires Good() && IsRoot(S(), root) && vpn < PAGES && doFree == (vpn < USERTOP)
      requires TableAt(S(), root, t, PosAt(0, vpn)) && x == Index(0, vpn) && Valid(Word(m, t, x))
      modifies this
      ensures Good() && Remapped(old(S()), S(), root, vpn, 0) && OnlyFreed(old(S()), S(), root, vpn, 1)
    {
      hide InvBut, FreeList, Flat, Index, Valid, Frame, Leafy, UseOk, EntryOk, Entry, PageOf, Passes;
      ghost var s := S();
      var q := Frame(m[t][x]);
      IndexRoundTrip(vpn);
      Detach(s, t, x);
      if doFree {
        use := use[q := Held];
        FreeKept(s, S(), free);
        Kfree(q, t, x);
        RootsAfter(s, S(), q);
      }
      ghost var s1 := S();
      m := Put(m, t, x, 0);
      UnmapMaps(s, s1, S(), root, vpn, t, x);
      UnmapUses(s, s1, root, vpn, t, x, q);
      FreeKept(s1, S(), free);
    }

    /** One round of the uvmunmap() loop. */
    method UnmapPage(root: nat, va: nat, doFree: bool)
      requires Good() && IsRoot(S(), root) && va < MAXVA && doFree == (va / PGSIZE < USERTOP)
      modifies this
      ensures Good() && Remapped(old(S()), S(), root, va / PGSIZE, 0) && OnlyFreed(old(S()), S(), root, va / PGSIZE, 1)
    {
      hide InvBut, FreeList, Flat, Index, Valid, HoleOk;
      var vpn := va / PGSIZE;
      ghost var s := S();
      var t, x := Walk(root, va, false);
      if t != 0 { LeafDecides(s, root, vpn, t); }
      if t == 0 || !Valid(m[t][x]) {
        UnmapUnmapped(s, root, vpn);
        return;
      }
      ReleaseLeaf(root, vpn, t, x, doFree);
    }
  }
}
