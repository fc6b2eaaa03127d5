/** User address spaces of kernel/vm.c: growing, shrinking, copying and freeing them. */
module PtSpaces {
  import opened Params
  import opened PtLayout
  import opened PtMemory

  // --------------------------------------------------------- adding user pages

  /** The flags and contents a newly mapped page is to have. */
  datatype Want = Want(flags: nat, page: Page)

  /** Entry `e` maps a frame that was free before, with the wanted flags and contents. */
  ghost predicate FreshCopy(s: Frames, s': Frames, e: nat, w: Want) {
    && Valid(e) && Flags(e) == w.flags
    && Frame(e) in s.use && s.use[Frame(e)].Free? && Frame(e) in s'.m && s'.m[Frame(e)] == w.page
  }

  ghost predicate NewOrSame(s: Frames, s': Frames, root: nat, want: map<nat, Want>, p: nat)
    requires p in s.use && p in s'.use
  {
    TableOrSame(s, s', root, p) ||
        (s.use[p].Free? && s'.use[p].User? && s'.use[p].root == root && s'.use[p].vpn in want)
  }

  ghost predicate OnlyNew(s: Frames, s': Frames, root: nat, want: map<nat, Want>) {
    s'.use.Keys == s.use.Keys && forall p :: p in s.use ==> NewOrSame(s, s', root, want, p)
  }

  ghost predicate NewAt(s: Frames, s': Frames, root: nat, want: map<nat, Want>, r: nat, v: nat) {
    if r == root && v in want then FreshCopy(s, s', Flat(s'.m, r, v), want[v]) else Flat(s'.m, r, v) == Flat(s.m, r, v)
  }

  /** The wanted pages, and no others, are newly mapped in `root`, each to its own frame that was free. */
  ghost predicate NewPages(s: Frames, s': Frames, root: nat, want: map<nat, Want>) {
    && OnlyNew(s, s', root, want)
    && forall r, v: nat :: IsRoot(s, r) && IsRoot(s', r) && v < PAGES ==> NewAt(s, s', root, want, r, v)
  }

  lemma NewRoots(s: Frames, s': Frames, root: nat, want: map<nat, Want>, r: nat)
    requires OnlyNew(s, s', root, want)
    ensures IsRoot(s, r) <==> IsRoot(s', r)
  {
    if r in s.use { assert NewOrSame(s, s', root, want, r); }
  }

  /** The frame behind a mapped user page belongs to that page. */
  lemma UserBehind(s: Frames, root: nat, v: nat)
    requires Inv(s) && IsRoot(s, root) && v < USERTOP && Flat(s.m, root, v) != 0
    ensures Valid(Flat(s.m, root, v)) && Leafy(Flat(s.m, root, v))
    ensures var q := Frame(Flat(s.m, root, v)); q in s.use && s.use[q] == User(root, v)
  {
    hide Leafy, Frame, Index, PageOf, UseOk;
    PathTables(s, 0, 0, root, v);
    IndexRoundTrip(v);
    var t := Frame(Word(s.m, Frame(Word(s.m, root, Index(2, v))), Index(1, v)));
    assert Tables(s, t) && EntryOk(s, t, Index(0, v));
  }

  /** No frame is mapped at two user pages, in one address space or in two, and none that is mapped is free or a page
      table. */
  lemma NoSharing(s: Frames, free: seq<nat>, r1: nat, v1: nat, r2: nat, v2: nat)
    requires Inv(s) && FreeList(s, free) && IsRoot(s, r1) && IsRoot(s, r2) && v1 < USERTOP && v2 < USERTOP
    requires Flat(s.m, r1, v1) != 0 && Flat(s.m, r2, v2) != 0
    ensures Frame(Flat(s.m, r1, v1)) == Frame(Flat(s.m, r2, v2)) ==> r1 == r2 && v1 == v2
    ensures Frame(Flat(s.m, r1, v1)) !in free && !Tables(s, Frame(Flat(s.m, r1, v1)))
  {
    hide Frame, Flat, InvBut;
    UserBehind(s, r1, v1);
    UserBehind(s, r2, v2);
  }

  /** kalloc(), fill and map one page: the state after each step. */
  lemma OnePage(s: Frames, s2: Frames, s3: Frames, root: nat, vpn: nat, q: nat, flags: nat, page: Page)
    requires SameMaps(s, s2) && q in s.use && s.use[q].Free? && s2 == Frames(s.m[q := page], s.use[q := Held]) &&
               s.m.Keys == s.use.Keys
    requires MappedRange(s2, s3, root, vpn, 1, q, flags) && OnlyMapped(s2, s3, root, vpn, 1, q)
    requires Inv(s3) && IsRoot(s3, root) && vpn < USERTOP && flags < 1024 && Valid(flags) && q % PGSIZE == 0
    ensures NewPages(s, s3, root, map[vpn := Want(flags, page)])
  {
    hide Flat, Frame, Valid, Leafy, Entry, Flags, InvBut;
    var want := map[vpn := Want(flags, page)];
    MapRoots(s2, s3, root, vpn, 1, q, root);
    EntryRoundTrip(q, flags);
    assert Flat(s3.m, root, vpn) == Entry(q + (vpn - vpn) * PGSIZE, flags);
    NotZero(Flat(s3.m, root, vpn));
    UserBehind(s3, root, vpn);
    forall p | p in s.use
      ensures NewOrSame(s, s3, root, want, p)
    {
      assert MapOrSame(s2, s3, root, vpn, 1, q, p);
    }
    forall r, v: nat | IsRoot(s, r) && IsRoot(s3, r) && v < PAGES
      ensures NewAt(s, s3, root, want, r, v)
    {
      assert MapOrSame(s2, s3, root, vpn, 1, q, q);
      assert IsRoot(s2, r);
    }
  }

  lemma NotZero(e: nat)
    requires Valid(e)
    ensures e != 0
  {}

  /** kalloc() and fill, then a mapping that fails and kfree(). */
  lemma NoPage(s: Frames, s2: Frames, s3: Frames, s4: Frames, root: nat, vpn: nat, q: nat, flags: nat, page: Page)
    requires SameMaps(s, s2) && q in s.use && s.use[q].Free? && s2 == Frames(s.m[q := page], s.use[q := Held]) &&
               s.m.Keys == s.use.Keys
    requires MappedRange(s2, s3, root, vpn, 0, q, flags) && OnlyMapped(s2, s3, root, vpn, 0, q)
    requires SameMaps(s3, s4) && s4.use == s3.use[q := Free] && s4.m.Keys == s4.use.Keys && q in s4.m &&
               s3.m.Keys == s3.use.Keys && s4.m == s3.m[q := s4.m[q]]
    ensures SameMaps(s, s4) && OnlyNewTables(s, s4, root)
  {
    hide Flat, Entry;
    forall p | p in s.use
      ensures TableOrSame(s, s4, root, p)
    {
      assert MapOrSame(s2, s3, root, vpn, 0, q, p);
    }
    forall r, v: nat | IsRoot(s, r) && IsRoot(s4, r) && v < PAGES
      ensures Flat(s4.m, r, v) == Flat(s.m, r, v)
    {
      assert IsRoot(s2, r);
      MapRoots(s2, s3, root, vpn, 0, q, r);
    }
  }

  lemma StillHeld(s: Frames, s': Frames, root: nat, vpn: nat, q: nat)
    requires OnlyMapped(s, s', root, vpn, 0, q) && HeldAt(s, q)
    ensures HeldAt(s', q)
  {
    assert MapOrSame(s, s', root, vpn, 0, q, q);
  }

  /** Allocates, fills and maps one user page: a round of uvmalloc() or uvmcopy().  It fails exactly when there are not
      enough free pages for it and for the tables it misses; then it gives the page back. */
  method AddPage(mem: PhysMem, root: nat, va: nat, perm: nat, page: Page) returns (ok: bool)
    requires mem.Good() && IsRoot(mem.S(), root) && va % PGSIZE == 0 && va < TRAPFRAME && perm < 1024 && Leafy(perm)
    requires Flat(mem.m, root, va / PGSIZE) == 0
    modifies mem
    ensures mem.Good()
    ensures ok ==> NewPages(old(mem.S()), mem.S(), root, map[va / PGSIZE := Want(WithV(perm), page)])
    ensures !ok ==> SameMaps(old(mem.S()), mem.S()) && OnlyNewTables(old(mem.S()), mem.S(), root)
    ensures ok <==> |old(mem.free)| >= 1 + Missing(old(mem.m), root, va / PGSIZE)
    ensures ok ==> |mem.free| == |old(mem.free)| - 1 - Missing(old(mem.m), root, va / PGSIZE)
  {
    hide InvBut, FreeList, Flat, Index, Valid, Frame, Leafy, Entry, WithV, HoleOk, SameMaps, MappedRange, OnlyMapped,
        OnlyNewTables, NewPages, Missing;
    ghost var s := mem.S();
    SelfTables(s, root);
    var q := mem.AllocFilled(page);
    if q == 0 { return false; }
    ghost var s2 := mem.S();
    MissingKept(s, q, page, root, va / PGSIZE);
    assert HeldAt(s2, q + 0 * PGSIZE);
    SameAt(s, s2, root, va / PGSIZE);
    var r, n := mem.Mappages(root, va, PGSIZE, q, perm);
    ghost var s3 := mem.S();
    WithVLeaf(perm);
    if r != 0 {
      StillHeld(s2, s3, root, va / PGSIZE, q);
      mem.Kfree(q, 0, 0);
      NoPage(s, s2, s3, mem.S(), root, va / PGSIZE, q, WithV(perm), page);
      return false;
    }
    MapRoots(s2, s3, root, va / PGSIZE, 1, q, root);
    OnePage(s, s2, s3, root, va / PGSIZE, q, WithV(perm), page);
    ok := true;
  }

  // ----------------------------------------------------- sequences of such steps

  lemma NothingNew(s: Frames, root: nat)
    requires s.m.Keys == s.use.Keys
    ensures NewPages(s, s, root, map[])
  {
    hide Flat;
    forall p | p in s.use
      ensures NewOrSame(s, s, root, map[], p)
    {}
  }

  lemma NewKept(s: Frames, s1: Frames, s2: Frames, root: nat, want: map<nat, Want>, more: map<nat, Want>, v: nat)
    requires NewPages(s, s1, root, want) && OnlyNew(s1, s2, root, more) && Inv(s1) && IsRoot(s1, root)
    requires v in want && v < USERTOP && Flat(s2.m, root, v) == Flat(s1.m, root, v)
    ensures FreshCopy(s, s2, Flat(s2.m, root, v), want[v])
  {
    hide Flat, Frame, Valid, Leafy, Flags, InvBut;
    NewRoots(s, s1, root, want, root);
    assert NewAt(s, s1, root, want, root, v);
    NotZero(Flat(s1.m, root, v));
    UserBehind(s1, root, v);
    assert NewOrSame(s1, s2, root, more, Frame(Flat(s1.m, root, v)));
  }

  lemma OneMorePage(s: Frames, s1: Frames, s2: Frames, root: nat, want: map<nat, Want>, vpn: nat, w: Want)
    requires NewPages(s, s1, root, want) && NewPages(s1, s2, root, map[vpn := w]) && vpn !in want && Inv(s1) &&
               IsRoot(s1, root)
    requires forall v :: v in want ==> v < USERTOP
    ensures NewPages(s, s2, root, want[vpn := w])
  {
    hide Flat, Frame, Valid, Leafy, Flags, InvBut;
    var all := want[vpn := w];
    forall p | p in s.use
      ensures NewOrSame(s, s2, root, all, p)
    {
      assert NewOrSame(s, s1, root, want, p) && NewOrSame(s1, s2, root, map[vpn := w], p);
    }
    forall r, v: nat | IsRoot(s, r) && IsRoot(s2, r) && v < PAGES
      ensures NewAt(s, s2, root, all, r, v)
    {
      NewRoots(s, s1, root, want, r);
      assert NewAt(s, s1, root, want, r, v) && NewAt(s1, s2, root, map[vpn := w], r, v);
      if r == root && v == vpn {
        assert NewOrSame(s, s1, root, want, Frame(Flat(s2.m, r, v)));
      } else if r == root && v in want {
        NewKept(s, s1, s2, root, want, map[vpn := w], v);
      }
    }
  }

  lemma NoMorePages(s: Frames, s1: Frames, s2: Frames, root: nat, want: map<nat, Want>)
    requires NewPages(s, s1, root, want) && SameMaps(s1, s2) && OnlyNewTables(s1, s2, root) && Inv(s1) &&
               IsRoot(s1, root)
    requires forall v :: v in want ==> v < USERTOP
    ensures NewPages(s, s2, root, want)
  {
    hide Flat, Frame, Valid, Leafy, Flags, InvBut;
    assert OnlyNew(s1, s2, root, map[]) by {
      forall p | p in s1.use
        ensures NewOrSame(s1, s2, root, map[], p)
      {
        assert TableOrSame(s1, s2, root, p);
      }
    }
    forall p | p in s.use
      ensures NewOrSame(s, s2, root, want, p)
    {
      assert NewOrSame(s, s1, root, want, p) && TableOrSame(s1, s2, root, p);
    }
    forall r, v: nat | IsRoot(s, r) && IsRoot(s2, r) && v < PAGES
      ensures NewAt(s, s2, root, want, r, v)
    {
      NewRoots(s, s1, root, want, r);
      assert NewAt(s, s1, root, want, r, v);
      if r == root && v in want {
        NewKept(s, s1, s2, root, want, map[], v);
      }
    }
  }

  /** Unmapping the new pages again gives back every frame but those of page tables. */
  lemma Undo(s: Frames, s1: Frames, s2: Frames, root: nat, want: map<nat, Want>, v0: nat, n: nat)
    requires Inv(s) && Inv(s2) && NewPages(s, s1, root, want) && IsRoot(s, root)
    requires UnmappedRange(s1, s2, root, v0, n) && OnlyFreed(s1, s2, root, v0, n) && v0 + n <= USERTOP
    requires forall v :: v in want ==> v0 <= v < v0 + n
    requires forall v: nat :: v0 <= v < v0 + n ==> Flat(s.m, root, v) == 0
    ensures SameMaps(s, s2) && OnlyNewTables(s, s2, root)
  {
    hide Flat, Frame, Leafy, Flags, InvBut, FreshCopy, UnmappedRange;
    forall p | p in s.use
      ensures TableOrSame(s, s2, root, p)
    {
      assert NewOrSame(s, s1, root, want, p) && FreedOrSame(s1, s2, root, v0, n, p);
      UserMapped(s, p);
      UndoneUser(s, s1, s2, root, want, v0, n, p);
    }
    forall r, v: nat | IsRoot(s, r) && IsRoot(s2, r) && v < PAGES
      ensures Flat(s2.m, r, v) == Flat(s.m, r, v)
    {
      NewRoots(s, s1, root, want, r);
      UnmappedAt(s1, s2, root, v0, n, r, v);
      assert NewAt(s, s1, root, want, r, v);
    }
  }

  lemma UnmappedAt(s: Frames, s': Frames, root: nat, v0: nat, n: nat, r: nat, v: nat)
    requires UnmappedRange(s, s', root, v0, n) && IsRoot(s, r) && IsRoot(s', r) && v < PAGES
    ensures Flat(s'.m, r, v) == if r == root && v0 <= v < v0 + n then 0 else Flat(s.m, r, v)
  {
    hide Flat;
  }

  /** A user page is mapped where its use says. */
  lemma UserMapped(s: Frames, p: nat)
    requires Inv(s) && p in s.use
    ensures s.use[p].User? ==>
              IsRoot(s, s.use[p].root) && s.use[p].vpn < USERTOP && Flat(s.m, s.use[p].root, s.use[p].vpn) != 0
  {
    hide Flat, Frame, Leafy, EntryOk;
    assert UseOk(s, p);
  }

  /** No frame is still the user's at a page that was unmapped. */
  lemma UndoneUser(s: Frames, s1: Frames, s2: Frames, root: nat, want: map<nat, Want>, v0: nat, n: nat, p: nat)
    requires Inv(s2) && OnlyNew(s, s1, root, want) && IsRoot(s, root) && p in s2.use && p in s.use
    requires UnmappedRange(s1, s2, root, v0, n) && OnlyFreed(s1, s2, root, v0, n) && v0 + n <= USERTOP
    ensures s2.use[p].User? && s2.use[p].root == root ==> !(v0 <= s2.use[p].vpn < v0 + n)
  {
    hide Flat, Frame, Leafy, InvBut, UnmappedRange;
    UserMapped(s2, p);
    NewRoots(s, s1, root, want, root);
    if s2.use[p].User? && s2.use[p].root == root {
      UnmappedAt(s1, s2, root, v0, n, root, s2.use[p].vpn);
    }
  }

  // ------------------------------------------------------------- the operations

  /** PGROUNDUP(sz) / PGSIZE: the number of pages that hold `sz` bytes. */
  function PageCount(sz: nat): (n: nat)
    ensures (n - 1) * PGSIZE < sz <= n * PGSIZE || n == sz == 0
  {
    (sz + PGSIZE - 1) / PGSIZE
  }

  /** uvmunmap(): removes exactly the mappings of its range; with `doFree` the pages behind them become free. */
  method Uvmunmap(mem: PhysMem, root: nat, va: nat, npages: nat, doFree: bool)
    requires mem.Good() && IsRoot(mem.S(), root) && va % PGSIZE == 0
    requires if doFree then va + npages * PGSIZE <= TRAPFRAME else TRAPFRAME <= va && va + npages * PGSIZE <= MAXVA
    modifies mem
    ensures mem.Good() && UnmappedRange(old(mem.S()), mem.S(), root, va / PGSIZE, npages)
    ensures OnlyFreed(old(mem.S()), mem.S(), root, va / PGSIZE, npages)
  {
    hide InvBut, FreeList, Flat, HoleOk, IsRoot, UnmappedRange, OnlyFreed, Remapped;
    ghost var s := mem.S();
    ghost var v0 := va / PGSIZE;
    ghost var n: nat := 0;
    UnmapNothing(s, root, v0);
    var a := va;
    while a < va + npages * PGSIZE
      invariant n <= npages && a == va + n * PGSIZE && mem.Good()
      invariant UnmappedRange(s, mem.S(), root, v0, n) && OnlyFreed(s, mem.S(), root, v0, n)
      decreases npages - n
    {
      ghost var s1 := mem.S();
      FreedRoots(s, s1, root, v0, n, root);
      assert a / PGSIZE == v0 + n;
      mem.UnmapPage(root, a, doFree);
      UnmapOneMore(s, s1, mem.S(), root, v0, n);
      n := n + 1;
      a := a + PGSIZE;
    }
  }

  /** uvmdealloc(): shrinking unmaps and frees exactly the pages wholly above the new size. */
  method Uvmdealloc(mem: PhysMem, root: nat, oldsz: nat, newsz: nat) returns (r: nat)
    requires mem.Good() && IsRoot(mem.S(), root) && oldsz <= TRAPFRAME
    modifies mem
    ensures mem.Good() && r == (if newsz < oldsz then newsz else oldsz)
    ensures UnmappedRange(old(mem.S()), mem.S(), root, PageCount(r), PageCount(oldsz) - PageCount(r))
    ensures OnlyFreed(old(mem.S()), mem.S(), root, PageCount(r), PageCount(oldsz) - PageCount(r))
  {
    hide InvBut, FreeList, Flat, HoleOk, IsRoot, UnmappedRange, OnlyFreed;
    if newsz >= oldsz {
      UnmapNothing(mem.S(), root, PageCount(oldsz));
      return oldsz;
    }
    if PageCount(newsz) < PageCount(oldsz) {
      Uvmunmap(mem, root, PageCount(newsz) * PGSIZE, PageCount(oldsz) - PageCount(newsz), true);
    } else {
      UnmapNothing(mem.S(), root, PageCount(newsz));
    }
    r := newsz;
  }

  const PTE_R: nat := 2
  const PTE_W: nat := 4
  const PTE_X: nat := 8
  const PTE_U: nat := 16

  /** From `free` free pages to `left`, for `n` pages and at most two tables with each. */
  ghost predicate Spent(free: int, left: int, n: int) { left + n <= free <= left + 3 * n }

  /** Pages of zeros from page `v0` up to page `v1`. */
  function ZeroPages(v0: nat, v1: nat, flags: nat): (want: map<nat, Want>)
    ensures forall v :: v in want <==> v0 <= v < v1
    ensures forall v :: v in want ==> want[v] == Want(flags, Zeros())
  {
    if v1 <= v0 then map[] else ZeroPages(v0, v1 - 1, flags)[v1 - 1 := Want(flags, Zeros())]
  }

  /** uvmalloc(): either maps fresh zeroed pages for exactly the new range, or changes no mapping and keeps
      no page but those of page tables.  It does not fail with three free pages for each new one. */
  method Uvmalloc(mem: PhysMem, root: nat, oldsz: nat, newsz: nat, xperm: nat) returns (r: nat, ghost ok: bool)
    requires mem.Good() && IsRoot(mem.S(), root) && newsz <= TRAPFRAME && xperm in {0, PTE_W, PTE_X, PTE_W + PTE_X}
    requires forall v: nat :: PageCount(oldsz) <= v < PageCount(newsz) ==> Flat(mem.m, root, v) == 0
    modifies mem
    ensures mem.Good() && r == (if newsz < oldsz then oldsz else if ok then newsz else 0) && (newsz < oldsz ==> ok)
    ensures ok ==>
              NewPages(old(mem.S()), mem.S(), root,
              ZeroPages(PageCount(oldsz), PageCount(newsz), WithV(PTE_R + PTE_U + xperm)))
    ensures !ok ==> SameMaps(old(mem.S()), mem.S()) && OnlyNewTables(old(mem.S()), mem.S(), root)
    ensures !ok ==> |old(mem.free)| < 3 * (PageCount(newsz) - PageCount(oldsz))
    ensures ok && newsz >= oldsz ==> Spent(|old(mem.free)|, |mem.free|, PageCount(newsz) - PageCount(oldsz))
  {
    hide InvBut, FreeList, Flat, HoleOk, Leafy, WithV, NewPages, IsRoot, UnmappedRange, OnlyFreed, SameMaps,
        OnlyNewTables;
    hide PageCount, Missing;
    ghost var s := mem.S();
    NothingNew(s, root);
    ok := true;
    if newsz < oldsz { return oldsz, true; }
    ghost var v0 := PageCount(oldsz);
    ghost var v: nat := v0;
    var perm := PTE_R + PTE_U + xperm;
    ReadPerm(xperm);
    var start := PageCount(oldsz) * PGSIZE;
    var a := start;
    while a < newsz
      invariant v0 <= v <= PageCount(newsz) && a == v * PGSIZE && mem.Good()
      invariant NewPages(s, mem.S(), root, ZeroPages(v0, v, WithV(perm)))
      invariant Spent(|old(mem.free)|, |mem.free|, v - v0)
      decreases newsz - a
    {
      ghost var s1 := mem.S();
      PageBelow(v, newsz);
      StillUnmapped(s, s1, root, ZeroPages(v0, v, WithV(perm)), v);
      AtMostTwo(mem.m, root, v);
      var added := AddPage(mem, root, a, perm, Zeros());
      if !added {
        ghost var s2 := mem.S();
        NoMorePages(s, s1, s2, root, ZeroPages(v0, v, WithV(perm)));
        NewPagesRoot(s, s2, root, ZeroPages(v0, v, WithV(perm)));
        var _ := Uvmdealloc(mem, root, a, start);
        Undo(s, s2, mem.S(), root, ZeroPages(v0, v, WithV(perm)), v0, v - v0);
        ok := false;
        return 0, false;
      }
      OneMorePage(s, s1, mem.S(), root, ZeroPages(v0, v, WithV(perm)), v, Want(WithV(perm), Zeros()));
      v := v + 1;
      a := a + PGSIZE;
    }
    PageBelow(v, newsz);
    r := newsz;
  }

  lemma ReadPerm(xperm: nat)
    requires xperm in {0, PTE_W, PTE_X, PTE_W + PTE_X}
    ensures PTE_R + PTE_U + xperm < 1024 && Leafy(PTE_R + PTE_U + xperm)
  {}

  lemma NewPagesRoot(s: Frames, s1: Frames, root: nat, want: map<nat, Want>)
    requires NewPages(s, s1, root, want)
    ensures IsRoot(s, root) <==> IsRoot(s1, root)
  {
    NewRoots(s, s1, root, want, root);
  }

  lemma StillUnmapped(s: Frames, s1: Frames, root: nat, want: map<nat, Want>, v: nat)
    requires NewPages(s, s1, root, want) && IsRoot(s, root) && v !in want && v < PAGES
    ensures IsRoot(s1, root) && Flat(s1.m, root, v) == Flat(s.m, root, v)
  {
    NewRoots(s, s1, root, want, root);
    assert NewAt(s, s1, root, want, root, v);
  }

  function PageAt(m: Memory, p: nat): Page { if p in m then m[p] else Zeros() }

  /** Copies of the pages mapped below page `n` in `root`: same flags, same contents. */
  function Copies(m: Memory, root: nat, n: nat): (want: map<nat, Want>)
    ensures forall v :: v in want <==> 0 <= v < n && Flat(m, root, v) != 0
    ensures forall v :: v in want ==> want[v] == Want(Flags(Flat(m, root, v)), PageAt(m, Frame(Flat(m, root, v))))
  {
    if n == 0 then map[] else
      var e := Flat(m, root, n - 1);
      if e == 0 then Copies(m, root, n - 1) else Copies(m, root, n - 1)[n - 1 := Want(Flags(e), PageAt(m, Frame(e)))]
  }

  /** How many of the pages below `n` are mapped. */
  function MappedBelow(m: Memory, root: nat, n: nat): nat {
    if n == 0 then 0 else MappedBelow(m, root, n - 1) + if Flat(m, root, n - 1) == 0 then 0 else 1
  }

  lemma MappedNext(m: Memory, root: nat, n: nat)
    ensures MappedBelow(m, root, 0) == 0
    ensures MappedBelow(m, root, n + 1) == MappedBelow(m, root, n) + if Flat(m, root, n) == 0 then 0 else 1
  {}

  lemma {:induction false} MappedGrows(m: Memory, root: nat, n: nat, k: nat)
    requires n <= k
    ensures MappedBelow(m, root, n) <= MappedBelow(m, root, k)
  {
    if n < k { MappedGrows(m, root, n, k - 1); }
  }

  lemma {:induction false} MappedSame(m: Memory, m': Memory, root: nat, n: nat)
    requires forall v: nat :: v < n ==> Flat(m', root, v) == Flat(m, root, v)
    ensures MappedBelow(m', root, n) == MappedBelow(m, root, n)
  {
    hide Flat;
    if n > 0 { MappedSame(m, m', root, n - 1); }
  }

  /** What uvmcopy() reads of the parent at page `v` is what was there at the start. */
  lemma ParentKept(s: Frames, s1: Frames, old': nat, new': nat, want: map<nat, Want>, v: nat)
    requires NewPages(s, s1, new', want) && Inv(s) && IsRoot(s, old') && old' != new' && v < USERTOP
    ensures IsRoot(s1, old') && Flat(s1.m, old', v) == Flat(s.m, old', v)
    ensures var e := Flat(s.m, old', v);
            e != 0 ==>
                Frame(e) in s1.m && s1.m[Frame(e)] == PageAt(s.m, Frame(e)) && Flags(e) < 1024 && Leafy(Flags(e)) &&
                WithV(Flags(e)) == Flags(e)
  {
    hide Flat, Frame, Leafy, InvBut;
    NewRoots(s, s1, new', want, old');
    assert NewAt(s, s1, new', want, old', v);
    var e := Flat(s.m, old', v);
    if e != 0 {
      UserBehind(s, old', v);
      assert NewOrSame(s, s1, new', want, Frame(e));
      FlagsOfLeaf(e);
    }
  }

  lemma FlagsOfLeaf(e: nat)
    requires Valid(e) && Leafy(e)
    ensures Flags(e) < 1024 && Valid(Flags(e)) && Leafy(Flags(e))
  {
    hide Valid, Leafy;
    LowBits(e, e / 1024, e % 1024);
  }

  /** One round of the uvmcopy() loop: page `v`, if it is mapped, gets its copy; without memory for it only page tables
      are added.  That happens exactly when the page is mapped and its copy and the tables for that are too much. */
  method CopyPage(mem: PhysMem, old': nat, new': nat, i: nat, ghost v: nat, ghost s: Frames) returns (ok: bool)
    requires mem.Good() && Inv(s) && IsRoot(s, old') && IsRoot(s, new') && old' != new' && v < USERTOP &&
               i == v * PGSIZE
    requires NewPages(s, mem.S(), new', Copies(s.m, old', v)) && Flat(s.m, new', v) == 0
    modifies mem
    ensures mem.Good() && NewPages(s, mem.S(), new', Copies(s.m, old', if ok then v + 1 else v))
    ensures ok <==> Flat(s.m, old', v) == 0 || |old(mem.free)| >= 1 + Missing(old(mem.m), new', v)
    ensures ok ==> |old(mem.free)| ==
                   |mem.free| + if Flat(s.m, old', v) == 0 then 0 else 1 + Missing(old(mem.m), new', v)
  {
    hide InvBut, FreeList, Flat, HoleOk, Leafy, WithV, Flags, Frame, Valid, NewPages, IsRoot, SameMaps, OnlyNewTables,
        Missing;
    ghost var s1 := mem.S();
    ParentKept(s, s1, old', new', Copies(s.m, old', v), v);
    StillUnmapped(s, s1, new', Copies(s.m, old', v), v);
    var t, x := mem.Walk(old', i, false);
    if t != 0 { LeafDecides(s1, old', v, t); }
    ok := true;
    if t != 0 && Valid(mem.m[t][x]) {
      var e := mem.m[t][x];
      NotZero(e);
      ok := AddPage(mem, new', i, Flags(e), mem.m[Frame(e)]);
      if ok {
        OneMorePage(s, s1, mem.S(), new', Copies(s.m, old', v), v, Want(Flags(e), PageAt(s.m, Frame(e))));
      } else {
        NoMorePages(s, s1, mem.S(), new', Copies(s.m, old', v));
      }
    }
  }

  /** The error path of uvmcopy(). */
  method UndoCopy(mem: PhysMem, old': nat, new': nat, i: nat, ghost v: nat, ghost s: Frames)
    requires mem.Good() && Inv(s) && IsRoot(s, new') && v <= USERTOP && i == v * PGSIZE
    requires NewPages(s, mem.S(), new', Copies(s.m, old', v)) && forall k: nat :: k < v ==> Flat(s.m, new', k) == 0
    modifies mem
    ensures mem.Good() && SameMaps(s, mem.S()) && OnlyNewTables(s, mem.S(), new')
  {
    hide InvBut, FreeList, Flat, HoleOk, Leafy, WithV, Flags, Frame, Valid, NewPages, IsRoot, UnmappedRange, OnlyFreed,
        SameMaps, OnlyNewTables;
    ghost var s2 := mem.S();
    NewPagesRoot(s, s2, new', Copies(s.m, old', v));
    Uvmunmap(mem, new', 0, i / PGSIZE, true);
    Undo(s, s2, mem.S(), new', Copies(s.m, old', v), 0, v);
  }

  /** uvmcopy(): either every mapped page below `sz` gets a copy in a fresh frame with the same flags and bytes,
      or no mapping changes and no page but those of page tables is kept.  It does not fail with three free pages for
      each mapped one. */
  method Uvmcopy(mem: PhysMem, old': nat, new': nat, sz: nat) returns (r: int)
    requires mem.Good() && IsRoot(mem.S(), old') && IsRoot(mem.S(), new') && old' != new' && sz <= TRAPFRAME
    requires forall v: nat :: v < PageCount(sz) ==> Flat(mem.m, new', v) == 0
    modifies mem
    ensures mem.Good() && (r == 0 || r == -1)
    ensures r == 0 ==> NewPages(old(mem.S()), mem.S(), new', Copies(old(mem.m), old', PageCount(sz)))
    ensures r == -1 ==> SameMaps(old(mem.S()), mem.S()) && OnlyNewTables(old(mem.S()), mem.S(), new')
    ensures r == -1 ==> |old(mem.free)| < 3 * MappedBelow(old(mem.m), old', PageCount(sz))
    ensures r == 0 ==> Spent(|old(mem.free)|, |mem.free|, MappedBelow(old(mem.m), old', PageCount(sz)))
  {
    hide InvBut, FreeList, Flat, HoleOk, Leafy, WithV, Flags, Frame, Valid, NewPages, IsRoot, UnmappedRange, OnlyFreed,
        SameMaps, OnlyNewTables;
    hide PageCount, Copies, MappedBelow, Missing;
    ghost var s := mem.S();
    NothingNew(s, new');
    NothingCopied(s.m, old');
    MappedNext(s.m, old', 0);
    ghost var v: nat := 0;
    var i := 0;
    PageBelow(0, sz);
    while i < sz
      invariant v <= PageCount(sz) && i == v * PGSIZE && mem.Good()
      invariant NewPages(s, mem.S(), new', Copies(s.m, old', v))
      invariant Spent(|old(mem.free)|, |mem.free|, MappedBelow(s.m, old', v))
      decreases sz - i
    {
      PageBelow(v, sz);
      MappedNext(s.m, old', v);
      MappedGrows(s.m, old', v + 1, PageCount(sz));
      AtMostTwo(mem.m, new', v);
      var ok := CopyPage(mem, old', new', i, v, s);
      if !ok {
        UndoCopy(mem, old', new', i, v, s);
        return -1;
      }
      v := v + 1;
      i := i + PGSIZE;
    }
    PageBelow(v, sz);
    r := 0;
  }

  lemma NothingCopied(m: Memory, root: nat)
    ensures Copies(m, root, 0) == map[]
  {}

  /** Page `v` starts below `sz` exactly if it is one of the pages that `sz` reaches into. */
  lemma PageBelow(v: nat, sz: nat)
    ensures v * PGSIZE < sz <==> v < PageCount(sz)
    ensures v * PGSIZE / PGSIZE == v && (sz <= TRAPFRAME ==> PageCount(sz) <= USERTOP)
  {}

  // ------------------------------------------------------------- freeing tables

  /** A page of the subtree of page tables at `pos` of `root`. */
  ghost predicate Under(u: Use, root: nat, pos: Pos) {
    && u.Table? && u.root == root
    && match pos
       case Top => true
       case Mid(i) => u.pos == Mid(i) || (u.pos.Low? && u.pos.i == i)
       case Low(i, j) => u.pos == pos
  }

  /** A page below entry number `n` of the table at `pos`. */
  ghost predicate Gone(u: Use, root: nat, pos: Pos, n: nat) {
    && u.Table? && u.root == root
    && match pos
       case Top => (u.pos.Mid? || u.pos.Low?) && u.pos.i < n
       case Mid(i) => u.pos.Low? && u.pos.i == i && u.pos.j < n
       case Low(i, j) => false
  }

  /** The subtrees of the first `n` entries of table `t` are free; other pages keep use and contents. */
  ghost predicate TablesGone(s: Frames, s': Frames, root: nat, t: nat, pos: Pos, n: nat) {
    && s'.use.Keys == s.use.Keys
    && forall p :: p in s.use ==> GoneOrSame(s, s', root, t, pos, n, p)
  }

  ghost predicate GoneOrSame(s: Frames, s': Frames, root: nat, t: nat, pos: Pos, n: nat, p: nat)
    requires p in s.use && p in s'.use
  {
    && s'.use[p] == (if Gone(s.use[p], root, pos, n) then Free else s.use[p])
    && (s'.use[p] == s.use[p] && !s.use[p].Free? && p != t ==> p in s.m && p in s'.m && s'.m[p] == s.m[p])
  }

  /** The whole subtree at `pos` is free; other pages keep use and contents. */
  ghost predicate SubtreeFree(s: Frames, s': Frames, root: nat, pos: Pos) {
    && s'.use.Keys == s.use.Keys
    && forall p :: p in s.use ==> FreeOrSame(s, s', root, pos, p)
  }

  ghost predicate FreeOrSame(s: Frames, s': Frames, root: nat, pos: Pos, p: nat)
    requires p in s.use && p in s'.use
  {
    && s'.use[p] == (if Under(s.use[p], root, pos) then Free else s.use[p])
    && (s'.use[p] == s.use[p] && !s.use[p].Free? ==> p in s.m && p in s'.m && s'.m[p] == s.m[p])
  }

  ghost predicate NoLeaves(s: Frames, root: nat) {
    forall t :: Tables(s, t) && s.use[t].root == root && s.use[t].pos.Low? ==> NoEntries(s, t)
  }

  /** Mappings of other page tables agree. */
  ghost predicate SameOthers(s: Frames, s': Frames, root: nat) {
    forall r, v: nat :: IsRoot(s, r) && IsRoot(s', r) && r != root && v < PAGES ==> Flat(s'.m, r, v) == Flat(s.m, r, v)
  }

  /** An address space without mappings has no leaf entries. */
  lemma NothingMapped(s: Frames, root: nat)
    requires Inv(s) && IsRoot(s, root) && forall v: nat :: v < PAGES ==> Flat(s.m, root, v) == 0
    ensures NoLeaves(s, root)
  {
    hide Valid, Frame, Leafy, Index, PageOf, Flat, EntryOk;
    forall t, x | Tables(s, t) && s.use[t].root == root && s.use[t].pos.Low? && 0 <= x < 512
      ensures !Valid(Word(s.m, t, x))
    {
      var pos := s.use[t].pos;
      assert UseOk(s, t);
      PageOfRoundTrip(pos.i, pos.j, x);
      InRange(pos.i, pos.j, x);
      EmptyLeaf(s, root, PageOf(pos.i, pos.j, x), t);
    }
  }

  lemma InRange(i: nat, j: nat, k: nat)
    requires i < 256 && j < 512 && k < 512
    ensures PageOf(i, j, k) < PAGES
  {}

  lemma NoneGone(s: Frames, root: nat, t: nat, pos: Pos)
    requires s.m.Keys == s.use.Keys
    ensures TablesGone(s, s, root, t, pos, 0)
  {
    forall p | p in s.use
      ensures GoneOrSame(s, s, root, t, pos, 0, p)
    {}
  }

  /** Entry `n` was not valid: there is nothing below it. */
  lemma GoneSkip(s: Frames, s1: Frames, root: nat, t: nat, pos: Pos, n: nat)
    requires Inv(s1) && TablesGone(s, s1, root, t, pos, n) && TableAt(s1, root, t, pos) && n < 512 &&
               !Valid(Word(s1.m, t, n))
    ensures TablesGone(s, s1, root, t, pos, n + 1)
  {
    hide Valid, Index, InvBut;
    EmptyUnneeded(s1, t, n);
    forall p | p in s.use
      ensures GoneOrSame(s, s1, root, t, pos, n + 1, p)
    {
      assert GoneOrSame(s, s1, root, t, pos, n, p);
      assert !Needs(s1.use[p], root, pos, n);
    }
  }

  /** Entry `n` was valid: its subtree was freed and the entry cleared. */
  lemma GoneMore(s: Frames, s1: Frames, s2: Frames, root: nat, t: nat, pos: Pos, n: nat)
    requires TablesGone(s, s1, root, t, pos, n) && TableAt(s1, root, t, pos) && n < 512 && !pos.Low? && t in s2.m
    requires SubtreeFree(s1, s2, root, Below(pos, n))
    ensures TablesGone(s, Frames(Put(s2.m, t, n, 0), s2.use), root, t, pos, n + 1)
  {
    var s3 := Frames(Put(s2.m, t, n, 0), s2.use);
    forall p | p in s.use
      ensures GoneOrSame(s, s3, root, t, pos, n + 1, p)
    {
      assert GoneOrSame(s, s1, root, t, pos, n, p) && FreeOrSame(s1, s2, root, Below(pos, n), p);
    }
  }

  /** Only one page is the table at a position. */
  lemma OneTable(s: Frames, root: nat, pos: Pos, t: nat, t2: nat)
    requires Inv(s) && TableAt(s, root, t, pos) && TableAt(s, root, t2, pos)
    ensures t == t2
  {
    hide Valid, Frame, Leafy, Index, PageOf, Flat, EntryOk;
    assert UseOk(s, t) && UseOk(s, t2);
  }

  lemma AllGone(s: Frames, s1: Frames, s2: Frames, root: nat, t: nat, pos: Pos)
    requires Inv(s) && TableAt(s, root, t, pos) && TablesGone(s, s1, root, t, pos, 512)
    requires s2.use == s1.use[t := Free] && s2.use.Keys == s1.use.Keys && t in s2.m && t in s1.m &&
               s2.m == s1.m[t := s2.m[t]]
    ensures SubtreeFree(s, s2, root, pos)
  {
    hide Valid, Frame, Leafy, Index, PageOf, Flat, EntryOk;
    forall p | p in s.use
      ensures FreeOrSame(s, s2, root, pos, p)
    {
      assert GoneOrSame(s, s1, root, t, pos, 512, p);
      assert UseOk(s, p);
      if s.use[p] == Table(root, pos) { OneTable(s, root, pos, t, p); }
    }
  }

  /** What a partly freed subtree still is. */
  lemma StillThere(s: Frames, s1: Frames, root: nat, t: nat, pos: Pos, n: nat, par: nat, px: nat)
    requires TablesGone(s, s1, root, t, pos, n) && TableAt(s, root, t, pos)
    requires if pos.Top? then par == 0 else Parent(s, t, par, px)
    ensures TableAt(s1, root, t, pos) && (!pos.Top? ==> Parent(s1, t, par, px))
  {
    assert GoneOrSame(s, s1, root, t, pos, n, t);
    if !pos.Top? { assert GoneOrSame(s, s1, root, t, pos, n, par); }
  }

  lemma LeavesKept(s: Frames, s1: Frames, root: nat, t: nat, pos: Pos, n: nat)
    requires TablesGone(s, s1, root, t, pos, n) && NoLeaves(s, root) && TableAt(s, root, t, pos)
    requires pos.Low? ==> s1 == s
    ensures NoLeaves(s1, root)
  {
    hide Valid;
    forall t2 | Tables(s1, t2) && s1.use[t2].root == root && s1.use[t2].pos.Low?
      ensures NoEntries(s1, t2)
    {
      assert GoneOrSame(s, s1, root, t, pos, n, t2);
      if t2 != t {
        assert Tables(s, t2) && NoEntries(s, t2);
        forall x | 0 <= x < 512
          ensures !Valid(Word(s1.m, t2, x))
        {
          assert Word(s1.m, t2, x) == Word(s.m, t2, x);
        }
      }
    }
  }

  /** The child an entry of a table points at. */
  lemma ChildTable(s: Frames, root: nat, t: nat, pos: Pos, x: nat)
    requires Inv(s) && TableAt(s, root, t, pos) && x < 512 && Valid(Word(s.m, t, x)) && !pos.Low?
    ensures var c := Frame(Word(s.m, t, x));
              TableAt(s, root, c, Below(pos, x)) && Parent(s, c, t, x) && !Leafy(Word(s.m, t, x))
  {
    hide Valid, Frame, Leafy, Index, PageOf, Flat, UseOk;
    assert EntryOk(s, t, x);
  }

  /** After the child under entry `x` is freed, the entry is cleared. */
  lemma ChildCleared(s: Frames, s1: Frames, s2: Frames, root: nat, t: nat, pos: Pos, x: nat)
    requires TableAt(s1, root, t, pos) && !pos.Low? && x < 512 && s.use.Keys == s1.use.Keys
    requires SubtreeFree(s1, s2, root, Below(pos, x)) && InvBut(s2, t, x) && HoleOk(s2, t, x) && t != 0
    requires SameOthers(s, s1, root) && SameOthers(s1, s2, root) && FirstEmpty(s1, t, x)
    requires forall r :: IsRoot(s, r) ==> IsRoot(s1, r)
    ensures t in s2.m
    ensures var s3 := Frames(Put(s2.m, t, x, 0), s2.use);
            Inv(s3) && TableAt(s3, root, t, pos) && SameOthers(s, s3, root) && FirstEmpty(s3, t, x + 1)
  {
    hide Flat, Frame, Leafy, InvBut, Under;
    assert FreeOrSame(s1, s2, root, Below(pos, x), t) by { NotUnder(root, pos, x); }
    NotUnder(root, pos, x);
    ClearEntry(s2, t, x);
    var s3 := Frames(Put(s2.m, t, x, 0), s2.use);
    forall r, v: nat | IsRoot(s, r) && IsRoot(s3, r) && r != root && v < PAGES
      ensures Flat(s3.m, r, v) == Flat(s.m, r, v)
    {
      assert IsRoot(s1, r) && IsRoot(s2, r);
      assert !Passes(r, v, root, pos, x);
    }
    forall k | 0 <= k < x + 1
      ensures !Valid(Word(s3.m, t, k))
    {
      if k < x { assert Word(s3.m, t, k) == Word(s1.m, t, k); }
    }
  }

  lemma NotUnder(root: nat, pos: Pos, x: nat)
    requires !pos.Low?
    ensures !Under(Table(root, pos), root, Below(pos, x))
  {}

  lemma RootsStay(s: Frames, s1: Frames, root: nat, t: nat, pos: Pos, n: nat)
    requires TablesGone(s, s1, root, t, pos, n)
    ensures forall r :: IsRoot(s, r) ==> IsRoot(s1, r)
  {
    forall r | IsRoot(s, r)
      ensures IsRoot(s1, r)
    {
      assert GoneOrSame(s, s1, root, t, pos, n, r);
    }
  }

  lemma EmptyMore(s: Frames, t: nat, n: nat)
    requires n < 512 && FirstEmpty(s, t, n) && !Valid(Word(s.m, t, n))
    ensures FirstEmpty(s, t, n + 1)
  {}

  /** One round of the freewalk() loop. */
  method FreeEntry(mem: PhysMem, t: nat, i: nat, level: nat, ghost root: nat, ghost pos: Pos, ghost s: Frames)
    requires mem.Good() && TableAt(mem.S(), root, t, pos) && i < 512 && t != 0
    requires level == (if pos.Top? then 2 else if pos.Mid? then 1 else 0)
    requires TablesGone(s, mem.S(), root, t, pos, i) && SameOthers(s, mem.S(), root) && FirstEmpty(mem.S(), t, i)
    requires NoLeaves(mem.S(), root)
    modifies mem
    ensures mem.Good() && TableAt(mem.S(), root, t, pos)
    ensures TablesGone(s, mem.S(), root, t, pos, i + 1) && SameOthers(s, mem.S(), root) && FirstEmpty(mem.S(), t, i + 1)
    ensures pos.Low? ==> mem.S() == old(mem.S())
    decreases level, 0
  {
    hide InvBut, FreeList, Flat, Leafy, Frame, Valid, NoEntries, NoLeaves, Parent, SubtreeFree, TablesGone, SameOthers,
        Unneeded, FirstEmpty;
    ghost var s1 := mem.S();
    var pte := mem.m[t][i];
    if Valid(pte) {
      LowHasNone(s1, root, t, pos, i);
      ChildTable(s1, root, t, pos, i);
      RootsStay(s, s1, root, t, pos, i);
      assert s.use.Keys == s1.use.Keys by { GoneKeys(s, s1, root, t, pos, i); }
      Freewalk(mem, Frame(pte), level - 1, root, Below(pos, i), t, i);
      ghost var s2 := mem.S();
      ChildCleared(s, s1, s2, root, t, pos, i);
      GoneMore(s, s1, s2, root, t, pos, i);
      mem.m := Put(mem.m, t, i, 0);
      FreeKept(s2, mem.S(), mem.free);
    } else {
      GoneSkip(s, s1, root, t, pos, i);
      EmptyMore(s1, t, i);
    }
  }

  lemma GoneKeys(s: Frames, s1: Frames, root: nat, t: nat, pos: Pos, n: nat)
    requires TablesGone(s, s1, root, t, pos, n)
    ensures s.use.Keys == s1.use.Keys
  {}

  /** freewalk(): frees every page of the subtree of tables once, and nothing else.  Unless `t` is a root, the
      entry that leads to it is left for the caller to clear. */
  method Freewalk(mem: PhysMem, t: nat, level: nat, ghost root: nat, ghost pos: Pos, ghost par: nat, ghost px: nat)
    requires mem.Good() && TableAt(mem.S(), root, t, pos) && NoLeaves(mem.S(), root)
    requires level == (if pos.Top? then 2 else if pos.Mid? then 1 else 0)
    requires if pos.Top? then par == 0 else Parent(mem.S(), t, par, px)
    modifies mem
    ensures mem.ValidBut(par, px) && SubtreeFree(old(mem.S()), mem.S(), root, pos) &&
              SameOthers(old(mem.S()), mem.S(), root)
    decreases level, 1
  {
    hide InvBut, FreeList, Flat, Leafy, Frame, Valid, NoEntries, NoLeaves, Parent, SubtreeFree, TablesGone, SameOthers,
        HoleOk, FirstEmpty;
    ghost var s := mem.S();
    NoneGone(s, root, t, pos);
    SameOthersSelf(s, root);
    FirstNone(s, t);
    var i := 0;
    while i < 512
      invariant 0 <= i <= 512 && mem.Good() && TableAt(mem.S(), root, t, pos)
      invariant TablesGone(s, mem.S(), root, t, pos, i) && SameOthers(s, mem.S(), root) && FirstEmpty(mem.S(), t, i)
      invariant pos.Low? ==> mem.S() == s
    {
      LeavesKept(s, mem.S(), root, t, pos, i);
      FreeEntry(mem, t, i, level, root, pos, s);
      i := i + 1;
    }
    ghost var s1 := mem.S();
    StillThere(s, s1, root, t, pos, 512, par, px);
    AllEmpty(s1, t);
    DropTable(s1, t, par, px);
    mem.use := mem.use[t := Held];
    FreeKept(s1, mem.S(), mem.free);
    ghost var s2 := mem.S();
    mem.Kfree(t, par, px);
    AllGone(s, s1, mem.S(), root, t, pos);
    OthersAtEnd(s, s1, s2, mem.S(), root, t, pos, par, px);
  }

  lemma FirstNone(s: Frames, t: nat)
    ensures FirstEmpty(s, t, 0)
  {}

  lemma AllEmpty(s: Frames, t: nat)
    requires FirstEmpty(s, t, 512)
    ensures NoEntries(s, t)
  {}

  lemma OthersAtEnd(s: Frames, s1: Frames, s2: Frames, s3: Frames, root: nat, t: nat, pos: Pos, par: nat, px: nat)
    requires SameOthers(s, s1, root) && TablesGone(s, s1, root, t, pos, 512) && TableAt(s1, root, t, pos)
    requires if pos.Top? then par == 0 else Parent(s1, t, par, px)
    requires s2 == Frames(s1.m, s1.use[t := Held]) && SameBut(s2, s3, par, px) && s3.use == s2.use[t := Free] &&
               0 !in s2.use && Inv(s1)
    ensures SameOthers(s, s3, root)
  {
    hide Flat, InvBut, EntryOk;
    assert s1.use[t] == Table(root, pos);
    RootsStay(s, s1, root, t, pos, 512);
    forall r, v: nat | IsRoot(s, r) && IsRoot(s3, r) && r != root && v < PAGES
      ensures Flat(s3.m, r, v) == Flat(s.m, r, v)
    {
      assert IsRoot(s1, r) && IsRoot(s2, r);
      assert !ThroughHole(s2, par, px, r, v);
    }
  }

  lemma SameOthersSelf(s: Frames, root: nat)
    ensures SameOthers(s, s, root)
  {}

  ghost predicate FirstEmpty(s: Frames, t: nat, n: nat)
    requires n <= 512
  {
    forall x :: 0 <= x < n ==> !Valid(Word(s.m, t, x))
  }

  lemma LowHasNone(s: Frames, root: nat, t: nat, pos: Pos, x: nat)
    requires NoLeaves(s, root) && TableAt(s, root, t, pos) && x < 512 && Valid(Word(s.m, t, x))
    ensures !pos.Low?
  {}
}
