/** Whole address spaces: creating, freeing and forking them (kernel/vm.c, kernel/proc.c). */
module PtProc {
  import opened Params
  import opened PtLayout
  import opened PtMemory
  import opened PtSpaces

  /** A page that exists only for the address space of `root`. */
  ghost predicate Belongs(u: Use, root: nat) { (u.Table? && u.root == root) || (u.User? && u.root == root) }

  ghost predicate Kept(s: Frames, s': Frames, p: nat)
    requires p in s.use && p in s'.use
  {
    s'.use[p] == s.use[p] && (s.use[p].Held? || s.use[p].User? ==> p in s.m && p in s'.m && s'.m[p] == s.m[p])
  }

  /** The address space took free pages; no other page changed. */
  ghost predicate Adds(s: Frames, s': Frames, root: nat) {
    s'.use.Keys == s.use.Keys && forall p :: p in s.use ==> AddsAt(s, s', root, p)
  }

  ghost predicate AddsAt(s: Frames, s': Frames, root: nat, p: nat)
    requires p in s.use && p in s'.use
  {
    Kept(s, s', p) || (s.use[p].Free? && Belongs(s'.use[p], root))
  }

  /** Every page of the address space is free; no other page changed. */
  ghost predicate Removes(s: Frames, s': Frames, root: nat) {
    s'.use.Keys == s.use.Keys && forall p :: p in s.use ==> RemovesAt(s, s', root, p)
  }

  ghost predicate RemovesAt(s: Frames, s': Frames, root: nat, p: nat)
    requires p in s.use && p in s'.use
  {
    if Belongs(s.use[p], root) then s'.use[p].Free? else Kept(s, s', p)
  }

  /** Every page has the use and contents it had. */
  ghost predicate AllReturned(s: Frames, s': Frames) {
    s'.use == s.use && forall p :: p in s.use ==> Kept(s, s', p)
  }

  lemma AddsTwice(s: Frames, s1: Frames, s2: Frames, root: nat)
    requires Adds(s, s1, root) && Adds(s1, s2, root)
    ensures Adds(s, s2, root)
  {
    forall p | p in s.use
      ensures AddsAt(s, s2, root, p)
    {
      assert AddsAt(s, s1, root, p) && AddsAt(s1, s2, root, p);
    }
  }

  lemma TablesAdd(s: Frames, s1: Frames, root: nat)
    requires OnlyNewTables(s, s1, root)
    ensures Adds(s, s1, root)
  {
    forall p | p in s.use
      ensures AddsAt(s, s1, root, p)
    {
      assert TableOrSame(s, s1, root, p);
    }
  }

  /** What an address space took it gives back when it is freed. */
  lemma AddRemove(s: Frames, s1: Frames, s2: Frames, root: nat)
    requires Adds(s, s1, root) && Removes(s1, s2, root) && Inv(s) && !IsRoot(s, root)
    ensures AllReturned(s, s2)
  {
    hide InvBut;
    forall p | p in s.use
      ensures Kept(s, s2, p)
    {
      assert AddsAt(s, s1, root, p) && RemovesAt(s1, s2, root, p);
      NoPages(s, root, p);
    }
  }

  /** Without its root an address space has no pages. */
  lemma NoPages(s: Frames, root: nat, p: nat)
    requires Inv(s) && !IsRoot(s, root) && p in s.use
    ensures !Belongs(s.use[p], root)
  {
    hide Valid, Frame, Leafy, Index, PageOf, Flat, EntryOk;
    assert UseOk(s, p);
  }

  /** A blank page that is held becomes the root of an empty address space. */
  lemma MakeRoot(s: Frames, q: nat)
    requires Inv(s) && q in s.use && s.use[q] == Held && Blank(s.m[q])
    ensures var s' := Frames(s.m, s.use[q := Table(q, Top)]);
            Inv(s') && IsRoot(s', q) && (forall v: nat :: Flat(s'.m, q, v) == 0)
  {
    hide Leafy, Frame, Index, PageOf;
    var s' := Frames(s.m, s.use[q := Table(q, Top)]);
    forall p | p in s'.use
      ensures FrameOk(p) && UseOk(s', p)
    {
      assert UseOk(s, p);
    }
    forall t, x | Tables(s', t) && 0 <= x < 512
      ensures EntryOk(s', t, x)
    {
      if t != q { assert Tables(s, t) && EntryOk(s, t, x); }
    }
  }

  /** uvmcreate(): an empty page table. */
  method Uvmcreate(mem: PhysMem) returns (root: nat)
    requires mem.Good()
    modifies mem
    ensures mem.Good() && Adds(old(mem.S()), mem.S(), root) && SameOthers(old(mem.S()), mem.S(), root)
    ensures root == 0 ==> mem.S() == old(mem.S())
    ensures root != 0 ==>
              IsRoot(mem.S(), root) && !old(IsRoot(mem.S(), root)) && forall v: nat :: Flat(mem.m, root, v) == 0
    ensures root == 0 <==> old(mem.free) == []
    ensures root != 0 ==> |mem.free| == |old(mem.free)| - 1 && forall v: nat :: Missing(mem.m, root, v) == 2
  {
    hide InvBut, FreeList, Flat, Unneeded, Missing;
    ghost var s := mem.S();
    root := mem.AllocFilled(Zeros());
    if root != 0 {
      ghost var s1 := mem.S();
      MakeRoot(s1, root);
      mem.use := mem.use[root := Table(root, Top)];
      FreeKept(s1, mem.S(), mem.free);
      forall v: nat
        ensures Missing(mem.m, root, v) == 2
      {
        BlankRoot(mem.m, root, v);
      }
    }
    forall p | p in s.use
      ensures AddsAt(s, mem.S(), root, p)
    {}
  }

  /** Freeing user pages, then table pages, frees all that belongs to the address space. */
  lemma SpaceRemoved(s: Frames, s1: Frames, s2: Frames, root: nat, n: nat)
    requires Inv(s) && Inv(s1) && IsRoot(s, root) && UnmappedRange(s, s1, root, 0, n) && OnlyFreed(s, s1, root, 0, n) &&
               SubtreeFree(s1, s2, root, Top)
    requires forall v: nat :: v < PAGES ==> Flat(s1.m, root, v) == 0
    ensures Removes(s, s2, root)
  {
    hide Valid, Frame, Leafy, Index, PageOf, Flat, EntryOk, InvBut, UnmappedRange;
    forall p | p in s.use
      ensures RemovesAt(s, s2, root, p)
    {
      assert FreedOrSame(s, s1, root, 0, n, p) && FreeOrSame(s1, s2, root, Top, p);
      UserMapped(s1, p);
    }
  }

  lemma AllUnmapped(s: Frames, s1: Frames, root: nat, n: nat)
    requires IsRoot(s, root) && UnmappedRange(s, s1, root, 0, n) && OnlyFreed(s, s1, root, 0, n)
    requires forall v: nat :: n <= v < PAGES ==> Flat(s.m, root, v) == 0
    ensures IsRoot(s1, root) && forall v: nat :: v < PAGES ==> Flat(s1.m, root, v) == 0
  {
    hide Flat;
    FreedRoots(s, s1, root, 0, n, root);
  }

  lemma OthersKept(s: Frames, s1: Frames, s2: Frames, root: nat, n: nat)
    requires UnmappedRange(s, s1, root, 0, n) && OnlyFreed(s, s1, root, 0, n) && SameOthers(s1, s2, root)
    ensures SameOthers(s, s2, root)
  {
    hide Flat;
    forall r, v: nat | IsRoot(s, r) && IsRoot(s2, r) && r != root && v < PAGES
      ensures Flat(s2.m, r, v) == Flat(s.m, r, v)
    {
      FreedRoots(s, s1, root, 0, n, r);
    }
  }

  /** uvmfree(): frees every user page and every table page of an address space whose mappings are below `sz`. */
  method Uvmfree(mem: PhysMem, root: nat, sz: nat)
    requires mem.Good() && IsRoot(mem.S(), root) && sz <= TRAPFRAME
    requires forall v: nat :: PageCount(sz) <= v < PAGES ==> Flat(mem.m, root, v) == 0
    modifies mem
    ensures mem.Good() && Removes(old(mem.S()), mem.S(), root) && SameOthers(old(mem.S()), mem.S(), root)
  {
    hide InvBut, FreeList, Flat, HoleOk, UnmappedRange, OnlyFreed, SubtreeFree, SameOthers, NoLeaves, Removes;
    ghost var s := mem.S();
    UnmapNothing(s, root, 0);
    if sz > 0 {
      Uvmunmap(mem, root, 0, PageCount(sz), true);
    }
    ghost var s1 := mem.S();
    AllUnmapped(s, s1, root, PageCount(sz));
    NothingMapped(s1, root);
    Freewalk(mem, root, 2, root, Top, 0, 0);
    SpaceRemoved(s, s1, mem.S(), root, PageCount(sz));
    OthersKept(s, s1, mem.S(), root, PageCount(sz));
  }

  // --------------------------------------------------------- process page tables

  /** The only mappings at or above the trapframe page are the two the kernel put there. */
  ghost predicate OnlyBelow(s: Frames, root: nat, sz: nat) {
    forall v: nat :: PageCount(sz) <= v < USERTOP ==> Flat(s.m, root, v) == 0
  }

  /** Mapping a page above the user's memory takes table pages only. */
  lemma HighMapped(s: Frames, s1: Frames, root: nat, v0: nat, n: nat, pa: nat, flags: nat)
    requires MappedRange(s, s1, root, v0, n, pa, flags) && OnlyMapped(s, s1, root, v0, n, pa) && USERTOP <= v0 &&
               Inv(s1)
    requires IsRoot(s, root) && v0 + n <= PAGES
    ensures OnlyNewTables(s, s1, root) && SameOthers(s, s1, root) && IsRoot(s1, root)
    ensures forall v: nat :: v < PAGES && !(v0 <= v < v0 + n) ==> Flat(s1.m, root, v) == Flat(s.m, root, v)
  {
    hide Flat, Entry, InvBut;
    MapRoots(s, s1, root, v0, n, pa, root);
    forall p | p in s.use
      ensures TableOrSame(s, s1, root, p)
    {
      assert MapOrSame(s, s1, root, v0, n, pa, p);
      UserMapped(s1, p);
    }
  }

  lemma UnmappedHigh(s: Frames, s1: Frames, root: nat, v0: nat, n: nat)
    requires UnmappedRange(s, s1, root, v0, n) && OnlyFreed(s, s1, root, v0, n) && USERTOP <= v0 && Inv(s) &&
               IsRoot(s, root)
    ensures Adds(s, s1, root) && SameOthers(s, s1, root) && IsRoot(s1, root)
    ensures forall v: nat :: v < PAGES ==> Flat(s1.m, root, v) == if v0 <= v < v0 + n then 0 else Flat(s.m, root, v)
  {
    hide Flat, InvBut;
    FreedRoots(s, s1, root, v0, n, root);
    forall p | p in s.use
      ensures AddsAt(s, s1, root, p)
    {
      assert FreedOrSame(s, s1, root, v0, n, p);
      UserMapped(s, p);
    }
  }

  lemma OthersTwice(s: Frames, s1: Frames, s2: Frames, root: nat)
    requires SameOthers(s, s1, root) && SameOthers(s1, s2, root) && Adds(s, s1, root)
    ensures SameOthers(s, s2, root)
  {
    hide Flat;
    forall r, v: nat | IsRoot(s, r) && IsRoot(s2, r) && r != root && v < PAGES
      ensures Flat(s2.m, r, v) == Flat(s.m, r, v)
    {
      assert AddsAt(s, s1, root, r);
    }
  }

  /** One of the two fixed mappings of proc_pagetable(). */
  method MapFixed(mem: PhysMem, root: nat, va: nat, pa: nat, perm: nat) returns (ok: bool)
    requires mem.Good() && IsRoot(mem.S(), root) && (va == TRAMPOLINE || va == TRAPFRAME) && pa % PGSIZE == 0 &&
               perm < 1024 && Leafy(perm)
    requires Flat(mem.m, root, va / PGSIZE) == 0
    modifies mem
    ensures mem.Good() && IsRoot(mem.S(), root) && Adds(old(mem.S()), mem.S(), root) &&
              SameOthers(old(mem.S()), mem.S(), root)
    ensures forall v: nat :: v < PAGES && v != va / PGSIZE ==> Flat(mem.m, root, v) == Flat(old(mem.m), root, v)
    ensures Flat(mem.m, root, va / PGSIZE) == if ok then Entry(pa, WithV(perm)) else 0
    ensures ok <==> |old(mem.free)| >= Missing(old(mem.m), root, va / PGSIZE)
    ensures ok ==> |mem.free| == |old(mem.free)| - Missing(old(mem.m), root, va / PGSIZE)
  {
    hide InvBut, FreeList, Flat, HoleOk, Leafy, Entry, WithV, MappedRange, OnlyMapped, SameOthers, Adds, OnlyNewTables,
        Missing;
    ghost var s := mem.S();
    ghost var n: nat;
    var r;
    r, n := mem.Mappages(root, va, PGSIZE, pa, perm);
    HighMapped(s, mem.S(), root, va / PGSIZE, n, pa, WithV(perm));
    TablesAdd(s, mem.S(), root);
    FixedEntry(s, mem.S(), root, va / PGSIZE, n, pa, WithV(perm));
    ok := r == 0;
  }

  lemma FixedEntry(s: Frames, s1: Frames, root: nat, v0: nat, n: nat, pa: nat, flags: nat)
    requires MappedRange(s, s1, root, v0, n, pa, flags) && n <= 1 && IsRoot(s, root) && IsRoot(s1, root) && v0 < PAGES
    ensures Flat(s1.m, root, v0) == if n == 1 then Entry(pa, flags) else Flat(s.m, root, v0)
  {
    hide Flat, Entry;
  }

  /** The trampoline mapping goes, then whatever the table took is given back. */
  method DropEmpty(mem: PhysMem, root: nat, tramp: bool, ghost s: Frames)
    requires mem.Good() && Inv(s) && !IsRoot(s, root) && IsRoot(mem.S(), root) && Adds(s, mem.S(), root) &&
               SameOthers(s, mem.S(), root)
    requires forall v: nat :: v < PAGES && !(tramp && v == TRAMPOLINE / PGSIZE) ==> Flat(mem.m, root, v) == 0
    modifies mem
    ensures mem.Good() && AllReturned(s, mem.S()) && SameOthers(s, mem.S(), root)
  {
    hide InvBut, FreeList, Flat, HoleOk, SameOthers, Adds, Removes, UnmappedRange, OnlyFreed, AllReturned;
    if tramp {
      ghost var s1 := mem.S();
      Uvmunmap(mem, root, TRAMPOLINE, 1, false);
      UnmappedHigh(s1, mem.S(), root, TRAMPOLINE / PGSIZE, 1);
      AddsTwice(s, s1, mem.S(), root);
      OthersTwice(s, s1, mem.S(), root);
    }
    ghost var s2 := mem.S();
    Uvmfree(mem, root, 0);
    AddRemove(s, s2, mem.S(), root);
    OthersTwice(s, s2, mem.S(), root);
  }

  /** proc_pagetable(): a table with the trampoline and trapframe mapped and no user memory, or 0 with every page
      returned.  It takes three pages and fails exactly when there are fewer: the second mapping needs no table that the
      first did not bring, so it never fails. */
  method ProcPagetable(mem: PhysMem, trampoline: nat, trapframe: nat) returns (root: nat)
    requires mem.Good() && trampoline % PGSIZE == 0 && trapframe % PGSIZE == 0
    modifies mem
    ensures mem.Good() && SameOthers(old(mem.S()), mem.S(), root)
    ensures root == 0 ==> AllReturned(old(mem.S()), mem.S())
    ensures root == 0 <==> |old(mem.free)| < 3
    ensures root != 0 ==> |mem.free| == |old(mem.free)| - 3
    ensures root != 0 ==>
              IsRoot(mem.S(), root) && !old(IsRoot(mem.S(), root)) && Adds(old(mem.S()), mem.S(), root) &&
              OnlyBelow(mem.S(), root, 0)
    ensures root != 0 ==> Flat(mem.m, root, TRAMPOLINE / PGSIZE) == Entry(trampoline, WithV(PTE_R + PTE_X))
    ensures root != 0 ==> Flat(mem.m, root, TRAPFRAME / PGSIZE) == Entry(trapframe, WithV(PTE_R + PTE_W))
  {
    hide InvBut, FreeList, Flat, HoleOk, Entry, WithV, SameOthers, Adds, AllReturned, Missing;
    ghost var s := mem.S();
    NothingReturned(s);
    root := Uvmcreate(mem);
    if root == 0 { return; }
    ghost var s1 := mem.S();
    var ok := MapFixed(mem, root, TRAMPOLINE, trampoline, PTE_R + PTE_X);
    ghost var s2 := mem.S();
    AddsTwice(s, s1, s2, root);
    OthersTwice(s, s1, s2, root);
    if !ok {
      DropEmpty(mem, root, false, s);
      Reset(s, mem.S(), root);
      return 0;
    }
    ok := MapFixed(mem, root, TRAPFRAME, trapframe, PTE_R + PTE_W);
    AddsTwice(s, s2, mem.S(), root);
    OthersTwice(s, s2, mem.S(), root);
    if !ok {
      DropEmpty(mem, root, true, s);
      Reset(s, mem.S(), root);
      ghost var t := root;
      root := 0;
      TrampolineTables(s2.m, t, trampoline);
      return;
    }
    TrampolineTables(s2.m, root, trampoline);
  }

  /** The page of the trapframe has its entry in the same table as that of the trampoline. */
  lemma TrampolineTables(m: Memory, root: nat, trampoline: nat)
    requires Flat(m, root, TRAMPOLINE / PGSIZE) == Entry(trampoline, WithV(PTE_R + PTE_X))
    ensures Missing(m, root, TRAPFRAME / PGSIZE) == 0
  {
    hide Flat;
    NoneMissing(m, root, TRAMPOLINE / PGSIZE, TRAPFRAME / PGSIZE);
  }

  lemma NothingReturned(s: Frames)
    requires s.m.Keys == s.use.Keys
    ensures AllReturned(s, s)
  {}

  /** No page table has gone, so all mappings agree. */
  lemma Reset(s: Frames, s1: Frames, root: nat)
    requires AllReturned(s, s1) && SameOthers(s, s1, root) && !IsRoot(s, root)
    ensures SameMaps(s, s1) && forall r :: SameOthers(s, s1, r)
  {
    hide Flat;
  }

  // ---------------------------------------------------------- freeing and forking

  lemma RemovesAfter(s: Frames, s1: Frames, s2: Frames, root: nat)
    requires AllReturned(s, s1) && Removes(s1, s2, root)
    ensures Removes(s, s2, root)
  {
    forall p | p in s.use
      ensures RemovesAt(s, s2, root, p)
    {
      assert Kept(s, s1, p) && RemovesAt(s1, s2, root, p);
    }
  }

  lemma ReturnedTwice(s: Frames, s1: Frames, s2: Frames)
    requires AllReturned(s, s1) && AllReturned(s1, s2)
    ensures AllReturned(s, s2)
  {
    forall p | p in s.use
      ensures Kept(s, s2, p)
    {
      assert Kept(s, s1, p) && Kept(s1, s2, p);
    }
  }

  /** Dropping a kernel mapping frees nothing. */
  lemma HighReturned(s: Frames, s1: Frames, root: nat, v0: nat, n: nat)
    requires OnlyFreed(s, s1, root, v0, n) && USERTOP <= v0 && Inv(s)
    ensures AllReturned(s, s1)
  {
    hide Flat, InvBut;
    forall p | p in s.use
      ensures Kept(s, s1, p)
    {
      assert FreedOrSame(s, s1, root, v0, n, p);
      UserMapped(s, p);
    }
  }

  /** proc_freepagetable(): frees the user memory and tables of an address space; the trapframe and trampoline stay. */
  method ProcFreepagetable(mem: PhysMem, root: nat, sz: nat)
    requires mem.Good() && IsRoot(mem.S(), root) && sz <= TRAPFRAME && OnlyBelow(mem.S(), root, sz)
    modifies mem
    ensures mem.Good() && Removes(old(mem.S()), mem.S(), root) && SameOthers(old(mem.S()), mem.S(), root)
  {
    hide InvBut, FreeList, Flat, HoleOk, SameOthers, Adds, Removes, UnmappedRange, OnlyFreed, AllReturned;
    ghost var s := mem.S();
    Uvmunmap(mem, root, TRAMPOLINE, 1, false);
    ghost var s1 := mem.S();
    UnmappedHigh(s, s1, root, TRAMPOLINE / PGSIZE, 1);
    HighReturned(s, s1, root, TRAMPOLINE / PGSIZE, 1);
    Uvmunmap(mem, root, TRAPFRAME, 1, false);
    ghost var s2 := mem.S();
    UnmappedHigh(s1, s2, root, TRAPFRAME / PGSIZE, 1);
    HighReturned(s1, s2, root, TRAPFRAME / PGSIZE, 1);
    ReturnedTwice(s, s1, s2);
    AddsTwice(s, s1, s2, root);
    OthersTwice(s, s1, s2, root);
    Uvmfree(mem, root, sz);
    RemovesAfter(s, s2, mem.S(), root);
    OthersTwice(s, s2, mem.S(), root);
  }

  /** The memory fields of struct proc. */
  class Proc {
    var trapframe: nat
    var pagetable: nat
    var sz: nat

    /** A slot that is not in use holds no memory. */
    ghost predicate Empty()
      reads this
    {
      trapframe == 0 && pagetable == 0 && sz == 0
    }

    /** A process with its trapframe and an address space whose user memory is below `sz`. */
    ghost predicate Owns(s: Frames)
      reads this
    {
      HeldAt(s, trapframe) && IsRoot(s, pagetable) && sz <= TRAPFRAME && OnlyBelow(s, pagetable, sz)
    }
  }

  /** Everything a process adds: its trapframe and its address space. */
  ghost predicate AddsProc(s: Frames, s': Frames, tf: nat, root: nat) {
    && tf in s.use && s.use[tf].Free? && HeldAt(s', tf) && s'.use.Keys == s.use.Keys
    && forall p :: p in s.use && p != tf ==> AddsAt(s, s', root, p)
  }

  lemma AddsTrapframe(s: Frames, s1: Frames, s2: Frames, tf: nat, root: nat)
    requires tf in s.use && s.use[tf].Free? && s1.use == s.use[tf := Held] && s1.m.Keys == s1.use.Keys &&
               s.m.Keys == s.use.Keys
    requires s1.m == s.m[tf := s1.m[tf]] && Adds(s1, s2, root)
    ensures AddsProc(s, s2, tf, root)
  {
    assert AddsAt(s1, s2, root, tf);
    forall p | p in s.use && p != tf
      ensures AddsAt(s, s2, root, p)
    {
      assert AddsAt(s1, s2, root, p);
    }
  }

  lemma AddsProcMore(s: Frames, s1: Frames, s2: Frames, tf: nat, root: nat)
    requires AddsProc(s, s1, tf, root) && Adds(s1, s2, root)
    ensures AddsProc(s, s2, tf, root)
  {
    assert AddsAt(s1, s2, root, tf);
    forall p | p in s.use && p != tf
      ensures AddsAt(s, s2, root, p)
    {
      assert AddsAt(s, s1, root, p) && AddsAt(s1, s2, root, p);
    }
  }

  /** The trapframe and every page of the address space are free; no other page changed. */
  ghost predicate RemovesProc(s: Frames, s': Frames, tf: nat, root: nat) {
    && s'.use.Keys == s.use.Keys
    && forall p :: p in s.use ==> if p == tf || Belongs(s.use[p], root) then s'.use[p].Free? else Kept(s, s', p)
  }

  /** A process that gives back its trapframe and its address space leaves every page as before it. */
  lemma ProcReturned(s: Frames, s1: Frames, s2: Frames, tf: nat, root: nat)
    requires AddsProc(s, s1, tf, root) && Inv(s) && !IsRoot(s, root) && RemovesProc(s1, s2, tf, root)
    ensures AllReturned(s, s2)
  {
    hide InvBut;
    forall p | p in s.use
      ensures Kept(s, s2, p)
    {
      if p != tf { assert AddsAt(s, s1, root, p); }
      NoPages(s, root, p);
    }
  }

  lemma TrapframeFreed(s: Frames, s1: Frames, s2: Frames, tf: nat, root: nat)
    requires s.m.Keys == s.use.Keys
    requires if tf == 0 then s1 == s && 0 !in s.use
               else HeldAt(s, tf) && s1.use == s.use[tf := Free] && tf in s1.m && s1.m == s.m[tf := s1.m[tf]]
    requires Removes(s1, s2, root)
    ensures RemovesProc(s, s2, tf, root)
  {
    forall p | p in s.use
      ensures if p == tf || Belongs(s.use[p], root) then s2.use[p].Free? else Kept(s, s2, p)
    {
      assert RemovesAt(s1, s2, root, p);
    }
  }

  lemma NoSpaceZero(s: Frames)
    requires Inv(s) && 0 !in s.use && s.m.Keys == s.use.Keys
    ensures Removes(s, s, 0)
  {
    hide InvBut;
    forall p | p in s.use
      ensures RemovesAt(s, s, 0, p)
    {
      NoPages(s, 0, p);
    }
  }

  /** freeproc(): the slot is empty again, and exactly its trapframe and its address space are freed. */
  method Freeproc(mem: PhysMem, p: Proc)
    requires mem.Good() && (p.trapframe == 0 || HeldAt(mem.S(), p.trapframe))
    requires p.pagetable == 0 ||
               (IsRoot(mem.S(), p.pagetable) && p.sz <= TRAPFRAME && OnlyBelow(mem.S(), p.pagetable, p.sz))
    modifies mem, p
    ensures mem.Good() && p.Empty() && RemovesProc(old(mem.S()), mem.S(), old(p.trapframe), old(p.pagetable))
    ensures SameOthers(old(mem.S()), mem.S(), old(p.pagetable))
  {
    hide InvBut, FreeList, Flat, HoleOk, SameOthers, Removes, RemovesProc;
    ghost var s, tf, root := mem.S(), p.trapframe, p.pagetable;
    SameOthersSelf(s, root);
    if p.trapframe != 0 {
      mem.Kfree(p.trapframe, 0, 0);
      OthersOfSame(s, mem.S(), root);
    }
    ghost var s1 := mem.S();
    p.trapframe := 0;
    if p.pagetable != 0 {
      BelowKept(s, s1, root, p.sz, tf);
      ProcFreepagetable(mem, p.pagetable, p.sz);
      OthersThen(s, s1, mem.S(), tf, root);
    } else {
      NoSpaceZero(s1);
    }
    TrapframeFreed(s, s1, mem.S(), tf, root);
    p.pagetable := 0;
    p.sz := 0;
  }

  lemma OthersOfSame(s: Frames, s1: Frames, root: nat)
    requires SameMaps(s, s1)
    ensures SameOthers(s, s1, root)
  {
    hide Flat;
  }

  lemma OthersThen(s: Frames, s1: Frames, s2: Frames, tf: nat, root: nat)
    requires SameOthers(s, s1, root) && SameOthers(s1, s2, root)
    requires s1.use == s.use || (HeldAt(s, tf) && s1.use == s.use[tf := Free])
    ensures SameOthers(s, s2, root)
  {
    hide Flat;
    forall r, v: nat | IsRoot(s, r) && IsRoot(s2, r) && r != root && v < PAGES
      ensures Flat(s2.m, r, v) == Flat(s.m, r, v)
    {
      assert IsRoot(s1, r);
    }
  }

  lemma BelowKept(s: Frames, s1: Frames, root: nat, sz: nat, tf: nat)
    requires s1 == s || SameMaps(s, s1)
    requires s1.use == s.use || (HeldAt(s, tf) && s1.use == s.use[tf := Free])
    requires IsRoot(s, root) && OnlyBelow(s, root, sz)
    ensures IsRoot(s1, root) && OnlyBelow(s1, root, sz)
  {
    hide Flat;
    assert IsRoot(s1, root);
  }

  /** The memory side of allocproc(): a trapframe and an empty address space, or nothing at all, exactly when there are
      fewer than four free pages. */
  method Allocproc(mem: PhysMem, np: Proc, trampoline: nat) returns (ok: bool)
    requires mem.Good() && np.Empty() && trampoline % PGSIZE == 0
    modifies mem, np
    ensures mem.Good()
    ensures !ok ==> np.Empty() && AllReturned(old(mem.S()), mem.S()) && SameMaps(old(mem.S()), mem.S())
    ensures (ok <==> |old(mem.free)| >= 4) && (ok ==> |mem.free| == |old(mem.free)| - 4)
    ensures ok ==> np.Owns(mem.S()) && np.sz == 0 && !IsRoot(old(mem.S()), np.pagetable)
    ensures ok ==>
              AddsProc(old(mem.S()), mem.S(), np.trapframe, np.pagetable) &&
              SameOthers(old(mem.S()), mem.S(), np.pagetable)
  {
    hide InvBut, FreeList, Flat, HoleOk, SameOthers, RemovesProc, AddsProc, Adds, AllReturned, SameMaps, Entry, WithV;
    ghost var s := mem.S();
    np.trapframe := mem.Kalloc();
    ghost var s1, tf := mem.S(), np.trapframe;
    if np.trapframe == 0 {
      Freeproc(mem, np);
      FreedNothing(s, mem.S());
      return false;
    }
    np.pagetable := ProcPagetable(mem, trampoline, np.trapframe);
    ghost var s2 := mem.S();
    if np.pagetable == 0 {
      SameUses(s1, s2);
      Freeproc(mem, np);
      FreedTrapframe(s, s1, s2, mem.S(), tf);
      return false;
    }
    ok := true;
    AddsTrapframe(s, s1, s2, tf, np.pagetable);
    AddedHeld(s, s2, tf, np.pagetable);
    OthersOfSame(s, s1, np.pagetable);
    OthersFrom(s, s1, s2, tf, np.pagetable);
  }

  lemma FreedNothing(s: Frames, s1: Frames)
    requires Inv(s) && 0 !in s.use && RemovesProc(s, s1, 0, 0) && SameOthers(s, s1, 0)
    ensures AllReturned(s, s1) && SameMaps(s, s1)
  {
    hide Flat, InvBut;
    forall p | p in s.use
      ensures Kept(s, s1, p)
    {
      NoPages(s, 0, p);
    }
  }

  lemma SameUses(s: Frames, s1: Frames)
    requires AllReturned(s, s1)
    ensures s1.use == s.use
  {}

  lemma FreedTrapframe(s: Frames, s1: Frames, s2: Frames, s3: Frames, tf: nat)
    requires Inv(s) && 0 !in s.use && s.m.Keys == s.use.Keys && tf in s.use && s.use[tf].Free?
    requires s1.use == s.use[tf := Held] && tf in s1.m && s1.m == s.m[tf := s1.m[tf]] && SameMaps(s, s1)
    requires AllReturned(s1, s2) && SameOthers(s1, s2, 0) && RemovesProc(s2, s3, tf, 0) && SameOthers(s2, s3, 0)
    ensures AllReturned(s, s3) && SameMaps(s, s3)
  {
    hide Flat, InvBut;
    forall p | p in s.use
      ensures Kept(s, s3, p)
    {
      assert Kept(s1, s2, p);
      NoPages(s, 0, p);
    }
    forall r, v: nat | IsRoot(s, r) && IsRoot(s3, r) && v < PAGES
      ensures Flat(s3.m, r, v) == Flat(s.m, r, v)
    {
      assert IsRoot(s1, r) && IsRoot(s2, r) && r != 0;
    }
  }

  lemma AddedHeld(s: Frames, s1: Frames, tf: nat, root: nat)
    requires AddsProc(s, s1, tf, root)
    ensures HeldAt(s1, tf)
  {}

  lemma OthersFrom(s: Frames, s1: Frames, s2: Frames, tf: nat, root: nat)
    requires SameOthers(s, s1, root) && SameOthers(s1, s2, root)
    requires tf in s.use && s.use[tf].Free? && s1.use == s.use[tf := Held]
    ensures SameOthers(s, s2, root) && (IsRoot(s, root) <==> IsRoot(s1, root))
  {
    hide Flat;
    forall r, v: nat | IsRoot(s, r) && IsRoot(s2, r) && r != root && v < PAGES
      ensures Flat(s2.m, r, v) == Flat(s.m, r, v)
    {
      assert IsRoot(s1, r);
    }
  }

  /** Page `v` of the child is a copy of the parent's: unmapped if that was, else the same flags and bytes in a frame of
      its own. */
  ghost predicate CopiedAt(s: Frames, s': Frames, parent: nat, child: nat, v: nat) {
    var e := Flat(s.m, parent, v);
    if e == 0 then Flat(s'.m, child, v) == 0
    else FreshCopy(s, s', Flat(s'.m, child, v), Want(Flags(e), PageAt(s.m, Frame(e))))
  }

  lemma CopiedFrom(s: Frames, s1: Frames, s2: Frames, tf: nat, parent: nat, child: nat, n: nat, v: nat)
    requires Inv(s) && IsRoot(s, parent) && !IsRoot(s, child) && AddsProc(s, s1, tf, child) && SameOthers(s, s1, child)
    requires IsRoot(s1, child) && NewPages(s1, s2, child, Copies(s1.m, parent, n)) && v < n <= USERTOP &&
               OnlyBelow(s1, child, 0)
    ensures CopiedAt(s, s2, parent, child, v)
  {
    hide Flat, Frame, Valid, Leafy, Flags, InvBut;
    assert AddsAt(s, s1, child, parent);
    NewRoots(s1, s2, child, Copies(s1.m, parent, n), child);
    assert NewAt(s1, s2, child, Copies(s1.m, parent, n), child, v);
    var e := Flat(s.m, parent, v);
    if e != 0 {
      UserBehind(s, parent, v);
      assert AddsAt(s, s1, child, Frame(e));
      var f := Frame(Flat(s2.m, child, v));
      if f != tf { assert AddsAt(s, s1, child, f); }
    }
  }

  /** The child maps nothing above the parent's size. */
  lemma CopiedBelow(s1: Frames, s2: Frames, parent: nat, child: nat, sz: nat)
    requires IsRoot(s1, child) && NewPages(s1, s2, child, Copies(s1.m, parent, PageCount(sz))) &&
               OnlyBelow(s1, child, 0) && sz <= TRAPFRAME
    ensures IsRoot(s2, child) && OnlyBelow(s2, child, sz)
  {
    hide Flat, Frame, Flags;
    NewRoots(s1, s2, child, Copies(s1.m, parent, PageCount(sz)), child);
    forall v: nat | PageCount(sz) <= v < USERTOP
      ensures Flat(s2.m, child, v) == 0
    {
      assert NewAt(s1, s2, child, Copies(s1.m, parent, PageCount(sz)), child, v);
    }
  }

  lemma PagesAdd(s: Frames, s1: Frames, root: nat, want: map<nat, Want>)
    requires NewPages(s, s1, root, want)
    ensures Adds(s, s1, root) && SameOthers(s, s1, root)
  {
    hide Flat;
    forall p | p in s.use
      ensures AddsAt(s, s1, root, p)
    {
      assert NewOrSame(s, s1, root, want, p);
    }
    forall r, v: nat | IsRoot(s, r) && IsRoot(s1, r) && r != root && v < PAGES
      ensures Flat(s1.m, r, v) == Flat(s.m, r, v)
    {
      assert NewAt(s, s1, root, want, r, v);
    }
  }

  lemma OthersOnward(s: Frames, s1: Frames, s2: Frames, tf: nat, root: nat)
    requires AddsProc(s, s1, tf, root) && SameOthers(s, s1, root) && SameOthers(s1, s2, root)
    ensures SameOthers(s, s2, root)
  {
    hide Flat;
    forall r, v: nat | IsRoot(s, r) && IsRoot(s2, r) && r != root && v < PAGES
      ensures Flat(s2.m, r, v) == Flat(s.m, r, v)
    {
      if r != tf { assert AddsAt(s, s1, root, r); }
    }
  }

  /** The memory side of kfork(): either the child has a copy of the parent's memory, or every page is as it was.  It
      takes four pages and one to three for each mapped one, and fails only when they are not there. */
  method Kfork(mem: PhysMem, p: Proc, np: Proc, trampoline: nat) returns (r: int)
    requires mem.Good() && p != np && np.Empty() && trampoline % PGSIZE == 0
    requires IsRoot(mem.S(), p.pagetable) && p.sz <= TRAPFRAME
    modifies mem, np
    ensures mem.Good() && (r == 0 || r == -1)
    ensures r == -1 ==> np.Empty() && AllReturned(old(mem.S()), mem.S()) && SameMaps(old(mem.S()), mem.S())
    ensures r == -1 ==> |old(mem.free)| < 4 + 3 * MappedBelow(old(mem.m), p.pagetable, PageCount(p.sz))
    ensures r == 0 ==> Spent(|old(mem.free)| - 4, |mem.free|, MappedBelow(old(mem.m), p.pagetable, PageCount(p.sz)))
    ensures r == 0 ==> np.Owns(mem.S()) && np.sz == p.sz && !IsRoot(old(mem.S()), np.pagetable)
    ensures r == 0 ==>
              forall v: nat :: v < PageCount(p.sz) ==> CopiedAt(old(mem.S()), mem.S(), p.pagetable, np.pagetable, v)
    ensures r == 0 ==>
              AddsProc(old(mem.S()), mem.S(), np.trapframe, np.pagetable) &&
              SameOthers(old(mem.S()), mem.S(), np.pagetable)
  {
    hide InvBut, FreeList, Flat, HoleOk, SameOthers, RemovesProc, AddsProc, Adds, AllReturned, SameMaps, OnlyBelow,
        NewPages, OnlyNewTables, CopiedAt, MappedBelow, PageCount;
    ghost var s := mem.S();
    var ok := Allocproc(mem, np, trampoline);
    if !ok { return -1; }
    ghost var s1, tf, child := mem.S(), np.trapframe, np.pagetable;
    ParentStays(s, s1, tf, child, p.pagetable);
    PageBelow(0, p.sz);
    ParentMapped(s, s1, p.pagetable, child, PageCount(p.sz));
    NothingBelow0(s1, child, PageCount(p.sz));
    r := Uvmcopy(mem, p.pagetable, np.pagetable, p.sz);
    ghost var s2 := mem.S();
    if r < 0 {
      TablesAdd(s1, s2, child);
      AddsProcMore(s, s1, s2, tf, child);
      AddedHeld(s, s2, tf, child);
      BelowSame(s1, s2, child);
      OthersOfSame(s1, s2, child);
      OthersOnward(s, s1, s2, tf, child);
      Freeproc(mem, np);
      ProcReturned(s, s2, mem.S(), tf, child);
      OthersOnward(s, s2, mem.S(), tf, child);
      Reset(s, mem.S(), child);
      return -1;
    }
    np.sz := p.sz;
    PagesAdd(s1, s2, child, Copies(s1.m, p.pagetable, PageCount(p.sz)));
    AddsProcMore(s, s1, s2, tf, child);
    AddedHeld(s, s2, tf, child);
    OthersOnward(s, s1, s2, tf, child);
    CopiedBelow(s1, s2, p.pagetable, child, p.sz);
    forall v: nat | v < PageCount(p.sz)
      ensures CopiedAt(s, s2, p.pagetable, child, v)
    {
      CopiedFrom(s, s1, s2, tf, p.pagetable, child, PageCount(p.sz), v);
    }
  }

  lemma ParentStays(s: Frames, s1: Frames, tf: nat, root: nat, parent: nat)
    requires AddsProc(s, s1, tf, root) && IsRoot(s, parent)
    ensures IsRoot(s1, parent)
  {
    assert AddsAt(s, s1, root, parent);
  }

  /** The new process does not change how much of the parent is mapped. */
  lemma ParentMapped(s: Frames, s1: Frames, parent: nat, child: nat, n: nat)
    requires IsRoot(s, parent) && IsRoot(s1, parent) && parent != child && SameOthers(s, s1, child) && n <= USERTOP
    ensures MappedBelow(s1.m, parent, n) == MappedBelow(s.m, parent, n)
  {
    hide Flat, MappedBelow;
    MappedSame(s.m, s1.m, parent, n);
  }

  lemma NothingBelow0(s: Frames, root: nat, n: nat)
    requires OnlyBelow(s, root, 0) && n <= USERTOP
    ensures forall v: nat :: v < n ==> Flat(s.m, root, v) == 0
  {}

  lemma BelowSame(s: Frames, s1: Frames, root: nat)
    requires SameMaps(s, s1) && OnlyNewTables(s, s1, root) && IsRoot(s, root) && OnlyBelow(s, root, 0)
    ensures IsRoot(s1, root) && OnlyBelow(s1, root, 0)
  {
    hide Flat;
    RootsKept(s, s1, root, root);
  }
}
