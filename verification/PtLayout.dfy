/** Sv39 page tables as kernel/vm.c builds them, over physical pages as kernel/kalloc.c hands
    them out (section 4.4 of the RISC-V Privileged Architecture, 20211203).

    Memory maps each page frame to 512 words.  The ghost map `use` gives every frame exactly
    one use; the invariant ties each use to the memory words that realise it. */
module PtLayout {
  import opened Params

  const PAGES: nat := MAXVA / PGSIZE         // virtual pages walk() accepts
  const USERTOP: nat := TRAPFRAME / PGSIZE   // pages below this are user memory

  type Page = p: seq<nat> | |p| == 512 witness seq(512, _ => 0)
  type Memory = map<nat, Page>

  // ------------------------------------------------------- page table entries

  predicate Valid(e: nat) { e % 2 == 1 }                 // PTE_V
  predicate Leafy(e: nat) { e / 2 % 8 != 0 }             // PTE_R | PTE_W | PTE_X
  function Frame(e: nat): nat { e / 1024 * PGSIZE }      // PTE2PA
  function Flags(e: nat): nat { e % 1024 }               // PTE_FLAGS
  function Entry(pa: nat, flags: nat): nat { pa / PGSIZE * 1024 + flags } // PA2PTE(pa) | flags
  function WithV(perm: nat): nat { if perm % 2 == 1 then perm else perm + 1 } // perm | PTE_V

  lemma By2(a: nat, k: nat, r: nat)
    requires a == 2 * k + r && r < 2
    ensures a / 2 == k && a % 2 == r
  {}

  lemma By8(a: nat, k: nat, r: nat)
    requires a == 8 * k + r && r < 8
    ensures a % 8 == r
  {}

  /** The valid bit and the permission bits are among the ten flag bits. */
  lemma LowBits(e: nat, q: nat, f: nat)
    requires e == q * 1024 + f && f < 1024
    ensures Valid(e) == Valid(f) && Leafy(e) == Leafy(f)
  {
    By2(e, q * 512 + f / 2, f % 2);
    By8(q * 512 + f / 2, q * 64 + f / 2 / 8, f / 2 % 8);
  }

  /** Encoding a page address and flags and decoding them again. */
  lemma EntryRoundTrip(pa: nat, flags: nat)
    requires pa % PGSIZE == 0 && flags < 1024
    ensures Frame(Entry(pa, flags)) == pa && Flags(Entry(pa, flags)) == flags
    ensures Valid(Entry(pa, flags)) == Valid(flags) && Leafy(Entry(pa, flags)) == Leafy(flags)
  {
    hide Valid, Leafy;
    LowBits(Entry(pa, flags), pa / PGSIZE, flags);
  }

  // ----------------------------------------------------------- virtual pages

  /** PX(level, va), for the page number va / PGSIZE. */
  function Index(level: nat, vpn: nat): (x: nat)
    requires level <= 2
    ensures x < 512
  {
    if level == 2 then vpn / 0x4_0000 % 512 else if level == 1 then vpn / 0x200 % 512 else vpn % 512
  }

  function PageOf(i: nat, j: nat, k: nat): nat { i * 0x4_0000 + j * 0x200 + k }

  /** Distinct pages below MAXVA have distinct index triples. */
  lemma IndexRoundTrip(vpn: nat)
    requires vpn < PAGES
    ensures PageOf(Index(2, vpn), Index(1, vpn), Index(0, vpn)) == vpn
  {
    var q := vpn / 0x200;
    assert q / 0x200 == vpn / 0x4_0000;
    assert q == q / 0x200 * 0x200 + q % 0x200 && vpn == q * 0x200 + vpn % 0x200;
  }

  /** Only the lower half of a root table is reached below MAXVA. */
  lemma TopHalf(vpn: nat)
    requires vpn < PAGES
    ensures Index(2, vpn) < 256
  {}

  lemma PageOfRoundTrip(i: nat, j: nat, k: nat)
    requires i < 512 && j < 512 && k < 512
    ensures Index(2, PageOf(i, j, k)) == i && Index(1, PageOf(i, j, k)) == j && Index(0, PageOf(i, j, k)) == k
  {
    var v := PageOf(i, j, k);
    assert v / 0x200 == i * 0x200 + j;
    assert v / 0x4_0000 == i;
  }

  // ------------------------------------------------------------ use of frames

  /** Where a page-table page sits in its tree. */
  datatype Pos = Top | Mid(i: nat) | Low(i: nat, j: nat)

  /** What a page frame is used for.  Held: taken from kalloc() and not (yet) in a page table. */
  datatype Use = Free | Held | Table(root: nat, pos: Pos) | User(root: nat, vpn: nat)

  datatype Frames = Frames(m: Memory, use: map<nat, Use>)

  function Word(m: Memory, t: nat, x: nat): nat
    requires x < 512
  {
    if t in m then m[t][x] else 0
  }

  /** walk() without allocation, followed to the leaf: the valid entry for a page, or 0. */
  function Flat(m: Memory, root: nat, vpn: nat): nat {
    var e2 := Word(m, root, Index(2, vpn));
    if !Valid(e2) then 0 else
      var e1 := Word(m, Frame(e2), Index(1, vpn));
      if !Valid(e1) then 0 else
        var e0 := Word(m, Frame(e1), Index(0, vpn));
        if Valid(e0) then e0 else 0
  }

  ghost predicate Tables(s: Frames, t: nat) { t in s.use && s.use[t].Table? }

  /** The use that a valid entry `x` of table `t` gives to the frame it points at. */
  ghost predicate EntryOk(s: Frames, t: nat, x: nat)
    requires Tables(s, t) && x < 512
  {
    var e := Word(s.m, t, x);
    var r := s.use[t].root;
    Valid(e) ==>
      match s.use[t].pos
      case Top => !Leafy(e) && Frame(e) in s.use && s.use[Frame(e)] == Table(r, Mid(x))
      case Mid(i) => !Leafy(e) && Frame(e) in s.use && s.use[Frame(e)] == Table(r, Low(i, x))
      case Low(i, j) =>
          Leafy(e) && (PageOf(i, j, x) < USERTOP ==> Frame(e) in s.use && s.use[Frame(e)] == User(r, PageOf(i, j, x)))
  }

  /** A frame is used as recorded: the one entry that should point at it does. */
  ghost predicate UseOk(s: Frames, p: nat)
    requires p in s.use
  {
    match s.use[p]
    case Free => true
    case Held => true
    case Table(r, Top) => p == r
    case Table(r, Mid(i)) => i < 256 && r in s.use && s.use[r] == Table(r, Top) && Points(s.m, r, i, p)
    case Table(r, Low(i, j)) =>
      i < 256 && j < 512 && r in s.use && s.use[r] == Table(r, Top) && Valid(Word(s.m, r, i))
      && Points(s.m, Frame(Word(s.m, r, i)), j, p)
    case User(r, v) =>
        v < USERTOP && r in s.use && s.use[r] == Table(r, Top) && Valid(Flat(s.m, r, v)) && Frame(Flat(s.m, r, v)) == p
  }

  ghost predicate Points(m: Memory, t: nat, x: nat, p: nat)
    requires x < 512
  {
    Valid(Word(m, t, x)) && Frame(Word(m, t, x)) == p
  }

  ghost predicate FrameOk(p: nat) { p > 0 && p % PGSIZE == 0 }

  /** The invariant; entry `hx` of table `ht` is exempt while its child is being torn down. */
  ghost predicate InvBut(s: Frames, ht: nat, hx: nat) {
    && s.m.Keys == s.use.Keys
    && (forall p :: p in s.use ==> FrameOk(p) && UseOk(s, p))
    && (forall t, x :: Tables(s, t) && 0 <= x < 512 && !(t == ht && x == hx) ==> EntryOk(s, t, x))
  }

  ghost predicate Inv(s: Frames) { InvBut(s, 0, 0) }

  // -------------------------------------------------- what passes through an entry

  /** The lookup of page `v` from `root` reads entry `x` of the table at `pos` of `r`. */
  ghost predicate Passes(root: nat, v: nat, r: nat, pos: Pos, x: nat) {
    && root == r
    && match pos
       case Top => Index(2, v) == x
       case Mid(i) => Index(2, v) == i && Index(1, v) == x
       case Low(i, j) => Index(2, v) == i && Index(1, v) == j && Index(0, v) == x
  }

  /** A use that entry `x` of the table at `pos` of `r` helps to realise. */
  ghost predicate Needs(u: Use, r: nat, pos: Pos, x: nat) {
    match u
    case Free => false
    case Held => false
    case User(root, v) => Passes(root, v, r, pos, x)
    case Table(root, Top) => false
    case Table(root, Mid(i)) => root == r && pos == Top && i == x
    case Table(root, Low(i, j)) => root == r && ((pos == Top && i == x) || (pos == Mid(i) && j == x))
  }

  /** Nothing uses the entry: it may be cleared or filled. */
  ghost predicate Unneeded(s: Frames, t: nat, x: nat)
    requires Tables(s, t)
  {
    forall p :: p in s.use ==> !Needs(s.use[p], s.use[t].root, s.use[t].pos, x)
  }

  function Put(m: Memory, t: nat, x: nat, e: nat): Memory
    requires t in m && x < 512
  {
    m[t := m[t][x := e]]
  }

  ghost predicate IsRoot(s: Frames, r: nat) { r in s.use && s.use[r] == Table(r, Top) }

  /** A lookup from a root goes through tables recorded as such. */
  lemma PathTables(s: Frames, ht: nat, hx: nat, r: nat, v: nat)
    requires InvBut(s, ht, hx) && IsRoot(s, r)
    ensures !(r == ht && Index(2, v) == hx) ==>
              var e2 := Word(s.m, r, Index(2, v));
              Valid(e2) ==> Frame(e2) in s.use && s.use[Frame(e2)] == Table(r, Mid(Index(2, v))) &&
                            (!(Frame(e2) == ht && Index(1, v) == hx) ==>
                               var e1 := Word(s.m, Frame(e2), Index(1, v));
                               Valid(e1) ==>
                                   Frame(e1) in s.use && s.use[Frame(e1)] == Table(r, Low(Index(2, v), Index(1, v))))
  {
    hide Valid, Leafy, Frame, Index, PageOf, UseOk;
    if !(r == ht && Index(2, v) == hx) {
      assert Tables(s, r) && EntryOk(s, r, Index(2, v));
      var e2 := Word(s.m, r, Index(2, v));
      if Valid(e2) {
        var t1 := Frame(e2);
        if !(t1 == ht && Index(1, v) == hx) {
          assert Tables(s, t1) && EntryOk(s, t1, Index(1, v));
        }
      }
    }
  }

  /** Writing one entry of one table leaves alone every lookup that does not read it. */
  lemma FlatOther(s: Frames, ht: nat, hx: nat, t: nat, x: nat, e: nat, r: nat, v: nat)
    requires InvBut(s, ht, hx) && IsRoot(s, r) && Tables(s, t) && x < 512
    requires !Passes(r, v, s.use[t].root, s.use[t].pos, x)
    requires (t == ht && x == hx) || ht == 0
    ensures t in s.m && Flat(Put(s.m, t, x, e), r, v) == Flat(s.m, r, v)
  {
    hide Valid, Leafy, Frame, Index, PageOf, EntryOk;
    assert UseOk(s, t) && UseOk(s, r);
    PathTables(s, ht, hx, r, v);
  }

  /** An entry that is not valid is used by nothing. */
  lemma EmptyUnneeded(s: Frames, t: nat, x: nat)
    requires Inv(s) && Tables(s, t) && x < 512 && !Valid(Word(s.m, t, x))
    ensures Unneeded(s, t, x)
  {
    hide Leafy, Frame, Index, PageOf, EntryOk;
    assert UseOk(s, t);
    forall p | p in s.use
      ensures !Needs(s.use[p], s.use[t].root, s.use[t].pos, x)
    {
      assert UseOk(s, p);
    }
  }

  /** Mappings agree for every root and page. */
  ghost predicate SameMaps(s: Frames, s': Frames) {
    forall r, v: nat :: IsRoot(s, r) && IsRoot(s', r) && v < PAGES ==> Flat(s'.m, r, v) == Flat(s.m, r, v)
  }

  /** Mappings agree except that page `vpn` of `root` is now mapped by `e`. */
  ghost predicate Remapped(s: Frames, s': Frames, root: nat, vpn: nat, e: nat) {
    forall r, v: nat ::
        IsRoot(s, r) && IsRoot(s', r) && v < PAGES ==> Flat(s'.m, r, v) == if r == root && v == vpn then e
        else Flat(s.m, r, v)
  }

  /** A use other than those through (t, x) survives a write to that entry. */
  lemma KeepUse(s: Frames, ht: nat, hx: nat, t: nat, x: nat, e: nat, s': Frames, p: nat)
    requires InvBut(s, ht, hx) && Tables(s, t) && x < 512 && ((t == ht && x == hx) || ht == 0)
    requires p in s.use && !Needs(s.use[p], s.use[t].root, s.use[t].pos, x) && t in s.m
    requires s'.m == Put(s.m, t, x, e) && p in s'.use && s'.use[p] == s.use[p]
    requires forall r :: IsRoot(s, r) ==> IsRoot(s', r)
    ensures UseOk(s', p)
  {
    hide Valid, Leafy, Frame, Index, PageOf;
    assert UseOk(s, p) && UseOk(s, t);
    match s.use[p]
    case Free =>
    case Held =>
    case User(r, v) => FlatOther(s, ht, hx, t, x, e, r, v);
    case Table(r, Top) =>
    case Table(r, Mid(i)) => assert IsRoot(s, r);
    case Table(r, Low(i, j)) => assert IsRoot(s, r) && Tables(s, r) && EntryOk(s, r, i);
  }

  /** `*pte = 0`: clearing an entry that nothing uses. */
  lemma ClearEntry(s: Frames, t: nat, x: nat)
    requires InvBut(s, t, x) && Tables(s, t) && x < 512 && Unneeded(s, t, x)
    ensures t in s.m
    ensures var s' := Frames(Put(s.m, t, x, 0), s.use);
            Inv(s') && forall r, v: nat ::
                IsRoot(s, r) && !Passes(r, v, s.use[t].root, s.use[t].pos, x) ==> Flat(s'.m, r, v) == Flat(s.m, r, v)
  {
    hide Leafy, Frame, Index, PageOf, UseOk;
    var s' := Frames(Put(s.m, t, x, 0), s.use);
    forall p | p in s'.use
      ensures FrameOk(p) && UseOk(s', p)
    {
      KeepUse(s, t, x, t, x, 0, s', p);
    }
    forall t2, x2 | Tables(s', t2) && 0 <= x2 < 512
      ensures EntryOk(s', t2, x2)
    {
      if !(t2 == t && x2 == x) {
        assert Tables(s, t2) && EntryOk(s, t2, x2);
      }
    }
    forall r, v: nat | IsRoot(s, r) && !Passes(r, v, s.use[t].root, s.use[t].pos, x)
      ensures Flat(s'.m, r, v) == Flat(s.m, r, v)
    {
      FlatOther(s, t, x, t, x, 0, r, v);
    }
  }

  function Below(pos: Pos, x: nat): Pos
    requires !pos.Low?
  {
    if pos.Top? then Mid(x) else Low(pos.i, x)
  }

  ghost predicate Blank(p: Page) { forall x :: 0 <= x < 512 ==> p[x] == 0 }

  /** walk() with `alloc`: a zeroed page becomes the table under an empty entry; no mapping changes. */
  lemma LinkTable(s: Frames, t: nat, x: nat, q: nat)
    requires Inv(s) && Tables(s, t) && x < 512 && !s.use[t].pos.Low? && !Valid(Word(s.m, t, x))
    requires q in s.use && s.use[q] == Held && Blank(s.m[q]) && (s.use[t].pos.Top? ==> x < 256)
    ensures t in s.m
    ensures var s' := Frames(Put(s.m, t, x, Entry(q, 1)), s.use[q := Table(s.use[t].root, Below(s.use[t].pos, x))]);
            Inv(s') && SameMaps(s, s')
  {
    hide Frame, Index, PageOf, UseOk, Entry;
    var e := Entry(q, 1);
    var s' := Frames(Put(s.m, t, x, e), s.use[q := Table(s.use[t].root, Below(s.use[t].pos, x))]);
    assert FrameOk(q);
    LinkEntryIs(q, 1);
    EmptyUnneeded(s, t, x);
    forall p | p in s'.use
      ensures FrameOk(p) && UseOk(s', p)
    {
      if p == q { LinkedTable(s, t, x, q, e, s'); } else { KeepUse(s, 0, 0, t, x, e, s', p); }
    }
    forall t2, x2 | Tables(s', t2) && 0 <= x2 < 512
      ensures EntryOk(s', t2, x2)
    {
      if t2 != q && !(t2 == t && x2 == x) {
        assert Tables(s, t2) && EntryOk(s, t2, x2);
      }
    }
    forall r, v: nat | IsRoot(s, r) && IsRoot(s', r)
      ensures Flat(s'.m, r, v) == Flat(s.m, r, v)
    {
      if Passes(r, v, s.use[t].root, s.use[t].pos, x) {
        assert UseOk(s, t);
        ThroughEmpty(s, t, x, q, e, r, v);
      } else {
        FlatOther(s, 0, 0, t, x, e, r, v);
      }
    }
  }

  lemma LinkEntryIs(q: nat, flags: nat)
    requires FrameOk(q) && flags < 1024 && Valid(flags)
    ensures Valid(Entry(q, flags)) && Frame(Entry(q, flags)) == q && Leafy(Entry(q, flags)) == Leafy(flags)
  {
    EntryRoundTrip(q, flags);
  }

  lemma LinkedTable(s: Frames, t: nat, x: nat, q: nat, e: nat, s': Frames)
    requires Inv(s) && Tables(s, t) && x < 512 && !s.use[t].pos.Low? && t in s.m && !Valid(Word(s.m, t, x))
    requires Valid(e) && Frame(e) == q && q in s.use && s.use[q] == Held && (s.use[t].pos.Top? ==> x < 256)
    requires s' == Frames(Put(s.m, t, x, e), s.use[q := Table(s.use[t].root, Below(s.use[t].pos, x))])
    ensures UseOk(s', q)
  {
    hide Leafy, Frame, Index, PageOf, EntryOk;
    assert UseOk(s, t);
  }

  lemma ThroughEmpty(s: Frames, t: nat, x: nat, q: nat, e: nat, r: nat, v: nat)
    requires Inv(s) && Tables(s, t) && x < 512 && !s.use[t].pos.Low? && t in s.m && !Valid(Word(s.m, t, x))
    requires Valid(e) && Frame(e) == q && q in s.use && s.use[q] == Held && Blank(s.m[q]) && IsRoot(s, r)
    requires Passes(r, v, s.use[t].root, s.use[t].pos, x)
    ensures Flat(Put(s.m, t, x, e), r, v) == 0 == Flat(s.m, r, v)
  {
    hide Leafy, Frame, Index, PageOf, EntryOk;
    assert UseOk(s, t);
  }

  /** A valid leaf entry mapping page frame `q`. */
  ghost predicate LeafFor(e: nat, q: nat) { Valid(e) && Leafy(e) && Frame(e) == q }

  /** `*pte = PA2PTE(pa) | perm | PTE_V`: below the trapframe the page must be held and becomes the user's. */
  lemma LinkPage(s: Frames, t: nat, x: nat, e: nat, q: nat)
    requires Inv(s) && Tables(s, t) && x < 512 && s.use[t].pos.Low? && !Valid(Word(s.m, t, x)) && LeafFor(e, q)
    requires PageOf(s.use[t].pos.i, s.use[t].pos.j, x) < USERTOP ==> q in s.use && s.use[q] == Held
    ensures t in s.m
    ensures var vpn := PageOf(s.use[t].pos.i, s.use[t].pos.j, x);
            var s' := Frames(Put(s.m, t, x, e), if vpn < USERTOP then s.use[q := User(s.use[t].root, vpn)] else s.use);
            Inv(s') && Remapped(s, s', s.use[t].root, vpn, e)
  {
    hide Valid, Leafy, Frame, Index, PageOf, UseOk;
    var r, pos := s.use[t].root, s.use[t].pos;
    var vpn := PageOf(pos.i, pos.j, x);
    var s' := Frames(Put(s.m, t, x, e), if vpn < USERTOP then s.use[q := User(r, vpn)] else s.use);
    EmptyUnneeded(s, t, x);
    MappedLeaf(s, t, x, e, vpn);
    forall p | p in s'.use
      ensures FrameOk(p) && UseOk(s', p)
    {
      if p == q && vpn < USERTOP { MappedUse(s', q, r, vpn); } else { KeepUse(s, 0, 0, t, x, e, s', p); }
    }
    forall t2, x2 | Tables(s', t2) && 0 <= x2 < 512
      ensures EntryOk(s', t2, x2)
    {
      if !(t2 == t && x2 == x) {
        assert Tables(s, t2) && EntryOk(s, t2, x2);
      }
    }
    forall r', v: nat | IsRoot(s, r') && IsRoot(s', r') && v < PAGES
      ensures Flat(s'.m, r', v) == if r' == r && v == vpn then e else Flat(s.m, r', v)
    {
      PassesLow(r', v, r, pos, x);
      if r' != r || v != vpn {
        FlatOther(s, 0, 0, t, x, e, r', v);
      }
    }
  }

  /** The entry read for a page is the one its index triple names, and only that. */
  lemma PassesLow(root: nat, v: nat, r: nat, pos: Pos, x: nat)
    requires pos.Low? && pos.i < 512 && pos.j < 512 && x < 512 && v < PAGES
    ensures Passes(root, v, r, pos, x) <==> root == r && v == PageOf(pos.i, pos.j, x)
  {
    PageOfRoundTrip(pos.i, pos.j, x);
    IndexRoundTrip(v);
  }

  lemma MappedLeaf(s: Frames, t: nat, x: nat, e: nat, vpn: nat)
    requires Inv(s) && Tables(s, t) && x < 512 && s.use[t].pos.Low? && Valid(e) && t in s.m
    requires vpn == PageOf(s.use[t].pos.i, s.use[t].pos.j, x)
    ensures s.use[t].pos.i < 512 && s.use[t].pos.j < 512 && IsRoot(s, s.use[t].root)
    ensures Flat(Put(s.m, t, x, e), s.use[t].root, vpn) == e
  {
    hide Valid, Leafy, Frame, Index, PageOf, EntryOk;
    assert UseOk(s, t);
    PageOfRoundTrip(s.use[t].pos.i, s.use[t].pos.j, x);
    assert IsRoot(s, s.use[t].root);
    assert Tables(s, s.use[t].root);
    TablesApart(s, t);
  }

  /** The three tables on the path to a lowest-level table are different pages. */
  lemma TablesApart(s: Frames, t: nat)
    requires Inv(s) && Tables(s, t) && s.use[t].pos.Low?
    ensures s.use[t].pos.i < 512
    ensures t != s.use[t].root && t != Frame(Word(s.m, s.use[t].root, s.use[t].pos.i))
  {
    hide Valid, Leafy, Frame, Index, PageOf;
    assert UseOk(s, t);
    assert Tables(s, s.use[t].root) && EntryOk(s, s.use[t].root, s.use[t].pos.i);
  }

  lemma MappedUse(s: Frames, q: nat, r: nat, vpn: nat)
    requires q in s.use && s.use[q] == User(r, vpn) && vpn < USERTOP && IsRoot(s, r) && LeafFor(Flat(s.m, r, vpn), q)
    ensures UseOk(s, q)
  {
    hide Valid, Leafy, Frame, Index, PageOf, Flat;
  }

  // ----------------------------------------------------------- freeing pages

  /** The exempt entry, if any, belongs to a table and nothing relies on it. */
  ghost predicate HoleOk(s: Frames, ht: nat, hx: nat) { ht == 0 || (Tables(s, ht) && hx < 512 && Unneeded(s, ht, hx)) }

  ghost predicate ThroughHole(s: Frames, ht: nat, hx: nat, r: nat, v: nat) {
    Tables(s, ht) && Passes(r, v, s.use[ht].root, s.use[ht].pos, hx)
  }

  /** Mappings agree but for pages looked up through the exempt entry. */
  ghost predicate SameBut(s: Frames, s': Frames, ht: nat, hx: nat) {
    forall r, v: nat ::
        IsRoot(s, r) && IsRoot(s', r) && v < PAGES && !ThroughHole(s, ht, hx, r, v) ==>
        Flat(s'.m, r, v) == Flat(s.m, r, v)
  }

  lemma FlatAfterWrite(s: Frames, ht: nat, hx: nat, q: nat, page: Page, r: nat, v: nat)
    requires InvBut(s, ht, hx) && HoleOk(s, ht, hx) && q in s.use && !s.use[q].Table? && IsRoot(s, r) &&
               !ThroughHole(s, ht, hx, r, v)
    ensures Flat(s.m[q := page], r, v) == Flat(s.m, r, v)
  {
    hide Valid, Leafy, Frame, Index, PageOf, EntryOk;
    PathTables(s, ht, hx, r, v);
    if ht != 0 { assert UseOk(s, ht); }
  }

  /** Writing a page that is not a page table changes no mapping. */
  lemma WritePage(s: Frames, ht: nat, hx: nat, q: nat, page: Page)
    requires InvBut(s, ht, hx) && HoleOk(s, ht, hx) && q in s.use && !s.use[q].Table?
    ensures var s' := Frames(s.m[q := page], s.use);
            InvBut(s', ht, hx) && HoleOk(s', ht, hx) && SameBut(s, s', ht, hx) && (ht == 0 ==> SameMaps(s, s'))
  {
    hide Valid, Leafy, Frame, Index, PageOf, Flat, Passes;
    var s' := Frames(s.m[q := page], s.use);
    forall p | p in s'.use
      ensures FrameOk(p) && UseOk(s', p)
    {
      assert UseOk(s, p);
      match s.use[p]
      case Free =>
      case Held =>
      case User(r, v) => assert IsRoot(s, r); FlatAfterWrite(s, ht, hx, q, page, r, v);
      case Table(r, Top) =>
      case Table(r, Mid(i)) => assert IsRoot(s, r);
      case Table(r, Low(i, j)) => PathToLow(s, ht, hx, p);
    }
    forall t, x | Tables(s', t) && 0 <= x < 512 && !(t == ht && x == hx)
      ensures EntryOk(s', t, x)
    {
      assert Tables(s, t) && EntryOk(s, t, x);
    }
    forall r, v: nat | IsRoot(s, r) && IsRoot(s', r) && v < PAGES && !ThroughHole(s, ht, hx, r, v)
      ensures Flat(s'.m, r, v) == Flat(s.m, r, v)
    {
      FlatAfterWrite(s, ht, hx, q, page, r, v);
    }
  }

  /** The middle table over a lowest-level table is a table page. */
  lemma PathToLow(s: Frames, ht: nat, hx: nat, p: nat)
    requires InvBut(s, ht, hx) && HoleOk(s, ht, hx) && Tables(s, p) && s.use[p].pos.Low?
    ensures s.use[p].pos.i < 512 && Tables(s, Frame(Word(s.m, s.use[p].root, s.use[p].pos.i)))
  {
    hide Valid, Leafy, Frame, Index, PageOf;
    assert UseOk(s, p);
    var r := s.use[p].root;
    if ht == r { assert Needs(s.use[p], r, Top, s.use[p].pos.i); }
    assert Tables(s, r) && EntryOk(s, r, s.use[p].pos.i);
  }

  /** Taking a page off the free list, or putting it on. */
  lemma Retag(s: Frames, ht: nat, hx: nat, q: nat, u: Use)
    requires InvBut(s, ht, hx) && HoleOk(s, ht, hx) && q in s.use
    requires (s.use[q].Free? || s.use[q].Held?) && (u.Free? || u.Held?)
    ensures var s' := Frames(s.m, s.use[q := u]); InvBut(s', ht, hx) && HoleOk(s', ht, hx)
  {
    hide Valid, Leafy, Frame, Index, PageOf, Flat, Passes;
    var s' := Frames(s.m, s.use[q := u]);
    forall p | p in s'.use
      ensures FrameOk(p) && UseOk(s', p)
    {
      assert UseOk(s, p);
    }
    forall t, x | Tables(s', t) && 0 <= x < 512 && !(t == ht && x == hx)
      ensures EntryOk(s', t, x)
    {
      assert Tables(s, t) && EntryOk(s, t, x);
    }
  }

  lemma RetagMaps(s: Frames, ht: nat, hx: nat, q: nat, u: Use)
    requires q in s.use && !s.use[q].Table? && !u.Table?
    ensures var s' := Frames(s.m, s.use[q := u]); SameBut(s, s', ht, hx) && SameMaps(s, s')
  {
    hide Flat, ThroughHole;
  }

  /** Different leaf entries stand for different (root, page) pairs. */
  lemma LeafOnce(s: Frames, t: nat, x: nat, t2: nat, x2: nat)
    requires Inv(s) && Tables(s, t) && Tables(s, t2) && x < 512 && x2 < 512 && s.use[t].pos.Low? && s.use[t2].pos.Low?
    requires s.use[t].root == s.use[t2].root
    requires PageOf(s.use[t].pos.i, s.use[t].pos.j, x) == PageOf(s.use[t2].pos.i, s.use[t2].pos.j, x2)
    ensures t == t2 && x == x2
  {
    hide Valid, Leafy, Frame, Index, PageOf, EntryOk;
    assert UseOk(s, t) && UseOk(s, t2);
    PageOfRoundTrip(s.use[t].pos.i, s.use[t].pos.j, x);
    PageOfRoundTrip(s.use[t2].pos.i, s.use[t2].pos.j, x2);
  }

  /** The page a leaf maps is detached before the leaf is cleared. */
  lemma Detach(s: Frames, t: nat, x: nat)
    requires Inv(s) && Tables(s, t) && x < 512 && s.use[t].pos.Low? && Valid(Word(s.m, t, x))
    ensures var pos, q := s.use[t].pos, Frame(Word(s.m, t, x));
            var use' := if PageOf(pos.i, pos.j, x) < USERTOP then s.use[q := Held] else s.use;
            InvBut(Frames(s.m, use'), t, x) && HoleOk(Frames(s.m, use'), t, x) && use'.Keys == s.use.Keys
    ensures var pos, q := s.use[t].pos, Frame(Word(s.m, t, x));
            PageOf(pos.i, pos.j, x) < USERTOP ==> q in s.use && s.use[q] == User(s.use[t].root, PageOf(pos.i, pos.j, x))
  {
    hide Valid, Leafy, Frame, Index, PageOf, Flat;
    var pos, q := s.use[t].pos, Frame(Word(s.m, t, x));
    var vpn := PageOf(pos.i, pos.j, x);
    var use' := if vpn < USERTOP then s.use[q := Held] else s.use;
    var s' := Frames(s.m, use');
    assert EntryOk(s, t, x);
    MappedLeaf(s, t, x, Word(s.m, t, x), vpn);
    forall p | p in s'.use
      ensures FrameOk(p) && UseOk(s', p) && !Needs(use'[p], s.use[t].root, pos, x)
    {
      assert UseOk(s, p);
      if s.use[p].User? && s.use[p].vpn < PAGES { PassesLow(s.use[p].root, s.use[p].vpn, s.use[t].root, pos, x); }
    }
    forall t2, x2 | Tables(s', t2) && 0 <= x2 < 512 && !(t2 == t && x2 == x)
      ensures EntryOk(s', t2, x2)
    {
      assert Tables(s, t2) && EntryOk(s, t2, x2);
      var pos2 := s.use[t2].pos;
      if pos2.Low? && s.use[t2].root == s.use[t].root &&
          PageOf(pos2.i, pos2.j, x2) == vpn { LeafOnce(s, t, x, t2, x2); }
    }
  }

  /** No entry of the table is valid. */
  ghost predicate NoEntries(s: Frames, t: nat) { forall x :: 0 <= x < 512 ==> !Valid(Word(s.m, t, x)) }

  /** The table and entry that point at table `t`. */
  ghost predicate Parent(s: Frames, t: nat, par: nat, px: nat) {
    && Tables(s, t) && px < 512 && Tables(s, par)
    && s.use[par].root == s.use[t].root && !s.use[par].pos.Low? && s.use[t].pos == Below(s.use[par].pos, px)
  }

  lemma NothingBelow(s: Frames, t: nat, p: nat, x: nat)
    requires Inv(s) && Tables(s, t) && NoEntries(s, t) && x < 512 && p in s.use
    ensures !Needs(s.use[p], s.use[t].root, s.use[t].pos, x)
  {
    hide Valid, Leafy, Frame, Index, PageOf, UseOk, EntryOk, InvBut, Needs;
    EmptyUnneeded(s, t, x);
  }

  /** Only one entry leads to a table. */
  lemma OneParent(s: Frames, t: nat, par: nat, px: nat, t2: nat, x2: nat)
    requires Inv(s) && Parent(s, t, par, px) && Parent(s, t, t2, x2)
    ensures t2 == par && x2 == px
  {
    hide Valid, Leafy, Frame, Index, PageOf, EntryOk;
    assert UseOk(s, par) && UseOk(s, t2);
  }

  /** Other pages do not rely on the entry that leads to a table without entries. */
  lemma ParentUnneeded(s: Frames, t: nat, par: nat, px: nat, p: nat)
    requires Inv(s) && Parent(s, t, par, px) && NoEntries(s, t) && p in s.use && p != t
    ensures !Needs(s.use[p], s.use[par].root, s.use[par].pos, px)
  {
    hide Valid, Leafy, Frame, Index, PageOf, EntryOk, NoEntries;
    assert UseOk(s, par) && UseOk(s, t) && UseOk(s, p);
    match s.use[p]
    case Free =>
    case Held =>
    case User(r, v) =>
      NothingBelow(s, t, p, Index(1, v));
      NothingBelow(s, t, p, Index(0, v));
    case Table(r, Top) =>
    case Table(r, Mid(i)) =>
    case Table(r, Low(i, j)) =>
      NothingBelow(s, t, p, j);
  }

  lemma UseAfterDrop(s: Frames, t: nat, p: nat)
    requires Inv(s) && Tables(s, t) && NoEntries(s, t) && p in s.use && p != t
    ensures UseOk(Frames(s.m, s.use[t := Held]), p)
  {
    hide Valid, Leafy, Frame, Index, PageOf, EntryOk, NoEntries, Flat;
    assert UseOk(s, p) && UseOk(s, t);
    match s.use[p]
    case Free =>
    case Held =>
    case User(r, v) => NothingBelow(s, t, p, Index(2, v));
    case Table(r, Top) =>
    case Table(r, Mid(i)) => NothingBelow(s, t, p, i);
    case Table(r, Low(i, j)) => NothingBelow(s, t, p, i);
  }

  /** freewalk(): a table without valid entries may be freed; its parent's entry is cleared next. */
  lemma DropTable(s: Frames, t: nat, par: nat, px: nat)
    requires Inv(s) && Tables(s, t) && NoEntries(s, t)
    requires if s.use[t].pos.Top? then par == 0 else Parent(s, t, par, px)
    ensures var s' := Frames(s.m, s.use[t := Held]); InvBut(s', par, px) && HoleOk(s', par, px)
  {
    hide Valid, Leafy, Frame, Index, PageOf, UseOk, NoEntries, Needs;
    var s' := Frames(s.m, s.use[t := Held]);
    assert FrameOk(t);
    forall p | p in s'.use
      ensures FrameOk(p) && UseOk(s', p)
    {
      if p != t { UseAfterDrop(s, t, p); } else { HeldOk(s', t); }
    }
    forall t2, x2 | Tables(s', t2) && 0 <= x2 < 512 && !(t2 == par && x2 == px)
      ensures EntryOk(s', t2, x2)
    {
      assert Tables(s, t2) && EntryOk(s, t2, x2);
      if Parent(s, t, t2, x2) && par != 0 { OneParent(s, t, par, px, t2, x2); }
    }
    if par != 0 {
      forall p | p in s'.use
        ensures !Needs(s'.use[p], s'.use[par].root, s'.use[par].pos, px)
      {
        if p != t { ParentUnneeded(s, t, par, px, p); }
            else { HeldNeedsNothing(s'.use[par].root, s'.use[par].pos, px); }
      }
    }
  }

  lemma HeldOk(s: Frames, p: nat)
    requires p in s.use && s.use[p] == Held
    ensures UseOk(s, p)
  {}

  lemma HeldNeedsNothing(r: nat, pos: Pos, x: nat)
    ensures !Needs(Held, r, pos, x)
  {}
}
