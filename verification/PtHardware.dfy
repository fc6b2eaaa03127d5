/** The address translation of the processor (sections 4.3.2 and 4.4.1 of the RISC-V Privileged Architecture, 20211203),
    written from that standard, against what kernel/vm.c takes its page tables to mean. */
module PtHardware {
  import opened Params
  import opened PtLayout

  const PTESIZE: nat := 8

  datatype Outcome = PageFault | Access(pa: nat, flags: nat)

  /** A load of eight bytes from a physical address. */
  function Fetch(m: Memory, pa: nat): nat { Word(m, pa - pa % PGSIZE, pa % PGSIZE / PTESIZE) }

  /** va.vpn[i] */
  function Vpn(va: nat, i: nat): nat { va / Span(i) % 512 }

  /** The bytes that one entry of a table of level `i` covers. */
  function Span(i: nat): (r: nat)
    ensures r > 0
  {
    if i == 0 then 4096 else 512 * Span(i - 1)
  }

  function BitOf(pte: nat, weight: nat): (b: nat)
    requires weight > 0
    ensures b < 2
  {
    pte / weight % 2
  }

  /** Steps 2 to 7 of the translation, with `a` the address of the table of level `i`. */
  function Walk(m: Memory, a: nat, i: nat, va: nat): Outcome
    decreases i
  {
    var pte := Fetch(m, a + Vpn(va, i) * PTESIZE);
    var v, r, w, x := BitOf(pte, 1), BitOf(pte, 2), BitOf(pte, 4), BitOf(pte, 8);
    if v == 0 || (r == 0 && w == 1) then PageFault
    else if r == 1 || x == 1 then
      if pte / 1024 * PGSIZE % Span(i) != 0 then PageFault       // misaligned superpage
      else Access(pte / 1024 * PGSIZE + va % Span(i), pte % 1024)
    else if i == 0 then PageFault
    else Walk(m, pte / 1024 * PGSIZE, i - 1, va)
  }

  lemma Spans()
    ensures Span(0) == 4096 && Span(1) == 0x20_0000 && Span(2) == 0x4000_0000
  {
    assert Span(1) == 512 * Span(0) && Span(2) == 512 * Span(1);
  }

  lemma Halves(va: nat)
    ensures va / 4096 / 512 == va / 0x20_0000 && va / 4096 / 0x4_0000 == va / 0x4000_0000
  {}

  /** The kernel's index of a level is the processor's. */
  lemma SameIndex(va: nat, i: nat)
    requires i <= 2
    ensures Vpn(va, i) == Index(i, va / PGSIZE)
  {
    Spans();
    Halves(va);
  }

  lemma FetchEntry(m: Memory, t: nat, x: nat)
    requires t % PGSIZE == 0 && x < 512
    ensures Fetch(m, t + x * PTESIZE) == Word(m, t, x)
  {
    var pa := t + x * PTESIZE;
    assert pa % PGSIZE == x * PTESIZE;
  }

  lemma Quarter(e: nat)
    ensures e / 4 == e / 2 / 2
  {}

  lemma Eighth(e: nat)
    ensures e / 8 == e / 4 / 2
  {}

  lemma Half(e: nat)
    ensures e == 2 * (e / 2) + e % 2
  {}

  /** The permission bits that make an entry a leaf. */
  lemma Bits(e: nat)
    ensures Valid(e) <==> BitOf(e, 1) == 1
    ensures Leafy(e) <==> BitOf(e, 2) == 1 || BitOf(e, 4) == 1 || BitOf(e, 8) == 1
  {
    hide BitOf;
    Weights(e);
    var b, c, d := e / 2, e / 4, e / 8;
    Quarter(e);
    Eighth(e);
    Half(b);
    Half(c);
    Half(d);
    By8(b, d / 2, 4 * (d % 2) + 2 * (c % 2) + b % 2);
  }

  lemma Weights(e: nat)
    ensures BitOf(e, 1) == e % 2 && BitOf(e, 2) == e / 2 % 2 && BitOf(e, 4) == e / 4 % 2 && BitOf(e, 8) == e / 8 % 2
  {}

  /** An entry that the standard reserves: writable and not readable. */
  predicate Reserved(e: nat) { BitOf(e, 2) == 0 && BitOf(e, 4) == 1 }

  lemma LastLevel(m: Memory, t: nat, va: nat)
    requires t % PGSIZE == 0
    requires var e := Word(m, t, Index(0, va / PGSIZE)); Valid(e) ==> Leafy(e)
    ensures var e := Word(m, t, Index(0, va / PGSIZE));
            Walk(m, t, 0, va) ==
              if !Valid(e) || Reserved(e) then PageFault else Access(Frame(e) + va % PGSIZE, Flags(e))
  {
    hide Index, Vpn, Valid, Leafy, BitOf, Fetch;
    var x := Index(0, va / PGSIZE);
    SameIndex(va, 0);
    FetchEntry(m, t, x);
    Bits(Word(m, t, x));
    Spans();
    WholePages(Word(m, t, x));
  }

  lemma WholePages(e: nat)
    ensures e / 1024 * PGSIZE % 4096 == 0
  {}

  lemma NextLevel(m: Memory, t: nat, i: nat, va: nat)
    requires 0 < i <= 2 && t % PGSIZE == 0
    requires var e := Word(m, t, Index(i, va / PGSIZE)); Valid(e) ==> !Leafy(e)
    ensures var e := Word(m, t, Index(i, va / PGSIZE));
            Walk(m, t, i, va) == if !Valid(e) then PageFault else Walk(m, Frame(e), i - 1, va)
  {
    hide Index, Vpn, Valid, Leafy, BitOf, Fetch;
    var x := Index(i, va / PGSIZE);
    SameIndex(va, i);
    FetchEntry(m, t, x);
    Bits(Word(m, t, x));
  }

  /** The processor translates every address below MAXVA as the kernel means it: to the frame and with the permissions
      of its page, if it is mapped and readable or executable, and to a page fault otherwise. */
  lemma HardwareAgrees(s: Frames, root: nat, va: nat)
    requires Inv(s) && IsRoot(s, root) && va < MAXVA
    ensures var e := Flat(s.m, root, va / PGSIZE);
            Walk(s.m, root, 2, va) ==
              if e == 0 || Reserved(e) then PageFault else Access(Frame(e) + va % PGSIZE, Flags(e))
  {
    hide Index, Valid, Leafy, Walk, PageOf, UseOk, Reserved;
    var vpn := va / PGSIZE;
    assert FrameOk(root) && Tables(s, root) && EntryOk(s, root, Index(2, vpn));
    NextLevel(s.m, root, 2, va);
    var e2 := Word(s.m, root, Index(2, vpn));
    if Valid(e2) {
      var t1 := Frame(e2);
      assert FrameOk(t1) && Tables(s, t1) && EntryOk(s, t1, Index(1, vpn));
      NextLevel(s.m, t1, 1, va);
      var e1 := Word(s.m, t1, Index(1, vpn));
      if Valid(e1) {
        var t0 := Frame(e1);
        assert FrameOk(t0) && Tables(s, t0) && EntryOk(s, t0, Index(0, vpn));
        LastLevel(s.m, t0, va);
        ValidNotZero(Word(s.m, t0, Index(0, vpn)));
      }
    }
  }

  lemma ValidNotZero(e: nat)
    ensures Valid(e) ==> e != 0
  {}
}
