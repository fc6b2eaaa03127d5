/** Memory-mapped files: sys_mmap() and sys_munmap() of kernel/sysproc.c, the VMA parts of kernel/vm.c and growproc()
    of kernel/proc.c, for one process that inherited no mappings. */
module MmapLayout {
  import opened Basics
  import opened Params

  const NVMA: nat := 16
  const WORD: nat := 0x1_0000_0000_0000_0000   // addresses are uint64
  const PROT_READ: nat := 1
  const PROT_WRITE: nat := 2
  const MAP_SHARED: nat := 1
  const MAP_PRIVATE: nat := 2

  /** bits & flag, for one flag. */
  predicate Has(bits: nat, flag: nat)
    requires flag > 0
  {
    bits / flag % 2 == 1
  }

  /** PGROUNDUP, of negative numbers too. */
  function RoundUp(x: int): int { (x + PGSIZE - 1) / PGSIZE * PGSIZE }
  function RoundDown(x: nat): nat { x / PGSIZE * PGSIZE }

  predicate Aligned(x: nat) { x % PGSIZE == 0 }

  datatype Vma = Vma(valid: bool, start: nat, end: nat, prot: nat, flags: nat, f: nat, offset: int)

  /** The file offset that the mapping gives to an address. */
  function FileOffset(v: Vma, va: nat): int { v.offset + va - v.start }

  ghost predicate In(v: Vma, va: nat) { v.valid && v.start <= va < v.end }

  // ------------------------------------------------------------------- layout

  ghost predicate Within(sz: nat, base: nat, v: Vma) {
    v.valid ==> Aligned(v.start) && Aligned(v.end) && base <= v.start < v.end <= TRAPFRAME && sz <= v.start
  }

  ghost predicate Apart(u: Vma, v: Vma) { u.valid && v.valid ==> u.end <= v.start || v.end <= u.start }

  /** Mappings are whole pages, disjoint, between mmap_base and the trapframe, and above the heap. */
  ghost predicate Layout(sz: nat, base: nat, vmas: seq<Vma>) {
    && |vmas| == NVMA && Aligned(base) && sz <= base <= TRAPFRAME
    && (forall i :: 0 <= i < NVMA ==> Within(sz, base, vmas[i]))
    && (forall i, j :: 0 <= i < j < NVMA ==> Apart(vmas[i], vmas[j]))
  }

  lemma AtMostOne(sz: nat, base: nat, vmas: seq<Vma>, i: nat, j: nat, va: nat)
    requires Layout(sz, base, vmas) && i < NVMA && j < NVMA && In(vmas[i], va) && In(vmas[j], va)
    ensures i == j
  {
    assert Apart(vmas[i], vmas[j]) || Apart(vmas[j], vmas[i]) || i == j;
  }

  // --------------------------------------------------------------- write-back

  /** A page's worth of bytes, or what the file has from `off` on followed by zeros. */
  function PageFrom(file: seq<nat>, off: nat): (page: seq<nat>)
    ensures |page| == PGSIZE
    ensures forall i :: 0 <= i < PGSIZE ==> page[i] == if off + i < |file| then file[off + i] else 0
  {
    seq(PGSIZE, i => if i >= 0 && off + i < |file| then file[off + i] else 0)
  }

  function Patched(file: seq<nat>, off: nat, bytes: seq<nat>): (r: seq<nat>)
    requires off + |bytes| <= |file|
    ensures |r| == |file|
    ensures forall i :: 0 <= i < |file| ==> r[i] == if off <= i < off + |bytes| then bytes[i - off] else file[i]
  {
    file[..off] + bytes + file[off + |bytes|..]
  }

  lemma PatchNone(file: seq<nat>, off: nat, bytes: seq<nat>)
    requires off <= |file|
    ensures Patched(file, off, bytes[..0]) == file
  {}

  lemma PatchMore(file: seq<nat>, off: nat, bytes: seq<nat>, i: nat, n: nat)
    requires i + n <= |bytes| && off + i + n <= |file|
    ensures Patched(Patched(file, off, bytes[..i]), off + i, bytes[i..i + n]) == Patched(file, off, bytes[..i + n])
  {}

  datatype Dirty = Clean | Bytes(page: seq<nat>)

  /** What uvmunmap_vma() makes of the file: dirty pages are written one after the other, clean ones skipped. */
  function WriteBack(file: seq<nat>, pages: seq<Dirty>, off: nat): (r: seq<nat>)
    requires forall i :: 0 <= i < |pages| && pages[i].Bytes? ==> |pages[i].page| == PGSIZE
    ensures |r| == |file|
    decreases |pages|
  {
    if pages == [] || off > |file| then file
    else if pages[0].Clean? then WriteBack(file, pages[1..], off)
    else
      var n := Min(PGSIZE, |file| - off);
      WriteBack(Patched(file, off, pages[0].page[..n]), pages[1..], off + n)
  }

  /** What the mapping promises: every dirty page goes to its own place in the file. */
  function Intended(file: seq<nat>, pages: seq<Dirty>, off: nat): (r: seq<nat>)
    requires forall i :: 0 <= i < |pages| && pages[i].Bytes? ==> |pages[i].page| == PGSIZE
    ensures |r| == |file|
    decreases |pages|
  {
    if pages == [] || off > |file| then file
    else if pages[0].Clean? then Intended(file, pages[1..], off + PGSIZE)
    else Intended(Patched(file, off, pages[0].page[..Min(PGSIZE, |file| - off)]), pages[1..], off + PGSIZE)
  }

  /** The file once the first page of the range is in its place. */
  function FirstDone(file: seq<nat>, pages: seq<Dirty>, off: nat): (r: seq<nat>)
    requires Whole(pages) && pages != [] && off <= |file|
    ensures |r| == |file|
  {
    if pages[0].Clean? then file else Patched(file, off, pages[0].page[..Min(PGSIZE, |file| - off)])
  }

  lemma FirstDoneAt(file: seq<nat>, pages: seq<Dirty>, off: nat, x: nat)
    requires Whole(pages) && pages != [] && off <= |file| && x < |file|
    ensures FirstDone(file, pages, off)[x] ==
            if off <= x < off + PGSIZE && pages[0].Bytes? then pages[0].page[x - off] else file[x]
  {}

  lemma IntendedNext(file: seq<nat>, pages: seq<Dirty>, off: nat)
    requires Whole(pages) && pages != [] && off <= |file|
    ensures Intended(file, pages, off) == Intended(FirstDone(file, pages, off), pages[1..], off + PGSIZE)
  {}

  /** Byte `j` of the place of page `c` is that of the page if it is there and dirty, and otherwise what it was. */
  lemma {:induction false} IntendedAt(file: seq<nat>, pages: seq<Dirty>, off: nat, c: nat, j: nat)
    requires Whole(pages) && j < PGSIZE && Place(off, c) + j < |file|
    ensures Intended(file, pages, off)[Place(off, c) + j] ==
            if c < |pages| && pages[c].Bytes? then pages[c].page[j] else file[Place(off, c) + j]
    decreases |pages|
  {
    hide Place, Intended, FirstDone;
    PlaceNext(off, 0);
    if pages == [] {
      IntendedNone(file, off);
    } else {
      if c > 0 { PlaceNext(off, c - 1); }
      var next := FirstDone(file, pages, off);
      IntendedNext(file, pages, off);
      FirstDoneAt(file, pages, off, Place(off, c) + j);
      if c == 0 {
        BehindKept(next, pages[1..], off + PGSIZE, off + j);
      } else {
        IntendedAt(next, pages[1..], off + PGSIZE, c - 1, j);
      }
    }
  }

  lemma IntendedNone(file: seq<nat>, off: nat)
    ensures Intended(file, [], off) == file
  {}

  /** Where page `c` of the range belongs in the file. */
  function Place(off: nat, c: nat): nat { off + c * PGSIZE }

  lemma PlaceNext(off: nat, c: nat)
    ensures Place(off, 0) == off && Place(off + PGSIZE, c) == Place(off, c + 1) >= off + PGSIZE
  {}

  /** Within the file, the dirty pages come first. */
  ghost predicate DirtyFirst(pages: seq<Dirty>, off: nat, size: nat) {
    forall c, d :: 0 <= c < d < |pages| && pages[c].Clean? && Place(off, c) < size ==> pages[d].Clean?
  }

  ghost predicate Whole(pages: seq<Dirty>) { forall i ::
      0 <= i < |pages| && pages[i].Bytes? ==> |pages[i].page| == PGSIZE }

  lemma {:induction false} PastEnd(file: seq<nat>, pages: seq<Dirty>, off: nat)
    requires Whole(pages) && off >= |file|
    ensures WriteBack(file, pages, off) == file
    decreases |pages|
  {
    if pages != [] && off == |file| {
      if pages[0].Bytes? { assert Patched(file, off, pages[0].page[..0]) == file; }
      PastEnd(file, pages[1..], off);
    }
  }

  lemma {:induction false} NoneDirty(file: seq<nat>, pages: seq<Dirty>, off: nat)
    requires Whole(pages) && forall i :: 0 <= i < |pages| ==> pages[i].Clean?
    ensures WriteBack(file, pages, off) == file == Intended(file, pages, off)
    decreases |pages|
  {
    if pages != [] {
      NoneDirty(file, pages[1..], off);
      NoneDirty(file, pages[1..], off + PGSIZE);
    }
  }

  /** Write-back does what the mapping promises if, within the file, the dirty pages come first. */
  lemma {:induction false} WriteBackExact(file: seq<nat>, pages: seq<Dirty>, off: nat)
    requires Whole(pages) && DirtyFirst(pages, off, |file|)
    ensures WriteBack(file, pages, off) == Intended(file, pages, off)
    decreases |pages|
  {
    hide Place;
    PlaceNext(off, 0);
    if pages != [] && off <= |file| {
      if pages[0].Clean? {
        if off < |file| {
          assert Place(off, 0) < |file|;
          NoneDirty(file, pages, off);
        } else {
          PastEnd(file, pages, off);
        }
      } else {
        var n := Min(PGSIZE, |file| - off);
        var next := Patched(file, off, pages[0].page[..n]);
        if n == PGSIZE {
          forall c, d | 0 <= c < d < |pages[1..]| && pages[1..][c].Clean? && Place(off + PGSIZE, c) < |file|
            ensures pages[1..][d].Clean?
          {
            PlaceNext(off, c);
            assert pages[c + 1].Clean? && Place(off, c + 1) < |file|;
          }
          WriteBackExact(next, pages[1..], off + PGSIZE);
        } else {
          PastEnd(next, pages[1..], off + n);
        }
      }
    }
  }

  lemma {:induction false} BehindKept(file: seq<nat>, pages: seq<Dirty>, off: nat, x: nat)
    requires Whole(pages) && x < off && x < |file|
    ensures WriteBack(file, pages, off)[x] == file[x] == Intended(file, pages, off)[x]
    decreases |pages|
  {
    if pages != [] && off <= |file| {
      if pages[0].Clean? {
        BehindKept(file, pages[1..], off, x);
        BehindKept(file, pages[1..], off + PGSIZE, x);
      } else {
        var n := Min(PGSIZE, |file| - off);
        var next := Patched(file, off, pages[0].page[..n]);
        BehindKept(next, pages[1..], off + n, x);
        BehindKept(next, pages[1..], off + PGSIZE, x);
      }
    }
  }

  ghost predicate AllOnes(pages: seq<Dirty>) {
    forall i :: 0 <= i < |pages| && pages[i].Bytes? ==> pages[i].page == Ones()
  }

  function Ones(): seq<nat> { seq(PGSIZE, _ => 1) }

  /** After skipped pages the next dirty one lands at the first skipped place. */
  lemma {:induction false} Misplaced(file: seq<nat>, pages: seq<Dirty>, off: nat, c: nat, d: nat)
    requires Whole(pages) && AllOnes(pages) && c <= d < |pages| && pages[d].Bytes? && Place(off, c) < |file|
    requires forall i :: 0 <= i < c ==> pages[i].Bytes?
    ensures WriteBack(file, pages, off)[Place(off, c)] == 1
    decreases |pages|
  {
    hide Place;
    PlaceNext(off, 0);
    if pages[0].Clean? {
      Misplaced(file, pages[1..], off, 0, d - 1);
    } else {
      if c > 0 { PlaceNext(off, c - 1); }
      var n := Min(PGSIZE, |file| - off);
      var next := Patched(file, off, pages[0].page[..n]);
      if c == 0 {
        BehindKept(next, pages[1..], off + n, off);
      } else {
        Misplaced(next, pages[1..], off + PGSIZE, c - 1, d - 1);
      }
    }
  }

  /** The place of a clean page is to stay as it is. */
  lemma {:induction false} CleanKept(file: seq<nat>, pages: seq<Dirty>, off: nat, c: nat)
    requires Whole(pages) && c < |pages| && pages[c].Clean? && Place(off, c) < |file|
    ensures Intended(file, pages, off)[Place(off, c)] == file[Place(off, c)]
    decreases |pages|
  {
    hide Place;
    PlaceNext(off, 0);
    if c == 0 {
      BehindKept(file, pages[1..], off + PGSIZE, off);
    } else {
      PlaceNext(off, c - 1);
      if pages[0].Clean? {
        CleanKept(file, pages[1..], off + PGSIZE, c - 1);
      } else {
        CleanKept(Patched(file, off, pages[0].page[..Min(PGSIZE, |file| - off)]), pages[1..], off + PGSIZE, c - 1);
      }
    }
  }

  /** Pages of ones, clean where `kinds` says so. */
  function Marked(kinds: seq<bool>): (pages: seq<Dirty>)
    ensures |pages| == |kinds| && Whole(pages) && AllOnes(pages) && forall i ::
              0 <= i < |kinds| ==> (pages[i].Bytes? <==> kinds[i])
  {
    seq(|kinds|, i requires 0 <= i < |kinds| => if kinds[i] then Bytes(Ones()) else Clean)
  }

  lemma {:induction false} FirstClean(kinds: seq<bool>, c: nat) returns (f: nat)
    requires c < |kinds| && !kinds[c]
    ensures f <= c && !kinds[f] && forall i :: 0 <= i < f ==> kinds[i]
  {
    if k :| 0 <= k < c && !kinds[k] { f := FirstClean(kinds, k); } else { f := c; }
  }

  /** Otherwise there are contents for which it does not: zeros in the file, ones in the dirty pages. */
  lemma WriteBackWrong(kinds: seq<bool>, off: nat, size: nat)
    requires !DirtyFirst(Marked(kinds), off, size)
    ensures WriteBack(seq(size, _ => 0), Marked(kinds), off) != Intended(seq(size, _ => 0), Marked(kinds), off)
  {
    var pages, file := Marked(kinds), seq(size, _ => 0);
    var c, d :| 0 <= c < d < |pages| && pages[c].Clean? && Place(off, c) < size && !pages[d].Clean?;
    var f := FirstClean(kinds, c);
    assert Place(off, f) <= Place(off, c);
    Misplaced(file, pages, off, f, d);
    CleanKept(file, pages, off, f);
  }

  // ------------------------------------------------------------------ trimming

  ghost predicate Overlaps(v: Vma, addr: nat, end: nat) { v.valid && addr < v.end && v.start < end }

  /** A mapping after [us, ue) went: none of it, its front, or its back is left. */
  function Trimmed(v: Vma, us: nat, ue: nat): Vma {
    if us == v.start && ue == v.end then v.(valid := false)
    else if us == v.start then v.(offset := v.offset + (ue - v.start), start := ue)
    else v.(end := us)
  }

  /** The two mappings do the same at this address. */
  ghost predicate SameAt(v: Vma, v': Vma, va: nat) {
    FileOffset(v', va) == FileOffset(v, va) && v'.f == v.f && v'.prot == v.prot && v'.flags == v.flags
  }

  /** Exactly the range goes, and what is left of a mapping keeps its file offsets. */
  lemma OffsetsKept(v: Vma, us: nat, ue: nat, va: nat)
    requires v.valid && v.start <= us < ue <= v.end && (us == v.start || ue == v.end)
    ensures In(Trimmed(v, us, ue), va) <==> In(v, va) && !(us <= va < ue)
    ensures In(Trimmed(v, us, ue), va) ==> SameAt(v, Trimmed(v, us, ue), va)
  {}

  lemma TrimmedTo(v: Vma, addr: nat, end: nat, va: nat)
    requires Overlaps(v, addr, end) && v.start < v.end && !(v.start < addr && end < v.end)
    ensures var v' := Trimmed(v, Max(addr, v.start), Min(end, v.end));
            && (In(v', va) <==> In(v, va) && !(addr <= va < end))
            && (In(v', va) ==> SameAt(v, v', va))
  {
    OffsetsKept(v, Max(addr, v.start), Min(end, v.end), va);
  }

  /** The address lies in the range and in the first mapping that overlaps it. */
  ghost predicate Removed(vmas: seq<Vma>, addr: nat, end: nat, va: nat) {
    addr <= va < end && exists i: nat :: FirstIn(vmas, addr, end, i) && In(vmas[i], va)
  }

  /** The first mapping that overlaps the range is a shared mapping of the file. */
  ghost predicate WrittenTo(vmas: seq<Vma>, addr: nat, end: nat, f: nat) {
    exists i: nat :: FirstIn(vmas, addr, end, i) && Has(vmas[i].flags, MAP_SHARED) && vmas[i].f == f
  }

  lemma RemovedIs(vmas: seq<Vma>, addr: nat, end: nat, i: nat, va: nat)
    requires FirstIn(vmas, addr, end, i)
    ensures Removed(vmas, addr, end, va) <==> Max(addr, vmas[i].start) <= va < Min(end, vmas[i].end)
  {
    OneFirst(vmas, addr, end, i);
  }

  lemma TrimLayout(sz: nat, base: nat, vmas: seq<Vma>, i: nat, us: nat, ue: nat)
    requires Layout(sz, base, vmas) && i < NVMA && vmas[i].valid && Aligned(us) && Aligned(ue)
    requires vmas[i].start <= us < ue <= vmas[i].end && (us == vmas[i].start || ue == vmas[i].end)
    ensures Layout(sz, base, vmas[i := Trimmed(vmas[i], us, ue)])
  {
    hide Aligned;
    var vmas' := vmas[i := Trimmed(vmas[i], us, ue)];
    assert Within(sz, base, vmas[i]);
    forall j | 0 <= j < NVMA
      ensures Within(sz, base, vmas'[j])
    {
      assert Within(sz, base, vmas[j]);
    }
    forall j, k | 0 <= j < k < NVMA
      ensures Apart(vmas'[j], vmas'[k])
    {
      assert Apart(vmas[j], vmas[k]);
    }
  }

  /** Moving mmap_base keeps the layout exactly if it stays between heap and trapframe and no mapping starts below
      it. */
  lemma RaiseBase(sz: nat, base: nat, vmas: seq<Vma>, end: nat)
    requires Layout(sz, base, vmas) && Aligned(end)
    ensures Layout(sz, end, vmas) <==> && sz <= end <= TRAPFRAME
                                       && forall i :: 0 <= i < NVMA && vmas[i].valid ==> end <= vmas[i].start
  {
    if sz <= end <= TRAPFRAME && forall i :: 0 <= i < NVMA && vmas[i].valid ==> end <= vmas[i].start {
      forall i | 0 <= i < NVMA
        ensures Within(sz, end, vmas[i])
      {
        assert Within(sz, base, vmas[i]);
      }
    }
    if Layout(sz, end, vmas) {
      forall i | 0 <= i < NVMA && vmas[i].valid
        ensures end <= vmas[i].start
      {
        assert Within(sz, end, vmas[i]);
      }
    }
  }

  /** A new mapping just below all others. */
  lemma AddLayout(sz: nat, base: nat, vmas: seq<Vma>, i: nat, v: Vma)
    requires Layout(sz, base, vmas) && i < NVMA && !vmas[i].valid && v.valid && v.end == base && Aligned(v.start) &&
               sz <= v.start < base
    ensures Layout(sz, v.start, vmas[i := v])
  {
    hide Aligned;
    var vmas' := vmas[i := v];
    forall j | 0 <= j < NVMA
      ensures Within(sz, v.start, vmas'[j])
    {
      assert Within(sz, base, vmas[j]);
    }
    forall j, k | 0 <= j < k < NVMA
      ensures Apart(vmas'[j], vmas'[k])
    {
      assert Apart(vmas[j], vmas[k]) && Within(sz, base, vmas[j]) && Within(sz, base, vmas[k]);
    }
  }

  lemma MoveBreak(sz: nat, base: nat, vmas: seq<Vma>, sz': nat)
    requires Layout(sz, base, vmas) && sz' <= base
    ensures Layout(sz', base, vmas)
  {
    forall j | 0 <= j < NVMA
      ensures Within(sz', base, vmas[j])
    {
      assert Within(sz, base, vmas[j]);
    }
  }

  // --------------------------------------------------------------- the process

  datatype Page = Page(bytes: seq<nat>, dirty: bool)

  /** Resident pages of mappings lie in the mapping `of` says. */
  ghost predicate PagesOk(vmas: seq<Vma>, pages: map<nat, Page>, of: map<nat, nat>) {
    |vmas| == NVMA
    && forall va ::
        va in pages ==> Aligned(va) && |pages[va].bytes| == PGSIZE && va in of && of[va] < NVMA && In(vmas[of[va]], va)
  }

  ghost predicate FilesOk(vmas: seq<Vma>, files: map<nat, seq<nat>>) {
    forall i :: 0 <= i < |vmas| && vmas[i].valid ==> vmas[i].f in files && vmas[i].offset >= 0
  }

  ghost function DirtyAt(pages: map<nat, Page>, va: nat): Dirty {
    if va in pages && pages[va].dirty then Bytes(pages[va].bytes) else Clean
  }

  /** The pages of [us, ue) as write-back sees them. */
  ghost function DirtyRange(pages: map<nat, Page>, us: nat, ue: nat): (r: seq<Dirty>)
    requires forall va :: va in pages ==> |pages[va].bytes| == PGSIZE
    ensures Whole(r)
    decreases ue - us
  {
    if us >= ue then [] else [DirtyAt(pages, us)] + DirtyRange(pages, us + PGSIZE, ue)
  }

  /** vmfault() maps the page, gives up, or runs into the "remap" panic. */
  datatype FaultResult = Mapped | Refused | Panicked

  class Process {
    var sz: nat
    var base: nat                      // mmap_base
    var vmas: seq<Vma>
    var pages: map<nat, Page>          // resident pages of mappings, by address
    var files: map<nat, seq<nat>>      // file contents
    ghost var of: map<nat, nat>

    ghost predicate Valid()
      reads this
    {
      Layout(sz, base, vmas) && PagesOk(vmas, pages, of) && FilesOk(vmas, files)
    }

    /** As allocproc() sets it up. */
    constructor (contents: map<nat, seq<nat>>)
      ensures Valid() && sz == 0 && base == TRAPFRAME && files == contents && pages == map[]
      ensures forall i :: 0 <= i < NVMA ==> !vmas[i].valid
    {
      sz, base := 0, TRAPFRAME;
      vmas := seq(NVMA, _ => Vma(false, 0, 0, 0, 0, 0, 0));
      pages, of, files := map[], map[], contents;
    }

    /** growproc(), with `mem` saying whether memory for the new pages was found: the heap stays below the mappings. */
    method Growproc(n: int, mem: bool) returns (r: int)
      requires Valid() && -0x8000_0000 <= n < 0x8000_0000
      modifies this`sz
      ensures Valid() && (r == 0 || r == -1)
      ensures r == 0 ==> sz == old(sz) + n && sz < base
      ensures r == -1 ==> sz == old(sz)
      ensures r == 0 <==> 0 <= old(sz) + n < base && (n > 0 ==> mem)
    {
      hide PagesOk, FilesOk, Within;
      if Wrapped(sz + n) >= base { return -1; }
      if n > 0 && !mem { return -1; }
      MoveBreak(sz, base, vmas, sz + n);
      sz := sz + n;
      r := 0;
    }

    /** sys_mmap(): a free slot gets the pages just below every mapping there is, or nothing changes.  A negative length
        is not refused as such: it moves mmap_base up and leaves a mapping that does not end above its start.  So the
        layout is kept exactly if nothing is mapped or the length is positive, and file offsets stay in the file's range
        exactly if the offset is not negative either. */
    method Mmap(addr: nat, len: int, prot: nat, flags: nat, f: nat, readable: bool, writable: bool, offset: int)
        returns (r: int)
      requires Valid() && -0x8000_0000 <= len <= 0x7fff_f000 && f in files
      modifies this`vmas, this`base
      ensures Valid() <==> r != -1 ==> len > 0 && offset >= 0
      ensures Layout(sz, base, vmas) <==> r != -1 ==> len > 0
      ensures r == -1 ==> vmas == old(vmas) && base == old(base)
      ensures r != -1 ==> r == base == old(base) - RoundUp(len)
      ensures r != -1 ==> SlotTaken(old(vmas), vmas, Vma(true, base, old(base), prot, flags, f, offset))
      ensures r != -1 && len > 0 ==> Aligned(base) && len <= old(base) - base < len + PGSIZE
      ensures r != -1 <==> && len != 0 && addr == 0
                           && (Has(prot, PROT_READ) ==> readable)
                           && (Has(prot, PROT_WRITE) && Has(flags, MAP_SHARED) ==> writable)
                           && sz <= old(base) - RoundUp(len) < TRAPFRAME && exists i ::
                               0 <= i < NVMA && !old(vmas)[i].valid
    {
      hide PagesOk, FilesOk, Within, Apart, Has;
      RoundedUp(len);
      if len == 0 || addr != 0 { return -1; }
      if !Allowed(prot, flags, readable, writable) { return -1; }
      var size := Wrapped(RoundUp(len));
      var start := RoundDown(Wrapped(base - size));
      StartIs(base, len);
      if start < sz || start >= TRAPFRAME { return -1; }
      var i := 0;
      while i < NVMA
        invariant 0 <= i <= NVMA && forall j :: 0 <= j < i ==> vmas[j].valid
      {
        if !vmas[i].valid { break; }
        i := i + 1;
      }
      if i == NVMA { return -1; }
      var v := Vma(true, start, Wrapped(start + size), prot, flags, f, offset);
      NewMapping(sz, base, vmas, pages, of, files, i, v);
      vmas := vmas[i := v];
      base := start;
      r := start;
    }

    /** vmfault() on an address above the heap, with `mem` saying whether a page was found: the page holds the bytes of
        the file at the mapping's offset, then zeros.  A page that is there already is mapped again, where mappages()
        panics. */
    method Fault(va: nat, read: bool, mem: bool) returns (out: FaultResult)
      requires Valid() && sz <= va
      modifies this`pages, this`of
      ensures Valid() && (out != Mapped ==> pages == old(pages))
      ensures out != Refused <==>
                exists i :: 0 <= i < NVMA && In(vmas[i], va) && (read || Has(vmas[i].prot, PROT_WRITE)) && mem
      ensures out == Panicked <==> out != Refused && RoundDown(va) in old(pages)
      ensures out == Mapped ==> forall i :: 0 <= i < NVMA && In(vmas[i], va) ==>
                vmas[i].f in files && FileOffset(vmas[i], RoundDown(va)) >= 0 &&
                pages == old(pages)[RoundDown(va) :=
                    Page(PageFrom(files[vmas[i].f], FileOffset(vmas[i], RoundDown(va))), false)]
      ensures out == Mapped ==> BroughtIn(vmas, files, pages, va)
    {
      hide PagesOk, FilesOk, Within, Apart, BroughtIn;
      var i := 0;
      while i < NVMA
        invariant 0 <= i <= NVMA && forall j :: 0 <= j < i ==> !In(vmas[j], va)
      {
        if vmas[i].valid && vmas[i].start <= va < vmas[i].end { break; }
        i := i + 1;
      }
      if i == NVMA { return Refused; }
      forall j | 0 <= j < NVMA && In(vmas[j], va)
        ensures j == i
      {
        AtMostOne(sz, base, vmas, i, j, va);
      }
      if !read && !Has(vmas[i].prot, PROT_WRITE) { return Refused; }
      if !mem { return Refused; }
      var page := RoundDown(va);
      PageInside(sz, base, vmas, files, i, va);
      if page in pages { return Panicked; }
      AddPage(vmas, pages, of, page, i, Page(PageFrom(files[vmas[i].f], FileOffset(vmas[i], page)), false));
      pages := pages[page := Page(PageFrom(files[vmas[i].f], FileOffset(vmas[i], page)), false)];
      of := of[page := i];
      FaultBytes(vmas, files, pages, va, i);
      out := Mapped;
    }

    /** A store by the user to a resident page sets its dirty bit. */
    method Store(va: nat, bytes: seq<nat>)
      requires Valid() && va in pages && |bytes| == PGSIZE
      modifies this`pages
      ensures Valid() && pages == old(pages)[va := Page(bytes, true)]
    {
      hide Layout, FilesOk;
      pages := pages[va := Page(bytes, true)];
    }

    /** Writes one page at a file offset in chunks, without passing the end of the file. */
    method WritePage(f: nat, off: nat, bytes: seq<nat>) returns (n: nat)
      requires f in files && off <= |files[f]| && |bytes| == PGSIZE
      modifies this`files
      ensures n == Min(PGSIZE, |old(files)[f]| - off) &&
                files == old(files)[f := Patched(old(files)[f], off, bytes[..n])]
    {
      hide Patched;
      var max := 3 * 1024;
      n := Min(PGSIZE, |files[f]| - off);
      ghost var was := files[f];
      PatchNone(was, off, bytes);
      var i := 0;
      while i < n
        invariant 0 <= i <= n && f in files && files == old(files)[f := files[f]] && |files[f]| == |was|
        invariant files[f] == Patched(was, off, bytes[..i])
      {
        var n1 := Min(n - i, max);
        PatchMore(was, off, bytes, i, n1);
        files := files[f := Patched(files[f], off + i, bytes[i..i + n1])];
        i := i + n1;
      }
      assert files == old(files)[f := Patched(was, off, bytes[..n])];
    }

    /** The write-back loop over [us, ue) of a shared mapping; the file never grows. */
    method WriteDirty(f: nat, us: nat, ue: nat, start: nat)
      requires f in files && forall va :: va in pages ==> |pages[va].bytes| == PGSIZE
      modifies this`files
      ensures files == old(files)[f := WriteBack(old(files)[f], DirtyRange(pages, us, ue), start)] &&
                |files[f]| == |old(files)[f]|
    {
      hide WriteBack, DirtyRange, Patched;
      ghost var was := files[f];
      var a: nat, off: nat := us, start;
      while a < ue
        invariant f in files && files == old(files)[f := files[f]]
        invariant WriteBack(files[f], DirtyRange(pages, a, ue), off) == WriteBack(was, DirtyRange(pages, us, ue), start)
        decreases ue - a
      {
        RangeNext(pages, a, ue);
        ghost var range := DirtyRange(pages, a, ue);
        if a in pages && pages[a].dirty {
          if off > |files[f]| {
            WriteNone(files[f], range, off);
            return;
          }
          WriteOne(files[f], range, off);
          var n := WritePage(f, off, pages[a].bytes);
          off := off + n;
        } else {
          SkipClean(files[f], range, off);
        }
        a := a + PGSIZE;
      }
      RangeNext(pages, a, ue);
      WriteNone(files[f], DirtyRange(pages, a, ue), off);
    }

    /** uvmunmap_vma() on mapping `i`: removes the pages of [addr, end) and trims the mapping, or refuses to leave a
        hole. */
    method UvmunmapVma(i: nat, addr: nat, end: nat) returns (r: int)
      requires Valid() && i < NVMA && Overlaps(vmas[i], addr, end) && Aligned(addr) && Aligned(end)
      modifies this`vmas, this`pages, this`files
      ensures Valid() && (r == 0 || r == -1)
      ensures r == -1 <==> old(vmas)[i].start < addr && end < old(vmas)[i].end
      ensures r == -1 ==> vmas == old(vmas) && pages == old(pages) && files == old(files)
      ensures r == 0 ==> var us, ue := Max(addr, old(vmas)[i].start), Min(end, old(vmas)[i].end);
                         && vmas == old(vmas)[i := Trimmed(old(vmas)[i], us, ue)]
                         && pages == Outside(old(pages), us, ue)
                         && files == Synced(old(files), old(vmas)[i], old(pages), us, ue)
                         && forall va :: va in pages <==> va in old(pages) && !(us <= va < ue)
      ensures forall va :: va in pages ==> va in old(pages) && pages[va] == old(pages)[va]
      ensures !Has(old(vmas)[i].flags, MAP_SHARED) ==> files == old(files)
    {
      hide Apart, Layout, Aligned, PagesOk, FilesOk, WriteBack, DirtyRange, Outside, Trimmed;
      InLayout(sz, base, vmas, i);
      var v := vmas[i];
      SyncedOk(vmas, pages, of, files, i);
      var us, ue := Max(addr, v.start), Min(end, v.end);
      if us != v.start && ue != v.end { return -1; }
      if Has(v.flags, MAP_SHARED) {
        FilesGrow(vmas, files, v.f, WriteBack(files[v.f], DirtyRange(pages, us, ue), FileOffset(v, us)));
        WriteDirty(v.f, us, ue, FileOffset(v, us));
      }
      TrimLayout(sz, base, vmas, i, us, ue);
      TrimPages(sz, base, vmas, pages, of, i, us, ue);
      TrimFiles(vmas, files, i, us, ue);
      OutsideIs(pages, us, ue);
      pages := Outside(pages, us, ue);
      vmas := vmas[i := Trimmed(v, us, ue)];
      r := 0;
    }

    /** sys_munmap(): at most one mapping is trimmed, and none if the end does not lie above the address.  The layout
        survives exactly when the end, if it becomes mmap_base, lies between the heap and the trapframe, and no second
        mapping lies in a range that starts at mmap_base. */
    method Munmap(addr: nat, len: int) returns (r: int)
      requires Valid() && addr < WORD && -0x8000_0000 <= len < 0x8000_0000
      modifies this`vmas, this`pages, this`files, this`base
      ensures (r == 0 || r == -1) && |vmas| == NVMA
      ensures r == -1 ==> vmas == old(vmas) && pages == old(pages) && files == old(files) && base == old(base)
      ensures r == -1 <==> addr == 0 || len == 0 || !Aligned(addr) || Punches(old(vmas), addr, EndOf(addr, len))
      ensures r == 0 ==> FirstUnmapped(old(vmas), old(pages), old(files), addr, EndOf(addr, len), vmas, pages, files)
      ensures Valid() <==> r == 0 && addr == old(base) ==>
                sz <= EndOf(addr, len) <= TRAPFRAME && AtMostOneIn(old(vmas), addr, EndOf(addr, len))
      ensures r == 0 ==> forall i, va: nat :: 0 <= i < NVMA ==>
                (In(vmas[i], va) <==>
                    In(old(vmas)[i], va) && !(addr <= va < EndOf(addr, len) &&
                    FirstIn(old(vmas), addr, EndOf(addr, len), i)))
      ensures forall i, va: nat :: 0 <= i < NVMA && In(vmas[i], va) ==> SameAt(old(vmas)[i], vmas[i], va)
      ensures r == 0 ==>
                forall va :: va in pages <==> va in old(pages) && !Removed(old(vmas), addr, EndOf(addr, len), va)
      ensures forall va :: va in pages ==> va in old(pages) && pages[va] == old(pages)[va]
      ensures forall f :: f in old(files) && f in files && files[f] != old(files)[f] ==>
                WrittenTo(old(vmas), addr, EndOf(addr, len), f)
      ensures forall f :: f in old(files) ==> f in files && |files[f]| == |old(files)[f]|
      ensures r == 0 ==> base == if addr == old(base) then EndOf(addr, len) else old(base)
    {
      hide Layout, PagesOk, FilesOk, Aligned, WriteBack, DirtyRange, Trimmed, In;
      ghost var was := vmas;
      LayoutLength(sz, base, vmas);
      if addr == 0 || len == 0 || !Aligned(addr) { return -1; }
      var end := EndOf(addr, len);
      EndIs(addr, len);
      NoneOutside(sz, base, vmas, addr, end);
      var i := 0;
      while i < NVMA
        invariant 0 <= i <= NVMA && forall j :: 0 <= j < i ==> !Overlaps(vmas[j], addr, end)
      {
        if vmas[i].valid && addr < vmas[i].end && vmas[i].start < end { break; }
        i := i + 1;
      }
      r := 0;
      if i < NVMA {
        assert FirstIn(was, addr, end, i);
        OneFirst(was, addr, end, i);
        InLayout(sz, base, vmas, i);
        r := UvmunmapVma(i, addr, end);
        if r == -1 { return; }
        forall va: nat
          ensures In(vmas[i], va) <==> In(was[i], va) && !(addr <= va < end)
          ensures In(vmas[i], va) ==> SameAt(was[i], vmas[i], va)
        {
          TrimmedTo(was[i], addr, end, va);
        }
        forall va | va in old(pages)
          ensures va in pages <==> !Removed(was, addr, end, va)
        {
          RemovedIs(was, addr, end, i, va);
        }
        MunmapLayout(sz, base, was, i, addr, end);
        SyncedOk(was, old(pages), of, old(files), i);
        assert UnmappedAt(was, old(pages), old(files), i, addr, end, vmas, pages, files);
      }
      if addr == base {
        base := end;
      }
    }
  }

  lemma LayoutLength(sz: nat, base: nat, vmas: seq<Vma>)
    requires Layout(sz, base, vmas)
    ensures |vmas| == NVMA && base <= TRAPFRAME && sz <= base
  {}

  lemma InLayout(sz: nat, base: nat, vmas: seq<Vma>, i: nat)
    requires Layout(sz, base, vmas) && i < NVMA
    ensures |vmas| == NVMA && Within(sz, base, vmas[i])
  {}

  lemma OneFirst(vmas: seq<Vma>, addr: nat, end: nat, i: nat)
    requires FirstIn(vmas, addr, end, i)
    ensures forall j: nat :: FirstIn(vmas, addr, end, j) ==> j == i
  {}

  /** Moving mmap_base over a range without mappings. */
  lemma NoneOutside(sz: nat, base: nat, vmas: seq<Vma>, addr: nat, end: nat)
    requires Layout(sz, base, vmas) && Aligned(end)
    ensures (forall i :: 0 <= i < NVMA ==> !Overlaps(vmas[i], addr, end)) && addr == base ==>
              (Layout(sz, end, vmas) <==> sz <= end <= TRAPFRAME)
  {
    if (forall i :: 0 <= i < NVMA ==> !Overlaps(vmas[i], addr, end)) && addr == base {
      RaiseBase(sz, base, vmas, end);
      forall i | 0 <= i < NVMA && vmas[i].valid
        ensures end <= vmas[i].start
      {
        assert Within(sz, base, vmas[i]) && !Overlaps(vmas[i], addr, end);
      }
    }
  }

  /** The layout after the first overlapping mapping is trimmed and mmap_base raised. */
  lemma MunmapLayout(sz: nat, base: nat, vmas: seq<Vma>, i: nat, addr: nat, end: nat)
    requires Layout(sz, base, vmas) && i < NVMA && Overlaps(vmas[i], addr, end) && Aligned(addr) && Aligned(end)
    requires !(vmas[i].start < addr && end < vmas[i].end)
    ensures var vmas' := vmas[i := Trimmed(vmas[i], Max(addr, vmas[i].start), Min(end, vmas[i].end))];
            addr == base ==> (Layout(sz, end, vmas') <==> sz <= end <= TRAPFRAME && AtMostOneIn(vmas, addr, end))
  {
    hide Layout, Aligned;
    InLayout(sz, base, vmas, i);
    var us, ue := Max(addr, vmas[i].start), Min(end, vmas[i].end);
    var vmas' := vmas[i := Trimmed(vmas[i], us, ue)];
    if addr == base {
      TrimLayout(sz, base, vmas, i, us, ue);
      RaiseBase(sz, base, vmas', end);
      forall j | 0 <= j < NVMA
        ensures vmas'[j].valid && vmas'[j].start < end <==> j != i && Overlaps(vmas[j], addr, end)
      {
        InLayout(sz, base, vmas, j);
      }
    }
  }

  /** The files after [us, ue) of a mapping was written back, if it is shared. */
  ghost function Synced(files: map<nat, seq<nat>>, v: Vma, pages: map<nat, Page>, us: nat, ue: nat): map<nat, seq<nat>>
    requires v.f in files && FileOffset(v, us) >= 0 && forall va :: va in pages ==> |pages[va].bytes| == PGSIZE
  {
    if !Has(v.flags, MAP_SHARED) then files
    else files[v.f := WriteBack(files[v.f], DirtyRange(pages, us, ue), FileOffset(v, us))]
  }

  /** Mapping `i` is trimmed by [addr, end): its pages there are gone, and written back if it is shared. */
  ghost predicate UnmappedAt(vmas: seq<Vma>, pages: map<nat, Page>, files: map<nat, seq<nat>>, i: nat, addr: nat,
      end: nat,
                             vmas': seq<Vma>, pages': map<nat, Page>, files': map<nat, seq<nat>>)
  {
    && i < |vmas|
    && var us, ue := Max(addr, vmas[i].start), Min(end, vmas[i].end);
       && vmas[i].f in files && FileOffset(vmas[i], us) >= 0 &&
           (forall va :: va in pages ==> |pages[va].bytes| == PGSIZE)
       && vmas' == vmas[i := Trimmed(vmas[i], us, ue)]
       && pages' == Outside(pages, us, ue)
       && files' == Synced(files, vmas[i], pages, us, ue)
  }

  /** The first mapping that overlaps [addr, end) is trimmed; without one nothing changes. */
  ghost predicate FirstUnmapped(vmas: seq<Vma>, pages: map<nat, Page>, files: map<nat, seq<nat>>, addr: nat, end: nat,
                                vmas': seq<Vma>, pages': map<nat, Page>, files': map<nat, seq<nat>>)
  {
    || (exists i: nat ::
        FirstIn(vmas, addr, end, i) && UnmappedAt(vmas, pages, files, i, addr, end, vmas', pages', files'))
    || ((forall i :: 0 <= i < |vmas| ==> !Overlaps(vmas[i], addr, end)) && vmas' == vmas && pages' == pages &&
        files' == files)
  }

  lemma RangeNext(pages: map<nat, Page>, a: nat, ue: nat)
    requires forall va :: va in pages ==> |pages[va].bytes| == PGSIZE
    ensures a >= ue ==> DirtyRange(pages, a, ue) == []
    ensures a < ue ==>
              && DirtyRange(pages, a, ue) != [] && DirtyRange(pages, a, ue)[0] == DirtyAt(pages, a)
              && DirtyRange(pages, a, ue)[1..] == DirtyRange(pages, a + PGSIZE, ue)
  {}

  lemma WriteNone(file: seq<nat>, pages: seq<Dirty>, off: nat)
    requires Whole(pages) && (pages == [] || off > |file|)
    ensures WriteBack(file, pages, off) == file
  {}

  lemma WriteOne(file: seq<nat>, pages: seq<Dirty>, off: nat)
    requires Whole(pages) && pages != [] && pages[0].Bytes? && off <= |file|
    ensures var n := Min(PGSIZE, |file| - off);
            WriteBack(file, pages, off) == WriteBack(Patched(file, off, pages[0].page[..n]), pages[1..], off + n)
  {}

  lemma SkipClean(file: seq<nat>, pages: seq<Dirty>, off: nat)
    requires Whole(pages) && pages != [] && pages[0].Clean?
    ensures WriteBack(file, pages, off) == WriteBack(file, pages[1..], off)
  {}

  /** Pages outside the range that went stay in their mapping. */
  lemma TrimPages(sz: nat, base: nat, vmas: seq<Vma>, pages: map<nat, Page>, of: map<nat, nat>, i: nat, us: nat,
      ue: nat)
    requires Layout(sz, base, vmas) && PagesOk(vmas, pages, of) && i < NVMA && vmas[i].valid
    requires vmas[i].start <= us < ue <= vmas[i].end && (us == vmas[i].start || ue == vmas[i].end)
    ensures PagesOk(vmas[i := Trimmed(vmas[i], us, ue)], Outside(pages, us, ue), of)
  {}

  /** uvmunmap() of the resident pages of [us, ue). */
  function Outside(pages: map<nat, Page>, us: nat, ue: nat): map<nat, Page> {
    map va | va in pages && !(us <= va < ue) :: pages[va]
  }

  lemma OutsideIs(pages: map<nat, Page>, us: nat, ue: nat)
    ensures forall va :: va in Outside(pages, us, ue) <==> va in pages && !(us <= va < ue)
    ensures forall va :: va in Outside(pages, us, ue) ==> Outside(pages, us, ue)[va] == pages[va]
  {}

  lemma SyncedOk(vmas: seq<Vma>, pages: map<nat, Page>, of: map<nat, nat>, files: map<nat, seq<nat>>, i: nat)
    requires PagesOk(vmas, pages, of) && FilesOk(vmas, files) && i < NVMA && vmas[i].valid
    ensures vmas[i].f in files && vmas[i].offset >= 0 && forall va :: va in pages ==> |pages[va].bytes| == PGSIZE
  {}

  lemma FilesGrow(vmas: seq<Vma>, files: map<nat, seq<nat>>, f: nat, file: seq<nat>)
    requires FilesOk(vmas, files)
    ensures FilesOk(vmas, files[f := file])
  {}

  lemma TrimFiles(vmas: seq<Vma>, files: map<nat, seq<nat>>, i: nat, us: nat, ue: nat)
    requires FilesOk(vmas, files) && i < |vmas| && vmas[i].start <= us < ue
    ensures FilesOk(vmas[i := Trimmed(vmas[i], us, ue)], files)
  {}

  /** The first mapping that overlaps the range sticks out on both sides. */
  ghost predicate Punches(vmas: seq<Vma>, addr: nat, end: nat) {
    exists i: nat :: FirstIn(vmas, addr, end, i) && vmas[i].start < addr && end < vmas[i].end
  }

  ghost predicate FirstIn(vmas: seq<Vma>, addr: nat, end: nat, i: nat) {
    i < |vmas| && Overlaps(vmas[i], addr, end) && forall j :: 0 <= j < i ==> !Overlaps(vmas[j], addr, end)
  }

  ghost predicate AtMostOneIn(vmas: seq<Vma>, addr: nat, end: nat) {
    forall i, j :: 0 <= i < j < |vmas| ==> !(Overlaps(vmas[i], addr, end) && Overlaps(vmas[j], addr, end))
  }

  /** sys_munmap()'s end address, a uint64. */
  function EndOf(addr: nat, len: int): nat { Wrapped(RoundUp(addr + len)) }

  /** The end covers the bytes asked for, and less than a page more. */
  lemma EndCovers(addr: nat, len: nat)
    requires addr + len + PGSIZE <= WORD
    ensures Aligned(EndOf(addr, len)) && addr + len <= EndOf(addr, len) < addr + len + PGSIZE
  {
    RoundedUp(addr + len);
    WrapIs(RoundUp(addr + len));
    EndIs(addr, len);
  }

  lemma EndIs(addr: nat, len: int)
    ensures Aligned(EndOf(addr, len))
  {
    WrapAligned(RoundUp(addr + len));
  }

  lemma WrapAligned(x: int)
    requires x % PGSIZE == 0
    ensures Aligned(Wrapped(x))
  {
    assert x == PGSIZE * (x / PGSIZE) && WORD == PGSIZE * (WORD / PGSIZE);
    assert x % WORD == PGSIZE * (x / PGSIZE - WORD / PGSIZE * (x / WORD));
  }

  /** The uint64 value of an expression. */
  function Wrapped(x: int): nat { x % WORD }

  predicate Allowed(prot: nat, flags: nat, readable: bool, writable: bool) {
    (Has(prot, PROT_READ) ==> readable) && (Has(prot, PROT_WRITE) && Has(flags, MAP_SHARED) ==> writable)
  }

  /** The start address differs from the base by whole pages, or has wrapped to one that is refused; the end wraps back
      to the base. */
  lemma StartIs(base: nat, len: int)
    requires Aligned(base) && base <= TRAPFRAME && -0x8000_0000 <= len <= 0x7fff_f000
    ensures RoundUp(len) % PGSIZE == 0 && (len > 0 ==> RoundUp(len) > 0) && (len <= 0 ==> RoundUp(len) <= 0)
    ensures var start := RoundDown(Wrapped(base - Wrapped(RoundUp(len))));
            if RoundUp(len) <= base then start == base - RoundUp(len) && Aligned(start) &&
                Wrapped(start + Wrapped(RoundUp(len))) == base
            else start >= TRAPFRAME
  {
    hide Wrapped;
    RoundedUp(len);
    var size := RoundUp(len);
    WrapIs(size);
    WrapIs(base - Wrapped(size));
    if size <= base {
      RoundedDown(base - size);
      WrapIs(base - size + Wrapped(size));
    } else {
      RoundedDown(base - size + WORD);
    }
  }

  lemma RoundedUp(len: int)
    ensures RoundUp(len) % PGSIZE == 0 && len <= RoundUp(len) < len + PGSIZE
  {}

  lemma RoundedDown(x: nat)
    ensures x - PGSIZE < RoundDown(x) <= x && (x % PGSIZE == 0 ==> RoundDown(x) == x)
  {}

  lemma WrapIs(x: int)
    requires 0 - WORD <= x < 2 * WORD
    ensures Wrapped(x) == if x < 0 then x + WORD else if x < WORD then x else x - WORD
  {}

  ghost predicate SlotTaken(vmas: seq<Vma>, vmas': seq<Vma>, v: Vma) {
    exists i :: 0 <= i < |vmas| && !vmas[i].valid && vmas' == vmas[i := v]
  }

  /** What a mapping that ends at mmap_base does to the process. */
  lemma NewMapping(sz: nat, base: nat, vmas: seq<Vma>, pages: map<nat, Page>, of: map<nat, nat>,
      files: map<nat, seq<nat>>, i: nat, v: Vma)
    requires Layout(sz, base, vmas) && PagesOk(vmas, pages, of) && FilesOk(vmas, files) && i < NVMA && !vmas[i].valid
    requires v.valid && v.end == base && Aligned(v.start) && sz <= v.start && v.f in files
    ensures Layout(sz, v.start, vmas[i := v]) && PagesOk(vmas[i := v], pages, of) && FilesOk(vmas[i := v], files) <==>
            v.start < base && v.offset >= 0
    ensures Layout(sz, v.start, vmas[i := v]) <==> v.start < base
  {
    hide Aligned, Apart;
    if v.start < base {
      AddLayout(sz, base, vmas, i, v);
      if v.offset >= 0 {
        AddPagesFiles(vmas, pages, of, files, i, v);
      } else {
        assert vmas[i := v][i] == v;
      }
    } else {
      assert vmas[i := v][i] == v;
      assert v.start >= base ==> !Within(sz, v.start, vmas[i := v][i]);
    }
  }

  lemma AddPagesFiles(vmas: seq<Vma>, pages: map<nat, Page>, of: map<nat, nat>, files: map<nat, seq<nat>>, i: nat,
      v: Vma)
    requires PagesOk(vmas, pages, of) && FilesOk(vmas, files) && i < NVMA && !vmas[i].valid && v.f in files &&
               v.offset >= 0
    ensures PagesOk(vmas[i := v], pages, of) && FilesOk(vmas[i := v], files)
  {}

  /** The page that holds the address is there, and each of its bytes is the byte of the file as far from the mapping's
      offset as the address is from the mapping's start, or zero past the end. */
  ghost predicate BroughtIn(vmas: seq<Vma>, files: map<nat, seq<nat>>, pages: map<nat, Page>, va: nat) {
    exists page: nat :: Aligned(page) && page <= va < page + PGSIZE && page in pages &&
        |pages[page].bytes| == PGSIZE && !pages[page].dirty &&
        forall i, j: nat :: 0 <= i < |vmas| && In(vmas[i], va) && j < PGSIZE ==>
            vmas[i].f in files && page >= vmas[i].start && vmas[i].offset >= 0 &&
                pages[page].bytes[j] == ByteAt(files[vmas[i].f], vmas[i].offset + (page - vmas[i].start) + j)
  }

  function ByteAt(file: seq<nat>, x: nat): nat { if x < |file| then file[x] else 0 }

  lemma FaultBytes(vmas: seq<Vma>, files: map<nat, seq<nat>>, pages: map<nat, Page>, va: nat, i: nat)
    requires i < |vmas| && In(vmas[i], va) && In(vmas[i], RoundDown(va)) && vmas[i].f in files && vmas[i].offset >= 0
    requires forall j :: 0 <= j < |vmas| && In(vmas[j], va) ==> j == i
    requires RoundDown(va) in pages
    requires FileOffset(vmas[i], RoundDown(va)) >= 0 &&
               pages[RoundDown(va)] == Page(PageFrom(files[vmas[i].f], FileOffset(vmas[i], RoundDown(va))), false)
    ensures BroughtIn(vmas, files, pages, va)
  {
    RoundedDown(va);
    PageStart(va);
    assert Aligned(RoundDown(va));
  }

  lemma PageStart(va: nat)
    ensures RoundDown(va) % PGSIZE == 0
  {}

  /** The page of an address in a mapping is in it too. */
  lemma PageInside(sz: nat, base: nat, vmas: seq<Vma>, files: map<nat, seq<nat>>, i: nat, va: nat)
    requires Layout(sz, base, vmas) && FilesOk(vmas, files) && i < NVMA && In(vmas[i], va)
    ensures In(vmas[i], RoundDown(va)) && Aligned(RoundDown(va)) && vmas[i].f in files &&
              FileOffset(vmas[i], RoundDown(va)) >= 0 && vmas[i].offset >= 0
  {
    assert Within(sz, base, vmas[i]);
    assert va == va / PGSIZE * PGSIZE + va % PGSIZE;
    assert vmas[i].start == vmas[i].start / PGSIZE * PGSIZE;
  }

  lemma AddPage(vmas: seq<Vma>, pages: map<nat, Page>, of: map<nat, nat>, va: nat, i: nat, page: Page)
    requires PagesOk(vmas, pages, of) && i < NVMA && In(vmas[i], va) && Aligned(va) && |page.bytes| == PGSIZE
    ensures PagesOk(vmas, pages[va := page], of[va := i])
  {}

  function PairOfMappings(): seq<Vma> {
    seq(NVMA, i => if i == 0 then Vma(true, TRAPFRAME - PGSIZE, TRAPFRAME, 1, 2, 0, 0)
                   else if i == 1 then Vma(true, TRAPFRAME - 2 * PGSIZE, TRAPFRAME - PGSIZE, 1, 2, 0, 0)
                   else Vma(false, 0, 0, 0, 0, 0, 0))
  }

  /** Two mappings of one page each, and a munmap() of both pages at mmap_base: only the first slot is unmapped, and
      the other mapping ends up below mmap_base. */
  lemma MunmapOfTwo()
    ensures var vmas, base := PairOfMappings(), TRAPFRAME - 2 * PGSIZE;
            Layout(0, base, vmas) && FirstIn(vmas, base, TRAPFRAME, 0) &&
                !Layout(0, TRAPFRAME, vmas[0 := Trimmed(vmas[0], TRAPFRAME - PGSIZE, TRAPFRAME)])
  {
    var vmas, base := PairOfMappings(), TRAPFRAME - 2 * PGSIZE;
    assert Overlaps(vmas[0], base, TRAPFRAME) && Overlaps(vmas[1], base, TRAPFRAME);
    assert Layout(0, base, vmas);
    MunmapLayout(0, base, vmas, 0, base, TRAPFRAME);
  }

  // ------------------------------------------------- the failing calls are reached

  /** A mapping of two pages, then a mapping of length -PGSIZE: mmap_base moves up into the first. */
  method NegativeLength() returns (p: Process)
    ensures fresh(p) && !p.Valid() && p.base == TRAPFRAME - PGSIZE
  {
    hide PagesOk, FilesOk, Within, Apart;
    p := new Process(map[0 := []]);
    assert !p.vmas[0].valid && !p.vmas[1].valid;
    var r := p.Mmap(0, 2 * PGSIZE, PROT_READ, 0, 0, true, true, 0);
    assert |p.vmas| == NVMA && (!p.vmas[0].valid || !p.vmas[1].valid);
    r := p.Mmap(0, 0 - PGSIZE, PROT_READ, 0, 0, true, true, 0);
  }

  /** A write brings in a page of a mapping that may not be read; a read of it faults again, and the kernel panics. */
  method ReadAfterWrite() returns (out: FaultResult)
    ensures out == Panicked
  {
    hide PagesOk, FilesOk, Within, Apart;
    var p := new Process(map[0 := []]);
    assert !p.vmas[0].valid;
    ghost var was := p.vmas;
    var r := p.Mmap(0, PGSIZE, PROT_WRITE, 0, 0, true, true, 0);
    ghost var i :| 0 <= i < |was| && !was[i].valid && p.vmas == was[i := Vma(true, r, TRAPFRAME, PROT_WRITE, 0, 0, 0)];
    assert In(p.vmas[i], r) && RoundDown(r) == r;
    out := p.Fault(r, false, true);
    out := p.Fault(r, true, true);
  }

  /** A file open for reading only: it cannot be mapped shared and writable, but it can be mapped shared to be read, and
      private to be written. */
  method ReadOnlyFile() returns (shared: int, seen: int, private': int, write: FaultResult)
    ensures shared == -1 && seen != -1 && private' != -1 && write == Refused
  {
    hide PagesOk, FilesOk, Within, Apart;
    var p := new Process(map[0 := []]);
    assert !p.vmas[0].valid && !p.vmas[1].valid;
    ghost var was := p.vmas;
    shared := p.Mmap(0, PGSIZE, PROT_READ + PROT_WRITE, MAP_SHARED, 0, true, false, 0);
    assert p.vmas == was;
    seen := p.Mmap(0, PGSIZE, PROT_READ, MAP_SHARED, 0, true, false, 0);
    ghost var i :| 0 <= i < |was| && !was[i].valid &&
        p.vmas == was[i := Vma(true, seen, TRAPFRAME, PROT_READ, MAP_SHARED,
        0, 0)];
    forall j | 0 <= j < NVMA && In(p.vmas[j], seen)
      ensures !Has(p.vmas[j].prot, PROT_WRITE)
    {
      assert j == i;
    }
    write := p.Fault(seen, false, true);
    assert !p.vmas[if i == 0 then 1 else 0].valid;
    private' := p.Mmap(0, PGSIZE, PROT_READ + PROT_WRITE, MAP_PRIVATE, 0, true, false, 0);
  }

  /** A shared mapping of a two-page file of zeros, with ones stored in its second page only. */
  method StoredInSecond() returns (p: Process, r: nat, ghost i: nat)
    ensures fresh(p) && p.Valid() && p.base == r == TRAPFRAME - 2 * PGSIZE && p.files == map[0 := Zeros(2 * PGSIZE)]
    ensures i < NVMA && p.vmas[i] == Vma(true, r, TRAPFRAME, PROT_READ + PROT_WRITE, MAP_SHARED, 0, 0) && p.sz == 0
    ensures forall j :: 0 <= j < NVMA && j != i ==> !p.vmas[j].valid
    ensures p.pages == map[r + PGSIZE := Page(Ones(), true)]
  {
    hide PagesOk, FilesOk, Within, Apart, Ones, Zeros, PageFrom;
    p := new Process(map[0 := Zeros(2 * PGSIZE)]);
    assert !p.vmas[0].valid;
    ghost var was := p.vmas;
    r := p.Mmap(0, 2 * PGSIZE, PROT_READ + PROT_WRITE, MAP_SHARED, 0, true, true, 0);
    i :| 0 <= i < |was| && !was[i].valid &&
        p.vmas == was[i := Vma(true, r, TRAPFRAME, PROT_READ + PROT_WRITE, MAP_SHARED, 0, 0)];
    assert In(p.vmas[i], r + PGSIZE) && RoundDown(r + PGSIZE) == r + PGSIZE;
    var out := p.Fault(r + PGSIZE, false, true);
    OnesLength();
    p.Store(r + PGSIZE, Ones());
  }

  /** munmap() then puts the ones in the first page of the file. */
  method WrittenToWrongPage() returns (p: Process)
    ensures fresh(p) && p.Valid() && 0 in p.files && p.files[0] == Ones() + Zeros(PGSIZE) != Zeros(PGSIZE) + Ones()
  {
    hide Layout, PagesOk, FilesOk, WriteBack, DirtyRange, Trimmed, Ones, Zeros, RoundUp, Outside;
    var r;
    ghost var i;
    p, r, i := StoredInSecond();
    ghost var pages := p.pages;
    EndOfTwo();
    LayoutLength(p.sz, p.base, p.vmas);
    OnlyOne(p.vmas, i, r);
    var r' := p.Munmap(r, 2 * PGSIZE);
    SecondOnly(pages, r);
  }

  lemma OnesLength()
    ensures |Ones()| == PGSIZE
  {}

  lemma EndOfTwo()
    ensures EndOf(TRAPFRAME - 2 * PGSIZE, 2 * PGSIZE) == TRAPFRAME && Aligned(TRAPFRAME - 2 * PGSIZE)
  {}

  function Zeros(n: nat): seq<nat> { seq(n, _ => 0) }

  /** The only mapping is the first and the only one to overlap its range. */
  lemma OnlyOne(vmas: seq<Vma>, i: nat, r: nat)
    requires |vmas| == NVMA && i < NVMA && (forall j :: 0 <= j < NVMA && j != i ==> !vmas[j].valid)
    requires vmas[i].valid && vmas[i].start == r < TRAPFRAME == vmas[i].end
    ensures FirstIn(vmas, r, TRAPFRAME, i) && AtMostOneIn(vmas, r, TRAPFRAME) && !Punches(vmas, r, TRAPFRAME)
    ensures forall j: nat :: FirstIn(vmas, r, TRAPFRAME, j) ==> j == i
  {}

  /** Write-back of a clean page and then a page of ones. */
  lemma SecondOnly(pages: map<nat, Page>, r: nat)
    requires (forall va :: va in pages ==> |pages[va].bytes| == PGSIZE) && DirtyAt(pages, r).Clean?
    requires DirtyAt(pages, r + PGSIZE) == Bytes(Ones())
    ensures WriteBack(Zeros(2 * PGSIZE), DirtyRange(pages, r, r + 2 * PGSIZE), 0) == Ones() + Zeros(PGSIZE)
    ensures Ones() + Zeros(PGSIZE) != Zeros(PGSIZE) + Ones()
  {
    var file := Zeros(2 * PGSIZE);
    var range := DirtyRange(pages, r, r + 2 * PGSIZE);
    assert DirtyRange(pages, r + PGSIZE, r + 2 * PGSIZE) == [Bytes(Ones())];
    assert range == [Clean, Bytes(Ones())];
    SkipClean(file, range, 0);
    assert range[1..] == [Bytes(Ones())] && Ones()[..PGSIZE] == Ones();
    assert Patched(file, 0, Ones()) == Ones() + Zeros(PGSIZE);
    assert (Ones() + Zeros(PGSIZE))[0] == 1;
  }

  /** Two one-page mappings of different files, both there, and ones stored in the second. */
  method TwoMapped() returns (p: Process, ghost i: nat, ghost j: nat)
    ensures fresh(p) && p.Valid() && p.base == TRAPFRAME - 2 * PGSIZE && p.sz == 0
    ensures p.files == map[0 := Zeros(PGSIZE), 1 := Zeros(PGSIZE)] && i < NVMA && j < NVMA && i != j
    ensures p.vmas[i] == OnePage(TRAPFRAME - PGSIZE, 0) && p.vmas[j] == OnePage(TRAPFRAME - 2 * PGSIZE, 1)
    ensures forall k :: 0 <= k < NVMA && k != i && k != j ==> !p.vmas[k].valid
    ensures TRAPFRAME - PGSIZE in p.pages && !p.pages[TRAPFRAME - PGSIZE].dirty
    ensures TRAPFRAME - 2 * PGSIZE in p.pages && p.pages[TRAPFRAME - 2 * PGSIZE] == Page(Ones(), true)
  {
    hide PagesOk, FilesOk, Within, Apart, Ones, Zeros, PageFrom;
    p, i, j := TwoMappings();
    var first, second := TRAPFRAME - PGSIZE, TRAPFRAME - 2 * PGSIZE;
    assert In(p.vmas[i], first) && RoundDown(first) == first;
    assert In(p.vmas[j], second) && RoundDown(second) == second;
    var out := p.Fault(first, false, true);
    out := p.Fault(second, false, true);
    OnesLength();
    p.Store(second, Ones());
  }

  function OnePage(start: nat, f: nat): Vma {
    Vma(true, start, start + PGSIZE, PROT_READ + PROT_WRITE, MAP_SHARED, f, 0)
  }

  method TwoMappings() returns (p: Process, ghost i: nat, ghost j: nat)
    ensures fresh(p) && p.Valid() && p.base == TRAPFRAME - 2 * PGSIZE && p.sz == 0 && p.pages == map[]
    ensures p.files == map[0 := Zeros(PGSIZE), 1 := Zeros(PGSIZE)] && i < NVMA && j < NVMA && i != j
    ensures p.vmas[i] == OnePage(TRAPFRAME - PGSIZE, 0) && p.vmas[j] == OnePage(TRAPFRAME - 2 * PGSIZE, 1)
    ensures forall k :: 0 <= k < NVMA && k != i && k != j ==> !p.vmas[k].valid
  {
    hide PagesOk, FilesOk, Within, Apart, Zeros;
    p := new Process(map[0 := Zeros(PGSIZE), 1 := Zeros(PGSIZE)]);
    ghost var was := p.vmas;
    assert !was[0].valid && !was[1].valid;
    var r := p.Mmap(0, PGSIZE, PROT_READ + PROT_WRITE, MAP_SHARED, 0, true, true, 0);
    i :| 0 <= i < |was| && !was[i].valid && p.vmas == was[i := OnePage(r, 0)];
    assert p.vmas[i] == OnePage(r, 0);
    was := p.vmas;
    assert !was[if i == 0 then 1 else 0].valid;
    r := p.Mmap(0, PGSIZE, PROT_READ + PROT_WRITE, MAP_SHARED, 1, true, true, 0);
    j :| 0 <= j < |was| && !was[j].valid && p.vmas == was[j := OnePage(r, 1)];
  }

  /** munmap() of the first leaves the second mapping's page, which its own munmap() then writes back. */
  method SecondStays() returns (p: Process)
    ensures fresh(p) && 0 in p.files && 1 in p.files && p.files[0] == Zeros(PGSIZE) && p.files[1] == Ones()
  {
    hide Layout, PagesOk, FilesOk, WriteBack, DirtyRange, Trimmed, Ones, Zeros, RoundUp, Outside, Removed;
    ghost var i, j;
    p, i, j := TwoMapped();
    var first, second := TRAPFRAME - PGSIZE, TRAPFRAME - 2 * PGSIZE;
    ghost var vmas, pages := p.vmas, p.pages;
    EndOfOne();
    LayoutLength(p.sz, p.base, p.vmas);
    OnlyThis(vmas, i, j, first, TRAPFRAME);
    RemovedIs(vmas, first, TRAPFRAME, i, second);
    var r := p.Munmap(first, PGSIZE);
    CleanOnly(Zeros(PGSIZE), pages, first);
    ghost var vmas1, pages1 := p.vmas, p.pages;
    assert In(vmas[j], second);
    TrimAll(vmas[i]);
    OnlyThis(vmas1, j, i, second, first);
    r := p.Munmap(second, PGSIZE);
    DirtyOnly(pages1, second);
  }

  lemma EndOfOne()
    ensures EndOf(TRAPFRAME - PGSIZE, PGSIZE) == TRAPFRAME && Aligned(TRAPFRAME - PGSIZE)
    ensures EndOf(TRAPFRAME - 2 * PGSIZE, PGSIZE) == TRAPFRAME - PGSIZE && Aligned(TRAPFRAME - 2 * PGSIZE)
  {}

  /** One page of mapping `i`: no other overlaps it. */
  lemma OnlyThis(vmas: seq<Vma>, i: nat, j: nat, r: nat, end: nat)
    requires |vmas| == NVMA && end == r + PGSIZE && i < NVMA && j < NVMA && i != j
    requires forall k :: 0 <= k < NVMA && k != i && k != j ==> !vmas[k].valid
    requires vmas[i].valid && vmas[i].start == r && vmas[i].end == end && !Overlaps(vmas[j], r, end)
    ensures FirstIn(vmas, r, end, i) && AtMostOneIn(vmas, r, end) && !Punches(vmas, r, end)
    ensures forall k: nat :: FirstIn(vmas, r, end, k) ==> k == i
  {}

  lemma TrimAll(v: Vma)
    ensures Trimmed(v, v.start, v.end) == v.(valid := false)
  {}

  lemma CleanOnly(file: seq<nat>, pages: map<nat, Page>, r: nat)
    requires (forall va :: va in pages ==> |pages[va].bytes| == PGSIZE) && DirtyAt(pages, r).Clean?
    ensures WriteBack(file, DirtyRange(pages, r, r + PGSIZE), 0) == file
  {
    RangeNext(pages, r, r + PGSIZE);
    RangeNext(pages, r + PGSIZE, r + PGSIZE);
    SkipClean(file, DirtyRange(pages, r, r + PGSIZE), 0);
    WriteNone(file, DirtyRange(pages, r + PGSIZE, r + PGSIZE), 0);
  }

  lemma DirtyOnly(pages: map<nat, Page>, r: nat)
    requires (forall va :: va in pages ==> |pages[va].bytes| == PGSIZE) && DirtyAt(pages, r) == Bytes(Ones())
    ensures WriteBack(Zeros(PGSIZE), DirtyRange(pages, r, r + PGSIZE), 0) == Ones()
  {
    hide WriteBack, DirtyRange;
    var file := Zeros(PGSIZE);
    RangeNext(pages, r, r + PGSIZE);
    RangeNext(pages, r + PGSIZE, r + PGSIZE);
    WriteOne(file, DirtyRange(pages, r, r + PGSIZE), 0);
    assert Ones()[..PGSIZE] == Ones() && Patched(file, 0, Ones()) == Ones();
    WriteNone(Ones(), DirtyRange(pages, r + PGSIZE, r + PGSIZE), PGSIZE);
  }
}
