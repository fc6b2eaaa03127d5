/** The Kernighan & Ritchie storage allocator of user/umalloc.c.

    Addresses are byte addresses, a header takes 16 bytes, and block sizes count
    headers ("units"), the block's own header included.  The memory words that
    matter are the two header fields, kept as maps from header address to value.

    The free list is a ring through `ptr`.  The ghost sequence `ring` lists its
    headers in address order, starting at the static header `base`, which has
    size 0 and lies below every address sbrk returns. */
module KrMalloc {

  const HDR: nat := 16
  const HEAP_LIMIT: nat := 0x10_0000_0000 // 2^36: keeps every unit count within 32 bits

  /** What sbrk would answer if it were called: a refusal or the start of the new region. */
  datatype Grant = Refused | Granted(addr: nat)

  /** Units needed for a request: the payload rounded up to whole units, plus one header. */
  function Units(nbytes: nat): (n: nat)
    ensures n >= 1 && nbytes <= HDR * (n - 1) < nbytes + HDR
  {
    (nbytes + HDR - 1) / HDR + 1
  }

  /** The C conversion of an unsigned 64-bit product to sbrk's int parameter. */
  function ToInt32(x: nat): int {
    var y := x % 0x1_0000_0000;
    if y < 0x8000_0000 then y else y - 0x1_0000_0000
  }

  /** One word of every header, by header address; a word never stored reads as 0. */
  type Words = map<nat, nat>

  function Load(m: Words, a: nat): nat { if a in m then m[a] else 0 }

  // ------------------------------------------------- blocks tile the arena

  /** One past the last byte of the block at `a`. */
  ghost function End(a: nat, units: nat): nat { a + HDR * units }

  ghost predicate Holds(a: nat, n: nat, u: nat) { a <= u < End(a, n) }

  ghost predicate Apart(a: nat, m: nat, b: nat, n: nat) {
    End(a, m) <= b || End(b, n) <= a
  }

  ghost predicate InBlock(blocks: map<nat, nat>, u: nat) {
    exists a :: a in blocks && Holds(a, blocks[a], u)
  }

  ghost predicate Disjoint(blocks: map<nat, nat>) {
    && (forall a :: a in blocks ==> blocks[a] >= 1)
    && (forall a, b :: a in blocks && b in blocks && a != b ==> Apart(a, blocks[a], b, blocks[b]))
  }

  /** Every byte sbrk ever gave lies in exactly one block, free or live, and no other byte does. */
  ghost predicate Tiled(blocks: map<nat, nat>, arena: set<nat>) {
    Disjoint(blocks) && forall u :: u in arena <==> InBlock(blocks, u)
  }

  lemma InOne(blocks: map<nat, nat>, a: nat, u: nat)
    requires a in blocks && Holds(a, blocks[a], u)
    ensures InBlock(blocks, u)
  {}

  lemma WhichOne(blocks: map<nat, nat>, u: nat) returns (a: nat)
    requires InBlock(blocks, u)
    ensures a in blocks && Holds(a, blocks[a], u)
  {
    a :| a in blocks && Holds(a, blocks[a], u);
  }

  ghost function Merged(blocks: map<nat, nat>, a: nat, b: nat): map<nat, nat>
    requires a in blocks && b in blocks
  {
    (blocks - {b})[a := blocks[a] + blocks[b]]
  }

  lemma MergeDisjoint(blocks: map<nat, nat>, a: nat, b: nat)
    requires Disjoint(blocks) && a in blocks && b in blocks && a != b && End(a, blocks[a]) == b
    ensures Disjoint(Merged(blocks, a, b))
  {
    var blocks' := Merged(blocks, a, b);
    forall c, d | c in blocks' && d in blocks' && c != d ensures Apart(c, blocks'[c], d, blocks'[d]) {
      assert Apart(c, blocks[c], d, blocks[d]);
      if c == a {
        assert Apart(d, blocks[d], b, blocks[b]);
      } else if d == a {
        assert Apart(c, blocks[c], b, blocks[b]);
      }
    }
  }

  lemma MergeHolds(blocks: map<nat, nat>, a: nat, b: nat, u: nat)
    requires a in blocks && b in blocks && a != b && End(a, blocks[a]) == b
    ensures InBlock(Merged(blocks, a, b), u) <==> InBlock(blocks, u)
  {
    hide InBlock;
    var blocks' := Merged(blocks, a, b);
    if InBlock(blocks, u) {
      var c := WhichOne(blocks, u);
      InOne(blocks', if c == b then a else c, u);
    }
    if InBlock(blocks', u) {
      var c := WhichOne(blocks', u);
      InOne(blocks, if c == a && u >= b then b else c, u);
    }
  }

  lemma MergeTiled(blocks: map<nat, nat>, arena: set<nat>, a: nat, b: nat)
    requires Tiled(blocks, arena) && a in blocks && b in blocks && a != b && End(a, blocks[a]) == b
    ensures Tiled(Merged(blocks, a, b), arena)
  {
    hide Disjoint, InBlock, Merged;
    MergeDisjoint(blocks, a, b);
    forall u: nat
      ensures InBlock(Merged(blocks, a, b), u) <==> InBlock(blocks, u)
    {
      MergeHolds(blocks, a, b, u);
    }
  }

  ghost function Split(blocks: map<nat, nat>, a: nat, m: nat): map<nat, nat>
    requires a in blocks && m <= blocks[a]
  {
    blocks[a := m][End(a, m) := blocks[a] - m]
  }

  lemma SplitDisjoint(blocks: map<nat, nat>, a: nat, m: nat)
    requires Disjoint(blocks) && a in blocks && 1 <= m < blocks[a]
    ensures End(a, m) !in blocks && Disjoint(Split(blocks, a, m))
  {
    var blocks' := Split(blocks, a, m);
    var q := End(a, m);
    assert q !in blocks by { assert q in blocks ==> Apart(a, blocks[a], q, blocks[q]); }
    forall c, d | c in blocks' && d in blocks' && c != d ensures Apart(c, blocks'[c], d, blocks'[d]) {
      if c in blocks && d in blocks {
        assert Apart(c, blocks[c], d, blocks[d]);
      } else {
        var e := if c == q then d else c;
        if e != a {
          assert Apart(e, blocks[e], a, blocks[a]);
        }
      }
    }
  }

  lemma SplitHolds(blocks: map<nat, nat>, a: nat, m: nat, u: nat)
    requires a in blocks && 1 <= m < blocks[a] && End(a, m) !in blocks
    ensures InBlock(Split(blocks, a, m), u) <==> InBlock(blocks, u)
  {
    hide InBlock;
    var blocks', q := Split(blocks, a, m), End(a, m);
    if InBlock(blocks, u) {
      var c := WhichOne(blocks, u);
      InOne(blocks', if c == a && u >= q then q else c, u);
    }
    if InBlock(blocks', u) {
      var c := WhichOne(blocks', u);
      InOne(blocks, if c == q then a else c, u);
    }
  }

  lemma SplitTiled(blocks: map<nat, nat>, arena: set<nat>, a: nat, m: nat)
    requires Tiled(blocks, arena) && a in blocks && 1 <= m < blocks[a]
    ensures End(a, m) !in blocks && Tiled(Split(blocks, a, m), arena)
  {
    hide Disjoint, InBlock, Split;
    SplitDisjoint(blocks, a, m);
    forall u: nat
      ensures InBlock(Split(blocks, a, m), u) <==> InBlock(blocks, u)
    {
      SplitHolds(blocks, a, m, u);
    }
  }

  ghost function Region(hp: nat, n: nat): (s: set<nat>)
    ensures forall u :: u in s <==> Holds(hp, n, u)
  {
    set u: nat | hp <= u < End(hp, n) && Holds(hp, n, u)
  }

  lemma AddTiled(blocks: map<nat, nat>, arena: set<nat>, hp: nat, n: nat)
    requires Tiled(blocks, arena) && n >= 1
    requires forall u :: u in arena ==> u < hp
    ensures hp !in blocks && Tiled(blocks[hp := n], arena + Region(hp, n))
  {
    var blocks' := blocks[hp := n];
    forall c | c in blocks ensures End(c, blocks[c]) <= hp {
      InOne(blocks, c, End(c, blocks[c]) - 1);
    }
    forall u: nat ensures InBlock(blocks', u) <==> InBlock(blocks, u) || Holds(hp, n, u) {
      if InBlock(blocks, u) {
        var c :| c in blocks && Holds(c, blocks[c], u);
        InOne(blocks', c, u);
      }
      if Holds(hp, n, u) {
        InOne(blocks', hp, u);
      }
    }
  }

  // ------------------------------------------------------- the free ring

  /** Free headers in increasing address order, `base` first; no free block touches the next. */
  ghost predicate Sorted(base: nat, ring: seq<nat>, blocks: map<nat, nat>) {
    && |ring| >= 1
    && ring[0] == base && base !in blocks
    && (forall i :: 1 <= i < |ring| ==> ring[i] in blocks)
    && (forall i, j :: 0 <= i < j < |ring| ==> ring[i] < ring[j])
    && (forall i, j :: 1 <= i < j < |ring| ==> End(ring[i], blocks[ring[i]]) != ring[j])
  }

  ghost function Next(ring: seq<nat>, i: nat): nat
    requires i < |ring|
  {
    if i == |ring| - 1 then 0 else i + 1
  }

  /** The header at place `i` points at its successor in the ring. */
  ghost predicate Points(ring: seq<nat>, ptr: Words, i: nat)
    requires i < |ring|
  {
    Load(ptr, ring[i]) == ring[Next(ring, i)]
  }

  ghost predicate Linked(ring: seq<nat>, ptr: Words) {
    forall i :: 0 <= i < |ring| ==> Points(ring, ptr, i)
  }

  /** `j` is the place of `bp` in the ring: after ring[j], before its successor. */
  ghost predicate Slot(ring: seq<nat>, bp: nat, j: nat) {
    && j < |ring|
    && ring[j] < bp
    && (j + 1 < |ring| ==> bp < ring[j + 1])
  }

  lemma SlotExists(base: nat, ring: seq<nat>, blocks: map<nat, nat>, bp: nat) returns (j: nat)
    requires Sorted(base, ring, blocks) && base < bp && bp !in ring
    ensures Slot(ring, bp, j)
  {
    j := 0;
    while j + 1 < |ring| && ring[j + 1] < bp
      invariant j < |ring| && ring[j] < bp
    {
      j := j + 1;
    }
  }

  ghost function Without(ring: seq<nat>, j: nat): seq<nat>
    requires j < |ring|
  {
    ring[..j] + ring[j + 1..]
  }

  ghost function Inserted(ring: seq<nat>, j: nat, bp: nat): seq<nat>
    requires j < |ring|
  {
    ring[..j + 1] + [bp] + ring[j + 1..]
  }

  /** Removing a free header, whatever becomes of its block, keeps the rest in order. */
  lemma WithoutSorted(base: nat, ring: seq<nat>, blocks: map<nat, nat>, j: nat)
    requires Sorted(base, ring, blocks) && 1 <= j < |ring|
    ensures Sorted(base, Without(ring, j), blocks)
    ensures ring[j] !in Without(ring, j)
  {
    var ring' := Without(ring, j);
    forall i | 0 <= i < |ring'| ensures ring'[i] == ring[if i < j then i else i + 1] {}
  }

  /** A live block that swallows the free block right above it disturbs no other free block. */
  lemma AbsorbSorted(base: nat, ring: seq<nat>, blocks: map<nat, nat>, bp: nat, j: nat)
    requires Sorted(base, ring, blocks) && 1 <= j < |ring| && bp in blocks && bp !in ring
    ensures Sorted(base, Without(ring, j), Merged(blocks, bp, ring[j]))
    ensures bp !in Without(ring, j)
  {
    WithoutSorted(base, ring, blocks, j);
    var ring' := Without(ring, j);
    forall i | 0 <= i < |ring'| ensures ring'[i] == ring[if i < j then i else i + 1] {}
  }

  lemma InsertedAt(ring: seq<nat>, j: nat, bp: nat, i: nat)
    requires j < |ring| && i <= |ring|
    ensures |Inserted(ring, j, bp)| == |ring| + 1
    ensures Inserted(ring, j, bp)[i] == if i <= j then ring[i] else if i == j + 1 then bp else ring[i - 1]
  {}

  lemma InsertSorted(base: nat, ring: seq<nat>, blocks: map<nat, nat>, bp: nat, j: nat)
    requires Sorted(base, ring, blocks) && Disjoint(blocks) && bp in blocks && Slot(ring, bp, j)
    requires j == 0 || End(ring[j], blocks[ring[j]]) != bp
    requires j + 1 < |ring| ==> End(bp, blocks[bp]) != ring[j + 1]
    ensures Sorted(base, Inserted(ring, j, bp), blocks)
  {
    var ring' := Inserted(ring, j, bp);
    InsertedAt(ring, j, bp, 0);
    forall i | 1 <= i < |ring'| ensures ring'[i] in blocks {
      InsertedAt(ring, j, bp, i);
    }
    forall i, k | 0 <= i < k < |ring'|
      ensures ring'[i] < ring'[k] && (1 <= i ==> End(ring'[i], blocks[ring'[i]]) != ring'[k])
    {
      InsertedAt(ring, j, bp, i);
      InsertedAt(ring, j, bp, k);
      if 1 <= i < j && k == j + 1 {
        assert Apart(ring[i], blocks[ring[i]], ring[j], blocks[ring[j]]);
      } else if i == j + 1 && k > j + 2 {
        assert Apart(bp, blocks[bp], ring[j + 1], blocks[ring[j + 1]]);
      }
    }
  }

  lemma GrowSorted(base: nat, ring: seq<nat>, blocks: map<nat, nat>, bp: nat, j: nat)
    requires Sorted(base, ring, blocks) && Disjoint(blocks) && bp in blocks && bp !in ring
    requires 1 <= j < |ring| && Slot(ring, bp, j) && End(ring[j], blocks[ring[j]]) == bp
    requires j + 1 < |ring| ==> End(bp, blocks[bp]) != ring[j + 1]
    ensures Sorted(base, ring, Merged(blocks, ring[j], bp))
  {
    var blocks' := Merged(blocks, ring[j], bp);
    forall i | j < i < |ring| ensures End(ring[j], blocks'[ring[j]]) != ring[i] {
      assert Apart(bp, blocks[bp], ring[j + 1], blocks[ring[j + 1]]);
    }
  }

  ghost function Prev(ring: seq<nat>, i: nat): nat
    requires i < |ring|
  {
    if i == 0 then |ring| - 1 else i - 1
  }

  /** Every ring header but ring[j] points at its successor. */
  ghost predicate LinkedBut(ring: seq<nat>, ptr: Words, j: nat) {
    forall i :: 0 <= i < |ring| && i != j ==> Points(ring, ptr, i)
  }

  lemma WithoutAt(ring: seq<nat>, j: nat, i: nat)
    requires j < |ring| && i < |ring| - 1
    ensures |Without(ring, j)| == |ring| - 1
    ensures Without(ring, j)[i] == ring[if i < j then i else i + 1]
  {}

  lemma WithoutLinked(ring: seq<nat>, ptr: Words, j: nat)
    requires Linked(ring, ptr) && 1 <= j < |ring|
    ensures Without(ring, j)[j - 1] == ring[j - 1]
    ensures Without(ring, j)[Next(Without(ring, j), j - 1)] == Load(ptr, ring[j])
    ensures LinkedBut(Without(ring, j), ptr, j - 1)
  {
    var ring' := Without(ring, j);
    WithoutAt(ring, j, 0);
    WithoutAt(ring, j, j - 1);
    WithoutAt(ring, j, Next(ring', j - 1));
    assert Points(ring, ptr, j);
    forall i | 0 <= i < |ring'| && i != j - 1
      ensures Points(ring', ptr, i)
    {
      WithoutAt(ring, j, i);
      WithoutAt(ring, j, Next(ring', i));
      assert Points(ring, ptr, if i < j then i else i + 1);
    }
  }

  lemma StoreOutside(ring: seq<nat>, ptr: Words, j: nat, a: nat, v: nat)
    requires LinkedBut(ring, ptr, j) && a !in ring
    ensures LinkedBut(ring, ptr[a := v], j)
  {
    var ptr' := ptr[a := v];
    forall i | 0 <= i < |ring| && i != j ensures Points(ring, ptr', i) {
      assert Points(ring, ptr, i);
    }
  }

  lemma InsertLinked(ring: seq<nat>, ptr: Words, j: nat, bp: nat)
    requires j < |ring| && LinkedBut(ring, ptr, j)
    requires forall i :: 0 <= i < |ring| && i != j ==> ring[i] != ring[j]
    requires bp !in ring && Load(ptr, bp) == ring[Next(ring, j)]
    ensures Linked(Inserted(ring, j, bp), ptr[ring[j] := bp])
  {
    var ring', ptr' := Inserted(ring, j, bp), ptr[ring[j] := bp];
    InsertedAt(ring, j, bp, 0);
    forall i | 0 <= i < |ring'| ensures Points(ring', ptr', i) {
      InsertedAt(ring, j, bp, i);
      InsertedAt(ring, j, bp, Next(ring', i));
      if i < j {
        assert Points(ring, ptr, i);
      } else if i > j + 1 {
        assert Points(ring, ptr, i - 1);
      }
    }
  }

  /** free()'s loop condition, negated, or its break: `p` is where `bp` belongs. */
  predicate Stops(bp: nat, p: nat, next: nat) {
    (bp > p && bp < next) || (p >= next && (bp > p || bp < next))
  }

  /** The walk of free() stops exactly at the header below `bp`. */
  lemma StopsAtSlot(base: nat, ring: seq<nat>, blocks: map<nat, nat>, ptr: Words, bp: nat, j: nat, i: nat)
    requires Sorted(base, ring, blocks) && Linked(ring, ptr) && Slot(ring, bp, j) && i < |ring|
    ensures Next(ring, i) < |ring| && Load(ptr, ring[i]) == ring[Next(ring, i)]
    ensures Stops(bp, ring[i], Load(ptr, ring[i])) <==> i == j
  {
    assert Points(ring, ptr, i);
    if i < j {
      assert ring[i + 1] <= ring[j];
    } else if j < i {
      assert ring[j + 1] <= ring[i];
    }
  }

  /** The ring distance from place `i` forward to place `j`. */
  ghost function Ahead(ring: seq<nat>, i: nat, j: nat): int {
    if i <= j then j - i else |ring| + j - i
  }

  lemma Nearer(ring: seq<nat>, i: nat, j: nat)
    requires i < |ring| && j < |ring| && i != j
    ensures Ahead(ring, Next(ring, i), j) < Ahead(ring, i, j)
  {}

  /** From behind place `f` every place comes before `f` does. */
  lemma LastAhead(ring: seq<nat>, f: nat, k: nat)
    requires f < |ring| && k < |ring|
    ensures Next(ring, f) < |ring| && Ahead(ring, Next(ring, f), k) <= Ahead(ring, Next(ring, f), f)
  {}

  lemma StopsIs(bp: nat, p: nat, next: nat)
    ensures Stops(bp, p, next) <==> (bp > p && bp < next) || (p >= next && (bp > p || bp < next))
  {}

  lemma PlaceOf(ring: seq<nat>, p: nat) returns (i: nat)
    requires p in ring
    ensures i < |ring| && ring[i] == p
  {
    i :| 0 <= i < |ring| && ring[i] == p;
  }

  // ------------------------------------------------ free() as two updates

  /** The allocator's words (ptr, size) with the ring and the blocks they encode. */
  datatype Shape = Shape(ring: seq<nat>, blocks: map<nat, nat>, ptr: Words, size: Words)

  ghost predicate SizesMatch(blocks: map<nat, nat>, size: Words) {
    forall a :: a in blocks ==> Load(size, a) == blocks[a]
  }

  ghost predicate Good(base: nat, arena: set<nat>, s: Shape) {
    && Sorted(base, s.ring, s.blocks)
    && Linked(s.ring, s.ptr)
    && Tiled(s.blocks, arena)
    && SizesMatch(s.blocks, s.size)
    && Load(s.size, base) == 0
  }

  ghost predicate Touches(s: Shape, bp: nat, j: nat)
    requires bp in s.blocks
  {
    j + 1 < |s.ring| && End(bp, s.blocks[bp]) == s.ring[j + 1]
  }

  /** `bp` points at its successor in the ring and has merged with it if they touched;
      the header below, ring[j], does not know about `bp` yet. */
  ghost predicate HalfFreed(base: nat, arena: set<nat>, s: Shape, bp: nat, j: nat) {
    && Sorted(base, s.ring, s.blocks)
    && LinkedBut(s.ring, s.ptr, j)
    && Tiled(s.blocks, arena)
    && SizesMatch(s.blocks, s.size)
    && Load(s.size, base) == 0
    && bp !in s.ring && bp in s.blocks && Slot(s.ring, bp, j)
    && Load(s.ptr, bp) == s.ring[Next(s.ring, j)]
    && !Touches(s, bp, j)
  }

  ghost function AbsorbUp(s: Shape, bp: nat, j: nat): Shape
    requires j + 1 < |s.ring| && bp in s.blocks && s.ring[j + 1] in s.blocks
  {
    var nx := s.ring[j + 1];
    Shape(Without(s.ring, j + 1), Merged(s.blocks, bp, nx),
          s.ptr[bp := Load(s.ptr, nx)], s.size[bp := Load(s.size, bp) + Load(s.size, nx)])
  }

  lemma MergeSizes(blocks: map<nat, nat>, size: Words, a: nat, b: nat)
    requires SizesMatch(blocks, size) && a in blocks && b in blocks && a != b
    ensures SizesMatch(Merged(blocks, a, b), size[a := Load(size, a) + Load(size, b)])
  {}

  /** Freeing a block that ends where the next free block starts. */
  lemma AbsorbUpHalf(base: nat, arena: set<nat>, s: Shape, bp: nat, j: nat)
    requires Good(base, arena, s) && bp in s.blocks && bp !in s.ring && Slot(s.ring, bp, j) && Touches(s, bp, j)
    ensures HalfFreed(base, arena, AbsorbUp(s, bp, j), bp, j)
    ensures AbsorbUp(s, bp, j).ring[j] == s.ring[j]
  {
    hide Tiled, SizesMatch, Linked, LinkedBut;
    var t := AbsorbUp(s, bp, j);
    var nx := s.ring[j + 1];
    AbsorbSorted(base, s.ring, s.blocks, bp, j + 1);
    MergeTiled(s.blocks, arena, bp, nx);
    MergeSizes(s.blocks, s.size, bp, nx);
    WithoutLinked(s.ring, s.ptr, j + 1);
    StoreOutside(t.ring, s.ptr, j, bp, Load(s.ptr, nx));
    WithoutAt(s.ring, j + 1, j);
    if j + 1 < |t.ring| {
      WithoutAt(s.ring, j + 1, j + 1);
      assert End(nx, s.blocks[nx]) != s.ring[j + 2];
    }
  }

  /** Freeing a block that ends short of the next free block. */
  lemma PointUpHalf(base: nat, arena: set<nat>, s: Shape, bp: nat, j: nat)
    requires Good(base, arena, s) && bp in s.blocks && bp !in s.ring && Slot(s.ring, bp, j) && !Touches(s, bp, j)
    ensures HalfFreed(base, arena, s.(ptr := s.ptr[bp := Load(s.ptr, s.ring[j])]), bp, j)
  {
    hide Tiled, SizesMatch;
    var t := s.(ptr := s.ptr[bp := Load(s.ptr, s.ring[j])]);
    assert Points(s.ring, s.ptr, j);
    forall i | 0 <= i < |t.ring| && i != j ensures Points(t.ring, t.ptr, i) {
      assert Points(s.ring, s.ptr, i);
    }
  }

  ghost function AbsorbDown(s: Shape, bp: nat, j: nat): Shape
    requires j < |s.ring| && s.ring[j] in s.blocks && bp in s.blocks
  {
    var p := s.ring[j];
    Shape(s.ring, Merged(s.blocks, p, bp), s.ptr[p := Load(s.ptr, bp)], s.size[p := Load(s.size, p) + Load(s.size, bp)])
  }

  lemma AbsorbDownGood(base: nat, arena: set<nat>, s: Shape, bp: nat, j: nat)
    requires HalfFreed(base, arena, s, bp, j) && j > 0 && End(s.ring[j], s.blocks[s.ring[j]]) == bp
    ensures Good(base, arena, AbsorbDown(s, bp, j))
  {
    hide SizesMatch, Linked, LinkedBut, InBlock, Merged;
    var p := s.ring[j];
    GrowSorted(base, s.ring, s.blocks, bp, j);
    MergeTiled(s.blocks, arena, p, bp);
    MergeSizes(s.blocks, s.size, p, bp);
    AbsorbDownLinked(base, arena, s, bp, j);
  }

  lemma AbsorbDownLinked(base: nat, arena: set<nat>, s: Shape, bp: nat, j: nat)
    requires HalfFreed(base, arena, s, bp, j) && j > 0
    ensures var t := AbsorbDown(s, bp, j); Linked(t.ring, t.ptr)
  {
    hide Tiled, SizesMatch;
    var t := AbsorbDown(s, bp, j);
    forall i | 0 <= i < |s.ring| ensures Points(t.ring, t.ptr, i) {
      if i != j {
        assert Points(s.ring, s.ptr, i);
        assert s.ring[i] != s.ring[j];
      }
    }
  }

  lemma InsertGood(base: nat, arena: set<nat>, s: Shape, bp: nat, j: nat)
    requires HalfFreed(base, arena, s, bp, j) && (j == 0 || End(s.ring[j], s.blocks[s.ring[j]]) != bp)
    ensures Good(base, arena, s.(ring := Inserted(s.ring, j, bp), ptr := s.ptr[s.ring[j] := bp]))
  {
    InsertSorted(base, s.ring, s.blocks, bp, j);
    InsertLinked(s.ring, s.ptr, j, bp);
  }

  /** What free() reads: at `bp`, at the header below it and at the one above. */
  lemma FreeReads(base: nat, arena: set<nat>, s: Shape, bp: nat, j: nat)
    requires Good(base, arena, s) && bp in s.blocks && bp !in s.ring && Slot(s.ring, bp, j)
    ensures var nx := Load(s.ptr, s.ring[j]);
            && (End(bp, Load(s.size, bp)) == nx <==> Touches(s, bp, j))
            && (Touches(s, bp, j) ==> nx == s.ring[j + 1] && nx in s.blocks)
  {
    assert Points(s.ring, s.ptr, j);
  }

  lemma HalfReads(base: nat, arena: set<nat>, s: Shape, bp: nat, j: nat)
    requires HalfFreed(base, arena, s, bp, j)
    ensures j < |s.ring| && bp !in s.ring && bp in s.blocks && Load(s.size, bp) == s.blocks[bp]
    ensures var p := s.ring[j];
            base <= p < bp && (j == 0 ==> Load(s.size, p) == 0) &&
                (j > 0 ==> p in s.blocks && Load(s.size, p) == s.blocks[p])
  {}

  // ------------------------------------------------------- what is live

  ghost function LiveOf(ring: seq<nat>, blocks: map<nat, nat>): map<nat, nat> {
    map a | a in blocks && a !in ring :: blocks[a]
  }

  lemma WithoutMembers(base: nat, ring: seq<nat>, blocks: map<nat, nat>, j: nat)
    requires Sorted(base, ring, blocks) && 1 <= j < |ring|
    ensures forall a :: a in Without(ring, j) <==> a in ring && a != ring[j]
  {
    var ring' := Without(ring, j);
    forall i | 0 <= i < |ring'| ensures ring'[i] == ring[if i < j then i else i + 1] {}
    forall a | a in ring && a != ring[j] ensures a in ring' {
      var i :| 0 <= i < |ring| && ring[i] == a;
      assert ring'[if i < j then i else i - 1] == a;
    }
  }

  lemma InsertedMembers(ring: seq<nat>, j: nat, bp: nat)
    requires j < |ring|
    ensures forall a :: a in Inserted(ring, j, bp) <==> a in ring || a == bp
  {
    assert ring == ring[..j + 1] + ring[j + 1..];
  }

  /** One free block holds all of [bp, bp + n units). */
  ghost predicate FreeHolds(ring: seq<nat>, blocks: map<nat, nat>, bp: nat, n: nat) {
    exists i :: 1 <= i < |ring| && ring[i] in blocks && ring[i] <= bp && End(bp, n) <= End(ring[i], blocks[ring[i]])
  }

  lemma FreePlace(ring: seq<nat>, blocks: map<nat, nat>, bp: nat, n: nat) returns (k: nat)
    requires FreeHolds(ring, blocks, bp, n)
    ensures 1 <= k < |ring| && ring[k] in blocks && ring[k] <= bp && End(bp, n) <= End(ring[k], blocks[ring[k]])
  {
    k :| 1 <= k < |ring| && ring[k] in blocks && ring[k] <= bp && End(bp, n) <= End(ring[k], blocks[ring[k]]);
  }

  lemma AbsorbUpLive(base: nat, ring: seq<nat>, blocks: map<nat, nat>, bp: nat, j: nat)
    requires Sorted(base, ring, blocks) && 1 <= j < |ring| && bp in blocks && bp !in ring
    ensures var blocks' := Merged(blocks, bp, ring[j]);
            LiveOf(Without(ring, j), blocks') == LiveOf(ring, blocks)[bp := blocks'[bp]]
  {
    WithoutMembers(base, ring, blocks, j);
  }

  lemma AbsorbDownLive(ring: seq<nat>, blocks: map<nat, nat>, bp: nat, j: nat)
    requires 1 <= j < |ring| && ring[j] in blocks && bp in blocks && bp !in ring && End(ring[j], blocks[ring[j]]) == bp
    ensures LiveOf(ring, Merged(blocks, ring[j], bp)) == LiveOf(ring, blocks) - {bp}
    ensures FreeHolds(ring, Merged(blocks, ring[j], bp), bp, blocks[bp])
  {
    var blocks' := Merged(blocks, ring[j], bp);
    assert ring[j] in blocks' && ring[j] <= bp && End(bp, blocks[bp]) <= End(ring[j], blocks'[ring[j]]);
  }

  lemma InsertLive(ring: seq<nat>, blocks: map<nat, nat>, bp: nat, j: nat)
    requires j < |ring| && bp in blocks
    ensures LiveOf(Inserted(ring, j, bp), blocks) == LiveOf(ring, blocks) - {bp}
    ensures FreeHolds(Inserted(ring, j, bp), blocks, bp, blocks[bp])
  {
    InsertedMembers(ring, j, bp);
    InsertedAt(ring, j, bp, j + 1);
  }

  lemma FreeHoldsLess(ring: seq<nat>, blocks: map<nat, nat>, bp: nat, n: nat, m: nat)
    requires FreeHolds(ring, blocks, bp, n) && m <= n
    ensures FreeHolds(ring, blocks, bp, m)
  {
    var i :| 1 <= i < |ring| && ring[i] in blocks && ring[i] <= bp && End(bp, n) <= End(ring[i], blocks[ring[i]]);
  }

  lemma LiveAboveBase(base: nat, arena: set<nat>, s: Shape, bp: nat)
    requires Good(base, arena, s) && bp in LiveOf(s.ring, s.blocks) && forall u :: u in arena ==> base + HDR <= u
    ensures Sorted(base, s.ring, s.blocks) && Linked(s.ring, s.ptr)
    ensures base < bp && bp in s.blocks && bp !in s.ring
  {
    InOne(s.blocks, bp, bp);
  }

  // ------------------------------------------------- malloc()'s two cuts

  /** What the words of the ring header at place `i` say. */
  lemma RingReads(base: nat, arena: set<nat>, s: Shape, i: nat)
    requires Good(base, arena, s) && i < |s.ring|
    ensures Load(s.ptr, s.ring[i]) == s.ring[Next(s.ring, i)]
    ensures if i == 0 then Load(s.size, s.ring[i]) == 0
            else s.ring[i] in s.blocks && Load(s.size, s.ring[i]) == s.blocks[s.ring[i]] >= 1
  {
    assert Points(s.ring, s.ptr, i);
  }

  lemma SortedOf(base: nat, arena: set<nat>, s: Shape, i: nat)
    requires Good(base, arena, s) && i < |s.ring|
    ensures Sorted(base, s.ring, s.blocks) && Disjoint(s.blocks) && s.ring[i] >= base
    ensures i >= 1 ==> s.ring[i] > base && s.ring[i] in s.blocks
  {}

  lemma RingDistinct(base: nat, arena: set<nat>, s: Shape, i: nat, k: nat)
    requires Good(base, arena, s) && i < |s.ring| && k < |s.ring| && s.ring[i] == s.ring[k]
    ensures i == k
  {}

  /** Words strictly inside a live block are nobody's header. */
  lemma StoreGood(base: nat, arena: set<nat>, s: Shape, bp: nat, a: nat, p: nat, n: nat)
    requires Good(base, arena, s) && bp in LiveOf(s.ring, s.blocks)
    requires forall u :: u in arena ==> base + HDR <= u
    requires bp < a < End(bp, s.blocks[bp])
    ensures Good(base, arena, s.(ptr := s.ptr[a := p], size := s.size[a := n]))
  {
    LiveAboveBase(base, arena, s, bp);
    assert a !in s.blocks by { assert a in s.blocks ==> Apart(bp, s.blocks[bp], a, s.blocks[a]); }
    assert a !in s.ring;
    hide Tiled, Sorted;
    var ptr' := s.ptr[a := p];
    forall i | 0 <= i < |s.ring| ensures Points(s.ring, ptr', i) {
      assert Points(s.ring, s.ptr, i);
    }
  }

  /** The ring malloc() sets up on its first call: `base` alone. */
  lemma EmptyGood(base: nat, ptr: Words, size: Words)
    ensures Good(base, {}, Shape([base], map[], ptr[base := base], size[base := 0]))
    ensures LiveOf([base], map[]) == LiveOf([], map[])
  {
    assert Points([base], ptr[base := base], 0);
  }

  ghost function CutWhole(s: Shape, m: nat): Shape
    requires 1 <= m < |s.ring|
  {
    s.(ring := Without(s.ring, m), ptr := s.ptr[s.ring[m - 1] := Load(s.ptr, s.ring[m])])
  }

  /** A free block of exactly the right size leaves the ring. */
  lemma CutWholeGood(base: nat, arena: set<nat>, s: Shape, m: nat)
    requires Good(base, arena, s) && 1 <= m < |s.ring|
    ensures Good(base, arena, CutWhole(s, m))
    ensures s.ring[m - 1] in CutWhole(s, m).ring
  {
    hide Tiled, SizesMatch;
    var t := CutWhole(s, m);
    WithoutSorted(base, s.ring, s.blocks, m);
    WithoutLinked(s.ring, s.ptr, m);
    WithoutAt(s.ring, m, m - 1);
    forall i | 0 <= i < |t.ring| ensures Points(t.ring, t.ptr, i) {
      if i != m - 1 {
        assert Points(t.ring, s.ptr, i);
        assert t.ring[i] != t.ring[m - 1];
      }
    }
  }

  lemma CutWholeLive(base: nat, ring: seq<nat>, blocks: map<nat, nat>, m: nat)
    requires Sorted(base, ring, blocks) && 1 <= m < |ring|
    ensures ring[m] !in LiveOf(ring, blocks)
    ensures LiveOf(Without(ring, m), blocks) == LiveOf(ring, blocks)[ring[m] := blocks[ring[m]]]
  {
    WithoutMembers(base, ring, blocks, m);
  }

  ghost function CutTail(s: Shape, m: nat, n: nat): Shape
    requires 1 <= m < |s.ring| && s.ring[m] in s.blocks && n <= s.blocks[s.ring[m]]
  {
    var p := s.ring[m];
    var rest := s.blocks[p] - n;
    s.(blocks := Split(s.blocks, p, rest), size := s.size[p := rest][End(p, rest) := n])
  }

  lemma CutTailSorted(base: nat, ring: seq<nat>, blocks: map<nat, nat>, m: nat, rest: nat)
    requires Sorted(base, ring, blocks) && Disjoint(blocks) && 1 <= m < |ring| && 1 <= rest < blocks[ring[m]]
    ensures End(ring[m], rest) !in ring
    ensures Sorted(base, ring, Split(blocks, ring[m], rest))
  {
    var p := ring[m];
    forall i | 0 <= i < |ring| ensures ring[i] != End(p, rest) && (m < i ==> End(p, blocks[p]) <= ring[i]) {
      if i > m {
        assert Apart(p, blocks[p], ring[i], blocks[ring[i]]);
      }
    }
    var blocks' := Split(blocks, p, rest);
    forall i, k | 1 <= i < k < |ring| ensures End(ring[i], blocks'[ring[i]]) != ring[k] {
      assert i != m ==> ring[i] != p;
    }
  }

  lemma SplitSizes(blocks: map<nat, nat>, size: Words, a: nat, m: nat)
    requires SizesMatch(blocks, size) && a in blocks && 1 <= m < blocks[a]
    ensures SizesMatch(Split(blocks, a, m), size[a := m][End(a, m) := blocks[a] - m])
  {}

  /** A larger free block stays in the ring and gives up its last `n` units. */
  lemma CutTailGood(base: nat, arena: set<nat>, s: Shape, m: nat, n: nat)
    requires Good(base, arena, s) && 1 <= m < |s.ring| && 1 <= n < s.blocks[s.ring[m]]
    ensures Good(base, arena, CutTail(s, m, n))
    ensures var q := End(s.ring[m], s.blocks[s.ring[m]] - n);
            && q !in s.blocks && q !in LiveOf(s.ring, s.blocks)
            && LiveOf(s.ring, CutTail(s, m, n).blocks) == LiveOf(s.ring, s.blocks)[q := n]
  {
    hide Tiled, Linked, SizesMatch, Sorted, Disjoint;
    SortedOf(base, arena, s, m);
    var rest := s.blocks[s.ring[m]] - n;
    SplitTiled(s.blocks, arena, s.ring[m], rest);
    CutTailSorted(base, s.ring, s.blocks, m, rest);
    SplitSizes(s.blocks, s.size, s.ring[m], rest);
  }

  // ------------------------------------------------------------- growth

  lemma PutTake(m: map<nat, nat>, k: nat, v: nat)
    requires k !in m
    ensures m[k := v] - {k} == m
  {}

  /** The units morecore asks for. */
  function Chunk(nunits: nat): (n: nat)
    ensures n >= nunits && n >= 4096 && (n == nunits || n == 4096)
  {
    if nunits < 4096 then 4096 else nunits
  }

  /** The process's bytes after sbrk(n), which was at `addr`: more for a positive n, fewer for a negative one. */
  ghost function Moved(given: set<nat>, addr: nat, n: int): set<nat> {
    if n >= 0 then given + Span(addr, n) else set u | u in given && u < addr + n
  }

  ghost predicate InSpan(addr: nat, n: nat, u: nat) { addr <= u < addr + n }

  ghost function Span(addr: nat, n: nat): (s: set<nat>)
    ensures forall u :: u in s <==> addr <= u < addr + n
  {
    set u: nat | addr <= u < addr + n && InSpan(addr, n, u)
  }

  /** sbrk() gives what morecore() asks for if and only if that fits an int. */
  lemma GivenAsked(given: set<nat>, addr: nat, nu: nat)
    requires nu >= 1 && forall u :: u in given ==> u < addr
    ensures Moved(given, addr, ToInt32(nu * HDR)) == given + Region(addr, nu) <==> HDR * nu < 0x8000_0000
    ensures forall u :: u in Moved(given, addr, ToInt32(nu * HDR)) ==> u in given || addr <= u < End(addr, nu)
  {
    var n := ToInt32(nu * HDR);
    IntIs(nu * HDR);
    if n < nu * HDR {
      var last := End(addr, nu) - 1;
      assert last in given + Region(addr, nu) && last !in Moved(given, addr, n);
    } else {
      assert Span(addr, n) == Region(addr, nu);
    }
  }

  lemma IntIs(x: nat)
    ensures ToInt32(x) <= x && (ToInt32(x) == x <==> x < 0x8000_0000)
  {}

  lemma AddGood(base: nat, arena: set<nat>, s: Shape, top: nat, hp: nat, n: nat)
    requires Good(base, arena, s) && n >= 1 && base + HDR <= top <= hp
    requires forall u :: u in arena ==> u < top
    ensures hp !in s.blocks && hp !in s.ring && hp !in LiveOf(s.ring, s.blocks)
    ensures Good(base, arena + Region(hp, n), s.(blocks := s.blocks[hp := n], size := s.size[hp := n]))
    ensures LiveOf(s.ring, s.blocks[hp := n]) == LiveOf(s.ring, s.blocks)[hp := n]
  {
    AddTiled(s.blocks, arena, hp, n);
    hide Tiled;
    forall i | 0 <= i < |s.ring| ensures s.ring[i] != hp {}
  }

  // ------------------------------------------------------------ the heap

  class Heap {
    const base: nat
    var ptr: Words
    var size: Words
    var freep: nat

    ghost var ring: seq<nat>
    ghost var blocks: map<nat, nat>
    ghost var arena: set<nat>  // every byte of the blocks, which morecore took to be obtained from sbrk
    ghost var given: set<nat>  // every byte obtained from sbrk
    ghost var top: nat         // neither reaches this address

    ghost function Now(): Shape
      reads this
    {
      Shape(ring, blocks, ptr, size)
    }

    /** The blocks handed out and not yet freed, with their sizes in units. */
    ghost function Live(): map<nat, nat>
      reads this
    {
      LiveOf(ring, blocks)
    }

    ghost predicate Bounds()
      reads this
    {
      && 0 < base && base + HDR <= top <= HEAP_LIMIT
      && (forall u :: u in arena ==> base + HDR <= u < top)
      && (forall u :: u in given ==> u < top)
    }

    /** Ring, sizes and blocks fit together. */
    ghost predicate Sound()
      reads this
    {
      && Bounds()
      && if freep == 0 then ring == [] && blocks == map[] && arena == {}
         else Good(base, arena, Now()) && freep in ring
    }

    /** And the blocks are made of exactly the memory there is. */
    ghost predicate Valid()
      reads this
    {
      Sound() && given == arena
    }

    constructor (base: nat, heapStart: nat)
      requires 0 < base && base + HDR <= heapStart <= HEAP_LIMIT
      ensures Valid() && this.base == base && Live() == map[] && arena == {} && top == heapStart && freep == 0
    {
      this.base := base;
      ptr, size, freep := map[], map[], 0;
      ring, blocks, arena, given, top := [], map[], {}, {}, heapStart;
    }

    /** free()'s search: the walk from freep ends at the ring header just below `bp`. */
    method Locate(bp: nat) returns (p: nat, ghost j: nat)
      requires Sound() && bp in Live()
      ensures Slot(ring, bp, j) && ring[j] == p
    {
      hide Good, LiveOf, Sorted, Linked, Slot, Stops, Next;
      Started(bp);
      LiveAboveBase(base, arena, Now(), bp);
      j := SlotExists(base, ring, blocks, bp);
      p := freep;
      ghost var i: nat := PlaceOf(ring, p);
      StopsAtSlot(base, ring, blocks, ptr, bp, j, i);
      while !(bp > p && bp < Load(ptr, p))
        invariant i < |ring| && ring[i] == p && Next(ring, i) < |ring| && Load(ptr, p) == ring[Next(ring, i)]
        invariant Stops(bp, p, Load(ptr, p)) <==> i == j
        decreases Ahead(ring, i, j)
      {
        StopsIs(bp, p, Load(ptr, p));
        if p >= Load(ptr, p) && (bp > p || bp < Load(ptr, p)) {
          break;
        }
        Nearer(ring, i, j);
        p := Load(ptr, p);
        i := Next(ring, i);
        StopsAtSlot(base, ring, blocks, ptr, bp, j, i);
      }
      StopsIs(bp, p, Load(ptr, p));
    }

    /** Once anything is live the ring is there. */
    lemma Started(bp: nat)
      requires Sound() && bp in Live()
      ensures freep != 0 && Good(base, arena, Now()) && freep in ring
    {
      hide Good;
    }

    /** The first half of free(): join `bp` to the free block above it, or point at it. */
    method LinkAbove(bp: nat, p: nat, ghost j: nat)
      requires Good(base, arena, Now()) && bp in Live() && Slot(ring, bp, j) && ring[j] == p
      modifies this`ptr, this`size, this`ring, this`blocks
      ensures HalfFreed(base, arena, Now(), bp, j) && ring[j] == p
      ensures bp in blocks && blocks[bp] >= old(blocks)[bp]
      ensures Live() == old(Live())[bp := blocks[bp]]
    {
      hide HalfFreed, Tiled, Sorted, Linked, SizesMatch;
      FreeReads(base, arena, Now(), bp, j);
      var nx := Load(ptr, p);
      if bp + HDR * Load(size, bp) == nx {
        AbsorbUpHalf(base, arena, Now(), bp, j);
        AbsorbUpLive(base, ring, blocks, bp, j + 1);
        size := size[bp := Load(size, bp) + Load(size, nx)];
        ptr := ptr[bp := Load(ptr, nx)];
        ring, blocks := Without(ring, j + 1), Merged(blocks, bp, nx);
      } else {
        PointUpHalf(base, arena, Now(), bp, j);
        ptr := ptr[bp := nx];
      }
    }

    /** The second half of free(): join the free block below to `bp`, or point it at `bp`. */
    method LinkBelow(bp: nat, p: nat, ghost j: nat)
      requires 0 < base && HalfFreed(base, arena, Now(), bp, j) && ring[j] == p
      modifies this`ptr, this`size, this`ring, this`blocks
      ensures Good(base, arena, Now()) && 0 < p && p in ring
      ensures Live() == old(Live()) - {bp}
      ensures FreeHolds(ring, blocks, bp, old(blocks)[bp])
    {
      hide Good, HalfFreed, Tiled, Sorted, Linked, SizesMatch, LiveOf, FreeHolds;
      HalfReads(base, arena, Now(), bp, j);
      if p + HDR * Load(size, p) == bp {
        AbsorbDownGood(base, arena, Now(), bp, j);
        AbsorbDownLive(ring, blocks, bp, j);
        size := size[p := Load(size, p) + Load(size, bp)];
        ptr := ptr[p := Load(ptr, bp)];
        blocks := Merged(blocks, p, bp);
      } else {
        InsertGood(base, arena, Now(), bp, j);
        InsertLive(ring, blocks, bp, j);
        InsertedMembers(ring, j, bp);
        ptr := ptr[p := bp];
        ring := Inserted(ring, j, bp);
      }
    }

    /** free(): `bp` is the header of a live block. */
    method Free(bp: nat)
      requires Sound() && bp in Live()
      modifies this
      ensures Sound() && freep != 0
      ensures Live() == old(Live()) - {bp}
      ensures arena == old(arena) && given == old(given) && top == old(top)
      ensures FreeHolds(ring, blocks, bp, old(blocks)[bp])
    {
      hide Good, HalfFreed, FreeHolds, Slot;
      var p: nat, j: nat := Locate(bp);
      LinkAbove(bp, p, j);
      ghost var n := blocks[bp];
      LinkBelow(bp, p, j);
      FreeHoldsLess(ring, blocks, bp, n, old(blocks)[bp]);
      freep := p;
    }

    /** morecore(): ask sbrk for at least 4096 units and free them into the ring.  The product `nu * 16` reaches sbrk as
        a C int.  From 2 GiB on that is another number, and the ring gets memory that is not there. */
    method Morecore(nunits: nat, sbrk: Grant) returns (p: nat)
      requires Valid() && freep != 0
      requires 1 <= nunits <= 0x1000_0001
      requires sbrk.Granted? ==> sbrk.addr >= top && End(sbrk.addr, Chunk(nunits)) <= HEAP_LIMIT
      modifies this
      ensures Sound() && p == if sbrk.Granted? then freep else 0
      ensures Valid() <==> sbrk.Refused? || HDR * Chunk(nunits) < 0x8000_0000
      ensures Live() == old(Live()) && freep != 0
      ensures sbrk.Refused? ==> unchanged(this)
      ensures sbrk.Granted? ==>
                && arena == old(arena) + Region(sbrk.addr, Chunk(nunits))
                && given == Moved(old(given), sbrk.addr, ToInt32(HDR * Chunk(nunits)))
                && top == End(sbrk.addr, Chunk(nunits))
                && FreeHolds(ring, blocks, sbrk.addr, nunits)
    {
      hide Good, FreeHolds, LiveOf, ToInt32, Moved;
      var nu := nunits;
      if nu < 4096 {
        nu := 4096;
      }
      if sbrk.Refused? {
        return 0;
      }
      var hp := sbrk.addr;
      GivenAsked(given, hp, nu);
      given := Moved(given, hp, ToInt32(nu * HDR));
      AddGood(base, arena, Now(), top, hp, nu);
      size := size[hp := nu];
      blocks := blocks[hp := nu];
      arena := arena + Region(hp, nu);
      top := End(hp, nu);
      assert Live() == old(Live())[hp := nu];
      PutTake(old(Live()), hp, nu);
      Free(hp);
      FreeHoldsLess(ring, blocks, hp, nu, nunits);
      return freep;
    }

    /** Some free block has at least `n` units. */
    ghost predicate Fits(n: nat)
      reads this
    {
      exists k :: 0 <= k < |ring| && Load(size, ring[k]) >= n
    }

    /** malloc() hands out the free block at place `m` whole: it leaves the ring. */
    method TakeWhole(prevp: nat, p: nat, ghost m: nat)
      requires Sound() && freep != 0
      requires 1 <= m < |ring| && p == ring[m] && prevp == ring[m - 1]
      modifies this`ptr, this`ring, this`freep
      ensures Sound() && p !in old(Live()) && Live() == old(Live())[p := Load(size, p)]
    {
      hide Good, LiveOf, Sorted, Disjoint;
      RingReads(base, arena, Now(), m);
      SortedOf(base, arena, Now(), m - 1);
      CutWholeGood(base, arena, Now(), m);
      CutWholeLive(base, ring, blocks, m);
      ptr := ptr[prevp := Load(ptr, p)];
      ring := Without(ring, m);
      freep := prevp;
    }

    /** malloc() hands out the last `nunits` units of a larger free block at place `m`. */
    method TakeTail(prevp: nat, p: nat, nunits: nat, ghost m: nat) returns (q: nat)
      requires Sound() && freep != 0
      requires 1 <= m < |ring| && p == ring[m] && prevp == ring[m - 1] && 1 <= nunits < Load(size, p)
      modifies this`size, this`blocks, this`freep
      ensures Sound() && q !in old(Live()) && Live() == old(Live())[q := nunits]
    {
      hide Good, LiveOf, Sorted, Disjoint;
      RingReads(base, arena, Now(), m);
      SortedOf(base, arena, Now(), m - 1);
      CutTailGood(base, arena, Now(), m, nunits);
      size := size[p := Load(size, p) - nunits];
      q := p + HDR * Load(size, p);
      size := size[q := nunits];
      blocks := Split(blocks, p, blocks[p] - nunits);
      freep := prevp;
    }

    /** The walk of malloc() at place `m`, bound to stop at freep's place `f`. */
    ghost predicate Walk(nunits: nat, m: nat, f: nat, grown: bool)
      reads this
    {
      && m < |ring| && f < |ring| && ring[f] == freep
      && if grown
         then exists k :: 0 <= k < |ring| && Load(size, ring[k]) >= nunits && Ahead(ring, m, k) <= Ahead(ring, m, f)
         else forall k :: 0 <= k < |ring| && Ahead(ring, m, f) < Ahead(ring, m, k) ==> Load(size, ring[k]) < nunits
    }

    lemma FitsAt(nunits: nat, m: nat)
      requires m < |ring| && Load(size, ring[m]) >= nunits
      ensures Fits(nunits)
    {}

    lemma WalkOn(nunits: nat, m: nat, f: nat, grown: bool)
      requires Walk(nunits, m, f, grown) && Load(size, ring[m]) < nunits && m != f
      ensures Walk(nunits, Next(ring, m), f, grown)
      ensures 0 <= Ahead(ring, Next(ring, m), f) < Ahead(ring, m, f)
    {}

    /** At freep without a fit: either morecore has not run and nothing fits, or this cannot be. */
    lemma WalkDone(nunits: nat, f: nat, grown: bool)
      requires Walk(nunits, f, f, grown) && Load(size, ring[f]) < nunits
      ensures !grown && !Fits(nunits)
    {}

    /** malloc() has found a free block that is large enough. */
    method Take(prevp: nat, p: nat, nunits: nat, ghost m: nat) returns (q: nat)
      requires Sound() && freep != 0
      requires 1 <= m < |ring| && p == ring[m] && prevp == ring[m - 1] && 1 <= nunits <= Load(size, p)
      modifies this`ptr, this`size, this`ring, this`blocks, this`freep
      ensures Sound() && q !in old(Live()) && Live() == old(Live())[q := nunits]
    {
      hide Good, LiveOf;
      if Load(size, p) == nunits {
        TakeWhole(prevp, p, m);
        q := p;
      } else {
        q := TakeTail(prevp, p, nunits, m);
      }
    }

    /** After morecore the walk restarts behind freep, and a fit lies ahead. */
    lemma WalkAgain(nunits: nat, addr: nat) returns (f: nat)
      requires Sound() && freep != 0 && nunits >= 1 && FreeHolds(ring, blocks, addr, nunits)
      ensures f < |ring| && ring[f] == freep && Walk(nunits, Next(ring, f), f, true)
    {
      hide Good, FreeHolds, Next, Ahead;
      f := PlaceOf(ring, freep);
      var k := FreePlace(ring, blocks, addr, nunits);
      RingReads(base, arena, Now(), k);
      LastAhead(ring, f, k);
    }

    lemma WalkStart(nunits: nat) returns (f: nat)
      requires Sound() && freep != 0
      ensures f < |ring| && ring[f] == freep && Walk(nunits, Next(ring, f), f, false)
    {
      f :| f < |ring| && ring[f] == freep;
    }

    /** morecore() in malloc()'s loop: afterwards the walk restarts behind freep, and a fit lies ahead. */
    method MorecoreAgain(nunits: nat, sbrk: Grant) returns (p: nat, ghost f: nat)
      requires Valid() && freep != 0 && 1 <= nunits <= 0x1000_0001
      requires sbrk.Granted? ==> sbrk.addr >= top && End(sbrk.addr, Chunk(nunits)) <= HEAP_LIMIT
      modifies this
      ensures Sound() && freep != 0 && Live() == old(Live()) && p == if sbrk.Granted? then freep else 0
      ensures Valid() <==> sbrk.Refused? || HDR * Chunk(nunits) < 0x8000_0000
      ensures p == 0 ==> unchanged(this)
      ensures p != 0 ==> arena == old(arena) + Region(sbrk.addr, Chunk(nunits)) &&
                         given == Moved(old(given), sbrk.addr, ToInt32(HDR * Chunk(nunits)))
      ensures p != 0 ==> f < |ring| && ring[f] == freep && Walk(nunits, Next(ring, f), f, true)
    {
      hide Good, LiveOf, FreeHolds, ToInt32, Walk, Bounds, Moved;
      p := Morecore(nunits, sbrk);
      f := 0;
      if p != 0 { f := WalkAgain(nunits, sbrk.addr); }
    }

    /** malloc() turns the static header into a ring of its own on the first call. */
    method FirstCall(ghost nunits: nat)
      requires Sound() && nunits >= 1
      modifies this
      ensures Sound() && freep != 0 && Live() == old(Live()) && arena == old(arena) && given == old(given) &&
                top == old(top)
      ensures Fits(nunits) == old(Fits(nunits))
      ensures old(freep) != 0 ==> unchanged(this)
    {
      hide Good, LiveOf;
      if freep == 0 {
        EmptyGood(base, ptr, size);
        ptr := ptr[base := base];
        size := size[base := 0];
        freep := base;
        ring := [base];
      }
    }

    /** malloc(): `sbrk` is what sbrk would answer; it is asked only when no free block fits.  The heap is made of
        memory that is there unless sbrk is asked for 2 GiB or more and does not refuse. */
    method Malloc(nbytes: nat, sbrk: Grant) returns (r: nat)
      requires Valid() && nbytes < 0x1_0000_0000
      requires sbrk.Granted? ==> sbrk.addr >= top && End(sbrk.addr, Chunk(Units(nbytes))) <= HEAP_LIMIT
      modifies this
      ensures Sound()
      ensures Valid() <==> old(Fits(Units(nbytes))) || sbrk.Refused? || HDR * Chunk(Units(nbytes)) < 0x8000_0000
      ensures r == 0 <==> !old(Fits(Units(nbytes))) && sbrk.Refused?
      ensures r == 0 ==> Live() == old(Live())
      ensures r != 0 ==> r >= HDR && r - HDR !in old(Live()) && Live() == old(Live())[r - HDR := Units(nbytes)]
      ensures old(Fits(Units(nbytes))) || sbrk.Refused? ==> arena == old(arena) && given == old(given)
      ensures !old(Fits(Units(nbytes))) && sbrk.Granted? ==>
                && arena == old(arena) + Region(sbrk.addr, Chunk(Units(nbytes)))
                && given == Moved(old(given), sbrk.addr, ToInt32(HDR * Chunk(Units(nbytes))))
    {
      hide Good, LiveOf, FreeHolds, ToInt32, Walk, Fits, Bounds, Moved;
      var nunits := Units(nbytes);
      FirstCall(nunits);
      var prevp := freep;
      ghost var f: nat := WalkStart(nunits);
      RingReads(base, arena, Now(), f);
      var p := Load(ptr, prevp);
      ghost var m: nat, grown := Next(ring, f), false;
      while true
        invariant Sound() && freep != 0 && Live() == old(Live())
        invariant m < |ring| && f < |ring| && ring[f] == freep
        invariant p == ring[m] && prevp == ring[Prev(ring, m)]
        invariant Walk(nunits, m, f, grown)
        invariant !grown ==>
                    && arena == old(arena) && given == old(given) && top == old(top)
                    && Fits(nunits) == old(Fits(nunits))
        invariant grown ==>
                    && !old(Fits(nunits)) && sbrk.Granted? && arena == old(arena) + Region(sbrk.addr, Chunk(nunits))
                    && given == Moved(old(given), sbrk.addr, ToInt32(HDR * Chunk(nunits)))
                    && (Valid() <==> HDR * Chunk(nunits) < 0x8000_0000)
        decreases !grown, Ahead(ring, m, f)
      {
        RingReads(base, arena, Now(), m);
        if Load(size, p) >= nunits {
          FitsAt(nunits, m);
          p := Take(prevp, p, nunits, m);
          return p + HDR;
        }
        if p == freep {
          RingDistinct(base, arena, Now(), m, f);
          WalkDone(nunits, f, grown);
          p, f := MorecoreAgain(nunits, sbrk);
          if p == 0 {
            return 0;
          }
          grown, m := true, f;
        } else {
          WalkOn(nunits, m, f, grown);
        }
        RingReads(base, arena, Now(), m);
        prevp := p;
        p := Load(ptr, p);
        m := Next(ring, m);
      }
    }

    /** The program may store anything into the payload of a live block. */
    method StorePayload(bp: nat, a: nat, p: nat, n: nat)
      requires Sound() && bp in Live() && bp + HDR <= a && a + HDR <= End(bp, Live()[bp])
      modifies this`ptr, this`size
      ensures Sound() && Live() == old(Live())
    {
      StoreGood(base, arena, Now(), bp, a, p, n);
      hide Good;
      ptr := ptr[a := p];
      size := size[a := n];
    }

    /** No block's unit count overflows the 32-bit size field. */
    lemma SizesFit(a: nat)
      requires Sound() && a in blocks
      ensures Load(size, a) == blocks[a] < 0x1_0000_0000
    {
      InOne(blocks, a, a);
      InOne(blocks, a, End(a, blocks[a]) - 1);
    }
  }

  /** malloc(0xffffffff): sbrk is asked for 16 bytes, and the block handed out claims 4 GiB. */
  method HugeRequest() returns (h: Heap, r: nat)
    ensures fresh(h) && h.Sound() && !h.Valid() && h.given == Span(4096, 16)
    ensures r >= HDR && h.Live() == map[r - HDR := 0x1000_0001]
  {
    hide Good, LiveOf, Units, Chunk, ToInt32, Moved, Span, Region;
    HugeUnits();
    h := new Heap(16, 4096);
    assert !h.Fits(0x1000_0001);
    r := h.Malloc(0xffff_ffff, Granted(4096));
    PutFirst(r - HDR, 0x1000_0001);
  }

  lemma HugeUnits()
    ensures Units(0xffff_ffff) == Chunk(0x1000_0001) == 0x1000_0001 && ToInt32(HDR * 0x1000_0001) == 16
    ensures Moved({}, 4096, 16) == Span(4096, 16)
  {}

  lemma PutFirst(k: nat, v: nat)
    ensures map[][k := v] == map[k := v]
  {}
}
