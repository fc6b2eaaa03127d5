/** The file system image that mkfs/mkfs.c builds: iappend() takes blocks one after the other and balloc() marks them
    all at the end.  Until then the image is judged with the bitmap it is going to get. */
module MkfsImage {
  import opened Basics
  import opened Params
  import opened FsBytes
  import opened FsVolume
  import opened FsContent
  import opened FsFiles

  /** A bitmap block with the first `n` bits set. */
  function FirstBits(n: nat): Block
    requires n <= BPB
  {
    if n == 0 then ZeroBlock() else WithBit(FirstBits(n - 1), n - 1, true)
  }

  lemma {:induction false} NoBits(k: nat)
    ensures !HasBit(0, k)
  {
    if k > 0 { NoBits(k - 1); }
  }

  lemma {:induction false} FirstBitsAre(n: nat, b: nat)
    requires n <= BPB && b < BPB
    ensures BitIn(FirstBits(n), b) <==> b < n
  {
    hide WithBit, HasBit;
    if n == 0 {
      NoBits(b % 8);
    } else {
      hide BitIn;
      FirstBitsAre(n - 1, b);
      BitOf(FirstBits(n - 1), n - 1, true, b);
    }
  }

  /** One bitmap block covers the disk, and lies before the data. */
  ghost predicate Small(g: Geometry) { GeoOk(g) && g.size <= BPB && g.bmapstart < g.datastart }

  /** The disk with its bitmap filled in. */
  function WithMap(g: Geometry, disk: seq<Block>, free: nat): (r: seq<Block>)
    requires g.bmapstart < |disk| && free <= BPB
    ensures |r| == |disk|
  {
    disk[g.bmapstart := FirstBits(free)]
  }

  lemma MapTells(g: Geometry, disk: seq<Block>, free: nat, b: nat)
    requires Small(g) && |disk| == g.size && free <= BPB && b < g.size
    ensures BitBlock(g, b) == g.bmapstart && (Bit(g, WithMap(g, disk, free), b) <==> b < free)
  {
    hide BitIn, FirstBits;
    FirstBitsAre(free, b);
    assert b / BPB == 0 && b % BPB == b;
  }

  /** `freeblock++` is what balloc() of kernel/fs.c would do. */
  lemma NextBlock(g: Geometry, disk: seq<Block>, free: nat)
    requires Small(g) && |disk| == g.size && g.datastart <= free < g.size && disk[free] == ZeroBlock()
    ensures BitBlock(g, free) < g.datastart && !Bit(g, WithMap(g, disk, free), free)
    ensures Allocated(g, WithMap(g, disk, free), free) == WithMap(g, disk, free + 1)
  {
    hide BitIn, WithBit;
    MapTells(g, disk, free, free);
    assert free % BPB == free;
  }

  /** File blocks from `m` on are missing. */
  ghost predicate EndsAt(v: Volume, i: nat, m: nat)
    requires i < |v.t| && |v.t[i].addrs| == NDIRECT + 1
  {
    forall n :: m <= n < MAXFILE ==> FileBlock(v.d, v.t[i], n) == 0
  }

  function BlocksFor(size: nat): nat { (size + BSIZE - 1) / BSIZE }

  /** No file has blocks past its size; inode `i` may have `m` of them. */
  ghost predicate Tight(v: Volume, i: nat, m: nat) {
    && (forall j :: 0 <= j < |v.t| ==> |v.t[j].addrs| == NDIRECT + 1)
    && (forall j :: 0 <= j < |v.t| ==> EndsAt(v, j, Last(v, i, m, j)))
  }

  function Last(v: Volume, i: nat, m: nat, j: nat): nat
    requires j < |v.t|
  {
    if j == i then m else BlocksFor(v.t[j].size)
  }

  /** Only slot `k` of inode `i` differs, and no size. */
  ghost predicate OnlySlot(v: Volume, w: Volume, i: nat, k: nat) {
    && |w.t| == |v.t| &&
        (forall j :: 0 <= j < |v.t| ==> |v.t[j].addrs| == |w.t[j].addrs| == NDIRECT + 1 && w.t[j].size == v.t[j].size)
    && (forall j, l ::
        0 <= j < |v.t| && 0 <= l < NSLOTS && !(j == i && l == k) ==> At(w.d, w.t[j], l) == At(v.d, v.t[j], l))
  }

  /** A new block for file block `n` keeps the others where they were. */
  lemma SlotTight(v: Volume, w: Volume, i: nat, k: nat, n: nat, m: nat)
    requires Tight(v, i, m) && OnlySlot(v, w, i, k) && n < MAXFILE && (k == NDIRECT || k == FileSlot(n)) && n < m
    ensures Tight(w, i, m)
  {
    hide At;
    assert forall j :: 0 <= j < |v.t| ==> |w.t[j].addrs| == |v.t[j].addrs|;
    forall j | 0 <= j < |w.t|
      ensures EndsAt(w, j, Last(w, i, m, j))
    {
      var e := Last(v, i, m, j);
      assert EndsAt(v, j, e);
      forall l | e <= l < MAXFILE
        ensures FileBlock(w.d, w.t[j], l) == 0
      {
        assert FileBlock(v.d, v.t[j], l) == 0;
        assert At(w.d, w.t[j], FileSlot(l)) == At(v.d, v.t[j], FileSlot(l));
      }
    }
  }

  class Image {
    const g: Geometry
    var disk: seq<Block>
    var dinodes: seq<Dinode>
    var free: nat               // freeblock
    ghost var owner: map<nat, Slot>

    /** The image as it will be, with `di` in place of inode `i`. */
    ghost function Vol(i: nat, di: Dinode): Volume
      reads this`disk, this`dinodes, this`free, this`owner
      requires i < |dinodes| && g.bmapstart < |disk| && free <= BPB
    {
      Volume(WithMap(g, disk, free), dinodes[i := di], owner)
    }

    ghost predicate Room()
      reads this`disk, this`free
    {
      Small(g) && |disk| == g.size && g.datastart <= free <= g.size && forall b ::
          free <= b < g.size ==> disk[b] == ZeroBlock()
    }

    ghost predicate Holds(i: nat, di: Dinode)
      reads this`disk, this`dinodes, this`free, this`owner
    {
      Room() && i < |dinodes| && |di.addrs| == NDIRECT + 1 && Consistent(g, Vol(i, di))
    }

    ghost function V(): Volume
      reads this`disk, this`dinodes, this`free, this`owner
      requires g.bmapstart < |disk| && free <= BPB
    {
      Volume(WithMap(g, disk, free), dinodes, owner)
    }

    /** The image is a consistent volume without holes, and without blocks past the end of files. */
    ghost predicate Valid()
      reads this`disk, this`dinodes, this`free, this`owner
    {
      Room() && |dinodes| > ROOTINO && VolumeOk(g, V()) && Tight(V(), ROOTINO, BlocksFor(dinodes[ROOTINO].size))
    }

    /** Everything zero, and no block of the data area taken. */
    constructor (geo: Geometry)
      requires Small(geo) && geo.ninodes > ROOTINO
      ensures g == geo && Valid() && free == g.datastart && forall i :: 0 <= i < |dinodes| ==> dinodes[i].size == 0
      ensures |dinodes| == g.ninodes
    {
      g := geo;
      disk := seq(geo.size, _ => ZeroBlock());
      dinodes := seq(geo.ninodes, _ => Dinode(0, seq(NDIRECT + 1, _ => 0)));
      free := geo.datastart;
      owner := map[];
      new;
      BlankOk(g, disk, dinodes, free);
    }

    /** din.addrs[k] = freeblock++, unless the image is full. */
    method TakeAddr(i: nat, di: Dinode, k: nat) returns (di': Dinode)
      requires Holds(i, di) && k <= NDIRECT && di.addrs[k] == 0
      modifies this`free, this`owner
      ensures Holds(i, di') && Extends(g, old(Vol(i, di)), Vol(i, di')) &&
                di' == di.(addrs := di.addrs[k := di'.addrs[k]])
      ensures di'.addrs[k] == 0 <==> old(free) == g.size
      ensures free == if old(free) == g.size then old(free) else old(free) + 1
      ensures OnlySlot(old(Vol(i, di)), Vol(i, di'), i, k)
    {
      hide Bit, At, Allocated, SlotOwns, OwnerNames, BitTells, Extends, WithMap, Consistent, GeoOk;
      di' := di;
      ghost var v := Vol(i, di);
      if free == g.size {
        ExtendsSame(g, v);
        OnlySame(g, v, i, k);
        return;
      }
      NextBlock(g, disk, free);
      Addresses(g, v, i);
      GiveAddr(g, v, i, k, free);
      di' := di.(addrs := di.addrs[k := free]);
      owner := owner[free := Slot(i, k)];
      free := free + 1;
      assert Vol(i, di') == GivenAddr(g, v, i, k, free - 1);
      OnlyOne(g, v, Vol(i, di'), i, k, free - 1);
    }

    /** indirect[j] = freeblock++, unless the image is full. */
    method TakeEntry(i: nat, di: Dinode, j: nat) returns (x: nat)
      requires Holds(i, di) && j < NINDIRECT && di.addrs[NDIRECT] != 0 &&
                 At(WithMap(g, disk, free), di, NDIRECT + 1 + j) == 0
      modifies this`disk, this`free, this`owner
      ensures Holds(i, di) && Extends(g, old(Vol(i, di)), Vol(i, di))
      ensures x == At(WithMap(g, disk, free), di, NDIRECT + 1 + j) && (x == 0 <==> old(free) == g.size)
      ensures free == if old(free) == g.size then old(free) else old(free) + 1
      ensures OnlySlot(old(Vol(i, di)), Vol(i, di), i, NDIRECT + 1 + j)
    {
      hide Bit, At, Allocated, SlotOwns, OwnerNames, BitTells, Extends, WithMap, Consistent, GeoOk, WithWord;
      ghost var v := Vol(i, di);
      if free == g.size {
        ExtendsSame(g, v);
        OnlySame(g, v, i, NDIRECT + 1 + j);
        return 0;
      }
      NextBlock(g, disk, free);
      Addresses(g, v, i);
      GiveEntry(g, v, i, j, free);
      var ind := di.addrs[NDIRECT];
      IndirectTaken(g, v, i, free, disk);
      TableWrite(g, disk, free, ind, j);
      x := free;
      disk := disk[ind := WithWord(disk[ind], j, free)];
      owner := owner[free := Slot(i, NDIRECT + 1 + j)];
      free := free + 1;
      assert Vol(i, di) == GivenEntry(g, v, i, j, free - 1);
      OnlyOne(g, v, Vol(i, di), i, NDIRECT + 1 + j, free - 1);
    }

    /** The block for file block `fbn` in iappend(): 0 if the image is full. */
    method MapBlock(i: nat, di: Dinode, fbn: nat, ghost m: nat) returns (di': Dinode, x: nat)
      requires Holds(i, di) && fbn < MAXFILE && Tight(Vol(i, di), i, m) && fbn < m
      modifies this`disk, this`free, this`owner
      ensures Holds(i, di') && Extends(g, old(Vol(i, di)), Vol(i, di')) && Tight(Vol(i, di'), i, m) &&
                di'.size == di.size
      ensures x == FileBlock(WithMap(g, disk, free), di', fbn) && (x == 0 ==> free == g.size) && free <= old(free) + 2
    {
      hide Bit, At, Extends, WithMap, Consistent, GeoOk, Word, Tight, OnlySlot;
      di' := di;
      ghost var v := Vol(i, di);
      ExtendsSame(g, v);
      if fbn < NDIRECT {
        AddrAt(v.d, di, fbn);
        if di.addrs[fbn] == 0 {
          di' := TakeAddr(i, di, fbn);
          SlotTight(v, Vol(i, di'), i, fbn, fbn, m);
        }
        AddrAt(Vol(i, di').d, di', fbn);
        return di', di'.addrs[fbn];
      }
      var j := fbn - NDIRECT;
      if di.addrs[NDIRECT] == 0 {
        NoTable(v.d, di, j);
        di' := TakeAddr(i, di, NDIRECT);
        SlotTight(v, Vol(i, di'), i, NDIRECT, fbn, m);
        if di'.addrs[NDIRECT] == 0 {
          NoTable(Vol(i, di').d, di', j);
          return di', 0;
        }
      }
      ghost var u := Vol(i, di');
      TableAt(g, u, i, j);
      IndirectTaken(g, u, i, free, disk);
      MapElsewhere(g, disk, free, di'.addrs[NDIRECT]);
      x := Word(disk[di'.addrs[NDIRECT]], j);
      if x == 0 {
        x := TakeEntry(i, di', j);
        SlotTight(u, Vol(i, di'), i, NDIRECT + 1 + j, fbn, m);
        ExtendsTrans(g, v, u, Vol(i, di'));
      }
    }

    /** One round of iappend(): the piece that fits the current block. */
    method AppendPiece(i: nat, di: Dinode, off: nat, data: seq<Byte>, tot: nat, ghost v: Volume)
        returns (di': Dinode, n1: nat)
      requires Holds(i, di) && Written(g, v, Vol(i, di), i, off, data, tot) &&
                 Tight(Vol(i, di), i, BlocksFor(off + tot))
      requires tot < |data| && off + |data| <= MAXFILE * BSIZE
      modifies this`disk, this`free, this`owner
      ensures Holds(i, di') && di'.size == di.size && tot + n1 <= |data|
      ensures n1 > 0 ==>
                Written(g, v, Vol(i, di'), i, off, data, tot + n1) && Tight(Vol(i, di'), i, BlocksFor(off + tot + n1))
      ensures n1 == 0 ==> free == g.size
      ensures n1 > 0 ==> n1 == PieceAt(off + tot, |data| - tot)
      ensures free <= old(free) + 2
    {
      hide Bit, At, Extends, WithMap, Consistent, GeoOk, Tight, Written, FileBlock, Patched, BlocksFor;
      ghost var w := Vol(i, di);
      var o := off + tot;
      var fbn := o / BSIZE;
      n1 := PieceAt(o, |data| - tot);
      BlocksGrow(o, n1);
      Looser(w, i, BlocksFor(o), BlocksFor(o + n1));
      var x;
      di', x := MapBlock(i, di, fbn, BlocksFor(o + n1));
      if x == 0 { return di', 0; }
      ghost var u := Vol(i, di');
      WrittenExtends(g, v, w, u, i, off, data, tot);
      BlockTaken(g, u, i, fbn, free, disk);
      WrittenMore(g, v, u, i, off, data, tot, n1);
      WriteBlock(g, u, i, fbn, Patched(u.d[x], o % BSIZE, data[tot..tot + n1]));
      MapElsewhere(g, disk, free, x);
      WriteElsewhere(g, disk, free, x, Patched(disk[x], o % BSIZE, data[tot..tot + n1]));
      disk := disk[x := Patched(disk[x], o % BSIZE, data[tot..tot + n1])];
      SameSlotsTight(u, Vol(i, di'), i, BlocksFor(o + n1));
    }

    /** iappend(): the file grows by exactly the data, and every other file is as it was; false if the image is full.
        Each block that the data reaches into costs at most itself and the indirect block. */
    method Append(i: nat, data: seq<Byte>) returns (fits: bool)
      requires Valid() && i < |dinodes| && dinodes[i].size + |data| <= MAXFILE * BSIZE
      modifies this`disk, this`dinodes, this`free, this`owner
      ensures !fits ==> free == g.size && |data| > 0
      ensures |data| > 0 ==>
                free <= old(free) + 2 * (BlocksFor(old(dinodes)[i].size + |data|) - old(dinodes)[i].size / BSIZE)
      ensures fits ==> Valid() && |dinodes| == |old(dinodes)| && dinodes[i].size == old(dinodes)[i].size + |data|
      ensures fits ==> Changed(old(V()), V(), i, old(dinodes)[i].size, data)
    {
      hide Bit, At, Extends, WithMap, Consistent, GeoOk, Tight, Written, FileBlock, BlocksFor, VolumeOk, Changed, Whole,
          Cost, Between, PieceAt;
      ghost var v := V();
      var di := dinodes[i];
      var off := di.size;
      OkConsistent(g, v, i);
      TightAny(v, ROOTINO, i);
      WrittenNone(g, v, i, off, data);
      CostStart(off, |data|);
      assert dinodes[i := di] == dinodes;
      var tot := 0;
      while tot < |data|
        invariant 0 <= tot <= |data| && Holds(i, di) && di.size == off && dinodes == old(dinodes)
        invariant Written(g, v, Vol(i, di), i, off, data, tot) && Tight(Vol(i, di), i, BlocksFor(off + tot))
        invariant free <= old(free) + Cost(off, tot) && Between(off, tot, |data|)
      {
        CostGrows(off, tot, |data|);
        var n1;
        di, n1 := AppendPiece(i, di, off, data, tot, v);
        if n1 == 0 {
          CostLast(off, tot, |data|);
          return false;
        }
        tot := tot + n1;
      }
      CostEnd(off, |data|);
      ghost var w := Vol(i, di);
      Grown(g, v, w, i, off, data);
      dinodes := dinodes[i := di.(size := off + |data|)];
      assert V() == w.(t := Resized(w.t, i, off + |data|));
      TightAny(V(), i, ROOTINO);
      fits := true;
    }

    /** balloc() of mkfs: the bitmap block with the first `used` bits set. */
    method FillMap(used: nat) returns (buf: Block)
      requires used <= BPB
      ensures buf == FirstBits(used)
    {
      buf := ZeroBlock();
      var i := 0;
      while i < used
        invariant 0 <= i <= used && buf == FirstBits(i)
      {
        buf := WithBit(buf, i, true);
        i := i + 1;
      }
    }

    /** The end of mkfs: the root directory's size is rounded up, and the bitmap written.  The image is a consistent
        volume; it has no hole exactly if the root directory did not end at a block boundary. */
    method Finish()
      requires Valid() && dinodes[ROOTINO].size < MAXFILE * BSIZE
      modifies this`disk, this`dinodes
      ensures |dinodes| == |old(dinodes)| && dinodes[ROOTINO].size == (old(dinodes)[ROOTINO].size / BSIZE + 1) * BSIZE
      ensures Consistent(g, Volume(disk, dinodes, owner))
      ensures VolumeOk(g, Volume(disk, dinodes, owner)) <==> old(dinodes)[ROOTINO].size % BSIZE != 0
      ensures disk == old(V()).d && dinodes == Resized(old(dinodes), ROOTINO, dinodes[ROOTINO].size)
    {
      hide Bit, At, Consistent, GeoOk, Tight, FileBlock, VolumeOk, Whole, FirstBits;
      ghost var v := V();
      var off := dinodes[ROOTINO].size;
      RoundedRoot(g, v, off);
      dinodes := dinodes[ROOTINO := dinodes[ROOTINO].(size := (off / BSIZE + 1) * BSIZE)];
      var buf := FillMap(free);
      disk := disk[g.bmapstart := buf];
      assert Volume(disk, dinodes, owner) == v.(t := Resized(v.t, ROOTINO, (off / BSIZE + 1) * BSIZE));
    }
  }

  /** How much of `n` bytes goes into the block of offset `o`. */
  function PieceAt(o: nat, n: nat): nat { if n < (o / BSIZE + 1) * BSIZE - o then n else (o / BSIZE + 1) * BSIZE - o }

  /** A bound on the blocks taken for the first `tot` bytes at `off`. */
  function Cost(off: nat, tot: nat): int { if tot == 0 then 0 else 2 * (BlocksFor(off + tot) - off / BSIZE) }

  /** iappend() is between blocks, or before the first piece, or done. */
  predicate Between(off: nat, tot: nat, n: nat) { tot <= n && (tot == 0 || tot == n || (off + tot) % BSIZE == 0) }

  lemma CostStart(off: nat, n: nat)
    ensures Cost(off, 0) == 0 && Between(off, 0, n)
  {}

  lemma CostGrows(off: nat, tot: nat, n: nat)
    requires Between(off, tot, n) && tot < n
    ensures var k := PieceAt(off + tot, n - tot);
            tot + k <= n && Cost(off, tot) + 2 <= Cost(off, tot + k) && Between(off, tot + k, n)
  {
    hide BlocksFor;
    var o := off + tot;
    var q, r, k := o / BSIZE, o % BSIZE, PieceAt(o, n - tot);
    assert o == q * BSIZE + r && k == Min(n - tot, BSIZE - r);
    CeilIs(o + k, q, r + k);
    if tot > 0 { CeilIs(o, q - 1, BSIZE); }
    FloorGrows(off, o);
  }

  lemma CeilIs(x: nat, q: int, e: nat)
    requires x == q * BSIZE + e && 1 <= e <= BSIZE
    ensures BlocksFor(x) == q + 1 && (e == BSIZE ==> x % BSIZE == 0)
  {}

  lemma FloorGrows(a: nat, b: nat)
    requires a <= b
    ensures a / BSIZE <= b / BSIZE
  {}

  lemma CostLast(off: nat, tot: nat, n: nat)
    requires Between(off, tot, n) && tot < n
    ensures Cost(off, tot) + 2 <= 2 * (BlocksFor(off + n) - off / BSIZE)
  {
    hide BlocksFor, PieceAt, Between;
    CostGrows(off, tot, n);
    var k := PieceAt(off + tot, n - tot);
    MoreBlocks(off + tot + k, off + n);
  }

  lemma MoreBlocks(a: nat, b: nat)
    requires a <= b
    ensures BlocksFor(a) <= BlocksFor(b)
  {}

  lemma CostEnd(off: nat, n: nat)
    ensures n > 0 ==> Cost(off, n) == 2 * (BlocksFor(off + n) - off / BSIZE)
  {}

  /** The end of iappend(). */
  lemma Grown(g: Geometry, v: Volume, w: Volume, i: nat, off: nat, data: seq<Byte>)
    requires VolumeOk(g, v) && Written(g, v, w, i, off, data, |data|) && off == v.t[i].size &&
               Tight(w, i, BlocksFor(off + |data|))
    ensures var x := w.(t := Resized(w.t, i, off + |data|));
            VolumeOk(g, x) && Changed(v, x, i, off, data) && Tight(x, i, BlocksFor(off + |data|))
  {
    hide Bit, At, Consistent, GeoOk, FileBlock, Whole, Content, Tight, SameFile;
    WriteDone(g, v, w, i, off, data, |data|);
    assert data[..|data|] == data;
    var x := w.(t := Resized(w.t, i, off + |data|));
    AsChanged(g, v, x, i, off, data);
    WrittenConsistent(g, v, w, i, off, data, |data|);
    ResizedOwns(g, w, i, off + |data|);
    SameSlotsTight(w, x, i, BlocksFor(off + |data|));
  }

  /** Rounding up the root's size leaves a hole exactly if the size was a multiple of the block size. */
  lemma RoundedRoot(g: Geometry, v: Volume, off: nat)
    requires VolumeOk(g, v) && ROOTINO < |v.t| && v.t[ROOTINO].size == off < MAXFILE * BSIZE &&
               Tight(v, ROOTINO, BlocksFor(off))
    ensures var w := v.(t := Resized(v.t, ROOTINO, (off / BSIZE + 1) * BSIZE));
              Consistent(g, w) && (VolumeOk(g, w) <==> off % BSIZE != 0)
  {
    hide Bit, At, Consistent, GeoOk;
    var size := (off / BSIZE + 1) * BSIZE;
    var w := v.(t := Resized(v.t, ROOTINO, size));
    ResizedOwns(g, v, ROOTINO, size);
    assert Whole(v, ROOTINO);
    var n := off / BSIZE;
    assert FileBlock(w.d, w.t[ROOTINO], n) == FileBlock(v.d, v.t[ROOTINO], n);
    assert EndsAt(v, ROOTINO, Last(v, ROOTINO, BlocksFor(off), ROOTINO));
    RootBlocks(g, v, w, off);
    forall j | 0 <= j < |v.t| && j != ROOTINO
      ensures Whole(w, j)
    {
      assert Whole(v, j);
    }
  }

  lemma RootBlocks(g: Geometry, v: Volume, w: Volume, off: nat)
    requires ROOTINO < |v.t| && |v.t[ROOTINO].addrs| == NDIRECT + 1 && v.t[ROOTINO].size == off < MAXFILE * BSIZE
    requires Whole(v, ROOTINO) && EndsAt(v, ROOTINO, BlocksFor(off))
    requires |w.t| == |v.t| && |w.t[ROOTINO].addrs| == NDIRECT + 1 && w.t[ROOTINO].size == (off / BSIZE + 1) * BSIZE
    requires forall n :: 0 <= n < MAXFILE ==> FileBlock(w.d, w.t[ROOTINO], n) == FileBlock(v.d, v.t[ROOTINO], n)
    ensures Whole(w, ROOTINO) <==> off % BSIZE != 0
  {
    hide FileBlock;
    var n := off / BSIZE;
    if off % BSIZE == 0 {
      assert BlocksFor(off) == n && n * BSIZE < w.t[ROOTINO].size;
      assert FileBlock(v.d, v.t[ROOTINO], n) == 0;
    }
  }

  lemma BlocksGrow(o: nat, n: nat)
    requires n > 0
    ensures BlocksFor(o) <= BlocksFor(o + n) && o / BSIZE < BlocksFor(o + n)
  {}

  lemma Looser(v: Volume, i: nat, m: nat, m': nat)
    requires Tight(v, i, m) && m <= m'
    ensures Tight(v, i, m')
  {
    hide FileBlock;
    forall j | 0 <= j < |v.t|
      ensures EndsAt(v, j, Last(v, i, m', j))
    {
      assert EndsAt(v, j, Last(v, i, m, j));
    }
  }

  /** A block of a file is not the bitmap block nor a free one. */
  lemma BlockTaken(g: Geometry, v: Volume, i: nat, n: nat, free: nat, disk: seq<Block>)
    requires Small(g) && |disk| == g.size && free <= g.size && v.d == WithMap(g, disk, free)
    requires Consistent(g, v) && i < |v.t| && n < MAXFILE && FileBlock(v.d, v.t[i], n) != 0
    ensures g.bmapstart < g.datastart <= FileBlock(v.d, v.t[i], n) < free
  {
    hide Bit, WithMap, At;
    var b := FileBlock(v.d, v.t[i], n);
    assert SlotOwns(g, v, i, FileSlot(n));
    assert BitTells(g, v, {}, b);
    MapTells(g, disk, free, b);
  }

  lemma WriteElsewhere(g: Geometry, disk: seq<Block>, free: nat, b: nat, blk: Block)
    requires g.bmapstart < |disk| && free <= BPB && b < |disk| && b != g.bmapstart
    ensures WithMap(g, disk[b := blk], free) == WithMap(g, disk, free)[b := blk]
  {
    hide FirstBits;
  }

  lemma SameSlotsTight(v: Volume, w: Volume, i: nat, m: nat)
    requires Tight(v, i, m) && |w.t| == |v.t| && forall j ::
               0 <= j < |v.t| ==> w.t[j].addrs == v.t[j].addrs && (j == i || w.t[j].size == v.t[j].size)
    requires forall j, k :: 0 <= j < |v.t| && 0 <= k < NSLOTS ==> At(w.d, w.t[j], k) == At(v.d, v.t[j], k)
    ensures Tight(w, i, m)
  {
    hide At;
    assert forall j :: 0 <= j < |w.t| ==> |w.t[j].addrs| == |v.t[j].addrs|;
    forall j | 0 <= j < |w.t|
      ensures EndsAt(w, j, Last(w, i, m, j))
    {
      assert EndsAt(v, j, Last(v, i, m, j));
      forall n | Last(v, i, m, j) <= n < MAXFILE
        ensures FileBlock(w.d, w.t[j], n) == 0
      {
        assert FileBlock(v.d, v.t[j], n) == 0;
      }
    }
  }

  lemma TightAny(v: Volume, i: nat, j: nat)
    requires i < |v.t| && j < |v.t| && Tight(v, i, BlocksFor(v.t[i].size))
    ensures Tight(v, j, BlocksFor(v.t[j].size))
  {
    hide FileBlock;
    forall k | 0 <= k < |v.t|
      ensures EndsAt(v, k, Last(v, j, BlocksFor(v.t[j].size), k))
    {
      assert EndsAt(v, k, Last(v, i, BlocksFor(v.t[i].size), k));
    }
  }

  lemma MapElsewhere(g: Geometry, disk: seq<Block>, free: nat, b: nat)
    requires g.bmapstart < |disk| && free <= BPB && b < |disk| && b != g.bmapstart
    ensures WithMap(g, disk, free)[b] == disk[b]
  {
    hide FirstBits;
  }

  lemma OnlyOne(g: Geometry, v: Volume, w: Volume, i: nat, k: nat, b: nat)
    requires Consistent(g, v) && Consistent(g, w) && |w.t| == |v.t| && forall j ::
               0 <= j < |v.t| ==> w.t[j].size == v.t[j].size
    requires forall j, l :: 0 <= j < |v.t| && 0 <= l < NSLOTS ==> At(w.d, w.t[j], l) == if j == i && l == k then b
               else At(v.d, v.t[j], l)
    ensures OnlySlot(v, w, i, k)
  {
    hide At, Bit, SlotOwns, OwnerNames, BitTells;
  }

  lemma OnlySame(g: Geometry, v: Volume, i: nat, k: nat)
    requires Consistent(g, v)
    ensures OnlySlot(v, v, i, k)
  {}

  lemma Addresses(g: Geometry, v: Volume, i: nat)
    requires Consistent(g, v) && i < |v.t|
    ensures |v.t[i].addrs| == NDIRECT + 1 && |v.d| == g.size && GeoOk(g)
  {}

  lemma BlankOk(g: Geometry, disk: seq<Block>, dinodes: seq<Dinode>, free: nat)
    requires Small(g) && |disk| == g.size && free == g.datastart && |dinodes| == g.ninodes
    requires forall i :: 0 <= i < |dinodes| ==> dinodes[i] == Dinode(0, seq(NDIRECT + 1, _ => 0))
    ensures VolumeOk(g, Volume(WithMap(g, disk, free), dinodes, map[]))
    ensures Tight(Volume(WithMap(g, disk, free), dinodes, map[]), ROOTINO, BlocksFor(0))
  {
    hide Bit, WithMap;
    var v := Volume(WithMap(g, disk, free), dinodes, map[]);
    forall b | 0 <= b < g.size
      ensures BitTells(g, v, {}, b)
    {
      MapTells(g, disk, free, b);
    }
    forall i, k | 0 <= i < |dinodes| && 0 <= k < NSLOTS
      ensures At(v.d, v.t[i], k) == 0
    {}
  }

  /** The indirect block is not the bitmap block nor a free one. */
  lemma IndirectTaken(g: Geometry, v: Volume, i: nat, free: nat, disk: seq<Block>)
    requires Small(g) && |disk| == g.size && free <= g.size && v.d == WithMap(g, disk, free)
    requires Consistent(g, v) && i < |v.t| && v.t[i].addrs[NDIRECT] != 0
    ensures g.bmapstart < g.datastart <= v.t[i].addrs[NDIRECT] < free
  {
    hide Bit, WithMap, At;
    var ind := v.t[i].addrs[NDIRECT];
    AddrAt(v.d, v.t[i], NDIRECT);
    assert SlotOwns(g, v, i, NDIRECT);
    assert BitTells(g, v, {}, ind);
    MapTells(g, disk, free, ind);
  }

  lemma TableWrite(g: Geometry, disk: seq<Block>, free: nat, ind: nat, j: nat)
    requires Small(g) && |disk| == g.size && g.datastart <= ind < free < g.size && j < NINDIRECT &&
               disk[free] == ZeroBlock()
    ensures var d := WithMap(g, disk, free + 1);
              d[ind := WithWord(d[ind], j, free)] == WithMap(g, disk[ind := WithWord(disk[ind], j, free)], free + 1)
  {
    hide WithWord, FirstBits;
  }

  // -------------------------------------------------- the failing image is reached

  /** The file system mkfs lays out: FSSIZE blocks, 200 inodes, a log of LOGBLOCKS + 1 blocks. */
  const LAYOUT: Geometry := Geometry(2000, 46, 47, 33, 200)

  /** A root directory of 64 entries, whatever they are, fills its block, and the finished image has a hole. */
  method FullRoot(entry: nat -> seq<Byte>) returns (im: Image)
    requires forall n :: |entry(n)| == 16
    ensures fresh(im) && im.g == LAYOUT && |im.dinodes| == 200 && im.dinodes[ROOTINO].size == 2 * BSIZE
    ensures !VolumeOk(im.g, Volume(im.disk, im.dinodes, im.owner))
  {
    hide VolumeOk, Consistent, Tight, Changed, WithMap;
    assert GeoOk(LAYOUT);
    im := new Image(LAYOUT);
    for n := 0 to 64
      invariant fresh(im) && im.Valid() && im.g == LAYOUT && |im.dinodes| == 200
      invariant im.dinodes[ROOTINO].size == 16 * n && im.free <= 47 + 4 * n
    {
      var fits := im.Append(ROOTINO, entry(n));
      assert BlocksFor(16 * n + 16) - 16 * n / BSIZE <= 2;
    }
    im.Finish();
  }

  const FILEINO: nat := 2

  /** The file of inode `i` is `c`. */
  ghost predicate Holding(v: Volume, i: nat, c: seq<Byte>) { Readable(v, i) && Content(v, i) == c }

  lemma HoldingSize(v: Volume, i: nat, c: seq<Byte>)
    requires Holding(v, i, c)
    ensures i < |v.t| && v.t[i].size == |c| && |v.t[i].addrs| == NDIRECT + 1
  {}

  lemma Beside(v: Volume, w: Volume, i: nat, j: nat, off: nat, s: seq<Byte>)
    requires Changed(v, w, i, off, s) && j != i && j < |v.t|
    ensures |w.t| == |v.t| && w.t[j].size == v.t[j].size
  {
    assert SameFile(v, w, j);
    assert |Content(v, j)| == |Content(w, j)|;
  }

  lemma Begun(v: Volume, w: Volume, i: nat, s: seq<Byte>)
    requires Changed(v, w, i, 0, s) && v.t[i].size == 0
    ensures Holding(w, i, s)
  {
    assert Content(v, i) == [];
  }

  lemma HeldStill(v: Volume, w: Volume, i: nat, c: seq<Byte>)
    requires Holding(v, i, c) && w.d == v.d && i < |w.t| && w.t[i] == v.t[i]
    ensures Holding(w, i, c)
  {
    assert Content(w, i) == Content(v, i);
  }

  lemma Extended(v: Volume, w: Volume, i: nat, c: seq<Byte>, s: seq<Byte>)
    requires Holding(v, i, c) && Changed(v, w, i, |c|, s)
    ensures Holding(w, i, c + s)
  {}

  lemma BlocksBound(size: nat)
    requires size <= MAXFILE * BSIZE
    ensures BlocksFor(size) <= MAXFILE
  {}

  /** An image with a root directory of less than a block and one file. */
  method Made(root: seq<Byte>, file: seq<Byte>) returns (im: Image)
    requires 0 < |root| < BSIZE && |file| <= MAXFILE * BSIZE
    ensures fresh(im) && im.g == LAYOUT && |im.dinodes| == 200 &&
              VolumeOk(LAYOUT, Volume(im.disk, im.dinodes, im.owner))
    ensures Holding(Volume(im.disk, im.dinodes, im.owner), FILEINO, file)
  {
    hide VolumeOk, Consistent, Tight, Changed, WithMap, BlocksFor;
    assert GeoOk(LAYOUT);
    im := new Image(LAYOUT);
    ghost var v0 := im.V();
    BlocksBound(|root|);
    BlocksBound(|file|);
    var fits := im.Append(ROOTINO, root);
    assert im.free <= 47 + 2 * MAXFILE && fits;
    ghost var v1 := im.V();
    Beside(v0, v1, ROOTINO, FILEINO, 0, root);
    fits := im.Append(FILEINO, file);
    assert |file| > 0 ==> im.free <= 47 + 4 * MAXFILE < im.g.size;
    ghost var v2 := im.V();
    Begun(v1, v2, FILEINO, file);
    Beside(v1, v2, FILEINO, ROOTINO, 0, file);
    im.Finish();
    HeldStill(v2, Volume(im.disk, im.dinodes, im.owner), FILEINO, file);
  }

  /** The image is mounted, the file extended, and read back: what mkfs put there, then what was written. */
  method MountedAndExtended(root: seq<Byte>, file: seq<Byte>, more: seq<Byte>) returns (r: int, out: seq<Byte>)
    requires 0 < |root| < BSIZE && |file| + |more| <= MAXFILE * BSIZE
    ensures 0 <= r <= |more| && out == file + more[..r]
  {
    hide VolumeOk, Consistent, Changed, Bit, Content, Whole, Noted;
    var im := Made(root, file);
    var fs := new FileSystem(im.g, im.disk, im.dinodes, im.owner);
    var ip := new Inode(FILEINO, im.dinodes[FILEINO]);
    ghost var v := Volume(im.disk, im.dinodes, im.owner);
    assert im.dinodes[FILEINO := Dinode(ip.size, ip.addrs)] == im.dinodes;
    HoldingSize(v, FILEINO, file);
    assert fs.Vol(ip) == v && fs.Locked(ip);
    r := fs.Writei(ip, |file|, more, |more|);
    Extended(v, fs.Vol(ip), FILEINO, file, more[..r]);
    var n;
    n, out := fs.Readi(ip, 0, |file| + |more|, |file| + |more|);
  }
}
