/** File contents on a consistent volume (kernel/fs.c): how allocating, writing and freeing
    blocks changes what each inode's bytes are. */
module FsContent {
  import opened Params
  import opened FsBytes
  import opened FsVolume

  /** The slot that holds file block `n`: a direct address, or a table entry past the indirect address. */
  function FileSlot(n: nat): (k: nat)
    requires n < MAXFILE
    ensures k < NSLOTS && k != NDIRECT
  {
    if n < NDIRECT then n else n + 1
  }

  /** The disk block that holds file block `n`, 0 if none. */
  function FileBlock(d: seq<Block>, di: Dinode, n: nat): nat
    requires |di.addrs| == NDIRECT + 1 && n < MAXFILE
  {
    At(d, di, FileSlot(n))
  }

  function FileByte(d: seq<Block>, di: Dinode, o: nat): Byte
    requires |di.addrs| == NDIRECT + 1 && o < MAXFILE * BSIZE
  {
    var b := FileBlock(d, di, o / BSIZE);
    if b < |d| then d[b][o % BSIZE] else 0
  }

  /** No holes: every block below the file size is there. */
  ghost predicate Whole(v: Volume, i: nat)
    requires i < |v.t| && |v.t[i].addrs| == NDIRECT + 1
  {
    && v.t[i].size <= MAXFILE * BSIZE
    && forall n :: 0 <= n < MAXFILE && n * BSIZE < v.t[i].size ==> FileBlock(v.d, v.t[i], n) != 0
  }

  ghost predicate VolumeOk(g: Geometry, v: Volume) {
    Consistent(g, v) && forall i :: 0 <= i < |v.t| ==> Whole(v, i)
  }

  /** The bytes of a file. */
  ghost function Content(v: Volume, i: nat): (s: seq<Byte>)
    requires i < |v.t| && |v.t[i].addrs| == NDIRECT + 1 && v.t[i].size <= MAXFILE * BSIZE
    ensures |s| == v.t[i].size
  {
    seq(v.t[i].size, o requires 0 <= o < v.t[i].size => FileByte(v.d, v.t[i], o))
  }

  ghost predicate SameFile(v: Volume, w: Volume, i: nat)
    requires i < |v.t| && |w.t| == |v.t| && |v.t[i].addrs| == |w.t[i].addrs| == NDIRECT + 1
  {
    Whole(v, i) && Whole(w, i) && Content(w, i) == Content(v, i)
  }

  // ---------------------------------------------------------- what is kept

  /** File block `n` of inode `i`, if present, is the same disk block with the same bytes. */
  ghost predicate Keeps(v: Volume, w: Volume, i: nat, n: nat)
    requires i < |v.t| && |w.t| == |v.t| && |v.t[i].addrs| == |w.t[i].addrs| == NDIRECT + 1 && n < MAXFILE
  {
    var b := FileBlock(v.d, v.t[i], n);
    b != 0 && b < |v.d| ==> b < |w.d| && FileBlock(w.d, w.t[i], n) == b && w.d[b] == v.d[b]
  }

  ghost predicate Alike(g: Geometry, v: Volume, w: Volume) { Shaped(g, v) && Shaped(g, w) }

  /** Sizes and all present file blocks of all inodes are kept; files may have gained blocks. */
  ghost predicate Extends(g: Geometry, v: Volume, w: Volume) {
    && Alike(g, v, w)
    && (forall i :: 0 <= i < |v.t| ==> w.t[i].size == v.t[i].size)
    && (forall i, n :: 0 <= i < |v.t| && 0 <= n < MAXFILE ==> Keeps(v, w, i, n))
  }

  lemma ExtendsTrans(g: Geometry, u: Volume, v: Volume, w: Volume)
    requires Extends(g, u, v) && Extends(g, v, w)
    ensures Extends(g, u, w)
  {
    hide At;
    forall i, n | 0 <= i < |u.t| && 0 <= n < MAXFILE ensures Keeps(u, w, i, n) {
      assert Keeps(u, v, i, n) && Keeps(v, w, i, n);
    }
  }

  lemma ExtendsSelf(g: Geometry, v: Volume)
    requires Shaped(g, v)
    ensures Extends(g, v, v)
  {}

  /** Block writes outside the named data blocks, with no slot lost, keep every file. */
  lemma ExtendsBy(g: Geometry, v: Volume, w: Volume)
    requires Consistent(g, v) && Alike(g, v, w)
    requires forall i :: 0 <= i < |v.t| ==> w.t[i].size == v.t[i].size
    requires forall i, k ::
               0 <= i < |v.t| && 0 <= k < NSLOTS && At(v.d, v.t[i], k) != 0 ==> At(w.d, w.t[i], k) == At(v.d, v.t[i], k)
    requires forall c :: c in v.owner && v.owner[c].k != NDIRECT && c < |v.d| ==> w.d[c] == v.d[c]
    ensures Extends(g, v, w)
  {
    hide At, Bit;
    forall i, n | 0 <= i < |v.t| && 0 <= n < MAXFILE ensures Keeps(v, w, i, n) {
      assert SlotOwns(g, v, i, FileSlot(n));
    }
  }

  // --------------------------------------------- giving a slot a new block

  /** balloc() block `b` and store it in address `k` of inode `i`. */
  ghost function GivenAddr(g: Geometry, v: Volume, i: nat, k: nat, b: nat): Volume
    requires BitBlock(g, b) < |v.d| && b < |v.d| && i < |v.t| && k < |v.t[i].addrs|
  {
    Volume(Allocated(g, v.d, b), WithAddr(v.t, i, k, b), v.owner[b := Slot(i, k)])
  }

  lemma GiveAddr(g: Geometry, v: Volume, i: nat, k: nat, b: nat)
    requires Consistent(g, v) && i < |v.t| && k <= NDIRECT && v.t[i].addrs[k] == 0
    requires b < g.size && !Bit(g, v.d, b)
    ensures BitBlock(g, b) < g.datastart && InData(g, b)
    ensures var w := GivenAddr(g, v, i, k, b);
            && Consistent(g, w) && Extends(g, v, w)
            && forall j, l :: 0 <= j < |v.t| && 0 <= l < NSLOTS ==>
                 At(w.d, w.t[j], l) == if j == i && l == k then b else At(v.d, v.t[j], l)
  {
    hide At, Bit;
    AllocatedOwns(g, v, b);
    var u := v.(d := Allocated(g, v.d, b));
    forall j, l | 0 <= j < |v.t| && 0 <= l < NSLOTS ensures At(u.d, u.t[j], l) == At(v.d, v.t[j], l) {
      AllocatedAt(g, v, b, j, l);
    }
    LinkAddr(g, u, i, k, b);
    AddrAt(v.d, v.t[i], k);
    AllocatedSpares(g, v, b);
    ExtendsBy(g, v, GivenAddr(g, v, i, k, b));
  }

  lemma AddrAt(d: seq<Block>, di: Dinode, k: nat)
    requires |di.addrs| == NDIRECT + 1 && k <= NDIRECT
    ensures At(d, di, k) == di.addrs[k]
  {}

  lemma AllocatedSpares(g: Geometry, v: Volume, b: nat)
    requires Consistent(g, v) && b < g.size && b !in v.owner
    ensures BitBlock(g, b) < g.datastart
    ensures forall c :: c in v.owner ==> c < |v.d| && Allocated(g, v.d, b)[c] == v.d[c]
  {
    hide At, Bit;
    assert BitBlock(g, b) < g.datastart;
    forall c | c in v.owner ensures c < |v.d| && Allocated(g, v.d, b)[c] == v.d[c] {
      assert OwnerNames(g, v, c);
    }
  }

  lemma AllocatedAt(g: Geometry, v: Volume, b: nat, i: nat, k: nat)
    requires Consistent(g, v) && b < g.size && b !in v.owner && i < |v.t| && k < NSLOTS
    ensures BitBlock(g, b) < g.datastart
    ensures At(Allocated(g, v.d, b), v.t[i], k) == At(v.d, v.t[i], k)
  {
    hide At, Bit;
    AllocatedSpares(g, v, b);
    AtFrame(g, v, {}, 0, 0, Allocated(g, v.d, b), i, k);
  }

  /** balloc() block `b` and store it in table entry `j` of inode `i`. */
  ghost function GivenEntry(g: Geometry, v: Volume, i: nat, j: nat, b: nat): Volume
    requires BitBlock(g, b) < |v.d| && b < |v.d| && i < |v.t| && |v.t[i].addrs| == NDIRECT + 1
    requires v.t[i].addrs[NDIRECT] < |v.d| && j < NINDIRECT
  {
    var ind := v.t[i].addrs[NDIRECT];
    var d := Allocated(g, v.d, b);
    Volume(d[ind := WithWord(d[ind], j, b)], v.t, v.owner[b := Slot(i, NDIRECT + 1 + j)])
  }

  lemma GiveEntry(g: Geometry, v: Volume, i: nat, j: nat, b: nat)
    requires Consistent(g, v) && i < |v.t| && j < NINDIRECT
    requires v.t[i].addrs[NDIRECT] != 0 && At(v.d, v.t[i], NDIRECT + 1 + j) == 0
    requires b < g.size && !Bit(g, v.d, b)
    ensures BitBlock(g, b) < g.datastart && InData(g, b) && InData(g, v.t[i].addrs[NDIRECT])
    ensures var w := GivenEntry(g, v, i, j, b);
            && Consistent(g, w) && Extends(g, v, w)
            && forall m, l :: 0 <= m < |v.t| && 0 <= l < NSLOTS ==>
                 At(w.d, w.t[m], l) == if m == i && l == NDIRECT + 1 + j then b else At(v.d, v.t[m], l)
  {
    hide At, Bit;
    AllocatedOwns(g, v, b);
    var u := v.(d := Allocated(g, v.d, b));
    forall m, l | 0 <= m < |v.t| && 0 <= l < NSLOTS ensures At(u.d, u.t[m], l) == At(v.d, v.t[m], l) {
      AllocatedAt(g, v, b, m, l);
    }
    LinkEntry(g, u, i, j, b);
    AllocatedSpares(g, v, b);
    ExtendsBy(g, v, GivenEntry(g, v, i, j, b));
  }

  // ----------------------------------------------------- writing file bytes

  /** Overwrite the disk block of file block `n`. */
  lemma WriteBlock(g: Geometry, v: Volume, i: nat, n: nat, blk: Block)
    requires Consistent(g, v) && i < |v.t| && n < MAXFILE && FileBlock(v.d, v.t[i], n) != 0
    ensures var b := FileBlock(v.d, v.t[i], n);
            && InData(g, b) && b < |v.d|
            && var w := v.(d := v.d[b := blk]);
               && Consistent(g, w)
               && (forall j, k :: 0 <= j < |v.t| && 0 <= k < NSLOTS ==> At(w.d, w.t[j], k) == At(v.d, v.t[j], k))
               && (forall j, m :: 0 <= j < |v.t| && 0 <= m < MAXFILE && !(j == i && m == n) ==> Keeps(v, w, j, m))
  {
    hide At, Bit;
    var b := FileBlock(v.d, v.t[i], n);
    assert SlotOwns(g, v, i, FileSlot(n));
    DataWriteOwns(g, v, b, blk);
    var w := v.(d := v.d[b := blk]);
    forall j, k | 0 <= j < |v.t| && 0 <= k < NSLOTS ensures At(w.d, w.t[j], k) == At(v.d, v.t[j], k) {
      AtFrame(g, v, {}, 0, 0, w.d, j, k);
    }
    forall j, m | 0 <= j < |v.t| && 0 <= m < MAXFILE && !(j == i && m == n) ensures Keeps(v, w, j, m) {
      assert SlotOwns(g, v, j, FileSlot(m));
    }
  }

  /** The state of writei() after `tot` bytes of `data` have gone to offset `off` of inode `i`:
      the size is not updated yet, every other file is as before. */
  ghost predicate Written(g: Geometry, v: Volume, w: Volume, i: nat, off: nat, data: seq<Byte>, tot: nat) {
    && Alike(g, v, w) && Consistent(g, w) && i < |v.t|
    && (forall j :: 0 <= j < |v.t| ==> w.t[j].size == v.t[j].size)
    && (forall j, n :: 0 <= j < |v.t| && j != i && 0 <= n < MAXFILE ==> Keeps(v, w, j, n))
    && v.t[i].size <= MAXFILE * BSIZE && tot <= |data| && off + tot <= MAXFILE * BSIZE
    && (forall o ::
        0 <= o < MAXFILE * BSIZE && (o < v.t[i].size || off <= o < off + tot) ==>
        ByteWritten(v, w, i, off, data, tot, o))
  }

  /** Byte `o` is present, and is the new byte inside the written range, the old one elsewhere. */
  ghost predicate ByteWritten(v: Volume, w: Volume, i: nat, off: nat, data: seq<Byte>, tot: nat, o: nat)
    requires i < |v.t| && |w.t| == |v.t| && |v.t[i].addrs| == |w.t[i].addrs| == NDIRECT + 1
    requires o < MAXFILE * BSIZE && tot <= |data|
  {
    && FileBlock(w.d, w.t[i], o / BSIZE) != 0
    && FileByte(w.d, w.t[i], o) == if off <= o < off + tot then data[o - off] else FileByte(v.d, v.t[i], o)
  }

  lemma WrittenNone(g: Geometry, v: Volume, i: nat, off: nat, data: seq<Byte>)
    requires Consistent(g, v) && i < |v.t| && Whole(v, i) && off <= MAXFILE * BSIZE
    ensures Written(g, v, v, i, off, data, 0)
  {
    hide At;
    forall o | 0 <= o < v.t[i].size ensures ByteWritten(v, v, i, off, data, 0, o) {
      assert o / BSIZE * BSIZE < v.t[i].size;
    }
  }

  /** bmap() in the middle of writei() disturbs nothing. */
  lemma WrittenExtends(g: Geometry, v: Volume, w: Volume, x: Volume, i: nat, off: nat, data: seq<Byte>, tot: nat)
    requires Written(g, v, w, i, off, data, tot) && Extends(g, w, x) && Consistent(g, x)
    ensures Written(g, v, x, i, off, data, tot)
  {
    hide At, Bit;
    forall j, n | 0 <= j < |v.t| && j != i && 0 <= n < MAXFILE ensures Keeps(v, x, j, n) {
      assert Keeps(v, w, j, n) && Keeps(w, x, j, n);
    }
    forall o | 0 <= o < MAXFILE * BSIZE && (o < v.t[i].size || off <= o < off + tot)
      ensures ByteWritten(v, x, i, off, data, tot, o)
    {
      assert ByteWritten(v, w, i, off, data, tot, o);
      assert Keeps(w, x, i, o / BSIZE);
      assert SlotOwns(g, w, i, FileSlot(o / BSIZE));
    }
  }

  /** memmove of data[tot .. tot+m) into the block at a. */
  function Patched(blk: Block, a: nat, data: seq<Byte>): Block
    requires a + |data| <= BSIZE
  {
    blk[..a] + data + blk[a + |data|..]
  }

  /** One turn of writei()'s loop: the piece that fits the current block. */
  lemma WrittenMore(g: Geometry, v: Volume, w: Volume, i: nat, off: nat, data: seq<Byte>, tot: nat, m: nat)
    requires Written(g, v, w, i, off, data, tot)
    requires tot + m <= |data| && off + tot + m <= MAXFILE * BSIZE && (off + tot) % BSIZE + m <= BSIZE
    requires off + tot < MAXFILE * BSIZE && FileBlock(w.d, w.t[i], (off + tot) / BSIZE) != 0
    ensures var b := FileBlock(w.d, w.t[i], (off + tot) / BSIZE);
            && b < |w.d|
            && Written(g, v, w.(d := w.d[b := Patched(w.d[b], (off + tot) % BSIZE, data[tot..tot + m])]), i, off, data,
                tot + m)
  {
    hide At, Bit;
    var n, a := (off + tot) / BSIZE, (off + tot) % BSIZE;
    var b := FileBlock(w.d, w.t[i], n);
    assert SlotOwns(g, w, i, FileSlot(n));
    var blk := Patched(w.d[b], a, data[tot..tot + m]);
    WriteBlock(g, w, i, n, blk);
    var x := w.(d := w.d[b := blk]);
    forall j, l | 0 <= j < |v.t| && j != i && 0 <= l < MAXFILE ensures Keeps(v, x, j, l) {
      assert Keeps(v, w, j, l) && Keeps(w, x, j, l);
    }
    var tot' := tot + m;
    forall o | 0 <= o < MAXFILE * BSIZE && (o < v.t[i].size || off <= o < off + tot')
      ensures ByteWritten(v, x, i, off, data, tot', o)
    {
      PatchedByte(g, v, w, x, i, off, data, tot, m, o);
    }
  }

  lemma PatchedByte(g: Geometry, v: Volume, w: Volume, x: Volume, i: nat, off: nat, data: seq<Byte>, tot: nat, m: nat,
      o: nat)
    requires Written(g, v, w, i, off, data, tot) && Shaped(g, x) && |x.t| == |w.t|
    requires tot + m <= |data| && off + tot + m <= MAXFILE * BSIZE && (off + tot) % BSIZE + m <= BSIZE
    requires off + tot < MAXFILE * BSIZE
    requires o < MAXFILE * BSIZE && (o < v.t[i].size || off <= o < off + tot + m)
    requires var n, a := (off + tot) / BSIZE, (off + tot) % BSIZE;
             var b := FileBlock(w.d, w.t[i], n);
             && b != 0 && b < |w.d| && b < |x.d| && FileBlock(x.d, x.t[i], n) == b
             && x.d[b] == Patched(w.d[b], a, data[tot..tot + m])
    requires forall l :: 0 <= l < MAXFILE && l != (off + tot) / BSIZE ==> Keeps(w, x, i, l)
    ensures ByteWritten(v, x, i, off, data, tot + m, o)
  {
    hide At, Bit;
    var n, a := (off + tot) / BSIZE, (off + tot) % BSIZE;
    if o < v.t[i].size || off <= o < off + tot {
      assert ByteWritten(v, w, i, off, data, tot, o);
    }
    if o / BSIZE != n {
      assert Keeps(w, x, i, o / BSIZE);
      assert SlotOwns(g, w, i, FileSlot(o / BSIZE));
      assert !(off + tot <= o < off + tot + m);
    } else {
      assert off + tot <= o < off + tot + m <==> a <= o % BSIZE < a + m;
    }
  }

  // --------------------------------------------------- the end of writei()

  function Spliced(c: seq<Byte>, off: nat, s: seq<Byte>): seq<Byte>
    requires off <= |c|
  {
    c[..off] + s + if off + |s| <= |c| then c[off + |s|..] else []
  }

  function Resized(t: seq<Dinode>, i: nat, size: nat): seq<Dinode>
    requires i < |t|
  {
    t[i := t[i].(size := size)]
  }

  /** Sizes play no part in ownership. */
  lemma ResizedOwns(g: Geometry, v: Volume, i: nat, size: nat)
    requires Consistent(g, v) && i < |v.t|
    ensures Consistent(g, v.(t := Resized(v.t, i, size)))
    ensures forall j, k ::
              0 <= j < |v.t| && 0 <= k < NSLOTS ==> At(v.d, Resized(v.t, i, size)[j], k) == At(v.d, v.t[j], k)
  {
    var w := v.(t := Resized(v.t, i, size));
    forall j, k | 0 <= j < |v.t| && 0 <= k < NSLOTS ensures At(w.d, w.t[j], k) == At(v.d, v.t[j], k) {}
    hide At, Bit;
    forall j, k | 0 <= j < |v.t| && 0 <= k < NSLOTS ensures SlotOwns(g, w, j, k) {
      assert SlotOwns(g, v, j, k);
    }
    forall b | b in w.owner ensures OwnerNames(g, w, b) {
      assert OwnerNames(g, v, b);
    }
    forall b | 0 <= b < g.size ensures BitTells(g, w, {}, b) {
      assert BitTells(g, v, {}, b);
    }
  }

  /** writei() in terms of file contents: the new size, the new bytes, and every other file untouched. */
  lemma WriteDone(g: Geometry, v: Volume, w: Volume, i: nat, off: nat, data: seq<Byte>, tot: nat)
    requires VolumeOk(g, v) && Written(g, v, w, i, off, data, tot) && off <= v.t[i].size
    ensures var size := if off + tot > v.t[i].size then off + tot else v.t[i].size;
            var x := w.(t := Resized(w.t, i, size));
            && VolumeOk(g, x) && |x.t| == |v.t|
            && Whole(v, i) && Whole(x, i) && Content(x, i) == Spliced(Content(v, i), off, data[..tot])
            && forall j :: 0 <= j < |v.t| && j != i ==> SameFile(v, x, j)
  {
    hide At, Bit;
    var size := if off + tot > v.t[i].size then off + tot else v.t[i].size;
    var x := w.(t := Resized(w.t, i, size));
    assert Whole(v, i);
    ResizedOwns(g, w, i, size);
    forall o | 0 <= o < size ensures FileByte(x.d, x.t[i], o) == Spliced(Content(v, i), off, data[..tot])[o] {
      assert ByteWritten(v, w, i, off, data, tot, o);
    }
    forall n | 0 <= n < MAXFILE && n * BSIZE < size ensures FileBlock(x.d, x.t[i], n) != 0 {
      assert ByteWritten(v, w, i, off, data, tot, n * BSIZE);
    }
    forall j | 0 <= j < |v.t| && j != i ensures SameFile(v, x, j) {
      assert Whole(v, j);
      forall n | 0 <= n < MAXFILE ensures Keeps(v, x, j, n) {
        assert Keeps(v, w, j, n);
      }
      KeptContent(g, v, x, j);
    }
    assert Whole(x, i);
    forall j | 0 <= j < |x.t| ensures Whole(x, j) {
      assert j != i ==> SameFile(v, x, j);
    }
  }

  lemma KeptContent(g: Geometry, v: Volume, w: Volume, j: nat)
    requires Consistent(g, v) && Alike(g, v, w) && j < |v.t| && Whole(v, j) && w.t[j].size == v.t[j].size
    requires forall n :: 0 <= n < MAXFILE ==> Keeps(v, w, j, n)
    ensures Whole(w, j) && Content(w, j) == Content(v, j)
  {
    hide At, Bit;
    forall n | 0 <= n < MAXFILE && n * BSIZE < v.t[j].size
      ensures FileBlock(w.d, w.t[j], n) == FileBlock(v.d, v.t[j], n) != 0
      ensures FileBlock(v.d, v.t[j], n) < |v.d| && w.d[FileBlock(v.d, v.t[j], n)] == v.d[FileBlock(v.d, v.t[j], n)]
    {
      assert Keeps(v, w, j, n);
      assert SlotOwns(g, v, j, FileSlot(n));
    }
    forall o | 0 <= o < v.t[j].size ensures FileByte(w.d, w.t[j], o) == FileByte(v.d, v.t[j], o) {
      assert o / BSIZE * BSIZE < v.t[j].size;
    }
  }
}
