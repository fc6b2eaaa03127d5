/** Which inode owns which disk block (kernel/fs.c): the bitmap, the direct addresses, the
    indirect block and its table, as one consistent volume. */
module FsVolume {
  import opened Params
  import opened FsBytes

  const NDIRECT: nat := 12
  const MAXFILE: nat := NDIRECT + NINDIRECT
  const NSLOTS: nat := NDIRECT + 1 + NINDIRECT // direct addresses, indirect address, table entries

  /** The part of the superblock the allocator uses; data blocks are [datastart, size). */
  datatype Geometry = Geometry(size: nat, bmapstart: nat, datastart: nat, inodestart: nat, ninodes: nat)

  ghost predicate GeoOk(g: Geometry) {
    && 0 < g.bmapstart && 0 < g.datastart <= g.size < 0x1_0000_0000
    && forall b :: 0 <= b < g.size ==> BitBlock(g, b) < g.datastart
  }

  /** BBLOCK(b, sb). */
  function BitBlock(g: Geometry, b: nat): nat { b / BPB + g.bmapstart }

  datatype Dinode = Dinode(size: nat, addrs: seq<nat>)

  /** A place that can hold a block number: address or table entry `k` of inode `inum`. */
  datatype Slot = Slot(inum: nat, k: nat)

  /** Blocks, inodes, and for every allocated data block the one slot that names it. */
  datatype Volume = Volume(d: seq<Block>, t: seq<Dinode>, owner: map<nat, Slot>)

  predicate Bit(g: Geometry, d: seq<Block>, b: nat)
    requires BitBlock(g, b) < |d|
  {
    BitIn(d[BitBlock(g, b)], b % BPB)
  }

  /** The block number in slot `k` of an inode, 0 if none. */
  function At(d: seq<Block>, di: Dinode, k: nat): nat
    requires |di.addrs| == NDIRECT + 1 && k < NSLOTS
  {
    if k <= NDIRECT then di.addrs[k]
    else if di.addrs[NDIRECT] == 0 || di.addrs[NDIRECT] >= |d| then 0
    else Word(d[di.addrs[NDIRECT]], k - NDIRECT - 1)
  }

  ghost predicate Shaped(g: Geometry, v: Volume) {
    && GeoOk(g) && |v.d| == g.size && |v.t| == g.ninodes
    && forall i :: 0 <= i < |v.t| ==> |v.t[i].addrs| == NDIRECT + 1
  }

  ghost predicate InData(g: Geometry, b: nat) { g.datastart <= b < g.size }

  /** A block number found in a slot is a data block owned by that very slot. */
  ghost predicate SlotOwns(g: Geometry, v: Volume, i: nat, k: nat)
    requires Shaped(g, v) && i < |v.t| && k < NSLOTS
  {
    var b := At(v.d, v.t[i], k);
    b != 0 ==> InData(g, b) && b in v.owner && v.owner[b] == Slot(i, k)
  }

  ghost predicate OwnerNames(g: Geometry, v: Volume, b: nat)
    requires Shaped(g, v) && b in v.owner
  {
    var s := v.owner[b];
    InData(g, b) && s.inum < |v.t| && s.k < NSLOTS && At(v.d, v.t[s.inum], s.k) == b
  }

  ghost predicate BitTells(g: Geometry, v: Volume, loose: set<nat>, b: nat)
    requires Shaped(g, v) && b < g.size
  {
    Bit(g, v.d, b) <==> b < g.datastart || b in v.owner || b in loose
  }

  /** Table entries 0 .. dead-1 of inode `inum` are being discarded. */
  ghost predicate Dead(inum: nat, dead: nat, i: nat, k: nat) {
    i == inum && NDIRECT < k <= NDIRECT + dead
  }

  /** The bitmap marks exactly the metadata blocks, the blocks some slot names, and the
      blocks in `loose`, which are allocated but named by no slot yet. */
  ghost predicate Owns(g: Geometry, v: Volume, loose: set<nat>, inum: nat, dead: nat) {
    && Shaped(g, v)
    && (forall i, k :: 0 <= i < |v.t| && 0 <= k < NSLOTS && !Dead(inum, dead, i, k) ==> SlotOwns(g, v, i, k))
    && (forall b :: b in v.owner ==> OwnerNames(g, v, b) && !Dead(inum, dead, v.owner[b].inum, v.owner[b].k))
    && (forall b :: 0 <= b < g.size ==> BitTells(g, v, loose, b))
    && (forall b :: b in loose ==> InData(g, b) && b !in v.owner)
  }

  ghost predicate Consistent(g: Geometry, v: Volume) { Owns(g, v, {}, 0, 0) }

  /** What the invariant is for: a data block is marked in the bitmap exactly if some slot of some
      inode names it, and then only one slot does. */
  lemma BitmapExact(g: Geometry, v: Volume, b: nat)
    requires Consistent(g, v) && InData(g, b)
    ensures Bit(g, v.d, b) <==> exists i, k :: 0 <= i < |v.t| && 0 <= k < NSLOTS && At(v.d, v.t[i], k) == b
    ensures forall i, k, j, l | 0 <= i < |v.t| && 0 <= k < NSLOTS && 0 <= j < |v.t| && 0 <= l < NSLOTS ::
              At(v.d, v.t[i], k) == b && At(v.d, v.t[j], l) == b ==> i == j && k == l
  {
    assert BitTells(g, v, {}, b);
    forall i, k | 0 <= i < |v.t| && 0 <= k < NSLOTS && At(v.d, v.t[i], k) == b
      ensures b in v.owner && v.owner[b] == Slot(i, k)
    {
      assert SlotOwns(g, v, i, k);
    }
    if b in v.owner {
      assert OwnerNames(g, v, b);
    }
  }

  // ---------------------------------------------------------- bitmap writes

  function Marked(g: Geometry, d: seq<Block>, b: nat, on: bool): seq<Block>
    requires BitBlock(g, b) < |d|
  {
    d[BitBlock(g, b) := WithBit(d[BitBlock(g, b)], b % BPB, on)]
  }

  lemma MarkedBit(g: Geometry, d: seq<Block>, b: nat, on: bool, c: nat)
    requires BitBlock(g, b) < |d| && BitBlock(g, c) < |d|
    ensures Bit(g, Marked(g, d, b, on), c) == if c == b then on else Bit(g, d, c)
  {
    BitOf(d[BitBlock(g, b)], b % BPB, on, c % BPB);
  }

  /** The bitmap is read only from blocks below datastart. */
  lemma SameBits(g: Geometry, d: seq<Block>, d': seq<Block>, c: nat)
    requires GeoOk(g) && |d| == |d'| == g.size && c < g.size
    requires forall b :: 0 <= b < g.datastart ==> d'[b] == d[b]
    ensures Bit(g, d', c) == Bit(g, d, c)
  {
    assert BitBlock(g, c) < g.datastart;
  }

  // ------------------------------------------------- slots under block writes

  /** Slot contents depend only on owned blocks. */
  lemma AtFrame(g: Geometry, v: Volume, loose: set<nat>, inum: nat, dead: nat, d': seq<Block>, i: nat, k: nat)
    requires Owns(g, v, loose, inum, dead) && i < |v.t| && k < NSLOTS
    requires |d'| == |v.d| && forall b :: b in v.owner && v.owner[b].k == NDIRECT ==> d'[b] == v.d[b]
    ensures At(d', v.t[i], k) == At(v.d, v.t[i], k)
  {
    if k > NDIRECT {
      assert SlotOwns(g, v, i, NDIRECT);
    }
  }

  /** Block writes that spare every indirect block and set the bits right keep ownership. */
  lemma OwnsFrame(g: Geometry, v: Volume, loose: set<nat>, loose': set<nat>, inum: nat, dead: nat, d': seq<Block>)
    requires Owns(g, v, loose, inum, dead)
    requires |d'| == |v.d| && forall b :: b in v.owner && v.owner[b].k == NDIRECT ==> d'[b] == v.d[b]
    requires forall b :: 0 <= b < g.size ==> (Bit(g, d', b) <==> b < g.datastart || b in v.owner || b in loose')
    requires forall b :: b in loose' ==> InData(g, b) && b !in v.owner
    ensures Owns(g, v.(d := d'), loose', inum, dead)
  {
    hide Word, Bit, BitBlock, At;
    var w := v.(d := d');
    forall i, k | 0 <= i < |v.t| && 0 <= k < NSLOTS
      ensures At(w.d, w.t[i], k) == At(v.d, v.t[i], k)
    {
      AtFrame(g, v, loose, inum, dead, d', i, k);
    }
    forall i, k | 0 <= i < |v.t| && 0 <= k < NSLOTS && !Dead(inum, dead, i, k)
      ensures SlotOwns(g, w, i, k)
    {
      assert SlotOwns(g, v, i, k);
    }
    forall b | b in w.owner ensures OwnerNames(g, w, b) {
      assert OwnerNames(g, v, b);
    }
  }

  /** balloc(): mark a clear bit and zero the block. */
  function Allocated(g: Geometry, d: seq<Block>, b: nat): seq<Block>
    requires BitBlock(g, b) < |d| && b < |d|
  {
    Marked(g, d, b, true)[b := ZeroBlock()]
  }

  lemma AllocatedOwns(g: Geometry, v: Volume, b: nat)
    requires Consistent(g, v) && b < g.size && !Bit(g, v.d, b)
    ensures InData(g, b) && b !in v.owner
    ensures Owns(g, v.(d := Allocated(g, v.d, b)), {b}, 0, 0)
  {
    assert BitTells(g, v, {}, b);
    var d' := Allocated(g, v.d, b);
    forall c | 0 <= c < g.size ensures Bit(g, d', c) <==> c < g.datastart || c in v.owner || c in {b} {
      assert BitTells(g, v, {}, c);
      assert BitBlock(g, c) < g.datastart && BitBlock(g, b) < g.datastart;
      MarkedBit(g, v.d, b, true, c);
    }
    forall c | c in v.owner && v.owner[c].k == NDIRECT ensures d'[c] == v.d[c] {
      assert OwnerNames(g, v, c);
      assert BitBlock(g, b) < g.datastart;
    }
    OwnsFrame(g, v, {}, {b}, 0, 0, d');
  }

  /** Writing a block that is not an indirect block changes no slot. */
  lemma DataWriteOwns(g: Geometry, v: Volume, b: nat, blk: Block)
    requires Consistent(g, v) && b in v.owner && v.owner[b].k != NDIRECT
    ensures InData(g, b) && Consistent(g, v.(d := v.d[b := blk]))
  {
    assert OwnerNames(g, v, b);
    var d' := v.d[b := blk];
    forall c | 0 <= c < g.size ensures Bit(g, d', c) <==> c < g.datastart || c in v.owner || c in {} {
      assert BitTells(g, v, {}, c);
      SameBits(g, v.d, d', c);
    }
    OwnsFrame(g, v, {}, {}, 0, 0, d');
  }

  // ------------------------------------------------------- naming a new block

  function WithAddr(t: seq<Dinode>, i: nat, k: nat, b: nat): seq<Dinode>
    requires i < |t| && k < |t[i].addrs|
  {
    t[i := t[i].(addrs := t[i].addrs[k := b])]
  }

  /** An inode address takes a newly allocated block; as an indirect block it starts all zero. */
  lemma LinkAddr(g: Geometry, v: Volume, i: nat, k: nat, b: nat)
    requires Owns(g, v, {b}, 0, 0) && i < |v.t| && k <= NDIRECT && v.t[i].addrs[k] == 0
    requires k == NDIRECT ==> v.d[b] == ZeroBlock()
    ensures var w := v.(t := WithAddr(v.t, i, k, b), owner := v.owner[b := Slot(i, k)]);
            && Consistent(g, w)
            && forall j, l :: 0 <= j < |v.t| && 0 <= l < NSLOTS ==>
                 At(w.d, w.t[j], l) == if j == i && l == k then b else At(v.d, v.t[j], l)
  {
    hide Word, Bit, BitBlock;
    var w := v.(t := WithAddr(v.t, i, k, b), owner := v.owner[b := Slot(i, k)]);
    assert b in {b};
    forall j, l | 0 <= j < |v.t| && 0 <= l < NSLOTS
      ensures At(w.d, w.t[j], l) == if j == i && l == k then b else At(v.d, v.t[j], l)
    {
      if l > NDIRECT {
        ZeroWord(l - NDIRECT - 1);
      }
    }
    LinkedConsistent(g, v, w, b, Slot(i, k));
  }

  /** An entry of the indirect table takes a newly allocated block. */
  lemma LinkEntry(g: Geometry, v: Volume, i: nat, j: nat, b: nat)
    requires Owns(g, v, {b}, 0, 0) && i < |v.t| && j < NINDIRECT
    requires v.t[i].addrs[NDIRECT] != 0 && At(v.d, v.t[i], NDIRECT + 1 + j) == 0
    ensures var ind := v.t[i].addrs[NDIRECT];
            && InData(g, ind) && ind in v.owner && v.owner[ind] == Slot(i, NDIRECT)
            && var w := v.(d := v.d[ind := WithWord(v.d[ind], j, b)], owner := v.owner[b := Slot(i, NDIRECT + 1 + j)]);
               && Consistent(g, w)
               && forall m, l :: 0 <= m < |v.t| && 0 <= l < NSLOTS ==>
                    At(w.d, w.t[m], l) == if m == i && l == NDIRECT + 1 + j then b else At(v.d, v.t[m], l)
  {
    hide Word, WithWord, Bit, BitBlock;
    assert SlotOwns(g, v, i, NDIRECT);
    var ind := v.t[i].addrs[NDIRECT];
    var w := v.(d := v.d[ind := WithWord(v.d[ind], j, b)], owner := v.owner[b := Slot(i, NDIRECT + 1 + j)]);
    assert b in {b};
    forall m, l | 0 <= m < |v.t| && 0 <= l < NSLOTS
      ensures At(w.d, w.t[m], l) == if m == i && l == NDIRECT + 1 + j then b else At(v.d, v.t[m], l)
    {
      if l > NDIRECT {
        assert SlotOwns(g, v, m, NDIRECT);
        WordOf(v.d[ind], j, b, l - NDIRECT - 1);
      }
    }
    LinkedConsistent(g, v, w, b, Slot(i, NDIRECT + 1 + j));
  }

  /** Once exactly one empty slot has come to name the loose block, the volume is consistent. */
  lemma LinkedConsistent(g: Geometry, v: Volume, w: Volume, b: nat, s: Slot)
    requires Owns(g, v, {b}, 0, 0) && b != 0
    requires Shaped(g, w) && |w.t| == |v.t| && w.owner == v.owner[b := s] && s.inum < |v.t| && s.k < NSLOTS
    requires At(v.d, v.t[s.inum], s.k) == 0
    requires forall c :: 0 <= c < g.datastart ==> w.d[c] == v.d[c]
    requires forall j, l :: 0 <= j < |v.t| && 0 <= l < NSLOTS ==>
               At(w.d, w.t[j], l) == if j == s.inum && l == s.k then b else At(v.d, v.t[j], l)
    ensures Consistent(g, w)
  {
    hide Word, Bit, BitBlock, At;
    forall i, k | 0 <= i < |w.t| && 0 <= k < NSLOTS ensures SlotOwns(g, w, i, k) {
      assert SlotOwns(g, v, i, k);
    }
    forall c | c in w.owner ensures OwnerNames(g, w, c) {
      if c != b {
        assert OwnerNames(g, v, c);
      }
    }
    forall c | 0 <= c < g.size ensures BitTells(g, w, {}, c) {
      assert BitTells(g, v, {b}, c);
      SameBits(g, v.d, w.d, c);
    }
  }

  // ------------------------------------------------------------ freeing blocks

  /** Once every live slot that named `b` is gone, clearing its bit frees it. */
  lemma FreedOwns(g: Geometry, v: Volume, inum: nat, dead: nat, w: Volume, dead': nat, b: nat)
    requires Owns(g, v, {}, inum, dead) && b in v.owner
    requires Shaped(g, w) && |w.t| == |v.t| && w.d == Marked(g, v.d, b, false) && w.owner == v.owner - {b}
    requires forall i, k :: 0 <= i < |v.t| && 0 <= k < NSLOTS && !Dead(inum, dead', i, k) ==>
               (At(w.d, w.t[i], k) == 0 || (!Dead(inum, dead, i, k) && At(w.d, w.t[i], k) == At(v.d, v.t[i], k) != b))
    requires forall c :: c in w.owner ==> At(w.d, w.t[v.owner[c].inum], v.owner[c].k) == c
    requires forall c :: c in w.owner ==> !Dead(inum, dead', v.owner[c].inum, v.owner[c].k)
    ensures Owns(g, w, {}, inum, dead')
  {
    hide Word, Bit, BitBlock, At, Marked;
    forall i, k | 0 <= i < |w.t| && 0 <= k < NSLOTS && !Dead(inum, dead', i, k) ensures SlotOwns(g, w, i, k) {
      if At(w.d, w.t[i], k) != 0 {
        assert SlotOwns(g, v, i, k);
      }
    }
    forall c | c in w.owner ensures OwnerNames(g, w, c) {
      assert OwnerNames(g, v, c);
    }
    forall c | 0 <= c < g.size ensures BitTells(g, w, {}, c) {
      assert BitTells(g, v, {}, c);
      assert OwnerNames(g, v, b);
      MarkedBit(g, v.d, b, false, c);
    }
  }

  /** Clearing a bit changes no slot. */
  lemma MarkedAt(g: Geometry, v: Volume, inum: nat, dead: nat, b: nat, i: nat, k: nat)
    requires Owns(g, v, {}, inum, dead) && b < g.size && i < |v.t| && k < NSLOTS
    ensures At(Marked(g, v.d, b, false), v.t[i], k) == At(v.d, v.t[i], k)
  {
    hide Word, Bit, At;
    assert BitBlock(g, b) < g.datastart;
    forall c | c in v.owner && v.owner[c].k == NDIRECT ensures Marked(g, v.d, b, false)[c] == v.d[c] {
      assert OwnerNames(g, v, c);
    }
    AtFrame(g, v, {}, inum, dead, Marked(g, v.d, b, false), i, k);
  }

  /** itrunc() frees a direct block. */
  lemma FreeAddr(g: Geometry, v: Volume, i: nat, k: nat)
    requires Consistent(g, v) && i < |v.t| && k < NDIRECT && v.t[i].addrs[k] != 0
    ensures var b := v.t[i].addrs[k];
            && InData(g, b) && Bit(g, v.d, b) && b in v.owner && v.owner[b] == Slot(i, k)
            && var w := Volume(Marked(g, v.d, b, false), WithAddr(v.t, i, k, 0), v.owner - {b});
               && Consistent(g, w)
               && forall j, l :: 0 <= j < |v.t| && 0 <= l < NSLOTS ==>
                    At(w.d, w.t[j], l) == if j == i && l == k then 0 else At(v.d, v.t[j], l)
  {
    hide Word, Bit, BitBlock, WithBit;
    assert SlotOwns(g, v, i, k);
    var b := v.t[i].addrs[k];
    assert BitTells(g, v, {}, b);
    var w := Volume(Marked(g, v.d, b, false), WithAddr(v.t, i, k, 0), v.owner - {b});
    forall j, l | 0 <= j < |v.t| && 0 <= l < NSLOTS
      ensures At(w.d, w.t[j], l) == if j == i && l == k then 0 else At(v.d, v.t[j], l)
      ensures !(j == i && l == k) && At(v.d, v.t[j], l) != 0 ==> At(v.d, v.t[j], l) != b
    {
      MarkedAt(g, v, 0, 0, b, j, l);
      assert SlotOwns(g, v, j, l);
    }
    forall c | c in w.owner ensures At(w.d, w.t[v.owner[c].inum], v.owner[c].k) == c {
      assert OwnerNames(g, v, c);
    }
    FreedOwns(g, v, 0, 0, w, 0, b);
  }

  /** itrunc() frees table entry `j`; the entry itself stays, but no longer counts. */
  lemma FreeEntry(g: Geometry, v: Volume, i: nat, j: nat)
    requires Owns(g, v, {}, i, j) && i < |v.t| && j < NINDIRECT
    ensures var b := At(v.d, v.t[i], NDIRECT + 1 + j);
            if b == 0 then Owns(g, v, {}, i, j + 1)
            else
              && InData(g, b) && Bit(g, v.d, b) && b in v.owner && v.owner[b] == Slot(i, NDIRECT + 1 + j)
              && Owns(g, Volume(Marked(g, v.d, b, false), v.t, v.owner - {b}), {}, i, j + 1)
  {
    hide Word, Bit, BitBlock, WithBit, At;
    assert SlotOwns(g, v, i, NDIRECT + 1 + j);
    var b := At(v.d, v.t[i], NDIRECT + 1 + j);
    if b != 0 {
      assert BitTells(g, v, {}, b);
      var w := Volume(Marked(g, v.d, b, false), v.t, v.owner - {b});
      forall m, l | 0 <= m < |v.t| && 0 <= l < NSLOTS
        ensures At(w.d, w.t[m], l) == At(v.d, v.t[m], l)
        ensures !Dead(i, j + 1, m, l) && At(v.d, v.t[m], l) != 0 ==> At(v.d, v.t[m], l) != b
      {
        MarkedAt(g, v, i, j, b, m, l);
        assert !Dead(i, j, m, l) ==> SlotOwns(g, v, m, l);
      }
      forall c | c in w.owner
        ensures At(w.d, w.t[v.owner[c].inum], v.owner[c].k) == c && !Dead(i, j + 1, v.owner[c].inum, v.owner[c].k)
      {
        assert OwnerNames(g, v, c);
      }
      FreedOwns(g, v, i, j, w, j + 1, b);
    } else {
      forall c | c in v.owner ensures !Dead(i, j + 1, v.owner[c].inum, v.owner[c].k) {
        assert OwnerNames(g, v, c);
      }
    }
  }

  /** itrunc() frees the indirect block after all its entries. */
  lemma FreeIndirect(g: Geometry, v: Volume, i: nat)
    requires Owns(g, v, {}, i, NINDIRECT) && i < |v.t| && v.t[i].addrs[NDIRECT] != 0
    ensures var b := v.t[i].addrs[NDIRECT];
            && InData(g, b) && Bit(g, v.d, b) && b in v.owner && v.owner[b] == Slot(i, NDIRECT)
            && var w := Volume(Marked(g, v.d, b, false), WithAddr(v.t, i, NDIRECT, 0), v.owner - {b});
               && Consistent(g, w)
               && forall j, l :: 0 <= j < |v.t| && 0 <= l < NSLOTS ==>
                    At(w.d, w.t[j], l) == if j == i && l >= NDIRECT then 0 else At(v.d, v.t[j], l)
  {
    hide Word, Bit, BitBlock, WithBit;
    assert SlotOwns(g, v, i, NDIRECT);
    var b := v.t[i].addrs[NDIRECT];
    assert BitTells(g, v, {}, b);
    var w := Volume(Marked(g, v.d, b, false), WithAddr(v.t, i, NDIRECT, 0), v.owner - {b});
    forall j, l | 0 <= j < |v.t| && 0 <= l < NSLOTS
      ensures At(w.d, w.t[j], l) == if j == i && l >= NDIRECT then 0 else At(v.d, v.t[j], l)
      ensures !(j == i && l >= NDIRECT) && At(v.d, v.t[j], l) != 0 ==> At(v.d, v.t[j], l) != b
    {
      MarkedAt(g, v, i, NINDIRECT, b, j, l);
      assert !Dead(i, NINDIRECT, j, l) ==> SlotOwns(g, v, j, l);
    }
    forall c | c in w.owner
      ensures At(w.d, w.t[v.owner[c].inum], v.owner[c].k) == c
    {
      assert OwnerNames(g, v, c);
      assert !Dead(i, NINDIRECT, v.owner[c].inum, v.owner[c].k);
    }
    FreedOwns(g, v, i, NINDIRECT, w, 0, b);
    DeadNone(g, w, i);
  }

  lemma DeadNone(g: Geometry, v: Volume, i: nat)
    requires Owns(g, v, {}, i, 0)
    ensures Consistent(g, v)
  {}
}
