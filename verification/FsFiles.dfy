/** balloc, bfree, bmap, itrunc, readi and writei of kernel/fs.c, and the chunk loop of
    filewrite in kernel/file.c, as they change the volume.

    `disk` is the block contents that a reader sees through the buffer cache and the log;
    log_write is recorded in the ghost set `logged`.  An inode locked by the caller is an
    object of its own, and iupdate copies it back to the inode table. */
module FsFiles {
  import opened Basics
  import opened Params
  import opened FsBytes
  import opened FsVolume
  import opened FsContent

  const IPB: nat := BSIZE / 64 // sizeof(struct dinode) is 64
  const UINT: nat := 0x1_0000_0000

  class Inode {
    const inum: nat
    var size: nat
    var addrs: seq<nat>

    constructor (inum: nat, di: Dinode)
      ensures this.inum == inum && size == di.size && addrs == di.addrs
    {
      this.inum := inum;
      size, addrs := di.size, di.addrs;
    }
  }

  class FileSystem {
    const g: Geometry
    var disk: seq<Block>
    var dinodes: seq<Dinode>
    ghost var owner: map<nat, Slot>
    ghost var logged: set<nat>

    /** A volume without holes, mounted. */
    constructor (geo: Geometry, blocks: seq<Block>, table: seq<Dinode>, ghost own: map<nat, Slot>)
      requires VolumeOk(geo, Volume(blocks, table, own))
      ensures g == geo && disk == blocks && dinodes == table && owner == own && logged == {}
    {
      g, disk, dinodes, owner, logged := geo, blocks, table, own, {};
    }

    /** The volume with the locked inode's fields in place of its table entry. */
    ghost function Vol(ip: Inode): Volume
      reads this`disk, this`dinodes, this`owner, ip`size, ip`addrs
      requires ip.inum < |dinodes|
    {
      Volume(disk, dinodes[ip.inum := Dinode(ip.size, ip.addrs)], owner)
    }

    ghost predicate Holds(ip: Inode)
      reads this`disk, this`dinodes, this`owner, ip`size, ip`addrs
    {
      ip.inum < |dinodes| && |ip.addrs| == NDIRECT + 1 && Consistent(g, Vol(ip))
    }

    // ------------------------------------------------------------- the bitmap

    /** Marks block `b + bi` as used, where `b` is the first block of its bitmap block, and zeroes it. */
    method Take(b: nat, bi: nat)
      requires b % BPB == 0 && bi < BPB && b + bi < |disk| && BitBlock(g, b) < |disk|
      modifies this`disk, this`logged
      ensures BitBlock(g, b + bi) < |disk| == |old(disk)|
      ensures disk == Allocated(g, old(disk), b + bi) && logged == old(logged) + {b + bi, BitBlock(g, b + bi)}
      ensures Noted(old(disk), disk, old(logged), logged)
    {
      hide Allocated, Noted, WithBit;
      NotedNone(disk, logged);
      BitPlace(g, b, bi);
      AllocatedIs(g, disk, b + bi);
      NotedOne(disk, disk, logged, logged, BitBlock(g, b), WithBit(disk[BitBlock(g, b)], bi, true));
      disk := disk[BitBlock(g, b) := WithBit(disk[BitBlock(g, b)], bi, true)];
      logged := logged + {BitBlock(g, b)};
      NotedOne(old(disk), disk, old(logged), logged, b + bi, ZeroBlock());
      disk := disk[b + bi := ZeroBlock()];
      logged := logged + {b + bi};
    }

    /** balloc(): the first free block, or 0. */
    method Balloc() returns (r: nat)
      requires GeoOk(g) && |disk| == g.size && Bit(g, disk, 0)
      modifies this`disk, this`logged
      ensures |disk| == |old(disk)|
      ensures r == 0 ==> unchanged(this) && forall b :: 0 <= b < g.size ==> Bit(g, disk, b)
      ensures r != 0 ==> r < g.size && !Bit(g, old(disk), r) && BitBlock(g, r) < g.datastart
      ensures r != 0 ==> disk == Allocated(g, old(disk), r) && logged == old(logged) + {r, BitBlock(g, r)}
      ensures r != 0 ==> forall c :: 0 <= c < r ==> Bit(g, old(disk), c)
      ensures Noted(old(disk), disk, old(logged), logged)
    {
      hide Bit, Allocated, Noted;
      NotedNone(disk, logged);
      var b := 0;
      while b < g.size
        invariant b % BPB == 0 && disk == old(disk) && logged == old(logged)
        invariant forall c :: 0 <= c < b && c < g.size ==> Bit(g, disk, c)
      {
        var bi := 0;
        BitPlace(g, b, 0);
        while bi < BPB && b + bi < g.size
          invariant bi <= BPB && disk == old(disk) && logged == old(logged)
          invariant forall c :: 0 <= c < b + bi && c < g.size ==> Bit(g, disk, c)
        {
          BitPlace(g, b, bi);
          assert BitBlock(g, b + bi) < g.datastart;
          BitHere(g, disk, b + bi);
          if !BitIn(disk[BitBlock(g, b)], bi) {
            Take(b, bi);
            return b + bi;
          }
          bi := bi + 1;
        }
        b := b + BPB;
      }
      return 0;
    }

    method Bfree(b: nat)
      requires GeoOk(g) && |disk| == g.size && b < g.size
      requires Bit(g, disk, b) // "freeing free block" otherwise
      modifies this`disk, this`logged
      ensures BitBlock(g, b) < g.datastart && |disk| == |old(disk)|
      ensures disk == Marked(g, old(disk), b, false) && logged == old(logged) + {BitBlock(g, b)}
      ensures Noted(old(disk), disk, old(logged), logged)
    {
      assert BitBlock(g, b) < g.datastart;
      var bi := b % BPB;
      disk := disk[BitBlock(g, b) := WithBit(disk[BitBlock(g, b)], bi, false)];
      logged := logged + {BitBlock(g, b)};
    }

    // ------------------------------------------------------------ block lookup

    /** Blocks that allocating `b` and recording it in an indirect block logs. */
    ghost function Costs(b: nat): set<nat> { if b == 0 then {} else {b, BitBlock(g, b)} }

    /** The volume has the old one's files, and this inode's slots other than `k` are as before. */
    ghost predicate Gained(v: Volume, ip: Inode, k: nat)
      reads this, ip
    {
      && Holds(ip) && Extends(g, v, Vol(ip)) && ip.inum < |v.t| && k < NSLOTS
      && forall l :: 0 <= l < NSLOTS && l != k ==> At(Vol(ip).d, Vol(ip).t[ip.inum], l) == At(v.d, v.t[ip.inum], l)
    }

    /** addr = balloc(); ip->addrs[k] = addr, unless the disk is full. */
    method FillAddr(ip: Inode, k: nat) returns (r: nat)
      requires Holds(ip) && k <= NDIRECT && ip.addrs[k] == 0
      modifies this`disk, this`logged, this`owner, ip`addrs
      ensures Gained(old(Vol(ip)), ip, k) && |ip.addrs| == NDIRECT + 1 && r == ip.addrs[k]
      ensures ip.addrs == old(ip.addrs)[k := r] && dinodes == old(dinodes)
      ensures r == 0 ==> unchanged(this) && unchanged(ip) && forall b :: 0 <= b < g.size ==> Bit(g, disk, b)
      ensures logged == old(logged) + Costs(r)
      ensures Noted(old(disk), disk, old(logged), logged)
    {
      hide Bit, At, Allocated, SlotOwns, OwnerNames, BitTells, Extends, Noted;
      ghost var v := Vol(ip);
      ShapeOf(g, v, ip.inum);
      r := Balloc();
      if r != 0 {
        GiveAddr(g, v, ip.inum, k, r);
        ip.addrs := ip.addrs[k := r];
        owner := owner[r := Slot(ip.inum, k)];
        assert Vol(ip) == GivenAddr(g, v, ip.inum, k, r);
      } else {
        ExtendsSelf(g, v);
      }
    }

    /** addr = balloc(); a[j] = addr in the indirect block, unless the disk is full. */
    method FillEntry(ip: Inode, ind: nat, j: nat) returns (r: nat)
      requires Holds(ip) && j < NINDIRECT && ip.addrs[NDIRECT] == ind != 0
      requires At(disk, Dinode(ip.size, ip.addrs), NDIRECT + 1 + j) == 0
      modifies this`disk, this`logged, this`owner
      ensures Gained(old(Vol(ip)), ip, NDIRECT + 1 + j) && |ip.addrs| == NDIRECT + 1
      ensures r == At(disk, Dinode(ip.size, ip.addrs), NDIRECT + 1 + j)
      ensures r == 0 ==> unchanged(this) && forall b :: 0 <= b < g.size ==> Bit(g, disk, b)
      ensures logged == old(logged) + Costs(r) + if r == 0 then {} else {ind}
      ensures Noted(old(disk), disk, old(logged), logged)
    {
      hide Bit, At, Allocated, SlotOwns, OwnerNames, BitTells, Extends, WithWord, Noted;
      ghost var v := Vol(ip);
      ShapeOf(g, v, ip.inum);
      r := Balloc();
      if r != 0 {
        GiveEntry(g, v, ip.inum, j, r);
        NotedOne(old(disk), disk, old(logged), logged, ind, WithWord(disk[ind], j, r));
        disk := disk[ind := WithWord(disk[ind], j, r)];
        logged := logged + {ind};
        owner := owner[r := Slot(ip.inum, NDIRECT + 1 + j)];
        assert Vol(ip) == GivenEntry(g, v, ip.inum, j, r);
      } else {
        ExtendsSelf(g, v);
      }
    }

    /** bmap(): the disk block of file block `bn`, allocated if it was missing; 0 if the disk is full. */
    method Bmap(ip: Inode, bn: nat) returns (r: nat)
      requires Holds(ip) && bn < MAXFILE
      modifies this`disk, this`logged, this`owner, ip`addrs
      ensures Holds(ip) && Extends(g, old(Vol(ip)), Vol(ip))
      ensures r == FileBlock(disk, Dinode(ip.size, ip.addrs), bn)
      ensures old(FileBlock(disk, Dinode(ip.size, ip.addrs), bn)) != 0 ==> unchanged(this) && unchanged(ip)
      ensures r == 0 ==> forall b :: 0 <= b < g.size ==> Bit(g, disk, b)
      ensures logged <= old(logged) + Costs(r) + Costs(ip.addrs[NDIRECT])
      ensures old(ip.addrs[NDIRECT]) != 0 ==> ip.addrs[NDIRECT] == old(ip.addrs[NDIRECT])
      ensures Noted(old(disk), disk, old(logged), logged)
    {
      hide Bit, At, SlotOwns, OwnerNames, BitTells, Extends, Consistent, Word, Noted;
      ghost var v := Vol(ip);
      NotedNone(disk, logged);
      ExtendsSame(g, v);
      if bn < NDIRECT {
        AddrAt(disk, Dinode(ip.size, ip.addrs), bn);
        r := ip.addrs[bn];
        if r == 0 {
          r := FillAddr(ip, bn);
          AddrAt(disk, Dinode(ip.size, ip.addrs), bn);
        }
        return;
      }
      var j := bn - NDIRECT;
      var ind := ip.addrs[NDIRECT];
      if ind == 0 {
        NoTable(disk, Dinode(ip.size, ip.addrs), j);
        ind := FillAddr(ip, NDIRECT);
        if ind == 0 {
          return 0;
        }
      }
      ghost var u, logged1 := Vol(ip), logged;
      TableAt(g, u, ip.inum, j);
      r := Word(disk[ind], j);
      if r == 0 {
        r := FillEntry(ip, ind, j);
        NotedTrans(v.d, u.d, disk, old(logged), logged1, logged);
        ExtendsTrans(g, v, u, Vol(ip));
      }
    }

    // -------------------------------------------------------------- file bytes

    /** The caller holds the inode of a consistent volume without holes. */
    ghost predicate Locked(ip: Inode)
      reads this`disk, this`dinodes, this`owner, ip`size, ip`addrs
    {
      ip.inum < |dinodes| && |ip.addrs| == NDIRECT + 1 && VolumeOk(g, Vol(ip))
    }

    /** iupdate(): copy the inode back to the table. */
    method Iupdate(ip: Inode)
      requires ip.inum < |dinodes|
      modifies this`dinodes, this`logged
      ensures dinodes == old(dinodes)[ip.inum := Dinode(ip.size, ip.addrs)]
      ensures logged == old(logged) + {InodeBlock(g, ip.inum)}
    {
      dinodes := dinodes[ip.inum := Dinode(ip.size, ip.addrs)];
      logged := logged + {InodeBlock(g, ip.inum)};
    }

    /** The blocks writei() has logged so far are covered by the account. */
    ghost predicate Covers(a: Account, before: set<nat>, ip: Inode)
      reads this, ip
      requires |ip.addrs| == NDIRECT + 1
    {
      && logged <= before + a.data + a.bits + Costs(ip.addrs[NDIRECT])
      && (g.size <= BPB ==> a.bits <= {g.bmapstart})
    }

    lemma CoversNone(ip: Inode)
      requires |ip.addrs| == NDIRECT + 1
      ensures Covers(Account({}, {}), logged, ip)
    {}

    /** bmap() for a block about to be written, charged to the account. */
    method MapCharged(ip: Inode, bn: nat, ghost a: Account, ghost before: set<nat>)
        returns (addr: nat, ghost a': Account)
      requires Holds(ip) && bn < MAXFILE && Covers(a, before, ip)
      modifies this`disk, this`logged, this`owner, ip`addrs
      ensures Holds(ip) && Extends(g, old(Vol(ip)), Vol(ip)) && addr == FileBlock(disk, Dinode(ip.size, ip.addrs), bn)
      ensures addr == 0 ==> forall b :: 0 <= b < g.size ==> Bit(g, disk, b)
      ensures addr != 0 ==> addr in a'.data
      ensures Covers(a', before, ip) && |a'.data| <= |a.data| + 1 && |a'.bits| <= |a.bits| + 1
      ensures old(FileBlock(disk, Dinode(ip.size, ip.addrs), bn)) != 0 ==> a'.bits == a.bits
      ensures Noted(old(disk), disk, old(logged), logged)
    {
      hide Bit, At, Extends, Consistent, FileBlock, BitBlock, Noted;
      addr := Bmap(ip, bn);
      a' := Charged(a, addr, old(FileBlock(disk, Dinode(ip.size, ip.addrs), bn)), g);
      if addr != 0 { MappedInData(g, Vol(ip), ip.inum, bn); }
    }

    /** One turn of writei()'s loop; m == 0 means the loop stops here. */
    method WriteStep(ip: Inode, off: nat, data: seq<Byte>, tot: nat, supply: nat,
                     ghost v: Volume, ghost a: Account, ghost before: set<nat>) returns (m: nat, ghost a': Account)
      requires Holds(ip) && Written(g, v, Vol(ip), ip.inum, off, data, tot)
      requires tot < |data| && off + |data| <= MAXFILE * BSIZE && Covers(a, before, ip)
      modifies this`disk, this`logged, this`owner, ip`addrs
      ensures Holds(ip) && tot + m <= |data| && Written(g, v, Vol(ip), ip.inum, off, data, tot + m)
      ensures m != 0 ==> m == Min(|data| - tot, Rest(off + tot))
      ensures m == 0 ==> supply < |data| || forall b :: 0 <= b < g.size ==> Bit(g, disk, b)
      ensures Covers(a', before, ip) && |a'.data| <= |a.data| + 1 && |a'.bits| <= |a.bits| + 1
      ensures old(FileBlock(disk, Dinode(ip.size, ip.addrs), BlockNo(off + tot))) != 0 ==> a'.bits == a.bits
      ensures Noted(old(disk), disk, old(logged), logged)
    {
      hide Bit, At, Extends, Consistent, Written, FileBlock, Patched, Noted;
      ghost var w := Vol(ip);
      var addr;
      addr, a' := MapCharged(ip, (off + tot) / BSIZE, a, before);
      WrittenExtends(g, v, w, Vol(ip), ip.inum, off, data, tot);
      if addr == 0 {
        return 0, a';
      }
      MappedInData(g, Vol(ip), ip.inum, (off + tot) / BSIZE);
      m := Min(|data| - tot, BSIZE - (off + tot) % BSIZE);
      if tot + m > supply {
        return 0, a';
      }
      WrittenMore(g, v, Vol(ip), ip.inum, off, data, tot, m);
      NotedOne(old(disk), disk, old(logged), logged, addr,
          Patched(disk[addr], (off + tot) % BSIZE, data[tot..tot + m]));
      disk := disk[addr := Patched(disk[addr], (off + tot) % BSIZE, data[tot..tot + m])];
      logged := logged + {addr};
      WrittenConsistent(g, v, Vol(ip), ip.inum, off, data, tot + m);
    }

    /** writei() after its loop: set the size and write the inode back. */
    method FinishWrite(ip: Inode, off: nat, tot: nat, ghost v: Volume, ghost data: seq<Byte>)
      requires Holds(ip) && VolumeOk(g, v) && ip.inum < |v.t| && off <= v.t[ip.inum].size == ip.size
      requires Written(g, v, Vol(ip), ip.inum, off, data, tot) && tot <= |data|
      modifies this`dinodes, this`logged, ip`size
      ensures Locked(ip) && Changed(v, Vol(ip), ip.inum, off, data[..tot])
      ensures dinodes == old(dinodes)[ip.inum := Dinode(ip.size, ip.addrs)]
      ensures logged == old(logged) + {InodeBlock(g, ip.inum)}
    {
      hide Bit, At, Written, Whole, Content, SameFile, Consistent, Changed, Spliced;
      ghost var w := Vol(ip);
      WriteDone(g, v, w, ip.inum, off, data, tot);
      if off + tot > ip.size {
        ip.size := off + tot;
      }
      Iupdate(ip);
      assert Vol(ip) == w.(t := Resized(w.t, ip.inum, ip.size));
      AsChanged(g, v, Vol(ip), ip.inum, off, data[..tot]);
    }

    /** writei()'s loop.  `supply` is how many bytes of `data` can be copied in. */
    method WriteLoop(ip: Inode, off: nat, data: seq<Byte>, supply: nat)
        returns (tot: nat, ghost a: Account, ghost turns: nat)
      requires Locked(ip) && off <= ip.size && off + |data| <= MAXFILE * BSIZE
      modifies this`disk, this`logged, this`owner, ip`addrs
      ensures Holds(ip) && tot <= |data| && Written(g, old(Vol(ip)), Vol(ip), ip.inum, off, data, tot)
      ensures tot < |data| ==> supply < |data| || forall b :: 0 <= b < g.size ==> Bit(g, disk, b)
      ensures Covers(a, old(logged), ip) && Charges(a, off, turns) && Reached(off, turns, |data|)
      ensures Noted(old(disk), disk, old(logged), logged)
    {
      hide Bit, At, Extends, Consistent, Written, FileBlock, Whole, VolumeOk, Paced, Reached, Min, Unaligned, BlockNo,
          Rest;
      hide Charges, Noted, Covers, Costs, Content;
      ghost var v, before := Vol(ip), logged;
      NotedNone(disk, logged);
      a, turns := Account({}, {}), 0;
      ChargesNone(off);
      CoversNone(ip);
      OkConsistent(g, v, ip.inum);
      WrittenNone(g, v, ip.inum, off, data);
      NoTurns(off, |data|);
      tot := 0;
      while tot < |data|
        invariant Holds(ip) && tot <= |data| && Written(g, v, Vol(ip), ip.inum, off, data, tot)
        invariant Covers(a, before, ip) && Charges(a, off, turns)
        invariant Paced(off, tot, turns, |data|) && Reached(off, turns, |data|)
        invariant turns == 0 ==> tot == 0 && Vol(ip) == v
        invariant Noted(v.d, disk, before, logged)
      {
        FirstBlock(g, v, ip.inum, off);
        NextTurn(off, tot, turns, |data|);
        var m;
        ghost var a1, d1, logged1 := a, disk, logged;
        m, a := WriteStep(ip, off, data, tot, supply, v, a, before);
        NotedTrans(v.d, d1, disk, before, logged1, logged);
        ChargesNext(a1, a, off, turns);
        turns := turns + 1;
        if m == 0 {
          break;
        }
        tot := tot + m;
      }
    }

    /** writei() once its arguments are in range. */
    method WriteAll(ip: Inode, off: nat, data: seq<Byte>, supply: nat) returns (tot: nat)
      requires Locked(ip) && off <= ip.size && off + |data| <= MAXFILE * BSIZE
      modifies this, ip
      ensures Locked(ip) && tot <= |data| && dinodes == old(dinodes)[ip.inum := Dinode(ip.size, ip.addrs)]
      ensures Changed(old(Vol(ip)), Vol(ip), ip.inum, off, data[..tot])
      ensures tot < |data| ==> supply < |data| || forall b :: 0 <= b < g.size ==> Bit(g, disk, b)
      ensures |data| <= 3 * BSIZE ==> |logged - old(logged)| <= MAXOPBLOCKS
      ensures |data| <= 3 * BSIZE && g.size <= BPB ==> |logged - old(logged)| <= 7
      ensures Noted(old(disk), disk, old(logged), logged)
      ensures InodeBlock(g, ip.inum) in logged
    {
      hide Bit, At, Consistent, Written, Changed, VolumeOk, Reached, Unaligned, Noted;
      ghost var v := Vol(ip);
      ghost var a, turns;
      tot, a, turns := WriteLoop(ip, off, data, supply);
      IndirectInData(g, Vol(ip), ip.inum);
      NotedMore(old(disk), disk, old(logged), logged, InodeBlock(g, ip.inum));
      FinishWrite(ip, off, tot, v, data);
      AccountBound(a, Costs(ip.addrs[NDIRECT]), InodeBlock(g, ip.inum), old(logged), logged, g,
          ip.addrs[NDIRECT]);
      TurnBound(off, |data|, turns);
    }

    /** writei() */
    method Writei(ip: Inode, off: nat, data: seq<Byte>, supply: nat) returns (r: int)
      requires Locked(ip) && off < UINT && |data| < UINT
      modifies this, ip
      ensures Locked(ip)
      ensures r == -1 <==> off > old(ip.size) || off + |data| > MAXFILE * BSIZE
      ensures r == -1 ==> unchanged(this) && unchanged(ip)
      ensures r != -1 ==> 0 <= r <= |data| && dinodes == old(dinodes)[ip.inum := Dinode(ip.size, ip.addrs)]
      ensures r != -1 ==> Changed(old(Vol(ip)), Vol(ip), ip.inum, off, data[..r])
      ensures 0 <= r < |data| ==> supply < |data| || forall b :: 0 <= b < g.size ==> Bit(g, disk, b)
      ensures |data| <= 3 * BSIZE ==> |logged - old(logged)| <= MAXOPBLOCKS
      ensures |data| <= 3 * BSIZE && g.size <= BPB ==> |logged - old(logged)| <= 7
      ensures Noted(old(disk), disk, old(logged), logged)
      ensures r != -1 ==> InodeBlock(g, ip.inum) in logged
    {
      hide VolumeOk, Changed, Bit, Noted;
      NotedNone(disk, logged);
      if off > ip.size || (off + |data|) % UINT < off {
        SizeBound(g, Vol(ip), ip.inum);
        assert logged - old(logged) == {};
        return -1;
      }
      if (off + |data|) % UINT > MAXFILE * BSIZE {
        assert logged - old(logged) == {};
        return -1;
      }
      r := WriteAll(ip, off, data, supply);
    }

    /** One turn of readi()'s loop: the bytes of one block. */
    method ReadPiece(ip: Inode, o: nat, k: nat) returns (piece: seq<Byte>)
      requires Locked(ip) && 0 < k && o + k <= ip.size && o % BSIZE + k <= BSIZE
      modifies this, ip
      ensures unchanged(this) && unchanged(ip) && Readable(Vol(ip), ip.inum) && ip.size == |Content(Vol(ip), ip.inum)|
      ensures piece == Content(Vol(ip), ip.inum)[o..o + k]
    {
      hide Bit, At, Consistent, FileBlock, Whole, VolumeOk, Content, Extends;
      OkConsistent(g, Vol(ip), ip.inum);
      InsideFile(g, Vol(ip), ip.inum, o);
      PieceOf(g, Vol(ip), ip.inum, o, k);
      var addr := Bmap(ip, o / BSIZE);
      piece := disk[addr][o % BSIZE..o % BSIZE + k];
    }

    /** readi(): copies the clipped slice of the file, allocating and changing nothing.
        `room` is how many bytes the destination takes. */
    method Readi(ip: Inode, off: nat, n: nat, room: nat) returns (r: int, out: seq<Byte>)
      requires Locked(ip) && off < UINT && n < UINT
      modifies this, ip
      ensures unchanged(this) && unchanged(ip)
      ensures Readable(Vol(ip), ip.inum)
      ensures r != -1 ==> r == |out| && out == Clipped(Content(Vol(ip), ip.inum), off, n)
      ensures r == -1 <==> room < |Clipped(Content(Vol(ip), ip.inum), off, n)|
    {
      hide Bit, At, Consistent, FileBlock, Whole, VolumeOk, Content, Extends, Min;
      ghost var v := Vol(ip);
      OkConsistent(g, v, ip.inum);
      ClippedIs(Content(v, ip.inum), off, n);
      ghost var c := Content(v, ip.inum);
      if off > ip.size || (off + n) % UINT < off {
        return 0, [];
      }
      var m := if off + n > ip.size then ip.size - off else n;
      out := [];
      while |out| < m
        invariant unchanged(this) && unchanged(ip) && Vol(ip) == v
        invariant |out| <= m && |out| <= room && out == c[off..off + |out|]
      {
        var k := Min(m - |out|, BSIZE - (off + |out|) % BSIZE);
        MinOf(m - |out|, BSIZE - (off + |out|) % BSIZE);
        var piece := ReadPiece(ip, off + |out|, k);
        if |out| + k > room {
          return -1, [];
        }
        SliceJoin(c, off, off + |out|, off + |out| + k);
        out := out + piece;
      }
      r := |out|;
    }

    // --------------------------------------------------------------- truncation

    /** Everything about the other files is as in `v`. */
    ghost predicate OthersKept(v: Volume, ip: Inode)
      reads this, ip
    {
      ip.inum < |dinodes| && KeptBut(g, v, Vol(ip), ip.inum)
    }

    /** itrunc()'s first loop: free the direct blocks. */
    method FreeDirect(ip: Inode)
      requires Holds(ip)
      modifies this`disk, this`logged, this`owner, ip`addrs
      ensures Holds(ip) && OthersKept(old(Vol(ip)), ip)
      ensures ip.addrs[NDIRECT] == old(ip.addrs[NDIRECT]) && forall k :: 0 <= k < NDIRECT ==> ip.addrs[k] == 0
      ensures Noted(old(disk), disk, old(logged), logged)
    {
      hide Bit, At, Consistent, KeptBut, Marked, Owns, WithBit, Noted;
      ghost var v := Vol(ip);
      NotedNone(disk, logged);
      KeptSelf(g, v, ip.inum);
      var i := 0;
      while i < NDIRECT
        invariant i <= NDIRECT && Holds(ip) && OthersKept(v, ip) && Noted(v.d, disk, old(logged), logged)
        invariant ip.addrs[NDIRECT] == old(ip.addrs[NDIRECT]) && forall k :: 0 <= k < i ==> ip.addrs[k] == 0
      {
        if ip.addrs[i] != 0 {
          ghost var w := Vol(ip);
          ShapeOf(g, w, ip.inum);
          FreeAddrKept(g, v, w, ip.inum, i);
          ghost var b, logged1 := ip.addrs[i], logged;
          Bfree(ip.addrs[i]);
          NotedTrans(v.d, w.d, disk, old(logged), logged1, logged);
          ip.addrs := ip.addrs[i := 0];
          owner := owner - {b};
          assert Vol(ip) == Volume(Marked(g, w.d, b, false), WithAddr(w.t, ip.inum, i, 0), w.owner - {b});
        }
        i := i + 1;
      }
    }

    /** itrunc()'s second part: free the blocks in the indirect table, then the table. */
    method FreeTable(ip: Inode)
      requires Holds(ip) && ip.addrs[NDIRECT] != 0
      modifies this`disk, this`logged, this`owner, ip`addrs
      ensures Holds(ip) && OthersKept(old(Vol(ip)), ip)
      ensures ip.addrs == old(ip.addrs)[NDIRECT := 0]
      ensures Noted(old(disk), disk, old(logged), logged)
    {
      hide Bit, At, Consistent, KeptBut, Marked, Owns, WithBit, Word, Noted;
      ghost var v := Vol(ip);
      NotedNone(disk, logged);
      KeptSelf(g, v, ip.inum);
      ShapeOf(g, v, ip.inum);
      DeadStart(g, v, ip.inum);
      TableAt(g, v, ip.inum, 0);
      var ind := ip.addrs[NDIRECT];
      var a := disk[ind];
      var j := 0;
      while j < NINDIRECT
        invariant j <= NINDIRECT && |ip.addrs| == NDIRECT + 1 && unchanged(ip) && |disk| == g.size
        invariant ip.inum < |dinodes| && Owns(g, Vol(ip), {}, ip.inum, j) && OthersKept(v, ip)
        invariant disk[ind] == a && ind < g.size && Noted(v.d, disk, old(logged), logged)
      {
        ghost var w := Vol(ip);
        TableEntry(g, w, ip.inum, j, j);
        FreeEntryKept(g, v, w, ip.inum, j);
        if Word(a, j) != 0 {
          ghost var logged1 := logged;
          Bfree(Word(a, j));
          NotedTrans(v.d, w.d, disk, old(logged), logged1, logged);
          owner := owner - {Word(a, j)};
          assert Vol(ip) == Volume(Marked(g, w.d, Word(a, j), false), w.t, w.owner - {Word(a, j)});
        }
        j := j + 1;
      }
      ghost var w := Vol(ip);
      FreeIndirectKept(g, v, w, ip.inum);
      ghost var logged2 := logged;
      Bfree(ind);
      NotedTrans(v.d, w.d, disk, old(logged), logged2, logged);
      ip.addrs := ip.addrs[NDIRECT := 0];
      owner := owner - {ind};
      assert Vol(ip) == Volume(Marked(g, w.d, ind, false), WithAddr(w.t, ip.inum, NDIRECT, 0), w.owner - {ind});
    }

    /** itrunc(): the file becomes empty and every block it owned is free. */
    method Itrunc(ip: Inode)
      requires Locked(ip)
      modifies this, ip
      ensures Locked(ip) && ip.size == 0 && forall k :: 0 <= k <= NDIRECT ==> ip.addrs[k] == 0
      ensures dinodes == old(dinodes)[ip.inum := Dinode(0, ip.addrs)]
      ensures SameBut(old(Vol(ip)), Vol(ip), ip.inum)
      ensures forall b :: InData(g, b) && b in old(owner) && old(owner)[b].inum == ip.inum ==> !Bit(g, disk, b)
      ensures Noted(old(disk), disk, old(logged), logged)
      ensures InodeBlock(g, ip.inum) in logged
    {
      hide Bit, At, Consistent, KeptBut, Whole, Content, SameBut, Noted;
      ghost var v := Vol(ip);
      OkConsistent(g, v, ip.inum);
      FreeDirect(ip);
      ghost var u, logged1 := Vol(ip), logged;
      if ip.addrs[NDIRECT] != 0 {
        FreeTable(ip);
        NotedTrans(v.d, u.d, disk, old(logged), logged1, logged);
        KeptTrans(g, v, u, Vol(ip), ip.inum);
      }
      ghost var w := Vol(ip);
      NotedMore(v.d, disk, old(logged), logged, InodeBlock(g, ip.inum));
      ip.size := 0;
      Iupdate(ip);
      assert Vol(ip) == w.(t := Resized(w.t, ip.inum, 0));
      Emptied(g, v, w, ip.inum);
    }

    // ------------------------------------------------------------- filewrite()

    /** filewrite() on an inode file: chunks of at most three blocks, each its own transaction.
        `supply` is how many bytes of `data` can be copied in, `done` how many were written, and `txns` the
        transactions one after the other. */
    method Filewrite(f: OpenFile, data: seq<Byte>, supply: nat)
        returns (ret: int, ghost done: nat, ghost txns: seq<Txn>)
      requires Locked(f.ip) && f.off < UINT && |data| < 0x8000_0000
      modifies this, f, f.ip
      ensures Locked(f.ip) && done <= |data| && f.off == old(f.off) + done
      ensures ret == if done == |data| then |data| else -1
      ensures Progress(old(Vol(f.ip)), Vol(f.ip), f.ip.inum, old(f.off), data, done)
      ensures done < |data| ==> || supply < |data| || (forall b :: 0 <= b < g.size ==> Bit(g, disk, b))
                                || old(f.off) > old(f.ip.size) || old(f.off) + |data| > MAXFILE * BSIZE
      ensures Chain(g, old(disk), old(dinodes), txns, disk, dinodes) && AllFit(g, txns)
    {
      hide VolumeOk, Changed, Bit, Content, Progress, Noted, Chain, AllFit;
      var ip := f.ip;
      ghost var v := Vol(ip);
      ProgressNone(v, ip.inum, f.off, data);
      var max := ((MAXOPBLOCKS - 1 - 1 - 2) / 2) * BSIZE;
      var i := 0;
      done, txns := 0, [];
      NoTxns(g, disk, dinodes);
      while i < |data|
        invariant 0 <= i <= |data| && done == i && Locked(ip) && f.off == old(f.off) + i < UINT
        invariant Chain(g, old(disk), old(dinodes), txns, disk, dinodes) && AllFit(g, txns)
        invariant Progress(v, Vol(ip), ip.inum, old(f.off), data, i)
      {
        var n1 := if |data| - i > max then max else |data| - i;
        logged := {};
        ghost var w, t := Vol(ip), dinodes;
        var r := Writei(ip, f.off, data[i..i + n1], if supply > i then supply - i else 0);
        NoLess(logged);
        OneTxn(g, old(disk), old(dinodes), txns, Txn(w.d, t, disk, dinodes, logged), ip.inum);
        txns := txns + [Txn(w.d, t, disk, dinodes, logged)];
        if r > 0 {
          f.off := f.off + r;
        }
        if r != -1 {
          PieceFront(data, i, n1, r);
          ProgressMore(v, w, Vol(ip), ip.inum, old(f.off), data, i, r);
          done := i + r;
        }
        if r != n1 {
          ProgressSize(v, w, ip.inum, old(f.off), data, i);
          break;
        }
        i := i + r;
      }
      ret := if i == |data| then |data| else -1;
    }
  }

  // ------------------------------------------------------------ what is logged

  /** The block that holds inode `i`. */
  function InodeBlock(g: Geometry, i: nat): nat { i / IPB + g.inodestart }

  /** An inode takes 64 bytes of the inode area, which lie in its block. */
  lemma InodeInBlock(g: Geometry, i: nat)
    ensures var b, at := InodeBlock(g, i), g.inodestart * BSIZE + i * 64;
              b * BSIZE <= at && at + 64 <= (b + 1) * BSIZE
  {}

  /** Every block that changes from `d` to `d'` has been passed to log_write(). */
  ghost predicate Noted(d: seq<Block>, d': seq<Block>, was: set<nat>, now: set<nat>) {
    |d'| == |d| && was <= now && forall b :: 0 <= b < |d| && d'[b] != d[b] ==> b in now
  }

  lemma NotedNone(d: seq<Block>, logged: set<nat>)
    ensures Noted(d, d, logged, logged)
  {}

  lemma NotedTrans(d: seq<Block>, d1: seq<Block>, d2: seq<Block>, l: set<nat>, l1: set<nat>, l2: set<nat>)
    requires Noted(d, d1, l, l1) && Noted(d1, d2, l1, l2)
    ensures Noted(d, d2, l, l2)
  {}

  lemma NotedOne(d: seq<Block>, d1: seq<Block>, l: set<nat>, l1: set<nat>, b: nat, blk: Block)
    requires Noted(d, d1, l, l1) && b < |d1|
    ensures Noted(d, d1[b := blk], l, l1 + {b})
  {}

  lemma NotedMore(d: seq<Block>, d': seq<Block>, l: set<nat>, l': set<nat>, b: nat)
    requires Noted(d, d', l, l')
    ensures Noted(d, d', l, l' + {b})
  {}

  /** A transaction: data blocks and inode table before and after, and the blocks passed to log_write(). */
  datatype Txn = Txn(d: seq<Block>, t: seq<Dinode>, d': seq<Block>, t': seq<Dinode>, logged: set<nat>)

  /** The transaction logs every block it changes. */
  ghost predicate LogsAll(g: Geometry, x: Txn) {
    && Noted(x.d, x.d', {}, x.logged) && |x.t'| == |x.t|
    && forall i :: 0 <= i < |x.t| && x.t'[i] != x.t[i] ==> InodeBlock(g, i) in x.logged
  }

  /** The transactions lead from one state to the other, and each logs every block it changes. */
  ghost predicate Chain(g: Geometry, d: seq<Block>, t: seq<Dinode>, txns: seq<Txn>, d': seq<Block>, t': seq<Dinode>)
    decreases |txns|
  {
    if txns == [] then d' == d && t' == t else
      var x := txns[|txns| - 1];
      LogsAll(g, x) && x.d' == d' && x.t' == t' && Chain(g, d, t, txns[..|txns| - 1], x.d, x.t)
  }

  /** Each is within the bound of one operation, and well within it where one bitmap block covers the disk. */
  ghost predicate AllFit(g: Geometry, txns: seq<Txn>) {
    forall k :: 0 <= k < |txns| ==> |txns[k].logged| <= MAXOPBLOCKS && (g.size <= BPB ==> |txns[k].logged| <= 7)
  }

  lemma NoLess(s: set<nat>)
    ensures s - {} == s
  {}

  lemma PieceFront(data: seq<Byte>, i: nat, n: nat, r: nat)
    requires i + n <= |data| && r <= n
    ensures data[i..i + n][..r] == data[i..i + r]
  {}

  lemma NoTxns(g: Geometry, d: seq<Block>, t: seq<Dinode>)
    ensures Chain(g, d, t, [], d, t) && AllFit(g, [])
  {}

  lemma OneTxn(g: Geometry, d: seq<Block>, t: seq<Dinode>, txns: seq<Txn>, x: Txn, i: nat)
    requires Chain(g, d, t, txns, x.d, x.t) && AllFit(g, txns) && Noted(x.d, x.d', {}, x.logged)
    requires i < |x.t| == |x.t'|
    requires x.t' == x.t || (InodeBlock(g, i) in x.logged && x.t' == x.t[i := x.t'[i]])
    requires |x.logged| <= MAXOPBLOCKS && (g.size <= BPB ==> |x.logged| <= 7)
    ensures Chain(g, d, t, txns + [x], x.d', x.t') && AllFit(g, txns + [x])
  {
    assert (txns + [x])[..|txns|] == txns;
  }

  /** The first `done` bytes have been written, in however many pieces. */
  ghost predicate Progress(v: Volume, w: Volume, i: nat, off: nat, data: seq<Byte>, done: nat) {
    done <= |data| && ((done == 0 && v == w) || Changed(v, w, i, off, data[..done]))
  }

  class OpenFile {
    const ip: Inode
    var off: nat
    constructor (ip: Inode)
      ensures this.ip == ip && off == 0
    {
      this.ip := ip;
      off := 0;
    }
  }

  /** Files other than inode i's have the same contents. */
  ghost predicate SameBut(v: Volume, w: Volume, i: nat) {
    && |w.t| == |v.t|
    && (forall j :: 0 <= j < |v.t| ==> |v.t[j].addrs| == |w.t[j].addrs| == NDIRECT + 1)
    && forall j :: 0 <= j < |v.t| && j != i ==> SameFile(v, w, j)
  }

  ghost predicate Readable(v: Volume, i: nat) {
    i < |v.t| && |v.t[i].addrs| == NDIRECT + 1 && v.t[i].size <= MAXFILE * BSIZE
  }

  /** readi()'s slice: nothing past the end, nothing on 32-bit overflow of off + n. */
  function Clipped(c: seq<Byte>, off: nat, n: nat): seq<Byte> {
    if off > |c| || off + n >= UINT then [] else c[off..Min(off + n, |c|)]
  }

  /** writei()'s effect: `s` overwrites the file at `off`, the file grows if it must, nothing else changes. */
  ghost predicate Changed(v: Volume, w: Volume, i: nat, off: nat, s: seq<Byte>) {
    && i < |v.t| && |w.t| == |v.t|
    && (forall j :: 0 <= j < |v.t| ==> |v.t[j].addrs| == |w.t[j].addrs| == NDIRECT + 1)
    && Whole(v, i) && Whole(w, i) && off <= |Content(v, i)|
    && Content(w, i) == Spliced(Content(v, i), off, s)
    && forall j :: 0 <= j < |v.t| && j != i ==> SameFile(v, w, j)
  }

  /** An unaligned first block lies inside the file, so it needs no allocation. */
  function Skips(off: nat, turns: nat): nat { if Unaligned(off) && turns > 0 then 1 else 0 }

  predicate Unaligned(off: nat) { off % BSIZE != 0 }

  function BlockNo(o: nat): nat { o / BSIZE }

  /** How many bytes its block has from an offset on. */
  function Rest(o: nat): nat { BSIZE - o % BSIZE }

  /** Data blocks written and bitmap blocks touched by one writei(). */
  datatype Account = Account(data: set<nat>, bits: set<nat>)

  ghost function Charged(a: Account, addr: nat, was: nat, g: Geometry): Account {
    if addr == 0 then a
    else Account(a.data + {addr}, if was != 0 then a.bits else a.bits + {BitBlock(g, addr)})
  }

  lemma OkConsistent(g: Geometry, v: Volume, i: nat)
    requires VolumeOk(g, v) && i < |v.t|
    ensures Consistent(g, v) && |v.t[i].addrs| == NDIRECT + 1 && Whole(v, i) && v.t[i].size <= MAXFILE * BSIZE
  {}

  lemma SizeBound(g: Geometry, v: Volume, i: nat)
    requires VolumeOk(g, v) && i < |v.t|
    ensures v.t[i].size <= MAXFILE * BSIZE
  {
    assert Whole(v, i);
  }

  lemma FirstBlock(g: Geometry, v: Volume, i: nat, off: nat)
    requires VolumeOk(g, v) && i < |v.t| && off <= v.t[i].size && |v.t[i].addrs| == NDIRECT + 1
    ensures Unaligned(off) ==> BlockNo(off) < MAXFILE && FileBlock(v.d, v.t[i], BlockNo(off)) != 0
  {
    assert Whole(v, i);
    if off % BSIZE != 0 {
      assert off / BSIZE * BSIZE < off;
    }
  }

  /** Every turn but the last of writei()'s loop ends at a block boundary. */
  ghost predicate Paced(off: nat, tot: nat, turns: nat, n: nat) {
    && (tot < n && turns > 0 ==> off % BSIZE + tot == turns * BSIZE)
    && (turns == 0 ==> tot == 0)
  }

  ghost predicate Reached(off: nat, turns: nat, n: nat) {
    turns > 0 ==> (turns - 1) * BSIZE < off % BSIZE + n
  }

  /** Each turn charges one data block and one bitmap block, except that the first one finds its block if it is not
      at a block boundary. */
  ghost predicate Charges(a: Account, off: nat, turns: nat) { |a.data| <= turns &&
      |a.bits| <= turns - Skips(off, turns) }

  lemma ChargesNone(off: nat)
    ensures Charges(Account({}, {}), off, 0)
  {}

  lemma ChargesNext(a: Account, a': Account, off: nat, turns: nat)
    requires Charges(a, off, turns) && |a'.data| <= |a.data| + 1 && |a'.bits| <= |a.bits| + 1
    requires turns == 0 && Unaligned(off) ==> a'.bits == a.bits
    ensures Charges(a', off, turns + 1)
  {
    hide Unaligned;
  }

  lemma NoTurns(off: nat, n: nat)
    ensures Paced(off, 0, 0, n) && Reached(off, 0, n)
  {}

  lemma NextTurn(off: nat, tot: nat, turns: nat, n: nat)
    requires tot < n && Paced(off, tot, turns, n)
    ensures var m := Min(n - tot, Rest(off + tot));
            m > 0 && Paced(off, tot + m, turns + 1, n) && Reached(off, turns + 1, n)
  {
    assert turns > 0 ==> (off + tot) % BSIZE == 0;
  }

  lemma TurnBound(off: nat, n: nat, turns: nat)
    requires Reached(off, turns, n)
    ensures n <= 3 * BSIZE ==> turns <= 4 && turns - Skips(off, turns) <= 3
  {}

  lemma SubsetSize(a: set<nat>, b: set<nat>)
    requires a <= b
    ensures |a| <= |b|
  {
    if a != b {
      var x :| x in b && x !in a;
      SubsetSize(a, b - {x});
    }
  }

  lemma AccountBound(a: Account, ind: set<nat>, iblock: nat, before: set<nat>, logged: set<nat>, g: Geometry,
      indirect: nat)
    requires logged <= before + a.data + a.bits + ind + {iblock}
    requires ind == if indirect == 0 then {} else {indirect, BitBlock(g, indirect)}
    requires g.size <= BPB ==> a.bits <= {g.bmapstart}
    ensures |logged - before| <= |a.data| + |a.bits| + 3
    ensures g.size <= BPB && indirect < g.size ==> |logged - before| <= |a.data| + 3
  {
    SubsetSize(logged - before, a.data + a.bits + ind + {iblock});
    if g.size <= BPB && indirect < g.size {
      SubsetSize(logged - before, a.data + {g.bmapstart, indirect, iblock});
    }
  }

  lemma IndirectInData(g: Geometry, v: Volume, i: nat)
    requires Consistent(g, v) && i < |v.t| && |v.t[i].addrs| == NDIRECT + 1
    ensures v.t[i].addrs[NDIRECT] < g.size
  {
    assert SlotOwns(g, v, i, NDIRECT);
  }

  lemma AsChanged(g: Geometry, v: Volume, w: Volume, i: nat, off: nat, s: seq<Byte>)
    requires VolumeOk(g, v) && VolumeOk(g, w) && i < |v.t| == |w.t| && off <= v.t[i].size
    requires Whole(v, i) && Whole(w, i) && Content(w, i) == Spliced(Content(v, i), off, s)
    requires forall j :: 0 <= j < |v.t| && j != i ==> SameFile(v, w, j)
    ensures Changed(v, w, i, off, s)
  {}

  lemma SliceJoin(c: seq<Byte>, a: nat, b: nat, d: nat)
    requires a <= b <= d <= |c|
    ensures c[a..b] + c[b..d] == c[a..d]
  {}

  lemma MinOf(a: nat, b: nat)
    ensures Min(a, b) <= a && Min(a, b) <= b && (a > 0 && b > 0 ==> Min(a, b) > 0)
  {}

  lemma ClippedIs(c: seq<Byte>, off: nat, n: nat)
    requires |c| <= MAXFILE * BSIZE && off < UINT && n < UINT
    ensures off > |c| || (off + n) % UINT < off ==> Clipped(c, off, n) == []
    ensures off <= |c| && (off + n) % UINT >= off ==>
              Clipped(c, off, n) == c[off..off + if off + n > |c| then |c| - off else n]
  {}

  /** Slot `k` of inode `j` names the same block, and that block has the same bytes. */
  ghost predicate Frozen(v: Volume, w: Volume, j: nat, k: nat)
    requires j < |v.t| && |w.t| == |v.t| && |v.t[j].addrs| == |w.t[j].addrs| == NDIRECT + 1 && k < NSLOTS
  {
    var b := At(v.d, v.t[j], k);
    At(w.d, w.t[j], k) == b && (b != 0 && b < |v.d| ==> b < |w.d| && w.d[b] == v.d[b])
  }

  /** Every slot and block of every inode but `i` is kept. */
  ghost predicate KeptBut(g: Geometry, v: Volume, w: Volume, i: nat) {
    && Alike(g, v, w)
    && (forall j :: 0 <= j < |v.t| && j != i ==> w.t[j] == v.t[j])
    && (forall j, k :: 0 <= j < |v.t| && j != i && 0 <= k < NSLOTS ==> Frozen(v, w, j, k))
  }

  lemma KeptSelf(g: Geometry, v: Volume, i: nat)
    requires Consistent(g, v)
    ensures KeptBut(g, v, v, i)
  {}

  /** Clearing the bit of one of inode i's blocks keeps every other file. */
  lemma FreedKept(g: Geometry, v: Volume, w: Volume, i: nat, b: nat, t: seq<Dinode>, dead: nat)
    requires KeptBut(g, v, w, i) && Owns(g, w, {}, i, dead) && InData(g, b) && i < |w.t|
    requires |t| == |w.t| && (forall j :: 0 <= j < |t| ==> |t[j].addrs| == NDIRECT + 1) && forall j ::
               0 <= j < |t| && j != i ==> t[j] == w.t[j]
    ensures BitBlock(g, b) < |w.d| && KeptBut(g, v, Volume(Marked(g, w.d, b, false), t, w.owner - {b}), i)
  {
    hide At, Bit, WithBit;
    assert BitBlock(g, b) < g.datastart;
    var x := Volume(Marked(g, w.d, b, false), t, w.owner - {b});
    forall j, k | 0 <= j < |v.t| && j != i && 0 <= k < NSLOTS ensures Frozen(v, x, j, k) {
      assert Frozen(v, w, j, k);
      MarkedAt(g, w, i, dead, b, j, k);
      assert SlotOwns(g, w, j, k);
    }
  }

  lemma DeadStart(g: Geometry, v: Volume, i: nat)
    requires Consistent(g, v)
    ensures Owns(g, v, {}, i, 0)
  {}

  lemma FreeAddrKept(g: Geometry, v: Volume, w: Volume, i: nat, k: nat)
    requires Consistent(g, w) && KeptBut(g, v, w, i) && i < |w.t| && k < NDIRECT && |w.t[i].addrs| == NDIRECT + 1 &&
               w.t[i].addrs[k] != 0
    ensures var b := w.t[i].addrs[k];
            && b < g.size && BitBlock(g, b) < |w.d| && Bit(g, w.d, b)
            && var x := Volume(Marked(g, w.d, b, false), WithAddr(w.t, i, k, 0), w.owner - {b});
               Consistent(g, x) && KeptBut(g, v, x, i)
  {
    hide Bit, At, KeptBut, Marked;
    FreeAddr(g, w, i, k);
    DeadStart(g, w, i);
    FreedKept(g, v, w, i, w.t[i].addrs[k], WithAddr(w.t, i, k, 0), 0);
  }

  lemma FreeEntryKept(g: Geometry, v: Volume, w: Volume, i: nat, j: nat)
    requires Owns(g, w, {}, i, j) && KeptBut(g, v, w, i) && i < |w.t| && j < NINDIRECT && |w.t[i].addrs| == NDIRECT + 1
    ensures var b := At(w.d, w.t[i], NDIRECT + 1 + j);
            if b == 0 then Owns(g, w, {}, i, j + 1)
            else
              && b < g.size && BitBlock(g, b) < |w.d| && Bit(g, w.d, b)
              && var x := Volume(Marked(g, w.d, b, false), w.t, w.owner - {b});
                 Owns(g, x, {}, i, j + 1) && KeptBut(g, v, x, i)
  {
    FreeEntry(g, w, i, j);
    var b := At(w.d, w.t[i], NDIRECT + 1 + j);
    if b != 0 {
      FreedKept(g, v, w, i, b, w.t, j);
    }
  }

  lemma FreeIndirectKept(g: Geometry, v: Volume, w: Volume, i: nat)
    requires Owns(g, w, {}, i, NINDIRECT) && KeptBut(g, v, w, i) && i < |w.t| && |w.t[i].addrs| == NDIRECT + 1 &&
               w.t[i].addrs[NDIRECT] != 0
    ensures var b := w.t[i].addrs[NDIRECT];
            && b < g.size && BitBlock(g, b) < |w.d| && Bit(g, w.d, b)
            && var x := Volume(Marked(g, w.d, b, false), WithAddr(w.t, i, NDIRECT, 0), w.owner - {b});
               Consistent(g, x) && KeptBut(g, v, x, i)
  {
    FreeIndirect(g, w, i);
    FreedKept(g, v, w, i, w.t[i].addrs[NDIRECT], WithAddr(w.t, i, NDIRECT, 0), NINDIRECT);
  }

  lemma TableEntry(g: Geometry, v: Volume, i: nat, dead: nat, j: nat)
    requires Owns(g, v, {}, i, dead) && i < |v.t| && j < NINDIRECT && |v.t[i].addrs| == NDIRECT + 1 &&
               v.t[i].addrs[NDIRECT] != 0
    ensures GeoOk(g) && |v.d| == g.size && InData(g, v.t[i].addrs[NDIRECT])
    ensures At(v.d, v.t[i], NDIRECT + 1 + j) == Word(v.d[v.t[i].addrs[NDIRECT]], j)
    ensures var b := At(v.d, v.t[i], NDIRECT + 1 + j);
              b < g.size ==> Marked(g, v.d, b, false)[v.t[i].addrs[NDIRECT]] == v.d[v.t[i].addrs[NDIRECT]]
  {
    assert SlotOwns(g, v, i, NDIRECT);
  }

  lemma KeptTrans(g: Geometry, u: Volume, v: Volume, w: Volume, i: nat)
    requires KeptBut(g, u, v, i) && KeptBut(g, v, w, i)
    ensures KeptBut(g, u, w, i)
  {
    hide At;
    forall j, k | 0 <= j < |u.t| && j != i && 0 <= k < NSLOTS ensures Frozen(u, w, j, k) {
      assert Frozen(u, v, j, k) && Frozen(v, w, j, k);
    }
  }

  lemma Emptied(g: Geometry, v: Volume, w: Volume, i: nat)
    requires VolumeOk(g, v) && Consistent(g, w) && KeptBut(g, v, w, i) && i < |v.t| && |w.t[i].addrs| == NDIRECT + 1
    requires forall k :: 0 <= k <= NDIRECT ==> w.t[i].addrs[k] == 0
    ensures var x := w.(t := Resized(w.t, i, 0)); VolumeOk(g, x) && SameBut(v, x, i)
    ensures forall b :: InData(g, b) && b in v.owner && v.owner[b].inum == i ==> !Bit(g, w.d, b)
  {
    NoSlots(w.d, w.t[i]);
    hide At, Bit, Whole, Content;
    var x := w.(t := Resized(w.t, i, 0));
    ResizedOwns(g, w, i, 0);
    forall j | 0 <= j < |v.t| && j != i ensures SameFile(v, x, j) {
      assert Whole(v, j);
      forall n | 0 <= n < MAXFILE ensures Keeps(v, x, j, n) {
        assert Frozen(v, w, j, FileSlot(n));
      }
      KeptContent(g, v, x, j);
    }
    forall j | 0 <= j < |x.t| ensures Whole(x, j) {
      if j == i { EmptyWhole(x, i); } else { assert SameFile(v, x, j); }
    }
    forall b | b in w.owner ensures b in v.owner && v.owner[b].inum != i {
      assert OwnerNames(g, w, b);
      assert Frozen(v, w, w.owner[b].inum, w.owner[b].k);
      assert SlotOwns(g, v, w.owner[b].inum, w.owner[b].k);
    }
    forall b | InData(g, b) && b in v.owner && v.owner[b].inum == i ensures !Bit(g, w.d, b) {
      assert BitTells(g, w, {}, b);
    }
  }

  lemma EmptyWhole(v: Volume, i: nat)
    requires i < |v.t| && |v.t[i].addrs| == NDIRECT + 1 && v.t[i].size == 0
    ensures Whole(v, i)
  {}

  lemma NoSlots(d: seq<Block>, di: Dinode)
    requires |di.addrs| == NDIRECT + 1 && forall k :: 0 <= k <= NDIRECT ==> di.addrs[k] == 0
    ensures forall k :: 0 <= k < NSLOTS ==> At(d, di, k) == 0
  {}

  lemma ProgressNone(v: Volume, i: nat, off: nat, data: seq<Byte>)
    ensures Progress(v, v, i, off, data, 0)
  {}

  /** Two writes one after the other are one write. */
  lemma ChangedTwice(u: Volume, v: Volume, w: Volume, i: nat, off: nat, a: seq<Byte>, b: seq<Byte>)
    requires Changed(u, v, i, off, a) && Changed(v, w, i, off + |a|, b)
    ensures Changed(u, w, i, off, a + b)
  {
    hide FileBlock, FileByte, Content;
    assert Spliced(Spliced(Content(u, i), off, a), off + |a|, b) == Spliced(Content(u, i), off, a + b);
    forall j | 0 <= j < |u.t| && j != i ensures SameFile(u, w, j) {
      assert SameFile(u, v, j) && SameFile(v, w, j);
    }
  }

  lemma ProgressMore(u: Volume, v: Volume, w: Volume, i: nat, off: nat, data: seq<Byte>, done: nat, r: nat)
    requires Progress(u, v, i, off, data, done) && done + r <= |data| &&
               Changed(v, w, i, off + done, data[done..done + r])
    ensures Progress(u, w, i, off, data, done + r)
  {
    hide Changed;
    if done > 0 || v != u {
      ChangedTwice(u, v, w, i, off, data[..done], data[done..done + r]);
      assert data[..done] + data[done..done + r] == data[..done + r];
    } else {
      assert data[0..r] == data[..r];
    }
  }

  lemma ProgressSize(v: Volume, w: Volume, i: nat, off: nat, data: seq<Byte>, done: nat)
    requires Progress(v, w, i, off, data, done) && i < |v.t|
    ensures |w.t| == |v.t| && (off <= v.t[i].size ==> off + done <= w.t[i].size)
  {
    hide FileBlock, FileByte, SameFile;
    if Changed(v, w, i, off, data[..done]) {
      assert |Content(w, i)| == |Spliced(Content(v, i), off, data[..done])|;
    }
  }

  lemma InsideFile(g: Geometry, v: Volume, i: nat, o: nat)
    requires VolumeOk(g, v) && i < |v.t| && o < v.t[i].size
    ensures |v.t[i].addrs| == NDIRECT + 1 && o / BSIZE < MAXFILE && FileBlock(v.d, v.t[i], o / BSIZE) != 0
    ensures FileBlock(v.d, v.t[i], o / BSIZE) < |v.d|
  {
    assert Whole(v, i);
    assert o / BSIZE * BSIZE < v.t[i].size;
    MappedInData(g, v, i, o / BSIZE);
  }

  lemma PieceOf(g: Geometry, v: Volume, i: nat, o: nat, k: nat)
    requires VolumeOk(g, v) && i < |v.t| && o < v.t[i].size && o % BSIZE + k <= BSIZE && o + k <= v.t[i].size
    requires |v.t[i].addrs| == NDIRECT + 1 && o / BSIZE < MAXFILE && FileBlock(v.d, v.t[i], o / BSIZE) < |v.d|
    ensures Readable(v, i)
    ensures v.d[FileBlock(v.d, v.t[i], o / BSIZE)][o % BSIZE..o % BSIZE + k] == Content(v, i)[o..o + k]
  {
    hide At, Bit, Consistent;
    assert Whole(v, i);
    var b := FileBlock(v.d, v.t[i], o / BSIZE);
    var p, q := v.d[b][o % BSIZE..o % BSIZE + k], Content(v, i)[o..o + k];
    forall x | 0 <= x < k ensures p[x] == q[x] {
      assert (o + x) / BSIZE == o / BSIZE && (o + x) % BSIZE == o % BSIZE + x;
    }
  }

  lemma MappedInData(g: Geometry, v: Volume, i: nat, n: nat)
    requires Consistent(g, v) && i < |v.t| && n < MAXFILE && |v.t[i].addrs| == NDIRECT + 1 &&
               FileBlock(v.d, v.t[i], n) != 0
    ensures FileBlock(v.d, v.t[i], n) < g.size == |v.d|
    ensures g.size <= BPB ==> BitBlock(g, FileBlock(v.d, v.t[i], n)) == g.bmapstart
  {
    hide Bit, At, BitBlock, OwnerNames, BitTells;
    assert SlotOwns(g, v, i, FileSlot(n));
    if g.size <= BPB { OneMap(g, FileBlock(v.d, v.t[i], n)); }
  }

  lemma OneMap(g: Geometry, b: nat)
    requires b < g.size <= BPB
    ensures BitBlock(g, b) == g.bmapstart
  {}

  lemma WrittenConsistent(g: Geometry, v: Volume, w: Volume, i: nat, off: nat, data: seq<Byte>, tot: nat)
    requires Written(g, v, w, i, off, data, tot)
    ensures Consistent(g, w)
  {}

  lemma ExtendsSame(g: Geometry, v: Volume)
    requires Consistent(g, v)
    ensures Extends(g, v, v)
  {}

  lemma NoTable(d: seq<Block>, di: Dinode, j: nat)
    requires |di.addrs| == NDIRECT + 1 && di.addrs[NDIRECT] == 0 && j < NINDIRECT
    ensures At(d, di, NDIRECT + 1 + j) == 0
  {}

  lemma TableAt(g: Geometry, v: Volume, i: nat, j: nat)
    requires Consistent(g, v) && i < |v.t| && j < NINDIRECT && |v.t[i].addrs| == NDIRECT + 1 &&
               v.t[i].addrs[NDIRECT] != 0
    ensures v.t[i].addrs[NDIRECT] < |v.d| && At(v.d, v.t[i], NDIRECT + 1 + j) == Word(v.d[v.t[i].addrs[NDIRECT]], j)
  {
    assert SlotOwns(g, v, i, NDIRECT);
  }

  lemma ShapeOf(g: Geometry, v: Volume, i: nat)
    requires Consistent(g, v) && i < |v.t|
    ensures GeoOk(g) && |v.d| == g.size && |v.t[i].addrs| == NDIRECT + 1 && BitBlock(g, 0) < |v.d| && Bit(g, v.d, 0)
  {
    assert BitBlock(g, 0) < g.datastart;
    assert BitTells(g, v, {}, 0);
  }

  lemma BitPlace(g: Geometry, b: nat, bi: nat)
    requires b % BPB == 0 && bi < BPB
    ensures BitBlock(g, b + bi) == BitBlock(g, b) && (b + bi) % BPB == bi
  {}

  lemma BitHere(g: Geometry, d: seq<Block>, b: nat)
    requires BitBlock(g, b) < |d|
    ensures Bit(g, d, b) == BitIn(d[BitBlock(g, b)], b % BPB)
  {}

  lemma AllocatedIs(g: Geometry, d: seq<Block>, b: nat)
    requires BitBlock(g, b) < |d| && b < |d|
    ensures Allocated(g, d, b) == d[BitBlock(g, b) := WithBit(d[BitBlock(g, b)], b % BPB, true)][b := ZeroBlock()]
  {}
}
