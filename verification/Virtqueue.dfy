/** The split virtqueue of kernel/virtio_disk.c (sections 2.6 and 5.2 of VIRTIO 1.1): the driver's three-descriptor
    requests, and a device that completes them in any order.  Device steps may come between any two driver steps. */
module Virtqueue {
  import opened Basics
  import opened Params

  const NUM: nat := 8
  const WRAP: nat := 0x10000          // ring indices are 16 bits wide
  const F_NEXT: nat := 1              // VRING_DESC_F_NEXT
  const F_WRITE: nat := 2             // VRING_DESC_F_WRITE
  const T_IN: nat := 0                // VIRTIO_BLK_T_IN: read the disk
  const T_OUT: nat := 1               // VIRTIO_BLK_T_OUT: write the disk

  /** What a descriptor points at: a request header, a buffer's data, or a status byte. */
  datatype Addr = Nowhere | Header(i: nat) | Data(b: nat) | Status(i: nat)
  datatype Desc = Desc(addr: Addr, len: nat, flags: nat, next: nat)
  datatype Op = Op(typ: nat, sector: nat)

  /** `b` is the buffer of the request with this head, -1 if there is none. */
  datatype Info = Info(b: int, status: nat)

  const BLANK: Desc := Desc(Nowhere, 0, 0, 0)

  // ------------------------------------------------------------------- requests

  /** Staged: formatted, not published.  Queued: published.  Working: taken by the device.  Done: in the used ring.
      Finished: seen by virtio_disk_intr(), descriptors not yet freed. */
  datatype Phase = Staged | Queued | Working | Done | Finished
  datatype Req = Req(b: nat, blockno: nat, write: bool, n1: nat, n2: nat, phase: Phase)

  ghost predicate Uses(h: nat, r: Req, i: nat) { i == h || i == r.n1 || i == r.n2 }

  /** The descriptors, header and book-keeping of a request say what was asked for. */
  ghost predicate ReqOk(h: nat, r: Req, desc: seq<Desc>, ops: seq<Op>, info: seq<Info>)
    requires |desc| == |ops| == |info| == NUM
  {
    && h < NUM && r.n1 < NUM && r.n2 < NUM && h != r.n1 && h != r.n2 && r.n1 != r.n2
    && desc[h] == Desc(Header(h), 16, F_NEXT, r.n1)
    && desc[r.n1] == Desc(Data(r.b), BSIZE, F_NEXT + (if r.write then 0 else F_WRITE), r.n2)
    && desc[r.n2] == Desc(Status(h), 1, F_WRITE, 0)
    && ops[h] == Op(if r.write then T_OUT else T_IN, r.blockno * (BSIZE / 512))
    && info[h].b == r.b && (r.phase == Done || r.phase == Finished ==> info[h].status == 0)
  }

  /** Each descriptor is free (own is NUM) or belongs to exactly one request, whose head own gives. */
  ghost predicate OwnOk(reqs: map<nat, Req>, own: seq<nat>, free: seq<bool>) {
    && |own| == |free| == NUM && (forall h :: h in reqs ==> h < NUM && reqs[h].n1 < NUM && reqs[h].n2 < NUM)
    && (forall i :: 0 <= i < NUM ==> (free[i] <==> own[i] == NUM))
    && (forall i :: 0 <= i < NUM && own[i] != NUM ==> own[i] in reqs && Uses(own[i], reqs[own[i]], i))
    && (forall h, i :: h in reqs && 0 <= i < NUM && Uses(h, reqs[h], i) ==> own[i] == h)
  }

  /** A buffer is in one request at most, and marked as with the disk until that is finished. */
  ghost predicate BufsOk(reqs: map<nat, Req>, busy: set<nat>) {
    && (forall h, g :: h in reqs && g in reqs && reqs[h].b == reqs[g].b ==> h == g)
    && (forall h :: h in reqs ==> (reqs[h].b in busy <==> reqs[h].phase != Finished))
  }

  // ---------------------------------------------------------------------- rings

  function Slot(x: nat): (i: nat)
    ensures i < NUM
  {
    x % NUM
  }

  function Low16(x: nat): nat { x % WRAP }

  /** Entries `from` to `to` of a history sit in the ring in order; the 16-bit indices are their low bits. */
  ghost predicate RingOk(ring: seq<nat>, idx: nat, seen: nat, to: nat, from: nat, q: seq<nat>) {
    && |ring| == NUM && from <= to && |q| == to - from && idx == Low16(to) && seen == Low16(from)
    && (forall j: nat :: j < |q| ==> ring[Slot(from + j)] == q[j])
  }

  /** A queue holds exactly the requests in one phase, each once. */
  ghost predicate QueueOk(reqs: map<nat, Req>, q: seq<nat>, ph: Phase) {
    && Distinct(q)
    && (forall h :: h in q <==> h in reqs && reqs[h].phase == ph)
  }

  lemma {:induction false} Pigeonhole(q: seq<nat>, n: nat)
    requires Distinct(q) && forall j :: 0 <= j < |q| ==> q[j] < n
    ensures |q| <= n
    decreases n
  {
    if |q| > 0 {
      assert q[0] < n;
      if n - 1 in q {
        var k :| 0 <= k < |q| && q[k] == n - 1;
        var rest := q[..k] + q[k + 1..];
        forall i, j | 0 <= i < j < |rest|
          ensures rest[i] != rest[j]
        {
          assert rest[i] == q[if i < k then i else i + 1] && rest[j] == q[if j < k then j else j + 1];
        }
        forall j | 0 <= j < |rest|
          ensures rest[j] < n - 1
        {
          assert rest[j] == q[if j < k then j else j + 1];
        }
        Pigeonhole(rest, n - 1);
      } else {
        Pigeonhole(q, n - 1);
      }
    }
  }

  /** A queue that leaves out one descriptor number does not fill the ring. */
  lemma RoomLeft(q: seq<nat>, h: nat)
    requires Distinct(q) && h < NUM && h !in q && forall j :: 0 <= j < |q| ==> q[j] < NUM
    ensures |q| < NUM
  {
    Pigeonhole(q + [h], NUM);
  }

  /** Slot numbers are right across the 16-bit wrap. */
  lemma SlotWraps(x: nat)
    ensures Slot(Low16(x)) == Slot(x) && Low16(Low16(x) + 1) == Low16(x + 1)
  {
    var k := x / WRAP;
    assert x == 8 * (8192 * k) + x % WRAP;
    assert x % 8 == x % WRAP % 8;
  }

  /** Two histories that differ by less than the ring do not look equal. */
  lemma EmptyIsSeen(x: nat, y: nat)
    requires y <= x <= y + NUM
    ensures Low16(x) == Low16(y) <==> x == y
  {
    assert x == x / WRAP * WRAP + x % WRAP;
    assert y == y / WRAP * WRAP + y % WRAP;
  }

  /** The slot past the end holds none of the entries. */
  lemma SlotApart(from: nat, j: nat, to: nat)
    requires from + j < to < from + NUM
    ensures Slot(from + j) != Slot(to)
  {}

  /** Publishing one more entry: the new one is written past the others. */
  lemma RingPut(ring: seq<nat>, idx: nat, seen: nat, to: nat, from: nat, q: seq<nat>, h: nat)
    requires RingOk(ring, idx, seen, to, from, q) && |q| < NUM
    ensures RingOk(ring[Slot(idx) := h], Low16(idx + 1), seen, to + 1, from, q + [h])
    ensures RingOk(ring[Slot(idx) := h], idx, seen, to, from, q)
  {
    hide Slot, Low16;
    SlotWraps(to);
    forall j: nat | j < |q|
      ensures ring[Slot(idx) := h][Slot(from + j)] == q[j]
    {
      SlotApart(from, j, to);
    }
  }

  /** Publishing the entry already written past the others. */
  lemma RingAdvance(ring: seq<nat>, idx: nat, seen: nat, to: nat, from: nat, q: seq<nat>, h: nat)
    requires RingOk(ring, idx, seen, to, from, q) && ring[Slot(idx)] == h
    ensures RingOk(ring, Low16(idx + 1), seen, to + 1, from, q + [h])
  {
    hide Slot, Low16;
    SlotWraps(to);
  }

  function AtSlot(ring: seq<nat>, idx: nat): nat { if |ring| == NUM then ring[Slot(idx)] else 0 }

  /** Taking the oldest entry. */
  lemma RingTake(ring: seq<nat>, idx: nat, seen: nat, to: nat, from: nat, q: seq<nat>)
    requires RingOk(ring, idx, seen, to, from, q) && |q| <= NUM
    ensures idx == seen <==> q == []
    ensures q != [] ==> AtSlot(ring, seen) == q[0] && RingOk(ring, idx, Low16(seen + 1), to, from + 1, q[1..])
  {
    hide Slot, Low16;
    EmptyIsSeen(to, from);
    SlotWraps(from);
    if q != [] {
      assert ring[Slot(from + 0)] == q[0];
      forall j: nat | j < |q[1..]|
        ensures ring[Slot(from + 1 + j)] == q[1..][j]
      {
        assert ring[Slot(from + (j + 1))] == q[j + 1];
      }
    }
  }

  // ------------------------------------------------------------ phases of requests

  ghost function SetPhase(reqs: map<nat, Req>, h: nat, ph: Phase): map<nat, Req>
    requires h in reqs
  {
    reqs[h := reqs[h].(phase := ph)]
  }

  lemma PhaseOwn(reqs: map<nat, Req>, own: seq<nat>, free: seq<bool>, h: nat, ph: Phase)
    requires OwnOk(reqs, own, free) && h in reqs
    ensures OwnOk(SetPhase(reqs, h, ph), own, free)
  {
    var reqs' := SetPhase(reqs, h, ph);
    forall g, i | g in reqs' && 0 <= i < NUM && Uses(g, reqs'[g], i)
      ensures own[i] == g
    {
      assert Uses(g, reqs[g], i);
    }
  }

  /** A request enters the queue of its new phase, and no other queue notices. */
  lemma Enters(reqs: map<nat, Req>, q: seq<nat>, h: nat, ph: Phase)
    requires QueueOk(reqs, q, ph) && h in reqs && reqs[h].phase != ph
    ensures QueueOk(SetPhase(reqs, h, ph), q + [h], ph)
  {}

  lemma Unnoticed(reqs: map<nat, Req>, q: seq<nat>, h: nat, ph: Phase, qph: Phase)
    requires QueueOk(reqs, q, qph) && h in reqs && reqs[h].phase != qph && ph != qph
    ensures QueueOk(SetPhase(reqs, h, ph), q, qph)
  {}

  lemma LeavesFirst(reqs: map<nat, Req>, q: seq<nat>, ph: Phase, qph: Phase)
    requires QueueOk(reqs, q, qph) && q != [] && ph != qph
    ensures q[0] in reqs && QueueOk(SetPhase(reqs, q[0], ph), q[1..], qph)
  {
    assert q[0] in q;
    forall h
      ensures h in q[1..] <==> h in q && h != q[0]
    {
      if h in q && h != q[0] { var i :| 0 <= i < |q| && q[i] == h; assert q[1..][i - 1] == h; }
      if h in q[1..] { var i :| 0 <= i < |q[1..]| && q[1..][i] == h; assert q[i + 1] == h; }
    }
  }

  type Block = s: seq<nat> | |s| == BSIZE witness seq(BSIZE, _ => 0)

  // ------------------------------------------------- what the device may touch

  /** One byte string over the start of another. */
  function Over(old': seq<nat>, s: seq<nat>): (r: seq<nat>)
    requires |s| <= |old'|
    ensures |r| == |old'|
  {
    s + old'[|s|..]
  }

  /** The device stores at most the descriptor's length, and only where VRING_DESC_F_WRITE is set. */
  function Stored(d: Desc, old': seq<nat>, s: seq<nat>): (r: seq<nat>)
    ensures |r| == |old'|
  {
    if d.flags / F_WRITE % 2 == 1 then Over(old', s[..Min(Min(d.len, |s|), |old'|)]) else old'
  }

  /** The device reads at most the descriptor's length, and only where VRING_DESC_F_WRITE is not set. */
  function Loaded(d: Desc, s: seq<nat>): seq<nat> {
    if d.flags / F_WRITE % 2 == 0 then s[..Min(d.len, |s|)] else []
  }

  /** The number of the next descriptor of a chain, NUM after the last. */
  function NextOf(d: Desc): nat { if d.flags / F_NEXT % 2 == 1 then d.next else NUM }

  /** `len` bytes of the disk from a sector on, as far as there are. */
  function Sectors(image: seq<nat>, sector: nat, len: nat): seq<nat> {
    image[Min(sector * 512, |image|)..Min(sector * 512 + len, |image|)]
  }

  /** The disk with bytes written from a sector on. */
  function Rewritten(image: seq<nat>, sector: nat, s: seq<nat>): (r: seq<nat>)
    ensures |r| == |image|
  {
    if sector * 512 + |s| <= |image| then image[..sector * 512] + s + image[sector * 512 + |s|..] else image
  }

  /** Block `k` of the disk. */
  function BlockAt(image: seq<nat>, k: nat): (b: Block)
    requires k < |image| / BSIZE
  {
    BlockFits(image, k);
    image[k * BSIZE..k * BSIZE + BSIZE]
  }

  lemma BlockFits(image: seq<nat>, k: nat)
    requires k < |image| / BSIZE
    ensures k * BSIZE + BSIZE <= |image|
  {}

  /** A block and its two sectors are the same bytes. */
  lemma BlockSectors(image: seq<nat>, k: nat)
    requires k < |image| / BSIZE
    ensures Sectors(image, k * (BSIZE / 512), BSIZE) == BlockAt(image, k)
  {
    BlockFits(image, k);
  }

  /** Writing the sectors of a block changes that block and no other. */
  lemma BlockRewritten(image: seq<nat>, k: nat, b: Block, j: nat)
    requires k < |image| / BSIZE && j < |image| / BSIZE
    ensures BlockAt(Rewritten(image, k * (BSIZE / 512), b), j) == if j == k then b else BlockAt(image, j)
  {
    BlockFits(image, k);
    BlockFits(image, j);
    assert j < k ==> j * BSIZE + BSIZE <= k * BSIZE;
    assert j > k ==> k * BSIZE + BSIZE <= j * BSIZE;
  }

  /** Every block is the new disk's, but block `k`. */
  ghost predicate OnlyBlock(image: seq<nat>, image': seq<nat>, k: nat, b: Block) {
    |image'| == |image| && forall j :: 0 <= j < |image| / BSIZE ==> BlockAt(image', j) == if j == k then b
        else BlockAt(image, j)
  }

  /** A whole block moves through a descriptor of a block's length if the flag allows it. */
  lemma WholeBlock(d: Desc, old': Block, s: Block)
    requires d.len == BSIZE
    ensures d.flags / F_WRITE % 2 == 1 ==> Stored(d, old', s) == s
    ensures d.flags / F_WRITE % 2 == 0 ==> Loaded(d, s) == s
  {}

  /** All requests are as asked for, over buffers and blocks that exist. */
  ghost predicate TablesOk(reqs: map<nat, Req>, desc: seq<Desc>, ops: seq<Op>, info: seq<Info>, bufs: set<nat>,
      nblocks: nat) {
    && |desc| == |ops| == |info| == NUM
    && (forall h ::
        h in reqs ==> ReqOk(h, reqs[h], desc, ops, info) && reqs[h].b in bufs && reqs[h].blockno < nblocks)
  }

  /** Only the request being published is formatted and not queued, and its ring entry is written. */
  ghost predicate StagedOk(reqs: map<nat, Req>, staged: nat, avail: seq<nat>, availIdx: nat) {
    && |avail| == NUM
    && (forall h :: h in reqs && reqs[h].phase == Staged ==> h == staged)
    && (staged != NUM ==> staged in reqs && reqs[staged].phase == Staged && AtSlot(avail, availIdx) == staged)
  }

  lemma QueueSmall(reqs: map<nat, Req>, q: seq<nat>, ph: Phase, desc: seq<Desc>, ops: seq<Op>, info: seq<Info>,
      bufs: set<nat>, nblocks: nat)
    requires QueueOk(reqs, q, ph) && TablesOk(reqs, desc, ops, info, bufs, nblocks)
    ensures |q| <= NUM && forall j :: 0 <= j < |q| ==> q[j] < NUM
  {
    forall j | 0 <= j < |q|
      ensures q[j] < NUM
    {
      assert q[j] in q;
    }
    Pigeonhole(q, NUM);
  }

  lemma InQueue(reqs: map<nat, Req>, q: seq<nat>, ph: Phase)
    requires QueueOk(reqs, q, ph) && q != []
    ensures q[0] in reqs && reqs[q[0]].phase == ph
  {
    assert q[0] in q;
  }

  lemma PhaseBufs(reqs: map<nat, Req>, busy: set<nat>, h: nat, ph: Phase)
    requires BufsOk(reqs, busy) && h in reqs && reqs[h].phase != Finished && ph != Finished
    ensures BufsOk(SetPhase(reqs, h, ph), busy)
  {}

  lemma PhaseTables(reqs: map<nat, Req>, desc: seq<Desc>, ops: seq<Op>, info: seq<Info>, bufs: set<nat>,
      nblocks: nat, h: nat, ph: Phase)
    requires TablesOk(reqs, desc, ops, info, bufs, nblocks) && h in reqs
    requires ph == Done || ph == Finished ==> h < NUM && info[h].status == 0
    ensures TablesOk(SetPhase(reqs, h, ph), desc, ops, info, bufs, nblocks)
  {}

  lemma PhaseStaged(reqs: map<nat, Req>, staged: nat, avail: seq<nat>, availIdx: nat, h: nat, ph: Phase)
    requires StagedOk(reqs, staged, avail, availIdx) && h in reqs && reqs[h].phase != Staged && ph != Staged
    ensures StagedOk(SetPhase(reqs, h, ph), staged, avail, availIdx)
  {}

  /** The history: requests in progress by head, the head each descriptor belongs to, the head being published (NUM if
      none), the heads queued and done in order, and how many were ever published, consumed, completed and handled. */
  datatype Log = Log(reqs: map<nat, Req>, own: seq<nat>, staged: nat, queue: seq<nat>, doneq: seq<nat>,
                     published: nat, consumed: nat, completed: nat, handled: nat)

  /** The driver's and the device's memory.  `taken` is the device's own index into the avail ring, `seen` the
      driver's used_idx; `busy` are the buffers whose disk flag is 1. */
  class Disk {
    var free: seq<bool>
    var desc: seq<Desc>
    var ops: seq<Op>
    var info: seq<Info>
    var avail: seq<nat>
    var availIdx: nat
    var used: seq<nat>
    var usedIdx: nat
    var seen: nat
    var taken: nat
    var busy: set<nat>
    var data: map<nat, Block>      // contents of buffers
    var image: seq<nat>            // contents of the disk

    ghost var g: Log

    ghost predicate Valid()
      reads this
    {
      && OwnOk(g.reqs, g.own, free) && TablesOk(g.reqs, desc, ops, info, data.Keys, |image| / BSIZE) &&
          BufsOk(g.reqs, busy)
      && RingOk(avail, availIdx, taken, g.published, g.consumed, g.queue) && QueueOk(g.reqs, g.queue, Queued)
      && RingOk(used, usedIdx, seen, g.completed, g.handled, g.doneq) && QueueOk(g.reqs, g.doneq, Done)
      && StagedOk(g.reqs, g.staged, avail, availIdx)
    }

    /** An idle queue over any buffers and disk. */
    constructor (bufs: map<nat, Block>, contents: seq<nat>)
      ensures Valid() && g.reqs == map[] && g.staged == NUM && data == bufs && image == contents && forall i ::
                0 <= i < NUM ==> free[i]
    {
      free := seq(NUM, _ => true);
      desc := seq(NUM, _ => BLANK);
      ops := seq(NUM, _ => Op(0, 0));
      info := seq(NUM, _ => Info(-1, 0));
      avail, used := seq(NUM, _ => 0), seq(NUM, _ => 0);
      availIdx, usedIdx, seen, taken := 0, 0, 0, 0;
      busy := {};
      data, image := bufs, contents;
      g := Log(map[], seq(NUM, _ => NUM), NUM, [], [], 0, 0, 0, 0);
    }

    /** The device takes the next request from the avail ring, if it sees one there. */
    method DeviceTake() returns (some: bool, h: nat)
      requires Valid()
      modifies this`taken, this`g
      ensures Valid() && (some <==> old(g.queue) != [])
      ensures !some ==> g == old(g)
      ensures some ==> h == old(g.queue)[0] && h in old(g.reqs)
      ensures some ==>
                g == old(g).(reqs := SetPhase(old(g.reqs), h, Working), queue := old(g.queue)[1..],
                consumed := old(g.consumed) + 1)
    {
      hide RingOk, QueueOk, OwnOk, TablesOk, BufsOk, StagedOk;
      QueueSmall(g.reqs, g.queue, Queued, desc, ops, info, data.Keys, |image| / BSIZE);
      RingTake(avail, availIdx, taken, g.published, g.consumed, g.queue);
      some, h := taken != availIdx, 0;
      if some {
        h := AtSlot(avail, taken);
        InQueue(g.reqs, g.queue, Queued);
        LeavesFirst(g.reqs, g.queue, Working, Queued);
        Unnoticed(g.reqs, g.doneq, h, Working, Done);
        PhaseOwn(g.reqs, g.own, free, h, Working);
        PhaseBufs(g.reqs, busy, h, Working);
        PhaseTables(g.reqs, desc, ops, info, data.Keys, |image| / BSIZE, h, Working);
        PhaseStaged(g.reqs, g.staged, avail, availIdx, h, Working);
        taken := Low16(taken + 1);
        g := g.(reqs := SetPhase(g.reqs, h, Working), queue := g.queue[1..], consumed := g.consumed + 1);
      }
    }

    /** The device follows the chain and carries out the request in its header, as far as the descriptors let it. */
    method Transfer(h: nat)
      requires TablesOk(g.reqs, desc, ops, info, data.Keys, |image| / BSIZE) && h in g.reqs
      modifies this`data, this`image, this`info
      ensures TablesOk(g.reqs, desc, ops, info, data.Keys, |image| / BSIZE) && h < NUM && info[h].status == 0
      ensures var r := g.reqs[h]; r.b in old(data) && r.blockno < |old(image)| / BSIZE
      ensures var r := g.reqs[h];
                data == if r.write then old(data) else old(data)[r.b := BlockAt(old(image), r.blockno)]
      ensures var r := g.reqs[h];
                if r.write then OnlyBlock(old(image), image, r.blockno, old(data)[r.b]) else image == old(image)
    {
      hide TablesOk, Stored, Loaded, Sectors, Rewritten, BlockAt;
      ghost var r := g.reqs[h];
      RequestIs(g.reqs, desc, ops, info, data.Keys, |image| / BSIZE, h);
      StatusTables(g.reqs, desc, ops, info, data.Keys, |image| / BSIZE, h);
      var d0 := desc[h];
      var d1 := desc[NextOf(d0)];
      var d2 := desc[NextOf(d1)];
      var hdr := ops[d0.addr.i];
      WholeBlock(d1, data[r.b], BlockAt(image, r.blockno));
      WholeBlock(d1, data[r.b], data[r.b]);
      if hdr.typ == T_IN {
        BlockSectors(image, r.blockno);
        var b := d1.addr.b;
        data := data[b := Stored(d1, data[b], Sectors(image, hdr.sector, d1.len))];
        assert data.Keys == old(data.Keys);
      } else {
        OneRewritten(image, r.blockno, data[r.b]);
        image := Rewritten(image, hdr.sector, Loaded(d1, data[d1.addr.b]));
      }
      StatusStored(d2, info[d2.addr.i].status);
      info := info[d2.addr.i := info[d2.addr.i].(status := Stored(d2, [info[d2.addr.i].status], [0])[0])];
    }

    /** The device completes a request it has taken and puts its head in the used ring. */
    method DeviceComplete(h: nat)
      requires Valid() && h in g.reqs && g.reqs[h].phase == Working
      modifies this`data, this`image, this`info, this`used, this`usedIdx, this`g
      ensures Valid()
      ensures g ==
                old(g).(reqs := SetPhase(old(g.reqs), h, Done), doneq := old(g.doneq) + [h],
                completed := old(g.completed) + 1)
      ensures var r := g.reqs[h]; r.b in old(data) && r.blockno < |old(image)| / BSIZE
      ensures var r := g.reqs[h];
                data == if r.write then old(data) else old(data)[r.b := BlockAt(old(image), r.blockno)]
      ensures var r := g.reqs[h];
                if r.write then OnlyBlock(old(image), image, r.blockno, old(data)[r.b]) else image == old(image)
    {
      hide RingOk, QueueOk, OwnOk, TablesOk, BufsOk, StagedOk, Slot, Low16, Distinct;
      QueueSmall(g.reqs, g.doneq, Done, desc, ops, info, data.Keys, |image| / BSIZE);
      Transfer(h);
      NotQueued(g.reqs, g.doneq, Done, h);
      RoomLeft(g.doneq, h);
      RingPut(used, usedIdx, seen, g.completed, g.handled, g.doneq, h);
      RingLength(used, usedIdx, seen, g.completed, g.handled, g.doneq);
      PhaseAll(g.reqs, g.own, free, busy, g.staged, avail, availIdx, h, Done);
      Unnoticed(g.reqs, g.queue, h, Done, Queued);
      Enters(g.reqs, g.doneq, h, Done);
      PhaseTables(g.reqs, desc, ops, info, data.Keys, |image| / BSIZE, h, Done);
      used := used[Slot(usedIdx) := h];
      usedIdx := Low16(usedIdx + 1);
      g := g.(reqs := SetPhase(g.reqs, h, Done), doneq := g.doneq + [h], completed := g.completed + 1);
    }

    /** One round of virtio_disk_intr(): the buffer submitted with the head in the used ring, and no other, is done. */
    method HandleOne() returns (some: bool, h: nat)
      requires Valid()
      modifies this`busy, this`seen, this`g
      ensures Valid() && (some <==> old(g.doneq) != [])
      ensures !some ==> g == old(g) && busy == old(busy)
      ensures some ==> h == old(g.doneq)[0] && h in old(g.reqs)
      ensures some ==>
                g == old(g).(reqs := SetPhase(old(g.reqs), h, Finished), doneq := old(g.doneq)[1..],
                handled := old(g.handled) + 1)
      ensures some ==> busy == old(busy) - {old(g.reqs)[h].b}
    {
      hide RingOk, QueueOk, OwnOk, TablesOk, BufsOk, StagedOk, Slot, Low16, Distinct;
      QueueSmall(g.reqs, g.doneq, Done, desc, ops, info, data.Keys, |image| / BSIZE);
      RingTake(used, usedIdx, seen, g.completed, g.handled, g.doneq);
      some, h := seen != usedIdx, 0;
      if some {
        h := AtSlot(used, seen);
        InQueue(g.reqs, g.doneq, Done);
        RequestIs(g.reqs, desc, ops, info, data.Keys, |image| / BSIZE, h);
        assert info[h].status == 0;   // otherwise the driver panics
        LeavesFirst(g.reqs, g.doneq, Finished, Done);
        Unnoticed(g.reqs, g.queue, h, Finished, Queued);
        PhaseOwn(g.reqs, g.own, free, h, Finished);
        FinishBufs(g.reqs, busy, h);
        PhaseTables(g.reqs, desc, ops, info, data.Keys, |image| / BSIZE, h, Finished);
        PhaseStaged(g.reqs, g.staged, avail, availIdx, h, Finished);
        busy := busy - {info[h].b as nat};
        seen := Low16(seen + 1);
        g := g.(reqs := SetPhase(g.reqs, h, Finished), doneq := g.doneq[1..], handled := g.handled + 1);
      }
    }

    /** virtio_disk_intr(): every completion in the used ring is handled; no other request or buffer changes. */
    method Interrupt()
      requires Valid()
      modifies this`busy, this`seen, this`g
      ensures Valid() && g.doneq == [] && g.queue == old(g.queue) && g.staged == old(g.staged) && g.own == old(g.own)
      ensures AllHandled(old(g.reqs), g.reqs, old(busy), busy)
    {
      hide RingOk, QueueOk, OwnOk, TablesOk, BufsOk, StagedOk, Slot, Low16, Distinct;
      ghost var was, flags := g.reqs, busy;
      QueueSmall(g.reqs, g.doneq, Done, desc, ops, info, data.Keys, |image| / BSIZE);
      RingTake(used, usedIdx, seen, g.completed, g.handled, g.doneq);
      while seen != usedIdx
        invariant Valid() && (seen == usedIdx <==> g.doneq == [])
        invariant g.queue == old(g.queue) && g.staged == old(g.staged) && g.own == old(g.own)
        invariant HandledSome(was, g.reqs, flags, busy)
        decreases |g.doneq|
      {
        InQueue(g.reqs, g.doneq, Done);
        HandledMore(was, g.reqs, flags, busy, g.doneq[0]);
        var some, h := HandleOne();
        QueueSmall(g.reqs, g.doneq, Done, desc, ops, info, data.Keys, |image| / BSIZE);
        RingTake(used, usedIdx, seen, g.completed, g.handled, g.doneq);
      }
      NoneDone(g.reqs, g.doneq);
    }

    /** alloc_desc(): the first free descriptor, or -1. */
    method AllocDesc() returns (i: int)
      requires |free| == NUM
      modifies this`free
      ensures -1 <= i < NUM && |free| == NUM
      ensures i == -1 ==> free == old(free) && forall j :: 0 <= j < NUM ==> !free[j]
      ensures i >= 0 ==> old(free)[i] && free == old(free)[i := false] && forall j :: 0 <= j < i ==> !free[j]
    {
      i := 0;
      while i < NUM
        invariant 0 <= i <= NUM && free == old(free) && forall j :: 0 <= j < i ==> !free[j]
      {
        if free[i] {
          free := free[i := false];
          return;
        }
        i := i + 1;
      }
      i := -1;
    }

    /** free_desc(): its two panics do not happen for a descriptor that is in use. */
    method FreeDesc(i: nat)
      requires i < NUM == |free| == |desc| && !free[i]
      modifies this`free, this`desc
      ensures free == old(free)[i := true] && desc == old(desc)[i := BLANK]
    {
      desc := desc[i := BLANK];
      free := free[i := true];
    }

    /** alloc3_desc(): three descriptors that were free, or none taken because there are not three. */
    method Alloc3() returns (ok: bool, idx: seq<nat>)
      requires |free| == |desc| == NUM
      modifies this`free, this`desc
      ensures |free| == |desc| == NUM
      ensures ok ==> |idx| == 3 && Picked(old(free), idx) && free == Without(old(free), idx) && desc == old(desc)
      ensures !ok ==> free == old(free) && forall i :: 0 <= i < NUM && !free[i] ==> desc[i] == old(desc)[i]
      ensures !ok ==> forall i, j, k :: 0 <= i < j < k < NUM ==> !(free[i] && free[j] && free[k])
    {
      idx := [];
      while |idx| < 3
        invariant |idx| <= 3 && Picked(old(free), idx) && free == Without(old(free), idx) && desc == old(desc)
        decreases 3 - |idx|
      {
        var i := AllocDesc();
        if i < 0 {
          FewFree(old(free), idx);
          ok := false;
          GiveBack(idx, old(free));
          return;
        }
        idx := idx + [i];
      }
      ok := true;
    }

    /** The undo loop of alloc3_desc(). */
    method GiveBack(idx: seq<nat>, ghost was: seq<bool>)
      requires |free| == |desc| == |was| == NUM && Picked(was, idx) && free == Without(was, idx)
      modifies this`free, this`desc
      ensures free == was && |desc| == NUM && forall i :: 0 <= i < NUM && !was[i] ==> desc[i] == old(desc)[i]
    {
      var j := 0;
      while j < |idx|
        invariant 0 <= j <= |idx| && |desc| == NUM && free == Without(was, idx[j..])
        invariant forall i :: 0 <= i < NUM && !was[i] ==> desc[i] == old(desc)[i]
      {
        PickedLeft(was, idx, j);
        FreeDesc(idx[j]);
        j := j + 1;
      }
      assert idx[j..] == [];
    }

    /** The first half of virtio_disk_rw(): formats a request in three descriptors and writes its ring entry; false if
        the caller has to sleep until descriptors are free. */
    method Prepare(b: nat, blockno: nat, write: bool) returns (ok: bool, h: nat)
      requires Valid() && g.staged == NUM && b in data && blockno < |image| / BSIZE && forall k ::
                 k in g.reqs ==> g.reqs[k].b != b
      modifies this`free, this`desc, this`ops, this`info, this`avail, this`busy, this`g
      ensures Valid()
      ensures !ok ==>
                g == old(g) && busy == old(busy) && forall i, j, k ::
                0 <= i < j < k < NUM ==> !(free[i] && free[j] && free[k])
      ensures ok ==> h < NUM && h !in old(g.reqs) && g.staged == h && busy == old(busy) + {b} && h in g.reqs
      ensures ok ==> g.reqs[h] == Req(b, blockno, write, g.reqs[h].n1, g.reqs[h].n2, Staged)
      ensures ok ==> |info| == NUM && info[h].status == 0xff
      ensures ok ==> g == old(g).(reqs := old(g.reqs)[h := g.reqs[h]], own := g.own, staged := h)
    {
      hide RingOk, QueueOk, OwnOk, TablesOk, BufsOk, StagedOk, Slot, Low16, Distinct, Picked, Without, ReqOk;
      OwnLengths(g.reqs, g.own, free);
      TableLengths(g.reqs, desc, ops, info, data.Keys, |image| / BSIZE);
      ghost var was := free;
      var idx;
      ok, idx := Alloc3();
      h := 0;
      if !ok {
        BlankKeeps(g.reqs, g.own, free, old(desc), desc, ops, info, data.Keys, |image| / BSIZE);
      } else {
        h := PickedHead(was, idx);
        Stage(idx, b, blockno, write, was);
      }
    }

    /** Fills the three descriptors and the ring entry. */
    method Stage(idx: seq<nat>, b: nat, blockno: nat, write: bool, ghost was: seq<bool>)
      requires |idx| == 3 && Picked(was, idx) && free == Without(was, idx) && OwnOk(g.reqs, g.own, was)
      requires TablesOk(g.reqs, desc, ops, info, data.Keys, |image| / BSIZE) && BufsOk(g.reqs, busy)
      requires RingOk(avail, availIdx, taken, g.published, g.consumed, g.queue) && QueueOk(g.reqs, g.queue, Queued)
      requires RingOk(used, usedIdx, seen, g.completed, g.handled, g.doneq) && QueueOk(g.reqs, g.doneq, Done)
      requires StagedOk(g.reqs, NUM, avail, availIdx) && b in data && blockno < |image| / BSIZE && forall k ::
                 k in g.reqs ==> g.reqs[k].b != b
      modifies this`desc, this`ops, this`info, this`avail, this`busy, this`g
      ensures Valid() && busy == old(busy) + {b} && idx[0] !in old(g.reqs)
      ensures |info| == NUM && idx[0] < NUM && info[idx[0]].status == 0xff
      ensures var r := Req(b, blockno, write, idx[1], idx[2], Staged);
                g == old(g).(reqs := old(g.reqs)[idx[0] := r], own := g.own, staged := idx[0])
    {
      hide RingOk, QueueOk, OwnOk, TablesOk, BufsOk, StagedOk, Slot, Low16, Distinct, Picked, Without, ReqOk;
      var h := PickedHead(was, idx);
      ghost var r := Req(b, blockno, write, idx[1], idx[2], Staged);
      NewOwner(g.reqs, g.own, was, idx, r);
      OwnLengths(g.reqs, g.own, was);
      NewBufs(g.reqs, busy, h, r);
      QueueSmall(g.reqs, g.queue, Queued, desc, ops, info, data.Keys, |image| / BSIZE);
      Format(idx, b, blockno, write, r, was);
      NewQueue(g.reqs, g.queue, Queued, h, r);
      NewQueue(g.reqs, g.doneq, Done, h, r);
      RoomLeft(g.queue, h);
      RingLength(avail, availIdx, taken, g.published, g.consumed, g.queue);
      RingPut(avail, availIdx, taken, g.published, g.consumed, g.queue, h);
      NewStaged(g.reqs, avail, availIdx, h, r);
      busy := busy + {b};
      avail := avail[Slot(availIdx) := h];
      g := g.(reqs := g.reqs[h := r], own := g.own[h := h][idx[1] := h][idx[2] := h], staged := h);
    }

    /** The header, descriptor and book-keeping writes of virtio_disk_rw(). */
    method Format(idx: seq<nat>, b: nat, blockno: nat, write: bool, ghost r: Req, ghost was: seq<bool>)
      requires OwnOk(g.reqs, g.own, was) && Picked(was, idx) && |idx| == 3 &&
                 r == Req(b, blockno, write, idx[1], idx[2], Staged)
      requires TablesOk(g.reqs, desc, ops, info, data.Keys, |image| / BSIZE) && b in data && blockno < |image| / BSIZE
      modifies this`desc, this`ops, this`info
      ensures TablesOk(g.reqs[idx[0] := r], desc, ops, info, data.Keys, |image| / BSIZE)
      ensures |info| == NUM && idx[0] < NUM && info[idx[0]].status == 0xff
    {
      ghost var desc0, ops0, info0 := desc, ops, info;
      var i0, i1, i2 := idx[0], idx[1], idx[2];
      ops := ops[i0 := Op(if write then T_OUT else T_IN, blockno * (BSIZE / 512))];
      desc := desc[i0 := Desc(Header(i0), 16, F_NEXT, i1)];
      desc := desc[i1 := Desc(Data(b), BSIZE, (if write then 0 else F_WRITE) + F_NEXT, i2)];
      desc := desc[i2 := Desc(Status(i0), 1, F_WRITE, 0)];
      info := info[i0 := Info(b, 0xff)];
      FormatTables(g.reqs, g.own, was, desc0, ops0, info0, desc, ops, info, data.Keys, |image| / BSIZE, idx, r);
    }

    /** The second half: the device may see the request from here on. */
    method Publish(h: nat)
      requires Valid() && g.staged == h != NUM
      modifies this`availIdx, this`g
      ensures Valid() && h in old(g.reqs)
      ensures g ==
                old(g).(reqs := SetPhase(old(g.reqs), h, Queued), staged := NUM, queue := old(g.queue) + [h],
                published := old(g.published) + 1)
    {
      hide RingOk, QueueOk, OwnOk, TablesOk, BufsOk, StagedOk, Slot, Low16, Distinct;
      StagedIs(g.reqs, g.staged, avail, availIdx);
      RingLength(avail, availIdx, taken, g.published, g.consumed, g.queue);
      RingAdvance(avail, availIdx, taken, g.published, g.consumed, g.queue, h);
      PhaseOwn(g.reqs, g.own, free, h, Queued);
      PhaseBufs(g.reqs, busy, h, Queued);
      PhaseTables(g.reqs, desc, ops, info, data.Keys, |image| / BSIZE, h, Queued);
      Enters(g.reqs, g.queue, h, Queued);
      Unnoticed(g.reqs, g.doneq, h, Queued, Done);
      Unstaged(g.reqs, g.staged, avail, availIdx);
      availIdx := Low16(availIdx + 1);
      g := g.(reqs := SetPhase(g.reqs, h, Queued), staged := NUM, queue := g.queue + [h], published := g.published + 1);
    }

    /** free_chain(): follows the next links of a chain and frees exactly its descriptors. */
    method FreeChain(h: nat, ghost n1: nat, ghost n2: nat)
      requires |free| == |desc| == NUM && h < NUM && n1 < NUM && n2 < NUM && h != n1 && h != n2 && n1 != n2
      requires desc[h].flags % 2 == 1 && desc[h].next == n1 && desc[n1].flags % 2 == 1 && desc[n1].next == n2 &&
                 desc[n2].flags % 2 == 0
      requires !free[h] && !free[n1] && !free[n2]
      modifies this`free, this`desc
      ensures free == old(free)[h := true][n1 := true][n2 := true]
      ensures desc == old(desc)[h := BLANK][n1 := BLANK][n2 := BLANK]
    {
      var i := h;
      ghost var done: nat := 0;
      while true
        invariant done < 3 && i == [h, n1, n2][done]
        invariant done == 0 ==> free == old(free) && desc == old(desc)
        invariant done == 1 ==> free == old(free)[h := true] && desc == old(desc)[h := BLANK]
        invariant done == 2 ==> free == old(free)[h := true][n1 := true] && desc == old(desc)[h := BLANK][n1 := BLANK]
        decreases 3 - done
      {
        var flag, nxt := desc[i].flags, desc[i].next;
        FreeDesc(i);
        if flag / F_NEXT % 2 == 1 { i := nxt; } else { break; }
        done := done + 1;
      }
    }

    /** The end of virtio_disk_rw(), once the interrupt handler has cleared the buffer's flag. */
    method Finish(h: nat)
      requires Valid() && h in g.reqs && g.reqs[h].phase == Finished
      modifies this`free, this`desc, this`info, this`g
      ensures Valid() && g == old(g).(reqs := old(g.reqs) - {h}, own := g.own)
      ensures var r := old(g.reqs)[h];
                h < NUM && r.n1 < NUM && r.n2 < NUM && free == old(free)[h := true][r.n1 := true][r.n2 := true]
    {
      hide RingOk, QueueOk, OwnOk, TablesOk, BufsOk, StagedOk, Slot, Low16, Distinct;
      ghost var r := g.reqs[h];
      RequestIs(g.reqs, desc, ops, info, data.Keys, |image| / BSIZE, h);
      OwnLengths(g.reqs, g.own, free);
      InUse(g.reqs, g.own, free, h);
      EndTables(g.reqs, g.own, free, desc, ops, info, data.Keys, |image| / BSIZE, h);
      EndOwner(g.reqs, g.own, free, h);
      EndBufs(g.reqs, busy, h);
      EndQueue(g.reqs, g.queue, Queued, h);
      EndQueue(g.reqs, g.doneq, Done, h);
      EndStaged(g.reqs, g.staged, avail, availIdx, h);
      info := info[h := info[h].(b := -1)];
      FreeChain(h, r.n1, r.n2);
      g := g.(reqs := g.reqs - {h}, own := g.own[h := NUM][r.n1 := NUM][r.n2 := NUM]);
    }
  }

  lemma OwnLengths(reqs: map<nat, Req>, own: seq<nat>, free: seq<bool>)
    requires OwnOk(reqs, own, free)
    ensures |own| == |free| == NUM
  {}

  lemma TableLengths(reqs: map<nat, Req>, desc: seq<Desc>, ops: seq<Op>, info: seq<Info>, bufs: set<nat>,
      nblocks: nat)
    requires TablesOk(reqs, desc, ops, info, bufs, nblocks)
    ensures |desc| == |ops| == |info| == NUM
  {}

  function PickedHead(ghost free: seq<bool>, idx: seq<nat>): (h: nat)
    requires Picked(free, idx) && |idx| == 3
    ensures h == idx[0] < NUM && idx[1] < NUM && idx[2] < NUM
  {
    idx[0]
  }

  /** Requests do not use free descriptors, so blanking those changes none. */
  lemma BlankKeeps(reqs: map<nat, Req>, own: seq<nat>, free: seq<bool>, desc: seq<Desc>, desc': seq<Desc>, ops: seq<Op>,
      info: seq<Info>, bufs: set<nat>, nblocks: nat)
    requires OwnOk(reqs, own, free) && TablesOk(reqs, desc, ops, info, bufs, nblocks) && |desc'| == NUM
    requires forall i :: 0 <= i < NUM && !free[i] ==> desc'[i] == desc[i]
    ensures TablesOk(reqs, desc', ops, info, bufs, nblocks)
  {
    forall h | h in reqs
      ensures ReqOk(h, reqs[h], desc', ops, info)
    {
      assert ReqOk(h, reqs[h], desc, ops, info);
      InUse(reqs, own, free, h);
    }
  }

  /** The descriptors of a request in progress are not free. */
  lemma InUse(reqs: map<nat, Req>, own: seq<nat>, free: seq<bool>, h: nat)
    requires OwnOk(reqs, own, free) && h in reqs && h < NUM && reqs[h].n1 < NUM && reqs[h].n2 < NUM
    ensures !free[h] && !free[reqs[h].n1] && !free[reqs[h].n2]
  {
    assert Uses(h, reqs[h], h) && Uses(h, reqs[h], reqs[h].n1) && Uses(h, reqs[h], reqs[h].n2);
  }

  lemma NewOwner(reqs: map<nat, Req>, own: seq<nat>, free: seq<bool>, idx: seq<nat>, r: Req)
    requires OwnOk(reqs, own, free) && Picked(free, idx) && |idx| == 3 && r.n1 == idx[1] && r.n2 == idx[2]
    ensures idx[0] !in reqs && (forall k :: k in reqs ==> k < NUM)
    ensures OwnOk(reqs[idx[0] := r], own[idx[0] := idx[0]][idx[1] := idx[0]][idx[2] := idx[0]], Without(free, idx))
  {
    var h := idx[0];
    if h in reqs { assert Uses(h, reqs[h], h); }
    var own' := own[idx[0] := h][idx[1] := h][idx[2] := h];
    var reqs' := reqs[h := r];
    forall i | 0 <= i < NUM
      ensures i in idx <==> i == idx[0] || i == idx[1] || i == idx[2]
    {}
    forall k, i | k in reqs' && 0 <= i < NUM && Uses(k, reqs'[k], i)
      ensures own'[i] == k
    {
      assert free[idx[0]] && free[idx[1]] && free[idx[2]];
      if k != h { assert Uses(k, reqs[k], i) && own[i] == k && !free[i]; }
    }
  }

  lemma NewBufs(reqs: map<nat, Req>, busy: set<nat>, h: nat, r: Req)
    requires BufsOk(reqs, busy) && h !in reqs && r.phase == Staged && forall k :: k in reqs ==> reqs[k].b != r.b
    ensures BufsOk(reqs[h := r], busy + {r.b})
  {}

  lemma NewQueue(reqs: map<nat, Req>, q: seq<nat>, ph: Phase, h: nat, r: Req)
    requires QueueOk(reqs, q, ph) && h !in reqs && r.phase != ph
    ensures QueueOk(reqs[h := r], q, ph) && h !in q && Distinct(q)
  {}

  lemma NewStaged(reqs: map<nat, Req>, avail: seq<nat>, availIdx: nat, h: nat, r: Req)
    requires StagedOk(reqs, NUM, avail, availIdx) && h < NUM && h !in reqs && r.phase == Staged && forall k ::
               k in reqs ==> k < NUM
    ensures StagedOk(reqs[h := r], h, avail[Slot(availIdx) := h], availIdx)
  {}

  lemma FormatTables(reqs: map<nat, Req>, own: seq<nat>, free: seq<bool>, desc: seq<Desc>, ops: seq<Op>,
      info: seq<Info>,
                     desc': seq<Desc>, ops': seq<Op>, info': seq<Info>, bufs: set<nat>, nblocks: nat,
                         idx: seq<nat>, r: Req)
    requires OwnOk(reqs, own, free) && TablesOk(reqs, desc, ops, info, bufs, nblocks) && Picked(free, idx) &&
               |idx| == 3
    requires |desc'| == |ops'| == |info'| == NUM && ReqOk(idx[0], r, desc', ops', info') && r.b in bufs &&
               r.blockno < nblocks
    requires forall i :: 0 <= i < NUM && i !in idx ==> desc'[i] == desc[i] && ops'[i] == ops[i] && info'[i] == info[i]
    ensures TablesOk(reqs[idx[0] := r], desc', ops', info', bufs, nblocks)
  {
    hide OwnOk, ReqOk, Picked;
    forall h | h in reqs
      ensures h != idx[0] && ReqOk(h, reqs[h], desc', ops', info')
    {
      assert ReqOk(h, reqs[h], desc, ops, info);
      InRange(h, reqs[h], desc, ops, info);
      InUse(reqs, own, free, h);
      NotPicked(free, idx, h);
      NotPicked(free, idx, reqs[h].n1);
      NotPicked(free, idx, reqs[h].n2);
      SameReq(h, reqs[h], desc, ops, info, desc', ops', info');
    }
  }

  lemma InRange(h: nat, r: Req, desc: seq<Desc>, ops: seq<Op>, info: seq<Info>)
    requires |desc| == |ops| == |info| == NUM && ReqOk(h, r, desc, ops, info)
    ensures h < NUM && r.n1 < NUM && r.n2 < NUM
  {}

  lemma NotPicked(free: seq<bool>, idx: seq<nat>, i: nat)
    requires Picked(free, idx) && i < NUM && !free[i]
    ensures i !in idx
  {}

  /** A request is as asked for if its three descriptors, its header and its record are. */
  lemma SameReq(h: nat, r: Req, desc: seq<Desc>, ops: seq<Op>, info: seq<Info>, desc': seq<Desc>, ops': seq<Op>,
      info': seq<Info>)
    requires |desc| == |ops| == |info| == |desc'| == |ops'| == |info'| == NUM && ReqOk(h, r, desc, ops, info)
    requires desc'[h] == desc[h] && desc'[r.n1] == desc[r.n1] && desc'[r.n2] == desc[r.n2] && ops'[h] == ops[h] &&
               info'[h] == info[h]
    ensures ReqOk(h, r, desc', ops', info')
  {}

  lemma StagedIs(reqs: map<nat, Req>, staged: nat, avail: seq<nat>, availIdx: nat)
    requires StagedOk(reqs, staged, avail, availIdx) && staged != NUM
    ensures staged in reqs && reqs[staged].phase == Staged && AtSlot(avail, availIdx) == staged
  {}

  lemma Unstaged(reqs: map<nat, Req>, staged: nat, avail: seq<nat>, availIdx: nat)
    requires StagedOk(reqs, staged, avail, availIdx) && staged in reqs
    ensures StagedOk(SetPhase(reqs, staged, Queued), NUM, avail, Low16(availIdx + 1))
  {}

  lemma EndOwner(reqs: map<nat, Req>, own: seq<nat>, free: seq<bool>, h: nat)
    requires OwnOk(reqs, own, free) && h in reqs && h < NUM && reqs[h].n1 < NUM && reqs[h].n2 < NUM
    ensures var r := reqs[h];
              OwnOk(reqs - {h}, own[h := NUM][r.n1 := NUM][r.n2 := NUM], free[h := true][r.n1 := true][r.n2 := true])
  {
    var r := reqs[h];
    var own' := own[h := NUM][r.n1 := NUM][r.n2 := NUM];
    assert forall i :: 0 <= i < NUM ==> (own[i] == h <==> Uses(h, r, i));
    forall k, i | k in reqs - {h} && 0 <= i < NUM && Uses(k, (reqs - {h})[k], i)
      ensures own'[i] == k
    {
      assert Uses(k, reqs[k], i) && own[i] == k;
    }
  }

  lemma EndTables(reqs: map<nat, Req>, own: seq<nat>, free: seq<bool>, desc: seq<Desc>, ops: seq<Op>, info: seq<Info>,
      bufs: set<nat>, nblocks: nat, h: nat)
    requires OwnOk(reqs, own, free) && TablesOk(reqs, desc, ops, info, bufs, nblocks) && h in reqs && h < NUM &&
               reqs[h].n1 < NUM && reqs[h].n2 < NUM
    ensures var r := reqs[h];
              TablesOk(reqs - {h}, desc[h := BLANK][r.n1 := BLANK][r.n2 := BLANK], ops, info[h := info[h].(b := -1)],
              bufs, nblocks)
  {
    var r := reqs[h];
    forall k | k in reqs && k != h
      ensures ReqOk(k, reqs[k], desc[h := BLANK][r.n1 := BLANK][r.n2 := BLANK], ops, info[h := info[h].(b := -1)])
    {
      assert ReqOk(k, reqs[k], desc, ops, info);
      assert Uses(k, reqs[k], k) && Uses(k, reqs[k], reqs[k].n1) && Uses(k, reqs[k], reqs[k].n2);
      assert Uses(h, r, h) && Uses(h, r, r.n1) && Uses(h, r, r.n2);
    }
  }

  lemma EndBufs(reqs: map<nat, Req>, busy: set<nat>, h: nat)
    requires BufsOk(reqs, busy)
    ensures BufsOk(reqs - {h}, busy)
  {}

  lemma EndQueue(reqs: map<nat, Req>, q: seq<nat>, ph: Phase, h: nat)
    requires QueueOk(reqs, q, ph) && h in reqs && reqs[h].phase != ph
    ensures QueueOk(reqs - {h}, q, ph)
  {}

  lemma EndStaged(reqs: map<nat, Req>, staged: nat, avail: seq<nat>, availIdx: nat, h: nat)
    requires StagedOk(reqs, staged, avail, availIdx) && h in reqs && reqs[h].phase != Staged
    ensures StagedOk(reqs - {h}, staged, avail, availIdx)
  {}

  /** Descriptors that were free, no two the same. */
  ghost predicate Picked(free: seq<bool>, idx: seq<nat>) {
    |free| == NUM && Distinct(idx) && forall j :: 0 <= j < |idx| ==> idx[j] < NUM && free[idx[j]]
  }

  ghost function Without(free: seq<bool>, idx: seq<nat>): (r: seq<bool>)
    ensures |r| == |free| && forall i :: 0 <= i < |free| ==> (r[i] <==> free[i] && i !in idx)
  {
    seq(|free|, i requires 0 <= i < |free| => free[i] && i !in idx)
  }

  lemma PickedLeft(free: seq<bool>, idx: seq<nat>, j: nat)
    requires Picked(free, idx) && j < |idx|
    ensures !Without(free, idx[j..])[idx[j]] && Without(free, idx[j..])[idx[j] := true] == Without(free, idx[j + 1..])
  {
    assert idx[j..][0] == idx[j];
    forall i: nat
      ensures i in idx[j..] <==> i == idx[j] || i in idx[j + 1..]
    {
      assert idx[j..] == [idx[j]] + idx[j + 1..];
    }
    forall k | j < k < |idx|
      ensures idx[k] != idx[j]
    {}
  }

  lemma FewFree(free: seq<bool>, idx: seq<nat>)
    requires Picked(free, idx) && |idx| < 3 && forall j :: 0 <= j < NUM ==> !Without(free, idx)[j]
    ensures forall i, j, k :: 0 <= i < j < k < NUM ==> !(free[i] && free[j] && free[k])
  {
    forall i | 0 <= i < NUM && free[i]
      ensures i in idx
    {
      assert !Without(free, idx)[i];
    }
  }

  /** Requests that were done are finished and their buffers released; the rest is as it was. */
  ghost predicate AllHandled(was: map<nat, Req>, reqs: map<nat, Req>, flags: set<nat>, busy: set<nat>) {
    && reqs.Keys == was.Keys
    && (forall h :: h in was ==> reqs[h] == if was[h].phase == Done then was[h].(phase := Finished) else was[h])
    && (forall b :: b in busy <==> b in flags && !exists h :: h in was && was[h].phase == Done && was[h].b == b)
  }

  ghost predicate HandledSome(was: map<nat, Req>, reqs: map<nat, Req>, flags: set<nat>, busy: set<nat>) {
    && reqs.Keys == was.Keys
    && (forall h :: h in was ==> reqs[h] == was[h] || (was[h].phase == Done && reqs[h] == was[h].(phase := Finished)))
    && (forall b ::
        b in busy <==>
        b in flags && !exists h :: h in was && was[h].phase == Done && reqs[h].phase != Done && was[h].b == b)
  }

  lemma HandledMore(was: map<nat, Req>, reqs: map<nat, Req>, flags: set<nat>, busy: set<nat>, h: nat)
    requires HandledSome(was, reqs, flags, busy) && h in reqs && reqs[h].phase == Done
    ensures HandledSome(was, SetPhase(reqs, h, Finished), flags, busy - {reqs[h].b})
  {}

  lemma NoneDone(reqs: map<nat, Req>, q: seq<nat>)
    requires QueueOk(reqs, q, Done) && q == []
    ensures forall h :: h in reqs ==> reqs[h].phase != Done
  {}

  /** What the tables hold for a request in progress. */
  lemma RequestIs(reqs: map<nat, Req>, desc: seq<Desc>, ops: seq<Op>, info: seq<Info>, bufs: set<nat>,
      nblocks: nat, h: nat)
    requires TablesOk(reqs, desc, ops, info, bufs, nblocks) && h in reqs
    ensures |desc| == |ops| == |info| == NUM && ReqOk(h, reqs[h], desc, ops, info) && reqs[h].b in bufs &&
              reqs[h].blockno < nblocks
  {}

  lemma NotQueued(reqs: map<nat, Req>, q: seq<nat>, ph: Phase, h: nat)
    requires QueueOk(reqs, q, ph) && h in reqs && reqs[h].phase != ph
    ensures h !in q && Distinct(q)
  {}

  lemma RingLength(ring: seq<nat>, idx: nat, seen: nat, to: nat, from: nat, q: seq<nat>)
    requires RingOk(ring, idx, seen, to, from, q)
    ensures |ring| == NUM
  {}

  lemma StatusTables(reqs: map<nat, Req>, desc: seq<Desc>, ops: seq<Op>, info: seq<Info>, bufs: set<nat>,
      nblocks: nat, h: nat)
    requires TablesOk(reqs, desc, ops, info, bufs, nblocks) && h < NUM
    ensures TablesOk(reqs, desc, ops, info[h := info[h].(status := 0)], bufs, nblocks)
  {}

  lemma OneRewritten(image: seq<nat>, k: nat, b: Block)
    requires k < |image| / BSIZE
    ensures OnlyBlock(image, Rewritten(image, k * (BSIZE / 512), b), k, b)
  {
    hide BlockAt, Rewritten;
    forall j | 0 <= j < |image| / BSIZE
      ensures BlockAt(Rewritten(image, k * (BSIZE / 512), b), j) == if j == k then b else BlockAt(image, j)
    {
      BlockRewritten(image, k, b, j);
    }
  }

  lemma StatusStored(d: Desc, was: nat)
    requires d.len == 1 && d.flags == F_WRITE
    ensures Stored(d, [was], [0]) == [0]
  {}

  lemma PhaseAll(reqs: map<nat, Req>, own: seq<nat>, free: seq<bool>, busy: set<nat>, staged: nat, avail: seq<nat>,
      availIdx: nat, h: nat, ph: Phase)
    requires OwnOk(reqs, own, free) && BufsOk(reqs, busy) && StagedOk(reqs, staged, avail, availIdx) && h in reqs
    requires reqs[h].phase != Staged && reqs[h].phase != Finished && ph != Staged && ph != Finished
    ensures var reqs' := SetPhase(reqs, h, ph);
              OwnOk(reqs', own, free) && BufsOk(reqs', busy) && StagedOk(reqs', staged, avail, availIdx)
  {
    hide OwnOk, BufsOk, StagedOk;
    PhaseOwn(reqs, own, free, h, ph);
    PhaseBufs(reqs, busy, h, ph);
    PhaseStaged(reqs, staged, avail, availIdx, h, ph);
  }

  lemma FinishBufs(reqs: map<nat, Req>, busy: set<nat>, h: nat)
    requires BufsOk(reqs, busy) && h in reqs
    ensures BufsOk(SetPhase(reqs, h, Finished), busy - {reqs[h].b})
  {}
}
