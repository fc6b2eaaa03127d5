/** The buffer cache of kernel/bio.c: a ring of buffers in order of use, at most one per block, and the newest contents
    of every block. */
module BufCache {
  import opened Basics
  import opened Params

  const HEAD: nat := NBUF   // bcache.head, as an index
  const ROOTDEV: nat := 1

  // ----------------------------------------------------------------- the ring

  /** Buffer numbers, none twice. */
  ghost predicate Buffers(order: seq<nat>) { Distinct(order) && forall i :: 0 <= i < |order| ==> order[i] < NBUF }

  /** The way round: from the head through `order` back to the head. */
  ghost function Round(order: seq<nat>): seq<nat> { [HEAD] + order + [HEAD] }

  ghost predicate LinkAt(prev: seq<nat>, next: seq<nat>, way: seq<nat>, i: nat)
    requires i + 1 < |way| && |prev| == |next| == NBUF + 1
  {
    way[i] <= NBUF && way[i + 1] <= NBUF && next[way[i]] == way[i + 1] && prev[way[i + 1]] == way[i]
  }

  /** Following `next` from the head visits `order`, following `prev` visits it backwards. */
  ghost predicate Ring(prev: seq<nat>, next: seq<nat>, order: seq<nat>) {
    && |prev| == |next| == NBUF + 1 && Buffers(order)
    && (forall i: nat :: i + 1 < |Round(order)| ==> LinkAt(prev, next, Round(order), i))
  }

  function Dropped(order: seq<nat>, k: nat): seq<nat>
    requires k < |order|
  {
    order[..k] + order[k + 1..]
  }

  /** Links around the buffer at place `k`. */
  lemma Neighbours(prev: seq<nat>, next: seq<nat>, order: seq<nat>, k: nat)
    requires Ring(prev, next, order) && k < |order|
    ensures prev[order[k]] == Round(order)[k] && next[order[k]] == Round(order)[k + 2] &&
              Round(order)[k + 1] == order[k]
  {
    assert LinkAt(prev, next, Round(order), k) && LinkAt(prev, next, Round(order), k + 1);
  }

  /** b->next->prev = b->prev; b->prev->next = b->next */
  lemma UnlinkRing(prev: seq<nat>, next: seq<nat>, order: seq<nat>, k: nat)
    requires Ring(prev, next, order) && k < |order|
    ensures var b := order[k]; next[b] <= NBUF && prev[b] <= NBUF && b !in Dropped(order, k)
    ensures var b := order[k]; Ring(prev[next[b] := prev[b]], next[prev[b] := next[b]], Dropped(order, k))
  {
    var b := order[k];
    Neighbours(prev, next, order, k);
    var way, rest := Round(order), Round(Dropped(order, k));
    var prev', next' := prev[next[b] := prev[b]], next[prev[b] := next[b]];
    assert forall i :: 0 <= i < |rest| ==> rest[i] == if i <= k then way[i] else way[i + 1];
    forall i: nat | i + 1 < |rest|
      ensures LinkAt(prev', next', rest, i)
    {
      if i < k { assert LinkAt(prev, next, way, i); } else if i > k { assert LinkAt(prev, next, way, i + 1); }
      WayBuffers(order, i);
      WayBuffers(order, i + 1);
      WayBuffers(order, i + 2);
    }
  }

  /** Away from its ends the way round visits a buffer once. */
  lemma WayBuffers(order: seq<nat>, i: nat)
    requires Buffers(order) && i < |Round(order)|
    ensures Round(order)[i] <= NBUF
    ensures forall j ::
              0 <= j < |Round(order)| && j != i && Round(order)[j] == Round(order)[i] ==> Round(order)[i] == HEAD
  {}

  /** b->next = head.next; b->prev = head; head.next->prev = b; head.next = b */
  lemma InsertRing(prev: seq<nat>, next: seq<nat>, order: seq<nat>, b: nat)
    requires Ring(prev, next, order) && b < NBUF && b !in order
    ensures next[HEAD] <= NBUF
    ensures Ring(prev[b := HEAD][next[HEAD] := b], next[b := next[HEAD]][HEAD := b], [b] + order)
  {
    var way, longer := Round(order), Round([b] + order);
    assert LinkAt(prev, next, way, 0);
    var prev', next' := prev[b := HEAD][next[HEAD] := b], next[b := next[HEAD]][HEAD := b];
    assert forall i :: 0 < i < |longer| - 1 ==> longer[i + 1] == way[i];
    forall i: nat | i + 1 < |longer|
      ensures LinkAt(prev', next', longer, i)
    {
      if i >= 1 {
        assert LinkAt(prev, next, way, i - 1);
        WayBuffers(order, i - 1);
        WayBuffers(order, i);
      }
    }
  }

  // ------------------------------------------------------------------ contents

  type Block = seq<nat>

  datatype Buf = Buf(dev: nat, blockno: nat, valid: bool, refcnt: nat, locked: bool, data: Block)

  /** The history: the ring's order; when each buffer last went to its front; references held by users and by the log;
      the newest contents of every block; and which buffer has them when the disk does not. */
  datatype Log = Log(order: seq<nat>, stamp: seq<nat>, clock: nat, claims: seq<nat>, pins: seq<nat>,
      newest: map<nat, Block>, home: map<nat, nat>)

  /** The front of the ring was released last, its back longest ago. */
  ghost predicate ByAge(order: seq<nat>, stamp: seq<nat>, clock: nat) {
    && |order| == |stamp| == NBUF && Buffers(order) && (forall b :: 0 <= b < NBUF ==> b in order)
    && (forall i, j :: 0 <= i < j < NBUF ==> stamp[order[j]] < stamp[order[i]])
    && (forall b :: 0 <= b < NBUF ==> stamp[b] < clock)
  }

  /** Two buffers never hold the same block of a device. */
  ghost predicate OneEach(bufs: seq<Buf>) {
    |bufs| == NBUF && forall i, j ::
        0 <= i < j < NBUF && bufs[i].dev != 0 && bufs[i].dev == bufs[j].dev ==> bufs[i].blockno != bufs[j].blockno
  }

  /** Reference counts are the users and pins; a locked buffer has a user. */
  ghost predicate Counted(bufs: seq<Buf>, claims: seq<nat>, pins: seq<nat>) {
    |bufs| == |claims| == |pins| == NBUF
    && forall b :: 0 <= b < NBUF ==> bufs[b].refcnt == claims[b] + pins[b] && (bufs[b].locked ==> claims[b] > 0)
  }

  ghost predicate Holds(b: Buf, k: nat) { b.dev == ROOTDEV && b.blockno == k && b.valid }

  /** A valid buffer has the newest contents of its block, and agrees with the disk unless it is in use. */
  ghost predicate BufOk(b: Buf, pins: nat, newest: map<nat, Block>, disk: map<nat, Block>) {
    b.dev == ROOTDEV ==>
      && b.blockno in newest && b.blockno in disk
      && (b.valid ==> newest[b.blockno] == b.data && (b.locked || pins > 0 || disk[b.blockno] == b.data))
  }

  ghost predicate Coherent(bufs: seq<Buf>, pins: seq<nat>, newest: map<nat, Block>, home: map<nat, nat>,
      disk: map<nat, Block>) {
    && |bufs| == |pins| == NBUF && newest.Keys == disk.Keys
    && (forall b :: 0 <= b < NBUF ==> BufOk(bufs[b], pins[b], newest, disk))
    && (forall k :: k in newest && newest[k] != disk[k] ==> k in home && home[k] < NBUF && Holds(bufs[home[k]], k))
  }

  class Cache {
    var prev: array<nat>
    var next: array<nat>
    var bufs: seq<Buf>
    var disk: map<nat, Block>
    ghost var g: Log

    /** The ring is in order of use, no block is in it twice, and references are counted. */
    ghost predicate Sound()
      reads this, prev, next
    {
      && prev != next && |bufs| == NBUF && Ring(prev[..], next[..], g.order) && ByAge(g.order, g.stamp, g.clock)
      && OneEach(bufs) && Counted(bufs, g.claims, g.pins)
    }

    /** And the newest contents of every block are where bread() looks for them. */
    ghost predicate Valid()
      reads this, prev, next
    {
      Sound() && Coherent(bufs, g.pins, g.newest, g.home, disk)
    }

    /** binit(): every buffer is inserted at the front of an empty ring. */
    constructor (contents: map<nat, Block>)
      ensures Valid() && fresh(prev) && fresh(next) && disk == g.newest == contents
      ensures forall b :: 0 <= b < NBUF ==> bufs[b].refcnt == 0 && !bufs[b].valid && !bufs[b].locked
      ensures |g.pins| == NBUF && forall b :: 0 <= b < NBUF ==> g.pins[b] == 0
    {
      prev, next := new nat[NBUF + 1], new nat[NBUF + 1];
      bufs := seq(NBUF, _ => Buf(0, 0, false, 0, false, []));
      disk := contents;
      g := Log([], seq(NBUF, b => b), NBUF, seq(NBUF, _ => 0), seq(NBUF, _ => 0), contents, map[]);
      new;
      prev[HEAD], next[HEAD] := HEAD, HEAD;
      assert LinkAt(prev[..], next[..], Round([]), 0);
      ghost var g0 := g;
      var b := 0;
      while b < NBUF
        invariant 0 <= b <= NBUF && fresh(prev) && fresh(next) && prev != next && Ring(prev[..], next[..], g.order) &&
                    g == g0.(order := g.order)
        invariant |g.order| == b && forall i :: 0 <= i < b ==> g.order[i] == b - 1 - i
        invariant bufs == seq(NBUF, _ => Buf(0, 0, false, 0, false, [])) && disk == contents
      {
        InsertFront(b);
        b := b + 1;
      }
      forall c | 0 <= c < NBUF
        ensures c in g.order
      {
        assert g.order[NBUF - 1 - c] == c;
      }
    }

    /** The first loop of bget(): the buffer that has the block, or the head. */
    method FindCached(dev: nat, blockno: nat) returns (b: nat)
      requires Valid()
      ensures b <= NBUF
      ensures b < NBUF ==> bufs[b].dev == dev && bufs[b].blockno == blockno
      ensures b == HEAD ==> forall c :: 0 <= c < NBUF ==> !(bufs[c].dev == dev && bufs[c].blockno == blockno)
    {
      hide OneEach, Counted, Coherent, Ring;
      RingLengths(prev[..], next[..], g.order);
      ghost var i: nat := 0;
      StartOfRing(prev[..], next[..], g.order);
      b := next[HEAD];
      while b != HEAD
        invariant i <= NBUF && b == (if i < NBUF then g.order[i] else HEAD)
        invariant forall j :: 0 <= j < i ==> !(bufs[g.order[j]].dev == dev && bufs[g.order[j]].blockno == blockno)
        decreases NBUF - i
      {
        if bufs[b].dev == dev && bufs[b].blockno == blockno { return; }
        NextInRing(prev[..], next[..], g.order, i);
        b := next[b];
        i := i + 1;
      }
      forall c | 0 <= c < NBUF
        ensures !(bufs[c].dev == dev && bufs[c].blockno == blockno)
      {
        var j := PlaceOf(g.order, c);
      }
    }

    /** The second loop of bget(): of the buffers without references the one released longest ago, or the head. */
    method FindVictim() returns (b: nat)
      requires Valid()
      ensures b <= NBUF
      ensures b < NBUF ==>
                bufs[b].refcnt == 0 && forall c ::
                0 <= c < NBUF && bufs[c].refcnt == 0 && c != b ==> g.stamp[b] < g.stamp[c]
      ensures b == HEAD ==> forall c :: 0 <= c < NBUF ==> bufs[c].refcnt > 0
    {
      hide OneEach, Counted, Coherent, Ring;
      RingLengths(prev[..], next[..], g.order);
      ghost var i: int := NBUF - 1;
      StartOfRing(prev[..], next[..], g.order);
      b := prev[HEAD];
      while b != HEAD
        invariant -1 <= i < NBUF && b == (if i >= 0 then g.order[i] else HEAD)
        invariant forall j :: i < j < NBUF ==> bufs[g.order[j]].refcnt > 0
        decreases i
      {
        if bufs[b].refcnt == 0 {
          forall c | 0 <= c < NBUF && bufs[c].refcnt == 0 && c != b
            ensures g.stamp[b] < g.stamp[c]
          {
            var j := PlaceOf(g.order, c);
          }
          return;
        }
        NextInRing(prev[..], next[..], g.order, i);
        b := prev[b];
        i := i - 1;
      }
      forall c | 0 <= c < NBUF
        ensures bufs[c].refcnt > 0
      {
        var j := PlaceOf(g.order, c);
      }
    }

    /** bget() under bcache.lock: a reference to the one buffer for the block; NBUF where the source panics. */
    method Bget(dev: nat, blockno: nat) returns (b: nat)
      requires Valid() && dev != 0 && (dev == ROOTDEV ==> blockno in disk)
      modifies this`bufs, this`g
      ensures Valid() && b <= NBUF
      ensures b == NBUF ==> bufs == old(bufs) && g == old(g) && forall c :: 0 <= c < NBUF ==> bufs[c].refcnt > 0
      ensures b < NBUF ==> bufs[b].dev == dev && bufs[b].blockno == blockno && bufs[b].refcnt == old(bufs)[b].refcnt + 1
      ensures b < NBUF ==> bufs[b].locked == old(bufs)[b].locked && bufs[b].data == old(bufs)[b].data
      ensures b < NBUF && old(bufs)[b].dev == dev && old(bufs)[b].blockno == blockno ==>
                bufs[b].valid == old(bufs)[b].valid
      ensures b < NBUF ==>
                bufs == old(bufs)[b := bufs[b]] && g == old(g).(claims := old(g.claims)[b := old(g.claims)[b] + 1])
      ensures b < NBUF && (old(bufs)[b].dev != dev || old(bufs)[b].blockno != blockno) ==>
                && !bufs[b].valid && old(bufs)[b].refcnt == 0
                && forall c :: 0 <= c < NBUF && old(bufs)[c].refcnt == 0 && c != b ==> g.stamp[b] < g.stamp[c]
    {
      hide OneEach, Counted, Coherent, Ring, ByAge;
      b := FindCached(dev, blockno);
      CountLengths(bufs, g.claims, g.pins);
      if b < NBUF {
        InCache(bufs, g.pins, g.newest, g.home, disk, b);
        ClaimOk(bufs, g.claims, g.pins, b);
        SameContents(bufs, bufs[b].(refcnt := bufs[b].refcnt + 1), b, g.pins, g.newest, g.home, disk);
        bufs := bufs[b := bufs[b].(refcnt := bufs[b].refcnt + 1)];
        g := g.(claims := g.claims[b := g.claims[b] + 1]);
        return;
      }
      b := FindVictim();
      if b < NBUF {
        RecycleOk(bufs, g.claims, g.pins, g.newest, g.home, disk, b, dev, blockno);
        bufs := bufs[b := bufs[b].(dev := dev, blockno := blockno, valid := false, refcnt := 1)];
        g := g.(claims := g.claims[b := g.claims[b] + 1]);
      }
    }

    /** acquiresleep(&b->lock) by a process that has a reference. */
    method Lock(b: nat)
      requires Valid() && b < NBUF && !bufs[b].locked && |g.claims| == NBUF && g.claims[b] > 0
      modifies this`bufs
      ensures Valid() && bufs == old(bufs)[b := old(bufs)[b].(locked := true)]
    {
      hide OneEach, Counted, Coherent, Ring, ByAge;
      InCache(bufs, g.pins, g.newest, g.home, disk, b);
      FieldOk(bufs, g.claims, g.pins, b, bufs[b].(locked := true));
      SameContents(bufs, bufs[b].(locked := true), b, g.pins, g.newest, g.home, disk);
      bufs := bufs[b := bufs[b].(locked := true)];
    }

    /** The rest of bread(): the locked buffer has the newest contents of its block. */
    method Fill(b: nat)
      requires Valid() && b < NBUF && bufs[b].locked && bufs[b].dev == ROOTDEV
      modifies this`bufs
      ensures Valid() && bufs[b].valid && bufs[b].blockno in g.newest && bufs[b].data == g.newest[bufs[b].blockno]
      ensures bufs == old(bufs)[b := old(bufs)[b].(valid := true, data := bufs[b].data)]
    {
      hide OneEach, Counted, Coherent, Ring, ByAge;
      InCache(bufs, g.pins, g.newest, g.home, disk, b);
      if !bufs[b].valid {
        Referenced(bufs, g.claims, g.pins, b);
        UnheldIsClean(bufs, g.pins, g.newest, g.home, disk, b);
        var x := bufs[b].(valid := true, data := disk[bufs[b].blockno]);
        FieldOk(bufs, g.claims, g.pins, b, x);
        SameContents(bufs, x, b, g.pins, g.newest, g.home, disk);
        bufs := bufs[b := x];
      }
    }

    /** The holder of a buffer changes its contents: they are the block's newest. */
    method Modify(b: nat, data: Block)
      requires Valid() && b < NBUF && bufs[b].locked && bufs[b].dev == ROOTDEV && bufs[b].valid
      modifies this`bufs, this`g
      ensures Valid() && bufs == old(bufs)[b := old(bufs)[b].(data := data)]
      ensures g == old(g).(newest := old(g.newest)[bufs[b].blockno := data], home := g.home)
    {
      hide OneEach, Counted, Coherent, Ring, ByAge;
      Referenced(bufs, g.claims, g.pins, b);
      FieldOk(bufs, g.claims, g.pins, b, bufs[b].(data := data));
      ModifyOk(bufs, g.pins, g.newest, g.home, disk, b, data);
      g := g.(newest := g.newest[bufs[b].blockno := data], home := g.home[bufs[b].blockno := b]);
      bufs := bufs[b := bufs[b].(data := data)];
    }

    /** bwrite() by the holder. */
    method Bwrite(b: nat)
      requires Valid() && b < NBUF && bufs[b].locked && bufs[b].dev == ROOTDEV && bufs[b].valid
      modifies this`disk
      ensures Valid() && bufs[b].blockno in old(disk) && disk == old(disk)[bufs[b].blockno := bufs[b].data]
    {
      hide OneEach, Counted, Ring, ByAge, Coherent;
      WriteOk(bufs, g.pins, g.newest, g.home, disk, b);
      disk := disk[bufs[b].blockno := bufs[b].data];
    }

    /** bpin(), by log_write() in the process that has the buffer. */
    method Bpin(b: nat)
      requires Valid() && b < NBUF
      modifies this`bufs, this`g
      ensures Valid() && bufs == old(bufs)[b := old(bufs)[b].(refcnt := old(bufs)[b].refcnt + 1)]
      ensures |old(g.pins)| == NBUF && g == old(g).(pins := old(g.pins)[b := old(g.pins)[b] + 1])
    {
      hide OneEach, Counted, Coherent, Ring, ByAge;
      CountLengths(bufs, g.claims, g.pins);
      PinOk(bufs, g.claims, g.pins, g.newest, g.home, disk, b, g.pins[b] + 1, bufs[b].refcnt + 1);
      bufs := bufs[b := bufs[b].(refcnt := bufs[b].refcnt + 1)];
      g := g.(pins := g.pins[b := g.pins[b] + 1]);
    }

    /** bunpin(): contents stay safe exactly if the block was written home, is held, or is pinned once more. */
    method Bunpin(b: nat)
      requires Valid() && b < NBUF && |g.pins| == NBUF && g.pins[b] > 0
      modifies this`bufs, this`g
      ensures Sound() && (Valid() <==> bufs[b].locked || old(g.pins)[b] > 1 || Written(bufs[b], disk))
      ensures bufs == old(bufs)[b := old(bufs)[b].(refcnt := bufs[b].refcnt)] &&
                bufs[b].refcnt + 1 == old(bufs)[b].refcnt
      ensures g == old(g).(pins := old(g.pins)[b := old(g.pins)[b] - 1])
    {
      hide OneEach, Counted, Coherent, Ring, ByAge;
      CountLengths(bufs, g.claims, g.pins);
      Referenced(bufs, g.claims, g.pins, b);
      UnpinOk(bufs, g.claims, g.pins, g.newest, g.home, disk, b);
      bufs := bufs[b := bufs[b].(refcnt := bufs[b].refcnt - 1)];
      g := g.(pins := g.pins[b := g.pins[b] - 1]);
    }

    /** brelse() by the holder: without references the buffer goes to the front.  Contents stay safe exactly if the
        holder has written the block or left it to the log. */
    method Brelse(b: nat)
      requires Valid() && b < NBUF && bufs[b].locked && |g.pins| == NBUF
      modifies this`bufs, this`g, prev, next
      ensures Sound() && (Valid() <==> old(g.pins)[b] > 0 || Written(bufs[b], disk))
      ensures prev == old(prev) && next == old(next)
      ensures bufs == old(bufs)[b := old(bufs)[b].(locked := false, refcnt := bufs[b].refcnt)] &&
                bufs[b].refcnt + 1 == old(bufs)[b].refcnt
      ensures |old(g.claims)| == |old(g.stamp)| == NBUF && old(g.claims)[b] > 0
      ensures bufs[b].refcnt > 0 ==> g == old(g).(claims := old(g.claims)[b := old(g.claims)[b] - 1])
      ensures bufs[b].refcnt == 0 ==> g == old(g).(claims := old(g.claims)[b := old(g.claims)[b] - 1], order := g.order,
                                                  stamp := old(g.stamp)[b := old(g.clock)], clock := old(g.clock) + 1)
      ensures bufs[b].refcnt == 0 ==> |g.order| > 0 && g.order[0] == b
    {
      hide OneEach, Counted, Coherent, Ring, ByAge;
      CountLengths(bufs, g.claims, g.pins);
      AgeLengths(g.order, g.stamp, g.clock);
      Referenced(bufs, g.claims, g.pins, b);
      ReleaseOk(bufs, g.claims, g.pins, g.newest, g.home, disk, b);
      bufs := bufs[b := bufs[b].(locked := false, refcnt := bufs[b].refcnt - 1)];
      g := g.(claims := g.claims[b := g.claims[b] - 1]);
      if bufs[b].refcnt == 0 {
        ToFront(b);
      }
    }

    lemma CountedNow()
      requires Sound()
      ensures |bufs| == |g.claims| == |g.pins| == NBUF
    {}

    /** The list moves of brelse(). */
    method ToFront(b: nat)
      requires Sound() && b < NBUF && |g.stamp| == NBUF
      modifies this`g, prev, next
      ensures Sound() && prev == old(prev) && next == old(next) && |g.order| > 0 && g.order[0] == b
      ensures g == old(g).(order := g.order, stamp := old(g.stamp)[b := old(g.clock)], clock := old(g.clock) + 1)
    {
      hide OneEach, Counted, Coherent, Ring, ByAge;
      ghost var was := g;
      AgeLengths(g.order, g.stamp, g.clock);
      ghost var k := PlaceOf(g.order, b);
      FrontByAge(g.order, g.stamp, g.clock, k);
      Unlink(b, k);
      InsertFront(b);
      g := g.(stamp := g.stamp[b := g.clock], clock := g.clock + 1);
    }

    /** The link writes that put a buffer at the front. */
    method InsertFront(b: nat)
      requires prev != next && Ring(prev[..], next[..], g.order) && b < NBUF && b !in g.order
      modifies prev, next, this`g
      ensures Ring(prev[..], next[..], g.order) && g == old(g).(order := [b] + old(g.order))
    {
      hide Ring;
      InsertRing(prev[..], next[..], g.order, b);
      RingLengths(prev[..], next[..], g.order);
      ghost var p0: seq<nat>, n0: seq<nat> := prev[..], next[..];
      next[b] := next[HEAD];
      prev[b] := HEAD;
      prev[next[HEAD]] := b;
      next[HEAD] := b;
      assert next[..] == n0[b := n0[HEAD]][HEAD := b];
      assert prev[..] == p0[b := HEAD][n0[HEAD] := b];
      g := g.(order := [b] + g.order);
    }

    /** The link writes that take a buffer out of the ring. */
    method Unlink(b: nat, ghost k: nat)
      requires prev != next && Ring(prev[..], next[..], g.order) && k < |g.order| && b == g.order[k]
      modifies prev, next, this`g
      ensures Ring(prev[..], next[..], g.order) && g == old(g).(order := Dropped(old(g.order), k)) && b !in g.order &&
                b < NBUF
    {
      hide Ring;
      UnlinkRing(prev[..], next[..], g.order, k);
      RingLengths(prev[..], next[..], g.order);
      ghost var p0: seq<nat>, n0: seq<nat> := prev[..], next[..];
      prev[next[b]] := prev[b];
      next[prev[b]] := next[b];
      assert prev[..] == p0[n0[b] := p0[b]];
      assert next[..] == n0[p0[b] := n0[b]];
      g := g.(order := Dropped(g.order, k));
    }
  }

  /** The disk has what the buffer has, if that is contents of a block. */
  ghost predicate Written(b: Buf, disk: map<nat, Block>) {
    Holds(b, b.blockno) ==> b.blockno in disk && disk[b.blockno] == b.data
  }

  lemma CountLengths(bufs: seq<Buf>, claims: seq<nat>, pins: seq<nat>)
    requires Counted(bufs, claims, pins)
    ensures |bufs| == |claims| == |pins| == NBUF
  {}

  lemma AgeLengths(order: seq<nat>, stamp: seq<nat>, clock: nat)
    requires ByAge(order, stamp, clock)
    ensures |order| == |stamp| == NBUF && forall b :: 0 <= b < NBUF ==> b in order
  {}

  lemma Referenced(bufs: seq<Buf>, claims: seq<nat>, pins: seq<nat>, b: nat)
    requires Counted(bufs, claims, pins) && b < NBUF
    ensures bufs[b].refcnt == claims[b] + pins[b] && (bufs[b].locked ==> claims[b] > 0)
  {}

  lemma ClaimOk(bufs: seq<Buf>, claims: seq<nat>, pins: seq<nat>, b: nat)
    requires OneEach(bufs) && Counted(bufs, claims, pins) && b < NBUF
    ensures var bufs' := bufs[b := bufs[b].(refcnt := bufs[b].refcnt + 1)];
              OneEach(bufs') && Counted(bufs', claims[b := claims[b] + 1], pins)
  {}

  /** Changes that keep a buffer's block and references. */
  lemma FieldOk(bufs: seq<Buf>, claims: seq<nat>, pins: seq<nat>, b: nat, x: Buf)
    requires OneEach(bufs) && Counted(bufs, claims, pins) && b < NBUF
    requires x.dev == bufs[b].dev && x.blockno == bufs[b].blockno && x.refcnt == bufs[b].refcnt &&
               (x.locked ==> claims[b] > 0)
    ensures OneEach(bufs[b := x]) && Counted(bufs[b := x], claims, pins)
  {}

  /** Changes that keep a buffer's block and its newest contents. */
  lemma SameContents(bufs: seq<Buf>, x: Buf, b: nat, pins: seq<nat>, newest: map<nat, Block>, home: map<nat, nat>,
      disk: map<nat, Block>)
    requires Coherent(bufs, pins, newest, home, disk) && b < NBUF && BufOk(x, pins[b], newest, disk)
    requires x.dev == bufs[b].dev && x.blockno == bufs[b].blockno && (bufs[b].valid ==> x.valid)
    ensures Coherent(bufs[b := x], pins, newest, home, disk)
  {}

  lemma InCache(bufs: seq<Buf>, pins: seq<nat>, newest: map<nat, Block>, home: map<nat, nat>, disk: map<nat, Block>,
      b: nat)
    requires Coherent(bufs, pins, newest, home, disk) && b < NBUF
    ensures |pins| == NBUF && BufOk(bufs[b], pins[b], newest, disk)
  {}

  /** A block whose buffer has not been read yet is newest on the disk. */
  lemma UnheldIsClean(bufs: seq<Buf>, pins: seq<nat>, newest: map<nat, Block>, home: map<nat, nat>,
      disk: map<nat, Block>, b: nat)
    requires OneEach(bufs) && Coherent(bufs, pins, newest, home, disk) && b < NBUF && bufs[b].dev == ROOTDEV &&
               !bufs[b].valid
    ensures var k := bufs[b].blockno; k in newest && k in disk && newest[k] == disk[k]
  {
    assert BufOk(bufs[b], pins[b], newest, disk);
  }

  lemma RecycleOk(bufs: seq<Buf>, claims: seq<nat>, pins: seq<nat>, newest: map<nat, Block>, home: map<nat, nat>,
      disk: map<nat, Block>, b: nat, dev: nat, blockno: nat)
    requires OneEach(bufs) && Counted(bufs, claims, pins) && Coherent(bufs, pins, newest, home, disk) && b < NBUF &&
               bufs[b].refcnt == 0
    requires dev != 0 && (dev == ROOTDEV ==> blockno in disk)
    requires forall c :: 0 <= c < NBUF ==> !(bufs[c].dev == dev && bufs[c].blockno == blockno)
    ensures var bufs' := bufs[b := bufs[b].(dev := dev, blockno := blockno, valid := false, refcnt := 1)];
            OneEach(bufs') && Counted(bufs', claims[b := claims[b] + 1], pins) &&
                Coherent(bufs', pins, newest, home, disk)
  {
    var bufs' := bufs[b := bufs[b].(dev := dev, blockno := blockno, valid := false, refcnt := 1)];
    assert BufOk(bufs[b], pins[b], newest, disk);
    forall c | 0 <= c < NBUF
      ensures BufOk(bufs'[c], pins[c], newest, disk)
    {
      assert BufOk(bufs[c], pins[c], newest, disk);
    }
  }

  lemma ModifyOk(bufs: seq<Buf>, pins: seq<nat>, newest: map<nat, Block>, home: map<nat, nat>, disk: map<nat, Block>,
      b: nat, data: Block)
    requires OneEach(bufs) && Coherent(bufs, pins, newest, home, disk) && b < NBUF && bufs[b].locked &&
               Holds(bufs[b], bufs[b].blockno)
    ensures var k := bufs[b].blockno;
              Coherent(bufs[b := bufs[b].(data := data)], pins, newest[k := data], home[k := b], disk)
  {
    var k, bufs' := bufs[b].blockno, bufs[b := bufs[b].(data := data)];
    assert BufOk(bufs[b], pins[b], newest, disk);
    forall c | 0 <= c < NBUF
      ensures BufOk(bufs'[c], pins[c], newest[k := data], disk)
    {
      assert BufOk(bufs[c], pins[c], newest, disk);
    }
  }

  lemma WriteOk(bufs: seq<Buf>, pins: seq<nat>, newest: map<nat, Block>, home: map<nat, nat>, disk: map<nat, Block>,
      b: nat)
    requires OneEach(bufs) && Coherent(bufs, pins, newest, home, disk) && b < NBUF && Holds(bufs[b], bufs[b].blockno)
    ensures var k := bufs[b].blockno; k in disk && Coherent(bufs, pins, newest, home, disk[k := bufs[b].data])
  {
    var k := bufs[b].blockno;
    assert BufOk(bufs[b], pins[b], newest, disk);
    forall c | 0 <= c < NBUF
      ensures BufOk(bufs[c], pins[c], newest, disk[k := bufs[b].data])
    {
      assert BufOk(bufs[c], pins[c], newest, disk);
    }
  }

  lemma PinOk(bufs: seq<Buf>, claims: seq<nat>, pins: seq<nat>, newest: map<nat, Block>, home: map<nat, nat>,
      disk: map<nat, Block>, b: nat, n: nat, refcnt: nat)
    requires OneEach(bufs) && Counted(bufs, claims, pins) && Coherent(bufs, pins, newest, home, disk) && b < NBUF
    requires refcnt == bufs[b].refcnt + n - pins[b] &&
               (n > 0 || bufs[b].locked || Written(bufs[b], disk) || pins[b] == n)
    ensures var bufs' := bufs[b := bufs[b].(refcnt := refcnt)];
            OneEach(bufs') && Counted(bufs', claims, pins[b := n]) && Coherent(bufs', pins[b := n], newest, home, disk)
  {
    var bufs' := bufs[b := bufs[b].(refcnt := refcnt)];
    forall c | 0 <= c < NBUF
      ensures BufOk(bufs'[c], pins[b := n][c], newest, disk)
    {
      assert BufOk(bufs[c], pins[c], newest, disk);
    }
  }

  lemma UnpinOk(bufs: seq<Buf>, claims: seq<nat>, pins: seq<nat>, newest: map<nat, Block>, home: map<nat, nat>,
      disk: map<nat, Block>, b: nat)
    requires OneEach(bufs) && Counted(bufs, claims, pins) && Coherent(bufs, pins, newest, home, disk) && b < NBUF
    requires pins[b] > 0
    ensures bufs[b].refcnt > 0
    ensures var bufs', pins' := bufs[b := bufs[b].(refcnt := bufs[b].refcnt - 1)], pins[b := pins[b] - 1];
            && OneEach(bufs') && Counted(bufs', claims, pins')
            && (Coherent(bufs', pins', newest, home, disk) <==>
                bufs[b].locked || pins[b] > 1 || Written(bufs[b], disk))
  {
    var bufs', pins' := bufs[b := bufs[b].(refcnt := bufs[b].refcnt - 1)], pins[b := pins[b] - 1];
    assert BufOk(bufs[b], pins[b], newest, disk);
    if bufs[b].locked || pins[b] > 1 || Written(bufs[b], disk) {
      forall c | 0 <= c < NBUF
        ensures BufOk(bufs'[c], pins'[c], newest, disk)
      {
        assert BufOk(bufs[c], pins[c], newest, disk);
      }
    } else {
      assert !BufOk(bufs'[b], pins'[b], newest, disk);
    }
  }

  lemma ReleaseOk(bufs: seq<Buf>, claims: seq<nat>, pins: seq<nat>, newest: map<nat, Block>, home: map<nat, nat>,
      disk: map<nat, Block>, b: nat)
    requires OneEach(bufs) && Counted(bufs, claims, pins) && Coherent(bufs, pins, newest, home, disk) && b < NBUF &&
               bufs[b].locked
    ensures claims[b] > 0 && bufs[b].refcnt > 0
    ensures var bufs' := bufs[b := bufs[b].(locked := false, refcnt := bufs[b].refcnt - 1)];
            && OneEach(bufs') && Counted(bufs', claims[b := claims[b] - 1], pins)
            && (Coherent(bufs', pins, newest, home, disk) <==> pins[b] > 0 || Written(bufs[b], disk))
  {
    var bufs' := bufs[b := bufs[b].(locked := false, refcnt := bufs[b].refcnt - 1)];
    assert BufOk(bufs[b], pins[b], newest, disk);
    if pins[b] > 0 || Written(bufs[b], disk) {
      forall c | 0 <= c < NBUF
        ensures BufOk(bufs'[c], pins[c], newest, disk)
      {
        assert BufOk(bufs[c], pins[c], newest, disk);
      }
    } else {
      assert !BufOk(bufs'[b], pins[b], newest, disk);
    }
  }

  lemma Fronted(order: seq<nat>, k: nat)
    requires k < |order|
    ensures var order' := [order[k]] + Dropped(order, k);
            |order'| == |order| && forall i ::
                0 <= i < |order| ==> Came(i, k) < |order| && order'[i] == order[Came(i, k)]
  {}

  lemma FrontBuffers(order: seq<nat>, k: nat)
    requires |order| == NBUF && Buffers(order) && k < NBUF && forall b :: 0 <= b < NBUF ==> b in order
    ensures var order' := [order[k]] + Dropped(order, k);
            |order'| == NBUF && Buffers(order') && forall b :: 0 <= b < NBUF ==> b in order'
  {
    hide Dropped;
    Fronted(order, k);
    var order' := [order[k]] + Dropped(order, k);
    forall i, j | 0 <= i < j < NBUF
      ensures order'[i] != order'[j]
    {
      assert Came(i, k) != Came(j, k);
    }
    forall c | 0 <= c < NBUF
      ensures c in order'
    {
      var j := PlaceOf(order, c);
      assert order'[if j == k then 0 else if j < k then j + 1 else j] == c;
    }
  }

  /** A buffer that goes to the front is the youngest. */
  lemma FrontByAge(order: seq<nat>, stamp: seq<nat>, clock: nat, k: nat)
    requires ByAge(order, stamp, clock) && k < NBUF
    ensures order[k] < NBUF && ByAge([order[k]] + Dropped(order, k), stamp[order[k] := clock], clock + 1)
  {
    hide Dropped;
    Fronted(order, k);
    FrontBuffers(order, k);
    var b := order[k];
    var order', stamp' := [b] + Dropped(order, k), stamp[b := clock];
    forall i, j | 0 <= i < j < NBUF
      ensures stamp'[order'[j]] < stamp'[order'[i]]
    {
      assert Came(j, k) != k && stamp'[order'[j]] == stamp[order'[j]];
      if i > 0 { assert Came(i, k) != k && stamp'[order'[i]] == stamp[order'[i]]; }
    }
  }

  /** Where the buffer now at place `i` was before the one at `k` went to the front. */
  function Came(i: nat, k: nat): nat { if i == 0 then k else if i <= k then i - 1 else i }

  lemma PlaceOf(order: seq<nat>, b: nat) returns (j: nat)
    requires b in order
    ensures j < |order| && order[j] == b
  {
    j :| 0 <= j < |order| && order[j] == b;
  }

  lemma StartOfRing(prev: seq<nat>, next: seq<nat>, order: seq<nat>)
    requires Ring(prev, next, order) && order != []
    ensures |prev| == |next| == NBUF + 1 && next[HEAD] == order[0] && prev[HEAD] == order[|order| - 1]
  {
    assert LinkAt(prev, next, Round(order), 0) && LinkAt(prev, next, Round(order), |order|);
  }

  lemma NextInRing(prev: seq<nat>, next: seq<nat>, order: seq<nat>, i: nat)
    requires Ring(prev, next, order) && i < |order|
    ensures |prev| == |next| == NBUF + 1 && order[i] < NBUF
    ensures next[order[i]] == if i + 1 < |order| then order[i + 1] else HEAD
    ensures prev[order[i]] == if i > 0 then order[i - 1] else HEAD
  {
    Neighbours(prev, next, order, i);
  }

  lemma RingLengths(prev: seq<nat>, next: seq<nat>, order: seq<nat>)
    requires Ring(prev, next, order)
    ensures |prev| == |next| == NBUF + 1 && Buffers(order)
  {}

  /** A buffer is changed and released, neither written nor left to the log: its contents are nowhere safe. */
  method Unwritten(old': Block, new': Block) returns (c: Cache)
    requires old' != new'
    ensures fresh(c) && c.Sound() && !c.Valid()
  {
    hide OneEach, Counted, Coherent, Ring, ByAge;
    c := new Cache(map[7 := old']);
    c.CountedNow();
    assert c.bufs[0].refcnt == 0;
    var b := c.Bget(ROOTDEV, 7);
    c.CountedNow();
    c.Lock(b);
    c.Fill(b);
    c.Modify(b, new');
    c.Brelse(b);
  }
}
