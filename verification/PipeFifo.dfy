/** Pipes of kernel/pipe.c with any number of readers and writers.  A method runs from the moment a thread has the
    pipe's lock to the moment it gives it up, by returning or by going to sleep; threads interleave between calls. */
module PipeFifo {
  import opened Basics

  const PIPESIZE: nat := 512
  const WRAP: nat := 0x1_0000_0000    // nread and nwrite are 32 bits wide

  datatype Outcome = Done | Failed | Asleep

  function Low32(x: nat): nat { x % WRAP }

  function Slot(x: nat): (i: nat)
    ensures i < PIPESIZE
  {
    x % PIPESIZE
  }

  /** The counters' wrap-around does not disturb the position in the buffer. */
  lemma SlotWraps(x: nat)
    ensures Slot(Low32(x)) == Slot(x) && Low32(Low32(x) + 1) == Low32(x + 1)
  {
    var k := x / WRAP;
    assert x == 512 * (0x80_0000 * k) + x % WRAP;
    assert x % 512 == x % WRAP % 512;
  }

  /** The 32-bit tests for full and empty tell the truth. */
  lemma TestsAreExact(r: nat, w: nat)
    requires r <= w <= r + PIPESIZE
    ensures Low32(r) == Low32(w) <==> r == w
    ensures Low32(w) == Low32(Low32(r) + PIPESIZE) <==> w == r + PIPESIZE
  {
    assert r == r / WRAP * WRAP + r % WRAP;
    assert w == w / WRAP * WRAP + w % WRAP;
    FullWrap(r, w);
  }

  lemma FullWrap(r: nat, w: nat)
    requires r <= w <= r + PIPESIZE
    ensures Low32(w) == Low32(Low32(r) + PIPESIZE) <==> w == r + PIPESIZE
  {
    var v := r + PIPESIZE;
    assert v == v / WRAP * WRAP + v % WRAP;
    assert w == w / WRAP * WRAP + w % WRAP;
    assert Low32(Low32(r) + PIPESIZE) == Low32(v) by {
      assert r == r / WRAP * WRAP + r % WRAP;
      assert v == r / WRAP * WRAP + (r % WRAP + PIPESIZE);
    }
  }

  lemma SlotApart(r: nat, j: nat, w: nat)
    requires r <= j < w < r + PIPESIZE
    ensures Slot(j) != Slot(w)
  {}

  /** Bytes `r` to `w` of everything accepted sit in the buffer. */
  ghost predicate Buffered(data: seq<nat>, accepted: seq<nat>, r: nat) {
    && |data| == PIPESIZE && r <= |accepted| <= r + PIPESIZE
    && (forall j: nat :: r <= j < |accepted| ==> data[Slot(j)] == accepted[j])
  }

  lemma BufferedMore(data: seq<nat>, accepted: seq<nat>, r: nat, ch: nat)
    requires Buffered(data, accepted, r) && |accepted| < r + PIPESIZE
    ensures Buffered(data[Slot(|accepted|) := ch], accepted + [ch], r)
  {
    hide Slot;
    forall j: nat | r <= j < |accepted| + 1
      ensures data[Slot(|accepted|) := ch][Slot(j)] == (accepted + [ch])[j]
    {
      if j < |accepted| { SlotApart(r, j, |accepted|); }
    }
  }

  class Pipe {
    var data: array<nat>
    var nread: nat
    var nwrite: nat
    var readopen: bool
    var writeopen: bool
    var readers: set<nat>          // threads asleep on &nread
    var writers: set<nat>          // threads asleep on &nwrite
    ghost var accepted: seq<nat>   // every byte ever written
    ghost var delivered: seq<nat>  // every byte ever taken out

    /** What holds even while a thread has the lock: delivered followed by buffered is accepted. */
    ghost predicate Fifo()
      reads this, data
    {
      && Buffered(data[..], accepted, |delivered|) && delivered == accepted[..|delivered|]
      && nread == Low32(|delivered|) && nwrite == Low32(|accepted|)
    }

    /** The lock is free: no writer sleeps that could go on, and no reader once the write end is closed. */
    ghost predicate Sound()
      reads this, data
    {
      && Fifo() && (readers != {} ==> writeopen)
      && (writers != {} ==> |accepted| == |delivered| + PIPESIZE && readopen)
    }

    /** The lock is free: nobody sleeps who could go on. */
    ghost predicate Valid()
      reads this, data
    {
      Sound() && (readers != {} ==> |accepted| == |delivered|)
    }

    constructor ()
      ensures Valid() && fresh(data) && accepted == delivered == [] && readopen && writeopen && readers == writers == {}
    {
      data := new nat[PIPESIZE];
      nread, nwrite := 0, 0;
      readopen, writeopen := true, true;
      readers, writers := {}, {};
      accepted, delivered := [], [];
    }

    /** pipewrite() from byte `start` on, in thread `me`, which finds itself killed at byte `killedAt` and can copy in
        the first `supply` bytes: accepts bytes in order up to where it stops.  A writer that is killed after it stored
        something does not wake the readers: exactly when a killed writer leaves bytes behind and readers asleep, those
        sleep on a pipe that has bytes for them. */
    method Write(me: nat, bytes: seq<nat>, start: nat, supply: nat, killedAt: nat) returns (out: Outcome, i: nat)
      requires Sound() && start <= |bytes| && start <= supply && me !in writers && me !in readers
      modifies this, data
      ensures Sound() && (Valid() <==> !(out == Failed && |accepted| > |delivered| && old(readers) != {}))
      ensures data == old(data) && readopen == old(readopen) && writeopen == old(writeopen)
      ensures i ==
                StopAt(|bytes|, start, supply, killedAt, start + PIPESIZE - (|old(accepted)| - |old(delivered)|),
                readopen)
      ensures start <= i <= |bytes| && accepted == old(accepted) + bytes[start..i] && delivered == old(delivered)
      ensures out == if i == |bytes| then Done else if !readopen || i >= killedAt then Failed
                     else if |accepted| == |delivered| + PIPESIZE then Asleep else Done
      ensures out == Failed ==> readers == old(readers) && writers == old(writers)
      ensures out != Failed ==> readers == {} && writers == old(writers) + if out == Asleep then {me} else {}
    {
      hide Slot, Low32, Buffered;
      Bounds(data[..], accepted, |delivered|);
      i := start;
      while i < |bytes|
        invariant start <= i <= |bytes| && i <= supply && Fifo() && data == old(data)
        invariant accepted == old(accepted) + bytes[start..i] && delivered == old(delivered)
        invariant readopen == old(readopen) && writeopen == old(writeopen) && readers == old(readers) &&
                    writers == old(writers)
        invariant i > start ==> readopen && i <= killedAt && |accepted| <= |delivered| + PIPESIZE && writers == {}
        decreases |bytes| - i
      {
        if !readopen || i >= killedAt { return Failed, i; }
        Bounds(data[..], accepted, |delivered|);
        TestsAreExact(|delivered|, |accepted|);
        if nwrite == Low32(nread + PIPESIZE) {
          readers := {};
          writers := writers + {me};
          return Asleep, i;
        }
        if i >= supply { break; }
        PutByte(bytes[i]);
        assert bytes[start..i + 1] == bytes[start..i] + [bytes[i]];
        Bounds(data[..], accepted, |delivered|);
        i := i + 1;
      }
      readers := {};
      out := Done;
    }

    /** data[nwrite++ % PIPESIZE] = ch */
    method PutByte(ch: nat)
      requires Fifo() && |accepted| < |delivered| + PIPESIZE
      modifies this`nwrite, this`accepted, data
      ensures Fifo() && accepted == old(accepted) + [ch]
    {
      hide Slot, Low32, Buffered;
      Bounds(data[..], accepted, |delivered|);
      SlotWraps(|accepted|);
      BufferedMore(data[..], accepted, |delivered|, ch);
      ghost var was := data[..];
      data[Slot(nwrite)] := ch;
      assert data[..] == was[Slot(nwrite) := ch];
      assert (accepted + [ch])[..|delivered|] == accepted[..|delivered|];
      nwrite := Low32(nwrite + 1);
      accepted := accepted + [ch];
    }

    /** piperead() of up to `n` bytes in thread `me`, whose destination takes `room` bytes: delivers the oldest bytes in
        order, or sleeps if there are none and there may be more.  A byte that cannot be copied out is taken all the
        same, and lost.  Readers that a killed writer left asleep are owed nothing again once the pipe is empty. */
    method Read(me: nat, n: nat, room: nat, killed: bool) returns (out: Outcome, got: seq<nat>, ghost took: seq<nat>)
      requires Sound() && me !in writers && me !in readers
      modifies this, data
      ensures Sound() && data == old(data) && (Valid() <==> old(Valid()) || |accepted| == |delivered|)
      ensures accepted == old(accepted) && delivered == old(delivered) + took && readopen == old(readopen) &&
                writeopen == old(writeopen)
      ensures out == Done <==> |old(accepted)| > |old(delivered)| || !writeopen
      ensures out == Failed <==> out != Done && killed
      ensures out == Failed ==> unchanged(this)
      ensures out == Asleep ==> took == [] && readers == old(readers) + {me} && writers == old(writers)
      ensures out == Done ==> readers == old(readers) && writers == {}
      ensures out == Done ==> |took| == Min(Min(n, |accepted| - |old(delivered)|), room + 1)
      ensures got == took[..Min(|took|, room)]
    {
      hide Slot, Low32, Buffered;
      got, took := [], [];
      Bounds(data[..], accepted, |delivered|);
      TestsAreExact(|delivered|, |accepted|);
      if nread == nwrite && writeopen {
        if killed { return Failed, [], []; }
        readers := readers + {me};
        return Asleep, [], [];
      }
      while |got| < n
        invariant |got| <= n && |got| <= room && got == took && Fifo() && data == old(data)
        invariant accepted == old(accepted) && delivered == old(delivered) + took
        invariant readopen == old(readopen) && writeopen == old(writeopen) && readers == old(readers)
        decreases n - |got|
      {
        Bounds(data[..], accepted, |delivered|);
        TestsAreExact(|delivered|, |accepted|);
        if nread == nwrite { break; }
        var ch := GetByte();
        took := took + [ch];
        Bounds(data[..], accepted, |delivered|);
        if |got| >= room { break; }
        got := got + [ch];
      }
      Bounds(data[..], accepted, |delivered|);
      writers := {};
      out := Done;
    }

    /** ch = data[nread++ % PIPESIZE] */
    method GetByte() returns (ch: nat)
      requires Fifo() && |delivered| < |accepted|
      modifies this`nread, this`delivered
      ensures Fifo() && delivered == old(delivered) + [ch]
    {
      SlotWraps(|delivered|);
      ch := data[Slot(nread)];
      nread := Low32(nread + 1);
      delivered := delivered + [ch];
    }

    /** kkill() on a thread that may be asleep here: it is runnable, and next finds out that it is killed. */
    method Kill(me: nat)
      requires Sound()
      modifies this`readers, this`writers
      ensures Sound() && readers == old(readers) - {me} && writers == old(writers) - {me}
      ensures Valid() <==> old(Valid()) || old(readers) <= {me}
    {
      hide Slot, Low32, Buffered;
      readers := readers - {me};
      writers := writers - {me};
    }

    /** pipeclose(): the other side is woken; nobody uses the end that is closed. */
    method Close(writable: bool)
      requires Sound() && (if writable then writers == {} else readers == {})
      modifies this`readopen, this`writeopen, this`readers, this`writers
      ensures Valid()
      ensures if writable then !writeopen && readers == {} && readopen == old(readopen)
                else !readopen && writers == {} && writeopen == old(writeopen)
    {
      hide Slot, Low32, Buffered;
      if writable {
        writeopen := false;
        readers := {};
      } else {
        readopen := false;
        writers := {};
      }
    }
  }

  /** Where pipewrite() stops: at the end, at once if there is no reader end, where it is killed, where the pipe is
      full, or where it cannot copy. */
  function StopAt(n: nat, start: nat, supply: nat, killedAt: nat, fullAt: nat, readopen: bool): nat {
    if !readopen then start else Min(Min(n, Max(start, killedAt)), Min(fullAt, supply))
  }

  /** A reader asleep on an empty pipe, and a writer killed between its first byte and its second: the reader sleeps
      on. */
  method KilledWriter() returns (p: Pipe)
    ensures fresh(p) && fresh(p.data) && p.Sound() && !p.Valid() && p.readers == {0} && p.writers == {}
    ensures p.accepted == [7] && p.delivered == [] && p.writeopen
  {
    p := new Pipe();
    var out, got, took := p.Read(0, 1, 1, false);
    var i;
    out, i := p.Write(1, [7, 8], 0, 2, 1);
  }

  /** Then another reader takes the byte, the sleeper is killed in turn, and its call returns -1. */
  method StrandedReader() returns (p: Pipe, out: Outcome)
    ensures fresh(p) && p.Valid() && p.readers == {} && p.delivered == [7] && out == Failed
  {
    p := KilledWriter();
    var got;
    ghost var took;
    out, got, took := p.Read(2, 1, 1, false);
    p.Kill(0);
    out, got, took := p.Read(0, 1, 1, true);
  }

  lemma Bounds(data: seq<nat>, accepted: seq<nat>, r: nat)
    requires Buffered(data, accepted, r)
    ensures |data| == PIPESIZE && r <= |accepted| <= r + PIPESIZE
  {}
}
