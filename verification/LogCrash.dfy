/** The redo log of kernel/log.c: commit, installation and recovery, and what a crash
    between any two block writes leaves behind.

    A block is 256 words of 32 bits, as the log header struct sees it.  The disk writes
    one block at a time, and a crash keeps exactly the writes made so far.  The buffer
    cache sits between the log and the disk and is lost in a crash. */
module LogCrash {
  import opened Params

  const WORDS: nat := 256      // BSIZE / sizeof(int)

  type Block = b: seq<int> | |b| == WORDS witness seq(WORDS, _ => 0)

  /** One block write. */
  datatype Write = Write(blockno: nat, data: Block)

  // ------------------------------------------------------ writes in order

  ghost predicate InDisk(size: nat, ws: seq<Write>) {
    forall i :: 0 <= i < |ws| ==> ws[i].blockno < size
  }

  /** The disk after the writes `ws`, first to last. */
  ghost function Applied(d: seq<Block>, ws: seq<Write>): (r: seq<Block>)
    requires InDisk(|d|, ws)
    ensures |r| == |d|
  {
    if ws == [] then d
    else Applied(d, ws[..|ws| - 1])[ws[|ws| - 1].blockno := ws[|ws| - 1].data]
  }

  lemma {:induction false} AppliedConcat(d: seq<Block>, a: seq<Write>, b: seq<Write>)
    requires InDisk(|d|, a) && InDisk(|d|, b)
    ensures InDisk(|d|, a + b) && Applied(d, a + b) == Applied(Applied(d, a), b)
  {
    if b == [] {
      assert a + b == a;
    } else {
      assert (a + b)[..|a + b| - 1] == a + b[..|b| - 1];
      AppliedConcat(d, a, b[..|b| - 1]);
    }
  }

  /** The block numbers written, each once, in order of first write: what log_write records. */
  ghost function Logged(ws: seq<Write>): (lh: seq<nat>)
    ensures forall i, j :: 0 <= i < j < |lh| ==> lh[i] != lh[j]
    ensures |lh| <= |ws|
  {
    if ws == [] then [] else
      var lh, b := Logged(ws[..|ws| - 1]), ws[|ws| - 1].blockno;
      if b in lh then lh else lh + [b]
  }

  /** The last contents written to a block. */
  ghost function Latest(ws: seq<Write>, b: nat): Block
    requires b in Logged(ws)
  {
    if ws[|ws| - 1].blockno == b then ws[|ws| - 1].data else Latest(ws[..|ws| - 1], b)
  }

  lemma {:induction false} LoggedIsWritten(size: nat, ws: seq<Write>)
    requires InDisk(size, ws)
    ensures forall b :: b in Logged(ws) ==> b < size
  {
    if ws != [] {
      LoggedIsWritten(size, ws[..|ws| - 1]);
    }
  }

  /** Absorption is sound: the last write to each block decides its contents. */
  lemma {:induction false} AppliedAt(d: seq<Block>, ws: seq<Write>, b: nat)
    requires InDisk(|d|, ws) && b < |d|
    ensures Applied(d, ws)[b] == if b in Logged(ws) then Latest(ws, b) else d[b]
  {
    if ws != [] {
      AppliedAt(d, ws[..|ws| - 1], b);
    }
  }

  // -------------------------------------------------------- the log on disk

  /** Block `b` belongs to the log that starts at `start`: its header or one of its slots. */
  ghost predicate InLog(start: nat, b: nat) { start <= b <= start + LOGBLOCKS }

  ghost predicate Homes(start: nat, size: nat, lh: seq<nat>) {
    && |lh| <= LOGBLOCKS
    && (forall i :: 0 <= i < |lh| ==> lh[i] < size && !InLog(start, lh[i]))
    && (forall i, j :: 0 <= i < j < |lh| ==> lh[i] != lh[j])
  }

  /** write_head's header block: n and the first n entries are overwritten, the rest stays. */
  function WithHeader(b: Block, lh: seq<nat>): Block
    requires |lh| <= LOGBLOCKS
  {
    seq(WORDS, i requires 0 <= i < WORDS => if i == 0 then |lh| else if i <= |lh| then lh[i - 1] else b[i])
  }

  ghost predicate IsHeader(start: nat, size: nat, b: Block) {
    && 0 <= b[0] <= LOGBLOCKS
    && (forall i :: 1 <= i <= b[0] ==> b[i] >= 0)
    && Homes(start, size, HeaderOf(b))
  }

  /** read_head's result. */
  ghost function HeaderOf(b: Block): (lh: seq<nat>)
    requires 0 <= b[0] <= LOGBLOCKS && forall i :: 1 <= i <= b[0] ==> b[i] >= 0
    ensures |lh| == b[0]
  {
    seq(b[0], i requires 0 <= i < b[0] => b[i + 1])
  }

  lemma HeaderRoundTrip(start: nat, size: nat, b: Block, lh: seq<nat>)
    requires Homes(start, size, lh)
    ensures IsHeader(start, size, WithHeader(b, lh)) && HeaderOf(WithHeader(b, lh)) == lh
  {
    assert HeaderOf(WithHeader(b, lh)) == lh;
  }

  /** Room for the log, and a well-formed header in it. */
  ghost predicate LogDisk(start: nat, d: seq<Block>) {
    && start + LOGBLOCKS < |d|
    && IsHeader(start, |d|, d[start])
  }

  ghost function Head(start: nat, d: seq<Block>): seq<nat>
    requires LogDisk(start, d)
  {
    HeaderOf(d[start])
  }

  ghost function Slots(start: nat, d: seq<Block>, n: nat): seq<Block>
    requires start + n < |d|
  {
    seq(n, i requires 0 <= i < n => d[start + 1 + i])
  }

  // ------------------------------------ what commit and recovery write, in order

  ghost function LogWrites(start: nat, datas: seq<Block>): seq<Write> {
    seq(|datas|, i requires 0 <= i < |datas| => Write(start + 1 + i, datas[i]))
  }

  ghost function HomeWrites(lh: seq<nat>, datas: seq<Block>): seq<Write>
    requires |lh| == |datas|
  {
    seq(|lh|, i requires 0 <= i < |lh| => Write(lh[i], datas[i]))
  }

  /** commit(): the log blocks, the header, the home blocks, the cleared header. */
  ghost function CommitWrites(start: nat, head: Block, lh: seq<nat>, datas: seq<Block>): seq<Write>
    requires |lh| == |datas| && |lh| <= LOGBLOCKS
  {
    if lh == [] then [] else
      LogWrites(start, datas)
      + [Write(start, WithHeader(head, lh))]
      + HomeWrites(lh, datas)
      + [Write(start, WithHeader(WithHeader(head, lh), []))]
  }

  /** recover_from_log(): the home blocks of the header found on disk, then the cleared header. */
  ghost function RecoverWrites(start: nat, d: seq<Block>): seq<Write>
    requires LogDisk(start, d)
  {
    HomeWrites(Head(start, d), Slots(start, d, |Head(start, d)|))
    + [Write(start, WithHeader(d[start], []))]
  }

  // --------------------------------------------------- what a log disk means

  ghost predicate SameHome(start: nat, x: seq<Block>, y: seq<Block>) {
    |x| == |y| && forall b :: 0 <= b < |x| && !InLog(start, b) ==> x[b] == y[b]
  }

  ghost function Installed(start: nat, d: seq<Block>, lh: seq<nat>, datas: seq<Block>): seq<Block>
    requires Homes(start, |d|, lh) && |lh| == |datas|
  {
    Applied(d, HomeWrites(lh, datas))
  }

  /** The contents a log disk stands for: its home blocks with a committed log installed. */
  ghost function Meaning(start: nat, d: seq<Block>): seq<Block>
    requires LogDisk(start, d)
  {
    Installed(start, d, Head(start, d), Slots(start, d, |Head(start, d)|))
  }

  lemma {:induction false} HomeWritesAt(start: nat, d: seq<Block>, lh: seq<nat>, datas: seq<Block>, k: nat)
    requires Homes(start, |d|, lh) && |lh| == |datas| && k <= |lh|
    ensures InDisk(|d|, HomeWrites(lh, datas)[..k])
    ensures var r := Applied(d, HomeWrites(lh, datas)[..k]);
            && (forall i :: 0 <= i < k ==> r[lh[i]] == datas[i])
            && (forall b :: 0 <= b < |d| && b !in lh[..k] ==> r[b] == d[b])
  {
    var ws := HomeWrites(lh, datas)[..k];
    if k > 0 {
      assert ws[..k - 1] == HomeWrites(lh, datas)[..k - 1];
      HomeWritesAt(start, d, lh, datas, k - 1);
    }
  }

  lemma {:induction false} LogWritesAt(start: nat, d: seq<Block>, datas: seq<Block>, k: nat)
    requires start + |datas| < |d| && k <= |datas|
    ensures InDisk(|d|, LogWrites(start, datas)[..k])
    ensures var r := Applied(d, LogWrites(start, datas)[..k]);
            && (forall i :: 0 <= i < k ==> r[start + 1 + i] == datas[i])
            && (forall b :: 0 <= b < |d| && !(start < b <= start + k) ==> r[b] == d[b])
  {
    var ws := LogWrites(start, datas)[..k];
    if k > 0 {
      assert ws[..k - 1] == LogWrites(start, datas)[..k - 1];
      LogWritesAt(start, d, datas, k - 1);
    }
  }

  lemma InstalledAt(start: nat, d: seq<Block>, lh: seq<nat>, datas: seq<Block>)
    requires Homes(start, |d|, lh) && |lh| == |datas|
    ensures var r := Installed(start, d, lh, datas);
            && (forall i :: 0 <= i < |lh| ==> r[lh[i]] == datas[i])
            && (forall b :: 0 <= b < |d| && b !in lh ==> r[b] == d[b])
  {
    HomeWritesAt(start, d, lh, datas, |lh|);
    assert HomeWrites(lh, datas)[..|lh|] == HomeWrites(lh, datas);
    assert lh[..|lh|] == lh;
  }

  /** Installing again over a partly installed disk gives the same home blocks. */
  lemma InstalledAgain(start: nat, x: seq<Block>, y: seq<Block>, lh: seq<nat>, datas: seq<Block>)
    requires |x| == |y| && Homes(start, |x|, lh) && |lh| == |datas|
    requires forall b :: 0 <= b < |x| && !InLog(start, b) && b !in lh ==> x[b] == y[b]
    ensures SameHome(start, Installed(start, x, lh, datas), Installed(start, y, lh, datas))
  {
    InstalledAt(start, x, lh, datas);
    InstalledAt(start, y, lh, datas);
  }

  lemma MeaningClear(start: nat, d: seq<Block>)
    requires LogDisk(start, d) && Head(start, d) == []
    ensures Meaning(start, d) == d
  {
    assert HomeWrites([], []) == [];
  }

  lemma ClearedHeader(start: nat, d: seq<Block>)
    requires LogDisk(start, d)
    ensures var e := d[start := WithHeader(d[start], [])];
            LogDisk(start, e) && Head(start, e) == [] && Meaning(start, e) == e && SameHome(start, d, e)
  {
    HeaderRoundTrip(start, |d|, d[start], []);
    MeaningClear(start, d[start := WithHeader(d[start], [])]);
  }

  // ------------------------------------------------------------- recovery

  /** After the first j blocks are installed the disk still means the same. */
  lemma RecoveryPart(start: nat, d: seq<Block>, j: nat)
    requires LogDisk(start, d) && j <= |Head(start, d)|
    ensures var ws := HomeWrites(Head(start, d), Slots(start, d, |Head(start, d)|))[..j];
            && InDisk(|d|, ws)
            && var e := Applied(d, ws);
                LogDisk(start, e) && e[start] == d[start] && SameHome(start, Meaning(start, e), Meaning(start, d))
  {
    hide Applied, WithHeader, HeaderOf;
    var lh := Head(start, d);
    var datas := Slots(start, d, |lh|);
    HomeWritesAt(start, d, lh, datas, j);
    var e := Applied(d, HomeWrites(lh, datas)[..j]);
    assert Slots(start, e, |lh|) == datas;
    InstalledAgain(start, e, d, lh, datas);
  }

  /** Recovery cut off after any number of its writes loses nothing: the disk means the same. */
  lemma RecoveryCrash(start: nat, d: seq<Block>, k: nat)
    requires LogDisk(start, d) && k <= |RecoverWrites(start, d)|
    ensures InDisk(|d|, RecoverWrites(start, d)[..k])
    ensures var e := Applied(d, RecoverWrites(start, d)[..k]);
            && LogDisk(start, e)
            && SameHome(start, Meaning(start, e), Meaning(start, d))
            && (k == |RecoverWrites(start, d)| ==> Head(start, e) == [])
  {
    hide Applied, WithHeader, HeaderOf, Meaning, SameHome, Homes;
    var lh := Head(start, d);
    var ws := HomeWrites(lh, Slots(start, d, |lh|));
    if k <= |lh| {
      assert RecoverWrites(start, d)[..k] == ws[..k];
      RecoveryPart(start, d, k);
    } else {
      RecoveryPart(start, d, |lh|);
      assert ws[..|lh|] == ws;
      var w := Write(start, WithHeader(d[start], []));
      assert RecoverWrites(start, d)[..k] == ws + [w];
      AppliedOne(d, ws, w);
      RecoveryDone(start, d, Applied(d, ws));
    }
  }

  lemma RecoveryDone(start: nat, d: seq<Block>, e: seq<Block>)
    requires LogDisk(start, d)
    requires var lh := Head(start, d); e == Applied(d, HomeWrites(lh, Slots(start, d, |lh|)))
    ensures e[start] == d[start] && |e| == |d|
    ensures var f := e[start := WithHeader(d[start], [])];
            LogDisk(start, f) && Head(start, f) == [] && SameHome(start, Meaning(start, f), Meaning(start, d))
  {
    var lh := Head(start, d);
    InstalledAt(start, d, lh, Slots(start, d, |lh|));
    ClearedHeader(start, e);
  }

  // --------------------------------------------------------------- commit

  /** A transaction as commit() finds it: distinct home blocks and their cached contents. */
  ghost predicate Ready(start: nat, d: seq<Block>, lh: seq<nat>, datas: seq<Block>) {
    && LogDisk(start, d) && Head(start, d) == []
    && Homes(start, |d|, lh) && |lh| == |datas|
  }

  /** The disk just after write_log() and the first write_head(). */
  ghost function Committed(start: nat, d: seq<Block>, lh: seq<nat>, datas: seq<Block>): (e: seq<Block>)
    requires Ready(start, d, lh, datas)
    ensures |e| == |d|
  {
    LogWritesAt(start, d, datas, |datas|);
    assert LogWrites(start, datas)[..|datas|] == LogWrites(start, datas);
    Applied(d, LogWrites(start, datas))[start := WithHeader(d[start], lh)]
  }

  /** The first header write is the commit point: from then on the disk means the new contents. */
  lemma CommittedMeans(start: nat, d: seq<Block>, lh: seq<nat>, datas: seq<Block>)
    requires Ready(start, d, lh, datas)
    ensures var e := Committed(start, d, lh, datas);
            && LogDisk(start, e) && Head(start, e) == lh && Slots(start, e, |lh|) == datas
            && SameHome(start, e, d)
            && SameHome(start, Meaning(start, e), Installed(start, d, lh, datas))
  {
    LogWritesAt(start, d, datas, |datas|);
    assert LogWrites(start, datas)[..|datas|] == LogWrites(start, datas);
    HeaderRoundTrip(start, |d|, d[start], lh);
    var e := Committed(start, d, lh, datas);
    assert Slots(start, e, |lh|) == datas;
    InstalledAgain(start, e, d, lh, datas);
  }

  /** Before the first header write the disk still means the old contents. */
  lemma CommitBefore(start: nat, d: seq<Block>, lh: seq<nat>, datas: seq<Block>, k: nat)
    requires Ready(start, d, lh, datas) && k <= |lh|
    ensures InDisk(|d|, CommitWrites(start, d[start], lh, datas)[..k])
    ensures var e := Applied(d, CommitWrites(start, d[start], lh, datas)[..k]);
            LogDisk(start, e) && Head(start, e) == [] && SameHome(start, Meaning(start, e), d)
  {
    LogWritesAt(start, d, datas, k);
    assert CommitWrites(start, d[start], lh, datas)[..k] == LogWrites(start, datas)[..k];
    var e := Applied(d, CommitWrites(start, d[start], lh, datas)[..k]);
    assert e[start] == d[start];
    MeaningClear(start, e);
  }

  ghost function UpToHeader(start: nat, head: Block, lh: seq<nat>, datas: seq<Block>): seq<Write>
    requires |lh| <= LOGBLOCKS
  {
    LogWrites(start, datas) + [Write(start, WithHeader(head, lh))]
  }

  lemma UpToHeaderApplied(start: nat, d: seq<Block>, lh: seq<nat>, datas: seq<Block>)
    requires Ready(start, d, lh, datas)
    ensures InDisk(|d|, UpToHeader(start, d[start], lh, datas))
    ensures |UpToHeader(start, d[start], lh, datas)| == |lh| + 1
    ensures Applied(d, UpToHeader(start, d[start], lh, datas)) == Committed(start, d, lh, datas)
  {
    LogWritesAt(start, d, datas, |datas|);
    assert LogWrites(start, datas)[..|datas|] == LogWrites(start, datas);
    var first := UpToHeader(start, d[start], lh, datas);
    assert first[..|first| - 1] == LogWrites(start, datas);
  }

  /** From the first header write on, commit() writes exactly what recovery would. */
  lemma CommitAsRecovery(start: nat, d: seq<Block>, lh: seq<nat>, datas: seq<Block>)
    requires Ready(start, d, lh, datas) && lh != []
    ensures LogDisk(start, Committed(start, d, lh, datas))
    ensures CommitWrites(start, d[start], lh, datas)
            == UpToHeader(start, d[start], lh, datas) + RecoverWrites(start, Committed(start, d, lh, datas))
    ensures |RecoverWrites(start, Committed(start, d, lh, datas))| == |lh| + 1
  {
    CommittedMeans(start, d, lh, datas);
    assert Committed(start, d, lh, datas)[start] == WithHeader(d[start], lh);
  }

  lemma CommitAfter(start: nat, d: seq<Block>, lh: seq<nat>, datas: seq<Block>, j: nat)
    requires Ready(start, d, lh, datas) && lh != [] && j <= |lh| + 1
    ensures LogDisk(start, Committed(start, d, lh, datas))
    ensures var ws := CommitWrites(start, d[start], lh, datas)[..|lh| + 1 + j];
            var rs := RecoverWrites(start, Committed(start, d, lh, datas));
            && |rs| == |lh| + 1 && InDisk(|d|, ws) && InDisk(|d|, rs[..j])
            && Applied(d, ws) == Applied(Committed(start, d, lh, datas), rs[..j])
  {
    hide Applied, CommitWrites, RecoverWrites, UpToHeader, Committed, LogDisk, Meaning, SameHome;
    CommitAsRecovery(start, d, lh, datas);
    UpToHeaderApplied(start, d, lh, datas);
    var e := Committed(start, d, lh, datas);
    var first, rs := UpToHeader(start, d[start], lh, datas), RecoverWrites(start, e);
    RecoveryCrash(start, e, j);
    assert (first + rs)[..|first| + j] == first + rs[..j];
    AppliedConcat(d, first, rs[..j]);
  }

  lemma CommitLength(start: nat, head: Block, lh: seq<nat>, datas: seq<Block>)
    requires |lh| == |datas| && |lh| <= LOGBLOCKS
    ensures |CommitWrites(start, head, lh, datas)| == if lh == [] then 0 else 2 * |lh| + 2
  {}

  /** A crash anywhere in commit() leaves all of the transaction or none of it,
      and which one depends only on whether the first header write reached the disk. */
  lemma CommitCrash(start: nat, d: seq<Block>, lh: seq<nat>, datas: seq<Block>, k: nat)
    requires Ready(start, d, lh, datas) && k <= |CommitWrites(start, d[start], lh, datas)|
    ensures InDisk(|d|, CommitWrites(start, d[start], lh, datas)[..k])
    ensures var ws := CommitWrites(start, d[start], lh, datas);
            var e := Applied(d, ws[..k]);
            && LogDisk(start, e)
            && SameHome(start, Meaning(start, e), if k <= |lh| then d else Installed(start, d, lh, datas))
            && (k == |ws| ==> Head(start, e) == [])
  {
    hide Applied, CommitWrites, RecoverWrites, Committed, Meaning, Installed, IsHeader, InDisk, Head;
    CommitLength(start, d[start], lh, datas);
    if k <= |lh| {
      CommitBefore(start, d, lh, datas, k);
    } else {
      CommittedMeans(start, d, lh, datas);
      CommitAfter(start, d, lh, datas, k - |lh| - 1);
      RecoveryCrash(start, Committed(start, d, lh, datas), k - |lh| - 1);
    }
  }

  // ----------------------------------------------------------- whole runs

  /** The block updates of one group commit: home blocks only, and few enough for the log. */
  ghost predicate Transaction(start: nat, size: nat, ws: seq<Write>) {
    && (forall i :: 0 <= i < |ws| ==> ws[i].blockno < size && !InLog(start, ws[i].blockno))
    && |Logged(ws)| <= LOGBLOCKS
  }

  ghost function Contents(ws: seq<Write>): seq<Block> {
    seq(|Logged(ws)|, i requires 0 <= i < |Logged(ws)| => Latest(ws, Logged(ws)[i]))
  }

  lemma {:induction false} LoggedHomes(start: nat, size: nat, ws: seq<Write>)
    requires forall i :: 0 <= i < |ws| ==> ws[i].blockno < size && !InLog(start, ws[i].blockno)
    ensures forall b :: b in Logged(ws) ==> b < size && !InLog(start, b)
  {
    if ws != [] {
      LoggedHomes(start, size, ws[..|ws| - 1]);
    }
  }

  /** Installing the logged blocks equals making every update of the transaction in order. */
  lemma InstalledIsApplied(start: nat, d: seq<Block>, ws: seq<Write>)
    requires Transaction(start, |d|, ws)
    ensures InDisk(|d|, ws) && Homes(start, |d|, Logged(ws))
    ensures Installed(start, d, Logged(ws), Contents(ws)) == Applied(d, ws)
  {
    LoggedHomes(start, |d|, ws);
    var lh := Logged(ws);
    forall i | 0 <= i < |lh|
      ensures lh[i] < |d| && !InLog(start, lh[i])
    {
      assert lh[i] in Logged(ws);
    }
    InstalledAt(start, d, lh, Contents(ws));
    var r := Installed(start, d, lh, Contents(ws));
    forall b | 0 <= b < |d| ensures r[b] == Applied(d, ws)[b] {
      AppliedAt(d, ws, b);
      if b in lh {
        var i :| 0 <= i < |lh| && lh[i] == b;
        assert r[lh[i]] == Contents(ws)[i];
      }
    }
  }

  /** A commit of which the first `k` block writes reach the disk, or a restart whose
      recovery makes `k` block writes before the power fails again. */
  datatype Event = Commit(ws: seq<Write>, k: nat) | Restart(k: nat)

  datatype Machine = Machine(disk: seq<Block>, up: bool)

  ghost predicate Enabled(start: nat, m: Machine, ev: Event) {
    && LogDisk(start, m.disk)
    && match ev
       case Commit(ws, k) =>
         && m.up && Transaction(start, |m.disk|, ws)
         && k <= |CommitWrites(start, m.disk[start], Logged(ws), Contents(ws))|
       case Restart(k) => k <= |RecoverWrites(start, m.disk)|
  }

  /** What reaches the disk; the machine stays up only if nothing was cut off. */
  ghost function Happens(start: nat, m: Machine, ev: Event): seq<Write>
    requires Enabled(start, m, ev)
  {
    match ev
    case Commit(ws, k) => CommitWrites(start, m.disk[start], Logged(ws), Contents(ws))[..k]
    case Restart(k) => RecoverWrites(start, m.disk)[..k]
  }

  ghost predicate Complete(start: nat, m: Machine, ev: Event)
    requires Enabled(start, m, ev)
  {
    match ev
    case Commit(ws, k) => k == |CommitWrites(start, m.disk[start], Logged(ws), Contents(ws))|
    case Restart(k) => k == |RecoverWrites(start, m.disk)|
  }

  ghost predicate Step(start: nat, m: Machine, ev: Event, m': Machine) {
    && Enabled(start, m, ev)
    && InDisk(|m.disk|, Happens(start, m, ev))
    && m'.disk == Applied(m.disk, Happens(start, m, ev))
    && m'.up == Complete(start, m, ev)
  }

  /** Did the first header write of this commit reach the disk? */
  ghost predicate Lasting(ev: Event) { ev.Commit? && ev.k > |Logged(ev.ws)| }

  /** The intended contents: each lasting transaction applied in full, every other one not at all. */
  ghost function Intended(h: seq<Block>, evs: seq<Event>): (r: seq<Block>)
    requires forall i :: 0 <= i < |evs| && evs[i].Commit? ==> InDisk(|h|, evs[i].ws)
    ensures |r| == |h|
  {
    if evs == [] then h else
      var last := evs[|evs| - 1];
      var before := Intended(h, evs[..|evs| - 1]);
      if Lasting(last) then Applied(before, last.ws) else before
  }

  ghost predicate Run(start: nat, ms: seq<Machine>, evs: seq<Event>) {
    && |ms| == |evs| + 1
    && forall i :: 0 <= i < |evs| ==> Step(start, ms[i], evs[i], ms[i + 1])
  }

  ghost predicate Tracks(start: nat, m: Machine, h: seq<Block>) {
    && LogDisk(start, m.disk)
    && SameHome(start, Meaning(start, m.disk), h)
    && (m.up ==> Head(start, m.disk) == [])
  }

  lemma {:induction false} AppliedSameHome(start: nat, x: seq<Block>, y: seq<Block>, ws: seq<Write>)
    requires SameHome(start, x, y) && InDisk(|x|, ws)
    ensures SameHome(start, Applied(x, ws), Applied(y, ws))
  {
    if ws != [] {
      AppliedSameHome(start, x, y, ws[..|ws| - 1]);
    }
  }

  lemma StepTracks(start: nat, m: Machine, ev: Event, m': Machine, h: seq<Block>)
    requires Step(start, m, ev, m') && Tracks(start, m, h)
    requires ev.Commit? ==> InDisk(|h|, ev.ws)
    ensures Tracks(start, m', if Lasting(ev) then Applied(h, ev.ws) else h)
  {
    match ev
    case Restart(k) =>
      RecoveryCrash(start, m.disk, k);
    case Commit(ws, k) =>
      InstalledIsApplied(start, m.disk, ws);
      MeaningClear(start, m.disk);
      CommitCrash(start, m.disk, Logged(ws), Contents(ws), k);
      AppliedSameHome(start, m.disk, h, ws);
  }

  lemma {:induction false} RunInDisk(start: nat, ms: seq<Machine>, evs: seq<Event>)
    requires Run(start, ms, evs)
    ensures |ms[|evs|].disk| == |ms[0].disk|
    ensures forall i :: 0 <= i < |evs| && evs[i].Commit? ==> InDisk(|ms[0].disk|, evs[i].ws)
  {
    var n := |evs|;
    if n > 0 {
      RunInDisk(start, ms[..n], evs[..n - 1]);
      assert Step(start, ms[n - 1], evs[n - 1], ms[n]);
      assert forall i :: 0 <= i < n - 1 ==> evs[i] == evs[..n - 1][i];
    }
  }

  /** Crash atomicity: over any run of commits and restarts, each cut off at any block write,
      the disk always stands for exactly the lasting transactions; once a restart has run to
      its end the home blocks themselves hold them. */
  lemma {:induction false} CrashAtomic(start: nat, ms: seq<Machine>, evs: seq<Event>)
    requires Run(start, ms, evs)
    requires LogDisk(start, ms[0].disk) && Head(start, ms[0].disk) == []
    ensures forall i :: 0 <= i < |evs| && evs[i].Commit? ==> InDisk(|ms[0].disk|, evs[i].ws)
    ensures Tracks(start, ms[|evs|], Intended(ms[0].disk, evs))
    ensures ms[|evs|].up ==> SameHome(start, ms[|evs|].disk, Intended(ms[0].disk, evs))
  {
    hide Applied, Meaning, LogDisk, InDisk, Head, Enabled, Happens, Complete;
    RunInDisk(start, ms, evs);
    var n := |evs|;
    if n == 0 {
      MeaningClear(start, ms[0].disk);
    } else {
      CrashAtomic(start, ms[..n], evs[..n - 1]);
      StepTracks(start, ms[n - 1], evs[n - 1], ms[n], Intended(ms[0].disk, evs[..n - 1]));
      if ms[n].up {
        MeaningClear(start, ms[n].disk);
      }
    }
  }

  lemma AppliedOne(d: seq<Block>, ws: seq<Write>, w: Write)
    requires InDisk(|d|, ws) && w.blockno < |d|
    ensures InDisk(|d|, ws + [w]) && Applied(d, ws + [w]) == Applied(d, ws)[w.blockno := w.data]
  {
    assert (ws + [w])[..|ws|] == ws;
  }

  lemma NoneApplied(d: seq<Block>, ws: seq<Write>)
    ensures ws[..0] == [] && InDisk(|d|, ws[..0]) && Applied(d, ws[..0]) == d
  {}

  /** The first k writes, and one more. */
  lemma AppliedNext(d: seq<Block>, ws: seq<Write>, k: nat)
    requires k < |ws| && InDisk(|d|, ws[..k]) && ws[k].blockno < |d|
    ensures ws[..k + 1] == ws[..k] + [ws[k]] && InDisk(|d|, ws[..k + 1])
    ensures Applied(d, ws[..k + 1]) == Applied(d, ws[..k])[ws[k].blockno := ws[k].data]
  {
    assert ws[..k + 1] == ws[..k] + [ws[k]];
    AppliedOne(d, ws[..k], ws[k]);
  }

  lemma SlotIs(start: nat, d: seq<Block>, n: nat, k: nat)
    requires start + n < |d| && k < n
    ensures Slots(start, d, n)[k] == d[start + k + 1]
  {}

  /** Log blocks are nobody's home. */
  lemma NotOpen(start: nat, size: nat, lh: seq<nat>, tail: nat, b: nat)
    requires Homes(start, size, lh) && tail <= |lh| && InLog(start, b)
    ensures b !in lh[tail..]
  {}

  lemma CommittedIs(start: nat, d: seq<Block>, lh: seq<nat>, datas: seq<Block>)
    requires Ready(start, d, lh, datas)
    ensures InDisk(|d|, LogWrites(start, datas))
    ensures Applied(d, LogWrites(start, datas))[start] == d[start]
    ensures Committed(start, d, lh, datas) == Applied(d, LogWrites(start, datas))[start := WithHeader(d[start], lh)]
    ensures Committed(start, d, lh, datas)[start] == WithHeader(d[start], lh)
  {
    LogWritesAt(start, d, datas, |datas|);
    assert LogWrites(start, datas)[..|datas|] == LogWrites(start, datas);
  }

  lemma CommitWritesIs(start: nat, head: Block, lh: seq<nat>, datas: seq<Block>, before: seq<Write>)
    requires |lh| == |datas| && |lh| <= LOGBLOCKS && lh != []
    ensures before + LogWrites(start, datas) + [Write(start, WithHeader(head, lh))]
              + HomeWrites(lh, datas) + [Write(start, WithHeader(WithHeader(head, lh), []))]
            == before + CommitWrites(start, head, lh, datas)
  {}

  lemma EmptyInstalled(start: nat, d: seq<Block>)
    requires |d| > 0
    ensures Homes(start, |d|, []) && Installed(start, d, [], []) == d
  {
    assert HomeWrites([], []) == [];
  }

  lemma ClearedMeans(start: nat, d: seq<Block>, lh: seq<nat>, datas: seq<Block>, e: seq<Block>, f: seq<Block>)
    requires Ready(start, d, lh, datas)
    requires var c := Committed(start, d, lh, datas);
             && LogDisk(start, c) && Head(start, c) == lh && Slots(start, c, |lh|) == datas
             && SameHome(start, Meaning(start, c), Installed(start, d, lh, datas))
             && InDisk(|c|, HomeWrites(lh, datas)) && e == Applied(c, HomeWrites(lh, datas))
             && f == e[start := WithHeader(c[start], [])]
    ensures LogDisk(start, f) && Head(start, f) == [] && SameHome(start, f, Installed(start, d, lh, datas))
  {
    RecoveryDone(start, Committed(start, d, lh, datas), e);
    MeaningClear(start, f);
  }

  // -------------------------------------------------------- the log itself

  /** Cached blocks equal their disk copies except those of the open transaction,
      which stay cached (pinned) with the transaction's latest contents. */
  ghost predicate Coherent(cache: map<nat, Block>, disk: seq<Block>, lh: seq<nat>, pending: seq<Write>) {
    && (forall b :: b in cache ==> b < |disk|)
    && (forall b :: b in cache && b !in lh ==> cache[b] == disk[b])
    && (forall b :: b in lh ==> b in cache && b in Logged(pending) && cache[b] == Latest(pending, b))
  }

  lemma LoggedMore(ws: seq<Write>, b: nat, data: Block)
    ensures Logged(ws + [Write(b, data)]) == if b in Logged(ws) then Logged(ws) else Logged(ws) + [b]
    ensures forall c :: c in Logged(ws + [Write(b, data)]) ==>
              Latest(ws + [Write(b, data)], c) == if c == b then data else Latest(ws, c)
  {
    var ws' := ws + [Write(b, data)];
    assert ws'[..|ws'| - 1] == ws;
  }

  lemma TransactionMore(start: nat, size: nat, ws: seq<Write>, b: nat, data: Block)
    requires Transaction(start, size, ws) && b < size && !InLog(start, b) && |Logged(ws)| < LOGBLOCKS
    ensures Transaction(start, size, ws + [Write(b, data)])
  {
    LoggedMore(ws, b, data);
  }

  /** log_write() keeps the cache coherent. */
  lemma CoherentMore(cache: map<nat, Block>, disk: seq<Block>, pending: seq<Write>, b: nat, data: Block)
    requires Coherent(cache, disk, Logged(pending), pending) && b < |disk|
    ensures var pending' := pending + [Write(b, data)]; Coherent(cache[b := data], disk, Logged(pending'), pending')
  {
    hide Logged, Latest;
    LoggedMore(pending, b, data);
    var lh, lh' := Logged(pending), Logged(pending + [Write(b, data)]);
    forall c: nat
      ensures c in lh' <==> c == b || c in lh
    {}
  }

  class Log {
    const start: nat
    var disk: seq<Block>
    var cache: map<nat, Block>
    var lh: seq<nat>              // log.lh.block[0 .. log.lh.n)

    ghost const origin: seq<Block> // the disk this machine came up with
    ghost var written: seq<Write> // every block write so far, in order
    ghost var pending: seq<Write> // the log_writes since the last commit

    /** What a reader sees: the cached copy if there is one, else the disk. */
    ghost function Seen(b: nat): Block
      reads this
      requires b < |disk|
    {
      if b in cache then cache[b] else disk[b]
    }

    ghost predicate Valid()
      reads this
    {
      && LogDisk(start, disk) && Head(start, disk) == []
      && Transaction(start, |disk|, pending)
      && lh == Logged(pending)
      && Coherent(cache, disk, lh, pending)
    }

    /** The disk is the original disk after exactly the recorded writes, in their order:
        a crash after the first k of them leaves Applied(origin, written[..k]). */
    ghost predicate Replay()
      reads this`disk, this`written
    {
      InDisk(|origin|, written) && disk == Applied(origin, written)
    }

    /** A machine that comes up after a crash: a disk and nothing else. */
    constructor Boot(start: nat, disk: seq<Block>)
      requires LogDisk(start, disk)
      ensures this.start == start && this.disk == disk && cache == map[] && lh == []
      ensures written == [] && pending == [] && Replay()
    {
      this.start := start;
      origin := disk;
      this.disk := disk;
      cache, lh := map[], [];
      written, pending := [], [];
    }

    method Bread(b: nat) returns (data: Block)
      requires b < |disk|
      modifies this`cache
      ensures data == old(Seen(b))
      ensures cache == old(cache)[b := data]
    {
      if b !in cache {
        cache := cache[b := disk[b]];
      }
      data := cache[b];
    }

    method Bwrite(b: nat, data: Block)
      requires b < |disk| && Replay()
      modifies this`cache, this`disk, this`written
      ensures cache == old(cache)[b := data] && disk == old(disk)[b := data]
      ensures written == old(written) + [Write(b, data)] && Replay()
    {
      AppliedOne(origin, written, Write(b, data));
      cache := cache[b := data];
      disk := disk[b := data];
      written := written + [Write(b, data)];
    }

    /** The cache may drop any buffer that is not pinned. */
    method Evict(b: nat)
      requires Valid() && b !in lh
      modifies this`cache
      ensures Valid()
      ensures forall c :: 0 <= c < |disk| ==> Seen(c) == old(Seen(c))
    {
      cache := cache - {b};
    }

    /** log_write(): the caller has put `data` into the buffer of block `b`. */
    method LogWrite(b: nat, data: Block)
      requires Valid() && b < |disk| && !InLog(start, b)
      requires |lh| < LOGBLOCKS
      modifies this`cache, this`lh, this`pending
      ensures Valid() && pending == old(pending) + [Write(b, data)]
      ensures forall c :: 0 <= c < |disk| ==> Seen(c) == if c == b then data else old(Seen(c))
    {
      hide LogDisk, Head, Applied, Logged, Latest, Coherent, Transaction;
      CoherentMore(cache, disk, pending, b, data);
      TransactionMore(start, |disk|, pending, b, data);
      LoggedMore(pending, b, data);
      cache := cache[b := data];
      var i := 0;
      while i < |lh| && lh[i] != b
        invariant i <= |lh| && b !in lh[..i]
      {
        i := i + 1;
      }
      assert i == |lh| ==> lh[..i] == lh;
      if i == |lh| {
        lh := lh + [b];
      }
      pending := pending + [Write(b, data)];
    }

    /** Every cached block outside `open` equals its disk copy. */
    ghost predicate Clean(open: seq<nat>)
      reads this
    {
      && (forall b :: b in cache ==> b < |disk|)
      && (forall b :: b in cache && b !in open ==> cache[b] == disk[b])
    }

    /** One turn of write_log(): a cached block goes to a log slot. */
    method LogOne(from: nat, slot: nat, ghost open: seq<nat>)
      requires Replay() && from in cache && slot < |disk| && slot !in open && Clean(open)
      modifies this`cache, this`disk, this`written
      ensures Replay() && disk == old(disk)[slot := old(cache)[from]] &&
                written == old(written) + [Write(slot, old(cache)[from])]
      ensures Clean(open) && cache == old(cache)[slot := old(cache)[from]]
    {
      hide Replay;
      var data := Bread(from);
      Bwrite(slot, data);
    }

    /** write_log(): copy the transaction's cached blocks into the log slots. */
    method WriteLog(ghost datas: seq<Block>)
      requires Replay() && start + LOGBLOCKS < |disk| && Homes(start, |disk|, lh) && Clean(lh)
      requires |datas| == |lh| && forall i :: 0 <= i < |lh| ==> lh[i] in cache && cache[lh[i]] == datas[i]
      modifies this`cache, this`disk, this`written
      ensures Replay() && written == old(written) + LogWrites(start, datas)
      ensures InDisk(|old(disk)|, LogWrites(start, datas)) && disk == Applied(old(disk), LogWrites(start, datas))
      ensures Clean(lh) && forall i :: 0 <= i < |lh| ==> lh[i] in cache && cache[lh[i]] == datas[i]
    {
      hide Applied, Replay, Clean, InDisk;
      ghost var d := disk;
      ghost var ws := LogWrites(start, datas);
      NoneApplied(d, ws);
      var tail := 0;
      while tail < |lh|
        invariant tail <= |lh| && |disk| == |d| && Replay() && Clean(lh)
        invariant written == old(written) + ws[..tail]
        invariant InDisk(|d|, ws[..tail]) && disk == Applied(d, ws[..tail])
        invariant forall i :: 0 <= i < |lh| ==> lh[i] in cache && cache[lh[i]] == datas[i]
      {
        LogOne(lh[tail], start + tail + 1, lh);
        AppliedNext(d, ws, tail);
        tail := tail + 1;
      }
      assert ws[..tail] == ws;
    }

    /** write_head(): overwrite n and the first n entries of the header block. */
    method WriteHead()
      requires Replay() && start + LOGBLOCKS < |disk| && |lh| <= LOGBLOCKS
      requires start in cache ==> cache[start] == disk[start]
      modifies this`cache, this`disk, this`written
      ensures var w := Write(start, WithHeader(old(disk)[start], lh));
              && Replay() && written == old(written) + [w]
              && disk == old(disk)[start := w.data] && cache == old(cache)[start := w.data]
    {
      var hb := Bread(start);
      ghost var b := hb;
      hb := hb[0 := |lh|];
      var i := 0;
      while i < |lh|
        invariant i <= |lh|
        invariant forall k :: 0 <= k < WORDS ==>
                    hb[k] == if k == 0 then |lh| else if k <= i then lh[k - 1] else b[k]
      {
        hb := hb[i + 1 := lh[i]];
        i := i + 1;
      }
      assert hb == WithHeader(b, lh);
      Bwrite(start, hb);
    }

    /** One turn of install_trans(): a log slot goes to its home block, the first that is still open. */
    method InstallOne(slot: nat, home: nat, ghost open: seq<nat>)
      requires Replay() && slot < |disk| && home < |disk| && slot !in open && Clean(open) && open != [] &&
                 open[0] == home
      modifies this`cache, this`disk, this`written
      ensures Replay() && disk == old(disk)[home := old(disk)[slot]] &&
                written == old(written) + [Write(home, old(disk)[slot])]
      ensures Clean(open[1..])
    {
      hide Replay;
      var lbuf := Bread(slot);
      var dbuf := Bread(home);
      dbuf := lbuf;
      Bwrite(home, dbuf);
      assert open == [home] + open[1..];
    }

    /** install_trans(): copy every log slot to its home block. */
    method InstallTrans(ghost datas: seq<Block>)
      requires Replay() && start + LOGBLOCKS < |disk| && Homes(start, |disk|, lh) && Clean(lh)
      requires |datas| == |lh| && Slots(start, disk, |lh|) == datas
      modifies this`cache, this`disk, this`written
      ensures Replay() && written == old(written) + HomeWrites(lh, datas)
      ensures InDisk(|old(disk)|, HomeWrites(lh, datas)) && disk == Applied(old(disk), HomeWrites(lh, datas))
      ensures Clean([]) && disk[start] == old(disk[start])
    {
      hide Applied, Replay, Clean, InDisk;
      ghost var d := disk;
      ghost var ws := HomeWrites(lh, datas);
      NoneApplied(d, ws);
      var tail := 0;
      assert lh[0..] == lh;
      while tail < |lh|
        invariant tail <= |lh| && |disk| == |d| && Replay() && Clean(lh[tail..])
        invariant written == old(written) + ws[..tail]
        invariant InDisk(|d|, ws[..tail]) && disk == Applied(d, ws[..tail])
        invariant forall b :: 0 <= b < |d| && InLog(start, b) ==> disk[b] == d[b]
      {
        SlotIs(start, d, |lh|, tail);
        NotOpen(start, |d|, lh, tail, start + tail + 1);
        InstallOne(start + tail + 1, lh[tail], lh[tail..]);
        AppliedNext(d, ws, tail);
        assert lh[tail..][1..] == lh[tail + 1..];
        tail := tail + 1;
      }
      assert ws[..tail] == ws && lh[tail..] == [];
    }

    /** read_head(): load the header found on disk. */
    method ReadHead()
      requires LogDisk(start, disk) && cache == map[]
      modifies this`cache, this`lh
      ensures lh == Head(start, disk) && Homes(start, |disk|, lh) && cache == map[start := disk[start]]
    {
      var buf := Bread(start);
      var i := 0;
      lh := [];
      while i < buf[0]
        invariant 0 <= i <= buf[0] && |lh| == i && cache == map[start := disk[start]]
        invariant forall k :: 0 <= k < i ==> lh[k] == buf[k + 1]
      {
        lh := lh + [buf[i + 1]];
        i := i + 1;
      }
      assert lh == HeaderOf(buf);
    }

    /** recover_from_log(), on a machine that has just come up. */
    method RecoverFromLog()
      requires Replay() && LogDisk(start, disk) && cache == map[] && pending == []
      modifies this
      ensures Valid() && Replay() && pending == []
      ensures written == old(written) + RecoverWrites(start, old(disk))
      ensures SameHome(start, disk, Meaning(start, old(disk)))
    {
      hide Applied, Meaning, Installed, WithHeader, HomeWrites, IsHeader;
      ghost var d := disk;
      ReadHead();
      InstallTrans(Slots(start, d, |lh|));
      RecoveryDone(start, d, disk);
      lh := [];
      WriteHead();
      MeaningClear(start, disk);
      Idle();
    }

    /** A reader of the file system sees every update of the open transaction. */
    lemma SeenIsApplied()
      requires Valid()
      ensures InDisk(|disk|, pending) && forall b :: 0 <= b < |disk| ==> Seen(b) == Applied(disk, pending)[b]
    {
      forall b | 0 <= b < |disk| ensures Seen(b) == Applied(disk, pending)[b] {
        AppliedAt(disk, pending, b);
      }
    }

    lemma ReadyToCommit()
      requires Valid()
      ensures Ready(start, disk, lh, Contents(pending)) && Clean(lh)
      ensures forall i :: 0 <= i < |lh| ==> lh[i] in cache && cache[lh[i]] == Contents(pending)[i]
    {
      LoggedHomes(start, |disk|, pending);
      forall i | 0 <= i < |lh| ensures lh[i] in cache && cache[lh[i]] == Contents(pending)[i] {
        assert lh[i] in lh;
      }
    }

    /** With nothing open and a clean cache, readers see the disk. */
    lemma Idle()
      requires LogDisk(start, disk) && Head(start, disk) == [] && lh == [] && pending == [] && Clean([])
      ensures Valid() && forall b :: 0 <= b < |disk| ==> Seen(b) == disk[b]
    {}

    /** commit()'s body when the transaction is not empty. */
    method CommitBlocks(ghost datas: seq<Block>)
      requires Replay() && Ready(start, disk, lh, datas) && lh != [] && Clean(lh)
      requires forall i :: 0 <= i < |lh| ==> lh[i] in cache && cache[lh[i]] == datas[i]
      modifies this`cache, this`disk, this`written, this`lh
      ensures Replay() && written == old(written) + CommitWrites(start, old(disk)[start], old(lh), datas)
      ensures LogDisk(start, disk) && Head(start, disk) == [] && lh == [] && Clean([])
      ensures SameHome(start, disk, Installed(start, old(disk), old(lh), datas))
    {
      hide Applied, CommitWrites, RecoverWrites, Meaning, Installed, WithHeader, LogWrites, HomeWrites, Slots, IsHeader;
      ghost var d, lh0 := disk, lh;
      CommittedIs(start, d, lh, datas);
      CommittedMeans(start, d, lh, datas);
      WriteLog(datas);
      WriteHead();
      InstallTrans(datas);
      ghost var e := disk;
      RecoveryDone(start, Committed(start, d, lh, datas), e);
      lh := [];
      WriteHead();
      CommitWritesIs(start, d[start], lh0, datas, old(written));
      ClearedMeans(start, d, lh0, datas, e, disk);
    }

    /** commit(): make the pending updates durable and clear the log. */
    method Commit()
      requires Replay() && Valid()
      modifies this
      ensures Valid() && Replay() && pending == []
      ensures written ==
                old(written) + CommitWrites(start, old(disk)[start], Logged(old(pending)), Contents(old(pending)))
      ensures |disk| == |old(disk)| && InDisk(|disk|, old(pending)) &&
                SameHome(start, disk, Applied(old(disk), old(pending)))
      ensures forall b :: 0 <= b < |disk| && !InLog(start, b) ==> Seen(b) == old(Seen(b))
    {
      hide Applied, Meaning, Installed, WithHeader, LogWrites, HomeWrites, Slots, IsHeader, Contents, Latest;
      ghost var d, datas := disk, Contents(pending);
      SeenIsApplied();
      ReadyToCommit();
      InstalledIsApplied(start, d, pending);
      if |lh| > 0 {
        CommitBlocks(datas);
      } else {
        EmptyInstalled(start, d);
      }
      pending := [];
      Idle();
    }
  }
}
