/** Group commit in kernel/log.c: begin_op, log_write and end_op under log.lock, in any
    interleaving of any number of file system operations.

    Each critical section is one step.  The list `ops` holds, for every operation between
    its begin_op and its end_op, the set of block numbers it has passed to log_write. */
module LogSpace {
  import opened Params

  datatype State = State(lh: seq<nat>, outstanding: nat, committing: bool, ops: seq<set<nat>>)

  const Init := State([], 0, false, [])

  // ------------------------------------------------- reserved log space

  /** Log blocks the outstanding operations may still add. */
  ghost function Remaining(ops: seq<set<nat>>): int {
    if ops == [] then 0 else MAXOPBLOCKS - |ops[0]| + Remaining(ops[1..])
  }

  ghost predicate WithinBudget(ops: seq<set<nat>>) {
    forall i :: 0 <= i < |ops| ==> |ops[i]| <= MAXOPBLOCKS
  }

  lemma {:induction false} RemainingBounds(ops: seq<set<nat>>)
    requires WithinBudget(ops)
    ensures 0 <= Remaining(ops) <= |ops| * MAXOPBLOCKS
  {
    if ops != [] {
      RemainingBounds(ops[1..]);
    }
  }

  lemma {:induction false} RemainingAppend(ops: seq<set<nat>>, s: set<nat>)
    ensures Remaining(ops + [s]) == Remaining(ops) + MAXOPBLOCKS - |s|
  {
    if ops == [] {
      assert ops + [s] == [s];
    } else {
      assert (ops + [s])[1..] == ops[1..] + [s];
      RemainingAppend(ops[1..], s);
    }
  }

  lemma {:induction false} RemainingUpdate(ops: seq<set<nat>>, i: nat, s: set<nat>)
    requires i < |ops|
    ensures Remaining(ops[i := s]) == Remaining(ops) + |ops[i]| - |s|
  {
    if i > 0 {
      assert ops[i := s][1..] == ops[1..][i - 1 := s];
      RemainingUpdate(ops[1..], i - 1, s);
    } else {
      assert ops[i := s][1..] == ops[1..];
    }
  }

  lemma {:induction false} RemainingDrop(ops: seq<set<nat>>, i: nat)
    requires i < |ops|
    ensures Remaining(ops[..i] + ops[i + 1..]) == Remaining(ops) - (MAXOPBLOCKS - |ops[i]|)
  {
    if i == 0 {
      assert ops[..i] + ops[i + 1..] == ops[1..];
    } else {
      assert (ops[..i] + ops[i + 1..])[1..] == ops[1..][..i - 1] + ops[1..][i..];
      RemainingDrop(ops[1..], i - 1);
    }
  }

  // ------------------------------------------------------------ invariant

  ghost predicate Inv(s: State) {
    && s.outstanding == |s.ops|
    && (s.committing ==> s.outstanding == 0)
    && (s.outstanding == 0 && !s.committing ==> s.lh == [])
    && (forall i, j :: 0 <= i < j < |s.lh| ==> s.lh[i] != s.lh[j])
    && WithinBudget(s.ops)
    && (forall i, b :: 0 <= i < |s.ops| && b in s.ops[i] ==> b in s.lh)
    && |s.lh| + Remaining(s.ops) <= LOGBLOCKS
  }

  // ---------------------------------------------------------------- steps

  /** begin_op()'s test: may this operation start now? */
  predicate MayBegin(s: State) {
    !s.committing && |s.lh| + (s.outstanding + 1) * MAXOPBLOCKS <= LOGBLOCKS
  }

  function Begun(s: State): State { s.(outstanding := s.outstanding + 1, ops := s.ops + [{}]) }

  /** log_write()'s first panic. */
  predicate TooBig(s: State) { |s.lh| >= LOGBLOCKS }

  function Absorbed(lh: seq<nat>, b: nat): seq<nat> { if b in lh then lh else lh + [b] }

  function Wrote(s: State, i: nat, b: nat): State
    requires i < |s.ops|
  {
    s.(lh := Absorbed(s.lh, b), ops := s.ops[i := s.ops[i] + {b}])
  }

  function Ended(s: State, i: nat): State
    requires i < |s.ops| && s.outstanding > 0
  {
    State(s.lh, s.outstanding - 1, s.outstanding == 1, s.ops[..i] + s.ops[i + 1..])
  }

  function CommitDone(s: State): State { s.(lh := [], committing := false) }

  /** One critical section of some process.  An operation logs at most MAXOPBLOCKS distinct blocks. */
  ghost predicate Step(s: State, t: State) {
    || (MayBegin(s) && t == Begun(s))
    || (exists i, b :: 0 <= i < |s.ops| && |s.ops[i] + {b}| <= MAXOPBLOCKS && !TooBig(s) && t == Wrote(s, i, b))
    || (exists i :: 0 <= i < |s.ops| && s.outstanding > 0 && t == Ended(s, i))
    || (s.committing && t == CommitDone(s))
  }

  lemma WroteInv(s: State, i: nat, b: nat)
    requires Inv(s) && i < |s.ops| && |s.ops[i] + {b}| <= MAXOPBLOCKS
    ensures Inv(Wrote(s, i, b))
  {
    var t := Wrote(s, i, b);
    RemainingUpdate(s.ops, i, s.ops[i] + {b});
    if b in s.ops[i] {
      assert s.ops[i] + {b} == s.ops[i];
    } else {
      assert |s.ops[i] + {b}| == |s.ops[i]| + 1;
    }
    forall j, c | 0 <= j < |t.ops| && c in t.ops[j] ensures c in t.lh {
      if j != i { assert c in s.ops[j]; }
    }
  }

  lemma EndedInv(s: State, i: nat)
    requires Inv(s) && i < |s.ops|
    ensures Inv(Ended(s, i))
  {
    var t := Ended(s, i);
    RemainingDrop(s.ops, i);
    forall j | 0 <= j < |t.ops| ensures t.ops[j] == s.ops[if j < i then j else j + 1] {}
  }

  /** Every critical section keeps the space invariant. */
  lemma StepInv(s: State, t: State)
    requires Inv(s) && Step(s, t)
    ensures Inv(t)
  {
    if MayBegin(s) && t == Begun(s) {
      RemainingBounds(s.ops);
      RemainingAppend(s.ops, {});
    } else if exists i, b :: 0 <= i < |s.ops| && |s.ops[i] + {b}| <= MAXOPBLOCKS && t == Wrote(s, i, b) {
      var i, b :| 0 <= i < |s.ops| && |s.ops[i] + {b}| <= MAXOPBLOCKS && t == Wrote(s, i, b);
      WroteInv(s, i, b);
    } else if exists i :: 0 <= i < |s.ops| && s.outstanding > 0 && t == Ended(s, i) {
      var i :| 0 <= i < |s.ops| && s.outstanding > 0 && t == Ended(s, i);
      EndedInv(s, i);
    }
  }

  ghost predicate Run(ss: seq<State>) {
    && |ss| > 0 && ss[0] == Init
    && forall k :: 0 <= k < |ss| - 1 ==> Step(ss[k], ss[k + 1])
  }

  lemma {:induction false} RunInv(ss: seq<State>)
    requires Run(ss)
    ensures Inv(ss[|ss| - 1])
  {
    if |ss| > 1 {
      RunInv(ss[..|ss| - 1]);
      StepInv(ss[|ss| - 2], ss[|ss| - 1]);
    }
  }

  // ------------------------------------------- when log_write may panic

  /** In every reachable state an operation that has logged fewer than MAXOPBLOCKS blocks
      passes log_write's size test, whatever the other operations have used. */
  lemma RoomForOp(s: State, i: nat)
    requires Inv(s) && i < |s.ops| && |s.ops[i]| < MAXOPBLOCKS
    ensures !TooBig(s)
  {
    RemainingDrop(s.ops, i);
    var others := s.ops[..i] + s.ops[i + 1..];
    forall j | 0 <= j < |others| ensures |others[j]| <= MAXOPBLOCKS {
      assert others[j] == s.ops[if j < i then j else j + 1];
    }
    RemainingBounds(others);
  }

  /** The states that runs from an empty log lead to. */
  ghost predicate Reachable(s: State) { exists ss :: Run(ss) && ss[|ss| - 1] == s }

  lemma NeverTooBig(s: State, i: nat)
    requires Reachable(s) && i < |s.ops| && |s.ops[i]| < MAXOPBLOCKS
    ensures !TooBig(s)
  {
    var ss :| Run(ss) && ss[|ss| - 1] == s;
    RunInv(ss);
    RoomForOp(s, i);
  }

  /** Blocks [lo, hi). */
  function Range(lo: nat, hi: nat): (r: set<nat>)
    ensures forall b :: b in r <==> lo <= b < hi
    ensures |r| == if lo <= hi then hi - lo else 0
  {
    if lo < hi then Range(lo, hi - 1) + {hi - 1} else {}
  }

  /** What operation `j` of three has logged when blocks 0 .. n-1 have been logged in turn. */
  function Share(j: nat, n: nat): set<nat> {
    var lo := j * MAXOPBLOCKS;
    Range(lo, if n < lo then lo else if n < lo + MAXOPBLOCKS then n else lo + MAXOPBLOCKS)
  }

  function Filled(n: nat): State {
    State(seq(n, b requires 0 <= b < n => b), 3, false, [Share(0, n), Share(1, n), Share(2, n)])
  }

  lemma ShareStep(j: nat, n: nat)
    requires j < 3 && n < LOGBLOCKS
    ensures Share(j, n + 1) == if j == n / MAXOPBLOCKS then Share(j, n) + {n} else Share(j, n)
    ensures |Share(j, n + 1)| <= MAXOPBLOCKS
  {}

  lemma FillStep(n: nat)
    requires n < LOGBLOCKS
    ensures Step(Filled(n), Filled(n + 1))
  {
    hide Share;
    ShareStep(0, n);
    ShareStep(1, n);
    ShareStep(2, n);
    var s, t, i := Filled(n), Filled(n + 1), n / MAXOPBLOCKS;
    assert t.lh == Absorbed(s.lh, n);
    assert t.ops == s.ops[i := s.ops[i] + {n}];
    assert t == Wrote(s, i, n);
  }

  lemma FillBase()
    ensures Filled(0) == Begun(Begun(Begun(Init)))
  {
    assert Share(0, 0) == {} && Share(1, 0) == {} && Share(2, 0) == {};
  }

  lemma {:induction false} FillRun(n: nat) returns (ss: seq<State>)
    requires n <= LOGBLOCKS
    ensures Run(ss) && ss[|ss| - 1] == Filled(n)
  {
    hide Share, Filled, Step;
    if n == 0 {
      FillBase();
      var s0, s1, s2 := Init, Begun(Init), Begun(Begun(Init));
      BeginStep(s0);
      BeginStep(s1);
      BeginStep(s2);
      ss := [s0, s1, s2, Begun(s2)];
    } else {
      var rs := FillRun(n - 1);
      FillStep(n - 1);
      ss := rs + [Filled(n)];
    }
  }

  lemma BeginStep(s: State)
    requires MayBegin(s)
    ensures Step(s, Begun(s))
  {}

  lemma ShareFull(j: nat)
    requires j < 3
    ensures |Share(j, LOGBLOCKS)| == MAXOPBLOCKS
  {}

  /** The bound is tight: three operations that each log MAXOPBLOCKS distinct blocks fill the
      log, and then logging any of their blocks a second time fails the size test, although
      the block would have been absorbed. */
  lemma FullLogPanics() returns (ss: seq<State>)
    ensures Run(ss)
    ensures var s := ss[|ss| - 1];
            TooBig(s) && |s.ops| == 3 && (forall i :: 0 <= i < 3 ==> |s.ops[i]| == MAXOPBLOCKS)
            && forall i, b :: 0 <= i < 3 && b in s.ops[i] ==> Absorbed(s.lh, b) == s.lh
  {
    hide Share;
    ss := FillRun(LOGBLOCKS);
    ShareFull(0);
    ShareFull(1);
    ShareFull(2);
    RunInv(ss);
  }

  /** The log is never waiting for space with nobody active: an idle log lets begin_op through. */
  lemma IdleBegins(s: State)
    requires Inv(s) && s.outstanding == 0 && !s.committing
    ensures MayBegin(s)
  {}

  // ------------------------------------------------------- the code itself

  class GroupLog {
    var lh: seq<nat>
    var outstanding: nat
    var committing: bool
    ghost var ops: seq<set<nat>>

    ghost function Now(): State
      reads this
    {
      State(lh, outstanding, committing, ops)
    }

    constructor ()
      ensures Now() == Init
    {
      lh, outstanding, committing, ops := [], 0, false, [];
    }

    /** One pass of begin_op()'s loop: start, or go to sleep on the log. */
    method BeginOp() returns (started: bool)
      requires Inv(Now())
      modifies this
      ensures Inv(Now())
      ensures started <==> !old(committing) && |old(lh)| + (old(outstanding) + 1) * MAXOPBLOCKS <= LOGBLOCKS
      ensures Now() == if started then Begun(old(Now())) else old(Now())
    {
      ghost var s := Now();
      if committing {
        started := false;
      } else if |lh| + (outstanding + 1) * MAXOPBLOCKS > LOGBLOCKS {
        started := false;
      } else {
        outstanding := outstanding + 1;
        ops := ops + [{}];
        started := true;
        StepInv(s, Now());
      }
    }

    /** log_write() by operation `i`: it panics exactly if the log is full, even if it holds the block already, and
        cannot as long as the operation has logged fewer than MAXOPBLOCKS blocks. */
    method LogWrite(ghost i: nat, b: nat) returns (panic: bool)
      requires Inv(Now()) && i < |ops|
      modifies this`lh, this`ops
      ensures panic == old(TooBig(Now())) && (panic ==> Now() == old(Now()))
      ensures |old(ops)[i]| < MAXOPBLOCKS ==> !panic
      ensures !panic ==> Now() == Wrote(old(Now()), i, b)
      ensures |old(ops)[i] + {b}| <= MAXOPBLOCKS ==> Inv(Now())
    {
      if |ops[i]| < MAXOPBLOCKS { RoomForOp(Now(), i); }
      if |lh| >= LOGBLOCKS { return true; }
      if |ops[i] + {b}| <= MAXOPBLOCKS { WroteInv(Now(), i, b); }
      var k := 0;
      while k < |lh| && lh[k] != b
        invariant k <= |lh| && b !in lh[..k]
      {
        k := k + 1;
      }
      assert lh[..|lh|] == lh;
      if k == |lh| {
        lh := lh + [b];
      }
      ops := ops[i := ops[i] + {b}];
      panic := false;
    }

    /** end_op() up to its commit: the last operation out commits, and never finds one running. */
    method EndOp(ghost i: nat) returns (doCommit: bool)
      requires Inv(Now()) && i < |ops|
      modifies this
      ensures Inv(Now()) && Now() == Ended(old(Now()), i) && doCommit == committing
    {
      EndedInv(Now(), i);
      outstanding := outstanding - 1;
      ops := ops[..i] + ops[i + 1..];
      assert !committing; // end_op's panic is unreachable
      doCommit := false;
      if outstanding == 0 {
        doCommit := true;
        committing := true;
      }
    }

    /** end_op() after its commit. */
    method FinishCommit()
      requires Inv(Now()) && committing
      modifies this
      ensures Inv(Now()) && Now() == CommitDone(old(Now())) && MayBegin(Now())
    {
      lh := [];
      committing := false;
    }
  }
}
