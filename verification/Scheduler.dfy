/** scheduler(), sched(), yield(), sleep() and the spin-lock counters of kernel/proc.c and
    kernel/spinlock.c, as one machine over any number of CPUs and processes.  swtch() is two steps: the
    old registers are saved, then the new ones are loaded. */
module Scheduler {

  datatype ProcState = UNUSED | SLEEPING | RUNNABLE | RUNNING | ZOMBIE

  datatype Lock = OfProc(p: nat) | Other(k: nat)

  /** Where a thread goes on once it is switched to: after sched(), or in forkret() if it has never run. */
  datatype After = ToKernel | ToLock(k: nat) | Never | First

  /** What a process's kernel thread does. */
  datatype PC =
    | Kernel                 // outside these routines, possibly holding spin-locks
    | YieldB                 // yield() holding its own lock
    | SleepB(k: nat)         // sleep() holding its own lock and the condition lock
    | ExitB(k: nat)          // kexit() holding its own lock and wait_lock
    | InSched(next: After)   // in sched() before swtch()
    | Resume(next: After)    // switched out, or just switched back to
    | Relock(k: nat)         // sleep() before it takes the condition lock again
    | WakeL(q: nat)          // wakeup() holding the lock of q
    | ForkL(q: nat)          // kfork() holding the lock of q
    | ReapL(q: nat)          // kwait() holding the lock of q

  /** What a CPU does: its scheduler loop, or a process's thread. */
  datatype Spot =
    | Idle                   // at the top of the loop
    | Open                   // between intr_on() and intr_off()
    | Look(i: nat) | Got(i: nat) | Chosen(i: nat)
    | Loading(i: nat)        // scheduler's registers saved, those of i not yet loaded
    | Thread(p: nat)
    | Leaving(p: nat)        // registers of p saved, the scheduler's not yet loaded
    | Back(i: nat)           // swtch() has returned in the scheduler

  /** The routine a thread called last; `None` if it has called none since kfork() made it. */
  datatype Call = None | Yielding | Sleeping(k: nat) | Exiting | Helping(q: nat)

  /** `ctx` says that the saved registers are complete.  Two fields are history and decide nothing: `was` says whether
      interrupts were on in the thread when it last came to give up the CPU, outside the locks it then held, and `call`
      is the routine it called last. */
  datatype Cpu = Cpu(spot: Spot, proc: int, noff: nat, intena: bool, intr: bool, ctx: bool, locks: set<Lock>)
  datatype Proc = Proc(st: ProcState, pc: PC, ctx: bool, intena: bool, on: int, was: bool, call: Call)
  datatype Sys = Sys(cpus: seq<Cpu>, procs: seq<Proc>, lock: map<Lock, nat>)

  // ---------------------------------------------------------------- spin-locks

  /** acquire(): push_off(), then the lock. */
  function Acquired(u: Cpu, k: Lock): Cpu {
    u.(noff := u.noff + 1, intena := if u.noff == 0 then u.intr else u.intena, intr := false, locks := u.locks + {k})
  }

  /** release(): the lock, then pop_off(). */
  function Released(u: Cpu, k: Lock): Cpu
    requires u.noff > 0
  {
    u.(noff := u.noff - 1, intr := u.intr || (u.noff == 1 && u.intena), locks := u.locks - {k})
  }

  predicate Free(s: Sys, k: Lock) { k !in s.lock }

  function SetCpu(s: Sys, c: nat, u: Cpu): Sys
    requires c < |s.cpus|
  {
    s.(cpus := s.cpus[c := u])
  }

  function SetProc(s: Sys, p: nat, r: Proc): Sys
    requires p < |s.procs|
  {
    s.(procs := s.procs[p := r])
  }

  function Take(s: Sys, c: nat, k: Lock): Sys
    requires c < |s.cpus|
  {
    SetCpu(s, c, Acquired(s.cpus[c], k)).(lock := s.lock[k := c])
  }

  function Drop(s: Sys, c: nat, k: Lock): Sys
    requires c < |s.cpus|
  {
    var u := s.cpus[c];
    SetCpu(s, c, if u.noff > 0 then Released(u, k) else u).(lock := s.lock - {k})
  }

  function At(s: Sys, c: nat, spot: Spot): Sys
    requires c < |s.cpus|
  {
    SetCpu(s, c, s.cpus[c].(spot := spot))
  }

  function To(s: Sys, p: nat, pc: PC): Sys
    requires p < |s.procs|
  {
    SetProc(s, p, s.procs[p].(pc := pc))
  }

  /** Whether interrupts are on outside the locks that are held. */
  function Outside(u: Cpu): bool { if u.noff == 0 then u.intr else u.intena }

  function Leave(s: Sys, c: nat, p: nat, pc: PC): Sys
    requires c < |s.cpus| && p < |s.procs|
  {
    SetProc(s, p, s.procs[p].(pc := pc, was := Outside(s.cpus[c])))
  }

  // ------------------------------------------------------------------ the steps

  datatype Act =
    | Acquire(k: nat) | Release(k: nat) | Interrupts(on: bool)
    | Yield | Sleep(k: nat) | Exit(k: nat) | Wake(q: nat) | Fork(q: nat) | Reap(q: nat)
    | Go

  predicate Running(s: Sys, c: nat) {
    c < |s.cpus| && s.cpus[c].spot.Thread? && s.cpus[c].spot.p < |s.procs|
  }

  /** A thread outside these routines may do any of this; sleep() and kexit() are called with one spin-lock held,
      yield() with none. */
  predicate CanAct(s: Sys, c: nat, a: Act) {
    && Running(s, c)
    && var p := s.cpus[c].spot.p; var u := s.cpus[c];
       s.procs[p].pc == Kernel &&
       match a
       case Acquire(k) => Free(s, Other(k))
       case Release(k) => Other(k) in u.locks
       case Interrupts(_) => u.noff == 0
       case Yield => u.locks == {} && Free(s, OfProc(p))
       case Sleep(k) => u.locks == {Other(k)} && Free(s, OfProc(p))
       case Exit(k) => u.locks == {Other(k)} && Free(s, OfProc(p))
       case Wake(q) => q < |s.procs| && q != p && Free(s, OfProc(q))
       case Fork(q) => q < |s.procs| && Free(s, OfProc(q))
       case Reap(q) => q < |s.procs| && Free(s, OfProc(q))
       case Go => false
  }

  /** What a thread has called, once it did this. */
  function Called(a: Act, before: Call): Call {
    match a
    case Yield => Yielding
    case Sleep(k) => Sleeping(k)
    case Exit(_) => Exiting
    case Wake(q) => Helping(q)
    case Fork(q) => Helping(q)
    case Reap(q) => Helping(q)
    case _ => before
  }

  function Acted(s: Sys, c: nat, a: Act): Sys
    requires CanAct(s, c, a)
  {
    var p := s.cpus[c].spot.p;
    Entered(SetProc(s, p, s.procs[p].(call := Called(a, s.procs[p].call))), c, p, a)
  }

  function Entered(s: Sys, c: nat, p: nat, a: Act): Sys
    requires c < |s.cpus| && p < |s.procs| && !a.Go?
  {
    match a
    case Acquire(k) => Take(s, c, Other(k))
    case Release(k) => Drop(s, c, Other(k))
    case Interrupts(on) => SetCpu(s, c, s.cpus[c].(intr := on))
    case Yield => Take(Leave(s, c, p, YieldB), c, OfProc(p))
    case Sleep(k) => Take(Leave(s, c, p, SleepB(k)), c, OfProc(p))
    case Exit(k) => Take(Leave(s, c, p, ExitB(k)), c, OfProc(p))
    case Wake(q) => Take(To(s, p, WakeL(q)), c, OfProc(q))
    case Fork(q) => Take(To(s, p, ForkL(q)), c, OfProc(q))
    case Reap(q) => Take(To(s, p, ReapL(q)), c, OfProc(q))
  }

  predicate CanGo(s: Sys, c: nat) {
    && c < |s.cpus|
    && match s.cpus[c].spot
       case Look(i) => i < |s.procs| ==> Free(s, OfProc(i))
       case Got(i) => i < |s.procs|
       case Chosen(i) => i < |s.procs|
       case Loading(i) => i < |s.procs|
       case Leaving(p) => p < |s.procs|
       case Back(i) => i < |s.procs|
       case Idle => true
       case Open => true
       case Thread(p) => p < |s.procs| && ThreadCanGo(s, s.procs[p].pc)
  }

  predicate ThreadCanGo(s: Sys, pc: PC) {
    match pc
    case Kernel => false
    case Relock(k) => Free(s, Other(k))
    case WakeL(q) => q < |s.procs|
    case ForkL(q) => q < |s.procs|
    case ReapL(q) => q < |s.procs|
    case _ => true
  }

  /** sched() saves the thread's registers and its intena. */
  function SavedOut(s: Sys, c: nat, p: nat, next: After): Sys
    requires c < |s.cpus| && p < |s.procs|
  {
    At(SetProc(s, p, s.procs[p].(pc := Resume(next), ctx := true, intena := s.cpus[c].intena)), c, Leaving(p))
  }

  function SetState(s: Sys, p: nat, st: ProcState, pc: PC): Sys
    requires p < |s.procs|
  {
    SetProc(s, p, s.procs[p].(st := st, pc := pc))
  }

  function Gone(s: Sys, c: nat): Sys
    requires CanGo(s, c)
  {
    match s.cpus[c].spot
    case Idle => SetCpu(s, c, s.cpus[c].(intr := true, spot := Open))
    case Open => SetCpu(s, c, s.cpus[c].(intr := false, spot := Look(0)))
    case Look(i) => if i < |s.procs| then At(Take(s, c, OfProc(i)), c, Got(i)) else At(s, c, Idle)
    case Got(i) =>
      if s.procs[i].st == RUNNABLE then
        SetProc(SetCpu(s, c, s.cpus[c].(proc := i, spot := Chosen(i))), i, s.procs[i].(st := RUNNING, on := c))
      else At(Drop(s, c, OfProc(i)), c, Look(i + 1))
    case Chosen(i) => SetCpu(s, c, s.cpus[c].(ctx := true, spot := Loading(i)))
    case Loading(i) => At(SetProc(s, i, s.procs[i].(ctx := false)), c, Thread(i))
    case Leaving(p) => SetCpu(s, c, s.cpus[c].(ctx := false, spot := Back(p)))
    case Back(i) =>
        At(Drop(SetProc(SetCpu(s, c, s.cpus[c].(proc := -1)), i, s.procs[i].(on := -1)), c, OfProc(i)), c, Look(i + 1))
    case Thread(p) => ThreadGone(s, c, p)
  }

  /** sched() gives the CPU the thread's intena; forkret() leaves the CPU's own. */
  function Resumed(s: Sys, c: nat, p: nat, next: After): Sys
    requires c < |s.cpus| && p < |s.procs|
  {
    var u := s.cpus[c];
    SetCpu(To(s, p, if next.ToLock? then Relock(next.k) else Kernel), c, if next.First? then u
        else u.(intena := s.procs[p].intena))
  }

  function ThreadGone(s: Sys, c: nat, p: nat): Sys
    requires CanGo(s, c) && s.cpus[c].spot == Thread(p)
  {
    match s.procs[p].pc
    case YieldB => SetState(s, p, RUNNABLE, InSched(ToKernel))
    case SleepB(k) => Drop(SetState(s, p, SLEEPING, InSched(ToLock(k))), c, Other(k))
    case ExitB(k) => Drop(SetState(s, p, ZOMBIE, InSched(Never)), c, Other(k))
    case InSched(next) => SavedOut(s, c, p, next)
    case Resume(next) => Drop(Resumed(s, c, p, next), c, OfProc(p))
    case Relock(k) => Take(To(s, p, Kernel), c, Other(k))
    case WakeL(q) =>
      var s1 := if s.procs[q].st == SLEEPING then SetProc(s, q, s.procs[q].(st := RUNNABLE)) else s;
      Drop(To(s1, p, Kernel), c, OfProc(q))
    case ForkL(q) =>
      var s1 := if s.procs[q].st ==
          UNUSED then SetProc(s, q, s.procs[q].(st := RUNNABLE, pc := Resume(First), ctx := true, call := None)) else s;
      Drop(To(s1, p, Kernel), c, OfProc(q))
    case ReapL(q) =>
      var s1 := if s.procs[q].st == ZOMBIE then SetProc(s, q, s.procs[q].(st := UNUSED)) else s;
      Drop(To(s1, p, Kernel), c, OfProc(q))
  }

  // --------------------------------------------------------------- the invariant

  ghost predicate OnlyOther(locks: set<Lock>) { forall k :: k in locks ==> k.Other? }

  /** The state and the locks that go with a thread's program point. */
  ghost predicate ThreadOk(s: Sys, u: Cpu, p: nat)
    requires p < |s.procs|
  {
    var me := s.procs[p];
    match me.pc
    case Kernel => me.st == RUNNING && OnlyOther(u.locks)
    case YieldB => me.st == RUNNING && u.locks == {OfProc(p)} && u.intena == me.was
    case SleepB(k) => me.st == RUNNING && u.locks == {Other(k), OfProc(p)} && u.intena == me.was
    case ExitB(k) => me.st == RUNNING && u.locks == {Other(k), OfProc(p)} && u.intena == me.was
    case InSched(next) => Away(me.st, next) && u.locks == {OfProc(p)} && u.intena == me.was
    case Resume(next) => me.st == RUNNING && next != Never && u.locks == {OfProc(p)} && Kept(me)
    case Relock(_) => me.st == RUNNING && u.locks == {}
    case WakeL(q) => me.st == RUNNING && HelpsWith(s, u, p, q)
    case ForkL(q) => me.st == RUNNING && HelpsWith(s, u, p, q)
    case ReapL(q) => me.st == RUNNING && HelpsWith(s, u, p, q)
  }

  /** A thread that has run before has kept the intena it had. */
  ghost predicate Kept(r: Proc) { r.pc.Resume? && (r.pc.next == First || r.intena == r.was) }

  /** The states in which a process leaves its CPU. */
  ghost predicate Away(st: ProcState, next: After) {
    match next
    case ToKernel => st == RUNNABLE
    case ToLock(_) => st == SLEEPING
    case Never => st == ZOMBIE
    case First => false
  }

  /** A thread is where its last call leads. */
  ghost predicate CallOk(pc: PC, call: Call) {
    match pc
    case Kernel => call != Exiting
    case YieldB => call == Yielding
    case SleepB(k) => call == Sleeping(k)
    case ExitB(_) => call == Exiting
    case InSched(next) => NextOk(next, call)
    case Resume(next) => NextOk(next, call)
    case Relock(k) => call == Sleeping(k)
    case WakeL(q) => call == Helping(q)
    case ForkL(q) => call == Helping(q)
    case ReapL(q) => call == Helping(q)
  }

  ghost predicate NextOk(next: After, call: Call) {
    match next
    case ToKernel => call == Yielding
    case ToLock(k) => call == Sleeping(k)
    case Never => call == Exiting
    case First => call == None
  }

  ghost predicate HelpsWith(s: Sys, u: Cpu, p: nat, q: nat) {
    q < |s.procs| && OfProc(q) in u.locks && OnlyOther(u.locks - {OfProc(q)})
  }

  /** Process `i` is between this CPU's scheduler and its own thread, and its lock is the only one held. */
  ghost predicate Between(s: Sys, c: nat, u: Cpu, i: nat) {
    i < |s.procs| && u.locks == {OfProc(i)} && u.proc == i && s.procs[i].on == c && s.procs[i].ctx && Kept(s.procs[i])
  }

  /** noff counts the locks this CPU holds, and interrupts are off while there are any. */
  ghost predicate CountOk(s: Sys, c: nat)
    requires c < |s.cpus|
  {
    var u := s.cpus[c];
    u.noff == |u.locks| && (u.noff > 0 ==> !u.intr) && forall k :: k in u.locks ==> k in s.lock && s.lock[k] == c
  }

  ghost predicate SpotOk(s: Sys, c: nat)
    requires c < |s.cpus|
  {
    var u := s.cpus[c];
    match u.spot
    case Idle => u.locks == {} && u.proc == -1
    case Open => u.locks == {} && u.proc == -1
    case Look(i) => u.locks == {} && u.proc == -1 && i <= |s.procs|
    case Got(i) => i < |s.procs| && u.locks == {OfProc(i)} && u.proc == -1
    case Chosen(i) => Between(s, c, u, i) && s.procs[i].st == RUNNING && s.procs[i].pc.next != Never
    case Loading(i) => Between(s, c, u, i) && s.procs[i].st == RUNNING && s.procs[i].pc.next != Never && u.ctx
    case Thread(p) =>
        p < |s.procs| && u.proc == p && s.procs[p].on == c && u.ctx && !s.procs[p].ctx && ThreadOk(s, u, p)
    case Leaving(p) => Between(s, c, u, p) && Away(s.procs[p].st, s.procs[p].pc.next) && u.ctx
    case Back(i) => Between(s, c, u, i) && Away(s.procs[i].st, s.procs[i].pc.next)
  }

  /** Where a process on no CPU goes on: only in sleep() is it SLEEPING. */
  ghost predicate Waits(st: ProcState, next: After) { next != Never && (st == SLEEPING ==> next.ToLock?) }

  ghost predicate ProcOk(s: Sys, p: nat)
    requires p < |s.procs|
  {
    var me := s.procs[p];
    && CallOk(me.pc, me.call)
    && if me.on == -1 then
         && me.st != RUNNING && (me.st == ZOMBIE ==> me.call == Exiting)
         && (me.st == UNUSED ==> me.call == Exiting || me.call == None)
         && (me.st == RUNNABLE || me.st == SLEEPING ==> me.ctx && Kept(me) && Waits(me.st, me.pc.next))
       else
         0 <= me.on < |s.cpus| && s.cpus[me.on].proc == p
  }

  ghost predicate LocksOk(s: Sys) {
    forall k :: k in s.lock ==> s.lock[k] < |s.cpus| && k in s.cpus[s.lock[k]].locks
  }

  ghost predicate Inv(s: Sys) {
    && LocksOk(s)
    && (forall c :: 0 <= c < |s.cpus| ==> CountOk(s, c) && SpotOk(s, c))
    && (forall p :: 0 <= p < |s.procs| ==> ProcOk(s, p))
  }

  // ------------------------------------------------- a step changes one CPU's view

  /** CPU `c` takes a lock that is free, drops one it holds, or neither. */
  ghost predicate LockMove(s: Sys, s': Sys, c: nat)
    requires c < |s.cpus| && c < |s'.cpus|
  {
    var u := s.cpus[c]; var u' := s'.cpus[c];
    || (s'.lock == s.lock && u'.locks == u.locks && u'.noff == u.noff && (u.noff > 0 ==> u'.intr == u.intr))
    || (exists k :: Takes(s, s', c, k))
    || (exists k :: Drops(s, s', c, k))
  }

  ghost predicate Takes(s: Sys, s': Sys, c: nat, k: Lock)
    requires c < |s.cpus| && c < |s'.cpus|
  {
    var u := s.cpus[c]; var u' := s'.cpus[c];
    k !in s.lock && s'.lock == s.lock[k := c] && u'.locks == u.locks + {k} && u'.noff == u.noff + 1 && !u'.intr
  }

  ghost predicate Drops(s: Sys, s': Sys, c: nat, k: Lock)
    requires c < |s.cpus| && c < |s'.cpus|
  {
    var u := s.cpus[c]; var u' := s'.cpus[c];
    k in u.locks && s'.lock == s.lock - {k} && u'.locks == u.locks - {k} && u'.noff == u.noff - 1 &&
        (u'.noff > 0 ==> u'.intr == u.intr)
  }

  /** Only CPU `c`, and processes that are on it or on no CPU, change. */
  ghost predicate Local(s: Sys, s': Sys, c: nat) {
    && c < |s.cpus| && |s'.cpus| == |s.cpus| && |s'.procs| == |s.procs|
    && (forall d :: 0 <= d < |s.cpus| && d != c ==> s'.cpus[d] == s.cpus[d])
    && (forall i :: 0 <= i < |s.procs| ==> s'.procs[i] == s.procs[i] || s.procs[i].on == c || s.procs[i].on == -1)
  }

  lemma Counted(s: Sys, s': Sys, c: nat)
    requires LocksOk(s) && Local(s, s', c) && CountOk(s, c) && LockMove(s, s', c)
    ensures CountOk(s', c) && LocksOk(s')
  {}

  lemma OtherCount(s: Sys, s': Sys, c: nat, d: nat)
    requires Inv(s) && Local(s, s', c) && LockMove(s, s', c) && d < |s.cpus| && d != c
    ensures CountOk(s', d)
  {
    hide LocksOk, ProcOk, SpotOk, LockMove;
    assert CountOk(s, d) && CountOk(s, c);
    forall k | k in s.cpus[d].locks
      ensures k in s'.lock && s'.lock[k] == d
    {
      HeldElsewhere(s, s', c, d, k);
    }
  }

  /** A lock of another CPU is neither taken nor dropped. */
  lemma HeldElsewhere(s: Sys, s': Sys, c: nat, d: nat, k: Lock)
    requires c < |s.cpus| && c < |s'.cpus| && CountOk(s, c) && LockMove(s, s', c)
    requires d != c && k in s.lock && s.lock[k] == d
    ensures k in s'.lock && s'.lock[k] == d
  {}

  lemma OtherSpot(s: Sys, s': Sys, c: nat, d: nat)
    requires Inv(s) && Local(s, s', c) && d < |s.cpus| && d != c
    ensures SpotOk(s', d)
  {
    hide LocksOk, ProcOk, CountOk;
    assert SpotOk(s, d);
  }

  /** What is left to show for a step of CPU `c`. */
  lemma Frame(s: Sys, s': Sys, c: nat)
    requires Inv(s) && Local(s, s', c) && LockMove(s, s', c) && SpotOk(s', c)
    requires forall i :: 0 <= i < |s.procs| && s'.procs[i] != s.procs[i] ==> ProcOk(s', i)
    requires var i := s.cpus[c].proc;
               s'.cpus[c].proc == i || i == -1 || (0 <= i < |s.procs| && s'.procs[i] != s.procs[i])
    ensures Inv(s')
  {
    hide CountOk, SpotOk, LockMove, LocksOk;
    Counted(s, s', c);
    forall d | 0 <= d < |s.cpus|
      ensures CountOk(s', d) && SpotOk(s', d)
    {
      if d != c { OtherCount(s, s', c, d); OtherSpot(s, s', c, d); }
    }
    forall i | 0 <= i < |s.procs|
      ensures ProcOk(s', i)
    {
      assert ProcOk(s, i);
    }
  }

  lemma Took(s: Sys, s': Sys, c: nat, k: Lock)
    requires c < |s.cpus| && c < |s'.cpus| && Takes(s, s', c, k)
    ensures LockMove(s, s', c)
  {}

  lemma Dropped(s: Sys, s': Sys, c: nat, k: Lock)
    requires c < |s.cpus| && c < |s'.cpus| && Drops(s, s', c, k)
    ensures LockMove(s, s', c)
  {}

  /** A thread that goes on outside the routines. */
  lemma KernelInv(s: Sys, c: nat, a: Act)
    requires Inv(s) && CanAct(s, c, a) && (a.Acquire? || a.Release? || a.Interrupts?)
    ensures Inv(Acted(s, c, a))
  {
    hide LockMove, LocksOk, ProcOk;
    var s' := Acted(s, c, a);
    assert CountOk(s, c) && SpotOk(s, c);
    match a
    case Acquire(k) => Took(s, s', c, Other(k)); Frame(s, s', c);
    case Release(k) => Dropped(s, s', c, Other(k)); Frame(s, s', c);
    case Interrupts(_) => Same(s, s', c); Frame(s, s', c);
  }

  lemma Same(s: Sys, s': Sys, c: nat)
    requires c < |s.cpus| && c < |s'.cpus| && s'.lock == s.lock && s'.cpus[c].locks == s.cpus[c].locks
    requires s'.cpus[c].noff == s.cpus[c].noff && (s.cpus[c].noff > 0 ==> s'.cpus[c].intr == s.cpus[c].intr)
    ensures LockMove(s, s', c)
  {}

  /** Taking the lock of process `x` and moving on to `pc`. */
  lemma Begun(s: Sys, c: nat, p: nat, s0: Sys, x: nat)
    requires Inv(s) && c < |s.cpus| && p < |s.procs| && s.cpus[c].spot == Thread(p) && s.procs[p].pc == Kernel &&
               Free(s, OfProc(x))
    requires |s0.procs| > p && s0 == SetProc(s, p, s.procs[p].(pc := s0.procs[p].pc, was := s0.procs[p].was,
               call := s0.procs[p].call)) && CallOk(s0.procs[p].pc, s0.procs[p].call)
    requires ThreadOk(s0, Acquired(s.cpus[c], OfProc(x)), p)
    ensures Inv(Take(s0, c, OfProc(x)))
  {
    hide LockMove, LocksOk, ThreadOk;
    var s' := Take(s0, c, OfProc(x));
    assert CountOk(s, c) && SpotOk(s, c) && ProcOk(s, p);
    Took(s, s', c, OfProc(x));
    ThreadSame(s0, s', Acquired(s.cpus[c], OfProc(x)), p);
    Frame(s, s', c);
  }

  lemma ThreadSame(s: Sys, s': Sys, u: Cpu, p: nat)
    requires s'.procs == s.procs && p < |s.procs| && ThreadOk(s, u, p)
    ensures ThreadOk(s', u, p)
  {}

  /** A thread that is about to give up the CPU. */
  lemma LeaveInv(s: Sys, c: nat, a: Act)
    requires Inv(s) && CanAct(s, c, a) && (a.Yield? || a.Sleep? || a.Exit?)
    ensures Inv(Acted(s, c, a))
  {
    hide Inv, Take, HelpsWith, OnlyOther;
    var p := s.cpus[c].spot.p;
    KernelThread(s, c, p);
    var pc := if a.Yield? then YieldB else if a.Sleep? then SleepB(a.k) else ExitB(a.k);
    var s0 := SetProc(s, p, s.procs[p].(call := Called(a, s.procs[p].call)));
    Begun(s, c, p, Leave(s0, c, p, pc), p);
  }

  /** A thread that is about to change another process's state. */
  lemma HelpStart(s: Sys, c: nat, a: Act)
    requires Inv(s) && CanAct(s, c, a) && (a.Wake? || a.Fork? || a.Reap?)
    ensures Inv(Acted(s, c, a))
  {
    hide Inv, Take;
    var p := s.cpus[c].spot.p;
    KernelThread(s, c, p);
    var pc := if a.Wake? then WakeL(a.q) else if a.Fork? then ForkL(a.q) else ReapL(a.q);
    var s0 := SetProc(s, p, s.procs[p].(call := Called(a, s.procs[p].call)));
    Begun(s, c, p, To(s0, p, pc), a.q);
  }

  lemma KernelThread(s: Sys, c: nat, p: nat)
    requires Inv(s) && c < |s.cpus| && p < |s.procs| && s.cpus[c].spot == Thread(p) && s.procs[p].pc == Kernel
    ensures s.procs[p].st == RUNNING && OnlyOther(s.cpus[c].locks) && s.cpus[c].noff == |s.cpus[c].locks|
  {
    assert SpotOk(s, c) && CountOk(s, c);
  }

  /** A process that is leaving its CPU still has its lock held by that CPU. */
  lemma LeavingLocked(s: Sys, i: nat)
    requires Inv(s) && i < |s.procs| && s.procs[i].st != RUNNING && s.procs[i].on != -1
    ensures OfProc(i) in s.lock && s.lock[OfProc(i)] == s.procs[i].on
  {
    hide LocksOk;
    assert ProcOk(s, i);
    assert CountOk(s, s.procs[i].on) && SpotOk(s, s.procs[i].on);
  }

  lemma Locked(s: Sys, c: nat, k: Lock)
    requires Inv(s) && c < |s.cpus| && k in s.cpus[c].locks
    ensures k in s.lock && s.lock[k] == c
  {
    assert CountOk(s, c);
  }

  /** Nobody else is switching a process whose lock this CPU holds. */
  lemma LockedOut(s: Sys, c: nat, i: nat)
    requires Inv(s) && c < |s.cpus| && i < |s.procs| && OfProc(i) in s.cpus[c].locks && s.procs[i].on != c &&
               s.procs[i].st != RUNNING
    ensures s.procs[i].on == -1
  {
    hide Inv;
    Locked(s, c, OfProc(i));
    if s.procs[i].on != -1 { LeavingLocked(s, i); }
  }

  /** The scheduler at the top of its loop. */
  lemma IdleInv(s: Sys, c: nat)
    requires Inv(s) && CanGo(s, c) && (s.cpus[c].spot.Idle? || s.cpus[c].spot.Open?)
    ensures Inv(Gone(s, c))
  {
    hide LockMove, LocksOk, ProcOk;
    var s' := Gone(s, c);
    assert CountOk(s, c) && SpotOk(s, c);
    Same(s, s', c);
    Frame(s, s', c);
  }

  /** The scheduler between processes. */
  lemma LookInv(s: Sys, c: nat)
    requires Inv(s) && CanGo(s, c) && s.cpus[c].spot.Look?
    ensures Inv(Gone(s, c))
  {
    hide LockMove, LocksOk, ProcOk;
    var s' := Gone(s, c);
    assert CountOk(s, c) && SpotOk(s, c);
    if s.cpus[c].spot.i < |s.procs| { Took(s, s', c, OfProc(s.cpus[c].spot.i)); } else { Same(s, s', c); }
    Frame(s, s', c);
  }

  /** The scheduler's registers are saved, or loaded. */
  lemma SwitchInv(s: Sys, c: nat)
    requires Inv(s) && CanGo(s, c) && (s.cpus[c].spot.Chosen? || s.cpus[c].spot.Leaving?)
    ensures Inv(Gone(s, c))
  {
    hide LockMove, LocksOk, ProcOk;
    var s' := Gone(s, c);
    assert CountOk(s, c) && SpotOk(s, c);
    Same(s, s', c);
    Frame(s, s', c);
  }

  /** The scheduler picks a process, or lets go of its lock. */
  lemma GotInv(s: Sys, c: nat)
    requires Inv(s) && CanGo(s, c) && s.cpus[c].spot.Got?
    ensures Inv(Gone(s, c))
  {
    hide LockMove, LocksOk;
    var s', i := Gone(s, c), s.cpus[c].spot.i;
    assert CountOk(s, c) && SpotOk(s, c) && ProcOk(s, i);
    if s.procs[i].st == RUNNABLE {
      LockedOut(s, c, i);
      Same(s, s', c);
    } else {
      Dropped(s, s', c, OfProc(i));
    }
    Frame(s, s', c);
  }

  /** The registers of the chosen process are loaded, or the scheduler goes on after it. */
  lemma LoadInv(s: Sys, c: nat)
    requires Inv(s) && CanGo(s, c) && (s.cpus[c].spot.Loading? || s.cpus[c].spot.Back?)
    ensures Inv(Gone(s, c))
  {
    hide LockMove, LocksOk;
    var s', i := Gone(s, c), s.cpus[c].spot.i;
    assert CountOk(s, c) && SpotOk(s, c) && ProcOk(s, i);
    if s.cpus[c].spot.Loading? { Same(s, s', c); } else { Dropped(s, s', c, OfProc(i)); }
    Frame(s, s', c);
  }

  /** A thread on its way into sched(), through it, and out of it. */
  lemma ThreadInv(s: Sys, c: nat, p: nat)
    requires Inv(s) && CanGo(s, c) && s.cpus[c].spot == Thread(p)
    requires var pc := s.procs[p].pc; pc.YieldB? || pc.SleepB? || pc.ExitB? || pc.InSched?
    ensures Inv(Gone(s, c))
  {
    hide LockMove, LocksOk;
    var s' := Gone(s, c);
    assert CountOk(s, c) && SpotOk(s, c) && ProcOk(s, p);
    if s.procs[p].pc.SleepB? || s.procs[p].pc.ExitB? { Dropped(s, s', c, Other(s.procs[p].pc.k)); }
        else { Same(s, s', c); }
    Frame(s, s', c);
  }

  lemma ResumeInv(s: Sys, c: nat, p: nat)
    requires Inv(s) && CanGo(s, c) && s.cpus[c].spot == Thread(p) && s.procs[p].pc.Resume?
    ensures Inv(Gone(s, c))
  {
    hide LockMove, LocksOk;
    var s' := Gone(s, c);
    assert CountOk(s, c) && SpotOk(s, c) && ProcOk(s, p);
    Dropped(s, s', c, OfProc(p));
    Frame(s, s', c);
  }

  lemma RelockInv(s: Sys, c: nat, p: nat)
    requires Inv(s) && CanGo(s, c) && s.cpus[c].spot == Thread(p) && s.procs[p].pc.Relock?
    ensures Inv(Gone(s, c))
  {
    hide LockMove, LocksOk;
    var s' := Gone(s, c);
    assert CountOk(s, c) && SpotOk(s, c) && ProcOk(s, p);
    Took(s, s', c, Other(s.procs[p].pc.k));
    Frame(s, s', c);
  }

  /** wakeup(), kfork() and kwait() change another process's state under its lock. */
  lemma HelpInv(s: Sys, c: nat, p: nat)
    requires Inv(s) && CanGo(s, c) && s.cpus[c].spot == Thread(p) &&
               (s.procs[p].pc.WakeL? || s.procs[p].pc.ForkL? || s.procs[p].pc.ReapL?)
    ensures Inv(Gone(s, c))
  {
    hide LockMove, LocksOk, ProcOk;
    var s', q := Gone(s, c), s.procs[p].pc.q;
    Helper(s, c, p);
    HelpSpot(s, c, p);
    HelpProcs(s, c, p);
    Dropped(s, s', c, OfProc(q));
    Frame(s, s', c);
  }

  lemma HelpSpot(s: Sys, c: nat, p: nat)
    requires Inv(s) && CanGo(s, c) && s.cpus[c].spot == Thread(p) &&
               (s.procs[p].pc.WakeL? || s.procs[p].pc.ForkL? || s.procs[p].pc.ReapL?)
    ensures SpotOk(Gone(s, c), c) && Local(s, Gone(s, c), c)
  {
    hide LocksOk, ProcOk;
    Helper(s, c, p);
  }

  lemma HelpProcs(s: Sys, c: nat, p: nat)
    requires Inv(s) && CanGo(s, c) && s.cpus[c].spot == Thread(p) &&
               (s.procs[p].pc.WakeL? || s.procs[p].pc.ForkL? || s.procs[p].pc.ReapL?)
    ensures forall i :: 0 <= i < |s.procs| && Gone(s, c).procs[i] != s.procs[i] ==> ProcOk(Gone(s, c), i)
  {
    hide LocksOk, CountOk;
    Helper(s, c, p);
    assert ProcOk(s, p) && ProcOk(s, s.procs[p].pc.q);
  }

  /** The process helped is not switching: it is on no CPU, or it runs. */
  lemma Helper(s: Sys, c: nat, p: nat)
    requires Inv(s) && CanGo(s, c) && s.cpus[c].spot == Thread(p) &&
               (s.procs[p].pc.WakeL? || s.procs[p].pc.ForkL? || s.procs[p].pc.ReapL?)
    ensures CountOk(s, c) && SpotOk(s, c) && s.procs[p].st == RUNNING
    ensures var q := s.procs[p].pc.q; s.procs[q].st != RUNNING ==> s.procs[q].on == -1
  {
    hide LocksOk;
    var q := s.procs[p].pc.q;
    assert CountOk(s, c) && SpotOk(s, c);
    if s.procs[q].st != RUNNING {
      OneOn(s, c, p, q);
      LockedOut(s, c, q);
    }
  }

  /** Only one process is on a CPU. */
  lemma OneOn(s: Sys, c: nat, p: nat, q: nat)
    requires Inv(s) && c < |s.cpus| && p < |s.procs| && q < |s.procs| && s.procs[p].on == c && q != p
    ensures s.procs[q].on != c
  {
    assert ProcOk(s, p) && ProcOk(s, q);
  }

  // ----------------------------------------------------------------- whole runs

  predicate Enabled(s: Sys, c: nat, a: Act) { if a.Go? then CanGo(s, c) else CanAct(s, c, a) }

  function Step(s: Sys, c: nat, a: Act): Sys
    requires Enabled(s, c, a)
  {
    if a.Go? then Gone(s, c) else Acted(s, c, a)
  }

  lemma GoInv(s: Sys, c: nat)
    requires Inv(s) && CanGo(s, c)
    ensures Inv(Gone(s, c))
  {
    hide Inv, Gone;
    match s.cpus[c].spot
    case Idle => IdleInv(s, c);
    case Open => IdleInv(s, c);
    case Look(_) => LookInv(s, c);
    case Got(_) => GotInv(s, c);
    case Chosen(_) => SwitchInv(s, c);
    case Loading(_) => LoadInv(s, c);
    case Leaving(_) => SwitchInv(s, c);
    case Back(_) => LoadInv(s, c);
    case Thread(p) =>
      var pc := s.procs[p].pc;
      if pc.YieldB? || pc.SleepB? || pc.ExitB? || pc.InSched? { ThreadInv(s, c, p); }
      else if pc.Resume? { ResumeInv(s, c, p); }
      else if pc.Relock? { RelockInv(s, c, p); }
      else { HelpInv(s, c, p); }
  }

  /** Every step of every CPU keeps the invariant. */
  lemma StepInv(s: Sys, c: nat, a: Act)
    requires Inv(s) && Enabled(s, c, a)
    ensures Inv(Step(s, c, a))
  {
    hide Inv, Gone, Acted, CanGo;
    if a.Go? { GoInv(s, c); }
    else if a.Acquire? || a.Release? || a.Interrupts? { KernelInv(s, c, a); }
    else if a.Yield? || a.Sleep? || a.Exit? { LeaveInv(s, c, a); }
    else { HelpStart(s, c, a); }
  }

  /** All CPUs in their scheduler loops, one process ready to run for the first time. */
  predicate Boot(s: Sys) {
    && s.lock == map[]
    && (forall c :: 0 <= c < |s.cpus| ==> s.cpus[c] == Cpu(Idle, -1, 0, false, false, false, {}))
    && |s.procs| > 0 && s.procs[0] == Proc(RUNNABLE, Resume(First), true, false, -1, false, None)
    && (forall p :: 0 < p < |s.procs| ==> s.procs[p] == Proc(UNUSED, Kernel, false, false, -1, false, None))
  }

  lemma BootInv(s: Sys)
    requires Boot(s)
    ensures Inv(s)
  {}

  /** `s'` follows from `s` by the steps of `trace`, in any interleaving of CPUs. */
  ghost predicate Reaches(s: Sys, trace: seq<(nat, Act)>, s': Sys)
    decreases |trace|
  {
    if trace == [] then s' == s
    else Enabled(s, trace[0].0, trace[0].1) && Reaches(Step(s, trace[0].0, trace[0].1), trace[1..], s')
  }

  lemma {:induction false} RunInv(s: Sys, trace: seq<(nat, Act)>, s': Sys)
    requires Inv(s) && Reaches(s, trace, s')
    ensures Inv(s')
    decreases |trace|
  {
    hide Inv, Enabled, Step;
    if trace != [] {
      StepInv(s, trace[0].0, trace[0].1);
      RunInv(Step(s, trace[0].0, trace[0].1), trace[1..], s');
    }
  }

  /** This CPU is about to save or load registers in swtch(). */
  predicate Switching(s: Sys, c: nat)
    requires c < |s.cpus|
  {
    match s.cpus[c].spot
    case Chosen(_) => true
    case Loading(_) => true
    case Leaving(_) => true
    case Thread(p) => p < |s.procs| && s.procs[p].pc.InSched?
    case _ => false
  }

  /** One of the four checks at the top of sched() fails for the process current on this CPU. */
  predicate SchedPanics(s: Sys, c: nat)
    requires c < |s.cpus|
  {
    var u := s.cpus[c];
    && u.spot.Thread? && u.spot.p < |s.procs| && s.procs[u.spot.p].pc.InSched?
    && (!(OfProc(u.spot.p) in s.lock && s.lock[OfProc(u.spot.p)] == c) || u.noff != 1 ||
        s.procs[u.spot.p].st == RUNNING || u.intr)
  }

  /** In every run: a process is current on one CPU at most; registers are loaded only after they were saved
      completely; every switch happens with one spin-lock held, that of the process, and interrupts off; sched()
      never panics; and interrupts are on only while no spin-lock is held. */
  lemma Exclusive(s0: Sys, trace: seq<(nat, Act)>, s: Sys)
    requires Boot(s0) && Reaches(s0, trace, s)
    ensures forall c, d :: 0 <= c < |s.cpus| && 0 <= d < |s.cpus| && s.cpus[c].proc == s.cpus[d].proc >= 0 ==> c == d
    ensures forall c ::
              0 <= c < |s.cpus| && s.cpus[c].spot.Loading? ==>
              s.cpus[c].spot.i < |s.procs| && s.procs[s.cpus[c].spot.i].ctx
    ensures forall c :: 0 <= c < |s.cpus| && s.cpus[c].spot.Leaving? ==> s.cpus[c].ctx
    ensures forall c ::
              0 <= c < |s.cpus| && Switching(s, c) ==>
              s.cpus[c].noff == 1 && !s.cpus[c].intr && s.cpus[c].proc >= 0 &&
              s.cpus[c].locks == {OfProc(s.cpus[c].proc)}
    ensures forall c :: 0 <= c < |s.cpus| ==> !SchedPanics(s, c) && (s.cpus[c].intr ==> s.cpus[c].noff == 0)
  {
    hide Inv, Reaches, Boot;
    BootInv(s0);
    RunInv(s0, trace, s);
    forall c, d | 0 <= c < |s.cpus| && 0 <= d < |s.cpus| && s.cpus[c].proc == s.cpus[d].proc >= 0
      ensures c == d
    {
      CurrentOn(s, c);
      CurrentOn(s, d);
    }
    forall c | 0 <= c < |s.cpus|
      ensures s.cpus[c].spot.Loading? ==> s.cpus[c].spot.i < |s.procs| && s.procs[s.cpus[c].spot.i].ctx
      ensures s.cpus[c].spot.Leaving? ==> s.cpus[c].ctx
      ensures Switching(s, c) ==>
                s.cpus[c].noff == 1 && !s.cpus[c].intr && s.cpus[c].proc >= 0 &&
                s.cpus[c].locks == {OfProc(s.cpus[c].proc)}
      ensures !SchedPanics(s, c) && (s.cpus[c].intr ==> s.cpus[c].noff == 0)
    {
      SwitchOk(s, c);
    }
  }

  /** A thread that got a CPU back, on whichever one, has interrupts as they were when it gave one up; a thread that
      runs for the first time has them as the intena of its CPU says. */
  lemma InterruptsRestored(s0: Sys, trace: seq<(nat, Act)>, s: Sys, c: nat)
    requires Boot(s0) && Reaches(s0, trace, s) && CanGo(s, c) && s.cpus[c].spot.Thread?
    requires s.procs[s.cpus[c].spot.p].pc.Resume?
    ensures var me, u := s.procs[s.cpus[c].spot.p], Gone(s, c).cpus[c];
            u.noff == 0 && u.intr == if me.pc.next == First then s.cpus[c].intena else me.was
  {
    hide Inv, Reaches, Boot;
    BootInv(s0);
    RunInv(s0, trace, s);
    ThreadAt(s, c);
  }

  /** A thread changes the state of process `i` from `was` to `now`. */
  ghost predicate ThreadCause(p: nat, pc: PC, i: nat, was: ProcState, now: ProcState) {
    match was
    case RUNNING => p == i && ((pc.YieldB? && now == RUNNABLE) || (pc.SleepB? && now == SLEEPING) ||
                               (pc.ExitB? && now == ZOMBIE))
    case SLEEPING => now == RUNNABLE && pc == WakeL(i)
    case UNUSED => now == RUNNABLE && pc == ForkL(i)
    case ZOMBIE => now == UNUSED && pc == ReapL(i)
    case RUNNABLE => false
  }

  /** What may have changed the state of process `i` when CPU `c` took a step. */
  ghost predicate Cause(s: Sys, c: nat, i: nat, was: ProcState, now: ProcState)
    requires c < |s.cpus| && i < |s.procs|
  {
    var spot := s.cpus[c].spot;
    || (was == RUNNABLE && now == RUNNING && spot == Got(i))
    || (spot.Thread? && spot.p < |s.procs| && ThreadCause(spot.p, s.procs[spot.p].pc, i, was, now))
  }

  /** Who changes the state of a process, and to what: the scheduler that picks it, its own yield(), sleep() and
      kexit(), another's wakeup() of a sleeper, kfork() of a free slot and kwait() of a zombie; and nothing else.  These
      do change it. */
  lemma StateMoves(s: Sys, c: nat, a: Act, i: nat)
    requires Inv(s) && Enabled(s, c, a) && i < |s.procs|
    ensures |Step(s, c, a).procs| == |s.procs|
    ensures Step(s, c, a).procs[i].st != s.procs[i].st ==>
              a.Go? && Cause(s, c, i, s.procs[i].st, Step(s, c, a).procs[i].st)
    ensures forall now :: a.Go? && Cause(s, c, i, s.procs[i].st, now) ==> Step(s, c, a).procs[i].st == now
  {
    hide Inv, Gone, Acted, CanGo, Cause;
    if a.Go? { GoneMoves(s, c, i); } else { ActedMoves(s, c, a, i); }
  }

  lemma ActedMoves(s: Sys, c: nat, a: Act, i: nat)
    requires CanAct(s, c, a) && i < |s.procs|
    ensures |Acted(s, c, a).procs| == |s.procs| && Acted(s, c, a).procs[i].st == s.procs[i].st
  {
    hide Acquired, Released;
  }

  lemma GoneMoves(s: Sys, c: nat, i: nat)
    requires Inv(s) && CanGo(s, c) && i < |s.procs|
    ensures |Gone(s, c).procs| == |s.procs|
    ensures Gone(s, c).procs[i].st != s.procs[i].st ==> Cause(s, c, i, s.procs[i].st, Gone(s, c).procs[i].st)
    ensures forall now :: Cause(s, c, i, s.procs[i].st, now) ==> Gone(s, c).procs[i].st == now
  {
    hide Inv, Acquired, Released, ThreadGone, ThreadCause;
    if s.cpus[c].spot.Thread? {
      ThreadRuns(s, c);
      ThreadMoves(s, c, s.cpus[c].spot.p, i);
    }
  }

  /** A thread that is on a CPU is RUNNING, unless it is in sched() or has just changed its state itself. */
  lemma ThreadRuns(s: Sys, c: nat)
    requires Inv(s) && c < |s.cpus| && s.cpus[c].spot.Thread?
    ensures s.cpus[c].spot.p < |s.procs|
    ensures var pc := s.procs[s.cpus[c].spot.p].pc;
            pc.YieldB? || pc.SleepB? || pc.ExitB? || pc.WakeL? || pc.ForkL? || pc.ReapL? ==>
              s.procs[s.cpus[c].spot.p].st == RUNNING
  {
    hide LocksOk, ProcOk, CountOk;
    assert SpotOk(s, c);
  }

  lemma ThreadMoves(s: Sys, c: nat, p: nat, i: nat)
    requires CanGo(s, c) && s.cpus[c].spot == Thread(p) && i < |s.procs|
    requires var pc := s.procs[p].pc;
             pc.YieldB? || pc.SleepB? || pc.ExitB? || pc.WakeL? || pc.ForkL? || pc.ReapL? ==> s.procs[p].st == RUNNING
    ensures |ThreadGone(s, c, p).procs| == |s.procs|
    ensures ThreadGone(s, c, p).procs[i].st != s.procs[i].st ==>
              ThreadCause(p, s.procs[p].pc, i, s.procs[i].st, ThreadGone(s, c, p).procs[i].st)
    ensures forall now :: ThreadCause(p, s.procs[p].pc, i, s.procs[i].st, now) ==>
              ThreadGone(s, c, p).procs[i].st == now
  {
    hide ThreadCause, ThreadGone;
    var pc, was := s.procs[p].pc, s.procs[i].st;
    if pc.WakeL? || pc.ForkL? || pc.ReapL? { HelpMoves(s, c, p, i); } else { OwnMoves(s, c, p, i); }
    ThreadCauses(p, pc, i, was);
  }

  /** The only new state a thread can give a process, if it gives it one. */
  function NewState(p: nat, pc: PC, i: nat, was: ProcState): ProcState {
    match pc
    case YieldB => if i == p then RUNNABLE else was
    case SleepB(_) => if i == p then SLEEPING else was
    case ExitB(_) => if i == p then ZOMBIE else was
    case WakeL(q) => if i == q && was == SLEEPING then RUNNABLE else was
    case ForkL(q) => if i == q && was == UNUSED then RUNNABLE else was
    case ReapL(q) => if i == q && was == ZOMBIE then UNUSED else was
    case _ => was
  }

  lemma ThreadCauses(p: nat, pc: PC, i: nat, was: ProcState)
    requires i == p && (pc.YieldB? || pc.SleepB? || pc.ExitB?) ==> was == RUNNING
    ensures NewState(p, pc, i, was) != was ==> ThreadCause(p, pc, i, was, NewState(p, pc, i, was))
    ensures forall now :: ThreadCause(p, pc, i, was, now) ==> NewState(p, pc, i, was) == now
  {}

  lemma DropProcs(s: Sys, c: nat, k: Lock)
    requires c < |s.cpus|
    ensures Drop(s, c, k).procs == s.procs && Take(s, c, k).procs == s.procs
  {}

  lemma OwnMoves(s: Sys, c: nat, p: nat, i: nat)
    requires CanGo(s, c) && s.cpus[c].spot == Thread(p) && i < |s.procs|
    requires var pc := s.procs[p].pc; !(pc.WakeL? || pc.ForkL? || pc.ReapL?)
    ensures |ThreadGone(s, c, p).procs| == |s.procs|
    ensures ThreadGone(s, c, p).procs[i].st == NewState(p, s.procs[p].pc, i, s.procs[i].st)
  {
    hide Drop, Take;
    match s.procs[p].pc
    case SleepB(k) => DropProcs(SetState(s, p, SLEEPING, InSched(ToLock(k))), c, Other(k));
    case ExitB(k) => DropProcs(SetState(s, p, ZOMBIE, InSched(Never)), c, Other(k));
    case Resume(next) => DropProcs(Resumed(s, c, p, next), c, OfProc(p));
    case Relock(k) => DropProcs(To(s, p, Kernel), c, Other(k));
    case _ =>
  }

  lemma HelpMoves(s: Sys, c: nat, p: nat, i: nat)
    requires CanGo(s, c) && s.cpus[c].spot == Thread(p) && i < |s.procs|
    requires var pc := s.procs[p].pc; pc.WakeL? || pc.ForkL? || pc.ReapL?
    ensures |ThreadGone(s, c, p).procs| == |s.procs|
    ensures ThreadGone(s, c, p).procs[i].st == NewState(p, s.procs[p].pc, i, s.procs[i].st)
  {}

  /** In every run: a process is SLEEPING only in sleep(), a ZOMBIE only in kexit(); one that has called yield() is
      RUNNING on a CPU or RUNNABLE; and one that has called kexit() never leaves it. */
  lemma StatesFit(s0: Sys, trace: seq<(nat, Act)>, s: Sys, p: nat)
    requires Boot(s0) && Reaches(s0, trace, s) && p < |s.procs|
    ensures s.procs[p].st == SLEEPING ==> s.procs[p].call.Sleeping? && s.procs[p].pc != Kernel
    ensures s.procs[p].st == RUNNING ==> s.procs[p].on >= 0
    ensures s.procs[p].call == Exiting ==> s.procs[p].pc != Kernel
    ensures s.procs[p].call == Yielding ==> s.procs[p].st == RUNNABLE || s.procs[p].st == RUNNING
    ensures s.procs[p].st == ZOMBIE ==> s.procs[p].call == Exiting
  {
    hide Inv, Reaches, Boot;
    BootInv(s0);
    RunInv(s0, trace, s);
    StateFits(s, p);
  }

  lemma StateFits(s: Sys, p: nat)
    requires Inv(s) && p < |s.procs|
    ensures s.procs[p].st == SLEEPING ==> s.procs[p].call.Sleeping? && s.procs[p].pc != Kernel
    ensures s.procs[p].st == RUNNING ==> s.procs[p].on >= 0
    ensures s.procs[p].call == Exiting ==> s.procs[p].pc != Kernel
    ensures s.procs[p].call == Yielding ==> s.procs[p].st == RUNNABLE || s.procs[p].st == RUNNING
    ensures s.procs[p].st == ZOMBIE ==> s.procs[p].call == Exiting
  {
    hide LocksOk;
    assert ProcOk(s, p);
    if s.procs[p].on != -1 { assert SpotOk(s, s.procs[p].on); }
  }

  /** The locks a thread holds when the routine it called returns. */
  ghost predicate ReturnOk(call: Call, locks: set<Lock>) {
    match call
    case Sleeping(k) => locks == {Other(k)}
    case Yielding => locks == {}
    case None => locks == {}
    case Helping(_) => OnlyOther(locks)
    case Exiting => false
  }

  /** If the thread is back outside the routines, it runs, with the right locks. */
  ghost predicate ReturnsWell(s: Sys, s': Sys, c: nat, p: nat) {
    && p < |s.procs| == |s'.procs| && c < |s'.cpus|
    && (s'.procs[p].pc == Kernel ==> s'.procs[p].st == RUNNING && ReturnOk(s.procs[p].call, s'.cpus[c].locks))
  }

  /** A routine that returns has kept its word, in every run: sleep() has the condition lock again and no other, yield()
      and a first run have none, and kexit() does not return. */
  lemma Returns(s0: Sys, trace: seq<(nat, Act)>, s: Sys, c: nat)
    requires Boot(s0) && Reaches(s0, trace, s) && CanGo(s, c) && s.cpus[c].spot.Thread?
    ensures ReturnsWell(s, Gone(s, c), c, s.cpus[c].spot.p)
  {
    hide Inv, Reaches, Boot;
    BootInv(s0);
    RunInv(s0, trace, s);
    Returned(s, c, s.cpus[c].spot.p);
  }

  lemma Returned(s: Sys, c: nat, p: nat)
    requires Inv(s) && CanGo(s, c) && s.cpus[c].spot == Thread(p)
    ensures ReturnsWell(s, Gone(s, c), c, p)
  {
    hide LocksOk, Acquired, Released;
    assert SpotOk(s, c) && ProcOk(s, p) && CountOk(s, c);
    ReturnLocks(s, c, p);
  }

  lemma ReturnLocks(s: Sys, c: nat, p: nat)
    requires Inv(s) && CanGo(s, c) && s.cpus[c].spot == Thread(p)
    ensures var pc, now := s.procs[p].pc, Gone(s, c).cpus[c].locks;
            match pc
            case Resume(_) => now == {}
            case Relock(k) => now == {Other(k)}
            case WakeL(_) => OnlyOther(now)
            case ForkL(_) => OnlyOther(now)
            case ReapL(_) => OnlyOther(now)
            case _ => true
  {
    hide LocksOk, ProcOk;
    assert SpotOk(s, c) && CountOk(s, c);
  }

  /** CPU `c` waits for a lock that another CPU holds; if that is a process's, the other can go on. */
  ghost predicate Waiting(s: Sys, c: nat)
    requires c < |s.cpus|
  {
    match s.cpus[c].spot
    case Look(i) => OfProc(i) in s.lock && s.lock[OfProc(i)] != c && CanGo(s, s.lock[OfProc(i)])
    case Thread(p) => p < |s.procs| && s.procs[p].pc.Relock? && Other(s.procs[p].pc.k) in s.lock &&
                      s.lock[Other(s.procs[p].pc.k)] != c
    case _ => false
  }

  /** Nothing is stuck, in any run: every CPU can take its next step, runs a thread outside these routines, or waits for
      a lock that another CPU holds; and a CPU that holds a process's lock can go on. */
  lemma NeverStuck(s0: Sys, trace: seq<(nat, Act)>, s: Sys, c: nat)
    requires Boot(s0) && Reaches(s0, trace, s) && c < |s.cpus|
    ensures || CanGo(s, c) || Waiting(s, c)
            || (s.cpus[c].spot.Thread? && s.cpus[c].spot.p < |s.procs| && s.procs[s.cpus[c].spot.p].pc == Kernel)
  {
    hide Inv, Reaches, Boot;
    BootInv(s0);
    RunInv(s0, trace, s);
    NotStuck(s, c);
  }

  lemma NotStuck(s: Sys, c: nat)
    requires Inv(s) && c < |s.cpus|
    ensures || CanGo(s, c) || Waiting(s, c)
            || (s.cpus[c].spot.Thread? && s.cpus[c].spot.p < |s.procs| && s.procs[s.cpus[c].spot.p].pc == Kernel)
  {
    hide ProcOk;
    assert SpotOk(s, c) && CountOk(s, c);
    if s.cpus[c].spot.Look? && OfProc(s.cpus[c].spot.i) in s.lock { HolderGoes(s, s.cpus[c].spot.i); }
  }

  lemma HolderGoes(s: Sys, i: nat)
    requires Inv(s) && OfProc(i) in s.lock
    ensures CanGo(s, s.lock[OfProc(i)])
  {
    hide ProcOk;
    var d := s.lock[OfProc(i)];
    assert SpotOk(s, d) && CountOk(s, d) && OfProc(i) in s.cpus[d].locks;
  }

  /** CPU `c` is at slot `i` of the scheduler's loop and nothing else has changed since `s`. */
  ghost predicate ScannedTo(s: Sys, s': Sys, c: nat, i: nat) {
    && c < |s.cpus| == |s'.cpus| && s'.procs == s.procs && s'.lock == s.lock
    && s'.cpus == s.cpus[c := s'.cpus[c]] && Scanning(s', c, i)
  }

  ghost predicate Scanning(s: Sys, c: nat, i: nat) {
    c < |s.cpus| && s.cpus[c].spot == Look(i) && s.cpus[c].locks == {} && s.cpus[c].noff == 0
  }

  /** One slot that is not RUNNABLE is looked at and left. */
  lemma Skip(s: Sys, c: nat, i: nat)
    requires Scanning(s, c, i) && i < |s.procs| && Free(s, OfProc(i)) && s.procs[i].st != RUNNABLE
    ensures CanGo(s, c) && CanGo(Gone(s, c), c) && ScannedTo(s, Gone(Gone(s, c), c), c, i + 1)
  {
    assert s.lock[OfProc(i) := c] - {OfProc(i)} == s.lock;
  }

  lemma {:induction false} Scan(s: Sys, c: nat, j: nat, i: nat) returns (trace: seq<(nat, Act)>, s': Sys)
    requires Scanning(s, c, j) && j <= i <= |s.procs|
    requires forall k :: j <= k < i ==> s.procs[k].st != RUNNABLE && Free(s, OfProc(k))
    ensures Reaches(s, trace, s') && ScannedTo(s, s', c, i) && (forall k :: 0 <= k < |trace| ==> trace[k] == (c, Go))
    decreases i - j
  {
    hide Gone, CanGo;
    trace, s' := [], s;
    if j < i {
      Skip(s, c, j);
      var s1 := Gone(s, c);
      var s2 := Gone(s1, c);
      var rest;
      rest, s' := Scan(s2, c, j + 1, i);
      trace := [(c, Go), (c, Go)] + rest;
      assert trace[1..] == [(c, Go)] + rest && trace[1..][1..] == rest;
    }
  }

  /** From the lock of a RUNNABLE process to its thread. */
  lemma Pick(s: Sys, c: nat, i: nat)
    requires Scanning(s, c, i) && i < |s.procs| && Free(s, OfProc(i)) && s.procs[i].st == RUNNABLE
    ensures CanGo(s, c) && CanGo(Gone(s, c), c) && CanGo(Gone(Gone(s, c), c), c)
    ensures CanGo(Gone(Gone(Gone(s, c), c), c), c)
    ensures var s' := Gone(Gone(Gone(Gone(s, c), c), c), c);
            c < |s'.cpus| && s'.cpus[c].spot == Thread(i) && i < |s'.procs| && s'.procs[i].st == RUNNING
  {}

  /** The scheduler runs the first RUNNABLE process: in any state of any run, a CPU at the top of the loop that takes
      its next steps while no other CPU holds the lock of a process comes to that process's thread. */
  lemma PicksFirst(s0: Sys, before: seq<(nat, Act)>, s: Sys, c: nat, i: nat) returns (trace: seq<(nat, Act)>, s': Sys)
    requires Boot(s0) && Reaches(s0, before, s) && c < |s.cpus| && s.cpus[c].spot == Idle && i < |s.procs|
    requires s.procs[i].st == RUNNABLE && forall k :: 0 <= k < i ==> s.procs[k].st != RUNNABLE
    requires forall k :: 0 <= k < |s.procs| ==> Free(s, OfProc(k))
    ensures Reaches(s, trace, s') && forall k :: 0 <= k < |trace| ==> trace[k] == (c, Go)
    ensures c < |s'.cpus| && s'.cpus[c].spot == Thread(i) && i < |s'.procs| && s'.procs[i].st == RUNNING
  {
    hide Inv, Boot, Gone, CanGo, Reaches;
    BootInv(s0);
    RunInv(s0, before, s);
    IdleFree(s, c);
    Opened(s, c);
    var s2 := Gone(Gone(s, c), c);
    var rest;
    rest, s' := PickFrom(s2, c, i);
    TwoThen(s, c, rest, s');
    trace := [(c, Go), (c, Go)] + rest;
  }

  lemma PickFrom(s: Sys, c: nat, i: nat) returns (trace: seq<(nat, Act)>, s': Sys)
    requires Scanning(s, c, 0) && i < |s.procs|
    requires s.procs[i].st == RUNNABLE && forall k :: 0 <= k < i ==> s.procs[k].st != RUNNABLE
    requires forall k :: 0 <= k < |s.procs| ==> Free(s, OfProc(k))
    ensures Reaches(s, trace, s') && forall k :: 0 <= k < |trace| ==> trace[k] == (c, Go)
    ensures c < |s'.cpus| && s'.cpus[c].spot == Thread(i) && i < |s'.procs| && s'.procs[i].st == RUNNING
  {
    hide Gone, CanGo, Reaches;
    var scan, s1 := Scan(s, c, 0, i);
    Pick(s1, c, i);
    s' := Gone(Gone(Gone(Gone(s1, c), c), c), c);
    var four := Four(s1, c);
    Joined(s, scan, s1, four, s');
    trace := scan + four;
  }

  lemma IdleFree(s: Sys, c: nat)
    requires Inv(s) && c < |s.cpus| && s.cpus[c].spot == Idle
    ensures s.cpus[c].locks == {} && s.cpus[c].noff == 0
  {
    assert SpotOk(s, c) && CountOk(s, c);
  }

  lemma Opened(s: Sys, c: nat)
    requires c < |s.cpus| && s.cpus[c].spot == Idle && s.cpus[c].locks == {} && s.cpus[c].noff == 0
    ensures CanGo(s, c) && CanGo(Gone(s, c), c) && ScannedTo(s, Gone(Gone(s, c), c), c, 0)
  {}

  lemma Four(s: Sys, c: nat) returns (trace: seq<(nat, Act)>)
    requires CanGo(s, c) && CanGo(Gone(s, c), c) && CanGo(Gone(Gone(s, c), c), c)
    requires CanGo(Gone(Gone(Gone(s, c), c), c), c)
    ensures trace == [(c, Go), (c, Go), (c, Go), (c, Go)] && Reaches(s, trace, Gone(Gone(Gone(Gone(s, c), c), c), c))
  {
    hide Gone, CanGo;
    var s2 := Gone(Gone(s, c), c);
    trace := [(c, Go), (c, Go)];
    TwoThen(s2, c, [], Gone(Gone(s2, c), c));
    TwoThen(s, c, trace, Gone(Gone(s2, c), c));
    assert [(c, Go), (c, Go)] + [] == trace;
    trace := [(c, Go), (c, Go)] + trace;
  }

  lemma TwoThen(s: Sys, c: nat, rest: seq<(nat, Act)>, s': Sys)
    requires CanGo(s, c) && CanGo(Gone(s, c), c) && Reaches(Gone(Gone(s, c), c), rest, s')
    ensures Reaches(s, [(c, Go), (c, Go)] + rest, s')
  {
    hide Gone, CanGo;
    var trace := [(c, Go), (c, Go)] + rest;
    assert trace[1..] == [(c, Go)] + rest && trace[1..][1..] == rest;
  }

  lemma {:induction false} Joined(s: Sys, t1: seq<(nat, Act)>, s1: Sys, t2: seq<(nat, Act)>, s2: Sys)
    requires Reaches(s, t1, s1) && Reaches(s1, t2, s2)
    ensures Reaches(s, t1 + t2, s2)
    decreases |t1|
  {
    hide Step, Enabled;
    if t1 == [] {
      assert t1 + t2 == t2;
    } else {
      Joined(Step(s, t1[0].0, t1[0].1), t1[1..], s1, t2, s2);
      assert (t1 + t2)[1..] == t1[1..] + t2;
    }
  }

  lemma ThreadAt(s: Sys, c: nat)
    requires Inv(s) && c < |s.cpus| && s.cpus[c].spot.Thread?
    ensures s.cpus[c].spot.p < |s.procs| && ThreadOk(s, s.cpus[c], s.cpus[c].spot.p) && CountOk(s, c)
  {
    assert SpotOk(s, c);
  }

  lemma CurrentOn(s: Sys, c: nat)
    requires Inv(s) && c < |s.cpus| && s.cpus[c].proc >= 0
    ensures s.cpus[c].proc < |s.procs| && s.procs[s.cpus[c].proc].on == c
  {
    assert SpotOk(s, c);
  }

  lemma SwitchOk(s: Sys, c: nat)
    requires Inv(s) && c < |s.cpus|
    ensures s.cpus[c].spot.Loading? ==> s.cpus[c].spot.i < |s.procs| && s.procs[s.cpus[c].spot.i].ctx
    ensures s.cpus[c].spot.Leaving? ==> s.cpus[c].ctx
    ensures Switching(s, c) ==>
              s.cpus[c].noff == 1 && !s.cpus[c].intr && s.cpus[c].proc >= 0 &&
              s.cpus[c].locks == {OfProc(s.cpus[c].proc)}
    ensures !SchedPanics(s, c) && (s.cpus[c].intr ==> s.cpus[c].noff == 0)
  {
    assert SpotOk(s, c) && CountOk(s, c);
  }
}
