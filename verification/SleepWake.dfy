/** sleep(), wakeup(), sleep-locks, kexit(), kwait() and kfork() of kernel/proc.c and
    kernel/sleeplock.c as one machine over any number of processes.  A step is one acquire or release
    of a spin-lock together with the code up to the next one; switching to and from the scheduler
    releases and acquires the process's own lock. */
module SleepWake {

  datatype ProcState = UNUSED | USED | SLEEPING | RUNNABLE | RUNNING | ZOMBIE

  /** Spin-locks: of a sleep-lock, of a process, and wait_lock. */
  datatype Lock = OfSleep(l: nat) | OfProc(p: nat) | WaitLock

  datatype Chan = NoChan | SleepChan(l: nat) | ProcChan(p: nat)

  /** Who calls wakeup(): releasesleep(), reparent() at child `k`, or kexit() for the parent. */
  datatype Waker = ByRelease(l: nat) | ByReparent(k: nat) | ByExit

  datatype PC =
    | Unused                            // the slot is free
    | Embryo(maker: nat)                // the slot is being filled by kfork() in process `maker`
    | Run                               // outside these routines, no spin-lock held
    | AsTest(l: nat)                    // acquiresleep() before the test of locked
    | RsSet(l: nat)                     // releasesleep() before locked = 0
    | Wk(w: Waker, i: nat)              // wakeup() before slot i
    | WkL(w: Waker, i: nat)             // wakeup() holding the lock of slot i
    | Rp(k: nat)                        // reparent() before slot k
    | KeZ                               // kexit() holding wait_lock and its own lock
    | KeSw                              // kexit() in sched()
    | Dead                              // switched out for good
    | Kw(i: nat, have: bool)            // kwait() before slot i
    | KwL(i: nat, have: bool)           // kwait() holding the lock of child i
    | KwF                               // kwait() about to return
    | SlB(c: Chan, lk: Lock)            // sleep() holding both locks
    | SlC(c: Chan, lk: Lock)            // sleep() holding its own lock only
    | Zz(c: Chan, lk: Lock)             // switched out in sleep()
    | SlE(c: Chan, lk: Lock)            // back from sched() in sleep()
    | SlF(lk: Lock)                     // sleep() before it takes lk again
    | Y1                                // yield() holding its own lock
    | Parked                            // switched out in yield(), or never run yet
    | Fresh                             // switched to, own lock still held
    | FkA(n: nat) | FkB(n: nat) | FkC(n: nat) | FkD(n: nat) | FkE(n: nat) // kfork() filling slot n
    | Kl(v: nat)                        // kkill() holding the lock of v

  datatype Proc = Proc(st: ProcState, chan: Chan, pc: PC, parent: int, held: set<nat>)

  /** `own[l]` is the pid of the holder of sleep-lock `l`, or -1; `lock` maps each held spin-lock to its holder. */
  datatype Sys = Sys(procs: seq<Proc>, own: seq<int>, lock: map<Lock, nat>)

  const INIT: nat := 0

  // ------------------------------------------------------------------ the steps

  datatype Act = Sleep(l: nat) | Release(l: nat) | Exit | Wait | Fork(n: nat) | Kill(v: nat) | Yield | Go(fail: bool)

  function SetPC(s: Sys, p: nat, pc: PC): Sys
    requires p < |s.procs|
  {
    s.(procs := s.procs[p := s.procs[p].(pc := pc)])
  }

  function SetState(s: Sys, p: nat, st: ProcState): Sys
    requires p < |s.procs|
  {
    s.(procs := s.procs[p := s.procs[p].(st := st)])
  }

  function Take(s: Sys, p: nat, k: Lock): Sys { s.(lock := s.lock[k := p]) }

  function Drop(s: Sys, k: Lock): Sys { s.(lock := s.lock - {k}) }

  predicate Free(s: Sys, k: Lock) { k !in s.lock }

  function BaseLock(w: Waker): Lock { if w.ByRelease? then OfSleep(w.l) else WaitLock }

  /** The channel wakeup() is called with. */
  function WakeChan(s: Sys, p: nat, w: Waker): Chan
    requires p < |s.procs|
  {
    match w
    case ByRelease(l) => SleepChan(l)
    case ByReparent(_) => ProcChan(INIT)
    case ByExit => if s.procs[p].parent < 0 then NoChan else ProcChan(s.procs[p].parent)
  }

  /** Where sleep() returns to, after it took the condition lock again. */
  function AfterSleep(lk: Lock): PC { if lk.OfSleep? then AsTest(lk.l) else Kw(0, false) }

  /** A routine may start: its first lock is free. */
  predicate CanStart(s: Sys, p: nat, a: Act) {
    && p < |s.procs| && s.procs[p].pc == Run
    && match a
       case Sleep(l) => l < |s.own| && Free(s, OfSleep(l))
       case Release(l) => l in s.procs[p].held && l < |s.own| && Free(s, OfSleep(l))
       case Exit => p != INIT && s.procs[p].held == {} && Free(s, WaitLock)
       case Wait => Free(s, WaitLock)
       case Fork(c) => c < |s.procs| && s.procs[c].st == UNUSED && Free(s, OfProc(c))
       case Kill(v) => v < |s.procs| && Free(s, OfProc(v))
       case Yield => Free(s, OfProc(p))
       case Go(_) => false
  }

  /** A routine may go on: the lock it needs next is free, or it is time to be switched to. */
  predicate CanGo(s: Sys, p: nat, fail: bool) {
    && p < |s.procs|
    && var n := |s.procs|;
       match s.procs[p].pc
       case Run => false
       case Unused => false
       case Embryo(_) => false
       case Dead => false
       case AsTest(l) => l < |s.own| && (s.own[l] == -1 || Free(s, OfProc(p)))
       case RsSet(l) => l < |s.own|
       case Wk(w, i) => if i < n then i == p || Free(s, OfProc(i)) else w.ByExit? ==> Free(s, OfProc(p))
       case WkL(_, i) => i < n
       case Kw(i, have) =>
           if i < n then s.procs[i].parent == p ==> Free(s, OfProc(i)) else have && !fail ==> Free(s, OfProc(p))
       case KwL(i, _) => i < n
       case Zz(_, _) => s.procs[p].st == RUNNABLE && Free(s, OfProc(p))
       case Parked => s.procs[p].st == RUNNABLE && Free(s, OfProc(p))
       case SlF(lk) => Free(s, lk)
       case FkA(c) => c < n
       case FkB(_) => Free(s, WaitLock)
       case FkC(c) => c < n
       case FkD(c) => Free(s, OfProc(c))
       case FkE(c) => c < n
       case Kl(v) => v < n
       case _ => true
  }

  /** wakeup() and kkill() make a sleeping process runnable. */
  function Wake(s: Sys, i: nat): Sys
    requires i < |s.procs|
  {
    if s.procs[i].st == SLEEPING then SetState(s, i, RUNNABLE) else s
  }

  function Start(s: Sys, p: nat, a: Act): Sys
    requires CanStart(s, p, a)
  {
    match a
    case Sleep(l) => Take(SetPC(s, p, AsTest(l)), p, OfSleep(l))
    case Release(l) => Take(SetPC(s, p, RsSet(l)), p, OfSleep(l))
    case Exit => Take(SetPC(s, p, Rp(0)), p, WaitLock)
    case Wait => Take(SetPC(s, p, Kw(0, false)), p, WaitLock)
    case Fork(c) => Take(SetPC(SetPC(SetState(s, c, USED), c, Embryo(p)), p, FkA(c)), p, OfProc(c))
    case Kill(v) => Take(SetPC(s, p, Kl(v)), p, OfProc(v))
    case Yield => Take(SetPC(s, p, Y1), p, OfProc(p))
  }

  /** The next step of a routine; `fail` is a copyout() that fails, an allocation that fails, or a kill seen by
      kwait(). */
  function Continue(s: Sys, p: nat, fail: bool): Sys
    requires CanGo(s, p, fail)
  {
    var me := s.procs[p]; var n := |s.procs|;
    match me.pc
    case AsTest(l) =>
      if s.own[l] == -1 then
        Drop(s.(procs := s.procs[p := me.(pc := Run, held := me.held + {l})], own := s.own[l := p]), OfSleep(l))
      else Take(SetPC(s, p, SlB(SleepChan(l), OfSleep(l))), p, OfProc(p))
    case RsSet(l) =>
      s.(procs := s.procs[p := me.(pc := Wk(ByRelease(l), 0), held := me.held - {l})], own := s.own[l := -1])
    case Wk(w, i) =>
      if i < n then
        if i == p then SetPC(s, p, Wk(w, i + 1)) else Take(SetPC(s, p, WkL(w, i)), p, OfProc(i))
      else (
        match w
        case ByRelease(l) => Drop(SetPC(s, p, Run), OfSleep(l))
        case ByReparent(k) => SetPC(s, p, Rp(k + 1))
        case ByExit => Take(SetPC(s, p, KeZ), p, OfProc(p)))
    case WkL(w, i) =>
      var s1 := if s.procs[i].chan == WakeChan(s, p, w) then Wake(s, i) else s;
      Drop(SetPC(s1, p, Wk(w, i + 1)), OfProc(i))
    case Rp(k) =>
      if k >= n then SetPC(s, p, Wk(ByExit, 0))
      else if s.procs[k].parent ==
          p then SetPC(s.(procs := s.procs[k := s.procs[k].(parent := INIT)]), p, Wk(ByReparent(k), 0))
      else SetPC(s, p, Rp(k + 1))
    case KeZ => Drop(SetPC(SetState(s, p, ZOMBIE), p, KeSw), WaitLock)
    case KeSw => Drop(SetPC(s, p, Dead), OfProc(p))
    case Kw(i, have) =>
      if i < n then
        if s.procs[i].parent == p then Take(SetPC(s, p, KwL(i, have)), p, OfProc(i)) else SetPC(s, p, Kw(i + 1, have))
      else if have && !fail then Take(SetPC(s, p, SlB(ProcChan(p), WaitLock)), p, OfProc(p))
      else Drop(SetPC(s, p, Run), WaitLock)
    case KwL(i, have) =>
      if s.procs[i].st == ZOMBIE then
        if fail then Drop(SetPC(s, p, KwF), OfProc(i))
        else Drop(SetPC(s.(procs :=
            s.procs[i := s.procs[i].(st := UNUSED, chan := NoChan, pc := Unused, parent := -1)]), p, KwF), OfProc(i))
      else Drop(SetPC(s, p, Kw(i + 1, true)), OfProc(i))
    case KwF => Drop(SetPC(s, p, Run), WaitLock)
    case SlB(c, lk) => Drop(SetPC(s, p, SlC(c, lk)), lk)
    case SlC(c, lk) => Drop(s.(procs := s.procs[p := me.(pc := Zz(c, lk), chan := c, st := SLEEPING)]), OfProc(p))
    case Zz(c, lk) => Take(SetPC(SetState(s, p, RUNNING), p, SlE(c, lk)), p, OfProc(p))
    case SlE(c, lk) => Drop(s.(procs := s.procs[p := me.(pc := SlF(lk), chan := NoChan)]), OfProc(p))
    case SlF(lk) => Take(SetPC(s, p, AfterSleep(lk)), p, lk)
    case Y1 => Drop(SetPC(SetState(s, p, RUNNABLE), p, Parked), OfProc(p))
    case Parked => Take(SetPC(SetState(s, p, RUNNING), p, Fresh), p, OfProc(p))
    case Fresh => Drop(SetPC(s, p, Run), OfProc(p))
    case FkA(c) =>
      if fail then Drop(SetPC(SetPC(SetState(s, c, UNUSED), c, Unused), p, Run), OfProc(c))
      else Drop(SetPC(s, p, FkB(c)), OfProc(c))
    case FkB(c) => Take(SetPC(s, p, FkC(c)), p, WaitLock)
    case FkC(c) => Drop(SetPC(s.(procs := s.procs[c := s.procs[c].(parent := p)]), p, FkD(c)), WaitLock)
    case FkD(c) => Take(SetPC(s, p, FkE(c)), p, OfProc(c))
    case FkE(c) => Drop(SetPC(SetPC(SetState(s, c, RUNNABLE), c, Parked), p, Run), OfProc(c))
    case Kl(v) => Drop(SetPC(Wake(s, v), p, Run), OfProc(v))
  }

  // --------------------------------------------------------------- the invariant

  /** The spin-locks a process holds at a program point. */
  function Holds(pc: PC, p: nat): set<Lock> {
    match pc
    case AsTest(l) => {OfSleep(l)}
    case RsSet(l) => {OfSleep(l)}
    case Wk(w, _) => {BaseLock(w)}
    case WkL(w, i) => {BaseLock(w), OfProc(i)}
    case Rp(_) => {WaitLock}
    case KeZ => {WaitLock, OfProc(p)}
    case KeSw => {OfProc(p)}
    case Kw(_, _) => {WaitLock}
    case KwL(i, _) => {WaitLock, OfProc(i)}
    case KwF => {WaitLock}
    case SlB(_, lk) => {lk, OfProc(p)}
    case SlC(_, _) => {OfProc(p)}
    case SlE(_, _) => {OfProc(p)}
    case Y1 => {OfProc(p)}
    case Fresh => {OfProc(p)}
    case FkA(n) => {OfProc(n)}
    case FkC(_) => {WaitLock}
    case FkE(n) => {OfProc(n)}
    case Kl(v) => {OfProc(v)}
    case _ => {}
  }

  /** Every spin-lock is held by the process whose program point says so, and by no other. */
  ghost predicate LocksOk(s: Sys) {
    && (forall k :: k in s.lock ==> s.lock[k] < |s.procs| && k in Holds(s.procs[s.lock[k]].pc, s.lock[k]))
    && (forall p :: 0 <= p < |s.procs| ==> LocksOf(s.lock, p, Holds(s.procs[p].pc, p)))
  }

  ghost predicate LocksOf(lock: map<Lock, nat>, p: nat, held: set<Lock>) { forall k ::
      k in held ==> k in lock && lock[k] == p }

  ghost predicate KeyOk(s: Sys, p: nat, c: Chan, lk: Lock) {
    if lk.OfSleep? then lk.l < |s.own| && c == SleepChan(lk.l) else lk == WaitLock && c == ProcChan(p)
  }

  ghost predicate Filling(s: Sys, p: nat, c: nat) { c < |s.procs| && s.procs[c].st == USED &&
      s.procs[c].pc == Embryo(p) }

  ghost predicate WakerOk(s: Sys, w: Waker) { w.ByRelease? ==> w.l < |s.own| }

  /** State, channel and arguments fit the program point. */
  ghost predicate PcOk(s: Sys, p: nat)
    requires p < |s.procs|
  {
    var me := s.procs[p]; var n := |s.procs|;
    match me.pc
    case Unused => me.st == UNUSED
    case Embryo(_) => me.st == USED
    case KeSw => me.st == ZOMBIE
    case Dead => me.st == ZOMBIE
    case Parked => me.st == RUNNABLE
    case Zz(c, lk) => KeyOk(s, p, c, lk) && me.chan == c && (me.st == SLEEPING || me.st == RUNNABLE)
    case Run => me.st == RUNNING
    case AsTest(l) => me.st == RUNNING && l < |s.own|
    case RsSet(l) => me.st == RUNNING && l in me.held
    case Wk(w, i) => me.st == RUNNING && i <= n && WakerOk(s, w)
    case WkL(w, i) => me.st == RUNNING && i < n && i != p && WakerOk(s, w)
    case KwL(i, _) => me.st == RUNNING && i < n && s.procs[i].parent == p
    case SlB(c, lk) => me.st == RUNNING && KeyOk(s, p, c, lk)
    case SlC(c, lk) => me.st == RUNNING && KeyOk(s, p, c, lk)
    case SlE(c, lk) => me.st == RUNNING && KeyOk(s, p, c, lk)
    case SlF(lk) => me.st == RUNNING && ((lk.OfSleep? && lk.l < |s.own|) || lk == WaitLock)
    case FkA(c) => me.st == RUNNING && Filling(s, p, c)
    case FkB(c) => me.st == RUNNING && Filling(s, p, c)
    case FkC(c) => me.st == RUNNING && Filling(s, p, c)
    case FkD(c) => me.st == RUNNING && Filling(s, p, c)
    case FkE(c) => me.st == RUNNING && Filling(s, p, c)
    case Kl(v) => me.st == RUNNING && v < n
    case _ => me.st == RUNNING
  }

  ghost predicate HeldOk(own: seq<int>, p: nat, held: set<nat>) { forall l :: l in held ==> l < |own| && own[l] == p }

  /** A sleep-lock is recorded as held by exactly the process that holds it. */
  ghost predicate OwnOk(s: Sys) {
    && (forall l :: 0 <= l < |s.own| ==> -1 <= s.own[l] < |s.procs|)
    && (forall p :: 0 <= p < |s.procs| ==> HeldOk(s.own, p, s.procs[p].held))
    && (forall l :: 0 <= l < |s.own| && s.own[l] >= 0 ==> l in s.procs[s.own[l]].held)
  }

  /** Past the point of no return in sleep() and not woken yet. */
  ghost predicate Sleeper(me: Proc) { me.pc.SlC? || (me.pc.Zz? && me.st == SLEEPING) }

  /** The holder of the condition lock has still to look at slot `p` in wakeup(). */
  ghost predicate ScanAhead(s: Sys, k: Lock, p: nat) {
    && k in s.lock && s.lock[k] < |s.procs|
    && match s.procs[s.lock[k]].pc
       case Wk(w, i) => i <= p
       case WkL(w, i) => i <= p
       case _ => false
  }

  /** A sleeper on a sleep-lock: it is held, or its releaser has not come to the sleeper yet. */
  ghost predicate SleepOk(s: Sys, p: nat)
    requires p < |s.procs|
  {
    var me := s.procs[p];
    match me.pc
    case SlB(c, lk) => lk.OfSleep? && lk.l < |s.own| ==> s.own[lk.l] >= 0
    case SlC(c, lk) => lk.OfSleep? && lk.l < |s.own| ==> s.own[lk.l] >= 0 || ScanAhead(s, lk, p)
    case Zz(c, lk) => me.st == SLEEPING && lk.OfSleep? && lk.l < |s.own| ==> s.own[lk.l] >= 0 || ScanAhead(s, lk, p)
    case _ => true
  }

  ghost predicate ZombieChild(s: Sys, p: nat, c: nat) { c < |s.procs| && s.procs[c].parent == p &&
      s.procs[c].st == ZOMBIE }

  /** wait_lock is held by a reparent() that has still to look at init in wakeup(). */
  ghost predicate InitAhead(s: Sys) {
    && WaitLock in s.lock && s.lock[WaitLock] < |s.procs|
    && match s.procs[s.lock[WaitLock]].pc
       case Wk(w, i) => w.ByReparent? && i <= INIT
       case WkL(w, i) => w.ByReparent? && i <= INIT
       case _ => false
  }

  /** No zombie child among those kwait() has passed, nor any once it sleeps. */
  ghost predicate WaitOk(s: Sys, p: nat)
    requires p < |s.procs|
  {
    var me := s.procs[p];
    match me.pc
    case Kw(i, _) => forall c: nat :: c < i ==> !ZombieChild(s, p, c)
    case KwL(i, _) => forall c: nat :: c < i ==> !ZombieChild(s, p, c)
    case SlB(c, lk) => lk == WaitLock ==> forall c: nat :: !ZombieChild(s, p, c)
    case SlC(c, lk) => lk == WaitLock ==> forall c: nat :: ZombieChild(s, p, c) ==> p == INIT && InitAhead(s)
    case Zz(c, lk) =>
        me.st == SLEEPING && lk == WaitLock ==> forall c: nat :: ZombieChild(s, p, c) ==> p == INIT && InitAhead(s)
    case _ => true
  }

  ghost predicate WaitSleeper(s: Sys, t: int) {
    0 <= t < |s.procs| && Sleeper(s.procs[t]) && s.procs[t].pc.lk == WaitLock
  }

  function Target(s: Sys, p: nat, w: Waker): int
    requires p < |s.procs|
  {
    match w
    case ByRelease(_) => -1
    case ByReparent(_) => INIT
    case ByExit => s.procs[p].parent
  }

  /** The parent that kexit() or reparent() wakes is not asleep in kwait() once the scan has passed it. */
  ghost predicate WokenOk(s: Sys, p: nat)
    requires p < |s.procs|
  {
    match s.procs[p].pc
    case Wk(w, i) => Target(s, p, w) < i ==> !WaitSleeper(s, Target(s, p, w))
    case WkL(w, i) => Target(s, p, w) < i ==> !WaitSleeper(s, Target(s, p, w))
    case KeZ => !WaitSleeper(s, s.procs[p].parent)
    case _ => true
  }

  /** The part of the invariant about one process. */
  ghost predicate OneOk(s: Sys, p: nat)
    requires p < |s.procs|
  {
    PcOk(s, p) && SleepOk(s, p) && WaitOk(s, p) && WokenOk(s, p)
  }

  ghost predicate Inv(s: Sys) {
    |s.procs| > INIT && LocksOk(s) && OwnOk(s) && forall p :: 0 <= p < |s.procs| ==> OneOk(s, p)
  }

  // ------------------------------------------------- steps that change one process

  /** One lock is taken by `p`, dropped by it, or neither. */
  ghost predicate LockMove(s: Sys, s': Sys, p: nat, was: set<Lock>, now: set<Lock>) {
    || (s'.lock == s.lock && now == was)
    || (exists k :: k !in s.lock && s'.lock == s.lock[k := p] && now == was + {k})
    || (exists k :: k in was && s'.lock == s.lock - {k} && now == was - {k})
  }

  lemma LocksKept(s: Sys, s': Sys, p: nat)
    requires LocksOk(s) && |s'.procs| == |s.procs| && p < |s.procs|
    requires forall q :: 0 <= q < |s.procs| && q != p ==> Holds(s'.procs[q].pc, q) == Holds(s.procs[q].pc, q)
    requires LockMove(s, s', p, Holds(s.procs[p].pc, p), Holds(s'.procs[p].pc, p))
    ensures LocksOk(s')
  {
    hide Holds, LocksOf, LockMove;
    var was, now := Holds(s.procs[p].pc, p), Holds(s'.procs[p].pc, p);
    assert LocksOf(s.lock, p, was);
    forall q | 0 <= q < |s'.procs|
      ensures LocksOf(s'.lock, q, Holds(s'.procs[q].pc, q))
    {
      assert LocksOf(s.lock, q, Holds(s.procs[q].pc, q));
      MovedOf(s, s', p, was, now, q, Holds(s.procs[q].pc, q));
    }
    forall k | k in s'.lock
      ensures s'.lock[k] < |s'.procs| && k in Holds(s'.procs[s'.lock[k]].pc, s'.lock[k])
    {
      MovedHolder(s, s', p, was, now, k);
    }
  }

  lemma MovedOf(s: Sys, s': Sys, p: nat, was: set<Lock>, now: set<Lock>, q: nat, held: set<Lock>)
    requires LockMove(s, s', p, was, now) && LocksOf(s.lock, p, was) && LocksOf(s.lock, q, held) &&
               (q == p ==> held == was)
    ensures LocksOf(s'.lock, q, if q == p then now else held)
  {}

  /** A lock that is held after the move was held by the same process before, or was just taken by `p`. */
  lemma MovedHolder(s: Sys, s': Sys, p: nat, was: set<Lock>, now: set<Lock>, k: Lock)
    requires LockMove(s, s', p, was, now) && k in s'.lock
    ensures (s'.lock[k] == p && k in now) || (k in s.lock && s.lock[k] == s'.lock[k] && (k in was ==> k in now))
  {}

  ghost predicate Scan(pc: PC) { pc.Wk? || pc.WkL? }

  /** A wakeup() scan goes on, skips the caller itself, or has passed every slot. */
  ghost predicate ScanOn(pc: PC, pc': PC, p: nat, n: nat) {
    Scan(pc) ==> (Scan(pc') && pc'.w == pc.w && (pc'.i == pc.i || (pc.i == p && pc'.i == p + 1))) || pc.i >= n
  }

  /** Process `p` moves on; no state, parent or other process changes. */
  ghost predicate Quiet(s: Sys, s': Sys, p: nat) {
    && p < |s.procs| && |s'.procs| == |s.procs| && |s'.own| == |s.own|
    && (forall q :: 0 <= q < |s.procs| && q != p ==> s'.procs[q] == s.procs[q])
    && s.procs[p].st == RUNNING == s'.procs[p].st && s'.procs[p].parent == s.procs[p].parent
    && !s.procs[p].pc.SlC? && !s'.procs[p].pc.SlC? && !s'.procs[p].pc.Zz?
    && ScanOn(s.procs[p].pc, s'.procs[p].pc, p, |s.procs|)
    && (forall l :: 0 <= l < |s.own| && s.own[l] >= 0 ==> s'.own[l] >= 0 || s'.procs[p].pc == Wk(ByRelease(l), 0))
  }

  lemma QuietOther(s: Sys, s': Sys, p: nat, q: nat)
    requires Inv(s) && Quiet(s, s', p) && LocksOk(s') && q < |s.procs| && q != p
    ensures OneOk(s', q)
  {
    hide LocksOk, OwnOk, Holds;
    assert OneOk(s, q) && OneOk(s, p);
    QuietSleep(s, s', p, q);
    QuietWait(s, s', p, q);
  }

  lemma QuietSleep(s: Sys, s': Sys, p: nat, q: nat)
    requires Inv(s) && Quiet(s, s', p) && LocksOk(s') && q < |s.procs| && q != p
    ensures SleepOk(s', q)
  {
    hide OwnOk, WaitOk, WokenOk, PcOk, LocksOk, ScanAhead;
    assert OneOk(s, q);
    var pc := s.procs[q].pc;
    if (pc.SlB? || pc.SlC? || pc.Zz?) && pc.lk.OfSleep? && pc.lk.l < |s.own| {
      QuietScan(s, s', p, pc.lk.l, q);
      SlBKept(s, s', p, pc.lk.l, q);
    }
  }

  /** A scan that has still to come to `q` has still to, after such a step; and so has one that just starts. */
  lemma QuietScan(s: Sys, s': Sys, p: nat, l: nat, q: nat)
    requires Inv(s) && Quiet(s, s', p) && LocksOk(s') && q < |s.procs| && q != p
    ensures ScanAhead(s, OfSleep(l), q) ==> ScanAhead(s', OfSleep(l), q)
    ensures s'.procs[p].pc == Wk(ByRelease(l), 0) ==> ScanAhead(s', OfSleep(l), q)
  {
    hide OwnOk, SleepOk, WaitOk, WokenOk, PcOk;
  }

  /** Whoever holds the condition lock of a sleep-lock keeps it from being released. */
  lemma SlBKept(s: Sys, s': Sys, p: nat, l: nat, q: nat)
    requires Inv(s) && Quiet(s, s', p) && LocksOk(s') && q < |s.procs| && q != p
    ensures s.procs[q].pc.SlB? && s.procs[q].pc.lk == OfSleep(l) ==> s'.procs[p].pc != Wk(ByRelease(l), 0)
  {
    hide OwnOk, SleepOk, WaitOk, WokenOk, PcOk;
  }

  lemma QuietWait(s: Sys, s': Sys, p: nat, q: nat)
    requires Inv(s) && Quiet(s, s', p) && LocksOk(s') && q < |s.procs| && q != p
    ensures WaitOk(s', q)
  {
    hide OwnOk, SleepOk, WokenOk, PcOk, LocksOk, InitAhead, ZombieChild;
    assert OneOk(s, q);
    forall c: nat
      ensures ZombieChild(s', q, c) == ZombieChild(s, q, c)
    {
      SameChild(s, s', p, q, c);
    }
    QuietInit(s, s', p);
  }

  lemma SameChild(s: Sys, s': Sys, p: nat, q: nat, c: nat)
    requires Quiet(s, s', p)
    ensures ZombieChild(s', q, c) == ZombieChild(s, q, c)
  {}

  /** A scan that has still to come to init has still to, after such a step. */
  lemma QuietInit(s: Sys, s': Sys, p: nat)
    requires Inv(s) && Quiet(s, s', p) && LocksOk(s')
    ensures p != INIT && InitAhead(s) ==> InitAhead(s')
  {
    hide OwnOk, SleepOk, WaitOk, WokenOk, PcOk;
  }

  /** A step of `p` that changes no state or parent keeps the invariant if it does for `p` itself. */
  lemma QuietInv(s: Sys, s': Sys, p: nat)
    requires Inv(s) && Quiet(s, s', p) && OwnOk(s') && OneOk(s', p)
    requires LockMove(s, s', p, Holds(s.procs[p].pc, p), Holds(s'.procs[p].pc, p))
    ensures Inv(s')
  {
    hide OwnOk, PcOk, SleepOk, WaitOk, WokenOk, LocksOk, Holds, LockMove, OneOk;
    LocksKept(s, s', p);
    forall q | 0 <= q < |s.procs|
      ensures OneOk(s', q)
    {
      if q != p { QuietOther(s, s', p, q); }
    }
  }

  lemma Taken(s: Sys, s': Sys, p: nat, k: Lock, was: set<Lock>, now: set<Lock>)
    requires k !in s.lock && s'.lock == s.lock[k := p] && now == was + {k}
    ensures LockMove(s, s', p, was, now)
  {}

  lemma Dropped(s: Sys, s': Sys, p: nat, k: Lock, was: set<Lock>, now: set<Lock>)
    requires k in was && s'.lock == s.lock - {k} && now == was - {k}
    ensures LockMove(s, s', p, was, now)
  {}

  /** Starting any routine but kfork(). */
  lemma StartInv(s: Sys, p: nat, a: Act)
    requires Inv(s) && CanStart(s, p, a) && !a.Fork?
    ensures Inv(Start(s, p, a))
  {
    hide LocksOk, LockMove;
    var s' := Start(s, p, a);
    assert OneOk(s, p);
    var k := match a
      case Sleep(l) => OfSleep(l)
      case Release(l) => OfSleep(l)
      case Exit => WaitLock
      case Wait => WaitLock
      case Kill(v) => OfProc(v)
      case Yield => OfProc(p);
    Taken(s, s', p, k, Holds(s.procs[p].pc, p), Holds(s'.procs[p].pc, p));
    assert OneOk(s', p);
    QuietInv(s, s', p);
  }

  /** acquiresleep() tests locked. */
  lemma GoAsTest(s: Sys, p: nat, fail: bool)
    requires Inv(s) && CanGo(s, p, fail) && s.procs[p].pc.AsTest?
    ensures Inv(Continue(s, p, fail))
    ensures var s', l := Continue(s, p, fail), s.procs[p].pc.l;
            |s'.procs| == |s.procs| && |s'.own| == |s.own| && l < |s.own| &&
              (s'.procs[p].pc == Run ==> s'.own[l] == p && l in s'.procs[p].held && s.own[l] == -1)
  {
    hide LockMove, LocksOk;
    var s' := Continue(s, p, fail);
    assert OneOk(s, p);
    var was, now := Holds(s.procs[p].pc, p), Holds(s'.procs[p].pc, p);
    var l := s.procs[p].pc.l;
    if s.own[l] == -1 {
      OwnMoved(s, s', p, l, true);
      Dropped(s, s', p, OfSleep(l), was, now);
    } else {
      OwnKept(s, s');
      Taken(s, s', p, OfProc(p), was, now);
    }
    QuietInv(s, s', p);
  }

  /** releasesleep() resets locked. */
  lemma GoRsSet(s: Sys, p: nat, fail: bool)
    requires Inv(s) && CanGo(s, p, fail) && s.procs[p].pc.RsSet?
    ensures Inv(Continue(s, p, fail))
  {
    hide LockMove, LocksOk;
    var s' := Continue(s, p, fail);
    assert OneOk(s, p);
    OwnMoved(s, s', p, s.procs[p].pc.l, false);
    Unmoved(s, s', p, Holds(s.procs[p].pc, p));
    QuietInv(s, s', p);
  }

  lemma OwnKept(s: Sys, s': Sys)
    requires OwnOk(s) && s'.own == s.own && |s'.procs| == |s.procs|
    requires forall q :: 0 <= q < |s.procs| ==> s'.procs[q].held == s.procs[q].held
    ensures OwnOk(s')
  {
    forall q | 0 <= q < |s'.procs|
      ensures HeldOk(s'.own, q, s'.procs[q].held)
    {
      assert HeldOk(s.own, q, s.procs[q].held);
    }
  }

  /** acquiresleep() records the process that gets the lock, releasesleep() that nobody has it. */
  lemma OwnMoved(s: Sys, s': Sys, p: nat, l: nat, get: bool)
    requires OwnOk(s) && p < |s.procs| && l < |s.own| && |s'.procs| == |s.procs|
    requires if get then s.own[l] == -1 else s.own[l] == p
    requires s'.own == s.own[l := if get then p else -1]
    requires s'.procs[p].held == if get then s.procs[p].held + {l} else s.procs[p].held - {l}
    requires forall q :: 0 <= q < |s.procs| && q != p ==> s'.procs[q].held == s.procs[q].held
    ensures OwnOk(s')
  {
    forall q | 0 <= q < |s'.procs|
      ensures HeldOk(s'.own, q, s'.procs[q].held)
    {
      assert HeldOk(s.own, q, s.procs[q].held);
    }
  }

  lemma Unmoved(s: Sys, s': Sys, p: nat, was: set<Lock>)
    requires s'.lock == s.lock
    ensures LockMove(s, s', p, was, was)
  {}

  lemma GoWk(s: Sys, p: nat, fail: bool)
    requires Inv(s) && CanGo(s, p, fail) && s.procs[p].pc.Wk?
    ensures Inv(Continue(s, p, fail))
  {
    hide LockMove, LocksOk;
    var s' := Continue(s, p, fail);
    assert OneOk(s, p);
    OwnKept(s, s');
    var was, now := Holds(s.procs[p].pc, p), Holds(s'.procs[p].pc, p);
    var w, i := s.procs[p].pc.w, s.procs[p].pc.i;
    if i < |s.procs| {
      if i == p { Unmoved(s, s', p, was); } else { Taken(s, s', p, OfProc(i), was, now); }
    } else if w.ByRelease? {
      Dropped(s, s', p, OfSleep(w.l), was, now);
    } else if w.ByReparent? {
      Unmoved(s, s', p, was);
    } else {
      Taken(s, s', p, OfProc(p), was, now);
    }
    QuietInv(s, s', p);
  }

  lemma GoKw(s: Sys, p: nat, fail: bool)
    requires Inv(s) && CanGo(s, p, fail) && (s.procs[p].pc.Kw? || s.procs[p].pc.KwF?)
    ensures Inv(Continue(s, p, fail))
  {
    hide LockMove, LocksOk;
    var s' := Continue(s, p, fail);
    assert OneOk(s, p);
    OwnKept(s, s');
    var was, now := Holds(s.procs[p].pc, p), Holds(s'.procs[p].pc, p);
    assert forall c: nat :: ZombieChild(s', p, c) == ZombieChild(s, p, c);
    if s.procs[p].pc.KwF? {
      Dropped(s, s', p, WaitLock, was, now);
    } else {
      var i, have := s.procs[p].pc.i, s.procs[p].pc.have;
      if i < |s.procs| {
        if s.procs[i].parent == p { Taken(s, s', p, OfProc(i), was, now); } else { Unmoved(s, s', p, was); }
      } else if have && !fail {
        Taken(s, s', p, OfProc(p), was, now);
      } else {
        Dropped(s, s', p, WaitLock, was, now);
      }
    }
    QuietInv(s, s', p);
  }

  lemma GoKwL(s: Sys, p: nat, fail: bool)
    requires Inv(s) && CanGo(s, p, fail) && s.procs[p].pc.KwL? && (s.procs[s.procs[p].pc.i].st == ZOMBIE ==> fail)
    ensures Inv(Continue(s, p, fail))
  {
    hide LockMove, LocksOk;
    var s' := Continue(s, p, fail);
    assert OneOk(s, p);
    OwnKept(s, s');
    assert forall c: nat :: ZombieChild(s', p, c) == ZombieChild(s, p, c);
    Dropped(s, s', p, OfProc(s.procs[p].pc.i), Holds(s.procs[p].pc, p), Holds(s'.procs[p].pc, p));
    QuietInv(s, s', p);
  }

  lemma GoRp(s: Sys, p: nat, fail: bool)
    requires Inv(s) && CanGo(s, p, fail) && s.procs[p].pc.Rp?
    requires s.procs[p].pc.k < |s.procs| ==> s.procs[s.procs[p].pc.k].parent != p
    ensures Inv(Continue(s, p, fail))
  {
    hide LockMove, LocksOk;
    var s' := Continue(s, p, fail);
    assert OneOk(s, p);
    OwnKept(s, s');
    Unmoved(s, s', p, Holds(s.procs[p].pc, p));
    QuietInv(s, s', p);
  }

  lemma GoBack(s: Sys, p: nat, fail: bool)
    requires Inv(s) && CanGo(s, p, fail) && (s.procs[p].pc.SlE? || s.procs[p].pc.SlF? || s.procs[p].pc.Fresh?)
    ensures Inv(Continue(s, p, fail))
  {
    hide LockMove, LocksOk;
    var s' := Continue(s, p, fail);
    assert OneOk(s, p);
    OwnKept(s, s');
    var was, now := Holds(s.procs[p].pc, p), Holds(s'.procs[p].pc, p);
    if s.procs[p].pc.SlF? { Taken(s, s', p, s.procs[p].pc.lk, was, now); }
        else { Dropped(s, s', p, OfProc(p), was, now); }
    QuietInv(s, s', p);
  }

  /** kfork() lets go of the new slot. */
  lemma GoForkDrop(s: Sys, p: nat, fail: bool)
    requires Inv(s) && CanGo(s, p, fail) && s.procs[p].pc.FkA? && !fail
    ensures Inv(Continue(s, p, fail))
  {
    hide LockMove, LocksOk;
    var s' := Continue(s, p, fail);
    assert OneOk(s, p);
    OwnKept(s, s');
    Dropped(s, s', p, OfProc(s.procs[p].pc.n), Holds(s.procs[p].pc, p), Holds(s'.procs[p].pc, p));
    QuietInv(s, s', p);
  }

  /** kfork() takes wait_lock, and later the slot's lock again. */
  lemma GoForkTake(s: Sys, p: nat, fail: bool)
    requires Inv(s) && CanGo(s, p, fail) && (s.procs[p].pc.FkB? || s.procs[p].pc.FkD?)
    ensures Inv(Continue(s, p, fail))
  {
    hide LockMove, LocksOk;
    var s' := Continue(s, p, fail);
    assert OneOk(s, p);
    OwnKept(s, s');
    var k := if s.procs[p].pc.FkB? then WaitLock else OfProc(s.procs[p].pc.n);
    Taken(s, s', p, k, Holds(s.procs[p].pc, p), Holds(s'.procs[p].pc, p));
    QuietInv(s, s', p);
  }

  // ---------------------------------------- steps that change a state or a parent

  /** Two processes never hold the same spin-lock. */
  lemma OneHolder(s: Sys, k: Lock, p: nat, q: nat)
    requires LocksOk(s) && p < |s.procs| && q < |s.procs| && k in Holds(s.procs[p].pc, p) &&
               k in Holds(s.procs[q].pc, q)
    ensures p == q
  {
    hide Holds;
    assert LocksOf(s.lock, p, Holds(s.procs[p].pc, p)) && LocksOf(s.lock, q, Holds(s.procs[q].pc, q));
  }

  /** Only processes `p` and `j` change. */
  ghost predicate OnlyTwo(s: Sys, s': Sys, p: nat, j: nat) {
    && p < |s.procs| && j < |s.procs| && |s'.procs| == |s.procs| && s'.own == s.own
    && (forall q :: 0 <= q < |s.procs| && q != p && q != j ==> s'.procs[q] == s.procs[q])
  }

  ghost predicate NoNewZombie(s: Sys, s': Sys, q: nat) { forall c: nat ::
      ZombieChild(s', q, c) ==> ZombieChild(s, q, c) }

  ghost predicate NoNewSleeper(s: Sys, s': Sys) { forall t :: WaitSleeper(s', t) ==> WaitSleeper(s, t) }

  /** The slot that kfork() in `q` fills, and the child that kwait() in `q` looks at, are as they were. */
  ghost predicate SlotsKept(s: Sys, s': Sys, q: nat)
    requires q < |s.procs|
  {
    && (forall c: nat :: Filling(s, q, c) ==> Filling(s', q, c))
    && (s.procs[q].pc.KwL? && s.procs[q].pc.i < |s.procs| && s.procs[s.procs[q].pc.i].parent == q ==>
          s.procs[q].pc.i < |s'.procs| && s'.procs[s.procs[q].pc.i].parent == q)
  }

  /** Scans by processes other than `p` and `j` are where they were. */
  lemma AheadKept(s: Sys, s': Sys, p: nat, j: nat, k: Lock, q: nat)
    requires LocksOk(s) && LocksOk(s') && OnlyTwo(s, s', p, j) && !Scan(s.procs[p].pc) &&
               (!Scan(s.procs[j].pc) || s'.procs[j].pc == s.procs[j].pc)
    ensures ScanAhead(s, k, q) ==> ScanAhead(s', k, q)
    ensures InitAhead(s) ==> InitAhead(s')
  {
    hide Holds;
    if ScanAhead(s, k, q) { StillHolds(s, s', k); }
    if InitAhead(s) { StillHolds(s, s', WaitLock); }
  }

  lemma StillHolds(s: Sys, s': Sys, k: Lock)
    requires LocksOk(s) && LocksOk(s') && k in s.lock && |s'.procs| == |s.procs| &&
               s'.procs[s.lock[k]].pc == s.procs[s.lock[k]].pc
    ensures k in s'.lock && s'.lock[k] == s.lock[k]
  {
    hide Holds;
    var h := s.lock[k];
    assert LocksOf(s'.lock, h, Holds(s'.procs[h].pc, h));
  }

  ghost predicate WakesParent(pc: PC) { pc.KeZ? || (Scan(pc) && !pc.w.ByRelease?) }

  /** A process that does not move keeps its part of the invariant if what it relies on is kept. */
  lemma BystanderCore(s: Sys, s': Sys, q: nat)
    requires |s'.procs| == |s.procs| && s'.own == s.own && q < |s.procs| && OneOk(s, q)
    requires s'.procs[q] == s.procs[q].(st := s'.procs[q].st)
    requires s'.procs[q].st == s.procs[q].st || (s.procs[q].st == SLEEPING && s'.procs[q].st == RUNNABLE)
    requires NoNewZombie(s, s', q) && (NoNewSleeper(s, s') || !WakesParent(s.procs[q].pc)) && SlotsKept(s, s', q)
    requires Sleeper(s'.procs[q]) && s.procs[q].pc.lk.OfSleep? && ScanAhead(s, s.procs[q].pc.lk, q) ==>
               ScanAhead(s', s.procs[q].pc.lk, q)
    requires Sleeper(s'.procs[q]) && q == INIT && s.procs[q].pc.lk == WaitLock && InitAhead(s) ==> InitAhead(s')
    ensures OneOk(s', q)
  {
    hide ZombieChild, Filling, ScanAhead, InitAhead;
  }

  lemma BystanderOk(s: Sys, s': Sys, p: nat, j: nat, q: nat)
    requires LocksOk(s) && LocksOk(s') && OnlyTwo(s, s', p, j) && q < |s.procs| && q != p && OneOk(s, q)
    requires !Scan(s.procs[p].pc) && (!Scan(s.procs[j].pc) || s'.procs[j].pc == s.procs[j].pc)
    requires s'.procs[q] == s.procs[q].(st := s'.procs[q].st)
    requires s'.procs[q].st == s.procs[q].st || (s.procs[q].st == SLEEPING && s'.procs[q].st == RUNNABLE)
    requires NoNewZombie(s, s', q) && (NoNewSleeper(s, s') || !WakesParent(s.procs[q].pc)) && SlotsKept(s, s', q)
    ensures OneOk(s', q)
  {
    hide LocksOk, OneOk, ScanAhead, InitAhead, NoNewZombie, NoNewSleeper, SlotsKept, WakesParent;
    var pc := s.procs[q].pc;
    AheadKept(s, s', p, j, if pc.SlC? || pc.Zz? then pc.lk else WaitLock, q);
    BystanderCore(s, s', q);
  }

  /** Being switched out or in. */
  lemma GoSwitch(s: Sys, p: nat, fail: bool)
    requires Inv(s) && CanGo(s, p, fail)
    requires var pc := s.procs[p].pc; pc.KeSw? || pc.SlC? || pc.Zz? || pc.Y1? || pc.Parked?
    ensures Inv(Continue(s, p, fail))
  {
    hide LockMove, LocksOk, Holds, OneOk;
    var s' := Continue(s, p, fail);
    OwnKept(s, s');
    SwitchLocks(s, p, fail);
    LocksKept(s, s', p);
    SwitchSelf(s, p, fail);
    forall q | 0 <= q < |s.procs| && q != p
      ensures OneOk(s', q)
    {
      SwitchOther(s, p, fail, q);
    }
  }

  lemma SwitchOther(s: Sys, p: nat, fail: bool, q: nat)
    requires Inv(s) && CanGo(s, p, fail) && LocksOk(Continue(s, p, fail)) && q < |s.procs| && q != p
    requires var pc := s.procs[p].pc; pc.KeSw? || pc.SlC? || pc.Zz? || pc.Y1? || pc.Parked?
    ensures OneOk(Continue(s, p, fail), q)
  {
    hide LocksOk, OwnOk, Holds, SleepOk, WaitOk, WokenOk;
    assert OneOk(s, p) && OneOk(s, q);
    BystanderOk(s, Continue(s, p, fail), p, p, q);
  }

  lemma SwitchLocks(s: Sys, p: nat, fail: bool)
    requires CanGo(s, p, fail)
    requires var pc := s.procs[p].pc; pc.KeSw? || pc.SlC? || pc.Zz? || pc.Y1? || pc.Parked?
    ensures LockMove(s, Continue(s, p, fail), p, Holds(s.procs[p].pc, p), Holds(Continue(s, p, fail).procs[p].pc, p))
  {
    hide LockMove;
    var s' := Continue(s, p, fail);
    var was, now := Holds(s.procs[p].pc, p), Holds(s'.procs[p].pc, p);
    if s.procs[p].pc.Zz? || s.procs[p].pc.Parked? { Taken(s, s', p, OfProc(p), was, now); }
        else { Dropped(s, s', p, OfProc(p), was, now); }
  }

  lemma SwitchSelf(s: Sys, p: nat, fail: bool)
    requires Inv(s) && CanGo(s, p, fail) && LocksOk(Continue(s, p, fail))
    requires var pc := s.procs[p].pc; pc.KeSw? || pc.SlC? || pc.Zz? || pc.Y1? || pc.Parked?
    ensures OneOk(Continue(s, p, fail), p)
  {
    hide LocksOk, OwnOk, Holds;
    var s' := Continue(s, p, fail);
    assert OneOk(s, p);
    assert forall c: nat :: ZombieChild(s', p, c) ==> ZombieChild(s, p, c) || c == p;
    if s.procs[p].pc.SlC? { AheadKept(s, s', p, p, s.procs[p].pc.lk, p); }
  }

  /** sleep() gives up the condition lock: from here on wakeup() must find the process. */
  lemma GoSlB(s: Sys, p: nat, fail: bool)
    requires Inv(s) && CanGo(s, p, fail) && s.procs[p].pc.SlB?
    ensures Inv(Continue(s, p, fail))
  {
    hide LockMove, LocksOk;
    var s' := Continue(s, p, fail);
    assert OneOk(s, p);
    OwnKept(s, s');
    Dropped(s, s', p, s.procs[p].pc.lk, Holds(s.procs[p].pc, p), Holds(s'.procs[p].pc, p));
    LocksKept(s, s', p);
    assert forall c: nat :: ZombieChild(s', p, c) == ZombieChild(s, p, c);
    forall q | 0 <= q < |s.procs| && q != p
      ensures OneOk(s', q)
    {
      assert OneOk(s, q);
      if s.procs[p].pc.lk == WaitLock && WakesParent(s.procs[q].pc) { OneHolder(s, WaitLock, p, q); }
      BystanderOk(s, s', p, p, q);
    }
  }

  /** kkill() may wake a sleeper. */
  lemma GoKl(s: Sys, p: nat, fail: bool)
    requires Inv(s) && CanGo(s, p, fail) && s.procs[p].pc.Kl?
    ensures Inv(Continue(s, p, fail))
  {
    hide LockMove, LocksOk;
    var s' := Continue(s, p, fail);
    var v := s.procs[p].pc.v;
    assert OneOk(s, p) && OneOk(s, v);
    OwnKept(s, s');
    Dropped(s, s', p, OfProc(v), Holds(s.procs[p].pc, p), Holds(s'.procs[p].pc, p));
    LocksKept(s, s', p);
    forall q | 0 <= q < |s.procs| && q != p
      ensures OneOk(s', q)
    {
      assert OneOk(s, q);
      BystanderOk(s, s', p, v, q);
    }
  }

  /** A scan that goes from slot `i` to the next is still ahead of every other slot it was ahead of. */
  lemma ScanAdvanced(s: Sys, s': Sys, p: nat, i: nat, k: Lock, q: nat)
    requires LocksOk(s) && LocksOk(s') && OnlyTwo(s, s', p, i) && i != p && s'.procs[i].pc == s.procs[i].pc
    requires s.procs[p].pc.WkL? && s.procs[p].pc.i == i && s'.procs[p].pc == Wk(s.procs[p].pc.w, i + 1) &&
               (k.OfSleep? || k == WaitLock)
    ensures (q != i || k != BaseLock(s.procs[p].pc.w)) && ScanAhead(s, k, q) ==> ScanAhead(s', k, q)
    ensures i != INIT && InitAhead(s) ==> InitAhead(s')
  {
    if ScanAhead(s, k, q) {
      if s.lock[k] == p { HolderAfter(s, s', p, k); } else { StillHolds(s, s', k); }
    }
    if InitAhead(s) {
      if s.lock[WaitLock] == p { HolderAfter(s, s', p, WaitLock); } else { StillHolds(s, s', WaitLock); }
    }
  }

  lemma HolderAfter(s: Sys, s': Sys, p: nat, k: Lock)
    requires LocksOk(s) && LocksOk(s') && p < |s.procs| == |s'.procs| && k in s.lock && s.lock[k] == p && !k.OfProc?
    requires s.procs[p].pc.WkL? && s'.procs[p].pc.Wk? && s'.procs[p].pc.w == s.procs[p].pc.w
    ensures k in s'.lock && s'.lock[k] == p
  {
    assert k in Holds(s.procs[p].pc, p);
    assert LocksOf(s'.lock, p, Holds(s'.procs[p].pc, p));
  }

  /** The slot wakeup() looks at: it does not sleep on this channel afterwards. */
  lemma Awakened(s: Sys, s': Sys, p: nat, fail: bool)
    requires Inv(s) && CanGo(s, p, fail) && s.procs[p].pc.WkL? && s' == Continue(s, p, fail)
    ensures var i := s.procs[p].pc.i; i != p
    ensures var i := s.procs[p].pc.i; Sleeper(s'.procs[i]) ==>
              !s'.procs[i].pc.SlC? && s'.procs[i].chan != WakeChan(s, p, s.procs[p].pc.w)
  {
    hide OwnOk;
    var i := s.procs[p].pc.i;
    assert OneOk(s, p) && OneOk(s, i);
    if s.procs[i].pc.SlC? { OneHolder(s, OfProc(i), p, i); }
  }

  /** wakeup() makes a sleeper on its channel runnable and goes on. */
  lemma GoWkL(s: Sys, p: nat, fail: bool)
    requires Inv(s) && CanGo(s, p, fail) && s.procs[p].pc.WkL?
    ensures Inv(Continue(s, p, fail))
  {
    hide LockMove, LocksOk;
    var s' := Continue(s, p, fail);
    var w, i := s.procs[p].pc.w, s.procs[p].pc.i;
    Awakened(s, s', p, fail);
    assert OneOk(s, p) && OneOk(s, i);
    OwnKept(s, s');
    Dropped(s, s', p, OfProc(i), Holds(s.procs[p].pc, p), Holds(s'.procs[p].pc, p));
    LocksKept(s, s', p);
    WkLWoken(s, s', p, fail);
    forall q | 0 <= q < |s.procs| && q != p
      ensures OneOk(s', q)
    {
      WkLOther(s, s', p, fail, q);
    }
  }

  lemma WkLWoken(s: Sys, s': Sys, p: nat, fail: bool)
    requires Inv(s) && CanGo(s, p, fail) && s.procs[p].pc.WkL? && s' == Continue(s, p, fail)
    ensures OneOk(s', p)
  {
    hide LocksOk, OwnOk;
    var w, i := s.procs[p].pc.w, s.procs[p].pc.i;
    assert OneOk(s, p) && OneOk(s, i);
    Awakened(s, s', p, fail);
  }

  lemma WkLOther(s: Sys, s': Sys, p: nat, fail: bool, q: nat)
    requires Inv(s) && CanGo(s, p, fail) && s.procs[p].pc.WkL? && s' == Continue(s, p, fail) && LocksOk(s') &&
               q < |s.procs| && q != p
    ensures OneOk(s', q)
  {
    hide LocksOk, OwnOk, OneOk, ScanAhead, InitAhead, NoNewZombie, NoNewSleeper, SlotsKept, WakesParent;
    WkLFrame(s, s', p, fail, q);
    WkLAhead(s, s', p, fail, q);
    BystanderCore(s, s', q);
  }

  /** No process but the one looked at changes its state, and that one only to RUNNABLE. */
  lemma WkLFrame(s: Sys, s': Sys, p: nat, fail: bool, q: nat)
    requires Inv(s) && CanGo(s, p, fail) && s.procs[p].pc.WkL? && s' == Continue(s, p, fail) && q < |s.procs| && q != p
    ensures |s'.procs| == |s.procs| && s'.own == s.own && s'.procs[q] == s.procs[q].(st := s'.procs[q].st)
    ensures s'.procs[q].st == s.procs[q].st || (s.procs[q].st == SLEEPING && s'.procs[q].st == RUNNABLE)
    ensures NoNewZombie(s, s', q) && NoNewSleeper(s, s') && SlotsKept(s, s', q)
  {
    hide LocksOk, OwnOk, Holds, SleepOk, WaitOk, WokenOk;
    assert OneOk(s, p) && OneOk(s, q) && OneOk(s, s.procs[p].pc.i);
    Awakened(s, s', p, fail);
  }

  /** Who is still to be looked at stays so, but for the process just looked at, which does not sleep on this
      channel. */
  lemma WkLAhead(s: Sys, s': Sys, p: nat, fail: bool, q: nat)
    requires Inv(s) && CanGo(s, p, fail) && s.procs[p].pc.WkL? && s' == Continue(s, p, fail) && LocksOk(s') &&
               q < |s.procs| && q != p
    ensures |s'.procs| == |s.procs| && s'.procs[q].pc == s.procs[q].pc
    ensures Sleeper(s'.procs[q]) && s.procs[q].pc.lk.OfSleep? && ScanAhead(s, s.procs[q].pc.lk, q) ==>
              ScanAhead(s', s.procs[q].pc.lk, q)
    ensures Sleeper(s'.procs[q]) && q == INIT && s.procs[q].pc.lk == WaitLock && InitAhead(s) ==> InitAhead(s')
  {
    hide LocksOk, OwnOk, Holds, SleepOk, WaitOk, WokenOk, ScanAhead;
    var i := s.procs[p].pc.i;
    assert OneOk(s, p) && OneOk(s, q) && OneOk(s, i);
    Awakened(s, s', p, fail);
    var pc := s.procs[q].pc;
    ScanAdvanced(s, s', p, i, if pc.SlC? || pc.Zz? then pc.lk else WaitLock, q);
  }

  /** kexit() becomes a zombie: its parent is not asleep in kwait(), nor in the middle of it. */
  lemma GoKeZ(s: Sys, p: nat, fail: bool)
    requires Inv(s) && CanGo(s, p, fail) && s.procs[p].pc.KeZ?
    ensures Inv(Continue(s, p, fail))
  {
    hide LockMove, LocksOk;
    var s' := Continue(s, p, fail);
    assert OneOk(s, p);
    OwnKept(s, s');
    Dropped(s, s', p, WaitLock, Holds(s.procs[p].pc, p), Holds(s'.procs[p].pc, p));
    LocksKept(s, s', p);
    forall q | 0 <= q < |s.procs| && q != p
      ensures OneOk(s', q)
    {
      KeZOther(s, s', p, fail, q);
    }
  }

  lemma KeZOther(s: Sys, s': Sys, p: nat, fail: bool, q: nat)
    requires Inv(s) && CanGo(s, p, fail) && s.procs[p].pc.KeZ? && s' == Continue(s, p, fail) && LocksOk(s') &&
               q < |s.procs| && q != p
    ensures OneOk(s', q)
  {
    hide LocksOk, OwnOk;
    assert OneOk(s, p) && OneOk(s, q);
    if WaitLock in Holds(s.procs[q].pc, q) { OneHolder(s, WaitLock, p, q); }
    if s.procs[p].parent == q {
      var pc := s.procs[q].pc;
      AheadKept(s, s', p, p, if pc.SlC? || pc.Zz? then pc.lk else WaitLock, q);
    } else {
      BystanderOk(s, s', p, p, q);
    }
  }

  /** reparent() hands a child to init. */
  lemma GoReparent(s: Sys, p: nat, fail: bool)
    requires Inv(s) && CanGo(s, p, fail) && s.procs[p].pc.Rp? && s.procs[p].pc.k < |s.procs| &&
               s.procs[s.procs[p].pc.k].parent == p
    ensures Inv(Continue(s, p, fail))
  {
    hide LockMove, LocksOk;
    var s' := Continue(s, p, fail);
    assert OneOk(s, p);
    OwnKept(s, s');
    Unmoved(s, s', p, Holds(s.procs[p].pc, p));
    LocksKept(s, s', p);
    forall q | 0 <= q < |s.procs| && q != p
      ensures OneOk(s', q)
    {
      ReparentOther(s, s', p, fail, q);
    }
  }

  lemma ReparentOther(s: Sys, s': Sys, p: nat, fail: bool, q: nat)
    requires Reparents(s, p, fail) && s' == Continue(s, p, fail) && LocksOk(s') && q < |s.procs| && q != p
    ensures OneOk(s', q)
  {
    hide LocksOk, OwnOk, PcOk, SleepOk, WaitOk, WokenOk;
    ReparentPc(s, s', p, fail, q);
    ReparentSleep(s, s', p, fail, q);
    ReparentWait(s, s', p, fail, q);
  }

  /** reparent() in process `p` has come to a child. */
  ghost predicate Reparents(s: Sys, p: nat, fail: bool) {
    && Inv(s) && CanGo(s, p, fail) && s.procs[p].pc.Rp?
    && s.procs[p].pc.k < |s.procs| && s.procs[s.procs[p].pc.k].parent == p
  }

  lemma ReparentPc(s: Sys, s': Sys, p: nat, fail: bool, q: nat)
    requires Reparents(s, p, fail) && s' == Continue(s, p, fail) && LocksOk(s') && q < |s.procs| && q != p
    ensures PcOk(s', q) && WokenOk(s', q)
  {
    hide LocksOk, OwnOk, SleepOk, WaitOk;
    assert OneOk(s, p) && OneOk(s, q);
    if WaitLock in Holds(s.procs[q].pc, q) { OneHolder(s, WaitLock, p, q); }
  }

  lemma ReparentSleep(s: Sys, s': Sys, p: nat, fail: bool, q: nat)
    requires Reparents(s, p, fail) && s' == Continue(s, p, fail) && LocksOk(s') && q < |s.procs| && q != p
    ensures SleepOk(s', q)
  {
    hide LocksOk, OwnOk, Holds, WaitOk, WokenOk, ScanAhead;
    assert OneOk(s, p) && OneOk(s, q);
    var pc := s.procs[q].pc;
    AheadKept(s, s', p, s.procs[p].pc.k, if pc.SlC? || pc.Zz? then pc.lk else WaitLock, q);
  }

  lemma ReparentWait(s: Sys, s': Sys, p: nat, fail: bool, q: nat)
    requires Reparents(s, p, fail) && s' == Continue(s, p, fail) && LocksOk(s') && q < |s.procs| && q != p
    ensures WaitOk(s', q)
  {
    hide LocksOk, OwnOk, SleepOk, WokenOk;
    assert OneOk(s, p) && OneOk(s, q);
    if WaitLock in Holds(s.procs[q].pc, q) { OneHolder(s, WaitLock, p, q); }
    HasLock(s', p, WaitLock);
    assert q != INIT ==> NoNewZombie(s, s', q);
  }

  lemma HasLock(s: Sys, p: nat, k: Lock)
    requires LocksOk(s) && p < |s.procs| && k in Holds(s.procs[p].pc, p)
    ensures k in s.lock && s.lock[k] == p
  {
    hide Holds;
    assert LocksOf(s.lock, p, Holds(s.procs[p].pc, p));
  }

  /** The zombie kwait() frees has left its kernel stack for good. */
  lemma ReapedIsDead(s: Sys, p: nat)
    requires Inv(s) && p < |s.procs| && s.procs[p].pc.KwL? && s.procs[p].pc.i < |s.procs| &&
               s.procs[s.procs[p].pc.i].st == ZOMBIE
    ensures s.procs[s.procs[p].pc.i].pc == Dead
  {
    hide LocksOk, OwnOk, SleepOk, WaitOk, WokenOk;
    var i := s.procs[p].pc.i;
    assert OneOk(s, p) && OneOk(s, i);
    if s.procs[i].pc.KeSw? { OneHolder(s, OfProc(i), p, i); }
  }

  /** kwait() frees a zombie child. */
  lemma GoReap(s: Sys, p: nat, fail: bool)
    requires Inv(s) && CanGo(s, p, fail) && s.procs[p].pc.KwL? && s.procs[s.procs[p].pc.i].st == ZOMBIE && !fail
    ensures Inv(Continue(s, p, fail))
  {
    hide LockMove, LocksOk;
    var s' := Continue(s, p, fail);
    var i := s.procs[p].pc.i;
    ReapedIsDead(s, p);
    assert OneOk(s, p) && OneOk(s, i);
    OwnKept(s, s');
    Dropped(s, s', p, OfProc(i), Holds(s.procs[p].pc, p), Holds(s'.procs[p].pc, p));
    LocksKept(s, s', p);
    forall q | 0 <= q < |s.procs| && q != p && q != i
      ensures OneOk(s', q)
    {
      assert OneOk(s, q);
      BystanderOk(s, s', p, i, q);
    }
  }

  /** kfork() takes a slot, sets its parent, makes it runnable, or gives it up again. */
  lemma StartFork(s: Sys, p: nat, a: Act)
    requires Inv(s) && CanStart(s, p, a) && a.Fork?
    ensures Inv(Start(s, p, a))
  {
    hide LockMove, LocksOk, SleepOk, WaitOk, WokenOk;
    var s' := Start(s, p, a);
    var c := a.n;
    assert OneOk(s, p) && OneOk(s, c);
    OwnKept(s, s');
    Taken(s, s', p, OfProc(c), Holds(s.procs[p].pc, p), Holds(s'.procs[p].pc, p));
    LocksKept(s, s', p);
    forall q | 0 <= q < |s.procs|
      ensures OneOk(s', q)
    {
      ForkedOk(s, p, a, q);
    }
  }

  lemma ForkedOk(s: Sys, p: nat, a: Act, q: nat)
    requires Inv(s) && CanStart(s, p, a) && a.Fork? && LocksOk(Start(s, p, a)) && q < |s.procs|
    ensures OneOk(Start(s, p, a), q)
  {
    hide LocksOk, OwnOk, Holds;
    assert OneOk(s, p) && OneOk(s, a.n) && OneOk(s, q);
    if q != p && q != a.n { BystanderOk(s, Start(s, p, a), p, a.n, q); }
  }

  /** kfork() gives the slot up again, or makes the child runnable. */
  lemma GoForkSlot(s: Sys, p: nat, fail: bool)
    requires Inv(s) && CanGo(s, p, fail) && ((s.procs[p].pc.FkA? && fail) || s.procs[p].pc.FkE?)
    ensures Inv(Continue(s, p, fail))
  {
    hide LockMove, LocksOk, OneOk;
    var s' := Continue(s, p, fail);
    SlotFilled(s, p);
    OwnKept(s, s');
    Dropped(s, s', p, OfProc(s.procs[p].pc.n), Holds(s.procs[p].pc, p), Holds(s'.procs[p].pc, p));
    LocksKept(s, s', p);
    forall q | 0 <= q < |s.procs|
      ensures OneOk(s', q)
    {
      ForkSlotOk(s, p, fail, q);
    }
  }

  lemma SlotFilled(s: Sys, p: nat)
    requires Inv(s) && p < |s.procs| && (s.procs[p].pc.FkA? || s.procs[p].pc.FkE?)
    ensures s.procs[p].st == RUNNING && Filling(s, p, s.procs[p].pc.n) && s.procs[p].pc.n != p
  {
    hide LocksOk, OwnOk;
    assert OneOk(s, p);
  }

  lemma ForkSlotOk(s: Sys, p: nat, fail: bool, q: nat)
    requires Inv(s) && CanGo(s, p, fail) && ((s.procs[p].pc.FkA? && fail) || s.procs[p].pc.FkE?)
    requires LocksOk(Continue(s, p, fail)) && q < |s.procs|
    ensures OneOk(Continue(s, p, fail), q)
  {
    hide LocksOk, OwnOk, Holds;
    var s', c := Continue(s, p, fail), s.procs[p].pc.n;
    assert OneOk(s, p) && OneOk(s, c) && OneOk(s, q);
    if q != p && q != c { BystanderOk(s, s', p, c, q); }
  }

  lemma GoForkParent(s: Sys, p: nat, fail: bool)
    requires Inv(s) && CanGo(s, p, fail) && s.procs[p].pc.FkC?
    ensures Inv(Continue(s, p, fail))
  {
    hide LockMove, LocksOk;
    var s' := Continue(s, p, fail);
    var c := s.procs[p].pc.n;
    assert OneOk(s, p) && OneOk(s, c);
    OwnKept(s, s');
    Dropped(s, s', p, WaitLock, Holds(s.procs[p].pc, p), Holds(s'.procs[p].pc, p));
    LocksKept(s, s', p);
    forall q | 0 <= q < |s.procs| && q != p && q != c
      ensures OneOk(s', q)
    {
      assert OneOk(s, q);
      if s.procs[q].pc.KwL? { OneHolder(s, WaitLock, p, q); }
      BystanderOk(s, s', p, c, q);
    }
  }

  // ----------------------------------------------------------------- whole runs

  predicate Enabled(s: Sys, p: nat, a: Act) { if a.Go? then CanGo(s, p, a.fail) else CanStart(s, p, a) }

  function Step(s: Sys, p: nat, a: Act): Sys
    requires Enabled(s, p, a)
  {
    if a.Go? then Continue(s, p, a.fail) else Start(s, p, a)
  }

  /** Every step of every process keeps the invariant. */
  lemma StepInv(s: Sys, p: nat, a: Act)
    requires Inv(s) && Enabled(s, p, a)
    ensures Inv(Step(s, p, a))
  {
    hide Inv, Start, Continue, CanStart;
    if a.Go? {
      GoInv(s, p, a.fail);
    } else if a.Fork? {
      StartFork(s, p, a);
    } else {
      StartInv(s, p, a);
    }
  }

  lemma GoInv(s: Sys, p: nat, fail: bool)
    requires Inv(s) && CanGo(s, p, fail)
    ensures Inv(Continue(s, p, fail))
  {
    hide Inv, Continue;
    match s.procs[p].pc
    case AsTest(_) => GoAsTest(s, p, fail);
    case RsSet(_) => GoRsSet(s, p, fail);
    case Wk(_, _) => GoWk(s, p, fail);
    case WkL(_, _) => GoWkL(s, p, fail);
    case Rp(k) => if k < |s.procs| && s.procs[k].parent == p { GoReparent(s, p, fail); } else { GoRp(s, p, fail); }
    case KeZ => GoKeZ(s, p, fail);
    case KeSw => GoSwitch(s, p, fail);
    case Kw(_, _) => GoKw(s, p, fail);
    case KwL(i, _) => if s.procs[i].st == ZOMBIE && !fail { GoReap(s, p, fail); } else { GoKwL(s, p, fail); }
    case KwF => GoKw(s, p, fail);
    case SlB(_, _) => GoSlB(s, p, fail);
    case SlC(_, _) => GoSwitch(s, p, fail);
    case Zz(_, _) => GoSwitch(s, p, fail);
    case SlE(_, _) => GoBack(s, p, fail);
    case SlF(_) => GoBack(s, p, fail);
    case Y1 => GoSwitch(s, p, fail);
    case Parked => GoSwitch(s, p, fail);
    case Fresh => GoBack(s, p, fail);
    case FkA(_) => if fail { GoForkSlot(s, p, fail); } else { GoForkDrop(s, p, fail); }
    case FkB(_) => GoForkTake(s, p, fail);
    case FkC(_) => GoForkParent(s, p, fail);
    case FkD(_) => GoForkTake(s, p, fail);
    case FkE(_) => GoForkSlot(s, p, fail);
    case Kl(_) => GoKl(s, p, fail);
  }

  /** After userinit(): init may run, every other slot is free, no lock is held. */
  predicate Boot(s: Sys) {
    && |s.procs| > INIT && s.lock == map[]
    && s.procs[INIT] == Proc(RUNNABLE, NoChan, Parked, -1, {})
    && (forall p :: 0 <= p < |s.procs| && p != INIT ==> s.procs[p] == Proc(UNUSED, NoChan, Unused, -1, {}))
    && (forall l :: 0 <= l < |s.own| ==> s.own[l] == -1)
  }

  /** `s'` follows from `s` by the steps of `trace`, in any interleaving of processes. */
  ghost predicate Reaches(s: Sys, trace: seq<(nat, Act)>, s': Sys)
    decreases |trace|
  {
    if trace == [] then s' == s
    else Enabled(s, trace[0].0, trace[0].1) && Reaches(Step(s, trace[0].0, trace[0].1), trace[1..], s')
  }

  lemma BootInv(s: Sys)
    requires Boot(s)
    ensures Inv(s)
  {}

  lemma {:induction false} RunInv(s: Sys, trace: seq<(nat, Act)>, s': Sys)
    requires Inv(s) && Reaches(s, trace, s')
    ensures Inv(s')
    decreases |trace|
  {
    hide Inv, Enabled, Step;
    if trace != [] {
      StepInv(s, trace[0].0, trace[0].1);
      RunInv(Step(s, trace[0].0, trace[0].1), trace[1..], s');
    }
  }

  /** The releaser of sleep-lock `l` is inside wakeup() and has still to look at slot `p`. */
  ghost predicate Releasing(s: Sys, l: nat, p: nat) {
    exists q :: 0 <= q < |s.procs| && Scan(s.procs[q].pc) && s.procs[q].pc.w == ByRelease(l) && s.procs[q].pc.i <= p
  }

  /** No wakeup is lost, in any run: a sleep-lock has at most one holder; a process sleeps on it only while it is
      held or its releaser has still to look at it; and a parent asleep in kwait() has no zombie child while
      wait_lock is free. */
  lemma NoLostWakeup(s0: Sys, trace: seq<(nat, Act)>, s: Sys)
    requires Boot(s0) && Reaches(s0, trace, s)
    ensures forall p, q, l ::
              0 <= p < |s.procs| && 0 <= q < |s.procs| && l in s.procs[p].held && l in s.procs[q].held ==> p == q
    ensures forall p, l: nat ::
              0 <= p < |s.procs| && l < |s.own| && s.procs[p].st == SLEEPING && s.procs[p].chan == SleepChan(l) ==>
              s.own[l] >= 0 || Releasing(s, l, p)
    ensures forall p, c: nat ::
              0 <= p < |s.procs| && Free(s, WaitLock) && s.procs[p].st == SLEEPING && s.procs[p].chan == ProcChan(p) ==>
              !ZombieChild(s, p, c)
  {
    hide Inv, Reaches, Boot;
    BootInv(s0);
    RunInv(s0, trace, s);
    forall p, q, l | 0 <= p < |s.procs| && 0 <= q < |s.procs| && l in s.procs[p].held && l in s.procs[q].held
      ensures p == q
    {
      HeldOnce(s, p, q, l);
    }
    forall p, l: nat | 0 <= p < |s.procs| && l < |s.own| && s.procs[p].st == SLEEPING && s.procs[p].chan == SleepChan(l)
      ensures s.own[l] >= 0 || Releasing(s, l, p)
    {
      SleeperWaits(s, p, l);
    }
    forall p, c: nat | 0 <= p < |s.procs| && Free(s, WaitLock) && s.procs[p].st == SLEEPING &&
        s.procs[p].chan == ProcChan(p)
      ensures !ZombieChild(s, p, c)
    {
      ParentWaits(s, p, c);
    }
  }

  lemma HeldOnce(s: Sys, p: nat, q: nat, l: nat)
    requires Inv(s) && p < |s.procs| && q < |s.procs| && l in s.procs[p].held && l in s.procs[q].held
    ensures p == q
  {
    hide LocksOk, OneOk;
    assert HeldOk(s.own, p, s.procs[p].held) && HeldOk(s.own, q, s.procs[q].held);
  }

  lemma SleeperWaits(s: Sys, p: nat, l: nat)
    requires Inv(s) && p < |s.procs| && l < |s.own| && s.procs[p].st == SLEEPING && s.procs[p].chan == SleepChan(l)
    ensures s.own[l] >= 0 || Releasing(s, l, p)
  {
    hide OwnOk;
    assert OneOk(s, p);
    if s.own[l] < 0 {
      var q := s.lock[OfSleep(l)];
      assert OneOk(s, q);
      assert Scan(s.procs[q].pc) && OfSleep(l) in Holds(s.procs[q].pc, q);
    }
  }

  lemma ParentWaits(s: Sys, p: nat, c: nat)
    requires Inv(s) && p < |s.procs| && Free(s, WaitLock) && s.procs[p].st == SLEEPING && s.procs[p].chan == ProcChan(p)
    ensures !ZombieChild(s, p, c)
  {
    hide OwnOk, LocksOk;
    assert OneOk(s, p);
  }
}
