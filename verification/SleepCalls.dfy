/** What the routines of `SleepWake` have done when they return: acquiresleep() has the lock, kwait() has freed a child
    or has none, kexit() does not return and leaves no children behind.

    What a process asked for is read off the run itself, not off the machine's state. */
module SleepCalls {
  import opened SleepWake

  // ---------------------------------------------------------------- histories

  /** What a process asked for last, whether one of its steps since then failed, and the zombies freed by its steps
      since then. */
  datatype Asked = Asked(act: Act, failed: bool, freed: set<nat>)

  /** A new process is switched to as if it had called yield(). */
  const BEGAN: Asked := Asked(Yield, false, {})

  ghost function Freed(s: Sys, s': Sys): set<nat> {
    set i: nat | i < |s.procs| && i < |s'.procs| && s.procs[i].st == ZOMBIE && s'.procs[i].st != ZOMBIE
  }

  /** The histories after process `p` took step `a` from `s` to `s'`. */
  ghost function Noted(h: seq<Asked>, s: Sys, s': Sys, p: nat, a: Act): (h': seq<Asked>)
    ensures |h'| == |h|
  {
    if p >= |h| then h
    else if a.Go? then h[p := h[p].(failed := h[p].failed || a.fail, freed := h[p].freed + Freed(s, s'))]
    else if a.Fork? && a.n < |h| then h[p := Asked(a, false, {})][a.n := BEGAN]
    else h[p := Asked(a, false, {})]
  }

  ghost function After(s: Sys, h: seq<Asked>, trace: seq<(nat, Act)>): seq<Asked>
    decreases |trace|
  {
    if trace == [] || !Enabled(s, trace[0].0, trace[0].1) then h else
      var s' := Step(s, trace[0].0, trace[0].1);
      After(s', Noted(h, s, s', trace[0].0, trace[0].1), trace[1..])
  }

  /** The history of process `p` in a run from `s`. */
  ghost function History(s: Sys, trace: seq<(nat, Act)>, p: nat): Asked {
    var h := After(s, seq(|s.procs|, _ => BEGAN), trace);
    if p < |h| then h[p] else BEGAN
  }

  // ------------------------------------------------------- whom a step concerns

  /** Steps that change their own process only. */
  predicate Solo(pc: PC) {
    || pc.AsTest? || pc.RsSet? || pc.Wk? || pc.KeZ? || pc.KeSw? || pc.Kw? || pc.KwF? || pc.SlB? || pc.SlC? || pc.Zz?
    || pc.SlE? || pc.SlF? || pc.Y1? || pc.Parked? || pc.Fresh? || pc.FkB? || pc.FkD?
  }

  /** The other process that a step may change, or -1. */
  function Partner(pc: PC): int {
    match pc
    case WkL(_, i) => i
    case Rp(k) => k
    case KwL(i, _) => i
    case FkA(n) => n
    case FkC(n) => n
    case FkE(n) => n
    case Kl(v) => v
    case _ => -1
  }

  ghost predicate OnlyOne(s: Sys, s': Sys, p: nat) {
    p < |s.procs| == |s'.procs| && s'.procs == s.procs[p := s'.procs[p]] && s'.procs[p].parent == s.procs[p].parent
  }

  lemma MayGo(s: Sys, p: nat, fail: bool)
    requires CanGo(s, p, fail)
    ensures p < |s.procs|
  {}

  lemma Runs(s: Sys, p: nat, fail: bool)
    requires CanGo(s, p, fail)
    ensures var pc := s.procs[p].pc; !pc.Run? && !pc.Unused? && !pc.Embryo? && !pc.Dead?
  {}

  lemma SoloGo(s: Sys, p: nat, fail: bool)
    requires CanGo(s, p, fail) && Solo(s.procs[p].pc)
    ensures OnlyOne(s, Continue(s, p, fail), p)
  {}

  lemma DuoGo(s: Sys, p: nat, fail: bool, q: nat)
    requires CanGo(s, p, fail) && !Solo(s.procs[p].pc) && q < |s.procs| && q != p && q != Partner(s.procs[p].pc)
    ensures |Continue(s, p, fail).procs| == |s.procs| && Continue(s, p, fail).procs[q] == s.procs[q]
  {}

  lemma StartOne(s: Sys, p: nat, a: Act, q: nat)
    requires CanStart(s, p, a) && q < |s.procs|
    ensures |Start(s, p, a).procs| == |s.procs| && Start(s, p, a).procs[q].parent == s.procs[q].parent
    ensures q != p && a != Fork(q) ==> Start(s, p, a).procs[q] == s.procs[q]
    ensures Start(s, p, a).procs[q].held == s.procs[q].held
  {}

  // ----------------------------------------------------------- states and who changes them

  /** Process `p` changes the state of process `i`. */
  ghost predicate Cause(s: Sys, p: nat, a: Act, i: nat, now: ProcState)
    requires p < |s.procs| && i < |s.procs|
  {
    var pc := s.procs[p].pc;
    match s.procs[i].st
    case UNUSED => now == USED && a == Fork(i)
    case USED => a.Go? && ((now == UNUSED && pc == FkA(i) && a.fail) || (now == RUNNABLE && pc == FkE(i)))
    case SLEEPING => a.Go? && now == RUNNABLE && (pc == Kl(i) || Wakes(s, p, i))
    case RUNNABLE => a.Go? && now == RUNNING && p == i && (pc.Zz? || pc.Parked?)
    case RUNNING => a.Go? && p == i && ((now == RUNNABLE && pc.Y1?) || (now == SLEEPING && pc.SlC?) ||
                                        (now == ZOMBIE && pc.KeZ?))
    case ZOMBIE => a.Go? && !a.fail && now == UNUSED && Reaps(s, p, i)
  }

  /** wakeup() in `p` is at slot `i`, which sleeps on its channel. */
  ghost predicate Wakes(s: Sys, p: nat, i: nat)
    requires p < |s.procs| && i < |s.procs|
  {
    s.procs[p].pc.WkL? && s.procs[p].pc.i == i && s.procs[i].chan == WakeChan(s, p, s.procs[p].pc.w)
  }

  /** kwait() in `p` is at its child `i`, which has left its kernel stack for good. */
  ghost predicate Reaps(s: Sys, p: nat, i: nat)
    requires p < |s.procs| && i < |s.procs|
  {
    s.procs[p].pc.KwL? && s.procs[p].pc.i == i && s.procs[i].parent == p && s.procs[i].pc == Dead
  }

  /** A process becomes SLEEPING by its own sleep() only, RUNNABLE by its own yield(), a wakeup() on its channel,
      kkill() or kfork(), a ZOMBIE by its own kexit(), and its slot free by its parent's kwait() or a kfork() that
      fails; and each of these does change it. */
  lemma StateMoves(s: Sys, p: nat, a: Act, i: nat)
    requires Inv(s) && Enabled(s, p, a) && i < |s.procs|
    ensures |Step(s, p, a).procs| == |s.procs|
    ensures Step(s, p, a).procs[i].st != s.procs[i].st ==> Cause(s, p, a, i, Step(s, p, a).procs[i].st)
    ensures forall now :: Cause(s, p, a, i, now) ==> Step(s, p, a).procs[i].st == now
  {
    hide LocksOk, OwnOk, Holds, SleepOk, WaitOk, WokenOk;
    assert OneOk(s, p) && OneOk(s, i);
    if a.Go? {
      if s.procs[p].pc.KwL? && s.procs[p].pc.i == i && s.procs[i].st == ZOMBIE { ReapedIsDead(s, p); }
      GoMoves(s, p, a.fail, i);
    } else {
      StartMoves(s, p, a, i);
    }
  }

  lemma StartMoves(s: Sys, p: nat, a: Act, i: nat)
    requires CanStart(s, p, a) && i < |s.procs|
    ensures |Start(s, p, a).procs| == |s.procs|
    ensures Start(s, p, a).procs[i].st != s.procs[i].st ==>
              s.procs[i].st == UNUSED && Start(s, p, a).procs[i].st == USED && a == Fork(i)
    ensures a == Fork(i) ==> Start(s, p, a).procs[i].st == USED
  {}

  lemma GoMoves(s: Sys, p: nat, fail: bool, i: nat)
    requires CanGo(s, p, fail) && i < |s.procs| && PcOk(s, p) && PcOk(s, i)
    requires s.procs[p].pc.KwL? && s.procs[p].pc.i == i && s.procs[i].st == ZOMBIE ==> s.procs[i].pc == Dead
    ensures |Continue(s, p, fail).procs| == |s.procs|
    ensures Continue(s, p, fail).procs[i].st != s.procs[i].st ==>
              Cause(s, p, Go(fail), i, Continue(s, p, fail).procs[i].st)
    ensures forall now :: Cause(s, p, Go(fail), i, now) ==> Continue(s, p, fail).procs[i].st == now
  {
    MayGo(s, p, fail);
    hide Continue, CanGo, PcOk, Cause;
    if Solo(s.procs[p].pc) {
      SoloPartner(s.procs[p].pc);
      SoloGo(s, p, fail);
      if i == p { SoloMoves(s, p, fail); } else { NoCause(s, p, fail, i); }
    } else if i == p || i == Partner(s.procs[p].pc) {
      Runs(s, p, fail);
      var pc := s.procs[p].pc;
      if pc.WkL? || pc.Kl? { WakeMoves(s, p, fail, i); }
      else if pc.Rp? || pc.KwL? { KidMoves(s, p, fail, i); }
      else { ForkMoves(s, p, fail, i); }
    } else {
      DuoGo(s, p, fail, i);
      NoCause(s, p, fail, i);
    }
  }

  lemma SoloPartner(pc: PC)
    requires Solo(pc)
    ensures Partner(pc) == -1
  {}

  lemma NoCause(s: Sys, p: nat, fail: bool, i: nat)
    requires p < |s.procs| && i < |s.procs| && i != p && i != Partner(s.procs[p].pc)
    ensures forall now :: !Cause(s, p, Go(fail), i, now)
  {}

  lemma SoloMoves(s: Sys, p: nat, fail: bool)
    requires CanGo(s, p, fail) && PcOk(s, p) && Solo(s.procs[p].pc) && |Continue(s, p, fail).procs| == |s.procs|
    ensures Continue(s, p, fail).procs[p].st != s.procs[p].st ==>
              Cause(s, p, Go(fail), p, Continue(s, p, fail).procs[p].st)
    ensures forall now :: Cause(s, p, Go(fail), p, now) ==> Continue(s, p, fail).procs[p].st == now
  {}

  lemma WakeMoves(s: Sys, p: nat, fail: bool, i: nat)
    requires CanGo(s, p, fail) && PcOk(s, p) && i < |s.procs| && (i == p || i == Partner(s.procs[p].pc))
    requires var pc := s.procs[p].pc; pc.WkL? || pc.Kl?
    requires s.procs[p].pc.KwL? && s.procs[p].pc.i == i && s.procs[i].st == ZOMBIE ==> s.procs[i].pc == Dead
    ensures |Continue(s, p, fail).procs| == |s.procs|
    ensures Continue(s, p, fail).procs[i].st != s.procs[i].st ==>
              Cause(s, p, Go(fail), i, Continue(s, p, fail).procs[i].st)
    ensures forall now :: Cause(s, p, Go(fail), i, now) ==> Continue(s, p, fail).procs[i].st == now
  {}

  lemma ForkMoves(s: Sys, p: nat, fail: bool, i: nat)
    requires CanGo(s, p, fail) && PcOk(s, p) && i < |s.procs| && (i == p || i == Partner(s.procs[p].pc))
    requires var pc := s.procs[p].pc; pc.FkA? || pc.FkC? || pc.FkE?
    requires s.procs[p].pc.KwL? && s.procs[p].pc.i == i && s.procs[i].st == ZOMBIE ==> s.procs[i].pc == Dead
    ensures |Continue(s, p, fail).procs| == |s.procs|
    ensures Continue(s, p, fail).procs[i].st != s.procs[i].st ==>
              Cause(s, p, Go(fail), i, Continue(s, p, fail).procs[i].st)
    ensures forall now :: Cause(s, p, Go(fail), i, now) ==> Continue(s, p, fail).procs[i].st == now
  {}

  lemma KidMoves(s: Sys, p: nat, fail: bool, i: nat)
    requires CanGo(s, p, fail) && PcOk(s, p) && i < |s.procs| && (i == p || i == Partner(s.procs[p].pc))
    requires var pc := s.procs[p].pc; pc.Rp? || pc.KwL?
    requires s.procs[p].pc.KwL? && s.procs[p].pc.i == i && s.procs[i].st == ZOMBIE ==> s.procs[i].pc == Dead
    ensures |Continue(s, p, fail).procs| == |s.procs|
    ensures Continue(s, p, fail).procs[i].st != s.procs[i].st ==>
              Cause(s, p, Go(fail), i, Continue(s, p, fail).procs[i].st)
    ensures forall now :: Cause(s, p, Go(fail), i, now) ==> Continue(s, p, fail).procs[i].st == now
  {}

  // ------------------------------------------------------------------ families

  ghost predicate NoKidBelow(s: Sys, p: nat, k: nat) {
    forall c :: 0 <= c < k && c < |s.procs| ==> s.procs[c].parent != p
  }

  ghost predicate NoKids(s: Sys, p: nat) { forall c :: 0 <= c < |s.procs| ==> s.procs[c].parent != p }

  ghost predicate HasKid(s: Sys, p: nat) { exists c :: 0 <= c < |s.procs| && s.procs[c].parent == p }

  /** Parents and children fit the program point: kexit() gives its children away in order, kwait() counts them right,
      and kfork() makes a child of its caller. */
  ghost predicate KidsOk(s: Sys, p: nat)
    requires p < |s.procs|
  {
    match s.procs[p].pc
    case Rp(k) => NoKidBelow(s, p, k)
    case Wk(w, _) => WakerKids(s, p, w)
    case WkL(w, _) => WakerKids(s, p, w)
    case KeZ => NoKids(s, p)
    case KeSw => NoKids(s, p)
    case Dead => NoKids(s, p)
    case Unused => NoKids(s, p)
    case Embryo(_) => NoKids(s, p)
    case Kw(i, have) => if have then HasKid(s, p) else NoKidBelow(s, p, i)
    case KwL(i, have) => have || NoKidBelow(s, p, i)
    case SlB(_, lk) => lk == WaitLock ==> HasKid(s, p)
    case SlC(_, lk) => lk == WaitLock ==> HasKid(s, p)
    case Zz(_, lk) => lk == WaitLock ==> HasKid(s, p)
    case SlE(_, lk) => lk == WaitLock ==> HasKid(s, p)
    case SlF(lk) => lk == WaitLock ==> HasKid(s, p)
    case FkA(c) => c < |s.procs| && s.procs[c].parent == -1
    case FkB(c) => c < |s.procs| && s.procs[c].parent == -1
    case FkC(c) => c < |s.procs| && s.procs[c].parent == -1
    case FkD(c) => c < |s.procs| && s.procs[c].parent == p
    case FkE(c) => c < |s.procs| && s.procs[c].parent == p
    case _ => true
  }

  ghost predicate WakerKids(s: Sys, p: nat, w: Waker) {
    match w
    case ByRelease(_) => true
    case ByReparent(k) => NoKidBelow(s, p, k + 1)
    case ByExit => NoKids(s, p)
  }

  /** In kexit(), or no process at all. */
  predicate Ending(pc: PC) {
    || pc.Rp? || pc.KeZ? || pc.KeSw? || pc.Dead? || pc.Unused? || pc.Embryo? ||
        ((pc.Wk? || pc.WkL?) && !pc.w.ByRelease?)
  }

  ghost predicate FamOk(s: Sys, p: nat)
    requires p < |s.procs|
  {
    && -1 <= s.procs[p].parent < |s.procs| && s.procs[p].parent != p
    && (s.procs[p].st == UNUSED || p == INIT ==> s.procs[p].parent == -1)
    && (Ending(s.procs[p].pc) ==> p != INIT) && KidsOk(s, p)
  }

  ghost predicate Families(s: Sys) { forall p :: 0 <= p < |s.procs| ==> FamOk(s, p) }

  /** Some children must be known not to exist. */
  predicate Childless(pc: PC) { Ending(pc) || pc.Kw? || pc.KwL? }

  predicate Filler(pc: PC) { pc.FkA? || pc.FkB? || pc.FkC? || pc.FkD? || pc.FkE? }

  /** A process that stays where it is, keeps its children and gets none it must not get. */
  lemma FamKept(s: Sys, s': Sys, q: nat)
    requires q < |s.procs| == |s'.procs| && FamOk(s, q) && s'.procs[q].pc == s.procs[q].pc
    requires -1 <= s'.procs[q].parent < |s.procs| && s'.procs[q].parent != q
    requires s'.procs[q].st == UNUSED || q == INIT ==> s'.procs[q].parent == -1
    requires forall c :: 0 <= c < |s.procs| && s.procs[c].parent == q ==> s'.procs[c].parent == q
    requires Childless(s.procs[q].pc) ==>
               forall c :: 0 <= c < |s.procs| && s'.procs[c].parent == q ==> s.procs[c].parent == q
    requires Filler(s.procs[q].pc) && s.procs[q].pc.n < |s.procs| ==>
               s'.procs[s.procs[q].pc.n].parent == s.procs[s.procs[q].pc.n].parent
    ensures FamOk(s', q)
  {}

  /** No step but those of reparent(), kwait() and kfork() changes a parent. */
  predicate MovesParent(s: Sys, p: nat, a: Act)
    requires p < |s.procs|
  {
    var pc := s.procs[p].pc;
    a.Go? && (pc.FkC? || (pc.Rp? && pc.k < |s.procs| && s.procs[pc.k].parent == p) ||
              (pc.KwL? && pc.i < |s.procs| && s.procs[pc.i].st == ZOMBIE && !a.fail))
  }

  lemma ParentsKept(s: Sys, p: nat, a: Act)
    requires Enabled(s, p, a) && !MovesParent(s, p, a)
    ensures |Step(s, p, a).procs| == |s.procs|
    ensures forall c :: 0 <= c < |s.procs| ==> Step(s, p, a).procs[c].parent == s.procs[c].parent
  {
    hide Continue, CanGo, Start, CanStart, MovesParent;
    StepLength(s, p, a);
    forall c | 0 <= c < |s.procs|
      ensures Step(s, p, a).procs[c].parent == s.procs[c].parent
    {
      if a.Go? {
        if Solo(s.procs[p].pc) { SoloGo(s, p, a.fail); }
        else if c == p || c == Partner(s.procs[p].pc) { DuoParent(s, p, a.fail, c); }
        else { DuoGo(s, p, a.fail, c); }
      } else {
        StartOne(s, p, a, c);
      }
    }
  }

  lemma DuoParent(s: Sys, p: nat, fail: bool, c: nat)
    requires CanGo(s, p, fail) && !Solo(s.procs[p].pc) && c < |s.procs| && !MovesParent(s, p, Go(fail))
    requires c == p || c == Partner(s.procs[p].pc)
    ensures |Continue(s, p, fail).procs| == |s.procs| && Continue(s, p, fail).procs[c].parent == s.procs[c].parent
  {}

  /** The processes a step moves: `p`, and the slot that kfork() fills or kwait() frees. */
  predicate Moves(s: Sys, p: nat, a: Act, q: nat)
    requires p < |s.procs|
  {
    var pc := s.procs[p].pc;
    || q == p || a == Fork(q)
    || (a.Go? && ((pc == FkA(q) && a.fail) || pc == FkE(q) ||
                  (pc.KwL? && pc.i == q && q < |s.procs| && s.procs[q].st == ZOMBIE && !a.fail)))
  }

  lemma PlacesKept(s: Sys, p: nat, a: Act, q: nat)
    requires Enabled(s, p, a) && q < |s.procs| && !Moves(s, p, a, q)
    ensures |Step(s, p, a).procs| == |s.procs| && Step(s, p, a).procs[q].pc == s.procs[q].pc
    ensures Step(s, p, a).procs[q].st == UNUSED ==> s.procs[q].st == UNUSED
    ensures Step(s, p, a).procs[q].held == s.procs[q].held
  {
    StepLength(s, p, a);
    hide Continue, CanGo, Start, CanStart;
    if a.Go? {
      if Solo(s.procs[p].pc) { SoloGo(s, p, a.fail); }
      else if q == Partner(s.procs[p].pc) { DuoPlace(s, p, a.fail, q); }
      else { DuoGo(s, p, a.fail, q); }
    } else {
      StartOne(s, p, a, q);
    }
  }

  lemma DuoPlace(s: Sys, p: nat, fail: bool, q: nat)
    requires CanGo(s, p, fail) && q < |s.procs| && !Moves(s, p, Go(fail), q) && q == Partner(s.procs[p].pc)
    ensures |Continue(s, p, fail).procs| == |s.procs| && Continue(s, p, fail).procs[q].pc == s.procs[q].pc
    ensures Continue(s, p, fail).procs[q].st == UNUSED ==> s.procs[q].st == UNUSED
    ensures Continue(s, p, fail).procs[q].held == s.procs[q].held
  {}

  /** Every step keeps families in order. */
  lemma FamStep(s: Sys, p: nat, a: Act)
    requires Inv(s) && Families(s) && Enabled(s, p, a)
    ensures Families(Step(s, p, a))
  {
    hide Inv, FamOk, Step, Enabled, Moves, MovesParent;
    StepLength(s, p, a);
    forall q | 0 <= q < |s.procs|
      ensures FamOk(Step(s, p, a), q)
    {
      if MovesParent(s, p, a) {
        if q == p { ParentSelf(s, p, a); } else { ParentOther(s, p, a, q); }
      } else {
        if Moves(s, p, a, q) { FamMoved(s, p, a, q); } else { FamStays(s, p, a, q); }
      }
    }
  }

  lemma StepLength(s: Sys, p: nat, a: Act)
    requires Enabled(s, p, a)
    ensures p < |s.procs| == |Step(s, p, a).procs| && |Step(s, p, a).own| == |s.own|
  {
    hide Continue, Start, CanGo;
    if a.Go? { GoLength(s, p, a.fail); } else { StartLength(s, p, a); }
  }

  lemma StartLength(s: Sys, p: nat, a: Act)
    requires CanStart(s, p, a)
    ensures p < |s.procs| == |Start(s, p, a).procs| && |Start(s, p, a).own| == |s.own|
  {}

  lemma GoLength(s: Sys, p: nat, fail: bool)
    requires CanGo(s, p, fail)
    ensures p < |s.procs| == |Continue(s, p, fail).procs| && |Continue(s, p, fail).own| == |s.own|
  {}

  lemma FamStays(s: Sys, p: nat, a: Act, q: nat)
    requires Families(s) && Enabled(s, p, a) && !MovesParent(s, p, a) && q < |s.procs| && !Moves(s, p, a, q)
    ensures q < |Step(s, p, a).procs| && FamOk(Step(s, p, a), q)
  {
    hide Step, Enabled, Moves, MovesParent, KidsOk;
    ParentsKept(s, p, a);
    PlacesKept(s, p, a, q);
    assert FamOk(s, q);
    FamKept(s, Step(s, p, a), q);
  }

  lemma FamMoved(s: Sys, p: nat, a: Act, q: nat)
    requires Inv(s) && Families(s) && Enabled(s, p, a) && !MovesParent(s, p, a) && q < |s.procs| && Moves(s, p, a, q)
    ensures q < |Step(s, p, a).procs| && FamOk(Step(s, p, a), q)
  {
    hide Inv, FamOk, Continue, CanGo, Start, CanStart;
    if q != p {
      FamSlot(s, p, a, q);
    } else if a.Go? {
      FamSelf(s, p, a.fail);
    } else {
      FamStart(s, p, a);
    }
  }

  ghost predicate SameParents(s: Sys, s': Sys) {
    |s'.procs| == |s.procs| && forall c :: 0 <= c < |s.procs| ==> s'.procs[c].parent == s.procs[c].parent
  }

  lemma SameKids(s: Sys, s': Sys, p: nat, k: nat)
    requires SameParents(s, s')
    ensures NoKidBelow(s', p, k) == NoKidBelow(s, p, k) && NoKids(s', p) == NoKids(s, p) &&
              HasKid(s', p) == HasKid(s, p)
  {}

  /** One more slot has been looked at. */
  lemma NextKid(s: Sys, p: nat, k: nat)
    ensures NoKidBelow(s, p, k) && k < |s.procs| && s.procs[k].parent != p ==> NoKidBelow(s, p, k + 1)
    ensures NoKidBelow(s, p, k) && k >= |s.procs| ==> NoKids(s, p)
    ensures k < |s.procs| && s.procs[k].parent == p ==> HasKid(s, p)
    ensures NoKids(s, p) ==> NoKidBelow(s, p, k) && NoKidBelow(s, p, 0)
  {}

  /** The child that reparent() or kwait() is at. */
  function Place(pc: PC): nat {
    match pc
    case Rp(k) => k
    case Wk(w, _) => if w.ByReparent? then w.k else 0
    case WkL(w, _) => if w.ByReparent? then w.k else 0
    case Kw(i, _) => i
    case KwL(i, _) => i
    case _ => 0
  }

  lemma FamSelf(s: Sys, p: nat, fail: bool)
    requires Inv(s) && Families(s) && CanGo(s, p, fail) && !MovesParent(s, p, Go(fail))
    ensures p < |Continue(s, p, fail).procs| && FamOk(Continue(s, p, fail), p)
  {
    hide LocksOk, OwnOk, SleepOk, WaitOk, WokenOk, Continue, CanGo, PcOk, KidsOk;
    MayGo(s, p, fail);
    assert OneOk(s, p) && FamOk(s, p);
    ParentsKept(s, p, Go(fail));
    var s', k := Continue(s, p, fail), Place(s.procs[p].pc);
    SameKids(s, s', p, k);
    SameKids(s, s', p, k + 1);
    NextKid(s, p, k);
    var pc := s.procs[p].pc;
    if pc.Wk? || pc.WkL? || pc.Rp? || pc.KeZ? || pc.KeSw? { ExitKids(s, p, fail); }
    else if pc.Kw? || pc.KwL? || pc.KwF? { WaitKids(s, p, fail); }
    else if pc.SlB? || pc.SlC? || pc.Zz? || pc.SlE? || pc.SlF? { SleepKids(s, p, fail); }
    else if Filler(pc) { ForkKids(s, p, fail); }
    else { Runs(s, p, fail); OtherKids(s, p, fail); }
  }

  /** Counting goes on from slot `k`. */
  ghost predicate Followed(s: Sys, s': Sys, p: nat, k: nat) {
    && (NoKidBelow(s, p, k) ==> NoKidBelow(s', p, k)) && (NoKidBelow(s, p, k + 1) ==> NoKidBelow(s', p, k + 1))
    && (NoKids(s, p) ==> NoKids(s', p)) && (HasKid(s, p) ==> HasKid(s', p)) && NoKidBelow(s', p, 0)
    && (NoKidBelow(s, p, k) && k < |s.procs| && s.procs[k].parent != p ==> NoKidBelow(s', p, k + 1))
    && (NoKidBelow(s, p, k) && k >= |s.procs| ==> NoKids(s', p))
    && (k < |s.procs| && s.procs[k].parent == p ==> HasKid(s', p))
  }

  lemma ExitKids(s: Sys, p: nat, fail: bool)
    requires CanGo(s, p, fail) && PcOk(s, p) && FamOk(s, p) && !MovesParent(s, p, Go(fail))
    requires var pc := s.procs[p].pc; pc.Wk? || pc.WkL? || pc.Rp? || pc.KeZ? || pc.KeSw?
    requires SameParents(s, Continue(s, p, fail)) && Followed(s, Continue(s, p, fail), p, Place(s.procs[p].pc))
    ensures FamOk(Continue(s, p, fail), p)
  {
    hide NoKidBelow, NoKids, HasKid;
  }

  lemma WaitKids(s: Sys, p: nat, fail: bool)
    requires CanGo(s, p, fail) && PcOk(s, p) && FamOk(s, p) && !MovesParent(s, p, Go(fail))
    requires var pc := s.procs[p].pc; pc.Kw? || pc.KwL? || pc.KwF?
    requires SameParents(s, Continue(s, p, fail)) && Followed(s, Continue(s, p, fail), p, Place(s.procs[p].pc))
    ensures FamOk(Continue(s, p, fail), p)
  {
    hide NoKidBelow, NoKids, HasKid;
  }

  lemma SleepKids(s: Sys, p: nat, fail: bool)
    requires CanGo(s, p, fail) && PcOk(s, p) && FamOk(s, p) && !MovesParent(s, p, Go(fail))
    requires var pc := s.procs[p].pc; pc.SlB? || pc.SlC? || pc.Zz? || pc.SlE? || pc.SlF?
    requires SameParents(s, Continue(s, p, fail)) && Followed(s, Continue(s, p, fail), p, Place(s.procs[p].pc))
    ensures FamOk(Continue(s, p, fail), p)
  {
    hide NoKidBelow, NoKids, HasKid;
  }

  lemma ForkKids(s: Sys, p: nat, fail: bool)
    requires CanGo(s, p, fail) && PcOk(s, p) && FamOk(s, p) && !MovesParent(s, p, Go(fail))
    requires var pc := s.procs[p].pc; Filler(pc)
    requires SameParents(s, Continue(s, p, fail)) && Followed(s, Continue(s, p, fail), p, Place(s.procs[p].pc))
    ensures FamOk(Continue(s, p, fail), p)
  {
    hide NoKidBelow, NoKids, HasKid;
  }

  lemma OtherKids(s: Sys, p: nat, fail: bool)
    requires CanGo(s, p, fail) && PcOk(s, p) && FamOk(s, p) && !MovesParent(s, p, Go(fail))
    requires var pc := s.procs[p].pc; pc.AsTest? || pc.RsSet? || pc.Y1? || pc.Parked? || pc.Fresh? || pc.Kl?
    requires SameParents(s, Continue(s, p, fail)) && Followed(s, Continue(s, p, fail), p, Place(s.procs[p].pc))
    ensures FamOk(Continue(s, p, fail), p)
  {
    hide NoKidBelow, NoKids, HasKid;
  }

  lemma FamStart(s: Sys, p: nat, a: Act)
    requires Inv(s) && Families(s) && CanStart(s, p, a)
    ensures p < |Start(s, p, a).procs| && FamOk(Start(s, p, a), p)
  {
    hide LocksOk, OwnOk, SleepOk, WaitOk, WokenOk;
    assert OneOk(s, p) && FamOk(s, p);
    if a.Fork? { assert FamOk(s, a.n); }
  }

  /** The slot that kfork() takes, gives up, or makes a process. */
  lemma FamSlot(s: Sys, p: nat, a: Act, q: nat)
    requires Inv(s) && Families(s) && Enabled(s, p, a) && !MovesParent(s, p, a) && q < |s.procs| && q != p
    requires Moves(s, p, a, q)
    ensures q < |Step(s, p, a).procs| && FamOk(Step(s, p, a), q)
  {
    hide LocksOk, OwnOk, SleepOk, WaitOk, WokenOk, NoKids, HasKid, NoKidBelow;
    ParentsKept(s, p, a);
    SameKids(s, Step(s, p, a), q, 0);
    assert OneOk(s, p) && OneOk(s, q) && FamOk(s, p) && FamOk(s, q);
  }

  // ---------------------------------------------- the steps that change a parent

  lemma ParentSelf(s: Sys, p: nat, a: Act)
    requires Inv(s) && Families(s) && Enabled(s, p, a) && MovesParent(s, p, a)
    ensures p < |Step(s, p, a).procs| && FamOk(Step(s, p, a), p)
  {
    hide LocksOk, OwnOk, Holds, SleepOk, WaitOk, WokenOk;
    assert OneOk(s, p) && FamOk(s, p);
  }

  /** The process whose parent changes. */
  function Child(pc: PC): nat { if pc.Rp? then pc.k else if pc.KwL? then pc.i else if pc.FkC? then pc.n else 0 }

  /** One parent changes: from `p` to init or to none, or from none to `p`. */
  lemma ParentMoved(s: Sys, p: nat, a: Act)
    requires Inv(s) && Families(s) && Enabled(s, p, a) && MovesParent(s, p, a)
    ensures var s', k, pc := Step(s, p, a), Child(s.procs[p].pc), s.procs[p].pc;
            && |s'.procs| == |s.procs| && k < |s.procs|
            && s'.procs == s.procs[k := s'.procs[k]][p := s'.procs[p]] && s'.procs[p].parent == s.procs[p].parent &&
                k != p
            && s'.procs[k] == s.procs[k].(parent := s'.procs[k].parent, st := s'.procs[k].st, pc := s'.procs[k].pc,
                                          chan := s'.procs[k].chan)
            && s.procs[k].parent == (if pc.FkC? then -1 else p)
            && s'.procs[k].parent == (if pc.FkC? then p else if pc.Rp? then INIT else -1)
            && (if pc.KwL? then s'.procs[k].pc == Unused && s.procs[k].pc == Dead
                else s'.procs[k].pc == s.procs[k].pc && s'.procs[k].st == s.procs[k].st)
            && s.procs[k].st != UNUSED && k != INIT
  {
    hide LocksOk, OwnOk, Holds, SleepOk, WaitOk, WokenOk, NoKids, HasKid, NoKidBelow;
    assert OneOk(s, p) && FamOk(s, p);
    var k := Child(s.procs[p].pc);
    assert OneOk(s, k) && FamOk(s, k);
    if s.procs[p].pc.KwL? { ReapedIsDead(s, p); }
  }

  /** Whoever counts on having no children holds wait_lock, has none for good, or is not init. */
  lemma ParentOther(s: Sys, p: nat, a: Act, q: nat)
    requires Inv(s) && Families(s) && Enabled(s, p, a) && MovesParent(s, p, a) && q < |s.procs| && q != p
    ensures q < |Step(s, p, a).procs| && FamOk(Step(s, p, a), q)
  {
    hide LocksOk, OwnOk, SleepOk, WaitOk, WokenOk, PcOk, Step, Enabled, KidsOk;
    StepLength(s, p, a);
    ParentMoved(s, p, a);
    var s', k := Step(s, p, a), Child(s.procs[p].pc);
    assert FamOk(s, q) && FamOk(s, p);
    SlotElsewhere(s, p, a, q);
    if s.procs[q].pc.Kw? || s.procs[q].pc.KwL? { OneHolder(s, WaitLock, p, q); }
    if q == k && s.procs[p].pc.KwL? {
      ReapedKids(s, s', p, q);
    } else {
      FamKept(s, s', q);
    }
  }

  lemma ReapedKids(s: Sys, s': Sys, p: nat, q: nat)
    requires q < |s.procs| == |s'.procs| && p < |s.procs| && p != q && FamOk(s, q) && s.procs[q].pc == Dead
    requires s'.procs == s.procs[q := s'.procs[q]][p := s'.procs[p]] && s'.procs[p].parent == s.procs[p].parent
    requires s'.procs[q].parent == -1 && s'.procs[q].pc == Unused
    ensures FamOk(s', q)
  {}

  /** The slot that another kfork() fills is not this child. */
  lemma SlotElsewhere(s: Sys, p: nat, a: Act, q: nat)
    requires Inv(s) && Families(s) && Enabled(s, p, a) && MovesParent(s, p, a) && q < |s.procs| && q != p
    ensures Filler(s.procs[q].pc) ==> s.procs[q].pc.n < |s.procs| && s.procs[q].pc.n != Child(s.procs[p].pc)
    ensures WaitLock in Holds(s.procs[p].pc, p)
  {
    hide LocksOk, OwnOk, SleepOk, WaitOk, WokenOk, NoKids, HasKid, NoKidBelow;
    assert OneOk(s, p) && OneOk(s, q) && FamOk(s, q) && FamOk(s, p);
  }

  // ---------------------------------------------------------------- calls and returns

  /** acquiresleep() has the lock, releasesleep() has not, and kexit() is not over. */
  ghost predicate DoneOk(own: seq<int>, p: nat, held: set<nat>, act: Act) {
    match act
    case Sleep(l) => l < |own| && own[l] == p && l in held
    case Release(l) => l !in held
    case Exit => false
    case _ => true
  }

  ghost predicate Sleeps(lk: Lock, h: Asked) {
    if lk.OfSleep? then h.act == Sleep(lk.l) else h.act == Wait && h.freed == {}
  }

  /** A process is where what it asked for leads; kwait() has freed nobody before it is about to return. */
  ghost predicate CallOk(own: seq<int>, p: nat, me: Proc, h: Asked) {
    match me.pc
    case Unused => true
    case Embryo(_) => h.act == Yield
    case Run => DoneOk(own, p, me.held, h.act)
    case AsTest(l) => h.act == Sleep(l)
    case RsSet(l) => h.act == Release(l)
    case Wk(w, _) => if w.ByRelease? then h.act == Release(w.l) && w.l !in me.held else h.act == Exit
    case WkL(w, _) => if w.ByRelease? then h.act == Release(w.l) && w.l !in me.held else h.act == Exit
    case Rp(_) => h.act == Exit
    case KeZ => h.act == Exit
    case KeSw => h.act == Exit
    case Dead => h.act == Exit
    case Kw(_, _) => h.act == Wait && h.freed == {}
    case KwL(_, _) => h.act == Wait && h.freed == {}
    case KwF => h.act == Wait && (h.failed || FreedOne(h))
    case SlB(_, lk) => Sleeps(lk, h)
    case SlC(_, lk) => Sleeps(lk, h)
    case Zz(_, lk) => Sleeps(lk, h)
    case SlE(_, lk) => Sleeps(lk, h)
    case SlF(lk) => Sleeps(lk, h)
    case Y1 => h.act == Yield
    case Parked => h.act == Yield
    case Fresh => h.act == Yield
    case FkA(n) => h.act == Fork(n)
    case FkB(n) => h.act == Fork(n)
    case FkC(n) => h.act == Fork(n)
    case FkD(n) => h.act == Fork(n)
    case FkE(n) => h.act == Fork(n)
    case Kl(v) => h.act == Kill(v)
  }

  ghost predicate FreedOne(h: Asked) { exists i :: h.freed == {i} }

  ghost predicate Calls(s: Sys, h: seq<Asked>) {
    |h| == |s.procs| && forall p :: 0 <= p < |s.procs| ==> CallOk(s.own, p, s.procs[p], h[p])
  }

  /** Only kwait() at a zombie child that it does not fail to report frees one, and that one. */
  lemma FreedIs(s: Sys, p: nat, a: Act)
    requires Inv(s) && Enabled(s, p, a)
    ensures var pc, freed := s.procs[p].pc, Freed(s, Step(s, p, a));
            if a.Go? && !a.fail && pc.KwL? && pc.i < |s.procs| && s.procs[pc.i].st == ZOMBIE then freed == {pc.i}
            else freed == {}
  {
    hide Inv, Step, Enabled;
    StepLength(s, p, a);
    var s', pc := Step(s, p, a), s.procs[p].pc;
    forall i: nat | i < |s.procs| && s.procs[i].st == ZOMBIE && s'.procs[i].st != ZOMBIE
      ensures a.Go? && !a.fail && pc.KwL? && pc.i == i
    {
      StateMoves(s, p, a, i);
    }
    if a.Go? && !a.fail && pc.KwL? && pc.i < |s.procs| && s.procs[pc.i].st == ZOMBIE {
      ReapFrees(s, p);
      assert Freed(s, s') == {pc.i};
    } else {
      assert Freed(s, s') == {};
    }
  }

  lemma ReapFrees(s: Sys, p: nat)
    requires Inv(s) && Enabled(s, p, Go(false)) && s.procs[p].pc.KwL? && s.procs[p].pc.i < |s.procs|
    requires s.procs[s.procs[p].pc.i].st == ZOMBIE
    ensures s.procs[p].pc.i < |Step(s, p, Go(false)).procs| && Step(s, p, Go(false)).procs[s.procs[p].pc.i].st == UNUSED
  {
    hide LocksOk, OwnOk, SleepOk, WaitOk, WokenOk;
    assert OneOk(s, p);
  }

  /** A sleep-lock that another process holds stays with it. */
  lemma OwnStays(s: Sys, p: nat, a: Act, q: nat, l: nat)
    requires Inv(s) && Enabled(s, p, a) && l < |s.own| && s.own[l] == q && q != p
    ensures l < |Step(s, p, a).own| && Step(s, p, a).own[l] == q
  {
    hide LocksOk, SleepOk, WaitOk, WokenOk;
    assert OneOk(s, p) && HeldOk(s.own, p, s.procs[p].held);
    OwnSame(s, p, a);
  }

  lemma OwnSame(s: Sys, p: nat, a: Act)
    requires Enabled(s, p, a)
    ensures |Step(s, p, a).own| == |s.own|
    ensures a.Go? && (s.procs[p].pc.AsTest? || s.procs[p].pc.RsSet?) ==> s.procs[p].pc.l < |s.own|
    ensures var pc, own := s.procs[p].pc, Step(s, p, a).own;
            || own == s.own
            || (a.Go? && pc.AsTest? && s.own[pc.l] == -1 && own == s.own[pc.l := p])
            || (a.Go? && pc.RsSet? && own == s.own[pc.l := -1])
  {}

  /** Every step keeps each process where its call leads. */
  lemma CallStep(s: Sys, h: seq<Asked>, p: nat, a: Act)
    requires Inv(s) && Calls(s, h) && Enabled(s, p, a)
    ensures Calls(Step(s, p, a), Noted(h, s, Step(s, p, a), p, a))
  {
    hide Inv, Step, Enabled, CallOk, Moves;
    StepLength(s, p, a);
    var s' := Step(s, p, a);
    var h' := Noted(h, s, s', p, a);
    FreedIs(s, p, a);
    forall q | 0 <= q < |s.procs|
      ensures CallOk(s'.own, q, s'.procs[q], h'[q])
    {
      if q == p { CallSelf(s, h, p, a); }
      else if Moves(s, p, a, q) { CallSlot(s, h, p, a, q); }
      else { CallOther(s, h, p, a, q); }
    }
  }

  lemma CallOther(s: Sys, h: seq<Asked>, p: nat, a: Act, q: nat)
    requires Inv(s) && Calls(s, h) && Enabled(s, p, a) && q < |s.procs| && q != p && !Moves(s, p, a, q)
    ensures var s' := Step(s, p, a); q < |s'.procs| && CallOk(s'.own, q, s'.procs[q], Noted(h, s, s', p, a)[q])
  {
    hide Inv, Step, Enabled, Freed;
    StepLength(s, p, a);
    PlacesKept(s, p, a, q);
    assert CallOk(s.own, q, s.procs[q], h[q]);
    if h[q].act.Sleep? && h[q].act.l < |s.own| && s.own[h[q].act.l] == q { OwnStays(s, p, a, q, h[q].act.l); }
  }

  lemma CallSlot(s: Sys, h: seq<Asked>, p: nat, a: Act, q: nat)
    requires Inv(s) && Calls(s, h) && Enabled(s, p, a) && q < |s.procs| && q != p && Moves(s, p, a, q)
    ensures var s' := Step(s, p, a); q < |s'.procs| && CallOk(s'.own, q, s'.procs[q], Noted(h, s, s', p, a)[q])
  {
    hide LocksOk, OwnOk, SleepOk, WaitOk, WokenOk, Freed;
    assert OneOk(s, p) && CallOk(s.own, q, s.procs[q], h[q]);
  }

  lemma CallSelf(s: Sys, h: seq<Asked>, p: nat, a: Act)
    requires Inv(s) && Calls(s, h) && Enabled(s, p, a)
    ensures var s' := Step(s, p, a); p < |s'.procs| && CallOk(s'.own, p, s'.procs[p], Noted(h, s, s', p, a)[p])
  {
    hide LocksOk, OwnOk, SleepOk, WaitOk, WokenOk, Freed, Continue, Start, PcOk, CanGo, CanStart, CallOk;
    StepLength(s, p, a);
    assert OneOk(s, p) && CallOk(s.own, p, s.procs[p], h[p]);
    if a.Go? {
      FreedIs(s, p, a);
      CallGo(s, p, a.fail, h[p], Freed(s, Step(s, p, a)));
    } else {
      CallStart(s, p, a);
    }
  }

  lemma CallStart(s: Sys, p: nat, a: Act)
    requires CanStart(s, p, a) && PcOk(s, p)
    ensures var s' := Start(s, p, a);
              p < |s'.procs| && a != Fork(p) && CallOk(s'.own, p, s'.procs[p], Asked(a, false, {}))
  {}

  /** What kwait() frees in this step. */
  ghost predicate FreesNow(s: Sys, p: nat, fail: bool, freed: set<nat>)
    requires p < |s.procs|
  {
    var pc := s.procs[p].pc;
    if !fail && pc.KwL? && pc.i < |s.procs| && s.procs[pc.i].st == ZOMBIE then freed == {pc.i} else freed == {}
  }

  lemma CallGo(s: Sys, p: nat, fail: bool, h: Asked, freed: set<nat>)
    requires CanGo(s, p, fail) && PcOk(s, p) && CallOk(s.own, p, s.procs[p], h) && FreesNow(s, p, fail, freed)
    ensures var s' := Continue(s, p, fail);
            p < |s'.procs| &&
              CallOk(s'.own, p, s'.procs[p], h.(failed := h.failed || fail, freed := h.freed + freed))
  {
    hide CanGo, PcOk, CallOk, Continue, FreesNow;
    MayGo(s, p, fail);
    Runs(s, p, fail);
    var pc := s.procs[p].pc;
    if pc.Wk? || pc.WkL? || pc.Rp? || pc.KeZ? || pc.KeSw? { ExitCall(s, p, fail, h, freed); }
    else if pc.Kw? || pc.KwL? || pc.KwF? { WaitCall(s, p, fail, h, freed); }
    else if pc.SlB? || pc.SlC? || pc.Zz? || pc.SlE? || pc.SlF? { SleepCall(s, p, fail, h, freed); }
    else if Filler(pc) { ForkCall(s, p, fail, h, freed); }
    else { OtherCall(s, p, fail, h, freed); }
  }

  lemma ExitCall(s: Sys, p: nat, fail: bool, h: Asked, freed: set<nat>)
    requires CanGo(s, p, fail) && PcOk(s, p) && CallOk(s.own, p, s.procs[p], h) && FreesNow(s, p, fail, freed)
    requires var pc := s.procs[p].pc; pc.Wk? || pc.WkL? || pc.Rp? || pc.KeZ? || pc.KeSw?
    ensures var s' := Continue(s, p, fail);
            p < |s'.procs| &&
              CallOk(s'.own, p, s'.procs[p], h.(failed := h.failed || fail, freed := h.freed + freed))
  {}

  lemma WaitCall(s: Sys, p: nat, fail: bool, h: Asked, freed: set<nat>)
    requires CanGo(s, p, fail) && PcOk(s, p) && CallOk(s.own, p, s.procs[p], h) && FreesNow(s, p, fail, freed)
    requires var pc := s.procs[p].pc; pc.Kw? || pc.KwL? || pc.KwF?
    ensures var s' := Continue(s, p, fail);
            p < |s'.procs| &&
              CallOk(s'.own, p, s'.procs[p], h.(failed := h.failed || fail, freed := h.freed + freed))
  {}

  lemma SleepCall(s: Sys, p: nat, fail: bool, h: Asked, freed: set<nat>)
    requires CanGo(s, p, fail) && PcOk(s, p) && CallOk(s.own, p, s.procs[p], h) && FreesNow(s, p, fail, freed)
    requires var pc := s.procs[p].pc; pc.SlB? || pc.SlC? || pc.Zz? || pc.SlE? || pc.SlF?
    ensures var s' := Continue(s, p, fail);
            p < |s'.procs| &&
              CallOk(s'.own, p, s'.procs[p], h.(failed := h.failed || fail, freed := h.freed + freed))
  {}

  lemma ForkCall(s: Sys, p: nat, fail: bool, h: Asked, freed: set<nat>)
    requires CanGo(s, p, fail) && PcOk(s, p) && CallOk(s.own, p, s.procs[p], h) && FreesNow(s, p, fail, freed)
    requires var pc := s.procs[p].pc; Filler(pc)
    ensures var s' := Continue(s, p, fail);
            p < |s'.procs| &&
              CallOk(s'.own, p, s'.procs[p], h.(failed := h.failed || fail, freed := h.freed + freed))
  {}

  lemma OtherCall(s: Sys, p: nat, fail: bool, h: Asked, freed: set<nat>)
    requires CanGo(s, p, fail) && PcOk(s, p) && CallOk(s.own, p, s.procs[p], h) && FreesNow(s, p, fail, freed)
    requires var pc := s.procs[p].pc; pc.AsTest? || pc.RsSet? || pc.Y1? || pc.Parked? || pc.Fresh? || pc.Kl?
    ensures var s' := Continue(s, p, fail);
            p < |s'.procs| &&
              CallOk(s'.own, p, s'.procs[p], h.(failed := h.failed || fail, freed := h.freed + freed))
  {}

  // -------------------------------------------------------------------- whole runs

  ghost predicate InvAll(s: Sys, h: seq<Asked>) { Inv(s) && Families(s) && Calls(s, h) }

  lemma BootAll(s: Sys)
    requires Boot(s)
    ensures InvAll(s, seq(|s.procs|, _ => BEGAN))
  {
    BootInv(s);
  }

  lemma {:induction false} RunAll(s: Sys, h: seq<Asked>, trace: seq<(nat, Act)>, s': Sys)
    requires InvAll(s, h) && Reaches(s, trace, s')
    ensures InvAll(s', After(s, h, trace))
    decreases |trace|
  {
    hide Inv, Families, Calls, Enabled, Step, Noted;
    if trace != [] {
      var p, a := trace[0].0, trace[0].1;
      StepInv(s, p, a);
      FamStep(s, p, a);
      CallStep(s, h, p, a);
      RunAll(Step(s, p, a), Noted(h, s, Step(s, p, a), p, a), trace[1..], s');
    }
  }

  /** In every run, whatever the other processes do: a process that asked for a sleep-lock and is back has it, alone;
      one that called kexit() is never back; and a parent is neither a zombie nor a free slot, so that what kexit()
      leaves behind belongs to init. */
  lemma Outcomes(s0: Sys, trace: seq<(nat, Act)>, s: Sys, p: nat)
    requires Boot(s0) && Reaches(s0, trace, s) && p < |s.procs|
    ensures s.procs[p].pc == Run ==> DoneOk(s.own, p, s.procs[p].held, History(s0, trace, p).act)
    ensures s.procs[p].st == ZOMBIE || s.procs[p].st == UNUSED ==> NoKids(s, p)
    ensures s.procs[p].st == SLEEPING && s.procs[p].chan == ProcChan(p) ==> HasKid(s, p)
  {
    hide Inv, Reaches, Boot, Families, Calls, After;
    BootAll(s0);
    RunAll(s0, seq(|s0.procs|, _ => BEGAN), trace, s);
    Outcome(s, After(s0, seq(|s0.procs|, _ => BEGAN), trace), p);
  }

  lemma Outcome(s: Sys, h: seq<Asked>, p: nat)
    requires InvAll(s, h) && p < |s.procs|
    ensures p < |h| && (s.procs[p].pc == Run ==> DoneOk(s.own, p, s.procs[p].held, h[p].act))
    ensures s.procs[p].st == ZOMBIE || s.procs[p].st == UNUSED ==> NoKids(s, p)
    ensures s.procs[p].st == SLEEPING && s.procs[p].chan == ProcChan(p) ==> HasKid(s, p)
  {
    hide LocksOk, OwnOk, SleepOk, WaitOk, WokenOk, NoKids, HasKid, NoKidBelow;
    assert OneOk(s, p) && FamOk(s, p) && CallOk(s.own, p, s.procs[p], h[p]);
  }

  /** What holds when the routine that process `p` called returns. */
  ghost predicate ReturnOk(s: Sys, p: nat, h: Asked) {
    && p < |s.procs|
    && match h.act
       case Sleep(l) => DoneOk(s.own, p, s.procs[p].held, h.act)
       case Release(l) => DoneOk(s.own, p, s.procs[p].held, h.act)
       case Exit => false
       case Wait => h.failed || FreedOne(h) || (h.freed == {} && NoKids(s, p))
       case Fork(c) => c < |s.procs| && if s.procs[c].st == UNUSED then h.failed
                                        else s.procs[c].st == RUNNABLE && s.procs[c].parent == p
       case Kill(v) => v < |s.procs| && s.procs[v].st != SLEEPING
       case _ => true
  }

  /** In every run, the step with which a routine returns leaves what it promises: acquiresleep() the lock, kwait() one
      child freed, or none to wait for, unless a copy failed or the caller was killed; kfork() a child ready to run,
      unless an allocation failed; kkill() its victim awake. */
  lemma Returns(s0: Sys, trace: seq<(nat, Act)>, s: Sys, p: nat, fail: bool)
    requires Boot(s0) && Reaches(s0, trace, s) && CanGo(s, p, fail)
    ensures var s' := Continue(s, p, fail);
            p < |s'.procs| && (s'.procs[p].pc == Run ==>
              ReturnOk(s', p, History(s0, trace, p).(failed := History(s0, trace, p).failed || fail)))
  {
    hide Inv, Reaches, Boot, Families, Calls, After, Continue, CanGo, ReturnOk;
    BootAll(s0);
    var h := After(s0, seq(|s0.procs|, _ => BEGAN), trace);
    RunAll(s0, seq(|s0.procs|, _ => BEGAN), trace, s);
    MayGo(s, p, fail);
    Outcome(s, h, p);
    Returning(s, h, p, fail);
  }

  lemma Returning(s: Sys, h: seq<Asked>, p: nat, fail: bool)
    requires InvAll(s, h) && CanGo(s, p, fail) && p < |h|
    ensures var s' := Continue(s, p, fail);
            p < |s'.procs| && (s'.procs[p].pc == Run ==> ReturnOk(s', p, h[p].(failed := h[p].failed || fail)))
  {
    hide LocksOk, OwnOk, SleepOk, WaitOk, WokenOk, PcOk, Continue, CanGo, ReturnOk, KidsOk, CallOk;
    MayGo(s, p, fail);
    assert OneOk(s, p) && FamOk(s, p) && CallOk(s.own, p, s.procs[p], h[p]);
    StepLength(s, p, Go(fail));
    if s.procs[p].pc.Kw? {
      ParentsKept(s, p, Go(fail));
      SameKids(s, Continue(s, p, fail), p, s.procs[p].pc.i);
      NextKid(s, p, s.procs[p].pc.i);
    }
    if Filler(s.procs[p].pc) || s.procs[p].pc.Kl? { ReturnDuo(s, p, fail, h[p]); }
        else { ReturnSolo(s, p, fail, h[p]); }
  }

  lemma ReturnDuo(s: Sys, p: nat, fail: bool, h: Asked)
    requires CanGo(s, p, fail) && PcOk(s, p) && KidsOk(s, p) && CallOk(s.own, p, s.procs[p], h)
    requires Filler(s.procs[p].pc) || s.procs[p].pc.Kl?
    ensures var s' := Continue(s, p, fail);
            p < |s'.procs| && (s'.procs[p].pc == Run ==> ReturnOk(s', p, h.(failed := h.failed || fail)))
  {}

  lemma ReturnSolo(s: Sys, p: nat, fail: bool, h: Asked)
    requires CanGo(s, p, fail) && PcOk(s, p) && KidsOk(s, p) && CallOk(s.own, p, s.procs[p], h)
    requires !Filler(s.procs[p].pc) && !s.procs[p].pc.Kl?
    requires s.procs[p].pc.Kw? ==> Followed(s, Continue(s, p, fail), p, s.procs[p].pc.i)
    ensures var s' := Continue(s, p, fail);
            p < |s'.procs| && (s'.procs[p].pc == Run ==> ReturnOk(s', p, h.(failed := h.failed || fail)))
  {
    hide NoKids, HasKid, NoKidBelow;
  }

  // ---------------------------------------------------------------- no deadlock

  /** In the middle of a routine, and not asleep. */
  ghost predicate Busy(me: Proc) {
    !me.pc.Run? && !me.pc.Unused? && !me.pc.Embryo? && !me.pc.Dead? && !(me.pc.Zz? && me.st == SLEEPING)
  }

  /** The lock that a step needs, if any. */
  ghost function Needs(s: Sys, p: nat): set<Lock>
    requires p < |s.procs|
  {
    var n := |s.procs|;
    match s.procs[p].pc
    case AsTest(l) => {OfProc(p)}
    case Wk(w, i) => if i < n then {OfProc(i)} else {OfProc(p)}
    case Kw(i, _) => if i < n then {OfProc(i)} else {OfProc(p)}
    case Zz(_, _) => {OfProc(p)}
    case Parked => {OfProc(p)}
    case SlF(lk) => {lk}
    case FkB(_) => {WaitLock}
    case FkD(c) => {OfProc(c)}
    case _ => {}
  }

  /** A process in the middle of a routine goes on unless somebody holds the lock it needs. */
  lemma GoesOn(s: Sys, p: nat)
    requires Inv(s) && p < |s.procs| && Busy(s.procs[p]) && forall k :: k in Needs(s, p) ==> Free(s, k)
    ensures CanGo(s, p, false)
  {
    hide LocksOk, SleepOk, WaitOk, WokenOk, Holds;
    assert OneOk(s, p) && HeldOk(s.own, p, s.procs[p].held);
  }

  /** Whoever holds a process's lock needs no other. */
  lemma InnerGoes(s: Sys, q: nat, i: nat)
    requires Inv(s) && OfProc(i) in s.lock && s.lock[OfProc(i)] == q
    ensures q < |s.procs| && CanGo(s, q, false)
  {
    hide OwnOk, SleepOk, WaitOk, WokenOk, CanGo;
    assert OneOk(s, q);
    GoesOn(s, q);
  }

  /** Whoever holds another lock goes on, or needs a process's lock. */
  lemma OuterGoes(s: Sys, k: Lock)
    requires Inv(s) && k in s.lock && !k.OfProc?
    ensures exists q :: 0 <= q < |s.procs| && CanGo(s, q, false)
  {
    hide OwnOk, SleepOk, WaitOk, WokenOk, CanGo;
    var q := s.lock[k];
    assert OneOk(s, q);
    if j :| j in Needs(s, q) && !Free(s, j) {
      InnerGoes(s, s.lock[j], j.p);
    } else {
      GoesOn(s, q);
    }
  }

  /** Nothing is stuck, in any run: while any process is in the middle of a routine and not asleep, some process can
      take its next step. */
  lemma NeverStuck(s0: Sys, trace: seq<(nat, Act)>, s: Sys, p: nat)
    requires Boot(s0) && Reaches(s0, trace, s) && p < |s.procs| && Busy(s.procs[p])
    ensures exists q :: 0 <= q < |s.procs| && CanGo(s, q, false)
  {
    hide Inv, Reaches, Boot, CanGo;
    BootInv(s0);
    RunInv(s0, trace, s);
    if k :| k in Needs(s, p) && !Free(s, k) {
      if k.OfProc? { InnerGoes(s, s.lock[k], k.p); } else { OuterGoes(s, k); }
    } else {
      GoesOn(s, p);
    }
  }

  /** With no spin-lock held a process may call any routine. */
  lemma MayCall(s: Sys, p: nat, i: nat, l: nat)
    requires s.lock == map[] && p < |s.procs| && s.procs[p].pc == Run && i < |s.procs| && l < |s.own|
    ensures CanStart(s, p, Sleep(l)) && CanStart(s, p, Wait) && CanStart(s, p, Yield) && CanStart(s, p, Kill(i))
    ensures CanStart(s, p, Release(l)) <==> l in s.procs[p].held
    ensures CanStart(s, p, Exit) <==> p != INIT && s.procs[p].held == {}
    ensures CanStart(s, p, Fork(i)) <==> s.procs[i].st == UNUSED
  {}
}
