/** kfork, kexit and kwait come to an end: every move a process makes in them brings it nearer, and it has one unless
    it waits for a lock or sleeps. */
module ExitWaitEnds {
  import opened SleepWakeup
  import opened ExitWait
  import SleepCalls

  /** How far process p, with control point c among n slots, is from the end of its call. */
  function CtlRank(c: Ctl, n: nat): (r: int)
  {
    match c
    case Idle => 0
    case Made(_) => 4
    case Adopting(_) => 3
    case Adopted(_) => 2
    case Starting(_) => 1
    case Reparent(j) => 3 * (n - j) + 10
    case WakeInit(j) => 3 * (n - j) + 9
    case WokenInit(j) => 3 * (n - j) + 8
    case WokenParent => 9
    case OwnLocked => 8
    case Zombied => 7
    case Scan(j, _) => 2 * (n - j) + 5
    case Looking(j) => 2 * (n - j) + 4
    case Staying => 4
    case Reaped => 2
    case Leaving => 1
  }

  /** How far it is from the end of a wakeup it is in. */
  function WakeRank(pc: Pc, n: nat): (r: nat)
  {
    if pc.Waking? then (if pc.i < n then 2 * (n - pc.i) + 1 else 1)
    else if pc.At? && pc.why.Wake? then (if pc.i < n then 2 * (n - pc.i) else 2)
    else 0
  }

  ghost function Rank(w: World, p: nat): (r: int)
    requires Shape(w) && p < |w.ctl|
  {
    CtlRank(w.ctl[p], |w.slots|) * (2 * |w.slots| + 2) + WakeRank(w.sys.th[p].pc, |w.slots|)
  }

  /** Process p begins kfork, kexit or kwait, or goes to sleep in kwait. */
  predicate Begins(m: Move, p: nat)
  {
    match m
    case Inner(_) => false
    case InFork(q, f) => q == p && f.Alloc?
    case InExit(q, e) => q == p && e.ExitBegin?
    case InWait(q, x) => q == p && (x.WaitBegin? || x.SleepInWait?)
  }

  /** Process p, which is in one of the three and not asleep in it, moves on. */
  ghost predicate GoesOn(w: World, m: Move, p: nat)
    requires Shape(w) && p < |w.ctl|
  {
    && !Begins(m, p) && !w.ctl[p].Idle? && !InSleep(w.sys.th[p].pc)
    && if m.Inner? then m.st.p == p && !m.st.SchedAcquire? && !m.st.SchedRelease? else m.p == p
  }

  lemma ForkNearer(w: World, p: nat, f: ForkStep)
    requires WInv(w) && CanFork(w, p, f) && !f.Alloc?
    ensures CtlRank(Forked(w, p, f).ctl[p], |w.slots|) < CtlRank(w.ctl[p], |w.slots|)
  {
    hide WInv, Making;
    WInvAt(w, p);
  }

  lemma ExitNearer(w: World, p: nat, e: ExitStep)
    requires WInv(w) && CanExit(w, p, e) && !e.ExitBegin?
    ensures CtlRank(Exited(w, p, e).ctl[p], |w.slots|) < CtlRank(w.ctl[p], |w.slots|)
  {
    hide WInv, NoChild, SleepWakeup.Inv, SlotOk;
    WInvAt(w, p);
  }

  lemma WaitNearer(w: World, p: nat, x: WaitStep)
    requires WInv(w) && CanWait(w, p, x) && !x.WaitBegin? && !x.SleepInWait?
    ensures CtlRank(Waited(w, p, x).ctl[p], |w.slots|) < CtlRank(w.ctl[p], |w.slots|)
  {
    hide WInv, NoChild, NoZombie, SleepWakeup.Inv, SlotOk;
    WInvAt(w, p);
  }

  lemma MoveNearer(w: World, m: Move)
    requires WInv(w) && CanMove(w, m) && !m.Inner? && !Begins(m, m.p)
    ensures m.p < |w.ctl| && CtlRank(Next(w, m).ctl[m.p], |w.slots|) < CtlRank(w.ctl[m.p], |w.slots|)
  {
    hide WInv, Forked, Exited, Waited, After, Enabled, CtlRank, CanFork, CanExit, CanWait;
    WInvReady(w);
    MovePlace(w, m);
    match m {
      case Inner(_) =>
      case InFork(p, f) => ForkNearer(w, p, f);
      case InExit(p, e) => ExitNearer(w, p, e);
      case InWait(p, x) => WaitNearer(w, p, x);
    }
  }

  /** Inside wakeup. */
  lemma WakeNearer(w: World, m: Move, p: nat)
    requires WInv(w) && CanMove(w, m) && m.Inner? && p < |w.ctl| && GoesOn(w, m, p)
    ensures WakeRank(Next(w, m).sys.th[p].pc, |w.slots|) < WakeRank(w.sys.th[p].pc, |w.slots|)
  {
    hide WInv, SleepWakeup.Inv, SlotOk, NoChild, NoZombie, Making, ReadySet, Unquiet, Released, ChangeOk, AboutToSleep;
    hide LedgerOk;
    WInvAt(w, p);
  }

  lemma NoLess(c: nat, k: nat)
    ensures c * k >= 0
  {
  }

  lemma Weigh(a: int, b: int, x: nat, y: nat, k: nat)
    requires a < b && x < k
    ensures a * k + x < b * k + y
  {
    assert (b - a - 1) * k >= 0 by { NoLess(b - a - 1, k); }
    assert (b - a - 1) * k == b * k - a * k - k;
  }

  /** Every move a process makes in a call brings it nearer to its end. */
  lemma GoesNearer(w: World, m: Move, p: nat)
    requires WInv(w) && CanMove(w, m) && p < |w.ctl| && GoesOn(w, m, p)
    ensures Rank(Next(w, m), p) < Rank(w, p)
  {
    hide WInv, Forked, Exited, Waited, After, Enabled, CtlRank, WakeRank, CanMove;
    var n := |w.slots|;
    WInvReady(w);
    if m.Inner? {
      WakeNearer(w, m, p);
    } else {
      MoveNearer(w, m);
      WakeSmall(Next(w, m).sys.th[p].pc, n);
      Weigh(CtlRank(Next(w, m).ctl[p], n), CtlRank(w.ctl[p], n),
            WakeRank(Next(w, m).sys.th[p].pc, n), WakeRank(w.sys.th[p].pc, n), 2 * n + 2);
    }
  }

  lemma WakeSmall(pc: Pc, n: nat)
    requires n > 0
    ensures WakeRank(pc, n) < 2 * n + 2
  {
  }

  /** No move but its own beginnings takes a process further from the end of its call. */
  lemma RankKept(w: World, m: Move, p: nat)
    requires WInv(w) && CanMove(w, m) && p < |w.ctl| && !Begins(m, p) && !GoesOn(w, m, p)
    ensures Rank(Next(w, m), p) <= Rank(w, p)
  {
    hide WInv, SleepWakeup.Inv, After, Enabled, CtlRank, WakeRank, CanMove, StepOf, Forked, Exited, Waited, GoesOn;
    WInvReady(w);
    CtlStays(w, m, p);
    WakeStays(w, m, p);
  }

  lemma CtlStays(w: World, m: Move, p: nat)
    requires WInv(w) && CanMove(w, m) && p < |w.ctl| && !Begins(m, p) && !GoesOn(w, m, p)
    ensures Next(w, m).ctl[p] == w.ctl[p]
  {
    hide WInv, SleepWakeup.Inv, After, Enabled, CtlOk, SlotOk, Forked, Exited, Waited, CanFork, CanExit, CanWait;
    hide StepOf, ReadySet, LedgerOk;
    WInvAt(w, p);
    if !m.Inner? {
      if m.p == p {
        BusyHere(w, m);
      } else {
        CtlElse(w, m, p);
      }
    }
  }

  /** Whoever moves in one of the calls, and does not begin it, is in it and awake. */
  lemma BusyHere(w: World, m: Move)
    requires WInv(w) && CanMove(w, m) && !m.Inner? && !Begins(m, m.p)
    ensures m.p < |w.ctl| && GoesOn(w, m, m.p)
  {
    hide WInv, SleepWakeup.Inv, SlotOk, NoChild, NoZombie, Making, ReadySet, LedgerOk, Enabled;
    WInvReady(w);
    MovePlace(w, m);
    WInvAt(w, m.p);
  }

  lemma CtlElse(w: World, m: Move, p: nat)
    requires WInv(w) && CanMove(w, m) && !m.Inner? && p < |w.ctl| && m.p != p
    ensures Moved(w, m).ctl[p] == w.ctl[p]
  {
    hide WInv, SleepWakeup.Inv, Forked, Exited, Waited, CanFork, CanExit, CanWait, StepOf;
    WInvReady(w);
    StepPlace(w, m);
    SlotsKept(w, m, p);
  }

  lemma WakeStays(w: World, m: Move, p: nat)
    requires WInv(w) && CanMove(w, m) && p < |w.ctl| && !Begins(m, p) && !GoesOn(w, m, p)
    ensures WakeRank(Next(w, m).sys.th[p].pc, |w.slots|) <= WakeRank(w.sys.th[p].pc, |w.slots|)
  {
    hide WInv, SleepWakeup.Inv, After, Enabled, SlotOk, NoChild, NoZombie, Making, ReadySet, LedgerOk;
    WInvAt(w, p);
    MoveEnabled(w, m);
    if StepOf(w, m).p != p {
      OthersUntouched(w.sys, StepOf(w, m), p);
    } else {
      StepsOwn(w, m, p);
    }
  }

  lemma StepsOwn(w: World, m: Move, p: nat)
    requires WInv(w) && CanMove(w, m) && p < |w.ctl| && !Begins(m, p) && !GoesOn(w, m, p) && StepOf(w, m).p == p
    ensures WakeRank(Next(w, m).sys.th[p].pc, |w.slots|) <= WakeRank(w.sys.th[p].pc, |w.slots|)
  {
    hide WInv, SleepWakeup.Inv, SlotOk, NoChild, NoZombie, Making, ReadySet, LedgerOk, Unquiet, Released, ChangeOk;
    hide AboutToSleep, HoldsNone, CanFork, CanExit, CanWait, Forked, Exited, Waited, ForkStepOf, ExitStepOf;
    hide WaitStepOf;
    WInvAt(w, p);
    if !m.Inner? {
      StepPlace(w, m);
      BusyHere(w, m);
    }
  }

  /** The moves of `run` with which process p goes on. */
  ghost function OwnMoves(w: World, run: seq<Move>, r: World, p: nat): (k: nat)
    requires Reached(w, run, r) && WInv(w) && p < |w.ctl|
    decreases |run|
  {
    if run == [] then 0
    else
      NextInv(w, run[0]);
      Grown(w, run[0]);
      (if GoesOn(w, run[0], p) then 1 else 0) + OwnMoves(Next(w, run[0]), run[1..], r, p)
  }

  lemma Grown(w: World, m: Move)
    requires WInv(w) && CanMove(w, m)
    ensures |Next(w, m).ctl| == |w.ctl|
  {
    hide WInv, After, Enabled, Moved, CanMove;
    WInvReady(w);
  }

  /** Over every run, with any interleaving: from wherever it is in a call, a process makes at most Rank moves before
      it has returned, exited, or gone to sleep for a child. */
  lemma {:induction false} EndsSoon(w: World, run: seq<Move>, r: World, p: nat)
    requires WInv(w) && Reached(w, run, r) && p < |w.ctl| && forall k :: 0 <= k < |run| ==> !Begins(run[k], p)
    ensures Shape(r) && p < |r.ctl| && 0 <= Rank(r, p)
    ensures OwnMoves(w, run, r, p) + Rank(r, p) <= Rank(w, p)
    decreases |run|
  {
    hide WInv, GoesOn, Rank, Next, CanMove, Begins;
    WInvReady(w);
    if run == [] {
      RankNat(w, p);
    } else {
      NextInv(w, run[0]);
      Grown(w, run[0]);
      if GoesOn(w, run[0], p) {
        GoesNearer(w, run[0], p);
      } else {
        RankKept(w, run[0], p);
      }
      EndsSoon(Next(w, run[0]), run[1..], r, p);
    }
  }

  /** Rank is zero exactly outside the three calls, and is bounded by the size of the table. */
  lemma RankNat(w: World, p: nat)
    requires WInv(w) && p < |w.ctl|
    ensures var n := |w.slots|; 0 <= Rank(w, p) < (3 * n + 11) * (2 * n + 2)
    ensures Rank(w, p) == 0 <==> w.ctl[p].Idle?
  {
    hide WInv, SleepWakeup.Inv, SlotOk, NoChild, NoZombie, Making, ReadySet, LedgerOk, WakeRank;
    WInvAt(w, p);
    var n, c := |w.slots|, CtlRank(w.ctl[p], |w.slots|);
    WakeSmall(w.sys.th[p].pc, n);
    Weigh(c, 3 * n + 11, WakeRank(w.sys.th[p].pc, n), 0, 2 * n + 2);
    Weigh(-1, c, 0, WakeRank(w.sys.th[p].pc, n), 2 * n + 2);
    if w.ctl[p].Idle? {
      IdleRank(w, p);
    } else {
      Weigh(0, c, 0, WakeRank(w.sys.th[p].pc, n), 2 * n + 2);
    }
  }

  lemma IdleRank(w: World, p: nat)
    requires WInv(w) && p < |w.ctl| && w.ctl[p].Idle?
    ensures Rank(w, p) == 0
  {
    hide WInv, SleepWakeup.Inv, SlotOk, ReadySet, LedgerOk;
    WInvAt(w, p);
  }

  /** Process p waits for a lock: wait_lock, or the p->lock of the process it has come to. */
  ghost predicate Blocked(w: World, p: nat)
    requires Shape(w) && p < |w.ctl|
  {
    var pc, ctl, s := w.sys.th[p].pc, w.ctl[p], w.sys;
    || (ctl.Made? && WAIT in s.lock)
    || (ctl.Starting? && ctl.i < |s.th| && !s.th[ctl.i].plock.Free?)
    || (pc.Out? && ctl.WokenParent? && !s.th[p].plock.Free?)
    || (pc.Out? && ctl.Scan? && ctl.j < |w.slots| && w.slots[ctl.j].parent == p && !s.th[ctl.j].plock.Free?)
    || (pc.Waking? && pc.i < |s.th| && !s.th[pc.i].plock.Free?)
  }

  /** A process that is in one of the calls and neither asleep nor waiting for a lock has a move to make: no
      combination of table and control point leaves it stuck. */
  lemma NeverStuck(w: World, p: nat)
    requires WInv(w) && p < |w.ctl| && !w.ctl[p].Idle? && !w.ctl[p].Staying? && !InSleep(w.sys.th[p].pc)
    requires !Blocked(w, p)
    ensures exists m :: CanMove(w, m) && GoesOn(w, m, p)
  {
    hide WInv, SleepWakeup.Inv, NoChild, NoZombie, ReadySet, LedgerOk, CanMove;
    WInvAt(w, p);
    var m := OwnMove(w, p);
    MoveThere(w, p);
    assert GoesOn(w, m, p);
  }

  /** Nor does one that sleeps in kwait get stuck on its way into sleep or back from it. */
  lemma SleeperMoves(w: World, p: nat)
    requires WInv(w) && p < |w.ctl| == |w.sys.th| && InSleep(w.sys.th[p].pc) && !SleepCalls.SleepWaits(w.sys, p)
    ensures Shape(w) && w.sys.th[p].pc.c == Ch(p) && CanMove(w, Inner(SleepCalls.SleepStep(w.sys.th[p], p)))
  {
    hide WInv, SleepWakeup.Inv, SlotOk, NoChild, NoZombie, ReadySet, LedgerOk, Making;
    WInvAt(w, p);
    SleepCalls.SleepMoves(w.sys, p);
  }

  /** The move p is about to make. */
  ghost function OwnMove(w: World, p: nat): (m: Move)
    requires Shape(w) && p < |w.ctl|
  {
    var pc, ctl, n := w.sys.th[p].pc, w.ctl[p], |w.slots|;
    if pc.Waking? then
      Inner(if pc.i == p then WakeSelf(p) else if pc.i >= n then WakeDone(p) else OtherAcquire(p, pc.i, Wake(pc.c)))
    else if pc.At? && pc.why.Wake? then Inner(OtherRelease(p))
    else match ctl
         case Made(_) => InFork(p, ForkLock)
         case Adopting(_) => InFork(p, Adopt)
         case Adopted(_) => InFork(p, ForkUnlock)
         case Starting(_) => InFork(p, StartChild)
         case Reparent(j) =>
           InExit(p, if j >= n then CallWakeParent else if w.slots[j].parent == p then GiveChild else SkipChild)
         case WakeInit(_) => InExit(p, CallWakeInit)
         case WokenInit(_) => InExit(p, NextChild)
         case WokenParent => InExit(p, LockSelf)
         case OwnLocked => InExit(p, BecomeZombie(0))
         case Zombied => InExit(p, ExitUnlock)
         case Scan(j, kids) =>
           InWait(p, if j < n then (if w.slots[j].parent == p then LockChild else SkipSlot)
                     else if !kids || p in w.killed then GiveUp else StayOn)
         case Looking(j) => InWait(p, if j < n && w.slots[j].zombie then ReapChild else ChildAlive)
         case Reaped => InWait(p, UnlockReaped)
         case _ => InWait(p, WaitUnlock)
  }

  lemma MoveThere(w: World, p: nat)
    requires WInv(w) && p < |w.ctl| && !w.ctl[p].Idle? && !w.ctl[p].Staying? && !InSleep(w.sys.th[p].pc)
    requires !Blocked(w, p)
    ensures CanMove(w, OwnMove(w, p))
  {
    if w.sys.th[p].pc.Waking? || (w.sys.th[p].pc.At? && w.sys.th[p].pc.why.Wake?) {
      WakeThere(w, p);
    } else if w.ctl[p].Scan? || w.ctl[p].Looking? || w.ctl[p].Reaped? || w.ctl[p].Leaving? {
      WaitThere(w, p);
    } else {
      CallThere(w, p);
    }
  }

  lemma WakeThere(w: World, p: nat)
    requires WInv(w) && p < |w.ctl| && !Blocked(w, p)
    requires w.sys.th[p].pc.Waking? || (w.sys.th[p].pc.At? && w.sys.th[p].pc.why.Wake?)
    ensures CanMove(w, OwnMove(w, p))
  {
    hide WInv, SleepWakeup.Inv, NoChild, NoZombie, ReadySet, LedgerOk, CtlOk, SlotOk;
    WInvAt(w, p);
    InvAt(w.sys, p);
  }

  lemma WaitThere(w: World, p: nat)
    requires WInv(w) && p < |w.ctl| && !InSleep(w.sys.th[p].pc) && !Blocked(w, p)
    requires w.ctl[p].Scan? || w.ctl[p].Looking? || w.ctl[p].Reaped? || w.ctl[p].Leaving?
    ensures CanMove(w, OwnMove(w, p))
  {
    hide WInv, SleepWakeup.Inv, NoChild, NoZombie, ReadySet, LedgerOk, Making;
    WInvAt(w, p);
    if w.ctl[p].Scan? && w.ctl[p].j < |w.slots| {
      WInvAt(w, w.ctl[p].j);
    }
  }

  lemma CallThere(w: World, p: nat)
    requires WInv(w) && p < |w.ctl| && !w.ctl[p].Idle? && !InSleep(w.sys.th[p].pc) && !Blocked(w, p)
    requires !w.ctl[p].Scan? && !w.ctl[p].Looking? && !w.ctl[p].Reaped? && !w.ctl[p].Leaving? && !w.ctl[p].Staying?
    requires !w.sys.th[p].pc.Waking? && !(w.sys.th[p].pc.At? && w.sys.th[p].pc.why.Wake?)
    ensures CanMove(w, OwnMove(w, p))
  {
    hide WInv, SleepWakeup.Inv, NoChild, NoZombie, ReadySet, LedgerOk;
    WInvAt(w, p);
  }

  /** Where a process that is in none of the calls may begin one. */
  lemma MayBegin(w: World, p: nat)
    requires WInv(w) && Here(w, p)
    ensures w.ctl[p].Idle? && WAIT !in w.sys.lock ==>
              CanWait(w, p, WaitBegin) && (p != INIT ==> CanExit(w, p, ExitBegin))
    ensures w.ctl[p].Idle? ==> forall i: nat :: CanFork(w, p, Alloc(i)) <==> i < |w.slots| && w.slots[i].pid == 0
    ensures w.ctl[p].Staying? ==> CanWait(w, p, SleepInWait)
  {
    hide WInv, SleepWakeup.Inv, LedgerOk, ReadySet;
    WInvReady(w);
    WInvAt(w, p);
  }

  /** What kwait can do with the child it has found, under its lock: pass over it if it lives; if it is a zombie, reap
      it, or, when its status cannot be copied out, give up and leave it the zombie it is. */
  lemma FoundChild(w: World, p: nat)
    requires WInv(w) && p < |w.ctl| && w.ctl[p].Looking?
    ensures Shape(w) && w.ctl[p].j < |w.slots| && w.slots[w.ctl[p].j].parent == p
    ensures var zombie := w.slots[w.ctl[p].j].zombie;
            && (CanWait(w, p, ChildAlive) <==> !zombie)
            && (CanWait(w, p, ReapChild) <==> zombie) && (CanWait(w, p, CopyFailed) <==> zombie)
    ensures CanWait(w, p, CopyFailed) ==>
              Waited(w, p, CopyFailed).slots == w.slots && Waited(w, p, CopyFailed).reaped == w.reaped
  {
    hide WInv, SleepWakeup.Inv, LedgerOk, ReadySet, NoChild, NoZombie, SlotOk;
    WInvAt(w, p);
  }

  /** What a move of kfork does below: it takes or releases wait_lock, or starts the child. */
  lemma ForkBelow(w: World, p: nat, f: ForkStep, i: nat)
    requires WInv(w) && CanFork(w, p, f) && i < |w.slots| && i != p
    ensures var r := Next(w, InFork(p, f));
            && WInv(r) && r == Forked(w, p, f).(sys := r.sys) && Here(r, p) && r.sys.th[i].plock == w.sys.th[i].plock
            && r.sys.lock == (if f.ForkLock? then w.sys.lock[WAIT := p]
                              else if f.ForkUnlock? then w.sys.lock - {WAIT} else w.sys.lock)
            && (f.StartChild? && i == w.ctl[p].i ==> r.sys.th[i].pc.Newborn? && r.sys.th[i].run.Runnable?)
  {
    hide WInv, CtlOk, SlotOk, SleepWakeup.Inv, LedgerOk, ReadySet, ChangeOk, Unquiet, Forked, AboutToSleep, Released;
    NextInv(w, InFork(p, f));
    ForkEnabled(w, p, f);
  }

  /** The second half of kfork. */
  lemma ForkTail(w: World, p: nat, i: nat) returns (r: World)
    requires WInv(w) && Here(w, p) && w.ctl[p] == Adopted(i) && i < |w.slots| && i != p && w.sys.th[i].plock.Free?
    ensures Reached(w, [InFork(p, ForkUnlock), InFork(p, StartChild)], r)
    ensures r.slots == w.slots[i := w.slots[i].(maker := NONE)] && r.nextPid == w.nextPid
    ensures r.ctl == w.ctl[p := Idle] && |r.sys.th| == |r.slots|
    ensures WAIT !in r.sys.lock && r.sys.th[i].pc.Newborn? && r.sys.th[i].run.Runnable?
  {
    hide WInv, CtlOk, SlotOk, SleepWakeup.Inv, LedgerOk, ReadySet, Next, Reached;
    ForkBelow(w, p, ForkUnlock, i);
    var d := Next(w, InFork(p, ForkUnlock));
    ForkBelow(d, p, StartChild, i);
    r := Next(d, InFork(p, StartChild));
    ReachedNone(r);
    ReachedOne(d, InFork(p, StartChild), [], r);
    ReachedOne(w, InFork(p, ForkUnlock), [InFork(p, StartChild)] + [], r);
    assert [InFork(p, ForkUnlock), InFork(p, StartChild)] == [InFork(p, ForkUnlock)] + ([InFork(p, StartChild)] + []);
  }

  /** kfork as a whole: with a free slot and nobody holding wait_lock or the child's lock, its five moves can be made
      one after the other, and what they make is a runnable child of the caller with the next pid. */
  lemma ForkGoes(w: World, p: nat, i: nat) returns (r: World)
    requires WInv(w) && Here(w, p) && w.ctl[p].Idle? && i < |w.slots| && w.slots[i].pid == 0
    requires WAIT !in w.sys.lock && w.sys.th[i].plock.Free?
    ensures Reached(w, [InFork(p, Alloc(i)), InFork(p, ForkLock), InFork(p, Adopt), InFork(p, ForkUnlock),
                        InFork(p, StartChild)], r)
    ensures r.slots == w.slots[i := Slot(w.nextPid, p, false, 0, NONE)] && r.nextPid == w.nextPid + 1
    ensures r.ctl == w.ctl && |r.sys.th| == |r.slots|
    ensures WAIT !in r.sys.lock && r.sys.th[i].pc.Newborn? && r.sys.th[i].run.Runnable?
  {
    hide WInv, CtlOk, SlotOk, SleepWakeup.Inv, LedgerOk, ReadySet, Next, Reached;
    var a, b, c := ForkHead(w, p, i);
    r := ForkTail(c, p, i);
    var tail := [InFork(p, ForkUnlock), InFork(p, StartChild)];
    ReachedOne(b, InFork(p, Adopt), tail, r);
    ReachedOne(a, InFork(p, ForkLock), [InFork(p, Adopt)] + tail, r);
    ReachedOne(w, InFork(p, Alloc(i)), [InFork(p, ForkLock)] + ([InFork(p, Adopt)] + tail), r);
    assert [InFork(p, Alloc(i)), InFork(p, ForkLock), InFork(p, Adopt), InFork(p, ForkUnlock), InFork(p, StartChild)]
        == [InFork(p, Alloc(i))] + ([InFork(p, ForkLock)] + ([InFork(p, Adopt)] + tail));
  }

  /** The first half of kfork, move by move. */
  lemma ForkHead(w: World, p: nat, i: nat) returns (a: World, b: World, c: World)
    requires WInv(w) && Here(w, p) && w.ctl[p].Idle? && i < |w.slots| && w.slots[i].pid == 0
    requires WAIT !in w.sys.lock && w.sys.th[i].plock.Free?
    ensures CanFork(w, p, Alloc(i)) && a == Next(w, InFork(p, Alloc(i))) && WInv(a)
    ensures CanFork(a, p, ForkLock) && b == Next(a, InFork(p, ForkLock)) && WInv(b)
    ensures CanFork(b, p, Adopt) && c == Next(b, InFork(p, Adopt)) && WInv(c) && Here(c, p) && i != p
    ensures c.slots == w.slots[i := Slot(w.nextPid, p, false, 0, p)] && c.nextPid == w.nextPid + 1
    ensures c.ctl == w.ctl[p := Adopted(i)] && c.sys.th[i].plock.Free?
  {
    hide WInv, CtlOk, SlotOk, SleepWakeup.Inv, LedgerOk, ReadySet, Next, Reached;
    WInvReady(w);
    MayBegin(w, p);
    SlotIsOther(w, p, i);
    ForkBelow(w, p, Alloc(i), i);
    a := Next(w, InFork(p, Alloc(i)));
    ForkBelow(a, p, ForkLock, i);
    b := Next(a, InFork(p, ForkLock));
    ForkBelow(b, p, Adopt, i);
    c := Next(b, InFork(p, Adopt));
  }

  lemma SlotIsOther(w: World, p: nat, i: nat)
    requires WInv(w) && Here(w, p) && i < |w.slots| && w.slots[i].pid == 0
    ensures i != p
  {
    hide WInv, SleepWakeup.Inv, CtlOk;
    WInvAt(w, i);
  }

  lemma ReachedNone(w: World)
    ensures Reached(w, [], w)
  {
    hide WInv, CanMove, Next;
  }

  lemma ReachedOne(w: World, m: Move, run: seq<Move>, r: World)
    requires WInv(w) && CanMove(w, m) && Reached(Next(w, m), run, r)
    ensures Reached(w, [m] + run, r)
  {
    hide WInv, CanMove, Next;
    assert ([m] + run)[1..] == run;
  }
}
