/** acquiresleep and releasesleep (kernel/sleeplock.c) as clients of sleep and wakeup: any number of
    processes contending for any number of sleep locks, with kills at any time. */
module SleepLocks {
  import opened SleepWakeup
  import SleepCalls

  /** Where a process is in acquiresleep(k) or releasesleep(k). */
  datatype Ctl =
    | Idle
    | Trying(k: nat)    // in the while loop of acquiresleep
    | Got(k: nat)       // locked set, before release(&lk->lk)
    | Freeing(k: nat)   // in releasesleep, before locked is cleared
    | Freed(k: nat)     // before wakeup
    | Woken(k: nat)     // in wakeup, or back from it

  /** `locked` gives the holder recorded in each held sleep lock below `n`; `has` what each process believes
      it holds. */
  datatype World = World(sys: State, n: nat, ctl: seq<Ctl>, locked: map<nat, nat>, has: seq<set<nat>>)

  datatype Move =
    | Inner(st: Step)
    | Enter(p: nat, k: nat) | Wait(p: nat) | Take(p: nat) | Leave(p: nat)
    | BeginRelease(p: nat, k: nat) | Unlock(p: nat) | CallWake(p: nat)

  /** The channel and spin lock of sleep lock k. */
  function Ch(k: nat): Chan { Chan(k, k) }

  /** The steps of sleep, wakeup and the scheduler that go on by themselves, kills by idle processes, and
      new processes. */
  ghost predicate InnerOk(w: World, st: Step)
    requires |w.ctl| == |w.sys.th|
  {
    && Enabled(w.sys, st)
    && var t := w.sys.th[st.p];
       match st
       case Acquire(_, _) => t.pc.Reacquire?
       case Release(_, _) => t.pc.SleepLocked?
       case Change(_, _, _) => false
       case CallSleep(_, _) => false
       case CallWakeup(_, _) => false
       case OwnAcquire(_) => t.pc.SleepCall?
       case OtherAcquire(_, _, why) => why.Wake? || (why.Kill? && w.ctl[st.p].Idle?)
       case Spawn(_, _) => w.ctl[st.p].Idle?
       case _ => true
  }

  /** Process p runs code of this module. */
  ghost predicate Here(w: World, p: nat)
    requires |w.ctl| == |w.sys.th|
  {
    p < |w.ctl| && w.sys.th[p].pc.Out?
  }

  ghost predicate CanMove(w: World, m: Move)
    requires |w.ctl| == |w.sys.th| == |w.has|
  {
    match m
    case Inner(st) => InnerOk(w, st)
    case Enter(p, k) => Here(w, p) && w.ctl[p].Idle? && k < w.n && k !in w.sys.lock
    case Wait(p) => Here(w, p) && w.ctl[p].Trying? && w.ctl[p].k in w.locked
    case Take(p) => Here(w, p) && w.ctl[p].Trying? && w.ctl[p].k !in w.locked
    case Leave(p) => Here(w, p) && (w.ctl[p].Got? || w.ctl[p].Woken?)
    case BeginRelease(p, k) => Here(w, p) && w.ctl[p].Idle? && k in w.has[p] && k !in w.sys.lock
    case Unlock(p) => Here(w, p) && w.ctl[p].Freeing?
    case CallWake(p) => Here(w, p) && w.ctl[p].Freed?
  }

  /** The step of the machine below that a move takes. */
  ghost function StepOf(w: World, m: Move): Step
    requires |w.ctl| == |w.sys.th| == |w.has| && CanMove(w, m)
  {
    match m
    case Inner(st) => st
    case Enter(p, k) => Acquire(p, k)
    case Wait(p) => CallSleep(p, Ch(w.ctl[p].k))
    case Take(p) => Change(p, w.sys.ready - {Ch(w.ctl[p].k)}, {})
    case Leave(p) => Release(p, w.ctl[p].k)
    case BeginRelease(p, k) => Acquire(p, k)
    case Unlock(p) => Change(p, w.sys.ready + {Ch(w.ctl[p].k)}, {Ch(w.ctl[p].k)})
    case CallWake(p) => CallWakeup(p, Ch(w.ctl[p].k))
  }

  /** The world's own fields after a move. */
  ghost function Moved(w: World, m: Move): (r: World)
    requires |w.ctl| == |w.sys.th| == |w.has| && CanMove(w, m)
  {
    match m
    case Inner(st) => w
    case Enter(p, k) => w.(ctl := w.ctl[p := Trying(k)])
    case Wait(p) => w
    case Take(p) => w.(ctl := w.ctl[p := Got(w.ctl[p].k)], locked := w.locked[w.ctl[p].k := p],
          has := w.has[p := w.has[p] + {w.ctl[p].k}])
    case Leave(p) => w.(ctl := w.ctl[p := Idle])
    case BeginRelease(p, k) => w.(ctl := w.ctl[p := Freeing(k)])
    case Unlock(p) => w.(ctl := w.ctl[p := Freed(w.ctl[p].k)], locked := w.locked - {w.ctl[p].k},
          has := w.has[p := w.has[p] - {w.ctl[p].k}])
    case CallWake(p) => w.(ctl := w.ctl[p := Woken(w.ctl[p].k)])
  }

  // ----- the invariant

  ghost predicate CtlOk(w: World, p: nat)
    requires p < |w.ctl| == |w.sys.th| == |w.has|
  {
    var t := w.sys.th[p];
    match w.ctl[p]
    case Idle => HoldsNone(w.sys, p) && t.owed == {} &&
          (t.pc.Out? || (t.pc.At? && t.pc.why.Kill?) || t.pc.Dead? || t.pc.Newborn? || t.pc.FirstRun?)
    case Trying(k) => k < w.n &&
          ((InSleep(t.pc) && t.pc.c == Ch(k)) || (t.pc.Out? && Only(w.sys, p, k) && t.owed == {}))
    case Got(k) => t.pc.Out? && Only(w.sys, p, k) && t.owed == {}
    case Freeing(k) => t.pc.Out? && Only(w.sys, p, k) && t.owed == {} && k in w.has[p] && k < w.n
    case Freed(k) => t.pc.Out? && Only(w.sys, p, k) && t.owed <= {Ch(k)}
    case Woken(k) => Only(w.sys, p, k) && ((t.pc.Out? && t.owed == {}) || (InWake(t.pc, Ch(k)) && t.owed <= {Ch(k)}))
  }

  /** A sleep lock's channel is ready exactly while the lock is free, and what processes believe agrees with
      the record. */
  ghost predicate LockOk(w: World)
  {
    && (forall k: nat {:trigger Ch(k)} :: Ch(k) in w.sys.ready <==> k < w.n && k !in w.locked)
    && (forall p, k :: 0 <= p < |w.has| ==> (k in w.has[p] <==> k in w.locked && w.locked[k] == p))
    && (forall k :: k in w.locked ==> k < w.n)
  }

  ghost predicate WInv(w: World)
  {
    && |w.ctl| == |w.sys.th| == |w.has| && SleepWakeup.Inv(w.sys) && LockOk(w)
    && forall p :: 0 <= p < |w.ctl| ==> CtlOk(w, p)
  }

  /** acquiresleep and releasesleep keep the discipline of sleep and wakeup. */
  lemma MoveEnabled(w: World, m: Move)
    requires WInv(w) && CanMove(w, m)
    ensures Enabled(w.sys, StepOf(w, m))
  {
    if !m.Inner? {
      assert CtlOk(w, m.p);
    }
  }

  ghost function Next(w: World, m: Move): (r: World)
    requires WInv(w) && CanMove(w, m)
  {
    MoveEnabled(w, m);
    Moved(w, m).(sys := After(w.sys, StepOf(w, m)))
  }

  /** The invariant at process p. */
  lemma WInvAt(w: World, p: nat)
    requires WInv(w) && (p < |w.ctl| || p < |w.sys.th|)
    ensures p < |w.ctl| == |w.sys.th| == |w.has| && CtlOk(w, p) && SleepWakeup.Inv(w.sys) && LockOk(w)
  {
    hide CtlOk, LockOk, SleepWakeup.Inv;
  }

  lemma CtlSame(w: World, r: World, x: nat)
    requires x < |w.ctl| == |w.sys.th| == |w.has| && |r.ctl| == |r.sys.th| == |r.has| == |w.has|
    requires CtlOk(w, x) && r.n == w.n && r.ctl[x] == w.ctl[x] && r.has[x] == w.has[x] && Untouched(w.sys, r.sys, x)
    ensures CtlOk(r, x)
  {
  }

  lemma CtlInnerStep(w: World, m: Move)
    requires WInv(w) && CanMove(w, m) && m.Inner? && !m.st.SchedAcquire? && !m.st.SchedRelease?
    ensures CtlOk(Next(w, m), m.st.p)
  {
    if w.ctl[m.st.p].Woken? {
      CtlInnerWake(w, m);
    } else {
      CtlInnerSleep(w, m);
    }
  }

  lemma CtlInnerWake(w: World, m: Move)
    requires WInv(w) && CanMove(w, m) && m.Inner? && !m.st.SchedAcquire? && !m.st.SchedRelease? && w.ctl[m.st.p].Woken?
    ensures CtlOk(Next(w, m), m.st.p)
  {
    hide WInv, LockOk, NotLost, SleepWakeup.Inv, OwedOk, AtOk, Unquiet, Released, ThreadOk, LocksOk, InSleep;
    var p := m.st.p;
    WInvAt(w, p);
    var t := w.sys.th[p];
    assert m.st.WakeDone? && t.owed <= {t.pc.c} ==> t.owed - {t.pc.c} == {};
  }

  lemma CtlInnerSleep(w: World, m: Move)
    requires WInv(w) && CanMove(w, m) && m.Inner? && !m.st.SchedAcquire? && !m.st.SchedRelease?
    requires !w.ctl[m.st.p].Woken?
    ensures CtlOk(Next(w, m), m.st.p)
  {
    hide WInv, LockOk, NotLost, SleepWakeup.Inv, OwedOk, AtOk, Unquiet, Released, InWake;
    WInvAt(w, m.st.p);
    InvAt(w.sys, m.st.p);
  }

  lemma CtlInner(w: World, m: Move)
    requires WInv(w) && CanMove(w, m) && m.Inner?
    ensures CtlOk(Next(w, m), m.st.p)
  {
    hide LockOk, NotLost, Swept, Hushed, OwedOk, AtOk, Unquiet, Released, CtlOk;
    if m.st.SchedAcquire? || m.st.SchedRelease? {
      CtlSame(w, Next(w, m), m.st.p);
    } else {
      CtlInnerStep(w, m);
    }
  }

  lemma CtlOuter(w: World, m: Move)
    requires WInv(w) && CanMove(w, m) && !m.Inner?
    ensures CtlOk(Next(w, m), m.p)
  {
    if m.Enter? || m.BeginRelease? || m.Leave? {
      CtlSpin(w, m);
    } else {
      CtlHeld(w, m);
    }
  }

  /** Moves that take or release the spin lock. */
  lemma CtlSpin(w: World, m: Move)
    requires WInv(w) && CanMove(w, m) && (m.Enter? || m.BeginRelease? || m.Leave?)
    ensures CtlOk(Next(w, m), m.p)
  {
    hide WInv, SleepWakeup.Inv, Unquiet, AboutToSleep, ChangeOk;
    WInvAt(w, m.p);
    MoveEnabled(w, m);
    assert m.BeginRelease? ==> m.k in w.has[m.p] && m.k in w.locked;
  }

  lemma CtlHeld(w: World, m: Move)
    requires WInv(w) && CanMove(w, m) && (m.Wait? || m.Take? || m.Unlock? || m.CallWake?)
    ensures CtlOk(Next(w, m), m.p)
  {
    hide WInv, SleepWakeup.Inv, Unquiet, LockOk;
    WInvAt(w, m.p);
    MoveEnabled(w, m);
  }

  lemma CtlOther(w: World, m: Move, x: nat)
    requires WInv(w) && CanMove(w, m) && x < |w.ctl| && x != StepOf(w, m).p
    ensures CtlOk(Next(w, m), x)
  {
    hide WInv, LockOk, SleepWakeup.Inv, After, Enabled, Untouched, CtlOk;
    WInvAt(w, x);
    MoveEnabled(w, m);
    OthersUntouched(w.sys, StepOf(w, m), x);
    CtlSame(w, Next(w, m), x);
  }

  lemma LockKept(w: World, m: Move)
    requires WInv(w) && CanMove(w, m)
    ensures LockOk(Next(w, m))
  {
    hide WInv, SleepWakeup.Inv, After, Enabled;
    var p := StepPlace(w, m);
    WInvAt(w, p);
    MoveEnabled(w, m);
    ReadyAfter(w.sys, StepOf(w, m));
  }

  /** The process that moves. */
  lemma StepPlace(w: World, m: Move) returns (p: nat)
    requires WInv(w) && CanMove(w, m)
    ensures p == StepOf(w, m).p < |w.ctl|
  {
    hide SleepWakeup.Inv, LockOk, CtlOk;
    p := StepOf(w, m).p;
  }

  lemma NextInv(w: World, m: Move)
    requires WInv(w) && CanMove(w, m)
    ensures WInv(Next(w, m))
  {
    var r := Next(w, m);
    MoveEnabled(w, m);
    StepInv(w.sys, StepOf(w, m));
    LockKept(w, m);
    forall p | 0 <= p < |r.ctl| ensures CtlOk(r, p) {
      if p != StepOf(w, m).p {
        CtlOther(w, m, p);
      } else if m.Inner? {
        CtlInner(w, m);
      } else {
        CtlOuter(w, m);
      }
    }
  }

  /** A world reached from `w` by the moves `run`. */
  ghost predicate Reached(w: World, run: seq<Move>, r: World)
    decreases |run|
  {
    if run == [] then r == w
    else WInv(w) && CanMove(w, run[0]) && Reached(Next(w, run[0]), run[1..], r)
  }

  /** All sleep locks free, one idle process. */
  ghost predicate Begin(w: World)
  {
    && Start(w.sys) && |w.ctl| == |w.sys.th| == |w.has| && w.locked == map[]
    && (forall p :: 0 <= p < |w.ctl| ==> w.ctl[p].Idle? && w.has[p] == {})
    && forall k: nat {:trigger Ch(k)} :: Ch(k) in w.sys.ready <==> k < w.n
  }

  lemma BeginInv(w: World)
    requires Begin(w)
    ensures WInv(w)
  {
    StartInv(w.sys);
  }

  lemma {:induction false} ReachedInv(w: World, run: seq<Move>, r: World)
    requires WInv(w) && Reached(w, run, r)
    ensures WInv(r)
    decreases |run|
  {
    if run != [] {
      NextInv(w, run[0]);
      ReachedInv(Next(w, run[0]), run[1..], r);
    }
  }

  /** Over every run: a sleep lock has at most one holder, and while its spin lock is free no process sleeps
      waiting for it unless it is held. */
  lemma SleepLockSafe(w: World, run: seq<Move>, r: World, k: nat, p: nat, q: nat)
    requires Begin(w) && Reached(w, run, r) && k < w.n && p < |r.has| && q < |r.has|
    ensures |r.sys.th| == |r.has|
    ensures k in r.has[p] && k in r.has[q] ==> p == q
    ensures k !in r.sys.lock && r.sys.th[p].run.Sleeping? && r.sys.th[p].chan == Ch(k) ==> k in r.locked
  {
    hide Begin, Reached, WInv;
    BeginInv(w);
    ReachedInv(w, run, r);
    SameCount(w, run, r);
    HeldByOne(r, k, p, q);
    AwakeIfFree(r, k, p);
  }

  lemma HeldByOne(w: World, k: nat, p: nat, q: nat)
    requires WInv(w) && p < |w.has| && q < |w.has|
    ensures |w.sys.th| == |w.has|
    ensures k in w.has[p] && k in w.has[q] ==> p == q
  {
    hide SleepWakeup.Inv, CtlOk;
    assert k in w.has[p] <==> k in w.locked && w.locked[k] == p;
    assert k in w.has[q] <==> k in w.locked && w.locked[k] == q;
  }

  lemma AwakeIfFree(w: World, k: nat, p: nat)
    requires WInv(w) && p < |w.has| && k < w.n
    ensures |w.sys.th| == |w.has|
    ensures k !in w.sys.lock && w.sys.th[p].run.Sleeping? && w.sys.th[p].chan == Ch(k) ==> k in w.locked
  {
    hide SleepWakeup.Inv, CtlOk, LocksOk, OwedOk, AtOk;
    assert Ch(k) in w.sys.ready <==> k < w.n && k !in w.locked;
    InvAt(w.sys, p);
  }

  // ----- whole calls

  lemma {:induction false} ReachedOn(w: World, run: seq<Move>, r: World, m: Move)
    requires Reached(w, run, r) && WInv(r) && CanMove(r, m)
    ensures Reached(w, run + [m], Next(r, m))
    decreases |run|
  {
    hide WInv, CanMove, Next;
    if run == [] {
      assert run + [m] == [m] && [m][1..] == [];
      assert Reached(Next(w, m), [], Next(r, m));
    } else {
      assert (run + [m])[0] == run[0] && (run + [m])[1..] == run[1..] + [m];
      ReachedOn(Next(w, run[0]), run[1..], r, m);
    }
  }

  /** acquiresleep(k) of a lock that is free, by a process in any company: it has the lock, is recorded as its holder,
      and nobody else's locks have changed. */
  lemma AcquireGoes(w: World, p: nat, k: nat) returns (run: seq<Move>, r: World)
    requires WInv(w) && Here(w, p) && w.ctl[p].Idle? && k < w.n && k !in w.sys.lock && k !in w.locked
    ensures Reached(w, run, r) && WInv(r) && r.locked == w.locked[k := p] && p < |w.has|
    ensures r.has == w.has[p := w.has[p] + {k}] && |r.ctl| == |w.ctl| && r.ctl[p].Idle? && r.sys.lock == w.sys.lock
    ensures !(Ch(k) in r.sys.ready)
  {
    hide WInv, Reached, After, Enabled;
    WInvAt(w, p);
    var a, b := TakeGoes(w, p, k);
    WInvAt(b, p);
    NextInv(b, Leave(p));
    ReachedOn(w, a, b, Leave(p));
    run, r := a + [Leave(p)], Next(b, Leave(p));
    ReleaseStep(b, Leave(p));
    WInvAt(r, p);
  }

  lemma TakeGoes(w: World, p: nat, k: nat) returns (run: seq<Move>, r: World)
    requires WInv(w) && Here(w, p) && w.ctl[p].Idle? && k < w.n && k !in w.sys.lock && k !in w.locked
    ensures Reached(w, run, r) && WInv(r) && r.n == w.n && r.locked == w.locked[k := p] && p < |w.has|
    ensures r.has == w.has[p := w.has[p] + {k}] && r.ctl == w.ctl[p := Got(k)] && |r.ctl| == |r.sys.th| == |r.has|
    ensures r.sys.lock == w.sys.lock[k := p] && r.sys.th[p].pc.Out?
  {
    hide WInv, Reached, After, Enabled, LockOk, CtlOk;
    WInvAt(w, p);
    assert Reached(w, [], w) by { ReachedNone(w); }
    NextInv(w, Enter(p, k));
    ReachedOn(w, [], w, Enter(p, k));
    var a := Next(w, Enter(p, k));
    AcquireStep(w, Enter(p, k));
    WInvAt(a, p);
    NextInv(a, Take(p));
    ReachedOn(w, [] + [Enter(p, k)], a, Take(p));
    run, r := [] + [Enter(p, k)] + [Take(p)], Next(a, Take(p));
    ChangeStep(a, Take(p));
    WInvAt(r, p);
  }

  lemma ReachedNone(w: World)
    ensures Reached(w, [], w)
  {
  }

  lemma AcquireStep(w: World, m: Move)
    requires WInv(w) && CanMove(w, m) && (m.Enter? || m.BeginRelease?)
    ensures var r := Next(w, m);
            && r.sys.lock == w.sys.lock[m.k := m.p] && |r.sys.th| == |w.sys.th| && r.sys.th[m.p].pc.Out?
            && r.sys.ready == w.sys.ready
  {
    hide WInv, SleepWakeup.Inv, Unquiet, ChangeOk, AboutToSleep;
    MoveEnabled(w, m);
  }

  lemma ChangeStep(w: World, m: Move)
    requires WInv(w) && CanMove(w, m) && (m.Take? || m.Unlock?)
    ensures var r := Next(w, m); r.sys.lock == w.sys.lock && |r.sys.th| == |w.sys.th| && r.sys.th[m.p].pc.Out?
  {
    hide WInv, SleepWakeup.Inv, Unquiet, ChangeOk, AboutToSleep;
    MoveEnabled(w, m);
  }

  lemma ReleaseStep(w: World, m: Move)
    requires WInv(w) && CanMove(w, m) && m.Leave?
    ensures var r := Next(w, m); r.sys.lock == w.sys.lock - {w.ctl[m.p].k} && |r.sys.th| == |w.sys.th|
  {
    hide WInv, SleepWakeup.Inv, Unquiet, ChangeOk, AboutToSleep;
    MoveEnabled(w, m);
  }

  /** releasesleep(k) up to its wakeup: the lock is free, nobody is recorded, those who wait for it have something to
      do, and the process that frees it calls wakeup before it lets go of the spin lock. */
  lemma ReleaseGoes(w: World, p: nat, k: nat) returns (run: seq<Move>, r: World)
    requires WInv(w) && Here(w, p) && p < |w.has| && w.ctl[p].Idle? && k in w.has[p] && k !in w.sys.lock
    ensures Reached(w, run, r) && WInv(r) && r.locked == w.locked - {k} && r.has == w.has[p := w.has[p] - {k}]
    ensures Ch(k) in r.sys.ready && p < |r.sys.th| == |r.ctl| && CanMove(r, CallWake(p)) && Holds(r.sys, p, k)
    ensures Next(r, CallWake(p)).sys.th[p].pc == Waking(Ch(k), 0)
  {
    hide WInv, Reached, After, Enabled;
    WInvAt(w, p);
    assert Reached(w, [], w) by { ReachedNone(w); }
    NextInv(w, BeginRelease(p, k));
    ReachedOn(w, [], w, BeginRelease(p, k));
    var a := Next(w, BeginRelease(p, k));
    AcquireStep(w, BeginRelease(p, k));
    WInvAt(a, p);
    NextInv(a, Unlock(p));
    ReachedOn(w, [] + [BeginRelease(p, k)], a, Unlock(p));
    run, r := [] + [BeginRelease(p, k)] + [Unlock(p)], Next(a, Unlock(p));
    ChangeStep(a, Unlock(p));
    WInvAt(r, p);
    WakeStep(r, p);
  }

  lemma WakeStep(w: World, p: nat)
    requires WInv(w) && CanMove(w, CallWake(p))
    ensures Next(w, CallWake(p)).sys.th[p].pc == Waking(Ch(w.ctl[p].k), 0)
  {
    hide WInv, SleepWakeup.Inv, Unquiet, ChangeOk, AboutToSleep;
    MoveEnabled(w, CallWake(p));
  }

  /** Process p waits: in sleep, for a spin lock, or for the p->lock of the process its wakeup has come to. */
  ghost predicate Waits(w: World, p: nat)
    requires p < |w.ctl| == |w.sys.th|
  {
    var pc, s := w.sys.th[p].pc, w.sys;
    SleepCalls.SleepWaits(s, p) || (pc.Waking? && pc.i != p && pc.i < |s.th| && !s.th[pc.i].plock.Free?)
  }

  /** The move p is about to make. */
  ghost function OwnMove(w: World, p: nat): (m: Move)
    requires p < |w.ctl| == |w.sys.th|
  {
    var pc := w.sys.th[p].pc;
    if InSleep(pc) && pc.c.Chan? then Inner(SleepCalls.SleepStep(w.sys.th[p], p))
    else if pc.Waking? then
      Inner(if pc.i == p then WakeSelf(p) else if pc.i >= |w.sys.th| then WakeDone(p)
            else OtherAcquire(p, pc.i, Wake(pc.c)))
    else if pc.At? then Inner(OtherRelease(p))
    else match w.ctl[p]
         case Trying(k) => if k in w.locked then Wait(p) else Take(p)
         case Freeing(_) => Unlock(p)
         case Freed(_) => CallWake(p)
         case _ => Leave(p)
  }

  /** A process in acquiresleep or releasesleep that is not made to wait has a move to make; one that tries for a lock
      goes to sleep exactly if the lock is held. */
  lemma NeverStuck(w: World, p: nat)
    requires WInv(w) && p < |w.ctl| == |w.sys.th| && !w.ctl[p].Idle? && !Waits(w, p)
    ensures |w.has| == |w.ctl| && exists m :: CanMove(w, m) && (if m.Inner? then m.st.p == p else m.p == p)
    ensures w.ctl[p].Trying? && w.sys.th[p].pc.Out? ==>
              (CanMove(w, Wait(p)) <==> w.ctl[p].k in w.locked) && (CanMove(w, Take(p)) <==> w.ctl[p].k !in w.locked)
  {
    hide WInv, LockOk, SleepWakeup.Inv;
    WInvAt(w, p);
    OwnThere(w, p);
    var m := OwnMove(w, p);
    assert CanMove(w, m) && (if m.Inner? then m.st.p == p else m.p == p);
  }

  lemma OwnThere(w: World, p: nat)
    requires WInv(w) && p < |w.ctl| == |w.sys.th| == |w.has| && !w.ctl[p].Idle? && !Waits(w, p)
    ensures CanMove(w, OwnMove(w, p))
  {
    if InSleep(w.sys.th[p].pc) {
      OwnAsleep(w, p);
    } else {
      OwnAwake(w, p);
    }
  }

  lemma OwnAsleep(w: World, p: nat)
    requires WInv(w) && p < |w.ctl| == |w.sys.th| == |w.has| && !w.ctl[p].Idle? && !Waits(w, p)
    requires InSleep(w.sys.th[p].pc)
    ensures CanMove(w, OwnMove(w, p))
  {
    hide WInv, LockOk, SleepWakeup.Inv, Enabled;
    WInvAt(w, p);
    SleepCalls.SleepMoves(w.sys, p);
  }

  lemma OwnAwake(w: World, p: nat)
    requires WInv(w) && p < |w.ctl| == |w.sys.th| == |w.has| && !w.ctl[p].Idle? && !Waits(w, p)
    requires !InSleep(w.sys.th[p].pc)
    ensures CanMove(w, OwnMove(w, p))
  {
    hide WInv, LockOk, SleepWakeup.Inv, NotLost, LocksOk, OwedOk;
    WInvAt(w, p);
    InvAt(w.sys, p);
  }

  lemma {:induction false} SameCount(w: World, run: seq<Move>, r: World)
    requires Reached(w, run, r)
    ensures r.n == w.n
    decreases |run|
  {
    if run != [] {
      SameCount(Next(w, run[0]), run[1..], r);
    }
  }
}
