/** Whole calls of kernel/proc.c as runs of the step system: what sleep, wakeup and kkill come to when they are let
    through, for any state of the other processes. */
module SleepCalls {
  import opened SleepWakeup

  /** A run from s to r. */
  ghost predicate Goes(s: State, steps: seq<Step>, r: State) { Legal(s, steps) && End(s, steps) == r }

  lemma {:induction false} GoesOn(s: State, steps: seq<Step>, r: State, st: Step)
    requires Goes(s, steps, r) && Enabled(r, st)
    ensures Goes(s, steps + [st], After(r, st))
    decreases |steps|
  {
    hide Enabled, After;
    if steps == [] {
      assert steps + [st] == [st] && [st][1..] == [];
      assert Legal(After(s, st), []) && End(After(s, st), []) == After(s, st);
    } else {
      var rest := steps[1..];
      assert (steps + [st])[0] == steps[0] && (steps + [st])[1..] == rest + [st];
      GoesOn(After(s, steps[0]), rest, r, st);
    }
  }

  lemma GoesNone(s: State)
    ensures Goes(s, [], s)
  {
  }

  /** Process p with its own fields changed, all else as it was. */
  function With(s: State, p: nat, t: Thread): (r: State)
    requires p < |s.th|
  {
    s.(th := s.th[p := t])
  }

  // ----- sleep

  /** sleep(c, lk) up to the scheduler: the process is SLEEPING on c, off the processor, and has let go of lk. */
  lemma SleepGoes(s: State, p: nat, c: Chan) returns (steps: seq<Step>)
    requires Inv(s) && p < |s.th| && s.th[p].pc.Out? && AboutToSleep(s, p, c) && s.th[p].plock.Free?
    ensures var t := s.th[p];
            Goes(s, steps,
                 With(s, p, t.(pc := OffCpu(c), run := Sleeping, chan := c, quiet := {})).(lock := s.lock - {c.lock}))
  {
    hide Goes;
    var a := SleepEntered(s, p, c);
    steps := SleepLeft(s, p, c, a);
  }

  /** Up to the release of the condition lock. */
  lemma SleepEntered(s: State, p: nat, c: Chan) returns (steps: seq<Step>)
    requires p < |s.th| && s.th[p].pc.Out? && AboutToSleep(s, p, c) && s.th[p].plock.Free?
    ensures Goes(s, steps, With(s, p, s.th[p].(pc := SleepLocked(c), plock := By(p))))
  {
    hide Goes;
    GoesNone(s);
    var s1 := With(s, p, s.th[p].(pc := SleepCall(c)));
    GoesOn(s, [], s, CallSleep(p, c));
    GoesOn(s, [] + [CallSleep(p, c)], s1, OwnAcquire(p));
    steps := [] + [CallSleep(p, c)] + [OwnAcquire(p)];
    assert s1.th[p := s.th[p].(pc := SleepLocked(c), plock := By(p))] ==
           s.th[p := s.th[p].(pc := SleepLocked(c), plock := By(p))];
  }

  lemma SleepLeft(s: State, p: nat, c: Chan, a: seq<Step>) returns (steps: seq<Step>)
    requires Inv(s) && p < |s.th| && s.th[p].pc.Out? && AboutToSleep(s, p, c) && s.th[p].plock.Free?
    requires Goes(s, a, With(s, p, s.th[p].(pc := SleepLocked(c), plock := By(p))))
    ensures var t := s.th[p];
            Goes(s, steps,
                 With(s, p, t.(pc := OffCpu(c), run := Sleeping, chan := c, quiet := {})).(lock := s.lock - {c.lock}))
  {
    hide Goes, Inv;
    var t := s.th[p];
    QuietIsHeld(s, p, c);
    var l := s.lock - {c.lock};
    var s1 := With(s, p, t.(pc := SleepLocked(c), plock := By(p)));
    GoesOn(s, a, s1, Release(p, c.lock));
    var s2 := With(s, p, t.(pc := SleepSet(c), plock := By(p), quiet := {})).(lock := l);
    assert After(s1, Release(p, c.lock)) == s2;
    GoesOn(s, a + [Release(p, c.lock)], s2, SleepMark(p));
    var s3 := With(s, p, t.(pc := Switching(c), plock := By(p), quiet := {}, chan := c, run := Sleeping)).(lock := l);
    assert After(s2, SleepMark(p)) == s3;
    GoesOn(s, a + [Release(p, c.lock)] + [SleepMark(p)], s3, Swtch(p));
    var s4 := With(s, p, t.(pc := OffCpu(c), plock := Sched, quiet := {}, chan := c, run := Sleeping)).(lock := l);
    assert After(s3, Swtch(p)) == s4;
    GoesOn(s, a + [Release(p, c.lock)] + [SleepMark(p)] + [Swtch(p)], s4, SchedRelease(p));
    steps := a + [Release(p, c.lock)] + [SleepMark(p)] + [Swtch(p)] + [SchedRelease(p)];
    assert After(s4, SchedRelease(p)) ==
           With(s, p, t.(pc := OffCpu(c), run := Sleeping, chan := c, quiet := {})).(lock := l);
  }

  /** A process about to sleep has woken only channels of the one lock it holds. */
  lemma QuietIsHeld(s: State, p: nat, c: Chan)
    requires Inv(s) && p < |s.th| && AboutToSleep(s, p, c)
    ensures Unquiet(s.th[p].quiet, c.lock) == {} && s.th[p].owed == {}
  {
    hide Inv, LocksOk, NotLost, AtOk, ThreadOk;
    InvAt(s, p);
  }

  /** The way back from sleep once a process is RUNNABLE: it returns with the condition lock held and no channel. */
  lemma ReturnGoes(s: State, p: nat) returns (steps: seq<Step>)
    requires p < |s.th| && s.th[p].pc.OffCpu? && s.th[p].pc.c.Chan? && s.th[p].run.Runnable? && s.th[p].plock.Free?
    requires s.th[p].pc.c.lock !in s.lock
    ensures var t := s.th[p];
            Goes(s, steps, With(s, p, t.(pc := Out, run := Running, chan := NoChan)).(lock := s.lock[t.pc.c.lock := p]))
  {
    hide Goes;
    GoesNone(s);
    var t := s.th[p];
    var c := t.pc.c;
    GoesOn(s, [], s, SchedAcquire(p));
    var s1 := With(s, p, t.(plock := Sched));
    GoesOn(s, [] + [SchedAcquire(p)], s1, SchedRun(p));
    var s2 := With(s, p, t.(plock := By(p), run := Running, pc := Resumed(c)));
    assert After(s1, SchedRun(p)) == s2;
    var a := [] + [SchedAcquire(p)] + [SchedRun(p)];
    GoesOn(s, a, s2, Tidy(p));
    var s3 := With(s, p, t.(plock := By(p), run := Running, pc := Tidied(c), chan := NoChan));
    assert After(s2, Tidy(p)) == s3;
    GoesOn(s, a + [Tidy(p)], s3, OwnRelease(p));
    var s4 := With(s, p, t.(run := Running, pc := Reacquire(c), chan := NoChan));
    assert After(s3, OwnRelease(p)) == s4;
    GoesOn(s, a + [Tidy(p)] + [OwnRelease(p)], s4, Acquire(p, c.lock));
    steps := a + [Tidy(p)] + [OwnRelease(p)] + [Acquire(p, c.lock)];
    assert After(s4, Acquire(p, c.lock)) ==
           With(s, p, t.(pc := Out, run := Running, chan := NoChan)).(lock := s.lock[c.lock := p]);
  }

  /** The next step of a process inside sleep. */
  function SleepStep(t: Thread, p: nat): (st: Step)
    requires InSleep(t.pc) && t.pc.c.Chan?
  {
    match t.pc
    case SleepCall(_) => OwnAcquire(p)
    case SleepLocked(c) => Release(p, c.lock)
    case SleepSet(_) => SleepMark(p)
    case Switching(_) => Swtch(p)
    case OffCpu(_) => if t.plock.Sched? then SchedRun(p) else SchedAcquire(p)
    case Resumed(_) => Tidy(p)
    case Tidied(_) => OwnRelease(p)
    case Reacquire(c) => Acquire(p, c.lock)
  }

  /** A process inside sleep waits for its own p->lock, for the condition lock, or for being woken and run. */
  ghost predicate SleepWaits(s: State, p: nat)
    requires p < |s.th|
  {
    var t := s.th[p];
    || (t.pc.SleepCall? && !t.plock.Free?) || (t.pc.Reacquire? && t.pc.c.Chan? && t.pc.c.lock in s.lock)
    || (t.pc.OffCpu? && !(t.run.Runnable? && (t.plock.Free? || t.plock.Sched?)))
  }

  /** Nothing else holds it up. */
  lemma SleepMoves(s: State, p: nat)
    requires Inv(s) && p < |s.th| && InSleep(s.th[p].pc) && s.th[p].pc.c.Chan? && !SleepWaits(s, p)
    ensures Enabled(s, SleepStep(s.th[p], p))
  {
    hide Inv, NotLost, AtOk, OwedOk;
    InvAt(s, p);
  }

  // ----- wakeup

  /** A process as wakeup(c) leaves it. */
  function Woken(t: Thread, c: Chan): (r: Thread)
  {
    if t.run.Sleeping? && t.chan == c then t.(run := Runnable) else t
  }

  /** The table when wakeup(c) by process p has passed the first i processes. */
  ghost predicate Swept(s: State, p: nat, c: Chan, i: nat, r: State)
  {
    && |r.th| == |s.th| && p < |s.th| && i <= |s.th| && r.lock == s.lock && r.ready == s.ready
    && r.th[p] == s.th[p].(pc := Waking(c, i))
    && forall x :: 0 <= x < |s.th| && x != p ==> r.th[x] == if x < i then Woken(s.th[x], c) else s.th[x]
  }

  lemma SweepStep(s: State, p: nat, c: Chan, i: nat, steps: seq<Step>, r: State) returns (next: seq<Step>, e: State)
    requires Goes(s, steps, r) && Swept(s, p, c, i, r) && i < |s.th|
    requires forall x :: 0 <= x < |s.th| ==> s.th[x].plock.Free?
    ensures Goes(s, next, e) && Swept(s, p, c, i + 1, e)
  {
    hide Goes;
    if i == p {
      GoesOn(s, steps, r, WakeSelf(p));
      next, e := steps + [WakeSelf(p)], After(r, WakeSelf(p));
    } else {
      var st := OtherAcquire(p, i, Wake(c));
      GoesOn(s, steps, r, st);
      var m := After(r, st);
      GoesOn(s, steps + [st], m, OtherRelease(p));
      next, e := steps + [st] + [OtherRelease(p)], After(m, OtherRelease(p));
    }
  }

  lemma {:induction false} Sweep(s: State, p: nat, c: Chan, i: nat) returns (steps: seq<Step>, r: State)
    requires p < |s.th| && s.th[p].pc.Out? && c.Chan? && i <= |s.th|
    requires forall x :: 0 <= x < |s.th| ==> s.th[x].plock.Free?
    ensures Goes(s, steps, r) && Swept(s, p, c, i, r)
  {
    hide Goes;
    if i == 0 {
      GoesNone(s);
      GoesOn(s, [], s, CallWakeup(p, c));
      steps, r := [] + [CallWakeup(p, c)], After(s, CallWakeup(p, c));
    } else {
      var a, m := Sweep(s, p, c, i - 1);
      steps, r := SweepStep(s, p, c, i - 1, a, m);
    }
  }

  /** wakeup(c) to its end: exactly the processes that slept on c are RUNNABLE, nothing else about any process has
      changed, and the caller owes c no wakeup any more. */
  lemma WakeupGoes(s: State, p: nat, c: Chan) returns (steps: seq<Step>, r: State)
    requires p < |s.th| && s.th[p].pc.Out? && c.Chan? && forall x :: 0 <= x < |s.th| ==> s.th[x].plock.Free?
    ensures Goes(s, steps, r) && |r.th| == |s.th| && r.lock == s.lock && r.ready == s.ready
    ensures forall x :: 0 <= x < |s.th| && x != p ==>
              r.th[x] == if s.th[x].run.Sleeping? && s.th[x].chan == c then s.th[x].(run := Runnable) else s.th[x]
    ensures r.th[p].pc.Out? && r.th[p].run == s.th[p].run && r.th[p].owed == s.th[p].owed - {c}
    ensures Holds(s, p, c.lock) ==> r.th[p].quiet == s.th[p].quiet + {c}
  {
    hide Goes;
    var a, m := Sweep(s, p, c, |s.th|);
    GoesOn(s, a, m, WakeDone(p));
    steps, r := a + [WakeDone(p)], After(m, WakeDone(p));
  }

  // ----- the first and the last steps of a process

  /** A process that has never run is scheduled and leaves forkret. */
  lemma FirstGoes(s: State, i: nat) returns (steps: seq<Step>)
    requires i < |s.th| && s.th[i].pc.Newborn? && s.th[i].run.Runnable? && s.th[i].plock.Free?
    ensures Goes(s, steps, With(s, i, s.th[i].(pc := Out, run := Running)))
  {
    hide Goes, Unquiet, Released, ChangeOk, AboutToSleep, HoldsNone, Holds;
    GoesNone(s);
    var t := s.th[i];
    GoesOn(s, [], s, SchedAcquire(i));
    var s2 := With(s, i, t.(plock := Sched));
    GoesOn(s, [] + [SchedAcquire(i)], s2, SchedRun(i));
    var s3 := With(s, i, t.(pc := FirstRun, run := Running, plock := By(i)));
    assert After(s2, SchedRun(i)) == s3;
    GoesOn(s, [] + [SchedAcquire(i)] + [SchedRun(i)], s3, OwnRelease(i));
    steps := [] + [SchedAcquire(i)] + [SchedRun(i)] + [OwnRelease(i)];
    assert After(s3, OwnRelease(i)) == With(s, i, t.(pc := Out, run := Running));
  }

  /** A new process is made RUNNABLE, scheduled, and leaves forkret. */
  lemma StartGoes(s: State, p: nat, i: nat) returns (steps: seq<Step>)
    requires p < |s.th| && i < |s.th| && i != p && s.th[p].pc.Out? && s.th[i].pc.Dead? && s.th[i].plock.Free?
    ensures Goes(s, steps, With(s, i, s.th[i].(pc := Out, run := Running)))
  {
    hide Goes, Unquiet, Released, ChangeOk, AboutToSleep, HoldsNone, Holds;
    GoesNone(s);
    GoesOn(s, [], s, Spawn(p, i));
    var m := After(s, Spawn(p, i));
    var b := FirstGoes(m, i);
    var r := With(s, i, s.th[i].(pc := Out, run := Running));
    assert With(m, i, m.th[i].(pc := Out, run := Running)) == r;
    steps := GoesBoth(s, [] + [Spawn(p, i)], m, b, r);
  }

  /** The end of kexit: the process takes its own lock, leaves the processor, and the scheduler lets go of the lock. */
  lemma ExitGoes(s: State, p: nat) returns (steps: seq<Step>)
    requires p < |s.th| && s.th[p].pc.Out? && s.th[p].plock.Free? && HoldsNone(s, p)
    ensures Goes(s, steps, With(s, p, s.th[p].(pc := Dead, run := Off)))
  {
    hide Goes;
    GoesNone(s);
    var t := s.th[p];
    GoesOn(s, [], s, OwnAcquire(p));
    var s1 := With(s, p, t.(pc := Exiting, plock := By(p)));
    GoesOn(s, [] + [OwnAcquire(p)], s1, Swtch(p));
    var s2 := With(s, p, t.(pc := Dead, run := Off, plock := Sched));
    assert After(s1, Swtch(p)) == s2;
    GoesOn(s, [] + [OwnAcquire(p)] + [Swtch(p)], s2, SchedRelease(p));
    steps := [] + [OwnAcquire(p)] + [Swtch(p)] + [SchedRelease(p)];
    assert After(s2, SchedRelease(p)) == With(s, p, t.(pc := Dead, run := Off));
  }

  // ----- kkill

  /** kkill of process i: it does not sleep any more, whatever it slept on, and nothing else has changed. */
  lemma KillGoes(s: State, p: nat, i: nat) returns (steps: seq<Step>)
    requires p < |s.th| && i < |s.th| && i != p && s.th[p].pc.Out? && s.th[i].plock.Free?
    ensures Goes(s, steps, With(s, i, s.th[i].(run := if s.th[i].run.Sleeping? then Runnable else s.th[i].run)))
  {
    hide Goes;
    GoesNone(s);
    var st := OtherAcquire(p, i, Kill);
    GoesOn(s, [], s, st);
    var m := After(s, st);
    GoesOn(s, [] + [st], m, OtherRelease(p));
    steps := [] + [st] + [OtherRelease(p)];
    var r := With(s, i, s.th[i].(run := if s.th[i].run.Sleeping? then Runnable else s.th[i].run));
    assert After(m, OtherRelease(p)).th == r.th;
  }

  /** A process that sleeps, on whatever channel, can be killed awake and come back from sleep with its lock. */
  lemma KilledReturns(s: State, p: nat, i: nat) returns (steps: seq<Step>, r: State)
    requires Inv(s) && p < |s.th| && i < |s.th| && i != p && s.th[p].pc.Out?
    requires s.th[i].run.Sleeping? && s.th[i].plock.Free? && s.th[i].pc.OffCpu? && s.th[i].pc.c.lock !in s.lock
    ensures Goes(s, steps, r) && |r.th| == |s.th| && r.th[i].pc.Out? && r.th[i].run.Running?
    ensures Holds(r, i, s.th[i].pc.c.lock)
  {
    SleeperHasChan(s, i);
    hide Inv;
    var a := KillGoes(s, p, i);
    var m := With(s, i, s.th[i].(run := Runnable));
    var b := ReturnGoes(m, i);
    r := End(m, b);
    steps := GoesBoth(s, a, m, b, r);
  }

  lemma SleeperHasChan(s: State, i: nat)
    requires Inv(s) && i < |s.th| && s.th[i].run.Sleeping?
    ensures s.th[i].pc.c.Chan?
  {
    hide Inv, LocksOk, NotLost, AtOk, OwedOk;
    InvAt(s, i);
  }

  lemma {:induction false} GoesBoth(s: State, a: seq<Step>, m: State, b: seq<Step>, r: State) returns (steps: seq<Step>)
    requires Goes(s, a, m) && Goes(m, b, r)
    ensures Goes(s, steps, r)
    decreases |b|
  {
    hide Enabled, After;
    if b == [] {
      steps := a;
    } else {
      GoesOn(s, a, m, b[0]);
      steps := GoesBoth(s, a + [b[0]], After(m, b[0]), b[1..], r);
    }
  }
}
